/**
 * The deploy command (deploy.py): bootstrap the root stack if it does not
 * exist, upload the content-addressed templates, build and push the
 * container image, then update the root stack with the image digest.
 * Every AWS, file-system and subprocess effect is an answer read from a
 * `World`, and the command's effects are the trace of `Call`s it makes.
 */
module Deploy {
  import opened Wrappers
  import opened CustomResource
  import Intrinsics

  // ---------------------------------------------------------------------------
  // env_default
  // ---------------------------------------------------------------------------

  /** The argparse keywords env_default returns: required, or a default. */
  datatype ArgDefault = Required | Default(value: string)

  /** __package__.upper() */
  const PackagePrefix := "LAMBDAPLATFORM"

  function EnvKey(prefix: string, name: string): string
  {
    prefix + "_" + name
  }

  function EnvDefault(name: string, prefix: string, environment: map<string, string>): ArgDefault
  {
    var key := EnvKey(prefix, name);
    if key in environment then Default(environment[key]) else Required
  }

  /** An option is optional exactly when PREFIX_NAME is set, and then it
      defaults to that variable's value. */
  lemma EnvDefaultReads(name: string, prefix: string, environment: map<string, string>)
    ensures EnvDefault(name, prefix, environment).Required? <==> prefix + "_" + name !in environment
    ensures EnvDefault(name, prefix, environment).Default? ==>
              EnvDefault(name, prefix, environment).value == environment[prefix + "_" + name]
  {
  }

  /** With one prefix, the options of different names read different
      variables, so setting one never provides another. */
  lemma {:induction false} EnvKeysDistinct(prefix: string, name1: string, name2: string)
    requires name1 != name2
    ensures EnvKey(prefix, name1) != EnvKey(prefix, name2)
  {
    var p := prefix + "_";
    assert EnvKey(prefix, name1) == p + name1 && EnvKey(prefix, name2) == p + name2;
    assert (p + name1)[|p|..] == name1 && (p + name2)[|p|..] == name2;
  }

  // ---------------------------------------------------------------------------
  // stack_exists and get_stack_outputs
  // ---------------------------------------------------------------------------

  datatype Output = Output(key: string, value: string)

  /** A described stack; `outputs` is None when the response has no Outputs key. */
  datatype Stack = Stack(outputs: Option<seq<Output>>)

  /** What describe_stacks does: answer, raise a ClientError, or raise
      anything else. */
  datatype Describe = Described(stacks: seq<Stack>) | ClientError(clientError: Exc) | DescribeRaised(raised: Exc)

  function StackExists(d: Describe): Result<bool, Exc>
  {
    match d
    case Described(stacks) => Success(|stacks| > 0)
    case ClientError(_) => Success(false)
    case DescribeRaised(e) => Failure(e)
  }

  /** The dict comprehension: a later output with the same key wins. */
  function OutputMap(outputs: seq<Output>): map<string, string>
    decreases |outputs|
  {
    if |outputs| == 0 then map[]
    else OutputMap(outputs[..|outputs| - 1])[outputs[|outputs| - 1].key := outputs[|outputs| - 1].value]
  }

  function NotFound(stackName: string): Exc
  {
    Exc("Exception", "Stack '" + stackName + "' not found", true)
  }

  function GetStackOutputs(stackName: string, d: Describe): Result<map<string, string>, Exc>
  {
    match d
    case Described(stacks) =>
      if |stacks| == 0 then Failure(NotFound(stackName))
      else if stacks[0].outputs.None? then Failure(KeyError("Outputs"))
      else Success(OutputMap(stacks[0].outputs.value))
    case ClientError(_) => Failure(NotFound(stackName))
    case DescribeRaised(e) => Failure(e)
  }

  /** The keys are the OutputKeys, each mapped to the OutputValue of its last
      occurrence. */
  lemma {:induction false} OutputMapLookup(outputs: seq<Output>)
    ensures forall k :: k in OutputMap(outputs) <==> exists i :: 0 <= i < |outputs| && outputs[i].key == k
    ensures forall i :: 0 <= i < |outputs| && (forall j :: i < j < |outputs| ==> outputs[j].key != outputs[i].key) ==>
              OutputMap(outputs)[outputs[i].key] == outputs[i].value
    decreases |outputs|
  {
    if |outputs| > 0 {
      var init := outputs[..|outputs| - 1];
      OutputMapLookup(init);
      forall k | k in OutputMap(outputs)
        ensures exists i :: 0 <= i < |outputs| && outputs[i].key == k
      {
        if k != outputs[|outputs| - 1].key {
          var i :| 0 <= i < |init| && init[i].key == k;
          assert outputs[i] == init[i];
        }
      }
      forall k | exists i :: 0 <= i < |outputs| && outputs[i].key == k
        ensures k in OutputMap(outputs)
      {
        var i :| 0 <= i < |outputs| && outputs[i].key == k;
        if i < |init| {
          assert init[i] == outputs[i];
        }
      }
      forall i | 0 <= i < |outputs| && (forall j :: i < j < |outputs| ==> outputs[j].key != outputs[i].key)
        ensures OutputMap(outputs)[outputs[i].key] == outputs[i].value
      {
        if i < |init| {
          assert init[i] == outputs[i];
          forall j | i < j < |init| ensures init[j].key != init[i].key {
            assert init[j] == outputs[j];
          }
        }
      }
    }
  }

  /** The two readers of describe_stacks agree: outputs are found only for an
      existing stack, and a stack that does not exist is reported as not
      found. */
  lemma OutputsOnlyForExistingStack(stackName: string, d: Describe)
    ensures GetStackOutputs(stackName, d).Success? ==> StackExists(d) == Success(true)
    ensures StackExists(d) == Success(false) ==> GetStackOutputs(stackName, d) == Failure(NotFound(stackName))
    ensures StackExists(d).Failure? <==> GetStackOutputs(stackName, d).Failure? && d.DescribeRaised?
  {
  }

  // ---------------------------------------------------------------------------
  // get_ecr_credentials
  // ---------------------------------------------------------------------------

  /** str.split(sep, 1): the text before the first `sep` and the rest, or
      the whole string when there is no `sep`. */
  function SplitOnce(sep: char, s: string): seq<string>
    decreases |s|
  {
    if |s| == 0 then [""]
    else if s[0] == sep then ["", s[1..]]
    else
      var rest := SplitOnce(sep, s[1..]);
      [[s[0]] + rest[0]] + rest[1..]
  }

  /** One part and no separator, or two parts joined by the first separator. */
  lemma {:induction false} SplitOnceShape(sep: char, s: string)
    ensures var r := SplitOnce(sep, s);
            (|r| == 1 && r[0] == s && sep !in s) ||
            (|r| == 2 && r[0] + [sep] + r[1] == s && sep !in r[0])
    decreases |s|
  {
    if |s| > 0 && s[0] != sep {
      SplitOnceShape(sep, s[1..]);
      var rest := SplitOnce(sep, s[1..]);
      if |rest| == 2 {
        assert [s[0]] + rest[0] + [sep] + rest[1] == [s[0]] + (rest[0] + [sep] + rest[1]);
      }
    }
  }

  /** The split inverts a join at the first separator: later separators stay
      in the second part. */
  lemma {:induction false} SplitOnceJoin(sep: char, first: string, second: string)
    requires sep !in first
    ensures SplitOnce(sep, first + [sep] + second) == [first, second]
    decreases |first|
  {
    var s := first + [sep] + second;
    if |first| > 0 {
      SplitOnceJoin(sep, first[1..], second);
      assert s[1..] == first[1..] + [sep] + second;
      assert [first[0]] + first[1..] == first;
    } else {
      assert s[1..] == second;
    }
  }

  /** get_ecr_credentials on response["authorizationData"]: the first token,
      decoded (base64 and then UTF-8, by `decode`), split at its first ':'. */
  function GetEcrCredentials(authorizationData: seq<string>, decode: string -> Result<string, Exc>): Result<seq<string>, Exc>
  {
    if |authorizationData| == 0 then Failure(Exc("Exception", "Credentials not found", true))
    else match decode(authorizationData[0])
      case Failure(e) => Failure(e)
      case Success(token) => Success(SplitOnce(':', token))
  }

  /** The credentials are the user name before the first ':' and the
      password after it, and the two rejoined give back the token. */
  lemma CredentialsOfToken(authorizationData: seq<string>, decode: string -> Result<string, Exc>)
    requires |authorizationData| > 0 && decode(authorizationData[0]).Success?
    ensures var token := decode(authorizationData[0]).value;
            var r := GetEcrCredentials(authorizationData, decode);
            r.Success? && (|r.value| == 2 <==> ':' in token) &&
            (|r.value| == 2 ==> r.value[0] + ":" + r.value[1] == token && ':' !in r.value[0])
  {
    SplitOnceShape(':', decode(authorizationData[0]).value);
  }

  // ---------------------------------------------------------------------------
  // PurePosixPath and relative_to
  // ---------------------------------------------------------------------------

  /** A POSIX path as pathlib parses it: whether it is anchored at the root
      "/", and its components. */
  datatype PurePath = PurePath(absolute: bool, tail: seq<string>)

  /** A component pathlib keeps: "/"-free, neither empty nor ".". */
  predicate IsComponent(c: string)
  {
    c != "" && c != "." && '/' !in c
  }

  predicate AllComponents(cs: seq<string>)
  {
    forall i :: 0 <= i < |cs| ==> IsComponent(cs[i])
  }

  /** The "/"-separated fields pathlib keeps: empty fields (from repeated or
      trailing slashes) and "." are dropped, ".." is kept. */
  function Components(fields: seq<string>): seq<string>
    decreases |fields|
  {
    if |fields| == 0 then []
    else if fields[0] == "" || fields[0] == "." then Components(fields[1..])
    else [fields[0]] + Components(fields[1..])
  }

  function ParsePath(p: string): PurePath
  {
    PurePath(|p| > 0 && p[0] == '/', Components(Intrinsics.Split("/", p)))
  }

  /** str() of a parsed path; the empty relative path prints as ".". */
  function PathString(p: PurePath): string
  {
    if p.absolute then "/" + Intrinsics.Join("/", p.tail)
    else if |p.tail| == 0 then "."
    else Intrinsics.Join("/", p.tail)
  }

  /** PurePath.relative_to(base): `path` must have the anchor of `base` and
      begin with all of its components; the result is the remaining
      components, "." when none remain. Otherwise ValueError. */
  function RelativeTo(path: string, base: string): Result<string, Exc>
  {
    var p, b := ParsePath(path), ParsePath(base);
    if p.absolute == b.absolute && |b.tail| <= |p.tail| && p.tail[..|b.tail|] == b.tail
    then Success(PathString(PurePath(false, p.tail[|b.tail|..])))
    else Failure(Exc("ValueError", "'" + PathString(p) + "' is not in the subpath of '" + PathString(b) + "'", true))
  }

  lemma {:induction false} ComponentsAreComponents(fields: seq<string>)
    requires forall i :: 0 <= i < |fields| ==> '/' !in fields[i]
    ensures AllComponents(Components(fields))
    decreases |fields|
  {
    if |fields| > 0 {
      ComponentsAreComponents(fields[1..]);
    }
  }

  lemma {:induction false} ComponentsKeep(cs: seq<string>)
    requires AllComponents(cs)
    ensures Components(cs) == cs
    decreases |cs|
  {
    if |cs| > 0 {
      ComponentsKeep(cs[1..]);
      assert cs == [cs[0]] + cs[1..];
    }
  }

  /** Every parsed path is made of components. */
  lemma ParsedComponents(p: string)
    ensures AllComponents(ParsePath(p).tail)
  {
    Intrinsics.SplitPartsLackDelim('/', p);
    ComponentsAreComponents(Intrinsics.Split("/", p));
  }

  lemma JoinStartsWith(parts: seq<string>)
    requires |parts| >= 1
    ensures parts[0] <= Intrinsics.Join("/", parts)
  {
  }

  /** Printing a path and parsing it again gives it back. */
  lemma ParsePathString(p: PurePath)
    requires AllComponents(p.tail)
    ensures ParsePath(PathString(p)) == p
  {
    var s := PathString(p);
    if |p.tail| == 0 {
      if p.absolute {
        assert s == "/" + "";
        Intrinsics.SplitAtDelim("/", "");
        assert Intrinsics.Split("/", s) == ["", ""];
        assert Components(["", ""]) == Components([""]) == [];
      } else {
        assert s == "." && s[0] == '.' && s[..1] == "." && s[1..] == "";
        assert !("/" <= s);
        assert Intrinsics.Split("/", "") == [""];
        assert Intrinsics.Split("/", s) == Intrinsics.PrependFirst(".", [""]);
        assert "." + "" == ".";
        assert Intrinsics.Split("/", s) == ["."];
        assert Components(["."]) == [];
      }
    } else {
      var j := Intrinsics.Join("/", p.tail);
      forall i | 0 <= i < |p.tail| ensures '/' !in p.tail[i] { }
      Intrinsics.SplitJoin('/', p.tail);
      ComponentsKeep(p.tail);
      JoinStartsWith(p.tail);
      assert j[0] == p.tail[0][0] != '/';
      if p.absolute {
        Intrinsics.SplitAtDelim("/", j);
      }
    }
  }

  /** relative_to gives the path's components after those of `base`, so
      `base` joined with the result names `path` again; and every path below
      `base` is related to it, "." and "/" included. */
  lemma RelativeToChild(path: string, base: string, rest: seq<string>)
    ensures RelativeTo(path, base).Success? ==>
              var b := ParsePath(base);
              ParsePath(path) == PurePath(b.absolute, b.tail + ParsePath(RelativeTo(path, base).value).tail)
    ensures AllComponents(rest) ==>
              var b := ParsePath(base);
              RelativeTo(PathString(PurePath(b.absolute, b.tail + rest)), base) == Success(PathString(PurePath(false, rest)))
  {
    var b := ParsePath(base);
    var p := ParsePath(path);
    ParsedComponents(path);
    ParsedComponents(base);
    if RelativeTo(path, base).Success? {
      var remaining := p.tail[|b.tail|..];
      forall i | 0 <= i < |remaining| ensures IsComponent(remaining[i]) {
        assert remaining[i] == p.tail[|b.tail| + i];
      }
      ParsePathString(PurePath(false, remaining));
      assert p.tail == b.tail + remaining;
    }
    if AllComponents(rest) {
      var q := PurePath(b.absolute, b.tail + rest);
      forall i | 0 <= i < |q.tail| ensures IsComponent(q.tail[i]) {
        if i >= |b.tail| {
          assert q.tail[i] == rest[i - |b.tail|];
        }
      }
      ParsePathString(q);
      assert q.tail[..|b.tail|] == b.tail && q.tail[|b.tail|..] == rest;
    }
  }

  lemma PathOfComponents(c: string)
    requires IsComponent(c)
    ensures ParsePath(c) == PurePath(false, [c])
    ensures ParsePath("/" + c) == PurePath(true, [c])
  {
    assert PathString(PurePath(false, [c])) == c;
    ParsePathString(PurePath(false, [c]));
    assert PathString(PurePath(true, [c])) == "/" + c;
    ParsePathString(PurePath(true, [c]));
  }

  /** With the template directory ".", a file's key is its own path. */
  lemma RelativeToDot(c1: string, c2: string)
    requires IsComponent(c1) && IsComponent(c2)
    ensures RelativeTo(c1, ".") == Success(c1)
    ensures RelativeTo(c1 + "/" + c2, ".") == Success(c1 + "/" + c2)
  {
    ParsePathString(PurePath(false, []));
    assert PathString(PurePath(false, [])) == ".";
    RelativeToChild(c1, ".", [c1]);
    assert PathString(PurePath(false, [] + [c1])) == c1;
    var j := Intrinsics.Join("/", [c1, c2]);
    assert [c1, c2][1..] == [c2];
    assert Intrinsics.Join("/", [c2]) == c2;
    assert j == c1 + "/" + c2;
    RelativeToChild(j, ".", [c1, c2]);
    assert [] + [c1, c2] == [c1, c2];
    assert PathString(PurePath(false, [c1, c2])) == j;
  }

  /** With the template directory "/", a file's key drops the root. */
  lemma RelativeToRoot(c: string)
    requires IsComponent(c)
    ensures RelativeTo("/" + c, "/") == Success(c)
  {
    ParsePathString(PurePath(true, []));
    assert PathString(PurePath(true, [])) == "/" + "" == "/";
    RelativeToChild("/" + c, "/", [c]);
    assert PathString(PurePath(true, [] + [c])) == "/" + c;
    assert PathString(PurePath(false, [c])) == c;
  }

  /** A trailing "/" on a directory does not change it. */
  lemma RelativeToTrailingSlash(c: string)
    requires IsComponent(c)
    ensures RelativeTo(c + "/", c) == Success(".")
  {
    PathOfComponents(c);
    Intrinsics.SplitSkip("/", c, "/");
    Intrinsics.SplitAtDelim("/", "");
    assert "/" + "" == "/";
    assert Intrinsics.Split("/", "/") == ["", ""];
    assert Intrinsics.Split("/", c + "/") == Intrinsics.PrependFirst(c, ["", ""]);
    assert c + "" == c;
    assert Intrinsics.Split("/", c + "/") == [c, ""];
    assert Components([c, ""]) == [c] + Components([""]);
    assert ParsePath(c + "/") == PurePath(false, [c]);
  }

  /** Paths neither of which contains the other: ValueError naming both. */
  lemma RelativeToUnrelated(c1: string, c2: string)
    requires IsComponent(c1) && IsComponent(c2) && c1 != c2
    ensures RelativeTo(c1, c2) == Failure(Exc("ValueError", "'" + c1 + "' is not in the subpath of '" + c2 + "'", true))
  {
    PathOfComponents(c1);
    PathOfComponents(c2);
    assert PathString(PurePath(false, [c1])) == c1;
    assert PathString(PurePath(false, [c2])) == c2;
  }

  // ---------------------------------------------------------------------------
  // main
  // ---------------------------------------------------------------------------

  /** The parsed command line. */
  datatype Args = Args(stackName: string, templatePath: string, primaryTemplatePath: string, imageGenerator: string)

  /** A path the glob under the template directory yields. */
  datatype Entry = Entry(path: string, isFile: bool)

  /** Everything the outside world answers, in the order main asks. An
      Option<Exc> is the exception a step raises, if any. */
  datatype World = World(
    probe: Describe,                          // describe_stacks in stack_exists
    templateBody: Result<string, Exc>,        // reading the primary template
    created: Result<string, Exc>,             // create_stack: its StackId
    createWait: Option<Exc>,                  // the stack_create_complete waiter
    describe: Describe,                       // describe_stacks in get_stack_outputs
    entries: seq<Entry>,                      // template_path.glob("**/*")
    open: string -> Option<Exc>,              // opening the file at a glob path
    upload: string -> Option<Exc>,            // upload_fileobj of the object at a key
    tempDir: string,                          // the temporary directory
    generate: Option<Exc>,                    // the image generator
    pack: Option<Exc>,                        // skopeo copy into dir:
    inspect: Result<string, Exc>,             // skopeo inspect: its stdout
    digestOf: string -> Result<string, Exc>,  // json.loads(stdout)["Digest"]
    authorization: Result<seq<string>, Exc>,  // get_authorization_token: the tokens
    decode: string -> Result<string, Exc>,    // base64 and UTF-8 decoding
    push: Option<Exc>,                        // skopeo copy to the repository
    updated: Result<string, Exc>,             // update_stack: its StackId
    updateWait: Option<Exc>)                  // the stack_update_complete waiter

  datatype SkopeoStep = Pack | Inspect | Push

  /** An external effect of main, in the order made. */
  datatype Call =
    | ProbeStack(probeName: string)
    | CreateStack(createName: string, templateBody: string, createCapabilities: seq<string>, onFailure: string)
    | WaitCreateComplete(createdId: string)
    | DescribeOutputs(describeName: string)
    | Upload(bucket: string, key: string)
    | Generate(executable: string, imagePath: string)
    | Skopeo(step: SkopeoStep, argv: seq<string>)
    | GetAuthorizationToken
    | UpdateStack(updateName: string, templateUrl: string, parameters: seq<(string, string)>, updateCapabilities: seq<string>)
    | WaitUpdateComplete(updatedId: string)

  /** The position of each kind of call in main's sequence of steps. */
  function Rank(c: Call): nat
  {
    match c
    case ProbeStack(_) => 0
    case CreateStack(_, _, _, _) => 1
    case WaitCreateComplete(_) => 2
    case DescribeOutputs(_) => 3
    case Upload(_, _) => 4
    case Generate(_, _) => 5
    case Skopeo(step, _) => (match step case Pack => 6 case Inspect => 7 case Push => 9)
    case GetAuthorizationToken => 8
    case UpdateStack(_, _, _, _) => 10
    case WaitUpdateComplete(_) => 11
  }

  predicate Ordered(calls: seq<Call>)
  {
    forall i, j :: 0 <= i < j < |calls| ==> Rank(calls[i]) <= Rank(calls[j])
  }

  predicate RanksWithin(calls: seq<Call>, lo: nat, hi: nat)
  {
    forall i :: 0 <= i < |calls| ==> lo <= Rank(calls[i]) <= hi
  }

  function UnpackError(): Exc
  {
    Exc("ValueError", "not enough values to unpack (expected 2, got 1)", true)
  }

  function Capabilities(): seq<string>
  {
    ["CAPABILITY_IAM"]
  }

  function PackArgs(image: string, canonical: string): seq<string>
  {
    ["skopeo", "copy", "docker-archive:" + image, "dir:" + canonical, "--insecure-policy", "--dest-compress"]
  }

  function PushArgs(canonical: string, repository: string, username: string, password: string): seq<string>
  {
    ["skopeo", "copy", "dir:" + canonical, "docker://" + repository + ":latest",
     "--insecure-policy", "--dest-creds", username + ":" + password]
  }

  function TemplateUrl(bucket: string, path: string): string
  {
    "https://" + bucket + ".s3.amazonaws.com/" + path
  }

  /** Lines 88-100: create the stack unless it exists, then read its outputs. */
  function Bootstrap(a: Args, w: World): (seq<Call>, Result<map<string, string>, Exc>)
  {
    var probe := [ProbeStack(a.stackName)];
    match StackExists(w.probe)
    case Failure(e) => (probe, Failure(e))
    case Success(found) =>
      if found then (probe + [DescribeOutputs(a.stackName)], GetStackOutputs(a.stackName, w.describe))
      else match w.templateBody
        case Failure(e) => (probe, Failure(e))
        case Success(body) =>
          var create := probe + [CreateStack(a.stackName, body, Capabilities(), "DELETE")];
          match w.created
          case Failure(e) => (create, Failure(e))
          case Success(id) =>
            var waited := create + [WaitCreateComplete(id)];
            if w.createWait.Some? then (waited, Failure(w.createWait.value))
            else (waited + [DescribeOutputs(a.stackName)], GetStackOutputs(a.stackName, w.describe))
  }

  /** Lines 105-110: upload every file under the template directory under
      its relative path, stopping at the first failure; each file is opened
      before its key is computed and its upload made. */
  function Uploads(bucket: string, base: string, entries: seq<Entry>, open: string -> Option<Exc>, upload: string -> Option<Exc>): (seq<Call>, Option<Exc>)
    decreases |entries|
  {
    if |entries| == 0 then ([], None)
    else
      var (calls, failed) := Uploads(bucket, base, entries[..|entries| - 1], open, upload);
      var e := entries[|entries| - 1];
      if failed.Some? || !e.isFile then (calls, failed)
      else if open(e.path).Some? then (calls, open(e.path))
      else match RelativeTo(e.path, base)
        case Failure(x) => (calls, Some(x))
        case Success(key) => (calls + [Upload(bucket, key)], upload(key))
  }

  function ImagePath(w: World): string
  {
    w.tempDir + "/image.tar"
  }

  function CanonicalPath(w: World): string
  {
    w.tempDir + "/canonical-image"
  }

  /** Lines 116-141: generate, pack and inspect the image; the result is its
      digest. */
  function BuildImage(a: Args, w: World): (seq<Call>, Result<string, Exc>)
  {
    var generated := [Generate(a.imageGenerator, ImagePath(w))];
    if w.generate.Some? then (generated, Failure(w.generate.value)) else
    var packed := generated + [Skopeo(Pack, PackArgs(ImagePath(w), CanonicalPath(w)))];
    if w.pack.Some? then (packed, Failure(w.pack.value)) else
    var inspected := packed + [Skopeo(Inspect, ["skopeo", "inspect", "dir:" + CanonicalPath(w)])];
    match w.inspect
    case Failure(e) => (inspected, Failure(e))
    case Success(stdout) => (inspected, w.digestOf(stdout))
  }

  /** Lines 143-156: fetch the registry credentials and push the image. */
  function PushImage(w: World, outputs: map<string, string>): (seq<Call>, Result<(), Exc>)
  {
    if "ArtifactRepositoryUrl" !in outputs then ([], Failure(KeyError("ArtifactRepositoryUrl"))) else
    var authorized := [GetAuthorizationToken];
    match w.authorization
    case Failure(e) => (authorized, Failure(e))
    case Success(tokens) =>
      match GetEcrCredentials(tokens, w.decode)
      case Failure(e) => (authorized, Failure(e))
      case Success(credentials) =>
        if |credentials| != 2 then (authorized, Failure(UnpackError())) else
        var pushed := authorized + [Skopeo(Push, PushArgs(CanonicalPath(w), outputs["ArtifactRepositoryUrl"], credentials[0], credentials[1]))];
        if w.push.Some? then (pushed, Failure(w.push.value)) else (pushed, Success(()))
  }

  /** Lines 158-172: update the stack with the image digest and wait. */
  function UpdatePhase(a: Args, w: World, bucket: string, digest: string): (seq<Call>, Result<(), Exc>)
  {
    match RelativeTo(a.primaryTemplatePath, a.templatePath)
    case Failure(e) => ([], Failure(e))
    case Success(path) =>
      var update := [UpdateStack(a.stackName, TemplateUrl(bucket, path), [("ImageDigest", digest)], Capabilities())];
      match w.updated
      case Failure(e) => (update, Failure(e))
      case Success(id) =>
        var waited := update + [WaitUpdateComplete(id)];
        if w.updateWait.Some? then (waited, Failure(w.updateWait.value)) else (waited, Success(()))
  }

  /** main: the calls made and whether it returns or raises. */
  function Deployment(a: Args, w: World): (seq<Call>, Result<(), Exc>)
  {
    var (c1, r1) := Bootstrap(a, w);
    if r1.Failure? then (c1, Failure(r1.error))
    else
      var (rest, r) := AfterBootstrap(a, w, r1.value);
      (c1 + rest, r)
  }

  /** Lines 102-172, given the stack's outputs. */
  function AfterBootstrap(a: Args, w: World, outputs: map<string, string>): (seq<Call>, Result<(), Exc>)
  {
    if "ArtifactBucket" !in outputs then ([], Failure(KeyError("ArtifactBucket")))
    else
      var bucket := outputs["ArtifactBucket"];
      var (c2, e2) := Uploads(bucket, a.templatePath, w.entries, w.open, w.upload);
      if e2.Some? then (c2, Failure(e2.value))
      else
        var (c3, r3) := BuildImage(a, w);
        if r3.Failure? then (c2 + c3, Failure(r3.error))
        else
          var (c4, r4) := PushImage(w, outputs);
          if r4.Failure? then (c2 + c3 + c4, Failure(r4.error))
          else
            var (c5, r5) := UpdatePhase(a, w, bucket, r3.value);
            (c2 + c3 + c4 + c5, r5)
  }

  /** Once an upload has failed, the later entries add nothing. */
  lemma {:induction false} UploadsStop(bucket: string, base: string, entries: seq<Entry>, k: nat, open: string -> Option<Exc>, upload: string -> Option<Exc>)
    requires k <= |entries|
    requires Uploads(bucket, base, entries[..k], open, upload).1.Some?
    ensures Uploads(bucket, base, entries, open, upload) == Uploads(bucket, base, entries[..k], open, upload)
    decreases |entries| - k
  {
    if k < |entries| {
      var init := entries[..|entries| - 1];
      assert init[..k] == entries[..k];
      UploadsStop(bucket, base, init, k, open, upload);
    } else {
      assert entries[..k] == entries;
    }
  }

  /** `key` is the key of a file the glob yielded that was opened. */
  predicate OpenedFileKey(key: string, base: string, entries: seq<Entry>, open: string -> Option<Exc>)
  {
    exists i :: 0 <= i < |entries| && entries[i].isFile && open(entries[i].path).None? &&
                RelativeTo(entries[i].path, base) == Success(key)
  }

  /** Every call is an upload to `bucket` of a file the glob yielded, opened. */
  predicate UploadsOfOpenedFiles(calls: seq<Call>, bucket: string, base: string, entries: seq<Entry>, open: string -> Option<Exc>)
  {
    forall j :: 0 <= j < |calls| ==>
      calls[j].Upload? && calls[j].bucket == bucket && OpenedFileKey(calls[j].key, base, entries, open)
  }

  /** Every upload is of a file the glob yielded, made only once that file
      was opened, under the file's path relative to the template directory. */
  lemma {:induction false} UploadsOpened(bucket: string, base: string, entries: seq<Entry>, open: string -> Option<Exc>, upload: string -> Option<Exc>)
    ensures UploadsOfOpenedFiles(Uploads(bucket, base, entries, open, upload).0, bucket, base, entries, open)
    decreases |entries|
  {
    if |entries| > 0 {
      var init := entries[..|entries| - 1];
      UploadsOpened(bucket, base, init, open, upload);
      var (c0, f0) := Uploads(bucket, base, init, open, upload);
      var c := Uploads(bucket, base, entries, open, upload).0;
      var e := entries[|entries| - 1];
      var last := f0.None? && e.isFile && open(e.path).None? && RelativeTo(e.path, base).Success?;
      if last {
        assert c == c0 + [Upload(bucket, RelativeTo(e.path, base).value)];
      } else {
        assert c == c0;
      }
      forall j | 0 <= j < |c|
        ensures c[j].Upload? && c[j].bucket == bucket && OpenedFileKey(c[j].key, base, entries, open)
      {
        if j < |c0| {
          assert c[j] == c0[j];
          var i :| 0 <= i < |init| && init[i].isFile && open(init[i].path).None? &&
                   RelativeTo(init[i].path, base) == Success(c0[j].key);
          assert entries[i] == init[i];
        } else {
          assert last && c[j] == Upload(bucket, RelativeTo(e.path, base).value);
          assert entries[|entries| - 1] == e;
        }
      }
    }
  }

  /** main, step by step. */
  method RunDeployment(a: Args, w: World) returns (calls: seq<Call>, outcome: Result<(), Exc>)
    ensures (calls, outcome) == Deployment(a, w)
  {
    // bootstrap
    calls := [ProbeStack(a.stackName)];
    var found := StackExists(w.probe);
    if found.Failure? {
      return calls, Failure(found.error);
    }
    if !found.value {
      if w.templateBody.Failure? {
        return calls, Failure(w.templateBody.error);
      }
      calls := calls + [CreateStack(a.stackName, w.templateBody.value, Capabilities(), "DELETE")];
      if w.created.Failure? {
        return calls, Failure(w.created.error);
      }
      calls := calls + [WaitCreateComplete(w.created.value)];
      if w.createWait.Some? {
        return calls, Failure(w.createWait.value);
      }
    }
    calls := calls + [DescribeOutputs(a.stackName)];
    var described := GetStackOutputs(a.stackName, w.describe);
    if described.Failure? {
      return calls, Failure(described.error);
    }
    var outputs := described.value;
    assert Bootstrap(a, w) == (calls, Success(outputs));
    var rest;
    rest, outcome := RunAfterBootstrap(a, w, outputs);
    calls := calls + rest;
  }

  /** main from line 102 on, once the outputs are known. */
  method RunAfterBootstrap(a: Args, w: World, outputs: map<string, string>)
    returns (calls: seq<Call>, outcome: Result<(), Exc>)
    ensures (calls, outcome) == AfterBootstrap(a, w, outputs)
  {
    if "ArtifactBucket" !in outputs {
      return [], Failure(KeyError("ArtifactBucket"));
    }
    var bucket := outputs["ArtifactBucket"];

    // template uploads
    calls := [];
    for k := 0 to |w.entries|
      invariant Uploads(bucket, a.templatePath, w.entries[..k], w.open, w.upload) == (calls, None)
    {
      assert w.entries[..k + 1][..k] == w.entries[..k];
      var entry := w.entries[k];
      if entry.isFile {
        var openFailure := w.open(entry.path);
        if openFailure.Some? {
          UploadsStop(bucket, a.templatePath, w.entries, k + 1, w.open, w.upload);
          return calls, Failure(openFailure.value);
        }
        var key := RelativeTo(entry.path, a.templatePath);
        if key.Failure? {
          UploadsStop(bucket, a.templatePath, w.entries, k + 1, w.open, w.upload);
          return calls, Failure(key.error);
        }
        calls := calls + [Upload(bucket, key.value)];
        var failed := w.upload(key.value);
        if failed.Some? {
          UploadsStop(bucket, a.templatePath, w.entries, k + 1, w.open, w.upload);
          return calls, Failure(failed.value);
        }
      }
    }
    assert w.entries[..|w.entries|] == w.entries;

    // the image
    var image := w.tempDir + "/image.tar";
    var canonical := w.tempDir + "/canonical-image";
    var steps := [Generate(a.imageGenerator, image)];
    if w.generate.Some? {
      return calls + steps, Failure(w.generate.value);
    }
    steps := steps + [Skopeo(Pack, PackArgs(image, canonical))];
    if w.pack.Some? {
      return calls + steps, Failure(w.pack.value);
    }
    steps := steps + [Skopeo(Inspect, ["skopeo", "inspect", "dir:" + canonical])];
    if w.inspect.Failure? {
      return calls + steps, Failure(w.inspect.error);
    }
    var digest := w.digestOf(w.inspect.value);
    calls := calls + steps;
    if digest.Failure? {
      return calls, Failure(digest.error);
    }
    if "ArtifactRepositoryUrl" !in outputs {
      assert calls + [] == calls;
      return calls, Failure(KeyError("ArtifactRepositoryUrl"));
    }
    steps := [GetAuthorizationToken];
    if w.authorization.Failure? {
      return calls + steps, Failure(w.authorization.error);
    }
    var credentials := GetEcrCredentials(w.authorization.value, w.decode);
    if credentials.Failure? {
      return calls + steps, Failure(credentials.error);
    }
    if |credentials.value| != 2 {
      return calls + steps, Failure(UnpackError());
    }
    var username, password := credentials.value[0], credentials.value[1];
    steps := steps + [Skopeo(Push, PushArgs(canonical, outputs["ArtifactRepositoryUrl"], username, password))];
    calls := calls + steps;
    if w.push.Some? {
      return calls, Failure(w.push.value);
    }

    // the update
    var path := RelativeTo(a.primaryTemplatePath, a.templatePath);
    if path.Failure? {
      assert calls + [] == calls;
      return calls, Failure(path.error);
    }
    steps := [UpdateStack(a.stackName, TemplateUrl(bucket, path.value), [("ImageDigest", digest.value)], Capabilities())];
    if w.updated.Failure? {
      return calls + steps, Failure(w.updated.error);
    }
    steps := steps + [WaitUpdateComplete(w.updated.value)];
    calls := calls + steps;
    if w.updateWait.Some? {
      return calls, Failure(w.updateWait.value);
    }
    outcome := Success(());
  }

  // ---------------------------------------------------------------------------
  // Properties of main
  // ---------------------------------------------------------------------------

  lemma OrderedConcat(a: seq<Call>, b: seq<Call>, lo: nat, mid: nat, hi: nat)
    requires lo <= mid <= hi
    requires Ordered(a) && Ordered(b) && RanksWithin(a, lo, mid) && RanksWithin(b, mid, hi)
    ensures Ordered(a + b) && RanksWithin(a + b, lo, hi)
  {
    var ab := a + b;
    forall i, j | 0 <= i < j < |ab|
      ensures Rank(ab[i]) <= Rank(ab[j])
    {
      if j < |a| {
        assert ab[i] == a[i] && ab[j] == a[j];
      } else if i >= |a| {
        assert ab[i] == b[i - |a|] && ab[j] == b[j - |a|];
      } else {
        assert ab[i] == a[i] && ab[j] == b[j - |a|];
      }
    }
    forall i | 0 <= i < |ab|
      ensures lo <= Rank(ab[i]) <= hi
    {
      if i < |a| { assert ab[i] == a[i]; } else { assert ab[i] == b[i - |a|]; }
    }
  }

  lemma {:induction false} UploadsRanks(bucket: string, base: string, entries: seq<Entry>, open: string -> Option<Exc>, upload: string -> Option<Exc>)
    ensures var c := Uploads(bucket, base, entries, open, upload).0;
            Ordered(c) && RanksWithin(c, 4, 4)
    decreases |entries|
  {
    if |entries| > 0 {
      UploadsRanks(bucket, base, entries[..|entries| - 1], open, upload);
    }
  }

  lemma BootstrapRanks(a: Args, w: World)
    ensures var c := Bootstrap(a, w).0; Ordered(c) && RanksWithin(c, 0, 3)
  {
  }

  lemma OrderedSnoc(c: seq<Call>, x: Call, lo: nat)
    requires lo <= Rank(x) && Ordered(c) && RanksWithin(c, lo, Rank(x))
    ensures Ordered(c + [x]) && RanksWithin(c + [x], lo, Rank(x))
  {
    OrderedConcat(c, [x], lo, Rank(x), Rank(x));
  }

  lemma BuildRanks(a: Args, w: World)
    ensures var c := BuildImage(a, w).0; Ordered(c) && RanksWithin(c, 5, 7)
  {
    var c := [Generate(a.imageGenerator, ImagePath(w))];
    if w.generate.None? {
      OrderedSnoc(c, Skopeo(Pack, PackArgs(ImagePath(w), CanonicalPath(w))), 5);
      c := c + [Skopeo(Pack, PackArgs(ImagePath(w), CanonicalPath(w)))];
      if w.pack.None? {
        OrderedSnoc(c, Skopeo(Inspect, ["skopeo", "inspect", "dir:" + CanonicalPath(w)]), 5);
      }
    }
  }

  lemma PushRanks(w: World, outputs: map<string, string>)
    ensures var c := PushImage(w, outputs).0; Ordered(c) && RanksWithin(c, 8, 9)
  {
    var c := PushImage(w, outputs).0;
    if |c| == 2 {
      OrderedSnoc([c[0]], c[1], 8);
      assert c == [c[0]] + [c[1]];
    }
  }

  /** A push that succeeds ends with the skopeo push. */
  /** An image build that succeeds ends with the digest of skopeo inspect's output. */
  lemma BuildSucceeded(a: Args, w: World)
    ensures BuildImage(a, w).1.Success? ==>
              w.inspect.Success? && BuildImage(a, w).1 == w.digestOf(w.inspect.value)
  {
  }

  lemma PushSucceeded(w: World, outputs: map<string, string>)
    ensures var (c, r) := PushImage(w, outputs);
            r.Success? ==> |c| == 2 && c[1].Skopeo? && c[1].step == Push
  {
  }

  /** An update that succeeds is the update_stack call and its wait. */
  lemma UpdateSucceeded(a: Args, w: World, bucket: string, digest: string)
    ensures var (c, r) := UpdatePhase(a, w, bucket, digest);
            r.Success? ==>
              RelativeTo(a.primaryTemplatePath, a.templatePath).Success? && w.updated.Success? &&
              c == [UpdateStack(a.stackName, TemplateUrl(bucket, RelativeTo(a.primaryTemplatePath, a.templatePath).value),
                                [("ImageDigest", digest)], ["CAPABILITY_IAM"]),
                    WaitUpdateComplete(w.updated.value)]
  {
  }

  lemma UpdateRanks(a: Args, w: World, bucket: string, digest: string)
    ensures var c := UpdatePhase(a, w, bucket, digest).0; Ordered(c) && RanksWithin(c, 10, 11)
  {
    var c := UpdatePhase(a, w, bucket, digest).0;
    match RelativeTo(a.primaryTemplatePath, a.templatePath)
    case Failure(_) =>
      assert c == [];
    case Success(path) =>
      var u := UpdateStack(a.stackName, TemplateUrl(bucket, path), [("ImageDigest", digest)], Capabilities());
      assert Rank(u) == 10;
      if w.updated.Success? {
        assert c == [u, WaitUpdateComplete(w.updated.value)];
      } else {
        assert c == [u];
      }
  }

  lemma AfterBootstrapRanks(a: Args, w: World, outputs: map<string, string>)
    ensures var c := AfterBootstrap(a, w, outputs).0; Ordered(c) && RanksWithin(c, 4, 11)
  {
    if "ArtifactBucket" in outputs {
      var bucket := outputs["ArtifactBucket"];
      var (c2, e2) := Uploads(bucket, a.templatePath, w.entries, w.open, w.upload);
      UploadsRanks(bucket, a.templatePath, w.entries, w.open, w.upload);
      if e2.None? {
        var (c3, r3) := BuildImage(a, w);
        BuildRanks(a, w);
        OrderedConcat(c2, c3, 4, 4, 7);
        if r3.Success? {
          var (c4, r4) := PushImage(w, outputs);
          PushRanks(w, outputs);
          OrderedConcat(c2 + c3, c4, 4, 7, 9);
          if r4.Success? {
            UpdateRanks(a, w, bucket, r3.value);
            OrderedConcat(c2 + c3 + c4, UpdatePhase(a, w, bucket, r3.value).0, 4, 9, 11);
          }
        }
      }
    }
  }

  /** The calls follow the order of main: bootstrap, uploads, image
      generation, packing, inspection, credentials, push, update, wait. */
  lemma DeploymentOrdered(a: Args, w: World)
    ensures Ordered(Deployment(a, w).0)
  {
    var (c1, r1) := Bootstrap(a, w);
    BootstrapRanks(a, w);
    if r1.Success? {
      AfterBootstrapRanks(a, w, r1.value);
      OrderedConcat(c1, AfterBootstrap(a, w, r1.value).0, 0, 3, 11);
    }
  }

  /** Within the bootstrap, create_stack is the second call, made exactly
      when the stack is absent and its template could be read. */
  lemma BootstrapCreates(a: Args, w: World)
    ensures var c := Bootstrap(a, w).0;
            forall i :: 0 <= i < |c| && c[i].CreateStack? ==>
              i == 1 && StackExists(w.probe) == Success(false) &&
              c[i] == CreateStack(a.stackName, w.templateBody.value, ["CAPABILITY_IAM"], "DELETE")
    ensures var c := Bootstrap(a, w).0;
            StackExists(w.probe) == Success(false) && w.templateBody.Success? ==> |c| > 1 && c[1].CreateStack?
  {
  }

  /** create_stack is called only for a stack that does not exist, exactly
      once then, with the primary template, CAPABILITY_IAM and OnFailure
      DELETE. */
  lemma CreateOnlyWhenAbsent(a: Args, w: World)
    ensures var calls := Deployment(a, w).0;
            forall i :: 0 <= i < |calls| && calls[i].CreateStack? ==>
              i == 1 && StackExists(w.probe) == Success(false) &&
              calls[i] == CreateStack(a.stackName, w.templateBody.value, ["CAPABILITY_IAM"], "DELETE")
    ensures var calls := Deployment(a, w).0;
            StackExists(w.probe) == Success(false) && w.templateBody.Success? ==>
              |calls| > 1 && calls[1].CreateStack?
  {
    var calls := Deployment(a, w).0;
    var (c1, r1) := Bootstrap(a, w);
    BootstrapCreates(a, w);
    if r1.Success? {
      var rest := AfterBootstrap(a, w, r1.value).0;
      AfterBootstrapRanks(a, w, r1.value);
      assert calls == c1 + rest;
      forall i | |c1| <= i < |calls|
        ensures !calls[i].CreateStack?
      {
        assert calls[i] == rest[i - |c1|];
      }
    }
  }

  /** A run past the bootstrap that returns went through all four phases. */
  lemma AfterBootstrapPhases(a: Args, w: World, outputs: map<string, string>)
    ensures AfterBootstrap(a, w, outputs).1.Success? ==>
              "ArtifactBucket" in outputs &&
              var bucket := outputs["ArtifactBucket"];
              Uploads(bucket, a.templatePath, w.entries, w.open, w.upload).1.None? &&
              BuildImage(a, w).1.Success? && PushImage(w, outputs).1.Success? &&
              UpdatePhase(a, w, bucket, BuildImage(a, w).1.value).1.Success? &&
              AfterBootstrap(a, w, outputs).0 ==
                Uploads(bucket, a.templatePath, w.entries, w.open, w.upload).0 + BuildImage(a, w).0 +
                PushImage(w, outputs).0 + UpdatePhase(a, w, bucket, BuildImage(a, w).1.value).0
  {
  }

  /** A run that returns has made the update, with exactly one parameter,
      ImageDigest, set to the inspected digest and the primary template's
      URL in the artifact bucket, and then waited for it; the push came
      just before. */
  lemma SuccessEndsWithUpdate(a: Args, w: World)
    ensures var (calls, outcome) := Deployment(a, w);
            outcome.Success? ==>
              GetStackOutputs(a.stackName, w.describe).Success? &&
              "ArtifactBucket" in GetStackOutputs(a.stackName, w.describe).value &&
              w.inspect.Success? && w.digestOf(w.inspect.value).Success? &&
              RelativeTo(a.primaryTemplatePath, a.templatePath).Success? &&
              var outputs := GetStackOutputs(a.stackName, w.describe).value;
              var digest := w.digestOf(w.inspect.value).value;
              var path := RelativeTo(a.primaryTemplatePath, a.templatePath).value;
              |calls| >= 3 &&
              calls[|calls| - 2] == UpdateStack(a.stackName,
                "https://" + outputs["ArtifactBucket"] + ".s3.amazonaws.com/" + path,
                [("ImageDigest", digest)], ["CAPABILITY_IAM"]) &&
              calls[|calls| - 1] == WaitUpdateComplete(w.updated.value) &&
              calls[|calls| - 3].Skopeo? && calls[|calls| - 3].step == Push
  {
    var (calls, outcome) := Deployment(a, w);
    if outcome.Success? {
      var (c1, r1) := Bootstrap(a, w);
      assert r1.Success?;
      var (c, r) := AfterBootstrap(a, w, r1.value);
      assert calls == c1 + c && r == outcome;
      BootstrapOutputs(a, w);
      AfterBootstrapEnds(a, w, r1.value);
      assert calls[|calls| - 3] == c[|c| - 3];
      assert calls[|calls| - 2] == c[|c| - 2];
      assert calls[|calls| - 1] == c[|c| - 1];
    }
  }

  /** A bootstrap that succeeds ends with the stack's outputs. */
  lemma BootstrapOutputs(a: Args, w: World)
    ensures Bootstrap(a, w).1.Success? ==>
              GetStackOutputs(a.stackName, w.describe) == Bootstrap(a, w).1
  {
  }

  lemma AfterBootstrapEnds(a: Args, w: World, outputs: map<string, string>)
    ensures var (c, r) := AfterBootstrap(a, w, outputs);
            r.Success? ==>
              "ArtifactBucket" in outputs && w.inspect.Success? && w.digestOf(w.inspect.value).Success? &&
              BuildImage(a, w).1 == w.digestOf(w.inspect.value) &&
              RelativeTo(a.primaryTemplatePath, a.templatePath).Success? && |c| >= 3 &&
              c[|c| - 3].Skopeo? && c[|c| - 3].step == Push &&
              c[|c| - 2] == UpdateStack(a.stackName,
                TemplateUrl(outputs["ArtifactBucket"], RelativeTo(a.primaryTemplatePath, a.templatePath).value),
                [("ImageDigest", w.digestOf(w.inspect.value).value)], ["CAPABILITY_IAM"]) &&
              c[|c| - 1] == WaitUpdateComplete(w.updated.value)
  {
    var (c, r) := AfterBootstrap(a, w, outputs);
    AfterBootstrapPhases(a, w, outputs);
    if r.Success? {
      var bucket := outputs["ArtifactBucket"];
      var c2 := Uploads(bucket, a.templatePath, w.entries, w.open, w.upload).0;
      var (c3, r3) := BuildImage(a, w);
      var c4 := PushImage(w, outputs).0;
      var c5 := UpdatePhase(a, w, bucket, r3.value).0;
      BuildSucceeded(a, w);
      PushSucceeded(w, outputs);
      UpdateSucceeded(a, w, bucket, r3.value);
      var front := c2 + c3 + c4;
      assert c == front + c5;
      assert |c5| == 2 && c[|c| - 2] == c5[0] && c[|c| - 1] == c5[1];
      assert c[|c| - 3] == front[|front| - 1] == c4[1];
    }
  }

  /** A failing image generator, skopeo copy or skopeo inspect ends the run
      with an exception before any credentials, push or update. */
  lemma ImageFailureStops(a: Args, w: World)
    requires w.generate.Some? || w.pack.Some? || w.inspect.Failure?
    ensures var (calls, outcome) := Deployment(a, w);
            outcome.Failure? &&
            forall i :: 0 <= i < |calls| ==> Rank(calls[i]) < 8
  {
    var (c1, r1) := Bootstrap(a, w);
    BootstrapRanks(a, w);
    if r1.Success? && "ArtifactBucket" in r1.value {
      var bucket := r1.value["ArtifactBucket"];
      var (c2, e2) := Uploads(bucket, a.templatePath, w.entries, w.open, w.upload);
      UploadsRanks(bucket, a.templatePath, w.entries, w.open, w.upload);
      OrderedConcat(c1, c2, 0, 3, 4);
      if e2.None? {
        var c3 := BuildImage(a, w).0;
        BuildRanks(a, w);
        OrderedConcat(c1 + c2, c3, 0, 4, 7);
        assert Deployment(a, w).0 == c1 + c2 + c3;
      }
    }
  }

  /** The credentials given to the push are the decoded token itself, and
      the image goes to the repository's latest tag. */
  lemma PushUsesToken(w: World, outputs: map<string, string>)
    requires PushImage(w, outputs).1.Success?
    ensures var calls := PushImage(w, outputs).0;
            var last := calls[|calls| - 1];
            last.Skopeo? && last.step == Push &&
            last.argv[3] == "docker://" + outputs["ArtifactRepositoryUrl"] + ":latest" &&
            last.argv[6] == w.decode(w.authorization.value[0]).value
  {
    CredentialsOfToken(w.authorization.value, w.decode);
  }
}
