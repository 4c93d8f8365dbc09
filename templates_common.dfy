/**
 * Helpers shared by the template generators (templates/common.py): the
 * content-addressed template registry, two-sided conditions, the parity of a
 * deployment counter and the blue/green wiring of a Lambda function's
 * versions.
 */
module TemplatesCommon {
  import opened Wrappers
  import opened Intrinsics
  import opened CounterEncoding
  import opened Troposphere

  newtype byte = x: int | 0 <= x < 256

  /** The serialisation and hash the registry is built on, both deterministic:
      troposphere's to_json (compact, keys sorted), UTF-8 encoding and the
      SHA-256 hex digest (FIPS 180-4). */
  datatype Codec = Codec(
    toJson: TemplateValue -> string,
    encodeUtf8: string -> seq<byte>,
    sha256Hex: seq<byte> -> string)

  // ---------------------------------------------------------------------------
  // Template registry
  // ---------------------------------------------------------------------------

  /** The bytes stored for a template: its JSON, UTF-8 encoded. */
  function TemplateBytes(c: Codec, t: TemplateValue): seq<byte>
  {
    c.encodeUtf8(c.toJson(t))
  }

  /** hash_template: the SHA-256 hex digest of the stored bytes. */
  function HashTemplate(c: Codec, t: TemplateValue): string
  {
    c.sha256Hex(TemplateBytes(c, t))
  }

  /** The registry key of a template. */
  function FileName(c: Codec, t: TemplateValue): string
  {
    HashTemplate(c, t) + ".json"
  }

  /** The registry after storing a template under its content address. */
  function Register(c: Codec, files: map<string, seq<byte>>, t: TemplateValue): map<string, seq<byte>>
  {
    files[FileName(c, t) := TemplateBytes(c, t)]
  }

  /** Every key is the hash of the bytes stored under it, plus ".json". */
  predicate ContentAddressed(c: Codec, files: map<string, seq<byte>>)
  {
    forall k :: k in files ==> k == c.sha256Hex(files[k]) + ".json"
  }

  /** The URL expression get_template_s3_url returns. */
  function S3Url(bucket: Expr, fileName: string): Expr
  {
    FnJoin("/", ListOf([Str("https://s3.amazonaws.com"), bucket, Str(fileName)]))
  }

  /** Registering stores the template's bytes under its key and changes no other key. */
  lemma RegisterStores(c: Codec, files: map<string, seq<byte>>, t: TemplateValue)
    ensures FileName(c, t) in Register(c, files, t)
    ensures Register(c, files, t)[FileName(c, t)] == TemplateBytes(c, t)
    ensures Register(c, files, t).Keys == files.Keys + {FileName(c, t)}
    ensures forall k :: k in files && k != FileName(c, t) ==> Register(c, files, t)[k] == files[k]
  {
  }

  /** Registering the same template twice is registering it once. */
  lemma RegisterIdempotent(c: Codec, files: map<string, seq<byte>>, t: TemplateValue)
    ensures Register(c, Register(c, files, t), t) == Register(c, files, t)
  {
  }

  /** The key of a registered template is derived from the value stored, so
      registering keeps the registry content-addressed. */
  lemma RegisterContentAddressed(c: Codec, files: map<string, seq<byte>>, t: TemplateValue)
    requires ContentAddressed(c, files)
    ensures ContentAddressed(c, Register(c, files, t))
  {
  }

  lemma EvalAllCons(ctx: Ctx, e: Expr, es: seq<Expr>)
    ensures EvalAll(ctx, [e] + es) ==
            if EvalStr(ctx, e).Some? && EvalAll(ctx, es).Some?
            then Some([EvalStr(ctx, e).value] + EvalAll(ctx, es).value) else None
  {
    var l := [e] + es;
    assert l[0] == e && l[1..] == es;
  }

  /** The URL evaluates to "https://s3.amazonaws.com/<bucket>/<file>". */
  lemma S3UrlEval(ctx: Ctx, bucket: Expr, fileName: string)
    ensures EvalStr(ctx, S3Url(bucket, fileName)) ==
            if EvalStr(ctx, bucket).Some?
            then Some("https://s3.amazonaws.com" + "/" + EvalStr(ctx, bucket).value + "/" + fileName)
            else None
  {
    var host, file := Str("https://s3.amazonaws.com"), Str(fileName);
    var tail := [bucket, file];
    assert [host, bucket, file] == [host] + tail;
    EvalPair(ctx, bucket, file);
    EvalAllCons(ctx, host, tail);
    if EvalStr(ctx, bucket).Some? {
      var b := EvalStr(ctx, bucket).value;
      var parts := ["https://s3.amazonaws.com", b, fileName];
      assert EvalAll(ctx, [host, bucket, file]) == Some(["https://s3.amazonaws.com"] + [b, fileName]);
      assert ["https://s3.amazonaws.com"] + [b, fileName] == parts;
      JoinThree("/", "https://s3.amazonaws.com", b, fileName);
      assert Eval(ctx, S3Url(bucket, fileName)) == Some(VStr(Join("/", parts)));
    } else {
      assert EvalAll(ctx, tail) == None;
      assert EvalAll(ctx, [host, bucket, file]) == None;
      assert Eval(ctx, ListOf([host, bucket, file])) == None;
      assert Eval(ctx, S3Url(bucket, fileName)) == None;
    }
  }

  /** The module-level template_registry: file name to stored bytes. */
  class TemplateRegistry {
    var files: map<string, seq<byte>>
    const codec: Codec

    constructor (codec: Codec)
      ensures files == map[] && this.codec == codec
    {
      files := map[];
      this.codec := codec;
    }

    /** get_template_s3_url: store the template under its hash and return
        the URL at which the artifact bucket will serve it. */
    method GetTemplateS3Url(bucket: Expr, t: TemplateValue) returns (url: Expr)
      modifies this
      ensures files == Register(codec, old(files), t)
      ensures url == S3Url(bucket, FileName(codec, t))
    {
      var sha256 := HashTemplate(codec, t);
      var fileName := sha256 + ".json";
      files := files[fileName := TemplateBytes(codec, t)];
      url := FnJoin("/", ListOf([Str("https://s3.amazonaws.com"), bucket, Str(fileName)]));
    }
  }

  // ---------------------------------------------------------------------------
  // Conditions
  // ---------------------------------------------------------------------------

  /** CloudFormation's reading of a template's conditions: each declared
      condition has the truth value of its expression. */
  predicate ConditionsAgree(ctx: Ctx, conditions: map<string, Expr>)
  {
    forall n :: n in conditions ==> n in ctx.conditions && EvalBool(ctx, conditions[n]) == Some(ctx.conditions[n])
  }

  /** add_double_sided_condition: `<base>True` is the condition and
      `<base>False` its negation. */
  method AddDoubleSidedCondition(t: Template, base: string, c: Expr) returns (onTrue: string, onFalse: string)
    modifies t
    ensures onTrue == base + "True" && onFalse == base + "False"
    ensures t.Value() == old(t.Value()).(conditions := old(t.conditions)[onTrue := c][onFalse := FnNot(c)])
  {
    t.AddCondition(base + "True", c);
    t.AddCondition(base + "False", FnNot(c));
    onTrue, onFalse := base + "True", base + "False";
  }

  /** Where the two sides are evaluated, exactly one of them holds. */
  lemma DoubleSidedExclusive(ctx: Ctx, conditions: map<string, Expr>, base: string, c: Expr)
    requires ConditionsAgree(ctx, conditions[base + "True" := c][base + "False" := FnNot(c)])
    ensures base + "True" in ctx.conditions && base + "False" in ctx.conditions
    ensures ctx.conditions[base + "False"] == !ctx.conditions[base + "True"]
  {
    var conds := conditions[base + "True" := c][base + "False" := FnNot(c)];
    assert base + "True" != base + "False" by {
      assert (base + "True")[|base|] == 'T' && (base + "False")[|base|] == 'F';
    }
    assert conds[base + "True"] == c && conds[base + "False"] == FnNot(c);
    EvalNot(ctx, c);
  }

  // ---------------------------------------------------------------------------
  // Parity
  // ---------------------------------------------------------------------------

  /** determine_parity: Select(1, Split("[1]", Join("", [s, "ODD[1]EVEN"]))). */
  function DetermineParity(s: Expr): Expr
  {
    FnSelect(1, FnSplit("[1]", FnJoin("", ListOf([s, Str("ODD[1]EVEN")]))))
  }

  /** The expression evaluates to the parity of the counter it is given. */
  lemma DetermineParityEval(ctx: Ctx, s: Expr)
    ensures EvalStr(ctx, DetermineParity(s)) ==
            if EvalStr(ctx, s).Some? then Parity(EvalStr(ctx, s).value) else None
  {
    var joined := FnJoin("", ListOf([s, Str("ODD[1]EVEN")]));
    EvalAppend(ctx, s, "ODD[1]EVEN");
    if EvalStr(ctx, s).Some? {
      var v := EvalStr(ctx, s).value;
      assert Eval(ctx, joined) == Some(VStr(v + "ODD[1]EVEN"));
      assert Eval(ctx, FnSplit("[1]", joined)) == Some(VList(Split("[1]", v + "ODD[1]EVEN")));
      ParityDefined(v);
      assert Eval(ctx, DetermineParity(s)) == Some(VStr(Parity(v).value));
    } else {
      assert Eval(ctx, joined) == None;
      assert Eval(ctx, FnSplit("[1]", joined)) == None;
      assert Eval(ctx, DetermineParity(s)) == None;
    }
  }

  // ---------------------------------------------------------------------------
  // Versioned Lambda functions
  // ---------------------------------------------------------------------------

  const DeploymentIdVariable: string := "X__DO_NOT_USE__DEPLOYMENT_ID"

  /** Environment(Variables={}), the default setdefault installs. */
  function DefaultEnvironment(): Expr
  {
    Obj(map["Variables" := Obj(map[])])
  }

  /** The environment variables of a function's properties: empty when there
      is no Environment, None when Environment has no Variables mapping. */
  function EnvVariables(props: map<string, Expr>): Option<map<string, Expr>>
  {
    var env := if "Environment" in props then props["Environment"] else DefaultEnvironment();
    if env.Obj? && "Variables" in env.fields && env.fields["Variables"].Obj?
    then Some(env.fields["Variables"].fields)
    else None
  }

  /** The function's properties after the deployment id is written into its
      environment (setdefault, then item assignment). */
  function WithDeploymentId(props: map<string, Expr>, id: Expr): Option<map<string, Expr>>
  {
    var env := if "Environment" in props then props["Environment"] else DefaultEnvironment();
    if env.Obj? && "Variables" in env.fields && env.fields["Variables"].Obj? then
      var vars := env.fields["Variables"].fields;
      Some(props["Environment" := Obj(env.fields["Variables" := Obj(vars[DeploymentIdVariable := id])])])
    else None
  }

  /** The deployment id is added to the existing variables, which are kept,
      and nothing outside Environment changes. */
  lemma WithDeploymentIdKeeps(props: map<string, Expr>, id: Expr)
    ensures WithDeploymentId(props, id).Some? <==> EnvVariables(props).Some?
    ensures WithDeploymentId(props, id).Some? ==>
              EnvVariables(WithDeploymentId(props, id).value) == Some(EnvVariables(props).value[DeploymentIdVariable := id])
    ensures WithDeploymentId(props, id).Some? ==>
              WithDeploymentId(props, id).value.Keys == props.Keys + {"Environment"} &&
              forall k :: k in props && k != "Environment" ==> WithDeploymentId(props, id).value[k] == props[k]
  {
  }

  function VersionAName(title: string): string { title + "VersionA" }
  function VersionBName(title: string): string { title + "VersionB" }
  function AliasName(title: string): string { title + "Alias" }
  function OddConditionBase(title: string): string { title + "DeploymentIdParityOdd" }

  /** The condition that the deployment counter is odd. */
  function OddCondition(id: Expr): Expr
  {
    FnEquals(DetermineParity(id), Str("ODD"))
  }

  function VersionResource(title: string, condition: string): Resource
  {
    Resource("AWS::Lambda::Version", map["FunctionName" := FnGetAtt(title, "Arn")], Some(condition), [], None)
  }

  /** The alias's FunctionVersion: VersionA's number when odd, VersionB's otherwise. */
  function AliasVersion(title: string): Expr
  {
    FnIf(OddConditionBase(title) + "True",
         FnGetAtt(VersionAName(title), "Version"),
         FnGetAtt(VersionBName(title), "Version"))
  }

  function AliasResource(title: string): Resource
  {
    Plain("AWS::Lambda::Alias", map[
      "FunctionName" := FnGetAtt(title, "Arn"),
      "FunctionVersion" := AliasVersion(title),
      "Name" := Str("latest")])
  }

  /** The template after add_versioned_lambda, the function already carrying
      the deployment id. */
  function VersionedLambda(v: TemplateValue, id: Expr, title: string, fn: Resource): TemplateValue
  {
    var base := OddConditionBase(title);
    v.(resources := v.resources[title := fn]
                                [VersionAName(title) := VersionResource(title, base + "True")]
                                [VersionBName(title) := VersionResource(title, base + "False")]
                                [AliasName(title) := AliasResource(title)],
       conditions := v.conditions[base + "True" := OddCondition(id)][base + "False" := FnNot(OddCondition(id))])
  }

  /** add_versioned_lambda: write the deployment id into the function's
      environment, add the function, the parity conditions, VersionA (odd),
      VersionB (even) and the alias "latest". None when the function's
      Environment has no Variables mapping, in which case nothing is added. */
  method AddVersionedLambda(t: Template, id: Expr, title: string, fn: Resource)
    returns (added: Option<(Resource, Resource)>)
    requires title !in t.resources && VersionAName(title) !in t.resources
    requires VersionBName(title) !in t.resources && AliasName(title) !in t.resources
    modifies t
    ensures WithDeploymentId(fn.properties, id).None? ==> added.None? && t.Value() == old(t.Value())
    ensures WithDeploymentId(fn.properties, id).Some? ==>
              var f := fn.(properties := WithDeploymentId(fn.properties, id).value);
              added == Some((f, AliasResource(title))) &&
              t.Value() == VersionedLambda(old(t.Value()), id, title, f)
  {
    var props := WithDeploymentId(fn.properties, id);
    if props.None? {
      return None;
    }
    var f := fn.(properties := props.value);
    t.AddResource(title, f);
    var onOdd, onEven := AddDoubleSidedCondition(t, OddConditionBase(title), OddCondition(id));
    assert VersionAName(title) != title && VersionBName(title) != title && AliasName(title) != title;
    assert VersionAName(title) != VersionBName(title) by {
      assert VersionAName(title)[|title| + 7] == 'A' && VersionBName(title)[|title| + 7] == 'B';
    }
    assert |AliasName(title)| < |VersionAName(title)| == |VersionBName(title)|;
    t.AddResource(VersionAName(title), VersionResource(title, onOdd));
    t.AddResource(VersionBName(title), VersionResource(title, onEven));
    t.AddResource(AliasName(title), AliasResource(title));
    added := Some((f, AliasResource(title)));
  }

  /** The wiring is closed whenever the function itself is. */
  lemma VersionedLambdaClosed(v: TemplateValue, id: Expr, title: string, fn: Resource)
    requires Closed(v) && ResourceClosed(v, fn)
    ensures Closed(VersionedLambda(v, id, title, fn))
  {
    var base := OddConditionBase(title);
    var v1 := v.(conditions := v.conditions[base + "True" := OddCondition(id)][base + "False" := FnNot(OddCondition(id))]);
    AddConditionClosed(v, base + "True", OddCondition(id));
    AddConditionClosed(v.(conditions := v.conditions[base + "True" := OddCondition(id)]), base + "False", FnNot(OddCondition(id)));
    assert ResourceClosed(v1, fn);
    AddResourceClosed(v1, title, fn);
    var v2 := v1.(resources := v1.resources[title := fn]);
    AddResourceClosed(v2, VersionAName(title), VersionResource(title, base + "True"));
    var v3 := v2.(resources := v2.resources[VersionAName(title) := VersionResource(title, base + "True")]);
    AddResourceClosed(v3, VersionBName(title), VersionResource(title, base + "False"));
    var v4 := v3.(resources := v3.resources[VersionBName(title) := VersionResource(title, base + "False")]);
    AddResourceClosed(v4, AliasName(title), AliasResource(title));
    assert VersionedLambda(v, id, title, fn) == v4.(resources := v4.resources[AliasName(title) := AliasResource(title)]);
  }

  /** The odd condition of a deployment whose id evaluates to counter string s holds exactly when
      determine_parity reads "ODD". */
  lemma OddConditionEval(ctx: Ctx, id: Expr, s: string)
    requires EvalStr(ctx, id) == Some(s)
    ensures EvalBool(ctx, OddCondition(id)) == Some(Parity(s) == Some("ODD"))
  {
    DetermineParityEval(ctx, id);
    ParityDefined(s);
    var p := DetermineParity(id);
    assert Eval(ctx, p) == Some(VStr(Parity(s).value));
    assert Eval(ctx, Str("ODD")) == Some(VStr("ODD"));
    assert Eval(ctx, OddCondition(id)) == Some(VBool(VStr(Parity(s).value) == VStr("ODD")));
  }

  /** For a deployment whose id is the canonical counter ts, the odd side
      of the parity condition holds exactly when the count is odd. */
  lemma OddSideHolds(ctx: Ctx, v: TemplateValue, id: Expr, title: string, fn: Resource, ts: seq<nat>)
    requires Canonical(ts) && EvalStr(ctx, id) == Some(Render(ts))
    requires ConditionsAgree(ctx, VersionedLambda(v, id, title, fn).conditions)
    ensures OddConditionBase(title) + "True" in ctx.conditions
    ensures ctx.conditions[OddConditionBase(title) + "True"] == (Sum(ts) % 2 == 1)
  {
    var base := OddConditionBase(title);
    var w := VersionedLambda(v, id, title, fn);
    assert w.conditions[base + "True"] == OddCondition(id);
    OddConditionEval(ctx, id, Render(ts));
    ParityOfCanonical(ts);
  }

  /** Blue/green selection: for a deployment whose id is the canonical
      counter ts, VersionA exists exactly when the count is odd, VersionB
      exactly when it is even, and the alias "latest" resolves to the version
      of the one that exists. */
  lemma ActiveVersion(ctx: Ctx, v: TemplateValue, id: Expr, title: string, fn: Resource, ts: seq<nat>)
    requires Canonical(ts) && EvalStr(ctx, id) == Some(Render(ts))
    requires ConditionsAgree(ctx, VersionedLambda(v, id, title, fn).conditions)
    ensures var w := VersionedLambda(v, id, title, fn);
            var odd := Sum(ts) % 2 == 1;
            w.resources[VersionAName(title)].condition == Some(OddConditionBase(title) + "True") &&
            w.resources[VersionBName(title)].condition == Some(OddConditionBase(title) + "False") &&
            ctx.conditions[OddConditionBase(title) + "True"] == odd &&
            ctx.conditions[OddConditionBase(title) + "False"] == !odd &&
            EvalStr(ctx, w.resources[AliasName(title)].properties["FunctionVersion"]) ==
              EvalStr(ctx, FnGetAtt(if odd then VersionAName(title) else VersionBName(title), "Version"))
  {
    var base := OddConditionBase(title);
    var w := VersionedLambda(v, id, title, fn);
    assert |AliasName(title)| < |VersionAName(title)| == |VersionBName(title)|;
    assert VersionAName(title) != VersionBName(title) by {
      assert VersionAName(title)[|title| + 7] == 'A' && VersionBName(title)[|title| + 7] == 'B';
    }
    assert w.resources[VersionAName(title)] == VersionResource(title, base + "True");
    assert w.resources[VersionBName(title)] == VersionResource(title, base + "False");
    assert w.resources[AliasName(title)] == AliasResource(title);
    DoubleSidedExclusive(ctx, v.conditions, base, OddCondition(id));
    OddSideHolds(ctx, v, id, title, fn, ts);
  }

  /** Odd and even alternate. Kept apart from VersionsAlternate, whose large
      context makes the modular step expensive there. */
  lemma OddEvenStep(n: nat, m: nat)
    requires m == n + 1
    ensures (n % 2 == 1) != (m % 2 == 1)
  {
  }

  /** Consecutive deployments, whose ids are a canonical counter and its
      increment, switch the alias between VersionA and VersionB. */
  lemma VersionsAlternate(ctx1: Ctx, ctx2: Ctx, v: TemplateValue, id: Expr, title: string, fn: Resource, ts: seq<nat>)
    requires Canonical(ts) && Sum(ts) + 1 < Bound
    requires EvalStr(ctx1, id) == Some(Render(ts))
    requires EvalStr(ctx2, id) == Some(Increment(Render(ts)))
    requires ConditionsAgree(ctx1, VersionedLambda(v, id, title, fn).conditions)
    requires ConditionsAgree(ctx2, VersionedLambda(v, id, title, fn).conditions)
    ensures OddConditionBase(title) + "True" in ctx1.conditions && OddConditionBase(title) + "True" in ctx2.conditions
    ensures ctx1.conditions[OddConditionBase(title) + "True"] != ctx2.conditions[OddConditionBase(title) + "True"]
  {
    var next := TokIncrement(ts);
    IncrementCanonical(ts);
    IncrementRendered(ts);
    OddSideHolds(ctx1, v, id, title, fn, ts);
    OddSideHolds(ctx2, v, id, title, fn, next);
    var k := OddConditionBase(title) + "True";
    var n, m := Sum(ts), Sum(next);
    assert ctx1.conditions[k] == (n % 2 == 1);
    assert ctx2.conditions[k] == (m % 2 == 1);
    OddEvenStep(n, m);
  }
}
