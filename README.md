# lambdaplatform deployment core, modelled in Dafny

This project models the parts of `lambdaplatform` that carry logic rather than
declarative AWS wiring:

- **The deployment counter** (`templates/deployment_id.py`). The counter is a
  string of tokens `[2^k]`, seeded with `"[0]"`. `increment_value` appends `[1]`
  and normalises it with CloudFormation `Fn::Split`/`Fn::Join` rewrites: first
  `[0][1]` becomes `[1]`, then 32 passes turn `[2^i][2^i]` into `[2^(i+1)]`.
  `Fn::Split` and `Fn::Join` are Dafny functions on strings
  (module `Intrinsics`). Because `[` only ever starts a token, each string
  rewrite is a rewrite of the token list. The proofs run on token lists: value
  preservation, +1, and preservation of the canonical binary form (module
  `CounterEncoding`).
- **The "ouroboros" templates** (module `DeploymentId`). These are the stack-set
  template with its Retain/Delete conditions, the child stack that outputs
  `CurrentValue` and `NextValue`, and the top-level template. That template
  holds the DependsOn chain StackSetRetain → Stack → StackSetDelete → Parameter
  and the SSM parameter name `StackName-<uuid>-State`. troposphere builds
  intrinsic-function trees and does not evaluate them. So `simplify_value` and
  `increment_value` are methods that build an `Expr` in the source's 32-pass
  loop. `Intrinsics.Eval` is CloudFormation's later reading of that tree.
- **Template helpers** (module `TemplatesCommon`). This covers the
  content-addressed template registry, `add_double_sided_condition`,
  `determine_parity` and the blue/green wiring of `add_versioned_lambda`.
- **troposphere's `Template`** (module `Troposphere`). It is a class whose four
  dictionaries the `add_*` methods update in place.
- **The custom-resource envelope** (module `CustomResource`, `tasks/common.py`).
  It builds the response dict, turns an `Exception` into FAILED and PUTs the
  response once.
- **The stable availability-zone list** (module `AvailabilityZones`,
  `tasks/availability_zones.py`).
- **The deploy command** (module `Deploy`, `deploy.py`). This covers
  `env_default`, `stack_exists`, `get_stack_outputs`, `get_ecr_credentials` and
  `main`. `main` is a method that returns the trace of external calls it
  makes. Each AWS, file-system and subprocess answer is read from a `World`
  value. `PurePath.relative_to` is modelled on pathlib's parse of a POSIX path
  into an optional root and its components, so `.`, `/` and a trailing `/`
  behave as in Python.

Abstract collaborators are parameters. troposphere's `to_json`, UTF-8 encoding
and SHA-256 (FIPS 180-4) form a `Codec` of three functions. Base64 decoding
(section 4 of RFC 4648) is a function parameter. EC2's zone listing is a
`Result` parameter. The HTTP PUT goes to a `ResponseChannel` object that logs
the requests it is sent.

Four behaviours of the code that the model keeps and that are easy to miss:

- The counter is a string of power-of-two tokens.
- Registering a template again rewrites the same bytes under the same key.
- `main` reads the stack outputs on both paths, whether or not it just created the stack.
- The seed `"[0]"` reads as EVEN.

## Model

| member | source | states |
|---|---|---|
| `Intrinsics.JoinSplit` | src/lambdaplatform/templates/deployment_id.py:107 | `Fn::Join` on a delimiter undoes `Fn::Split` on it, for every string |
| `Intrinsics.SplitJoin` | src/lambdaplatform/templates/deployment_id.py:164 | splitting on a one-character delimiter recovers the parts that were joined with it, when no part contains it |
| `Intrinsics.EvalNot` | src/lambdaplatform/templates/common.py:34 | `Fn::Not` is defined exactly when its operand is, and is its negation |
| `CounterEncoding.RewriteRendered` | src/lambdaplatform/templates/deployment_id.py:107-111 | `Join(rep, Split(pat, s))` on a rendered token list is the rendering of the left-to-right token rewrite |
| `CounterEncoding.ReplaceTokensSum` | src/lambdaplatform/templates/deployment_id.py:107-111 | a rewrite whose two sides have the same value (`[0][1]`→`[1]`, `[lo][lo]`→`[2lo]`) keeps the counter's value |
| `CounterEncoding.TokPassesFromSum` | src/lambdaplatform/templates/deployment_id.py:108-111 | the doubling passes keep the counter's value |
| `CounterEncoding.IncrementAddsOne` | src/lambdaplatform/templates/deployment_id.py:115-116 | for every counter string, canonical or not, increment_value's result has value one greater |
| `CounterEncoding.IncrementCanonical` | src/lambdaplatform/templates/deployment_id.py:108-111 | a canonical counter (the seed, or strictly decreasing powers of two) whose successor is below 2^33 increments to the canonical counter of value+1 in one sweep of the passes |
| `CounterEncoding.CanonicalUnique` | src/lambdaplatform/templates/deployment_id.py:106-116 | two canonical counters of the same value are equal, so the canonical form of a value is unique |
| `CounterEncoding.FirstIncrements` | src/lambdaplatform/templates/deployment_id.py:107-116 | `"[0]"`→`"[1]"`, `"[1]"`→`"[2]"`, `"[2][1]"`→`"[4]"` |
| `CounterEncoding.CounterFromSeed` | src/lambdaplatform/templates/deployment_id.py:315 | k increments of the seed `"[0]"` give the canonical counter of value k, for every k below 2^33 |
| `CounterEncoding.ParityDefined` | src/lambdaplatform/templates/common.py:89-90 | determine_parity's `Select(1, …)` is never out of range |
| `CounterEncoding.ParityOfCanonical` | src/lambdaplatform/templates/common.py:89-90 | on a canonical counter, determine_parity yields "ODD" exactly when the value is odd (it ends in `[1]`) and "EVEN" otherwise, the seed included |
| `CounterEncoding.ParityAlternates` | src/lambdaplatform/templates/common.py:89-90 | the parity of a canonical counter flips on every increment_value |
| `DeploymentId.EvalPassesExpr` | src/lambdaplatform/templates/deployment_id.py:108-111 | the expression built by the passes evaluates to the string passes applied to its argument's value, and fails when the argument does |
| `DeploymentId.SimplifyValue` | src/lambdaplatform/templates/deployment_id.py:106-112 | the 32-pass loop builds the simplify expression; in every evaluation context it evaluates to the simplified counter |
| `DeploymentId.IncrementValue` | src/lambdaplatform/templates/deployment_id.py:115-116 | the expression built evaluates, in every context, to the increment of its argument's value |
| `DeploymentId.AddModeResources` | src/lambdaplatform/templates/deployment_id.py:73-101 | one iteration of the mode loop adds exactly the mode's Parameter, WaitConditionHandle and WaitCondition and changes nothing else |
| `DeploymentId.NewStackSetBase` | src/lambdaplatform/templates/deployment_id.py:38-68 | returns a fresh template with the description, the three parameters (ParameterValue must match ".+", RetainParameter is "true" or "false") and the two conditions, and no resources yet |
| `DeploymentId.CreateStackSetTemplate` | src/lambdaplatform/templates/deployment_id.py:40-103 | returns a fresh template equal to the stack-set template: three parameters, two conditions and the resources of both modes |
| `DeploymentId.StackSetConditions` | src/lambdaplatform/templates/deployment_id.py:58-70 | for each allowed RetainParameter, exactly one of ShouldRetainParameter and ShouldDeleteParameter holds, the first when it is "true" |
| `DeploymentId.StackSetModes` | src/lambdaplatform/templates/deployment_id.py:72-101 | each mode's Parameter, WaitConditionHandle and WaitCondition carry that mode's condition; only the Parameter has a DeletionPolicy, the mode; the WaitCondition depends on the Parameter and uses the mode's handle |
| `DeploymentId.ActiveParameterPolicy` | src/lambdaplatform/templates/deployment_id.py:58-101 | the parameter that is created is retained on deletion exactly when RetainParameter is "true" |
| `DeploymentId.StackSetTemplateClosed` | src/lambdaplatform/templates/deployment_id.py:40-103 | every Condition and DependsOn of the stack-set template names something it declares |
| `DeploymentId.CreateChildStackTemplate` | src/lambdaplatform/templates/deployment_id.py:119-151 | returns a fresh template equal to the child-stack template |
| `DeploymentId.ChildOutputs` | src/lambdaplatform/templates/deployment_id.py:137-149 | CurrentValue is the parameter value and NextValue is its increment |
| `DeploymentId.ChildAdvancesCounter` | src/lambdaplatform/templates/deployment_id.py:137-149 | given a canonical counter, NextValue is the canonical counter one higher |
| `DeploymentId.StackIdUuid` | src/lambdaplatform/templates/deployment_id.py:164 | `Select(2, Split("/", StackId))` is the third "/"-separated field of the stack id |
| `DeploymentId.ParameterNameEval` | src/lambdaplatform/templates/deployment_id.py:164 | the SSM parameter name is `StackName + "-" + uuid + "-State"` |
| `DeploymentId.AddRoles` | src/lambdaplatform/templates/deployment_id.py:166-283 | adds the administration role, the execution role and the policy tying them, and nothing else |
| `DeploymentId.AddStackSetRetain` | src/lambdaplatform/templates/deployment_id.py:285-325 | stores the stack-set template in the registry under its content address and adds StackSetRetain, whose TemplateURL is that address in the artifact bucket, after the role policy |
| `DeploymentId.AddChildStack` | src/lambdaplatform/templates/deployment_id.py:327-338 | stores the child template in the registry under its content address and adds Stack, whose TemplateURL is that address, after StackSetRetain |
| `DeploymentId.AddRetainingStage` | src/lambdaplatform/templates/deployment_id.py:285-338 | registers the stack-set template, adds StackSetRetain, registers the child template, adds Stack |
| `DeploymentId.AddDeletingStage` | src/lambdaplatform/templates/deployment_id.py:340-371 | adds StackSetDelete (after Stack) and the final Parameter (after StackSetDelete) |
| `DeploymentId.CreateTemplate` | src/lambdaplatform/templates/deployment_id.py:154-380 | returns a fresh template equal to the top-level template, and the registry gains exactly the two nested templates, in order |
| `DeploymentId.MainTemplateClosed` | src/lambdaplatform/templates/deployment_id.py:154-380 | every DependsOn of the top-level template names a declared resource |
| `DeploymentId.OuroborosOrder` | src/lambdaplatform/templates/deployment_id.py:304-371 | in any creation order that respects DependsOn, StackSetRetain comes before Stack, Stack before StackSetDelete, and StackSetDelete before Parameter |
| `DeploymentId.StackSetsShareParameter` | src/lambdaplatform/templates/deployment_id.py:304-371 | both stack sets pass the same ParameterName and ParameterValue "[0]" and differ only in RetainParameter; the child stack reads that name and the final Parameter writes it |
| `DeploymentId.DeploymentAdvances` | src/lambdaplatform/templates/deployment_id.py:363-378 | when the SSM parameter holds a canonical counter, the final Parameter's value and the Value output are both the child's NextValue, the canonical counter one higher |
| `DeploymentId.NestedTemplatesRegistered` | src/lambdaplatform/templates/deployment_id.py:301-332 | after create_template, both nested templates are stored under the file names their URLs point at |
| `TemplatesCommon.TemplateRegistry.GetTemplateS3Url` | src/lambdaplatform/templates/common.py:18-25 | the registry becomes the old one with `hash + ".json"` set to the template's bytes; the URL is `Join("/", ["https://s3.amazonaws.com", bucket, hash + ".json"])` |
| `TemplatesCommon.RegisterStores` | src/lambdaplatform/templates/common.py:18-21 | registering stores the serialised bytes under the template's key, adds only that key and leaves every other key unchanged |
| `TemplatesCommon.RegisterIdempotent` | src/lambdaplatform/templates/common.py:18-21 | registering the same template twice gives the same registry as registering it once |
| `TemplatesCommon.RegisterContentAddressed` | src/lambdaplatform/templates/common.py:14-21 | registration keeps every key equal to the hash of the bytes stored under it, plus ".json" |
| `TemplatesCommon.S3UrlEval` | src/lambdaplatform/templates/common.py:22-25 | the URL evaluates to `"https://s3.amazonaws.com/" + bucket + "/" + file` |
| `TemplatesCommon.AddDoubleSidedCondition` | src/lambdaplatform/templates/common.py:28-36 | adds `{base}True` = c and `{base}False` = Not(c), returns the two names and changes nothing else |
| `TemplatesCommon.DoubleSidedExclusive` | src/lambdaplatform/templates/common.py:28-36 | where both sides are evaluated, `{base}False` holds exactly when `{base}True` does not |
| `TemplatesCommon.DetermineParityEval` | src/lambdaplatform/templates/common.py:89-90 | determine_parity's expression evaluates to the parity of the counter string it is given |
| `TemplatesCommon.OddConditionEval` | src/lambdaplatform/templates/common.py:52 | the odd condition holds exactly when determine_parity reads "ODD" |
| `TemplatesCommon.WithDeploymentIdKeeps` | src/lambdaplatform/templates/common.py:44-45 | the deployment id is added to the function's environment variables, existing variables and all properties outside Environment are kept |
| `TemplatesCommon.AddVersionedLambda` | src/lambdaplatform/templates/common.py:39-86 | adds the function carrying the deployment id, the two parity conditions, VersionA (odd), VersionB (even) and the alias "latest", and returns the function and alias |
| `TemplatesCommon.VersionedLambdaClosed` | src/lambdaplatform/templates/common.py:47-84 | the added versions and alias only refer to declared conditions and resources |
| `TemplatesCommon.ActiveVersion` | src/lambdaplatform/templates/common.py:49-84 | for a canonical deployment id, VersionA exists iff the count is odd, VersionB iff it is even, and the alias resolves to the version of the one that exists |
| `TemplatesCommon.VersionsAlternate` | src/lambdaplatform/templates/common.py:49-84 | consecutive deployment ids (a canonical counter and its increment) switch the alias between VersionA and VersionB |
| `AvailabilityZones.SortCorrect` | src/lambdaplatform/tasks/availability_zones.py:12-26 | `sorted` returns a permutation of its input in ascending code-point order |
| `AvailabilityZones.StableZoneNamesShape` | src/lambdaplatform/tasks/availability_zones.py:27-31 | the previous list is a prefix of the result; what follows is exactly the current zones not previously listed, in sorted order |
| `AvailabilityZones.StableZoneNamesRetains` | src/lambdaplatform/tasks/availability_zones.py:27 | a zone is listed iff it was recorded before or is reported now, so recorded zones are kept even when no longer reported |
| `AvailabilityZones.StableZoneNamesEmpty` | src/lambdaplatform/tasks/availability_zones.py:27-33 | the result is empty iff there is no previous list and no current zone |
| `AvailabilityZones.ZoneBodyTouchesOnlyPhysicalId` | src/lambdaplatform/tasks/availability_zones.py:8-34 | the handler body changes no response field but PhysicalResourceId; a Delete leaves the response untouched |
| `AvailabilityZones.CreateRecordsZones` | src/lambdaplatform/tasks/availability_zones.py:8-34 | a Create or Update with zones returns normally and sends one SUCCESS response whose PhysicalResourceId is the comma-joined stable list |
| `AvailabilityZones.NoZonesFails` | src/lambdaplatform/tasks/availability_zones.py:32-33 | with no previous list and no zones the handler returns normally and the one response sent is FAILED with reason "ValueError: No availability zones found" |
| `AvailabilityZones.Idempotent` | src/lambdaplatform/tasks/availability_zones.py:27-34 | running again on the recorded id with the same zones gives the same list |
| `AvailabilityZones.Handler` | src/lambdaplatform/tasks/availability_zones.py:6-34 | the handler raises exactly what the envelope around the zone body raises and otherwise returns None; the requests sent are that invocation's |
| `CustomResource.CloudFormationCustomResource` | src/lambdaplatform/tasks/common.py:6-33 | a `with` block around the envelope raises exactly what one invocation raises and otherwise completes with no value, the dict the generator returns being dropped by the context manager; it sends exactly that invocation's requests |
| `CustomResource.InitialResponseFields` | src/lambdaplatform/tasks/common.py:8-14 | the envelope is built iff the event has the three identifiers; it is SUCCESS, copies them verbatim and takes PhysicalResourceId from the event or null; otherwise a KeyError names the first missing one |
| `CustomResource.ExceptionBecomesFailed` | src/lambdaplatform/tasks/common.py:15-23 | an Exception from the handler is not re-raised: in the one response sent, Status becomes FAILED, Reason "<Type>: <message>", and every other field the handler left, PhysicalResourceId included, is kept |
| `CustomResource.OneResponse` | src/lambdaplatform/tasks/common.py:15-33 | at most one request is sent; it is sent iff the invocation completes without raising, and it is the PUT to ResponseURL of the dict as the handler body left it, made FAILED when the body raised an Exception |
| `CustomResource.StatusIsSuccessOrFailed` | src/lambdaplatform/tasks/common.py:9-23 | for a handler that leaves Status and Reason alone, every response sent is SUCCESS or FAILED, with a Reason exactly when FAILED |
| `Deploy.EnvDefaultReads` | src/lambdaplatform/deploy.py:13-17 | an option is required iff `prefix + "_" + name` is unset, and otherwise defaults to its value |
| `Deploy.EnvKeysDistinct` | src/lambdaplatform/deploy.py:13-17 | different option names read different variables |
| `Deploy.OutputsOnlyForExistingStack` | src/lambdaplatform/deploy.py:55-70 | outputs are found only for an existing stack, and a stack that does not exist (no stacks or a client error) is "Stack … not found" |
| `Deploy.OutputMapLookup` | src/lambdaplatform/deploy.py:67 | the output map's keys are the OutputKeys, each mapped to its last OutputValue |
| `Deploy.SplitOnceShape` | src/lambdaplatform/deploy.py:76 | `split(":", 1)` gives the whole string when it has no colon, otherwise the text before the first colon and the rest |
| `Deploy.SplitOnceJoin` | src/lambdaplatform/deploy.py:76 | splitting `user + ":" + password` gives back the user and the password, later colons included |
| `Deploy.CredentialsOfToken` | src/lambdaplatform/deploy.py:73-77 | the credentials are the decoded token cut at its first colon, and rejoin to it |
| `Deploy.ParsePathString` | src/lambdaplatform/deploy.py:105-108 | printing a parsed path and parsing it again gives it back |
| `Deploy.RelativeToChild` | src/lambdaplatform/deploy.py:108 | the relative path is the path's components after the directory's, so the directory joined with it names the file again; and every path below the directory, "." and "/" included, is related to it |
| `Deploy.RelativeToDot` | src/lambdaplatform/deploy.py:105-110 | with the template directory ".", a file's key is its own path |
| `Deploy.RelativeToRoot` | src/lambdaplatform/deploy.py:108 | with the template directory "/", a file's key is its path without the root |
| `Deploy.RelativeToTrailingSlash` | src/lambdaplatform/deploy.py:159 | a trailing "/" on a path does not change what it is relative to: a directory relative to itself is "." |
| `Deploy.RelativeToUnrelated` | src/lambdaplatform/deploy.py:159 | an unrelated path raises ValueError `'p' is not in the subpath of 'b'` |
| `Deploy.UploadsStop` | src/lambdaplatform/deploy.py:105-110 | once an upload has failed, later entries add no call |
| `Deploy.UploadsOpened` | src/lambdaplatform/deploy.py:105-110 | every upload is to the artifact bucket, of a file the glob yielded and that was opened first, under its path relative to the template directory |
| `Deploy.RunAfterBootstrap` | src/lambdaplatform/deploy.py:100-172 | the upload loop and the image, push and update steps make exactly the calls and raise exactly what the reference trace says |
| `Deploy.RunDeployment` | src/lambdaplatform/deploy.py:84-172 | main makes exactly the calls and has exactly the outcome of the reference trace |
| `Deploy.DeploymentOrdered` | src/lambdaplatform/deploy.py:84-172 | the calls follow main's order: probe, create, wait, describe, uploads, generate, pack, inspect, credentials, push, update, wait |
| `Deploy.CreateOnlyWhenAbsent` | src/lambdaplatform/deploy.py:89-99 | create_stack (CAPABILITY_IAM, OnFailure DELETE) is called only when the stack does not exist, and then as the second call |
| `Deploy.SuccessEndsWithUpdate` | src/lambdaplatform/deploy.py:158-172 | a run that returns has read an ArtifactBucket output, an inspected Digest and the primary path relative to the template directory, and ends with the push, then update_stack with the single parameter ImageDigest = inspected Digest and TemplateURL `https://{bucket}.s3.amazonaws.com/{primary path}`, then its wait |
| `Deploy.ImageFailureStops` | src/lambdaplatform/deploy.py:116-156 | a failing generator, skopeo copy or skopeo inspect raises before any credentials, push or update call |
| `Deploy.PushUsesToken` | src/lambdaplatform/deploy.py:143-156 | the push goes to the repository's `:latest` tag with the decoded token as its credentials |

## Left out

- Collision freedom of SHA-256 is not modelled. The hash and troposphere's JSON serialisation are arbitrary deterministic functions. So two different templates may share a key, and `NestedTemplatesRegistered` assumes the two nested templates do not.
- The IAM policy documents of `create_template` are not modelled. The roles and their policy are resources with the properties the DependsOn chain needs.
- The StackSet, DeletionPolicy, WaitCondition and SSM-typed-parameter behaviour of CloudFormation is not modelled. The model states what the templates declare and in which order. It makes no exactly-once or retry-safety claim for the three phases.
- troposphere's own validation is modelled only where the generators rely on it. Titles must be fresh, and a condition of the same name is overwritten.
- `CounterEncoding.IncrementCanonical`: the canonical form is guaranteed only below 2^33. Past that, 32 doubling passes cannot merge two `[2^32]` tokens.
- The JSON encoding of the custom-resource response, and a failure of the PUT itself, are not modelled. The request carries the response dict.
- `tasks/availability_zones.py`'s EC2 call is a parameter: the zone names, or the exception raised. The filters it passes are not modelled.
- `AvailabilityZones.Idempotent` holds only for zone names that are non-empty and comma-free. The comma-joined id cannot be split back otherwise.
- `deploy.py`'s `get_args` (argparse), `create_session` (boto3 sessions), the progress `print`s and the temporary directory's cleanup are not modelled. The parsed arguments and the directory name are inputs.
- `Deploy.RelativeTo` follows pathlib's POSIX parse, except that a path starting with exactly two slashes is read as rooted at "/" (pathlib keeps the root "//"). The error message is the wording of Python 3.12, and it does not model `repr` switching to double quotes for a path that contains a single quote.
- Waiters, subprocess runs, S3 uploads and ECR calls are answers read from `World`. No timeout, retry or partial output is modelled.
- `templates/__init__.py` and the other resource generators, `runtime.py`, `tasks/lambda_eip_allocator.py` and `tasks/image_tagger.py` are not part of this model. They are declarative resource definitions, network plumbing or thin AWS wrappers.
