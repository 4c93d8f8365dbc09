/**
 * The deployment-id generator (templates/deployment_id.py): the expression
 * that increments a counter held in an SSM parameter, the stack-set template
 * that creates that parameter, the child stack that reads it and computes the
 * next value, and the top-level template that ties them together.
 */
module DeploymentId {
  import opened Wrappers
  import opened Intrinsics
  import opened CounterEncoding
  import opened Troposphere
  import opened TemplatesCommon

  // ---------------------------------------------------------------------------
  // The increment expression
  // ---------------------------------------------------------------------------

  /** The expression after doubling passes i, .., Passes-1 are wrapped around e. */
  function PassesExpr(e: Expr, i: nat): Expr
    requires i <= Passes
    decreases Passes - i
  {
    if i == Passes then e
    else PassesExpr(FnJoin(Token(Pow2(i + 1)), FnSplit(DoublingPattern(i), e)), i + 1)
  }

  /** The expression simplify_value builds around s. */
  function SimplifyExpr(s: Expr): Expr
  {
    PassesExpr(FnJoin("[1]", FnSplit("[0][1]", s)), 0)
  }

  /** The expression increment_value builds around s. */
  function IncrementExpr(s: Expr): Expr
  {
    SimplifyExpr(FnJoin("", ListOf([s, Str("[1]")])))
  }

  /** Each wrapped pass evaluates to the corresponding string pass. */
  lemma {:induction false} EvalPassesExpr(ctx: Ctx, e: Expr, i: nat)
    requires i <= Passes
    ensures EvalStr(ctx, PassesExpr(e, i)) ==
            if EvalStr(ctx, e).Some? then Some(PassesFrom(EvalStr(ctx, e).value, i)) else None
    decreases Passes - i
  {
    if i < Passes {
      var e' := FnJoin(Token(Pow2(i + 1)), FnSplit(DoublingPattern(i), e));
      EvalRewrite(ctx, e, DoublingPattern(i), Token(Pow2(i + 1)));
      EvalPassesExpr(ctx, e', i + 1);
    }
  }

  /** simplify_value's expression evaluates to Simplify of its argument's value. */
  lemma EvalSimplifyExpr(ctx: Ctx, s: Expr)
    ensures EvalStr(ctx, SimplifyExpr(s)) ==
            if EvalStr(ctx, s).Some? then Some(Simplify(EvalStr(ctx, s).value)) else None
  {
    var zero := FnJoin("[1]", FnSplit("[0][1]", s));
    EvalRewrite(ctx, s, "[0][1]", "[1]");
    EvalPassesExpr(ctx, zero, 0);
  }

  /** increment_value's expression evaluates to Increment of its argument's value. */
  lemma EvalIncrementExpr(ctx: Ctx, s: Expr)
    ensures EvalStr(ctx, IncrementExpr(s)) ==
            if EvalStr(ctx, s).Some? then Some(Increment(EvalStr(ctx, s).value)) else None
  {
    EvalAppend(ctx, s, "[1]");
    EvalSimplifyExpr(ctx, FnJoin("", ListOf([s, Str("[1]")])));
  }

  /** simplify_value: the zero pass, then 32 doubling passes built in a loop.
      The result, once evaluated, is the simplified counter. */
  method SimplifyValue(s: Expr) returns (construct: Expr)
    ensures construct == SimplifyExpr(s)
    ensures forall ctx :: EvalStr(ctx, construct) ==
              if EvalStr(ctx, s).Some? then Some(Simplify(EvalStr(ctx, s).value)) else None
  {
    construct := FnJoin("[1]", FnSplit("[0][1]", s));
    for i := 0 to 32
      invariant PassesExpr(construct, i) == SimplifyExpr(s)
    {
      var lo := Pow2(i);
      var hi := Pow2(i + 1);
      construct := FnJoin("[" + Decimal(hi) + "]", FnSplit(Token(lo) + Token(lo), construct));
    }
    forall ctx: Ctx
      ensures EvalStr(ctx, construct) ==
              if EvalStr(ctx, s).Some? then Some(Simplify(EvalStr(ctx, s).value)) else None
    {
      EvalSimplifyExpr(ctx, s);
    }
  }

  /** increment_value: simplify_value applied to s with "[1]" appended. */
  method IncrementValue(s: Expr) returns (r: Expr)
    ensures r == IncrementExpr(s)
    ensures forall ctx :: EvalStr(ctx, r) ==
              if EvalStr(ctx, s).Some? then Some(Increment(EvalStr(ctx, s).value)) else None
  {
    r := SimplifyValue(FnJoin("", ListOf([s, Str("[1]")])));
    forall ctx: Ctx
      ensures EvalStr(ctx, r) ==
              if EvalStr(ctx, s).Some? then Some(Increment(EvalStr(ctx, s).value)) else None
    {
      EvalIncrementExpr(ctx, s);
    }
  }

  // ---------------------------------------------------------------------------
  // The stack-set template: one SSM parameter, retained or deleted
  // ---------------------------------------------------------------------------

  const Modes: seq<string> := ["Retain", "Delete"]

  function ModeCondition(mode: string): string
  {
    if mode == "Retain" then "ShouldRetainParameter" else "ShouldDeleteParameter"
  }

  function SsmParameter(mode: string): Resource
  {
    Resource("AWS::SSM::Parameter",
             map["Name" := Ref("ParameterName"), "Value" := Ref("ParameterValue"), "Type" := Str("String")],
             Some(ModeCondition(mode)), [], Some(mode))
  }

  function WaitHandle(mode: string): Resource
  {
    Resource("AWS::CloudFormation::WaitConditionHandle", map[], Some(ModeCondition(mode)), [], None)
  }

  function WaitOn(mode: string): Resource
  {
    Resource("AWS::CloudFormation::WaitCondition",
             map["Handle" := Ref("WaitConditionHandle" + mode), "Count" := Num(1), "Timeout" := Num(1)],
             Some(ModeCondition(mode)), ["Parameter" + mode], None)
  }

  /** The three resources one iteration of the mode loop adds. */
  function ModeResources(res: map<string, Resource>, mode: string): map<string, Resource>
  {
    res["Parameter" + mode := SsmParameter(mode)]
       ["WaitConditionHandle" + mode := WaitHandle(mode)]
       ["WaitCondition" + mode := WaitOn(mode)]
  }

  /** The resources after the loop has run over `modes`. */
  function ModesResources(modes: seq<string>): map<string, Resource>
    decreases |modes|
  {
    if |modes| == 0 then map[]
    else ModeResources(ModesResources(modes[..|modes| - 1]), modes[|modes| - 1])
  }

  function StackSetBase(): TemplateValue
  {
    EmptyTemplate("SSM parameter Ouroboros creation utility").(
      parameters := map["ParameterName" := Parameter("String", [], None)]
                       ["ParameterValue" := Parameter("String", [], Some(".+"))]
                       ["RetainParameter" := Parameter("String", ["true", "false"], None)],
      conditions := map["ShouldRetainParameter" := FnEquals(Ref("RetainParameter"), Str("true"))]
                       ["ShouldDeleteParameter" := FnEquals(Ref("RetainParameter"), Str("false"))])
  }

  /** The template create_stack_set_template returns. */
  function StackSetTemplate(): TemplateValue
  {
    StackSetBase().(resources := ModesResources(Modes))
  }

  /** The body of create_stack_set_template's loop: the SSM parameter, the
      wait-condition handle and the wait condition of one mode. */
  method AddModeResources(t: Template, mode: string, condition: string)
    requires condition == ModeCondition(mode)
    requires "Parameter" + mode !in t.resources && "WaitConditionHandle" + mode !in t.resources
    requires "WaitCondition" + mode !in t.resources
    modifies t
    ensures t.resources == ModeResources(old(t.resources), mode)
    ensures t.description == old(t.description) && t.parameters == old(t.parameters)
    ensures t.conditions == old(t.conditions) && t.outputs == old(t.outputs)
  {
    assert |"Parameter" + mode| < |"WaitCondition" + mode| < |"WaitConditionHandle" + mode|;
    t.AddResource("Parameter" + mode,
      Resource("AWS::SSM::Parameter",
               map["Name" := Ref("ParameterName"), "Value" := Ref("ParameterValue"), "Type" := Str("String")],
               Some(condition), [], Some(mode)));
    t.AddResource("WaitConditionHandle" + mode,
      Resource("AWS::CloudFormation::WaitConditionHandle", map[], Some(condition), [], None));
    t.AddResource("WaitCondition" + mode,
      Resource("AWS::CloudFormation::WaitCondition",
               map["Handle" := Ref("WaitConditionHandle" + mode), "Count" := Num(1), "Timeout" := Num(1)],
               Some(condition), ["Parameter" + mode], None));
  }

  /** create_stack_set_template, first part: the description, the three
      parameters and the two conditions the mode loop refers to. */
  method NewStackSetBase() returns (t: Template)
    ensures fresh(t) && t.Value() == StackSetBase()
  {
    t := new Template("SSM parameter Ouroboros creation utility");
    t.AddParameter("ParameterName", Parameter("String", [], None));
    t.AddParameter("ParameterValue", Parameter("String", [], Some(".+")));
    t.AddParameter("RetainParameter", Parameter("String", ["true", "false"], None));
    t.AddCondition("ShouldRetainParameter", FnEquals(Ref("RetainParameter"), Str("true")));
    t.AddCondition("ShouldDeleteParameter", FnEquals(Ref("RetainParameter"), Str("false")));
  }

  /** create_stack_set_template. */
  method CreateStackSetTemplate() returns (t: Template)
    ensures fresh(t) && t.Value() == StackSetTemplate()
  {
    t := NewStackSetBase();
    var shouldRetain := "ShouldRetainParameter";
    var shouldDelete := "ShouldDeleteParameter";
    ghost var base := StackSetBase();
    for k := 0 to |Modes|
      invariant fresh(t)
      invariant t.resources == ModesResources(Modes[..k])
      invariant t.description == base.description && t.parameters == base.parameters
      invariant t.conditions == base.conditions && t.outputs == map[]
    {
      var mode := Modes[k];
      var condition := if mode == "Retain" then shouldRetain else shouldDelete;
      if k == 0 {
        assert Modes[..k] == [];
      } else {
        assert Modes[..k] == ["Retain"] && ["Retain"][..0] == [];
        assert t.resources == ModeResources(map[], "Retain");
        assert "Delete"[0] != "Retain"[0];
        ModeKeysDistinct("Delete", "Retain");
      }
      AddModeResources(t, mode, condition);
      assert Modes[..k + 1][..k] == Modes[..k];
    }
    assert Modes[..|Modes|] == Modes;
  }

  /** The stack set's RetainParameter decides the two conditions: with an
      allowed value, exactly one of them holds, ShouldRetainParameter when
      it is "true". */
  lemma StackSetConditions(ctx: Ctx)
    requires ConditionsAgree(ctx, StackSetTemplate().conditions)
    requires "RetainParameter" in ctx.refs
    requires ctx.refs["RetainParameter"] in StackSetTemplate().parameters["RetainParameter"].allowedValues
    ensures ctx.conditions["ShouldRetainParameter"] == (ctx.refs["RetainParameter"] == "true")
    ensures ctx.conditions["ShouldDeleteParameter"] == !ctx.conditions["ShouldRetainParameter"]
  {
    var conds := StackSetTemplate().conditions;
    assert "ShouldRetainParameter" in conds && "ShouldDeleteParameter" in conds;
    var r := ctx.refs["RetainParameter"];
    assert Eval(ctx, Ref("RetainParameter")) == Some(VStr(r));
    assert EvalBool(ctx, conds["ShouldRetainParameter"]) == Some(VStr(r) == VStr("true"));
    assert EvalBool(ctx, conds["ShouldDeleteParameter"]) == Some(VStr(r) == VStr("false"));
  }

  lemma SuffixDistinct(x: string, m1: string, m2: string)
    requires m1 != m2
    ensures x + m1 != x + m2
  {
    assert (x + m1)[|x|..] == m1 && (x + m2)[|x|..] == m2;
  }

  /** The names the loop gives the resources of two different modes never clash. */
  lemma ModeKeysDistinct(m1: string, m2: string)
    requires |m1| == |m2| && m1 != m2
    ensures "Parameter" + m1 != "Parameter" + m2
    ensures "Parameter" + m1 != "WaitConditionHandle" + m2 && "Parameter" + m1 != "WaitCondition" + m2
    ensures "WaitConditionHandle" + m1 != "Parameter" + m2
    ensures "WaitConditionHandle" + m1 != "WaitConditionHandle" + m2
    ensures "WaitConditionHandle" + m1 != "WaitCondition" + m2
    ensures "WaitCondition" + m1 != "Parameter" + m2 && "WaitCondition" + m1 != "WaitConditionHandle" + m2
    ensures "WaitCondition" + m1 != "WaitCondition" + m2
  {
    SuffixDistinct("Parameter", m1, m2);
    SuffixDistinct("WaitConditionHandle", m1, m2);
    SuffixDistinct("WaitCondition", m1, m2);
  }

  lemma StackSetResourcesUnrolled()
    ensures StackSetTemplate().resources == ModeResources(ModeResources(map[], "Retain"), "Delete")
  {
    assert Modes[..1] == ["Retain"] && ["Retain"][..0] == [];
  }

  /** For each mode the loop adds the SSM parameter, a wait-condition handle
      and a wait condition on that parameter, all three under the mode's
      condition; only the parameter carries a DeletionPolicy, the mode. */
  lemma StackSetModes(mode: string)
    requires mode in Modes
    ensures var res := StackSetTemplate().resources;
            "Parameter" + mode in res && "WaitConditionHandle" + mode in res && "WaitCondition" + mode in res &&
            res["Parameter" + mode].condition == Some(ModeCondition(mode)) &&
            res["WaitConditionHandle" + mode].condition == Some(ModeCondition(mode)) &&
            res["WaitCondition" + mode].condition == Some(ModeCondition(mode)) &&
            res["Parameter" + mode].deletionPolicy == Some(mode) &&
            res["WaitConditionHandle" + mode].deletionPolicy == None &&
            res["WaitCondition" + mode].deletionPolicy == None &&
            res["WaitCondition" + mode].dependsOn == ["Parameter" + mode] &&
            res["WaitCondition" + mode].properties["Handle"] == Ref("WaitConditionHandle" + mode)
  {
    StackSetResourcesUnrolled();
    assert "Retain"[0] != "Delete"[0];
    ModeKeysDistinct("Retain", "Delete");
  }

  /** Whatever RetainParameter says, the parameter the stack set creates is
      retained on deletion exactly when RetainParameter is "true". */
  lemma ActiveParameterPolicy(ctx: Ctx, mode: string)
    requires ConditionsAgree(ctx, StackSetTemplate().conditions)
    requires "RetainParameter" in ctx.refs
    requires ctx.refs["RetainParameter"] in StackSetTemplate().parameters["RetainParameter"].allowedValues
    requires mode in Modes && ctx.conditions[ModeCondition(mode)]
    ensures StackSetTemplate().resources["Parameter" + mode].deletionPolicy ==
            Some(if ctx.refs["RetainParameter"] == "true" then "Retain" else "Delete")
  {
    StackSetConditions(ctx);
    StackSetModes(mode);
  }

  lemma StackSetTemplateClosed()
    ensures Closed(StackSetTemplate())
  {
    var t := StackSetTemplate();
    StackSetResourcesUnrolled();
    forall name | name in t.resources
      ensures ResourceClosed(t, t.resources[name])
    {
    }
  }

  // ---------------------------------------------------------------------------
  // The child stack: reads the counter and computes the next value
  // ---------------------------------------------------------------------------

  /** The template create_child_stack_template returns. */
  function ChildStackTemplate(): TemplateValue
  {
    EmptyTemplate("Auto-incrementing SSM parameter utility").(
      parameters := map["ParameterValue" := Parameter("AWS::SSM::Parameter::Value<String>", [], None)],
      resources := map["WaitConditionHandle" := Plain("AWS::CloudFormation::WaitConditionHandle", map[])],
      outputs := map["CurrentValue" := Ref("ParameterValue")]["NextValue" := IncrementExpr(Ref("ParameterValue"))])
  }

  /** create_child_stack_template. */
  method CreateChildStackTemplate() returns (t: Template)
    ensures fresh(t) && t.Value() == ChildStackTemplate()
  {
    t := new Template("Auto-incrementing SSM parameter utility");
    t.AddParameter("ParameterValue", Parameter("AWS::SSM::Parameter::Value<String>", [], None));
    t.AddResource("WaitConditionHandle", Plain("AWS::CloudFormation::WaitConditionHandle", map[]));
    t.AddOutput("CurrentValue", Ref("ParameterValue"));
    var next := IncrementValue(Ref("ParameterValue"));
    t.AddOutput("NextValue", next);
  }

  /** The child stack's outputs: the counter it was given and its increment. */
  lemma ChildOutputs(ctx: Ctx)
    requires "ParameterValue" in ctx.refs
    ensures EvalStr(ctx, ChildStackTemplate().outputs["CurrentValue"]) == Some(ctx.refs["ParameterValue"])
    ensures EvalStr(ctx, ChildStackTemplate().outputs["NextValue"]) == Some(Increment(ctx.refs["ParameterValue"]))
  {
    EvalIncrementExpr(ctx, Ref("ParameterValue"));
  }

  /** Given a canonical counter, NextValue is the canonical counter one higher. */
  lemma ChildAdvancesCounter(ctx: Ctx, ts: seq<nat>)
    requires Canonical(ts) && Sum(ts) + 1 < Bound
    requires "ParameterValue" in ctx.refs && ctx.refs["ParameterValue"] == Render(ts)
    ensures Canonical(TokIncrement(ts)) && Sum(TokIncrement(ts)) == Sum(ts) + 1
    ensures EvalStr(ctx, ChildStackTemplate().outputs["NextValue"]) == Some(Render(TokIncrement(ts)))
  {
    ChildOutputs(ctx);
    IncrementRendered(ts);
    IncrementCanonical(ts);
  }

  // ---------------------------------------------------------------------------
  // The top-level template
  // ---------------------------------------------------------------------------

  /** The SSM parameter name: "<stack name>-<stack id's uuid>-State". */
  function ParameterNameExpr(): Expr
  {
    FnJoin("-", ListOf([Ref("AWS::StackName"), FnSelect(2, FnSplit("/", Ref("AWS::StackId"))), Str("State")]))
  }

  /** The third "/"-separated field of "arn/<name>/<uuid>" is the uuid. */
  lemma StackIdUuid(ctx: Ctx, arn: string, name: string, uuid: string)
    requires "AWS::StackId" in ctx.refs && ctx.refs["AWS::StackId"] == arn + "/" + name + "/" + uuid
    requires '/' !in arn && '/' !in name && '/' !in uuid
    ensures EvalStr(ctx, FnSelect(2, FnSplit("/", Ref("AWS::StackId")))) == Some(uuid)
  {
    var parts := [arn, name, uuid];
    assert parts[1..] == [name, uuid] && parts[1..][1..] == [uuid];
    assert Join("/", [name, uuid]) == name + "/" + uuid;
    assert Join("/", parts) == arn + "/" + (name + "/" + uuid);
    assert ((arn + "/") + name) + ("/" + uuid) == (arn + "/") + (name + ("/" + uuid));
    assert (arn + "/" + name + "/") + uuid == (arn + "/" + name) + ("/" + uuid);
    assert (name + "/") + uuid == name + ("/" + uuid);
    assert (arn + "/") + (name + "/" + uuid) == arn + ("/" + (name + "/" + uuid));
    SplitJoin('/', parts);
  }

  /** Joining [x, y, "State"] with "-" gives "x-y-State". */
  lemma JoinState(x: string, y: string)
    ensures Join("-", [x, y, "State"]) == x + "-" + y + "-State"
  {
    var values := [x, y, "State"];
    assert values[1..] == [y, "State"] && values[1..][1..] == ["State"];
    assert Join("-", [y, "State"]) == y + "-" + "State";
    assert Join("-", values) == x + "-" + (y + "-" + "State");
    assert "-" + "State" == "-State";
    assert (y + "-") + "State" == y + ("-" + "State");
    assert y + "-" + "State" == y + "-State";
    assert (x + "-" + y) + "-State" == (x + "-") + (y + "-State");
    assert Join("-", values) == x + "-" + y + "-State";
  }

  /** Join("-", [a, b, "State"]) of two string expressions. */
  lemma JoinStateEval(ctx: Ctx, a: Expr, b: Expr)
    requires EvalStr(ctx, a).Some? && EvalStr(ctx, b).Some?
    ensures EvalStr(ctx, FnJoin("-", ListOf([a, b, Str("State")]))) ==
            Some(EvalStr(ctx, a).value + "-" + EvalStr(ctx, b).value + "-State")
  {
    var items := [a, b, Str("State")];
    var tail := [b, Str("State")];
    assert items == [a] + tail;
    EvalPair(ctx, b, Str("State"));
    EvalAllCons(ctx, a, tail);
    var x, y := EvalStr(ctx, a).value, EvalStr(ctx, b).value;
    assert [x] + [y, "State"] == [x, y, "State"];
    assert EvalAll(ctx, items) == Some([x, y, "State"]);
    JoinState(x, y);
    assert Eval(ctx, FnJoin("-", ListOf(items))) == Some(VStr(Join("-", [x, y, "State"])));
  }

  /** A stack id "arn/<name>/<uuid>" names the parameter
      "<stack name>-<uuid>-State". */
  lemma ParameterNameEval(ctx: Ctx, arn: string, name: string, uuid: string)
    requires "AWS::StackName" in ctx.refs
    requires "AWS::StackId" in ctx.refs && ctx.refs["AWS::StackId"] == arn + "/" + name + "/" + uuid
    requires '/' !in arn && '/' !in name && '/' !in uuid
    ensures EvalStr(ctx, ParameterNameExpr()) == Some(ctx.refs["AWS::StackName"] + "-" + uuid + "-State")
  {
    StackIdUuid(ctx, arn, name, uuid);
    JoinStateEval(ctx, Ref("AWS::StackName"), FnSelect(2, FnSplit("/", Ref("AWS::StackId"))));
  }

  function StackSetParameter(key: string, value: Expr): Expr
  {
    Obj(map["ParameterKey" := Str(key), "ParameterValue" := value])
  }

  /** The registry file names of the two nested templates, which the
      top-level template's TemplateURLs point at. */
  datatype NestedFiles = NestedFiles(stackSet: string, child: string)

  function NestedFilesOf(c: Codec): NestedFiles
  {
    NestedFiles(FileName(c, StackSetTemplate()), FileName(c, ChildStackTemplate()))
  }

  /** The URLs at which the artifact bucket serves the nested templates. */
  function StackSetUrl(n: NestedFiles): Expr
  {
    S3Url(Ref("ArtifactBucket"), n.stackSet)
  }

  function ChildUrl(n: NestedFiles): Expr
  {
    S3Url(Ref("ArtifactBucket"), n.child)
  }

  /** A stack set instance of the stack-set template; the two instances only
      differ in their name, their RetainParameter and what they depend on. */
  function StackSetResource(templateUrl: Expr, name: string, retain: string, dependsOn: string): Resource
  {
    Resource("AWS::CloudFormation::StackSet", map[
      "AdministrationRoleARN" := FnGetAtt("StackSetAdministrationRole", "Arn"),
      "ExecutionRoleName" := Ref("StackSetExecutionRole"),
      "OperationPreferences" := Obj(map["FailureTolerancePercentage" := Num(100), "MaxConcurrentPercentage" := Num(100)]),
      "PermissionModel" := Str("SELF_MANAGED"),
      "StackInstancesGroup" := ListOf([Obj(map[
        "DeploymentTargets" := Obj(map["Accounts" := ListOf([Ref("AWS::AccountId")])]),
        "Regions" := ListOf([Ref("AWS::Region")])])]),
      "TemplateURL" := templateUrl,
      "StackSetName" := FnJoin("-", ListOf([Ref("AWS::StackName"), Str(name)])),
      "Parameters" := ListOf([
        StackSetParameter("ParameterName", ParameterNameExpr()),
        StackSetParameter("ParameterValue", Str("[0]")),
        StackSetParameter("RetainParameter", Str(retain))])],
      None, [dependsOn], None)
  }

  function ChildStack(templateUrl: Expr): Resource
  {
    Resource("AWS::CloudFormation::Stack", map[
      "TemplateURL" := templateUrl,
      "Parameters" := Obj(map["ParameterValue" := ParameterNameExpr()])],
      None, ["StackSetRetain"], None)
  }

  function StateParameter(): Resource
  {
    Resource("AWS::SSM::Parameter", map[
      "Name" := ParameterNameExpr(),
      "Type" := Str("String"),
      "Value" := FnGetAtt("Stack", "Outputs.NextValue")],
      None, ["StackSetDelete"], None)
  }

  /** The administration and execution roles and the policy that lets the
      first assume the second. */
  function RoleResources(): map<string, Resource>
  {
    map["StackSetAdministrationRole" := Plain("AWS::IAM::Role", map[])]
       ["StackSetExecutionRole" := Plain("AWS::IAM::Role", map[])]
       ["StackSetAdministrationRolePolicy" := Plain("AWS::IAM::Policy", map[
          "PolicyName" := Str("AssumeExecutionRole"),
          "Roles" := ListOf([Ref("StackSetAdministrationRole")])])]
  }

  /** The resources once the retaining stack set and the child stack are added. */
  function RetainingResources(n: NestedFiles): map<string, Resource>
  {
    RoleResources()["StackSetRetain" := StackSetResource(StackSetUrl(n), "StackSetRetain", "true", "StackSetAdministrationRolePolicy")]
                   ["Stack" := ChildStack(ChildUrl(n))]
  }

  /** All resources of the top-level template. */
  function MainResources(n: NestedFiles): map<string, Resource>
  {
    RetainingResources(n)["StackSetDelete" := StackSetResource(StackSetUrl(n), "StackSetDelete", "false", "Stack")]
                         ["Parameter" := StateParameter()]
  }

  /** The template create_template returns, given the codec of the registry
      it stores the nested templates in. */
  function MainTemplate(n: NestedFiles): TemplateValue
  {
    EmptyTemplate("Deployment ID generator").(
      parameters := map["ArtifactBucket" := Parameter("String", [], None)],
      resources := MainResources(n),
      outputs := map["Value" := FnGetAtt("Stack", "Outputs.NextValue")])
  }

  /** create_template, first part: the two IAM roles and the policy. */
  method AddRoles(t: Template)
    requires t.resources == map[]
    modifies t
    ensures t.resources == RoleResources()
    ensures t.description == old(t.description) && t.parameters == old(t.parameters)
    ensures t.conditions == old(t.conditions) && t.outputs == old(t.outputs)
  {
    t.AddResource("StackSetAdministrationRole", Plain("AWS::IAM::Role", map[]));
    t.AddResource("StackSetExecutionRole", Plain("AWS::IAM::Role", map[]));
    t.AddResource("StackSetAdministrationRolePolicy", Plain("AWS::IAM::Policy", map[
      "PolicyName" := Str("AssumeExecutionRole"),
      "Roles" := ListOf([Ref("StackSetAdministrationRole")])]));
  }

  /** create_template: register the stack-set template and add the retaining
      stack set that instantiates it. */
  method AddStackSetRetain(t: Template, registry: TemplateRegistry)
    requires t.resources == RoleResources()
    modifies t, registry
    ensures t.resources == RoleResources()["StackSetRetain" :=
              StackSetResource(StackSetUrl(NestedFilesOf(registry.codec)), "StackSetRetain", "true", "StackSetAdministrationRolePolicy")]
    ensures t.description == old(t.description) && t.parameters == old(t.parameters)
    ensures t.conditions == old(t.conditions) && t.outputs == old(t.outputs)
    ensures registry.files == Register(registry.codec, old(registry.files), StackSetTemplate())
  {
    var stackSetTemplate := CreateStackSetTemplate();
    var stackSetUrl := registry.GetTemplateS3Url(Ref("ArtifactBucket"), stackSetTemplate.Value());
    t.AddResource("StackSetRetain", StackSetResource(stackSetUrl, "StackSetRetain", "true", "StackSetAdministrationRolePolicy"));
  }

  /** create_template: register the child template and add the stack that
      instantiates it. */
  method AddChildStack(t: Template, registry: TemplateRegistry)
    requires "Stack" !in t.resources
    modifies t, registry
    ensures t.resources == old(t.resources)["Stack" := ChildStack(ChildUrl(NestedFilesOf(registry.codec)))]
    ensures t.description == old(t.description) && t.parameters == old(t.parameters)
    ensures t.conditions == old(t.conditions) && t.outputs == old(t.outputs)
    ensures registry.files == Register(registry.codec, old(registry.files), ChildStackTemplate())
  {
    var childTemplate := CreateChildStackTemplate();
    var childUrl := registry.GetTemplateS3Url(Ref("ArtifactBucket"), childTemplate.Value());
    t.AddResource("Stack", Resource("AWS::CloudFormation::Stack", map[
      "TemplateURL" := childUrl,
      "Parameters" := Obj(map["ParameterValue" := ParameterNameExpr()])],
      None, ["StackSetRetain"], None));
  }

  /** create_template, second part: register the stack-set template, add the
      retaining stack set, register the child template, add the child stack. */
  method AddRetainingStage(t: Template, registry: TemplateRegistry)
    requires t.resources == RoleResources()
    modifies t, registry
    ensures t.resources == RetainingResources(NestedFilesOf(registry.codec))
    ensures t.description == old(t.description) && t.parameters == old(t.parameters)
    ensures t.conditions == old(t.conditions) && t.outputs == old(t.outputs)
    ensures registry.files ==
            Register(registry.codec, Register(registry.codec, old(registry.files), StackSetTemplate()), ChildStackTemplate())
  {
    AddStackSetRetain(t, registry);
    AddChildStack(t, registry);
  }

  /** create_template, third part: the deleting stack set and the parameter
      that receives the next value. */
  method AddDeletingStage(t: Template, n: NestedFiles)
    requires t.resources == RetainingResources(n)
    modifies t
    ensures t.resources == MainResources(n)
    ensures t.description == old(t.description) && t.parameters == old(t.parameters)
    ensures t.conditions == old(t.conditions) && t.outputs == old(t.outputs)
  {
    t.AddResource("StackSetDelete", StackSetResource(StackSetUrl(n), "StackSetDelete", "false", "Stack"));
    t.AddResource("Parameter", Resource("AWS::SSM::Parameter", map[
      "Name" := ParameterNameExpr(),
      "Type" := Str("String"),
      "Value" := FnGetAtt("Stack", "Outputs.NextValue")],
      None, ["StackSetDelete"], None));
  }

  /** create_template: builds the two nested templates, registers each under
      its content address as its URL is computed (stack set first, then the
      child), and returns the top-level template. */
  method CreateTemplate(registry: TemplateRegistry) returns (t: Template)
    modifies registry
    ensures fresh(t) && t.Value() == MainTemplate(NestedFilesOf(registry.codec))
    ensures registry.files ==
            Register(registry.codec, Register(registry.codec, old(registry.files), StackSetTemplate()), ChildStackTemplate())
  {
    t := new Template("Deployment ID generator");
    t.AddParameter("ArtifactBucket", Parameter("String", [], None));
    AddRoles(t);
    AddRetainingStage(t, registry);
    AddDeletingStage(t, NestedFilesOf(registry.codec));
    t.AddOutput("Value", FnGetAtt("Stack", "Outputs.NextValue"));
  }

  lemma MainTemplateClosed(n: NestedFiles)
    ensures Closed(MainTemplate(n))
  {
    var t0 := MainTemplate(n).(resources := map[]);
    var t1 := t0.(resources := t0.resources["StackSetAdministrationRole" := Plain("AWS::IAM::Role", map[])]);
    AddResourceClosed(t0, "StackSetAdministrationRole", Plain("AWS::IAM::Role", map[]));
    var t2 := t1.(resources := t1.resources["StackSetExecutionRole" := Plain("AWS::IAM::Role", map[])]);
    AddResourceClosed(t1, "StackSetExecutionRole", Plain("AWS::IAM::Role", map[]));
    var policy := RoleResources()["StackSetAdministrationRolePolicy"];
    var t3 := t2.(resources := t2.resources["StackSetAdministrationRolePolicy" := policy]);
    AddResourceClosed(t2, "StackSetAdministrationRolePolicy", policy);
    assert t3.resources == RoleResources();
    var retain := StackSetResource(StackSetUrl(n), "StackSetRetain", "true", "StackSetAdministrationRolePolicy");
    var t4 := t3.(resources := t3.resources["StackSetRetain" := retain]);
    AddResourceClosed(t3, "StackSetRetain", retain);
    var t5 := t4.(resources := t4.resources["Stack" := ChildStack(ChildUrl(n))]);
    AddResourceClosed(t4, "Stack", ChildStack(ChildUrl(n)));
    assert t5.resources == RetainingResources(n);
    var delete := StackSetResource(StackSetUrl(n), "StackSetDelete", "false", "Stack");
    var t6 := t5.(resources := t5.resources["StackSetDelete" := delete]);
    AddResourceClosed(t5, "StackSetDelete", delete);
    AddResourceClosed(t6, "Parameter", StateParameter());
    assert MainTemplate(n) == t6.(resources := t6.resources["Parameter" := StateParameter()]);
  }

  /** An order in which CloudFormation may create the resources: each one
      once, after everything it depends on. */
  predicate CreationOrder(t: TemplateValue, order: seq<string>)
  {
    (forall i, j :: 0 <= i < j < |order| ==> order[i] != order[j]) &&
    (forall i :: 0 <= i < |order| ==> order[i] in t.resources) &&
    (forall i, d :: 0 <= i < |order| && d in t.resources[order[i]].dependsOn ==>
       exists j :: 0 <= j < i && order[j] == d)
  }

  lemma DependsBefore(t: TemplateValue, order: seq<string>, a: string, b: string, ia: nat, ib: nat)
    requires CreationOrder(t, order)
    requires ia < |order| && ib < |order| && order[ia] == a && order[ib] == b
    requires a in t.resources[b].dependsOn
    ensures ia < ib
  {
    var j :| 0 <= j < ib && order[j] == a;
    if j != ia {
      assert order[j] == order[ia];
    }
  }

  /** The Ouroboros order: the retaining stack set creates the parameter,
      the child stack reads it, the deleting stack set hands it over, and only
      then is the parameter overwritten with the next value. */
  lemma OuroborosOrder(n: NestedFiles, order: seq<string>, iRetain: nat, iStack: nat, iDelete: nat, iParameter: nat)
    requires CreationOrder(MainTemplate(n), order)
    requires iRetain < |order| && order[iRetain] == "StackSetRetain"
    requires iStack < |order| && order[iStack] == "Stack"
    requires iDelete < |order| && order[iDelete] == "StackSetDelete"
    requires iParameter < |order| && order[iParameter] == "Parameter"
    ensures iRetain < iStack < iDelete < iParameter
  {
    var t := MainTemplate(n);
    assert "StackSetRetain" in t.resources["Stack"].dependsOn;
    assert "Stack" in t.resources["StackSetDelete"].dependsOn;
    assert "StackSetDelete" in t.resources["Parameter"].dependsOn;
    DependsBefore(t, order, "StackSetRetain", "Stack", iRetain, iStack);
    DependsBefore(t, order, "Stack", "StackSetDelete", iStack, iDelete);
    DependsBefore(t, order, "StackSetDelete", "Parameter", iDelete, iParameter);
  }

  /** Both stack sets seed the counter with "[0]" under the same parameter
      name the child stack reads and the top-level parameter writes; they
      differ only in RetainParameter. */
  lemma StackSetsShareParameter(n: NestedFiles)
    ensures var res := MainTemplate(n).resources;
            var seed := ListOf([StackSetParameter("ParameterName", ParameterNameExpr()),
                                StackSetParameter("ParameterValue", Str("[0]"))]);
            res["StackSetRetain"].properties["Parameters"].elems[..2] == seed.elems &&
            res["StackSetDelete"].properties["Parameters"].elems[..2] == seed.elems &&
            res["StackSetRetain"].properties["Parameters"].elems[2] == StackSetParameter("RetainParameter", Str("true")) &&
            res["StackSetDelete"].properties["Parameters"].elems[2] == StackSetParameter("RetainParameter", Str("false")) &&
            res["Stack"].properties["Parameters"].fields["ParameterValue"] == ParameterNameExpr() &&
            res["Parameter"].properties["Name"] == ParameterNameExpr()
  {
  }

  /** One deployment advances the counter: if the SSM parameter holds the
      canonical counter ts, the child stack reads it, and the parameter
      resource and the output both receive the child's NextValue, the
      canonical counter one higher. */
  lemma DeploymentAdvances(n: NestedFiles, ctx: Ctx, child: Ctx, ssm: map<string, string>, ts: seq<nat>)
    requires Canonical(ts) && Sum(ts) + 1 < Bound
    requires EvalStr(ctx, ParameterNameExpr()).Some?
    requires EvalStr(ctx, ParameterNameExpr()).value in ssm
    requires ssm[EvalStr(ctx, ParameterNameExpr()).value] == Render(ts)
    requires "ParameterValue" in child.refs && child.refs["ParameterValue"] == ssm[EvalStr(ctx, ParameterNameExpr()).value]
    requires EvalStr(ctx, FnGetAtt("Stack", "Outputs.NextValue")) == EvalStr(child, ChildStackTemplate().outputs["NextValue"])
    ensures EvalStr(ctx, MainTemplate(n).resources["Parameter"].properties["Value"]) == Some(Render(TokIncrement(ts)))
    ensures EvalStr(ctx, MainTemplate(n).outputs["Value"]) == Some(Render(TokIncrement(ts)))
    ensures Canonical(TokIncrement(ts)) && Sum(TokIncrement(ts)) == Sum(ts) + 1
  {
    ChildAdvancesCounter(child, ts);
    assert MainTemplate(n).resources["Parameter"].properties["Value"] == FnGetAtt("Stack", "Outputs.NextValue");
  }

  /** After create_template both nested templates are stored under the file
      names their URLs point at. */
  lemma NestedTemplatesRegistered(c: Codec, files: map<string, seq<byte>>)
    requires FileName(c, StackSetTemplate()) != FileName(c, ChildStackTemplate())
    ensures var after := Register(c, Register(c, files, StackSetTemplate()), ChildStackTemplate());
            FileName(c, StackSetTemplate()) in after && after[FileName(c, StackSetTemplate())] == TemplateBytes(c, StackSetTemplate()) &&
            FileName(c, ChildStackTemplate()) in after && after[FileName(c, ChildStackTemplate())] == TemplateBytes(c, ChildStackTemplate())
  {
    RegisterStores(c, files, StackSetTemplate());
    RegisterStores(c, Register(c, files, StackSetTemplate()), ChildStackTemplate());
  }
}
