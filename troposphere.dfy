/**
 * The part of troposphere's Template the generators use: a description and
 * four dictionaries (parameters, conditions, resources, outputs) that the
 * add_* methods fill in place.
 */
module Troposphere {
  import opened Wrappers
  import opened Intrinsics

  /** A template parameter: its Type, AllowedValues (empty when unset) and AllowedPattern. */
  datatype Parameter = Parameter(kind: string, allowedValues: seq<string>, allowedPattern: Option<string>)

  /** A resource: its Type, its properties, and the resource attributes the
      generators set (Condition, DependsOn, DeletionPolicy). */
  datatype Resource = Resource(
    kind: string,
    properties: map<string, Expr>,
    condition: Option<string>,
    dependsOn: seq<string>,
    deletionPolicy: Option<string>)

  /** A template as a value. */
  datatype TemplateValue = TemplateValue(
    description: string,
    parameters: map<string, Parameter>,
    conditions: map<string, Expr>,
    resources: map<string, Resource>,
    outputs: map<string, Expr>)

  function EmptyTemplate(description: string): TemplateValue
  {
    TemplateValue(description, map[], map[], map[], map[])
  }

  /** A resource of `kind` with only properties set. */
  function Plain(kind: string, properties: map<string, Expr>): Resource
  {
    Resource(kind, properties, None, [], None)
  }

  /** Every Condition and DependsOn of a resource names something the
      template declares; CloudFormation rejects a template otherwise. */
  predicate Closed(t: TemplateValue)
  {
    forall name :: name in t.resources ==> ResourceClosed(t, t.resources[name])
  }

  predicate ResourceClosed(t: TemplateValue, r: Resource)
  {
    (r.condition.Some? ==> r.condition.value in t.conditions) &&
    (forall j :: 0 <= j < |r.dependsOn| ==> r.dependsOn[j] in t.resources)
  }

  /** A template under construction. */
  class Template {
    var description: string
    var parameters: map<string, Parameter>
    var conditions: map<string, Expr>
    var resources: map<string, Resource>
    var outputs: map<string, Expr>

    function Value(): TemplateValue
      reads this
    {
      TemplateValue(description, parameters, conditions, resources, outputs)
    }

    constructor (description: string)
      ensures this.description == description
      ensures parameters == map[] && conditions == map[] && resources == map[] && outputs == map[]
    {
      this.description := description;
      parameters := map[];
      conditions := map[];
      resources := map[];
      outputs := map[];
    }

    /** add_parameter; troposphere refuses a title that is already taken. */
    method AddParameter(name: string, p: Parameter)
      requires name !in parameters
      modifies this
      ensures parameters == old(parameters)[name := p]
      ensures description == old(description) && conditions == old(conditions) && resources == old(resources) && outputs == old(outputs)
    {
      parameters := parameters[name := p];
    }

    /** add_condition overwrites a condition of the same name. */
    method AddCondition(name: string, c: Expr)
      modifies this
      ensures conditions == old(conditions)[name := c]
      ensures description == old(description) && parameters == old(parameters) && resources == old(resources) && outputs == old(outputs)
    {
      conditions := conditions[name := c];
    }

    /** add_resource; troposphere refuses a title that is already taken. */
    method AddResource(name: string, r: Resource)
      requires name !in resources
      modifies this
      ensures resources == old(resources)[name := r]
      ensures description == old(description) && parameters == old(parameters) && conditions == old(conditions) && outputs == old(outputs)
    {
      resources := resources[name := r];
    }

    /** add_output; troposphere refuses a title that is already taken. */
    method AddOutput(name: string, value: Expr)
      requires name !in outputs
      modifies this
      ensures outputs == old(outputs)[name := value]
      ensures description == old(description) && parameters == old(parameters) && conditions == old(conditions) && resources == old(resources)
    {
      outputs := outputs[name := value];
    }
  }

  /** Adding a resource whose condition and dependencies are already declared
      keeps a template closed. */
  lemma AddResourceClosed(t: TemplateValue, name: string, r: Resource)
    requires Closed(t) && ResourceClosed(t, r)
    ensures Closed(t.(resources := t.resources[name := r]))
  {
    var t' := t.(resources := t.resources[name := r]);
    forall n | n in t'.resources
      ensures ResourceClosed(t', t'.resources[n])
    {
      var x := t'.resources[n];
      assert ResourceClosed(t, x);
      forall j | 0 <= j < |x.dependsOn|
        ensures x.dependsOn[j] in t'.resources
      {
        assert x.dependsOn[j] in t.resources;
      }
    }
  }

  /** Adding a condition, parameter or output never breaks closure. */
  lemma AddConditionClosed(t: TemplateValue, name: string, c: Expr)
    requires Closed(t)
    ensures Closed(t.(conditions := t.conditions[name := c]))
  {
    var t' := t.(conditions := t.conditions[name := c]);
    forall n | n in t'.resources
      ensures ResourceClosed(t', t'.resources[n])
    {
      assert ResourceClosed(t, t.resources[n]);
    }
  }
}
