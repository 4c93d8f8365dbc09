/**
 * The CloudFormation intrinsic functions that the templates are built from.
 *
 * troposphere does not evaluate `Join`, `Split`, `Select`, `If`, `Equals` or
 * `Not` while a template is generated: it builds a tree that CloudFormation
 * evaluates when the stack is deployed. `Expr` is that tree and `Eval` is
 * CloudFormation's reading of it. `Split` and `Join` on plain strings are the
 * string operations behind `Fn::Split` and `Fn::Join`.
 */
module Intrinsics {
  import opened Wrappers

  // ---------------------------------------------------------------------------
  // Fn::Split and Fn::Join on strings
  // ---------------------------------------------------------------------------

  /** Fn::Split: cut `s` at every occurrence of `delim`, scanning left to right
      without overlap. There is always at least one part. */
  function Split(delim: string, s: string): (parts: seq<string>)
    requires |delim| > 0
    ensures |parts| >= 1
    decreases |s|
  {
    if |s| == 0 then [""]
    else if delim <= s then [""] + Split(delim, s[|delim|..])
    else PrependFirst(s[..1], Split(delim, s[1..]))
  }

  /** Fn::Join: the parts with `sep` between neighbours. */
  function Join(sep: string, parts: seq<string>): string
    decreases |parts|
  {
    if |parts| == 0 then ""
    else if |parts| == 1 then parts[0]
    else parts[0] + sep + Join(sep, parts[1..])
  }

  /** `parts` with `w` put in front of its first part. */
  function PrependFirst(w: string, parts: seq<string>): (r: seq<string>)
    requires |parts| >= 1
    ensures |r| == |parts| && r[0] == w + parts[0] && r[1..] == parts[1..]
  {
    [w + parts[0]] + parts[1..]
  }

  /** Fn::Select: the element at `index`, or an error when it is out of range. */
  function Select(index: nat, parts: seq<string>): (r: Option<string>)
    ensures r.Some? <==> index < |parts|
    ensures r.Some? ==> r.value == parts[index]
  {
    if index < |parts| then Some(parts[index]) else None
  }

  /** Joining three parts puts the separator between each neighbouring pair. */
  lemma JoinThree(sep: string, x: string, y: string, z: string)
    ensures Join(sep, [x, y, z]) == x + sep + y + sep + z
  {
    var parts := [x, y, z];
    assert parts[1..] == [y, z] && parts[1..][1..] == [z];
    assert Join(sep, [y, z]) == y + sep + z;
    assert (x + sep) + (y + sep + z) == x + sep + y + sep + z;
  }

  /** No part of a split on a one-character delimiter contains it. */
  lemma {:induction false} SplitPartsLackDelim(d: char, s: string)
    ensures forall i :: 0 <= i < |Split([d], s)| ==> d !in Split([d], s)[i]
    decreases |s|
  {
    if |s| > 0 {
      SplitPartsLackDelim(d, s[1..]);
      if !([d] <= s) {
        var rest := Split([d], s[1..]);
        assert s[..1] == [s[0]] && s[0] != d;
        assert d !in s[..1] + rest[0];
      }
    }
  }

  /** Splitting then joining on the same delimiter gives back the string. */
  lemma {:induction false} JoinSplit(d: string, s: string)
    requires |d| > 0
    ensures Join(d, Split(d, s)) == s
    decreases |s|
  {
    if |s| == 0 {
    } else if d <= s {
      var rest := Split(d, s[|d|..]);
      JoinSplit(d, s[|d|..]);
      JoinEmptyHead(d, rest);
      assert s == d + s[|d|..];
    } else {
      JoinSplit(d, s[1..]);
      JoinPrependFirst(d, s[..1], Split(d, s[1..]));
      assert s == s[..1] + s[1..];
    }
  }

  /** Text that cannot start the delimiter passes into the first part unchanged. */
  lemma {:induction false} SplitSkip(d: string, w: string, y: string)
    requires |d| > 0 && d[0] !in w
    ensures Split(d, w + y) == PrependFirst(w, Split(d, y))
    decreases |w|
  {
    if |w| == 0 {
      assert w + y == y;
      var parts := Split(d, y);
      assert w + parts[0] == parts[0];
      assert PrependFirst(w, parts) == [parts[0]] + parts[1..] == parts;
    } else {
      var s := w + y;
      assert s[0] == w[0] && w[0] != d[0];
      assert !(d <= s);
      assert s[1..] == w[1..] + y;
      assert s[..1] == w[..1];
      SplitSkip(d, w[1..], y);
      var l := Split(d, y);
      assert Split(d, s) == PrependFirst(w[..1], PrependFirst(w[1..], l));
      assert w[..1] + (w[1..] + l[0]) == w + l[0];
    }
  }

  /** A delimiter at the front closes an empty first part. */
  lemma SplitAtDelim(d: string, y: string)
    requires |d| > 0
    ensures Split(d, d + y) == [""] + Split(d, y)
  {
    var s := d + y;
    assert d <= s;
    assert s[|d|..] == y;
  }

  lemma JoinEmptyHead(q: string, parts: seq<string>)
    requires |parts| >= 1
    ensures Join(q, [""] + parts) == q + Join(q, parts)
  {
    var l := [""] + parts;
    assert l[1..] == parts;
  }

  lemma {:induction false} JoinPrependFirst(q: string, w: string, parts: seq<string>)
    requires |parts| >= 1
    ensures Join(q, PrependFirst(w, parts)) == w + Join(q, parts)
  {
    var l := PrependFirst(w, parts);
    if |parts| > 1 {
      assert l[1..] == parts[1..];
    }
  }

  /** Joining parts that do not contain a one-character delimiter, then
      splitting on it, gives back the parts. */
  lemma {:induction false} SplitJoin(d: char, parts: seq<string>)
    requires |parts| >= 1
    requires forall i :: 0 <= i < |parts| ==> d !in parts[i]
    ensures Split([d], Join([d], parts)) == parts
    decreases |parts|
  {
    if |parts| == 1 {
      SplitSkip([d], parts[0], "");
      assert parts[0] + "" == parts[0];
    } else {
      var rest := Join([d], parts[1..]);
      assert Join([d], parts) == parts[0] + ([d] + rest);
      SplitSkip([d], parts[0], [d] + rest);
      SplitAtDelim([d], rest);
      SplitJoin(d, parts[1..]);
      var l := [""] + parts[1..];
      assert Split([d], Join([d], parts)) == PrependFirst(parts[0], l);
      assert parts[0] + l[0] == parts[0];
      assert PrependFirst(parts[0], l) == [parts[0]] + parts[1..] == parts;
    }
  }

  // ---------------------------------------------------------------------------
  // Intrinsic-function expressions
  // ---------------------------------------------------------------------------

  /** A property value of a template: a literal or an intrinsic function. */
  datatype Expr =
    | Str(s: string)
    | Num(n: int)
    | Ref(name: string)                                  // Ref: parameter, resource or pseudo parameter
    | FnGetAtt(logicalId: string, attribute: string)
    | FnJoin(sep: string, items: Expr)
    | FnSplit(delim: string, source: Expr)
    | FnSelect(index: nat, items: Expr)
    | FnIf(condition: string, whenTrue: Expr, whenFalse: Expr)
    | FnEquals(lhs: Expr, rhs: Expr)
    | FnNot(operand: Expr)
    | ListOf(elems: seq<Expr>)
    | Obj(fields: map<string, Expr>)

  datatype Val = VStr(s: string) | VNum(n: int) | VList(items: seq<string>) | VBool(b: bool)

  /** What CloudFormation knows when it evaluates a template: parameter,
      pseudo-parameter and physical-id values for Ref, resource attributes for
      Fn::GetAtt, and the value of each condition for Fn::If. */
  datatype Ctx = Ctx(
    refs: map<string, string>,
    attributes: map<(string, string), string>,
    conditions: map<string, bool>)

  /** CloudFormation's evaluation; None is a deployment-time error. */
  function Eval(ctx: Ctx, e: Expr): Option<Val>
    decreases e
  {
    match e
    case Str(s) => Some(VStr(s))
    case Num(n) => Some(VNum(n))
    case Ref(n) => if n in ctx.refs then Some(VStr(ctx.refs[n])) else None
    case FnGetAtt(r, a) =>
      if (r, a) in ctx.attributes then Some(VStr(ctx.attributes[(r, a)])) else None
    case FnJoin(sep, items) =>
      (match Eval(ctx, items)
       case Some(VList(parts)) => Some(VStr(Join(sep, parts)))
       case _ => None)
    case FnSplit(d, src) =>
      if |d| == 0 then None
      else
        (match Eval(ctx, src)
         case Some(VStr(s)) => Some(VList(Split(d, s)))
         case _ => None)
    case FnSelect(i, items) =>
      (match Eval(ctx, items)
       case Some(VList(parts)) =>
         (match Select(i, parts) case Some(p) => Some(VStr(p)) case None => None)
       case _ => None)
    case FnIf(c, a, b) =>
      if c !in ctx.conditions then None
      else if ctx.conditions[c] then Eval(ctx, a)
      else Eval(ctx, b)
    case FnEquals(a, b) =>
      (match (Eval(ctx, a), Eval(ctx, b))
       case (Some(x), Some(y)) => Some(VBool(x == y))
       case _ => None)
    case FnNot(c) =>
      (match Eval(ctx, c)
       case Some(VBool(b)) => Some(VBool(!b))
       case _ => None)
    case ListOf(es) =>
      (match EvalAll(ctx, es)
       case Some(ss) => Some(VList(ss))
       case None => None)
    case Obj(_) => None
  }

  /** The elements of a list literal; each must be a string. */
  function EvalAll(ctx: Ctx, es: seq<Expr>): Option<seq<string>>
    decreases es
  {
    if |es| == 0 then Some([])
    else
      match (Eval(ctx, es[0]), EvalAll(ctx, es[1..]))
      case (Some(VStr(s)), Some(rest)) => Some([s] + rest)
      case _ => None
  }

  /** The string an expression evaluates to, if it evaluates to one. */
  function EvalStr(ctx: Ctx, e: Expr): Option<string>
  {
    match Eval(ctx, e)
    case Some(VStr(s)) => Some(s)
    case _ => None
  }

  /** The truth value of a condition expression, if it has one. */
  function EvalBool(ctx: Ctx, e: Expr): Option<bool>
  {
    match Eval(ctx, e)
    case Some(VBool(b)) => Some(b)
    case _ => None
  }

  /** `Join(new, Split(old, x))`, the rewriting idiom of the templates,
      evaluates to the string-level rewrite of x. */
  lemma EvalRewrite(ctx: Ctx, x: Expr, pat: string, rep: string)
    requires |pat| > 0
    ensures EvalStr(ctx, FnJoin(rep, FnSplit(pat, x))) ==
            if EvalStr(ctx, x).Some? then Some(Join(rep, Split(pat, EvalStr(ctx, x).value))) else None
  {
    match Eval(ctx, x)
    case Some(VStr(v)) =>
      assert Eval(ctx, FnSplit(pat, x)) == Some(VList(Split(pat, v)));
    case _ =>
      assert Eval(ctx, FnSplit(pat, x)) == None;
  }

  /** A list literal of two string expressions. */
  lemma EvalPair(ctx: Ctx, a: Expr, b: Expr)
    ensures EvalAll(ctx, [a, b]) ==
            if EvalStr(ctx, a).Some? && EvalStr(ctx, b).Some?
            then Some([EvalStr(ctx, a).value, EvalStr(ctx, b).value]) else None
  {
    assert [a, b][1..] == [b];
    assert [b][1..] == [];
    assert EvalAll(ctx, []) == Some([]);
    if EvalStr(ctx, b).Some? {
      var t := EvalStr(ctx, b).value;
      assert Eval(ctx, b) == Some(VStr(t));
      assert EvalAll(ctx, [b]) == Some([t] + []);
      assert [t] + [] == [t];
      if EvalStr(ctx, a).Some? {
        var u := EvalStr(ctx, a).value;
        assert Eval(ctx, a) == Some(VStr(u));
        var es := [a, b];
        assert es[0] == a && es[1..] == [b];
        assert EvalAll(ctx, es[1..]) == Some([t]);
        assert EvalAll(ctx, es) == Some([u] + [t]);
        assert [u] + [t] == [u, t];
      }
    } else {
      assert EvalAll(ctx, [b]) == None;
    }
  }

  /** Join("", [a, suffix]), the templates' way of appending a literal. */
  lemma EvalAppend(ctx: Ctx, a: Expr, suffix: string)
    ensures EvalStr(ctx, FnJoin("", ListOf([a, Str(suffix)]))) ==
            if EvalStr(ctx, a).Some? then Some(EvalStr(ctx, a).value + suffix) else None
  {
    EvalPair(ctx, a, Str(suffix));
    if EvalStr(ctx, a).Some? {
      var v := EvalStr(ctx, a).value;
      var parts := [v, suffix];
      assert parts[1..] == [suffix];
      assert Join("", parts) == v + "" + suffix;
      assert v + "" + suffix == v + suffix;
      assert EvalAll(ctx, [a, Str(suffix)]) == Some(parts);
      assert Eval(ctx, FnJoin("", ListOf([a, Str(suffix)]))) == Some(VStr(Join("", parts)));
    } else {
      assert Eval(ctx, ListOf([a, Str(suffix)])) == None;
    }
  }

  /** Fn::Not evaluates to the negation of its operand, so a condition and its
      negation never hold together and, when defined, one of them holds. */
  lemma {:induction false} EvalNot(ctx: Ctx, c: Expr)
    ensures EvalBool(ctx, FnNot(c)).Some? <==> EvalBool(ctx, c).Some?
    ensures EvalBool(ctx, c).Some? ==> EvalBool(ctx, FnNot(c)).value == !EvalBool(ctx, c).value
  {
  }
}
