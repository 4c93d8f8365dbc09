/**
 * The deployment counter's string encoding and what its rewrites do.
 *
 * A counter is a string of tokens "[n]" (n written in decimal), read as the
 * sum of the n. It starts as "[0]". Adding one appends "[1]" and then
 * normalises through Split/Join rewrites: first "[0][1]" becomes "[1]", then
 * for i = 0 .. 31 every "[2^i][2^i]" becomes "[2^(i+1)]". Because '[' only
 * ever starts a token, a rewrite of the string is a rewrite of its token list,
 * which is where the proofs are done.
 */
module CounterEncoding {
  import opened Wrappers
  import opened Intrinsics

  // ---------------------------------------------------------------------------
  // Powers of two
  // ---------------------------------------------------------------------------

  function Pow2(i: nat): (r: nat)
    ensures r >= 1
  {
    if i == 0 then 1 else 2 * Pow2(i - 1)
  }

  predicate IsPow2(x: nat)
    decreases x
  {
    x == 1 || (x >= 2 && x % 2 == 0 && IsPow2(x / 2))
  }

  lemma {:induction false} Pow2IsPow2(i: nat)
    ensures IsPow2(Pow2(i))
  {
    if i > 0 {
      Pow2IsPow2(i - 1);
      assert Pow2(i) / 2 == Pow2(i - 1);
    }
  }

  /** Two different powers of two are at least a factor two apart. */
  lemma {:induction false} PowGap(a: nat, b: nat)
    requires IsPow2(a) && IsPow2(b) && a < b
    ensures 2 * a <= b
    decreases b
  {
    if a != 1 {
      PowGap(a / 2, b / 2);
    }
  }

  // ---------------------------------------------------------------------------
  // Tokens
  // ---------------------------------------------------------------------------

  function DigitChar(d: nat): (c: char)
    requires d < 10
    ensures '0' <= c <= '9'
  {
    (48 + d) as char
  }

  /** The decimal numeral of n, as Python's str(n) writes it. */
  function Decimal(n: nat): (r: string)
    ensures |r| >= 1
    ensures n >= 10 ==> |r| >= 2
    ensures forall i :: 0 <= i < |r| ==> '0' <= r[i] <= '9'
    decreases n
  {
    if n < 10 then [DigitChar(n)] else Decimal(n / 10) + [DigitChar(n % 10)]
  }

  /** Different numbers have different numerals. */
  lemma {:induction false} DecimalInjective(a: nat, b: nat)
    requires Decimal(a) == Decimal(b)
    ensures a == b
    decreases a
  {
    if a >= 10 && b >= 10 {
      var da, db := Decimal(a), Decimal(b);
      assert da[|da| - 1] == DigitChar(a % 10) && db[|db| - 1] == DigitChar(b % 10);
      assert da[..|da| - 1] == Decimal(a / 10) && db[..|db| - 1] == Decimal(b / 10);
      DecimalInjective(a / 10, b / 10);
    }
  }

  /** The token "[n]". */
  function Token(n: nat): string
  {
    "[" + Decimal(n) + "]"
  }

  /** A token at the front of a string determines its number. */
  lemma TokenPrefix(a: nat, b: nat, y: string)
    requires Token(a) <= Token(b) + y
    ensures a == b
  {
    var da, db := Decimal(a), Decimal(b);
    var s := Token(b) + y;
    var la, lb := |da|, |db|;
    assert Token(a)[la + 1] == ']';
    assert s[lb + 1] == ']';
    assert la == lb;
    forall i | 0 <= i < la
      ensures da[i] == db[i]
    {
      assert Token(a)[i + 1] == da[i] && s[i + 1] == db[i];
    }
    assert da == db;
    DecimalInjective(a, b);
  }

  /** The counter string of a token list. */
  function Render(ts: seq<nat>): string
    decreases |ts|
  {
    if |ts| == 0 then "" else Token(ts[0]) + Render(ts[1..])
  }

  lemma {:induction false} RenderConcat(a: seq<nat>, b: seq<nat>)
    ensures Render(a + b) == Render(a) + Render(b)
    decreases |a|
  {
    if |a| > 0 {
      assert (a + b)[1..] == a[1..] + b;
      RenderConcat(a[1..], b);
    } else {
      assert a + b == b;
    }
  }

  lemma RenderOne(n: nat)
    ensures Render([n]) == Token(n)
  {
    assert [n][1..] == [];
  }

  lemma RenderTwo(m: nat, n: nat)
    ensures Render([m, n]) == Token(m) + Token(n)
  {
    assert [m, n][1..] == [n];
    RenderOne(n);
  }

  /** The literals the source writes are renderings of token lists. */
  lemma Literals()
    ensures Render([0]) == "[0]" && Render([1]) == "[1]" && Render([2]) == "[2]"
    ensures Render([4]) == "[4]" && Render([2, 1]) == "[2][1]" && Render([0, 1]) == "[0][1]"
  {
    RenderOne(0); RenderOne(1); RenderOne(2); RenderOne(4);
    RenderTwo(2, 1); RenderTwo(0, 1);
  }

  /** A rendered string starts with '[' and its tail up to the next token holds none. */
  lemma {:induction false} RenderShape(ts: seq<nat>)
    requires |ts| > 0
    ensures Render(ts) == "[" + (Decimal(ts[0]) + "]") + Render(ts[1..])
    ensures '[' !in Decimal(ts[0]) + "]"
  {
    var d := Decimal(ts[0]);
    var w := d + "]";
    assert Render(ts) == Token(ts[0]) + Render(ts[1..]);
    assert Token(ts[0]) == "[" + d + "]";
    forall i | 0 <= i < |w| ensures w[i] != '[' {
      if i < |d| {
        assert w[i] == d[i];
        assert '0' <= d[i] <= '9';
      } else {
        assert w[i] == ']';
      }
    }
  }

  /** Where a rendered token list starts a rendered pattern, the token list
      starts with the pattern. */
  lemma {:induction false} RenderPrefix(p: seq<nat>, ts: seq<nat>)
    requires |p| > 0 && Render(p) <= Render(ts)
    ensures p <= ts
    decreases |p|
  {
    assert |Render(ts)| > 0;
    assert |ts| > 0;
    var t := Token(ts[0]);
    assert Token(p[0]) <= Render(ts);
    TokenPrefix(p[0], ts[0], Render(ts[1..]));
    if |p| > 1 {
      assert Render(p)[|t|..] == Render(p[1..]);
      assert Render(ts)[|t|..] == Render(ts[1..]);
      assert Render(p[1..]) <= Render(ts[1..]);
      RenderPrefix(p[1..], ts[1..]);
      assert p == [p[0]] + p[1..];
    }
  }

  // ---------------------------------------------------------------------------
  // Token values and token rewrites
  // ---------------------------------------------------------------------------

  /** The number a token list stands for. */
  function Sum(ts: seq<nat>): nat
    decreases |ts|
  {
    if |ts| == 0 then 0 else ts[0] + Sum(ts[1..])
  }

  lemma {:induction false} SumConcat(a: seq<nat>, b: seq<nat>)
    ensures Sum(a + b) == Sum(a) + Sum(b)
    decreases |a|
  {
    if |a| > 0 {
      assert (a + b)[1..] == a[1..] + b;
      SumConcat(a[1..], b);
    } else {
      assert a + b == b;
    }
  }

  /** Replace every occurrence of pattern `p` by `q`, scanning left to right. */
  function ReplaceTokens(p: seq<nat>, q: seq<nat>, ts: seq<nat>): seq<nat>
    requires |p| > 0
    decreases |ts|
  {
    if |ts| == 0 then []
    else if p <= ts then q + ReplaceTokens(p, q, ts[|p|..])
    else [ts[0]] + ReplaceTokens(p, q, ts[1..])
  }

  /** A rewrite whose two sides have the same value keeps the total. */
  lemma {:induction false} ReplaceTokensSum(p: seq<nat>, q: seq<nat>, ts: seq<nat>)
    requires |p| > 0 && Sum(p) == Sum(q)
    ensures Sum(ReplaceTokens(p, q, ts)) == Sum(ts)
    decreases |ts|
  {
    if |ts| == 0 {
    } else if p <= ts {
      ReplaceTokensSum(p, q, ts[|p|..]);
      SumConcat(q, ReplaceTokens(p, q, ts[|p|..]));
      assert ts == p + ts[|p|..];
      SumConcat(p, ts[|p|..]);
    } else {
      ReplaceTokensSum(p, q, ts[1..]);
      SumConcat([ts[0]], ReplaceTokens(p, q, ts[1..]));
      assert ts == [ts[0]] + ts[1..];
      SumConcat([ts[0]], ts[1..]);
    }
  }

  /** Tokens that cannot start the pattern are copied unchanged. */
  lemma {:induction false} ReplaceSkip(p: seq<nat>, q: seq<nat>, a: seq<nat>, b: seq<nat>)
    requires |p| > 0
    requires forall j :: 0 <= j < |a| ==> a[j] != p[0]
    ensures ReplaceTokens(p, q, a + b) == a + ReplaceTokens(p, q, b)
    decreases |a|
  {
    if |a| == 0 {
      assert a + b == b;
    } else {
      assert (a + b)[0] == a[0] && (a + b)[1..] == a[1..] + b;
      ReplaceSkip(p, q, a[1..], b);
      assert a == [a[0]] + a[1..];
    }
  }

  // ---------------------------------------------------------------------------
  // String rewrites are token rewrites
  // ---------------------------------------------------------------------------

  /** `Join(rep, Split(pat, s))`: every occurrence of pat replaced by rep. */
  function Rewrite(s: string, pat: string, rep: string): string
    requires |pat| > 0
  {
    Join(rep, Split(pat, s))
  }

  lemma PrependFirstTwice(a: string, b: string, parts: seq<string>)
    requires |parts| >= 1
    ensures PrependFirst(a, PrependFirst(b, parts)) == PrependFirst(a + b, parts)
  {
    assert a + (b + parts[0]) == (a + b) + parts[0];
  }

  /** Splitting at a token that does not start the delimiter moves the whole
      token into the first part. */
  lemma {:induction false} SplitAfterToken(d: string, t: nat, rest: string)
    requires |d| > 0 && d[0] == '[' && !(d <= Token(t) + rest)
    ensures Split(d, Token(t) + rest) == PrependFirst(Token(t), Split(d, rest))
  {
    var w := Decimal(t) + "]";
    var s := "[" + (w + rest);
    assert Token(t) + rest == s;
    assert |s| > 0 && s[..1] == "[" && s[1..] == w + rest;
    assert Split(d, s) == PrependFirst("[", Split(d, w + rest));
    RenderShape([t]);
    SplitSkip(d, w, rest);
    PrependFirstTwice("[", w, Split(d, rest));
    assert "[" + w == Token(t);
  }

  /** Rewriting the rendering of `ts` renders the token-level rewrite. */
  lemma {:induction false} RewriteRendered(p: seq<nat>, q: seq<nat>, ts: seq<nat>)
    requires |p| > 0
    ensures |Render(p)| > 0
    ensures Rewrite(Render(ts), Render(p), Render(q)) == Render(ReplaceTokens(p, q, ts))
    decreases |ts|
  {
    var d, r := Render(p), Render(q);
    RenderShape(p);
    if |ts| == 0 {
    } else if p <= ts {
      var rest := ts[|p|..];
      assert ts == p + rest;
      RenderConcat(p, rest);
      SplitAtDelim(d, Render(rest));
      JoinEmptyHead(r, Split(d, Render(rest)));
      RewriteRendered(p, q, rest);
      RenderConcat(q, ReplaceTokens(p, q, rest));
    } else {
      if d <= Render(ts) {
        RenderPrefix(p, ts);
      }
      var tail := Render(ts[1..]);
      assert Render(ts) == Token(ts[0]) + tail;
      SplitAfterToken(d, ts[0], tail);
      JoinPrependFirst(r, Token(ts[0]), Split(d, tail));
      RewriteRendered(p, q, ts[1..]);
      RenderConcat([ts[0]], ReplaceTokens(p, q, ts[1..]));
      RenderOne(ts[0]);
    }
  }

  /** A token list without token `n`, followed by any text: splitting on "[n]"
      keeps the whole rendering in the first part. */
  lemma {:induction false} SplitMissingToken(n: nat, ts: seq<nat>, y: string)
    requires forall j :: 0 <= j < |ts| ==> ts[j] != n
    ensures Split(Token(n), Render(ts) + y) == PrependFirst(Render(ts), Split(Token(n), y))
    decreases |ts|
  {
    var d := Token(n);
    if |ts| == 0 {
      assert Render(ts) + y == y;
      var l := Split(d, y);
      assert Render(ts) + l[0] == l[0];
      assert PrependFirst(Render(ts), l) == l;
    } else {
      var tail := Render(ts[1..]) + y;
      assert Render(ts) + y == Token(ts[0]) + tail;
      if d <= Token(ts[0]) + tail {
        TokenPrefix(n, ts[0], tail);
      }
      SplitAfterToken(d, ts[0], tail);
      SplitMissingToken(n, ts[1..], y);
      PrependFirstTwice(Token(ts[0]), Render(ts[1..]), Split(d, y));
    }
  }

  // ---------------------------------------------------------------------------
  // simplify_value and increment_value, on strings and on tokens
  // ---------------------------------------------------------------------------

  /** Number of doubling passes: counters up to 2^32 tokens are merged. */
  const Passes: nat := 32

  /** 2^33: a counter whose value reaches it would need a token beyond the
      last pass. */
  const Bound: nat := 0x2_0000_0000

  lemma {:induction false} Pow2Add(a: nat, b: nat)
    ensures Pow2(a + b) == Pow2(a) * Pow2(b)
    decreases a
  {
    if a > 0 {
      Pow2Add(a - 1, b);
    }
  }

  lemma BoundIsPow2()
    ensures Bound == 2 * Pow2(Passes)
  {
    assert Pow2(8) == 256;
    Pow2Add(8, 8);
    Pow2Add(16, 16);
  }

  /** The first rewrite: "[0][1]" becomes "[1]". */
  function ZeroPass(s: string): string
  {
    Rewrite(s, "[0][1]", "[1]")
  }

  /** "[2^i][2^i]", the pattern of doubling pass i. */
  function DoublingPattern(i: nat): (pat: string)
    ensures |pat| > 0
  {
    Token(Pow2(i)) + Token(Pow2(i))
  }

  /** Doubling pass i: "[2^i][2^i]" becomes "[2^(i+1)]". */
  function DoublingPass(i: nat, s: string): string
  {
    Rewrite(s, DoublingPattern(i), Token(Pow2(i + 1)))
  }

  /** The doubling passes i, i+1, .., Passes-1, in that order. */
  function PassesFrom(s: string, i: nat): string
    requires i <= Passes
    decreases Passes - i
  {
    if i == Passes then s else PassesFrom(DoublingPass(i, s), i + 1)
  }

  /** The value simplify_value's expression evaluates to. */
  function Simplify(s: string): string
  {
    PassesFrom(ZeroPass(s), 0)
  }

  /** The value increment_value's expression evaluates to. */
  function Increment(s: string): string
  {
    Simplify(s + "[1]")
  }

  function TokDoublingPass(i: nat, ts: seq<nat>): seq<nat>
  {
    ReplaceTokens([Pow2(i), Pow2(i)], [Pow2(i + 1)], ts)
  }

  function TokPassesFrom(ts: seq<nat>, i: nat): seq<nat>
    requires i <= Passes
    decreases Passes - i
  {
    if i == Passes then ts else TokPassesFrom(TokDoublingPass(i, ts), i + 1)
  }

  /** Token-level increment: append 1, rewrite [0,1] to [1], then the doubling passes. */
  function TokIncrement(ts: seq<nat>): seq<nat>
  {
    TokPassesFrom(ReplaceTokens([0, 1], [1], ts + [1]), 0)
  }

  lemma {:induction false} PassesFromRendered(ts: seq<nat>, i: nat)
    requires i <= Passes
    ensures PassesFrom(Render(ts), i) == Render(TokPassesFrom(ts, i))
    decreases Passes - i
  {
    if i < Passes {
      var lo := Pow2(i);
      RenderTwo(lo, lo);
      RenderOne(Pow2(i + 1));
      RewriteRendered([lo, lo], [Pow2(i + 1)], ts);
      PassesFromRendered(TokDoublingPass(i, ts), i + 1);
    }
  }

  /** increment_value on a rendered counter renders the token-level increment. */
  lemma IncrementRendered(ts: seq<nat>)
    ensures Increment(Render(ts)) == Render(TokIncrement(ts))
  {
    Literals();
    RenderConcat(ts, [1]);
    RewriteRendered([0, 1], [1], ts + [1]);
    PassesFromRendered(ReplaceTokens([0, 1], [1], ts + [1]), 0);
  }

  lemma {:induction false} TokPassesFromSum(ts: seq<nat>, i: nat)
    requires i <= Passes
    ensures Sum(TokPassesFrom(ts, i)) == Sum(ts)
    decreases Passes - i
  {
    if i < Passes {
      var lo := Pow2(i);
      assert [lo, lo][1..] == [lo] && [lo][1..] == [] && [Pow2(i + 1)][1..] == [];
      assert Sum([lo]) == lo + Sum([]);
      assert Sum([lo, lo]) == lo + Sum([lo]);
      assert Sum([Pow2(i + 1)]) == Pow2(i + 1) + Sum([]);
      ReplaceTokensSum([lo, lo], [Pow2(i + 1)], ts);
      TokPassesFromSum(TokDoublingPass(i, ts), i + 1);
    }
  }

  /** increment_value adds exactly one to the value of any counter string,
      canonical or not, and every rewrite keeps the value. */
  lemma IncrementAddsOne(ts: seq<nat>)
    ensures Increment(Render(ts)) == Render(TokIncrement(ts))
    ensures Sum(TokIncrement(ts)) == Sum(ts) + 1
  {
    IncrementRendered(ts);
    assert Sum([0, 1]) == 1 == Sum([1]);
    ReplaceTokensSum([0, 1], [1], ts + [1]);
    SumConcat(ts, [1]);
    TokPassesFromSum(ReplaceTokens([0, 1], [1], ts + [1]), 0);
  }

  // ---------------------------------------------------------------------------
  // Canonical counters
  // ---------------------------------------------------------------------------

  predicate Descending(ts: seq<nat>)
  {
    forall j :: 0 <= j < |ts| - 1 ==> ts[j] > ts[j + 1]
  }

  predicate Powers(ts: seq<nat>)
  {
    forall j :: 0 <= j < |ts| ==> IsPow2(ts[j])
  }

  /** The seed "[0]", or strictly decreasing distinct powers of two: the
      binary digits of the value, highest first. */
  predicate Canonical(ts: seq<nat>)
  {
    ts == [0] || (|ts| > 0 && Descending(ts) && Powers(ts))
  }

  lemma {:induction false} DescendingOrder(ts: seq<nat>, j: nat, k: nat)
    requires Descending(ts) && j < k < |ts|
    ensures ts[j] > ts[k]
    decreases k - j
  {
    if j + 1 < k {
      DescendingOrder(ts, j + 1, k);
    }
  }

  /** A doubling pattern never matches a strictly decreasing list. */
  lemma {:induction false} NoPairInDescending(lo: nat, hi: nat, ts: seq<nat>)
    requires Descending(ts)
    ensures ReplaceTokens([lo, lo], [hi], ts) == ts
    decreases |ts|
  {
    if |ts| > 0 {
      if |ts| >= 2 {
        assert ts[0] > ts[1];
      }
      assert !([lo, lo] <= ts);
      NoPairInDescending(lo, hi, ts[1..]);
      assert ts == [ts[0]] + ts[1..];
    }
  }

  lemma {:induction false} DescendingPassesFrom(ts: seq<nat>, i: nat)
    requires i <= Passes && Descending(ts)
    ensures TokPassesFrom(ts, i) == ts
    decreases Passes - i
  {
    if i < Passes {
      NoPairInDescending(Pow2(i), Pow2(i + 1), ts);
      DescendingPassesFrom(ts, i + 1);
    }
  }

  /** In H followed by a pair [c, c], with c not in H, the doubling merges the pair. */
  lemma MergePair(h: seq<nat>, c: nat, hi: nat)
    requires forall j :: 0 <= j < |h| ==> h[j] != c
    ensures ReplaceTokens([c, c], [hi], h + [c, c]) == h + [hi]
  {
    ReplaceSkip([c, c], [hi], h, [c, c]);
    assert [c, c][2..] == [];
    assert ReplaceTokens([c, c], [hi], [c, c]) == [hi] + ReplaceTokens([c, c], [hi], []);
  }

  lemma AppendSmaller(h: seq<nat>, c: nat)
    requires Descending(h) && Powers(h) && IsPow2(c)
    requires |h| > 0 ==> h[|h| - 1] > c
    ensures Descending(h + [c]) && Powers(h + [c])
  {
    var g := h + [c];
    forall j | 0 <= j < |g| - 1
      ensures g[j] > g[j + 1]
    {
      if j == |h| - 1 {
        assert g[j] == h[j] && g[j + 1] == c;
      } else {
        assert g[j] == h[j] && g[j + 1] == h[j + 1];
      }
    }
    forall j | 0 <= j < |g|
      ensures IsPow2(g[j])
    {
      if j < |h| {
        assert g[j] == h[j];
      }
    }
  }

  /** Every token before the last of a strictly decreasing list of powers of
      two is at least twice the last. */
  lemma AboveLast(h: seq<nat>)
    requires |h| > 0 && Descending(h) && Powers(h)
    ensures forall j :: 0 <= j < |h| - 1 ==> h[j] != h[|h| - 1] && h[j] >= 2 * h[|h| - 1]
  {
    var last := |h| - 1;
    forall j | 0 <= j < last
      ensures h[j] != h[last] && h[j] >= 2 * h[last]
    {
      DescendingOrder(h, j, last);
      assert IsPow2(h[j]) && IsPow2(h[last]);
      PowGap(h[last], h[j]);
    }
  }

  /** The carry: before pass i the list is H followed by 2^i, every token of H
      at least 2^i. The remaining passes finish the carry chain in one sweep. */
  lemma {:induction false} CarryFrom(h: seq<nat>, i: nat)
    requires i <= Passes
    requires Descending(h) && Powers(h)
    requires forall j :: 0 <= j < |h| ==> h[j] >= Pow2(i)
    requires Sum(h) + Pow2(i) < Bound
    ensures Descending(TokPassesFrom(h + [Pow2(i)], i))
    ensures Powers(TokPassesFrom(h + [Pow2(i)], i))
    ensures |TokPassesFrom(h + [Pow2(i)], i)| > 0
    ensures Sum(TokPassesFrom(h + [Pow2(i)], i)) == Sum(h) + Pow2(i)
    decreases Passes - i, 1
  {
    var c := Pow2(i);
    if |h| > 0 && h[|h| - 1] == c {
      CarryMerge(h, i);
    } else {
      Pow2IsPow2(i);
      SumConcat(h, [c]);
      assert Sum([c]) == c + Sum([]);
      if |h| > 0 {
        assert h[|h| - 1] >= c;
      }
      AppendSmaller(h, c);
      DescendingPassesFrom(h + [c], i);
    }
  }

  /** The carry step: H ends in 2^i too, so pass i merges the two into
      2^(i+1) and the carry moves on to pass i + 1. */
  lemma {:induction false} CarryMerge(h: seq<nat>, i: nat)
    requires i <= Passes
    requires Descending(h) && Powers(h)
    requires forall j :: 0 <= j < |h| ==> h[j] >= Pow2(i)
    requires Sum(h) + Pow2(i) < Bound
    requires |h| > 0 && h[|h| - 1] == Pow2(i)
    ensures Descending(TokPassesFrom(h + [Pow2(i)], i))
    ensures Powers(TokPassesFrom(h + [Pow2(i)], i))
    ensures |TokPassesFrom(h + [Pow2(i)], i)| > 0
    ensures Sum(TokPassesFrom(h + [Pow2(i)], i)) == Sum(h) + Pow2(i)
    decreases Passes - i, 0
  {
    var c := Pow2(i);
    var last := |h| - 1;
    var h' := h[..last];
    assert h == h' + [c];
    SumConcat(h', [c]);
    assert Sum([c]) == c + Sum([]);
    if i == Passes {
      // two tokens of 2^32 would mean a value of at least 2^33
      BoundIsPow2();
    }
    var hi := Pow2(i + 1);
    AboveLast(h);
    assert forall j :: 0 <= j < |h'| ==> h'[j] == h[j];
    assert h + [c] == h' + [c, c];
    MergePair(h', c, hi);
    assert TokPassesFrom(h + [c], i) == TokPassesFrom(h' + [hi], i + 1);
    SumConcat(h, [c]);
    CarryFrom(h', i + 1);
  }

  /** The seed: "[0]" increments to "[1]". */
  lemma IncrementSeed()
    ensures TokIncrement([0]) == [1]
  {
    var one: seq<nat> := [1];
    assert [0] + one == [0, 1];
    assert [0, 1][2..] == [];
    assert ReplaceTokens([0, 1], one, [0, 1]) == one + [];
    DescendingPassesFrom(one, 0);
  }

  /** A binary counter: the appended 1 cannot meet a 0, then the carry runs. */
  lemma IncrementBinary(ts: seq<nat>)
    requires |ts| > 0 && Descending(ts) && Powers(ts)
    requires Sum(ts) + 1 < Bound
    ensures Descending(TokIncrement(ts)) && Powers(TokIncrement(ts)) && |TokIncrement(ts)| > 0
  {
    forall j | 0 <= j < |ts|
      ensures ts[j] != 0 && ts[j] >= Pow2(0)
    {
      assert IsPow2(ts[j]);
    }
    var one: seq<nat> := [1];
    ReplaceSkip([0, 1], one, ts, one);
    assert !([0, 1] <= one) && one[1..] == [];
    assert ReplaceTokens([0, 1], one, one) == one + [];
    assert one == [Pow2(0)];
    var merged := ReplaceTokens([0, 1], one, ts + one);
    assert merged == ts + [Pow2(0)];
    assert TokIncrement(ts) == TokPassesFrom(merged, 0);
    CarryFrom(ts, 0);
  }

  /** From a canonical counter below 2^33 - 1, increment_value yields a
      canonical counter whose value is one more. */
  lemma IncrementCanonical(ts: seq<nat>)
    requires Canonical(ts) && Sum(ts) + 1 < Bound
    ensures Canonical(TokIncrement(ts))
    ensures Sum(TokIncrement(ts)) == Sum(ts) + 1
  {
    IncrementAddsOne(ts);
    if ts == [0] {
      IncrementSeed();
      assert IsPow2(1);
    } else {
      IncrementBinary(ts);
    }
  }

  /** In a strictly decreasing list of powers of two the head outweighs the rest. */
  lemma {:induction false} SumBelowHead(ts: seq<nat>)
    requires |ts| > 0 && Descending(ts) && Powers(ts)
    ensures Sum(ts[1..]) < ts[0]
    decreases |ts|
  {
    assert IsPow2(ts[0]);
    if |ts| > 1 {
      var t := ts[1..];
      assert Descending(t) && Powers(t) by {
        forall j | 0 <= j < |t| ensures IsPow2(t[j]) { assert t[j] == ts[j + 1]; }
      }
      SumBelowHead(t);
      assert t[1..] == ts[2..];
      PowGap(ts[1], ts[0]);
    }
  }

  lemma {:induction false} BinaryUnique(a: seq<nat>, b: seq<nat>)
    requires Descending(a) && Powers(a) && Descending(b) && Powers(b)
    requires Sum(a) == Sum(b)
    ensures a == b
    decreases |a|
  {
    if |a| > 0 {
      assert IsPow2(a[0]);
    }
    if |b| > 0 {
      assert IsPow2(b[0]);
    }
    if |a| > 0 && |b| > 0 {
      SumBelowHead(a);
      SumBelowHead(b);
      if a[0] < b[0] {
        PowGap(a[0], b[0]);
        assert false;
      } else if b[0] < a[0] {
        PowGap(b[0], a[0]);
        assert false;
      }
      var a', b' := a[1..], b[1..];
      assert Powers(a') by { forall j | 0 <= j < |a'| ensures IsPow2(a'[j]) { assert a'[j] == a[j + 1]; } }
      assert Powers(b') by { forall j | 0 <= j < |b'| ensures IsPow2(b'[j]) { assert b'[j] == b[j + 1]; } }
      BinaryUnique(a', b');
      assert a == [a[0]] + a' && b == [b[0]] + b';
    }
  }

  /** A value has one canonical counter, so "canonical with value n" names it. */
  lemma CanonicalUnique(a: seq<nat>, b: seq<nat>)
    requires Canonical(a) && Canonical(b) && Sum(a) == Sum(b)
    ensures a == b
  {
    if a != [0] {
      assert IsPow2(a[0]);
    }
    if b != [0] {
      assert IsPow2(b[0]);
    }
    if a != [0] && b != [0] {
      BinaryUnique(a, b);
    }
  }

  /** The increments the deployment sequence starts with. */
  lemma FirstIncrements()
    ensures Increment("[0]") == "[1]"
    ensures Increment("[1]") == "[2]"
    ensures Increment("[2][1]") == "[4]"
  {
    Literals();
    assert IsPow2(1) && IsPow2(2) && IsPow2(4);
    assert Canonical([0]) && Canonical([1]) && Canonical([2]) && Canonical([4]);
    assert Canonical([2, 1]);
    IncrementCanonical([0]);
    CanonicalUnique(TokIncrement([0]), [1]);
    IncrementRendered([0]);
    IncrementCanonical([1]);
    CanonicalUnique(TokIncrement([1]), [2]);
    IncrementRendered([1]);
    IncrementCanonical([2, 1]);
    CanonicalUnique(TokIncrement([2, 1]), [4]);
    IncrementRendered([2, 1]);
  }

  /** k increments of the seed: from "[0]" the counter takes the values
      0, 1, 2, ... in canonical form. */
  function Iterate(s: string, k: nat): string
  {
    if k == 0 then s else Increment(Iterate(s, k - 1))
  }

  function TokIterate(ts: seq<nat>, k: nat): seq<nat>
  {
    if k == 0 then ts else TokIncrement(TokIterate(ts, k - 1))
  }

  /** k increments of a canonical counter keep it canonical, add k to its
      value, and on strings follow the token-level increments. */
  lemma {:induction false} CounterFrom(ts: seq<nat>, k: nat)
    requires Canonical(ts) && Sum(ts) + k < Bound
    ensures Canonical(TokIterate(ts, k)) && Sum(TokIterate(ts, k)) == Sum(ts) + k
    ensures Iterate(Render(ts), k) == Render(TokIterate(ts, k))
  {
    if k > 0 {
      var prev := TokIterate(ts, k - 1);
      CounterFrom(ts, k - 1);
      IterateStep(ts, k);
      assert Sum(prev) + 1 < Bound;
      IncrementCanonical(prev);
      IncrementRendered(prev);
    }
  }

  /** One more iteration is one more increment, on strings and on tokens. */
  lemma IterateStep(ts: seq<nat>, k: nat)
    requires k > 0
    ensures TokIterate(ts, k) == TokIncrement(TokIterate(ts, k - 1))
    ensures Iterate(Render(ts), k) == Increment(Iterate(Render(ts), k - 1))
  {
  }

  /** Deployment k, counted from the seed "[0]", holds the canonical counter of k. */
  lemma CounterFromSeed(k: nat)
    requires k < Bound
    ensures Canonical(TokIterate([0], k)) && Sum(TokIterate([0], k)) == k
    ensures Iterate("[0]", k) == Render(TokIterate([0], k))
  {
    var seed: seq<nat> := [0];
    Literals();
    assert Sum(seed) == 0 + Sum([]);
    CounterFrom(seed, k);
  }

  // ---------------------------------------------------------------------------
  // Parity
  // ---------------------------------------------------------------------------

  /** The value of determine_parity's expression: the part after the first
      "[1]" of s + "ODD[1]EVEN". */
  function Parity(s: string): Option<string>
  {
    Select(1, Split("[1]", s + "ODD[1]EVEN"))
  }

  /** A string followed by the delimiter always splits into two or more parts. */
  lemma {:induction false} SplitAtLeastTwo(d: string, s: string, y: string)
    requires |d| > 0
    ensures |Split(d, s + d + y)| >= 2
    decreases |s|
  {
    var t := s + d + y;
    if |s| == 0 {
      assert t == d + y;
      SplitAtDelim(d, y);
    } else if !(d <= t) {
      assert t[1..] == s[1..] + d + y;
      SplitAtLeastTwo(d, s[1..], y);
    }
  }

  /** determine_parity never selects out of range, whatever the string. */
  lemma ParityDefined(s: string)
    ensures Parity(s).Some?
  {
    SplitAtLeastTwo("[1]", s + "ODD", "EVEN");
    assert s + "ODD[1]EVEN" == s + "ODD" + "[1]" + "EVEN";
  }

  /** A word without the delimiter's first character is one part. */
  lemma SplitWord(d: string, v: string)
    requires |d| > 0 && d[0] !in v
    ensures Split(d, v) == [v]
  {
    SplitSkip(d, v, "");
    assert v + "" == v;
    assert Split(d, "") == [""];
  }

  /** Two words around one delimiter split into those two words. */
  lemma SplitTwoWords(d: string, u: string, v: string)
    requires |d| > 0 && d[0] !in u && d[0] !in v
    ensures Split(d, u + d + v) == [u, v]
  {
    var dv := d + v;
    assert u + d + v == u + dv;
    SplitSkip(d, u, dv);
    SplitAtDelim(d, v);
    SplitWord(d, v);
    var l := [""] + [v];
    assert Split(d, dv) == l;
    assert PrependFirst(u, l) == [u + ""] + [v];
    assert u + "" == u;
  }

  /** Without a "[1]" token the counter stays in the first part. */
  lemma {:induction false} SplitEven(ts: seq<nat>, u: string, v: string)
    requires forall j :: 0 <= j < |ts| ==> ts[j] != 1
    requires '[' !in u && '[' !in v
    ensures Split(Token(1), Render(ts) + (u + Token(1) + v)) == [Render(ts) + u, v]
  {
    var d := Token(1);
    SplitMissingToken(1, ts, u + d + v);
    SplitTwoWords(d, u, v);
  }


  /** A counter ending in the token "[1]" is cut just before it. */
  lemma {:induction false} SplitOdd(h: seq<nat>, u: string, v: string)
    requires forall j :: 0 <= j < |h| ==> h[j] != 1
    requires '[' !in u && '[' !in v
    ensures Split(Token(1), Render(h + [1]) + (u + Token(1) + v)) == [Render(h), u, v]
  {
    var d := Token(1);
    var y := u + d + v;
    var r := Render(h);
    RenderConcat(h, [1]);
    RenderOne(1);
    assert Render(h + [1]) == r + d;
    assert (r + d) + y == r + (d + y);
    SplitMissingToken(1, h, d + y);
    SplitAtDelim(d, y);
    SplitTwoWords(d, u, v);
    var l := [""] + [u, v];
    assert Split(d, d + y) == l;
    assert PrependFirst(r, l) == [r + ""] + [u, v];
    assert r + "" == r;
  }

  lemma {:induction false} SumEven(ts: seq<nat>)
    requires forall j :: 0 <= j < |ts| ==> ts[j] % 2 == 0
    ensures Sum(ts) % 2 == 0
    decreases |ts|
  {
    if |ts| > 0 {
      SumEven(ts[1..]);
    }
  }

  /** The value and the tokens of an odd canonical counter: it ends in 1 and
      every other token is even. */
  lemma {:induction false} OddShape(ts: seq<nat>)
    requires Canonical(ts) && ts != [0] && ts[|ts| - 1] == 1
    ensures forall j :: 0 <= j < |ts| - 1 ==> ts[j] != 1
    ensures ts == ts[..|ts| - 1] + [1]
    ensures Sum(ts) % 2 == 1
  {
    var last := |ts| - 1;
    var h := ts[..last];
    AboveLast(ts);
    forall j | 0 <= j < |h|
      ensures h[j] % 2 == 0
    {
      assert h[j] == ts[j] && ts[j] >= 2;
      assert IsPow2(ts[j]);
    }
    assert ts == h + [1];
    SumConcat(h, [1]);
    assert Sum([1]) == 1 + Sum([]);
    SumEven(h);
    var e := Sum(h);
    assert Sum(ts) == e + 1 && e % 2 == 0;
  }

  /** An even canonical counter holds no token 1 and every token is even. */
  lemma {:induction false} EvenShape(ts: seq<nat>)
    requires Canonical(ts) && (ts == [0] || ts[|ts| - 1] != 1)
    ensures forall j :: 0 <= j < |ts| ==> ts[j] != 1
    ensures Sum(ts) % 2 == 0
  {
    forall j | 0 <= j < |ts|
      ensures ts[j] != 1 && ts[j] % 2 == 0
    {
      if ts != [0] {
        var last := |ts| - 1;
        assert IsPow2(ts[j]) && IsPow2(ts[last]);
        if j < last {
          DescendingOrder(ts, j, last);
        }
      }
    }
    SumEven(ts);
  }

  /** determine_parity reads a canonical counter as "ODD" exactly when its
      value is odd; the seed "[0]" reads "EVEN". */
  lemma {:induction false} ParityOfCanonical(ts: seq<nat>)
    requires Canonical(ts)
    ensures Parity(Render(ts)) == Some(if Sum(ts) % 2 == 1 then "ODD" else "EVEN")
  {
    Literals();
    RenderOne(1);
    var u, v := "ODD", "EVEN";
    assert "ODD[1]EVEN" == u + Token(1) + v;
    if ts != [0] && ts[|ts| - 1] == 1 {
      OddShape(ts);
      var h := ts[..|ts| - 1];
      SplitOdd(h, u, v);
    } else {
      EvenShape(ts);
      SplitEven(ts, u, v);
    }
  }

  /** Canonical counters of consecutive values have different parities. */
  lemma ParityFlips(a: seq<nat>, b: seq<nat>)
    requires Canonical(a) && Canonical(b) && Sum(b) == Sum(a) + 1
    ensures Parity(Render(a)).Some? && Parity(Render(b)).Some?
    ensures Parity(Render(b)) != Parity(Render(a))
  {
    ParityOfCanonical(a);
    ParityOfCanonical(b);
  }

  /** Between a canonical counter and its increment the parity flips. */
  lemma ParityAlternates(ts: seq<nat>)
    requires Canonical(ts) && Sum(ts) + 1 < Bound
    ensures Parity(Render(ts)).Some? && Parity(Increment(Render(ts))).Some?
    ensures Parity(Increment(Render(ts))) != Parity(Render(ts))
  {
    IncrementCanonical(ts);
    IncrementRendered(ts);
    ParityFlips(ts, TokIncrement(ts));
  }
}
