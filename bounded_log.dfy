/**
 * The two newest-first bounded logs of the system: the engine's
 * `[entry, ...logs].slice(0, cap)` and the audit service's
 * `insert(0, entry)` followed by at most one `pop()`.
 */
module BoundedLog {

  function Min(a: int, b: int): int {
    if a <= b then a else b
  }

  /** `[x, ...s].slice(0, cap)`. */
  function PrependCapped<T>(x: T, s: seq<T>, cap: nat): (r: seq<T>)
    ensures |r| == Min(|s| + 1, cap)
    ensures cap > 0 ==> r[0] == x && r[1..] == s[..Min(|s|, cap - 1)]
  {
    ([x] + s)[..Min(|s| + 1, cap)]
  }

  /** `s.insert(0, x)` and then one `pop()` when the list has grown past `cap`. */
  function InsertPop<T>(x: T, s: seq<T>, cap: nat): (r: seq<T>)
    ensures |s| <= cap ==> |r| <= cap
    ensures cap > 0 ==> |r| > 0 && r[0] == x
  {
    var t := [x] + s;
    if |t| > cap then t[..|t| - 1] else t
  }

  /** On a log already within its bound, the two eviction policies agree. */
  lemma InsertPopIsPrependCapped<T>(x: T, s: seq<T>, cap: nat)
    requires cap > 0 && |s| <= cap
    ensures InsertPop(x, s, cap) == PrependCapped(x, s, cap)
  {
  }

  /** The entries after the newest are the old ones, oldest evicted first. */
  lemma InsertPopKeepsOrder<T>(x: T, s: seq<T>, cap: nat)
    requires cap > 0 && |s| <= cap
    ensures InsertPop(x, s, cap)[1..] == s[..Min(|s|, cap - 1)]
  {
    InsertPopIsPrependCapped(x, s, cap);
  }

  /** Several `InsertPop`s in order: `xs[0]` first, the last of `xs` ends up newest. */
  function InsertAll<T>(s: seq<T>, xs: seq<T>, cap: nat): (r: seq<T>)
    ensures |s| <= cap ==> |r| <= cap
    decreases |xs|
  {
    if xs == [] then s else InsertAll(InsertPop(xs[0], s, cap), xs[1..], cap)
  }

  /** `seq` reversed: the newest-first view of entries inserted in order. */
  function Reverse<T>(xs: seq<T>): (r: seq<T>)
    ensures |r| == |xs|
    decreases |xs|
  {
    if xs == [] then [] else Reverse(xs[1..]) + [xs[0]]
  }

  /**
   * After inserting `xs` one by one into a log of capacity at least `|xs|`,
   * the log begins with `xs` newest first.
   */
  lemma {:induction false} InsertAllNewestFirst<T>(s: seq<T>, xs: seq<T>, cap: nat)
    requires |s| <= cap && |xs| <= cap
    ensures |InsertAll(s, xs, cap)| >= |xs|
    ensures InsertAll(s, xs, cap)[..|xs|] == Reverse(xs)
    decreases |xs|
  {
    if xs != [] {
      var s' := InsertPop(xs[0], s, cap);
      assert |s'| == Min(|s| + 1, cap) by { InsertPopIsPrependCapped(xs[0], s, cap); }
      InsertAllPrefix(s', xs[1..], cap);
      InsertAllNewestFirst(s', xs[1..], cap);
      var r := InsertAll(s', xs[1..], cap);
      assert r == InsertAll(s, xs, cap);
      assert r[|xs| - 1] == xs[0] by { InsertAllShifts(s', xs[1..], cap, 0); }
      assert r[..|xs|] == r[..|xs| - 1] + [r[|xs| - 1]];
    }
  }

  /** Inserting into a log that has room keeps every entry, one place further back. */
  lemma {:induction false} InsertAllPrefix<T>(s: seq<T>, xs: seq<T>, cap: nat)
    requires cap > 0 && |s| <= cap
    ensures |InsertAll(s, xs, cap)| == Min(|s| + |xs|, cap)
    decreases |xs|
  {
    if xs != [] {
      InsertPopIsPrependCapped(xs[0], s, cap);
      InsertAllPrefix(InsertPop(xs[0], s, cap), xs[1..], cap);
    }
  }

  /** An entry at index `i` of a log moves to index `i + |xs|` after `|xs|` more insertions. */
  lemma {:induction false} InsertAllShifts<T>(s: seq<T>, xs: seq<T>, cap: nat, i: nat)
    requires |s| <= cap && i < |s| && i + |xs| < cap
    ensures |InsertAll(s, xs, cap)| > i + |xs|
    ensures InsertAll(s, xs, cap)[i + |xs|] == s[i]
    decreases |xs|
  {
    if xs != [] {
      var s' := InsertPop(xs[0], s, cap);
      InsertPopIsPrependCapped(xs[0], s, cap);
      assert s'[i + 1] == s[i];
      InsertAllShifts(s', xs[1..], cap, i + 1);
    }
  }

  /** Inserting `xs` and then `x` is inserting `xs + [x]`. */
  lemma {:induction false} InsertAllSnoc<T>(s: seq<T>, xs: seq<T>, x: T, cap: nat)
    ensures InsertAll(s, xs + [x], cap) == InsertPop(x, InsertAll(s, xs, cap), cap)
    decreases |xs|
  {
    if xs == [] {
      assert [] + [x] == [x];
      assert [x][1..] == [];
    } else {
      assert (xs + [x])[1..] == xs[1..] + [x];
      InsertAllSnoc(InsertPop(xs[0], s, cap), xs[1..], x, cap);
    }
  }
}
