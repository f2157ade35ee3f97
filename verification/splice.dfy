/**
 * The in-place `splice` of JavaScript arrays, as a pure function on sequences.
 * A negative start counts from the end; starts and counts are clamped to the
 * array. Every edit of the editor is written with these two functions.
 */
module Splice {

  /** The position `splice` actually starts at. */
  function ClampStart(len: nat, start: int): (s: nat)
    ensures s <= len
    ensures 0 <= start <= len ==> s == start
  {
    if start < 0 then (if len + start < 0 then 0 else len + start)
    else if start > len then len
    else start
  }

  /** `xs.splice(start, count)`: the sequence left after the removal. */
  function Remove<T>(xs: seq<T>, start: int, count: int): (r: seq<T>)
    ensures |r| <= |xs|
    ensures 0 <= start && 0 <= count && start + count <= |xs| ==>
      r == xs[..start] + xs[start + count..]
    ensures (start >= |xs| || count <= 0) ==> r == xs
  {
    var s := ClampStart(|xs|, start);
    var k := if count < 0 then 0 else if count > |xs| - s then |xs| - s else count;
    xs[..s] + xs[s + k..]
  }

  /** `xs.splice(start, 0, ...items)`: the sequence after the insertion. */
  function Insert<T>(xs: seq<T>, start: int, items: seq<T>): (r: seq<T>)
    ensures |r| == |xs| + |items|
    ensures 0 <= start <= |xs| ==> r == xs[..start] + items + xs[start..]
  {
    var s := ClampStart(|xs|, start);
    xs[..s] + items + xs[s..]
  }

  /** `xs.splice(p, 1)` for each `p` of `ps` in turn: the editor's multi-step deletions. */
  function RemoveEach<T>(xs: seq<T>, ps: seq<int>): (r: seq<T>)
    ensures |r| <= |xs|
    decreases |ps|
  {
    if ps == [] then xs else RemoveEach(Remove(xs, ps[0], 1), ps[1..])
  }

  /** The first removal happens first. */
  lemma RemoveEachCons<T>(xs: seq<T>, p: int, ps: seq<int>)
    ensures RemoveEach(xs, [p] + ps) == RemoveEach(Remove(xs, p, 1), ps)
  {
    assert ([p] + ps)[1..] == ps;
  }

  /** Three single removals in a row. */
  lemma RemoveEachThree<T>(xs: seq<T>, p: int, q: int, s: int)
    ensures RemoveEach(xs, [p, q, s]) == Remove(Remove(Remove(xs, p, 1), q, 1), s, 1)
  {
    assert [p, q, s] == [p] + [q, s];
    RemoveEachCons(xs, p, [q, s]);
    RemoveEachTwo(Remove(xs, p, 1), q, s);
  }

  /** Two single removals in a row. */
  lemma RemoveEachTwo<T>(xs: seq<T>, p: int, q: int)
    ensures RemoveEach(xs, [p, q]) == Remove(Remove(xs, p, 1), q, 1)
  {
    assert [p, q] == [p] + [q];
    RemoveEachCons(xs, p, [q]);
    assert [q] == [q] + [];
    RemoveEachCons(Remove(xs, p, 1), q, []);
  }

  /** Removing one element that lies inside the first part of a concatenation. */
  lemma RemoveInPrefix<T>(a: seq<T>, b: seq<T>, k: int)
    requires 0 <= k < |a|
    ensures Remove(a + b, k, 1) == a[..k] + a[k + 1..] + b
  {
    assert (a + b)[..k] == a[..k];
    assert (a + b)[k + 1..] == a[k + 1..] + b;
  }

  /**
   * Splicing out `xs[d]`, then `xs[a + 1]`, then `xs[a]` (highest index first,
   * so the earlier positions stay put) leaves the three slices in between.
   */
  lemma RemoveOneThenPair<T>(xs: seq<T>, a: int, d: int)
    requires 0 <= a && a + 1 < d < |xs|
    ensures RemoveEach(xs, [d, a + 1, a]) == xs[..a] + xs[a + 2..d] + xs[d + 1..]
  {
    RemoveEachThree(xs, d, a + 1, a);
    RemoveOneThenPairSteps(xs, a, d);
  }

  lemma RemoveOneThenPairSteps<T>(xs: seq<T>, a: int, d: int)
    requires 0 <= a && a + 1 < d < |xs|
    ensures Remove(Remove(Remove(xs, d, 1), a + 1, 1), a, 1) == xs[..a] + xs[a + 2..d] + xs[d + 1..]
  {
    var t1 := Remove(xs, d, 1);
    assert t1 == xs[..d] + xs[d + 1..];
    RemoveInPrefix(xs[..d], xs[d + 1..], a + 1);
    var t2 := Remove(t1, a + 1, 1);
    assert t2 == xs[..a + 1] + xs[a + 2..d] + xs[d + 1..];
    RemoveInPrefix(xs[..a + 1], xs[a + 2..d] + xs[d + 1..], a);
    assert xs[..a + 1][..a] == xs[..a];
  }

  /** The same two removals with no third element beyond them. */
  lemma RemovePair<T>(xs: seq<T>, a: int)
    requires 0 <= a && a + 1 < |xs|
    ensures RemoveEach(xs, [a + 1, a]) == xs[..a] + xs[a + 2..]
  {
    RemoveEachTwo(xs, a + 1, a);
    RemovePairSteps(xs, a);
  }

  lemma RemovePairSteps<T>(xs: seq<T>, a: int)
    requires 0 <= a && a + 1 < |xs|
    ensures Remove(Remove(xs, a + 1, 1), a, 1) == xs[..a] + xs[a + 2..]
  {
    var t1 := Remove(xs, a + 1, 1);
    assert t1 == xs[..a + 1] + xs[a + 2..];
    RemoveInPrefix(xs[..a + 1], xs[a + 2..], a);
    assert xs[..a + 1][..a] == xs[..a];
  }

  /** Two adjacent removals inside the first part of a concatenation. */
  lemma RemovePairInPrefix<T>(u: seq<T>, v: seq<T>, a: int)
    requires 0 <= a && a + 1 < |u|
    ensures Remove(Remove(u + v, a + 1, 1), a, 1) == u[..a] + u[a + 2..] + v
  {
    RemoveInPrefix(u, v, a + 1);
    var w := u[..a + 1] + u[a + 2..];
    assert Remove(u + v, a + 1, 1) == w + v;
    RemoveInPrefix(w, v, a);
    assert w[..a] == u[..a];
    assert w[a + 1..] == u[a + 2..];
  }

  /** A further pair of removals that falls inside the first part of what is left. */
  lemma PairAfter<T>(xs: seq<T>, ps: seq<int>, a: int, u: seq<T>, v: seq<T>)
    requires RemoveEach(xs, ps) == u + v && 0 <= a && a + 1 < |u|
    ensures RemoveEach(xs, ps + [a + 1, a]) == u[..a] + u[a + 2..] + v
  {
    RemoveEachAppend(xs, ps, [a + 1, a]);
    RemoveEachTwo(u + v, a + 1, a);
    RemovePairInPrefix(u, v, a);
  }

  /**
   * Splicing out `xs[d]`, `xs[p + 1]`, `xs[p]`, `xs[a + 1]`, `xs[a]` in that
   * order leaves the four slices in between.
   */
  lemma RemoveOneThenTwoPairs<T>(xs: seq<T>, a: int, p: int, d: int)
    requires 0 <= a && a + 1 < p && p + 1 < d < |xs|
    ensures RemoveEach(xs, [d, p + 1, p, a + 1, a]) == xs[..a] + xs[a + 2..p] + xs[p + 2..d] + xs[d + 1..]
  {
    var rest := xs[p + 2..d] + xs[d + 1..];
    assert [d, p + 1, p, a + 1, a] == [d, p + 1, p] + [a + 1, a];
    RemoveOneThenPair(xs, p, d);
    SeqAssoc(xs[..p], xs[p + 2..d], xs[d + 1..]);
    PairAfter(xs, [d, p + 1, p], a, xs[..p], rest);
    PrefixSlices(xs, a, p, d);
  }

  lemma PrefixSlices<T>(xs: seq<T>, a: int, p: int, d: int)
    requires 0 <= a && a + 1 < p && p + 1 < d < |xs|
    ensures xs[..p][..a] + xs[..p][a + 2..] + (xs[p + 2..d] + xs[d + 1..])
            == xs[..a] + xs[a + 2..p] + xs[p + 2..d] + xs[d + 1..]
  {
    assert xs[..p][..a] == xs[..a];
    assert xs[..p][a + 2..] == xs[a + 2..p];
  }

  /** The same four removals with no element beyond the second pair. */
  lemma RemoveTwoPairs<T>(xs: seq<T>, a: int, p: int)
    requires 0 <= a && a + 1 < p && p + 1 < |xs|
    ensures RemoveEach(xs, [p + 1, p, a + 1, a]) == xs[..a] + xs[a + 2..p] + xs[p + 2..]
  {
    calc {
      RemoveEach(xs, [p + 1, p, a + 1, a]);
      { assert [p + 1, p, a + 1, a] == [p + 1, p] + [a + 1, a]; }
      RemoveEach(xs, [p + 1, p] + [a + 1, a]);
      { RemovePair(xs, p); PairAfter(xs, [p + 1, p], a, xs[..p], xs[p + 2..]); }
      xs[..p][..a] + xs[..p][a + 2..] + xs[p + 2..];
      { assert xs[..p][..a] == xs[..a]; assert xs[..p][a + 2..] == xs[a + 2..p]; }
      xs[..a] + xs[a + 2..p] + xs[p + 2..];
    }
  }

  lemma SeqAssoc<T>(u: seq<T>, v: seq<T>, w: seq<T>)
    ensures u + (v + w) == u + v + w
  {
  }

  /** Removing along `ps + qs` is removing along `ps`, then along `qs`. */
  lemma {:induction false} RemoveEachAppend<T>(xs: seq<T>, ps: seq<int>, qs: seq<int>)
    ensures RemoveEach(xs, ps + qs) == RemoveEach(RemoveEach(xs, ps), qs)
    decreases |ps|
  {
    if ps == [] {
      assert ps + qs == qs;
    } else {
      assert (ps + qs)[0] == ps[0] && (ps + qs)[1..] == ps[1..] + qs;
      RemoveEachAppend(Remove(xs, ps[0], 1), ps[1..], qs);
    }
  }
}
