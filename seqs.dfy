/**
 * Filtering, as a database `where` clause or `Array.prototype.filter` does
 * it, and `Array.prototype.map` with a callback that may throw.
 */
module Seqs {
  import opened Wrappers

  /** the elements of `s` satisfying `p`, in order */
  function Filter<T(!new)>(s: seq<T>, p: T -> bool): (r: seq<T>)
    ensures |r| <= |s|
    ensures forall x :: x in r <==> x in s && p(x)
  {
    if s == [] then [] else Filter(s[..|s| - 1], p) + (if p(s[|s| - 1]) then [s[|s| - 1]] else [])
  }

  lemma {:induction false} FilterAppend<T(!new)>(a: seq<T>, b: seq<T>, p: T -> bool)
    ensures Filter(a + b, p) == Filter(a, p) + Filter(b, p)
    decreases |b|
  {
    if b == [] {
      assert a + b == a;
    } else {
      var last := b[|b| - 1];
      var tail := if p(last) then [last] else [];
      assert (a + b)[..|a + b| - 1] == a + b[..|b| - 1];
      assert (a + b)[|a + b| - 1] == last;
      FilterAppend(a, b[..|b| - 1], p);
      calc {
        Filter(a + b, p);
        Filter(a + b[..|b| - 1], p) + tail;
        Filter(a, p) + Filter(b[..|b| - 1], p) + tail;
        Filter(a, p) + (Filter(b[..|b| - 1], p) + tail);
        Filter(a, p) + Filter(b, p);
      }
    }
  }

  lemma {:induction false} FilterNone<T(!new)>(s: seq<T>, p: T -> bool)
    requires forall i :: 0 <= i < |s| ==> !p(s[i])
    ensures Filter(s, p) == []
  {
    if s != [] {
      FilterNone(s[..|s| - 1], p);
    }
  }

  lemma {:induction false} FilterAll<T(!new)>(s: seq<T>, p: T -> bool)
    requires forall i :: 0 <= i < |s| ==> p(s[i])
    ensures Filter(s, p) == s
  {
    if s != [] {
      FilterAll(s[..|s| - 1], p);
      assert Filter(s, p) == s[..|s| - 1] + [s[|s| - 1]];
      assert s == s[..|s| - 1] + [s[|s| - 1]];
    }
  }

  /** Filtering keeps the order: a sequence increasing in `key` stays increasing. */
  lemma {:induction false} FilterKeepsIncreasing<T(!new)>(s: seq<T>, p: T -> bool, key: T -> int)
    requires forall i, j :: 0 <= i < j < |s| ==> key(s[i]) < key(s[j])
    ensures forall i, j :: 0 <= i < j < |Filter(s, p)| ==> key(Filter(s, p)[i]) < key(Filter(s, p)[j])
  {
    if s != [] {
      var init := s[..|s| - 1];
      var last := s[|s| - 1];
      FilterKeepsIncreasing(init, p, key);
      var r0 := Filter(init, p);
      forall i | 0 <= i < |r0| ensures key(r0[i]) < key(last) {
        assert r0[i] in r0;
        var k :| 0 <= k < |init| && init[k] == r0[i];
        assert s[k] == r0[i];
      }
      var r := Filter(s, p);
      assert r == r0 + (if p(last) then [last] else []);
      forall i, j | 0 <= i < j < |r| ensures key(r[i]) < key(r[j]) {
        if j < |r0| {
          assert r[i] == r0[i] && r[j] == r0[j];
        } else {
          assert r[i] == r0[i] && r[j] == last;
        }
      }
    }
  }

  /** the elements of `s` in reverse order */
  function Reverse<T>(s: seq<T>): (r: seq<T>)
    ensures |r| == |s|
    ensures forall i :: 0 <= i < |s| ==> r[i] == s[|s| - 1 - i]
  {
    if s == [] then [] else [s[|s| - 1]] + Reverse(s[..|s| - 1])
  }

  /**
   * `xs.map(f)` where `f` may throw: every element's result in order, or
   * what the first throwing element threw (the later ones are not run).
   */
  function MapOrThrow<A, B(==), E(==)>(xs: seq<A>, f: A -> Result<B, E>): (r: Result<seq<B>, E>)
    ensures r.Success? <==> forall k :: 0 <= k < |xs| ==> f(xs[k]).Success?
    ensures r.Success? ==> |r.value| == |xs| && forall k :: 0 <= k < |xs| ==> f(xs[k]) == Success(r.value[k])
    ensures r.Failure? ==> exists k :: 0 <= k < |xs| && f(xs[k]) == Failure(r.error)
                                       && forall j :: 0 <= j < k ==> f(xs[j]).Success?
  {
    if xs == [] then Success([])
    else
      match f(xs[0])
      case Failure(e) => Failure(e)
      case Success(y) =>
        var rest := MapOrThrow(xs[1..], f);
        assert forall k :: 0 <= k < |xs[1..]| ==> xs[1..][k] == xs[k + 1];
        match rest
        case Failure(e) =>
          var k :| 0 <= k < |xs[1..]| && f(xs[1..][k]) == Failure(e) && forall j :: 0 <= j < k ==> f(xs[1..][j]).Success?;
          assert forall j :: 0 <= j < k + 1 ==> f(xs[j]).Success? by {
            forall j | 0 <= j < k + 1 ensures f(xs[j]).Success? {
              if j > 0 {
                assert xs[j] == xs[1..][j - 1];
              }
            }
          }
          assert f(xs[k + 1]) == Failure(e);
          Failure(e)
        case Success(ys) => Success([y] + ys)
  }
}
