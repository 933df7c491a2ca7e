/**
 * Order-preserving sequence combinators, the counterparts of JavaScript's
 * `Array.prototype.filter`, `map` and of a `for...of` loop that emits zero or
 * more items per element. All three recurse on the LAST element, so a loop
 * that appends while walking a prefix `s[..i]` matches them step by step.
 */
module Seqs {

  /** The elements of `s` that satisfy `p`, in their original order. */
  function Filter<T>(s: seq<T>, p: T -> bool): (r: seq<T>)
    ensures |r| <= |s|
  {
    if s == [] then [] else Filter(s[..|s| - 1], p) + (if p(s[|s| - 1]) then [s[|s| - 1]] else [])
  }

  /** `f` applied to every element of `s`, in order. */
  function Map<T, U>(s: seq<T>, f: T -> U): (r: seq<U>)
    ensures |r| == |s|
    ensures forall i :: 0 <= i < |s| ==> r[i] == f(s[i])
  {
    if s == [] then [] else Map(s[..|s| - 1], f) + [f(s[|s| - 1])]
  }

  /** The concatenation of `f(x)` over the elements `x` of `s`, in order. */
  function FlatMap<T, U>(s: seq<T>, f: T -> seq<U>): (r: seq<U>)
    ensures s == [] ==> r == []
  {
    if s == [] then [] else FlatMap(s[..|s| - 1], f) + f(s[|s| - 1])
  }

  /** `Filter` keeps exactly the elements that satisfy `p`. */
  lemma {:induction false} FilterMember<T>(s: seq<T>, p: T -> bool, x: T)
    ensures x in Filter(s, p) <==> x in s && p(x)
    decreases |s|
  {
    if s != [] {
      var init, last := s[..|s| - 1], s[|s| - 1];
      assert s == init + [last];
      FilterMember(init, p, x);
    }
  }

  /** Nothing is kept when no element satisfies `p`. */
  lemma {:induction false} FilterNone<T>(s: seq<T>, p: T -> bool)
    requires forall x :: x in s ==> !p(x)
    ensures Filter(s, p) == []
    decreases |s|
  {
    if s != [] {
      assert s == s[..|s| - 1] + [s[|s| - 1]];
      FilterNone(s[..|s| - 1], p);
    }
  }

  lemma FilterSnoc<T>(s: seq<T>, x: T, p: T -> bool)
    ensures Filter(s + [x], p) == Filter(s, p) + (if p(x) then [x] else [])
  {
    assert (s + [x])[..|s|] == s;
  }

  lemma MapSnoc<T, U>(s: seq<T>, x: T, f: T -> U)
    ensures Map(s + [x], f) == Map(s, f) + [f(x)]
  {
    assert (s + [x])[..|s|] == s;
  }

  lemma FlatMapSnoc<T, U>(s: seq<T>, x: T, f: T -> seq<U>)
    ensures FlatMap(s + [x], f) == FlatMap(s, f) + f(x)
  {
    assert (s + [x])[..|s|] == s;
  }

  /** One more loop step: the image of the first `k + 1` elements extends the image of the first `k`. */
  lemma MapTake<T, U>(s: seq<T>, k: nat, f: T -> U)
    requires k < |s|
    ensures Map(s[..k + 1], f) == Map(s[..k], f) + [f(s[k])]
  {
    assert s[..k + 1] == s[..k] + [s[k]];
    MapSnoc(s[..k], s[k], f);
  }

  /** One more loop step for `FlatMap`. */
  lemma FlatMapTake<T, U>(s: seq<T>, k: nat, f: T -> seq<U>)
    requires k < |s|
    ensures FlatMap(s[..k + 1], f) == FlatMap(s[..k], f) + f(s[k])
  {
    assert s[..k + 1] == s[..k] + [s[k]];
    FlatMapSnoc(s[..k], s[k], f);
  }

  lemma {:induction false} FilterAppend<T>(a: seq<T>, b: seq<T>, p: T -> bool)
    ensures Filter(a + b, p) == Filter(a, p) + Filter(b, p)
    decreases |b|
  {
    if b == [] {
      assert a + b == a;
    } else {
      var init, last := b[..|b| - 1], b[|b| - 1];
      assert b == init + [last];
      assert a + b == (a + init) + [last];
      FilterAppend(a, init, p);
      FilterSnoc(a + init, last, p);
      FilterSnoc(init, last, p);
    }
  }

  /** An element of a `FlatMap` comes from `f(x)` for some element `x`, and every such element is there. */
  lemma {:induction false} FlatMapMember<T, U>(s: seq<T>, f: T -> seq<U>, y: U)
    ensures y in FlatMap(s, f) <==> exists x :: x in s && y in f(x)
    decreases |s|
  {
    if s != [] {
      var init, last := s[..|s| - 1], s[|s| - 1];
      assert s == init + [last];
      FlatMapMember(init, f, y);
      if y in f(last) {
        assert last in s;
      }
      if exists x :: x in s && y in f(x) {
        var x :| x in s && y in f(x);
        if x != last {
          assert x in init;
        }
      }
    }
  }

  /** If `f` yields nothing for every element, neither does `FlatMap`. */
  lemma {:induction false} FlatMapNone<T, U>(s: seq<T>, f: T -> seq<U>)
    requires forall x :: x in s ==> f(x) == []
    ensures FlatMap(s, f) == []
    decreases |s|
  {
    if s != [] {
      assert s == s[..|s| - 1] + [s[|s| - 1]];
      FlatMapNone(s[..|s| - 1], f);
    }
  }

  /**
   * A loop body that emits `[g(x)]` when `p(x)` holds and nothing otherwise
   * is the same as filtering by `p` and then mapping `g`.
   */
  lemma {:induction false} FlatMapGuarded<T, U>(s: seq<T>, f: T -> seq<U>, p: T -> bool, g: T -> U)
    requires forall x :: f(x) == (if p(x) then [g(x)] else [])
    ensures FlatMap(s, f) == Map(Filter(s, p), g)
    decreases |s|
  {
    if s != [] {
      var init, last := s[..|s| - 1], s[|s| - 1];
      FlatMapGuarded(init, f, p, g);
      if p(last) {
        MapSnoc(Filter(init, p), last, g);
      }
    }
  }

  /** An element of `Map(s, f)` is the image of an element of `s`, and every such image is there. */
  lemma MapMember<T, U>(s: seq<T>, f: T -> U, y: U)
    ensures y in Map(s, f) <==> exists x :: x in s && y == f(x)
  {
    if y in Map(s, f) {
      var i :| 0 <= i < |s| && Map(s, f)[i] == y;
      assert s[i] in s;
    }
    if exists x :: x in s && y == f(x) {
      var x :| x in s && y == f(x);
      var i :| 0 <= i < |s| && s[i] == x;
      assert Map(s, f)[i] == y;
    }
  }

  /** Dropping the elements for which `f` yields nothing does not change a `FlatMap`. */
  lemma {:induction false} FlatMapSkipsEmpty<T, U>(s: seq<T>, p: T -> bool, f: T -> seq<U>)
    requires forall x :: !p(x) ==> f(x) == []
    ensures FlatMap(Filter(s, p), f) == FlatMap(s, f)
    decreases |s|
  {
    if s != [] {
      var init, last := s[..|s| - 1], s[|s| - 1];
      FlatMapSkipsEmpty(init, p, f);
      assert Filter(s, p) == Filter(init, p) + (if p(last) then [last] else []);
      assert FlatMap(s, f) == FlatMap(init, f) + f(last);
      if p(last) {
        FlatMapSnoc(Filter(init, p), last, f);
      } else {
        assert Filter(s, p) == Filter(init, p);
      }
    }
  }
}
