/** The array operations the source chains: `map`, `filter` and
    `filter(Boolean)` on a mapped array (which keeps the non-null results). */
module Seqs {
  import opened Base

  /** `xs.map(f)`. */
  function Map<T, U>(xs: seq<T>, f: T -> U): (r: seq<U>)
    ensures |r| == |xs|
    ensures forall i :: 0 <= i < |xs| ==> r[i] == f(xs[i])
  {
    seq(|xs|, i requires 0 <= i < |xs| => f(xs[i]))
  }

  /** `xs.filter(p)`: the elements satisfying `p`, in their original order. */
  function Filter<T>(xs: seq<T>, p: T -> bool): (r: seq<T>)
    ensures |r| <= |xs|
    ensures forall i :: 0 <= i < |r| ==> p(r[i]) && r[i] in xs
    decreases |xs|
  {
    if xs == [] then []
    else if p(xs[0]) then [xs[0]] + Filter(xs[1..], p)
    else Filter(xs[1..], p)
  }

  /** `os.filter(Boolean)` on an array of nullable values: the present
      values, in their original order. */
  function Somes<U>(os: seq<Option<U>>): (r: seq<U>)
    ensures |r| <= |os|
    ensures forall i :: 0 <= i < |r| ==> Some(r[i]) in os
    decreases |os|
  {
    if os == [] then []
    else if os[0].Some? then [os[0].value] + Somes(os[1..])
    else Somes(os[1..])
  }

  /** Filtering a concatenation filters each part: order is kept and no
      element moves across the boundary. */
  lemma {:induction false} FilterAppend<T>(a: seq<T>, b: seq<T>, p: T -> bool)
    ensures Filter(a + b, p) == Filter(a, p) + Filter(b, p)
    decreases |a|
  {
    if a == [] {
      assert a + b == b;
    } else {
      assert (a + b)[0] == a[0];
      assert (a + b)[1..] == a[1..] + b;
      FilterAppend(a[1..], b, p);
    }
  }

  /** Keeping the present values of a concatenation keeps those of each
      part. */
  lemma {:induction false} SomesAppend<U>(a: seq<Option<U>>, b: seq<Option<U>>)
    ensures Somes(a + b) == Somes(a) + Somes(b)
    decreases |a|
  {
    if a == [] {
      assert a + b == b;
    } else {
      assert (a + b)[0] == a[0];
      assert (a + b)[1..] == a[1..] + b;
      SomesAppend(a[1..], b);
    }
  }

  /** When `f` yields a value exactly on the elements satisfying `p`, the
      non-null results of `xs.map(f)` are `f` applied to `xs.filter(p)`,
      position by position: same length, same order, duplicates included. */
  lemma {:induction false} SomesOfMapIsMapOfFilter<T, U>(xs: seq<T>, f: T -> Option<U>, p: T -> bool)
    requires forall x :: f(x).Some? <==> p(x)
    ensures |Somes(Map(xs, f))| == |Filter(xs, p)|
    ensures forall i :: 0 <= i < |Filter(xs, p)| ==> Some(Somes(Map(xs, f))[i]) == f(Filter(xs, p)[i])
    decreases |xs|
  {
    if xs != [] {
      var m := Map(xs, f);
      assert m[1..] == Map(xs[1..], f);
      assert m == [m[0]] + m[1..];
      SomesAppend([m[0]], m[1..]);
      SomesOfMapIsMapOfFilter(xs[1..], f, p);
    }
  }

  /** Elements none of which satisfy `p` filter to nothing. */
  lemma {:induction false} FilterNone<T>(xs: seq<T>, p: T -> bool)
    requires forall i :: 0 <= i < |xs| ==> !p(xs[i])
    ensures Filter(xs, p) == []
    decreases |xs|
  {
    if xs != [] {
      assert !p(xs[0]);
      FilterNone(xs[1..], p);
    }
  }

  /** Elements all of which satisfy `p` filter to themselves. */
  lemma {:induction false} FilterAll<T>(xs: seq<T>, p: T -> bool)
    requires forall i :: 0 <= i < |xs| ==> p(xs[i])
    ensures Filter(xs, p) == xs
    decreases |xs|
  {
    if xs != [] {
      assert p(xs[0]);
      FilterAll(xs[1..], p);
      assert [xs[0]] + xs[1..] == xs;
    }
  }

  /** An element is kept exactly when it was there and satisfies `p`. */
  lemma {:induction false} FilterMembership<T>(xs: seq<T>, p: T -> bool, x: T)
    ensures x in Filter(xs, p) <==> x in xs && p(x)
    decreases |xs|
  {
    if xs != [] {
      FilterMembership(xs[1..], p, x);
      assert x in xs <==> x == xs[0] || x in xs[1..];
    }
  }

  /** No element occurs twice. */
  predicate NoDup<T(==)>(xs: seq<T>) {
    forall i, j :: 0 <= i < j < |xs| ==> xs[i] != xs[j]
  }

  /** Filtering cannot introduce a repetition. */
  lemma {:induction false} FilterKeepsNoDup<T>(xs: seq<T>, p: T -> bool)
    requires NoDup(xs)
    ensures NoDup(Filter(xs, p))
    decreases |xs|
  {
    if xs != [] {
      var t := xs[1..];
      assert NoDup(t) by {
        forall i, j | 0 <= i < j < |t| ensures t[i] != t[j] {
          assert t[i] == xs[i + 1] && t[j] == xs[j + 1];
        }
      }
      FilterKeepsNoDup(t, p);
      if p(xs[0]) {
        var r := [xs[0]] + Filter(t, p);
        assert xs[0] !in t;
        FilterMembership(t, p, xs[0]);
        forall i, j | 0 <= i < j < |r| ensures r[i] != r[j] {
          if i == 0 {
            assert r[j] == Filter(t, p)[j - 1];
          } else {
            assert r[i] == Filter(t, p)[i - 1] && r[j] == Filter(t, p)[j - 1];
          }
        }
      }
    }
  }
}
