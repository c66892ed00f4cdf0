/** Generic sequence operations the engine's array code uses: `filter`, `slice(0, n)`. */
module Lists {

  /** `xs` keeps some of the elements of `ys`, in their order. */
  predicate IsSubsequence<T(==)>(xs: seq<T>, ys: seq<T>)
    decreases |ys|
  {
    if xs == [] then true
    else if ys == [] then false
    else if xs[0] == ys[0] then IsSubsequence(xs[1..], ys[1..])
    else IsSubsequence(xs, ys[1..])
  }

  /** No element occurs twice. */
  predicate Distinct<T(==)>(xs: seq<T>) {
    forall i, j :: 0 <= i < j < |xs| ==> xs[i] != xs[j]
  }

  /** `xs.filter(p)`. */
  function Filter<T(==, !new)>(xs: seq<T>, p: T -> bool): (r: seq<T>)
    ensures forall x :: x in r <==> x in xs && p(x)
    ensures IsSubsequence(r, xs)
    ensures |r| <= |xs|
    decreases |xs|
  {
    if xs == [] then []
    else
      var rest := Filter(xs[1..], p);
      assert forall x :: x in xs <==> x == xs[0] || x in xs[1..];
      if p(xs[0]) then
        assert ([xs[0]] + rest)[1..] == rest;
        [xs[0]] + rest
      else
        SubsequenceSkip(rest, xs);
        rest
  }

  /** Filtering keeps nothing when no element passes. */
  lemma {:induction false} FilterNone<T(!new)>(xs: seq<T>, p: T -> bool)
    requires forall i :: 0 <= i < |xs| ==> !p(xs[i])
    ensures Filter(xs, p) == []
    decreases |xs|
  {
    if xs != [] {
      FilterNone(xs[1..], p);
    }
  }

  /** A subsequence of the tail is a subsequence of the whole. */
  lemma {:induction false} SubsequenceSkip<T>(xs: seq<T>, ys: seq<T>)
    requires ys != [] && IsSubsequence(xs, ys[1..])
    ensures IsSubsequence(xs, ys)
    decreases |ys|, 0
  {
    if xs != [] && xs[0] == ys[0] {
      SubsequenceTail(xs, ys[1..]);
    }
  }

  /** Dropping the first element keeps a subsequence a subsequence. */
  lemma {:induction false} SubsequenceTail<T>(xs: seq<T>, ys: seq<T>)
    requires xs != [] && IsSubsequence(xs, ys)
    ensures IsSubsequence(xs[1..], ys)
    decreases |ys|, 1
  {
    if xs[0] != ys[0] {
      SubsequenceTail(xs, ys[1..]);
    }
    SubsequenceSkip(xs[1..], ys);
  }

  /** Every element of a subsequence is an element of the whole. */
  lemma {:induction false} SubsequenceMembers<T>(xs: seq<T>, ys: seq<T>)
    requires IsSubsequence(xs, ys)
    ensures forall x :: x in xs ==> x in ys
    decreases |ys|
  {
    if xs != [] {
      if xs[0] == ys[0] {
        SubsequenceMembers(xs[1..], ys[1..]);
        assert forall x :: x in xs ==> x == xs[0] || x in xs[1..];
      } else {
        SubsequenceMembers(xs, ys[1..]);
      }
    }
  }

  /**
    Within a list without repetitions, a subsequence is determined by its
    members: two subsequences with the same members are equal.
  */
  lemma {:induction false} SubsequenceDetermined<T>(xs: seq<T>, zs: seq<T>, ys: seq<T>)
    requires Distinct(ys)
    requires IsSubsequence(xs, ys) && IsSubsequence(zs, ys)
    requires forall x :: x in xs <==> x in zs
    ensures xs == zs
    decreases |ys|
  {
    if ys != [] {
      var v := ys[0];
      assert Distinct(ys[1..]) by {
        forall i, j | 0 <= i < j < |ys[1..]|
          ensures ys[1..][i] != ys[1..][j]
        {
          assert ys[1..][i] == ys[i + 1] && ys[1..][j] == ys[j + 1];
        }
      }
      assert v !in ys[1..] by {
        forall i | 0 <= i < |ys[1..]|
          ensures ys[1..][i] != v
        {
          assert ys[1..][i] == ys[i + 1];
        }
      }
      StepPastHead(xs, ys);
      StepPastHead(zs, ys);
      if xs != [] && xs[0] == v {
        SubsequenceMembers(xs[1..], ys[1..]);
        SubsequenceMembers(zs[1..], ys[1..]);
        assert forall x :: x in xs <==> x == v || x in xs[1..];
        assert forall x :: x in zs <==> x == v || x in zs[1..];
        SubsequenceDetermined(xs[1..], zs[1..], ys[1..]);
        assert xs == [v] + xs[1..];
        assert zs == [v] + zs[1..];
      } else {
        SubsequenceDetermined(xs, zs, ys[1..]);
      }
    }
  }

  /**
    A subsequence of `ys` either starts with `ys[0]`, its rest being a
    subsequence of the tail, or lies in the tail altogether.
  */
  lemma StepPastHead<T>(xs: seq<T>, ys: seq<T>)
    requires ys != [] && IsSubsequence(xs, ys)
    requires ys[0] !in ys[1..]
    ensures ys[0] in xs <==> xs != [] && xs[0] == ys[0]
    ensures xs != [] && xs[0] == ys[0] ==> IsSubsequence(xs[1..], ys[1..])
    ensures !(xs != [] && xs[0] == ys[0]) ==> IsSubsequence(xs, ys[1..])
  {
    if xs != [] && xs[0] != ys[0] {
      SubsequenceMembers(xs, ys[1..]);
    }
  }

  /** `xs.slice(0, n)`. */
  function Take<T>(xs: seq<T>, n: nat): (r: seq<T>)
    ensures |r| == if |xs| <= n then |xs| else n
    ensures forall i :: 0 <= i < |r| ==> r[i] == xs[i]
  {
    if |xs| <= n then xs else xs[..n]
  }
}
