/** Order-preserving selection from sequences: the model of Python's
    `[x for x in xs if p(x)]`. */
module Seqs {

  /** The elements of `s` that satisfy `p`, in their order in `s`. */
  function Filter<T>(s: seq<T>, p: T -> bool): (r: seq<T>)
    ensures |r| <= |s|
    ensures forall i :: 0 <= i < |r| ==> r[i] in s && p(r[i])
    ensures forall i :: 0 <= i < |s| && p(s[i]) ==> s[i] in r
  {
    if s == [] then []
    else if p(s[0]) then [s[0]] + Filter(s[1..], p)
    else Filter(s[1..], p)
  }

  /** Selecting from a concatenation selects from each part in turn. */
  lemma {:induction false} FilterConcat<T>(a: seq<T>, b: seq<T>, p: T -> bool)
    ensures Filter(a + b, p) == Filter(a, p) + Filter(b, p)
  {
    if a == [] {
      assert a + b == b;
    } else {
      assert (a + b)[1..] == a[1..] + b;
      FilterConcat(a[1..], b, p);
    }
  }

  /** Nothing is selected exactly when no element satisfies `p`. */
  lemma {:induction false} FilterEmptyIff<T>(s: seq<T>, p: T -> bool)
    ensures Filter(s, p) == [] <==> forall i :: 0 <= i < |s| ==> !p(s[i])
  {
    if s != [] && !p(s[0]) {
      FilterEmptyIff(s[1..], p);
      forall i | 0 <= i < |s| && i > 0
        ensures s[i] == s[1..][i - 1]
      {
      }
    }
  }

  /** No element occurs twice. */
  predicate Distinct<T(==)>(s: seq<T>) {
    forall i, j :: 0 <= i < j < |s| ==> s[i] != s[j]
  }

  /** `s` without the first occurrence of `x`, the rest in order. */
  function RemoveFirst<T(==)>(s: seq<T>, x: T): (r: seq<T>)
  {
    if s == [] then []
    else if s[0] == x then s[1..]
    else [s[0]] + RemoveFirst(s[1..], x)
  }

  /** Removing a key from a list of distinct keys leaves the other keys,
      each once. */
  lemma {:induction false} RemoveFirstDistinct<T>(s: seq<T>, x: T)
    requires Distinct(s)
    ensures Distinct(RemoveFirst(s, x))
    ensures forall k :: k in RemoveFirst(s, x) <==> k in s && k != x
  {
    if s != [] && s[0] != x {
      assert Distinct(s[1..]) by {
        forall i, j | 0 <= i < j < |s[1..]|
          ensures s[1..][i] != s[1..][j]
        {
          assert s[1..][i] == s[i + 1] && s[1..][j] == s[j + 1];
        }
      }
      RemoveFirstDistinct(s[1..], x);
      var r := RemoveFirst(s, x);
      assert r == [s[0]] + RemoveFirst(s[1..], x);
      assert s[0] !in s[1..] by {
        forall i | 0 <= i < |s[1..]|
          ensures s[1..][i] != s[0]
        {
          assert s[1..][i] == s[i + 1];
        }
      }
      forall k
        ensures k in r <==> k in s && k != x
      {
        assert k in s <==> k == s[0] || k in s[1..];
      }
    } else if s != [] {
      forall k
        ensures k in s[1..] <==> k in s && k != x
      {
        assert k in s <==> k == s[0] || k in s[1..];
        if k in s[1..] {
          var i :| 0 <= i < |s[1..]| && s[1..][i] == k;
          assert s[i + 1] == k;
        }
      }
      assert Distinct(s[1..]) by {
        forall i, j | 0 <= i < j < |s[1..]|
          ensures s[1..][i] != s[1..][j]
        {
          assert s[1..][i] == s[i + 1] && s[1..][j] == s[j + 1];
        }
      }
    }
  }

  /** `r` is obtained from `s` by deleting elements, keeping the rest in order. */
  ghost predicate IsSubsequence<T>(r: seq<T>, s: seq<T>)
    decreases |s|
  {
    if r == [] then true
    else if s == [] then false
    else if r[0] == s[0] then IsSubsequence(r[1..], s[1..])
    else IsSubsequence(r, s[1..])
  }

  /** Every sequence is a subsequence of itself. */
  lemma {:induction false} SubsequenceRefl<T>(s: seq<T>)
    ensures IsSubsequence(s, s)
  {
    if s != [] {
      SubsequenceRefl(s[1..]);
    }
  }

  /** Filtering keeps the relative order of what it keeps. */
  lemma {:induction false} FilterIsSubsequence<T>(s: seq<T>, p: T -> bool)
    ensures IsSubsequence(Filter(s, p), s)
  {
    if s != [] {
      FilterIsSubsequence(s[1..], p);
      if p(s[0]) {
        assert Filter(s, p) == [s[0]] + Filter(s[1..], p);
        assert Filter(s, p)[1..] == Filter(s[1..], p);
      }
    }
  }
}
