// Sequences without repetition and the sets of their elements.
module Sequences {
  ghost function Elems(s: seq<int>): set<int>
  {
    set x | x in s
  }

  ghost predicate Distinct(s: seq<int>)
  {
    forall i, j :: 0 <= i < j < |s| ==> s[i] != s[j]
  }

  lemma ElemsJoin(a: seq<int>, b: seq<int>)
    ensures Elems(a + b) == Elems(a) + Elems(b)
  {
  }

  lemma {:induction false} DistinctCount(s: seq<int>)
    requires Distinct(s)
    ensures |Elems(s)| == |s|
  {
    if s != [] {
      DistinctCount(s[1..]);
      assert Elems(s) == {s[0]} + Elems(s[1..]);
    }
  }

  lemma DistinctJoin(a: seq<int>, b: seq<int>)
    requires Distinct(a) && Distinct(b) && forall x :: x in a ==> x !in b
    ensures Distinct(a + b)
  {
    forall i, j | 0 <= i < j < |a + b|
      ensures (a + b)[i] != (a + b)[j]
    {
      if i < |a| <= j {
        assert a[i] in a && b[j - |a|] in b;
      }
    }
  }

  lemma PrefixStep<T>(s: seq<T>, k: nat)
    requires k < |s|
    ensures s[..k + 1] == s[..k] + [s[k]]
  {
  }

  lemma TailElems(cs: seq<int>, i: nat)
    requires Distinct(cs) && i < |cs|
    ensures cs[i] in Elems(cs[i..]) && Elems(cs[i + 1..]) == Elems(cs[i..]) - {cs[i]}
    ensures cs[i..][0] == cs[i] && cs[i..][1..] == cs[i + 1..]
  {
    assert cs[i..] == [cs[i]] + cs[i + 1..];
  }

  // Each element but the last leads to the next.
  ghost predicate Chained(link: int -> int, s: seq<int>)
  {
    forall i :: 0 <= i < |s| - 1 ==> link(s[i]) == s[i + 1]
  }

  lemma ChainedJoin(link: int -> int, a: seq<int>, b: seq<int>)
    requires Chained(link, a) && Chained(link, b)
    requires a != [] && (b != [] ==> link(a[|a| - 1]) == b[0])
    ensures Chained(link, a + b)
  {
    var w := a + b;
    forall i | 0 <= i < |w| - 1
      ensures link(w[i]) == w[i + 1]
    {
      if i < |a| - 1 {
        assert w[i] == a[i] && w[i + 1] == a[i + 1];
      } else if i >= |a| {
        assert w[i] == b[i - |a|] && w[i + 1] == b[i - |a| + 1];
      }
    }
  }

  lemma ChainedDrop(link: int -> int, s: seq<int>, k: nat)
    requires Chained(link, s) && k <= |s|
    ensures Chained(link, s[k..])
  {
    var w := s[k..];
    forall i | 0 <= i < |w| - 1
      ensures link(w[i]) == w[i + 1]
    {
      assert w[i] == s[k + i] && w[i + 1] == s[k + i + 1];
    }
  }
}
