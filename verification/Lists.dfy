/** Finding and erasing the first occurrence of an element in a list. */
module Lists {

  /** Index of the first `x`, or the length of the list. */
  function IndexOf(s: seq<int>, x: int): (i: nat)
    ensures i <= |s|
    ensures i < |s| ==> s[i] == x
    ensures i == |s| <==> x !in s
  {
    if s == [] then 0 else if s[0] == x then 0 else 1 + IndexOf(s[1..], x)
  }

  function RemoveFirst(s: seq<int>, x: int): seq<int> {
    var i := IndexOf(s, x);
    if i < |s| then s[..i] + s[i + 1..] else s
  }

  method FindIndex(s: seq<int>, x: int) returns (i: nat)
    ensures i == IndexOf(s, x)
  {
    i := 0;
    while i < |s| && s[i] != x
      invariant i <= |s|
      invariant i + IndexOf(s[i..], x) == IndexOf(s, x)
    {
      assert s[i..][1..] == s[i + 1..];
      i := i + 1;
    }
  }

  lemma RemoveMultiset<T>(v: seq<T>, k: nat)
    requires k < |v|
    ensures multiset(v[..k] + v[k + 1..]) == multiset(v) - multiset{v[k]}
  {
    assert v == v[..k] + ([v[k]] + v[k + 1..]);
  }

  /** Removing the same element from two lists of the same elements. */
  lemma RemoveSame<T>(a: seq<T>, j: nat, b: seq<T>, k: nat)
    requires j < |a| && k < |b| && a[j] == b[k] && multiset(a) == multiset(b)
    ensures multiset(a[..j] + a[j + 1..]) == multiset(b[..k] + b[k + 1..])
  {
    RemoveMultiset(a, j);
    RemoveMultiset(b, k);
  }

  /** Erasing the first occurrence takes away one copy, if there is one. */
  lemma RemoveFirstMultiset(s: seq<int>, x: int)
    ensures multiset(RemoveFirst(s, x)) == multiset(s) - multiset{x}
  {
    var i := IndexOf(s, x);
    if i < |s| {
      RemoveMultiset(s, i);
    } else {
      assert x !in multiset(s);
    }
  }

  ghost predicate Distinct(s: seq<int>) {
    forall i, j :: 0 <= i < j < |s| ==> s[i] != s[j]
  }

  /** In a list without duplicates, erasing an element removes it for good and keeps the rest. */
  lemma RemoveFirstDistinct(s: seq<int>, x: int)
    requires Distinct(s)
    ensures Distinct(RemoveFirst(s, x))
    ensures forall y :: y in RemoveFirst(s, x) <==> y in s && y != x
  {
    var i := IndexOf(s, x);
    var t := RemoveFirst(s, x);
    if i < |s| {
      assert forall j :: 0 <= j < |t| ==> t[j] == s[if j < i then j else j + 1];
      forall y | y in s && y != x
        ensures y in t
      {
        var j :| 0 <= j < |s| && s[j] == y;
        assert t[if j < i then j else j - 1] == y;
      }
    }
  }

  lemma AppendDistinct(s: seq<int>, x: int)
    requires Distinct(s) && x !in s
    ensures Distinct(s + [x])
  {
  }
}
