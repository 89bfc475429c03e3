/**
 * The list operations the favorites handlers apply to `user.favorites`:
 * `includes`, `push`, `indexOf` and `splice(index, 1)`.
 */
module Favorites {
  import opened Ids

  /** No movie appears twice. */
  predicate NoDuplicates(s: seq<ObjectId>) {
    forall i, j :: 0 <= i < j < |s| ==> s[i] != s[j]
  }

  /** Array.prototype.indexOf: the first position of `m`, or -1. */
  function IndexOf(s: seq<ObjectId>, m: ObjectId): (r: int)
    ensures -1 <= r < |s|
    ensures r == -1 <==> m !in s
    ensures 0 <= r ==> s[r] == m && m !in s[..r]
  {
    if s == [] then -1
    else if s[0] == m then 0
    else
      var k := IndexOf(s[1..], m);
      assert s[1..][..if k < 0 then 0 else k] == s[1..if k < 0 then 1 else k + 1];
      if k < 0 then -1 else k + 1
  }

  /** `splice(i, 1)`: drop position `i`, keep the rest in order. */
  function Splice(s: seq<ObjectId>, i: nat): (r: seq<ObjectId>)
    requires i < |s|
    ensures |r| == |s| - 1
    ensures forall k :: 0 <= k < i ==> r[k] == s[k]
    ensures forall k :: i <= k < |r| ==> r[k] == s[k + 1]
  {
    s[..i] + s[i + 1..]
  }

  /** Reference definition: the list without the first occurrence of `m`. */
  function WithoutFirst(s: seq<ObjectId>, m: ObjectId): seq<ObjectId> {
    if s == [] then []
    else if s[0] == m then s[1..]
    else [s[0]] + WithoutFirst(s[1..], m)
  }

  /** Splicing at indexOf removes exactly the first occurrence. */
  lemma {:induction false} SpliceAtIndexOf(s: seq<ObjectId>, m: ObjectId)
    requires m in s
    ensures Splice(s, IndexOf(s, m)) == WithoutFirst(s, m)
  {
    if s[0] != m {
      SpliceAtIndexOf(s[1..], m);
      assert Splice(s, IndexOf(s, m)) == [s[0]] + Splice(s[1..], IndexOf(s[1..], m));
    }
  }

  /** Removing the first occurrence takes exactly one copy of `m` out of the multiset. */
  lemma {:induction false} WithoutFirstMultiset(s: seq<ObjectId>, m: ObjectId)
    requires m in s
    ensures multiset(WithoutFirst(s, m)) == multiset(s) - multiset{m}
  {
    assert s == [s[0]] + s[1..];
    if s[0] != m {
      WithoutFirstMultiset(s[1..], m);
    }
  }

  /** Pushing an absent movie keeps the list free of duplicates. */
  lemma PushKeepsNoDuplicates(s: seq<ObjectId>, m: ObjectId)
    requires NoDuplicates(s) && m !in s
    ensures NoDuplicates(s + [m])
  {
  }

  /** On a list without duplicates, removal leaves no copy of `m` and no duplicate. */
  lemma SpliceKeepsNoDuplicates(s: seq<ObjectId>, m: ObjectId)
    requires NoDuplicates(s) && m in s
    ensures NoDuplicates(Splice(s, IndexOf(s, m)))
    ensures m !in Splice(s, IndexOf(s, m))
  {
    var i := IndexOf(s, m);
    var r := Splice(s, i);
    forall a, b | 0 <= a < b < |r| ensures r[a] != r[b] {
      var a', b' := if a < i then a else a + 1, if b < i then b else b + 1;
      assert r[a] == s[a'] && r[b] == s[b'];
    }
  }

  /** Adding an absent movie and then removing it gives the original list back. */
  lemma PushThenSplice(s: seq<ObjectId>, m: ObjectId)
    requires m !in s
    ensures IndexOf(s + [m], m) == |s|
    ensures Splice(s + [m], IndexOf(s + [m], m)) == s
  {
    var t := s + [m];
    assert t[..|s|] == s;
    assert t[|s|] == m;
  }
}
