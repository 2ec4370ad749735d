/** The document-store queries the handlers use, over a collection held as a sequence:
    `find(query)` is Filter, `findOne(query)`/`findById` is FirstMatch and
    `deleteOne(query)` removes the position FirstMatch finds. */
module Queries {
  import opened Records

  /** The documents that match, in collection order. */
  function Filter<T(!new)>(s: seq<T>, matches: T -> bool): (r: seq<T>)
    ensures |r| <= |s|
    ensures forall x :: x in r <==> x in s && matches(x)
    ensures multiset(r) <= multiset(s)
    ensures (forall i :: 0 <= i < |s| ==> matches(s[i])) ==> r == s
  {
    if s == [] then []
    else
      var rest := Filter(s[1..], matches);
      assert s == [s[0]] + s[1..];
      if matches(s[0]) then [s[0]] + rest else rest
  }

  /** `find` answers each matching document as often as the collection holds it, and
      no other document. */
  lemma {:induction false} FilterCount<T(!new)>(s: seq<T>, matches: T -> bool)
    ensures forall x :: multiset(Filter(s, matches))[x] == if matches(x) then multiset(s)[x] else 0
  {
    if s != [] {
      FilterCount(s[1..], matches);
      assert s == [s[0]] + s[1..];
    }
  }

  /** Inserting a document at the end of the collection adds it, when it matches, at the
      end of every query's answer. */
  lemma {:induction false} FilterAppend<T(!new)>(s: seq<T>, x: T, matches: T -> bool)
    ensures Filter(s + [x], matches) == Filter(s, matches) + (if matches(x) then [x] else [])
  {
    if s == [] {
      assert [x][1..] == [];
    } else {
      assert (s + [x])[1..] == s[1..] + [x];
      FilterAppend(s[1..], x, matches);
    }
  }

  /** The position of the first matching document, if any. */
  function FirstMatch<T>(s: seq<T>, matches: T -> bool): (r: Option<nat>)
    ensures r.Some? ==> r.value < |s| && matches(s[r.value])
    ensures r.Some? ==> forall j :: 0 <= j < r.value ==> !matches(s[j])
    ensures r.None? <==> forall j :: 0 <= j < |s| ==> !matches(s[j])
  {
    if s == [] then None
    else if matches(s[0]) then Some(0)
    else
      match FirstMatch(s[1..], matches)
      case None => None
      case Some(k) => Some(k + 1)
  }

  /** The collection without its document at position i. */
  function RemoveAt<T>(s: seq<T>, i: nat): (r: seq<T>)
    requires i < |s|
    ensures |r| == |s| - 1
    ensures multiset(r) == multiset(s) - multiset{s[i]}
  {
    assert s == s[..i] + [s[i]] + s[i+1..];
    s[..i] + s[i+1..]
  }

  /** No two documents share a key (the store's `_id` index). */
  ghost predicate DistinctKeys<T>(s: seq<T>, key: T -> Id) {
    forall i, j :: 0 <= i < j < |s| ==> key(s[i]) != key(s[j])
  }

  /** The document at each position of the collection after removing position i. */
  lemma RemoveAtShifts<T>(s: seq<T>, i: nat)
    requires i < |s|
    ensures forall j :: 0 <= j < |RemoveAt(s, i)| ==> RemoveAt(s, i)[j] == if j < i then s[j] else s[j + 1]
  {
    var r := RemoveAt(s, i);
    assert r == s[..i] + s[i+1..];
    forall j | 0 <= j < |r| ensures r[j] == if j < i then s[j] else s[j + 1] {
      if j < i { assert r[j] == s[..i][j]; } else { assert r[j] == s[i+1..][j - i]; }
    }
  }

  /** Removing one position keeps the keys distinct. */
  lemma {:induction false} RemoveAtKeepsDistinct<T>(s: seq<T>, i: nat, key: T -> Id)
    requires i < |s| && DistinctKeys(s, key)
    ensures DistinctKeys(RemoveAt(s, i), key)
  {
    var r := RemoveAt(s, i);
    RemoveAtShifts(s, i);
    forall a, b | 0 <= a < b < |r| ensures key(r[a]) != key(r[b]) {
      var a' := if a < i then a else a + 1;
      var b' := if b < i then b else b + 1;
      assert r[a] == s[a'] && r[b] == s[b'] && a' < b';
    }
  }

  /** With distinct keys, removing one position removes exactly the documents with that key. */
  lemma {:induction false} RemoveAtKeepsOthers<T>(s: seq<T>, i: nat, key: T -> Id)
    requires i < |s| && DistinctKeys(s, key)
    ensures forall x :: x in RemoveAt(s, i) <==> x in s && key(x) != key(s[i])
    ensures DistinctKeys(RemoveAt(s, i), key)
  {
    var r := RemoveAt(s, i);
    RemoveAtShifts(s, i);
    RemoveAtKeepsDistinct(s, i, key);
    forall x | x in r ensures x in s && key(x) != key(s[i]) {
      var j :| 0 <= j < |r| && r[j] == x;
      var j' := if j < i then j else j + 1;
      assert x == s[j'] && j' != i;
    }
    forall x | x in s && key(x) != key(s[i]) ensures x in r {
      var k :| 0 <= k < |s| && s[k] == x;
      assert k != i;
      if k < i { assert r[k] == x; } else { assert r[k - 1] == x; }
    }
  }
}
