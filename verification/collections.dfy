/**
 * The document-store primitives the repositories rely on, over one collection.
 * A collection is a sequence of documents in the store's natural (insertion)
 * order; `key` gives a document's primary key, `fk` the foreign key a query
 * filters on. The store keeps a unique index on the primary key.
 */
module Collections {
  import opened Entities

  /** What a replace or a delete reports: the collection afterwards and the matched or deleted count. */
  datatype WriteResult<T> = WriteResult(docs: seq<T>, count: nat)

  predicate HasKey<T>(s: seq<T>, key: T -> Id, id: Id)
  {
    exists i | 0 <= i < |s| :: key(s[i]) == id
  }

  ghost predicate UniqueKeys<T>(s: seq<T>, key: T -> Id)
  {
    forall i, j | 0 <= i < j < |s| :: key(s[i]) != key(s[j])
  }

  /** The unique index on the primary key holds, and no document has the empty id. */
  ghost predicate WellKeyed<T>(s: seq<T>, key: T -> Id)
  {
    UniqueKeys(s, key) && !HasKey(s, key, EmptyId)
  }

  /** `after` is `before` with the document whose key is that of `x` replaced by `x`, in place. */
  ghost predicate ReplacedByKey<T>(before: seq<T>, after: seq<T>, key: T -> Id, x: T)
  {
    && |after| == |before|
    && forall i | 0 <= i < |before| :: after[i] == if key(before[i]) == key(x) then x else before[i]
  }

  /** Position of the first document with key `id`. */
  function IndexOf<T>(s: seq<T>, key: T -> Id, id: Id): (r: Option<nat>)
    ensures r.None? <==> !HasKey(s, key, id)
    ensures r.Some? ==> r.value < |s| && key(s[r.value]) == id
    ensures r.Some? ==> forall j | 0 <= j < r.value :: key(s[j]) != id
  {
    if |s| == 0 then None
    else if key(s[0]) == id then Some(0)
    else
      match IndexOf(s[1..], key, id)
      case None =>
        assert forall i | 1 <= i < |s| :: s[i] == s[1..][i - 1];
        None
      case Some(i) => Some(i + 1)
  }

  /** The first document with key `id`, or None: a point lookup (`FirstOrDefault`). */
  function FindFirst<T>(s: seq<T>, key: T -> Id, id: Id): (r: Option<T>)
    ensures r.None? <==> !HasKey(s, key, id)
    ensures r.Some? ==> r.value in s && key(r.value) == id
  {
    match IndexOf(s, key, id)
    case None => None
    case Some(i) => Some(s[i])
  }

  /**
   * The documents whose foreign key equals `id` (`matching`) or differs from it
   * (`!matching`), in collection order: a find, or what a delete-many leaves.
   */
  function Filter<T>(s: seq<T>, fk: T -> Id, id: Id, matching: bool): (r: seq<T>)
    ensures |r| <= |s|
    ensures forall x | x in r :: x in s && (fk(x) == id) == matching
    ensures forall x | x in s && (fk(x) == id) == matching :: x in r
  {
    if s == [] then []
    else
      assert forall x | x in s :: x == s[0] || x in s[1..];
      (if (fk(s[0]) == id) == matching then [s[0]] else []) + Filter(s[1..], fk, id, matching)
  }

  /** An insert: None when the unique index already holds the key of `x` (a duplicate-key error). */
  function InsertOne<T>(s: seq<T>, key: T -> Id, x: T): (r: Option<seq<T>>)
    ensures r.None? <==> HasKey(s, key, key(x))
    ensures r.Some? ==> r.value == s + [x]
    ensures r.Some? ==> forall id :: HasKey(r.value, key, id) <==> HasKey(s, key, id) || id == key(x)
    ensures r.Some? && UniqueKeys(s, key) ==> UniqueKeys(r.value, key)
  {
    if HasKey(s, key, key(x)) then None
    else
      HasKeyAppend(s, key, x);
      Some(s + [x])
  }

  lemma HasKeyAppend<T>(s: seq<T>, key: T -> Id, x: T)
    ensures forall id :: HasKey(s + [x], key, id) <==> HasKey(s, key, id) || id == key(x)
  {
    var t := s + [x];
    forall id
      ensures HasKey(t, key, id) <==> HasKey(s, key, id) || id == key(x)
    {
      if HasKey(s, key, id) {
        var i :| 0 <= i < |s| && key(s[i]) == id;
        assert t[i] == s[i];
      }
      assert t[|s|] == x;
      if HasKey(t, key, id) {
        var i :| 0 <= i < |t| && key(t[i]) == id;
        if i < |s| {
          assert t[i] == s[i];
        }
      }
    }
  }

  /** A replace by primary key: the first document with the key of `x` becomes `x`; the count is the matched count. */
  function ReplaceOne<T>(s: seq<T>, key: T -> Id, x: T): (r: WriteResult<T>)
    ensures r.count <= 1
    ensures r.count == 0 <==> !HasKey(s, key, key(x))
    ensures r.count == 0 ==> r.docs == s
    ensures |r.docs| == |s|
    ensures forall j | 0 <= j < |s| :: key(r.docs[j]) == key(s[j])
    ensures forall j | 0 <= j < |s| && key(s[j]) != key(x) :: r.docs[j] == s[j]
    ensures UniqueKeys(s, key) && r.count == 1 ==> ReplacedByKey(s, r.docs, key, x)
  {
    match IndexOf(s, key, key(x))
    case None => WriteResult(s, 0)
    case Some(i) => WriteResult(s[i := x], 1)
  }

  /** A delete by primary key: removes the first document with key `id`; the count is the deleted count. */
  function DeleteOne<T>(s: seq<T>, key: T -> Id, id: Id): (r: WriteResult<T>)
    ensures r.count <= 1
    ensures r.count == 0 <==> !HasKey(s, key, id)
    ensures r.count == 0 ==> r.docs == s
    ensures |r.docs| == |s| - r.count
    ensures UniqueKeys(s, key) ==> r.docs == Filter(s, key, id, false)
  {
    match IndexOf(s, key, id)
    case None =>
      FilterKeepsAll(s, key, id, false);
      WriteResult(s, 0)
    case Some(i) =>
      RemoveFirstIsFilter(s, key, i);
      WriteResult(s[..i] + s[i + 1..], 1)
  }

  /** A delete by foreign key: removes every document whose `fk` is `id`; the count is how many went. */
  function DeleteMany<T>(s: seq<T>, fk: T -> Id, id: Id): (r: WriteResult<T>)
    ensures r.docs == Filter(s, fk, id, false)
    ensures r.count == |Filter(s, fk, id, true)|
    ensures |r.docs| + r.count == |s|
  {
    FilterPartition(s, fk, id);
    var rest := Filter(s, fk, id, false);
    WriteResult(rest, |s| - |rest|)
  }

  /** An identifier not yet used in the collection, standing in for a freshly generated ObjectId. */
  function FreshKey<T>(s: seq<T>, key: T -> Id): (id: Id)
    ensures id != EmptyId
    ensures !HasKey(s, key, id)
  {
    MaxKey(s, key) + 1
  }

  function MaxKey<T>(s: seq<T>, key: T -> Id): (m: Id)
    ensures forall i | 0 <= i < |s| :: key(s[i]) <= m
  {
    if s == [] then 0
    else
      var m := MaxKey(s[1..], key);
      assert forall i | 1 <= i < |s| :: s[i] == s[1..][i - 1];
      if key(s[0]) > m then key(s[0]) else m
  }

  /** Appending a document with another key does not move the first match. */
  lemma {:induction false} IndexOfAppendOther<T>(s: seq<T>, key: T -> Id, x: T, id: Id)
    requires key(x) != id
    ensures IndexOf(s + [x], key, id) == IndexOf(s, key, id)
  {
    if s != [] {
      assert (s + [x])[1..] == s[1..] + [x];
      IndexOfAppendOther(s[1..], key, x, id);
    }
  }

  /** Filtering keeps collection order: it distributes over concatenation. */
  lemma {:induction false} FilterAppend<T>(a: seq<T>, b: seq<T>, fk: T -> Id, id: Id, matching: bool)
    ensures Filter(a + b, fk, id, matching) == Filter(a, fk, id, matching) + Filter(b, fk, id, matching)
  {
    if a == [] {
      assert a + b == b;
    } else {
      assert (a + b)[0] == a[0];
      assert (a + b)[1..] == a[1..] + b;
      FilterAppend(a[1..], b, fk, id, matching);
    }
  }

  /** The matching and the non-matching documents split the collection between them. */
  lemma {:induction false} FilterPartition<T>(s: seq<T>, fk: T -> Id, id: Id)
    ensures |Filter(s, fk, id, true)| + |Filter(s, fk, id, false)| == |s|
    ensures multiset(Filter(s, fk, id, true)) + multiset(Filter(s, fk, id, false)) == multiset(s)
  {
    if s != [] {
      FilterPartition(s[1..], fk, id);
      assert s == [s[0]] + s[1..];
    }
  }

  /** A collection in which nothing is to be dropped is its own filter. */
  lemma {:induction false} FilterKeepsAll<T>(s: seq<T>, fk: T -> Id, id: Id, matching: bool)
    requires forall i | 0 <= i < |s| :: (fk(s[i]) == id) == matching
    ensures Filter(s, fk, id, matching) == s
  {
    if s != [] {
      FilterKeepsAll(s[1..], fk, id, matching);
    }
  }

  /** Filtering the survivors of a delete-many for the deleted key finds nothing. */
  lemma {:induction false} FilterAfterDeleteMany<T>(s: seq<T>, fk: T -> Id, id: Id)
    ensures Filter(DeleteMany(s, fk, id).docs, fk, id, true) == []
  {
    if s != [] {
      FilterAfterDeleteMany(s[1..], fk, id);
      var head := if fk(s[0]) != id then [s[0]] else [];
      FilterAppend(head, Filter(s[1..], fk, id, false), fk, id, true);
    }
  }

  lemma HasKeyMember<T>(s: seq<T>, key: T -> Id, id: Id)
    ensures HasKey(s, key, id) <==> exists x :: x in s && key(x) == id
  {
    if exists x :: x in s && key(x) == id {
      var x :| x in s && key(x) == id;
      var i :| 0 <= i < |s| && s[i] == x;
    }
  }

  /** A filtered collection still satisfies the unique index and still has no empty id. */
  lemma {:induction false} FilterKeepsWellKeyed<T>(s: seq<T>, key: T -> Id, fk: T -> Id, id: Id, matching: bool)
    requires WellKeyed(s, key)
    ensures WellKeyed(Filter(s, fk, id, matching), key)
  {
    var r := Filter(s, fk, id, matching);
    if s != [] {
      assert WellKeyed(s[1..], key) by {
        assert forall i | 0 <= i < |s| - 1 :: s[1..][i] == s[i + 1];
        HasKeyMember(s, key, EmptyId);
        HasKeyMember(s[1..], key, EmptyId);
      }
      FilterKeepsWellKeyed(s[1..], key, fk, id, matching);
      var tail := Filter(s[1..], fk, id, matching);
      forall y | y in tail
        ensures key(y) != key(s[0])
      {
        var j :| 0 <= j < |s[1..]| && s[1..][j] == y;
        assert s[j + 1] == y;
      }
      var head := if (fk(s[0]) == id) == matching then [s[0]] else [];
      assert r == head + tail;
      forall i, j | 0 <= i < j < |r|
        ensures key(r[i]) != key(r[j])
      {
        if head != [] && i == 0 {
          assert r[j] == tail[j - 1];
          assert r[j] in tail;
        } else {
          assert r[i] == tail[i - |head|] && r[j] == tail[j - |head|];
        }
      }
      HasKeyMember(s, key, EmptyId);
      HasKeyMember(r, key, EmptyId);
    }
  }

  /**
   * Under the unique index, removing the first document with a key removes
   * exactly the documents with that key, keeping the others in order.
   */
  lemma RemoveFirstIsFilter<T>(s: seq<T>, key: T -> Id, i: nat)
    requires i < |s|
    requires forall j | 0 <= j < i :: key(s[j]) != key(s[i])
    ensures UniqueKeys(s, key) ==> s[..i] + s[i + 1..] == Filter(s, key, key(s[i]), false)
  {
    if UniqueKeys(s, key) {
      var a, b := s[..i], s[i + 1..];
      assert s == a + [s[i]] + b;
      forall j | 0 <= j < |b|
        ensures key(b[j]) != key(s[i])
      {
        assert b[j] == s[i + 1 + j];
      }
      FilterDropsOne(a, s[i], b, key, key(s[i]));
    }
  }

  lemma FilterDropsOne<T>(a: seq<T>, x: T, b: seq<T>, key: T -> Id, id: Id)
    requires forall j | 0 <= j < |a| :: key(a[j]) != id
    requires key(x) == id
    requires forall j | 0 <= j < |b| :: key(b[j]) != id
    ensures Filter(a + [x] + b, key, id, false) == a + b
  {
    FilterKeepsAll(a, key, id, false);
    FilterKeepsAll(b, key, id, false);
    assert [x][1..] == [];
    assert Filter([x], key, id, false) == [];
    FilterAppend(a, [x], key, id, false);
    assert Filter(a + [x], key, id, false) == a;
    FilterAppend(a + [x], b, key, id, false);
  }

  /** A document inserted under a fresh key is what a point lookup for that key then finds. */
  lemma InsertThenFind<T>(s: seq<T>, key: T -> Id, x: T)
    requires !HasKey(s, key, key(x))
    ensures InsertOne(s, key, x).Some?
    ensures FindFirst(InsertOne(s, key, x).value, key, key(x)) == Some(x)
  {
    var t := s + [x];
    assert t[|s|] == x;
  }
}
