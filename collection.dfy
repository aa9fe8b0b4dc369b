/**
 * A MongoDB collection as the handlers use it: a sequence of documents in
 * natural (insertion) order, each with an `_id` and a `createdAt` stamp,
 * and the queries and update operators the handlers issue against it
 * (`findById`, `findOne`, `findByIdAndDelete`, `findByIdAndUpdate`,
 * `find().sort().skip().limit()`, `$addToSet`, `$pull`).
 */
module Collection {

  import opened Base

  datatype Doc<T> = Doc(id: Id, createdAt: nat, body: T)

  /** No two documents of a collection share an `_id`. */
  ghost predicate UniqueIds<T(!new)>(s: seq<Doc<T>>)
  {
    forall i, j :: 0 <= i < j < |s| ==> s[i].id != s[j].id
  }

  /** Every id in the collection was handed out before `bound`. */
  ghost predicate IdsBelow<T(!new)>(s: seq<Doc<T>>, bound: nat)
  {
    forall d :: d in s ==> d.id.n < bound
  }

  /** `Model.findById(id)`: the document with that id, or null. */
  function FindById<T(!new)>(s: seq<Doc<T>>, id: Id): (r: Option<Doc<T>>)
    ensures r.Some? ==> r.value in s && r.value.id == id
    ensures r.None? <==> forall d :: d in s ==> d.id != id
  {
    if s == [] then None
    else if s[0].id == id then Some(s[0])
    else FindById(s[1..], id)
  }

  /** With unique ids, `findById` returns exactly the stored document. */
  lemma {:induction false} FindByIdUnique<T(!new)>(s: seq<Doc<T>>, i: nat)
    requires UniqueIds(s) && i < |s|
    ensures FindById(s, s[i].id) == Some(s[i])
  {
    if i > 0 {
      assert s[0].id != s[i].id;
      assert s[1..][i - 1] == s[i];
      FindByIdUnique(s[1..], i - 1);
    }
  }

  /** `Model.findByIdAndDelete(id)`: the collection without the document that has this id,
      every other document kept in its order. */
  function RemoveById<T(!new)>(s: seq<Doc<T>>, id: Id): (r: seq<Doc<T>>)
    ensures |r| <= |s|
  {
    if s == [] then []
    else if s[0].id == id then RemoveById(s[1..], id)
    else [s[0]] + RemoveById(s[1..], id)
  }

  /** A delete keeps exactly the documents with another id. */
  lemma {:induction false} RemoveByIdMembers<T(!new)>(s: seq<Doc<T>>, id: Id)
    ensures forall d :: d in RemoveById(s, id) <==> d in s && d.id != id
  {
    if s != [] {
      RemoveByIdMembers(s[1..], id);
      assert s == [s[0]] + s[1..];
    }
  }

  lemma {:induction false} RemoveByIdKeepsUnique<T(!new)>(s: seq<Doc<T>>, id: Id)
    requires UniqueIds(s)
    ensures UniqueIds(RemoveById(s, id))
  {
    if s != [] {
      RemoveByIdKeepsUnique(s[1..], id);
      RemoveByIdMembers(s[1..], id);
      var rest := RemoveById(s[1..], id);
      forall j | 0 <= j < |rest| ensures rest[j].id != s[0].id {
        assert rest[j] in s[1..];
        var k :| 0 <= k < |s[1..]| && s[1..][k] == rest[j];
        assert s[k + 1] == rest[j];
      }
    }
  }

  lemma {:induction false} RemoveByIdAbsent<T(!new)>(s: seq<Doc<T>>, id: Id)
    requires forall j :: 0 <= j < |s| ==> s[j].id != id
    ensures RemoveById(s, id) == s
  {
    if s != [] {
      RemoveByIdAbsent(s[1..], id);
    }
  }

  lemma {:induction false} RemoveByIdConcat<T(!new)>(a: seq<Doc<T>>, b: seq<Doc<T>>, id: Id)
    ensures RemoveById(a + b, id) == RemoveById(a, id) + RemoveById(b, id)
  {
    if a != [] {
      assert (a + b)[1..] == a[1..] + b;
      RemoveByIdConcat(a[1..], b, id);
    } else {
      assert a + b == b;
    }
  }

  /** Deleting by the id of a document that no other document shares drops that document alone. */
  lemma RemoveByIdMiddle<T(!new)>(a: seq<Doc<T>>, d: Doc<T>, b: seq<Doc<T>>)
    requires forall j :: 0 <= j < |a| ==> a[j].id != d.id
    requires forall j :: 0 <= j < |b| ==> b[j].id != d.id
    ensures RemoveById(a + [d] + b, d.id) == a + b
  {
    assert a + [d] + b == a + ([d] + b);
    assert ([d] + b)[1..] == b;
    RemoveByIdConcat(a, [d] + b, d.id);
    RemoveByIdAbsent(a, d.id);
    RemoveByIdAbsent(b, d.id);
  }

  /** With unique ids, deleting by the id of the i-th document removes that document and no other. */
  lemma RemoveByIdAt<T(!new)>(s: seq<Doc<T>>, i: nat)
    requires UniqueIds(s) && i < |s|
    ensures RemoveById(s, s[i].id) == s[..i] + s[i + 1..]
  {
    forall j | 0 <= j < |s| && j != i ensures s[j].id != s[i].id {
      if j < i {
        assert s[j].id != s[i].id;
      }
    }
    RemoveByIdOnly(s, i);
  }

  /** Deleting by the id of the i-th document, when no other document has that id. */
  lemma RemoveByIdOnly<T(!new)>(s: seq<Doc<T>>, i: nat)
    requires i < |s| && forall j :: 0 <= j < |s| && j != i ==> s[j].id != s[i].id
    ensures RemoveById(s, s[i].id) == s[..i] + s[i + 1..]
  {
    var a, b := s[..i], s[i + 1..];
    forall j | 0 <= j < |a| ensures a[j].id != s[i].id {
      assert a[j] == s[j];
    }
    forall j | 0 <= j < |b| ensures b[j].id != s[i].id {
      assert b[j] == s[i + 1 + j];
    }
    assert s == a + [s[i]] + b;
    RemoveByIdMiddle(a, s[i], b);
  }

  /** `findByIdAndUpdate(id, ...)` on a found document: its body becomes `b`; ids, stamps and
      every other document stay as they were. */
  function SetById<T(!new)>(s: seq<Doc<T>>, id: Id, b: T): (r: seq<Doc<T>>)
    ensures |r| == |s|
    ensures forall k :: 0 <= k < |s| ==> r[k].id == s[k].id && r[k].createdAt == s[k].createdAt
    ensures forall k :: 0 <= k < |s| ==> r[k].body == if s[k].id == id then b else s[k].body
  {
    seq(|s|, k requires 0 <= k < |s| => if s[k].id == id then s[k].(body := b) else s[k])
  }

  lemma SetByIdKeepsIds<T(!new)>(s: seq<Doc<T>>, id: Id, b: T, bound: nat)
    requires UniqueIds(s) && IdsBelow(s, bound)
    ensures UniqueIds(SetById(s, id, b)) && IdsBelow(SetById(s, id, b), bound)
  {
    var r := SetById(s, id, b);
    forall d | d in r ensures d.id.n < bound {
      var k :| 0 <= k < |r| && r[k] == d;
      assert s[k] in s;
    }
  }

  /** After setting the body under `id`, a lookup finds the same document as before, with the
      new body when it is the one under `id`. */
  lemma {:induction false} FindSetById<T(!new)>(s: seq<Doc<T>>, id: Id, b: T, id': Id)
    ensures FindById(SetById(s, id, b), id') ==
            match FindById(s, id')
            case None => None
            case Some(d) => Some(if d.id == id then d.(body := b) else d)
  {
    if s != [] {
      assert SetById(s, id, b)[1..] == SetById(s[1..], id, b);
      FindSetById(s[1..], id, b, id');
    }
  }

  /** A second update under the same id overrides the first. */
  lemma SetByIdTwice<T(!new)>(s: seq<Doc<T>>, id: Id, b1: T, b2: T)
    ensures SetById(SetById(s, id, b1), id, b2) == SetById(s, id, b2)
  {
  }

  /** Writing back the body that is stored under `id` changes nothing, when ids are unique. */
  lemma SetByIdSame<T(!new)>(s: seq<Doc<T>>, id: Id)
    requires UniqueIds(s) && FindById(s, id).Some?
    ensures SetById(s, id, FindById(s, id).value.body) == s
  {
    var d := FindById(s, id).value;
    forall k | 0 <= k < |s| && s[k].id == id ensures s[k] == d {
      assert s[k] in s;
    }
  }

  /** The collection after `findByIdAndUpdate(id, update)`: the document with that id, if there
      is one, gets the updated body. */
  function UpdateById<T(!new)>(s: seq<Doc<T>>, id: Id, update: T -> T): seq<Doc<T>>
  {
    match FindById(s, id)
    case None => s
    case Some(d) => SetById(s, id, update(d.body))
  }

  /** What `findByIdAndUpdate(id, update, { new: true })` answers: the updated document, or null. */
  function UpdatedOne<T(!new)>(s: seq<Doc<T>>, id: Id, update: T -> T): Option<Doc<T>>
  {
    match FindById(s, id)
    case None => None
    case Some(d) => Some(d.(body := update(d.body)))
  }

  /** An update touches only the document with that id: a lookup afterwards finds the answered
      document under that id and the same document as before under every other id; ids and
      their bound are kept. */
  lemma UpdateByIdFrames<T(!new)>(s: seq<Doc<T>>, id: Id, update: T -> T, other: Id)
    ensures FindById(UpdateById(s, id, update), id) == UpdatedOne(s, id, update)
    ensures other != id ==> FindById(UpdateById(s, id, update), other) == FindById(s, other)
  {
    var found := FindById(s, id);
    if found.Some? {
      FindSetById(s, id, update(found.value.body), id);
      FindSetById(s, id, update(found.value.body), other);
    }
  }

  /** A query filter: the documents (or values) satisfying `p`, in their stored order. */
  function Where<T(!new)>(s: seq<T>, p: T -> bool): (r: seq<T>)
    ensures forall x :: x in r <==> x in s && p(x)
    ensures |r| <= |s|
  {
    if s == [] then []
    else if p(s[0]) then [s[0]] + Where(s[1..], p)
    else Where(s[1..], p)
  }

  /** Two filters that agree on every element select the same elements. */
  lemma {:induction false} WhereAgrees<T(!new)>(s: seq<T>, p: T -> bool, q: T -> bool)
    requires forall x :: x in s ==> p(x) == q(x)
    ensures Where(s, p) == Where(s, q)
    decreases |s|
  {
    if s != [] {
      assert forall x :: x in s[1..] ==> x in s;
      WhereAgrees(s[1..], p, q);
    }
  }

  /** A document appended to the collection is selected by a filter exactly when it satisfies it. */
  lemma {:induction false} WhereAppend<T(!new)>(s: seq<T>, x: T, p: T -> bool)
    ensures Where(s + [x], p) == Where(s, p) + (if p(x) then [x] else [])
    decreases |s|
  {
    if s == [] {
      assert [] + [x] == [x];
    } else {
      assert (s + [x])[1..] == s[1..] + [x];
      WhereAppend(s[1..], x, p);
    }
  }

  /** With unique ids, deleting a stored document removes it from a filter's result and nothing else:
      the count drops by one exactly when the document satisfied the filter. */
  lemma {:induction false} WhereRemoveById<T(!new)>(s: seq<Doc<T>>, id: Id, p: Doc<T> -> bool)
    requires UniqueIds(s) && FindById(s, id).Some?
    ensures |Where(RemoveById(s, id), p)| == |Where(s, p)| - (if p(FindById(s, id).value) then 1 else 0)
    decreases |s|
  {
    if s[0].id == id {
      assert forall j :: 0 <= j < |s[1..]| ==> s[1..][j] == s[j + 1];
      RemoveByIdAbsent(s[1..], id);
    } else {
      assert forall j, k :: 0 <= j < k < |s[1..]| ==> s[1..][j] == s[j + 1] && s[1..][k] == s[k + 1];
      WhereRemoveById(s[1..], id, p);
    }
  }

  /** Writing a body under `id` that keeps every document there on the same side of a filter keeps
      the filter's count. */
  lemma {:induction false} WhereSetById<T(!new)>(s: seq<Doc<T>>, id: Id, b: T, p: Doc<T> -> bool)
    requires forall d :: d in s && d.id == id ==> p(d) == p(d.(body := b))
    ensures |Where(SetById(s, id, b), p)| == |Where(s, p)|
    decreases |s|
  {
    if s != [] {
      var r := SetById(s, id, b);
      assert r[0] == if s[0].id == id then s[0].(body := b) else s[0];
      assert r[1..] == SetById(s[1..], id, b);
      WhereSetById(s[1..], id, b, p);
    }
  }

  /** A projection (`select`, `$project`, `$lookup` + `$addFields`), applied to each element. */
  function Project<T(!new), U>(s: seq<T>, f: T -> U): (r: seq<U>)
    ensures |r| == |s|
    ensures forall k :: 0 <= k < |s| ==> r[k] == f(s[k])
  {
    seq(|s|, k requires 0 <= k < |s| => f(s[k]))
  }

  /** Ascending order on an integer key. */
  predicate SortedBy<T(!new)>(s: seq<T>, key: T -> int)
  {
    forall i, j :: 0 <= i < j < |s| ==> key(s[i]) <= key(s[j])
  }

  function InsertBy<T(!new)>(x: T, s: seq<T>, key: T -> int): (r: seq<T>)
    requires SortedBy(s, key)
    ensures SortedBy(r, key)
    ensures multiset(r) == multiset(s) + multiset{x}
  {
    if s == [] || key(x) <= key(s[0]) then [x] + s
    else
      var rest := InsertBy(x, s[1..], key);
      assert s == [s[0]] + s[1..];
      BoundKept(key(s[0]), s[1..], x, rest, key);
      ConsSorted(s[0], rest, key);
      [s[0]] + rest
  }

  /** A key no larger than any key of a sorted sequence can go in front of it. */
  lemma ConsSorted<T(!new)>(h: T, rest: seq<T>, key: T -> int)
    requires SortedBy(rest, key)
    requires forall j :: 0 <= j < |rest| ==> key(h) <= key(rest[j])
    ensures SortedBy([h] + rest, key)
  {
    var c := [h] + rest;
    forall i, j | 0 <= i < j < |c| ensures key(c[i]) <= key(c[j]) {
      assert c[j] == rest[j - 1];
      if i > 0 {
        assert c[i] == rest[i - 1];
      }
    }
  }

  /** A lower bound on the keys of `s` and of `x` bounds every key of a permutation of both. */
  lemma BoundKept<T(!new)>(lo: int, s: seq<T>, x: T, r: seq<T>, key: T -> int)
    requires forall j :: 0 <= j < |s| ==> lo <= key(s[j])
    requires lo <= key(x)
    requires multiset(r) == multiset(s) + multiset{x}
    ensures forall j :: 0 <= j < |r| ==> lo <= key(r[j])
  {
    forall j | 0 <= j < |r| ensures lo <= key(r[j]) {
      assert r[j] in multiset(r);
      if r[j] != x {
        assert r[j] in multiset(s);
        var m :| 0 <= m < |s| && s[m] == r[j];
      }
    }
  }

  /** `.sort({ field: 1 })`: a stable sort on the key. A descending sort is a sort on the negated key. */
  function SortBy<T(!new)>(s: seq<T>, key: T -> int): (r: seq<T>)
    ensures SortedBy(r, key)
    ensures multiset(r) == multiset(s)
  {
    if s == [] then []
    else
      assert s == [s[0]] + s[1..];
      InsertBy(s[0], SortBy(s[1..], key), key)
  }

  /** `sort({ createdAt: -1 })`: newest first. The database's sort is not stable, so all that is
      promised is the order of the stamps and that the documents are the same ones. */
  function NewestFirst<T(!new)>(s: seq<T>, stamp: T -> nat): (r: seq<T>)
    ensures multiset(r) == multiset(s)
    ensures forall i, j :: 0 <= i < j < |r| ==> stamp(r[i]) >= stamp(r[j])
  {
    SortBy(s, (x: T) => 0 - stamp(x) as int)
  }

  /** A listing built as filter, projection and newest-first sort holds one entry per selected
      element: the projection of every selected element, and nothing else. */
  lemma ListedView<T(!new), U(!new)>(s: seq<T>, p: T -> bool, f: T -> U, stamp: U -> nat)
    ensures var r := NewestFirst(Project(Where(s, p), f), stamp);
            && |r| == |Where(s, p)|
            && (forall x :: x in s && p(x) ==> f(x) in r)
            && (forall y :: y in r ==> exists x :: x in s && p(x) && y == f(x))
  {
    var selected := Where(s, p);
    var projected := Project(selected, f);
    var r := NewestFirst(projected, stamp);
    assert |r| == |multiset(r)| == |multiset(projected)| == |projected|;
    forall x | x in s && p(x) ensures f(x) in r {
      var k :| 0 <= k < |selected| && selected[k] == x;
      assert projected[k] in multiset(projected);
    }
    forall y | y in r ensures exists x :: x in s && p(x) && y == f(x) {
      assert y in multiset(projected);
      var k :| 0 <= k < |projected| && projected[k] == y;
      assert selected[k] in selected;
    }
  }

  function Min(a: int, b: int): int
  {
    if a <= b then a else b
  }

  /** `.skip(offset).limit(limit)`. */
  function Slice<T>(s: seq<T>, offset: nat, limit: nat): (r: seq<T>)
    ensures |r| == if offset >= |s| then 0 else Min(limit, |s| - offset)
    ensures forall k :: 0 <= k < |r| ==> r[k] == s[offset + k]
  {
    if offset >= |s| then [] else s[offset..offset + Min(limit, |s| - offset)]
  }

  /** `.skip((page - 1) * limit).limit(limit)`. */
  function Window<T>(s: seq<T>, page: nat, limit: nat): (r: seq<T>)
    requires page >= 1
  {
    Slice(s, (page - 1) * limit, limit)
  }

  /** `.skip((page - 1) * limit).limit(limit)` as the database runs it: a negative skip is
      refused, and a limit of 0 means no limit. */
  function Paged<T>(s: seq<T>, page: nat, limit: nat): (r: Option<seq<T>>)
    ensures r.None? <==> (page - 1) * limit < 0
    ensures page >= 1 && limit >= 1 ==> r == Some(Window(s, page, limit))
    ensures limit == 0 ==> r == Some(s)
  {
    if page == 0 && limit > 0 then None
    else if limit == 0 then Some(s)
    else Some(Window(s, page, limit))
  }

  /** A page holds only documents of the collection, at most `limit` of them when there is a
      limit, and in the collection's order. */
  lemma PagedFacts<T(!new)>(s: seq<T>, page: nat, limit: nat, key: T -> int)
    requires Paged(s, page, limit).Some?
    ensures var p := Paged(s, page, limit).value;
            && (forall x :: x in p ==> x in s)
            && (limit > 0 ==> |p| <= limit)
            && (SortedBy(s, key) ==> SortedBy(p, key))
  {
    var p := Paged(s, page, limit).value;
    if limit > 0 {
      var off := (page - 1) * limit;
      forall x | x in p ensures x in s {
        var k :| 0 <= k < |p| && p[k] == x;
        assert p[k] == s[off + k];
      }
      if SortedBy(s, key) {
        forall i, j | 0 <= i < j < |p| ensures key(p[i]) <= key(p[j]) {
          assert p[i] == s[off + i] && p[j] == s[off + j];
        }
      }
    }
  }

  /** Pages 1 to n, one after another. */
  function Pages<T(!new)>(s: seq<T>, limit: nat, n: nat): seq<T>
  {
    if n == 0 then [] else Pages(s, limit, n - 1) + Window(s, n, limit)
  }

  /** Walking the pages from 1 to n reads the collection from its start, without gap or
      overlap, up to the n-th page's end. */
  lemma {:induction false} PagesCover<T(!new)>(s: seq<T>, limit: nat, n: nat)
    ensures Pages(s, limit, n) == s[..Min(n * limit, |s|)]
  {
    if n > 0 {
      PagesCover(s, limit, n - 1);
      PageStep(s, limit, n);
    }
  }

  /** The n-th page continues pages 1 to n - 1 where they end. */
  lemma PageStep<T(!new)>(s: seq<T>, limit: nat, n: nat)
    requires n >= 1 && Pages(s, limit, n - 1) == s[..Min((n - 1) * limit, |s|)]
    ensures Pages(s, limit, n) == s[..Min(n * limit, |s|)]
  {
    var off := (n - 1) * limit;
    PageEnd(n, limit);
    SliceExtends(s, off, limit, n * limit);
    assert Pages(s, limit, n) == Pages(s, limit, n - 1) + Window(s, n, limit);
  }

  /** Page n ends `limit` places after page n - 1. */
  lemma PageEnd(n: nat, limit: nat)
    requires n >= 1
    ensures (n - 1) * limit + limit == n * limit
  {
  }

  /** The slice at `offset` continues the prefix that ends there. */
  lemma SliceExtends<T>(s: seq<T>, offset: nat, limit: nat, end: nat)
    requires end == offset + limit
    ensures s[..Min(offset, |s|)] + Slice(s, offset, limit) == s[..Min(end, |s|)]
  {
    if offset < |s| {
      var end := offset + Min(limit, |s| - offset);
      assert s[..end] == s[..offset] + s[offset..end];
    }
  }

  // ----- documents keyed by a pair (a like, a subscription) -----

  /** `findOne(filter)`: the position of the first document, in natural order, whose key is `k`. */
  function FindKey<T(!new), K(==,!new)>(s: seq<Doc<T>>, key: T -> K, k: K): (r: Option<nat>)
    ensures r.Some? ==> r.value < |s| && key(s[r.value].body) == k
    ensures r.Some? ==> forall j :: 0 <= j < r.value ==> key(s[j].body) != k
    ensures r.None? ==> forall j :: 0 <= j < |s| ==> key(s[j].body) != k
  {
    if s == [] then None
    else if key(s[0].body) == k then Some(0)
    else match FindKey(s[1..], key, k)
      case None => None
      case Some(i) => Some(i + 1)
  }

  /** How many documents carry the key `k`. */
  function CountKey<T(!new), K(==,!new)>(s: seq<Doc<T>>, key: T -> K, k: K): nat
  {
    if s == [] then 0
    else (if key(s[0].body) == k then 1 else 0) + CountKey(s[1..], key, k)
  }

  lemma {:induction false} CountKeyConcat<T(!new), K(!new)>(a: seq<Doc<T>>, b: seq<Doc<T>>, key: T -> K, k: K)
    ensures CountKey(a + b, key, k) == CountKey(a, key, k) + CountKey(b, key, k)
  {
    if a == [] {
      assert a + b == b;
    } else {
      assert (a + b)[1..] == a[1..] + b;
      CountKeyConcat(a[1..], b, key, k);
    }
  }

  lemma {:induction false} CountKeyZero<T(!new), K(!new)>(s: seq<Doc<T>>, key: T -> K, k: K)
    ensures CountKey(s, key, k) == 0 <==> forall j :: 0 <= j < |s| ==> key(s[j].body) != k
  {
    if s != [] {
      CountKeyZero(s[1..], key, k);
      if forall j :: 0 <= j < |s[1..]| ==> key(s[1..][j].body) != k {
        forall j | 1 <= j < |s| ensures key(s[j].body) != k {
          assert s[j] == s[1..][j - 1];
        }
      }
    }
  }

  /** The keys present in the collection. */
  ghost function KeySet<T(!new), K(!new)>(s: seq<Doc<T>>, key: T -> K): set<K>
  {
    set d | d in s :: key(d.body)
  }

  lemma KeySetCount<T(!new), K(!new)>(s: seq<Doc<T>>, key: T -> K, k: K)
    ensures k in KeySet(s, key) <==> CountKey(s, key, k) > 0
  {
    CountKeyZero(s, key, k);
    if CountKey(s, key, k) > 0 {
      var j :| 0 <= j < |s| && key(s[j].body) == k;
      assert s[j] in s;
    }
  }

  /** The uniqueness constraint of a join collection: at most one document per key. */
  ghost predicate AtMostOnePerKey<T(!new), K(!new)>(s: seq<Doc<T>>, key: T -> K)
  {
    forall k :: CountKey(s, key, k) <= 1
  }

  /** The documents whose key is not `k`, in order. */
  function Without<T(!new), K(==,!new)>(s: seq<Doc<T>>, key: T -> K, k: K): (r: seq<Doc<T>>)
  {
    if s == [] then []
    else (if key(s[0].body) == k then [] else [s[0]]) + Without(s[1..], key, k)
  }

  /** `Without` keeps exactly the documents whose key is not `k`. */
  lemma {:induction false} WithoutMembers<T(!new), K(!new)>(s: seq<Doc<T>>, key: T -> K, k: K)
    ensures forall d :: d in Without(s, key, k) <==> d in s && key(d.body) != k
  {
    if s != [] {
      WithoutMembers(s[1..], key, k);
      assert s == [s[0]] + s[1..];
    }
  }

  lemma {:induction false} WithoutConcat<T(!new), K(!new)>(a: seq<Doc<T>>, b: seq<Doc<T>>, key: T -> K, k: K)
    ensures Without(a + b, key, k) == Without(a, key, k) + Without(b, key, k)
  {
    if a == [] {
      assert a + b == b;
    } else {
      assert (a + b)[1..] == a[1..] + b;
      WithoutConcat(a[1..], b, key, k);
    }
  }

  /**
   * A toggle on a join collection: `findOne` the first document with key `k`; if there is one,
   * `findByIdAndDelete` it; otherwise `create` the document `created`.
   */
  function Toggled<T(!new), K(==,!new)>(s: seq<Doc<T>>, key: T -> K, k: K, created: Doc<T>): (r: seq<Doc<T>>)
    ensures forall d :: d in r ==> d in s || d == created
  {
    match FindKey(s, key, k)
    case Some(i) => RemoveByIdMembers(s, s[i].id); RemoveById(s, s[i].id)
    case None => s + [created]
  }

  /** Taking the i-th document out lowers its key's count by one and no other. */
  lemma CountKeyRemoveAt<T(!new), K(!new)>(s: seq<Doc<T>>, i: nat, key: T -> K, k': K)
    requires i < |s|
    ensures CountKey(s, key, k') == CountKey(s[..i] + s[i + 1..], key, k')
                                    + (if key(s[i].body) == k' then 1 else 0)
  {
    var a, b := s[..i], s[i + 1..];
    assert s == a + ([s[i]] + b);
    CountKeyConcat(a, [s[i]] + b, key, k');
    assert CountKey([s[i]] + b, key, k') == (if key(s[i].body) == k' then 1 else 0) + CountKey(b, key, k') by {
      assert ([s[i]] + b)[1..] == b;
    }
    CountKeyConcat(a, b, key, k');
  }

  lemma CountKeyAppend<T(!new), K(!new)>(s: seq<Doc<T>>, d: Doc<T>, key: T -> K, k': K)
    ensures CountKey(s + [d], key, k') == CountKey(s, key, k') + (if key(d.body) == k' then 1 else 0)
  {
    CountKeyConcat(s, [d], key, k');
    assert [d][1..] == [];
  }

  /** What a toggle does, counted per key: one document of key `k` goes when there is one
      (pre-existing duplicates are not removed), one comes when there is none, and the
      number of documents under every other key stays the same. */
  lemma ToggledCounts<T(!new), K(!new)>(s: seq<Doc<T>>, key: T -> K, k: K, created: Doc<T>)
    requires UniqueIds(s) && key(created.body) == k
    ensures CountKey(Toggled(s, key, k, created), key, k)
         == if CountKey(s, key, k) > 0 then CountKey(s, key, k) - 1 else 1
    ensures forall k' :: k' != k ==>
              CountKey(Toggled(s, key, k, created), key, k') == CountKey(s, key, k')
  {
    CountKeyZero(s, key, k);
    var found := FindKey(s, key, k);
    if found.Some? {
      var i := found.value;
      RemoveByIdAt(s, i);
      forall k' ensures CountKey(s, key, k') == CountKey(s[..i] + s[i + 1..], key, k')
                         + (if key(s[i].body) == k' then 1 else 0) {
        CountKeyRemoveAt(s, i, key, k');
      }
    } else {
      forall k' ensures CountKey(s + [created], key, k') == CountKey(s, key, k')
                         + (if key(created.body) == k' then 1 else 0) {
        CountKeyAppend(s, created, key, k');
      }
    }
  }

  /** Taking out a document of key `k` does not change the documents of the other keys. */
  lemma WithoutRemoveAt<T(!new), K(!new)>(s: seq<Doc<T>>, i: nat, key: T -> K, k: K)
    requires i < |s| && key(s[i].body) == k
    ensures Without(s[..i] + s[i + 1..], key, k) == Without(s, key, k)
  {
    var before, after := s[..i], s[i + 1..];
    assert s == before + ([s[i]] + after);
    calc {
      Without(s, key, k);
    ==  { WithoutConcat(before, [s[i]] + after, key, k); }
      Without(before, key, k) + Without([s[i]] + after, key, k);
    ==  { WithoutHead(s[i], after, key, k); }
      Without(before, key, k) + Without(after, key, k);
    ==  { WithoutConcat(before, after, key, k); }
      Without(before + after, key, k);
    }
  }

  /** A leading document of key `k` contributes nothing to `Without`. */
  lemma WithoutHead<T(!new), K(!new)>(d: Doc<T>, rest: seq<Doc<T>>, key: T -> K, k: K)
    requires key(d.body) == k
    ensures Without([d] + rest, key, k) == Without(rest, key, k)
  {
    assert ([d] + rest)[1..] == rest;
  }

  /** A toggle leaves the documents of every other key exactly as they were, in the same order. */
  lemma ToggledFramesOtherKeys<T(!new), K(!new)>(s: seq<Doc<T>>, key: T -> K, k: K, created: Doc<T>)
    requires UniqueIds(s) && key(created.body) == k
    ensures Without(Toggled(s, key, k, created), key, k) == Without(s, key, k)
  {
    var found := FindKey(s, key, k);
    if found.Some? {
      RemoveByIdAt(s, found.value);
      WithoutRemoveAt(s, found.value, key, k);
    } else {
      WithoutConcat(s, [created], key, k);
      assert [created][1..] == [];
    }
  }

  /** A toggle whose created document has an unused id keeps the ids unique and below `bound`. */
  lemma ToggledKeepsIds<T(!new), K(!new)>(s: seq<Doc<T>>, key: T -> K, k: K, created: Doc<T>, bound: nat)
    requires UniqueIds(s) && IdsBelow(s, bound) && created.id.n == bound
    ensures UniqueIds(Toggled(s, key, k, created))
    ensures IdsBelow(Toggled(s, key, k, created), bound + 1)
  {
    match FindKey(s, key, k)
    case Some(i) =>
      RemoveByIdKeepsUnique(s, s[i].id);
    case None =>
      assert forall j :: 0 <= j < |s| ==> s[j] in s;
  }

  /** The uniqueness constraint survives a toggle. */
  lemma ToggledKeepsAtMostOne<T(!new), K(!new)>(s: seq<Doc<T>>, key: T -> K, k: K, created: Doc<T>)
    requires UniqueIds(s) && AtMostOnePerKey(s, key) && key(created.body) == k
    ensures AtMostOnePerKey(Toggled(s, key, k, created), key)
  {
    ToggledCounts(s, key, k, created);
    var r := Toggled(s, key, k, created);
    forall k' ensures CountKey(r, key, k') <= 1 {
      assert CountKey(s, key, k') <= 1;
    }
  }

  /** Toggling the same key twice puts every key's count, and so the set of keys present,
      back where it was, provided no key was duplicated to begin with. */
  lemma ToggleTwiceRestores<T(!new), K(!new)>(s: seq<Doc<T>>, key: T -> K, k: K, f1: Doc<T>, f2: Doc<T>, bound: nat)
    requires UniqueIds(s) && IdsBelow(s, bound) && AtMostOnePerKey(s, key)
    requires key(f1.body) == k && key(f2.body) == k && f1.id.n == bound
    ensures forall k' :: CountKey(Toggled(Toggled(s, key, k, f1), key, k, f2), key, k') == CountKey(s, key, k')
    ensures KeySet(Toggled(Toggled(s, key, k, f1), key, k, f2), key) == KeySet(s, key)
  {
    var t1 := Toggled(s, key, k, f1);
    var t2 := Toggled(t1, key, k, f2);
    ToggledCounts(s, key, k, f1);
    ToggledKeepsIds(s, key, k, f1, bound);
    ToggledCounts(t1, key, k, f2);
    assert CountKey(s, key, k) <= 1;
    forall k' ensures k' in KeySet(t2, key) <==> k' in KeySet(s, key) {
      KeySetCount(t2, key, k');
      KeySetCount(s, key, k');
    }
  }

  // ----- array fields updated with `$addToSet` and `$pull` -----

  /** `$addToSet`: append the value unless it is already there. */
  function AddToSet<X(==,!new)>(xs: seq<X>, x: X): (r: seq<X>)
    ensures x in r
    ensures forall y :: y in r <==> y in xs || y == x
    ensures x in xs ==> r == xs
    ensures xs <= r
  {
    if x in xs then xs else xs + [x]
  }

  /** `$addToSet` never creates a second copy, and creates the first if there was none. */
  lemma AddToSetOccurrences<X(!new)>(xs: seq<X>, x: X)
    ensures multiset(AddToSet(xs, x))[x] == if x in xs then multiset(xs)[x] else 1
  {
    if x !in xs {
      assert multiset(xs)[x] == 0;
      assert multiset(xs + [x]) == multiset(xs) + multiset{x};
    }
  }

  /** `$pull`: drop every occurrence of the value, keeping the others in order. */
  function Pull<X(==,!new)>(xs: seq<X>, x: X): (r: seq<X>)
    ensures forall y :: y in r <==> y in xs && y != x
    ensures x !in xs ==> r == xs
  {
    if xs == [] then []
    else (if xs[0] == x then [] else [xs[0]]) + Pull(xs[1..], x)
  }

  lemma {:induction false} PullConcat<X(!new)>(a: seq<X>, b: seq<X>, x: X)
    ensures Pull(a + b, x) == Pull(a, x) + Pull(b, x)
  {
    if a == [] {
      assert a + b == b;
    } else {
      assert (a + b)[1..] == a[1..] + b;
      PullConcat(a[1..], b, x);
    }
  }

  /** Adding a value that was absent and then pulling it gives back the original array. */
  lemma PullUndoesAdd<X(!new)>(xs: seq<X>, x: X)
    requires x !in xs
    ensures Pull(AddToSet(xs, x), x) == xs
  {
    PullConcat(xs, [x], x);
    assert [x][1..] == [];
  }
}
