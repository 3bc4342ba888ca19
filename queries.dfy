/** The store-side operations the writer calls on one collection, with the
    filter read as field equality: `find`, `update_many` with `$set` and no
    upsert, and `delete_many`. */
module Queries {

  import opened Values

  /** Every field the filter names holds exactly the filter's value; the
      empty filter matches every document. */
  predicate Matches(d: Document, filter: Document) {
    forall key :: key in filter ==> key in d && d[key] == filter[key]
  }

  /** `find(filter)`: the matching documents, in store order. */
  function Find(docs: seq<Document>, filter: Document): (found: seq<Document>)
    ensures |found| <= |docs|
    ensures forall d :: d in found <==> d in docs && Matches(d, filter)
    decreases |docs|
  {
    if docs == [] then []
    else
      assert docs == [docs[0]] + docs[1..];
      (if Matches(docs[0], filter) then [docs[0]] else []) + Find(docs[1..], filter)
  }

  /** `delete_many(filter)`: what is left is every document that does not
      match, in the same order. */
  function DeleteWhere(docs: seq<Document>, filter: Document): (kept: seq<Document>)
    ensures forall d :: d in kept <==> d in docs && !Matches(d, filter)
    ensures |kept| == |docs| - |Find(docs, filter)|
    ensures multiset(kept) + multiset(Find(docs, filter)) == multiset(docs)
    ensures Find(kept, filter) == []
    decreases |docs|
  {
    if docs == [] then []
    else
      assert docs == [docs[0]] + docs[1..];
      var rest := DeleteWhere(docs[1..], filter);
      if Matches(docs[0], filter) then rest
      else
        var kept := [docs[0]] + rest;
        assert kept[1..] == rest;
        kept
  }

  /** `$set`: the changed fields take their new values, every other field
      keeps its value. */
  function SetFields(d: Document, changes: Document): (r: Document)
    ensures r.Keys == d.Keys + changes.Keys
    ensures forall key :: key in changes ==> r[key] == changes[key]
    ensures forall key :: key in d && key !in changes ==> r[key] == d[key]
  {
    d + changes
  }

  /** `update_many(filter, {"$set": changes}, upsert=False)`: the matching
      documents get the new field values, the others stay as they are, and
      no document is added or removed. */
  function SetWhere(docs: seq<Document>, filter: Document, changes: Document): (updated: seq<Document>)
    ensures |updated| == |docs|
    ensures forall i :: 0 <= i < |docs| ==>
      updated[i] == if Matches(docs[i], filter) then SetFields(docs[i], changes) else docs[i]
    decreases |docs|
  {
    if docs == [] then []
    else
      var first := if Matches(docs[0], filter) then SetFields(docs[0], changes) else docs[0];
      [first] + SetWhere(docs[1..], filter, changes)
  }

  /** The update gives `d` a new value somewhere: MongoDB counts `d` as
      modified. */
  predicate Changes(d: Document, changes: Document) {
    exists key :: key in changes && (key !in d || d[key] != changes[key])
  }

  /** `modified_count`: the matching documents the update changes. */
  function ModifiedCount(docs: seq<Document>, filter: Document, changes: Document): (n: nat)
    ensures n <= |Find(docs, filter)|
    decreases |docs|
  {
    if docs == [] then 0
    else
      (if Matches(docs[0], filter) && Changes(docs[0], changes) then 1 else 0)
        + ModifiedCount(docs[1..], filter, changes)
  }

  /** A document the update does not count as modified is left exactly as
      it was. */
  lemma UnchangedIsNoOp(d: Document, changes: Document)
    requires !Changes(d, changes)
    ensures SetFields(d, changes) == d
  {
    var r := SetFields(d, changes);
    assert r.Keys == d.Keys;
    forall key | key in r
      ensures r[key] == d[key]
    {
      if key in changes {
        assert !(key !in d || d[key] != changes[key]);
      }
    }
  }

  /** The filter and the new values agree on every field both name. */
  predicate Compatible(filter: Document, changes: Document) {
    forall key :: key in filter && key in changes ==> filter[key] == changes[key]
  }

  /** An updated document still matches exactly when the new values agree
      with the filter. */
  lemma MatchAfterSet(d: Document, filter: Document, changes: Document)
    requires Matches(d, filter)
    ensures Matches(SetFields(d, changes), filter) <==> Compatible(filter, changes)
  {
    var r := SetFields(d, changes);
    if !Compatible(filter, changes) {
      var key :| key in filter && key in changes && filter[key] != changes[key];
      assert r[key] == changes[key];
    }
  }

  /** The re-read after the update (`find(filter)` again) sees as many
      documents as matched when the new values agree with the filter, and
      none when they overwrite a filtered field with something else. */
  lemma {:induction false} MatchesAfterUpdate(docs: seq<Document>, filter: Document, changes: Document)
    ensures |Find(SetWhere(docs, filter, changes), filter)| ==
      if Compatible(filter, changes) then |Find(docs, filter)| else 0
    decreases |docs|
  {
    if docs != [] {
      var updated := SetWhere(docs, filter, changes);
      MatchesAfterUpdate(docs[1..], filter, changes);
      assert updated[1..] == SetWhere(docs[1..], filter, changes);
      if Matches(docs[0], filter) {
        MatchAfterSet(docs[0], filter, changes);
      }
    }
  }

  /** Running the same update a second time modifies nothing. It finds
      matches again, and so reports "no changes were needed", exactly when
      the first run matched and the new values agree with the filter;
      otherwise the second run matches nothing. */
  lemma {:induction false} RepeatedUpdateModifiesNothing(docs: seq<Document>, filter: Document, changes: Document)
    ensures ModifiedCount(SetWhere(docs, filter, changes), filter, changes) == 0
    ensures |Find(SetWhere(docs, filter, changes), filter)| > 0 <==>
      Compatible(filter, changes) && |Find(docs, filter)| > 0
    decreases |docs|
  {
    MatchesAfterUpdate(docs, filter, changes);
    if docs != [] {
      var updated := SetWhere(docs, filter, changes);
      RepeatedUpdateModifiesNothing(docs[1..], filter, changes);
      assert updated[1..] == SetWhere(docs[1..], filter, changes);
      if Matches(updated[0], filter) {
        assert Matches(docs[0], filter);
        assert !Changes(updated[0], changes);
      }
    }
  }

  /** A document the update counts as modified really is different
      afterwards. */
  lemma ChangedIsModified(d: Document, changes: Document)
    requires Changes(d, changes)
    ensures SetFields(d, changes) != d
  {
    var key :| key in changes && (key !in d || d[key] != changes[key]);
    assert SetFields(d, changes)[key] == changes[key];
  }

  /** `modified_count` is zero exactly when the update leaves the whole
      collection as it was. */
  lemma {:induction false} ModifiedZeroIffNoOp(docs: seq<Document>, filter: Document, changes: Document)
    ensures ModifiedCount(docs, filter, changes) == 0 <==> SetWhere(docs, filter, changes) == docs
    decreases |docs|
  {
    if docs != [] {
      var updated := SetWhere(docs, filter, changes);
      ModifiedZeroIffNoOp(docs[1..], filter, changes);
      assert updated[1..] == SetWhere(docs[1..], filter, changes);
      assert updated == [updated[0]] + updated[1..];
      assert docs == [docs[0]] + docs[1..];
      if Matches(docs[0], filter) {
        if Changes(docs[0], changes) {
          ChangedIsModified(docs[0], changes);
        } else {
          UnchangedIsNoOp(docs[0], changes);
        }
      }
    }
  }

  /** The number of positions at which two collections of the same length
      hold different documents. */
  function Differing(a: seq<Document>, b: seq<Document>): (n: nat)
    requires |a| == |b|
    ensures n <= |a|
    ensures n == 0 <==> a == b
    decreases |a|
  {
    if a == [] then 0
    else
      assert a == [a[0]] + a[1..] && b == [b[0]] + b[1..];
      (if a[0] != b[0] then 1 else 0) + Differing(a[1..], b[1..])
  }

  /** `modified_count` is exactly the number of documents `update_many`
      rewrites with a different value. */
  lemma {:induction false} ModifiedCountIsDiffering(docs: seq<Document>, filter: Document, changes: Document)
    ensures ModifiedCount(docs, filter, changes) == Differing(SetWhere(docs, filter, changes), docs)
    decreases |docs|
  {
    if docs != [] {
      var updated := SetWhere(docs, filter, changes);
      ModifiedCountIsDiffering(docs[1..], filter, changes);
      assert updated[1..] == SetWhere(docs[1..], filter, changes);
      if Matches(docs[0], filter) {
        if Changes(docs[0], changes) {
          ChangedIsModified(docs[0], changes);
        } else {
          UnchangedIsNoOp(docs[0], changes);
        }
      }
    }
  }

  /** The update is idempotent: a second run leaves the collection as the
      first left it. */
  lemma UpdateIdempotent(docs: seq<Document>, filter: Document, changes: Document)
    ensures SetWhere(SetWhere(docs, filter, changes), filter, changes) == SetWhere(docs, filter, changes)
  {
    var once := SetWhere(docs, filter, changes);
    var twice := SetWhere(once, filter, changes);
    forall i | 0 <= i < |docs|
      ensures twice[i] == once[i]
    {
      if Matches(once[i], filter) {
        assert Matches(docs[i], filter);
        UnchangedIsNoOp(once[i], changes);
      }
    }
  }
}
