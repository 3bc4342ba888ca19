/** The record writer: `db_insert`, `db_update` and `db_delete` over an
    in-memory store of three collections that stands in for the MongoDB
    database the source talks to. */
module RecordStore {

  import opened Wrappers
  import opened Numerals
  import opened Values
  import opened Ids
  import opened Records
  import opened Queries

  datatype InsertOutcome =
    | Inserted(document: Document)
    | InsertRejected(error: Error)

  datatype UpdateOutcome =
    | AlreadyCurrent(matched: nat, modified: nat)
    | Updated(matched: nat, modified: nat, fields: set<string>, nowMatching: nat)
    | UpdateRejected(error: Error)

  datatype DeleteOutcome =
    | Deleted(count: nat, matchedBefore: nat, matchedAfter: nat)
    | DeletedWithWarning(count: nat, remaining: nat)
    | DeleteRejected(error: Error)

  /** How `db_update` reports a write: documents matched but none changed is
      a success of its own ("no changes were needed"); otherwise it reports
      the counts, the updated field names and the re-read count. */
  function UpdateReport(matched: nat, modified: nat, fields: set<string>, nowMatching: nat): (r: UpdateOutcome)
    ensures r.AlreadyCurrent? <==> modified == 0 && matched > 0
    ensures !r.UpdateRejected? && r.matched == matched && r.modified == modified
    ensures r.Updated? ==> r.fields == fields && r.nowMatching == nowMatching
  {
    if modified == 0 && matched > 0 then AlreadyCurrent(matched, modified)
    else Updated(matched, modified, fields, nowMatching)
  }

  /** How `db_delete` reports a write: nothing deleted is an error, matches
      left after the delete a warning, otherwise a plain success. */
  function DeleteReport(matchedBefore: nat, deleted: nat, matchedAfter: nat): (r: DeleteOutcome)
    ensures r.DeleteRejected? <==> deleted == 0
    ensures r.DeletedWithWarning? <==> deleted > 0 && matchedAfter > 0
    ensures r.Deleted? ==> r.count == deleted && r.matchedBefore == matchedBefore && r.matchedAfter == 0
    ensures r.DeletedWithWarning? ==> r.count == deleted && r.remaining == matchedAfter
    ensures r.DeleteRejected? ==> r.error == NothingDeleted(matchedBefore, matchedAfter)
  {
    if deleted == 0 then DeleteRejected(NothingDeleted(matchedBefore, matchedAfter))
    else if matchedAfter > 0 then DeletedWithWarning(deleted, matchedAfter)
    else Deleted(deleted, matchedBefore, matchedAfter)
  }

  /** What `insert_one` stores: the document, with a new handle under `_id`
      unless the document already has an `_id`. */
  function WithHandle(d: Document, handle: nat): (stored: Document)
    ensures stored.Keys == d.Keys + {"_id"}
    ensures forall key :: key in d ==> stored[key] == d[key]
    ensures "_id" !in d ==> stored["_id"] == Oid(handle)
  {
    if "_id" in d then d else d["_id" := Oid(handle)]
  }

  /** The document `db_insert` returns: the stored one with `_id` as text. */
  function Returned(stored: Document): (r: Document)
    requires "_id" in stored
    ensures r.Keys == stored.Keys
    ensures r["_id"] == Str(Render(stored["_id"]))
    ensures forall key :: key in stored && key != "_id" ==> r[key] == stored[key]
  {
    stored["_id" := Str(Render(stored["_id"]))]
  }

  /** Every document of the collection has an `_id`. */
  ghost predicate AllHaveId(docs: seq<Document>) {
    forall d :: d in docs ==> "_id" in d
  }

  lemma AppendKeepsIds(docs: seq<Document>, d: Document)
    requires AllHaveId(docs) && "_id" in d
    ensures AllHaveId(docs + [d])
  {
    forall e | e in docs + [d]
      ensures "_id" in e
    {
      if e !in docs {
        assert e == d;
      }
    }
  }

  lemma SetWhereKeepsIds(docs: seq<Document>, filter: Document, changes: Document)
    requires AllHaveId(docs)
    ensures AllHaveId(SetWhere(docs, filter, changes))
  {
    var updated := SetWhere(docs, filter, changes);
    forall e | e in updated
      ensures "_id" in e
    {
      var i :| 0 <= i < |updated| && updated[i] == e;
      assert docs[i] in docs;
    }
  }

  class Store {
    var products: seq<Document>
    var suppliers: seq<Document>
    var orders: seq<Document>
    var nextHandle: nat

    /** The documents of one collection, in insertion order. */
    function Docs(k: Kind): seq<Document>
      reads this`products, this`suppliers, this`orders
    {
      match k
      case Products => products
      case Suppliers => suppliers
      case Orders => orders
    }

    /** Every stored document carries an `_id`: `insert_one` adds one when
        the document has none, and `$set` and `delete_many` never remove
        one. */
    ghost predicate Valid()
      reads this`products, this`suppliers, this`orders
    {
      forall k: Kind :: AllHaveId(Docs(k))
    }

    constructor ()
      ensures Valid()
      ensures forall k :: Docs(k) == []
    {
      products, suppliers, orders := [], [], [];
      nextHandle := 0;
    }

    /** Replaces one collection, leaving the others alone. */
    method SetDocs(k: Kind, docs: seq<Document>)
      modifies this
      ensures Docs(k) == docs
      ensures forall other :: other != k ==> Docs(other) == old(Docs(other))
      ensures nextHandle == old(nextHandle)
    {
      match k
      case Products => products := docs;
      case Suppliers => suppliers := docs;
      case Orders => orders := docs;
    }

    /** `insert_one`: stores the document, with a new handle if it has no
        `_id`, at the end of the collection. */
    method Add(k: Kind, d: Document) returns (stored: Document)
      requires Valid()
      modifies this
      ensures Valid()
      ensures stored == WithHandle(d, old(nextHandle)) && "_id" in stored
      ensures Docs(k) == old(Docs(k)) + [stored]
      ensures nextHandle == old(nextHandle) + 1
      ensures forall other :: other != k ==> Docs(other) == old(Docs(other))
    {
      stored := WithHandle(d, nextHandle);
      AppendKeepsIds(Docs(k), stored);
      SetDocs(k, Docs(k) + [stored]);
      nextHandle := nextHandle + 1;
    }

    /** `db_insert(collection, data)`, with today's date passed in and the
        identifier from the corrected generator. `doc` is the enriched
        document before the store adds its handle. */
    method Insert(collection: string, data: Document, today: string) returns (r: InsertOutcome, ghost doc: Document)
      requires Valid()
      modifies this
      ensures Valid()
      ensures KindOf(collection).None? ==>
        r == InsertRejected(InvalidCollection(ValidCollections)) && unchanged(this)
      ensures KindOf(collection).Some? ==>
        var k := KindOf(collection).value;
        InsertedAs(k, data, NextFreshId(old(Docs(k)), IdField(k), Prefix(k)), today, r, doc)
    {
      var kind := KindOf(collection);
      if kind.None? {
        doc := map[];
        return InsertRejected(InvalidCollection(ValidCollections)), doc;
      }
      var k := kind.value;
      var id := NextFreshId(Docs(k), IdField(k), Prefix(k));
      r, doc := InsertKind(k, data, id, today);
    }

    /** The outcome of inserting payload `data` into the collection of kind
        `k`: the two refusals leave the store as it was; otherwise `doc` is
        the enriched payload with identifier `id`, stored at the end of the
        collection with its handle and returned with the handle as text. */
    twostate predicate InsertedAs(k: Kind, data: Document, id: string, today: string, r: InsertOutcome, doc: Document)
      reads this
    {
      && (!HasAll(data, Required(k)) ==>
            r == InsertRejected(MissingFields(Required(k))) && unchanged(this))
      && (HasAll(data, Required(k)) && TotalFails(k, data) ==>
            r == InsertRejected(InsertFailed) && unchanged(this))
      && (HasAll(data, Required(k)) && !TotalFails(k, data) ==>
            && Enriched(k, data, id, today, doc)
            && Docs(k) == old(Docs(k)) + [WithHandle(doc, old(nextHandle))]
            && (forall other :: other != k ==> Docs(other) == old(Docs(other)))
            && nextHandle == old(nextHandle) + 1
            && r == Inserted(Returned(WithHandle(doc, old(nextHandle)))))
    }

    /** The per-kind part of `db_insert`, after the collection name has been
        accepted and the identifier generated. */
    method InsertKind(k: Kind, data: Document, id: string, today: string) returns (r: InsertOutcome, ghost doc: Document)
      requires Valid()
      modifies this
      ensures Valid()
      ensures InsertedAs(k, data, id, today, r, doc)
    {
      doc := map[];
      var prepared := Prepare(k, data, id, today);
      if prepared.Failure? {
        return InsertRejected(prepared.error), doc;
      }
      var document := prepared.value;
      doc := document;
      var stored := Add(k, document);
      r := Inserted(Returned(stored));
    }

    /** `db_update(collection, filter_query, update_data)`. */
    method Update(collection: string, filter: Document, changes: Document) returns (r: UpdateOutcome)
      requires Valid()
      modifies this
      ensures Valid()
      ensures KindOf(collection).None? ==>
        r == UpdateRejected(InvalidCollection(ValidCollections)) && unchanged(this)
      ensures KindOf(collection).Some? ==>
        var k := KindOf(collection).value;
        var matched := |Find(old(Docs(k)), filter)|;
        && (matched == 0 ==> r == UpdateRejected(NoMatch) && unchanged(this))
        && (matched > 0 ==>
              && Docs(k) == SetWhere(old(Docs(k)), filter, changes)
              && (forall other :: other != k ==> Docs(other) == old(Docs(other)))
              && nextHandle == old(nextHandle)
              && r == UpdateReport(matched, ModifiedCount(old(Docs(k)), filter, changes), changes.Keys, |Find(Docs(k), filter)|))
    {
      var kind := KindOf(collection);
      if kind.None? {
        return UpdateRejected(InvalidCollection(ValidCollections));
      }
      var k := kind.value;
      var existing := Find(Docs(k), filter);
      if |existing| == 0 {
        return UpdateRejected(NoMatch);
      }
      var matched := |existing|;
      var modified := ModifiedCount(Docs(k), filter, changes);
      SetWhereKeepsIds(Docs(k), filter, changes);
      SetDocs(k, SetWhere(Docs(k), filter, changes));
      var verified := Find(Docs(k), filter);
      r := UpdateReport(matched, modified, changes.Keys, |verified|);
    }

    /** `db_delete(collection, filter_query)`. */
    method Delete(collection: string, filter: Document) returns (r: DeleteOutcome)
      requires Valid()
      modifies this
      ensures Valid()
      ensures KindOf(collection).None? ==>
        r == DeleteRejected(InvalidCollection(ValidCollections)) && unchanged(this)
      ensures KindOf(collection).Some? ==>
        var k := KindOf(collection).value;
        var matched := |Find(old(Docs(k)), filter)|;
        && (matched == 0 ==> r == DeleteRejected(NoMatch) && unchanged(this))
        && (matched > 0 ==>
              && Docs(k) == DeleteWhere(old(Docs(k)), filter)
              && (forall other :: other != k ==> Docs(other) == old(Docs(other)))
              && nextHandle == old(nextHandle)
              && r == Deleted(matched, matched, 0))
    {
      var kind := KindOf(collection);
      if kind.None? {
        return DeleteRejected(InvalidCollection(ValidCollections));
      }
      var k := kind.value;
      var existing := Find(Docs(k), filter);
      if |existing| == 0 {
        return DeleteRejected(NoMatch);
      }
      var countBefore := |existing|;
      var sizeBefore := |Docs(k)|;
      SetDocs(k, DeleteWhere(Docs(k), filter));
      var deleted := sizeBefore - |Docs(k)|;
      var countAfter := |Find(Docs(k), filter)|;
      r := DeleteReport(countBefore, deleted, countAfter);
    }
  }

  /** The insert never writes the field the as-written generator searches
      (`p_id`, `s_id`, `o_id`), so unless the caller's payload has that
      field, an insert leaves the next generated identifier as it was. */
  lemma InsertNeverAdvancesId(k: Kind, docs: seq<Document>, data: Document, id: string, today: string, d: Document, handle: nat)
    requires Enriched(k, data, id, today, d)
    requires SearchKey(Prefix(k)) !in data
    ensures GenerateId(docs + [WithHandle(d, handle)], Prefix(k)) == GenerateId(docs, Prefix(k))
  {
    var key := SearchKey(Prefix(k));
    assert Lower("P") == "p" && Lower("S") == "s" && Lower("O") == "o";
    assert key !in d;
    GenerateIdIgnores(docs, WithHandle(d, handle), Prefix(k));
  }

  /** With the as-written generator, the product stored after `P001` is
      given `P001` again: the first insert wrote `product_id`, never `p_id`. */
  lemma AsWrittenSecondProductGetsP001(data: Document, today: string, d: Document, handle: nat)
    requires Enriched(Products, data, "P001", today, d)
    requires "p_id" !in data
    ensures GenerateId([WithHandle(d, handle)], "P") == "P001"
  {
    assert SearchKey("P") == "p_id" by {
      assert Lower("P") == "p";
    }
    InsertNeverAdvancesId(Products, [], data, "P001", today, d, handle);
    assert [] + [WithHandle(d, handle)] == [WithHandle(d, handle)];
    GenerateIdDefault([], "P");
  }

  /** One product insert into a collection numbered 1 to N: the new
      product is number N + 1 and the numbering stays sequential. */
  method InsertProduct(store: Store, data: Document, today: string) returns (id: string)
    requires store.Valid()
    requires HasAll(data, Required(Products)) && Sequential(store.Docs(Products), Products)
    modifies store
    ensures store.Valid()
    ensures Sequential(store.Docs(Products), Products)
    ensures |store.Docs(Products)| == |old(store.Docs(Products))| + 1
    ensures id == FormatId("P", |old(store.Docs(Products))| + 1)
  {
    assert KindOf("products") == Some(Products);
    ghost var before := store.Docs(Products);
    ghost var handle := store.nextHandle;
    var r, doc := store.Insert("products", data, today);
    CorrectedIdsAreSequential(Products, before, WithHandle(doc, handle));
    SequentialIds(before, IdField(Products), Prefix(Products));
    assert r.document["product_id"] == doc["product_id"];
    id := r.document["product_id"].s;
  }

  /** Two products inserted one after the other into an empty store are
      given `P001` and `P002`. */
  method TwoProductsNumberedInOrder(today: string) returns (first: string, second: string)
    ensures first == "P001" && second == "P002"
  {
    var store := new Store();
    assert store.Docs(Products) == [];
    var watch := map["product_name" := Str("Smart Watch"), "price" := Num(2499), "stock_count" := Num(40)];
    var phone := map["product_name" := Str("Phone"), "price" := Num(1499), "stock_count" := Num(10)];
    FirstId("P");
    assert FormatId("P", 2) == "P002" by {
      assert Decimal(2) == "2";
    }
    first := InsertProduct(store, watch, today);
    second := InsertProduct(store, phone, today);
  }
}
