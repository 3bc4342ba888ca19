/** The three record kinds the writer accepts, their field schemas, and the
    enrichment `db_insert` applies to a payload before storing it. */
module Records {

  import opened Wrappers
  import opened Values
  import opened Ids

  datatype Kind = Products | Suppliers | Orders

  /** The collection names `db_insert`, `db_update` and `db_delete` accept,
      in the order their error message lists them. */
  const ValidCollections: seq<string> := ["products", "suppliers", "orders"]

  function CollectionName(k: Kind): string {
    match k
    case Products => "products"
    case Suppliers => "suppliers"
    case Orders => "orders"
  }

  /** The kind a collection name denotes; any other name is refused. */
  function KindOf(collection: string): (k: Option<Kind>)
    ensures k.Some? <==> collection in ValidCollections
    ensures k.Some? ==> CollectionName(k.value) == collection
  {
    if collection == "products" then Some(Products)
    else if collection == "suppliers" then Some(Suppliers)
    else if collection == "orders" then Some(Orders)
    else None
  }

  /** The letter in front of the kind's identifiers. */
  function Prefix(k: Kind): string {
    match k
    case Products => "P"
    case Suppliers => "S"
    case Orders => "O"
  }

  /** The field the insert writes the generated identifier to. */
  function IdField(k: Kind): string {
    match k
    case Products => "product_id"
    case Suppliers => "supplier_id"
    case Orders => "order_id"
  }

  /** The field the insert writes today's date to (suppliers have none). */
  function DateFields(k: Kind): set<string> {
    match k
    case Products => {"added_date"}
    case Suppliers => {}
    case Orders => {"order_date"}
  }

  /** Fields the insert always overwrites, whatever the caller sent. */
  function AutoFields(k: Kind): set<string> {
    {IdField(k)} + DateFields(k)
  }

  function Required(k: Kind): seq<string> {
    match k
    case Products => ["product_name", "price", "stock_count"]
    case Suppliers => ["supplier_name", "contact_email", "contact_number", "address"]
    case Orders => ["product_id", "quantity", "price_per_unit", "customer_name"]
  }

  /** Fields stored as "" when the caller leaves them out. */
  function Defaulted(k: Kind): seq<string> {
    match k
    case Products => ["category", "units_sold_last_month", "units_sold_this_month", "rating"]
    case Suppliers => ["rating"]
    case Orders => []
  }

  /** The error records the writer returns (`"error": True`). */
  datatype Error =
    | InvalidCollection(available: seq<string>)
    | MissingFields(required: seq<string>)
    | InsertFailed
    | NoMatch
    | NothingDeleted(matchedBefore: nat, matchedAfter: nat)

  predicate HasAll(d: Document, fields: seq<string>) {
    forall f :: f in fields ==> f in d
  }

  /** An order without `total_price` whose quantity and unit price cannot be
      multiplied: Python raises TypeError and the insert fails. */
  predicate TotalFails(k: Kind, data: Document) {
    && k == Orders && "total_price" !in data
    && "quantity" in data && "price_per_unit" in data
    && Times(data["quantity"], data["price_per_unit"]).None?
  }

  /** `d` is what the insert stores for payload `data` of kind `k`, given the
      generated identifier `id` and today's date: the payload's fields, the
      identifier and date fields overwritten, the defaulted fields added as
      "" where absent, and for an order without `total_price` the product of
      quantity and unit price. Nothing else is added. */
  ghost predicate Enriched(k: Kind, data: Document, id: string, today: string, d: Document) {
    && d.Keys == data.Keys + AutoFields(k) + (set f | f in Defaulted(k)) + (if k == Orders then {"total_price"} else {})
    && d[IdField(k)] == Str(id)
    && (forall f :: f in DateFields(k) ==> d[f] == Str(today))
    && (forall f :: f in data && f !in AutoFields(k) ==> d[f] == data[f])
    && (forall f :: f in Defaulted(k) && f !in data ==> d[f] == Str(""))
    && (k == Orders && "total_price" !in data ==>
          && "quantity" in data && "price_per_unit" in data
          && Times(data["quantity"], data["price_per_unit"]) == Some(d["total_price"]))
  }

  /** `all(k in document for k in fields)`. */
  method HasFields(document: Document, fields: seq<string>) returns (present: bool)
    ensures present <==> HasAll(document, fields)
  {
    present := true;
    var i := 0;
    while i < |fields| && present
      invariant 0 <= i <= |fields|
      invariant present <==> forall j :: 0 <= j < i ==> fields[j] in document
      invariant !present ==> !HasAll(document, fields)
    {
      if fields[i] !in document {
        present := false;
      }
      i := i + 1;
    }
  }

  /** The run of `if '<field>' not in document: document['<field>'] = ""`
      statements, one per defaulted field. */
  method FillDefaults(document: Document, fields: seq<string>) returns (filled: Document)
    ensures filled.Keys == document.Keys + set f | f in fields
    ensures forall f :: f in document ==> filled[f] == document[f]
    ensures forall f :: f in fields && f !in document ==> filled[f] == Str("")
  {
    filled := document;
    var i := 0;
    while i < |fields|
      invariant 0 <= i <= |fields|
      invariant filled.Keys == document.Keys + set j | 0 <= j < i :: fields[j]
      invariant forall f :: f in document ==> filled[f] == document[f]
      invariant forall f :: f in filled && f !in document ==> filled[f] == Str("")
    {
      if fields[i] !in filled {
        filled := filled[fields[i] := Str("")];
      }
      i := i + 1;
    }
    assert (set j | 0 <= j < |fields| :: fields[j]) == set f | f in fields;
  }

  /** The per-kind part of `db_insert`: check the required fields, then copy
      the payload and fill in identifier, date, defaults and order total. */
  method Prepare(k: Kind, data: Document, id: string, today: string) returns (r: Result<Document, Error>)
    ensures !HasAll(data, Required(k)) ==> r == Failure(MissingFields(Required(k)))
    ensures HasAll(data, Required(k)) && TotalFails(k, data) ==> r == Failure(InsertFailed)
    ensures HasAll(data, Required(k)) && !TotalFails(k, data) ==> r.Ok? && Enriched(k, data, id, today, r.value)
  {
    var document := data;
    var complete := HasFields(document, Required(k));
    if !complete {
      return Failure(MissingFields(Required(k)));
    }
    document := document[IdField(k) := Str(id)];
    match k {
      case Products =>
        document := document["added_date" := Str(today)];
      case Suppliers =>
      case Orders =>
        document := document["order_date" := Str(today)];
    }
    assert document.Keys == data.Keys + AutoFields(k);
    assert document[IdField(k)] == Str(id);
    assert forall f :: f in DateFields(k) ==> document[f] == Str(today);
    assert forall f :: f in data && f !in AutoFields(k) ==> document[f] == data[f];
    ghost var stamped := document;
    document := FillDefaults(document, Defaulted(k));
    if k == Orders && "total_price" !in document {
      assert "quantity" in Required(k) && "price_per_unit" in Required(k);
      var total := Times(document["quantity"], document["price_per_unit"]);
      if total.None? {
        return Failure(InsertFailed);
      }
      document := document["total_price" := total.value];
    }
    assert forall f :: f in stamped ==> document[f] == stamped[f];
    return Ok(document);
  }

  /** The enrichment leaves no choice: two documents that both satisfy it
      are the same document. */
  lemma EnrichedUnique(k: Kind, data: Document, id: string, today: string, d1: Document, d2: Document)
    requires Enriched(k, data, id, today, d1) && Enriched(k, data, id, today, d2)
    ensures d1 == d2
  {
    forall f | f in d1
      ensures d1[f] == d2[f]
    {
      if f in AutoFields(k) {
        assert f == IdField(k) || f in DateFields(k);
      } else if f in data {
      } else if f in Defaulted(k) {
      } else {
        assert k == Orders && f == "total_price";
      }
    }
  }

  /** `d` carries identifier number `n` of kind `k`. */
  predicate HasNumber(d: Document, k: Kind, n: nat) {
    IdField(k) in d && d[IdField(k)] == Str(FormatId(Prefix(k), n))
  }

  /** Identifiers numbered 1, 2, ... in insertion order under the kind's
      identifier field. */
  ghost predicate Sequential(docs: seq<Document>, k: Kind) {
    forall i :: 0 <= i < |docs| ==> HasNumber(docs[i], k, i + 1)
  }

  /** Appending the next number keeps the numbering sequential. */
  lemma SequentialAppend(k: Kind, docs: seq<Document>, d: Document)
    requires Sequential(docs, k) && HasNumber(d, k, |docs| + 1)
    ensures Sequential(docs + [d], k)
  {
    var all := docs + [d];
    forall i | 0 <= i < |all|
      ensures HasNumber(all[i], k, i + 1)
    {
      if i < |docs| {
        assert all[i] == docs[i];
      }
    }
  }

  /** With the corrected generator each insert extends the numbering by one
      (an enriched document carries its identifier under `IdField(k)`):
      N inserts into an empty collection give `<prefix>001` up to the N-th
      identifier, without gaps or repeats. */
  lemma CorrectedIdsAreSequential(k: Kind, docs: seq<Document>, d: Document)
    requires Sequential(docs, k)
    requires IdField(k) in d && d[IdField(k)] == Str(NextFreshId(docs, IdField(k), Prefix(k)))
    ensures Sequential(docs + [d], k)
  {
    SequentialIds(docs, IdField(k), Prefix(k));
    SequentialAppend(k, docs, d);
  }
}
