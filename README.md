# Record writer of the inventory assistant, in Dafny

The conversational inventory assistant stores products, suppliers and orders
in three MongoDB collections. Its write tools are:

- `_generate_id`, which hands out human-readable identifiers such as `P001`,
  `S002` and `O003`;
- `db_insert`, which checks and enriches a payload and stores it;
- `db_update`, which applies `$set` to every matching document;
- `db_delete`, which removes every matching document.

This project models those four functions over an in-memory store and proves
what they promise.

- `numerals.dfy` models the digit strings the generator reads with `int(...)`
  and writes with the `{num:03d}` format. It proves that the two round-trip.
- `values.dfy` holds the field values (string, number, store handle). It also
  models Python's `*` as the order total uses it, and `str(...)`.
- `ids.dfy` models `_generate_id` as written, and proves what it does and
  where it goes wrong. It also defines the evidently intended generator,
  `NextFreshId`, and proves it fresh and sequential.
- `records.dfy` describes the three record kinds: accepted collection names,
  prefixes, required and defaulted fields. `Prepare` is the step-by-step
  enrichment `db_insert` performs. The predicate `Enriched` specifies it, and
  `EnrichedUnique` shows that the specification leaves no choice.
- `queries.dfy` models what the writer asks of the database. Filters are
  read as field equality. The operations are `find`, `update_many` with
  `$set` and no upsert, `delete_many` and `modified_count`.
- `store.dfy` holds the class `Store`, with one sequence field per
  collection and the next handle. `Insert`, `Update` and `Delete` are
  `db_insert`, `db_update` and `db_delete`. Each states the whole new state
  and the outcome record for every branch of the source.

One departure from the code as written is deliberate: `Store.Insert`
numbers new records with the corrected generator `Ids.NextFreshId`. The
as-written generator, `Ids.GenerateId`, is modelled in full, and the two
defects it has are exhibited under "## Findings".

When a payload lacks required fields, the error `MissingFields(Required(k))`
lists every required field of the kind, as the code's messages do.

## Model

| member | source | states |
|---|---|---|
| Numerals.Decimal | user_question_answer/agent.py:83 | the numeral of `n` is a non-empty run of digits with no leading zero whose value is `n` |
| Numerals.ZeroPad | user_question_answer/agent.py:83 | `{num:03d}` padding: the result has at least the width, ends with the numeral, and has only zeros in front of it |
| Numerals.ParseInt | user_question_answer/agent.py:82 | `int(...)` succeeds exactly on a non-empty string of digits |
| Numerals.LeadingZerosIgnored | user_question_answer/agent.py:82 | zeros in front of a numeral do not change the number `int(...)` reads |
| Numerals.PaddedRoundTrip | user_question_answer/agent.py:82-83 | reading back `f"{n:03d}"` with `int(...)` gives `n` |
| Numerals.PaddedInjective | user_question_answer/agent.py:83 | two different numbers never get the same padded numeral |
| Values.Repeat | user_question_answer/agent.py:160 | `s * n` on a string has `n` copies' length (none for `n <= 0`), starts with `s`, and repeats with period `len(s)` |
| Values.RepeatDetermined | user_question_answer/agent.py:160 | any string with that length, first copy and period is `Repeat`'s result, so the contract is exactly `n` copies of `s` |
| Values.Times | user_question_answer/agent.py:160 | `quantity * price_per_unit` succeeds exactly for number×number (their product) and string×number either way (`Repeat` of the string by the number); any other pairing is the TypeError |
| Values.Render | user_question_answer/agent.py:164 | `str(...)`: a non-negative number or a handle reads back with `int(...)` as itself, a negative number gets a minus sign, a string is unchanged |
| Ids.Lower | user_question_answer/agent.py:79 | `str.lower()` on ASCII text: same length, each character lower-cased |
| Ids.SearchKey | user_question_answer/agent.py:79 | the field the identifier query searches, `f"{prefix.lower()}_id"`: the lower-cased prefix followed by `_id` |
| Ids.Candidates | user_question_answer/agent.py:79 | the query finds exactly the values accepted by `^<prefix>\d+$` under the searched field, and every one it finds comes from a stored document |
| Ids.LexLeReflexive | user_question_answer/agent.py:79 | the string order the sort uses is reflexive |
| Ids.LexLeTotal | user_question_answer/agent.py:79 | any two strings are comparable in the sort order |
| Ids.LexLeTransitive | user_question_answer/agent.py:79 | the sort order is transitive |
| Ids.LexLeAntisymmetric | user_question_answer/agent.py:79 | two strings that each sort no later than the other are equal, so the sort's first value is unique |
| Ids.MaxLex | user_question_answer/agent.py:79 | the first value of the descending sort is one of the candidates, and no candidate sorts after it |
| Ids.GenerateId | user_question_answer/agent.py:75-85 | the generator always returns the prefix followed by digits |
| Ids.FirstId | user_question_answer/agent.py:85 | the fallback `prefix + "001"` is identifier number 1 and is accepted by the pattern |
| Ids.FormatIdParses | user_question_answer/agent.py:83 | `f"{prefix}{num:03d}"` is accepted by the pattern and carries `num` |
| Ids.GenerateIdDefault | user_question_answer/agent.py:84-85 | with no document holding a match under the searched field, the answer is `prefix + "001"` |
| Ids.GenerateIdFollowsGreatest | user_question_answer/agent.py:79-83 | with a one-letter prefix and some match, the answer is one more than the number of the greatest match in string order |
| Ids.GenerateIdLongPrefix | user_question_answer/agent.py:81-82 | with a prefix whose second character is a letter, `last_id[1:]` never parses and the answer is always `prefix + "001"` |
| Ids.GenerateIdIgnores | user_question_answer/agent.py:79 | a document without the searched field has no say in the next identifier |
| Ids.GenerateIdAfterP009 | user_question_answer/agent.py:79-83 | a store holding `P009` gets `P010` next |
| Ids.P999OutranksP1000 | user_question_answer/agent.py:79 | in string order `P999` comes after `P1000`, so the descending sort returns `P999` |
| Ids.NumberAfterP999 | user_question_answer/agent.py:82-83 | `P999` parses to 999 and the next identifier is `P1000` |
| Ids.P1000AndP999Found | user_question_answer/agent.py:79 | two documents holding `P1000` and `P999` under `p_id` yield exactly those candidates |
| Ids.GenerateIdRepeatsP1000 | user_question_answer/agent.py:79-83 | once `P1000` and `P999` are stored, the generator returns `P1000` again, which a stored document already holds |
| Ids.MaxSuffix | user_question_answer/agent.py:79-82 | the numerically greatest number among the matches: no match exceeds it, and some match attains it |
| Ids.NextFreshId | user_question_answer/agent.py:75-85 | corrected generator: accepted by the pattern, held by no stored document, and numbered above every match |
| Ids.SequentialMax | user_question_answer/agent.py:79-82 | documents numbered 1 to N have greatest number N |
| Ids.SequentialIds | user_question_answer/agent.py:75-85 | after identifiers 1 to N the corrected generator gives number N + 1 |
| Records.KindOf | user_question_answer/agent.py:99-101 | a collection name is accepted exactly when it is `products`, `suppliers` or `orders`, and then it names the kind |
| Records.HasFields | user_question_answer/agent.py:110 | the loop answers true exactly when every required field is present |
| Records.FillDefaults | user_question_answer/agent.py:120-128 | every listed field that was absent is added as `""`, present fields keep their values, and nothing else is added |
| Records.Prepare | user_question_answer/agent.py:103-160 | missing required fields give the missing-fields error; an order total that cannot be computed gives "Insert failed"; otherwise the result is the enriched document |
| Records.EnrichedUnique | user_question_answer/agent.py:105-160 | the enrichment is determined: two documents that both satisfy it are equal |
| Records.CorrectedIdsAreSequential | user_question_answer/agent.py:117 | a record numbered by the corrected generator extends a numbering 1..N to 1..N+1 |
| Queries.Find | user_question_answer/agent.py:221 | `find(filter)` returns exactly the stored documents that match, no more of them than are stored |
| Queries.DeleteWhere | user_question_answer/agent.py:341 | `delete_many` keeps exactly the non-matching documents; the kept and the matched documents together are the old collection, so the deleted count is the matched count and nothing matches afterwards |
| Queries.SetFields | user_question_answer/agent.py:229 | `$set`: the named fields take their new values, all other fields keep theirs, and nothing is removed |
| Queries.SetWhere | user_question_answer/agent.py:233-237 | `update_many`: each matching document gets `$set`, others are unchanged, and no document is added (no upsert) or removed |
| Queries.ModifiedCount | user_question_answer/agent.py:257 | `modified_count` never exceeds `matched_count` |
| Queries.ModifiedCountIsDiffering | user_question_answer/agent.py:257-273 | `modified_count` equals the number of positions at which `update_many` leaves a different document |
| Queries.ChangedIsModified | user_question_answer/agent.py:257 | a matched document counted as modified really is different after `$set` |
| Queries.ModifiedZeroIffNoOp | user_question_answer/agent.py:257-262 | `modified_count` is 0 exactly when `update_many` leaves the collection as it was, the case the source reports as "values already match" |
| Queries.UnchangedIsNoOp | user_question_answer/agent.py:257-258 | a matched document not counted as modified is left exactly as it was |
| Queries.MatchAfterSet | user_question_answer/agent.py:268 | an updated document still matches exactly when the new values agree with the filter |
| Queries.MatchesAfterUpdate | user_question_answer/agent.py:268-277 | the re-read count equals `matched_count` when the new values agree with the filter, and is 0 when they overwrite a filtered field |
| Queries.RepeatedUpdateModifiesNothing | user_question_answer/agent.py:221-265 | a second identical update modifies nothing; it finds matches again (so reports "no changes were needed") exactly when the first matched and the new values agree with the filter, and otherwise gets the no-match error |
| Queries.UpdateIdempotent | user_question_answer/agent.py:233-237 | a second identical update leaves the collection as the first left it |
| RecordStore.UpdateReport | user_question_answer/agent.py:257-278 | the "no changes were needed" outcome occurs exactly when documents matched but none changed; both outcomes carry the matched and modified counts, and the other one also the updated field names and the re-read count |
| RecordStore.DeleteReport | user_question_answer/agent.py:378-402 | zero deleted is an error carrying the counts before and after, residual matches a warning carrying the deleted and remaining counts, otherwise success with the counts before and after |
| RecordStore.WithHandle | user_question_answer/agent.py:163 | `insert_one` adds a handle under `_id` only if the document has none, and keeps every field |
| RecordStore.Returned | user_question_answer/agent.py:164 | the returned document has `_id` as text and every other field unchanged |
| RecordStore.Store.Add | user_question_answer/agent.py:163 | the document, with its handle, is appended to its collection; the other collections are unchanged |
| RecordStore.Store.InsertKind | user_question_answer/agent.py:103-171 | the per-kind insert: refusals leave the store unchanged; success appends exactly the enriched document and returns it |
| RecordStore.Store.Insert | user_question_answer/agent.py:88-177 | an unknown collection, missing fields or a failing order total leave the store unchanged with the matching error; otherwise exactly one enriched record, numbered by the corrected generator, is appended and returned |
| RecordStore.Store.Update | user_question_answer/agent.py:190-285 | an unknown collection or no match leaves the store unchanged with the matching error; otherwise the collection becomes the `update_many` result, nothing else changes, and the outcome carries the matched, modified and re-read counts |
| RecordStore.Store.Delete | user_question_answer/agent.py:298-409 | an unknown collection or no match leaves the store unchanged with the matching error; otherwise exactly the matching documents are removed and the outcome is plain success with count before = deleted = matched and 0 after |
| RecordStore.InsertNeverAdvancesId | user_question_answer/agent.py:79-117 | an inserted document whose payload lacks `p_id`/`s_id`/`o_id` leaves the as-written generator's next answer unchanged |
| RecordStore.AsWrittenSecondProductGetsP001 | user_question_answer/agent.py:79-117 | with the as-written generator, the product stored after `P001` is given `P001` again |
| RecordStore.InsertProduct | user_question_answer/agent.py:108-128 | a product insert into a collection numbered 1..N is number N + 1 and keeps the numbering sequential |
| RecordStore.TwoProductsNumberedInOrder | user_question_answer/agent.py:608 | two products inserted into an empty store are `P001` and `P002`, as the assistant's instructions describe |

## Left out

- The MongoDB connection is left out: the `ping` commands, the `sleep` calls and the driver-result checks (`hasattr`, `result is None`). With a conforming driver those error branches cannot be taken, so the model has none of them.
- Exceptions other than the order-total TypeError are left out: the driver, the network and the server failing, and the "Update failed" / "Delete failed" messages. The store is in memory and cannot fail.
- The string-to-ObjectId conversion of a filter's `_id` is left out. The model does not capture that the source also rewrites the caller's filter in place. Handles are opaque values, so a filter matches a handle only with the handle itself.
- Numbers are unbounded. BSON stores at most 8-byte integers, so a payload number or an order total above 2^63-1 makes `insert_one` raise OverflowError ("Insert failed"). The model stores the value. Sizes are unbounded too: a document above BSON's 16 MiB limit makes `insert_one` raise DocumentTooLarge, and a string `quantity` times a huge `price_per_unit` makes `str * n` raise OverflowError or MemoryError, both "Insert failed" in the source; the model stores the document.
- `$set` keys that contain dots or start with `$` are not modelled. The server reads these as nested paths or rejects them. The model sets a top-level field of that name.
- JSON's `true`, `false` and `null` are not modelled as field values; a value is a string, a number or a store handle. In the source, `null` as an order's `quantity` makes the total raise TypeError ("Insert failed"), `true` multiplies as 1, and a `null` in a filter also matches documents that lack the field (a product stored without `supplier`, for instance).
- Filters are field equality only. Query operators such as `$gt`, dotted paths and array matching are not modelled.
- Server-side `_id` rules are not modelled: a duplicate caller-supplied `_id` failing the insert, and `$set` on `_id` failing the update.
- An empty `update_data` is applied as a no-op. Older servers reject an empty `$set`.
- `datetime.now()` is left out. Today's date is the parameter `today`.
- Field order inside a document is not modelled: documents are maps.
- Floating-point values are not modelled. Numbers are integers, so an order total is exact.
- Concurrent writers are not modelled. Each operation runs alone, so `matched_count` equals the count found before the update.
- `Values.Render`: a store handle is rendered as its decimal numeral. MongoDB prints an ObjectId as 24 hexadecimal digits. Only "reads back as itself" is stated.
- `Ids.Lower` is ASCII only. `str.lower()` on other letters is not modelled; the source only ever lower-cases `P`, `S` and `O`.
- Numerals.ParseInt: accepts only unsigned ASCII digit strings. Python's `int(...)` also accepts a leading sign, surrounding whitespace and underscores between digits. This matters only when the text after the first character of an identifier starts with one of these. The source's one-letter prefixes `P`, `S` and `O` never give such text, because the pattern requires digits after the prefix.
- Identifier parsing treats a digit as ASCII `0`-`9`, and the pattern's `$` is read as end of string. The model does not capture Unicode digits, `$` before a final newline, regular-expression metacharacters in a prefix, or Python's 4300-digit limit on `int(...)`.
- `db_access` (the read tool), `send_email`, the agent configuration and instructions, and `verify_agent_tools.py` are not part of this model.

## Findings

| source | as written | input that shows it | evidently intended | confidence | as-written member | corrected member |
|---|---|---|---|---|---|---|
| user_question_answer/agent.py:79 | the generator searches the field `p_id` (`s_id`, `o_id`), but the insert writes the identifier to `product_id` (`supplier_id`, `order_id`) at lines 117, 140 and 155, so no stored document ever matches | two products inserted into an empty collection, neither payload carrying `p_id`: both are given `P001` | successive records numbered `P001`, `P002`, … (the assistant's instructions at line 608) | high; not executed | RecordStore.AsWrittenSecondProductGetsP001 | Ids.NextFreshId |
| user_question_answer/agent.py:79 | the greatest identifier is found by sorting the string values in descending order, and `P999` sorts after `P1000` | a collection holding `P1000` and `P999` under the searched field: the generator returns `P1000` again | take the numerically greatest identifier and return `P1001` | high; not executed | Ids.GenerateIdRepeatsP1000 | Ids.NextFreshId |

For both rows, `Ids.NextFreshId` is proved to give an identifier no stored
document holds and numbered above every existing one. `Ids.SequentialIds`,
`Records.CorrectedIdsAreSequential` and
`RecordStore.TwoProductsNumberedInOrder` show that it numbers records
`P001`, `P002`, … in order. `RecordStore.Store.Insert` uses it.
