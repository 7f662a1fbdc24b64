# Brokerage/KYC chaincode: a Dafny model

This project models a Hyperledger Fabric chaincode that keeps records on a
ledger. The chaincode handles:

- **ID indexes.** These are ordered lists of IDs stored under the keys `_users`, `_things` and
  `_applications`.
- **Users, things and resources.** Each is an opaque blob in the world state. New users and
  things are appended to the `_users` and `_things` indexes, and `get_all_things` lists the things
  through theirs. No function lists the users.
- **Brokerage requests.** Each request is a twelve-column row of the `BrokerageRequests` table.
  A request is created with a fresh timestamp. Later, a typed read-modify-write update changes its
  Meeting, Video or Status.

The ledger is reduced to two immutable maps. One is the key/value world state, `map<string, Bytes>`.
The other is the named tables, each a schema plus `map<string, Row>`. Which ledger calls fail is an
input (`Store.Faults`), so every operation is a pure function. Each one returns the new ledger and
either a result or an error. The clock reading is a parameter too. A table cell is the protobuf
`oneof` `Column = StrCol(string) | BytesCol(bytes)`. `Store.GetString` is its `GetString_()`
getter, which reads only the string variant. So every BYTES column of a stored request (positions 3,
4, 5, 7, 8, 9 and 10) decodes as "".

Modules, leaves first:

- `Base`: `Option`, `Result` and `Error`.
- `Store`: the abstract ledger. This covers `GetState`, `PutState`, `CreateTable`, `InsertRow` and
  `ReplaceRow`, plus the schema-conformance invariant the ledger keeps for its tables.
- `Decimal`: `strconv.Itoa` and reading a numeral back.
- `Json`: the JSON of a `[]string` (the index blobs) and of a flat string-field struct (the
  timestamp record).
- `IndexManager`: `append_id` and `reset_indexes`.
- `Records`: `add_user`, `add_thing`, `get_user`, `get_thing`, `get_all_things`, `authenticate`,
  `add_resource` and `get_resource`.
- `Brokerage`: chaincode.go's request schema, row codec, `Init`, `create_brokerage_request`,
  `update_brokerage_application` and `get_brokerage_request`.
- `LegacyChaincode`: where cc1.go differs from chaincode.go. That is its eleven-column request row
  and its two-table `Init`.

cc1.go repeats `append_id`, `reset_indexes`, `add_user`, `add_thing`, `get_user`, `get_thing`,
`get_all_things`, `authenticate`, `add_resource` and `get_resource` word for word. Compare
cc1.go:252-280 with chaincode.go:234-262, and cc1.go:518-613 with chaincode.go:547-644. Each of
these is modelled once.

What the proofs show about the code as written:

- With `create`, `append_id` generates an ID whose numeric suffix reads back as its 1-based
  position in the index. An absent or unreadable index starts the numbering at "1". IDs generated
  from one prefix into an index nothing else writes are distinct.
- Without `create`, `append_id` does no membership check, so an ID added twice is listed twice.
- Building a request row and decoding it returns only the STRING columns: RequestID, Submitter,
  Approver, Status and Meeting. So a created request read back is not the request that was created.
- An update rewrites the whole row from the decoded record. The selected column gets the entire
  input JSON text. Every other BYTES column is emptied, so Documents, PersonalDetails and the rest
  are lost on every update. The TimeStamps column holds a fresh stamp for MEETING and is empty for
  every other kind.
- A VIDEO update is invisible to a later read, because Video is a BYTES column.
- `create_brokerage_request` and the update report success even when the ledger refuses their write.
- cc1.go's request row has eleven columns. Positions 8 and 9 are STRING where the schema declares
  BYTES, and there is no Meeting column. The ledger's schema check therefore refuses every such row.
- cc1.go's `Init` overwrites the error of creating `BrokerageRequests` before checking it. A failed
  creation of that table goes unreported.

## Model

| member | source | states |
|---|---|---|
| `IndexManager.AppendId` | chaincode.go:234-262 | A read error returns "Failed to get <key>" with nothing written. A write error returns "Error storing new <key> into ledger" with the state unchanged. On success the new ID is `id`, or `id` followed by the decimal of the old length + 1 when `create` is set. The decoded index is then the old index plus that one ID, and no other key changes. |
| `IndexManager.SuffixIsPosition` | chaincode.go:245-252 | With `create`, the returned ID is the last entry of the new index. Its suffix after `id` is the numeral of the index's new length, and it reads back as that 1-based position. |
| `IndexManager.FirstSuffixIsOne` | chaincode.go:241-249 | An absent, undecodable or empty index counts as empty, so the first generated ID is `id` + "1" and the index becomes exactly that ID. |
| `IndexManager.AppendDuplicates` | chaincode.go:246-252 | Without `create` there is no membership check: appending an ID already present leaves it at two positions. |
| `IndexManager.AppendKeepsNumbered` | chaincode.go:245-258 | If entry i is prefix + decimal(i+1) for every i, generating one more ID from the same prefix keeps that shape. |
| `IndexManager.NumberedIsDistinct` | chaincode.go:248 | An index of that shape has no repeated entry, so IDs generated from one prefix are unique. |
| `IndexManager.ResetKeys` | cc1.go:286-300 | Writes the empty index to each key in turn and stops at the first failed write with "Error deleting index". Keys before that point are cleared and every other key is unchanged. The call succeeds exactly when no write fails. |
| `IndexManager.ResetIndexes` | cc1.go:285-302 | Succeeds exactly when none of `_users`, `_things` and `_applications` fails to write, and then all three read as empty. Any failure reports "Error deleting index". No other key is touched. A failure at `_users` changes nothing. |
| `Json.StringsRoundTrip` | chaincode.go:242-255 | Unmarshalling the marshalled index gives back the same IDs in the same order. This includes the empty index, marshalled as `null`. |
| `Decimal.AtoiItoa` | chaincode.go:248 | `strconv.Itoa(n)` reads back as `n`. |
| `Decimal.ItoaInjective` | chaincode.go:248 | Two numbers have the same decimal numeral exactly when they are equal. |
| `Decimal.SuffixedInjective` | chaincode.go:248 | A prefix followed by a numeral determines the number. |
| `Records.AddIndexed` | chaincode.go:286-323 | Success exactly when the index read, the index write and the record write all succeed. On success `args[1]` is stored verbatim under `args[0]`, and the index gains `args[0]` at its end. The exception is when `args[0]` is the index key itself, because the record then overwrites the index. If the append fails, the state is unchanged and the error names `args[0]`. If the record write fails, the record is not stored but the index has already grown. Only the index key and `args[0]` can change. |
| `Records.AddUser` | chaincode.go:286-303 | On success, the user blob is stored under exactly the ID just appended as the last entry of `_users`. If the append fails, no record is written and the error is "Error creating new id for user <id>". |
| `Records.AddThing` | chaincode.go:305-323 | The same as `AddUser`, for `_things`. |
| `Records.GetUser` | chaincode.go:519-529 | Fails exactly when the read fails, with "Could not retrieve information for this user". Otherwise returns the stored blob, which is empty for an unknown user. |
| `Records.GetThing` | chaincode.go:531-545 | Fails exactly when the read of `args[0]` fails, with "Error getting from ledger". Otherwise returns the stored blob. |
| `Records.GetAllThings` | cc1.go:518-548 | A failed index read gives "Failed to get _things". The listing succeeds exactly when every member of the index reads. It then holds one decoded thing per index entry, in index order, so duplicates repeat. Otherwise the error names the first member whose read failed. |
| `Records.Authenticate` | cc1.go:550-583 | Never returns an error. It grants exactly when the user's read succeeds and the blob unmarshals. The grant carries the decoded user re-encoded. A failed read gives `{ "authenticated": false }` and an undecodable or missing user gives `{ "authenticated": false}`. |
| `Records.PasswordIgnored` | cc1.go:552-560 | Two calls with the same user ID give the same answer whatever else the arguments hold, so the password is never read. |
| `Records.AddResource` | cc1.go:586-598 | Stores `args[2]` under `args[0]` ++ `args[1]` and changes no other key. A failed write gives "Error putting resource data on ledger" with the state unchanged. |
| `Records.GetResource` | cc1.go:600-613 | Fails exactly when the read of `args[0]` ++ `args[1]` fails. Otherwise returns what is stored there. |
| `Records.ResourceRoundTrip` | cc1.go:586-613 | After storing a path, reading with any (owner, hash) whose concatenation equals the stored key returns that path. Any other pair returns what it read before. |
| `Records.ResourceKeysCollide` | cc1.go:590-605 | ("ab", "c") reads the path stored under ("a", "bc"). |
| `Brokerage.ToColumns` | chaincode.go:342-357 | The built row has exactly the 12 schema columns. Each cell's variant matches its declared type, and each position other than TimeStamps carries the field of the same position. TimeStamps carries the passed blob, and the key at position 0 is the RequestID. |
| `Brokerage.FromColumns` | chaincode.go:455-488 | Field i is the string getter applied to column i for i in 0..11. A field with no column stays "", and the update type is always "". |
| `Brokerage.ExtraColumnsIgnored` | chaincode.go:458-486 | Columns past the twelfth do not change the decoded request. |
| `Brokerage.ColumnsRoundTrip` | chaincode.go:455-488 | Build-then-decode returns every STRING field: RequestID, Submitter, Approver, Status and Meeting. Every BYTES field comes back "". |
| `Json.ObjectRoundTrip` | chaincode.go:445 | Reading back the JSON of a flat object of string fields gives the same members, names and values, in declaration order. |
| `Brokerage.TimeStampRoundTrip` | chaincode.go:86-90 | A timestamp record's JSON reads back as the same `Submit`, `MeetingConfirmation` and `FinalStatus`. |
| `Brokerage.CurrentTime` | chaincode.go:440-447 | The blob is non-empty and reads back as a timestamp record whose `Submit` is the clock reading passed in. `MeetingConfirmation` and `FinalStatus` are empty. |
| `Brokerage.CurrentTimeInjective` | chaincode.go:440-447 | Two stamps are equal exactly when their clock readings are, so the stamp depends on the reading. |
| `Brokerage.Init` | chaincode.go:201-227 | A failed write of `_applications` returns the ledger's error with nothing changed. Otherwise `_applications` reads as empty and no other key changes. Success comes exactly when the `BrokerageRequests` table can be created, and then it exists with the declared schema. A failed creation gives "Failed creating Brokerage Requests Table". |
| `Brokerage.CreateRequest` | chaincode.go:325-368 | Always answers nil without error and never touches the world state. When the key is new and the write does not fault, the table gains the request's row with a fresh Submit-only stamp. Otherwise the ledger is unchanged. |
| `Brokerage.GetRequest` | chaincode.go:646-652 | The read request never carries an update type. Over a well-formed table it carries the RequestID it was fetched by. Under the declared schema each STRING field is the content of the stored row's cell at that position, and every BYTES field reads as "". |
| `Brokerage.DecodeConforming` | chaincode.go:455-488 | Decoding a row that fits the schema gives the content of each STRING cell in its field and "" in every BYTES field. |
| `Brokerage.CreateThenGet` | chaincode.go:646-652 | After a successful create, reading the request back gives its STRING fields and "" for every BYTES field. |
| `Brokerage.ApplyUpdate` | chaincode.go:392-403 | The field that MEETING, VIDEO or STATUS selects receives the whole input text. Every other field and the update type are kept, and an unrecognised kind changes nothing. |
| `Brokerage.UpdateStamp` | chaincode.go:390-398 | The update's stamp is non-empty exactly for MEETING. For MEETING it is a fresh `get_current_time` record: the clock reading is its `Submit`, and `MeetingConfirmation` is empty. |
| `Brokerage.MeetingUpdateResetsStamp` | chaincode.go:396-419 | After a MEETING update, the TimeStamps column reads back as a record whose `Submit` is the update's clock reading and whose other members are empty, whatever it held before. The creation time is lost, and the meeting is not recorded as `MeetingConfirmation`. |
| `Brokerage.UpdateApplication` | chaincode.go:370-432 | Always returns the update's stamp and never an error, and the world state is never touched. If the replace lands, the row under the fetched key becomes the rebuilt row with the edit. If the replace fails, the ledger is unchanged. |
| `Brokerage.UpdatedRowColumns` | chaincode.go:405-422 | Over a row that fits the schema, the rewritten row behaves column by column as follows. TimeStamps holds the new stamp. The selected column holds the input text. Every other STRING column is unchanged. Every other BYTES column is emptied. |
| `Brokerage.UpdateErasesDocuments` | chaincode.go:412 | After any update the Documents column is empty, whatever it held. |
| `Brokerage.UpdateThenGet` | chaincode.go:384-422 | Reading back after an update gives the stored record with exactly the edit applied. The exception is a VIDEO update, which reads back as no change at all. |
| `Brokerage.UpdateTargetsFetchedRow` | chaincode.go:384-409 | Over a well-formed table, the key the update replaces under is the RequestID it fetched by. |
| `LegacyChaincode.LegacyCurrentTime` | cc1.go:435-443 | The blob is a JSON object with members `Submit`, `Meeting` and `FinalStatus`, in that order. Only `Submit` is set, to the clock reading. It is therefore not chaincode.go's timestamp record, whose second member is `MeetingConfirmation`. |
| `LegacyChaincode.LegacyColumns` | cc1.go:360-374 | The row has 11 columns against a 12-column schema. Its first eight columns equal chaincode.go's row. Positions 8 and 9 are empty STRING cells where BYTES is declared, TimeStamps is tenth, and there is no Meeting column. |
| `LegacyChaincode.LegacyRowMisfits` | cc1.go:219-232 | The row does not conform to the declared schema. Adding a twelfth column of either kind still does not make it conform. |
| `LegacyChaincode.LegacyCreateRequest` | cc1.go:343-374 | The ledger refuses the row, so creating a request never changes the ledger. |
| `LegacyChaincode.LegacyInit` | cc1.go:210-245 | A failed `_applications` write returns the ledger's error. Otherwise success comes exactly when the `User` table can be created. Any failure reads "Failed creating Brokerage Requests Table". `BrokerageRequests` exists afterwards exactly when it existed or its creation did not fail. |
| `LegacyChaincode.LegacyInitHidesFirstFailure` | cc1.go:219-242 | When creating `BrokerageRequests` fails and `User` succeeds, `Init` reports success and the table does not exist. |

## Left out

- JSON of `User`, `Thing` and the request struct is not modelled. Decoders and encoders are
  parameters, with empty input counting as an unmarshalling error. The final `json.Marshal` of the
  answers of `get_all_things` and `get_brokerage_request` is also not modelled: the model returns
  the decoded values.
- `Json.DecodeStrings` reads only the JSON that `Json.EncodeStrings` writes, plus `null` and `[]`.
  Other valid JSON arrays (whitespace, other escapes, partially typed arrays) count as unreadable,
  so they count as the empty index. The encoder escapes only `"` and `\`, while Go also escapes
  control characters and `<`, `>`, `&`. For IDs that are valid UTF-8, Go's decoder restores those
  escapes, so such IDs round-trip the same either way.
- `IndexManager.AppendId` assumes that every ID is valid UTF-8. Strings here are one character per
  byte. Go's `json.Marshal` replaces each byte that is not valid UTF-8 with U+FFFD. So an ID such as
  the single byte 0xFF is stored in the index as a different string from the one returned, which the
  model does not show. `Json.StringsRoundTrip` and `Json.ObjectRoundTrip` rest on the same
  assumption.
- The ledger library is abstracted, not modelled. Its failures are inputs. `InsertRow` and
  `ReplaceRow` are assumed to refuse rows that do not fit the table schema, and to answer `false`
  for an existing or absent key. Row reads never fail.
- Transaction rollback on error is not modelled. Writes made before an error remain in the returned
  state.
- Concurrency between transactions is not modelled. Lost updates are a property of the ledger.
- Wall-clock time is not modelled: `time.Now` formatted as a UTC Unix date is the `now` parameter.
- Logging and `fmt.Println` tracing are not modelled, and neither are `main` or the `Invoke` and
  `Query` string dispatchers. The dispatchers only select a function by name and index into the
  arguments. An argument list too short for the indices a function reads panics in Go, so it is a
  precondition here.
- `fetch_from_table` on a missing row ignores the `GetRow` error and then indexes its columns. It is
  a precondition (`Brokerage.Readable`) rather than a modelled panic.
- `get_all_brokerage_requests` in chaincode.go is the same code as `get_brokerage_request`.
- The parts of cc1.go that do not compile have no defined behaviour and are not modelled:
  - `update_brokerage_application` has a missing brace and an out-of-scope `timeStampJson`.
  - `fetch_from_brkg_table` and `fetch_from_user_table` have no result types, and the latter uses
    an undefined `userId`.
  - `get_user` is declared twice.
  - `get_brokerage_request` and `get_all_brokerage_requests` depend on the functions above.
  - In `create_brokerage_request`, the assignment at cc1.go:356 and the `return tx, nil` at
    cc1.go:383 do not compile, so only its row and the ledger's answer to it are modelled.
- The marshalling-error branch of `reset_indexes` is not modelled, because `json.Marshal` of a
  `[]string` cannot fail.
- The unused types and stubs are not modelled: `KyckUser`, `KyckAccessor`, `BrokerageResponse`,
  `ECertResponse` and `toJson`.
