# A verified model of the lists/sets/to-dos CRUD service core

The service is an actix-web and sqlx back end over three tables: lists, sets and to-dos. This project models its logic as Dafny and proves properties of the model. The HTTP and SQL plumbing is left out.

- **Request-body classifier.** `MaybeJson::from_request` turns a request's headers and its stream of body chunks into exactly one of `Empty`, `Valid(value)` or `Invalid(reason)`. Two revisions are modelled:
  - the current one (`Extractor`), with a configurable size limit, a media-type gate and the `[]` rule;
  - the older one (`LegacyExtractor`), with an exact `application/json` match and no size limit.

  The header checks are functions. The body loop is a method with loop invariants, proved against the functions that specify it.
- **Dispatcher and error taxonomy.**
  - `Dispatch.QuerySome` routes a classifier outcome to the storage function or to an error.
  - `QueryShared` maps payload errors and database errors to `JsonError`.
  - `JsonErrors` gives each `JsonError` its status code and its one-member JSON body.
- **Wire forms.**
  - `Targets` models the tagged `{"target": …, "id": …}` query targets.
  - `Addresses` models the untagged, positional set and to-do addresses.

  Both are encode/decode pairs over a small JSON value type (`Json`).
- **SQL text builders.**
  - `Predicates` holds the `push_str` folds that partition addresses into `IN (…)` lists, and the `WHERE` conditions built from them.
  - `RmdbQuery`, `RmdbDelete`, `RmdbInsert` and `RmdbUpdate` build the statements and make the database requests.

  The database is a `Database.Store`. It logs every request made of it and answers each one through an oracle. So each storage method is specified by the exact sequence of requests it makes: its plan. Its result and final log are tied to the oracle's answers (`RanUntilFailure`).
- **Entity identity.** `Entities` records that `List`, `Set` and `ToDo` compare, order and hash by `id` alone.

Integers are written as decimal text by `Decimal.IntText`, which is verified injective. Ids are 32-bit (`Base.i32`), and lengths and limits are `usize` (below 2^64).

## Model

| member | source | states |
|---|---|---|
| Extractor.MaybeJsonConfig.WithLimit | programs/rs_backend/src/api/types/extractor.rs:118-125 | the new limit is `n`; the media-type predicate and the required flag are unchanged |
| Extractor.MaybeJsonConfig.WithContentType | programs/rs_backend/src/api/types/extractor.rs:128-138 | the predicate becomes `Some(accepts)`; limit and required flag unchanged |
| Extractor.MaybeJsonConfig.WithContentTypeRequired | programs/rs_backend/src/api/types/extractor.rs:141-148 | the required flag becomes `required`; limit and predicate unchanged |
| Extractor.DefaultConfig | programs/rs_backend/src/api/types/extractor.rs:151-158 | limit 2 097 152, no predicate, content type required |
| Extractor.NoDeclaredLengthIsEmpty | programs/rs_backend/src/api/types/extractor.rs:33-38 | an absent, unparseable or zero Content-Length gives `Empty`, whatever the configuration and media type |
| Extractor.KnownOverflowFirst | programs/rs_backend/src/api/types/extractor.rs:39-46 | a declared length above the limit gives `OverflowKnownLength(length, limit)` before the media type is looked at |
| Extractor.ContentTypeGate | programs/rs_backend/src/api/types/extractor.rs:48-67 | for a declared length within the limit, the header phase lets the request through iff the type is not required, or the mime parsed and has subtype `json`, suffix `json` or is accepted by the predicate; otherwise `ContentType` |
| Extractor.ReadBody | programs/rs_backend/src/api/types/extractor.rs:69-83 | reading completes iff every chunk is bytes and every running total stays within the limit; the body is then the chunks' bytes in order; otherwise it stops at the first failing chunk with `Payload(e)` or `Overflow(limit)`, and no later chunk is pulled |
| Extractor.FitsPrefix | programs/rs_backend/src/api/types/extractor.rs:78-82 | every prefix of a stream that fits the limit fits it too (the loop invariant) |
| Extractor.NotFitsExtends | programs/rs_backend/src/api/types/extractor.rs:78-80 | once a prefix overflows or fails, the whole stream does |
| Extractor.StopIsUnique | programs/rs_backend/src/api/types/extractor.rs:72-82 | the chunk at which reading stops is unique |
| Extractor.EmptyArrayRule | programs/rs_backend/src/api/types/extractor.rs:89-103 | a body whose non-whitespace bytes are `[]` gives `Empty` when it parses and `Deserialize` when it does not |
| Extractor.ParsedBodyIsValid | programs/rs_backend/src/api/types/extractor.rs:95-101 | a non-empty body that parses and is not `[]` gives `Valid` of the parsed value |
| Extractor.FromRequest | programs/rs_backend/src/api/types/extractor.rs:22-105 | the whole ladder: an outcome decided by the headers reads nothing; otherwise the result is the finish of the complete body, or the stop error; the extractor never fails |
| Extractor.StreamedOverflow | programs/rs_backend/src/api/types/extractor.rs:78-80 | when reading stops at a bytes chunk, the error is `Overflow(limit)` and the running total exceeds the limit, even if the declared length was small |
| Payload.FlattenAppend | programs/rs_backend/src/api/types/extractor.rs:82 | appending chunks appends their bytes |
| Payload.StripWhitespace | programs/rs_backend/src/api/types/extractor.rs:89-93 | the filtered body is no longer than the body and holds no ASCII whitespace |
| Payload.StripAppend | programs/rs_backend/src/api/types/extractor.rs:89-93 | filtering distributes over concatenation |
| Payload.StripNoWhitespace | programs/rs_backend/src/api/types/extractor.rs:89-93 | filtering leaves a body without whitespace unchanged |
| Payload.PaddedEmptyArray | programs/rs_backend/src/api/types/extractor.rs:89-98 | `[` and `]` surrounded and separated by any whitespace filter to `[]` |
| LegacyExtractor.HeaderToStr | programs/rs_backend/src/api/types.rs:25-36 | a header value converts to text iff every byte is visible ASCII, and then byte for byte |
| LegacyExtractor.HeaderTextRoundTrip | programs/rs_backend/src/api/types.rs:25-36 | visible-ASCII text written as header bytes converts back to itself |
| LegacyExtractor.DeclaredLength | programs/rs_backend/src/api/types.rs:25-28 | a Content-Length holding the decimal text of `n` is read as `n` |
| LegacyExtractor.MalformedLengthIsEmpty | programs/rs_backend/src/api/types.rs:25-31 | a non-ASCII or non-numeric Content-Length gives `Empty` |
| LegacyExtractor.ExactMediaType | programs/rs_backend/src/api/types.rs:33-39 | with a positive length, the request goes on iff the Content-Type is exactly `application/json`; otherwise `ContentType` |
| LegacyExtractor.LegacyReadBody | programs/rs_backend/src/api/types.rs:41-52 | with no limit, reading completes iff every chunk is bytes, giving all bytes in order; otherwise it stops at the first failed chunk |
| LegacyExtractor.EmptyArrayIsValid | programs/rs_backend/src/api/types.rs:54-61 | the older revision gives `Valid` for every non-empty body that parses, `[]` included, where the current one gives `Empty` |
| LegacyExtractor.LegacyFromRequest | programs/rs_backend/src/api/types.rs:20-63 | the whole older ladder; every path returns `Ok` |
| LegacyExtractor.NoSizeLimit | programs/rs_backend/src/api/types.rs:41-52 | a stream of bytes chunks longer than a limit, which the older loop reads to the end, makes the current revision's loop stop at some chunk with `Overflow(limit)` |
| Dispatch.QuerySome | programs/rs_backend/src/api/utils/query_some.rs:9-29 | storage is called exactly once, with the payload, iff the input is `Valid` (`storageCalls` is the model's record of the call, written in each arm); the result is `Ok` iff the input is `Valid` and storage succeeds, and then holds storage's value unchanged; `Empty`, `Invalid` and a storage failure give the stated errors |
| Dispatch.DispatchStatus | programs/rs_backend/src/api/utils/query_some.rs:19-28 | the status of each failure: 400 for `Empty`, the mapped status for `Invalid`, 400 for `InvalidArgument` and 500 for other database errors |
| Dispatch.EmptyCollectionForwarded | programs/rs_backend/src/api/utils/query_some.rs:15-20 | a `Valid` empty collection is passed to storage; there is no length check |
| Dispatch.NoLengthAnswer | programs/rs_backend/src/api/utils/query_some.rs:24-26 | a request with no declared length is answered 400 "Empty request not allowed" without a storage call |
| Dispatch.KnownOverflowAnswer | programs/rs_backend/src/api/utils/query_some.rs:27 | a declared length above the limit is answered 413 without a storage call |
| QueryShared.MapInputErr | programs/rs_backend/src/api/utils/query_shared.rs:6-29 | both overflows map to `PayloadTooLarge`, `ContentType` to `UnsupportedMediaType`, `Payload` and `Deserialize` to `BadRequest`, the rest to `Unknown`, never to `ServerError` (each as an iff) |
| QueryShared.MapQueryErr | programs/rs_backend/src/api/utils/query_shared.rs:31-38 | `InvalidArgument(msg)` maps to `BadRequest` with a message ending in `msg`; everything else to `ServerError` |
| QueryShared.InputErrorStatus | programs/rs_backend/src/api/utils/query_shared.rs:6-29 | the status of each mapped payload error: 413, 415, 400 or 500 |
| QueryShared.QueryErrorStatus | programs/rs_backend/src/api/utils/query_shared.rs:31-38 | 400 for `InvalidArgument`, 500 otherwise |
| QueryShared.OverflowMessageInjective | programs/rs_backend/src/api/utils/query_shared.rs:8-11 | the overflow message determines the limit |
| QueryShared.KnownLengthMessageInjective | programs/rs_backend/src/api/utils/query_shared.rs:12-17 | the known-length message determines both the length and the limit |
| QueryShared.MapInputErrInjective | programs/rs_backend/src/api/utils/query_shared.rs:6-29 | distinct payload errors map to distinct `JsonError`s |
| QueryShared.MapQueryErrInjective | programs/rs_backend/src/api/utils/query_shared.rs:31-38 | distinct database errors map to distinct `JsonError`s |
| JsonErrors.StatusCode | programs/rs_backend/src/api/types/error.rs:40-48 | every status is a 4xx or 5xx, and it is 500 or above iff the variant is `ServerError` or `Unknown` |
| JsonErrors.ErrorResponse | programs/rs_backend/src/api/types/error.rs:16-38 | the status is `StatusCode` of the same value; the body is an object with the single member `error`, whose text ends with the message |
| JsonErrors.PrefixesDiffer | programs/rs_backend/src/api/types/error.rs:18-36 | the prefixes of different variants differ within their first three characters |
| JsonErrors.ErrorResponseInjective | programs/rs_backend/src/api/types/error.rs:16-38 | the response determines the variant and the message |
| JsonErrors.DisplayHidesDetail | programs/rs_backend/src/api/types/error.rs:51-55 | every error displays as `Json Error` |
| Json.AsI32 | programs/rs_backend/src/types.rs:27-29 | a JSON number is an id iff it lies in the 32-bit signed range |
| Addresses.DecodeOptionalId | programs/rs_backend/src/types.rs:43 | decoding succeeds iff the value is `null` or a 32-bit number |
| Addresses.SetAddressRoundTrip | programs/rs_backend/src/types.rs:31-36 | decoding an encoded set address gives it back |
| Addresses.ToDoAddressRoundTrip | programs/rs_backend/src/types.rs:38-44 | decoding an encoded to-do address gives it back |
| Addresses.SetAddressShapesDisjoint | programs/rs_backend/src/types.rs:31-36 | no JSON value has the shape of both set variants |
| Addresses.ToDoAddressShapesDisjoint | programs/rs_backend/src/types.rs:38-44 | the three to-do variants have pairwise disjoint shapes |
| Addresses.SetAddressDecodeEncode | programs/rs_backend/src/types.rs:31-36 | whatever decodes encodes back to the same value |
| Addresses.ToDoAddressDecodeEncode | programs/rs_backend/src/types.rs:38-44 | whatever decodes encodes back to the same value |
| Addresses.NullSetIdOnlyInSingular | programs/rs_backend/src/types.rs:42-43 | `[lid, null]` is refused; `[lid, null, tdid]` is a `Singular` without a set id |
| Addresses.OutOfRangeIdRefused | programs/rs_backend/src/types.rs:27-29 | every number outside the 32-bit signed range is refused in every slot of every shape, whatever the other slots hold |
| Targets.DecodeSetTarget | programs/rs_backend/src/types/queries.rs:5-12 | a decoded set target carries the tag and id it was read from |
| Targets.DecodeToDoTarget | programs/rs_backend/src/types/queries.rs:14-23 | a decoded to-do target carries the tag and id it was read from |
| Targets.ArrayFormDecodes | programs/rs_backend/src/types/queries.rs:5-23 | the two-element array `[tag, id]` decodes to the target with that tag and id |
| Targets.MalformedArrayRefused | programs/rs_backend/src/types/queries.rs:5-23 | an array of any other length, or without a string first, decodes to no target |
| Targets.DuplicateMemberRefused | programs/rs_backend/src/types/queries.rs:5-6 | an object naming `target` or `id` more than once decodes to no target |
| Targets.RepeatedMembersRefused | programs/rs_backend/src/types/queries.rs:14-15 | `{"target":"list","id":1,"id":2}` and `{"target":"list","target":"set","id":1}` are refused |
| Targets.UntagTagged | programs/rs_backend/src/types/queries.rs:6 | the tag and id of `{"target": tag, "id": id}` are read back |
| Targets.SetTargetRoundTrip | programs/rs_backend/src/types/queries.rs:5-12 | decoding an encoded set target gives it back |
| Targets.ToDoTargetRoundTrip | programs/rs_backend/src/types/queries.rs:14-23 | decoding an encoded to-do target gives it back |
| Targets.UnknownTagRefused | programs/rs_backend/src/types/queries.rs:5-23 | a tag outside the renamed set is refused; a set target refuses `todo` |
| Targets.SetTargetEncodingInjective | programs/rs_backend/src/types/queries.rs:5-12 | two set targets have the same encoding iff they are equal |
| Targets.ToDoTargetEncodingInjective | programs/rs_backend/src/types/queries.rs:14-23 | two to-do targets have the same encoding iff they are equal |
| Targets.StructuralIdentity | programs/rs_backend/src/types/queries.rs:5-23 | `List(n)` and `Set(n)` differ, so a set of targets holds both |
| Targets.MemberOrderIrrelevant | programs/rs_backend/src/types/queries.rs:15-23 | the members of a tagged object may come in either order |
| Entities.ListIdentity | programs/rs_backend/src/types/entities/list.rs:16-40 | equality is equality of ids; `partial_cmp` is `Some(cmp)`; `eq` is an equivalence; `cmp` is a total order equal exactly where `eq` holds; the hash input is equal for equal values |
| Entities.SetIdentity | programs/rs_backend/src/types/entities/set.rs:17-41 | the same for `Set` |
| Entities.ToDoIdentity | programs/rs_backend/src/types/entities/todo.rs:21-45 | the same for `ToDo` |
| Decimal.IntText | programs/rs_backend/src/db/sqlx/rmdb/query_some.rs:15 | the text of an integer is non-empty and ends with a digit |
| Decimal.IntTextInjective | programs/rs_backend/src/db/sqlx/rmdb/query_some.rs:15 | distinct integers have distinct texts |
| Decimal.ParseUsize | programs/rs_backend/src/api/types.rs:27 | only a non-empty run of digits, with an optional `+`, parses |
| Decimal.ParseUsizeOfNatText | programs/rs_backend/src/api/types.rs:27 | the decimal text of a `usize` parses back to it |
| Text.TrimEndMatches | programs/rs_backend/src/db/sqlx/rmdb/query_some.rs:58-59 | the trimmed text is a prefix of the original and no longer ends with the pattern |
| Text.TrimTerminated | programs/rs_backend/src/db/sqlx/rmdb/query_some.rs:58-59 | trimming `", "` off a separator-terminated list of solid items gives exactly the items joined by `", "` |
| Predicates.SetAddressLists | programs/rs_backend/src/db/sqlx/rmdb/query_some.rs:40-62 | the `WholeList` ids, and the `Singular` pairs as `(lid, sid)`, each in input order and joined by `", "` |
| Predicates.ToDoAddressLists | programs/rs_backend/src/db/sqlx/rmdb/query_some.rs:90-123 | the three partitions (ids, `(lid, sid)` pairs, `(lid, sid, tdid)` triples), each in input order and joined by `", "` |
| Predicates.SetPartitionExact | programs/rs_backend/src/db/sqlx/rmdb/query_some.rs:43-56 | every set address lands in its own variant's list as often as it occurs in the input, and the lists together are as long as the input |
| Predicates.ToDoPartitionExact | programs/rs_backend/src/db/sqlx/rmdb/query_some.rs:93-115 | the same for the three to-do partitions |
| Predicates.IdListSeparators | programs/rs_backend/src/db/sqlx/rmdb/query_some.rs:12-18 | `k` ids give exactly `k - 1` separating commas, and no ids give an empty list |
| RmdbQuery.ListOfRow | programs/rs_backend/src/db/sqlx/rmdb/query_some.rs:24-27 | the list's id comes from `lid` |
| RmdbQuery.SetOfRow | programs/rs_backend/src/db/sqlx/rmdb/query_some.rs:73-77 | the set's id comes from `sid`, its list id from `lid` |
| RmdbQuery.ToDoOfRow | programs/rs_backend/src/db/sqlx/rmdb/query_some.rs:134-141 | the to-do's id comes from `tdid`; every other field from its own column |
| RmdbQuery.ListsOfRows | programs/rs_backend/src/db/sqlx/rmdb/query_some.rs:22-29 | one list per row, in row order |
| RmdbQuery.SetsOfRows | programs/rs_backend/src/db/sqlx/rmdb/query_some.rs:71-79 | one set per row, in row order |
| RmdbQuery.ToDosOfRows | programs/rs_backend/src/db/sqlx/rmdb/query_some.rs:132-143 | one to-do per row, in row order |
| RmdbQuery.QueryLists | programs/rs_backend/src/db/sqlx/rmdb/query_some.rs:6-32 | acquires a connection, then runs `SELECT * FROM lists WHERE lid IN (…);`, stopping at the first failure; on success, one list per returned row |
| RmdbQuery.QuerySets | programs/rs_backend/src/db/sqlx/rmdb/query_some.rs:34-82 | the same with the two-list set condition |
| RmdbQuery.QueryToDos | programs/rs_backend/src/db/sqlx/rmdb/query_some.rs:84-146 | the same with the three-list to-do condition |
| RmdbQuery.NullSetIdQueried | programs/rs_backend/src/db/sqlx/rmdb/query_some.rs:103-109 | a `Singular` address without a set id is queried as `(lid, NULL, tdid)` |
| RmdbDelete.DeleteLists | programs/rs_backend/src/db/sqlx/rmdb/delete_some.rs:5-26 | runs `DELETE FROM lists WHERE lid IN (…);` on the connection; its error is returned unchanged; otherwise `Ok(())` |
| RmdbDelete.DeleteSets | programs/rs_backend/src/db/sqlx/rmdb/delete_some.rs:28-70 | the same for sets |
| RmdbDelete.DeleteToDos | programs/rs_backend/src/db/sqlx/rmdb/delete_some.rs:72-125 | the same for to-dos |
| RmdbDelete.SameConditionAsQuery | programs/rs_backend/src/db/sqlx/rmdb/delete_some.rs:9-114 | after the verb and table, each delete statement is the query statement for the same input, character for character |
| RmdbInsert.ListTuples | programs/rs_backend/src/db/sqlx/rmdb/insert_some.rs:19-23 | one tuple per entry |
| RmdbInsert.ListTuplesInOrder | programs/rs_backend/src/db/sqlx/rmdb/insert_some.rs:19-23 | tuple `i` is that of entry `i` |
| RmdbInsert.SetTuples | programs/rs_backend/src/db/sqlx/rmdb/insert_some.rs:45-49 | one tuple per entry |
| RmdbInsert.SetTuplesInOrder | programs/rs_backend/src/db/sqlx/rmdb/insert_some.rs:45-49 | tuple `i` is that of entry `i` |
| RmdbInsert.ToDoTuples | programs/rs_backend/src/db/sqlx/rmdb/insert_some.rs:71-93 | one tuple per entry |
| RmdbInsert.ToDoTuplesInOrder | programs/rs_backend/src/db/sqlx/rmdb/insert_some.rs:71-93 | tuple `i` is that of entry `i` |
| RmdbInsert.ValuesAreJoinedTuples | programs/rs_backend/src/db/sqlx/rmdb/insert_some.rs:19-95 | the VALUES text is the tuples in input order joined by `", "`, with no trailing separator |
| RmdbInsert.TitlesVerbatim | programs/rs_backend/src/db/sqlx/rmdb/insert_some.rs:19-51 | the title sits unescaped between the quotes of its tuple |
| RmdbInsert.ToDoDefaults | programs/rs_backend/src/db/sqlx/rmdb/insert_some.rs:74-87 | a missing `complete` is written as `false`, a missing set id or due date as `NULL`, a due date as its quoted RFC 3339 text |
| RmdbInsert.InsertLists | programs/rs_backend/src/db/sqlx/rmdb/insert_some.rs:9-33 | no entries give `InvalidArgument` with no request made; otherwise acquire, then run the INSERT, stopping at the first failure |
| RmdbInsert.InsertSets | programs/rs_backend/src/db/sqlx/rmdb/insert_some.rs:35-59 | the same for sets |
| RmdbInsert.InsertToDos | programs/rs_backend/src/db/sqlx/rmdb/insert_some.rs:61-106 | the same for to-dos |
| RmdbInsert.Connect | programs/rs_backend/src/db/sqlx/rmdb/insert_some.rs:29-30 | acquire, then run the statement, stopping at the first failure |
| RmdbInsert.EmptyBatchIsInvalidArgument | programs/rs_backend/src/db/sqlx/rmdb/insert_some.rs:13-17 | the empty-batch error reaches the client as a 400 `BadRequest` |
| RmdbUpdate.ListStatement | programs/rs_backend/src/db/sqlx/rmdb/update_some.rs:16-24 | no statement without a title; with one, exactly `UPDATE lists SET title = '<t>' WHERE lid = <id>;` |
| RmdbUpdate.SetStatement | programs/rs_backend/src/db/sqlx/rmdb/update_some.rs:43-46 | no statement without a title; with one, `… WHERE lid = <list_id> AND sid = <set_id>;` |
| RmdbUpdate.ToDoAssignments | programs/rs_backend/src/db/sqlx/rmdb/update_some.rs:70-78 | one assignment per supplied field, in the order title, complete, due date |
| RmdbUpdate.ToDoSetClause | programs/rs_backend/src/db/sqlx/rmdb/update_some.rs:67-79 | the pushed-and-trimmed clause is the assignments joined by `", "`; it is empty iff no field is supplied; it never ends with `", "` |
| RmdbUpdate.ToDoStatement | programs/rs_backend/src/db/sqlx/rmdb/update_some.rs:81-95 | a record with no supplied field makes no statement |
| RmdbUpdate.NullSetIdUpdated | programs/rs_backend/src/db/sqlx/rmdb/update_some.rs:67-95 | a to-do record without a set id that supplies some field makes exactly `UPDATE todos SET <assignments joined by ", "> WHERE lid = <lid> AND sid = NULL AND tdid = <tdid>;` |
| RmdbUpdate.TransactionPlan | programs/rs_backend/src/db/sqlx/rmdb/update_some.rs:10-29 | begin first, commit last, the statements in order between them |
| RmdbUpdate.UpdateLists | programs/rs_backend/src/db/sqlx/rmdb/update_some.rs:6-31 | begins, runs the statement of every record with a title in input order, then commits; stops at the first failure and returns it |
| RmdbUpdate.UpdateSets | programs/rs_backend/src/db/sqlx/rmdb/update_some.rs:33-58 | the same for sets |
| RmdbUpdate.UpdateToDos | programs/rs_backend/src/db/sqlx/rmdb/update_some.rs:60-104 | the same for to-dos, skipping records with no supplied field |
| RmdbUpdate.NoOpBatch | programs/rs_backend/src/db/sqlx/rmdb/update_some.rs:10-29 | a batch makes no statement iff every record is a no-op; its plan is then only begin and commit |
| RmdbUpdate.StatementsAtMostRecords | programs/rs_backend/src/db/sqlx/rmdb/update_some.rs:12-27 | at most one statement per record, and exactly one each iff no record is a no-op |
| RmdbUpdate.UpdateCommitsOnlyAfterAll | programs/rs_backend/src/db/sqlx/rmdb/update_some.rs:10-29 | a commit is logged iff the whole plan was made, and only after begin and every statement were answered `Ok` |
| Database.Store.Perform | programs/rs_backend/src/db/sqlx/rmdb/update_some.rs:21-23 | one request is appended to the log and answered by the oracle, given the earlier log |
| Database.CommitOnlyAfterAll | programs/rs_backend/src/db/sqlx/rmdb/update_some.rs:10-29 | for any plan ending with its only commit, a failure anywhere earlier leaves the commit out of the log |

## Left out

- HTTP and actix-web: requests, headers, `app_data` and responses are values (`RequestHead`, `RawHead`, `HttpResponse`). Building a response is not modelled beyond its status and JSON body.
- `ContentLength::parse` and `req.mime_type()` are given already parsed: an `Option<usize>` and a `MimeHeader`. A failed parse is `None` or `Unparseable`.
- serde_json parsing is an oracle `parse: seq<byte> -> Result<T, string>`. Foreign errors (`PayloadError`, `serde_json::Error`, `sqlx::Error` other than `InvalidArgument`) are kept as their displayed text.
- Futures, `.await` and cancellation: the body stream is a finite `seq<Chunk>`.
- chrono: a timestamp is carried as its RFC 3339 text.
- SQL execution: pools, connections and transactions are one `Store`, whose oracle answers each request. What a statement does in the database is not modelled: that `sid = NULL` never matches, that `IN ()` is invalid, and that `INSERT INTO lists (lid, title)` supplies one value per tuple.
- `Row::get` decoding: rows are given already typed (`ListRow`, `SetRow`, `ToDoRow`).
- The row-printing loops of the delete functions (console output).
- Which duplicate survives when a `Vec` of entities is collected into a `BTreeSet` or `HashSet`: only id-based equality, order and hash are stated.
- The route handlers, `main.rs` and `db/sqlx/rmdb/query_all.rs` are not part of this model.
- Entities.ListIdentity, Entities.SetIdentity, Entities.ToDoIdentity: they hold by the definitions alone, so their proofs are empty.

Where the model departs from the code as it reads:

- `api/utils/query_some.rs` lines 22 and 27 return the mapped error without wrapping it in `Err`. `Dispatch.QuerySome` returns it as `Err`, which is the evident intent.
- The rmdb functions take the older untagged addresses and the `Update*`/`Create*` records (`api/update.rs:17-40`, `api/create.rs:14-34`). They are modelled as written, not reconciled with the tagged targets.
- Insert and delete return `Ok(())` on success whatever rows come back. Update returns `Ok(())` after the commit.
