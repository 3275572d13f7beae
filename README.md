# Bucket metadata service — a Dafny model

This project models the core of a bucket/object metadata service of the
Manta object store. Metadata is kept in Postgres, one schema per vnode
(`manta_bucket_<vnode>`), and served over Fast RPC. The repository holds
three generations of the server:

- `buckets-mdapi`, the current one;
- `boray`, its predecessor;
- the oldest server under `src/`.

It also holds `utils`, the schema manager.

The model covers:

- **Conditional requests.** The If-Match, If-None-Match, If-Modified-Since
  and If-Unmodified-Since evaluator, in both its typed form
  (`conditional.rs`) and its header-map form (`precondition.rs`). It
  follows HTTP conditional requests (RFC 7232), and the model keeps the
  evaluator's own departures from it.
- **The per-vnode store.** A class `Store.Vnode` holds the bucket and
  object tables and the deleted-row tables. Its methods are the
  create, get, update, delete and list transactions of the three servers,
  as the SQL each handler sends defines them. Every transaction applies
  all of its steps or none.
- **Result shaping.** The row- and column-count checks of `response`,
  the error names and canned messages, listing limits, ordering and
  pagination, and the data messages each RPC replies with.
- **The garbage batch.** A class `Gc.GarbageDb` holds the singleton
  batch id, the deleted-object rows and the garbage view. It models
  read-with-refresh and the delete-refresh-rotate transaction.
- **Request dispatch.** Unwrapping the Fast payload, the
  `handle_request` pipeline and `handle_msg`.
- **Schema setup.** Role and database creation (re-runnable), the vnode
  schemas, the public and vnode migration runners, and the stages of
  `create_bucket_schemas`.
- **Configuration.** Log levels, defaults, command-line overrides and the
  TLS mode decision.

The model does not talk to a database. Postgres is an oracle:

- `Migrations.Postgres` logs the statements it executes, and a function
  of the statements before a statement says whether that statement
  fails and with what text.
- In the store, each transaction step takes an optional fault parameter
  that stands for the database refusing that step.

Clocks, fresh UUIDs, template rendering, date parsing and file reads are
also parameters.

The three error enums share names and canned messages: boray's
(`boray/src/error.rs`) is the first five kinds of the buckets-mdapi enum,
and the oldest server's (`src/error.rs`) the first three. `Errors`
models them once, as subset types of one datatype.

## Model

| member | source | states |
|---|---|---|
| Errors.ParseName | buckets-mdapi/src/error.rs:16-29 | a name that is read back names the kind whose `to_string` prints it |
| Errors.WithMessage | buckets-mdapi/src/error.rs:60-67 | the error's name decodes to the kind given, and its message is exactly the caller's text |
| Errors.New | buckets-mdapi/src/error.rs:56-58 | `new` is `with_message` with the kind's canned message, so its name decodes to the kind |
| Errors.NameRoundTrip | buckets-mdapi/src/error.rs:16-29 | every kind's name decodes back to that kind |
| Errors.NamesDistinct | buckets-mdapi/src/error.rs:16-44 | two different kinds never share a name or a canned message |
| Errors.ErrorValueDecodes | buckets-mdapi/src/error.rs:56-67 | a caller can recover the kind and the canned message from an error built by `new` |
| Rows.SharkToString | buckets-mdapi/src/object.rs:61-65 | the text form is the datacenter, one ':', then the storage id, so its length is theirs plus one |
| Rows.SharkFromString | buckets-mdapi/src/object.rs:67-75 | parsing fails (the index panic) exactly when the text holds no ':'; parsed fields never hold a ':' |
| Rows.SharkRoundTrip | buckets-mdapi/src/object.rs:61-75 | printing a shark and parsing it back gives the same shark when neither field holds a ':' |
| Rows.SharkColonLost | buckets-mdapi/src/object.rs:61-75 | a ':' inside the datacenter is not preserved: `us:east`/`1` reads back as `us`/`east` |
| Rows.ThreePieces | buckets-mdapi/src/object.rs:67-75 | text with two ':' reads back as its first two pieces, and the third is dropped |
| Rows.ObjectResponse | buckets-mdapi/src/object.rs:152-196 | no row means absent; exactly one row of at least 12 columns is that object; a short row or several rows is a PostgresError naming the method and the column or row count |
| Rows.ObjectRead | buckets-mdapi/src/object.rs:160-178 | reading the one full-width row panics exactly when its content_length is NULL; any other input gives `ObjectResponse`, and a returned object always has its length |
| Rows.BucketResponse | buckets-mdapi/src/bucket.rs:59-94 | the same validation for buckets with 4 columns, its errors being plain texts |
| Rows.LegacyResponse | src/object.rs:262-290 | the oldest server, once the row's columns are read: no row is absent, one row is the object, and several rows give "Get query found N results" |
| Rows.LegacyRowResponse | src/object.rs:266-282 | the columns are read with no width check, so a single row narrower than the record, or one whose values do not convert (for objects, a NULL content_length), panics; any other input gives `LegacyResponse` of the row values |
| Rows.LegacyPanicsWhereCheckedRejects | src/object.rs:262-290 | the oldest server panics on exactly the single rows that the current `response` rejects as narrow or panics on for a NULL content_length (so it panics wherever the current one does), and otherwise finds an object exactly when the current one does, and the same object |
| Rows.TooManyRowsNamesCount | buckets-mdapi/src/object.rs:186-193 | the several-rows message determines the row count it reports |
| Rows.GetObjectSqlAddressesVnode | buckets-mdapi/src/object.rs:220-231 | the select for two vnodes is the same text only when the vnodes are equal |
| Rows.InsertDeleteTableSqlAddressesVnode | buckets-mdapi/src/object.rs:198-218 | the copy into the deleted-object table addresses exactly one vnode's schema |
| Conditional.DefaultIsNotConditional | buckets-mdapi/src/conditional.rs:14-35 | an omitted `conditions` field is unconditional, and it is the only unconditional value |
| Conditional.CheckIfMatch | buckets-mdapi/src/conditional.rs:144-152 | the scan answers true exactly when some client etag is the wildcard or equals the object's etag |
| Conditional.PrintEtagsIsJoin | buckets-mdapi/src/conditional.rs:154-158 | the printed list is each etag in double quotes, joined by ", " |
| Conditional.Check | buckets-mdapi/src/conditional.rs:37-107 | without an object: a wildcard If-Match fails as "matched a non-existent object", else a wildcard If-None-Match passes, else ObjectNotFound; with one: it passes exactly when all four tests pass, and a failure is a PreconditionFailedError |
| Conditional.NoObjectPlainIfMatchIsNotFound | buckets-mdapi/src/conditional.rs:41-58 | without an object and without wildcards, a conditional request reports the object as not found |
| Conditional.IfMatchDecidesFirst | buckets-mdapi/src/conditional.rs:66-73 | a failing If-Match gives its own error whatever else the request carries |
| Conditional.IfUnmodifiedSinceDecidesSecond | buckets-mdapi/src/conditional.rs:75-84 | once If-Match passes, a failing If-Unmodified-Since gives its error before the last two tests |
| Conditional.IfNoneMatchDecidesThird | buckets-mdapi/src/conditional.rs:86-93 | once the first two pass, a matching If-None-Match gives its error before If-Modified-Since |
| Conditional.IfModifiedSinceDecidesLast | buckets-mdapi/src/conditional.rs:95-106 | If-Modified-Since fails an object modified at or before the client's time, and is checked last |
| Conditional.SameListInBothNeverPasses | buckets-mdapi/src/conditional.rs:66-93 | the same etag list as If-Match and If-None-Match can never let a present object through |
| Conditional.WildcardIfNoneMatchFails | buckets-mdapi/src/conditional.rs:86-93 | a wildcard If-None-Match always fails on a present object |
| Conditional.DateTestsComplementary | buckets-mdapi/src/conditional.rs:75-104 | on the same client time exactly one of the two date tests passes; an equal time passes If-Unmodified-Since only |
| Conditional.IfMatchOwnIdPasses | buckets-mdapi/src/conditional.rs:208-225 | an If-Match list that names the object's id lets it through |
| Conditional.IfMatchOtherTagMessage | buckets-mdapi/src/conditional.rs:243-264 | a single non-matching tag fails with the message `if-match '"tag"' didn't match etag 'id'` |
| Conditional.Request | buckets-mdapi/src/conditional.rs:114-138 | an unconditional request sends nothing and passes; otherwise it sends the vnode's get statement, maps a database error to PostgresError, refuses a narrow row or several rows with `response`'s PostgresError naming the column or row count, and checks the row it read |
| Precondition.CheckIfMatch | buckets-mdapi/src/precondition.rs:197-212 | the scan answers true exactly when some comma-separated token, with its double quotes removed, is "*" or the etag |
| Precondition.CheckConditional | buckets-mdapi/src/precondition.rs:113-195 | it passes exactly when all four headers pass; a failure is a PreconditionFailedError, or a BadRequestError only for a date header that does not parse |
| Precondition.NullHeaderIsSkipped | buckets-mdapi/src/precondition.rs:118-119 | a header present with a null value is treated as no header at all |
| Precondition.IfMatchReportedFirst | buckets-mdapi/src/precondition.rs:118-128 | a failing if-match is reported first, quoting the raw header and the etag |
| Precondition.UnparseableDateIsBadRequest | buckets-mdapi/src/precondition.rs:130-153 | after if-match passes, an unparseable if-unmodified-since is a BadRequestError naming the text |
| Precondition.UnparseableModifiedSinceIsBadRequest | buckets-mdapi/src/precondition.rs:168-192 | after the first three pass, an unparseable if-modified-since is a BadRequestError |
| Precondition.QuotedEtagInListMatches | buckets-mdapi/src/precondition.rs:279-286 | a list `thing,"<etag>"` matches the etag, since quotes are stripped from each token |
| Precondition.SpaceAfterCommaDoesNotMatch | buckets-mdapi/src/precondition.rs:120 | tokens are not trimmed: `x, abc` does not match the etag `abc` |
| Precondition.Request | buckets-mdapi/src/precondition.rs:31-90 | unconditional headers pass without a query; otherwise the object is read, a database error is a PostgresError, no row is ObjectNotFound, several rows a PostgresError, and one row is checked |
| Listing.LikeAnything | buckets-mdapi/src/object/list.rs:100 | the pattern "%" matches every name, the empty one included |
| Listing.LikePrefixPattern | buckets-mdapi/src/object/list.rs:97-144 | for a prefix with no '%', '_' or '\\' in it, the pattern `Listing.PrefixPattern` builds from it (the prefix, then '%') matches exactly the names that start with it |
| Listing.UnescapedPrefixOverMatches | buckets-mdapi/src/object/list.rs:100 | the prefix "a_" is put into the pattern unescaped, so the name "ab", which does not start with "a_", matches it |
| Listing.EscapeLike | buckets-mdapi/src/object/list.rs:100 | a prefix with no LIKE syntax in it is left as it is |
| Listing.LikeEscapedPrefix | buckets-mdapi/src/object/list.rs:100 | with its syntax characters escaped, the pattern matches exactly the names that start with the prefix, whatever the prefix holds |
| Listing.EscapedStatementSelects | buckets-mdapi/src/object/list.rs:178-228 | the escaped statement (`Listing.EscapedStatement`: `Statement` binding the escaped pattern) keeps a name exactly when it starts with the prefix (if any) and sorts strictly after the marker (if any) |
| Listing.Statement | buckets-mdapi/src/object/list.rs:97-144 | the (marker, prefix) pair picks one of the four statements, each binding the limit, the marker and the prefix pattern it needs |
| Listing.StatementSelects | buckets-mdapi/src/object/list.rs:178-228 | a built statement keeps a name exactly when the prefix pattern (if any) matches it under LIKE and it sorts strictly after the marker (if any); for a prefix with no LIKE syntax, matching is starting with the prefix |
| Listing.Take | buckets-mdapi/src/object/list.rs:185-186 | `ORDER BY name ASC LIMIT n`: at most n names of the set, strictly ascending, and any name left out sorts after all of them on a full page |
| Listing.Sorted | buckets-mdapi/src/object/list.rs:185 | every name of the set, once each, in ascending order |
| Listing.TakeEmpty | buckets-mdapi/src/object/list.rs:185-186 | a page is empty exactly when nothing matches or the limit is 0 |
| Listing.PagesEqual | buckets-mdapi/src/object/list.rs:185-186 | two sequences that both meet the description of a page are equal |
| Listing.PageIsUnique | buckets-mdapi/src/object/list.rs:185-186 | whatever meets the description of a page is exactly `Take` |
| Listing.TakeIsPage | buckets-mdapi/src/object/list.rs:185-186 | `Take` meets the description of a page |
| Listing.PageLength | buckets-mdapi/src/object/list.rs:185-186 | a page holds no more names than the set it is drawn from |
| Listing.OffsetPage | src/bucket/list.rs:97-106 | `LIMIT n OFFSET k`: at most n names, strictly ascending, and exactly min(n, remaining) of them when the offset is inside the set |
| Listing.FirstOffsetPageIsTake | src/bucket/list.rs:97-106 | the oldest server's first offset page is the current servers' page without a marker |
| Listing.ObjectRows | buckets-mdapi/src/object/list.rs:178-228 | a list statement returns at most `limit` object rows |
| Listing.BucketRows | buckets-mdapi/src/bucket/list.rs:163-204 | a list statement returns at most `limit` bucket rows |
| Listing.ObjectListingSpec | buckets-mdapi/src/object/list.rs:89-228 | every listed object is in the requested bucket, matches the prefix pattern, sorts after the marker; names strictly ascend; at most `limit`; any matching object left out sorts after the page, which is then full |
| Listing.ObjectListingSelected | buckets-mdapi/src/object/list.rs:178-228 | every listed object matches the prefix pattern and sorts after the marker |
| Listing.ObjectListingComplete | buckets-mdapi/src/object/list.rs:178-228 | a matching object left out of the listing sorts after the whole page, which is then full |
| Listing.BucketListingSpec | buckets-mdapi/src/bucket/list.rs:84-204 | the same page description for one owner's buckets |
| Listing.BucketListingSelected | buckets-mdapi/src/bucket/list.rs:163-204 | every listed bucket matches the prefix pattern and sorts after the marker |
| Listing.BucketListingComplete | buckets-mdapi/src/bucket/list.rs:163-204 | a matching bucket left out of the listing sorts after the whole page, which is then full |
| Listing.RowMessages | buckets-mdapi/src/object/list.rs:148-174 | one data message per row, in row order, each carrying the row wrapped in an array |
| Listing.PushRowMessages | buckets-mdapi/src/object/list.rs:146-175 | the loop leaves the gathered messages followed by one message per row, in order |
| Listing.ListAction | buckets-mdapi/src/object/list.rs:45-87 | a limit outside 1..=1024 runs no statement and answers one LimitConstraintError; otherwise the chosen statement runs, a database error answers one PostgresError and rows answer one message each |
| Listing.LegacyListPlan | src/bucket/list.rs:60-68 | a limit outside 1..=1000 panics; then an order other than "created" or "name" is refused with "Unexpected value for payload.order_by"; else the query binds the prefix pattern |
| Listing.LegacyBucketListingByName | src/bucket/list.rs:36-106 | ordered by name, the oldest server lists names that match the prefix pattern (and so start with a prefix free of LIKE syntax), ascending, at most `limit`, and its first page equals the current servers' page |
| Listing.LegacyList | src/object/list.rs:41-109 | a panicking or refused plan ends the handler so; an unwrapped query error panics; otherwise one message per row follows the earlier messages |
| Store.DeletedEntries | buckets-mdapi/src/object/delete.rs:142-158 | one reply entry per removed object, in order, built (`Store.Converted`) from the row the delete returns for it, a missing shark count becoming 0 |
| Store.ConvertDeletedRows | buckets-mdapi/src/object/delete.rs:107-132 | the loop succeeds exactly when every row has a length, then converts each row in order; otherwise it fails with the column's error |
| Store.Vnode.constructor | utils/src/schema.rs:97-114 | a new vnode schema has empty live and deleted tables |
| Store.Vnode.CreateBucket | boray/src/bucket/create.rs:72-92 | a rejected statement leaves the schema unchanged and returns its error; otherwise the bucket is inserted unless (owner, name) is taken, and the reply is the new bucket, read back as a full 4-column row (`Store.BucketRowsOf`), or nothing |
| Store.Vnode.DeleteBucket | boray/src/bucket/delete.rs:65-95 | a rejected statement changes nothing; otherwise the (owner, name) row is appended to the deleted-bucket table, removed, and the count of removed rows returned |
| Store.Vnode.LegacyCreateBucket | src/bucket/create.rs:84-106 | a failed begin or commit panics; a rejected insert returns its error; otherwise the same insert-unless-taken as the current servers |
| Store.Vnode.LegacyDeleteBucket | src/bucket/delete.rs:85-110 | a failed begin or commit panics; a rejected move or delete returns its error; otherwise the row moves to the deleted table and the count is returned |
| Store.Vnode.LookupBucket | src/bucket/get.rs:73-88 | a database error is returned; a found bucket is a stored one with that owner and name; nothing found means no bucket under the key |
| Store.Vnode.GetObject | buckets-mdapi/src/object/get.rs:64-106 | it succeeds exactly when the transaction goes through and the conditions pass, returning the stored row under the key, read back as a full 12-column row (`Store.ObjectRowsOf`), or nothing; a conditional read of a stored object succeeds exactly when it passes every condition |
| Store.Vnode.UpdateObject | buckets-mdapi/src/object/update.rs:84-126 | it succeeds exactly when the transaction goes through and the conditions pass; a refused condition is passed on; only then the row's updatable fields change, and the reply is the updated row |
| Store.Vnode.DeleteObject | buckets-mdapi/src/object/delete.rs:70-140 | a failed begin is passed on as text, a refused condition as its error, a later database error as a PostgresError, and a removed row with a NULL length as a PostgresError carrying the column error; it succeeds exactly when nothing fails and every removed row has a length, and then the row moves to the deleted table and the reply lists it; any failure leaves the tables as they were |
| Store.Vnode.BorayDeleteObject | boray/src/object/delete.rs:62-116 | any rejected statement returns its text, and a removed row with a NULL length the column error; every failure changes nothing; otherwise the row moves to the deleted table and the reply lists it |
| Store.Vnode.LegacyPutObject | src/object/create.rs:85-121 | as also in `put` of src/object.rs:312-345, whose `Uuid::new_v4()` id arrives as the payload's id: a failed begin or commit panics; a rejected move or upsert returns its error; otherwise the old row moves to the deleted table and the upserted row replaces it |
| Store.Vnode.LegacyUpdateObject | src/object/update.rs:95-120 | a failed begin or commit panics; a rejected update returns its error; otherwise only the updatable fields of the row under the key change |
| Store.Vnode.LegacyDeleteObject | src/object/delete.rs:89-116 | as also in `delete` of src/object.rs:397-422: a failed begin or commit panics; a rejected move or delete returns its error; otherwise the row moves to the deleted table and the count is returned |
| Store.Vnode.LookupObject | src/object/get.rs:77-93 | a database error is returned; a found object is the stored one under the key; nothing found means no object under the key |
| Store.CreateBucketTwice | boray/src/bucket/create.rs:94-105 | a second insert under the same (owner, name) returns no row and changes nothing; an insert never overwrites an existing bucket |
| Store.CreatedBucketIsFound | boray/src/bucket/create.rs:94-105 | after a create the key reads as the inserted bucket (or the one already there) and every other key reads as before |
| Store.DeleteBucketTwice | boray/src/bucket/delete.rs:114-123 | a delete removes at most one row, a second delete removes none, and no other key changes |
| Store.UpsertReplacesRow | src/object/create.rs:123-143 | the upsert leaves exactly the payload's row, with fresh created and modified times, under its key, and no other row changes |
| Store.UpdateChangesOnlyItsFields | buckets-mdapi/src/object/update.rs:128-145 | the update changes only content type, headers, properties and modified time; a missing row stays missing; the returned rows are the row as updated |
| Store.DeleteObjectTwice | buckets-mdapi/src/object/delete.rs:142-158 | a second delete of the same key removes nothing and returns no entry; the first returns the row's entry when it has a length |
| Store.PrefixListingSeesNewBucket | buckets-mdapi/tests/rpc_handlers.rs:633-651 | a prefix listing that found nothing finds exactly the new bucket once one whose name matches the prefix pattern is created |
| Handlers.PostgresErrorJson | boray/src/sql.rs:55-59 | the value is a serialized error whose name decodes to PostgresError and whose message is the database's text |
| Handlers.ObjectReply | buckets-mdapi/src/object/get.rs:27-62 | one data message: the object when found, the ObjectNotFound value exactly when there is none, a PostgresError carrying the failure's text otherwise |
| Handlers.DeleteObjectReply | buckets-mdapi/src/object/delete.rs:29-68 | one data message: the removed entries, ObjectNotFound when nothing was removed, or the transaction's error value unchanged |
| Handlers.CreateObjectReply | buckets-mdapi/src/object/create.rs:61-110 | one data message: the stored object, the "Create statement failed to return any results" PostgresError when no row came back, or the error's own value |
| Handlers.BorayCreateBucketReply | boray/src/bucket/create.rs:35-70 | one data message: the new bucket, BucketAlreadyExists exactly when the name was taken, a hand-written PostgresError exactly on a database error |
| Handlers.BorayDeleteBucketReply | boray/src/bucket/delete.rs:20-63 | one data message: the count when a row was removed, BucketNotFound exactly when none was, a hand-written PostgresError on a database error |
| Handlers.BorayDeleteObjectReply | boray/src/object/delete.rs:24-60 | one data message: the removed entries, ObjectNotFound exactly when nothing was removed, a PostgresError on a database error |
| Handlers.LegacyPayload | src/object/get.rs:37-49 | an empty argument array panics at `&args[0]`; only a parsed payload goes on; a non-object argument is "Expected JSON object", an unparseable one names the method |
| Handlers.LegacyFoundReply | src/object/get.rs:30-75 | a panic stays a panic; a database failure is the I/O error "postgres error"; otherwise one more data message holding the record, or the not-found value, follows the earlier ones |
| Handlers.LegacyCountReply | src/object/delete.rs:29-87 | a panic stays a panic; otherwise exactly one message follows the earlier ones: the count, the not-found value when nothing was removed, or an error message holding a PostgresError |
| Handlers.OldFoundReply | src/bucket.rs:106-151 | a database failure is the I/O error "postgres error"; a found record is a data message and a missing one an error message holding the not-found value |
| Handlers.OldCountReply | src/bucket.rs:255-308 | a positive count is a data message; a zero count an error message holding BucketNotFoundError; a database error an error message holding a PostgresError |
| Handlers.OldGetObject | src/object.rs:70-118 | an empty argument array panics; a non-object is "Expected JSON object" and an unparseable payload fails with serde's text; a database error or several rows is the I/O error "postgres error"; no row is an error message holding the inline ObjectNotFoundError value; one readable row is a data message holding the object, and a narrow row or a NULL content_length panics |
| Handlers.OldListObjects | src/object.rs:120-171 | the argument check as for every legacy handler; a database error panics (unwrapped); otherwise it panics exactly when some row cannot be read, and else pushes one "listobjects" data message per row, in row order, after the earlier messages |
| Handlers.OldListingListsBucket | src/object.rs:300-308 | `list_sql` has no LIMIT and no ORDER BY: when the rows are the bucket's objects in any order, there is exactly one message per object of the bucket and none for anything else |
| Gc.BatchIdStatementsAddressSingleton | buckets-mdapi/src/gc.rs:14-20 | the read and the update of the batch id both end with ` WHERE id = 1`, so both address the singleton row |
| Gc.HandleBatchIdResult | buckets-mdapi/src/gc.rs:22-35 | it succeeds exactly when one id came back, returning that id; no id is "garbage batch id not found", several the invariant-failure text |
| Gc.DeleteGarbageSql | buckets-mdapi/src/gc/delete.rs:152-160 | the delete addresses the deleted-object table of the entry's own schema |
| Gc.LastDelete | buckets-mdapi/src/gc/delete.rs:97-117 | the loop's kept result is an error exactly when the batch is non-empty and its last delete failed |
| Gc.DeletesSent | buckets-mdapi/src/gc/delete.rs:99-115 | one delete per batch entry, in batch order, each bound to the entry's owner, bucket, name and id |
| Gc.DeleteRows | buckets-mdapi/src/gc/delete.rs:92-119 | the loop sends every entry's delete in order, leaves the rows no successful delete matched, and keeps only the last delete's result |
| Gc.DeleteStep | buckets-mdapi/src/gc/delete.rs:99-115 | one more entry appends its delete and removes its rows unless that delete fails |
| Gc.Finish | buckets-mdapi/src/gc/delete.rs:120-144 | refresh, batch-id update and commit run in order, each only after the one before succeeded, and the first failure is the error |
| Gc.DeleteTransaction | buckets-mdapi/src/gc/delete.rs:78-146 | the statements sent are exactly the steps up to the first failure; the error is that failure's; with no error the rows left are those no successful delete matched |
| Gc.GarbageDb.DeleteBatch | buckets-mdapi/src/gc/delete.rs:78-146 | an error leaves records, view and batch id unchanged and is the first failing step's; success removes the deleted rows, refreshes the view from them and installs the new batch id |
| Gc.GarbageDb.GetBatch | boray/src/gc/get.rs:89-123 | a non-empty view is returned as read; an empty one is refreshed from the records and read again, the refresh staying even if the second read fails; records and batch id never change; the batch id rule is the corrected one (see Findings) |
| Gc.CollectGarbage | boray/src/gc/get.rs:133-152 | one object per row, in row order |
| Gc.Objects | boray/src/gc/get.rs:133-152 | the objects of a batch, one per row in row order |
| Gc.BorayBatchId | boray/src/gc/get.rs:154-158 | as written, an id is attached exactly when the batch is empty |
| Gc.BatchId | buckets-mdapi/tests/rpc_handlers.rs:752-768 | an id, the fresh one, is attached exactly when the batch holds garbage |
| Gc.BatchResponse | boray/src/gc/get.rs:129-161 | the garbage is the rows' objects in order, and an id is present exactly when there is garbage, corrected (see Findings) |
| Gc.BorayBatchIdInverted | boray/src/gc/get.rs:154-158 | for every batch, the code as written attaches an id exactly when the intended rule does not |
| Gc.GetBatchReply | boray/src/gc/get.rs:51-87 | one data message: the batch when read, a hand-written PostgresError carrying the text otherwise |
| Gc.DeleteBatchReply | buckets-mdapi/src/gc/delete.rs:37-76 | one data message: "ok" exactly on success, else a PostgresError value carrying the text |
| Gc.RemainingShrinks | buckets-mdapi/src/gc/delete.rs:99-115 | a batch delete never adds deleted-object rows |
| Gc.RemainingWithoutErrors | buckets-mdapi/src/gc/delete.rs:99-115 | when every delete succeeds, a row is kept exactly when it matches no batch entry (each delete, `Gc.RemoveMatching`, keeps a row exactly when it does not match its entry) |
| Gc.EmptyBatchRotates | buckets-mdapi/src/gc/delete.rs:92-144 | an empty batch sends no delete, yet the view is refreshed and the batch id rotated |
| Gc.MaskedDeleteFailure | buckets-mdapi/src/gc/delete.rs:97-117 | only the last delete's result is kept: against a database that went on after a failed delete, a failed delete followed by a successful one would let the batch commit with the failed entry's row still there; that fault pattern is not one Postgres produces |
| Gc.FailedDeleteNeverCommits | buckets-mdapi/src/gc/delete.rs:97-146 | when every statement after a failed one fails, as in a Postgres transaction, a batch with any failed delete ends in an error, the last delete's error when begin and read went through |
| Gc.LegacyGetBatch | src/gc/get.rs:84-133 | a query error is returned; otherwise every returned row is an object in order, under a fresh batch id even when there are none |
| Gc.LegacyGarbageSqlText | src/gc/get.rs:100-103 | the oldest server asks the database function for at most 1024 deleted objects |
| Dispatch.UnwrapFastMessage | buckets-mdapi/src/lib.rs:213-233 | the payload is the first element of the request array, and an empty array is the "Failed to parse JSON data as payload" error naming the method |
| Dispatch.UnwrapOfWrapped | buckets-mdapi/src/lib.rs:213-233 | a value wrapped in an array by `array_wrap` (`Fast.ArrayWrap`), as Fast requires, unwraps to itself |
| Dispatch.HandleRequest | buckets-mdapi/src/lib.rs:263-322 | a decoding error, an empty array, or the action's error becomes an I/O error carrying its text; otherwise the action's response on the first element is the result |
| Dispatch.ActionRunsOnlyOnPayload | buckets-mdapi/src/lib.rs:305-321 | when decoding or unwrapping fails, which action is given makes no difference: it is not run |
| Dispatch.OnlyFirstElementRead | buckets-mdapi/src/lib.rs:213-233 | elements after the first in the request array do not affect the reply |
| Dispatch.HandleMsg | buckets-mdapi/src/lib.rs:79-196 | an unsupported method name is refused with "Unsupported functon: " and the name; a handler error is passed on as its text; otherwise the reply is the handler's messages in order |
| Config.ParseLevel | src/config.rs:50-64 | an accepted text is exactly the printed name of the level it gives; anything else is "invalid log level" |
| Config.LevelRoundTrip | src/config.rs:50-83 | printing a level and parsing the text gives the level back |
| Config.ParseLevelAcceptsNames | src/config.rs:50-83 | a text parses exactly when it is the name of some level |
| Config.LevelNamesDistinct | src/config.rs:72-83 | different levels have different names |
| Config.ParsePort | src/config.rs:241-263 | an accepted port is the decimal value of the text, with at most a leading plus |
| Config.PortRoundTrip | src/config.rs:241-263 | every `u16` printed in decimal is read back as itself |
| Config.PortOutOfRange | src/config.rs:241-263 | a decimal value above 65535 is refused |
| Config.Settings.constructor | src/config.rs:113-213 | the defaults: level debug; server and metrics on 127.0.0.1 ports 2030 and 3020; database user "postgres" at 127.0.0.1 port 2030, database and application name "boray", TLS disabled, no certificate; pool of 10 connections with timeouts 500 and 100; 4 core and 200 blocking threads, keep-alive 60, 2 MiB stacks, names prefixed "boray-worker-" |
| Config.Settings.ReadCliArgs | src/config.rs:232-263 | each option given (level and ports only when they parse) replaces its own field, and every other field keeps its value |
| Config.MaybeReadCertificate | src/config.rs:351-366 | no path is the no-certificate error; a path gives whatever loading it gives |
| Config.TlsConfigFor | src/config.rs:307-346 | disable never needs a certificate; allow and prefer carry it when there is one; require, verify-ca and verify-full succeed exactly when it was read, and otherwise fail with its error |
| Config.NoPathDecision | src/config.rs:307-366 | without a certificate path exactly disable, allow and prefer succeed, and the other modes report that no certificate was given |
| Migrations.Postgres.SimpleQuery | utils/src/schema/migrations.rs:28 | the statement is appended to what the server executed, and the error is the server's answer to it |
| Migrations.FilePaths | utils/src/schema/migrations.rs:20-23 | the paths kept are exactly the readable entries that are not directories |
| Migrations.LexLeTransitive | utils/src/schema/migrations.rs:24 | the path order is transitive |
| Migrations.InsertPath | utils/src/schema/migrations.rs:24 | inserting into a sorted list keeps it sorted and adds exactly the one path |
| Migrations.SortPaths | utils/src/schema/migrations.rs:24 | the result is sorted and a permutation of the input |
| Migrations.MigrationFiles | utils/src/schema/migrations.rs:20-24 | sorted, and holding exactly the readable non-directory entries |
| Migrations.RunPublicSchemaMigrations | utils/src/schema/migrations.rs:12-39 | a listing error is returned with nothing executed; otherwise the loop's result and statements are those of the fold over the sorted files |
| Migrations.ApplyPublicMigrations | utils/src/schema/migrations.rs:25-38 | the loop's result and statements are those of the fold that reads and runs each file until one cannot be read or fails |
| Migrations.RunTemplate | utils/src/schema/migrations.rs:63-80 | the loop over the vnodes gives the result and statements of the inner fold |
| Migrations.RunVnodeSchemaMigrations | utils/src/schema/migrations.rs:41-85 | a listing error is returned with nothing executed; otherwise the loop gives the result and statements of the migration-major fold over the sorted files |
| Migrations.PublicStopsAtFirstFailure | utils/src/schema/migrations.rs:25-38 | after the first failure no later file is read or executed and the error stays |
| Migrations.ReadAll | utils/src/schema/migrations.rs:27 | all contents, in file order, exactly when every file can be read |
| Migrations.AllAcceptedSnoc | utils/src/schema/migrations.rs:28-34 | a run of statements is accepted exactly when its prefix is and the database accepts the last one after it |
| Migrations.PublicOkIffAllApplied | utils/src/schema/migrations.rs:12-39 | the public run succeeds exactly when every file is read and every statement accepted, and then it has executed them all in order |
| Migrations.Rendered | utils/src/schema/migrations.rs:63-67 | one statement per vnode, the template rendered for that vnode, in vnode order |
| Migrations.VnodeFoldOk | utils/src/schema/migrations.rs:63-80 | a successful template run has executed its rendering for every vnode, in order |
| Migrations.VnodeRunOrder | utils/src/schema/migrations.rs:41-85 | a successful vnode run has read every template and executed them migration-major |
| Migrations.VnodeStopsAtFirstFailure | utils/src/schema/migrations.rs:59-84 | after the first failure no later migration is read or executed |
| Migrations.TemplateStopsAtFirstFailure | utils/src/schema/migrations.rs:63-80 | within a migration, after a vnode fails the later vnodes are not run |
| Migrations.NoVnodesNoStatements | utils/src/schema/migrations.rs:41-85 | with no vnodes nothing is executed, and the run fails only when a migration file cannot be read |
| SchemaSetup.TemplatePath | utils/src/schema.rs:37-39 | the path is the template directory, a slash, then exactly the file name |
| SchemaSetup.TemplatePathsDistinct | utils/src/schema.rs:20-22 | the schema, role and database templates are three different files |
| SchemaSetup.JoinPath | utils/src/schema.rs:116-135 | the path ends with the name; a non-empty directory starts it, kept whole, and exactly one '/' (its own trailing one or one added) separates it from the name |
| SchemaSetup.DbCreateObject | utils/src/schema.rs:167-179 | the statement is executed; it counts as done exactly when it succeeded or failed because the object already exists, and otherwise carries the database's text |
| SchemaSetup.CreateFromTemplate | utils/src/schema.rs:143-164 | a template that cannot be read is that error with nothing executed; otherwise its one statement is executed, "already exists" counts as done, and any other failure is reported with the stage's prefix |
| SchemaSetup.CreateVnodeSchemas | utils/src/schema.rs:97-114 | every vnode's schema is attempted in order, and only the last vnode's outcome is reported |
| SchemaSetup.SchemaFailureMasked | utils/src/schema.rs:97-114 | a failed vnode schema followed by one that succeeds is reported as success |
| SchemaSetup.Prepare | utils/src/schema.rs:43-93 | role, database, TLS and connection claim run in order until the first failure; the error, the stage count and the statements executed are those of the step-by-step description |
| SchemaSetup.CreateBucketSchemas | utils/src/schema.rs:29-135 | the stages run in order and stop at the first failure; success means every stage ran; a failed public migration, and only that, panics with the migration's error; the result, the stages reached and the statements executed are those of the stage-by-stage description, including each stage's error and the vnode migrations' result |
| SchemaSetup.CompletedSetupExecutedEverything | utils/src/schema.rs:29-135 | a setup that finishes with success executed the role, the database, one schema per vnode, every public migration and every vnode migration, in that order, and nothing else |

## Left out

- JSON and base64 encoding, serde decoding, RFC 3339 date parsing and
  printing are not modelled. Payloads are datatypes, and dates are
  integers (parsing is a parameter that may fail).
- Time stamps, fresh UUIDs and template rendering come from the caller as
  parameters. The clock, the random generator and the template engine are
  not part of this model.
- Postgres is an oracle over the statements executed before a query, or a
  fault parameter per step. SQL text is modelled only where a property
  reads it: schema names, the LIKE pattern and the delete statements.
  The one piece of SQL the model interprets is the LIKE pattern of a
  prefix listing (`Listing.Like`); the rest is never interpreted.
- Names are compared code point by code point, which is the order of a
  database with the "C" collation. A database with another collation
  orders and pages names differently; that is not modelled.
- The store's fault parameters may let a statement succeed after an
  earlier one in the same transaction failed, which Postgres does not do.
  The Postgres rule is stated as `Gc.AbortsAfterFailure`, and
  `Gc.FailedDeleteNeverCommits` holds under it.
- Rows.LegacyResponse: the store's operations give it rows built from
  their own tables, which always carry every column, so the panic on a
  narrow row (`Rows.LegacyRowResponse`) never arises there. The panic on
  a NULL content_length can; see the lines on LookupObject and
  LegacyUpdateObject below.
- Rows.ObjectResponse: returns the record when its content_length is
  NULL, where every read path panics converting it into an `i64`;
  `Rows.ObjectRead` states where that panic happens.
- Store.Vnode.GetObject: returns a stored row whose content_length is
  NULL as it is; `get.rs` panics reading it (`Rows.ObjectRead`).
- Store.Vnode.UpdateObject: returns the updated row even when its
  content_length is NULL; `update.rs` panics reading it.
- Store.Vnode.LookupObject: returns a row whose content_length is NULL;
  the oldest server panics reading it (`Rows.LegacyRowResponse`).
- Store.Vnode.LegacyUpdateObject: returns the updated row even when its
  content_length is NULL, where the oldest server panics reading it.
- Conditional.Request: checks a read row whose content_length is NULL,
  where the object read behind the check panics (`Rows.ObjectRead`).
- Gc.CollectGarbage: turns a row whose content_length is NULL into an
  object; `boray/src/gc/get.rs` panics reading it.
- Gc.Objects: includes rows whose content_length is NULL, which boray's
  `response` panics on.
- Gc.BatchResponse: returns a batch holding rows whose content_length is
  NULL, where boray's `response` panics.
- Gc.LegacyGetBatch: takes the query's rows as objects already, so the
  panic `src/gc/get.rs` raises on a NULL content_length is not modelled.
- Listing.ListAction and Listing.LegacyList take the rows as JSON values
  already; the row conversion, and its panic on a NULL content_length,
  are not modelled.
- Connection pools, the Fast transport, metrics, logging, tokio and the
  `main` functions are left out. They do not change what a request
  returns.
- The `object_not_found` helper that `src/object/get.rs`,
  `src/object/update.rs` and `src/object/delete.rs` call is not among the
  files modelled. Its reply
  is modelled as the canned ObjectNotFound error value. The first
  `src/object.rs` writes its own value out inline instead
  (`Handlers.LegacyObjectNotFoundInline`, used by `Handlers.OldGetObject`).
- `src/main.rs` does not route "listobjects" to the first `src/object.rs`'s
  `list_handler`; `Handlers.OldListObjects` models that handler as
  written. The put and delete handlers of that file are modelled through
  their transactions (`Store.Vnode.LegacyPutObject` and
  `Store.Vnode.LegacyDeleteObject`), not their reply mapping.
- `boray/src/bucket.rs` is not part of this model. The boray bucket
  handlers are modelled with the bucket row shape of
  `buckets-mdapi/src/bucket.rs`.
- `do_create` in `buckets-mdapi/src/object/create.rs` is `unimplemented!()`.
  Only its `create_sql` upsert (through the shared store operation) and
  its `action` reply mapping are modelled.
- The helpers that `buckets-mdapi/src/object/get.rs` and
  `buckets-mdapi/src/object/update.rs` call but do not define are modelled
  as the conditional check (`Conditional.Request`) and the row lookup of
  `get_sql`.
- `sql::postgres_error`, which buckets-mdapi calls (precondition.rs,
  object/get.rs, object/update.rs, object/delete.rs, bucket/list.rs) but
  its own `sql.rs` does not define, is modelled with boray's definition in
  `boray/src/sql.rs` as `Handlers.PostgresErrorJson`.
- `src/gc/delete.rs` and the boray garbage-delete stub are left out.
- Routing in `src/lib.rs` is left out. It is the same pattern as
  buckets-mdapi's `handle_msg`, which is modelled.
- Reading the configuration file (`read_file`), the `utils` crate's own
  configuration, and parsing a certificate's bytes are left out.
  Certificate loading is a parameter of `Config.TlsConfigOf`.
- Config.ParsePort: accepts decimal digits after an optional `+`.
  Rust's exact `u16::from_str` edge cases beyond that are not modelled.
- Migrations.SortPaths: compares paths as strings in lexicographic
  character order. Rust sorts `PathBuf`s component by component, which
  can differ for names containing `/`. All entries of one listing share
  the directory prefix and the names after it hold no `/`, so the two
  orders agree there.
- SchemaSetup.CreateBucketSchemas: the admin connection and the pooled
  connection are modelled as one `Postgres` log. The pool options and the
  resolver are left out, and the claim is given as its outcome.
- The `GARBAGE_BATCH` view is a sequence recomputed by a `refresh`
  parameter from the deleted-object rows. The view's SQL definition is
  not modelled.

## Findings

| source | as written | input that shows it | evidently intended | confidence | as-written member | corrected member |
|---|---|---|---|---|---|---|
| boray/src/gc/get.rs:154-158 | `batch_id` is `Some(new id)` when the garbage rows are empty and `None` when there are rows | any non-empty batch, e.g. one garbage row: the reply has garbage but no batch id; an empty batch gets an id | an id exactly when there is garbage, as the crate's own `Arbitrary` generator (boray/src/gc/get.rs:196-200) and the expectations at buckets-mdapi/tests/rpc_handlers.rs:722-723 and 767-768 have it | not executed | Gc.BorayBatchId, Gc.BorayBatchIdInverted | Gc.BatchId, used by Gc.BatchResponse and Gc.GarbageDb.GetBatch |
| buckets-mdapi/src/object/list.rs:100,123; buckets-mdapi/src/bucket/list.rs:95,118; src/bucket/list.rs:68; src/object/list.rs:73 | the LIKE pattern is `format!("{}%", prefix)`, so a '%', '_' or '\' in the prefix acts as LIKE syntax | the prefix "a_" over the names "ab" and "a_c": both are listed, though only "a_c" starts with "a_" | the names that start with the prefix, which is what the payload's `prefix` field (buckets-mdapi/src/object/list.rs:27, buckets-mdapi/src/bucket/list.rs:22) asks for; escaping each syntax character before the '%' gives exactly that | not executed; medium, since no caller or test is seen to rely on either reading | Listing.UnescapedPrefixOverMatches, with Listing.PrefixPattern and Listing.Statement | Listing.EscapedPrefixPattern, proved by Listing.LikeEscapedPrefix and used by Listing.EscapedStatement (Listing.EscapedStatementSelects) |
