/**
 * The handlers' `action` step: how each server turns the outcome of its
 * transaction into reply messages. buckets-mdapi and boray always answer
 * with one data message, carrying either the result or an error value; the
 * oldest server pushes its message onto the reply vector built so far and
 * turns database failures into an I/O error.
 */
module Handlers {

  import opened Wrappers
  import opened Errors
  import opened Rows
  import opened Fast
  import Store

  /** `sql::postgres_error`: a PostgresError value carrying the database's text. */
  function PostgresErrorJson(msg: string): (v: Json)
    ensures v.ErrorJson? && ParseName(v.err.name) == Some(PostgresError) && v.err.message == msg
  {
    ErrorJson(WithMessage(PostgresError, msg))
  }

  /** The hand-written `{"name": "PostgresError", "message": e}` of boray and the oldest server. */
  function NamedPostgresError(msg: string): Json
  {
    NamedErrorJson("PostgresError", msg)
  }

  // ---- buckets-mdapi ----

  /**
   * The text a failed get or update carries: the database's own text, or a
   * refusal turned into text by `render` (its `to_string`).
   */
  function FailureText(f: Store.Failure, render: ErrorValue -> string): string
  {
    match f
    case DbError(text) => text
    case Refused(e) => render(e)
  }

  /**
   * `action` of the object get (the update's is the same): one data message
   * holding the object, the ObjectNotFound value when there is none, or a
   * PostgresError carrying the failure's text.
   */
  function ObjectReply(rpc: string, r: Result<Option<ObjectRecord>, Store.Failure>, render: ErrorValue -> string)
    : (m: FastMessage)
    ensures m.Data? && m.rpc == rpc && |m.values| == 1
    ensures m.values[0].ObjectJson? <==> r.Ok? && r.value.Some?
    ensures m.values[0].ObjectJson? ==> m.values[0].obj == r.value.value
    ensures m.values[0] == ErrorJson(New(ObjectNotFound)) <==> r == Ok(None)
    ensures r.Err? ==> m.values[0] == PostgresErrorJson(FailureText(r.error, render))
  {
    NamesDistinct(ObjectNotFound, PostgresError);
    match r
    case Ok(Some(o)) => Data(rpc, ArrayWrap(ObjectJson(o)))
    case Ok(None) => Data(rpc, ArrayWrap(ErrorJson(New(ObjectNotFound))))
    case Err(f) => Data(rpc, ArrayWrap(PostgresErrorJson(FailureText(f, render))))
  }

  /**
   * `action` of the object delete: the removed entries, the ObjectNotFound
   * value when nothing was removed, or the error value as the transaction
   * produced it (a refused condition is passed on unchanged).
   */
  function DeleteObjectReply(rpc: string, r: Result<seq<DeletedObject>, Json>): (m: FastMessage)
    ensures m.Data? && m.rpc == rpc && |m.values| == 1
    ensures r == Ok([]) ==> m.values[0] == ErrorJson(New(ObjectNotFound))
    ensures r.Ok? && r.value != [] ==> m.values[0] == DeletedJson(r.value)
    ensures r.Err? ==> m.values[0] == r.error
  {
    match r
    case Ok(deleted) =>
      if deleted == [] then Data(rpc, ArrayWrap(ErrorJson(New(ObjectNotFound))))
      else Data(rpc, ArrayWrap(DeletedJson(deleted)))
    case Err(e) => Data(rpc, ArrayWrap(e))
  }

  /** `object_create_failed`: the value for a create whose RETURNING clause returned nothing. */
  const CreateFailed: ErrorValue := WithMessage(PostgresError, "Create statement failed to return any results")

  /**
   * `action` of the object create: the stored object, the create-failed
   * PostgresError when no row came back, or the error's own value.
   */
  function CreateObjectReply(rpc: string, r: Result<Option<ObjectRecord>, ErrorValue>): (m: FastMessage)
    ensures m.Data? && m.rpc == rpc && |m.values| == 1
    ensures m.values[0].ObjectJson? <==> r.Ok? && r.value.Some?
    ensures m.values[0].ObjectJson? ==> m.values[0].obj == r.value.value
    ensures r == Ok(None) ==> m.values[0] == ErrorJson(CreateFailed) && ParseName(m.values[0].err.name) == Some(PostgresError)
    ensures r.Err? ==> m.values[0] == ErrorJson(r.error)
  {
    match r
    case Ok(Some(o)) => Data(rpc, ArrayWrap(ObjectJson(o)))
    case Ok(None) => Data(rpc, ArrayWrap(ErrorJson(CreateFailed)))
    case Err(e) => Data(rpc, ArrayWrap(ErrorJson(e)))
  }

  // ---- boray ----

  /**
   * `action` of boray's bucket create: the new bucket, the
   * BucketAlreadyExists value when the name was taken, or a hand-written
   * PostgresError.
   */
  function BorayCreateBucketReply(rpc: string, r: Result<Option<BucketRecord>, string>): (m: FastMessage)
    ensures m.Data? && m.rpc == rpc && |m.values| == 1
    ensures m.values[0].BucketJson? <==> r.Ok? && r.value.Some?
    ensures m.values[0].BucketJson? ==> m.values[0].bucket == r.value.value
    ensures m.values[0] == ErrorJson(New(BucketAlreadyExists)) <==> r == Ok(None)
    ensures m.values[0] == NamedPostgresError(if r.Err? then r.error else "") <==> r.Err?
  {
    match r
    case Ok(Some(b)) => Data(rpc, ArrayWrap(BucketJson(b)))
    case Ok(None) => Data(rpc, ArrayWrap(ErrorJson(New(BucketAlreadyExists))))
    case Err(e) => Data(rpc, ArrayWrap(NamedPostgresError(e)))
  }

  /**
   * `action` of boray's bucket delete: the count when a row was removed,
   * the BucketNotFound value when none was, or a hand-written PostgresError.
   */
  function BorayDeleteBucketReply(rpc: string, r: Result<nat, string>): (m: FastMessage)
    ensures m.Data? && m.rpc == rpc && |m.values| == 1
    ensures m.values[0].CountJson? <==> r.Ok? && r.value > 0
    ensures m.values[0].CountJson? ==> m.values[0].count == r.value
    ensures m.values[0] == ErrorJson(New(BucketNotFound)) <==> r == Ok(0)
    ensures r.Err? ==> m.values[0] == NamedPostgresError(r.error)
  {
    match r
    case Ok(n) => if n > 0 then Data(rpc, ArrayWrap(CountJson(n))) else Data(rpc, ArrayWrap(ErrorJson(New(BucketNotFound))))
    case Err(e) => Data(rpc, ArrayWrap(NamedPostgresError(e)))
  }

  /**
   * `action` of boray's object delete: the removed entries, the
   * ObjectNotFound value when nothing was removed, or a PostgresError.
   */
  function BorayDeleteObjectReply(rpc: string, r: Result<seq<DeletedObject>, string>): (m: FastMessage)
    ensures m.Data? && m.rpc == rpc && |m.values| == 1
    ensures m.values[0] == ErrorJson(New(ObjectNotFound)) <==> r == Ok([])
    ensures r.Ok? && r.value != [] ==> m.values[0] == DeletedJson(r.value)
    ensures r.Err? ==> m.values[0] == PostgresErrorJson(r.error)
  {
    NamesDistinct(ObjectNotFound, PostgresError);
    match r
    case Ok(deleted) =>
      if deleted == [] then Data(rpc, ArrayWrap(ErrorJson(New(ObjectNotFound))))
      else Data(rpc, ArrayWrap(DeletedJson(deleted)))
    case Err(e) => Data(rpc, ArrayWrap(PostgresErrorJson(e)))
  }

  // ---- the oldest server ----

  /** The oldest server's own not-found and already-exists values (`BucketNotFoundError::new` and friends). */
  const LegacyBucketNotFound: Json := NamedErrorJson("BucketNotFoundError", "requested bucket not found")
  const LegacyBucketAlreadyExists: Json := NamedErrorJson("BucketAlreadyExistsError", "requested bucket already exists")
  /** The object get of the oldest `object.rs`, written out inline. */
  const LegacyObjectNotFoundInline: Json := NamedErrorJson("ObjectNotFoundError", "requested object not found")
  /** `object_not_found()` of the object handlers, the crate's ObjectNotFound error. */
  const LegacyObjectNotFound: Json := ErrorJson(New(ObjectNotFound))

  /** The I/O error every database failure becomes in the oldest server's get, create and update. */
  const PostgresIoError := "postgres error"

  /**
   * What the first argument of a request turned out to be. `Missing` is an
   * empty argument array, which every handler of the oldest server indexes
   * with `&args[0]` and so panics on; `Unparseable` carries serde's text.
   */
  datatype Argument<P> = Missing | NotAnObject | Unparseable(reason: string) | Parsed(payload: P)

  /** The argument check every handler of the oldest server starts with. */
  function LegacyPayload<P>(rpc: string, arg: Argument<P>): (r: Store.Legacy<P>)
    ensures r.Panicked? <==> arg.Missing?
    ensures arg.Parsed? <==> r.Returned? && r.result.Ok?
    ensures arg.Parsed? ==> r.result.value == arg.payload
    ensures arg.NotAnObject? ==> r == Store.Returned(Err("Expected JSON object"))
    ensures arg.Unparseable? ==> r == Store.Returned(Err("Failed to parse JSON data as payload for " + rpc + " function"))
  {
    match arg
    case Missing => Store.Panicked
    case NotAnObject => Store.Returned(Err("Expected JSON object"))
    case Unparseable(_) => Store.Returned(Err("Failed to parse JSON data as payload for " + rpc + " function"))
    case Parsed(p) => Store.Returned(Ok(p))
  }

  /**
   * The oldest server's reply when its transaction yields at most one
   * record (get, create and update of buckets and objects): a data message
   * holding the record, or `missing` when there is none, pushed after
   * `response`; a database failure becomes the I/O error "postgres error".
   */
  function LegacyFoundReply(rpc: string, response: seq<FastMessage>, r: Store.Legacy<Option<Json>>, missing: Json)
    : (out: LegacyOutcome)
    ensures out.Panicked? <==> r.Panicked?
    ensures r.Returned? && r.result.Err? ==> out == Failed(PostgresIoError)
    ensures r.Returned? && r.result.Ok? ==>
      && out.Replied? && |out.msgs| == |response| + 1 && out.msgs[..|response|] == response
      && out.msgs[|response|] == Data(rpc, [if r.result.value.Some? then r.result.value.value else missing])
  {
    match r
    case Panicked => Panicked
    case Returned(Err(_)) => Failed(PostgresIoError)
    case Returned(Ok(found)) =>
      Replied(response + [Data(rpc, ArrayWrap(match found case Some(v) => v case None => missing))])
  }

  /**
   * The oldest server's delete reply: the count when rows were removed, or
   * a data message holding `missing` when none were; a database failure
   * becomes an error message holding a PostgresError. The reply is pushed
   * after `response`.
   */
  function LegacyCountReply(rpc: string, response: seq<FastMessage>, r: Store.Legacy<nat>, missing: Json)
    : (out: LegacyOutcome)
    ensures out.Panicked? <==> r.Panicked?
    ensures r.Returned? ==> out.Replied? && |out.msgs| == |response| + 1 && out.msgs[..|response|] == response
    ensures r.Returned? && r.result.Ok? ==>
      out.msgs[|response|] == Data(rpc, [if r.result.value > 0 then CountJson(r.result.value) else missing])
    ensures r.Returned? && r.result.Err? ==>
      out.msgs[|response|] == ErrorMessage(rpc, ArrayJson([NamedPostgresError(r.result.error)]))
  {
    match r
    case Panicked => Panicked
    case Returned(Ok(n)) =>
      Replied(response + [Data(rpc, ArrayWrap(if n > 0 then CountJson(n) else missing))])
    case Returned(Err(e)) =>
      Replied(response + [ErrorMessage(rpc, ArrayJson(ArrayWrap(NamedPostgresError(e))))])
  }

  /**
   * The first handlers of `bucket.rs` and `object.rs`: like
   * `LegacyFoundReply`, but a missing record is sent as an error message
   * holding `missing` itself.
   */
  function OldFoundReply(rpc: string, response: seq<FastMessage>, r: Result<Option<Json>, string>, missing: Json)
    : (out: LegacyOutcome)
    ensures r.Err? <==> out == Failed(PostgresIoError)
    ensures r.Ok? ==> out.Replied? && |out.msgs| == |response| + 1 && out.msgs[..|response|] == response
    ensures r.Ok? && r.value.Some? ==> out.msgs[|response|] == Data(rpc, [r.value.value])
    ensures r == Ok(None) ==> out.msgs[|response|] == ErrorMessage(rpc, missing)
  {
    match r
    case Err(_) => Failed(PostgresIoError)
    case Ok(Some(v)) => Replied(response + [Data(rpc, ArrayWrap(v))])
    case Ok(None) => Replied(response + [ErrorMessage(rpc, missing)])
  }

  /** The first `delete_handler` of `bucket.rs`: a zero count is an error message holding the not-found value. */
  function OldCountReply(rpc: string, response: seq<FastMessage>, r: Result<nat, string>): (out: LegacyOutcome)
    ensures out.Replied? && |out.msgs| == |response| + 1 && out.msgs[..|response|] == response
    ensures r.Ok? && r.value > 0 ==> out.msgs[|response|] == Data(rpc, [CountJson(r.value)])
    ensures r == Ok(0) ==> out.msgs[|response|] == ErrorMessage(rpc, LegacyBucketNotFound)
    ensures r.Err? ==> out.msgs[|response|] == ErrorMessage(rpc, ArrayJson([NamedPostgresError(r.error)]))
  {
    match r
    case Ok(n) =>
      if n > 0 then Replied(response + [Data(rpc, ArrayWrap(CountJson(n)))])
      else Replied(response + [ErrorMessage(rpc, LegacyBucketNotFound)])
    case Err(e) => Replied(response + [ErrorMessage(rpc, ArrayJson(ArrayWrap(NamedPostgresError(e))))])
  }

  // ---- the first `object.rs` ----

  /** The reply value of a found object, `array_wrap(to_value(resp))` once the row has been read. */
  function FoundJson(r: Result<Option<ObjectRecord>, string>): Result<Option<Json>, string>
  {
    match r
    case Ok(Some(o)) => Ok(Some(ObjectJson(o)))
    case Ok(None) => Ok(None)
    case Err(e) => Err(e)
  }

  /**
   * `get_handler` of the first `object.rs`: the argument check, then the
   * select by (owner, bucket_id, name) read by `response`. A missing object
   * is an error message holding the inline ObjectNotFoundError value; a
   * database error, or several rows, is the I/O error "postgres error"; a
   * payload that does not parse fails with serde's own text; a row whose
   * content_length is NULL makes the process panic.
   */
  function OldGetObject<P>(response: seq<FastMessage>, arg: Argument<P>, query: Result<seq<Row<ObjectRecord>>, string>)
    : (out: LegacyOutcome)
    ensures arg.Missing? ==> out == Panicked
    ensures arg.NotAnObject? ==> out == Failed("Expected JSON object")
    ensures arg.Unparseable? ==> out == Failed(arg.reason)
    ensures arg.Parsed? && query.Err? ==> out == Failed(PostgresIoError)
    ensures arg.Parsed? && query == Ok([]) ==> out == Replied(response + [ErrorMessage("getobject", LegacyObjectNotFoundInline)])
    ensures arg.Parsed? && query.Ok? && |query.value| == 1 ==>
      var row := query.value[0];
      && (out.Panicked? <==> row.width < ObjectColumns || !LengthPresent(row.values))
      && (!out.Panicked? ==> out == Replied(response + [Data("getobject", [ObjectJson(row.values)])]))
    ensures arg.Parsed? && query.Ok? && |query.value| > 1 ==> out == Failed(PostgresIoError)
  {
    match arg
    case Missing => Panicked
    case NotAnObject => Failed("Expected JSON object")
    case Unparseable(reason) => Failed(reason)
    case Parsed(_) =>
      match query
      case Err(_) => Failed(PostgresIoError)
      case Ok(rows) =>
        match LegacyRowResponse(rows, ObjectColumns, LengthPresent)
        case None => Panicked
        case Some(r) => OldFoundReply("getobject", response, FoundJson(r), LegacyObjectNotFoundInline)
  }

  /** Whether `list_handler` can read every column of a row: it is full width and its length is not NULL. */
  predicate Readable(row: Row<ObjectRecord>)
  {
    row.width >= ObjectColumns && LengthPresent(row.values)
  }

  /** One "listobjects" data message per row, in row order, each holding the row's object. */
  function ListMessages(rows: seq<Row<ObjectRecord>>): (msgs: seq<FastMessage>)
    ensures |msgs| == |rows|
    ensures forall i :: 0 <= i < |rows| ==> msgs[i] == Data("listobjects", [ObjectJson(rows[i].values)])
  {
    if rows == [] then []
    else ListMessages(rows[..|rows| - 1]) + [Data("listobjects", ArrayWrap(ObjectJson(rows[|rows| - 1].values)))]
  }

  /**
   * `list_handler` of the first `object.rs`: the argument check, then
   * `list_sql`, whose rows are pushed one data message each. The
   * connection, the transaction and the query are all unwrapped, so a
   * database error panics (`query` is `Err`), and so does a row that cannot
   * be read.
   */
  method OldListObjects<P>(response: seq<FastMessage>, arg: Argument<P>, query: Result<seq<Row<ObjectRecord>>, string>)
    returns (out: LegacyOutcome)
    ensures arg.Missing? ==> out == Panicked
    ensures arg.NotAnObject? ==> out == Failed("Expected JSON object")
    ensures arg.Unparseable? ==> out == Failed("Failed to parse JSON data as payload for listobjects function")
    ensures arg.Parsed? && query.Err? ==> out == Panicked
    ensures arg.Parsed? && query.Ok? ==> (out.Panicked? <==> exists i :: 0 <= i < |query.value| && !Readable(query.value[i]))
    ensures arg.Parsed? && query.Ok? && !out.Panicked? ==> out == Replied(response + ListMessages(query.value))
  {
    var checked := LegacyPayload("listobjects", arg);
    if checked.Panicked? {
      return Panicked;
    }
    if checked.result.Err? {
      return Failed(checked.result.error);
    }
    if query.Err? {
      return Panicked;
    }
    var rows := query.value;
    var msgs := response;
    for i := 0 to |rows|
      invariant forall j :: 0 <= j < i ==> Readable(rows[j])
      invariant msgs == response + ListMessages(rows[..i])
    {
      if !Readable(rows[i]) {
        return Panicked;
      }
      assert rows[..i + 1][..i] == rows[..i];
      msgs := msgs + [Data("listobjects", ArrayWrap(ObjectJson(rows[i].values)))];
    }
    assert rows[..|rows|] == rows;
    out := Replied(msgs);
  }

  /** The objects `list_sql` selects: every stored object of the bucket, with no order and no limit. */
  ghost function BucketObjects(table: Store.ObjectTable, owner: Uuid, bucketId: Uuid): set<ObjectRecord>
  {
    set k | k in table && k.owner == owner && k.bucketId == bucketId :: table[k]
  }

  /**
   * When the database answers `list_sql` with the bucket's objects, in
   * whatever order, `list_handler` sends one message per object of the
   * bucket and a message for nothing else.
   */
  lemma {:induction false} OldListingListsBucket(table: Store.ObjectTable, owner: Uuid, bucketId: Uuid,
                                                 rows: seq<Row<ObjectRecord>>)
    requires multiset(RowValues(rows)) == multiset(BucketObjects(table, owner, bucketId))
    ensures |ListMessages(rows)| == |BucketObjects(table, owner, bucketId)|
    ensures forall o :: o in BucketObjects(table, owner, bucketId) <==> Data("listobjects", [ObjectJson(o)]) in ListMessages(rows)
  {
    var objs := BucketObjects(table, owner, bucketId);
    var vs := RowValues(rows);
    assert |vs| == |multiset(vs)| == |multiset(objs)|;
    forall o
      ensures o in objs <==> Data("listobjects", [ObjectJson(o)]) in ListMessages(rows)
    {
      assert o in objs <==> o in multiset(vs);
      if o in vs {
        var i :| 0 <= i < |vs| && vs[i] == o;
        assert ListMessages(rows)[i] == Data("listobjects", [ObjectJson(o)]);
      }
      if Data("listobjects", [ObjectJson(o)]) in ListMessages(rows) {
        var i :| 0 <= i < |rows| && ListMessages(rows)[i] == Data("listobjects", [ObjectJson(o)]);
        assert vs[i] == o;
      }
    }
  }
}
