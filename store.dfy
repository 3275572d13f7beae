/**
 * One vnode's metadata schema, `manta_bucket_<vnode>`, as a state machine.
 * Its four tables are `manta_bucket` (keyed by owner and name),
 * `manta_bucket_object` (keyed by owner, bucket id and name) and the two
 * tables deleted rows are copied into. Every handler runs its statements in
 * one transaction: either all of them take effect at the commit, or the
 * database rejects one and none does.
 *
 * The statements' meaning is stated once, as functions on the tables; the
 * `Vnode` methods are the handlers' `do_*` transactions, proved against them.
 */
module Store {

  import opened Wrappers
  import opened Text
  import opened Errors
  import opened Rows
  import Fast
  import opened Conditional
  import Listing

  // ---- the database's answers ----

  /**
   * The statements of a transaction, in the order the handlers send them:
   * begin, the conditional read, the copy into a deleted table, the
   * handler's own statement, commit.
   */
  datatype Step = Begin | Check | Move | Main | Commit

  /**
   * What the database does with one transaction: accept every statement, or
   * reject the statement at `step` with the error text `error` (and then run
   * nothing after it).
   */
  datatype Fault = NoFault | FailAt(step: Step, error: string)

  /** The transaction is rejected at one of `steps`. */
  predicate Aborts(f: Fault, steps: set<Step>)
  {
    f.FailAt? && f.step in steps
  }

  /** How a buckets-mdapi get or update fails: a refusal carried as an error value, or a database error's text. */
  datatype Failure = Refused(err: ErrorValue) | DbError(text: string)

  /** The oldest server unwraps the transaction's begin and commit: a failure there ends the handler. */
  datatype Legacy<T> = Returned(result: Result<T, string>) | Panicked

  // ---- tables and what the statements do to them ----

  type BucketTable = map<BucketKey, BucketRecord>
  type ObjectTable = map<ObjectKey, ObjectRecord>

  function BucketKeyOf(b: BucketRecord): BucketKey
  {
    BucketKey(b.owner, b.name)
  }

  function ObjectKeyOf(o: ObjectRecord): ObjectKey
  {
    ObjectKey(o.owner, o.bucketId, o.name)
  }

  /** Every bucket row is filed under its own (owner, name): the table's unique key. */
  predicate BucketsKeyed(t: BucketTable)
  {
    forall k :: k in t ==> BucketKeyOf(t[k]) == k
  }

  /** Every object row is filed under its own (owner, bucket_id, name). */
  predicate ObjectsKeyed(t: ObjectTable)
  {
    forall k :: k in t ==> ObjectKeyOf(t[k]) == k
  }

  /** `WHERE owner = $1 AND name = $2` on `manta_bucket`: the rows a select or a move reads. */
  function MatchingBucket(t: BucketTable, k: BucketKey): seq<BucketRecord>
  {
    if k in t then [t[k]] else []
  }

  /** `WHERE owner = $1 AND bucket_id = $2 AND name = $3` on `manta_bucket_object`. */
  function MatchingObject(t: ObjectTable, k: ObjectKey): seq<ObjectRecord>
  {
    if k in t then [t[k]] else []
  }

  /** `INSERT ... ON CONFLICT DO NOTHING`: the table afterwards. */
  function InsertBucket(t: BucketTable, b: BucketRecord): BucketTable
  {
    if BucketKeyOf(b) in t then t else t[BucketKeyOf(b) := b]
  }

  /** What that insert's `RETURNING` clause hands back: the row, if it was inserted. */
  function InsertedBuckets(t: BucketTable, b: BucketRecord): seq<BucketRecord>
  {
    if BucketKeyOf(b) in t then [] else [b]
  }

  /** The fields a create request supplies for an object. */
  datatype ObjectPayload = ObjectPayload(
    id: Uuid,
    owner: Uuid,
    bucketId: Uuid,
    name: string,
    contentLength: int,
    contentMd5: seq<bv8>,
    contentType: string,
    headers: Hstore,
    sharks: seq<StorageNodeIdentifier>,
    properties: Option<string>)

  function PayloadKey(p: ObjectPayload): ObjectKey
  {
    ObjectKey(p.owner, p.bucketId, p.name)
  }

  /**
   * The row the object upsert leaves: every supplied field, with `created`
   * and `modified` both the statement's `current_timestamp` (the column
   * default on insert, set explicitly on conflict).
   */
  function Upserted(p: ObjectPayload, now: Timestamp): ObjectRecord
  {
    ObjectRecord(p.id, p.owner, p.bucketId, p.name, now, now, Some(p.contentLength), p.contentMd5,
                 p.contentType, p.headers, p.sharks, p.properties)
  }

  /** `INSERT ... ON CONFLICT (owner, bucket_id, name) DO UPDATE SET ...`: the table afterwards. */
  function UpsertObject(t: ObjectTable, p: ObjectPayload, now: Timestamp): ObjectTable
  {
    t[PayloadKey(p) := Upserted(p, now)]
  }

  /** `UPDATE ... SET content_type, headers, properties, modified = current_timestamp` on one row. */
  function Updated(o: ObjectRecord, contentType: string, headers: Hstore, properties: Option<string>,
                   now: Timestamp): ObjectRecord
  {
    o.(contentType := contentType, headers := headers, properties := properties, modified := now)
  }

  /** The update statement on the table: the matching row, if any, is updated. */
  function UpdateObjectRow(t: ObjectTable, k: ObjectKey, contentType: string, headers: Hstore,
                           properties: Option<string>, now: Timestamp): ObjectTable
  {
    if k in t then t[k := Updated(t[k], contentType, headers, properties, now)] else t
  }

  /** The rows the update's `RETURNING` clause hands back. */
  function UpdatedRows(t: ObjectTable, k: ObjectKey, contentType: string, headers: Hstore,
                       properties: Option<string>, now: Timestamp): seq<ObjectRecord>
  {
    if k in t then [Updated(t[k], contentType, headers, properties, now)] else []
  }

  /** Rows as a query hands them back: a bucket row has its 4 columns. */
  function BucketRowsOf(bs: seq<BucketRecord>): (r: seq<Row<BucketRecord>>)
    ensures |r| == |bs| && forall i :: 0 <= i < |bs| ==> r[i] == Row(BucketColumns, bs[i])
  {
    seq(|bs|, i requires 0 <= i < |bs| => Row(BucketColumns, bs[i]))
  }

  /** Rows as a query hands them back: an object row has its 12 columns. */
  function ObjectRowsOf(os: seq<ObjectRecord>): (r: seq<Row<ObjectRecord>>)
    ensures |r| == |os| && forall i :: 0 <= i < |os| ==> r[i] == Row(ObjectColumns, os[i])
  {
    seq(|os|, i requires 0 <= i < |os| => Row(ObjectColumns, os[i]))
  }

  /**
   * A row of `DELETE ... RETURNING id, owner, bucket_id, name,
   * content_length, array_length(sharks, 1) as shark_count`. Either count may
   * be NULL: the schema does not forbid a NULL length, and `array_length` of
   * an empty array is NULL.
   */
  datatype DeletedRow = DeletedRow(
    id: Uuid, owner: Uuid, bucketId: Uuid, name: string, contentLength: Option<int>, sharkCount: Option<int>)

  /** The row the delete statement returns for a stored object. */
  function DeletedRowOf(o: ObjectRecord): DeletedRow
  {
    DeletedRow(o.id, o.owner, o.bucketId, o.name, o.contentLength,
               if |o.sharks| == 0 then None else Some(|o.sharks|))
  }

  /** The rows the delete statement returns for the objects it removes, in order. */
  function DeletedRowsOf(os: seq<ObjectRecord>): (rows: seq<DeletedRow>)
    ensures |rows| == |os| && forall i :: 0 <= i < |os| ==> rows[i] == DeletedRowOf(os[i])
  {
    seq(|os|, i requires 0 <= i < |os| => DeletedRowOf(os[i]))
  }

  /** One reply entry: the length must be there, a missing shark count is 0. */
  function Converted(r: DeletedRow): (d: DeletedObject)
    requires r.contentLength.Some?
    ensures d.id == r.id && d.owner == r.owner && d.bucketId == r.bucketId && d.name == r.name
    ensures d.contentLength == r.contentLength.value
    ensures d.sharkCount == (if r.sharkCount.Some? then r.sharkCount.value else 0)
  {
    DeletedObject(r.id, r.owner, r.bucketId, r.name, r.contentLength.value,
                  match r.sharkCount case Some(n) => n case None => 0)
  }

  /** Every one of the objects has a length. */
  predicate AllHaveLength(os: seq<ObjectRecord>)
  {
    forall i :: 0 <= i < |os| ==> os[i].contentLength.Some?
  }

  /** The reply entries for the objects a delete removed, when every one has a length. */
  function DeletedEntries(os: seq<ObjectRecord>): (r: seq<DeletedObject>)
    requires AllHaveLength(os)
    ensures |r| == |os|
    ensures forall i :: 0 <= i < |os| ==>
      r[i] == DeletedObject(os[i].id, os[i].owner, os[i].bucketId, os[i].name, os[i].contentLength.value, |os[i].sharks|)
  {
    seq(|os|, i requires 0 <= i < |os| => Converted(DeletedRowOf(os[i])))
  }

  /**
   * The loop of `do_delete` over the rows the delete returned: each row is
   * converted in turn, and the first row without a length ends the loop with
   * the column's error (`nullError`, the driver's text for a NULL read).
   */
  method ConvertDeletedRows(rows: seq<DeletedRow>, nullError: string) returns (r: Result<seq<DeletedObject>, string>)
    ensures r.Ok? <==> forall i :: 0 <= i < |rows| ==> rows[i].contentLength.Some?
    ensures r.Ok? ==> |r.value| == |rows| && forall i :: 0 <= i < |rows| ==> r.value[i] == Converted(rows[i])
    ensures r.Err? ==> r.error == nullError
  {
    var objs: seq<DeletedObject> := [];
    var i := 0;
    while i < |rows|
      invariant 0 <= i <= |rows|
      invariant |objs| == i
      invariant forall j :: 0 <= j < i ==> rows[j].contentLength.Some? && objs[j] == Converted(rows[j])
    {
      if rows[i].contentLength.None? {
        return Err(nullError);
      }
      objs := objs + [Converted(rows[i])];
      i := i + 1;
    }
    return Ok(objs);
  }

  // ---- one vnode ----

  class Vnode {
    /** The N of the schema name `manta_bucket_N`. */
    const number: nat
    /** `manta_bucket`. */
    var buckets: BucketTable
    /** `manta_bucket_deleted_bucket`, in the order rows were copied in. */
    var deletedBuckets: seq<BucketRecord>
    /** `manta_bucket_object`. */
    var objects: ObjectTable
    /** `manta_bucket_deleted_object`, in the order rows were copied in. */
    var deletedObjects: seq<ObjectRecord>

    /** The unique keys of both live tables hold. */
    ghost predicate Valid()
      reads this
    {
      BucketsKeyed(buckets) && ObjectsKeyed(objects)
    }

    /** A freshly created, empty schema. */
    constructor (n: nat)
      ensures Valid() && number == n
      ensures buckets == map[] && objects == map[] && deletedBuckets == [] && deletedObjects == []
    {
      number := n;
      buckets := map[];
      deletedBuckets := [];
      objects := map[];
      deletedObjects := [];
    }

    // ---- buckets ----

    /**
     * boray's bucket `do_create`: begin, insert the bucket unless its
     * (owner, name) is taken, commit, and only then `response` on the rows
     * the insert returned: the new bucket, or nothing when the name was
     * taken. A rejected statement leaves the schema unchanged.
     */
    method CreateBucket(rpc: string, id: Uuid, owner: Uuid, name: string, now: Timestamp, fault: Fault)
      returns (r: Result<Option<BucketRecord>, string>)
      requires Valid()
      modifies this
      ensures Valid()
      ensures deletedBuckets == old(deletedBuckets) && objects == old(objects) && deletedObjects == old(deletedObjects)
      ensures Aborts(fault, {Begin, Main, Commit}) ==> r == Err(fault.error) && buckets == old(buckets)
      ensures !Aborts(fault, {Begin, Main, Commit}) ==>
        var b := BucketRecord(id, owner, name, now);
        && buckets == InsertBucket(old(buckets), b)
        && r == Ok(if BucketKeyOf(b) in old(buckets) then None else Some(b))
    {
      if Aborts(fault, {Begin, Main, Commit}) {
        return Err(fault.error);
      }
      var b := BucketRecord(id, owner, name, now);
      var rows := BucketRowsOf(InsertedBuckets(buckets, b));
      buckets := InsertBucket(buckets, b);
      return BucketResponse(rpc, rows);
    }

    /**
     * boray's bucket `do_delete`: begin, copy the (owner, name) row into
     * `manta_bucket_deleted_bucket`, delete it, commit; the result is the
     * number of rows the delete removed.
     */
    method DeleteBucket(owner: Uuid, name: string, fault: Fault) returns (r: Result<nat, string>)
      requires Valid()
      modifies this
      ensures Valid()
      ensures objects == old(objects) && deletedObjects == old(deletedObjects)
      ensures Aborts(fault, {Begin, Move, Main, Commit}) ==>
        r == Err(fault.error) && buckets == old(buckets) && deletedBuckets == old(deletedBuckets)
      ensures !Aborts(fault, {Begin, Move, Main, Commit}) ==>
        var k := BucketKey(owner, name);
        && deletedBuckets == old(deletedBuckets) + MatchingBucket(old(buckets), k)
        && buckets == old(buckets) - {k}
        && r == Ok(|MatchingBucket(old(buckets), k)|)
    {
      if Aborts(fault, {Begin, Move, Main, Commit}) {
        return Err(fault.error);
      }
      var k := BucketKey(owner, name);
      var moved := MatchingBucket(buckets, k);
      deletedBuckets := deletedBuckets + moved;
      buckets := buckets - {k};
      return Ok(|moved|);
    }

    /**
     * The oldest server's bucket `create`: the same insert, but the begin and
     * the commit are unwrapped, and the commit is issued whether or not the
     * insert succeeded (after a rejected insert it only ends the transaction).
     */
    method LegacyCreateBucket(id: Uuid, owner: Uuid, name: string, now: Timestamp, fault: Fault)
      returns (r: Legacy<Option<BucketRecord>>)
      requires Valid()
      modifies this
      ensures Valid()
      ensures deletedBuckets == old(deletedBuckets) && objects == old(objects) && deletedObjects == old(deletedObjects)
      ensures Aborts(fault, {Begin, Commit}) ==> r == Panicked && buckets == old(buckets)
      ensures Aborts(fault, {Main}) ==> r == Returned(Err(fault.error)) && buckets == old(buckets)
      ensures !Aborts(fault, {Begin, Main, Commit}) ==>
        var b := BucketRecord(id, owner, name, now);
        && buckets == InsertBucket(old(buckets), b)
        && r == Returned(Ok(if BucketKeyOf(b) in old(buckets) then None else Some(b)))
    {
      if Aborts(fault, {Begin, Commit}) {
        return Panicked;
      }
      if Aborts(fault, {Main}) {
        return Returned(Err(fault.error));
      }
      var b := BucketRecord(id, owner, name, now);
      var decoded := LegacyResponse(InsertedBuckets(buckets, b));
      buckets := InsertBucket(buckets, b);
      return Returned(decoded);
    }

    /**
     * The oldest server's bucket `delete`: move, delete, and an unwrapped
     * commit once both succeeded; the result is the delete's row count.
     */
    method LegacyDeleteBucket(owner: Uuid, name: string, fault: Fault) returns (r: Legacy<nat>)
      requires Valid()
      modifies this
      ensures Valid()
      ensures objects == old(objects) && deletedObjects == old(deletedObjects)
      ensures Aborts(fault, {Begin, Commit}) ==> r == Panicked
      ensures Aborts(fault, {Move, Main}) ==> r == Returned(Err(fault.error))
      ensures Aborts(fault, {Begin, Move, Main, Commit}) ==> buckets == old(buckets) && deletedBuckets == old(deletedBuckets)
      ensures !Aborts(fault, {Begin, Move, Main, Commit}) ==>
        var k := BucketKey(owner, name);
        && deletedBuckets == old(deletedBuckets) + MatchingBucket(old(buckets), k)
        && buckets == old(buckets) - {k}
        && r == Returned(Ok(|MatchingBucket(old(buckets), k)|))
    {
      if Aborts(fault, {Begin, Commit}) {
        return Panicked;
      }
      if Aborts(fault, {Move, Main}) {
        return Returned(Err(fault.error));
      }
      var k := BucketKey(owner, name);
      var moved := MatchingBucket(buckets, k);
      deletedBuckets := deletedBuckets + moved;
      buckets := buckets - {k};
      return Returned(Ok(|moved|));
    }

    /** The oldest server's bucket `get`: one select by (owner, name), outside any transaction. */
    function LookupBucket(owner: Uuid, name: string, fault: Fault): (r: Result<Option<BucketRecord>, string>)
      reads this
      requires Valid()
      ensures Aborts(fault, {Main}) ==> r == Err(fault.error)
      ensures !Aborts(fault, {Main}) ==> r.Ok?
      ensures r.Ok? && r.value.Some? ==> r.value.value in buckets.Values && r.value.value.owner == owner && r.value.value.name == name
      ensures r.Ok? && r.value.None? ==> BucketKey(owner, name) !in buckets
    {
      if Aborts(fault, {Main}) then Err(fault.error)
      else LegacyResponse(MatchingBucket(buckets, BucketKey(owner, name)))
    }

    // ---- objects ----

    /** What the conditional read inside a transaction returns: the row under the key, or the database's error. */
    function CheckLookup(k: ObjectKey, fault: Fault): Result<seq<Row<ObjectRecord>>, string>
      reads this
    {
      if Aborts(fault, {Check}) then Err(fault.error) else Ok(ObjectRowsOf(MatchingObject(objects, k)))
    }

    /** The verdict of `conditional::request` on the row under the key. */
    function CheckOutcome(c: Conditions, k: ObjectKey, fault: Fault, rfc3339: Timestamp -> string): Result<(), ErrorValue>
      reads this
    {
      Request(c, number, CheckLookup(k, fault), rfc3339).outcome
    }

    /**
     * buckets-mdapi's object `do_get`: begin, the conditional check, the
     * select by (owner, bucket_id, name), commit, and `response` on the rows.
     * An unconditional request reads the stored row; a conditional one on a
     * stored object succeeds exactly when the object passes every condition.
     */
    method GetObject(rpc: string, c: Conditions, owner: Uuid, bucketId: Uuid, name: string, fault: Fault,
                     rfc3339: Timestamp -> string)
      returns (r: Result<Option<ObjectRecord>, Failure>)
      requires ObjectsKeyed(objects)
      ensures Aborts(fault, {Begin, Main, Commit}) ==> r.Err?
      ensures Aborts(fault, {Begin}) ==> r == Err(DbError(fault.error))
      ensures var k := ObjectKey(owner, bucketId, name);
        r.Ok? <==> !Aborts(fault, {Begin, Main, Commit}) && CheckOutcome(c, k, fault, rfc3339).Ok?
      ensures var k := ObjectKey(owner, bucketId, name);
        r.Ok? ==> r.value == (if k in objects then Some(objects[k]) else None)
      ensures !IsConditional(c) && !Aborts(fault, {Begin, Main, Commit}) ==> r.Ok?
      ensures var k := ObjectKey(owner, bucketId, name);
        IsConditional(c) && k in objects && !Aborts(fault, {Begin, Check, Main, Commit}) ==>
          (r.Ok? <==> PassesAll(c, objects[k].id, objects[k].modified))
    {
      var k := ObjectKey(owner, bucketId, name);
      if Aborts(fault, {Begin}) {
        return Err(DbError(fault.error));
      }
      var check := CheckOutcome(c, k, fault, rfc3339);
      if check.Err? {
        return Err(Refused(check.error));
      }
      if Aborts(fault, {Main, Commit}) {
        return Err(DbError(fault.error));
      }
      var decoded := ObjectResponse(rpc, ObjectRowsOf(MatchingObject(objects, k)));
      match decoded {
        case Ok(found) => return Ok(found);
        case Err(e) => return Err(Refused(e));
      }
    }

    /**
     * buckets-mdapi's object `do_update`: begin, the conditional check, the
     * update of content_type, headers, properties and modified on the row
     * under the key, commit, and `response` on the returned rows. The update
     * takes effect exactly when the reply is Ok.
     */
    method UpdateObject(rpc: string, c: Conditions, owner: Uuid, bucketId: Uuid, name: string,
                        contentType: string, headers: Hstore, properties: Option<string>, now: Timestamp,
                        fault: Fault, rfc3339: Timestamp -> string)
      returns (r: Result<Option<ObjectRecord>, Failure>)
      requires Valid()
      modifies this
      ensures Valid()
      ensures buckets == old(buckets) && deletedBuckets == old(deletedBuckets) && deletedObjects == old(deletedObjects)
      ensures Aborts(fault, {Begin}) ==> r == Err(DbError(fault.error))
      ensures var k := ObjectKey(owner, bucketId, name);
        r.Ok? <==> !Aborts(fault, {Begin, Main, Commit}) && old(CheckOutcome(c, k, fault, rfc3339)).Ok?
      ensures var k := ObjectKey(owner, bucketId, name);
        !Aborts(fault, {Begin}) && old(CheckOutcome(c, k, fault, rfc3339)).Err? ==>
          r == Err(Refused(old(CheckOutcome(c, k, fault, rfc3339)).error))
      ensures r.Err? ==> objects == old(objects)
      ensures var k := ObjectKey(owner, bucketId, name);
        r.Ok? ==>
          && objects == UpdateObjectRow(old(objects), k, contentType, headers, properties, now)
          && r.value == (if k in old(objects) then Some(Updated(old(objects)[k], contentType, headers, properties, now)) else None)
    {
      var k := ObjectKey(owner, bucketId, name);
      if Aborts(fault, {Begin}) {
        return Err(DbError(fault.error));
      }
      var check := CheckOutcome(c, k, fault, rfc3339);
      if check.Err? {
        return Err(Refused(check.error));
      }
      if Aborts(fault, {Main, Commit}) {
        return Err(DbError(fault.error));
      }
      var returned := UpdatedRows(objects, k, contentType, headers, properties, now);
      objects := UpdateObjectRow(objects, k, contentType, headers, properties, now);
      var decoded := ObjectResponse(rpc, ObjectRowsOf(returned));
      match decoded {
        case Ok(found) => return Ok(found);
        case Err(e) => return Err(Refused(e));
      }
    }

    /**
     * buckets-mdapi's object `do_delete`: begin, the conditional check, copy
     * the row into `manta_bucket_deleted_object`, delete it returning its
     * identity and counts, convert the rows (a NULL length fails the
     * transaction with `nullError`, the driver's text), commit. A refused check is
     * passed on as it is; any database error after the begin becomes a
     * PostgresError value, and the begin's own error is passed on as text.
     */
    method DeleteObject(c: Conditions, owner: Uuid, bucketId: Uuid, name: string, fault: Fault,
                        rfc3339: Timestamp -> string, nullError: string)
      returns (r: Result<seq<DeletedObject>, Fast.Json>)
      requires Valid()
      modifies this
      ensures Valid()
      ensures buckets == old(buckets) && deletedBuckets == old(deletedBuckets)
      ensures Aborts(fault, {Begin}) ==> r == Err(Fast.TextJson(fault.error))
      ensures var k := ObjectKey(owner, bucketId, name);
        !Aborts(fault, {Begin}) && old(CheckOutcome(c, k, fault, rfc3339)).Err? ==>
          r == Err(Fast.ErrorJson(old(CheckOutcome(c, k, fault, rfc3339)).error))
      ensures var k := ObjectKey(owner, bucketId, name);
        old(CheckOutcome(c, k, fault, rfc3339)).Ok? && Aborts(fault, {Move, Main}) ==>
          r == Err(Fast.ErrorJson(WithMessage(PostgresError, fault.error)))
      ensures var k := ObjectKey(owner, bucketId, name);
        old(CheckOutcome(c, k, fault, rfc3339)).Ok? && !Aborts(fault, {Begin, Move, Main})
        && !AllHaveLength(MatchingObject(old(objects), k)) ==>
          r == Err(Fast.ErrorJson(WithMessage(PostgresError, nullError)))
      ensures var k := ObjectKey(owner, bucketId, name);
        old(CheckOutcome(c, k, fault, rfc3339)).Ok? && Aborts(fault, {Commit}) && AllHaveLength(MatchingObject(old(objects), k)) ==>
          r == Err(Fast.ErrorJson(WithMessage(PostgresError, fault.error)))
      ensures var k := ObjectKey(owner, bucketId, name);
        r.Ok? <==> !Aborts(fault, {Begin, Move, Main, Commit}) && old(CheckOutcome(c, k, fault, rfc3339)).Ok?
                   && AllHaveLength(MatchingObject(old(objects), k))
      ensures r.Err? ==> objects == old(objects) && deletedObjects == old(deletedObjects)
      ensures var k := ObjectKey(owner, bucketId, name);
        r.Ok? ==>
          && AllHaveLength(MatchingObject(old(objects), k))
          && deletedObjects == old(deletedObjects) + MatchingObject(old(objects), k)
          && objects == old(objects) - {k}
          && r.value == DeletedEntries(MatchingObject(old(objects), k))
    {
      var k := ObjectKey(owner, bucketId, name);
      if Aborts(fault, {Begin}) {
        return Err(Fast.TextJson(fault.error));
      }
      var check := CheckOutcome(c, k, fault, rfc3339);
      if check.Err? {
        return Err(Fast.ErrorJson(check.error));
      }
      if Aborts(fault, {Move, Main}) {
        return Err(Fast.ErrorJson(WithMessage(PostgresError, fault.error)));
      }
      var removed := MatchingObject(objects, k);
      var converted := ConvertDeletedRows(DeletedRowsOf(removed), nullError);
      if converted.Err? {
        return Err(Fast.ErrorJson(WithMessage(PostgresError, converted.error)));
      }
      assert converted.value == DeletedEntries(removed);
      if Aborts(fault, {Commit}) {
        return Err(Fast.ErrorJson(WithMessage(PostgresError, fault.error)));
      }
      deletedObjects := deletedObjects + removed;
      objects := objects - {k};
      return Ok(converted.value);
    }

    /**
     * boray's object `do_delete`: the same move, delete and conversion with
     * no conditional check, every error as text.
     */
    method BorayDeleteObject(owner: Uuid, bucketId: Uuid, name: string, fault: Fault, nullError: string)
      returns (r: Result<seq<DeletedObject>, string>)
      requires Valid()
      modifies this
      ensures Valid()
      ensures buckets == old(buckets) && deletedBuckets == old(deletedBuckets)
      ensures Aborts(fault, {Begin, Move, Main}) ==> r == Err(fault.error)
      ensures var k := ObjectKey(owner, bucketId, name);
        !Aborts(fault, {Begin, Move, Main}) && !AllHaveLength(MatchingObject(old(objects), k)) ==> r == Err(nullError)
      ensures var k := ObjectKey(owner, bucketId, name);
        Aborts(fault, {Commit}) && AllHaveLength(MatchingObject(old(objects), k)) ==> r == Err(fault.error)
      ensures r.Err? ==> objects == old(objects) && deletedObjects == old(deletedObjects)
      ensures var k := ObjectKey(owner, bucketId, name);
        !Aborts(fault, {Begin, Move, Main, Commit}) && AllHaveLength(MatchingObject(old(objects), k)) ==>
        && deletedObjects == old(deletedObjects) + MatchingObject(old(objects), k)
        && objects == old(objects) - {k}
        && r == Ok(DeletedEntries(MatchingObject(old(objects), k)))
    {
      if Aborts(fault, {Begin, Move, Main}) {
        return Err(fault.error);
      }
      var k := ObjectKey(owner, bucketId, name);
      var removed := MatchingObject(objects, k);
      var converted := ConvertDeletedRows(DeletedRowsOf(removed), nullError);
      if converted.Err? {
        return Err(converted.error);
      }
      assert converted.value == DeletedEntries(removed);
      if Aborts(fault, {Commit}) {
        return Err(fault.error);
      }
      deletedObjects := deletedObjects + removed;
      objects := objects - {k};
      return Ok(converted.value);
    }

    /**
     * The oldest server's object `create` (and `put`): move the current row,
     * if any, into `manta_bucket_deleted_object`, upsert the payload, decode
     * the returned row, and only then commit (unwrapped).
     */
    method LegacyPutObject(p: ObjectPayload, now: Timestamp, fault: Fault) returns (r: Legacy<Option<ObjectRecord>>)
      requires Valid()
      modifies this
      ensures Valid()
      ensures buckets == old(buckets) && deletedBuckets == old(deletedBuckets)
      ensures Aborts(fault, {Begin, Commit}) ==> r == Panicked
      ensures Aborts(fault, {Move, Main}) ==> r == Returned(Err(fault.error))
      ensures Aborts(fault, {Begin, Move, Main, Commit}) ==> objects == old(objects) && deletedObjects == old(deletedObjects)
      ensures !Aborts(fault, {Begin, Move, Main, Commit}) ==>
        && deletedObjects == old(deletedObjects) + MatchingObject(old(objects), PayloadKey(p))
        && objects == UpsertObject(old(objects), p, now)
        && r == Returned(Ok(Some(Upserted(p, now))))
    {
      if Aborts(fault, {Begin, Commit}) {
        return Panicked;
      }
      if Aborts(fault, {Move, Main}) {
        return Returned(Err(fault.error));
      }
      var decoded := LegacyResponse([Upserted(p, now)]);
      deletedObjects := deletedObjects + MatchingObject(objects, PayloadKey(p));
      objects := UpsertObject(objects, p, now);
      return Returned(decoded);
    }

    /**
     * The oldest server's object `update`: the field-restricted update with
     * no conditional check, the returned row decoded, then an unwrapped
     * commit.
     */
    method LegacyUpdateObject(owner: Uuid, bucketId: Uuid, name: string, contentType: string, headers: Hstore,
                              properties: Option<string>, now: Timestamp, fault: Fault)
      returns (r: Legacy<Option<ObjectRecord>>)
      requires Valid()
      modifies this
      ensures Valid()
      ensures buckets == old(buckets) && deletedBuckets == old(deletedBuckets) && deletedObjects == old(deletedObjects)
      ensures Aborts(fault, {Begin, Commit}) ==> r == Panicked
      ensures Aborts(fault, {Main}) ==> r == Returned(Err(fault.error))
      ensures Aborts(fault, {Begin, Main, Commit}) ==> objects == old(objects)
      ensures !Aborts(fault, {Begin, Main, Commit}) ==>
        var k := ObjectKey(owner, bucketId, name);
        && objects == UpdateObjectRow(old(objects), k, contentType, headers, properties, now)
        && r == Returned(Ok(if k in old(objects) then Some(Updated(old(objects)[k], contentType, headers, properties, now)) else None))
    {
      if Aborts(fault, {Begin, Commit}) {
        return Panicked;
      }
      if Aborts(fault, {Main}) {
        return Returned(Err(fault.error));
      }
      var k := ObjectKey(owner, bucketId, name);
      var decoded := LegacyResponse(UpdatedRows(objects, k, contentType, headers, properties, now));
      objects := UpdateObjectRow(objects, k, contentType, headers, properties, now);
      return Returned(decoded);
    }

    /** The oldest server's object `delete`: move, delete, an unwrapped commit, and the row count. */
    method LegacyDeleteObject(owner: Uuid, bucketId: Uuid, name: string, fault: Fault) returns (r: Legacy<nat>)
      requires Valid()
      modifies this
      ensures Valid()
      ensures buckets == old(buckets) && deletedBuckets == old(deletedBuckets)
      ensures Aborts(fault, {Begin, Commit}) ==> r == Panicked
      ensures Aborts(fault, {Move, Main}) ==> r == Returned(Err(fault.error))
      ensures Aborts(fault, {Begin, Move, Main, Commit}) ==> objects == old(objects) && deletedObjects == old(deletedObjects)
      ensures !Aborts(fault, {Begin, Move, Main, Commit}) ==>
        var k := ObjectKey(owner, bucketId, name);
        && deletedObjects == old(deletedObjects) + MatchingObject(old(objects), k)
        && objects == old(objects) - {k}
        && r == Returned(Ok(|MatchingObject(old(objects), k)|))
    {
      if Aborts(fault, {Begin, Commit}) {
        return Panicked;
      }
      if Aborts(fault, {Move, Main}) {
        return Returned(Err(fault.error));
      }
      var k := ObjectKey(owner, bucketId, name);
      var moved := MatchingObject(objects, k);
      deletedObjects := deletedObjects + moved;
      objects := objects - {k};
      return Returned(Ok(|moved|));
    }

    /** The oldest server's object `get`: one select by (owner, bucket_id, name), outside any transaction. */
    function LookupObject(owner: Uuid, bucketId: Uuid, name: string, fault: Fault): (r: Result<Option<ObjectRecord>, string>)
      reads this
      requires Valid()
      ensures Aborts(fault, {Main}) ==> r == Err(fault.error)
      ensures !Aborts(fault, {Main}) ==> r.Ok?
      ensures r.Ok? && r.value.Some? ==>
        r.value.value in objects.Values && ObjectKeyOf(r.value.value) == ObjectKey(owner, bucketId, name)
      ensures r.Ok? && r.value.None? ==> ObjectKey(owner, bucketId, name) !in objects
    {
      if Aborts(fault, {Main}) then Err(fault.error)
      else LegacyResponse(MatchingObject(objects, ObjectKey(owner, bucketId, name)))
    }
  }

  // ---- what the statements promise ----

  /**
   * Creating a bucket twice: the second insert returns no row and changes
   * nothing, and an insert never overwrites an existing bucket.
   */
  lemma CreateBucketTwice(t: BucketTable, b: BucketRecord, again: BucketRecord)
    requires BucketKeyOf(again) == BucketKeyOf(b)
    ensures InsertedBuckets(InsertBucket(t, b), again) == []
    ensures InsertBucket(InsertBucket(t, b), again) == InsertBucket(t, b)
    ensures BucketKeyOf(b) in t ==> InsertBucket(t, b) == t && InsertedBuckets(t, b) == []
  {
  }

  /**
   * After a create, the (owner, name) lookup finds the bucket the insert
   * returned (or the one that was already there), and every other key reads
   * as before.
   */
  lemma CreatedBucketIsFound(t: BucketTable, b: BucketRecord)
    requires BucketsKeyed(t)
    ensures BucketsKeyed(InsertBucket(t, b))
    ensures InsertedBuckets(t, b) == [b] ==> MatchingBucket(InsertBucket(t, b), BucketKeyOf(b)) == [b]
    ensures InsertedBuckets(t, b) == [] ==> MatchingBucket(InsertBucket(t, b), BucketKeyOf(b)) == MatchingBucket(t, BucketKeyOf(b))
    ensures forall k :: k != BucketKeyOf(b) ==> MatchingBucket(InsertBucket(t, b), k) == MatchingBucket(t, k)
  {
  }

  /** Deleting a bucket twice: the second delete finds no row, so its count is 0. */
  lemma DeleteBucketTwice(t: BucketTable, k: BucketKey)
    ensures |MatchingBucket(t, k)| == (if k in t then 1 else 0)
    ensures MatchingBucket(t - {k}, k) == []
    ensures forall k2 :: k2 != k ==> MatchingBucket(t - {k}, k2) == MatchingBucket(t, k2)
  {
  }

  /**
   * The object upsert leaves exactly one row under the payload's key, built
   * from the payload with fresh timestamps, whatever was there before; no
   * other row changes.
   */
  lemma UpsertReplacesRow(t: ObjectTable, p: ObjectPayload, now: Timestamp)
    requires ObjectsKeyed(t)
    ensures ObjectsKeyed(UpsertObject(t, p, now))
    ensures MatchingObject(UpsertObject(t, p, now), PayloadKey(p)) == [Upserted(p, now)]
    ensures var o := Upserted(p, now);
      && o.id == p.id && o.contentLength == Some(p.contentLength) && o.contentMd5 == p.contentMd5
      && o.contentType == p.contentType && o.headers == p.headers && o.sharks == p.sharks
      && o.properties == p.properties && o.created == now && o.modified == now
    ensures forall k :: k != PayloadKey(p) ==> MatchingObject(UpsertObject(t, p, now), k) == MatchingObject(t, k)
  {
  }

  /**
   * The update touches only content_type, headers, properties and modified
   * of the row under its key: id, created, content_length, content_md5 and
   * sharks stay, whatever id the request carries. A missing row stays
   * missing, and no other row changes.
   */
  lemma UpdateChangesOnlyItsFields(t: ObjectTable, k: ObjectKey, contentType: string, headers: Hstore,
                                   properties: Option<string>, now: Timestamp)
    requires ObjectsKeyed(t)
    ensures ObjectsKeyed(UpdateObjectRow(t, k, contentType, headers, properties, now))
    ensures k !in t ==> UpdateObjectRow(t, k, contentType, headers, properties, now) == t
    ensures k in t ==>
      var o := t[k];
      var u := UpdateObjectRow(t, k, contentType, headers, properties, now)[k];
      && u.id == o.id && u.owner == o.owner && u.bucketId == o.bucketId && u.name == o.name
      && u.created == o.created && u.contentLength == o.contentLength && u.contentMd5 == o.contentMd5
      && u.sharks == o.sharks
      && u.contentType == contentType && u.headers == headers && u.properties == properties && u.modified == now
    ensures forall k2 :: k2 != k ==>
      MatchingObject(UpdateObjectRow(t, k, contentType, headers, properties, now), k2) == MatchingObject(t, k2)
    ensures UpdatedRows(t, k, contentType, headers, properties, now) == MatchingObject(UpdateObjectRow(t, k, contentType, headers, properties, now), k)
  {
  }

  /** Deleting an object twice: the second delete removes nothing and returns no row. */
  lemma DeleteObjectTwice(t: ObjectTable, k: ObjectKey)
    ensures MatchingObject(t - {k}, k) == []
    ensures DeletedEntries(MatchingObject(t - {k}, k)) == []
    ensures k in t && t[k].contentLength.Some? ==> (DeletedEntries(MatchingObject(t, k)) ==
      [DeletedObject(t[k].id, t[k].owner, t[k].bucketId, t[k].name, t[k].contentLength.value, |t[k].sharks|)])
  {
  }

  /**
   * A bucket listing by prefix that found nothing finds exactly the new
   * bucket once a bucket matching the prefix pattern has been created.
   */
  lemma {:induction false} PrefixListingSeesNewBucket(t: BucketTable, b: BucketRecord, prefix: string, limit: nat)
    requires BucketsKeyed(t)
    requires Listing.Like(b.name, Listing.PrefixPattern(prefix)) && 0 < limit
    requires Listing.BucketRows(t, b.owner, Listing.Statement(None, Some(prefix), limit)) == []
    ensures Listing.BucketRows(InsertBucket(t, b), b.owner, Listing.Statement(None, Some(prefix), limit)) == [b]
  {
    var s := Listing.Statement(None, Some(prefix), limit);
    var before := Listing.BucketCandidates(t, b.owner, s);
    Listing.StatementSelects(None, Some(prefix), limit, b.name);
    Listing.TakeEmpty(before, limit);
    var k := BucketKeyOf(b);
    assert k in t ==> b.name in before;
    var t' := InsertBucket(t, b);
    var after := Listing.BucketCandidates(t', b.owner, s);
    assert after == {b.name} by {
      assert b.name in after by { assert k in t'; }
      forall n | n in after ensures n == b.name {
        var k2 :| k2 in t' && k2.owner == b.owner && Listing.Selects(s, k2.name) && k2.name == n;
        assert k2 != k ==> k2.name in before;
      }
    }
    Listing.TakeEmpty(after, limit);
    assert Listing.Take(after, limit) == [b.name];
  }
}
