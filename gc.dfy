/**
 * Garbage collection of deleted objects. Every vnode schema keeps the rows
 * of deleted objects in `manta_bucket_deleted_object`; the materialized
 * view GARBAGE_BATCH shows a batch of them, and a singleton table holds the
 * id of the current batch (the row with id 1). A collector reads a batch,
 * removes the storage it names, and asks the server to delete the batch:
 * the server deletes each listed row, refreshes the view and rotates the
 * batch id, all in one transaction.
 */
module Gc {

  import opened Wrappers
  import opened Text
  import opened Rows
  import opened Fast
  import Handlers

  // ---- the singleton batch id (buckets-mdapi) ----

  const RefreshGarbageViewSql := "REFRESH MATERIALIZED VIEW GARBAGE_BATCH"
  const GetGarbageBatchIdSql := "SELECT batch_id FROM garbage_batch_id WHERE id = 1"
  const UpdateGarbageBatchIdSql := "UPDATE garbage_batch_id SET batch_id = $1 WHERE id = 1"
  const GarbageBatchSql := "SELECT * FROM GARBAGE_BATCH"

  /** The condition that picks the singleton row of the batch-id table. */
  const SingletonRow := " WHERE id = 1"

  predicate IsSuffix(p: string, s: string)
  {
    |p| <= |s| && s[|s| - |p|..] == p
  }

  /** Both the read and the update of the batch id address the singleton row and no other. */
  lemma BatchIdStatementsAddressSingleton()
    ensures IsSuffix(SingletonRow, GetGarbageBatchIdSql)
    ensures IsSuffix(SingletonRow, UpdateGarbageBatchIdSql)
    ensures GetGarbageBatchIdSql == "SELECT batch_id FROM garbage_batch_id" + SingletonRow
    ensures UpdateGarbageBatchIdSql == "UPDATE garbage_batch_id SET batch_id = $1" + SingletonRow
  {
  }

  /**
   * `handle_batch_id_result`: the batch ids the read returned, checked to be
   * exactly one.
   */
  function HandleBatchIdResult(ids: seq<Uuid>): (r: Result<Uuid, string>)
    ensures |ids| == 1 <==> r.Ok?
    ensures r.Ok? ==> r.value == ids[0]
    ensures ids == [] ==> r == Err("garbage batch id not found")
    ensures |ids| > 1 ==> r == Err("database invariant failure: found more than one garbage batch id")
  {
    if |ids| == 1 then Ok(ids[0])
    else if |ids| == 0 then Err("garbage batch id not found")
    else Err("database invariant failure: found more than one garbage batch id")
  }

  // ---- the garbage tables ----

  /** A row of GARBAGE_BATCH: a deleted object and the schema (`schma`) whose table holds it. */
  datatype GarbageEntry = GarbageEntry(schema: string, obj: ObjectRecord)

  /** A row the delete statement for `e` removes: same schema, owner, bucket, name and id. */
  predicate Matches(x: GarbageEntry, e: GarbageEntry)
  {
    && x.schema == e.schema && x.obj.owner == e.obj.owner && x.obj.bucketId == e.obj.bucketId
    && x.obj.name == e.obj.name && x.obj.id == e.obj.id
  }

  function RemoveMatching(recs: set<GarbageEntry>, e: GarbageEntry): (r: set<GarbageEntry>)
    ensures forall x :: x in r <==> x in recs && !Matches(x, e)
  {
    set x | x in recs && !Matches(x, e)
  }

  /** `delete_garbage_sql`: the delete statement for one schema's deleted-object table. */
  function DeleteGarbageSql(schema: string): (s: string)
    ensures IsPrefix("DELETE FROM " + schema + ".manta_bucket_deleted_object", s)
  {
    var table := "DELETE FROM " + schema + ".manta_bucket_deleted_object";
    var s := table + " WHERE owner = $1 AND bucket_id = $2 AND name = $3 AND id = $4";
    assert s[..|table|] == table;
    s
  }

  /** A statement sent to the database, with its parameters. */
  datatype Sent = Sent(sql: string, params: seq<string>)

  const BeginSent := Sent("BEGIN", [])
  const CommitSent := Sent("COMMIT", [])

  /** The delete sent for a batch entry: its own schema, and its owner, bucket, name and id. */
  function DeleteSent(e: GarbageEntry): Sent
  {
    Sent(DeleteGarbageSql(e.schema), [e.obj.owner, e.obj.bucketId, e.obj.name, e.obj.id])
  }

  /**
   * How each database step of a batch delete goes: an error text for the
   * steps that fail. `deletes` maps the position of a batch entry to the
   * error of its delete statement.
   */
  datatype DeleteFaults = DeleteFaults(
    begin: Option<string>, read: Option<string>, deletes: map<nat, string>,
    refresh: Option<string>, rotate: Option<string>, commit: Option<string>)

  /** The loop's `last_result`: the result of the last delete, or success for an empty batch. */
  function LastDelete(n: nat, deletes: map<nat, string>): (r: Option<string>)
    ensures r.Some? <==> n > 0 && n - 1 in deletes
  {
    if n > 0 && n - 1 in deletes then Some(deletes[n - 1]) else None
  }

  /** The deleted-object rows left after the successful deletes of `batch`. */
  function Remaining(recs: set<GarbageEntry>, batch: seq<GarbageEntry>, deletes: map<nat, string>)
    : set<GarbageEntry>
  {
    if batch == [] then recs
    else
      var rest := Remaining(recs, batch[..|batch| - 1], deletes);
      if |batch| - 1 in deletes then rest else RemoveMatching(rest, batch[|batch| - 1])
  }

  /** The deletes sent for a batch, one per entry, in batch order. */
  function DeletesSent(batch: seq<GarbageEntry>): (r: seq<Sent>)
    ensures |r| == |batch| && forall i :: 0 <= i < |batch| ==> r[i] == DeleteSent(batch[i])
  {
    if batch == [] then [] else DeletesSent(batch[..|batch| - 1]) + [DeleteSent(batch[|batch| - 1])]
  }

  /** The statements after the per-record deletes, each sent only when the one before succeeded. */
  function FinishTrace(f: DeleteFaults, newId: Uuid): seq<Sent>
  {
    if f.refresh.Some? then [RefreshSent]
    else if f.rotate.Some? then [RefreshSent, RotateSent(newId)]
    else [RefreshSent, RotateSent(newId), CommitSent]
  }

  const ReadBatchSent := Sent(GarbageBatchSql, [])
  const RefreshSent := Sent(RefreshGarbageViewSql, [])

  function RotateSent(newId: Uuid): Sent
  {
    Sent(UpdateGarbageBatchIdSql, [newId])
  }

  /** The statements of a batch delete, each sent only when every earlier step succeeded. */
  function DeleteTrace(f: DeleteFaults, batch: seq<GarbageEntry>, newId: Uuid): seq<Sent>
  {
    if f.begin.Some? then [BeginSent]
    else if f.read.Some? then [BeginSent, ReadBatchSent]
    else if LastDelete(|batch|, f.deletes).Some? then [BeginSent, ReadBatchSent] + DeletesSent(batch)
    else [BeginSent, ReadBatchSent] + DeletesSent(batch) + FinishTrace(f, newId)
  }

  /** The error of a batch delete: the first failing step's, or none. */
  function DeleteError(f: DeleteFaults, n: nat): Option<string>
  {
    if f.begin.Some? then f.begin
    else if f.read.Some? then f.read
    else if LastDelete(n, f.deletes).Some? then LastDelete(n, f.deletes)
    else if f.refresh.Some? then f.refresh
    else if f.rotate.Some? then f.rotate
    else f.commit
  }

  /**
   * The garbage state of one database: the deleted-object rows of every
   * schema, the materialized view as last refreshed, and the singleton
   * batch id.
   */
  class GarbageDb {
    var records: set<GarbageEntry>
    var view: seq<GarbageEntry>
    var batchId: Uuid

    constructor(id: Uuid)
      ensures records == {} && view == [] && batchId == id
    {
      records := {};
      view := [];
      batchId := id;
    }

    /**
     * `gc::delete::do_delete`: in one transaction, read the batch, delete
     * each of its rows, refresh the view and store `newId` as the batch
     * id. `refresh` is the view's definition over the deleted-object rows.
     * Any error rolls everything back.
     */
    method DeleteBatch(f: DeleteFaults, newId: Uuid, refresh: set<GarbageEntry> -> seq<GarbageEntry>)
      returns (r: Result<(), string>, sent: seq<Sent>)
      modifies this
      ensures r.Err? <==> DeleteError(f, |old(view)|).Some?
      ensures r.Err? ==> r.error == DeleteError(f, |old(view)|).value
      ensures sent == DeleteTrace(f, old(view), newId)
      ensures r.Err? ==> records == old(records) && view == old(view) && batchId == old(batchId)
      ensures r.Ok? ==>
        && records == Remaining(old(records), old(view), f.deletes)
        && view == refresh(records) && batchId == newId
    {
      var err, pending, sent' := DeleteTransaction(f, view, records, newId);
      sent := sent';
      if err.Some? {
        return Err(err.value), sent;
      }
      records := pending;
      view := refresh(pending);
      batchId := newId;
      r := Ok(());
    }

    /**
     * boray's `do_get`: read the view; when it is empty, refresh it and
     * read it once more. The refresh is not in a transaction, so it stays
     * even when the second read fails. The garbage is shaped by
     * `BatchResponse`.
     */
    method GetBatch(first: Option<string>, refreshFault: Option<string>, second: Option<string>,
                    freshId: Uuid, refresh: set<GarbageEntry> -> seq<GarbageEntry>)
      returns (r: Result<GarbageBatch, string>, sent: seq<Sent>)
      modifies this
      ensures records == old(records) && batchId == old(batchId)
      ensures first.Some? ==> r == Err(first.value) && sent == [Sent(GarbageBatchSql, [])] && view == old(view)
      ensures first.None? && old(view) != [] ==>
        r == Ok(BatchResponse(old(view), freshId)) && sent == [Sent(GarbageBatchSql, [])] && view == old(view)
      ensures first.None? && old(view) == [] ==>
        && (refreshFault.Some? ==>
              r == Err(refreshFault.value) && sent == [Sent(GarbageBatchSql, []), Sent(RefreshGarbageViewSql, [])] && view == old(view))
        && (refreshFault.None? ==>
              && sent == [Sent(GarbageBatchSql, []), Sent(RefreshGarbageViewSql, []), Sent(GarbageBatchSql, [])]
              && view == refresh(records)
              && r == (if second.Some? then Err(second.value) else Ok(BatchResponse(view, freshId))))
    {
      sent := [Sent(GarbageBatchSql, [])];
      if first.Some? {
        return Err(first.value), sent;
      }
      var rows := view;
      if rows == [] {
        sent := sent + [Sent(RefreshGarbageViewSql, [])];
        if refreshFault.Some? {
          return Err(refreshFault.value), sent;
        }
        view := refresh(records);
        sent := sent + [Sent(GarbageBatchSql, [])];
        if second.Some? {
          return Err(second.value), sent;
        }
        rows := view;
      }
      var garbage := CollectGarbage(rows);
      assert garbage == Objects(rows);
      r := Ok(GarbageBatch(BatchId(rows, freshId), garbage));
    }
  }

  /**
   * The statements of `do_delete`'s transaction, stopping at the first
   * failure: begin, read the batch, the deletes, then `Finish`. `pending`
   * is what the deleted-object rows become if the transaction commits.
   */
  method DeleteTransaction(f: DeleteFaults, batch: seq<GarbageEntry>, recs: set<GarbageEntry>, newId: Uuid)
    returns (err: Option<string>, pending: set<GarbageEntry>, sent: seq<Sent>)
    ensures err == DeleteError(f, |batch|)
    ensures sent == DeleteTrace(f, batch, newId)
    ensures err.None? ==> pending == Remaining(recs, batch, f.deletes)
  {
    pending := recs;
    if f.begin.Some? {
      return f.begin, pending, [BeginSent];
    }
    if f.read.Some? {
      return f.read, pending, [BeginSent, ReadBatchSent];
    }
    var last, deletes;
    pending, last, deletes := DeleteRows(batch, recs, f.deletes);
    sent := [BeginSent, ReadBatchSent] + deletes;
    if last.Some? {
      return last, pending, sent;
    }
    var finish;
    finish, err := Finish(f, newId);
    sent := sent + finish;
  }

  /**
   * The per-record loop of `do_delete`: one delete per batch entry, in
   * order, each removing the rows it matches unless it fails; only the last
   * delete's result is kept.
   */
  method DeleteRows(batch: seq<GarbageEntry>, recs: set<GarbageEntry>, deletes: map<nat, string>)
    returns (pending: set<GarbageEntry>, last: Option<string>, sent: seq<Sent>)
    ensures pending == Remaining(recs, batch, deletes)
    ensures last == LastDelete(|batch|, deletes)
    ensures sent == DeletesSent(batch)
  {
    pending := recs;
    last := None;
    sent := [];
    var i := 0;
    while i < |batch|
      invariant 0 <= i <= |batch|
      invariant pending == Remaining(recs, batch[..i], deletes)
      invariant last == LastDelete(i, deletes)
      invariant sent == DeletesSent(batch[..i])
    {
      DeleteStep(recs, batch, i, deletes);
      sent := sent + [DeleteSent(batch[i])];
      if i in deletes {
        last := Some(deletes[i]);
      } else {
        pending := RemoveMatching(pending, batch[i]);
        last := None;
      }
      i := i + 1;
    }
    assert batch[..i] == batch;
  }

  /** One more entry of the batch: its delete is sent, and removes its rows unless it fails. */
  lemma DeleteStep(recs: set<GarbageEntry>, batch: seq<GarbageEntry>, i: nat, deletes: map<nat, string>)
    requires i < |batch|
    ensures DeletesSent(batch[..i + 1]) == DeletesSent(batch[..i]) + [DeleteSent(batch[i])]
    ensures Remaining(recs, batch[..i + 1], deletes) ==
      if i in deletes then Remaining(recs, batch[..i], deletes) else RemoveMatching(Remaining(recs, batch[..i], deletes), batch[i])
  {
    var next := batch[..i + 1];
    assert next[..|next| - 1] == batch[..i] && next[|next| - 1] == batch[i];
  }

  /** The refresh, the batch-id update and the commit, stopping at the first failure. */
  method Finish(f: DeleteFaults, newId: Uuid) returns (sent: seq<Sent>, err: Option<string>)
    ensures sent == FinishTrace(f, newId)
    ensures err == (if f.refresh.Some? then f.refresh else if f.rotate.Some? then f.rotate else f.commit)
  {
    if f.refresh.Some? {
      return [RefreshSent], f.refresh;
    }
    if f.rotate.Some? {
      return [RefreshSent, RotateSent(newId)], f.rotate;
    }
    sent, err := [RefreshSent, RotateSent(newId), CommitSent], f.commit;
  }

  /** A batch as sent to the collector: its id, if any, and the objects in it. */
  datatype GarbageBatch = GarbageBatch(batchId: Option<Uuid>, garbage: seq<ObjectRecord>)

  /** The `response` loop: one object per row, in row order. */
  method CollectGarbage(rows: seq<GarbageEntry>) returns (garbage: seq<ObjectRecord>)
    ensures |garbage| == |rows|
    ensures forall i :: 0 <= i < |rows| ==> garbage[i] == rows[i].obj
  {
    garbage := [];
    for i := 0 to |rows|
      invariant |garbage| == i
      invariant forall j :: 0 <= j < i ==> garbage[j] == rows[j].obj
    {
      garbage := garbage + [rows[i].obj];
    }
  }

  /** The objects of a batch, one per row in row order; the specification of `CollectGarbage`. */
  function Objects(rows: seq<GarbageEntry>): (r: seq<ObjectRecord>)
    ensures |r| == |rows| && forall i :: 0 <= i < |rows| ==> r[i] == rows[i].obj
  {
    if rows == [] then [] else Objects(rows[..|rows| - 1]) + [rows[|rows| - 1].obj]
  }

  /** The batch id boray's `response` attaches, as written: a fresh id only for an empty batch. */
  function BorayBatchId(rows: seq<GarbageEntry>, freshId: Uuid): (r: Option<Uuid>)
    ensures r.Some? <==> rows == []
  {
    if rows == [] then Some(freshId) else None
  }

  /** The batch id as the protocol uses it: a fresh id exactly for a batch that holds garbage. */
  function BatchId(rows: seq<GarbageEntry>, freshId: Uuid): (r: Option<Uuid>)
    ensures r.Some? <==> rows != []
    ensures r.Some? ==> r.value == freshId
  {
    if rows == [] then None else Some(freshId)
  }

  function BatchResponse(rows: seq<GarbageEntry>, freshId: Uuid): (b: GarbageBatch)
    ensures b.garbage == Objects(rows)
    ensures b.batchId.Some? <==> b.garbage != []
  {
    GarbageBatch(BatchId(rows, freshId), Objects(rows))
  }

  /**
   * As written, a batch that holds garbage carries no id the collector
   * could hand back, and an empty one carries an id: the opposite of the
   * intended `BatchId`.
   */
  lemma BorayBatchIdInverted(e: GarbageEntry, freshId: Uuid)
    ensures BorayBatchId([e], freshId) == None && BatchId([e], freshId) == Some(freshId)
    ensures BorayBatchId([], freshId) == Some(freshId) && BatchId([], freshId) == None
    ensures forall rows :: BorayBatchId(rows, freshId).Some? <==> BatchId(rows, freshId).None?
  {
  }

  /** The reply to a batch request: the batch, or a hand-written PostgresError. */
  function GetBatchReply(rpc: string, r: Result<GarbageBatch, string>): (m: FastMessage)
    ensures m.Data? && m.rpc == rpc && |m.values| == 1
    ensures r.Ok? <==> m.values[0].GarbageJson?
    ensures r.Ok? ==> m.values[0] == GarbageJson(r.value.batchId, r.value.garbage)
    ensures r.Err? ==> m.values[0] == Handlers.NamedPostgresError(r.error)
  {
    match r
    case Ok(b) => Data(rpc, ArrayWrap(GarbageJson(b.batchId, b.garbage)))
    case Err(e) => Data(rpc, ArrayWrap(Handlers.NamedPostgresError(e)))
  }

  /** The reply to a batch delete: the text "ok", or a PostgresError value. */
  function DeleteBatchReply(rpc: string, r: Result<(), string>): (m: FastMessage)
    ensures m.Data? && m.rpc == rpc && |m.values| == 1
    ensures r.Ok? <==> m.values[0] == TextJson("ok")
    ensures r.Err? ==> m.values[0] == Handlers.PostgresErrorJson(r.error)
  {
    match r
    case Ok(_) => Data(rpc, ArrayWrap(TextJson("ok")))
    case Err(e) => Data(rpc, ArrayWrap(Handlers.PostgresErrorJson(e)))
  }

  // ---- properties of the batch delete ----

  /** A batch delete never adds deleted-object rows. */
  lemma {:induction false} RemainingShrinks(recs: set<GarbageEntry>, batch: seq<GarbageEntry>, deletes: map<nat, string>)
    ensures Remaining(recs, batch, deletes) <= recs
  {
    if batch != [] {
      RemainingShrinks(recs, batch[..|batch| - 1], deletes);
    }
  }

  /**
   * When every delete succeeds, no row of any batch entry's object is left,
   * and every row that matches no batch entry is kept.
   */
  lemma {:induction false} RemainingWithoutErrors(recs: set<GarbageEntry>, batch: seq<GarbageEntry>, x: GarbageEntry)
    ensures x in Remaining(recs, batch, map[]) <==>
      x in recs && forall i :: 0 <= i < |batch| ==> !Matches(x, batch[i])
  {
    if batch != [] {
      var init := batch[..|batch| - 1];
      RemainingWithoutErrors(recs, init, x);
      assert forall i :: 0 <= i < |init| ==> init[i] == batch[i];
    }
  }

  /**
   * An empty batch sends no delete, but the view is still refreshed and
   * the batch id still rotated.
   */
  lemma EmptyBatchRotates(f: DeleteFaults, newId: Uuid)
    requires f.begin.None? && f.read.None? && f.refresh.None? && f.rotate.None?
    ensures DeleteError(f, 0) == f.commit
    ensures DeleteTrace(f, [], newId) ==
      [BeginSent, Sent(GarbageBatchSql, []), Sent(RefreshGarbageViewSql, []), Sent(UpdateGarbageBatchIdSql, [newId]), CommitSent]
  {
  }

  /**
   * Only the last delete's result is kept. Against a database that went on
   * running statements after a failed one, a failed delete before a
   * successful one would let the batch commit with the failed entry's row
   * still there. Postgres is not such a database: see
   * `FailedDeleteNeverCommits`.
   */
  lemma MaskedDeleteFailure(a: GarbageEntry, b: GarbageEntry, recs: set<GarbageEntry>)
    requires a in recs && !Matches(a, b)
    ensures !AbortsAfterFailure(DeleteFaults(None, None, map[0 := "error"], None, None, None), 2)
    ensures DeleteError(DeleteFaults(None, None, map[0 := "error"], None, None, None), 2).None?
    ensures a in Remaining(recs, [a, b], map[0 := "error"])
  {
    var batch := [a, b];
    assert batch[..1] == [a];
    assert [a][..0] == [];
    assert Remaining(recs, [a], map[0 := "error"]) == recs;
    assert 0 in map[0 := "error"] && 1 !in map[0 := "error"];
  }

  /**
   * Postgres aborts a transaction at its first failed statement: every
   * later statement of the transaction fails too, so once a delete of the
   * batch has failed, so have all the deletes after it.
   */
  predicate AbortsAfterFailure(f: DeleteFaults, n: nat)
  {
    forall i, j :: 0 <= i < j < n && i in f.deletes ==> j in f.deletes
  }

  /**
   * Under that rule the masking cannot happen: a batch in which any delete
   * failed reports an error, and so is never committed.
   */
  lemma FailedDeleteNeverCommits(f: DeleteFaults, n: nat, i: nat)
    requires AbortsAfterFailure(f, n)
    requires i < n && i in f.deletes
    ensures DeleteError(f, n).Some?
    ensures f.begin.None? && f.read.None? ==> DeleteError(f, n) == Some(f.deletes[n - 1])
  {
    if i < n - 1 {
      assert n - 1 in f.deletes;
    }
  }

  // ---- the oldest server ----

  /** The most deleted objects the oldest server's batch query asks for. */
  const LegacyBatchLimit := 1024

  /** `get_sql` of the oldest server: the database function asked for at most `LegacyBatchLimit` rows. */
  function LegacyGarbageSql(): string
  {
    "SELECT * FROM list_all_deleted_objects(" + NatToString(LegacyBatchLimit) + ")"
  }

  /** The statement the oldest server sends, written out. */
  lemma LegacyGarbageSqlText()
    ensures LegacyGarbageSql() == "SELECT * FROM list_all_deleted_objects(1024)"
  {
    assert NatToString(1024) == NatToString(102) + [DigitChar(4)];
    assert NatToString(102) == NatToString(10) + [DigitChar(2)];
    assert NatToString(10) == NatToString(1) + [DigitChar(0)];
  }

  /**
   * The oldest server's batch request: the rows the query returned, each
   * as an object in row order, under a fresh batch id whether or not there
   * are rows.
   */
  method LegacyGetBatch(query: Result<seq<ObjectRecord>, string>, freshId: Uuid)
    returns (r: Result<GarbageBatch, string>)
    ensures query.Err? ==> r == Err(query.error)
    ensures query.Ok? ==> r.Ok? && r.value.batchId == Some(freshId) && r.value.garbage == query.value
  {
    if query.Err? {
      return Err(query.error);
    }
    var rows := query.value;
    var garbage := [];
    for i := 0 to |rows|
      invariant garbage == rows[..i]
    {
      garbage := garbage + [rows[i]];
    }
    assert rows[..|rows|] == rows;
    r := Ok(GarbageBatch(Some(freshId), garbage));
  }
}
