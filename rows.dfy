/**
 * The records a vnode schema stores, the rows its queries return, and the
 * validation that turns a query's rows into at most one record (`response`).
 * Identifiers (UUIDs) are modelled by their textual form and timestamps by
 * an integer count on a common clock, which is all the code compares.
 */
module Rows {

  import opened Wrappers
  import opened Text
  import opened Errors

  type Uuid = string
  type Timestamp = int

  /** A Postgres hstore: text keys to nullable text values. */
  type Hstore = map<string, Option<string>>

  /** Where one copy of an object's data lives. */
  datatype StorageNodeIdentifier = StorageNodeIdentifier(datacenter: string, mantaStorageId: string)

  /** The compact text form stored in the `sharks` text array. */
  function SharkToString(s: StorageNodeIdentifier): (r: string)
    ensures |r| == |s.datacenter| + 1 + |s.mantaStorageId|
    ensures r[|s.datacenter|] == ':'
  {
    s.datacenter + ":" + s.mantaStorageId
  }

  /**
   * `From<String>`: the text before the first ':' and the text between the
   * first and second ':'. Indexing the second piece panics when there is no
   * ':' at all; that panic is the `Err` here.
   */
  function SharkFromString(s: string): (r: Result<StorageNodeIdentifier, string>)
    ensures r.Err? <==> ':' !in s
    ensures r.Ok? ==> ':' !in r.value.datacenter && ':' !in r.value.mantaStorageId
  {
    var v := Split(s, ':');
    if |v| < 2 then
      assert ':' !in s by { SplitNoColonOnly(s); }
      Err("index out of bounds: the len is 1 but the index is 1")
    else
      assert ':' in s by {
        if ':' !in s { SplitNoSeparator(s, ':'); }
      }
      Ok(StorageNodeIdentifier(v[0], v[1]))
  }

  /** A split with a single piece means the separator never occurred. */
  lemma SplitNoColonOnly(s: string)
    requires |Split(s, ':')| < 2
    ensures ':' !in s
  {
    JoinSplit(s, ':');
  }

  /** Reading a shark back gives the same shark when neither field has a ':'. */
  lemma SharkRoundTrip(s: StorageNodeIdentifier)
    requires ':' !in s.datacenter && ':' !in s.mantaStorageId
    ensures SharkFromString(SharkToString(s)) == Ok(s)
  {
    SplitAtFirst(s.datacenter, ':', s.mantaStorageId);
    SplitNoSeparator(s.mantaStorageId, ':');
    assert SharkToString(s) == s.datacenter + [':'] + s.mantaStorageId;
  }

  /** A ':' inside the datacenter is not preserved by the text form. */
  lemma SharkColonLost()
    ensures SharkFromString(SharkToString(StorageNodeIdentifier("us:east", "1")))
         == Ok(StorageNodeIdentifier("us", "east"))
  {
    assert SharkToString(StorageNodeIdentifier("us:east", "1")) == "us" + [':'] + ("east" + [':'] + "1");
    ThreePieces("us", "east", "1");
  }

  /** Text with two ':' in it is read as its first two pieces; the rest is dropped. */
  lemma ThreePieces(a: string, b: string, c: string)
    requires ':' !in a && ':' !in b && ':' !in c
    ensures SharkFromString(a + [':'] + (b + [':'] + c)) == Ok(StorageNodeIdentifier(a, b))
  {
    SplitAtFirst(a, ':', b + [':'] + c);
    SplitAtFirst(b, ':', c);
    SplitNoSeparator(c, ':');
    assert Split(a + [':'] + (b + [':'] + c), ':') == [a, b, c];
  }

  /**
   * A row of `manta_bucket_object` (and of `manta_bucket_deleted_object`).
   * The schema does not forbid a NULL `content_length`.
   */
  datatype ObjectRecord = ObjectRecord(
    id: Uuid,
    owner: Uuid,
    bucketId: Uuid,
    name: string,
    created: Timestamp,
    modified: Timestamp,
    contentLength: Option<int>,
    contentMd5: seq<bv8>,
    contentType: string,
    headers: Hstore,
    sharks: seq<StorageNodeIdentifier>,
    properties: Option<string>)

  /** One entry of an object delete's reply: the removed row's identity, size and copy count. */
  datatype DeletedObject = DeletedObject(
    id: Uuid, owner: Uuid, bucketId: Uuid, name: string, contentLength: int, sharkCount: int)

  /** A row of `manta_bucket` (and of `manta_bucket_deleted_bucket`). */
  datatype BucketRecord = BucketRecord(id: Uuid, owner: Uuid, name: string, created: Timestamp)

  /** The unique key of `manta_bucket_object`: (owner, bucket_id, name). */
  datatype ObjectKey = ObjectKey(owner: Uuid, bucketId: Uuid, name: string)

  /** The unique key of `manta_bucket`: (owner, name). */
  datatype BucketKey = BucketKey(owner: Uuid, name: string)

  /** What a query hands back for one row: its width and the values in it. */
  datatype Row<T> = Row(width: nat, values: T)

  /** The number of columns an object record has. */
  const ObjectColumns: nat := 12

  /** The number of columns a bucket record has. */
  const BucketColumns: nat := 4

  function TooFewColumns(rpc: string, cols: nat, expected: string): string
  {
    rpc + " query returned a row with only " + NatToString(cols) + " columns, but " + expected + " were expected."
  }

  function TooManyRows(rpc: string, n: nat): string
  {
    rpc + " query found " + NatToString(n) + " results, but expected only 1."
  }

  /**
   * `response` for objects: no row is "absent", one full-width row is the
   * object, anything else is a PostgresError naming the rpc and the count.
   */
  function ObjectResponse(rpc: string, rows: seq<Row<ObjectRecord>>): (r: Result<Option<ObjectRecord>, ErrorValue>)
    ensures r == Ok(None) <==> |rows| == 0
    ensures r.Ok? && r.value.Some? <==> |rows| == 1 && rows[0].width >= ObjectColumns
    ensures r.Ok? && r.value.Some? ==> r.value.value == rows[0].values
    ensures r.Err? ==> ParseName(r.error.name) == Some(PostgresError)
    ensures r.Err? && |rows| == 1 ==> r.error.message == TooFewColumns(rpc, rows[0].width, "12")
    ensures r.Err? && |rows| != 1 ==> r.error.message == TooManyRows(rpc, |rows|)
  {
    if |rows| == 0 then Ok(None)
    else if |rows| == 1 then
      if rows[0].width >= ObjectColumns then Ok(Some(rows[0].values))
      else Err(WithMessage(PostgresError, TooFewColumns(rpc, rows[0].width, "12")))
    else Err(WithMessage(PostgresError, TooManyRows(rpc, |rows|)))
  }

  /** Whether the content_length column of an object row can be read as an `i64`: it is not NULL. */
  predicate LengthPresent(o: ObjectRecord)
  {
    o.contentLength.Some?
  }

  /**
   * `response` for objects as it meets a row: the content_length column is
   * read into an `i64`, which makes the process panic (`None`) on a NULL;
   * on every other input the result is `ObjectResponse`, and a record it
   * returns always has its length.
   */
  function ObjectRead(rpc: string, rows: seq<Row<ObjectRecord>>): (r: Option<Result<Option<ObjectRecord>, ErrorValue>>)
    ensures r.None? <==> |rows| == 1 && rows[0].width >= ObjectColumns && !LengthPresent(rows[0].values)
    ensures r.Some? ==> r.value == ObjectResponse(rpc, rows)
    ensures r.Some? && r.value.Ok? && r.value.value.Some? ==> LengthPresent(r.value.value.value)
  {
    var checked := ObjectResponse(rpc, rows);
    if checked.Ok? && checked.value.Some? && !LengthPresent(checked.value.value) then None
    else Some(checked)
  }

  /** `response` for buckets: the same validation with four columns and a plain text error. */
  function BucketResponse(rpc: string, rows: seq<Row<BucketRecord>>): (r: Result<Option<BucketRecord>, string>)
    ensures r == Ok(None) <==> |rows| == 0
    ensures r.Ok? && r.value.Some? <==> |rows| == 1 && rows[0].width >= BucketColumns
    ensures r.Ok? && r.value.Some? ==> r.value.value == rows[0].values
    ensures r.Err? && |rows| == 1 ==> r.error == rpc + " query returned a row with only " + NatToString(rows[0].width) + " columns, but 4 were expected ."
    ensures r.Err? && |rows| != 1 ==> r.error == TooManyRows(rpc, |rows|)
  {
    if |rows| == 0 then Ok(None)
    else if |rows| == 1 then
      if rows[0].width >= BucketColumns then Ok(Some(rows[0].values))
      else Err(rpc + " query returned a row with only " + NatToString(rows[0].width) + " columns, but 4 were expected .")
    else Err(TooManyRows(rpc, |rows|))
  }

  /**
   * The oldest server's `response`: no width check, and the error text
   * always says "Get".
   */
  function LegacyResponse<T>(rows: seq<T>): (r: Result<Option<T>, string>)
    ensures r == Ok(None) <==> |rows| == 0
    ensures r.Ok? && r.value.Some? <==> |rows| == 1
    ensures r.Ok? && r.value.Some? ==> r.value.value == rows[0]
    ensures r.Err? ==> r.error == "Get query found " + NatToString(|rows|) + " results, but expected only 1."
  {
    if |rows| == 0 then Ok(None)
    else if |rows| == 1 then Ok(Some(rows[0]))
    else Err("Get query found " + NatToString(|rows|) + " results, but expected only 1.")
  }

  /**
   * The oldest server's `response` as it meets a query's rows: it reads the
   * single row's columns one by one without checking the width first, so a
   * row narrower than `columns`, or one whose values do not convert
   * (`readable`), makes the process panic (`None`); otherwise the result is
   * `LegacyResponse` of the row values.
   */
  function LegacyRowResponse<T>(rows: seq<Row<T>>, columns: nat, readable: T -> bool): (r: Option<Result<Option<T>, string>>)
    ensures r.None? <==> |rows| == 1 && (rows[0].width < columns || !readable(rows[0].values))
    ensures r == Some(Ok(None)) <==> |rows| == 0
    ensures r.Some? && r.value.Ok? && r.value.value.Some? ==>
      |rows| == 1 && r.value.value.value == rows[0].values && readable(rows[0].values)
    ensures r.Some? && r.value.Err? ==> 1 < |rows|
  {
    if |rows| == 1 && (rows[0].width < columns || !readable(rows[0].values)) then None
    else Some(LegacyResponse(RowValues(rows)))
  }

  function RowValues<T>(rows: seq<Row<T>>): (vs: seq<T>)
    ensures |vs| == |rows|
    ensures forall i :: 0 <= i < |rows| ==> vs[i] == rows[i].values
  {
    if rows == [] then [] else [rows[0].values] + RowValues(rows[1..])
  }

  /**
   * Both servers panic on a single full-width row whose content_length is
   * NULL. The oldest server also panics on a narrow row, which
   * `ObjectResponse` rejects with an error. On every other input the two
   * agree on whether the query found the object, and on the object.
   */
  lemma LegacyPanicsWhereCheckedRejects(rpc: string, rows: seq<Row<ObjectRecord>>)
    ensures LegacyRowResponse(rows, ObjectColumns, LengthPresent).None? <==>
      |rows| == 1 && (ObjectResponse(rpc, rows).Err? || ObjectRead(rpc, rows).None?)
    ensures ObjectRead(rpc, rows).None? ==> LegacyRowResponse(rows, ObjectColumns, LengthPresent).None?
    ensures LegacyRowResponse(rows, ObjectColumns, LengthPresent).Some? ==>
      (LegacyRowResponse(rows, ObjectColumns, LengthPresent).value.Ok? <==> ObjectResponse(rpc, rows).Ok?)
    ensures ObjectRead(rpc, rows).Some? && ObjectResponse(rpc, rows).Ok? ==>
      LegacyRowResponse(rows, ObjectColumns, LengthPresent) == Some(Ok(ObjectResponse(rpc, rows).value))
  {
  }

  /** Both multi-row messages report how many rows came back. */
  lemma {:induction false} TooManyRowsNamesCount(rpc: string, n: nat, m: nat)
    requires TooManyRows(rpc, n) == TooManyRows(rpc, m)
    ensures n == m
  {
    var tail := " results, but expected only 1.";
    assert TooManyRows(rpc, n) == (rpc + " query found ") + NatToString(n) + tail;
    assert TooManyRows(rpc, m) == (rpc + " query found ") + NatToString(m) + tail;
    DigitsDetermineNumber(rpc + " query found ", n, m, tail, tail);
  }

  /**
   * A decimal rendering between a fixed head and a text that starts with a
   * non-digit can be read back unambiguously.
   */
  lemma {:induction false} DigitsDetermineNumber(head: string, n: nat, m: nat, r1: string, r2: string)
    requires head + NatToString(n) + r1 == head + NatToString(m) + r2
    requires r1 != [] && !('0' <= r1[0] <= '9')
    requires r2 != [] && !('0' <= r2[0] <= '9')
    ensures n == m
  {
    var a := NatToString(n);
    var b := NatToString(m);
    assert a + r1 == (head + a + r1)[|head|..];
    assert b + r2 == (head + b + r2)[|head|..];
    if |a| < |b| {
      DigitAtBoundary(a, r1, b, r2);
      assert false;
    } else if |b| < |a| {
      DigitAtBoundary(b, r2, a, r1);
      assert false;
    } else {
      assert a == (a + r1)[..|a|];
      assert b == (b + r2)[..|b|];
      NatToStringInjective(n, m);
    }
  }

  /** When a shorter digit string is a prefix, the text after it starts with a digit. */
  lemma DigitAtBoundary(a: string, r1: string, b: string, r2: string)
    requires a + r1 == b + r2 && |a| < |b| && r1 != []
    requires forall i :: 0 <= i < |b| ==> '0' <= b[i] <= '9'
    ensures '0' <= r1[0] <= '9'
  {
    assert (a + r1)[|a|] == r1[0];
    assert (b + r2)[|a|] == b[|a|];
  }

  const SchemaPrefix := "manta_bucket_"

  /** The name of a vnode's schema: `manta_bucket_` and the vnode number. */
  function SchemaName(vnode: nat): string
  {
    SchemaPrefix + NatToString(vnode)
  }

  const ObjectColumnList := "id, owner, bucket_id, name, created, modified, content_length, content_md5, content_type, headers, sharks, properties"

  /** The object table of a schema, restricted to the row with the request's key. */
  const ObjectTableByKey := "." + "manta_bucket_object WHERE owner = $1 AND bucket_id = $2 AND name = $3"

  lemma TableByKeyStartsWithDot()
    ensures ObjectTableByKey != [] && ObjectTableByKey[0] == '.'
  {
  }

  const DeletedObjectTable := ".manta_bucket_deleted_object"

  /** The select `get_sql` issues; the schema it reads is the vnode's own. */
  function GetObjectSql(vnode: nat): string
  {
    "SELECT " + ObjectColumnList + " FROM " + SchemaName(vnode) + ObjectTableByKey
  }

  /** The copy `insert_delete_table_sql` issues, within one vnode's schema. */
  function InsertDeleteTableSql(vnode: nat): string
  {
    "INSERT INTO " + SchemaName(vnode) + CopyFromObjectTable(vnode)
  }

  function CopyFromObjectTable(vnode: nat): (r: string)
    ensures r != [] && r[0] == '.'
  {
    assert DeletedObjectTable[0] == '.';
    DeletedObjectTable + " ( " + ObjectColumnList + ") SELECT " + ObjectColumnList + " FROM " + SchemaName(vnode) + ObjectTableByKey
  }

  /** Statements for different vnodes never address the same schema. */
  lemma {:induction false} GetObjectSqlAddressesVnode(a: nat, b: nat)
    requires GetObjectSql(a) == GetObjectSql(b)
    ensures a == b
  {
    var head := "SELECT " + ObjectColumnList + " FROM " + SchemaPrefix;
    assert GetObjectSql(a) == head + NatToString(a) + ObjectTableByKey;
    assert GetObjectSql(b) == head + NatToString(b) + ObjectTableByKey;
    TableByKeyStartsWithDot();
    DigitsDetermineNumber(head, a, b, ObjectTableByKey, ObjectTableByKey);
  }

  /** The copy into the deleted table also addresses exactly one vnode. */
  lemma {:induction false} InsertDeleteTableSqlAddressesVnode(a: nat, b: nat)
    requires InsertDeleteTableSql(a) == InsertDeleteTableSql(b)
    ensures a == b
  {
    var head := "INSERT INTO " + SchemaPrefix;
    assert InsertDeleteTableSql(a) == head + NatToString(a) + CopyFromObjectTable(a);
    assert InsertDeleteTableSql(b) == head + NatToString(b) + CopyFromObjectTable(b);
    DigitsDetermineNumber(head, a, b, CopyFromObjectTable(a), CopyFromObjectTable(b));
  }
}
