/**
 * The replies the servers send over the Fast protocol: every reply is a
 * message naming the RPC method and carrying JSON values. The JSON shapes the
 * handlers produce are modelled as one datatype; the message id that every
 * reply copies from its request is left implicit.
 */
module Fast {

  import opened Wrappers
  import opened Errors
  import opened Rows

  datatype Json =
    | ObjectJson(obj: ObjectRecord)
    | BucketJson(bucket: BucketRecord)
    | DeletedJson(deleted: seq<DeletedObject>)
    /** `{"error": {"name": .., "message": ..}}`, the serialized error types. */
    | ErrorJson(err: ErrorValue)
    /** `{"name": .., "message": ..}`, written out by hand in several handlers. */
    | NamedErrorJson(name: string, message: string)
    | CountJson(count: nat)
    | TextJson(text: string)
    | GarbageJson(batchId: Option<Uuid>, garbage: seq<ObjectRecord>)
    | NullJson
    /** A JSON array, as some error messages carry their value wrapped. */
    | ArrayJson(items: seq<Json>)

  /** A data message carries an array of values; an error message one value (itself maybe an array). */
  datatype FastMessage =
    | Data(rpc: string, values: seq<Json>)
    | ErrorMessage(rpc: string, value: Json)

  /** How a handler of the oldest server ends: its reply, an I/O error, or a panic. */
  datatype LegacyOutcome = Replied(msgs: seq<FastMessage>) | Failed(error: string) | Panicked

  /** `array_wrap`: a value as the one element of an array. */
  function ArrayWrap(v: Json): (r: seq<Json>)
    ensures |r| == 1 && r[0] == v
  {
    [v]
  }
}
