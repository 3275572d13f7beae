/**
 * The error taxonomy. The three crates each declare an error enum: the
 * buckets-mdapi one has seven kinds, the boray one the first five of them and
 * the oldest server the first three, with the same names and canned messages.
 * The kinds are modelled once, and each crate's enum is the subset type of the
 * kinds it declares.
 */
module Errors {

  import opened Wrappers

  datatype ErrorType =
    | BucketAlreadyExists
    | BucketNotFound
    | ObjectNotFound
    | PostgresError
    | LimitConstraintError
    | PreconditionFailedError
    | BadRequestError
  {
    /** Position in the declaration order shared by the three enums. */
    function Index(): nat
    {
      match this
      case BucketAlreadyExists => 0
      case BucketNotFound => 1
      case ObjectNotFound => 2
      case PostgresError => 3
      case LimitConstraintError => 4
      case PreconditionFailedError => 5
      case BadRequestError => 6
    }
  }

  /** The boray crate's enum: the first five kinds. */
  type BorayErrorType = t: ErrorType | t.Index() < 5 witness BucketAlreadyExists

  /** The oldest server's enum: the first three kinds. */
  type LegacyErrorType = t: ErrorType | t.Index() < 3 witness BucketAlreadyExists

  /** `to_string` of the enum: the variant's own identifier. */
  function Name(t: ErrorType): string
  {
    match t
    case BucketAlreadyExists => "BucketAlreadyExists"
    case BucketNotFound => "BucketNotFound"
    case ObjectNotFound => "ObjectNotFound"
    case PostgresError => "PostgresError"
    case LimitConstraintError => "LimitConstraintError"
    case PreconditionFailedError => "PreconditionFailedError"
    case BadRequestError => "BadRequestError"
  }

  /** The canned human-readable message of each kind. */
  function Message(t: ErrorType): string
  {
    match t
    case BucketAlreadyExists => "requested bucket already exists"
    case BucketNotFound => "requested bucket not found"
    case ObjectNotFound => "requested object not found"
    case PostgresError => "postgres encountered an error"
    case LimitConstraintError => "a limit constraint was violated"
    case PreconditionFailedError => "precondition failed"
    case BadRequestError => "bad request"
  }

  /** Reads an error name back; the inverse of `Name`. */
  function ParseName(s: string): (r: Option<ErrorType>)
    ensures r.Some? ==> Name(r.value) == s
  {
    if s == "BucketAlreadyExists" then Some(BucketAlreadyExists)
    else if s == "BucketNotFound" then Some(BucketNotFound)
    else if s == "ObjectNotFound" then Some(ObjectNotFound)
    else if s == "PostgresError" then Some(PostgresError)
    else if s == "LimitConstraintError" then Some(LimitConstraintError)
    else if s == "PreconditionFailedError" then Some(PreconditionFailedError)
    else if s == "BadRequestError" then Some(BadRequestError)
    else None
  }

  /** The `{ name, message }` pair that is serialized under `error`. */
  datatype ErrorValue = ErrorValue(name: string, message: string)

  /** `with_message`: the kind's name with a caller-chosen message. */
  function WithMessage(t: ErrorType, msg: string): (e: ErrorValue)
    ensures ParseName(e.name) == Some(t) && e.message == msg
  {
    NameRoundTrip(t);
    ErrorValue(Name(t), msg)
  }

  /** `new`: the kind's name with its canned message. */
  function New(t: ErrorType): (e: ErrorValue)
    ensures e == WithMessage(t, Message(t))
    ensures ParseName(e.name) == Some(t)
  {
    WithMessage(t, Message(t))
  }

  /** Every name reads back as its own kind, so no two kinds share a name. */
  lemma NameRoundTrip(t: ErrorType)
    ensures ParseName(Name(t)) == Some(t)
  {
  }

  /** Distinct kinds have distinct names and distinct messages. */
  lemma {:induction false} NamesDistinct(a: ErrorType, b: ErrorType)
    requires a != b
    ensures Name(a) != Name(b)
    ensures Message(a) != Message(b)
  {
    NameRoundTrip(a);
    NameRoundTrip(b);
  }

  /** An error a caller reads can be decoded into the kind that produced it. */
  lemma {:induction false} ErrorValueDecodes(e: ErrorValue, t: ErrorType)
    requires e == New(t)
    ensures ParseName(e.name) == Some(t) && e.message == Message(t)
  {
  }
}
