/**
 * The older, header-based precondition check of buckets-mdapi: conditions
 * arrive as an hstore of raw header text ("if-match" -> "a,\"b\"", dates as
 * text) and are parsed while they are checked.
 */
module Precondition {

  import opened Wrappers
  import opened Text
  import opened Errors
  import opened Rows

  /**
   * Date handling the check relies on: parsing a header value as a timestamp
   * and rendering a timestamp in RFC 3339 form.
   */
  datatype DateCodec = DateCodec(parse: string -> Option<Timestamp>, rfc3339: Timestamp -> string)

  const IfMatch := "if-match"
  const IfNoneMatch := "if-none-match"
  const IfModifiedSince := "if-modified-since"
  const IfUnmodifiedSince := "if-unmodified-since"

  /** Conditional iff the headers exist and hold one of the four keys, whatever its value. */
  predicate IsConditional(headers: Option<Hstore>)
  {
    match headers
    case None => false
    case Some(h) => IfMatch in h || IfNoneMatch in h || IfModifiedSince in h || IfUnmodifiedSince in h
  }

  /** The value of a header when it is present and not null. */
  function Value(h: Hstore, key: string): Option<string>
  {
    if key in h then h[key] else None
  }

  /** Some token of the header, once its quotes are removed, is "*" or the etag. */
  predicate HeaderMatches(etag: string, header: string)
  {
    exists i :: 0 <= i < |Split(header, ',')| && (RemoveChar(Split(header, ',')[i], '"') == "*" || RemoveChar(Split(header, ',')[i], '"') == etag)
  }

  /** `check_if_match`: scan the split tokens, stripping quotes from each. */
  method CheckIfMatch(etag: string, clientEtags: seq<string>) returns (r: bool)
    ensures r <==> exists i :: 0 <= i < |clientEtags| && (RemoveChar(clientEtags[i], '"') == "*" || RemoveChar(clientEtags[i], '"') == etag)
  {
    for i := 0 to |clientEtags|
      invariant forall j :: 0 <= j < i ==> RemoveChar(clientEtags[j], '"') != "*" && RemoveChar(clientEtags[j], '"') != etag
    {
      var token := RemoveChar(clientEtags[i], '"');
      if token == "*" || etag == token {
        return true;
      }
    }
    return false;
  }

  /** `check_if_modified`: strictly later. Equal times are not "modified". */
  predicate CheckIfModified(lastModified: Timestamp, clientModified: Timestamp)
  {
    lastModified > clientModified
  }

  predicate PassesIfMatch(h: Hstore, etag: string)
  {
    Value(h, IfMatch).None? || HeaderMatches(etag, Value(h, IfMatch).value)
  }

  predicate PassesIfNoneMatch(h: Hstore, etag: string)
  {
    Value(h, IfNoneMatch).None? || !HeaderMatches(etag, Value(h, IfNoneMatch).value)
  }

  /** A date header passes when absent or null, or when it parses and `ok` holds of it. */
  predicate PassesDate(h: Hstore, key: string, codec: DateCodec, lastModified: Timestamp, wantModified: bool)
  {
    Value(h, key).None? ||
    (codec.parse(Value(h, key).value).Some? &&
     CheckIfModified(lastModified, codec.parse(Value(h, key).value).value) == wantModified)
  }

  predicate PassesAll(h: Hstore, etag: string, lastModified: Timestamp, codec: DateCodec)
  {
    PassesIfMatch(h, etag) && PassesDate(h, IfUnmodifiedSince, codec, lastModified, false)
    && PassesIfNoneMatch(h, etag) && PassesDate(h, IfModifiedSince, codec, lastModified, true)
  }

  function Unparseable(v: string): ErrorValue
  {
    WithMessage(BadRequestError, "unable to parse '" + v + "' as a valid date")
  }

  function Modified(codec: DateCodec, header: string, lastModified: Timestamp, client: Timestamp): ErrorValue
  {
    WithMessage(PreconditionFailedError,
      "object was modified at '" + codec.rfc3339(lastModified) + "'; " + header + " '" + codec.rfc3339(client) + "'")
  }

  /**
   * `check_conditional`: if-match, if-unmodified-since, if-none-match and
   * if-modified-since, in that order; the first failure is returned. A date
   * that does not parse is a BadRequestError.
   */
  function CheckConditional(h: Hstore, etag: string, lastModified: Timestamp, codec: DateCodec): (r: Result<(), ErrorValue>)
    ensures r.Ok? <==> PassesAll(h, etag, lastModified, codec)
    ensures r.Err? ==> ParseName(r.error.name) in {Some(PreconditionFailedError), Some(BadRequestError)}
    ensures r.Err? && ParseName(r.error.name) == Some(BadRequestError) ==>
      exists key :: key in {IfUnmodifiedSince, IfModifiedSince} && Value(h, key).Some? &&
        codec.parse(Value(h, key).value).None? && r.error == Unparseable(Value(h, key).value)
  {
    var ifMatch := Value(h, IfMatch);
    var unmodified := Value(h, IfUnmodifiedSince);
    var ifNoneMatch := Value(h, IfNoneMatch);
    var modified := Value(h, IfModifiedSince);
    if ifMatch.Some? && !HeaderMatches(etag, ifMatch.value) then
      Err(WithMessage(PreconditionFailedError,
        "if-match '" + ifMatch.value + "' didn't match etag '" + etag + "'"))
    else if unmodified.Some? && codec.parse(unmodified.value).None? then
      Err(Unparseable(unmodified.value))
    else if unmodified.Some? && CheckIfModified(lastModified, codec.parse(unmodified.value).value) then
      Err(Modified(codec, IfUnmodifiedSince, lastModified, codec.parse(unmodified.value).value))
    else if ifNoneMatch.Some? && HeaderMatches(etag, ifNoneMatch.value) then
      Err(WithMessage(PreconditionFailedError,
        "if-none-match '" + ifNoneMatch.value + "' matched etag '" + etag + "'"))
    else if modified.Some? && codec.parse(modified.value).None? then
      Err(Unparseable(modified.value))
    else if modified.Some? && !CheckIfModified(lastModified, codec.parse(modified.value).value) then
      Err(Modified(codec, IfModifiedSince, lastModified, codec.parse(modified.value).value))
    else
      Ok(())
  }

  /** A header present with a null value is the same as no header at all. */
  lemma NullHeaderIsSkipped(h: Hstore, key: string, etag: string, lastModified: Timestamp, codec: DateCodec)
    requires key in h && h[key].None?
    ensures CheckConditional(h, etag, lastModified, codec) == CheckConditional(h - {key}, etag, lastModified, codec)
  {
    forall k ensures Value(h, k) == Value(h - {key}, k) {
    }
  }

  /** A failing if-match is reported before anything else, with the raw header text. */
  lemma IfMatchReportedFirst(h: Hstore, etag: string, lastModified: Timestamp, codec: DateCodec)
    requires Value(h, IfMatch).Some? && !HeaderMatches(etag, Value(h, IfMatch).value)
    ensures CheckConditional(h, etag, lastModified, codec)
         == Err(ErrorValue("PreconditionFailedError",
              "if-match '" + Value(h, IfMatch).value + "' didn't match etag '" + etag + "'"))
  {
  }

  /** An unparseable if-unmodified-since is a bad request once if-match has passed. */
  lemma UnparseableDateIsBadRequest(h: Hstore, etag: string, lastModified: Timestamp, codec: DateCodec)
    requires PassesIfMatch(h, etag)
    requires Value(h, IfUnmodifiedSince).Some? && codec.parse(Value(h, IfUnmodifiedSince).value).None?
    ensures CheckConditional(h, etag, lastModified, codec)
         == Err(ErrorValue("BadRequestError", "unable to parse '" + Value(h, IfUnmodifiedSince).value + "' as a valid date"))
  {
  }

  /** An unparseable if-modified-since is a bad request once the first three have passed. */
  lemma UnparseableModifiedSinceIsBadRequest(h: Hstore, etag: string, lastModified: Timestamp, codec: DateCodec)
    requires PassesIfMatch(h, etag) && PassesDate(h, IfUnmodifiedSince, codec, lastModified, false)
    requires PassesIfNoneMatch(h, etag)
    requires Value(h, IfModifiedSince).Some? && codec.parse(Value(h, IfModifiedSince).value).None?
    ensures CheckConditional(h, etag, lastModified, codec)
         == Err(ErrorValue("BadRequestError", "unable to parse '" + Value(h, IfModifiedSince).value + "' as a valid date"))
  {
  }

  /** Quotes around a listed etag are ignored: `thing,"<etag>"` matches. */
  lemma {:induction false} QuotedEtagInListMatches(etag: string)
    requires ',' !in etag && '"' !in etag
    ensures HeaderMatches(etag, "thing,\"" + etag + "\"")
  {
    var tail := "\"" + etag + "\"";
    SplitAtFirst("thing", ',', tail);
    assert "thing,\"" + etag + "\"" == "thing" + [','] + tail;
    SplitNoSeparator(tail, ',');
    var pieces := Split("thing,\"" + etag + "\"", ',');
    assert pieces[1] == tail;
    RemoveCharConcat("\"", etag, "\"");
    assert RemoveChar(pieces[1], '"') == etag;
  }

  lemma RemoveCharConcat(a: string, b: string, c: string)
    requires a == "\"" && c == "\"" && '"' !in b
    ensures RemoveChar(a + b + c, '"') == b
  {
    RemoveCharAppend(a, b + c, '"');
    assert a + b + c == a + (b + c);
    RemoveCharAppend(b, c, '"');
  }

  lemma {:induction false} RemoveCharAppend(a: string, b: string, ch: char)
    ensures RemoveChar(a + b, ch) == RemoveChar(a, ch) + RemoveChar(b, ch)
    decreases |a|
  {
    if a != [] {
      RemoveCharAppend(a[1..], b, ch);
      assert (a + b)[1..] == a[1..] + b;
    } else {
      assert a + b == b;
    }
  }

  /** Whitespace after a comma is kept, so `x, <etag>` does not match. */
  lemma {:induction false} SpaceAfterCommaDoesNotMatch(etag: string)
    requires etag == "abc"
    ensures !HeaderMatches(etag, "x, abc")
  {
    SplitAtFirst("x", ',', " abc");
    assert "x, abc" == "x" + [','] + " abc";
    SplitNoSeparator(" abc", ',');
    var pieces := Split("x, abc", ',');
    assert pieces == ["x", " abc"];
    assert RemoveChar("x", '"') == "x";
    assert RemoveChar(" abc", '"') == " abc";
  }

  /** What `request` did: whether it queried, and its verdict. */
  datatype RequestResult = RequestResult(queried: bool, outcome: Result<(), ErrorValue>)

  /**
   * `request`: unconditional requests are accepted without a query; otherwise
   * the object's row is read and exactly one row must come back.
   */
  function Request(headers: Option<Hstore>, lookup: Result<seq<ObjectRecord>, string>, codec: DateCodec): (r: RequestResult)
    ensures !IsConditional(headers) ==> r == RequestResult(false, Ok(()))
    ensures IsConditional(headers) ==> r.queried
    ensures IsConditional(headers) && lookup.Err? ==> r.outcome == Err(WithMessage(PostgresError, lookup.error))
    ensures IsConditional(headers) && lookup == Ok([]) ==> r.outcome == Err(New(ObjectNotFound))
    ensures IsConditional(headers) && lookup.Ok? && |lookup.value| > 1 ==>
      r.outcome == Err(WithMessage(PostgresError, "expected 1 row from precondition query"))
    ensures IsConditional(headers) && lookup.Ok? && |lookup.value| == 1 ==>
      r.outcome == CheckConditional(headers.value, lookup.value[0].id, lookup.value[0].modified, codec)
  {
    if !IsConditional(headers) then RequestResult(false, Ok(()))
    else
      match lookup
      case Err(e) => RequestResult(true, Err(WithMessage(PostgresError, e)))
      case Ok(rows) =>
        if |rows| == 0 then RequestResult(true, Err(New(ObjectNotFound)))
        else if |rows| > 1 then RequestResult(true, Err(WithMessage(PostgresError, "expected 1 row from precondition query")))
        else RequestResult(true, CheckConditional(headers.value, rows[0].id, rows[0].modified, codec))
  }
}
