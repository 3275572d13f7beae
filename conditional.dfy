/**
 * The conditional-request evaluator of buckets-mdapi: the If-Match,
 * If-None-Match, If-Modified-Since and If-Unmodified-Since conditions a client
 * may attach to an object request, checked against the object's etag (its id)
 * and its last-modified time.
 */
module Conditional {

  import opened Wrappers
  import opened Text
  import opened Errors
  import opened Rows

  /** The four optional conditions of a request. */
  datatype Conditions = Conditions(
    ifMatch: Option<seq<string>>,
    ifNoneMatch: Option<seq<string>>,
    ifModifiedSince: Option<Timestamp>,
    ifUnmodifiedSince: Option<Timestamp>)

  /** What a payload carries when it has no `conditions` field (`serde(default)`). */
  const NoConditions := Conditions(None, None, None, None)

  /** A request is conditional when at least one condition is present. */
  predicate IsConditional(c: Conditions)
  {
    c.ifMatch.Some? || c.ifNoneMatch.Some? || c.ifModifiedSince.Some? || c.ifUnmodifiedSince.Some?
  }

  /** An omitted `conditions` field leaves the request unconditional. */
  lemma DefaultIsNotConditional()
    ensures !IsConditional(NoConditions)
    ensures forall c: Conditions :: !IsConditional(c) ==> c == NoConditions
  {
  }

  /** Some client etag is the wildcard or equals the object's etag. */
  predicate EtagMatches(etag: string, clientEtags: seq<string>)
  {
    exists i :: 0 <= i < |clientEtags| && (clientEtags[i] == "*" || clientEtags[i] == etag)
  }

  /** `check_if_match_wildcard`: the list holds the wildcard. */
  predicate HasWildcard(clientEtags: seq<string>)
  {
    "*" in clientEtags
  }

  /** `check_if_match`: a scan that stops at the first matching client etag. */
  method CheckIfMatch(etag: string, clientEtags: seq<string>) returns (r: bool)
    ensures r <==> EtagMatches(etag, clientEtags)
  {
    var i := 0;
    while i < |clientEtags|
      invariant 0 <= i <= |clientEtags|
      invariant forall j :: 0 <= j < i ==> clientEtags[j] != "*" && clientEtags[j] != etag
    {
      if clientEtags[i] == "*" || etag == clientEtags[i] {
        return true;
      }
      i := i + 1;
    }
    return false;
  }

  function Quote(e: string): string
  {
    "\"" + e + "\""
  }

  /** `print_etags`: every etag in double quotes, joined by ", ". */
  function PrintEtags(etags: seq<string>): string
  {
    if etags == [] then ""
    else if |etags| == 1 then Quote(etags[0])
    else Quote(etags[0]) + ", " + PrintEtags(etags[1..])
  }

  /** The printed list is the quoted etags joined by ", ". */
  lemma {:induction false} PrintEtagsIsJoin(etags: seq<string>)
    ensures PrintEtags(etags) == Join(seq(|etags|, i requires 0 <= i < |etags| => Quote(etags[i])), ", ")
    decreases |etags|
  {
    var q := seq(|etags|, i requires 0 <= i < |etags| => Quote(etags[i]));
    if |etags| > 1 {
      PrintEtagsIsJoin(etags[1..]);
      assert q[1..] == seq(|etags[1..]|, i requires 0 <= i < |etags[1..]| => Quote(etags[1..][i]));
    }
  }

  function PreconditionFailed(msg: string): ErrorValue
  {
    WithMessage(PreconditionFailedError, msg)
  }

  function IfMatchFailure(clientEtags: seq<string>, etag: string): ErrorValue
  {
    PreconditionFailed("if-match '" + PrintEtags(clientEtags) + "' didn't match etag '" + etag + "'")
  }

  function IfNoneMatchFailure(clientEtags: seq<string>, etag: string): ErrorValue
  {
    PreconditionFailed("if-none-match '" + PrintEtags(clientEtags) + "' matched etag '" + etag + "'")
  }

  function DateFailure(header: string, lastModified: string, client: string): ErrorValue
  {
    PreconditionFailed("object was modified at '" + lastModified + "'; " + header + " '" + client + "'")
  }

  // Each condition's own test, as the evaluator applies it to a present object.

  predicate PassesIfMatch(c: Conditions, etag: string)
  {
    c.ifMatch.None? || EtagMatches(etag, c.ifMatch.value)
  }

  predicate PassesIfUnmodifiedSince(c: Conditions, modified: Timestamp)
  {
    c.ifUnmodifiedSince.None? || !(modified > c.ifUnmodifiedSince.value)
  }

  predicate PassesIfNoneMatch(c: Conditions, etag: string)
  {
    c.ifNoneMatch.None? || !EtagMatches(etag, c.ifNoneMatch.value)
  }

  predicate PassesIfModifiedSince(c: Conditions, modified: Timestamp)
  {
    c.ifModifiedSince.None? || !(modified <= c.ifModifiedSince.value)
  }

  predicate PassesAll(c: Conditions, etag: string, modified: Timestamp)
  {
    PassesIfMatch(c, etag) && PassesIfUnmodifiedSince(c, modified)
    && PassesIfNoneMatch(c, etag) && PassesIfModifiedSince(c, modified)
  }

  /**
   * `Conditions::check`. `rfc3339` renders a timestamp for the messages.
   * Without an object only the wildcards matter; with one, the four tests run
   * in a fixed order and the first that fails decides the error.
   */
  function Check(c: Conditions, obj: Option<ObjectRecord>, rfc3339: Timestamp -> string): (r: Result<(), ErrorValue>)
    ensures obj.None? ==>
      r == (if c.ifMatch.Some? && HasWildcard(c.ifMatch.value)
            then Err(PreconditionFailed("if-match '" + PrintEtags(c.ifMatch.value) + "' matched a non-existent object"))
            else if c.ifNoneMatch.Some? && HasWildcard(c.ifNoneMatch.value) then Ok(())
            else Err(New(ObjectNotFound)))
    ensures obj.Some? ==> (r.Ok? <==> PassesAll(c, obj.value.id, obj.value.modified))
    ensures obj.Some? && r.Err? ==> ParseName(r.error.name) == Some(PreconditionFailedError)
  {
    match obj
    case None =>
      if c.ifMatch.Some? && HasWildcard(c.ifMatch.value) then
        Err(PreconditionFailed("if-match '" + PrintEtags(c.ifMatch.value) + "' matched a non-existent object"))
      else if c.ifNoneMatch.Some? && HasWildcard(c.ifNoneMatch.value) then
        Ok(())
      else
        Err(New(ObjectNotFound))
    case Some(current) =>
      var etag := current.id;
      var lastModified := current.modified;
      if c.ifMatch.Some? && !EtagMatches(etag, c.ifMatch.value) then
        Err(IfMatchFailure(c.ifMatch.value, etag))
      else if c.ifUnmodifiedSince.Some? && lastModified > c.ifUnmodifiedSince.value then
        Err(DateFailure("if-unmodified-since", rfc3339(lastModified), rfc3339(c.ifUnmodifiedSince.value)))
      else if c.ifNoneMatch.Some? && EtagMatches(etag, c.ifNoneMatch.value) then
        Err(IfNoneMatchFailure(c.ifNoneMatch.value, etag))
      else if c.ifModifiedSince.Some? && lastModified <= c.ifModifiedSince.value then
        Err(DateFailure("if-modified-since", rfc3339(lastModified), rfc3339(c.ifModifiedSince.value)))
      else
        Ok(())
  }

  /** Without an object, a non-wildcard If-Match reports the object as missing. */
  lemma NoObjectPlainIfMatchIsNotFound(c: Conditions, rfc3339: Timestamp -> string)
    requires c.ifMatch.Some? && !HasWildcard(c.ifMatch.value)
    requires c.ifNoneMatch.None? || !HasWildcard(c.ifNoneMatch.value)
    ensures Check(c, None, rfc3339) == Err(New(ObjectNotFound))
  {
  }

  /** A failing If-Match decides the error whatever else is present. */
  lemma IfMatchDecidesFirst(c: Conditions, o: ObjectRecord, rfc3339: Timestamp -> string)
    requires c.ifMatch.Some? && !PassesIfMatch(c, o.id)
    ensures Check(c, Some(o), rfc3339) == Err(IfMatchFailure(c.ifMatch.value, o.id))
  {
  }

  /** If-Unmodified-Since is checked second: it wins over the last two. */
  lemma IfUnmodifiedSinceDecidesSecond(c: Conditions, o: ObjectRecord, rfc3339: Timestamp -> string)
    requires PassesIfMatch(c, o.id) && !PassesIfUnmodifiedSince(c, o.modified)
    ensures Check(c, Some(o), rfc3339)
         == Err(DateFailure("if-unmodified-since", rfc3339(o.modified), rfc3339(c.ifUnmodifiedSince.value)))
  {
  }

  /** If-None-Match is checked third: it wins over If-Modified-Since. */
  lemma IfNoneMatchDecidesThird(c: Conditions, o: ObjectRecord, rfc3339: Timestamp -> string)
    requires PassesIfMatch(c, o.id) && PassesIfUnmodifiedSince(c, o.modified)
    requires !PassesIfNoneMatch(c, o.id)
    ensures Check(c, Some(o), rfc3339) == Err(IfNoneMatchFailure(c.ifNoneMatch.value, o.id))
  {
  }

  /** If-Modified-Since is the last check. */
  lemma IfModifiedSinceDecidesLast(c: Conditions, o: ObjectRecord, rfc3339: Timestamp -> string)
    requires PassesIfMatch(c, o.id) && PassesIfUnmodifiedSince(c, o.modified) && PassesIfNoneMatch(c, o.id)
    requires !PassesIfModifiedSince(c, o.modified)
    ensures Check(c, Some(o), rfc3339)
         == Err(DateFailure("if-modified-since", rfc3339(o.modified), rfc3339(c.ifModifiedSince.value)))
  {
  }

  /**
   * If-None-Match is the exact negation of If-Match: the same list in both
   * can never let a present object through.
   */
  lemma {:induction false} SameListInBothNeverPasses(c: Conditions, o: ObjectRecord, rfc3339: Timestamp -> string)
    requires c.ifMatch.Some? && c.ifNoneMatch == c.ifMatch
    ensures Check(c, Some(o), rfc3339).Err?
  {
    if EtagMatches(o.id, c.ifMatch.value) {
      assert !PassesIfNoneMatch(c, o.id);
    } else {
      assert !PassesIfMatch(c, o.id);
    }
  }

  /** A wildcard If-None-Match always fails on a present object. */
  lemma WildcardIfNoneMatchFails(c: Conditions, o: ObjectRecord, rfc3339: Timestamp -> string)
    requires c.ifNoneMatch.Some? && HasWildcard(c.ifNoneMatch.value)
    ensures Check(c, Some(o), rfc3339).Err?
  {
    var i :| 0 <= i < |c.ifNoneMatch.value| && c.ifNoneMatch.value[i] == "*";
    assert EtagMatches(o.id, c.ifNoneMatch.value);
  }

  /**
   * The two date tests are complementary: on the same client time exactly one
   * of them passes, so an equal last-modified time passes If-Unmodified-Since
   * and fails If-Modified-Since.
   */
  lemma DateTestsComplementary(c: Conditions, modified: Timestamp)
    requires c.ifModifiedSince.Some? && c.ifModifiedSince == c.ifUnmodifiedSince
    ensures PassesIfUnmodifiedSince(c, modified) != PassesIfModifiedSince(c, modified)
    ensures modified == c.ifModifiedSince.value ==>
      PassesIfUnmodifiedSince(c, modified) && !PassesIfModifiedSince(c, modified)
  {
  }

  /** An If-Match naming the object's id, alone or in a list, lets it through. */
  lemma IfMatchOwnIdPasses(o: ObjectRecord, others: seq<string>, rfc3339: Timestamp -> string)
    ensures Check(Conditions(Some(others + [o.id]), None, None, None), Some(o), rfc3339) == Ok(())
  {
    assert (others + [o.id])[|others|] == o.id;
  }

  /** A single non-matching If-Match tag fails with the tag quoted in the message. */
  lemma IfMatchOtherTagMessage(o: ObjectRecord, tag: string, rfc3339: Timestamp -> string)
    requires tag != o.id && tag != "*"
    ensures Check(Conditions(Some([tag]), None, None, None), Some(o), rfc3339)
         == Err(ErrorValue("PreconditionFailedError", "if-match '\"" + tag + "\"' didn't match etag '" + o.id + "'"))
  {
    assert !EtagMatches(o.id, [tag]);
    assert PrintEtags([tag]) == "\"" + tag + "\"";
    assert "if-match '" + PrintEtags([tag]) + "' didn't match etag '" + o.id + "'"
        == "if-match '\"" + tag + "\"' didn't match etag '" + o.id + "'";
  }

  /** What `request` did: the statements it sent and its verdict. */
  datatype RequestResult = RequestResult(queries: seq<string>, outcome: Result<(), ErrorValue>)

  /**
   * `request`: an unconditional request is accepted without touching the
   * database; otherwise the object is read inside the caller's transaction
   * (`lookup` is what that read returned) and checked.
   */
  function Request(c: Conditions, vnode: nat, lookup: Result<seq<Row<ObjectRecord>>, string>,
                   rfc3339: Timestamp -> string): (r: RequestResult)
    ensures !IsConditional(c) ==> r == RequestResult([], Ok(()))
    ensures IsConditional(c) ==> r.queries == [GetObjectSql(vnode)]
    ensures IsConditional(c) && lookup.Err? ==> r.outcome == Err(WithMessage(PostgresError, lookup.error))
    ensures IsConditional(c) && lookup.Ok? && |lookup.value| == 1 && lookup.value[0].width >= ObjectColumns ==>
              r.outcome == Check(c, Some(lookup.value[0].values), rfc3339)
    ensures IsConditional(c) && lookup == Ok([]) ==> r.outcome == Check(c, None, rfc3339)
    ensures IsConditional(c) && lookup.Ok? && |lookup.value| == 1 && lookup.value[0].width < ObjectColumns ==>
              r.outcome == Err(WithMessage(PostgresError, TooFewColumns("getobject", lookup.value[0].width, "12")))
    ensures IsConditional(c) && lookup.Ok? && |lookup.value| > 1 ==>
              r.outcome == Err(WithMessage(PostgresError, TooManyRows("getobject", |lookup.value|)))
  {
    if !IsConditional(c) then RequestResult([], Ok(()))
    else
      var outcome :=
        match lookup
        case Err(e) => Err(WithMessage(PostgresError, e))
        case Ok(rows) =>
          match ObjectResponse("getobject", rows)
          case Err(e) => Err(e)
          case Ok(maybe) => Check(c, maybe, rfc3339);
      RequestResult([GetObjectSql(vnode)], outcome)
  }
}
