/**
 * Listing buckets and objects. A list request is validated (its limit, and in
 * the oldest server its sort column), turned into one of four SELECT
 * statements depending on which of marker and prefix it carries, and the rows
 * the statement returns are sent back one message per row.
 *
 * What a statement returns is stated here as Postgres evaluates it: the keys
 * that pass the statement's filter, in ascending name order, cut to the
 * limit. Names are compared code point by code point, which is the order
 * of a database using the "C" collation.
 */
module Listing {

  import opened Wrappers
  import opened Text
  import opened Errors
  import opened Rows
  import opened Fast

  /** The largest page the current servers accept. */
  const MaxLimit: nat := 1024

  /** The largest page the oldest server accepts. */
  const LegacyMaxLimit: nat := 1000

  /** `limit > 0 && limit <= 1024`. */
  predicate LimitAccepted(limit: nat)
  {
    0 < limit <= MaxLimit
  }

  /** The message of a rejected limit. */
  function LimitMessage(rpc: string, limit: nat): string
  {
    "the " + rpc + " limit option must be a value between 1 and 1024. the requested limit was " + NatToString(limit)
  }

  /** Which statement a list request runs, by the presence of marker and prefix. */
  datatype Variant = PrefixMarker | MarkerOnly | PrefixOnly | Plain

  /** A list statement: its variant and the values bound to it. */
  datatype ListStatement = ListStatement(variant: Variant, pattern: Option<string>, marker: Option<string>, limit: nat)

  /** `format!("{}%", prefix)`: the LIKE pattern of a prefix. */
  function PrefixPattern(prefix: string): (r: string)
    ensures |r| == |prefix| + 1 && r[..|prefix|] == prefix && r[|prefix|] == '%'
  {
    prefix + "%"
  }

  /**
   * `name LIKE pattern` as Postgres evaluates it: '%' matches any run of
   * characters, '_' any one character, and '\\' (the default escape)
   * makes the character after it literal. A pattern ending in a lone
   * escape is refused by Postgres; here it matches nothing.
   */
  predicate Like(name: string, pattern: string)
    decreases |pattern|, |name|
  {
    if pattern == [] then name == []
    else if pattern[0] == '%' then Like(name, pattern[1..]) || (name != [] && Like(name[1..], pattern))
    else if pattern[0] == '_' then name != [] && Like(name[1..], pattern[1..])
    else if pattern[0] == '\\' then
      |pattern| >= 2 && name != [] && name[0] == pattern[1] && Like(name[1..], pattern[2..])
    else name != [] && name[0] == pattern[0] && Like(name[1..], pattern[1..])
  }

  /** The characters LIKE gives a meaning to. */
  predicate IsLikeSyntax(c: char)
  {
    c == '%' || c == '_' || c == '\\'
  }

  /** A text in which LIKE sees only literal characters. */
  predicate PlainText(s: string)
  {
    forall i :: 0 <= i < |s| ==> !IsLikeSyntax(s[i])
  }

  /** A lone '%' matches every name. */
  lemma {:induction false} LikeAnything(name: string)
    ensures Like(name, "%")
    decreases |name|
  {
    if name != [] {
      LikeAnything(name[1..]);
    }
  }

  /**
   * For a prefix in which LIKE sees only literal characters, the pattern
   * built from it matches exactly the names with that prefix.
   */
  lemma {:induction false} LikePrefixPattern(name: string, prefix: string)
    requires PlainText(prefix)
    ensures Like(name, PrefixPattern(prefix)) <==> IsPrefix(prefix, name)
    decreases |prefix|
  {
    if prefix == [] {
      LikeAnything(name);
    } else {
      assert PrefixPattern(prefix) == [prefix[0]] + PrefixPattern(prefix[1..]);
      assert PlainText(prefix[1..]) by {
        forall i | 0 <= i < |prefix[1..]| ensures !IsLikeSyntax(prefix[1..][i]) {
          assert prefix[1..][i] == prefix[i + 1];
        }
      }
      assert !IsLikeSyntax(prefix[0]);
      LikeLiteralHead(name, prefix[0], PrefixPattern(prefix[1..]));
      if name != [] {
        LikePrefixPattern(name[1..], prefix[1..]);
        PrefixStep(prefix, name);
      }
    }
  }

  /**
   * The prefix is copied into the pattern unescaped, so an underscore in it
   * matches any character: the prefix "a_" lists the name "ab".
   */
  lemma UnescapedPrefixOverMatches()
    ensures Like("ab", PrefixPattern("a_")) && !IsPrefix("a_", "ab")
  {
    assert PrefixPattern("a_") == "a_%";
    assert "a_%"[1..] == "_%" && "_%"[1..] == "%";
    assert "ab"[1..] == "b" && "b"[1..] == [];
    assert Like([], "%") by { assert "%"[1..] == []; }
    assert Like("b", "_%");
    assert Like("ab", "a_%");
  }

  /** The prefix with every LIKE syntax character escaped. */
  function EscapeLike(prefix: string): (r: string)
    ensures PlainText(prefix) ==> r == prefix
  {
    if prefix == [] then []
    else
      var rest := EscapeLike(prefix[1..]);
      assert PlainText(prefix) ==> PlainText(prefix[1..]) by {
        if PlainText(prefix) {
          forall i | 0 <= i < |prefix[1..]| ensures !IsLikeSyntax(prefix[1..][i]) {
            assert prefix[1..][i] == prefix[i + 1];
          }
        }
      }
      if IsLikeSyntax(prefix[0]) then ['\\', prefix[0]] + rest
      else assert PlainText(prefix) ==> prefix == [prefix[0]] + prefix[1..]; [prefix[0]] + rest
  }

  /** The pattern a prefix listing needs: the escaped prefix followed by '%'. */
  function EscapedPrefixPattern(prefix: string): string
  {
    EscapeLike(prefix) + "%"
  }

  /** A non-empty prefix of a name is its first character followed by a prefix of the rest. */
  lemma PrefixStep(prefix: string, name: string)
    requires prefix != [] && name != []
    ensures IsPrefix(prefix, name) <==> name[0] == prefix[0] && IsPrefix(prefix[1..], name[1..])
  {
    if |prefix| <= |name| {
      assert name[..|prefix|] == [name[0]] + name[1..][..|prefix| - 1];
      assert prefix == [prefix[0]] + prefix[1..];
    }
  }

  /** A pattern that starts with an ordinary character matches names that start with it. */
  lemma LikeLiteralHead(name: string, c: char, pattern: string)
    requires !IsLikeSyntax(c)
    ensures Like(name, [c] + pattern) <==> name != [] && name[0] == c && Like(name[1..], pattern)
  {
    assert ([c] + pattern)[1..] == pattern;
  }

  /** An escaped character matches itself, whatever it is. */
  lemma LikeEscapedHead(name: string, c: char, pattern: string)
    ensures Like(name, ['\\', c] + pattern) <==> name != [] && name[0] == c && Like(name[1..], pattern)
  {
    assert (['\\', c] + pattern)[2..] == pattern;
  }

  /** The escaped pattern matches exactly the names with the prefix, whatever the prefix holds. */
  lemma {:induction false} LikeEscapedPrefix(name: string, prefix: string)
    ensures Like(name, EscapedPrefixPattern(prefix)) <==> IsPrefix(prefix, name)
    decreases |prefix|
  {
    if prefix == [] {
      assert EscapedPrefixPattern(prefix) == "%";
      LikeAnything(name);
    } else {
      var rest := EscapedPrefixPattern(prefix[1..]);
      if IsLikeSyntax(prefix[0]) {
        assert EscapedPrefixPattern(prefix) == ['\\', prefix[0]] + rest;
        LikeEscapedHead(name, prefix[0], rest);
      } else {
        assert EscapedPrefixPattern(prefix) == [prefix[0]] + rest;
        LikeLiteralHead(name, prefix[0], rest);
      }
      if name != [] {
        LikeEscapedPrefix(name[1..], prefix[1..]);
        PrefixStep(prefix, name);
      }
    }
  }

  /** `do_list`'s match on (marker, prefix). */
  function Statement(marker: Option<string>, prefix: Option<string>, limit: nat): (s: ListStatement)
    ensures s.limit == limit && s.marker == marker
    ensures s.pattern == (if prefix.Some? then Some(PrefixPattern(prefix.value)) else None)
    ensures s.variant == PrefixMarker <==> marker.Some? && prefix.Some?
    ensures s.variant == MarkerOnly <==> marker.Some? && prefix.None?
    ensures s.variant == PrefixOnly <==> marker.None? && prefix.Some?
    ensures s.variant == Plain <==> marker.None? && prefix.None?
  {
    match (marker, prefix)
    case (Some(m), Some(p)) => ListStatement(PrefixMarker, Some(PrefixPattern(p)), Some(m), limit)
    case (Some(m), None) => ListStatement(MarkerOnly, None, Some(m), limit)
    case (None, Some(p)) => ListStatement(PrefixOnly, Some(PrefixPattern(p)), None, limit)
    case (None, None) => ListStatement(Plain, None, None, limit)
  }

  /** The name conditions of a statement's WHERE clause. */
  predicate Selects(s: ListStatement, name: string)
  {
    match s.variant
    case PrefixMarker => s.pattern.Some? && s.marker.Some? && Like(name, s.pattern.value) && LexLt(s.marker.value, name)
    case MarkerOnly => s.marker.Some? && LexLt(s.marker.value, name)
    case PrefixOnly => s.pattern.Some? && Like(name, s.pattern.value)
    case Plain => true
  }

  /** The prefix condition of a statement: none, or the name matches the prefix's LIKE pattern. */
  predicate PrefixSelects(prefix: Option<string>, name: string)
  {
    prefix.None? || Like(name, PrefixPattern(prefix.value))
  }

  /**
   * A built statement keeps a name iff it matches the prefix pattern and
   * sorts after the marker; for a prefix without LIKE syntax, matching the
   * pattern is having the prefix.
   */
  lemma StatementSelects(marker: Option<string>, prefix: Option<string>, limit: nat, name: string)
    ensures Selects(Statement(marker, prefix, limit), name)
        <==> PrefixSelects(prefix, name) && (marker.None? || LexLt(marker.value, name))
    ensures prefix.Some? && PlainText(prefix.value) ==> (PrefixSelects(prefix, name) <==> IsPrefix(prefix.value, name))
  {
    if prefix.Some? && PlainText(prefix.value) { LikePrefixPattern(name, prefix.value); }
  }

  /** The statement with the prefix escaped before the '%' is appended. */
  function EscapedStatement(marker: Option<string>, prefix: Option<string>, limit: nat): (s: ListStatement)
    ensures s.variant == Statement(marker, prefix, limit).variant && s.marker == marker && s.limit == limit
    ensures s.pattern == (if prefix.Some? then Some(EscapedPrefixPattern(prefix.value)) else None)
  {
    Statement(marker, prefix, limit).(pattern := if prefix.Some? then Some(EscapedPrefixPattern(prefix.value)) else None)
  }

  /** With the prefix escaped, a statement keeps a name iff it has the prefix and sorts after the marker. */
  lemma EscapedStatementSelects(marker: Option<string>, prefix: Option<string>, limit: nat, name: string)
    ensures Selects(EscapedStatement(marker, prefix, limit), name)
        <==> (prefix.None? || IsPrefix(prefix.value, name)) && (marker.None? || LexLt(marker.value, name))
  {
    if prefix.Some? { LikeEscapedPrefix(name, prefix.value); }
  }

  // ---- ordering ----

  predicate StrictlyAscending(s: seq<string>)
  {
    forall i, j :: 0 <= i < j < |s| ==> LexLt(s[i], s[j])
  }

  /** The least name of a finite non-empty set. */
  ghost function MinOf(names: set<string>): (m: string)
    requires names != {}
    ensures m in names
    ensures forall y :: y in names && y != m ==> LexLt(m, y)
    decreases |names|
  {
    var x :| x in names;
    if names == {x} then x
    else
      var rest := MinOf(names - {x});
      MinStep(names, x, rest);
      if LexLt(x, rest) then x else rest
  }

  lemma MinStep(names: set<string>, x: string, rest: string)
    requires x in names && rest in names - {x}
    requires forall y :: y in names - {x} && y != rest ==> LexLt(rest, y)
    ensures LexLt(x, rest) ==> forall y :: y in names && y != x ==> LexLt(x, y)
    ensures !LexLt(x, rest) ==> forall y :: y in names && y != rest ==> LexLt(rest, y)
  {
    if LexLt(x, rest) {
      forall y | y in names && y != x ensures LexLt(x, y) {
        if y != rest { LexLtTransitive(x, rest, y); }
      }
    } else {
      LexLtTotal(x, rest);
    }
  }

  /**
   * The first `limit` names of a set in ascending order: what
   * `ORDER BY name ASC LIMIT limit` returns.
   */
  ghost function Take(names: set<string>, limit: nat): (r: seq<string>)
    ensures |r| <= limit && |r| <= |names|
    ensures forall i :: 0 <= i < |r| ==> r[i] in names
    ensures StrictlyAscending(r)
    ensures forall n :: n in names && n !in r ==> |r| == limit && (|r| > 0 ==> LexLt(r[|r| - 1], n))
    decreases limit
  {
    if names == {} || limit == 0 then []
    else
      var m := MinOf(names);
      var rest := Take(names - {m}, limit - 1);
      TakeStep(names, limit, m, rest);
      [m] + rest
  }

  /** The least name in front of the first `limit - 1` of the others is the first `limit`. */
  lemma TakeStep(names: set<string>, limit: nat, m: string, rest: seq<string>)
    requires 0 < limit && m in names
    requires forall y :: y in names && y != m ==> LexLt(m, y)
    requires |rest| <= limit - 1 && |rest| <= |names - {m}|
    requires forall i :: 0 <= i < |rest| ==> rest[i] in names - {m}
    requires StrictlyAscending(rest)
    requires forall n :: n in names - {m} && n !in rest ==> |rest| == limit - 1 && (|rest| > 0 ==> LexLt(rest[|rest| - 1], n))
    ensures |[m] + rest| <= limit && |[m] + rest| <= |names|
    ensures forall i :: 0 <= i < |[m] + rest| ==> ([m] + rest)[i] in names
    ensures StrictlyAscending([m] + rest)
    ensures forall n :: n in names && n !in [m] + rest ==>
      |[m] + rest| == limit && LexLt(([m] + rest)[|[m] + rest| - 1], n)
  {
    var r := [m] + rest;
    assert |names - {m}| == |names| - 1;
    forall i, j | 0 <= i < j < |r| ensures LexLt(r[i], r[j]) {
      assert r[j] == rest[j - 1];
      if 0 < i {
        assert r[i] == rest[i - 1];
      }
    }
    forall n | n in names && n !in r ensures |r| == limit && LexLt(r[|r| - 1], n) {
      assert n in names - {m} && n !in rest;
      if |rest| > 0 {
        assert r[|r| - 1] == rest[|rest| - 1];
      }
    }
  }

  /** Every name of the set, in ascending order. */
  ghost function Sorted(names: set<string>): (r: seq<string>)
    ensures |r| == |names| && StrictlyAscending(r)
    ensures forall n :: n in names <==> n in r
  {
    var r := Take(names, |names|);
    forall n | n in names ensures n in r {
      if n !in r {
        SeqSubsetCard(r, names, n);
      }
    }
    var elems := set i | 0 <= i < |r| :: r[i];
    DistinctCard(r);
    assert names <= elems;
    SubsetCard(names, elems);
    r
  }

  lemma {:induction false} SubsetCard<T>(a: set<T>, b: set<T>)
    requires a <= b
    ensures |a| <= |b|
    decreases |a|
  {
    if a != {} {
      var x :| x in a;
      SubsetCard(a - {x}, b - {x});
    }
  }

  /** A duplicate-free sequence drawn from a set, missing one of its elements, is shorter than the set. */
  lemma SeqSubsetCard(r: seq<string>, names: set<string>, n: string)
    requires StrictlyAscending(r)
    requires forall i :: 0 <= i < |r| ==> r[i] in names
    requires n in names && n !in r
    ensures |r| < |names|
  {
    var elems := set i | 0 <= i < |r| :: r[i];
    DistinctCard(r);
    assert elems <= names - {n};
    SubsetCard(elems, names - {n});
  }

  lemma {:induction false} DistinctCard(r: seq<string>)
    requires StrictlyAscending(r)
    ensures |set i | 0 <= i < |r| :: r[i]| == |r|
    decreases |r|
  {
    if r != [] {
      var tail := r[1..];
      DistinctCard(tail);
      var all := set i | 0 <= i < |r| :: r[i];
      var rest := set i | 0 <= i < |tail| :: tail[i];
      assert all == {r[0]} + rest by {
        forall x | x in all ensures x in {r[0]} + rest {
          var i :| 0 <= i < |r| && r[i] == x;
          if i > 0 { assert tail[i - 1] == x; }
        }
        forall x | x in rest ensures x in all {
          var i :| 0 <= i < |tail| && tail[i] == x;
          assert r[i + 1] == x;
        }
      }
      assert r[0] !in rest by {
        if r[0] in rest {
          var i :| 0 <= i < |tail| && tail[i] == r[0];
          assert LexLt(r[0], r[i + 1]);
          LexLtIrreflexive(r[0]);
        }
      }
    }
  }

  /**
   * A page of a listing, stated without computing it: names from the set,
   * strictly ascending, at most `limit` of them, and every name left out
   * comes after the page, which is then full.
   */
  ghost predicate IsPage(names: set<string>, limit: nat, out: seq<string>)
  {
    (forall i :: 0 <= i < |out| ==> out[i] in names)
    && StrictlyAscending(out)
    && |out| <= limit
    && (forall n :: n in names && n !in out ==> |out| == limit && (|out| > 0 ==> LexLt(out[|out| - 1], n)))
  }

  /** A page starts with the least name. */
  lemma PageStartsAtMin(names: set<string>, limit: nat, out: seq<string>)
    requires IsPage(names, limit, out) && out != [] && names != {}
    ensures out[0] == MinOf(names)
  {
    var m := MinOf(names);
    if out[0] != m {
      assert LexLt(m, out[0]);
      if m in out {
        var k :| 0 <= k < |out| && out[k] == m;
        if k > 0 {
          assert LexLt(out[0], out[k]);
          LexLtTransitive(m, out[0], m);
        }
        LexLtIrreflexive(m);
      } else {
        assert LexLt(out[|out| - 1], m);
        if |out| > 1 {
          assert LexLt(out[0], out[|out| - 1]);
          LexLtTransitive(out[0], out[|out| - 1], m);
        }
        LexLtTransitive(m, out[0], m);
        LexLtIrreflexive(m);
      }
    }
  }

  /** Past its first name, a page is a page of the remaining names. */
  lemma PageTail(names: set<string>, limit: nat, out: seq<string>)
    requires IsPage(names, limit, out) && out != [] && names != {} && out[0] == MinOf(names)
    ensures limit > 0 && IsPage(names - {out[0]}, limit - 1, out[1..])
  {
    var m := out[0];
    var tail := out[1..];
    forall i | 0 <= i < |tail| ensures tail[i] in names - {m} {
      assert LexLt(out[0], out[i + 1]);
      LexLtIrreflexive(m);
    }
    forall n | n in names - {m} && n !in tail
      ensures |tail| == limit - 1 && (|tail| > 0 ==> LexLt(tail[|tail| - 1], n))
    {
      assert n !in out;
    }
  }

  /** A page of a non-empty set with room in it is not empty. */
  lemma PageNotEmpty(names: set<string>, limit: nat, out: seq<string>)
    requires IsPage(names, limit, out) && names != {} && limit > 0
    ensures out != []
  {
  }

  /** With nothing to list or no room, the page is empty. */
  lemma PageEmpty(names: set<string>, limit: nat, out: seq<string>)
    requires IsPage(names, limit, out) && (names == {} || limit == 0)
    ensures out == [] && Take(names, limit) == []
  {
    PageLength(names, limit, out);
  }

  /** A page holds no more names than the set it is drawn from. */
  lemma PageLength(names: set<string>, limit: nat, out: seq<string>)
    requires IsPage(names, limit, out)
    ensures |out| <= |names|
  {
    var elems := set i | 0 <= i < |out| :: out[i];
    DistinctCard(out);
    SubsetCard(elems, names);
  }

  /** A page is empty exactly when nothing matches or the limit is 0. */
  lemma TakeEmpty(names: set<string>, limit: nat)
    ensures Take(names, limit) == [] <==> names == {} || limit == 0
  {
    TakeIsPage(names, limit);
    if names != {} && limit > 0 {
      PageNotEmpty(names, limit, Take(names, limit));
    } else {
      PageEmpty(names, limit, Take(names, limit));
    }
  }

  /** One step of `Take`: the least name, then a page of the rest. */
  lemma TakeUnfold(names: set<string>, limit: nat)
    requires names != {} && limit > 0
    ensures Take(names, limit) == [MinOf(names)] + Take(names - {MinOf(names)}, limit - 1)
  {
  }

  /** Two pages of the same names and limit are the same sequence. */
  lemma {:induction false} PagesEqual(names: set<string>, limit: nat, a: seq<string>, b: seq<string>)
    requires IsPage(names, limit, a) && IsPage(names, limit, b)
    ensures a == b
    decreases limit
  {
    if names == {} || limit == 0 {
      PageEmpty(names, limit, a);
      PageEmpty(names, limit, b);
    } else {
      PageNotEmpty(names, limit, a);
      PageNotEmpty(names, limit, b);
      PageStartsAtMin(names, limit, a);
      PageStartsAtMin(names, limit, b);
      PageTail(names, limit, a);
      PageTail(names, limit, b);
      PagesEqual(names - {a[0]}, limit - 1, a[1..], b[1..]);
      assert a == [a[0]] + a[1..];
      assert b == [b[0]] + b[1..];
    }
  }

  /** There is exactly one page: whatever meets the description is `Take`. */
  lemma PageIsUnique(names: set<string>, limit: nat, out: seq<string>)
    requires IsPage(names, limit, out)
    ensures out == Take(names, limit)
  {
    TakeIsPage(names, limit);
    PagesEqual(names, limit, out, Take(names, limit));
  }

  /** `Take` meets the description of a page. */
  lemma TakeIsPage(names: set<string>, limit: nat)
    ensures IsPage(names, limit, Take(names, limit))
  {
  }

  /** The oldest server's `LIMIT limit OFFSET offset` over the sorted names. */
  ghost function OffsetPage(names: set<string>, offset: nat, limit: nat): (r: seq<string>)
    ensures |r| <= limit
    ensures forall i :: 0 <= i < |r| ==> r[i] in names
    ensures StrictlyAscending(r)
    ensures offset < |names| ==> |r| == if |names| - offset < limit then |names| - offset else limit
  {
    var all := Sorted(names);
    var rest := if offset <= |all| then all[offset..] else [];
    if |rest| <= limit then rest else rest[..limit]
  }

  /** The first page of the offset listing is the marker-free page of the current servers. */
  lemma {:induction false} FirstOffsetPageIsTake(names: set<string>, limit: nat)
    ensures OffsetPage(names, 0, limit) == Take(names, limit)
  {
    var r := OffsetPage(names, 0, limit);
    forall n | n in names && n !in r
      ensures |r| == limit && (|r| > 0 ==> LexLt(r[|r| - 1], n))
    {
      var all := Sorted(names);
      var k :| 0 <= k < |all| && all[k] == n;
      if |all| > limit && limit > 0 {
        assert r == all[..limit];
        assert k >= limit;
        assert LexLt(all[limit - 1], all[k]);
      }
    }
    PageIsUnique(names, limit, r);
  }

  // ---- the rows a statement returns ----

  /** The names in one bucket that a statement's WHERE clause keeps. */
  ghost function ObjectCandidates(table: map<ObjectKey, ObjectRecord>, owner: Uuid, bucketId: Uuid, s: ListStatement): set<string>
  {
    set k | k in table && k.owner == owner && k.bucketId == bucketId && Selects(s, k.name) :: k.name
  }

  /** The object rows a list statement returns, in order. */
  ghost function ObjectRows(table: map<ObjectKey, ObjectRecord>, owner: Uuid, bucketId: Uuid, s: ListStatement): (rows: seq<ObjectRecord>)
    ensures |rows| <= s.limit
  {
    var names := Take(ObjectCandidates(table, owner, bucketId, s), s.limit);
    seq(|names|, i requires 0 <= i < |names| =>
      var k := ObjectKey(owner, bucketId, names[i]);
      assert names[i] in ObjectCandidates(table, owner, bucketId, s);
      table[k])
  }

  /** The names of one owner's buckets that a statement's WHERE clause keeps. */
  ghost function BucketCandidates(table: map<BucketKey, BucketRecord>, owner: Uuid, s: ListStatement): set<string>
  {
    set k | k in table && k.owner == owner && Selects(s, k.name) :: k.name
  }

  /** The bucket rows a list statement returns, in order. */
  ghost function BucketRows(table: map<BucketKey, BucketRecord>, owner: Uuid, s: ListStatement): (rows: seq<BucketRecord>)
    ensures |rows| <= s.limit
  {
    var names := Take(BucketCandidates(table, owner, s), s.limit);
    seq(|names|, i requires 0 <= i < |names| =>
      var k := BucketKey(owner, names[i]);
      assert names[i] in BucketCandidates(table, owner, s);
      table[k])
  }

  /**
   * Listing objects: every row returned is in the requested bucket, matches
   * the prefix pattern, sorts after the marker, the rows are in strictly ascending name
   * order and there are at most `limit` of them. A matching row that is not
   * returned sorts after all returned rows, and the page is then full.
   */
  lemma ObjectListingSpec(table: map<ObjectKey, ObjectRecord>, owner: Uuid, bucketId: Uuid,
                          marker: Option<string>, prefix: Option<string>, limit: nat)
    requires forall k :: k in table ==> table[k].owner == k.owner && table[k].bucketId == k.bucketId && table[k].name == k.name
    ensures var rows := ObjectRows(table, owner, bucketId, Statement(marker, prefix, limit));
      && |rows| <= limit
      && (forall i :: 0 <= i < |rows| ==>
            rows[i].owner == owner && rows[i].bucketId == bucketId
            && PrefixSelects(prefix, rows[i].name)
            && (marker.None? || LexLt(marker.value, rows[i].name)))
      && (forall i, j :: 0 <= i < j < |rows| ==> LexLt(rows[i].name, rows[j].name))
      && (forall k :: k in table && k.owner == owner && k.bucketId == bucketId
            && PrefixSelects(prefix, k.name)
            && (marker.None? || LexLt(marker.value, k.name))
            && (forall i :: 0 <= i < |rows| ==> rows[i].name != k.name)
            ==> |rows| == limit && (|rows| > 0 ==> LexLt(rows[|rows| - 1].name, k.name)))
  {
    ObjectRowsFollowNames(table, owner, bucketId, Statement(marker, prefix, limit));
    ObjectListingSelected(table, owner, bucketId, marker, prefix, limit);
    ObjectListingComplete(table, owner, bucketId, marker, prefix, limit);
  }

  /** Every row an object listing returns is one the statement selects. */
  lemma ObjectListingSelected(table: map<ObjectKey, ObjectRecord>, owner: Uuid, bucketId: Uuid,
                              marker: Option<string>, prefix: Option<string>, limit: nat)
    requires forall k :: k in table ==> table[k].owner == k.owner && table[k].bucketId == k.bucketId && table[k].name == k.name
    ensures var rows := ObjectRows(table, owner, bucketId, Statement(marker, prefix, limit));
      forall i :: 0 <= i < |rows| ==>
        PrefixSelects(prefix, rows[i].name) && (marker.None? || LexLt(marker.value, rows[i].name))
  {
    var s := Statement(marker, prefix, limit);
    var names := Take(ObjectCandidates(table, owner, bucketId, s), limit);
    var rows := ObjectRows(table, owner, bucketId, s);
    ObjectRowsFollowNames(table, owner, bucketId, s);
    forall i | 0 <= i < |rows|
      ensures PrefixSelects(prefix, rows[i].name) && (marker.None? || LexLt(marker.value, rows[i].name))
    {
      StatementSelects(marker, prefix, limit, names[i]);
    }
  }

  /** A selected object that an object listing leaves out sorts after a full page. */
  lemma ObjectListingComplete(table: map<ObjectKey, ObjectRecord>, owner: Uuid, bucketId: Uuid,
                              marker: Option<string>, prefix: Option<string>, limit: nat)
    requires forall k :: k in table ==> table[k].owner == k.owner && table[k].bucketId == k.bucketId && table[k].name == k.name
    ensures var rows := ObjectRows(table, owner, bucketId, Statement(marker, prefix, limit));
      forall k :: k in table && k.owner == owner && k.bucketId == bucketId
            && PrefixSelects(prefix, k.name)
            && (marker.None? || LexLt(marker.value, k.name))
            && (forall i :: 0 <= i < |rows| ==> rows[i].name != k.name)
            ==> |rows| == limit && (|rows| > 0 ==> LexLt(rows[|rows| - 1].name, k.name))
  {
    var rows := ObjectRows(table, owner, bucketId, Statement(marker, prefix, limit));
    forall k | k in table && k.owner == owner && k.bucketId == bucketId
            && PrefixSelects(prefix, k.name)
            && (marker.None? || LexLt(marker.value, k.name))
            && (forall i :: 0 <= i < |rows| ==> rows[i].name != k.name)
      ensures |rows| == limit && (|rows| > 0 ==> LexLt(rows[|rows| - 1].name, k.name))
    {
      StatementSelects(marker, prefix, limit, k.name);
      ObjectLeftOut(table, owner, bucketId, Statement(marker, prefix, limit), k);
    }
  }

  /** A candidate missing from an object listing sorts after a full page. */
  lemma ObjectLeftOut(table: map<ObjectKey, ObjectRecord>, owner: Uuid, bucketId: Uuid, s: ListStatement, k: ObjectKey)
    requires forall k :: k in table ==> table[k].owner == k.owner && table[k].bucketId == k.bucketId && table[k].name == k.name
    requires k in table && k.owner == owner && k.bucketId == bucketId && Selects(s, k.name)
    requires var rows := ObjectRows(table, owner, bucketId, s);
      forall i :: 0 <= i < |rows| ==> rows[i].name != k.name
    ensures var rows := ObjectRows(table, owner, bucketId, s);
      |rows| == s.limit && (|rows| > 0 ==> LexLt(rows[|rows| - 1].name, k.name))
  {
    var names := Take(ObjectCandidates(table, owner, bucketId, s), s.limit);
    var rows := ObjectRows(table, owner, bucketId, s);
    ObjectRowsFollowNames(table, owner, bucketId, s);
    assert k.name in ObjectCandidates(table, owner, bucketId, s);
    assert k.name !in names by {
      forall i | 0 <= i < |names| ensures names[i] != k.name {
        assert rows[i].name == names[i];
      }
    }
  }

  /** The rows of an object listing are the listed names' rows, in the same order. */
  lemma ObjectRowsFollowNames(table: map<ObjectKey, ObjectRecord>, owner: Uuid, bucketId: Uuid, s: ListStatement)
    requires forall k :: k in table ==> table[k].owner == k.owner && table[k].bucketId == k.bucketId && table[k].name == k.name
    ensures var cands := ObjectCandidates(table, owner, bucketId, s);
      var names := Take(cands, s.limit);
      var rows := ObjectRows(table, owner, bucketId, s);
      && |rows| == |names|
      && (forall i :: 0 <= i < |rows| ==>
            rows[i].name == names[i] && names[i] in cands && rows[i].owner == owner && rows[i].bucketId == bucketId)
      && (forall i, j :: 0 <= i < j < |rows| ==> LexLt(rows[i].name, rows[j].name))
  {
    var cands := ObjectCandidates(table, owner, bucketId, s);
    var names := Take(cands, s.limit);
    var rows := ObjectRows(table, owner, bucketId, s);
    forall i | 0 <= i < |rows| ensures rows[i].name == names[i] && names[i] in cands {
      assert names[i] in cands;
    }
  }

  /** Listing buckets, stated like `ObjectListingSpec` for one owner's buckets. */
  lemma BucketListingSpec(table: map<BucketKey, BucketRecord>, owner: Uuid,
                          marker: Option<string>, prefix: Option<string>, limit: nat)
    requires forall k :: k in table ==> table[k].owner == k.owner && table[k].name == k.name
    ensures var rows := BucketRows(table, owner, Statement(marker, prefix, limit));
      && |rows| <= limit
      && (forall i :: 0 <= i < |rows| ==>
            rows[i].owner == owner
            && PrefixSelects(prefix, rows[i].name)
            && (marker.None? || LexLt(marker.value, rows[i].name)))
      && (forall i, j :: 0 <= i < j < |rows| ==> LexLt(rows[i].name, rows[j].name))
      && (forall k :: k in table && k.owner == owner
            && PrefixSelects(prefix, k.name)
            && (marker.None? || LexLt(marker.value, k.name))
            && (forall i :: 0 <= i < |rows| ==> rows[i].name != k.name)
            ==> |rows| == limit && (|rows| > 0 ==> LexLt(rows[|rows| - 1].name, k.name)))
  {
    BucketRowsFollowNames(table, owner, Statement(marker, prefix, limit));
    BucketListingSelected(table, owner, marker, prefix, limit);
    BucketListingComplete(table, owner, marker, prefix, limit);
  }

  /** Every row a bucket listing returns is one the statement selects. */
  lemma BucketListingSelected(table: map<BucketKey, BucketRecord>, owner: Uuid,
                              marker: Option<string>, prefix: Option<string>, limit: nat)
    requires forall k :: k in table ==> table[k].owner == k.owner && table[k].name == k.name
    ensures var rows := BucketRows(table, owner, Statement(marker, prefix, limit));
      forall i :: 0 <= i < |rows| ==>
        PrefixSelects(prefix, rows[i].name) && (marker.None? || LexLt(marker.value, rows[i].name))
  {
    var s := Statement(marker, prefix, limit);
    var names := Take(BucketCandidates(table, owner, s), limit);
    var rows := BucketRows(table, owner, s);
    BucketRowsFollowNames(table, owner, s);
    forall i | 0 <= i < |rows|
      ensures PrefixSelects(prefix, rows[i].name) && (marker.None? || LexLt(marker.value, rows[i].name))
    {
      StatementSelects(marker, prefix, limit, names[i]);
    }
  }

  /** A selected bucket that a bucket listing leaves out sorts after a full page. */
  lemma BucketListingComplete(table: map<BucketKey, BucketRecord>, owner: Uuid,
                              marker: Option<string>, prefix: Option<string>, limit: nat)
    requires forall k :: k in table ==> table[k].owner == k.owner && table[k].name == k.name
    ensures var rows := BucketRows(table, owner, Statement(marker, prefix, limit));
      forall k :: k in table && k.owner == owner
            && PrefixSelects(prefix, k.name)
            && (marker.None? || LexLt(marker.value, k.name))
            && (forall i :: 0 <= i < |rows| ==> rows[i].name != k.name)
            ==> |rows| == limit && (|rows| > 0 ==> LexLt(rows[|rows| - 1].name, k.name))
  {
    var rows := BucketRows(table, owner, Statement(marker, prefix, limit));
    forall k | k in table && k.owner == owner
            && PrefixSelects(prefix, k.name)
            && (marker.None? || LexLt(marker.value, k.name))
            && (forall i :: 0 <= i < |rows| ==> rows[i].name != k.name)
      ensures |rows| == limit && (|rows| > 0 ==> LexLt(rows[|rows| - 1].name, k.name))
    {
      StatementSelects(marker, prefix, limit, k.name);
      BucketLeftOut(table, owner, Statement(marker, prefix, limit), k);
    }
  }

  /** The rows of a bucket listing are the listed names' rows, in the same order. */
  lemma BucketRowsFollowNames(table: map<BucketKey, BucketRecord>, owner: Uuid, s: ListStatement)
    requires forall k :: k in table ==> table[k].owner == k.owner && table[k].name == k.name
    ensures var cands := BucketCandidates(table, owner, s);
      var names := Take(cands, s.limit);
      var rows := BucketRows(table, owner, s);
      && |rows| == |names|
      && (forall i :: 0 <= i < |rows| ==> rows[i].name == names[i] && names[i] in cands && rows[i].owner == owner)
      && (forall i, j :: 0 <= i < j < |rows| ==> LexLt(rows[i].name, rows[j].name))
  {
    var cands := BucketCandidates(table, owner, s);
    var names := Take(cands, s.limit);
    var rows := BucketRows(table, owner, s);
    forall i | 0 <= i < |rows| ensures rows[i].name == names[i] && names[i] in cands {
      assert names[i] in cands;
    }
  }

  /** A candidate missing from a bucket listing sorts after a full page. */
  lemma BucketLeftOut(table: map<BucketKey, BucketRecord>, owner: Uuid, s: ListStatement, k: BucketKey)
    requires forall k :: k in table ==> table[k].owner == k.owner && table[k].name == k.name
    requires k in table && k.owner == owner && Selects(s, k.name)
    requires var rows := BucketRows(table, owner, s);
      forall i :: 0 <= i < |rows| ==> rows[i].name != k.name
    ensures var rows := BucketRows(table, owner, s);
      |rows| == s.limit && (|rows| > 0 ==> LexLt(rows[|rows| - 1].name, k.name))
  {
    var names := Take(BucketCandidates(table, owner, s), s.limit);
    var rows := BucketRows(table, owner, s);
    BucketRowsFollowNames(table, owner, s);
    assert k.name in BucketCandidates(table, owner, s);
    assert k.name !in names by {
      forall i | 0 <= i < |names| ensures names[i] != k.name {
        assert rows[i].name == names[i];
      }
    }
  }

  // ---- the replies ----

  /** One data message per row value, in row order. */
  function RowMessages(rpc: string, values: seq<Json>): (r: seq<FastMessage>)
    ensures |r| == |values|
    ensures forall i :: 0 <= i < |r| ==> r[i] == Data(rpc, ArrayWrap(values[i]))
  {
    if values == [] then [] else [Data(rpc, ArrayWrap(values[0]))] + RowMessages(rpc, values[1..])
  }

  /**
   * The loop of `do_list` (and of the oldest server's list handlers): push one
   * message per row onto the messages gathered so far.
   */
  method PushRowMessages(rpc: string, msgs: seq<FastMessage>, values: seq<Json>) returns (out: seq<FastMessage>)
    ensures out == msgs + RowMessages(rpc, values)
  {
    out := msgs;
    var i := 0;
    while i < |values|
      invariant 0 <= i <= |values|
      invariant |out| == |msgs| + i
      invariant out[..|msgs|] == msgs
      invariant forall j :: 0 <= j < i ==> out[|msgs| + j] == Data(rpc, ArrayWrap(values[j]))
    {
      out := out + [Data(rpc, ArrayWrap(values[i]))];
      i := i + 1;
    }
  }

  /** What a list request did: the statement it ran, if any, and its reply. */
  datatype ListReply = ListReply(statement: Option<ListStatement>, msgs: seq<FastMessage>)

  /**
   * A list `action` of the current servers, given the rows (as JSON) or the
   * database error the statement would produce. A refused limit runs no
   * statement and answers one LimitConstraintError message; a database error
   * answers one PostgresError message; otherwise one message per row.
   */
  method ListAction(rpc: string, marker: Option<string>, prefix: Option<string>, limit: nat,
                    answer: Result<seq<Json>, string>) returns (reply: ListReply)
    ensures !LimitAccepted(limit) ==>
      reply == ListReply(None, [Data(rpc, ArrayWrap(ErrorJson(WithMessage(LimitConstraintError, LimitMessage(rpc, limit)))))])
    ensures LimitAccepted(limit) ==> reply.statement == Some(Statement(marker, prefix, limit))
    ensures LimitAccepted(limit) && answer.Err? ==>
      reply.msgs == [Data(rpc, ArrayWrap(ErrorJson(WithMessage(PostgresError, answer.error))))]
    ensures LimitAccepted(limit) && answer.Ok? ==> reply.msgs == RowMessages(rpc, answer.value)
  {
    if 0 < limit && limit <= MaxLimit {
      var statement := Statement(marker, prefix, limit);
      match answer {
        case Ok(values) =>
          var msgs := PushRowMessages(rpc, [], values);
          reply := ListReply(Some(statement), msgs);
        case Err(e) =>
          reply := ListReply(Some(statement), [Data(rpc, ArrayWrap(ErrorJson(WithMessage(PostgresError, e))))]);
      }
    } else {
      reply := ListReply(None, [Data(rpc, ArrayWrap(ErrorJson(WithMessage(LimitConstraintError, LimitMessage(rpc, limit)))))]);
    }
  }

  // ---- the oldest server ----

  /** What the oldest server's list handler does with a request, before any query. */
  datatype LegacyPlan =
    | Panics
    | Refused(message: string)
    | Query(pattern: string, orderBy: string, limit: nat, offset: nat)

  /**
   * The oldest server's list validation: the limit is asserted to lie in
   * 1..=1000 (a failed assertion panics the handler), then the sort column
   * must be "created" or "name", then the prefix becomes a LIKE pattern.
   */
  function LegacyListPlan(limit: nat, orderBy: string, prefix: string, offset: nat): (p: LegacyPlan)
    ensures p.Panics? <==> !(0 < limit <= LegacyMaxLimit)
    ensures p.Refused? <==> 0 < limit <= LegacyMaxLimit && orderBy != "created" && orderBy != "name"
    ensures p.Refused? ==> p.message == "Unexpected value for payload.order_by"
    ensures p.Query? ==> p == Query(PrefixPattern(prefix), orderBy, limit, offset) && (orderBy == "created" || orderBy == "name")
  {
    if limit == 0 then Panics
    else if limit > 1000 then Panics
    else if orderBy != "created" && orderBy != "name" then Refused("Unexpected value for payload.order_by")
    else Query(PrefixPattern(prefix), orderBy, limit, offset)
  }

  /** The names of one owner's buckets matching the LIKE pattern. */
  ghost function LegacyBucketCandidates(table: map<BucketKey, BucketRecord>, owner: Uuid, pattern: string): set<string>
  {
    set k | k in table && k.owner == owner && Like(k.name, pattern) :: k.name
  }

  /**
   * With `order_by = name`, the oldest server's `LIMIT limit OFFSET offset`
   * page: names matching the prefix pattern (for a prefix without LIKE
   * syntax, the names with the prefix), ascending, at most `limit`, and the
   * first page is exactly the current servers' page without a marker.
   */
  lemma LegacyBucketListingByName(table: map<BucketKey, BucketRecord>, owner: Uuid, prefix: string, limit: nat, offset: nat)
    requires LegacyListPlan(limit, "name", prefix, offset).Query?
    ensures var page := OffsetPage(LegacyBucketCandidates(table, owner, PrefixPattern(prefix)), offset, limit);
      && |page| <= limit <= LegacyMaxLimit
      && (forall i :: 0 <= i < |page| ==> Like(page[i], PrefixPattern(prefix)))
      && (PlainText(prefix) ==> forall i :: 0 <= i < |page| ==> IsPrefix(prefix, page[i]))
      && StrictlyAscending(page)
    ensures OffsetPage(LegacyBucketCandidates(table, owner, PrefixPattern(prefix)), 0, limit)
         == Take(BucketCandidates(table, owner, Statement(None, Some(prefix), limit)), limit)
  {
    var cands := LegacyBucketCandidates(table, owner, PrefixPattern(prefix));
    var page := OffsetPage(cands, offset, limit);
    forall i | 0 <= i < |page| ensures Like(page[i], PrefixPattern(prefix)) && (PlainText(prefix) ==> IsPrefix(prefix, page[i])) {
      assert page[i] in cands;
      if PlainText(prefix) { LikePrefixPattern(page[i], prefix); }
    }
    assert cands == BucketCandidates(table, owner, Statement(None, Some(prefix), limit)) by {
      forall n ensures n in cands <==> n in BucketCandidates(table, owner, Statement(None, Some(prefix), limit)) {
        StatementSelects(None, Some(prefix), limit, n);
      }
    }
    FirstOffsetPageIsTake(cands, limit);
  }

  /**
   * The oldest server's list handler after validation: an unwrapped query
   * error panics, otherwise one message per row is pushed onto `response`.
   */
  method LegacyList(rpc: string, response: seq<FastMessage>, plan: LegacyPlan, answer: Result<seq<Json>, string>)
    returns (outcome: LegacyOutcome)
    ensures plan.Panics? ==> outcome == Panicked
    ensures plan.Refused? ==> outcome == Failed(plan.message)
    ensures plan.Query? && answer.Err? ==> outcome == Panicked
    ensures plan.Query? && answer.Ok? ==> outcome == Replied(response + RowMessages(rpc, answer.value))
  {
    match plan {
      case Panics => outcome := Panicked;
      case Refused(m) => outcome := Failed(m);
      case Query(_, _, _, _) =>
        if answer.Err? {
          outcome := Panicked;
        } else {
          var msgs := PushRowMessages(rpc, response, answer.value);
          outcome := Replied(msgs);
        }
    }
  }
}
