/**
 * The migration runner of the schema manager. Migrations are SQL files in
 * a directory, applied in the sorted order of their paths. The public
 * migrations run once; each vnode migration is a template that is rendered
 * and run for every vnode, one migration after the other. The first
 * failure stops the run.
 *
 * The database is an oracle: it logs every statement it executes, and
 * `answer` says, from the statements before it, whether a statement fails
 * and with what text.
 */
module Migrations {

  import opened Wrappers
  import opened Text

  /** The database server: the statements it has executed, in order. */
  class Postgres {
    const answer: (seq<string>, string) -> Option<string>
    var executed: seq<string>

    constructor(answer: (seq<string>, string) -> Option<string>)
      ensures this.answer == answer && executed == []
    {
      this.answer := answer;
      executed := [];
    }

    /** `simple_query`: executes one statement; the error text, if it failed. */
    method SimpleQuery(stmt: string) returns (err: Option<string>)
      modifies this
      ensures executed == old(executed) + [stmt]
      ensures err == answer(old(executed), stmt)
    {
      err := answer(executed, stmt);
      executed := executed + [stmt];
    }
  }

  // ---- the migration files ----

  /** An entry of a directory listing: one that could not be read, or a path and whether it is a directory. */
  datatype DirEntry = Unreadable(reason: string) | Entry(path: string, isDir: bool)

  /** The paths of the readable entries that are not directories, in listing order. */
  function FilePaths(entries: seq<DirEntry>): (r: seq<string>)
    ensures forall p :: p in r <==> Entry(p, false) in entries
  {
    if entries == [] then []
    else
      var init := FilePaths(entries[..|entries| - 1]);
      var last := entries[|entries| - 1];
      assert entries == entries[..|entries| - 1] + [last];
      if last.Entry? && !last.isDir then init + [last.path] else init
  }

  /** The order of paths: equal or lexicographically before. */
  predicate LexLe(a: string, b: string)
  {
    a == b || LexLt(a, b)
  }

  lemma LexLeTransitive(a: string, b: string, c: string)
    requires LexLe(a, b) && LexLe(b, c)
    ensures LexLe(a, c)
  {
    if a != b && b != c {
      LexLtTransitive(a, b, c);
    }
  }

  predicate SortedPaths(s: seq<string>)
  {
    forall i, j :: 0 <= i < j < |s| ==> LexLe(s[i], s[j])
  }

  /** A sorted sequence stays sorted with an element in front that is before all of it. */
  lemma {:induction false} ConsSorted(y: string, s: seq<string>)
    requires SortedPaths(s)
    requires forall z :: z in s ==> LexLe(y, z)
    ensures SortedPaths([y] + s)
  {
    forall i, j | 0 <= i < j < |[y] + s|
      ensures LexLe(([y] + s)[i], ([y] + s)[j])
    {
      if i > 0 {
        assert ([y] + s)[i] == s[i - 1] && ([y] + s)[j] == s[j - 1];
      } else {
        assert ([y] + s)[j] == s[j - 1];
        assert s[j - 1] in s;
      }
    }
  }

  /** Insertion of one path into a sorted sequence. */
  function InsertPath(x: string, s: seq<string>): (r: seq<string>)
    requires SortedPaths(s)
    ensures SortedPaths(r)
    ensures multiset(r) == multiset(s) + multiset{x}
    decreases |s|
  {
    if s == [] then [x]
    else if LexLe(x, s[0]) then
      assert forall z :: z in s ==> LexLe(x, z) by {
        forall z | z in s ensures LexLe(x, z) {
          var j :| 0 <= j < |s| && s[j] == z;
          if j > 0 {
            LexLeTransitive(x, s[0], s[j]);
          }
        }
      }
      ConsSorted(x, s);
      [x] + s
    else
      var rest := InsertPath(x, s[1..]);
      assert s == [s[0]] + s[1..];
      assert forall z :: z in rest ==> LexLe(s[0], z) by {
        forall z | z in rest ensures LexLe(s[0], z) {
          assert z in multiset(rest);
          if z == x {
            LexLtTotal(x, s[0]);
          } else {
            assert z in multiset(s[1..]);
            var j :| 0 <= j < |s[1..]| && s[1..][j] == z;
            assert s[j + 1] == z;
          }
        }
      }
      ConsSorted(s[0], rest);
      [s[0]] + rest
  }

  /** `sorted()`: the paths in order. */
  function SortPaths(paths: seq<string>): (r: seq<string>)
    ensures SortedPaths(r)
    ensures multiset(r) == multiset(paths)
  {
    if paths == [] then []
    else
      assert paths == paths[..|paths| - 1] + [paths[|paths| - 1]];
      InsertPath(paths[|paths| - 1], SortPaths(paths[..|paths| - 1]))
  }

  /** The migration files of a directory: its readable non-directory entries, sorted by path. */
  function MigrationFiles(entries: seq<DirEntry>): (r: seq<string>)
    ensures SortedPaths(r)
    ensures forall p :: p in r <==> Entry(p, false) in entries
  {
    var files := FilePaths(entries);
    var r := SortPaths(files);
    assert forall p :: p in r <==> p in multiset(r);
    assert forall p :: p in files <==> p in multiset(files);
    r
  }

  // ---- the runs, as folds ----

  /** The state of a run: its result so far and the statements the database has executed. */
  datatype Run = Run(result: Result<(), string>, executed: seq<string>)

  /** The text every migration failure carries, for public and vnode migrations alike. */
  const MigrationFailure := "error on public schema migration: "

  /** One statement executed; a failure is reported with `context` in front of the database's text. */
  function Exec(answer: (seq<string>, string) -> Option<string>, executed: seq<string>, stmt: string, context: string): Run
  {
    var e := answer(executed, stmt);
    Run(if e.Some? then Err(context + e.value) else Ok(()), executed + [stmt])
  }

  /** The fold of `run_public_schema_migrations`: each file read and executed while all went well. */
  function PublicFold(answer: (seq<string>, string) -> Option<string>, start: Run, files: seq<string>,
                      read: string -> Result<string, string>): Run
  {
    if files == [] then start
    else
      var acc := PublicFold(answer, start, files[..|files| - 1], read);
      if acc.result.Err? then acc
      else
        match read(files[|files| - 1])
        case Err(e) => Run(Err(e), acc.executed)
        case Ok(sql) => Exec(answer, acc.executed, sql, MigrationFailure)
  }

  /** The inner fold of `run_vnode_schema_migrations`: one template over the vnodes. */
  function VnodeFold(answer: (seq<string>, string) -> Option<string>, start: Run, template: string,
                     vnodes: seq<string>, render: (string, string) -> string): Run
  {
    if vnodes == [] then start
    else
      var acc := VnodeFold(answer, start, template, vnodes[..|vnodes| - 1], render);
      if acc.result.Err? then acc
      else Exec(answer, acc.executed, render(template, vnodes[|vnodes| - 1]), MigrationFailure)
  }

  /** The outer fold of `run_vnode_schema_migrations`: each template, in file order. */
  function VnodeMigrationFold(answer: (seq<string>, string) -> Option<string>, start: Run, files: seq<string>,
                              vnodes: seq<string>, read: string -> Result<string, string>,
                              render: (string, string) -> string): Run
  {
    if files == [] then start
    else
      var acc := VnodeMigrationFold(answer, start, files[..|files| - 1], vnodes, read, render);
      if acc.result.Err? then acc
      else
        match read(files[|files| - 1])
        case Err(e) => Run(Err(e), acc.executed)
        case Ok(template) => VnodeFold(answer, Run(Ok(()), acc.executed), template, vnodes, render)
  }

  /** A whole public run: a listing error ends it before anything runs, else the fold over the sorted files. */
  function PublicRun(answer: (seq<string>, string) -> Option<string>, executed: seq<string>,
                     dir: Result<seq<DirEntry>, string>, read: string -> Result<string, string>): Run
  {
    match dir
    case Err(e) => Run(Err(e), executed)
    case Ok(entries) => PublicFold(answer, Run(Ok(()), executed), MigrationFiles(entries), read)
  }

  /** A whole vnode run: a listing error ends it before anything runs, else the migration-major fold. */
  function VnodeRun(answer: (seq<string>, string) -> Option<string>, executed: seq<string>, vnodes: seq<string>,
                    dir: Result<seq<DirEntry>, string>, read: string -> Result<string, string>,
                    render: (string, string) -> string): Run
  {
    match dir
    case Err(e) => Run(Err(e), executed)
    case Ok(entries) => VnodeMigrationFold(answer, Run(Ok(()), executed), MigrationFiles(entries), vnodes, read, render)
  }

  // ---- the runs, as the loops they are ----

  /**
   * `run_public_schema_migrations`: list the directory, then apply the
   * migration files in order until one cannot be read or fails.
   */
  method RunPublicSchemaMigrations(conn: Postgres, dir: Result<seq<DirEntry>, string>, read: string -> Result<string, string>)
    returns (r: Result<(), string>)
    modifies conn
    ensures dir.Err? ==> r == Err(dir.error) && conn.executed == old(conn.executed)
    ensures dir.Ok? ==>
      Run(r, conn.executed) == PublicFold(conn.answer, Run(Ok(()), old(conn.executed)), MigrationFiles(dir.value), read)
    ensures Run(r, conn.executed) == PublicRun(conn.answer, old(conn.executed), dir, read)
  {
    if dir.Err? {
      return Err(dir.error);
    }
    r := ApplyPublicMigrations(conn, MigrationFiles(dir.value), read);
  }

  /** The loop of `run_public_schema_migrations`: each file read and run, until one cannot be read or fails. */
  method ApplyPublicMigrations(conn: Postgres, files: seq<string>, read: string -> Result<string, string>)
    returns (r: Result<(), string>)
    modifies conn
    ensures Run(r, conn.executed) == PublicFold(conn.answer, Run(Ok(()), old(conn.executed)), files, read)
  {
    var acc: Result<(), string> := Ok(());
    for i := 0 to |files|
      invariant Run(acc, conn.executed) == PublicFold(conn.answer, Run(Ok(()), old(conn.executed)), files[..i], read)
    {
      assert files[..i + 1][..i] == files[..i];
      if acc.Ok? {
        var contents := read(files[i]);
        if contents.Err? {
          acc := Err(contents.error);
        } else {
          var e := conn.SimpleQuery(contents.value);
          acc := if e.Some? then Err(MigrationFailure + e.value) else Ok(());
        }
      }
    }
    assert files[..|files|] == files;
    r := acc;
  }

  /** The inner loop: one migration template rendered and run for each vnode until one fails. */
  method RunTemplate(conn: Postgres, template: string, vnodes: seq<string>, render: (string, string) -> string)
    returns (r: Result<(), string>)
    modifies conn
    ensures Run(r, conn.executed) == VnodeFold(conn.answer, Run(Ok(()), old(conn.executed)), template, vnodes, render)
  {
    r := Ok(());
    for k := 0 to |vnodes|
      invariant Run(r, conn.executed) == VnodeFold(conn.answer, Run(Ok(()), old(conn.executed)), template, vnodes[..k], render)
    {
      assert vnodes[..k + 1][..k] == vnodes[..k];
      if r.Ok? {
        var e := conn.SimpleQuery(render(template, vnodes[k]));
        r := if e.Some? then Err(MigrationFailure + e.value) else Ok(());
      }
    }
    assert vnodes[..|vnodes|] == vnodes;
  }

  /**
   * `run_vnode_schema_migrations`: list the directory, then for each
   * migration file in order run its template for every vnode, until a file
   * cannot be read or a statement fails.
   */
  method RunVnodeSchemaMigrations(conn: Postgres, vnodes: seq<string>, dir: Result<seq<DirEntry>, string>,
                                  read: string -> Result<string, string>, render: (string, string) -> string)
    returns (r: Result<(), string>)
    modifies conn
    ensures dir.Err? ==> r == Err(dir.error) && conn.executed == old(conn.executed)
    ensures dir.Ok? ==>
      Run(r, conn.executed) ==
      VnodeMigrationFold(conn.answer, Run(Ok(()), old(conn.executed)), MigrationFiles(dir.value), vnodes, read, render)
    ensures Run(r, conn.executed) == VnodeRun(conn.answer, old(conn.executed), vnodes, dir, read, render)
  {
    if dir.Err? {
      return Err(dir.error);
    }
    var files := MigrationFiles(dir.value);
    var acc: Result<(), string> := Ok(());
    for i := 0 to |files|
      invariant Run(acc, conn.executed) ==
        VnodeMigrationFold(conn.answer, Run(Ok(()), old(conn.executed)), files[..i], vnodes, read, render)
    {
      assert files[..i + 1][..i] == files[..i];
      if acc.Ok? {
        var contents := read(files[i]);
        if contents.Err? {
          acc := Err(contents.error);
        } else {
          acc := RunTemplate(conn, contents.value, vnodes, render);
        }
      }
    }
    assert files[..|files|] == files;
    r := acc;
  }

  // ---- properties of the folds ----

  /** Once a public run has failed, the later files change nothing: none is read or executed. */
  lemma {:induction false} PublicStopsAtFirstFailure(answer: (seq<string>, string) -> Option<string>, start: Run,
                                                     files: seq<string>, k: nat, read: string -> Result<string, string>)
    requires k <= |files|
    requires PublicFold(answer, start, files[..k], read).result.Err?
    ensures PublicFold(answer, start, files, read) == PublicFold(answer, start, files[..k], read)
    decreases |files| - k
  {
    if k < |files| {
      assert files[..k + 1][..k] == files[..k];
      PublicStopsAtFirstFailure(answer, start, files, k + 1, read);
    } else {
      assert files[..k] == files;
    }
  }

  /** The contents of every file, when all can be read. */
  function ReadAll(files: seq<string>, read: string -> Result<string, string>): (r: Option<seq<string>>)
    ensures r.Some? ==> |r.value| == |files| && forall i :: 0 <= i < |files| ==> read(files[i]) == Ok(r.value[i])
    ensures r.None? ==> exists i :: 0 <= i < |files| && read(files[i]).Err?
  {
    if files == [] then Some([])
    else
      match ReadAll(files[..|files| - 1], read)
      case None => None
      case Some(init) =>
        match read(files[|files| - 1])
        case Err(_) => None
        case Ok(last) => Some(init + [last])
  }

  /** Every statement accepted by the database, each seeing the ones before it. */
  predicate AllAccepted(answer: (seq<string>, string) -> Option<string>, before: seq<string>, stmts: seq<string>)
  {
    forall i :: 0 <= i < |stmts| ==> answer(before + stmts[..i], stmts[i]).None?
  }

  lemma AllAcceptedSnoc(answer: (seq<string>, string) -> Option<string>, before: seq<string>, s: seq<string>, x: string)
    ensures AllAccepted(answer, before, s + [x]) <==> AllAccepted(answer, before, s) && answer(before + s, x).None?
  {
    var t := s + [x];
    assert t[..|s|] == s;
    forall i | 0 <= i < |s|
      ensures t[..i] == s[..i] && t[i] == s[i]
    {
    }
  }

  /**
   * A public run succeeds exactly when every file can be read and the
   * database accepts every one of them; then it has executed them all, in
   * order.
   */
  lemma {:induction false} PublicOkIffAllApplied(answer: (seq<string>, string) -> Option<string>, before: seq<string>,
                                                 files: seq<string>, read: string -> Result<string, string>)
    ensures PublicFold(answer, Run(Ok(()), before), files, read).result.Ok? <==>
      ReadAll(files, read).Some? && AllAccepted(answer, before, ReadAll(files, read).value)
    ensures PublicFold(answer, Run(Ok(()), before), files, read).result.Ok? ==>
      PublicFold(answer, Run(Ok(()), before), files, read).executed == before + ReadAll(files, read).value
  {
    if files != [] {
      var init := files[..|files| - 1];
      PublicOkIffAllApplied(answer, before, init, read);
      var acc := PublicFold(answer, Run(Ok(()), before), init, read);
      var all := ReadAll(files, read);
      var some := ReadAll(init, read);
      if all.Some? {
        var stmts := all.value;
        assert some.Some? && stmts == some.value + [stmts[|stmts| - 1]];
        assert stmts[..|stmts| - 1] == some.value;
        AllAcceptedSnoc(answer, before, some.value, stmts[|stmts| - 1]);
      }
    }
  }

  /** The statements one template gives: its rendering for each vnode, in vnode order. */
  function Rendered(template: string, vnodes: seq<string>, render: (string, string) -> string): (r: seq<string>)
    ensures |r| == |vnodes| && forall k :: 0 <= k < |vnodes| ==> r[k] == render(template, vnodes[k])
  {
    if vnodes == [] then [] else Rendered(template, vnodes[..|vnodes| - 1], render) + [render(template, vnodes[|vnodes| - 1])]
  }

  /** The statements of a whole vnode run, migration-major: all vnodes of one template before the next. */
  function MigrationMajor(templates: seq<string>, vnodes: seq<string>, render: (string, string) -> string): seq<string>
  {
    if templates == [] then []
    else MigrationMajor(templates[..|templates| - 1], vnodes, render) + Rendered(templates[|templates| - 1], vnodes, render)
  }

  /** A template run that succeeds has executed its rendering for every vnode, in order. */
  lemma {:induction false} VnodeFoldOk(answer: (seq<string>, string) -> Option<string>, before: seq<string>, template: string,
                                       vnodes: seq<string>, render: (string, string) -> string)
    ensures VnodeFold(answer, Run(Ok(()), before), template, vnodes, render).result.Ok? ==>
      VnodeFold(answer, Run(Ok(()), before), template, vnodes, render).executed == before + Rendered(template, vnodes, render)
  {
    if vnodes != [] {
      VnodeFoldOk(answer, before, template, vnodes[..|vnodes| - 1], render);
    }
  }

  /**
   * A vnode run that succeeds has read every template and executed them
   * migration-major: for each migration, every vnode in the given order,
   * before the next migration.
   */
  lemma {:induction false} VnodeRunOrder(answer: (seq<string>, string) -> Option<string>, before: seq<string>,
                                         files: seq<string>, vnodes: seq<string>, read: string -> Result<string, string>,
                                         render: (string, string) -> string)
    ensures VnodeMigrationFold(answer, Run(Ok(()), before), files, vnodes, read, render).result.Ok? ==>
      && ReadAll(files, read).Some?
      && VnodeMigrationFold(answer, Run(Ok(()), before), files, vnodes, read, render).executed ==
         before + MigrationMajor(ReadAll(files, read).value, vnodes, render)
  {
    if files != [] {
      var init := files[..|files| - 1];
      VnodeRunOrder(answer, before, init, vnodes, read, render);
      var acc := VnodeMigrationFold(answer, Run(Ok(()), before), init, vnodes, read, render);
      if acc.result.Ok? && read(files[|files| - 1]).Ok? {
        var template := read(files[|files| - 1]).value;
        VnodeFoldOk(answer, acc.executed, template, vnodes, render);
        var templates := ReadAll(files, read).value;
        assert templates[..|templates| - 1] == ReadAll(init, read).value;
      }
    }
  }

  /** Once a vnode run has failed, the later migrations change nothing: none is read or executed. */
  lemma {:induction false} VnodeStopsAtFirstFailure(answer: (seq<string>, string) -> Option<string>, start: Run,
                                                    files: seq<string>, k: nat, vnodes: seq<string>,
                                                    read: string -> Result<string, string>, render: (string, string) -> string)
    requires k <= |files|
    requires VnodeMigrationFold(answer, start, files[..k], vnodes, read, render).result.Err?
    ensures VnodeMigrationFold(answer, start, files, vnodes, read, render) ==
      VnodeMigrationFold(answer, start, files[..k], vnodes, read, render)
    decreases |files| - k
  {
    if k < |files| {
      assert files[..k + 1][..k] == files[..k];
      VnodeStopsAtFirstFailure(answer, start, files, k + 1, vnodes, read, render);
    } else {
      assert files[..k] == files;
    }
  }

  /** Within one migration, once a vnode has failed, the later vnodes are not run. */
  lemma {:induction false} TemplateStopsAtFirstFailure(answer: (seq<string>, string) -> Option<string>, start: Run,
                                                       template: string, vnodes: seq<string>, k: nat,
                                                       render: (string, string) -> string)
    requires k <= |vnodes|
    requires VnodeFold(answer, start, template, vnodes[..k], render).result.Err?
    ensures VnodeFold(answer, start, template, vnodes, render) == VnodeFold(answer, start, template, vnodes[..k], render)
    decreases |vnodes| - k
  {
    if k < |vnodes| {
      assert vnodes[..k + 1][..k] == vnodes[..k];
      TemplateStopsAtFirstFailure(answer, start, template, vnodes, k + 1, render);
    } else {
      assert vnodes[..k] == vnodes;
    }
  }

  /** With no vnodes, a vnode run executes nothing; it fails only if a migration file cannot be read. */
  lemma {:induction false} NoVnodesNoStatements(answer: (seq<string>, string) -> Option<string>, before: seq<string>,
                                                files: seq<string>, read: string -> Result<string, string>,
                                                render: (string, string) -> string)
    ensures VnodeMigrationFold(answer, Run(Ok(()), before), files, [], read, render).executed == before
    ensures VnodeMigrationFold(answer, Run(Ok(()), before), files, [], read, render).result.Ok? <==>
      ReadAll(files, read).Some?
  {
    if files != [] {
      NoVnodesNoStatements(answer, before, files[..|files| - 1], read, render);
    }
  }
}
