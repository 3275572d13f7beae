/**
 * Database setup by the schema manager: create the role and the database
 * (both re-runnable), work out the TLS configuration, claim a connection
 * to the new database, create every vnode's schema from a template, then
 * run the public and the vnode migrations.
 */
module SchemaSetup {

  import opened Wrappers
  import opened Text
  import opened Migrations
  import Config

  const SchemaTemplate := "schema.in"
  const AdminTemplate := "admin.in"
  const DbTemplate := "db.in"

  /** The path of a template file: the template directory, a slash, the file name. */
  function TemplatePath(dir: string, file: string): (p: string)
    ensures IsPrefix(dir + "/", p) && p[|dir| + 1..] == file
  {
    var p := dir + "/" + file;
    assert p[..|dir| + 1] == dir + "/";
    p
  }

  /** The three templates are read from three different files of the same directory. */
  lemma TemplatePathsDistinct(dir: string)
    ensures TemplatePath(dir, SchemaTemplate) != TemplatePath(dir, AdminTemplate)
    ensures TemplatePath(dir, SchemaTemplate) != TemplatePath(dir, DbTemplate)
    ensures TemplatePath(dir, AdminTemplate) != TemplatePath(dir, DbTemplate)
  {
    var s, a, d := TemplatePath(dir, SchemaTemplate), TemplatePath(dir, AdminTemplate), TemplatePath(dir, DbTemplate);
    assert s[|dir| + 1..] != a[|dir| + 1..] && s[|dir| + 1..] != d[|dir| + 1..] && a[|dir| + 1..] != d[|dir| + 1..];
  }

  /**
   * `Path::join` of a relative name onto a directory: the path ends with
   * the name, and a non-empty directory starts it, separated from the name
   * by exactly one '/' (its own trailing one, or one added).
   */
  function JoinPath(dir: string, name: string): (p: string)
    ensures |p| >= |name| && p[|p| - |name|..] == name
    ensures dir != [] ==> |p| > |name| && p[|p| - |name| - 1] == '/'
    ensures dir != [] ==> p[..|p| - |name|] == dir || p[..|p| - |name|] == dir + "/"
    ensures dir != [] ==> |p| <= |dir| + 1 + |name| && p[..|dir|] == dir
    ensures dir == [] ==> p == name
    ensures dir != [] && dir[|dir| - 1] == '/' ==> p == dir + name
    ensures dir != [] && dir[|dir| - 1] != '/' ==> p == dir + "/" + name
  {
    if dir == [] then name
    else if dir[|dir| - 1] == '/' then dir + name
    else dir + "/" + name
  }

  /** The text that makes a failed creation count as done. */
  const AlreadyExists := "already exists"

  /**
   * `db_create_object`: run a creation statement; an error whose text
   * says the object already exists counts as success, so the creation can
   * be run again.
   */
  method DbCreateObject(conn: Postgres, sql: string) returns (r: Result<(), string>)
    modifies conn
    ensures conn.executed == old(conn.executed) + [sql]
    ensures r.Ok? <==> (conn.answer(old(conn.executed), sql).None? || Contains(conn.answer(old(conn.executed), sql).value, AlreadyExists))
    ensures r.Err? ==> r.error == conn.answer(old(conn.executed), sql).value
  {
    var e := conn.SimpleQuery(sql);
    if e.Some? && !Contains(e.value, AlreadyExists) {
      r := Err(e.value);
    } else {
      r := Ok(());
    }
  }

  const RoleContext := "error on role creation: "
  const DatabaseContext := "error on database creation: "

  /**
   * What `create_user_role` or `create_database` does after the statements
   * `executed`: its outcome, and the statements executed once it is done.
   */
  function CreateStep(answer: (seq<string>, string) -> Option<string>, executed: seq<string>, path: string,
                      context: string, read: string -> Result<string, string>): Run
  {
    match read(path)
    case Err(e) => Run(Err(e), executed)
    case Ok(sql) =>
      var e := answer(executed, sql);
      Run(if e.Some? && !Contains(e.value, AlreadyExists) then Err(context + e.value) else Ok(()), executed + [sql])
  }

  /**
   * `create_user_role` and `create_database`: read the template, then
   * create what it describes; a failed creation is reported with `context`
   * in front.
   */
  method CreateFromTemplate(conn: Postgres, path: string, context: string, read: string -> Result<string, string>)
    returns (r: Result<(), string>)
    modifies conn
    ensures read(path).Err? ==> r == Err(read(path).error) && conn.executed == old(conn.executed)
    ensures read(path).Ok? ==>
      var sql := read(path).value;
      var e := conn.answer(old(conn.executed), sql);
      && conn.executed == old(conn.executed) + [sql]
      && (r.Ok? <==> e.None? || Contains(e.value, AlreadyExists))
      && (r.Err? ==> r.error == context + e.value)
    ensures Run(r, conn.executed) == CreateStep(conn.answer, old(conn.executed), path, context, read)
  {
    var contents := read(path);
    if contents.Err? {
      return Err(contents.error);
    }
    var created := DbCreateObject(conn, contents.value);
    if created.Err? {
      return Err(context + created.error);
    }
    r := Ok(());
  }

  function SchemaFailure(e: string, vnode: string): string
  {
    "error on schema creation: " + e + ", vnode: " + vnode
  }

  /** The outcome the vnode-schema loop reports: only the last vnode's. */
  function LastVnodeResult(answer: (seq<string>, string) -> Option<string>, before: seq<string>, template: string,
                           vnodes: seq<string>, render: (string, string) -> string): Result<(), string>
  {
    if vnodes == [] then Ok(())
    else
      var last := vnodes[|vnodes| - 1];
      var e := answer(before + Rendered(template, vnodes[..|vnodes| - 1], render), render(template, last));
      if e.Some? then Err(SchemaFailure(e.value, last)) else Ok(())
  }

  /**
   * The vnode-schema loop: every vnode's schema is attempted, each the
   * schema template rendered for that vnode, and each attempt replaces the
   * result of the one before.
   */
  method CreateVnodeSchemas(conn: Postgres, template: string, vnodes: seq<string>, render: (string, string) -> string)
    returns (r: Result<(), string>)
    modifies conn
    ensures conn.executed == old(conn.executed) + Rendered(template, vnodes, render)
    ensures r == LastVnodeResult(conn.answer, old(conn.executed), template, vnodes, render)
  {
    r := Ok(());
    for k := 0 to |vnodes|
      invariant conn.executed == old(conn.executed) + Rendered(template, vnodes[..k], render)
      invariant r == LastVnodeResult(conn.answer, old(conn.executed), template, vnodes[..k], render)
    {
      assert vnodes[..k + 1][..k] == vnodes[..k];
      var e := conn.SimpleQuery(render(template, vnodes[k]));
      r := if e.Some? then Err(SchemaFailure(e.value, vnodes[k])) else Ok(());
    }
    assert vnodes[..|vnodes|] == vnodes;
  }

  /** A failed schema is not reported when the vnode after it succeeds. */
  lemma SchemaFailureMasked(answer: (seq<string>, string) -> Option<string>, before: seq<string>, template: string,
                            a: string, b: string, render: (string, string) -> string)
    requires answer(before, render(template, a)).Some?
    requires answer(before + [render(template, a)], render(template, b)).None?
    ensures LastVnodeResult(answer, before, template, [a, b], render) == Ok(())
  {
    assert [a, b][..1] == [a];
    assert Rendered(template, [a], render) == [render(template, a)];
  }

  /** The stages of the setup, in the order they run. */
  datatype Stage =
    | ReadSchemaTemplate | CreateRole | CreateDatabase | ConfigureTls
    | ClaimConnection | CreateSchemas | PublicMigrations | VnodeMigrations

  const AllStages := [ReadSchemaTemplate, CreateRole, CreateDatabase, ConfigureTls,
                      ClaimConnection, CreateSchemas, PublicMigrations, VnodeMigrations]

  /** How the stages between reading the schema template and creating the schemas end. */
  datatype Prepared = Prepared(failure: Option<string>, stages: nat, executed: seq<string>)

  /**
   * The role, the database, the TLS configuration and the claimed
   * connection, stopping at the first that fails: its error, the number of
   * stages run (the reading of the schema template included) and the
   * statements executed.
   */
  function PrepareSpec(answer: (seq<string>, string) -> Option<string>, before: seq<string>, templateDir: string,
                       tlsMode: Config.TlsConnectMode, certificate: Option<string>,
                       loadCert: string -> Result<Config.Certificate, Config.TlsError>, claim: Result<(), string>,
                       read: string -> Result<string, string>): Prepared
  {
    var role := CreateStep(answer, before, TemplatePath(templateDir, AdminTemplate), RoleContext, read);
    if role.result.Err? then Prepared(Some(role.result.error), 2, role.executed)
    else
      var database := CreateStep(answer, role.executed, TemplatePath(templateDir, DbTemplate), DatabaseContext, read);
      if database.result.Err? then Prepared(Some(database.result.error), 3, database.executed)
      else
        var tls := Config.TlsConfigOf(tlsMode, certificate, loadCert);
        if tls.Err? then Prepared(Some(Config.TlsErrorText(tls.error)), 4, database.executed)
        else if claim.Err? then Prepared(Some(claim.error), 5, database.executed)
        else Prepared(None, 5, database.executed)
  }

  /**
   * The stages between reading the schema template and creating the
   * schemas: the role, the database, the TLS configuration and the claimed
   * connection. `failure` is the error of the first that fails and
   * `stages` counts the stages run, the reading of the template included.
   */
  method Prepare(conn: Postgres, templateDir: string, tlsMode: Config.TlsConnectMode, certificate: Option<string>,
                 loadCert: string -> Result<Config.Certificate, Config.TlsError>, claim: Result<(), string>,
                 read: string -> Result<string, string>)
    returns (failure: Option<string>, stages: nat)
    modifies conn
    ensures failure.Some? ==> 2 <= stages <= 5
    ensures failure.None? ==> stages == 5
    ensures stages > 4 ==> Config.TlsConfigOf(tlsMode, certificate, loadCert).Ok?
    ensures failure.Some? && stages == 4 ==>
      Config.TlsConfigOf(tlsMode, certificate, loadCert).Err?
      && failure.value == Config.TlsErrorText(Config.TlsConfigOf(tlsMode, certificate, loadCert).error)
    ensures failure.None? ==> claim.Ok?
    ensures failure.Some? && stages == 5 ==> claim.Err? && failure.value == claim.error
    ensures Prepared(failure, stages, conn.executed)
         == PrepareSpec(conn.answer, old(conn.executed), templateDir, tlsMode, certificate, loadCert, claim, read)
  {
    var role := CreateFromTemplate(conn, TemplatePath(templateDir, AdminTemplate), RoleContext, read);
    if role.Err? {
      return Some(role.error), 2;
    }
    var database := CreateFromTemplate(conn, TemplatePath(templateDir, DbTemplate), DatabaseContext, read);
    if database.Err? {
      return Some(database.error), 3;
    }
    var tls := Config.TlsConfigOf(tlsMode, certificate, loadCert);
    if tls.Err? {
      return Some(Config.TlsErrorText(tls.error)), 4;
    }
    if claim.Err? {
      return Some(claim.error), 5;
    }
    failure, stages := None, 5;
  }

  /** How the setup ends: with a result, or with a panic. */
  datatype Setup = Finished(result: Result<(), string>) | Panicked(reason: string)

  /** A whole setup: how it ends, how many stages ran, and the statements executed. */
  datatype Outcome = Outcome(setup: Setup, stages: nat, executed: seq<string>)

  /**
   * `create_bucket_schemas` as a function of what the database answers,
   * the file reads and listings, and the TLS and claim outcomes: the stages
   * in order, each run only when all before it succeeded.
   */
  function SetupSpec(answer: (seq<string>, string) -> Option<string>, before: seq<string>,
                     tlsMode: Config.TlsConnectMode, certificate: Option<string>,
                     loadCert: string -> Result<Config.Certificate, Config.TlsError>,
                     claim: Result<(), string>, templateDir: string, migrationsDir: string,
                     vnodes: seq<string>, read: string -> Result<string, string>,
                     list: string -> Result<seq<DirEntry>, string>, render: (string, string) -> string): Outcome
  {
    var schema := read(TemplatePath(templateDir, SchemaTemplate));
    if schema.Err? then Outcome(Finished(Err(schema.error)), 1, before)
    else
      var prepared := PrepareSpec(answer, before, templateDir, tlsMode, certificate, loadCert, claim, read);
      if prepared.failure.Some? then Outcome(Finished(Err(prepared.failure.value)), prepared.stages, prepared.executed)
      else
        var schemas := LastVnodeResult(answer, prepared.executed, schema.value, vnodes, render);
        var created := prepared.executed + Rendered(schema.value, vnodes, render);
        if schemas.Err? then Outcome(Finished(schemas), 6, created)
        else
          var public := PublicRun(answer, created, list(JoinPath(migrationsDir, "public")), read);
          if public.result.Err? then Outcome(Panicked(public.result.error), 7, public.executed)
          else
            var vnode := VnodeRun(answer, public.executed, vnodes, list(JoinPath(migrationsDir, "vnode")), read, render);
            Outcome(Finished(vnode.result), 8, vnode.executed)
  }

  /**
   * `create_bucket_schemas`: run the stages in order, stopping at the first
   * that fails. `reached` is the stages that ran, the last being the one
   * that ended the setup. A failed public migration panics instead of
   * returning its error. `claim` is the outcome of claiming a connection
   * from the pool, `list` the directory listing and `read` the file reads.
   */
  method CreateBucketSchemas(conn: Postgres, tlsMode: Config.TlsConnectMode, certificate: Option<string>,
                             loadCert: string -> Result<Config.Certificate, Config.TlsError>,
                             claim: Result<(), string>, templateDir: string, migrationsDir: string,
                             vnodes: seq<string>, read: string -> Result<string, string>,
                             list: string -> Result<seq<DirEntry>, string>, render: (string, string) -> string)
    returns (r: Setup, reached: seq<Stage>)
    modifies conn
    ensures 1 <= |reached| <= |AllStages| && reached == AllStages[..|reached|]
    ensures r == Finished(Ok(())) ==> reached == AllStages
    ensures r.Panicked? <==> reached == AllStages[..7]
    ensures read(TemplatePath(templateDir, SchemaTemplate)).Err? ==>
      r == Finished(Err(read(TemplatePath(templateDir, SchemaTemplate)).error))
      && reached == [ReadSchemaTemplate] && conn.executed == old(conn.executed)
    ensures |reached| > 4 ==> Config.TlsConfigOf(tlsMode, certificate, loadCert).Ok?
    ensures reached == AllStages[..4] ==>
      Config.TlsConfigOf(tlsMode, certificate, loadCert).Err?
      && r == Finished(Err(Config.TlsErrorText(Config.TlsConfigOf(tlsMode, certificate, loadCert).error)))
    ensures |reached| > 5 ==> claim.Ok?
    ensures reached == AllStages[..5] ==> claim.Err? && r == Finished(Err(claim.error))
    ensures Outcome(r, |reached|, conn.executed) == SetupSpec(conn.answer, old(conn.executed), tlsMode, certificate,
                                                              loadCert, claim, templateDir, migrationsDir, vnodes,
                                                              read, list, render)
  {
    var schema := read(TemplatePath(templateDir, SchemaTemplate));
    if schema.Err? {
      return Finished(Err(schema.error)), AllStages[..1];
    }
    var failure, stages := Prepare(conn, templateDir, tlsMode, certificate, loadCert, claim, read);
    if failure.Some? {
      return Finished(Err(failure.value)), AllStages[..stages];
    }
    var schemas := CreateVnodeSchemas(conn, schema.value, vnodes, render);
    if schemas.Err? {
      return Finished(schemas), AllStages[..6];
    }
    var public := RunPublicSchemaMigrations(conn, list(JoinPath(migrationsDir, "public")), read);
    if public.Err? {
      return Panicked(public.error), AllStages[..7];
    }
    var vnode := RunVnodeSchemaMigrations(conn, vnodes, list(JoinPath(migrationsDir, "vnode")), read, render);
    r, reached := Finished(vnode), AllStages;
  }

  /**
   * A setup that finishes with success has read both templates and both
   * migration directories, and has executed, in this order: the role, the
   * database, one schema per vnode, every public migration, then every vnode
   * migration for each vnode in turn.
   */
  lemma CompletedSetupExecutedEverything(answer: (seq<string>, string) -> Option<string>, before: seq<string>,
                                         tlsMode: Config.TlsConnectMode, certificate: Option<string>,
                                         loadCert: string -> Result<Config.Certificate, Config.TlsError>,
                                         claim: Result<(), string>, templateDir: string, migrationsDir: string,
                                         vnodes: seq<string>, read: string -> Result<string, string>,
                                         list: string -> Result<seq<DirEntry>, string>, render: (string, string) -> string)
    requires SetupSpec(answer, before, tlsMode, certificate, loadCert, claim, templateDir, migrationsDir, vnodes,
                       read, list, render).setup == Finished(Ok(()))
    ensures
      var admin := read(TemplatePath(templateDir, AdminTemplate));
      var database := read(TemplatePath(templateDir, DbTemplate));
      var schema := read(TemplatePath(templateDir, SchemaTemplate));
      var public := list(JoinPath(migrationsDir, "public"));
      var vnode := list(JoinPath(migrationsDir, "vnode"));
      && admin.Ok? && database.Ok? && schema.Ok? && public.Ok? && vnode.Ok?
      && Config.TlsConfigOf(tlsMode, certificate, loadCert).Ok? && claim.Ok?
      && ReadAll(MigrationFiles(public.value), read).Some?
      && ReadAll(MigrationFiles(vnode.value), read).Some?
      && SetupSpec(answer, before, tlsMode, certificate, loadCert, claim, templateDir, migrationsDir, vnodes,
                   read, list, render).executed
         == before + [admin.value, database.value] + Rendered(schema.value, vnodes, render)
            + ReadAll(MigrationFiles(public.value), read).value
            + MigrationMajor(ReadAll(MigrationFiles(vnode.value), read).value, vnodes, render)
  {
    var schema := read(TemplatePath(templateDir, SchemaTemplate)).value;
    var prepared := PrepareSpec(answer, before, templateDir, tlsMode, certificate, loadCert, claim, read);
    var created := prepared.executed + Rendered(schema, vnodes, render);
    var publicDir := list(JoinPath(migrationsDir, "public"));
    var public := PublicRun(answer, created, publicDir, read);
    var vnodeDir := list(JoinPath(migrationsDir, "vnode"));
    PublicOkIffAllApplied(answer, created, MigrationFiles(publicDir.value), read);
    VnodeRunOrder(answer, public.executed, MigrationFiles(vnodeDir.value), vnodes, read, render);
    var admin := read(TemplatePath(templateDir, AdminTemplate)).value;
    var database := read(TemplatePath(templateDir, DbTemplate)).value;
    assert prepared.executed == before + [admin, database];
  }
}
