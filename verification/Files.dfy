/** The database file: the start-up statements, the versioned migration, and what an interruption leaves. */
module Files {
  import opened Wrappers
  import opened Relational

  type Rows = map<Ref, Row>

  /**
   * A database file: the rows of the live tables, which live tables exist, the ones among them still declared as
   * before version 1, the half-built copies the migration fills under another name, and the recorded versions.
   */
  datatype File =
    File(rows: Rows, tables: set<Table>, outdated: set<Table>, copies: map<Table, Rows>, versions: set<nat>)

  datatype Statement =
    | CreateTable(t: Table)
    | CreateCopy(t: Table)
    | CopyRows(t: Table)
    | DropTable(t: Table)
    | RenameCopy(t: Table)
    | RecordVersion(v: nat)

  function TableRows(rows: Rows, t: Table): Rows {
    map r | r in rows && r.table == t :: rows[r]
  }

  function WithoutTable(rows: Rows, t: Table): Rows {
    map r | r in rows && r.table != t :: rows[r]
  }

  /** One statement; None is a database error, such as a missing table or a name already in use. */
  function Apply(f: File, s: Statement): Option<File> {
    match s
    case CreateTable(t) => Some(f.(tables := f.tables + {t}))
    case CreateCopy(t) => Some(if t in f.copies then f else f.(copies := f.copies[t := map[]]))
    case CopyRows(t) =>
      if t in f.tables && t in f.copies
      then Some(f.(copies := f.copies[t := TableRows(f.rows, t) + f.copies[t]])) else None
    case DropTable(t) =>
      if t in f.tables
      then Some(f.(rows := WithoutTable(f.rows, t), tables := f.tables - {t}, outdated := f.outdated - {t})) else None
    case RenameCopy(t) =>
      if t !in f.tables && t in f.copies
      then Some(f.(rows := f.rows + f.copies[t], tables := f.tables + {t}, copies := f.copies - {t})) else None
    case RecordVersion(v) => if v in f.versions then None else Some(f.(versions := f.versions + {v}))
  }

  datatype Execution = Execution(file: File, ok: bool)

  /** Statement after statement, up to the first that fails. */
  function Exec(f: File, statements: seq<Statement>): Execution {
    if statements == [] then Execution(f, true)
    else
      var n := |statements| - 1;
      var before := Exec(f, statements[..n]);
      if !before.ok then before
      else match Apply(before.file, statements[n])
           case None => Execution(before.file, false)
           case Some(next) => Execution(next, true)
  }

  lemma ExecAppend(f: File, a: seq<Statement>, b: seq<Statement>)
    requires Exec(f, a).ok
    ensures Exec(f, a + b) == Exec(Exec(f, a).file, b)
  {
    hide Apply;
    if b == [] {
      assert a + b == a;
    } else {
      var n := |b| - 1;
      ExecAppend(f, a, b[..n]);
      assert (a + b)[..|a + b| - 1] == a + b[..n];
    }
  }

  lemma ExecStops(f: File, a: seq<Statement>, b: seq<Statement>)
    requires !Exec(f, a).ok
    ensures Exec(f, a + b) == Exec(f, a)
  {
    hide Apply;
    if b == [] {
      assert a + b == a;
    } else {
      var n := |b| - 1;
      ExecStops(f, a, b[..n]);
      assert (a + b)[..|a + b| - 1] == a + b[..n];
    }
  }

  // ---- the start-up -------------------------------------------------------------------------------------

  /** The tables in the order init creates them. */
  const CREATE_ORDER: seq<Table> := [
    Vpcs, PrivateNetworks, SecurityGroups, Servers, InstanceIps, PrivateNics, LbIps, Lbs, LbFrontends,
    LbBackends, LbPrivateNetworks, Clusters, Pools, RdbInstances, RdbDatabases, RdbUsers, RdbPrivileges,
    DnsZones, DomainRecords, RedisClusters, RegistryNamespaces, IamApplications, IamApiKeys, IamPolicies,
    IamSshKeys, IamRules, IamUsers, IamGroups, IamGroupMembers, InstanceVolumes, BlockVolumes, BlockSnapshots,
    IpamIps, RdbReadReplicas, RdbSnapshots, RdbAcls, RdbBackups, VpcRoutes, PublicGateways, GatewayNetworks,
    MarketplaceLabels, LbAcls, LbRoutes, LbCertificates
  ]

  /** The tables that deletes did not cascade to before version 1, as the database declared them then. */
  const OUTDATED: set<Table> := {Pools, RdbDatabases, RdbUsers, IamGroupMembers}

  /** The tables version 1 rebuilds with other delete actions. */
  const MIGRATED: seq<Table> := [Pools, RdbDatabases, RdbUsers, IamGroupMembers]

  function CreateTables(ts: seq<Table>): seq<Statement> {
    seq(|ts|, i requires 0 <= i < |ts| => CreateTable(ts[i]))
  }

  function Recreate(t: Table): seq<Statement> {
    [CreateCopy(t), CopyRows(t), DropTable(t), RenameCopy(t)]
  }

  function RecreateAll(ts: seq<Table>): seq<Statement> {
    if ts == [] then [] else Recreate(ts[0]) + RecreateAll(ts[1..])
  }

  const VERSION: nat := 1

  function Migration(): seq<Statement> {
    RecreateAll(MIGRATED) + [RecordVersion(VERSION)]
  }

  /** init, then migrate, which skips a recorded version. */
  function StartUp(f: File): seq<Statement> {
    CreateTables(CREATE_ORDER) + if VERSION in f.versions then [] else Migration()
  }

  lemma EveryTableCreated(t: Table)
    ensures t in CREATE_ORDER
  {
  }

  // ---- what every statement keeps -------------------------------------------------------------------------

  /** Rows lie in existing tables, copies hold rows of their own table, and only migrated tables are copied. */
  ghost predicate WellFormed(f: File) {
    && (forall r | r in f.rows :: r.table in f.tables) && f.outdated <= f.tables
    && (forall t, r | t in f.copies && r in f.copies[t] :: r.table == t)
  }

  predicate InCopy(f: File, r: Ref) {
    r.table in f.copies && r in f.copies[r.table]
  }

  /** Nothing is lost and nothing is invented: each original row is live or copied, unchanged. */
  ghost predicate Safe(f: File, original: Rows) {
    && WellFormed(f)
    && (forall r | r in f.rows :: r in original && original[r] == f.rows[r])
    && (forall r | InCopy(f, r) :: r in original && original[r] == f.copies[r.table][r])
    && (forall r | r in original :: r in f.rows || InCopy(f, r))
  }

  /** A file a start-up may have been interrupted on. */
  ghost predicate Recoverable(f: File, original: Rows) {
    && Safe(f, original) && VERSION !in f.versions && f.outdated <= OUTDATED
    && forall t | t in f.copies :: t in MIGRATED
  }

  /** A file every start-up has nothing to do on: its rows are the original ones, and no declaration is outdated. */
  ghost predicate Current(f: File, original: Rows) {
    && WellFormed(f) && f.rows == original && f.outdated == {} && f.copies == map[] && VERSION in f.versions
    && forall t: Table :: t in f.tables
  }

  /** The copy of t holds all of its rows. */
  ghost predicate Copied(f: File, original: Rows, t: Table) {
    t in f.copies && forall r | r in original && r.table == t :: r in f.copies[t]
  }

  /** Where the rebuilding of table t stands before its n-th statement. */
  ghost predicate Stage(f: File, original: Rows, t: Table, n: nat) {
    && Safe(f, original)
    && match n
       case 0 => t in f.tables
       case 1 => t in f.tables && t in f.copies
       case 2 => t in f.tables && Copied(f, original, t)
       case 3 => t !in f.tables && Copied(f, original, t)
       case _ => t in f.tables && t !in f.copies && t !in f.outdated
  }

  /** Another table is left alone. */
  ghost predicate Apart(f: File, g: File, t: Table) {
    && g.versions == f.versions && g.tables + {t} == f.tables + {t} && g.outdated <= f.outdated
    && forall u | u != t :: u in g.copies <==> u in f.copies
  }

  lemma CreateCopyStage(f: File, original: Rows, t: Table)
    requires Stage(f, original, t, 0)
    ensures var g := Apply(f, CreateCopy(t));
            g.Some? && Stage(g.value, original, t, 1) && Apart(f, g.value, t)
  {
    var g := Apply(f, CreateCopy(t)).value;
    forall r | InCopy(g, r)
      ensures InCopy(f, r) && g.copies[r.table][r] == f.copies[r.table][r]
    {
    }
  }

  lemma CopyRowsStage(f: File, original: Rows, t: Table)
    requires Stage(f, original, t, 1)
    ensures var g := Apply(f, CopyRows(t));
            g.Some? && Stage(g.value, original, t, 2) && Apart(f, g.value, t)
  {
    var g := Apply(f, CopyRows(t)).value;
    forall r | r in original
      ensures r in g.rows || InCopy(g, r)
      ensures r.table == t ==> r in g.copies[t]
    {
      assert r in f.rows || InCopy(f, r);
    }
    forall r | InCopy(g, r)
      ensures r in original && original[r] == g.copies[r.table][r]
    {
      assert r in f.rows || InCopy(f, r);
    }
  }

  lemma DropTableStage(f: File, original: Rows, t: Table)
    requires Stage(f, original, t, 2)
    ensures var g := Apply(f, DropTable(t));
            g.Some? && Stage(g.value, original, t, 3) && Apart(f, g.value, t)
  {
    var g := Apply(f, DropTable(t)).value;
    forall r | r in original
      ensures r in g.rows || InCopy(g, r)
    {
      assert r in f.rows || InCopy(f, r);
    }
    forall r | InCopy(g, r)
      ensures InCopy(f, r)
    {
    }
  }

  lemma RenameCopyStage(f: File, original: Rows, t: Table)
    requires Stage(f, original, t, 3)
    ensures var g := Apply(f, RenameCopy(t));
            g.Some? && Stage(g.value, original, t, 4) && Apart(f, g.value, t)
  {
    var g := Apply(f, RenameCopy(t)).value;
    forall r | r in original
      ensures r in g.rows || InCopy(g, r)
    {
      assert r in f.rows || InCopy(f, r);
    }
    forall r | r in g.rows
      ensures r in original && original[r] == g.rows[r]
    {
      assert r in f.rows || InCopy(f, r);
    }
    forall r | InCopy(g, r)
      ensures InCopy(f, r)
    {
    }
  }

  lemma StageStep(f: File, original: Rows, t: Table, n: nat)
    requires n < 4 && Stage(f, original, t, n)
    ensures var g := Apply(f, Recreate(t)[n]);
            g.Some? && Stage(g.value, original, t, n + 1) && Apart(f, g.value, t)
  {
    hide Apply, Stage, Apart;
    match n
    case 0 => CreateCopyStage(f, original, t);
    case 1 => CopyRowsStage(f, original, t);
    case 2 => DropTableStage(f, original, t);
    case 3 => RenameCopyStage(f, original, t);
  }

  /** After any prefix of one table's rebuilding no row is lost. */
  lemma RecreatePrefix(f: File, original: Rows, t: Table, n: nat)
    requires n <= 4 && Stage(f, original, t, 0)
    ensures var run := Exec(f, Recreate(t)[..n]);
            run.ok && Stage(run.file, original, t, n) && Apart(f, run.file, t)
  {
    hide Apply, Stage, Recreate, Apart;
    assert |Recreate(t)| == 4 by { RecreateLength(t); }
    if n == 0 {
      ApartSelf(f, t);
    } else {
      RecreatePrefix(f, original, t, n - 1);
      assert Recreate(t)[..n][..n - 1] == Recreate(t)[..n - 1];
      StageStep(Exec(f, Recreate(t)[..n - 1]).file, original, t, n - 1);
      ApartOnward(f, Exec(f, Recreate(t)[..n - 1]).file, Exec(f, Recreate(t)[..n]).file, t);
    }
  }

  lemma ApartSelf(f: File, t: Table)
    ensures Apart(f, f, t)
  {
  }

  lemma ApartOnward(f: File, g: File, h: File, t: Table)
    requires Apart(f, g, t) && Apart(g, h, t)
    ensures Apart(f, h, t)
  {
  }

  lemma RecreateLength(t: Table)
    ensures |Recreate(t)| == 4
  {
  }

  ghost predicate AllTables(f: File) {
    forall t: Table :: t in f.tables
  }

  lemma StageParts(f: File, original: Rows, t: Table, n: nat)
    ensures Stage(f, original, t, n) ==> Safe(f, original)
    ensures Safe(f, original) && AllTables(f) ==> Stage(f, original, t, 0)
    ensures Stage(f, original, t, 4) ==> t in f.tables && t !in f.copies && t !in f.outdated
  {
  }

  /** After any prefix of the rebuilding of a list of tables no row is lost; after all of it no copy is left. */
  lemma RecreateAllPrefix(f: File, original: Rows, ts: seq<Table>, n: nat)
    requires Safe(f, original) && AllTables(f) && n <= |RecreateAll(ts)|
    ensures var run := Exec(f, RecreateAll(ts)[..n]);
            && run.ok && Safe(run.file, original) && run.file.versions == f.versions
            && (forall u | u in run.file.copies :: u in f.copies || u in ts) && run.file.outdated <= f.outdated
            && (n == |RecreateAll(ts)| ==>
                  && AllTables(run.file) && (forall u | u in run.file.copies :: u in f.copies && u !in ts)
                  && forall u | u in run.file.outdated :: u !in ts)
    decreases |ts|
  {
    hide Recreate, Stage, Safe;
    if ts != [] {
      var t, rest := ts[0], RecreateAll(ts[1..]);
      RecreateLength(t);
      StageParts(f, original, t, 0);
      if n <= 4 {
        assert RecreateAll(ts)[..n] == Recreate(t)[..n];
        RecreatePrefix(f, original, t, n);
        var g := Exec(f, Recreate(t)[..n]).file;
        StageParts(g, original, t, n);
        if n == 4 {
          ApartTables(f, g, t);
        }
        if n == |RecreateAll(ts)| {
          assert ts[1..] == [] by { RecreateSome(ts[1..]); }
        }
      } else {
        RecreatePrefix(f, original, t, 4);
        assert Recreate(t)[..4] == Recreate(t);
        assert RecreateAll(ts)[..n] == Recreate(t) + rest[..n - 4];
        ExecAppend(f, Recreate(t), rest[..n - 4]);
        var g := Exec(f, Recreate(t)).file;
        StageParts(g, original, t, 4);
        ApartTables(f, g, t);
        RecreateAllPrefix(g, original, ts[1..], n - 4);
      }
    }
  }

  lemma ApartTables(f: File, g: File, t: Table)
    requires AllTables(f) && Apart(f, g, t) && t in g.tables
    ensures AllTables(g)
  {
    forall u: Table
      ensures u in g.tables
    {
      assert u in f.tables + {t};
    }
  }

  lemma RecreateSome(ts: seq<Table>)
    ensures RecreateAll(ts) == [] ==> ts == []
  {
    if ts != [] {
      RecreateLength(ts[0]);
    }
  }

  lemma CreateTableSafe(f: File, original: Rows, t: Table)
    requires Safe(f, original)
    ensures Safe(f.(tables := f.tables + {t}), original)
  {
    var g := f.(tables := f.tables + {t});
    forall r
      ensures InCopy(g, r) <==> InCopy(f, r)
    {
    }
  }

  lemma CreatePrefix(f: File, original: Rows, ts: seq<Table>)
    requires Safe(f, original)
    ensures Exec(f, CreateTables(ts)) == Execution(f.(tables := f.tables + set t | t in ts), true)
    ensures Safe(f.(tables := f.tables + set t | t in ts), original)
  {
    hide Safe;
    if ts == [] {
      assert f.tables + {} == f.tables;
    } else {
      var n := |ts| - 1;
      CreatePrefix(f, original, ts[..n]);
      assert CreateTables(ts)[..n] == CreateTables(ts[..n]);
      var before := f.(tables := f.tables + set t | t in ts[..n]);
      CreateTableSafe(before, original, ts[n]);
      assert ts == ts[..n] + [ts[n]];
      assert before.tables + {ts[n]} == f.tables + set t | t in ts;
    }
  }

  /** A prefix of a concatenation stops in one of the two parts. */
  lemma PrefixOf(a: seq<Statement>, b: seq<Statement>, n: nat)
    requires n <= |a + b|
    ensures (a + b)[..n] == if n <= |a| then a[..n] else a + b[..n - |a|]
  {
  }

  lemma MigrationPrefix(f: File, original: Rows, n: nat)
    requires Recoverable(f, original) && AllTables(f) && n <= |Migration()|
    ensures var run := Exec(f, Migration()[..n]);
            && run.ok
            && if n < |Migration()| then Recoverable(run.file, original) else Current(run.file, original)
  {
    hide Safe, RecreateAll, MIGRATED, OUTDATED;
    var rebuild := RecreateAll(MIGRATED);
    OutdatedMigrated();
    if n < |Migration()| {
      assert Migration()[..n] == rebuild[..n];
      RecreateAllPrefix(f, original, MIGRATED, n);
    } else {
      assert Migration()[..n] == Migration() && Migration()[..n - 1] == rebuild == rebuild[..n - 1];
      RecreateAllPrefix(f, original, MIGRATED, n - 1);
      Rebuilt(Exec(f, rebuild).file, original);
    }
  }

  lemma OutdatedMigrated()
    ensures forall t | t in OUTDATED :: t in MIGRATED
  {
  }

  lemma Rebuilt(f: File, original: Rows)
    requires Safe(f, original) && AllTables(f) && forall t :: t !in f.copies
    ensures f.rows == original && f.copies == map[] && WellFormed(f)
  {
    assert f.copies.Keys == {};
    forall r | r in original
      ensures r in f.rows
    {
      assert r in f.rows || InCopy(f, r);
    }
    assert f.rows.Keys == original.Keys;
  }

  /**
   * The migration can be restarted: a start-up stopped after any number of statements, between a DROP and the
   * following RENAME included, leaves every original row live or copied, and no statement of it fails; one that
   * runs to its end leaves exactly the original rows in the live tables, none of them declared as before, and the
   * version recorded.
   */
  lemma InterruptedStartUp(f: File, original: Rows, n: nat)
    requires Recoverable(f, original) && n <= |StartUp(f)|
    ensures var run := Exec(f, StartUp(f)[..n]);
            && run.ok
            && if n < |StartUp(f)| then Recoverable(run.file, original) else Current(run.file, original)
  {
    hide Safe, CREATE_ORDER, Migration, WellFormed;
    var create := CreateTables(CREATE_ORDER);
    PrefixOf(create, Migration(), n);
    MigrationSome();
    if n <= |create| {
      assert create[..n] == CreateTables(CREATE_ORDER[..n]);
      CreatePrefix(f, original, CREATE_ORDER[..n]);
    } else {
      CreatePrefix(f, original, CREATE_ORDER);
      var g := Exec(f, create).file;
      assert AllTables(g) by {
        forall t: Table ensures t in g.tables { EveryTableCreated(t); }
      }
      MigrationPrefix(g, original, n - |create|);
      ExecAppend(f, create, Migration()[..n - |create|]);
    }
  }

  lemma MigrationSome()
    ensures |Migration()| > 0
  {
  }

  /** On a current file a start-up changes nothing, wherever it stops. */
  lemma CurrentStartUp(f: File, original: Rows, n: nat)
    requires Current(f, original) && n <= |StartUp(f)|
    ensures Exec(f, StartUp(f)[..n]) == Execution(f, true)
  {
    hide CREATE_ORDER;
    assert StartUp(f)[..n] == CreateTables(CREATE_ORDER[..n]);
    assert Safe(f, original);
    CreatePrefix(f, original, CREATE_ORDER[..n]);
    assert f.tables + (set t | t in CREATE_ORDER[..n]) == f.tables;
  }

  /** Start-ups one after another, the i-th stopped after stops[i] statements. */
  ghost predicate StartUps(files: seq<File>, stops: seq<nat>) {
    && |files| == |stops| + 1
    && forall i | 0 <= i < |stops| ::
         stops[i] <= |StartUp(files[i])| && files[i + 1] == Exec(files[i], StartUp(files[i])[..stops[i]]).file
  }

  /**
   * However many start-ups were interrupted, and wherever, the first one to run to its end leaves exactly the
   * original rows, and every later one, interrupted or not, leaves the file as it is.
   */
  lemma {:induction false} RestartedStartUps(files: seq<File>, stops: seq<nat>, original: Rows, i: nat)
    requires StartUps(files, stops) && Recoverable(files[0], original) && i < |files|
    ensures Recoverable(files[i], original) || Current(files[i], original)
    ensures forall j | 0 <= j < i && stops[j] == |StartUp(files[j])| ::
              Current(files[i], original) && files[i] == files[j + 1]
  {
    hide Recoverable, Current, StartUp, Exec;
    if i > 0 {
      RestartedStartUps(files, stops, original, i - 1);
      if Current(files[i - 1], original) {
        CurrentStartUp(files[i - 1], original, stops[i - 1]);
      } else {
        InterruptedStartUp(files[i - 1], original, stops[i - 1]);
      }
    }
  }

  /** Every file without half-built copies and without the version is a place to start: an old one, or an empty one. */
  lemma OldFileRecoverable(f: File)
    requires (forall r | r in f.rows :: r.table in f.tables) && f.outdated <= f.tables && f.outdated <= OUTDATED
    requires f.copies == map[] && VERSION !in f.versions
    ensures Recoverable(f, f.rows)
  {
  }
}
