/** Snapshot, restore and reset as a two-register machine over database files. */
module Lifecycle {
  import opened Wrappers
  import opened Relational
  import opened MockwaySchema
  import opened Files

  // ---- Reset ----------------------------------------------------------------------------------------------

  /** DELETE FROM each of the tables, with foreign keys off: no cascade and no check. */
  function EmptyTables(rows: Rows, tables: seq<Table>): Rows {
    map r | r in rows && r.table !in tables :: rows[r]
  }

  /** No surviving row refers into an emptied table. */
  ghost predicate NoneLeftBehind(db: Db, tables: seq<Table>) {
    forall r, fk | Uses(db, r, fk) && r.table !in tables :: fk.parent !in tables
  }

  /** Emptying some tables without checks keeps the constraints exactly when no surviving row refers into them. */
  lemma EmptiedIntact(db: Db, tables: seq<Table>)
    requires Intact(db)
    ensures Intact(db.(rows := EmptyTables(db.rows, tables))) <==> NoneLeftBehind(db, tables)
  {
    var next := db.(rows := EmptyTables(db.rows, tables));
    forall r, fk
      ensures Uses(next, r, fk) <==> Uses(db, r, fk) && r.table !in tables
    {
    }
    forall r | r in next.rows
      ensures RequiredPresent(next.schema, r, next.rows[r])
    {
      assert RequiredPresent(db.schema, r, db.rows[r]);
    }
    forall r, fk | Uses(db, r, fk)
      ensures Target(fk, db.rows[r]) in db.rows
    {
      assert ParentsExist(db, r);
    }
    if Intact(next) {
      forall r, fk | Uses(db, r, fk) && r.table !in tables
        ensures fk.parent !in tables
      {
        assert ParentsExist(next, r) && Uses(next, r, fk);
      }
    }
  }

  lemma PositionInOrder(t: Table, k: nat)
    requires k <= |RESET_ORDER|
    ensures t in RESET_ORDER[..k] <==> Position(t) < k
  {
    hide Position, RESET_ORDER;
    OrderedPosition(0);
    ResetOrderComplete(t);
    if t in RESET_ORDER[..k] {
      var i :| 0 <= i < k && RESET_ORDER[i] == t;
      OrderedPosition(i);
    }
    if Position(t) < k {
      assert RESET_ORDER[..k][Position(t)] == RESET_ORDER[Position(t)];
    }
  }

  lemma OrderedPosition(i: nat)
    requires i < TABLE_COUNT
    ensures |RESET_ORDER| == TABLE_COUNT && Position(RESET_ORDER[i]) == i
  {
    hide Position, TableAt, RESET_ORDER;
    ResetOrderAt(i);
    PlaceInverse(i);
  }

  lemma PlaceInverse(i: nat)
    requires i < TABLE_COUNT
    ensures Position(TableAt(i)) == i
  {
  }

  /** Every prefix of Reset's loop leaves all constraints intact, because its list names children before parents. */
  lemma ResetPrefixIntact(db: Db, k: nat)
    requires Intact(db) && ChildrenFirst(db.schema) && k <= |RESET_ORDER|
    ensures Intact(db.(rows := EmptyTables(db.rows, RESET_ORDER[..k])))
  {
    hide Position, RESET_ORDER, Intact, EmptyTables;
    EmptiedIntact(db, RESET_ORDER[..k]);
    forall r, fk | Uses(db, r, fk) && r.table !in RESET_ORDER[..k]
      ensures fk.parent !in RESET_ORDER[..k]
    {
      PositionInOrder(r.table, k);
      PositionInOrder(fk.parent, k);
      assert Position(fk.child) < Position(fk.parent);
    }
  }

  lemma ResetEmpties(rows: Rows)
    ensures EmptyTables(rows, RESET_ORDER) == map[]
  {
    hide RESET_ORDER, Position;
    forall r | r in rows
      ensures r.table in RESET_ORDER
    {
      ResetOrderComplete(r.table);
    }
    assert EmptyTables(rows, RESET_ORDER).Keys == {};
  }

  // ---- the machine ------------------------------------------------------------------------------------------

  /** The live database file and the snapshot file beside it. */
  datatype Machine = Machine(live: File, saved: Option<File>)

  /** Work stands for any calls between the three; it can leave any rows in the live tables. */
  datatype Event = SnapshotTaken | Restored | ResetDone | Work(rows: Rows)

  /** VACUUM INTO copies the file; Restore reruns the start-up on the copy it swaps in. */
  function Happens(m: Machine, e: Event): (Machine, Status) {
    match e
    case SnapshotTaken => (m.(saved := Some(m.live)), Done)
    case Restored =>
      (match m.saved
       case None => (m, Failed(NotFound))
       case Some(f) =>
         var run := Exec(f, StartUp(f));
         (m.(live := run.file), if run.ok then Done else Failed(Internal)))
    case ResetDone => (Machine(m.live.(rows := EmptyTables(m.live.rows, RESET_ORDER)), None), Done)
    case Work(rows) => (m.(live := m.live.(rows := rows)), Done)
  }

  /** Both files are past the migration. */
  ghost predicate Settled(m: Machine) {
    Current(m.live, m.live.rows) && (m.saved.Some? ==> Current(m.saved.value, m.saved.value.rows))
  }

  lemma RestoredFile(f: File)
    requires Current(f, f.rows)
    ensures Exec(f, StartUp(f)) == Execution(f, true)
  {
    hide Exec, StartUp, Current;
    CurrentStartUp(f, f.rows, |StartUp(f)|);
    assert StartUp(f)[..|StartUp(f)|] == StartUp(f);
  }

  /** Any rows may be written once the migration is past. */
  lemma RowsSettled(m: Machine, rows: Rows)
    requires Settled(m)
    ensures Settled(m.(live := m.live.(rows := rows)))
  {
  }

  lemma HappensSettled(m: Machine, e: Event)
    requires Settled(m)
    ensures Settled(Happens(m, e).0)
  {
    hide Exec, StartUp;
    if e.Restored? && m.saved.Some? {
      RestoredFile(m.saved.value);
    }
  }

  /** A history of events from a machine without a snapshot. */
  ghost predicate History(ms: seq<Machine>, events: seq<Event>) {
    && |ms| == |events| + 1
    && Settled(ms[0]) && ms[0].saved == None
    && forall i | 0 <= i < |events| :: ms[i + 1] == Happens(ms[i], events[i]).0
  }

  /** The latest snapshot among the first n events, if no reset came after it. */
  function LatestSnapshot(events: seq<Event>, n: nat): (r: Option<nat>)
    requires n <= |events|
    ensures r.Some? ==> r.value < n && events[r.value] == SnapshotTaken
  {
    if n == 0 then None
    else match events[n - 1]
         case SnapshotTaken => Some(n - 1)
         case ResetDone => None
         case _ => LatestSnapshot(events, n - 1)
  }

  lemma {:induction false} SavedIsLatest(ms: seq<Machine>, events: seq<Event>, n: nat)
    requires History(ms, events) && n <= |events|
    ensures Settled(ms[n])
    ensures ms[n].saved ==
            match LatestSnapshot(events, n)
            case None => None
            case Some(k) => Some(ms[k].live)
  {
    hide Settled, Exec, StartUp, EmptyTables;
    if n > 0 {
      SavedIsLatest(ms, events, n - 1);
      HappensSettled(ms[n - 1], events[n - 1]);
    }
  }

  /**
   * Restore brings back exactly the file of the latest snapshot since the last reset, any number of times, and
   * reports not-found, changing nothing, when there is none.
   */
  lemma RestoreReturnsSnapshot(ms: seq<Machine>, events: seq<Event>, n: nat)
    requires History(ms, events) && n < |events| && events[n] == Restored
    ensures match LatestSnapshot(events, n)
            case None => Happens(ms[n], Restored) == (ms[n], Failed(NotFound))
            case Some(k) => Happens(ms[n], Restored).1 == Done && ms[n + 1].live == ms[k].live
  {
    hide Exec, StartUp, Current;
    SavedIsLatest(ms, events, n);
    if ms[n].saved.Some? {
      RestoredFile(ms[n].saved.value);
    }
  }

  /** A reset leaves no resource row and no snapshot, and keeps the recorded versions and the tables. */
  lemma ResetClears(m: Machine)
    requires Settled(m)
    ensures var (next, status) := Happens(m, ResetDone);
            && status == Done && next == Machine(m.live.(rows := map[]), None)
            && Happens(next, Restored).1 == Failed(NotFound)
  {
    ResetEmpties(m.live.rows);
  }
}
