/** Runs with snapshots and restores: every store they reach is reached by an ordinary run. */
module SavedRuns {
  import opened Wrappers
  import opened Relational
  import opened MockwaySchema
  import opened Store
  import opened Files
  import opened Lifecycle
  import opened Runs
  import opened StrandedAddresses

  /** One public call on the repository object: on its live store, or on the two files. */
  datatype Act = OnStore(call: Call) | TakeSnapshot | RestoreSnapshot

  function LiveStore(m: Machine): Db {
    Db(MOCKWAY, m.live.rows)
  }

  /** A call rewrites the live rows, and Reset drops the snapshot; the other two do what they do to the files. */
  ghost predicate Acts(m: Machine, act: Act, next: Machine) {
    match act
    case OnStore(call) =>
      && Goes(LiveStore(m), call, LiveStore(next))
      && next == Machine(m.live.(rows := next.live.rows), if call.ResetCall? then None else m.saved)
    case TakeSnapshot => next == Happens(m, SnapshotTaken).0
    case RestoreSnapshot => next == Happens(m, Restored).0
  }

  /** A history from a first start-up on: a migrated file without rows, and no snapshot. */
  ghost predicate SavedRun(ms: seq<Machine>, acts: seq<Act>) {
    && |ms| == |acts| + 1
    && Settled(ms[0]) && ms[0].live.rows == map[] && ms[0].saved == None
    && forall i | 0 <= i < |acts| :: Acts(ms[i], acts[i], ms[i + 1])
  }

  /** Each step of the run is a step of the history, made at the same stores. */
  ghost predicate StepsOf(dbs: seq<Db>, calls: seq<Call>, ms: seq<Machine>, acts: seq<Act>)
    requires |dbs| == |calls| + 1 && |ms| == |acts| + 1
  {
    forall j | 0 <= j < |calls| :: MadeBefore(dbs, calls, j, ms, acts)
  }

  ghost predicate MadeBefore(dbs: seq<Db>, calls: seq<Call>, j: nat, ms: seq<Machine>, acts: seq<Act>)
    requires |dbs| == |calls| + 1 && |ms| == |acts| + 1 && j < |calls|
  {
    exists m | 0 <= m < |acts| :: StepAt(dbs, calls, j, ms, acts, m)
  }

  ghost predicate StepAt(dbs: seq<Db>, calls: seq<Call>, j: nat, ms: seq<Machine>, acts: seq<Act>, m: nat)
    requires |dbs| == |calls| + 1 && |ms| == |acts| + 1 && j < |calls| && m < |acts|
  {
    dbs[j] == LiveStore(ms[m]) && OnStore(calls[j]) == acts[m] && dbs[j + 1] == LiveStore(ms[m + 1])
  }

  // ---- the snapshot is an earlier file -------------------------------------------------------------------------

  lemma ActSettled(m: Machine, act: Act, next: Machine)
    requires Settled(m) && Acts(m, act, next)
    ensures Settled(next)
    ensures act.RestoreSnapshot? ==> next.live == if m.saved.Some? then m.saved.value else m.live
  {
    hide Goes, MOCKWAY, Exec, StartUp;
    match act
    case OnStore(call) => RowsSettled(m, next.live.rows);
    case TakeSnapshot =>
    case RestoreSnapshot =>
      if m.saved.Some? {
        RestoredFile(m.saved.value);
      }
  }

  lemma {:induction false} SavedEarlier(ms: seq<Machine>, acts: seq<Act>, i: nat)
    requires SavedRun(ms, acts) && i < |ms|
    ensures Settled(ms[i])
    ensures ms[i].saved.Some? ==> exists k | 0 <= k < i :: ms[i].saved.value == ms[k].live
  {
    hide Settled, Goes, MOCKWAY, Exec, StartUp;
    if i > 0 {
      SavedEarlier(ms, acts, i - 1);
      assert Acts(ms[i - 1], acts[i - 1], ms[i]);
      ActSettled(ms[i - 1], acts[i - 1], ms[i]);
      if acts[i - 1].TakeSnapshot? {
        assert ms[i].saved.value == ms[i - 1].live;
      } else if ms[i].saved.Some? {
        assert ms[i].saved == ms[i - 1].saved;
        var k :| 0 <= k < i - 1 && ms[i - 1].saved.value == ms[k].live;
      }
    }
  }

  // ---- ordinary runs reach the same stores ---------------------------------------------------------------------

  /**
   * Whatever snapshots and restores a history contains, each live store is the last one of an ordinary run, made of
   * steps of the history. What holds of every store of such runs therefore holds here.
   */
  lemma {:induction false} RunWithoutRestores(ms: seq<Machine>, acts: seq<Act>, i: nat)
    returns (dbs: seq<Db>, calls: seq<Call>)
    requires SavedRun(ms, acts) && i < |ms|
    ensures Run(dbs, calls) && dbs[|calls|] == LiveStore(ms[i])
    ensures StepsOf(dbs, calls, ms, acts)
    decreases i
  {
    hide Settled, Goes, MOCKWAY, Exec, StartUp, MadeBefore;
    if i == 0 {
      dbs, calls := [FIRST], [];
    } else {
      var m := i - 1;
      assert Acts(ms[m], acts[m], ms[i]);
      SavedEarlier(ms, acts, m);
      ActSettled(ms[m], acts[m], ms[i]);
      var k := m;
      if acts[m].RestoreSnapshot? && ms[m].saved.Some? {
        k :| 0 <= k < m && ms[m].saved.value == ms[k].live;
      }
      dbs, calls := RunWithoutRestores(ms, acts, k);
      if acts[m].OnStore? {
        dbs, calls := OneMoreStep(dbs, calls, ms, acts, m);
      }
    }
  }

  lemma OneMoreStep(dbs: seq<Db>, calls: seq<Call>, ms: seq<Machine>, acts: seq<Act>, m: nat)
    returns (longer: seq<Db>, more: seq<Call>)
    requires |ms| == |acts| + 1 && m < |acts| && acts[m].OnStore? && Acts(ms[m], acts[m], ms[m + 1])
    requires Run(dbs, calls) && dbs[|calls|] == LiveStore(ms[m]) && StepsOf(dbs, calls, ms, acts)
    ensures Run(longer, more) && longer[|more|] == LiveStore(ms[m + 1]) && StepsOf(longer, more, ms, acts)
  {
    hide Goes, MOCKWAY;
    longer, more := dbs + [LiveStore(ms[m + 1])], calls + [acts[m].call];
    forall j | 0 <= j < |more|
      ensures MadeBefore(longer, more, j, ms, acts)
    {
      if j < |calls| {
        assert MadeBefore(dbs, calls, j, ms, acts);
        var x :| 0 <= x < |acts| && StepAt(dbs, calls, j, ms, acts, x);
        assert StepAt(longer, more, j, ms, acts, x);
      } else {
        assert StepAt(longer, more, j, ms, acts, m);
      }
    }
  }

  /** The joint invariant holds of every live store and of every snapshot. */
  lemma SavedRunsKeepTheStore(ms: seq<Machine>, acts: seq<Act>, i: nat)
    requires SavedRun(ms, acts) && i < |ms|
    ensures StoreInv(LiveStore(ms[i]))
    ensures ms[i].saved.Some? ==> StoreInv(Db(MOCKWAY, ms[i].saved.value.rows))
  {
    hide StoreInv, Settled, Goes, MOCKWAY, Acts, StepsOf;
    var dbs, calls := RunWithoutRestores(ms, acts, i);
    RunsKeepTheStore(dbs, calls, |calls|);
    SavedEarlier(ms, acts, i);
    if ms[i].saved.Some? {
      var k :| 0 <= k < i && ms[i].saved.value == ms[k].live;
      var earlier, before := RunWithoutRestores(ms, acts, k);
      RunsKeepTheStore(earlier, before, |before|);
    }
  }

  /** An example of a law with a condition on the calls: histories of calls that strand no address strand none. */
  lemma NoneStrandedOverSavedRuns(ms: seq<Machine>, acts: seq<Act>, i: nat)
    requires SavedRun(ms, acts) && i < |ms|
    requires forall m | 0 <= m < |acts| && acts[m].OnStore? :: HomeCall(LiveStore(ms[m]), acts[m].call)
    ensures NoneStranded(LiveStore(ms[i]))
  {
    hide Settled, Goes, MOCKWAY, HomeCall, NoneStranded, Acts;
    var dbs, calls := RunWithoutRestores(ms, acts, i);
    forall j | 0 <= j < |calls|
      ensures HomeCall(dbs[j], calls[j])
    {
      assert MadeBefore(dbs, calls, j, ms, acts);
      var m :| 0 <= m < |acts| && StepAt(dbs, calls, j, ms, acts, m);
    }
    NoneStrandedOverRuns(dbs, calls, |calls|);
  }
}
