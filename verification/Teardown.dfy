/** Every reachable store can be emptied again by public deletes alone, children first. */
module Teardown {
  import opened Wrappers
  import opened Documents
  import opened Relational
  import opened MockwaySchema
  import opened Store
  import opened Instances
  import opened InstanceLaws
  import opened Balancers
  import opened Dns
  import opened Runs
  import opened StrandedAddresses

  /** Tables a public delete names directly; dependent rows go with their parent, labels have no delete. */
  predicate Deletable(t: Table) {
    t !in DEPENDENT && t != MarketplaceLabels
  }

  function Head(key: seq<string>): string {
    if key == [] then "" else key[0]
  }

  /** The public call that deletes a row. */
  function DeleteCall(r: Ref): Call {
    match r.table
    case Servers => DeleteServerCall(Head(r.key))
    case SecurityGroups => DeleteGroupCall(Head(r.key))
    case Lbs => DeleteLbCall(Head(r.key))
    case LbIps => DeleteLbIpCall(Head(r.key))
    case DnsZones => DeleteZoneCall(Head(r.key))
    case _ => RemoveCall(r.table, r.key)
  }

  /** No deletable row lies in a table that comes earlier in the children-first order. */
  ghost predicate Lowest(db: Db, r: Ref) {
    && r in db.rows && Deletable(r.table)
    && forall q | q in db.rows && Deletable(q.table) :: Position(r.table) <= Position(q.table)
  }

  lemma LowestFrom(db: Db, q: Ref) returns (r: Ref)
    requires q in db.rows && Deletable(q.table)
    ensures Lowest(db, r)
    decreases Position(q.table)
  {
    hide Position;
    if p :| p in db.rows && Deletable(p.table) && Position(p.table) < Position(q.table) {
      r := LowestFrom(db, p);
    } else {
      r := q;
    }
  }

  /** What refers to a lowest row, and how: only rows that go with it. */
  lemma ReferrerGoesAlong(db: Db, r: Ref, q: Ref, fk: ForeignKey)
    requires ActionFacts(db.schema.foreignKeys) && ChildFacts(db.schema.foreignKeys) && ChildrenFirst(db.schema)
    requires Lowest(db, r) && Uses(db, q, fk) && Target(fk, db.rows[q]) == r
    ensures q.table in DEPENDENT && fk.action != NoAction
  {
    hide Position;
    assert ByAction(fk) && ByChild(fk);
    assert Position(fk.child) < Position(fk.parent);
  }

  lemma DependentUnreferenced(db: Db, q: Ref, fk: ForeignKey)
    requires ParentFacts(db.schema.foreignKeys) && Uses(db, q, fk)
    ensures Target(fk, db.rows[q]).table !in DEPENDENT
  {
    assert ByParent(fk);
  }

  /** A lowest row and the dependent rows below it. */
  function Below(db: Db, r: Ref): set<Ref> {
    {r} + set q | q in db.rows && q.table in DEPENDENT
  }

  lemma ReferrersBelow(db: Db, r: Ref, q: Ref, a: Action)
    requires ActionFacts(db.schema.foreignKeys) && ChildFacts(db.schema.foreignKeys)
    requires ParentFacts(db.schema.foreignKeys)
    requires ChildrenFirst(db.schema) && Lowest(db, r) && q in db.rows && RefersInto(db, q, Below(db, r), a)
    ensures q in Below(db, r) && a != NoAction
  {
    hide ActionFacts, ChildFacts, ParentFacts, ChildrenFirst, Lowest;
    var fk :| fk in db.schema.foreignKeys && fk.action == a && Uses(db, q, fk)
      && Target(fk, db.rows[q]) in Below(db, r);
    DependentUnreferenced(db, q, fk);
    ReferrerGoesAlong(db, r, q, fk);
  }

  /** Deleting a lowest row succeeds. */
  lemma LowestDeletes(db: Db, r: Ref)
    requires ActionFacts(db.schema.foreignKeys) && ChildFacts(db.schema.foreignKeys)
    requires ParentFacts(db.schema.foreignKeys)
    requires ChildrenFirst(db.schema) && Lowest(db, r)
    ensures DeleteRows(db, {r}).Ok?
  {
    hide ActionFacts, ChildFacts, ParentFacts, ChildrenFirst, RefersInto, Below;
    var below := Below(db, r);
    assert r in below by { BelowSelf(db, r); }
    forall q | q in Referrers(db, below, Cascade)
      ensures q in below
    {
      ReferrersBelow(db, r, q, Cascade);
    }
    ClosureLeast(db, {r}, below);
    forall q | q in db.rows
      ensures !RefersInto(db, q, Closure(db, {r}), NoAction)
    {
      if RefersInto(db, q, Closure(db, {r}), NoAction) {
        RefersMore(db, q, Closure(db, {r}), below, NoAction);
        ReferrersBelow(db, r, q, NoAction);
      }
    }
    assert Referrers(db, Closure(db, {r}), NoAction) == {};
  }

  lemma BelowSelf(db: Db, r: Ref)
    ensures r in Below(db, r)
  {
  }

  lemma RefersMore(db: Db, q: Ref, s: set<Ref>, t: set<Ref>, a: Action)
    requires s <= t && RefersInto(db, q, s, a)
    ensures RefersInto(db, q, t, a)
  {
  }

  // ---- one call of the schedule --------------------------------------------------------------------------

  lemma KeyIsOne(db: Db, r: Ref)
    requires StoreInv(db) && r in db.rows && r.table in {Servers, SecurityGroups, Lbs, LbIps, DnsZones}
    ensures r == Ref(r.table, [Head(r.key)])
  {
    hide StoreInv, Facts, ActionFacts, ParentFacts, ChildFacts, NamedFacts, NullableActions, TableFacts, Intact,
      KeysOk, RowOk;
    InvParts(db);
    if r.table != DnsZones {
      IdOf(db.schema, r, db.rows[r]);
    }
  }

  /** What a delete of the schedule does. */
  ghost predicate Deletes(db: Db, r: Ref, out: Outcome) {
    && Legal(db, DeleteCall(r)) && Step(db, DeleteCall(r), out)
    && out.status == Done && r !in out.db.rows && out.db.rows.Keys <= db.rows.Keys
  }

  lemma RemoveLowest(db: Db, r: Ref) returns (out: Outcome)
    requires StoreInv(db) && ChildrenFirst(db.schema) && Lowest(db, r)
    requires r.table !in {Servers, SecurityGroups, Lbs, LbIps, DnsZones}
    ensures Deletes(db, r, out)
  {
    hide StoreInv, Facts, ActionFacts, ParentFacts, ChildFacts, NamedFacts, NullableActions, TableFacts, Intact,
      RowsOk, DnsOk, KeysOk, ChildrenFirst, DeleteRows, Position;
    InvParts(db);
    LowestDeletes(db, r);
    assert r == Ref(r.table, r.key);
    out := Remove(db, r.table, r.key);
    RemoveKeeps(db, r.table, r.key);
  }

  /** No frontend, backend or attached balancer is left when a balancer, or an address, is lowest. */
  lemma LowestBalancer(db: Db, r: Ref)
    requires Lowest(db, r) && NoneStranded(db)
    ensures r.table == Lbs ==> forall q :: !PartOf(db, q, Head(r.key))
    ensures r.table == LbIps ==> Text(db.rows[r].data, LbId) == ""
  {
    if r.table == LbIps {
      assert !Stranded(db, r);
    }
  }

  lemma DeleteLowestBalancer(db: Db, r: Ref) returns (out: Outcome)
    requires StoreInv(db) && NoneStranded(db) && ChildrenFirst(db.schema) && Lowest(db, r)
    requires (r.table == Lbs || r.table == LbIps)
    ensures Deletes(db, r, out)
  {
    hide StoreInv, Facts, ActionFacts, ParentFacts, ChildFacts, NamedFacts, NullableActions, TableFacts, Intact,
      RowsOk, DnsOk, KeysOk, ChildrenFirst, DeleteRows, Position, NoneStranded, Lowest, PartOf;
    InvParts(db);
    assert r in db.rows by { LowestStored(db, r); }
    KeyIsOne(db, r);
    LowestBalancer(db, r);
    if r.table == Lbs {
      out := DeleteLb(db, Head(r.key));
      DeletedLb(db, Head(r.key));
    } else {
      LowestDeletes(db, r);
      out := DeleteLbIp(db, Head(r.key));
      RemoveKeeps(db, LbIps, r.key);
    }
  }

  lemma LowestStored(db: Db, r: Ref)
    requires Lowest(db, r)
    ensures r in db.rows
  {
  }

  lemma DeletedLb(db: Db, id: string)
    requires LbRef(id) in db.rows && !HasParts(db, id)
    ensures DeleteLb(db, id).status == Done && LbRef(id) !in DeleteLb(db, id).db.rows
    ensures DeleteLb(db, id).db.rows.Keys <= db.rows.Keys
  {
    hide HasParts, Released;
  }

  lemma DeleteLowestOther(db: Db, r: Ref) returns (out: Outcome)
    requires StoreInv(db) && r in db.rows && r.table in {Servers, SecurityGroups, DnsZones}
    ensures Deletes(db, r, out)
  {
    hide StoreInv, Facts, DetachedIp, DetachedServer, RefersBy, InZone;
    KeyIsOne(db, r);
    var id := Head(r.key);
    match r.table {
      case Servers => out := DeleteServer(db, id);
      case SecurityGroups => out := DeleteSecurityGroup(db, id);
      case DnsZones => out := DeleteZone(db, id);
    }
  }

  /** A lowest row can be deleted, and everything the rest of the schedule relies on stays. */
  lemma DeleteLowest(db: Db, r: Ref) returns (out: Outcome)
    requires StoreInv(db) && NoneStranded(db) && ChildrenFirst(db.schema) && Lowest(db, r)
    ensures Deletes(db, r, out)
    ensures StoreInv(out.db) && NoneStranded(out.db) && out.db.schema == db.schema
    ensures |out.db.rows| < |db.rows|
  {
    hide StoreInv, NoneStranded, ChildrenFirst, Legal, Step, Kept, Lowest;
    assert r in db.rows by { LowestStored(db, r); }
    if r.table == Lbs || r.table == LbIps {
      out := DeleteLowestBalancer(db, r);
    } else if r.table == Servers || r.table == SecurityGroups || r.table == DnsZones {
      out := DeleteLowestOther(db, r);
    } else {
      out := RemoveLowest(db, r);
    }
    StepKeeps(db, DeleteCall(r), out);
    KeptParts(db, DeleteCall(r), out);
    DeletesStrandNone(db, r, out);
    FewerRows(db, out.db, r);
  }

  lemma DeletesStrandNone(db: Db, r: Ref, out: Outcome)
    requires StoreInv(db) && NoneStranded(db) && Deletes(db, r, out) && Kept(db, DeleteCall(r), out)
    ensures NoneStranded(out.db)
  {
    hide StoreInv, NoneStranded, Legal, Step, Kept;
    StrandedStep(db, DeleteCall(r), out);
  }

  // ---- the whole schedule --------------------------------------------------------------------------------

  /** A schedule of deletes from a store to the last one, in children-first order, every call succeeding. */
  ghost predicate Schedule(dbs: seq<Db>, targets: seq<Ref>) {
    && |dbs| == |targets| + 1
    && (forall i | 0 <= i < |targets| ::
          && Deletes(dbs[i], targets[i], Outcome(dbs[i + 1], Done)) && targets[i] in dbs[i].rows
          && |dbs[i + 1].rows| < |dbs[i].rows|)
    && (forall i | 0 < i < |targets| :: Position(targets[i - 1].table) <= Position(targets[i].table))
  }

  /** A dependent row has its parent, in a table with a delete of its own. */
  lemma DependentHasParent(db: Db, r: Ref, fk: ForeignKey)
    requires Intact(db) && r in db.rows && fk in db.schema.foreignKeys && fk.child == r.table
    requires r.table in db.schema.required && fk.column in db.schema.required[r.table]
    ensures exists q | q in db.rows :: q.table == fk.parent
  {
    assert ParentsExist(db, r) && RequiredPresent(db.schema, r, db.rows[r]);
    assert Uses(db, r, fk);
  }

  /** Without deletable rows there are no dependent rows either. */
  lemma OnlyLabels(db: Db, r: Ref)
    requires StoreInv(db) && r in db.rows
    requires forall q | q in db.rows :: !Deletable(q.table)
    ensures r.table == MarketplaceLabels
  {
    hide StoreInv, Facts, ActionFacts, ParentFacts, ChildFacts, NullableActions, KeyNameFacts, SourceFacts, RowsOk,
      DnsOk, KeysOk, Intact;
    InvParts(db);
    match r.table {
      case RdbPrivileges => DependentHasParent(db, r, PRIVILEGE_INSTANCE);
      case RdbAcls => DependentHasParent(db, r, ACL_INSTANCE);
      case IamRules => DependentHasParent(db, r, RULE_POLICY);
      case IamGroupMembers => DependentHasParent(db, r, MEMBER_GROUP);
      case _ =>
    }
  }

  /**
   * From every store without stranded addresses there is a children-first schedule of public deletes in which
   * every call succeeds, every call removes rows, and in the end only marketplace labels remain.
   */
  lemma CanBeTornDown(db: Db) returns (dbs: seq<Db>, targets: seq<Ref>)
    requires StoreInv(db) && NoneStranded(db) && ChildrenFirst(db.schema)
    ensures Schedule(dbs, targets) && dbs[0] == db
    ensures forall r | r in dbs[|targets|].rows :: r.table == MarketplaceLabels
    ensures targets != [] ==> Lowest(db, targets[0])
    decreases |db.rows|
  {
    hide StoreInv, NoneStranded, ChildrenFirst, Deletes, Position, Deletable;
    if q :| q in db.rows && Deletable(q.table) {
      var r := LowestFrom(db, q);
      var out := DeleteLowest(db, r);
      assert out == Outcome(out.db, Done) && out.db.rows.Keys <= db.rows.Keys by { DeletedParts(db, r, out); }
      var rest, later := CanBeTornDown(out.db);
      dbs, targets := [db] + rest, [r] + later;
      Prepend(db, r, rest, later);
    } else {
      dbs, targets := [db], [];
      forall r | r in db.rows
        ensures r.table == MarketplaceLabels
      {
        OnlyLabels(db, r);
      }
    }
  }

  lemma DeletedParts(db: Db, r: Ref, out: Outcome)
    requires Deletes(db, r, out)
    ensures out == Outcome(out.db, Done) && out.db.rows.Keys <= db.rows.Keys
  {
    hide Legal, Step;
  }

  lemma Prepend(db: Db, r: Ref, dbs: seq<Db>, targets: seq<Ref>)
    requires Schedule(dbs, targets) && Lowest(db, r)
    requires Deletes(db, r, Outcome(dbs[0], Done)) && |dbs[0].rows| < |db.rows| && dbs[0].rows.Keys <= db.rows.Keys
    requires targets != [] ==> Lowest(dbs[0], targets[0])
    ensures Schedule([db] + dbs, [r] + targets)
  {
    hide Deletes, Position, Deletable;
    var longer, all := [db] + dbs, [r] + targets;
    forall i | 0 <= i < |all|
      ensures Deletes(longer[i], all[i], Outcome(longer[i + 1], Done)) && all[i] in longer[i].rows
      ensures |longer[i + 1].rows| < |longer[i].rows|
      ensures i > 0 ==> Position(all[i - 1].table) <= Position(all[i].table)
    {
      if i == 1 {
        assert targets[0] in db.rows;
      }
      if i > 1 {
        assert all[i - 1] == targets[i - 2] && all[i] == targets[i - 1];
      }
    }
  }

  /**
   * Every store of a run can be torn down in which balancers take addresses of their own zone and no patch sends
   * a zone to a balancer or an address, or an lb_id to an address.
   */
  lemma ReachableCanBeTornDown(run: seq<Db>, calls: seq<Call>, i: nat) returns (dbs: seq<Db>, targets: seq<Ref>)
    requires Run(run, calls) && i < |run| && forall j | 0 <= j < |calls| :: HomeCall(run[j], calls[j])
    ensures Schedule(dbs, targets) && dbs[0] == run[i]
    ensures forall r | r in dbs[|targets|].rows :: r.table == MarketplaceLabels
  {
    hide StoreInv, NoneStranded, ChildrenFirst, Schedule, Goes, HomeCall, Lowest, Facts, MOCKWAY;
    RunsKeepTheStore(run, calls, i);
    NoneStrandedOverRuns(run, calls, i);
    SchemaOverRuns(run, calls, i);
    MockwayFacts();
    dbs, targets := CanBeTornDown(run[i]);
  }

  lemma SchemaOverRuns(run: seq<Db>, calls: seq<Call>, i: nat)
    requires Run(run, calls) && i < |run|
    ensures run[i].schema == MOCKWAY
  {
    hide StoreInv, Legal, Step, Kept, Goes, MOCKWAY;
    if i > 0 {
      SchemaOverRuns(run, calls, i - 1);
      var out := StepOf(run, calls, i - 1);
      KeptParts(run[i - 1], calls[i - 1], out);
    }
  }

  // ---- exactly which stores can be emptied -----------------------------------------------------------------

  /** Any sequence of public deletes, successful or not, that ends with labels only. */
  ghost predicate Empties(db: Db, dbs: seq<Db>, calls: seq<Call>) {
    DeleteRun(dbs, calls) && dbs[0] == db && forall r | r in dbs[|calls|].rows :: r.table == MarketplaceLabels
  }

  function DeleteCalls(targets: seq<Ref>): (calls: seq<Call>)
    ensures |calls| == |targets| && forall i | 0 <= i < |targets| :: calls[i] == DeleteCall(targets[i])
  {
    if targets == [] then [] else [DeleteCall(targets[0])] + DeleteCalls(targets[1..])
  }

  lemma ScheduleDeletes(dbs: seq<Db>, targets: seq<Ref>)
    requires Schedule(dbs, targets)
    ensures DeleteRun(dbs, DeleteCalls(targets))
  {
    hide Legal, Step, DeleteCalls;
    var calls := DeleteCalls(targets);
    forall i | 0 <= i < |calls|
      ensures IsDelete(calls[i]) && Goes(dbs[i], calls[i], dbs[i + 1])
    {
      assert Step(dbs[i], DeleteCall(targets[i]), Outcome(dbs[i + 1], Done));
    }
  }

  /**
   * A store can be emptied by public deletes exactly when no address is stranded: a stranded one survives every
   * delete, whichever calls are made and in whatever order.
   */
  lemma EmptiedExactly(db: Db)
    requires StoreInv(db) && ChildrenFirst(db.schema)
    ensures (exists dbs, calls :: Empties(db, dbs, calls)) <==> NoneStranded(db)
  {
    hide StoreInv, ChildrenFirst, Schedule, DeleteRun, Stranded, Lowest;
    if NoneStranded(db) {
      var dbs, targets := CanBeTornDown(db);
      ScheduleDeletes(dbs, targets);
      assert |dbs| == |targets| + 1 by { ScheduleLength(dbs, targets); }
      assert Empties(db, dbs, DeleteCalls(targets));
    } else {
      var r :| Stranded(db, r);
      forall dbs, calls
        ensures !Empties(db, dbs, calls)
      {
        StrandedNotEmptied(db, dbs, calls, r);
      }
    }
  }

  lemma ScheduleLength(dbs: seq<Db>, targets: seq<Ref>)
    requires Schedule(dbs, targets)
    ensures |dbs| == |targets| + 1
  {
    hide Deletes, Position;
  }

  lemma StrandedNotEmptied(db: Db, dbs: seq<Db>, calls: seq<Call>, r: Ref)
    requires StoreInv(db) && Stranded(db, r)
    ensures !Empties(db, dbs, calls)
  {
    hide StoreInv, DeleteRun;
    if DeleteRun(dbs, calls) && |dbs| == |calls| + 1 && dbs[0] == db {
      StrandedForever(dbs, calls, r, |calls|);
    }
    DeleteRunLength(dbs, calls);
  }

  lemma DeleteRunLength(dbs: seq<Db>, calls: seq<Call>)
    ensures DeleteRun(dbs, calls) ==> |dbs| == |calls| + 1
  {
    hide Goes;
  }
}
