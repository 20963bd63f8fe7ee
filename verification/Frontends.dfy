/** Frontends and the backends their documents name: a reference kept by the code, not by the database. */
module Frontends {
  import opened Wrappers
  import opened Documents
  import opened Relational
  import opened MockwaySchema
  import opened Store
  import opened Balancers
  import opened Runs

  function BackendRef(id: string): Ref { Ref(LbBackends, [id]) }

  /** A frontend whose document names the backend. */
  ghost predicate ServedBy(db: Db, r: Ref, backend: string) {
    r in db.rows && r.table == LbFrontends && Text(db.rows[r].data, BackendId) == backend
  }

  /** Every backend that a frontend's document names is stored. */
  ghost predicate AllServed(db: Db) {
    forall r, backend | ServedBy(db, r, backend) :: backend == "" || BackendRef(backend) in db.rows
  }

  /** Deleting a backend some frontend names is the one call that leaves a frontend without its backend. */
  ghost predicate SparesBackends(db: Db, call: Call) {
    match call
    case RemoveCall(t, key) =>
      t == LbBackends && |key| == 1 && key[0] != "" && Ref(t, key) in db.rows ==> forall r :: !ServedBy(db, r, key[0])
    case _ => true
  }

  /** The reference is kept by every call except the deletion of a backend that a frontend names. */
  lemma ServedStep(db: Db, call: Call, out: Outcome)
    requires StoreInv(db) && AllServed(db) && Legal(db, call) && Step(db, call, out) && Kept(db, call, out)
    ensures AllServed(out.db) <==> SparesBackends(db, call)
  {
    hide StoreInv, AllServed, Legal, Step, Kept, Touches, ServedBy;
    match call
    case CreateCall(_, _, _, _) => ServedCreate(db, call, out);
    case PatchCall(_, _, _) => ServedPatch(db, call, out);
    case SetFieldCall(_, _, _, _) => ServedSetField(db, call, out);
    case RemoveCall(_, _) => ServedRemove(db, call, out);
    case ResetCall => ServedReset(db, call, out);
    case _ =>
      FrontendsUntouched(call);
      ServedApart(db, call, out);
  }

  lemma FrontendsUntouched(call: Call)
    requires !call.CreateCall? && !call.PatchCall? && !call.SetFieldCall? && !call.RemoveCall? && !call.ResetCall?
    ensures LbFrontends !in Touches(call) && LbBackends !in Touches(call)
  {
  }

  lemma ServedApart(db: Db, call: Call, out: Outcome)
    requires AllServed(db) && Kept(db, call, out)
    requires LbFrontends !in Touches(call) && LbBackends !in Touches(call)
    ensures AllServed(out.db)
  {
    hide StoreInv, Touches, Text;
    assert SameTable(db, out.db, LbFrontends) && SameTable(db, out.db, LbBackends);
    forall r, backend | ServedBy(out.db, r, backend)
      ensures backend == "" || BackendRef(backend) in out.db.rows
    {
      assert ServedBy(db, r, backend);
    }
  }

  /** One row written, in whatever table; a frontend's backend has been looked up. */
  lemma ServedWrite(db: Db, next: Db, p: Ref)
    requires AllServed(db) && p in next.rows && next.rows == db.rows[p := next.rows[p]]
    requires p.table == LbFrontends ==> !Missing(db.rows, LbBackends, Text(next.rows[p].data, BackendId))
    ensures AllServed(next)
  {
    hide Text;
    forall r, backend | ServedBy(next, r, backend)
      ensures backend == "" || BackendRef(backend) in next.rows
    {
      assert r != p ==> ServedBy(db, r, backend);
    }
  }

  lemma ServedCreate(db: Db, call: Call, out: Outcome)
    requires StoreInv(db) && AllServed(db) && Legal(db, call) && Step(db, call, out) && call.CreateCall?
    ensures AllServed(out.db)
  {
    hide StoreInv, AllServed, Create, Fresh, KeyNamesOf, KeyColumns, Text;
    CreateKeeps(db, call.t, call.key, call.params, call.data);
    if out.status == Done {
      ServedWrite(db, out.db, Ref(call.t, call.key));
    }
  }

  lemma ServedPatch(db: Db, call: Call, out: Outcome)
    requires StoreInv(db) && AllServed(db) && Legal(db, call) && Step(db, call, out) && call.PatchCall?
    ensures AllServed(out.db)
  {
    hide StoreInv, AllServed, Patch, KeyColumns, Text;
    PatchKeeps(db, call.t, call.key, call.patch);
    if out.status == Done {
      ServedWrite(db, out.db, Ref(call.t, call.key));
    }
  }

  lemma ServedSetField(db: Db, call: Call, out: Outcome)
    requires AllServed(db) && Legal(db, call) && Kept(db, call, out) && call.SetFieldCall?
    ensures AllServed(out.db)
  {
    hide StoreInv, AllServed, Kept;
    ServedApart(db, call, out);
  }

  lemma ServedRemove(db: Db, call: Call, out: Outcome)
    requires StoreInv(db) && AllServed(db) && Legal(db, call) && Step(db, call, out) && Kept(db, call, out)
    requires call.RemoveCall?
    ensures AllServed(out.db) <==> SparesBackends(db, call)
  {
    hide StoreInv, AllServed, Remove, Kept, ServedBy, Closure, Referrers;
    if call.t == LbBackends {
      RemoveBackend(db, call.key);
      ServedAfter(db, out.db, Ref(LbBackends, call.key));
    } else if call.t == LbFrontends {
      RemoveKeeps(db, call.t, call.key);
      ServedShrunk(db, out.db);
    } else {
      ServedApart(db, call, out);
    }
  }

  /** No foreign key points to a backend, so its deletion is never refused. */
  lemma RemoveBackend(db: Db, key: seq<string>)
    requires StoreInv(db)
    ensures Remove(db, LbBackends, key).db == db.(rows := db.rows - {Ref(LbBackends, key)})
    ensures Remove(db, LbBackends, key).status == Done <==> Ref(LbBackends, key) in db.rows
  {
    hide StoreInv, Facts, ActionFacts, ParentFacts, ChildFacts, NamedFacts, NullableActions, TableFacts, Intact, RowsOk,
      DnsOk, KeysOk, DeleteRows;
    InvParts(db);
    var r := Ref(LbBackends, key);
    if r in db.rows {
      DeleteLeaves(db, {r});
    } else {
      assert db.rows - {r} == db.rows;
    }
  }

  lemma ServedAfter(db: Db, next: Db, b: Ref)
    requires AllServed(db) && next == db.(rows := db.rows - {b}) && b.table == LbBackends
    ensures AllServed(next) <==> SparesBackends(db, RemoveCall(LbBackends, b.key))
  {
    hide Text;
    assert forall r, backend :: ServedBy(next, r, backend) <==> ServedBy(db, r, backend);
    if |b.key| == 1 {
      assert b == BackendRef(b.key[0]);
    }
    assert forall id | BackendRef(id) == b :: b.key[0] == id;
  }

  lemma ServedShrunk(db: Db, next: Db)
    requires AllServed(db) && next.rows.Keys <= db.rows.Keys
    requires forall r | r in next.rows :: next.rows[r] == db.rows[r]
    requires forall r | r in db.rows && r.table == LbBackends :: r in next.rows
    ensures AllServed(next)
  {
    hide Text;
    forall r, backend | ServedBy(next, r, backend)
      ensures backend == "" || BackendRef(backend) in next.rows
    {
      assert ServedBy(db, r, backend);
    }
  }

  lemma ServedReset(db: Db, call: Call, out: Outcome)
    requires Step(db, call, out) && call.ResetCall?
    ensures AllServed(out.db)
  {
  }

  /** Over a whole run every frontend has its backend in every store iff no call deletes a backend in use. */
  lemma ServedOverRuns(dbs: seq<Db>, calls: seq<Call>)
    requires Run(dbs, calls)
    ensures (forall i | 0 <= i < |dbs| :: AllServed(dbs[i])) <==>
            (forall j | 0 <= j < |calls| :: SparesBackends(dbs[j], calls[j]))
  {
    hide StoreInv, Legal, Step, Kept, Goes, MOCKWAY, SparesBackends, AllServed;
    if forall j | 0 <= j < |calls| :: SparesBackends(dbs[j], calls[j]) {
      forall i | 0 <= i < |dbs|
        ensures AllServed(dbs[i])
      {
        ServedUpTo(dbs, calls, i);
      }
    }
    if forall i | 0 <= i < |dbs| :: AllServed(dbs[i]) {
      forall j | 0 <= j < |calls|
        ensures SparesBackends(dbs[j], calls[j])
      {
        var out := StepOf(dbs, calls, j);
        ServedStep(dbs[j], calls[j], out);
      }
    }
  }

  lemma ServedUpTo(dbs: seq<Db>, calls: seq<Call>, i: nat)
    requires Run(dbs, calls) && i < |dbs| && forall j | 0 <= j < |calls| :: SparesBackends(dbs[j], calls[j])
    ensures AllServed(dbs[i])
  {
    hide StoreInv, Legal, Step, Kept, Goes, MOCKWAY, SparesBackends;
    if i > 0 {
      ServedUpTo(dbs, calls, i - 1);
      var out := StepOf(dbs, calls, i - 1);
      ServedStep(dbs[i - 1], calls[i - 1], out);
    }
  }

  /** A backend in use is deleted without complaint, and the frontend is left without it. */
  lemma BackendInUseGoes(db: Db, r: Ref, backend: string)
    requires StoreInv(db) && AllServed(db) && ServedBy(db, r, backend) && backend != ""
    ensures var out := Remove(db, LbBackends, [backend]);
            && out.status == Done && !AllServed(out.db)
            && ServedBy(out.db, r, backend) && BackendRef(backend) !in out.db.rows
  {
    hide StoreInv, Remove, Text;
    RemoveBackend(db, [backend]);
    assert BackendRef(backend) == Ref(LbBackends, [backend]);
    assert ServedBy(Remove(db, LbBackends, [backend]).db, r, backend);
  }

  // ---- creating frontends and backends -----------------------------------------------------------------------

  function ServingRow(lb: string, data: Doc, id: string): Row {
    Row(map[LbId := lb], data[LbId := Str(lb)][Id := Str(id)])
  }

  /** A frontend or backend is stored exactly when its balancer and the backend it names, if any, are. */
  lemma ServingCreated(db: Db, t: Table, id: string, lb: string, data: Doc)
    requires StoreInv(db) && db.schema == MOCKWAY && t in {LbFrontends, LbBackends} && Ref(t, [id]) !in db.rows
    ensures |KeyNamesOf(db.schema, t)| == 1
    ensures Create(db, t, [id], map[LbId := lb], data) ==
            if LbRef(lb) in db.rows && !(t == LbFrontends && Missing(db.rows, LbBackends, Text(data, BackendId)))
            then Outcome(db.(rows := db.rows[Ref(t, [id]) := ServingRow(lb, data, id)]), Done)
            else Outcome(db, Failed(NotFound))
  {
    hide StoreInv, MOCKWAY, Insert, KeyNamesOf, SourcesOf, Columns, Column, Missing;
    ServingSchema(t);
    ServingDoc(t, id, lb, data);
    ServingInsert(db, t, id, lb, data);
    assert (map[LbId := lb] - Column(LbId, Plain).Keys) + map[LbId := lb] == map[LbId := lb];
  }

  lemma ServingSchema(t: Table)
    requires t in {LbFrontends, LbBackends}
    ensures SourcesOf(MOCKWAY, t) == Column(LbId, Plain) && KeyNamesOf(MOCKWAY, t) == [Id]
    ensures t in MOCKWAY.required && MOCKWAY.required[t] == {LbId}
  {
    hide FOREIGN_KEYS;
  }

  lemma ServingDoc(t: Table, id: string, lb: string, data: Doc)
    requires t in {LbFrontends, LbBackends}
    ensures var doc := ServingRow(lb, data, id).data;
            && Spelled(Prepared(t, WithParams(data, map[LbId := lb])), [Id], [id]) == doc
            && Columns(Column(LbId, Plain), doc, true) == map[LbId := lb]
            && Text(doc, BackendId) == Text(data, BackendId)
  {
    var doc := ServingRow(lb, data, id).data;
    assert WithParams(data, map[LbId := lb]) == data[LbId := Str(lb)];
    assert TextAt(doc, [LbId]) == lb;
    assert Extract(Source([LbId], Plain), doc, true) == Some(lb);
  }

  lemma ServingInsert(db: Db, t: Table, id: string, lb: string, data: Doc)
    requires StoreInv(db) && db.schema == MOCKWAY && t in {LbFrontends, LbBackends} && Ref(t, [id]) !in db.rows
    ensures var row := ServingRow(lb, data, id);
            Insert(db, Ref(t, [id]), row) ==
            if LbRef(lb) in db.rows then Ok(db.(rows := db.rows[Ref(t, [id]) := row])) else Err(NotFound)
  {
    hide StoreInv, MOCKWAY, Facts, ActionFacts, ParentFacts, NullableActions, TableFacts, Intact, RowsOk, DnsOk, KeysOk;
    InvParts(db);
    ServingSchema(t);
    var r, row := Ref(t, [id]), ServingRow(lb, data, id);
    var next := db.(rows := db.rows[r := row]);
    var key := if t == LbFrontends then FRONTEND_LB else BACKEND_LB;
    assert Uses(next, r, key) && Target(key, row) == LbRef(lb);
    forall fk | fk in db.schema.foreignKeys && Uses(next, r, fk)
      ensures Target(fk, row) == LbRef(lb)
    {
      assert ByChild(fk);
    }
  }

  // ---- a run that loses a backend ----------------------------------------------------------------------------

  const LONE_LB := Row(map[Zone := "z"], CreatedLb("z", map[], "l", InlineIp("i", "l", "z")))
  const WITH_LB := Db(MOCKWAY, map[LbRef("l") := LONE_LB])
  const WITH_BACKEND := WITH_LB.(rows := WITH_LB.rows[BackendRef("b") := ServingRow("l", map[], "b")])
  const SERVED: Doc := map[BackendId := Str("b")]
  const WITH_FRONTEND :=
    WITH_BACKEND.(rows := WITH_BACKEND.rows[Ref(LbFrontends, ["f"]) := ServingRow("l", SERVED, "f")])

  const SERVING_CALLS: seq<Call> := [
    CreateLbCall("z", map[], "l", "i"), CreateCall(LbBackends, ["b"], map[LbId := "l"], map[]),
    CreateCall(LbFrontends, ["f"], map[LbId := "l"], SERVED)
  ]

  lemma LbGoes()
    ensures Goes(FIRST, SERVING_CALLS[0], WITH_LB)
  {
    hide MOCKWAY, Facts, StoreInv, ActionFacts, ParentFacts, ChildFacts, NamedFacts, NullableActions, TableFacts,
      Intact, RowsOk, DnsOk, KeysOk, Insert, CreatedLb;
    FirstStore();
    InvParts(FIRST);
    LbInsert(FIRST, "z", LONE_LB.data, "l");
    assert Fresh(FIRST, "l") && Fresh(FIRST, "i");
    assert Step(FIRST, SERVING_CALLS[0], Outcome(WITH_LB, Done));
  }

  /** The first balancer's document holds four strings, at most four levels down. */
  lemma LoneLbMentions(s: string)
    requires s !in {"z", "l", "i"}
    ensures !MentionsDoc(LONE_LB.data, s)
  {
    var entry := InlineIp("i", "l", "z");
    assert !Mentions(Obj(entry), s);
    assert !Mentions(Arr([Obj(entry)]), s);
    forall k | k in LONE_LB.data
      ensures !Mentions(LONE_LB.data[k], s)
    {
      assert LONE_LB.data[k] in {Str("z"), Str("l"), Arr([Obj(entry)])};
    }
  }

  lemma FreshBackend()
    ensures Fresh(WITH_LB, "b")
  {
    hide MOCKWAY, CreatedLb, MentionsDoc;
    LoneLbMentions("b");
  }

  lemma FreshFrontend()
    ensures Fresh(WITH_BACKEND, "f")
  {
    hide MOCKWAY, CreatedLb, MentionsDoc;
    LoneLbMentions("f");
    var row := ServingRow("l", map[], "b");
    assert !MentionsDoc(row.data, "f") by { ServingMentions("l", "b", "f"); }
    forall r | r in WITH_BACKEND.rows
      ensures "f" !in r.key && "f" !in WITH_BACKEND.rows[r].cols.Values && !MentionsDoc(WITH_BACKEND.rows[r].data, "f")
    {
      assert r == LbRef("l") || r == BackendRef("b");
    }
  }

  lemma ServingMentions(lb: string, id: string, s: string)
    requires s != lb && s != id
    ensures !MentionsDoc(ServingRow(lb, map[], id).data, s)
  {
  }

  lemma BackendGoes()
    ensures Goes(WITH_LB, SERVING_CALLS[1], WITH_BACKEND)
  {
    hide MOCKWAY, StoreInv, Create, KeyNamesOf, Fresh;
    LbGoes();
    FirstStore();
    GoesKeeps(FIRST, SERVING_CALLS[0], WITH_LB);
    ServingCreated(WITH_LB, LbBackends, "b", "l", map[]);
    FreshBackend();
    FreshBackend();
    assert Step(WITH_LB, SERVING_CALLS[1], Outcome(WITH_BACKEND, Done));
  }

  lemma FrontendGoes()
    ensures Goes(WITH_BACKEND, SERVING_CALLS[2], WITH_FRONTEND)
  {
    hide MOCKWAY, StoreInv, Create, KeyNamesOf, Fresh, ServingRow;
    LbGoes();
    BackendGoes();
    FirstStore();
    GoesKeeps(FIRST, SERVING_CALLS[0], WITH_LB);
    GoesKeeps(WITH_LB, SERVING_CALLS[1], WITH_BACKEND);
    ServingCreated(WITH_BACKEND, LbFrontends, "f", "l", SERVED);
    FreshFrontend();
    assert Step(WITH_BACKEND, SERVING_CALLS[2], Outcome(WITH_FRONTEND, Done));
  }

  /** A balancer, a backend, a frontend that names it; then the backend goes and the frontend keeps naming it. */
  lemma LostBackendRun() returns (dbs: seq<Db>, calls: seq<Call>)
    ensures Run(dbs, calls) && |calls| == 4 && calls[3] == RemoveCall(LbBackends, ["b"])
    ensures AllServed(dbs[3]) && !AllServed(dbs[4])
    ensures ServedBy(dbs[4], Ref(LbFrontends, ["f"]), "b") && BackendRef("b") !in dbs[4].rows
  {
    hide MOCKWAY, StoreInv, Goes, Remove, AllServed, ServedBy, WITH_LB, WITH_BACKEND, WITH_FRONTEND, Legal, Step;
    LbGoes();
    BackendGoes();
    FrontendGoes();
    var before := [FIRST, WITH_LB, WITH_BACKEND, WITH_FRONTEND];
    assert Run(before, SERVING_CALLS);
    ServedUpTo(before, SERVING_CALLS, 3);
    RunsKeepTheStore(before, SERVING_CALLS, 3);
    FrontendStored();
    var last := Remove(WITH_FRONTEND, LbBackends, ["b"]).db;
    BackendInUseGoes(WITH_FRONTEND, Ref(LbFrontends, ["f"]), "b");
    RemovedGoes(WITH_FRONTEND, ["b"]);
    OneMoreCall(before, SERVING_CALLS, RemoveCall(LbBackends, ["b"]), last);
    dbs, calls := before + [last], SERVING_CALLS + [RemoveCall(LbBackends, ["b"])];
  }

  lemma OneMoreCall(dbs: seq<Db>, calls: seq<Call>, call: Call, next: Db)
    requires Run(dbs, calls) && Goes(dbs[|calls|], call, next)
    ensures Run(dbs + [next], calls + [call])
  {
    hide Goes, MOCKWAY;
  }

  lemma FrontendStored()
    ensures ServedBy(WITH_FRONTEND, Ref(LbFrontends, ["f"]), "b")
  {
    hide MOCKWAY, WITH_BACKEND;
  }

  lemma RemovedGoes(db: Db, key: seq<string>)
    ensures Goes(db, RemoveCall(LbBackends, key), Remove(db, LbBackends, key).db)
  {
    hide Remove;
    assert Step(db, RemoveCall(LbBackends, key), Remove(db, LbBackends, key));
  }
}
