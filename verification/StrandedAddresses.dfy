/** Balancer addresses that no delete can free: where they come from, and that they stay. */
module StrandedAddresses {
  import opened Wrappers
  import opened Documents
  import opened Relational
  import opened MockwaySchema
  import opened Store
  import opened Balancers
  import opened Runs

  /** The balancer an address names is not stored, or its deletion will not release the address. */
  ghost predicate Stranded(db: Db, r: Ref) {
    && r in db.rows && r.table == LbIps && Text(db.rows[r].data, LbId) != ""
    && var lb := LbRef(Text(db.rows[r].data, LbId));
       !(lb in db.rows && ColumnValue(db.rows[r], Zone) == ColumnValue(db.rows[lb], Zone))
  }

  ghost predicate NoneStranded(db: Db) {
    forall r :: !Stranded(db, r)
  }

  // ---- runs that strand no address ---------------------------------------------------------------------------

  /** Balancers take addresses of their own zone; no patch sends a zone to either, or an lb_id to an address. */
  ghost predicate HomeCall(db: Db, call: Call) {
    match call
    case CreateLbCall(zone, data, _, _) =>
      LbIpRef(ChosenIp(data)) in db.rows ==> ColumnValue(db.rows[LbIpRef(ChosenIp(data))], Zone) == Some(zone)
    case PatchCall(t, _, patch) =>
      (t == Lbs || t == LbIps ==> Get(patch, Zone) == Null) && (t == LbIps ==> Get(patch, LbId) == Null)
    case _ => true
  }

  lemma StrandedStep(db: Db, call: Call, out: Outcome)
    requires StoreInv(db) && NoneStranded(db) && Legal(db, call) && Step(db, call, out) && Kept(db, call, out)
    requires HomeCall(db, call)
    ensures NoneStranded(out.db)
  {
    hide StoreInv, NoneStranded, Legal, Step, Kept, HomeCall, Touches;
    match call
    case CreateCall(_, _, _, _) => CreateStrandsNone(db, call, out);
    case PatchCall(_, _, _) => PatchStrandsNone(db, call, out);
    case SetFieldCall(_, _, _, _) => SharedStrandsNone(db, call, out);
    case RemoveCall(_, _) => SharedStrandsNone(db, call, out);
    case CreateLbCall(_, _, _, _) => CreateLbStrandsNone(db, call, out);
    case DeleteLbCall(_) => DeleteLbStrandsNone(db, call, out);
    case DeleteLbIpCall(_) => DeleteLbIpStrandsNone(db, call, out);
    case ResetCall => ResetStrandsNone(db, call, out);
    case _ =>
      BalancersUntouched(call);
      StrandedApart(db, call, out);
  }

  lemma BalancersUntouched(call: Call)
    requires !call.CreateCall? && !call.PatchCall? && !call.SetFieldCall? && !call.RemoveCall? && !call.ResetCall?
    requires !call.CreateLbCall? && !call.DeleteLbCall? && !call.DeleteLbIpCall?
    ensures Lbs !in Touches(call) && LbIps !in Touches(call)
  {
  }

  /** Calls that touch neither balancers nor addresses strand what was stranded. */
  lemma SameStranded(db: Db, call: Call, out: Outcome, r: Ref)
    requires Kept(db, call, out) && Lbs !in Touches(call) && LbIps !in Touches(call)
    ensures Stranded(out.db, r) <==> Stranded(db, r)
  {
    hide StoreInv, Touches;
    assert SameTable(db, out.db, Lbs) && SameTable(db, out.db, LbIps);
  }

  lemma StrandedApart(db: Db, call: Call, out: Outcome)
    requires NoneStranded(db) && Kept(db, call, out) && Lbs !in Touches(call) && LbIps !in Touches(call)
    ensures NoneStranded(out.db)
  {
    hide StoreInv, Kept, Touches, Stranded;
    forall r
      ensures !Stranded(out.db, r)
    {
      SameStranded(db, call, out, r);
    }
  }

  lemma SharedStrandsNone(db: Db, call: Call, out: Outcome)
    requires NoneStranded(db) && Legal(db, call) && Kept(db, call, out) && (call.SetFieldCall? || call.RemoveCall?)
    ensures NoneStranded(out.db)
  {
    hide StoreInv, NoneStranded, Kept;
    StrandedApart(db, call, out);
  }

  lemma CreateStrandsNone(db: Db, call: Call, out: Outcome)
    requires StoreInv(db) && NoneStranded(db) && Legal(db, call) && Step(db, call, out) && Kept(db, call, out)
    requires call.CreateCall?
    ensures NoneStranded(out.db)
  {
    hide StoreInv, NoneStranded, Create, Fresh, Kept, KeyNamesOf, KeyColumns;
    if call.t == LbIps {
      NewAddressFree(db, call.key, call.params, call.data);
    } else {
      StrandedApart(db, call, out);
    }
  }

  /** A new address names no balancer. */
  lemma NewAddressFree(db: Db, key: seq<string>, params: map<Name, string>, data: Doc)
    requires StoreInv(db) && NoneStranded(db) && |KeyNamesOf(db.schema, LbIps)| == |key|
    ensures NoneStranded(Create(db, LbIps, key, params, data).db)
  {
    hide StoreInv, Facts, ActionFacts, ParentFacts, ChildFacts, NamedFacts, NullableActions, RequiredFacts,
      SourceFacts, Intact, RowsOk, DnsOk, KeysOk, Create;
    InvParts(db);
    assert KeyNamesOf(db.schema, LbIps) == [Id];
    var next := Create(db, LbIps, key, params, data).db;
    CreateKeeps(db, LbIps, key, params, data);
    SpelledId(Prepared(LbIps, WithParams(data, params)), key[0]);
    assert key == [key[0]];
    assert SameTable(db, next, Lbs);
    forall r
      ensures !Stranded(next, r)
    {
      assert !Stranded(db, r);
    }
  }

  lemma PatchStrandsNone(db: Db, call: Call, out: Outcome)
    requires StoreInv(db) && NoneStranded(db) && Legal(db, call) && Step(db, call, out) && Kept(db, call, out)
    requires HomeCall(db, call) && call.PatchCall?
    ensures NoneStranded(out.db)
  {
    hide StoreInv, NoneStranded, Patch, Kept, KeyColumns;
    if call.t == Lbs || call.t == LbIps {
      assert call.key == [call.key[0]];
      PatchedHome(db, call.t, call.key[0], call.patch);
    } else {
      StrandedApart(db, call, out);
    }
  }

  lemma PatchedHome(db: Db, t: Table, id: string, patch: Doc)
    requires StoreInv(db) && NoneStranded(db) && (t == Lbs || t == LbIps)
    requires Get(patch, Zone) == Null && (t == LbIps ==> Get(patch, LbId) == Null)
    ensures NoneStranded(Patch(db, t, [id], patch).db)
  {
    hide StoreInv, Facts, ActionFacts, ParentFacts, ChildFacts, NamedFacts, NullableActions, TableFacts, Intact,
      RowsOk, DnsOk, KeysOk, Patch, PatchMerge, Stranded, Text, ColumnValue;
    var p, next := Ref(t, [id]), Patch(db, t, [id], patch).db;
    PatchKeeps(db, t, [id], patch);
    if Patch(db, t, [id], patch).status == Done {
      PatchedZone(db, t, id, patch);
      if t == LbIps {
        MergeAt(db.rows[p].data, patch, Protected(db.schema, t), LbId);
        SameText(db.rows[p].data, next.rows[p].data, LbId);
      }
      forall r
        ensures !Stranded(next, r)
      {
        RewrittenHome(db, next, p, r);
      }
    }
  }

  /** One row rewritten with the same zone and, if it is an address, the same balancer. */
  lemma RewrittenHome(db: Db, next: Db, p: Ref, r: Ref)
    requires p in db.rows && p in next.rows && next.rows == db.rows[p := next.rows[p]]
    requires p.table == LbIps ==> Text(next.rows[p].data, LbId) == Text(db.rows[p].data, LbId)
    requires ColumnValue(next.rows[p], Zone) == ColumnValue(db.rows[p], Zone)
    ensures Stranded(next, r) ==> Stranded(db, r)
  {
    hide Text, ColumnValue;
  }

  lemma CreateLbStrandsNone(db: Db, call: Call, out: Outcome)
    requires StoreInv(db) && NoneStranded(db) && Legal(db, call) && Step(db, call, out) && HomeCall(db, call)
    requires call.CreateLbCall?
    ensures NoneStranded(out.db)
  {
    hide StoreInv, CreateLb, Fresh, ChosenIp, FirstIp, Text, Stranded;
    FreshBalancer(db, call.id);
    CreateLbAllOrNothing(db, call.zone, call.data, call.id, call.inlineId);
    if out.status == Done {
      forall r
        ensures !Stranded(out.db, r)
      {
        CreatedLbHome(db, out.db, call.zone, ChosenIp(call.data), call.id, r);
      }
    }
  }

  lemma CreatedLbHome(db: Db, next: Db, zone: string, ip: string, id: string, r: Ref)
    requires !Stranded(db, r) && LbRef(id) !in db.rows && next.rows.Keys == db.rows.Keys + {LbRef(id)}
    requires ColumnValue(next.rows[LbRef(id)], Zone) == Some(zone)
    requires forall q | q in db.rows && (ip == "" || q != LbIpRef(ip)) :: next.rows[q] == db.rows[q]
    requires ip != "" ==>
               && LbIpRef(ip) in db.rows && Text(next.rows[LbIpRef(ip)].data, LbId) == id
               && ColumnValue(next.rows[LbIpRef(ip)], Zone) == Some(zone)
    ensures !Stranded(next, r)
  {
    hide Text, ColumnValue;
  }

  lemma DeleteLbStrandsNone(db: Db, call: Call, out: Outcome)
    requires NoneStranded(db) && Step(db, call, out) && call.DeleteLbCall?
    ensures NoneStranded(out.db)
  {
    hide DeleteLb, Stranded;
    DeleteLbExact(db, call.id);
    if out.status == Done {
      forall r
        ensures !Stranded(out.db, r)
      {
        DeletedLbHome(db, call.id, r);
      }
    }
  }

  lemma DeletedLbHome(db: Db, id: string, r: Ref)
    requires !Stranded(db, r) && DeleteLb(db, id).status == Done
    ensures !Stranded(DeleteLb(db, id).db, r)
  {
    hide DeleteLb;
    DeleteLbAt(db, id, r);
    if r in db.rows {
      DeleteLbAt(db, id, LbRef(Text(db.rows[r].data, LbId)));
    }
    assert LbRef(id).key[0] == id;
  }

  lemma DeleteLbIpStrandsNone(db: Db, call: Call, out: Outcome)
    requires StoreInv(db) && NoneStranded(db) && Step(db, call, out) && call.DeleteLbIpCall?
    ensures NoneStranded(out.db)
  {
    hide StoreInv, DeleteLbIp, Stranded;
    forall r
      ensures !Stranded(out.db, r)
    {
      DeletedLbIpAt(db, call.id, r);
    }
  }

  /** DeleteLBIP removes no stranded address and strands none. */
  lemma DeletedLbIpAt(db: Db, id: string, r: Ref)
    requires StoreInv(db)
    ensures Stranded(DeleteLbIp(db, id).db, r) <==> Stranded(db, r)
  {
    hide StoreInv, Remove, ColumnValue, Closure, Referrers;
    RemoveKeeps(db, LbIps, [id]);
    if LbIpRef(id) in db.rows && Text(db.rows[LbIpRef(id)].data, LbId) == "" {
      assert SameTable(db, Remove(db, LbIps, [id]).db, Lbs);
    }
  }

  lemma ResetStrandsNone(db: Db, call: Call, out: Outcome)
    requires Step(db, call, out) && call.ResetCall?
    ensures NoneStranded(out.db)
  {
  }

  /** No reachable store has a stranded address, over runs of such calls. */
  lemma NoneStrandedOverRuns(dbs: seq<Db>, calls: seq<Call>, i: nat)
    requires Run(dbs, calls) && i < |dbs| && forall j | 0 <= j < |calls| :: HomeCall(dbs[j], calls[j])
    ensures NoneStranded(dbs[i])
  {
    hide StoreInv, Legal, Step, Kept, Goes, MOCKWAY, HomeCall;
    if i > 0 {
      NoneStrandedOverRuns(dbs, calls, i - 1);
      var out := StepOf(dbs, calls, i - 1);
      StrandedStep(dbs[i - 1], calls[i - 1], out);
    }
  }

  // ---- a stranded address survives every delete ----------------------------------------------------------------

  /** The public deletes. */
  predicate IsDelete(call: Call) {
    || call.RemoveCall? || call.DeleteServerCall? || call.DeleteGroupCall? || call.DeleteVolumeCall?
    || call.DeleteLbCall? || call.DeleteLbIpCall? || call.DeleteZoneCall? || call.RemoveMemberCall?
    || call.ClearAclsCall?
  }

  lemma StrandedStays(db: Db, call: Call, out: Outcome, r: Ref)
    requires StoreInv(db) && Legal(db, call) && Step(db, call, out) && Kept(db, call, out) && IsDelete(call)
    requires Stranded(db, r)
    ensures Stranded(out.db, r)
  {
    hide StoreInv, Legal, Step, Kept, Stranded, Touches;
    match call
    case RemoveCall(_, _) => StrandedThroughRemove(db, call, out, r);
    case DeleteLbCall(_) => StrandedThroughLb(db, call, out, r);
    case DeleteLbIpCall(_) => StrandedThroughLbIp(db, call, out, r);
    case _ =>
      BalancersUntouched(call);
      SameStranded(db, call, out, r);
  }

  lemma StrandedThroughRemove(db: Db, call: Call, out: Outcome, r: Ref)
    requires Legal(db, call) && Kept(db, call, out) && call.RemoveCall? && Stranded(db, r)
    ensures Stranded(out.db, r)
  {
    hide StoreInv, Kept, Stranded;
    SameStranded(db, call, out, r);
  }

  lemma StrandedThroughLbIp(db: Db, call: Call, out: Outcome, r: Ref)
    requires StoreInv(db) && Step(db, call, out) && call.DeleteLbIpCall? && Stranded(db, r)
    ensures Stranded(out.db, r)
  {
    hide StoreInv, DeleteLbIp, Stranded;
    DeletedLbIpAt(db, call.id, r);
  }

  lemma StrandedThroughLb(db: Db, call: Call, out: Outcome, r: Ref)
    requires Step(db, call, out) && call.DeleteLbCall? && Stranded(db, r)
    ensures Stranded(out.db, r)
  {
    hide DeleteLb;
    DeleteLbExact(db, call.id);
    if out.status == Done {
      DeleteLbAt(db, call.id, r);
      DeleteLbAt(db, call.id, LbRef(Text(db.rows[r].data, LbId)));
      assert LbRef(call.id).key[0] == call.id;
    }
  }

  /** Public deletes one after another, successful or not. */
  ghost predicate DeleteRun(dbs: seq<Db>, calls: seq<Call>) {
    && |dbs| == |calls| + 1
    && forall i | 0 <= i < |calls| :: IsDelete(calls[i]) && Goes(dbs[i], calls[i], dbs[i + 1])
  }

  lemma StrandedForever(dbs: seq<Db>, calls: seq<Call>, r: Ref, i: nat)
    requires DeleteRun(dbs, calls) && StoreInv(dbs[0]) && Stranded(dbs[0], r) && i < |dbs|
    ensures StoreInv(dbs[i]) && Stranded(dbs[i], r)
  {
    hide StoreInv, Legal, Step, Kept, Stranded, IsDelete;
    if i > 0 {
      StrandedForever(dbs, calls, r, i - 1);
      assert Goes(dbs[i - 1], calls[i - 1], dbs[i]);
      var out :| Step(dbs[i - 1], calls[i - 1], out) && out.db == dbs[i];
      StepKeeps(dbs[i - 1], calls[i - 1], out);
      KeptParts(dbs[i - 1], calls[i - 1], out);
      StrandedStays(dbs[i - 1], calls[i - 1], out, r);
    }
  }
}
