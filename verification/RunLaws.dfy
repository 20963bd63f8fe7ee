/** The hand-maintained invariants, over every run whose calls meet their conditions. */
module RunLaws {
  import opened Wrappers
  import opened Documents
  import opened Relational
  import opened MockwaySchema
  import opened Store
  import opened Instances
  import opened InstanceLaws
  import opened Groups
  import opened Balancers
  import opened VolumePlaces
  import opened Aliases
  import opened Runs

  // ---- security groups over runs ---------------------------------------------------------------------------

  /** Creates that went through the handler's normalisation, and patches with a proper security_group. */
  predicate GroupCall(call: Call) {
    match call
    case CreateServerCall(_, data, _) => NormalForm(data)
    case UpdateServerCall(_, patch) => ShapedPatch(patch)
    case _ => true
  }

  lemma SameGroupRows(db: Db, next: Db, r: Ref)
    requires r in db.rows && r in next.rows && next.rows == db.rows[r := next.rows[r]]
    requires r.table == Servers ==>
               && ColumnValue(next.rows[r], SecurityGroupId) == ColumnValue(db.rows[r], SecurityGroupId)
               && Get(next.rows[r].data, SecurityGroupId) == Get(db.rows[r].data, SecurityGroupId)
               && Get(next.rows[r].data, SecurityGroup) == Get(db.rows[r].data, SecurityGroup)
    ensures SameGroups(db, next)
  {
  }

  lemma GroupStep(db: Db, call: Call, out: Outcome)
    requires StoreInv(db) && GroupInv(db) && Legal(db, call) && Step(db, call, out) && GroupCall(call)
    ensures GroupInv(out.db)
  {
    hide StoreInv, Facts, GroupInv, Create, Patch, SetField, Remove, CreateServer, UpdateServer, DeleteServer,
      DeleteSecurityGroup, VolumeDeleted, ChangesOnly, Fresh, NormalForm, ShapedPatch, SameGroups, Kept;
    StepKeeps(db, call, out);
    match call {
      case CreateServerCall(zone, data, ids) =>
        FreshNotBlank(db, ids.server);
        FreshUnstored(db, ids.group, SecurityGroups);
        CreateServerGroups(db, zone, data, ids);
      case UpdateServerCall(id, patch) => UpdateServerGroups(db, id, patch);
      case DeleteServerCall(id) => DeleteServerGroups(db, id);
      case DeleteGroupCall(id) =>
        if out.status == Done {
          DeleteGroupForgets(db, id);
        } else {
          assert out.db == db by { FailedSame(db, call, out); }
        }
      case DeleteVolumeCall(zone, id) => VolumeStepGroups(db, zone, id, out);
      case ResetCall => assert GroupInv(out.db) by { EmptyGroups(out.db); }
      case _ => OtherGroupStep(db, call, out);
    }
  }

  lemma FreshUnstored(db: Db, id: string, t: Table)
    requires Fresh(db, id)
    ensures Ref(t, [id]) !in db.rows
  {
    hide MentionsDoc, Trim;
    assert id in Ref(t, [id]).key;
  }

  lemma EmptyGroups(db: Db)
    requires db.rows == map[]
    ensures GroupInv(db)
  {
  }

  lemma FailedSame(db: Db, call: Call, out: Outcome)
    requires Kept(db, call, out) && out.status != Done
    ensures out.db == db
  {
    hide StoreInv, ChangesOnly;
  }

  lemma VolumeStepGroups(db: Db, zone: string, id: string, out: Outcome)
    requires StoreInv(db) && GroupInv(db) && VolumeDeleted(db, zone, id, out)
    ensures GroupInv(out.db)
  {
    hide StoreInv, Facts, GroupInv, Remove, EmbeddedVolumes, IsVolume, WithoutVolume;
    if BlockRef(id) in db.rows {
      RemovedVolumeGroups(db, BlockVolumes, id);
    } else if StandaloneRef(id) in db.rows {
      RemovedVolumeGroups(db, InstanceVolumes, id);
    } else if Embedded(db, zone, id) {
      var r, k :| HoldsVolume(db, zone, r, k, id)
                  && out == Outcome(db.(rows := db.rows[r := WithoutVolume(db.rows[r], k)]), Done);
      TakenVolumeGroups(db, zone, id, r, k);
    }
  }

  lemma RemovedVolumeGroups(db: Db, t: Table, id: string)
    requires StoreInv(db) && GroupInv(db) && (t == BlockVolumes || t == InstanceVolumes)
    ensures GroupInv(Remove(db, t, [id]).db)
  {
    hide StoreInv, GroupInv, Remove, SameGroups, SameTable;
    RemoveKeeps(db, t, [id]);
    var next := Remove(db, t, [id]).db;
    assert SameTable(db, next, Servers) && SameTable(db, next, SecurityGroups);
    UntouchedGroups(db, next);
    GroupFrame(db, next);
  }

  lemma TakenVolumeGroups(db: Db, zone: string, id: string, r: Ref, k: Name)
    requires GroupInv(db) && HoldsVolume(db, zone, r, k, id)
    ensures GroupInv(db.(rows := db.rows[r := WithoutVolume(db.rows[r], k)]))
  {
    hide GroupInv, EmbeddedVolumes, IsVolume;
    var next := db.(rows := db.rows[r := WithoutVolume(db.rows[r], k)]);
    SameGroupRows(db, next, r);
    GroupFrame(db, next);
  }

  /** The calls that leave every server's group fields, and the set of groups, alone. */
  lemma OtherGroupStep(db: Db, call: Call, out: Outcome)
    requires StoreInv(db) && GroupInv(db) && Legal(db, call) && Step(db, call, out) && Kept(db, call, out)
    requires !call.CreateServerCall? && !call.UpdateServerCall? && !call.DeleteServerCall? && !call.DeleteGroupCall?
    requires !call.DeleteVolumeCall? && !call.ResetCall?
    ensures GroupInv(out.db)
  {
    hide StoreInv, GroupInv, Legal, Step, Kept;
    match call
    case CreateCall(t, _, _, _) => GroupCreateStep(db, call, out);
    case PatchCall(t, _, _) => GroupPatchStep(db, call, out);
    case SetFieldCall(t, _, _, _) => GroupSetStep(db, call, out);
    case RemoveCall(t, _) => GroupRemoveStep(db, call, out);
    case _ => GroupsApart(db, call, out);
  }

  lemma GroupCreateStep(db: Db, call: Call, out: Outcome)
    requires StoreInv(db) && GroupInv(db) && Legal(db, call) && Step(db, call, out) && Kept(db, call, out)
    requires call.CreateCall?
    ensures GroupInv(out.db)
  {
    hide StoreInv, GroupInv, Kept, Create, Fresh, KeyNamesOf, KeyColumns;
    if call.t == SecurityGroups {
      GroupKey(db);
      assert call.key == [call.key[0]];
      CreateGroupGroups(db, call.key[0], call.params, call.data);
    } else {
      GroupsApart(db, call, out);
    }
  }

  lemma GroupPatchStep(db: Db, call: Call, out: Outcome)
    requires StoreInv(db) && GroupInv(db) && Legal(db, call) && Step(db, call, out) && Kept(db, call, out)
    requires call.PatchCall?
    ensures GroupInv(out.db)
  {
    hide StoreInv, GroupInv, Kept, Patch, SameGroups, ChangesOnly, KeyColumns, PatchMerge, Translated, Protected;
    if call.t == SecurityGroups {
      PatchKeeps(db, call.t, call.key, call.patch);
      if out.status == Done {
        SameGroupRows(db, out.db, Ref(call.t, call.key));
        GroupFrame(db, out.db);
      }
    } else {
      GroupsApart(db, call, out);
    }
  }

  lemma GroupSetStep(db: Db, call: Call, out: Outcome)
    requires StoreInv(db) && GroupInv(db) && Legal(db, call) && Step(db, call, out) && Kept(db, call, out)
    requires call.SetFieldCall?
    ensures GroupInv(out.db)
  {
    hide StoreInv, GroupInv, Kept, SetField, SameGroups, ChangesOnly, KeyColumns, Loose, TableFacts, Facts, ActionFacts,
      ParentFacts, ChildFacts, NamedFacts, NullableActions, Intact, RowsOk, DnsOk, KeysOk;
    if call.t == SecurityGroups || call.t == Servers {
      InvParts(db);
      SettableLoose(db.schema, call.t, call.k);
      SetFieldKeeps(db, call.t, call.key, call.k, call.v);
      if out.status == Done {
        SameGroupRows(db, out.db, Ref(call.t, call.key));
        GroupFrame(db, out.db);
      }
    } else {
      GroupsApart(db, call, out);
    }
  }

  lemma GroupRemoveStep(db: Db, call: Call, out: Outcome)
    requires StoreInv(db) && GroupInv(db) && Legal(db, call) && Step(db, call, out) && Kept(db, call, out)
    requires call.RemoveCall?
    ensures GroupInv(out.db)
  {
    hide StoreInv, GroupInv, Kept, Remove;
    GroupsApart(db, call, out);
  }

  lemma GroupKey(db: Db)
    requires StoreInv(db)
    ensures KeyNamesOf(db.schema, SecurityGroups) == [Id]
  {
    hide RequiredFacts, SourceFacts, ActionFacts, ParentFacts, ChildFacts, NamedFacts, NullableActions, Intact, RowsOk,
      DnsOk, KeysOk;
  }

  lemma GroupsApart(db: Db, call: Call, out: Outcome)
    requires GroupInv(db) && Kept(db, call, out) && Servers !in Touches(call) && SecurityGroups !in Touches(call)
    ensures GroupInv(out.db)
  {
    hide StoreInv, GroupInv, SameGroups, SameTable, Touches;
    UntouchedGroups(db, out.db);
    GroupFrame(db, out.db);
  }

  /**
   * Over any run of normalised creates and shaped patches, a server's column is Some(x) exactly when its
   * document's security_group_id is x and group x is stored.
   */
  lemma GroupsOverRuns(dbs: seq<Db>, calls: seq<Call>, i: nat)
    requires Run(dbs, calls) && i < |dbs| && forall j | 0 <= j < |calls| :: GroupCall(calls[j])
    ensures GroupInv(dbs[i])
  {
    hide StoreInv, Legal, Step, Kept, GroupInv, Goes, MOCKWAY, GroupCall;
    if i == 0 {
      EmptyGroups(dbs[0]);
    } else {
      GroupsOverRuns(dbs, calls, i - 1);
      var out := StepOf(dbs, calls, i - 1);
      GroupStep(dbs[i - 1], calls[i - 1], out);
    }
  }

  // ---- balancer addresses over runs ------------------------------------------------------------------------

  /** Every balancer takes its address from its own zone, and no patch rewrites an attachment field. */
  ghost predicate AttachCall(db: Db, call: Call) {
    match call
    case CreateLbCall(zone, data, _, _) =>
      LbIpRef(ChosenIp(data)) in db.rows ==> ColumnValue(db.rows[LbIpRef(ChosenIp(data))], Zone) == Some(zone)
    case PatchCall(t, _, patch) => t == Lbs || t == LbIps ==> LeavesAttachment(t, patch)
    case _ => true
  }

  lemma AttachmentStep(db: Db, call: Call, out: Outcome)
    requires StoreInv(db) && AttachInv(db) && Legal(db, call) && Step(db, call, out) && Kept(db, call, out)
    requires AttachCall(db, call)
    ensures AttachInv(out.db)
  {
    hide StoreInv, AttachInv, Legal, Step, Kept, AttachCall;
    match call
    case CreateCall(_, _, _, _) => AttachCreateStep(db, call, out);
    case PatchCall(_, _, _) => AttachPatchStep(db, call, out);
    case SetFieldCall(_, _, _, _) => AttachSharedStep(db, call, out);
    case RemoveCall(_, _) => AttachSharedStep(db, call, out);
    case CreateLbCall(_, _, _, _) => AttachLbStep(db, call, out);
    case DeleteLbCall(_) => AttachLbStep(db, call, out);
    case DeleteLbIpCall(_) => AttachLbStep(db, call, out);
    case ResetCall => AttachResetStep(db, call, out);
    case _ => AttachApart(db, call, out);
  }

  lemma AttachCreateStep(db: Db, call: Call, out: Outcome)
    requires StoreInv(db) && AttachInv(db) && Legal(db, call) && Step(db, call, out) && Kept(db, call, out)
    requires call.CreateCall?
    ensures AttachInv(out.db)
  {
    hide StoreInv, AttachInv, Create, Fresh, Kept, KeyNamesOf, KeyColumns;
    if call.t == LbIps {
      LbIpKey(db);
      assert call.key == [call.key[0]];
      CreateLbIpAttach(db, call.key[0], call.params, call.data);
    } else {
      AttachApart(db, call, out);
    }
  }

  lemma AttachPatchStep(db: Db, call: Call, out: Outcome)
    requires StoreInv(db) && AttachInv(db) && Legal(db, call) && Step(db, call, out) && Kept(db, call, out)
    requires AttachCall(db, call) && call.PatchCall?
    ensures AttachInv(out.db)
  {
    hide StoreInv, AttachInv, Patch, Kept, LeavesAttachment, KeyColumns;
    if call.t == Lbs || call.t == LbIps {
      assert call.key == [call.key[0]];
      PatchAttach(db, call.t, call.key[0], call.patch);
    } else {
      AttachApart(db, call, out);
    }
  }

  lemma AttachSharedStep(db: Db, call: Call, out: Outcome)
    requires AttachInv(db) && Legal(db, call) && Kept(db, call, out) && (call.SetFieldCall? || call.RemoveCall?)
    ensures AttachInv(out.db)
  {
    hide StoreInv, AttachInv, Kept;
    AttachApart(db, call, out);
  }

  lemma AttachLbStep(db: Db, call: Call, out: Outcome)
    requires StoreInv(db) && AttachInv(db) && Legal(db, call) && Step(db, call, out) && AttachCall(db, call)
    requires call.CreateLbCall? || call.DeleteLbCall? || call.DeleteLbIpCall?
    ensures AttachInv(out.db)
  {
    hide StoreInv, AttachInv, CreateLb, DeleteLb, DeleteLbIp, Fresh, ChosenIp;
    match call
    case CreateLbCall(zone, data, id, inlineId) => CreateLbAttach(db, zone, data, id, inlineId);
    case DeleteLbCall(id) => DeleteLbAttach(db, id);
    case DeleteLbIpCall(id) => DeleteLbIpAttach(db, id);
  }

  lemma AttachResetStep(db: Db, call: Call, out: Outcome)
    requires Step(db, call, out) && call.ResetCall?
    ensures AttachInv(out.db)
  {
    hide AttachInv;
    EmptyAttach(out.db);
  }

  lemma LbIpKey(db: Db)
    requires StoreInv(db)
    ensures KeyNamesOf(db.schema, LbIps) == [Id]
  {
    hide RequiredFacts, SourceFacts, ActionFacts, ParentFacts, ChildFacts, NamedFacts, NullableActions, Intact, RowsOk,
      DnsOk, KeysOk;
  }

  lemma EmptyAttach(db: Db)
    requires db.rows == map[]
    ensures AttachInv(db)
  {
  }

  lemma AttachApart(db: Db, call: Call, out: Outcome)
    requires AttachInv(db) && Kept(db, call, out) && Lbs !in Touches(call) && LbIps !in Touches(call)
    ensures AttachInv(out.db)
  {
    hide StoreInv, Touches;
    assert SameTable(db, out.db, Lbs) && SameTable(db, out.db, LbIps);
    SameAttachments(db, out.db);
  }

  lemma SameAttachments(db: Db, next: Db)
    requires AttachInv(db) && SameTable(db, next, Lbs) && SameTable(db, next, LbIps)
    ensures AttachInv(next)
  {
    hide FirstIp, Attached, Embeds, SameTable;
    forall q: Ref | q.table == Lbs || q.table == LbIps
      ensures q in next.rows <==> q in db.rows
      ensures q in db.rows ==> next.rows[q] == db.rows[q]
    {
      SameRow(db, next, q);
    }
    forall q | q in next.rows && q.table == Lbs
      ensures Embeds(next, q)
    {
      SameTablesEmbeds(db, next, q);
    }
    forall r | r in next.rows && r.table == LbIps
      ensures Attached(next, r)
    {
      SameTablesAttached(db, next, r);
    }
  }

  lemma SameRow(db: Db, next: Db, q: Ref)
    requires SameTable(db, next, q.table)
    ensures q in next.rows <==> q in db.rows
    ensures q in db.rows ==> next.rows[q] == db.rows[q]
  {
  }

  lemma SameTablesEmbeds(db: Db, next: Db, q: Ref)
    requires SameTable(db, next, Lbs) && SameTable(db, next, LbIps) && q.table == Lbs && Embeds(db, q)
    ensures Embeds(next, q)
  {
    hide FirstIp;
  }

  lemma SameTablesAttached(db: Db, next: Db, r: Ref)
    requires SameTable(db, next, Lbs) && SameTable(db, next, LbIps) && r.table == LbIps && Attached(db, r)
    ensures Attached(next, r)
  {
    hide FirstIp;
  }

  /**
   * While every balancer takes its address from its own zone, an address names a balancer exactly when the
   * balancer is stored and embeds the address first: a partial bijection in every reachable store.
   */
  lemma AttachmentOverRuns(dbs: seq<Db>, calls: seq<Call>, i: nat)
    requires Run(dbs, calls) && i < |dbs| && forall j | 0 <= j < |calls| :: AttachCall(dbs[j], calls[j])
    ensures AttachInv(dbs[i])
  {
    hide StoreInv, Legal, Step, Kept, AttachInv, Goes, MOCKWAY, AttachCall;
    if i == 0 {
      EmptyAttach(dbs[0]);
    } else {
      AttachmentOverRuns(dbs, calls, i - 1);
      var out := StepOf(dbs, calls, i - 1);
      AttachmentStep(dbs[i - 1], calls[i - 1], out);
    }
  }

  // ---- volumes over runs -----------------------------------------------------------------------------------

  /** No server update rewrites the embedded volumes. */
  predicate VolumeCall(call: Call) {
    call.UpdateServerCall? ==> Get(call.patch, Volumes) == Null
  }

  lemma VolumeStep(db: Db, call: Call, out: Outcome)
    requires StoreInv(db) && VolumeInv(db) && Legal(db, call) && Step(db, call, out) && Kept(db, call, out)
    requires VolumeCall(call)
    ensures VolumeInv(out.db)
  {
    hide StoreInv, VolumeInv, Legal, Step, Kept;
    match call
    case CreateCall(_, _, _, _) => VolumeCreateStep(db, call, out);
    case PatchCall(_, _, _) => VolumePatchStep(db, call, out);
    case SetFieldCall(_, _, _, _) => VolumeSetStep(db, call, out);
    case RemoveCall(_, _) => VolumeRemoveStep(db, call, out);
    case CreateServerCall(_, _, _) => VolumeServerStep(db, call, out);
    case UpdateServerCall(_, _) => VolumeServerStep(db, call, out);
    case DeleteServerCall(_) => VolumeServerStep(db, call, out);
    case DeleteGroupCall(_) => VolumeServerStep(db, call, out);
    case DeleteVolumeCall(_, _) => VolumeDeleteStep(db, call, out);
    case ResetCall => VolumeServerStep(db, call, out);
    case _ => VolumesApart(db, call, out);
  }

  lemma VolumesApart(db: Db, call: Call, out: Outcome)
    requires VolumeInv(db) && Kept(db, call, out)
    requires Servers !in Touches(call) && BlockVolumes !in Touches(call) && InstanceVolumes !in Touches(call)
    ensures VolumeInv(out.db)
  {
    hide StoreInv, VolumeInv, Touches, SameTable, NoNewVolume;
    UntouchedVolumes(db, out.db);
    VolumeFrame(db, out.db);
  }

  lemma VolumeKey(db: Db)
    requires StoreInv(db)
    ensures KeyNamesOf(db.schema, BlockVolumes) == KeyNamesOf(db.schema, InstanceVolumes) == [Id]
  {
    hide RequiredFacts, SourceFacts, ActionFacts, ParentFacts, ChildFacts, NamedFacts, NullableActions, Intact, RowsOk,
      DnsOk, KeysOk;
  }

  lemma VolumeCreateStep(db: Db, call: Call, out: Outcome)
    requires StoreInv(db) && VolumeInv(db) && Legal(db, call) && Step(db, call, out) && Kept(db, call, out)
    requires call.CreateCall?
    ensures VolumeInv(out.db)
  {
    hide StoreInv, VolumeInv, Kept, Create, Fresh, KeyNamesOf, KeyColumns;
    if call.t == BlockVolumes || call.t == InstanceVolumes {
      VolumeKey(db);
      assert call.key == [call.key[0]];
      CreateVolumeVolumes(db, call.t, call.key[0], call.params, call.data);
    } else {
      VolumesApart(db, call, out);
    }
  }

  lemma VolumePatchStep(db: Db, call: Call, out: Outcome)
    requires StoreInv(db) && VolumeInv(db) && Legal(db, call) && Step(db, call, out) && Kept(db, call, out)
    requires call.PatchCall?
    ensures VolumeInv(out.db)
  {
    hide StoreInv, VolumeInv, Kept, Patch, KeyColumns;
    if call.t == BlockVolumes || call.t == InstanceVolumes {
      PatchedVolume(db, call.t, call.key, call.patch);
    } else {
      VolumesApart(db, call, out);
    }
  }

  lemma PatchedVolume(db: Db, t: Table, key: seq<string>, patch: Doc)
    requires StoreInv(db) && VolumeInv(db) && (t == BlockVolumes || t == InstanceVolumes)
    ensures VolumeInv(Patch(db, t, key, patch).db)
  {
    hide StoreInv, VolumeInv, Patch, PatchMerge, Translated, Protected;
    PatchKeeps(db, t, key, patch);
    FewerVolumes(db, Patch(db, t, key, patch).db);
  }

  lemma VolumeSetStep(db: Db, call: Call, out: Outcome)
    requires StoreInv(db) && VolumeInv(db) && Legal(db, call) && Step(db, call, out) && Kept(db, call, out)
    requires call.SetFieldCall?
    ensures VolumeInv(out.db)
  {
    hide StoreInv, VolumeInv, Kept, SetField, KeyColumns, Loose, TableFacts, Facts, ActionFacts, ParentFacts,
      ChildFacts, NamedFacts, NullableActions, Intact, RowsOk, DnsOk, KeysOk, NoNewVolume;
    if call.t == Servers {
      SetServerVolumes(db, call.key, call.k, call.v);
    } else {
      VolumesApart(db, call, out);
    }
  }

  lemma SetServerVolumes(db: Db, key: seq<string>, k: Name, v: Json)
    requires StoreInv(db) && VolumeInv(db) && Settable(Servers, k)
    ensures VolumeInv(SetField(db, Servers, key, k, v).db)
  {
    hide StoreInv, VolumeInv, SetField, Loose, TableFacts, Facts, ActionFacts, ParentFacts, ChildFacts, NamedFacts,
      NullableActions, Intact, RowsOk, DnsOk, KeysOk, NoNewVolume;
    InvParts(db);
    SettableLoose(db.schema, Servers, k);
    SetFieldKeeps(db, Servers, key, k, v);
    var next := SetField(db, Servers, key, k, v).db;
    SameVolumes(db, next);
    VolumeFrame(db, next);
  }

  lemma VolumeRemoveStep(db: Db, call: Call, out: Outcome)
    requires StoreInv(db) && VolumeInv(db) && Legal(db, call) && Step(db, call, out) && Kept(db, call, out)
    requires call.RemoveCall?
    ensures VolumeInv(out.db)
  {
    hide StoreInv, VolumeInv, Kept, Remove, NoNewVolume;
    if call.t == BlockVolumes || call.t == InstanceVolumes {
      RemoveKeeps(db, call.t, call.key);
      FewerVolumes(db, out.db);
    } else {
      VolumesApart(db, call, out);
    }
  }

  lemma FewerVolumes(db: Db, next: Db)
    requires VolumeInv(db) && SameTable(db, next, Servers)
    requires forall r | r in next.rows :: r in db.rows
    ensures VolumeInv(next)
  {
    hide VolumeInv, Holds;
    SameHolds(db, next);
    VolumeFrame(db, next);
  }

  lemma VolumeDeleteStep(db: Db, call: Call, out: Outcome)
    requires StoreInv(db) && VolumeInv(db) && Step(db, call, out) && call.DeleteVolumeCall?
    ensures VolumeInv(out.db)
  {
    hide StoreInv, VolumeInv, VolumeDeleted, Found, OnlyRow, HoldsVolume, Embedded, WithoutVolume, Snapshotted;
    VolumeDeleteOutcome(db, call.zone, call.id, out);
    if out.status == Done {
      VolumeDeleteForgets(db, call.zone, call.id, out);
    }
  }

  lemma VolumeServerStep(db: Db, call: Call, out: Outcome)
    requires StoreInv(db) && VolumeInv(db) && Legal(db, call) && Step(db, call, out) && Kept(db, call, out)
    requires VolumeCall(call)
    requires call.CreateServerCall? || call.UpdateServerCall? || call.DeleteServerCall? || call.DeleteGroupCall? ||
             call.ResetCall?
    ensures VolumeInv(out.db)
  {
    hide StoreInv, VolumeInv, CreateServer, UpdateServer, DeleteServer, DeleteSecurityGroup, Fresh, NoNewVolume;
    match call {
      case CreateServerCall(zone, data, ids) => CreateServerVolumes(db, zone, data, ids);
      case UpdateServerCall(id, patch) =>
        if out.status == Done {
          UpdatedServerVolumes(db, id, patch);
        }
      case DeleteServerCall(id) =>
        DeletedServerVolumes(db, id);
      case DeleteGroupCall(id) =>
        DeletedGroupVolumes(db, id);
      case ResetCall => EmptyVolumes(out.db);
    }
  }

  lemma EmptyVolumes(db: Db)
    requires db.rows == map[]
    ensures VolumeInv(db)
  {
  }

  lemma UpdatedServerVolumes(db: Db, id: string, patch: Doc)
    requires StoreInv(db) && VolumeInv(db) && Get(patch, Volumes) == Null
    requires UpdateServer(db, id, patch).status == Done
    ensures VolumeInv(UpdateServer(db, id, patch).db)
  {
    hide StoreInv, Facts, ActionFacts, ParentFacts, ChildFacts, NamedFacts, NullableActions, TableFacts, RowsOk, DnsOk,
      KeysOk, Intact, VolumeInv, Update, Refused, PatchedServer, NoNewVolume;
    InvParts(db);
    UpdateServerMeans(db, id, patch);
    var row := db.rows[ServerRef(id)];
    PatchedVolumes(db, row, patch);
    SameVolumes(db, UpdateServer(db, id, patch).db);
    VolumeFrame(db, UpdateServer(db, id, patch).db);
  }

  lemma PatchedVolumes(db: Db, row: Row, patch: Doc)
    requires Get(patch, Volumes) == Null
    ensures Get(PatchedServer(db, row, patch).data, Volumes) == Get(row.data, Volumes)
  {
    hide Reconciled, PatchMerge;
    MergeAt(row.data, patch, {Id}, Volumes);
    ReconciledId(db, patch, PatchMerge(row.data, patch, {Id}));
  }

  lemma DeletedServerVolumes(db: Db, id: string)
    requires VolumeInv(db)
    ensures VolumeInv(DeleteServer(db, id).db)
  {
    hide VolumeInv, DeleteServer, NoNewVolume, SameTable;
    DeletedServerRows(db, id);
    SameVolumes(db, DeleteServer(db, id).db);
    VolumeFrame(db, DeleteServer(db, id).db);
  }

  lemma DeletedServerRows(db: Db, id: string)
    ensures var next := DeleteServer(db, id).db;
            && SameTable(db, next, BlockVolumes) && SameTable(db, next, InstanceVolumes)
            && forall r | r in next.rows && r.table == Servers :: r in db.rows && next.rows[r] == db.rows[r]
  {
    hide DeleteServer;
    var next := DeleteServer(db, id).db;
    forall r: Ref | r.table == BlockVolumes || r.table == InstanceVolumes || r.table == Servers
      ensures r in next.rows ==> r in db.rows && next.rows[r] == db.rows[r]
      ensures r.table != Servers ==> (r in next.rows <==> r in db.rows)
    {
      DeletedServerRow(db, id, r);
    }
  }

  lemma DeletedServerRow(db: Db, id: string, r: Ref)
    requires r.table != InstanceIps && r.table != PrivateNics
    ensures r in DeleteServer(db, id).db.rows <==> r in db.rows && r != ServerRef(id)
    ensures r in DeleteServer(db, id).db.rows ==> DeleteServer(db, id).db.rows[r] == db.rows[r]
  {
    hide DetachedIp, RefersBy;
  }

  lemma DeletedGroupVolumes(db: Db, id: string)
    requires VolumeInv(db)
    ensures VolumeInv(DeleteSecurityGroup(db, id).db)
  {
    hide VolumeInv, DeleteSecurityGroup, NoNewVolume, SameTable;
    DeletedGroupRows(db, id);
    SameVolumes(db, DeleteSecurityGroup(db, id).db);
    VolumeFrame(db, DeleteSecurityGroup(db, id).db);
  }

  lemma DeletedGroupRows(db: Db, id: string)
    ensures var next := DeleteSecurityGroup(db, id).db;
            && SameTable(db, next, BlockVolumes) && SameTable(db, next, InstanceVolumes)
            && forall r | r in next.rows && r.table == Servers ::
                 r in db.rows && Get(next.rows[r].data, Volumes) == Get(db.rows[r].data, Volumes)
  {
    hide DeleteSecurityGroup;
    var next := DeleteSecurityGroup(db, id).db;
    forall r: Ref | r.table == BlockVolumes || r.table == InstanceVolumes || r.table == Servers
      ensures r in next.rows <==> r in db.rows
      ensures r in db.rows ==> Get(next.rows[r].data, Volumes) == Get(db.rows[r].data, Volumes)
      ensures r in db.rows && r.table != Servers ==> next.rows[r] == db.rows[r]
    {
      DeletedGroupRow(db, id, r);
    }
  }

  lemma DeletedGroupRow(db: Db, id: string, r: Ref)
    requires r.table != SecurityGroups
    ensures r in DeleteSecurityGroup(db, id).db.rows <==> r in db.rows
    ensures r in db.rows ==> Get(DeleteSecurityGroup(db, id).db.rows[r].data, Volumes) == Get(db.rows[r].data, Volumes)
    ensures r in db.rows && r.table != Servers ==> DeleteSecurityGroup(db, id).db.rows[r] == db.rows[r]
  {
    hide RefersBy;
  }

  /** While no server update rewrites the embedded volumes, an id lives in at most one of the three places. */
  lemma VolumesOverRuns(dbs: seq<Db>, calls: seq<Call>, i: nat)
    requires Run(dbs, calls) && i < |dbs| && forall j | 0 <= j < |calls| :: VolumeCall(calls[j])
    ensures VolumeInv(dbs[i])
  {
    hide StoreInv, Legal, Step, Kept, VolumeInv, Goes, MOCKWAY, VolumeCall;
    if i == 0 {
      EmptyVolumes(dbs[0]);
    } else {
      VolumesOverRuns(dbs, calls, i - 1);
      var out := StepOf(dbs, calls, i - 1);
      VolumeStep(dbs[i - 1], calls[i - 1], out);
    }
  }

  // ---- cluster aliases over runs ---------------------------------------------------------------------------

  /** No stored cluster has the alias "enable" inside its auto_upgrade object. */
  ghost predicate AliasInv(db: Db) {
    forall r | r in db.rows && r.table == Clusters :: NoEnable(db.rows[r].data)
  }

  lemma AliasStep(db: Db, call: Call, out: Outcome)
    requires StoreInv(db) && AliasInv(db) && Legal(db, call) && Step(db, call, out) && Kept(db, call, out)
    ensures AliasInv(out.db)
  {
    hide StoreInv, AliasInv, Legal, Step, Kept, Touches;
    match call
    case CreateCall(_, _, _, _) => AliasSharedStep(db, call, out);
    case PatchCall(_, _, _) => AliasSharedStep(db, call, out);
    case SetFieldCall(_, _, _, _) => AliasSharedStep(db, call, out);
    case RemoveCall(_, _) => AliasRemoveStep(db, call, out);
    case ResetCall => EmptyAliases(db, call, out);
    case _ =>
      ClustersUntouched(call);
      AliasesApart(db, call, out);
  }

  lemma ClustersUntouched(call: Call)
    requires !call.CreateCall? && !call.PatchCall? && !call.SetFieldCall? && !call.RemoveCall? && !call.ResetCall?
    ensures Clusters !in Touches(call)
  {
  }

  lemma AliasesApart(db: Db, call: Call, out: Outcome)
    requires AliasInv(db) && Kept(db, call, out) && Clusters !in Touches(call)
    ensures AliasInv(out.db)
  {
    hide StoreInv, Touches, NoEnable;
    assert SameTable(db, out.db, Clusters);
  }

  lemma EmptyAliases(db: Db, call: Call, out: Outcome)
    requires Step(db, call, out) && call.ResetCall?
    ensures AliasInv(out.db)
  {
  }

  lemma AliasSharedStep(db: Db, call: Call, out: Outcome)
    requires StoreInv(db) && AliasInv(db) && Legal(db, call) && Step(db, call, out) && Kept(db, call, out)
    requires call.CreateCall? || call.PatchCall? || call.SetFieldCall?
    ensures AliasInv(out.db)
  {
    hide StoreInv, Kept, Create, Patch, SetField, Fresh, KeyColumns, AliasInv, KeyNamesOf;
    if call.t != Clusters {
      AliasesApart(db, call, out);
    } else if call.CreateCall? {
      CreatedClusterAlias(db, call.key, call.params, call.data);
    } else if call.PatchCall? {
      PatchedClusterAlias(db, call.key, call.patch);
    }
  }

  lemma CreatedClusterAlias(db: Db, key: seq<string>, params: map<Name, string>, data: Doc)
    requires StoreInv(db) && AliasInv(db) && |KeyNamesOf(db.schema, Clusters)| == |key|
    ensures AliasInv(Create(db, Clusters, key, params, data).db)
  {
    hide StoreInv, Create, NoEnable, CreatedCluster, Spelled, Facts, ActionFacts, ParentFacts, ChildFacts, NamedFacts,
      NullableActions, TableFacts, RowsOk, DnsOk, KeysOk, Intact, KeyNamesOf;
    InvParts(db);
    CreateKeeps(db, Clusters, key, params, data);
    SpelledAlias(db, CreatedCluster(WithParams(data, params)), key);
    ClusterAliasGone(WithParams(data, params));
  }

  lemma PatchedClusterAlias(db: Db, key: seq<string>, patch: Doc)
    requires StoreInv(db) && AliasInv(db)
    ensures AliasInv(Patch(db, Clusters, key, patch).db)
  {
    hide StoreInv, Patch, NoEnable, PatchedCluster, PatchMerge, Protected;
    PatchKeeps(db, Clusters, key, patch);
    if Patch(db, Clusters, key, patch).status == Done {
      ClusterAliasGone(PatchMerge(db.rows[Ref(Clusters, key)].data, patch, Protected(db.schema, Clusters)));
    }
  }

  lemma SpelledAlias(db: Db, doc: Doc, key: seq<string>)
    requires TableFacts(db.schema) && |KeyNamesOf(db.schema, Clusters)| == |key|
    ensures NoEnable(doc) ==> NoEnable(Spelled(doc, KeyNamesOf(db.schema, Clusters), key))
  {
    hide TableFacts, Spelled, KeyNamesOf;
    KeyNamesKnown(db, Clusters);
    SpelledRight(doc, KeyNamesOf(db.schema, Clusters), key);
  }

  lemma AliasRemoveStep(db: Db, call: Call, out: Outcome)
    requires StoreInv(db) && AliasInv(db) && Legal(db, call) && Step(db, call, out) && Kept(db, call, out)
    requires call.RemoveCall?
    ensures AliasInv(out.db)
  {
    hide StoreInv, Kept, Remove, NoEnable;
    RemoveKeeps(db, call.t, call.key);
  }

  /** In every reachable store no cluster document has "enable" inside an auto_upgrade object. */
  lemma AliasesOverRuns(dbs: seq<Db>, calls: seq<Call>, i: nat)
    requires Run(dbs, calls) && i < |dbs|
    ensures AliasInv(dbs[i])
  {
    hide StoreInv, Legal, Step, Kept, Goes, MOCKWAY, NoEnable;
    if i > 0 {
      AliasesOverRuns(dbs, calls, i - 1);
      var out := StepOf(dbs, calls, i - 1);
      AliasStep(dbs[i - 1], calls[i - 1], out);
    }
  }

  /** A successful database-instance update stores neither flat flag, and the last one sent as the schedule's. */
  lemma InstanceUpdateStored(db: Db, id: string, patch: Doc)
    requires StoreInv(db)
    ensures var out := Patch(db, RdbInstances, [id], patch);
            out.status == Done ==>
              && Ref(RdbInstances, [id]) in db.rows && Ref(RdbInstances, [id]) in out.db.rows
              && var merged := PatchMerge(db.rows[Ref(RdbInstances, [id])].data, patch,
                                          Protected(db.schema, RdbInstances));
                 var doc := out.db.rows[Ref(RdbInstances, [id])].data;
                 && NoFlags(doc)
                 && (!NoFlags(merged) ==>
                       && Get(doc, BackupSchedule).Obj?
                       && Get(doc[BackupSchedule].fields, Disabled) == Bool(LastFlag(merged) == Bool(true)))
  {
    hide StoreInv, Patch, PatchMerge, Protected, PatchedInstance;
    PatchKeeps(db, RdbInstances, [id], patch);
    if Patch(db, RdbInstances, [id], patch).status == Done {
      FlagsTranslated(PatchMerge(db.rows[Ref(RdbInstances, [id])].data, patch, Protected(db.schema, RdbInstances)));
    }
  }

  // ---- lookups over runs -----------------------------------------------------------------------------------

  /** In every reachable store, listing by an indexed column is filtering by the document field it comes from. */
  lemma ListsAgreeOverRuns(dbs: seq<Db>, calls: seq<Call>, i: nat, t: Table, c: Name, v: string)
    requires Run(dbs, calls) && i < |dbs| && c in SourcesOf(dbs[i].schema, t)
    requires Listable(SourcesOf(dbs[i].schema, t)[c].rule, v)
    ensures Listed(dbs[i], t, c, v) == Filtered(dbs[i], t, SourcesOf(dbs[i].schema, t)[c], v)
  {
    hide StoreInv, Goes, MOCKWAY, Facts, ActionFacts, ParentFacts, ChildFacts, NamedFacts, NullableActions, TableFacts,
      RowsOk, DnsOk, KeysOk, Intact, SourcesOf, Listable;
    RunsKeepTheStore(dbs, calls, i);
    InvParts(dbs[i]);
    ListsAgree(dbs[i], t, c, v);
  }

  // ---- a run ------------------------------------------------------------------------------------------------

  const SAMPLE_GROUP := Row(map[Zone := ""], map[Id := Str("g")])
  const SAMPLE_STORE := Db(MOCKWAY, map[GroupRef("g") := SAMPLE_GROUP])

  lemma SampleGroupCreated()
    ensures Create(FIRST, SecurityGroups, ["g"], map[], map[]) == Outcome(SAMPLE_STORE, Done)
    ensures |KeyNamesOf(MOCKWAY, SecurityGroups)| == 1
  {
    hide MOCKWAY, Facts, StoreInv, ActionFacts, ParentFacts, ChildFacts, NamedFacts, NullableActions, TableFacts,
      Intact, RowsOk, DnsOk, KeysOk, Columns, Spelled, WithParams, SourcesOf, KeyNamesOf, Column, Insert;
    FirstStore();
    InvParts(FIRST);
    SampleSchema();
    SampleInsert(FIRST);
    SampleColumns();
    var none: map<Name, string> := map[];
    assert (none - Column(Zone, Plain).Keys) + map[Zone := ""] == map[Zone := ""];
  }

  lemma SampleSchema()
    ensures SourcesOf(MOCKWAY, SecurityGroups) == Column(Zone, Plain) && KeyNamesOf(MOCKWAY, SecurityGroups) == [Id]
    ensures RequiredPresent(MOCKWAY, GroupRef("g"), SAMPLE_GROUP)
  {
    hide FOREIGN_KEYS;
  }

  lemma SampleColumns()
    ensures Columns(Column(Zone, Plain), map[Id := Str("g")], true) == map[Zone := ""]
    ensures WithParams(map[], map[]) == map[] && Spelled(map[], [Id], ["g"]) == map[Id := Str("g")]
  {
    assert TextAt(map[Id := Str("g")], [Zone]) == "";
    assert Extract(Source([Zone], Plain), map[Id := Str("g")], true) == Some("");
  }

  lemma SampleInsert(db: Db)
    requires ChildFacts(db.schema.foreignKeys) && db.rows == map[]
    requires RequiredPresent(db.schema, GroupRef("g"), SAMPLE_GROUP)
    ensures Insert(db, GroupRef("g"), SAMPLE_GROUP) == Ok(db.(rows := map[GroupRef("g") := SAMPLE_GROUP]))
  {
    var next := db.(rows := db.rows[GroupRef("g") := SAMPLE_GROUP]);
    forall fk | fk in next.schema.foreignKeys
      ensures !Uses(next, GroupRef("g"), fk)
    {
      assert ByChild(fk);
    }
  }

  lemma SampleFresh(id: string)
    requires id in {"s", "v", "p"}
    ensures Fresh(SAMPLE_STORE, id)
  {
    hide MOCKWAY;
    assert !MentionsDoc(SAMPLE_GROUP.data, id);
  }

  /** The runs are not empty: a group, and then a server in it. */
  lemma SampleRun() returns (dbs: seq<Db>, calls: seq<Call>)
    ensures Run(dbs, calls) && |calls| == 2 && ServerRef("s") in dbs[2].rows
    ensures GroupColumn(dbs[2], "s") == Some("g") && Text(dbs[2].rows[ServerRef("s")].data, SecurityGroupId) == "g"
  {
    hide MOCKWAY, Facts, StoreInv, ActionFacts, ParentFacts, ChildFacts, NamedFacts, NullableActions, TableFacts,
      Intact, RowsOk, DnsOk, KeysOk, Create, Fresh, Goes, Insert, CreateServer, NormalizedGroup, GroupColumn;
    var ids := NewIds("s", "v", "p");
    var data := NormalizedGroup(map[SecurityGroup := Str("g")]);
    SampleGroupCreated();
    SampleGoes();
    var out := CreateServer(SAMPLE_STORE, "z", data, ids);
    SampleServer(data, ids);
    dbs := [FIRST, SAMPLE_STORE, out.db];
    calls := [CreateCall(SecurityGroups, ["g"], map[], map[]), CreateServerCall("z", data, ids)];
    assert Step(SAMPLE_STORE, calls[1], out);
  }

  lemma SampleGoes()
    ensures Goes(FIRST, CreateCall(SecurityGroups, ["g"], map[], map[]), SAMPLE_STORE)
  {
    hide MOCKWAY, Create;
    var call := CreateCall(SecurityGroups, ["g"], map[], map[]);
    SampleGroupCreated();
    assert Fresh(FIRST, "g");
    assert Step(FIRST, call, Outcome(SAMPLE_STORE, Done));
  }

  lemma SampleServer(data: Doc, ids: NewIds)
    requires data == NormalizedGroup(map[SecurityGroup := Str("g")]) && ids == NewIds("s", "v", "p")
    ensures var out := CreateServer(SAMPLE_STORE, "z", data, ids);
            && ServerRef("s") in out.db.rows
            && GroupColumn(out.db, "s") == Some("g") && Text(out.db.rows[ServerRef("s")].data, SecurityGroupId) == "g"
            && Goes(SAMPLE_STORE, CreateServerCall("z", data, ids), out.db)
  {
    hide MOCKWAY, StoreInv, Fresh, CreateServer, NormalizedGroup, IpEntries;
    SampleData(data);
    SampleInv();
    SampleDone(data, ids);
    var out := CreateServer(SAMPLE_STORE, "z", data, ids);
    CreatedServerRow(SAMPLE_STORE, "z", data, ids);
    SampleFresh("s");
    SampleFresh("v");
    SampleFresh("p");
    assert Step(SAMPLE_STORE, CreateServerCall("z", data, ids), out);
  }

  lemma SampleData(data: Doc)
    requires data == NormalizedGroup(map[SecurityGroup := Str("g")])
    ensures Text(data, SecurityGroupId) == "g" && ListedIps(data) == []
  {
    assert Trim("g") == "g";
    assert Get(data, PublicIps) == Null;
  }

  lemma SampleInv()
    ensures StoreInv(SAMPLE_STORE)
  {
    hide MOCKWAY, StoreInv, Goes;
    FirstStore();
    SampleGoes();
    GoesKeeps(FIRST, CreateCall(SecurityGroups, ["g"], map[], map[]), SAMPLE_STORE);
  }

  lemma SampleDone(data: Doc, ids: NewIds)
    requires Text(data, SecurityGroupId) == "g" && ListedIps(data) == [] && ids.server == "s"
    ensures CreateServer(SAMPLE_STORE, "z", data, ids).status == Done
  {
    hide MOCKWAY, StoreInv, CreateServer, Text, ListedIps, ListedIp;
    SampleInv();
    CreateServerAllOrNothing(SAMPLE_STORE, "z", data, ids);
  }
}
