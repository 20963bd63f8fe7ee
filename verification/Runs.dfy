/** The public calls on the store as a step relation, and the invariants of every run. */
module Runs {
  import opened Wrappers
  import opened Documents
  import opened Relational
  import opened MockwaySchema
  import opened Store
  import opened Instances
  import opened InstanceLaws
  import opened Balancers
  import opened Dns
  import opened ChildSets
  import opened VolumePlaces

  datatype Call =
    | CreateCall(t: Table, key: seq<string>, params: map<Name, string>, data: Doc)
    | PatchCall(t: Table, key: seq<string>, patch: Doc)
    | SetFieldCall(t: Table, key: seq<string>, k: Name, v: Json)
    | RemoveCall(t: Table, key: seq<string>)
    | CreateServerCall(zone: string, data: Doc, ids: NewIds)
    | UpdateServerCall(id: string, patch: Doc)
    | DeleteServerCall(id: string)
    | DeleteGroupCall(id: string)
    | UpdateIpCall(id: string, patch: Doc)
    | DeleteVolumeCall(zone: string, id: string)
    | CreateLbCall(zone: string, data: Doc, id: string, inlineId: string)
    | DeleteLbCall(id: string)
    | DeleteLbIpCall(id: string)
    | CreateZoneCall(data: Doc)
    | DeleteZoneCall(zone: string)
    | PatchRecordsCall(zone: string, changes: seq<Json>, newIds: seq<string>)
    | SetPrivilegesCall(id: string, items: seq<Json>)
    | SetRulesCall(id: string, items: seq<Json>, newIds: seq<string>)
    | CreatePolicyCall(id: string, data: Doc, newIds: seq<string>)
    | SetMembersCall(id: string, users: seq<string>)
    | AddMemberCall(id: string, user: string)
    | RemoveMemberCall(id: string, user: string)
    | SetAclsCall(id: string, items: seq<Json>)
    | ClearAclsCall(id: string)
    | AddLabelCall(text: string)
    | ResetCall

  // ---- which calls exist -------------------------------------------------------------------------------

  /** Tables filled by the shared create. */
  predicate Creatable(t: Table) {
    match t
    case Servers => false
    case Lbs => false
    case IamPolicies => false
    case MarketplaceLabels => false
    case _ => Ordinary(t)
  }

  /** Tables whose key comes with the request instead of from newID. */
  predicate KeyedByCaller(t: Table) {
    t == LbPrivateNetworks || t == RdbDatabases || t == RdbUsers
  }

  /** Tables changed by the shared update. */
  predicate Patchable(t: Table) {
    match t
    case Servers => false
    case InstanceIps => false
    case PrivateNics => false
    case LbPrivateNetworks => false
    case RdbDatabases => false
    case RdbReadReplicas => false
    case IamRules => false
    case MarketplaceLabels => false
    case _ => Ordinary(t) || t == DnsZones
  }

  /** Document fields some call rewrites alone: a server's state, a group's rules, lists of endpoints and the like. */
  predicate Settable(t: Table, k: Name) {
    match t
    case Servers => k == State
    case SecurityGroups => k == Rules
    case RedisClusters => k.Other?
    case RdbInstances => k.Other?
    case RdbReadReplicas => k.Other?
    case _ => false
  }

  /** Tables with a plain delete by key. */
  predicate Removable(t: Table) {
    match t
    case Servers => false
    case SecurityGroups => false
    case Lbs => false
    case LbIps => false
    case DnsZones => false
    case IamRules => false
    case RdbPrivileges => false
    case RdbAcls => false
    case IamGroupMembers => false
    case MarketplaceLabels => false
    case _ => true
  }

  /** What newID and the routes guarantee about a call's arguments. */
  ghost predicate Legal(db: Db, call: Call) {
    match call
    case CreateCall(t, key, params, data) =>
      && Creatable(t) && |KeyNamesOf(db.schema, t)| == |key|
      && (!KeyedByCaller(t) ==> |key| == 1 && Fresh(db, key[0]))
      && (t == LbIps ==> LbId !in params)
    case PatchCall(t, key, patch) => Patchable(t) && (t == Lbs || t == LbIps ==> |key| == 1)
    case SetFieldCall(t, key, k, v) => Settable(t, k)
    case RemoveCall(t, key) => Removable(t)
    case CreateServerCall(zone, data, ids) => Fresh(db, ids.server) && Fresh(db, ids.volume) && Fresh(db, ids.group)
    case CreateLbCall(zone, data, id, inlineId) => Fresh(db, id) && Fresh(db, inlineId)
    case PatchRecordsCall(zone, changes, newIds) => |newIds| == NeedsAll(changes) && NewIdsFor(db, newIds)
    case SetRulesCall(id, items, newIds) => |newIds| == |Objects(items)| && NewIdsFor(db, newIds)
    case CreatePolicyCall(id, data, newIds) =>
      |newIds| == |Objects(AsItems(Get(data, Rules)))| && NewIdsFor(db, [id] + newIds)
    case _ => true
  }

  /** What a legal call may do. Only the volume delete has a choice, between servers that embed the same volume. */
  ghost predicate Step(db: Db, call: Call, out: Outcome) {
    match call
    case CreateCall(t, key, params, data) =>
      |KeyNamesOf(db.schema, t)| == |key| && out == Create(db, t, key, params, data)
    case PatchCall(t, key, patch) => out == Patch(db, t, key, patch)
    case SetFieldCall(t, key, k, v) => out == SetField(db, t, key, k, v)
    case RemoveCall(t, key) => out == Remove(db, t, key)
    case CreateServerCall(zone, data, ids) => out == CreateServer(db, zone, data, ids)
    case UpdateServerCall(id, patch) => out == UpdateServer(db, id, patch)
    case DeleteServerCall(id) => out == DeleteServer(db, id)
    case DeleteGroupCall(id) => out == DeleteSecurityGroup(db, id)
    case UpdateIpCall(id, patch) => out == UpdateIp(db, id, patch)
    case DeleteVolumeCall(zone, id) => VolumeDeleted(db, zone, id, out)
    case CreateLbCall(zone, data, id, inlineId) => out == CreateLb(db, zone, data, id, inlineId)
    case DeleteLbCall(id) => out == DeleteLb(db, id)
    case DeleteLbIpCall(id) => out == DeleteLbIp(db, id)
    case CreateZoneCall(data) => out == CreateZone(db, data)
    case DeleteZoneCall(zone) => out == DeleteZone(db, zone)
    case PatchRecordsCall(zone, changes, newIds) =>
      |newIds| == NeedsAll(changes) && out == PatchRecords(db, zone, changes, newIds)
    case SetPrivilegesCall(id, items) => out == SetPrivileges(db, id, items)
    case SetRulesCall(id, items, newIds) => |newIds| == |Objects(items)| && out == SetRules(db, id, items, newIds)
    case CreatePolicyCall(id, data, newIds) =>
      |newIds| == |Objects(AsItems(Get(data, Rules)))| && out == CreatePolicy(db, id, data, newIds)
    case SetMembersCall(id, users) => out == SetMembers(db, id, users)
    case AddMemberCall(id, user) => out == AddMember(db, id, user)
    case RemoveMemberCall(id, user) => out == RemoveMember(db, id, user)
    case SetAclsCall(id, items) => out == SetAcls(db, id, items)
    case ClearAclsCall(id) => out == ClearAcls(db, id)
    case AddLabelCall(text) => out == AddLabel(db, text)
    case ResetCall => out == Outcome(db.(rows := map[]), Done)
  }

  /** The tables a call can change. */
  function Touches(call: Call): set<Table> {
    match call
    case CreateCall(t, _, _, _) => {t}
    case PatchCall(t, _, _) => {t}
    case SetFieldCall(t, _, _, _) => {t}
    case RemoveCall(t, _) => {t} + CASCADED
    case CreateServerCall(_, _, _) => {Servers, InstanceIps}
    case UpdateServerCall(_, _) => {Servers}
    case DeleteServerCall(_) => {Servers, InstanceIps, PrivateNics}
    case DeleteGroupCall(_) => {Servers, SecurityGroups}
    case UpdateIpCall(_, _) => {InstanceIps}
    case DeleteVolumeCall(_, _) => {BlockVolumes, InstanceVolumes, Servers} + CASCADED
    case CreateLbCall(_, _, _, _) => {Lbs, LbIps}
    case DeleteLbCall(_) => {Lbs, LbIps, LbPrivateNetworks, LbRoutes, LbCertificates}
    case DeleteLbIpCall(_) => {LbIps} + CASCADED
    case CreateZoneCall(_) => {DnsZones}
    case DeleteZoneCall(_) => {DnsZones, DomainRecords}
    case PatchRecordsCall(_, _, _) => {DomainRecords}
    case SetPrivilegesCall(_, _) => {RdbPrivileges}
    case SetRulesCall(_, _, _) => {IamRules}
    case CreatePolicyCall(_, _, _) => {IamPolicies, IamRules}
    case SetMembersCall(_, _) => {IamGroupMembers}
    case AddMemberCall(_, _) => {IamGroupMembers}
    case RemoveMemberCall(_, _) => {IamGroupMembers}
    case SetAclsCall(_, _) => {RdbAcls}
    case ClearAclsCall(_) => {RdbAcls}
    case AddLabelCall(_) => {MarketplaceLabels}
    case ResetCall => set t: Table | Position(t) >= 0
  }

  // ---- every call keeps the store invariant, and a failed call changes nothing --------------------------

  /** What every call does, whatever its outcome. */
  ghost predicate Kept(db: Db, call: Call, out: Outcome) {
    && StoreInv(out.db)
    && ChangesOnly(db, out.db, Touches(call))
    && (out.status != Done ==> out.db == db)
  }

  lemma SettableLoose(schema: Schema, t: Table, k: Name)
    requires TableFacts(schema) && Settable(t, k)
    ensures Loose(schema, t, k) && Ordinary(t)
  {
    SettableField(t, k);
    UncolumnedField(schema, t, k);
  }

  lemma SettableField(t: Table, k: Name)
    requires Settable(t, k)
    ensures k !in KEY_FIELDS && k !in COLUMN_FIELDS && Ordinary(t)
  {
  }

  lemma UncolumnedField(schema: Schema, t: Table, k: Name)
    requires TableFacts(schema) && k !in KEY_FIELDS && k !in COLUMN_FIELDS
    ensures Loose(schema, t, k)
  {
    hide RequiredFacts, KeyNameFacts, FieldsKnown;
    KnownPath(schema.sources[t], k);
  }

  lemma KnownPath(columns: map<Name, Source>, k: Name)
    requires FieldsKnown(columns) && k !in COLUMN_FIELDS
    ensures forall c | c in columns :: k !in columns[c].path
  {
  }

  lemma SharedStep(db: Db, call: Call, out: Outcome)
    requires StoreInv(db) && Legal(db, call) && Step(db, call, out)
    requires call.CreateCall? || call.PatchCall? || call.SetFieldCall? || call.RemoveCall?
    ensures Kept(db, call, out)
  {
    hide StoreInv, Facts, Create, Patch, SetField, Remove, ChangesOnly, TableFacts, Loose, Settable, Intact, RowsOk,
      DnsOk, KeysOk, ActionFacts, ParentFacts, ChildFacts, NamedFacts, NullableActions, KeyNamesOf, Fresh;
    InvParts(db);
    match call
    case CreateCall(t, key, params, data) => CreateKeeps(db, t, key, params, data);
    case PatchCall(t, key, patch) => PatchKeeps(db, t, key, patch);
    case SetFieldCall(t, key, k, v) =>
      SettableLoose(db.schema, t, k);
      SetFieldKeeps(db, t, key, k, v);
    case RemoveCall(t, key) => RemoveKeeps(db, t, key);
  }

  lemma ComputeStep(db: Db, call: Call, out: Outcome)
    requires StoreInv(db) && Legal(db, call) && Step(db, call, out)
    requires call.CreateServerCall? || call.UpdateServerCall? || call.DeleteServerCall? || call.DeleteGroupCall? ||
             call.UpdateIpCall? || call.DeleteVolumeCall?
    ensures Kept(db, call, out)
  {
    hide StoreInv, Facts, CreateServer, UpdateServer, DeleteServer, DeleteSecurityGroup, UpdateIp, VolumeDeleted,
      ChangesOnly, Fresh;
    match call
    case CreateServerCall(zone, data, ids) =>
      FreshNotBlank(db, ids.server);
      CreateServerKeeps(db, zone, data, ids);
    case UpdateServerCall(id, patch) => UpdateServerKeeps(db, id, patch);
    case DeleteServerCall(id) => DeleteServerKeeps(db, id);
    case DeleteGroupCall(id) => DeleteGroupKeeps(db, id);
    case UpdateIpCall(id, patch) => UpdateIpKeeps(db, id, patch);
    case DeleteVolumeCall(zone, id) => VolumeDeleteKeeps(db, zone, id, out);
  }

  lemma DeleteLbIpKeeps(db: Db, id: string)
    requires StoreInv(db)
    ensures var out := DeleteLbIp(db, id);
            && StoreInv(out.db) && ChangesOnly(db, out.db, {LbIps} + CASCADED)
            && (out.status != Done ==> out.db == db)
  {
    hide StoreInv, Facts, Remove, ChangesOnly;
    RemoveKeeps(db, LbIps, [id]);
    assert ChangesOnly(db, db, {LbIps} + CASCADED) by { NoChange(db, {LbIps} + CASCADED); }
  }

  lemma BalancerStep(db: Db, call: Call, out: Outcome)
    requires StoreInv(db) && Legal(db, call) && Step(db, call, out)
    requires call.CreateLbCall? || call.DeleteLbCall? || call.DeleteLbIpCall?
    ensures Kept(db, call, out)
  {
    hide StoreInv, Facts, CreateLb, DeleteLb, DeleteLbIp, ChangesOnly, Fresh, HasParts;
    match call
    case CreateLbCall(zone, data, id, inlineId) => CreateLbKeeps(db, zone, data, id, inlineId);
    case DeleteLbCall(id) =>
      DeleteLbKeeps(db, id);
      DeleteLbExact(db, id);
    case DeleteLbIpCall(id) => DeleteLbIpKeeps(db, id);
  }

  lemma ZoneStep(db: Db, call: Call, out: Outcome)
    requires StoreInv(db) && Legal(db, call) && Step(db, call, out)
    requires call.CreateZoneCall? || call.DeleteZoneCall? || call.PatchRecordsCall?
    ensures Kept(db, call, out)
  {
    hide StoreInv, Facts, CreateZone, DeleteZone, PatchRecords, ChangesOnly, NewIdsFor, NeedsAll, ZoneRows, RecordsOf,
      ApplyChanges;
    match call
    case CreateZoneCall(data) => CreateZoneKeeps(db, data);
    case DeleteZoneCall(zone) => DeleteZoneExact(db, zone);
    case PatchRecordsCall(zone, changes, newIds) => PatchRecordsIsFold(db, zone, changes, newIds);
  }

  lemma SetStep(db: Db, call: Call, out: Outcome)
    requires StoreInv(db) && Legal(db, call) && Step(db, call, out)
    requires call.SetPrivilegesCall? || call.SetRulesCall? || call.CreatePolicyCall? || call.SetMembersCall?
    ensures Kept(db, call, out)
  {
    hide StoreInv, Facts, SetPrivileges, SetRules, CreatePolicy, SetMembers, ChangesOnly, NewIdsFor, Objects,
      Installed, CanJoin, RepeatsPrivilege;
    match call
    case SetPrivilegesCall(id, items) => SetPrivilegesExact(db, id, items);
    case SetRulesCall(id, items, newIds) => SetRulesExact(db, id, items, newIds);
    case CreatePolicyCall(id, data, newIds) => CreatePolicyKeeps(db, id, data, newIds);
    case SetMembersCall(id, users) => SetMembersExact(db, id, users);
  }

  lemma LinkStep(db: Db, call: Call, out: Outcome)
    requires StoreInv(db) && Legal(db, call) && Step(db, call, out)
    requires call.AddMemberCall? || call.RemoveMemberCall? || call.SetAclsCall? || call.ClearAclsCall? ||
             call.AddLabelCall?
    ensures Kept(db, call, out)
  {
    hide StoreInv, Facts, AddMember, RemoveMember, SetAcls, ClearAcls, AddLabel, ChangesOnly, CanJoin;
    match call
    case AddMemberCall(id, user) => AddMemberKeeps(db, id, user);
    case RemoveMemberCall(id, user) => RemoveMemberKeeps(db, id, user);
    case SetAclsCall(id, items) => SetAclsKeeps(db, id, items);
    case ClearAclsCall(id) => ClearAclsKeeps(db, id);
    case AddLabelCall(text) => AddLabelKeeps(db, text);
  }

  lemma EmptyInv(schema: Schema)
    requires Facts(schema)
    ensures StoreInv(Db(schema, map[]))
  {
    hide Facts;
  }

  /** The joint invariant is kept by every call, and a call that fails leaves the store exactly as it was. */
  lemma StepKeeps(db: Db, call: Call, out: Outcome)
    requires StoreInv(db) && Legal(db, call) && Step(db, call, out)
    ensures Kept(db, call, out)
  {
    hide StoreInv, Facts, Legal, Step, Kept;
    match call
    case CreateCall(_, _, _, _) => SharedStep(db, call, out);
    case PatchCall(_, _, _) => SharedStep(db, call, out);
    case SetFieldCall(_, _, _, _) => SharedStep(db, call, out);
    case RemoveCall(_, _) => SharedStep(db, call, out);
    case CreateServerCall(_, _, _) => ComputeStep(db, call, out);
    case UpdateServerCall(_, _) => ComputeStep(db, call, out);
    case DeleteServerCall(_) => ComputeStep(db, call, out);
    case DeleteGroupCall(_) => ComputeStep(db, call, out);
    case UpdateIpCall(_, _) => ComputeStep(db, call, out);
    case DeleteVolumeCall(_, _) => ComputeStep(db, call, out);
    case CreateLbCall(_, _, _, _) => BalancerStep(db, call, out);
    case DeleteLbCall(_) => BalancerStep(db, call, out);
    case DeleteLbIpCall(_) => BalancerStep(db, call, out);
    case CreateZoneCall(_) => ZoneStep(db, call, out);
    case DeleteZoneCall(_) => ZoneStep(db, call, out);
    case PatchRecordsCall(_, _, _) => ZoneStep(db, call, out);
    case ResetCall => ResetStep(db, call, out);
    case SetPrivilegesCall(_, _) => SetStep(db, call, out);
    case SetRulesCall(_, _, _) => SetStep(db, call, out);
    case CreatePolicyCall(_, _, _) => SetStep(db, call, out);
    case SetMembersCall(_, _) => SetStep(db, call, out);
    case _ => LinkStep(db, call, out);
  }

  lemma ResetStep(db: Db, call: Call, out: Outcome)
    requires StoreInv(db) && Legal(db, call) && Step(db, call, out) && call.ResetCall?
    ensures Kept(db, call, out)
  {
    hide StoreInv, Facts, ActionFacts, ParentFacts, ChildFacts, NamedFacts, NullableActions, TableFacts, Intact, RowsOk,
      DnsOk, KeysOk, Legal;
    InvParts(db);
    EmptyInv(db.schema);
  }

  lemma KeptParts(db: Db, call: Call, out: Outcome)
    requires Kept(db, call, out)
    ensures StoreInv(out.db) && out.db.schema == db.schema
  {
    hide StoreInv, Touches;
  }

  // ---- runs ----------------------------------------------------------------------------------------------

  /** A legal call takes one store to the next, successfully or not. */
  ghost predicate Goes(db: Db, call: Call, next: Db) {
    Legal(db, call) && exists out :: Step(db, call, out) && out.db == next
  }

  /** The empty store of a first start-up. */
  const FIRST := Db(MOCKWAY, map[])

  /** A run from the first start-up on. */
  ghost predicate Run(dbs: seq<Db>, calls: seq<Call>) {
    && |dbs| == |calls| + 1
    && dbs[0] == FIRST
    && forall i | 0 <= i < |calls| :: Goes(dbs[i], calls[i], dbs[i + 1])
  }

  lemma GoesKeeps(db: Db, call: Call, next: Db)
    requires StoreInv(db) && Goes(db, call, next)
    ensures StoreInv(next)
  {
    hide StoreInv, Facts, Legal, Step, ChangesOnly, Touches;
    var out :| Step(db, call, out) && out.db == next;
    StepKeeps(db, call, out);
  }

  /**
   * After any sequence of successful or failed calls every non-null foreign key names a stored row, every
   * document spells its primary key, every indexed column agrees with its document, and every DNS record has
   * its zone.
   */
  lemma RunsKeepTheStore(dbs: seq<Db>, calls: seq<Call>, i: nat)
    requires Run(dbs, calls) && i < |dbs|
    ensures StoreInv(dbs[i])
  {
    hide StoreInv, Goes, MOCKWAY;
    if i == 0 {
      FirstStore();
    } else {
      RunsKeepTheStore(dbs, calls, i - 1);
      GoesKeeps(dbs[i - 1], calls[i - 1], dbs[i]);
    }
  }

  lemma FirstStore()
    ensures StoreInv(FIRST)
  {
    hide Facts, StoreInv;
    MockwayFacts();
    EmptyInv(MOCKWAY);
  }

  /** A step of a run, with its outcome. */
  lemma StepOf(dbs: seq<Db>, calls: seq<Call>, i: nat) returns (out: Outcome)
    requires Run(dbs, calls) && i < |calls|
    ensures StoreInv(dbs[i]) && Legal(dbs[i], calls[i]) && Step(dbs[i], calls[i], out) && out.db == dbs[i + 1]
    ensures Kept(dbs[i], calls[i], out)
  {
    hide StoreInv, Legal, Step, Kept, MOCKWAY;
    RunsKeepTheStore(dbs, calls, i);
    assert Goes(dbs[i], calls[i], dbs[i + 1]);
    out :| Step(dbs[i], calls[i], out) && out.db == dbs[i + 1];
    StepKeeps(dbs[i], calls[i], out);
  }
}
