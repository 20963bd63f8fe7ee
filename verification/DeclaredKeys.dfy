/**
 * Deletes by id in terms of tables and columns alone: when each is refused, and exactly which rows go. Every
 * REFERENCES clause of the schema has its place here by name.
 */
module DeclaredKeys {
  import opened Wrappers
  import opened Documents
  import opened Relational
  import opened MockwaySchema
  import opened Store

  /** The rows of some tables that hold the id in column c. */
  function Referring(db: Db, tables: set<Table>, c: Name, id: string): set<Ref> {
    set q | q in db.rows && q.table in tables && c in db.rows[q].cols && db.rows[q].cols[c] == id
  }

  // ---- the generic law -------------------------------------------------------------------------------------------

  predicate PlainParent(t: Table) {
    t !in {Servers, SecurityGroups, Lbs, DnsZones}
  }

  function Refusers(db: Db, t: Table, id: string): set<Ref> {
    Referring(db, Refusing(t), LinkColumn(t), id)
  }

  function Followers(db: Db, t: Table, id: string): set<Ref> {
    Referring(db, Cascading(t), LinkColumn(t), id)
  }

  lemma LinkOf(db: Db, t: Table, id: string, q: Ref, fk: ForeignKey)
    requires ParentFacts(db.schema.foreignKeys) && fk in db.schema.foreignKeys && Uses(db, q, fk) && PlainParent(t)
    requires Target(fk, db.rows[q]) in {Ref(t, [id])} + Followers(db, t, id)
    ensures fk.action != SetNull
    ensures q in (if fk.action == NoAction then Refusers(db, t, id) else Followers(db, t, id))
  {
    hide ParentFacts, PARENTS, Cascading, Refusing, ByParent;
    ParentTable(db.schema.foreignKeys, fk);
    Childless(t, fk.parent);
    assert Target(fk, db.rows[q]) == Ref(t, [id]);
    assert Target(fk, db.rows[q]).key[0] == id;
    LinkByParent(db.schema.foreignKeys, fk);
  }

  /** What goes along with a row is referred to by nothing. */
  lemma Childless(t: Table, parent: Table)
    ensures parent in PARENTS ==> parent !in Cascading(t)
  {
  }

  lemma LinkByParent(fks: set<ForeignKey>, fk: ForeignKey)
    requires ParentFacts(fks) && fk in fks && PlainParent(fk.parent)
    ensures fk.action != SetNull && fk.column == LinkColumn(fk.parent)
    ensures fk.child in (if fk.action == NoAction then Refusing(fk.parent) else Cascading(fk.parent))
  {
    assert ByParent(fk);
  }

  lemma LinkUsed(db: Db, t: Table, id: string, q: Ref, a: Action)
    requires NamedFacts(db.schema.foreignKeys) && a != SetNull
    requires q in (if a == NoAction then Refusers(db, t, id) else Followers(db, t, id))
    ensures var fk := ForeignKey(q.table, LinkColumn(t), t, a);
            fk in db.schema.foreignKeys && Uses(db, q, fk) && Target(fk, db.rows[q]) == Ref(t, [id])
  {
    hide Refusing, Cascading, LinkColumn;
  }

  /** Which rows refer into the rows that go. */
  lemma IntoGone(db: Db, t: Table, id: string, q: Ref, a: Action)
    requires ParentFacts(db.schema.foreignKeys) && NamedFacts(db.schema.foreignKeys) && PlainParent(t) && q in db.rows
    ensures RefersInto(db, q, {Ref(t, [id])} + Followers(db, t, id), a) <==>
            a != SetNull && q in (if a == NoAction then Refusers(db, t, id) else Followers(db, t, id))
  {
    hide ParentFacts, NamedFacts, Refusers, Followers;
    var gone := {Ref(t, [id])} + Followers(db, t, id);
    if RefersInto(db, q, gone, a) {
      var fk :| fk in db.schema.foreignKeys && fk.action == a && Uses(db, q, fk) && Target(fk, db.rows[q]) in gone;
      LinkOf(db, t, id, q, fk);
    }
    if a != SetNull && q in (if a == NoAction then Refusers(db, t, id) else Followers(db, t, id)) {
      LinkUsed(db, t, id, q, a);
    }
  }

  lemma GoneIsClosure(db: Db, t: Table, id: string)
    requires ParentFacts(db.schema.foreignKeys) && NamedFacts(db.schema.foreignKeys) && PlainParent(t)
    requires Ref(t, [id]) in db.rows
    ensures Closure(db, {Ref(t, [id])}) == {Ref(t, [id])} + Followers(db, t, id)
  {
    hide ParentFacts, NamedFacts, RefersInto, Followers;
    var r := Ref(t, [id]);
    var gone, closure := {r} + Followers(db, t, id), Closure(db, {r});
    forall q | q in db.rows
      ensures RefersInto(db, q, gone, Cascade) <==> q in Followers(db, t, id)
    {
      IntoGone(db, t, id, q, Cascade);
    }
    ClosureLeast(db, {r}, gone);
    forall q | q in Followers(db, t, id)
      ensures q in closure
    {
      LinkUsed(db, t, id, q, Cascade);
      GoesAlong(db, r, q, ForeignKey(q.table, LinkColumn(t), t, Cascade), closure);
    }
  }

  lemma GoesAlong(db: Db, r: Ref, q: Ref, fk: ForeignKey, s: set<Ref>)
    requires fk in db.schema.foreignKeys && fk.action == Cascade && Uses(db, q, fk) && Target(fk, db.rows[q]) == r
    requires r in s && Referrers(db, s, Cascade) <= s
    ensures q in s
  {
    assert q in Referrers(db, s, Cascade);
  }

  lemma RefusedExactly(db: Db, t: Table, id: string)
    requires ParentFacts(db.schema.foreignKeys) && NamedFacts(db.schema.foreignKeys) && PlainParent(t)
    ensures var gone := {Ref(t, [id])} + Followers(db, t, id);
            Referrers(db, gone, NoAction) <= gone <==> Refusers(db, t, id) == {}
  {
    hide ParentFacts, NamedFacts, RefersInto, Followers, Refusers;
    var gone := {Ref(t, [id])} + Followers(db, t, id);
    RefusersStay(db, t, id);
    forall q | q in db.rows
      ensures RefersInto(db, q, gone, NoAction) <==> q in Refusers(db, t, id)
    {
      IntoGone(db, t, id, q, NoAction);
    }
    assert Referrers(db, gone, NoAction) == Refusers(db, t, id);
  }

  lemma RefusersStay(db: Db, t: Table, id: string)
    ensures Refusers(db, t, id) <= db.rows.Keys
    ensures Refusers(db, t, id) !! {Ref(t, [id])} + Followers(db, t, id)
  {
    TablesApart(t);
    hide Refusing, Cascading, LinkColumn;
  }

  lemma TablesApart(t: Table)
    ensures t !in Refusing(t) && Refusing(t) !! Cascading(t)
  {
  }

  /** The exact delete of a row by its id; and what refers to a row finds it stored. */
  lemma RemoveExactly(db: Db, t: Table, id: string)
    requires StoreInv(db) && PlainParent(t)
    ensures Refusers(db, t, id) + Followers(db, t, id) != {} ==> Ref(t, [id]) in db.rows
    ensures Remove(db, t, [id]) ==
            if Ref(t, [id]) !in db.rows then Outcome(db, Failed(NotFound))
            else if Refusers(db, t, id) != {} then Outcome(db, Failed(Conflict))
            else Outcome(db.(rows := db.rows - {Ref(t, [id])} - Followers(db, t, id)), Done)
  {
    hide StoreInv, Facts, ActionFacts, ParentFacts, ChildFacts, NamedFacts, NullableActions, TableFacts, Intact, RowsOk,
      DnsOk, KeysOk, Refusers, Followers, Remove;
    InvParts(db);
    LinksHold(db, t, id);
    RemoveKeeps(db, t, [id]);
    if Ref(t, [id]) in db.rows {
      assert {Ref(t, [id])} * db.rows.Keys == {Ref(t, [id])};
      GoneIsClosure(db, t, id);
      RefusedExactly(db, t, id);
      var gone := {Ref(t, [id])} + Followers(db, t, id);
      assert db.rows - gone == db.rows - {Ref(t, [id])} - Followers(db, t, id);
    }
  }

  lemma LinksHold(db: Db, t: Table, id: string)
    requires Intact(db) && NamedFacts(db.schema.foreignKeys)
    ensures Refusers(db, t, id) + Followers(db, t, id) != {} ==> Ref(t, [id]) in db.rows
  {
    hide NamedFacts, Refusing, Cascading;
    if q :| q in Refusers(db, t, id) + Followers(db, t, id) {
      LinkUsed(db, t, id, q, if q in Refusers(db, t, id) then NoAction else Cascade);
      assert ParentsExist(db, q);
    }
  }

  // ---- table by table --------------------------------------------------------------------------------------------

  /** A VPC is kept while a private network or a route names it. */
  lemma DeleteVpc(db: Db, id: string)
    requires StoreInv(db)
    ensures var users := Referring(db, {PrivateNetworks, VpcRoutes}, VpcId, id);
            && (users != {} ==> Ref(Vpcs, [id]) in db.rows)
            && Remove(db, Vpcs, [id]) ==
               if Ref(Vpcs, [id]) !in db.rows then Outcome(db, Failed(NotFound))
               else if users != {} then Outcome(db, Failed(Conflict))
               else Outcome(db.(rows := db.rows - {Ref(Vpcs, [id])}), Done)
  {
    hide StoreInv, Remove;
    RemoveExactly(db, Vpcs, id);
  }

  /** A private network is kept while a gateway network, a NIC, a cluster or a balancer's link names it. */
  lemma DeletePrivateNetwork(db: Db, id: string)
    requires StoreInv(db)
    ensures var users := Referring(db, {GatewayNetworks, PrivateNics, Clusters, LbPrivateNetworks},
                                  PrivateNetworkId, id);
            && (users != {} ==> Ref(PrivateNetworks, [id]) in db.rows)
            && Remove(db, PrivateNetworks, [id]) ==
               if Ref(PrivateNetworks, [id]) !in db.rows then Outcome(db, Failed(NotFound))
               else if users != {} then Outcome(db, Failed(Conflict))
               else Outcome(db.(rows := db.rows - {Ref(PrivateNetworks, [id])}), Done)
  {
    hide StoreInv, Remove;
    RemoveExactly(db, PrivateNetworks, id);
  }

  /** A public gateway is kept while a gateway network names it. */
  lemma DeletePublicGateway(db: Db, id: string)
    requires StoreInv(db)
    ensures var users := Referring(db, {GatewayNetworks}, GatewayId, id);
            && (users != {} ==> Ref(PublicGateways, [id]) in db.rows)
            && Remove(db, PublicGateways, [id]) ==
               if Ref(PublicGateways, [id]) !in db.rows then Outcome(db, Failed(NotFound))
               else if users != {} then Outcome(db, Failed(Conflict))
               else Outcome(db.(rows := db.rows - {Ref(PublicGateways, [id])}), Done)
  {
    hide StoreInv, Remove;
    RemoveExactly(db, PublicGateways, id);
  }

  /** An application is kept while an API key or a policy names it. */
  lemma DeleteIamApplication(db: Db, id: string)
    requires StoreInv(db)
    ensures var users := Referring(db, {IamApiKeys, IamPolicies}, ApplicationId, id);
            && (users != {} ==> Ref(IamApplications, [id]) in db.rows)
            && Remove(db, IamApplications, [id]) ==
               if Ref(IamApplications, [id]) !in db.rows then Outcome(db, Failed(NotFound))
               else if users != {} then Outcome(db, Failed(Conflict))
               else Outcome(db.(rows := db.rows - {Ref(IamApplications, [id])}), Done)
  {
    hide StoreInv, Remove;
    RemoveExactly(db, IamApplications, id);
  }

  /** A block volume is kept while a snapshot names it. */
  lemma DeleteBlockVolumeRow(db: Db, id: string)
    requires StoreInv(db)
    ensures var users := Referring(db, {BlockSnapshots}, VolumeId, id);
            && (users != {} ==> Ref(BlockVolumes, [id]) in db.rows)
            && Remove(db, BlockVolumes, [id]) ==
               if Ref(BlockVolumes, [id]) !in db.rows then Outcome(db, Failed(NotFound))
               else if users != {} then Outcome(db, Failed(Conflict))
               else Outcome(db.(rows := db.rows - {Ref(BlockVolumes, [id])}), Done)
  {
    hide StoreInv, Remove;
    RemoveExactly(db, BlockVolumes, id);
  }

  /** A cluster takes its pools with it. */
  lemma DeleteCluster(db: Db, id: string)
    requires StoreInv(db)
    ensures var parts := Referring(db, {Pools}, ClusterId, id);
            && (parts != {} ==> Ref(Clusters, [id]) in db.rows)
            && Remove(db, Clusters, [id]) ==
               if Ref(Clusters, [id]) !in db.rows then Outcome(db, Failed(NotFound))
               else Outcome(db.(rows := db.rows - {Ref(Clusters, [id])} - parts), Done)
  {
    hide StoreInv, Remove;
    RemoveExactly(db, Clusters, id);
  }

  /** A frontend takes its ACLs with it. */
  lemma DeleteFrontend(db: Db, id: string)
    requires StoreInv(db)
    ensures var parts := Referring(db, {LbAcls}, FrontendId, id);
            && (parts != {} ==> Ref(LbFrontends, [id]) in db.rows)
            && Remove(db, LbFrontends, [id]) ==
               if Ref(LbFrontends, [id]) !in db.rows then Outcome(db, Failed(NotFound))
               else Outcome(db.(rows := db.rows - {Ref(LbFrontends, [id])} - parts), Done)
  {
    hide StoreInv, Remove;
    RemoveExactly(db, LbFrontends, id);
  }

  /** A database instance takes everything that belongs to it. */
  lemma DeleteRdbInstance(db: Db, id: string)
    requires StoreInv(db)
    ensures var parts := Referring(db, {RdbDatabases, RdbUsers, RdbPrivileges, RdbReadReplicas,
                                  RdbSnapshots, RdbAcls, RdbBackups}, InstanceId, id);
            && (parts != {} ==> Ref(RdbInstances, [id]) in db.rows)
            && Remove(db, RdbInstances, [id]) ==
               if Ref(RdbInstances, [id]) !in db.rows then Outcome(db, Failed(NotFound))
               else Outcome(db.(rows := db.rows - {Ref(RdbInstances, [id])} - parts), Done)
  {
    hide StoreInv, Remove;
    RemoveExactly(db, RdbInstances, id);
  }

  /** A policy takes its rules with it. */
  lemma DeleteIamPolicy(db: Db, id: string)
    requires StoreInv(db)
    ensures var parts := Referring(db, {IamRules}, PolicyId, id);
            && (parts != {} ==> Ref(IamPolicies, [id]) in db.rows)
            && Remove(db, IamPolicies, [id]) ==
               if Ref(IamPolicies, [id]) !in db.rows then Outcome(db, Failed(NotFound))
               else Outcome(db.(rows := db.rows - {Ref(IamPolicies, [id])} - parts), Done)
  {
    hide StoreInv, Remove;
    RemoveExactly(db, IamPolicies, id);
  }

  /** A group takes its memberships with it. */
  lemma DeleteIamGroup(db: Db, id: string)
    requires StoreInv(db)
    ensures var parts := Referring(db, {IamGroupMembers}, GroupId, id);
            && (parts != {} ==> Ref(IamGroups, [id]) in db.rows)
            && Remove(db, IamGroups, [id]) ==
               if Ref(IamGroups, [id]) !in db.rows then Outcome(db, Failed(NotFound))
               else Outcome(db.(rows := db.rows - {Ref(IamGroups, [id])} - parts), Done)
  {
    hide StoreInv, Remove;
    RemoveExactly(db, IamGroups, id);
  }

  /** A user takes its memberships with it. */
  lemma DeleteIamUser(db: Db, id: string)
    requires StoreInv(db)
    ensures var parts := Referring(db, {IamGroupMembers}, UserId, id);
            && (parts != {} ==> Ref(IamUsers, [id]) in db.rows)
            && Remove(db, IamUsers, [id]) ==
               if Ref(IamUsers, [id]) !in db.rows then Outcome(db, Failed(NotFound))
               else Outcome(db.(rows := db.rows - {Ref(IamUsers, [id])} - parts), Done)
  {
    hide StoreInv, Remove;
    RemoveExactly(db, IamUsers, id);
  }

  /** Nothing refers to any other table: such a row goes alone, and always. */
  lemma DeleteLeafRow(db: Db, t: Table, key: seq<string>)
    requires StoreInv(db)
    requires t !in {Vpcs, PrivateNetworks, PublicGateways, IamApplications, BlockVolumes, Clusters, LbFrontends}
    requires t !in {RdbInstances, IamPolicies, IamGroups, IamUsers, Lbs, Servers, SecurityGroups}
    ensures Remove(db, t, key) ==
            if Ref(t, key) !in db.rows then Outcome(db, Failed(NotFound))
            else Outcome(db.(rows := db.rows - {Ref(t, key)}), Done)
  {
    hide StoreInv, Facts, ActionFacts, ParentFacts, ChildFacts, NamedFacts, NullableActions, TableFacts, Intact, RowsOk,
      DnsOk, KeysOk, DeleteRows;
    InvParts(db);
    if Ref(t, key) in db.rows {
      DeleteLeaves(db, {Ref(t, key)});
    }
  }

  /** The rows that name a server, a group or a balancer name a stored one. */
  lemma OwnersStored(db: Db, id: string)
    requires StoreInv(db)
    ensures Referring(db, {Servers}, SecurityGroupId, id) != {} ==> Ref(SecurityGroups, [id]) in db.rows
    ensures Referring(db, {InstanceIps, PrivateNics}, ServerId, id) != {} ==> Ref(Servers, [id]) in db.rows
    ensures Referring(db, {LbFrontends, LbBackends, LbPrivateNetworks, LbRoutes, LbCertificates}, LbId, id) != {} ==>
              Ref(Lbs, [id]) in db.rows
  {
    hide StoreInv, Facts, ActionFacts, ParentFacts, ChildFacts, NamedFacts, NullableActions, TableFacts, Intact, RowsOk,
      DnsOk, KeysOk;
    InvParts(db);
    LinksHold(db, Lbs, id);
    LinksHold(db, Servers, id);
    NullableStored(db, id);
  }

  lemma NullableStored(db: Db, id: string)
    requires Intact(db) && NamedFacts(db.schema.foreignKeys)
    ensures Referring(db, {Servers}, SecurityGroupId, id) != {} ==> Ref(SecurityGroups, [id]) in db.rows
    ensures Referring(db, {InstanceIps}, ServerId, id) != {} ==> Ref(Servers, [id]) in db.rows
  {
    hide Refusing, Cascading;
    if q :| q in Referring(db, {Servers}, SecurityGroupId, id) {
      assert ParentsExist(db, q) && Uses(db, q, SERVER_GROUP);
    }
    if q :| q in Referring(db, {InstanceIps}, ServerId, id) {
      assert ParentsExist(db, q) && Uses(db, q, IP_SERVER);
    }
  }
}
