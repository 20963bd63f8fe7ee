/** The shared create, update and list calls, table by table and field by field. */
module RowEffects {
  import opened Wrappers
  import opened Documents
  import opened Relational
  import opened MockwaySchema
  import opened Store
  import opened Aliases

  // ---- primary keys ----------------------------------------------------------------------------------------------

  /** The fields a document is stored under. */
  function KeyFields(t: Table): seq<Name> {
    match t
    case IamApiKeys => [AccessKey]
    case LbPrivateNetworks => [LbId, PrivateNetworkId]
    case RdbDatabases => [InstanceId, Named]
    case RdbUsers => [InstanceId, Named]
    case DnsZones => [Domain, Subdomain]
    case _ => [Id]
  }

  /** No call changes them. */
  predicate KeyField(t: Table, k: Name) {
    k in KeyFields(t)
  }

  /** Every row is stored under the fields of its own document, or for the four link tables under its columns. */
  lemma KeyOfRow(db: Db, r: Ref)
    requires StoreInv(db) && db.schema == MOCKWAY && r in db.rows
    ensures var row := db.rows[r];
            match r.table
            case IamApiKeys => |r.key| == 1 && Get(row.data, AccessKey) == Str(r.key[0])
            case LbPrivateNetworks =>
              && |r.key| == 2
              && Get(row.data, LbId) == Str(r.key[0]) && Get(row.data, PrivateNetworkId) == Str(r.key[1])
            case RdbDatabases =>
              |r.key| == 2 && Get(row.data, InstanceId) == Str(r.key[0]) && Get(row.data, Named) == Str(r.key[1])
            case RdbUsers =>
              |r.key| == 2 && Get(row.data, InstanceId) == Str(r.key[0]) && Get(row.data, Named) == Str(r.key[1])
            case RdbPrivileges =>
              && |r.key| == 3 && ColumnValue(row, InstanceId) == Some(r.key[0])
              && ColumnValue(row, UserName) == Some(r.key[1]) && ColumnValue(row, DatabaseName) == Some(r.key[2])
            case RdbAcls => |r.key| == 1 && ColumnValue(row, InstanceId) == Some(r.key[0])
            case IamGroupMembers =>
              && |r.key| == 2
              && ColumnValue(row, GroupId) == Some(r.key[0]) && ColumnValue(row, UserId) == Some(r.key[1])
            case DnsZones =>
              r.key == [if AsString(Get(row.data, Subdomain)) == "" then AsString(Get(row.data, Domain))
                        else AsString(Get(row.data, Subdomain)) + "." + AsString(Get(row.data, Domain))]
            case MarketplaceLabels => true
            case _ => |r.key| == 1 && Get(row.data, Id) == Str(r.key[0])
  {
    hide StoreInv, Facts, ActionFacts, ParentFacts, ChildFacts, NamedFacts, NullableActions, TableFacts, Intact, RowsOk,
      DnsOk, KeysOk, MOCKWAY, ColumnsAgree;
    InvParts(db);
    KeyNamesSpelled(r.table);
    RowParts(db, r);
    KeySpelled(r, db.rows[r], KeyNamesOf(db.schema, r.table));
    KeyHeld(r, db.rows[r]);
  }

  lemma RowParts(db: Db, r: Ref)
    requires RowsOk(db) && KeysOk(db) && DnsOk(db) && r in db.rows
    ensures SpellsKey(KeyNamesOf(db.schema, r.table), r.key, db.rows[r].data) && KeyInColumns(r, db.rows[r])
    ensures ColumnsAgree(SourcesOf(db.schema, r.table), db.rows[r])
    ensures r.table == DnsZones ==> r.key == [ZoneKey(db.rows[r].data)]
  {
    hide SpellsKey, ColumnsAgree, ZoneKey, KeyInColumns;
    assert RowOk(db.schema, r, db.rows[r]);
  }

  lemma KeyNamesSpelled(t: Table)
    ensures KeyNamesOf(MOCKWAY, t) ==
            if t in {RdbPrivileges, RdbAcls, IamGroupMembers, DnsZones, MarketplaceLabels} then [] else KeyFields(t)
  {
    hide FOREIGN_KEYS, REQUIRED_COLUMNS, SOURCES;
  }

  lemma KeySpelled(r: Ref, row: Row, names: seq<Name>)
    requires SpellsKey(names, r.key, row.data)
    ensures |names| == 1 ==> |r.key| == 1 && Get(row.data, names[0]) == Str(r.key[0])
    ensures |names| == 2 ==>
              |r.key| == 2 && Get(row.data, names[0]) == Str(r.key[0]) && Get(row.data, names[1]) == Str(r.key[1])
  {
  }

  lemma KeyHeld(r: Ref, row: Row)
    requires KeyInColumns(r, row)
    ensures r.table == RdbPrivileges ==>
              && |r.key| == 3 && ColumnValue(row, InstanceId) == Some(r.key[0])
              && ColumnValue(row, UserName) == Some(r.key[1]) && ColumnValue(row, DatabaseName) == Some(r.key[2])
    ensures r.table == RdbAcls ==> |r.key| == 1 && ColumnValue(row, InstanceId) == Some(r.key[0])
    ensures r.table == IamGroupMembers ==>
              && |r.key| == 2
              && ColumnValue(row, GroupId) == Some(r.key[0]) && ColumnValue(row, UserId) == Some(r.key[1])
  {
    hide ColumnValue;
    if KeyColumns(r.table) != [] {
      assert forall i | 0 <= i < |r.key| :: ColumnValue(row, KeyColumns(r.table)[i]) == Some(r.key[i]);
      assert ColumnValue(row, KeyColumns(r.table)[0]) == Some(r.key[0]);
      if |r.key| > 1 {
        assert ColumnValue(row, KeyColumns(r.table)[1]) == Some(r.key[1]);
      }
      if |r.key| > 2 {
        assert ColumnValue(row, KeyColumns(r.table)[2]) == Some(r.key[2]);
      }
    }
  }

  // ---- columns ---------------------------------------------------------------------------------------------------

  /** In every row of the table the column holds the text of the field of the same name. */
  ghost predicate HoldsText(db: Db, t: Table, c: Name) {
    forall r | r in db.rows && r.table == t :: ColumnValue(db.rows[r], c) == Some(AsString(Get(db.rows[r].data, c)))
  }

  lemma SourceOf(t: Table)
    ensures SourcesOf(MOCKWAY, t) == Sources(t)
  {
    hide FOREIGN_KEYS, REQUIRED_COLUMNS, KEY_NAMES, SOURCES, Sources;
    SourceAt(t);
  }

  lemma SourceAgrees(db: Db, r: Ref, c: Name)
    requires StoreInv(db) && db.schema == MOCKWAY && r in db.rows && c in Sources(r.table)
    ensures Agrees(Sources(r.table)[c], db.rows[r].data, ColumnValue(db.rows[r], c))
  {
    hide StoreInv, Facts, ActionFacts, ParentFacts, ChildFacts, NamedFacts, NullableActions, TableFacts, Intact, RowsOk,
      DnsOk, KeysOk, MOCKWAY, Agrees, SourcesOf, Sources;
    InvParts(db);
    RowParts(db, r);
    SourceOf(r.table);
  }

  lemma TextHeld(db: Db, t: Table, c: Name)
    requires StoreInv(db) && db.schema == MOCKWAY && c in Sources(t) && Sources(t)[c] == Source([c], Plain)
    ensures HoldsText(db, t, c)
  {
    hide StoreInv, MOCKWAY, Sources;
    forall r | r in db.rows && r.table == t
      ensures ColumnValue(db.rows[r], c) == Some(AsString(Get(db.rows[r].data, c)))
    {
      SourceAgrees(db, r, c);
      assert TextAt(db.rows[r].data, [c]) == AsString(Get(db.rows[r].data, c));
    }
  }

  lemma RegionColumn(db: Db, t: Table)
    requires StoreInv(db) && db.schema == MOCKWAY
    requires t in {Vpcs, PrivateNetworks, VpcRoutes, Clusters, Pools, RdbInstances, RdbReadReplicas,
                   RdbSnapshots, RdbBackups, RegistryNamespaces, IpamIps}
    ensures HoldsText(db, t, Region)
  {
    hide StoreInv, MOCKWAY, HoldsText;
    TextHeld(db, t, Region);
  }

  lemma ZoneColumn(db: Db, t: Table)
    requires StoreInv(db) && db.schema == MOCKWAY
    requires t in {PublicGateways, SecurityGroups, PrivateNics, LbIps, Lbs, RedisClusters, InstanceVolumes,
                   BlockVolumes, BlockSnapshots}
    ensures HoldsText(db, t, Zone)
  {
    hide StoreInv, MOCKWAY, HoldsText;
    TextHeld(db, t, Zone);
  }

  lemma NetworkColumn(db: Db, t: Table)
    requires StoreInv(db) && db.schema == MOCKWAY
    requires t in {GatewayNetworks, PrivateNics, LbPrivateNetworks}
    ensures HoldsText(db, t, PrivateNetworkId)
  {
    hide StoreInv, MOCKWAY, HoldsText;
    TextHeld(db, t, PrivateNetworkId);
  }

  lemma LbColumn(db: Db, t: Table)
    requires StoreInv(db) && db.schema == MOCKWAY
    requires t in {LbFrontends, LbBackends, LbPrivateNetworks, LbRoutes, LbCertificates}
    ensures HoldsText(db, t, LbId)
  {
    hide StoreInv, MOCKWAY, HoldsText;
    TextHeld(db, t, LbId);
  }

  lemma InstanceColumn(db: Db, t: Table)
    requires StoreInv(db) && db.schema == MOCKWAY
    requires t in {RdbDatabases, RdbUsers, RdbReadReplicas, RdbSnapshots, RdbBackups}
    ensures HoldsText(db, t, InstanceId)
  {
    hide StoreInv, MOCKWAY, HoldsText;
    TextHeld(db, t, InstanceId);
  }

  lemma NameColumn(db: Db, t: Table)
    requires StoreInv(db) && db.schema == MOCKWAY
    requires t in {RdbDatabases, RdbUsers}
    ensures HoldsText(db, t, Named)
  {
    hide StoreInv, MOCKWAY, HoldsText;
    TextHeld(db, t, Named);
  }

  /** The columns only one table has. */
  lemma OwnColumns(db: Db)
    requires StoreInv(db) && db.schema == MOCKWAY
    ensures HoldsText(db, VpcRoutes, VpcId)
    ensures HoldsText(db, GatewayNetworks, GatewayId)
    ensures HoldsText(db, PrivateNics, ServerId)
    ensures HoldsText(db, RdbPrivileges, UserName)
    ensures HoldsText(db, RdbPrivileges, DatabaseName)
    ensures HoldsText(db, LbAcls, FrontendId)
    ensures HoldsText(db, Pools, ClusterId)
    ensures HoldsText(db, DnsZones, Domain)
    ensures HoldsText(db, IamRules, PolicyId)
  {
    hide StoreInv, MOCKWAY, HoldsText, Sources;
    RouteVpc();
    TextHeld(db, VpcRoutes, VpcId);
    NetworkGateway();
    TextHeld(db, GatewayNetworks, GatewayId);
    NicServer();
    TextHeld(db, PrivateNics, ServerId);
    PrivilegeUser();
    TextHeld(db, RdbPrivileges, UserName);
    PrivilegeDatabase();
    TextHeld(db, RdbPrivileges, DatabaseName);
    AclFrontend();
    TextHeld(db, LbAcls, FrontendId);
    PoolCluster();
    TextHeld(db, Pools, ClusterId);
    ZoneDomain();
    TextHeld(db, DnsZones, Domain);
    RulePolicy();
    TextHeld(db, IamRules, PolicyId);
  }

  lemma RouteVpc()
    ensures VpcId in Sources(VpcRoutes) && Sources(VpcRoutes)[VpcId] == Source([VpcId], Plain)
  {
  }

  lemma NetworkGateway()
    ensures GatewayId in Sources(GatewayNetworks) && Sources(GatewayNetworks)[GatewayId] == Source([GatewayId], Plain)
  {
  }

  lemma NicServer()
    ensures ServerId in Sources(PrivateNics) && Sources(PrivateNics)[ServerId] == Source([ServerId], Plain)
  {
  }

  lemma PrivilegeUser()
    ensures UserName in Sources(RdbPrivileges) && Sources(RdbPrivileges)[UserName] == Source([UserName], Plain)
  {
  }

  lemma PrivilegeDatabase()
    ensures DatabaseName in Sources(RdbPrivileges)
    ensures Sources(RdbPrivileges)[DatabaseName] == Source([DatabaseName], Plain)
  {
  }

  lemma AclFrontend()
    ensures FrontendId in Sources(LbAcls) && Sources(LbAcls)[FrontendId] == Source([FrontendId], Plain)
  {
  }

  lemma PoolCluster()
    ensures ClusterId in Sources(Pools) && Sources(Pools)[ClusterId] == Source([ClusterId], Plain)
  {
  }

  lemma ZoneDomain()
    ensures Domain in Sources(DnsZones) && Sources(DnsZones)[Domain] == Source([Domain], Plain)
  {
  }

  lemma RulePolicy()
    ensures PolicyId in Sources(IamRules) && Sources(IamRules)[PolicyId] == Source([PolicyId], Plain)
  {
  }

  /** Listing by such a column is filtering by the field. */
  lemma ListReturns(db: Db, t: Table, c: Name, v: string)
    requires HoldsText(db, t, c)
    ensures Listed(db, t, c, v) == set r | r in db.rows && r.table == t && AsString(Get(db.rows[r].data, c)) == v
  {
  }

  /** The columns that can be null: an address's server, a cluster's network, a snapshot's volume, an application. */
  lemma NullableColumns(db: Db, r: Ref)
    requires StoreInv(db) && db.schema == MOCKWAY && r in db.rows
    ensures var row, doc := db.rows[r], db.rows[r].data;
            && (r.table == InstanceIps ==>
                  var server := AsString(Get(doc, ServerId));
                  ColumnValue(row, ServerId) == if server == "" then None else Some(server))
            && (r.table == Clusters ==>
                  var network := AsString(Get(doc, PrivateNetworkId));
                  ColumnValue(row, PrivateNetworkId) == if network == "" then None else Some(network))
            && (r.table == BlockSnapshots ==>
                  var volume := AsString(Get(AsDoc(Get(doc, ParentVolume)), Id));
                  ColumnValue(row, VolumeId) != Some(volume) ==> ColumnValue(row, VolumeId) == None && volume == "")
            && (r.table == IamApiKeys || r.table == IamPolicies ==>
                  var application, col := AsString(Get(doc, ApplicationId)), ColumnValue(row, ApplicationId);
                  if col == None then Trim(application) == "" else col == Some(application))
  {
    hide StoreInv, MOCKWAY, Trim, ColumnValue;
    match r.table
    case InstanceIps =>
      SourceAgrees(db, r, ServerId);
      TextPaths(db.rows[r].data, ServerId);
    case Clusters =>
      SourceAgrees(db, r, PrivateNetworkId);
      TextPaths(db.rows[r].data, PrivateNetworkId);
    case BlockSnapshots =>
      SourceAgrees(db, r, VolumeId);
      TextPaths(db.rows[r].data, VolumeId);
    case IamApiKeys =>
      SourceAgrees(db, r, ApplicationId);
      TextPaths(db.rows[r].data, ApplicationId);
    case IamPolicies =>
      SourceAgrees(db, r, ApplicationId);
      TextPaths(db.rows[r].data, ApplicationId);
    case _ =>
  }

  lemma TextPaths(doc: Doc, c: Name)
    ensures TextAt(doc, [c]) == AsString(Get(doc, c))
    ensures TextAt(doc, [ParentVolume, Id]) == AsString(Get(AsDoc(Get(doc, ParentVolume)), Id))
  {
  }

  /** A private network always has its VPC: an update to an empty one is refused by the database. */
  lemma VpcOfNetwork(db: Db, r: Ref)
    requires StoreInv(db) && db.schema == MOCKWAY && r in db.rows && r.table == PrivateNetworks
    ensures ColumnValue(db.rows[r], VpcId) == Some(AsString(Get(db.rows[r].data, VpcId)))
  {
    hide StoreInv, Facts, ActionFacts, ParentFacts, ChildFacts, NamedFacts, NullableActions, TableFacts, RowsOk, DnsOk,
      KeysOk, MOCKWAY, ParentsExist;
    InvParts(db);
    SourceAgrees(db, r, VpcId);
    TextPaths(db.rows[r].data, VpcId);
    assert RequiredPresent(db.schema, r, db.rows[r]);
    NetworkRequired();
  }

  lemma NetworkRequired()
    ensures PrivateNetworks in MOCKWAY.required && VpcId in MOCKWAY.required[PrivateNetworks]
  {
    hide FOREIGN_KEYS, KEY_NAMES, SOURCES;
  }

  // ---- create ----------------------------------------------------------------------------------------------------

  /** What a create stores in a field that is no key field: the path parameter, or what was sent. */
  function SentField(params: map<Name, string>, data: Doc, k: Name): Json {
    if k in params then Str(params[k]) else Get(data, k)
  }

  lemma WithParamsAt(data: Doc, params: map<Name, string>, k: Name)
    ensures Get(WithParams(data, params), k) == SentField(params, data, k)
  {
  }

  /**
   * A created row's fields: what was sent, but for the key fields, the address's lb_id, the snapshot's volume, and
   * the translated fields of clusters and database instances.
   */
  lemma CreatedFields(db: Db, t: Table, key: seq<string>, params: map<Name, string>, data: Doc, k: Name)
    requires StoreInv(db) && db.schema == MOCKWAY && Ordinary(t) && |KeyNamesOf(db.schema, t)| == |key|
    requires Create(db, t, key, params, data).status == Done && !KeyField(t, k)
    ensures Ref(t, key) !in db.rows && Ref(t, key) in Create(db, t, key, params, data).db.rows
    ensures var doc := Create(db, t, key, params, data).db.rows[Ref(t, key)].data;
            && (t == LbIps && k == LbId ==> Get(doc, k) == Null)
            && (t == BlockSnapshots && k == VolumeId ==> k !in doc)
            && (t == BlockSnapshots && k == ParentVolume ==>
                  Get(doc, k) == Obj(map[Id := Str(AsString(SentField(params, data, VolumeId)))]))
            && (!(t == LbIps && k == LbId) && !(t == BlockSnapshots && k in {VolumeId, ParentVolume})
                && !(t == Clusters && k == AutoUpgrade)
                && !(t == RdbInstances && k in {BackupSchedule, DisableBackup}) ==>
                  Get(doc, k) == SentField(params, data, k))
  {
    hide StoreInv, MOCKWAY, Create, Ordinary, WithParams, Prepared, KeyField, KeyNamesOf;
    CreateKeeps(db, t, key, params, data);
    CreatedDoc(db, t, key, params, data, k);
    PreparedAt(t, WithParams(data, params), k);
    WithParamsAt(data, params, k);
    WithParamsAt(data, params, VolumeId);
  }

  lemma PreparedAt(t: Table, data: Doc, k: Name)
    ensures var doc := Prepared(t, data);
            && (t == LbIps && k == LbId ==> Get(doc, k) == Null)
            && (t == BlockSnapshots && k == VolumeId ==> k !in doc)
            && (t == BlockSnapshots && k == ParentVolume ==>
                  Get(doc, k) == Obj(map[Id := Str(AsString(Get(data, VolumeId)))]))
            && (!(t == LbIps && k == LbId) && !(t == BlockSnapshots && k in {VolumeId, ParentVolume})
                && !(t == Clusters && k == AutoUpgrade)
                && !(t == RdbInstances && k in {BackupSchedule, DisableBackup}) ==>
                  Get(doc, k) == Get(data, k))
  {
  }

  lemma SpelledElsewhere(db: Db, t: Table, key: seq<string>, doc: Doc, k: Name)
    requires StoreInv(db) && db.schema == MOCKWAY && |KeyNamesOf(db.schema, t)| == |key| && !KeyField(t, k)
    ensures Get(Spelled(doc, KeyNamesOf(db.schema, t), key), k) == Get(doc, k)
    ensures k in Spelled(doc, KeyNamesOf(db.schema, t), key) <==> k in doc
  {
    hide StoreInv, Facts, ActionFacts, ParentFacts, ChildFacts, NamedFacts, NullableActions, TableFacts, Intact, RowsOk,
      DnsOk, KeysOk, MOCKWAY, KeyNamesOf;
    KeyNamesSpelled(t);
    SpelledOthers(doc, KeyNamesOf(db.schema, t), key, k);
  }

  lemma {:induction false} SpelledOthers(doc: Doc, names: seq<Name>, key: seq<string>, k: Name)
    requires |names| == |key| && k !in names
    ensures Get(Spelled(doc, names, key), k) == Get(doc, k)
    ensures k in Spelled(doc, names, key) <==> k in doc
    decreases |names|
  {
    if names != [] {
      SpelledOthers(doc[names[0] := Str(key[0])], names[1..], key[1..], k);
    }
  }

  /** A created cluster keeps a given `enabled`; `enable` stands in for a missing one and is not stored. */
  lemma CreatedUpgrade(data: Doc)
    ensures var sent, stored := Get(data, AutoUpgrade), Get(CreatedCluster(data), AutoUpgrade);
            && (AutoUpgrade !in data ==> stored == Obj(map[Enabled := Bool(false)]))
            && (AutoUpgrade in data && !sent.Obj? ==> stored == sent)
            && (sent.Obj? ==>
                  && stored.Obj? && Enable !in stored.fields
                  && Get(stored.fields, Enabled) ==
                     (if Enabled in sent.fields then sent.fields[Enabled] else Get(sent.fields, Enable))
                  && forall s | s != Enable && s != Enabled :: Get(stored.fields, s) == Get(sent.fields, s))
    ensures forall k | k != AutoUpgrade :: Get(CreatedCluster(data), k) == Get(data, k)
  {
  }

  /** A created database instance: a flat flag sets the schedule's, beside the defaults if no schedule was sent. */
  lemma CreatedSchedule(data: Doc)
    ensures var sent, doc := Get(data, BackupSchedule), CreatedInstance(data);
            var flag := Get(data, DisableBackup) == Bool(true);
            && DisableBackup !in doc
            && (forall k | k != BackupSchedule && k != DisableBackup :: Get(doc, k) == Get(data, k))
            && (BackupSchedule !in data ==>
                  Get(doc, BackupSchedule) ==
                  Obj(map[Disabled := Bool(flag), Frequency := Num(24.0), Retention := Num(7.0)]))
            && (sent.Obj? && DisableBackup in data ==>
                  Get(doc, BackupSchedule) == Obj(sent.fields[Disabled := Bool(flag)]))
            && (BackupSchedule in data && !(sent.Obj? && DisableBackup in data) ==> Get(doc, BackupSchedule) == sent)
  {
  }

  lemma CreatedDoc(db: Db, t: Table, key: seq<string>, params: map<Name, string>, data: Doc, k: Name)
    requires StoreInv(db) && db.schema == MOCKWAY && Ordinary(t) && |KeyNamesOf(db.schema, t)| == |key|
    requires Create(db, t, key, params, data).status == Done && !KeyField(t, k)
    ensures Ref(t, key) in Create(db, t, key, params, data).db.rows
    ensures var doc := Create(db, t, key, params, data).db.rows[Ref(t, key)].data;
            && Get(doc, k) == Get(Prepared(t, WithParams(data, params)), k)
            && (k in doc <==> k in Prepared(t, WithParams(data, params)))
  {
    hide StoreInv, MOCKWAY, Create, Ordinary, Spelled, WithParams, Prepared, KeyNamesOf;
    CreateKeeps(db, t, key, params, data);
    SpelledElsewhere(db, t, key, Prepared(t, WithParams(data, params)), k);
  }

  /** The stored auto_upgrade of a created cluster, from the one sent. */
  lemma CreatedClusterRow(db: Db, id: string, params: map<Name, string>, data: Doc)
    requires StoreInv(db) && db.schema == MOCKWAY && |KeyNamesOf(db.schema, Clusters)| == 1 && AutoUpgrade !in params
    requires Create(db, Clusters, [id], params, data).status == Done
    ensures Ref(Clusters, [id]) in Create(db, Clusters, [id], params, data).db.rows
    ensures var sent := Get(data, AutoUpgrade);
            var stored := Get(Create(db, Clusters, [id], params, data).db.rows[Ref(Clusters, [id])].data, AutoUpgrade);
            && (AutoUpgrade !in data ==> stored == Obj(map[Enabled := Bool(false)]))
            && (AutoUpgrade in data && !sent.Obj? ==> stored == sent)
            && (sent.Obj? ==>
                  && stored.Obj? && Enable !in stored.fields
                  && Get(stored.fields, Enabled) ==
                     (if Enabled in sent.fields then sent.fields[Enabled] else Get(sent.fields, Enable))
                  && forall s | s != Enable && s != Enabled :: Get(stored.fields, s) == Get(sent.fields, s))
  {
    hide StoreInv, MOCKWAY, Create, CreatedCluster, KeyNamesOf;
    CreatedDoc(db, Clusters, [id], params, data, AutoUpgrade);
    CreatedUpgrade(WithParams(data, params));
    WithParamsAt(data, params, AutoUpgrade);
  }

  /** The stored schedule of a created database instance, from the fields sent. */
  lemma CreatedInstanceRow(db: Db, id: string, params: map<Name, string>, data: Doc)
    requires StoreInv(db) && db.schema == MOCKWAY && |KeyNamesOf(db.schema, RdbInstances)| == 1
    requires DisableBackup !in params && BackupSchedule !in params
    requires Create(db, RdbInstances, [id], params, data).status == Done
    ensures Ref(RdbInstances, [id]) in Create(db, RdbInstances, [id], params, data).db.rows
    ensures var sent, flag := Get(data, BackupSchedule), Get(data, DisableBackup) == Bool(true);
            var doc := Create(db, RdbInstances, [id], params, data).db.rows[Ref(RdbInstances, [id])].data;
            && DisableBackup !in doc
            && (BackupSchedule !in data ==>
                  Get(doc, BackupSchedule) ==
                  Obj(map[Disabled := Bool(flag), Frequency := Num(24.0), Retention := Num(7.0)]))
            && (sent.Obj? && DisableBackup in data ==>
                  Get(doc, BackupSchedule) == Obj(sent.fields[Disabled := Bool(flag)]))
            && (BackupSchedule in data && !(sent.Obj? && DisableBackup in data) ==> Get(doc, BackupSchedule) == sent)
  {
    hide StoreInv, MOCKWAY, Create, CreatedInstance, KeyNamesOf;
    CreatedDoc(db, RdbInstances, [id], params, data, BackupSchedule);
    CreatedDoc(db, RdbInstances, [id], params, data, DisableBackup);
    CreatedSchedule(WithParams(data, params));
    WithParamsAt(data, params, BackupSchedule);
    WithParamsAt(data, params, DisableBackup);
  }

  // ---- update ----------------------------------------------------------------------------------------------------

  /** An updated row's fields: key fields stay, and the others are the plain merge but for the two translated tables. */
  lemma PatchedFields(db: Db, t: Table, key: seq<string>, patch: Doc, k: Name)
    requires StoreInv(db) && db.schema == MOCKWAY && (Ordinary(t) || t == DnsZones)
    requires t != MarketplaceLabels && Patch(db, t, key, patch).status == Done
    ensures Ref(t, key) in db.rows && Ref(t, key) in Patch(db, t, key, patch).db.rows
    ensures var before, after := db.rows[Ref(t, key)].data, Patch(db, t, key, patch).db.rows[Ref(t, key)].data;
            && (KeyField(t, k) ==> Get(after, k) == Get(before, k))
            && (!KeyField(t, k) && !(t == Clusters && k == AutoUpgrade)
                && !(t == RdbInstances && k in {BackupSchedule, DisableBackup, IsBackupScheduleDisabled}) ==>
                  Get(after, k) == Patched(Get(before, k), Get(patch, k)))
  {
    hide StoreInv, MOCKWAY, Patch, Ordinary, Patched, PatchMerge, KeyNamesOf, Protected, KeyField, Translated, Dangling;
    PatchKeeps(db, t, key, patch);
    ProtectedSpelled(db.schema, t, k);
    var before := db.rows[Ref(t, key)].data;
    MergeAt(before, patch, Protected(db.schema, t), k);
    TranslatedKey(t, k);
    if !(t == Clusters && k == AutoUpgrade)
       && !(t == RdbInstances && k in {BackupSchedule, DisableBackup, IsBackupScheduleDisabled}) {
      TranslatedAt(t, PatchMerge(before, patch, Protected(db.schema, t)), k);
    }
  }

  /** Key fields are none of the translated ones. */
  lemma TranslatedKey(t: Table, k: Name)
    ensures KeyField(t, k) ==> !(t == Clusters && k == AutoUpgrade)
    ensures KeyField(t, k) ==>
              !(t == RdbInstances && k in {BackupSchedule, DisableBackup, IsBackupScheduleDisabled})
  {
  }

  lemma ProtectedSpelled(schema: Schema, t: Table, k: Name)
    requires schema == MOCKWAY && (Ordinary(t) || t == DnsZones)
    ensures t != MarketplaceLabels ==> (k in Protected(schema, t) <==> KeyField(t, k))
    ensures t == MarketplaceLabels ==> k !in Protected(schema, t)
  {
    hide MOCKWAY, KeyNamesOf;
    KeyNamesSpelled(t);
  }

  lemma TranslatedAt(t: Table, next: Doc, k: Name)
    requires !(t == Clusters && k == AutoUpgrade)
    requires !(t == RdbInstances && k in {BackupSchedule, DisableBackup, IsBackupScheduleDisabled})
    ensures Get(Translated(t, next), k) == Get(next, k)
  {
  }

  /** An updated cluster: a merged `enable` becomes `enabled`, whatever that was, and is not stored. */
  lemma UpdatedUpgrade(next: Doc)
    ensures var merged, stored := Get(next, AutoUpgrade), Get(PatchedCluster(next), AutoUpgrade);
            && (!merged.Obj? ==> stored == merged)
            && (merged.Obj? ==>
                  && stored.Obj? && Enable !in stored.fields
                  && Get(stored.fields, Enabled) ==
                     (if Enable in merged.fields then merged.fields[Enable] else Get(merged.fields, Enabled))
                  && forall s | s != Enable && s != Enabled :: Get(stored.fields, s) == Get(merged.fields, s))
  {
  }

  /** An updated instance: the last flat flag sets the schedule's, in place or beside the defaults. */
  lemma UpdatedSchedule(next: Doc)
    ensures var merged, stored := Get(next, BackupSchedule), Get(PatchedInstance(next), BackupSchedule);
            var flag := if IsBackupScheduleDisabled in next then next[IsBackupScheduleDisabled]
                        else Get(next, DisableBackup);
            && (DisableBackup !in next && IsBackupScheduleDisabled !in next ==> stored == merged)
            && (DisableBackup in next || IsBackupScheduleDisabled in next ==>
                  stored == Obj(if merged.Obj? then merged.fields[Disabled := Bool(flag == Bool(true))]
                                else map[Disabled := Bool(flag == Bool(true)), Frequency := Num(24.0),
                                         Retention := Num(7.0)]))
  {
  }

  /** The stored auto_upgrade of an updated cluster, from the merged one. */
  lemma UpdatedClusterRow(db: Db, id: string, patch: Doc)
    requires StoreInv(db) && db.schema == MOCKWAY && Patch(db, Clusters, [id], patch).status == Done
    ensures Ref(Clusters, [id]) in db.rows && Ref(Clusters, [id]) in Patch(db, Clusters, [id], patch).db.rows
    ensures var merged := Patched(Get(db.rows[Ref(Clusters, [id])].data, AutoUpgrade), Get(patch, AutoUpgrade));
            var stored := Get(Patch(db, Clusters, [id], patch).db.rows[Ref(Clusters, [id])].data, AutoUpgrade);
            && (!merged.Obj? ==> stored == merged)
            && (merged.Obj? ==>
                  && stored.Obj? && Enable !in stored.fields
                  && Get(stored.fields, Enabled) ==
                     (if Enable in merged.fields then merged.fields[Enable] else Get(merged.fields, Enabled))
                  && forall s | s != Enable && s != Enabled :: Get(stored.fields, s) == Get(merged.fields, s))
  {
    hide StoreInv, MOCKWAY, Patch, Patched, PatchMerge, PatchedCluster, Protected;
    PatchKeeps(db, Clusters, [id], patch);
    ProtectedSpelled(db.schema, Clusters, AutoUpgrade);
    var before := db.rows[Ref(Clusters, [id])].data;
    MergeAt(before, patch, Protected(db.schema, Clusters), AutoUpgrade);
    UpdatedUpgrade(PatchMerge(before, patch, Protected(db.schema, Clusters)));
  }

  /** The merged document has the field: it was stored, or a value was sent for it. */
  predicate Merges(before: Doc, patch: Doc, k: Name) {
    k in before || Get(patch, k) != Null
  }

  /** The stored schedule of an updated instance, from the merged fields: the later of the two flags sets it. */
  lemma UpdatedInstanceRow(db: Db, id: string, patch: Doc)
    requires StoreInv(db) && db.schema == MOCKWAY && Patch(db, RdbInstances, [id], patch).status == Done
    ensures Ref(RdbInstances, [id]) in db.rows
    ensures Ref(RdbInstances, [id]) in Patch(db, RdbInstances, [id], patch).db.rows
    ensures var before := db.rows[Ref(RdbInstances, [id])].data;
            var after := Patch(db, RdbInstances, [id], patch).db.rows[Ref(RdbInstances, [id])].data;
            var merged := Patched(Get(before, BackupSchedule), Get(patch, BackupSchedule));
            var name := if Merges(before, patch, IsBackupScheduleDisabled) then IsBackupScheduleDisabled
                        else DisableBackup;
            var flag := Patched(Get(before, name), Get(patch, name)) == Bool(true);
            && DisableBackup !in after && IsBackupScheduleDisabled !in after
            && Get(after, BackupSchedule) ==
               if !Merges(before, patch, name) then merged
               else if merged.Obj? then Obj(merged.fields[Disabled := Bool(flag)])
               else Obj(map[Disabled := Bool(flag), Frequency := Num(24.0), Retention := Num(7.0)])
  {
    hide StoreInv, MOCKWAY, Patch, PatchMerge, PatchedInstance, Protected, Patched;
    PatchKeeps(db, RdbInstances, [id], patch);
    var before := db.rows[Ref(RdbInstances, [id])].data;
    var skip := Protected(db.schema, RdbInstances);
    forall k | k in {BackupSchedule, DisableBackup, IsBackupScheduleDisabled}
      ensures Get(PatchMerge(before, patch, skip), k) == Patched(Get(before, k), Get(patch, k))
      ensures k in PatchMerge(before, patch, skip) <==> Merges(before, patch, k)
    {
      ProtectedSpelled(db.schema, RdbInstances, k);
      MergeAt(before, patch, skip, k);
    }
    UpdatedSchedule(PatchMerge(before, patch, skip));
    FlagsTranslated(PatchMerge(before, patch, skip));
  }
}
