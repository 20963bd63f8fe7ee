/** The concrete schema of the repository, and the facts about it that the proofs use. */
module MockwaySchema {
  import opened Documents
  import opened Relational

  const SERVER_GROUP := ForeignKey(Servers, SecurityGroupId, SecurityGroups, SetNull)
  const IP_SERVER := ForeignKey(InstanceIps, ServerId, Servers, SetNull)
  const NIC_SERVER := ForeignKey(PrivateNics, ServerId, Servers, Cascade)
  const FRONTEND_LB := ForeignKey(LbFrontends, LbId, Lbs, NoAction)
  const BACKEND_LB := ForeignKey(LbBackends, LbId, Lbs, NoAction)
  const LB_NETWORK_LB := ForeignKey(LbPrivateNetworks, LbId, Lbs, NoAction)
  const ROUTE_LB := ForeignKey(LbRoutes, LbId, Lbs, Cascade)
  const CERTIFICATE_LB := ForeignKey(LbCertificates, LbId, Lbs, Cascade)
  const SNAPSHOT_VOLUME := ForeignKey(BlockSnapshots, VolumeId, BlockVolumes, NoAction)
  const PRIVILEGE_INSTANCE := ForeignKey(RdbPrivileges, InstanceId, RdbInstances, Cascade)
  const ACL_INSTANCE := ForeignKey(RdbAcls, InstanceId, RdbInstances, Cascade)
  const RULE_POLICY := ForeignKey(IamRules, PolicyId, IamPolicies, Cascade)
  const MEMBER_GROUP := ForeignKey(IamGroupMembers, GroupId, IamGroups, Cascade)
  const MEMBER_USER := ForeignKey(IamGroupMembers, UserId, IamUsers, Cascade)

  const NETWORK_KEYS: set<ForeignKey> := {
    ForeignKey(PrivateNetworks, VpcId, Vpcs, NoAction),
    ForeignKey(VpcRoutes, VpcId, Vpcs, NoAction),
    ForeignKey(GatewayNetworks, GatewayId, PublicGateways, NoAction),
    ForeignKey(GatewayNetworks, PrivateNetworkId, PrivateNetworks, NoAction),
    ForeignKey(PrivateNics, PrivateNetworkId, PrivateNetworks, NoAction),
    ForeignKey(Clusters, PrivateNetworkId, PrivateNetworks, NoAction),
    ForeignKey(Pools, ClusterId, Clusters, Cascade)
  }

  const COMPUTE_KEYS: set<ForeignKey> := {
    SERVER_GROUP, IP_SERVER, NIC_SERVER, SNAPSHOT_VOLUME
  }

  const BALANCER_KEYS: set<ForeignKey> := {
    FRONTEND_LB, BACKEND_LB, LB_NETWORK_LB,
    ForeignKey(LbPrivateNetworks, PrivateNetworkId, PrivateNetworks, NoAction),
    ForeignKey(LbAcls, FrontendId, LbFrontends, Cascade),
    ROUTE_LB, CERTIFICATE_LB
  }

  const DATABASE_KEYS: set<ForeignKey> := {
    ForeignKey(RdbDatabases, InstanceId, RdbInstances, Cascade),
    ForeignKey(RdbUsers, InstanceId, RdbInstances, Cascade),
    PRIVILEGE_INSTANCE,
    ForeignKey(RdbReadReplicas, InstanceId, RdbInstances, Cascade),
    ForeignKey(RdbSnapshots, InstanceId, RdbInstances, Cascade),
    ACL_INSTANCE,
    ForeignKey(RdbBackups, InstanceId, RdbInstances, Cascade)
  }

  const IAM_KEYS: set<ForeignKey> := {
    ForeignKey(IamApiKeys, ApplicationId, IamApplications, NoAction),
    ForeignKey(IamPolicies, ApplicationId, IamApplications, NoAction),
    RULE_POLICY, MEMBER_GROUP, MEMBER_USER
  }

  const FOREIGN_KEYS := NETWORK_KEYS + COMPUTE_KEYS + BALANCER_KEYS + DATABASE_KEYS + IAM_KEYS

  /** The NOT NULL columns that are not the row's own identifier. */
  function Required(t: Table): set<Name> {
    match t
    case Vpcs => {Region}
    case PrivateNetworks => {VpcId, Region}
    case VpcRoutes => {VpcId, Region}
    case PublicGateways => {Zone}
    case GatewayNetworks => {GatewayId, PrivateNetworkId}
    case SecurityGroups => {Zone}
    case Servers => {Zone}
    case InstanceIps => {Zone}
    case PrivateNics => {ServerId, PrivateNetworkId, Zone}
    case LbIps => {Zone}
    case Lbs => {Zone}
    case LbFrontends => {LbId}
    case LbBackends => {LbId}
    case LbPrivateNetworks => {LbId, PrivateNetworkId}
    case LbAcls => {FrontendId}
    case LbRoutes => {LbId}
    case LbCertificates => {LbId}
    case Clusters => {Region}
    case Pools => {ClusterId, Region}
    case RdbInstances => {Region}
    case RdbDatabases => {InstanceId, Named}
    case RdbUsers => {InstanceId, Named}
    case RdbPrivileges => {InstanceId, UserName, DatabaseName}
    case RdbReadReplicas => {InstanceId, Region}
    case RdbSnapshots => {InstanceId, Region}
    case RdbAcls => {InstanceId}
    case RdbBackups => {InstanceId, Region}
    case IamRules => {PolicyId}
    case IamGroupMembers => {GroupId, UserId}
    case DnsZones => {Domain}
    case DomainRecords => {DnsZone}
    case RedisClusters => {Zone}
    case RegistryNamespaces => {Region}
    case InstanceVolumes => {Zone}
    case BlockVolumes => {Zone}
    case BlockSnapshots => {Zone}
    case IpamIps => {Region}
    case _ => {}
  }

  /** The document fields that spell a row's primary key; none for the tables that keep it in columns only. */
  function KeyNames(t: Table): seq<Name> {
    match t
    case IamApiKeys => [AccessKey]
    case LbPrivateNetworks => [LbId, PrivateNetworkId]
    case RdbDatabases => [InstanceId, Named]
    case RdbUsers => [InstanceId, Named]
    case RdbPrivileges => []
    case RdbAcls => []
    case IamGroupMembers => []
    case DnsZones => []
    case MarketplaceLabels => []
    case _ => [Id]
  }

  function Column(n: Name, rule: Rule): map<Name, Source> {
    map[n := Source([n], rule)]
  }

  /**
   * The columns that agree with a document field. instance_servers.zone, instance_ips.zone and
   * instance_servers.security_group_id are not here: no update rewrites the zones, and the group column is
   * reconciled by UpdateServer.
   */
  function Sources(t: Table): map<Name, Source> {
    match t
    case Vpcs => Column(Region, Plain)
    case PrivateNetworks => Column(VpcId, NullOnUpdate) + Column(Region, Plain)
    case VpcRoutes => Column(VpcId, Plain) + Column(Region, Plain)
    case PublicGateways => Column(Zone, Plain)
    case GatewayNetworks => Column(GatewayId, Plain) + Column(PrivateNetworkId, Plain)
    case SecurityGroups => Column(Zone, Plain)
    case InstanceIps => Column(ServerId, NullIfEmpty)
    case PrivateNics => Column(ServerId, Plain) + Column(PrivateNetworkId, Plain) + Column(Zone, Plain)
    case LbIps => Column(Zone, Plain)
    case Lbs => Column(Zone, Plain)
    case LbFrontends => Column(LbId, Plain)
    case LbBackends => Column(LbId, Plain)
    case LbPrivateNetworks => Column(LbId, Plain) + Column(PrivateNetworkId, Plain)
    case LbAcls => Column(FrontendId, Plain)
    case LbRoutes => Column(LbId, Plain)
    case LbCertificates => Column(LbId, Plain)
    case Clusters => Column(Region, Plain) + Column(PrivateNetworkId, NullIfEmpty)
    case Pools => Column(ClusterId, Plain) + Column(Region, Plain)
    case RdbInstances => Column(Region, Plain)
    case RdbDatabases => Column(InstanceId, Plain) + Column(Named, Plain)
    case RdbUsers => Column(InstanceId, Plain) + Column(Named, Plain)
    case RdbPrivileges => Column(UserName, Plain) + Column(DatabaseName, Plain)
    case RdbReadReplicas => Column(InstanceId, Plain) + Column(Region, Plain)
    case RdbSnapshots => Column(InstanceId, Plain) + Column(Region, Plain)
    case RdbBackups => Column(InstanceId, Plain) + Column(Region, Plain)
    case DnsZones => Column(Domain, Plain)
    case RedisClusters => Column(Zone, Plain)
    case RegistryNamespaces => Column(Region, Plain)
    case IamApiKeys => Column(ApplicationId, NullIfBlank)
    case IamPolicies => Column(ApplicationId, NullIfBlank)
    case IamRules => Column(PolicyId, Plain)
    case InstanceVolumes => Column(Zone, Plain)
    case BlockVolumes => Column(Zone, Plain)
    case BlockSnapshots => Column(Zone, Plain) + map[VolumeId := Source([ParentVolume, Id], NullOnUpdate)]
    case IpamIps => Column(Region, Plain)
    case _ => map[]
  }

  const REQUIRED_COLUMNS: map<Table, set<Name>> := map t: Table | true :: Required(t)
  const KEY_NAMES: map<Table, seq<Name>> := map t: Table | true :: KeyNames(t)
  const SOURCES: map<Table, map<Name, Source>> := map t: Table | true :: Sources(t)

  const MOCKWAY := Schema(FOREIGN_KEYS, REQUIRED_COLUMNS, KEY_NAMES, SOURCES)

  // ---- the order Reset empties the tables in -------------------------------------------------

  /** The place of a table in Reset's list. */
  function Position(t: Table): nat {
    match t
    case LbAcls => 0
    case LbRoutes => 1
    case LbCertificates => 2
    case LbPrivateNetworks => 3
    case LbFrontends => 4
    case LbBackends => 5
    case Lbs => 6
    case LbIps => 7
    case BlockSnapshots => 8
    case BlockVolumes => 9
    case IpamIps => 10
    case PrivateNics => 11
    case InstanceIps => 12
    case Servers => 13
    case SecurityGroups => 14
    case Pools => 15
    case Clusters => 16
    case RdbBackups => 17
    case RdbSnapshots => 18
    case RdbReadReplicas => 19
    case InstanceVolumes => 20
    case MarketplaceLabels => 21
    case RdbAcls => 22
    case RdbPrivileges => 23
    case RdbDatabases => 24
    case RdbUsers => 25
    case RdbInstances => 26
    case RedisClusters => 27
    case RegistryNamespaces => 28
    case IamRules => 29
    case IamApiKeys => 30
    case IamPolicies => 31
    case IamSshKeys => 32
    case IamGroupMembers => 33
    case IamGroups => 34
    case IamUsers => 35
    case IamApplications => 36
    case DomainRecords => 37
    case DnsZones => 38
    case GatewayNetworks => 39
    case PublicGateways => 40
    case VpcRoutes => 41
    case PrivateNetworks => 42
    case Vpcs => 43
  }

  /** Reset's list, by place. */
  function TableAt(i: nat): Table {
    match i
    case 0 => LbAcls
    case 1 => LbRoutes
    case 2 => LbCertificates
    case 3 => LbPrivateNetworks
    case 4 => LbFrontends
    case 5 => LbBackends
    case 6 => Lbs
    case 7 => LbIps
    case 8 => BlockSnapshots
    case 9 => BlockVolumes
    case 10 => IpamIps
    case 11 => PrivateNics
    case 12 => InstanceIps
    case 13 => Servers
    case 14 => SecurityGroups
    case 15 => Pools
    case 16 => Clusters
    case 17 => RdbBackups
    case 18 => RdbSnapshots
    case 19 => RdbReadReplicas
    case 20 => InstanceVolumes
    case 21 => MarketplaceLabels
    case 22 => RdbAcls
    case 23 => RdbPrivileges
    case 24 => RdbDatabases
    case 25 => RdbUsers
    case 26 => RdbInstances
    case 27 => RedisClusters
    case 28 => RegistryNamespaces
    case 29 => IamRules
    case 30 => IamApiKeys
    case 31 => IamPolicies
    case 32 => IamSshKeys
    case 33 => IamGroupMembers
    case 34 => IamGroups
    case 35 => IamUsers
    case 36 => IamApplications
    case 37 => DomainRecords
    case 38 => DnsZones
    case 39 => GatewayNetworks
    case 40 => PublicGateways
    case 41 => VpcRoutes
    case 42 => PrivateNetworks
    case _ => Vpcs
  }

  const TABLE_COUNT: nat := 44

  const BALANCER_TABLES: seq<Table> := [
    LbAcls, LbRoutes, LbCertificates, LbPrivateNetworks, LbFrontends, LbBackends, Lbs, LbIps
  ]
  const COMPUTE_TABLES: seq<Table> := [
    BlockSnapshots, BlockVolumes, IpamIps, PrivateNics, InstanceIps, Servers, SecurityGroups
  ]
  const CLUSTER_TABLES: seq<Table> := [
    Pools, Clusters, RdbBackups, RdbSnapshots, RdbReadReplicas, InstanceVolumes, MarketplaceLabels
  ]
  const DATABASE_TABLES: seq<Table> := [
    RdbAcls, RdbPrivileges, RdbDatabases, RdbUsers, RdbInstances, RedisClusters, RegistryNamespaces
  ]
  const IAM_TABLES: seq<Table> := [
    IamRules, IamApiKeys, IamPolicies, IamSshKeys, IamGroupMembers, IamGroups, IamUsers, IamApplications
  ]
  const NETWORK_TABLES: seq<Table> := [
    DomainRecords, DnsZones, GatewayNetworks, PublicGateways, VpcRoutes, PrivateNetworks, Vpcs
  ]

  const RESET_ORDER: seq<Table> :=
    BALANCER_TABLES + (COMPUTE_TABLES + (CLUSTER_TABLES + (DATABASE_TABLES + (IAM_TABLES + NETWORK_TABLES))))

  lemma PartLengths()
    ensures |BALANCER_TABLES| == |IAM_TABLES| == 8
    ensures |COMPUTE_TABLES| == |CLUSTER_TABLES| == |DATABASE_TABLES| == |NETWORK_TABLES| == 7
  {
  }

  lemma BalancerPlaces(i: nat)
    requires i < 8
    ensures BALANCER_TABLES[i] == TableAt(i)
  {
  }

  lemma ComputePlaces(i: nat)
    requires i < 7
    ensures COMPUTE_TABLES[i] == TableAt(8 + i)
  {
  }

  lemma ClusterPlaces(i: nat)
    requires i < 7
    ensures CLUSTER_TABLES[i] == TableAt(15 + i)
  {
  }

  lemma DatabasePlaces(i: nat)
    requires i < 7
    ensures DATABASE_TABLES[i] == TableAt(22 + i)
  {
  }

  lemma IamPlaces(i: nat)
    requires i < 8
    ensures IAM_TABLES[i] == TableAt(29 + i)
  {
  }

  lemma NetworkPlaces(i: nat)
    requires i < 7
    ensures NETWORK_TABLES[i] == TableAt(37 + i)
  {
  }

  lemma ResetOrderAt(i: nat)
    requires i < TABLE_COUNT
    ensures |RESET_ORDER| == TABLE_COUNT && RESET_ORDER[i] == TableAt(i)
  {
    hide BALANCER_TABLES, COMPUTE_TABLES, CLUSTER_TABLES, DATABASE_TABLES, IAM_TABLES, NETWORK_TABLES, TableAt;
    PartLengths();
    if i < 8 {
      BalancerPlaces(i);
    } else if i < 15 {
      ComputePlaces(i - 8);
    } else if i < 22 {
      ClusterPlaces(i - 15);
    } else if i < 29 {
      DatabasePlaces(i - 22);
    } else if i < 37 {
      IamPlaces(i - 29);
    } else {
      NetworkPlaces(i - 37);
    }
  }

  lemma ResetOrderComplete(t: Table)
    ensures Position(t) < |RESET_ORDER| && RESET_ORDER[Position(t)] == t
  {
    hide Position, TableAt, RESET_ORDER;
    PositionInverse(t);
    ResetOrderAt(Position(t));
  }

  lemma PositionInverse(t: Table)
    ensures Position(t) < TABLE_COUNT && TableAt(Position(t)) == t
  {
  }

  // ---- facts ------------------------------------------------------------------------------------

  /** Tables that some foreign key references. */
  const PARENTS: set<Table> := {
    Vpcs, PrivateNetworks, PublicGateways, SecurityGroups, Servers, Lbs, LbFrontends, Clusters, RdbInstances,
    IamApplications, IamPolicies, IamGroups, IamUsers, BlockVolumes
  }

  /** Tables a cascade can delete from. */
  const CASCADED: set<Table> := {
    PrivateNics, Pools, LbAcls, LbRoutes, LbCertificates, RdbDatabases, RdbUsers, RdbPrivileges, RdbReadReplicas,
    RdbSnapshots, RdbAcls, RdbBackups, IamRules, IamGroupMembers
  }

  /** Tables whose rows the repository has no single-row delete for; they go with their parent. */
  const DEPENDENT: set<Table> := {RdbPrivileges, RdbAcls, IamRules, IamGroupMembers}

  /** The column by which other tables refer to a table. */
  function LinkColumn(t: Table): Name {
    match t
    case Vpcs => VpcId
    case PrivateNetworks => PrivateNetworkId
    case PublicGateways => GatewayId
    case SecurityGroups => SecurityGroupId
    case Servers => ServerId
    case Lbs => LbId
    case LbFrontends => FrontendId
    case Clusters => ClusterId
    case RdbInstances => InstanceId
    case IamApplications => ApplicationId
    case IamPolicies => PolicyId
    case IamGroups => GroupId
    case IamUsers => UserId
    case BlockVolumes => VolumeId
    case _ => Id
  }

  /** The tables whose rows refuse the delete of a row they refer to. */
  function Refusing(t: Table): set<Table> {
    match t
    case Vpcs => {PrivateNetworks, VpcRoutes}
    case PrivateNetworks => {GatewayNetworks, PrivateNics, Clusters, LbPrivateNetworks}
    case PublicGateways => {GatewayNetworks}
    case Lbs => {LbFrontends, LbBackends, LbPrivateNetworks}
    case IamApplications => {IamApiKeys, IamPolicies}
    case BlockVolumes => {BlockSnapshots}
    case _ => {}
  }

  /** The tables whose rows go with a row they refer to. */
  function Cascading(t: Table): set<Table> {
    match t
    case Servers => {PrivateNics}
    case Lbs => {LbRoutes, LbCertificates}
    case LbFrontends => {LbAcls}
    case Clusters => {Pools}
    case RdbInstances =>
      {RdbDatabases, RdbUsers, RdbPrivileges, RdbReadReplicas, RdbSnapshots, RdbAcls, RdbBackups}
    case IamPolicies => {IamRules}
    case IamGroups => {IamGroupMembers}
    case IamUsers => {IamGroupMembers}
    case _ => {}
  }

  ghost predicate ByAction(fk: ForeignKey) {
    match fk.action
    case NoAction => fk.child !in DEPENDENT
    case Cascade => fk.child in CASCADED
    case SetNull => fk == SERVER_GROUP || fk == IP_SERVER
  }

  ghost predicate ByParent(fk: ForeignKey) {
    match fk.parent
    case Servers => fk == NIC_SERVER || fk == IP_SERVER
    case SecurityGroups => fk == SERVER_GROUP
    case BlockVolumes => fk == SNAPSHOT_VOLUME
    case _ =>
      && fk.column == LinkColumn(fk.parent) && fk.action != SetNull
      && fk.child in (if fk.action == NoAction then Refusing(fk.parent) else Cascading(fk.parent))
  }

  ghost predicate ByChild(fk: ForeignKey) {
    match fk.child
    case Servers => fk == SERVER_GROUP
    case InstanceIps => fk == IP_SERVER
    case LbFrontends => fk == FRONTEND_LB
    case LbBackends => fk == BACKEND_LB
    case RdbPrivileges => fk == PRIVILEGE_INSTANCE
    case RdbAcls => fk == ACL_INSTANCE
    case IamRules => fk == RULE_POLICY
    case IamGroupMembers => fk == MEMBER_GROUP || fk == MEMBER_USER
    case _ => fk.child !in {Lbs, LbIps, SecurityGroups, DnsZones, DomainRecords, BlockVolumes, InstanceVolumes,
                               MarketplaceLabels}
  }

  ghost predicate KeyFacts(fk: ForeignKey) {
    ByAction(fk) && ByParent(fk) && ByChild(fk)
  }

  lemma NetworkKeyFacts(fk: ForeignKey)
    requires fk in NETWORK_KEYS
    ensures KeyFacts(fk)
  {
  }

  lemma NetworkKeyOrder(fk: ForeignKey)
    requires fk in NETWORK_KEYS
    ensures Position(fk.child) < Position(fk.parent)
  {
  }

  lemma ComputeKeyFacts(fk: ForeignKey)
    requires fk in COMPUTE_KEYS
    ensures KeyFacts(fk)
  {
  }

  lemma ComputeKeyOrder(fk: ForeignKey)
    requires fk in COMPUTE_KEYS
    ensures Position(fk.child) < Position(fk.parent)
  {
  }

  lemma BalancerKeyFacts(fk: ForeignKey)
    requires fk in BALANCER_KEYS
    ensures KeyFacts(fk)
  {
  }

  lemma BalancerKeyOrder(fk: ForeignKey)
    requires fk in BALANCER_KEYS
    ensures Position(fk.child) < Position(fk.parent)
  {
  }

  lemma DatabaseKeyFacts(fk: ForeignKey)
    requires fk in DATABASE_KEYS
    ensures KeyFacts(fk)
  {
  }

  lemma DatabaseKeyOrder(fk: ForeignKey)
    requires fk in DATABASE_KEYS
    ensures Position(fk.child) < Position(fk.parent)
  {
  }

  lemma IamKeyFacts(fk: ForeignKey)
    requires fk in IAM_KEYS
    ensures KeyFacts(fk)
  {
  }

  lemma IamKeyOrder(fk: ForeignKey)
    requires fk in IAM_KEYS
    ensures Position(fk.child) < Position(fk.parent)
  {
  }

  /** What the proofs use of a schema; MOCKWAY has all of it. */
  ghost predicate Facts(s: Schema) {
    && ActionFacts(s.foreignKeys)
    && ParentFacts(s.foreignKeys)
    && ChildFacts(s.foreignKeys)
    && NamedFacts(s.foreignKeys)
    && NullableActions(s)
    && TableFacts(s)
  }

  ghost predicate ActionFacts(fks: set<ForeignKey>) {
    forall fk | fk in fks :: ByAction(fk)
  }

  ghost predicate ParentFacts(fks: set<ForeignKey>) {
    forall fk | fk in fks :: ByParent(fk)
  }

  ghost predicate ChildFacts(fks: set<ForeignKey>) {
    forall fk | fk in fks :: ByChild(fk)
  }

  ghost predicate NamedFacts(fks: set<ForeignKey>) {
    && {SERVER_GROUP, IP_SERVER, NIC_SERVER, FRONTEND_LB, BACKEND_LB, ROUTE_LB, CERTIFICATE_LB, SNAPSHOT_VOLUME} <= fks
    && {PRIVILEGE_INSTANCE, ACL_INSTANCE, RULE_POLICY, MEMBER_GROUP, MEMBER_USER} <= fks
    && forall t, child: Table ::
         && (child in Refusing(t) ==> ForeignKey(child, LinkColumn(t), t, NoAction) in fks)
         && (child in Cascading(t) ==> ForeignKey(child, LinkColumn(t), t, Cascade) in fks)
  }

  ghost predicate TableFacts(s: Schema) {
    RequiredFacts(s.required) && KeyNameFacts(s.keyNames) && SourceFacts(s.sources)
  }

  ghost predicate RequiredFacts(required: map<Table, set<Name>>) {
    && DEPENDENT <= required.Keys
    && {Servers, InstanceIps, Lbs, DnsZones, DomainRecords, MarketplaceLabels} <= required.Keys
    && required[MarketplaceLabels] == {}
    && required[Servers] == required[InstanceIps] == required[Lbs] == {Zone}
    && required[DnsZones] == {Domain}
    && required[DomainRecords] == {DnsZone}
    && required[RdbPrivileges] == {InstanceId, UserName, DatabaseName}
    && required[IamRules] == {PolicyId}
    && required[IamGroupMembers] == {GroupId, UserId}
    && required[RdbAcls] == {InstanceId}
  }

  const KEY_FIELDS: set<Name> := {Id, AccessKey, LbId, PrivateNetworkId, InstanceId, Named}

  predicate Distinct(names: seq<Name>) {
    forall i, j | 0 <= i < j < |names| :: names[i] != names[j]
  }

  ghost predicate KeyNameFacts(keyNames: map<Table, seq<Name>>) {
    && (forall t: Table :: t in keyNames && Distinct(keyNames[t]) && forall n | n in keyNames[t] :: n in KEY_FIELDS)
    && keyNames[Servers] == keyNames[SecurityGroups] == keyNames[InstanceIps] == [Id]
    && keyNames[Lbs] == keyNames[LbIps] == keyNames[BlockVolumes] == keyNames[InstanceVolumes] == [Id]
    && keyNames[DomainRecords] == keyNames[IamPolicies] == keyNames[IamRules] == keyNames[RdbInstances] == [Id]
    && keyNames[RdbPrivileges] == keyNames[RdbAcls] == keyNames[IamGroupMembers] == keyNames[DnsZones] == []
    && keyNames[MarketplaceLabels] == [] && keyNames[Pools] == [Id]
  }

  /** The document fields columns are taken from. */
  const COLUMN_FIELDS: set<Name> := {
    Region, Zone, VpcId, GatewayId, PrivateNetworkId, ServerId, LbId, FrontendId, ClusterId, InstanceId, Named,
    UserName, DatabaseName, Domain, ApplicationId, PolicyId, ParentVolume, Id
  }

  ghost predicate SourceFacts(sources: map<Table, map<Name, Source>>) {
    && (forall t: Table :: t in sources && FieldsKnown(sources[t]))
    && sources[Servers] == sources[DomainRecords] == sources[RdbAcls] == sources[IamGroupMembers] == map[]
    && sources[MarketplaceLabels] == map[]
    && sources[Pools] == Column(ClusterId, Plain) + Column(Region, Plain)
    && sources[InstanceIps] == Column(ServerId, NullIfEmpty)
    && sources[Lbs] == sources[LbIps] == Column(Zone, Plain)
    && sources[DnsZones] == Column(Domain, Plain)
    && sources[IamRules] == Column(PolicyId, Plain)
    && sources[RdbPrivileges] == Column(UserName, Plain) + Column(DatabaseName, Plain)
  }

  ghost predicate FieldsKnown(columns: map<Name, Source>) {
    forall c, k | c in columns && k in columns[c].path :: k in COLUMN_FIELDS
  }

  /** Reset's list names every child table before its parents. */
  ghost predicate ChildrenFirst(s: Schema) {
    forall fk | fk in s.foreignKeys :: Position(fk.child) < Position(fk.parent)
  }

  lemma MockwayFacts()
    ensures Facts(MOCKWAY) && ChildrenFirst(MOCKWAY)
  {
    hide ByAction, ByParent, ByChild, Position, NamedFacts, NullableActions, TableFacts, FOREIGN_KEYS, REQUIRED_COLUMNS,
      KEY_NAMES, SOURCES;
    forall fk | fk in MOCKWAY.foreignKeys
      ensures KeyFacts(fk) && Position(fk.child) < Position(fk.parent)
    {
      EveryKey(fk);
    }
    NamedKeys();
    NullableColumns();
    MockwayTableFacts();
  }

  lemma NullableColumns()
    ensures NullableActions(MOCKWAY)
  {
    hide FOREIGN_KEYS, REQUIRED_COLUMNS, Position, KEY_NAMES, SOURCES;
    ComputeRequired();
    forall fk | fk in FOREIGN_KEYS && fk.action == SetNull && fk.child in MOCKWAY.required
      ensures fk.column !in MOCKWAY.required[fk.child]
    {
      EveryKey(fk);
      assert fk == SERVER_GROUP || fk == IP_SERVER;
    }
  }

  lemma MockwayTableFacts()
    ensures TableFacts(MOCKWAY)
  {
    MockwayRequired();
    MockwayKeyNames();
    MockwaySources();
  }

  lemma MockwayRequired()
    ensures RequiredFacts(REQUIRED_COLUMNS)
  {
    ComputeRequired();
    DependentRequired();
  }

  lemma ComputeRequired()
    ensures {Servers, InstanceIps, Lbs, DnsZones, DomainRecords, MarketplaceLabels} <= REQUIRED_COLUMNS.Keys
    ensures REQUIRED_COLUMNS[MarketplaceLabels] == {}
    ensures REQUIRED_COLUMNS[Servers] == REQUIRED_COLUMNS[InstanceIps] == REQUIRED_COLUMNS[Lbs] == {Zone}
    ensures REQUIRED_COLUMNS[DnsZones] == {Domain}
    ensures REQUIRED_COLUMNS[DomainRecords] == {DnsZone}
  {
  }

  lemma DependentRequired()
    ensures DEPENDENT <= REQUIRED_COLUMNS.Keys
    ensures REQUIRED_COLUMNS[RdbPrivileges] == {InstanceId, UserName, DatabaseName}
    ensures REQUIRED_COLUMNS[RdbAcls] == {InstanceId}
    ensures REQUIRED_COLUMNS[IamRules] == {PolicyId}
    ensures REQUIRED_COLUMNS[IamGroupMembers] == {GroupId, UserId}
  {
  }

  lemma MockwayKeyNames()
    ensures KeyNameFacts(KEY_NAMES)
  {
    ComputeKeyNames();
    OtherKeyNames();
    ColumnKeyNames();
    forall t: Table
      ensures t in KEY_NAMES && Distinct(KEY_NAMES[t]) && forall n | n in KEY_NAMES[t] :: n in KEY_FIELDS
    {
      KeyNamesDistinct(t);
    }
  }

  lemma KeyNamesDistinct(t: Table)
    ensures Distinct(KeyNames(t)) && forall n | n in KeyNames(t) :: n in KEY_FIELDS
  {
  }

  lemma ComputeKeyNames()
    ensures KEY_NAMES[Servers] == KEY_NAMES[SecurityGroups] == KEY_NAMES[InstanceIps] == [Id]
    ensures KEY_NAMES[Lbs] == KEY_NAMES[LbIps] == KEY_NAMES[BlockVolumes] == KEY_NAMES[InstanceVolumes] == [Id]
  {
  }

  lemma OtherKeyNames()
    ensures KEY_NAMES[DomainRecords] == KEY_NAMES[IamPolicies] == KEY_NAMES[IamRules] == KEY_NAMES[RdbInstances] == [Id]
  {
  }

  lemma ColumnKeyNames()
    ensures KEY_NAMES[RdbPrivileges] == KEY_NAMES[RdbAcls] == KEY_NAMES[IamGroupMembers] == KEY_NAMES[DnsZones] == []
    ensures KEY_NAMES[MarketplaceLabels] == [] && KEY_NAMES[Pools] == [Id]
  {
  }

  lemma MockwaySources()
    ensures SourceFacts(SOURCES)
  {
    forall t: Table
      ensures t in SOURCES && FieldsKnown(SOURCES[t])
    {
      SourcesKnown(t);
    }
    BareSources();
    ComputeSources();
    OtherSources();
  }

  lemma SourcesKnown(t: Table)
    ensures FieldsKnown(Sources(t))
  {
    hide FieldsKnown, Column, COLUMN_FIELDS;
    SourceParts();
  }

  /** The pieces the column sources are put together from. */
  lemma SourceParts()
    ensures FieldsKnown(map[]) && FieldsKnown(map[VolumeId := Source([ParentVolume, Id], NullOnUpdate)])
    ensures forall n, rule | n in SINGLE_FIELDS :: FieldsKnown(Column(n, rule))
    ensures forall a, b | FieldsKnown(a) && FieldsKnown(b) :: FieldsKnown(a + b)
  {
  }

  const SINGLE_FIELDS: set<Name> := {
    Region, Zone, VpcId, GatewayId, PrivateNetworkId, ServerId, LbId, FrontendId, ClusterId, InstanceId, Named,
    UserName, DatabaseName, Domain, ApplicationId, PolicyId
  }

  lemma SourceAt(t: Table)
    ensures t in SOURCES && SOURCES[t] == Sources(t)
  {
    hide Sources;
  }

  lemma BareSources()
    ensures SOURCES[Servers] == SOURCES[DomainRecords] == SOURCES[RdbAcls] == SOURCES[IamGroupMembers] == map[]
    ensures SOURCES[MarketplaceLabels] == map[]
    ensures SOURCES[Pools] == Column(ClusterId, Plain) + Column(Region, Plain)
  {
    hide SOURCES, Column;
    SourceAt(Servers);
    SourceAt(DomainRecords);
    SourceAt(RdbAcls);
    SourceAt(IamGroupMembers);
    SourceAt(MarketplaceLabels);
    SourceAt(Pools);
  }

  lemma ComputeSources()
    ensures SOURCES[InstanceIps] == Column(ServerId, NullIfEmpty)
    ensures SOURCES[Lbs] == SOURCES[LbIps] == Column(Zone, Plain)
  {
    hide SOURCES, Column;
    SourceAt(InstanceIps);
    SourceAt(Lbs);
    SourceAt(LbIps);
  }

  lemma OtherSources()
    ensures SOURCES[DnsZones] == Column(Domain, Plain)
    ensures SOURCES[IamRules] == Column(PolicyId, Plain)
    ensures SOURCES[RdbPrivileges] == Column(UserName, Plain) + Column(DatabaseName, Plain)
  {
    hide SOURCES, Column;
    SourceAt(DnsZones);
    SourceAt(IamRules);
    SourceAt(RdbPrivileges);
  }

  lemma EveryKey(fk: ForeignKey)
    requires fk in FOREIGN_KEYS
    ensures KeyFacts(fk) && Position(fk.child) < Position(fk.parent)
  {
    if fk in NETWORK_KEYS {
      NetworkKeyFacts(fk);
      NetworkKeyOrder(fk);
    } else if fk in COMPUTE_KEYS {
      ComputeKeyFacts(fk);
      ComputeKeyOrder(fk);
    } else if fk in BALANCER_KEYS {
      BalancerKeyFacts(fk);
      BalancerKeyOrder(fk);
    } else if fk in DATABASE_KEYS {
      DatabaseKeyFacts(fk);
      DatabaseKeyOrder(fk);
    } else {
      IamKeyFacts(fk);
      IamKeyOrder(fk);
    }
  }

  lemma NamedKeys()
    ensures NamedFacts(FOREIGN_KEYS)
  {
    forall t, child: Table
      ensures child in Refusing(t) ==> ForeignKey(child, LinkColumn(t), t, NoAction) in FOREIGN_KEYS
      ensures child in Cascading(t) ==> ForeignKey(child, LinkColumn(t), t, Cascade) in FOREIGN_KEYS
    {
      LinkDeclared(t, child);
    }
  }

  lemma LinkDeclared(t: Table, child: Table)
    ensures child in Refusing(t) ==> ForeignKey(child, LinkColumn(t), t, NoAction) in FOREIGN_KEYS
    ensures child in Cascading(t) ==> ForeignKey(child, LinkColumn(t), t, Cascade) in FOREIGN_KEYS
  {
    hide NETWORK_KEYS, COMPUTE_KEYS, BALANCER_KEYS, DATABASE_KEYS, IAM_KEYS, LinkColumn;
    if t in {Vpcs, PublicGateways, Clusters} || (t == PrivateNetworks && child != LbPrivateNetworks) {
      NetworkLinks(t, child);
    } else if t in {Servers, BlockVolumes} {
      ComputeLinks(t, child);
    } else if t in {Lbs, LbFrontends} || (t == PrivateNetworks && child == LbPrivateNetworks) {
      BalancerLinks(t, child);
    } else if t == RdbInstances {
      DatabaseLinks(t, child);
    } else if t in {IamApplications, IamPolicies, IamGroups, IamUsers} {
      IamLinks(t, child);
    }
  }

  lemma NetworkLinks(t: Table, child: Table)
    requires t in {Vpcs, PublicGateways, Clusters} || (t == PrivateNetworks && child != LbPrivateNetworks)
    ensures child in Refusing(t) ==> ForeignKey(child, LinkColumn(t), t, NoAction) in NETWORK_KEYS
    ensures child in Cascading(t) ==> ForeignKey(child, LinkColumn(t), t, Cascade) in NETWORK_KEYS
  {
  }

  lemma ComputeLinks(t: Table, child: Table)
    requires t in {Servers, BlockVolumes}
    ensures child in Refusing(t) ==> ForeignKey(child, LinkColumn(t), t, NoAction) in COMPUTE_KEYS
    ensures child in Cascading(t) ==> ForeignKey(child, LinkColumn(t), t, Cascade) in COMPUTE_KEYS
  {
  }

  lemma BalancerLinks(t: Table, child: Table)
    requires t in {Lbs, LbFrontends} || (t == PrivateNetworks && child == LbPrivateNetworks)
    ensures child in Refusing(t) ==> ForeignKey(child, LinkColumn(t), t, NoAction) in BALANCER_KEYS
    ensures child in Cascading(t) ==> ForeignKey(child, LinkColumn(t), t, Cascade) in BALANCER_KEYS
  {
  }

  lemma DatabaseLinks(t: Table, child: Table)
    requires t == RdbInstances
    ensures child in Refusing(t) ==> ForeignKey(child, LinkColumn(t), t, NoAction) in DATABASE_KEYS
    ensures child in Cascading(t) ==> ForeignKey(child, LinkColumn(t), t, Cascade) in DATABASE_KEYS
  {
  }

  lemma IamLinks(t: Table, child: Table)
    requires t in {IamApplications, IamPolicies, IamGroups, IamUsers}
    ensures child in Refusing(t) ==> ForeignKey(child, LinkColumn(t), t, NoAction) in IAM_KEYS
    ensures child in Cascading(t) ==> ForeignKey(child, LinkColumn(t), t, Cascade) in IAM_KEYS
  {
  }
}
