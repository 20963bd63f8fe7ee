/** Servers, their security groups, public addresses and volumes. */
module Instances {
  import opened Wrappers
  import opened Documents
  import opened Relational
  import opened Store

  function ServerRef(id: string): Ref { Ref(Servers, [id]) }
  function GroupRef(id: string): Ref { Ref(SecurityGroups, [id]) }
  function IpRef(id: string): Ref { Ref(InstanceIps, [id]) }

  // ---- public addresses ------------------------------------------------------------------------

  /** UpdateIP: the API's "server" is stored as "server_id"; any non-string detaches. */
  function PatchedIp(current: Doc, patch: Doc): Doc {
    var next := PatchMerge(current, patch, {Id});
    if Server in patch then next[ServerId := Str(AsString(patch[Server]))] - {Server} else next
  }

  function UpdateIp(db: Db, id: string, patch: Doc): Outcome {
    if IpRef(id) !in db.rows then Outcome(db, Failed(NotFound))
    else Single(db, UpdateDoc(db, IpRef(id), PatchedIp(db.rows[IpRef(id)].data, patch)))
  }

  /** An address row as the attach step of CreateServer leaves it. */
  function AttachedIp(row: Row, server: string): Row {
    Row(row.cols[ServerId := server], row.data[ServerId := Str(server)] - {Server})
  }

  /** An address row as DeleteServer leaves it. */
  function DetachedIp(row: Row): Row {
    Row(row.cols - {ServerId}, row.data[ServerId := Null])
  }

  // ---- CreateServer ------------------------------------------------------------------------------

  /** The three values CreateServer takes from newID. */
  datatype NewIds = NewIds(server: string, volume: string, group: string)

  function Strings(items: seq<Json>): seq<string> {
    if items == [] then []
    else if AsString(items[0]) != "" then [items[0].s] + Strings(items[1..])
    else Strings(items[1..])
  }

  /** The addresses a create lists; anything but a non-empty string is skipped. */
  function ListedIps(data: Doc): seq<string> {
    Strings(AsItems(Get(data, PublicIps)))
  }

  /** The first reason, in list order, for which CreateServer refuses the listed addresses. */
  function IpProblem(db: Db, ips: seq<string>): Option<Error> {
    if ips == [] then None
    else if IpRef(ips[0]) !in db.rows then Some(NotFound)
    else if Text(db.rows[IpRef(ips[0])].data, ServerId) != "" then Some(Conflict)
    else IpProblem(db, ips[1..])
  }

  function IpEntry(db: Db, id: string): Json
    requires IpRef(id) in db.rows
  {
    Obj(map[Id := Str(id), Address := Get(db.rows[IpRef(id)].data, Address), Dynamic := Bool(false)])
  }

  function IpEntries(db: Db, ips: seq<string>): seq<Json>
    requires IpProblem(db, ips) == None
  {
    if ips == [] then [] else [IpEntry(db, ips[0])] + IpEntries(db, ips[1..])
  }

  const FIRST_VOLUME := Other("0")

  function RootVolume(zone: string, id: string): Json {
    Obj(map[FIRST_VOLUME := Obj(map[Id := Str(id), Zone := Str(zone)])])
  }

  function GroupOrPlaceholder(data: Doc, placeholder: string): Json {
    if Get(data, SecurityGroup).Obj? then data[SecurityGroup]
    else Obj(map[Id := Str(if Text(data, SecurityGroupId) == "" then placeholder else Text(data, SecurityGroupId)),
                 Named := Str("default")])
  }

  function CreatedServer(zone: string, data: Doc, entries: seq<Json>, ids: NewIds): Doc {
    data[Zone := Str(zone)][State := Str("stopped")]
        [PublicIps := Arr(entries)][PublicIp := if entries == [] then Null else entries[0]]
        [Volumes := RootVolume(zone, ids.volume)]
        [SecurityGroup := GroupOrPlaceholder(data, ids.group)]
        [Id := Str(ids.server)]
  }

  function ServerColumns(zone: string, data: Doc): map<Name, string> {
    if Text(data, SecurityGroupId) == "" then map[Zone := zone]
    else map[Zone := zone, SecurityGroupId := Text(data, SecurityGroupId)]
  }

  predicate ListedIp(r: Ref, ips: seq<string>) {
    r.table == InstanceIps && |r.key| == 1 && r.key[0] in ips
  }

  /** Every listed address attached to the new server, however often it is listed. */
  function AttachAll(db: Db, ips: seq<string>, server: string): Db {
    db.(rows := map r | r in db.rows :: if ListedIp(r, ips) then AttachedIp(db.rows[r], server) else db.rows[r])
  }

  function CreateServer(db: Db, zone: string, data: Doc, ids: NewIds): Outcome {
    var ips := ListedIps(data);
    match IpProblem(db, ips)
    case Some(e) => Outcome(db, Failed(e))
    case None =>
      var row := Row(ServerColumns(zone, data), CreatedServer(zone, data, IpEntries(db, ips), ids));
      match Insert(db, ServerRef(ids.server), row)
      case Err(e) => Outcome(db, Failed(e))
      case Ok(next) => Outcome(AttachAll(next, ips, ids.server), Done)
  }

  lemma IpProblemMeans(db: Db, ips: seq<string>)
    ensures IpProblem(db, ips) == None <==>
            forall ip | ip in ips :: IpRef(ip) in db.rows && Text(db.rows[IpRef(ip)].data, ServerId) == ""
  {
    if ips != [] {
      assert forall ip :: ip in ips <==> ip == ips[0] || ip in ips[1..];
    }
  }

  // ---- UpdateServer ------------------------------------------------------------------------------

  function GroupName(db: Db, group: string): string {
    if GroupRef(group) in db.rows && Text(db.rows[GroupRef(group)].data, Named) != ""
    then Text(db.rows[GroupRef(group)].data, Named) else group
  }

  function GroupObject(db: Db, group: string): Json {
    Obj(map[Id := Str(group), Named := Str(GroupName(db, group))])
  }

  /** The reconciled document and the group the foreign-key column should name. */
  function Reconciled(db: Db, patch: Doc, merged: Doc): (Doc, string) {
    if Get(patch, SecurityGroupId).Str? then
      var group := patch[SecurityGroupId].s;
      var doc := merged[SecurityGroupId := Str(group)];
      (if group == "" then doc - {SecurityGroup} else doc[SecurityGroup := GroupObject(db, group)], group)
    else if Text(merged, SecurityGroup) != "" then
      var group := Text(merged, SecurityGroup);
      (merged[SecurityGroupId := Str(group)][SecurityGroup := GroupObject(db, group)], group)
    else if Get(merged, SecurityGroup).Obj? then
      var id := Get(merged[SecurityGroup].fields, Id);
      if id.Str? then (merged[SecurityGroupId := Str(id.s)], id.s) else (merged, "")
    else (merged, Text(merged, SecurityGroupId))
  }

  predicate NamesGroup(patch: Doc) {
    SecurityGroupId in patch || SecurityGroup in patch
  }

  /** The row UpdateServer writes: a group that is not stored leaves the column null. */
  function PatchedServer(db: Db, row: Row, patch: Doc): Row {
    var (doc, group) := Reconciled(db, patch, PatchMerge(row.data, patch, {Id}));
    var cols := row.cols - {SecurityGroupId};
    Row(if group != "" && GroupRef(group) in db.rows then cols[SecurityGroupId := group] else cols, doc)
  }

  /** A patch that names a group itself is refused when that group is not stored. */
  predicate Refused(db: Db, row: Row, patch: Doc) {
    var group := Reconciled(db, patch, PatchMerge(row.data, patch, {Id})).1;
    group != "" && GroupRef(group) !in db.rows && NamesGroup(patch)
  }

  function UpdateServer(db: Db, id: string, patch: Doc): Outcome {
    var r := ServerRef(id);
    if r !in db.rows || Refused(db, db.rows[r], patch) then Outcome(db, Failed(NotFound))
    else Single(db, Update(db, r, PatchedServer(db, db.rows[r], patch)))
  }

  // ---- deletes -----------------------------------------------------------------------------------

  predicate RefersBy(row: Row, c: Name, id: string) {
    ColumnValue(row, c) == Some(id)
  }

  /** DeleteServer: addresses are detached and network interfaces go with the server. */
  function DeleteServer(db: Db, id: string): Outcome {
    if ServerRef(id) !in db.rows then Outcome(db, Failed(NotFound))
    else Outcome(
      db.(rows := map r |
            r in db.rows && r != ServerRef(id) && !(r.table == PrivateNics && RefersBy(db.rows[r], ServerId, id)) ::
        if r.table == InstanceIps && RefersBy(db.rows[r], ServerId, id) then DetachedIp(db.rows[r]) else db.rows[r]),
      Done)
  }

  function DetachedServer(row: Row): Row {
    Row(row.cols - {SecurityGroupId}, row.data[SecurityGroupId := Null][SecurityGroup := Null])
  }

  /** DeleteSecurityGroup: the servers in the group lose it in both the column and the document. */
  function DeleteSecurityGroup(db: Db, id: string): Outcome {
    if GroupRef(id) !in db.rows then Outcome(db, Failed(NotFound))
    else Outcome(
      db.(rows := map r | r in db.rows && r != GroupRef(id) ::
        if r.table == Servers && RefersBy(db.rows[r], SecurityGroupId, id) then DetachedServer(db.rows[r])
        else db.rows[r]),
      Done)
  }

  // ---- volumes embedded in servers ---------------------------------------------------------------

  function EmbeddedVolumes(doc: Doc): Doc {
    AsDoc(Get(doc, Volumes))
  }

  predicate IsVolume(volumes: Doc, k: Name, id: string) {
    k in volumes && volumes[k].Obj? && Text(volumes[k].fields, Id) == id
  }

  /** The server and key a volume sits under, looked for in one zone. */
  predicate HoldsVolume(db: Db, zone: string, r: Ref, k: Name, id: string) {
    && r in db.rows && r.table == Servers && RefersBy(db.rows[r], Zone, zone)
    && IsVolume(EmbeddedVolumes(db.rows[r].data), k, id)
  }

  /** The server row without one of its volumes. */
  function WithoutVolume(row: Row, k: Name): Row {
    row.(data := row.data[Volumes := Obj(EmbeddedVolumes(row.data) - {k})])
  }
}
