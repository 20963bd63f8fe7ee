/** What the calls on servers, groups and addresses do, row by row and field by field. */
module ServerEffects {
  import opened Wrappers
  import opened Documents
  import opened Relational
  import opened MockwaySchema
  import opened Store
  import opened Instances
  import opened InstanceLaws
  import opened Groups
  import opened VolumePlaces

  // ---- DeleteServer and DeleteSecurityGroup ----------------------------------------------------------------------

  /**
   * DeleteServer, row by row: the server and the interfaces that name it go; an address that names it loses its
   * server in column and document and nothing else; every other row stays as it is.
   */
  lemma DeleteServerExact(db: Db, id: string, r: Ref)
    ensures DeleteServer(db, id).status == (if Ref(Servers, [id]) in db.rows then Done else Failed(NotFound))
    ensures var out := DeleteServer(db, id);
            out.status == Done ==>
              && (r in out.db.rows <==>
                    && r in db.rows && r != Ref(Servers, [id])
                    && !(r.table == PrivateNics && ColumnValue(db.rows[r], ServerId) == Some(id)))
              && (r in out.db.rows ==>
                    if r.table == InstanceIps && ColumnValue(db.rows[r], ServerId) == Some(id)
                    then Differs(db.rows[r], out.db.rows[r], map[ServerId := None], map[ServerId := Null])
                    else out.db.rows[r] == db.rows[r])
    ensures DeleteServer(db, id).status != Done ==> DeleteServer(db, id).db == db
  {
    if r in db.rows {
      DetachedIpOnly(db.rows[r]);
    }
    hide DetachedIp, Differs;
  }

  lemma DetachedIpOnly(row: Row)
    ensures Differs(row, DetachedIp(row), map[ServerId := None], map[ServerId := Null])
  {
  }

  /** DeleteSecurityGroup, row by row: the group goes, its servers lose it in column and document and nothing else. */
  lemma DeleteGroupExact(db: Db, id: string, r: Ref)
    ensures DeleteSecurityGroup(db, id).status ==
            (if Ref(SecurityGroups, [id]) in db.rows then Done else Failed(NotFound))
    ensures var out := DeleteSecurityGroup(db, id);
            out.status == Done ==>
              && (r in out.db.rows <==> r in db.rows && r != Ref(SecurityGroups, [id]))
              && (r in out.db.rows ==>
                    if r.table == Servers && ColumnValue(db.rows[r], SecurityGroupId) == Some(id)
                    then Differs(db.rows[r], out.db.rows[r], map[SecurityGroupId := None],
                                 map[SecurityGroupId := Null, SecurityGroup := Null])
                    else out.db.rows[r] == db.rows[r])
    ensures DeleteSecurityGroup(db, id).status != Done ==> DeleteSecurityGroup(db, id).db == db
  {
    if r in db.rows {
      DetachedServerOnly(db.rows[r]);
    }
    hide DetachedServer, Differs;
  }

  lemma DetachedServerOnly(row: Row)
    ensures Differs(row, DetachedServer(row), map[SecurityGroupId := None],
                    map[SecurityGroupId := Null, SecurityGroup := Null])
  {
  }

  // ---- CreateServer ----------------------------------------------------------------------------------------------

  /** The request lists the address: as a non-empty string under public_ips. */
  predicate Sends(data: Doc, ip: string) {
    ip != "" && Str(ip) in AsItems(Get(data, PublicIps))
  }

  /** The address can be taken. */
  predicate Free(db: Db, ip: string) {
    Ref(InstanceIps, [ip]) in db.rows && AsString(Get(db.rows[Ref(InstanceIps, [ip])].data, ServerId)) == ""
  }

  lemma {:induction false} StringsIn(items: seq<Json>, s: string)
    ensures s in Strings(items) <==> s != "" && Str(s) in items
  {
    if items != [] {
      StringsIn(items[1..], s);
      assert items == [items[0]] + items[1..];
    }
  }

  /**
   * CreateServer succeeds exactly when every listed address is stored and free and the group it names, if any, is
   * stored. The first listed address that is not free decides the error: not-found or conflict.
   */
  lemma CreateServerStatus(db: Db, zone: string, data: Doc, ids: NewIds)
    requires StoreInv(db) && ids.server != "" && Ref(Servers, [ids.server]) !in db.rows
    ensures var out, group := CreateServer(db, zone, data, ids), AsString(Get(data, SecurityGroupId));
            && (out.status == Done <==>
                  && (forall ip | Sends(data, ip) :: Free(db, ip))
                  && (group == "" || Ref(SecurityGroups, [group]) in db.rows))
            && (out.status == Failed(Conflict) <==> exists i :: FirstTaken(db, AsItems(Get(data, PublicIps)), i))
            && (out.status == Done || out.status == Failed(Conflict) || out.status == Failed(NotFound))
            && (out.status != Done ==> out.db == db)
  {
    hide StoreInv, Facts, ActionFacts, ParentFacts, ChildFacts, NamedFacts, NullableActions, TableFacts, Intact, RowsOk,
      DnsOk, KeysOk, Insert, CreatedServer, ServerColumns, AttachAll, FirstTaken;
    InvParts(db);
    var items := AsItems(Get(data, PublicIps));
    CreateServerAllOrNothing(db, zone, data, ids);
    forall ip
      ensures ip in ListedIps(data) <==> Sends(data, ip)
    {
      StringsIn(items, ip);
    }
    ProblemAt(db, items);
    if IpProblem(db, ListedIps(data)) == None {
      ServerInsert(db, zone, data, CreatedServer(zone, data, IpEntries(db, ListedIps(data)), ids), ids);
    }
  }

  /** The i-th entry is an address of another server, and every address listed before it is free. */
  predicate FirstTaken(db: Db, items: seq<Json>, i: int) {
    && 0 <= i < |items| && items[i].Str? && items[i].s != ""
    && Ref(InstanceIps, [items[i].s]) in db.rows && !Free(db, items[i].s)
    && forall j | 0 <= j < i && items[j].Str? && items[j].s != "" :: Free(db, items[j].s)
  }

  lemma {:induction false} ProblemAt(db: Db, items: seq<Json>)
    ensures IpProblem(db, Strings(items)) == Some(Conflict) <==> exists i :: FirstTaken(db, items, i)
    ensures IpProblem(db, Strings(items)) in {None, Some(Conflict), Some(NotFound)}
  {
    if items != [] {
      ProblemAt(db, items[1..]);
      if i :| FirstTaken(db, items[1..], i) {
        assert !(items[0].Str? && items[0].s != "") || Free(db, items[0].s) ==> FirstTaken(db, items, i + 1);
      }
      if i :| FirstTaken(db, items, i) {
        if i == 0 {
        } else {
          assert FirstTaken(db, items[1..], i - 1);
        }
      }
      if items[0].Str? && items[0].s != "" && !Free(db, items[0].s) && Ref(InstanceIps, [items[0].s]) in db.rows {
        assert FirstTaken(db, items, 0);
      }
    }
  }

  /** A created server's row: its columns, the fields CreateServer sets, and every other field as it was sent. */
  lemma CreatedServerFields(db: Db, zone: string, data: Doc, ids: NewIds)
    requires StoreInv(db) && ids.server != "" && CreateServer(db, zone, data, ids).status == Done
    ensures Ref(Servers, [ids.server]) in CreateServer(db, zone, data, ids).db.rows
    ensures var row, group := CreateServer(db, zone, data, ids).db.rows[Ref(Servers, [ids.server])],
                              AsString(Get(data, SecurityGroupId));
            && (forall c :: ColumnValue(row, c) ==
                  if c == Zone then Some(zone) else if c == SecurityGroupId && group != "" then Some(group) else None)
            && Get(row.data, Id) == Str(ids.server) && Get(row.data, Zone) == Str(zone)
            && Get(row.data, State) == Str("stopped")
            && Get(row.data, Volumes) == Obj(map[Other("0") := Obj(map[Id := Str(ids.volume), Zone := Str(zone)])])
            && Get(row.data, SecurityGroup) ==
               (if Get(data, SecurityGroup).Obj? then Get(data, SecurityGroup)
                else Obj(map[Id := Str(if group == "" then ids.group else group), Named := Str("default")]))
            && (forall k | k !in {Id, Zone, State, Volumes, SecurityGroup, PublicIps, PublicIp} ::
                  Get(row.data, k) == Get(data, k))
  {
    hide StoreInv, Facts, ActionFacts, ParentFacts, ChildFacts, NamedFacts, NullableActions, TableFacts, Intact, RowsOk,
      DnsOk, KeysOk, Insert, AttachAll, IpEntries, IpProblem, ListedIps;
    CreatedServerStored(db, zone, data, ids);
  }

  lemma CreatedServerStored(db: Db, zone: string, data: Doc, ids: NewIds)
    requires StoreInv(db) && ids.server != "" && CreateServer(db, zone, data, ids).status == Done
    ensures IpProblem(db, ListedIps(data)) == None && ServerRef(ids.server) !in db.rows
    ensures var doc := CreatedServer(zone, data, IpEntries(db, ListedIps(data)), ids);
            var made := db.(rows := db.rows[ServerRef(ids.server) := Row(ServerColumns(zone, data), doc)]);
            && CreateServer(db, zone, data, ids).db == AttachAll(made, ListedIps(data), ids.server)
            && ServerRef(ids.server) in AttachAll(made, ListedIps(data), ids.server).rows
            && AttachAll(made, ListedIps(data), ids.server).rows[ServerRef(ids.server)] ==
               made.rows[ServerRef(ids.server)]
  {
    hide StoreInv, Facts, ActionFacts, ParentFacts, ChildFacts, NamedFacts, NullableActions, TableFacts, Intact, RowsOk,
      DnsOk, KeysOk, Insert, AttachAll, IpEntries, IpProblem, ListedIps, CreatedServer, ServerColumns;
    InvParts(db);
    var doc := CreatedServer(zone, data, IpEntries(db, ListedIps(data)), ids);
    ServerInsert(db, zone, data, doc, ids);
    AttachAllAt(db.(rows := db.rows[ServerRef(ids.server) := Row(ServerColumns(zone, data), doc)]), ListedIps(data),
                ids.server);
  }

  /** The addresses a created server shows: one entry for each listed address, in order, and the first of them. */
  lemma CreatedServerShowsIps(db: Db, zone: string, data: Doc, ids: NewIds, ips: seq<string>)
    requires StoreInv(db) && ids.server != "" && CreateServer(db, zone, data, ids).status == Done
    requires AsItems(Get(data, PublicIps)) == seq(|ips|, i requires 0 <= i < |ips| => Str(ips[i]))
    requires "" !in ips
    ensures Ref(Servers, [ids.server]) in CreateServer(db, zone, data, ids).db.rows
    ensures forall ip | ip in ips :: Ref(InstanceIps, [ip]) in db.rows
    ensures var doc := CreateServer(db, zone, data, ids).db.rows[Ref(Servers, [ids.server])].data;
            && Get(doc, PublicIps).Arr? && |doc[PublicIps].items| == |ips|
            && (forall i | 0 <= i < |ips| :: doc[PublicIps].items[i] ==
                  Obj(map[Id := Str(ips[i]), Address := Get(db.rows[Ref(InstanceIps, [ips[i]])].data, Address),
                          Dynamic := Bool(false)]))
            && Get(doc, PublicIp) == (if ips == [] then Null else doc[PublicIps].items[0])
  {
    hide StoreInv, AttachAll, IpEntries, IpProblem, ServerColumns;
    CreatedServerStored(db, zone, data, ids);
    StringsAre(AsItems(Get(data, PublicIps)), ips);
    EntriesAt(db, ips);
  }

  lemma {:induction false} StringsAre(items: seq<Json>, ips: seq<string>)
    requires |items| == |ips| && forall i | 0 <= i < |ips| :: items[i] == Str(ips[i]) && ips[i] != ""
    ensures Strings(items) == ips
  {
    if ips != [] {
      StringsAre(items[1..], ips[1..]);
    }
  }

  /** Entries that are no strings, or empty ones, are skipped wherever they stand. */
  lemma {:induction false} StringsSkip(before: seq<Json>, x: Json, after: seq<Json>)
    requires AsString(x) == ""
    ensures Strings(before + [x] + after) == Strings(before + after)
  {
    if before == [] {
      assert ([x] + after)[1..] == after && [] + [x] + after == [x] + after && [] + after == after;
    } else {
      StringsSkip(before[1..], x, after);
      assert (before + [x] + after)[1..] == before[1..] + [x] + after && (before + after)[1..] == before[1..] + after;
    }
  }

  lemma {:induction false} EntriesAt(db: Db, ips: seq<string>)
    requires IpProblem(db, ips) == None
    ensures |IpEntries(db, ips)| == |ips| && forall ip | ip in ips :: Ref(InstanceIps, [ip]) in db.rows
    ensures forall i | 0 <= i < |ips| :: IpEntries(db, ips)[i] ==
              Obj(map[Id := Str(ips[i]), Address := Get(db.rows[Ref(InstanceIps, [ips[i]])].data, Address),
                      Dynamic := Bool(false)])
  {
    if ips != [] {
      EntriesAt(db, ips[1..]);
    }
  }

  /** The other rows: a listed address takes the server into column and document and changes in nothing else. */
  lemma CreateServerElsewhere(db: Db, zone: string, data: Doc, ids: NewIds, r: Ref)
    requires StoreInv(db) && ids.server != "" && CreateServer(db, zone, data, ids).status == Done
    requires r != Ref(Servers, [ids.server])
    ensures var next := CreateServer(db, zone, data, ids).db;
            && (r in next.rows <==> r in db.rows)
            && (r in db.rows ==>
                  if r.table == InstanceIps && |r.key| == 1 && Sends(data, r.key[0])
                  then Differs(db.rows[r], next.rows[r], map[ServerId := Some(ids.server)],
                               map[ServerId := Str(ids.server), Server := Null])
                  else next.rows[r] == db.rows[r])
  {
    hide StoreInv, IpEntries, IpProblem, ServerColumns, CreatedServer, AttachedIp, Differs, Strings;
    CreatedServerStored(db, zone, data, ids);
    if r in db.rows {
      AttachedIpOnly(db.rows[r], ids.server);
      if |r.key| == 1 {
        StringsIn(AsItems(Get(data, PublicIps)), r.key[0]);
      }
    }
  }

  lemma AttachedIpOnly(row: Row, server: string)
    ensures Differs(row, AttachedIp(row, server), map[ServerId := Some(server)],
                    map[ServerId := Str(server), Server := Null])
  {
  }

  // ---- UpdateIP --------------------------------------------------------------------------------------------------

  /** An accepted address update: `server` wins over `server_id` and is not stored; the rest is the plain merge. */
  lemma UpdateIpFields(db: Db, id: string, patch: Doc)
    requires StoreInv(db) && UpdateIp(db, id, patch).status == Done
    ensures var r, next := Ref(InstanceIps, [id]), UpdateIp(db, id, patch).db;
            && r in db.rows && r in next.rows && next == db.(rows := db.rows[r := next.rows[r]])
            && var before, after := db.rows[r], next.rows[r];
               && (forall k | k != Server :: Get(after.data, k) ==
                     if k == Id then Get(before.data, k)
                     else if k == ServerId && Server in patch then Str(AsString(patch[Server]))
                     else Patched(Get(before.data, k), Get(patch, k)))
               && (Server in patch ==> Server !in after.data)
               && (Server !in patch ==> Get(after.data, Server) == Get(before.data, Server))
               && (forall c | c != ServerId :: ColumnValue(after, c) == ColumnValue(before, c))
               && var server := AsString(Get(after.data, ServerId));
                  ColumnValue(after, ServerId) == if server == "" then None else Some(server)
  {
    hide StoreInv, Facts, UpdateIp, PatchMerge, Patched;
    UpdateIpExact(db, id, patch);
    var before := db.rows[IpRef(id)].data;
    forall k
      ensures Get(PatchMerge(before, patch, {Id}), k) ==
              if k == Id then Get(before, k) else Patched(Get(before, k), Get(patch, k))
    {
      MergeAt(before, patch, {Id}, k);
    }
    assert Patched(Get(before, Server), Null) == Get(before, Server) by { PatchedByCase(Get(before, Server), Null); }
  }

  // ---- UpdateServer ----------------------------------------------------------------------------------------------

  /** The name a server shows for a group: the stored one, or the id when there is none. */
  predicate ShownName(db: Db, group: string, name: string) {
    if Ref(SecurityGroups, [group]) in db.rows && AsString(Get(db.rows[Ref(SecurityGroups, [group])].data, Named)) != ""
    then Get(db.rows[Ref(SecurityGroups, [group])].data, Named) == Str(name) else name == group
  }

  lemma NameShown(db: Db, group: string)
    ensures ShownName(db, group, GroupName(db, group))
  {
  }

  /**
   * The update with a given group: refused if the group is not stored though the patch names one; otherwise the
   * column takes the group if it is stored, the two group fields are as given, and the rest is the plain merge.
   */
  ghost predicate ServerTakes(db: Db, id: string, patch: Doc, group: string, gid: Json, shown: Json) {
    var out, stored := UpdateServer(db, id, patch), Ref(SecurityGroups, [group]) in db.rows;
    if group != "" && !stored && (SecurityGroupId in patch || SecurityGroup in patch)
    then out == Outcome(db, Failed(NotFound))
    else
      && out.status == Done && Ref(Servers, [id]) in db.rows && Ref(Servers, [id]) in out.db.rows
      && out.db == db.(rows := db.rows[Ref(Servers, [id]) := out.db.rows[Ref(Servers, [id])]])
      && var before, after := db.rows[Ref(Servers, [id])], out.db.rows[Ref(Servers, [id])];
         && (forall c :: ColumnValue(after, c) ==
               if c != SecurityGroupId then ColumnValue(before, c)
               else if group != "" && stored then Some(group) else None)
         && Get(after.data, SecurityGroupId) == gid && Get(after.data, SecurityGroup) == shown
         && forall k | k != SecurityGroupId && k != SecurityGroup ::
              Get(after.data, k) ==
              if k == Id then Get(before.data, k) else Patched(Get(before.data, k), Get(patch, k))
  }

  lemma TakesReconciled(db: Db, id: string, patch: Doc)
    requires StoreInv(db) && Ref(Servers, [id]) in db.rows
    ensures var (doc, group) := Reconciled(db, patch, PatchMerge(db.rows[ServerRef(id)].data, patch, {Id}));
            ServerTakes(db, id, patch, group, Get(doc, SecurityGroupId), Get(doc, SecurityGroup))
  {
    hide StoreInv, Facts, ActionFacts, ParentFacts, NullableActions, TableFacts, DnsOk, KeysOk, RowsOk, Intact,
      ChildFacts, NamedFacts, Update, PatchMerge, Reconciled, Patched, UpdateServer;
    InvParts(db);
    UpdateServerMeans(db, id, patch);
    var before := db.rows[ServerRef(id)].data;
    ReconciledId(db, patch, PatchMerge(before, patch, {Id}));
    forall k
      ensures Get(PatchMerge(before, patch, {Id}), k) ==
              if k == Id then Get(before, k) else Patched(Get(before, k), Get(patch, k))
    {
      MergeAt(before, patch, {Id}, k);
    }
  }

  /** A security_group_id in the patch decides alone: empty detaches, and a stored group is shown with its name. */
  lemma UpdateByGroupId(db: Db, id: string, patch: Doc, group: string) returns (name: string)
    requires StoreInv(db) && Ref(Servers, [id]) in db.rows && Get(patch, SecurityGroupId) == Str(group)
    ensures ShownName(db, group, name)
    ensures ServerTakes(db, id, patch, group, Str(group),
                        if group == "" then Null else Obj(map[Id := Str(group), Named := Str(name)]))
  {
    hide StoreInv, PatchMerge, ServerTakes, GroupName, ShownName;
    TakesReconciled(db, id, patch);
    NameShown(db, group);
    name := GroupName(db, group);
  }

  /** Without one, a plain string under security_group is the group. */
  lemma UpdateByGroupString(db: Db, id: string, patch: Doc, group: string) returns (name: string)
    requires StoreInv(db) && Ref(Servers, [id]) in db.rows && !Get(patch, SecurityGroupId).Str?
    requires Get(patch, SecurityGroup) == Str(group) && group != ""
    ensures ShownName(db, group, name)
    ensures ServerTakes(db, id, patch, group, Str(group), Obj(map[Id := Str(group), Named := Str(name)]))
  {
    hide StoreInv, PatchMerge, ServerTakes, GroupName, ShownName;
    MergeAt(db.rows[ServerRef(id)].data, patch, {Id}, SecurityGroup);
    TakesReconciled(db, id, patch);
    NameShown(db, group);
    name := GroupName(db, group);
  }

  /** Without one, the id of a security_group object is the group, and the object is merged into the shown one. */
  lemma UpdateByGroupObject(db: Db, id: string, patch: Doc, sent: Doc, group: string)
    requires StoreInv(db) && Ref(Servers, [id]) in db.rows && !Get(patch, SecurityGroupId).Str?
    requires Get(patch, SecurityGroup) == Obj(sent) && Get(sent, Id) == Str(group)
    ensures ServerTakes(db, id, patch, group, Str(group),
                        Patched(Get(db.rows[Ref(Servers, [id])].data, SecurityGroup), Obj(sent)))
  {
    hide StoreInv, PatchMerge, ServerTakes, GroupName;
    var stored := Get(db.rows[ServerRef(id)].data, SecurityGroup);
    MergeAt(db.rows[ServerRef(id)].data, patch, {Id}, SecurityGroup);
    PatchedByCase(stored, Obj(sent));
    TakesReconciled(db, id, patch);
  }

  /** A patch that says nothing about groups reads the group back from the stored document. */
  lemma UpdateWithoutGroup(db: Db, id: string, patch: Doc) returns (name: string)
    requires StoreInv(db) && Ref(Servers, [id]) in db.rows
    requires SecurityGroupId !in patch && SecurityGroup !in patch
    ensures var doc := db.rows[Ref(Servers, [id])].data;
            var gid, shown := Get(doc, SecurityGroupId), Get(doc, SecurityGroup);
            if shown.Str? && shown.s != "" then
              && ShownName(db, shown.s, name)
              && ServerTakes(db, id, patch, shown.s, shown, Obj(map[Id := shown, Named := Str(name)]))
            else if shown.Obj? && Get(shown.fields, Id).Str? then
              ServerTakes(db, id, patch, Get(shown.fields, Id).s, Get(shown.fields, Id), shown)
            else if shown.Obj? then ServerTakes(db, id, patch, "", gid, shown)
            else ServerTakes(db, id, patch, AsString(gid), gid, shown)
  {
    hide StoreInv, PatchMerge, ServerTakes, GroupName, ShownName;
    var doc := db.rows[ServerRef(id)].data;
    MergeAt(doc, patch, {Id}, SecurityGroup);
    MergeAt(doc, patch, {Id}, SecurityGroupId);
    TakesReconciled(db, id, patch);
    name := GroupName(db, Text(doc, SecurityGroup));
    NameShown(db, Text(doc, SecurityGroup));
  }

  // ---- the request form of CreateServer --------------------------------------------------------------------------

  /** The group a normalised request ends with. */
  predicate Takes(out: Doc, group: string, shown: Doc) {
    if group == "" then SecurityGroupId !in out && Get(out, SecurityGroup) == Null
    else Get(out, SecurityGroupId) == Str(group) && Get(out, SecurityGroup) == Obj(shown)
  }

  /** The request's own group, wherever it is sent, ends trimmed in both fields; any other kind of value clears it. */
  lemma NormalizedByCase(body: Doc)
    ensures var out, sent, gid := NormalizedGroup(body), Get(body, SecurityGroup), Get(body, SecurityGroupId);
            && (sent.Str? ==> Takes(out, Trim(sent.s), map[Id := Str(Trim(sent.s)), Named := Str("")]))
            && (sent.Obj? ==>
                  Takes(out, Trim(AsString(Get(sent.fields, Id))),
                        if Named in sent.fields then sent.fields else sent.fields[Named := Str("")]))
            && (SecurityGroup in body && !sent.Str? && !sent.Obj? ==> Takes(out, "", map[]))
            && (SecurityGroup !in body ==>
                  Takes(out, Trim(AsString(gid)), map[Id := Str(Trim(AsString(gid))), Named := Str("")]))
  {
    hide Trim;
    assert Trim("") == "" by { TrimNothing(); }
  }

  lemma TrimNothing()
    ensures Trim("") == ""
  {
  }

  // ---- volumes inside servers ------------------------------------------------------------------------------------

  /** The server of the zone embeds the volume under key k. */
  predicate Embeds(db: Db, zone: string, r: Ref, k: Name, id: string) {
    && r in db.rows && r.table == Servers && ColumnValue(db.rows[r], Zone) == Some(zone)
    && var volumes := AsDoc(Get(db.rows[r].data, Volumes));
       k in volumes && volumes[k].Obj? && AsString(Get(volumes[k].fields, Id)) == id
  }

  /** Deleting a volume that only servers hold takes it out of one server of the zone, and nothing else changes. */
  lemma DeleteEmbeddedVolume(db: Db, zone: string, id: string, out: Outcome)
    requires VolumeDeleted(db, zone, id, out)
    requires Ref(BlockVolumes, [id]) !in db.rows && Ref(InstanceVolumes, [id]) !in db.rows
    ensures out.status == Done <==> exists r, k :: Embeds(db, zone, r, k, id)
    ensures out.status == Done ==> exists r, k ::
              && Embeds(db, zone, r, k, id) && r in out.db.rows && out.db == db.(rows := db.rows[r := out.db.rows[r]])
              && Differs(db.rows[r], out.db.rows[r], map[],
                         map[Volumes := Obj(AsDoc(Get(db.rows[r].data, Volumes)) - {k})])
    ensures out.status != Done ==> out == Outcome(db, Failed(NotFound))
  {
    hide WithoutVolume, Differs;
    forall r, k
      ensures HoldsVolume(db, zone, r, k, id) <==> Embeds(db, zone, r, k, id)
    {
    }
    if Embedded(db, zone, id) {
      var r, k :| HoldsVolume(db, zone, r, k, id)
                  && out == Outcome(db.(rows := db.rows[r := WithoutVolume(db.rows[r], k)]), Done);
      WithoutVolumeOnly(db.rows[r], k);
      assert Embeds(db, zone, r, k, id);
    }
  }

  lemma WithoutVolumeOnly(row: Row, k: Name)
    ensures Differs(row, WithoutVolume(row, k), map[], map[Volumes := Obj(AsDoc(Get(row.data, Volumes)) - {k})])
  {
  }
}
