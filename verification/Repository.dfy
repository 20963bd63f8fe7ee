/** The repository object: its calls as the statements they run, each proved to do what its specification says. */
module Repositories {
  import opened Wrappers
  import opened Documents
  import opened Relational
  import opened MockwaySchema
  import opened Aliases
  import opened Store
  import opened Instances
  import opened InstanceLaws
  import opened Balancers
  import opened Dns
  import opened ChildSets
  import opened VolumePlaces
  import opened Files
  import opened Lifecycle
  import opened Statements
  import Runs

  /** The open database file, the snapshot file beside it, and whether foreign keys are enforced. */
  class Repository {
    var file: File
    var saved: Option<File>
    var enforcing: bool

    function Live(): Db
      reads this`file
    {
      Db(MOCKWAY, file.rows)
    }

    ghost predicate Valid()
      reads this
    {
      && enforcing && Settled(Machine(file, saved)) && StoreInv(Live())
      && (saved.Some? ==> StoreInv(Db(MOCKWAY, saved.value.rows)))
    }

    // ---- start-up ---------------------------------------------------------------------------------------------

    /** Opening an old, a new or an interrupted file brings its original rows up. */
    constructor (f: File, ghost original: Rows)
      requires (Recoverable(f, original) || Current(f, original)) && StoreInv(Db(MOCKWAY, original))
      ensures Valid() && file.rows == original && saved == None
    {
      file := f;
      saved := None;
      enforcing := false;
      new;
      hide StoreInv, Exec, StartUp, Recoverable;
      StartsWell(f, original);
      var ok := Init();
    }

    method Init() returns (ok: bool)
      modifies this`file, this`enforcing
      ensures Execution(file, ok) == Exec(old(file), StartUp(old(file)))
      ensures enforcing
    {
      hide Exec, Apply, CREATE_ORDER, Migration;
      enforcing := true;
      ok := RunAll(CreateTables(CREATE_ORDER));
      CreatedVersions(old(file), CREATE_ORDER);
      if ok {
        ExecAppend(old(file), CreateTables(CREATE_ORDER), if VERSION in old(file).versions then [] else Migration());
        ok := Migrate();
      } else {
        ExecStops(old(file), CreateTables(CREATE_ORDER), if VERSION in old(file).versions then [] else Migration());
      }
    }

    method Migrate() returns (ok: bool)
      modifies this`file, this`enforcing
      ensures Execution(file, ok) == Exec(old(file), if VERSION in old(file).versions then [] else Migration())
      ensures old(enforcing) ==> enforcing
    {
      if VERSION in file.versions {
        return true;
      }
      hide Apply, RecreateAll, MIGRATED;
      enforcing := false;
      var rebuild := RecreateAll(MIGRATED);
      ok := RunAll(rebuild);
      enforcing := true;
      if ok {
        ExecAppend(old(file), rebuild, [RecordVersion(VERSION)]);
        ok := RunAll([RecordVersion(VERSION)]);
      } else {
        ExecStops(old(file), rebuild, [RecordVersion(VERSION)]);
      }
    }

    /** Statement after statement, up to the first error. */
    method RunAll(statements: seq<Statement>) returns (ok: bool)
      modifies this`file
      ensures Execution(file, ok) == Exec(old(file), statements)
    {
      hide Apply;
      for i := 0 to |statements|
        invariant Exec(old(file), statements[..i]) == Execution(file, true)
      {
        assert statements[..i + 1][..i] == statements[..i];
        match Apply(file, statements[i]) {
          case None =>
            assert statements[..i + 1] + statements[i + 1..] == statements;
            ExecStops(old(file), statements[..i + 1], statements[i + 1..]);
            return false;
          case Some(next) => file := next;
        }
      }
      assert statements[..|statements|] == statements;
      ok := true;
    }

    // ---- snapshot, restore, reset -------------------------------------------------------------------------------

    method Snapshot()
      requires Valid()
      modifies this`saved
      ensures Valid()
      ensures Machine(file, saved) == Happens(old(Machine(file, saved)), SnapshotTaken).0
    {
      hide StoreInv, Current, MOCKWAY;
      saved := None;
      saved := Some(file);
    }

    /**
     * Swaps the snapshot in, on a new connection that does not enforce foreign keys yet, and starts up on it
     * again; they are enforced afterwards.
     */
    method Restore() returns (status: Status)
      requires Valid()
      modifies this`file, this`enforcing
      ensures Valid()
      ensures (Machine(file, saved), status) == Happens(old(Machine(file, saved)), Restored)
      ensures status == if saved == None then Failed(NotFound) else Done
    {
      hide StoreInv, Exec, StartUp, Current;
      match saved {
        case None => return Failed(NotFound);
        case Some(f) =>
          RestoredFile(f);
          file := f;
          enforcing := false;
          var ok := Init();
          return if ok then Done else Failed(Internal);
      }
    }

    method Reset()
      requires Valid()
      modifies this
      ensures Valid() && file.rows == map[]
      ensures Machine(file, saved) == Happens(old(Machine(file, saved)), ResetDone).0
    {
      hide StoreInv, Settled, RESET_ORDER, MOCKWAY, Intact, EmptyTables;
      ghost var db, rows := Live(), file.rows;
      ResetNone(db);
      enforcing := false;
      for i := 0 to |RESET_ORDER|
        invariant file == old(file).(rows := EmptyTables(rows, RESET_ORDER[..i])) && saved == old(saved)
        invariant Intact(Live())
      {
        ResetStep(rows, i);
        ResetKeepsIntact(db, i + 1);
        file := file.(rows := map r | r in file.rows && r.table != RESET_ORDER[i] :: file.rows[r]);
      }
      enforcing := true;
      saved := None;
      assert RESET_ORDER[..|RESET_ORDER|] == RESET_ORDER;
      ResetEmpties(rows);
      ResetSettled(old(file), old(saved));
    }

    // ---- shared create, update and delete -------------------------------------------------------------------------

    /** The effect of one statement, or of a committed transaction, on the live tables. */
    method Write(next: Db)
      requires next.schema == MOCKWAY && Settled(Machine(file, saved))
      modifies this`file
      ensures Live() == next && file == old(file).(rows := next.rows) && Settled(Machine(file, saved))
    {
      hide MOCKWAY, Settled;
      RowsSettled(Machine(file, saved), next.rows);
      file := file.(rows := next.rows);
    }

    /** createSimple and its like: parameters and key go into the document, then one INSERT. */
    method Create(t: Table, key: seq<string>, params: map<Name, string>, data: Doc) returns (status: Status)
      requires Valid() && |KeyNamesOf(MOCKWAY, t)| == |key| && Ordinary(t)
      modifies this`file
      ensures Valid() && file == old(file).(rows := file.rows)
      ensures Outcome(Live(), status) == Store.Create(old(Live()), t, key, params, data)
    {
      hide StoreInv, Settled, MOCKWAY, Store.Create, Insert, Spelled, Prepared, KeyNamesOf, Ordinary, Columns, Dangling;
      CreateKeeps(Live(), t, key, params, data);
      CreateIsInsert(Live(), t, key, params, data);
      var doc := Spelled(Prepared(t, WithParams(data, params)), KeyNamesOf(MOCKWAY, t), key);
      var dangling := LookUpReferences(file.rows, t, doc, true);
      if dangling {
        return Failed(NotFound);
      }
      var sources := SourcesOf(MOCKWAY, t);
      match Insert(Live(), Ref(t, key), Row((params - sources.Keys) + Columns(sources, doc, true), doc)) {
        case Err(e) => return Failed(e);
        case Ok(next) =>
          Write(next);
          return Done;
      }
    }

    /** The updates of every table but servers and addresses: read, merge, translate aliases, write back. */
    method Patch(t: Table, key: seq<string>, patch: Doc) returns (status: Status)
      requires Valid() && (Ordinary(t) || t == DnsZones)
      modifies this`file
      ensures Valid() && file == old(file).(rows := file.rows)
      ensures Outcome(Live(), status) == Store.Patch(old(Live()), t, key, patch)
    {
      hide StoreInv, Settled, MOCKWAY, Update, PatchMerge, PatchedInstance, PatchedCluster, Protected, Ordinary,
        Columns, Dangling;
      PatchKeeps(Live(), t, key, patch);
      var r := Ref(t, key);
      if r !in file.rows {
        return Failed(NotFound);
      }
      var next := PatchMergeLoop(file.rows[r].data, patch, Protected(MOCKWAY, t));
      if t == Clusters {
        next := PatchedCluster(next);
      } else if t == RdbInstances {
        next := TranslateFlags(next);
      }
      var dangling := LookUpReferences(file.rows, t, next, false);
      PatchIsUpdate(Live(), t, key, patch);
      if dangling {
        return Failed(NotFound);
      }
      var sources := SourcesOf(MOCKWAY, t);
      match Update(Live(), r, Row((file.rows[r].cols - sources.Keys) + Columns(sources, next, false), next)) {
        case Err(e) => return Failed(e);
        case Ok(written) =>
          Write(written);
          return Done;
      }
    }

    method Remove(t: Table, key: seq<string>) returns (status: Status)
      requires Valid() && t !in {Servers, SecurityGroups, DnsZones}
      modifies this`file
      ensures Valid() && file == old(file).(rows := file.rows)
      ensures Outcome(Live(), status) == Store.Remove(old(Live()), t, key)
    {
      hide StoreInv, Settled, MOCKWAY, DeleteRows;
      RemoveKeeps(Live(), t, key);
      var matched := if Ref(t, key) in file.rows then {Ref(t, key)} else {};
      if matched == {} {
        return Failed(NotFound);
      }
      match DeleteRows(Live(), matched) {
        case Err(e) => return Failed(e);
        case Ok(next) =>
          Write(next);
          return Done;
      }
    }

    // ---- instances ------------------------------------------------------------------------------------------------

    method UpdateIp(id: string, patch: Doc) returns (status: Status)
      requires Valid()
      modifies this`file
      ensures Valid() && file == old(file).(rows := file.rows)
      ensures Outcome(Live(), status) == Instances.UpdateIp(old(Live()), id, patch)
    {
      hide StoreInv, Settled, MOCKWAY, Update, PatchMerge, Columns;
      UpdateIpKeeps(Live(), id, patch);
      var r := IpRef(id);
      if r !in file.rows {
        return Failed(NotFound);
      }
      var next := PatchMergeLoop(file.rows[r].data, patch, {Id});
      if Server in patch {
        next := next[ServerId := Str(AsString(patch[Server]))];
        next := next - {Server};
      }
      match UpdateDoc(Live(), r, next) {
        case Err(e) => return Failed(e);
        case Ok(written) =>
          Write(written);
          return Done;
      }
    }

    /** The listed addresses are checked one by one, then the server is inserted, then each address is attached. */
    method CreateServer(zone: string, data: Doc, ids: NewIds) returns (status: Status)
      requires Valid() && ids.server != ""
      modifies this`file
      ensures Valid() && file == old(file).(rows := file.rows)
      ensures Outcome(Live(), status) == Instances.CreateServer(old(Live()), zone, data, ids)
    {
      hide StoreInv, Settled, MOCKWAY, IpProblem, IpEntries, Strings, Insert, AttachAll, Instances.UpdateIp;
      ghost var db := Live();
      var doc := data[Zone := Str(zone)][State := Str("stopped")];
      var listed := AsItems(Get(doc, PublicIps));
      var entries: seq<Json> := [];
      ghost var ips: seq<string> := [];
      NoIps(db);
      for i := 0 to |listed|
        invariant file == old(file) && |entries| == |ips|
        invariant ips == Strings(listed[..i]) && IpProblem(db, ips) == None && entries == IpEntries(db, ips)
      {
        NextIp(db, listed, i);
        if AsString(listed[i]) != "" {
          var ip := AsString(listed[i]);
          if IpRef(ip) !in file.rows {
            return Failed(NotFound);
          }
          if Text(file.rows[IpRef(ip)].data, ServerId) != "" {
            return Failed(Conflict);
          }
          var address := Get(file.rows[IpRef(ip)].data, Address);
          entries := entries + [Obj(map[Id := Str(ip), Address := address, Dynamic := Bool(false)])];
          ips := ips + [ip];
        }
      }
      assert listed[..|listed|] == listed && ips == ListedIps(data);
      doc := doc[PublicIps := Arr(entries)];
      doc := doc[PublicIp := if entries == [] then Null else entries[0]];
      doc := doc[Volumes := RootVolume(zone, ids.volume)];
      var group := Text(doc, SecurityGroupId);
      if !Get(doc, SecurityGroup).Obj? {
        doc := doc[SecurityGroup :=
                   Obj(map[Id := Str(if group == "" then ids.group else group), Named := Str("default")])];
      }
      doc := doc[Id := Str(ids.server)];
      var cols := map[Zone := zone];
      if group != "" {
        cols := cols[SecurityGroupId := group];
      }
      assert Row(cols, doc) == Row(ServerColumns(zone, data), CreatedServer(zone, data, entries, ids)) by {
        ServerDocument(zone, data, entries, ids, doc, cols);
      }
      InsertServerKeeps(db, zone, data, ids);
      match Insert(Live(), ServerRef(ids.server), Row(cols, doc)) {
        case Err(e) => return Failed(e);
        case Ok(next) => Write(next);
      }
      ghost var made := Live();
      AttachNobody(made, ids.server);
      for k := 0 to |entries|
        invariant Valid() && |entries| == |ips| && file == old(file).(rows := file.rows)
        invariant Live() == AttachAll(made, ips[..k], ids.server)
      {
        EntriesAt(db, ips, k);
        EntryId(db, ips[k]);
        AttachNext(made, Live(), ips, k, ids.server);
        var attached := UpdateIp(Text(AsDoc(entries[k]), Id), map[Server := Str(ids.server)]);
      }
      assert ips[..|ips|] == ips;
      return Done;
    }

    /** The security group is reconciled between patch, document and stored groups before the one UPDATE. */
    method UpdateServer(id: string, patch: Doc) returns (status: Status)
      requires Valid()
      modifies this`file
      ensures Valid() && file == old(file).(rows := file.rows)
      ensures Outcome(Live(), status) == Instances.UpdateServer(old(Live()), id, patch)
    {
      hide StoreInv, Settled, MOCKWAY, Update, PatchMerge, GroupName;
      UpdateServerKeeps(Live(), id, patch);
      var r := ServerRef(id);
      if r !in file.rows {
        return Failed(NotFound);
      }
      var next := PatchMergeLoop(file.rows[r].data, patch, {Id});
      var group := "";
      if Get(patch, SecurityGroupId).Str? {
        group := patch[SecurityGroupId].s;
        next := next[SecurityGroupId := Str(group)];
        if group == "" {
          next := next - {SecurityGroup};
        } else {
          next := next[SecurityGroup := Obj(map[Id := Str(group), Named := Str(GroupName(Live(), group))])];
        }
      } else if Text(next, SecurityGroup) != "" {
        group := Text(next, SecurityGroup);
        next := next[SecurityGroupId := Str(group)];
        next := next[SecurityGroup := Obj(map[Id := Str(group), Named := Str(GroupName(Live(), group))])];
      } else if Get(next, SecurityGroup).Obj? {
        var named := Get(next[SecurityGroup].fields, Id);
        if named.Str? {
          group := named.s;
          next := next[SecurityGroupId := Str(group)];
        }
      } else {
        group := Text(next, SecurityGroupId);
      }
      assert (next, group) == Reconciled(Live(), patch, PatchMerge(file.rows[r].data, patch, {Id}));
      var patched := SecurityGroupId in patch;
      if !patched {
        patched := SecurityGroup in patch;
      }
      var cols := file.rows[r].cols - {SecurityGroupId};
      if group != "" {
        if GroupRef(group) !in file.rows {
          if patched {
            return Failed(NotFound);
          }
        } else {
          cols := cols[SecurityGroupId := group];
        }
      }
      match Update(Live(), r, Row(cols, next)) {
        case Err(e) => return Failed(e);
        case Ok(written) =>
          Write(written);
          return Done;
      }
    }

    /**
     * One transaction: detach the addresses, delete the interfaces, delete the server. By then nothing refers to
     * the server, so its SET NULL foreign key finds no column to clear.
     */
    method DeleteServer(id: string) returns (status: Status)
      requires Valid()
      modifies this`file
      ensures Valid() && file == old(file).(rows := file.rows)
      ensures Outcome(Live(), status) == Instances.DeleteServer(old(Live()), id)
    {
      hide StoreInv, Settled, MOCKWAY, Update, DeleteRows, DetachedIp, Instances.DeleteServer, ServerCleared, Rewritten;
      DeleteServerKeeps(Live(), id);
      var tx := DetachIps(Live(), id);
      SameNics(Live(), id);
      var nics := Naming(tx, PrivateNics, ServerId, id);
      DeleteNics(Live(), id);
      tx := DeleteRows(tx, nics).value;
      if ServerRef(id) !in file.rows {
        DeleteMissingServer(Live(), id);
        return Failed(NotFound);
      }
      assert tx == ServerCleared(Live(), id);
      ClearedServer(Live(), id);
      tx := DeleteRows(tx, {ServerRef(id)}).value;
      Write(tx);
      return Done;
    }

    /** One transaction: detach the group's servers, then delete the group. */
    method DeleteSecurityGroup(id: string) returns (status: Status)
      requires Valid()
      modifies this`file
      ensures Valid() && file == old(file).(rows := file.rows)
      ensures Outcome(Live(), status) == Instances.DeleteSecurityGroup(old(Live()), id)
    {
      hide StoreInv, Settled, MOCKWAY, Update, DeleteRows, DetachedServer, Instances.DeleteSecurityGroup, GroupCleared,
        Rewritten;
      DeleteGroupKeeps(Live(), id);
      var tx := DetachServers(Live(), id);
      if GroupRef(id) !in file.rows {
        DeleteMissingGroup(Live(), id);
        return Failed(NotFound);
      }
      ClearedGroup(Live(), id);
      tx := DeleteRows(tx, {GroupRef(id)}).value;
      Write(tx);
      return Done;
    }

    // ---- volumes --------------------------------------------------------------------------------------------------

    /** The block-volume GET: three places, in this order. */
    method GetBlockVolume(zone: string, id: string) returns (volume: Option<Doc>)
      ensures volume.Some? <==> Found(Live(), zone, id)
      ensures BlockRef(id) in file.rows ==> volume == Some(file.rows[BlockRef(id)].data)
      ensures BlockRef(id) !in file.rows && StandaloneRef(id) in file.rows ==>
                volume == Some(file.rows[StandaloneRef(id)].data)
      ensures volume.Some? && BlockRef(id) !in file.rows && StandaloneRef(id) !in file.rows ==>
                exists r, k :: HoldsVolume(Live(), zone, r, k, id)
                               && volume == Some(AsDoc(EmbeddedVolumes(file.rows[r].data)[k]))
    {
      hide MOCKWAY, EmbeddedVolumes, IsVolume;
      if BlockRef(id) in file.rows {
        return Some(file.rows[BlockRef(id)].data);
      }
      if StandaloneRef(id) in file.rows {
        return Some(file.rows[StandaloneRef(id)].data);
      }
      var found := FindEmbedded(Live(), zone, id);
      match found {
        case None => return None;
        case Some(place) =>
          assert HoldsVolume(Live(), zone, place.0, place.1, id);
          HeldVolume(Live(), zone, place.0, place.1, id);
          return Some(AsDoc(EmbeddedVolumes(file.rows[place.0].data)[place.1]));
      }
    }

    /** The block-volume DELETE: each place is tried only after the previous one reports not-found. */
    method DeleteBlockVolume(zone: string, id: string) returns (status: Status)
      requires Valid()
      modifies this`file
      ensures Valid() && file == old(file).(rows := file.rows)
      ensures VolumeDeleted(old(Live()), zone, id, Outcome(Live(), status))
    {
      hide StoreInv, Settled, MOCKWAY, DeleteRows, HoldsVolume;
      RemoveMissing(Live(), BlockVolumes, id);
      RemoveMissing(Live(), InstanceVolumes, id);
      status := Remove(BlockVolumes, [id]);
      if status != Failed(NotFound) {
        return;
      }
      status := Remove(InstanceVolumes, [id]);
      if status != Failed(NotFound) {
        return;
      }
      status := DeleteInstanceVolume(zone, id);
    }

    /** Takes the volume out of the first server of the zone found to embed it. */
    method DeleteInstanceVolume(zone: string, id: string) returns (status: Status)
      requires Valid()
      modifies this`file
      ensures Valid() && file == old(file).(rows := file.rows)
      ensures if Embedded(old(Live()), zone, id) then
                && status == Done
                && exists r, k :: HoldsVolume(old(Live()), zone, r, k, id)
                                  && file.rows == old(file.rows)[r := WithoutVolume(old(file.rows)[r], k)]
              else Outcome(Live(), status) == Outcome(old(Live()), Failed(NotFound))
    {
      hide StoreInv, Settled, MOCKWAY, Update, EmbeddedVolumes, IsVolume, WithoutVolume;
      var found := FindEmbedded(Live(), zone, id);
      match found {
        case None =>
          return Failed(NotFound);
        case Some(place) =>
          var (r, k) := place;
          assert HoldsVolume(Live(), zone, r, k, id);
          WithoutVolumeKeeps(Live(), r, k);
          WithoutVolumeWrites(Live(), r, k);
          Write(Update(Live(), r, WithoutVolume(file.rows[r], k)).value);
          return Done;
      }
    }

    // ---- load balancers ---------------------------------------------------------------------------------------------

    /** The chosen address is checked, the balancer inserted, and then the address updated to name it. */
    method CreateLb(zone: string, data: Doc, id: string, inlineId: string) returns (status: Status)
      requires Valid()
      modifies this`file
      ensures Valid() && file == old(file).(rows := file.rows)
      ensures Outcome(Live(), status) == Balancers.CreateLb(old(Live()), zone, data, id, inlineId)
    {
      hide StoreInv, Settled, MOCKWAY, Insert, Store.Patch;
      var doc := data[Zone := Str(zone)][Id := Str(id)];
      var ip := "";
      var ids := AsItems(Get(doc, IpIds));
      if ids != [] {
        if AsString(ids[0]) != "" {
          ip := AsString(ids[0]);
        }
      }
      if ip == "" {
        ip := Text(doc, IpId);
      }
      assert ip == ChosenIp(data);
      var entry := InlineIp(inlineId, id, zone);
      if ip != "" {
        if LbIpRef(ip) !in file.rows {
          return Failed(NotFound);
        }
        if Text(file.rows[LbIpRef(ip)].data, LbId) != "" {
          return Failed(Conflict);
        }
        entry := file.rows[LbIpRef(ip)].data[LbId := Str(id)];
      }
      doc := doc[Ip := Arr([Obj(entry)])];
      LbInserted(Live(), zone, doc, id);
      match Insert(Live(), LbRef(id), Row(map[Zone := zone], doc)) {
        case Err(e) => return Failed(e);
        case Ok(next) => Write(next);
      }
      if ip != "" {
        LbIpPatched(Live(), ip, id);
        status := Patch(LbIps, [ip], map[LbId := Str(id)]);
      } else {
        status := Done;
      }
    }

    /**
     * One transaction: delete the network links, release the addresses, delete the balancer. A frontend or backend
     * makes the last statement fail, and everything is rolled back.
     */
    method DeleteLb(id: string) returns (status: Status)
      requires Valid()
      modifies this`file
      ensures Valid() && file == old(file).(rows := file.rows)
      ensures Outcome(Live(), status) == Balancers.DeleteLb(old(Live()), id)
      ensures status == Failed(Conflict) <==> LbRef(id) in old(file.rows) && HasParts(old(Live()), id)
      ensures status == Failed(NotFound) <==> LbRef(id) !in old(file.rows)
      ensures status != Done ==> file == old(file)
    {
      hide StoreInv, Settled, MOCKWAY, DeleteRows, Balancers.DeleteLb, LbCleared, HasParts;
      DeleteLbKeeps(Live(), id);
      DeleteLbExact(Live(), id);
      DeleteLinks(Live(), id);
      var tx := DeleteRows(Live(), Naming(Live(), LbPrivateNetworks, LbId, id)).value;
      tx := ReleaseIps(Live(), tx, id);
      if LbRef(id) !in file.rows {
        return Failed(NotFound);
      }
      ClearedLb(Live(), id);
      match DeleteRows(tx, {LbRef(id)}) {
        case Err(e) => return Failed(e);
        case Ok(next) =>
          Write(next);
          return Done;
      }
    }

    method DeleteLbIp(id: string) returns (status: Status)
      requires Valid()
      modifies this`file
      ensures Valid() && file == old(file).(rows := file.rows)
      ensures Outcome(Live(), status) == Balancers.DeleteLbIp(old(Live()), id)
    {
      hide StoreInv, Settled, MOCKWAY, Store.Remove;
      if LbIpRef(id) !in file.rows {
        return Failed(NotFound);
      }
      if Text(file.rows[LbIpRef(id)].data, LbId) != "" {
        return Failed(Conflict);
      }
      status := Remove(LbIps, [id]);
    }

    // ---- DNS --------------------------------------------------------------------------------------------------------

    method CreateDnsZone(data: Doc) returns (status: Status)
      requires Valid()
      modifies this`file
      ensures Valid() && file == old(file).(rows := file.rows)
      ensures Outcome(Live(), status) == CreateZone(old(Live()), data)
    {
      hide StoreInv, Settled, MOCKWAY, Insert, Columns;
      CreateZoneKeeps(Live(), data);
      var key := Text(data, Domain);
      if Text(data, Subdomain) != "" {
        key := Text(data, Subdomain) + "." + Text(data, Domain);
      }
      match CreateRow(Live(), ZoneRef(key), map[], data) {
        case Err(e) => return Failed(e);
        case Ok(next) =>
          CreatedSchema(Live(), ZoneRef(key), data);
          Write(next);
          return Done;
      }
    }

    /** The records go first, in a statement of their own; only then is the zone looked for. */
    method DeleteDnsZone(zone: string) returns (status: Status)
      requires Valid()
      modifies this`file
      ensures Valid() && file == old(file).(rows := file.rows)
      ensures Outcome(Live(), status) == DeleteZone(old(Live()), zone)
    {
      hide StoreInv, Settled, MOCKWAY, DeleteRows, EmptiedZone, ZoneRecordRefs, ZoneRows, ChangesOnly;
      DeleteZoneExact(Live(), zone);
      DeleteZoneStatements(Live(), zone);
      Write(DeleteRows(Live(), ZoneRecordRefs(Live(), zone)).value);
      if ZoneRef(zone) !in file.rows {
        return Failed(NotFound);
      }
      Write(DeleteRows(Live(), {ZoneRef(zone)}).value);
      return Done;
    }

    /** Change after change; every statement is committed on its own. */
    method PatchDomainRecords(zone: string, changes: seq<Json>, ids: seq<string>) returns (status: Status)
      requires Valid() && |ids| == NeedsAll(changes) && NewIdsFor(Live(), ids)
      modifies this`file
      ensures Valid() && file == old(file).(rows := file.rows)
      ensures Outcome(Live(), status) == PatchRecords(old(Live()), zone, changes, ids)
    {
      hide StoreInv, Settled, MOCKWAY, NewIdsFor, RecordsOf, WithRecords, ApplyChanges, Changed, OnlyZone, NeedsAll,
        Needs, Placed, UnusedFrom, Sent;
      if ZoneRef(zone) !in file.rows {
        return Failed(NotFound);
      }
      ghost var db, recs := Live(), RecordsOf(Live(), zone);
      PatchRecordsIsFold(db, zone, changes, ids);
      FoldStarts(db, zone);
      var used := 0;
      for c := 0 to |changes|
        invariant file == old(file).(rows := file.rows) && Settled(Machine(file, saved))
        invariant used == NeedsAll(changes[..c]) <= |ids|
        invariant Live() == WithRecords(db, zone, ApplyChanges(recs, changes[..c], ids[..used]))
      {
        NextChange(db, zone, changes, c, ids);
        used := ApplyOneChange(zone, changes[c], ids, used, db, ApplyChanges(recs, changes[..c], ids[..used]));
      }
      assert changes[..|changes|] == changes && ids[..used] == ids;
      return Done;
    }

    /** One change: add, then delete by id, then replace what matches id_fields. */
    method ApplyOneChange(zone: string, change: Json, ids: seq<string>, start: nat, ghost db: Db,
                          ghost before: ZoneRecords)
      returns (used: nat)
      requires Settled(Machine(file, saved)) && StoreInv(db) && db.schema == MOCKWAY
      requires Live() == WithRecords(db, zone, before)
      requires start + Needs(change) <= |ids| && Placed(db, zone, before) && UnusedFrom(db, before, ids, start)
      modifies this`file
      ensures Settled(Machine(file, saved)) && file == old(file).(rows := file.rows)
      ensures used == start + Needs(change)
      ensures Live() == WithRecords(db, zone, Changed(before, change, ids[start..used]))
    {
      hide StoreInv, Settled, MOCKWAY, WithRecords, Changed, Objects, Unmatched, WithNew, Needs, Placed, UnusedFrom;
      NeedsParts(change);
      var body := AsDoc(change);
      used := AddRecords(zone, AsItems(Get(AsDoc(Get(body, Add)), Records)), ids, start, db, before);
      ghost var added := WithNew(before, Sent(change, Add), ids[start..used]);
      AddedPlaced(db, zone, before, Sent(change, Add), ids, start, used);
      var gone := Text(AsDoc(Get(body, Delete)), Id);
      var idFields := Get(AsDoc(Get(body, Set)), IdFields);
      KeptPlaced(db, zone, added, gone, idFields, ids, used);
      ghost var kept := added;
      if gone != "" {
        DeleteRecord(zone, gone, db, added);
        kept := added - {RecordRef(gone)};
      }
      if idFields.Obj? {
        DeleteMatching(zone, idFields.fields, db, kept);
      }
      ghost var middle := used;
      used := AddRecords(zone, AsItems(Get(AsDoc(Get(body, Set)), Records)), ids, used, db, Unmatched(kept, idFields));
      OneChange(before, change, ids[start..used], middle - start);
      SplitIds(ids, start, middle, used);
    }

    /** Inserts every object of a list as a record of the zone, each under the next new id. */
    method AddRecords(zone: string, items: seq<Json>, ids: seq<string>, start: nat, ghost db: Db,
                      ghost recs: ZoneRecords)
      returns (used: nat)
      requires Settled(Machine(file, saved)) && StoreInv(db) && db.schema == MOCKWAY
      requires Live() == WithRecords(db, zone, recs)
      requires start + |Objects(items)| <= |ids| && UnusedFrom(db, recs, ids, start)
      modifies this`file
      ensures Settled(Machine(file, saved)) && file == old(file).(rows := file.rows)
      ensures used == start + |Objects(items)|
      ensures Live() == WithRecords(db, zone, WithNew(recs, Objects(items), ids[start..used]))
    {
      hide StoreInv, Settled, MOCKWAY, WithRecords, WithNew, Objects, Insert, UnusedFrom;
      used := start;
      NoRecordsYet(recs);
      assert items[..0] == [] && ids[start..start] == [];
      for i := 0 to |items|
        invariant file == old(file).(rows := file.rows) && Settled(Machine(file, saved))
        invariant used == start + |Objects(items[..i])| <= |ids|
        invariant Live() == WithRecords(db, zone, WithNew(recs, Objects(items[..i]), ids[start..used]))
      {
        ObjectsNext(items, i);
        assert !items[i].Obj? ==> Objects(items[..i + 1]) == Objects(items[..i]);
        if items[i].Obj? {
          InsertNext(db, zone, recs, Objects(items[..i]), ids, start, used, items[i].fields);
          var doc := items[i].fields[Id := Str(ids[used])];
          Write(Insert(Live(), RecordRef(ids[used]), Row(map[DnsZone := zone], doc)).value);
          used := used + 1;
        }
      }
      assert items[..|items|] == items;
    }

    /** DELETE by id and zone; whether it matched is ignored. */
    method DeleteRecord(zone: string, id: string, ghost db: Db, ghost recs: ZoneRecords)
      requires Settled(Machine(file, saved)) && StoreInv(db) && db.schema == MOCKWAY
      requires Live() == WithRecords(db, zone, recs)
      requires Placed(db, zone, recs)
      modifies this`file
      ensures Settled(Machine(file, saved)) && file == old(file).(rows := file.rows)
      ensures Live() == WithRecords(db, zone, recs - {RecordRef(id)})
    {
      hide StoreInv, Settled, MOCKWAY, WithRecords, DeleteRows, InZone, Placed;
      var matched := if InZone(Live(), RecordRef(id), zone) then {RecordRef(id)} else {};
      ZoneDelete(db, zone, recs, RecordRef(id), matched);
      Write(DeleteRows(Live(), matched).value);
    }

    /** Deletes, by id alone, every record of the zone that matches id_fields. */
    method DeleteMatching(zone: string, idFields: Doc, ghost db: Db, ghost recs: ZoneRecords)
      requires Settled(Machine(file, saved)) && StoreInv(db) && db.schema == MOCKWAY
      requires Live() == WithRecords(db, zone, recs)
      requires Placed(db, zone, recs)
      modifies this`file
      ensures Settled(Machine(file, saved)) && file == old(file).(rows := file.rows)
      ensures Live() == WithRecords(db, zone, Unmatched(recs, Obj(idFields)))
    {
      hide StoreInv, Settled, MOCKWAY, WithRecords, DeleteRows, InZone, Placed, Matches, Sifted, ZoneRecordRefs,
        Unmatched;
      var existing := ZoneRecordRefs(Live(), zone);
      ghost var left := recs;
      ZoneKeys(db, zone, recs);
      SiftNone(recs, idFields);
      while existing != {}
        invariant file == old(file).(rows := file.rows) && Settled(Machine(file, saved))
        invariant existing <= left.Keys && Placed(db, zone, left) && Live() == WithRecords(db, zone, left)
        invariant Sifted(recs, left, existing, idFields)
        decreases existing
      {
        var r :| r in existing;
        RecordStored(db, zone, left, r);
        SiftOne(recs, left, existing, idFields, r);
        var doc := file.rows[r].data;
        var matching := RecordMatches(doc, idFields);
        if matching {
          var id := Text(doc, Id);
          ZoneDelete(db, zone, left, r, {RecordRef(id)});
          Write(DeleteRows(Live(), {RecordRef(id)}).value);
          left := left - {r};
        }
        existing := existing - {r};
      }
      SiftDone(recs, left, idFields);
    }

    // ---- sets of children ------------------------------------------------------------------------------------------

    /** One transaction: delete all privileges of the instance, insert the requested ones. */
    method SetRdbPrivileges(instance: string, items: seq<Json>) returns (status: Status)
      requires Valid()
      modifies this`file
      ensures Valid() && file == old(file).(rows := file.rows)
      ensures Outcome(Live(), status) == SetPrivileges(old(Live()), instance, items)
    {
      hide StoreInv, Settled, MOCKWAY, Insert, DeleteRows, ReplaceChildren, PrivilegeRows, RepeatsPrivilege, Objects,
        PrivilegeRow, PrivilegeRef, Installed, Naming;
      SetPrivilegesExact(Live(), instance, items);
      if Ref(RdbInstances, [instance]) !in file.rows {
        return Failed(NotFound);
      }
      ghost var db := Live();
      StartPrivileges(db, instance);
      var tx := DeleteRows(Live(), Naming(Live(), RdbPrivileges, InstanceId, instance)).value;
      for i := 0 to |items|
        invariant file == old(file)
        invariant !RepeatsPrivilege(instance, Objects(items[..i]))
        invariant tx == ReplaceChildren(db, RdbPrivileges, InstanceId, instance,
                                        PrivilegeRows(instance, Objects(items[..i])))
      {
        ObjectsNext(items, i);
        assert !items[i].Obj? ==> Objects(items[..i + 1]) == Objects(items[..i]);
        if items[i].Obj? {
          var p := items[i].fields;
          NextPrivilege(db, instance, items, i);
          match Insert(tx, PrivilegeRef(instance, p), PrivilegeRow(instance, p)) {
            case Err(e) => return Failed(e);
            case Ok(next) => tx := next;
          }
        }
      }
      assert items[..|items|] == items;
      Write(tx);
      return Done;
    }

    /** One transaction: delete all rules of the policy, insert the requested ones under new ids. */
    method SetIamRules(policy: string, items: seq<Json>, ids: seq<string>) returns (status: Status)
      requires Valid() && |ids| == |Objects(items)| && NewIdsFor(Live(), ids)
      modifies this`file
      ensures Valid() && file == old(file).(rows := file.rows)
      ensures Outcome(Live(), status) == SetRules(old(Live()), policy, items, ids)
    {
      hide StoreInv, Settled, MOCKWAY, Insert, DeleteRows, ReplaceChildren, RuleRows, Objects, RuleRow, Installed,
        Naming, NewIdsFor;
      SetRulesExact(Live(), policy, items, ids);
      if Ref(IamPolicies, [policy]) !in file.rows {
        return Failed(NotFound);
      }
      ghost var db := Live();
      StartRules(db, policy);
      var tx := DeleteRows(Live(), Naming(Live(), IamRules, PolicyId, policy)).value;
      var used := 0;
      for i := 0 to |items|
        invariant file == old(file) && used == |Objects(items[..i])| <= |ids|
        invariant tx == ReplaceChildren(db, IamRules, PolicyId, policy,
                                        RuleRows(policy, Objects(items[..i]), ids[..used]))
      {
        ObjectsNext(items, i);
        assert !items[i].Obj? ==> Objects(items[..i + 1]) == Objects(items[..i]);
        if items[i].Obj? {
          NewIdUnstored(db, ids, used, IamRules);
          NewIdsDistinct(db, ids);
          assert ids[..used + 1] == ids[..used] + [ids[used]];
          NextRule(db, policy, Objects(items[..i]), ids[..used], items[i].fields, ids[used]);
          tx := Insert(tx, RuleRef(ids[used]), RuleRow(policy, items[i].fields, ids[used])).value;
          used := used + 1;
        }
      }
      assert items[..|items|] == items && ids[..used] == ids;
      Write(tx);
      return Done;
    }

    /**
     * The policy is inserted, then each inline rule, every statement committed on its own: once the policy is
     * there no rule can fail, so there is no partial result.
     */
    method CreateIamPolicy(id: string, data: Doc, ids: seq<string>) returns (status: Status)
      requires Valid() && |ids| == |Objects(AsItems(Get(data, Rules)))| && NewIdsFor(Live(), [id] + ids)
      modifies this`file
      ensures Valid() && file == old(file).(rows := file.rows)
      ensures Outcome(Live(), status) == CreatePolicy(old(Live()), id, data, ids)
    {
      hide StoreInv, Settled, MOCKWAY, Insert, RuleRows, Objects, RuleRow, RuleRef, NewIdsFor, CreateRow, IsChild,
        HasRules, Fresh;
      CreatePolicyKeeps(Live(), id, data, ids);
      PolicyMade(Live(), id, data, ids);
      match CreateRow(Live(), Ref(IamPolicies, [id]), map[], data[Id := Str(id)]) {
        case Err(e) => return Failed(e);
        case Ok(next) => Write(next);
      }
      ghost var made := Live();
      NoRulesAdded(made, id);
      var items := AsItems(Get(data, Rules));
      var used := 0;
      assert items[..0] == [] && ids[..0] == [];
      for i := 0 to |items|
        invariant Settled(Machine(file, saved)) && file == old(file).(rows := file.rows)
        invariant used == |Objects(items[..i])| <= |ids|
        invariant Live() == made.(rows := made.rows + RuleRows(id, Objects(items[..i]), ids[..used]))
      {
        ObjectsNext(items, i);
        assert !items[i].Obj? ==> Objects(items[..i + 1]) == Objects(items[..i]);
        if items[i].Obj? {
          assert ids[..used + 1] == ids[..used] + [ids[used]];
          AddRuleNext(made, id, Objects(items[..i]), ids[..used], items[i].fields, ids[used]);
          Write(Insert(Live(), RuleRef(ids[used]), RuleRow(id, items[i].fields, ids[used])).value);
          used := used + 1;
        }
      }
      assert items[..|items|] == items && ids[..used] == ids;
      return Done;
    }

    /** INSERT OR IGNORE: a primary key already used is no error. */
    method AddIamGroupMember(group: string, user: string) returns (status: Status)
      requires Valid()
      modifies this`file
      ensures Valid() && file == old(file).(rows := file.rows)
      ensures Outcome(Live(), status) == AddMember(old(Live()), group, user)
    {
      hide StoreInv, Settled, MOCKWAY, Insert, CanJoin;
      AddMemberKeeps(Live(), group, user);
      MemberInserts(Live(), group, user);
      match Insert(Live(), MemberRef(group, user), MemberRow(group, user)) {
        case Err(e) => return if e == Conflict then Done else Failed(e);
        case Ok(next) =>
          Write(next);
          return Done;
      }
    }

    /** The row is deleted first; only then is the group read. */
    method RemoveIamGroupMember(group: string, user: string) returns (status: Status)
      requires Valid()
      modifies this`file
      ensures Valid() && file == old(file).(rows := file.rows)
      ensures Outcome(Live(), status) == RemoveMember(old(Live()), group, user)
    {
      hide StoreInv, Settled, MOCKWAY, DeleteRows;
      RemoveMemberKeeps(Live(), group, user);
      DropStatement(Live(), MemberRef(group, user));
      Write(DeleteRows(Live(), {MemberRef(group, user)} * file.rows.Keys).value);
      return if Ref(IamGroups, [group]) in file.rows then Done else Failed(NotFound);
    }

    method SetRdbAcls(instance: string, rules: seq<Json>) returns (status: Status)
      requires Valid()
      modifies this`file
      ensures Valid() && file == old(file).(rows := file.rows)
      ensures Outcome(Live(), status) == SetAcls(old(Live()), instance, rules)
    {
      hide StoreInv, Settled, MOCKWAY, Insert, Update;
      SetAclsKeeps(Live(), instance, rules);
      var row := AclRow(instance, rules);
      var made := if AclRef(instance) in file.rows then Update(Live(), AclRef(instance), row)
                  else Insert(Live(), AclRef(instance), row);
      match made {
        case Err(e) => return Failed(e);
        case Ok(next) =>
          Write(next);
          return Done;
      }
    }

    method ClearRdbAcls(instance: string) returns (status: Status)
      requires Valid()
      modifies this`file
      ensures Valid() && file == old(file).(rows := file.rows)
      ensures Outcome(Live(), status) == ClearAcls(old(Live()), instance)
    {
      hide StoreInv, Settled, MOCKWAY, DeleteRows;
      ClearAclsKeeps(Live(), instance);
      if Ref(RdbInstances, [instance]) !in file.rows {
        return Failed(NotFound);
      }
      DropStatement(Live(), AclRef(instance));
      Write(DeleteRows(Live(), {AclRef(instance)} * file.rows.Keys).value);
      return Done;
    }

    /** updateJSONByID after one field of the stored document was set. */
    method SetField(t: Table, key: seq<string>, k: Name, v: Json) returns (status: Status)
      requires Valid() && Loose(MOCKWAY, t, k) && Ordinary(t)
      modifies this`file
      ensures Valid() && file == old(file).(rows := file.rows)
      ensures Outcome(Live(), status) == Store.SetField(old(Live()), t, key, k, v)
    {
      hide StoreInv, Settled, MOCKWAY, Update, Loose, Ordinary;
      SetFieldKeeps(Live(), t, key, k, v);
      var r := Ref(t, key);
      if r !in file.rows {
        return Failed(NotFound);
      }
      match Update(Live(), r, file.rows[r].(data := file.rows[r].data[k := v])) {
        case Err(e) => return Failed(e);
        case Ok(next) =>
          Write(next);
          return Done;
      }
    }

    /** INSERT OR IGNORE of a label. */
    method AddMarketplaceLabel(text: string)
      requires Valid()
      modifies this`file
      ensures Valid() && file == old(file).(rows := file.rows)
      ensures Outcome(Live(), Done) == AddLabel(old(Live()), text)
    {
      hide StoreInv, Settled, MOCKWAY, Insert;
      AddLabelKeeps(Live(), text);
      LabelStatement(Live(), text);
      match Insert(Live(), LabelRef(text), Row(map[], map[])) {
        case Err(_) =>
        case Ok(next) => Write(next);
      }
    }

    /** One transaction: delete all memberships of the group, insert the listed ones; the group is read last. */
    method SetIamGroupMembers(group: string, users: seq<string>) returns (status: Status)
      requires Valid()
      modifies this`file
      ensures Valid() && file == old(file).(rows := file.rows)
      ensures Outcome(Live(), status) == SetMembers(old(Live()), group, users)
    {
      hide StoreInv, Settled, MOCKWAY, Insert, DeleteRows, ReplaceChildren, MemberRows, Installed, Naming,
        MemberProblem, CanJoin;
      SetMembersExact(Live(), group, users);
      ghost var db := Live();
      StartMembers(db, group);
      var tx := DeleteRows(Live(), Naming(Live(), IamGroupMembers, GroupId, group)).value;
      for i := 0 to |users|
        invariant file == old(file) && MemberProblem(db, group, users[..i]) == None
        invariant tx == ReplaceChildren(db, IamGroupMembers, GroupId, group, MemberRows(group, users[..i]))
      {
        NextMember(db, group, users, i);
        match Insert(tx, MemberRef(group, users[i]), MemberRow(group, users[i])) {
          case Err(e) => return Failed(e);
          case Ok(next) => tx := next;
        }
      }
      assert users[..|users|] == users;
      LoneGroup(db, group, users);
      Write(tx);
      return if Ref(IamGroups, [group]) in file.rows then Done else Failed(NotFound);
    }
  }

  // ---- steps of the DNS calls --------------------------------------------------------------------------------------

  function ZoneRecordRefs(db: Db, zone: string): (s: set<Ref>)
    ensures s <= db.rows.Keys
  {
    set r | r in db.rows && InZone(db, r, zone)
  }

  lemma CreatedSchema(db: Db, r: Ref, data: Doc)
    ensures CreateRow(db, r, map[], data).Ok? ==> CreateRow(db, r, map[], data).value.schema == db.schema
  {
  }

  lemma DeleteZoneStatements(db: Db, zone: string)
    requires StoreInv(db)
    ensures DeleteRows(db, ZoneRecordRefs(db, zone)) == Ok(EmptiedZone(db, zone))
    ensures EmptiedZone(db, zone).schema == db.schema
    ensures ZoneRef(zone) in EmptiedZone(db, zone).rows <==> ZoneRef(zone) in db.rows
    ensures ZoneRef(zone) in EmptiedZone(db, zone).rows ==>
              DeleteRows(EmptiedZone(db, zone), {ZoneRef(zone)}) ==
              Ok(db.(rows := EmptiedZone(db, zone).rows - {ZoneRef(zone)}))
  {
    hide StoreInv, DeleteRows, Intact, Facts, ActionFacts, ParentFacts, ChildFacts, NamedFacts, NullableActions,
      TableFacts, RowsOk, DnsOk, KeysOk, InZone;
    InvParts(db);
    RecordTables(db, zone);
    DeleteLeaves(db, ZoneRecordRefs(db, zone));
    var emptied := EmptiedZone(db, zone);
    assert db.rows - ZoneRecordRefs(db, zone) == emptied.rows;
    if ZoneRef(zone) in emptied.rows {
      DeleteLeaves(emptied, {ZoneRef(zone)});
    }
  }

  /** Records that displace no row outside the zone. */
  ghost predicate Placed(db: Db, zone: string, recs: ZoneRecords) {
    ProperRecords(recs) && forall r | r in recs :: r in db.rows ==> InZone(db, r, zone)
  }

  /** The records with new ones added, under as many new ids. */
  function WithNew(recs: ZoneRecords, docs: seq<Doc>, ids: seq<string>): ZoneRecords {
    if |docs| == |ids| then recs + NewRecords(docs, ids) else recs
  }

  /** The ids from a place on are distinct and belong to no row and to no record yet. */
  ghost predicate UnusedFrom(db: Db, recs: ZoneRecords, ids: seq<string>, start: nat) {
    && (forall i, j | 0 <= i < j < |ids| :: ids[i] != ids[j])
    && (forall i | start <= i < |ids| :: RecordRef(ids[i]) !in db.rows && RecordRef(ids[i]) !in recs)
  }

  lemma FoldStarts(db: Db, zone: string)
    requires StoreInv(db)
    ensures NeedsAll([]) == 0 && ApplyChanges(RecordsOf(db, zone), [], []) == RecordsOf(db, zone)
    ensures WithRecords(db, zone, RecordsOf(db, zone)) == db
  {
    hide StoreInv, WithRecords, RecordsOf, Intact, Facts, ActionFacts, ParentFacts, ChildFacts, NamedFacts,
      NullableActions, TableFacts, RowsOk, DnsOk, KeysOk;
    InvParts(db);
    ZoneAsRecords(db, zone);
  }

  lemma NeedsPrefix(changes: seq<Json>, c: nat)
    requires c <= |changes|
    ensures NeedsAll(changes[..c]) <= NeedsAll(changes)
  {
    hide Needs;
    if c < |changes| {
      var m := |changes| - 1;
      NeedsPrefix(changes[..m], c);
      assert changes[..m][..c] == changes[..c];
    } else {
      assert changes[..c] == changes;
    }
  }

  /** What holds before a change: its ids are there and unused, and the records so far are placed. */
  lemma NextChange(db: Db, zone: string, changes: seq<Json>, c: nat, ids: seq<string>)
    requires StoreInv(db) && c < |changes| && |ids| == NeedsAll(changes) && NewIdsFor(db, ids)
    requires NeedsAll(changes[..c]) <= |ids|
    ensures var used := NeedsAll(changes[..c]);
            var before := ApplyChanges(RecordsOf(db, zone), changes[..c], ids[..used]);
            && Placed(db, zone, before) && UnusedFrom(db, before, ids, used)
            && Needs(changes[c]) == |Sent(changes[c], Add)| + |Sent(changes[c], Set)|
            && NeedsAll(changes[..c + 1]) == used + Needs(changes[c]) <= |ids|
            && ApplyChanges(RecordsOf(db, zone), changes[..c + 1], ids[..used + Needs(changes[c])]) ==
               Changed(before, changes[c], ids[used..used + Needs(changes[c])])
  {
    hide StoreInv, NewIdsFor, RecordsOf, Needs, NeedsAll, ApplyChanges, Changed, Placed, UnusedFrom, Sent;
    NeedsParts(changes[c]);
    NeedsNext(changes, c);
    FoldNext(RecordsOf(db, zone), changes, c, ids);
    FoldPlaced(db, zone, changes[..c], ids, NeedsAll(changes[..c]));
  }

  lemma NeedsNext(changes: seq<Json>, c: nat)
    requires c < |changes|
    ensures NeedsAll(changes[..c + 1]) == NeedsAll(changes[..c]) + Needs(changes[c]) <= NeedsAll(changes)
  {
    hide Needs;
    assert changes[..c + 1][..c] == changes[..c];
    NeedsPrefix(changes, c + 1);
  }

  lemma FoldNext(recs: ZoneRecords, changes: seq<Json>, c: nat, ids: seq<string>)
    requires c < |changes|
    requires NeedsAll(changes[..c + 1]) == NeedsAll(changes[..c]) + Needs(changes[c]) <= |ids|
    ensures var used, next := NeedsAll(changes[..c]), NeedsAll(changes[..c + 1]);
            ApplyChanges(recs, changes[..c + 1], ids[..next]) ==
            Changed(ApplyChanges(recs, changes[..c], ids[..used]), changes[c], ids[used..next])
  {
    hide Needs, ApplyChange, NeedsAll;
    var used, next := NeedsAll(changes[..c]), NeedsAll(changes[..c + 1]);
    assert changes[..c + 1][..c] == changes[..c];
    assert ids[..next][..used] == ids[..used] && ids[..next][used..] == ids[used..next];
  }

  /** The records the first changes leave are placed, and the ids they have not used are unused. */
  lemma FoldPlaced(db: Db, zone: string, changes: seq<Json>, ids: seq<string>, used: nat)
    requires StoreInv(db) && NewIdsFor(db, ids) && used == NeedsAll(changes) <= |ids|
    ensures Placed(db, zone, ApplyChanges(RecordsOf(db, zone), changes, ids[..used]))
    ensures UnusedFrom(db, ApplyChanges(RecordsOf(db, zone), changes, ids[..used]), ids, used)
  {
    hide StoreInv, NewIdsFor, RecordsOf, ApplyChanges, ProperRecords, InZone, UnusedFrom;
    var before := ApplyChanges(RecordsOf(db, zone), changes, ids[..used]);
    RecordsOfProper(db, zone);
    ApplyChangesProper(RecordsOf(db, zone), changes, ids[..used]);
    RecordsStored(db, zone);
    IdsUnused(db, before, RecordsOf(db, zone), ids, used);
    forall r | r in before && r in db.rows
      ensures InZone(db, r, zone)
    {
      FormerRecord(db, zone, before, ids, used, r);
    }
  }

  /** ApplyChange, given as many ids as it needs. */
  function Changed(recs: ZoneRecords, change: Json, ids: seq<string>): ZoneRecords {
    if |ids| == Needs(change) then ApplyChange(recs, change, ids) else recs
  }

  lemma NeedsParts(change: Json)
    ensures Needs(change) == |Sent(change, Add)| + |Sent(change, Set)|
  {
  }

  lemma RecordsStored(db: Db, zone: string)
    ensures forall r | r in RecordsOf(db, zone) :: r in db.rows && InZone(db, r, zone)
  {
  }

  lemma IdsUnused(db: Db, before: ZoneRecords, original: ZoneRecords, ids: seq<string>, used: nat)
    requires NewIdsFor(db, ids) && used <= |ids| && ProperRecords(before)
    requires forall r | r in before :: r in original || r.key[0] in ids[..used]
    requires forall r | r in original :: r in db.rows
    ensures UnusedFrom(db, before, ids, used)
  {
    hide Fresh, ProperRecords;
    forall i | used <= i < |ids|
      ensures RecordRef(ids[i]) !in db.rows && RecordRef(ids[i]) !in before
    {
      NewIdUnstored(db, ids, i, DomainRecords);
      assert RecordRef(ids[i]).key[0] == ids[i];
    }
  }

  /** A record whose row was stored before the call was a record of the zone. */
  lemma FormerRecord(db: Db, zone: string, before: ZoneRecords, ids: seq<string>, used: nat, r: Ref)
    requires NewIdsFor(db, ids) && used <= |ids| && ProperRecords(before) && r in before && r in db.rows
    requires r in RecordsOf(db, zone) || r.key[0] in ids[..used]
    ensures InZone(db, r, zone)
  {
    hide NewIdsFor, InZone;
    RecordsStored(db, zone);
    forall i | 0 <= i < |ids|
      ensures ids[i] !in r.key
    {
      NewIdUnused(db, ids, i, r);
    }
  }

  lemma AddedPlaced(db: Db, zone: string, before: ZoneRecords, docs: seq<Doc>, ids: seq<string>, start: nat, used: nat)
    requires Placed(db, zone, before) && UnusedFrom(db, before, ids, start) && start <= used == start + |docs| <= |ids|
    ensures Placed(db, zone, WithNew(before, docs, ids[start..used]))
    ensures UnusedFrom(db, WithNew(before, docs, ids[start..used]), ids, used)
  {
    hide NewRecords, InZone, ProperRecords, UnusedFrom;
    var fresh_ := ids[start..used];
    NewRecordsProper(docs, fresh_);
    BothProper(before, NewRecords(docs, fresh_));
    forall r | r in NewRecords(docs, fresh_)
      ensures r !in db.rows
    {
      NewUnstored(db, before, docs, ids, start, used, r);
    }
    AddedUnused(db, before, docs, ids, start, used);
  }

  lemma NewUnstored(db: Db, before: ZoneRecords, docs: seq<Doc>, ids: seq<string>, start: nat, used: nat, r: Ref)
    requires UnusedFrom(db, before, ids, start) && start <= used == start + |docs| <= |ids|
    requires r in NewRecords(docs, ids[start..used])
    ensures r !in db.rows
  {
    hide NewRecords;
    NewRecordsProper(docs, ids[start..used]);
    var j :| 0 <= j < used - start && ids[start..used][j] == r.key[0];
    assert r == RecordRef(ids[start + j]);
  }

  lemma AddedUnused(db: Db, before: ZoneRecords, docs: seq<Doc>, ids: seq<string>, start: nat, used: nat)
    requires UnusedFrom(db, before, ids, start) && start <= used == start + |docs| <= |ids|
    ensures UnusedFrom(db, WithNew(before, docs, ids[start..used]), ids, used)
  {
    hide NewRecords;
    NewRecordsProper(docs, ids[start..used]);
    forall i | used <= i < |ids|
      ensures RecordRef(ids[i]) !in WithNew(before, docs, ids[start..used])
    {
      assert RecordRef(ids[i]).key[0] == ids[i];
      assert ids[i] !in ids[start..used];
    }
  }

  /** Records stay placed, and the later ids unused, when some are deleted. */
  lemma KeptPlaced(db: Db, zone: string, added: ZoneRecords, gone: string, idFields: Json, ids: seq<string>, used: nat)
    requires Placed(db, zone, added) && UnusedFrom(db, added, ids, used)
    ensures var kept := if gone == "" then added else added - {RecordRef(gone)};
            && Placed(db, zone, kept) && Placed(db, zone, Unmatched(kept, idFields))
            && UnusedFrom(db, Unmatched(kept, idFields), ids, used)
            && (!idFields.Obj? ==> Unmatched(kept, idFields) == kept)
  {
    hide Unmatched;
    var kept := if gone == "" then added else added - {RecordRef(gone)};
    UnmatchedPlaced(db, zone, kept, idFields);
  }

  lemma UnmatchedPlaced(db: Db, zone: string, kept: ZoneRecords, idFields: Json)
    requires Placed(db, zone, kept)
    ensures Placed(db, zone, Unmatched(kept, idFields)) && Unmatched(kept, idFields).Keys <= kept.Keys
    ensures !idFields.Obj? ==> Unmatched(kept, idFields) == kept
  {
    hide Matches, InZone;
  }

  /** The steps of one change, put together. */
  lemma OneChange(before: ZoneRecords, change: Json, ids: seq<string>, n: nat)
    requires |ids| == Needs(change) && n == |Sent(change, Add)|
    ensures var added := WithNew(before, Sent(change, Add), ids[..n]);
            var id := Text(AsDoc(Get(AsDoc(change), Delete)), Id);
            var kept := if id == "" then added else added - {RecordRef(id)};
            Changed(before, change, ids) ==
            WithNew(Unmatched(kept, Get(AsDoc(Get(AsDoc(change), Set)), IdFields)), Sent(change, Set), ids[n..])
  {
    hide Unmatched, NewRecords, Sent;
  }

  lemma SplitIds(ids: seq<string>, start: nat, middle: nat, used: nat)
    requires start <= middle <= used <= |ids|
    ensures ids[start..used][..middle - start] == ids[start..middle]
    ensures ids[start..used][middle - start..] == ids[middle..used]
  {
  }

  lemma NoRecordsYet(recs: ZoneRecords)
    ensures Objects([]) == [] && WithNew(recs, [], []) == recs
  {
  }

  lemma InsertNext(db: Db, zone: string, recs: ZoneRecords, docs: seq<Doc>, ids: seq<string>, start: nat, used: nat,
                   doc: Doc)
    requires StoreInv(db) && start <= used == start + |docs| < |ids| && UnusedFrom(db, recs, ids, start)
    ensures Insert(WithRecords(db, zone, WithNew(recs, docs, ids[start..used])), RecordRef(ids[used]),
                   Row(map[DnsZone := zone], doc[Id := Str(ids[used])])) ==
            Ok(WithRecords(db, zone, WithNew(recs, docs + [doc], ids[start..used + 1])))
    ensures WithRecords(db, zone, WithNew(recs, docs + [doc], ids[start..used + 1])).schema == db.schema
  {
    hide StoreInv, Intact, Facts, ActionFacts, ParentFacts, ChildFacts, NamedFacts, NullableActions, TableFacts,
      RowsOk, DnsOk, KeysOk, WithRecords, NewRecords, Insert;
    InvParts(db);
    assert ids[start..used + 1] == ids[start..used] + [ids[used]];
    assert ids[used] !in ids[start..used];
    NextIdUnused(recs, docs, ids[start..used], ids[used]);
    WithRecordsSchema(db, zone, WithNew(recs, docs + [doc], ids[start..used + 1]));
    InsertRecord(db, zone, recs + NewRecords(docs, ids[start..used]), ids[used], doc[Id := Str(ids[used])]);
    NewRecordNext(recs, docs, ids[start..used], doc, ids[used]);
  }

  lemma ZoneKeys(db: Db, zone: string, recs: ZoneRecords)
    requires Placed(db, zone, recs)
    ensures ZoneRecordRefs(WithRecords(db, zone, recs), zone) == recs.Keys
  {
    hide WithRecords, InZone;
    var now := WithRecords(db, zone, recs);
    forall r
      ensures r in ZoneRecordRefs(now, zone) <==> r in recs
    {
      WithRecordsZone(db, zone, recs, r);
      assert InZone(now, r, zone) ==> r in now.rows by { InZoneStored(now, zone, r); }
    }
  }

  lemma InZoneStored(db: Db, zone: string, r: Ref)
    ensures InZone(db, r, zone) ==> r in db.rows
  {
  }

  /** Deleting what a WHERE clause matched: the record, if it is one of the zone's. */
  lemma ZoneDelete(db: Db, zone: string, recs: ZoneRecords, r: Ref, matched: set<Ref>)
    requires StoreInv(db) && Placed(db, zone, recs) && r.table == DomainRecords
    requires matched == if InZone(WithRecords(db, zone, recs), r, zone) then {r} else {}
    ensures matched <= WithRecords(db, zone, recs).rows.Keys
    ensures DeleteRows(WithRecords(db, zone, recs), matched) == Ok(WithRecords(db, zone, recs - {r}))
    ensures Placed(db, zone, recs - {r}) && WithRecords(db, zone, recs - {r}).schema == db.schema
  {
    hide StoreInv, Intact, Facts, ActionFacts, ParentFacts, ChildFacts, NamedFacts, NullableActions, TableFacts,
      RowsOk, DnsOk, KeysOk, WithRecords, DeleteRows, InZone;
    InvParts(db);
    assert InZone(WithRecords(db, zone, recs), r, zone) <==> r in recs by { ZoneRecord(db, zone, recs, r); }
    WithRecordsSchema(db, zone, recs - {r});
    DeleteRecords(db, zone, recs, matched);
    assert recs - matched == recs - {r};
  }

  /** A row is a record of the zone exactly when it is among the zone's records. */
  lemma ZoneRecord(db: Db, zone: string, recs: ZoneRecords, r: Ref)
    requires Placed(db, zone, recs)
    ensures InZone(WithRecords(db, zone, recs), r, zone) <==> r in recs
  {
    hide WithRecords, InZone;
    WithRecordsZone(db, zone, recs, r);
  }

  /** What is left of some records when the matching ones outside a set have been deleted. */
  ghost predicate Sifted(recs: ZoneRecords, left: ZoneRecords, existing: set<Ref>, idFields: Doc) {
    && (forall r :: r in left <==> r in recs && (r in existing || !Matches(recs[r], idFields)))
    && (forall r | r in left :: left[r] == recs[r])
  }

  lemma SiftNone(recs: ZoneRecords, idFields: Doc)
    ensures Sifted(recs, recs, recs.Keys, idFields)
  {
    hide Matches;
  }

  lemma SiftOne(recs: ZoneRecords, left: ZoneRecords, existing: set<Ref>, idFields: Doc, r: Ref)
    requires Sifted(recs, left, existing, idFields) && r in existing && r in left
    ensures Sifted(recs, if Matches(left[r], idFields) then left - {r} else left, existing - {r}, idFields)
  {
    hide Matches;
  }

  lemma SiftDone(recs: ZoneRecords, left: ZoneRecords, idFields: Doc)
    requires Sifted(recs, left, {}, idFields)
    ensures left == Unmatched(recs, Obj(idFields))
  {
    hide Matches;
  }

  /** A record of the zone is stored under its own id. */
  lemma RecordStored(db: Db, zone: string, recs: ZoneRecords, r: Ref)
    requires Placed(db, zone, recs) && r in recs
    ensures var now := WithRecords(db, zone, recs);
            && r in now.rows && now.rows[r].data == recs[r] && InZone(now, r, zone)
            && r == RecordRef(Text(recs[r], Id))
  {
    hide WithRecords, InZone;
    WithRecordsZone(db, zone, recs, r);
  }

  /** The inner loop over id_fields: it stops at the first field that differs. */
  method RecordMatches(doc: Doc, idFields: Doc) returns (matching: bool)
    ensures matching == Matches(doc, idFields)
  {
    var todo := idFields.Keys;
    while todo != {}
      invariant todo <= idFields.Keys
      invariant forall k | k in idFields.Keys - todo :: Get(doc, k) == idFields[k]
      decreases todo
    {
      var k :| k in todo;
      if Get(doc, k) != idFields[k] {
        return false;
      }
      todo := todo - {k};
    }
    return true;
  }

  // ---- steps of the replacing calls --------------------------------------------------------------------------------

  lemma StartPrivileges(db: Db, instance: string)
    requires StoreInv(db)
    ensures Objects([]) == [] && PrivilegeRows(instance, []) == map[] && !RepeatsPrivilege(instance, [])
    ensures DeleteRows(db, Naming(db, RdbPrivileges, InstanceId, instance)) ==
            Ok(ReplaceChildren(db, RdbPrivileges, InstanceId, instance, map[]))
  {
    hide StoreInv, Intact, Facts, ActionFacts, ParentFacts, ChildFacts, NamedFacts, NullableActions, TableFacts,
      RowsOk, DnsOk, KeysOk, DeleteRows, ReplaceChildren, Naming;
    InvParts(db);
    DeleteChildren(db, RdbPrivileges, InstanceId, instance);
  }

  lemma NextPrivilege(db: Db, instance: string, items: seq<Json>, i: nat)
    requires StoreInv(db) && i < |items| && items[i].Obj? && Ref(RdbInstances, [instance]) in db.rows
    requires Objects(items[..i + 1]) == Objects(items[..i]) + [items[i].fields]
    requires !RepeatsPrivilege(instance, Objects(items[..i]))
    ensures var docs, p := Objects(items[..i]), items[i].fields;
            var before := ReplaceChildren(db, RdbPrivileges, InstanceId, instance, PrivilegeRows(instance, docs));
            && Insert(before, PrivilegeRef(instance, p), PrivilegeRow(instance, p)) ==
               (if RepeatsPrivilege(instance, docs + [p]) then Err(Conflict)
                else Ok(ReplaceChildren(db, RdbPrivileges, InstanceId, instance, PrivilegeRows(instance, docs + [p]))))
            && (RepeatsPrivilege(instance, docs + [p]) ==> RepeatsPrivilege(instance, Objects(items)))
  {
    hide StoreInv, Intact, Facts, ActionFacts, ParentFacts, ChildFacts, NamedFacts, NullableActions, TableFacts,
      RowsOk, DnsOk, KeysOk, ReplaceChildren, PrivilegeRows, RepeatsPrivilege, Insert, PrivilegeRow, GoodChild,
      Objects, IsChild;
    InvParts(db);
    var docs, p := Objects(items[..i]), items[i].fields;
    PrivilegeGood(db, instance, p);
    OwnKey(db, PrivilegeRef(instance, p), InstanceId, instance);
    InsertChild(db, RdbPrivileges, InstanceId, instance, PrivilegeRows(instance, docs), PrivilegeRef(instance, p),
                PrivilegeRow(instance, p));
    PrivilegeRepeats(instance, docs, p);
    if RepeatsPrivilege(instance, docs + [p]) {
      RepeatsOnward(instance, docs + [p], Objects(items[i + 1..]));
      assert items == items[..i + 1] + items[i + 1..];
      ObjectsAppend(items[..i + 1], items[i + 1..]);
    }
  }

  lemma StartRules(db: Db, policy: string)
    requires StoreInv(db)
    ensures Objects([]) == [] && RuleRows(policy, [], []) == map[]
    ensures DeleteRows(db, Naming(db, IamRules, PolicyId, policy)) ==
            Ok(ReplaceChildren(db, IamRules, PolicyId, policy, map[]))
  {
    hide StoreInv, Intact, Facts, ActionFacts, ParentFacts, ChildFacts, NamedFacts, NullableActions, TableFacts,
      RowsOk, DnsOk, KeysOk, DeleteRows, ReplaceChildren, Naming;
    InvParts(db);
    DeleteChildren(db, IamRules, PolicyId, policy);
  }

  lemma NextRule(db: Db, policy: string, docs: seq<Doc>, used: seq<string>, doc: Doc, id: string)
    requires StoreInv(db) && Ref(IamPolicies, [policy]) in db.rows
    requires |docs| == |used| && id !in used && RuleRef(id) !in db.rows
    ensures Insert(ReplaceChildren(db, IamRules, PolicyId, policy, RuleRows(policy, docs, used)), RuleRef(id),
                   RuleRow(policy, doc, id)) ==
            Ok(ReplaceChildren(db, IamRules, PolicyId, policy, RuleRows(policy, docs + [doc], used + [id])))
  {
    hide StoreInv, Intact, Facts, ActionFacts, ParentFacts, ChildFacts, NamedFacts, NullableActions, TableFacts,
      RowsOk, DnsOk, KeysOk, ReplaceChildren, RuleRows, Insert, RuleRow, GoodChild;
    InvParts(db);
    RuleNext(policy, docs, used, doc, id);
    RuleGood(db, policy, doc, id);
    InsertChild(db, IamRules, PolicyId, policy, RuleRows(policy, docs, used), RuleRef(id), RuleRow(policy, doc, id));
  }

  lemma MemberInserts(db: Db, group: string, user: string)
    requires StoreInv(db)
    ensures MemberRef(group, user) in db.rows ==>
              Insert(db, MemberRef(group, user), MemberRow(group, user)) == Err(Conflict)
    ensures MemberRef(group, user) !in db.rows ==>
              Insert(db, MemberRef(group, user), MemberRow(group, user)) != Err(Conflict)
    ensures Insert(db, MemberRef(group, user), MemberRow(group, user)).Ok? ==>
              Insert(db, MemberRef(group, user), MemberRow(group, user)).value.schema == db.schema
  {
    hide StoreInv, Facts, ActionFacts, ParentFacts, ChildFacts, NamedFacts, NullableActions, TableFacts, Intact,
      RowsOk, DnsOk, KeysOk, ParentsExist, RequiredPresent;
    InvParts(db);
    MemberRequired(db.schema, MemberRef(group, user), MemberRow(group, user));
  }

  lemma LabelStatement(db: Db, text: string)
    requires StoreInv(db)
    ensures Insert(db, LabelRef(text), Row(map[], map[])) ==
            if LabelRef(text) in db.rows then Err(Conflict)
            else Ok(db.(rows := db.rows[LabelRef(text) := Row(map[], map[])]))
  {
    hide StoreInv, Facts, ActionFacts, ParentFacts, ChildFacts, NamedFacts, NullableActions, TableFacts, Intact,
      RowsOk, DnsOk, KeysOk, Insert;
    InvParts(db);
    LabelInserts(db, text);
  }

  /** DELETE of one row no foreign key points to, whether it is there or not. */
  lemma DropStatement(db: Db, r: Ref)
    requires StoreInv(db) && r.table !in PARENTS
    ensures DeleteRows(db, {r} * db.rows.Keys) == Ok(db.(rows := db.rows - {r}))
  {
    hide StoreInv, Facts, ActionFacts, ParentFacts, ChildFacts, NamedFacts, NullableActions, TableFacts, Intact,
      RowsOk, DnsOk, KeysOk, DeleteRows;
    InvParts(db);
    DeleteLeaves(db, {r} * db.rows.Keys);
    assert db.rows - {r} * db.rows.Keys == db.rows - {r};
  }

  /** What CreateIAMPolicy relies on between the policy's INSERT and its rules'. */
  lemma PolicyMade(db: Db, id: string, data: Doc, ids: seq<string>)
    requires StoreInv(db) && NewIdsFor(db, [id] + ids)
    ensures var made := CreateRow(db, Ref(IamPolicies, [id]), map[], data[Id := Str(id)]);
            made.Ok? ==>
              && StoreInv(made.value) && made.value.schema == db.schema && Ref(IamPolicies, [id]) in made.value.rows
              && (forall r :: !IsChild(made.value, r, IamRules, PolicyId, id))
              && (forall i | 0 <= i < |ids| :: RuleRef(ids[i]) !in made.value.rows)
    ensures forall a, b | 0 <= a < b < |ids| :: ids[a] != ids[b]
  {
    hide StoreInv, NewIdsFor, CreateRow, IsChild;
    RestOfNewIds(db, id, ids);
    NewIdsDistinct(db, ids);
    PolicyRow(db, id, data);
    var made := CreateRow(db, Ref(IamPolicies, [id]), map[], data[Id := Str(id)]);
    if made.Ok? {
      NoRulesYet(db, made.value, id, ids);
      forall i | 0 <= i < |ids|
        ensures RuleRef(ids[i]) !in made.value.rows
      {
        NewIdUnstored(db, ids, i, IamRules);
      }
    }
  }

  lemma NoRulesAdded(made: Db, id: string)
    ensures Objects([]) == [] && made.(rows := made.rows + RuleRows(id, [], [])) == made
  {
  }

  /** The INSERT of one more rule of a new policy cannot fail. */
  lemma AddRuleNext(made: Db, id: string, docs: seq<Doc>, used: seq<string>, doc: Doc, rule: string)
    requires StoreInv(made) && Ref(IamPolicies, [id]) in made.rows
    requires forall r :: !IsChild(made, r, IamRules, PolicyId, id)
    requires |docs| == |used| && rule !in used && RuleRef(rule) !in made.rows
    ensures Insert(made.(rows := made.rows + RuleRows(id, docs, used)), RuleRef(rule), RuleRow(id, doc, rule)) ==
            Ok(made.(rows := made.rows + RuleRows(id, docs + [doc], used + [rule])))
  {
    hide StoreInv, ReplaceChildren, RuleRows, Insert, RuleRow, IsChild;
    ReplaceNothing(made, id, RuleRows(id, docs, used));
    ReplaceNothing(made, id, RuleRows(id, docs + [doc], used + [rule]));
    NextRule(made, id, docs, used, doc, rule);
  }

  lemma StartMembers(db: Db, group: string)
    requires StoreInv(db)
    ensures MemberRows(group, []) == map[] && MemberProblem(db, group, []) == None
    ensures DeleteRows(db, Naming(db, IamGroupMembers, GroupId, group)) ==
            Ok(ReplaceChildren(db, IamGroupMembers, GroupId, group, map[]))
  {
    hide StoreInv, Intact, Facts, ActionFacts, ParentFacts, ChildFacts, NamedFacts, NullableActions, TableFacts,
      RowsOk, DnsOk, KeysOk, DeleteRows, ReplaceChildren, Naming;
    InvParts(db);
    DeleteChildren(db, IamGroupMembers, GroupId, group);
  }

  lemma NextMember(db: Db, group: string, users: seq<string>, i: nat)
    requires StoreInv(db) && i < |users| && MemberProblem(db, group, users[..i]) == None
    ensures var made := Insert(ReplaceChildren(db, IamGroupMembers, GroupId, group, MemberRows(group, users[..i])),
                               MemberRef(group, users[i]), MemberRow(group, users[i]));
            match made
            case Err(e) => MemberProblem(db, group, users) == Some(e)
            case Ok(next) =>
              && next == ReplaceChildren(db, IamGroupMembers, GroupId, group, MemberRows(group, users[..i + 1]))
              && MemberProblem(db, group, users[..i + 1]) == None
  {
    hide StoreInv, Insert, ReplaceChildren, MemberRows, CanJoin;
    InsertMember(db, group, users[..i], users[i]);
    assert users[..i + 1] == users[..i] + [users[i]] && users[..i + 1][..i] == users[..i];
    if MemberProblem(db, group, users[..i + 1]) != None {
      ProblemOnward(db, group, users, i + 1);
    }
  }

  lemma ProblemOnward(db: Db, group: string, users: seq<string>, k: nat)
    requires k <= |users| && MemberProblem(db, group, users[..k]) != None
    ensures MemberProblem(db, group, users) == MemberProblem(db, group, users[..k])
  {
    hide CanJoin;
    if k == |users| {
      assert users[..k] == users;
    } else {
      var m := |users| - 1;
      assert users[..m][..k] == users[..k];
      ProblemOnward(db, group, users[..m], k);
    }
  }

  /** Without a problem and without the group nobody was listed, and nothing was changed. */
  lemma LoneGroup(db: Db, group: string, users: seq<string>)
    requires StoreInv(db) && MemberProblem(db, group, users) == None
    ensures var next := ReplaceChildren(db, IamGroupMembers, GroupId, group, MemberRows(group, users));
            && (Ref(IamGroups, [group]) in next.rows <==> Ref(IamGroups, [group]) in db.rows)
            && (Ref(IamGroups, [group]) !in db.rows ==> next == db)
            && next.schema == db.schema
  {
    hide StoreInv, Intact, Facts, ActionFacts, ParentFacts, ChildFacts, NamedFacts, NullableActions, TableFacts,
      RowsOk, DnsOk, KeysOk, ReplaceChildren, MemberRows, MemberProblem, CanJoin;
    InvParts(db);
    NoMemberProblem(db, group, users);
    MembersOnly(group, users);
    ReplaceAt(db, IamGroupMembers, GroupId, group, MemberRows(group, users), Ref(IamGroups, [group]));
    ChildTable(db, IamGroupMembers, GroupId, group);
    if Ref(IamGroups, [group]) !in db.rows {
      if users != [] {
        JoinNeedsGroup(db, group, users[0]);
      }
      assert users == [];
      NoMembers(db, group);
    }
  }

  lemma JoinNeedsGroup(db: Db, group: string, user: string)
    ensures CanJoin(db, group, user) ==> Ref(IamGroups, [group]) in db.rows
  {
  }

  lemma NoMembers(db: Db, group: string)
    requires StoreInv(db) && Ref(IamGroups, [group]) !in db.rows
    ensures ReplaceChildren(db, IamGroupMembers, GroupId, group, MemberRows(group, [])) == db
  {
    hide StoreInv, Intact, Facts, ActionFacts, ParentFacts, ChildFacts, NamedFacts, NullableActions, TableFacts,
      RowsOk, DnsOk, KeysOk, ReplaceChildren, IsChild;
    InvParts(db);
    var next := ReplaceChildren(db, IamGroupMembers, GroupId, group, MemberRows(group, []));
    forall r
      ensures r in next.rows <==> r in db.rows
      ensures r in db.rows ==> next.rows[r] == db.rows[r]
      ensures next.schema == db.schema
    {
      ReplaceAt(db, IamGroupMembers, GroupId, group, MemberRows(group, []), r);
      GroupHasMember(db, group, r);
    }
    assert next.rows == db.rows;
    ReplaceAt(db, IamGroupMembers, GroupId, group, MemberRows(group, []), Ref(IamGroups, [group]));
  }

  lemma GroupHasMember(db: Db, group: string, r: Ref)
    requires Intact(db) && NamedFacts(db.schema.foreignKeys) && Ref(IamGroups, [group]) !in db.rows
    ensures !IsChild(db, r, IamGroupMembers, GroupId, group)
  {
    if r in db.rows && r.table == IamGroupMembers && GroupId in db.rows[r].cols {
      assert ParentsExist(db, r);
      assert Uses(db, r, MEMBER_GROUP);
    }
  }

  // ---- steps of the volume calls -----------------------------------------------------------------------------------

  /** The nested loops over the servers of a zone and their volumes, in any order. */
  method FindEmbedded(db: Db, zone: string, id: string) returns (place: Option<(Ref, Name)>)
    ensures place.Some? ==> HoldsVolume(db, zone, place.value.0, place.value.1, id)
    ensures place == None ==> !Embedded(db, zone, id)
  {
    var servers := set r | r in db.rows && r.table == Servers && RefersBy(db.rows[r], Zone, zone);
    ghost var all := servers;
    while servers != {}
      invariant servers <= all
      invariant forall r, k | r in all - servers :: !IsVolume(EmbeddedVolumes(db.rows[r].data), k, id)
      decreases servers
    {
      var r :| r in servers;
      var volumes := EmbeddedVolumes(db.rows[r].data);
      var keys := volumes.Keys;
      while keys != {}
        invariant keys <= volumes.Keys
        invariant forall k | k in volumes.Keys - keys :: !IsVolume(volumes, k, id)
        decreases keys
      {
        var k :| k in keys;
        if volumes[k].Obj? {
          if Text(volumes[k].fields, Id) == id {
            return Some((r, k));
          }
        }
        keys := keys - {k};
      }
      servers := servers - {r};
    }
    return None;
  }

  lemma HeldVolume(db: Db, zone: string, r: Ref, k: Name, id: string)
    requires HoldsVolume(db, zone, r, k, id)
    ensures r in db.rows && k in EmbeddedVolumes(db.rows[r].data)
  {
  }

  /** Removing one row reports not-found exactly when the row is not there, and then changes nothing. */
  lemma RemoveMissing(db: Db, t: Table, id: string)
    ensures Store.Remove(db, t, [id]).status == Failed(NotFound) <==> Ref(t, [id]) !in db.rows
    ensures Ref(t, [id]) !in db.rows ==> Store.Remove(db, t, [id]).db == db
  {
  }

  lemma WithoutVolumeWrites(db: Db, r: Ref, k: Name)
    requires StoreInv(db) && r in db.rows && r.table == Servers
    ensures Update(db, r, WithoutVolume(db.rows[r], k)) == Ok(db.(rows := db.rows[r := WithoutVolume(db.rows[r], k)]))
  {
    hide StoreInv, Update, EmbeddedVolumes, Intact;
    IntactStore(db);
    SameColumnsUpdate(db, r, WithoutVolume(db.rows[r], k).data);
  }

  // ---- steps of the balancer calls ---------------------------------------------------------------------------------

  lemma LbInserted(db: Db, zone: string, doc: Doc, id: string)
    requires StoreInv(db) && Get(doc, Id) == Str(id) && Get(doc, Zone) == Str(zone)
    ensures Insert(db, LbRef(id), Row(map[Zone := zone], doc)) ==
            if LbRef(id) in db.rows then Err(Conflict)
            else Ok(db.(rows := db.rows[LbRef(id) := Row(map[Zone := zone], doc)]))
    ensures LbRef(id) !in db.rows ==> StoreInv(db.(rows := db.rows[LbRef(id) := Row(map[Zone := zone], doc)]))
  {
    hide StoreInv, Facts, ActionFacts, ParentFacts, ChildFacts, NamedFacts, NullableActions, TableFacts, RowsOk, DnsOk,
      KeysOk, Intact, Insert;
    InvParts(db);
    LbInsert(db, zone, doc, id);
    if LbRef(id) !in db.rows {
      InsertLbKeeps(db, zone, doc, id);
    }
  }

  /** The second step of CreateLB cannot fail, and writes the balancer's id and nothing else. */
  lemma LbIpPatched(db: Db, ip: string, lb: string)
    requires StoreInv(db) && LbIpRef(ip) in db.rows
    ensures Store.Patch(db, LbIps, [ip], map[LbId := Str(lb)]) ==
            Outcome(db.(rows := db.rows[LbIpRef(ip) := AttachedLbIp(db.rows[LbIpRef(ip)], lb)]), Done)
  {
    hide StoreInv, Facts, ActionFacts, ParentFacts, ChildFacts, NamedFacts, NullableActions, TableFacts, RowOk, DnsOk,
      KeysOk, Intact, Update, PatchMerge, Columns;
    InvParts(db);
    var r := LbIpRef(ip);
    assert RowOk(db.schema, r, db.rows[r]);
    LbIpMerged(db.schema, db.rows[r].data, lb);
    LbIpColumns(db.schema, r, db.rows[r], lb);
    SetLbIpKeeps(db, r, Str(lb));
  }

  lemma LbIpMerged(schema: Schema, data: Doc, lb: string)
    requires TableFacts(schema)
    ensures PatchMerge(data, map[LbId := Str(lb)], Protected(schema, LbIps)) == data[LbId := Str(lb)]
  {
    hide RequiredFacts, SourceFacts;
    assert KeyNamesOf(schema, LbIps) == [Id];
    var next := PatchMerge(data, map[LbId := Str(lb)], Protected(schema, LbIps));
    assert next.Keys == data[LbId := Str(lb)].Keys;
  }

  lemma LbIpColumns(schema: Schema, r: Ref, row: Row, lb: string)
    requires TableFacts(schema) && r.table == LbIps && RowOk(schema, r, row)
    ensures var sources := SourcesOf(schema, LbIps);
            (row.cols - sources.Keys) + Columns(sources, row.data[LbId := Str(lb)], false) == row.cols
  {
    hide RequiredFacts, KeyNameFacts, SpellsKey;
    var sources := SourcesOf(schema, LbIps);
    assert sources == Column(Zone, Plain);
    assert Agrees(Source([Zone], Plain), row.data, ColumnValue(row, Zone));
    assert TextAt(row.data[LbId := Str(lb)], [Zone]) == TextAt(row.data, [Zone]);
    assert Columns(sources, row.data[LbId := Str(lb)], false) == map[Zone := row.cols[Zone]];
  }

  lemma DeleteLinks(db: Db, id: string)
    requires StoreInv(db)
    ensures DeleteRows(db, Naming(db, LbPrivateNetworks, LbId, id)) ==
            Ok(db.(rows := db.rows - Naming(db, LbPrivateNetworks, LbId, id)))
  {
    hide StoreInv, Facts, ActionFacts, ParentFacts, ChildFacts, NamedFacts, NullableActions, TableFacts, RowsOk, DnsOk,
      KeysOk, Intact, DeleteRows;
    InvParts(db);
    DeleteLeaves(db, Naming(db, LbPrivateNetworks, LbId, id));
  }

  /** One UPDATE for each address of the balancer's zone that names the balancer. */
  method ReleaseIps(ghost db: Db, unlinked: Db, id: string) returns (tx: Db)
    requires StoreInv(db) && unlinked == db.(rows := db.rows - Naming(db, LbPrivateNetworks, LbId, id))
    ensures tx == LbCleared(db, id)
  {
    hide StoreInv, Rewritten, Update, Narrows, Intact, Naming;
    tx := unlinked;
    UnlinkedStore(db, id);
    var todo := set r | r in tx.rows && r.table == LbIps && LbRef(id) in tx.rows
                        && ColumnValue(tx.rows[r], Zone) == ColumnValue(tx.rows[LbRef(id)], Zone);
    ghost var done: set<Ref> := {};
    RewriteNone(unlinked, ReleasedIp);
    while todo != {}
      invariant todo <= unlinked.rows.Keys && done !! todo
      invariant forall r :: r in done || (r in todo && Text(unlinked.rows[r].data, LbId) == id) <==>
                  Released(unlinked, r, id)
      invariant tx == Rewritten(unlinked, done, ReleasedIp) && Intact(tx)
      decreases todo
    {
      var r :| r in todo;
      RewrittenAt(unlinked, done, ReleasedIp, r);
      if Text(tx.rows[r].data, LbId) == id {
        ReleasedNarrows(unlinked, r);
        RewriteOne(unlinked, done, ReleasedIp, r);
        tx := Update(tx, r, ReleasedIp(tx.rows[r])).value;
        done := done + {r};
      }
      todo := todo - {r};
    }
    assert done == ReleasedSet(db, id);
  }

  lemma RewrittenAt(db: Db, done: set<Ref>, f: Row -> Row, r: Ref)
    ensures r in Rewritten(db, done, f).rows <==> r in db.rows
    ensures r in db.rows && r !in done ==> Rewritten(db, done, f).rows[r] == db.rows[r]
  {
  }

  lemma UnlinkedStore(db: Db, id: string)
    requires StoreInv(db)
    ensures var unlinked := db.(rows := db.rows - Naming(db, LbPrivateNetworks, LbId, id));
            && Intact(unlinked)
            && forall r :: Released(unlinked, r, id) <==> Released(db, r, id)
  {
    hide StoreInv, DeleteRows, Intact, Facts, ActionFacts, ParentFacts, ChildFacts, NamedFacts, NullableActions,
      TableFacts, RowsOk, DnsOk, KeysOk;
    InvParts(db);
    DeleteLinks(db, id);
    DeleteIntact(db, Naming(db, LbPrivateNetworks, LbId, id));
  }

  lemma ReleasedNarrows(db: Db, r: Ref)
    requires Intact(db) && r in db.rows
    ensures Narrows(db.schema, r, db.rows[r], ReleasedIp(db.rows[r]))
  {
    hide ParentsExist;
    assert RequiredPresent(db.schema, r, db.rows[r]);
  }

  lemma ClearedLb(db: Db, id: string)
    requires StoreInv(db) && LbRef(id) in db.rows
    ensures LbRef(id) in LbCleared(db, id).rows
    ensures DeleteRows(LbCleared(db, id), {LbRef(id)}) ==
            if HasParts(db, id) then Err(Conflict) else Ok(Balancers.DeleteLb(db, id).db)
    ensures Balancers.DeleteLb(db, id).status == (if HasParts(db, id) then Failed(Conflict) else Done)
    ensures Balancers.DeleteLb(db, id).db.schema == db.schema
  {
    hide StoreInv, DeleteRows, Intact, Facts, ActionFacts, ParentFacts, ChildFacts, NamedFacts, NullableActions,
      TableFacts, RowsOk, DnsOk, KeysOk, LbCleared, HasParts;
    InvParts(db);
    LbClearedAt(db, id, LbRef(id));
    if HasParts(db, id) {
      LbDeleteRefused(db, id);
    } else {
      LbDeleteDone(db, id);
    }
  }

  // ---- steps inside the transactions --------------------------------------------------------------------------------

  /** detachIPsFromServerTx: one UPDATE for each address of the server. */
  method DetachIps(db: Db, id: string) returns (tx: Db)
    requires StoreInv(db)
    ensures tx == Rewritten(db, Naming(db, InstanceIps, ServerId, id), DetachedIp)
  {
    hide StoreInv, Rewritten, Update, Narrows, RefersBy, Intact;
    tx := db;
    var todo := Naming(db, InstanceIps, ServerId, id);
    ghost var done: set<Ref> := {};
    RewriteNone(db, DetachedIp);
    assert Intact(db) by { IntactStore(db); }
    while todo != {}
      invariant todo <= db.rows.Keys && done + todo == Naming(db, InstanceIps, ServerId, id) && done !! todo
      invariant tx == Rewritten(db, done, DetachedIp) && Intact(tx)
      decreases todo
    {
      var r :| r in todo;
      DetachedNarrows(db, r);
      RewriteOne(db, done, DetachedIp, r);
      tx := Update(tx, r, DetachedIp(tx.rows[r])).value;
      todo, done := todo - {r}, done + {r};
    }
    assert done == Naming(db, InstanceIps, ServerId, id);
  }

  /** detachSecurityGroupFromServersTx: one UPDATE for each server of the group. */
  method DetachServers(db: Db, id: string) returns (tx: Db)
    requires StoreInv(db)
    ensures tx == GroupCleared(db, id)
  {
    hide StoreInv, Rewritten, Update, Narrows, RefersBy, Intact;
    tx := db;
    var todo := Naming(db, Servers, SecurityGroupId, id);
    ghost var done: set<Ref> := {};
    RewriteNone(db, DetachedServer);
    assert Intact(db) by { IntactStore(db); }
    while todo != {}
      invariant todo <= db.rows.Keys && done + todo == Naming(db, Servers, SecurityGroupId, id) && done !! todo
      invariant tx == Rewritten(db, done, DetachedServer) && Intact(tx)
      decreases todo
    {
      var r :| r in todo;
      DetachedServerNarrows(db, r);
      RewriteOne(db, done, DetachedServer, r);
      tx := Update(tx, r, DetachedServer(tx.rows[r])).value;
      todo, done := todo - {r}, done + {r};
    }
    assert done == Naming(db, Servers, SecurityGroupId, id);
  }

  lemma IntactStore(db: Db)
    requires StoreInv(db)
    ensures Intact(db)
  {
    hide Facts, Intact, RowsOk, DnsOk, KeysOk;
  }

  lemma DetachedNarrows(db: Db, r: Ref)
    requires StoreInv(db) && r in db.rows && r.table == InstanceIps
    ensures Narrows(db.schema, r, db.rows[r], DetachedIp(db.rows[r]))
  {
    hide StoreInv, Facts, ActionFacts, ParentFacts, ChildFacts, NamedFacts, NullableActions, TableFacts, RowsOk, DnsOk,
      KeysOk, ParentsExist;
    InvParts(db);
    IpRequired(db.schema);
    assert RequiredPresent(db.schema, r, db.rows[r]);
  }

  lemma DetachedServerNarrows(db: Db, r: Ref)
    requires StoreInv(db) && r in db.rows && r.table == Servers
    ensures Narrows(db.schema, r, db.rows[r], DetachedServer(db.rows[r]))
  {
    hide StoreInv, Facts, ActionFacts, ParentFacts, ChildFacts, NamedFacts, NullableActions, TableFacts, RowsOk, DnsOk,
      KeysOk, ParentsExist;
    InvParts(db);
    ServerRequired(db.schema);
    assert RequiredPresent(db.schema, r, db.rows[r]);
  }

  lemma DeleteNics(db: Db, id: string)
    requires StoreInv(db)
    ensures var detached := Rewritten(db, Naming(db, InstanceIps, ServerId, id), DetachedIp);
            DeleteRows(detached, Naming(detached, PrivateNics, ServerId, id)) == Ok(ServerCleared(db, id))
  {
    hide StoreInv, Facts, ActionFacts, ParentFacts, ChildFacts, NamedFacts, NullableActions, TableFacts, RowsOk, DnsOk,
      KeysOk, Intact, DeleteRows, DetachedIp;
    InvParts(db);
    SameNics(db, id);
    var detached := Rewritten(db, Naming(db, InstanceIps, ServerId, id), DetachedIp);
    DeleteLeaves(detached, Naming(detached, PrivateNics, ServerId, id));
  }

  lemma ClearedServer(db: Db, id: string)
    requires StoreInv(db) && ServerRef(id) in db.rows
    ensures ServerRef(id) in ServerCleared(db, id).rows
    ensures DeleteRows(ServerCleared(db, id), {ServerRef(id)}) == Ok(Instances.DeleteServer(db, id).db)
    ensures Instances.DeleteServer(db, id).status == Done && Instances.DeleteServer(db, id).db.schema == db.schema
  {
    hide StoreInv, Facts, ActionFacts, ParentFacts, ChildFacts, NamedFacts, NullableActions, TableFacts, RowsOk, DnsOk,
      KeysOk, Intact, DeleteRows, ServerCleared;
    InvParts(db);
    DeleteServerLast(db, id);
  }

  lemma DeleteMissingServer(db: Db, id: string)
    requires ServerRef(id) !in db.rows
    ensures Instances.DeleteServer(db, id) == Outcome(db, Failed(NotFound))
  {
  }

  lemma ClearedGroup(db: Db, id: string)
    requires StoreInv(db) && GroupRef(id) in db.rows
    ensures GroupRef(id) in GroupCleared(db, id).rows
    ensures DeleteRows(GroupCleared(db, id), {GroupRef(id)}) == Ok(Instances.DeleteSecurityGroup(db, id).db)
    ensures Instances.DeleteSecurityGroup(db, id).status == Done
    ensures Instances.DeleteSecurityGroup(db, id).db.schema == db.schema
  {
    hide StoreInv, Facts, ActionFacts, ParentFacts, ChildFacts, NamedFacts, NullableActions, TableFacts, RowsOk, DnsOk,
      KeysOk, Intact, DeleteRows, GroupCleared;
    InvParts(db);
    DeleteGroupLast(db, id);
  }

  lemma DeleteMissingGroup(db: Db, id: string)
    requires GroupRef(id) !in db.rows
    ensures Instances.DeleteSecurityGroup(db, id) == Outcome(db, Failed(NotFound))
  {
  }

  lemma NoIps(db: Db)
    ensures Strings([]) == [] && IpProblem(db, []) == None && IpEntries(db, []) == []
  {
  }

  /** What the next item of the list means for the addresses gathered so far, and for the whole check. */
  lemma NextIp(db: Db, listed: seq<Json>, i: nat)
    requires i < |listed| && IpProblem(db, Strings(listed[..i])) == None
    ensures var ip := AsString(listed[i]);
            var ips := Strings(listed[..i]);
            if ip == "" then Strings(listed[..i + 1]) == ips
            else
              && Strings(listed[..i + 1]) == ips + [ip]
              && (IpRef(ip) !in db.rows ==> IpProblem(db, Strings(listed)) == Some(NotFound))
              && (IpRef(ip) in db.rows && Text(db.rows[IpRef(ip)].data, ServerId) != "" ==>
                    IpProblem(db, Strings(listed)) == Some(Conflict))
              && (IpRef(ip) in db.rows && Text(db.rows[IpRef(ip)].data, ServerId) == "" ==>
                    && IpProblem(db, ips + [ip]) == None
                    && IpEntries(db, ips + [ip]) == IpEntries(db, ips) + [IpEntry(db, ip)])
  {
    var ips := Strings(listed[..i]);
    assert listed[..i + 1] == listed[..i] + [listed[i]];
    assert listed == listed[..i] + listed[i..] && listed[i..][0] == listed[i];
    StringsAppend(listed[..i], [listed[i]]);
    StringsAppend(listed[..i], listed[i..]);
    IpProblemAppend(db, ips, Strings(listed[i..]));
    var ip := AsString(listed[i]);
    if ip != "" {
      IpProblemAppend(db, ips, [ip]);
      if IpProblem(db, [ip]) == None {
        IpEntriesAppend(db, ips, [ip]);
      }
    }
  }

  lemma ServerDocument(zone: string, data: Doc, entries: seq<Json>, ids: NewIds, doc: Doc, cols: map<Name, string>)
    requires cols == if Text(data, SecurityGroupId) == "" then map[Zone := zone]
                     else map[Zone := zone][SecurityGroupId := Text(data, SecurityGroupId)]
    requires var base := data[Zone := Str(zone)][State := Str("stopped")][PublicIps := Arr(entries)]
                           [PublicIp := if entries == [] then Null else entries[0]]
                           [Volumes := RootVolume(zone, ids.volume)];
             doc == (if Get(base, SecurityGroup).Obj? then base
                     else base[SecurityGroup := GroupOrPlaceholder(data, ids.group)])[Id := Str(ids.server)]
    ensures Row(cols, doc) == Row(ServerColumns(zone, data), CreatedServer(zone, data, entries, ids))
  {
    hide RootVolume;
    var base := data[Zone := Str(zone)][State := Str("stopped")][PublicIps := Arr(entries)]
                  [PublicIp := if entries == [] then Null else entries[0]][Volumes := RootVolume(zone, ids.volume)];
    assert Get(base, SecurityGroup) == Get(data, SecurityGroup);
    if Get(base, SecurityGroup).Obj? {
      assert base[SecurityGroup := data[SecurityGroup]] == base;
    }
  }

  lemma AttachNobody(db: Db, server: string)
    ensures AttachAll(db, [], server) == db
  {
  }

  lemma EntryId(db: Db, ip: string)
    requires IpRef(ip) in db.rows
    ensures Text(AsDoc(IpEntry(db, ip)), Id) == ip
  {
  }

  lemma AttachNext(made: Db, now: Db, ips: seq<string>, k: nat, server: string)
    requires k < |ips| && StoreInv(now) && now == AttachAll(made, ips[..k], server)
    requires IpRef(ips[k]) in made.rows && ServerRef(server) in made.rows && server != ""
    ensures Instances.UpdateIp(now, ips[k], map[Server := Str(server)]) ==
            Outcome(AttachAll(made, ips[..k + 1], server), Done)
  {
    hide StoreInv, Facts, ActionFacts, ParentFacts, ChildFacts, NamedFacts, NullableActions, TableFacts, Intact,
      RowsOk, DnsOk, KeysOk, AttachedIp, AttachAll, Instances.UpdateIp;
    InvParts(now);
    assert ips[..k + 1] == ips[..k] + [ips[k]];
    assert now.rows.Keys == made.rows.Keys by { AttachKeys(made, ips[..k], server); }
    AttachStep(now, ips[k], server);
    AttachOneMore(made, ips[..k], ips[k], server);
  }

  lemma AttachKeys(db: Db, ips: seq<string>, server: string)
    ensures AttachAll(db, ips, server).rows.Keys == db.rows.Keys
  {
  }

  /** The lookups by GetBackend and GetFrontend, in the order of the code. */
  method LookUpReferences(rows: map<Ref, Row>, t: Table, doc: Doc, creating: bool) returns (dangling: bool)
    ensures dangling == Dangling(rows, t, doc, creating)
  {
    var frontend, backend := Text(doc, FrontendId), Text(doc, BackendId);
    if t == LbFrontends {
      return backend != "" && Ref(LbBackends, [backend]) !in rows;
    }
    if t != LbRoutes || creating {
      return false;
    }
    var balancer := "";
    if frontend != "" {
      if Ref(LbFrontends, [frontend]) !in rows {
        return true;
      }
      balancer := Text(rows[Ref(LbFrontends, [frontend])].data, LbId);
    }
    if backend != "" {
      if Ref(LbBackends, [backend]) !in rows {
        return true;
      }
      if balancer != "" && Text(rows[Ref(LbBackends, [backend])].data, LbId) != balancer {
        return true;
      }
    }
    return false;
  }

  lemma CreateIsInsert(db: Db, t: Table, key: seq<string>, params: map<Name, string>, data: Doc)
    requires |KeyNamesOf(db.schema, t)| == |key|
    ensures var doc := Spelled(Prepared(t, WithParams(data, params)), KeyNamesOf(db.schema, t), key);
            var sources := SourcesOf(db.schema, t);
            Store.Create(db, t, key, params, data) ==
            if Dangling(db.rows, t, doc, true) then Outcome(db, Failed(NotFound))
            else Single(db, Insert(db, Ref(t, key), Row((params - sources.Keys) + Columns(sources, doc, true), doc)))
  {
    hide Dangling, Insert, Spelled, Prepared, Columns, KeyNamesOf;
  }

  lemma PatchIsUpdate(db: Db, t: Table, key: seq<string>, patch: Doc)
    requires Ref(t, key) in db.rows
    ensures var next := Translated(t, PatchMerge(db.rows[Ref(t, key)].data, patch, Protected(db.schema, t)));
            var sources := SourcesOf(db.schema, t);
            Store.Patch(db, t, key, patch) ==
            if Dangling(db.rows, t, next, false) then Outcome(db, Failed(NotFound))
            else Single(db, Update(db, Ref(t, key),
                   Row((db.rows[Ref(t, key)].cols - sources.Keys) + Columns(sources, next, false), next)))
  {
    hide Dangling, Update, PatchMerge, Translated, Columns, Protected;
  }

  lemma ResetNone(db: Db)
    requires StoreInv(db)
    ensures EmptyTables(db.rows, RESET_ORDER[..0]) == db.rows && Intact(db)
  {
    hide RESET_ORDER, Intact, RowsOk, DnsOk, KeysOk, Facts;
  }

  lemma ResetKeepsIntact(db: Db, k: nat)
    requires StoreInv(db) && db.schema == MOCKWAY && k <= |RESET_ORDER|
    ensures Intact(Db(MOCKWAY, EmptyTables(db.rows, RESET_ORDER[..k])))
  {
    hide RESET_ORDER, Intact, RowsOk, DnsOk, KeysOk, Facts, EmptyTables, MOCKWAY, ChildrenFirst;
    MockwayFacts();
    ResetPrefixIntact(db, k);
  }

  lemma ResetSettled(f: File, saved: Option<File>)
    requires Settled(Machine(f, saved))
    ensures Settled(Machine(f.(rows := map[]), None)) && StoreInv(Db(MOCKWAY, map[]))
  {
    hide MOCKWAY, Facts, StoreInv;
    MockwayFacts();
    Runs.EmptyInv(MOCKWAY);
  }

  lemma ResetStep(rows: Rows, i: nat)
    requires i < |RESET_ORDER|
    ensures var before := EmptyTables(rows, RESET_ORDER[..i]);
            (map r | r in before && r.table != RESET_ORDER[i] :: before[r]) == EmptyTables(rows, RESET_ORDER[..i + 1])
  {
    hide RESET_ORDER;
    assert RESET_ORDER[..i + 1] == RESET_ORDER[..i] + [RESET_ORDER[i]];
  }

  lemma CreatedVersions(f: File, ts: seq<Table>)
    ensures Exec(f, CreateTables(ts)).file.versions == f.versions
  {
    if ts != [] {
      CreatedVersions(f, ts[..|ts| - 1]);
      assert CreateTables(ts)[..|ts| - 1] == CreateTables(ts[..|ts| - 1]);
    }
  }

  lemma StartsWell(f: File, original: Rows)
    requires Recoverable(f, original) || Current(f, original)
    ensures Exec(f, StartUp(f)).ok && Current(Exec(f, StartUp(f)).file, original)
  {
    hide Exec, StartUp, Recoverable, Current;
    assert StartUp(f)[..|StartUp(f)|] == StartUp(f);
    if Current(f, original) {
      CurrentStartUp(f, original, |StartUp(f)|);
    } else {
      InterruptedStartUp(f, original, |StartUp(f)|);
    }
  }
}
