/** What the instance operations keep, and how server rows and security groups stay reconciled. */
module InstanceLaws {
  import opened Wrappers
  import opened Documents
  import opened Relational
  import opened MockwaySchema
  import opened Store
  import opened Instances

  // ---- CreateServer ------------------------------------------------------------------------------

  lemma AttachRowOk(schema: Schema, r: Ref, row: Row, server: string)
    requires TableFacts(schema) && r.table == InstanceIps && RowOk(schema, r, row) && server != ""
    ensures RowOk(schema, r, AttachedIp(row, server))
  {
    assert KeyNamesOf(schema, InstanceIps) == [Id];
    assert SourcesOf(schema, InstanceIps) == Column(ServerId, NullIfEmpty);
    assert Get(row.data, Id) == Str(r.key[0]);
  }

  lemma AttachAllRowsOk(db: Db, ips: seq<string>, server: string)
    requires TableFacts(db.schema) && RowsOk(db) && server != ""
    ensures RowsOk(AttachAll(db, ips, server))
  {
    hide RowOk, AttachedIp, TableFacts;
    forall r | r in db.rows && r.table == InstanceIps
      ensures RowOk(db.schema, r, AttachedIp(db.rows[r], server))
    {
      AttachRowOk(db.schema, r, db.rows[r], server);
    }
  }

  lemma AttachAllIntact(db: Db, ips: seq<string>, server: string)
    requires ChildFacts(db.schema.foreignKeys) && Intact(db) && ServerRef(server) in db.rows
    ensures Intact(AttachAll(db, ips, server))
  {
    var next := AttachAll(db, ips, server);
    forall r | r in next.rows
      ensures ParentsExist(next, r) && RequiredPresent(next.schema, r, next.rows[r])
    {
      assert ParentsExist(db, r) && RequiredPresent(db.schema, r, db.rows[r]);
      forall fk | fk in next.schema.foreignKeys && Uses(next, r, fk)
        ensures Target(fk, next.rows[r]) in next.rows
      {
        assert ByChild(fk);
        if !ListedIp(r, ips) {
          assert Uses(db, r, fk);
        }
      }
    }
  }

  lemma CreatedServerRowOk(schema: Schema, zone: string, data: Doc, entries: seq<Json>, ids: NewIds)
    requires TableFacts(schema)
    ensures RowOk(schema, ServerRef(ids.server),
                  Row(ServerColumns(zone, data), CreatedServer(zone, data, entries, ids)))
  {
    assert KeyNamesOf(schema, Servers) == [Id];
    assert SourcesOf(schema, Servers) == map[];
  }

  lemma CreateServerKeeps(db: Db, zone: string, data: Doc, ids: NewIds)
    requires StoreInv(db) && ids.server != ""
    ensures var out := CreateServer(db, zone, data, ids);
            && StoreInv(out.db) && ChangesOnly(db, out.db, {Servers, InstanceIps})
            && (out.status != Done ==> out.db == db)
  {
    hide StoreInv, Facts, ActionFacts, ParentFacts, ChildFacts, NamedFacts, NullableActions, TableFacts, Intact,
      RowsOk, DnsOk, KeysOk, RowOk, CreatedServer, ServerColumns, IpProblem, AttachedIp, ListedIps, Insert;
    InvParts(db);
    var ips := ListedIps(data);
    if IpProblem(db, ips) == None {
      var row := Row(ServerColumns(zone, data), CreatedServer(zone, data, IpEntries(db, ips), ids));
      CreatedServerRowOk(db.schema, zone, data, IpEntries(db, ips), ids);
      InsertKeeps(db, ServerRef(ids.server), row);
      var made := Insert(db, ServerRef(ids.server), row);
      if made.Ok? {
        AttachAllIntact(made.value, ips, ids.server);
        AttachAllRowsOk(made.value, ips, ids.server);
        StoreFrame(db, AttachAll(made.value, ips, ids.server), {Servers, InstanceIps});
      }
    }
  }

  /** The state between the INSERT and the first attach step. */
  lemma InsertServerKeeps(db: Db, zone: string, data: Doc, ids: NewIds)
    requires StoreInv(db) && IpProblem(db, ListedIps(data)) == None
    ensures var row := Row(ServerColumns(zone, data), CreatedServer(zone, data, IpEntries(db, ListedIps(data)), ids));
            Insert(db, ServerRef(ids.server), row).Ok? ==>
              var next := Insert(db, ServerRef(ids.server), row).value;
              StoreInv(next) && next.schema == db.schema && next.rows == db.rows[ServerRef(ids.server) := row]
  {
    hide StoreInv, Facts, ActionFacts, ParentFacts, ChildFacts, NamedFacts, NullableActions, TableFacts, Intact,
      RowsOk, DnsOk, KeysOk, RowOk, CreatedServer, ServerColumns, IpProblem, ListedIps, Insert;
    InvParts(db);
    var row := Row(ServerColumns(zone, data), CreatedServer(zone, data, IpEntries(db, ListedIps(data)), ids));
    CreatedServerRowOk(db.schema, zone, data, IpEntries(db, ListedIps(data)), ids);
    InsertKeeps(db, ServerRef(ids.server), row);
    if Insert(db, ServerRef(ids.server), row).Ok? {
      StoreFrame(db, Insert(db, ServerRef(ids.server), row).value, {Servers});
    }
  }

  /**
   * CreateServer is all or nothing: on success every listed address was free and now belongs to the new server,
   * in its column and in its document, and no other address changed; on failure nothing changed.
   */
  lemma CreateServerAllOrNothing(db: Db, zone: string, data: Doc, ids: NewIds)
    requires StoreInv(db) && ids.server != ""
    ensures var out := CreateServer(db, zone, data, ids);
            var ips := ListedIps(data);
            && (out.status == Done ==> forall ip | ip in ips ::
                  && IpRef(ip) in db.rows && Text(db.rows[IpRef(ip)].data, ServerId) == ""
                  && ColumnValue(db.rows[IpRef(ip)], ServerId) == None
                  && IpRef(ip) in out.db.rows
                  && ColumnValue(out.db.rows[IpRef(ip)], ServerId) == Some(ids.server)
                  && Text(out.db.rows[IpRef(ip)].data, ServerId) == ids.server)
            && (out.status == Done ==> forall r | r in db.rows && !ListedIp(r, ips) ::
                  r in out.db.rows && out.db.rows[r] == db.rows[r])
            && (out.status == Done ==> out.db.rows.Keys == db.rows.Keys + {ServerRef(ids.server)})
            && (out.status != Done ==> out.db == db)
            && (out.status == Done <==>
                  && (forall ip | ip in ips :: IpRef(ip) in db.rows && Text(db.rows[IpRef(ip)].data, ServerId) == "")
                  && ServerRef(ids.server) !in db.rows
                  && (Text(data, SecurityGroupId) == "" || GroupRef(Text(data, SecurityGroupId)) in db.rows))
  {
    hide StoreInv, Facts, ActionFacts, ParentFacts, NullableActions, TableFacts, DnsOk, KeysOk, RowOk, CreatedServer,
      ListedIps, IpProblem, Intact, ServerColumns, Insert, ChildFacts, NamedFacts, AttachedIp, AttachAll;
    InvParts(db);
    var ips := ListedIps(data);
    IpProblemMeans(db, ips);
    if IpProblem(db, ips) == None {
      var doc := CreatedServer(zone, data, IpEntries(db, ips), ids);
      ServerInsert(db, zone, data, doc, ids);
      AttachAllAt(db.(rows := db.rows[ServerRef(ids.server) := Row(ServerColumns(zone, data), doc)]), ips, ids.server);
      forall ip | ip in ips
        ensures ColumnValue(db.rows[IpRef(ip)], ServerId) == None
      {
        assert RowOk(db.schema, IpRef(ip), db.rows[IpRef(ip)]);
        IpColumnAgrees(db.schema, IpRef(ip), db.rows[IpRef(ip)]);
      }
    }
  }

  lemma AttachAllAt(db: Db, ips: seq<string>, server: string)
    ensures var next := AttachAll(db, ips, server);
            && next.rows.Keys == db.rows.Keys && next.schema == db.schema
            && (forall r | r in db.rows && !ListedIp(r, ips) :: next.rows[r] == db.rows[r])
            && (forall r | r in db.rows && r.table != InstanceIps :: next.rows[r] == db.rows[r])
            && (forall ip | ip in ips && IpRef(ip) in db.rows ::
                  && ColumnValue(next.rows[IpRef(ip)], ServerId) == Some(server)
                  && Text(next.rows[IpRef(ip)].data, ServerId) == server)
  {
    hide AttachedIp;
    forall row: Row
      ensures ColumnValue(AttachedIp(row, server), ServerId) == Some(server)
      ensures Text(AttachedIp(row, server).data, ServerId) == server
    {
      AttachedFields(row, server);
    }
  }

  lemma AttachedFields(row: Row, server: string)
    ensures ColumnValue(AttachedIp(row, server), ServerId) == Some(server)
    ensures Text(AttachedIp(row, server).data, ServerId) == server
  {
  }

  lemma IpColumnAgrees(schema: Schema, r: Ref, row: Row)
    requires TableFacts(schema) && r.table == InstanceIps && RowOk(schema, r, row)
    ensures ColumnValue(row, ServerId) ==
            if Text(row.data, ServerId) == "" then None else Some(Text(row.data, ServerId))
  {
    assert SourcesOf(schema, InstanceIps) == Column(ServerId, NullIfEmpty);
    assert Agrees(Source([ServerId], NullIfEmpty), row.data, ColumnValue(row, ServerId));
  }

  /** Exactly when the server's INSERT succeeds. */
  lemma ServerInsert(db: Db, zone: string, data: Doc, doc: Doc, ids: NewIds)
    requires ChildFacts(db.schema.foreignKeys) && NamedFacts(db.schema.foreignKeys) && TableFacts(db.schema)
    ensures Insert(db, ServerRef(ids.server), Row(ServerColumns(zone, data), doc)) ==
            if ServerRef(ids.server) in db.rows then Err(Conflict)
            else if Text(data, SecurityGroupId) == "" || GroupRef(Text(data, SecurityGroupId)) in db.rows
            then Ok(db.(rows := db.rows[ServerRef(ids.server) := Row(ServerColumns(zone, data), doc)]))
            else Err(NotFound)
  {
    hide TableFacts;
    var r, row := ServerRef(ids.server), Row(ServerColumns(zone, data), doc);
    var next := db.(rows := db.rows[r := row]);
    assert RequiredPresent(db.schema, r, row) by {
      ServerRequired(db.schema);
    }
    forall fk | fk in next.schema.foreignKeys && Uses(next, r, fk)
      ensures fk == SERVER_GROUP && Text(data, SecurityGroupId) != ""
    {
      assert ByChild(fk);
    }
    if Text(data, SecurityGroupId) != "" {
      assert Uses(next, r, SERVER_GROUP);
    }
  }

  lemma ServerRequired(schema: Schema)
    requires TableFacts(schema)
    ensures Servers in schema.required && schema.required[Servers] == {Zone}
  {
  }

  // ---- UpdateIp ----------------------------------------------------------------------------------

  /** Rewriting a document without touching its id keeps the key spelled. */
  lemma SameIdSpells(schema: Schema, r: Ref, row: Row, doc: Doc)
    requires TableFacts(schema) && RowOk(schema, r, row)
    requires r.table in {Servers, SecurityGroups, InstanceIps, Lbs, LbIps}
    requires Get(doc, Id) == Get(row.data, Id)
    ensures SpellsKey(KeyNamesOf(schema, r.table), r.key, doc)
  {
    hide RequiredFacts, SourceFacts, ColumnsAgree;
    assert KeyNamesOf(schema, r.table) == [Id];
  }

  lemma PatchedIpId(current: Doc, patch: Doc)
    ensures Get(PatchedIp(current, patch), Id) == Get(current, Id)
  {
    hide PatchMerge;
    MergeAt(current, patch, {Id}, Id);
  }

  lemma UpdateIpKeeps(db: Db, id: string, patch: Doc)
    requires StoreInv(db)
    ensures var out := UpdateIp(db, id, patch);
            && StoreInv(out.db) && ChangesOnly(db, out.db, {InstanceIps})
            && (out.status != Done ==> out.db == db)
  {
    hide StoreInv, Facts, ActionFacts, ParentFacts, ChildFacts, NamedFacts, NullableActions, TableFacts, Intact,
      DnsOk, KeysOk, UpdateDoc, PatchedIp, RowOk;
    InvParts(db);
    var r := IpRef(id);
    if r in db.rows {
      var doc := PatchedIp(db.rows[r].data, patch);
      PatchedIpId(db.rows[r].data, patch);
      SameIdSpells(db.schema, r, db.rows[r], doc);
      UpdateDocKeeps(db, r, doc);
      if UpdateDoc(db, r, doc).Ok? {
        StoreFrame(db, UpdateDoc(db, r, doc).value, {InstanceIps});
      }
    }
  }

  /** The server an address ends with: `server` has priority over `server_id`, and null there keeps the old one. */
  function NextServer(current: Doc, patch: Doc): string {
    if Server in patch then AsString(patch[Server])
    else if Get(patch, ServerId) == Null then Text(current, ServerId)
    else AsString(patch[ServerId])
  }

  /** An address row moved to a server, or to none. */
  function MovedIp(row: Row, doc: Doc, server: string): Row {
    Row((row.cols - {ServerId}) + (if server == "" then map[] else map[ServerId := server]), doc)
  }

  /**
   * UpdateIP succeeds exactly when the address is stored and the server it would end with, if any, is stored; the
   * column and the document then name that server, and `server` itself is not stored.
   */
  lemma UpdateIpExact(db: Db, id: string, patch: Doc)
    requires StoreInv(db)
    ensures var out, r := UpdateIp(db, id, patch), IpRef(id);
            && (out.status == Done <==>
                  && r in db.rows
                  && (NextServer(db.rows[r].data, patch) == ""
                      || ServerRef(NextServer(db.rows[r].data, patch)) in db.rows))
            && StoreInv(out.db) && ChangesOnly(db, out.db, {InstanceIps})
            && (out.status != Done ==> out == Outcome(db, Failed(NotFound)))
            && (out.status == Done ==>
                  var doc, server := PatchedIp(db.rows[r].data, patch), NextServer(db.rows[r].data, patch);
                  && out.db == db.(rows := db.rows[r := MovedIp(db.rows[r], doc, server)])
                  && Text(doc, ServerId) == server && (Server in patch ==> Server !in doc))
  {
    hide StoreInv, Facts, ActionFacts, ParentFacts, ChildFacts, NullableActions, RequiredFacts, KeyNameFacts,
      SourceFacts, Intact, RowsOk, DnsOk, KeysOk, Update, PatchedIp, NextServer, MovedIp, Columns, ChangesOnly;
    UpdateIpKeeps(db, id, patch);
    InvParts(db);
    var r := IpRef(id);
    if r in db.rows {
      var doc, server := PatchedIp(db.rows[r].data, patch), NextServer(db.rows[r].data, patch);
      EndsWithServer(db.rows[r].data, patch);
      MovedColumns(db.schema, db.rows[r], doc, server);
      MovedUpdate(db, r, doc, server);
    }
  }

  lemma EndsWithServer(current: Doc, patch: Doc)
    ensures var doc := PatchedIp(current, patch);
            Text(doc, ServerId) == NextServer(current, patch) && (Server in patch ==> Server !in doc)
  {
    hide PatchMerge;
    MergeAt(current, patch, {Id}, ServerId);
  }

  lemma MovedColumns(schema: Schema, row: Row, doc: Doc, server: string)
    requires TableFacts(schema) && Text(doc, ServerId) == server
    ensures var sources := SourcesOf(schema, InstanceIps);
            Row((row.cols - sources.Keys) + Columns(sources, doc, false), doc) == MovedIp(row, doc, server)
  {
    hide RequiredFacts, KeyNameFacts, Columns, Column;
    assert SourcesOf(schema, InstanceIps) == Column(ServerId, NullIfEmpty);
    if server == "" {
      NoColumn(ServerId, doc);
    } else {
      OneColumn(ServerId, NullIfEmpty, doc);
    }
  }

  lemma NoColumn(n: Name, doc: Doc)
    requires Text(doc, n) == ""
    ensures Columns(Column(n, NullIfEmpty), doc, false) == map[] && Column(n, NullIfEmpty).Keys == {n}
  {
    assert TextAt(doc, [n]) == Text(doc, n);
    assert Extract(Source([n], NullIfEmpty), doc, false) == None;
  }

  lemma MovedUpdate(db: Db, r: Ref, doc: Doc, server: string)
    requires Intact(db) && ChildFacts(db.schema.foreignKeys) && RequiredFacts(db.schema.required)
    requires IP_SERVER in db.schema.foreignKeys
    requires r in db.rows && r.table == InstanceIps
    ensures Update(db, r, MovedIp(db.rows[r], doc, server)) ==
            if server == "" || ServerRef(server) in db.rows then
              Ok(db.(rows := db.rows[r := MovedIp(db.rows[r], doc, server)]))
            else Err(NotFound)
  {
    var row := MovedIp(db.rows[r], doc, server);
    var next := db.(rows := db.rows[r := row]);
    assert RequiredPresent(db.schema, r, db.rows[r]);
    forall fk | fk in db.schema.foreignKeys && Uses(next, r, fk)
      ensures server != "" && Target(fk, row) == ServerRef(server)
    {
      assert ByChild(fk);
    }
    if server != "" {
      assert Uses(next, r, IP_SERVER) && Target(IP_SERVER, row) == ServerRef(server);
    }
  }

  /** The attach step of CreateServer, as one UpdateIP: it cannot fail once the server's row is there. */
  lemma AttachStep(db: Db, ip: string, server: string)
    requires ChildFacts(db.schema.foreignKeys) && TableFacts(db.schema) && Intact(db)
    requires IpRef(ip) in db.rows && ServerRef(server) in db.rows && server != ""
    ensures UpdateIp(db, ip, map[Server := Str(server)]) ==
            Outcome(db.(rows := db.rows[IpRef(ip) := AttachedIp(db.rows[IpRef(ip)], server)]), Done)
  {
    hide TableFacts, PatchedIp, ChildFacts, Intact, Update, Columns;
    var r := IpRef(ip);
    AttachDoc(db.rows[r].data, server);
    AttachColumns(db.schema, db.rows[r], server);
    AttachUpdate(db, r, server);
  }

  lemma AttachDoc(data: Doc, server: string)
    ensures PatchedIp(data, map[Server := Str(server)]) == data[ServerId := Str(server)] - {Server}
  {
    var patch: Doc := map[Server := Str(server)];
    var next := PatchMerge(data, patch, {Id});
    assert next[ServerId := Str(server)] - {Server} == data[ServerId := Str(server)] - {Server};
  }

  lemma AttachColumns(schema: Schema, row: Row, server: string)
    requires TableFacts(schema) && server != ""
    ensures var sources := SourcesOf(schema, InstanceIps);
            (row.cols - sources.Keys) + Columns(sources, AttachedIp(row, server).data, false) ==
              AttachedIp(row, server).cols
  {
    hide RequiredFacts, KeyNameFacts, AttachedIp, Columns, Column;
    var sources := SourcesOf(schema, InstanceIps);
    assert sources == Column(ServerId, NullIfEmpty);
    AttachedFields(row, server);
    OneColumn(ServerId, NullIfEmpty, AttachedIp(row, server).data);
    AttachedCols(row, server);
  }

  lemma OneColumn(n: Name, rule: Rule, doc: Doc)
    requires Text(doc, n) != ""
    ensures Columns(Column(n, rule), doc, false) == map[n := Text(doc, n)] && Column(n, rule).Keys == {n}
  {
    assert TextAt(doc, [n]) == Text(doc, n);
    assert Extract(Source([n], rule), doc, false) == Some(Text(doc, n));
  }

  lemma AttachedCols(row: Row, server: string)
    ensures (row.cols - {ServerId}) + map[ServerId := server] == AttachedIp(row, server).cols
  {
  }

  lemma AttachUpdate(db: Db, r: Ref, server: string)
    requires ChildFacts(db.schema.foreignKeys) && Intact(db)
    requires r in db.rows && r.table == InstanceIps && ServerRef(server) in db.rows
    ensures Update(db, r, AttachedIp(db.rows[r], server)) ==
            Ok(db.(rows := db.rows[r := AttachedIp(db.rows[r], server)]))
  {
    var next := db.(rows := db.rows[r := AttachedIp(db.rows[r], server)]);
    assert RequiredPresent(db.schema, r, db.rows[r]);
    forall fk | fk in next.schema.foreignKeys && Uses(next, r, fk)
      ensures Target(fk, next.rows[r]) in next.rows
    {
      assert ByChild(fk);
    }
  }

  // ---- UpdateServer ------------------------------------------------------------------------------

  lemma ReconciledId(db: Db, patch: Doc, merged: Doc)
    ensures Get(Reconciled(db, patch, merged).0, Id) == Get(merged, Id)
    ensures forall k | k != SecurityGroup && k != SecurityGroupId ::
              Get(Reconciled(db, patch, merged).0, k) == Get(merged, k)
  {
  }

  /** A server row with the id, the zone and a stored group can be written. */
  lemma ServerUpdate(db: Db, r: Ref, row: Row)
    requires Intact(db) && ChildFacts(db.schema.foreignKeys) && TableFacts(db.schema)
    requires r in db.rows && r.table == Servers && Zone in row.cols
    requires SecurityGroupId in row.cols ==> GroupRef(row.cols[SecurityGroupId]) in db.rows
    ensures Update(db, r, row) == Ok(db.(rows := db.rows[r := row]))
  {
    hide TableFacts;
    var next := db.(rows := db.rows[r := row]);
    ServerRequired(db.schema);
    forall fk | fk in next.schema.foreignKeys && Uses(next, r, fk)
      ensures Target(fk, row) in next.rows
    {
      assert ByChild(fk);
    }
  }

  /** UpdateServer writes its row unless the patch is refused. */
  lemma UpdateServerMeans(db: Db, id: string, patch: Doc)
    requires Intact(db) && ChildFacts(db.schema.foreignKeys) && TableFacts(db.schema)
    requires ServerRef(id) in db.rows
    ensures var row := db.rows[ServerRef(id)];
            UpdateServer(db, id, patch) ==
            if Refused(db, row, patch) then Outcome(db, Failed(NotFound))
            else Outcome(db.(rows := db.rows[ServerRef(id) := PatchedServer(db, row, patch)]), Done)
  {
    hide Reconciled, PatchMerge, TableFacts, NamesGroup, ChildFacts;
    var r := ServerRef(id);
    ServerRequired(db.schema);
    assert RequiredPresent(db.schema, r, db.rows[r]);
    ServerUpdate(db, r, PatchedServer(db, db.rows[r], patch));
  }

  lemma ServerRowOk(schema: Schema, r: Ref, row: Row, next: Row)
    requires TableFacts(schema) && r.table == Servers && RowOk(schema, r, row)
    requires Get(next.data, Id) == Get(row.data, Id)
    ensures RowOk(schema, r, next)
  {
    assert KeyNamesOf(schema, Servers) == [Id];
    assert SourcesOf(schema, Servers) == map[];
  }

  lemma PatchedServerId(db: Db, row: Row, patch: Doc)
    ensures Get(PatchedServer(db, row, patch).data, Id) == Get(row.data, Id)
  {
    hide Reconciled, PatchMerge;
    MergeAt(row.data, patch, {Id}, Id);
    ReconciledId(db, patch, PatchMerge(row.data, patch, {Id}));
  }

  /** Writing a server row keeps the invariant. */
  lemma WriteServerKeeps(db: Db, r: Ref, row: Row)
    requires StoreInv(db)
    requires r in db.rows && r.table == Servers && Get(row.data, Id) == Get(db.rows[r].data, Id)
    requires Update(db, r, row) == Ok(db.(rows := db.rows[r := row]))
    ensures StoreInv(db.(rows := db.rows[r := row])) && ChangesOnly(db, db.(rows := db.rows[r := row]), {Servers})
  {
    hide StoreInv, Facts, ActionFacts, ParentFacts, ChildFacts, NamedFacts, NullableActions, TableFacts, Intact,
      DnsOk, KeysOk, RowOk, Update;
    InvParts(db);
    ServerRowOk(db.schema, r, db.rows[r], row);
    UpdateKeeps(db, r, row);
    StoreFrame(db, db.(rows := db.rows[r := row]), {Servers});
  }

  lemma UpdateServerKeeps(db: Db, id: string, patch: Doc)
    requires StoreInv(db)
    ensures var out := UpdateServer(db, id, patch);
            && StoreInv(out.db) && ChangesOnly(db, out.db, {Servers})
            && (out.status != Done ==> out.db == db)
  {
    hide StoreInv, Facts, ActionFacts, ParentFacts, ChildFacts, NamedFacts, NullableActions, TableFacts, Intact,
      DnsOk, KeysOk, RowsOk, PatchedServer, Refused, Update;
    InvParts(db);
    var r := ServerRef(id);
    if r in db.rows {
      UpdateServerMeans(db, id, patch);
      PatchedServerId(db, db.rows[r], patch);
      if !Refused(db, db.rows[r], patch) {
        UpdateSucceeds(db, id, patch);
        WriteServerKeeps(db, r, PatchedServer(db, db.rows[r], patch));
      }
    }
  }

  lemma UpdateSucceeds(db: Db, id: string, patch: Doc)
    requires ServerRef(id) in db.rows && UpdateServer(db, id, patch).status == Done
    ensures var row := PatchedServer(db, db.rows[ServerRef(id)], patch);
            Update(db, ServerRef(id), row) == Ok(db.(rows := db.rows[ServerRef(id) := row]))
  {
    hide PatchedServer, Refused, ParentsExist, RequiredPresent;
  }

  // ---- deletes -----------------------------------------------------------------------------------

  lemma DetachedIpRowOk(schema: Schema, r: Ref, row: Row)
    requires TableFacts(schema) && r.table == InstanceIps && RowOk(schema, r, row)
    ensures RowOk(schema, r, DetachedIp(row))
  {
    assert KeyNamesOf(schema, InstanceIps) == [Id];
    assert SourcesOf(schema, InstanceIps) == Column(ServerId, NullIfEmpty);
    assert Get(row.data, Id) == Str(r.key[0]);
  }

  lemma DeleteServerRowsOk(db: Db, id: string)
    requires TableFacts(db.schema) && RowsOk(db)
    ensures RowsOk(DeleteServer(db, id).db)
  {
    hide RowOk, DetachedIp, TableFacts, RefersBy;
    forall r | r in db.rows && r.table == InstanceIps
      ensures RowOk(db.schema, r, DetachedIp(db.rows[r]))
    {
      DetachedIpRowOk(db.schema, r, db.rows[r]);
    }
  }

  /** What a surviving row refers to survives with it. */
  lemma ServerGoneParent(db: Db, id: string, r: Ref, fk: ForeignKey)
    requires ParentFacts(db.schema.foreignKeys) && ServerRef(id) in db.rows && r in db.rows && ParentsExist(db, r)
    requires Uses(DeleteServer(db, id).db, r, fk)
    ensures Target(fk, DeleteServer(db, id).db.rows[r]) in DeleteServer(db, id).db.rows
  {
    hide ParentFacts;
    ParentFact(db.schema.foreignKeys, fk);
    assert Uses(db, r, fk);
  }

  lemma ParentFact(fks: set<ForeignKey>, fk: ForeignKey)
    requires ParentFacts(fks) && fk in fks
    ensures ByParent(fk)
  {
  }

  lemma ServerGoneRequired(db: Db, id: string, r: Ref)
    requires InstanceIps in db.schema.required && ServerId !in db.schema.required[InstanceIps]
    requires r in DeleteServer(db, id).db.rows && r in db.rows && RequiredPresent(db.schema, r, db.rows[r])
    ensures RequiredPresent(db.schema, r, DeleteServer(db, id).db.rows[r])
  {
  }

  lemma DeleteServerIntact(db: Db, id: string)
    requires ParentFacts(db.schema.foreignKeys) && Intact(db)
    requires InstanceIps in db.schema.required && ServerId !in db.schema.required[InstanceIps]
    ensures Intact(DeleteServer(db, id).db)
  {
    hide ParentFacts, DeleteServer, RequiredPresent;
    var next := DeleteServer(db, id).db;
    DeleteServerFrame(db, id);
    if ServerRef(id) in db.rows {
      forall r | r in next.rows
        ensures ParentsExist(next, r) && RequiredPresent(next.schema, r, next.rows[r])
      {
        assert ParentsExist(db, r) && RequiredPresent(db.schema, r, db.rows[r]);
        ServerGoneRequired(db, id, r);
        forall fk | fk in next.schema.foreignKeys && Uses(next, r, fk)
          ensures Target(fk, next.rows[r]) in next.rows
        {
          ServerGoneParent(db, id, r, fk);
        }
      }
    }
  }

  lemma DeleteServerFrame(db: Db, id: string)
    ensures DeleteServer(db, id).db.schema == db.schema && DeleteServer(db, id).db.rows.Keys <= db.rows.Keys
    ensures ServerRef(id) !in db.rows ==> DeleteServer(db, id).db == db
  {
    hide DetachedIp, RefersBy;
  }

  lemma DeleteServerKeeps(db: Db, id: string)
    requires StoreInv(db)
    ensures var out := DeleteServer(db, id);
            && StoreInv(out.db) && ChangesOnly(db, out.db, {Servers, InstanceIps, PrivateNics})
            && (out.status != Done ==> out.db == db)
            && (out.status == Done <==> ServerRef(id) in db.rows)
            && (out.status == Done ==> |out.db.rows| < |db.rows|)
  {
    hide StoreInv, Facts, ActionFacts, ParentFacts, ChildFacts, NamedFacts, NullableActions, RequiredFacts,
      KeyNameFacts, SourceFacts, Intact, RowsOk, DnsOk, KeysOk, DetachedIp, RefersBy;
    InvParts(db);
    if ServerRef(id) in db.rows {
      IpRequired(db.schema);
      DeleteServerRowsOk(db, id);
      DeleteServerIntact(db, id);
      StoreFrame(db, DeleteServer(db, id).db, {Servers, InstanceIps, PrivateNics});
      FewerRows(db, DeleteServer(db, id).db, ServerRef(id));
    }
  }

  /**
   * After a successful DeleteServer no address and no interface names the server, in column or document. A detached
   * address loses only that, and every row that did not name the server is as it was.
   */
  lemma DeleteServerForgets(db: Db, id: string)
    requires StoreInv(db) && DeleteServer(db, id).status == Done && id != ""
    ensures var next := DeleteServer(db, id).db;
            && ServerRef(id) !in next.rows
            && (forall r | r in next.rows && r.table == PrivateNics :: ColumnValue(next.rows[r], ServerId) != Some(id))
            && (forall r | r in next.rows && r.table == InstanceIps ::
                  ColumnValue(next.rows[r], ServerId) != Some(id) && Text(next.rows[r].data, ServerId) != id)
            && (forall r | r in db.rows && r != ServerRef(id) && ColumnValue(db.rows[r], ServerId) != Some(id) ::
                  r in next.rows && next.rows[r] == db.rows[r])
            && (forall r | r in db.rows && r.table == InstanceIps && ColumnValue(db.rows[r], ServerId) == Some(id) ::
                  r in next.rows && next.rows[r] == DetachedIp(db.rows[r]))
  {
    hide StoreInv, Facts, ActionFacts, ParentFacts, ChildFacts, NamedFacts, NullableActions, TableFacts, Intact, DnsOk,
      KeysOk, DeleteServer, RowOk, DetachedIp;
    DeleteServerKeeps(db, id);
    var next := DeleteServer(db, id).db;
    InvParts(next);
    assert ServerRef(id) in db.rows;
    forall r
      ensures r in next.rows ==> r.table in {PrivateNics, InstanceIps} ==>
                ColumnValue(next.rows[r], ServerId) != Some(id)
      ensures r in db.rows && r != ServerRef(id) && ColumnValue(db.rows[r], ServerId) != Some(id) ==>
                r in next.rows && next.rows[r] == db.rows[r]
      ensures r in db.rows && r.table == InstanceIps && ColumnValue(db.rows[r], ServerId) == Some(id) ==>
                r in next.rows && next.rows[r] == DetachedIp(db.rows[r])
      ensures r == ServerRef(id) ==> r !in next.rows
    {
      DeleteServerAt(db, id, r);
    }
    forall r | r in next.rows && r.table == InstanceIps
      ensures Text(next.rows[r].data, ServerId) != id
    {
      assert RowOk(next.schema, r, next.rows[r]);
      IpColumnAgrees(next.schema, r, next.rows[r]);
    }
  }

  lemma DeleteServerAt(db: Db, id: string, r: Ref)
    requires ServerRef(id) in db.rows
    ensures var next := DeleteServer(db, id).db;
            && (r in next.rows && r.table in {PrivateNics, InstanceIps} ==>
                ColumnValue(next.rows[r], ServerId) != Some(id))
            && (r in db.rows && r != ServerRef(id) && ColumnValue(db.rows[r], ServerId) != Some(id) ==>
                  r in next.rows && next.rows[r] == db.rows[r])
            && (r in db.rows && r.table == InstanceIps && ColumnValue(db.rows[r], ServerId) == Some(id) ==>
                  r in next.rows && next.rows[r] == DetachedIp(db.rows[r]))
            && ServerRef(id) !in next.rows
  {
  }

  lemma IpRequired(schema: Schema)
    requires TableFacts(schema)
    ensures InstanceIps in schema.required && schema.required[InstanceIps] == {Zone}
  {
  }

  lemma FewerRows(db: Db, next: Db, r: Ref)
    requires next.rows.Keys <= db.rows.Keys && r in db.rows && r !in next.rows
    ensures |next.rows| < |db.rows|
  {
    FewerElements(next.rows.Keys, db.rows.Keys, r);
  }

  lemma FewerElements<T>(a: set<T>, b: set<T>, x: T)
    requires a <= b && x in b && x !in a
    ensures |a| < |b|
  {
    if a == {} {
      assert b != {};
    } else {
      var y :| y in a;
      FewerElements(a - {y}, b - {y}, x);
    }
  }

  lemma GroupGoneParent(db: Db, id: string, r: Ref, fk: ForeignKey)
    requires ParentFacts(db.schema.foreignKeys) && GroupRef(id) in db.rows && r in db.rows && ParentsExist(db, r)
    requires Uses(DeleteSecurityGroup(db, id).db, r, fk)
    ensures Target(fk, DeleteSecurityGroup(db, id).db.rows[r]) in DeleteSecurityGroup(db, id).db.rows
  {
    hide ParentFacts;
    ParentFact(db.schema.foreignKeys, fk);
    assert Uses(db, r, fk);
  }

  lemma GroupGoneRequired(db: Db, id: string, r: Ref)
    requires Servers in db.schema.required && db.schema.required[Servers] == {Zone}
    requires r in DeleteSecurityGroup(db, id).db.rows && r in db.rows && RequiredPresent(db.schema, r, db.rows[r])
    ensures RequiredPresent(db.schema, r, DeleteSecurityGroup(db, id).db.rows[r])
  {
  }

  lemma DeleteGroupFrame(db: Db, id: string)
    ensures DeleteSecurityGroup(db, id).db.schema == db.schema
    ensures DeleteSecurityGroup(db, id).db.rows.Keys <= db.rows.Keys
    ensures GroupRef(id) !in db.rows ==> DeleteSecurityGroup(db, id).db == db
  {
    hide DetachedServer, RefersBy;
  }

  lemma DeleteGroupIntact(db: Db, id: string)
    requires ParentFacts(db.schema.foreignKeys) && Intact(db)
    requires Servers in db.schema.required && db.schema.required[Servers] == {Zone}
    ensures Intact(DeleteSecurityGroup(db, id).db)
  {
    hide ParentFacts, DeleteSecurityGroup, RequiredPresent;
    var next := DeleteSecurityGroup(db, id).db;
    DeleteGroupFrame(db, id);
    if GroupRef(id) in db.rows {
      forall r | r in next.rows
        ensures ParentsExist(next, r) && RequiredPresent(next.schema, r, next.rows[r])
      {
        assert ParentsExist(db, r) && RequiredPresent(db.schema, r, db.rows[r]);
        GroupGoneRequired(db, id, r);
        forall fk | fk in next.schema.foreignKeys && Uses(next, r, fk)
          ensures Target(fk, next.rows[r]) in next.rows
        {
          GroupGoneParent(db, id, r, fk);
        }
      }
    }
  }

  lemma DeleteGroupRowsOk(db: Db, id: string)
    requires TableFacts(db.schema) && RowsOk(db)
    ensures RowsOk(DeleteSecurityGroup(db, id).db)
  {
    hide RowOk, TableFacts, RefersBy;
    forall r | r in db.rows && r.table == Servers
      ensures RowOk(db.schema, r, DetachedServer(db.rows[r]))
    {
      ServerRowOk(db.schema, r, db.rows[r], DetachedServer(db.rows[r]));
    }
  }

  lemma DeleteGroupKeeps(db: Db, id: string)
    requires StoreInv(db)
    ensures var out := DeleteSecurityGroup(db, id);
            && StoreInv(out.db) && ChangesOnly(db, out.db, {Servers, SecurityGroups})
            && (out.status != Done ==> out.db == db)
            && (out.status == Done <==> GroupRef(id) in db.rows)
            && (out.status == Done ==> |out.db.rows| < |db.rows|)
  {
    hide StoreInv, Facts, ActionFacts, ParentFacts, ChildFacts, NamedFacts, NullableActions, RequiredFacts,
      KeyNameFacts, SourceFacts, Intact, RowsOk, DnsOk, KeysOk, DetachedServer, RefersBy;
    InvParts(db);
    if GroupRef(id) in db.rows {
      ServerRequired(db.schema);
      DeleteGroupRowsOk(db, id);
      DeleteGroupIntact(db, id);
      StoreFrame(db, DeleteSecurityGroup(db, id).db, {Servers, SecurityGroups});
      FewerRows(db, DeleteSecurityGroup(db, id).db, GroupRef(id));
    }
  }

  // ---- embedded volumes --------------------------------------------------------------------------

  lemma WithoutVolumeKeeps(db: Db, r: Ref, k: Name)
    requires StoreInv(db) && r in db.rows && r.table == Servers
    ensures var next := db.(rows := db.rows[r := WithoutVolume(db.rows[r], k)]);
            StoreInv(next) && ChangesOnly(db, next, {Servers})
  {
    hide StoreInv, Facts, ActionFacts, ParentFacts, ChildFacts, NamedFacts, NullableActions, TableFacts, Intact,
      RowsOk, DnsOk, KeysOk, Update, EmbeddedVolumes;
    InvParts(db);
    var row := WithoutVolume(db.rows[r], k);
    SameColumnsUpdate(db, r, row.data);
    WriteServerKeeps(db, r, row);
  }
}
