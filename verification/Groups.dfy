/** Security groups: a server's column, its document and the stored groups tell one story. */
module Groups {
  import opened Wrappers
  import opened Documents
  import opened Relational
  import opened MockwaySchema
  import opened Store
  import opened Instances
  import opened InstanceLaws

  // ---- the request form CreateServer relies on -----------------------------------------------------

  function Cleared(body: Doc): Doc {
    body[SecurityGroup := Null] - {SecurityGroupId}
  }

  /** What normalizeServerSecurityGroup makes of a create request. */
  function NormalizedGroup(body: Doc): Doc {
    if SecurityGroup in body then
      match body[SecurityGroup]
      case Str(v) =>
        if Trim(v) == "" then Cleared(body)
        else body[SecurityGroup := Obj(map[Id := Str(Trim(v)), Named := Str("")])][SecurityGroupId := Str(Trim(v))]
      case Obj(v) =>
        if Trim(Text(v, Id)) == "" then Cleared(body)
        else
          body[SecurityGroup := Obj(if Named in v then v else v[Named := Str("")])]
          [SecurityGroupId := Str(Trim(Text(v, Id)))]
      case _ => Cleared(body)
    else if Trim(Text(body, SecurityGroupId)) != "" then
      var id := Trim(Text(body, SecurityGroupId));
      body[SecurityGroup := Obj(map[Id := Str(id), Named := Str("")])][SecurityGroupId := Str(id)]
    else Cleared(body)
  }

  method NormalizeServerSecurityGroup(body: Doc) returns (out: Doc)
    ensures out == NormalizedGroup(body)
  {
    out := body;
    if SecurityGroup in out {
      match out[SecurityGroup] {
        case Str(v) =>
          var id := Trim(v);
          if id == "" {
            out := out[SecurityGroup := Null];
            out := out - {SecurityGroupId};
            return;
          }
          out := out[SecurityGroup := Obj(map[Id := Str(id), Named := Str("")])];
          out := out[SecurityGroupId := Str(id)];
          return;
        case Obj(fields) =>
          var v := fields;
          var id := Trim(Text(v, Id));
          if id == "" {
            out := out[SecurityGroup := Null];
            out := out - {SecurityGroupId};
            return;
          }
          if Named !in v {
            v := v[Named := Str("")];
          }
          out := out[SecurityGroup := Obj(v)];
          out := out[SecurityGroupId := Str(id)];
          return;
        case _ =>
          out := out[SecurityGroup := Null];
          out := out - {SecurityGroupId};
          return;
      }
    }
    if Get(out, SecurityGroupId).Str? {
      var id := Trim(out[SecurityGroupId].s);
      if id != "" {
        out := out[SecurityGroup := Obj(map[Id := Str(id), Named := Str("")])];
        out := out[SecurityGroupId := Str(id)];
        return;
      }
    }
    assert Trim(Text(out, SecurityGroupId)) == "" by { assert Trim("") == ""; }
    out := out[SecurityGroup := Null];
    out := out - {SecurityGroupId};
  }

  /** Either no group at all, or an object with a string id whose trimmed form is security_group_id. */
  predicate NormalForm(doc: Doc) {
    || (SecurityGroup in doc && doc[SecurityGroup] == Null && SecurityGroupId !in doc)
    || (&& Get(doc, SecurityGroup).Obj? && Get(doc[SecurityGroup].fields, Id).Str?
        && Text(doc, SecurityGroupId) == Trim(doc[SecurityGroup].fields[Id].s) != "")
  }

  lemma NormalizedIsNormal(body: Doc)
    ensures NormalForm(NormalizedGroup(body))
  {
    hide Trim;
    if SecurityGroup in body && body[SecurityGroup].Str? {
      TrimTwice(body[SecurityGroup].s);
    } else if SecurityGroup !in body {
      TrimTwice(Text(body, SecurityGroupId));
    }
  }

  /** Every other field of the request stays. */
  lemma NormalizedElsewhere(body: Doc, k: Name)
    requires k != SecurityGroup && k != SecurityGroupId
    ensures Get(NormalizedGroup(body), k) == Get(body, k)
  {
    hide Trim;
  }

  /** A normalised request is left alone. */
  lemma NormalizedTwice(body: Doc)
    ensures NormalizedGroup(NormalizedGroup(body)) == NormalizedGroup(body)
  {
    hide Trim, NormalizedGroup;
    NormalizedIsNormal(body);
    NormalizedNamed(body);
    NormalFixed(NormalizedGroup(body));
  }

  predicate NamedGroup(doc: Doc) {
    Get(doc, SecurityGroup).Obj? ==> Named in doc[SecurityGroup].fields
  }

  lemma NormalizedNamed(body: Doc)
    ensures NamedGroup(NormalizedGroup(body))
  {
    hide Trim;
  }

  lemma NormalFixed(doc: Doc)
    requires NormalForm(doc) && NamedGroup(doc)
    ensures NormalizedGroup(doc) == doc
  {
    hide Trim;
  }

  // ---- the invariant -------------------------------------------------------------------------------

  /** The group column of a server, if the server is stored. */
  function GroupColumn(db: Db, server: string): Option<string> {
    if ServerRef(server) in db.rows then ColumnValue(db.rows[ServerRef(server)], SecurityGroupId) else None
  }

  /** A group id, if such a group is stored. */
  function StoredGroup(db: Db, group: string): Option<string> {
    if group != "" && GroupRef(group) in db.rows then Some(group) else None
  }

  /** Every server's column is Some(x) exactly when its document's security_group_id is x and group x is stored. */
  ghost predicate Reconciling(db: Db) {
    forall r | r in db.rows && r.table == Servers ::
      ColumnValue(db.rows[r], SecurityGroupId) == StoredGroup(db, Text(db.rows[r].data, SecurityGroupId))
  }

  predicate ShapedGroup(doc: Doc) {
    Get(doc, SecurityGroup).Obj? ==> Get(doc[SecurityGroup].fields, Id).Str?
  }

  ghost predicate Shaped(db: Db) {
    forall r | r in db.rows && r.table == Servers :: ShapedGroup(db.rows[r].data)
  }

  /** The id inside a security_group object. */
  function ObjectGroup(doc: Doc): string {
    if Get(doc, SecurityGroup).Obj? then Text(doc[SecurityGroup].fields, Id) else ""
  }

  /** The security_group field is no bare id, and where it shows a stored group so does security_group_id. */
  predicate ShowsTruly(db: Db, doc: Doc) {
    && Text(doc, SecurityGroup) == ""
    && (GroupRef(ObjectGroup(doc)) in db.rows ==> Text(doc, SecurityGroupId) == ObjectGroup(doc))
  }

  ghost predicate Shown(db: Db) {
    forall r | r in db.rows && r.table == Servers :: ShowsTruly(db, db.rows[r].data)
  }

  /** Group ids come from newID: not blank, and without blanks around them. */
  ghost predicate PlainGroups(db: Db) {
    forall x :: GroupRef(x) in db.rows ==> x != "" && Trim(x) == x
  }

  ghost predicate GroupInv(db: Db) {
    Reconciling(db) && Shaped(db) && Shown(db) && PlainGroups(db)
  }

  /** Two stores that agree on which groups exist, and on what each server says about its group. */
  ghost predicate SameGroups(db: Db, next: Db) {
    && (forall x :: GroupRef(x) in db.rows <==> GroupRef(x) in next.rows)
    && (forall r | r in next.rows && r.table == Servers ::
          && r in db.rows
          && ColumnValue(next.rows[r], SecurityGroupId) == ColumnValue(db.rows[r], SecurityGroupId)
          && Get(next.rows[r].data, SecurityGroupId) == Get(db.rows[r].data, SecurityGroupId)
          && Get(next.rows[r].data, SecurityGroup) == Get(db.rows[r].data, SecurityGroup))
  }

  lemma GroupFrame(db: Db, next: Db)
    requires GroupInv(db) && SameGroups(db, next)
    ensures GroupInv(next)
  {
    hide Trim;
    forall r | r in next.rows && r.table == Servers
      ensures StoredGroup(next, Text(next.rows[r].data, SecurityGroupId)) ==
              StoredGroup(db, Text(db.rows[r].data, SecurityGroupId))
      ensures ShowsTruly(next, next.rows[r].data)
    {
      assert ShowsTruly(db, db.rows[r].data);
    }
  }

  lemma UntouchedGroups(db: Db, next: Db)
    requires SameTable(db, next, Servers) && SameTable(db, next, SecurityGroups)
    ensures SameGroups(db, next)
  {
  }

  // ---- create --------------------------------------------------------------------------------------

  /** The new server's column names its document's group exactly when the group is stored. */
  lemma NewServerReconciled(db: Db, zone: string, data: Doc, entries: seq<Json>, ids: NewIds)
    requires Text(data, SecurityGroupId) == "" || GroupRef(Text(data, SecurityGroupId)) in db.rows
    requires ShapedGroup(data)
    ensures var doc := CreatedServer(zone, data, entries, ids);
            && ColumnValue(Row(ServerColumns(zone, data), doc), SecurityGroupId) ==
              StoredGroup(db, Text(doc, SecurityGroupId))
            && ShapedGroup(doc)
  {
    hide RootVolume;
  }

  /** A server created from a normalised request shows its own group, or one that is not stored. */
  lemma NewServerShown(db: Db, zone: string, data: Doc, entries: seq<Json>, ids: NewIds)
    requires NormalForm(data) && PlainGroups(db)
    requires Get(data, SecurityGroup).Obj? || GroupRef(ids.group) !in db.rows
    ensures ShowsTruly(db, CreatedServer(zone, data, entries, ids))
  {
    hide RootVolume, Trim;
  }

  lemma OneMoreServer(db: Db, next: Db, r: Ref)
    requires GroupInv(db) && r.table == Servers && r in next.rows
    requires next.schema == db.schema && SameTable(db, next, SecurityGroups)
    requires forall q | q in next.rows && q.table == Servers && q != r :: q in db.rows && next.rows[q] == db.rows[q]
    requires ColumnValue(next.rows[r], SecurityGroupId) == StoredGroup(db, Text(next.rows[r].data, SecurityGroupId))
    requires ShapedGroup(next.rows[r].data) && ShowsTruly(db, next.rows[r].data)
    ensures GroupInv(next)
  {
    hide ColumnValue, Text, ShapedGroup, ObjectGroup, Trim;
    forall x: string
      ensures GroupRef(x) in next.rows <==> GroupRef(x) in db.rows
      ensures StoredGroup(next, x) == StoredGroup(db, x)
    {
    }
  }

  lemma CreateServerGroups(db: Db, zone: string, data: Doc, ids: NewIds)
    requires StoreInv(db) && GroupInv(db) && ids.server != "" && NormalForm(data)
    requires Get(data, SecurityGroup).Obj? || GroupRef(ids.group) !in db.rows
    ensures GroupInv(CreateServer(db, zone, data, ids).db)
  {
    hide StoreInv, GroupInv, CreateServer, ShapedGroup, CreatedServer, ServerColumns, StoredGroup, ColumnValue,
      IpEntries, ListedIps, IpProblem, NormalForm, ShowsTruly;
    NormalShaped(data);
    GroupsPlain(db);
    CreateServerKeeps(db, zone, data, ids);
    var out := CreateServer(db, zone, data, ids);
    if out.status == Done {
      CreatedServerRow(db, zone, data, ids);
      NewServerReconciled(db, zone, data, IpEntries(db, ListedIps(data)), ids);
      NewServerShown(db, zone, data, IpEntries(db, ListedIps(data)), ids);
      OneMoreServer(db, out.db, ServerRef(ids.server));
    }
  }

  lemma NormalShaped(data: Doc)
    requires NormalForm(data)
    ensures ShapedGroup(data)
  {
  }

  lemma GroupsPlain(db: Db)
    requires GroupInv(db)
    ensures PlainGroups(db)
  {
    hide Reconciling, Shaped, Shown, PlainGroups;
  }

  /** The server row a successful create leaves, beside the unchanged rows of the other servers. */
  lemma CreatedServerRow(db: Db, zone: string, data: Doc, ids: NewIds)
    requires StoreInv(db) && CreateServer(db, zone, data, ids).status == Done
    ensures IpProblem(db, ListedIps(data)) == None
    ensures Text(data, SecurityGroupId) == "" || GroupRef(Text(data, SecurityGroupId)) in db.rows
    ensures var next := CreateServer(db, zone, data, ids).db;
            var doc := CreatedServer(zone, data, IpEntries(db, ListedIps(data)), ids);
            && ServerRef(ids.server) in next.rows
            && next.rows[ServerRef(ids.server)] == Row(ServerColumns(zone, data), doc)
            && forall q | q in next.rows && q.table == Servers && q != ServerRef(ids.server) ::
                 q in db.rows && next.rows[q] == db.rows[q]
  {
    hide StoreInv, Facts, ActionFacts, ParentFacts, NullableActions, TableFacts, DnsOk, KeysOk, RowsOk, ListedIps,
      IpProblem, Intact, Insert, ChildFacts, NamedFacts, AttachAll, IpEntries, CreatedServer, ServerColumns, ListedIp,
      AttachedIp;
    InvParts(db);
    var doc := CreatedServer(zone, data, IpEntries(db, ListedIps(data)), ids);
    var made := db.(rows := db.rows[ServerRef(ids.server) := Row(ServerColumns(zone, data), doc)]);
    ServerInsert(db, zone, data, doc, ids);
    AttachAllAt(made, ListedIps(data), ids.server);
  }

  lemma ObjectGroupMentioned(doc: Doc)
    ensures ObjectGroup(doc) != "" ==> MentionsDoc(doc, ObjectGroup(doc))
  {
    hide MentionsDoc;
    if ObjectGroup(doc) != "" {
      TextMentioned(doc[SecurityGroup].fields, Id);
      NestedMentioned(doc, SecurityGroup, ObjectGroup(doc));
    }
  }

  /** A new group id is no server's group yet. */
  lemma FreshGroup(db: Db, id: string, r: Ref)
    requires Fresh(db, id) && r in db.rows
    ensures Text(db.rows[r].data, SecurityGroupId) != id && ObjectGroup(db.rows[r].data) != id
    ensures GroupRef(id) !in db.rows
  {
    hide MentionsDoc, Trim, ObjectGroup;
    TextMentioned(db.rows[r].data, SecurityGroupId);
    ObjectGroupMentioned(db.rows[r].data);
    assert id in GroupRef(id).key;
  }

  lemma CreateGroupGroups(db: Db, id: string, params: map<Name, string>, data: Doc)
    requires StoreInv(db) && GroupInv(db) && Fresh(db, id)
    requires KeyNamesOf(db.schema, SecurityGroups) == [Id]
    ensures GroupInv(Create(db, SecurityGroups, [id], params, data).db)
  {
    hide StoreInv, Create, Fresh, GroupInv, Prepared, Spelled;
    var out := Create(db, SecurityGroups, [id], params, data);
    CreateKeeps(db, SecurityGroups, [id], params, data);
    if out.status == Done {
      assert SameTable(db, out.db, Servers);
      OneMoreGroup(db, out.db, id);
    }
  }

  lemma OneMoreGroup(db: Db, next: Db, id: string)
    requires GroupInv(db) && Fresh(db, id) && SameTable(db, next, Servers)
    requires next.rows.Keys == db.rows.Keys + {GroupRef(id)}
    ensures GroupInv(next)
  {
    hide Fresh, ColumnValue, Text, ShapedGroup, ObjectGroup, Trim;
    assert GroupRef(id).key[0] == id;
    FreshPlain(db, id);
    forall x: string
      ensures GroupRef(x) in next.rows <==> GroupRef(x) in db.rows || x == id
    {
      assert GroupRef(x).key[0] == x;
    }
    forall r | r in db.rows && r.table == Servers
      ensures Text(db.rows[r].data, SecurityGroupId) != id && ObjectGroup(db.rows[r].data) != id
    {
      FreshGroup(db, id, r);
    }
  }

  lemma FreshPlain(db: Db, id: string)
    requires Fresh(db, id)
    ensures id != "" && Trim(id) == id
  {
    hide Trim, MentionsDoc;
  }

  // ---- update --------------------------------------------------------------------------------------

  /**
   * The one way an update breaks reconciliation: the patch carries no string security_group_id, the merged
   * security_group is an object whose id is not a string, and the merged security_group_id is a stored group.
   */
  predicate Orphans(db: Db, row: Row, patch: Doc) {
    var merged := PatchMerge(row.data, patch, {Id});
    && !Get(patch, SecurityGroupId).Str?
    && Get(merged, SecurityGroup).Obj? && !Get(merged[SecurityGroup].fields, Id).Str?
    && StoredGroup(db, Text(merged, SecurityGroupId)) != None
  }

  lemma PatchedServerGroup(db: Db, row: Row, patch: Doc)
    ensures var next := PatchedServer(db, row, patch);
            ColumnValue(next, SecurityGroupId) == StoredGroup(db, Text(next.data, SecurityGroupId)) <==>
            !Orphans(db, row, patch)
  {
    hide PatchMerge, GroupObject;
  }

  /** Reconciliation survives an update exactly when the update is not of the orphaning kind. */
  lemma UpdateServerReconciles(db: Db, id: string, patch: Doc)
    requires StoreInv(db) && Reconciling(db)
    requires UpdateServer(db, id, patch).status == Done
    ensures ServerRef(id) in db.rows
    ensures Reconciling(UpdateServer(db, id, patch).db) <==> !Orphans(db, db.rows[ServerRef(id)], patch)
  {
    hide StoreInv, Facts, ActionFacts, ParentFacts, NullableActions, TableFacts, DnsOk, KeysOk, RowsOk, Intact,
      ChildFacts, NamedFacts, PatchedServer, Refused, Orphans, Update;
    InvParts(db);
    var r := ServerRef(id);
    var row := PatchedServer(db, db.rows[r], patch);
    UpdateServerMeans(db, id, patch);
    PatchedServerGroup(db, db.rows[r], patch);
    var next := UpdateServer(db, id, patch).db;
    assert next == db.(rows := db.rows[r := row]);
    forall x: string
      ensures StoredGroup(next, x) == StoredGroup(db, x)
    {
    }
    assert r in next.rows && r.table == Servers;
  }

  /** A patch that only sends null, a string, or an object with a string id keeps every document shaped. */
  predicate ShapedPatch(patch: Doc) {
    match Get(patch, SecurityGroup)
    case Null => true
    case Str(_) => true
    case Obj(fields) => Get(fields, Id).Str?
    case _ => false
  }

  lemma ShapedStays(db: Db, row: Row, patch: Doc)
    requires ShapedGroup(row.data) && ShapedPatch(patch)
    ensures ShapedGroup(PatchMerge(row.data, patch, {Id}))
    ensures ShapedGroup(PatchedServer(db, row, patch).data)
    ensures !Orphans(db, row, patch)
  {
    MergeAt(row.data, patch, {Id}, SecurityGroup);
  }

  /** Whatever the patch, an update leaves the two fields showing the same stored group. */
  lemma PatchedShown(db: Db, row: Row, patch: Doc)
    requires PlainGroups(db)
    ensures ShowsTruly(db, PatchedServer(db, row, patch).data)
  {
    hide PatchMerge, GroupName, Trim;
  }

  lemma UpdateServerGroups(db: Db, id: string, patch: Doc)
    requires StoreInv(db) && GroupInv(db) && ShapedPatch(patch)
    ensures GroupInv(UpdateServer(db, id, patch).db)
  {
    hide StoreInv, Facts, ActionFacts, ParentFacts, NullableActions, TableFacts, DnsOk, KeysOk, RowsOk, Intact,
      ChildFacts, NamedFacts, PatchedServer, Refused, Orphans, Update, ShapedGroup, ShapedPatch, GroupInv, Reconciling,
      ShowsTruly;
    InvParts(db);
    GroupParts(db);
    if UpdateServer(db, id, patch).status == Done {
      var r := ServerRef(id);
      UpdateServerReconciles(db, id, patch);
      ShapedStays(db, db.rows[r], patch);
      PatchedShown(db, db.rows[r], patch);
      UpdateServerMeans(db, id, patch);
      OneServerRewritten(db, UpdateServer(db, id, patch).db, r);
    }
  }

  lemma GroupParts(db: Db)
    requires GroupInv(db)
    ensures Reconciling(db) && Shaped(db) && Shown(db) && PlainGroups(db)
  {
    hide Reconciling, Shaped, Shown, PlainGroups;
  }

  lemma OneServerRewritten(db: Db, next: Db, r: Ref)
    requires GroupInv(db) && Reconciling(next) && r.table == Servers && r in db.rows && r in next.rows
    requires next.rows == db.rows[r := next.rows[r]]
    requires ShapedGroup(next.rows[r].data) && ShowsTruly(db, next.rows[r].data)
    ensures GroupInv(next)
  {
    hide Text, ShapedGroup, ObjectGroup, Trim, Reconciling;
    forall x: string
      ensures GroupRef(x) in next.rows <==> GroupRef(x) in db.rows
    {
    }
  }

  /**
   * A patch that sends security_group_id decides the group alone: an unknown id is refused, "" detaches, and a
   * stored one is shown with the group's own name; the column follows.
   */
  lemma UpdateServerSetsGroup(db: Db, id: string, patch: Doc, group: string)
    requires StoreInv(db) && ServerRef(id) in db.rows && Get(patch, SecurityGroupId) == Str(group)
    ensures var out := UpdateServer(db, id, patch);
            if group != "" && GroupRef(group) !in db.rows then out == Outcome(db, Failed(NotFound))
            else
              && out.status == Done && ServerRef(id) in out.db.rows
              && GroupColumn(out.db, id) == (if group == "" then None else Some(group))
              && Text(out.db.rows[ServerRef(id)].data, SecurityGroupId) == group
              && Get(out.db.rows[ServerRef(id)].data, SecurityGroup) ==
                 (if group == "" then Null else Obj(map[Id := Str(group), Named := Str(GroupName(db, group))]))
  {
    hide StoreInv, Facts, ActionFacts, ParentFacts, NullableActions, TableFacts, DnsOk, KeysOk, RowsOk, Intact,
      ChildFacts, NamedFacts, Update, PatchMerge, GroupName;
    InvParts(db);
    UpdateServerMeans(db, id, patch);
  }

  /** Apart from the group fields an update is the plain merge, and it touches no other row. */
  lemma UpdateServerElsewhere(db: Db, id: string, patch: Doc, k: Name)
    requires StoreInv(db) && UpdateServer(db, id, patch).status == Done
    requires k != SecurityGroup && k != SecurityGroupId
    ensures var next := UpdateServer(db, id, patch).db;
            && ServerRef(id) in db.rows && ServerRef(id) in next.rows
            && Get(next.rows[ServerRef(id)].data, k) ==
               (if k == Id then Get(db.rows[ServerRef(id)].data, k)
                else Patched(Get(db.rows[ServerRef(id)].data, k), Get(patch, k)))
            && next == db.(rows := db.rows[ServerRef(id) := next.rows[ServerRef(id)]])
  {
    hide StoreInv, Facts, ActionFacts, ParentFacts, NullableActions, TableFacts, DnsOk, KeysOk, RowsOk, Intact,
      ChildFacts, NamedFacts, Update, PatchMerge, Reconciled, Refused, Patched;
    InvParts(db);
    UpdateServerMeans(db, id, patch);
    MergeAt(db.rows[ServerRef(id)].data, patch, {Id}, k);
    ReconciledId(db, patch, PatchMerge(db.rows[ServerRef(id)].data, patch, {Id}));
  }

  /** A patch that breaks reconciliation for any server in a stored group that shows it as an object. */
  lemma NumericGroupIdOrphans(db: Db, id: string)
    requires StoreInv(db) && Reconciling(db)
    requires ServerRef(id) in db.rows && Get(db.rows[ServerRef(id)].data, SecurityGroup).Obj?
    requires ColumnValue(db.rows[ServerRef(id)], SecurityGroupId) != None
    ensures var out := UpdateServer(db, id, map[SecurityGroup := Obj(map[Id := Num(1.0)])]);
            out.status == Done && !Reconciling(out.db)
  {
    hide StoreInv, Facts, ActionFacts, ParentFacts, NullableActions, TableFacts, DnsOk, KeysOk, RowsOk, Intact,
      ChildFacts, NamedFacts, PatchedServer, Update, PatchMerge, Reconciling;
    InvParts(db);
    var patch: Doc := map[SecurityGroup := Obj(map[Id := Num(1.0)])];
    var r := ServerRef(id);
    assert ColumnValue(db.rows[r], SecurityGroupId) == StoredGroup(db, Text(db.rows[r].data, SecurityGroupId)) by {
      ReconcilingAt(db, r);
    }
    MergeAt(db.rows[r].data, patch, {Id}, SecurityGroup);
    MergeAt(db.rows[r].data, patch, {Id}, SecurityGroupId);
    UpdateServerMeans(db, id, patch);
    UpdateServerReconciles(db, id, patch);
  }

  lemma ReconcilingAt(db: Db, r: Ref)
    requires Reconciling(db) && r in db.rows && r.table == Servers
    ensures ColumnValue(db.rows[r], SecurityGroupId) == StoredGroup(db, Text(db.rows[r].data, SecurityGroupId))
  {
  }

  /** The group a document shows: the id inside security_group if it has one, else security_group_id. */
  function ShownGroup(doc: Doc): string {
    if Text(doc, SecurityGroup) != "" then Text(doc, SecurityGroup)
    else if Get(doc, SecurityGroup).Obj? then Text(doc[SecurityGroup].fields, Id)
    else Text(doc, SecurityGroupId)
  }

  /**
   * An update that says nothing about groups keeps the server in its group exactly when the shown group and
   * security_group_id resolve to the same stored group.
   */
  lemma UnrelatedUpdateKeepsGroup(db: Db, id: string, patch: Doc)
    requires StoreInv(db) && Reconciling(db)
    requires ServerRef(id) in db.rows && !NamesGroup(patch)
    ensures var out := UpdateServer(db, id, patch);
            var doc := db.rows[ServerRef(id)].data;
            && out.status == Done
            && (GroupColumn(out.db, id) == GroupColumn(db, id) <==>
                StoredGroup(db, ShownGroup(doc)) == StoredGroup(db, Text(doc, SecurityGroupId)))
  {
    hide StoreInv, Facts, ActionFacts, ParentFacts, NullableActions, TableFacts, DnsOk, KeysOk, RowsOk, Intact,
      ChildFacts, NamedFacts, Update, PatchMerge, Reconciling, GroupObject;
    InvParts(db);
    var r := ServerRef(id);
    ReconcilingAt(db, r);
    MergeAt(db.rows[r].data, patch, {Id}, SecurityGroup);
    MergeAt(db.rows[r].data, patch, {Id}, SecurityGroupId);
    UpdateServerMeans(db, id, patch);
  }

  /**
   * A server created through the handler with a padded group id is in the group, and its first unrelated update
   * takes it out again, although the group is still there.
   */
  lemma PaddedGroupIdIsLost(db: Db, zone: string, group: string, ids: NewIds, patch: Doc)
    requires StoreInv(db)
    requires ids.server != "" && ServerRef(ids.server) !in db.rows
    requires group != "" && Trim(" " + group) == group && GroupRef(group) in db.rows
    requires GroupRef(" " + group) !in db.rows
    requires !NamesGroup(patch)
    ensures var body := NormalizedGroup(map[SecurityGroup := Obj(map[Id := Str(" " + group)])]);
            var created := CreateServer(db, zone, body, ids);
            && created.status == Done
            && GroupColumn(created.db, ids.server) == Some(group)
            && var updated := UpdateServer(created.db, ids.server, patch);
               && updated.status == Done
               && GroupRef(group) in updated.db.rows
               && GroupColumn(updated.db, ids.server) == None
  {
    hide StoreInv, Facts, ActionFacts, ParentFacts, NullableActions, TableFacts, DnsOk, KeysOk, RowsOk, Intact,
      ChildFacts, NamedFacts, Update, PatchMerge, GroupInv, UpdateServer, Insert, PatchedServer, Trim;
    InvParts(db);
    var body := NormalizedGroup(map[SecurityGroup := Obj(map[Id := Str(" " + group)])]);
    var r := ServerRef(ids.server);
    assert ListedIps(body) == [];
    var doc := CreatedServer(zone, body, [], ids);
    ServerInsert(db, zone, body, doc, ids);
    var created := CreateServer(db, zone, body, ids);
    assert created.status == Done;
    assert created.db.rows[r] == Row(ServerColumns(zone, body), doc);
    CreateServerKeeps(db, zone, body, ids);
    PatchedGroupColumn(created.db, ids.server, patch);
  }

  lemma PatchedGroupColumn(db: Db, id: string, patch: Doc)
    requires StoreInv(db) && ServerRef(id) in db.rows && !NamesGroup(patch)
    ensures var out := UpdateServer(db, id, patch);
            && out.status == Done && ServerRef(id) in out.db.rows
            && out.db.rows.Keys == db.rows.Keys
            && GroupColumn(out.db, id) == StoredGroup(db, ShownGroup(db.rows[ServerRef(id)].data))
  {
    hide StoreInv, Facts, ActionFacts, ParentFacts, NullableActions, TableFacts, DnsOk, KeysOk, RowsOk, Intact,
      ChildFacts, NamedFacts, Update, PatchMerge, GroupObject;
    InvParts(db);
    var r := ServerRef(id);
    MergeAt(db.rows[r].data, patch, {Id}, SecurityGroup);
    MergeAt(db.rows[r].data, patch, {Id}, SecurityGroupId);
    UpdateServerMeans(db, id, patch);
  }

  // ---- delete --------------------------------------------------------------------------------------

  lemma DeleteServerGroups(db: Db, id: string)
    requires GroupInv(db)
    ensures GroupInv(DeleteServer(db, id).db)
  {
    hide DetachedIp, RefersBy, GroupInv;
    GroupFrame(db, DeleteServer(db, id).db);
  }

  /**
   * Once a group is deleted no server names it: not in its column, not as security_group_id, and not as what its
   * security_group shows. Its servers lose only that, and servers outside the group are as they were.
   */
  lemma DeleteGroupForgets(db: Db, id: string)
    requires GroupInv(db)
    requires DeleteSecurityGroup(db, id).status == Done
    ensures var next := DeleteSecurityGroup(db, id).db;
            && GroupInv(next)
            && GroupRef(id) !in next.rows
            && (forall r | r in next.rows && r.table == Servers ::
                  && Text(next.rows[r].data, SecurityGroupId) != id
                  && ShownGroup(next.rows[r].data) != id
                  && ColumnValue(next.rows[r], SecurityGroupId) != Some(id))
            && (forall r | r in db.rows && r.table == Servers ::
                  && r in next.rows
                  && next.rows[r] == if ColumnValue(db.rows[r], SecurityGroupId) == Some(id)
                                     then DetachedServer(db.rows[r]) else db.rows[r])
  {
    hide DetachedServer, DeleteSecurityGroup, Reconciling, Shaped, Shown, ShowsTruly, ShownGroup, Text, ColumnValue,
      ShapedGroup, StoredGroup, Trim;
    var next := DeleteSecurityGroup(db, id).db;
    DeletedGroupStored(db, id);
    DeleteGroupAt(db, id, GroupRef(id));
    forall x: string
      ensures GroupRef(x) in next.rows <==> GroupRef(x) in db.rows && x != id
    {
      DeleteGroupAt(db, id, GroupRef(x));
      assert GroupRef(x).key[0] == x && GroupRef(id).key[0] == id;
    }
    forall r: Ref | r.table == Servers
      ensures r in next.rows <==> r in db.rows
      ensures r in next.rows ==> ServerForgets(db, next, id, r)
      ensures r in next.rows ==>
                next.rows[r] == if ColumnValue(db.rows[r], SecurityGroupId) == Some(id)
                                then DetachedServer(db.rows[r]) else db.rows[r]
    {
      DeleteGroupAt(db, id, r);
      if r in db.rows {
        GroupForgotten(db, next, id, r);
      }
    }
    ForgottenEverywhere(next, db, id);
  }

  lemma DeletedGroupStored(db: Db, id: string)
    requires DeleteSecurityGroup(db, id).status == Done
    ensures GroupRef(id) in db.rows
  {
  }

  /** What holds of one server once its group, or another, is gone. */
  ghost predicate ServerForgets(db: Db, next: Db, id: string, r: Ref) {
    && r in next.rows
    && ColumnValue(next.rows[r], SecurityGroupId) == StoredGroup(next, Text(next.rows[r].data, SecurityGroupId))
    && ShapedGroup(next.rows[r].data) && ShowsTruly(next, next.rows[r].data)
    && Text(next.rows[r].data, SecurityGroupId) != id
    && ShownGroup(next.rows[r].data) != id
    && ColumnValue(next.rows[r], SecurityGroupId) != Some(id)
  }

  lemma ForgottenEverywhere(next: Db, db: Db, id: string)
    requires forall r | r in next.rows && r.table == Servers :: ServerForgets(db, next, id, r)
    ensures Reconciling(next) && Shaped(next) && Shown(next)
    ensures forall r | r in next.rows && r.table == Servers ::
              && Text(next.rows[r].data, SecurityGroupId) != id
              && ShownGroup(next.rows[r].data) != id
              && ColumnValue(next.rows[r], SecurityGroupId) != Some(id)
  {
    hide ShowsTruly, ShownGroup, Text, ColumnValue, ShapedGroup, StoredGroup;
  }

  /** What deleting group `id` makes of one row. */
  function AfterGroup(r: Ref, row: Row, id: string): Row {
    if r.table == Servers && RefersBy(row, SecurityGroupId, id) then DetachedServer(row) else row
  }

  /** DeleteSecurityGroup at one row. */
  lemma DeleteGroupAt(db: Db, id: string, r: Ref)
    requires GroupRef(id) in db.rows
    ensures var next := DeleteSecurityGroup(db, id).db;
            && (r in next.rows <==> r in db.rows && r != GroupRef(id))
            && (r in next.rows ==> next.rows[r] == AfterGroup(r, db.rows[r], id))
  {
    hide DetachedServer, RefersBy;
  }

  lemma GroupForgotten(db: Db, next: Db, id: string, r: Ref)
    requires GroupInv(db) && GroupRef(id) in db.rows && r in db.rows && r.table == Servers && r in next.rows
    requires forall x :: GroupRef(x) in next.rows <==> GroupRef(x) in db.rows && x != id
    requires next.rows[r] == AfterGroup(r, db.rows[r], id)
    ensures ServerForgets(db, next, id, r)
  {
    hide Trim;
    ReconcilingAt(db, r);
    assert ShapedGroup(db.rows[r].data) && ShowsTruly(db, db.rows[r].data);
    assert GroupRef(id) in db.rows && id != "";
  }
}
