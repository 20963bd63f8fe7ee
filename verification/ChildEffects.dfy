/** What the calls on dependent rows do: rules, privileges, members, ACLs, frontends and routes, field by field. */
module ChildEffects {
  import opened Wrappers
  import opened Documents
  import opened Relational
  import opened MockwaySchema
  import opened Store
  import opened Dns
  import opened ChildSets

  /** A row without columns, holding what was sent. */
  function Sent(doc: Doc): Row {
    Row(map[], doc)
  }

  // ---- rules -----------------------------------------------------------------------------------------------------

  lemma RuleRowOnly(policy: string, doc: Doc, id: string)
    ensures Differs(Sent(doc), RuleRow(policy, doc, id), map[PolicyId := Some(policy)],
                    map[Id := Str(id), PolicyId := Str(policy)])
  {
  }

  /** SetIAMRules: the i-th rule is the i-th document sent, with its id and its policy, in row and column. */
  lemma RulesSet(db: Db, policy: string, items: seq<Json>, ids: seq<string>, i: nat)
    requires StoreInv(db) && |ids| == |Objects(items)| && NewIdsFor(db, ids) && i < |ids|
    requires Ref(IamPolicies, [policy]) in db.rows
    ensures var next, r := SetRules(db, policy, items, ids).db, Ref(IamRules, [ids[i]]);
            && r in next.rows
            && Differs(Sent(Objects(items)[i]), next.rows[r], map[PolicyId := Some(policy)],
                       map[Id := Str(ids[i]), PolicyId := Str(policy)])
  {
    hide StoreInv, SetRules, NewIdsFor, Installed, Objects, RuleRow, Differs, RuleRows;
    SetRulesExact(db, policy, items, ids);
    RuleRowOnly(policy, Objects(items)[i], ids[i]);
  }

  /** No other rule of the policy is left. */
  lemma RulesOnly(db: Db, policy: string, items: seq<Json>, ids: seq<string>, r: Ref)
    requires StoreInv(db) && |ids| == |Objects(items)| && NewIdsFor(db, ids) && Ref(IamPolicies, [policy]) in db.rows
    requires r in SetRules(db, policy, items, ids).db.rows && r.table == IamRules
    requires ColumnValue(SetRules(db, policy, items, ids).db.rows[r], PolicyId) == Some(policy)
    ensures exists j | 0 <= j < |ids| :: r == Ref(IamRules, [ids[j]])
  {
    hide StoreInv, SetRules, NewIdsFor, Installed, Objects, RuleRow, RuleRows;
    SetRulesExact(db, policy, items, ids);
    assert IsChild(SetRules(db, policy, items, ids).db, r, IamRules, PolicyId, policy);
  }

  /** CreateIAMPolicy: the policy as it was sent, with its id, and its inline rules likewise. */
  lemma PolicyStored(db: Db, id: string, data: Doc, ids: seq<string>, i: nat)
    requires StoreInv(db) && |ids| == |Objects(AsItems(Get(data, Rules)))| && NewIdsFor(db, [id] + ids) && i < |ids|
    requires CreatePolicy(db, id, data, ids).status == Done
    ensures var next, r := CreatePolicy(db, id, data, ids).db, Ref(IamRules, [ids[i]]);
            && r in next.rows
            && Differs(Sent(Objects(AsItems(Get(data, Rules)))[i]), next.rows[r], map[PolicyId := Some(id)],
                       map[Id := Str(ids[i]), PolicyId := Str(id)])
  {
    hide StoreInv, CreatePolicy, NewIdsFor, Objects, RuleRow, Differs, RuleRows, IsChild;
    CreatePolicyKeeps(db, id, data, ids);
    RuleRowOnly(id, Objects(AsItems(Get(data, Rules)))[i], ids[i]);
  }

  // ---- privileges ------------------------------------------------------------------------------------------------

  /** SetRDBPrivileges: each document sent is stored under the instance and its own user and database. */
  lemma PrivilegesSet(db: Db, instance: string, items: seq<Json>, i: nat)
    requires StoreInv(db) && i < |Objects(items)| && SetPrivileges(db, instance, items).status == Done
    ensures var next, doc := SetPrivileges(db, instance, items).db, Objects(items)[i];
            var user, database := AsString(Get(doc, UserName)), AsString(Get(doc, DatabaseName));
            && Ref(RdbPrivileges, [instance, user, database]) in next.rows
            && next.rows[Ref(RdbPrivileges, [instance, user, database])] ==
               Row(map[InstanceId := instance, UserName := user, DatabaseName := database], doc)
  {
    hide StoreInv, SetPrivileges, Objects, Installed, PrivilegeRows;
    SetPrivilegesExact(db, instance, items);
    PrivilegeSent(instance, Objects(items), i);
    InstalledAt(db, SetPrivileges(db, instance, items).db, RdbPrivileges, InstanceId, instance,
                PrivilegeRows(instance, Objects(items)), PrivilegeRef(instance, Objects(items)[i]));
  }

  lemma InstalledAt(db: Db, next: Db, t: Table, c: Name, parent: string, children: map<Ref, Row>, r: Ref)
    requires Installed(db, next, t, c, parent, children) && r in children
    ensures r in next.rows && next.rows[r] == children[r]
  {
    hide IsChild;
  }

  lemma {:induction false} PrivilegeSent(instance: string, docs: seq<Doc>, i: nat)
    requires i < |docs| && !RepeatsPrivilege(instance, docs)
    ensures PrivilegeRef(instance, docs[i]) in PrivilegeRows(instance, docs)
    ensures PrivilegeRows(instance, docs)[PrivilegeRef(instance, docs[i])] == PrivilegeRow(instance, docs[i])
  {
    hide PrivilegeRef, PrivilegeRow;
    var n := |docs| - 1;
    if i < n {
      assert forall a, b | 0 <= a < b < n :: docs[..n][a] == docs[a] && docs[..n][b] == docs[b];
      PrivilegeSent(instance, docs[..n], i);
    }
  }

  /** No other privilege of the instance is left. */
  lemma PrivilegesOnly(db: Db, instance: string, items: seq<Json>, r: Ref)
    requires StoreInv(db) && SetPrivileges(db, instance, items).status == Done
    requires r in SetPrivileges(db, instance, items).db.rows && r.table == RdbPrivileges
    requires ColumnValue(SetPrivileges(db, instance, items).db.rows[r], InstanceId) == Some(instance)
    ensures exists i | 0 <= i < |Objects(items)| ::
              r == Ref(RdbPrivileges, [instance, AsString(Get(Objects(items)[i], UserName)),
                                       AsString(Get(Objects(items)[i], DatabaseName))])
  {
    hide StoreInv, SetPrivileges, Objects, PrivilegeRows;
    SetPrivilegesExact(db, instance, items);
    assert IsChild(SetPrivileges(db, instance, items).db, r, RdbPrivileges, InstanceId, instance);
    var i := PrivilegeRowFrom(instance, Objects(items), r);
    assert r == PrivilegeRef(instance, Objects(items)[i]);
  }

  // ---- members and ACLs ------------------------------------------------------------------------------------------

  /** SetIAMGroupMembers: afterwards a user is in the group exactly when it is listed. */
  lemma MembersSet(db: Db, group: string, users: seq<string>, user: string)
    requires StoreInv(db) && SetMembers(db, group, users).status == Done
    ensures var next, r := SetMembers(db, group, users).db, Ref(IamGroupMembers, [group, user]);
            && (r in next.rows <==> user in users)
            && (r in next.rows ==> next.rows[r] == Row(map[GroupId := group, UserId := user], map[]))
  {
    hide StoreInv, Facts, ActionFacts, ParentFacts, ChildFacts, NamedFacts, NullableActions, TableFacts, Intact, RowsOk,
      DnsOk, SetMembers, Installed;
    SetMembersExact(db, group, users);
    var next, r := SetMembers(db, group, users).db, Ref(IamGroupMembers, [group, user]);
    InvParts(next);
    MemberListed(group, users, user);
    if r in MemberRows(group, users) {
      InstalledAt(db, next, IamGroupMembers, GroupId, group, MemberRows(group, users), r);
    }
    OwnKey(next, r, GroupId, group);
    OnlyInstalled(db, next, IamGroupMembers, GroupId, group, MemberRows(group, users), r);
  }

  lemma OnlyInstalled(db: Db, next: Db, t: Table, c: Name, parent: string, children: map<Ref, Row>, r: Ref)
    requires Installed(db, next, t, c, parent, children)
    ensures IsChild(next, r, t, c, parent) <==> r in children
  {
    hide IsChild;
  }

  lemma MemberListed(group: string, users: seq<string>, user: string)
    ensures var r := Ref(IamGroupMembers, [group, user]);
            && (r in MemberRows(group, users) <==> user in users)
            && (user in users ==> MemberRows(group, users)[r] == Row(map[GroupId := group, UserId := user], map[]))
  {
    var r := Ref(IamGroupMembers, [group, user]);
    assert r.key[1] == user;
    if u :| u in users && MemberRef(group, u) == r {
      assert MemberRef(group, u).key[1] == u;
    }
    assert user in users ==> MemberRef(group, user) == r;
  }

  /** AddIAMGroupMember and RemoveIAMGroupMember, by the membership's own key. */
  lemma MemberAdded(db: Db, group: string, user: string)
    requires StoreInv(db)
    ensures var out, r := AddMember(db, group, user), Ref(IamGroupMembers, [group, user]);
            && (out.status == Done <==> Ref(IamGroups, [group]) in db.rows && Ref(IamUsers, [user]) in db.rows)
            && (out.status == Done && r !in db.rows ==>
                  out.db.rows == db.rows[r := Row(map[GroupId := group, UserId := user], map[])])
            && (out.status != Done || r in db.rows ==> out.db == db)
    ensures RemoveMember(db, group, user).db.rows == db.rows - {Ref(IamGroupMembers, [group, user])}
  {
    hide StoreInv, AddMember, RemoveMember;
    AddMemberKeeps(db, group, user);
    RemoveMemberKeeps(db, group, user);
  }

  /** SetRDBACLs: one row per instance, holding the rules as they were sent. */
  lemma AclsSet(db: Db, instance: string, rules: seq<Json>)
    requires StoreInv(db)
    ensures var r := Ref(RdbAcls, [instance]);
            SetAcls(db, instance, rules) ==
            if Ref(RdbInstances, [instance]) !in db.rows then Outcome(db, Failed(NotFound))
            else
              Outcome(db.(rows := db.rows[r := Row(map[InstanceId := instance], map[Rules := Arr(rules)])]), Done)
    ensures ClearAcls(db, instance) ==
            if Ref(RdbInstances, [instance]) !in db.rows then Outcome(db, Failed(NotFound))
            else Outcome(db.(rows := db.rows - {Ref(RdbAcls, [instance])}), Done)
  {
    hide StoreInv, SetAcls;
    SetAclsKeeps(db, instance, rules);
  }

  // ---- frontends and routes --------------------------------------------------------------------------------------

  /** The reference a document holds is stored, if it holds one. */
  predicate Stands(db: Db, t: Table, id: string) {
    id == "" || Ref(t, [id]) in db.rows
  }

  /** Updating a frontend needs the balancer and the backend it ends with stored. */
  lemma UpdateFrontendStatus(db: Db, id: string, patch: Doc)
    requires StoreInv(db) && db.schema == MOCKWAY && Ref(LbFrontends, [id]) in db.rows
    ensures var before, out := db.rows[Ref(LbFrontends, [id])].data, Patch(db, LbFrontends, [id], patch);
            var lb := AsString(Patched(Get(before, LbId), Get(patch, LbId)));
            var backend := AsString(Patched(Get(before, BackendId), Get(patch, BackendId)));
            && (out.status == Done <==> Stands(db, LbBackends, backend) && Ref(Lbs, [lb]) in db.rows)
            && (out.status != Done ==> out == Outcome(db, Failed(NotFound)))
  {
    hide StoreInv, MOCKWAY, PatchMerge, Patched, Update, Protected, Columns, Column, SourcesOf;
    var before := db.rows[Ref(LbFrontends, [id])].data;
    BalancerPart(db, LbFrontends, id, patch);
    MergeAt(before, patch, {Id}, LbId);
    MergeAt(before, patch, {Id}, BackendId);
  }

  /**
   * Updating a route needs its balancer and both its ends stored; and if the frontend names a balancer, the backend
   * has to be of the same.
   */
  lemma UpdateRouteStatus(db: Db, id: string, patch: Doc)
    requires StoreInv(db) && db.schema == MOCKWAY && Ref(LbRoutes, [id]) in db.rows
    ensures var before, out := db.rows[Ref(LbRoutes, [id])].data, Patch(db, LbRoutes, [id], patch);
            var lb := AsString(Patched(Get(before, LbId), Get(patch, LbId)));
            var frontend := AsString(Patched(Get(before, FrontendId), Get(patch, FrontendId)));
            var backend := AsString(Patched(Get(before, BackendId), Get(patch, BackendId)));
            && (out.status == Done <==>
                  && Stands(db, LbFrontends, frontend) && Stands(db, LbBackends, backend) && Ref(Lbs, [lb]) in db.rows
                  && (frontend != "" && backend != "" ==>
                        var owner := AsString(Get(db.rows[Ref(LbFrontends, [frontend])].data, LbId));
                        owner == "" || AsString(Get(db.rows[Ref(LbBackends, [backend])].data, LbId)) == owner))
            && (out.status != Done ==> out == Outcome(db, Failed(NotFound)))
  {
    hide StoreInv, MOCKWAY, PatchMerge, Patched, Update, Protected, Columns, Column, SourcesOf;
    var before := db.rows[Ref(LbRoutes, [id])].data;
    BalancerPart(db, LbRoutes, id, patch);
    MergeAt(before, patch, {Id}, LbId);
    MergeAt(before, patch, {Id}, FrontendId);
    MergeAt(before, patch, {Id}, BackendId);
  }

  /** The UPDATE itself can only fail for the balancer. */
  lemma BalancerPart(db: Db, t: Table, id: string, patch: Doc)
    requires StoreInv(db) && db.schema == MOCKWAY && t in {LbFrontends, LbRoutes} && Ref(t, [id]) in db.rows
    ensures var next := PatchMerge(db.rows[Ref(t, [id])].data, patch, {Id});
            && Translated(t, PatchMerge(db.rows[Ref(t, [id])].data, patch, Protected(db.schema, t))) == next
            && (UpdateDoc(db, Ref(t, [id]), next).Ok? <==> Ref(Lbs, [AsString(Get(next, LbId))]) in db.rows)
            && (!UpdateDoc(db, Ref(t, [id]), next).Ok? ==> UpdateDoc(db, Ref(t, [id]), next) == Err(NotFound))
  {
    hide StoreInv, Facts, ActionFacts, ChildFacts, NullableActions, TableFacts, RowsOk, DnsOk, KeysOk,
      MOCKWAY, PatchMerge, ParentsExist, Columns, Column, SourcesOf, KeyNamesOf;
    InvParts(db);
    var r, next := Ref(t, [id]), PatchMerge(db.rows[Ref(t, [id])].data, patch, {Id});
    PartSchema(t);
    assert Protected(db.schema, t) == {Id};
    PartColumns(next);
    var row := Row((db.rows[r].cols - {LbId}) + map[LbId := Text(next, LbId)], next);
    PartUpdate(db, r, row, Text(next, LbId));
  }

  lemma PartSchema(t: Table)
    requires t in {LbFrontends, LbRoutes}
    ensures SourcesOf(MOCKWAY, t) == Column(LbId, Plain) && KeyNamesOf(MOCKWAY, t) == [Id]
    ensures t in MOCKWAY.required && MOCKWAY.required[t] == {LbId}
  {
    hide FOREIGN_KEYS;
  }

  lemma PartColumns(next: Doc)
    ensures Columns(Column(LbId, Plain), next, false) == map[LbId := Text(next, LbId)]
    ensures Column(LbId, Plain).Keys == {LbId}
  {
    assert TextAt(next, [LbId]) == Text(next, LbId);
    assert Extract(Source([LbId], Plain), next, false) == Some(Text(next, LbId));
  }

  lemma PartUpdate(db: Db, r: Ref, row: Row, lb: string)
    requires ParentFacts(db.schema.foreignKeys) && NamedFacts(db.schema.foreignKeys) && db.schema == MOCKWAY
    requires r in db.rows && r.table in {LbFrontends, LbRoutes} && LbId in row.cols && row.cols[LbId] == lb
    ensures Update(db, r, row) ==
            if Ref(Lbs, [lb]) in db.rows then Ok(db.(rows := db.rows[r := row])) else Err(NotFound)
  {
    hide MOCKWAY, ParentFacts, NamedFacts;
    PartSchema(r.table);
    PartDeclared(db.schema.foreignKeys);
    var next := db.(rows := db.rows[r := row]);
    var key := if r.table == LbFrontends then FRONTEND_LB else ROUTE_LB;
    assert Uses(next, r, key) && Target(key, row) == Ref(Lbs, [lb]);
    forall fk | fk in db.schema.foreignKeys && Uses(next, r, fk)
      ensures Target(fk, row) == Ref(Lbs, [lb])
    {
      PartKey(db.schema.foreignKeys, fk);
    }
  }

  lemma PartDeclared(fks: set<ForeignKey>)
    requires NamedFacts(fks)
    ensures FRONTEND_LB in fks && ROUTE_LB in fks
  {
  }

  lemma PartKey(fks: set<ForeignKey>, fk: ForeignKey)
    requires ParentFacts(fks) && fk in fks && fk.child in {LbFrontends, LbRoutes}
    ensures fk.parent == Lbs && fk.column == LbId
  {
    assert ByParent(fk);
  }
}
