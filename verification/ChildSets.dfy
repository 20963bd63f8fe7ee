/** The calls that replace a parent's whole set of children in one transaction. */
module ChildSets {
  import opened Wrappers
  import opened Documents
  import opened Relational
  import opened MockwaySchema
  import opened Store
  import opened Instances
  import opened Dns

  /** Row r is a child of the parent: it names it in column c. */
  predicate IsChild(db: Db, r: Ref, t: Table, c: Name, parent: string) {
    r in db.rows && r.table == t && RefersBy(db.rows[r], c, parent)
  }

  /** Every row but the children of one parent. */
  function OtherRows(db: Db, t: Table, c: Name, parent: string): map<Ref, Row> {
    map r | r in db.rows && !IsChild(db, r, t, c, parent) :: db.rows[r]
  }

  /** The store with the children of one parent replaced. */
  function ReplaceChildren(db: Db, t: Table, c: Name, parent: string, children: map<Ref, Row>): Db {
    db.(rows := OtherRows(db, t, c, parent) + children)
  }

  // ---- SetRDBPrivileges --------------------------------------------------------------------------------

  function PrivilegeRef(instance: string, doc: Doc): Ref {
    Ref(RdbPrivileges, [instance, Text(doc, UserName), Text(doc, DatabaseName)])
  }

  function PrivilegeRow(instance: string, doc: Doc): Row {
    Row(map[InstanceId := instance, UserName := Text(doc, UserName), DatabaseName := Text(doc, DatabaseName)], doc)
  }

  /** The rows of a list of privileges, in list order. */
  function PrivilegeRows(instance: string, docs: seq<Doc>): map<Ref, Row> {
    if docs == [] then map[]
    else PrivilegeRows(instance, docs[..|docs| - 1])
           [PrivilegeRef(instance, docs[|docs| - 1]) := PrivilegeRow(instance, docs[|docs| - 1])]
  }

  /** Two entries name the same user and database. */
  predicate RepeatsPrivilege(instance: string, docs: seq<Doc>) {
    exists i, j | 0 <= i < j < |docs| :: PrivilegeRef(instance, docs[i]) == PrivilegeRef(instance, docs[j])
  }

  function SetPrivileges(db: Db, instance: string, items: seq<Json>): Outcome {
    if Ref(RdbInstances, [instance]) !in db.rows then Outcome(db, Failed(NotFound))
    else if RepeatsPrivilege(instance, Objects(items)) then Outcome(db, Failed(Conflict))
    else
      Outcome(ReplaceChildren(db, RdbPrivileges, InstanceId, instance, PrivilegeRows(instance, Objects(items))), Done)
  }

  // ---- SetIAMRules -------------------------------------------------------------------------------------

  function RuleDoc(policy: string, doc: Doc, id: string): Doc {
    doc[Id := Str(id)][PolicyId := Str(policy)]
  }

  function RuleRef(id: string): Ref { Ref(IamRules, [id]) }

  function RuleRow(policy: string, doc: Doc, id: string): Row {
    Row(map[PolicyId := policy], RuleDoc(policy, doc, id))
  }

  function RuleRows(policy: string, docs: seq<Doc>, ids: seq<string>): map<Ref, Row>
    requires |docs| == |ids|
  {
    if docs == [] then map[]
    else
      var n := |docs| - 1;
      RuleRows(policy, docs[..n], ids[..n])
        [RuleRef(ids[n]) := RuleRow(policy, docs[n], ids[n])]
  }

  function SetRules(db: Db, policy: string, items: seq<Json>, ids: seq<string>): Outcome
    requires |ids| == |Objects(items)|
  {
    if Ref(IamPolicies, [policy]) !in db.rows then Outcome(db, Failed(NotFound))
    else Outcome(ReplaceChildren(db, IamRules, PolicyId, policy, RuleRows(policy, Objects(items), ids)), Done)
  }

  // ---- IAM groups --------------------------------------------------------------------------------------

  function MemberRef(group: string, user: string): Ref { Ref(IamGroupMembers, [group, user]) }

  function MemberRow(group: string, user: string): Row {
    Row(map[GroupId := group, UserId := user], map[])
  }

  function MemberRows(group: string, users: seq<string>): map<Ref, Row> {
    map r | r in (set u | u in users :: MemberRef(group, u)) :: Row(map[GroupId := group, UserId := r.key[1]], map[])
  }

  /** A group and a user that can be linked. */
  predicate CanJoin(db: Db, group: string, user: string) {
    Ref(IamGroups, [group]) in db.rows && Ref(IamUsers, [user]) in db.rows
  }

  /** The first INSERT of the list that fails, and how: a repeat breaks the primary key, a missing end the link. */
  function MemberProblem(db: Db, group: string, users: seq<string>): Option<Error> {
    if users == [] then None
    else
      var n := |users| - 1;
      match MemberProblem(db, group, users[..n])
      case Some(e) => Some(e)
      case None =>
        if users[n] in users[..n] then Some(Conflict)
        else if CanJoin(db, group, users[n]) then None
        else Some(NotFound)
  }

  function SetMembers(db: Db, group: string, users: seq<string>): Outcome {
    match MemberProblem(db, group, users)
    case Some(e) => Outcome(db, Failed(e))
    case None =>
      if Ref(IamGroups, [group]) !in db.rows then Outcome(db, Failed(NotFound))
      else Outcome(ReplaceChildren(db, IamGroupMembers, GroupId, group, MemberRows(group, users)), Done)
  }

  /** INSERT OR IGNORE: an existing membership is left alone, a missing end is not-found. */
  function AddMember(db: Db, group: string, user: string): Outcome {
    if MemberRef(group, user) in db.rows then Outcome(db, Done)
    else Single(db, Insert(db, MemberRef(group, user), MemberRow(group, user)))
  }

  function RemoveMember(db: Db, group: string, user: string): Outcome {
    var next := db.(rows := db.rows - {MemberRef(group, user)});
    Outcome(next, if Ref(IamGroups, [group]) in db.rows then Done else Failed(NotFound))
  }

  // ---- rdb ACLs: one row per instance --------------------------------------------------------------------

  function AclRef(instance: string): Ref { Ref(RdbAcls, [instance]) }

  function AclRow(instance: string, rules: seq<Json>): Row {
    Row(map[InstanceId := instance], map[Rules := Arr(rules)])
  }

  /** INSERT ... ON CONFLICT DO UPDATE. */
  function SetAcls(db: Db, instance: string, rules: seq<Json>): Outcome {
    var row := AclRow(instance, rules);
    if AclRef(instance) in db.rows then Single(db, Update(db, AclRef(instance), row))
    else Single(db, Insert(db, AclRef(instance), row))
  }

  function ClearAcls(db: Db, instance: string): Outcome {
    if Ref(RdbInstances, [instance]) !in db.rows then Outcome(db, Failed(NotFound))
    else Outcome(db.(rows := db.rows - {AclRef(instance)}), Done)
  }

  // ---- CreateIAMPolicy: a policy row and its inline rules ------------------------------------------------

  function CreatePolicy(db: Db, id: string, data: Doc, ids: seq<string>): Outcome
    requires |ids| == |Objects(AsItems(Get(data, Rules)))|
  {
    var made := CreateRow(db, Ref(IamPolicies, [id]), map[], data[Id := Str(id)]);
    match made
    case Err(e) => Outcome(db, Failed(e))
    case Ok(next) =>
      Outcome(next.(rows := next.rows + RuleRows(id, Objects(AsItems(Get(data, Rules))), ids)), Done)
  }

  // ---- laws ------------------------------------------------------------------------------------------------

  /** A row that can be a child of a stored parent in one of the three tables. */
  ghost predicate GoodChild(db: Db, r: Ref, row: Row, t: Table) {
    && r.table == t && RowOk(db.schema, r, row) && KeyInColumns(r, row) && RequiredPresent(db.schema, r, row)
    && forall fk | fk in db.schema.foreignKeys && fk.child == t && fk.column in row.cols :: Target(fk, row) in db.rows
  }

  lemma OtherRowAt(db: Db, t: Table, c: Name, parent: string, r: Ref)
    ensures r in OtherRows(db, t, c, parent) <==> r in db.rows && !IsChild(db, r, t, c, parent)
    ensures r in OtherRows(db, t, c, parent) ==> OtherRows(db, t, c, parent)[r] == db.rows[r]
  {
    hide IsChild;
  }

  lemma ReplaceAt(db: Db, t: Table, c: Name, parent: string, children: map<Ref, Row>, r: Ref)
    ensures var next := ReplaceChildren(db, t, c, parent, children);
            && (r in next.rows <==> r in children || (r in db.rows && !IsChild(db, r, t, c, parent)))
            && (r in children ==> next.rows[r] == children[r])
            && (r in next.rows && r !in children ==> next.rows[r] == db.rows[r])
            && next.schema == db.schema
  {
    hide IsChild, OtherRows;
    OtherRowAt(db, t, c, parent, r);
  }

  lemma ChildTable(db: Db, t: Table, c: Name, parent: string)
    ensures forall r | IsChild(db, r, t, c, parent) :: r.table == t
  {
  }

  lemma ReplaceRowHolds(db: Db, next: Db, r: Ref, t: Table)
    requires ParentFacts(db.schema.foreignKeys) && t !in PARENTS && next.schema == db.schema
    requires forall q | q in db.rows && q.table != t :: q in next.rows
    requires r in next.rows
    requires (r in db.rows && next.rows[r] == db.rows[r] && ParentsExist(db, r)) || GoodChild(db, r, next.rows[r], t)
    ensures ParentsExist(next, r)
  {
    hide RowOk, KeyInColumns, RequiredPresent, ParentFacts, PARENTS;
    forall fk | fk in next.schema.foreignKeys && Uses(next, r, fk)
      ensures Target(fk, next.rows[r]) in next.rows
    {
      ParentTable(db.schema.foreignKeys, fk);
      if !GoodChild(db, r, next.rows[r], t) {
        assert Uses(db, r, fk);
      }
    }
  }

  /** Every row of the new store is fit for it. */
  lemma ReplacedRow(db: Db, t: Table, c: Name, parent: string, children: map<Ref, Row>, r: Ref)
    requires StoreInv(db) && t in {RdbPrivileges, IamRules, IamGroupMembers}
    requires forall r | r in children :: GoodChild(db, r, children[r], t)
    requires r in ReplaceChildren(db, t, c, parent, children).rows
    ensures var next := ReplaceChildren(db, t, c, parent, children);
            && ParentsExist(next, r) && RequiredPresent(next.schema, r, next.rows[r])
            && RowOk(next.schema, r, next.rows[r]) && KeyInColumns(r, next.rows[r])
            && (r.table != t ==> r in db.rows && next.rows[r] == db.rows[r])
  {
    hide StoreInv, Facts, ActionFacts, ParentFacts, ChildFacts, NamedFacts, NullableActions, TableFacts, DnsOk, RowOk,
      KeyInColumns, RequiredPresent, ParentsExist, ReplaceChildren, IsChild;
    InvParts(db);
    var next := ReplaceChildren(db, t, c, parent, children);
    OthersStay(db, t, c, parent, children);
    ReplaceAt(db, t, c, parent, children, r);
    ReplaceRowHolds(db, next, r, t);
  }

  lemma OthersStay(db: Db, t: Table, c: Name, parent: string, children: map<Ref, Row>)
    ensures var next := ReplaceChildren(db, t, c, parent, children);
            && next.schema == db.schema
            && forall q | q in db.rows && q.table != t && q !in children :: q in next.rows && next.rows[q] == db.rows[q]
    ensures (forall r | r in children :: r.table == t) ==>
              forall q | q in db.rows && q.table != t :: q in ReplaceChildren(db, t, c, parent, children).rows
  {
    hide ReplaceChildren, IsChild;
    var next := ReplaceChildren(db, t, c, parent, children);
    ReplaceAt(db, t, c, parent, children, Ref(t, []));
    ChildTable(db, t, c, parent);
    forall q | q in db.rows && q.table != t
      ensures q in next.rows && (q !in children ==> next.rows[q] == db.rows[q])
    {
      ReplaceAt(db, t, c, parent, children, q);
    }
  }

  lemma ReplaceKeeps(db: Db, t: Table, c: Name, parent: string, children: map<Ref, Row>)
    requires StoreInv(db) && t in {RdbPrivileges, IamRules, IamGroupMembers}
    requires forall r | r in children :: GoodChild(db, r, children[r], t)
    ensures var next := ReplaceChildren(db, t, c, parent, children);
            StoreInv(next) && ChangesOnly(db, next, {t})
  {
    hide StoreInv, Facts, ActionFacts, ParentFacts, ChildFacts, NamedFacts, NullableActions, TableFacts, DnsOk, RowOk,
      KeyInColumns, RequiredPresent, ParentsExist, ReplaceChildren;
    InvParts(db);
    var next := ReplaceChildren(db, t, c, parent, children);
    OthersStay(db, t, c, parent, children);
    forall r | r in next.rows
      ensures ParentsExist(next, r) && RequiredPresent(next.schema, r, next.rows[r])
      ensures RowOk(next.schema, r, next.rows[r]) && KeyInColumns(r, next.rows[r])
      ensures r.table != t ==> r in db.rows && next.rows[r] == db.rows[r]
    {
      ReplacedRow(db, t, c, parent, children, r);
    }
    assert ChangesOnly(db, next, {t});
    SameDns(db, next);
    InvWhole(next);
  }

  lemma SameDns(db: Db, next: Db)
    requires DnsOk(db) && SameTable(db, next, DnsZones) && SameTable(db, next, DomainRecords)
    ensures DnsOk(next)
  {
    hide ZoneKey;
  }

  /** The parent's children are afterwards exactly the given ones, and no other row has changed. */
  ghost predicate Installed(db: Db, next: Db, t: Table, c: Name, parent: string, children: map<Ref, Row>) {
    && (forall r | r in children :: r in next.rows && next.rows[r] == children[r])
    && (forall r :: IsChild(next, r, t, c, parent) <==> r in children)
    && (forall r | r in db.rows && !IsChild(db, r, t, c, parent) :: r in next.rows && next.rows[r] == db.rows[r])
    && (forall r | r in next.rows && r !in children :: r in db.rows && next.rows[r] == db.rows[r])
  }

  lemma ReplaceInstallsAt(db: Db, t: Table, c: Name, parent: string, children: map<Ref, Row>, r: Ref)
    requires r in children ==> r.table == t && RefersBy(children[r], c, parent)
    requires r in children ==> r in db.rows ==> IsChild(db, r, t, c, parent)
    ensures var next := ReplaceChildren(db, t, c, parent, children);
            && (r in children ==> r in next.rows && next.rows[r] == children[r])
            && (IsChild(next, r, t, c, parent) <==> r in children)
            && (r in db.rows && !IsChild(db, r, t, c, parent) ==> r in next.rows && next.rows[r] == db.rows[r])
            && (r in next.rows && r !in children ==> r in db.rows && next.rows[r] == db.rows[r])
  {
    hide ReplaceChildren, RefersBy;
    ReplaceAt(db, t, c, parent, children, r);
  }

  lemma ReplaceInstalls(db: Db, t: Table, c: Name, parent: string, children: map<Ref, Row>)
    requires forall r | r in children :: r.table == t && RefersBy(children[r], c, parent)
    requires forall r | r in children :: r in db.rows ==> IsChild(db, r, t, c, parent)
    ensures Installed(db, ReplaceChildren(db, t, c, parent, children), t, c, parent, children)
  {
    hide ReplaceChildren, RefersBy, IsChild;
    var next := ReplaceChildren(db, t, c, parent, children);
    forall r
      ensures r in children ==> r in next.rows && next.rows[r] == children[r]
      ensures IsChild(next, r, t, c, parent) <==> r in children
      ensures r in db.rows && !IsChild(db, r, t, c, parent) ==> r in next.rows && next.rows[r] == db.rows[r]
      ensures r in next.rows && r !in children ==> r in db.rows && next.rows[r] == db.rows[r]
    {
      ReplaceInstallsAt(db, t, c, parent, children, r);
    }
  }

  // ---- privileges ------------------------------------------------------------------------------------------

  lemma PrivilegeGood(db: Db, instance: string, doc: Doc)
    requires TableFacts(db.schema) && ChildFacts(db.schema.foreignKeys) && Ref(RdbInstances, [instance]) in db.rows
    ensures GoodChild(db, PrivilegeRef(instance, doc), PrivilegeRow(instance, doc), RdbPrivileges)
  {
    hide TableFacts, ChildFacts, RowOk, RequiredPresent, KeyInColumns;
    var r, row := PrivilegeRef(instance, doc), PrivilegeRow(instance, doc);
    PrivilegeRowOk(db.schema, r, row, doc);
    PrivilegeKey(instance, doc);
    forall fk | fk in db.schema.foreignKeys && fk.child == RdbPrivileges
      ensures fk == PRIVILEGE_INSTANCE
    {
      PrivilegeParent(db.schema.foreignKeys, fk);
    }
  }

  lemma PrivilegeKey(instance: string, doc: Doc)
    ensures KeyInColumns(PrivilegeRef(instance, doc), PrivilegeRow(instance, doc))
  {
  }

  lemma PrivilegeParent(fks: set<ForeignKey>, fk: ForeignKey)
    requires ChildFacts(fks) && fk in fks && fk.child == RdbPrivileges
    ensures fk == PRIVILEGE_INSTANCE
  {
    assert ByChild(fk);
  }

  lemma PrivilegeRowOk(schema: Schema, r: Ref, row: Row, doc: Doc)
    requires TableFacts(schema) && r.table == RdbPrivileges
    requires ColumnValue(row, UserName) == Some(Text(doc, UserName)) && row.data == doc
    requires ColumnValue(row, DatabaseName) == Some(Text(doc, DatabaseName)) && InstanceId in row.cols
    ensures RowOk(schema, r, row) && RequiredPresent(schema, r, row)
  {
    assert KeyNamesOf(schema, RdbPrivileges) == [];
    assert SourcesOf(schema, RdbPrivileges) == Column(UserName, Plain) + Column(DatabaseName, Plain);
  }

  /** Every row of a privilege list is one of its entries. */
  lemma PrivilegeRowFrom(instance: string, docs: seq<Doc>, r: Ref) returns (i: nat)
    requires r in PrivilegeRows(instance, docs)
    ensures i < |docs| && r == PrivilegeRef(instance, docs[i])
    ensures PrivilegeRows(instance, docs)[r] == PrivilegeRow(instance, docs[i])
  {
    hide PrivilegeRef, PrivilegeRow;
    i := |docs| - 1;
    if r != PrivilegeRef(instance, docs[i]) {
      var j := PrivilegeRowFrom(instance, docs[..i], r);
      i := j;
    }
  }

  /** Without repeats, every entry of the list has its row. */
  lemma PrivilegeRowOf(instance: string, docs: seq<Doc>, i: nat)
    requires i < |docs| && !RepeatsPrivilege(instance, docs)
    ensures PrivilegeRef(instance, docs[i]) in PrivilegeRows(instance, docs)
    ensures PrivilegeRows(instance, docs)[PrivilegeRef(instance, docs[i])] == PrivilegeRow(instance, docs[i])
  {
    hide PrivilegeRef, PrivilegeRow;
    if i < |docs| - 1 {
      assert !RepeatsPrivilege(instance, docs[..|docs| - 1]);
      PrivilegeRowOf(instance, docs[..|docs| - 1], i);
    }
  }

  /**
   * SetRDBPrivileges installs exactly the requested privileges of the instance, or fails and changes nothing: a
   * missing instance is not-found, a repeated user and database is a conflict.
   */
  lemma SetPrivilegesExact(db: Db, instance: string, items: seq<Json>)
    requires StoreInv(db)
    ensures var out := SetPrivileges(db, instance, items);
            var docs := Objects(items);
            && StoreInv(out.db) && ChangesOnly(db, out.db, {RdbPrivileges})
            && (out.status == Failed(NotFound) <==> Ref(RdbInstances, [instance]) !in db.rows)
            && (out.status == Failed(Conflict) <==>
                Ref(RdbInstances, [instance]) in db.rows && RepeatsPrivilege(instance, docs))
            && (out.status != Done ==> out.db == db)
            && (out.status == Done ==>
                  Installed(db, out.db, RdbPrivileges, InstanceId, instance, PrivilegeRows(instance, docs)))
  {
    hide StoreInv, Facts, ActionFacts, ParentFacts, ChildFacts, NamedFacts, NullableActions, TableFacts, Intact, RowsOk,
      DnsOk, KeysOk, GoodChild, ReplaceChildren, PrivilegeRows, RepeatsPrivilege, Installed;
    InvParts(db);
    if SetPrivileges(db, instance, items).status == Done {
      PrivilegesGood(db, instance, Objects(items));
      ReplaceKeeps(db, RdbPrivileges, InstanceId, instance, PrivilegeRows(instance, Objects(items)));
      ReplaceInstalls(db, RdbPrivileges, InstanceId, instance, PrivilegeRows(instance, Objects(items)));
    }
  }

  lemma PrivilegesGood(db: Db, instance: string, docs: seq<Doc>)
    requires TableFacts(db.schema) && ChildFacts(db.schema.foreignKeys) && KeysOk(db)
    requires Ref(RdbInstances, [instance]) in db.rows
    ensures forall r | r in PrivilegeRows(instance, docs) ::
              && GoodChild(db, r, PrivilegeRows(instance, docs)[r], RdbPrivileges)
              && r.table == RdbPrivileges && RefersBy(PrivilegeRows(instance, docs)[r], InstanceId, instance)
              && (r in db.rows ==> IsChild(db, r, RdbPrivileges, InstanceId, instance))
  {
    hide TableFacts, ChildFacts, GoodChild, PrivilegeRows, KeysOk, IsChild;
    var children := PrivilegeRows(instance, docs);
    forall r | r in children
      ensures GoodChild(db, r, children[r], RdbPrivileges)
      ensures r.table == RdbPrivileges && RefersBy(children[r], InstanceId, instance)
      ensures r in db.rows ==> IsChild(db, r, RdbPrivileges, InstanceId, instance)
    {
      var i := PrivilegeRowFrom(instance, docs, r);
      PrivilegeGood(db, instance, docs[i]);
      OwnKey(db, r, InstanceId, instance);
    }
  }

  /** A stored row whose key starts with the parent's id is a child of that parent. */
  lemma OwnKey(db: Db, r: Ref, c: Name, parent: string)
    requires KeysOk(db) && r.table in {RdbPrivileges, IamGroupMembers} && |r.key| > 0 && r.key[0] == parent
    requires c == KeyColumns(r.table)[0]
    ensures r in db.rows ==> IsChild(db, r, r.table, c, parent)
  {
    if r in db.rows {
      assert KeyInColumns(r, db.rows[r]);
    }
  }

  // ---- rules -------------------------------------------------------------------------------------------------

  lemma RuleGood(db: Db, policy: string, doc: Doc, id: string)
    requires TableFacts(db.schema) && ChildFacts(db.schema.foreignKeys) && Ref(IamPolicies, [policy]) in db.rows
    ensures GoodChild(db, RuleRef(id), RuleRow(policy, doc, id), IamRules)
  {
    var r, row := RuleRef(id), RuleRow(policy, doc, id);
    assert RowOk(db.schema, r, row) && RequiredPresent(db.schema, r, row) by {
      hide ChildFacts;
      assert KeyNamesOf(db.schema, IamRules) == [Id];
      assert SourcesOf(db.schema, IamRules) == Column(PolicyId, Plain);
    }
    hide TableFacts, RowOk, RequiredPresent;
    forall fk | fk in db.schema.foreignKeys && fk.child == IamRules
      ensures fk == RULE_POLICY
    {
      assert ByChild(fk);
    }
  }

  /** Every row of a rule list is one of its entries. */
  lemma RuleRowFrom(policy: string, docs: seq<Doc>, ids: seq<string>, r: Ref) returns (i: nat)
    requires |docs| == |ids| && r in RuleRows(policy, docs, ids)
    ensures i < |docs| && r == RuleRef(ids[i]) && RuleRows(policy, docs, ids)[r] == RuleRow(policy, docs[i], ids[i])
  {
    hide RuleRow, RuleRef;
    i := |docs| - 1;
    if r != RuleRef(ids[i]) {
      var j := RuleRowFrom(policy, docs[..i], ids[..i], r);
      i := j;
    }
  }

  /** Under distinct ids every entry of the list has its row. */
  lemma RuleRowOf(policy: string, docs: seq<Doc>, ids: seq<string>, i: nat)
    requires |docs| == |ids| && i < |docs|
    requires forall a, b | 0 <= a < b < |ids| :: ids[a] != ids[b]
    ensures RuleRef(ids[i]) in RuleRows(policy, docs, ids)
    ensures RuleRows(policy, docs, ids)[RuleRef(ids[i])] == RuleRow(policy, docs[i], ids[i])
  {
    hide RuleRow;
    if i < |docs| - 1 {
      RuleRowOf(policy, docs[..|docs| - 1], ids[..|ids| - 1], i);
    }
  }

  /** The policy's rules are one row per document, each under its own id, and no others. */
  ghost predicate HasRules(db: Db, policy: string, docs: seq<Doc>, ids: seq<string>)
    requires |docs| == |ids|
  {
    && (forall i | 0 <= i < |ids| ::
          RuleRef(ids[i]) in db.rows && db.rows[RuleRef(ids[i])] == RuleRow(policy, docs[i], ids[i]))
    && (forall r | IsChild(db, r, IamRules, PolicyId, policy) :: exists i | 0 <= i < |ids| :: r == RuleRef(ids[i]))
  }

  lemma RulesInstalled(db: Db, policy: string, docs: seq<Doc>, ids: seq<string>)
    requires |docs| == |ids| && forall a, b | 0 <= a < b < |ids| :: ids[a] != ids[b]
    requires forall r :: IsChild(db, r, IamRules, PolicyId, policy) <==> r in RuleRows(policy, docs, ids)
    requires forall r | r in RuleRows(policy, docs, ids) :: r in db.rows && db.rows[r] == RuleRows(policy, docs, ids)[r]
    ensures HasRules(db, policy, docs, ids)
  {
    hide RuleRow, RuleRows, RuleRef, IsChild;
    forall i | 0 <= i < |ids|
      ensures RuleRef(ids[i]) in db.rows && db.rows[RuleRef(ids[i])] == RuleRow(policy, docs[i], ids[i])
    {
      RuleRowOf(policy, docs, ids, i);
    }
    forall r | IsChild(db, r, IamRules, PolicyId, policy)
      ensures exists i | 0 <= i < |ids| :: r == RuleRef(ids[i])
    {
      var i := RuleRowFrom(policy, docs, ids, r);
    }
  }

  lemma RulesGood(db: Db, policy: string, docs: seq<Doc>, ids: seq<string>)
    requires |docs| == |ids| && TableFacts(db.schema) && ChildFacts(db.schema.foreignKeys)
    requires Ref(IamPolicies, [policy]) in db.rows
    ensures forall r | r in RuleRows(policy, docs, ids) ::
              && GoodChild(db, r, RuleRows(policy, docs, ids)[r], IamRules)
              && r.table == IamRules && RefersBy(RuleRows(policy, docs, ids)[r], PolicyId, policy)
  {
    hide TableFacts, ChildFacts, GoodChild, RuleRows, RuleDoc;
    var children := RuleRows(policy, docs, ids);
    forall r | r in children
      ensures GoodChild(db, r, children[r], IamRules)
      ensures r.table == IamRules && RefersBy(children[r], PolicyId, policy)
    {
      var i := RuleRowFrom(policy, docs, ids, r);
      RuleGood(db, policy, docs[i], ids[i]);
    }
  }

  lemma RulesUnstored(db: Db, policy: string, docs: seq<Doc>, ids: seq<string>)
    requires |docs| == |ids| && NewIdsFor(db, ids)
    ensures forall r | r in RuleRows(policy, docs, ids) :: r !in db.rows
  {
    hide RuleRows, RuleDoc, NewIdsFor;
    forall r | r in RuleRows(policy, docs, ids)
      ensures r !in db.rows
    {
      var i := RuleRowFrom(policy, docs, ids, r);
      NewIdUnstored(db, ids, i, IamRules);
    }
  }

  lemma NewIdsDistinct(db: Db, ids: seq<string>)
    requires NewIdsFor(db, ids)
    ensures forall a, b | 0 <= a < b < |ids| :: ids[a] != ids[b]
  {
    hide Fresh;
  }

  lemma NewIdUnstored(db: Db, ids: seq<string>, i: nat, t: Table)
    requires NewIdsFor(db, ids) && i < |ids|
    ensures Ref(t, [ids[i]]) !in db.rows
  {
    hide NewIdsFor;
    var r := Ref(t, [ids[i]]);
    assert ids[i] in r.key;
    if r in db.rows {
      NewIdUnused(db, ids, i, r);
    }
  }

  /** SetIAMRules installs exactly the requested rules of a stored policy; nothing can make it conflict. */
  lemma SetRulesExact(db: Db, policy: string, items: seq<Json>, ids: seq<string>)
    requires StoreInv(db) && |ids| == |Objects(items)| && NewIdsFor(db, ids)
    ensures var out := SetRules(db, policy, items, ids);
            && StoreInv(out.db) && ChangesOnly(db, out.db, {IamRules})
            && out.status == (if Ref(IamPolicies, [policy]) in db.rows then Done else Failed(NotFound))
            && (out.status != Done ==> out.db == db)
            && (out.status == Done ==>
                  && HasRules(out.db, policy, Objects(items), ids)
                  && Installed(db, out.db, IamRules, PolicyId, policy, RuleRows(policy, Objects(items), ids)))
  {
    hide StoreInv, Facts, ActionFacts, ParentFacts, ChildFacts, NamedFacts, NullableActions, TableFacts, Intact, RowsOk,
      DnsOk, KeysOk, GoodChild, ReplaceChildren, RuleRows, Installed, NewIdsFor, HasRules, IsChild;
    InvParts(db);
    if Ref(IamPolicies, [policy]) in db.rows {
      RulesGood(db, policy, Objects(items), ids);
      RulesUnstored(db, policy, Objects(items), ids);
      ReplaceKeeps(db, IamRules, PolicyId, policy, RuleRows(policy, Objects(items), ids));
      ReplaceInstalls(db, IamRules, PolicyId, policy, RuleRows(policy, Objects(items), ids));
      NewIdsDistinct(db, ids);
      InstalledRules(db, SetRules(db, policy, items, ids).db, policy, Objects(items), ids);
    }
  }

  lemma InstalledRules(db: Db, next: Db, policy: string, docs: seq<Doc>, ids: seq<string>)
    requires |docs| == |ids| && forall a, b | 0 <= a < b < |ids| :: ids[a] != ids[b]
    requires Installed(db, next, IamRules, PolicyId, policy, RuleRows(policy, docs, ids))
    ensures HasRules(next, policy, docs, ids)
  {
    hide RuleRows, IsChild, HasRules;
    RulesInstalled(next, policy, docs, ids);
  }

  /** CreateIAMPolicy stores the policy and its inline rules, or nothing. */
  lemma CreatePolicyKeeps(db: Db, id: string, data: Doc, ids: seq<string>)
    requires StoreInv(db) && |ids| == |Objects(AsItems(Get(data, Rules)))| && NewIdsFor(db, [id] + ids)
    ensures var out := CreatePolicy(db, id, data, ids);
            && StoreInv(out.db) && ChangesOnly(db, out.db, {IamPolicies, IamRules})
            && (out.status != Done ==> out.db == db)
            && (out.status == Done ==>
                  var rules := RuleRows(id, Objects(AsItems(Get(data, Rules))), ids);
                  && Ref(IamPolicies, [id]) in out.db.rows
                  && HasRules(out.db, id, Objects(AsItems(Get(data, Rules))), ids)
                  && (forall r :: IsChild(out.db, r, IamRules, PolicyId, id) <==> r in rules)
                  && (forall r | r in rules :: r in out.db.rows && out.db.rows[r] == rules[r])
                  && (forall r | r in db.rows :: r in out.db.rows && out.db.rows[r] == db.rows[r]))
  {
    hide StoreInv, Facts, ActionFacts, ParentFacts, ChildFacts, NamedFacts, NullableActions, TableFacts, Intact, RowsOk,
      DnsOk, KeysOk, GoodChild, RuleRows, NewIdsFor, CreateRow, Objects, Installed, IsChild, HasRules;
    PolicyRow(db, id, data);
    var made := CreateRow(db, Ref(IamPolicies, [id]), map[], data[Id := Str(id)]);
    if made.Ok? {
      assert ([id] + ids)[0] == id;
      NewIdUnstored(db, [id] + ids, 0, IamPolicies);
      RulesApart(id, Objects(AsItems(Get(data, Rules))), ids);
      AddRules(db, made.value, id, Objects(AsItems(Get(data, Rules))), ids);
      PolicyAndRules(db, made.value, id, RuleRows(id, Objects(AsItems(Get(data, Rules))), ids));
      RestOfNewIds(db, id, ids);
      NewIdsDistinct(db, ids);
      RulesInstalled(CreatePolicy(db, id, data, ids).db, id, Objects(AsItems(Get(data, Rules))), ids);
    }
  }

  lemma PolicyAndRules(db: Db, made: Db, id: string, rules: map<Ref, Row>)
    requires Installed(made, made.(rows := made.rows + rules), IamRules, PolicyId, id, rules)
    requires Ref(IamPolicies, [id]) in made.rows && Ref(IamPolicies, [id]) !in db.rows
    requires made.rows == db.rows[Ref(IamPolicies, [id]) := made.rows[Ref(IamPolicies, [id])]]
    requires forall r | r in rules :: r !in made.rows && r.table == IamRules
    ensures var last := made.(rows := made.rows + rules);
            && Ref(IamPolicies, [id]) in last.rows
            && (forall r :: IsChild(last, r, IamRules, PolicyId, id) <==> r in rules)
            && (forall r | r in rules :: r in last.rows && last.rows[r] == rules[r])
            && (forall r | r in db.rows :: r in last.rows && last.rows[r] == db.rows[r])
  {
    hide IsChild;
  }

  lemma PolicyRow(db: Db, id: string, data: Doc)
    requires StoreInv(db)
    ensures var made := CreateRow(db, Ref(IamPolicies, [id]), map[], data[Id := Str(id)]);
            made.Ok? ==>
              && StoreInv(made.value) && ChangesOnly(db, made.value, {IamPolicies})
              && Ref(IamPolicies, [id]) in made.value.rows
              && made.value.rows == db.rows[Ref(IamPolicies, [id]) := made.value.rows[Ref(IamPolicies, [id])]]
  {
    hide StoreInv, Facts, ActionFacts, ParentFacts, ChildFacts, NamedFacts, NullableActions, TableFacts, Intact, RowsOk,
      DnsOk, KeysOk, CreateRow;
    InvParts(db);
    var doc := data[Id := Str(id)];
    var made := CreateRow(db, Ref(IamPolicies, [id]), map[], doc);
    PolicyKeyNames(db.schema);
    CreateRowKeeps(db, Ref(IamPolicies, [id]), map[], doc);
    if made.Ok? {
      StoreFrame(db, made.value, {IamPolicies});
    }
  }

  lemma AddRules(db: Db, next: Db, id: string, docs: seq<Doc>, ids: seq<string>)
    requires StoreInv(next) && |docs| == |ids| && NewIdsFor(db, [id] + ids) && ChangesOnly(db, next, {IamPolicies})
    requires Ref(IamPolicies, [id]) in next.rows
    requires next.rows == db.rows[Ref(IamPolicies, [id]) := next.rows[Ref(IamPolicies, [id])]]
    ensures var last := next.(rows := next.rows + RuleRows(id, docs, ids));
            && StoreInv(last) && ChangesOnly(db, last, {IamPolicies, IamRules})
            && Installed(next, last, IamRules, PolicyId, id, RuleRows(id, docs, ids))
            && forall r | r in RuleRows(id, docs, ids) :: r !in next.rows
  {
    hide StoreInv, Facts, ActionFacts, ParentFacts, ChildFacts, NamedFacts, NullableActions, TableFacts, Intact, RowsOk,
      DnsOk, KeysOk, GoodChild, RuleRows, NewIdsFor, RefersBy, Installed, SameTable;
    InvParts(next);
    var rules := RuleRows(id, docs, ids);
    RulesGood(next, id, docs, ids);
    NoRulesYet(db, next, id, ids);
    ReplaceNothing(next, id, rules);
    ReplaceKeeps(next, IamRules, PolicyId, id, rules);
    RestOfNewIds(db, id, ids);
    RulesUnstored(db, id, docs, ids);
    RulesApart(id, docs, ids);
    ReplaceInstalls(next, IamRules, PolicyId, id, rules);
    ChangesOnward(db, next, next.(rows := next.rows + rules), {IamPolicies}, {IamRules});
    assert {IamPolicies} + {IamRules} == {IamPolicies, IamRules};
  }

  lemma RestOfNewIds(db: Db, id: string, ids: seq<string>)
    requires NewIdsFor(db, [id] + ids)
    ensures NewIdsFor(db, ids)
  {
    hide Fresh;
    var all := [id] + ids;
    forall i, j | 0 <= i < j < |ids|
      ensures ids[i] != ids[j]
    {
      assert all[i + 1] == ids[i] && all[j + 1] == ids[j];
    }
    forall i | 0 <= i < |ids|
      ensures Fresh(db, ids[i])
    {
      assert all[i + 1] == ids[i];
    }
  }

  lemma RulesApart(policy: string, docs: seq<Doc>, ids: seq<string>)
    requires |docs| == |ids|
    ensures forall r | r in RuleRows(policy, docs, ids) :: r.table == IamRules
  {
    hide RuleRow;
    forall r | r in RuleRows(policy, docs, ids)
      ensures r.table == IamRules
    {
      var i := RuleRowFrom(policy, docs, ids, r);
    }
  }

  lemma ReplaceNothing(db: Db, id: string, rules: map<Ref, Row>)
    requires forall r :: !IsChild(db, r, IamRules, PolicyId, id)
    ensures ReplaceChildren(db, IamRules, PolicyId, id, rules) == db.(rows := db.rows + rules)
  {
    hide IsChild;
    assert OtherRows(db, IamRules, PolicyId, id) == db.rows;
  }

  /** A new policy has no rules. */
  lemma NoRulesYet(db: Db, next: Db, id: string, ids: seq<string>)
    requires NewIdsFor(db, [id] + ids)
    requires Ref(IamPolicies, [id]) in next.rows
    requires next.rows == db.rows[Ref(IamPolicies, [id]) := next.rows[Ref(IamPolicies, [id])]]
    ensures forall r :: !IsChild(next, r, IamRules, PolicyId, id)
  {
    hide MentionsDoc;
    assert Fresh(db, ([id] + ids)[0]);
    forall r | r in db.rows && r.table == IamRules
      ensures ColumnValue(db.rows[r], PolicyId) != Some(id)
    {
      if PolicyId in db.rows[r].cols {
        assert db.rows[r].cols[PolicyId] in db.rows[r].cols.Values;
      }
    }
  }

  lemma PolicyKeyNames(schema: Schema)
    requires TableFacts(schema)
    ensures KeyNamesOf(schema, IamPolicies) == [Id]
  {
  }

  // ---- group members -----------------------------------------------------------------------------------------

  lemma MemberGood(db: Db, group: string, user: string)
    requires TableFacts(db.schema) && ChildFacts(db.schema.foreignKeys) && CanJoin(db, group, user)
    ensures GoodChild(db, MemberRef(group, user), MemberRow(group, user), IamGroupMembers)
  {
    var r, row := MemberRef(group, user), MemberRow(group, user);
    assert RowOk(db.schema, r, row) && RequiredPresent(db.schema, r, row) by {
      hide ChildFacts;
      assert KeyNamesOf(db.schema, IamGroupMembers) == [];
      assert SourcesOf(db.schema, IamGroupMembers) == map[];
    }
    assert KeyInColumns(r, row) by {
      hide TableFacts, ChildFacts;
    }
    hide TableFacts, RowOk, RequiredPresent, KeyInColumns;
    forall fk | fk in db.schema.foreignKeys && fk.child == IamGroupMembers
      ensures fk == MEMBER_GROUP || fk == MEMBER_USER
    {
      assert ByChild(fk);
    }
  }

  lemma MemberRowFrom(group: string, users: seq<string>, r: Ref) returns (u: string)
    requires r in MemberRows(group, users)
    ensures u in users && r == MemberRef(group, u) && MemberRows(group, users)[r] == MemberRow(group, u)
  {
    u :| u in users && r == MemberRef(group, u);
  }

  /** No problem: no repeats, and every listed user and the group exist. */
  lemma NoMemberProblem(db: Db, group: string, users: seq<string>)
    ensures MemberProblem(db, group, users) == None <==>
              && (forall i, j | 0 <= i < j < |users| :: users[i] != users[j])
              && (forall u | u in users :: CanJoin(db, group, u))
  {
    hide CanJoin;
    if users != [] {
      var n := |users| - 1;
      NoMemberProblem(db, group, users[..n]);
      assert forall u :: u in users <==> u in users[..n] || u == users[n];
      NoRepeats(users);
    }
  }

  /** No repeats: none before the last, and the last is new. */
  lemma NoRepeats(users: seq<string>)
    requires users != []
    ensures (forall i, j | 0 <= i < j < |users| :: users[i] != users[j]) <==>
            var n := |users| - 1;
            users[n] !in users[..n] && forall i, j | 0 <= i < j < n :: users[..n][i] != users[..n][j]
  {
  }

  lemma MembersGood(db: Db, group: string, users: seq<string>)
    requires TableFacts(db.schema) && ChildFacts(db.schema.foreignKeys) && KeysOk(db)
    requires forall u | u in users :: CanJoin(db, group, u)
    ensures forall r | r in MemberRows(group, users) ::
              && GoodChild(db, r, MemberRows(group, users)[r], IamGroupMembers)
              && r.table == IamGroupMembers && RefersBy(MemberRows(group, users)[r], GroupId, group)
              && (r in db.rows ==> IsChild(db, r, IamGroupMembers, GroupId, group))
  {
    hide TableFacts, ChildFacts, GoodChild, MemberRows, KeysOk, IsChild, CanJoin;
    var children := MemberRows(group, users);
    forall r | r in children
      ensures GoodChild(db, r, children[r], IamGroupMembers)
      ensures r.table == IamGroupMembers && RefersBy(children[r], GroupId, group)
      ensures r in db.rows ==> IsChild(db, r, IamGroupMembers, GroupId, group)
    {
      var u := MemberRowFrom(group, users, r);
      MemberGood(db, group, u);
      OwnKey(db, r, GroupId, group);
    }
  }

  /**
   * SetIAMGroupMembers installs exactly the listed users when the group and all of them exist and none is
   * repeated; otherwise it fails and changes nothing: a conflict when a user is repeated after users that can all
   * join, not-found in every other case.
   */
  lemma SetMembersExact(db: Db, group: string, users: seq<string>)
    requires StoreInv(db)
    ensures var out := SetMembers(db, group, users);
            && StoreInv(out.db) && ChangesOnly(db, out.db, {IamGroupMembers})
            && (out.status == Done <==>
                  && Ref(IamGroups, [group]) in db.rows
                  && (forall i, j | 0 <= i < j < |users| :: users[i] != users[j])
                  && (forall u | u in users :: CanJoin(db, group, u)))
            && (out.status == Failed(Conflict) <==> exists j | 0 <= j < |users| :: RepeatsAt(db, group, users, j))
            && (out.status != Done && out.status != Failed(Conflict) ==> out.status == Failed(NotFound))
            && (out.status != Done ==> out.db == db)
            && (out.status == Done ==>
                  Installed(db, out.db, IamGroupMembers, GroupId, group, MemberRows(group, users)))
  {
    hide StoreInv, Facts, ActionFacts, ParentFacts, ChildFacts, NamedFacts, NullableActions, TableFacts, Intact, RowsOk,
      DnsOk, KeysOk, GoodChild, ReplaceChildren, MemberRows, Installed, MemberProblem, CanJoin, RepeatsAt;
    InvParts(db);
    NoMemberProblem(db, group, users);
    ConflictExactly(db, group, users);
    if SetMembers(db, group, users).status == Done {
      MembersGood(db, group, users);
      ReplaceKeeps(db, IamGroupMembers, GroupId, group, MemberRows(group, users));
      ReplaceInstalls(db, IamGroupMembers, GroupId, group, MemberRows(group, users));
    }
  }

  /** The INSERT of user j breaks the primary key: the user was listed before, and everyone before could join. */
  predicate RepeatsAt(db: Db, group: string, users: seq<string>, j: nat) {
    j < |users| && users[j] in users[..j] && forall u | u in users[..j] :: CanJoin(db, group, u)
  }

  lemma {:induction false} ConflictExactly(db: Db, group: string, users: seq<string>)
    ensures MemberProblem(db, group, users) == Some(Conflict) <==>
            exists j | 0 <= j < |users| :: RepeatsAt(db, group, users, j)
    ensures MemberProblem(db, group, users) in {None, Some(Conflict), Some(NotFound)}
    ensures (forall u | u in users :: CanJoin(db, group, u)) ==> MemberProblem(db, group, users) != Some(NotFound)
  {
    hide CanJoin;
    if users != [] {
      var n := |users| - 1;
      var before := users[..n];
      ConflictExactly(db, group, before);
      NoMemberProblem(db, group, before);
      forall j | 0 <= j < n
        ensures RepeatsAt(db, group, users, j) <==> RepeatsAt(db, group, before, j)
      {
        assert before[..j] == users[..j];
      }
      assert forall u :: u in users <==> u in before || u == users[n];
      assert RepeatsAt(db, group, users, n) <==> users[n] in before && forall u | u in before :: CanJoin(db, group, u);
    }
  }

  lemma AddMemberKeeps(db: Db, group: string, user: string)
    requires StoreInv(db)
    ensures var out := AddMember(db, group, user);
            && StoreInv(out.db) && ChangesOnly(db, out.db, {IamGroupMembers})
            && (out.status == Done <==> CanJoin(db, group, user))
            && (out.status == Done ==>
                  if MemberRef(group, user) in db.rows then out.db == db
                  else out.db == db.(rows := db.rows[MemberRef(group, user) := MemberRow(group, user)]))
            && (out.status != Done ==> out.db == db && out.status == Failed(NotFound))
  {
    hide StoreInv, Facts, ActionFacts, ParentFacts, NullableActions, Intact, DnsOk, KeysOk, RowOk, RequiredPresent,
      TableFacts;
    InvParts(db);
    var r, row := MemberRef(group, user), MemberRow(group, user);
    if r in db.rows {
      MemberEnds(db, group, user);
    } else {
      MemberRequired(db.schema, r, row);
      MemberParents(db, group, user);
      if CanJoin(db, group, user) {
        MemberGood(db, group, user);
        InsertKeeps(db, r, row);
        MemberFrame(db, AddMember(db, group, user).db, r);
      }
    }
  }

  lemma MemberRequired(schema: Schema, r: Ref, row: Row)
    requires TableFacts(schema) && r.table == IamGroupMembers && {GroupId, UserId} <= row.cols.Keys
    ensures RequiredPresent(schema, r, row)
  {
  }

  /** A membership row has its parents exactly when both ends exist. */
  lemma MemberParents(db: Db, group: string, user: string)
    requires ChildFacts(db.schema.foreignKeys) && NamedFacts(db.schema.foreignKeys)
    ensures ParentsExist(db.(rows := db.rows[MemberRef(group, user) := MemberRow(group, user)]), MemberRef(group, user))
            <==> CanJoin(db, group, user)
  {
    var r := MemberRef(group, user);
    var next := db.(rows := db.rows[r := MemberRow(group, user)]);
    assert Uses(next, r, MEMBER_GROUP) && Uses(next, r, MEMBER_USER);
    forall fk | fk in next.schema.foreignKeys && Uses(next, r, fk)
      ensures fk == MEMBER_GROUP || fk == MEMBER_USER
    {
      assert ByChild(fk);
    }
  }

  lemma MemberEnds(db: Db, group: string, user: string)
    requires Intact(db) && KeysOk(db) && NamedFacts(db.schema.foreignKeys)
    requires MemberRef(group, user) in db.rows
    ensures CanJoin(db, group, user)
  {
    hide Intact, KeysOk, NamedFacts;
    MemberColumns(db, group, user);
    MemberEnd(db, MemberRef(group, user), MEMBER_GROUP);
    MemberEnd(db, MemberRef(group, user), MEMBER_USER);
  }

  lemma MemberColumns(db: Db, group: string, user: string)
    requires KeysOk(db) && MemberRef(group, user) in db.rows
    ensures var row := db.rows[MemberRef(group, user)];
            ColumnValue(row, GroupId) == Some(group) && ColumnValue(row, UserId) == Some(user)
  {
    var r := MemberRef(group, user);
    assert KeyInColumns(r, db.rows[r]);
    assert ColumnValue(db.rows[r], KeyColumns(IamGroupMembers)[0]) == Some(r.key[0]);
    assert ColumnValue(db.rows[r], KeyColumns(IamGroupMembers)[1]) == Some(r.key[1]);
  }

  lemma MemberEnd(db: Db, r: Ref, fk: ForeignKey)
    requires Intact(db) && NamedFacts(db.schema.foreignKeys) && (fk == MEMBER_GROUP || fk == MEMBER_USER)
    requires r in db.rows && r.table == IamGroupMembers && fk.column in db.rows[r].cols
    ensures Target(fk, db.rows[r]) in db.rows
  {
    assert ParentsExist(db, r);
    assert Uses(db, r, fk);
  }

  lemma MemberFrame(db: Db, next: Db, r: Ref)
    requires StoreInv(db) && Intact(next) && RowsOk(next) && r.table in {IamGroupMembers, RdbAcls, RdbPrivileges}
    requires ChangesOnly(db, next, {r.table}) && r in next.rows && KeyInColumns(r, next.rows[r])
    requires next.rows == db.rows[r := next.rows[r]]
    ensures StoreInv(next)
  {
    hide StoreInv, Facts, ActionFacts, ParentFacts, ChildFacts, NamedFacts, NullableActions, TableFacts, Intact, RowsOk,
      DnsOk, KeysOk, KeyInColumns, SameTable;
    InvParts(db);
    SameDns(db, next);
    WriteKeysOk(db, next, r);
    InvWhole(next);
  }

  lemma WriteKeysOk(db: Db, next: Db, r: Ref)
    requires KeysOk(db) && r in next.rows && KeyInColumns(r, next.rows[r])
    requires next.rows == db.rows[r := next.rows[r]]
    ensures KeysOk(next)
  {
    hide KeyInColumns;
  }

  // ---- single child rows -------------------------------------------------------------------------------------

  lemma DropKeeps(db: Db, r: Ref)
    requires StoreInv(db) && r.table in {IamGroupMembers, RdbAcls}
    ensures var next := db.(rows := db.rows - {r});
            StoreInv(next) && ChangesOnly(db, next, {r.table})
  {
    hide StoreInv, Facts, ActionFacts, ParentFacts, ChildFacts, NamedFacts, NullableActions, TableFacts, Intact, RowsOk,
      DnsOk, KeysOk;
    InvParts(db);
    var next := db.(rows := db.rows - {r});
    ShrinkRowsOk(db, {r});
    ShrinkDnsOk(db, {r});
    ShrinkKeysOk(db, {r});
    LeavesGone(db, {r});
    InvWhole(next);
  }

  /** A removal succeeds exactly when the group is stored, and then the membership is gone and nothing else. */
  lemma RemoveMemberKeeps(db: Db, group: string, user: string)
    requires StoreInv(db)
    ensures var out := RemoveMember(db, group, user);
            && StoreInv(out.db) && ChangesOnly(db, out.db, {IamGroupMembers})
            && out.status == (if Ref(IamGroups, [group]) in db.rows then Done else Failed(NotFound))
            && MemberRef(group, user) !in out.db.rows
            && out.db.rows == db.rows - {MemberRef(group, user)}
            && (out.status != Done ==> out.db == db)
  {
    hide StoreInv, Facts;
    DropKeeps(db, MemberRef(group, user));
    InvParts(db);
    if Ref(IamGroups, [group]) !in db.rows && MemberRef(group, user) in db.rows {
      MemberEnds(db, group, user);
    }
    if MemberRef(group, user) !in db.rows {
      assert db.rows - {MemberRef(group, user)} == db.rows;
    }
  }

  /** Clearing succeeds exactly when the instance is stored, and then its ACL row is gone and nothing else. */
  lemma ClearAclsKeeps(db: Db, instance: string)
    requires StoreInv(db)
    ensures var out := ClearAcls(db, instance);
            && StoreInv(out.db) && ChangesOnly(db, out.db, {RdbAcls})
            && out.status == (if Ref(RdbInstances, [instance]) in db.rows then Done else Failed(NotFound))
            && (out.status == Done ==> out.db.rows == db.rows - {AclRef(instance)} && AclRef(instance) !in out.db.rows)
            && (out.status != Done ==> out.db == db)
  {
    hide StoreInv, Facts;
    DropKeeps(db, AclRef(instance));
  }

  lemma AclRowOk(schema: Schema, instance: string, rules: seq<Json>)
    requires TableFacts(schema)
    ensures var row := AclRow(instance, rules);
            RowOk(schema, AclRef(instance), row) && KeyInColumns(AclRef(instance), row)
  {
    assert KeyNamesOf(schema, RdbAcls) == [];
    assert SourcesOf(schema, RdbAcls) == map[];
  }

  /** The row of an instance's ACLs can be written exactly when the instance is stored. */
  lemma AclWrites(db: Db, instance: string, rules: seq<Json>)
    requires StoreInv(db)
    ensures SetAcls(db, instance, rules) ==
            if Ref(RdbInstances, [instance]) in db.rows
            then Outcome(db.(rows := db.rows[AclRef(instance) := AclRow(instance, rules)]), Done)
            else Outcome(db, Failed(NotFound))
    ensures AclRef(instance) in db.rows ==> Ref(RdbInstances, [instance]) in db.rows
  {
    hide StoreInv, Facts, ActionFacts, ParentFacts, NullableActions, TableFacts, Intact, RowsOk, DnsOk, KeysOk,
      RequiredPresent, ParentsExist;
    InvParts(db);
    AclRequired(db.schema, instance, rules);
    AclParent(db, instance, rules);
    if AclRef(instance) in db.rows {
      AclHasInstance(db, instance);
    }
  }

  lemma AclRequired(schema: Schema, instance: string, rules: seq<Json>)
    requires TableFacts(schema)
    ensures RequiredPresent(schema, AclRef(instance), AclRow(instance, rules))
  {
  }

  lemma AclParent(db: Db, instance: string, rules: seq<Json>)
    requires ChildFacts(db.schema.foreignKeys) && NamedFacts(db.schema.foreignKeys)
    ensures ParentsExist(db.(rows := db.rows[AclRef(instance) := AclRow(instance, rules)]), AclRef(instance)) <==>
            Ref(RdbInstances, [instance]) in db.rows
  {
    var r := AclRef(instance);
    var next := db.(rows := db.rows[r := AclRow(instance, rules)]);
    assert Uses(next, r, ACL_INSTANCE);
    forall fk | fk in next.schema.foreignKeys && Uses(next, r, fk)
      ensures fk == ACL_INSTANCE
    {
      assert ByChild(fk);
    }
  }

  lemma AclHasInstance(db: Db, instance: string)
    requires Intact(db) && KeysOk(db) && NamedFacts(db.schema.foreignKeys) && AclRef(instance) in db.rows
    ensures Ref(RdbInstances, [instance]) in db.rows
  {
    var r := AclRef(instance);
    assert ParentsExist(db, r) && KeyInColumns(r, db.rows[r]);
    assert ColumnValue(db.rows[r], KeyColumns(RdbAcls)[0]) == Some(r.key[0]);
    assert Uses(db, r, ACL_INSTANCE);
  }

  /** The upsert succeeds exactly when the instance is stored, and then stores its one row and nothing else. */
  lemma SetAclsKeeps(db: Db, instance: string, rules: seq<Json>)
    requires StoreInv(db)
    ensures var out := SetAcls(db, instance, rules);
            && StoreInv(out.db) && ChangesOnly(db, out.db, {RdbAcls})
            && out.status == (if Ref(RdbInstances, [instance]) in db.rows then Done else Failed(NotFound))
            && (out.status == Done ==> out.db.rows == db.rows[AclRef(instance) := AclRow(instance, rules)])
            && (out.status != Done ==> out.db == db)
  {
    hide StoreInv, Facts, ActionFacts, ParentFacts, ChildFacts, NamedFacts, NullableActions, TableFacts, Intact, RowsOk,
      DnsOk, KeysOk, RowOk, KeyInColumns, Insert, Update;
    InvParts(db);
    var r, row := AclRef(instance), AclRow(instance, rules);
    AclRowOk(db.schema, instance, rules);
    AclWrites(db, instance, rules);
    if Ref(RdbInstances, [instance]) in db.rows {
      if r in db.rows {
        UpdateKeeps(db, r, row);
      } else {
        InsertKeeps(db, r, row);
      }
      MemberFrame(db, SetAcls(db, instance, rules).db, r);
    }
  }
}
