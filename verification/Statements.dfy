/** What the single statements inside the longer calls do: rewriting loops, deletes of leaves, attach steps. */
module Statements {
  import opened Wrappers
  import opened Documents
  import opened Relational
  import opened MockwaySchema
  import opened Store
  import opened Instances
  import opened InstanceLaws
  import opened Balancers
  import opened Dns
  import opened ChildSets

  // ---- rewriting a set of rows ------------------------------------------------------------------------------

  /** The store with some rows rewritten, each by one UPDATE. */
  function Rewritten(db: Db, done: set<Ref>, f: Row -> Row): Db {
    db.(rows := map r | r in db.rows :: if r in done then f(db.rows[r]) else db.rows[r])
  }

  /** A row that keeps every column of another, except that nullable ones may have become null. */
  predicate Narrows(schema: Schema, r: Ref, old_: Row, row: Row) {
    && RequiredPresent(schema, r, row)
    && forall c | c in row.cols :: c in old_.cols && row.cols[c] == old_.cols[c]
  }

  lemma NarrowUpdate(db: Db, r: Ref, row: Row)
    requires Intact(db) && r in db.rows && Narrows(db.schema, r, db.rows[r], row)
    ensures Update(db, r, row) == Ok(db.(rows := db.rows[r := row]))
  {
    var next := db.(rows := db.rows[r := row]);
    assert ParentsExist(db, r);
    forall fk | fk in next.schema.foreignKeys && Uses(next, r, fk)
      ensures Target(fk, row) in next.rows
    {
      assert Uses(db, r, fk);
    }
  }

  /** One more row rewritten: the statement succeeds and constraints hold. */
  lemma RewriteOne(db: Db, done: set<Ref>, f: Row -> Row, r: Ref)
    requires r in db.rows && r !in done && Intact(Rewritten(db, done, f))
    requires Narrows(db.schema, r, db.rows[r], f(db.rows[r]))
    ensures r in Rewritten(db, done, f).rows && Rewritten(db, done, f).rows[r] == db.rows[r]
    ensures Update(Rewritten(db, done, f), r, f(db.rows[r])) == Ok(Rewritten(db, done + {r}, f))
    ensures Intact(Rewritten(db, done + {r}, f))
  {
    hide Intact, Narrows, Update;
    var before := Rewritten(db, done, f);
    NarrowUpdate(before, r, f(db.rows[r]));
    UpdateIntact(before, r, f(db.rows[r]));
    assert before.rows[r := f(db.rows[r])] == Rewritten(db, done + {r}, f).rows;
  }

  lemma RewriteNone(db: Db, f: Row -> Row)
    ensures Rewritten(db, {}, f) == db
  {
  }

  // ---- DeleteServer -------------------------------------------------------------------------------------------

  /** The rows of a table that name an id in a column: what a WHERE clause on it matches. */
  function Naming(db: Db, t: Table, c: Name, id: string): (s: set<Ref>)
    ensures s <= db.rows.Keys
  {
    set r | r in db.rows && r.table == t && RefersBy(db.rows[r], c, id)
  }

  /** The store after the addresses of a server were detached and its interfaces deleted. */
  function ServerCleared(db: Db, id: string): Db {
    var detached := Rewritten(db, Naming(db, InstanceIps, ServerId, id), DetachedIp);
    detached.(rows := detached.rows - Naming(db, PrivateNics, ServerId, id))
  }

  lemma SameNics(db: Db, id: string)
    ensures Naming(Rewritten(db, Naming(db, InstanceIps, ServerId, id), DetachedIp), PrivateNics, ServerId, id) ==
            Naming(db, PrivateNics, ServerId, id)
  {
    hide DetachedIp;
  }

  lemma ServerClearedAt(db: Db, id: string, q: Ref)
    requires q in ServerCleared(db, id).rows
    ensures q.table == InstanceIps || q.table == PrivateNics ==>
              ColumnValue(ServerCleared(db, id).rows[q], ServerId) != Some(id)
  {
  }

  /**
   * By the time DeleteServer deletes the server's row nothing refers to it any more, so its foreign keys neither
   * cascade nor set a column to null, and the row goes alone.
   */
  lemma ServerUnreferenced(db: Db, id: string, q: Ref, a: Action)
    requires ParentFacts(db.schema.foreignKeys) && q in ServerCleared(db, id).rows
    ensures !RefersInto(ServerCleared(db, id), q, {ServerRef(id)}, a)
  {
    hide ServerCleared, Naming;
    var next := ServerCleared(db, id);
    assert next.schema == db.schema by { ServerClearedSchema(db, id); }
    ServerClearedAt(db, id, q);
    forall fk | fk in next.schema.foreignKeys && Uses(next, q, fk)
      ensures Target(fk, next.rows[q]) != ServerRef(id)
    {
      assert ByParent(fk);
      assert ServerRef(id).key[0] == id;
    }
  }

  lemma ServerClearedSchema(db: Db, id: string)
    ensures ServerCleared(db, id).schema == db.schema
  {
  }

  lemma DeleteServerLast(db: Db, id: string)
    requires ParentFacts(db.schema.foreignKeys) && ServerRef(id) in db.rows
    ensures ServerRef(id) in ServerCleared(db, id).rows
    ensures DeleteRows(ServerCleared(db, id), {ServerRef(id)}) == Ok(DeleteServer(db, id).db)
  {
    hide ParentFacts, RefersInto, DeleteRows;
    var next := ServerCleared(db, id);
    forall q, a: Action | q in next.rows && q !in {ServerRef(id)}
      ensures !RefersInto(next, q, {ServerRef(id)}, a)
    {
      ServerUnreferenced(db, id, q, a);
    }
    assert ServerRef(id) in next.rows;
    DeleteUnreferenced(next, {ServerRef(id)});
    hide DetachedIp;
    assert next.rows - {ServerRef(id)} == DeleteServer(db, id).db.rows;
  }

  // ---- DeleteSecurityGroup ------------------------------------------------------------------------------------

  /** The store after the servers of a group were detached from it. */
  function GroupCleared(db: Db, id: string): Db {
    Rewritten(db, Naming(db, Servers, SecurityGroupId, id), DetachedServer)
  }

  lemma GroupUnreferenced(db: Db, id: string, q: Ref, a: Action)
    requires ParentFacts(db.schema.foreignKeys) && q in GroupCleared(db, id).rows
    ensures !RefersInto(GroupCleared(db, id), q, {GroupRef(id)}, a)
  {
    var next := GroupCleared(db, id);
    forall fk | fk in next.schema.foreignKeys && Uses(next, q, fk)
      ensures Target(fk, next.rows[q]) != GroupRef(id)
    {
      assert ByParent(fk);
      assert GroupRef(id).key[0] == id;
    }
  }

  /** Likewise, deleting a group's row sets no server's column to null: the servers were detached before. */
  lemma DeleteGroupLast(db: Db, id: string)
    requires ParentFacts(db.schema.foreignKeys) && GroupRef(id) in db.rows
    ensures GroupRef(id) in GroupCleared(db, id).rows
    ensures DeleteRows(GroupCleared(db, id), {GroupRef(id)}) == Ok(DeleteSecurityGroup(db, id).db)
  {
    hide ParentFacts, RefersInto, DeleteRows;
    var next := GroupCleared(db, id);
    forall q, a: Action | q in next.rows && q !in {GroupRef(id)}
      ensures !RefersInto(next, q, {GroupRef(id)}, a)
    {
      GroupUnreferenced(db, id, q, a);
    }
    DeleteUnreferenced(next, {GroupRef(id)});
    hide DetachedServer;
    assert next.rows - {GroupRef(id)} == DeleteSecurityGroup(db, id).db.rows;
  }

  // ---- CreateServer -------------------------------------------------------------------------------------------

  lemma IpProblemAppend(db: Db, a: seq<string>, b: seq<string>)
    requires IpProblem(db, a) == None
    ensures IpProblem(db, a + b) == IpProblem(db, b)
  {
    if a == [] {
      assert a + b == b;
    } else {
      assert (a + b)[1..] == a[1..] + b;
    }
  }

  lemma IpEntriesAppend(db: Db, a: seq<string>, b: seq<string>)
    requires IpProblem(db, a) == None && IpProblem(db, a + b) == None
    ensures IpProblem(db, b) == None && IpEntries(db, a + b) == IpEntries(db, a) + IpEntries(db, b)
  {
    IpProblemAppend(db, a, b);
    if a == [] {
      assert a + b == b;
    } else {
      assert (a + b)[1..] == a[1..] + b;
      IpEntriesAppend(db, a[1..], b);
    }
  }

  lemma {:induction false} EntriesAt(db: Db, ips: seq<string>, k: nat)
    requires IpProblem(db, ips) == None && k < |ips|
    ensures IpRef(ips[k]) in db.rows && |IpEntries(db, ips)| == |ips| && IpEntries(db, ips)[k] == IpEntry(db, ips[k])
    ensures ips[k] != "" ==> Text(AsDoc(IpEntries(db, ips)[k]), Id) != ""
  {
    if k > 0 {
      EntriesAt(db, ips[1..], k - 1);
    } else if |ips| > 1 {
      EntriesAt(db, ips[1..], 0);
    }
  }

  lemma StringsAppend(a: seq<Json>, b: seq<Json>)
    ensures Strings(a + b) == Strings(a) + Strings(b)
  {
    if a == [] {
      assert a + b == b;
    } else {
      assert (a + b)[1..] == a[1..] + b;
    }
  }

  /** One more listed address attached, again or for the first time. */
  lemma AttachOneMore(db: Db, ips: seq<string>, ip: string, server: string)
    requires IpRef(ip) in db.rows
    ensures IpRef(ip) in AttachAll(db, ips, server).rows
    ensures var before := AttachAll(db, ips, server);
            before.(rows := before.rows[IpRef(ip) := AttachedIp(before.rows[IpRef(ip)], server)]) ==
            AttachAll(db, ips + [ip], server)
  {
    AttachTwice(db.rows[IpRef(ip)], server);
    hide AttachedIp;
    var before, after := AttachAll(db, ips, server), AttachAll(db, ips + [ip], server);
    forall r | r in db.rows
      ensures ListedIp(r, ips + [ip]) <==> ListedIp(r, ips) || r == IpRef(ip)
    {
    }
    assert before.rows[IpRef(ip) := AttachedIp(before.rows[IpRef(ip)], server)] == after.rows;
  }

  lemma AttachTwice(row: Row, server: string)
    ensures AttachedIp(AttachedIp(row, server), server) == AttachedIp(row, server)
  {
    var once := AttachedIp(row, server);
    assert once.cols[ServerId := server] == once.cols;
    assert once.data[ServerId := Str(server)] - {Server} == once.data;
  }

  // ---- DeleteLB -----------------------------------------------------------------------------------------------

  /** The store after a balancer's network links were deleted and its addresses released. */
  function LbCleared(db: Db, id: string): Db {
    var unlinked := db.(rows := db.rows - Naming(db, LbPrivateNetworks, LbId, id));
    Rewritten(unlinked, ReleasedSet(db, id), ReleasedIp)
  }

  function ReleasedSet(db: Db, id: string): set<Ref> {
    set r | r in db.rows && Released(db, r, id)
  }

  function GoingAlong(db: Db, id: string): set<Ref> {
    {LbRef(id)} + Naming(db, LbRoutes, LbId, id) + Naming(db, LbCertificates, LbId, id)
  }

  lemma LbClearedAt(db: Db, id: string, q: Ref)
    ensures var next := LbCleared(db, id);
            && next.schema == db.schema
            && (q in next.rows <==> q in db.rows && !(q.table == LbPrivateNetworks && RefersBy(db.rows[q], LbId, id)))
            && (q in next.rows ==> next.rows[q].cols == db.rows[q].cols)
  {
  }

  lemma GoingTables(db: Db, id: string, r: Ref)
    requires r in GoingAlong(db, id)
    ensures r == LbRef(id) || r.table == LbRoutes || r.table == LbCertificates
  {
  }

  /** What refers to the balancer after that: routes and certificates by cascade, frontends and backends without. */
  lemma LbReferrer(db: Db, id: string, q: Ref, fk: ForeignKey)
    requires ParentFacts(db.schema.foreignKeys) && Uses(LbCleared(db, id), q, fk)
    requires Target(fk, LbCleared(db, id).rows[q]) in GoingAlong(db, id)
    ensures if fk.action == NoAction then PartOf(db, q, id) else fk.action == Cascade && q in GoingAlong(db, id)
  {
    hide LbCleared, Released, ParentFacts;
    LbClearedAt(db, id, q);
    ParentFact(db.schema.foreignKeys, fk);
    GoingTables(db, id, Target(fk, LbCleared(db, id).rows[q]));
    assert LbRef(id).key[0] == id;
  }

  lemma ServingKeys(fks: set<ForeignKey>)
    requires NamedFacts(fks)
    ensures FRONTEND_LB in fks && BACKEND_LB in fks
  {
  }

  /** A frontend or backend still refers to the balancer, and does not go with it. */
  lemma ServingRefers(db: Db, id: string, q: Ref, gone: set<Ref>)
    requires NamedFacts(db.schema.foreignKeys) && PartOf(db, q, id) && LbRef(id) in gone
    ensures q in LbCleared(db, id).rows && RefersInto(LbCleared(db, id), q, gone, NoAction)
    ensures q !in GoingAlong(db, id)
  {
    hide LbCleared, NamedFacts, GoingAlong;
    ServingKeys(db.schema.foreignKeys);
    LbClearedAt(db, id, q);
    var fk := if q.table == LbFrontends then FRONTEND_LB else BACKEND_LB;
    assert Uses(LbCleared(db, id), q, fk) && Target(fk, LbCleared(db, id).rows[q]) == LbRef(id);
    if q in GoingAlong(db, id) {
      GoingTables(db, id, q);
    }
  }

  lemma LbDeleteRefused(db: Db, id: string)
    requires ParentFacts(db.schema.foreignKeys) && NamedFacts(db.schema.foreignKeys)
    requires LbRef(id) in LbCleared(db, id).rows && HasParts(db, id)
    ensures DeleteRows(LbCleared(db, id), {LbRef(id)}) == Err(Conflict)
  {
    hide LbCleared, ParentFacts, NamedFacts, PartOf, GoingAlong, RefersInto;
    var next := LbCleared(db, id);
    var q :| q in db.rows && PartOf(db, q, id);
    var gone := Closure(next, {LbRef(id)});
    LbClosure(db, id);
    ServingRefers(db, id, q, gone);
    assert q in Referrers(next, gone, NoAction);
  }

  lemma LbClosure(db: Db, id: string)
    requires ParentFacts(db.schema.foreignKeys) && LbRef(id) in LbCleared(db, id).rows
    ensures Closure(LbCleared(db, id), {LbRef(id)}) <= GoingAlong(db, id)
  {
    hide LbCleared, ParentFacts, GoingAlong, PartOf;
    var next := LbCleared(db, id);
    forall q | q in Referrers(next, GoingAlong(db, id), Cascade)
      ensures q in GoingAlong(db, id)
    {
      var fk :| fk in next.schema.foreignKeys && fk.action == Cascade && Uses(next, q, fk)
                && Target(fk, next.rows[q]) in GoingAlong(db, id);
      LbReferrer(db, id, q, fk);
    }
    LbGoes(db, id);
    ClosureLeast(next, {LbRef(id)}, GoingAlong(db, id));
  }

  lemma LbGoes(db: Db, id: string)
    ensures LbRef(id) in GoingAlong(db, id)
  {
  }

  lemma LbClosureExact(db: Db, id: string)
    requires ParentFacts(db.schema.foreignKeys) && NamedFacts(db.schema.foreignKeys)
    requires LbRef(id) in LbCleared(db, id).rows
    ensures Closure(LbCleared(db, id), {LbRef(id)}) == GoingAlong(db, id)
  {
    hide LbCleared, ParentFacts;
    var next := LbCleared(db, id);
    var gone := Closure(next, {LbRef(id)});
    LbClosure(db, id);
    forall q | q in GoingAlong(db, id) && q != LbRef(id)
      ensures q in gone
    {
      LbClearedAt(db, id, q);
      var fk := if q.table == LbRoutes then ROUTE_LB else CERTIFICATE_LB;
      assert Uses(next, q, fk) && Target(fk, next.rows[q]) == LbRef(id);
      assert q in Referrers(next, gone, Cascade);
    }
  }

  lemma LbDeleteDone(db: Db, id: string)
    requires ParentFacts(db.schema.foreignKeys) && NamedFacts(db.schema.foreignKeys)
    requires LbRef(id) in LbCleared(db, id).rows && LbRef(id) in db.rows && !HasParts(db, id)
    ensures DeleteRows(LbCleared(db, id), {LbRef(id)}) == Ok(DeleteLb(db, id).db)
  {
    hide LbCleared, ParentFacts, NamedFacts, PartOf, GoingAlong, DeleteLb;
    var next := LbCleared(db, id);
    var gone := Closure(next, {LbRef(id)});
    LbClosureExact(db, id);
    forall q, fk | Uses(next, q, fk) && Target(fk, next.rows[q]) in gone
      ensures fk.action == Cascade
    {
      LbReferrer(db, id, q, fk);
      PartStored(db, q, id);
    }
    assert Referrers(next, gone, NoAction) == {} && Referrers(next, gone, SetNull) == {};
    DeleteExact(next, {LbRef(id)});
    DeleteLbRows(db, id);
  }

  lemma PartStored(db: Db, q: Ref, id: string)
    ensures PartOf(db, q, id) ==> q in db.rows
  {
  }

  lemma DeleteLbRowAt(db: Db, id: string, r: Ref)
    requires LbRef(id) in db.rows && !HasParts(db, id)
    ensures r in LbCleared(db, id).rows && r !in GoingAlong(db, id) <==> r in DeleteLb(db, id).db.rows
    ensures r in DeleteLb(db, id).db.rows ==> LbCleared(db, id).rows[r] == DeleteLb(db, id).db.rows[r]
  {
    hide HasParts, Released, ReleasedIp, GoingAlong, GoesWithLb, Naming;
    GoingAt(db, id, r);
    LinkAt(db, id, r);
  }

  lemma GoingAt(db: Db, id: string, r: Ref)
    requires LbRef(id) in db.rows
    ensures r in db.rows ==>
              (r in GoingAlong(db, id) || (r.table == LbPrivateNetworks && RefersBy(db.rows[r], LbId, id)) <==>
               GoesWithLb(r, db.rows[r], id))
  {
  }

  lemma LinkAt(db: Db, id: string, r: Ref)
    ensures r in Naming(db, LbPrivateNetworks, LbId, id) <==>
            r in db.rows && r.table == LbPrivateNetworks && RefersBy(db.rows[r], LbId, id)
  {
  }

  lemma DeleteLbRows(db: Db, id: string)
    requires LbRef(id) in db.rows && !HasParts(db, id)
    ensures LbCleared(db, id).(rows := LbCleared(db, id).rows - GoingAlong(db, id)) == DeleteLb(db, id).db
  {
    hide HasParts, LbCleared, GoingAlong, DeleteLb;
    forall r
      ensures r in LbCleared(db, id).rows && r !in GoingAlong(db, id) <==> r in DeleteLb(db, id).db.rows
      ensures r in DeleteLb(db, id).db.rows ==> LbCleared(db, id).rows[r] == DeleteLb(db, id).db.rows[r]
    {
      DeleteLbRowAt(db, id, r);
    }
    LbClearedAt(db, id, LbRef(id));
    DeleteLbFrame(db, id);
    assert LbCleared(db, id).rows - GoingAlong(db, id) == DeleteLb(db, id).db.rows;
  }

  // ---- replacing a parent's children --------------------------------------------------------------------------

  /** DELETE ... WHERE parent = ?, the first statement of every replacement. */
  lemma DeleteChildren(db: Db, t: Table, c: Name, parent: string)
    requires ParentFacts(db.schema.foreignKeys) && t !in PARENTS
    ensures DeleteRows(db, Naming(db, t, c, parent)) == Ok(ReplaceChildren(db, t, c, parent, map[]))
  {
    hide ParentFacts, IsChild, DeleteRows, ReplaceChildren, Naming;
    var doomed, after := Naming(db, t, c, parent), ReplaceChildren(db, t, c, parent, map[]);
    forall r
      ensures r in doomed <==> IsChild(db, r, t, c, parent)
      ensures r in doomed ==> r.table == t
      ensures r in after.rows <==> r in db.rows && !IsChild(db, r, t, c, parent)
      ensures r in after.rows ==> after.rows[r] == db.rows[r]
    {
      NamingIsChild(db, t, c, parent, r);
      ReplaceAt(db, t, c, parent, map[], r);
    }
    ReplaceAt(db, t, c, parent, map[], Ref(t, []));
    DeleteLeaves(db, doomed);
    assert db.rows - doomed == after.rows;
  }

  lemma NamingIsChild(db: Db, t: Table, c: Name, parent: string, r: Ref)
    ensures r in Naming(db, t, c, parent) <==> IsChild(db, r, t, c, parent)
    ensures r in Naming(db, t, c, parent) ==> r.table == t
  {
  }

  /** INSERT of one more child: a primary key already used is a conflict, and nothing else can go wrong. */
  lemma InsertChild(db: Db, t: Table, c: Name, parent: string, children: map<Ref, Row>, r: Ref, row: Row)
    requires ParentFacts(db.schema.foreignKeys) && t !in PARENTS && GoodChild(db, r, row, t)
    requires r in db.rows ==> IsChild(db, r, t, c, parent)
    ensures var before := ReplaceChildren(db, t, c, parent, children);
            Insert(before, r, row) ==
            if r in children then Err(Conflict) else Ok(ReplaceChildren(db, t, c, parent, children[r := row]))
  {
    hide RowOk, KeyInColumns, ReplaceChildren, ParentFacts, ParentsExist;
    var before := ReplaceChildren(db, t, c, parent, children);
    ReplaceAt(db, t, c, parent, children, r);
    if r !in children {
      var next := before.(rows := before.rows[r := row]);
      forall q | q in db.rows && q.table != t
        ensures q in next.rows
      {
        ReplaceAt(db, t, c, parent, children, q);
        ChildTable(db, t, c, parent);
      }
      ReplaceRowHolds(db, next, r, t);
      OneMoreChild(db, t, c, parent, children, r, row);
    }
  }

  lemma OneMoreChild(db: Db, t: Table, c: Name, parent: string, children: map<Ref, Row>, r: Ref, row: Row)
    ensures var before := ReplaceChildren(db, t, c, parent, children);
            before.(rows := before.rows[r := row]) == ReplaceChildren(db, t, c, parent, children[r := row])
  {
    hide OtherRows;
    var others := OtherRows(db, t, c, parent);
    assert (others + children)[r := row] == others + children[r := row];
  }

  /** Whether the next privilege of a list without repeats repeats an earlier one. */
  lemma PrivilegeRepeats(instance: string, docs: seq<Doc>, doc: Doc)
    requires !RepeatsPrivilege(instance, docs)
    ensures PrivilegeRef(instance, doc) in PrivilegeRows(instance, docs) <==> RepeatsPrivilege(instance, docs + [doc])
    ensures PrivilegeRows(instance, docs + [doc]) ==
            PrivilegeRows(instance, docs)[PrivilegeRef(instance, doc) := PrivilegeRow(instance, doc)]
  {
    hide PrivilegeRef, PrivilegeRow;
    var all := docs + [doc];
    assert all[..|docs|] == docs;
    if PrivilegeRef(instance, doc) in PrivilegeRows(instance, docs) {
      var i := PrivilegeRowFrom(instance, docs, PrivilegeRef(instance, doc));
      assert PrivilegeRef(instance, all[i]) == PrivilegeRef(instance, all[|docs|]);
    }
    forall a, b | 0 <= a < b < |docs|
      ensures PrivilegeRef(instance, all[a]) != PrivilegeRef(instance, all[b])
    {
      assert all[a] == docs[a] && all[b] == docs[b];
    }
    if RepeatsPrivilege(instance, all) {
      var i, j :| 0 <= i < j < |all| && PrivilegeRef(instance, all[i]) == PrivilegeRef(instance, all[j]);
      PrivilegeRowOf(instance, docs, i);
    }
  }

  lemma RepeatsOnward(instance: string, docs: seq<Doc>, more: seq<Doc>)
    requires RepeatsPrivilege(instance, docs)
    ensures RepeatsPrivilege(instance, docs + more)
  {
    hide PrivilegeRef;
    var i, j :| 0 <= i < j < |docs| && PrivilegeRef(instance, docs[i]) == PrivilegeRef(instance, docs[j]);
    var all := docs + more;
    assert all[i] == docs[i] && all[j] == docs[j];
  }

  lemma ObjectsAppend(a: seq<Json>, b: seq<Json>)
    ensures Objects(a + b) == Objects(a) + Objects(b)
  {
    if b == [] {
      assert a + b == a;
    } else {
      var n := |b| - 1;
      ObjectsAppend(a, b[..n]);
      assert (a + b)[..|a + b| - 1] == a + b[..n];
    }
  }

  lemma ObjectsNext(items: seq<Json>, i: nat)
    requires i < |items|
    ensures Objects(items[..i + 1]) == Objects(items[..i]) + if items[i].Obj? then [items[i].fields] else []
    ensures |Objects(items[..i + 1])| <= |Objects(items)|
  {
    assert items[..i + 1][..i] == items[..i];
    assert items == items[..i + 1] + items[i + 1..];
    ObjectsAppend(items[..i + 1], items[i + 1..]);
  }

  lemma RuleNext(policy: string, docs: seq<Doc>, ids: seq<string>, doc: Doc, id: string)
    requires |docs| == |ids| && id !in ids
    ensures RuleRef(id) !in RuleRows(policy, docs, ids)
    ensures RuleRows(policy, docs + [doc], ids + [id]) ==
            RuleRows(policy, docs, ids)[RuleRef(id) := RuleRow(policy, doc, id)]
  {
    hide RuleRow;
    assert (docs + [doc])[..|docs|] == docs && (ids + [id])[..|ids|] == ids;
    forall r | r in RuleRows(policy, docs, ids)
      ensures |r.key| == 1 && r.key[0] in ids
    {
      var i := RuleRowFrom(policy, docs, ids, r);
    }
    assert RuleRef(id).key[0] == id;
  }

  /** INSERT of one more member of a group: the outcomes, in the order SQLite checks them. */
  lemma InsertMember(db: Db, group: string, users: seq<string>, user: string)
    requires StoreInv(db) && MemberProblem(db, group, users) == None
    ensures var before := ReplaceChildren(db, IamGroupMembers, GroupId, group, MemberRows(group, users));
            Insert(before, MemberRef(group, user), MemberRow(group, user)) ==
            if user in users then Err(Conflict)
            else if CanJoin(db, group, user)
            then Ok(ReplaceChildren(db, IamGroupMembers, GroupId, group, MemberRows(group, users + [user])))
            else Err(NotFound)
  {
    hide StoreInv, Facts, ActionFacts, ParentFacts, ChildFacts, NullableActions, TableFacts, Intact, RowsOk, DnsOk,
      KeysOk, GoodChild, ReplaceChildren, NamedFacts, IsChild, CanJoin, Insert, MemberProblem;
    InvParts(db);
    var r := MemberRef(group, user);
    MemberListed(group, users, user);
    OwnKey(db, r, GroupId, group);
    if CanJoin(db, group, user) {
      MemberGood(db, group, user);
      InsertChild(db, IamGroupMembers, GroupId, group, MemberRows(group, users), r, MemberRow(group, user));
    } else {
      LoneMember(db, group, users, user);
    }
  }

  lemma MemberListed(group: string, users: seq<string>, user: string)
    ensures MemberRef(group, user) in MemberRows(group, users) <==> user in users
    ensures MemberRows(group, users + [user]) ==
            MemberRows(group, users)[MemberRef(group, user) := MemberRow(group, user)]
  {
    if MemberRef(group, user) in MemberRows(group, users) {
      var u := MemberRowFrom(group, users, MemberRef(group, user));
      assert MemberRef(group, u).key[1] == MemberRef(group, user).key[1];
    }
    if user in users {
      assert MemberRef(group, user) in MemberRows(group, users);
    }
    assert MemberRows(group, users + [user]) ==
      MemberRows(group, users)[MemberRef(group, user) := MemberRow(group, user)];
  }

  /** Without one of its ends a membership cannot be stored; nobody listed before lacks one. */
  lemma LoneMember(db: Db, group: string, users: seq<string>, user: string)
    requires StoreInv(db) && !CanJoin(db, group, user) && MemberProblem(db, group, users) == None
    ensures user !in users
    ensures Insert(ReplaceChildren(db, IamGroupMembers, GroupId, group, MemberRows(group, users)),
                   MemberRef(group, user), MemberRow(group, user)) == Err(NotFound)
  {
    hide StoreInv, Facts, ActionFacts, ParentFacts, ChildFacts, NullableActions, TableFacts, Intact, RowsOk, DnsOk,
      KeysOk, GoodChild, ReplaceChildren, NamedFacts, IsChild, RequiredPresent, ParentsExist, MemberRows;
    InvParts(db);
    NoMemberProblem(db, group, users);
    var before := ReplaceChildren(db, IamGroupMembers, GroupId, group, MemberRows(group, users));
    var r, row := MemberRef(group, user), MemberRow(group, user);
    MemberListed(group, users, user);
    ReplaceAt(db, IamGroupMembers, GroupId, group, MemberRows(group, users), r);
    if r in before.rows {
      MemberEnds(db, group, user);
    }
    MemberRequired(db.schema, r, row);
    ReplaceAt(db, IamGroupMembers, GroupId, group, MemberRows(group, users), Ref(IamGroups, [group]));
    ReplaceAt(db, IamGroupMembers, GroupId, group, MemberRows(group, users), Ref(IamUsers, [user]));
    MembersOnly(group, users);
    MemberParents(before, group, user);
  }

  lemma MembersOnly(group: string, users: seq<string>)
    ensures forall r | r in MemberRows(group, users) :: r.table == IamGroupMembers
  {
  }

  // ---- DNS records --------------------------------------------------------------------------------------------

  lemma ZoneAsRecords(db: Db, zone: string)
    requires DnsOk(db)
    ensures WithRecords(db, zone, RecordsOf(db, zone)) == db
  {
    hide ZoneKey, WithRecords, RecordsOf;
    var same := WithRecords(db, zone, RecordsOf(db, zone));
    WithRecordsSchema(db, zone, RecordsOf(db, zone));
    forall r
      ensures r in same.rows <==> r in db.rows
      ensures r in db.rows ==> same.rows[r] == db.rows[r]
    {
      WithRecordsAt(db, zone, RecordsOf(db, zone), r);
      RecordsOfAt(db, zone, r);
      if InZone(db, r, zone) {
        assert db.rows[r].cols == map[DnsZone := zone];
      }
    }
    assert same.rows == db.rows;
  }

  lemma RecordsOfAt(db: Db, zone: string, r: Ref)
    ensures r in RecordsOf(db, zone) <==> InZone(db, r, zone)
    ensures InZone(db, r, zone) ==> r in db.rows && RecordsOf(db, zone)[r] == db.rows[r].data
  {
  }

  /** INSERT of a record under a new id. */
  lemma InsertRecord(db: Db, zone: string, recs: ZoneRecords, id: string, doc: Doc)
    requires ChildFacts(db.schema.foreignKeys) && TableFacts(db.schema)
    requires RecordRef(id) !in recs && RecordRef(id) !in db.rows
    ensures Insert(WithRecords(db, zone, recs), RecordRef(id), Row(map[DnsZone := zone], doc)) ==
            Ok(WithRecords(db, zone, recs[RecordRef(id) := doc]))
  {
    hide ChildFacts, TableFacts, ParentsExist, WithRecords, InZone;
    var before := WithRecords(db, zone, recs);
    var r, row := RecordRef(id), Row(map[DnsZone := zone], doc);
    WithRecordsSchema(db, zone, recs);
    RecordRequired(db.schema);
    WithRecordsAt(db, zone, recs, r);
    RecordRowHolds(before.(rows := before.rows[r := row]), r);
    OneMoreRecord(db, zone, recs, r, doc);
  }

  lemma OneMoreRecord(db: Db, zone: string, recs: ZoneRecords, r: Ref, doc: Doc)
    ensures var before := WithRecords(db, zone, recs);
            before.(rows := before.rows[r := Row(map[DnsZone := zone], doc)]) == WithRecords(db, zone, recs[r := doc])
  {
    hide InZone, WithRecords;
    var before, after := WithRecords(db, zone, recs), WithRecords(db, zone, recs[r := doc]);
    WithRecordsSchema(db, zone, recs);
    WithRecordsSchema(db, zone, recs[r := doc]);
    forall q
      ensures q in after.rows <==> q in before.rows || q == r
      ensures q in after.rows ==> after.rows[q] == if q == r then Row(map[DnsZone := zone], doc) else before.rows[q]
    {
      WithRecordsAt(db, zone, recs, q);
      WithRecordsAt(db, zone, recs[r := doc], q);
    }
    assert before.rows[r := Row(map[DnsZone := zone], doc)] == after.rows;
  }

  /** DELETE of some of the zone's records. */
  lemma DeleteRecords(db: Db, zone: string, recs: ZoneRecords, s: set<Ref>)
    requires ParentFacts(db.schema.foreignKeys) && ProperRecords(recs) && s <= recs.Keys
    requires forall r | r in recs :: r in db.rows ==> InZone(db, r, zone)
    ensures s <= WithRecords(db, zone, recs).rows.Keys
    ensures DeleteRows(WithRecords(db, zone, recs), s) == Ok(WithRecords(db, zone, recs - s))
  {
    hide ParentFacts, WithRecords, InZone, DeleteRows;
    var before, after := WithRecords(db, zone, recs), WithRecords(db, zone, recs - s);
    WithRecordsSchema(db, zone, recs);
    WithRecordsSchema(db, zone, recs - s);
    forall r
      ensures r in after.rows <==> r in before.rows && r !in s
      ensures r in after.rows ==> after.rows[r] == before.rows[r]
      ensures r in s ==> r in before.rows
    {
      WithRecordsAt(db, zone, recs, r);
      WithRecordsAt(db, zone, recs - s, r);
    }
    assert before.rows - s == after.rows;
    DeleteLeaves(before, s);
  }

  /** One more new record at the end of a list. */
  lemma NewRecordNext(recs: ZoneRecords, docs: seq<Doc>, ids: seq<string>, doc: Doc, id: string)
    requires |docs| == |ids|
    ensures recs + NewRecords(docs + [doc], ids + [id]) ==
            (recs + NewRecords(docs, ids))[RecordRef(id) := doc[Id := Str(id)]]
  {
    assert (docs + [doc])[..|docs|] == docs && (ids + [id])[..|ids|] == ids;
  }

  /** A new id is no key of the records gathered so far. */
  lemma NextIdUnused(recs: ZoneRecords, docs: seq<Doc>, ids: seq<string>, id: string)
    requires |docs| == |ids| && id !in ids && RecordRef(id) !in recs
    ensures RecordRef(id) !in recs + NewRecords(docs, ids)
  {
    hide NewRecords;
    NewRecordsProper(docs, ids);
  }
}
