/** Load balancers and their addresses, whose attachment no foreign key protects. */
module Balancers {
  import opened Wrappers
  import opened Documents
  import opened Relational
  import opened MockwaySchema
  import opened Store
  import opened Instances
  import opened InstanceLaws

  function LbRef(id: string): Ref { Ref(Lbs, [id]) }
  function LbIpRef(id: string): Ref { Ref(LbIps, [id]) }

  // ---- operations ----------------------------------------------------------------------------------

  /** ip_ids takes precedence over ip_id; only non-empty strings count. */
  function ChosenIp(data: Doc): string {
    var ids := AsItems(Get(data, IpIds));
    if ids != [] && AsString(ids[0]) != "" then AsString(ids[0]) else Text(data, IpId)
  }

  function InlineIp(id: string, lb: string, zone: string): Doc {
    map[Id := Str(id), LbId := Str(lb), Zone := Str(zone)]
  }

  function CreatedLb(zone: string, data: Doc, id: string, entry: Doc): Doc {
    data[Zone := Str(zone)][Id := Str(id)][Ip := Arr([Obj(entry)])]
  }

  /** An address row as CreateLB leaves it. */
  function AttachedLbIp(row: Row, lb: string): Row {
    row.(data := row.data[LbId := Str(lb)])
  }

  function CreateLb(db: Db, zone: string, data: Doc, id: string, inlineId: string): Outcome {
    var ip := ChosenIp(data);
    if ip == "" then
      Single(db, Insert(db, LbRef(id), Row(map[Zone := zone], CreatedLb(zone, data, id, InlineIp(inlineId, id, zone)))))
    else if LbIpRef(ip) !in db.rows then Outcome(db, Failed(NotFound))
    else if Text(db.rows[LbIpRef(ip)].data, LbId) != "" then Outcome(db, Failed(Conflict))
    else
      var entry := db.rows[LbIpRef(ip)].data[LbId := Str(id)];
      match Insert(db, LbRef(id), Row(map[Zone := zone], CreatedLb(zone, data, id, entry)))
      case Err(e) => Outcome(db, Failed(e))
      case Ok(next) =>
        Outcome(next.(rows := next.rows[LbIpRef(ip) := AttachedLbIp(db.rows[LbIpRef(ip)], id)]), Done)
  }

  /** A frontend or backend of the balancer: DeleteLB does not cascade to these. */
  predicate PartOf(db: Db, r: Ref, lb: string) {
    r in db.rows && (r.table == LbFrontends || r.table == LbBackends) && RefersBy(db.rows[r], LbId, lb)
  }

  predicate HasParts(db: Db, lb: string) {
    exists r | r in db.rows :: PartOf(db, r, lb)
  }

  /** The rows that go with the balancer. */
  predicate GoesWithLb(r: Ref, row: Row, lb: string) {
    r == LbRef(lb) || (r.table in {LbPrivateNetworks, LbRoutes, LbCertificates} && RefersBy(row, LbId, lb))
  }

  /** An address DeleteLB releases: it names the balancer and lies in the balancer's zone. */
  predicate Released(db: Db, r: Ref, lb: string) {
    && r in db.rows && LbRef(lb) in db.rows && r.table == LbIps
    && ColumnValue(db.rows[r], Zone) == ColumnValue(db.rows[LbRef(lb)], Zone)
    && Text(db.rows[r].data, LbId) == lb
  }

  function ReleasedIp(row: Row): Row {
    row.(data := row.data[LbId := Null])
  }

  function DeleteLb(db: Db, id: string): Outcome {
    if LbRef(id) !in db.rows then Outcome(db, Failed(NotFound))
    else if HasParts(db, id) then Outcome(db, Failed(Conflict))
    else Outcome(
      db.(rows := map r | r in db.rows && !GoesWithLb(r, db.rows[r], id) ::
        if Released(db, r, id) then ReleasedIp(db.rows[r]) else db.rows[r]),
      Done)
  }

  function DeleteLbIp(db: Db, id: string): Outcome {
    if LbIpRef(id) !in db.rows then Outcome(db, Failed(NotFound))
    else if Text(db.rows[LbIpRef(id)].data, LbId) != "" then Outcome(db, Failed(Conflict))
    else Remove(db, LbIps, [id])
  }

  // ---- the store invariant ---------------------------------------------------------------------------

  lemma LbRowOk(schema: Schema, r: Ref, zone: string, doc: Doc)
    requires TableFacts(schema) && r.table == Lbs && |r.key| == 1
    requires Get(doc, Id) == Str(r.key[0]) && Get(doc, Zone) == Str(zone)
    ensures RowOk(schema, r, Row(map[Zone := zone], doc))
  {
    assert KeyNamesOf(schema, Lbs) == [Id];
    assert SourcesOf(schema, Lbs) == Column(Zone, Plain);
    assert TextAt(doc, [Zone]) == zone;
  }

  lemma LbIpRowOk(schema: Schema, r: Ref, row: Row, v: Json)
    requires TableFacts(schema) && r.table == LbIps && RowOk(schema, r, row)
    ensures RowOk(schema, r, row.(data := row.data[LbId := v]))
  {
    assert KeyNamesOf(schema, LbIps) == [Id];
    assert SourcesOf(schema, LbIps) == Column(Zone, Plain);
    assert Agrees(Source([Zone], Plain), row.data, ColumnValue(row, Zone));
    assert TextAt(row.data[LbId := v], [Zone]) == TextAt(row.data, [Zone]);
    assert Get(row.data, Id) == Str(r.key[0]);
  }

  /** Exactly when the balancer's INSERT succeeds. */
  lemma LbInsert(db: Db, zone: string, doc: Doc, id: string)
    requires ChildFacts(db.schema.foreignKeys) && TableFacts(db.schema)
    ensures Insert(db, LbRef(id), Row(map[Zone := zone], doc)) ==
            if LbRef(id) in db.rows then Err(Conflict)
            else Ok(db.(rows := db.rows[LbRef(id) := Row(map[Zone := zone], doc)]))
  {
    hide TableFacts;
    var row := Row(map[Zone := zone], doc);
    var next := db.(rows := db.rows[LbRef(id) := row]);
    LbRequired(db.schema);
    forall fk | fk in next.schema.foreignKeys
      ensures !Uses(next, LbRef(id), fk)
    {
      assert ByChild(fk);
    }
  }

  lemma LbRequired(schema: Schema)
    requires TableFacts(schema)
    ensures Lbs in schema.required && schema.required[Lbs] == {Zone}
  {
  }

  lemma InsertLbKeeps(db: Db, zone: string, doc: Doc, id: string)
    requires StoreInv(db) && LbRef(id) !in db.rows
    requires Get(doc, Id) == Str(id) && Get(doc, Zone) == Str(zone)
    ensures var next := db.(rows := db.rows[LbRef(id) := Row(map[Zone := zone], doc)]);
            StoreInv(next) && ChangesOnly(db, next, {Lbs})
  {
    hide StoreInv, Facts, ActionFacts, ParentFacts, ChildFacts, NamedFacts, NullableActions, TableFacts, Intact,
      RowsOk, DnsOk, KeysOk, RowOk, Insert;
    InvParts(db);
    LbRowOk(db.schema, LbRef(id), zone, doc);
    LbInsert(db, zone, doc, id);
    InsertKeeps(db, LbRef(id), Row(map[Zone := zone], doc));
    StoreFrame(db, db.(rows := db.rows[LbRef(id) := Row(map[Zone := zone], doc)]), {Lbs});
  }

  lemma SetLbIpKeeps(db: Db, r: Ref, v: Json)
    requires StoreInv(db) && r in db.rows && r.table == LbIps
    ensures var row := db.rows[r].(data := db.rows[r].data[LbId := v]);
            && Update(db, r, row) == Ok(db.(rows := db.rows[r := row]))
            && StoreInv(db.(rows := db.rows[r := row])) && ChangesOnly(db, db.(rows := db.rows[r := row]), {LbIps})
  {
    hide StoreInv, Facts, ActionFacts, ParentFacts, ChildFacts, NamedFacts, NullableActions, TableFacts, Intact,
      DnsOk, KeysOk, RowOk, Update;
    InvParts(db);
    var row := db.rows[r].(data := db.rows[r].data[LbId := v]);
    LbIpRowOk(db.schema, r, db.rows[r], v);
    SameColumnsUpdate(db, r, row.data);
    UpdateKeeps(db, r, row);
    StoreFrame(db, db.(rows := db.rows[r := row]), {LbIps});
  }

  lemma CreateLbKeeps(db: Db, zone: string, data: Doc, id: string, inlineId: string)
    requires StoreInv(db)
    ensures var out := CreateLb(db, zone, data, id, inlineId);
            && StoreInv(out.db) && ChangesOnly(db, out.db, {Lbs, LbIps})
            && (out.status != Done ==> out.db == db)
  {
    hide StoreInv, Facts, ActionFacts, ParentFacts, ChildFacts, NamedFacts, NullableActions, TableFacts, Intact,
      RowsOk, DnsOk, KeysOk, Insert, ChosenIp;
    InvParts(db);
    var ip := ChosenIp(data);
    if ip == "" {
      LbInsert(db, zone, CreatedLb(zone, data, id, InlineIp(inlineId, id, zone)), id);
      if LbRef(id) !in db.rows {
        InsertLbKeeps(db, zone, CreatedLb(zone, data, id, InlineIp(inlineId, id, zone)), id);
      }
    } else if LbIpRef(ip) in db.rows && Text(db.rows[LbIpRef(ip)].data, LbId) == "" {
      CreateLbWithIp(db, zone, data, id, inlineId);
    }
  }

  lemma CreatedLbFields(zone: string, data: Doc, id: string, entry: Doc)
    ensures Get(CreatedLb(zone, data, id, entry), Id) == Str(id)
    ensures Get(CreatedLb(zone, data, id, entry), Zone) == Str(zone)
  {
  }

  lemma CreateLbWithIp(db: Db, zone: string, data: Doc, id: string, inlineId: string)
    requires StoreInv(db) && ChosenIp(data) != "" && LbIpRef(ChosenIp(data)) in db.rows
    requires Text(db.rows[LbIpRef(ChosenIp(data))].data, LbId) == ""
    ensures var out := CreateLb(db, zone, data, id, inlineId);
            && StoreInv(out.db) && ChangesOnly(db, out.db, {Lbs, LbIps})
            && (out.status != Done ==> out.db == db)
  {
    hide StoreInv, Facts, ActionFacts, ParentFacts, ChildFacts, NamedFacts, NullableActions, TableFacts, Intact,
      RowsOk, DnsOk, KeysOk, Insert, ChosenIp, Update, CreatedLb, SameTable;
    InvParts(db);
    var ip := ChosenIp(data);
    var entry := db.rows[LbIpRef(ip)].data[LbId := Str(id)];
    var doc := CreatedLb(zone, data, id, entry);
    CreatedLbFields(zone, data, id, entry);
    LbInsert(db, zone, doc, id);
    if LbRef(id) in db.rows {
      NoChange(db, {Lbs, LbIps});
    } else {
      var made := db.(rows := db.rows[LbRef(id) := Row(map[Zone := zone], doc)]);
      InsertLbKeeps(db, zone, doc, id);
      SetLbIpKeeps(made, LbIpRef(ip), Str(id));
      var out := CreateLb(db, zone, data, id, inlineId);
      ChangesOnward(db, made, out.db, {Lbs}, {LbIps});
      assert {Lbs} + {LbIps} == {Lbs, LbIps};
    }
  }

  /**
   * CreateLB is all or nothing: it succeeds exactly when the chosen address, if any, is stored and free; then
   * the address names the new balancer, the balancer embeds the address, and no other row changed.
   */
  lemma CreateLbAllOrNothing(db: Db, zone: string, data: Doc, id: string, inlineId: string)
    requires StoreInv(db) && LbRef(id) !in db.rows
    ensures var out := CreateLb(db, zone, data, id, inlineId);
            var ip := ChosenIp(data);
            && (out.status == Done <==>
                  ip == "" || (LbIpRef(ip) in db.rows && Text(db.rows[LbIpRef(ip)].data, LbId) == ""))
            && (out.status == Done ==>
                  && LbRef(id) in out.db.rows && ColumnValue(out.db.rows[LbRef(id)], Zone) == Some(zone)
                  && out.db.rows.Keys == db.rows.Keys + {LbRef(id)}
                  && FirstIp(out.db.rows[LbRef(id)].data) == (if ip == "" then inlineId else ip)
                  && (ip != "" ==>
                        && Text(out.db.rows[LbIpRef(ip)].data, LbId) == id
                        && out.db.rows[LbIpRef(ip)].cols == db.rows[LbIpRef(ip)].cols)
                  && forall r | r in db.rows && (ip == "" || r != LbIpRef(ip)) ::
                       r in out.db.rows && out.db.rows[r] == db.rows[r])
            && (out.status != Done ==> out.db == db)
  {
    hide StoreInv, Facts, ActionFacts, ParentFacts, ChildFacts, NamedFacts, NullableActions, TableFacts, Intact,
      DnsOk, KeysOk, Insert, ChosenIp, RowOk;
    InvParts(db);
    var ip := ChosenIp(data);
    if ip == "" {
      LbInsert(db, zone, CreatedLb(zone, data, id, InlineIp(inlineId, id, zone)), id);
    } else if LbIpRef(ip) in db.rows {
      LbInsert(db, zone, CreatedLb(zone, data, id, db.rows[LbIpRef(ip)].data[LbId := Str(id)]), id);
      IdOf(db.schema, LbIpRef(ip), db.rows[LbIpRef(ip)]);
    }
  }

  lemma DeleteLbRowsOk(db: Db, id: string)
    requires TableFacts(db.schema) && RowsOk(db)
    ensures RowsOk(DeleteLb(db, id).db)
  {
    hide RowOk, TableFacts, Released, GoesWithLb, HasParts;
    forall r | r in db.rows && r.table == LbIps
      ensures RowOk(db.schema, r, ReleasedIp(db.rows[r]))
    {
      LbIpRowOk(db.schema, r, db.rows[r], Null);
    }
    assert forall r :: Released(db, r, id) ==> r.table == LbIps by { ReleasedTable(db, id); }
  }

  lemma ReleasedTable(db: Db, lb: string)
    ensures forall r :: Released(db, r, lb) ==> r.table == LbIps
  {
  }

  lemma LbGoneParent(db: Db, id: string, r: Ref, fk: ForeignKey)
    requires ParentFacts(db.schema.foreignKeys) && LbRef(id) in db.rows && !HasParts(db, id)
    requires r in db.rows && ParentsExist(db, r) && Uses(DeleteLb(db, id).db, r, fk)
    ensures Target(fk, DeleteLb(db, id).db.rows[r]) in DeleteLb(db, id).db.rows
  {
    hide DeleteLb, Released, ParentFacts, HasParts;
    LbGoneAt(db, id, r);
    ParentFact(db.schema.foreignKeys, fk);
    assert Uses(db, r, fk);
    LbGoneAt(db, id, Target(fk, db.rows[r]));
    assert !PartOf(db, r, id) by { NoPart(db, id, r); }
  }

  lemma NoPart(db: Db, id: string, r: Ref)
    requires !HasParts(db, id) && r in db.rows
    ensures !PartOf(db, r, id)
  {
  }

  /** DeleteLB at one row. */
  lemma LbGoneAt(db: Db, id: string, r: Ref)
    requires LbRef(id) in db.rows && !HasParts(db, id)
    ensures var next := DeleteLb(db, id).db;
            && next.schema == db.schema
            && (r in next.rows <==> r in db.rows && !GoesWithLb(r, db.rows[r], id))
            && (r in next.rows ==> next.rows[r].cols == db.rows[r].cols)
  {
    hide Released, GoesWithLb, HasParts;
  }

  /** The columns of the surviving rows are as they were. */
  lemma DeleteLbFrame(db: Db, id: string)
    ensures var next := DeleteLb(db, id).db;
            && next.schema == db.schema && next.rows.Keys <= db.rows.Keys
            && forall r | r in next.rows :: next.rows[r].cols == db.rows[r].cols
    ensures DeleteLb(db, id).status != Done ==> DeleteLb(db, id).db == db
    ensures DeleteLb(db, id).status == Done <==> LbRef(id) in db.rows && !HasParts(db, id)
  {
    hide Released, HasParts, GoesWithLb;
  }

  lemma DeleteLbIntact(db: Db, id: string)
    requires ParentFacts(db.schema.foreignKeys) && Intact(db)
    ensures Intact(DeleteLb(db, id).db)
  {
    hide DeleteLb, ParentFacts, HasParts;
    var next := DeleteLb(db, id).db;
    DeleteLbFrame(db, id);
    if DeleteLb(db, id).status == Done {
      forall r | r in next.rows
        ensures ParentsExist(next, r) && RequiredPresent(next.schema, r, next.rows[r])
      {
        assert ParentsExist(db, r) && RequiredPresent(db.schema, r, db.rows[r]);
        forall fk | fk in next.schema.foreignKeys && Uses(next, r, fk)
          ensures Target(fk, next.rows[r]) in next.rows
        {
          LbGoneParent(db, id, r, fk);
        }
      }
    }
  }

  lemma DeleteLbKeeps(db: Db, id: string)
    requires StoreInv(db)
    ensures var out := DeleteLb(db, id);
            && StoreInv(out.db)
            && ChangesOnly(db, out.db, {Lbs, LbIps, LbPrivateNetworks, LbRoutes, LbCertificates})
            && (out.status == Done ==> |out.db.rows| < |db.rows|)
  {
    hide StoreInv, Facts, ActionFacts, ParentFacts, ChildFacts, NamedFacts, NullableActions, TableFacts, Intact,
      RowsOk, DnsOk, KeysOk, RefersBy, HasParts;
    InvParts(db);
    DeleteLbRowsOk(db, id);
    DeleteLbIntact(db, id);
    var next := DeleteLb(db, id).db;
    StoreFrame(db, next, {Lbs, LbIps, LbPrivateNetworks, LbRoutes, LbCertificates});
    if DeleteLb(db, id).status == Done {
      FewerRows(db, next, LbRef(id));
    }
  }

  // ---- attachment --------------------------------------------------------------------------------------

  /** The id of the first entry of a balancer's embedded address list. */
  function FirstIp(doc: Doc): string {
    var ips := AsItems(Get(doc, Ip));
    if ips == [] then "" else Text(AsDoc(ips[0]), Id)
  }

  lemma FirstIpMentioned(doc: Doc)
    ensures FirstIp(doc) != "" ==> MentionsDoc(doc, FirstIp(doc))
  {
    if FirstIp(doc) != "" {
      var ips := doc[Ip].items;
      TextMentioned(AsDoc(ips[0]), Id);
      assert Mentions(ips[0], FirstIp(doc));
      assert Mentions(doc[Ip], FirstIp(doc));
    }
  }

  /** An attached address names a stored balancer of its own zone that embeds it. */
  ghost predicate Attached(db: Db, r: Ref) {
    r in db.rows && |r.key| == 1 &&
    var lb := LbRef(Text(db.rows[r].data, LbId));
    (Text(db.rows[r].data, LbId) != "" ==>
      && lb in db.rows && FirstIp(db.rows[lb].data) == r.key[0]
      && ColumnValue(db.rows[r], Zone) == ColumnValue(db.rows[lb], Zone))
  }

  /** A balancer whose first address is stored is the one that address names. */
  ghost predicate Embeds(db: Db, q: Ref) {
    q in db.rows && |q.key| == 1 &&
    var ip := LbIpRef(FirstIp(db.rows[q].data));
    ip in db.rows ==> Text(db.rows[ip].data, LbId) == q.key[0]
  }

  ghost predicate AttachInv(db: Db) {
    && LbRef("") !in db.rows
    && (forall r | r in db.rows && r.table == LbIps :: Attached(db, r))
    && (forall q | q in db.rows && q.table == Lbs :: Embeds(db, q))
  }

  /** The attachment is a partial bijection, stated both ways. */
  lemma AttachmentBijection(db: Db, ip: string, lb: string)
    requires AttachInv(db) && LbIpRef(ip) in db.rows && lb != ""
    ensures Text(db.rows[LbIpRef(ip)].data, LbId) == lb <==>
            LbRef(lb) in db.rows && FirstIp(db.rows[LbRef(lb)].data) == ip
  {
    assert Attached(db, LbIpRef(ip));
    if LbRef(lb) in db.rows {
      assert Embeds(db, LbRef(lb));
    }
  }

  lemma NoSharedIp(db: Db, a: string, b: string)
    requires AttachInv(db) && LbRef(a) in db.rows && LbRef(b) in db.rows
    requires FirstIp(db.rows[LbRef(a)].data) == FirstIp(db.rows[LbRef(b)].data)
    requires LbIpRef(FirstIp(db.rows[LbRef(a)].data)) in db.rows
    ensures a == b
  {
    assert Embeds(db, LbRef(a)) && Embeds(db, LbRef(b));
  }

  lemma CreateLbIpAttach(db: Db, id: string, params: map<Name, string>, data: Doc)
    requires StoreInv(db) && AttachInv(db) && Fresh(db, id) && KeyNamesOf(db.schema, LbIps) == [Id]
    requires LbId !in params
    ensures AttachInv(Create(db, LbIps, [id], params, data).db)
  {
    hide StoreInv, Facts, ActionFacts, ParentFacts, ChildFacts, NamedFacts, NullableActions, TableFacts, Intact,
      RowsOk, DnsOk, KeysOk, Create, MentionsDoc, FirstIp;
    InvParts(db);
    var out := Create(db, LbIps, [id], params, data);
    CreateKeeps(db, LbIps, [id], params, data);
    if out.status == Done {
      var doc := out.db.rows[LbIpRef(id)].data;
      assert SameTable(db, out.db, Lbs);
      SpelledId(Prepared(LbIps, WithParams(data, params)), id);
      assert Text(doc, LbId) == "";
      forall q | q in db.rows && q.table == Lbs
        ensures FirstIp(db.rows[q].data) != id
      {
        FirstIpMentioned(db.rows[q].data);
        assert Trim("") == "";
      }
      forall q | q in out.db.rows && q.table == Lbs
        ensures Embeds(out.db, q)
      {
        assert Embeds(db, q);
      }
      forall r | r in out.db.rows && r.table == LbIps
        ensures Attached(out.db, r)
      {
        assert r != LbIpRef(id) ==> Attached(db, r);
      }
    }
  }

  lemma SpelledId(doc: Doc, id: string)
    ensures Spelled(doc, [Id], [id]) == doc[Id := Str(id)]
  {
  }

  /** A new id is nobody's balancer, address, or attachment. */
  lemma FreshBalancer(db: Db, id: string)
    requires Fresh(db, id)
    ensures id != "" && LbRef(id) !in db.rows && LbIpRef(id) !in db.rows
    ensures forall r | r in db.rows :: Text(db.rows[r].data, LbId) != id
  {
    hide MentionsDoc;
    assert Trim("") == "";
    forall r | r in db.rows
      ensures Text(db.rows[r].data, LbId) != id
    {
      TextMentioned(db.rows[r].data, LbId);
    }
  }

  /** Attachment survives CreateLB when the chosen address lies in the new balancer's zone. */
  lemma CreateLbAttach(db: Db, zone: string, data: Doc, id: string, inlineId: string)
    requires StoreInv(db) && AttachInv(db) && Fresh(db, id) && Fresh(db, inlineId)
    requires LbIpRef(ChosenIp(data)) in db.rows ==> ColumnValue(db.rows[LbIpRef(ChosenIp(data))], Zone) == Some(zone)
    ensures AttachInv(CreateLb(db, zone, data, id, inlineId).db)
  {
    hide StoreInv, Facts, ActionFacts, ParentFacts, ChildFacts, NamedFacts, NullableActions, TableFacts, Intact,
      DnsOk, KeysOk, RowsOk, ChosenIp, FirstIp, CreateLb, MentionsDoc, Fresh;
    InvParts(db);
    var out := CreateLb(db, zone, data, id, inlineId);
    FreshBalancer(db, id);
    FreshBalancer(db, inlineId);
    CreateLbAllOrNothing(db, zone, data, id, inlineId);
    if out.status == Done {
      NewAttachments(db, out.db, ChosenIp(data), id, inlineId);
    }
  }

  /** What CreateLB leaves: a new balancer that embeds an address, and the address, if stored, naming it. */
  ghost predicate Placing(db: Db, next: Db, ip: string, id: string, inlineId: string) {
    && id != "" && LbRef(id) !in db.rows && LbIpRef(inlineId) !in db.rows
    && next.rows.Keys == db.rows.Keys + {LbRef(id)}
    && (forall r | r in db.rows && (ip == "" || r != LbIpRef(ip)) :: next.rows[r] == db.rows[r])
    && FirstIp(next.rows[LbRef(id)].data) == (if ip == "" then inlineId else ip)
    && (ip != "" ==>
          && LbIpRef(ip) in db.rows && Text(db.rows[LbIpRef(ip)].data, LbId) == ""
          && Text(next.rows[LbIpRef(ip)].data, LbId) == id
          && ColumnValue(next.rows[LbIpRef(ip)], Zone) == ColumnValue(next.rows[LbRef(id)], Zone))
  }

  lemma NewAttachments(db: Db, next: Db, ip: string, id: string, inlineId: string)
    requires AttachInv(db) && Placing(db, next, ip, id, inlineId)
    ensures AttachInv(next)
  {
    hide FirstIp, Attached, Embeds, Text, ColumnValue;
    forall r | r in next.rows && r.table == LbIps
      ensures Attached(next, r)
    {
      NewlyAttached(db, next, ip, id, inlineId, r);
    }
    forall q | q in next.rows && q.table == Lbs
      ensures Embeds(next, q)
    {
      NewlyEmbeds(db, next, ip, id, inlineId, q);
    }
  }

  lemma NewlyAttached(db: Db, next: Db, ip: string, id: string, inlineId: string, r: Ref)
    requires Placing(db, next, ip, id, inlineId) && r in db.rows && Attached(db, r) && r.table == LbIps
    ensures Attached(next, r)
  {
    hide FirstIp, Text, ColumnValue;
  }

  lemma NewlyEmbeds(db: Db, next: Db, ip: string, id: string, inlineId: string, q: Ref)
    requires Placing(db, next, ip, id, inlineId) && q in next.rows && q.table == Lbs
    requires q == LbRef(id) || Embeds(db, q)
    requires LbRef("") !in db.rows
    ensures Embeds(next, q)
  {
    hide FirstIp, Text, ColumnValue;
    if q != LbRef(id) {
      assert q.key == [q.key[0]];
    }
  }

  lemma DeleteLbAttach(db: Db, id: string)
    requires AttachInv(db)
    ensures AttachInv(DeleteLb(db, id).db)
    ensures DeleteLb(db, id).status == Done ==>
              forall r | r in DeleteLb(db, id).db.rows && r.table == LbIps ::
                Text(DeleteLb(db, id).db.rows[r].data, LbId) != id
  {
    hide DeleteLb, FirstIp, Attached, Embeds, HasParts;
    var out := DeleteLb(db, id);
    DeleteLbFrame(db, id);
    if out.status == Done {
      forall r | r in out.db.rows && r.table == LbIps
        ensures Attached(out.db, r) && Text(out.db.rows[r].data, LbId) != id
      {
        StillAttached(db, id, r);
      }
      forall q | q in out.db.rows && q.table == Lbs
        ensures Embeds(out.db, q)
      {
        StillEmbeds(db, id, q);
      }
    }
  }

  /** DeleteLB at one row: what goes, what is released, what stays. */
  lemma DeleteLbAt(db: Db, id: string, r: Ref)
    requires DeleteLb(db, id).status == Done
    ensures LbRef(id) in db.rows
    ensures r.table == LbIps || r.table == Lbs ==>
              (r in DeleteLb(db, id).db.rows <==> r in db.rows && r != LbRef(id))
    ensures r in DeleteLb(db, id).db.rows ==>
              r in db.rows
              && DeleteLb(db, id).db.rows[r] == if Released(db, r, id) then ReleasedIp(db.rows[r]) else db.rows[r]
  {
    hide Released, HasParts, RefersBy, ReleasedIp;
  }

  lemma StillAttached(db: Db, id: string, r: Ref)
    requires AttachInv(db) && DeleteLb(db, id).status == Done && r in DeleteLb(db, id).db.rows && r.table == LbIps
    ensures Attached(DeleteLb(db, id).db, r) && Text(DeleteLb(db, id).db.rows[r].data, LbId) != id
  {
    hide DeleteLb, FirstIp;
    DeleteLbAt(db, id, r);
    DeleteLbAt(db, id, LbRef(Text(db.rows[r].data, LbId)));
    assert Attached(db, r);
    assert LbRef(id).key[0] == id;
  }

  lemma StillEmbeds(db: Db, id: string, q: Ref)
    requires AttachInv(db) && DeleteLb(db, id).status == Done && q in DeleteLb(db, id).db.rows && q.table == Lbs
    ensures Embeds(DeleteLb(db, id).db, q)
  {
    hide DeleteLb, FirstIp;
    DeleteLbAt(db, id, q);
    assert Embeds(db, q);
    DeleteLbAt(db, id, LbIpRef(FirstIp(db.rows[q].data)));
    assert q.key == [q.key[0]];
  }

  lemma DeleteLbIpAttach(db: Db, id: string)
    requires StoreInv(db) && AttachInv(db)
    ensures AttachInv(DeleteLbIp(db, id).db)
  {
    hide StoreInv, Facts, ActionFacts, ParentFacts, ChildFacts, NamedFacts, NullableActions, TableFacts, Intact,
      RowsOk, DnsOk, KeysOk, Remove, FirstIp, AttachInv, Closure, Referrers;
    InvParts(db);
    if LbIpRef(id) in db.rows && Text(db.rows[LbIpRef(id)].data, LbId) == "" {
      RemoveKeeps(db, LbIps, [id]);
      var next := DeleteLbIp(db, id).db;
      assert SameTable(db, next, Lbs);
      assert forall r | r in next.rows :: r in db.rows && next.rows[r] == db.rows[r];
      FewerAttachments(db, next);
    }
  }

  lemma FewerAttachments(db: Db, next: Db)
    requires AttachInv(db) && SameTable(db, next, Lbs)
    requires forall r | r in next.rows :: r in db.rows && next.rows[r] == db.rows[r]
    ensures AttachInv(next)
  {
    hide FirstIp, Attached, Embeds;
    forall q | q in next.rows && q.table == Lbs
      ensures Embeds(next, q)
    {
      FewerEmbeds(db, next, q);
    }
    forall r | r in next.rows && r.table == LbIps
      ensures Attached(next, r)
    {
      FewerAttached(db, next, r);
    }
  }

  lemma FewerEmbeds(db: Db, next: Db, q: Ref)
    requires forall r | r in next.rows :: r in db.rows && next.rows[r] == db.rows[r]
    requires q in next.rows && Embeds(db, q)
    ensures Embeds(next, q)
  {
    hide FirstIp;
  }

  lemma FewerAttached(db: Db, next: Db, r: Ref)
    requires forall r | r in next.rows :: r in db.rows && next.rows[r] == db.rows[r]
    requires SameTable(db, next, Lbs) && r in next.rows && Attached(db, r)
    ensures Attached(next, r)
  {
    hide FirstIp;
  }

  /** An update that rewrites no attachment field: a zone, an address's lb_id, a balancer's address list. */
  predicate LeavesAttachment(t: Table, patch: Doc) {
    && Get(patch, Zone) == Null
    && (t == LbIps ==> Get(patch, LbId) == Null)
    && (t == Lbs ==> Get(patch, Ip) == Null)
  }

  lemma PatchAttach(db: Db, t: Table, id: string, patch: Doc)
    requires StoreInv(db) && AttachInv(db) && LeavesAttachment(t, patch)
    requires t == Lbs || t == LbIps
    ensures AttachInv(Patch(db, t, [id], patch).db)
  {
    hide StoreInv, Facts, ActionFacts, ParentFacts, ChildFacts, NamedFacts, NullableActions, TableFacts, Intact,
      RowsOk, DnsOk, KeysOk, Patch, PatchMerge, FirstIp, AttachInv, Text;
    InvParts(db);
    var r := Ref(t, [id]);
    var out := Patch(db, t, [id], patch);
    PatchKeeps(db, t, [id], patch);
    if out.status == Done {
      var was, doc := db.rows[r].data, out.db.rows[r].data;
      PatchedZone(db, t, id, patch);
      if t == LbIps {
        MergeAt(was, patch, Protected(db.schema, t), LbId);
        SameText(was, doc, LbId);
      } else {
        MergeAt(was, patch, Protected(db.schema, t), Ip);
        FirstIpOf(was, doc);
      }
      SameAttachRow(db, out.db, r);
    }
  }

  lemma SameText(a: Doc, b: Doc, k: Name)
    requires Get(a, k) == Get(b, k)
    ensures Text(a, k) == Text(b, k)
  {
  }

  /** A patch without a zone leaves the zone column of a balancer or an address as it is. */
  lemma PatchedZone(db: Db, t: Table, id: string, patch: Doc)
    requires StoreInv(db) && (t == Lbs || t == LbIps) && Get(patch, Zone) == Null
    requires Patch(db, t, [id], patch).status == Done
    ensures var next := Patch(db, t, [id], patch).db;
            && Ref(t, [id]) in db.rows && Ref(t, [id]) in next.rows
            && ColumnValue(next.rows[Ref(t, [id])], Zone) == ColumnValue(db.rows[Ref(t, [id])], Zone)
  {
    hide StoreInv, Facts, ActionFacts, ParentFacts, ChildFacts, NamedFacts, NullableActions, TableFacts, Intact,
      RowsOk, DnsOk, KeysOk, Patch, PatchMerge, ColumnValue;
    InvParts(db);
    var r := Ref(t, [id]);
    PatchKeeps(db, t, [id], patch);
    MergeAt(db.rows[r].data, patch, Protected(db.schema, t), Zone);
    ZoneColumn(db, r);
    ZoneColumn(Patch(db, t, [id], patch).db, r);
  }

  /** One row rewritten with the same attachment fields. */
  lemma SameAttachRow(db: Db, next: Db, r: Ref)
    requires AttachInv(db) && r in db.rows && r in next.rows && next.rows == db.rows[r := next.rows[r]]
    requires r.table == LbIps ==> Text(next.rows[r].data, LbId) == Text(db.rows[r].data, LbId)
    requires r.table == Lbs ==> FirstIp(next.rows[r].data) == FirstIp(db.rows[r].data)
    requires ColumnValue(next.rows[r], Zone) == ColumnValue(db.rows[r], Zone)
    ensures AttachInv(next)
  {
    hide FirstIp, ColumnValue, Text, Attached, Embeds;
    forall q | q in next.rows && q.table == Lbs
      ensures Embeds(next, q)
    {
      SameEmbeds(db, next, r, q);
    }
    forall p | p in next.rows && p.table == LbIps
      ensures Attached(next, p)
    {
      SameAttached(db, next, r, p);
    }
  }

  lemma SameEmbeds(db: Db, next: Db, r: Ref, q: Ref)
    requires Embeds(db, q) && q.table == Lbs
    requires r in db.rows && r in next.rows && next.rows == db.rows[r := next.rows[r]]
    requires r.table == LbIps ==> Text(next.rows[r].data, LbId) == Text(db.rows[r].data, LbId)
    requires r.table == Lbs ==> FirstIp(next.rows[r].data) == FirstIp(db.rows[r].data)
    ensures Embeds(next, q)
  {
    hide FirstIp, Text;
  }

  lemma SameAttached(db: Db, next: Db, r: Ref, p: Ref)
    requires Attached(db, p) && p.table == LbIps
    requires r in db.rows && r in next.rows && next.rows == db.rows[r := next.rows[r]]
    requires r.table == LbIps ==> Text(next.rows[r].data, LbId) == Text(db.rows[r].data, LbId)
    requires r.table == Lbs ==> FirstIp(next.rows[r].data) == FirstIp(db.rows[r].data)
    requires ColumnValue(next.rows[r], Zone) == ColumnValue(db.rows[r], Zone)
    ensures Attached(next, p)
  {
    hide FirstIp, Text, ColumnValue;
  }

  lemma FirstIpOf(a: Doc, b: Doc)
    requires Get(a, Ip) == Get(b, Ip)
    ensures FirstIp(a) == FirstIp(b)
  {
  }

  lemma ZoneColumn(db: Db, r: Ref)
    requires StoreInv(db) && r in db.rows && (r.table == Lbs || r.table == LbIps)
    ensures ColumnValue(db.rows[r], Zone) == Some(Text(db.rows[r].data, Zone))
  {
    hide StoreInv, Facts, ActionFacts, ParentFacts, ChildFacts, NamedFacts, NullableActions, Intact, DnsOk, KeysOk,
      RequiredFacts, KeyNameFacts, SpellsKey;
    InvParts(db);
    assert SourcesOf(db.schema, r.table) == Column(Zone, Plain);
    assert RowOk(db.schema, r, db.rows[r]);
    assert Agrees(Source([Zone], Plain), db.rows[r].data, ColumnValue(db.rows[r], Zone));
  }

  // ---- exact outcomes ------------------------------------------------------------------------------------

  /** DeleteLB conflicts exactly when the balancer has a frontend or a backend, and then nothing at all changes. */
  lemma DeleteLbExact(db: Db, id: string)
    ensures var out := DeleteLb(db, id);
            && (out.status == Failed(Conflict) <==> LbRef(id) in db.rows && HasParts(db, id))
            && (out.status == Failed(NotFound) <==> LbRef(id) !in db.rows)
            && (out.status != Done ==> out.db == db)
  {
  }

  /**
   * A successful DeleteLB leaves no row that names the balancer in an lb_id column, clears the documents of the
   * released addresses and nothing else of them, and keeps every other row.
   */
  lemma DeleteLbLeaves(db: Db, id: string)
    requires DeleteLb(db, id).status == Done
    ensures var next := DeleteLb(db, id).db;
            && LbRef(id) !in next.rows
            && (forall r |
                  r in next.rows && r.table in {LbFrontends, LbBackends, LbPrivateNetworks, LbRoutes, LbCertificates} ::
                  ColumnValue(next.rows[r], LbId) != Some(id))
            && (forall r | r in db.rows && Released(db, r, id) ::
                  r in next.rows && next.rows[r] == ReleasedIp(db.rows[r]))
            && (forall r | r in db.rows && !GoesWithLb(r, db.rows[r], id) && !Released(db, r, id) ::
                  r in next.rows && next.rows[r] == db.rows[r])
  {
    hide DeleteLb, Released, ReleasedIp, GoesWithLb;
    var next := DeleteLb(db, id).db;
    DeleteLbAt(db, id, LbRef(id));
    forall r
      ensures r in next.rows && r.table in {LbFrontends, LbBackends, LbPrivateNetworks, LbRoutes, LbCertificates} ==>
                ColumnValue(next.rows[r], LbId) != Some(id)
      ensures r in db.rows && Released(db, r, id) ==> r in next.rows && next.rows[r] == ReleasedIp(db.rows[r])
      ensures r in db.rows && !GoesWithLb(r, db.rows[r], id) && !Released(db, r, id) ==>
                r in next.rows && next.rows[r] == db.rows[r]
    {
      DeleteLbRow(db, id, r);
    }
  }

  lemma DeleteLbRow(db: Db, id: string, r: Ref)
    requires DeleteLb(db, id).status == Done
    ensures var next := DeleteLb(db, id).db;
            && (r in next.rows && r.table in {LbFrontends, LbBackends, LbPrivateNetworks, LbRoutes, LbCertificates} ==>
                  ColumnValue(next.rows[r], LbId) != Some(id))
            && (r in db.rows && Released(db, r, id) ==> r in next.rows && next.rows[r] == ReleasedIp(db.rows[r]))
            && (r in db.rows && !GoesWithLb(r, db.rows[r], id) && !Released(db, r, id) ==>
                  r in next.rows && next.rows[r] == db.rows[r])
  {
    hide ReleasedIp;
    if r in db.rows {
      assert !PartOf(db, r, id);
    }
  }

  /** After a delete an address still names the balancer exactly when one of another zone named it before. */
  lemma DeleteLbDangles(db: Db, id: string)
    requires DeleteLb(db, id).status == Done && id != ""
    ensures var next := DeleteLb(db, id).db;
            && LbRef(id) !in next.rows
            && ((exists r | r in next.rows && r.table == LbIps :: Text(next.rows[r].data, LbId) == id) <==>
                (exists r | r in db.rows && r.table == LbIps ::
                   && Text(db.rows[r].data, LbId) == id
                   && ColumnValue(db.rows[r], Zone) != ColumnValue(db.rows[LbRef(id)], Zone)))
  {
    var next := DeleteLb(db, id).db;
    forall r | r in db.rows && r.table == LbIps
      ensures r in next.rows
      ensures Text(next.rows[r].data, LbId) == id <==>
              && Text(db.rows[r].data, LbId) == id
              && ColumnValue(db.rows[r], Zone) != ColumnValue(db.rows[LbRef(id)], Zone)
    {
    }
    if r :| r in db.rows && r.table == LbIps && Text(db.rows[r].data, LbId) == id
            && ColumnValue(db.rows[r], Zone) != ColumnValue(db.rows[LbRef(id)], Zone) {
      assert r in next.rows && Text(next.rows[r].data, LbId) == id;
    }
  }

  /**
   * An address used by a balancer of another zone is stuck: once that balancer is gone, deleting the address
   * still reports a conflict.
   */
  lemma CrossZoneAddressIsStuck(db: Db, zone: string, ip: string, id: string, inlineId: string)
    requires StoreInv(db) && id != "" && LbRef(id) !in db.rows && !HasParts(db, id)
    requires ip != "" && LbIpRef(ip) in db.rows && Text(db.rows[LbIpRef(ip)].data, LbId) == ""
    requires ColumnValue(db.rows[LbIpRef(ip)], Zone) != Some(zone)
    ensures var made := CreateLb(db, zone, map[IpId := Str(ip)], id, inlineId);
            && made.status == Done
            && var gone := DeleteLb(made.db, id);
               && gone.status == Done && LbRef(id) !in gone.db.rows
               && DeleteLbIp(gone.db, ip).status == Failed(Conflict)
  {
    hide StoreInv, Facts, ActionFacts, ParentFacts, ChildFacts, NamedFacts, NullableActions, TableFacts, Intact,
      RowsOk, DnsOk, KeysOk, Insert;
    InvParts(db);
    var data: Doc := map[IpId := Str(ip)];
    assert ChosenIp(data) == ip;
    LbInsert(db, zone, CreatedLb(zone, data, id, db.rows[LbIpRef(ip)].data[LbId := Str(id)]), id);
    var made := CreateLb(db, zone, data, id, inlineId).db;
    forall r | r in made.rows
      ensures !PartOf(made, r, id)
    {
      assert r in db.rows ==> !PartOf(db, r, id);
    }
  }
}
