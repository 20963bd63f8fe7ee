/** What the calls on load balancers and their addresses do, row by row and field by field. */
module BalancerEffects {
  import opened Wrappers
  import opened Documents
  import opened Relational
  import opened MockwaySchema
  import opened Store
  import opened Balancers
  import DeclaredKeys

  // ---- CreateLB --------------------------------------------------------------------------------------------------

  /** The address is stored and names no balancer. */
  predicate FreeLbIp(db: Db, ip: string) {
    Ref(LbIps, [ip]) in db.rows && AsString(Get(db.rows[Ref(LbIps, [ip])].data, LbId)) == ""
  }

  /** A new balancer's row: its zone column, the fields CreateLB sets, and every other field as it was sent. */
  ghost predicate NewLb(row: Row, zone: string, data: Doc, id: string, entry: Doc) {
    && (forall c :: ColumnValue(row, c) == if c == Zone then Some(zone) else None)
    && Get(row.data, Id) == Str(id) && Get(row.data, Zone) == Str(zone) && Get(row.data, Ip) == Arr([Obj(entry)])
    && forall k | k !in {Id, Zone, Ip} :: Get(row.data, k) == Get(data, k)
  }

  lemma NewLbRow(zone: string, data: Doc, id: string, entry: Doc)
    ensures NewLb(Row(map[Zone := zone], CreatedLb(zone, data, id, entry)), zone, data, id, entry)
  {
  }

  /** The create that takes a stored address: it needs the address free, and then each names the other. */
  ghost predicate CreatesWith(db: Db, zone: string, data: Doc, id: string, inlineId: string, ip: string) {
    var out, a := CreateLb(db, zone, data, id, inlineId), Ref(LbIps, [ip]);
    if a !in db.rows then out == Outcome(db, Failed(NotFound))
    else if !FreeLbIp(db, ip) then out == Outcome(db, Failed(Conflict))
    else
      && out.status == Done && out.db.schema == db.schema && out.db.rows.Keys == db.rows.Keys + {Ref(Lbs, [id])}
      && NewLb(out.db.rows[Ref(Lbs, [id])], zone, data, id, db.rows[a].data[LbId := Str(id)])
      && Differs(db.rows[a], out.db.rows[a], map[], map[LbId := Str(id)])
      && forall r | r in db.rows && r != a :: out.db.rows[r] == db.rows[r]
  }

  /** The create that makes an address of its own, inside the balancer only. */
  ghost predicate CreatesInline(db: Db, zone: string, data: Doc, id: string, inlineId: string) {
    var out := CreateLb(db, zone, data, id, inlineId);
    && out.status == Done && out.db.schema == db.schema && out.db.rows.Keys == db.rows.Keys + {Ref(Lbs, [id])}
    && NewLb(out.db.rows[Ref(Lbs, [id])], zone, data, id, map[Id := Str(inlineId), LbId := Str(id), Zone := Str(zone)])
    && forall r | r in db.rows :: out.db.rows[r] == db.rows[r]
  }

  lemma CreatesChosen(db: Db, zone: string, data: Doc, id: string, inlineId: string)
    requires StoreInv(db) && Ref(Lbs, [id]) !in db.rows
    ensures var ip := ChosenIp(data);
            if ip == "" then CreatesInline(db, zone, data, id, inlineId)
            else CreatesWith(db, zone, data, id, inlineId, ip)
  {
    hide StoreInv, CreatesInline, CreatesWith;
    var ip := ChosenIp(data);
    if ip == "" {
      CreatesOwn(db, zone, data, id, inlineId);
    } else {
      CreatesStored(db, zone, data, id, inlineId);
    }
  }

  lemma CreatesOwn(db: Db, zone: string, data: Doc, id: string, inlineId: string)
    requires StoreInv(db) && Ref(Lbs, [id]) !in db.rows && ChosenIp(data) == ""
    ensures CreatesInline(db, zone, data, id, inlineId)
  {
    hide StoreInv, Facts, ActionFacts, ParentFacts, ChildFacts, NamedFacts, NullableActions, TableFacts, Intact, RowsOk,
      DnsOk, KeysOk, Insert, ChosenIp, NewLb, CreatedLb;
    InvParts(db);
    LbInsert(db, zone, CreatedLb(zone, data, id, InlineIp(inlineId, id, zone)), id);
    NewLbRow(zone, data, id, InlineIp(inlineId, id, zone));
  }

  lemma CreatesStored(db: Db, zone: string, data: Doc, id: string, inlineId: string)
    requires StoreInv(db) && Ref(Lbs, [id]) !in db.rows && ChosenIp(data) != ""
    ensures CreatesWith(db, zone, data, id, inlineId, ChosenIp(data))
  {
    hide StoreInv, Facts, ActionFacts, ParentFacts, ChildFacts, NamedFacts, NullableActions, TableFacts, Intact, RowsOk,
      DnsOk, KeysOk, Insert, ChosenIp, Differs, AttachedLbIp, NewLb, CreatedLb;
    InvParts(db);
    var ip := ChosenIp(data);
    if LbIpRef(ip) in db.rows {
      var entry := db.rows[LbIpRef(ip)].data[LbId := Str(id)];
      LbInsert(db, zone, CreatedLb(zone, data, id, entry), id);
      NewLbRow(zone, data, id, entry);
      AttachedLbIpOnly(db.rows[LbIpRef(ip)], id);
    }
  }

  lemma AttachedLbIpOnly(row: Row, lb: string)
    ensures Differs(row, AttachedLbIp(row, lb), map[], map[LbId := Str(lb)])
  {
  }

  /** The first of ip_ids is the address, whatever ip_id says and whatever else is listed. */
  lemma CreateLbByIpIds(db: Db, zone: string, data: Doc, id: string, inlineId: string, ip: string, rest: seq<Json>)
    requires StoreInv(db) && Ref(Lbs, [id]) !in db.rows
    requires Get(data, IpIds) == Arr([Str(ip)] + rest) && ip != ""
    ensures CreatesWith(db, zone, data, id, inlineId, ip)
  {
    hide StoreInv, CreatesWith, CreatesInline;
    CreatesChosen(db, zone, data, id, inlineId);
  }

  /** Without a usable first entry there, ip_id is the address; and without that the address is made inline. */
  lemma CreateLbByIpId(db: Db, zone: string, data: Doc, id: string, inlineId: string)
    requires StoreInv(db) && Ref(Lbs, [id]) !in db.rows
    requires !Get(data, IpIds).Arr? || Get(data, IpIds).items == [] || AsString(Get(data, IpIds).items[0]) == ""
    ensures Get(data, IpId).Str? && Get(data, IpId).s != "" ==>
              CreatesWith(db, zone, data, id, inlineId, Get(data, IpId).s)
    ensures !Get(data, IpId).Str? || Get(data, IpId).s == "" ==> CreatesInline(db, zone, data, id, inlineId)
  {
    hide StoreInv, CreatesWith, CreatesInline;
    CreatesChosen(db, zone, data, id, inlineId);
  }

  // ---- DeleteLB --------------------------------------------------------------------------------------------------

  /** Row r holds the balancer's id in its lb_id column. */
  predicate OfLb(db: Db, r: Ref, id: string) {
    r in db.rows && ColumnValue(db.rows[r], LbId) == Some(id)
  }

  /**
   * DeleteLB, row by row: a frontend or backend refuses it; otherwise the balancer goes with its links, routes and
   * certificates, an address of its zone that names it loses that and nothing else, and every other row stays.
   */
  lemma DeleteLbByRow(db: Db, id: string, r: Ref)
    ensures DeleteLb(db, id).status ==
            if Ref(Lbs, [id]) !in db.rows then Failed(NotFound)
            else if exists q :: OfLb(db, q, id) && q.table in {LbFrontends, LbBackends} then Failed(Conflict)
            else Done
    ensures DeleteLb(db, id).status != Done ==> DeleteLb(db, id).db == db
    ensures var out := DeleteLb(db, id);
            out.status == Done ==>
              && (r in out.db.rows <==>
                    && r in db.rows && r != Ref(Lbs, [id])
                    && !(OfLb(db, r, id) && r.table in {LbPrivateNetworks, LbRoutes, LbCertificates}))
              && (r in out.db.rows ==>
                    if r.table == LbIps && AsString(Get(db.rows[r].data, LbId)) == id
                       && ColumnValue(db.rows[r], Zone) == ColumnValue(db.rows[Ref(Lbs, [id])], Zone)
                    then Differs(db.rows[r], out.db.rows[r], map[], map[LbId := Null])
                    else out.db.rows[r] == db.rows[r])
  {
    hide ReleasedIp, Differs, PartOf, OfLb, GoesWithLb;
    if r in db.rows {
      ReleasedIpOnly(db.rows[r]);
    }
    forall q
      ensures q in db.rows && PartOf(db, q, id) <==> OfLb(db, q, id) && q.table in {LbFrontends, LbBackends}
    {
      OfLbMeans(db, q, id);
    }
    OfLbMeans(db, r, id);
  }

  lemma OfLbMeans(db: Db, r: Ref, id: string)
    ensures r in db.rows && PartOf(db, r, id) <==> OfLb(db, r, id) && r.table in {LbFrontends, LbBackends}
    ensures r in db.rows ==>
              (GoesWithLb(r, db.rows[r], id) <==>
               r == Ref(Lbs, [id]) || (OfLb(db, r, id) && r.table in {LbPrivateNetworks, LbRoutes, LbCertificates}))
    ensures OfLb(db, r, id) ==> r in db.rows
  {
  }

  lemma ReleasedIpOnly(row: Row)
    ensures Differs(row, ReleasedIp(row), map[], map[LbId := Null])
  {
  }

  /** DeleteLBIP: an address that names a balancer stays; any other goes alone. */
  lemma DeleteLbIpExact(db: Db, id: string)
    requires StoreInv(db)
    ensures DeleteLbIp(db, id) ==
            if Ref(LbIps, [id]) !in db.rows then Outcome(db, Failed(NotFound))
            else if AsString(Get(db.rows[Ref(LbIps, [id])].data, LbId)) != "" then Outcome(db, Failed(Conflict))
            else Outcome(db.(rows := db.rows - {Ref(LbIps, [id])}), Done)
  {
    hide StoreInv, Remove;
    DeclaredKeys.DeleteLeafRow(db, LbIps, [id]);
  }
}
