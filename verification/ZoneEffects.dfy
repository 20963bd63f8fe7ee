/** What PatchDomainRecords and the zone calls do, record by record and field by field. */
module ZoneEffects {
  import opened Wrappers
  import opened Documents
  import opened Relational
  import opened MockwaySchema
  import opened Store
  import opened Dns

  // ---- the parts of a change -------------------------------------------------------------------------------------

  function Part(change: Json, k: Name): Doc {
    AsDoc(Get(AsDoc(change), k))
  }

  /** The id under "delete". */
  function Dropped(change: Json): string {
    AsString(Get(Part(change, Delete), Id))
  }

  /** Entries that are no objects are skipped, and the others are taken in order. */
  lemma {:induction false} ObjectsOf(items: seq<Json>, docs: seq<Doc>)
    requires |items| == |docs| && forall i | 0 <= i < |items| :: items[i] == Obj(docs[i])
    ensures Objects(items) == docs
  {
    if items != [] {
      var n := |items| - 1;
      ObjectsOf(items[..n], docs[..n]);
      assert docs == docs[..n] + [docs[n]];
    }
  }

  lemma {:induction false} ObjectsSkip(before: seq<Json>, x: Json, after: seq<Json>)
    requires !x.Obj?
    ensures Objects(before + [x] + after) == Objects(before + after)
  {
    if after == [] {
      assert (before + [x] + after)[..|before|] == before && before + after == before;
    } else {
      var n := |after| - 1;
      ObjectsSkip(before, x, after[..n]);
      assert (before + [x] + after)[..|before| + 1 + n] == before + [x] + after[..n];
      assert (before + after)[..|before| + n] == before + after[..n];
    }
  }

  // ---- one change, in terms of the records -------------------------------------------------------------------------

  /** A record survives a change unless "delete" names it or every one of the set's id_fields equals its own field. */
  predicate Survives(change: Json, key: seq<string>, doc: Doc) {
    && (Dropped(change) == "" || key != [Dropped(change)])
    && (Get(Part(change, Set), IdFields).Obj? ==>
          exists k | k in Get(Part(change, Set), IdFields).fields ::
            Get(doc, k) != Get(Part(change, Set), IdFields).fields[k])
  }

  lemma UnmatchedAt(recs: ZoneRecords, idFields: Json, r: Ref)
    ensures r in Unmatched(recs, idFields) <==>
            r in recs && (idFields.Obj? ==> exists k | k in idFields.fields :: Get(recs[r], k) != idFields.fields[k])
    ensures r in Unmatched(recs, idFields) ==> Unmatched(recs, idFields)[r] == recs[r]
  {
  }

  /** The records before the set part of a change adds its own. */
  function KeptByChange(recs: ZoneRecords, change: Json, adds: ZoneRecords): ZoneRecords {
    var kept := if Dropped(change) == "" then recs + adds else recs + adds - {RecordRef(Dropped(change))};
    Unmatched(kept, Get(Part(change, Set), IdFields))
  }

  lemma ChangeParts(recs: ZoneRecords, change: Json, ids: seq<string>)
    requires |ids| == Needs(change)
    ensures var n := |Sent(change, Add)|;
            n <= |ids| && ApplyChange(recs, change, ids) ==
            KeptByChange(recs, change, NewRecords(Sent(change, Add), ids[..n])) +
              NewRecords(Sent(change, Set), ids[n..])
  {
    hide Unmatched, NewRecords, Objects;
  }

  lemma KeptAt(recs: ZoneRecords, change: Json, adds: ZoneRecords, r: Ref)
    requires r.table == DomainRecords
    ensures var all := recs + adds;
            && (r in KeptByChange(recs, change, adds) <==> r in all && Survives(change, r.key, all[r]))
            && (r in KeptByChange(recs, change, adds) ==> KeptByChange(recs, change, adds)[r] == all[r])
  {
    hide Unmatched, Survives;
    var all := recs + adds;
    var kept := if Dropped(change) == "" then all else all - {RecordRef(Dropped(change))};
    UnmatchedAt(kept, Get(Part(change, Set), IdFields), r);
    if r in all {
      SurvivesMeans(change, r, all[r]);
    }
  }

  lemma SurvivesMeans(change: Json, r: Ref, doc: Doc)
    requires r.table == DomainRecords
    ensures var idFields := Get(Part(change, Set), IdFields);
            Survives(change, r.key, doc) <==>
              && (Dropped(change) == "" || r != RecordRef(Dropped(change)))
              && (idFields.Obj? ==> exists k | k in idFields.fields :: Get(doc, k) != idFields.fields[k])
  {
    assert r == RecordRef(Dropped(change)) <==> r.key == [Dropped(change)];
  }

  /** A record that was there before. */
  lemma OldRecord(recs: ZoneRecords, change: Json, ids: seq<string>, r: Ref)
    requires |ids| == Needs(change) && r in recs && r.table == DomainRecords && |r.key| == 1 && r.key[0] !in ids
    ensures r in ApplyChange(recs, change, ids) <==> Survives(change, r.key, recs[r])
    ensures r in ApplyChange(recs, change, ids) ==> ApplyChange(recs, change, ids)[r] == recs[r]
  {
    hide ApplyChange, KeptByChange, NewRecords, Survives, Needs, Sent;
    var n := |Sent(change, Add)|;
    ChangeParts(recs, change, ids);
    NewRecordsProper(Sent(change, Add), ids[..n]);
    ChangeLengths(change, ids);
    NewRecordsProper(Sent(change, Set), ids[n..]);
    KeptAt(recs, change, NewRecords(Sent(change, Add), ids[..n]), r);
  }

  lemma ChangeLengths(change: Json, ids: seq<string>)
    requires |ids| == Needs(change)
    ensures |Sent(change, Add)| <= |ids| && |Sent(change, Set)| == |ids[|Sent(change, Add)|..]|
  {
  }

  /** The document sent for the i-th new id: those under "add" first, then those under "set". */
  function SentAt(change: Json, i: nat): Doc
    requires i < Needs(change)
  {
    if i < |Sent(change, Add)| then Sent(change, Add)[i] else Sent(change, Set)[i - |Sent(change, Add)|]
  }

  /** A record the change sends: one under "set" is stored, one under "add" if the rest of the change spares it. */
  lemma SentRecord(recs: ZoneRecords, change: Json, ids: seq<string>, i: nat)
    requires |ids| == Needs(change) && i < |ids|
    requires forall a, b | 0 <= a < b < |ids| :: ids[a] != ids[b]
    ensures var doc, r := SentAt(change, i)[Id := Str(ids[i])], RecordRef(ids[i]);
            && (r in ApplyChange(recs, change, ids) <==> i >= |Sent(change, Add)| || Survives(change, [ids[i]], doc))
            && (r in ApplyChange(recs, change, ids) ==> ApplyChange(recs, change, ids)[r] == doc)
  {
    hide ApplyChange, KeptByChange, NewRecords, Survives, Needs, Sent;
    var n := |Sent(change, Add)|;
    ChangeLengths(change, ids);
    ChangeParts(recs, change, ids);
    var adds, sets := NewRecords(Sent(change, Add), ids[..n]), NewRecords(Sent(change, Set), ids[n..]);
    NewRecordsProper(Sent(change, Set), ids[n..]);
    if i < n {
      NewRecordAt(Sent(change, Add), ids[..n], i);
      KeptAt(recs, change, adds, RecordRef(ids[i]));
      assert RecordRef(ids[i]).key[0] == ids[i] && ids[i] !in ids[n..];
    } else {
      assert ids[n..][i - n] == ids[i];
      NewRecordAt(Sent(change, Set), ids[n..], i - n);
    }
  }

  /** Every other reference is unused afterwards. */
  lemma NoOtherRecord(recs: ZoneRecords, change: Json, ids: seq<string>, r: Ref)
    requires |ids| == Needs(change) && r in ApplyChange(recs, change, ids) && r !in recs && ProperRecords(recs)
    ensures exists i | 0 <= i < |ids| :: r == RecordRef(ids[i])
  {
    hide ApplyChange, Needs;
    ApplyChangeProper(recs, change, ids);
    var i :| 0 <= i < |ids| && ids[i] == r.key[0];
    assert r == RecordRef(ids[i]);
  }

  // ---- one change, as a call ---------------------------------------------------------------------------------------

  /** Row r is a record of the zone. */
  predicate RecordIn(db: Db, r: Ref, zone: string) {
    r in db.rows && r.table == DomainRecords && DnsZone in db.rows[r].cols && db.rows[r].cols[DnsZone] == zone
  }

  lemma ChangeCall(db: Db, zone: string, change: Json, ids: seq<string>)
    requires StoreInv(db) && ZoneRef(zone) in db.rows && |ids| == Needs(change) && NewIdsFor(db, ids)
    ensures NeedsAll([change]) == |ids|
    ensures var out := PatchRecords(db, zone, [change], ids);
            && out.status == Done && StoreInv(out.db) && OnlyZone(db, out.db, zone)
            && RecordsOf(out.db, zone) == ApplyChange(RecordsOf(db, zone), change, ids)
  {
    hide StoreInv, RecordsOf, OnlyZone, NewIdsFor, Needs, ApplyChange, PatchRecords;
    SingleChange(RecordsOf(db, zone), change, ids);
    PatchRecordsIsFold(db, zone, [change], ids);
  }

  lemma RecordAt(db: Db, r: Ref, zone: string)
    requires StoreInv(db)
    ensures r in RecordsOf(db, zone) <==> RecordIn(db, r, zone)
    ensures RecordIn(db, r, zone) ==> r in db.rows
    ensures r in RecordsOf(db, zone) ==> db.rows[r] == Row(map[DnsZone := zone], RecordsOf(db, zone)[r])
  {
    hide StoreInv, Facts, ActionFacts, ParentFacts, ChildFacts, NamedFacts, NullableActions, TableFacts, Intact, RowsOk,
      KeysOk;
    InvParts(db);
    RecordRowAt(db, r, zone);
  }

  lemma RecordRowAt(db: Db, r: Ref, zone: string)
    requires DnsOk(db)
    ensures r in RecordsOf(db, zone) <==> RecordIn(db, r, zone)
    ensures RecordIn(db, r, zone) ==> r in db.rows
    ensures r in RecordsOf(db, zone) ==> db.rows[r] == Row(map[DnsZone := zone], RecordsOf(db, zone)[r])
  {
    hide ZoneKey, DnsOk;
    if r in db.rows && r.table == DomainRecords {
      OneColumn(db, r);
    }
  }

  lemma OneColumn(db: Db, r: Ref)
    requires DnsOk(db) && r in db.rows && r.table == DomainRecords
    ensures DnsZone in db.rows[r].cols && db.rows[r].cols == map[DnsZone := db.rows[r].cols[DnsZone]]
  {
    hide ZoneKey;
    var cols := db.rows[r].cols;
    assert cols.Keys == {DnsZone};
  }

  /**
   * After one change a record of the zone that was there before is still there, unchanged, if and only if "delete"
   * does not name it and some id_field, if the change has any, differs from the record's own field.
   */
  lemma ChangeKeepsRecord(db: Db, zone: string, change: Json, ids: seq<string>, r: Ref)
    requires StoreInv(db) && ZoneRef(zone) in db.rows && |ids| == NeedsAll([change]) && NewIdsFor(db, ids)
    requires RecordIn(db, r, zone)
    ensures var next := PatchRecords(db, zone, [change], ids).db;
            && (r in next.rows ==> next.rows[r] == db.rows[r])
            && (r in next.rows <==>
                  && (Dropped(change) == "" || r.key != [Dropped(change)])
                  && (Get(Part(change, Set), IdFields).Obj? ==>
                        exists k | k in Get(Part(change, Set), IdFields).fields ::
                          Get(db.rows[r].data, k) != Get(Part(change, Set), IdFields).fields[k]))
  {
    hide StoreInv, NewIdsFor, PatchRecords, RecordIn, Part, Dropped;
    ChangeSpares(db, zone, change, ids, r);
  }

  lemma ChangeSpares(db: Db, zone: string, change: Json, ids: seq<string>, r: Ref)
    requires StoreInv(db) && ZoneRef(zone) in db.rows && |ids| == NeedsAll([change]) && NewIdsFor(db, ids)
    requires RecordIn(db, r, zone)
    ensures r in db.rows
    ensures var next := PatchRecords(db, zone, [change], ids).db;
            && (r in next.rows <==> Survives(change, r.key, db.rows[r].data))
            && (r in next.rows ==> next.rows[r] == db.rows[r])
  {
    hide StoreInv, RecordsOf, NewIdsFor, Needs, ApplyChange, PatchRecords, RecordIn, Survives, OnlyZone;
    OneNeed(change);
    ChangeCall(db, zone, change, ids);
    var next := PatchRecords(db, zone, [change], ids).db;
    RecordAt(db, r, zone);
    RecordAt(next, r, zone);
    OldKey(db, zone, ids, r);
    OldRecord(RecordsOf(db, zone), change, ids, r);
    if r in next.rows {
      RecordMoves(db, next, zone, r);
    }
  }

  lemma OneNeed(change: Json)
    ensures NeedsAll([change]) == Needs(change)
  {
    hide Needs;
    assert [change][..0] == [];
  }

  lemma OldKey(db: Db, zone: string, ids: seq<string>, r: Ref)
    requires StoreInv(db) && NewIdsFor(db, ids) && r in RecordsOf(db, zone)
    ensures r in db.rows && r.table == DomainRecords && |r.key| == 1 && r.key[0] !in ids
  {
    hide StoreInv, NewIdsFor;
    RecordsOfProper(db, zone);
    if i :| 0 <= i < |ids| && ids[i] == r.key[0] {
      NewIdUnused(db, ids, i, r);
      assert false;
    }
  }

  /** Where a record of another zone would have been in the way. */
  lemma RecordMoves(db: Db, next: Db, zone: string, r: Ref)
    requires OnlyZone(db, next, zone) && RecordIn(db, r, zone) && r in next.rows
    ensures RecordIn(next, r, zone)
  {
    hide ChangesOnly;
  }

  /** A record sent under "set" is stored with its new id, and one under "add" unless the change removes it again. */
  lemma ChangeStoresRecord(db: Db, zone: string, change: Json, ids: seq<string>, i: nat)
    requires StoreInv(db) && ZoneRef(zone) in db.rows && |ids| == NeedsAll([change]) && NewIdsFor(db, ids) && i < |ids|
    ensures NeedsAll([change]) == Needs(change)
    ensures var next, doc := PatchRecords(db, zone, [change], ids).db, SentAt(change, i)[Id := Str(ids[i])];
            && (RecordRef(ids[i]) in next.rows <==> i >= |Sent(change, Add)| || Survives(change, [ids[i]], doc))
            && (RecordRef(ids[i]) in next.rows ==> next.rows[RecordRef(ids[i])] == Row(map[DnsZone := zone], doc))
  {
    hide StoreInv, RecordsOf, Needs, ApplyChange, PatchRecords, RecordIn, Survives, SentAt, Fresh, OnlyZone, Sent;
    OneNeed(change);
    ChangeCall(db, zone, change, ids);
    var next := PatchRecords(db, zone, [change], ids).db;
    RecordAt(next, RecordRef(ids[i]), zone);
    SentRecord(RecordsOf(db, zone), change, ids, i);
    NewRecordUnstored(db, ids, i);
    if RecordRef(ids[i]) in next.rows {
      NewRecordInZone(db, next, zone, RecordRef(ids[i]));
    }
  }

  lemma NewRecordInZone(db: Db, next: Db, zone: string, r: Ref)
    requires OnlyZone(db, next, zone) && r !in db.rows && r in next.rows
    ensures RecordIn(next, r, zone)
  {
    hide ChangesOnly;
  }

  /** No other row appears, changes or goes. */
  lemma ChangeElsewhere(db: Db, zone: string, change: Json, ids: seq<string>, r: Ref)
    requires StoreInv(db) && ZoneRef(zone) in db.rows && |ids| == NeedsAll([change]) && NewIdsFor(db, ids)
    requires !RecordIn(db, r, zone) && forall i | 0 <= i < |ids| :: r != RecordRef(ids[i])
    ensures var next := PatchRecords(db, zone, [change], ids).db;
            && (r in next.rows <==> r in db.rows)
            && (r in db.rows ==> next.rows[r] == db.rows[r])
  {
    hide StoreInv, RecordsOf, NewIdsFor, Needs, ApplyChange, PatchRecords;
    OneNeed(change);
    ChangeCall(db, zone, change, ids);
    var next := PatchRecords(db, zone, [change], ids).db;
    RecordAt(db, r, zone);
    RecordAt(next, r, zone);
    if r in RecordsOf(next, zone) {
      RecordsOfProper(db, zone);
      NoOtherRecord(RecordsOf(db, zone), change, ids, r);
      assert false;
    }
    Unaffected(db, next, zone, r);
  }

  lemma Unaffected(db: Db, next: Db, zone: string, r: Ref)
    requires OnlyZone(db, next, zone) && !RecordIn(db, r, zone) && !RecordIn(next, r, zone)
    ensures (r in next.rows <==> r in db.rows) && (r in db.rows ==> next.rows[r] == db.rows[r])
  {
    hide ChangesOnly;
  }

  // ---- a list of changes -------------------------------------------------------------------------------------------

  /** A list of changes does what its changes do one call after another. */
  lemma ChangesOneByOne(db: Db, zone: string, changes: seq<Json>, last: Json, ids: seq<string>, more: seq<string>)
    requires StoreInv(db) && |ids| == NeedsAll(changes) && |more| == NeedsAll([last]) && NewIdsFor(db, ids)
    ensures NeedsAll(changes + [last]) == |ids + more|
    ensures PatchRecords(db, zone, changes + [last], ids + more) ==
            PatchRecords(PatchRecords(db, zone, changes, ids).db, zone, [last], more)
  {
    hide StoreInv, Needs, NewIdsFor, ApplyChange, WithRecords, RecordsOf;
    assert (changes + [last])[..|changes|] == changes;
    OneNeed(last);
    assert (ids + more)[..|ids|] == ids && (ids + more)[|ids|..] == more;
    PatchRecordsIsFold(db, zone, changes, ids);
    var next := PatchRecords(db, zone, changes, ids).db;
    if ZoneRef(zone) in db.rows {
      ZoneStays(db, next, zone);
      var recs := ApplyChanges(RecordsOf(db, zone), changes, ids);
      SingleChange(recs, last, more);
      assert ApplyChanges(RecordsOf(db, zone), changes + [last], ids + more) == ApplyChange(recs, last, more);
      PatchedRecordsPlaced(db, zone, changes, ids);
      RewrittenTwice(db, zone, recs, ApplyChange(recs, last, more));
    } else {
      assert next == db;
    }
  }

  lemma RewrittenTwice(db: Db, zone: string, recs: ZoneRecords, final: ZoneRecords)
    requires ProperRecords(recs) && forall r | r in recs :: r in db.rows ==> InZone(db, r, zone)
    ensures WithRecords(WithRecords(db, zone, recs), zone, final) == WithRecords(db, zone, final)
  {
    hide WithRecords, InZone;
    var once := WithRecords(db, zone, recs);
    var twice, direct := WithRecords(once, zone, final), WithRecords(db, zone, final);
    WithRecordsSchema(db, zone, recs);
    WithRecordsSchema(once, zone, final);
    WithRecordsSchema(db, zone, final);
    forall r
      ensures r in twice.rows <==> r in direct.rows
      ensures r in twice.rows ==> twice.rows[r] == direct.rows[r]
    {
      WithRecordsZone(db, zone, recs, r);
      WithRecordsAt(db, zone, recs, r);
      WithRecordsAt(once, zone, final, r);
      WithRecordsAt(db, zone, final, r);
    }
    assert twice.rows == direct.rows;
  }

  lemma NoChanges(db: Db, zone: string)
    requires StoreInv(db)
    ensures PatchRecords(db, zone, [], []) ==
            Outcome(db, if ZoneRef(zone) in db.rows then Done else Failed(NotFound))
  {
    hide StoreInv, WithRecords, RecordsOf, InZone;
    var next := WithRecords(db, zone, RecordsOf(db, zone));
    WithRecordsSchema(db, zone, RecordsOf(db, zone));
    forall r
      ensures r in next.rows <==> r in db.rows
      ensures r in next.rows ==> next.rows[r] == db.rows[r]
    {
      WithRecordsAt(db, zone, RecordsOf(db, zone), r);
      RecordAt(db, r, zone);
      RecordsOfAt(db, zone, r);
    }
    assert next.rows == db.rows;
  }

  lemma RecordsOfAt(db: Db, zone: string, r: Ref)
    ensures r in RecordsOf(db, zone) <==> InZone(db, r, zone)
  {
  }

  // ---- zones -------------------------------------------------------------------------------------------------------

  /** The key of a zone, spelled out: the subdomain, a dot and the domain, or the domain alone. */
  lemma ZoneKeySpelled(domain: string)
    ensures ZoneKey(map[Domain := Str(domain)]) == domain
    ensures ZoneKey(map[Domain := Str(domain), Subdomain := Str("")]) == domain
    ensures ZoneKey(map[Domain := Str("example.com"), Subdomain := Str("www")]) == "www.example.com"
    ensures forall sub: string | sub != "" ::
              ZoneKey(map[Domain := Str(domain), Subdomain := Str(sub)]) == sub + "." + domain
  {
  }

  /** A zone whose body has a subdomain and a domain is stored under both, exactly when no zone has that name yet. */
  lemma CreateZoneExact(db: Db, data: Doc)
    requires StoreInv(db)
    ensures var key := if Text(data, Subdomain) == "" then Text(data, Domain)
                       else Text(data, Subdomain) + "." + Text(data, Domain);
            CreateZone(db, data) ==
            if Ref(DnsZones, [key]) in db.rows then Outcome(db, Failed(Conflict))
            else
              Outcome(db.(rows := db.rows[Ref(DnsZones, [key]) := Row(map[Domain := Text(data, Domain)], data)]), Done)
  {
    hide StoreInv, Facts, ActionFacts, ParentFacts, NamedFacts, NullableActions, Intact, RowsOk, DnsOk, KeysOk,
      KeyNameFacts, Insert, Columns, Column, ChildFacts, RequiredFacts;
    InvParts(db);
    var r, row := ZoneRef(ZoneKey(data)), Row(map[Domain := Text(data, Domain)], data);
    assert SourcesOf(db.schema, DnsZones) == Column(Domain, Plain);
    DomainColumn(data);
    ZoneInsert(db, r, row);
  }

  lemma DomainColumn(data: Doc)
    ensures var none: map<Name, string> := map[];
            (none - Column(Domain, Plain).Keys) + Columns(Column(Domain, Plain), data, true) ==
            map[Domain := Text(data, Domain)]
  {
    assert TextAt(data, [Domain]) == Text(data, Domain);
    assert Extract(Source([Domain], Plain), data, true) == Some(Text(data, Domain));
  }

  lemma ZoneInsert(db: Db, r: Ref, row: Row)
    requires ChildFacts(db.schema.foreignKeys) && RequiredFacts(db.schema.required)
    requires r.table == DnsZones && Domain in row.cols
    ensures Insert(db, r, row) ==
            if r in db.rows then Err(Conflict) else Ok(db.(rows := db.rows[r := row]))
  {
    var next := db.(rows := db.rows[r := row]);
    forall fk | fk in next.schema.foreignKeys
      ensures !Uses(next, r, fk)
    {
      assert ByChild(fk);
    }
  }

  /** DeleteDNSZone, row by row: the zone and its records go, and every other row stays. */
  lemma DeleteZoneByRow(db: Db, zone: string, r: Ref)
    requires StoreInv(db)
    ensures DeleteZone(db, zone).status == (if Ref(DnsZones, [zone]) in db.rows then Done else Failed(NotFound))
    ensures var out := DeleteZone(db, zone);
            && (r in out.db.rows ==> r in db.rows && out.db.rows[r] == db.rows[r])
            && (r in out.db.rows <==>
                  && r in db.rows
                  && (Ref(DnsZones, [zone]) in db.rows ==> r != Ref(DnsZones, [zone]) && !RecordIn(db, r, zone)))
  {
    hide StoreInv, DeleteZone, InZone, ZoneRows;
    DeleteZoneRows(db, zone);
    DeleteZoneExact(db, zone);
    ZoneRowIn(db, zone, r);
  }

  lemma ZoneRowIn(db: Db, zone: string, r: Ref)
    ensures r in ZoneRows(db, zone) <==> r == Ref(DnsZones, [zone]) || RecordIn(db, r, zone)
  {
  }
}
