/** DNS zones and records, and the change list that edits them. */
module Dns {
  import opened Wrappers
  import opened Documents
  import opened Relational
  import opened MockwaySchema
  import opened Store
  import InstanceLaws

  function ZoneRef(zone: string): Ref { Ref(DnsZones, [zone]) }
  function RecordRef(id: string): Ref { Ref(DomainRecords, [id]) }

  // ---- zones ---------------------------------------------------------------------------------------

  function CreateZone(db: Db, data: Doc): Outcome {
    Single(db, CreateRow(db, ZoneRef(ZoneKey(data)), map[], data))
  }

  predicate InZone(db: Db, r: Ref, zone: string) {
    r in db.rows && r.table == DomainRecords && ColumnValue(db.rows[r], DnsZone) == Some(zone)
  }

  /** A zone's row and its records. */
  function ZoneRows(db: Db, zone: string): set<Ref> {
    {ZoneRef(zone)} + set r | r in db.rows && InZone(db, r, zone)
  }

  /** The store without the records of a zone. */
  function EmptiedZone(db: Db, zone: string): Db {
    db.(rows := map r | r in db.rows && !InZone(db, r, zone) :: db.rows[r])
  }

  /** DeleteDNSZone: the records go first, by a statement of their own, and only then is the zone looked for. */
  function DeleteZone(db: Db, zone: string): Outcome {
    var emptied := EmptiedZone(db, zone);
    if ZoneRef(zone) in db.rows then Outcome(db.(rows := emptied.rows - {ZoneRef(zone)}), Done)
    else Outcome(emptied, Failed(NotFound))
  }

  // ---- the change list, as a fold --------------------------------------------------------------------

  /** The records of one zone: their row and their document. */
  type ZoneRecords = map<Ref, Doc>

  function Objects(items: seq<Json>): seq<Doc> {
    if items == [] then []
    else Objects(items[..|items| - 1]) + if items[|items| - 1].Obj? then [items[|items| - 1].fields] else []
  }

  /** The records a change adds under "add" or "set". */
  function Sent(change: Json, kind: Name): seq<Doc> {
    Objects(AsItems(Get(AsDoc(Get(AsDoc(change), kind)), Records)))
  }

  function NewRecords(docs: seq<Doc>, ids: seq<string>): ZoneRecords
    requires |docs| == |ids|
  {
    if docs == [] then map[]
    else NewRecords(docs[..|docs| - 1], ids[..|ids| - 1])
           [RecordRef(ids[|ids| - 1]) := docs[|docs| - 1][Id := Str(ids[|ids| - 1])]]
  }

  /** A record matches id_fields when every listed field has the listed value; an absent field reads as null. */
  predicate Matches(doc: Doc, idFields: Doc) {
    forall k | k in idFields :: Get(doc, k) == idFields[k]
  }

  function Unmatched(recs: ZoneRecords, idFields: Json): ZoneRecords {
    map r | r in recs && !(idFields.Obj? && Matches(recs[r], idFields.fields)) :: recs[r]
  }

  /** How many new ids a change draws. */
  function Needs(change: Json): nat {
    |Sent(change, Add)| + |Sent(change, Set)|
  }

  /** One change: add, then delete by id, then replace what matches id_fields. */
  function ApplyChange(recs: ZoneRecords, change: Json, ids: seq<string>): ZoneRecords
    requires |ids| == Needs(change)
  {
    var body := AsDoc(change);
    var n := |Sent(change, Add)|;
    var added := recs + NewRecords(Sent(change, Add), ids[..n]);
    var deleted := added - {RecordRef(Text(AsDoc(Get(body, Delete)), Id))};
    var kept := if Text(AsDoc(Get(body, Delete)), Id) == "" then added else deleted;
    Unmatched(kept, Get(AsDoc(Get(body, Set)), IdFields)) + NewRecords(Sent(change, Set), ids[n..])
  }

  function NeedsAll(changes: seq<Json>): nat {
    if changes == [] then 0 else NeedsAll(changes[..|changes| - 1]) + Needs(changes[|changes| - 1])
  }

  function ApplyChanges(recs: ZoneRecords, changes: seq<Json>, ids: seq<string>): ZoneRecords
    requires |ids| == NeedsAll(changes)
  {
    if changes == [] then recs
    else
      var last := changes[|changes| - 1];
      var split := |ids| - Needs(last);
      ApplyChange(ApplyChanges(recs, changes[..|changes| - 1], ids[..split]), last, ids[split..])
  }

  /** The zone's records as the table holds them. */
  function RecordsOf(db: Db, zone: string): ZoneRecords {
    map r | r in db.rows && InZone(db, r, zone) :: db.rows[r].data
  }

  /** The table with the zone's records replaced. */
  function WithRecords(db: Db, zone: string, recs: ZoneRecords): Db {
    db.(rows := (map r | r in db.rows && !InZone(db, r, zone) :: db.rows[r])
                + map r | r in recs :: Row(map[DnsZone := zone], recs[r]))
  }

  /** PatchDomainRecords, given the new ids it draws. */
  function PatchRecords(db: Db, zone: string, changes: seq<Json>, ids: seq<string>): Outcome
    requires |ids| == NeedsAll(changes)
  {
    if ZoneRef(zone) !in db.rows then Outcome(db, Failed(NotFound))
    else Outcome(WithRecords(db, zone, ApplyChanges(RecordsOf(db, zone), changes, ids)), Done)
  }

  // ---- what the fold keeps -----------------------------------------------------------------------------

  /** Every entry is a record row whose document carries its id. */
  ghost predicate ProperRecords(recs: ZoneRecords) {
    forall r | r in recs :: r.table == DomainRecords && |r.key| == 1 && Get(recs[r], Id) == Str(r.key[0])
  }

  lemma NewRecordsProper(docs: seq<Doc>, ids: seq<string>)
    requires |docs| == |ids|
    ensures ProperRecords(NewRecords(docs, ids))
    ensures forall r | r in NewRecords(docs, ids) :: r.key[0] in ids
  {
    if docs != [] {
      NewRecordsProper(docs[..|docs| - 1], ids[..|ids| - 1]);
    }
  }

  lemma ApplyChangeProper(recs: ZoneRecords, change: Json, ids: seq<string>)
    requires |ids| == Needs(change) && ProperRecords(recs)
    ensures ProperRecords(ApplyChange(recs, change, ids))
    ensures forall r | r in ApplyChange(recs, change, ids) :: r in recs || r.key[0] in ids
  {
    hide Sent, NewRecords, Unmatched, ProperRecords;
    var n := |Sent(change, Add)|;
    var adds, sets := NewRecords(Sent(change, Add), ids[..n]), NewRecords(Sent(change, Set), ids[n..]);
    NewRecordsProper(Sent(change, Add), ids[..n]);
    NewRecordsProper(Sent(change, Set), ids[n..]);
    var id := Text(AsDoc(Get(AsDoc(change), Delete)), Id);
    var kept := if id == "" then recs + adds else recs + adds - {RecordRef(id)};
    BothProper(recs, adds);
    FewerProper(recs + adds, {RecordRef(id)});
    UnmatchedProper(kept, Get(AsDoc(Get(AsDoc(change), Set)), IdFields));
    BothProper(Unmatched(kept, Get(AsDoc(Get(AsDoc(change), Set)), IdFields)), sets);
    assert forall x | x in ids[..n] || x in ids[n..] :: x in ids;
  }

  lemma BothProper(a: ZoneRecords, b: ZoneRecords)
    requires ProperRecords(a) && ProperRecords(b)
    ensures ProperRecords(a + b)
  {
  }

  lemma FewerProper(a: ZoneRecords, gone: set<Ref>)
    requires ProperRecords(a)
    ensures ProperRecords(a - gone)
  {
  }

  lemma UnmatchedProper(recs: ZoneRecords, idFields: Json)
    requires ProperRecords(recs)
    ensures ProperRecords(Unmatched(recs, idFields)) && Unmatched(recs, idFields).Keys <= recs.Keys
  {
    hide Matches;
  }

  lemma ApplyChangesProper(recs: ZoneRecords, changes: seq<Json>, ids: seq<string>)
    requires |ids| == NeedsAll(changes) && ProperRecords(recs)
    ensures ProperRecords(ApplyChanges(recs, changes, ids))
    ensures forall r | r in ApplyChanges(recs, changes, ids) :: r in recs || r.key[0] in ids
  {
    hide ApplyChange, Needs;
    if changes != [] {
      var last := changes[|changes| - 1];
      var split := |ids| - Needs(last);
      var before := ApplyChanges(recs, changes[..|changes| - 1], ids[..split]);
      ApplyChangesProper(recs, changes[..|changes| - 1], ids[..split]);
      ApplyChangeProper(before, last, ids[split..]);
    }
  }

  lemma RecordsOfProper(db: Db, zone: string)
    requires StoreInv(db)
    ensures ProperRecords(RecordsOf(db, zone))
  {
    hide StoreInv, Facts, ActionFacts, ParentFacts, ChildFacts, NamedFacts, NullableActions, TableFacts, Intact,
      DnsOk, KeysOk, RowOk;
    InvParts(db);
    forall r | r in RecordsOf(db, zone)
      ensures |r.key| == 1 && Get(db.rows[r].data, Id) == Str(r.key[0])
    {
      IdOf(db.schema, r, db.rows[r]);
    }
  }

  // ---- the store invariant -----------------------------------------------------------------------------

  /** WithRecords row by row. */
  lemma WithRecordsAt(db: Db, zone: string, recs: ZoneRecords, r: Ref)
    ensures var next := WithRecords(db, zone, recs);
            && (r in next.rows <==> r in recs || (r in db.rows && !InZone(db, r, zone)))
            && (r in recs ==> next.rows[r] == Row(map[DnsZone := zone], recs[r]))
            && (r in next.rows && r !in recs ==> next.rows[r] == db.rows[r])
  {
    hide InZone;
  }

  lemma RecordRowHolds(db: Db, r: Ref)
    requires ChildFacts(db.schema.foreignKeys) && r in db.rows && r.table == DomainRecords
    ensures ParentsExist(db, r)
  {
    forall fk | fk in db.schema.foreignKeys
      ensures !Uses(db, r, fk)
    {
      assert ByChild(fk);
    }
  }

  /** A row of another table keeps its parents when only record rows change. */
  lemma OtherRowHolds(db: Db, next: Db, r: Ref)
    requires ParentFacts(db.schema.foreignKeys) && next.schema == db.schema
    requires r in db.rows && r in next.rows && next.rows[r] == db.rows[r] && ParentsExist(db, r)
    requires forall q | q in db.rows && q.table in PARENTS :: q in next.rows
    ensures ParentsExist(next, r)
  {
    forall fk | fk in next.schema.foreignKeys && Uses(next, r, fk)
      ensures Target(fk, next.rows[r]) in next.rows
    {
      assert Uses(db, r, fk);
      assert ByParent(fk);
    }
  }

  lemma WithRecordsIntact(db: Db, zone: string, recs: ZoneRecords)
    requires ChildFacts(db.schema.foreignKeys) && ParentFacts(db.schema.foreignKeys) && TableFacts(db.schema)
    requires Intact(db) && ProperRecords(recs)
    ensures Intact(WithRecords(db, zone, recs))
  {
    hide TableFacts, WithRecords, ChildFacts, ParentFacts, ParentsExist;
    var next := WithRecords(db, zone, recs);
    RecordRequired(db.schema);
    assert next.schema == db.schema by { WithRecordsSchema(db, zone, recs); }
    forall q | q in db.rows && q.table in PARENTS
      ensures q in next.rows
    {
      WithRecordsAt(db, zone, recs, q);
    }
    forall r | r in next.rows
      ensures ParentsExist(next, r) && RequiredPresent(next.schema, r, next.rows[r])
    {
      WithRecordsAt(db, zone, recs, r);
      if r.table == DomainRecords {
        RecordRowHolds(next, r);
      } else {
        assert r in db.rows;
        OtherRowHolds(db, next, r);
      }
    }
  }

  lemma WithRecordsSchema(db: Db, zone: string, recs: ZoneRecords)
    ensures WithRecords(db, zone, recs).schema == db.schema
  {
  }

  lemma RecordRequired(schema: Schema)
    requires TableFacts(schema)
    ensures DomainRecords in schema.required && schema.required[DomainRecords] == {DnsZone}
  {
  }

  lemma RecordRowOk(schema: Schema, r: Ref, zone: string, doc: Doc)
    requires TableFacts(schema) && r.table == DomainRecords && |r.key| == 1 && Get(doc, Id) == Str(r.key[0])
    ensures RowOk(schema, r, Row(map[DnsZone := zone], doc))
  {
    hide RequiredFacts;
    assert KeyNamesOf(schema, DomainRecords) == [Id];
    assert SourcesOf(schema, DomainRecords) == map[];
  }

  lemma WithRecordsRowsOk(db: Db, zone: string, recs: ZoneRecords)
    requires TableFacts(db.schema) && RowsOk(db) && ProperRecords(recs)
    ensures RowsOk(WithRecords(db, zone, recs))
  {
    hide TableFacts, RowOk, InZone;
    forall r | r in recs
      ensures RowOk(db.schema, r, Row(map[DnsZone := zone], recs[r]))
    {
      RecordRowOk(db.schema, r, zone, recs[r]);
    }
  }

  /** The rows of the DNS tables outside the zone, and of every other table, are the same as before. */
  ghost predicate OnlyZone(db: Db, next: Db, zone: string) {
    && ChangesOnly(db, next, {DomainRecords})
    && (forall r | r in db.rows && !InZone(db, r, zone) :: r in next.rows && next.rows[r] == db.rows[r])
    && (forall r | r in next.rows && !InZone(next, r, zone) :: r in db.rows && next.rows[r] == db.rows[r])
  }

  lemma WithRecordsZone(db: Db, zone: string, recs: ZoneRecords, r: Ref)
    requires r in recs ==> r.table == DomainRecords && (r in db.rows ==> InZone(db, r, zone))
    ensures var next := WithRecords(db, zone, recs);
            && (InZone(next, r, zone) <==> r in recs)
            && (r in recs ==> r in next.rows && next.rows[r].data == recs[r])
            && (!InZone(db, r, zone) && r in db.rows ==> r in next.rows && next.rows[r] == db.rows[r])
            && (r in next.rows && r !in recs ==> r in db.rows && next.rows[r] == db.rows[r])
  {
    hide WithRecords;
    WithRecordsAt(db, zone, recs, r);
  }

  lemma WithRecordsElsewhere(db: Db, zone: string, recs: ZoneRecords)
    requires ProperRecords(recs)
    requires forall r | r in recs :: r in db.rows ==> InZone(db, r, zone)
    ensures OnlyZone(db, WithRecords(db, zone, recs), zone)
    ensures RecordsOf(WithRecords(db, zone, recs), zone) == recs
  {
    hide WithRecords, InZone, RecordsOf;
    var next := WithRecords(db, zone, recs);
    WithRecordsSchema(db, zone, recs);
    forall r
      ensures InZone(next, r, zone) <==> r in recs
      ensures r in recs ==> r in next.rows && next.rows[r].data == recs[r]
      ensures !InZone(db, r, zone) && r in db.rows ==> r in next.rows && next.rows[r] == db.rows[r]
      ensures r in next.rows && r !in recs ==> r in db.rows && next.rows[r] == db.rows[r]
      ensures r.table != DomainRecords ==> !InZone(db, r, zone) && r !in recs
    {
      WithRecordsZone(db, zone, recs, r);
      RecordTables(db, zone);
    }
    RecordsAre(next, zone, recs);
  }

  lemma RecordsAre(db: Db, zone: string, recs: ZoneRecords)
    requires forall r :: InZone(db, r, zone) <==> r in recs
    requires forall r | r in recs :: r in db.rows && db.rows[r].data == recs[r]
    ensures RecordsOf(db, zone) == recs
  {
    hide InZone;
  }

  /** A record row of the new store names a stored zone: its own zone, or the one it named before. */
  lemma RecordZoneKept(db: Db, zone: string, recs: ZoneRecords, r: Ref)
    requires DnsOk(db) && ZoneRef(zone) in db.rows && ProperRecords(recs)
    requires r in WithRecords(db, zone, recs).rows && r.table == DomainRecords
    ensures var next := WithRecords(db, zone, recs);
            next.rows[r].cols.Keys == {DnsZone} && ZoneRef(next.rows[r].cols[DnsZone]) in db.rows
  {
    hide ZoneKey, WithRecords, InZone;
    WithRecordsAt(db, zone, recs, r);
  }

  lemma ZoneRowKept(db: Db, zone: string, recs: ZoneRecords, q: Ref)
    requires ProperRecords(recs) && q.table == DnsZones
    ensures q in WithRecords(db, zone, recs).rows <==> q in db.rows
    ensures q in db.rows ==> WithRecords(db, zone, recs).rows[q] == db.rows[q]
  {
    hide WithRecords, InZone;
    WithRecordsAt(db, zone, recs, q);
    ZoneNotRecord(db, q, zone);
  }

  lemma WithRecordsDns(db: Db, zone: string, recs: ZoneRecords)
    requires DnsOk(db) && ZoneRef(zone) in db.rows && ProperRecords(recs)
    ensures DnsOk(WithRecords(db, zone, recs))
  {
    hide ZoneKey, WithRecords, ProperRecords;
    var next := WithRecords(db, zone, recs);
    forall q: Ref | q.table == DnsZones
      ensures q in next.rows <==> q in db.rows
      ensures q in db.rows ==> next.rows[q] == db.rows[q]
    {
      ZoneRowKept(db, zone, recs, q);
    }
    forall r | r in next.rows && r.table == DomainRecords
      ensures next.rows[r].cols.Keys == {DnsZone} && ZoneRef(next.rows[r].cols[DnsZone]) in next.rows
    {
      RecordZoneKept(db, zone, recs, r);
    }
  }

  lemma ZoneNotRecord(db: Db, q: Ref, zone: string)
    requires q.table == DnsZones
    ensures !InZone(db, q, zone)
  {
  }

  lemma RecordFrame(db: Db, next: Db)
    requires StoreInv(db) && Intact(next) && RowsOk(next) && DnsOk(next)
    requires ChangesOnly(db, next, {DomainRecords, DnsZones})
    ensures StoreInv(next)
  {
    hide StoreInv, Facts, ActionFacts, ParentFacts, ChildFacts, NamedFacts, NullableActions, TableFacts, Intact, RowsOk,
      KeysOk, DnsOk, SameTable;
    InvParts(db);
    KeysFrame(db, next, {DomainRecords, DnsZones});
    InvWhole(next);
  }

  /** New ids are unused, and no two of them are equal. */
  ghost predicate NewIdsFor(db: Db, ids: seq<string>) {
    && (forall i, j | 0 <= i < j < |ids| :: ids[i] != ids[j])
    && (forall i | 0 <= i < |ids| :: Fresh(db, ids[i]))
  }

  lemma NewIdUnused(db: Db, ids: seq<string>, i: nat, r: Ref)
    requires NewIdsFor(db, ids) && i < |ids| && r in db.rows
    ensures ids[i] !in r.key
  {
    assert Fresh(db, ids[i]);
  }

  /** The records PatchRecords ends with are the zone's own or new, so they displace no other row. */
  lemma PatchedRecordsPlaced(db: Db, zone: string, changes: seq<Json>, ids: seq<string>)
    requires StoreInv(db) && |ids| == NeedsAll(changes) && NewIdsFor(db, ids)
    ensures var recs := ApplyChanges(RecordsOf(db, zone), changes, ids);
            && ProperRecords(recs)
            && forall r | r in recs :: r in db.rows ==> InZone(db, r, zone)
  {
    hide StoreInv, Facts, ActionFacts, ParentFacts, ChildFacts, NamedFacts, NullableActions, TableFacts, Intact,
      DnsOk, KeysOk, RowsOk, ApplyChanges;
    InvParts(db);
    RecordsOfProper(db, zone);
    ApplyChangesProper(RecordsOf(db, zone), changes, ids);
    var recs := ApplyChanges(RecordsOf(db, zone), changes, ids);
    forall r | r in recs && r in db.rows
      ensures InZone(db, r, zone)
    {
      if r !in RecordsOf(db, zone) {
        var i :| 0 <= i < |ids| && ids[i] == r.key[0];
        NewIdUnused(db, ids, i, r);
        assert false;
      }
    }
  }

  /**
   * PatchDomainRecords ends with exactly the records the fold gives, and touches no row outside the zone,
   * although its set-delete names a record by id alone.
   */
  lemma PatchRecordsIsFold(db: Db, zone: string, changes: seq<Json>, ids: seq<string>)
    requires StoreInv(db) && |ids| == NeedsAll(changes) && NewIdsFor(db, ids)
    ensures var out := PatchRecords(db, zone, changes, ids);
            && StoreInv(out.db) && OnlyZone(db, out.db, zone)
            && (out.status == Done <==> ZoneRef(zone) in db.rows)
            && (out.status == Done ==> RecordsOf(out.db, zone) == ApplyChanges(RecordsOf(db, zone), changes, ids))
            && (out.status != Done ==> out.db == db)
  {
    hide StoreInv, Facts, ActionFacts, ParentFacts, ChildFacts, NamedFacts, NullableActions, TableFacts, Intact,
      DnsOk, KeysOk, RowsOk, ApplyChanges, WithRecords, NewIdsFor, RecordsOf;
    InvParts(db);
    if ZoneRef(zone) in db.rows {
      var recs := ApplyChanges(RecordsOf(db, zone), changes, ids);
      PatchedRecordsPlaced(db, zone, changes, ids);
      WithRecordsIntact(db, zone, recs);
      WithRecordsRowsOk(db, zone, recs);
      WithRecordsDns(db, zone, recs);
      WithRecordsElsewhere(db, zone, recs);
      RecordFrame(db, WithRecords(db, zone, recs));
    }
  }

  lemma CreatedZoneDns(db: Db, next: Db, r: Ref)
    requires DnsOk(db) && r !in db.rows && r in next.rows && r.table == DnsZones
    requires next.rows == db.rows[r := next.rows[r]] && r.key == [ZoneKey(next.rows[r].data)]
    ensures DnsOk(next)
  {
    hide ZoneKey;
  }

  lemma CreateZoneKeeps(db: Db, data: Doc)
    requires StoreInv(db)
    ensures var out := CreateZone(db, data);
            && StoreInv(out.db) && ChangesOnly(db, out.db, {DnsZones})
            && (out.status != Done ==> out.db == db)
  {
    hide StoreInv, Facts, ActionFacts, ParentFacts, ChildFacts, NamedFacts, NullableActions, TableFacts, Intact,
      RowsOk, KeysOk, CreateRow, ZoneKey;
    InvParts(db);
    KeyNamesKnown(db, DnsZones);
    CreateRowKeeps(db, ZoneRef(ZoneKey(data)), map[], data);
    if CreateZone(db, data).status == Done {
      CreatedZoneDns(db, CreateZone(db, data).db, ZoneRef(ZoneKey(data)));
      ZoneFrame(db, CreateZone(db, data).db);
    }
  }

  /** A zone with no stored row has no records, so a DeleteDNSZone that reports not-found has changed nothing. */
  lemma DeleteZoneExact(db: Db, zone: string)
    requires StoreInv(db)
    ensures var out := DeleteZone(db, zone);
            && StoreInv(out.db) && ChangesOnly(db, out.db, {DnsZones, DomainRecords})
            && (out.status == Done <==> ZoneRef(zone) in db.rows)
            && (out.status != Done ==> out.db == db)
            && (out.status == Done ==>
                  && out.db.rows == db.rows - ZoneRows(db, zone)
                  && |out.db.rows| < |db.rows|)
  {
    hide StoreInv, Facts, ActionFacts, NamedFacts, NullableActions, TableFacts, Intact, RowsOk, ChildFacts,
      ParentFacts, DnsOk, KeysOk, DeleteZone, ZoneRows, ChangesOnly;
    DeleteZoneRows(db, zone);
    ZoneRowsKeep(db, zone);
    GoneChanges(db, ZoneRows(db, zone));
    if ZoneRef(zone) in db.rows {
      InstanceLaws.FewerRows(db, DeleteZone(db, zone).db, ZoneRef(zone));
    } else {
      InvParts(db);
      ZoneRowsGone(db, zone);
      NothingGone(db, ZoneRows(db, zone));
    }
  }

  lemma ZoneRowsKeep(db: Db, zone: string)
    requires StoreInv(db)
    ensures StoreInv(db.(rows := db.rows - ZoneRows(db, zone)))
  {
    hide StoreInv, Facts, ActionFacts, NamedFacts, NullableActions, TableFacts, Intact, RowsOk, ChildFacts,
      ParentFacts, DnsOk, KeysOk, ZoneRows;
    InvParts(db);
    DeleteZoneRows(db, zone);
    ZoneRowsGone(db, zone);
    ShrinkRowsOk(db, ZoneRows(db, zone));
    ShrinkKeysOk(db, ZoneRows(db, zone));
    LeavesGone(db, ZoneRows(db, zone));
    InvWhole(db.(rows := db.rows - ZoneRows(db, zone)));
  }

  lemma GoneChanges(db: Db, gone: set<Ref>)
    requires forall r | r in gone :: r.table == DnsZones || r.table == DomainRecords
    ensures ChangesOnly(db, db.(rows := db.rows - gone), {DnsZones, DomainRecords})
  {
  }

  lemma NothingGone(db: Db, gone: set<Ref>)
    requires gone !! db.rows.Keys
    ensures db.rows - gone == db.rows
  {
  }

  lemma DeleteZoneRows(db: Db, zone: string)
    ensures DeleteZone(db, zone) ==
            Outcome(db.(rows := db.rows - ZoneRows(db, zone)),
                    if ZoneRef(zone) in db.rows then Done else Failed(NotFound))
    ensures ZoneRef(zone) in ZoneRows(db, zone)
    ensures forall r | r in ZoneRows(db, zone) :: r.table == DnsZones || r.table == DomainRecords
  {
    RecordTables(db, zone);
    hide InZone;
    assert DeleteZone(db, zone).db.rows == db.rows - ZoneRows(db, zone);
  }

  lemma RecordTables(db: Db, zone: string)
    ensures forall r | InZone(db, r, zone) :: r.table == DomainRecords
  {
  }

  lemma ZoneRowsGone(db: Db, zone: string)
    requires DnsOk(db)
    ensures DnsOk(db.(rows := db.rows - ZoneRows(db, zone)))
    ensures ZoneRef(zone) !in db.rows ==> ZoneRows(db, zone) !! db.rows.Keys
  {
    hide ZoneKey, ZoneRows;
    forall r | r in db.rows
      ensures r.table == DomainRecords ==>
                (r in ZoneRows(db, zone) <==> ZoneRef(db.rows[r].cols[DnsZone]) == ZoneRef(zone))
      ensures r.table != DomainRecords ==> (r in ZoneRows(db, zone) <==> r == ZoneRef(zone))
    {
      ZoneRowsAt(db, zone, r);
    }
  }

  lemma ZoneRowsAt(db: Db, zone: string, r: Ref)
    requires r in db.rows && (r.table == DomainRecords ==> DnsZone in db.rows[r].cols)
    ensures r.table == DomainRecords ==>
              (r in ZoneRows(db, zone) <==> ZoneRef(db.rows[r].cols[DnsZone]) == ZoneRef(zone))
    ensures r.table != DomainRecords ==> (r in ZoneRows(db, zone) <==> r == ZoneRef(zone))
  {
    RecordTables(db, zone);
    if r.table == DomainRecords {
      RecordZone(db, r, zone);
    }
  }

  lemma RecordZone(db: Db, r: Ref, zone: string)
    requires r in db.rows && r.table == DomainRecords && DnsZone in db.rows[r].cols
    ensures InZone(db, r, zone) <==> ZoneRef(db.rows[r].cols[DnsZone]) == ZoneRef(zone)
  {
    assert ZoneRef(zone).key[0] == zone;
  }

  // ---- replaying a set ---------------------------------------------------------------------------------

  predicate Carries(docs: seq<Doc>, idFields: Doc) {
    forall i | 0 <= i < |docs| :: Matches(docs[i], idFields)
  }

  function SetOnly(idFields: Doc, records: seq<Json>): Json {
    Obj(map[Set := Obj(map[IdFields := Obj(idFields), Records := Arr(records)])])
  }

  lemma NewRecordsMatch(docs: seq<Doc>, ids: seq<string>, idFields: Doc)
    requires |docs| == |ids| && Carries(docs, idFields) && Id !in idFields
    ensures forall r | r in NewRecords(docs, ids) :: Matches(NewRecords(docs, ids)[r], idFields)
  {
    if docs != [] {
      NewRecordsMatch(docs[..|docs| - 1], ids[..|ids| - 1], idFields);
    }
  }

  lemma SetOnlyApplied(recs: ZoneRecords, idFields: Doc, records: seq<Json>, ids: seq<string>)
    requires |ids| == |Objects(records)|
    ensures Needs(SetOnly(idFields, records)) == |ids|
    ensures ApplyChange(recs, SetOnly(idFields, records), ids) ==
            Unmatched(recs, Obj(idFields)) + NewRecords(Objects(records), ids)
  {
    var change := SetOnly(idFields, records);
    assert Sent(change, Add) == [] && Sent(change, Set) == Objects(records);
    assert ids[0..] == ids && ids[..0] == [];
    assert recs + NewRecords([], []) == recs;
  }

  lemma NewRecordAt(docs: seq<Doc>, ids: seq<string>, i: nat)
    requires |docs| == |ids| && i < |ids|
    requires forall a, b | 0 <= a < b < |ids| :: ids[a] != ids[b]
    ensures RecordRef(ids[i]) in NewRecords(docs, ids)
    ensures NewRecords(docs, ids)[RecordRef(ids[i])] == docs[i][Id := Str(ids[i])]
  {
    if i < |ids| - 1 {
      NewRecordAt(docs[..|docs| - 1], ids[..|ids| - 1], i);
    }
  }

  /**
   * Replaying a set whose records all carry its id_fields replaces every record it added by one that differs in
   * its id alone, and leaves all the others: the same records up to new ids.
   */
  lemma SetReplayed(recs: ZoneRecords, idFields: Doc, records: seq<Json>, ids: seq<string>, ids': seq<string>)
    requires |ids| == |ids'| == |Objects(records)| && Carries(Objects(records), idFields) && Id !in idFields
    requires forall a, b | 0 <= a < b < |ids + ids'| :: (ids + ids')[a] != (ids + ids')[b]
    requires forall i | 0 <= i < |ids + ids'| :: RecordRef((ids + ids')[i]) !in recs
    ensures Needs(SetOnly(idFields, records)) == |ids|
    ensures var change := SetOnly(idFields, records);
            var once := ApplyChange(recs, change, ids);
            var twice := ApplyChange(once, change, ids');
            SameButRenamed(once, twice, ids, ids')
  {
    hide Objects, Needs, ApplyChange, Carries, SetOnly, RecordRefs, Renamed, AfterSet;
    Separate(ids, ids');
    SetForms(recs, idFields, records, ids, ids');
    NotStored(recs, ids, ids');
    SetReplayedRest(recs, idFields, Objects(records), ids);
    SetReplayedRest(recs, idFields, Objects(records), ids');
    forall i | 0 <= i < |ids|
      ensures Renamed(AfterSet(recs, idFields, Objects(records), ids), AfterSet(recs, idFields, Objects(records), ids'),
                      RecordRef(ids[i]), ids'[i])
    {
      SetReplayedAt(recs, idFields, Objects(records), ids, ids', i);
    }
  }

  /** A set as a change list of its own. */
  lemma SingleChange(recs: ZoneRecords, change: Json, ids: seq<string>)
    requires |ids| == Needs(change)
    ensures NeedsAll([change]) == |ids| && ApplyChanges(recs, [change], ids) == ApplyChange(recs, change, ids)
  {
    hide Needs, ApplyChange;
    assert [change][..0] == [] && ids[..0] == [] && ids[0..] == ids;
  }

  /** What a set keeps would be kept by the set again, so starting from it makes no difference. */
  lemma SetFromKept(recs: ZoneRecords, idFields: Doc, records: seq<Json>, ids: seq<string>)
    requires |ids| == |Objects(records)|
    ensures Needs(SetOnly(idFields, records)) == |ids|
    ensures ApplyChange(Unmatched(recs, Obj(idFields)), SetOnly(idFields, records), ids) ==
            ApplyChange(recs, SetOnly(idFields, records), ids)
  {
    hide Objects, Needs, ApplyChange, SetOnly, Matches, NewRecords;
    SetOnlyApplied(recs, idFields, records, ids);
    SetOnlyApplied(Unmatched(recs, Obj(idFields)), idFields, records, ids);
  }

  /**
   * Sending the same set twice to a stored zone: both calls succeed, and the zone ends with the records of the first
   * call, those of the set under new ids and all the others as they were. No other zone is touched.
   */
  lemma SetSentTwice(db: Db, zone: string, idFields: Doc, records: seq<Json>, ids: seq<string>, ids': seq<string>)
    requires StoreInv(db) && ZoneRef(zone) in db.rows && Carries(Objects(records), idFields) && Id !in idFields
    requires |Objects(records)| == |ids| == |ids'| == NeedsAll([SetOnly(idFields, records)])
    requires NewIdsFor(db, ids)
    requires NewIdsFor(PatchRecords(db, zone, [SetOnly(idFields, records)], ids).db, ids')
    ensures var once := PatchRecords(db, zone, [SetOnly(idFields, records)], ids);
            var twice := PatchRecords(once.db, zone, [SetOnly(idFields, records)], ids');
            && once.status == Done && twice.status == Done
            && OnlyZone(db, once.db, zone) && OnlyZone(once.db, twice.db, zone)
            && SameButRenamed(RecordsOf(once.db, zone), RecordsOf(twice.db, zone), ids, ids')
  {
    hide StoreInv, Objects, Needs, NeedsAll, ApplyChange, ApplyChanges, Carries, SetOnly, RecordRefs, Renamed, Fresh,
      Unmatched, RecordsOf, PatchRecords, OnlyZone, InZone, SameButRenamed, NewIdsFor;
    var change := SetOnly(idFields, records);
    var recs := RecordsOf(db, zone);
    var kept := Unmatched(recs, Obj(idFields));
    SetFromKept(recs, idFields, records, ids);
    SingleChange(recs, change, ids);
    PatchRecordsIsFold(db, zone, [change], ids);
    var once := PatchRecords(db, zone, [change], ids).db;
    ZoneStays(db, once, zone);
    SingleChange(RecordsOf(once, zone), change, ids');
    PatchRecordsIsFold(once, zone, [change], ids');
    SetOnlyApplied(recs, idFields, records, ids);
    KeptAndNew(db, once, zone, idFields, Objects(records), ids, ids');
    SetReplayed(kept, idFields, records, ids, ids');
  }

  lemma ZoneStays(db: Db, next: Db, zone: string)
    requires OnlyZone(db, next, zone) && ZoneRef(zone) in db.rows
    ensures ZoneRef(zone) in next.rows
  {
    hide ChangesOnly;
    assert !InZone(db, ZoneRef(zone), zone);
  }

  /** The ids of both calls are distinct and name none of the records that are kept. */
  lemma KeptAndNew(db: Db, once: Db, zone: string, idFields: Doc, docs: seq<Doc>, ids: seq<string>, ids': seq<string>)
    requires |docs| == |ids| && NewIdsFor(db, ids) && NewIdsFor(once, ids')
    requires RecordsOf(once, zone) == AfterSet(RecordsOf(db, zone), idFields, docs, ids)
    ensures forall a, b | 0 <= a < b < |ids + ids'| :: (ids + ids')[a] != (ids + ids')[b]
    ensures forall i | 0 <= i < |ids + ids'| ::
              RecordRef((ids + ids')[i]) !in Unmatched(RecordsOf(db, zone), Obj(idFields))
  {
    hide Fresh, Unmatched, AfterSet, RecordsOf;
    forall i | 0 <= i < |ids|
      ensures RecordRef(ids[i]) !in Unmatched(RecordsOf(db, zone), Obj(idFields)) && RecordRef(ids[i]) in once.rows
    {
      NewRecordUnstored(db, ids, i);
      SetAddsId(db, once, zone, idFields, docs, ids, i);
    }
    forall i | 0 <= i < |ids'|
      ensures RecordRef(ids'[i]) !in once.rows
      ensures RecordRef(ids'[i]) !in Unmatched(RecordsOf(db, zone), Obj(idFields))
    {
      NewRecordUnstored(once, ids', i);
      SetKeepsRow(db, once, zone, idFields, docs, ids, RecordRef(ids'[i]));
    }
    forall a, b | 0 <= a < |ids| && 0 <= b < |ids'|
      ensures ids[a] != ids'[b]
    {
      assert RecordRef(ids[a]) in once.rows && RecordRef(ids'[b]) !in once.rows;
    }
  }

  lemma SetAddsId(db: Db, once: Db, zone: string, idFields: Doc, docs: seq<Doc>, ids: seq<string>, i: nat)
    requires |docs| == |ids| && i < |ids| && forall a, b | 0 <= a < b < |ids| :: ids[a] != ids[b]
    requires RecordsOf(once, zone) == AfterSet(RecordsOf(db, zone), idFields, docs, ids)
    requires RecordRef(ids[i]) !in db.rows
    ensures RecordRef(ids[i]) in once.rows
    ensures RecordRef(ids[i]) !in Unmatched(RecordsOf(db, zone), Obj(idFields))
  {
    hide Unmatched, AfterSet;
    AfterSetAt(RecordsOf(db, zone), idFields, docs, ids, i);
    UnmatchedKeys(RecordsOf(db, zone), idFields);
  }

  lemma SetKeepsRow(db: Db, once: Db, zone: string, idFields: Doc, docs: seq<Doc>, ids: seq<string>, r: Ref)
    requires |docs| == |ids| && RecordsOf(once, zone) == AfterSet(RecordsOf(db, zone), idFields, docs, ids)
    ensures r in Unmatched(RecordsOf(db, zone), Obj(idFields)) ==> r in once.rows
  {
    hide Unmatched, NewRecords;
    assert r in RecordsOf(once, zone) ==> r in once.rows;
  }

  lemma NewRecordUnstored(db: Db, ids: seq<string>, i: nat)
    requires NewIdsFor(db, ids) && i < |ids|
    ensures RecordRef(ids[i]) !in db.rows
  {
    hide NewIdsFor;
    if RecordRef(ids[i]) in db.rows {
      assert ids[i] in RecordRef(ids[i]).key;
      NewIdUnused(db, ids, i, RecordRef(ids[i]));
    }
  }

  /** The same records, those under the first ids now under the second. */
  predicate SameButRenamed(once: ZoneRecords, twice: ZoneRecords, ids: seq<string>, ids': seq<string>)
    requires |ids| == |ids'|
  {
    && (forall i | 0 <= i < |ids| :: Renamed(once, twice, RecordRef(ids[i]), ids'[i]))
    && once - RecordRefs(ids) == twice - RecordRefs(ids')
  }

  /** The record r of one table is, under the new id and otherwise unchanged, a record of the other. */
  predicate Renamed(once: ZoneRecords, twice: ZoneRecords, r: Ref, id: string) {
    && r in once && r !in twice
    && RecordRef(id) in twice && RecordRef(id) !in once
    && twice[RecordRef(id)] == once[r][Id := Str(id)]
  }

  function RecordRefs(ids: seq<string>): set<Ref> {
    set id | id in ids :: RecordRef(id)
  }

  /** What a set leaves: the unmatched records and its own new ones. */
  function AfterSet(recs: ZoneRecords, idFields: Doc, docs: seq<Doc>, ids: seq<string>): ZoneRecords
    requires |docs| == |ids|
  {
    Unmatched(recs, Obj(idFields)) + NewRecords(docs, ids)
  }

  /** Each new record of a set is in its result under its own id. */
  lemma AfterSetAt(recs: ZoneRecords, idFields: Doc, docs: seq<Doc>, ids: seq<string>, i: nat)
    requires |docs| == |ids| && i < |ids|
    requires forall a, b | 0 <= a < b < |ids| :: ids[a] != ids[b]
    ensures RecordRef(ids[i]) in AfterSet(recs, idFields, docs, ids)
    ensures AfterSet(recs, idFields, docs, ids)[RecordRef(ids[i])] == docs[i][Id := Str(ids[i])]
  {
    hide Unmatched, NewRecords;
    NewRecordAt(docs, ids, i);
  }

  /** An id that is neither stored nor new is not in the result of a set. */
  lemma AfterSetNot(recs: ZoneRecords, idFields: Doc, docs: seq<Doc>, ids: seq<string>, id: string)
    requires |docs| == |ids| && RecordRef(id) !in recs && id !in ids
    ensures RecordRef(id) !in AfterSet(recs, idFields, docs, ids)
  {
    hide Unmatched, NewRecords;
    UnmatchedKeys(recs, idFields);
    NewRecordsProper(docs, ids);
    assert RecordRef(id).key[0] == id;
  }

  lemma SetReplayedAt(recs: ZoneRecords, idFields: Doc, docs: seq<Doc>, ids: seq<string>, ids': seq<string>, i: nat)
    requires |docs| == |ids| == |ids'| && i < |ids|
    requires forall a, b | 0 <= a < b < |ids| :: ids[a] != ids[b]
    requires forall a, b | 0 <= a < b < |ids'| :: ids'[a] != ids'[b]
    requires forall a, b | 0 <= a < |ids| && 0 <= b < |ids'| :: ids[a] != ids'[b]
    requires forall id | id in ids || id in ids' :: RecordRef(id) !in recs
    ensures Renamed(AfterSet(recs, idFields, docs, ids), AfterSet(recs, idFields, docs, ids'), RecordRef(ids[i]),
                    ids'[i])
  {
    hide AfterSet;
    AfterSetAt(recs, idFields, docs, ids, i);
    AfterSetAt(recs, idFields, docs, ids', i);
    assert ids[i] in ids && ids'[i] in ids' && ids[i] !in ids' && ids'[i] !in ids;
    AfterSetNot(recs, idFields, docs, ids', ids[i]);
    AfterSetNot(recs, idFields, docs, ids, ids'[i]);
    assert docs[i][Id := Str(ids[i])][Id := Str(ids'[i])] == docs[i][Id := Str(ids'[i])];
  }

  lemma SetReplayedRest(recs: ZoneRecords, idFields: Doc, docs: seq<Doc>, ids: seq<string>)
    requires |docs| == |ids| && forall id | id in ids :: RecordRef(id) !in recs
    ensures AfterSet(recs, idFields, docs, ids) - RecordRefs(ids) == Unmatched(recs, Obj(idFields))
  {
    hide Unmatched, NewRecords;
    UnmatchedKeys(recs, idFields);
    DropNew(Unmatched(recs, Obj(idFields)), docs, ids);
  }

  /** Both runs of the set leave the unmatched records and their own new ones. */
  lemma SetForms(recs: ZoneRecords, idFields: Doc, records: seq<Json>, ids: seq<string>, ids': seq<string>)
    requires |ids| == |ids'| == |Objects(records)| && Carries(Objects(records), idFields) && Id !in idFields
    requires forall i | 0 <= i < |ids + ids'| :: RecordRef((ids + ids')[i]) !in recs
    ensures Needs(SetOnly(idFields, records)) == |ids|
    ensures var change := SetOnly(idFields, records);
            var once := ApplyChange(recs, change, ids);
            && once == AfterSet(recs, idFields, Objects(records), ids)
            && ApplyChange(once, change, ids') == AfterSet(recs, idFields, Objects(records), ids')
  {
    hide Matches, Unmatched, Objects, Needs, ApplyChange, NewRecords, Carries, SetOnly;
    var change := SetOnly(idFields, records);
    var docs := Objects(records);
    SetOnlyApplied(recs, idFields, records, ids);
    var once := ApplyChange(recs, change, ids);
    SetOnlyApplied(once, idFields, records, ids');
    NewRecordsMatch(docs, ids, idFields);
    NotStored(recs, ids, ids');
    NewRecordsApart(recs, docs, ids);
    UnmatchedTwice(recs, NewRecords(docs, ids), idFields);
  }

  lemma NewRecordsApart(recs: ZoneRecords, docs: seq<Doc>, ids: seq<string>)
    requires |docs| == |ids| && forall id | id in ids :: RecordRef(id) !in recs
    ensures recs.Keys !! NewRecords(docs, ids).Keys
  {
    hide NewRecords;
    NewRecordsProper(docs, ids);
    forall r | r in NewRecords(docs, ids)
      ensures r !in recs
    {
      assert r == RecordRef(r.key[0]);
    }
  }

  lemma NotStored(recs: ZoneRecords, ids: seq<string>, ids': seq<string>)
    requires forall i | 0 <= i < |ids + ids'| :: RecordRef((ids + ids')[i]) !in recs
    ensures forall id | id in ids :: RecordRef(id) !in recs
    ensures forall id | id in ids' :: RecordRef(id) !in recs
  {
    var all := ids + ids';
    forall id | id in ids
      ensures RecordRef(id) !in recs
    {
      var i :| 0 <= i < |ids| && ids[i] == id;
      assert all[i] == id;
    }
    forall id | id in ids'
      ensures RecordRef(id) !in recs
    {
      var i :| 0 <= i < |ids'| && ids'[i] == id;
      assert all[|ids| + i] == id;
    }
  }

  lemma Separate(ids: seq<string>, ids': seq<string>)
    requires forall a, b | 0 <= a < b < |ids + ids'| :: (ids + ids')[a] != (ids + ids')[b]
    ensures forall a, b | 0 <= a < b < |ids| :: ids[a] != ids[b]
    ensures forall a, b | 0 <= a < b < |ids'| :: ids'[a] != ids'[b]
    ensures forall a, b | 0 <= a < |ids| && 0 <= b < |ids'| :: ids[a] != ids'[b]
  {
    var all := ids + ids';
    forall a, b | 0 <= a < b < |ids|
      ensures ids[a] != ids[b]
    {
      assert all[a] == ids[a] && all[b] == ids[b];
    }
    forall a, b | 0 <= a < b < |ids'|
      ensures ids'[a] != ids'[b]
    {
      assert all[|ids| + a] == ids'[a] && all[|ids| + b] == ids'[b];
    }
    forall a, b | 0 <= a < |ids| && 0 <= b < |ids'|
      ensures ids[a] != ids'[b]
    {
      assert all[a] == ids[a] && all[|ids| + b] == ids'[b];
    }
  }

  lemma UnmatchedKeys(recs: ZoneRecords, idFields: Doc)
    ensures Unmatched(recs, Obj(idFields)).Keys <= recs.Keys
  {
  }

  lemma UnmatchedTwice(recs: ZoneRecords, new_: ZoneRecords, idFields: Doc)
    requires forall r | r in new_ :: Matches(new_[r], idFields)
    requires recs.Keys !! new_.Keys
    ensures Unmatched(Unmatched(recs, Obj(idFields)) + new_, Obj(idFields)) == Unmatched(recs, Obj(idFields))
  {
    hide Matches;
  }

  lemma DropNew(base: ZoneRecords, docs: seq<Doc>, ids: seq<string>)
    requires |docs| == |ids|
    requires forall id | id in ids :: RecordRef(id) !in base
    ensures base + NewRecords(docs, ids) - RecordRefs(ids) == base
  {
    hide NewRecords;
    NewRecordsProper(docs, ids);
    forall r | r in NewRecords(docs, ids)
      ensures r in RecordRefs(ids)
    {
      assert r == RecordRef(r.key[0]);
    }
  }

  // ---- the zone filter of the list handler -----------------------------------------------------------

  /** The rows ListDNSZones returns: all of them, or those of one domain. */
  function ZonesListed(db: Db, domain: string): set<Ref> {
    if domain == "" then set r | r in db.rows && r.table == DnsZones else Listed(db, DnsZones, Domain, domain)
  }

  /** Filtering by the key recomputed from the document finds the row with that primary key, and no other. */
  lemma ZoneFilterExact(db: Db, domain: string, zone: string)
    requires StoreInv(db)
    ensures (set r | r in ZonesListed(db, domain) && ZoneKey(db.rows[r].data) == zone) ==
            if ZoneRef(zone) in ZonesListed(db, domain) then {ZoneRef(zone)} else {}
    ensures domain == "" ==> (ZoneRef(zone) in ZonesListed(db, domain) <==> ZoneRef(zone) in db.rows)
  {
    hide StoreInv, Facts, ActionFacts, ParentFacts, ChildFacts, NamedFacts, NullableActions, TableFacts, Intact,
      RowsOk, ZoneKey;
    InvParts(db);
    forall r | r in ZonesListed(db, domain)
      ensures ZoneKey(db.rows[r].data) == zone <==> r == ZoneRef(zone)
    {
      assert r.key == [ZoneKey(db.rows[r].data)];
    }
  }

  function KeptZones(zones: seq<Doc>, zone: string): seq<Doc> {
    if zones == [] then []
    else KeptZones(zones[..|zones| - 1], zone)
           + if ZoneKey(zones[|zones| - 1]) == zone then [zones[|zones| - 1]] else []
  }

  /** The handler's loop: it appends every matching zone, in order; an empty dns_zone parameter filters nothing. */
  method FilterZones(zones: seq<Doc>, zone: string) returns (kept: seq<Doc>)
    ensures zone != "" ==> forall z :: z in kept <==> z in zones && ZoneKey(z) == zone
    ensures zone != "" ==> kept == KeptZones(zones, zone)
    ensures zone == "" ==> kept == zones
  {
    kept := zones;
    if zone != "" {
      var filtered := [];
      for i := 0 to |zones|
        invariant filtered == KeptZones(zones[..i], zone)
      {
        assert zones[..i + 1][..i] == zones[..i];
        var z := zones[i];
        var full := Text(z, Domain);
        if Text(z, Subdomain) != "" {
          full := Text(z, Subdomain) + "." + Text(z, Domain);
        }
        if full == zone {
          filtered := filtered + [z];
        }
      }
      assert zones[..|zones|] == zones;
      KeptZonesAre(zones, zone);
      kept := filtered;
    }
  }

  lemma {:induction false} KeptZonesAre(zones: seq<Doc>, zone: string)
    ensures forall z :: z in KeptZones(zones, zone) <==> z in zones && ZoneKey(z) == zone
  {
    hide ZoneKey;
    if zones != [] {
      var n := |zones| - 1;
      KeptZonesAre(zones[..n], zone);
      assert forall z :: z in zones <==> z in zones[..n] || z == zones[n];
    }
  }
}
