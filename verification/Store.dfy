/** The invariant of the store, and the create, update and delete shared by most tables. */
module Store {
  import opened Wrappers
  import opened Documents
  import opened Relational
  import opened MockwaySchema
  import opened Aliases

  /** The store after a call, and how the call ended. */
  datatype Outcome = Outcome(db: Db, status: Status)

  /** A single-statement call: a statement that fails leaves the store as it was. */
  function Single(db: Db, r: Result<Db>): Outcome {
    match r
    case Ok(next) => Outcome(next, Done)
    case Err(e) => Outcome(db, Failed(e))
  }

  function ColumnValue(row: Row, c: Name): Option<string> {
    if c in row.cols then Some(row.cols[c]) else None
  }

  /** A row with some columns and fields set, everything else being as it was. */
  ghost predicate Differs(before: Row, after: Row, columns: map<Name, Option<string>>, fields: Doc) {
    && (forall c :: ColumnValue(after, c) == if c in columns then columns[c] else ColumnValue(before, c))
    && (forall k :: Get(after.data, k) == if k in fields then fields[k] else Get(before.data, k))
    && (forall k | k !in fields :: k in after.data <==> k in before.data)
  }

  // ---- columns and documents -------------------------------------------------------------------

  function TextAt(doc: Doc, path: seq<Name>): string
    decreases |path|
  {
    if path == [] then ""
    else if |path| == 1 then Text(doc, path[0])
    else TextAt(AsDoc(Get(doc, path[0])), path[1..])
  }

  /** The value a create (or an update) stores in a column. */
  function Extract(source: Source, doc: Doc, creating: bool): Option<string> {
    var text := TextAt(doc, source.path);
    match source.rule
    case Plain => Some(text)
    case NullIfEmpty => if text == "" then None else Some(text)
    case NullOnUpdate => if !creating && text == "" then None else Some(text)
    case NullIfBlank => if (if creating then Trim(text) == "" else text == "") then None else Some(text)
  }

  /** A column says what its document says. */
  predicate Agrees(source: Source, doc: Doc, col: Option<string>) {
    var text := TextAt(doc, source.path);
    match source.rule
    case Plain => col == Some(text)
    case NullIfEmpty => col == if text == "" then None else Some(text)
    case NullOnUpdate => if col == None then text == "" else col == Some(text)
    case NullIfBlank => if col == None then Trim(text) == "" else col == Some(text)
  }

  function Columns(sources: map<Name, Source>, doc: Doc, creating: bool): map<Name, string> {
    map c | c in sources && Extract(sources[c], doc, creating).Some? :: Extract(sources[c], doc, creating).value
  }

  function SourcesOf(schema: Schema, t: Table): map<Name, Source> {
    if t in schema.sources then schema.sources[t] else map[]
  }

  function KeyNamesOf(schema: Schema, t: Table): seq<Name> {
    if t in schema.keyNames then schema.keyNames[t] else []
  }

  /** The document spells the primary key under the given names. */
  predicate SpellsKey(names: seq<Name>, key: seq<string>, doc: Doc) {
    names != [] ==> |key| == |names| && forall i | 0 <= i < |names| :: Get(doc, names[i]) == Str(key[i])
  }

  predicate ColumnsAgree(sources: map<Name, Source>, row: Row) {
    forall c | c in sources :: Agrees(sources[c], row.data, ColumnValue(row, c))
  }

  predicate RowOk(schema: Schema, r: Ref, row: Row) {
    SpellsKey(KeyNamesOf(schema, r.table), r.key, row.data) && ColumnsAgree(SourcesOf(schema, r.table), row)
  }

  // ---- the invariant ---------------------------------------------------------------------------

  ghost predicate RowsOk(db: Db) {
    forall r | r in db.rows :: RowOk(db.schema, r, db.rows[r])
  }

  function ZoneKey(doc: Doc): string {
    if Text(doc, Subdomain) != "" then Text(doc, Subdomain) + "." + Text(doc, Domain) else Text(doc, Domain)
  }

  /** DNS records have no SQL foreign key: the zone each one names is kept alive by the code alone. */
  ghost predicate DnsOk(db: Db) {
    && (forall r | r in db.rows && r.table == DomainRecords ::
          db.rows[r].cols.Keys == {DnsZone} && Ref(DnsZones, [db.rows[r].cols[DnsZone]]) in db.rows)
    && (forall r | r in db.rows && r.table == DnsZones :: r.key == [ZoneKey(db.rows[r].data)])
  }

  function KeyColumns(t: Table): seq<Name> {
    match t
    case RdbPrivileges => [InstanceId, UserName, DatabaseName]
    case RdbAcls => [InstanceId]
    case IamGroupMembers => [GroupId, UserId]
    case _ => []
  }

  /** The tables whose documents do not spell the key have it in their columns. */
  predicate KeyInColumns(r: Ref, row: Row) {
    KeyColumns(r.table) != [] ==>
      && |r.key| == |KeyColumns(r.table)|
      && forall i | 0 <= i < |r.key| :: ColumnValue(row, KeyColumns(r.table)[i]) == Some(r.key[i])
  }

  ghost predicate KeysOk(db: Db) {
    forall r | r in db.rows :: KeyInColumns(r, db.rows[r])
  }

  ghost predicate StoreInv(db: Db) {
    Facts(db.schema) && Intact(db) && RowsOk(db) && DnsOk(db) && KeysOk(db)
  }

  /** What the lemmas about calls take from the invariant. */
  lemma InvParts(db: Db)
    requires StoreInv(db)
    ensures Facts(db.schema) && Intact(db) && RowsOk(db) && DnsOk(db) && KeysOk(db)
    ensures ActionFacts(db.schema.foreignKeys) && ParentFacts(db.schema.foreignKeys)
    ensures ChildFacts(db.schema.foreignKeys)
    ensures NamedFacts(db.schema.foreignKeys) && NullableActions(db.schema) && TableFacts(db.schema)
  {
    hide ActionFacts, ParentFacts, ChildFacts, NamedFacts, NullableActions, TableFacts, Intact, RowsOk, DnsOk, KeysOk;
  }

  lemma InvWhole(db: Db)
    requires Facts(db.schema) && Intact(db) && RowsOk(db) && DnsOk(db) && KeysOk(db)
    ensures StoreInv(db)
  {
    hide Facts, Intact, RowsOk, DnsOk, KeysOk;
  }

  /** Tables on which the invariant is row by row; the others are tied to each other by the code alone. */
  predicate Ordinary(t: Table) {
    match t
    case DnsZones => false
    case DomainRecords => false
    case _ => KeyColumns(t) == []
  }

  /** Two stores hold the same rows in table t. */
  ghost predicate SameTable(db: Db, next: Db, t: Table) {
    && (forall r | r in db.rows && r.table == t :: r in next.rows && next.rows[r] == db.rows[r])
    && (forall r | r in next.rows && r.table == t :: r in db.rows)
  }

  /** Everything outside the given tables is untouched. */
  ghost predicate ChangesOnly(db: Db, next: Db, tables: set<Table>) {
    next.schema == db.schema && forall t: Table | t !in tables :: SameTable(db, next, t)
  }

  /** A value of newID: a name without blanks that occurs nowhere in the store. */
  ghost predicate Fresh(db: Db, id: string) {
    && id != "" && Trim(id) == id
    && forall r | r in db.rows :: id !in r.key && id !in db.rows[r].cols.Values && !MentionsDoc(db.rows[r].data, id)
  }

  // ---- writing one row ---------------------------------------------------------------------------

  lemma ColumnsRight(sources: map<Name, Source>, doc: Doc, creating: bool, base: map<Name, string>)
    requires base.Keys !! sources.Keys
    ensures ColumnsAgree(sources, Row(base + Columns(sources, doc, creating), doc))
  {
    var row := Row(base + Columns(sources, doc, creating), doc);
    forall c | c in sources
      ensures Agrees(sources[c], doc, ColumnValue(row, c))
    {
      assert ColumnValue(row, c) == Extract(sources[c], doc, creating);
      assert Trim("") == "";
    }
  }

  /** INSERT of a document under a key, with its columns derived and some given columns beside them. */
  function CreateRow(db: Db, r: Ref, given: map<Name, string>, doc: Doc): Result<Db> {
    var sources := SourcesOf(db.schema, r.table);
    Insert(db, r, Row((given - sources.Keys) + Columns(sources, doc, true), doc))
  }

  /** Writing the primary key into the document, as every create does. */
  function Spelled(doc: Doc, names: seq<Name>, key: seq<string>): Doc
    requires |names| == |key|
    decreases |names|
  {
    if names == [] then doc else Spelled(doc[names[0] := Str(key[0])], names[1..], key[1..])
  }

  /** What the create of a table sets or translates in the request body beyond plain defaults. */
  function Prepared(t: Table, data: Doc): Doc {
    match t
    case Clusters => CreatedCluster(data)
    case RdbInstances => CreatedInstance(data)
    case LbIps => data[LbId := Null]
    case BlockSnapshots => (data - {VolumeId})[ParentVolume := Obj(map[Id := Str(Text(data, VolumeId))])]
    case _ => data
  }

  function WithParams(data: Doc, params: map<Name, string>): Doc {
    data + map k | k in params :: Str(params[k])
  }

  /** An id that is given but not stored. */
  predicate Missing(rows: map<Ref, Row>, t: Table, id: string) {
    id != "" && Ref(t, [id]) !in rows
  }

  /**
   * The references no foreign key guards and the code looks up itself: the backend of a frontend, and on update
   * the two ends of a route, which must be of one balancer when the frontend has one.
   */
  predicate Dangling(rows: map<Ref, Row>, t: Table, doc: Doc, creating: bool) {
    match t
    case LbFrontends => Missing(rows, LbBackends, Text(doc, BackendId))
    case LbRoutes => !creating && DanglingRoute(rows, Text(doc, FrontendId), Text(doc, BackendId))
    case _ => false
  }

  predicate DanglingRoute(rows: map<Ref, Row>, frontend: string, backend: string) {
    || Missing(rows, LbFrontends, frontend)
    || Missing(rows, LbBackends, backend)
    || (&& frontend != "" && backend != "" && Text(rows[Ref(LbFrontends, [frontend])].data, LbId) != ""
        && Text(rows[Ref(LbFrontends, [frontend])].data, LbId) != Text(rows[Ref(LbBackends, [backend])].data, LbId))
  }

  /**
   * The create of a table: path parameters go into the document (and into their columns), then the primary
   * key, which createSimple takes from newID, the references looked up by hand, and one INSERT.
   */
  function Create(db: Db, t: Table, key: seq<string>, params: map<Name, string>, data: Doc): Outcome
    requires |KeyNamesOf(db.schema, t)| == |key|
  {
    var doc := Spelled(Prepared(t, WithParams(data, params)), KeyNamesOf(db.schema, t), key);
    if Dangling(db.rows, t, doc, true) then Outcome(db, Failed(NotFound))
    else Single(db, CreateRow(db, Ref(t, key), params, doc))
  }

  /** The fields an update never overwrites: the ones the primary key is spelled with. */
  function Protected(schema: Schema, t: Table): set<Name> {
    if t == DnsZones then {Domain, Subdomain} else set n | n in KeyNamesOf(schema, t)
  }

  function Translated(t: Table, next: Doc): Doc {
    match t
    case Clusters => PatchedCluster(next)
    case RdbInstances => PatchedInstance(next)
    case _ => next
  }

  /** The update of a table: merge the patch, translate aliases, look up references, write document and columns. */
  function Patch(db: Db, t: Table, key: seq<string>, patch: Doc): Outcome {
    var r := Ref(t, key);
    if r !in db.rows then Outcome(db, Failed(NotFound))
    else
      var next := Translated(t, PatchMerge(db.rows[r].data, patch, Protected(db.schema, t)));
      if Dangling(db.rows, t, next, false) then Outcome(db, Failed(NotFound)) else Single(db, UpdateDoc(db, r, next))
  }

  /** updateJSONByID after setting one document field, such as a server's state or a group's rules. */
  function SetField(db: Db, t: Table, key: seq<string>, k: Name, v: Json): Outcome {
    var r := Ref(t, key);
    if r !in db.rows then Outcome(db, Failed(NotFound))
    else Single(db, Update(db, r, db.rows[r].(data := db.rows[r].data[k := v])))
  }

  /** deleteBy: not-found when the WHERE clause matches nothing, conflict when a foreign key refuses. */
  function DeleteBy(db: Db, doomed: set<Ref>): Outcome
    requires doomed <= db.rows.Keys
  {
    if doomed == {} then Outcome(db, Failed(NotFound)) else Single(db, DeleteRows(db, doomed))
  }

  function Remove(db: Db, t: Table, key: seq<string>): Outcome {
    DeleteBy(db, if Ref(t, key) in db.rows then {Ref(t, key)} else {})
  }

  function LabelRef(text: string): Ref { Ref(MarketplaceLabels, [text]) }

  /** INSERT OR IGNORE of a marketplace label, a row without a document. */
  function AddLabel(db: Db, text: string): Outcome {
    if LabelRef(text) in db.rows then Outcome(db, Done) else Single(db, Insert(db, LabelRef(text), Row(map[], map[])))
  }

  /** UPDATE of a document together with the columns derived from it; other columns stay. */
  function UpdateDoc(db: Db, r: Ref, doc: Doc): Result<Db>
    requires r in db.rows
  {
    var sources := SourcesOf(db.schema, r.table);
    Update(db, r, Row((db.rows[r].cols - sources.Keys) + Columns(sources, doc, false), doc))
  }

  lemma InsertKeeps(db: Db, r: Ref, row: Row)
    requires Intact(db) && RowsOk(db) && RowOk(db.schema, r, row)
    ensures Insert(db, r, row).Ok? ==>
              var next := Insert(db, r, row).value;
              && Intact(next) && RowsOk(next) && ChangesOnly(db, next, {r.table})
              && next.rows == db.rows[r := row] && r !in db.rows
  {
    hide RowOk, Intact;
    InsertIntact(db, r, row);
  }

  lemma UpdateKeeps(db: Db, r: Ref, row: Row)
    requires Intact(db) && RowsOk(db) && RowOk(db.schema, r, row)
    requires r in db.rows
    ensures Update(db, r, row).Ok? ==>
              var next := Update(db, r, row).value;
              Intact(next) && RowsOk(next) && ChangesOnly(db, next, {r.table}) && next.rows == db.rows[r := row]
  {
    hide RowOk, Intact;
    UpdateIntact(db, r, row);
  }

  lemma CreateRowKeeps(db: Db, r: Ref, given: map<Name, string>, doc: Doc)
    requires Intact(db) && RowsOk(db)
    requires SpellsKey(KeyNamesOf(db.schema, r.table), r.key, doc)
    ensures CreateRow(db, r, given, doc).Ok? ==>
              var next := CreateRow(db, r, given, doc).value;
              && Intact(next) && RowsOk(next) && ChangesOnly(db, next, {r.table})
              && r !in db.rows && r in next.rows && next.rows[r].data == doc && next.rows == db.rows[r := next.rows[r]]
  {
    var sources := SourcesOf(db.schema, r.table);
    var row := Row((given - sources.Keys) + Columns(sources, doc, true), doc);
    ColumnsRight(sources, doc, true, given - sources.Keys);
    InsertKeeps(db, r, row);
  }

  lemma UpdateDocKeeps(db: Db, r: Ref, doc: Doc)
    requires Intact(db) && RowsOk(db)
    requires r in db.rows
    requires SpellsKey(KeyNamesOf(db.schema, r.table), r.key, doc)
    ensures UpdateDoc(db, r, doc).Ok? ==>
              var next := UpdateDoc(db, r, doc).value;
              && Intact(next) && RowsOk(next) && ChangesOnly(db, next, {r.table})
              && r in next.rows && next.rows[r].data == doc && next.rows == db.rows[r := next.rows[r]]
  {
    var sources := SourcesOf(db.schema, r.table);
    var row := Row((db.rows[r].cols - sources.Keys) + Columns(sources, doc, false), doc);
    ColumnsRight(sources, doc, false, db.rows[r].cols - sources.Keys);
    UpdateKeeps(db, r, row);
  }

  // ---- deletes ---------------------------------------------------------------------------------

  lemma CascadeShape(db: Db, doomed: set<Ref>)
    requires ActionFacts(db.schema.foreignKeys)
    requires doomed <= db.rows.Keys
    ensures forall r | r in Closure(db, doomed) :: r in doomed || r.table in CASCADED
  {
    var bound := doomed + set r | r in db.rows && r.table in CASCADED;
    forall r | r in Referrers(db, bound, Cascade)
      ensures r in bound
    {
      var fk :| fk in db.schema.foreignKeys && fk.action == Cascade && Uses(db, r, fk);
      assert ByAction(fk);
    }
    ClosureLeast(db, doomed, bound);
  }

  lemma NothingNulled(db: Db, gone: set<Ref>)
    requires ActionFacts(db.schema.foreignKeys)
    requires forall r | r in gone :: r.table != Servers && r.table != SecurityGroups
    ensures Referrers(db, gone, SetNull) == {}
  {
    forall r, fk | fk in db.schema.foreignKeys && fk.action == SetNull && Uses(db, r, fk)
      ensures Target(fk, db.rows[r]) !in gone
    {
      assert ByAction(fk);
    }
  }

  /** A delete that names no server and no security group sets no column to null and cascades only downwards. */
  lemma DeleteShape(db: Db, doomed: set<Ref>)
    requires ActionFacts(db.schema.foreignKeys)
    requires doomed <= db.rows.Keys
    requires forall r | r in doomed :: r.table != Servers && r.table != SecurityGroups
    ensures forall r | r in Closure(db, doomed) :: r in doomed || r.table in CASCADED
    ensures DeleteRows(db, doomed).Ok? ==> DeleteRows(db, doomed).value == db.(rows := db.rows - Closure(db, doomed))
  {
    hide ActionFacts;
    CascadeShape(db, doomed);
    NothingNulled(db, Closure(db, doomed));
    DeleteExact(db, doomed);
  }

  lemma ShrinkRowsOk(db: Db, gone: set<Ref>)
    requires RowsOk(db)
    ensures RowsOk(db.(rows := db.rows - gone))
  {
    hide RowOk;
  }

  lemma ShrinkDnsOk(db: Db, gone: set<Ref>)
    requires DnsOk(db)
    requires forall r | r in gone :: r.table != DnsZones
    ensures DnsOk(db.(rows := db.rows - gone))
  {
    hide ZoneKey;
  }

  lemma ShrinkKeysOk(db: Db, gone: set<Ref>)
    requires KeysOk(db)
    ensures KeysOk(db.(rows := db.rows - gone))
  {
    hide KeyInColumns;
  }

  lemma DeleteKeeps(db: Db, doomed: set<Ref>)
    requires StoreInv(db)
    requires doomed <= db.rows.Keys
    requires forall r | r in doomed :: r.table !in {Servers, SecurityGroups, DnsZones}
    ensures DeleteRows(db, doomed).Ok? ==>
              && DeleteRows(db, doomed).value == db.(rows := db.rows - Closure(db, doomed))
              && StoreInv(DeleteRows(db, doomed).value)
    ensures forall r | r in Closure(db, doomed) :: r in doomed || r.table in CASCADED
  {
    hide ActionFacts, ParentFacts, ChildFacts, NamedFacts, NullableActions, TableFacts, Intact, RowsOk, DnsOk, KeysOk,
      DeleteRows;
    DeleteShape(db, doomed);
    DeleteIntact(db, doomed);
    ShrinkRowsOk(db, Closure(db, doomed));
    ShrinkDnsOk(db, Closure(db, doomed));
    ShrinkKeysOk(db, Closure(db, doomed));
  }

  /** Rows of tables no foreign key points into go alone, with one statement that cannot fail. */
  lemma DeleteLeaves(db: Db, doomed: set<Ref>)
    requires ParentFacts(db.schema.foreignKeys) && doomed <= db.rows.Keys
    requires forall r | r in doomed :: r.table !in PARENTS
    ensures DeleteRows(db, doomed) == Ok(db.(rows := db.rows - doomed))
  {
    hide ParentFacts;
    forall q, a: Action | q in db.rows && q !in doomed
      ensures !RefersInto(db, q, doomed, a)
    {
      forall fk | fk in db.schema.foreignKeys && Uses(db, q, fk)
        ensures Target(fk, db.rows[q]) !in doomed
      {
        ParentTable(db.schema.foreignKeys, fk);
      }
    }
    DeleteUnreferenced(db, doomed);
  }

  lemma ParentTable(fks: set<ForeignKey>, fk: ForeignKey)
    requires ParentFacts(fks) && fk in fks
    ensures fk.parent in PARENTS
  {
    assert ByParent(fk);
  }

  lemma LeavesGone(db: Db, gone: set<Ref>)
    requires ParentFacts(db.schema.foreignKeys) && NullableActions(db.schema) && Intact(db)
    requires forall r | r in gone :: r.table !in PARENTS
    ensures Intact(db.(rows := db.rows - gone))
  {
    hide ParentFacts, NullableActions, Intact, DeleteRows;
    DeleteLeaves(db, gone * db.rows.Keys);
    DeleteIntact(db, gone * db.rows.Keys);
    assert db.rows - gone * db.rows.Keys == db.rows - gone;
  }

  // ---- lookups agree with documents --------------------------------------------------------------

  /** listJSON: the rows whose column holds the value. */
  function Listed(db: Db, t: Table, c: Name, v: string): set<Ref> {
    set r | r in db.rows && r.table == t && ColumnValue(db.rows[r], c) == Some(v)
  }

  /** The rows whose own document has the value where the column comes from. */
  function Filtered(db: Db, t: Table, source: Source, v: string): set<Ref> {
    set r | r in db.rows && r.table == t && TextAt(db.rows[r].data, source.path) == v
  }

  /** The values a column can hold: the empty one, or a blank one, may stand for null. */
  predicate Listable(rule: Rule, v: string) {
    match rule
    case Plain => true
    case NullIfBlank => Trim(v) != ""
    case _ => v != ""
  }

  lemma AgreeingColumn(source: Source, doc: Doc, col: Option<string>, v: string)
    requires Agrees(source, doc, col)
    requires Listable(source.rule, v)
    ensures col == Some(v) <==> TextAt(doc, source.path) == v
  {
    assert Trim("") == "";
  }

  lemma AgreeingRow(schema: Schema, r: Ref, row: Row, c: Name, v: string)
    requires RowOk(schema, r, row)
    requires c in SourcesOf(schema, r.table)
    requires Listable(SourcesOf(schema, r.table)[c].rule, v)
    ensures ColumnValue(row, c) == Some(v) <==> TextAt(row.data, SourcesOf(schema, r.table)[c].path) == v
  {
    hide TextAt, Listable, SpellsKey;
    var source := SourcesOf(schema, r.table)[c];
    assert Agrees(source, row.data, ColumnValue(row, c));
    AgreeingColumn(source, row.data, ColumnValue(row, c), v);
  }

  /**
   * Listing by an indexed column is filtering by the document field. A nullable column is never listed by the
   * value that stands for null.
   */
  lemma ListsAgree(db: Db, t: Table, c: Name, v: string)
    requires RowsOk(db)
    requires c in SourcesOf(db.schema, t)
    requires Listable(SourcesOf(db.schema, t)[c].rule, v)
    ensures Listed(db, t, c, v) == Filtered(db, t, SourcesOf(db.schema, t)[c], v)
  {
    hide RowOk, ColumnValue, TextAt, Listable, SourcesOf;
    var source := SourcesOf(db.schema, t)[c];
    forall r | r in db.rows && r.table == t
      ensures ColumnValue(db.rows[r], c) == Some(v) <==> TextAt(db.rows[r].data, source.path) == v
    {
      AgreeingRow(db.schema, r, db.rows[r], c, v);
    }
  }

  // ---- what the shared operations keep ---------------------------------------------------------------

  /** Facts about the tables of a store whose invariant holds. */
  lemma KeyNamesKnown(db: Db, t: Table)
    requires TableFacts(db.schema)
    ensures t in db.schema.keyNames && t in db.schema.sources
    ensures Distinct(KeyNamesOf(db.schema, t)) && forall n | n in KeyNamesOf(db.schema, t) :: n in KEY_FIELDS
    ensures t == DnsZones ==> KeyNamesOf(db.schema, t) == []
  {
  }

  /** A document of a table keyed by id carries its primary key. */
  lemma IdOf(schema: Schema, r: Ref, row: Row)
    requires TableFacts(schema) && RowOk(schema, r, row)
    requires r.table in {Servers, SecurityGroups, InstanceIps, Lbs, LbIps, BlockVolumes, InstanceVolumes, DomainRecords,
                         IamPolicies, IamRules, RdbInstances, Pools}
    ensures KeyNamesOf(schema, r.table) == [Id]
    ensures |r.key| == 1 && Get(row.data, Id) == Str(r.key[0])
  {
    hide RequiredFacts, SourceFacts, ColumnsAgree;
    assert KeyNamesOf(schema, r.table) == [Id];
    assert Get(row.data, [Id][0]) == Str(r.key[0]);
  }

  lemma SpelledRight(doc: Doc, names: seq<Name>, key: seq<string>)
    requires |names| == |key| && Distinct(names)
    ensures SpellsKey(names, key, Spelled(doc, names, key))
    ensures forall k | k !in names :: Get(Spelled(doc, names, key), k) == Get(doc, k)
    decreases |names|
  {
    if names != [] {
      var rest := Spelled(doc[names[0] := Str(key[0])], names[1..], key[1..]);
      SpelledRight(doc[names[0] := Str(key[0])], names[1..], key[1..]);
      forall i | 0 <= i < |names|
        ensures Get(rest, names[i]) == Str(key[i])
      {
        if i > 0 {
          assert names[1..][i - 1] == names[i] && key[1..][i - 1] == key[i];
        }
      }
    }
  }

  lemma KeysFrame(db: Db, next: Db, tables: set<Table>)
    requires KeysOk(db) && ChangesOnly(db, next, tables)
    requires forall t | t in tables :: KeyColumns(t) == []
    ensures KeysOk(next)
  {
    hide KeyColumns;
    forall r | r in next.rows
      ensures KeyInColumns(r, next.rows[r])
    {
      if KeyColumns(r.table) != [] {
        assert SameTable(db, next, r.table);
        assert KeyInColumns(r, db.rows[r]);
      }
    }
  }

  lemma NoChange(db: Db, tables: set<Table>)
    ensures ChangesOnly(db, db, tables)
  {
  }

  lemma ChangesOnward(a: Db, b: Db, c: Db, s: set<Table>, t: set<Table>)
    requires ChangesOnly(a, b, s) && ChangesOnly(b, c, t)
    ensures ChangesOnly(a, c, s + t)
  {
    hide SameTable;
    forall u: Table | u !in s + t
      ensures SameTable(a, c, u)
    {
      SameOnward(a, b, c, u);
    }
  }

  lemma SameOnward(a: Db, b: Db, c: Db, t: Table)
    requires SameTable(a, b, t) && SameTable(b, c, t)
    ensures SameTable(a, c, t)
  {
  }

  /** A change outside the DNS tables that keeps rows and constraints keeps the whole invariant. */
  lemma StoreFrame(db: Db, next: Db, tables: set<Table>)
    requires StoreInv(db) && Intact(next) && RowsOk(next) && ChangesOnly(db, next, tables)
    requires forall t | t in tables :: Ordinary(t)
    ensures StoreInv(next)
  {
    hide Facts, Intact, RowsOk, KeysOk, KeyColumns;
    KeysFrame(db, next, tables);
    assert SameTable(db, next, DnsZones) && SameTable(db, next, DomainRecords);
  }

  lemma CreateKeeps(db: Db, t: Table, key: seq<string>, params: map<Name, string>, data: Doc)
    requires StoreInv(db)
    requires |KeyNamesOf(db.schema, t)| == |key|
    requires Ordinary(t)
    ensures var out := Create(db, t, key, params, data);
            && StoreInv(out.db) && ChangesOnly(db, out.db, {t})
            && (out.status != Done ==> out.db == db)
            && (out.status == Done ==>
                  && Ref(t, key) !in db.rows
                  && Ref(t, key) in out.db.rows
                  && out.db.rows == db.rows[Ref(t, key) := out.db.rows[Ref(t, key)]]
                  && out.db.rows[Ref(t, key)].data ==
                     Spelled(Prepared(t, WithParams(data, params)), KeyNamesOf(db.schema, t), key)
                  && !Dangling(db.rows, t, out.db.rows[Ref(t, key)].data, true))
  {
    hide StoreInv, Facts, ActionFacts, ParentFacts, ChildFacts, NamedFacts, NullableActions, TableFacts, Intact, RowsOk,
      DnsOk, KeysOk, CreateRow, Spelled, Prepared, SpellsKey, KeyNamesOf, Ordinary, Dangling;
    InvParts(db);
    var doc := Spelled(Prepared(t, WithParams(data, params)), KeyNamesOf(db.schema, t), key);
    KeyNamesKnown(db, t);
    SpelledRight(Prepared(t, WithParams(data, params)), KeyNamesOf(db.schema, t), key);
    CreateRowKeeps(db, Ref(t, key), params, doc);
    var made := CreateRow(db, Ref(t, key), params, doc);
    if made.Ok? {
      StoreFrame(db, made.value, {t});
    }
  }

  /** An update never changes the fields a key is spelled with. */
  lemma PatchedKey(schema: Schema, t: Table, current: Doc, patch: Doc, n: Name)
    requires n in Protected(schema, t)
    requires n in KEY_FIELDS || t == DnsZones
    ensures Get(Translated(t, PatchMerge(current, patch, Protected(schema, t))), n) == Get(current, n)
  {
    hide Protected;
    MergeAt(current, patch, Protected(schema, t), n);
    TranslatedElsewhere(t, PatchMerge(current, patch, Protected(schema, t)), n);
  }

  lemma TranslatedElsewhere(t: Table, next: Doc, n: Name)
    ensures (t != Clusters && t != RdbInstances) || n in KEY_FIELDS ==> Get(Translated(t, next), n) == Get(next, n)
  {
  }

  lemma PatchSpellsKey(db: Db, r: Ref, patch: Doc)
    requires TableFacts(db.schema)
    requires r in db.rows && SpellsKey(KeyNamesOf(db.schema, r.table), r.key, db.rows[r].data)
    ensures SpellsKey(KeyNamesOf(db.schema, r.table), r.key,
                      Translated(r.table, PatchMerge(db.rows[r].data, patch, Protected(db.schema, r.table))))
  {
    hide Translated, PatchMerge, TableFacts;
    KeyNamesKnown(db, r.table);
    var names := KeyNamesOf(db.schema, r.table);
    forall i | 0 <= i < |names|
      ensures Get(Translated(r.table, PatchMerge(db.rows[r].data, patch, Protected(db.schema, r.table))), names[i])
              == Get(db.rows[r].data, names[i])
    {
      PatchedKey(db.schema, r.table, db.rows[r].data, patch, names[i]);
    }
  }

  lemma PatchKeeps(db: Db, t: Table, key: seq<string>, patch: Doc)
    requires StoreInv(db)
    requires Ordinary(t) || t == DnsZones
    ensures var out := Patch(db, t, key, patch);
            && StoreInv(out.db) && ChangesOnly(db, out.db, {t})
            && (out.status != Done ==> out.db == db)
            && (out.status == Done ==>
                  && Ref(t, key) in db.rows && Ref(t, key) in out.db.rows
                  && out.db.rows == db.rows[Ref(t, key) := out.db.rows[Ref(t, key)]]
                  && out.db.rows[Ref(t, key)].data ==
                     Translated(t, PatchMerge(db.rows[Ref(t, key)].data, patch, Protected(db.schema, t)))
                  && !Dangling(db.rows, t, out.db.rows[Ref(t, key)].data, false))
  {
    hide StoreInv, Facts, ActionFacts, ParentFacts, ChildFacts, NamedFacts, NullableActions, TableFacts, Intact, DnsOk,
      KeysOk, Dangling, UpdateDoc, Translated, PatchMerge, SpellsKey, KeyNamesOf, ColumnsAgree, Protected, ZoneKey;
    InvParts(db);
    var r := Ref(t, key);
    if r in db.rows {
      var doc := Translated(t, PatchMerge(db.rows[r].data, patch, Protected(db.schema, t)));
      assert RowOk(db.schema, r, db.rows[r]);
      PatchSpellsKey(db, r, patch);
      UpdateDocKeeps(db, r, doc);
      var made := UpdateDoc(db, r, doc);
      if made.Ok? {
        if t == DnsZones {
          PatchedZoneKey(db, r, patch);
          ZonesKept(db, made.value, r);
          ZoneFrame(db, made.value);
        } else {
          StoreFrame(db, made.value, {t});
        }
      }
    }
  }

  lemma PatchedZoneKey(db: Db, r: Ref, patch: Doc)
    requires r in db.rows && r.table == DnsZones
    ensures ZoneKey(Translated(DnsZones, PatchMerge(db.rows[r].data, patch, Protected(db.schema, DnsZones)))) ==
            ZoneKey(db.rows[r].data)
  {
    hide PatchMerge, Translated;
    PatchedKey(db.schema, DnsZones, db.rows[r].data, patch, Domain);
    PatchedKey(db.schema, DnsZones, db.rows[r].data, patch, Subdomain);
  }

  /** Rewriting a zone's row under the same key keeps every record in an existing zone. */
  lemma ZonesKept(db: Db, next: Db, r: Ref)
    requires DnsOk(db)
    requires r in db.rows && r.table == DnsZones && r in next.rows
    requires next.rows == db.rows[r := next.rows[r]]
    requires ZoneKey(next.rows[r].data) == ZoneKey(db.rows[r].data)
    ensures DnsOk(next)
  {
    hide ZoneKey;
  }

  /** A change of zone rows alone, under a schema that stays. */
  lemma ZoneFrame(db: Db, next: Db)
    requires StoreInv(db) && Intact(next) && RowsOk(next) && DnsOk(next) && ChangesOnly(db, next, {DnsZones})
    ensures StoreInv(next)
  {
    hide Facts, Intact, RowsOk, KeysOk, DnsOk, SameTable;
    KeysFrame(db, next, {DnsZones});
  }

  /** The fields no column and no key is taken from. */
  predicate Loose(schema: Schema, t: Table, k: Name) {
    k !in KEY_FIELDS && forall c | c in SourcesOf(schema, t) :: k !in SourcesOf(schema, t)[c].path
  }

  lemma TextAtElsewhere(doc: Doc, k: Name, v: Json, path: seq<Name>)
    requires k !in path
    ensures TextAt(doc[k := v], path) == TextAt(doc, path)
  {
  }

  lemma SetFieldRowOk(db: Db, r: Ref, k: Name, v: Json)
    requires TableFacts(db.schema)
    requires r in db.rows && RowOk(db.schema, r, db.rows[r]) && Loose(db.schema, r.table, k)
    ensures RowOk(db.schema, r, db.rows[r].(data := db.rows[r].data[k := v]))
  {
    hide TableFacts, TextAt, KeyNamesOf, SourcesOf;
    KeyNamesKnown(db, r.table);
    var sources := SourcesOf(db.schema, r.table);
    forall c | c in sources
      ensures Agrees(sources[c], db.rows[r].data[k := v], ColumnValue(db.rows[r], c))
    {
      assert Agrees(sources[c], db.rows[r].data, ColumnValue(db.rows[r], c));
      TextAtElsewhere(db.rows[r].data, k, v, sources[c].path);
    }
  }

  lemma SetFieldKeeps(db: Db, t: Table, key: seq<string>, k: Name, v: Json)
    requires StoreInv(db) && Loose(db.schema, t, k)
    requires Ordinary(t)
    ensures var out := SetField(db, t, key, k, v);
            && StoreInv(out.db) && ChangesOnly(db, out.db, {t})
            && (out.status == Done <==> Ref(t, key) in db.rows)
            && (out.status == Done ==> out.db == db.(rows :=
                  db.rows[Ref(t, key) := db.rows[Ref(t, key)].(data := db.rows[Ref(t, key)].data[k := v])]))
            && (out.status != Done ==> out.db == db && out.status == Failed(NotFound))
  {
    hide StoreInv, Facts, ActionFacts, ParentFacts, ChildFacts, NamedFacts, NullableActions, TableFacts, DnsOk, KeysOk,
      RowOk, Loose, Intact, Update;
    InvParts(db);
    var r := Ref(t, key);
    if r in db.rows {
      SetFieldRowOk(db, r, k, v);
      SameColumnsUpdate(db, r, db.rows[r].data[k := v]);
      UpdateKeeps(db, r, db.rows[r].(data := db.rows[r].data[k := v]));
      StoreFrame(db, SetField(db, t, key, k, v).db, {t});
    }
  }

  /** Rewriting only the document of a stored row cannot fail. */
  lemma SameColumnsUpdate(db: Db, r: Ref, doc: Doc)
    requires Intact(db) && r in db.rows
    ensures Update(db, r, db.rows[r].(data := doc)) == Ok(db.(rows := db.rows[r := db.rows[r].(data := doc)]))
  {
    var next := db.(rows := db.rows[r := db.rows[r].(data := doc)]);
    assert ParentsExist(db, r);
    forall fk | fk in next.schema.foreignKeys && Uses(next, r, fk)
      ensures Target(fk, next.rows[r]) in next.rows
    {
      assert Uses(db, r, fk);
    }
  }

  /** Adding a label always succeeds and stores it, and changes nothing else. */
  lemma AddLabelKeeps(db: Db, text: string)
    requires StoreInv(db)
    ensures var out := AddLabel(db, text);
            && StoreInv(out.db) && ChangesOnly(db, out.db, {MarketplaceLabels})
            && out.status == Done && LabelRef(text) in out.db.rows
            && (forall r | r in db.rows :: r in out.db.rows && out.db.rows[r] == db.rows[r])
            && out.db.rows.Keys == db.rows.Keys + {LabelRef(text)}
  {
    hide StoreInv, Facts, ActionFacts, ParentFacts, ChildFacts, NamedFacts, NullableActions, TableFacts, Intact,
      RowsOk, DnsOk, KeysOk, Insert, RowOk;
    InvParts(db);
    if LabelRef(text) !in db.rows {
      LabelRowOk(db.schema, LabelRef(text));
      LabelInserts(db, text);
      InsertKeeps(db, LabelRef(text), Row(map[], map[]));
      StoreFrame(db, AddLabel(db, text).db, {MarketplaceLabels});
    }
  }

  lemma LabelInserts(db: Db, text: string)
    requires TableFacts(db.schema) && ChildFacts(db.schema.foreignKeys)
    ensures Insert(db, LabelRef(text), Row(map[], map[])) ==
            if LabelRef(text) in db.rows then Err(Conflict)
            else Ok(db.(rows := db.rows[LabelRef(text) := Row(map[], map[])]))
  {
    var r := LabelRef(text);
    assert RequiredPresent(db.schema, r, Row(map[], map[])) by {
      hide ChildFacts;
      assert db.schema.required[MarketplaceLabels] == {};
    }
    hide TableFacts, RequiredPresent;
    forall fk | fk in db.schema.foreignKeys
      ensures fk.child != MarketplaceLabels
    {
      assert ByChild(fk);
    }
  }

  lemma LabelRowOk(schema: Schema, r: Ref)
    requires TableFacts(schema) && r.table == MarketplaceLabels
    ensures RowOk(schema, r, Row(map[], map[]))
  {
    assert KeyNamesOf(schema, MarketplaceLabels) == [];
    assert SourcesOf(schema, MarketplaceLabels) == map[];
  }

  /**
   * A delete by key: not-found when the row is missing, a conflict exactly when a row outside the cascade refers into
   * it through a restricting key, and otherwise the cascade goes and nothing else changes.
   */
  lemma RemoveKeeps(db: Db, t: Table, key: seq<string>)
    requires StoreInv(db)
    requires t !in {Servers, SecurityGroups, DnsZones}
    ensures var out, gone := Remove(db, t, key), Closure(db, {Ref(t, key)} * db.rows.Keys);
            && StoreInv(out.db) && ChangesOnly(db, out.db, {t} + CASCADED)
            && (out.status == Failed(NotFound) <==> Ref(t, key) !in db.rows)
            && (out.status == Failed(Conflict) <==>
                  Ref(t, key) in db.rows && !(Referrers(db, gone, NoAction) <= gone))
            && (out.status == Done <==> Ref(t, key) in db.rows && Referrers(db, gone, NoAction) <= gone)
            && (out.status != Done ==> out.db == db)
            && (out.status == Done ==> Ref(t, key) in gone && out.db.rows == db.rows - gone)
    ensures forall r | r in Closure(db, {Ref(t, key)} * db.rows.Keys) :: r == Ref(t, key) || r.table in CASCADED
  {
    hide StoreInv, DeleteRows, Closure, Referrers, ChangesOnly;
    var doomed := {Ref(t, key)} * db.rows.Keys;
    DeleteKeeps(db, doomed);
    RowsGone(db, Closure(db, doomed), {t} + CASCADED);
    NoChange(db, {t} + CASCADED);
    DeleteAllowed(db, doomed);
    assert Ref(t, key) in db.rows ==> doomed == {Ref(t, key)};
  }

  lemma DeleteAllowed(db: Db, doomed: set<Ref>)
    requires doomed <= db.rows.Keys
    ensures DeleteRows(db, doomed).Ok? <==> Referrers(db, Closure(db, doomed), NoAction) <= Closure(db, doomed)
    ensures DeleteRows(db, doomed).Ok? || DeleteRows(db, doomed) == Err(Conflict)
  {
    hide Closure, Referrers;
  }

  lemma RowsGone(db: Db, gone: set<Ref>, tables: set<Table>)
    requires forall r | r in gone :: r.table in tables
    ensures ChangesOnly(db, db.(rows := db.rows - gone), tables)
  {
  }
}
