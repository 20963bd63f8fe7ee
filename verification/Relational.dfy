/** Rows, foreign keys, and the effect of one INSERT, UPDATE or DELETE statement while foreign keys are on. */
module Relational {
  import opened Wrappers
  import opened Documents

  datatype Table =
    | LbAcls | LbRoutes | LbCertificates | LbPrivateNetworks | LbFrontends | LbBackends | Lbs | LbIps
    | BlockSnapshots | BlockVolumes | IpamIps
    | PrivateNics | InstanceIps | Servers | SecurityGroups
    | Pools | Clusters
    | RdbBackups | RdbSnapshots | RdbReadReplicas | InstanceVolumes | MarketplaceLabels
    | RdbAcls | RdbPrivileges | RdbDatabases | RdbUsers | RdbInstances
    | RedisClusters | RegistryNamespaces
    | IamRules | IamApiKeys | IamPolicies | IamSshKeys | IamGroupMembers | IamGroups | IamUsers | IamApplications
    | DomainRecords | DnsZones
    | GatewayNetworks | PublicGateways | VpcRoutes | PrivateNetworks | Vpcs

  /** What a foreign key does when its parent row is deleted; NoAction refuses the delete. */
  datatype Action = NoAction | Cascade | SetNull

  datatype ForeignKey = ForeignKey(child: Table, column: Name, parent: Table, action: Action)

  /** A row's table and primary key. Every referenced table has a one-column key. */
  datatype Ref = Ref(table: Table, key: seq<string>)

  /** A column that is absent from cols is NULL. */
  datatype Row = Row(cols: map<Name, string>, data: Doc)

  /**
   * How a create or update derives an indexed column from the document it stores: as it is; null when empty;
   * null when empty but on updates only; null when blank, or on updates when empty.
   */
  datatype Rule = Plain | NullIfEmpty | NullOnUpdate | NullIfBlank
  datatype Source = Source(path: seq<Name>, rule: Rule)

  /**
   * What the schema declares (foreign keys, NOT NULL columns) and what the repository keeps per table:
   * the document fields that spell the primary key, and the source of each column it rewrites.
   */
  datatype Schema = Schema(
    foreignKeys: set<ForeignKey>,
    required: map<Table, set<Name>>,
    keyNames: map<Table, seq<Name>>,
    sources: map<Table, map<Name, Source>>)

  datatype Db = Db(schema: Schema, rows: map<Ref, Row>)

  function Target(fk: ForeignKey, row: Row): Ref
    requires fk.column in row.cols
  {
    Ref(fk.parent, [row.cols[fk.column]])
  }

  /** Row r holds a non-null reference through fk. */
  predicate Uses(db: Db, r: Ref, fk: ForeignKey) {
    r in db.rows && fk in db.schema.foreignKeys && fk.child == r.table && fk.column in db.rows[r].cols
  }

  predicate ParentsExist(db: Db, r: Ref)
    requires r in db.rows
  {
    forall fk | fk in db.schema.foreignKeys && Uses(db, r, fk) :: Target(fk, db.rows[r]) in db.rows
  }

  predicate RequiredPresent(schema: Schema, r: Ref, row: Row) {
    r.table in schema.required ==> schema.required[r.table] <= row.cols.Keys
  }

  /** Every foreign key and NOT NULL constraint holds. */
  ghost predicate Intact(db: Db) {
    forall r | r in db.rows :: ParentsExist(db, r) && RequiredPresent(db.schema, r, db.rows[r])
  }

  // ---- statements --------------------------------------------------------------------------

  function Insert(db: Db, r: Ref, row: Row): Result<Db> {
    var next := db.(rows := db.rows[r := row]);
    if !RequiredPresent(db.schema, r, row) then Err(Internal)
    else if r in db.rows then Err(Conflict)
    else if ParentsExist(next, r) then Ok(next)
    else Err(NotFound)
  }

  function Update(db: Db, r: Ref, row: Row): Result<Db> {
    var next := db.(rows := db.rows[r := row]);
    if r !in db.rows then Ok(db)
    else if !RequiredPresent(db.schema, r, row) then Err(Internal)
    else if ParentsExist(next, r) then Ok(next)
    else Err(NotFound)
  }

  /** Row r refers into the set s through a foreign key with the given action. */
  predicate RefersInto(db: Db, r: Ref, s: set<Ref>, action: Action) {
    exists fk | fk in db.schema.foreignKeys :: fk.action == action && Uses(db, r, fk) && Target(fk, db.rows[r]) in s
  }

  function Referrers(db: Db, s: set<Ref>, action: Action): set<Ref> {
    set r | r in db.rows && RefersInto(db, r, s, action)
  }

  /** The rows that go when the rows in s go: s and everything that cascades from it. */
  function Closure(db: Db, s: set<Ref>): (gone: set<Ref>)
    requires s <= db.rows.Keys
    ensures s <= gone <= db.rows.Keys
    ensures Referrers(db, gone, Cascade) <= gone
    decreases db.rows.Keys - s
  {
    var more := Referrers(db, s, Cascade) - s;
    if more == {} then s else Closure(db, s + more)
  }

  /** What ON DELETE SET NULL leaves of a surviving row. */
  function Nulled(db: Db, r: Ref, gone: set<Ref>): Row
    requires r in db.rows
  {
    var row := db.rows[r];
    Row(map c | c in row.cols && !(exists fk | fk in db.schema.foreignKeys ::
              fk.action == SetNull && fk.column == c && Uses(db, r, fk) && Target(fk, row) in gone) :: row.cols[c],
        row.data)
  }

  /** One DELETE statement over the rows its WHERE clause matched. */
  function DeleteRows(db: Db, doomed: set<Ref>): Result<Db>
    requires doomed <= db.rows.Keys
  {
    var gone := Closure(db, doomed);
    if Referrers(db, gone, NoAction) <= gone
    then Ok(db.(rows := map r | r in db.rows && r !in gone :: Nulled(db, r, gone)))
    else Err(Conflict)
  }

  // ---- what a statement keeps ----------------------------------------------------------------

  lemma InsertIntact(db: Db, r: Ref, row: Row)
    requires Intact(db)
    ensures Insert(db, r, row).Ok? ==> Intact(Insert(db, r, row).value)
  {
    if Insert(db, r, row).Ok? {
      GrowIntact(db, r, row);
    }
  }

  lemma UpdateIntact(db: Db, r: Ref, row: Row)
    requires Intact(db)
    ensures Update(db, r, row).Ok? ==> Intact(Update(db, r, row).value)
  {
    if r in db.rows && Update(db, r, row).Ok? {
      GrowIntact(db, r, row);
    }
  }

  /** Writing a row that has its parents and its required columns keeps every constraint. */
  lemma GrowIntact(db: Db, r: Ref, row: Row)
    requires Intact(db)
    requires RequiredPresent(db.schema, r, row)
    requires ParentsExist(db.(rows := db.rows[r := row]), r)
    ensures Intact(db.(rows := db.rows[r := row]))
  {
    var next := db.(rows := db.rows[r := row]);
    forall q | q in next.rows
      ensures ParentsExist(next, q) && RequiredPresent(next.schema, q, next.rows[q])
    {
      if q != r {
        assert ParentsExist(db, q);
        forall fk | fk in next.schema.foreignKeys && Uses(next, q, fk)
          ensures Target(fk, next.rows[q]) in next.rows
        {
          assert Uses(db, q, fk);
        }
      }
    }
  }

  /** No SET NULL column is required, so nulling it cannot break a NOT NULL constraint. */
  ghost predicate NullableActions(schema: Schema) {
    forall fk | fk in schema.foreignKeys && fk.action == SetNull && fk.child in schema.required ::
      fk.column !in schema.required[fk.child]
  }

  lemma DeleteIntact(db: Db, doomed: set<Ref>)
    requires Intact(db) && NullableActions(db.schema)
    requires doomed <= db.rows.Keys
    ensures DeleteRows(db, doomed).Ok? ==> Intact(DeleteRows(db, doomed).value)
  {
    if DeleteRows(db, doomed).Ok? {
      var gone := Closure(db, doomed);
      var next := DeleteRows(db, doomed).value;
      forall r | r in next.rows
        ensures ParentsExist(next, r) && RequiredPresent(next.schema, r, next.rows[r])
      {
        assert ParentsExist(db, r);
        forall fk | fk in next.schema.foreignKeys && Uses(next, r, fk)
          ensures Target(fk, next.rows[r]) in next.rows
        {
          assert Uses(db, r, fk);
          if fk.action != SetNull {
            NotReferring(db, r, gone, fk.action);
          }
        }
        if r.table in next.schema.required {
          forall c | c in next.schema.required[r.table] ensures c in next.rows[r].cols {}
        }
      }
    }
  }

  /** The cascade is the least set that holds the doomed rows and is closed under cascading references. */
  lemma ClosureLeast(db: Db, s: set<Ref>, bound: set<Ref>)
    requires s <= db.rows.Keys
    requires s <= bound
    requires Referrers(db, bound, Cascade) <= bound
    ensures Closure(db, s) <= bound
    decreases db.rows.Keys - s
  {
    var more := Referrers(db, s, Cascade) - s;
    if more != {} {
      forall r | r in more
        ensures r in bound
      {
        assert RefersInto(db, r, bound, Cascade);
        assert r in Referrers(db, bound, Cascade);
      }
      ClosureLeast(db, s + more, bound);
    }
  }

  lemma NotReferring(db: Db, r: Ref, s: set<Ref>, action: Action)
    requires r in db.rows && r !in Referrers(db, s, action)
    ensures !RefersInto(db, r, s, action)
  {
  }

  /** Without a SET NULL reference into the deleted rows, the survivors are exactly as they were. */
  lemma DeleteExact(db: Db, doomed: set<Ref>)
    requires doomed <= db.rows.Keys
    requires Referrers(db, Closure(db, doomed), SetNull) <= Closure(db, doomed)
    ensures DeleteRows(db, doomed).Ok? ==> DeleteRows(db, doomed).value == db.(rows := db.rows - Closure(db, doomed))
  {
    var gone := Closure(db, doomed);
    forall r | r in db.rows && r !in gone
      ensures Nulled(db, r, gone) == db.rows[r]
    {
      NotReferring(db, r, gone, SetNull);
      forall fk | fk in db.schema.foreignKeys && fk.action == SetNull && Uses(db, r, fk)
        ensures Target(fk, db.rows[r]) !in gone
      {
        assert !RefersInto(db, r, gone, SetNull);
      }
      assert Nulled(db, r, gone).cols == db.rows[r].cols;
    }
  }

  /** A delete nothing refers to removes exactly the doomed rows. */
  lemma DeleteUnreferenced(db: Db, doomed: set<Ref>)
    requires doomed <= db.rows.Keys
    requires forall r, a: Action :: r in db.rows && r !in doomed ==> !RefersInto(db, r, doomed, a)
    ensures Closure(db, doomed) == doomed
    ensures DeleteRows(db, doomed) == Ok(db.(rows := db.rows - doomed))
  {
    assert Referrers(db, doomed, Cascade) <= doomed;
    ClosureLeast(db, doomed, doomed);
    DeleteExact(db, doomed);
  }
}
