/** One volume id, three places it can live in, and the delete that mirrors the lookup over them. */
module VolumePlaces {
  import opened Wrappers
  import opened Documents
  import opened Relational
  import opened MockwaySchema
  import opened Store
  import opened Instances
  import opened InstanceLaws

  function BlockRef(id: string): Ref { Ref(BlockVolumes, [id]) }
  function StandaloneRef(id: string): Ref { Ref(InstanceVolumes, [id]) }

  /** Some server of the zone embeds the volume. */
  ghost predicate Embedded(db: Db, zone: string, id: string) {
    exists r, k :: HoldsVolume(db, zone, r, k, id)
  }

  /** What the block-volume GET finds: a block volume, a standalone volume, or one inside a server of the zone. */
  ghost predicate Found(db: Db, zone: string, id: string) {
    BlockRef(id) in db.rows || StandaloneRef(id) in db.rows || Embedded(db, zone, id)
  }

  /** The delete chain: each store is tried only after the previous one reports not-found. */
  ghost predicate VolumeDeleted(db: Db, zone: string, id: string, out: Outcome) {
    if BlockRef(id) in db.rows then out == Remove(db, BlockVolumes, [id])
    else if StandaloneRef(id) in db.rows then out == Remove(db, InstanceVolumes, [id])
    else if Embedded(db, zone, id) then
      exists r, k :: HoldsVolume(db, zone, r, k, id)
                     && out == Outcome(db.(rows := db.rows[r := WithoutVolume(db.rows[r], k)]), Done)
    else out == Outcome(db, Failed(NotFound))
  }

  predicate Snapshotted(db: Db, id: string) {
    exists r | r in db.rows :: r.table == BlockSnapshots && RefersBy(db.rows[r], VolumeId, id)
  }

  // ---- one place per id ------------------------------------------------------------------------------

  predicate Holds(db: Db, r: Ref, k: Name, id: string) {
    r in db.rows && r.table == Servers && IsVolume(EmbeddedVolumes(db.rows[r].data), k, id)
  }

  ghost predicate VolumeInv(db: Db) {
    && (forall id :: !(BlockRef(id) in db.rows && StandaloneRef(id) in db.rows))
    && (forall r, k, id :: Holds(db, r, k, id) ==> BlockRef(id) !in db.rows && StandaloneRef(id) !in db.rows)
    && (forall r, k, r', k', id :: Holds(db, r, k, id) && Holds(db, r', k', id) ==> r == r' && k == k')
  }

  /** No volume appears in a place it was not in before. */
  ghost predicate NoNewVolume(db: Db, next: Db) {
    && (forall id :: BlockRef(id) in next.rows ==> BlockRef(id) in db.rows)
    && (forall id :: StandaloneRef(id) in next.rows ==> StandaloneRef(id) in db.rows)
    && (forall r, k, id :: Holds(next, r, k, id) ==> Holds(db, r, k, id))
  }

  lemma VolumeFrame(db: Db, next: Db)
    requires VolumeInv(db) && NoNewVolume(db, next)
    ensures VolumeInv(next)
  {
    hide Holds;
  }

  lemma UntouchedVolumes(db: Db, next: Db)
    requires SameTable(db, next, Servers) && SameTable(db, next, BlockVolumes) && SameTable(db, next, InstanceVolumes)
    ensures NoNewVolume(db, next)
  {
    hide EmbeddedVolumes, IsVolume;
  }

  /** Server rows that keep their volumes, beside the same standalone and block volumes. */
  lemma SameVolumes(db: Db, next: Db)
    requires SameTable(db, next, BlockVolumes) && SameTable(db, next, InstanceVolumes)
    requires forall r | r in next.rows && r.table == Servers ::
               r in db.rows && Get(next.rows[r].data, Volumes) == Get(db.rows[r].data, Volumes)
    ensures NoNewVolume(db, next)
  {
    hide IsVolume;
  }

  lemma HeldMentioned(db: Db, r: Ref, k: Name, id: string)
    requires Holds(db, r, k, id) && id != ""
    ensures MentionsDoc(db.rows[r].data, id)
  {
    hide MentionsDoc;
    var doc := db.rows[r].data;
    var volumes := EmbeddedVolumes(doc);
    TextMentioned(volumes[k].fields, Id);
    NestedMentioned(volumes, k, id);
    NestedMentioned(doc, Volumes, id);
  }

  lemma FreshVolume(db: Db, id: string)
    requires Fresh(db, id)
    ensures BlockRef(id) !in db.rows && StandaloneRef(id) !in db.rows
    ensures forall r, k :: !Holds(db, r, k, id)
  {
    hide MentionsDoc, Holds;
    assert Trim("") == "";
    assert id in BlockRef(id).key && id in StandaloneRef(id).key;
    forall r, k
      ensures !Holds(db, r, k, id)
    {
      if Holds(db, r, k, id) {
        HeldMentioned(db, r, k, id);
        HeldStored(db, r, k, id);
      }
    }
  }

  lemma HeldStored(db: Db, r: Ref, k: Name, id: string)
    requires Holds(db, r, k, id)
    ensures r in db.rows
  {
  }

  lemma CreateVolumeVolumes(db: Db, t: Table, id: string, params: map<Name, string>, data: Doc)
    requires StoreInv(db) && VolumeInv(db) && Fresh(db, id)
    requires t == BlockVolumes || t == InstanceVolumes
    requires KeyNamesOf(db.schema, t) == [Id]
    ensures VolumeInv(Create(db, t, [id], params, data).db)
  {
    hide StoreInv, Create, Holds, Fresh, KeyNamesOf, VolumeInv, Spelled, Prepared;
    CreateKeeps(db, t, [id], params, data);
    FreshVolume(db, id);
    var next := Create(db, t, [id], params, data).db;
    assert SameTable(db, next, Servers);
    SameHolds(db, next);
    if next.rows.Keys == db.rows.Keys {
      VolumeFrame(db, next);
    } else {
      OneMoreVolume(db, next, t, id);
    }
  }

  lemma OneMoreVolume(db: Db, next: Db, t: Table, id: string)
    requires VolumeInv(db) && (t == BlockVolumes || t == InstanceVolumes)
    requires next.rows.Keys == db.rows.Keys + {Ref(t, [id])}
    requires BlockRef(id) !in db.rows && StandaloneRef(id) !in db.rows && forall r, k :: !Holds(db, r, k, id)
    requires forall r, k, id :: Holds(next, r, k, id) <==> Holds(db, r, k, id)
    ensures VolumeInv(next)
  {
    hide Holds;
    assert BlockRef(id).key[0] == StandaloneRef(id).key[0] == id;
    forall x
      ensures BlockRef(x) in next.rows <==> BlockRef(x) in db.rows || (t == BlockVolumes && x == id)
      ensures StandaloneRef(x) in next.rows <==> StandaloneRef(x) in db.rows || (t == InstanceVolumes && x == id)
    {
      assert BlockRef(x).key[0] == StandaloneRef(x).key[0] == x;
    }
  }

  lemma SameHolds(db: Db, next: Db)
    requires SameTable(db, next, Servers)
    ensures forall r, k, id :: Holds(next, r, k, id) <==> Holds(db, r, k, id)
  {
    hide IsVolume, EmbeddedVolumes;
  }

  lemma CreateServerVolumes(db: Db, zone: string, data: Doc, ids: NewIds)
    requires StoreInv(db) && VolumeInv(db) && Fresh(db, ids.server) && Fresh(db, ids.volume)
    ensures VolumeInv(CreateServer(db, zone, data, ids).db)
  {
    hide StoreInv, Facts, CreateServer, Holds, Fresh;
    assert ids.server != "" by { FreshNotBlank(db, ids.server); }
    CreateServerKeeps(db, zone, data, ids);
    FreshVolume(db, ids.volume);
    var out := CreateServer(db, zone, data, ids);
    if out.status == Done {
      CreatedServerHolds(db, zone, data, ids);
      assert SameTable(db, out.db, BlockVolumes) && SameTable(db, out.db, InstanceVolumes);
    }
  }

  lemma FreshNotBlank(db: Db, id: string)
    requires Fresh(db, id)
    ensures id != ""
  {
    assert Trim("") == "";
  }

  /** The new server holds the new volume, and every other server what it held. */
  lemma CreatedServerHolds(db: Db, zone: string, data: Doc, ids: NewIds)
    requires CreateServer(db, zone, data, ids).status == Done
    ensures forall r, k, id :: Holds(CreateServer(db, zone, data, ids).db, r, k, id) ==>
              if r == ServerRef(ids.server) then k == FIRST_VOLUME && id == ids.volume else Holds(db, r, k, id)
  {
    hide IpProblem, ListedIps, AttachAll, RequiredPresent, ParentsExist, IpEntries, CreatedServer, EmbeddedVolumes,
      IsVolume;
    var ips := ListedIps(data);
    var doc := CreatedServer(zone, data, IpEntries(db, ips), ids);
    var made := db.(rows := db.rows[ServerRef(ids.server) := Row(ServerColumns(zone, data), doc)]);
    AttachAllAt(made, ips, ids.server);
    assert CreateServer(db, zone, data, ids).db == AttachAll(made, ips, ids.server);
    NewServerVolumes(zone, data, IpEntries(db, ips), ids);
  }

  lemma NewServerVolumes(zone: string, data: Doc, entries: seq<Json>, ids: NewIds)
    ensures forall k, id :: IsVolume(EmbeddedVolumes(CreatedServer(zone, data, entries, ids)), k, id) ==>
              k == FIRST_VOLUME && id == ids.volume
  {
    var doc := CreatedServer(zone, data, entries, ids);
    assert EmbeddedVolumes(doc) == map[FIRST_VOLUME := Obj(map[Id := Str(ids.volume), Zone := Str(zone)])];
  }

  // ---- the delete inverts the lookup ---------------------------------------------------------------------

  lemma RemoveBlockVolume(db: Db, id: string)
    requires ParentFacts(db.schema.foreignKeys) && NamedFacts(db.schema.foreignKeys) && BlockRef(id) in db.rows
    ensures DeleteRows(db, {BlockRef(id)}) ==
            if Snapshotted(db, id) then Err(Conflict) else Ok(db.(rows := db.rows - {BlockRef(id)}))
  {
    hide NamedFacts, ParentFacts;
    var r := BlockRef(id);
    forall q, a: Action | q in db.rows
      ensures RefersInto(db, q, {r}, a) <==>
                a == NoAction && q.table == BlockSnapshots && RefersBy(db.rows[q], VolumeId, id)
    {
      VolumeReferrer(db, q, id, a);
    }
    if Snapshotted(db, id) {
      var q :| q in db.rows && q.table == BlockSnapshots && RefersBy(db.rows[q], VolumeId, id);
      assert RefersInto(db, q, {r}, NoAction);
      assert Referrers(db, {r}, Cascade) <= {r};
      ClosureLeast(db, {r}, {r});
      assert q in Referrers(db, Closure(db, {r}), NoAction);
    } else {
      DeleteUnreferenced(db, {r});
    }
  }

  lemma VolumeReferrer(db: Db, q: Ref, id: string, a: Action)
    requires ParentFacts(db.schema.foreignKeys) && NamedFacts(db.schema.foreignKeys) && q in db.rows
    ensures RefersInto(db, q, {BlockRef(id)}, a) <==>
            a == NoAction && q.table == BlockSnapshots && RefersBy(db.rows[q], VolumeId, id)
  {
    if RefersInto(db, q, {BlockRef(id)}, a) {
      var fk :| fk in db.schema.foreignKeys && fk.action == a && Uses(db, q, fk)
        && Target(fk, db.rows[q]) in {BlockRef(id)};
      assert ByParent(fk);
      assert Target(fk, db.rows[q]).key[0] == id;
    }
    if a == NoAction && q.table == BlockSnapshots && RefersBy(db.rows[q], VolumeId, id) {
      assert Uses(db, q, SNAPSHOT_VOLUME) && Target(SNAPSHOT_VOLUME, db.rows[q]) == BlockRef(id);
    }
  }

  /** Everything but the given row is as it was. */
  ghost predicate OnlyRow(db: Db, next: Db, r: Ref) {
    && next.schema == db.schema
    && forall q | q != r :: (q in db.rows <==> q in next.rows) && (q in db.rows ==> next.rows[q] == db.rows[q])
  }

  /**
   * The outcome is decided by what the lookup would find: it succeeds exactly when the lookup finds the volume
   * and no snapshot holds it; a snapshot means conflict; not-found means the lookup finds nothing. A call that
   * does not succeed changes nothing.
   */
  lemma VolumeDeleteOutcome(db: Db, zone: string, id: string, out: Outcome)
    requires StoreInv(db) && VolumeDeleted(db, zone, id, out)
    ensures out.status == Done <==> Found(db, zone, id) && !Snapshotted(db, id)
    ensures out.status == Failed(Conflict) <==> Snapshotted(db, id)
    ensures out.status == Failed(NotFound) <==> !Found(db, zone, id)
    ensures out.status != Done ==> out.db == db
  {
    hide StoreInv, Facts, ActionFacts, ParentFacts, ChildFacts, NamedFacts, NullableActions, TableFacts, RowsOk, DnsOk,
      KeysOk, DeleteRows, HoldsVolume, Intact;
    InvParts(db);
    SnapshotNeedsVolume(db, id);
    if BlockRef(id) in db.rows {
      RemoveBlockVolume(db, id);
    } else if StandaloneRef(id) in db.rows {
      DeleteLeaves(db, {StandaloneRef(id)});
    }
  }

  lemma SnapshotNeedsVolume(db: Db, id: string)
    requires Intact(db) && NamedFacts(db.schema.foreignKeys)
    ensures Snapshotted(db, id) ==> BlockRef(id) in db.rows
  {
    if Snapshotted(db, id) {
      var q :| q in db.rows && q.table == BlockSnapshots && RefersBy(db.rows[q], VolumeId, id);
      assert ParentsExist(db, q);
      assert Uses(db, q, SNAPSHOT_VOLUME);
    }
  }

  /** After a successful delete the same lookup fails, and one row at most has changed: the volume or its server. */
  lemma VolumeDeleteForgets(db: Db, zone: string, id: string, out: Outcome)
    requires StoreInv(db) && VolumeInv(db) && VolumeDeleted(db, zone, id, out) && out.status == Done
    ensures !Found(out.db, zone, id) && VolumeInv(out.db)
    ensures BlockRef(id) in db.rows ==> OnlyRow(db, out.db, BlockRef(id))
    ensures StandaloneRef(id) in db.rows ==> OnlyRow(db, out.db, StandaloneRef(id))
    ensures BlockRef(id) !in db.rows && StandaloneRef(id) !in db.rows ==>
              exists r, k :: HoldsVolume(db, zone, r, k, id) && r in out.db.rows && OnlyRow(db, out.db, r)
                             && out.db.rows[r] == WithoutVolume(db.rows[r], k)
  {
    hide StoreInv, Facts, ActionFacts, ParentFacts, ChildFacts, NamedFacts, NullableActions, TableFacts, RowsOk, DnsOk,
      KeysOk, DeleteRows, VolumeInv, Intact, Holds, EmbeddedVolumes, IsVolume, Embedded;
    InvParts(db);
    if BlockRef(id) in db.rows {
      RemoveBlockVolume(db, id);
      OneRowFewer(db, out.db, BlockRef(id), zone, id);
    } else if StandaloneRef(id) in db.rows {
      DeleteLeaves(db, {StandaloneRef(id)});
      OneRowFewer(db, out.db, StandaloneRef(id), zone, id);
    } else {
      var r, k :| HoldsVolume(db, zone, r, k, id)
                  && out == Outcome(db.(rows := db.rows[r := WithoutVolume(db.rows[r], k)]), Done);
      VolumeTaken(db, out.db, zone, r, k, id);
    }
  }

  lemma OneRowFewer(db: Db, next: Db, gone: Ref, zone: string, id: string)
    requires VolumeInv(db) && next == db.(rows := db.rows - {gone})
    requires (gone == BlockRef(id) || gone == StandaloneRef(id)) && gone in db.rows
    ensures VolumeInv(next) && !Found(next, zone, id)
  {
    hide EmbeddedVolumes, IsVolume;
    forall r, k, x | Holds(next, r, k, x)
      ensures Holds(db, r, k, x)
    {
    }
    assert forall r, k :: !Holds(db, r, k, id);
    assert forall r, k :: HoldsVolume(next, zone, r, k, id) ==> Holds(next, r, k, id);
    VolumeFrame(db, next);
  }

  lemma VolumeTaken(db: Db, next: Db, zone: string, r: Ref, k: Name, id: string)
    requires VolumeInv(db) && HoldsVolume(db, zone, r, k, id)
    requires BlockRef(id) !in db.rows && StandaloneRef(id) !in db.rows
    requires next == db.(rows := db.rows[r := WithoutVolume(db.rows[r], k)])
    ensures VolumeInv(next) && !Found(next, zone, id) && NoNewVolume(db, next)
  {
    TakenHolds(db, next, r, k);
    VolumeFrame(db, next);
    assert Holds(db, r, k, id);
    assert forall r', k' :: HoldsVolume(next, zone, r', k', id) ==> Holds(next, r', k', id);
  }

  lemma TakenHolds(db: Db, next: Db, r: Ref, k: Name)
    requires r in db.rows && r.table == Servers
    requires next == db.(rows := db.rows[r := WithoutVolume(db.rows[r], k)])
    ensures forall r', k', id :: Holds(next, r', k', id) ==> Holds(db, r', k', id) && (r' != r || k' != k)
  {
    forall r', k', id | Holds(next, r', k', id)
      ensures Holds(db, r', k', id) && (r' != r || k' != k)
    {
      if r' == r {
        assert EmbeddedVolumes(next.rows[r].data) == EmbeddedVolumes(db.rows[r].data) - {k};
      }
    }
  }

  lemma VolumeDeleteKeeps(db: Db, zone: string, id: string, out: Outcome)
    requires StoreInv(db) && VolumeDeleted(db, zone, id, out)
    ensures StoreInv(out.db) && ChangesOnly(db, out.db, {BlockVolumes, InstanceVolumes, Servers} + CASCADED)
    ensures out.status != Done ==> out.db == db
  {
    hide StoreInv, Facts, Remove, WithoutVolume, IsVolume, EmbeddedVolumes;
    if BlockRef(id) in db.rows {
      RemoveKeeps(db, BlockVolumes, [id]);
    } else if StandaloneRef(id) in db.rows {
      RemoveKeeps(db, InstanceVolumes, [id]);
    } else if Embedded(db, zone, id) {
      var r, k :| HoldsVolume(db, zone, r, k, id)
                  && out == Outcome(db.(rows := db.rows[r := WithoutVolume(db.rows[r], k)]), Done);
      WithoutVolumeKeeps(db, r, k);
    }
  }
}
