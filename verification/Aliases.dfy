/** The field aliases that cluster and database-instance updates translate away. */
module Aliases {
  import opened Documents

  // ---- k8s clusters: auto_upgrade.enable is stored as auto_upgrade.enabled -----------------------

  function WithoutEnable(au: Doc, overwrite: bool): Doc {
    if Enable !in au then au
    else if overwrite || Enabled !in au then (au - {Enable})[Enabled := au[Enable]]
    else au - {Enable}
  }

  /** CreateCluster keeps a given "enabled"; a missing auto_upgrade gets the default object. */
  function CreatedCluster(data: Doc): Doc {
    if AutoUpgrade !in data then data[AutoUpgrade := Obj(map[Enabled := Bool(false)])]
    else if data[AutoUpgrade].Obj? then data[AutoUpgrade := Obj(WithoutEnable(data[AutoUpgrade].fields, false))]
    else data
  }

  /** UpdateCluster lets "enable" win over a stored "enabled". */
  function PatchedCluster(next: Doc): Doc {
    if Get(next, AutoUpgrade).Obj? then next[AutoUpgrade := Obj(WithoutEnable(next[AutoUpgrade].fields, true))]
    else next
  }

  predicate NoEnable(doc: Doc) {
    Get(doc, AutoUpgrade).Obj? ==> Enable !in doc[AutoUpgrade].fields
  }

  lemma ClusterAliasGone(doc: Doc)
    ensures NoEnable(CreatedCluster(doc)) && NoEnable(PatchedCluster(doc))
  {
  }

  /** The value sent as "enable" is the one read back as "enabled". */
  lemma EnableTranslated(current: Doc, patch: Doc)
    requires Get(patch, AutoUpgrade).Obj? && Get(patch[AutoUpgrade].fields, Enable) != Null
    ensures var doc := PatchedCluster(PatchMerge(current, patch, {Id}));
            && Get(doc, AutoUpgrade).Obj?
            && Get(doc[AutoUpgrade].fields, Enabled) == patch[AutoUpgrade].fields[Enable]
  {
    MergeAt(current, patch, {Id}, AutoUpgrade);
  }

  /** The first update of a cluster without an auto_upgrade object, sending a null "enable" beside an "enabled". */
  predicate NullAlias(stored: Json, sent: Json) {
    && !stored.Obj? && sent.Obj?
    && Enable in sent.fields && sent.fields[Enable] == Null && Get(sent.fields, Enabled) != Null
  }

  lemma AutoUpgradeTwice(stored: Json, sent: Json)
    requires stored.Obj? ==> Enable !in stored.fields
    ensures var once := TranslatedAutoUpgrade(Patched(stored, sent));
            TranslatedAutoUpgrade(Patched(once, sent)) == once <==> !NullAlias(stored, sent)
  {
    var once := TranslatedAutoUpgrade(Patched(stored, sent));
    var twice := TranslatedAutoUpgrade(Patched(once, sent));
    if NullAlias(stored, sent) {
      assert once.fields[Enabled] == Null && twice.fields[Enabled] != Null;
    } else if sent.Obj? {
      assert once.fields.Keys == twice.fields.Keys;
      forall k | k in once.fields ensures once.fields[k] == twice.fields[k] {}
      assert once.fields == twice.fields;
    } else if once.Obj? {
      assert once.fields - {Enable} == once.fields;
    }
  }

  function TranslatedAutoUpgrade(j: Json): Json {
    if j.Obj? then Obj(WithoutEnable(j.fields, true)) else j
  }

  lemma PatchedClusterAt(next: Doc, k: Name)
    ensures Get(PatchedCluster(next), k) ==
            if k == AutoUpgrade then TranslatedAutoUpgrade(Get(next, k)) else Get(next, k)
    ensures k in PatchedCluster(next) <==> k in next
  {
  }

  /**
   * Up to the timestamp, applying a cluster update twice is applying it once, exactly when the update is not a
   * null alias: there the first application stores null and the second stores the "enabled" that was sent.
   */
  lemma ClusterUpdateTwice(current: Doc, patch: Doc)
    requires NoEnable(current)
    ensures var once := PatchedCluster(PatchMerge(current, patch, {Id}));
            PatchedCluster(PatchMerge(once, patch, {Id})) == once <==>
            !NullAlias(Get(current, AutoUpgrade), Get(patch, AutoUpgrade))
  {
    hide PatchedCluster, PatchMerge, TranslatedAutoUpgrade, Patched, NullAlias;
    var merged := PatchMerge(current, patch, {Id});
    var once := PatchedCluster(merged);
    var again := PatchMerge(once, patch, {Id});
    var twice := PatchedCluster(again);
    var bad := if NullAlias(Get(current, AutoUpgrade), Get(patch, AutoUpgrade)) then {AutoUpgrade} else {};
    forall k
      ensures k in once <==> k in twice
      ensures Get(once, k) == Get(twice, k) <==> k !in bad
    {
      PatchedClusterAt(merged, k);
      PatchedClusterAt(again, k);
      MergeAt(current, patch, {Id}, k);
      MergeAt(once, patch, {Id}, k);
      if k == AutoUpgrade {
        AutoUpgradeTwice(Get(current, k), Get(patch, k));
      }
      PatchedTwice(Get(current, k), Get(patch, k));
    }
    EqualUnless(once, twice, bad);
  }

  /** A created cluster and a patch for which repeating the update changes the result. */
  lemma ClusterUpdateTwiceCanFail()
    ensures var current := CreatedCluster(map[AutoUpgrade := Null]);
            var patch: Doc := map[AutoUpgrade := Obj(map[Enable := Null, Enabled := Bool(true)])];
            var once := PatchedCluster(PatchMerge(current, patch, {Id}));
            var twice := PatchedCluster(PatchMerge(once, patch, {Id}));
            && NoEnable(current) && once != twice
            && Get(AsDoc(Get(once, AutoUpgrade)), Enabled) == Null
            && Get(AsDoc(Get(twice, AutoUpgrade)), Enabled) == Bool(true)
  {
    var current := CreatedCluster(map[AutoUpgrade := Null]);
    var patch: Doc := map[AutoUpgrade := Obj(map[Enable := Null, Enabled := Bool(true)])];
    ClusterUpdateTwice(current, patch);
  }

  lemma PatchedTwice(stored: Json, sent: Json)
    ensures Patched(Patched(stored, sent), sent) == Patched(stored, sent)
  {
    if sent.Obj? && stored.Obj? {
      assert Overlay(Overlay(stored.fields, sent.fields), sent.fields) == Overlay(stored.fields, sent.fields);
    } else if sent.Obj? {
      assert Overlay(sent.fields, sent.fields) == sent.fields;
    }
  }

  // ---- rdb instances: two flat flags are stored as backup_schedule.disabled ----------------------

  const BACKUP_FLAGS: seq<Name> := [DisableBackup, IsBackupScheduleDisabled]

  function Schedule(stored: Json, disabled: bool): Json {
    if stored.Obj? then Obj(stored.fields[Disabled := Bool(disabled)])
    else Obj(map[Disabled := Bool(disabled), Frequency := Num(24.0), Retention := Num(7.0)])
  }

  function ApplyFlag(doc: Doc, flag: Name): Doc {
    if flag !in doc then doc
    else doc[BackupSchedule := Schedule(Get(doc, BackupSchedule), doc[flag] == Bool(true))] - {flag}
  }

  function PatchedInstance(next: Doc): Doc {
    ApplyFlag(ApplyFlag(next, DisableBackup), IsBackupScheduleDisabled)
  }

  /** UpdateRDBInstance's loop over the two flag names. */
  method TranslateFlags(next: Doc) returns (doc: Doc)
    ensures doc == PatchedInstance(next)
  {
    doc := next;
    for i := 0 to |BACKUP_FLAGS|
      invariant doc == if i == 0 then next else if i == 1 then ApplyFlag(next, DisableBackup) else PatchedInstance(next)
    {
      var flag := BACKUP_FLAGS[i];
      if flag in doc {
        var disabled := doc[flag] == Bool(true);
        if Get(doc, BackupSchedule).Obj? {
          doc := doc[BackupSchedule := Obj(doc[BackupSchedule].fields[Disabled := Bool(disabled)])];
        } else {
          doc := doc[BackupSchedule :=
            Obj(map[Disabled := Bool(disabled), Frequency := Num(24.0), Retention := Num(7.0)])];
        }
        doc := doc - {flag};
      }
    }
  }

  /** CreateRDBInstance translates disable_backup only, and leaves a schedule that is not an object alone. */
  function CreatedInstance(data: Doc): Doc {
    if DisableBackup in data then
      var disabled := data[DisableBackup] == Bool(true);
      if BackupSchedule !in data || data[BackupSchedule].Obj?
      then data[BackupSchedule := Schedule(Get(data, BackupSchedule), disabled)] - {DisableBackup}
      else data - {DisableBackup}
    else if BackupSchedule !in data then data[BackupSchedule := Schedule(Null, false)]
    else data
  }

  predicate NoFlags(doc: Doc) {
    DisableBackup !in doc && IsBackupScheduleDisabled !in doc
  }

  /** The last flag a document carries, in the order the loop applies them. */
  function LastFlag(doc: Doc): Json {
    if IsBackupScheduleDisabled in doc then doc[IsBackupScheduleDisabled] else Get(doc, DisableBackup)
  }

  /** After an update neither flag is stored, and backup_schedule.disabled is the last one applied. */
  lemma FlagsTranslated(next: Doc)
    ensures var doc := PatchedInstance(next);
            && NoFlags(doc)
            && (!NoFlags(next) ==>
                  && Get(doc, BackupSchedule).Obj?
                  && Get(doc[BackupSchedule].fields, Disabled) == Bool(LastFlag(next) == Bool(true)))
            && (NoFlags(next) ==> doc == next)
  {
  }

  function Scheduled(stored: Json, flag: Json): Json {
    if flag == Null then stored else Schedule(stored, flag == Bool(true))
  }

  lemma PatchedInstanceAt(next: Doc, k: Name)
    requires Get(next, DisableBackup) == Null ==> DisableBackup !in next
    requires Get(next, IsBackupScheduleDisabled) == Null ==> IsBackupScheduleDisabled !in next
    ensures Get(PatchedInstance(next), k) ==
            if k == BackupSchedule then
              Scheduled(Scheduled(Get(next, k), Get(next, DisableBackup)), Get(next, IsBackupScheduleDisabled))
            else if k == DisableBackup || k == IsBackupScheduleDisabled then Null
            else Get(next, k)
    ensures k != BackupSchedule && k != DisableBackup && k != IsBackupScheduleDisabled ==>
              (k in PatchedInstance(next) <==> k in next)
    ensures BackupSchedule in PatchedInstance(next) <==>
            BackupSchedule in next || DisableBackup in next || IsBackupScheduleDisabled in next
  {
  }

  lemma ScheduleTwice(stored: Json, sent: Json, flag1: Json, flag2: Json)
    ensures var once := Scheduled(Scheduled(Patched(stored, sent), flag1), flag2);
            Scheduled(Scheduled(Patched(once, sent), flag1), flag2) == once
  {
    var once := Scheduled(Scheduled(Patched(stored, sent), flag1), flag2);
    var twice := Scheduled(Scheduled(Patched(once, sent), flag1), flag2);
    PatchedTwice(stored, sent);
    if once.Obj? && twice.Obj? && (flag1 != Null || flag2 != Null) {
      assert once.fields.Keys == twice.fields.Keys;
      forall k | k in once.fields ensures once.fields[k] == twice.fields[k] {}
      assert once.fields == twice.fields;
    }
  }

  /** Up to the timestamp, from a document without flat flags, applying an update twice is applying it once. */
  lemma InstanceUpdateTwice(current: Doc, patch: Doc)
    requires NoFlags(current)
    ensures var once := PatchedInstance(PatchMerge(current, patch, {Id}));
            PatchedInstance(PatchMerge(once, patch, {Id})) == once
  {
    hide PatchedInstance, PatchMerge, Scheduled, Patched;
    var merged := PatchMerge(current, patch, {Id});
    var once := PatchedInstance(merged);
    var again := PatchMerge(once, patch, {Id});
    var twice := PatchedInstance(again);
    FlagsTranslated(merged);
    forall f | f in {DisableBackup, IsBackupScheduleDisabled}
      ensures Get(merged, f) == Get(again, f) == Get(patch, f)
      ensures f in merged <==> Get(patch, f) != Null
      ensures f in again <==> Get(patch, f) != Null
    {
      MergeAt(current, patch, {Id}, f);
      MergeAt(once, patch, {Id}, f);
      FlagMerged(patch, f);
    }
    forall k
      ensures k in once <==> k in twice
      ensures Get(once, k) == Get(twice, k)
    {
      PatchedInstanceAt(merged, k);
      PatchedInstanceAt(again, k);
      MergeAt(current, patch, {Id}, k);
      MergeAt(once, patch, {Id}, k);
      FlagsTranslated(again);
      ScheduleTwice(Get(current, k), Get(patch, k), Get(patch, DisableBackup), Get(patch, IsBackupScheduleDisabled));
      PatchedTwice(Get(current, k), Get(patch, k));
    }
    EqualUnless(once, twice, {});
  }

  lemma FlagMerged(patch: Doc, f: Name)
    ensures Patched(Null, Get(patch, f)) == Get(patch, f)
  {
  }
}
