/** JSON documents as the repository stores them, and the null-ignoring merge behind every update. */
module Documents {

  /** Field and column names. The ones the code mentions are constructors; Other carries the rest. */
  datatype Name =
    | AccessKey | Add | Address | ApplicationId | AutoUpgrade | BackendId | BackupSchedule | ClusterId
    | DatabaseName | Delete | DisableBackup | Disabled | DnsZone | Domain | Dynamic | Enable | Enabled
    | Frequency | FrontendId | GatewayId | GroupId | Id | IdFields | InstanceId | Ip | IpId | IpIds
    | IsBackupScheduleDisabled | LbId | Named | ParentVolume | PolicyId | PrivateNetworkId
    | PublicIp | PublicIps | Records | Region | Retention | Rules | SecurityGroup | SecurityGroupId
    | Server | ServerId | Set | Size | State | Subdomain | UserId | UserName | VolumeId | Volumes
    | VpcId | Zone
    | Other(text: string)

  datatype Json =
    | Null
    | Bool(b: bool)
    | Num(n: real)
    | Str(s: string)
    | Arr(items: seq<Json>)
    | Obj(fields: map<Name, Json>)

  type Doc = map<Name, Json>

  /** Reading a Go map: an absent key reads as nil. */
  function Get(doc: Doc, k: Name): Json {
    if k in doc then doc[k] else Null
  }

  /** The `x, _ := v.(string)` idiom. */
  function AsString(j: Json): string {
    if j.Str? then j.s else ""
  }

  /** The `x, _ := v.(map[string]any)` idiom. */
  function AsDoc(j: Json): Doc {
    if j.Obj? then j.fields else map[]
  }

  /** The `x, _ := v.([]any)` idiom. */
  function AsItems(j: Json): seq<Json> {
    if j.Arr? then j.items else []
  }

  function Text(doc: Doc, k: Name): string {
    AsString(Get(doc, k))
  }

  /** Whether the string s occurs as a value anywhere inside j. */
  predicate Mentions(j: Json, s: string) {
    match j
    case Str(t) => t == s
    case Arr(items) => exists i | 0 <= i < |items| :: Mentions(items[i], s)
    case Obj(fields) => exists k | k in fields :: Mentions(fields[k], s)
    case _ => false
  }

  predicate MentionsDoc(doc: Doc, s: string) {
    exists k | k in doc :: Mentions(doc[k], s)
  }

  lemma TextMentioned(doc: Doc, k: Name)
    ensures Text(doc, k) != "" ==> MentionsDoc(doc, Text(doc, k))
  {
    if k in doc && doc[k].Str? {
      assert Mentions(doc[k], Text(doc, k));
    }
  }

  lemma NestedMentioned(doc: Doc, k: Name, s: string)
    ensures k in doc && MentionsDoc(AsDoc(doc[k]), s) ==> MentionsDoc(doc, s)
  {
    if k in doc && MentionsDoc(AsDoc(doc[k]), s) {
      assert Mentions(doc[k], s);
    }
  }

  // ---- strings.TrimSpace -------------------------------------------------------------------

  predicate IsSpace(c: char) {
    || '\t' <= c <= '\r'
    || c in {' ', '\U{0085}', '\U{00A0}', '\U{1680}', '\U{2028}', '\U{2029}', '\U{202F}', '\U{205F}', '\U{3000}'}
    || '\U{2000}' <= c <= '\U{200A}'
  }

  function Trim(s: string): (t: string)
    ensures t == "" || (!IsSpace(t[0]) && !IsSpace(t[|t| - 1]))
    ensures s == "" || (!IsSpace(s[0]) && !IsSpace(s[|s| - 1])) ==> t == s
  {
    if s == "" then ""
    else if IsSpace(s[0]) then Trim(s[1..])
    else if IsSpace(s[|s| - 1]) then Trim(s[..|s| - 1])
    else s
  }

  lemma Blanks()
    ensures forall c: char | c in "\t\n\r \U{000B}\U{000C}\U{0085}\U{00A0}\U{2003}\U{3000}" :: IsSpace(c)
    ensures forall c: char | '!' <= c <= '~' :: !IsSpace(c)
  {
  }

  /** Trimming takes off blanks only, and all of them, at both ends. */
  lemma {:induction false} TrimExact(s: string) returns (i: nat, j: nat)
    ensures i <= j <= |s| && Trim(s) == s[i..j]
    ensures forall k | 0 <= k < i || j <= k < |s| :: IsSpace(s[k])
    ensures i < j ==> !IsSpace(s[i]) && !IsSpace(s[j - 1])
  {
    hide IsSpace;
    if s == "" {
      i, j := 0, 0;
    } else if IsSpace(s[0]) {
      var a, b := TrimExact(s[1..]);
      i, j := a + 1, b + 1;
      Shifted(s, a, b);
    } else if IsSpace(s[|s| - 1]) {
      i, j := TrimExact(s[..|s| - 1]);
      Shortened(s, s[..|s| - 1], i, j);
    } else {
      i, j := 0, |s|;
    }
  }

  lemma Shifted(s: string, a: nat, b: nat)
    requires s != "" && IsSpace(s[0]) && a <= b <= |s| - 1
    requires forall k | 0 <= k < a || b <= k < |s| - 1 :: IsSpace(s[1..][k])
    ensures s[1..][a..b] == s[a + 1..b + 1]
    ensures forall k | 0 <= k < a + 1 || b + 1 <= k < |s| :: IsSpace(s[k])
  {
    hide IsSpace;
    forall k | 0 < k < a + 1 || b + 1 <= k < |s|
      ensures IsSpace(s[k])
    {
      assert s[1..][k - 1] == s[k];
    }
  }

  lemma Shortened(s: string, t: string, i: nat, j: nat)
    requires s != "" && IsSpace(s[|s| - 1]) && t == s[..|s| - 1] && i <= j <= |t|
    requires forall k | 0 <= k < i || j <= k < |t| :: IsSpace(t[k])
    ensures t[i..j] == s[i..j]
    ensures forall k | 0 <= k < i || j <= k < |s| :: IsSpace(s[k])
  {
    hide IsSpace;
    forall k | 0 <= k < i || j <= k < |t|
      ensures IsSpace(s[k])
    {
      assert t[k] == s[k];
    }
  }

  lemma TrimTwice(s: string)
    ensures Trim(Trim(s)) == Trim(s)
  {
  }

  // ---- patchMerge --------------------------------------------------------------------------

  /** One level down: every non-null sub-field of over replaces the stored one. */
  function Overlay(base: Doc, over: Doc): Doc {
    base + map k | k in over && over[k] != Null :: over[k]
  }

  function MergeValue(current: Json, v: Json): Json {
    if current.Obj? && v.Obj? then Obj(Overlay(current.fields, v.fields)) else v
  }

  predicate Applies(patch: Doc, skip: set<Name>, k: Name) {
    k in patch && k !in skip && patch[k] != Null
  }

  /** What patchMerge computes, as a map: independent of the order its loops visit the keys in. */
  function PatchMerge(current: Doc, patch: Doc, skip: set<Name>): Doc {
    map k | k in current.Keys + patch.Keys && (k in current || Applies(patch, skip, k)) ::
      if Applies(patch, skip, k) then MergeValue(Get(current, k), patch[k]) else current[k]
  }

  method PatchMergeLoop(current: Doc, patch: Doc, skip: set<Name>) returns (next: Doc)
    ensures next == PatchMerge(current, patch, skip)
  {
    next := current;
    var todo := patch.Keys;
    while todo != {}
      invariant todo <= patch.Keys
      invariant next == PatchMerge(current, patch, skip + todo)
      decreases todo
    {
      var k :| k in todo;
      MergeStep(current, patch, skip + (todo - {k}), k);
      assert skip + (todo - {k}) + {k} == skip + todo;
      if k !in skip && patch[k] != Null {
        if patch[k].Obj? && Get(next, k).Obj? {
          var merged := OverlayLoop(next[k].fields, patch[k].fields);
          next := next[k := Obj(merged)];
        } else {
          next := next[k := patch[k]];
        }
      }
      todo := todo - {k};
    }
    assert skip + todo == skip;
  }

  /** Visiting one more key of the patch changes the result at that key only. */
  lemma MergeStep(current: Doc, patch: Doc, skip: set<Name>, k: Name)
    requires k in patch
    ensures var next := PatchMerge(current, patch, skip + {k});
            && Get(next, k) == Get(current, k)
            && PatchMerge(current, patch, skip) ==
               if Applies(patch, skip, k) then next[k := MergeValue(Get(next, k), patch[k])] else next
  {
    hide MergeValue;
    var next := PatchMerge(current, patch, skip + {k});
    var merged := PatchMerge(current, patch, skip);
    if Applies(patch, skip, k) {
      assert merged.Keys == next.Keys + {k};
      forall x | x in merged && x != k
        ensures merged[x] == next[x]
      {
        assert Applies(patch, skip, x) <==> Applies(patch, skip + {k}, x);
      }
    } else {
      forall x ensures Applies(patch, skip, x) <==> Applies(patch, skip + {k}, x) {}
      assert merged.Keys == next.Keys;
    }
  }

  method OverlayLoop(base: Doc, over: Doc) returns (merged: Doc)
    ensures merged == Overlay(base, over)
  {
    merged := base;
    var todo := over.Keys;
    while todo != {}
      invariant todo <= over.Keys
      invariant merged.Keys == base.Keys + set k | k in over && k !in todo && over[k] != Null
      invariant forall k | k in merged ::
        merged[k] == if k in over && k !in todo && over[k] != Null then over[k] else base[k]
      decreases todo
    {
      var k :| k in todo;
      if over[k] != Null {
        merged := merged[k := over[k]];
      }
      todo := todo - {k};
    }
  }

  /** Unlike JSON Merge Patch (section 2 of RFC 7396), no patch removes a field or turns a value into null. */
  lemma MergeNeverErases(current: Doc, patch: Doc, skip: set<Name>, k: Name)
    requires Get(current, k) != Null
    ensures Get(PatchMerge(current, patch, skip), k) != Null
    ensures Get(current, k).Obj? && Get(PatchMerge(current, patch, skip), k).Obj? ==>
              forall s :: Get(Get(current, k).fields, s) != Null ==>
                Get(Get(PatchMerge(current, patch, skip), k).fields, s) != Null
  {
  }

  lemma MergeIdempotent(current: Doc, patch: Doc, skip: set<Name>)
    ensures var once := PatchMerge(current, patch, skip);
            PatchMerge(once, patch, skip) == once
  {
    var once := PatchMerge(current, patch, skip);
    var twice := PatchMerge(once, patch, skip);
    assert twice.Keys == once.Keys;
    forall k | k in once
      ensures twice[k] == once[k]
    {
      if Applies(patch, skip, k) && patch[k].Obj? {
        assert Overlay(once[k].fields, patch[k].fields) == once[k].fields;
      }
    }
  }

  /** The keys at which an intermediate scalar hides the stored object from the second patch. */
  predicate Hides(current: Doc, p: Doc, q: Doc, skip: set<Name>, k: Name) {
    && Applies(p, skip, k) && !p[k].Obj?
    && Applies(q, skip, k) && q[k].Obj?
    && Get(current, k).Obj?
  }

  /** The second patch repeats every stored sub-field, and is null only where the stored one is. */
  predicate Covers(q: Doc, stored: Doc) {
    && stored.Keys <= q.Keys
    && forall s | s in q && q[s] == Null :: s in stored && stored[s] == Null
  }

  lemma OverlayCovers(stored: Doc, q: Doc)
    ensures Overlay(stored, q) == q <==> Covers(q, stored)
  {
    var merged := Overlay(stored, q);
    if Covers(q, stored) {
      assert merged.Keys == q.Keys;
      forall s | s in q ensures merged[s] == q[s] {}
      assert merged == q;
    }
    if merged == q {
      forall s | s in stored ensures s in q { assert s in merged; }
      forall s | s in q && q[s] == Null ensures s in stored && stored[s] == Null {
        assert s in merged && merged[s] == Null;
      }
    }
  }

  lemma OverlayAssociates(a: Doc, b: Doc, c: Doc)
    ensures Overlay(a, Overlay(b, c)) == Overlay(Overlay(a, b), c)
  {
    var left, right := Overlay(a, Overlay(b, c)), Overlay(Overlay(a, b), c);
    assert left.Keys == right.Keys;
    forall s | s in left ensures left[s] == right[s] {}
  }

  /** patchMerge at one key: null leaves the stored value, anything else is merged into it. */
  function Patched(stored: Json, v: Json): Json {
    if v == Null then stored else MergeValue(stored, v)
  }

  /** The cases of a merge at one key: null, scalar, and object over object, sub-field by sub-field. */
  lemma PatchedByCase(stored: Json, v: Json)
    ensures v == Null ==> Patched(stored, v) == stored
    ensures v != Null && !(v.Obj? && stored.Obj?) ==> Patched(stored, v) == v
    ensures v.Obj? && stored.Obj? ==>
              && Patched(stored, v).Obj?
              && forall k ::
                   && (k in Patched(stored, v).fields <==> k in stored.fields || Get(v.fields, k) != Null)
                   && Get(Patched(stored, v).fields, k) ==
                      if Get(v.fields, k) == Null then Get(stored.fields, k) else Get(v.fields, k)
  {
  }

  lemma MergeAt(current: Doc, patch: Doc, skip: set<Name>, k: Name)
    ensures Get(PatchMerge(current, patch, skip), k) ==
            if k in skip then Get(current, k) else Patched(Get(current, k), Get(patch, k))
    ensures k in PatchMerge(current, patch, skip) <==> k in current || Applies(patch, skip, k)
  {
  }

  predicate HidesAt(stored: Json, p: Json, q: Json) {
    stored.Obj? && p != Null && !p.Obj? && q.Obj?
  }

  lemma PatchedComposes(stored: Json, p: Json, q: Json)
    ensures Patched(Patched(stored, p), q) == Patched(stored, Patched(p, q)) <==>
            (HidesAt(stored, p, q) ==> Covers(q.fields, stored.fields))
  {
    if stored.Obj? && q.Obj? {
      OverlayCovers(stored.fields, q.fields);
      if p.Obj? {
        OverlayAssociates(stored.fields, p.fields, q.fields);
      }
    }
  }

  lemma MergeComposesAt(current: Doc, p: Doc, q: Doc, skip: set<Name>, k: Name)
    ensures
      var sequential := PatchMerge(PatchMerge(current, p, skip), q, skip);
      var combined := PatchMerge(current, PatchMerge(p, q, {}), skip);
      && (k in sequential <==> k in combined)
      && (Get(sequential, k) == Get(combined, k) <==>
          (Hides(current, p, q, skip, k) ==> Covers(q[k].fields, current[k].fields)))
  {
    MergeAt(current, p, skip, k);
    MergeAt(PatchMerge(current, p, skip), q, skip, k);
    MergeAt(p, q, {}, k);
    MergeAt(current, PatchMerge(p, q, {}), skip, k);
    PatchedComposes(Get(current, k), Get(p, k), Get(q, k));
    assert Applies(PatchMerge(p, q, {}), skip, k) <==> Applies(p, skip, k) || Applies(q, skip, k);
  }

  /**
   * Merging p and then q is merging the single patch patchMerge(p, q), exactly when every key that hides a
   * stored object is covered by the second patch.
   */
  lemma MergeComposes(current: Doc, p: Doc, q: Doc, skip: set<Name>)
    ensures
      PatchMerge(PatchMerge(current, p, skip), q, skip) == PatchMerge(current, PatchMerge(p, q, {}), skip) <==>
      forall k | k in q && Hides(current, p, q, skip, k) :: Covers(q[k].fields, current[k].fields)
  {
    var sequential := PatchMerge(PatchMerge(current, p, skip), q, skip);
    var combined := PatchMerge(current, PatchMerge(p, q, {}), skip);
    var bad := set k | k in q && Hides(current, p, q, skip, k) && !Covers(q[k].fields, current[k].fields);
    forall k
      ensures k in sequential <==> k in combined
      ensures Get(sequential, k) == Get(combined, k) <==> k !in bad
    {
      MergeComposesAt(current, p, q, skip, k);
    }
    EqualUnless(sequential, combined, bad);
  }

  lemma EqualUnless(a: Doc, b: Doc, bad: set<Name>)
    requires forall k :: k in a <==> k in b
    requires forall k :: Get(a, k) == Get(b, k) <==> k !in bad
    ensures a == b <==> bad == {}
  {
    if bad == {} {
      assert a.Keys == b.Keys;
      forall k | k in a ensures a[k] == b[k] { assert Get(a, k) == Get(b, k); }
    }
  }

  /** A concrete pair of patches for which the composition law fails. */
  lemma MergeCompositionCanFail()
    ensures var current: Doc := map[Volumes := Obj(map[Size := Num(1.0)])];
            var p: Doc := map[Volumes := Bool(false)];
            var q: Doc := map[Volumes := Obj(map[Zone := Bool(true)])];
            PatchMerge(PatchMerge(current, p, {}), q, {}) != PatchMerge(current, PatchMerge(p, q, {}), {})
  {
    var current: Doc := map[Volumes := Obj(map[Size := Num(1.0)])];
    var p: Doc := map[Volumes := Bool(false)];
    var q: Doc := map[Volumes := Obj(map[Zone := Bool(true)])];
    assert Hides(current, p, q, {}, Volumes);
    assert Size in current[Volumes].fields;
    MergeComposes(current, p, q, {});
  }
}
