/** Kubernetes nodes: ids computed from a pool and an index, and the search that inverts them. */
module Nodes {
  import opened Wrappers
  import opened Documents
  import opened Relational
  import opened MockwaySchema
  import opened Store

  // ---- the name a node id is computed from ------------------------------------------------------------------

  const DIGITS := "0123456789"

  function Decimal(n: nat): string {
    if n < 10 then [DIGITS[n]] else Decimal(n / 10) + [DIGITS[n % 10]]
  }

  function NodeName(pool: string, i: nat): string {
    pool + "-" + Decimal(i)
  }

  lemma {:induction false} DecimalPlain(n: nat)
    ensures |Decimal(n)| > 0 && '-' !in Decimal(n)
  {
    if n >= 10 {
      DecimalPlain(n / 10);
    }
  }

  lemma {:induction false} DecimalInjective(m: nat, n: nat)
    requires Decimal(m) == Decimal(n)
    ensures m == n
  {
    DecimalPlain(m / 10);
    DecimalPlain(n / 10);
    if m >= 10 && n >= 10 {
      var a, b := Decimal(m), Decimal(n);
      assert a[..|a| - 1] == Decimal(m / 10) && b[..|b| - 1] == Decimal(n / 10);
      DecimalInjective(m / 10, n / 10);
      assert a[|a| - 1] == DIGITS[m % 10] && b[|b| - 1] == DIGITS[n % 10];
    }
  }

  /** The value of a digit string. */
  function Value(s: string): nat
    requires Digits(s)
  {
    if s == "" then 0 else Value(s[..|s| - 1]) * 10 + (s[|s| - 1] - '0') as nat
  }

  predicate Digits(s: string) {
    forall i | 0 <= i < |s| :: '0' <= s[i] <= '9'
  }

  /** The index is printed in decimal, without leading zeros. */
  lemma {:induction false} DecimalValue(n: nat)
    ensures Digits(Decimal(n))
    ensures Value(Decimal(n)) == n && (Decimal(n)[0] == '0' <==> n == 0) && (n < 10 ==> |Decimal(n)| == 1)
  {
    if n >= 10 {
      DecimalValue(n / 10);
      assert Decimal(n)[..|Decimal(n)| - 1] == Decimal(n / 10);
      assert DIGITS[n % 10] == '0' + (n % 10) as char;
    } else {
      assert DIGITS[n] == '0' + n as char;
      assert Decimal(n)[..0] == "";
    }
  }

  lemma LastHyphen(a: string, d: string)
    requires '-' !in d
    ensures (a + "-" + d)[|a|] == '-' && forall k | |a| < k < |a + "-" + d| :: (a + "-" + d)[k] != '-'
  {
    var s := a + "-" + d;
    forall k | |a| < k < |s|
      ensures s[k] != '-'
    {
      assert s[k] == d[k - |a| - 1];
    }
  }

  /** The last hyphen separates the index, so the name tells the pool and the index, whatever the pool id is. */
  lemma NodeNameInjective(a: string, i: nat, b: string, j: nat)
    requires NodeName(a, i) == NodeName(b, j)
    ensures a == b && i == j
  {
    hide Decimal;
    DecimalPlain(i);
    DecimalPlain(j);
    var s, t := NodeName(a, i), NodeName(b, j);
    LastHyphen(a, Decimal(i));
    LastHyphen(b, Decimal(j));
    assert |a| == |b|;
    assert s[|a| + 1..] == Decimal(i) && t[|b| + 1..] == Decimal(j);
    assert s[..|a|] == a && t[..|b|] == b;
    DecimalInjective(i, j);
  }

  /** Name-based UUIDs (section 4.3 of RFC 4122), taken as injective. */
  ghost predicate Injective(uuid: string -> string) {
    forall x, y :: uuid(x) == uuid(y) ==> x == y
  }

  // ---- the nodes of a pool ----------------------------------------------------------------------------------

  datatype Node = Node(id: string, pool: string, cluster: string, region: string, name: string)

  /** A size below one, or none at all, counts as one; a fraction is cut off. */
  function NodeCount(pool: Doc): (n: nat)
    ensures n >= 1
  {
    var size := if Get(pool, Size).Num? then pool[Size].n else 0.0;
    if size < 1.0 then 1 else size.Floor
  }

  function PoolNode(pool: Doc, i: nat, cluster: string, region: string, uuid: string -> string): Node {
    Node(uuid(NodeName(Text(pool, Id), i)), Text(pool, Id), cluster, region, Text(pool, Named) + "-node-" + Decimal(i))
  }

  function PoolNodes(pool: Doc, n: nat, cluster: string, region: string, uuid: string -> string): seq<Node> {
    seq(n, i requires 0 <= i < n => PoolNode(pool, i, cluster, region, uuid))
  }

  /** The nodes of a list of pools, pool by pool. */
  function ClusterNodes(pools: seq<Doc>, cluster: string, region: string, uuid: string -> string): seq<Node> {
    if pools == [] then []
    else
      var last := pools[|pools| - 1];
      ClusterNodes(pools[..|pools| - 1], cluster, region, uuid)
        + PoolNodes(last, NodeCount(last), cluster, region, uuid)
  }

  method ListClusterNodes(pools: seq<Doc>, cluster: string, region: string,
                          uuid: string -> string)
    returns (nodes: seq<Node>)
    ensures nodes == ClusterNodes(pools, cluster, region, uuid)
  {
    hide PoolNode, Decimal, NodeName, Text;
    nodes := [];
    for k := 0 to |pools|
      invariant nodes == ClusterNodes(pools[..k], cluster, region, uuid)
    {
      assert pools[..k + 1][..k] == pools[..k];
      var pool := pools[k];
      var size := if Get(pool, Size).Num? then pool[Size].n else 0.0;
      if size < 1.0 {
        size := 1.0;
      }
      ghost var before := nodes;
      for i := 0 to size.Floor
        invariant nodes == before + PoolNodes(pool, i, cluster, region, uuid)
      {
        nodes := nodes + [PoolNode(pool, i, cluster, region, uuid)];
      }
    }
    assert pools[..|pools|] == pools;
  }

  /** Pool and index answer a lookup of a node id in a region. */
  predicate Answers(pool: Doc, i: nat, id: string, region: string, uuid: string -> string) {
    Text(pool, Region) == region && i < NodeCount(pool) && uuid(NodeName(Text(pool, Id), i)) == id
  }

  /** What a lookup returns: a node some pool and index answer with, and none exactly when none answers. */
  ghost predicate NodeFound(pools: seq<Doc>, id: string, region: string, uuid: string -> string, r: Option<Node>) {
    && (r.Some? ==> exists k, i: nat | 0 <= k < |pools| ::
          && Answers(pools[k], i, id, region, uuid)
          && r.value == PoolNode(pools[k], i, Text(pools[k], ClusterId), region, uuid))
    && (r == None <==> forall k, i: nat | 0 <= k < |pools| :: !Answers(pools[k], i, id, region, uuid))
  }

  /** GetNode: the first pool and index that recompute the id. */
  method GetNode(pools: seq<Doc>, id: string, region: string, uuid: string -> string) returns (r: Option<Node>)
    ensures NodeFound(pools, id, region, uuid, r)
  {
    for k := 0 to |pools|
      invariant forall j, i: nat | 0 <= j < k :: !Answers(pools[j], i, id, region, uuid)
    {
      var pool := pools[k];
      if Text(pool, Region) == region {
        var size := if Get(pool, Size).Num? then pool[Size].n else 0.0;
        if size < 1.0 {
          size := 1.0;
        }
        for i := 0 to size.Floor
          invariant forall j: nat | j < i :: !Answers(pool, j, id, region, uuid)
        {
          var candidate := uuid(NodeName(Text(pool, Id), i));
          if candidate == id {
            assert Answers(pools[k], i, id, region, uuid);
            var name := Text(pool, Named) + "-node-" + Decimal(i);
            return Some(Node(id, Text(pool, Id), Text(pool, ClusterId), region, name));
          }
        }
      }
    }
    return None;
  }

  // ---- the round trip ---------------------------------------------------------------------------------------

  /** The pools a list call returns: the documents of some rows, each once, in an arbitrary order. */
  ghost predicate Enumerates(db: Db, rows: set<Ref>, order: seq<Ref>, docs: seq<Doc>) {
    && |order| == |docs|
    && (forall i, j | 0 <= i < j < |order| :: order[i] != order[j])
    && (forall r :: r in order <==> r in rows)
    && (forall i | 0 <= i < |order| :: order[i] in db.rows && docs[i] == db.rows[order[i]].data)
  }

  function AllPools(db: Db): set<Ref> {
    set r | r in db.rows && r.table == Pools
  }

  lemma PoolRow(db: Db, r: Ref)
    requires StoreInv(db) && r in db.rows && r.table == Pools
    ensures r == Ref(Pools, [Text(db.rows[r].data, Id)])
    ensures ColumnValue(db.rows[r], ClusterId) == Some(Text(db.rows[r].data, ClusterId))
  {
    hide StoreInv, Facts, ActionFacts, ParentFacts, ChildFacts, NamedFacts, NullableActions, RequiredFacts,
      KeyNameFacts, Intact, DnsOk, KeysOk, SpellsKey;
    InvParts(db);
    assert RowOk(db.schema, r, db.rows[r]);
    IdOf(db.schema, r, db.rows[r]);
    assert SourcesOf(db.schema, Pools)[ClusterId] == Source([ClusterId], Plain);
    assert Agrees(Source([ClusterId], Plain), db.rows[r].data, ColumnValue(db.rows[r], ClusterId));
  }

  /** Where a listed node comes from. */
  lemma {:induction false} ListedNode(pools: seq<Doc>, cluster: string, region: string, uuid: string -> string, n: nat)
    returns (k: nat, i: nat)
    requires n < |ClusterNodes(pools, cluster, region, uuid)|
    ensures k < |pools| && i < NodeCount(pools[k])
    ensures ClusterNodes(pools, cluster, region, uuid)[n] == PoolNode(pools[k], i, cluster, region, uuid)
    ensures n == |ClusterNodes(pools[..k], cluster, region, uuid)| + i
  {
    var m := |pools| - 1;
    var before := ClusterNodes(pools[..m], cluster, region, uuid);
    if n < |before| {
      k, i := ListedNode(pools[..m], cluster, region, uuid, n);
      assert pools[..m][..k] == pools[..k];
    } else {
      k, i := m, n - |before|;
    }
  }

  /** Two pools or two indices never answer for the same id. */
  lemma OneAnswer(db: Db, order: seq<Ref>, pools: seq<Doc>, uuid: string -> string, k: nat, i: nat, k': nat, i': nat)
    requires StoreInv(db) && Injective(uuid) && Enumerates(db, (set r | r in order), order, pools)
    requires forall r | r in order :: r.table == Pools
    requires k < |pools| && k' < |pools|
    requires uuid(NodeName(Text(pools[k], Id), i)) == uuid(NodeName(Text(pools[k'], Id), i'))
    ensures k == k' && i == i'
  {
    hide StoreInv, Text, NodeName;
    NodeNameInjective(Text(pools[k], Id), i, Text(pools[k'], Id), i');
    assert order[k] in order && order[k'] in order;
    PoolRow(db, order[k]);
    PoolRow(db, order[k']);
  }

  /** No two listed nodes have the same id. */
  lemma ListedIdsDistinct(db: Db, cluster: string, region: string, order: seq<Ref>, pools: seq<Doc>,
                          uuid: string -> string, m: nat, n: nat)
    requires StoreInv(db) && Injective(uuid) && Enumerates(db, Listed(db, Pools, ClusterId, cluster), order, pools)
    requires m < n < |ClusterNodes(pools, cluster, region, uuid)|
    ensures ClusterNodes(pools, cluster, region, uuid)[m].id != ClusterNodes(pools, cluster, region, uuid)[n].id
  {
    hide StoreInv, NodeName, ClusterNodes, ColumnValue, NodeCount;
    var k, i := ListedNode(pools, cluster, region, uuid, m);
    var k', i' := ListedNode(pools, cluster, region, uuid, n);
    forall r | r in order ensures r.table == Pools { assert r in Listed(db, Pools, ClusterId, cluster); }
    if ClusterNodes(pools, cluster, region, uuid)[m].id == ClusterNodes(pools, cluster, region, uuid)[n].id {
      OneAnswer(db, order, pools, uuid, k, i, k', i');
    }
  }

  /** The number of nodes a pool's size stands for: cut to an integer, and one when it is less or no number. */
  predicate SizeMeans(size: Json, count: nat) {
    if size.Num? && size.n >= 1.0 then count == size.n.Floor else count == 1
  }

  lemma CountMeans(pool: Doc)
    ensures SizeMeans(Get(pool, Size), NodeCount(pool))
  {
  }

  /**
   * The nodes that name a listed pool are one stretch of the list, as many as its size says; the i-th of them has
   * the id of "<pool id>-<i>", the name "<pool name>-node-<i>", and the cluster and region it is listed under.
   */
  lemma NodesOfPool(db: Db, cluster: string, region: string, order: seq<Ref>, pools: seq<Doc>,
                    uuid: string -> string, k: nat)
    returns (first: nat, count: nat)
    requires StoreInv(db) && Enumerates(db, Listed(db, Pools, ClusterId, cluster), order, pools) && k < |pools|
    ensures SizeMeans(Get(pools[k], Size), count)
    ensures var nodes, pool := ClusterNodes(pools, cluster, region, uuid), AsString(Get(pools[k], Id));
            && first + count <= |nodes|
            && (forall n | 0 <= n < |nodes| :: nodes[n].pool == pool <==> first <= n < first + count)
            && forall n | first <= n < first + count ::
                 nodes[n] == Node(uuid(pool + "-" + Decimal(n - first)), pool, cluster, region,
                                  AsString(Get(pools[k], Named)) + "-node-" + Decimal(n - first))
  {
    hide StoreInv, ClusterNodes, NodeCount, Enumerates, SizeMeans, Decimal;
    first, count := |ClusterNodes(pools[..k], cluster, region, uuid)|, NodeCount(pools[k]);
    CountMeans(pools[k]);
    var nodes := ClusterNodes(pools, cluster, region, uuid);
    NodeAt(pools, cluster, region, uuid, k, NodeCount(pools[k]) - 1);
    forall n | 0 <= n < |nodes|
      ensures nodes[n].pool == Text(pools[k], Id) <==> first <= n < first + NodeCount(pools[k])
    {
      NodeOfPool(db, cluster, region, order, pools, uuid, k, n);
    }
    forall n | first <= n < first + count
      ensures nodes[n] == PoolNode(pools[k], n - first, cluster, region, uuid)
    {
      NodeAt(pools, cluster, region, uuid, k, n - first);
    }
  }

  /** A lookup under the region of a pool finds the id of "<pool id>-<i>" exactly for the indices its size allows. */
  lemma NodeLookedUp(db: Db, order: seq<Ref>, all: seq<Doc>, uuid: string -> string, p: nat, i: nat, r: Option<Node>)
    returns (count: nat)
    requires StoreInv(db) && Injective(uuid) && Enumerates(db, AllPools(db), order, all) && p < |all|
    requires NodeFound(all, uuid(AsString(Get(all[p], Id)) + "-" + Decimal(i)), AsString(Get(all[p], Region)), uuid, r)
    ensures SizeMeans(Get(all[p], Size), count) && (r.Some? <==> i < count)
    ensures r.Some? ==>
              r.value == Node(uuid(AsString(Get(all[p], Id)) + "-" + Decimal(i)), AsString(Get(all[p], Id)),
                              AsString(Get(all[p], ClusterId)), AsString(Get(all[p], Region)),
                              AsString(Get(all[p], Named)) + "-node-" + Decimal(i))
  {
    hide StoreInv, NodeCount, SizeMeans, Decimal, NodeFound;
    count := NodeCount(all[p]);
    CountMeans(all[p]);
    var id, region := uuid(NodeName(Text(all[p], Id), i)), Text(all[p], Region);
    if i < count {
      SamePool(db, order, all, uuid, id, region, p, i, r);
    } else if r.Some? {
      NoSuchIndex(db, order, all, uuid, p, i, r);
    }
  }

  lemma NoSuchIndex(db: Db, order: seq<Ref>, all: seq<Doc>, uuid: string -> string, p: nat, i: nat, r: Option<Node>)
    requires StoreInv(db) && Injective(uuid) && Enumerates(db, AllPools(db), order, all) && p < |all|
    requires NodeFound(all, uuid(NodeName(Text(all[p], Id), i)), Text(all[p], Region), uuid, r)
    requires i >= NodeCount(all[p])
    ensures r == None
  {
    hide StoreInv, NodeName, Text, NodeCount, PoolNode;
    forall q | q in order ensures q.table == Pools { assert q in AllPools(db); }
    if r.Some? {
      var k, j: nat :| 0 <= k < |all|
                       && Answers(all[k], j, uuid(NodeName(Text(all[p], Id), i)), Text(all[p], Region), uuid);
      OneAnswer(db, order, all, uuid, p, i, k, j);
      assert false;
    }
  }

  lemma NodeOfPool(db: Db, cluster: string, region: string, order: seq<Ref>, pools: seq<Doc>,
                   uuid: string -> string, k: nat, n: nat)
    requires StoreInv(db) && Enumerates(db, Listed(db, Pools, ClusterId, cluster), order, pools)
    requires k < |pools| && n < |ClusterNodes(pools, cluster, region, uuid)|
    ensures var first := |ClusterNodes(pools[..k], cluster, region, uuid)|;
            ClusterNodes(pools, cluster, region, uuid)[n].pool == Text(pools[k], Id) <==>
            first <= n < first + NodeCount(pools[k])
  {
    hide StoreInv, NodeName, ClusterNodes, ColumnValue, NodeCount;
    var first := |ClusterNodes(pools[..k], cluster, region, uuid)|;
    var j, i := ListedNode(pools, cluster, region, uuid, n);
    assert order[j] in order && order[k] in order;
    PoolRow(db, order[j]);
    PoolRow(db, order[k]);
    if first <= n < first + NodeCount(pools[k]) {
      NodeAt(pools, cluster, region, uuid, k, n - first);
    }
  }

  /**
   * The round trip: looking a listed node up in the region it was listed under gives exactly that node when its
   * pool lies in the region, and not-found when it does not.
   */
  lemma ListedNodeFound(db: Db, cluster: string, region: string, order: seq<Ref>, pools: seq<Doc>, allOrder: seq<Ref>,
                        all: seq<Doc>, uuid: string -> string, n: nat, r: Option<Node>)
    requires StoreInv(db) && Injective(uuid)
    requires Enumerates(db, Listed(db, Pools, ClusterId, cluster), order, pools)
    requires Enumerates(db, AllPools(db), allOrder, all)
    requires n < |ClusterNodes(pools, cluster, region, uuid)|
    requires NodeFound(all, ClusterNodes(pools, cluster, region, uuid)[n].id, region, uuid, r)
    ensures var node := ClusterNodes(pools, cluster, region, uuid)[n];
            && Ref(Pools, [node.pool]) in db.rows
            && r == if Text(db.rows[Ref(Pools, [node.pool])].data, Region) == region then Some(node) else None
  {
    hide StoreInv, NodeName, ClusterNodes, NodeCount, Listed, Enumerates, NodeFound;
    var k, i := ListedNode(pools, cluster, region, uuid, n);
    var node := ClusterNodes(pools, cluster, region, uuid)[n];
    var p := PoolPlace(db, cluster, order, pools, allOrder, all, k);
    SamePool(db, allOrder, all, uuid, node.id, region, p, i, r);
  }

  /** A listed pool among all pools. */
  lemma PoolPlace(db: Db, cluster: string, order: seq<Ref>, pools: seq<Doc>, allOrder: seq<Ref>, all: seq<Doc>, k: nat)
    returns (p: nat)
    requires StoreInv(db) && Enumerates(db, Listed(db, Pools, ClusterId, cluster), order, pools)
    requires Enumerates(db, AllPools(db), allOrder, all) && k < |pools|
    ensures p < |all| && all[p] == pools[k] && Text(all[p], ClusterId) == cluster
    ensures Ref(Pools, [Text(pools[k], Id)]) in db.rows && db.rows[Ref(Pools, [Text(pools[k], Id)])].data == pools[k]
  {
    hide StoreInv, Text;
    assert order[k] in order;
    assert order[k] in Listed(db, Pools, ClusterId, cluster);
    assert order[k] in AllPools(db);
    PoolRow(db, order[k]);
    p :| 0 <= p < |allOrder| && allOrder[p] == order[k];
  }

  lemma SamePool(db: Db, order: seq<Ref>, all: seq<Doc>, uuid: string -> string, id: string, region: string, p: nat,
                 i: nat, r: Option<Node>)
    requires StoreInv(db) && Injective(uuid) && Enumerates(db, AllPools(db), order, all)
    requires p < |all| && i < NodeCount(all[p]) && uuid(NodeName(Text(all[p], Id), i)) == id
    requires NodeFound(all, id, region, uuid, r)
    ensures r == if Text(all[p], Region) == region
                 then Some(PoolNode(all[p], i, Text(all[p], ClusterId), region, uuid)) else None
  {
    hide StoreInv, NodeName, Text, NodeCount, PoolNode;
    forall q | q in order ensures q.table == Pools { assert q in AllPools(db); }
    if r.Some? {
      var k, j: nat :| 0 <= k < |all| && Answers(all[k], j, id, region, uuid)
                       && r.value == PoolNode(all[k], j, Text(all[k], ClusterId), region, uuid);
      OneAnswer(db, order, all, uuid, p, i, k, j);
    } else {
      assert !Answers(all[p], i, id, region, uuid);
    }
  }

  lemma {:induction false} NodeAt(pools: seq<Doc>, cluster: string, region: string, uuid: string -> string, k: nat,
                                  i: nat)
    requires k < |pools| && i < NodeCount(pools[k])
    ensures var n := |ClusterNodes(pools[..k], cluster, region, uuid)| + i;
            && n < |ClusterNodes(pools, cluster, region, uuid)|
            && ClusterNodes(pools, cluster, region, uuid)[n] == PoolNode(pools[k], i, cluster, region, uuid)
  {
    hide NodeCount, PoolNode;
    var m := |pools| - 1;
    if k < m {
      NodeAt(pools[..m], cluster, region, uuid, k, i);
      assert pools[..m][..k] == pools[..k];
    }
  }

  /** The other way round: a node GetNode finds is listed by its own cluster under the same region. */
  lemma FoundNodeListed(db: Db, order: seq<Ref>, pools: seq<Doc>, allOrder: seq<Ref>, all: seq<Doc>, id: string,
                        region: string, uuid: string -> string, node: Node)
    returns (n: nat)
    requires StoreInv(db) && Enumerates(db, AllPools(db), allOrder, all)
    requires NodeFound(all, id, region, uuid, Some(node))
    requires Enumerates(db, Listed(db, Pools, ClusterId, node.cluster), order, pools)
    ensures n < |ClusterNodes(pools, node.cluster, region, uuid)|
    ensures ClusterNodes(pools, node.cluster, region, uuid)[n] == node && node.id == id
  {
    hide StoreInv, NodeName, Text, NodeCount, ClusterNodes, ColumnValue;
    var k, i: nat :| 0 <= k < |all| && Answers(all[k], i, id, region, uuid)
                     && node == PoolNode(all[k], i, Text(all[k], ClusterId), region, uuid);
    assert allOrder[k] in AllPools(db) by { assert allOrder[k] in allOrder; }
    PoolRow(db, allOrder[k]);
    assert allOrder[k] in Listed(db, Pools, ClusterId, node.cluster);
    assert allOrder[k] in order;
    var p :| 0 <= p < |order| && order[p] == allOrder[k];
    NodeAt(pools, node.cluster, region, uuid, p, i);
    n := |ClusterNodes(pools[..p], node.cluster, region, uuid)| + i;
  }
}
