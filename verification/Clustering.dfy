/** Greedy clustering of memories around the ones with the highest decay score. */
module Clustering {
  import opened Collections

  /** embedded: the memory has an embedding of the expected dimension. */
  datatype Memory = Memory(id: string, embedded: bool, embedding: int, decay: real)

  datatype Config = Config(similarity: (Memory, Memory) -> real, threshold: real, minSize: int, maxSize: int) {
    predicate Near(centroid: Memory, m: Memory) { similarity(centroid, m) >= threshold }
  }

  type Group = seq<Memory>

  predicate Stronger(a: Memory, b: Memory) { a.decay >= b.decay }

  ghost predicate DistinctIds(g: Group) { DistinctBy(g, (m: Memory) => m.id) }

  ghost predicate HasId(g: Group, id: string) { exists i :: 0 <= i < |g| && g[i].id == id }

  ghost predicate Covered(groups: seq<Group>, id: string) { exists n :: 0 <= n < |groups| && HasId(groups[n], id) }

  /** A group by itself: near to its centroid, which comes first, and in the order of the ranking. */
  ghost predicate Compact(c: Config, sorted: seq<Memory>, g: Group) {
    && g != [] && DistinctIds(g)
    && (|g| <= c.maxSize || |g| == 1)
    && (forall i :: 0 < i < |g| ==> c.Near(g[0], g[i]))
    && (forall i, j :: 0 <= i < j < |g| ==> ComesBefore(sorted, g[i], g[j]))
  }

  /** What a group leaves behind, m: it ranks behind the centroid, and when it is near, then because the group
      was full, of members that all rank ahead of it. */
  ghost predicate LeftBehind(c: Config, sorted: seq<Memory>, g: Group, m: Memory)
    requires g != []
  {
    && ComesBefore(sorted, g[0], m)
    && (c.Near(g[0], m) ==> |g| >= c.maxSize && forall i :: 0 <= i < |g| ==> ComesBefore(sorted, g[i], m))
  }

  ghost predicate Closed(c: Config, g: Group, sorted: seq<Memory>, taken: set<string>)
    requires g != []
  {
    forall l :: 0 <= l < |sorted| && sorted[l].id !in taken ==> LeftBehind(c, sorted, g, sorted[l])
  }

  ghost predicate Before(c: Config, sorted: seq<Memory>, g: Group, h: Group)
    requires g != []
  {
    forall i :: 0 <= i < |h| ==> !HasId(g, h[i].id) && LeftBehind(c, sorted, g, h[i])
  }

  /** groups is a greedy partition of the embedded memories, taken in the order of their ranking. */
  ghost predicate GreedyPartition(c: Config, memories: seq<Memory>, groups: seq<Group>) {
    && (forall n :: 0 <= n < |groups| ==> Compact(c, Ranked(memories), groups[n]))
    && (forall n, k :: 0 <= n < |groups| && 0 <= k < |groups[n]| ==> groups[n][k] in memories && groups[n][k].embedded)
    && (forall m :: m in memories && m.embedded ==> Covered(groups, m.id))
    && (forall n, k :: 0 <= n < k < |groups| ==> groups[n] != [] && Before(c, Ranked(memories), groups[n], groups[k]))
  }

  /** The first n memories are taken. */
  ghost predicate Reached(sorted: seq<Memory>, n: nat, taken: set<string>) {
    forall l :: 0 <= l < n && l < |sorted| ==> sorted[l].id in taken
  }

  // ---- the code ----

  /** The inner loop: the cluster that grows around one centroid, and the ids taken by then. */
  method Grow(c: Config, sorted: seq<Memory>, at: nat, before: set<string>) returns (cluster: Group, taken: set<string>)
    requires at < |sorted| && sorted[at].id !in before && Reached(sorted, at, before)
    ensures Compact(c, sorted, cluster) && cluster[0] == sorted[at]
    ensures forall i :: 0 <= i < |cluster| ==> cluster[i] in sorted && cluster[i].id !in before
    ensures forall id :: id in taken <==> id in before || HasId(cluster, id)
    ensures Closed(c, cluster, sorted, taken)
  {
    var centroid := sorted[at];
    cluster := [centroid];
    taken := before + {centroid.id};
    assert Place(sorted, centroid) == at;
    for l := 0 to |sorted|
      invariant Compact(c, sorted, cluster) && cluster[0] == centroid
      invariant forall i :: 0 <= i < |cluster| ==> cluster[i] in sorted && cluster[i].id !in before
      invariant forall id :: id in taken <==> id in before || HasId(cluster, id)
      invariant forall j :: 0 <= j < l && sorted[j].id !in taken ==> !c.Near(centroid, sorted[j])
      invariant Outranks(cluster, sorted, l)
    {
      var candidate := sorted[l];
      if candidate.id in taken {
        continue;
      }
      if |cluster| >= c.maxSize {
        Full(c, cluster, sorted, taken, at, l);
        return;
      }
      if c.Near(centroid, candidate) {
        Grown(c, cluster, sorted, taken, at, l);
        forall id ensures HasId(cluster + [candidate], id) <==> HasId(cluster, id) || id == candidate.id {
          MoreIds(cluster, candidate, id);
        }
        cluster := cluster + [candidate];
        taken := taken + {candidate.id};
      }
    }
    Full(c, cluster, sorted, taken, at, |sorted|);
  }

  /** The members but the centroid are from the first l places. */
  ghost predicate Outranks(cluster: Group, sorted: seq<Memory>, l: nat) {
    forall i :: 0 < i < |cluster| ==> Place(sorted, cluster[i]) < l
  }

  lemma MoreIds(cluster: Group, m: Memory, id: string)
    ensures HasId(cluster + [m], id) <==> HasId(cluster, id) || id == m.id
  {
    var grown := cluster + [m];
    assert grown[|cluster|] == m;
    if HasId(cluster, id) {
      var i :| 0 <= i < |cluster| && cluster[i].id == id;
      assert grown[i].id == id;
    }
  }

  /** What joins a cluster stands at l for the first time: an earlier place would have been near, and free. */
  lemma JoinsFirst(c: Config, centroid: Memory, sorted: seq<Memory>, taken: set<string>, l: nat)
    requires l < |sorted| && sorted[l].id !in taken && c.Near(centroid, sorted[l])
    requires forall j :: 0 <= j < l && sorted[j].id !in taken ==> !c.Near(centroid, sorted[j])
    ensures Place(sorted, sorted[l]) == l
  {}

  lemma JoinedCompact(c: Config, sorted: seq<Memory>, cluster: Group, m: Memory)
    requires Compact(c, sorted, cluster) && |cluster| < c.maxSize && c.Near(cluster[0], m)
    requires forall i :: 0 <= i < |cluster| ==> cluster[i].id != m.id && ComesBefore(sorted, cluster[i], m)
    ensures Compact(c, sorted, cluster + [m])
  {
    var grown := cluster + [m];
    forall i, j | 0 <= i < j < |grown| ensures grown[i].id != grown[j].id && ComesBefore(sorted, grown[i], grown[j]) {
      assert grown[i] == cluster[i];
    }
  }

  lemma Grown(c: Config, cluster: Group, sorted: seq<Memory>, taken: set<string>, at: nat, l: nat)
    requires at < |sorted| && l < |sorted| && Compact(c, sorted, cluster) && Outranks(cluster, sorted, l)
    requires Place(sorted, cluster[0]) == at && forall j :: 0 <= j <= at ==> sorted[j].id in taken
    requires forall j :: 0 <= j < l && sorted[j].id !in taken ==> !c.Near(cluster[0], sorted[j])
    requires forall id :: HasId(cluster, id) ==> id in taken
    requires sorted[l].id !in taken && c.Near(cluster[0], sorted[l]) && |cluster| < c.maxSize
    ensures Compact(c, sorted, cluster + [sorted[l]])
    ensures Outranks(cluster + [sorted[l]], sorted, l + 1)
  {
    var m := sorted[l];
    JoinsFirst(c, cluster[0], sorted, taken, l);
    forall i | 0 <= i < |cluster| ensures cluster[i].id != m.id && ComesBefore(sorted, cluster[i], m) {
      assert HasId(cluster, cluster[i].id);
    }
    JoinedCompact(c, sorted, cluster, m);
  }

  lemma Full(c: Config, cluster: Group, sorted: seq<Memory>, taken: set<string>, at: nat, l: nat)
    requires at < |sorted| && l <= |sorted| && cluster != [] && Place(sorted, cluster[0]) == at
    requires forall j :: 0 <= j < l && sorted[j].id !in taken ==> !c.Near(cluster[0], sorted[j])
    requires forall j :: 0 <= j <= at ==> sorted[j].id in taken
    requires Outranks(cluster, sorted, l) && (l < |sorted| ==> |cluster| >= c.maxSize)
    ensures Closed(c, cluster, sorted, taken)
  {}

  /** The embedded memories, strongest first. */
  function Ranked(memories: seq<Memory>): seq<Memory> { SortBy(Filter(memories, (m: Memory) => m.embedded), Stronger) }

  lemma RankedIsSorted(memories: seq<Memory>)
    ensures SortedBy(Ranked(memories), Stronger)
    ensures forall m :: m in Ranked(memories) <==> m in memories && m.embedded
  {
    var embedded := Filter(memories, (m: Memory) => m.embedded);
    MultisetMembers(Ranked(memories), embedded);
    SortBySorts(embedded, Stronger);
  }

  function Kept(c: Config, groups: seq<Group>): seq<Group> { Filter(groups, (g: Group) => |g| >= c.minSize) }

  lemma KeptGrows(c: Config, groups: seq<Group>, g: Group)
    ensures Kept(c, groups + [g]) == if |g| >= c.minSize then Kept(c, groups) + [g] else Kept(c, groups)
  {
    FilterAppend(groups, [g], (g: Group) => |g| >= c.minSize);
    assert [g][1..] == [];
  }

  lemma ReachedNext(sorted: seq<Memory>, n: nat, taken: set<string>, g: Group, after: set<string>)
    requires n < |sorted| && Reached(sorted, n, taken) && g != [] && g[0] == sorted[n]
    requires forall id :: id in after <==> id in taken || HasId(g, id)
    ensures Reached(sorted, n + 1, after)
  {
    assert HasId(g, sorted[n].id);
  }

  /** The outer loop, over the memories from the strongest on. */
  method FormGroups(c: Config, sorted: seq<Memory>) returns (clusters: seq<Group>, ghost groups: seq<Group>, ghost all: set<string>)
    ensures clusters == Kept(c, groups)
    ensures Chain(c, groups, sorted, all)
    ensures Reached(sorted, |sorted|, all)
  {
    var taken: set<string> := {};
    clusters, groups := [], [];
    for n := 0 to |sorted|
      invariant clusters == Kept(c, groups)
      invariant Chain(c, groups, sorted, taken)
      invariant Reached(sorted, n, taken)
    {
      if sorted[n].id in taken {
        continue;
      }
      var cluster, after := Grow(c, sorted, n, taken);
      ReachedNext(sorted, n, taken, cluster, after);
      ChainGrows(c, groups, sorted, taken, cluster, after);
      KeptGrows(c, groups, cluster);
      if |cluster| >= c.minSize {
        clusters := clusters + [cluster];
      }
      groups, taken := groups + [cluster], after;
    }
    all := taken;
  }

  /** The clusters are those groups of some greedy partition of the memories that are large enough. */
  ghost predicate IsClustering(c: Config, memories: seq<Memory>, clusters: seq<Group>) {
    exists groups :: GreedyPartition(c, memories, groups) && clusters == Kept(c, groups)
  }

  method ClusterBySimilarity(c: Config, memories: seq<Memory>) returns (clusters: seq<Group>)
    ensures IsClustering(c, memories, clusters)
  {
    ghost var groups, all;
    RankedIsSorted(memories);
    clusters, groups, all := FormGroups(c, Ranked(memories));
    ChainPartitions(c, groups, Ranked(memories), all, memories);
  }

  /** The groups formed so far, and the ids they have taken. */
  ghost predicate Chain(c: Config, groups: seq<Group>, sorted: seq<Memory>, taken: set<string>) {
    && (forall n :: 0 <= n < |groups| ==> Compact(c, sorted, groups[n]) && Closed(c, groups[n], sorted, taken))
    && (forall n, k :: 0 <= n < |groups| && 0 <= k < |groups[n]| ==> groups[n][k] in sorted)
    && (forall id :: id in taken <==> Covered(groups, id))
    && (forall n, k :: 0 <= n < k < |groups| ==> groups[n] != [] && Before(c, sorted, groups[n], groups[k]))
  }

  lemma NewBehind(c: Config, groups: seq<Group>, sorted: seq<Memory>, taken: set<string>, g: Group, n: nat)
    requires Chain(c, groups, sorted, taken) && n < |groups|
    requires forall i :: 0 <= i < |g| ==> g[i] in sorted && g[i].id !in taken
    ensures groups[n] != [] && Before(c, sorted, groups[n], g)
  {
    forall i | 0 <= i < |g| ensures !HasId(groups[n], g[i].id) && LeftBehind(c, sorted, groups[n], g[i]) {
      assert !Covered(groups, g[i].id);
      var l :| 0 <= l < |sorted| && sorted[l] == g[i];
    }
  }

  lemma MoreCovered(groups: seq<Group>, g: Group, id: string)
    ensures Covered(groups + [g], id) <==> Covered(groups, id) || HasId(g, id)
  {
    var grown := groups + [g];
    assert grown[|groups|] == g;
    if Covered(groups, id) {
      var n :| 0 <= n < |groups| && HasId(groups[n], id);
      assert grown[n] == groups[n];
    }
  }

  lemma ChainGrows(c: Config, groups: seq<Group>, sorted: seq<Memory>, taken: set<string>, g: Group, after: set<string>)
    requires Chain(c, groups, sorted, taken) && Compact(c, sorted, g) && Closed(c, g, sorted, after)
    requires forall i :: 0 <= i < |g| ==> g[i] in sorted && g[i].id !in taken
    requires forall id :: id in after <==> id in taken || HasId(g, id)
    ensures Chain(c, groups + [g], sorted, after)
  {
    var grown := groups + [g];
    forall n, k | 0 <= n < k < |grown| ensures grown[n] != [] && Before(c, sorted, grown[n], grown[k]) {
      if k == |groups| {
        NewBehind(c, groups, sorted, taken, g, n);
      }
    }
    forall id ensures id in after <==> Covered(grown, id) {
      MoreCovered(groups, g, id);
    }
  }

  lemma AllCovered(c: Config, groups: seq<Group>, sorted: seq<Memory>, taken: set<string>, m: Memory)
    requires Chain(c, groups, sorted, taken) && Reached(sorted, |sorted|, taken) && m in sorted
    ensures Covered(groups, m.id)
  {
    var l :| 0 <= l < |sorted| && sorted[l] == m;
    assert sorted[l].id in taken;
  }

  lemma ChainPartitions(c: Config, groups: seq<Group>, sorted: seq<Memory>, taken: set<string>, memories: seq<Memory>)
    requires Chain(c, groups, sorted, taken) && Reached(sorted, |sorted|, taken)
    requires sorted == Ranked(memories) && forall m :: m in sorted <==> m in memories && m.embedded
    ensures GreedyPartition(c, memories, groups)
  {
    forall m | m in memories && m.embedded ensures Covered(groups, m.id) {
      AllCovered(c, groups, sorted, taken, m);
    }
  }

  // ---- what the caller gets ----

  /** Where the i-th cluster stands among the groups; the clusters keep the order of the groups. */
  lemma {:induction false} KeptFrom(c: Config, groups: seq<Group>, i: nat, j: nat) returns (n: nat, k: nat)
    requires i < j < |Kept(c, groups)|
    ensures n < k < |groups| && groups[n] == Kept(c, groups)[i] && groups[k] == Kept(c, groups)[j]
    decreases |groups|
  {
    assert groups != [];
    if |groups[0]| < c.minSize {
      n, k := KeptFrom(c, groups[1..], i, j);
      n, k := n + 1, k + 1;
    } else if i > 0 {
      n, k := KeptFrom(c, groups[1..], i - 1, j - 1);
      n, k := n + 1, k + 1;
    } else {
      assert Kept(c, groups)[j] == Kept(c, groups[1..])[j - 1];
      assert Kept(c, groups[1..])[j - 1] in groups[1..];
      k :| 0 <= k < |groups[1..]| && groups[1..][k] == Kept(c, groups)[j];
      n, k := 0, k + 1;
    }
  }

  ghost predicate Greedy(c: Config, sorted: seq<Memory>, g: Group, h: Group)
    requires g != []
  {
    && (forall id :: !(HasId(g, id) && HasId(h, id)))
    && (forall k :: 0 <= k < |h| ==> ComesBefore(sorted, g[0], h[k]))
    && (|g| < c.maxSize ==> forall k :: 0 <= k < |h| ==> c.similarity(g[0], h[k]) < c.threshold)
    && (forall l, k :: 0 <= l < |g| && 0 <= k < |h| && c.similarity(g[0], h[k]) >= c.threshold ==> ComesBefore(sorted, g[l], h[k]))
  }

  lemma PairIsGreedy(c: Config, sorted: seq<Memory>, g: Group, h: Group)
    requires Compact(c, sorted, g) && Before(c, sorted, g, h)
    ensures Greedy(c, sorted, g, h)
  {}

  lemma PartitionPair(c: Config, memories: seq<Memory>, groups: seq<Group>, n: nat, k: nat)
    requires GreedyPartition(c, memories, groups) && n < k < |groups|
    ensures Compact(c, Ranked(memories), groups[n]) && Before(c, Ranked(memories), groups[n], groups[k])
  {}

  /** A cluster by itself: compact, of a permitted size, of embedded memories that were given. */
  ghost predicate Fit(c: Config, memories: seq<Memory>, g: Group) {
    && Compact(c, Ranked(memories), g) && c.minSize <= |g|
    && (forall k :: 0 < k < |g| ==> c.similarity(g[0], g[k]) >= c.threshold)
    && (forall k :: 0 <= k < |g| ==> g[k] in memories && g[k].embedded)
  }

  lemma ClusterIsFit(c: Config, memories: seq<Memory>, groups: seq<Group>, g: Group)
    requires GreedyPartition(c, memories, groups) && g in Kept(c, groups)
    ensures Fit(c, memories, g)
  {
    var n :| 0 <= n < |groups| && groups[n] == g;
  }

  /** Every cluster is compact and of a permitted size. It shares no memory with a later one, its centroid
      ranks ahead of all in that one, and what it left to it is too far from that centroid, or found it full
      of memories that rank ahead. */
  lemma ClustersAreGreedy(c: Config, memories: seq<Memory>, clusters: seq<Group>, i: nat)
    requires IsClustering(c, memories, clusters) && i < |clusters|
    ensures Fit(c, memories, clusters[i])
    ensures forall j :: i < j < |clusters| ==> Greedy(c, Ranked(memories), clusters[i], clusters[j])
  {
    var groups :| GreedyPartition(c, memories, groups) && clusters == Kept(c, groups);
    assert clusters[i] in clusters;
    ClusterIsFit(c, memories, groups, clusters[i]);
    forall j | i < j < |clusters| ensures Greedy(c, Ranked(memories), clusters[i], clusters[j]) {
      var n, k := KeptFrom(c, groups, i, j);
      PartitionPair(c, memories, groups, n, k);
      PairIsGreedy(c, Ranked(memories), clusters[i], clusters[j]);
    }
  }

  // ---- the ranking ----

  lemma StrongerRanksAhead(memories: seq<Memory>, a: Memory, b: Memory)
    requires a in memories && a.embedded && b in memories && b.embedded && a.decay > b.decay
    ensures ComesBefore(Ranked(memories), a, b)
  {
    var sorted := Ranked(memories);
    RankedIsSorted(memories);
    assert a in sorted && b in sorted;
    InOrder(sorted, Place(sorted, b), Place(sorted, a));
  }

  lemma InOrder(sorted: seq<Memory>, i: nat, j: nat)
    requires SortedBy(sorted, Stronger) && i < |sorted| && j < |sorted| && sorted[i].decay < sorted[j].decay
    ensures j < i
  {
    assert i < j ==> Stronger(sorted[i], sorted[j]);
  }

  lemma EquallyStrong(memories: seq<Memory>, a: Memory, b: Memory)
    requires a.embedded && b.embedded && a.decay == b.decay
    ensures ComesBefore(Ranked(memories), a, b) <==> ComesBefore(memories, a, b)
  {
    var embedded := (m: Memory) => m.embedded;
    StableOrder(Filter(memories, embedded), Stronger, a, b);
    OrderInFilter(memories, embedded, a, b);
    assert Filter(memories, embedded) == Filter(memories, (m: Memory) => m.embedded);
  }

  /** Ranking is by strength and, among equally strong memories, by where they were given: a memory ranks ahead
      of another one that is given exactly when it is stronger, or as strong and given earlier. */
  lemma RankedByStrength(memories: seq<Memory>, a: Memory, b: Memory)
    requires a in memories && a.embedded && b in memories && b.embedded
    ensures ComesBefore(Ranked(memories), a, b) <==> a.decay > b.decay || (a.decay == b.decay && ComesBefore(memories, a, b))
  {
    if a.decay == b.decay {
      EquallyStrong(memories, a, b);
    } else if a.decay > b.decay {
      StrongerRanksAhead(memories, a, b);
    } else {
      StrongerRanksAhead(memories, b, a);
    }
  }
}
