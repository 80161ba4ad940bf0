/** Greedy clustering of feedback nodes by the Jaccard similarity of their titles. */
module TitleClusters {
  import opened Selections
  import opened Text

  datatype Node = Node(id: string, title: Option<string>, content: Option<string>, category: Option<string>)

  datatype Cluster = Cluster(title: string, nodes: seq<Node>, category: string)

  /** The set of words a title is split into; the tokenisation itself is a parameter. */
  type Words = string -> set<string>

  function NodeTitle(n: Node): string {
    n.title.GetOr(n.content.GetOr(""))
  }

  function Similarity(a: string, b: string, words: Words): real {
    if a == "" || b == "" then 0.0
    else if a == b then 1.0
    else if |words(a)| == 0 || |words(b)| == 0 then 0.0
    else
      UnionIsLarge(words(a), words(b));
      |words(a) * words(b)| as real / |words(a) + words(b)| as real
  }

  lemma UnionIsLarge(a: set<string>, b: set<string>)
    ensures |a * b| <= |a| <= |a + b|
  {
    assert a + b == a + (b - a);
    assert a == a * b + (a - b);
  }

  /**
   * Similarity is 0 with an empty title, 1 of a title with itself, and else the number of common words over
   * the number of all words, or 0 if one title has no words.
   */
  lemma SimilarityIsQuotient(a: string, b: string, words: Words)
    ensures a == "" || b == "" ==> Similarity(a, b, words) == 0.0
    ensures a != "" && b == a ==> Similarity(a, b, words) == 1.0
    ensures a != "" && b != "" && a != b ==>
              var common, all := words(a) * words(b), words(a) + words(b);
              if words(a) == {} || words(b) == {} then Similarity(a, b, words) == 0.0
              else all != {} && Similarity(a, b, words) * |all| as real == |common| as real
  {
    if a != "" && b != "" && a != b && words(a) != {} && words(b) != {} {
      UnionIsLarge(words(a), words(b));
      Quotient(|words(a) * words(b)|, |words(a) + words(b)|);
    }
  }

  lemma Quotient(n: nat, d: nat)
    requires d > 0
    ensures n as real / d as real * d as real == n as real
  {
  }

  /** Jaccard similarity is symmetric and lies in [0, 1]; distinct titles reach 1 exactly on equal word sets. */
  lemma SimilarityMeans(a: string, b: string, words: Words)
    ensures Similarity(a, b, words) == Similarity(b, a, words)
    ensures 0.0 <= Similarity(a, b, words) <= 1.0
    ensures a != "" && b != "" && a != b ==>
              (Similarity(a, b, words) == 1.0 <==> words(a) == words(b) && words(a) != {})
  {
    var x, y := words(a), words(b);
    UnionIsLarge(x, y);
    UnionIsLarge(y, x);
    assert x * y == y * x && x + y == y + x;
    if x != {} && y != {} {
      Ratio(|x * y|, |x + y|);
      if |x * y| == |x + y| {
        SameSizeSubset(x * y, x);
        SameSizeSubset(x * y, y);
      }
    }
  }

  lemma Ratio(n: nat, d: nat)
    requires n <= d && d > 0
    ensures 0.0 <= n as real / d as real <= 1.0
    ensures n as real / d as real == 1.0 <==> n == d
  {
  }

  lemma SameSizeSubset(a: set<string>, b: set<string>)
    requires a <= b && |b| <= |a|
    ensures a == b
  {
    assert b == a + (b - a);
  }

  // ---------------------------------------------------------------------------------------------
  // The specification
  // ---------------------------------------------------------------------------------------------

  type Measure = (string, string) -> real

  /** The first node of each id, when it has a title. */
  function Representatives(nodes: seq<Node>): seq<Node> {
    if nodes == [] then []
    else
      var before, n := nodes[..|nodes| - 1], nodes[|nodes| - 1];
      Representatives(before) + if n.id !in Ids(before) && NodeTitle(n) != "" then [n] else []
  }

  function Ids(nodes: seq<Node>): set<string> {
    set i | 0 <= i < |nodes| :: nodes[i].id
  }

  predicate Reaches(title: string, c: Cluster, threshold: real, sim: Measure) {
    sim(title, c.title) >= threshold && sim(title, c.title) > 0.0
  }

  /** `best` is the earliest of the most similar clusters that reach the threshold, if any does. */
  predicate IsBest(best: Option<nat>, title: string, clusters: seq<Cluster>, threshold: real, sim: Measure) {
    match best
    case None => forall j :: 0 <= j < |clusters| ==> !Reaches(title, clusters[j], threshold, sim)
    case Some(k) =>
      && k < |clusters| && Reaches(title, clusters[k], threshold, sim)
      && (forall j :: 0 <= j < |clusters| ==>
            sim(title, clusters[j].title) <= sim(title, clusters[k].title))
      && (forall j :: 0 <= j < k ==>
            sim(title, clusters[j].title) < sim(title, clusters[k].title))
  }

  /** What one node does: it joins `best`, or starts a cluster at the end. */
  function Place(clusters: seq<Cluster>, n: Node, best: Option<nat>): seq<Cluster>
    requires best.Some? ==> best.value < |clusters|
  {
    match best
    case Some(k) => clusters[k := clusters[k].(nodes := clusters[k].nodes + [n])]
    case None => clusters + [Cluster(NodeTitle(n), [n], n.category.GetOr("uncategorized"))]
  }

  /** The members of cluster k: the nodes sent there, in their order. */
  function Members(reps: seq<Node>, homes: seq<nat>, k: nat): seq<Node>
    requires |reps| == |homes|
  {
    if reps == [] then []
    else
      var n := |reps| - 1;
      Members(reps[..n], homes[..n], k) + if homes[n] == k then [reps[n]] else []
  }

  predicate MembersMatch(reps: seq<Node>, homes: seq<nat>, clusters: seq<Cluster>) {
    && |homes| == |reps|
    && (forall i :: 0 <= i < |homes| ==> homes[i] < |clusters|)
    && (forall k :: 0 <= k < |clusters| ==> clusters[k].nodes == Members(reps, homes, k) != [])
  }

  /** No cluster's title reaches an earlier cluster. */
  predicate Separated(clusters: seq<Cluster>, threshold: real, sim: Measure) {
    forall j, k :: 0 <= j < k < |clusters| ==> !Reaches(clusters[k].title, clusters[j], threshold, sim)
  }

  /** A cluster has its first node's title and category, and every other node's title reaches it. */
  predicate Cohesive(c: Cluster, threshold: real, sim: Measure) {
    && c.nodes != [] && NodeTitle(c.nodes[0]) == c.title != ""
    && c.category == (if c.nodes[0].category.Some? then c.nodes[0].category.value else "uncategorized")
    && forall i :: 1 <= i < |c.nodes| ==> Reaches(NodeTitle(c.nodes[i]), c, threshold, sim)
  }

  /** What holds of the clusters of `reps`, where `homes` says which cluster each of them is in. */
  predicate Clustered(reps: seq<Node>, homes: seq<nat>, clusters: seq<Cluster>, threshold: real, sim: Measure) {
    && MembersMatch(reps, homes, clusters)
    && Separated(clusters, threshold, sim)
    && forall k :: 0 <= k < |clusters| ==> Cohesive(clusters[k], threshold, sim)
  }

  lemma MembersOneMore(reps: seq<Node>, homes: seq<nat>, n: Node, home: nat, k: nat)
    requires |reps| == |homes|
    ensures Members(reps + [n], homes + [home], k) == Members(reps, homes, k) + if home == k then [n] else []
  {
    assert (reps + [n])[..|reps|] == reps && (homes + [home])[..|homes|] == homes;
  }

  lemma {:induction false} NoMembersYet(reps: seq<Node>, homes: seq<nat>, k: nat)
    requires |reps| == |homes| && forall i :: 0 <= i < |homes| ==> homes[i] != k
    ensures Members(reps, homes, k) == []
  {
    if reps != [] {
      NoMembersYet(reps[..|reps| - 1], homes[..|reps| - 1], k);
    }
  }

  lemma PlaceKeepsMembers(reps: seq<Node>, homes: seq<nat>, clusters: seq<Cluster>, n: Node, best: Option<nat>)
    requires MembersMatch(reps, homes, clusters)
    requires best.Some? ==> best.value < |clusters|
    ensures MembersMatch(reps + [n], homes + [best.GetOr(|clusters|)], Place(clusters, n, best))
  {
    var placed, home := Place(clusters, n, best), best.GetOr(|clusters|);
    NoMembersYet(reps, homes, |clusters|);
    forall k | 0 <= k < |placed| ensures placed[k].nodes == Members(reps + [n], homes + [home], k) != [] {
      MembersOneMore(reps, homes, n, home, k);
    }
  }

  lemma PlaceKeepsSeparated(clusters: seq<Cluster>, threshold: real, sim: Measure, n: Node, best: Option<nat>)
    requires Separated(clusters, threshold, sim) && IsBest(best, NodeTitle(n), clusters, threshold, sim)
    ensures Separated(Place(clusters, n, best), threshold, sim)
  {
    var placed := Place(clusters, n, best);
    forall j, k | 0 <= j < k < |placed| ensures !Reaches(placed[k].title, placed[j], threshold, sim) {
      assert !Reaches(placed[k].title, clusters[j], threshold, sim);
    }
  }

  lemma PlaceKeepsCohesive(clusters: seq<Cluster>, threshold: real, sim: Measure, n: Node, best: Option<nat>)
    requires forall k :: 0 <= k < |clusters| ==> Cohesive(clusters[k], threshold, sim)
    requires NodeTitle(n) != "" && IsBest(best, NodeTitle(n), clusters, threshold, sim)
    ensures forall k :: 0 <= k < |Place(clusters, n, best)| ==> Cohesive(Place(clusters, n, best)[k], threshold, sim)
  {
    var placed := Place(clusters, n, best);
    forall k | 0 <= k < |placed| ensures Cohesive(placed[k], threshold, sim) {
      if k < |clusters| {
        assert Cohesive(clusters[k], threshold, sim);
        forall i | 1 <= i < |placed[k].nodes|
          ensures Reaches(NodeTitle(placed[k].nodes[i]), placed[k], threshold, sim)
        {
          if i < |clusters[k].nodes| {
            assert Reaches(NodeTitle(clusters[k].nodes[i]), clusters[k], threshold, sim);
          }
        }
      }
    }
  }

  /** Placing a node at its best cluster keeps everything. */
  lemma PlaceKeepsClustered(reps: seq<Node>, homes: seq<nat>, clusters: seq<Cluster>, threshold: real, sim: Measure,
                            n: Node, best: Option<nat>)
    requires Clustered(reps, homes, clusters, threshold, sim)
    requires NodeTitle(n) != "" && IsBest(best, NodeTitle(n), clusters, threshold, sim)
    ensures Clustered(reps + [n], homes + [best.GetOr(|clusters|)], Place(clusters, n, best), threshold, sim)
  {
    PlaceKeepsMembers(reps, homes, clusters, n, best);
    PlaceKeepsSeparated(clusters, threshold, sim, n, best);
    PlaceKeepsCohesive(clusters, threshold, sim, n, best);
  }

  /** The clusters that sending each node to its home in turn builds. */
  function Build(reps: seq<Node>, homes: seq<nat>): seq<Cluster>
    requires |reps| == |homes|
  {
    if reps == [] then []
    else
      var n := |reps| - 1;
      var before := Build(reps[..n], homes[..n]);
      Place(before, reps[n], if homes[n] < |before| then Some(homes[n]) else None)
  }

  /** The home of node i was, when it came, the earliest most similar cluster, or a new one if none reached. */
  ghost predicate GreedyHome(reps: seq<Node>, homes: seq<nat>, i: nat, threshold: real, sim: Measure)
    requires i < |reps| == |homes|
  {
    var before := Build(reps[..i], homes[..i]);
    && homes[i] <= |before|
    && IsBest(if homes[i] < |before| then Some(homes[i]) else None, NodeTitle(reps[i]), before, threshold, sim)
  }

  ghost predicate GreedyHomes(reps: seq<Node>, homes: seq<nat>, threshold: real, sim: Measure) {
    |homes| == |reps| && forall i :: 0 <= i < |reps| ==> GreedyHome(reps, homes, i, threshold, sim)
  }

  lemma GreedyHomeStays(reps: seq<Node>, homes: seq<nat>, i: nat, threshold: real, sim: Measure, n: Node, home: nat)
    requires i < |reps| == |homes| && GreedyHome(reps, homes, i, threshold, sim)
    ensures GreedyHome(reps + [n], homes + [home], i, threshold, sim)
  {
    var more, moreHomes := reps + [n], homes + [home];
    assert more[..i] == reps[..i] && moreHomes[..i] == homes[..i];
  }

  lemma NewHomeIsGreedy(reps: seq<Node>, homes: seq<nat>, threshold: real, sim: Measure, n: Node, best: Option<nat>)
    requires |homes| == |reps| && IsBest(best, NodeTitle(n), Build(reps, homes), threshold, sim)
    ensures var home := best.GetOr(|Build(reps, homes)|);
            && GreedyHome(reps + [n], homes + [home], |reps|, threshold, sim)
            && Build(reps + [n], homes + [home]) == Place(Build(reps, homes), n, best)
  {
    var home := best.GetOr(|Build(reps, homes)|);
    assert (reps + [n])[..|reps|] == reps && (homes + [home])[..|homes|] == homes;
  }

  lemma HomesOneMore(reps: seq<Node>, homes: seq<nat>, threshold: real, sim: Measure, n: Node, best: Option<nat>)
    requires GreedyHomes(reps, homes, threshold, sim)
    requires IsBest(best, NodeTitle(n), Build(reps, homes), threshold, sim)
    ensures var home := best.GetOr(|Build(reps, homes)|);
            && GreedyHomes(reps + [n], homes + [home], threshold, sim)
            && Build(reps + [n], homes + [home]) == Place(Build(reps, homes), n, best)
  {
    var home := best.GetOr(|Build(reps, homes)|);
    NewHomeIsGreedy(reps, homes, threshold, sim, n, best);
    forall i | 0 <= i <= |reps| ensures GreedyHome(reps + [n], homes + [home], i, threshold, sim) {
      if i < |reps| {
        GreedyHomeStays(reps, homes, i, threshold, sim, n, home);
      }
    }
  }

  /** What the clusters built so far satisfy. */
  ghost predicate Grown(reps: seq<Node>, homes: seq<nat>, clusters: seq<Cluster>, threshold: real, sim: Measure) {
    && Clustered(reps, homes, clusters, threshold, sim)
    && GreedyHomes(reps, homes, threshold, sim)
    && clusters == Build(reps, homes)
  }

  lemma GrowOne(reps: seq<Node>, homes: seq<nat>, clusters: seq<Cluster>, threshold: real, sim: Measure,
                n: Node, best: Option<nat>)
    requires Grown(reps, homes, clusters, threshold, sim)
    requires NodeTitle(n) != "" && IsBest(best, NodeTitle(n), clusters, threshold, sim)
    ensures Grown(reps + [n], homes + [best.GetOr(|clusters|)], Place(clusters, n, best), threshold, sim)
  {
    PlaceKeepsClustered(reps, homes, clusters, threshold, sim, n, best);
    HomesOneMore(reps, homes, threshold, sim, n, best);
  }

  lemma RepresentativesOneMore(nodes: seq<Node>, n: Node)
    ensures Representatives(nodes + [n]) ==
            if n.id !in Ids(nodes) && NodeTitle(n) != "" then Representatives(nodes) + [n] else Representatives(nodes)
  {
    assert (nodes + [n])[..|nodes|] == nodes;
  }

  lemma IdsOneMore(nodes: seq<Node>, n: Node)
    ensures Ids(nodes + [n]) == Ids(nodes) + {n.id}
  {
    forall id | id in Ids(nodes) ensures id in Ids(nodes + [n]) {
      var i :| 0 <= i < |nodes| && nodes[i].id == id;
      assert (nodes + [n])[i].id == id;
    }
    assert (nodes + [n])[|nodes|].id == n.id;
  }

  lemma OneMore(nodes: seq<Node>, i: nat)
    requires i < |nodes|
    ensures Ids(nodes[..i + 1]) == Ids(nodes[..i]) + {nodes[i].id}
    ensures Representatives(nodes[..i + 1]) ==
            Representatives(nodes[..i])
            + if nodes[i].id !in Ids(nodes[..i]) && NodeTitle(nodes[i]) != "" then [nodes[i]] else []
  {
    assert nodes[..i + 1] == nodes[..i] + [nodes[i]];
    IdsOneMore(nodes[..i], nodes[i]);
    RepresentativesOneMore(nodes[..i], nodes[i]);
  }

  // ---------------------------------------------------------------------------------------------
  // The code
  // ---------------------------------------------------------------------------------------------

  method FindBestCluster(title: string, clusters: seq<Cluster>, threshold: real, sim: Measure)
    returns (best: Option<nat>)
    ensures IsBest(best, title, clusters, threshold, sim)
  {
    best := None;
    var bestSimilarity := 0.0;
    for i := 0 to |clusters|
      invariant IsBest(best, title, clusters[..i], threshold, sim)
      invariant bestSimilarity == if best.Some? then sim(title, clusters[best.value].title) else 0.0
    {
      var similarity := sim(title, clusters[i].title);
      if similarity >= threshold && similarity > bestSimilarity {
        bestSimilarity := similarity;
        best := Some(i);
      }
    }
    assert clusters[..|clusters|] == clusters;
  }

  function Jaccard(words: Words): Measure {
    (a, b) => Similarity(a, b, words)
  }

  /** Adds `n` to the cluster found for it, in place, or pushes a cluster of its own. */
  method Join(clusters: seq<Cluster>, n: Node, best: Option<nat>) returns (joined: seq<Cluster>)
    requires best.Some? ==> best.value < |clusters|
    ensures joined == Place(clusters, n, best)
  {
    joined := clusters;
    if best.Some? {
      var cluster := joined[best.value];
      joined := joined[best.value := cluster.(nodes := cluster.nodes + [n])];
    } else {
      joined := joined + [Cluster(NodeTitle(n), [n], n.category.GetOr("uncategorized"))];
    }
  }

  /** What the loop of `clusterByTitle` does with a titled node. */
  method Assign(n: Node, clusters: seq<Cluster>, threshold: real, sim: Measure,
                ghost reps: seq<Node>, ghost homes: seq<nat>)
    returns (grown: seq<Cluster>, ghost moreHomes: seq<nat>)
    requires Grown(reps, homes, clusters, threshold, sim) && NodeTitle(n) != ""
    ensures Grown(reps + [n], moreHomes, grown, threshold, sim)
  {
    var best := FindBestCluster(NodeTitle(n), clusters, threshold, sim);
    GrowOne(reps, homes, clusters, threshold, sim, n, best);
    moreHomes := homes + [best.GetOr(|clusters|)];
    grown := Join(clusters, n, best);
  }

  /** The loop of `clusterByTitle`, for any similarity measure. */
  method GrowClusters(nodes: seq<Node>, threshold: real, sim: Measure)
    returns (clusters: seq<Cluster>, ghost homes: seq<nat>)
    ensures Grown(Representatives(nodes), homes, clusters, threshold, sim)
  {
    clusters, homes := [], [];
    var assignedIds: set<string> := {};
    ghost var reps: seq<Node> := [];
    for i := 0 to |nodes|
      invariant assignedIds == Ids(nodes[..i]) && reps == Representatives(nodes[..i])
      invariant Grown(reps, homes, clusters, threshold, sim)
    {
      OneMore(nodes, i);
      if nodes[i].id in assignedIds {
        continue;
      }
      if NodeTitle(nodes[i]) != "" {
        clusters, homes := Assign(nodes[i], clusters, threshold, sim, reps, homes);
        reps := reps + [nodes[i]];
      }
      assignedIds := assignedIds + {nodes[i].id};
    }
    assert nodes[..|nodes|] == nodes;
  }

  /**
   * The clusters hold the representatives, each in exactly the one its home names and in input order;
   * every node was sent to the earliest most similar cluster there was, or started its own.
   */
  method ClusterByTitle(nodes: seq<Node>, threshold: real, words: Words) returns (clusters: seq<Cluster>)
    ensures exists homes :: Grown(Representatives(nodes), homes, clusters, threshold, Jaccard(words))
  {
    ghost var homes;
    clusters, homes := GrowClusters(nodes, threshold, Jaccard(words));
  }

  /**
   * For a threshold in (0, 1]: every member reaches the threshold with its cluster's title, and the
   * titles of any two clusters fall below it.
   */
  lemma ThresholdSeparates(reps: seq<Node>, homes: seq<nat>, clusters: seq<Cluster>, threshold: real, words: Words)
    requires Clustered(reps, homes, clusters, threshold, Jaccard(words)) && 0.0 < threshold <= 1.0
    ensures forall k, i :: 0 <= k < |clusters| && 0 <= i < |clusters[k].nodes| ==>
              Similarity(NodeTitle(clusters[k].nodes[i]), clusters[k].title, words) >= threshold
    ensures forall j, k :: 0 <= j < |clusters| && 0 <= k < |clusters| && j != k ==>
              Similarity(clusters[j].title, clusters[k].title, words) < threshold
  {
    forall k, i | 0 <= k < |clusters| && 0 <= i < |clusters[k].nodes|
      ensures Similarity(NodeTitle(clusters[k].nodes[i]), clusters[k].title, words) >= threshold
    {
      assert Cohesive(clusters[k], threshold, Jaccard(words));
      if i > 0 {
        assert Reaches(NodeTitle(clusters[k].nodes[i]), clusters[k], threshold, Jaccard(words));
      }
    }
    forall j, k | 0 <= j < |clusters| && 0 <= k < |clusters| && j != k
      ensures Similarity(clusters[j].title, clusters[k].title, words) < threshold
    {
      SimilarityMeans(clusters[j].title, clusters[k].title, words);
      if j < k {
        assert !Reaches(clusters[k].title, clusters[j], threshold, Jaccard(words));
      } else {
        assert !Reaches(clusters[j].title, clusters[k], threshold, Jaccard(words));
      }
    }
  }

  /** Representatives have distinct ids, so each belongs to exactly one cluster. */
  lemma {:induction false} RepresentativesAreDistinct(nodes: seq<Node>)
    ensures forall i, j :: 0 <= i < j < |Representatives(nodes)| ==>
              Representatives(nodes)[i].id != Representatives(nodes)[j].id
    ensures forall i :: 0 <= i < |Representatives(nodes)| ==>
              Representatives(nodes)[i].id in Ids(nodes) && NodeTitle(Representatives(nodes)[i]) != ""
  {
    if nodes != [] {
      var before, n := nodes[..|nodes| - 1], nodes[|nodes| - 1];
      RepresentativesAreDistinct(before);
      assert nodes == before + [n];
      IdsOneMore(before, n);
    }
  }

  /** The title is not empty; the content stands in only for a title that is missing. */
  predicate HasTitle(n: Node) {
    if n.title.Some? then n.title.value != "" else n.content.Some? && n.content.value != ""
  }

  /** Which nodes have a title and an id that has not come before. */
  function FirstTitled(nodes: seq<Node>): (flags: seq<bool>)
    ensures |flags| == |nodes|
  {
    seq(|nodes|, k requires 0 <= k < |nodes| =>
      HasTitle(nodes[k]) && forall j :: 0 <= j < k ==> nodes[j].id != nodes[k].id)
  }

  lemma NewIds(nodes: seq<Node>, k: nat)
    requires k < |nodes|
    ensures FirstTitled(nodes)[k] <==> NodeTitle(nodes[k]) != "" && nodes[k].id !in Ids(nodes[..k])
  {
    if nodes[k].id in Ids(nodes[..k]) {
      var j :| 0 <= j < |nodes[..k]| && nodes[..k][j].id == nodes[k].id;
      assert nodes[j].id == nodes[k].id;
    } else {
      forall j | 0 <= j < k ensures nodes[j].id != nodes[k].id {
        assert nodes[..k][j].id in Ids(nodes[..k]);
      }
    }
  }

  lemma KeptOneMore(nodes: seq<Node>, flags: seq<bool>, n: nat)
    requires n < |nodes| == |flags|
    ensures Kept(nodes[..n + 1], flags[..n + 1]) ==
            Kept(nodes[..n], flags[..n]) + if flags[n] then [nodes[n]] else []
  {
    assert nodes[..n + 1][..n] == nodes[..n] && flags[..n + 1][..n] == flags[..n];
  }

  lemma {:induction false} RepresentativesAreKept(nodes: seq<Node>, n: nat)
    requires n <= |nodes|
    ensures Representatives(nodes[..n]) == Kept(nodes[..n], FirstTitled(nodes)[..n])
  {
    if n > 0 {
      RepresentativesAreKept(nodes, n - 1);
      KeptOneMore(nodes, FirstTitled(nodes), n - 1);
      OneMore(nodes, n - 1);
      NewIds(nodes, n - 1);
    }
  }

  /** The clustered nodes are exactly the titled ones whose id has not come before, in input order. */
  lemma RepresentativesMean(nodes: seq<Node>) returns (at: seq<nat>)
    ensures PlacesAt(FirstTitled(nodes), at) && FoundAt(nodes, at, Representatives(nodes))
  {
    at := KeptMeans(nodes, FirstTitled(nodes));
    RepresentativesAreKept(nodes, |nodes|);
    assert nodes[..|nodes|] == nodes && FirstTitled(nodes)[..|nodes|] == FirstTitled(nodes);
  }
}
