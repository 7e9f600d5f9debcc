/** scripts/extract_pdf_images.py: grouping the image blocks of a page into logical figures. */
module FigureSweep {
  import opened Geometry

  datatype ImageBlock = ImageBlock(ordinal: int, page: int, x0: real, y0: real, x1: real, y1: real)

  /** A logical figure: its blocks in the order the sweep met them. */
  datatype FigureCluster = FigureCluster(blocks: seq<ImageBlock>, page: int)

  predicate Upright(block: ImageBlock)
  {
    block.y0 <= block.y1
  }

  /** The union of the boxes of a cluster: the smallest box around all of them. */
  function DbBox(blocks: seq<ImageBlock>): (box: Box)
    requires |blocks| > 0
    ensures forall b :: b in blocks ==> box.x0 <= b.x0 && box.y0 <= b.y0 && b.x1 <= box.x1 && b.y1 <= box.y1
    ensures exists b :: b in blocks && b.y1 == box.y1
    ensures exists b :: b in blocks && b.y0 == box.y0
  {
    var last := blocks[|blocks| - 1];
    if |blocks| == 1 then Box(last.x0, last.y0, last.x1, last.y1)
    else
      var rest := DbBox(blocks[..|blocks| - 1]);
      Box(Min(rest.x0, last.x0), Min(rest.y0, last.y0), Max(rest.x1, last.x1), Max(rest.y1, last.y1))
  }

  // ---- Specification: connected components of "vertical gap below the threshold" ----------------

  /** The empty vertical strip between two boxes is narrower than `threshold`. */
  predicate Near(a: ImageBlock, b: ImageBlock, threshold: real)
  {
    Max(0.0, Max(a.y0, b.y0) - Min(a.y1, b.y1)) < threshold
  }

  ghost predicate IsChain(
      blocks: seq<ImageBlock>, threshold: real, chain: seq<ImageBlock>, a: ImageBlock, b: ImageBlock)
  {
    && |chain| > 0 && chain[0] == a && chain[|chain| - 1] == b
    && (forall k :: 0 <= k < |chain| ==> chain[k] in blocks)
    && (forall k :: 0 < k < |chain| ==> Near(chain[k - 1], chain[k], threshold))
  }

  /** `a` and `b` lie in one connected component of `Near` over `blocks`. */
  ghost predicate Connected(blocks: seq<ImageBlock>, threshold: real, a: ImageBlock, b: ImageBlock)
  {
    exists chain :: IsChain(blocks, threshold, chain, a, b)
  }

  ghost predicate Together(clusters: seq<FigureCluster>, a: ImageBlock, b: ImageBlock)
  {
    exists k :: 0 <= k < |clusters| && a in clusters[k].blocks && b in clusters[k].blocks
  }

  function Members(clusters: seq<FigureCluster>): seq<ImageBlock>
  {
    if clusters == [] then []
    else Members(clusters[..|clusters| - 1]) + clusters[|clusters| - 1].blocks
  }

  lemma {:induction false} MembersAreClustered(clusters: seq<FigureCluster>, b: ImageBlock)
    ensures b in Members(clusters) <==> exists k :: 0 <= k < |clusters| && b in clusters[k].blocks
  {
    if clusters != [] {
      var front := clusters[..|clusters| - 1];
      MembersAreClustered(front, b);
      if k :| 0 <= k < |clusters| && b in clusters[k].blocks {
        assert k < |front| ==> b in front[k].blocks;
      }
    }
  }

  // ---- The stable sort by top edge ------------------------------------------------------------

  predicate SortedByTop(blocks: seq<ImageBlock>)
  {
    forall i, j :: 0 <= i < j < |blocks| ==> blocks[i].y0 <= blocks[j].y0
  }

  function InsertByTop(sorted: seq<ImageBlock>, block: ImageBlock): seq<ImageBlock>
  {
    if sorted == [] || sorted[|sorted| - 1].y0 <= block.y0 then sorted + [block]
    else InsertByTop(sorted[..|sorted| - 1], block) + [sorted[|sorted| - 1]]
  }

  function SortByTop(blocks: seq<ImageBlock>): seq<ImageBlock>
  {
    if blocks == [] then [] else InsertByTop(SortByTop(blocks[..|blocks| - 1]), blocks[|blocks| - 1])
  }

  lemma {:induction false} InsertKeepsBlocks(sorted: seq<ImageBlock>, block: ImageBlock)
    ensures multiset(InsertByTop(sorted, block)) == multiset(sorted) + multiset{block}
    ensures InsertByTop(sorted, block) != []
  {
    if sorted != [] && sorted[|sorted| - 1].y0 > block.y0 {
      InsertKeepsBlocks(sorted[..|sorted| - 1], block);
      assert sorted == sorted[..|sorted| - 1] + [sorted[|sorted| - 1]];
    }
  }

  /** Nothing in the result lies below both the new block and the old last one. */
  lemma {:induction false} InsertIsSorted(sorted: seq<ImageBlock>, block: ImageBlock)
    requires SortedByTop(sorted)
    ensures SortedByTop(InsertByTop(sorted, block))
    ensures forall k :: 0 <= k < |InsertByTop(sorted, block)| ==>
      InsertByTop(sorted, block)[k].y0 <= block.y0
      || (sorted != [] && InsertByTop(sorted, block)[k].y0 <= sorted[|sorted| - 1].y0)
  {
    if sorted != [] && sorted[|sorted| - 1].y0 > block.y0 {
      InsertIsSorted(sorted[..|sorted| - 1], block);
    }
  }

  /** Python's `sorted` by top edge: the same blocks, from the top down. */
  lemma {:induction false} SortIsSorted(blocks: seq<ImageBlock>)
    ensures SortedByTop(SortByTop(blocks)) && multiset(SortByTop(blocks)) == multiset(blocks)
    ensures |SortByTop(blocks)| == |blocks|
  {
    if blocks != [] {
      var front, last := blocks[..|blocks| - 1], blocks[|blocks| - 1];
      assert blocks == front + [last];
      SortIsSorted(front);
      InsertIsSorted(SortByTop(front), last);
      InsertKeepsBlocks(SortByTop(front), last);
      hide InsertByTop, SortedByTop;
      assert |SortByTop(blocks)| == |multiset(SortByTop(blocks))| == |multiset(blocks)|;
    }
  }

  // ---- The sweep ------------------------------------------------------------------------------

  /** The code's test for joining the current cluster: vertical proximity and a horizontal clause. */
  predicate Joins(box: Box, block: ImageBlock, threshold: real)
  {
    var vOverlap := Min(box.y1, block.y1) - Max(box.y0, block.y0);
    var vGap := Max(0.0, block.y0 - box.y1);
    var hOverlap := Min(box.x1, block.x1) - Max(box.x0, block.x0);
    vOverlap > -threshold && (hOverlap > -threshold || vGap < threshold)
  }

  /** In a sweep from the top the horizontal clause never changes the outcome. */
  lemma JoinsIsVerticalGap(box: Box, block: ImageBlock, threshold: real)
    requires threshold > 0.0 && Upright(block) && box.y0 <= block.y0
    ensures Joins(box, block, threshold) <==> block.y0 - box.y1 < threshold
  {}

  ghost predicate NearSome(blocks: seq<ImageBlock>, block: ImageBlock, threshold: real)
  {
    exists j :: 0 <= j < |blocks| && Near(blocks[j], block, threshold)
  }

  /** Every block of a cluster is within reach of its first one, by steps inside the cluster. */
  ghost predicate Linked(blocks: seq<ImageBlock>, threshold: real)
  {
    forall k :: 0 < k < |blocks| ==> NearSome(blocks[..k], blocks[k], threshold)
  }

  /** The blocks of `upper` all end at least `threshold` above the blocks of `lower`. */
  ghost predicate Apart(upper: seq<ImageBlock>, lower: seq<ImageBlock>, threshold: real)
  {
    forall a, b :: a in upper && b in lower ==> b.y0 - a.y1 >= threshold
  }

  ghost predicate WellSeparated(clusters: seq<FigureCluster>, threshold: real)
  {
    forall i, j :: 0 <= i < j < |clusters| ==> Apart(clusters[i].blocks, clusters[j].blocks, threshold)
  }

  /** The boxes are upright and the threshold leaves some room. */
  predicate IsRegular(blocks: seq<ImageBlock>, threshold: real)
  {
    threshold > 0.0 && forall b :: b in blocks ==> Upright(b)
  }

  /** Each block is in the clusters as often as in the input; each cluster has a block, and the page of its first. */
  ghost predicate IsPartition(blocks: seq<ImageBlock>, clusters: seq<FigureCluster>)
  {
    && multiset(Members(clusters)) == multiset(blocks)
    && forall k :: 0 <= k < |clusters| ==> |clusters[k].blocks| > 0 && clusters[k].page == clusters[k].blocks[0].page
  }

  /** The clusters are exactly the connected components, and apart from each other. */
  ghost predicate AreComponents(blocks: seq<ImageBlock>, clusters: seq<FigureCluster>, threshold: real)
  {
    && (forall a, b :: a in blocks && b in blocks ==>
         (Together(clusters, a, b) <==> Connected(blocks, threshold, a, b)))
    && WellSeparated(clusters, threshold)
  }

  /** The sweep: a partition on every input, and the components of what is regular. */
  method ClusterBlocksOnPage(blocks: seq<ImageBlock>, threshold: real) returns (clusters: seq<FigureCluster>)
    ensures IsPartition(blocks, clusters)
    ensures IsRegular(blocks, threshold) ==> AreComponents(blocks, clusters, threshold)
  {
    hide *;
    if |blocks| == 0 {
      NoCluster(threshold);
      return [];
    }
    if |blocks| == 1 {
      clusters := [FigureCluster(blocks, blocks[0].page)];
      OneCluster(blocks, clusters, threshold);
      return;
    }
    var sortedBlocks := SortByTop(blocks);
    SortIsSorted(blocks);
    ghost var regular := IsRegular(blocks, threshold);
    clusters := [];
    var current := FigureCluster([sortedBlocks[0]], sortedBlocks[0].page);
    StartSweep(sortedBlocks, threshold);
    SameRegularity(blocks, sortedBlocks, threshold);
    for i := 1 to |sortedBlocks|
      invariant IsSwept(sortedBlocks, i, clusters, current)
      invariant regular ==> SweepState(sortedBlocks, i, clusters, current, threshold)
    {
      var blk := sortedBlocks[i];
      SweepOn(sortedBlocks, i, clusters, current);
      var box := DbBox(current.blocks);
      if Joins(box, blk, threshold) {
        if regular {
          JoinStep(sortedBlocks, i, clusters, current, threshold);
        }
        current := FigureCluster(current.blocks + [blk], current.page);
      } else {
        if regular {
          SplitStep(sortedBlocks, i, clusters, current, threshold);
        }
        clusters := clusters + [current];
        current := FigureCluster([blk], blk.page);
      }
    }
    SweepEnds(blocks, sortedBlocks, clusters, current, threshold);
    clusters := clusters + [current];
  }

  lemma NoCluster(threshold: real)
    ensures IsPartition([], []) && AreComponents([], [], threshold)
  {}

  lemma OneCluster(blocks: seq<ImageBlock>, clusters: seq<FigureCluster>, threshold: real)
    requires |blocks| == 1 && |clusters| == 1 && clusters[0] == FigureCluster(blocks, blocks[0].page)
    ensures IsPartition(blocks, clusters)
    ensures IsRegular(blocks, threshold) ==> AreComponents(blocks, clusters, threshold)
  {
    assert Members(clusters[..0]) == [];
    assert Members(clusters) == blocks;
    if IsRegular(blocks, threshold) {
      ComponentsAreClusters(blocks, blocks, clusters, threshold);
    }
  }

  lemma StartSweep(sorted: seq<ImageBlock>, threshold: real)
    requires sorted != [] && SortedByTop(sorted)
    ensures var current := FigureCluster([sorted[0]], sorted[0].page);
      && IsSwept(sorted, 1, [], current)
      && (IsRegular(sorted, threshold) ==> SweepState(sorted, 1, [], current, threshold))
  {}

  lemma SameRegularity(blocks: seq<ImageBlock>, sorted: seq<ImageBlock>, threshold: real)
    requires multiset(blocks) == multiset(sorted)
    ensures IsRegular(blocks, threshold) <==> IsRegular(sorted, threshold)
  {
    SameElements(blocks, sorted);
    hide Upright;
  }

  /** After `i` sorted blocks: the finished clusters and the growing one hold just these. */
  ghost predicate IsSwept(sorted: seq<ImageBlock>, i: nat, clusters: seq<FigureCluster>, current: FigureCluster)
  {
    && i <= |sorted| && |current.blocks| > 0 && current.page == current.blocks[0].page
    && Members(clusters) + current.blocks == sorted[..i]
    && (forall k :: 0 <= k < |clusters| ==> |clusters[k].blocks| > 0 && clusters[k].page == clusters[k].blocks[0].page)
  }

  /** Joined or not, the next block is in. */
  lemma SweepOn(sorted: seq<ImageBlock>, i: nat, clusters: seq<FigureCluster>, current: FigureCluster)
    requires i < |sorted| && IsSwept(sorted, i, clusters, current)
    ensures |current.blocks| > 0
    ensures IsSwept(sorted, i + 1, clusters, FigureCluster(current.blocks + [sorted[i]], current.page))
    ensures IsSwept(sorted, i + 1, clusters + [current], FigureCluster([sorted[i]], sorted[i].page))
  {
    MembersOfOneMore(clusters, current);
    hide Members;
    assert sorted[..i + 1] == sorted[..i] + [sorted[i]];
    assert Members(clusters) + (current.blocks + [sorted[i]]) == sorted[..i + 1];
  }

  lemma SweepEnds(
      blocks: seq<ImageBlock>, sorted: seq<ImageBlock>, clusters: seq<FigureCluster>, current: FigureCluster,
      threshold: real)
    requires IsSwept(sorted, |sorted|, clusters, current) && multiset(sorted) == multiset(blocks)
    requires IsRegular(blocks, threshold) ==> SweepState(sorted, |sorted|, clusters, current, threshold)
    ensures IsPartition(blocks, clusters + [current])
    ensures IsRegular(blocks, threshold) ==> AreComponents(blocks, clusters + [current], threshold)
  {
    hide Together, Connected, SweepState, WellSeparated, Members, AllLinked;
    MembersOfOneMore(clusters, current);
    assert sorted[..|sorted|] == sorted;
    if IsRegular(blocks, threshold) {
      LastSplit(sorted, clusters, current, threshold);
      ComponentsAreClusters(blocks, sorted, clusters + [current], threshold);
    }
  }

  /** The clusters so far are each linked, and all apart. */
  ghost predicate SweepState(
      sorted: seq<ImageBlock>, i: nat, clusters: seq<FigureCluster>, current: FigureCluster, threshold: real)
  {
    && IsSwept(sorted, i, clusters, current) && SortedByTop(sorted) && IsRegular(sorted, threshold)
    && AllLinked(clusters, threshold) && Linked(current.blocks, threshold)
    && WellSeparated(clusters, threshold)
    && AllApart(clusters, current.blocks, threshold) && AllApart(clusters, sorted[i..], threshold)
  }

  ghost predicate AllLinked(clusters: seq<FigureCluster>, threshold: real)
  {
    forall k :: 0 <= k < |clusters| ==> Linked(clusters[k].blocks, threshold)
  }

  /** All clusters end at least `threshold` above the blocks of `lower`. */
  ghost predicate AllApart(clusters: seq<FigureCluster>, lower: seq<ImageBlock>, threshold: real)
  {
    forall k :: 0 <= k < |clusters| ==> Apart(clusters[k].blocks, lower, threshold)
  }

  lemma OneMoreCluster(clusters: seq<FigureCluster>, current: FigureCluster, lower: seq<ImageBlock>, threshold: real)
    requires AllLinked(clusters, threshold) && Linked(current.blocks, threshold)
    requires AllApart(clusters, lower, threshold) && Apart(current.blocks, lower, threshold)
    ensures AllLinked(clusters + [current], threshold) && AllApart(clusters + [current], lower, threshold)
  {
    hide Linked, Apart;
  }

  /** What is apart from all that is left is apart from the next block, and from what is left after it. */
  lemma AllApartParts(
      clusters: seq<FigureCluster>, lower: seq<ImageBlock>, sorted: seq<ImageBlock>, i: nat, threshold: real)
    requires i < |sorted| && AllApart(clusters, lower, threshold) && AllApart(clusters, sorted[i..], threshold)
    ensures AllApart(clusters, lower + [sorted[i]], threshold) && AllApart(clusters, [sorted[i]], threshold)
    ensures AllApart(clusters, sorted[i + 1..], threshold)
  {
    hide Apart;
    forall k | 0 <= k < |clusters|
      ensures Apart(clusters[k].blocks, lower + [sorted[i]], threshold)
      ensures Apart(clusters[k].blocks, [sorted[i]], threshold)
      ensures Apart(clusters[k].blocks, sorted[i + 1..], threshold)
    {
      ApartParts(clusters[k].blocks, lower, sorted, i, threshold);
    }
  }

  lemma NothingIsApart(clusters: seq<FigureCluster>, threshold: real)
    ensures AllApart(clusters, [], threshold)
  {}

  lemma JoinStep(sorted: seq<ImageBlock>, i: nat, clusters: seq<FigureCluster>, current: FigureCluster, threshold: real)
    requires i < |sorted| && SweepState(sorted, i, clusters, current, threshold)
    requires Joins(DbBox(current.blocks), sorted[i], threshold)
    ensures SweepState(sorted, i + 1, clusters, FigureCluster(current.blocks + [sorted[i]], current.page), threshold)
  {
    hide Linked, Apart, DbBox, Near, Joins;
    var blk := sorted[i];
    assert blk in sorted[i..] && sorted[..i + 1] == sorted[..i] + [blk];
    TopOfPrefix(sorted, i, current.blocks);
    JoinsIsVerticalGap(DbBox(current.blocks), blk, threshold);
    JoinedIsLinked(current.blocks, blk, threshold);
    hide AllApart;
    AllApartParts(clusters, current.blocks, sorted, i, threshold);
    SweepOn(sorted, i, clusters, current);
  }

  lemma ApartParts(upper: seq<ImageBlock>, lower: seq<ImageBlock>, sorted: seq<ImageBlock>, i: nat, threshold: real)
    requires i < |sorted| && Apart(upper, lower, threshold) && Apart(upper, sorted[i..], threshold)
    ensures Apart(upper, lower + [sorted[i]], threshold) && Apart(upper, [sorted[i]], threshold)
    ensures Apart(upper, sorted[i + 1..], threshold)
  {
    assert sorted[i..] == [sorted[i]] + sorted[i + 1..];
    forall b | b in lower + [sorted[i]] ensures b in lower || b in sorted[i..] {}
  }

  lemma SplitStep(
      sorted: seq<ImageBlock>, i: nat, clusters: seq<FigureCluster>, current: FigureCluster, threshold: real)
    requires i < |sorted| && SweepState(sorted, i, clusters, current, threshold)
    requires !Joins(DbBox(current.blocks), sorted[i], threshold)
    ensures SweepState(sorted, i + 1, clusters + [current], FigureCluster([sorted[i]], sorted[i].page), threshold)
  {
    hide Linked, Apart, DbBox, Near, Joins;
    var blk := sorted[i];
    assert blk in sorted[i..] && sorted[..i + 1] == sorted[..i] + [blk];
    TopOfPrefix(sorted, i, current.blocks);
    JoinsIsVerticalGap(DbBox(current.blocks), blk, threshold);
    SingletonIsLinked(blk, threshold);
    BelowStaysApart(sorted, i, current.blocks, threshold);
    SeparatedFromOneMore(clusters, current, threshold);
    hide AllApart, WellSeparated, AllLinked;
    OneMoreCluster(clusters, current, sorted[i..], threshold);
    NothingIsApart(clusters + [current], threshold);
    AllApartParts(clusters + [current], [], sorted, i, threshold);
    SweepOn(sorted, i, clusters, current);
    hide IsSwept;
  }

  lemma MembersOfOneMore(clusters: seq<FigureCluster>, current: FigureCluster)
    ensures Members(clusters + [current]) == Members(clusters) + current.blocks
  {
    assert (clusters + [current])[..|clusters|] == clusters;
  }

  lemma SeparatedFromOneMore(clusters: seq<FigureCluster>, current: FigureCluster, threshold: real)
    requires WellSeparated(clusters, threshold) && AllApart(clusters, current.blocks, threshold)
    ensures WellSeparated(clusters + [current], threshold)
  {
    hide Apart;
  }

  lemma SingletonIsLinked(block: ImageBlock, threshold: real)
    ensures Linked([block], threshold) && Apart([], [block], threshold)
  {}

  lemma LastSplit(sorted: seq<ImageBlock>, clusters: seq<FigureCluster>, current: FigureCluster, threshold: real)
    requires SweepState(sorted, |sorted|, clusters, current, threshold)
    ensures AllLinked(clusters + [current], threshold) && WellSeparated(clusters + [current], threshold)
  {
    SeparatedFromOneMore(clusters, current, threshold);
    hide Linked, Apart, WellSeparated, IsSwept;
  }

  lemma SameElements(s: seq<ImageBlock>, t: seq<ImageBlock>)
    requires multiset(s) == multiset(t)
    ensures |s| == |t|
    ensures forall b :: b in s <==> b in t
  {
    assert |s| == |multiset(s)| == |multiset(t)| == |t|;
    forall b ensures b in s <==> b in t {
      assert b in s <==> b in multiset(s);
      assert b in t <==> b in multiset(t);
    }
  }

  lemma TopOfPrefix(sorted: seq<ImageBlock>, i: nat, cluster: seq<ImageBlock>)
    requires SortedByTop(sorted) && i < |sorted| && |cluster| > 0
    requires forall b :: b in cluster ==> b in sorted[..i]
    ensures forall b :: b in cluster ==> b in sorted
    ensures DbBox(cluster).y0 <= sorted[i].y0
    ensures forall b :: b in cluster ==> b.y0 <= sorted[i].y0
  {}

  lemma JoinedIsLinked(cluster: seq<ImageBlock>, block: ImageBlock, threshold: real)
    requires |cluster| > 0 && threshold > 0.0 && Linked(cluster, threshold) && Upright(block)
    requires forall b :: b in cluster ==> b.y0 <= block.y0 && Upright(b)
    requires block.y0 - DbBox(cluster).y1 < threshold
    ensures Linked(cluster + [block], threshold)
  {
    NearLowest(cluster, block, threshold);
    LinkedExtends(cluster, block, threshold);
  }

  lemma NearLowest(cluster: seq<ImageBlock>, block: ImageBlock, threshold: real)
    requires |cluster| > 0 && threshold > 0.0 && Upright(block)
    requires forall b :: b in cluster ==> b.y0 <= block.y0
    requires block.y0 - DbBox(cluster).y1 < threshold
    ensures NearSome(cluster, block, threshold)
  {
    var lowest :| lowest in cluster && lowest.y1 == DbBox(cluster).y1;
    var j :| 0 <= j < |cluster| && cluster[j] == lowest;
    assert Near(cluster[j], block, threshold);
  }

  lemma LinkedExtends(cluster: seq<ImageBlock>, block: ImageBlock, threshold: real)
    requires Linked(cluster, threshold) && NearSome(cluster, block, threshold)
    ensures Linked(cluster + [block], threshold)
  {
    hide Near;
    var extended := cluster + [block];
    forall k | 0 < k < |extended| ensures NearSome(extended[..k], extended[k], threshold) {
      if k < |cluster| {
        assert extended[..k] == cluster[..k];
        assert NearSome(cluster[..k], cluster[k], threshold);
      } else {
        assert extended[..k] == cluster;
      }
    }
  }

  lemma BelowStaysApart(sorted: seq<ImageBlock>, i: nat, cluster: seq<ImageBlock>, threshold: real)
    requires SortedByTop(sorted) && i < |sorted| && |cluster| > 0
    requires sorted[i].y0 - DbBox(cluster).y1 >= threshold
    ensures Apart(cluster, sorted[i..], threshold)
  {}

  // ---- Clusters that are linked inside and apart from each other are the components -------------

  lemma ChainAppend(blocks: seq<ImageBlock>, threshold: real, a: ImageBlock, b: ImageBlock, c: ImageBlock)
    requires Connected(blocks, threshold, a, b) && c in blocks && Near(b, c, threshold)
    ensures Connected(blocks, threshold, a, c)
  {
    var chain :| IsChain(blocks, threshold, chain, a, b);
    assert IsChain(blocks, threshold, chain + [c], a, c);
  }

  lemma {:induction false} ConnectedIsSymmetric(
      blocks: seq<ImageBlock>, threshold: real, chain: seq<ImageBlock>, a: ImageBlock, b: ImageBlock)
    requires IsChain(blocks, threshold, chain, a, b)
    ensures Connected(blocks, threshold, b, a)
  {
    var reverse := seq(|chain|, k requires 0 <= k < |chain| => chain[|chain| - 1 - k]);
    forall k | 0 < k < |reverse| ensures Near(reverse[k - 1], reverse[k], threshold) {
      assert Near(chain[|chain| - 1 - k], chain[|chain| - k], threshold);
    }
    assert IsChain(blocks, threshold, reverse, b, a);
  }

  lemma ConnectedIsTransitive(blocks: seq<ImageBlock>, threshold: real, a: ImageBlock, b: ImageBlock, c: ImageBlock)
    requires Connected(blocks, threshold, a, b) && Connected(blocks, threshold, b, c)
    ensures Connected(blocks, threshold, a, c)
  {
    var p :| IsChain(blocks, threshold, p, a, b);
    var q :| IsChain(blocks, threshold, q, b, c);
    var r := p + q[1..];
    forall k | 0 <= k < |r| ensures r[k] in blocks && (k > 0 ==> Near(r[k - 1], r[k], threshold)) {
      if k >= |p| {
        assert r[k] == q[k - |p| + 1];
        assert r[k - 1] == q[k - |p|];
      }
    }
    assert IsChain(blocks, threshold, r, a, c);
  }

  lemma {:induction false} LinkedReachesFirst(
      blocks: seq<ImageBlock>, threshold: real, cluster: seq<ImageBlock>, k: nat)
    requires k < |cluster| && Linked(cluster, threshold)
    requires forall b :: b in cluster ==> b in blocks
    ensures Connected(blocks, threshold, cluster[0], cluster[k])
  {
    if k == 0 {
      assert IsChain(blocks, threshold, [cluster[0]], cluster[0], cluster[0]);
    } else {
      assert NearSome(cluster[..k], cluster[k], threshold);
      var j :| 0 <= j < k && Near(cluster[..k][j], cluster[k], threshold);
      LinkedReachesFirst(blocks, threshold, cluster, j);
      ChainAppend(blocks, threshold, cluster[0], cluster[j], cluster[k]);
    }
  }

  lemma LinkedIsConnected(
      blocks: seq<ImageBlock>, threshold: real, cluster: seq<ImageBlock>, a: ImageBlock, b: ImageBlock)
    requires Linked(cluster, threshold) && a in cluster && b in cluster
    requires forall c :: c in cluster ==> c in blocks
    ensures Connected(blocks, threshold, a, b)
  {
    var i :| 0 <= i < |cluster| && cluster[i] == a;
    var j :| 0 <= j < |cluster| && cluster[j] == b;
    LinkedReachesFirst(blocks, threshold, cluster, i);
    LinkedReachesFirst(blocks, threshold, cluster, j);
    var chain :| IsChain(blocks, threshold, chain, cluster[0], a);
    ConnectedIsSymmetric(blocks, threshold, chain, cluster[0], a);
    ConnectedIsTransitive(blocks, threshold, a, cluster[0], b);
  }

  lemma DifferentClustersAreFar(
      clusters: seq<FigureCluster>, threshold: real, k: nat, a: ImageBlock, m: nat, b: ImageBlock)
    requires k < |clusters| && m < |clusters| && k != m && WellSeparated(clusters, threshold) && threshold > 0.0
    requires a in clusters[k].blocks && b in clusters[m].blocks && Upright(a) && Upright(b)
    ensures !Near(a, b, threshold)
  {
    if k < m {
      assert Apart(clusters[k].blocks, clusters[m].blocks, threshold);
    } else {
      assert Apart(clusters[m].blocks, clusters[k].blocks, threshold);
    }
  }

  /** A step of `Near` never leaves a cluster, so neither does a chain. */
  lemma {:induction false} ChainStaysInCluster(
      clusters: seq<FigureCluster>, blocks: seq<ImageBlock>, threshold: real, chain: seq<ImageBlock>,
      a: ImageBlock, b: ImageBlock, k: nat)
    requires k < |clusters| && a in clusters[k].blocks
    requires threshold > 0.0 && WellSeparated(clusters, threshold)
    requires forall c :: c in blocks ==> c in Members(clusters) && Upright(c)
    requires IsChain(blocks, threshold, chain, a, b)
    ensures b in clusters[k].blocks
    decreases |chain|
  {
    if |chain| > 1 {
      var prior := chain[|chain| - 2];
      assert IsChain(blocks, threshold, chain[..|chain| - 1], a, prior);
      ChainStaysInCluster(clusters, blocks, threshold, chain[..|chain| - 1], a, prior, k);
      MembersAreClustered(clusters, b);
      var m :| 0 <= m < |clusters| && b in clusters[m].blocks;
      if k != m {
        DifferentClustersAreFar(clusters, threshold, k, prior, m, b);
      }
    }
  }

  lemma ComponentsAreClusters(
      blocks: seq<ImageBlock>, sorted: seq<ImageBlock>, clusters: seq<FigureCluster>, threshold: real)
    requires threshold > 0.0 && forall b :: b in blocks ==> Upright(b)
    requires multiset(sorted) == multiset(blocks) && Members(clusters) == sorted
    requires AllLinked(clusters, threshold) && WellSeparated(clusters, threshold)
    ensures forall a, b :: a in blocks && b in blocks ==>
      (Together(clusters, a, b) <==> Connected(blocks, threshold, a, b))
  {
    SameElements(sorted, blocks);
    forall a, b | a in blocks && b in blocks
      ensures Together(clusters, a, b) <==> Connected(blocks, threshold, a, b)
    {
      if Together(clusters, a, b) {
        var k :| 0 <= k < |clusters| && a in clusters[k].blocks && b in clusters[k].blocks;
        forall c | c in clusters[k].blocks ensures c in blocks {
          MembersAreClustered(clusters, c);
        }
        LinkedIsConnected(blocks, threshold, clusters[k].blocks, a, b);
      }
      if Connected(blocks, threshold, a, b) {
        var chain :| IsChain(blocks, threshold, chain, a, b);
        MembersAreClustered(clusters, a);
        var k :| 0 <= k < |clusters| && a in clusters[k].blocks;
        ChainStaysInCluster(clusters, blocks, threshold, chain, a, b, k);
      }
    }
  }
}
