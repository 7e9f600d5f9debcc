/** scripts/export_chapter_zh_html.py: figures made of several embedded images that share one caption. */
module PanelClusters {
  import opened ChapterBlocks
  import opened Geometry
  import opened Wrappers

  /** Where the first region of a block lies. */
  datatype Placed = Placed(page: int, box: Box)

  /** `embedded` marks an image whose type is "embedded_image", `realCaption` a caption that passes the caption test. */
  datatype Item = Item(kind: Kind, embedded: bool, realCaption: bool, placed: Option<Placed>)

  const LONGEST_WALK := 12
  const LOOKAHEAD := 6

  // ---- Specification ----------------------------------------------------------------------------

  predicate OnPage(items: seq<Item>, page: int, k: nat)
  {
    k < |items| && items[k].placed.Some? && items[k].placed.value.page == page
  }

  predicate Unplaced(items: seq<Item>, k: nat)
  {
    k < |items| && items[k].placed == None
  }

  predicate IsPanel(items: seq<Item>, page: int, k: nat)
  {
    OnPage(items, page, k) && items[k].kind == Figure && items[k].embedded
  }

  predicate IsCaption(items: seq<Item>, page: int, k: nat)
  {
    OnPage(items, page, k) && items[k].kind == Caption && items[k].realCaption
  }

  /** The look-ahead reads on past block `k`. */
  predicate ReadsPast(items: seq<Item>, page: int, k: nat)
  {
    Unplaced(items, k) || (OnPage(items, page, k) && items[k].kind == Paragraph)
  }

  /** The first block the look-ahead from `j` does not read past is a panel or the caption: it lies at `k`. */
  ghost predicate LeadsTo(items: seq<Item>, page: int, j: nat, k: nat)
  {
    && j < k < j + LOOKAHEAD && (IsPanel(items, page, k) || IsCaption(items, page, k))
    && forall m :: j < m < k ==> ReadsPast(items, page, m)
  }

  /** Paragraph `j` is text inside the figure: past paragraphs only, a panel or the caption follows soon. */
  ghost predicate IsInnerText(items: seq<Item>, page: int, j: nat)
  {
    OnPage(items, page, j) && items[j].kind == Paragraph && exists k: nat :: LeadsTo(items, page, j, k)
  }

  /** The walk goes past block `k`: it has no box, or it becomes part of the figure. */
  ghost predicate Passes(items: seq<Item>, page: int, k: nat)
  {
    Unplaced(items, k) || IsPanel(items, page, k) || IsInnerText(items, page, k)
  }

  /** A figure from its first panel `i` to its caption `c`. */
  ghost predicate IsCluster(items: seq<Item>, i: nat, c: nat)
  {
    && i < c < i + LONGEST_WALK && c < |items|
    && items[i].placed.Some? && IsPanel(items, items[i].placed.value.page, i)
    && var page := items[i].placed.value.page;
       && IsCaption(items, page, c)
       && (forall k :: i < k < c ==> Passes(items, page, k))
       && (exists k :: i < k < c && IsPanel(items, page, k))
  }

  /** The blocks a cluster absorbs: those with a box between its master and its caption. */
  ghost predicate Absorbs(items: seq<Item>, captions: map<nat, nat>, i: nat, k: nat)
  {
    i in captions && i < k < captions[i] && k < |items| && items[k].placed.Some?
  }

  /** `captions` holds the clusters by master: every cluster whose first panel no earlier cluster has absorbed. */
  ghost predicate AreClusters(items: seq<Item>, captions: map<nat, nat>)
  {
    && (forall i :: i in captions ==> IsCluster(items, i, captions[i]))
    && (forall i: nat, c: nat :: IsCluster(items, i, c) ==>
          (i in captions <==> forall m: nat :: !Absorbs(items, captions, m, i)))
  }

  /** Clusters occupy disjoint ranges of the document, each from its master to its caption. */
  lemma ClustersAreDisjoint(items: seq<Item>, captions: map<nat, nat>, i: nat, j: nat)
    requires AreClusters(items, captions) && i in captions && j in captions && i < j
    ensures captions[i] < j
  {
    assert IsCluster(items, i, captions[i]) && IsCluster(items, j, captions[j]);
    assert !Absorbs(items, captions, i, j);
    assert items[captions[i]].kind == Caption && items[j].kind == Figure;
  }

  /** A block with a box on the page, or one without a box at all. */
  predicate IsEmbedded(items: seq<Item>, page: int, k: nat)
  {
    && k < |items| && items[k].kind == Figure && items[k].embedded
    && items[k].placed.Some? && items[k].placed.value.page == page
  }

  predicate IsRealCaption(items: seq<Item>, page: int, k: nat)
  {
    && k < |items| && items[k].kind == Caption && items[k].realCaption
    && items[k].placed.Some? && items[k].placed.value.page == page
  }

  predicate IsLabel(items: seq<Item>, page: int, k: nat)
  {
    && k < |items| && items[k].kind == Paragraph
    && items[k].placed.Some? && items[k].placed.value.page == page
  }

  /** Label `j` has an embedded image or the caption within five blocks, past labels and blocks without a box only. */
  predicate IsFollowed(items: seq<Item>, page: int, j: nat)
  {
    exists k: nat :: j < k <= j + 5 && (IsEmbedded(items, page, k) || IsRealCaption(items, page, k))
      && forall m: nat :: j < m < k ==> (m < |items| && items[m].placed == None) || IsLabel(items, page, m)
  }

  /**
   * From image `i` to caption `c`, at most eleven blocks on: on one page, with another image in between, and nothing
   * else but labels inside the figure and blocks without a box.
   */
  predicate IsFigureOf(items: seq<Item>, i: nat, c: nat)
  {
    && i < |items| && items[i].placed.Some? && i < c <= i + 11
    && var page := items[i].placed.value.page;
       && IsEmbedded(items, page, i) && IsRealCaption(items, page, c)
       && (exists k: nat :: i < k < c && IsEmbedded(items, page, k))
       && forall k: nat :: i < k < c ==>
            (k < |items| && items[k].placed == None) || IsEmbedded(items, page, k)
            || (IsLabel(items, page, k) && IsFollowed(items, page, k))
  }

  lemma InnerTextIsFollowed(items: seq<Item>, page: int, j: nat)
    ensures IsInnerText(items, page, j) <==> IsLabel(items, page, j) && IsFollowed(items, page, j)
  {
    forall k: nat
      ensures LeadsTo(items, page, j, k) <==>
        (j < k <= j + 5 && (IsEmbedded(items, page, k) || IsRealCaption(items, page, k))
         && forall m: nat :: j < m < k ==> (m < |items| && items[m].placed == None) || IsLabel(items, page, m))
    {
      forall m: nat ensures ReadsPast(items, page, m) <==>
        (m < |items| && items[m].placed == None) || IsLabel(items, page, m)
      {}
    }
  }

  lemma ClusterIsFigure(items: seq<Item>, i: nat, c: nat)
    ensures IsCluster(items, i, c) <==> IsFigureOf(items, i, c)
  {
    hide IsInnerText, IsFollowed;
    forall page: int, k: nat
      ensures IsPanel(items, page, k) <==> IsEmbedded(items, page, k)
      ensures IsCaption(items, page, k) <==> IsRealCaption(items, page, k)
      ensures Passes(items, page, k) <==>
        (k < |items| && items[k].placed == None) || IsEmbedded(items, page, k)
        || (IsLabel(items, page, k) && IsFollowed(items, page, k))
    {
      InnerTextIsFollowed(items, page, k);
    }
    hide Passes, IsPanel, IsCaption, IsEmbedded, IsRealCaption, IsLabel;
    if IsFigureOf(items, i, c) {
      SameAsFigure(items, i, c);
    }
  }

  lemma SameAsFigure(items: seq<Item>, i: nat, c: nat)
    requires IsFigureOf(items, i, c)
    ensures IsCluster(items, i, c)
  {
    hide IsFollowed, IsInnerText;
    var page := items[i].placed.value.page;
    forall k: nat | i < k < c ensures Passes(items, page, k) {
      InnerTextIsFollowed(items, page, k);
    }
    var k: nat :| i < k < c && IsEmbedded(items, page, k);
    assert IsPanel(items, page, k);
  }

  /** The clusters are exactly the figures that do not begin inside another. */
  lemma ClustersExactly(items: seq<Item>, captions: map<nat, nat>, i: nat, c: nat)
    requires AreClusters(items, captions)
    ensures i in captions && captions[i] == c <==>
      IsFigureOf(items, i, c) && forall m :: m in captions ==> !(m < i < captions[m])
  {
    ClusterIsFigure(items, i, c);
    hide IsFigureOf, IsCluster;
    MastersArePlaced(items, captions);
    if IsCluster(items, i, c) {
      StartIsPlaced(items, i, c);
      forall m: nat ensures Absorbs(items, captions, m, i) <==> m in captions && m < i < captions[m] {}
      if i in captions {
        OneEnd(items, i, captions[i], c);
      }
    }
  }

  lemma StartIsPlaced(items: seq<Item>, i: nat, c: nat)
    requires IsCluster(items, i, c)
    ensures i < |items| && items[i].placed.Some?
  {}

  lemma MastersArePlaced(items: seq<Item>, captions: map<nat, nat>)
    requires AreClusters(items, captions)
    ensures forall m :: m in captions ==> IsCluster(items, m, captions[m])
  {}

  /** A cluster ends at the first caption. */
  lemma OneEnd(items: seq<Item>, i: nat, c: nat, d: nat)
    requires IsCluster(items, i, c) && IsCluster(items, i, d)
    ensures c == d
  {
    var page := items[i].placed.value.page;
    assert c < d ==> Passes(items, page, c);
    assert d < c ==> Passes(items, page, d);
  }

  /** No block belongs to two clusters, and none that is absorbed leads one. */
  lemma AbsorberIsUnique(items: seq<Item>, captions: map<nat, nat>, i: nat, j: nat, k: nat)
    requires AreClusters(items, captions) && Absorbs(items, captions, i, k) && Absorbs(items, captions, j, k)
    ensures i == j && k !in captions
  {
    if i < j {
      ClustersAreDisjoint(items, captions, i, j);
    } else if j < i {
      ClustersAreDisjoint(items, captions, j, i);
    }
    if k in captions {
      ClustersAreDisjoint(items, captions, i, k);
    }
  }

  /** Everything with a box in the range of a cluster is one of its panels or its inner text, on one page. */
  lemma RangeIsAbsorbed(items: seq<Item>, captions: map<nat, nat>, i: nat, k: nat)
    requires AreClusters(items, captions) && Absorbs(items, captions, i, k)
    ensures var page := items[i].placed.value.page;
      OnPage(items, page, k) && (IsPanel(items, page, k) || IsInnerText(items, page, k))
  {
    assert IsCluster(items, i, captions[i]);
    assert Passes(items, items[i].placed.value.page, k);
  }

  // ---- The crop ---------------------------------------------------------------------------------

  /** The bottom edge of the crop, in the code's steps: pad, clamp to the caption, restore, clamp again. */
  function CropBottom(lowest: real, captionTop: real): (bottom: real)
    ensures bottom == Min(lowest + 28.0, captionTop - 3.0)
    // The members are shown in full exactly when the caption leaves them room.
    ensures bottom >= lowest <==> captionTop - 3.0 >= lowest
  {
    var limit := captionTop - 3.0;
    var padded := Min(lowest + 28.0, limit);
    var restored := Max(padded, lowest + 4.0);
    if limit < restored then limit else restored
  }

  function BoxAt(items: seq<Item>, k: nat): Box
    requires k < |items| && items[k].placed.Some?
  {
    items[k].placed.value.box
  }

  predicate AllPlaced(items: seq<Item>, members: seq<nat>)
  {
    |members| > 0 && forall m :: 0 <= m < |members| ==> members[m] < |items| && items[members[m]].placed.Some?
  }

  /** The smallest box around the members. */
  function Hull(items: seq<Item>, members: seq<nat>): (hull: Box)
    requires AllPlaced(items, members)
    ensures forall m :: 0 <= m < |members| ==> var box := BoxAt(items, members[m]);
      hull.x0 <= box.x0 && hull.y0 <= box.y0 && box.x1 <= hull.x1 && box.y1 <= hull.y1
    ensures exists m :: 0 <= m < |members| && BoxAt(items, members[m]).x0 == hull.x0
    ensures exists m :: 0 <= m < |members| && BoxAt(items, members[m]).y0 == hull.y0
    ensures exists m :: 0 <= m < |members| && BoxAt(items, members[m]).x1 == hull.x1
    ensures exists m :: 0 <= m < |members| && BoxAt(items, members[m]).y1 == hull.y1
  {
    var last := BoxAt(items, members[|members| - 1]);
    if |members| == 1 then last
    else
      var rest := Hull(items, members[..|members| - 1]);
      Box(Min(rest.x0, last.x0), Min(rest.y0, last.y0), Max(rest.x1, last.x1), Max(rest.y1, last.y1))
  }

  function Crop(items: seq<Item>, members: seq<nat>, captionTop: real): Box
    requires AllPlaced(items, members)
  {
    var hull := Hull(items, members);
    Box(hull.x0 - 12.0, hull.y0 - 12.0, hull.x1 + 12.0, CropBottom(hull.y1, captionTop))
  }

  /** A crop never reaches into the caption, and shows a member to its bottom edge if the caption lies below it. */
  lemma CropShowsMembers(items: seq<Item>, members: seq<nat>, captionTop: real, m: nat)
    requires AllPlaced(items, members) && m < |members|
    ensures var crop := Crop(items, members, captionTop); var box := BoxAt(items, members[m]);
      && crop.y1 < captionTop
      && crop.x0 < box.x0 && crop.y0 < box.y0 && box.x1 < crop.x1
      && (captionTop - 3.0 >= box.y1 ==> crop.y1 >= box.y1)
  {}

  /** The crop in points: twelve around the members to the left, above and to the right, and the least of two below. */
  lemma CropInPoints(items: seq<Item>, members: seq<nat>, captionTop: real)
    requires AllPlaced(items, members)
    ensures var crop := Crop(items, members, captionTop);
      && (forall m :: 0 <= m < |members| ==> var box := BoxAt(items, members[m]);
            crop.x0 <= box.x0 - 12.0 && crop.y0 <= box.y0 - 12.0 && box.x1 + 12.0 <= crop.x1
            && crop.y1 <= captionTop - 3.0)
      && (exists m :: 0 <= m < |members| && crop.x0 == BoxAt(items, members[m]).x0 - 12.0)
      && (exists m :: 0 <= m < |members| && crop.y0 == BoxAt(items, members[m]).y0 - 12.0)
      && (exists m :: 0 <= m < |members| && crop.x1 == BoxAt(items, members[m]).x1 + 12.0)
      && (crop.y1 == captionTop - 3.0
          || exists m :: 0 <= m < |members| && crop.y1 == BoxAt(items, members[m]).y1 + 28.0 <= captionTop - 3.0)
  {}

  // ---- The pass ---------------------------------------------------------------------------------

  lemma LookAheadDecides(items: seq<Item>, page: int, j: nat, k: nat)
    requires OnPage(items, page, j) && items[j].kind == Paragraph && j < k
    requires forall m :: j < m < k ==> ReadsPast(items, page, m)
    ensures (k < j + LOOKAHEAD && !ReadsPast(items, page, k)) || k >= j + LOOKAHEAD || k >= |items| ==>
      (IsInnerText(items, page, j) <==> LeadsTo(items, page, j, k))
  {
    if !ReadsPast(items, page, k) || k >= j + LOOKAHEAD {
      forall d: nat | LeadsTo(items, page, j, d) ensures d == k {
        assert !ReadsPast(items, page, d);
      }
    }
  }

  /** The look-ahead that tells inner text from body prose. */
  method LooksInner(items: seq<Item>, page: int, j: nat) returns (inner: bool)
    requires OnPage(items, page, j) && items[j].kind == Paragraph
    ensures inner <==> IsInnerText(items, page, j)
  {
    var stop := if j + LOOKAHEAD < |items| then j + LOOKAHEAD else |items|;
    var k := j + 1;
    while k < stop
      invariant j < k <= j + LOOKAHEAD && k <= |items|
      invariant forall m :: j < m < k ==> ReadsPast(items, page, m)
    {
      LookAheadDecides(items, page, j, k);
      if items[k].placed == None {
        k := k + 1;
        continue;
      }
      if items[k].placed.value.page != page {
        return false;
      }
      if items[k].kind == Figure {
        return items[k].embedded;
      }
      if items[k].kind == Caption {
        return items[k].realCaption;
      }
      if items[k].kind != Paragraph {
        return false;
      }
      k := k + 1;
    }
    LookAheadDecides(items, page, j, k);
    return false;
  }

  /** Block `i` and the blocks with a box between `i` and `j`: a cluster's members when `j` is its caption. */
  ghost predicate AreMembers(items: seq<Item>, i: nat, j: nat, panels: seq<nat>, texts: seq<nat>)
  {
    && |panels| > 0 && panels[0] == i
    && forall k: nat :: k in panels || k in texts <==> k == i || (i < k < j && k < |items| && items[k].placed.Some?)
  }

  /** The state of the walk before block `j`. */
  ghost predicate Walking(items: seq<Item>, page: int, i: nat, j: nat, panels: seq<nat>, texts: seq<nat>)
  {
    && i < j <= i + LONGEST_WALK && j <= |items|
    && AreMembers(items, i, j, panels, texts)
    && (forall k :: i < k < j ==> Passes(items, page, k))
    && (|panels| >= 2 <==> exists k :: i < k < j && IsPanel(items, page, k))
  }

  lemma WalkOn(items: seq<Item>, page: int, i: nat, j: nat, panels: seq<nat>, texts: seq<nat>)
    requires Walking(items, page, i, j, panels, texts) && j < |items| && j < i + LONGEST_WALK
    ensures Unplaced(items, j) ==> Walking(items, page, i, j + 1, panels, texts)
    ensures IsPanel(items, page, j) ==> Walking(items, page, i, j + 1, panels + [j], texts)
    ensures IsInnerText(items, page, j) ==> Walking(items, page, i, j + 1, panels, texts + [j])
  {
    if IsPanel(items, page, j) {
      assert i < j < j + 1;
    }
  }

  lemma WalkStops(items: seq<Item>, page: int, i: nat, j: nat, panels: seq<nat>, texts: seq<nat>, c: nat)
    requires i < |items| && items[i].placed.Some? && page == items[i].placed.value.page && IsPanel(items, page, i)
    requires Walking(items, page, i, j, panels, texts)
    requires j < |items| && j < i + LONGEST_WALK ==> !Passes(items, page, j)
    ensures IsCluster(items, i, c) <==> c == j && j < i + LONGEST_WALK && IsCaption(items, page, j) && |panels| >= 2
  {
    if IsCluster(items, i, c) {
      assert !Passes(items, page, c);
    }
  }

  /** The walk from a first panel: its caption if it reaches one, and the blocks it took in. */
  method WalkCluster(items: seq<Item>, i: nat) returns (caption: Option<nat>, panels: seq<nat>, texts: seq<nat>)
    requires i < |items| && items[i].placed.Some? && IsPanel(items, items[i].placed.value.page, i)
    ensures forall c: nat :: caption == Some(c) && |panels| >= 2 <==> IsCluster(items, i, c)
    ensures caption.Some? ==> AreMembers(items, i, caption.value, panels, texts)
  {
    var page := items[i].placed.value.page;
    panels, texts, caption := [i], [], None;
    var j := i + 1;
    while j < |items| && j < i + LONGEST_WALK
      invariant Walking(items, page, i, j, panels, texts) && caption == None
    {
      WalkOn(items, page, i, j, panels, texts);
      var nb := items[j];
      if nb.placed == None {
        j := j + 1;
        continue;
      }
      if nb.placed.value.page != page {
        break;
      }
      if nb.kind == Caption {
        if nb.realCaption {
          caption := Some(j);
        }
        break;
      }
      if nb.kind == Figure {
        if nb.embedded {
          panels := panels + [j];
        } else {
          break;
        }
      } else if nb.kind == Paragraph {
        var inner := LooksInner(items, page, j);
        if inner {
          texts := texts + [j];
        } else {
          break;
        }
      } else {
        break;
      }
      j := j + 1;
    }
    forall c: nat ensures caption == Some(c) && |panels| >= 2 <==> IsCluster(items, i, c) {
      WalkStops(items, page, i, j, panels, texts, c);
    }
  }

  /** The clusters whose master lies before `i` are found; `absorbed` are the blocks they swallow. */
  ghost predicate FoundSoFar(items: seq<Item>, captions: map<nat, nat>, i: nat, absorbed: set<nat>)
  {
    && (forall m :: m in captions ==> m < i && IsCluster(items, m, captions[m]))
    && (forall m: nat, c: nat :: m < i && IsCluster(items, m, c) ==> (m in captions <==> m !in absorbed))
    && (forall k: nat :: k in absorbed <==> exists m: nat :: Absorbs(items, captions, m, k))
  }

  lemma FoundOne(items: seq<Item>, captions: map<nat, nat>, i: nat, c: nat, absorbed: set<nat>, members: set<nat>)
    requires FoundSoFar(items, captions, i, absorbed) && IsCluster(items, i, c) && i !in absorbed
    requires forall k: nat :: k in members <==> i < k < c && k < |items| && items[k].placed.Some?
    ensures FoundSoFar(items, captions[i := c], i + 1, absorbed + members)
  {
    var captions' := captions[i := c];
    forall m: nat, k: nat
      ensures Absorbs(items, captions', m, k) <==> Absorbs(items, captions, m, k) || (m == i && k in members)
    {}
    forall k: nat ensures k in absorbed + members <==> exists m: nat :: Absorbs(items, captions', m, k) {
      if k in absorbed {
        var m: nat :| Absorbs(items, captions, m, k);
        assert Absorbs(items, captions', m, k);
      }
      if k in members {
        assert Absorbs(items, captions', i, k);
      }
    }
    forall m: nat, d: nat | m < i + 1 && IsCluster(items, m, d) ensures m in captions' <==> m !in absorbed + members {}
  }

  lemma FoundNone(items: seq<Item>, captions: map<nat, nat>, i: nat, absorbed: set<nat>)
    requires FoundSoFar(items, captions, i, absorbed) && (i in absorbed || forall c: nat :: !IsCluster(items, i, c))
    ensures FoundSoFar(items, captions, i + 1, absorbed)
  {}

  /** `members` lists the blocks of the cluster from `i` to its caption `c`, and `crop` is the region to render. */
  ghost predicate IsCropOf(items: seq<Item>, i: nat, c: nat, members: seq<nat>, crop: Box)
  {
    && IsCluster(items, i, c) && AreMembers(items, i, c, members, []) && AllPlaced(items, members)
    && crop == Crop(items, members, BoxAt(items, c).y0)
  }

  ghost predicate IsClusterCrop(items: seq<Item>, i: nat, c: nat, crop: Box)
  {
    exists members :: IsCropOf(items, i, c, members, crop)
  }

  ghost predicate AreCrops(items: seq<Item>, captions: map<nat, nat>, crops: map<nat, Box>)
  {
    && crops.Keys == captions.Keys
    && forall i :: i in captions ==> IsClusterCrop(items, i, captions[i], crops[i])
  }

  lemma MembersArePlaced(items: seq<Item>, i: nat, c: nat, panels: seq<nat>, texts: seq<nat>)
    requires IsCluster(items, i, c) && AreMembers(items, i, c, panels, texts)
    ensures AreMembers(items, i, c, panels + texts, []) && AllPlaced(items, panels + texts)
    ensures forall k: nat :: k in (set m | m in panels + texts) - {i} <==>
      i < k < c && k < |items| && items[k].placed.Some?
  {
    var members := panels + texts;
    forall k: nat ensures k in members <==> k in panels || k in texts {}
    forall m | 0 <= m < |members| ensures members[m] < |items| && items[members[m]].placed.Some? {
      assert members[m] in members;
    }
  }

  lemma OneMoreCrop(
      items: seq<Item>, captions: map<nat, nat>, crops: map<nat, Box>, i: nat, c: nat, members: seq<nat>, crop: Box)
    requires AreCrops(items, captions, crops) && IsCropOf(items, i, c, members, crop)
    ensures AreCrops(items, captions[i := c], crops[i := crop])
  {
    hide IsCropOf;
    assert IsClusterCrop(items, i, c, crop);
  }

  /**
   * Finds all clusters. `skip` are the blocks absorbed by them, which the render loop leaves to the master;
   * `crops` is the region each master renders.
   */
  method DetectClusters(items: seq<Item>) returns (captions: map<nat, nat>, crops: map<nat, Box>, skip: set<nat>)
    ensures AreClusters(items, captions)
    ensures forall k: nat :: k in skip <==> exists m: nat :: Absorbs(items, captions, m, k)
    ensures AreCrops(items, captions, crops)
  {
    hide Crop, IsCluster, Absorbs, AllPlaced, AreMembers, IsClusterCrop, AreCrops;
    captions, crops, skip := map[], map[], {};
    NothingFound(items);
    for i := 0 to |items|
      invariant FoundSoFar(items, captions, i, skip)
      invariant AreCrops(items, captions, crops)
    {
      if i in skip || items[i].kind != Figure || !items[i].embedded || items[i].placed == None {
        NoMasterHere(items, i);
        FoundNone(items, captions, i, skip);
        continue;
      }
      var caption, panels, texts := WalkCluster(items, i);
      if |panels| < 2 || caption == None {
        FoundNone(items, captions, i, skip);
        continue;
      }
      var c := caption.value;
      var members := panels + texts;
      assert IsCluster(items, i, c);
      MembersArePlaced(items, i, c, panels, texts);
      CaptionIsPlaced(items, i, c);
      FoundOne(items, captions, i, c, skip, (set k | k in members) - {i});
      var crop := Crop(items, members, BoxAt(items, c).y0);
      assert IsCropOf(items, i, c, members, crop);
      OneMoreCrop(items, captions, crops, i, c, members, crop);
      captions, crops := captions[i := c], crops[i := crop];
      skip := skip + ((set k | k in members) - {i});
    }
    AllFound(items, captions, skip);
  }

  lemma NothingFound(items: seq<Item>)
    ensures FoundSoFar(items, map[], 0, {}) && AreCrops(items, map[], map[])
  {}

  lemma NoMasterHere(items: seq<Item>, i: nat)
    requires i < |items|
    ensures items[i].kind != Figure || !items[i].embedded || items[i].placed == None ==>
      forall c: nat :: !IsCluster(items, i, c)
  {}

  lemma CaptionIsPlaced(items: seq<Item>, i: nat, c: nat)
    requires IsCluster(items, i, c)
    ensures c < |items| && items[c].placed.Some?
  {}

  lemma AllFound(items: seq<Item>, captions: map<nat, nat>, absorbed: set<nat>)
    requires FoundSoFar(items, captions, |items|, absorbed)
    ensures AreClusters(items, captions)
    ensures forall k: nat :: k in absorbed <==> exists m: nat :: Absorbs(items, captions, m, k)
  {
    forall i: nat, c: nat | IsCluster(items, i, c) ensures i < |items| {}
  }
}
