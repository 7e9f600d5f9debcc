/**
 * scripts/export_chapter_zh_html.py: which caption is printed where. Five passes write the dictionary of fallback
 * captions and the set of consumed ones: the parser's links, the pairing of unlinked figures, two that take
 * sidebars for what they are, and the panel clusters, which bind a caption without asking whether it is consumed.
 * The render loop prints a caption block unless it is consumed, and below each figure it renders one text.
 */
module FigureCaptions {
  import opened ChapterBlocks
  import opened Geometry
  import opened Wrappers
  import Captions
  import PanelClusters

  datatype ImageType = Embedded | Vector | OtherImage

  /**
   * What the caption passes ask of a block. `anchor` is its own anchor and `linkedTo` the anchor of the caption
   * that the parser has linked to it, each empty if there is none. `realCaption` says that its text passes the caption
   * test, `translated` that it has a translation with something visible in it, `ownAlt` that the stored image
   * brings a text of its own that passes the caption test. `page` and `box` are those of the first region.
   */
  datatype Item = Item(
    kind: Kind, image: ImageType, anchor: string, linkedTo: string, realCaption: bool, translated: bool, ownAlt: bool,
    page: Option<int>, box: Option<Box>, ordinal: int)
  {
    function Placed(): Option<PanelClusters.Placed>
    {
      if page.Some? && box.Some? then Some(PanelClusters.Placed(page.value, box.value)) else None
    }

    /** The block as the pairing pass sees it: a figure takes part unless it has a link, good or bad. */
    function ToPair(): Captions.Item
    {
      Captions.Item(kind == Figure && linkedTo == "", kind == Caption && realCaption, page, ordinal)
    }

    /** The block as the cluster pass sees it. */
    function ToCluster(): PanelClusters.Item
    {
      PanelClusters.Item(kind, image == Embedded, realCaption, Placed())
    }
  }

  function ForPairing(items: seq<Item>): (r: seq<Captions.Item>)
    ensures |r| == |items| && forall k :: 0 <= k < |items| ==> r[k] == items[k].ToPair()
  {
    seq(|items|, k requires 0 <= k < |items| => items[k].ToPair())
  }

  function ForClusters(items: seq<Item>): (r: seq<PanelClusters.Item>)
    ensures |r| == |items| && forall k :: 0 <= k < |items| ==> r[k] == items[k].ToCluster()
  {
    seq(|items|, k requires 0 <= k < |items| => items[k].ToCluster())
  }

  // ---- The parser's links -----------------------------------------------------------------------

  predicate Carries(items: seq<Item>, anchor: string, c: nat)
  {
    anchor != "" && c < |items| && items[c].kind == Caption && items[c].anchor == anchor
  }

  /** Of several captions with one anchor the index keeps the last. */
  ghost predicate IsIndex(items: seq<Item>, index: map<string, nat>)
  {
    && (forall a :: a in index ==> Carries(items, a, index[a]))
    && (forall a, c: nat :: Carries(items, a, c) ==> a in index && c <= index[a])
  }

  method IndexCaptions(items: seq<Item>) returns (index: map<string, nat>)
    ensures IsIndex(items, index)
  {
    index := map[];
    for n := 0 to |items|
      invariant forall a :: a in index ==> index[a] < n && Carries(items, a, index[a])
      invariant forall a, c: nat :: c < n && Carries(items, a, c) ==> a in index && c <= index[a]
    {
      if items[n].kind == Caption && items[n].anchor != "" {
        index := index[items[n].anchor := n];
      }
    }
  }

  /** The caption linked to figure `f`; a link to a text that is no real caption is rejected. */
  function Linked(items: seq<Item>, index: map<string, nat>, f: nat): Option<nat>
  {
    if f < |items| && items[f].kind == Figure && items[f].linkedTo in index
       && index[items[f].linkedTo] < |items| && items[index[items[f].linkedTo]].realCaption
    then Some(index[items[f].linkedTo]) else None
  }

  ghost predicate AreLinked(items: seq<Item>, index: map<string, nat>, linked: set<nat>)
  {
    forall c: nat :: c in linked <==> exists f: nat :: Linked(items, index, f) == Some(c)
  }

  method LinkPass(items: seq<Item>, index: map<string, nat>) returns (consumed: set<nat>)
    ensures AreLinked(items, index, consumed)
  {
    consumed := {};
    for n := 0 to |items|
      invariant forall c: nat :: c in consumed <==> exists f: nat :: f < n && Linked(items, index, f) == Some(c)
    {
      var link := Linked(items, index, n);
      if link.Some? {
        consumed := consumed + {link.value};
      }
    }
    assert forall f: nat, c: nat :: Linked(items, index, f) == Some(c) ==> f < |items|;
  }

  // ---- Sidebars taken for figures ---------------------------------------------------------------

  /** Another figure stands within two ordinals on the same page. */
  ghost predicate HasSibling(items: seq<Item>, f: nat)
    requires f < |items|
  {
    exists g: nat :: IsSibling(items, f, g)
  }

  predicate IsSibling(items: seq<Item>, f: nat, g: nat)
    requires f < |items|
  {
    g < |items| && g != f && items[g].kind == Figure && items[g].page == items[f].page
    && -2 <= items[g].ordinal - items[f].ordinal <= 2
  }

  /** A drawing on a known page without caption and without siblings. */
  ghost predicate IsIsolated(items: seq<Item>, index: map<string, nat>, pairs: map<nat, nat>, f: nat)
  {
    && f < |items| && items[f].kind == Figure && f !in pairs && Linked(items, index, f) == None
    && items[f].image == Vector && items[f].page.Some? && !HasSibling(items, f)
  }

  method FindIsolated(items: seq<Item>, index: map<string, nat>, pairs: map<nat, nat>) returns (isolated: set<nat>)
    ensures forall f: nat :: f in isolated <==> IsIsolated(items, index, pairs, f)
  {
    isolated := {};
    for n := 0 to |items|
      invariant forall f: nat :: f in isolated <==> f < n && IsIsolated(items, index, pairs, f)
    {
      if items[n].kind != Figure || n in pairs || Linked(items, index, n).Some?
         || items[n].image != Vector || items[n].page == None {
        continue;
      }
      var sibling := false;
      for g := 0 to |items|
        invariant sibling <==> exists h: nat :: h < g && IsSibling(items, n, h)
      {
        if IsSibling(items, n, g) {
          sibling := true;
        }
      }
      assert sibling <==> HasSibling(items, n) by {
        assert forall h: nat :: IsSibling(items, n, h) ==> h < |items|;
      }
      if !sibling {
        isolated := isolated + {n};
      }
    }
  }

  /** At least four fifths of box `b` lie inside `fig`. */
  predicate LiesInside(fig: Box, b: Box)
  {
    var x0, y0, x1, y1 := Max(fig.x0, b.x0), Max(fig.y0, b.y0), Min(fig.x1, b.x1), Min(fig.y1, b.y1);
    x0 < x1 && y0 < y1 && (x1 - x0) * (y1 - y0) >= 0.8 * Max(1.0, (b.x1 - b.x0) * (b.y1 - b.y0))
  }

  predicate IsContained(items: seq<Item>, f: nat, k: nat)
    requires f < |items| && items[f].box.Some?
  {
    && k < |items| && items[k].kind == Paragraph && items[k].page == items[f].page && items[k].box.Some?
    && LiesInside(items[f].box.value, items[k].box.value)
  }

  function Gap(a: real, b: real): real { if a >= b then a - b else b - a }

  /** The caption lies within 40 points of the figure's top or bottom edge. */
  predicate IsClose(fig: Box, caption: Option<Box>)
  {
    caption.Some? && Min(Gap(caption.value.y0, fig.y1), Gap(fig.y0, caption.value.y1)) <= 40.0
  }

  /**
   * Above the caption there is room for the figure that the parser has missed. The bottom of that crop is the
   * caption's top less 4: labels end above the caption, so that the branch for lower ones is never taken.
   */
  predicate HasRoom(caption: Option<Box>)
  {
    caption.Some? && Max(55.0 + 30.0, caption.value.y0 - 4.0) - 55.0 >= 60.0
  }

  function BoxOf(items: seq<Item>, c: Option<nat>): Option<Box>
  {
    if c.Some? && c.value < |items| then items[c.value].box else None
  }

  /**
   * A tall box around two paragraphs, whose caption is far away and leaves no room for another crop. `held` is
   * its fallback caption.
   */
  ghost predicate IsMisdetected(items: seq<Item>, index: map<string, nat>, held: Option<nat>, f: nat)
  {
    && f < |items| && items[f].kind == Figure && Linked(items, index, f) == None && items[f].box.Some?
    && var box := items[f].box.value;
       && box.y1 - box.y0 >= 50.0
       && !IsClose(box, BoxOf(items, held)) && !HasRoom(BoxOf(items, held))
       && exists j: nat, k: nat :: j < k && IsContained(items, f, j) && IsContained(items, f, k)
  }

  method HoldsTwo(items: seq<Item>, f: nat) returns (two: bool)
    requires f < |items| && items[f].box.Some?
    ensures two <==> exists j: nat, k: nat :: j < k && IsContained(items, f, j) && IsContained(items, f, k)
  {
    var contained := 0;
    for n := 0 to |items|
      invariant contained >= 0
      invariant contained >= 1 <==> exists k: nat :: k < n && IsContained(items, f, k)
      invariant contained >= 2 <==>
        exists j: nat, k: nat :: j < k < n && IsContained(items, f, j) && IsContained(items, f, k)
    {
      if IsContained(items, f, n) {
        contained := contained + 1;
      }
    }
    assert forall k: nat :: IsContained(items, f, k) ==> k < |items|;
    two := contained >= 2;
  }

  method Misdetected(items: seq<Item>, index: map<string, nat>, held: Option<nat>, f: nat) returns (wrong: bool)
    requires f < |items|
    ensures wrong <==> IsMisdetected(items, index, held, f)
  {
    if items[f].kind != Figure || Linked(items, index, f).Some? || items[f].box == None {
      return false;
    }
    var box := items[f].box.value;
    if box.y1 - box.y0 < 50.0 {
      return false;
    }
    if held.Some? && IsClose(box, BoxOf(items, held)) {
      return false;
    }
    var two := HoldsTwo(items, f);
    return two && !HasRoom(BoxOf(items, held));
  }

  // ---- The state the passes leave ---------------------------------------------------------------

  /** What stands below a figure. */
  datatype Alt = Nothing | OwnText | CaptionText(caption: nat)

  predicate IsTranslated(items: seq<Item>, c: nat) { c < |items| && items[c].translated }

  function At(m: map<nat, nat>, f: nat): Option<nat> { if f in m then Some(m[f]) else None }

  /**
   * `linked` are the captions consumed by links, `pairs` the pairing, `captions` and `absorbed` the clusters,
   * `sidebars` the figures that are suppressed; `fallback` and `consumed` are what the render loop consults.
   */
  datatype Plan = Plan(
    items: seq<Item>, index: map<string, nat>, linked: set<nat>, pairs: map<nat, nat>, captions: map<nat, nat>,
    absorbed: set<nat>, sidebars: set<nat>, fallback: map<nat, nat>, consumed: set<nat>)
  {
    function Link(f: nat): Option<nat> { Linked(items, index, f) }

    /** The dictionary before the last pass: a cluster's master has the cluster's caption. */
    function Assigned(): map<nat, nat> { pairs + captions }

    ghost predicate IsSidebar(f: nat)
    {
      IsIsolated(items, index, pairs, f) || IsMisdetected(items, index, At(Assigned(), f), f)
    }

    /** A suppressed figure gives its caption free. */
    ghost predicate IsFreed(c: nat)
    {
      exists f: nat :: f in sidebars && At(Assigned(), f) == Some(c)
    }

    ghost predicate IsClaimed(c: nat)
    {
      c in linked || c in pairs.Values || c in captions.Values
    }

    ghost predicate IsPlan()
    {
      && IsIndex(items, index) && AreLinked(items, index, linked)
      && Captions.IsGreedyPairing(ForPairing(items), pairs, linked)
      && PanelClusters.AreClusters(ForClusters(items), captions)
      && (forall k: nat :: k in absorbed <==>
           exists m: nat :: PanelClusters.Absorbs(ForClusters(items), captions, m, k))
      && (forall f: nat :: f in sidebars <==> IsSidebar(f))
      && fallback == Assigned() - sidebars
      && (forall c: nat :: c in consumed <==> IsClaimed(c) && !IsFreed(c))
    }

    /** The text below figure `f`: a translated caption, the image's own text, a caption in the source language. */
    function AltOf(f: nat): Alt
    {
      var link, held := Link(f), At(fallback, f);
      if link.Some? && IsTranslated(items, link.value) then CaptionText(link.value)
      else if held.Some? && IsTranslated(items, held.value) then CaptionText(held.value)
      else if f < |items| && items[f].ownAlt then OwnText
      else if link.Some? then CaptionText(link.value)
      else if held.Some? && held.value < |items| && items[held.value].realCaption then CaptionText(held.value)
      else Nothing
    }

    /** The loop renders the figure, panels of a cluster and sidebars excepted. */
    predicate IsRendered(f: nat)
    {
      f < |items| && items[f].kind == Figure && f !in absorbed && f !in sidebars
    }

    /** Caption `c` is printed below figure `f`. */
    predicate Shows(f: nat, c: nat)
    {
      IsRendered(f) && AltOf(f) == CaptionText(c)
    }

    /** Figure `f` has the caption it is linked to below it. */
    predicate ShowsLink(f: nat)
    {
      var link, held := Link(f), At(fallback, f);
      && f < |items| && link.Some?
      && (IsTranslated(items, link.value)
          || (!items[f].ownAlt && !(held.Some? && IsTranslated(items, held.value))))
    }

    /** Figure `f` has its fallback caption below it. */
    predicate ShowsFallback(f: nat)
    {
      f in fallback && !ShowsLink(f) && PrefersCaption(f, fallback[f])
    }

    /** Caption `c` would be printed below figure `f` in preference to the image's own text. */
    predicate PrefersCaption(f: nat, c: nat)
    {
      IsTranslated(items, c) || (f < |items| && !items[f].ownAlt)
    }

    /** Caption `c` is printed as a block of its own, as far as it has a text. */
    predicate IsBlock(c: nat)
    {
      c < |items| && items[c].kind == Caption && c !in consumed
    }

    ghost predicate IsShown(c: nat)
    {
      exists f: nat :: Shows(f, c)
    }
  }

  // ---- The passes, and the loop -----------------------------------------------------------------

  /** The last pass has looked at the figures before `n`. */
  ghost predicate SuppressedSoFar(before: Plan, now: Plan, n: nat)
  {
    && now == before.(sidebars := now.sidebars, fallback := now.fallback, consumed := now.consumed)
    && (forall f: nat :: f in now.sidebars <==>
         f in before.sidebars || (f < n && IsMisdetected(before.items, before.index, At(before.Assigned(), f), f)))
    && now.fallback == before.Assigned() - now.sidebars
    && (forall c: nat :: c in now.consumed <==> now.IsClaimed(c) && !now.IsFreed(c))
  }

  method SuppressSidebars(before: Plan) returns (plan: Plan)
    requires SuppressedSoFar(before, before, 0)
    ensures SuppressedSoFar(before, plan, |before.items|)
  {
    plan := before;
    for n := 0 to |before.items|
      invariant SuppressedSoFar(before, plan, n)
    {
      if n in plan.sidebars {
        continue;
      }
      var held := At(plan.fallback, n);
      var wrong := Misdetected(plan.items, plan.index, held, n);
      if wrong {
        ghost var was := plan;
        plan := plan.(sidebars := plan.sidebars + {n});
        if held.Some? {
          plan := plan.(fallback := plan.fallback - {n}, consumed := plan.consumed - {held.value});
        }
        SuppressOne(before, was, plan, n);
      }
    }
  }

  lemma SuppressOne(before: Plan, was: Plan, now: Plan, n: nat)
    requires SuppressedSoFar(before, was, n) && n !in was.sidebars
    requires IsMisdetected(before.items, before.index, At(before.Assigned(), n), n)
    requires var held := At(was.fallback, n);
      now == was.(
        sidebars := was.sidebars + {n}, fallback := was.fallback - {n},
        consumed := if held.Some? then was.consumed - {held.value} else was.consumed)
      || (held == None && now == was.(sidebars := was.sidebars + {n}))
    ensures SuppressedSoFar(before, now, n + 1)
  {
    hide IsMisdetected;
    var held := At(was.fallback, n);
    assert held == At(before.Assigned(), n);
    forall c: nat ensures now.IsFreed(c) <==> was.IsFreed(c) || held == Some(c) {
      if was.IsFreed(c) {
        var f: nat :| f in was.sidebars && At(was.Assigned(), f) == Some(c);
        assert f in now.sidebars;
      }
      if held == Some(c) {
        assert n in now.sidebars && At(now.Assigned(), n) == Some(c);
      }
    }
    assert now.fallback == before.Assigned() - now.sidebars;
  }

  method PlanFigures(items: seq<Item>) returns (plan: Plan)
    ensures plan.items == items && plan.IsPlan()
  {
    hide Captions.IsGreedyPairing, PanelClusters.AreClusters, PanelClusters.Absorbs, IsIndex, AreLinked;
    hide IsIsolated, IsMisdetected, SuppressedSoFar, Plan.IsPlan;
    var index := IndexCaptions(items);
    var linked := LinkPass(items, index);
    var pairs, consumed := Captions.PairCaptions(ForPairing(items), linked);
    var isolated := FindIsolated(items, index, pairs);
    var captions, _, absorbed := PanelClusters.DetectClusters(ForClusters(items));
    var before := Plan(
      items, index, linked, pairs, captions, absorbed, isolated, pairs + captions, consumed + captions.Values);
    IsolatedHoldNothing(before);
    plan := SuppressSidebars(before);
    AllSuppressed(before, plan);
  }

  lemma AllSuppressed(before: Plan, plan: Plan)
    requires SuppressedSoFar(before, plan, |before.items|)
    requires IsIndex(before.items, before.index) && AreLinked(before.items, before.index, before.linked)
    requires Captions.IsGreedyPairing(ForPairing(before.items), before.pairs, before.linked)
    requires PanelClusters.AreClusters(ForClusters(before.items), before.captions)
    requires forall k: nat :: k in before.absorbed <==>
      exists m: nat :: PanelClusters.Absorbs(ForClusters(before.items), before.captions, m, k)
    requires forall f: nat :: f in before.sidebars <==> IsIsolated(before.items, before.index, before.pairs, f)
    ensures plan.items == before.items && plan.IsPlan()
  {
    hide Captions.IsGreedyPairing, PanelClusters.AreClusters, PanelClusters.Absorbs, IsIndex, AreLinked;
    hide IsIsolated, Plan.IsFreed, Plan.IsClaimed;
    assert forall f: nat ::
      IsMisdetected(before.items, before.index, At(before.Assigned(), f), f) ==> f < |before.items|;
  }

  /** A drawing without caption has none after the cluster pass either, which binds captions to panels. */
  lemma IsolatedHoldNothing(before: Plan)
    requires PanelClusters.AreClusters(ForClusters(before.items), before.captions)
    requires forall f: nat :: f in before.sidebars <==> IsIsolated(before.items, before.index, before.pairs, f)
    requires before.fallback == before.Assigned()
    requires before.consumed == before.linked + before.pairs.Values + before.captions.Values
    ensures SuppressedSoFar(before, before, 0)
  {
    hide PanelClusters.AreClusters, ForClusters;
    forall m | m in before.captions ensures m !in before.sidebars {
      ClusterOf(before.items, before.captions, m);
    }
    assert before.fallback == before.Assigned() - before.sidebars;
  }

  /** A cluster is led by an embedded image and bears a real caption. */
  lemma ClusterOf(items: seq<Item>, captions: map<nat, nat>, m: nat)
    requires PanelClusters.AreClusters(ForClusters(items), captions) && m in captions
    ensures m < captions[m] < |items| && items[m].kind == Figure && items[m].image == Embedded
    ensures items[captions[m]].kind == Caption && items[captions[m]].realCaption
  {
    assert PanelClusters.IsCluster(ForClusters(items), m, captions[m]);
  }

  /** The choice of the text below a figure, in the steps of the loop. */
  method ImageAlt(plan: Plan, f: nat) returns (alt: Alt)
    requires f < |plan.items| && plan.items[f].kind == Figure
    ensures alt == plan.AltOf(f)
  {
    alt := Nothing;
    var link, held := plan.Link(f), At(plan.fallback, f);
    if link.Some? && IsTranslated(plan.items, link.value) {
      alt := CaptionText(link.value);
    }
    if alt == Nothing && held.Some? && IsTranslated(plan.items, held.value) {
      alt := CaptionText(held.value);
    }
    if alt == Nothing && plan.items[f].ownAlt {
      alt := OwnText;
    }
    if alt == Nothing {
      var source := if link.Some? then link else held;
      if source.Some? && source.value < |plan.items| && plan.items[source.value].realCaption {
        alt := CaptionText(source.value);
      }
    }
  }

  /** The loop, as far as figures go: the text below each figure it renders. */
  method RenderFigures(plan: Plan) returns (alts: map<nat, Alt>)
    ensures forall f: nat :: f in alts <==> plan.IsRendered(f)
    ensures forall f: nat :: f in alts ==> alts[f] == plan.AltOf(f)
  {
    alts := map[];
    for n := 0 to |plan.items|
      invariant forall f: nat :: f in alts <==> f < n && plan.IsRendered(f)
      invariant forall f: nat :: f in alts ==> alts[f] == plan.AltOf(f)
    {
      if plan.items[n].kind != Figure || n in plan.absorbed || n in plan.sidebars {
        continue;
      }
      var alt := ImageAlt(plan, n);
      alts := alts[n := alt];
    }
  }

  // ---- The passes in the fields of the blocks ---------------------------------------------------

  /** A link leads to the last caption with its anchor, if that is a real one. */
  lemma LinkedExactly(items: seq<Item>, index: map<string, nat>, f: nat, c: nat)
    requires IsIndex(items, index)
    ensures Linked(items, index, f) == Some(c) <==>
      && f < |items| && items[f].kind == Figure && items[f].linkedTo != ""
      && c < |items| && items[c].kind == Caption && items[c].anchor == items[f].linkedTo && items[c].realCaption
      && forall d :: c < d < |items| && items[d].kind == Caption ==> items[d].anchor != items[f].linkedTo
  {
    if f < |items| {
      var a := items[f].linkedTo;
      assert a in index ==> Carries(items, a, index[a]);
      assert forall d: nat :: d < |items| && items[d].kind == Caption && items[d].anchor == a && a != "" ==>
        Carries(items, a, d);
    }
  }

  /** A sidebar of the first kind: a drawing without caption and without another figure within two ordinals. */
  lemma IsolatedExactly(items: seq<Item>, index: map<string, nat>, pairs: map<nat, nat>, f: nat)
    ensures IsIsolated(items, index, pairs, f) <==>
      && f < |items| && items[f].kind == Figure && items[f].image == Vector && items[f].page.Some?
      && f !in pairs && Linked(items, index, f) == None
      && forall g :: 0 <= g < |items| && g != f && items[g].kind == Figure && items[g].page == items[f].page ==>
           items[g].ordinal > items[f].ordinal + 2 || items[g].ordinal < items[f].ordinal - 2
  {
    if f < |items| {
      forall g: nat ensures IsSibling(items, f, g) <==>
        g < |items| && g != f && items[g].kind == Figure && items[g].page == items[f].page
        && !(items[g].ordinal > items[f].ordinal + 2 || items[g].ordinal < items[f].ordinal - 2)
      {}
    }
  }

  /** Four fifths of the paragraph's box, or of one point, lie within the figure's. */
  predicate IsWithin(fig: Box, b: Box)
  {
    var left, top := if fig.x0 >= b.x0 then fig.x0 else b.x0, if fig.y0 >= b.y0 then fig.y0 else b.y0;
    var right, bottom := if fig.x1 <= b.x1 then fig.x1 else b.x1, if fig.y1 <= b.y1 then fig.y1 else b.y1;
    var area := (b.x1 - b.x0) * (b.y1 - b.y0);
    left < right && top < bottom && (right - left) * (bottom - top) >= 0.8 * (if area >= 1.0 then area else 1.0)
  }

  /** The paragraph lies on the figure's page, and within its box. */
  predicate IsLabelIn(items: seq<Item>, f: nat, k: nat)
    requires f < |items| && items[f].box.Some?
  {
    && k < |items| && items[k].kind == Paragraph && items[k].page == items[f].page && items[k].box.Some?
    && IsWithin(items[f].box.value, items[k].box.value)
  }

  /**
   * A sidebar of the second kind, in points: at least 50 high, around two paragraphs, its caption neither within 40 of
   * its top or bottom nor 119 or more down the page.
   */
  lemma MisdetectedExactly(items: seq<Item>, index: map<string, nat>, held: Option<nat>, f: nat)
    requires held.Some? ==> held.value < |items|
    ensures IsMisdetected(items, index, held, f) <==>
      && f < |items| && items[f].kind == Figure && Linked(items, index, f) == None && items[f].box.Some?
      && var fig := items[f].box.value;
         && fig.y1 - fig.y0 >= 50.0
         && (held.Some? && items[held.value].box.Some? ==>
              var cap := items[held.value].box.value;
              && (cap.y0 - fig.y1 > 40.0 || fig.y1 - cap.y0 > 40.0)
              && (fig.y0 - cap.y1 > 40.0 || cap.y1 - fig.y0 > 40.0) && cap.y0 < 119.0)
         && exists j: nat, k: nat :: j < k && IsLabelIn(items, f, j) && IsLabelIn(items, f, k)
  {
    if f < |items| && items[f].box.Some? {
      forall k: nat ensures IsContained(items, f, k) <==> IsLabelIn(items, f, k) {
        hide Linked;
        if k < |items| && items[k].box.Some? {
          SameOverlap(items[f].box.value, items[k].box.value);
        }
      }
      hide IsContained, IsLabelIn, Linked;
    }
  }

  lemma SameOverlap(fig: Box, b: Box)
    ensures LiesInside(fig, b) <==> IsWithin(fig, b)
  {}

  /**
   * The text below a figure: its linked caption when translated; else its fallback caption when translated; else
   * the image's own; else what there is in the source language, the linked caption before the fallback.
   */
  lemma AltInOrder(plan: Plan, f: nat)
    requires plan.IsPlan() && plan.IsRendered(f)
    ensures var link, own, alt := plan.Link(f), plan.items[f].ownAlt, plan.AltOf(f);
      var held := if f in plan.sidebars then None
                  else if f in plan.captions then Some(plan.captions[f])
                  else if f in plan.pairs then Some(plan.pairs[f]) else None;
      && (link.Some? ==> link.value < |plan.items|) && (held.Some? ==> held.value < |plan.items|)
      && var first := link.Some? && plan.items[link.value].translated;
         var second := held.Some? && plan.items[held.value].translated;
         && (first ==> alt == CaptionText(link.value))
         && (!first && second ==> alt == CaptionText(held.value))
         && (!first && !second && own ==> alt == OwnText)
         && (!first && !second && !own && link.Some? ==> alt == CaptionText(link.value))
         && (!first && !second && !own && link == None && held.Some? ==> alt == CaptionText(held.value))
         && (!own && link == None && held == None ==> alt == Nothing)
  {
    hide Plan.IsPlan, Linked;
    if plan.Link(f).Some? {
      LinkIsReal(plan, f, plan.Link(f).value);
    }
    if f in plan.Assigned() {
      HeldIsReal(plan, f);
    }
    FallbackIs(plan);
  }

  lemma FallbackIs(plan: Plan)
    requires plan.IsPlan()
    ensures plan.fallback == (plan.pairs + plan.captions) - plan.sidebars
  {}

  /** The loop renders the figures that no cluster has swallowed and that are no sidebars. */
  lemma RenderedExactly(plan: Plan, f: nat)
    requires plan.IsPlan()
    ensures plan.IsRendered(f) <==>
      && f < |plan.items| && plan.items[f].kind == Figure
      && !IsIsolated(plan.items, plan.index, plan.pairs, f)
      && !IsMisdetected(plan.items, plan.index, At(plan.pairs + plan.captions, f), f)
      && forall m :: m in plan.captions && m < f < plan.captions[m] ==>
           plan.items[f].page == None || plan.items[f].box == None
  {
    hide IsIsolated, IsMisdetected, Captions.IsGreedyPairing, IsIndex, AreLinked, PanelClusters.AreClusters;
    var items := ForClusters(plan.items);
    forall m: nat
      ensures PanelClusters.Absorbs(items, plan.captions, m, f) <==>
        m in plan.captions && m < f < plan.captions[m]
        && f < |plan.items| && plan.items[f].page.Some? && plan.items[f].box.Some?
    {}
  }

  // ---- What a figure shows ----------------------------------------------------------------------

  /** A caption in the dictionary is a real one, and belongs to a figure. */
  lemma HeldIsReal(plan: Plan, f: nat)
    requires plan.IsPlan() && f in plan.Assigned()
    ensures f < |plan.items| && plan.items[f].kind == Figure
    ensures var c := plan.Assigned()[f]; c < |plan.items| && plan.items[c].kind == Caption && plan.items[c].realCaption
  {
    if f in plan.captions {
      ClusterOf(plan.items, plan.captions, f);
    } else {
      assert Captions.IsNearest(ForPairing(plan.items), plan.pairs, plan.linked, f, plan.pairs[f]);
    }
  }

  lemma LinkIsReal(plan: Plan, f: nat, c: nat)
    requires plan.IsPlan() && plan.Link(f) == Some(c)
    ensures f < |plan.items| && plan.items[f].kind == Figure && plan.items[f].linkedTo != "" && c in plan.linked
    ensures c < |plan.items| && plan.items[c].kind == Caption && plan.items[c].realCaption
  {
    assert Carries(plan.items, plan.items[f].linkedTo, c);
  }

  lemma ShowsExactly(plan: Plan, f: nat, c: nat)
    requires plan.IsPlan() && plan.IsRendered(f)
    ensures plan.Shows(f, c) <==>
      (plan.ShowsLink(f) && plan.Link(f) == Some(c)) || (plan.ShowsFallback(f) && plan.fallback[f] == c)
  {
    hide Plan.IsPlan, Linked;
    if f in plan.fallback {
      FallbackIsReal(plan, f);
    }
  }

  lemma FallbackIsReal(plan: Plan, f: nat)
    requires plan.IsPlan() && f in plan.fallback
    ensures f < |plan.items| && plan.fallback[f] < |plan.items| && plan.items[plan.fallback[f]].realCaption
  {
    HeldIsReal(plan, f);
  }

  // ---- One caption at two figures ---------------------------------------------------------------

  ghost predicate NoneTwice(plan: Plan)
  {
    forall f: nat, g: nat, c: nat :: plan.Shows(f, c) && plan.Shows(g, c) ==> f == g
  }

  /** Two figures are linked to one caption. */
  ghost predicate LinksMeet(plan: Plan)
  {
    exists f: nat, g: nat ::
      f < g && plan.IsRendered(f) && plan.IsRendered(g) && plan.ShowsLink(f) && plan.ShowsLink(g)
      && plan.Link(f) == plan.Link(g)
  }

  /** A figure is linked to the caption that ends a cluster. */
  ghost predicate LinkMeetsCluster(plan: Plan)
  {
    exists f: nat, m: nat ::
      plan.IsRendered(f) && plan.ShowsLink(f) && m in plan.captions && plan.IsRendered(m) && plan.ShowsFallback(m)
      && plan.Link(f) == Some(plan.captions[m])
  }

  /** When a figure outside the cluster had its turn, the cluster's caption was free, and the nearest to it. */
  ghost predicate ClusterComesLate(plan: Plan)
  {
    exists f: nat, m: nat ::
      plan.IsRendered(f) && f !in plan.captions && m in plan.captions && plan.IsRendered(m) && plan.ShowsFallback(m)
      && Captions.IsNearest(ForPairing(plan.items), plan.pairs, plan.linked, f, plan.captions[m])
      && plan.PrefersCaption(f, plan.captions[m])
  }

  /** No caption is printed below two figures, exactly unless one of three things happens. */
  lemma NoneTwiceExactly(plan: Plan)
    requires plan.IsPlan()
    ensures NoneTwice(plan) <==> !LinksMeet(plan) && !LinkMeetsCluster(plan) && !ClusterComesLate(plan)
  {
    hide Plan.IsPlan, Plan.Shows, LinksMeet, LinkMeetsCluster, ClusterComesLate;
    if LinksMeet(plan) {
      TwiceByLinks(plan);
    }
    if LinkMeetsCluster(plan) {
      TwiceByLinkAndCluster(plan);
    }
    if ClusterComesLate(plan) {
      TwiceByCluster(plan);
    }
    if !LinksMeet(plan) && !LinkMeetsCluster(plan) && !ClusterComesLate(plan) {
      forall f: nat, g: nat, c: nat | plan.Shows(f, c) && plan.Shows(g, c) ensures f == g {
        TwoShow(plan, f, g, c);
      }
    }
  }

  lemma TwiceByLinks(plan: Plan)
    requires plan.IsPlan() && LinksMeet(plan)
    ensures !NoneTwice(plan)
  {
    hide Plan.IsPlan, Plan.Shows, Plan.ShowsLink, Plan.ShowsFallback, Plan.IsRendered, Linked;
    var f: nat, g: nat :|
      f < g && plan.IsRendered(f) && plan.IsRendered(g) && plan.ShowsLink(f) && plan.ShowsLink(g)
      && plan.Link(f) == plan.Link(g);
    LinkIsThere(plan, f);
    var c := plan.Link(f).value;
    ShowsExactly(plan, f, c);
    ShowsExactly(plan, g, c);
  }

  lemma LinkIsThere(plan: Plan, f: nat)
    requires plan.ShowsLink(f)
    ensures plan.Link(f).Some?
  {}

  lemma TwiceByLinkAndCluster(plan: Plan)
    requires plan.IsPlan() && LinkMeetsCluster(plan)
    ensures !NoneTwice(plan)
  {
    hide Plan.IsPlan, Plan.Shows, Plan.ShowsLink, Plan.IsRendered, Plan.PrefersCaption, Linked;
    var f: nat, m: nat :|
      plan.IsRendered(f) && plan.ShowsLink(f) && m in plan.captions && plan.IsRendered(m) && plan.ShowsFallback(m)
      && plan.Link(f) == Some(plan.captions[m]);
    var c := plan.captions[m];
    MasterHolds(plan, m);
    ShowsExactly(plan, f, c);
    ShowsExactly(plan, m, c);
  }

  lemma MasterHolds(plan: Plan, m: nat)
    requires plan.IsPlan() && m in plan.captions
    ensures m in plan.fallback ==> plan.fallback[m] == plan.captions[m]
    ensures m in plan.sidebars <==> m !in plan.fallback
  {}

  /** A figure has taken the caption that was free and nearest at its turn. */
  lemma NearestIsTaken(plan: Plan, f: nat, c: nat)
    requires plan.IsPlan() && Captions.IsNearest(ForPairing(plan.items), plan.pairs, plan.linked, f, c)
    ensures f in plan.pairs && plan.pairs[f] == c && plan.Link(f) == None
  {
    assert Captions.IsNearest(ForPairing(plan.items), plan.pairs, plan.linked, f, plan.pairs[f]);
  }

  lemma TwiceByCluster(plan: Plan)
    requires plan.IsPlan() && ClusterComesLate(plan)
    ensures !NoneTwice(plan)
  {
    hide Plan.IsPlan, Plan.Shows, Plan.PrefersCaption, Linked, Captions.IsNearest;
    var f: nat, m: nat :|
      plan.IsRendered(f) && f !in plan.captions && m in plan.captions && plan.IsRendered(m) && plan.ShowsFallback(m)
      && Captions.IsNearest(ForPairing(plan.items), plan.pairs, plan.linked, f, plan.captions[m])
      && plan.PrefersCaption(f, plan.captions[m]);
    var c := plan.captions[m];
    MasterHolds(plan, m);
    NearestIsTaken(plan, f, c);
    PairHolds(plan, f);
    ShowsExactly(plan, f, c);
    ShowsExactly(plan, m, c);
  }

  /** A paired figure that leads no cluster keeps its caption unless it is suppressed, and has no link. */
  lemma PairHolds(plan: Plan, f: nat)
    requires plan.IsPlan() && f in plan.pairs && f !in plan.captions
    ensures f in plan.fallback ==> plan.fallback[f] == plan.pairs[f]
    ensures f in plan.sidebars <==> f !in plan.fallback
    ensures plan.Link(f) == None && plan.pairs[f] !in plan.linked
    ensures Captions.IsNearest(ForPairing(plan.items), plan.pairs, plan.linked, f, plan.pairs[f])
  {
    assert Captions.IsNearest(ForPairing(plan.items), plan.pairs, plan.linked, f, plan.pairs[f]);
  }

  lemma LinkAndFallback(plan: Plan, f: nat, g: nat, c: nat)
    requires plan.IsPlan() && plan.IsRendered(f) && plan.ShowsLink(f) && plan.Link(f) == Some(c)
    requires plan.IsRendered(g) && plan.ShowsFallback(g) && plan.fallback[g] == c
    ensures LinkMeetsCluster(plan)
  {
    LinkIsReal(plan, f, c);
    FallbackIsAssigned(plan, g);
    if g in plan.captions {
      MasterHolds(plan, g);
    } else {
      PairHolds(plan, g);
    }
    hide Plan.IsPlan, Plan.ShowsLink, Plan.ShowsFallback, Plan.IsRendered, Linked, Captions.IsNearest;
  }

  lemma FallbackIsAssigned(plan: Plan, f: nat)
    requires plan.IsPlan() && f in plan.fallback
    ensures f in plan.pairs || f in plan.captions
  {}

  lemma LateCluster(plan: Plan, f: nat, m: nat)
    requires plan.IsPlan() && plan.IsRendered(f) && plan.ShowsFallback(f) && f !in plan.captions
    requires m in plan.captions && plan.IsRendered(m) && plan.ShowsFallback(m) && plan.fallback[f] == plan.fallback[m]
    ensures ClusterComesLate(plan)
  {
    FallbackIsAssigned(plan, f);
    MasterHolds(plan, m);
    PairHolds(plan, f);
    hide Plan.IsPlan, Plan.ShowsLink, Plan.IsRendered, Linked, Captions.IsNearest, Plan.PrefersCaption;
  }

  lemma BothFallback(plan: Plan, f: nat, g: nat)
    requires plan.IsPlan() && plan.IsRendered(f) && plan.ShowsFallback(f) && plan.IsRendered(g) && plan.ShowsFallback(g)
    requires f in plan.fallback && g in plan.fallback && plan.fallback[f] == plan.fallback[g]
    ensures f == g || ClusterComesLate(plan)
  {
    hide ClusterComesLate, Plan.ShowsFallback, Plan.IsRendered, Plan.IsPlan;
    if f in plan.captions && g in plan.captions {
      SameMaster(plan, f, g);
    } else if f in plan.captions {
      LateCluster(plan, g, f);
    } else if g in plan.captions {
      LateCluster(plan, f, g);
    } else {
      SamePair(plan, f, g);
    }
  }

  lemma SameMaster(plan: Plan, f: nat, g: nat)
    requires plan.IsPlan() && f in plan.captions && g in plan.captions
    requires f in plan.fallback && g in plan.fallback && plan.fallback[f] == plan.fallback[g]
    ensures f == g
  {
    MasterHolds(plan, f);
    MasterHolds(plan, g);
    ClusterCaptionsDiffer(ForClusters(plan.items), plan.captions, f, g);
  }

  lemma SamePair(plan: Plan, f: nat, g: nat)
    requires plan.IsPlan() && f !in plan.captions && g !in plan.captions
    requires f in plan.fallback && g in plan.fallback && plan.fallback[f] == plan.fallback[g]
    ensures f == g
  {
    FallbackIsAssigned(plan, f);
    FallbackIsAssigned(plan, g);
    PairHolds(plan, f);
    PairHolds(plan, g);
    Captions.PairingIsInjective(ForPairing(plan.items), plan.pairs, plan.linked, f, g);
  }

  lemma ClusterCaptionsDiffer(items: seq<PanelClusters.Item>, captions: map<nat, nat>, i: nat, j: nat)
    requires PanelClusters.AreClusters(items, captions) && i in captions && j in captions && captions[i] == captions[j]
    ensures i == j
  {
    assert PanelClusters.IsCluster(items, i, captions[i]) && PanelClusters.IsCluster(items, j, captions[j]);
    if i < j {
      PanelClusters.ClustersAreDisjoint(items, captions, i, j);
    } else if j < i {
      PanelClusters.ClustersAreDisjoint(items, captions, j, i);
    }
  }

  lemma TwoShow(plan: Plan, f: nat, g: nat, c: nat)
    requires plan.IsPlan() && plan.Shows(f, c) && plan.Shows(g, c)
    ensures f == g || LinksMeet(plan) || LinkMeetsCluster(plan) || ClusterComesLate(plan)
  {
    hide Plan.IsPlan, Plan.AltOf, Plan.ShowsLink, Plan.PrefersCaption, Linked, LinkMeetsCluster, ClusterComesLate;
    hide Plan.IsRendered;
    ShowsExactly(plan, f, c);
    ShowsExactly(plan, g, c);
    if plan.ShowsLink(f) && plan.ShowsLink(g) {
      assert f < g || g < f || f == g;
    } else if plan.ShowsLink(f) {
      LinkAndFallback(plan, f, g, c);
    } else if plan.ShowsLink(g) {
      LinkAndFallback(plan, g, f, c);
    } else {
      BothFallback(plan, f, g);
    }
  }

  // ---- A caption at a figure and again as a block -----------------------------------------------

  /**
   * A caption below a figure is printed a second time as a block exactly when a figure was given it - by the pairing,
   * or by its cluster - and has then been suppressed as a sidebar.
   */
  lemma ShownAndBlock(plan: Plan, c: nat)
    requires plan.IsPlan() && plan.IsShown(c)
    ensures plan.IsBlock(c) <==> exists f: nat ::
      At(plan.Assigned(), f) == Some(c) && IsMisdetected(plan.items, plan.index, Some(c), f)
  {
    ShownIsClaimed(plan, c);
    FreedByMisdetection(plan, c);
  }

  lemma ShownIsClaimed(plan: Plan, c: nat)
    requires plan.IsPlan() && plan.IsShown(c)
    ensures c < |plan.items| && plan.items[c].kind == Caption && plan.IsClaimed(c)
  {
    var f: nat :| plan.Shows(f, c);
    ShowsExactly(plan, f, c);
    if plan.ShowsLink(f) && plan.Link(f) == Some(c) {
      LinkIsReal(plan, f, c);
    } else {
      FallbackIsAssigned(plan, f);
      HeldIsReal(plan, f);
    }
  }

  lemma FreedByMisdetection(plan: Plan, c: nat)
    requires plan.IsPlan()
    ensures plan.IsFreed(c) <==> exists f: nat ::
      At(plan.Assigned(), f) == Some(c) && IsMisdetected(plan.items, plan.index, Some(c), f)
  {
    hide IsMisdetected, Plan.IsPlan;
    forall f: nat | At(plan.Assigned(), f) == Some(c)
      ensures f in plan.sidebars <==> IsMisdetected(plan.items, plan.index, Some(c), f)
    {
      HolderIsNotIsolated(plan, f);
    }
  }

  lemma HolderIsNotIsolated(plan: Plan, f: nat)
    requires plan.IsPlan() && f in plan.Assigned()
    ensures f in plan.sidebars <==> IsMisdetected(plan.items, plan.index, At(plan.Assigned(), f), f)
  {
    hide IsMisdetected, ForClusters, ForPairing, IsIndex, AreLinked, PanelClusters.AreClusters, HasSibling;
    if f in plan.captions {
      ClusterOf(plan.items, plan.captions, f);
    }
  }

  // ---- A caption that is printed nowhere --------------------------------------------------------

  /** A consumed caption all of whose figures are panels of a cluster, or lead another one, or show something else. */
  ghost predicate IsLost(plan: Plan, c: nat)
  {
    && plan.IsClaimed(c) && !plan.IsFreed(c)
    && (forall f: nat :: plan.Link(f) == Some(c) ==> f in plan.absorbed || !plan.ShowsLink(f))
    && (forall m: nat :: At(plan.captions, m) == Some(c) ==> !plan.ShowsFallback(m))
    && (forall f: nat :: At(plan.pairs, f) == Some(c) ==>
          f in plan.absorbed || f in plan.captions || !plan.PrefersCaption(f, c))
  }

  lemma LostExactly(plan: Plan, c: nat)
    requires plan.IsPlan() && c < |plan.items| && plan.items[c].kind == Caption
    ensures !plan.IsBlock(c) && !plan.IsShown(c) <==> IsLost(plan, c)
  {
    assert c in plan.consumed <==> plan.IsClaimed(c) && !plan.IsFreed(c);
    hide Plan.IsPlan, Plan.Shows, Linked;
    if plan.IsShown(c) {
      var f: nat :| plan.Shows(f, c);
      ShownIsNotLost(plan, f, c);
    } else if c in plan.consumed && !IsLost(plan, c) {
      NotLostIsShown(plan, c);
    }
  }

  lemma ShownIsNotLost(plan: Plan, f: nat, c: nat)
    requires plan.IsPlan() && plan.Shows(f, c)
    ensures !IsLost(plan, c)
  {
    ShowsExactly(plan, f, c);
    if f in plan.fallback {
      FallbackIsAssigned(plan, f);
      if f in plan.captions {
        MasterHolds(plan, f);
      } else {
        PairHolds(plan, f);
      }
    }
    hide Plan.IsPlan, Plan.AltOf, Plan.ShowsLink, Plan.PrefersCaption, Linked, Captions.IsNearest;
  }

  lemma LinkerIsRendered(plan: Plan, f: nat, c: nat)
    requires plan.IsPlan() && plan.Link(f) == Some(c) && f !in plan.absorbed
    ensures plan.IsRendered(f)
  {}

  lemma MasterIsRendered(plan: Plan, m: nat)
    requires plan.IsPlan() && m in plan.captions && m in plan.fallback
    ensures plan.IsRendered(m)
  {
    ClusterOf(plan.items, plan.captions, m);
    forall i: nat ensures !PanelClusters.Absorbs(ForClusters(plan.items), plan.captions, i, m) {
      if PanelClusters.Absorbs(ForClusters(plan.items), plan.captions, i, m) {
        PanelClusters.AbsorberIsUnique(ForClusters(plan.items), plan.captions, i, i, m);
      }
    }
  }

  lemma PairedIsRendered(plan: Plan, f: nat)
    requires plan.IsPlan() && f in plan.pairs && f !in plan.captions && f !in plan.absorbed
    requires !plan.IsFreed(plan.pairs[f])
    ensures plan.IsRendered(f) && f in plan.fallback
  {
    HeldIsReal(plan, f);
    assert At(plan.Assigned(), f) == Some(plan.pairs[f]);
  }

  lemma NotLostIsShown(plan: Plan, c: nat)
    requires plan.IsPlan() && plan.IsClaimed(c) && !plan.IsFreed(c) && !IsLost(plan, c)
    ensures plan.IsShown(c)
  {
    hide Plan.IsPlan, Plan.IsRendered, Plan.IsFreed, Plan.IsClaimed, Plan.AltOf, Linked, Captions.IsNearest;
    if f: nat :| plan.Link(f) == Some(c) && f !in plan.absorbed && plan.ShowsLink(f) {
      LinkerIsRendered(plan, f, c);
      ShowsExactly(plan, f, c);
    } else if m: nat :| At(plan.captions, m) == Some(c) && plan.ShowsFallback(m) {
      MasterIsRendered(plan, m);
      MasterHolds(plan, m);
      ShowsExactly(plan, m, c);
    } else {
      var f: nat :|
        At(plan.pairs, f) == Some(c) && f !in plan.absorbed && f !in plan.captions && plan.PrefersCaption(f, c);
      PairedIsRendered(plan, f);
      PairHolds(plan, f);
      ShowsExactly(plan, f, c);
    }
  }

  // ---- Every caption exactly once ---------------------------------------------------------------

  /** Caption `c` is printed in one place: as a block, or below one figure. */
  ghost predicate IsPrintedOnce(plan: Plan, c: nat)
  {
    && (plan.IsBlock(c) <==> !plan.IsShown(c))
    && forall f: nat, g: nat :: plan.Shows(f, c) && plan.Shows(g, c) ==> f == g
  }

  /** Caption `c` stands below a figure, and another that held it was suppressed. */
  ghost predicate IsSpilt(plan: Plan, c: nat)
  {
    plan.IsShown(c) && exists f: nat ::
      At(plan.Assigned(), f) == Some(c) && IsMisdetected(plan.items, plan.index, Some(c), f)
  }

  predicate IsCaption(items: seq<Item>, c: nat)
  {
    c < |items| && items[c].kind == Caption
  }

  /** Every caption of the chapter is printed exactly once, if and only if none of five things happens. */
  lemma EveryCaptionOnce(plan: Plan)
    requires plan.IsPlan()
    ensures (forall c: nat :: IsCaption(plan.items, c) ==> IsPrintedOnce(plan, c)) <==>
      && !LinksMeet(plan) && !LinkMeetsCluster(plan) && !ClusterComesLate(plan)
      && (forall c: nat :: IsCaption(plan.items, c) ==> !IsLost(plan, c) && !IsSpilt(plan, c))
  {
    NoneTwiceExactly(plan);
    forall c: nat | plan.IsShown(c) ensures IsCaption(plan.items, c) { ShownIsClaimed(plan, c); }
    assert forall f: nat, c: nat :: plan.Shows(f, c) ==> plan.IsShown(c);
    hide Plan.IsPlan, Plan.Shows, LinksMeet, LinkMeetsCluster, ClusterComesLate, IsLost, Plan.IsBlock;
    forall c: nat | IsCaption(plan.items, c)
      ensures IsSpilt(plan, c) <==> plan.IsShown(c) && plan.IsBlock(c)
      ensures IsLost(plan, c) <==> !plan.IsShown(c) && !plan.IsBlock(c)
    {
      LostExactly(plan, c);
      if plan.IsShown(c) {
        ShownAndBlock(plan, c);
      }
    }
  }

  // ---- Four chapters of one page ----------------------------------------------------------------

  /** Nothing is linked. */
  ghost predicate IsUnlinked(items: seq<Item>)
  {
    forall k :: 0 <= k < |items| ==> items[k].linkedTo == ""
  }

  lemma NoLinks(plan: Plan, f: nat)
    requires plan.IsPlan() && IsUnlinked(plan.items)
    ensures plan.Link(f) == None && plan.linked == {}
  {
    forall g: nat, c: nat ensures plan.Link(g) != Some(c) {
      if plan.Link(g) == Some(c) {
        LinkIsReal(plan, g, c);
      }
    }
  }

  function Image(image: ImageType, ordinal: int, box: Box): Item
  {
    Item(Figure, image, "", "", false, false, false, Some(1), Some(box), ordinal)
  }

  function RealCaption(ordinal: int, box: Box): Item
  {
    Item(Caption, OtherImage, "", "", true, true, false, Some(1), Some(box), ordinal)
  }

  function Text(ordinal: int, box: Box): Item
  {
    Item(Paragraph, OtherImage, "", "", false, true, false, Some(1), Some(box), ordinal)
  }

  const SPOT := Box(0.0, 0.0, 10.0, 10.0)

  /** A small box holds no paragraphs: the figure is no sidebar unless it is an isolated drawing. */
  lemma SpotIsNoSidebar(plan: Plan, f: nat)
    requires plan.IsPlan() && f < |plan.items| && plan.items[f].box == Some(SPOT)
    requires f in plan.pairs || plan.items[f].image != Vector || HasSibling(plan.items, f)
    ensures f !in plan.sidebars
  {}

  /** Panels `i` and `i + 1` and the caption after them. */
  ghost predicate TwoPanels(items: seq<PanelClusters.Item>, i: nat)
  {
    && i + 2 < |items| && items[i].placed.Some?
    && var page := items[i].placed.value.page;
       PanelClusters.IsPanel(items, page, i) && PanelClusters.IsPanel(items, page, i + 1)
       && PanelClusters.IsCaption(items, page, i + 2)
       && forall m :: 0 <= m < i ==> !(items[m].kind == Figure && items[m].embedded)
  }

  lemma TwoPanelsLead(items: seq<PanelClusters.Item>, captions: map<nat, nat>, i: nat)
    requires PanelClusters.AreClusters(items, captions) && TwoPanels(items, i)
    ensures At(captions, i) == Some(i + 2) && PanelClusters.Absorbs(items, captions, i, i + 1)
  {
    assert PanelClusters.IsCluster(items, i, i + 2);
    assert forall m: nat :: m in captions ==> PanelClusters.IsCluster(items, m, captions[m]);
    PanelClusters.OneEnd(items, i, captions[i], i + 2);
  }

  lemma TwoPanelsOf(plan: Plan, i: nat)
    requires plan.IsPlan() && TwoPanels(ForClusters(plan.items), i)
    ensures At(plan.captions, i) == Some(i + 2) && i + 1 in plan.absorbed && i + 1 !in plan.captions
  {
    hide TwoPanels, ForClusters, ForPairing, PanelClusters.AreClusters, Captions.IsGreedyPairing, PanelClusters.Absorbs;
    TwoPanelsLead(ForClusters(plan.items), plan.captions, i);
    PanelClusters.AbsorberIsUnique(ForClusters(plan.items), plan.captions, i, i, i + 1);
  }

  /** A drawing, two panels, and their caption. */
  const DRAWING_FIRST: seq<Item> :=
    [Image(Vector, 0, SPOT), Image(Embedded, 1, SPOT), Image(Embedded, 2, SPOT), RealCaption(3, SPOT)]

  /** The drawing takes the caption first, and the master of the panels takes it again. */
  lemma DrawingSharesTheCaption(plan: Plan)
    requires plan.items == DRAWING_FIRST && plan.IsPlan()
    ensures plan.Shows(0, 3) && plan.Shows(1, 3) && ClusterComesLate(plan)
  {
    hide Plan.IsPlan, Plan.Shows, IsUnlinked, ForPairing, ForClusters, Linked;
    DrawingTakesIt(plan.items, plan.pairs);
    NoLinks(plan, 0);
    NoLinks(plan, 1);
    NearestIsTaken(plan, 0, 3);
    DrawingPanels(plan);
    SpotIsNoSidebar(plan, 0);
    SpotIsNoSidebar(plan, 1);
    PairHolds(plan, 0);
    MasterHolds(plan, 1);
    MasterIsRendered(plan, 1);
    ShowsExactly(plan, 0, 3);
    ShowsExactly(plan, 1, 3);
  }

  lemma DrawingTakesIt(items: seq<Item>, pairs: map<nat, nat>)
    requires items == DRAWING_FIRST
    ensures Captions.IsNearest(ForPairing(items), pairs, {}, 0, 3)
  {
    hide ForPairing;
    assert Captions.Eligible(ForPairing(items), 0, 3);
    assert forall d: nat :: Captions.Eligible(ForPairing(items), 0, d) ==> d == 3;
  }

  lemma DrawingPanels(plan: Plan)
    requires plan.items == DRAWING_FIRST && plan.IsPlan()
    ensures 0 !in plan.captions && At(plan.captions, 1) == Some(3) && 0 !in plan.absorbed
  {
    var items := ForClusters(plan.items);
    assert TwoPanels(items, 1);
    TwoPanelsLead(items, plan.captions, 1);
  }

  /** Two panels between two captions. */
  const BETWEEN_CAPTIONS: seq<Item> :=
    [RealCaption(0, SPOT), Image(Embedded, 1, SPOT), Image(Embedded, 2, SPOT), RealCaption(3, SPOT)]

  /** The first panel gives up the first caption for the second, and nothing else holds it. */
  lemma ReboundCaptionIsLost(plan: Plan)
    requires plan.items == BETWEEN_CAPTIONS && plan.IsPlan()
    ensures IsLost(plan, 0) && plan.Shows(1, 3) && NoneTwice(plan)
  {
    hide Plan.IsPlan, Plan.AltOf, ForPairing, ForClusters, Linked;
    FirstIsCaption(plan);
    BetweenPanels(plan);
    NoLinks(plan, 1);
    FirstPanelTakesFirst(plan.items, plan.pairs);
    NearestIsTaken(plan, 1, 0);
    SpotIsNoSidebar(plan, 1);
    MasterHolds(plan, 1);
    MasterIsRendered(plan, 1);
    ShowsExactly(plan, 1, 3);
    OnlyHolder(plan, 1, 0);
  }

  lemma FirstPanelTakesFirst(items: seq<Item>, pairs: map<nat, nat>)
    requires items == BETWEEN_CAPTIONS
    requires forall g: nat :: g in pairs ==> g != 0
    ensures Captions.IsNearest(ForPairing(items), pairs, {}, 1, 0)
  {
    hide ForPairing;
    assert Captions.Eligible(ForPairing(items), 1, 0);
    assert forall d: nat :: Captions.Eligible(ForPairing(items), 1, d) ==> d == 0 || d == 3;
  }

  lemma BetweenPanels(plan: Plan)
    requires plan.items == BETWEEN_CAPTIONS && plan.IsPlan()
    ensures At(plan.captions, 1) == Some(3) && 2 in plan.absorbed
  {
    var items := ForClusters(plan.items);
    assert TwoPanels(items, 1);
    TwoPanelsLead(items, plan.captions, 1);
  }

  lemma FirstIsCaption(plan: Plan)
    requires plan.items == BETWEEN_CAPTIONS && plan.IsPlan()
    ensures 0 !in plan.pairs && forall m: nat :: At(plan.captions, m) != Some(0)
  {
    hide Plan.IsPlan;
    assert !IsCaptionHolder(plan, 0) by { HeldByFigures(plan, 0); }
    forall m: nat | m in plan.captions ensures plan.captions[m] != 0 { MasterPrecedes(plan, m); }
  }

  ghost predicate IsCaptionHolder(plan: Plan, g: nat)
  {
    g in plan.pairs || g in plan.captions
  }

  lemma HeldByFigures(plan: Plan, g: nat)
    requires plan.IsPlan()
    ensures IsCaptionHolder(plan, g) ==> g < |plan.items| && plan.items[g].kind == Figure
  {
    if IsCaptionHolder(plan, g) {
      HeldIsReal(plan, g);
    }
  }

  lemma MasterPrecedes(plan: Plan, m: nat)
    requires plan.IsPlan() && m in plan.captions
    ensures m < plan.captions[m] < |plan.items| && plan.items[m].kind == Figure && plan.items[m].image == Embedded
  {
    ClusterOf(plan.items, plan.captions, m);
  }

  lemma AbsorbedByCluster(plan: Plan, k: nat)
    requires plan.IsPlan() && k in plan.absorbed
    ensures exists m: nat :: m in plan.captions && m < k < plan.captions[m]
  {}

  /** A caption that figure `f` alone holds is lost when `f` is absorbed or leads a cluster with another caption. */
  lemma OnlyHolder(plan: Plan, f: nat, c: nat)
    requires plan.IsPlan() && IsUnlinked(plan.items) && At(plan.pairs, f) == Some(c)
    requires f in plan.absorbed || f in plan.captions
    requires f !in plan.sidebars && forall m: nat :: At(plan.captions, m) != Some(c)
    ensures IsLost(plan, c)
  {
    hide Plan.IsPlan, IsUnlinked, Linked, Plan.PrefersCaption, Plan.ShowsLink, Plan.ShowsFallback;
    forall g: nat | At(plan.pairs, g) == Some(c) ensures g == f { PairedOnce(plan, f, g); }
    forall g: nat ensures plan.Link(g) == None { NoLinks(plan, g); }
    assert f in plan.pairs && plan.pairs[f] == c && plan.IsClaimed(c);
    forall g: nat | At(plan.Assigned(), g) == Some(c) ensures g == f {
      assert At(plan.captions, g) != Some(c) && At(plan.pairs, g) == Some(c);
    }
  }

  lemma PairedOnce(plan: Plan, f: nat, g: nat)
    requires plan.IsPlan() && f in plan.pairs && g in plan.pairs && plan.pairs[f] == plan.pairs[g]
    ensures f == g
  {
    Captions.PairingIsInjective(ForPairing(plan.items), plan.pairs, plan.linked, f, g);
  }

  /** Two panels and their caption, then a drawing and its caption. */
  const DRAWING_LAST: seq<Item> :=
    [Image(Embedded, 0, SPOT), Image(Embedded, 1, SPOT), RealCaption(2, SPOT), Image(Vector, 3, SPOT),
     RealCaption(4, SPOT)]

  /** The second panel takes the drawing's caption before the drawing has its turn, and is absorbed. */
  lemma AbsorbedPanelLosesACaption(plan: Plan)
    requires plan.items == DRAWING_LAST && plan.IsPlan()
    ensures IsLost(plan, 4) && plan.IsRendered(3) && plan.AltOf(3) == Nothing
  {
    hide Plan.IsPlan, Plan.IsBlock, ForPairing, ForClusters, Linked, IsLost;
    LastPanels(plan);
    LastPairing(plan);
    NoLinks(plan, 3);
    SpotIsNoSidebar(plan, 1);
    assert IsSibling(plan.items, 3, 1);
    SpotIsNoSidebar(plan, 3);
    OnlyHolder(plan, 1, 4);
    if 3 in plan.fallback {
      FallbackIsAssigned(plan, 3);
    }
  }

  lemma LastPanels(plan: Plan)
    requires plan.items == DRAWING_LAST && plan.IsPlan()
    ensures At(plan.captions, 0) == Some(2) && 1 in plan.absorbed
    ensures 3 !in plan.captions && 3 !in plan.absorbed && forall m: nat :: At(plan.captions, m) != Some(4)
  {
    hide Plan.IsPlan, ForClusters;
    assert TwoPanels(ForClusters(plan.items), 0);
    TwoPanelsOf(plan, 0);
    OnlyPanelsLead(plan);
  }

  lemma OnlyPanelsLead(plan: Plan)
    requires plan.items == DRAWING_LAST && plan.IsPlan() && 1 !in plan.captions && At(plan.captions, 0) == Some(2)
    ensures 3 !in plan.absorbed && forall m :: m in plan.captions ==> m == 0
  {
    hide Plan.IsPlan;
    forall m | m in plan.captions ensures m <= 1 { MasterPrecedes(plan, m); }
    if 3 in plan.absorbed {
      AbsorbedByCluster(plan, 3);
    }
  }

  lemma LastPairing(plan: Plan)
    requires plan.items == DRAWING_LAST && plan.IsPlan()
    ensures At(plan.pairs, 0) == Some(2) && At(plan.pairs, 1) == Some(4) && 3 !in plan.pairs
  {
    hide Plan.IsPlan, ForPairing, Linked, Captions.IsNearest;
    NoLinks(plan, 0);
    FirstTakesTwo(plan.items, plan.pairs);
    NearestIsTaken(plan, 0, 2);
    SecondTakesFour(plan.items, plan.pairs);
    NearestIsTaken(plan, 1, 4);
    NoneIsLeft(plan);
  }

  lemma FirstTakesTwo(items: seq<Item>, pairs: map<nat, nat>)
    requires items == DRAWING_LAST
    ensures Captions.IsNearest(ForPairing(items), pairs, {}, 0, 2)
  {
    hide ForPairing;
    assert Captions.Eligible(ForPairing(items), 0, 2);
    assert forall d: nat :: Captions.Eligible(ForPairing(items), 0, d) ==> d == 2 || d == 4;
  }

  lemma SecondTakesFour(items: seq<Item>, pairs: map<nat, nat>)
    requires items == DRAWING_LAST && At(pairs, 0) == Some(2)
    ensures Captions.IsNearest(ForPairing(items), pairs, {}, 1, 4)
  {
    hide ForPairing;
    assert Captions.Eligible(ForPairing(items), 1, 4);
    assert forall d: nat :: Captions.Eligible(ForPairing(items), 1, d) ==> d == 2 || d == 4;
  }

  lemma NoneIsLeft(plan: Plan)
    requires plan.items == DRAWING_LAST && plan.IsPlan()
    requires At(plan.pairs, 0) == Some(2) && At(plan.pairs, 1) == Some(4)
    ensures 3 !in plan.pairs
  {
    hide Plan.IsPlan;
    forall g | g in plan.pairs && plan.pairs[g] == 2 ensures g == 0 { PairedOnce(plan, g, 0); }
    forall g | g in plan.pairs && plan.pairs[g] == 4 ensures g == 1 { PairedOnce(plan, g, 1); }
    PairOfDrawing(plan);
  }

  lemma PairOfDrawing(plan: Plan)
    requires plan.items == DRAWING_LAST && plan.IsPlan()
    ensures 3 in plan.pairs ==> plan.pairs[3] == 2 || plan.pairs[3] == 4
  {
    hide Plan.IsPlan;
    if 3 in plan.pairs {
      PairedIsReal(plan, 3);
    }
  }

  lemma PairedIsReal(plan: Plan, f: nat)
    requires plan.IsPlan() && f in plan.pairs
    ensures plan.pairs[f] < |plan.items| && plan.items[plan.pairs[f]].kind == Caption
  {
    assert Captions.IsNearest(ForPairing(plan.items), plan.pairs, plan.linked, f, plan.pairs[f]);
  }

  /** A drawing; a panel drawn too large, around two labels; another panel; and a caption well below. */
  const LARGE_PANEL: seq<Item> :=
    [Image(Vector, 0, SPOT), Image(Embedded, 1, Box(0.0, 0.0, 100.0, 50.0)),
     Text(2, Box(10.0, 10.0, 90.0, 20.0)), Text(3, Box(10.0, 25.0, 90.0, 35.0)),
     Image(Embedded, 4, SPOT), RealCaption(5, Box(0.0, 100.0, 100.0, 110.0))]

  /** The large panel is suppressed as a sidebar and frees the caption, which the drawing has as well. */
  lemma SuppressedMasterSpillsTheCaption(plan: Plan)
    requires plan.items == LARGE_PANEL && plan.IsPlan()
    ensures plan.Shows(0, 5) && plan.IsBlock(5) && IsSpilt(plan, 5)
  {
    hide Plan.IsPlan, Plan.IsBlock, Plan.AltOf, ForPairing, ForClusters, Linked, Captions.IsNearest, IsMisdetected;
    NoLinks(plan, 0);
    NoLinks(plan, 1);
    LargePairing(plan.items, plan.pairs);
    NearestIsTaken(plan, 0, 5);
    LargeCluster(plan);
    LargeIsMisdetected(plan.items, plan.index);
    SpotIsNoSidebar(plan, 0);
    PairHolds(plan, 0);
    ShowsExactly(plan, 0, 5);
    assert At(plan.Assigned(), 1) == Some(5);
    ShownAndBlock(plan, 5);
  }

  lemma LargePairing(items: seq<Item>, pairs: map<nat, nat>)
    requires items == LARGE_PANEL
    ensures Captions.IsNearest(ForPairing(items), pairs, {}, 0, 5)
  {
    hide ForPairing;
    assert Captions.Eligible(ForPairing(items), 0, 5);
    assert forall d: nat :: Captions.Eligible(ForPairing(items), 0, d) ==> d == 5;
  }

  lemma LargeIsMisdetected(items: seq<Item>, index: map<string, nat>)
    requires items == LARGE_PANEL && Linked(items, index, 1) == None
    ensures IsMisdetected(items, index, Some(5), 1)
  {
    hide Linked;
    assert IsContained(items, 1, 2) && IsContained(items, 1, 3);
  }

  lemma LargeIsCluster(items: seq<PanelClusters.Item>)
    requires items == ForClusters(LARGE_PANEL)
    ensures PanelClusters.IsCluster(items, 1, 5)
  {
    hide ForClusters;
    assert PanelClusters.LeadsTo(items, 1, 2, 4) && PanelClusters.LeadsTo(items, 1, 3, 4);
    assert PanelClusters.IsPanel(items, 1, 4);
  }

  lemma LargeCluster(plan: Plan)
    requires plan.items == LARGE_PANEL && plan.IsPlan()
    ensures At(plan.captions, 1) == Some(5) && 0 !in plan.captions && 0 !in plan.absorbed
  {
    hide Plan.IsPlan, ForClusters;
    LargeIsCluster(ForClusters(plan.items));
    forall m | m in plan.captions ensures m >= 1 { MasterPrecedes(plan, m); }
    if 0 in plan.absorbed {
      AbsorbedByCluster(plan, 0);
    }
    if 1 in plan.absorbed {
      AbsorbedByCluster(plan, 1);
    }
    LeadsUnlessAbsorbed(plan, 1, 5);
  }

  lemma LeadsUnlessAbsorbed(plan: Plan, i: nat, c: nat)
    requires plan.IsPlan() && PanelClusters.IsCluster(ForClusters(plan.items), i, c) && i !in plan.absorbed
    ensures At(plan.captions, i) == Some(c)
  {
    PanelClusters.OneEnd(ForClusters(plan.items), i, plan.captions[i], c);
  }
}
