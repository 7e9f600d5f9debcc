/**
 * scripts/export_chapter_zh_html.py: the figure passes and the text passes on the blocks of one chapter, and the
 * render loop that emits the text of blocks and the captions below figures.
 */
module ChapterExport {
  import opened ChapterBlocks
  import opened Wrappers
  import opened Groups
  import ChapterRender
  import FigureCaptions
  import PanelClusters

  /** What the text passes and what the figure passes ask of the blocks of one chapter. */
  predicate AreSameBlocks(blocks: seq<Block>, items: seq<FigureCaptions.Item>)
  {
    |blocks| == |items| && forall k :: 0 <= k < |blocks| ==> blocks[k].kind == items[k].kind
  }

  /** Heading fragments are headings; text inside a figure is neither a figure nor a caption. */
  predicate AreSetAside(blocks: seq<Block>, fragments: set<nat>, inside: set<nat>)
  {
    && (forall k :: k in fragments ==> k < |blocks| && blocks[k].kind == Heading)
    && (forall k :: k in inside && k < |blocks| ==> blocks[k].kind != Figure && blocks[k].kind != Caption)
  }

  /** Both plans of one chapter: the loop drops the panels of clusters, consumed captions and sidebars. */
  ghost predicate AreOneChapter(
      figures: FigureCaptions.Plan, text: ChapterRender.Plan, glued: set<nat>, inside: set<nat>)
  {
    && figures.IsPlan() && text.IsPlan(glued) && AreSameBlocks(text.blocks, figures.items)
    && AreSetAside(text.blocks, text.skip0, inside)
    && text.clusterSkip == figures.absorbed && text.hidden == inside + figures.consumed + figures.sidebars
  }

  /**
   * The export of a chapter, from its blocks to the emitted texts. `fragments` are the headings merged into their
   * successors, `inside` the text inside figures.
   */
  method ExportChapter(
      blocks: seq<Block>, items: seq<FigureCaptions.Item>, fragments: set<nat>, inside: set<nat>)
    returns (pieces: seq<seq<nat>>, alts: map<nat, FigureCaptions.Alt>,
             ghost figures: FigureCaptions.Plan, ghost text: ChapterRender.Plan, ghost glued: set<nat>)
    requires AreSameBlocks(blocks, items) && AreSetAside(blocks, fragments, inside)
    ensures AreOneChapter(figures, text, glued, inside) && figures.items == items && text.blocks == blocks
    ensures Increasing(Flatten(pieces)) && Flatten(pieces) == text.Printed(|blocks|)
    ensures forall f: nat :: f in alts <==> figures.IsRendered(f)
    ensures forall f: nat :: f in alts ==> alts[f] == figures.AltOf(f)
  {
    var figurePlan := FigureCaptions.PlanFigures(items);
    var textPlan;
    textPlan, glued := ChapterRender.PlanChapter(
      blocks, fragments, figurePlan.absorbed, inside + figurePlan.consumed + figurePlan.sidebars);
    hide FigureCaptions.Plan.IsPlan, ChapterRender.Plan.IsPlan;
    pieces := ChapterRender.Render(textPlan);
    ChapterRender.PiecesHoldThePrintedText(textPlan, |blocks|);
    ChapterRender.PrintedInOrder(textPlan, glued, |blocks|);
    alts := FigureCaptions.RenderFigures(figurePlan);
    figures, text := figurePlan, textPlan;
  }

  lemma OnlyPanelsAndTextAreAbsorbed(figures: FigureCaptions.Plan, k: nat)
    requires figures.IsPlan() && k in figures.absorbed
    ensures k < |figures.items| && (figures.items[k].kind == Figure || figures.items[k].kind == Paragraph)
  {
    var items := FigureCaptions.ForClusters(figures.items);
    var m: nat :| PanelClusters.Absorbs(items, figures.captions, m, k);
    PanelClusters.RangeIsAbsorbed(items, figures.captions, m, k);
  }

  lemma OnlyFiguresAreSidebars(figures: FigureCaptions.Plan, f: nat)
    requires figures.IsPlan() && f in figures.sidebars
    ensures f < |figures.items| && figures.items[f].kind == Figure
  {}

  /** A caption with a text is emitted as a block exactly when it is not consumed. */
  lemma CaptionIsEmitted(
      figures: FigureCaptions.Plan, text: ChapterRender.Plan, glued: set<nat>, inside: set<nat>, c: nat)
    requires AreOneChapter(figures, text, glued, inside) && FigureCaptions.IsCaption(figures.items, c) && text.Shows(c)
    ensures text.IsPrinted(c) <==> figures.IsBlock(c)
  {
    hide FigureCaptions.Plan.IsPlan, ChapterRender.Plan.IsPlan, ChapterRender.Plan.Printed;
    if c in figures.absorbed {
      OnlyPanelsAndTextAreAbsorbed(figures, c);
    } else if c in figures.sidebars {
      OnlyFiguresAreSidebars(figures, c);
    }
    ChapterRender.OtherIsPrinted(text, glued, c);
  }

  /** When a caption with a text comes out nowhere, and when it comes out both below a figure and as a block. */
  lemma CaptionInExport(
      figures: FigureCaptions.Plan, text: ChapterRender.Plan, glued: set<nat>, inside: set<nat>, c: nat)
    requires AreOneChapter(figures, text, glued, inside) && FigureCaptions.IsCaption(figures.items, c) && text.Shows(c)
    ensures !text.IsPrinted(c) && !figures.IsShown(c) <==> FigureCaptions.IsLost(figures, c)
    ensures text.IsPrinted(c) && figures.IsShown(c) <==> FigureCaptions.IsSpilt(figures, c)
  {
    hide FigureCaptions.Plan.IsPlan, ChapterRender.Plan.IsPlan, FigureCaptions.IsLost;
    CaptionIsEmitted(figures, text, glued, inside, c);
    FigureCaptions.LostExactly(figures, c);
    if figures.IsShown(c) {
      FigureCaptions.ShownAndBlock(figures, c);
    }
  }
}
