/**
 * scripts/export_chapter_zh_html.py: the text passes run one after the other, and the render loop that
 * consumes their maps and sets. The question throughout is which block's text ends up where, and how often.
 */
module ChapterRender {
  import opened ChapterBlocks
  import opened Wrappers
  import opened Continuations
  import opened Groups
  import opened OrderedLists
  import opened Listings

  /**
   * The state the passes leave for the render loop. `skip0` are the heading fragments merged into their
   * successor, `clusterSkip` the blocks of multi-panel figures, `hidden` whatever else the loop drops
   * outright: consumed captions, text inside figures, sidebars mistaken for figures.
   */
  datatype Plan = Plan(
    blocks: seq<Block>, skip0: set<nat>, clusterSkip: set<nat>, hidden: set<nat>,
    previous: map<nat, nat>, chains: map<nat, seq<nat>>, lists: map<nat, seq<nat>>,
    bodies: map<nat, seq<nat>>, bodyIds: set<nat>, skip: set<nat>)
  {
    /** What the continuation pass may not touch. */
    function Out(): set<nat> { skip0 + clusterSkip }

    /** What is suppressed when the list pass starts, besides the cluster blocks. */
    ghost predicate Glued(k: nat)
    {
      k in skip0 || Straddled(blocks, Out(), k) || k in previous
    }

    /** The plan is what the passes compute. `glued` is the suppression set between the two passes. */
    ghost predicate IsPlan(glued: set<nat>)
    {
      && IsContinuationMap(blocks, Out(), previous)
      && AreChains(previous, chains)
      && (forall k :: k in glued <==> Glued(k))
      && AreLists(blocks, glued + clusterSkip, lists)
      && (forall k :: k in skip <==> k in glued || IsMember(lists, k))
      && AreListings(blocks, bodies)
      && (forall j :: j in bodyIds <==> exists h: nat :: InBody(blocks, h, j))
    }

    /** The render loop passes over the block without a trace. */
    predicate Dropped(k: nat)
    {
      k in clusterSkip || k in hidden || k in skip || k in bodyIds
    }

    /** The blocks whose text goes into the piece emitted at block `k`; none when no piece is emitted. */
    function Sources(k: nat): seq<nat>
    {
      if Dropped(k) then []
      else if k in bodies then [k] + bodies[k]
      else if k in lists && lists[k] != [] then lists[k]
      else if exists m :: m in Merged(k) && Shows(m) then Merged(k)
      else []
    }

    /** A paragraph with everything glued to it. */
    function Merged(k: nat): seq<nat>
    {
      [k] + if k in chains then chains[k] else []
    }

    predicate Shows(k: nat)
    {
      k < |blocks| && blocks[k].shows
    }

    /** The emitted pieces of the first `n` blocks. */
    function Pieces(n: nat): seq<seq<nat>>
    {
      if n == 0 then []
      else if Sources(n - 1) == [] then Pieces(n - 1)
      else Pieces(n - 1) + [Sources(n - 1)]
    }

    /** All the printed text of the first `n` blocks, by the block it comes from. */
    function Printed(n: nat): seq<nat>
    {
      if n == 0 then [] else Printed(n - 1) + Sources(n - 1)
    }

    /** The text of block `x` is in some piece. */
    predicate IsPrinted(x: nat)
    {
      x in Printed(|blocks|)
    }

    /** `h` is the last item of an ordered list. */
    ghost predicate IsListTail(h: nat)
    {
      exists l :: l in lists && h == l + |lists[l]| - 1
    }
  }

  // ---- The passes, and the loop -----------------------------------------------------------------

  method PlanChapter(blocks: seq<Block>, skip0: set<nat>, clusterSkip: set<nat>, hidden: set<nat>)
    returns (plan: Plan, ghost glued: set<nat>)
    ensures plan.blocks == blocks && plan.skip0 == skip0 && plan.clusterSkip == clusterSkip && plan.hidden == hidden
    ensures plan.IsPlan(glued)
  {
    var previous, skip := FindContinuations(blocks, skip0, clusterSkip);
    var chains;
    chains, skip := BuildChains(blocks, skip0 + clusterSkip, previous, skip);
    glued := skip;
    var lists;
    lists, skip := GroupOrderedLists(blocks, skip, clusterSkip);
    var bodies, bodyIds := CollectListings(blocks);
    plan := Plan(blocks, skip0, clusterSkip, hidden, previous, chains, lists, bodies, bodyIds, skip);
  }

  /** The loop over the blocks, branch by branch; `pieces` is the list of emitted fragments. */
  method Render(plan: Plan) returns (pieces: seq<seq<nat>>)
    ensures pieces == plan.Pieces(|plan.blocks|)
  {
    pieces := [];
    for k := 0 to |plan.blocks|
      invariant pieces == plan.Pieces(k)
    {
      if k in plan.clusterSkip || k in plan.hidden {
        continue;
      }
      if k in plan.skip || k in plan.bodyIds {
        continue;
      }
      if k in plan.bodies {
        pieces := pieces + [[k] + plan.bodies[k]];
        continue;
      }
      var merged := [k];
      if k in plan.chains {
        merged := merged + plan.chains[k];
      }
      if k in plan.lists {
        var items := plan.lists[k];
        if items != [] {
          pieces := pieces + [items];
          continue;
        }
      }
      assert merged == plan.Merged(k);
      if exists m :: m in merged && plan.Shows(m) {
        pieces := pieces + [merged];
      }
    }
  }

  // ---- In document order, and at most once: on every input --------------------------------------

  /** Between a chain's head and a link lie only links and the page headers the chain straddles. */
  lemma {:induction false} ChainCovers(
      blocks: seq<Block>, out: set<nat>, previous: map<nat, nat>, head: nat, chain: seq<nat>, k: nat, m: nat)
    requires IsContinuationMap(blocks, out, previous) && IsChain(previous, head, chain)
    requires k < |chain| && head < m <= chain[k]
    ensures m in previous || Straddled(blocks, out, m)
    decreases k
  {
    var before := if k == 0 then head else chain[k - 1];
    assert Joins(blocks, out, before, chain[k]) by { assert previous[chain[k]] == before; }
    if m <= before {
      ChainCovers(blocks, out, previous, head, chain, k - 1, m);
    }
  }

  lemma BodyIsSwallowed(plan: Plan, h: nat, x: nat, m: nat)
    requires AreListings(plan.blocks, plan.bodies) && h in plan.bodies && x in plan.bodies[h] && h < m <= x
    requires forall j :: j in plan.bodyIds <==> exists h: nat :: InBody(plan.blocks, h, j)
    ensures m in plan.bodyIds
  {
    assert IsBody(plan.blocks, h, plan.bodies[h]);
    assert InBody(plan.blocks, h, m);
  }

  /** The list facts of a plan: lists are stretches of blocks that were not glued away. */
  lemma PlanLists(plan: Plan, glued: set<nat>, l: nat)
    requires plan.IsPlan(glued) && l in plan.lists
    ensures |plan.lists[l]| >= 3 && plan.lists[l] == Range(l, l + |plan.lists[l]|) && l in plan.lists[l]
    ensures forall p :: p in plan.lists[l] ==> p !in glued && p < |plan.blocks|
  {
    ListShape(plan.blocks, glued + plan.clusterSkip, plan.lists, l);
  }

  /** Block `k` takes the text of `x` along: it heads its listing, its list or its chain, or is `x` itself. */
  predicate Claims(plan: Plan, k: nat, x: nat)
  {
    || k == x
    || (k in plan.bodies && x in plan.bodies[k])
    || (k in plan.lists && x in plan.lists[k])
    || (k in plan.chains && x in plan.chains[k])
  }

  lemma SourcesAreClaimed(plan: Plan, k: nat, x: nat)
    requires x in plan.Sources(k)
    ensures Claims(plan, k, x) && !plan.Dropped(k)
  {}

  /** What lies between a block and something it claims is suppressed, whether or not the block is printed. */
  lemma ClaimedStretchIsDropped(plan: Plan, glued: set<nat>, k: nat, x: nat, m: nat)
    requires plan.IsPlan(glued) && Claims(plan, k, x) && k < m <= x
    ensures plan.Dropped(m)
  {
    if k in plan.bodies && x in plan.bodies[k] {
      BodyIsSwallowed(plan, k, x, m);
    } else if k in plan.lists && x in plan.lists[k] {
      PlanLists(plan, glued, k);
      assert IsMember(plan.lists, m);
    } else {
      var chain := plan.chains[k];
      assert IsChain(plan.previous, k, chain);
      var j :| 0 <= j < |chain| && chain[j] == x;
      ChainCovers(plan.blocks, plan.Out(), plan.previous, k, chain, j, m);
      assert plan.Glued(m);
    }
  }

  /** A piece never reaches past the block at which the next piece is emitted. */
  lemma PiecesDoNotOverlap(plan: Plan, glued: set<nat>, k: nat, x: nat, m: nat)
    requires plan.IsPlan(glued) && x in plan.Sources(k) && k < m && plan.Sources(m) != []
    ensures x < m
  {
    SourcesAreClaimed(plan, k, x);
    if m <= x {
      ClaimedStretchIsDropped(plan, glued, k, x, m);
    }
  }

  lemma SourcesInOrder(plan: Plan, glued: set<nat>, k: nat)
    requires plan.IsPlan(glued)
    ensures Increasing(plan.Sources(k))
    ensures forall x :: x in plan.Sources(k) ==> k <= x
  {
    if k in plan.bodies {
      assert IsBody(plan.blocks, k, plan.bodies[k]);
    }
    if k in plan.lists {
      ListShape(plan.blocks, glued + plan.clusterSkip, plan.lists, k);
    }
    MergedInOrder(plan, k);
    hide Plan.IsPlan, Plan.Merged;
  }

  lemma MergedInOrder(plan: Plan, k: nat)
    requires IsContinuationMap(plan.blocks, plan.Out(), plan.previous) && AreChains(plan.previous, plan.chains)
    ensures Increasing(plan.Merged(k)) && forall x :: x in plan.Merged(k) ==> k <= x
  {
    if k in plan.chains {
      ChainInOrder(plan.blocks, plan.Out(), plan.previous, k, plan.chains[k]);
      var merged := plan.Merged(k);
      forall x | x in merged ensures k <= x {
        var m :| 0 <= m < |merged| && merged[m] == x;
        assert m > 0 ==> merged[0] < merged[m];
      }
    }
  }

  /**
   * The printed text, read off all pieces in turn, follows the document strictly. So no text is printed
   * twice and none out of order, whatever roles the blocks play.
   */
  lemma {:induction false} PrintedInOrder(plan: Plan, glued: set<nat>, n: nat)
    requires plan.IsPlan(glued)
    ensures Increasing(plan.Printed(n))
    ensures forall x, m: nat :: x in plan.Printed(n) && m >= n && plan.Sources(m) != [] ==> x < m
  {
    hide Plan.IsPlan, Plan.Sources, Increasing;
    NothingPrinted();
    if n > 0 {
      PrintedInOrder(plan, glued, n - 1);
      SourcesInOrder(plan, glued, n - 1);
      forall x, m: nat | x in plan.Printed(n) && m >= n && plan.Sources(m) != [] ensures x < m {
        if x in plan.Sources(n - 1) {
          PiecesDoNotOverlap(plan, glued, n - 1, x, m);
        }
      }
      IncreasingAppend(plan.Printed(n - 1), plan.Sources(n - 1), n - 1);
    }
  }

  lemma NothingPrinted()
    ensures Increasing([])
  {}

  lemma IncreasingAppend(a: seq<nat>, b: seq<nat>, m: nat)
    requires Increasing(a) && Increasing(b)
    requires forall x :: x in a && b != [] ==> x < m
    requires forall x :: x in b ==> m <= x
    ensures Increasing(a + b)
  {
    forall i, j | 0 <= i < j < |a + b| ensures (a + b)[i] < (a + b)[j] {
      if i < |a| <= j {
        assert a[i] in a && b[j - |a|] in b;
      }
    }
  }

  lemma {:induction false} PiecesHoldThePrintedText(plan: Plan, n: nat)
    ensures Flatten(plan.Pieces(n)) == plan.Printed(n)
  {
    if n > 0 {
      PiecesHoldThePrintedText(plan, n - 1);
      FlattenOne(plan.Pieces(n - 1), plan.Sources(n - 1));
    }
  }

  /** The passes and the loop together: the text of the chapter comes out in document order, no block's twice. */
  method RenderChapter(blocks: seq<Block>, skip0: set<nat>, clusterSkip: set<nat>, hidden: set<nat>)
    returns (pieces: seq<seq<nat>>)
    ensures Increasing(Flatten(pieces))
    // Whatever is neither paragraph nor code comes out unless it was set aside.
    ensures forall p: nat :: p < |blocks| && blocks[p].shows && blocks[p].kind !in {Paragraph, Code} ==>
      (p in Flatten(pieces) <==> IsFree(blocks, skip0, clusterSkip, hidden, p))
  {
    var plan, glued := PlanChapter(blocks, skip0, clusterSkip, hidden);
    pieces := Render(plan);
    PiecesHoldThePrintedText(plan, |blocks|);
    PrintedInOrder(plan, glued, |blocks|);
    forall p: nat | p < |blocks| && blocks[p].shows && blocks[p].kind !in {Paragraph, Code}
      ensures p in plan.Printed(|blocks|) <==> IsFree(blocks, skip0, clusterSkip, hidden, p)
    {
      OtherIsPrinted(plan, glued, p);
    }
  }

  // ---- Exactly which text is lost ---------------------------------------------------------------

  lemma {:induction false} PrintedBySomeBlock(plan: Plan, n: nat, x: nat)
    ensures x in plan.Printed(n) <==> exists k: nat :: k < n && x in plan.Sources(k)
  {
    if n > 0 {
      PrintedBySomeBlock(plan, n - 1, x);
      if x in plan.Sources(n - 1) {
        assert n - 1 < n;
      }
    }
  }

  /** A paragraph that is continued can only be the last item of a list: what follows it is suppressed. */
  lemma ContinuedItemIsTail(plan: Plan, glued: set<nat>, h: nat, l: nat)
    requires plan.IsPlan(glued) && h in plan.chains && l in plan.lists && h in plan.lists[l]
    ensures h == l + |plan.lists[l]| - 1 && h != l
  {
    SuccessorIsGlued(plan, glued, h);
    PlanLists(plan, glued, l);
    hide Plan.IsPlan;
    assert h + 1 !in plan.lists[l];
  }

  lemma SuccessorIsGlued(plan: Plan, glued: set<nat>, h: nat)
    requires plan.IsPlan(glued) && h in plan.chains
    ensures h + 1 in glued
  {
    var chain := plan.chains[h];
    assert IsChain(plan.previous, h, chain);
    assert Joins(plan.blocks, plan.Out(), h, chain[0]) by { assert plan.previous[chain[0]] == h; }
    ChainCovers(plan.blocks, plan.Out(), plan.previous, h, chain, 0, h + 1);
    assert plan.Glued(h + 1);
  }

  lemma HeadNotGlued(plan: Plan, glued: set<nat>, h: nat, n: nat)
    requires plan.IsPlan(glued) && Joins(plan.blocks, plan.Out(), h, n) && h !in plan.previous
    ensures h !in glued && h < |plan.blocks|
  {
    forall p: nat, m: nat | Joins(plan.blocks, plan.Out(), p, m) ensures !(p < h < m) {
      assert !IsPageHeader(plan.blocks[h]);
    }
    assert !Straddled(plan.blocks, plan.Out(), h);
    assert !plan.Glued(h);
  }

  lemma SkipIsGluedOrMember(plan: Plan, glued: set<nat>, k: nat)
    requires plan.IsPlan(glued)
    ensures k in plan.skip <==> k in glued || IsMember(plan.lists, k)
  {}

  lemma ListHeadIsNoMember(plan: Plan, glued: set<nat>, l: nat)
    requires AreLists(plan.blocks, glued + plan.clusterSkip, plan.lists) && l in plan.lists && l in plan.lists[l]
    ensures !IsMember(plan.lists, l)
  {
    forall h | h in plan.lists && l in plan.lists[h] ensures h == l {
      ListsAreDisjoint(plan.blocks, glued + plan.clusterSkip, plan.lists, h, l, l);
    }
  }

  /** The facts about the head of the chain that holds `p`. */
  lemma HeadFacts(plan: Plan, glued: set<nat>, p: nat)
    requires plan.IsPlan(glued) && IsLinear(plan.previous) && p in plan.previous
    ensures var h: nat := Head(plan.previous, p);
      h in plan.chains && p in plan.chains[h] && h < |plan.blocks| && h !in glued
  {
    var h: nat := Head(plan.previous, p);
    HeadIsNoContinuation(plan.previous, p);
    ContinuationInItsChain(plan.previous, plan.chains, p);
    var chain := plan.chains[h];
    assert IsChain(plan.previous, h, chain);
    assert Joins(plan.blocks, plan.Out(), h, chain[0]) by { assert plan.previous[chain[0]] == h; }
    HeadNotGlued(plan, glued, h, chain[0]);
  }

  lemma HeadInListIsTail(plan: Plan, glued: set<nat>, h: nat)
    requires plan.IsPlan(glued) && h in plan.chains
    ensures plan.IsListTail(h) <==> IsMember(plan.lists, h)
    ensures h !in plan.lists
  {
    hide *;
    forall l | l in plan.lists
      ensures l != h && l < l + |plan.lists[l]| - 1 && (h in plan.lists[l] <==> h == l + |plan.lists[l]| - 1)
    {
      PlanLists(plan, glued, l);
      if h in plan.lists[l] {
        ContinuedItemIsTail(plan, glued, h, l);
      }
    }
    TailsAreMembers(plan, h);
  }

  lemma TailsAreMembers(plan: Plan, h: nat)
    requires forall l :: l in plan.lists ==>
      l < l + |plan.lists[l]| - 1 && (h in plan.lists[l] <==> h == l + |plan.lists[l]| - 1)
    ensures plan.IsListTail(h) <==> IsMember(plan.lists, h)
  {
    if l: nat :| l in plan.lists && h == l + |plan.lists[l]| - 1 {
      assert l < h && h in plan.lists[l];
    }
  }

  // ---- The carrier of a block's text ------------------------------------------------------------

  /** The earliest block, from `k` on, that claims `x`. */
  function CarrierFrom(plan: Plan, k: nat, x: nat): (c: nat)
    requires k <= x
    ensures k <= c <= x && Claims(plan, c, x)
    ensures forall m :: k <= m < c ==> !Claims(plan, m, x)
    decreases x - k
  {
    if Claims(plan, k, x) then k else CarrierFrom(plan, k + 1, x)
  }

  /** The block in whose place the text of `x` is printed, if anywhere: the earliest that claims it. */
  function Carrier(plan: Plan, x: nat): (c: nat)
    ensures c <= x && Claims(plan, c, x)
    ensures forall m :: 0 <= m < c ==> !Claims(plan, m, x)
  {
    CarrierFrom(plan, 0, x)
  }

  lemma ClaimsFromBelow(plan: Plan, glued: set<nat>, k: nat, x: nat)
    requires plan.IsPlan(glued) && Claims(plan, k, x)
    ensures k <= x
  {
    if k in plan.bodies && x in plan.bodies[k] {
      assert IsBody(plan.blocks, k, plan.bodies[k]);
    } else if k in plan.lists && x in plan.lists[k] {
      PlanLists(plan, glued, k);
    } else if k in plan.chains && x in plan.chains[k] {
      MergedInOrder(plan, k);
      assert x in plan.Merged(k);
    }
  }

  /** The loop comes to the block: no set that the passes leave holds it. */
  predicate IsKept(plan: Plan, k: nat)
  {
    k !in plan.clusterSkip && k !in plan.hidden && k !in plan.skip && k !in plan.bodyIds
  }

  /** Nobody but the carrier prints a text. */
  lemma OnlyTheCarrierPrints(plan: Plan, glued: set<nat>, k: nat, x: nat)
    requires plan.IsPlan(glued) && x in plan.Sources(k)
    ensures k == Carrier(plan, x)
  {
    hide Plan.IsPlan, Plan.Sources, Plan.Dropped, Carrier, Claims;
    var c := Carrier(plan, x);
    SourcesAreClaimed(plan, k, x);
    ClaimsFromBelow(plan, glued, k, x);
    if c < k {
      ClaimedStretchIsDropped(plan, glued, c, x, k);
    }
  }

  /** What a carrier that is rendered does with a text it claims: a listing header leaves out all but its listing. */
  lemma CarrierKeepsText(plan: Plan, glued: set<nat>, c: nat, x: nat)
    requires plan.IsPlan(glued) && Claims(plan, c, x) && plan.Shows(x) && !plan.Dropped(c)
    ensures x in plan.Sources(c) <==> (c in plan.bodies ==> x == c || x in plan.bodies[c])
  {
    if c in plan.lists {
      PlanLists(plan, glued, c);
    }
    if c in plan.chains {
      HeadInListIsTail(plan, glued, c);
    }
    hide Plan.IsPlan;
  }

  /**
   * Which text is printed, for every plan and every block with text: that whose carrier is rendered and, if
   * the carrier heads a listing, belongs to that listing. By `PrintedInOrder` it is then printed once.
   */
  lemma PrintedExactly(plan: Plan, glued: set<nat>, x: nat)
    requires plan.IsPlan(glued) && plan.Shows(x)
    ensures var c := Carrier(plan, x);
      plan.IsPrinted(x) <==> IsKept(plan, c) && (c in plan.bodies ==> x == c || x in plan.bodies[c])
  {
    var c := Carrier(plan, x);
    PrintedBySomeBlock(plan, |plan.blocks|, x);
    hide Plan.IsPlan, Carrier, Claims, Plan.Printed;
    if k: nat :| k < |plan.blocks| && x in plan.Sources(k) {
      OnlyTheCarrierPrints(plan, glued, k, x);
      SourcesAreClaimed(plan, k, x);
    }
    if !plan.Dropped(c) {
      CarrierKeepsText(plan, glued, c, x);
    }
    hide Plan.Sources, Plan.Dropped;
  }

  // ---- The ways to lose text --------------------------------------------------------------------

  /** A line of a listing that nothing before the header claims goes with the listing. */
  lemma GoesWithListing(plan: Plan, glued: set<nat>, g: nat, p: nat)
    requires plan.IsPlan(glued) && plan.Shows(p) && InBody(plan.blocks, g, p)
    requires forall k: nat :: k < g ==> !Claims(plan, k, p)
    ensures plan.IsPrinted(p) <==> IsKept(plan, g)
  {
    HeaderClaims(plan, glued, g, p);
    PrintedExactly(plan, glued, p);
    hide Plan.IsPlan, Claims, IsKept;
  }

  lemma HeaderClaims(plan: Plan, glued: set<nat>, g: nat, p: nat)
    requires plan.IsPlan(glued)
    ensures InBody(plan.blocks, g, p) <==> g in plan.bodies && p in plan.bodies[g]
    ensures InBody(plan.blocks, g, p) ==> Claims(plan, g, p) && p in plan.bodyIds
  {
    if g in plan.bodies {
      assert IsBody(plan.blocks, g, plan.bodies[g]);
    }
  }

  /** A glued paragraph is claimed by the head of its chain, by the header of its listing, and by itself. */
  lemma ContinuationIsClaimedByHead(plan: Plan, glued: set<nat>, k: nat, p: nat)
    requires plan.IsPlan(glued) && IsLinear(plan.previous) && p in plan.previous
    requires Claims(plan, k, p)
    ensures k == Head(plan.previous, p) || k == p || InBody(plan.blocks, k, p)
  {
    ContinuationInItsChain(plan.previous, plan.chains, p);
    HeaderClaims(plan, glued, k, p);
    assert p in glued by { assert plan.Glued(p); }
    hide IsLinear, Head, AreChains, IsContinuationMap, AreListings, InBody;
    if k in plan.lists && p in plan.lists[k] {
      PlanLists(plan, glued, k);
    }
  }

  lemma HeadClaims(plan: Plan, glued: set<nat>, p: nat)
    requires plan.IsPlan(glued) && p in plan.previous
    ensures IsLinear(plan.previous)
    ensures var h: nat := Head(plan.previous, p); h < p && Claims(plan, h, p)
  {
    ContinuationMapIsLinear(plan.blocks, plan.Out(), plan.previous);
    HeadFacts(plan, glued, p);
    HeadIsNoContinuation(plan.previous, p);
    var h: nat := Head(plan.previous, p);
    ClaimsFromBelow(plan, glued, h, p);
  }

  /**
   * A continuation is printed with the head of its chain. It is lost in four cases and no others: the head is
   * the last item of an ordered list, a line of a listing, the header of one, or hidden inside a figure. A
   * continuation that is a line of a listing begun no later than its chain is printed with the listing instead.
   */
  lemma ContinuationIsPrinted(plan: Plan, glued: set<nat>, p: nat)
    requires plan.IsPlan(glued) && p in plan.previous && plan.Shows(p)
    ensures IsLinear(plan.previous)
    ensures forall g: nat :: g <= Head(plan.previous, p) && InBody(plan.blocks, g, p) ==>
      (plan.IsPrinted(p) <==> IsKept(plan, g))
    ensures var h := Head(plan.previous, p);
      (forall g: nat :: g <= h ==> !InBody(plan.blocks, g, p)) ==>
      (plan.IsPrinted(p) <==> !plan.IsListTail(h) && h !in plan.bodyIds && h !in plan.bodies && h !in plan.hidden)
  {
    hide Plan.IsPlan, IsLinear, Claims, InBody, IsKept, Head, Carrier, Plan.IsListTail;
    HeadClaims(plan, glued, p);
    var h: nat := Head(plan.previous, p);
    forall g: nat | g <= h && InBody(plan.blocks, g, p) ensures plan.IsPrinted(p) <==> IsKept(plan, g) {
      NothingBeforeHeader(plan, glued, g, p);
      GoesWithListing(plan, glued, g, p);
    }
    if forall g: nat :: g <= h ==> !InBody(plan.blocks, g, p) {
      HeadCarries(plan, glued, p);
      GoesWithHead(plan, glued, p);
    }
  }

  lemma NothingBeforeHeader(plan: Plan, glued: set<nat>, g: nat, p: nat)
    requires plan.IsPlan(glued) && IsLinear(plan.previous) && p in plan.previous
    requires g <= Head(plan.previous, p) && InBody(plan.blocks, g, p)
    ensures forall k: nat :: k < g ==> !Claims(plan, k, p)
  {
    hide Plan.IsPlan, IsLinear, Claims, Head;
    forall k: nat | k < g ensures !Claims(plan, k, p) {
      OneHeader(plan, g, k, p);
      if Claims(plan, k, p) {
        ContinuationIsClaimedByHead(plan, glued, k, p);
      }
    }
  }

  lemma HeadCarries(plan: Plan, glued: set<nat>, p: nat)
    requires plan.IsPlan(glued) && IsLinear(plan.previous) && p in plan.previous
    requires forall g: nat :: g <= Head(plan.previous, p) ==> !InBody(plan.blocks, g, p)
    ensures Carrier(plan, p) == Head(plan.previous, p) != p
  {
    hide Plan.IsPlan, IsLinear, Claims, InBody, Head, Carrier;
    HeadClaims(plan, glued, p);
    ContinuationIsClaimedByHead(plan, glued, Carrier(plan, p), p);
  }

  lemma OneHeader(plan: Plan, g: nat, k: nat, p: nat)
    requires InBody(plan.blocks, g, p)
    ensures InBody(plan.blocks, k, p) ==> k == g
  {
    if InBody(plan.blocks, k, p) {
      BodiesAreDisjoint(plan.blocks, g, k, p);
    }
  }

  lemma GoesWithHead(plan: Plan, glued: set<nat>, p: nat)
    requires plan.IsPlan(glued) && p in plan.previous && plan.Shows(p) && IsLinear(plan.previous)
    requires Carrier(plan, p) == Head(plan.previous, p) != p
    requires !InBody(plan.blocks, Head(plan.previous, p), p)
    ensures var h := Head(plan.previous, p);
      plan.IsPrinted(p) <==> !plan.IsListTail(h) && h !in plan.bodyIds && h !in plan.bodies && h !in plan.hidden
  {
    PrintedExactly(plan, glued, p);
    HeadFacts(plan, glued, p);
    var h: nat := Head(plan.previous, p);
    HeadInListIsTail(plan, glued, h);
    SkipIsGluedOrMember(plan, glued, h);
    HeadIsVisible(plan, glued, p);
    HeaderClaims(plan, glued, h, p);
    hide Plan.IsPlan, IsLinear, Carrier, InBody;
  }

  lemma HeadIsVisible(plan: Plan, glued: set<nat>, p: nat)
    requires plan.IsPlan(glued) && IsLinear(plan.previous) && p in plan.previous
    ensures Head(plan.previous, p) !in plan.clusterSkip
  {
    HeadFacts(plan, glued, p);
    var h: nat := Head(plan.previous, p);
    var chain := plan.chains[h];
    assert IsChain(plan.previous, h, chain);
    assert Joins(plan.blocks, plan.Out(), h, chain[0]) by { assert plan.previous[chain[0]] == h; }
  }

  /**
   * An item of an ordered list is printed with the list. It is lost in three cases and no others: the first
   * item is a line of a listing, the header of one (which then prints itself only), or hidden inside a figure.
   * An item that is a line of a listing begun no later than the list is printed with the listing instead.
   */
  lemma ItemIsPrinted(plan: Plan, glued: set<nat>, l: nat, p: nat)
    requires plan.IsPlan(glued) && l in plan.lists && p in plan.lists[l] && plan.Shows(p)
    ensures forall g: nat :: g <= l && InBody(plan.blocks, g, p) ==> (plan.IsPrinted(p) <==> IsKept(plan, g))
    ensures (forall g: nat :: g <= l ==> !InBody(plan.blocks, g, p)) ==>
      (plan.IsPrinted(p) <==> l !in plan.bodyIds && (l in plan.bodies ==> p == l) && l !in plan.hidden)
  {
    PlanLists(plan, glued, l);
    hide Plan.IsPlan, InBody, IsKept;
    forall k: nat | Claims(plan, k, p) ensures k == l || k == p || InBody(plan.blocks, k, p) {
      ItemIsClaimedByList(plan, glued, l, k, p);
    }
    assert Claims(plan, l, p) && l <= p;
    hide Claims;
    forall g: nat | g <= l && InBody(plan.blocks, g, p) ensures plan.IsPrinted(p) <==> IsKept(plan, g) {
      forall k: nat | k < g ensures !Claims(plan, k, p) { OneHeader(plan, g, k, p); }
      GoesWithListing(plan, glued, g, p);
    }
    if forall g: nat :: g <= l ==> !InBody(plan.blocks, g, p) {
      assert Carrier(plan, p) == l;
      GoesWithList(plan, glued, l, p);
    }
  }

  lemma GoesWithList(plan: Plan, glued: set<nat>, l: nat, p: nat)
    requires plan.IsPlan(glued) && l in plan.lists && p in plan.lists[l] && plan.Shows(p)
    requires Carrier(plan, p) == l && !InBody(plan.blocks, l, p)
    ensures plan.IsPrinted(p) <==> l !in plan.bodyIds && (l in plan.bodies ==> p == l) && l !in plan.hidden
  {
    PrintedExactly(plan, glued, p);
    PlanLists(plan, glued, l);
    ListHeadIsNoMember(plan, glued, l);
    SkipIsGluedOrMember(plan, glued, l);
    HeaderClaims(plan, glued, l, p);
    ListIsVisible(plan, glued, l);
    hide Plan.IsPlan, Carrier, InBody;
  }

  lemma ListIsVisible(plan: Plan, glued: set<nat>, l: nat)
    requires plan.IsPlan(glued) && l in plan.lists
    ensures l !in plan.clusterSkip
  {
    ListShape(plan.blocks, glued + plan.clusterSkip, plan.lists, l);
  }

  lemma ItemIsClaimedByList(plan: Plan, glued: set<nat>, l: nat, k: nat, p: nat)
    requires plan.IsPlan(glued) && l in plan.lists && p in plan.lists[l] && Claims(plan, k, p)
    ensures k == l || k == p || InBody(plan.blocks, k, p)
  {
    PlanLists(plan, glued, l);
    HeaderClaims(plan, glued, k, p);
    assert p !in plan.previous by { assert p in plan.previous ==> plan.Glued(p); }
    hide AreChains, IsContinuationMap, AreListings, InBody;
    if k in plan.lists && p in plan.lists[k] {
      ListsAreDisjoint(plan.blocks, glued + plan.clusterSkip, plan.lists, k, l, p);
    } else if k in plan.chains && p in plan.chains[k] {
      LinksAreGlued(plan, k, p);
    }
  }

  lemma LinksAreGlued(plan: Plan, k: nat, p: nat)
    requires AreChains(plan.previous, plan.chains) && k in plan.chains && p in plan.chains[k]
    ensures p in plan.previous
  {
    assert IsChain(plan.previous, k, plan.chains[k]);
  }

  /** A line of a listing whose header no earlier pass suppressed is printed exactly if the header is. */
  lemma LineIsPrinted(plan: Plan, glued: set<nat>, h: nat, p: nat)
    requires plan.IsPlan(glued) && h in plan.bodies && p in plan.bodies[h] && plan.Shows(p) && h !in plan.skip
    ensures plan.IsPrinted(p) <==> h !in plan.clusterSkip && h !in plan.hidden
  {
    hide Carrier;
    PrintedExactly(plan, glued, p);
    var c := Carrier(plan, p);
    assert InBody(plan.blocks, h, p) by { assert IsBody(plan.blocks, h, plan.bodies[h]); }
    assert c <= h by { assert Claims(plan, h, p); }
    if c < h {
      EarlierClaimSuppresses(plan, glued, c, p, h);
    }
    assert h !in plan.bodyIds by {
      forall g: nat ensures !InBody(plan.blocks, g, h) { assert !IsBodyLine(plan.blocks[h]); }
    }
    hide Plan.IsPlan;
  }

  /** A claim on `p` that reaches over a listing header suppresses the header. */
  lemma EarlierClaimSuppresses(plan: Plan, glued: set<nat>, c: nat, p: nat, h: nat)
    requires plan.IsPlan(glued) && Claims(plan, c, p) && c < h < p && InBody(plan.blocks, h, p)
    ensures h in plan.skip
  {
    if c in plan.bodies && p in plan.bodies[c] {
      assert IsBody(plan.blocks, c, plan.bodies[c]);
      BodiesAreDisjoint(plan.blocks, c, h, p);
    } else if c in plan.lists && p in plan.lists[c] {
      PlanLists(plan, glued, c);
      assert IsMember(plan.lists, h);
    } else {
      var chain := plan.chains[c];
      assert IsChain(plan.previous, c, chain);
      var j :| 0 <= j < |chain| && chain[j] == p;
      ChainCovers(plan.blocks, plan.Out(), plan.previous, c, chain, j, h);
      assert plan.Glued(h);
    }
  }

  /** A block that nothing else claims is printed unless it is dropped itself. */
  lemma PlainIsPrinted(plan: Plan, glued: set<nat>, p: nat)
    requires plan.IsPlan(glued) && plan.Shows(p) && forall k: nat :: k < p ==> !Claims(plan, k, p)
    ensures plan.IsPrinted(p) <==> IsKept(plan, p)
  {
    PrintedExactly(plan, glued, p);
    hide Plan.IsPlan, Claims;
  }

  // ---- What nothing takes hold of comes out -----------------------------------------------------

  /** The block has text, and no pass has set it aside: no fragment, no part of a figure, nothing consumed. */
  predicate IsFree(blocks: seq<Block>, skip0: set<nat>, clusterSkip: set<nat>, hidden: set<nat>, p: nat)
  {
    p < |blocks| && blocks[p].shows && p !in skip0 && p !in clusterSkip && p !in hidden
  }

  /** Chains, lists and listings are made of paragraphs and code. */
  lemma OnlyTextIsTaken(plan: Plan, glued: set<nat>, k: nat, p: nat)
    requires plan.IsPlan(glued) && p < |plan.blocks|
    requires plan.blocks[p].kind != Paragraph && plan.blocks[p].kind != Code
    ensures p !in plan.previous && !Straddled(plan.blocks, plan.Out(), p) && p !in plan.bodyIds
    ensures k in plan.lists ==> p !in plan.lists[k]
    ensures Claims(plan, k, p) ==> k == p
  {
    assert forall h: nat :: !InBody(plan.blocks, h, p);
    if k in plan.lists && p in plan.lists[k] {
      ItemsAreParagraphs(plan, glued, k, p);
    }
    if k in plan.chains && p in plan.chains[k] {
      LinksAreGlued(plan, k, p);
    }
    HeaderClaims(plan, glued, k, p);
  }

  lemma ItemsAreParagraphs(plan: Plan, glued: set<nat>, l: nat, p: nat)
    requires plan.IsPlan(glued) && l in plan.lists && p in plan.lists[l]
    ensures p < |plan.blocks| && plan.blocks[p].kind == Paragraph
  {
    ListShape(plan.blocks, glued + plan.clusterSkip, plan.lists, l);
    assert IsItem(plan.blocks, glued + plan.clusterSkip, l, p);
  }

  /** A heading, a caption, an equation: whatever is neither paragraph nor code comes out unless it was set aside. */
  lemma OtherIsPrinted(plan: Plan, glued: set<nat>, p: nat)
    requires plan.IsPlan(glued) && p < |plan.blocks| && plan.blocks[p].shows
    requires plan.blocks[p].kind != Paragraph && plan.blocks[p].kind != Code
    ensures p in plan.Printed(|plan.blocks|)
       <==> IsFree(plan.blocks, plan.skip0, plan.clusterSkip, plan.hidden, p)
  {
    forall k: nat
      ensures p !in plan.previous && !Straddled(plan.blocks, plan.Out(), p) && p !in plan.bodyIds
      ensures k in plan.lists ==> p !in plan.lists[k]
      ensures Claims(plan, k, p) ==> k == p
    {
      OnlyTextIsTaken(plan, glued, k, p);
    }
    PlainIsPrinted(plan, glued, p);
    SkipIsGluedOrMember(plan, glued, p);
    GluedIs(plan, glued, p);
    hide Plan.IsPlan, Claims, Plan.Printed, Straddled;
  }

  lemma GluedIs(plan: Plan, glued: set<nat>, p: nat)
    requires plan.IsPlan(glued)
    ensures p in glued <==> p in plan.skip0 || Straddled(plan.blocks, plan.Out(), p) || p in plan.previous
  {}

  /**
   * A paragraph or code block that continues nothing, stands in no list and no listing, and does not lie between
   * a continuation and what it continues comes out unless it was set aside.
   */
  lemma LoneTextIsPrinted(plan: Plan, glued: set<nat>, p: nat)
    requires plan.IsPlan(glued) && p < |plan.blocks| && plan.blocks[p].shows
    requires p !in plan.previous && (forall h: nat :: !InBody(plan.blocks, h, p))
    requires forall l :: l in plan.lists ==> p !in plan.lists[l]
    requires forall n :: n in plan.previous ==> !(plan.previous[n] < p < n)
    ensures p in plan.Printed(|plan.blocks|)
       <==> IsFree(plan.blocks, plan.skip0, plan.clusterSkip, plan.hidden, p)
  {
    forall k: nat ensures Claims(plan, k, p) ==> k == p {
      HeaderClaims(plan, glued, k, p);
      if k in plan.chains && p in plan.chains[k] {
        LinksAreGlued(plan, k, p);
      }
    }
    StraddledExactly(plan.blocks, plan.Out(), plan.previous, p);
    PlainIsPrinted(plan, glued, p);
    SkipIsGluedOrMember(plan, glued, p);
    GluedIs(plan, glued, p);
    hide Claims, Plan.Printed, Straddled, InBody;
  }

  /** A page header between a continuation and what it continues never comes out. */
  lemma HeaderInsideIsDropped(plan: Plan, glued: set<nat>, n: nat, p: nat)
    requires plan.IsPlan(glued) && n in plan.previous && plan.previous[n] < p < n && plan.Shows(p)
    ensures p !in plan.Printed(|plan.blocks|)
  {
    assert Joins(plan.blocks, plan.Out(), plan.previous[n], n);
    assert plan.Glued(p) && IsPageHeader(plan.blocks[p]);
    forall k: nat ensures Claims(plan, k, p) ==> k == p {
      NothingClaimsHeader(plan, glued, k, p);
    }
    PlainIsPrinted(plan, glued, p);
    SkipIsGluedOrMember(plan, glued, p);
    hide Plan.IsPlan, Claims, Plan.Printed;
  }

  lemma NothingClaimsHeader(plan: Plan, glued: set<nat>, k: nat, p: nat)
    requires plan.IsPlan(glued) && p < |plan.blocks| && IsPageHeader(plan.blocks[p]) && p in glued
    ensures Claims(plan, k, p) ==> k == p
  {
    HeaderClaims(plan, glued, k, p);
    if k in plan.lists && p in plan.lists[k] {
      PlanLists(plan, glued, k);
    }
    if k in plan.chains && p in plan.chains[k] {
      LinksAreGlued(plan, k, p);
    }
  }

  // ---- What is printed together -----------------------------------------------------------------

  /** `piece` is emitted. */
  ghost predicate IsEmitted(plan: Plan, piece: seq<nat>)
  {
    piece in plan.Pieces(|plan.blocks|)
  }

  lemma {:induction false} PiecesAreSources(plan: Plan, n: nat, k: nat)
    requires k < n && plan.Sources(k) != []
    ensures plan.Sources(k) in plan.Pieces(n)
  {
    hide Plan.Sources;
    if k < n - 1 {
      PiecesAreSources(plan, n - 1, k);
    }
  }

  /** A listing comes out in one piece, the header first. */
  lemma ListingIsOnePiece(plan: Plan, h: nat)
    requires h in plan.bodies && h < |plan.blocks|
    requires h !in plan.skip && h !in plan.clusterSkip && h !in plan.hidden && h !in plan.bodyIds
    ensures IsEmitted(plan, [h] + plan.bodies[h])
  {
    PiecesAreSources(plan, |plan.blocks|, h);
  }

  /** A list comes out in one piece, item by item. */
  lemma ListIsOnePiece(plan: Plan, h: nat)
    requires h in plan.lists && plan.lists[h] != [] && h < |plan.blocks| && h !in plan.bodies
    requires h !in plan.skip && h !in plan.clusterSkip && h !in plan.hidden && h !in plan.bodyIds
    ensures IsEmitted(plan, plan.lists[h])
  {
    PiecesAreSources(plan, |plan.blocks|, h);
  }

  /** A paragraph comes out in one piece with all that is glued to it, if any of it has text. */
  lemma GluedParagraphIsOnePiece(plan: Plan, h: nat, m: nat)
    requires h in plan.chains && h !in plan.lists && h < |plan.blocks| && h !in plan.bodies
    requires h !in plan.skip && h !in plan.clusterSkip && h !in plan.hidden && h !in plan.bodyIds
    requires m < |plan.blocks| && plan.blocks[m].shows && (m == h || m in plan.chains[h])
    ensures IsEmitted(plan, [h] + plan.chains[h])
  {
    assert m in plan.Merged(h) && plan.Shows(m);
    PiecesAreSources(plan, |plan.blocks|, h);
  }

  // ---- Two chapters that lose text --------------------------------------------------------------

  /** "1 ...", "2 ...", "3 ... and", then "so on": three list items, the last one cut mid-sentence. */
  const CUT_LIST := [
    Block(Paragraph, false, false, false, false, Some(1), false, false, true),
    Block(Paragraph, false, false, false, false, Some(2), false, false, true),
    Block(Paragraph, false, false, true, false, Some(3), false, false, true),
    Block(Paragraph, false, false, false, true, None, false, false, true)]

  lemma CutListHasOneJoint(p: nat, n: nat)
    ensures Joins(CUT_LIST, {}, p, n) <==> p == 2 && n == 3
  {
    if p == 2 && n == 3 {
      assert Follows(CUT_LIST, 2, 3);
    }
  }

  /** The loss is real: the fourth block is never printed. */
  lemma ListTailLosesItsContinuation(plan: Plan, glued: set<nat>)
    requires plan.blocks == CUT_LIST && plan.skip0 == {} && plan.clusterSkip == {} && plan.hidden == {}
    requires plan.IsPlan(glued)
    ensures plan.Shows(3) && !plan.IsPrinted(3)
  {
    assert plan.Out() == {};
    CutListIsGlued(plan, glued);
    CutListIsAList(plan, glued);
    CutListHasNoListing(plan);
    hide Plan.IsPlan, Plan.IsListTail, AreListings;
    ContinuationIsPrinted(plan, glued, 3);
  }

  lemma CutListIsGlued(plan: Plan, glued: set<nat>)
    requires plan.blocks == CUT_LIST && plan.skip0 == {} && plan.Out() == {} && plan.IsPlan(glued)
    ensures plan.previous == map[3 := 2] && glued == {3}
    ensures IsLinear(plan.previous) && Head(plan.previous, 3) == 2
  {
    forall p: nat, n: nat ensures Joins(CUT_LIST, {}, p, n) <==> p == 2 && n == 3 { CutListHasOneJoint(p, n); }
    forall n ensures n in plan.previous <==> n == 3 {
      assert n in plan.previous ==> Joins(CUT_LIST, {}, plan.previous[n], n);
      assert Joins(CUT_LIST, {}, 2, 3);
    }
    assert Joins(CUT_LIST, {}, plan.previous[3], 3);
    assert plan.previous == map[3 := 2];
    forall k: nat ensures k in glued <==> k == 3 {
      assert k in glued <==> plan.Glued(k);
    }
    assert Head(plan.previous, 2) == 2;
  }

  lemma CutListIsAList(plan: Plan, glued: set<nat>)
    requires plan.blocks == CUT_LIST && plan.clusterSkip == {} && glued == {3}
    requires AreLists(plan.blocks, glued + plan.clusterSkip, plan.lists)
    ensures plan.IsListTail(2)
  {
    var out := glued + plan.clusterSkip;
    assert IsRun(CUT_LIST, out, 0, 3) && IsList(CUT_LIST, out, 0, 3);
    assert 0 in plan.lists && |plan.lists[0]| == 3;
  }

  lemma CutListHasNoListing(plan: Plan)
    requires plan.blocks == CUT_LIST && AreListings(plan.blocks, plan.bodies)
    requires forall j :: j in plan.bodyIds <==> exists h: nat :: InBody(plan.blocks, h, j)
    ensures plan.bodies == map[] && plan.bodyIds == {}
  {}

  /** "Listing 4.1", "return total", a page header, "so on": a listing that a page break cuts, and what follows it. */
  const CUT_LISTING := [
    Block(Paragraph, false, false, false, false, None, true, false, true),
    Block(Paragraph, false, false, true, true, None, false, true, true),
    Block(Paragraph, false, true, false, false, None, false, false, true),
    Block(Paragraph, false, false, false, true, None, false, false, true)]

  lemma CutListingHasOneJoint(p: nat, n: nat)
    ensures Joins(CUT_LISTING, {}, p, n) <==> p == 1 && n == 3
  {
    if p == 1 && n == 3 {
      assert Follows(CUT_LISTING, 1, 3);
    }
  }

  /** The paragraph after the page break is glued to a line of the listing, and so never printed. */
  lemma ListingLineLosesItsContinuation(plan: Plan, glued: set<nat>)
    requires plan.blocks == CUT_LISTING && plan.skip0 == {} && plan.clusterSkip == {} && plan.hidden == {}
    requires plan.IsPlan(glued)
    ensures plan.Shows(3) && !plan.IsPrinted(3)
  {
    assert plan.Out() == {};
    CutListingHasOneJoint(1, 3);
    forall n | n in plan.previous ensures n == 3 && plan.previous[n] == 1 {
      CutListingHasOneJoint(plan.previous[n], n);
    }
    assert 3 in plan.previous && 1 !in plan.previous;
    assert 1 in plan.bodyIds by { assert InBody(CUT_LISTING, 0, 1); }
    assert 3 !in plan.bodyIds;
    hide Plan.IsPlan, Plan.IsListTail, AreListings;
    ContinuationIsPrinted(plan, glued, 3);
    assert Head(plan.previous, 1) == 1;
  }
}
