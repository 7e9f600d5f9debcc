/** scripts/export_chapter_zh_html.py: runs of numbered paragraphs that together form one ordered list. */
module OrderedLists {
  import opened ChapterBlocks
  import opened Wrappers

  const SHORTEST_LIST := 3

  /**
   * Block `k` is a printed paragraph with the number it needs to be an item of a list that begins at `i`.
   * `out` holds the suppressed blocks.
   */
  predicate IsItem(blocks: seq<Block>, out: set<nat>, i: nat, k: nat)
  {
    k < |blocks| && blocks[k].kind == Paragraph && k !in out && blocks[k].itemNumber == Some(k - i + 1)
  }

  /** The blocks from `i` up to `e` are items numbered 1, 2, 3, ... */
  ghost predicate IsRun(blocks: seq<Block>, out: set<nat>, i: nat, e: nat)
  {
    i < e && forall k :: i <= k < e ==> IsItem(blocks, out, i, k)
  }

  ghost predicate IsMaximalRun(blocks: seq<Block>, out: set<nat>, i: nat, e: nat)
  {
    IsRun(blocks, out, i, e) && !IsItem(blocks, out, i, e)
  }

  /** The run that becomes a list: maximal and long enough. */
  ghost predicate IsList(blocks: seq<Block>, out: set<nat>, i: nat, e: nat)
  {
    IsMaximalRun(blocks, out, i, e) && e - i >= SHORTEST_LIST
  }

  /** `lists` holds exactly the lists of the document, each under its first block. */
  ghost predicate AreLists(blocks: seq<Block>, out: set<nat>, lists: map<nat, seq<nat>>)
  {
    && (forall h :: h in lists ==> IsList(blocks, out, h, h + |lists[h]|) && lists[h] == Range(h, h + |lists[h]|))
    && (forall i: nat, e: nat :: IsList(blocks, out, i, e) ==> i in lists && lists[i] == Range(i, e))
  }

  /** A block that another block's list prints. */
  ghost predicate IsMember(lists: map<nat, seq<nat>>, k: nat)
  {
    exists h :: h in lists && h < k && k in lists[h]
  }

  /** Runs do not overlap: a number 1 never occurs inside one, and the end of a maximal run is fixed. */
  lemma RunsAreDisjoint(blocks: seq<Block>, out: set<nat>, i: nat, e: nat, i': nat, e': nat, k: nat)
    requires IsMaximalRun(blocks, out, i, e) && IsMaximalRun(blocks, out, i', e')
    requires i <= k < e && i' <= k < e'
    ensures i == i' && e == e'
  {
    assert IsItem(blocks, out, i, k) && IsItem(blocks, out, i', k);
    assert e < e' ==> IsItem(blocks, out, i, e);
    assert e' < e ==> IsItem(blocks, out, i, e');
  }

  /** No block is printed by two lists. */
  lemma ListsAreDisjoint(blocks: seq<Block>, out: set<nat>, lists: map<nat, seq<nat>>, h: nat, h': nat, k: nat)
    requires AreLists(blocks, out, lists) && h in lists && h' in lists && k in lists[h] && k in lists[h']
    ensures h == h'
  {
    RunsAreDisjoint(blocks, out, h, h + |lists[h]|, h', h' + |lists[h']|, k);
  }

  /** A list is a stretch of at least three blocks, none of them suppressed. */
  lemma ListShape(blocks: seq<Block>, out: set<nat>, lists: map<nat, seq<nat>>, l: nat)
    requires AreLists(blocks, out, lists) && l in lists
    ensures |lists[l]| >= SHORTEST_LIST && lists[l] == Range(l, l + |lists[l]|) && l in lists[l]
    ensures forall p :: p in lists[l] ==> p !in out && p < |blocks|
  {
    assert IsList(blocks, out, l, l + |lists[l]|);
    forall p | p in lists[l] ensures p !in out && p < |blocks| {
      assert IsItem(blocks, out, l, p);
    }
  }

  /** The blocks from `h` are paragraphs in the open, numbered 1 to `n`, and the next is not another such one. */
  predicate AreNumbered(blocks: seq<Block>, out: set<nat>, h: nat, n: nat)
  {
    && h + n <= |blocks|
    && (forall k :: h <= k < h + n ==>
         k !in out && blocks[k].kind == Paragraph && blocks[k].itemNumber == Some(k - h + 1))
    && !(h + n < |blocks| && h + n !in out
         && blocks[h + n].kind == Paragraph && blocks[h + n].itemNumber == Some(n + 1))
  }

  /** The lists are the numbered stretches of three blocks or more, each in order. */
  lemma ListsExactly(blocks: seq<Block>, out: set<nat>, lists: map<nat, seq<nat>>, h: nat, n: nat)
    requires AreLists(blocks, out, lists)
    ensures h in lists && |lists[h]| == n <==> n >= 3 && AreNumbered(blocks, out, h, n)
    ensures h in lists ==> forall k :: 0 <= k < |lists[h]| ==> lists[h][k] == h + k
  {
    if n >= 3 {
      NumberedIsRun(blocks, out, h, n);
    }
    hide IsList, AreNumbered;
    if h in lists {
      ListShape(blocks, out, lists, h);
      assert IsList(blocks, out, h, h + |lists[h]|);
    }
  }

  lemma NumberedIsRun(blocks: seq<Block>, out: set<nat>, h: nat, n: nat)
    requires n >= 3
    ensures IsList(blocks, out, h, h + n) <==> AreNumbered(blocks, out, h, n)
  {
    if IsList(blocks, out, h, h + n) {
      forall k | h <= k < h + n
        ensures k < |blocks| && k !in out && blocks[k].kind == Paragraph && blocks[k].itemNumber == Some(k - h + 1)
      {
        assert IsItem(blocks, out, h, k);
      }
      assert IsItem(blocks, out, h, h + n - 1);
    }
    if AreNumbered(blocks, out, h, n) {
      assert forall k :: h <= k < h + n ==> IsItem(blocks, out, h, k);
    }
  }

  // ---- The pass ---------------------------------------------------------------------------------

  /** The inner walk: collects the run that starts at `i`. */
  method CollectRun(blocks: seq<Block>, skip: set<nat>, clusterSkip: set<nat>, i: nat) returns (run: seq<nat>)
    requires IsItem(blocks, skip + clusterSkip, i, i)
    ensures run == Range(i, i + |run|) && IsMaximalRun(blocks, skip + clusterSkip, i, i + |run|)
    ensures i + |run| <= |blocks|
  {
    run := [i];
    var expected := 2;
    var j := i + 1;
    while j < |blocks|
      invariant i < j <= |blocks| && expected == j - i + 1
      invariant run == Range(i, j)
      invariant IsRun(blocks, skip + clusterSkip, i, j)
    {
      if blocks[j].kind != Paragraph || j in skip || j in clusterSkip {
        break;
      }
      if blocks[j].itemNumber == None || blocks[j].itemNumber.value != expected {
        break;
      }
      run := run + [j];
      expected := expected + 1;
      j := j + 1;
    }
  }

  /** The lists that start before `i` are found; `added` are the blocks suppressed on their account. */
  ghost predicate FoundSoFar(blocks: seq<Block>, out: set<nat>, i: nat, lists: map<nat, seq<nat>>, added: set<nat>)
  {
    && (forall h :: h in lists ==>
          h + |lists[h]| <= i && IsList(blocks, out, h, h + |lists[h]|) && lists[h] == Range(h, h + |lists[h]|))
    && (forall h: nat, e: nat :: h < i && IsList(blocks, out, h, e) ==> h in lists && lists[h] == Range(h, e))
    && (forall k: nat :: k in added <==> IsMember(lists, k))
    && (forall k :: k in added ==> k < i)
  }

  lemma ListIsFixed(blocks: seq<Block>, out: set<nat>, i: nat, e: nat, i': nat, e': nat)
    requires IsList(blocks, out, i, e) && IsList(blocks, out, i', e') && i <= i' < e
    ensures i == i' && e == e'
  {
    RunsAreDisjoint(blocks, out, i, e, i', e', i');
  }

  lemma FoundList(blocks: seq<Block>, out: set<nat>, i: nat, run: seq<nat>, lists: map<nat, seq<nat>>, added: set<nat>)
    requires FoundSoFar(blocks, out, i, lists, added)
    requires IsList(blocks, out, i, i + |run|) && run == Range(i, i + |run|)
    ensures FoundSoFar(blocks, out, i + |run|, lists[i := run], added + set k | k in run[1..])
  {
    hide IsMaximalRun, IsMember;
    assert run != [];
    var lists' := lists[i := run];
    forall h: nat, e: nat | h < i + |run| && IsList(blocks, out, h, e) ensures h in lists' && lists'[h] == Range(h, e) {
      if h >= i {
        ListIsFixed(blocks, out, i, i + |run|, h, e);
      }
    }
    forall k: nat ensures k in added + (set m | m in run[1..]) <==> IsMember(lists', k) {
      MembersOfOneMore(lists, i, run, k);
    }
  }

  lemma MembersOfOneMore(lists: map<nat, seq<nat>>, i: nat, run: seq<nat>, k: nat)
    requires run != [] && run == Range(i, i + |run|) && i !in lists
    ensures IsMember(lists[i := run], k) <==> IsMember(lists, k) || k in run[1..]
  {
    var lists' := lists[i := run];
    assert run == [run[0]] + run[1..];
    if IsMember(lists', k) {
      var h :| h in lists' && h < k && k in lists'[h];
    }
    if k in run[1..] {
      assert i in lists' && k in lists'[i];
    }
    if IsMember(lists, k) {
      var h :| h in lists && h < k && k in lists[h];
      assert h in lists' && lists'[h] == lists[h];
    }
  }

  lemma NoListHere(blocks: seq<Block>, out: set<nat>, i: nat, lists: map<nat, seq<nat>>, added: set<nat>)
    requires FoundSoFar(blocks, out, i, lists, added) && forall e: nat :: !IsList(blocks, out, i, e)
    ensures FoundSoFar(blocks, out, i + 1, lists, added)
  {}

  lemma NothingFound(blocks: seq<Block>, out: set<nat>)
    ensures FoundSoFar(blocks, out, 0, map[], {})
  {}

  lemma NoRunHere(blocks: seq<Block>, out: set<nat>, i: nat, lists: map<nat, seq<nat>>, added: set<nat>)
    requires FoundSoFar(blocks, out, i, lists, added) && !IsItem(blocks, out + added, i, i)
    ensures forall e: nat :: !IsList(blocks, out, i, e)
  {
    assert forall e: nat :: IsRun(blocks, out, i, e) ==> IsItem(blocks, out, i, i);
  }

  lemma AllFound(blocks: seq<Block>, out: set<nat>, i: nat, lists: map<nat, seq<nat>>, added: set<nat>)
    requires FoundSoFar(blocks, out, i, lists, added) && i >= |blocks|
    ensures AreLists(blocks, out, lists)
    ensures forall k: nat :: k in added <==> IsMember(lists, k)
  {
    forall h: nat, e: nat | IsList(blocks, out, h, e) ensures h in lists && lists[h] == Range(h, e) {
      assert IsItem(blocks, out, h, h);
    }
  }

  /** The suppressed blocks the pass adds never change what it sees ahead. */
  lemma AheadUnchanged(
      blocks: seq<Block>, out: set<nat>, i: nat, run: seq<nat>, lists: map<nat, seq<nat>>, added: set<nat>)
    requires FoundSoFar(blocks, out, i, lists, added)
    requires IsMaximalRun(blocks, out + added, i, i + |run|)
    ensures |run| >= SHORTEST_LIST ==> IsList(blocks, out, i, i + |run|)
    ensures |run| < SHORTEST_LIST ==> forall e: nat :: !IsList(blocks, out, i, e)
  {
    assert forall k :: k in added ==> k < i;
    hide FoundSoFar;
    assert forall k: nat :: k >= i ==> IsItem(blocks, out, i, k) == IsItem(blocks, out + added, i, k);
    forall e: nat | IsList(blocks, out, i, e) ensures e == i + |run| {
      RunsAreDisjoint(blocks, out, i, i + |run|, i, e, i);
    }
  }

  method GroupOrderedLists(blocks: seq<Block>, skip0: set<nat>, clusterSkip: set<nat>)
    returns (lists: map<nat, seq<nat>>, skip: set<nat>)
    ensures AreLists(blocks, skip0 + clusterSkip, lists)
    ensures forall k: nat :: k in skip <==> k in skip0 || IsMember(lists, k)
  {
    hide FoundSoFar, AreLists, IsList, IsMaximalRun;
    ghost var out := skip0 + clusterSkip;
    ghost var added: set<nat> := {};
    lists, skip := map[], skip0;
    var i := 0;
    NothingFound(blocks, out);
    while i < |blocks|
      invariant i <= |blocks|
      invariant FoundSoFar(blocks, out, i, lists, added)
      invariant skip == skip0 + added
    {
      if blocks[i].kind != Paragraph || i in skip || i in clusterSkip || blocks[i].itemNumber != Some(1) {
        NoRunHere(blocks, out, i, lists, added);
        NoListHere(blocks, out, i, lists, added);
        i := i + 1;
        continue;
      }
      var run := CollectRun(blocks, skip, clusterSkip, i);
      assert skip + clusterSkip == out + added;
      AheadUnchanged(blocks, out, i, run, lists, added);
      if |run| >= SHORTEST_LIST {
        FoundList(blocks, out, i, run, lists, added);
        lists := lists[i := run];
        skip := skip + set k | k in run[1..];
        added := added + set k | k in run[1..];
        i := i + |run|;
        continue;
      }
      NoListHere(blocks, out, i, lists, added);
      i := i + 1;
    }
    AllFound(blocks, out, i, lists, added);
  }
}

/** scripts/export_chapter_zh_html.py: "Listing N.M" headers and the code lines under them. */
module Listings {
  import opened ChapterBlocks

  const LONGEST_LISTING := 12

  predicate IsListingHeader(b: Block)
  {
    b.kind == Paragraph && b.listingHeader
  }

  /** A block that a listing takes in: genuine code, or a paragraph that looks like code. */
  predicate IsBodyLine(b: Block)
  {
    || b.kind == Code
    || (b.kind == Paragraph && !b.pageHeader && !b.listingHeader && b.codeLike)
  }

  /** Block `j` belongs to the listing headed by `h`: everything after the header down to `j` is a body line. */
  ghost predicate InBody(blocks: seq<Block>, h: nat, j: nat)
  {
    && h < j <= h + LONGEST_LISTING && j < |blocks| && IsListingHeader(blocks[h])
    && forall k :: h < k <= j ==> IsBodyLine(blocks[k])
  }

  ghost predicate IsBody(blocks: seq<Block>, h: nat, body: seq<nat>)
  {
    body == Range(h + 1, h + 1 + |body|) && forall j: nat :: j in body <==> InBody(blocks, h, j)
  }

  ghost predicate AreListings(blocks: seq<Block>, bodies: map<nat, seq<nat>>)
  {
    && (forall h: nat :: h in bodies <==> h < |blocks| && IsListingHeader(blocks[h]))
    && (forall h :: h in bodies ==> IsBody(blocks, h, bodies[h]))
  }

  /** The block can stand in a listing. */
  predicate IsLine(b: Block)
  {
    b.kind == Code || (b.kind == Paragraph && b.codeLike && !b.pageHeader && !b.listingHeader)
  }

  /** The listings: every header paragraph, and the lines right after it, twelve at most. */
  lemma ListingsExactly(blocks: seq<Block>, bodies: map<nat, seq<nat>>, h: nat, j: nat)
    requires AreListings(blocks, bodies)
    ensures h in bodies <==> h < |blocks| && blocks[h].kind == Paragraph && blocks[h].listingHeader
    ensures h in bodies ==>
      (j in bodies[h] <==> h < j < |blocks| && j - h <= 12 && forall k :: h < k <= j ==> IsLine(blocks[k]))
    ensures h in bodies ==> forall k :: 0 <= k < |bodies[h]| ==> bodies[h][k] == h + 1 + k
  {
    if h in bodies {
      assert IsBody(blocks, h, bodies[h]);
    }
  }

  /** A line belongs to one listing only, and a header to none. */
  lemma BodiesAreDisjoint(blocks: seq<Block>, h: nat, h': nat, j: nat)
    requires InBody(blocks, h, j) && InBody(blocks, h', j)
    ensures h == h' && !IsListingHeader(blocks[j])
  {
    assert !IsBodyLine(blocks[h]) && !IsBodyLine(blocks[h']);
  }

  method CollectBody(blocks: seq<Block>, i: nat) returns (body: seq<nat>)
    requires i < |blocks| && IsListingHeader(blocks[i])
    ensures IsBody(blocks, i, body)
  {
    body := [];
    var stop := if i + 13 < |blocks| then i + 13 else |blocks|;
    var j := i + 1;
    while j < stop
      invariant i < j <= i + 13 && j <= |blocks|
      invariant body == Range(i + 1, j)
      invariant forall k :: i < k < j ==> IsBodyLine(blocks[k])
    {
      var nb := blocks[j];
      if nb.kind == Code {
        body := body + [j];
        j := j + 1;
        continue;
      }
      if nb.kind != Paragraph {
        break;
      }
      if nb.pageHeader || nb.listingHeader || !nb.codeLike {
        break;
      }
      body := body + [j];
      j := j + 1;
    }
    forall k: nat ensures k in body <==> InBody(blocks, i, k) {
      assert j <= k && InBody(blocks, i, k) ==> IsBodyLine(blocks[j]);
    }
  }

  method CollectListings(blocks: seq<Block>) returns (bodies: map<nat, seq<nat>>, bodyIds: set<nat>)
    ensures AreListings(blocks, bodies)
    ensures forall j: nat :: j in bodyIds <==> exists h: nat :: InBody(blocks, h, j)
  {
    bodies, bodyIds := map[], {};
    for i := 0 to |blocks|
      invariant forall h: nat :: h in bodies <==> h < i && IsListingHeader(blocks[h])
      invariant forall h :: h in bodies ==> IsBody(blocks, h, bodies[h])
      invariant forall j: nat :: j in bodyIds <==> exists h: nat :: h < i && InBody(blocks, h, j)
    {
      if IsListingHeader(blocks[i]) {
        var body := CollectBody(blocks, i);
        bodies := bodies[i := body];
        bodyIds := bodyIds + set j | j in body;
      } else {
        assert forall j: nat :: !InBody(blocks, i, j);
      }
    }
  }
}
