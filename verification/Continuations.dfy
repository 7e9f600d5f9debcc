/** The blocks of a chapter in document order; a block is named by its position. */
module ChapterBlocks {

  import opened Wrappers

  datatype Kind = Paragraph | Heading | Caption | Figure | Code | Equation | OtherKind

  /**
   * What the planning passes of scripts/export_chapter_zh_html.py ask of a block. The text classifiers
   * are taken as given: `pageHeader` is the running-header pattern, `endsOpen` says that the source ends
   * in a lowercase letter, `startsLower` that it begins with one, `itemNumber` is the leading integer of
   * a list item, `listingHeader` and `codeLike` are the two listing tests, and `shows` says that the block
   * has a sentence to print.
   */
  datatype Block = Block(
    kind: Kind, blank: bool, pageHeader: bool, endsOpen: bool, startsLower: bool,
    itemNumber: Option<int>, listingHeader: bool, codeLike: bool, shows: bool)

  predicate Increasing(s: seq<nat>)
  {
    forall i, j :: 0 <= i < j < |s| ==> s[i] < s[j]
  }

  /** The positions from `i` up to `e`. */
  function Range(i: nat, e: nat): (r: seq<nat>)
    requires i <= e
    ensures |r| == e - i && forall k :: 0 <= k < |r| ==> r[k] == i + k
    ensures forall k: nat :: k in r <==> i <= k < e
  {
    if i == e then [] else Range(i, e - 1) + [e - 1]
  }
}

/** scripts/export_chapter_zh_html.py: gluing paragraphs that the parser cut in the middle of a sentence. */
module Continuations {
  import opened ChapterBlocks
  import opened Wrappers

  predicate IsPageHeader(b: Block)
  {
    b.kind == Paragraph && !b.blank && b.pageHeader
  }

  // ---- Specification ----------------------------------------------------------------------------

  /** `n` is the first block after `p` that is no page header, at most two of them in between, and a paragraph. */
  ghost predicate Follows(blocks: seq<Block>, p: nat, n: nat)
  {
    && p < n <= p + 3 && n < |blocks|
    && blocks[n].kind == Paragraph && !IsPageHeader(blocks[n])
    && forall k :: p < k < n ==> IsPageHeader(blocks[k])
  }

  /** `p` may be continued: a printed paragraph that ends mid-sentence. `out` holds the blocks suppressed so far. */
  predicate Continuable(blocks: seq<Block>, out: set<nat>, p: nat)
  {
    && p < |blocks| && blocks[p].kind == Paragraph && p !in out
    && !blocks[p].blank && !blocks[p].pageHeader && blocks[p].endsOpen
  }

  predicate Continuing(blocks: seq<Block>, out: set<nat>, n: nat)
  {
    && n < |blocks| && n !in out
    && !blocks[n].blank && !blocks[n].pageHeader && blocks[n].startsLower
  }

  /** `n` continues `p`. */
  ghost predicate Joins(blocks: seq<Block>, out: set<nat>, p: nat, n: nat)
  {
    Follows(blocks, p, n) && Continuable(blocks, out, p) && Continuing(blocks, out, n)
  }

  /** The pass's dictionary: each continuation with the block it continues, no joint missing. */
  ghost predicate IsContinuationMap(blocks: seq<Block>, out: set<nat>, previous: map<nat, nat>)
  {
    && (forall n :: n in previous ==> Joins(blocks, out, previous[n], n))
    && (forall p: nat, n: nat :: Joins(blocks, out, p, n) ==> n in previous)
  }

  /** The page header `k` sits inside a glued paragraph. */
  ghost predicate Straddled(blocks: seq<Block>, out: set<nat>, k: nat)
  {
    exists p: nat, n: nat :: Joins(blocks, out, p, n) && p < k < n
  }

  /**
   * Paragraph `n` goes on where `p` breaks off: one ends openly and the other begins with a small letter, both are in
   * the open, neither is blank or a page header, and page headers alone part them, two at most.
   */
  predicate GoesOn(blocks: seq<Block>, out: set<nat>, p: nat, n: nat)
  {
    && p < n <= p + 3 && n < |blocks| && p !in out && n !in out
    && blocks[p].kind == Paragraph && !blocks[p].blank && !blocks[p].pageHeader && blocks[p].endsOpen
    && blocks[n].kind == Paragraph && !blocks[n].blank && !blocks[n].pageHeader && blocks[n].startsLower
    && forall k :: p < k < n ==> blocks[k].kind == Paragraph && !blocks[k].blank && blocks[k].pageHeader
  }

  lemma JoinsIsGoingOn(blocks: seq<Block>, out: set<nat>, p: nat, n: nat)
    ensures Joins(blocks, out, p, n) <==> GoesOn(blocks, out, p, n)
  {}

  /** The dictionary holds exactly the paragraphs that go on from another, with that other. */
  lemma ContinuationsExactly(blocks: seq<Block>, out: set<nat>, previous: map<nat, nat>, p: nat, n: nat)
    requires IsContinuationMap(blocks, out, previous)
    ensures n in previous && previous[n] == p <==> GoesOn(blocks, out, p, n)
  {
    JoinsIsGoingOn(blocks, out, p, n);
    if Joins(blocks, out, p, n) {
      JoinsIsOneToOne(blocks, out, p, n, previous[n], n);
    }
  }

  /** A page header inside a glued paragraph is one between a continuation and what it continues. */
  lemma StraddledExactly(blocks: seq<Block>, out: set<nat>, previous: map<nat, nat>, k: nat)
    requires IsContinuationMap(blocks, out, previous)
    ensures Straddled(blocks, out, k) <==> exists n :: n in previous && previous[n] < k < n
  {
    hide Joins;
    if p: nat, n: nat :| Joins(blocks, out, p, n) && p < k < n {
      JoinsIsOneToOne(blocks, out, p, n, previous[n], n);
    }
  }

  /** A block is continued by at most one block and continues at most one. */
  lemma JoinsIsOneToOne(blocks: seq<Block>, out: set<nat>, p: nat, n: nat, p': nat, n': nat)
    requires Joins(blocks, out, p, n) && Joins(blocks, out, p', n')
    ensures p == p' <==> n == n'
  {
    assert !IsPageHeader(blocks[p]) && !IsPageHeader(blocks[p']);
    assert !IsPageHeader(blocks[n]) && !IsPageHeader(blocks[n']);
  }

  /** What the chain lemmas need of the map: it points backward, and no block is continued twice. */
  ghost predicate IsLinear(previous: map<nat, nat>)
  {
    && (forall n :: n in previous ==> previous[n] < n)
    && (forall n, m :: n in previous && m in previous && previous[n] == previous[m] ==> n == m)
  }

  lemma ContinuationMapIsLinear(blocks: seq<Block>, out: set<nat>, previous: map<nat, nat>)
    requires IsContinuationMap(blocks, out, previous)
    ensures IsLinear(previous)
    ensures forall n :: n in previous ==> n < |blocks|
  {
    forall n, m | n in previous && m in previous && previous[n] == previous[m] ensures n == m {
      JoinsIsOneToOne(blocks, out, previous[n], n, previous[m], m);
    }
  }

  /** The start of the glued paragraph that holds `n`. */
  function Head(previous: map<nat, nat>, n: nat): nat
    requires IsLinear(previous)
  {
    if n in previous then Head(previous, previous[n]) else n
  }

  /** `chain` is everything glued to `head`, link by link, with nothing left to glue. */
  ghost predicate IsChain(previous: map<nat, nat>, head: nat, chain: seq<nat>)
  {
    && head !in previous && chain != []
    && (forall k :: 0 <= k < |chain| ==> chain[k] in previous)
    && previous[chain[0]] == head
    && (forall k :: 0 < k < |chain| ==> previous[chain[k]] == chain[k - 1])
    && (forall n :: n in previous ==> previous[n] != chain[|chain| - 1])
  }

  ghost predicate AreChains(previous: map<nat, nat>, chains: map<nat, seq<nat>>)
  {
    && (forall h :: h in chains ==> IsChain(previous, h, chains[h]))
    && (forall n :: n in previous && previous[n] !in previous ==> previous[n] in chains)
  }

  /** Chains run forward through the document; only page headers, at most two, part neighbouring links. */
  lemma {:induction false} ChainInOrder(
      blocks: seq<Block>, out: set<nat>, previous: map<nat, nat>, head: nat, chain: seq<nat>)
    requires IsContinuationMap(blocks, out, previous) && IsChain(previous, head, chain)
    ensures Increasing([head] + chain)
    ensures forall k :: 0 <= k < |chain| ==> Joins(blocks, out, ([head] + chain)[k], chain[k])
    ensures forall k, m :: 0 <= k < |chain| && ([head] + chain)[k] < m < chain[k] ==>
      chain[k] <= ([head] + chain)[k] + 3 && IsPageHeader(blocks[m])
  {
    var links := [head] + chain;
    forall k | 0 <= k < |chain| ensures Joins(blocks, out, links[k], chain[k]) {
      assert previous[chain[k]] == links[k];
    }
    forall i, j | 0 <= i < j < |links| ensures links[i] < links[j] {
      IncreasingByStep(links, i, j);
    }
  }

  lemma {:induction false} IncreasingByStep(s: seq<nat>, i: nat, j: nat)
    requires forall k :: 0 <= k < |s| - 1 ==> s[k] < s[k + 1]
    requires i < j < |s|
    ensures s[i] < s[j]
    decreases j
  {
    if i + 1 < j {
      IncreasingByStep(s, i, j - 1);
    }
    assert s[j - 1] < s[j - 1 + 1];
  }

  lemma {:induction false} HeadIsNoContinuation(previous: map<nat, nat>, n: nat)
    requires IsLinear(previous)
    ensures Head(previous, n) !in previous && Head(previous, n) <= n
    ensures n in previous ==> Head(previous, n) < n
  {
    if n in previous {
      HeadIsNoContinuation(previous, previous[n]);
    }
  }

  /** The head of a link of a chain is the head of that chain. */
  lemma {:induction false} LinksShareHead(previous: map<nat, nat>, head: nat, chain: seq<nat>, k: nat)
    requires IsLinear(previous) && IsChain(previous, head, chain) && k < |chain|
    ensures Head(previous, chain[k]) == head
  {
    if k > 0 {
      LinksShareHead(previous, head, chain, k - 1);
    }
  }

  /** Each continuation lies in exactly one chain, and once in it. */
  lemma {:induction false} ContinuationInItsChain(previous: map<nat, nat>, chains: map<nat, seq<nat>>, n: nat)
    requires IsLinear(previous) && AreChains(previous, chains) && n in previous
    ensures var h := Head(previous, n); h in chains && n in chains[h]
    ensures forall h :: h in chains && n in chains[h] ==> h == Head(previous, n)
    decreases n
  {
    var p, h := previous[n], Head(previous, n);
    if p in previous {
      ContinuationInItsChain(previous, chains, p);
      assert IsChain(previous, h, chains[h]);
      NextLinkInChain(previous, h, chains[h], n);
    } else {
      assert IsChain(previous, h, chains[h]);
      assert n == chains[h][0];
    }
    forall h' | h' in chains && n in chains[h'] ensures h' == h {
      var k :| 0 <= k < |chains[h']| && chains[h'][k] == n;
      LinksShareHead(previous, h', chains[h'], k);
    }
  }

  lemma NextLinkInChain(previous: map<nat, nat>, head: nat, chain: seq<nat>, n: nat)
    requires IsLinear(previous) && IsChain(previous, head, chain)
    requires n in previous && previous[n] in chain
    ensures n in chain
  {
    var k :| 0 <= k < |chain| && chain[k] == previous[n];
    assert k < |chain| - 1;
    assert previous[chain[k + 1]] == chain[k];
  }

  // ---- The pass ---------------------------------------------------------------------------------

  /** The forward walk past page headers. Also returns the headers it passed. */
  method FindNext(blocks: seq<Block>, i: nat) returns (next: Option<nat>, headers: set<nat>)
    requires i < |blocks|
    ensures forall n: nat :: next == Some(n) <==> Follows(blocks, i, n)
    ensures next.Some? ==> forall k: nat :: k in headers <==> i < k < next.value
  {
    var j := i + 1;
    headers := {};
    next := None;
    while j < |blocks| && j <= i + 3
      invariant i < j <= i + 4 && j <= |blocks|
      invariant forall k :: i < k < j ==> IsPageHeader(blocks[k])
      invariant forall k: nat :: k in headers <==> i < k < j
    {
      if IsPageHeader(blocks[j]) {
        headers := headers + {j};
        j := j + 1;
        continue;
      }
      if blocks[j].kind == Paragraph {
        next := Some(j);
      }
      break;
    }
    forall n: nat ensures next == Some(n) <==> Follows(blocks, i, n) {
    }
  }

  /** The state of the pass after the blocks before `i`. */
  ghost predicate PassedSoFar(
      blocks: seq<Block>, out: set<nat>, i: nat, previous: map<nat, nat>, straddled: set<nat>)
  {
    && (forall n :: n in previous ==> Joins(blocks, out, previous[n], n) && previous[n] < i)
    && (forall p: nat, n: nat :: p < i && Joins(blocks, out, p, n) ==> n in previous)
    && (forall k: nat :: k in straddled <==> exists p: nat, n: nat :: p < i && Joins(blocks, out, p, n) && p < k < n)
  }

  lemma PassOne(
      blocks: seq<Block>, out: set<nat>, i: nat, n: nat, previous: map<nat, nat>, straddled: set<nat>,
      headers: set<nat>)
    requires PassedSoFar(blocks, out, i, previous, straddled) && Joins(blocks, out, i, n)
    requires forall k: nat :: k in headers <==> i < k < n
    ensures PassedSoFar(blocks, out, i + 1, previous[n := i], straddled + headers)
  {
    forall p: nat, m: nat | p <= i && Joins(blocks, out, p, m) ensures m in previous[n := i] {
      JoinsIsOneToOne(blocks, out, p, m, i, n);
    }
    forall k: nat
      ensures k in straddled + headers <==> exists p: nat, m: nat :: p < i + 1 && Joins(blocks, out, p, m) && p < k < m
    {
      if p: nat, m: nat :| p < i + 1 && Joins(blocks, out, p, m) && p < k < m {
        JoinsIsOneToOne(blocks, out, p, m, i, n);
      }
    }
  }

  lemma PassNone(blocks: seq<Block>, out: set<nat>, i: nat, previous: map<nat, nat>, straddled: set<nat>)
    requires PassedSoFar(blocks, out, i, previous, straddled) && forall n: nat :: !Joins(blocks, out, i, n)
    ensures PassedSoFar(blocks, out, i + 1, previous, straddled)
  {
    forall k: nat
      ensures k in straddled <==> exists p: nat, m: nat :: p < i + 1 && Joins(blocks, out, p, m) && p < k < m
    {
      if p: nat, m: nat :| p < i + 1 && Joins(blocks, out, p, m) && p < k < m {
        assert p < i;
      }
    }
  }

  /**
   * Pairs each cut paragraph with its continuation. `skip` grows by the page headers swallowed on the way,
   * while the pass is still consulting it; that never hides a paragraph from the pass.
   */
  method FindContinuations(blocks: seq<Block>, skip0: set<nat>, clusterSkip: set<nat>)
    returns (previous: map<nat, nat>, skip: set<nat>)
    ensures IsContinuationMap(blocks, skip0 + clusterSkip, previous)
    ensures forall k: nat :: k in skip <==> k in skip0 || Straddled(blocks, skip0 + clusterSkip, k)
  {
    ghost var out := skip0 + clusterSkip;
    ghost var straddled: set<nat> := {};
    previous, skip := map[], skip0;
    for i := 0 to |blocks|
      invariant PassedSoFar(blocks, out, i, previous, straddled)
      invariant skip == skip0 + straddled
      invariant forall k :: k in straddled ==> k < |blocks| && IsPageHeader(blocks[k])
    {
      var prev := blocks[i];
      if prev.kind != Paragraph || i in skip || i in clusterSkip || prev.blank || prev.pageHeader {
        PassNone(blocks, out, i, previous, straddled);
        continue;
      }
      var next, headers := FindNext(blocks, i);
      if next == None || next.value in skip || next.value in clusterSkip
        || !prev.endsOpen || blocks[next.value].blank || !blocks[next.value].startsLower
        || blocks[next.value].pageHeader
      {
        assert forall n: nat :: Joins(blocks, out, i, n) ==> next == Some(n);
        PassNone(blocks, out, i, previous, straddled);
        continue;
      }
      assert Follows(blocks, i, next.value);
      PassOne(blocks, out, i, next.value, previous, straddled, headers);
      previous := previous[next.value := i];
      skip := skip + headers;
      straddled := straddled + headers;
    }
    SoFarIsAll(blocks, out, previous, straddled);
  }

  lemma SoFarIsAll(blocks: seq<Block>, out: set<nat>, previous: map<nat, nat>, straddled: set<nat>)
    requires PassedSoFar(blocks, out, |blocks|, previous, straddled)
    ensures IsContinuationMap(blocks, out, previous)
    ensures forall k: nat :: k in straddled <==> Straddled(blocks, out, k)
  {
    forall k: nat ensures k in straddled <==> Straddled(blocks, out, k) {
      if p: nat, n: nat :| Joins(blocks, out, p, n) && p < k < n {
        assert p < |blocks|;
      }
    }
  }

  /** Walks one chain to its end; `next` inverts `previous`. */
  method FollowChain(
      blocks: seq<Block>, ghost out: set<nat>, ghost previous: map<nat, nat>, next: map<nat, nat>, head: nat)
    returns (chain: seq<nat>)
    requires IsContinuationMap(blocks, out, previous) && Inverts(next, previous)
    requires head in next && head !in previous
    ensures IsChain(previous, head, chain)
  {
    chain := [];
    var cur := head;
    while cur in next
      invariant cur == if chain == [] then head else chain[|chain| - 1]
      invariant forall k :: 0 <= k < |chain| ==> chain[k] in previous
      invariant chain != [] ==> previous[chain[0]] == head
      invariant forall k :: 0 < k < |chain| ==> previous[chain[k]] == chain[k - 1]
      invariant cur < |blocks|
      decreases |blocks| - cur
    {
      assert Joins(blocks, out, previous[next[cur]], next[cur]);
      chain := chain + [next[cur]];
      cur := next[cur];
    }
  }

  ghost predicate Inverts(next: map<nat, nat>, previous: map<nat, nat>)
  {
    && (forall p :: p in next ==> next[p] in previous && previous[next[p]] == p)
    && (forall n :: n in previous ==> previous[n] in next && next[previous[n]] == n)
  }

  method InvertMap(blocks: seq<Block>, ghost out: set<nat>, previous: map<nat, nat>) returns (next: map<nat, nat>)
    requires IsContinuationMap(blocks, out, previous)
    ensures Inverts(next, previous)
  {
    ContinuationMapIsLinear(blocks, out, previous);
    next := map[];
    for n := 0 to |blocks|
      invariant forall p :: p in next ==> next[p] in previous && previous[next[p]] == p && next[p] < n
      invariant forall m :: m in previous && m < n ==> previous[m] in next && next[previous[m]] == m
    {
      if n in previous {
        next := next[previous[n] := n];
      }
    }
  }

  function SetOf(s: seq<nat>): set<nat>
  {
    set n | n in s
  }

  /** The chains whose head lies before `i` are built, and `glued` holds their links. */
  ghost predicate ChainsSoFar(previous: map<nat, nat>, i: nat, chains: map<nat, seq<nat>>, glued: set<nat>)
  {
    && (forall h :: h in chains ==> h < i && IsChain(previous, h, chains[h]))
    && (forall n :: n in previous && previous[n] !in previous && previous[n] < i ==> previous[n] in chains)
    && glued <= previous.Keys
    && (forall h, n :: h in chains && n in chains[h] ==> n in glued)
  }

  lemma OneMoreChain(previous: map<nat, nat>, i: nat, chains: map<nat, seq<nat>>, glued: set<nat>, chain: seq<nat>)
    requires ChainsSoFar(previous, i, chains, glued) && IsChain(previous, i, chain)
    ensures ChainsSoFar(previous, i + 1, chains[i := chain], glued + SetOf(chain))
  {
    assert SetOf(chain) <= previous.Keys;
    hide IsChain;
  }

  lemma NoChainHere(previous: map<nat, nat>, next: map<nat, nat>, i: nat, chains: map<nat, seq<nat>>, glued: set<nat>)
    requires ChainsSoFar(previous, i, chains, glued) && Inverts(next, previous) && (i in previous || i !in next)
    ensures ChainsSoFar(previous, i + 1, chains, glued)
  {}

  lemma AllChainsBuilt(previous: map<nat, nat>, i: nat, chains: map<nat, seq<nat>>, glued: set<nat>)
    requires IsLinear(previous) && ChainsSoFar(previous, i, chains, glued) && forall n :: n in previous ==> n < i
    ensures AreChains(previous, chains) && glued == previous.Keys
  {
    forall n | n in previous ensures previous[n] < i {
      assert previous[n] < n;
    }
    forall n | n in previous ensures n in glued {
      ContinuationInItsChain(previous, chains, n);
    }
  }

  /** Builds every chain from its head and suppresses the links, which the head will print. */
  method BuildChains(blocks: seq<Block>, ghost out: set<nat>, previous: map<nat, nat>, skip0: set<nat>)
    returns (chains: map<nat, seq<nat>>, skip: set<nat>)
    requires IsContinuationMap(blocks, out, previous)
    ensures AreChains(previous, chains)
    ensures skip == skip0 + previous.Keys
  {
    hide *;
    ContinuationMapIsLinear(blocks, out, previous);
    var next := InvertMap(blocks, out, previous);
    chains, skip := map[], skip0;
    ghost var glued: set<nat> := {};
    assert ChainsSoFar(previous, 0, chains, glued) by { NoChainsYet(previous); }
    for i := 0 to |blocks|
      invariant ChainsSoFar(previous, i, chains, glued)
      invariant skip == skip0 + glued
    {
      if i in previous {
        NoChainHere(previous, next, i, chains, glued);
        continue;
      }
      if i in next {
        var chain := FollowChain(blocks, out, previous, next, i);
        OneMoreChain(previous, i, chains, glued, chain);
        chains := chains[i := chain];
        skip := skip + SetOf(chain);
        glued := glued + SetOf(chain);
      } else {
        NoChainHere(previous, next, i, chains, glued);
      }
    }
    AllChainsBuilt(previous, |blocks|, chains, glued);
  }

  lemma NoChainsYet(previous: map<nat, nat>)
    ensures ChainsSoFar(previous, 0, map[], {})
  {}
}
