/** scripts/export_chapter_zh_html.py: giving figures without a linked caption the nearest free caption. */
module Captions {
  import opened ChapterBlocks
  import opened Wrappers

  /**
   * `isFigure` marks the image and figure blocks that the parser left unlinked, `isCaption` the caption
   * blocks whose text is a real caption. `page` is the page of the first region, if it is known.
   */
  datatype Item = Item(isFigure: bool, isCaption: bool, page: Option<int>, ordinal: int)

  const FARTHEST := 10

  function Distance(a: Item, b: Item): nat
  {
    if a.ordinal >= b.ordinal then a.ordinal - b.ordinal else b.ordinal - a.ordinal
  }

  // ---- Specification ----------------------------------------------------------------------------

  /** Figure `f` and caption `c` may be paired: same known page, at most ten ordinals apart. */
  predicate Eligible(items: seq<Item>, f: nat, c: nat)
  {
    && f < |items| && c < |items| && items[f].isFigure && items[c].isCaption
    && items[f].page.Some? && items[c].page == items[f].page
    && Distance(items[f], items[c]) <= FARTHEST
  }

  /** Caption `c` is not taken when figure `f` has its turn: neither linked by the parser nor by an earlier figure. */
  ghost predicate FreeFor(pairs: map<nat, nat>, consumed: set<nat>, f: nat, c: nat)
  {
    c !in consumed && forall g :: g in pairs && g < f ==> pairs[g] != c
  }

  /** Among the captions free for `f`, `c` is the nearest, and the first of those equally near. */
  ghost predicate IsNearest(items: seq<Item>, pairs: map<nat, nat>, consumed: set<nat>, f: nat, c: nat)
  {
    && Eligible(items, f, c) && FreeFor(pairs, consumed, f, c)
    && forall d: nat :: Eligible(items, f, d) && FreeFor(pairs, consumed, f, d) ==>
         Distance(items[f], items[c]) < Distance(items[f], items[d])
         || (Distance(items[f], items[c]) == Distance(items[f], items[d]) && c <= d)
  }

  /** Each figure, in document order, has taken its nearest free caption; none was left over for a figure without. */
  ghost predicate IsGreedyPairing(items: seq<Item>, pairs: map<nat, nat>, consumed: set<nat>)
  {
    && (forall f :: f in pairs ==> IsNearest(items, pairs, consumed, f, pairs[f]))
    && (forall f: nat, c: nat :: f !in pairs && Eligible(items, f, c) ==> !FreeFor(pairs, consumed, f, c))
  }

  /** No caption serves two figures. */
  lemma PairingIsInjective(items: seq<Item>, pairs: map<nat, nat>, consumed: set<nat>, f: nat, g: nat)
    requires IsGreedyPairing(items, pairs, consumed) && f in pairs && g in pairs && pairs[f] == pairs[g]
    ensures f == g
  {
    assert IsNearest(items, pairs, consumed, f, pairs[f]) && IsNearest(items, pairs, consumed, g, pairs[g]);
  }

  /** The matching is maximal: afterwards no unpaired figure and untaken caption are eligible for each other. */
  lemma PairingIsMaximal(items: seq<Item>, pairs: map<nat, nat>, consumed: set<nat>, f: nat, c: nat)
    requires IsGreedyPairing(items, pairs, consumed)
    requires f !in pairs && c !in consumed && c !in pairs.Values
    ensures !Eligible(items, f, c)
  {
    if Eligible(items, f, c) {
      assert FreeFor(pairs, consumed, f, c);
    }
  }

  function Apart(a: int, b: int): nat { if a >= b then a - b else b - a }

  /** A figure that is to be paired and a real caption stand on one known page, at most ten ordinals apart. */
  predicate AreWithinReach(items: seq<Item>, f: nat, c: nat)
  {
    && f < |items| && c < |items| && items[f].isFigure && items[c].isCaption
    && items[f].page.Some? && items[f].page == items[c].page && Apart(items[f].ordinal, items[c].ordinal) <= 10
  }

  /** The pairing in ordinals: each figure in turn has, of the captions within reach that are left, the nearest. */
  lemma PairsByOrdinal(items: seq<Item>, pairs: map<nat, nat>, consumed: set<nat>, f: nat, c: nat)
    requires IsGreedyPairing(items, pairs, consumed)
    ensures f in pairs && pairs[f] == c ==> AreWithinReach(items, f, c) && c !in consumed
    ensures f in pairs && AreWithinReach(items, f, c) && c !in consumed
            && (forall g :: g in pairs && pairs[g] == c ==> g >= f) ==>
      var near, far := Apart(items[f].ordinal, items[pairs[f]].ordinal), Apart(items[f].ordinal, items[c].ordinal);
      near < far || (near == far && pairs[f] <= c)
    ensures f !in pairs && AreWithinReach(items, f, c) ==>
      c in consumed || exists g :: g in pairs && g < f && pairs[g] == c
  {
    assert Eligible(items, f, c) <==> AreWithinReach(items, f, c);
    if f in pairs {
      assert IsNearest(items, pairs, consumed, f, pairs[f]);
      assert (forall g :: g in pairs && pairs[g] == c ==> g >= f) && c !in consumed ==> FreeFor(pairs, consumed, f, c);
    }
  }

  /** The specification leaves no choice. */
  lemma {:induction false} PairingIsUnique(
      items: seq<Item>, p: map<nat, nat>, q: map<nat, nat>, consumed: set<nat>, n: nat)
    requires IsGreedyPairing(items, p, consumed) && IsGreedyPairing(items, q, consumed)
    ensures forall f: nat :: f < n ==> (f in p <==> f in q) && (f in p ==> p[f] == q[f])
  {
    if n > 0 {
      PairingIsUnique(items, p, q, consumed, n - 1);
      var f := n - 1;
      forall c: nat ensures FreeFor(p, consumed, f, c) <==> FreeFor(q, consumed, f, c) {}
      if f in p || f in q {
        SameChoice(items, p, q, consumed, f);
      }
    }
  }

  lemma SameChoice(items: seq<Item>, p: map<nat, nat>, q: map<nat, nat>, consumed: set<nat>, f: nat)
    requires IsGreedyPairing(items, p, consumed) && IsGreedyPairing(items, q, consumed) && (f in p || f in q)
    requires forall c: nat :: FreeFor(p, consumed, f, c) <==> FreeFor(q, consumed, f, c)
    ensures f in p && f in q && p[f] == q[f]
  {
    hide FreeFor, Eligible;
    if f in p { assert IsNearest(items, p, consumed, f, p[f]); }
    if f in q { assert IsNearest(items, q, consumed, f, q[f]); }
  }

  // ---- The pass ---------------------------------------------------------------------------------

  /** The inner loop: the best caption for figure `f` among `captions`. */
  method NearestCaption(items: seq<Item>, captions: seq<nat>, consumed: set<nat>, f: nat) returns (best: Option<nat>)
    requires f < |items| && items[f].isFigure && Increasing(captions)
    requires forall k :: 0 <= k < |captions| ==> captions[k] < |items| && items[captions[k]].isCaption
    ensures forall c: nat :: best == Some(c) ==> c in captions && c !in consumed && Eligible(items, f, c)
    ensures forall d: nat :: d in captions && d !in consumed && Eligible(items, f, d) ==>
      best.Some? && (Distance(items[f], items[best.value]) < Distance(items[f], items[d])
        || (Distance(items[f], items[best.value]) == Distance(items[f], items[d]) && best.value <= d))
  {
    best := None;
    var bestDist := FARTHEST + 1;
    for k := 0 to |captions|
      invariant best == None ==> bestDist == FARTHEST + 1
      invariant best.Some? ==>
        (best.value in captions[..k] && best.value !in consumed
         && Eligible(items, f, best.value) && bestDist == Distance(items[f], items[best.value]))
      invariant forall j :: 0 <= j < k && captions[j] !in consumed && Eligible(items, f, captions[j]) ==>
        best.Some? && (bestDist < Distance(items[f], items[captions[j]])
          || (bestDist == Distance(items[f], items[captions[j]]) && best.value <= captions[j]))
    {
      var cap := captions[k];
      if cap in consumed {
        continue;
      }
      if items[cap].page != items[f].page || items[f].page == None {
        continue;
      }
      var dist := Distance(items[f], items[cap]);
      if dist >= FARTHEST + 1 || dist >= bestDist {
        continue;
      }
      best := Some(cap);
      bestDist := dist;
    }
  }

  /** The captions that are real and not linked when the pass begins, in document order. */
  method FreeCaptions(items: seq<Item>, consumed: set<nat>) returns (captions: seq<nat>)
    ensures Increasing(captions)
    ensures forall k :: 0 <= k < |captions| ==> captions[k] < |items| && items[captions[k]].isCaption
    ensures forall c: nat :: c in captions <==> c < |items| && items[c].isCaption && c !in consumed
  {
    captions := [];
    for c := 0 to |items|
      invariant Increasing(captions)
      invariant forall k :: 0 <= k < |captions| ==> captions[k] < c && items[captions[k]].isCaption
      invariant forall d: nat :: d in captions <==> d < c && items[d].isCaption && d !in consumed
    {
      if items[c].isCaption && c !in consumed {
        captions := captions + [c];
      }
    }
  }

  /** After the figures before `f`: their pairs, and the captions taken since the pass began. */
  ghost predicate PairedSoFar(items: seq<Item>, pairs: map<nat, nat>, consumed0: set<nat>, consumed: set<nat>, f: nat)
  {
    && (forall g :: g in pairs ==> g < f && IsNearest(items, pairs, consumed0, g, pairs[g]))
    && (forall g: nat, c: nat :: g < f && g !in pairs && Eligible(items, g, c) ==> !FreeFor(pairs, consumed0, g, c))
    && consumed == consumed0 + pairs.Values
  }

  lemma LaterPairsDoNotMatter(pairs: map<nat, nat>, consumed0: set<nat>, f: nat, c: nat, g: nat, d: nat)
    requires g <= f && f !in pairs
    ensures FreeFor(pairs[f := c], consumed0, g, d) <==> FreeFor(pairs, consumed0, g, d)
  {
    assert forall h :: h != f ==> (h in pairs[f := c] <==> h in pairs) && (h in pairs ==> pairs[f := c][h] == pairs[h]);
  }

  lemma NearestUnchanged(
      items: seq<Item>, pairs: map<nat, nat>, pairs': map<nat, nat>, consumed0: set<nat>, g: nat, c: nat)
    requires IsNearest(items, pairs, consumed0, g, c)
    requires forall d: nat :: FreeFor(pairs', consumed0, g, d) <==> FreeFor(pairs, consumed0, g, d)
    ensures IsNearest(items, pairs', consumed0, g, c)
  {}

  lemma PairOne(items: seq<Item>, pairs: map<nat, nat>, consumed0: set<nat>, consumed: set<nat>, f: nat, c: nat)
    requires PairedSoFar(items, pairs, consumed0, consumed, f) && IsNearest(items, pairs, consumed0, f, c)
    ensures PairedSoFar(items, pairs[f := c], consumed0, consumed + {c}, f + 1)
  {
    hide FreeFor, IsNearest, Eligible;
    var pairs' := pairs[f := c];
    forall g: nat, d: nat | g <= f ensures FreeFor(pairs', consumed0, g, d) <==> FreeFor(pairs, consumed0, g, d) {
      LaterPairsDoNotMatter(pairs, consumed0, f, c, g, d);
    }
    forall g | g in pairs' ensures g <= f && IsNearest(items, pairs', consumed0, g, pairs'[g]) {
      if g != f {
        NearestUnchanged(items, pairs, pairs', consumed0, g, pairs[g]);
      } else {
        NearestUnchanged(items, pairs, pairs', consumed0, f, c);
      }
    }
    forall g: nat, d: nat | g <= f && g !in pairs' && Eligible(items, g, d) ensures !FreeFor(pairs', consumed0, g, d) {
      assert g < f && g !in pairs;
    }
    ValuesOfOneMore(pairs, f, c);
  }

  lemma ValuesOfOneMore(pairs: map<nat, nat>, f: nat, c: nat)
    requires f !in pairs
    ensures pairs[f := c].Values == pairs.Values + {c}
  {
    var pairs' := pairs[f := c];
    assert f in pairs' && pairs'[f] == c;
    assert forall g :: g in pairs ==> g in pairs' && pairs'[g] == pairs[g];
  }

  lemma FreeIsUnconsumed(pairs: map<nat, nat>, consumed0: set<nat>, f: nat, c: nat)
    requires forall g :: g in pairs ==> g < f
    ensures FreeFor(pairs, consumed0, f, c) <==> c !in consumed0 + pairs.Values
  {
    if c in pairs.Values {
      var g :| g in pairs && pairs[g] == c;
    }
  }

  method PairCaptions(items: seq<Item>, consumed0: set<nat>) returns (pairs: map<nat, nat>, consumed: set<nat>)
    ensures IsGreedyPairing(items, pairs, consumed0)
    ensures consumed == consumed0 + pairs.Values
  {
    var captions := FreeCaptions(items, consumed0);
    pairs, consumed := map[], consumed0;
    for f := 0 to |items|
      invariant PairedSoFar(items, pairs, consumed0, consumed, f)
    {
      if items[f].isFigure {
        var best := NearestCaption(items, captions, consumed, f);
        forall c: nat ensures FreeFor(pairs, consumed0, f, c) <==> c !in consumed {
          FreeIsUnconsumed(pairs, consumed0, f, c);
        }
        if best.Some? {
          assert IsNearest(items, pairs, consumed0, f, best.value);
          PairOne(items, pairs, consumed0, consumed, f, best.value);
          pairs := pairs[f := best.value];
          consumed := consumed + {best.value};
        }
      }
    }
  }
}
