/** scripts/generate_zh_markdown.py: joining translated paragraphs that the parser cut mid-sentence. */
module MidSentenceMerge {
  import opened Pieces
  import opened Text

  /** Text cleaning and the stray-fragment test are rules of the book, taken as given. */
  datatype Rules = Rules(clean: string -> string, isStray: string -> bool)

  const SENTENCE_ENDERS: set<char> := {
    '\U{3002}', '\U{FF01}', '\U{FF1F}', '\U{FF1B}', '\U{2026}', '\U{300D}', '\U{300F}', '"', '\U{FF09}',
    '.', '!', '?', ';', ')'
  }

  const SHORTEST_CONTINUATION := 10

  predicate EndsSentence(rules: Rules, text: string)
  {
    var shown := RStrip(rules.clean(text));
    shown != [] && shown[|shown| - 1] in SENTENCE_ENDERS
  }

  /**
   * What the pass reads off a block: whether it is a paragraph, what it would add to another paragraph
   * ("" for a block without text), whether that is a stray fragment, and whether the block breaks off
   * mid-sentence itself.
   */
  datatype View = View(isParagraph: bool, fragment: string, isStray: bool, isCut: bool) {
    predicate Contributes() { fragment != [] && !isStray }
  }

  function Look(rules: Rules, isParagraph: bool, text: string): (v: View)
    ensures Trimmed(v.fragment) && (v.isCut ==> v.isParagraph && v.fragment != [])
  {
    var shown := rules.clean(text);
    if text == [] then View(isParagraph, [], false, false)
    else View(isParagraph, Strip(shown), rules.isStray(shown),
              isParagraph && !Blank(shown) && !EndsSentence(rules, text))
  }

  /** The blocks as the pass finds them, with the test for a finished sentence. */
  datatype Blocks = Blocks(views: seq<View>, texts: seq<string>, ends: string -> bool) {

    predicate WellFormed()
    {
      && |views| == |texts|
      && forall k :: 0 <= k < |views| ==>
           Trimmed(views[k].fragment) && (views[k].isCut ==> views[k].isParagraph && views[k].fragment != [])
    }

    // ---- Declarative description of the merge ---------------------------------------------------

    /** The text of `i` once it has taken over the contributions strictly between `i` and `j`. */
    function Merged(i: nat, j: nat): string
      requires WellFormed() && i < j <= |texts|
    {
      if j == i + 1 then texts[i]
      else if views[j - 1].Contributes() then RStrip(Merged(i, j - 1)) + views[j - 1].fragment
      else Merged(i, j - 1)
    }

    /** Block `k` lets the walk from `i` go on. */
    ghost predicate Passes(i: nat, k: nat)
      requires WellFormed() && i < k < |texts|
    {
      && views[k].isParagraph
      && (views[k].Contributes() ==> |views[k].fragment| >= SHORTEST_CONTINUATION && !ends(Merged(i, k + 1)))
    }

    /** Nothing between `i` and `j` stops the walk that starts at `i`. */
    ghost predicate Reaches(i: nat, j: nat)
      requires WellFormed() && i < j <= |texts|
    {
      forall k :: i < k < j ==> Passes(i, k)
    }

    /** Block `j` has text to take over: a stray fragment to drop, or a long enough continuation. */
    predicate Takeable(j: nat)
      requires WellFormed() && j < |texts|
    {
      && views[j].isParagraph && views[j].fragment != []
      && (views[j].isStray || |views[j].fragment| >= SHORTEST_CONTINUATION)
    }

    /** The walk from `i` takes block `j`. */
    ghost predicate Absorbs(i: nat, j: nat)
      requires WellFormed()
    {
      i < j < |texts| && Reaches(i, j) && Takeable(j)
    }

    /** The fragments `i` absorbs before `j`, in document order. */
    ghost function Gathered(i: nat, j: nat): string
      requires WellFormed() && i < j <= |texts|
    {
      if j == i + 1 then []
      else Gathered(i, j - 1) + if Absorbs(i, j - 1) && !views[j - 1].isStray then views[j - 1].fragment else []
    }

    /** The final text of an absorber: its own text, then its non-stray members in order. */
    ghost function FinalText(i: nat): string
      requires WellFormed() && i < |texts|
    {
      if Gathered(i, |texts|) == [] then texts[i] else RStrip(texts[i]) + Gathered(i, |texts|)
    }

    /** `merged` is what the pass must compute: the blocks taken by a cut paragraph that is not itself taken. */
    ghost predicate IsMerge(merged: set<nat>)
      requires WellFormed()
    {
      forall j: nat :: j in merged <==> exists i: nat :: Absorber(merged, i) && Absorbs(i, j)
    }

    predicate Absorber(merged: set<nat>, i: nat)
      requires WellFormed()
    {
      i < |views| && i !in merged && views[i].isCut
    }
  }

  // ---- Properties of the description ------------------------------------------------------------

  /** No block has two absorbers. */
  lemma AbsorberIsUnique(b: Blocks, merged: set<nat>, i: nat, i': nat, j: nat)
    requires b.WellFormed() && b.IsMerge(merged)
    requires b.Absorber(merged, i) && b.Absorbs(i, j)
    requires b.Absorber(merged, i') && b.Absorbs(i', j)
    ensures i == i'
  {
    if i < i' {
      LaterAbsorberIsTaken(b, i, i', j);
    } else if i' < i {
      LaterAbsorberIsTaken(b, i', i, j);
    }
  }

  lemma LaterAbsorberIsTaken(b: Blocks, i: nat, i': nat, j: nat)
    requires b.WellFormed() && i < i' < j && b.Absorbs(i, j)
    requires b.views[i'].isCut
    ensures b.Absorbs(i, i')
  {
    assert b.Passes(i, i');
  }

  /** The description fixes the result: two sets that satisfy it are equal. */
  lemma MergeIsUnique(b: Blocks, s: set<nat>, t: set<nat>)
    requires b.WellFormed() && b.IsMerge(s) && b.IsMerge(t)
    ensures s == t
  {
    forall j: nat ensures j in s <==> j in t {
      SameMembership(b, s, t, j);
      SameMembership(b, t, s, j);
    }
  }

  lemma {:induction false} SameMembership(b: Blocks, s: set<nat>, t: set<nat>, j: nat)
    requires b.WellFormed() && b.IsMerge(s) && b.IsMerge(t)
    ensures j in s ==> j in t
    decreases j
  {
    if j in s {
      var i: nat :| b.Absorber(s, i) && b.Absorbs(i, j);
      SameMembership(b, t, s, i);
      assert b.Absorber(t, i);
    }
  }

  /** The contributions strictly between `i` and `j`, absorbed or not. */
  ghost function Contributions(b: Blocks, i: nat, j: nat): string
    requires b.WellFormed() && i < j <= |b.texts|
  {
    if j == i + 1 then []
    else if b.views[j - 1].Contributes() then Contributions(b, i, j - 1) + b.views[j - 1].fragment
    else Contributions(b, i, j - 1)
  }

  /** `text` followed by the contribution `c`: its trailing whitespace goes, if anything follows. */
  function Grown(text: string, c: string): string
  {
    if c == [] then text else RStrip(text) + c
  }

  predicate EndsVisibly(c: string)
  {
    c == [] || !IsSpace(c[|c| - 1])
  }

  lemma NothingAdded(text: string)
    ensures Grown(text, []) == text && EndsVisibly([])
  {}

  /** The text built step by step is the stripped start followed by the fragments, none lost or repeated. */
  lemma {:induction false} MergedIsContributions(b: Blocks, i: nat, j: nat)
    requires b.WellFormed() && i < j <= |b.texts|
    ensures b.Merged(i, j) == Grown(b.texts[i], Contributions(b, i, j)) && EndsVisibly(Contributions(b, i, j))
    decreases j
  {
    hide RStrip, Trimmed, Grown, EndsVisibly;
    NothingAdded(b.texts[i]);
    if j > i + 1 {
      MergedIsContributions(b, i, j - 1);
      if b.views[j - 1].Contributes() {
        AppendFragment(b.texts[i], Contributions(b, i, j - 1), b.views[j - 1].fragment);
      }
    }
  }

  lemma AppendFragment(text: string, so: string, fragment: string)
    requires fragment != [] && Trimmed(fragment) && EndsVisibly(so)
    ensures RStrip(Grown(text, so)) + fragment == Grown(text, so + fragment) && EndsVisibly(so + fragment)
  {
    hide IsSpace;
    assert (so + fragment)[|so + fragment| - 1] == fragment[|fragment| - 1];
    if so != [] {
      var t := RStrip(text) + so;
      assert t[|t| - 1] == so[|so| - 1];
      assert RStrip(t) == t;
      assert t + fragment == RStrip(text) + (so + fragment);
    } else {
      assert so + fragment == fragment;
    }
  }

  /** As long as the walk goes on, every contribution is absorbed. */
  lemma {:induction false} ContributionsAreGathered(b: Blocks, i: nat, j: nat)
    requires b.WellFormed() && i < j <= |b.texts| && b.Reaches(i, j)
    ensures b.Gathered(i, j) == Contributions(b, i, j)
    decreases j
  {
    if j > i + 1 {
      assert b.Passes(i, j - 1);
      ContributionsAreGathered(b, i, j - 1);
    }
  }

  /** Past a block that stops the walk nothing is gathered. */
  lemma {:induction false} GatheredStops(b: Blocks, i: nat, stop: nat, j: nat)
    requires b.WellFormed() && i < stop <= j <= |b.texts|
    requires forall k: nat :: stop <= k ==> !b.Absorbs(i, k)
    ensures b.Gathered(i, j) == b.Gathered(i, stop)
    decreases j
  {
    if stop < j {
      GatheredStops(b, i, stop, j - 1);
    }
  }

  /** A walk that has taken all up to `stop` and can take no more leaves its start with its final text. */
  lemma FinalTextAtStop(b: Blocks, i: nat, stop: nat)
    requires b.WellFormed() && i < stop <= |b.texts|
    requires b.Reaches(i, stop) || (stop > i + 1 && b.Reaches(i, stop - 1) && b.Takeable(stop - 1))
    requires forall k: nat :: stop <= k ==> !b.Absorbs(i, k)
    ensures b.FinalText(i) == b.Merged(i, stop)
  {
    hide Blocks.Merged, Blocks.Reaches, Blocks.Absorbs, Blocks.Takeable, Blocks.Gathered, Contributions;
    GatheredStops(b, i, stop, |b.texts|);
    MergedIsContributions(b, i, stop);
    if b.Reaches(i, stop) {
      ContributionsAreGathered(b, i, stop);
    } else {
      LastIsGathered(b, i, stop);
    }
  }

  lemma LastIsGathered(b: Blocks, i: nat, stop: nat)
    requires b.WellFormed() && i + 1 < stop <= |b.texts| && b.Reaches(i, stop - 1) && b.Takeable(stop - 1)
    ensures b.Gathered(i, stop) == Contributions(b, i, stop)
  {
    ContributionsAreGathered(b, i, stop - 1);
    hide Blocks.Reaches;
  }

  // ---- The pass ---------------------------------------------------------------------------------

  ghost function Before(rules: Rules, isParagraph: seq<bool>, texts: seq<string>): (b: Blocks)
    requires |isParagraph| == |texts|
    ensures b.WellFormed() && b.texts == texts && |b.views| == |texts|
    ensures forall k :: 0 <= k < |texts| ==> b.views[k] == Look(rules, isParagraph[k], texts[k])
    ensures forall t :: b.ends(t) == EndsSentence(rules, t)
  {
    Blocks(seq(|texts|, k requires 0 <= k < |texts| => Look(rules, isParagraph[k], texts[k])), texts,
           t => EndsSentence(rules, t))
  }

  /** The block adds nothing: it has no translation, or only whitespace after cleaning. */
  predicate NoText(rules: Rules, text: string)
  {
    text == [] || Blank(rules.clean(text))
  }

  /** The part of the merge that the starts before `i` account for. */
  ghost predicate MergedSoFar(b: Blocks, i: nat, merged: set<nat>)
    requires b.WellFormed()
  {
    forall j: nat :: j in merged <==> exists k: nat :: k < i && b.Absorber(merged, k) && b.Absorbs(k, j)
  }

  /** The texts of the blocks before `i` are final, those after it untouched. */
  ghost predicate TextsSoFar(b: Blocks, i: nat, merged: set<nat>, targets: seq<string>)
    requires b.WellFormed() && |targets| == |b.texts|
  {
    && (forall k :: 0 <= k < i && k < |targets| ==>
         targets[k] == if b.Absorber(merged, k) then b.FinalText(k) else b.texts[k])
    && (forall k :: i < k < |targets| ==> targets[k] == b.texts[k])
  }

  lemma WalkDone(b: Blocks, i: nat, before: set<nat>, merged: set<nat>)
    requires b.WellFormed() && i < |b.texts| && MergedSoFar(b, i, before) && b.Absorber(before, i)
    requires forall k: nat :: k in merged <==> k in before || b.Absorbs(i, k)
    ensures MergedSoFar(b, i + 1, merged)
  {
    assert forall k: nat :: k <= i ==> (k in merged <==> k in before);
    forall j: nat
      ensures j in merged <==> exists k: nat :: k < i + 1 && b.Absorber(merged, k) && b.Absorbs(k, j)
    {
      if j in before {
        var k: nat :| k < i && b.Absorber(before, k) && b.Absorbs(k, j);
        assert b.Absorber(merged, k);
      } else if j in merged {
        assert b.Absorber(merged, i) && b.Absorbs(i, j);
      }
      if k: nat :| k < i + 1 && b.Absorber(merged, k) && b.Absorbs(k, j) {
        assert b.Absorber(before, k);
      }
    }
  }

  lemma NoWalk(b: Blocks, i: nat, merged: set<nat>)
    requires b.WellFormed() && MergedSoFar(b, i, merged) && !b.Absorber(merged, i)
    ensures MergedSoFar(b, i + 1, merged)
  {
    forall j: nat
      ensures j in merged <==> exists k: nat :: k < i + 1 && b.Absorber(merged, k) && b.Absorbs(k, j)
    {
      if j in merged {
        var k: nat :| k < i && b.Absorber(merged, k) && b.Absorbs(k, j);
        assert k < i + 1;
      }
    }
  }

  /** The walk from `i` has passed everything before `j` and taken what there was to take. */
  ghost predicate Walking(b: Blocks, i: nat, j: nat, before: set<nat>, merged: set<nat>)
    requires b.WellFormed()
  {
    && i < j <= |b.texts| && b.Reaches(i, j)
    && (forall k: nat :: k in merged <==> k in before || (k < j && b.Absorbs(i, k)))
    && (forall k :: i < k < j ==> k in merged || b.views[k].fragment == [])
  }

  /** The walk from `i` is over: it took all it can, and the text merged up to `stop` is final. */
  ghost predicate Walked(b: Blocks, i: nat, last: nat, stop: nat, before: set<nat>, merged: set<nat>)
    requires b.WellFormed()
  {
    && i < last <= |b.texts| && i < stop <= |b.texts| && b.FinalText(i) == b.Merged(i, stop)
    && (forall k: nat :: k in merged <==> k in before || b.Absorbs(i, k))
    && (forall k :: i < k < last ==> k in merged || b.views[k].fragment == [])
  }

  lemma StartWalk(b: Blocks, i: nat, merged: set<nat>)
    requires b.WellFormed() && i < |b.texts|
    ensures Walking(b, i, i + 1, merged, merged) && b.Merged(i, i + 1) == b.texts[i]
  {}

  lemma GoPast(b: Blocks, i: nat, j: nat, before: set<nat>, merged: set<nat>)
    requires b.WellFormed() && j < |b.texts| && Walking(b, i, j, before, merged) && b.Passes(i, j)
    requires b.Takeable(j) || b.views[j].fragment == []
    ensures Walking(b, i, j + 1, before, if b.Takeable(j) then merged + {j} else merged)
  {}

  /** The walk breaks at block `j`: before taking it, or just after. */
  lemma StopAt(b: Blocks, i: nat, j: nat, stop: nat, before: set<nat>, merged: set<nat>)
    requires b.WellFormed() && Walking(b, i, j, before, merged)
    requires || (stop == j && (j < |b.texts| ==> !b.Takeable(j) && !b.Passes(i, j)))
             || (stop == j + 1 && j < |b.texts| && b.Takeable(j) && !b.Passes(i, j))
    ensures Walked(b, i, j, stop, before, if stop == j then merged else merged + {j})
  {
    hide Blocks.FinalText, Blocks.Merged, Blocks.Passes, Blocks.Takeable;
    forall k: nat | stop <= k ensures !b.Absorbs(i, k) {
      NothingBeyond(b, i, j, k);
    }
    hide Blocks.Absorbs;
    FinalTextAtStop(b, i, stop);
  }

  /** What stops the walk keeps it from all that follows. */
  lemma NothingBeyond(b: Blocks, i: nat, j: nat, k: nat)
    requires b.WellFormed() && i < j <= |b.texts| && j <= k && (j < |b.texts| ==> !b.Passes(i, j))
    ensures b.Absorbs(i, k) ==> k == j && b.Takeable(j)
  {
    hide Blocks.Passes;
  }

  /** One iteration of the walk, case by case as the code tests them. */
  lemma WalkStep(rules: Rules, isParagraph: seq<bool>, b: Blocks, i: nat, j: nat, before: set<nat>, merged: set<nat>)
    requires |isParagraph| == |b.texts| && b == Before(rules, isParagraph, b.texts)
    requires j < |b.texts| && Walking(b, i, j, before, merged)
    ensures !isParagraph[j] ==> Walked(b, i, j, j, before, merged)
    ensures isParagraph[j] && NoText(rules, b.texts[j]) ==>
      Walking(b, i, j + 1, before, merged) && b.Merged(i, j + 1) == b.Merged(i, j)
    ensures isParagraph[j] && !NoText(rules, b.texts[j]) ==>
      var shown := rules.clean(b.texts[j]);
      if rules.isStray(shown) then
        Walking(b, i, j + 1, before, merged + {j}) && b.Merged(i, j + 1) == b.Merged(i, j)
      else if |Strip(shown)| < SHORTEST_CONTINUATION then
        Walked(b, i, j, j, before, merged)
      else
        && b.Merged(i, j + 1) == RStrip(b.Merged(i, j)) + Strip(shown)
        && if EndsSentence(rules, b.Merged(i, j + 1)) then Walked(b, i, j, j + 1, before, merged + {j})
           else Walking(b, i, j + 1, before, merged + {j})
  {
    assert b.views[j] == Look(rules, isParagraph[j], b.texts[j]);
    if b.Passes(i, j) && (b.Takeable(j) || b.views[j].fragment == []) {
      GoPast(b, i, j, before, merged);
    } else {
      StopAt(b, i, j, if b.Takeable(j) then j + 1 else j, before, merged);
    }
  }

  /** The walk from one cut paragraph: `targets[i]` grows in place. It looks at the blocks after `i`, each once. */
  method Walk(rules: Rules, isParagraph: seq<bool>, targets: array<string>, i: nat, merged: set<nat>, ghost b: Blocks)
    returns (merged': set<nat>, ghost last: nat, ghost stop: nat, ghost steps: nat)
    requires |isParagraph| == targets.Length == |b.texts| && i < targets.Length
    requires b == Before(rules, isParagraph, b.texts)
    requires forall k :: i <= k < targets.Length ==> targets[k] == b.texts[k]
    modifies targets
    ensures Walked(b, i, last, stop, merged, merged') && i + steps <= last
    ensures targets[..] == old(targets[..])[i := b.Merged(i, stop)]
  {
    hide *;
    var n := targets.Length;
    var j := i + 1;
    merged' := merged;
    steps := 0;
    StartWalk(b, i, merged);
    while j < n
      invariant i < j <= n && steps == j - i - 1
      invariant targets[i] == b.Merged(i, j)
      invariant forall k :: 0 <= k < n && k != i ==> targets[k] == old(targets[k])
      invariant Walking(b, i, j, merged, merged')
    {
      steps := steps + 1;
      assert targets[j] == b.texts[j];
      WalkStep(rules, isParagraph, b, i, j, merged, merged');
      if !isParagraph[j] {
        return merged', j, j, steps;
      }
      if NoText(rules, targets[j]) {
        j := j + 1;
        continue;
      }
      var ntxt := rules.clean(targets[j]);
      if rules.isStray(ntxt) {
        merged' := merged' + {j};
        j := j + 1;
        continue;
      }
      if |Strip(ntxt)| < SHORTEST_CONTINUATION {
        return merged', j, j, steps;
      }
      targets[i] := RStrip(targets[i]) + Strip(ntxt);
      merged' := merged' + {j};
      if EndsSentence(rules, targets[i]) {
        return merged', j, j + 1, steps;
      }
      j := j + 1;
    }
    StopAt(b, i, j, j, merged, merged');
    last, stop := j, j;
  }

  lemma TextsStep(b: Blocks, i: nat, before: set<nat>, merged: set<nat>, targets: seq<string>, targets': seq<string>)
    requires b.WellFormed() && i < |targets| == |b.texts|
    requires TextsSoFar(b, i, before, targets) && targets[i] == b.texts[i]
    requires targets' == targets[i := if b.Absorber(before, i) then b.FinalText(i) else b.texts[i]]
    requires forall k: nat :: k <= i ==> (k in merged <==> k in before)
    ensures TextsSoFar(b, i + 1, merged, targets')
    ensures i + 1 < |targets| ==> targets'[i + 1] == b.texts[i + 1]
  {}

  /** Where the pass stands before block `i`; `reach` is the end of the last walk, which pays for its steps. */
  ghost predicate Passing(b: Blocks, i: nat, merged: set<nat>, targets: seq<string>, reach: nat, steps: nat)
  {
    && b.WellFormed() && |targets| == |b.texts| && MergedSoFar(b, i, merged) && TextsSoFar(b, i, merged, targets)
    && (i < |targets| ==> targets[i] == b.texts[i])
    && steps <= reach <= |targets|
    && forall k :: i <= k < reach ==> k in merged || b.views[k].fragment == []
  }

  lemma StartPass(b: Blocks)
    requires b.WellFormed()
    ensures Passing(b, 0, {}, b.texts, 0, 0)
  {}

  lemma AtBlock(
      rules: Rules, isParagraph: seq<bool>, b: Blocks, i: nat, merged: set<nat>, targets: seq<string>, reach: nat,
      steps: nat)
    requires |isParagraph| == |targets| == |b.texts| && i < |targets| && b == Before(rules, isParagraph, b.texts)
    requires Passing(b, i, merged, targets, reach, steps)
    ensures b.WellFormed() && forall k :: i <= k < |targets| ==> targets[k] == b.texts[k]
    ensures b.Absorber(merged, i)
       <==> i !in merged && isParagraph[i] && !NoText(rules, targets[i]) && !EndsSentence(rules, targets[i])
  {
    assert b.views[i] == Look(rules, isParagraph[i], b.texts[i]);
  }

  lemma AfterWalk(
      b: Blocks, i: nat, before: set<nat>, merged: set<nat>, was: seq<string>, targets: seq<string>, reach: nat,
      steps: nat, last: nat, stop: nat, walked: nat)
    requires Passing(b, i, before, was, reach, steps) && i < |was| && b.Absorber(before, i)
    requires Walked(b, i, last, stop, before, merged) && i + walked <= last && targets == was[i := b.Merged(i, stop)]
    ensures Passing(b, i + 1, merged, targets, last, steps + walked)
  {
    hide MergedSoFar;
    WalkDone(b, i, before, merged);
    assert reach <= i;
    assert forall k: nat :: k <= i ==> (k in merged <==> k in before);
    TextsStep(b, i, before, merged, was, targets);
    hide TextsSoFar;
  }

  lemma AfterSkip(b: Blocks, i: nat, merged: set<nat>, targets: seq<string>, reach: nat, steps: nat)
    requires Passing(b, i, merged, targets, reach, steps) && i < |targets| && !b.Absorber(merged, i)
    ensures Passing(b, i + 1, merged, targets, reach, steps)
  {
    NoWalk(b, i, merged);
    hide MergedSoFar;
    TextsStep(b, i, merged, merged, targets, targets);
  }

  lemma EndPass(b: Blocks, merged: set<nat>, targets: seq<string>, reach: nat, steps: nat)
    requires Passing(b, |targets|, merged, targets, reach, steps)
    ensures b.IsMerge(merged) && steps <= |targets|
    ensures forall i :: 0 <= i < |targets| ==>
      targets[i] == if b.Absorber(merged, i) then b.FinalText(i) else b.texts[i]
  {
    MergedEverywhere(b, |targets|, merged);
  }

  /**
   * The pass over all blocks. `steps` counts the iterations of every walk: however the walks overlap,
   * there are no more of them than blocks.
   */
  method MergeCutParagraphs(rules: Rules, isParagraph: seq<bool>, targets: array<string>)
    returns (merged: set<nat>, ghost steps: nat)
    requires |isParagraph| == targets.Length
    modifies targets
    ensures var b := Before(rules, isParagraph, old(targets[..]));
      && b.IsMerge(merged)
      && (forall i :: 0 <= i < targets.Length ==>
            targets[i] == if b.Absorber(merged, i) then b.FinalText(i) else b.texts[i])
    ensures steps <= targets.Length
  {
    hide *;
    ghost var b := Before(rules, isParagraph, targets[..]);
    merged := {};
    steps := 0;
    ghost var reach := 0;
    StartPass(b);
    if targets.Length == 0 {
      EndPass(b, merged, targets[..], reach, steps);
      return;
    }
    for i := 0 to targets.Length - 1
      invariant Passing(b, i, merged, targets[..], reach, steps)
    {
      ghost var was := targets[..];
      AtBlock(rules, isParagraph, b, i, merged, was, reach, steps);
      assert forall k :: i <= k < targets.Length ==> targets[k] == was[k];
      if i !in merged && isParagraph[i] && !NoText(rules, targets[i]) && !EndsSentence(rules, targets[i]) {
        ghost var before, last, stop, walked := merged, reach, i, 0;
        merged, last, stop, walked := Walk(rules, isParagraph, targets, i, merged, b);
        AfterWalk(b, i, before, merged, was, targets[..], reach, steps, last, stop, walked);
        steps := steps + walked;
        reach := last;
      } else {
        AfterSkip(b, i, merged, was, reach, steps);
      }
    }
    LastBlock(b, targets.Length - 1, merged, targets[..], reach, steps);
    EndPass(b, merged, targets[..], targets.Length, steps);
  }

  /** The last block has nothing to take over, cut or not; the loop does not visit it. */
  lemma LastBlock(b: Blocks, i: nat, merged: set<nat>, targets: seq<string>, reach: nat, steps: nat)
    requires i + 1 == |targets| && Passing(b, i, merged, targets, reach, steps)
    ensures Passing(b, i + 1, merged, targets, |targets|, steps)
  {
    if b.Absorber(merged, i) {
      StartWalk(b, i, merged);
      StopAt(b, i, i + 1, i + 1, merged, merged);
      AfterWalk(b, i, merged, merged, targets, targets, reach, steps, i + 1, i + 1, 0);
    } else {
      AfterSkip(b, i, merged, targets, reach, steps);
    }
  }

  lemma MergedEverywhere(b: Blocks, n: nat, merged: set<nat>)
    requires b.WellFormed() && n == |b.texts| && MergedSoFar(b, n, merged)
    ensures b.IsMerge(merged)
  {
    forall j: nat ensures j in merged <==> exists i: nat :: b.Absorber(merged, i) && b.Absorbs(i, j) {
      if i: nat :| b.Absorber(merged, i) && b.Absorbs(i, j) {
        assert i < n;
      }
    }
  }

  // ---- The merge written out --------------------------------------------------------------------

  /** What a block adds to another: its cleaned text, stripped. */
  function Added(rules: Rules, text: string): string
  {
    if text == [] then [] else Strip(rules.clean(text))
  }

  predicate IsStrayText(rules: Rules, text: string)
  {
    text != [] && rules.isStray(rules.clean(text))
  }

  /** The last visible character ends a sentence. */
  predicate IsFinished(rules: Rules, text: string)
  {
    var shown := RStrip(rules.clean(text));
    shown != [] && shown[|shown| - 1] in {
      '\U{3002}', '\U{FF01}', '\U{FF1F}', '\U{FF1B}', '\U{2026}', '.', '!', '?', ';',
      '\U{300D}', '\U{300F}', '\U{FF09}', '"', ')'
    }
  }

  /** What the blocks strictly between `i` and `j` add, one after the other; stray fragments add nothing. */
  function Additions(rules: Rules, texts: seq<string>, i: nat, j: nat): seq<string>
    requires i < j <= |texts|
  {
    seq(j - i - 1, k requires 0 <= k < j - i - 1 =>
      if IsStrayText(rules, texts[i + 1 + k]) then [] else Added(rules, texts[i + 1 + k]))
  }

  function With(text: string, added: string): string
  {
    if added == [] then text else RStrip(text) + added
  }

  /**
   * Text `i` takes block `j`: a stray fragment, or ten characters and more. Every block on the way is a paragraph that
   * adds nothing, or ten characters and more after which the grown text is still unfinished.
   */
  predicate Takes(rules: Rules, isParagraph: seq<bool>, texts: seq<string>, i: nat, j: nat)
    requires |isParagraph| == |texts|
  {
    && i < j < |texts| && isParagraph[j] && Added(rules, texts[j]) != []
    && (IsStrayText(rules, texts[j]) || |Added(rules, texts[j])| >= 10)
    && forall k :: i < k < j ==>
         isParagraph[k]
         && (Added(rules, texts[k]) == [] || IsStrayText(rules, texts[k])
             || (|Added(rules, texts[k])| >= 10
                 && !IsFinished(rules, With(texts[i], Concat(Additions(rules, texts, i, k + 1))))))
  }

  /** What the pass sees of a block, in these terms. */
  lemma ViewIs(rules: Rules, isParagraph: seq<bool>, texts: seq<string>, k: nat)
    requires |isParagraph| == |texts| && k < |texts|
    ensures var v := Before(rules, isParagraph, texts).views[k];
      && v.isParagraph == isParagraph[k] && v.fragment == Added(rules, texts[k])
      && v.isStray == IsStrayText(rules, texts[k])
      && (v.isCut <==> isParagraph[k] && texts[k] != [] && !Blank(rules.clean(texts[k]))
                       && !IsFinished(rules, texts[k]))
  {
    hide IsFinished, EndsSentence;
    FinishedIsEnded(rules, texts[k]);
    assert Before(rules, isParagraph, texts).views[k] == Look(rules, isParagraph[k], texts[k]);
    hide Before;
  }

  lemma FinishedIsEnded(rules: Rules, text: string)
    ensures IsFinished(rules, text) <==> EndsSentence(rules, text)
  {}

  lemma EndsIs(rules: Rules, isParagraph: seq<bool>, texts: seq<string>, text: string)
    requires |isParagraph| == |texts|
    ensures Before(rules, isParagraph, texts).ends(text) == IsFinished(rules, text)
  {
    hide IsFinished, EndsSentence;
    FinishedIsEnded(rules, text);
    assert Before(rules, isParagraph, texts).ends(text) == EndsSentence(rules, text);
  }

  lemma AdditionsGrow(rules: Rules, texts: seq<string>, i: nat, j: nat)
    requires i < j - 1 < |texts|
    ensures var last := if IsStrayText(rules, texts[j - 1]) then [] else Added(rules, texts[j - 1]);
      Concat(Additions(rules, texts, i, j)) == Concat(Additions(rules, texts, i, j - 1)) + last
  {
    hide Added, IsStrayText, Concat;
    var last := if IsStrayText(rules, texts[j - 1]) then [] else Added(rules, texts[j - 1]);
    assert Additions(rules, texts, i, j) == Additions(rules, texts, i, j - 1) + [last];
    ConcatOne(Additions(rules, texts, i, j - 1), last);
  }

  lemma {:induction false} ContributionsAreAdditions(
      rules: Rules, isParagraph: seq<bool>, texts: seq<string>, i: nat, j: nat)
    requires |isParagraph| == |texts| && i < j <= |texts|
    ensures Contributions(Before(rules, isParagraph, texts), i, j) == Concat(Additions(rules, texts, i, j))
    decreases j
  {
    hide Before, Look, Added, IsStrayText, Additions, Concat;
    NothingYet(rules, isParagraph, texts, i);
    if j > i + 1 {
      ContributionsAreAdditions(rules, isParagraph, texts, i, j - 1);
      AdditionsGrow(rules, texts, i, j);
      ViewIs(rules, isParagraph, texts, j - 1);
    }
  }

  lemma MergedIsWith(rules: Rules, isParagraph: seq<bool>, texts: seq<string>, i: nat, j: nat)
    requires |isParagraph| == |texts| && i < j <= |texts|
    ensures Before(rules, isParagraph, texts).Merged(i, j)
         == With(texts[i], Concat(Additions(rules, texts, i, j)))
  {
    MergedIsContributions(Before(rules, isParagraph, texts), i, j);
    ContributionsAreAdditions(rules, isParagraph, texts, i, j);
  }

  lemma AbsorbsIsTaking(rules: Rules, isParagraph: seq<bool>, texts: seq<string>, i: nat, j: nat)
    requires |isParagraph| == |texts|
    ensures Before(rules, isParagraph, texts).Absorbs(i, j) <==> Takes(rules, isParagraph, texts, i, j)
  {
    hide Additions, Concat, Blocks.Merged, With, Before, Look, Added, IsStrayText, IsFinished;
    var b := Before(rules, isParagraph, texts);
    if i < j < |texts| {
      forall k: nat | i < k < j
        ensures b.Passes(i, k) <==>
          (isParagraph[k]
           && (Added(rules, texts[k]) == [] || IsStrayText(rules, texts[k])
               || (|Added(rules, texts[k])| >= 10
                   && !IsFinished(rules, With(texts[i], Concat(Additions(rules, texts, i, k + 1)))))))
      {
        MergedIsWith(rules, isParagraph, texts, i, k + 1);
        ViewIs(rules, isParagraph, texts, k);
        EndsIs(rules, isParagraph, texts, b.Merged(i, k + 1));
      }
      hide Blocks.Passes;
      ViewIs(rules, isParagraph, texts, j);
    }
  }

  /** A block is merged away exactly when an unfinished paragraph that stays takes it. */
  lemma MergedExactly(rules: Rules, isParagraph: seq<bool>, texts: seq<string>, merged: set<nat>, j: nat)
    requires |isParagraph| == |texts| && Before(rules, isParagraph, texts).IsMerge(merged)
    ensures j in merged <==> exists i: nat ::
      && i < |texts| && i !in merged && isParagraph[i] && texts[i] != []
      && !Blank(rules.clean(texts[i])) && !IsFinished(rules, texts[i]) && Takes(rules, isParagraph, texts, i, j)
  {
    var b := Before(rules, isParagraph, texts);
    hide Takes, Blocks.Absorbs, Before, Look, IsFinished;
    forall i: nat | i < |texts|
      ensures b.Absorber(merged, i) <==>
        (i !in merged && isParagraph[i] && texts[i] != []
         && !Blank(rules.clean(texts[i])) && !IsFinished(rules, texts[i]))
      ensures b.Absorbs(i, j) <==> Takes(rules, isParagraph, texts, i, j)
    {
      AbsorbsIsTaking(rules, isParagraph, texts, i, j);
      ViewIs(rules, isParagraph, texts, i);
    }
  }

  /** What the blocks after `i` give to it: each what it adds if it is taken and no stray fragment, else nothing. */
  function Gifts(rules: Rules, isParagraph: seq<bool>, texts: seq<string>, i: nat, j: nat): seq<string>
    requires |isParagraph| == |texts| && i < j <= |texts|
  {
    seq(j - i - 1, k requires 0 <= k < j - i - 1 =>
      if Takes(rules, isParagraph, texts, i, i + 1 + k) && !IsStrayText(rules, texts[i + 1 + k])
      then Added(rules, texts[i + 1 + k]) else [])
  }

  lemma {:induction false} GatheredAreGifts(
      rules: Rules, isParagraph: seq<bool>, texts: seq<string>, i: nat, j: nat)
    requires |isParagraph| == |texts| && i < j <= |texts|
    ensures Before(rules, isParagraph, texts).Gathered(i, j) == Concat(Gifts(rules, isParagraph, texts, i, j))
    decreases j
  {
    hide Takes, Blocks.Absorbs, Before, Look, Added, IsStrayText, Gifts, Concat;
    NothingYet(rules, isParagraph, texts, i);
    if j > i + 1 {
      GatheredAreGifts(rules, isParagraph, texts, i, j - 1);
      AbsorbsIsTaking(rules, isParagraph, texts, i, j - 1);
      ViewIs(rules, isParagraph, texts, j - 1);
      GiftsGrow(rules, isParagraph, texts, i, j);
    }
  }

  lemma NothingYet(rules: Rules, isParagraph: seq<bool>, texts: seq<string>, i: nat)
    requires |isParagraph| == |texts| && i < |texts|
    ensures Concat(Additions(rules, texts, i, i + 1)) == [] == Concat(Gifts(rules, isParagraph, texts, i, i + 1))
  {}

  lemma GiftsGrow(rules: Rules, isParagraph: seq<bool>, texts: seq<string>, i: nat, j: nat)
    requires |isParagraph| == |texts| && i < j - 1 < |texts|
    ensures Concat(Gifts(rules, isParagraph, texts, i, j)) == Concat(Gifts(rules, isParagraph, texts, i, j - 1))
      + if Takes(rules, isParagraph, texts, i, j - 1) && !IsStrayText(rules, texts[j - 1])
        then Added(rules, texts[j - 1]) else []
  {
    hide Takes, Added, IsStrayText, Concat;
    var last := if Takes(rules, isParagraph, texts, i, j - 1) && !IsStrayText(rules, texts[j - 1])
                then Added(rules, texts[j - 1]) else [];
    assert Gifts(rules, isParagraph, texts, i, j) == Gifts(rules, isParagraph, texts, i, j - 1) + [last];
    ConcatOne(Gifts(rules, isParagraph, texts, i, j - 1), last);
  }

  /** The final text of a paragraph: its own, and behind it what it is given, in document order. */
  lemma FinalTextExactly(rules: Rules, isParagraph: seq<bool>, texts: seq<string>, i: nat)
    requires |isParagraph| == |texts| && i < |texts|
    ensures Before(rules, isParagraph, texts).FinalText(i)
         == With(texts[i], Concat(Gifts(rules, isParagraph, texts, i, |texts|)))
  {
    GatheredAreGifts(rules, isParagraph, texts, i, |texts|);
  }
}
