/** scripts/export_chapter_zh_html.py: taking a translated "term -- definition" list apart again. */
module BulletLists {
  import opened Groups
  import opened Text
  import opened Pieces

  const EM_DASH := '\U{2014}'
  const TERMINATORS: set<char> := {'\U{3002}', '\U{FF01}', '\U{FF1F}'}

  /** The sentences of `joined`: cut after each full-width terminator, stripped, blanks dropped. */
  function Sentences(joined: string): seq<string>
  {
    Parts(Cut(joined, (p: nat) => 0 < p <= |joined| && joined[p - 1] in TERMINATORS, |joined|))
  }

  /** The first `k` characters of `s` are a term, and a double em-dash follows. */
  predicate IsTerm(s: string, k: nat)
  {
    && k + 1 < |s| && s[k..k + 2] == [EM_DASH, EM_DASH]
    && EM_DASH !in s[..k] && '\n' !in s[..k] && '\U{3002}' !in s[..k]
  }

  /** The sentence opens a bullet: a term of 1 to 18 characters and a double em-dash. */
  predicate IsLead(s: string)
  {
    exists k :: 1 <= k <= 18 && IsTerm(s, k)
  }

  // ---- The tests in characters ------------------------------------------------------------------

  /** A full-width full stop, exclamation mark or question mark. */
  predicate IsStop(c: char)
  {
    c == '\U{3002}' || c == '\U{FF01}' || c == '\U{FF1F}'
  }

  /** Trimmed texts, each with one stop, at its end; the last may have none. */
  predicate AreSentences(parts: seq<string>)
  {
    forall k :: 0 <= k < |parts| ==>
      && parts[k] != [] && Trimmed(parts[k])
      && (forall j :: 0 <= j < |parts[k]| - 1 ==> !IsStop(parts[k][j]))
      && (k < |parts| - 1 ==> IsStop(parts[k][|parts[k]| - 1]))
  }

  predicate IsCutAt(text: string, p: nat)
  {
    0 < p <= |text| && text[p - 1] in TERMINATORS
  }

  lemma CutByStops(parts: seq<string>, k: nat, j: nat)
    requires AreSentences(parts) && k < |parts| && 0 < j <= |parts[k]|
    ensures j < |parts[k]| ==> !IsCutAt(Concat(parts), StartOf(parts, k) + j)
    ensures j == |parts[k]| && k < |parts| - 1 ==> IsCutAt(Concat(parts), StartOf(parts, k) + j)
  {
    CharOfPart(parts, k, j - 1);
  }

  /** Sentences that run together are told apart again. */
  lemma SentencesAreFound(parts: seq<string>)
    requires AreSentences(parts)
    ensures Sentences(Concat(parts)) == parts
  {
    hide AreSentences, IsCutAt, StartOf, Concat, Cut, Parts;
    var text := Concat(parts);
    var at := (p: nat) => 0 < p <= |text| && text[p - 1] in TERMINATORS;
    assert forall p: nat :: at(p) <==> IsCutAt(text, p) by { SameCuts(text); }
    SentencesAreTrimmed(parts);
    forall k | 0 < k < |parts| ensures at(StartOf(parts, k)) {
      StartOfNext(parts, k - 1);
      CutByStops(parts, k - 1, |parts[k - 1]|);
    }
    forall k: nat, p: nat | k < |parts| && StartOf(parts, k) < p < StartOf(parts, k) + |parts[k]| ensures !at(p) {
      CutByStops(parts, k, p - StartOf(parts, k));
    }
    CutGivesParts(parts, at, |parts|);
    PartsAreAll(parts);
  }

  lemma SameCuts(text: string)
    ensures forall p: nat :: IsCutAt(text, p) <==> 0 < p <= |text| && text[p - 1] in TERMINATORS
  {}

  lemma SentencesAreTrimmed(parts: seq<string>)
    requires AreSentences(parts)
    ensures forall k :: 0 <= k < |parts| ==> parts[k] != [] && Trimmed(parts[k])
  {}

  lemma PartsAreAll(parts: seq<string>)
    requires forall k :: 0 <= k < |parts| ==> parts[k] != [] && Trimmed(parts[k])
    ensures StartOf(parts, |parts|) == |Concat(parts)| && parts[..|parts|] == parts && Parts(parts) == parts
  {
    assert parts[..|parts|] == parts;
    forall k | 0 <= k < |parts| ensures !Blank(parts[k]) && Strip(parts[k]) == parts[k] {
      assert !IsSpace(parts[k][0]);
      StripTrimmed(parts[k]);
    }
    PartsOneByOne(parts);
  }

  /** The text begins with `k` characters, none of them a dash, a full stop or a line break, and then two dashes. */
  predicate HasTerm(s: string, k: nat)
  {
    && k + 1 < |s| && s[k] == '\U{2014}' && s[k + 1] == '\U{2014}'
    && forall j :: 0 <= j < k ==> s[j] != '\U{2014}' && s[j] != '\n' && s[j] != '\U{3002}'
  }

  /** A leader is a term of one to eighteen characters and two dashes. */
  lemma LeadInCharacters(s: string)
    ensures IsLead(s) <==> exists k: nat :: 1 <= k <= 18 && HasTerm(s, k)
  {
    forall k: nat ensures IsTerm(s, k) <==> HasTerm(s, k) {
      TermInCharacters(s, k);
    }
  }

  lemma TermInCharacters(s: string, k: nat)
    ensures IsTerm(s, k) <==> HasTerm(s, k)
  {
    if k + 1 < |s| {
      assert s[k..k + 2] == [s[k], s[k + 1]];
      assert forall j :: 0 <= j < k ==> s[..k][j] == s[j];
    }
  }

  // ---- Grouping ---------------------------------------------------------------------------------

  /** Every item after the first opens with a leader, and a leader opens an item wherever it stands. */
  ghost predicate WellGrouped(groups: seq<seq<string>>)
  {
    && (forall g :: 0 <= g < |groups| ==> groups[g] != [])
    && (forall g :: 0 < g < |groups| ==> IsLead(groups[g][0]))
    && (forall g, k :: 0 <= g < |groups| && 0 < k < |groups[g]| ==> !IsLead(groups[g][k]))
  }

  lemma OneMoreGroup(groups: seq<seq<string>>, last: seq<string>)
    requires WellGrouped(groups) && last != [] && (groups != [] ==> IsLead(last[0]))
    requires forall k :: 0 < k < |last| ==> !IsLead(last[k])
    ensures WellGrouped(groups + [last])
  {
    hide IsLead;
  }

  /** The sentences grouped into items, none lost, added or moved. */
  ghost predicate IsItemization(sentences: seq<string>, groups: seq<seq<string>>)
  {
    Flatten(groups) == sentences && WellGrouped(groups)
  }

  ghost predicate Spells(items: seq<string>, groups: seq<seq<string>>)
  {
    |items| == |groups| && forall g :: 0 <= g < |groups| ==> items[g] == Concat(groups[g])
  }

  lemma {:induction false} ItemsSpellTheSentences(items: seq<string>, groups: seq<seq<string>>)
    requires Spells(items, groups)
    ensures Concat(items) == Concat(Flatten(groups))
  {
    if groups != [] {
      ItemsSpellTheSentences(items[..|items| - 1], groups[..|groups| - 1]);
      ConcatAppend(Flatten(groups[..|groups| - 1]), groups[|groups| - 1]);
    }
  }

  /** The item under construction holds the trimmed text of its sentences. */
  ghost predicate Building(sentences: seq<string>, i: nat, groups: seq<seq<string>>, open: seq<string>, current: string)
  {
    && i <= |sentences| && Flatten(groups) + open == sentences[..i]
    && WellGrouped(groups)
    && (open == [] <==> i == 0) && (open == [] ==> groups == [])
    && (open != [] && groups != [] ==> IsLead(open[0]))
    && (forall k :: 0 < k < |open| ==> !IsLead(open[k]))
    && current == Concat(open) && (open != [] ==> current != [] && Trimmed(current))
  }

  lemma CloseItem(sentences: seq<string>, i: nat, groups: seq<seq<string>>, open: seq<string>, current: string)
    requires Building(sentences, i, groups, open, current) && i < |sentences| && open != []
    requires sentences[i] != [] && Trimmed(sentences[i]) && IsLead(sentences[i])
    ensures Building(sentences, i + 1, groups + [open], [sentences[i]], sentences[i])
  {
    hide WellGrouped;
    FlattenOne(groups, open);
    OneMoreGroup(groups, open);
    assert sentences[..i + 1] == sentences[..i] + [sentences[i]];
    ConcatOne([], sentences[i]);
    assert [] + [sentences[i]] == [sentences[i]];
  }

  lemma GrowItem(sentences: seq<string>, i: nat, groups: seq<seq<string>>, open: seq<string>, current: string)
    requires Building(sentences, i, groups, open, current) && i < |sentences|
    requires sentences[i] != [] && Trimmed(sentences[i]) && (open == [] || !IsLead(sentences[i]))
    ensures Building(sentences, i + 1, groups, open + [sentences[i]], current + sentences[i])
    ensures open != [] ==> Strip(current + sentences[i]) == current + sentences[i]
  {
    assert sentences[..i + 1] == sentences[..i] + [sentences[i]];
    ConcatOne(open, sentences[i]);
    if open != [] {
      TrimmedConcat(current, sentences[i]);
    } else {
      assert current + sentences[i] == sentences[i];
    }
  }

  method SplitTranslatedBulletList(joined: string) returns (items: seq<string>, ghost groups: seq<seq<string>>)
    ensures IsItemization(Sentences(joined), groups) && Spells(items, groups)
    // No visible character is lost, added or moved.
    ensures Squeeze(Concat(items)) == Squeeze(joined)
  {
    var sentences := Sentences(joined);
    SentencesKeepText(joined);
    items, groups := [], [];
    var current := "";
    ghost var open: seq<string> := [];
    hide *;
    StartItems(sentences);
    for i := 0 to |sentences|
      invariant Building(sentences, i, groups, open, current) && Spells(items, groups)
    {
      var s := sentences[i];
      ItemStep(sentences, i, items, groups, open, current);
      if IsLead(s) && current != "" {
        items := items + [current];
        groups := groups + [open];
        current, open := s, [s];
      } else if IsLead(s) {
        current, open := s, open + [s];
      } else {
        current := if current != "" then Strip(current + s) else s;
        open := open + [s];
      }
    }
    FinishItems(sentences, items, groups, open, current);
    if current != "" {
      items, groups := items + [current], groups + [open];
    }
  }

  /** The sentences leave one way to group them. */
  lemma {:induction false} GroupingIsUnique(a: seq<seq<string>>, b: seq<seq<string>>)
    requires WellGrouped(a) && WellGrouped(b) && Flatten(a) == Flatten(b)
    ensures a == b
  {
    hide IsLead;
    if a == [] || b == [] {
      NothingGrouped(a);
      NothingGrouped(b);
    } else {
      var la, lb := a[|a| - 1], b[|b| - 1];
      if |la| < |lb| {
        LastGroupIsNotLonger(a, b);
      } else if |lb| < |la| {
        LastGroupIsNotLonger(b, a);
      }
      var all := Flatten(a);
      assert all == Flatten(a[..|a| - 1]) + la == Flatten(b[..|b| - 1]) + lb;
      assert la == all[|all| - |la|..] && lb == all[|all| - |lb|..];
      assert Flatten(a[..|a| - 1]) == all[..|all| - |la|] && Flatten(b[..|b| - 1]) == all[..|all| - |lb|];
      GroupingIsUnique(a[..|a| - 1], b[..|b| - 1]);
      assert a == a[..|a| - 1] + [la] && b == b[..|b| - 1] + [lb];
    }
  }

  lemma NothingGrouped(a: seq<seq<string>>)
    requires WellGrouped(a)
    ensures a == [] <==> Flatten(a) == []
  {
    if a != [] {
      assert a[|a| - 1] != [];
    }
  }

  lemma LastGroupIsNotLonger(a: seq<seq<string>>, b: seq<seq<string>>)
    requires WellGrouped(a) && WellGrouped(b) && Flatten(a) == Flatten(b) && a != [] && b != []
    ensures |b[|b| - 1]| <= |a[|a| - 1]|
  {
    hide IsLead;
    var la, lb := a[|a| - 1], b[|b| - 1];
    assert |a| == 1 ==> a[..|a| - 1] == [];
    if |la| < |lb| {
      SameSuffix(Flatten(a[..|a| - 1]), la, Flatten(b[..|b| - 1]), lb);
    }
  }

  lemma SameSuffix(x: seq<string>, la: seq<string>, y: seq<string>, lb: seq<string>)
    requires x + la == y + lb && 0 < |la| < |lb|
    ensures la[0] == lb[|lb| - |la|] && x != []
  {
    assert (x + la)[|x|] == (y + lb)[|x|];
  }

  /**
   * A list written out as its items run together - each but the first opening with a leader, and no leader
   * elsewhere - comes apart into these items.
   */
  lemma ListComesApart(joined: string, items: seq<string>, groups: seq<seq<string>>, written: seq<seq<string>>)
    requires IsItemization(Sentences(joined), groups) && Spells(items, groups)
    requires WellGrouped(written) && AreSentences(Flatten(written)) && joined == Concat(Flatten(written))
    ensures |items| == |written| && forall g :: 0 <= g < |written| ==> items[g] == Concat(written[g])
  {
    SentencesAreFound(Flatten(written));
    GroupingIsUnique(groups, written);
  }

  lemma StartItems(sentences: seq<string>)
    ensures Building(sentences, 0, [], [], "") && Spells([], [])
  {}

  /** One sentence: it closes the open item, or it is added to it. */
  lemma ItemStep(
      sentences: seq<string>, i: nat, items: seq<string>, groups: seq<seq<string>>, open: seq<string>, current: string)
    requires Building(sentences, i, groups, open, current) && Spells(items, groups) && i < |sentences|
    requires sentences[i] != [] && Trimmed(sentences[i])
    ensures var s := sentences[i];
      if IsLead(s) && current != "" then
        Building(sentences, i + 1, groups + [open], [s], s) && Spells(items + [current], groups + [open])
      else if IsLead(s) then Building(sentences, i + 1, groups, open + [s], s)
      else Building(sentences, i + 1, groups, open + [s], if current != "" then Strip(current + s) else s)
  {
    hide IsLead, Strip, Trimmed, Concat, Flatten;
    var s := sentences[i];
    assert open == [] <==> current == [] by { NothingToConcat(); }
    if IsLead(s) && current != "" {
      CloseItem(sentences, i, groups, open, current);
    } else {
      GrowItem(sentences, i, groups, open, current);
      assert current == "" ==> current + s == s;
    }
    hide Building;
  }

  lemma FinishItems(
      sentences: seq<string>, items: seq<string>, groups: seq<seq<string>>, open: seq<string>, current: string)
    requires Building(sentences, |sentences|, groups, open, current) && Spells(items, groups)
    ensures var items' := if current != "" then items + [current] else items;
      var groups' := if current != "" then groups + [open] else groups;
      IsItemization(sentences, groups') && Spells(items', groups') && Concat(items') == Concat(sentences)
  {
    hide IsLead, Trimmed, Concat, WellGrouped;
    NothingToConcat();
    assert sentences[..|sentences|] == sentences;
    if current != "" {
      FlattenOne(groups, open);
      OneMoreGroup(groups, open);
      assert Spells(items + [current], groups + [open]);
      hide Spells, Flatten;
      ItemsSpellTheSentences(items + [current], groups + [open]);
    } else {
      assert Flatten(groups) + open == Flatten(groups);
      ItemsSpellTheSentences(items, groups);
    }
  }

  lemma SentencesKeepText(joined: string)
    ensures Squeeze(Concat(Sentences(joined))) == Squeeze(joined)
    ensures forall k :: 0 <= k < |Sentences(joined)| ==> Sentences(joined)[k] != [] && Trimmed(Sentences(joined)[k])
  {
    var at := (p: nat) => 0 < p <= |joined| && joined[p - 1] in TERMINATORS;
    CutKeepsText(joined, at, |joined|);
    assert joined[..|joined|] == joined;
    PartsKeepText(Cut(joined, at, |joined|));
  }
}
