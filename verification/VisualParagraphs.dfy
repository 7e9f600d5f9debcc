/** scripts/render_bilingual_subset.py: cutting a flattened source block back into visual paragraphs. */
module VisualParagraphs {
  import opened Groups
  import opened Text
  import opened Pieces

  /** The non-blank lines of the source, stripped. A line break is whitespace, so stripping removes it too. */
  function RealLines(source: string): seq<string>
  {
    Parts(Cut(source, (p: nat) => 0 < p <= |source| && source[p - 1] == '\n', |source|))
  }

  lemma RealLinesKeepText(source: string)
    ensures Squeeze(Concat(RealLines(source))) == Squeeze(source)
    ensures RealLines(source) == [] <==> Blank(source)
    ensures |RealLines(source)| == 1 ==> Strip(source) == RealLines(source)[0]
  {
    var at := (p: nat) => 0 < p <= |source| && source[p - 1] == '\n';
    var pieces := Cut(source, at, |source|);
    CutKeepsText(source, at, |source|);
    assert source[..|source|] == source;
    PartsKeepText(pieces);
    NoPartsIsBlank(pieces);
    if |RealLines(source)| == 1 {
      OnlyPart(pieces);
    }
  }

  // ---- The break test ---------------------------------------------------------------------------

  function InsertSorted(sorted: seq<nat>, n: nat): (r: seq<nat>)
    ensures |r| == |sorted| + 1
  {
    if sorted == [] || sorted[|sorted| - 1] <= n then sorted + [n]
    else InsertSorted(sorted[..|sorted| - 1], n) + [sorted[|sorted| - 1]]
  }

  function SortedLengths(lines: seq<string>): (r: seq<nat>)
    ensures |r| == |lines|
  {
    if lines == [] then []
    else InsertSorted(SortedLengths(lines[..|lines| - 1]), |lines[|lines| - 1]|)
  }

  /** A line is short if it is at most 55% of the median length, and in any case up to 20 characters. */
  function ShortThreshold(lines: seq<string>): int
    requires lines != []
  {
    var median := SortedLengths(lines)[|lines| / 2];
    if median * 55 / 100 > 20 then median * 55 / 100 else 20
  }

  predicate EndsWith(s: string, tail: string)
  {
    |tail| <= |s| && s[|s| - |tail|..] == tail
  }

  predicate EndsTerminal(line: string)
  {
    || EndsWith(line, ".") || EndsWith(line, "!") || EndsWith(line, "?")
    || EndsWith(line, ".\U{201D}") || EndsWith(line, ".\"") || EndsWith(line, ".)")
  }

  /** A paragraph ends after this line, unless it is the last one anyway. */
  predicate IsShortTail(line: string, threshold: int)
  {
    EndsTerminal(line) && |line| <= threshold
  }

  // ---- Lines and threshold written out ----------------------------------------------------------

  /** Trimmed lines with text. */
  predicate AreLines(lines: seq<string>)
  {
    forall k :: 0 <= k < |lines| ==> lines[k] != [] && Trimmed(lines[k]) && '\n' !in lines[k]
  }

  /** The lines with a line break after each. */
  function Broken(lines: seq<string>): (r: seq<string>)
    ensures |r| == |lines| && forall k :: 0 <= k < |lines| ==> r[k] == lines[k] + "\n"
  {
    seq(|lines|, k requires 0 <= k < |lines| => lines[k] + "\n")
  }

  /** Lines written one below the other are found again. */
  lemma LinesAreFound(lines: seq<string>)
    requires AreLines(lines)
    ensures RealLines(Concat(Broken(lines))) == lines
  {
    hide AreLines, StartOf, Concat, Cut, Parts, Broken;
    var parts := Broken(lines);
    var source := Concat(parts);
    var at := (p: nat) => 0 < p <= |source| && source[p - 1] == '\n';
    forall k | 0 < k < |parts| ensures at(StartOf(parts, k)) {
      StartOfNext(parts, k - 1);
      BreaksAfterLines(lines, k - 1, |parts[k - 1]|);
    }
    forall k: nat, p: nat | k < |parts| && StartOf(parts, k) < p < StartOf(parts, k) + |parts[k]| ensures !at(p) {
      BreaksAfterLines(lines, k, p - StartOf(parts, k));
    }
    CutGivesParts(parts, at, |parts|);
    LinesOneByOne(lines);
  }

  lemma BreaksAfterLines(lines: seq<string>, k: nat, j: nat)
    requires AreLines(lines) && k < |lines| && 0 < j <= |lines[k]| + 1
    ensures var source, p := Concat(Broken(lines)), StartOf(Broken(lines), k) + j;
      p <= |source| && (source[p - 1] == '\n' <==> j == |lines[k]| + 1)
  {
    CharOfPart(Broken(lines), k, j - 1);
  }

  lemma LinesOneByOne(lines: seq<string>)
    requires AreLines(lines)
    ensures var parts := Broken(lines);
      StartOf(parts, |parts|) == |Concat(parts)| && parts[..|parts|] == parts && Parts(parts) == lines
  {
    var parts := Broken(lines);
    assert parts[..|parts|] == parts;
    forall k | 0 <= k < |lines| ensures !Blank(parts[k]) && Strip(parts[k]) == lines[k] {
      assert !IsSpace(lines[k][0]) && parts[k][0] == lines[k][0];
      StripBlankBack(lines[k], "\n");
      StripTrimmed(lines[k]);
    }
    PartsOneByOne(parts);
  }

  /** The lengths of the lines. */
  function Lengths(lines: seq<string>): (r: seq<nat>)
    ensures |r| == |lines|
  {
    seq(|lines|, k requires 0 <= k < |lines| => |lines[k]|)
  }

  predicate IsAscending(s: seq<nat>)
  {
    forall i, j :: 0 <= i < j < |s| ==> s[i] <= s[j]
  }

  lemma {:induction false} InsertKeepsLengths(sorted: seq<nat>, n: nat)
    ensures multiset(InsertSorted(sorted, n)) == multiset(sorted) + multiset{n}
  {
    if sorted != [] && sorted[|sorted| - 1] > n {
      var front, last := sorted[..|sorted| - 1], sorted[|sorted| - 1];
      InsertKeepsLengths(front, n);
      assert sorted == front + [last];
    }
  }

  lemma {:induction false} InsertKeepsOrder(sorted: seq<nat>, n: nat)
    requires IsAscending(sorted)
    ensures IsAscending(InsertSorted(sorted, n))
    ensures forall k :: 0 <= k < |InsertSorted(sorted, n)| ==>
      InsertSorted(sorted, n)[k] <= n || (sorted != [] && InsertSorted(sorted, n)[k] <= sorted[|sorted| - 1])
  {
    if sorted != [] && sorted[|sorted| - 1] > n {
      InsertKeepsOrder(sorted[..|sorted| - 1], n);
    }
  }

  lemma {:induction false} LengthsAreSorted(lines: seq<string>)
    ensures IsAscending(SortedLengths(lines)) && multiset(SortedLengths(lines)) == multiset(Lengths(lines))
  {
    if lines != [] {
      var front := lines[..|lines| - 1];
      LengthsAreSorted(front);
      hide InsertSorted, IsAscending;
      InsertKeepsOrder(SortedLengths(front), |lines[|lines| - 1]|);
      InsertKeepsLengths(SortedLengths(front), |lines[|lines| - 1]|);
      assert Lengths(lines) == Lengths(front) + [|lines[|lines| - 1]|];
    }
  }

  /** The threshold: 55% of the upper median length, and 20 at least. */
  lemma ThresholdByMedian(lines: seq<string>)
    requires lines != []
    ensures exists sorted: seq<nat> ::
      && |sorted| == |lines| && IsAscending(sorted) && multiset(sorted) == multiset(Lengths(lines))
      && var part := sorted[|lines| / 2] * 55 / 100;
         ShortThreshold(lines) == if part >= 20 then part else 20
  {
    LengthsAreSorted(lines);
    hide SortedLengths, Lengths, IsAscending;
    assert |SortedLengths(lines)| == |lines|;
  }

  /** A line ends with a full stop, an exclamation or a question mark, or with a full stop and one closer. */
  lemma TerminalInCharacters(line: string)
    ensures EndsTerminal(line) <==>
      (|line| >= 1 && line[|line| - 1] in ".!?")
      || (|line| >= 2 && line[|line| - 2] == '.' && line[|line| - 1] in {'\U{201D}', '\"', ')'})
  {
    hide EndsWith;
    assert forall c: char :: c in ".!?" <==> c == '.' || c == '!' || c == '?' by { ThreeMarks(); }
    EndsWithOne(line, '.');
    EndsWithOne(line, '!');
    EndsWithOne(line, '?');
    EndsWithTwo(line, '\U{201D}');
    EndsWithTwo(line, '\"');
    EndsWithTwo(line, ')');
  }

  lemma ThreeMarks()
    ensures forall c: char :: c in ".!?" <==> c == '.' || c == '!' || c == '?'
  {
    assert ".!?" == ['.', '!', '?'];
  }

  lemma EndsWithOne(line: string, c: char)
    ensures EndsWith(line, [c]) <==> |line| >= 1 && line[|line| - 1] == c
  {
    if |line| >= 1 {
      assert line[|line| - 1..] == [line[|line| - 1]];
    }
  }

  lemma EndsWithTwo(line: string, c: char)
    ensures EndsWith(line, ['.', c]) <==> |line| >= 2 && line[|line| - 2] == '.' && line[|line| - 1] == c
  {
    if |line| >= 2 {
      assert line[|line| - 2..] == [line[|line| - 2], line[|line| - 1]];
    }
  }

  // ---- Specification ----------------------------------------------------------------------------

  /** `lines` grouped into paragraphs, with a break after each short terminal line but the last, and nowhere else. */
  ghost predicate AreParagraphs(lines: seq<string>, threshold: int, groups: seq<seq<string>>)
  {
    && Flatten(groups) == lines
    && (forall g :: 0 <= g < |groups| ==> groups[g] != [])
    && (forall g :: 0 <= g < |groups| - 1 ==> IsShortTail(groups[g][|groups[g]| - 1], threshold))
    && (forall g, k :: 0 <= g < |groups| && 0 <= k < |groups[g]| - 1 ==> !IsShortTail(groups[g][k], threshold))
  }

  /** The lines joined with single spaces. */
  function Joined(lines: seq<string>): string
  {
    if lines == [] then []
    else if |lines| == 1 then lines[0]
    else Joined(lines[..|lines| - 1]) + " " + lines[|lines| - 1]
  }

  ghost predicate Spells(paragraphs: seq<string>, groups: seq<seq<string>>)
  {
    |paragraphs| == |groups| && forall g :: 0 <= g < |groups| ==> paragraphs[g] == Joined(groups[g])
  }

  lemma {:induction false} JoinedAppend(a: seq<string>, b: seq<string>)
    requires a != [] && b != []
    ensures Joined(a + b) == Joined(a) + " " + Joined(b)
  {
    if |b| == 1 {
      assert (a + b)[..|a + b| - 1] == a;
    } else {
      var front, last := b[..|b| - 1], b[|b| - 1];
      JoinedAppend(a, front);
      assert (a + b)[..|a + b| - 1] == a + front;
      assert Joined(a) + " " + (Joined(front) + " " + last) == (Joined(a) + " " + Joined(front)) + " " + last;
    }
  }

  lemma {:induction false} JoinedIsTrimmed(lines: seq<string>)
    requires lines != [] && forall k :: 0 <= k < |lines| ==> lines[k] != [] && Trimmed(lines[k])
    ensures Joined(lines) != [] && Trimmed(Joined(lines)) && Strip(Joined(lines)) == Joined(lines)
  {
    var j := Joined(lines);
    if |lines| > 1 {
      JoinedIsTrimmed(lines[..|lines| - 1]);
      assert j[0] == Joined(lines[..|lines| - 1])[0];
      assert j[|j| - 1] == lines[|lines| - 1][|lines[|lines| - 1]| - 1];
    }
    assert LeadingSpaces(j) == 0 && j[0..] == j;
  }

  /** Joining the paragraphs gives the joined lines back. */
  lemma {:induction false} ParagraphsSpellTheLines(paragraphs: seq<string>, groups: seq<seq<string>>)
    requires Spells(paragraphs, groups) && forall g :: 0 <= g < |groups| ==> groups[g] != []
    ensures Joined(paragraphs) == Joined(Flatten(groups))
    ensures groups != [] ==> Flatten(groups) != []
  {
    if |groups| == 1 {
      assert groups == [] + [groups[0]];
      FlattenOne([], groups[0]);
      assert Flatten<string>([]) + groups[0] == groups[0];
    } else if |groups| > 1 {
      ParagraphsSpellTheLines(paragraphs[..|groups| - 1], groups[..|groups| - 1]);
      JoinedAppend(Flatten(groups[..|groups| - 1]), groups[|groups| - 1]);
    }
  }

  lemma {:induction false} JoinedKeepsText(lines: seq<string>)
    ensures Squeeze(Joined(lines)) == Squeeze(Concat(lines))
  {
    if |lines| == 1 {
      assert lines == [] + [lines[0]];
      ConcatOne([], lines[0]);
      assert Concat([]) + lines[0] == lines[0];
    } else if |lines| > 1 {
      var front, last := lines[..|lines| - 1], lines[|lines| - 1];
      JoinedKeepsText(front);
      SqueezeConcat(Joined(front) + " ", last);
      SqueezeConcat(Joined(front), " ");
      SqueezeBlank(" ");
      SqueezeConcat(Concat(front), last);
    }
  }

  // ---- The split --------------------------------------------------------------------------------

  /** After `n` lines: the closed paragraphs and the lines of the open one. */
  ghost predicate Splitting(lines: seq<string>, threshold: int, n: nat, groups: seq<seq<string>>, open: seq<string>)
  {
    && n <= |lines| && Flatten(groups) + open == lines[..n]
    && (forall g :: 0 <= g < |groups| ==> groups[g] != [])
    && (forall g :: 0 <= g < |groups| ==> IsShortTail(groups[g][|groups[g]| - 1], threshold))
    && (forall g, k :: 0 <= g < |groups| && 0 <= k < |groups[g]| - 1 ==> !IsShortTail(groups[g][k], threshold))
    && (forall k :: 0 <= k < |open| - 1 ==> !IsShortTail(open[k], threshold))
    && (open != [] && n < |lines| ==> !IsShortTail(open[|open| - 1], threshold))
    && (open == [] ==> n < |lines|)
  }

  lemma TakeLine(lines: seq<string>, threshold: int, n: nat, groups: seq<seq<string>>, open: seq<string>)
    requires Splitting(lines, threshold, n, groups, open) && n < |lines|
    ensures var open' := open + [lines[n]];
      if n + 1 < |lines| && IsShortTail(lines[n], threshold)
      then Splitting(lines, threshold, n + 1, groups + [open'], [])
      else Splitting(lines, threshold, n + 1, groups, open')
  {
    hide IsShortTail;
    assert lines[..n + 1] == lines[..n] + [lines[n]];
    FlattenOne(groups, open + [lines[n]]);
  }

  /** What the split promises: the right breaks, every line in place, and all the text of the source. */
  ghost predicate IsSplit(source: string, paragraphs: seq<string>, groups: seq<seq<string>>)
  {
    && Spells(paragraphs, groups)
    && (RealLines(source) != [] ==> AreParagraphs(RealLines(source), ShortThreshold(RealLines(source)), groups))
    && Joined(paragraphs) == Joined(RealLines(source))
    && Squeeze(Concat(paragraphs)) == Squeeze(source)
  }

  lemma NoLine(source: string)
    requires RealLines(source) == []
    ensures Strip(source) == [] && IsSplit(source, [], [])
  {
    RealLinesKeepText(source);
  }

  lemma OneLine(source: string)
    requires |RealLines(source)| == 1
    ensures Strip(source) != [] && IsSplit(source, [Strip(source)], [RealLines(source)])
  {
    hide Strip, RealLines, Squeeze, ShortThreshold, IsShortTail;
    var lines := RealLines(source);
    RealLinesKeepText(source);
    LinesAreTrimmed(source);
    assert lines == [lines[0]] && [lines] == [] + [lines];
    FlattenOne([], lines);
    assert Flatten<string>([]) + lines == lines;
  }

  lemma ManyLines(source: string, paragraphs: seq<string>, groups: seq<seq<string>>)
    requires |RealLines(source)| > 1 && Spells(paragraphs, groups)
    requires AreParagraphs(RealLines(source), ShortThreshold(RealLines(source)), groups)
    ensures IsSplit(source, paragraphs, groups)
  {
    RealLinesKeepText(source);
    ParagraphsSpellTheLines(paragraphs, groups);
    JoinedKeepsText(paragraphs);
    JoinedKeepsText(RealLines(source));
  }

  lemma LastParagraph(lines: seq<string>, threshold: int, groups: seq<seq<string>>, open: seq<string>)
    requires Splitting(lines, threshold, |lines|, groups, open)
    ensures AreParagraphs(lines, threshold, groups + [open])
  {
    assert lines[..|lines|] == lines;
    FlattenOne(groups, open);
  }

  lemma ParagraphIsTrimmed(lines: seq<string>, groups: seq<seq<string>>, g: nat)
    requires g < |groups| && Flatten(groups) == lines && groups[g] != []
    requires forall k :: 0 <= k < |lines| ==> lines[k] != [] && Trimmed(lines[k])
    ensures Strip(Joined(groups[g])) == Joined(groups[g])
  {
    GroupLinesAreLines(groups, g);
    forall k | 0 <= k < |groups[g]| ensures groups[g][k] != [] && Trimmed(groups[g][k]) {
      assert groups[g][k] in lines;
    }
    JoinedIsTrimmed(groups[g]);
  }

  method SplitIntoVisualParagraphs(source: string) returns (paragraphs: seq<string>, ghost groups: seq<seq<string>>)
    ensures IsSplit(source, paragraphs, groups)
    ensures Joined(paragraphs) == Joined(RealLines(source)) && Squeeze(Concat(paragraphs)) == Squeeze(source)
  {
    hide Strip, RealLines, ShortThreshold, IsSplit, Joined, Flatten, Trimmed;
    var lines := RealLines(source);
    if |lines| <= 1 {
      if lines == [] { NoLine(source); } else { OneLine(source); }
      paragraphs := if Strip(source) != [] then [Strip(source)] else [];
      groups := if lines == [] then [] else [lines];
      SplitKeepsText(source, paragraphs, groups);
      return;
    }
    LinesAreTrimmed(source);
    var threshold := ShortThreshold(lines);
    var chunks: seq<seq<string>> := [];
    var open: seq<string> := [];
    assert Splitting(lines, threshold, 0, chunks, open) by { NothingSplit(lines, threshold); }
    for n := 0 to |lines|
      invariant Splitting(lines, threshold, n, chunks, open)
    {
      TakeLine(lines, threshold, n, chunks, open);
      open := open + [lines[n]];
      if n == |lines| - 1 {
        continue;
      }
      if EndsTerminal(lines[n]) && |lines[n]| <= threshold {
        chunks := chunks + [open];
        open := [];
      }
    }
    LastParagraph(lines, threshold, chunks, open);
    chunks := chunks + [open];
    groups := chunks;
    paragraphs := [];
    for g := 0 to |chunks|
      invariant |paragraphs| == g && forall m :: 0 <= m < g ==> paragraphs[m] == Joined(groups[m])
    {
      ParagraphIsTrimmed(lines, groups, g);
      paragraphs := paragraphs + [Strip(Joined(chunks[g]))];
    }
    ManyLines(source, paragraphs, groups);
    SplitKeepsText(source, paragraphs, groups);
  }

  lemma SplitKeepsText(source: string, paragraphs: seq<string>, groups: seq<seq<string>>)
    requires IsSplit(source, paragraphs, groups)
    ensures Joined(paragraphs) == Joined(RealLines(source)) && Squeeze(Concat(paragraphs)) == Squeeze(source)
  {}

  lemma LinesAreTrimmed(source: string)
    ensures forall k :: 0 <= k < |RealLines(source)| ==> RealLines(source)[k] != [] && Trimmed(RealLines(source)[k])
  {}

  lemma NothingSplit(lines: seq<string>, threshold: int)
    requires lines != []
    ensures Splitting(lines, threshold, 0, [], [])
  {}

  lemma {:induction false} GroupLinesAreLines<T>(groups: seq<seq<T>>, g: nat)
    requires g < |groups|
    ensures forall x :: x in groups[g] ==> x in Flatten(groups)
  {
    if g < |groups| - 1 {
      GroupLinesAreLines(groups[..|groups| - 1], g);
    }
  }
}
