/** The string operations the scripts share: Python's notion of whitespace, and stripping. */
module Text {

  /** The characters `str.strip` removes and `\s` matches. */
  predicate IsSpace(c: char)
  {
    var n := c as int;
    || 9 <= n <= 13 || 28 <= n <= 32 || n == 0x85 || n == 0xa0 || n == 0x1680
    || 0x2000 <= n <= 0x200a || n == 0x2028 || n == 0x2029 || n == 0x202f || n == 0x205f || n == 0x3000
  }

  predicate Blank(s: string)
  {
    forall k :: 0 <= k < |s| ==> IsSpace(s[k])
  }

  /** No leading or trailing whitespace. */
  predicate Trimmed(s: string)
  {
    s == [] || (!IsSpace(s[0]) && !IsSpace(s[|s| - 1]))
  }

  function LeadingSpaces(s: string): (n: nat)
    ensures n <= |s| && Blank(s[..n])
    ensures n < |s| ==> !IsSpace(s[n])
  {
    if s == [] || !IsSpace(s[0]) then 0
    else
      var n := LeadingSpaces(s[1..]);
      assert s[..n + 1] == [s[0]] + s[1..][..n];
      n + 1
  }

  function LStrip(s: string): (r: string)
    ensures r == [] || !IsSpace(r[0])
    ensures r == [] <==> Blank(s)
  {
    assert s[..|s|] == s;
    s[LeadingSpaces(s)..]
  }

  function RStrip(s: string): (r: string)
    ensures r == [] || !IsSpace(r[|r| - 1])
    ensures r <= s && Blank(s[|r|..])
    ensures r == [] <==> Blank(s)
  {
    if s == [] then s
    else if IsSpace(s[|s| - 1]) then
      var r := RStrip(s[..|s| - 1]);
      assert forall m :: |r| <= m < |s| - 1 ==> s[m] == s[..|s| - 1][|r|..][m - |r|];
      assert Blank(s) <==> Blank(s[..|s| - 1]);
      r
    else s
  }

  function Strip(s: string): (r: string)
    ensures Trimmed(r)
    ensures r == [] <==> Blank(s)
  {
    RStrip(LStrip(s))
  }

  /** The text without its whitespace: what "equal up to whitespace" compares. */
  function Squeeze(s: string): string
  {
    if s == [] then []
    else if IsSpace(s[0]) then Squeeze(s[1..])
    else [s[0]] + Squeeze(s[1..])
  }

  lemma {:induction false} SqueezeConcat(a: string, b: string)
    ensures Squeeze(a + b) == Squeeze(a) + Squeeze(b)
  {
    if a == [] {
      assert a + b == b;
    } else {
      assert (a + b)[1..] == a[1..] + b;
      SqueezeConcat(a[1..], b);
    }
  }

  lemma {:induction false} SqueezeBlank(s: string)
    ensures Squeeze(s) == [] <==> Blank(s)
  {
    if s != [] {
      SqueezeBlank(s[1..]);
      if Blank(s[1..]) && IsSpace(s[0]) {
        forall m | 0 <= m < |s| ensures IsSpace(s[m]) {
          if m > 0 { assert s[m] == s[1..][m - 1]; }
        }
      }
    }
  }

  lemma SqueezeRStrip(s: string)
    ensures Squeeze(RStrip(s)) == Squeeze(s)
  {
    var r := RStrip(s);
    assert s == r + s[|r|..];
    SqueezeConcat(r, s[|r|..]);
    SqueezeBlank(s[|r|..]);
  }

  lemma SqueezeStrip(s: string)
    ensures Squeeze(Strip(s)) == Squeeze(s)
  {
    hide Squeeze, RStrip, LeadingSpaces;
    var k := LeadingSpaces(s);
    assert s == s[..k] + s[k..];
    SqueezeConcat(s[..k], s[k..]);
    SqueezeBlank(s[..k]);
    SqueezeRStrip(s[k..]);
  }
}

/** Cutting a text into pieces and putting pieces together again. */
module Pieces {
  import opened Text

  function Concat(parts: seq<string>): string
  {
    if parts == [] then [] else Concat(parts[..|parts| - 1]) + parts[|parts| - 1]
  }

  lemma NothingToConcat()
    ensures Concat([]) == []
  {}

  lemma ConcatOne(parts: seq<string>, last: string)
    ensures Concat(parts + [last]) == Concat(parts) + last
  {
    assert (parts + [last])[..|parts|] == parts;
  }

  lemma {:induction false} ConcatAppend(a: seq<string>, b: seq<string>)
    ensures Concat(a + b) == Concat(a) + Concat(b)
  {
    if b == [] {
      assert a + b == a;
    } else {
      var front, last := b[..|b| - 1], b[|b| - 1];
      assert a + b == (a + front) + [last];
      ConcatOne(a + front, last);
      ConcatAppend(a, front);
    }
  }

  /** `text` cut before every position that `at` selects; a selected first position is no cut. */
  function Cut(text: string, at: nat -> bool, n: nat): seq<string>
    requires n <= |text|
  {
    if n == 0 then []
    else
      var front := Cut(text, at, n - 1);
      if front == [] || at(n - 1) then front + [[text[n - 1]]]
      else front[..|front| - 1] + [front[|front| - 1] + [text[n - 1]]]
  }

  lemma GrowLast(pieces: seq<string>, c: string)
    requires pieces != []
    ensures Concat(pieces[..|pieces| - 1] + [pieces[|pieces| - 1] + c]) == Concat(pieces) + c
  {
    hide Concat;
    var front, last := pieces[..|pieces| - 1], pieces[|pieces| - 1];
    SplitLast(pieces);
    ConcatOne(front, last);
    ConcatOne(front, last + c);
    Associate(Concat(front), last, c);
  }

  lemma SplitLast(pieces: seq<string>)
    requires pieces != []
    ensures pieces[..|pieces| - 1] + [pieces[|pieces| - 1]] == pieces
  {}

  lemma Associate(a: string, b: string, c: string)
    ensures a + (b + c) == (a + b) + c
  {}

  lemma {:induction false} CutKeepsText(text: string, at: nat -> bool, n: nat)
    requires n <= |text|
    ensures Concat(Cut(text, at, n)) == text[..n]
  {
    hide Concat;
    NothingToConcat();
    if n > 0 {
      CutKeepsText(text, at, n - 1);
      var front := Cut(text, at, n - 1);
      var c := [text[n - 1]];
      assert text[..n] == text[..n - 1] + c;
      if front == [] || at(n - 1) {
        ConcatOne(front, c);
      } else {
        GrowLast(front, c);
      }
    }
  }

  /** The stripped pieces, blank ones dropped. */
  function Parts(pieces: seq<string>): (parts: seq<string>)
    ensures forall k :: 0 <= k < |parts| ==> parts[k] != [] && Trimmed(parts[k])
  {
    if pieces == [] then []
    else
      var front, last := Parts(pieces[..|pieces| - 1]), pieces[|pieces| - 1];
      if Blank(last) then front else front + [Strip(last)]
  }

  /** Stripping and dropping blanks loses no visible text. */
  lemma {:induction false} PartsKeepText(pieces: seq<string>)
    ensures Squeeze(Concat(Parts(pieces))) == Squeeze(Concat(pieces))
  {
    if pieces != [] {
      var front, last := pieces[..|pieces| - 1], pieces[|pieces| - 1];
      PartsKeepText(front);
      SqueezeConcat(Concat(front), last);
      SqueezeBlank(last);
      if !Blank(last) {
        ConcatOne(Parts(front), Strip(last));
        SqueezeConcat(Concat(Parts(front)), Strip(last));
        SqueezeStrip(last);
      }
    }
  }

  lemma BlankConcat(a: string, b: string)
    ensures Blank(a + b) <==> Blank(a) && Blank(b)
  {
    if Blank(a + b) {
      forall k | 0 <= k < |a| ensures IsSpace(a[k]) { assert (a + b)[k] == a[k]; }
      forall k | 0 <= k < |b| ensures IsSpace(b[k]) { assert (a + b)[|a| + k] == b[k]; }
    }
  }

  /** Whitespace around a text does not show in its stripped form. */
  lemma {:induction false} StripLeading(a: string, x: string)
    requires Blank(a)
    ensures LStrip(a + x) == LStrip(x)
    decreases |a|
  {
    if a == [] {
      assert a + x == x;
    } else {
      assert (a + x)[1..] == a[1..] + x;
      StripLeading(a[1..], x);
      var n := LeadingSpaces(a[1..] + x);
      assert (a + x)[n + 1..] == (a[1..] + x)[n..];
    }
  }

  lemma {:induction false} StripTrailing(x: string, b: string)
    requires Blank(b)
    ensures RStrip(x + b) == RStrip(x)
    decreases |b|
  {
    if b == [] {
      assert x + b == x;
    } else {
      assert (x + b)[..|x + b| - 1] == x + b[..|b| - 1];
      StripTrailing(x, b[..|b| - 1]);
    }
  }

  lemma StripBlankFront(a: string, x: string)
    requires Blank(a)
    ensures Strip(a + x) == Strip(x)
  {
    StripLeading(a, x);
  }

  lemma StripBlankBack(x: string, b: string)
    requires Blank(b) && !Blank(x)
    ensures Strip(x + b) == Strip(x)
  {
    var n := LeadingSpaces(x);
    LeadingSpacesOfPrefix(x, b);
    assert (x + b)[n..] == x[n..] + b;
    StripTrailing(x[n..], b);
  }

  lemma {:induction false} LeadingSpacesOfPrefix(x: string, b: string)
    requires !Blank(x)
    ensures LeadingSpaces(x + b) == LeadingSpaces(x)
  {
    if IsSpace(x[0]) {
      assert (x + b)[1..] == x[1..] + b;
      assert !Blank(x[1..]) by {
        assert x == [x[0]] + x[1..];
        BlankConcat([x[0]], x[1..]);
      }
      LeadingSpacesOfPrefix(x[1..], b);
    }
  }

  lemma {:induction false} NoPartsIsBlank(pieces: seq<string>)
    ensures Parts(pieces) == [] <==> Blank(Concat(pieces))
  {
    if pieces != [] {
      NoPartsIsBlank(pieces[..|pieces| - 1]);
      BlankConcat(Concat(pieces[..|pieces| - 1]), pieces[|pieces| - 1]);
    }
  }

  /** A text with a single non-blank piece is that piece, once stripped. */
  lemma {:induction false} OnlyPart(pieces: seq<string>)
    requires |Parts(pieces)| == 1
    ensures Strip(Concat(pieces)) == Parts(pieces)[0]
  {
    hide Strip, Blank, Trimmed;
    var front, last := pieces[..|pieces| - 1], pieces[|pieces| - 1];
    NoPartsIsBlank(front);
    if Blank(last) {
      OnlyPart(front);
      StripBlankBack(Concat(front), last);
    } else {
      StripBlankFront(Concat(front), last);
    }
  }

  lemma TrimmedConcat(a: string, b: string)
    requires a != [] && b != [] && Trimmed(a) && Trimmed(b)
    ensures Trimmed(a + b) && Strip(a + b) == a + b
  {
    var t := a + b;
    assert t[0] == a[0] && t[|t| - 1] == b[|b| - 1];
    assert LeadingSpaces(t) == 0 && t[0..] == t;
  }

  // ---- Cutting takes a concatenation apart ------------------------------------------------------

  /** Where part `k` begins in the concatenation. */
  function StartOf(parts: seq<string>, k: nat): nat
    requires k <= |parts|
  {
    |Concat(parts[..k])|
  }

  lemma StartOfNext(parts: seq<string>, k: nat)
    requires k < |parts|
    ensures Concat(parts[..k + 1]) == Concat(parts[..k]) + parts[k]
    ensures StartOf(parts, k + 1) == StartOf(parts, k) + |parts[k]|
  {
    assert parts[..k + 1][..k] == parts[..k];
  }

  lemma {:induction false} StartsInside(parts: seq<string>, k: nat)
    requires k <= |parts|
    ensures Concat(parts[..k]) <= Concat(parts)
    decreases |parts| - k
  {
    assert parts[..|parts|] == parts;
    if k < |parts| {
      StartsInside(parts, k + 1);
      StartOfNext(parts, k);
    }
  }

  /** The characters of part `k` in their place. */
  lemma CharOfPart(parts: seq<string>, k: nat, j: nat)
    requires k < |parts| && j < |parts[k]|
    ensures StartOf(parts, k) + j < |Concat(parts)| && Concat(parts)[StartOf(parts, k) + j] == parts[k][j]
  {
    StartsInside(parts, k + 1);
    StartOfNext(parts, k);
    assert Concat(parts)[StartOf(parts, k) + j] == Concat(parts[..k + 1])[StartOf(parts, k) + j];
  }

  lemma CutHere(text: string, at: nat -> bool, n: nat)
    requires n < |text| && (n == 0 || at(n))
    ensures Cut(text, at, n + 1) == Cut(text, at, n) + [[text[n]]]
  {}

  lemma NoCutHere(text: string, at: nat -> bool, n: nat, front: seq<string>, last: string)
    requires n < |text| && !at(n) && Cut(text, at, n) == front + [last]
    ensures Cut(text, at, n + 1) == front + [last + [text[n]]]
  {
    assert (front + [last])[..|front|] == front;
  }

  /** A stretch that begins at a cut and holds no other is one piece. */
  lemma {:induction false} CutStretch(text: string, at: nat -> bool, e: nat, m: nat)
    requires 0 < m && e + m <= |text| && (e == 0 || at(e)) && forall j :: e < j < e + m ==> !at(j)
    ensures Cut(text, at, e + m) == Cut(text, at, e) + [text[e..e + m]]
  {
    hide Cut;
    if m == 1 {
      CutHere(text, at, e);
      assert text[e..e + 1] == [text[e]];
    } else {
      CutStretch(text, at, e, m - 1);
      NoCutHere(text, at, e + m - 1, Cut(text, at, e), text[e..e + m - 1]);
      assert text[e..e + m] == text[e..e + m - 1] + [text[e + m - 1]];
    }
  }

  /** Cutting a concatenation exactly where its parts begin gives the parts back. */
  lemma {:induction false} CutGivesParts(parts: seq<string>, at: nat -> bool, n: nat)
    requires n <= |parts| && forall k :: 0 <= k < |parts| ==> parts[k] != []
    requires forall k :: 0 < k < |parts| ==> at(StartOf(parts, k))
    requires forall k: nat, p: nat ::
      k < |parts| && StartOf(parts, k) < p < StartOf(parts, k) + |parts[k]| ==> !at(p)
    ensures StartOf(parts, n) <= |Concat(parts)| && Cut(Concat(parts), at, StartOf(parts, n)) == parts[..n]
  {
    hide StartOf, Concat, Cut;
    FirstStart(parts);
    NothingCut(Concat(parts), at);
    StartIsInside(parts, n);
    if n > 0 {
      CutGivesParts(parts, at, n - 1);
      StartOfNext(parts, n - 1);
      PartInPlace(parts, n - 1);
      CutStretch(Concat(parts), at, StartOf(parts, n - 1), |parts[n - 1]|);
      assert parts[..n] == parts[..n - 1] + [parts[n - 1]];
    }
  }

  lemma NothingCut(text: string, at: nat -> bool)
    ensures Cut(text, at, 0) == []
  {}

  lemma StartIsInside(parts: seq<string>, n: nat)
    requires n <= |parts|
    ensures StartOf(parts, n) <= |Concat(parts)|
  {
    StartsInside(parts, n);
  }

  lemma FirstStart(parts: seq<string>)
    ensures StartOf(parts, 0) == 0
  {}

  lemma PartInPlace(parts: seq<string>, k: nat)
    requires k < |parts|
    ensures StartOf(parts, k) + |parts[k]| <= |Concat(parts)|
    ensures Concat(parts)[StartOf(parts, k)..StartOf(parts, k) + |parts[k]|] == parts[k]
  {
    StartsInside(parts, k + 1);
    StartOfNext(parts, k);
  }

  lemma StripTrimmed(s: string)
    requires Trimmed(s)
    ensures Strip(s) == s
  {}

  /** Pieces that are not blank are stripped one by one. */
  lemma {:induction false} PartsOneByOne(pieces: seq<string>)
    requires forall k :: 0 <= k < |pieces| - 1 ==> !Blank(pieces[k])
    ensures |pieces| - 1 <= |Parts(pieces)| <= |pieces|
    ensures forall k :: 0 <= k < |Parts(pieces)| ==> Parts(pieces)[k] == Strip(pieces[k])
    ensures pieces != [] && !Blank(pieces[|pieces| - 1]) ==> |Parts(pieces)| == |pieces|
  {
    if pieces != [] {
      PartsOneByOne(pieces[..|pieces| - 1]);
    }
  }

  /** A concatenation of trimmed texts is trimmed. */
  lemma ConcatIsTrimmed(parts: seq<string>)
    requires parts != [] && forall k :: 0 <= k < |parts| ==> parts[k] != [] && Trimmed(parts[k])
    ensures Concat(parts) != [] && Trimmed(Concat(parts)) && Strip(Concat(parts)) == Concat(parts)
  {
    var n := |parts| - 1;
    CharOfPart(parts, 0, 0);
    CharOfPart(parts, n, |parts[n]| - 1);
    StartOfNext(parts, n);
    assert parts[..n + 1] == parts && StartOf(parts, 0) == 0;
    StripTrimmed(Concat(parts));
  }

  /** Every piece but the last ends where the text was cut. */
  lemma {:induction false} CutEnds(text: string, at: nat -> bool, n: nat, k: nat)
    requires n <= |text| && k < |Cut(text, at, n)|
    ensures var pieces := Cut(text, at, n); var p := StartOf(pieces, k + 1);
      && pieces[k] != [] && |pieces[k]| <= p <= n && text[p - |pieces[k]|..p] == pieces[k]
      && (k < |pieces| - 1 ==> p < n && at(p)) && (k > 0 ==> at(p - |pieces[k]|)) && (k == 0 ==> p == |pieces[k]|)
  {
    hide Concat, Cut;
    var pieces := Cut(text, at, n);
    CutKeepsText(text, at, n);
    StartsInside(pieces, k + 1);
    StartOfNext(pieces, k);
    CutsAreStarts(text, at, n);
    PartInPlace(pieces, k);
    FirstStart(pieces);
    if k < |pieces| - 1 {
      StartOfNext(pieces, k + 1);
      StartIsInside(pieces, k + 2);
    }
    InPrefix(text, n, StartOf(pieces, k), StartOf(pieces, k + 1));
  }

  lemma InPrefix(text: string, n: nat, i: nat, j: nat)
    requires i <= j <= n <= |text|
    ensures text[..n][i..j] == text[i..j]
  {}

  lemma {:induction false} CutsAreStarts(text: string, at: nat -> bool, n: nat)
    requires n <= |text|
    ensures forall k :: 0 <= k < |Cut(text, at, n)| ==> Cut(text, at, n)[k] != []
    ensures forall k :: 0 < k < |Cut(text, at, n)| ==> at(StartOf(Cut(text, at, n), k))
  {
    if n > 0 {
      CutsAreStarts(text, at, n - 1);
      var front, pieces := Cut(text, at, n - 1), Cut(text, at, n);
      CutKeepsText(text, at, n - 1);
      assert |text[..n - 1]| == n - 1;
      forall k | 0 < k < |pieces| ensures at(StartOf(pieces, k)) {
        assert pieces[..k] == if k < |front| then front[..k] else front;
        hide Concat, Cut;
        assert k < |front| ==> at(StartOf(front, k));
      }
    }
  }
}

/** Sequences cut into groups. */
module Groups {

  /** The groups one after the other. */
  function Flatten<T>(groups: seq<seq<T>>): seq<T>
  {
    if groups == [] then [] else Flatten(groups[..|groups| - 1]) + groups[|groups| - 1]
  }

  lemma FlattenOne<T>(groups: seq<seq<T>>, last: seq<T>)
    ensures Flatten(groups + [last]) == Flatten(groups) + last
  {
    assert (groups + [last])[..|groups|] == groups;
  }
}
