/**
 * scripts/render_bilingual_subset.py: aligning sentences with visual paragraphs, and handing a translation
 * that came back in one piece out to the sentences it translates.
 */
module Redistribution {
  import opened Groups
  import opened Text
  import opened Pieces

  /** A sentence of the source block, by its ordinal in the block. */
  datatype Sentence = Sentence(ordinal: int, source: string)

  /** A translated segment. Only its text is redistributed; `rest` stands for the other columns. */
  datatype Target = Target(rest: int, text: string)

  // ---- Text normalisation -----------------------------------------------------------------------

  function ReplaceCrLf(s: string): string
  {
    if |s| < 2 then s
    else if s[0] == '\r' && s[1] == '\n' then "\n" + ReplaceCrLf(s[2..])
    else [s[0]] + ReplaceCrLf(s[1..])
  }

  function CleanText(s: string): string
  {
    Strip(ReplaceCrLf(s))
  }

  /** Each run of whitespace becomes one space. */
  function Collapse(s: string): string
  {
    if s == [] then []
    else if IsSpace(s[0]) then
      var n := LeadingSpaces(s);
      " " + Collapse(s[n..])
    else [s[0]] + Collapse(s[1..])
  }

  lemma SqueezeCons(c: char, s: string)
    ensures Squeeze([c] + s) == (if IsSpace(c) then [] else [c]) + Squeeze(s)
  {
    assert ([c] + s)[1..] == s;
  }

  lemma {:induction false} ReplaceCrLfKeepsText(s: string)
    ensures Squeeze(ReplaceCrLf(s)) == Squeeze(s)
    decreases |s|
  {
    if |s| >= 2 {
      assert s == [s[0]] + s[1..] && s[1..] == [s[1]] + s[2..];
      SqueezeCons(s[0], s[1..]);
      if s[0] == '\r' && s[1] == '\n' {
        SqueezeCons(s[1], s[2..]);
        ReplaceCrLfKeepsText(s[2..]);
        SqueezeCons('\n', ReplaceCrLf(s[2..]));
      } else {
        ReplaceCrLfKeepsText(s[1..]);
        SqueezeCons(s[0], ReplaceCrLf(s[1..]));
      }
    }
  }

  lemma {:induction false} CollapseKeepsText(s: string)
    ensures Squeeze(Collapse(s)) == Squeeze(s)
    decreases |s|
  {
    if s != [] {
      if IsSpace(s[0]) {
        var n := LeadingSpaces(s);
        CollapseKeepsText(s[n..]);
        SqueezeCons(' ', Collapse(s[n..]));
        assert s == s[..n] + s[n..];
        SqueezeConcat(s[..n], s[n..]);
        SqueezeBlank(s[..n]);
      } else {
        CollapseKeepsText(s[1..]);
        SqueezeCons(s[0], Collapse(s[1..]));
        assert s == [s[0]] + s[1..];
        SqueezeCons(s[0], s[1..]);
      }
    }
  }

  lemma CleanTextKeepsText(s: string)
    ensures Squeeze(CleanText(s)) == Squeeze(s)
    ensures CleanText(s) == [] <==> Blank(s)
  {
    ReplaceCrLfKeepsText(s);
    SqueezeStrip(ReplaceCrLf(s));
    SqueezeBlank(s);
    SqueezeBlank(ReplaceCrLf(s));
  }

  // ---- Sentences into visual paragraphs ---------------------------------------------------------

  /** The sentences with text, cleaned, in order. */
  function Kept(sentences: seq<Sentence>): seq<Sentence>
  {
    if sentences == [] then []
    else
      var front, last := Kept(sentences[..|sentences| - 1]), sentences[|sentences| - 1];
      if CleanText(last.source) == [] then front
      else front + [Sentence(last.ordinal, CleanText(last.source))]
  }

  function Normalized(s: string): string
  {
    Strip(Collapse(s))
  }

  predicate OccursAt(text: string, part: string, k: nat)
  {
    k + |part| <= |text| && text[k..k + |part|] == part
  }

  predicate Contains(text: string, part: string)
  {
    exists k :: 0 <= k <= |text| && OccursAt(text, part, k)
  }

  function Prefix40(s: string): string
  {
    if |s| <= 40 then s else s[..40]
  }

  /** Chunk `b` holds the opening of the sentence. */
  predicate Matches(chunks: seq<string>, s: Sentence, b: nat)
    requires b < |chunks|
  {
    Normalized(s.source) != [] && Contains(Normalized(chunks[b]), Prefix40(Normalized(s.source)))
  }

  /** Sentence `s` goes from the cursor to `b`: the first matching chunk at or after it, or it stays. */
  ghost predicate GoesTo(chunks: seq<string>, s: Sentence, cursor: nat, b: nat)
  {
    && cursor <= b < |chunks|
    && (forall m :: cursor <= m < b ==> !Matches(chunks, s, m))
    && (Matches(chunks, s, b) || (b == cursor && forall m :: cursor <= m < |chunks| ==> !Matches(chunks, s, m)))
  }

  /** Where the cursor stands when sentence `k` has its turn. */
  function CursorAt(places: seq<nat>, k: nat): nat
    requires k <= |places|
  {
    if k == 0 then 0 else places[k - 1]
  }

  /** `places[k]` is the chunk of sentence `k`; the cursor starts at the first chunk and moves with the sentences. */
  ghost predicate ArePlaces(chunks: seq<string>, kept: seq<Sentence>, places: seq<nat>)
  {
    && |places| == |kept|
    && forall k :: 0 <= k < |kept| ==> GoesTo(chunks, kept[k], CursorAt(places, k), places[k])
  }

  /** The sentences placed in chunk `b`, in order. */
  ghost function InBucket(kept: seq<Sentence>, places: seq<nat>, b: nat): seq<Sentence>
    requires |kept| == |places|
  {
    if kept == [] then []
    else
      var n := |kept| - 1;
      InBucket(kept[..n], places[..n], b) + if places[n] == b then [kept[n]] else []
  }

  ghost predicate AreBuckets(chunks: seq<string>, kept: seq<Sentence>, places: seq<nat>, buckets: seq<seq<Sentence>>)
  {
    && ArePlaces(chunks, kept, places) && |buckets| == |chunks|
    && forall b :: 0 <= b < |buckets| ==> buckets[b] == InBucket(kept, places, b)
  }

  /** The cursor never moves back. */
  lemma {:induction false} PlacesGrow(chunks: seq<string>, kept: seq<Sentence>, places: seq<nat>, i: nat, j: nat)
    requires ArePlaces(chunks, kept, places) && i <= j < |places|
    ensures places[i] <= places[j] < |chunks|
    decreases j
  {
    hide GoesTo;
    assert GoesTo(chunks, kept[j], CursorAt(places, j), places[j]);
    ChunkExists(chunks, kept[j], CursorAt(places, j), places[j]);
    if i < j {
      PlacesGrow(chunks, kept, places, i, j - 1);
    }
  }

  ghost predicate IsMonotone(places: seq<nat>)
  {
    forall i, j :: 0 <= i < j < |places| ==> places[i] <= places[j]
  }

  /** Exactly the first `n` sentences are placed before chunk `b`. */
  ghost predicate IsCut(places: seq<nat>, b: nat, n: nat)
  {
    n <= |places| && (forall k :: 0 <= k < n ==> places[k] < b) && forall k :: n <= k < |places| ==> places[k] >= b
  }

  lemma {:induction false} CutExists(places: seq<nat>, b: nat)
    requires IsMonotone(places)
    ensures exists n :: IsCut(places, b, n)
  {
    if places == [] || places[|places| - 1] < b {
      assert IsCut(places, b, |places|);
    } else {
      CutExists(places[..|places| - 1], b);
      var n: nat :| IsCut(places[..|places| - 1], b, n);
      assert forall k :: 0 <= k < |places| - 1 ==> places[..|places| - 1][k] == places[k];
      assert IsCut(places, b, n);
    }
  }

  lemma CutDecides(places: seq<nat>, b: nat, n: nat, k: nat)
    requires IsCut(places, b, n) && k < |places|
    ensures places[k] < b <==> k < n
  {}

  lemma BetweenCuts(places: seq<nat>, b: nat, m: nat, n: nat)
    requires IsCut(places, b, m) && IsCut(places, b + 1, n)
    ensures m <= n <= |places| && forall k :: 0 <= k < |places| ==> (places[k] == b <==> m <= k < n)
  {
    if n < |places| {
      CutDecides(places, b + 1, n, n);
      CutDecides(places, b, m, n);
    }
  }

  ghost predicate AreFilled(kept: seq<Sentence>, places: seq<nat>, buckets: seq<seq<Sentence>>)
  {
    |kept| == |places| && forall c :: 0 <= c < |buckets| ==> buckets[c] == InBucket(kept, places, c)
  }

  /** The first `b` buckets together hold the sentences placed before chunk `b`: a prefix of all sentences. */
  lemma {:induction false} BucketsHoldPrefix(
      kept: seq<Sentence>, places: seq<nat>, buckets: seq<seq<Sentence>>, b: nat, n: nat)
    requires AreFilled(kept, places, buckets) && IsMonotone(places)
    requires b <= |buckets| && IsCut(places, b, n)
    ensures Flatten(buckets[..b]) == kept[..n]
    decreases b
  {
    if b == 0 {
      if n > 0 {
        CutDecides(places, b, n, 0);
      }
    } else {
      CutExists(places, b - 1);
      var m: nat :| IsCut(places, b - 1, m);
      BetweenCuts(places, b - 1, m, n);
      BucketIsStretch(kept, places, b - 1, m, n);
      assert buckets[b - 1] == kept[m..n];
      hide *;
      BucketsHoldPrefix(kept, places, buckets, b - 1, m);
      FlattenUpTo(buckets, b - 1);
      SplitPrefix(kept, m, n);
    }
  }

  lemma FlattenUpTo(buckets: seq<seq<Sentence>>, b: nat)
    requires b < |buckets|
    ensures Flatten(buckets[..b + 1]) == Flatten(buckets[..b]) + buckets[b]
  {
    assert buckets[..b + 1] == buckets[..b] + [buckets[b]];
    FlattenOne(buckets[..b], buckets[b]);
  }

  lemma SplitPrefix(s: seq<Sentence>, m: nat, n: nat)
    requires m <= n <= |s|
    ensures s[..m] + s[m..n] == s[..n]
  {}

  lemma {:induction false} BucketIsStretch(kept: seq<Sentence>, places: seq<nat>, b: nat, m: nat, n: nat)
    requires |kept| == |places| && m <= n <= |kept|
    requires forall k :: 0 <= k < |places| ==> (places[k] == b <==> m <= k < n)
    ensures InBucket(kept, places, b) == kept[m..n]
    decreases |kept|
  {
    if kept != [] {
      var l := |kept| - 1;
      var n' := if n > l then l else n;
      var m' := if m > l then l else m;
      BucketIsStretch(kept[..l], places[..l], b, m', n');
      SliceOfPrefix(kept, l, m', n');
      OneMorePlace(kept, places, b);
      hide *;
      SliceGrows(kept, m, n);
    }
  }

  lemma SliceOfPrefix(s: seq<Sentence>, l: nat, m: nat, n: nat)
    requires m <= n <= l <= |s|
    ensures s[..l][m..n] == s[m..n]
  {}

  lemma SliceGrows(s: seq<Sentence>, m: nat, n: nat)
    requires m <= n <= |s| && s != []
    ensures var l := |s| - 1;
      s[m..n] == s[if m > l then l else m..if n > l then l else n] + if m <= l < n then [s[l]] else []
  {}

  lemma OneMorePlace(kept: seq<Sentence>, places: seq<nat>, b: nat)
    requires |kept| == |places| > 0
    ensures var l := |kept| - 1;
      InBucket(kept, places, b) == InBucket(kept[..l], places[..l], b) + if places[l] == b then [kept[l]] else []
  {}

  /** Every sentence is in exactly one bucket, and the buckets in turn list them all in order. */
  lemma BucketsPartitionSentences(
      chunks: seq<string>, kept: seq<Sentence>, places: seq<nat>, buckets: seq<seq<Sentence>>)
    requires AreBuckets(chunks, kept, places, buckets)
    ensures Flatten(buckets) == kept
  {
    forall i, j | 0 <= i < j < |places| ensures places[i] <= places[j] { PlacesGrow(chunks, kept, places, i, j); }
    forall k | 0 <= k < |places| ensures places[k] < |chunks| { PlacesGrow(chunks, kept, places, k, k); }
    BucketsHoldPrefix(kept, places, buckets, |buckets|, |kept|);
    assert buckets[..|buckets|] == buckets && kept[..|kept|] == kept;
  }

  /** The forward search of one sentence. */
  method FindChunk(chunks: seq<string>, s: Sentence, cursor: nat) returns (b: nat)
    requires cursor < |chunks|
    ensures GoesTo(chunks, s, cursor, b)
  {
    hide Contains, Normalized, Prefix40;
    for idx := cursor to |chunks|
      invariant forall m :: cursor <= m < idx ==> !Matches(chunks, s, m)
    {
      if Normalized(s.source) != [] && Contains(Normalized(chunks[idx]), Prefix40(Normalized(s.source))) {
        return idx;
      }
    }
    return cursor;
  }

  lemma PlaceOne(
      chunks: seq<string>, kept: seq<Sentence>, places: seq<nat>, buckets: seq<seq<Sentence>>, s: Sentence, b: nat)
    requires AreBuckets(chunks, kept, places, buckets)
    requires GoesTo(chunks, s, CursorAt(places, |places|), b)
    ensures AreBuckets(chunks, kept + [s], places + [b], buckets[b := buckets[b] + [s]])
  {
    hide GoesTo, InBucket, ArePlaces;
    ChunkExists(chunks, s, CursorAt(places, |places|), b);
    OnePlaceMore(chunks, kept, places, s, b);
    forall c: nat
      ensures InBucket(kept + [s], places + [b], c) == InBucket(kept, places, c) + if b == c then [s] else []
    {
      OneInBucket(kept, places, s, b, c);
    }
  }

  lemma OnePlaceMore(chunks: seq<string>, kept: seq<Sentence>, places: seq<nat>, s: Sentence, b: nat)
    requires ArePlaces(chunks, kept, places) && GoesTo(chunks, s, CursorAt(places, |places|), b)
    ensures ArePlaces(chunks, kept + [s], places + [b]) && |kept| == |places|
  {
    hide GoesTo;
    var kept', places' := kept + [s], places + [b];
    forall k | 0 <= k < |kept'| ensures GoesTo(chunks, kept'[k], CursorAt(places', k), places'[k]) {
      if k < |kept| {
        assert GoesTo(chunks, kept[k], CursorAt(places, k), places[k]);
      }
    }
  }

  lemma OneInBucket(kept: seq<Sentence>, places: seq<nat>, s: Sentence, b: nat, c: nat)
    requires |kept| == |places|
    ensures InBucket(kept + [s], places + [b], c) == InBucket(kept, places, c) + if b == c then [s] else []
  {
    assert (kept + [s])[..|kept|] == kept && (places + [b])[..|kept|] == places;
  }

  method AssignBuckets(chunks: seq<string>, sentences: seq<Sentence>)
    returns (buckets: seq<seq<Sentence>>, ghost places: seq<nat>)
    requires chunks != []
    ensures AreBuckets(chunks, Kept(sentences), places, buckets)
    ensures Flatten(buckets) == Kept(sentences)
  {
    hide CleanText, GoesTo, InBucket;
    buckets, places := seq(|chunks|, _ => []), [];
    var cursor := 0;
    NoSentencesYet(chunks, buckets);
    for i := 0 to |sentences|
      invariant AreBuckets(chunks, Kept(sentences[..i]), places, buckets)
      invariant cursor == CursorAt(places, |places|)
      invariant cursor < |chunks|
    {
      assert sentences[..i + 1][..i] == sentences[..i];
      var clean := CleanText(sentences[i].source);
      if clean == [] {
        continue;
      }
      var s := Sentence(sentences[i].ordinal, clean);
      var b := FindChunk(chunks, s, cursor);
      PlaceOne(chunks, Kept(sentences[..i]), places, buckets, s, b);
      ChunkExists(chunks, s, cursor, b);
      buckets := buckets[b := buckets[b] + [s]];
      places := places + [b];
      cursor := b;
    }
    assert sentences[..|sentences|] == sentences;
    BucketsPartitionSentences(chunks, Kept(sentences), places, buckets);
  }

  lemma NoSentencesYet(chunks: seq<string>, buckets: seq<seq<Sentence>>)
    requires |buckets| == |chunks| && forall b :: 0 <= b < |buckets| ==> buckets[b] == []
    ensures AreBuckets(chunks, [], [], buckets)
  {}

  lemma ChunkExists(chunks: seq<string>, s: Sentence, cursor: nat, b: nat)
    requires GoesTo(chunks, s, cursor, b)
    ensures cursor <= b < |chunks|
  {}

  // ---- Printing a paragraph ---------------------------------------------------------------------

  /** The translation printed for a sentence. `meta` strips the translator's commentary. */
  function ZhFor(meta: string -> string, targets: map<int, Target>, ordinal: int): string
  {
    if ordinal in targets && targets[ordinal].text != [] then Strip(Collapse(meta(CleanText(targets[ordinal].text))))
    else []
  }

  /** The translations of some sentences, one after the other. */
  function ZhOf(meta: string -> string, targets: map<int, Target>, bucket: seq<Sentence>): string
  {
    if bucket == [] then []
    else ZhOf(meta, targets, bucket[..|bucket| - 1]) + ZhFor(meta, targets, bucket[|bucket| - 1].ordinal)
  }

  lemma {:induction false} ZhOfAppend(
      meta: string -> string, targets: map<int, Target>, a: seq<Sentence>, b: seq<Sentence>)
    ensures ZhOf(meta, targets, a + b) == ZhOf(meta, targets, a) + ZhOf(meta, targets, b)
  {
    if b == [] {
      assert a + b == a;
    } else {
      var front, last := b[..|b| - 1], b[|b| - 1];
      hide ZhFor, ZhOf;
      assert b == front + [last];
      assert a + b == (a + front) + [last];
      ZhOfAppend(meta, targets, a, front);
      ZhOfOne(meta, targets, a + front, last);
      ZhOfOne(meta, targets, front, last);
      Associate(ZhOf(meta, targets, a), ZhOf(meta, targets, front), ZhFor(meta, targets, last.ordinal));
    }
  }

  lemma ZhOfOne(meta: string -> string, targets: map<int, Target>, bucket: seq<Sentence>, last: Sentence)
    ensures ZhOf(meta, targets, bucket + [last]) == ZhOf(meta, targets, bucket) + ZhFor(meta, targets, last.ordinal)
  {
    assert (bucket + [last])[..|bucket|] == bucket;
  }

  /** The sources of some sentences, joined with spaces. */
  function EnOf(bucket: seq<Sentence>): string
  {
    if bucket == [] then []
    else if |bucket| == 1 then bucket[0].source
    else EnOf(bucket[..|bucket| - 1]) + " " + bucket[|bucket| - 1].source
  }

  /** A printed source paragraph with the translation under it; an empty `zh` prints nothing. */
  datatype Pair = Pair(en: string, zh: string)

  function PairFor(meta: string -> string, targets: map<int, Target>, chunk: string, bucket: seq<Sentence>): Pair
  {
    Pair(Strip(if bucket == [] then chunk else EnOf(bucket)), Strip(ZhOf(meta, targets, bucket)))
  }

  /** The pairs printed for the first `n` chunks: each bucket's sentences beside the translations of just these. */
  function Pairs(
      meta: string -> string, targets: map<int, Target>, chunks: seq<string>, buckets: seq<seq<Sentence>>,
      n: nat): seq<Pair>
    requires n <= |chunks| == |buckets|
  {
    if n == 0 then []
    else
      var front := Pairs(meta, targets, chunks, buckets, n - 1);
      var pair := PairFor(meta, targets, chunks[n - 1], buckets[n - 1]);
      if pair.en == [] then front else front + [pair]
  }

  method EmitParagraph(
      meta: string -> string, targets: map<int, Target>, chunks: seq<string>, buckets: seq<seq<Sentence>>)
    returns (pairs: seq<Pair>)
    requires |chunks| == |buckets|
    ensures pairs == Pairs(meta, targets, chunks, buckets, |chunks|)
  {
    hide *;
    pairs := [];
    NoPairs(meta, targets, chunks, buckets);
    for idx := 0 to |chunks|
      invariant pairs == Pairs(meta, targets, chunks, buckets, idx)
    {
      var bucket := buckets[idx];
      var en, zh := "", "";
      EmptyBucket(meta, targets);
      PairsStep(meta, targets, chunks, buckets, idx);
      for k := 0 to |bucket|
        invariant en == EnOf(bucket[..k]) && zh == ZhOf(meta, targets, bucket[..k])
      {
        BucketStep(meta, targets, bucket, k);
        en := if k == 0 then bucket[k].source else en + " " + bucket[k].source;
        zh := zh + ZhFor(meta, targets, bucket[k].ordinal);
      }
      assert bucket[..|bucket|] == bucket;
      if bucket == [] {
        en := chunks[idx];
      }
      if Strip(en) == [] {
        continue;
      }
      pairs := pairs + [Pair(Strip(en), Strip(zh))];
    }
  }

  lemma NoPairs(
      meta: string -> string, targets: map<int, Target>, chunks: seq<string>, buckets: seq<seq<Sentence>>)
    requires |chunks| == |buckets|
    ensures Pairs(meta, targets, chunks, buckets, 0) == []
  {}

  lemma EmptyBucket(meta: string -> string, targets: map<int, Target>)
    ensures EnOf([]) == [] && ZhOf(meta, targets, []) == []
  {}

  lemma BucketStep(meta: string -> string, targets: map<int, Target>, bucket: seq<Sentence>, k: nat)
    requires k < |bucket|
    ensures EnOf(bucket[..k + 1]) == if k == 0 then bucket[k].source else EnOf(bucket[..k]) + " " + bucket[k].source
    ensures ZhOf(meta, targets, bucket[..k + 1])
         == ZhOf(meta, targets, bucket[..k]) + ZhFor(meta, targets, bucket[k].ordinal)
  {
    hide ZhFor;
    assert bucket[..k + 1][..k] == bucket[..k];
  }

  lemma PairsStep(
      meta: string -> string, targets: map<int, Target>, chunks: seq<string>, buckets: seq<seq<Sentence>>, n: nat)
    requires n < |chunks| == |buckets|
    ensures var en := Strip(if buckets[n] == [] then chunks[n] else EnOf(buckets[n]));
      Pairs(meta, targets, chunks, buckets, n + 1)
        == Pairs(meta, targets, chunks, buckets, n)
             + if en == [] then [] else [Pair(en, Strip(ZhOf(meta, targets, buckets[n])))]
  {
    hide Strip, ZhOf, EnOf;
  }

  function ZhPrinted(pairs: seq<Pair>): string
  {
    if pairs == [] then [] else ZhPrinted(pairs[..|pairs| - 1]) + pairs[|pairs| - 1].zh
  }

  predicate HasText(bucket: seq<Sentence>)
  {
    forall k :: 0 <= k < |bucket| ==> bucket[k].source != [] && Trimmed(bucket[k].source)
  }

  lemma {:induction false} EnOfHasText(bucket: seq<Sentence>)
    requires bucket != [] && HasText(bucket)
    ensures !Blank(EnOf(bucket))
  {
    if |bucket| == 1 {
      assert !IsSpace(bucket[0].source[0]);
    } else {
      EnOfHasText(bucket[..|bucket| - 1]);
      BlankConcat(EnOf(bucket[..|bucket| - 1]), " ");
      BlankConcat(EnOf(bucket[..|bucket| - 1]) + " ", bucket[|bucket| - 1].source);
    }
  }

  /** The printed translation is that of all bucketed sentences: dropping an empty pair loses none of it. */
  lemma {:induction false} PairsPrintAllBuckets(
      meta: string -> string, targets: map<int, Target>, chunks: seq<string>, buckets: seq<seq<Sentence>>, n: nat)
    requires n <= |chunks| == |buckets| && forall b :: 0 <= b < |buckets| ==> HasText(buckets[b])
    ensures Squeeze(ZhPrinted(Pairs(meta, targets, chunks, buckets, n)))
         == Squeeze(ZhOf(meta, targets, Flatten(buckets[..n])))
  {
    hide ZhFor, ZhOf, Strip, Squeeze, Flatten, HasText, Blank;
    if n > 0 {
      PairsPrintAllBuckets(meta, targets, chunks, buckets, n - 1);
      var front, bucket := Pairs(meta, targets, chunks, buckets, n - 1), buckets[n - 1];
      var pair := PairFor(meta, targets, chunks[n - 1], bucket);
      assert buckets[..n] == buckets[..n - 1] + [bucket];
      FlattenOne(buckets[..n - 1], bucket);
      ZhOfAppend(meta, targets, Flatten(buckets[..n - 1]), bucket);
      SqueezeConcat(ZhOf(meta, targets, Flatten(buckets[..n - 1])), ZhOf(meta, targets, bucket));
      SqueezeStrip(ZhOf(meta, targets, bucket));
      SilentPairIsEmpty(meta, targets, chunks[n - 1], bucket);
      if pair.en != [] {
        assert (front + [pair])[..|front|] == front;
        SqueezeConcat(ZhPrinted(front), pair.zh);
      }
    } else {
      assert buckets[..0] == [];
      NothingToPrint(meta, targets);
    }
  }

  lemma NothingToPrint(meta: string -> string, targets: map<int, Target>)
    ensures ZhOf(meta, targets, Flatten([])) == []
  {}

  lemma SilentPairIsEmpty(meta: string -> string, targets: map<int, Target>, chunk: string, bucket: seq<Sentence>)
    requires HasText(bucket)
    ensures PairFor(meta, targets, chunk, bucket).en == [] ==> Squeeze(ZhOf(meta, targets, bucket)) == []
  {
    if bucket != [] {
      EnOfHasText(bucket);
    }
  }

  // ---- The source side --------------------------------------------------------------------------

  function EnPrinted(pairs: seq<Pair>): string
  {
    if pairs == [] then [] else EnPrinted(pairs[..|pairs| - 1]) + pairs[|pairs| - 1].en
  }

  /** The sources of a bucket, or the chunk itself where no sentence has come. */
  function SourceOf(chunk: string, bucket: seq<Sentence>): seq<string>
  {
    if bucket == [] then [chunk] else seq(|bucket|, k requires 0 <= k < |bucket| => bucket[k].source)
  }

  lemma OneSource(chunk: string, s: Sentence)
    ensures Concat(SourceOf(chunk, [s])) == s.source && EnOf([s]) == s.source && Concat([chunk]) == chunk
  {
    assert SourceOf(chunk, [s]) == [] + [s.source];
    ConcatOne([], s.source);
    assert [] + [chunk] == [chunk];
    ConcatOne([], chunk);
  }

  lemma OneMoreSource(chunk: string, front: seq<Sentence>, last: Sentence)
    requires front != []
    ensures Concat(SourceOf(chunk, front + [last])) == Concat(SourceOf(chunk, front)) + last.source
    ensures EnOf(front + [last]) == EnOf(front) + " " + last.source
  {
    assert SourceOf(chunk, front + [last]) == SourceOf(chunk, front) + [last.source];
    ConcatOne(SourceOf(chunk, front), last.source);
    assert (front + [last])[..|front|] == front;
  }

  lemma {:induction false} EnOfSqueezed(chunk: string, bucket: seq<Sentence>)
    requires bucket != []
    ensures Squeeze(EnOf(bucket)) == Squeeze(Concat(SourceOf(chunk, bucket)))
  {
    hide Concat, Squeeze, EnOf, SourceOf;
    var front, last := bucket[..|bucket| - 1], bucket[|bucket| - 1];
    assert bucket == front + [last];
    if front == [] {
      assert bucket == [last];
      OneSource(chunk, last);
    } else {
      EnOfSqueezed(chunk, front);
      OneMoreSource(chunk, front, last);
      OneSpace();
      SqueezeConcat(EnOf(front) + " ", last.source);
      SqueezeConcat(EnOf(front), " ");
      SqueezeConcat(Concat(SourceOf(chunk, front)), last.source);
    }
  }

  lemma OneSpace()
    ensures Squeeze(" ") == []
  {
    SqueezeBlank(" ");
  }

  /** Up to whitespace the printed sources of a pair are those of its sentences, or its chunk. */
  lemma PairShowsSource(meta: string -> string, targets: map<int, Target>, chunk: string, bucket: seq<Sentence>)
    ensures Squeeze(PairFor(meta, targets, chunk, bucket).en) == Squeeze(Concat(SourceOf(chunk, bucket)))
    ensures |bucket| == 1 ==> PairFor(meta, targets, chunk, bucket).en == Strip(bucket[0].source)
    ensures |bucket| == 1 ==> PairFor(meta, targets, chunk, bucket).zh == Strip(ZhFor(meta, targets, bucket[0].ordinal))
  {
    hide Squeeze, Strip, Concat, EnOf;
    SqueezeStrip(if bucket == [] then chunk else EnOf(bucket));
    if bucket == [] {
      OneSource(chunk, Sentence(0, ""));
    } else {
      EnOfSqueezed(chunk, bucket);
    }
    if |bucket| == 1 {
      assert bucket == [bucket[0]];
      OneSource(chunk, bucket[0]);
      OneTranslation(meta, targets, bucket[0]);
    }
  }

  lemma OneTranslation(meta: string -> string, targets: map<int, Target>, s: Sentence)
    ensures ZhOf(meta, targets, [s]) == ZhFor(meta, targets, s.ordinal)
  {
    ZhOfOne(meta, targets, [], s);
    assert [] + [s] == [s];
  }

  /** The sources of the first `n` chunks, one after the other. */
  function AllSources(chunks: seq<string>, buckets: seq<seq<Sentence>>, n: nat): string
    requires n <= |chunks| == |buckets|
  {
    if n == 0 then [] else AllSources(chunks, buckets, n - 1) + Concat(SourceOf(chunks[n - 1], buckets[n - 1]))
  }

  /** Nothing of the source is lost or moved in print, up to whitespace. */
  lemma {:induction false} PairsPrintAllSources(
      meta: string -> string, targets: map<int, Target>, chunks: seq<string>, buckets: seq<seq<Sentence>>, n: nat)
    requires n <= |chunks| == |buckets|
    ensures Squeeze(EnPrinted(Pairs(meta, targets, chunks, buckets, n))) == Squeeze(AllSources(chunks, buckets, n))
  {
    hide Squeeze, Concat, PairFor, SourceOf, Pairs, EnPrinted;
    NothingPrintedYet(meta, targets, chunks, buckets);
    if n > 0 {
      PairsPrintAllSources(meta, targets, chunks, buckets, n - 1);
      OnePairMore(meta, targets, chunks, buckets, n);
      PairShowsSource(meta, targets, chunks[n - 1], buckets[n - 1]);
      SqueezeConcat(AllSources(chunks, buckets, n - 1), Concat(SourceOf(chunks[n - 1], buckets[n - 1])));
    }
  }

  lemma NothingPrintedYet(
      meta: string -> string, targets: map<int, Target>, chunks: seq<string>, buckets: seq<seq<Sentence>>)
    requires |chunks| == |buckets|
    ensures EnPrinted(Pairs(meta, targets, chunks, buckets, 0)) == []
  {}

  lemma OnePairMore(
      meta: string -> string, targets: map<int, Target>, chunks: seq<string>, buckets: seq<seq<Sentence>>, n: nat)
    requires 0 < n <= |chunks| == |buckets|
    ensures Squeeze(EnPrinted(Pairs(meta, targets, chunks, buckets, n))) ==
      Squeeze(EnPrinted(Pairs(meta, targets, chunks, buckets, n - 1)))
        + Squeeze(PairFor(meta, targets, chunks[n - 1], buckets[n - 1]).en)
  {
    hide Squeeze, PairFor;
    var front := Pairs(meta, targets, chunks, buckets, n - 1);
    var pair := PairFor(meta, targets, chunks[n - 1], buckets[n - 1]);
    SqueezeBlank([]);
    assert (front + [pair])[..|front|] == front;
    SqueezeConcat(EnPrinted(front), pair.en);
  }

  /** Words parted by single spaces. */
  predicate IsPlain(s: string)
  {
    && Trimmed(s)
    && forall k :: 0 <= k < |s| && IsSpace(s[k]) ==> s[k] == ' ' && (k + 1 < |s| ==> !IsSpace(s[k + 1]))
  }

  predicate HasSingleSpaces(s: string)
  {
    forall k :: 0 <= k < |s| && IsSpace(s[k]) ==> s[k] == ' ' && (k + 1 < |s| ==> !IsSpace(s[k + 1]))
  }

  lemma {:induction false} CollapseOfPlain(s: string)
    requires HasSingleSpaces(s)
    ensures Collapse(s) == s
    decreases |s|
  {
    if s != [] {
      forall k | 0 <= k < |s[1..]| && IsSpace(s[1..][k])
        ensures s[1..][k] == ' ' && (k + 1 < |s[1..]| ==> !IsSpace(s[1..][k + 1]))
      {
        assert s[1..][k] == s[k + 1];
      }
      CollapseOfPlain(s[1..]);
      assert s == [s[0]] + s[1..];
      if IsSpace(s[0]) {
        OneLeadingSpace(s);
      }
    }
  }

  lemma OneLeadingSpace(s: string)
    requires s != [] && IsSpace(s[0]) && (|s| > 1 ==> !IsSpace(s[1]))
    ensures LeadingSpaces(s) == 1
  {
    assert |s| > 1 ==> s[1..][0] == s[1];
  }

  /** A text without carriage returns and without whitespace around it. */
  predicate IsTidy(s: string)
  {
    s != [] && Trimmed(s) && '\r' !in s
  }

  lemma {:induction false} NothingReplaced(s: string)
    requires '\r' !in s
    ensures ReplaceCrLf(s) == s
    decreases |s|
  {
    if |s| >= 2 {
      assert s[0] in s && s == [s[0]] + s[1..];
      NothingReplaced(s[1..]);
    }
  }

  lemma CleanTextOfTidy(s: string)
    requires IsTidy(s)
    ensures CleanText(s) == s
  {
    NothingReplaced(s);
    StripTrimmed(s);
  }

  /** Tidy sentences are placed as they are, and blank ones are left out. */
  lemma KeptExactly(front: seq<Sentence>, s: Sentence)
    ensures IsTidy(s.source) ==> Kept(front + [s]) == Kept(front) + [s]
    ensures Blank(s.source) ==> Kept(front + [s]) == Kept(front)
    ensures Kept([]) == []
  {
    assert (front + [s])[..|front|] == front;
    CleanTextKeepsText(s.source);
    if IsTidy(s.source) {
      CleanTextOfTidy(s.source);
    }
    hide CleanText;
  }

  /** What is printed for a sentence: its tidy translation with the commentary stripped, if the rest is plain. */
  lemma ZhForExactly(meta: string -> string, targets: map<int, Target>, ordinal: int)
    ensures ordinal !in targets || targets[ordinal].text == [] ==> ZhFor(meta, targets, ordinal) == []
    ensures ordinal in targets && IsTidy(targets[ordinal].text) && IsPlain(meta(targets[ordinal].text)) ==>
      ZhFor(meta, targets, ordinal) == meta(targets[ordinal].text)
  {
    if ordinal in targets && IsTidy(targets[ordinal].text) && IsPlain(meta(targets[ordinal].text)) {
      CleanTextOfTidy(targets[ordinal].text);
      NormalizedPlain(meta(targets[ordinal].text));
    }
  }

  /** `part` stands in `text` from position `k` on. */
  predicate StandsAt(text: string, part: string, k: nat)
  {
    k + |part| <= |text| && forall j :: 0 <= j < |part| ==> part[j] == text[k + j]
  }

  lemma OccursIsStanding(text: string, part: string, k: nat)
    ensures OccursAt(text, part, k) <==> StandsAt(text, part, k)
  {
    if k + |part| <= |text| {
      var window := text[k..k + |part|];
      assert forall j :: 0 <= j < |window| ==> window[j] == text[k + j];
    }
  }

  /** The first forty characters. */
  function Opening(s: string): string
  {
    if |s| <= 40 then s else s[..40]
  }

  /** Between plain texts the match is verbatim: the chunk holds the sentence, or its first forty characters. */
  lemma MatchesVerbatim(chunks: seq<string>, s: Sentence, b: nat)
    requires b < |chunks| && IsPlain(s.source) && IsPlain(chunks[b])
    ensures Matches(chunks, s, b) <==>
      s.source != [] && exists k: nat :: StandsAt(chunks[b], Opening(s.source), k)
  {
    hide Collapse, Strip, OccursAt, StandsAt;
    NormalizedPlain(s.source);
    NormalizedPlain(chunks[b]);
    var chunk, part := chunks[b], Opening(s.source);
    forall k: nat
      ensures OccursAt(chunk, part, k) <==> StandsAt(chunk, part, k)
      ensures StandsAt(chunk, part, k) ==> k <= |chunk|
    {
      OccursIsStanding(chunk, part, k);
      StandsInside(chunk, part, k);
    }
  }

  lemma StandsInside(text: string, part: string, k: nat)
    ensures StandsAt(text, part, k) ==> k <= |text|
  {}

  lemma NormalizedPlain(s: string)
    requires IsPlain(s)
    ensures Normalized(s) == s
  {
    CollapseOfPlain(s);
    StripTrimmed(s);
  }

  // ---- Redistribution ---------------------------------------------------------------------------

  const TERMINATORS: set<char> := {'\U{3002}', '\U{FF01}', '\U{FF1F}'}
  const CLOSERS: set<char> := {'\U{300D}', '\U{300F}', '\U{FF09}', ')'}

  /** A sentence boundary: after a terminator not followed by a closer or space, or after terminator and closer. */
  predicate IsBoundary(text: string, p: nat)
  {
    || (0 < p < |text| && text[p - 1] in TERMINATORS && text[p] !in CLOSERS && !IsSpace(text[p]))
    || (1 < p <= |text| && text[p - 2] in TERMINATORS && text[p - 1] in CLOSERS)
  }

  function SplitChineseSentences(text: string): seq<string>
  {
    var t := Strip(text);
    Parts(Cut(t, (p: nat) => IsBoundary(t, p), |t|))
  }

  lemma SplitKeepsText(text: string)
    ensures Squeeze(Concat(SplitChineseSentences(text))) == Squeeze(text)
    ensures forall k :: 0 <= k < |SplitChineseSentences(text)| ==> !Blank(SplitChineseSentences(text)[k])
  {
    var t := Strip(text);
    var at := (p: nat) => IsBoundary(t, p);
    CutKeepsText(t, at, |t|);
    assert t[..|t|] == t;
    PartsKeepText(Cut(t, at, |t|));
    SqueezeStrip(text);
    var parts := SplitChineseSentences(text);
    forall k | 0 <= k < |parts| ensures !Blank(parts[k]) {
      assert !IsSpace(parts[k][0]);
    }
  }

  // What a sentence is, for the round trip: written out with the characters themselves.

  /** A full-width full stop, exclamation mark or question mark. */
  predicate IsStop(c: char)
  {
    c == '\U{3002}' || c == '\U{FF01}' || c == '\U{FF1F}'
  }

  /** A closing quotation mark or bracket that stays with the sentence. */
  predicate IsCloser(c: char)
  {
    c == '\U{300D}' || c == '\U{300F}' || c == '\U{FF09}' || c == ')'
  }

  predicate HasNoStop(s: string)
  {
    forall k :: 0 <= k < |s| ==> !IsStop(s[k])
  }

  /** The text ends with a stop, or with a stop and one closer. */
  predicate EndsWithStop(s: string)
  {
    || (|s| >= 1 && IsStop(s[|s| - 1]))
    || (|s| >= 2 && IsCloser(s[|s| - 1]) && IsStop(s[|s| - 2]))
  }

  /** A trimmed text that does not begin with a closer and whose one stop ends it, up to one closer. */
  predicate IsSentence(s: string)
  {
    && s != [] && !IsSpace(s[0]) && !IsCloser(s[0])
    && ((IsStop(s[|s| - 1]) && HasNoStop(s[..|s| - 1]))
        || (|s| >= 2 && IsCloser(s[|s| - 1]) && IsStop(s[|s| - 2]) && HasNoStop(s[..|s| - 2])))
  }

  /** Whole sentences, of which the last may lack its stop. */
  predicate AreSentences(parts: seq<string>)
  {
    && (forall k :: 0 <= k < |parts| - 1 ==> IsSentence(parts[k]))
    && (parts != [] ==>
         var last := parts[|parts| - 1];
         IsSentence(last) || (last != [] && Trimmed(last) && !IsCloser(last[0]) && HasNoStop(last)))
  }

  lemma SentencesAreTrimmed(parts: seq<string>, k: nat)
    requires AreSentences(parts) && k < |parts|
    ensures parts[k] != [] && Trimmed(parts[k]) && !IsCloser(parts[k][0])
    ensures k < |parts| - 1 ==> IsSentence(parts[k])
    ensures IsSentence(parts[k]) || HasNoStop(parts[k])
  {}

  lemma BoundaryByStops(t: string, p: nat)
    ensures IsBoundary(t, p) <==>
      (0 < p < |t| && IsStop(t[p - 1]) && !IsCloser(t[p]) && !IsSpace(t[p]))
      || (1 < p <= |t| && IsStop(t[p - 2]) && IsCloser(t[p - 1]))
  {}

  /** Where a sentence begins, the sentence before has ended. */
  lemma BoundaryAtStart(parts: seq<string>, k: nat)
    requires AreSentences(parts) && 0 < k < |parts|
    ensures IsBoundary(Concat(parts), StartOf(parts, k))
  {
    hide IsSentence, AreSentences, IsBoundary, StartOf, Concat;
    var t, p, before := Concat(parts), StartOf(parts, k), parts[k - 1];
    SentencesAreTrimmed(parts, k);
    SentencesAreTrimmed(parts, k - 1);
    StartOfNext(parts, k - 1);
    CharOfPart(parts, k, 0);
    CharOfPart(parts, k - 1, |before| - 1);
    SentenceEnds(before);
    if |before| >= 2 {
      CharOfPart(parts, k - 1, |before| - 2);
    }
    BoundaryByStops(t, p);
  }

  lemma SentenceEnds(s: string)
    requires IsSentence(s)
    ensures EndsWithStop(s)
  {}

  /** No cut falls inside a sentence. */
  lemma NoBoundaryInside(parts: seq<string>, k: nat, j: nat)
    requires AreSentences(parts) && k < |parts| && 0 < j < |parts[k]|
    ensures !IsBoundary(Concat(parts), StartOf(parts, k) + j)
  {
    hide AreSentences, IsBoundary, StartOf, Concat;
    var s := parts[k];
    SentencesAreTrimmed(parts, k);
    CharOfPart(parts, k, j);
    CharOfPart(parts, k, j - 1);
    if j >= 2 {
      CharOfPart(parts, k, j - 2);
    }
    BoundaryByStops(Concat(parts), StartOf(parts, k) + j);
    StopsOnlyAtEnd(s, j);
  }

  lemma StopsOnlyAtEnd(s: string, j: nat)
    requires (IsSentence(s) || HasNoStop(s)) && s != [] && !IsCloser(s[0]) && 0 < j < |s|
    ensures IsStop(s[j - 1]) ==> IsCloser(s[j])
    ensures j >= 2 ==> !IsStop(s[j - 2])
  {
    if IsStop(s[|s| - 1]) && HasNoStop(s[..|s| - 1]) {
      assert s[..|s| - 1][j - 1] == s[j - 1];
      assert j >= 2 ==> s[..|s| - 1][j - 2] == s[j - 2];
    } else if !HasNoStop(s) {
      assert j - 1 < |s| - 2 ==> s[..|s| - 2][j - 1] == s[j - 1];
      assert j >= 2 ==> s[..|s| - 2][j - 2] == s[j - 2];
    }
  }

  /** Sentences that run together are told apart again. */
  lemma SplitGivesSentences(parts: seq<string>)
    requires AreSentences(parts)
    ensures SplitChineseSentences(Concat(parts)) == parts
  {
    hide AreSentences, IsBoundary, StartOf, Cut;
    if parts == [] {
      NothingToSplit();
    } else {
      var t := Concat(parts);
      var at := (p: nat) => IsBoundary(t, p);
      forall k | 0 <= k < |parts| ensures parts[k] != [] && Trimmed(parts[k]) { SentencesAreTrimmed(parts, k); }
      forall k | 0 < k < |parts| ensures at(StartOf(parts, k)) { BoundaryAtStart(parts, k); }
      forall k: nat, p: nat | k < |parts| && StartOf(parts, k) < p < StartOf(parts, k) + |parts[k]| ensures !at(p) {
        NoBoundaryInside(parts, k, p - StartOf(parts, k));
      }
      ConcatIsTrimmed(parts);
      CutGivesParts(parts, at, |parts|);
      WholeConcat(parts);
      StripEach(parts);
    }
  }

  lemma NothingToSplit()
    ensures SplitChineseSentences(Concat([])) == []
  {}

  lemma WholeConcat(parts: seq<string>)
    ensures StartOf(parts, |parts|) == |Concat(parts)| && parts[..|parts|] == parts
  {
    assert parts[..|parts|] == parts;
  }

  lemma StripEach(parts: seq<string>)
    requires forall k :: 0 <= k < |parts| ==> parts[k] != [] && Trimmed(parts[k])
    ensures Parts(parts) == parts
  {
    forall k | 0 <= k < |parts| ensures !Blank(parts[k]) && Strip(parts[k]) == parts[k] {
      assert !IsSpace(parts[k][0]);
      StripTrimmed(parts[k]);
    }
    PartsOneByOne(parts);
  }

  /** On every text: each part but the last ends with a stop, or with a stop and one closer. */
  lemma SplitEndsWithStops(text: string, k: nat)
    requires k < |SplitChineseSentences(text)| - 1
    ensures EndsWithStop(SplitChineseSentences(text)[k])
  {
    hide IsBoundary, Cut, Parts, Strip, EndsWithStop;
    var t := Strip(text);
    var at := (p: nat) => IsBoundary(t, p);
    var pieces := Cut(t, at, |t|);
    forall m | 0 <= m < |pieces| - 1 ensures EndsWithStop(pieces[m]) && !Blank(pieces[m]) {
      PieceEndsWithStop(t, pieces, m);
    }
    PartsOneByOne(pieces);
    StripKeepsStop(pieces[k]);
  }

  lemma PieceEndsWithStop(t: string, pieces: seq<string>, m: nat)
    requires pieces == Cut(t, (p: nat) => IsBoundary(t, p), |t|) && m < |pieces| - 1
    ensures EndsWithStop(pieces[m]) && !Blank(pieces[m])
  {
    hide Cut, IsBoundary, StartOf, EndsWithStop, Blank;
    CutEnds(t, (p: nat) => IsBoundary(t, p), |t|, m);
    var p := StartOf(pieces, m + 1);
    StopBeforeCut(t, p - |pieces[m]|, p);
  }

  lemma StopBeforeCut(t: string, q: nat, p: nat)
    requires q < p < |t| && IsBoundary(t, p) && (q == 0 || IsBoundary(t, q))
    ensures EndsWithStop(t[q..p]) && !Blank(t[q..p])
  {
    hide IsBoundary, EndsWithStop, Blank;
    BoundaryByStops(t, p);
    BoundaryByStops(t, q);
    EndsByLast(t, q, p);
    StopsAreVisible(t[q..p]);
  }

  lemma EndsByLast(t: string, q: nat, p: nat)
    requires q < p <= |t|
    ensures EndsWithStop(t[q..p]) <==>
      IsStop(t[p - 1]) || (q < p - 1 && IsCloser(t[p - 1]) && IsStop(t[p - 2]))
  {
    var s := t[q..p];
    assert s[|s| - 1] == t[p - 1];
    assert |s| >= 2 ==> s[|s| - 2] == t[p - 2];
  }

  lemma StopsAreVisible(s: string)
    ensures EndsWithStop(s) ==> !Blank(s) && !IsSpace(s[|s| - 1])
  {}

  lemma StripKeepsStop(s: string)
    requires EndsWithStop(s)
    ensures EndsWithStop(Strip(s))
  {
    var n := LeadingSpaces(s);
    assert s[n..] == LStrip(s);
    StopsAreVisible(s);
    assert RStrip(s[n..]) == s[n..];
    forall k | 0 <= k < n ensures IsSpace(s[k]) { assert s[..n][k] == s[k]; }
  }

  /** The one translation is split exactly when it falls into as many sentences as the source has. */
  predicate Redistributes(targets: map<int, Target>, sentences: seq<Sentence>, key: int)
  {
    && targets.Keys == {key} && |sentences| > 1 && targets[key].text != []
    && |SplitChineseSentences(targets[key].text)| == |sentences|
  }

  predicate DistinctOrdinals(sentences: seq<Sentence>)
  {
    forall i, j :: 0 <= i < j < |sentences| ==> sentences[i].ordinal != sentences[j].ordinal
  }

  /** Each sentence gets its own part of the translation, with the other columns repeated. */
  ghost predicate IsRedistribution(only: Target, sentences: seq<Sentence>, targets: map<int, Target>)
  {
    var parts := SplitChineseSentences(only.text);
    && |parts| == |sentences|
    && (forall k :: 0 <= k < |sentences| ==>
          sentences[k].ordinal in targets && targets[sentences[k].ordinal] == Target(only.rest, parts[k]))
    && (forall o :: o in targets ==> exists k :: 0 <= k < |sentences| && sentences[k].ordinal == o)
  }

  /** The only translation is the sentences of `parts` run together, as many as the source has, two at least. */
  predicate IsRunTogether(targets: map<int, Target>, sentences: seq<Sentence>, key: int, parts: seq<string>)
  {
    targets.Keys == {key} && |parts| == |sentences| > 1 && AreSentences(parts) && targets[key].text == Concat(parts)
  }

  lemma RunTogetherIsSplit(targets: map<int, Target>, sentences: seq<Sentence>, key: int, parts: seq<string>)
    requires IsRunTogether(targets, sentences, key, parts)
    ensures Redistributes(targets, sentences, key) && SplitChineseSentences(targets[key].text) == parts
  {
    hide AreSentences, SplitChineseSentences;
    SplitGivesSentences(parts);
    forall k | 0 <= k < |parts| ensures parts[k] != [] && Trimmed(parts[k]) { SentencesAreTrimmed(parts, k); }
    ConcatIsTrimmed(parts);
  }

  method ExpandMergedTargets(targets: map<int, Target>, sentences: seq<Sentence>) returns (expanded: map<int, Target>)
    requires DistinctOrdinals(sentences)
    ensures forall key :: Redistributes(targets, sentences, key) ==> IsRedistribution(targets[key], sentences, expanded)
    ensures (forall key :: !Redistributes(targets, sentences, key)) ==> expanded == targets
    // Run-together sentences, one for each source sentence, are handed out one by one.
    ensures forall key, parts :: IsRunTogether(targets, sentences, key, parts) ==>
        forall k :: 0 <= k < |sentences| ==>
          sentences[k].ordinal in expanded && expanded[sentences[k].ordinal] == Target(targets[key].rest, parts[k])
  {
    hide SplitChineseSentences, AreSentences;
    forall key, parts | IsRunTogether(targets, sentences, key, parts)
      ensures Redistributes(targets, sentences, key) && SplitChineseSentences(targets[key].text) == parts
    {
      RunTogetherIsSplit(targets, sentences, key, parts);
    }
    assert |targets.Keys| == |targets|;
    if |targets| != 1 || |sentences| <= 1 {
      forall key ensures !Redistributes(targets, sentences, key) {
        assert targets.Keys == {key} ==> |targets.Keys| == 1;
      }
      return targets;
    }
    assert exists key :: key in targets.Keys by {
      assert (forall key :: key !in targets.Keys) ==> targets.Keys == {};
    }
    var key :| key in targets.Keys;
    OnlyKey(targets, key);
    assert forall other :: Redistributes(targets, sentences, other) ==> other in targets.Keys;
    var only := targets[key];
    if only.text == [] {
      return targets;
    }
    var parts := SplitChineseSentences(only.text);
    if |parts| != |sentences| {
      return targets;
    }
    assert Redistributes(targets, sentences, key);
    expanded := map[];
    for k := 0 to |sentences|
      invariant forall j :: 0 <= j < k ==>
        sentences[j].ordinal in expanded && expanded[sentences[j].ordinal] == Target(only.rest, parts[j])
      invariant forall o :: o in expanded ==> exists j :: 0 <= j < k && sentences[j].ordinal == o
    {
      expanded := expanded[sentences[k].ordinal := Target(only.rest, parts[k])];
    }
  }

  lemma OnlyKey(targets: map<int, Target>, key: int)
    requires |targets.Keys| == 1 && key in targets
    ensures targets.Keys == {key}
  {
    assert |targets.Keys - {key}| == 0;
    assert targets.Keys == (targets.Keys - {key}) + {key};
  }

  /** What is printed for a sentence is its part, up to whitespace, when no commentary is stripped from it. */
  lemma ZhForIsPart(meta: string -> string, targets: map<int, Target>, ordinal: int)
    requires ordinal in targets && meta(CleanText(targets[ordinal].text)) == CleanText(targets[ordinal].text)
    ensures Squeeze(ZhFor(meta, targets, ordinal)) == Squeeze(targets[ordinal].text)
  {
    var text := targets[ordinal].text;
    CleanTextKeepsText(text);
    CollapseKeepsText(CleanText(text));
    SqueezeStrip(Collapse(CleanText(text)));
  }

  ghost predicate NoneBlank(sentences: seq<Sentence>)
  {
    forall k :: 0 <= k < |sentences| ==> !Blank(sentences[k].source)
  }

  /** The printed text of the first `n` sentences against the first `n` parts: shorter as soon as one is blank. */
  lemma {:induction false} PrintedUpTo(
      meta: string -> string, only: Target, sentences: seq<Sentence>, targets: map<int, Target>, n: nat)
    requires IsRedistribution(only, sentences, targets) && n <= |sentences|
    requires forall o :: o in targets ==> meta(CleanText(targets[o].text)) == CleanText(targets[o].text)
    ensures var printed := Squeeze(ZhOf(meta, targets, Kept(sentences[..n])));
      var whole := Squeeze(Concat(SplitChineseSentences(only.text)[..n]));
      if NoneBlank(sentences[..n]) then printed == whole else |printed| < |whole|
  {
    hide SplitChineseSentences, ZhFor, ZhOf, Squeeze, Strip, Kept, CleanText, Concat, NoneBlank, Blank;
    PrintedNothing(meta, only, sentences, targets);
    if n > 0 {
      PrintedUpTo(meta, only, sentences, targets, n - 1);
      var front, last := sentences[..n - 1], sentences[n - 1];
      var parts := SplitChineseSentences(only.text);
      assert sentences[..n] == front + [last] && sentences[..n][..n - 1] == front;
      assert parts[..n] == parts[..n - 1] + [parts[n - 1]];
      ConcatOne(parts[..n - 1], parts[n - 1]);
      SqueezeConcat(Concat(parts[..n - 1]), parts[n - 1]);
      SplitKeepsText(only.text);
      SqueezeBlank(parts[n - 1]);
      CleanTextKeepsText(last.source);
      KeptOne(meta, targets, front, last);
      ZhForIsPart(meta, targets, last.ordinal);
      NoneBlankOne(front, last);
    }
  }

  lemma PrintedNothing(meta: string -> string, only: Target, sentences: seq<Sentence>, targets: map<int, Target>)
    ensures NoneBlank(sentences[..0])
    ensures Squeeze(ZhOf(meta, targets, Kept(sentences[..0]))) == Squeeze(Concat(SplitChineseSentences(only.text)[..0]))
  {}

  lemma NoneBlankOne(front: seq<Sentence>, last: Sentence)
    ensures NoneBlank(front + [last]) <==> NoneBlank(front) && !Blank(last.source)
  {
    if NoneBlank(front + [last]) {
      forall k | 0 <= k < |front| ensures !Blank(front[k].source) { assert (front + [last])[k] == front[k]; }
      assert (front + [last])[|front|] == last;
    }
  }

  lemma KeptOne(meta: string -> string, targets: map<int, Target>, front: seq<Sentence>, last: Sentence)
    ensures Squeeze(ZhOf(meta, targets, Kept(front + [last]))) ==
      Squeeze(ZhOf(meta, targets, Kept(front)))
        + if CleanText(last.source) == [] then [] else Squeeze(ZhFor(meta, targets, last.ordinal))
  {
    assert (front + [last])[..|front|] == front;
    if CleanText(last.source) != [] {
      var s := Sentence(last.ordinal, CleanText(last.source));
      assert (Kept(front) + [s])[..|Kept(front)|] == Kept(front);
      SqueezeConcat(ZhOf(meta, targets, Kept(front)), ZhFor(meta, targets, last.ordinal));
    }
  }

  lemma {:induction false} KeptHasText(sentences: seq<Sentence>)
    ensures HasText(Kept(sentences))
  {
    if sentences != [] {
      KeptHasText(sentences[..|sentences| - 1]);
    }
  }

  lemma {:induction false} BucketsHaveText(buckets: seq<seq<Sentence>>, b: nat)
    requires b < |buckets| && HasText(Flatten(buckets))
    ensures HasText(buckets[b])
  {
    var front, last := Flatten(buckets[..|buckets| - 1]), buckets[|buckets| - 1];
    forall k | 0 <= k < |front| ensures front[k] == Flatten(buckets)[k] {}
    forall k | 0 <= k < |last| ensures last[k] == Flatten(buckets)[|front| + k] {}
    if b < |buckets| - 1 {
      BucketsHaveText(buckets[..|buckets| - 1], b);
    }
  }

  /**
   * Redistribution followed by bucketed printing prints the whole translation, up to whitespace, exactly
   * when no source sentence is blank: the part handed to a blank sentence is never printed.
   */
  lemma RedistributedTextIsPrinted(
      meta: string -> string, only: Target, sentences: seq<Sentence>, targets: map<int, Target>,
      chunks: seq<string>, buckets: seq<seq<Sentence>>)
    requires IsRedistribution(only, sentences, targets)
    requires forall o :: o in targets ==> meta(CleanText(targets[o].text)) == CleanText(targets[o].text)
    requires |chunks| == |buckets| && Flatten(buckets) == Kept(sentences)
    ensures Squeeze(ZhPrinted(Pairs(meta, targets, chunks, buckets, |chunks|))) == Squeeze(only.text)
       <==> NoneBlank(sentences)
  {
    hide SplitChineseSentences, ZhOf, Pairs, Squeeze;
    KeptHasText(sentences);
    forall b | 0 <= b < |buckets| ensures HasText(buckets[b]) { BucketsHaveText(buckets, b); }
    PairsPrintAllBuckets(meta, targets, chunks, buckets, |chunks|);
    assert buckets[..|chunks|] == buckets;
    PrintedUpTo(meta, only, sentences, targets, |sentences|);
    assert sentences[..|sentences|] == sentences;
    SplitKeepsText(only.text);
    var parts := SplitChineseSentences(only.text);
    assert parts[..|sentences|] == parts;
  }
}
