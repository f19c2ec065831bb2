/** Text overlap, hint migration and the keyed snapshot tracker (caption-snapshot.ts). */
module CaptionSnapshot {
  import opened Wrappers
  import opened Utf16
  import opened Decimals
  import opened Protocol

  /** Which code units belong to words, and which are white space; both are facts of the regex engine. */
  type WordUnit = CodeUnit -> bool
  type SpaceUnit = CodeUnit -> bool

  /** No half of a surrogate pair is white space. */
  ghost predicate SoundSpace(space: SpaceUnit) {
    forall c :: space(c) ==> !IsHigh(c) && !IsLow(c)
  }

  // ---- Overlap ------------------------------------------------------------------------------

  /** The last size units of the old text are the first size units of the new one, cutting no pair. */
  predicate Overlaps(previous: Text, current: Text, size: nat) {
    && 0 < size <= |previous| && size <= |current|
    && !SplitsSurrogate(previous, |previous| - size)
    && !SplitsSurrogate(current, size)
    && EndsWith(previous, current[..size])
  }

  function OverlapUpTo(previous: Text, current: Text, size: nat): (r: nat)
    ensures r <= size
  {
    if size == 0 || Overlaps(previous, current, size) then size
    else OverlapUpTo(previous, current, size - 1)
  }

  function Min(a: nat, b: nat): nat {
    if a < b then a else b
  }

  function RetainedOverlap(previous: Text, current: Text): (r: nat)
    ensures r <= |previous| && r <= |current|
  {
    OverlapUpTo(previous, current, Min(|previous|, |current|))
  }

  lemma {:induction false} OverlapSearch(previous: Text, current: Text, size: nat)
    ensures var r := OverlapUpTo(previous, current, size);
            && (r > 0 ==> Overlaps(previous, current, r))
            && forall s | r < s <= size :: !Overlaps(previous, current, s)
  {
    if size > 0 && !Overlaps(previous, current, size) {
      OverlapSearch(previous, current, size - 1);
    }
  }

  /** The search finds the longest overlap, or zero when there is none at all. */
  lemma {:induction false} OverlapLongest(previous: Text, current: Text)
    ensures var r := RetainedOverlap(previous, current);
            && (r > 0 ==> Overlaps(previous, current, r))
            && forall s | r < s :: !Overlaps(previous, current, s)
  {
    OverlapSearch(previous, current, Min(|previous|, |current|));
  }

  /** What is retained is one text seen twice: the tail of the old and the head of the new. */
  lemma {:induction false} OverlapText(previous: Text, current: Text)
    ensures previous[|previous| - RetainedOverlap(previous, current)..] == current[..RetainedOverlap(previous, current)]
  {
    OverlapLongest(previous, current);
  }

  method FindRetainedOverlap(previous: Text, current: Text) returns (r: nat)
    ensures r == RetainedOverlap(previous, current)
  {
    var size: nat := Min(|previous|, |current|);
    while size > 0
      invariant size <= Min(|previous|, |current|)
      invariant OverlapUpTo(previous, current, size) == RetainedOverlap(previous, current)
    {
      if !SplitsSurrogate(previous, |previous| - size) && !SplitsSurrogate(current, size)
         && EndsWith(previous, current[..size]) {
        break;
      }
      size := size - 1;
    }
    r := size;
  }

  /** Neither end of the retained text splits a surrogate pair, also when nothing is retained. */
  lemma {:induction false} OverlapEnds(previous: Text, current: Text)
    ensures !SplitsSurrogate(previous, |previous| - RetainedOverlap(previous, current))
    ensures !SplitsSurrogate(current, RetainedOverlap(previous, current))
  {
    OverlapLongest(previous, current);
  }

  // ---- Hint migration -----------------------------------------------------------------------

  predicate WordAt(t: Text, i: int, word: WordUnit) {
    0 <= i < |t| && word(t[i])
  }

  function RemapOne(previous: Text, current: Text, h: Hint, word: WordUnit): Option<Hint> {
    var overlap := RetainedOverlap(previous, current);
    var removed := |previous| - overlap;
    if h.startOffset < removed || h.endOffset > |previous| then None
    else
      var start, end := h.startOffset - removed, h.endOffset - removed;
      if end > overlap || WordAt(current, start - 1, word) || WordAt(current, end, word) then None
      else Some(h.(startOffset := start, endOffset := end))
  }

  function Remap(previous: Text, current: Text, hints: seq<Hint>, word: WordUnit): seq<Hint> {
    if hints == [] then []
    else
      var rest := Remap(previous, current, hints[..|hints| - 1], word);
      var last := RemapOne(previous, current, hints[|hints| - 1], word);
      if last.Some? then rest + [last.value] else rest
  }

  /** A displayable hint: non-empty, inside the text, with no word unit touching either end. */
  ghost predicate Fits(t: Text, h: Hint, word: WordUnit) {
    && 0 <= h.startOffset < h.endOffset <= |t|
    && !WordAt(t, h.startOffset - 1, word)
    && !WordAt(t, h.endOffset, word)
  }

  ghost predicate Ordered(hints: seq<Hint>) {
    forall i, j | 0 <= i < j < |hints| :: hints[i].endOffset <= hints[j].startOffset
  }

  ghost predicate OneVersion(hints: seq<Hint>) {
    forall i, j | 0 <= i < j < |hints| :: hints[i].version == hints[j].version
  }

  /** What the overlay may rely on: hints sorted, disjoint, on word boundaries, of one version. */
  ghost predicate Displayable(t: Text, hints: seq<Hint>, word: WordUnit) {
    && (forall i | 0 <= i < |hints| :: Fits(t, hints[i], word))
    && Ordered(hints)
    && OneVersion(hints)
  }

  function Slice(t: Text, h: Hint): Text {
    if 0 <= h.startOffset <= h.endOffset <= |t| then t[h.startOffset..h.endOffset] else []
  }

  predicate SameEvidence(a: Hint, b: Hint) {
    a == b.(startOffset := a.startOffset, endOffset := a.endOffset)
  }

  lemma {:induction false} SliceMoves(previous: Text, current: Text, overlap: nat, from: nat, to: nat)
    requires overlap <= |previous| && overlap <= |current|
    requires previous[|previous| - overlap..] == current[..overlap]
    requires |previous| - overlap <= from <= to <= |previous|
    ensures current[from - (|previous| - overlap)..to - (|previous| - overlap)] == previous[from..to]
  {
    var removed := |previous| - overlap;
    forall i | from <= i < to
      ensures current[i - removed] == previous[i]
    {
      assert current[..overlap][i - removed] == previous[removed..][i - removed];
    }
  }

  /** A migrated hint still fits, covers the very same text and keeps its evidence. */
  lemma {:induction false} RemapOneKeepsText(previous: Text, current: Text, h: Hint, word: WordUnit)
    requires 0 <= h.startOffset < h.endOffset
    requires RemapOne(previous, current, h, word).Some?
    ensures var moved := RemapOne(previous, current, h, word).value;
            && Fits(current, moved, word) && SameEvidence(moved, h)
            && Slice(current, moved) == Slice(previous, h)
  {
    OverlapText(previous, current);
    SliceMoves(previous, current, RetainedOverlap(previous, current), h.startOffset, h.endOffset);
  }

  /**
   * Exact survival: a displayable hint is lost only when it starts in the removed prefix, or when it
   * ended the old caption and a word unit now follows it.
   */
  lemma {:induction false} RemapSurvival(previous: Text, current: Text, h: Hint, word: WordUnit)
    requires Fits(previous, h, word)
    ensures RemapOne(previous, current, h, word).Some? <==>
            && |previous| - RetainedOverlap(previous, current) <= h.startOffset
            && !(h.endOffset == |previous| && WordAt(current, RetainedOverlap(previous, current), word))
  {
    var overlap := RetainedOverlap(previous, current);
    var removed := |previous| - overlap;
    OverlapText(previous, current);
    if removed <= h.startOffset {
      var start, end := h.startOffset - removed, h.endOffset - removed;
      if start > 0 {
        assert current[..overlap][start - 1] == previous[removed..][start - 1] == previous[h.startOffset - 1];
      }
      if end < overlap {
        assert current[..overlap][end] == previous[removed..][end] == previous[h.endOffset];
      }
    }
  }

  /** out[k] is the migration of hints[from[k]], and from is strictly increasing. */
  ghost predicate MigratedFrom(previous: Text, current: Text, hints: seq<Hint>, word: WordUnit, out: seq<Hint>,
                               from: seq<nat>) {
    && |from| == |out|
    && (forall k | 0 <= k < |from| :: from[k] < |hints|
          && RemapOne(previous, current, hints[from[k]], word) == Some(out[k]))
    && (forall k, l | 0 <= k < l < |from| :: from[k] < from[l])
  }

  lemma {:induction false} RemapSources(previous: Text, current: Text, hints: seq<Hint>, word: WordUnit)
    returns (from: seq<nat>)
    ensures MigratedFrom(previous, current, hints, word, Remap(previous, current, hints, word), from)
  {
    hide RemapOne;
    if hints == [] {
      from := [];
    } else {
      var last := |hints| - 1;
      from := RemapSources(previous, current, hints[..last], word);
      if RemapOne(previous, current, hints[last], word).Some? {
        from := from + [last];
      }
    }
  }

  /** Every hint that can move is in the result. */
  lemma {:induction false} RemapComplete(previous: Text, current: Text, hints: seq<Hint>, word: WordUnit, i: nat)
    requires i < |hints| && RemapOne(previous, current, hints[i], word).Some?
    ensures RemapOne(previous, current, hints[i], word).value in Remap(previous, current, hints, word)
  {
    var last := |hints| - 1;
    if i < last {
      RemapComplete(previous, current, hints[..last], word, i);
      var rest := Remap(previous, current, hints[..last], word);
      var k :| 0 <= k < |rest| && rest[k] == RemapOne(previous, current, hints[i], word).value;
      assert Remap(previous, current, hints, word)[k] == rest[k];
    } else {
      var out := Remap(previous, current, hints, word);
      assert out[|out| - 1] == RemapOne(previous, current, hints[last], word).value;
    }
  }

  /** Each hint of the new text descends from a hint of the old text over the same words. */
  ghost predicate Descends(oldText: Text, prior: seq<Hint>, newText: Text, h: Hint) {
    exists i | 0 <= i < |prior| :: SameEvidence(h, prior[i]) && Slice(newText, h) == Slice(oldText, prior[i])
  }

  /** Migration keeps order, disjointness and version, and makes every survivor fit the new text. */
  lemma {:induction false} RemapDisplayable(previous: Text, current: Text, hints: seq<Hint>, word: WordUnit)
    requires forall i | 0 <= i < |hints| :: 0 <= hints[i].startOffset < hints[i].endOffset
    requires Ordered(hints) && OneVersion(hints)
    ensures Displayable(current, Remap(previous, current, hints, word), word)
    ensures forall h | h in Remap(previous, current, hints, word) :: Descends(previous, hints, current, h)
  {
    var out := Remap(previous, current, hints, word);
    var from := RemapSources(previous, current, hints, word);
    forall k | 0 <= k < |out|
      ensures Fits(current, out[k], word) && Descends(previous, hints, current, out[k])
    {
      RemapOneKeepsText(previous, current, hints[from[k]], word);
    }
    forall k, l | 0 <= k < l < |out|
      ensures out[k].endOffset <= out[l].startOffset && out[k].version == out[l].version
    {
      assert hints[from[k]].endOffset <= hints[from[l]].startOffset;
      assert hints[from[k]].version == hints[from[l]].version;
    }
  }

  // ---- The tracker --------------------------------------------------------------------------

  datatype Source = Source(caption: Text, lineBreaks: seq<int>, windowBreaks: seq<int>)

  datatype Info = Info(windowId: Option<string>, startMs: Option<int>, offsetMs: Option<int>)

  type Metadata = (Text, nat) -> Info

  datatype Tracker = Tracker(prefix: string, nextId: nat, previous: Snapshot)

  /** The old segments that reach past the removed prefix, the first of them possibly cut. */
  function Kept(segs: seq<Segment>, removed: nat): seq<Segment> {
    if segs == [] then []
    else
      var init, last := segs[..|segs| - 1], segs[|segs| - 1];
      var offset := |SegText(init)|;
      if offset + |last.text| > removed
      then Kept(init, removed) + [CutLeft(last, offset, removed)]
      else Kept(init, removed)
  }

  function SkipSpace(s: Text, i: nat, space: SpaceUnit): (j: nat)
    requires i <= |s|
    ensures i <= j <= |s|
    ensures j < |s| ==> !space(s[j])
    decreases |s| - i
  {
    if i < |s| && space(s[i]) then SkipSpace(s, i + 1, space) else i
  }

  function SkipWord(s: Text, i: nat, space: SpaceUnit): (j: nat)
    requires i <= |s|
    ensures i <= j <= |s|
    ensures j < |s| ==> space(s[j])
    ensures i < |s| && !space(s[i]) ==> j > i
    decreases |s| - i
  {
    if i < |s| && !space(s[i]) then SkipWord(s, i + 1, space) else i
  }

  /** Successive matches of the pattern "white space then a word, or trailing white space". */
  function Tokens(s: Text, space: SpaceUnit): seq<Text>
    decreases |s|
  {
    if s == [] then []
    else
      var end := FirstToken(s, space);
      [s[..end]] + Tokens(s[end..], space)
  }

  function FreshSegments(prefix: string, nextId: nat, tokens: seq<Text>): (segs: seq<Segment>)
    ensures |segs| == |tokens|
    ensures forall i | 0 <= i < |segs| :: segs[i] == Segment(Key(prefix, nextId + 1 + i), tokens[i], None, true, 0)
  {
    seq(|tokens|, i requires 0 <= i < |tokens| => Segment(Key(prefix, nextId + 1 + i), tokens[i], None, true, 0))
  }

  function CountBetween(breaks: seq<int>, low: int, high: int): (n: nat)
    ensures n <= |breaks|
  {
    if breaks == [] then 0
    else CountBetween(breaks[1..], low, high) + if low < breaks[0] <= high then 1 else 0
  }

  function CountUpTo(breaks: seq<int>, high: int): (n: nat)
    ensures n <= |breaks|
  {
    if breaks == [] then 0
    else CountUpTo(breaks[1..], high) + if breaks[0] <= high then 1 else 0
  }

  function WindowOf(source: Source, offset: nat): nat {
    CountUpTo(source.windowBreaks, offset)
  }

  function LineOf(source: Source, text: Text, offset: nat, space: SpaceUnit): nat {
    var window := WindowOf(source, offset);
    var windowStart := if window > 0 then source.windowBreaks[window - 1] + 1 else 0;
    CountBetween(source.lineBreaks, windowStart, offset + SkipSpace(text, 0, space))
  }

  function Place(s: Segment, offset: nat, source: Source, meta: Metadata, space: SpaceUnit): Segment {
    s.(line := LineOf(source, s.text, offset, space), offsetMs := meta(s.text, offset).offsetMs)
  }

  /** The next segment joins the last group unless its window or its metadata changed. */
  function AddSegment(captions: seq<Group>, lastWindow: int, s: Segment, offset: nat, source: Source, meta: Metadata,
                      space: SpaceUnit): seq<Group> {
    var info := meta(s.text, offset);
    var placed := Place(s, offset, source, meta, space);
    if captions == [] || WindowOf(source, offset) != lastWindow
       || captions[|captions| - 1].windowId != info.windowId || captions[|captions| - 1].startMs != info.startMs
    then captions + [Group(info.windowId, info.startMs, [placed])]
    else
      var last := captions[|captions| - 1];
      captions[..|captions| - 1] + [last.(segments := last.segments + [placed])]
  }

  function LastWindow(kept: seq<Segment>, source: Source): int {
    if kept == [] then -1 else WindowOf(source, |SegText(kept[..|kept| - 1])|)
  }

  function Layout(kept: seq<Segment>, source: Source, meta: Metadata, space: SpaceUnit): seq<Group> {
    if kept == [] then []
    else
      var init := kept[..|kept| - 1];
      AddSegment(Layout(init, source, meta, space), LastWindow(init, source), kept[|kept| - 1], |SegText(init)|,
          source, meta, space)
  }

  function Removed(t: Tracker, caption: Text): nat {
    |SnapshotText(t.previous)| - RetainedOverlap(SnapshotText(t.previous), caption)
  }

  /** The old segments that the new caption still shows. */
  function StillShown(t: Tracker, caption: Text): seq<Segment> {
    Kept(Segments(t.previous), Removed(t, caption))
  }

  /** The newly keyed tokens of the suffix that the old text did not have. */
  function NewSegments(t: Tracker, caption: Text, space: SpaceUnit): seq<Segment> {
    FreshSegments(t.prefix, t.nextId, Tokens(caption[RetainedOverlap(SnapshotText(t.previous), caption)..], space))
  }

  function NextSegments(t: Tracker, caption: Text, space: SpaceUnit): seq<Segment> {
    StillShown(t, caption) + NewSegments(t, caption, space)
  }

  function Capture(t: Tracker, source: Source, meta: Metadata, space: SpaceUnit): Tracker {
    Tracker(t.prefix, t.nextId + |NewSegments(t, source.caption, space)|,
            Snapshot(Layout(NextSegments(t, source.caption, space), source, meta, space)))
  }

  function ResetTracker(t: Tracker): Tracker {
    t.(previous := Snapshot([]))
  }

  // ---- Tokens and kept segments ---------------------------------------------------------------

  function ConcatTexts(ts: seq<Text>): Text {
    if ts == [] then [] else ts[0] + ConcatTexts(ts[1..])
  }

  function FirstToken(s: Text, space: SpaceUnit): (end: nat)
    requires s != []
    ensures 0 < end <= |s|
    ensures end < |s| ==> space(s[end])
  {
    SkipWord(s, SkipSpace(s, 0, space), space)
  }

  /** The tokenizer tiles its input with non-empty pieces. */
  lemma {:induction false} TokensTile(s: Text, space: SpaceUnit)
    ensures ConcatTexts(Tokens(s, space)) == s
    ensures forall i | 0 <= i < |Tokens(s, space)| :: Tokens(s, space)[i] != []
    decreases |s|
  {
    if s == [] {
    } else {
      var end := FirstToken(s, space);
      TokensTile(s[end..], space);
      var rest := Tokens(s[end..], space);
      assert Tokens(s, space) == [s[..end]] + rest;
      assert ([s[..end]] + rest)[1..] == rest;
      assert s[..end] + s[end..] == s;
    }
  }

  /** White space is no surrogate, so no token boundary splits a pair. */
  lemma {:induction false} TokensWellFormed(s: Text, space: SpaceUnit)
    requires SoundSpace(space) && WellFormed(s)
    ensures forall i | 0 <= i < |Tokens(s, space)| :: WellFormed(Tokens(s, space)[i])
    decreases |s|
  {
    if s == [] {
    } else {
      var end := FirstToken(s, space);
      SliceWellFormed(s, 0, end);
      SliceWellFormed(s, end, |s|);
      assert s[0..end] == s[..end] && s[end..|s|] == s[end..];
      TokensWellFormed(s[end..], space);
      assert Tokens(s, space) == [s[..end]] + Tokens(s[end..], space);
    }
  }

  lemma {:induction false} FreshText(prefix: string, nextId: nat, tokens: seq<Text>)
    ensures SegText(FreshSegments(prefix, nextId, tokens)) == ConcatTexts(tokens)
    decreases |tokens|
  {
    if tokens == [] {
    } else {
      var segs := FreshSegments(prefix, nextId, tokens);
      FreshText(prefix, nextId + 1, tokens[1..]);
      assert segs == [segs[0]] + FreshSegments(prefix, nextId + 1, tokens[1..]);
      SegTextAppend([segs[0]], segs[1..]);
      assert [segs[0]][..0] == [];
      assert SegText([segs[0]]) == SegText([segs[0]][..0]) + segs[0].text == tokens[0];
    }
  }

  /** tail is segs without its first drop segments and with the first remaining text cut on the left. */
  ghost predicate SuffixOf(tail: seq<Segment>, segs: seq<Segment>) {
    && |tail| <= |segs|
    && forall i | 0 <= i < |tail| ::
         var prior := segs[|segs| - |tail| + i];
         && tail[i].key == prior.key && EndsWith(prior.text, tail[i].text) && tail[i].text != []
         && (i > 0 ==> tail[i].text == prior.text)
  }

  function CutLeft(s: Segment, offset: nat, removed: nat): Segment
    requires offset + |s.text| > removed
  {
    s.(text := s.text[if removed > offset then removed - offset else 0..], append := false)
  }

  lemma {:induction false} DropConcat<T>(a: seq<T>, b: seq<T>, n: nat)
    requires n <= |a| + |b|
    ensures (a + b)[n..] == if n <= |a| then a[n..] + b else b[n - |a|..]
    ensures [] + b == b && b[0..] == b
  {
  }

  /** One more segment beyond the cut: its own cut text is what the longer text adds. */
  lemma {:induction false} KeptTextStep(kept: seq<Segment>, before: Text, last: Segment, removed: nat)
    requires removed <= |before| ==> SegText(kept) == before[removed..]
    requires removed > |before| ==> kept == []
    requires |before| + |last.text| > removed
    ensures SegText(kept + [CutLeft(last, |before|, removed)]) == (before + last.text)[removed..]
  {
    SegTextPush(kept, CutLeft(last, |before|, removed));
    if removed > |before| {
      assert kept == [] && SegText(kept) == [];
    }
    hide SegText;
    DropConcat(before, last.text, removed);
  }

  /** Keeping the segments beyond a cut keeps exactly the text beyond the cut. */
  lemma {:induction false} KeptText(segs: seq<Segment>, removed: nat)
    requires removed <= |SegText(segs)|
    ensures SegText(Kept(segs, removed)) == SegText(segs)[removed..]
  {
    if segs == [] {
    } else {
      var init, last := segs[..|segs| - 1], segs[|segs| - 1];
      var before := SegText(init);
      if removed <= |before| {
        KeptText(init, removed);
      } else {
        KeptNothing(init, removed);
      }
      if |before| + |last.text| > removed {
        KeptTextStep(Kept(init, removed), before, last, removed);
      }
    }
  }

  lemma {:induction false} SuffixStep(kept: seq<Segment>, init: seq<Segment>, cut: Segment, last: Segment)
    requires SuffixOf(kept, init)
    requires cut.key == last.key && EndsWith(last.text, cut.text) && cut.text != []
    requires kept != [] ==> cut.text == last.text
    ensures SuffixOf(kept + [cut], init + [last])
  {
    hide EndsWith;
    var tail, segs := kept + [cut], init + [last];
    assert |segs| - |tail| == |init| - |kept|;
    forall i | 0 <= i < |tail|
      ensures var prior := segs[|segs| - |tail| + i];
              && tail[i].key == prior.key && EndsWith(prior.text, tail[i].text) && tail[i].text != []
              && (i > 0 ==> tail[i].text == prior.text)
    {
      if i < |kept| {
        assert tail[i] == kept[i] && segs[|segs| - |tail| + i] == init[|init| - |kept| + i];
      }
    }
  }

  lemma {:induction false} KeptSuffix(segs: seq<Segment>, removed: nat)
    requires forall i | 0 <= i < |segs| :: segs[i].text != []
    ensures SuffixOf(Kept(segs, removed), segs)
  {
    if segs == [] {
    } else {
      var init, last := segs[..|segs| - 1], segs[|segs| - 1];
      var offset := |SegText(init)|;
      if removed < offset {
        KeptSuffix(init, removed);
      } else {
        KeptNothing(init, removed);
      }
      assert segs == init + [last];
      if offset + |last.text| > removed {
        SuffixStep(Kept(init, removed), init, CutLeft(last, offset, removed), last);
      }
    }
  }

  lemma {:induction false} KeptNothing(segs: seq<Segment>, removed: nat)
    requires removed >= |SegText(segs)|
    ensures Kept(segs, removed) == []
  {
    if segs == [] {
    } else {
      KeptNothing(segs[..|segs| - 1], removed);
    }
  }

  // ---- Layout ---------------------------------------------------------------------------------

  /** Layout decides lines and groups only: keys, texts and append marks are untouched. */
  ghost predicate SameTexts(a: seq<Segment>, b: seq<Segment>) {
    |a| == |b| && forall i | 0 <= i < |a| ::
        a[i].key == b[i].key && a[i].text == b[i].text && a[i].append == b[i].append
  }

  lemma {:induction false} SameTextsSegText(a: seq<Segment>, b: seq<Segment>)
    requires SameTexts(a, b)
    ensures SegText(a) == SegText(b)
    ensures KeySet(a) == KeySet(b)
  {
    if a == [] {
    } else {
      var c, x, d, y := a[..|a| - 1], a[|a| - 1], b[..|b| - 1], b[|b| - 1];
      assert a == c + [x] && b == d + [y] && SameTexts(c, d);
      SameTextsSegText(c, d);
      hide SegText, KeySet, SameTexts;
      SegTextPush(c, x);
      SegTextPush(d, y);
      KeySetAppend(c, x);
      KeySetAppend(d, y);
    }
  }

  ghost predicate ValidMetadata(meta: Metadata) {
    forall t, o :: ValidInfo(meta(t, o))
  }

  predicate ValidInfo(info: Info) {
    && (info.windowId.Some? ==> BoundedId(info.windowId.value))
    && (info.startMs.Some? ==> NonNegative(info.startMs.value))
    && (info.offsetMs.Some? ==> NonNegative(info.offsetMs.value))
  }

  lemma {:induction false} AddSegmentFlat(captions: seq<Group>, lastWindow: int, s: Segment, offset: nat,
                                          source: Source, meta: Metadata, space: SpaceUnit)
    requires NoEmptyGroup(captions)
    ensures var out := AddSegment(captions, lastWindow, s, offset, source, meta, space);
            && Flatten(out) == Flatten(captions) + [Place(s, offset, source, meta, space)]
            && NoEmptyGroup(out)
            && |out| <= |captions| + 1
  {
    hide Place, Flatten;
    var placed := Place(s, offset, source, meta, space);
    var info := meta(s.text, offset);
    FlattenAppend(captions, Group(info.windowId, info.startMs, [placed]));
    if captions != [] {
      FlattenJoin(captions, placed);
    }
  }

  lemma {:induction false} FlattenJoin(groups: seq<Group>, s: Segment)
    requires groups != []
    ensures var last := groups[|groups| - 1];
            Flatten(groups[..|groups| - 1] + [last.(segments := last.segments + [s])]) == Flatten(groups) + [s]
  {
    var init, last := groups[..|groups| - 1], groups[|groups| - 1];
    FlattenAppend(init, last.(segments := last.segments + [s]));
    ConcatAssociates(Flatten(init), last.segments, [s]);
  }

  ghost predicate NoEmptyGroup(groups: seq<Group>) {
    forall g | 0 <= g < |groups| :: groups[g].segments != []
  }

  lemma {:induction false} SameTextsStep(flat: seq<Segment>, init: seq<Segment>, placed: Segment, last: Segment)
    requires SameTexts(flat, init) && SameTexts([placed], [last])
    ensures SameTexts(flat + [placed], init + [last])
  {
    assert [placed][0] == placed && [last][0] == last;
  }

  lemma {:induction false} LayoutStep(kept: seq<Segment>, last: Segment, source: Source, meta: Metadata,
                                      space: SpaceUnit)
    requires SameTexts(Flatten(Layout(kept, source, meta, space)), kept)
    requires NoEmptyGroup(Layout(kept, source, meta, space)) && |Layout(kept, source, meta, space)| <= |kept|
    ensures var out := AddSegment(Layout(kept, source, meta, space), LastWindow(kept, source), last,
                                  |SegText(kept)|, source, meta, space);
            SameTexts(Flatten(out), kept + [last]) && NoEmptyGroup(out) && |out| <= |kept| + 1
  {
    var captions, offset := Layout(kept, source, meta, space), |SegText(kept)|;
    var placed := Place(last, offset, source, meta, space);
    assert SameTexts([placed], [last]);
    hide SameTexts, NoEmptyGroup, Flatten, Layout, AddSegment, SegText, Place, LastWindow;
    AddSegmentFlat(captions, LastWindow(kept, source), last, offset, source, meta, space);
    SameTextsStep(Flatten(captions), kept, placed, last);
  }

  lemma {:induction false} LayoutFlat(kept: seq<Segment>, source: Source, meta: Metadata, space: SpaceUnit)
    ensures SameTexts(Flatten(Layout(kept, source, meta, space)), kept)
    ensures NoEmptyGroup(Layout(kept, source, meta, space))
    ensures |Layout(kept, source, meta, space)| <= |kept|
  {
    hide AddSegment, LastWindow, Place, SegText;
    if kept == [] {
    } else {
      var init, last := kept[..|kept| - 1], kept[|kept| - 1];
      LayoutFlat(init, source, meta, space);
      LayoutStep(init, last, source, meta, space);
      hide SameTexts, NoEmptyGroup, Flatten;
      assert kept == init + [last];
    }
  }

  predicate PlacedWell(s: Segment) {
    NonNegative(s.line) && (s.offsetMs.Some? ==> NonNegative(s.offsetMs.value))
  }

  ghost predicate LaidOut(groups: seq<Group>) {
    && (forall g | 0 <= g < |groups| :: ValidGroup(groups[g]))
    && (forall i | 0 <= i < |Flatten(groups)| :: PlacedWell(Flatten(groups)[i]))
  }

  lemma {:induction false} AddSegmentValid(captions: seq<Group>, lastWindow: int, s: Segment, offset: nat,
                                           source: Source, meta: Metadata, space: SpaceUnit)
    requires ValidMetadata(meta) && |source.lineBreaks| <= MAX_SAFE_INTEGER
    requires LaidOut(captions)
    ensures LaidOut(AddSegment(captions, lastWindow, s, offset, source, meta, space))
  {
    AddSegmentFlat(captions, lastWindow, s, offset, source, meta, space);
    assert ValidInfo(meta(s.text, offset));
    assert PlacedWell(Place(s, offset, source, meta, space));
  }

  lemma {:induction false} LayoutValid(kept: seq<Segment>, source: Source, meta: Metadata, space: SpaceUnit)
    requires ValidMetadata(meta) && |source.lineBreaks| <= MAX_SAFE_INTEGER
    ensures LaidOut(Layout(kept, source, meta, space))
  {
    if kept == [] {
    } else {
      var init, last := kept[..|kept| - 1], kept[|kept| - 1];
      LayoutValid(init, source, meta, space);
      AddSegmentValid(Layout(init, source, meta, space), LastWindow(init, source), last, |SegText(init)|, source,
          meta, space);
    }
  }

  // ---- What a capture gives -------------------------------------------------------------------

  /** Keys of the segments are consecutive serials ending at the last one issued. */
  ghost predicate Tracking(t: Tracker) {
    KeyedUpTo(Segments(t.previous), t.prefix, t.nextId)
  }

  lemma {:induction false} NextSegmentsText(t: Tracker, caption: Text, space: SpaceUnit)
    ensures SegText(NextSegments(t, caption, space)) == caption
  {
    hide SegText, Kept, RetainedOverlap, Tokens, FreshSegments, Flatten;
    var overlap := RetainedOverlap(SnapshotText(t.previous), caption);
    KeptText(Segments(t.previous), Removed(t, caption));
    OverlapText(SnapshotText(t.previous), caption);
    FreshTiles(t.prefix, t.nextId, caption[overlap..], space);
    JoinAt(StillShown(t, caption), NewSegments(t, caption, space), caption, overlap);
  }

  lemma {:induction false} JoinAt(kept: seq<Segment>, added: seq<Segment>, caption: Text, n: nat)
    requires n <= |caption| && SegText(kept) == caption[..n] && SegText(added) == caption[n..]
    ensures SegText(kept + added) == caption
  {
    SegTextAppend(kept, added);
    assert caption == caption[..n] + caption[n..];
  }

  lemma {:induction false} FreshTiles(prefix: string, nextId: nat, suffix: Text, space: SpaceUnit)
    ensures SegText(FreshSegments(prefix, nextId, Tokens(suffix, space))) == suffix
  {
    TokensTile(suffix, space);
    FreshText(prefix, nextId, Tokens(suffix, space));
  }

  /** The segments of a captured snapshot tile the caption exactly. */
  lemma {:induction false} CaptureTiles(t: Tracker, source: Source, meta: Metadata, space: SpaceUnit)
    ensures SnapshotText(Capture(t, source, meta, space).previous) == source.caption
    ensures SameTexts(Segments(Capture(t, source, meta, space).previous), NextSegments(t, source.caption, space))
  {
    var next := NextSegments(t, source.caption, space);
    LayoutFlat(next, source, meta, space);
    SameTextsSegText(Flatten(Layout(next, source, meta, space)), next);
    NextSegmentsText(t, source.caption, space);
  }

  /** Consecutive serials of one prefix, the last of them id, over whole non-empty texts. */
  ghost predicate KeyedUpTo(segs: seq<Segment>, prefix: string, id: nat) {
    && |segs| <= id
    && (forall i | 0 <= i < |segs| :: segs[i].key == Key(prefix, id - |segs| + 1 + i))
    && (forall i | 0 <= i < |segs| :: segs[i].text != [] && WellFormed(segs[i].text))
  }

  lemma {:induction false} LaterTextsWhole(segs: seq<Segment>, kept: seq<Segment>)
    requires forall i | 0 <= i < |segs| :: WellFormed(segs[i].text)
    requires SuffixOf(kept, segs)
    ensures forall i | 0 < i < |kept| :: WellFormed(kept[i].text)
  {
    forall i | 0 < i < |kept|
      ensures WellFormed(kept[i].text)
    {
      assert kept[i].text == segs[|segs| - |kept| + i].text;
    }
  }

  lemma {:induction false} KeptWellFormed(segs: seq<Segment>, kept: seq<Segment>, all: Text, removed: nat)
    requires forall i | 0 <= i < |segs| :: WellFormed(segs[i].text)
    requires SuffixOf(kept, segs)
    requires WellFormed(all) && removed <= |all| && !SplitsSurrogate(all, removed) && SegText(kept) == all[removed..]
    ensures forall i | 0 <= i < |kept| :: WellFormed(kept[i].text)
  {
    LaterTextsWhole(segs, kept);
    if kept == [] {
    } else {
      SliceWellFormed(all, removed, |all|);
      assert all[removed..|all|] == SegText(kept);
      FirstKeptWellFormed(kept);
    }
  }

  lemma {:induction false} KeptKeyed(segs: seq<Segment>, removed: nat, prefix: string, id: nat)
    requires KeyedUpTo(segs, prefix, id) && removed <= |SegText(segs)| && !SplitsSurrogate(SegText(segs), removed)
    ensures KeyedUpTo(Kept(segs, removed), prefix, id)
  {
    KeptText(segs, removed);
    KeptSuffix(segs, removed);
    SegTextWellFormed(segs);
    KeptWellFormed(segs, Kept(segs, removed), SegText(segs), removed);
    SuffixKeyed(segs, Kept(segs, removed), prefix, id);
  }

  lemma {:induction false} SuffixKeyed(segs: seq<Segment>, kept: seq<Segment>, prefix: string, id: nat)
    requires KeyedUpTo(segs, prefix, id) && SuffixOf(kept, segs)
    requires forall i | 0 <= i < |kept| :: WellFormed(kept[i].text)
    ensures KeyedUpTo(kept, prefix, id)
  {
    forall i | 0 <= i < |kept|
      ensures kept[i].key == Key(prefix, id - |kept| + 1 + i)
    {
      assert kept[i].key == segs[|segs| - |kept| + i].key;
    }
  }

  lemma {:induction false} FreshKeyed(kept: seq<Segment>, prefix: string, id: nat, suffix: Text, space: SpaceUnit)
    requires KeyedUpTo(kept, prefix, id) && SoundSpace(space) && WellFormed(suffix)
    ensures KeyedUpTo(kept + FreshSegments(prefix, id, Tokens(suffix, space)), prefix, id + |Tokens(suffix, space)|)
  {
    TokensTile(suffix, space);
    TokensWellFormed(suffix, space);
  }

  lemma {:induction false} NextSegmentsKeyed(t: Tracker, caption: Text, space: SpaceUnit)
    requires Tracking(t) && SoundSpace(space) && WellFormed(caption)
    ensures KeyedUpTo(NextSegments(t, caption, space), t.prefix, t.nextId + |NewSegments(t, caption, space)|)
  {
    var oldText := SnapshotText(t.previous);
    var overlap := RetainedOverlap(oldText, caption);
    OverlapEnds(oldText, caption);
    KeptKeyed(Segments(t.previous), Removed(t, caption), t.prefix, t.nextId);
    SliceWellFormed(caption, overlap, |caption|);
    assert caption[overlap..|caption|] == caption[overlap..];
    FreshKeyed(StillShown(t, caption), t.prefix, t.nextId, caption[overlap..], space);
  }

  /** The first text of a well-formed run is well formed when all the later ones are. */
  lemma {:induction false} FirstKeptWellFormed(kept: seq<Segment>)
    requires kept != [] && WellFormed(SegText(kept))
    requires forall i | 0 < i < |kept| :: WellFormed(kept[i].text)
    ensures WellFormed(kept[0].text)
  {
    var rest := kept[1..];
    assert kept == [kept[0]] + rest;
    SegTextAppend([kept[0]], rest);
    assert [kept[0]][..0] == [];
    assert SegText([kept[0]]) == SegText([kept[0]][..0]) + kept[0].text == kept[0].text;
    SegTextWellFormed(rest);
    var n := |kept[0].text|;
    var all := SegText(kept);
    if rest != [] && SegText(rest) != [] {
      assert Paired(SegText(rest), 0);
    }
    SliceWellFormed(all, 0, n);
    assert all[0..n] == kept[0].text;
  }

  lemma {:induction false} CaptureTracking(t: Tracker, source: Source, meta: Metadata, space: SpaceUnit)
    requires Tracking(t) && SoundSpace(space) && WellFormed(source.caption)
    ensures Tracking(Capture(t, source, meta, space))
  {
    NextSegmentsKeyed(t, source.caption, space);
    CaptureTiles(t, source, meta, space);
  }

  ghost predicate ValidSource(source: Source) {
    && source.caption != [] && |source.caption| <= MAX_CAPTION_LENGTH
    && WellFormed(source.caption)
    && |source.lineBreaks| <= |source.caption|
  }

  /** The key of every serial up to the safe-integer limit is a bounded id under a UUID-sized prefix. */
  lemma {:induction false} KeyBounded(k: Key)
    requires |k.prefix| <= 100 && k.serial <= MAX_SAFE_INTEGER
    ensures BoundedId(k.Render())
  {
    assert Pow10(8) == 100000000;
    assert Pow10(16) == 100000000 * Pow10(8);
    DecimalLength(k.serial, 16);
  }

  /** Every captured snapshot is legal on the wire: bounded unique keys, whole code points, 500 units. */
  lemma {:induction false} CaptureValid(t: Tracker, source: Source, meta: Metadata, space: SpaceUnit)
    requires Tracking(t) && SoundSpace(space) && ValidSource(source) && ValidMetadata(meta)
    requires |t.prefix| <= 100 && Capture(t, source, meta, space).nextId <= MAX_SAFE_INTEGER
    ensures ValidSnapshot(Capture(t, source, meta, space).previous)
  {
    var t' := Capture(t, source, meta, space);
    var segs := Segments(t'.previous);
    var next := NextSegments(t, source.caption, space);
    CaptureTracking(t, source, meta, space);
    CaptureTiles(t, source, meta, space);
    LayoutFlat(next, source, meta, space);
    LayoutValid(next, source, meta, space);
    ShortTextFewSegments(segs);
    forall i | 0 <= i < |segs|
      ensures ValidSegment(segs[i])
    {
      KeyBounded(segs[i].key);
      LoneSurrogateScan(segs[i].text);
    }
  }

  // ---- How snapshots follow one another -------------------------------------------------------

  /** A non-empty run of segments whose keys are consecutive serials of one prefix. */
  ghost predicate KeyRun(segs: seq<Segment>) {
    && segs != []
    && forall i | 0 <= i < |segs| :: segs[i].key == Key(segs[0].key.prefix, segs[0].key.serial + i)
  }

  function Low(segs: seq<Segment>): nat
    requires segs != []
  {
    segs[0].key.serial
  }

  /**
   * b shows a later window of the same stream of keys: both ends moved forward, and a key shown by
   * both has in b a suffix of its text in a.
   */
  ghost predicate Advances(a: seq<Segment>, b: seq<Segment>) {
    && KeyRun(a) && KeyRun(b) && a[0].key.prefix == b[0].key.prefix
    && Low(a) <= Low(b) && Low(a) + |a| <= Low(b) + |b|
    && forall j | 0 <= j < |b| && Low(b) + j < Low(a) + |a| :: EndsWith(a[Low(b) + j - Low(a)].text, b[j].text)
  }

  lemma {:induction false} AdvancesReflexive(a: seq<Segment>)
    requires KeyRun(a)
    ensures Advances(a, a)
  {
  }

  lemma {:induction false} AdvancesTransitive(a: seq<Segment>, b: seq<Segment>, c: seq<Segment>)
    requires Advances(a, b) && Advances(b, c)
    ensures Advances(a, c)
  {
    forall k | 0 <= k < |c| && Low(c) + k < Low(a) + |a|
      ensures EndsWith(a[Low(c) + k - Low(a)].text, c[k].text)
    {
      var j := Low(c) + k - Low(b);
      assert EndsWith(a[Low(b) + j - Low(a)].text, b[j].text);
      EndsWithTransitive(a[Low(c) + k - Low(a)].text, b[j].text, c[k].text);
    }
  }

  lemma {:induction false} RunKey(segs: seq<Segment>, key: Key)
    requires KeyRun(segs)
    ensures key in KeySet(segs) <==> key.prefix == segs[0].key.prefix && Low(segs) <= key.serial < Low(segs) + |segs|
  {
    if key.prefix == segs[0].key.prefix && Low(segs) <= key.serial < Low(segs) + |segs| {
      assert segs[key.serial - Low(segs)].key == key;
    }
  }

  /** A key that an earlier and a later window share is in every window between them. */
  lemma {:induction false} SharedKeyBetween(a: seq<Segment>, b: seq<Segment>, c: seq<Segment>, key: Key)
    requires Advances(a, b) && Advances(b, c)
    requires key in KeySet(a) && key in KeySet(c)
    ensures key in KeySet(b)
  {
    RunKey(a, key);
    RunKey(b, key);
    RunKey(c, key);
  }

  lemma {:induction false} RunDistinct(segs: seq<Segment>)
    requires KeyRun(segs)
    ensures DistinctKeys(segs)
  {
  }

  /** segs was captured earlier by a tracker that is now in state t. */
  ghost predicate Behind(segs: seq<Segment>, t: Tracker) {
    var latest := Segments(t.previous);
    && KeyRun(segs) && segs[0].key.prefix == t.prefix
    && Low(segs) + |segs| <= t.nextId + 1
    && (latest != [] ==> Advances(segs, latest))
  }

  /** The snapshot just captured is itself behind the tracker, and is the latest one. */
  lemma {:induction false} LatestBehind(t: Tracker)
    requires Tracking(t) && Segments(t.previous) != []
    ensures Behind(Segments(t.previous), t)
  {
  }

  lemma {:induction false} ResetBehind(segs: seq<Segment>, t: Tracker)
    requires Behind(segs, t)
    ensures Behind(segs, ResetTracker(t)) && Tracking(ResetTracker(t))
  {
  }

  /** A capture moves the window on: whatever was behind the tracker still is. */
  lemma {:induction false} CaptureBehind(segs: seq<Segment>, t: Tracker, source: Source, meta: Metadata,
                                         space: SpaceUnit)
    requires Tracking(t) && SoundSpace(space) && WellFormed(source.caption) && Behind(segs, t)
    ensures Behind(segs, Capture(t, source, meta, space))
  {
    var t' := Capture(t, source, meta, space);
    var prior, later := Segments(t.previous), Segments(t'.previous);
    CaptureTracking(t, source, meta, space);
    if later != [] {
      if prior != [] {
        CaptureAdvances(t, source, meta, space);
        AdvancesTransitive(segs, prior, later);
      } else {
        CaptureTiles(t, source, meta, space);
      }
    }
  }

  /** A suffix of the prior segments followed by newly numbered ones shows a later window. */
  lemma {:induction false} WindowAdvances(prior: seq<Segment>, later: seq<Segment>, kept: seq<Segment>,
                                          prefix: string, id: nat, id': nat)
    requires prior != [] && later != []
    requires KeyedUpTo(prior, prefix, id) && KeyedUpTo(later, prefix, id')
    requires SuffixOf(kept, prior) && id' - id == |later| - |kept| >= 0
    requires forall j | 0 <= j < |kept| :: later[j].text == kept[j].text
    ensures Advances(prior, later)
  {
    forall j | 0 <= j < |later| && Low(later) + j < Low(prior) + |prior|
      ensures EndsWith(prior[Low(later) + j - Low(prior)].text, later[j].text)
    {
      assert j < |kept|;
      assert kept[j].key == prior[|prior| - |kept| + j].key;
    }
  }

  /** A captured snapshot is the segments still shown, then one per new serial. */
  lemma {:induction false} CaptureKept(t: Tracker, source: Source, meta: Metadata, space: SpaceUnit)
    ensures var t', kept := Capture(t, source, meta, space), StillShown(t, source.caption);
            && t'.nextId - t.nextId == |Segments(t'.previous)| - |kept| >= 0
            && forall j | 0 <= j < |kept| :: Segments(t'.previous)[j].text == kept[j].text
  {
    CaptureTiles(t, source, meta, space);
    KeptFirst(Segments(Capture(t, source, meta, space).previous), StillShown(t, source.caption),
        NewSegments(t, source.caption, space));
  }

  lemma {:induction false} KeptFirst(segs: seq<Segment>, kept: seq<Segment>, arrived: seq<Segment>)
    requires SameTexts(segs, kept + arrived)
    ensures |segs| == |kept| + |arrived|
    ensures forall j | 0 <= j < |kept| :: segs[j].text == kept[j].text
  {
  }

  /** Consecutive captures: the new snapshot shows a later window than the old one. */
  lemma {:induction false} CaptureAdvances(t: Tracker, source: Source, meta: Metadata, space: SpaceUnit)
    requires Tracking(t) && SoundSpace(space) && WellFormed(source.caption)
    requires Segments(t.previous) != [] && Segments(Capture(t, source, meta, space).previous) != []
    ensures Advances(Segments(t.previous), Segments(Capture(t, source, meta, space).previous))
  {
    var t' := Capture(t, source, meta, space);
    CaptureTracking(t, source, meta, space);
    KeptSuffix(Segments(t.previous), Removed(t, source.caption));
    CaptureKept(t, source, meta, space);
    WindowAdvances(Segments(t.previous), Segments(t'.previous), StillShown(t, source.caption), t.prefix, t.nextId,
        t'.nextId);
  }

  // ---- The tracker object ---------------------------------------------------------------------

  /** Serial counter and latest snapshot of one page; capture updates both in place. */
  class CaptionSnapshotTracker {
    const prefix: string
    const space: SpaceUnit
    var nextId: nat
    var previous: Snapshot

    ghost function State(): Tracker
      reads this
    {
      Tracker(prefix, nextId, previous)
    }

    constructor (prefix: string, space: SpaceUnit)
      ensures State() == Tracker(prefix, 0, Snapshot([])) && this.space == space
      ensures Tracking(State())
    {
      this.prefix, this.space := prefix, space;
      nextId, previous := 0, Snapshot([]);
    }

    method Reset()
      modifies this`previous
      ensures State() == ResetTracker(old(State()))
    {
      previous := Snapshot([]);
    }

    method CaptureSource(source: Source, meta: Metadata) returns (snapshot: Snapshot)
      modifies this
      ensures State() == Capture(old(State()), source, meta, space)
      ensures snapshot == previous
    {
      var overlap := FindRetainedOverlap(SnapshotText(previous), source.caption);
      var kept := KeepShown(source.caption, overlap);
      var next := NumberTokens(kept, Tokens(source.caption[overlap..], space));
      var captions := GroupSegments(next, source, meta);
      previous := Snapshot(captions);
      snapshot := previous;
    }

    method KeepShown(caption: Text, overlap: nat) returns (kept: seq<Segment>)
      requires overlap == RetainedOverlap(SnapshotText(previous), caption)
      ensures kept == StillShown(State(), caption)
    {
      var oldText := SnapshotText(previous);
      kept := KeepSegments(Segments(previous), |oldText| - overlap);
      if overlap == 0 {
        KeptNothing(Segments(previous), |oldText|);
        kept := [];
      }
    }

    method NumberTokens(kept: seq<Segment>, tokens: seq<Text>) returns (next: seq<Segment>)
      modifies this`nextId
      ensures nextId == old(nextId) + |tokens|
      ensures next == kept + FreshSegments(prefix, old(nextId), tokens)
    {
      next := kept;
      ghost var numbered := FreshSegments(prefix, nextId, tokens);
      for i := 0 to |tokens|
        invariant nextId == old(nextId) + i
        invariant next == kept + numbered[..i]
      {
        nextId := nextId + 1;
        next := next + [Segment(Key(prefix, nextId), tokens[i], None, true, 0)];
      }
      assert numbered[..|tokens|] == numbered;
    }

    method KeepSegments(segs: seq<Segment>, removed: nat) returns (kept: seq<Segment>)
      ensures kept == Kept(segs, removed)
    {
      kept := [];
      var offset := 0;
      for i := 0 to |segs|
        invariant offset == |SegText(segs[..i])|
        invariant kept == Kept(segs[..i], removed)
      {
        assert segs[..i + 1][..i] == segs[..i];
        var end := offset + |segs[i].text|;
        if end > removed {
          kept := kept + [CutLeft(segs[i], offset, removed)];
        }
        offset := end;
      }
      assert segs[..|segs|] == segs;
    }

    method GroupSegments(kept: seq<Segment>, source: Source, meta: Metadata) returns (captions: seq<Group>)
      ensures captions == Layout(kept, source, meta, space)
    {
      captions := [];
      var offset, lastWindow: int := 0, -1;
      for i := 0 to |kept|
        invariant offset == |SegText(kept[..i])|
        invariant lastWindow == LastWindow(kept[..i], source)
        invariant captions == Layout(kept[..i], source, meta, space)
      {
        assert kept[..i + 1][..i] == kept[..i];
        captions := AddSegment(captions, lastWindow, kept[i], offset, source, meta, space);
        lastWindow := WindowOf(source, offset);
        offset := offset + |kept[i].text|;
      }
      assert kept[..|kept|] == kept;
    }
  }
}
