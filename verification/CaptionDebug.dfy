/** The text shown for newly processed ranges of a caption line, glosses inserted (caption-debug.ts). */
module CaptionDebug {
  import opened Utf16
  import opened Sorting
  import opened Wrappers

  const DEBUG_LIMIT := 16384

  datatype Gloss = Gloss(startOffset: int, endOffset: int, text: Text)

  datatype Line = Line(start: int, end: int, caption: Text, hints: seq<Gloss>)

  datatype Range = Range(start: int, end: int)

  function Min(a: int, b: int): int {
    if a < b then a else b
  }

  function Max(a: int, b: int): int {
    if a < b then b else a
  }

  // ---- The slice to show ----------------------------------------------------------------------

  /** Both ends move out to the hint they would cut. */
  function Widen(line: Line, r: Range, h: Gloss): Range {
    var start := if h.startOffset < r.start && h.endOffset > r.start then Max(line.start, h.startOffset) else r.start;
    Range(start, if h.startOffset < r.end && h.endOffset > r.end then Min(line.end, h.endOffset) else r.end)
  }

  function WidenAll(line: Line, r: Range, n: nat): Range
    requires n <= |line.hints|
  {
    if n == 0 then r else Widen(line, WidenAll(line, r, n - 1), line.hints[n - 1])
  }

  function Clip(line: Line, r: Range): Range {
    Range(Max(line.start, r.start), Min(line.end, r.end))
  }

  /** The part of the line shown for a range. */
  function Shown(line: Line, r: Range): Range {
    WidenAll(line, Clip(line, r), |line.hints|)
  }

  // ---- The hints inside it, in order ----------------------------------------------------------

  predicate Inside(r: Range, h: Gloss) {
    h.startOffset >= r.start && h.endOffset <= r.end
  }

  function Inner(hints: seq<Gloss>, r: Range): seq<Gloss> {
    if hints == [] then []
    else
      var last := hints[|hints| - 1];
      Inner(hints[..|hints| - 1], r) + if Inside(r, last) then [last] else []
  }

  predicate StartsNoLater(a: Gloss, b: Gloss) {
    a.startOffset <= b.startOffset
  }

  function Ordered(hints: seq<Gloss>, r: Range): seq<Gloss> {
    Sort(Inner(hints, r), StartsNoLater)
  }

  // ---- The annotated text ---------------------------------------------------------------------

  datatype Part = Plain(text: Text) | Note(text: Text)

  /** The slice method of strings, for offsets that are not negative. */
  function Slice(t: Text, from: int, to: int): Text {
    var a, b := Min(Max(from, 0), |t|), Min(Max(to, 0), |t|);
    if a <= b then t[a..b] else []
  }

  function Cursor(hs: seq<Gloss>, start: int): int {
    if hs == [] then start else hs[|hs| - 1].endOffset
  }

  function Annotated(line: Line, start: int, hs: seq<Gloss>): seq<Part> {
    if hs == [] then []
    else
      var before, last := hs[..|hs| - 1], hs[|hs| - 1];
      Annotated(line, start, before)
      + [Plain(Slice(line.caption, Cursor(before, start) - line.start, last.endOffset - line.start)), Note(last.text)]
  }

  function Piece(line: Line, r: Range): seq<Part> {
    var shown := Shown(line, r);
    var hs := Ordered(line.hints, shown);
    Annotated(line, shown.start, hs) + [Plain(Slice(line.caption, Cursor(hs, shown.start) - line.start,
        shown.end - line.start))]
  }

  function Render(parts: seq<Part>): Text {
    if parts == [] then []
    else
      var last := parts[|parts| - 1];
      Render(parts[..|parts| - 1]) + if last.Plain? then last.text else [OPEN] + last.text + [CLOSE]
  }

  const OPEN: CodeUnit := 0x28
  const CLOSE: CodeUnit := 0x29
  const NEWLINE: CodeUnit := 0x0A

  /** The text with every gloss deleted. */
  function Bare(parts: seq<Part>): Text {
    if parts == [] then []
    else Bare(parts[..|parts| - 1]) + if parts[|parts| - 1].Plain? then parts[|parts| - 1].text else []
  }

  // ---- Disjoint hints inside the line ---------------------------------------------------------

  ghost predicate Apart(a: Gloss, b: Gloss) {
    a.endOffset <= b.startOffset || b.endOffset <= a.startOffset
  }

  ghost predicate WellPlaced(line: Line) {
    && line.start <= line.end && |line.caption| == line.end - line.start
    && (forall i | 0 <= i < |line.hints| ::
          line.start <= line.hints[i].startOffset < line.hints[i].endOffset <= line.end)
    && forall i, j | 0 <= i < j < |line.hints| :: Apart(line.hints[i], line.hints[j])
  }

  /** The offset cuts the hint in two. */
  predicate Cuts(offset: int, h: Gloss) {
    h.startOffset < offset < h.endOffset
  }

  ghost predicate WidenedWell(line: Line, r: Range, n: nat, w: Range)
    requires n <= |line.hints|
  {
    && line.start <= w.start <= r.start && r.end <= w.end <= line.end
    && (w.start == r.start || exists k | 0 <= k < n ::
        line.hints[k].startOffset == w.start && Cuts(r.start, line.hints[k]))
    && (w.end == r.end || exists k | 0 <= k < n :: line.hints[k].endOffset == w.end && Cuts(r.end, line.hints[k]))
    && forall k | 0 <= k < n :: !Cuts(w.start, line.hints[k]) && !Cuts(w.end, line.hints[k])
  }

  /** Moving an end out to the hint it cuts leaves no hint cut: the others are disjoint from that one. */
  lemma {:induction false} WidenStep(line: Line, r: Range, n: nat, w: Range)
    requires WellPlaced(line) && n < |line.hints| && WidenedWell(line, r, n, w)
    ensures WidenedWell(line, r, n + 1, Widen(line, w, line.hints[n]))
  {
    var h, w' := line.hints[n], Widen(line, w, line.hints[n]);
    forall k | 0 <= k < n
      ensures Apart(line.hints[k], h)
    {
    }
    if w'.start != w.start {
      assert w'.start == h.startOffset && Cuts(w.start, h);
      assert w.start == r.start;
    }
    if w'.end != w.end {
      assert w'.end == h.endOffset && Cuts(w.end, h);
      assert w.end == r.end;
    }
  }

  lemma {:induction false} WidenAllWell(line: Line, r: Range, n: nat)
    requires WellPlaced(line) && n <= |line.hints| && line.start <= r.start && r.end <= line.end
    ensures WidenedWell(line, r, n, WidenAll(line, r, n))
    decreases n
  {
    hide WellPlaced, Widen;
    if n == 0 {
    } else {
      WidenAllWell(line, r, n - 1);
      WidenStep(line, r, n - 1, WidenAll(line, r, n - 1));
    }
  }

  /** What is shown holds the new range, and every hint is wholly in it or wholly outside it. */
  lemma {:induction false} ShownWhole(line: Line, r: Range, k: nat)
    requires WellPlaced(line) && r.start < line.end && line.start < r.end && k < |line.hints|
    ensures var w, clip := Shown(line, r), Clip(line, r);
            && line.start <= w.start <= clip.start && clip.end <= w.end <= line.end
            && (Inside(w, line.hints[k]) || line.hints[k].endOffset <= w.start || w.end <= line.hints[k].startOffset)
  {
    hide WidenAll;
    WidenAllWell(line, Clip(line, r), |line.hints|);
    assert !Cuts(Shown(line, r).start, line.hints[k]);
  }

  // ---- The glosses stand behind their words ---------------------------------------------------

  ghost predicate Chained(hs: seq<Gloss>) {
    forall i, j | 0 <= i < j < |hs| :: hs[i].endOffset <= hs[j].startOffset
  }

  ghost predicate Proper(hs: seq<Gloss>) {
    forall i | 0 <= i < |hs| :: hs[i].startOffset < hs[i].endOffset
  }

  predicate EndsBefore(a: Gloss, b: Gloss) {
    a.endOffset <= b.startOffset
  }

  ghost predicate Disjoint(hs: seq<Gloss>) {
    forall i, j | 0 <= i < j < |hs| :: Apart(hs[i], hs[j])
  }

  lemma {:induction false} InnerTimes(hints: seq<Gloss>, r: Range, h: Gloss)
    ensures multiset(Inner(hints, r))[h] == if Inside(r, h) then multiset(hints)[h] else 0
    decreases |hints|
  {
    hide Inside;
    if hints == [] {
    } else {
      var init, last := hints[..|hints| - 1], hints[|hints| - 1];
      InnerTimes(init, r, h);
      assert hints == init + [last];
    }
  }

  lemma {:induction false} InnerFrom(hints: seq<Gloss>, r: Range, i: nat)
    requires i < |Inner(hints, r)|
    ensures exists k | 0 <= k < |hints| :: hints[k] == Inner(hints, r)[i]
  {
    hide Inside;
    if hints == [] {
    } else {
      var init, last := hints[..|hints| - 1], hints[|hints| - 1];
      if i < |Inner(init, r)| {
        InnerFrom(init, r, i);
        var k :| 0 <= k < |init| && init[k] == Inner(init, r)[i];
        assert hints[k] == init[k];
      } else {
        assert hints[|hints| - 1] == last;
      }
    }
  }

  lemma {:induction false} DisjointInit(hints: seq<Gloss>)
    requires hints != [] && Disjoint(hints)
    ensures Disjoint(hints[..|hints| - 1])
  {
    hide Apart;
  }

  lemma {:induction false} DisjointPush(hs: seq<Gloss>, h: Gloss)
    requires Disjoint(hs) && forall i | 0 <= i < |hs| :: Apart(hs[i], h)
    ensures Disjoint(hs + [h])
  {
    hide Apart;
  }

  lemma {:induction false} InnerDisjoint(hints: seq<Gloss>, r: Range)
    requires Disjoint(hints)
    ensures Disjoint(Inner(hints, r))
    decreases |hints|
  {
    hide Inside, Apart;
    if hints == [] {
    } else {
      var init, last := hints[..|hints| - 1], hints[|hints| - 1];
      DisjointInit(hints);
      InnerDisjoint(init, r);
      forall i | 0 <= i < |Inner(init, r)|
        ensures Apart(Inner(init, r)[i], last)
      {
        InnerFrom(init, r, i);
        var k :| 0 <= k < |init| && init[k] == Inner(init, r)[i];
        assert Apart(hints[k], hints[|hints| - 1]);
      }
      hide Disjoint;
      DisjointPush(Inner(init, r), last);
    }
  }

  lemma {:induction false} InnerWell(hints: seq<Gloss>, r: Range)
    requires Proper(hints) && Disjoint(hints)
    ensures Proper(Inner(hints, r)) && Disjoint(Inner(hints, r))
    ensures forall h: Gloss :: multiset(Inner(hints, r))[h] == if Inside(r, h) then multiset(hints)[h] else 0
  {
    hide Inside, Disjoint, Inner;
    InnerDisjoint(hints, r);
    forall i | 0 <= i < |Inner(hints, r)|
      ensures Inner(hints, r)[i].startOffset < Inner(hints, r)[i].endOffset
    {
      InnerFrom(hints, r, i);
    }
    forall h: Gloss
      ensures multiset(Inner(hints, r))[h] == if Inside(r, h) then multiset(hints)[h] else 0
    {
      InnerTimes(hints, r, h);
    }
  }

  lemma {:induction false} DisjointSorts(hs: seq<Gloss>)
    requires Proper(hs) && Disjoint(hs)
    ensures Chained(Sort(hs, StartsNoLater)) && Proper(Sort(hs, StartsNoLater))
  {
    hide Sort;
    var sorted := Sort(hs, StartsNoLater);
    forall i, j | 0 <= i < j < |hs|
      ensures Sided(hs[i], hs[j], StartsNoLater, EndsBefore)
    {
      assert Apart(hs[i], hs[j]);
    }
    forall a, b, c | a in hs && b in hs && c in hs
      ensures Chains(a, b, c, EndsBefore)
    {
      assert b.startOffset < b.endOffset;
    }
    SortPairwise(hs, StartsNoLater, EndsBefore);
    forall i, j | 0 <= i < j < |sorted|
      ensures sorted[i].endOffset <= sorted[j].startOffset
    {
      assert EndsBefore(sorted[i], sorted[j]);
    }
    forall i | 0 <= i < |sorted|
      ensures sorted[i].startOffset < sorted[i].endOffset
    {
      SortHolds(hs, StartsNoLater, sorted[i]);
    }
  }

  ghost predicate OrderedWell(hints: seq<Gloss>, r: Range, hs: seq<Gloss>) {
    && Chained(hs) && Proper(hs)
    && forall h: Gloss :: multiset(hs)[h] == if Inside(r, h) then multiset(hints)[h] else 0
  }

  lemma {:induction false} OrderedChained(line: Line, r: Range)
    requires WellPlaced(line)
    ensures OrderedWell(line.hints, r, Ordered(line.hints, r))
  {
    hide Inside, Apart, Sort, Chained, Inner;
    InnerWell(line.hints, r);
    DisjointSorts(Inner(line.hints, r));
    SortMembers(Inner(line.hints, r), StartsNoLater);
  }

  /** The hints handed to the annotation: a chain between from and to, inside the line. */
  ghost predicate Threaded(line: Line, from: int, to: int, hs: seq<Gloss>) {
    && Chained(hs) && Proper(hs) && line.start <= from <= to <= line.end && |line.caption| == line.end - line.start
    && forall i | 0 <= i < |hs| :: from <= hs[i].startOffset && hs[i].endOffset <= to
  }

  lemma {:induction false} BarePlain(parts: seq<Part>, t: Text)
    ensures Bare(parts + [Plain(t)]) == Bare(parts) + t
  {
    assert (parts + [Plain(t)])[..|parts|] == parts;
  }

  lemma {:induction false} BareNote(parts: seq<Part>, t: Text)
    ensures Bare(parts + [Note(t)]) == Bare(parts)
  {
    assert (parts + [Note(t)])[..|parts|] == parts;
  }

  /** The last hint of a chain: its slice starts where the one before ended. */
  lemma {:induction false} ThreadedLast(line: Line, from: int, to: int, hs: seq<Gloss>)
    requires Threaded(line, from, to, hs) && hs != []
    ensures Threaded(line, from, to, hs[..|hs| - 1])
    ensures from <= Cursor(hs[..|hs| - 1], from) <= hs[|hs| - 1].endOffset <= to
  {
  }

  lemma {:induction false} SliceJoins(line: Line, a: int, b: int, c: int)
    requires |line.caption| == line.end - line.start && line.start <= a <= b <= c <= line.end
    ensures line.caption[a - line.start..b - line.start] + Slice(line.caption, b - line.start, c - line.start)
            == line.caption[a - line.start..c - line.start]
  {
  }

  lemma {:induction false} AnnotatedBare(line: Line, from: int, to: int, hs: seq<Gloss>)
    requires Threaded(line, from, to, hs)
    ensures from <= Cursor(hs, from) <= to
    ensures Bare(Annotated(line, from, hs)) == line.caption[from - line.start..Cursor(hs, from) - line.start]
    decreases |hs|, 0
  {
    hide Bare, Slice;
    if hs == [] {
      NothingBare();
    } else {
      var last := hs[|hs| - 1];
      var parts := Annotated(line, from, hs);
      LastSlice(line, from, to, hs);
      BareNote(parts[..|parts| - 1], last.text);
      assert parts == parts[..|parts| - 1] + [Note(last.text)];
    }
  }

  lemma {:induction false} NothingBare()
    ensures Bare([]) == []
  {
  }

  /** Up to the gloss of the last hint: the caption up to the end of that hint. */
  lemma {:induction false} LastSlice(line: Line, from: int, to: int, hs: seq<Gloss>)
    requires Threaded(line, from, to, hs) && hs != []
    ensures from <= hs[|hs| - 1].endOffset <= to
    ensures var parts := Annotated(line, from, hs);
            Bare(parts[..|parts| - 1]) == line.caption[from - line.start..hs[|hs| - 1].endOffset - line.start]
    decreases |hs| - 1, 1
  {
    hide Bare, Slice, Chained, Proper;
    var init, last := hs[..|hs| - 1], hs[|hs| - 1];
    ThreadedLast(line, from, to, hs);
    AnnotatedBare(line, from, to, init);
    var before, slice := Annotated(line, from, init),
        Slice(line.caption, Cursor(init, from) - line.start, last.endOffset - line.start);
    var parts := Annotated(line, from, hs);
    BarePlain(before, slice);
    SliceJoins(line, from, Cursor(init, from), last.endOffset);
    assert parts[..|parts| - 1] == before + [Plain(slice)];
  }

  /** Each gloss follows the text up to the end of its hint. */
  lemma {:induction false} NoteBehind(line: Line, from: int, to: int, hs: seq<Gloss>, i: nat)
    requires Threaded(line, from, to, hs) && i < |hs|
    ensures var parts := Annotated(line, from, hs);
            && |parts| == 2 * |hs| && parts[2 * i + 1] == Note(hs[i].text) && from <= hs[i].endOffset <= to
            && Bare(parts[..2 * i + 1]) == line.caption[from - line.start..hs[i].endOffset - line.start]
    decreases |hs|
  {
    hide Bare, Slice, Chained, Proper;
    var init, parts := hs[..|hs| - 1], Annotated(line, from, hs);
    AnnotatedLength(line, from, hs);
    AnnotatedLength(line, from, init);
    if i < |init| {
      ThreadedLast(line, from, to, hs);
      NoteBehind(line, from, to, init, i);
      assert parts[..2 * i + 1] == Annotated(line, from, init)[..2 * i + 1];
    } else {
      LastSlice(line, from, to, hs);
    }
  }

  lemma {:induction false} AnnotatedLength(line: Line, from: int, hs: seq<Gloss>)
    ensures |Annotated(line, from, hs)| == 2 * |hs|
    decreases |hs|
  {
    if hs == [] {
    } else {
      AnnotatedLength(line, from, hs[..|hs| - 1]);
    }
  }

  lemma {:induction false} ShownThreaded(line: Line, r: Range)
    requires WellPlaced(line) && r.start <= r.end && r.start < line.end && line.start < r.end
    ensures var w := Shown(line, r); Threaded(line, w.start, w.end, Ordered(line.hints, w))
  {
    hide WidenAll, Ordered;
    var w := Shown(line, r);
    WidenAllWell(line, Clip(line, r), |line.hints|);
    OrderedChained(line, w);
    var hs := Ordered(line.hints, w);
    forall i | 0 <= i < |hs|
      ensures Inside(w, hs[i])
    {
      assert hs[i] in multiset(hs);
    }
  }

  /** With its glosses deleted, a piece is one contiguous slice of the caption: what is shown, nothing else. */
  lemma {:induction false} PieceBare(line: Line, r: Range)
    requires WellPlaced(line) && r.start <= r.end && r.start < line.end && line.start < r.end
    ensures var w := Shown(line, r);
            line.start <= w.start <= w.end <= line.end
                && Bare(Piece(line, r)) == line.caption[w.start - line.start..w.end - line.start]
  {
    hide Shown, Ordered, Annotated, Cursor;
    var w := Shown(line, r);
    var hs := Ordered(line.hints, w);
    ShownThreaded(line, r);
    AnnotatedBare(line, w.start, w.end, hs);
    var before := Annotated(line, w.start, hs);
    assert Piece(line, r)[..|before|] == before;
  }

  // ---- The loops ------------------------------------------------------------------------------

  predicate Touches(line: Line, r: Range) {
    !(r.end <= line.start || r.start >= line.end)
  }

  function Pieces(line: Line, ranges: seq<Range>): seq<Text> {
    if ranges == [] then []
    else
      var before, last := Pieces(line, ranges[..|ranges| - 1]), ranges[|ranges| - 1];
      if Touches(line, last) && Render(Piece(line, last)) != [] then before + [Render(Piece(line, last))] else before
  }

  function JoinLines(pieces: seq<Text>): Text {
    if pieces == [] then []
    else if |pieces| == 1 then pieces[0]
    else JoinLines(pieces[..|pieces| - 1]) + [NEWLINE] + pieces[|pieces| - 1]
  }

  method RenderPiece(line: Line, r: Range) returns (text: Text)
    ensures text == Render(Piece(line, r))
  {
    hide Render, Inside;
    hide Slice, Sort, Inner;
    var shown := Clip(line, r);
    for n := 0 to |line.hints|
      invariant shown == WidenAll(line, Clip(line, r), n)
    {
      var hint := line.hints[n];
      var start, end := shown.start, shown.end;
      if hint.startOffset < start && hint.endOffset > start {
        start := Max(line.start, hint.startOffset);
      }
      if hint.startOffset < end && hint.endOffset > end {
        end := Min(line.end, hint.endOffset);
      }
      shown := Range(start, end);
    }
    var hs := Ordered(line.hints, shown);
    var cursor := shown.start;
    text := [];
    NothingRendered();
    for i := 0 to |hs|
      invariant cursor == Cursor(hs[..i], shown.start)
      invariant text == Render(Annotated(line, shown.start, hs[..i]))
    {
      assert hs[..i + 1][..i] == hs[..i];
      var slice := Slice(line.caption, cursor - line.start, hs[i].endOffset - line.start);
      RenderTwo(Annotated(line, shown.start, hs[..i]), slice, hs[i].text);
      text := text + slice + ([OPEN] + hs[i].text + [CLOSE]);
      cursor := hs[i].endOffset;
    }
    assert hs[..|hs|] == hs;
    var rest := Slice(line.caption, cursor - line.start, shown.end - line.start);
    RenderOne(Annotated(line, shown.start, hs), rest);
    text := text + rest;
  }

  lemma {:induction false} NothingRendered()
    ensures Render([]) == []
  {
  }

  lemma {:induction false} RenderOne(parts: seq<Part>, t: Text)
    ensures Render(parts + [Plain(t)]) == Render(parts) + t
  {
    assert (parts + [Plain(t)])[..|parts|] == parts;
  }

  lemma {:induction false} RenderTwo(parts: seq<Part>, t: Text, note: Text)
    ensures Render(parts + [Plain(t), Note(note)]) == Render(parts) + t + ([OPEN] + note + [CLOSE])
  {
    RenderOne(parts, t);
    assert parts + [Plain(t), Note(note)] == parts + [Plain(t)] + [Note(note)];
    assert (parts + [Plain(t)] + [Note(note)])[..|parts| + 1] == parts + [Plain(t)];
  }

  /** The pieces of all ranges, one a line; nothing when there is no text or too much. */
  method ExtractIncrementalText(line: Line, appended: seq<Range>) returns (text: Option<Text>)
    ensures var whole := JoinLines(Pieces(line, appended));
            text == if whole != [] && |whole| <= DEBUG_LIMIT then Some(whole) else None
  {
    hide Piece, Render;
    var pieces: seq<Text> := [];
    for i := 0 to |appended|
      invariant pieces == Pieces(line, appended[..i])
    {
      var range := appended[i];
      assert appended[..i + 1][..i] == appended[..i];
      if range.end <= line.start || range.start >= line.end {
        continue;
      }
      var piece := RenderPiece(line, range);
      if piece != [] {
        pieces := pieces + [piece];
      }
    }
    assert appended[..|appended|] == appended;
    var whole := JoinLines(pieces);
    text := if whole != [] && |whole| <= DEBUG_LIMIT then Some(whole) else None;
  }
}
