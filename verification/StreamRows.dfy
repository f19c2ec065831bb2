/** Visual rows over every run: sealed rows stay sealed, and gain no hint while they scroll. */
module StreamRows {
  import opened Wrappers
  import opened Utf16
  import opened Protocol
  import opened CaptionSnapshot
  import opened OrderedKeys
  import opened Stream
  import opened StreamHints

  // ---- Row bookkeeping ------------------------------------------------------------------------

  /** Sealed keys are shown, finished keys are not, and at most 256 finished keys are remembered. */
  ghost predicate RowsOf(segs: seq<Segment>, frozen: seq<Key>, finalized: seq<Key>) {
    && NoRepeats(frozen) && NoRepeats(finalized)
    && (forall k | k in frozen :: k in KeySet(segs))
    && (forall k | k in finalized :: k !in KeySet(segs))
    && |finalized| <= MAX_FINALIZED
  }

  ghost predicate RowView(v: View) {
    RowsOf(if v.event.Some? then Segments(v.event.value.request.current) else [], v.frozen, v.finalized)
  }

  ghost predicate RowsKept(s: Coordinator) {
    && RowsOf(CurrentSegments(s), s.frozen, s.finalized)
    && (forall k | k in s.activeRow :: k in KeySet(CurrentSegments(s)))
    && forall i | 0 <= i < |s.views| :: RowView(s.views[i])
  }

  lemma {:induction false} OnLineKeys(segs: seq<Segment>, line: int)
    ensures forall x | x in OnLine(segs, line) :: x in segs && x.line == line
    ensures forall x | x in OffLine(segs, line) :: x in segs && x.line != line
    ensures forall x | x in segs :: x in OnLine(segs, line) || x in OffLine(segs, line)
  {
    if segs == [] {
    } else {
      OnLineKeys(segs[..|segs| - 1], line);
      assert segs == segs[..|segs| - 1] + [segs[|segs| - 1]];
    }
  }

  lemma {:induction false} KeysOfMembers(segs: seq<Segment>, k: Key)
    ensures k in KeysOf(segs) <==> k in KeySet(segs)
    ensures k in KeySet(segs) <==> exists x :: x in segs && x.key == k
  {
    if x :| x in segs && x.key == k {
      var i :| 0 <= i < |segs| && segs[i] == x;
      assert KeysOf(segs)[i] == k;
    }
    if k in KeySet(segs) {
      var i :| 0 <= i < |segs| && segs[i].key == k;
      assert segs[i] in segs && KeysOf(segs)[i] == k;
    }
  }

  /** The newest row holds shown keys only. */
  lemma {:induction false} NewestRowShown(s: Snapshot, k: Key)
    requires k in NewestRow(s)
    ensures k in KeySet(Segments(s))
  {
    hide OnLine, KeysOf, AddAll;
    var n := |s.captions| - 1;
    var segs := s.captions[n].segments;
    var row := OnLine(segs, segs[|segs| - 1].line);
    AddAllMembers([], KeysOf(row));
    OnLineKeys(segs, segs[|segs| - 1].line);
    KeysOfMembers(row, k);
    var x :| x in row && x.key == k;
    assert Segments(s) == Flatten(s.captions[..n]) + segs;
    assert x in segs;
    KeysOfMembers(Segments(s), k);
  }

  /** A key outside every older row is in the newest one, and the older rows hold shown keys only. */
  lemma {:induction false} OlderRowsShown(s: Snapshot, k: Key)
    ensures k in OlderRows(s) ==> k in KeySet(Segments(s))
    ensures k in KeySet(Segments(s)) ==> k in OlderRows(s) || k in NewestRow(s)
  {
    if s.captions != [] {
      var n := |s.captions| - 1;
      var before, segs := Flatten(s.captions[..n]), s.captions[n].segments;
      assert Segments(s) == before + segs;
      KeysOfMembers(Segments(s), k);
      KeysOfMembers(before, k);
      if segs != [] {
        var line := segs[|segs| - 1].line;
        OnLineKeys(segs, line);
        KeysOfMembers(OnLine(segs, line), k);
        KeysOfMembers(OffLine(segs, line), k);
        AddAllMembers([], KeysOf(OnLine(segs, line)));
      }
    }
  }

  // ---- Every step keeps the bookkeeping -------------------------------------------------------

  lemma {:induction false} FrozenArrivalNoRepeats(s: Coordinator, e: Event)
    requires RowsKept(s)
    ensures NoRepeats(FrozenOnArrival(s, e))
  {
    var base := Rebased(s, e);
    AddAllMembers(base.frozen, Outside(KeysOf(CurrentSegments(s)), Members(base.activeRow)));
    AddAllMembers(AddAll(base.frozen, Outside(KeysOf(CurrentSegments(s)), Members(base.activeRow))), base.activeRow);
    AddAllMembers(base.frozen, base.activeRow);
  }

  lemma {:induction false} RebasedFinalized(s: Coordinator, e: Event)
    requires RowsKept(s)
    ensures NoRepeats(Rebased(s, e).finalized)
  {
    AddAllMembers([], Retired(s, e));
  }

  lemma {:induction false} ArrivedRows(s: Coordinator, e: Event, word: WordUnit)
    requires RowsKept(s)
    ensures RowsOf(Segments(e.request.current), Arrived(s, e, word).frozen, Arrived(s, e, word).finalized)
  {
    var keys := KeySet(Segments(e.request.current));
    var stay := FrozenOnArrival(s, e);
    FrozenArrivalNoRepeats(s, e);
    RebasedFinalized(s, e);
    WithinMembers(stay, keys);
    OutsideMembers(stay, keys);
    var all := AddAll(Rebased(s, e).finalized, Outside(stay, keys));
    AddAllMembers(Rebased(s, e).finalized, Outside(stay, keys));
    OutsideMembers(all, keys);
    assert Arrived(s, e, word).finalized == Evict(Outside(all, keys));
    EvictNoRepeats(Outside(all, keys));
  }

  lemma {:induction false} RowStep(s: Coordinator, t: Coordinator)
    requires RowsKept(s) && t.views == s.views
    requires RowsOf(CurrentSegments(t), t.frozen, t.finalized)
    requires forall k | k in t.activeRow :: k in KeySet(CurrentSegments(t))
    ensures RowsKept(t)
  {
  }

  lemma {:induction false} RowPublish(s: Coordinator, state: ViewState, debugEvent: Option<Event>,
                                      failure: Option<RuntimeFailure>)
    requires RowsKept(s)
    ensures RowsKept(Publish(s, state, debugEvent, failure))
  {
    assert CurrentSegments(Publish(s, state, debugEvent, failure)) == CurrentSegments(s);
  }

  /** Timers, requests, coverage and hints are no part of the rows. */
  lemma {:induction false} SameRows(s: Coordinator, t: Coordinator)
    requires RowsKept(s)
    requires t.current == s.current && t.frozen == s.frozen && t.finalized == s.finalized
    requires t.activeRow == s.activeRow && t.views == s.views
    ensures RowsKept(t)
  {
    assert CurrentSegments(t) == CurrentSegments(s);
  }

  lemma {:induction false} SubmitRows(s: Coordinator, e: Event, cfg: Config)
    requires RowsKept(s)
    ensures RowsKept(Submit(s, e, cfg.word))
  {
    if e.sequence > s.latestSequence {
      var a := Arrived(s, e, cfg.word);
      ArrivedRows(s, e, cfg.word);
      ArrivedActive(s, e, cfg.word);
      RowStep(s, a);
      RowPublish(a, Status(a), None, None);
      SameRows(Publish(a, Status(a), None, None), Schedule(Publish(a, Status(a), None, None)));
    }
  }

  lemma {:induction false} ArrivedActive(s: Coordinator, e: Event, word: WordUnit)
    ensures var a := Arrived(s, e, word);
            && a.current == Some(e) && a.views == s.views
            && forall k | k in a.activeRow :: k in KeySet(Segments(e.request.current))
  {
    forall k | k in NewestRow(e.request.current)
      ensures k in KeySet(Segments(e.request.current))
    {
      NewestRowShown(e.request.current, k);
    }
  }

  lemma {:induction false} SealedRows(s: Coordinator)
    requires RowsKept(s) && s.current.Some?
    ensures RowsKept(Sealed(s))
  {
    var older := OlderRows(s.current.value.request.current);
    var sealed := s.(frozen := AddAll(s.frozen, older));
    AddAllMembers(s.frozen, older);
    forall k | k in older
      ensures k in KeySet(CurrentSegments(s))
    {
      OlderRowsShown(s.current.value.request.current, k);
    }
    assert CurrentSegments(sealed) == CurrentSegments(s);
    RowStep(s, sealed);
    RowPublish(sealed, Status(sealed), None, None);
  }

  lemma {:induction false} AbsorbedRows(s: Coordinator, d: Dispatch, body: Response, cfg: Config)
    requires RowsKept(s) && s.current.Some?
    ensures var a := Absorbed(s, d, body, cfg.word);
            RowsKept(Schedule(Sealed(Publish(a, Status(a), Some(d.event), None))))
  {
    var a := Absorbed(s, d, body, cfg.word);
    SameRows(s, a);
    RowPublish(a, Status(a), Some(d.event), None);
    PublishedRows(Publish(a, Status(a), Some(d.event), None));
  }

  lemma {:induction false} PublishedRows(s: Coordinator)
    requires RowsKept(s) && s.current.Some?
    ensures RowsKept(Schedule(Sealed(s)))
  {
    SealedRows(s);
    SameRows(Sealed(s), Schedule(Sealed(s)));
  }

  lemma {:induction false} FailedRows(s: Coordinator, reason: Reason)
    requires RowsKept(s)
    ensures RowsKept(Failed(s, reason))
  {
    SameRows(s, s.(active := None));
    RowPublish(s.(active := None), Fallback, None, Some(FailureOf(reason)));
  }

  lemma {:induction false} AcceptRows(s: Coordinator, d: Dispatch, result: Result, cfg: Config)
    requires RowsKept(s)
    ensures RowsKept(Accept(s, d, result, cfg))
  {
    if !Late(s, d) {
      if result.Failure? {
        FailedRows(s, result.reason);
      } else if !Answers(result.body, d.event.request, cfg.evidence) {
        FailedRows(s, InvalidResponse);
      } else {
        AbsorbedRows(s, d, result.body, cfg);
      }
    }
  }

  lemma {:induction false} ClearRows(s: Coordinator, sequence: nat)
    requires RowsKept(s)
    ensures RowsKept(Clear(s, sequence))
  {
  }

  lemma {:induction false} StepRows(s: Coordinator, input: Input, cfg: Config)
    requires RowsKept(s)
    ensures RowsKept(Step(s, input, cfg))
  {
    match input
    case DoSubmit(e) => SubmitRows(s, e, cfg);
    case DoClear(n) => ClearRows(s, n);
    case DoFire => SameRows(s, Fire(s));
    case DoAnswer(i, result) =>
      if i < |s.sent| {
        AcceptRows(s, s.sent[i], result, cfg);
      }
  }

  /**
   * In every run, every view's sealed keys are on display, its finished keys are not, neither repeats,
   * and at most 256 finished keys are kept.
   */
  lemma {:induction false} EveryViewRows(inputs: seq<Input>, cfg: Config)
    ensures RowsKept(Run(Initial(), inputs, cfg))
  {
    if inputs == [] {
    } else {
      EveryViewRows(inputs[..|inputs| - 1], cfg);
      StepRows(Run(Initial(), inputs[..|inputs| - 1], cfg), inputs[|inputs| - 1], cfg);
    }
  }

  // ---- Sealed rows while the caption scrolls --------------------------------------------------

  /** A sealed key that is still shown stays sealed through any submit without reset. */
  lemma {:induction false} SubmitKeepsSeal(s: Coordinator, e: Event, k: Key, cfg: Config)
    requires e.sequence > s.latestSequence && !ResetNeeded(s, e)
    requires k in s.frozen && k in KeySet(Segments(e.request.current))
    ensures k in Submit(s, e, cfg.word).frozen
  {
    hide AddAll, Outside, KeysOf, Within, KeySet, Remap;
    var base := Rebased(s, e);
    var passed := AddAll(base.frozen, Outside(KeysOf(CurrentSegments(s)), Members(base.activeRow)));
    AddAllMembers(base.frozen, Outside(KeysOf(CurrentSegments(s)), Members(base.activeRow)));
    AddAllMembers(passed, base.activeRow);
    AddAllMembers(base.frozen, base.activeRow);
    WithinMembers(FrozenOnArrival(s, e), KeySet(Segments(e.request.current)));
  }

  /** Answers, timers and late results never break a seal. */
  lemma {:induction false} AcceptKeepsSeal(s: Coordinator, d: Dispatch, result: Result, k: Key, cfg: Config)
    requires k in s.frozen
    ensures k in Accept(s, d, result, cfg).frozen
  {
    if s.current.Some? {
      AddAllMembers(s.frozen, OlderRows(s.current.value.request.current));
    }
  }

  /** Segment j of the kept ones ends where its original ended, and starts no earlier, shifted by the cut. */
  ghost predicate Aligned(kept: seq<Segment>, segs: seq<Segment>, removed: nat, j: nat)
    requires j < |kept| <= |segs|
  {
    var i := |segs| - |kept| + j;
    && Offset(kept, j + 1) == Offset(segs, i + 1) - removed
    && Offset(segs, i) <= Offset(kept, j) + removed
  }

  lemma {:induction false} OffsetPrefix(a: seq<Segment>, b: seq<Segment>, i: nat)
    requires i <= |a|
    ensures Offset(a + b, i) == Offset(a, i)
  {
    assert (a + b)[..i] == a[..i];
  }

  lemma {:induction false} AlignedInit(kept: seq<Segment>, init: seq<Segment>, cut: Segment, last: Segment,
                                       removed: nat, j: nat)
    requires j < |kept| <= |init| && Aligned(kept, init, removed, j)
    ensures Aligned(kept + [cut], init + [last], removed, j)
  {
    OffsetPrefix(kept, [cut], j);
    OffsetPrefix(kept, [cut], j + 1);
    OffsetPrefix(init, [last], |init| - |kept| + j);
    OffsetPrefix(init, [last], |init| - |kept| + j + 1);
  }

  lemma {:induction false} AlignedLast(kept: seq<Segment>, init: seq<Segment>, cut: Segment, last: Segment,
                                       removed: nat)
    requires |kept| <= |init|
    requires |SegText(kept + [cut])| == |SegText(init + [last])| - removed
    requires |SegText(init)| <= |SegText(kept)| + removed
    ensures Aligned(kept + [cut], init + [last], removed, |kept|)
  {
    OffsetPrefix(kept, [cut], |kept|);
    OffsetPrefix(init, [last], |init|);
    OffsetEnd(kept);
    OffsetEnd(init);
    OffsetEnd(kept + [cut]);
    OffsetEnd(init + [last]);
  }

  ghost predicate AllAligned(kept: seq<Segment>, segs: seq<Segment>, removed: nat) {
    |kept| <= |segs| && forall j | 0 <= j < |kept| :: Aligned(kept, segs, removed, j)
  }

  lemma {:induction false} AllAlignedStep(kept: seq<Segment>, init: seq<Segment>, cut: Segment, last: Segment,
                                          removed: nat)
    requires AllAligned(kept, init, removed)
    requires |SegText(kept + [cut])| == |SegText(init + [last])| - removed
    requires |SegText(init)| <= |SegText(kept)| + removed
    ensures AllAligned(kept + [cut], init + [last], removed)
  {
    AlignedLast(kept, init, cut, last, removed);
    forall j | 0 <= j < |kept|
      ensures Aligned(kept + [cut], init + [last], removed, j)
    {
      AlignedInit(kept, init, cut, last, removed, j);
    }
  }

  /** Cutting a prefix shifts every remaining segment by the length of the cut. */
  lemma {:induction false} KeptAligned(segs: seq<Segment>, removed: nat)
    requires removed <= |SegText(segs)|
    ensures AllAligned(Kept(segs, removed), segs, removed)
  {
    if segs == [] {
    } else {
      var init, last := segs[..|segs| - 1], segs[|segs| - 1];
      assert segs == init + [last];
      KeptText(segs, removed);
      if removed <= |SegText(init)| {
        KeptAligned(init, removed);
        KeptText(init, removed);
      } else {
        KeptNothing(init, removed);
      }
      if |SegText(init)| + |last.text| > removed {
        AllAlignedStep(Kept(init, removed), init, CutLeft(last, |SegText(init)|, removed), last, removed);
      } else {
        KeptNothing(segs, removed);
      }
    }
  }

  /** A hint touching a kept segment after the scroll touched the same segment before it. */
  lemma {:induction false} TouchBack(later: seq<Segment>, prior: seq<Segment>, kept: seq<Segment>, removed: nat,
                                     j: nat, h: Hint, moved: Hint)
    requires j < |kept| <= |later| && AllAligned(kept, prior, removed)
    requires SameTexts(later[..|kept|], kept)
    requires moved == Shifted(h, removed) && Touches(later, j, moved)
    ensures Touches(prior, |prior| - |kept| + j, h)
  {
    assert Aligned(kept, prior, removed, j);
    hide Offset, SameTexts, AllAligned;
    SameOffset(later, kept, j);
    SameOffset(later, kept, j + 1);
  }

  lemma {:induction false} SameOffset(later: seq<Segment>, kept: seq<Segment>, j: nat)
    requires j <= |kept| <= |later| && SameTexts(later[..|kept|], kept)
    ensures Offset(later, j) == Offset(kept, j)
  {
    assert SameTexts(later[..j], kept[..j]) by {
      forall i | 0 <= i < j
        ensures later[..j][i].text == kept[..j][i].text && later[..j][i].key == kept[..j][i].key
                && later[..j][i].append == kept[..j][i].append
      {
        assert later[..|kept|][i] == later[i];
      }
    }
    SameTextsSegText(later[..j], kept[..j]);
  }

  ghost predicate TouchesKey(segs: seq<Segment>, k: Key, h: Hint) {
    exists i | 0 <= i < |segs| :: Touches(segs, i, h) && segs[i].key == k
  }

  /** Where the segment with key k ends in the caption; keys are distinct wherever this is used. */
  function EndOf(segs: seq<Segment>, k: Key): int {
    var i := FindKey(segs, k);
    if i < |segs| then Offset(segs, i + 1) else 0
  }

  /**
   * A hint on the row of a key: its two ends counted back from the end of that segment, its evidence, and its words.
   */
  datatype Placed = Placed(hint: Hint, words: Text)

  function PlaceOf(segs: seq<Segment>, k: Key, h: Hint): Placed {
    Placed(h.(startOffset := EndOf(segs, k) - h.startOffset, endOffset := EndOf(segs, k) - h.endOffset),
        Slice(SegText(segs), h))
  }

  /** All hints touching the segment with key k, each at its place. */
  ghost function HintsOn(segs: seq<Segment>, k: Key, hints: seq<Hint>): set<Placed> {
    set h | h in hints && TouchesKey(segs, k, h) :: PlaceOf(segs, k, h)
  }

  /** Over one caption a hint is known by its place, so the set of places has as many members as there are hints. */
  lemma {:induction false} PlaceKnowsHint(segs: seq<Segment>, k: Key, g: Hint, h: Hint)
    requires PlaceOf(segs, k, g) == PlaceOf(segs, k, h)
    ensures g == h
  {
  }

  /** The set of hints touching key k gains no member: every one is at a place, over words, that a hint had before. */
  ghost predicate GainsNone(s: Coordinator, t: Coordinator, k: Key) {
    HintsOn(CurrentSegments(t), k, t.hints) <= HintsOn(CurrentSegments(s), k, s.hints)
  }

  /** Distinct hints afterwards come from distinct hints before: the step only forgets. */
  lemma {:induction false} DistinctOrigins(s: Coordinator, t: Coordinator, k: Key, g: Hint, h: Hint)
    returns (g': Hint, h': Hint)
    requires GainsNone(s, t, k) && g != h && g in t.hints && h in t.hints
    requires TouchesKey(CurrentSegments(t), k, g) && TouchesKey(CurrentSegments(t), k, h)
    ensures g' != h' && g' in s.hints && h' in s.hints
    ensures PlaceOf(CurrentSegments(s), k, g') == PlaceOf(CurrentSegments(t), k, g)
    ensures PlaceOf(CurrentSegments(s), k, h') == PlaceOf(CurrentSegments(t), k, h)
  {
    hide TouchesKey, PlaceOf;
    assert PlaceOf(CurrentSegments(t), k, g) in HintsOn(CurrentSegments(t), k, t.hints);
    assert PlaceOf(CurrentSegments(t), k, h) in HintsOn(CurrentSegments(t), k, t.hints);
    g' :| g' in s.hints && TouchesKey(CurrentSegments(s), k, g')
        && PlaceOf(CurrentSegments(s), k, g') == PlaceOf(CurrentSegments(t), k, g);
    h' :| h' in s.hints && TouchesKey(CurrentSegments(s), k, h')
        && PlaceOf(CurrentSegments(s), k, h') == PlaceOf(CurrentSegments(t), k, h);
    if g' == h' {
      PlaceKnowsHint(CurrentSegments(t), k, g, h);
    }
  }

  /** The same hints over the same caption gain nothing. */
  lemma {:induction false} GainsNoneSame(s: Coordinator, t: Coordinator, k: Key)
    requires t.current == s.current && forall h | h in t.hints :: h in s.hints || !TouchesKey(CurrentSegments(s), k, h)
    ensures GainsNone(s, t, k)
  {
    hide TouchesKey, PlaceOf;
    assert CurrentSegments(t) == CurrentSegments(s);
  }

  /** An answer adds no hint to a sealed row, not even one for text it was asked about. */
  lemma {:induction false} AcceptGainsNone(s: Coordinator, d: Dispatch, result: Result, k: Key, cfg: Config)
    requires ShowsTruth(s, cfg.word) && k in s.frozen
    ensures GainsNone(s, Accept(s, d, result, cfg), k)
  {
    var t := Accept(s, d, result, cfg);
    AcceptKeepsHeld(s, d, result, cfg);
    AcceptCaption(s, d, result, cfg);
    forall h | h in t.hints && TouchesKey(CurrentSegments(s), k, h)
      ensures h in s.hints
    {
      OnSealedRow(CurrentSegments(s), s.frozen, k, h);
    }
    GainsNoneSame(s, t, k);
  }

  lemma {:induction false} OnSealedRow(segs: seq<Segment>, frozen: seq<Key>, k: Key, h: Hint)
    requires k in frozen && TouchesKey(segs, k, h)
    ensures TouchesFrozen(segs, frozen, h)
  {
  }

  lemma {:induction false} AcceptCaption(s: Coordinator, d: Dispatch, result: Result, cfg: Config)
    ensures Accept(s, d, result, cfg).current == s.current
  {
  }

  /** A key of the older snapshot that is still shown belongs to a kept segment. */
  lemma {:induction false} StillShownIndex(t: Tracker, source: Source, meta: Metadata, space: SpaceUnit, j: nat)
    requires Tracking(t) && SoundSpace(space) && WellFormed(source.caption)
    requires j < |Segments(Capture(t, source, meta, space).previous)|
    requires Segments(Capture(t, source, meta, space).previous)[j].key in KeySet(Segments(t.previous))
    ensures j < |StillShown(t, source.caption)| <= |Segments(t.previous)|
    ensures Segments(Capture(t, source, meta, space).previous)[j].key
            == Segments(t.previous)[|Segments(t.previous)| - |StillShown(t, source.caption)| + j].key
  {
    CaptureTracking(t, source, meta, space);
    CaptureKept(t, source, meta, space);
    KeptSuffix(Segments(t.previous), Removed(t, source.caption));
  }

  lemma {:induction false} KeptPrefix(later: seq<Segment>, kept: seq<Segment>, added: seq<Segment>)
    requires SameTexts(later, kept + added)
    ensures |kept| <= |later| && SameTexts(later[..|kept|], kept)
  {
    forall i | 0 <= i < |kept|
      ensures later[..|kept|][i].text == kept[i].text && later[..|kept|][i].key == kept[i].key
              && later[..|kept|][i].append == kept[i].append
    {
      assert (kept + added)[i] == kept[i];
    }
  }

  /** Where a kept segment ends after the scroll: where it ended before, less what was removed. */
  lemma {:induction false} EndOfAt(segs: seq<Segment>, j: nat)
    requires DistinctKeys(segs) && j < |segs|
    ensures EndOf(segs, segs[j].key) == Offset(segs, j + 1)
  {
    hide DistinctKeys, Offset;
    FindKeyOnly(segs, j);
  }

  lemma {:induction false} KeptEnds(later: seq<Segment>, prior: seq<Segment>, kept: seq<Segment>, removed: nat, j: nat)
    requires j < |kept| <= |later| && |kept| <= |prior| && SameTexts(later[..|kept|], kept)
    requires AllAligned(kept, prior, removed)
    ensures Offset(later, j + 1) == Offset(prior, |prior| - |kept| + j + 1) - removed
  {
    hide Offset, SameTexts;
    assert Aligned(kept, prior, removed, j);
    SameOffset(later, kept, j + 1);
  }

  lemma {:induction false} ScrollEnds(t: Tracker, source: Source, meta: Metadata, space: SpaceUnit, j: nat)
    requires Tracking(t) && SoundSpace(space) && WellFormed(source.caption)
    requires j < |Segments(Capture(t, source, meta, space).previous)|
    requires Segments(Capture(t, source, meta, space).previous)[j].key in KeySet(Segments(t.previous))
    ensures var later, k := Segments(Capture(t, source, meta, space).previous),
            Segments(Capture(t, source, meta, space).previous)[j].key;
            EndOf(later, k) == EndOf(Segments(t.previous), k) - Removed(t, source.caption)
  {
    var later := Segments(Capture(t, source, meta, space).previous);
    var prior, kept := Segments(t.previous), StillShown(t, source.caption);
    hide Capture, Offset, KeyRun, DistinctKeys, Kept, EndOf, AllAligned, SameTexts, Tracking;
    StillShownIndex(t, source, meta, space, j);
    CaptureTracking(t, source, meta, space);
    TrackingDistinct(t);
    TrackingDistinct(Capture(t, source, meta, space));
    EndOfAt(later, j);
    EndOfAt(prior, |prior| - |kept| + j);
    CaptureTiles(t, source, meta, space);
    KeptPrefix(later, kept, NewSegments(t, source.caption, space));
    StillAligned(t, source.caption);
    KeptEnds(later, prior, kept, Removed(t, source.caption), j);
  }

  lemma {:induction false} StillAligned(t: Tracker, caption: Text)
    ensures AllAligned(StillShown(t, caption), Segments(t.previous), Removed(t, caption))
  {
    hide AllAligned;
    KeptAligned(Segments(t.previous), Removed(t, caption));
  }

  lemma {:induction false} TrackingDistinct(t: Tracker)
    requires Tracking(t)
    ensures DistinctKeys(Segments(t.previous))
  {
    hide DistinctKeys;
    if Segments(t.previous) != [] {
      RunDistinct(Segments(t.previous));
    } else {
      NoneDistinct();
    }
  }

  lemma {:induction false} NoneDistinct()
    ensures DistinctKeys([])
  {
  }

  /**
   * A hint that moved with the text touches the key after the scroll only if it touched it before, at the same place.
   */
  lemma {:induction false} ScrollTouches(t: Tracker, source: Source, meta: Metadata, space: SpaceUnit, k: Key,
                                         h: Hint, moved: Hint)
    requires Tracking(t) && SoundSpace(space) && WellFormed(source.caption)
    requires k in KeySet(Segments(t.previous)) && moved == Shifted(h, Removed(t, source.caption))
    requires TouchesKey(Segments(Capture(t, source, meta, space).previous), k, moved)
    ensures TouchesKey(Segments(t.previous), k, h)
    ensures EndOf(Segments(Capture(t, source, meta, space).previous), k)
            == EndOf(Segments(t.previous), k) - Removed(t, source.caption)
  {
    hide EndOf, Capture, Kept, Tracking, Offset, AllAligned, SameTexts, KeyRun, RetainedOverlap, SegText;
    var later := Segments(Capture(t, source, meta, space).previous);
    var prior, kept := Segments(t.previous), StillShown(t, source.caption);
    var j :| 0 <= j < |later| && Touches(later, j, moved) && later[j].key == k;
    StillShownIndex(t, source, meta, space, j);
    CaptureTiles(t, source, meta, space);
    KeptPrefix(later, kept, NewSegments(t, source.caption, space));
    StillAligned(t, source.caption);
    TouchBack(later, prior, kept, Removed(t, source.caption), j, h, moved);
    ScrollEnds(t, source, meta, space, j);
  }

  /** One migrated hint on key k was on key k before, at the same place and over the same words. */
  lemma {:induction false} MovedWasOn(t: Tracker, source: Source, meta: Metadata, space: SpaceUnit, word: WordUnit,
                                      k: Key, prev: Hint, h: Hint)
    requires Tracking(t) && SoundSpace(space) && WellFormed(source.caption) && k in KeySet(Segments(t.previous))
    requires Fits(SnapshotText(t.previous), prev, word)
    requires RemapOne(SnapshotText(t.previous), source.caption, prev, word) == Some(h)
    requires TouchesKey(Segments(Capture(t, source, meta, space).previous), k, h)
    ensures TouchesKey(Segments(t.previous), k, prev)
    ensures PlaceOf(Segments(Capture(t, source, meta, space).previous), k, h) == PlaceOf(Segments(t.previous), k, prev)
  {
    hide Capture, TouchesKey, EndOf, Tracking, SegText, RetainedOverlap, KeySet, WellFormed;
    CaptureTiles(t, source, meta, space);
    RemapOneKeepsText(SnapshotText(t.previous), source.caption, prev, word);
    ScrollTouches(t, source, meta, space, k, prev, h);
  }

  /** Migrating hints from one capture to the next adds none to any key that both show. */
  lemma {:induction false} RemapGainsNone(t: Tracker, source: Source, meta: Metadata, space: SpaceUnit,
                                          word: WordUnit, k: Key, hints: seq<Hint>)
    requires Tracking(t) && SoundSpace(space) && WellFormed(source.caption) && k in KeySet(Segments(t.previous))
    requires forall i | 0 <= i < |hints| :: Fits(SnapshotText(t.previous), hints[i], word)
    ensures HintsOn(Segments(Capture(t, source, meta, space).previous), k,
            Remap(SnapshotText(t.previous), source.caption, hints, word))
            <= HintsOn(Segments(t.previous), k, hints)
  {
    hide Capture, TouchesKey, PlaceOf, Remap, RemapOne, Tracking, Fits;
    var later, out := Segments(Capture(t, source, meta, space).previous),
        Remap(SnapshotText(t.previous), source.caption, hints, word);
    var from := RemapSources(SnapshotText(t.previous), source.caption, hints, word);
    forall h | h in out && TouchesKey(later, k, h)
      ensures PlaceOf(later, k, h) in HintsOn(Segments(t.previous), k, hints)
    {
      var n :| 0 <= n < |out| && out[n] == h;
      MovedWasOn(t, source, meta, space, word, k, hints[from[n]], h);
    }
  }

  /**
   * Scrolling adds no hint to a sealed row: when the submitted snapshot is the tracker's next capture
   * after the one on display, every hint on a sealed key afterwards was there before, at the same place over the same
   * words.
   */
  lemma {:induction false} SubmitGainsNone(s: Coordinator, e: Event, k: Key, cfg: Config, t: Tracker, source: Source,
                                           meta: Metadata, space: SpaceUnit)
    requires ShowsTruth(s, cfg.word) && RowsKept(s) && k in s.frozen
    requires e.sequence > s.latestSequence && !ResetNeeded(s, e)
    requires Tracking(t) && SoundSpace(space) && WellFormed(source.caption)
    requires CurrentSegments(s) == Segments(t.previous)
    requires e.request.current == Capture(t, source, meta, space).previous
    ensures GainsNone(s, Submit(s, e, cfg.word), k)
  {
    var after := Submit(s, e, cfg.word);
    CaptureTiles(t, source, meta, space);
    SubmitHints(s, e, cfg.word);
    SubmitCaption(s, e, cfg.word);
    assert CurrentText(after) == source.caption;
    RemapGainsNone(t, source, meta, space, cfg.word, k, s.hints);
  }

  lemma {:induction false} SubmitCaption(s: Coordinator, e: Event, word: WordUnit)
    requires e.sequence > s.latestSequence
    ensures Submit(s, e, word).current == Some(e)
  {
  }
}
