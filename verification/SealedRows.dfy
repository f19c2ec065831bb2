/**
 * Sealed rows over whole scrolling runs in which every capture is submitted: the step lemmas of the rows, the hints
 * and the tracker put together, one operation at a time.
 */
module SealedRows {
  import opened Wrappers
  import opened Protocol
  import opened CaptionSnapshot
  import opened Stream
  import opened StreamHints
  import opened StreamRows
  import opened CaptionRun

  /** A capture that is submitted at once, or one of the coordinator's own events. */
  datatype LiveOp =
    | Scroll(source: Source, meta: Metadata, sequence: nat, topic: string, track: Option<string>)
    | LiveTimer
    | LiveAnswer(index: nat, result: Result)

  function LiveStep(w: World, x: LiveOp, cfg: Config, space: SpaceUnit): World {
    match x
    case Scroll(source, meta, n, topic, track) =>
      WorldStep(WorldStep(w, Snap(source, meta), cfg, space), SubmitLatest(n, topic, track), cfg, space)
    case LiveTimer => WorldStep(w, TimerFires, cfg, space)
    case LiveAnswer(i, result) => WorldStep(w, AnswerArrives(i, result), cfg, space)
  }

  function LiveRun(w: World, xs: seq<LiveOp>, cfg: Config, space: SpaceUnit): World {
    if xs == [] then w else LiveStep(LiveRun(w, xs[..|xs| - 1], cfg, space), xs[|xs| - 1], cfg, space)
  }

  function Scrolled(w: World, x: LiveOp, space: SpaceUnit): Event
    requires x.Scroll?
  {
    Event(x.sequence, Request(x.topic, x.track, None, Capture(w.tracker, x.source, x.meta, space).previous))
  }

  /** The step is a valid one and does not restart the stream. */
  ghost predicate Continues(w: World, x: LiveOp, space: SpaceUnit) {
    x.Scroll? ==>
      && ValidOp(Snap(x.source, x.meta)) && ValidOp(SubmitLatest(x.sequence, x.topic, x.track))
      && x.sequence > w.stream.latestSequence && !ResetNeeded(w.stream, Scrolled(w, x, space))
  }

  ghost predicate AllContinue(w: World, xs: seq<LiveOp>, cfg: Config, space: SpaceUnit) {
    xs != [] ==>
      && AllContinue(w, xs[..|xs| - 1], cfg, space)
      && Continues(LiveRun(w, xs[..|xs| - 1], cfg, space), xs[|xs| - 1], space)
  }

  /** Everything the parts keep over any run, whatever is on display. */
  ghost predicate Kept(w: World, word: WordUnit) {
    Sound(w) && ShowsTruth(w.stream, word) && RowsKept(w.stream)
  }

  /** The latest capture is on display, with every invariant of the parts. */
  ghost predicate Showing(w: World, word: WordUnit) {
    && Kept(w, word) && w.stream.current.Some? && w.stream.current.value.request.current == w.tracker.previous
    && Segments(w.tracker.previous) != []
  }

  /** What one step does to key k: the display moves on, the seal holds, no hint is gained. */
  ghost predicate Holds(s: Coordinator, t: Coordinator, k: Key) {
    && Advances(CurrentSegments(s), CurrentSegments(t))
    && (k in KeySet(CurrentSegments(t)) ==> k in t.frozen && GainsNone(s, t, k))
  }

  lemma {:induction false} ShowingRun(w: World, word: WordUnit)
    requires Showing(w, word)
    ensures KeyRun(CurrentSegments(w.stream)) && Behind(CurrentSegments(w.stream), w.tracker)
  {
  }

  /** From any such world a capture submitted under a newer number is on display: scrolling runs do begin. */
  lemma {:induction false} ScrollBegins(w: World, x: LiveOp, cfg: Config, space: SpaceUnit)
    requires Kept(w, cfg.word) && x.Scroll? && SoundSpace(space)
    requires ValidOp(Snap(x.source, x.meta)) && ValidOp(SubmitLatest(x.sequence, x.topic, x.track))
    requires x.sequence > w.stream.latestSequence && LiveStep(w, x, cfg, space).tracker.nextId <= MAX_SAFE_INTEGER
    ensures Showing(LiveStep(w, x, cfg, space), cfg.word)
    ensures LiveStep(w, x, cfg, space).stream == Submit(w.stream, Scrolled(w, x, space), cfg.word)
  {
    hide Sound, ShowsTruth, RowsKept, Submit, Capture;
    var captured := WorldStep(w, Snap(x.source, x.meta), cfg, space);
    WorldStepSound(w, Snap(x.source, x.meta), cfg, space);
    WorldStepSound(captured, SubmitLatest(x.sequence, x.topic, x.track), cfg, space);
    SubmitCaption(w.stream, Scrolled(w, x, space), cfg.word);
    SubmitShows(w.stream, Scrolled(w, x, space), cfg);
    SubmitRows(w.stream, Scrolled(w, x, space), cfg);
    CaptureTiles(w.tracker, x.source, x.meta, space);
    CaptionShown(Segments(Capture(w.tracker, x.source, x.meta, space).previous));
  }

  lemma {:induction false} CaptionShown(segs: seq<Segment>)
    ensures SegText(segs) != [] ==> segs != []
  {
  }

  /** Every run of tracker and coordinator ends in such a world. */
  lemma {:induction false} RunKeeps(prefix: string, ops: seq<Op>, cfg: Config, space: SpaceUnit)
    requires |prefix| <= 100 && SoundSpace(space) && forall i | 0 <= i < |ops| :: ValidOp(ops[i])
    requires WorldRun(NewWorld(prefix), ops, cfg, space).tracker.nextId <= MAX_SAFE_INTEGER
    ensures Kept(WorldRun(NewWorld(prefix), ops, cfg, space), cfg.word)
    decreases |ops|
  {
    hide Sound, ShowsTruth, RowsKept, WorldStep, SoundSpace;
    WorldRunSound(prefix, ops, cfg, space);
    if ops == [] {
      NothingShown(cfg.word);
    } else {
      var before, last := WorldRun(NewWorld(prefix), ops[..|ops| - 1], cfg, space), ops[|ops| - 1];
      StepSerials(before, last, cfg, space);
      RunKeeps(prefix, ops[..|ops| - 1], cfg, space);
      StepKeepsDisplay(before, last, cfg, space);
    }
  }

  lemma {:induction false} NothingShown(word: WordUnit)
    ensures ShowsTruth(Initial(), word) && RowsKept(Initial())
  {
  }

  lemma {:induction false} StepSerials(w: World, op: Op, cfg: Config, space: SpaceUnit)
    ensures w.tracker.nextId <= WorldStep(w, op, cfg, space).tracker.nextId
  {
    hide Step;
    SerialsGrow(w.tracker, op, space);
  }

  lemma {:induction false} StepKeepsDisplay(w: World, op: Op, cfg: Config, space: SpaceUnit)
    requires ShowsTruth(w.stream, cfg.word) && RowsKept(w.stream)
    ensures ShowsTruth(WorldStep(w, op, cfg, space).stream, cfg.word) && RowsKept(WorldStep(w, op, cfg, space).stream)
  {
    hide Step, ShowsTruth, RowsKept;
    if InputOf(w, op).Some? {
      StepShows(w.stream, InputOf(w, op).value, cfg);
      StepRows(w.stream, InputOf(w, op).value, cfg);
    }
  }

  lemma {:induction false} ScrollShows(w: World, x: LiveOp, cfg: Config, space: SpaceUnit)
    requires Showing(w, cfg.word) && x.Scroll? && Continues(w, x, space) && SoundSpace(space)
    requires LiveStep(w, x, cfg, space).tracker.nextId <= MAX_SAFE_INTEGER
    ensures Showing(LiveStep(w, x, cfg, space), cfg.word)
    ensures LiveStep(w, x, cfg, space).stream == Submit(w.stream, Scrolled(w, x, space), cfg.word)
  {
    ScrollBegins(w, x, cfg, space);
  }

  lemma {:induction false} ScrollHolds(w: World, x: LiveOp, k: Key, cfg: Config, space: SpaceUnit)
    requires Showing(w, cfg.word) && x.Scroll? && Continues(w, x, space) && SoundSpace(space)
    requires k in w.stream.frozen
    ensures Holds(w.stream, Submit(w.stream, Scrolled(w, x, space), cfg.word), k)
  {
    var e := Scrolled(w, x, space);
    SubmitCaption(w.stream, e, cfg.word);
    CaptureTiles(w.tracker, x.source, x.meta, space);
    CaptureAdvances(w.tracker, x.source, x.meta, space);
    if k in KeySet(Segments(e.request.current)) {
      SubmitKeepsSeal(w.stream, e, k, cfg);
      SubmitGainsNone(w.stream, e, k, cfg, w.tracker, x.source, x.meta, space);
    }
  }

  /** t shows the same caption as s, truthfully, with its rows kept. */
  ghost predicate SameCaptionShown(s: Coordinator, t: Coordinator, word: WordUnit) {
    t.current == s.current && ShowsTruth(t, word) && RowsKept(t)
  }

  lemma {:induction false} FireTouches(s: Coordinator)
    ensures var t := Fire(s);
            && t.current == s.current && t.hints == s.hints && t.views == s.views && t.accepted == s.accepted
            && t.frozen == s.frozen && t.finalized == s.finalized && t.activeRow == s.activeRow
  {
  }

  lemma {:induction false} FireQuiet(s: Coordinator, k: Key, word: WordUnit)
    requires ShowsTruth(s, word) && RowsKept(s) && KeyRun(CurrentSegments(s))
    ensures SameCaptionShown(s, Fire(s), word)
    ensures k in s.frozen ==> Holds(s, Fire(s), k)
  {
    FireTouches(s);
    FireShows(s, word);
    SameRows(s, Fire(s));
    SameCaptionHolds(s, Fire(s), k);
  }

  /** With the same caption and no hint added to key k, the seal on k holds. */
  lemma {:induction false} SameCaptionHolds(s: Coordinator, t: Coordinator, k: Key)
    requires t.current == s.current && KeyRun(CurrentSegments(s))
    requires k in s.frozen ==> k in t.frozen && (GainsNone(s, t, k) || t.hints == s.hints)
    ensures k in s.frozen ==> Holds(s, t, k)
  {
    AdvancesReflexive(CurrentSegments(s));
    assert CurrentSegments(t) == CurrentSegments(s);
    if t.hints == s.hints {
      GainsNoneSame(s, t, k);
    }
  }

  lemma {:induction false} AnswerQuiet(s: Coordinator, i: nat, result: Result, k: Key, cfg: Config)
    requires ShowsTruth(s, cfg.word) && RowsKept(s) && KeyRun(CurrentSegments(s)) && i < |s.sent|
    ensures SameCaptionShown(s, Accept(s, s.sent[i], result, cfg), cfg.word)
    ensures k in s.frozen ==> Holds(s, Accept(s, s.sent[i], result, cfg), k)
  {
    var d := s.sent[i];
    AcceptCaption(s, d, result, cfg);
    AcceptShows(s, i, result, cfg);
    AcceptRows(s, d, result, cfg);
    if k in s.frozen {
      AcceptKeepsSeal(s, d, result, k, cfg);
      AcceptGainsNone(s, d, result, k, cfg);
      SameCaptionHolds(s, Accept(s, d, result, cfg), k);
    }
  }

  lemma {:induction false} QuietStream(w: World, x: LiveOp, cfg: Config, space: SpaceUnit)
    requires !x.Scroll?
    ensures LiveStep(w, x, cfg, space).stream
            == if x.LiveTimer? then Fire(w.stream)
               else if x.index < |w.stream.sent| then Accept(w.stream, w.stream.sent[x.index], x.result, cfg)
               else w.stream
  {
    hide Fire, Accept, Submit, Clear, Capture;
  }

  lemma {:induction false} QuietEvent(s: Coordinator, x: LiveOp, t: Coordinator, k: Key, cfg: Config)
    requires ShowsTruth(s, cfg.word) && RowsKept(s) && KeyRun(CurrentSegments(s)) && !x.Scroll?
    requires t == if x.LiveTimer? then Fire(s) else if x.index < |s.sent|
             then Accept(s, s.sent[x.index], x.result, cfg) else s
    ensures SameCaptionShown(s, t, cfg.word)
    ensures k in s.frozen ==> Holds(s, t, k)
  {
    if x.LiveTimer? {
      FireQuiet(s, k, cfg.word);
    } else if x.index < |s.sent| {
      AnswerQuiet(s, x.index, x.result, k, cfg);
    } else {
      SameCaptionHolds(s, s, k);
    }
  }

  /** The coordinator's own events show the same caption and break no seal. */
  lemma {:induction false} QuietStep(w: World, x: LiveOp, k: Key, cfg: Config, space: SpaceUnit)
    requires Showing(w, cfg.word) && !x.Scroll?
    ensures SameCaptionShown(w.stream, LiveStep(w, x, cfg, space).stream, cfg.word)
    ensures k in w.stream.frozen ==> Holds(w.stream, LiveStep(w, x, cfg, space).stream, k)
  {
    ShowingRun(w, cfg.word);
    QuietStream(w, x, cfg, space);
    QuietEvent(w.stream, x, LiveStep(w, x, cfg, space).stream, k, cfg);
  }

  lemma {:induction false} QuietSound(w: World, x: LiveOp, cfg: Config, space: SpaceUnit)
    requires Sound(w) && !x.Scroll? && SoundSpace(space) && w.tracker.nextId <= MAX_SAFE_INTEGER
    ensures Sound(LiveStep(w, x, cfg, space)) && LiveStep(w, x, cfg, space).tracker == w.tracker
  {
    match x
    case LiveTimer => WorldStepSound(w, TimerFires, cfg, space);
    case LiveAnswer(i, result) => WorldStepSound(w, AnswerArrives(i, result), cfg, space);
  }

  lemma {:induction false} LiveStepHolds(w: World, x: LiveOp, k: Key, cfg: Config, space: SpaceUnit)
    requires Showing(w, cfg.word) && Continues(w, x, space) && SoundSpace(space) && k in w.stream.frozen
    requires LiveStep(w, x, cfg, space).tracker.nextId <= MAX_SAFE_INTEGER
    ensures Holds(w.stream, LiveStep(w, x, cfg, space).stream, k)
  {
    if x.Scroll? {
      ScrollShows(w, x, cfg, space);
      ScrollHolds(w, x, k, cfg, space);
    } else {
      QuietStep(w, x, k, cfg, space);
    }
  }

  lemma {:induction false} SameShowing(w: World, v: World, word: WordUnit)
    requires Showing(w, word) && Sound(v) && v.tracker == w.tracker && SameCaptionShown(w.stream, v.stream, word)
    ensures Showing(v, word) && Advances(CurrentSegments(w.stream), CurrentSegments(v.stream))
  {
    ShowingRun(w, word);
    AdvancesReflexive(CurrentSegments(w.stream));
    assert CurrentSegments(v.stream) == CurrentSegments(w.stream);
  }

  lemma {:induction false} LiveStepShows(w: World, x: LiveOp, cfg: Config, space: SpaceUnit)
    requires Showing(w, cfg.word) && Continues(w, x, space) && SoundSpace(space)
    requires LiveStep(w, x, cfg, space).tracker.nextId <= MAX_SAFE_INTEGER
    ensures Showing(LiveStep(w, x, cfg, space), cfg.word)
    ensures Advances(CurrentSegments(w.stream), CurrentSegments(LiveStep(w, x, cfg, space).stream))
  {
    if x.Scroll? {
      ScrollShows(w, x, cfg, space);
      SubmitCaption(w.stream, Scrolled(w, x, space), cfg.word);
      CaptureTiles(w.tracker, x.source, x.meta, space);
      CaptureAdvances(w.tracker, x.source, x.meta, space);
    } else {
      LiveSerialsGrow(w, x, cfg, space);
      QuietSound(w, x, cfg, space);
      QuietStep(w, x, Key("", 0), cfg, space);
      SameShowing(w, LiveStep(w, x, cfg, space), cfg.word);
    }
  }

  lemma {:induction false} LiveSerialsGrow(w: World, x: LiveOp, cfg: Config, space: SpaceUnit)
    ensures w.tracker.nextId <= LiveStep(w, x, cfg, space).tracker.nextId
  {
  }

  lemma {:induction false} HoldsTransitive(s: Coordinator, t: Coordinator, u: Coordinator, k: Key)
    requires k in KeySet(CurrentSegments(s)) && Holds(s, t, k)
    requires Advances(CurrentSegments(t), CurrentSegments(u))
    requires k in t.frozen ==> Holds(t, u, k)
    ensures Holds(s, u, k)
  {
    AdvancesTransitive(CurrentSegments(s), CurrentSegments(t), CurrentSegments(u));
    if k in KeySet(CurrentSegments(u)) {
      SharedKeyBetween(CurrentSegments(s), CurrentSegments(t), CurrentSegments(u), k);
    }
  }

  /**
   * While captions keep scrolling, a sealed key that is still shown is still sealed, and the set of hints touching it,
   * each at its place in the row, never gains a member: late answers never rewrite an old row.
   */
  lemma {:induction false} SealedRowsStaySealed(w: World, xs: seq<LiveOp>, k: Key, cfg: Config, space: SpaceUnit)
    requires Showing(w, cfg.word) && AllContinue(w, xs, cfg, space) && SoundSpace(space) && k in w.stream.frozen
    requires LiveRun(w, xs, cfg, space).tracker.nextId <= MAX_SAFE_INTEGER
    ensures Showing(LiveRun(w, xs, cfg, space), cfg.word)
    ensures Holds(w.stream, LiveRun(w, xs, cfg, space).stream, k)
  {
    if xs == [] {
      ShowingRun(w, cfg.word);
      AdvancesReflexive(CurrentSegments(w.stream));
      GainsNoneSame(w.stream, w.stream, k);
    } else {
      var mid, x := LiveRun(w, xs[..|xs| - 1], cfg, space), xs[|xs| - 1];
      LiveSerialsGrow(mid, x, cfg, space);
      SealedRowsStaySealed(w, xs[..|xs| - 1], k, cfg, space);
      LiveStepShows(mid, x, cfg, space);
      if k in mid.stream.frozen {
        LiveStepHolds(mid, x, k, cfg, space);
      }
      HoldsTransitive(w.stream, mid.stream, LiveStep(mid, x, cfg, space).stream, k);
    }
  }
}
