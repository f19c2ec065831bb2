/**
 * The whole extension, end to end: the page machine hands captures, submits and clears to tracker and coordinator in
 * the order it made them, and the theorems of the parts are carried over to every run of the composition.
 */
module Pipeline {
  import opened Wrappers
  import opened Utf16
  import opened Protocol
  import opened CaptionSnapshot
  import opened Stream
  import opened StreamRequests
  import opened StreamHints
  import opened StreamRows
  import opened CaptionRun
  import P = Page
  import opened PageSafety

  datatype Extension = Extension(page: P.PageState, world: World)

  datatype Happening =
    | PageHappens(event: P.PageEvent)
    | TimerHappens
    | AnswerHappens(index: nat, result: Result)

  /** What tracker and coordinator do with the operations of one callback, in order. */
  function Apply(w: World, log: seq<P.Emission>, cfg: Config, space: SpaceUnit): World {
    if log == [] then w else WorldStep(Apply(w, log[..|log| - 1], cfg, space), log[|log| - 1].op, cfg, space)
  }

  function NewEntries(before: P.PageState, after: P.PageState): seq<P.Emission> {
    if |before.log| <= |after.log| then after.log[|before.log|..] else []
  }

  function ExtensionStep(x: Extension, h: Happening, hash: P.TopicHash, cfg: Config, space: SpaceUnit): Extension {
    match h
    case PageHappens(e) =>
      var page := P.PageStep(x.page, e, hash);
      Extension(page, Apply(x.world, NewEntries(x.page, page), cfg, space))
    case TimerHappens => x.(world := WorldStep(x.world, TimerFires, cfg, space))
    case AnswerHappens(i, result) => x.(world := WorldStep(x.world, AnswerArrives(i, result), cfg, space))
  }

  function ExtensionRun(x: Extension, hs: seq<Happening>, hash: P.TopicHash, cfg: Config, space: SpaceUnit): Extension {
    if hs == [] then x else ExtensionStep(ExtensionRun(x, hs[..|hs| - 1], hash, cfg, space), hs[|hs| - 1], hash, cfg,
        space)
  }

  function NewExtension(videoId: Option<string>, prefix: string): Extension {
    Extension(P.NewPage(videoId), NewWorld(prefix))
  }

  // ---- The log only grows, with valid operations ----------------------------------------------

  /** What the page gives: whole text, few line breaks, legal metadata and track. */
  ghost predicate ValidEnv(env: P.Env) {
    && (env.source.Some? ==>
        WellFormed(env.source.value.caption) && |env.source.value.lineBreaks| <= |env.source.value.caption|)
    && ValidMetadata(env.meta)
    && (env.track.Some? ==> BoundedId(env.track.value))
  }

  ghost predicate ValidHappening(h: Happening) {
    h.PageHappens? ==> ValidEnv(h.event.env)
  }

  ghost predicate ValidHash(hash: P.TopicHash) {
    forall v :: BoundedId(hash(v))
  }

  ghost predicate Named(p: P.PageState) {
    && (p.acq.topic.Some? ==> BoundedId(p.acq.topic.value))
    && (p.acq.trackKey.Some? ==> BoundedId(p.acq.trackKey.value))
  }

  /** The page produces legal operations, and neither timers nor answers. */
  ghost predicate PageOp(op: Op) {
    ValidOp(op) && !op.TimerFires? && !op.AnswerArrives?
  }

  ghost predicate Grows(p: P.PageState, q: P.PageState) {
    && p.log <= q.log && Named(q)
    && forall i | |p.log| <= i < |q.log| :: PageOp(q.log[i].op)
  }

  lemma {:induction false} GrowsTransitive(p: P.PageState, q: P.PageState, r: P.PageState)
    requires Grows(p, q) && Grows(q, r)
    ensures Grows(p, r)
  {
    forall i | |p.log| <= i < |r.log|
      ensures PageOp(r.log[i].op)
    {
      if i < |q.log| {
        assert r.log[i] == q.log[i];
      }
    }
  }

  lemma {:induction false} ClearSourceGrows(p: P.PageState, env: P.Env)
    requires Named(p)
    ensures Grows(p, P.ClearSource(p, env))
  {
  }

  lemma {:induction false} RestartGrows(p: P.PageState, env: P.Env)
    requires Named(p)
    ensures Grows(p, P.Restart(p, env))
  {
  }

  lemma {:induction false} GenerationResetGrows(p: P.PageState, env: P.Env)
    requires Named(p)
    ensures Grows(p, P.GenerationReset(p, env))
  {
  }

  lemma {:induction false} SettleGrows(p: P.PageState, env: P.Env)
    requires Named(p)
    ensures Grows(p, P.Settle(p, env))
  {
    var p1 := if p.acq.pageKey != p.life.pageKey then P.ResetPage(p, env) else p;
    GenerationResetGrows(p, env);
    RestartGrows(p1.(acq := p1.acq.(activePlayer := env.player)), env);
    GrowsTransitive(p, p1, P.Settle(p, env));
  }

  lemma {:induction false} ResumeGrows(p: P.PageState, video: string, env: P.Env)
    requires Named(p)
    ensures Grows(p, P.Resume(p, video, env))
  {
    var p1 := if p.acq.missingAt.Some? && env.now - p.acq.missingAt.value > P.MAX_GAP_MS then P.Restart(p, env) else p;
    RestartGrows(p, env);
    var p2 := p1.(acq := p1.acq.(missingAt := None));
    RestartGrows(p2.(acq := p2.acq.(lastVideoId := Some(video))), env);
    GrowsTransitive(p, p1, P.Resume(p, video, env));
  }

  lemma {:induction false} NoteTrackGrows(p: P.PageState, video: string, caption: Text, env: P.Env)
    requires Named(p) && ValidEnv(env)
    ensures Grows(p, P.NoteTrack(p, video, caption, env))
  {
    RestartGrows(p, env);
  }

  lemma {:induction false} AcquireGrows(p: P.PageState, video: string, source: Source, env: P.Env)
    requires Named(p) && ValidEnv(env) && env.source == Some(source) && source.caption != []
    ensures Grows(p, P.Acquire(p, video, source, env))
  {
    var key := P.CaptionKey(video, p.acq.revision, source.caption);
    if p.acq.activeCaption != Some(key) {
      if |source.caption| > MAX_CAPTION_LENGTH {
        ClearSourceGrows(p.(acq := p.acq.(activeCaption := None, sequence := p.acq.sequence + 1)), env);
      } else {
        var q := P.TakeSnapshot(p, key, source, env);
        assert Grows(p, q);
        ProceedGrows(q, P.AttemptFor(q, key, env), env);
        GrowsTransitive(p, q, P.Acquire(p, video, source, env));
      }
    }
  }

  lemma {:induction false} ProceedGrows(p: P.PageState, t: P.Attempt, env: P.Env)
    requires Named(p)
    ensures Grows(p, P.Proceed(p, t, env))
  {
  }

  lemma {:induction false} CaptureNowGrows(p: P.PageState, env: P.Env)
    requires Named(p) && ValidEnv(env)
    ensures Grows(p, P.CaptureNow(p, env))
  {
    hide Grows, P.Resume, P.NoteTrack;
    var settled := P.Settle(p, env);
    SettleGrows(p, env);
    var source := P.ReadSource(settled.life, env);
    if !env.hasVideo || settled.life.videoId.None? || source.None? || source.value.caption == [] {
      RestartGrows(settled, env);
      GrowsTransitive(p, settled, P.CaptureNow(p, env));
    } else {
      var video := settled.life.videoId.value;
      var resumed := P.Resume(settled, video, env);
      var noted := P.NoteTrack(resumed, video, source.value.caption, env);
      ResumeGrows(settled, video, env);
      NoteTrackGrows(resumed, video, source.value.caption, env);
      AcquireGrows(noted, video, source.value, env);
      GrowsTransitive(p, settled, resumed);
      GrowsTransitive(p, resumed, noted);
      GrowsTransitive(p, noted, P.CaptureNow(p, env));
    }
  }

  lemma {:induction false} CaptureLiveGrows(p: P.PageState, env: P.Env)
    requires Named(p) && ValidEnv(env)
    ensures Grows(p, P.CaptureLive(p, env))
  {
    var moved := p.(life := P.ResetForLocation(p.life, env));
    GenerationResetGrows(moved, env);
    var p1 := if p.life.videoId != env.currentVideoId then P.GenerationReset(moved, env) else p;
    CaptureNowGrows(p1, env);
    GrowsTransitive(p, p1, P.CaptureNow(p1, env));
  }

  lemma {:induction false} LifeStepGrows(p: P.PageState, ev: P.LifeEvent, env: P.Env)
    requires Named(p) && ValidEnv(env)
    ensures Grows(p, P.LifeStep(p, ev, env))
  {
    var r := P.React(p.life, ev, env);
    var moved := p.(life := r.life);
    GenerationResetGrows(moved, env);
    var reset := if r.invalidates then P.GenerationReset(moved, env) else moved;
    CaptureLiveGrows(reset, env);
    GrowsTransitive(p, reset, P.CaptureLive(reset, env));
  }

  lemma {:induction false} SettledGrows(p: P.PageState, i: nat, ok: bool, hash: P.TopicHash, env: P.Env)
    requires Named(p) && ValidHash(hash) && i < |p.pending|
    ensures Grows(p, P.Settled(p, i, ok, hash, env))
  {
    assert BoundedId(P.TopicOf(p.pending[i].promise.video, hash));
  }

  lemma {:induction false} PageStepGrows(p: P.PageState, e: P.PageEvent, hash: P.TopicHash)
    requires Named(p) && ValidHash(hash) && ValidEnv(e.env)
    ensures Grows(p, P.PageStep(p, e, hash))
  {
    match e
    case Life(ev, env) => LifeStepGrows(p, ev, env);
    case HashSettles(i, ok, env) =>
      if i < |p.pending| {
        SettledGrows(p, i, ok, hash, env);
      }
  }

  // ---- Log and world in step ------------------------------------------------------------------

  /** The event was submitted by a log entry with this caption on the screen. */
  ghost predicate Witnessed(log: seq<P.Emission>, e: Event) {
    exists i | 0 <= i < |log| ::
      && log[i].op == SubmitLatest(e.sequence, e.request.topic, e.request.track)
      && log[i].caption == Some(SnapshotText(e.request.current))
  }

  /** The coordinator has seen every number of the log, and the tracker its latest caption. */
  ghost predicate InStep(log: seq<P.Emission>, w: World) {
    && (w.stream.latestSequence == 0 || exists i | 0 <= i < |log| ::
        SequenceOf(log[i].op) == Some(w.stream.latestSequence))
    && (LatestCaption(log).Some? ==> SnapshotText(w.tracker.previous) == LatestCaption(log).value)
    && (w.stream.current.Some? ==> Witnessed(log, w.stream.current.value))
    && forall i | 0 <= i < |w.stream.sent| :: Witnessed(log, w.stream.sent[i].event)
  }

  ghost predicate Healthy(w: World, word: WordUnit) {
    Sound(w) && ShowsTruth(w.stream, word) && RowsKept(w.stream)
  }

  lemma {:induction false} WitnessedLater(log: seq<P.Emission>, x: P.Emission, e: Event)
    requires Witnessed(log, e)
    ensures Witnessed(log + [x], e)
  {
    var i :| 0 <= i < |log| && log[i].op == SubmitLatest(e.sequence, e.request.topic, e.request.track)
             && log[i].caption == Some(SnapshotText(e.request.current));
    assert (log + [x])[i] == log[i];
  }

  lemma {:induction false} HealthyStep(w: World, op: Op, cfg: Config, space: SpaceUnit)
    requires Healthy(w, cfg.word) && ValidOp(op) && SoundSpace(space)
    requires WorldStep(w, op, cfg, space).tracker.nextId <= MAX_SAFE_INTEGER
    ensures Healthy(WorldStep(w, op, cfg, space), cfg.word)
  {
    WorldStepSound(w, op, cfg, space);
    if InputOf(w, op).Some? {
      StepShows(w.stream, InputOf(w, op).value, cfg);
      StepRows(w.stream, InputOf(w, op).value, cfg);
    }
  }

  /** The guard on sequence numbers lets the next entry through. */
  lemma {:induction false} GuardOpen(log: seq<P.Emission>, x: P.Emission, w: World, hash: P.TopicHash)
    requires InStep(log, w) && GoodLog(log + [x], hash) && SequenceOf(x.op).Some?
    ensures SequenceOf(x.op).value > w.stream.latestSequence
  {
    var longer := log + [x];
    assert longer[|log|] == x;
    if w.stream.latestSequence > 0 {
      var i :| 0 <= i < |log| && SequenceOf(log[i].op) == Some(w.stream.latestSequence);
      assert longer[i] == log[i];
    }
  }

  lemma {:induction false} StepSequence(s: Coordinator, input: Input, cfg: Config)
    ensures Step(s, input, cfg).latestSequence
            == match input
               case DoSubmit(e) => if e.sequence > s.latestSequence then e.sequence else s.latestSequence
               case DoClear(n) => if n > s.latestSequence then n else s.latestSequence
               case _ => s.latestSequence
  {
    match input
    case DoSubmit(e) =>
      if e.sequence > s.latestSequence {
        SubmitSequence(s, e, cfg);
      }
    case DoClear(n) =>
    case DoFire =>
    case DoAnswer(i, result) =>
      if i < |s.sent| {
        AcceptSequence(s, s.sent[i], result, cfg);
      }
  }

  lemma {:induction false} SubmitSequence(s: Coordinator, e: Event, cfg: Config)
    requires e.sequence > s.latestSequence
    ensures Submit(s, e, cfg.word).latestSequence == e.sequence
  {
    ArrivedRequests(s, e, cfg);
  }

  lemma {:induction false} AcceptSequence(s: Coordinator, d: Dispatch, result: Result, cfg: Config)
    ensures Accept(s, d, result, cfg).latestSequence == s.latestSequence
  {
    hide Remap, Merge, SortHints, OlderRows, Answers;
  }

  /** Requests sent by a step are for the caption on display before it. */
  lemma {:induction false} StepSent(s: Coordinator, input: Input, cfg: Config)
    ensures var s' := Step(s, input, cfg);
            || s'.sent == s.sent
            || (s.current.Some? && s'.sent == s.sent + [Outgoing(s)])
  {
    if input.DoAnswer? && input.index < |s.sent| {
      AcceptSends(s, s.sent[input.index], input.result, cfg);
    } else if input.DoSubmit? && input.event.sequence > s.latestSequence {
      ArrivedCoverage(s, input.event, cfg.word);
      SubmitCoverage(s, input.event, cfg.word);
    } else if input.DoFire? && s.timer && s.current.Some? {
      assert Outgoing(s.(timer := false)) == Outgoing(s);
    }
  }

  lemma {:induction false} StepShown(s: Coordinator, input: Input, cfg: Config)
    ensures var s' := Step(s, input, cfg);
            s'.current == s.current || s'.current.None? || (input.DoSubmit? && s'.current == Some(input.event))
  {
    if input.DoAnswer? && input.index < |s.sent| {
      AcceptCaption(s, s.sent[input.index], input.result, cfg);
    } else if input.DoSubmit? && input.event.sequence > s.latestSequence {
      SubmitCaption(s, input.event, cfg.word);
    }
  }

  lemma {:induction false} OutgoingWitnessed(log: seq<P.Emission>, s: Coordinator)
    requires s.current.Some? && Witnessed(log, s.current.value)
    ensures Witnessed(log, Outgoing(s).event)
  {
    MarkAlike(s.current.value.request.current, s.completed);
  }

  /** Every sent request stays witnessed, and so does the caption on display. */
  lemma {:induction false} WitnessesStep(log: seq<P.Emission>, x: P.Emission, s: Coordinator, input: Input, cfg: Config)
    requires s.current.Some? ==> Witnessed(log, s.current.value)
    requires forall i | 0 <= i < |s.sent| :: Witnessed(log, s.sent[i].event)
    requires input.DoSubmit? ==> Witnessed(log + [x], input.event)
    ensures var s' := Step(s, input, cfg);
            && (s'.current.Some? ==> Witnessed(log + [x], s'.current.value))
            && forall i | 0 <= i < |s'.sent| :: Witnessed(log + [x], s'.sent[i].event)
  {
    hide Step, Witnessed, Outgoing;
    var s' := Step(s, input, cfg);
    StepShown(s, input, cfg);
    StepSent(s, input, cfg);
    if s.current.Some? {
      OutgoingWitnessed(log, s);
      WitnessedLater(log, x, s.current.value);
      WitnessedLater(log, x, Outgoing(s).event);
    }
    forall i | 0 <= i < |s.sent|
      ensures Witnessed(log + [x], s.sent[i].event)
    {
      WitnessedLater(log, x, s.sent[i].event);
    }
  }

  lemma {:induction false} SequenceStep(log: seq<P.Emission>, x: P.Emission, w: World, cfg: Config, space: SpaceUnit,
                                        hash: P.TopicHash)
    requires InStep(log, w) && GoodLog(log + [x], hash) && !x.op.TimerFires? && !x.op.AnswerArrives?
    ensures var w', longer := WorldStep(w, x.op, cfg, space), log + [x];
            w'.stream.latestSequence == 0 || exists i | 0 <= i < |longer| ::
                SequenceOf(longer[i].op) == Some(w'.stream.latestSequence)
  {
    var longer := log + [x];
    assert longer[|log|] == x;
    if SequenceOf(x.op).Some? {
      GuardOpen(log, x, w, hash);
      StepSequence(w.stream, InputOf(w, x.op).value, cfg);
      assert SequenceOf(longer[|log|].op) == Some(WorldStep(w, x.op, cfg, space).stream.latestSequence);
    } else if w.stream.latestSequence > 0 {
      var i :| 0 <= i < |log| && SequenceOf(log[i].op) == Some(w.stream.latestSequence);
      assert longer[i] == log[i];
    }
  }

  lemma {:induction false} CaptionStep(log: seq<P.Emission>, x: P.Emission, w: World, cfg: Config, space: SpaceUnit)
    requires LatestCaption(log).Some? ==> SnapshotText(w.tracker.previous) == LatestCaption(log).value
    ensures LatestCaption(log + [x]).Some? ==>
              SnapshotText(WorldStep(w, x.op, cfg, space).tracker.previous) == LatestCaption(log + [x]).value
  {
    LatestAfter(log, x);
    if x.op.Snap? {
      CaptureTiles(w.tracker, x.op.source, x.op.meta, space);
    }
  }

  /** One log entry applied to the world keeps log and world in step. */
  lemma {:induction false} EntryInStep(log: seq<P.Emission>, x: P.Emission, w: World, cfg: Config, space: SpaceUnit,
                                       hash: P.TopicHash)
    requires InStep(log, w) && GoodLog(log + [x], hash) && !x.op.TimerFires? && !x.op.AnswerArrives?
    ensures InStep(log + [x], WorldStep(w, x.op, cfg, space))
  {
    SequenceStep(log, x, w, cfg, space, hash);
    CaptionStep(log, x, w, cfg, space);
    if InputOf(w, x.op).Some? {
      if x.op.SubmitLatest? {
        SubmitWitnessed(log, x, w, hash);
      }
      WitnessesStep(log, x, w.stream, InputOf(w, x.op).value, cfg);
    } else {
      SameWitnesses(log, x, w.stream);
    }
  }

  lemma {:induction false} SubmitWitnessed(log: seq<P.Emission>, x: P.Emission, w: World, hash: P.TopicHash)
    requires InStep(log, w) && GoodLog(log + [x], hash) && x.op.SubmitLatest?
    ensures Witnessed(log + [x], LatestEvent(w, x.op.sequence, x.op.topic, x.op.track))
  {
    var longer := log + [x];
    assert Truthful(longer, |log|, hash) && longer[|log|] == x && longer[..|log|] == log;
  }

  lemma {:induction false} SameWitnesses(log: seq<P.Emission>, x: P.Emission, s: Coordinator)
    requires s.current.Some? ==> Witnessed(log, s.current.value)
    requires forall i | 0 <= i < |s.sent| :: Witnessed(log, s.sent[i].event)
    ensures s.current.Some? ==> Witnessed(log + [x], s.current.value)
    ensures forall i | 0 <= i < |s.sent| :: Witnessed(log + [x], s.sent[i].event)
  {
    if s.current.Some? {
      WitnessedLater(log, x, s.current.value);
    }
    forall i | 0 <= i < |s.sent|
      ensures Witnessed(log + [x], s.sent[i].event)
    {
      WitnessedLater(log, x, s.sent[i].event);
    }
  }

  /** Timers and answers add no log entry. */
  lemma {:induction false} QuietInStep(log: seq<P.Emission>, w: World, op: Op, cfg: Config, space: SpaceUnit)
    requires InStep(log, w) && (op.TimerFires? || op.AnswerArrives?)
    ensures InStep(log, WorldStep(w, op, cfg, space))
  {
    var input := InputOf(w, op).value;
    StepSequence(w.stream, input, cfg);
    StepShown(w.stream, input, cfg);
    StepSent(w.stream, input, cfg);
    if w.stream.current.Some? {
      OutgoingWitnessed(log, w.stream);
    }
  }

  // ---- Every happening ------------------------------------------------------------------------

  lemma {:induction false} GoodLogPrefix(log: seq<P.Emission>, more: seq<P.Emission>, hash: P.TopicHash)
    requires GoodLog(log + more, hash)
    ensures GoodLog(log, hash)
  {
    var all := log + more;
    forall i | 0 <= i < |log|
      ensures log[i] == all[i] && log[..i] == all[..i]
    {
    }
    forall i | 0 <= i < |log|
      ensures Truthful(log, i, hash)
    {
      assert Truthful(all, i, hash);
    }
  }

  lemma {:induction false} SerialsApply(w: World, more: seq<P.Emission>, cfg: Config, space: SpaceUnit)
    requires more != []
    ensures Apply(w, more[..|more| - 1], cfg, space).tracker.nextId <= Apply(w, more, cfg, space).tracker.nextId
  {
    SerialsGrow(Apply(w, more[..|more| - 1], cfg, space).tracker, more[|more| - 1].op, space);
  }

  /** The operations of one callback, applied in order, keep everything in step. */
  lemma {:induction false} ApplyInStep(log: seq<P.Emission>, more: seq<P.Emission>, w: World, cfg: Config,
                                       space: SpaceUnit, hash: P.TopicHash)
    requires Healthy(w, cfg.word) && InStep(log, w) && GoodLog(log + more, hash) && SoundSpace(space)
    requires forall i | 0 <= i < |more| :: PageOp(more[i].op)
    requires Apply(w, more, cfg, space).tracker.nextId <= MAX_SAFE_INTEGER
    ensures Healthy(Apply(w, more, cfg, space), cfg.word) && InStep(log + more, Apply(w, more, cfg, space))
    decreases |more|
  {
    hide Healthy, InStep, GoodLog, WorldStep, SoundSpace;
    if more == [] {
      assert log + more == log;
    } else {
      var init, last := more[..|more| - 1], more[|more| - 1];
      assert log + more == log + init + [last];
      GoodLogPrefix(log + init, [last], hash);
      SerialsApply(w, more, cfg, space);
      ApplyInStep(log, init, w, cfg, space, hash);
      HealthyStep(Apply(w, init, cfg, space), last.op, cfg, space);
      EntryInStep(log + init, last, Apply(w, init, cfg, space), cfg, space, hash);
    }
  }

  ghost predicate Wholesome(x: Extension, hash: P.TopicHash, word: WordUnit) {
    Safe(x.page, hash) && Named(x.page) && Healthy(x.world, word) && InStep(x.page.log, x.world)
  }

  /** more are the new entries of a page that moved from p to q. */
  ghost predicate Entries(p: P.PageState, q: P.PageState, more: seq<P.Emission>, hash: P.TopicHash) {
    && q.log == p.log + more && GoodLog(p.log + more, hash)
    && forall i | 0 <= i < |more| :: PageOp(more[i].op)
  }

  lemma {:induction false} NewEntriesGood(p: P.PageState, e: P.PageEvent, hash: P.TopicHash)
    requires Safe(p, hash) && Named(p) && ValidEnv(e.env) && ValidHash(hash)
    ensures var q := P.PageStep(p, e, hash);
            Safe(q, hash) && Named(q) && Entries(p, q, NewEntries(p, q), hash)
  {
    var q := P.PageStep(p, e, hash);
    PageStepSafe(p, e, hash);
    PageStepGrows(p, e, hash);
    EntriesOf(p, q, NewEntries(p, q), hash);
  }

  lemma {:induction false} EntriesOf(p: P.PageState, q: P.PageState, more: seq<P.Emission>, hash: P.TopicHash)
    requires Grows(p, q) && GoodLog(q.log, hash) && more == q.log[|p.log|..]
    ensures Entries(p, q, more, hash)
  {
    assert q.log == p.log + more;
    forall i | 0 <= i < |more|
      ensures PageOp(more[i].op)
    {
      assert more[i] == q.log[|p.log| + i];
    }
  }

  lemma {:induction false} PageHappensWholesome(x: Extension, e: P.PageEvent, hash: P.TopicHash, cfg: Config,
                                                space: SpaceUnit)
    requires Wholesome(x, hash, cfg.word) && ValidEnv(e.env) && ValidHash(hash) && SoundSpace(space)
    requires ExtensionStep(x, PageHappens(e), hash, cfg, space).world.tracker.nextId <= MAX_SAFE_INTEGER
    ensures Wholesome(ExtensionStep(x, PageHappens(e), hash, cfg, space), hash, cfg.word)
  {
    NewEntriesGood(x.page, e, hash);
    ApplyInStep(x.page.log, NewEntries(x.page, P.PageStep(x.page, e, hash)), x.world, cfg, space, hash);
  }

  lemma {:induction false} QuietWholesome(x: Extension, op: Op, hash: P.TopicHash, cfg: Config, space: SpaceUnit)
    requires Wholesome(x, hash, cfg.word) && (op.TimerFires? || op.AnswerArrives?) && SoundSpace(space)
    requires x.world.tracker.nextId <= MAX_SAFE_INTEGER
    ensures Wholesome(x.(world := WorldStep(x.world, op, cfg, space)), hash, cfg.word)
  {
    HealthyStep(x.world, op, cfg, space);
    QuietInStep(x.page.log, x.world, op, cfg, space);
  }

  lemma {:induction false} HappeningWholesome(x: Extension, h: Happening, hash: P.TopicHash, cfg: Config,
                                              space: SpaceUnit)
    requires Wholesome(x, hash, cfg.word) && ValidHappening(h) && ValidHash(hash) && SoundSpace(space)
    requires ExtensionStep(x, h, hash, cfg, space).world.tracker.nextId <= MAX_SAFE_INTEGER
    ensures Wholesome(ExtensionStep(x, h, hash, cfg, space), hash, cfg.word)
  {
    match h
    case PageHappens(e) => PageHappensWholesome(x, e, hash, cfg, space);
    case TimerHappens => QuietWholesome(x, TimerFires, hash, cfg, space);
    case AnswerHappens(i, result) => QuietWholesome(x, AnswerArrives(i, result), hash, cfg, space);
  }

  lemma {:induction false} ApplySerials(w: World, more: seq<P.Emission>, cfg: Config, space: SpaceUnit)
    ensures w.tracker.nextId <= Apply(w, more, cfg, space).tracker.nextId
    decreases |more|
  {
    if more == [] {
    } else {
      ApplySerials(w, more[..|more| - 1], cfg, space);
      SerialsApply(w, more, cfg, space);
    }
  }

  lemma {:induction false} HappeningSerials(x: Extension, h: Happening, hash: P.TopicHash, cfg: Config,
                                            space: SpaceUnit)
    ensures x.world.tracker.nextId <= ExtensionStep(x, h, hash, cfg, space).world.tracker.nextId
  {
    if h.PageHappens? {
      ApplySerials(x.world, NewEntries(x.page, P.PageStep(x.page, h.event, hash)), cfg, space);
    }
  }

  lemma {:induction false} RunWholesome(videoId: Option<string>, prefix: string, hs: seq<Happening>,
                                        hash: P.TopicHash, cfg: Config, space: SpaceUnit)
    requires |prefix| <= 100 && ValidHash(hash) && SoundSpace(space)
             && forall i | 0 <= i < |hs| :: ValidHappening(hs[i])
    requires ExtensionRun(NewExtension(videoId, prefix), hs, hash, cfg, space).world.tracker.nextId <= MAX_SAFE_INTEGER
    ensures Wholesome(ExtensionRun(NewExtension(videoId, prefix), hs, hash, cfg, space), hash, cfg.word)
    decreases |hs|
  {
    hide ExtensionStep, ValidHash, SoundSpace;
    if hs == [] {
      EmptySnapshotValid();
    } else {
      hide Wholesome, NewExtension;
      var before, last := ExtensionRun(NewExtension(videoId, prefix), hs[..|hs| - 1], hash, cfg, space), hs[|hs| - 1];
      HappeningSerials(before, last, hash, cfg, space);
      RunWholesome(videoId, prefix, hs[..|hs| - 1], hash, cfg, space);
      HappeningWholesome(before, last, hash, cfg, space);
    }
  }

  /** A request that was right when it was asked: legal, exactly marked, for what the page showed. */
  ghost predicate RightRequest(log: seq<P.Emission>, d: Dispatch, hash: P.TopicHash) {
    && IsCaptionHintRequest(d.event.request) && MarkedExactly(d.event.request)
    && exists i | 0 <= i < |log| ::
         && log[i].op == SubmitLatest(d.event.sequence, d.event.request.topic, d.event.request.track)
         && log[i].video.Some? && d.event.request.topic == P.TopicOf(log[i].video.value, hash)
         && log[i].caption == Some(SnapshotText(d.event.request.current))
  }

  lemma {:induction false} SentRight(x: Extension, i: nat, hash: P.TopicHash, word: WordUnit)
    requires Wholesome(x, hash, word) && i < |x.world.stream.sent|
    ensures RightRequest(x.page.log, x.world.stream.sent[i], hash)
  {
    var log, d := x.page.log, x.world.stream.sent[i];
    assert GoodRequest(d) && Witnessed(log, d.event);
    var n :| 0 <= n < |log| && log[n].op == SubmitLatest(d.event.sequence, d.event.request.topic, d.event.request.track)
             && log[n].caption == Some(SnapshotText(d.event.request.current));
    assert Truthful(log, n, hash);
  }

  /**
   * End to end, over every run of page events, hash results, timers and answers: every request sent is
   * legal and exactly marked, and names the topic of the video that the page was showing, with the
   * caption then on its screen; and every view rendered shows faithful hints and sound rows.
   */
  lemma {:induction false} EndToEnd(videoId: Option<string>, prefix: string, hs: seq<Happening>, hash: P.TopicHash,
                                    cfg: Config, space: SpaceUnit)
    requires |prefix| <= 100 && ValidHash(hash) && SoundSpace(space)
             && forall i | 0 <= i < |hs| :: ValidHappening(hs[i])
    requires ExtensionRun(NewExtension(videoId, prefix), hs, hash, cfg, space).world.tracker.nextId <= MAX_SAFE_INTEGER
    ensures var x := ExtensionRun(NewExtension(videoId, prefix), hs, hash, cfg, space);
            && (forall i | 0 <= i < |x.world.stream.sent| :: RightRequest(x.page.log, x.world.stream.sent[i], hash))
            && (forall i | 0 <= i < |x.world.stream.views| ::
                  FaithfulView(x.world.stream.accepted, x.world.stream.views[i], cfg.word)
                      && RowView(x.world.stream.views[i]))
  {
    var x := ExtensionRun(NewExtension(videoId, prefix), hs, hash, cfg, space);
    RunWholesome(videoId, prefix, hs, hash, cfg, space);
    forall i | 0 <= i < |x.world.stream.sent|
      ensures RightRequest(x.page.log, x.world.stream.sent[i], hash)
    {
      SentRight(x, i, hash, cfg.word);
    }
  }

  /**
   * The coordinator's guard on sequence numbers never drops what the page hands it: each entry's
   * number, submit or clear, is above everything the coordinator has seen.
   */
  lemma {:induction false} GuardNeverDrops(x: Extension, e: P.PageEvent, n: nat, hash: P.TopicHash, cfg: Config,
                                           space: SpaceUnit)
    requires Wholesome(x, hash, cfg.word) && ValidEnv(e.env) && ValidHash(hash) && SoundSpace(space)
    requires ExtensionStep(x, PageHappens(e), hash, cfg, space).world.tracker.nextId <= MAX_SAFE_INTEGER
    requires var more := NewEntries(x.page, P.PageStep(x.page, e, hash)); n < |more| && SequenceOf(more[n].op).Some?
    ensures var more := NewEntries(x.page, P.PageStep(x.page, e, hash));
            SequenceOf(more[n].op).value > Apply(x.world, more[..n], cfg, space).stream.latestSequence
  {
    NewEntriesGood(x.page, e, hash);
    EntryPasses(x.page.log, NewEntries(x.page, P.PageStep(x.page, e, hash)), n, x.world, cfg, space, hash);
  }

  lemma {:induction false} EntryPasses(log: seq<P.Emission>, more: seq<P.Emission>, n: nat, w: World, cfg: Config,
                                       space: SpaceUnit, hash: P.TopicHash)
    requires Healthy(w, cfg.word) && InStep(log, w) && GoodLog(log + more, hash) && SoundSpace(space)
    requires forall i | 0 <= i < |more| :: PageOp(more[i].op)
    requires Apply(w, more, cfg, space).tracker.nextId <= MAX_SAFE_INTEGER
    requires n < |more| && SequenceOf(more[n].op).Some?
    ensures SequenceOf(more[n].op).value > Apply(w, more[..n], cfg, space).stream.latestSequence
  {
    CutLog(log, more, n, hash);
    ApplyPrefix(w, more, n, cfg, space);
    PrefixInStep(log, more[..n], w, cfg, space, hash);
    GuardOpen(log + more[..n], more[n], Apply(w, more[..n], cfg, space), hash);
  }

  lemma {:induction false} CutLog(log: seq<P.Emission>, more: seq<P.Emission>, n: nat, hash: P.TopicHash)
    requires n < |more| && GoodLog(log + more, hash)
    ensures GoodLog(log + more[..n] + [more[n]], hash) && GoodLog(log + more[..n], hash)
    ensures more[..n] <= more
  {
    var init := more[..n];
    assert log + more == (log + init + [more[n]]) + more[n + 1..];
    GoodLogPrefix(log + init + [more[n]], more[n + 1..], hash);
    GoodLogPrefix(log + init, [more[n]], hash);
  }

  lemma {:induction false} PrefixInStep(log: seq<P.Emission>, init: seq<P.Emission>, w: World, cfg: Config,
                                        space: SpaceUnit, hash: P.TopicHash)
    requires Healthy(w, cfg.word) && InStep(log, w) && GoodLog(log + init, hash) && SoundSpace(space)
    requires forall i | 0 <= i < |init| :: PageOp(init[i].op)
    requires Apply(w, init, cfg, space).tracker.nextId <= MAX_SAFE_INTEGER
    ensures InStep(log + init, Apply(w, init, cfg, space))
  {
    ApplyInStep(log, init, w, cfg, space, hash);
  }

  lemma {:induction false} ApplyPrefix(w: World, more: seq<P.Emission>, n: nat, cfg: Config, space: SpaceUnit)
    requires n <= |more|
    ensures Apply(w, more[..n], cfg, space).tracker.nextId <= Apply(w, more, cfg, space).tracker.nextId
    decreases |more| - n
  {
    if n == |more| {
      assert more[..n] == more;
    } else {
      ApplyPrefix(w, more, n + 1, cfg, space);
      SerialsApply(w, more[..n + 1], cfg, space);
      assert more[..n + 1][..n] == more[..n];
    }
  }

  // ---- A capture submits its own snapshot -----------------------------------------------------

  /** The tracker after the operations of a log, on a page that begins with nothing captured. */
  function LogTracker(prefix: string, log: seq<P.Emission>, space: SpaceUnit): Tracker {
    if log == [] then NewWorld(prefix).tracker
    else TrackerAfter(LogTracker(prefix, log[..|log| - 1], space), log[|log| - 1].op, space)
  }

  /** The snapshot that the last entry of log[..n], a capture, was given by the tracker. */
  function Taken(prefix: string, log: seq<P.Emission>, n: nat, space: SpaceUnit): Snapshot
    requires 0 < n <= |log| && log[n - 1].op.Snap?
  {
    Capture(LogTracker(prefix, log[..n - 1], space), log[n - 1].op.source, log[n - 1].op.meta, space).previous
  }

  lemma {:induction false} LogTrackerPush(prefix: string, log: seq<P.Emission>, x: P.Emission, space: SpaceUnit)
    ensures LogTracker(prefix, log + [x], space) == TrackerAfter(LogTracker(prefix, log, space), x.op, space)
  {
    hide TrackerAfter, NewWorld;
    assert (log + [x])[..|log|] == log;
  }

  lemma {:induction false} ApplyTracker(prefix: string, log: seq<P.Emission>, more: seq<P.Emission>, w: World,
                                        cfg: Config, space: SpaceUnit)
    requires w.tracker == LogTracker(prefix, log, space)
    ensures Apply(w, more, cfg, space).tracker == LogTracker(prefix, log + more, space)
    decreases |more|
  {
    hide LogTracker, TrackerAfter, Step;
    if more == [] {
      assert log + more == log;
    } else {
      var init, last := more[..|more| - 1], more[|more| - 1];
      ApplyTracker(prefix, log, init, w, cfg, space);
      LogTrackerPush(prefix, log + init, last, space);
      assert log + more == (log + init) + [last];
    }
  }

  /** The tracker of the extension is the one its page's log describes; timers and answers leave it alone. */
  lemma {:induction false} RunTracker(videoId: Option<string>, prefix: string, hs: seq<Happening>, hash: P.TopicHash,
                                      cfg: Config, space: SpaceUnit)
    requires ValidHash(hash) && forall i | 0 <= i < |hs| :: ValidHappening(hs[i])
    ensures var x := ExtensionRun(NewExtension(videoId, prefix), hs, hash, cfg, space);
            Named(x.page) && x.world.tracker == LogTracker(prefix, x.page.log, space)
    decreases |hs|
  {
    hide ExtensionStep, ValidHash, ValidHappening, LogTracker;
    if hs == [] {
      NewTracker(videoId, prefix, space);
    } else {
      hide Named, NewExtension;
      var before, last := ExtensionRun(NewExtension(videoId, prefix), hs[..|hs| - 1], hash, cfg, space), hs[|hs| - 1];
      RunTracker(videoId, prefix, hs[..|hs| - 1], hash, cfg, space);
      HappeningTracker(prefix, before, last, hash, cfg, space);
    }
  }

  lemma {:induction false} NewTracker(videoId: Option<string>, prefix: string, space: SpaceUnit)
    ensures var x := NewExtension(videoId, prefix);
            Named(x.page) && x.world.tracker == LogTracker(prefix, x.page.log, space)
  {
  }

  lemma {:induction false} HappeningTracker(prefix: string, x: Extension, h: Happening, hash: P.TopicHash, cfg: Config,
                                            space: SpaceUnit)
    requires ValidHash(hash) && ValidHappening(h)
    requires Named(x.page) && x.world.tracker == LogTracker(prefix, x.page.log, space)
    ensures var x' := ExtensionStep(x, h, hash, cfg, space);
            Named(x'.page) && x'.world.tracker == LogTracker(prefix, x'.page.log, space)
  {
    hide ValidHash, LogTracker, Step, P.PageStep;
    if h.PageHappens? {
      var page := P.PageStep(x.page, h.event, hash);
      PageStepGrows(x.page, h.event, hash);
      assert page.log == x.page.log + NewEntries(x.page, page);
      ApplyTracker(prefix, x.page.log, NewEntries(x.page, page), x.world, cfg, space);
    }
  }

  /** Submits and clears leave the latest capture in place. */
  lemma {:induction false} LatestTaken(prefix: string, log: seq<P.Emission>, space: SpaceUnit)
    requires LatestCapture(log) > 0
    ensures var n := LatestCapture(log);
            && n <= |log| && log[n - 1].op.Snap? && LatestCaption(log) == Some(log[n - 1].op.source.caption)
            && LogTracker(prefix, log, space).previous == Taken(prefix, log, n, space)
    decreases |log|
  {
    hide Capture;
    var init, last := log[..|log| - 1], log[|log| - 1];
    if !last.op.Snap? {
      LatestTaken(prefix, init, space);
      var n := LatestCapture(init);
      assert log[..n - 1] == init[..n - 1] && log[n - 1] == init[n - 1];
    }
  }

  /** An attempt that is accepted finds its own snapshot in the tracker: nothing was captured or forgotten since. */
  lemma {:induction false} OwnSnapshot(prefix: string, p: P.PageState, t: P.Attempt, env: P.Env, space: SpaceUnit)
    requires Deliverable(p, t) && P.AcceptResult(p, t, env)
    ensures 0 < t.taken <= |p.log| && p.log[t.taken - 1].op.Snap? && p.log[t.taken - 1].op.source.caption == t.caption
    ensures LogTracker(prefix, p.log, space).previous == Taken(prefix, p.log, t.taken, space)
  {
    hide LogTracker, Taken;
    CaptionCaptured(p.log);
    LatestTaken(prefix, p.log, space);
  }

  lemma {:induction false} CaptionCaptured(log: seq<P.Emission>)
    requires LatestCaption(log).Some?
    ensures LatestCapture(log) > 0
    decreases |log|
  {
    if log[|log| - 1].op.Snap? {
    } else {
      CaptionCaptured(log[..|log| - 1]);
    }
  }

  /** What would be submitted now is the snapshot this attempt was given, of the caption it is about. */
  ghost predicate HoldsOwn(prefix: string, x: Extension, t: P.Attempt, space: SpaceUnit) {
    && 0 < t.taken <= |x.page.log| && x.page.log[t.taken - 1].op.Snap?
    && x.page.log[t.taken - 1].op.source.caption == t.caption
    && x.world.tracker.previous == Taken(prefix, x.page.log, t.taken, space)
  }

  /**
   * However long a capture awaits its topic, and whatever happens meanwhile: if it is then accepted, what it submits
   * is the very snapshot it was given when it was captured.
   */
  lemma {:induction false} SubmitsOwnSnapshot(videoId: Option<string>, prefix: string, hs: seq<Happening>,
                                              hash: P.TopicHash, cfg: Config, space: SpaceUnit, i: nat, env: P.Env)
    requires ValidHash(hash) && forall j | 0 <= j < |hs| :: ValidHappening(hs[j])
    requires i < |ExtensionRun(NewExtension(videoId, prefix), hs, hash, cfg, space).page.pending|
    requires var p := ExtensionRun(NewExtension(videoId, prefix), hs, hash, cfg, space).page;
             P.AcceptResult(p, p.pending[i].attempt, env)
    ensures var x := ExtensionRun(NewExtension(videoId, prefix), hs, hash, cfg, space);
            HoldsOwn(prefix, x, x.page.pending[i].attempt, space)
  {
    hide ValidHash, ValidHappening, P.AcceptResult, LogTracker, Taken, GoodLog, ExtensionRun;
    var x := ExtensionRun(NewExtension(videoId, prefix), hs, hash, cfg, space);
    RunTracker(videoId, prefix, hs, hash, cfg, space);
    PagesAwait(videoId, prefix, hs, hash, cfg, space, i);
    OwnSnapshot(prefix, x.page, x.page.pending[i].attempt, env, space);
  }

  lemma {:induction false} PagesAwait(videoId: Option<string>, prefix: string, hs: seq<Happening>, hash: P.TopicHash,
                                      cfg: Config, space: SpaceUnit, i: nat)
    requires i < |ExtensionRun(NewExtension(videoId, prefix), hs, hash, cfg, space).page.pending|
    ensures var p := ExtensionRun(NewExtension(videoId, prefix), hs, hash, cfg, space).page;
            Deliverable(p, p.pending[i].attempt)
  {
    var p := ExtensionRun(NewExtension(videoId, prefix), hs, hash, cfg, space).page;
    PagesSafe(videoId, prefix, hs, hash, cfg, space);
    assert Awaiting(p, p.pending[i]);
  }

  lemma {:induction false} PagesSafe(videoId: Option<string>, prefix: string, hs: seq<Happening>, hash: P.TopicHash,
                                     cfg: Config, space: SpaceUnit)
    ensures Safe(ExtensionRun(NewExtension(videoId, prefix), hs, hash, cfg, space).page, hash)
    decreases |hs|
  {
    if hs == [] {
      PageRunSafe(videoId, [], hash);
    } else {
      hide Safe, NewExtension, P.PageStep, Apply, WorldStep;
      var before := ExtensionRun(NewExtension(videoId, prefix), hs[..|hs| - 1], hash, cfg, space);
      PagesSafe(videoId, prefix, hs[..|hs| - 1], hash, cfg, space);
      if hs[|hs| - 1].PageHappens? {
        PageStepSafe(before.page, hs[|hs| - 1].event, hash);
      }
    }
  }
}
