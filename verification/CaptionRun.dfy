/** Tracker and coordinator together: what every run over captured captions puts on the wire. */
module CaptionRun {
  import opened Wrappers
  import opened Utf16
  import opened Protocol
  import opened CaptionSnapshot
  import opened Stream
  import opened StreamRequests
  import opened StreamRows

  datatype World = World(tracker: Tracker, stream: Coordinator)

  /**
   * One event of the page: a caption is captured, the tracker forgets it, the latest snapshot is
   * submitted (any subsequence of captures may be), the stream is cleared, the timer fires, or an
   * answer to some earlier request arrives.
   */
  datatype Op =
    | Snap(source: Source, meta: Metadata)
    | ForgetCaption
    | SubmitLatest(sequence: nat, topic: string, track: Option<string>)
    | ClearStream(sequence: nat)
    | TimerFires
    | AnswerArrives(index: nat, result: Result)

  ghost predicate ValidOp(op: Op) {
    match op
    case Snap(source, meta) => ValidSource(source) && ValidMetadata(meta)
    case SubmitLatest(_, topic, track) => BoundedId(topic) && (track.Some? ==> BoundedId(track.value))
    case _ => true
  }

  function LatestEvent(w: World, sequence: nat, topic: string, track: Option<string>): Event {
    Event(sequence, Request(topic, track, None, w.tracker.previous))
  }

  /** The input an operation is for the coordinator, if it reaches it. */
  function InputOf(w: World, op: Op): Option<Input> {
    match op
    case Snap(_, _) => None
    case ForgetCaption => None
    case SubmitLatest(n, topic, track) => Some(DoSubmit(LatestEvent(w, n, topic, track)))
    case ClearStream(n) => Some(DoClear(n))
    case TimerFires => Some(DoFire)
    case AnswerArrives(i, result) => Some(DoAnswer(i, result))
  }

  function TrackerAfter(t: Tracker, op: Op, space: SpaceUnit): Tracker {
    match op
    case Snap(source, meta) => Capture(t, source, meta, space)
    case ForgetCaption => ResetTracker(t)
    case _ => t
  }

  function WorldStep(w: World, op: Op, cfg: Config, space: SpaceUnit): World {
    World(TrackerAfter(w.tracker, op, space),
          if InputOf(w, op).Some? then Step(w.stream, InputOf(w, op).value, cfg) else w.stream)
  }

  function WorldRun(w: World, ops: seq<Op>, cfg: Config, space: SpaceUnit): World {
    if ops == [] then w else WorldStep(WorldRun(w, ops[..|ops| - 1], cfg, space), ops[|ops| - 1], cfg, space)
  }

  function NewWorld(prefix: string): World {
    World(Tracker(prefix, 0, Snapshot([])), Initial())
  }

  // ---- Snapshots that differ in append marks only ---------------------------------------------

  ghost predicate Alike(a: seq<Segment>, b: seq<Segment>) {
    |a| == |b| && forall i | 0 <= i < |a| :: a[i].(append := b[i].append) == b[i]
  }

  lemma {:induction false} AlikeKeys(a: seq<Segment>, b: seq<Segment>)
    requires Alike(a, b)
    ensures KeySet(a) == KeySet(b)
  {
    forall k | k in KeySet(a)
      ensures k in KeySet(b)
    {
      var i :| 0 <= i < |a| && a[i].key == k;
      assert b[i].key == k;
    }
    forall k | k in KeySet(b)
      ensures k in KeySet(a)
    {
      var i :| 0 <= i < |b| && b[i].key == k;
      assert a[i].key == k;
    }
  }

  lemma {:induction false} AlikeAdvances(a: seq<Segment>, a': seq<Segment>, b: seq<Segment>, b': seq<Segment>)
    requires Alike(a, a') && Alike(b, b') && Advances(a, b)
    ensures Advances(a', b')
  {
    AlikeRun(a, a');
    AlikeRun(b, b');
  }

  lemma {:induction false} AlikeRun(a: seq<Segment>, a': seq<Segment>)
    requires Alike(a, a') && KeyRun(a)
    ensures KeyRun(a') && Low(a') == Low(a)
  {
  }

  lemma {:induction false} MarkAlike(s: Snapshot, completed: set<Key>)
    ensures Alike(Segments(s), Segments(Mark(s, completed)))
    ensures SnapshotText(Mark(s, completed)) == SnapshotText(s)
  {
    MarkFlat(s.captions, completed);
    MarkText(Segments(s), completed);
  }

  lemma {:induction false} MarkGroupsAre(groups: seq<Group>, completed: set<Key>)
    ensures |MarkGroups(groups, completed)| == |groups|
    ensures forall g | 0 <= g < |groups| ::
              MarkGroups(groups, completed)[g] == groups[g].(segments := MarkSegments(groups[g].segments, completed))
  {
    if groups == [] {
    } else {
      MarkGroupsAre(groups[..|groups| - 1], completed);
    }
  }

  lemma {:induction false} AlikeDistinct(a: seq<Segment>, b: seq<Segment>)
    requires Alike(a, b) && DistinctKeys(a)
    ensures DistinctKeys(b)
  {
    forall i, j | 0 <= i < j < |b|
      ensures b[i].key != b[j].key
    {
      assert b[i].key == a[i].key && b[j].key == a[j].key;
    }
  }

  lemma {:induction false} AlikeLegal(a: seq<Segment>, b: seq<Segment>)
    requires Alike(a, b) && forall i | 0 <= i < |a| :: ValidSegment(a[i])
    ensures forall i | 0 <= i < |b| :: ValidSegment(b[i])
  {
    forall i | 0 <= i < |b|
      ensures ValidSegment(b[i])
    {
      assert ValidSegment(a[i]) && b[i] == a[i].(append := b[i].append);
    }
  }

  lemma {:induction false} MarkGroupsValid(groups: seq<Group>, completed: set<Key>)
    requires forall g | 0 <= g < |groups| :: ValidGroup(groups[g])
    ensures var marked := MarkGroups(groups, completed);
            |marked| == |groups| && forall g | 0 <= g < |marked| :: ValidGroup(marked[g])
  {
    MarkGroupsAre(groups, completed);
    forall g | 0 <= g < |groups|
      ensures ValidGroup(MarkGroups(groups, completed)[g])
    {
      assert ValidGroup(groups[g]);
    }
  }

  /** Marking keeps a snapshot legal. */
  lemma {:induction false} MarkValid(s: Snapshot, completed: set<Key>)
    requires ValidSnapshot(s)
    ensures ValidSnapshot(Mark(s, completed))
  {
    hide KeyRun, Alike, DistinctKeys, ValidSegment, ValidGroup, SegText, Flatten, MarkGroups;
    MarkAlike(s, completed);
    MarkGroupsValid(s.captions, completed);
    AlikeDistinct(Segments(s), Segments(Mark(s, completed)));
    AlikeLegal(Segments(s), Segments(Mark(s, completed)));
  }

  // ---- The invariant --------------------------------------------------------------------------

  ghost predicate TrackerSound(t: Tracker) {
    Tracking(t) && |t.prefix| <= 100 && ValidSnapshot(t.previous)
  }

  /** The caption on display is a legal earlier capture of this tracker. */
  ghost predicate CurrentSound(w: World) {
    w.stream.current.Some? ==>
      var r := w.stream.current.value.request;
      && BoundedId(r.topic) && (r.track.Some? ==> BoundedId(r.track.value)) && ValidSnapshot(r.current)
      && (Segments(r.current) != [] ==> Behind(Segments(r.current), w.tracker))
  }

  /** The processed keys are exactly the acknowledged keys still on display. */
  ghost predicate Acknowledged(s: Coordinator) {
    if s.lastAcknowledged.None? then s.completed == {}
    else
      && ValidSnapshot(s.lastAcknowledged.value)
      && Advances(Segments(s.lastAcknowledged.value), CurrentSegments(s))
      && s.completed == KeySet(Segments(s.lastAcknowledged.value)) * KeySet(CurrentSegments(s))
  }

  /** While a request is in flight, the processed keys on display are those it did not ask about. */
  ghost predicate InFlight(s: Coordinator) {
    s.active.Some? ==>
      var asked := Segments(s.active.value.event.request.current);
      && ValidSnapshot(s.active.value.event.request.current)
      && Advances(asked, CurrentSegments(s))
      && forall k | k in KeySet(CurrentSegments(s)) :: k in s.completed <==>
          k in KeySet(asked) && k !in AppendedKeys(asked)
  }

  /** A segment is marked new exactly when the last acknowledged snapshot did not show its key. */
  ghost predicate MarkedExactly(r: Request) {
    forall i | 0 <= i < |Segments(r.current)| ::
      Segments(r.current)[i].append
      <==> (r.lastRequested.None? || Segments(r.current)[i].key !in KeySet(Segments(r.lastRequested.value)))
  }

  ghost predicate GoodRequest(d: Dispatch) {
    IsCaptionHintRequest(d.event.request) && MarkedExactly(d.event.request)
  }

  ghost predicate StreamSound(s: Coordinator) {
    Disciplined(s) && Acknowledged(s) && InFlight(s) && forall i | 0 <= i < |s.sent| :: GoodRequest(s.sent[i])
  }

  ghost predicate Sound(w: World) {
    TrackerSound(w.tracker) && CurrentSound(w) && StreamSound(w.stream)
  }

  // ---- Captures -------------------------------------------------------------------------------

  lemma {:induction false} TrackerKeeps(w: World, op: Op, cfg: Config, space: SpaceUnit)
    requires Sound(w) && ValidOp(op) && SoundSpace(space)
    requires TrackerAfter(w.tracker, op, space).nextId <= MAX_SAFE_INTEGER
    ensures TrackerSound(TrackerAfter(w.tracker, op, space))
    ensures CurrentSound(World(TrackerAfter(w.tracker, op, space), w.stream))
  {
    var shown := CurrentSegments(w.stream);
    match op
    case Snap(source, meta) =>
      CaptureTracking(w.tracker, source, meta, space);
      CaptureValid(w.tracker, source, meta, space);
      if shown != [] {
        CaptureBehind(shown, w.tracker, source, meta, space);
      }
    case ForgetCaption =>
      EmptySnapshotValid();
      if shown != [] {
        ResetBehind(shown, w.tracker);
      }
    case _ =>
  }

  lemma {:induction false} EmptySnapshotValid()
    ensures ValidSnapshot(Snapshot([])) && Segments(Snapshot([])) == []
  {
    assert Segments(Snapshot([])) == [];
  }

  // ---- Submits --------------------------------------------------------------------------------

  /** What arriving does to coverage: a reset empties it, otherwise it is cut down to the shown keys. */
  lemma {:induction false} ArrivedCoverage(s: Coordinator, e: Event, word: WordUnit)
    ensures var a := Arrived(s, e, word);
            && a.current == Some(e) && a.sent == s.sent
            && if ResetNeeded(s, e) then a.active.None? && a.lastAcknowledged.None? && a.completed == {}
               else a.active == s.active && a.lastAcknowledged == s.lastAcknowledged
                    && a.completed == s.completed * KeySet(Segments(e.request.current))
  {
  }

  /** Without reset, the display moves to a later window of the same keys. */
  lemma {:induction false} ContinuingAdvances(w: World, e: Event)
    requires Sound(w) && e.request.current == w.tracker.previous
    requires w.stream.current.Some? && !ResetNeeded(w.stream, e)
    ensures Advances(CurrentSegments(w.stream), Segments(e.request.current))
  {
    var overlap := RetainedOverlap(CurrentText(w.stream), SnapshotText(e.request.current));
    assert 0 < overlap <= |CurrentText(w.stream)| && overlap <= |SnapshotText(e.request.current)|;
  }

  /** Cutting coverage down to the new display keeps it exact, because keys never return. */
  lemma {:induction false} CoverageMoves(acked: seq<Segment>, shown: seq<Segment>, later: seq<Segment>,
                                         completed: set<Key>)
    requires Advances(acked, shown) && Advances(shown, later)
    requires completed == KeySet(acked) * KeySet(shown)
    ensures Advances(acked, later)
    ensures completed * KeySet(later) == KeySet(acked) * KeySet(later)
  {
    AdvancesTransitive(acked, shown, later);
    forall k | k in KeySet(acked) && k in KeySet(later)
      ensures k in completed
    {
      SharedKeyBetween(acked, shown, later, k);
    }
  }

  lemma {:induction false} FlightMoves(asked: seq<Segment>, shown: seq<Segment>, later: seq<Segment>,
                                       completed: set<Key>)
    requires Advances(asked, shown) && Advances(shown, later)
    requires completed <= KeySet(shown)
    requires forall k | k in KeySet(shown) :: k in completed <==> k in KeySet(asked) && k !in AppendedKeys(asked)
    ensures Advances(asked, later)
    ensures forall k | k in KeySet(later) :: k in completed * KeySet(later) <==>
            k in KeySet(asked) && k !in AppendedKeys(asked)
  {
    AdvancesTransitive(asked, shown, later);
    forall k | k in KeySet(later) && k in KeySet(asked)
      ensures k in KeySet(shown)
    {
      SharedKeyBetween(asked, shown, later, k);
    }
  }

  lemma {:induction false} ArrivedSound(w: World, e: Event, word: WordUnit)
    requires Sound(w) && e.request.current == w.tracker.previous
    ensures Acknowledged(Arrived(w.stream, e, word)) && InFlight(Arrived(w.stream, e, word))
  {
    var s := w.stream;
    ArrivedCoverage(s, e, word);
    if s.current.Some? && !ResetNeeded(s, e) {
      ContinuingAdvances(w, e);
      var later := Segments(e.request.current);
      if s.lastAcknowledged.Some? {
        CoverageMoves(Segments(s.lastAcknowledged.value), CurrentSegments(s), later, s.completed);
      }
      if s.active.Some? {
        FlightMoves(Segments(s.active.value.event.request.current), CurrentSegments(s), later, s.completed);
      }
    }
  }

  /** Only the coverage fields matter for the coverage invariant. */
  lemma {:induction false} SameCoverage(s: Coordinator, t: Coordinator)
    requires Acknowledged(s) && InFlight(s)
    requires t.current == s.current && t.active == s.active && t.lastAcknowledged == s.lastAcknowledged
             && t.completed == s.completed
    ensures Acknowledged(t) && InFlight(t)
  {
    assert CurrentSegments(t) == CurrentSegments(s);
  }

  /** The request log is untouched, so it stays good. */
  lemma {:induction false} SameLog(s: Coordinator, t: Coordinator)
    requires StreamSound(s) && t.sent == s.sent
    requires Disciplined(t) && Acknowledged(t) && InFlight(t)
    ensures StreamSound(t)
  {
  }

  lemma {:induction false} SubmitCoverage(s: Coordinator, e: Event, word: WordUnit)
    requires e.sequence > s.latestSequence
    ensures var a, after := Arrived(s, e, word), Submit(s, e, word);
            && after.current == a.current && after.active == a.active && after.sent == a.sent
            && after.lastAcknowledged == a.lastAcknowledged && after.completed == a.completed
  {
  }

  lemma {:induction false} SubmitSound(w: World, e: Event, cfg: Config)
    requires Sound(w) && e.request.current == w.tracker.previous
    ensures StreamSound(Submit(w.stream, e, cfg.word))
  {
    SubmitKeeps(w.stream, e, cfg);
    if e.sequence > w.stream.latestSequence {
      ArrivedSound(w, e, cfg.word);
      ArrivedCoverage(w.stream, e, cfg.word);
      SubmitCoverage(w.stream, e, cfg.word);
      SameCoverage(Arrived(w.stream, e, cfg.word), Submit(w.stream, e, cfg.word));
      SameLog(w.stream, Submit(w.stream, e, cfg.word));
    }
  }

  lemma {:induction false} SubmitShowsLatest(w: World, e: Event, cfg: Config)
    requires Sound(w) && e.request.current == w.tracker.previous
    requires BoundedId(e.request.topic) && (e.request.track.Some? ==> BoundedId(e.request.track.value))
    ensures CurrentSound(World(w.tracker, Submit(w.stream, e, cfg.word)))
  {
    if e.sequence > w.stream.latestSequence {
      SubmitCaption(w.stream, e, cfg.word);
      if Segments(e.request.current) != [] {
        LatestBehind(w.tracker);
      }
    }
  }

  // ---- Dispatch -------------------------------------------------------------------------------

  /** A key on display and acknowledged has, now, a suffix of its acknowledged text. */
  lemma {:induction false} SuffixOfAcknowledged(acked: seq<Segment>, shown: seq<Segment>, i: nat)
    requires Advances(acked, shown) && i < |shown| && DistinctKeys(acked)
    requires shown[i].key in TextByKey(acked)
    ensures EndsWith(TextByKey(acked)[shown[i].key], shown[i].text)
  {
    TextByKeyLookup(acked);
    RunKey(acked, shown[i].key);
    var j := Low(shown) + i - Low(acked);
    assert acked[j].key == shown[i].key;
  }

  /** The request put together from a sound state is legal and exactly marked. */
  lemma {:induction false} OutgoingGood(w: World)
    requires Sound(w) && w.stream.current.Some? && w.stream.active.None?
    ensures GoodRequest(Outgoing(w.stream))
  {
    var s := w.stream;
    var r, shown := Outgoing(s).event.request, s.current.value.request.current;
    MarkValid(shown, s.completed);
    MarkAlike(shown, s.completed);
    var segs, marked := Segments(shown), Segments(r.current);
    MarkFlat(shown.captions, s.completed);
    if s.lastAcknowledged.Some? {
      var acked := Segments(s.lastAcknowledged.value);
      forall x | x in marked && x.key in TextByKey(acked)
        ensures EndsWith(TextByKey(acked)[x.key], x.text)
      {
        var i :| 0 <= i < |marked| && marked[i] == x;
        SuffixOfAcknowledged(acked, segs, i);
      }
    }
    forall i | 0 <= i < |marked|
      ensures marked[i].append <==> (r.lastRequested.None? || marked[i].key !in KeySet(Segments(r.lastRequested.value)))
    {
      assert segs[i].key in KeySet(segs);
    }
  }

  /** The request just sent is in flight over the caption on display. */
  lemma {:induction false} OutgoingInFlight(s: Coordinator)
    requires s.current.Some? && KeyRun(CurrentSegments(s)) && ValidSnapshot(s.current.value.request.current)
    ensures InFlight(DispatchNow(s)) || DispatchNow(s) == s
  {
    if Pending(s) {
      var shown := s.current.value.request.current;
      var d := Outgoing(s);
      MarkValid(shown, s.completed);
      MarkAlike(shown, s.completed);
      AdvancesReflexive(Segments(shown));
      AlikeSelf(Segments(shown));
      AlikeAdvances(Segments(shown), Segments(d.event.request.current), Segments(shown), Segments(shown));
      AlikeKeys(Segments(shown), Segments(d.event.request.current));
      forall k | k in KeySet(Segments(shown))
        ensures k in s.completed <==>
                k in KeySet(Segments(d.event.request.current)) && k !in AppendedKeys(Segments(d.event.request.current))
      {
        OutgoingAsks(s, k);
      }
    }
  }

  lemma {:induction false} AlikeSelf(a: seq<Segment>)
    ensures Alike(a, a)
  {
  }

  /** Sending one more good request keeps the log good. */
  lemma {:induction false} LongerLog(s: Coordinator, t: Coordinator, d: Dispatch)
    requires StreamSound(s) && t.sent == s.sent + [d] && GoodRequest(d)
    requires Disciplined(t) && Acknowledged(t) && InFlight(t)
    ensures StreamSound(t)
  {
  }

  lemma {:induction false} DispatchCoverage(s: Coordinator)
    requires Acknowledged(s)
    ensures Acknowledged(DispatchNow(s))
  {
    assert CurrentSegments(DispatchNow(s)) == CurrentSegments(s);
  }

  lemma {:induction false} PendingText(s: Coordinator)
    requires Pending(s)
    ensures CurrentSegments(s) != [] && s.current.Some?
  {
  }

  lemma {:induction false} FireSound(w: World)
    requires Sound(w)
    ensures StreamSound(Fire(w.stream))
  {
    hide Acknowledged, InFlight, GoodRequest, Pending;
    var s := w.stream;
    FireKeeps(s);
    if s.timer {
      var begun := s.(timer := false);
      SameCoverage(s, begun);
      if Pending(begun) {
        PendingText(begun);
        OutgoingGood(w);
        OutgoingInFlight(begun);
        DispatchCoverage(begun);
        LongerLog(s, Fire(s), Outgoing(s));
      } else {
        SameLog(s, Fire(s));
      }
    }
  }

  // ---- Answers --------------------------------------------------------------------------------

  /** Accepting an answer acknowledges its request: coverage is then exactly what it showed. */
  lemma {:induction false} AbsorbedSound(s: Coordinator, d: Dispatch, body: Response, cfg: Config)
    requires StreamSound(s) && !Late(s, d) && s.active == Some(d)
    requires Answers(body, d.event.request, cfg.evidence)
    ensures Acknowledged(Absorbed(s, d, body, cfg.word)) && InFlight(Absorbed(s, d, body, cfg.word))
  {
    var asked, shown := Segments(d.event.request.current), CurrentSegments(s);
    var a := Absorbed(s, d, body, cfg.word);
    assert CurrentSegments(a) == shown;
    assert s.completed <= KeySet(shown);
    forall k | k in KeySet(shown)
      ensures k in a.completed <==> k in KeySet(asked)
    {
      AppendedShown(asked, k);
      assert k in s.completed <==> k in KeySet(asked) && k !in AppendedKeys(asked);
    }
    assert a.completed == KeySet(asked) * KeySet(shown);
  }

  lemma {:induction false} AppendedShown(segs: seq<Segment>, k: Key)
    ensures k in AppendedKeys(segs) ==> k in KeySet(segs)
  {
    AppendedKeysAre(segs, k);
  }

  lemma {:induction false} FailedSound(s: Coordinator, reason: Reason)
    requires Acknowledged(s)
    ensures Acknowledged(Failed(s, reason)) && InFlight(Failed(s, reason)) && Failed(s, reason).sent == s.sent
  {
    assert CurrentSegments(Failed(s, reason)) == CurrentSegments(s);
  }

  lemma {:induction false} AcceptCovers(s: Coordinator, d: Dispatch, result: Result, cfg: Config)
    requires StreamSound(s) && !Late(s, d) && s.active == Some(d)
    ensures Acknowledged(Accept(s, d, result, cfg)) && InFlight(Accept(s, d, result, cfg))
  {
    if result.Failure? {
      FailedSound(s, result.reason);
    } else if !Answers(result.body, d.event.request, cfg.evidence) {
      FailedSound(s, InvalidResponse);
    } else {
      AbsorbedSound(s, d, result.body, cfg);
      AcceptedCoverage(s, d, result.body, cfg);
      SameCoverage(Absorbed(s, d, result.body, cfg.word), Accept(s, d, result, cfg));
    }
  }

  lemma {:induction false} AcceptSound(s: Coordinator, index: nat, result: Result, cfg: Config)
    requires StreamSound(s) && index < |s.sent|
    ensures StreamSound(Accept(s, s.sent[index], result, cfg))
  {
    AcceptKeeps(s, index, result, cfg);
    AcceptSends(s, s.sent[index], result, cfg);
    if !Late(s, s.sent[index]) {
      LateIffNotInFlight(s, index);
      AcceptCovers(s, s.sent[index], result, cfg);
      SameLog(s, Accept(s, s.sent[index], result, cfg));
    }
  }

  lemma {:induction false} AcceptedCoverage(s: Coordinator, d: Dispatch, body: Response, cfg: Config)
    requires !Late(s, d) && Answers(body, d.event.request, cfg.evidence)
    ensures var a, after := Absorbed(s, d, body, cfg.word), Accept(s, d, Success(body), cfg);
            && after.current == a.current && after.active == a.active
            && after.lastAcknowledged == a.lastAcknowledged && after.completed == a.completed
  {
    hide Answers, Absorbed;
  }

  // ---- Every run ------------------------------------------------------------------------------

  /** The coordinator's own events keep the requests and coverage sound. */
  lemma {:induction false} StreamStepSound(w: World, op: Op, cfg: Config, space: SpaceUnit)
    requires Sound(w)
    ensures StreamSound(WorldStep(w, op, cfg, space).stream)
  {
    hide StreamSound, Submit, Clear, Fire, Accept, Capture;
    match op
    case Snap(_, _) =>
    case ForgetCaption =>
    case SubmitLatest(n, topic, track) => SubmitSound(w, LatestEvent(w, n, topic, track), cfg);
    case ClearStream(n) => ClearSound(w.stream, n);
    case TimerFires => FireSound(w);
    case AnswerArrives(i, result) =>
      if i < |w.stream.sent| {
        AcceptSound(w.stream, i, result, cfg);
      }
  }

  lemma {:induction false} ClearSound(s: Coordinator, n: nat)
    requires StreamSound(s)
    ensures StreamSound(Clear(s, n))
  {
    ClearKeeps(s, n);
  }

  lemma {:induction false} SameCaption(w: World, t: Tracker, s: Coordinator)
    requires CurrentSound(World(t, w.stream))
    requires s.current == w.stream.current || s.current.None?
    ensures CurrentSound(World(t, s))
  {
  }

  lemma {:induction false} AnswerCaption(w: World, t: Tracker, i: nat, result: Result, cfg: Config)
    requires CurrentSound(World(t, w.stream)) && i < |w.stream.sent|
    ensures CurrentSound(World(t, Accept(w.stream, w.stream.sent[i], result, cfg)))
  {
    AcceptCaption(w.stream, w.stream.sent[i], result, cfg);
    SameCaption(w, t, Accept(w.stream, w.stream.sent[i], result, cfg));
  }

  lemma {:induction false} StepCaption(w: World, input: Input, cfg: Config)
    requires CurrentSound(w) && !input.DoSubmit?
    ensures CurrentSound(World(w.tracker, Step(w.stream, input, cfg)))
  {
    match input
    case DoClear(n) => SameCaption(w, w.tracker, Clear(w.stream, n));
    case DoFire => SameCaption(w, w.tracker, Fire(w.stream));
    case DoAnswer(i, result) =>
      if i < |w.stream.sent| {
        AnswerCaption(w, w.tracker, i, result, cfg);
      }
  }

  lemma {:induction false} WorldStepCurrent(w: World, op: Op, cfg: Config, space: SpaceUnit)
    requires Sound(w) && ValidOp(op) && SoundSpace(space)
    requires WorldStep(w, op, cfg, space).tracker.nextId <= MAX_SAFE_INTEGER
    ensures TrackerSound(WorldStep(w, op, cfg, space).tracker) && CurrentSound(WorldStep(w, op, cfg, space))
  {
    TrackerKeeps(w, op, cfg, space);
    if op.SubmitLatest? {
      SubmitShowsLatest(w, LatestEvent(w, op.sequence, op.topic, op.track), cfg);
    } else if InputOf(w, op).Some? {
      StepCaption(w, InputOf(w, op).value, cfg);
    }
  }

  lemma {:induction false} WorldStepSound(w: World, op: Op, cfg: Config, space: SpaceUnit)
    requires Sound(w) && ValidOp(op) && SoundSpace(space)
    requires WorldStep(w, op, cfg, space).tracker.nextId <= MAX_SAFE_INTEGER
    ensures Sound(WorldStep(w, op, cfg, space))
  {
    StreamStepSound(w, op, cfg, space);
    WorldStepCurrent(w, op, cfg, space);
  }

  lemma {:induction false} SerialsGrow(t: Tracker, op: Op, space: SpaceUnit)
    ensures t.nextId <= TrackerAfter(t, op, space).nextId
    ensures TrackerAfter(t, op, space).prefix == t.prefix
  {
  }

  lemma {:induction false} WorldRunSound(prefix: string, ops: seq<Op>, cfg: Config, space: SpaceUnit)
    requires |prefix| <= 100 && SoundSpace(space) && forall i | 0 <= i < |ops| :: ValidOp(ops[i])
    requires WorldRun(NewWorld(prefix), ops, cfg, space).tracker.nextId <= MAX_SAFE_INTEGER
    ensures Sound(WorldRun(NewWorld(prefix), ops, cfg, space))
  {
    if ops == [] {
      EmptySnapshotValid();
    } else {
      var before := WorldRun(NewWorld(prefix), ops[..|ops| - 1], cfg, space);
      SerialsGrow(before.tracker, ops[|ops| - 1], space);
      WorldRunSound(prefix, ops[..|ops| - 1], cfg, space);
      WorldStepSound(before, ops[|ops| - 1], cfg, space);
    }
  }

  /**
   * Every request of every run is legal on the wire and marks as new exactly the segments whose keys
   * the last acknowledged snapshot did not show, whatever captures were skipped and whatever answers
   * were late, failed or lost; and the processed keys are always the acknowledged ones still shown.
   */
  lemma {:induction false} EveryRequestGood(prefix: string, ops: seq<Op>, cfg: Config, space: SpaceUnit)
    requires |prefix| <= 100 && SoundSpace(space) && forall i | 0 <= i < |ops| :: ValidOp(ops[i])
    requires WorldRun(NewWorld(prefix), ops, cfg, space).tracker.nextId <= MAX_SAFE_INTEGER
    ensures var s := WorldRun(NewWorld(prefix), ops, cfg, space).stream;
            && (forall i | 0 <= i < |s.sent| ::
                IsCaptionHintRequest(s.sent[i].event.request) && MarkedExactly(s.sent[i].event.request))
            && s.completed == (if s.lastAcknowledged.None? then {}
                else KeySet(Segments(s.lastAcknowledged.value)) * KeySet(CurrentSegments(s)))
  {
    WorldRunSound(prefix, ops, cfg, space);
    var s := WorldRun(NewWorld(prefix), ops, cfg, space).stream;
    forall i | 0 <= i < |s.sent|
      ensures IsCaptionHintRequest(s.sent[i].event.request) && MarkedExactly(s.sent[i].event.request)
    {
      assert GoodRequest(s.sent[i]);
    }
  }

  // ---- Keys over a run ------------------------------------------------------------------------

  /** The world after the first n operations. */
  function After(prefix: string, ops: seq<Op>, n: nat, cfg: Config, space: SpaceUnit): World
    requires n <= |ops|
  {
    WorldRun(NewWorld(prefix), ops[..n], cfg, space)
  }

  /** What the tracker shows after the first n operations; nothing at first and after it was reset. */
  function Shown(prefix: string, ops: seq<Op>, n: nat, cfg: Config, space: SpaceUnit): seq<Segment>
    requires n <= |ops|
  {
    Segments(After(prefix, ops, n, cfg, space).tracker.previous)
  }

  lemma {:induction false} AfterStep(prefix: string, ops: seq<Op>, n: nat, cfg: Config, space: SpaceUnit)
    requires n < |ops|
    ensures After(prefix, ops, n + 1, cfg, space).tracker
            == TrackerAfter(After(prefix, ops, n, cfg, space).tracker, ops[n], space)
  {
    hide Step, TrackerAfter;
    assert ops[..n + 1][..n] == ops[..n];
  }

  lemma {:induction false} TracksStep(t: Tracker, op: Op, space: SpaceUnit)
    requires Tracking(t) && ValidOp(op) && SoundSpace(space)
    ensures Tracking(TrackerAfter(t, op, space)) && TrackerAfter(t, op, space).prefix == t.prefix
  {
    hide SoundSpace;
    match op
    case Snap(source, meta) => CaptureTracking(t, source, meta, space);
    case ForgetCaption => EmptySnapshotValid();
    case _ =>
  }

  lemma {:induction false} RunTracks(prefix: string, ops: seq<Op>, n: nat, cfg: Config, space: SpaceUnit)
    requires n <= |ops| && SoundSpace(space) && forall i | 0 <= i < |ops| :: ValidOp(ops[i])
    ensures Tracking(After(prefix, ops, n, cfg, space).tracker)
    ensures After(prefix, ops, n, cfg, space).tracker.prefix == prefix
    decreases n
  {
    hide *;
    if n == 0 {
      NewTracks(prefix, ops, cfg, space);
    } else {
      RunTracks(prefix, ops, n - 1, cfg, space);
      AfterStep(prefix, ops, n - 1, cfg, space);
      TracksStep(After(prefix, ops, n - 1, cfg, space).tracker, ops[n - 1], space);
    }
  }

  lemma {:induction false} NewTracks(prefix: string, ops: seq<Op>, cfg: Config, space: SpaceUnit)
    ensures Tracking(After(prefix, ops, 0, cfg, space).tracker)
    ensures After(prefix, ops, 0, cfg, space).tracker.prefix == prefix
  {
    EmptySnapshotValid();
  }

  lemma {:induction false} BehindStep(segs: seq<Segment>, t: Tracker, op: Op, space: SpaceUnit)
    requires Behind(segs, t) && Tracking(t) && ValidOp(op) && SoundSpace(space)
    ensures Behind(segs, TrackerAfter(t, op, space))
  {
    hide Behind, Tracking, SoundSpace;
    match op
    case Snap(source, meta) => CaptureBehind(segs, t, source, meta, space);
    case ForgetCaption => ResetBehind(segs, t);
    case _ =>
  }

  lemma {:induction false} ShownLatest(prefix: string, ops: seq<Op>, n: nat, cfg: Config, space: SpaceUnit)
    requires n <= |ops| && SoundSpace(space) && forall k | 0 <= k < |ops| :: ValidOp(ops[k])
    requires Shown(prefix, ops, n, cfg, space) != []
    ensures Behind(Shown(prefix, ops, n, cfg, space), After(prefix, ops, n, cfg, space).tracker)
  {
    hide Behind, Tracking, SoundSpace, ValidOp, After;
    RunTracks(prefix, ops, n, cfg, space);
    LatestBehind(After(prefix, ops, n, cfg, space).tracker);
  }

  /** Whatever was shown at some moment is behind the tracker ever after. */
  lemma {:induction false} ShownBehind(prefix: string, ops: seq<Op>, i: nat, n: nat, cfg: Config, space: SpaceUnit)
    requires i <= n <= |ops| && SoundSpace(space) && forall k | 0 <= k < |ops| :: ValidOp(ops[k])
    requires Shown(prefix, ops, i, cfg, space) != []
    ensures Behind(Shown(prefix, ops, i, cfg, space), After(prefix, ops, n, cfg, space).tracker)
    decreases n
  {
    hide *;
    if n == i {
      ShownLatest(prefix, ops, i, cfg, space);
    } else {
      ShownBehind(prefix, ops, i, n - 1, cfg, space);
      RunTracks(prefix, ops, n - 1, cfg, space);
      AfterStep(prefix, ops, n - 1, cfg, space);
      BehindStep(Shown(prefix, ops, i, cfg, space), After(prefix, ops, n - 1, cfg, space).tracker, ops[n - 1], space);
    }
  }

  /**
   * Any two captions of a run, however many scrolls and resets apart, show windows of one stream of keys: the later
   * window is further on, and a key in both has in the later one a suffix of its text in the earlier one.
   */
  lemma {:induction false} RunAdvances(prefix: string, ops: seq<Op>, i: nat, m: nat, cfg: Config, space: SpaceUnit)
    requires i <= m <= |ops| && SoundSpace(space) && forall k | 0 <= k < |ops| :: ValidOp(ops[k])
    requires Shown(prefix, ops, i, cfg, space) != [] && Shown(prefix, ops, m, cfg, space) != []
    ensures Advances(Shown(prefix, ops, i, cfg, space), Shown(prefix, ops, m, cfg, space))
  {
    hide SoundSpace, ValidOp, After, Advances;
    ShownBehind(prefix, ops, i, m, cfg, space);
  }

  /** A serial already issued and not on display is never issued again. */
  ghost predicate Spent(t: Tracker, key: Key) {
    key.prefix == t.prefix && key.serial <= t.nextId && key !in KeySet(Segments(t.previous))
  }

  lemma {:induction false} TrackedKey(t: Tracker, key: Key)
    requires Tracking(t)
    ensures key in KeySet(Segments(t.previous))
            <==> key.prefix == t.prefix && t.nextId - |Segments(t.previous)| < key.serial <= t.nextId
  {
    var segs := Segments(t.previous);
    if key.prefix == t.prefix && t.nextId - |segs| < key.serial <= t.nextId {
      assert segs[key.serial - t.nextId + |segs| - 1].key == key;
    }
  }

  lemma {:induction false} SpentStep(t: Tracker, op: Op, key: Key, space: SpaceUnit)
    requires Spent(t, key) && Tracking(t) && ValidOp(op) && SoundSpace(space)
    ensures Spent(TrackerAfter(t, op, space), key)
  {
    hide SoundSpace, Tracking, KeySet, ValidOp;
    var t' := TrackerAfter(t, op, space);
    TracksStep(t, op, space);
    TrackedKey(t, key);
    TrackedKey(t', key);
    if op.Snap? {
      KeptAmong(t, op.source.caption);
      CaptureKept(t, op.source, op.meta, space);
    } else if op.ForgetCaption? {
      EmptySnapshotValid();
    }
  }

  lemma {:induction false} KeptAmong(t: Tracker, caption: Text)
    requires Tracking(t)
    ensures |StillShown(t, caption)| <= |Segments(t.previous)|
  {
    KeptSuffix(Segments(t.previous), Removed(t, caption));
  }

  lemma {:induction false} StaysSpent(prefix: string, ops: seq<Op>, j: nat, m: nat, key: Key, cfg: Config,
                                        space: SpaceUnit)
    requires j <= m <= |ops| && SoundSpace(space) && forall k | 0 <= k < |ops| :: ValidOp(ops[k])
    requires Spent(After(prefix, ops, j, cfg, space).tracker, key)
    ensures Spent(After(prefix, ops, m, cfg, space).tracker, key)
    decreases m
  {
    hide *;
    if m == j {
    } else {
      StaysSpent(prefix, ops, j, m - 1, key, cfg, space);
      RunTracks(prefix, ops, m - 1, cfg, space);
      AfterStep(prefix, ops, m - 1, cfg, space);
      SpentStep(After(prefix, ops, m - 1, cfg, space).tracker, ops[m - 1], key, space);
    }
  }

  lemma {:induction false} SerialsIssued(prefix: string, ops: seq<Op>, i: nat, j: nat, cfg: Config, space: SpaceUnit)
    requires i <= j <= |ops|
    ensures After(prefix, ops, i, cfg, space).tracker.nextId <= After(prefix, ops, j, cfg, space).tracker.nextId
    decreases j
  {
    hide *;
    if j == i {
    } else {
      SerialsIssued(prefix, ops, i, j - 1, cfg, space);
      AfterStep(prefix, ops, j - 1, cfg, space);
      SerialsGrow(After(prefix, ops, j - 1, cfg, space).tracker, ops[j - 1], space);
    }
  }

  /**
   * Keys never return, over any run of captures and resets: a key shown after some operation and again after a later
   * one was shown after every operation between.
   */
  lemma {:induction false} KeysNeverReturn(prefix: string, ops: seq<Op>, i: nat, j: nat, m: nat, key: Key, cfg: Config,
                                           space: SpaceUnit)
    requires i <= j <= m <= |ops| && SoundSpace(space) && forall k | 0 <= k < |ops| :: ValidOp(ops[k])
    requires key in KeySet(Shown(prefix, ops, i, cfg, space)) && key in KeySet(Shown(prefix, ops, m, cfg, space))
    ensures key in KeySet(Shown(prefix, ops, j, cfg, space))
  {
    hide SoundSpace, ValidOp, After, Tracking, KeySet;
    RunTracks(prefix, ops, i, cfg, space);
    RunTracks(prefix, ops, j, cfg, space);
    TrackedKey(After(prefix, ops, i, cfg, space).tracker, key);
    SerialsIssued(prefix, ops, i, j, cfg, space);
    if key !in KeySet(Shown(prefix, ops, j, cfg, space)) {
      StaysSpent(prefix, ops, j, m, key, cfg, space);
    }
  }
}
