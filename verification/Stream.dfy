/** The request coordinator as a state machine: what each callback does to the whole state (stream.ts). */
module Stream {
  import opened Wrappers
  import opened Utf16
  import opened Protocol
  import opened CaptionSnapshot
  import opened OrderedKeys
  import opened Sorting

  datatype Event = Event(sequence: nat, request: Request)

  /** One call of the transport; the number stands for the identity of its event object. */
  datatype Dispatch = Dispatch(number: nat, generation: nat, event: Event)

  datatype Reason =
    | Timeout | Aborted | InvalidRequest | Network | Rejected
    | BackendUnavailable | InvalidResponse | RuntimeInitializing | RuntimeIncompatible

  datatype Result = Success(body: Response) | Failure(reason: Reason)

  datatype ViewState = Idle | Waiting | Ready | NoPending | Fallback

  datatype RuntimeFailure = Initializing | Incompatible | Unavailable

  /** answered counts the answers that had been accepted when the view was rendered. */
  datatype View = View(state: ViewState, event: Option<Event>, hints: seq<Hint>, frozen: seq<Key>, finalized: seq<Key>,
                       debugEvent: Option<Event>, failure: Option<RuntimeFailure>, answered: nat)

  /** An answer that was accepted: the topic and snapshot it was asked for, and its body. */
  datatype Acceptance = Acceptance(topic: string, snapshot: Snapshot, body: Response)

  /** Facts about text and lexicon evidence that the coordinator takes from its surroundings. */
  datatype Config = Config(word: WordUnit, evidence: Evidence)

  /**
   * The fields of the coordinator, then what it emitted: requests sent, views rendered, and the
   * history of accepted answers.
   */
  datatype Coordinator = Coordinator(
    generation: nat,
    latestSequence: nat,
    current: Option<Event>,
    lastKnownTrack: Option<string>,
    timer: bool,
    active: Option<Dispatch>,
    lastAcknowledged: Option<Snapshot>,
    completed: set<Key>,
    hints: seq<Hint>,
    frozen: seq<Key>,
    finalized: seq<Key>,
    activeRow: seq<Key>,
    sent: seq<Dispatch>,
    views: seq<View>,
    accepted: seq<Acceptance>
  )

  function Initial(): Coordinator {
    Coordinator(0, 0, None, None, false, None, None, {}, [], [], [], [], [], [], [])
  }

  function CurrentSegments(s: Coordinator): seq<Segment> {
    if s.current.Some? then Segments(s.current.value.request.current) else []
  }

  function CurrentText(s: Coordinator): Text {
    SegText(CurrentSegments(s))
  }

  // ---- Publishing and scheduling --------------------------------------------------------------

  predicate Pending(s: Coordinator) {
    exists i | 0 <= i < |CurrentSegments(s)| :: CurrentSegments(s)[i].key !in s.completed
  }

  function Status(s: Coordinator): ViewState {
    if Pending(s) then Waiting else if s.hints != [] then Ready else NoPending
  }

  function Publish(s: Coordinator, state: ViewState, debugEvent: Option<Event>,
                   failure: Option<RuntimeFailure>): Coordinator {
    s.(views := s.views + [View(state, s.current, s.hints, s.frozen, s.finalized, debugEvent, failure, |s.accepted|)])
  }

  function Schedule(s: Coordinator): Coordinator {
    if s.active.Some? || s.timer || !Pending(s) then s else s.(timer := true)
  }

  // ---- Submitting and clearing ----------------------------------------------------------------

  function StopRequests(s: Coordinator): Coordinator {
    s.(generation := s.generation + 1, timer := false, active := None)
  }

  /** Both callers of invalidate ask for a full reset. */
  function Invalidate(s: Coordinator): Coordinator {
    StopRequests(s).(completed := {}, hints := [], lastAcknowledged := None, frozen := [], activeRow := [],
        finalized := [])
  }

  /** A new topic, a contradicting known track, or no retained text: the stream starts over. */
  predicate ResetNeeded(s: Coordinator, e: Event) {
    && s.current.Some?
    && (|| s.current.value.request.topic != e.request.topic
        || (s.lastKnownTrack.Some? && e.request.track.Some? && s.lastKnownTrack != e.request.track)
        || RetainedOverlap(CurrentText(s), SnapshotText(e.request.current)) == 0)
  }

  /** The same track simply moved on to unrelated text. */
  predicate NaturalRowExit(s: Coordinator, e: Event) {
    && s.current.Some?
    && s.current.value.request.topic == e.request.topic
    && s.current.value.request.track == e.request.track
    && RetainedOverlap(CurrentText(s), SnapshotText(e.request.current)) == 0
  }

  function Retired(s: Coordinator, e: Event): seq<Key> {
    if NaturalRowExit(s, e) then KeysOf(CurrentSegments(s)) else []
  }

  /** Sequence, reset and known track: everything submit does before it looks at rows and hints. */
  function Rebased(s: Coordinator, e: Event): Coordinator {
    var begun := s.(latestSequence := e.sequence);
    var clean := if ResetNeeded(s, e) then Invalidate(begun).(finalized := AddAll([], Retired(s, e))) else begun;
    if e.request.track.Some? then clean.(lastKnownTrack := e.request.track) else clean
  }

  /** Keys of the newest visual row: the last line of the last group. */
  function NewestRow(s: Snapshot): seq<Key> {
    if s.captions == [] || s.captions[|s.captions| - 1].segments == [] then []
    else
      var segs := s.captions[|s.captions| - 1].segments;
      AddAll([], KeysOf(OnLine(segs, segs[|segs| - 1].line)))
  }

  function OnLine(segs: seq<Segment>, line: int): seq<Segment> {
    if segs == [] then []
    else
      var rest := OnLine(segs[..|segs| - 1], line);
      if segs[|segs| - 1].line == line then rest + [segs[|segs| - 1]] else rest
  }

  function OffLine(segs: seq<Segment>, line: int): seq<Segment> {
    if segs == [] then []
    else
      var rest := OffLine(segs[..|segs| - 1], line);
      if segs[|segs| - 1].line != line then rest + [segs[|segs| - 1]] else rest
  }

  /** A continuing caption seals the shown keys that are not in the newest row. */
  function PassedRows(s: Coordinator, e: Event): seq<Key> {
    var base := Rebased(s, e);
    if s.current.Some? && !ResetNeeded(s, e)
    then AddAll(base.frozen, Outside(KeysOf(CurrentSegments(s)), Members(base.activeRow)))
    else base.frozen
  }

  /** The newest row is left behind too when nothing of it is newest any more. */
  function LeaveRow(frozen: seq<Key>, row: seq<Key>, next: seq<Key>): seq<Key> {
    if row != [] && Members(row) !! Members(next) then AddAll(frozen, row) else frozen
  }

  /** Sealed keys that are no longer shown are finished; shown keys never are; the oldest are forgotten. */
  function Finish(finalized: seq<Key>, frozen: seq<Key>, keys: set<Key>): seq<Key> {
    Evict(Outside(AddAll(finalized, Outside(frozen, keys)), keys))
  }

  function FrozenOnArrival(s: Coordinator, e: Event): seq<Key> {
    LeaveRow(PassedRows(s, e), Rebased(s, e).activeRow, NewestRow(e.request.current))
  }

  /** The arriving caption takes the place of the shown one. */
  function Settled(base: Coordinator, passed: seq<Key>, oldText: Text, e: Event, word: WordUnit): Coordinator {
    var keys := KeySet(Segments(e.request.current));
    var sealed := LeaveRow(passed, base.activeRow, NewestRow(e.request.current));
    base.(hints := Remap(oldText, SnapshotText(e.request.current), base.hints, word),
          current := Some(e),
          completed := base.completed * keys,
          activeRow := NewestRow(e.request.current),
          frozen := Within(sealed, keys),
          finalized := Finish(base.finalized, sealed, keys))
  }

  /** The state submit publishes. */
  function Arrived(s: Coordinator, e: Event, word: WordUnit): Coordinator {
    Settled(Rebased(s, e), PassedRows(s, e), CurrentText(s), e, word)
  }

  function Submit(s: Coordinator, e: Event, word: WordUnit): Coordinator {
    if e.sequence <= s.latestSequence then s
    else
      var a := Arrived(s, e, word);
      Schedule(Publish(a, Status(a), None, None))
  }

  function Clear(s: Coordinator, sequence: nat): Coordinator {
    if sequence <= s.latestSequence then s
    else
      var c := Invalidate(s.(latestSequence := sequence)).(current := None, lastKnownTrack := None);
      c.(views := c.views + [View(Idle, None, [], [], [], None, None, |s.accepted|)])
  }

  // ---- Dispatching ----------------------------------------------------------------------------

  function MarkSegments(segs: seq<Segment>, completed: set<Key>): (marked: seq<Segment>)
    ensures |marked| == |segs|
    ensures forall i | 0 <= i < |segs| :: marked[i] == segs[i].(append := segs[i].key !in completed)
  {
    seq(|segs|, i requires 0 <= i < |segs| => segs[i].(append := segs[i].key !in completed))
  }

  function MarkGroups(groups: seq<Group>, completed: set<Key>): seq<Group> {
    if groups == [] then []
    else
      var last := groups[|groups| - 1];
      MarkGroups(groups[..|groups| - 1], completed) + [last.(segments := MarkSegments(last.segments, completed))]
  }

  function Mark(s: Snapshot, completed: set<Key>): Snapshot {
    Snapshot(MarkGroups(s.captions, completed))
  }

  /** The event as sent: append marks from the processed keys, and the snapshot last acknowledged. */
  function Outgoing(s: Coordinator): Dispatch
    requires s.current.Some?
  {
    var e := s.current.value;
    Dispatch(|s.sent| + 1, s.generation,
      e.(request := e.request.(current := Mark(e.request.current, s.completed), lastRequested := s.lastAcknowledged)))
  }

  function DispatchNow(s: Coordinator): Coordinator {
    if s.current.None? || !Pending(s) then s
    else s.(active := Some(Outgoing(s)), sent := s.sent + [Outgoing(s)])
  }

  /** The timer callback; without a timer there is no callback to run. */
  function Fire(s: Coordinator): Coordinator {
    if !s.timer then s else DispatchNow(s.(timer := false))
  }

  // ---- Accepting an answer --------------------------------------------------------------------

  /** The answer belongs to a superseded generation, to no caption, or to another request. */
  predicate Late(s: Coordinator, d: Dispatch) {
    d.generation != s.generation || s.current.None? || s.active.None? || s.active.value.number != d.number
  }

  function FailureOf(reason: Reason): RuntimeFailure {
    match reason
    case RuntimeInitializing => Initializing
    case RuntimeIncompatible => Incompatible
    case InvalidResponse => Incompatible
    case _ => Unavailable
  }

  function Present(rs: seq<Option<Hint>>): seq<Hint> {
    if rs == [] then []
    else
      var rest := Present(rs[..|rs| - 1]);
      if rs[|rs| - 1].Some? then rest + [rs[|rs| - 1].value] else rest
  }

  function Resolved(hints: seq<KeyedHint>, s: Snapshot): seq<Hint> {
    Present(Resolutions(hints, s))
  }

  /** The visual row of each segment, beside Segments: group index and line. */
  function Rows(groups: seq<Group>): seq<(nat, int)> {
    if groups == [] then []
    else
      var last := groups[|groups| - 1];
      Rows(groups[..|groups| - 1])
      + seq(|last.segments|, i requires 0 <= i < |last.segments| => (|groups| - 1, last.segments[i].line))
  }

  predicate Touches(segs: seq<Segment>, i: nat, h: Hint)
    requires i < |segs|
  {
    Offset(segs, i) < h.endOffset && h.startOffset < Offset(segs, i + 1)
  }

  predicate TouchesFrozen(segs: seq<Segment>, frozen: seq<Key>, h: Hint) {
    exists i | 0 <= i < |segs| :: Touches(segs, i, h) && segs[i].key in frozen
  }

  predicate CrossesRow(s: Snapshot, h: Hint) {
    exists i, j | 0 <= i < j < |Segments(s)| && j < |Rows(s.captions)| ::
      Touches(Segments(s), i, h) && Touches(Segments(s), j, h) && Rows(s.captions)[i] != Rows(s.captions)[j]
  }

  predicate Collides(a: Hint, b: Hint) {
    a.startOffset < b.endOffset && b.startOffset < a.endOffset
  }

  predicate Admissible(h: Hint, s: Snapshot, frozen: seq<Key>, version: Option<int>, held: seq<Hint>) {
    && !TouchesFrozen(Segments(s), frozen, h)
    && !CrossesRow(s, h)
    && (version.Some? ==> version.value == h.version)
    && forall i | 0 <= i < |held| :: !Collides(held[i], h)
  }

  function Merge(held: seq<Hint>, mapped: seq<Hint>, s: Snapshot, frozen: seq<Key>, version: Option<int>): seq<Hint> {
    if mapped == [] then held
    else
      var merged := Merge(held, mapped[..|mapped| - 1], s, frozen, version);
      var h := mapped[|mapped| - 1];
      if Admissible(h, s, frozen, version, merged) then merged + [h] else merged
  }

  predicate StartsNoLater(a: Hint, b: Hint) {
    a.startOffset <= b.startOffset
  }

  /** A stable sort by start offset. */
  function SortHints(hints: seq<Hint>): seq<Hint> {
    Sort(hints, StartsNoLater)
  }

  function HeldVersion(s: Coordinator): Option<int> {
    if s.hints == [] then None else Some(s.hints[0].version)
  }

  function Mapped(s: Coordinator, d: Dispatch, body: Response, word: WordUnit): seq<Hint> {
    var asked := d.event.request.current;
    Remap(SnapshotText(asked), CurrentText(s), Resolved(body.hints, asked), word)
  }

  /** Coverage and hints of a valid answer, before anything is published. */
  function Absorbed(s: Coordinator, d: Dispatch, body: Response, word: WordUnit): Coordinator
    requires s.current.Some?
  {
    var shown := s.current.value.request.current;
    s.(active := None,
       lastAcknowledged := Some(d.event.request.current),
       completed := s.completed + (set k | k in body.processedKeys && k in KeySet(CurrentSegments(s))),
       hints := SortHints(Merge(s.hints, Mapped(s, d, body, word), shown, s.frozen, HeldVersion(s))),
       accepted := s.accepted + [Acceptance(d.event.request.topic, d.event.request.current, body)])
  }

  /** Keys that are not in the newest visual row. */
  function OlderRows(s: Snapshot): seq<Key> {
    if s.captions == [] then []
    else
      var last := s.captions[|s.captions| - 1];
      var before := KeysOf(Flatten(s.captions[..|s.captions| - 1]));
      if last.segments == [] then before
      else before + KeysOf(OffLine(last.segments, last.segments[|last.segments| - 1].line))
  }

  /** After the first complete answer the older rows are sealed, and a changed seal is published. */
  function Sealed(s: Coordinator): Coordinator
    requires s.current.Some?
  {
    var sealed := s.(frozen := AddAll(s.frozen, OlderRows(s.current.value.request.current)));
    if |sealed.frozen| != |s.frozen| then Publish(sealed, Status(sealed), None, None) else sealed
  }

  function Failed(s: Coordinator, reason: Reason): Coordinator {
    Publish(s.(active := None), Fallback, None, Some(FailureOf(reason)))
  }

  function Accept(s: Coordinator, d: Dispatch, result: Result, cfg: Config): Coordinator {
    if Late(s, d) then s
    else if result.Failure? then Failed(s, result.reason)
    else if !Answers(result.body, d.event.request, cfg.evidence) then Failed(s, InvalidResponse)
    else
      var a := Absorbed(s, d, result.body, cfg.word);
      Schedule(Sealed(Publish(a, Status(a), Some(d.event), None)))
  }

  // ---- Runs -----------------------------------------------------------------------------------

  /** Answers name a request already sent; they may come late, twice, or never. */
  datatype Input =
    | DoSubmit(event: Event)
    | DoClear(sequence: nat)
    | DoFire
    | DoAnswer(index: nat, result: Result)

  function Step(s: Coordinator, input: Input, cfg: Config): Coordinator {
    match input
    case DoSubmit(e) => Submit(s, e, cfg.word)
    case DoClear(n) => Clear(s, n)
    case DoFire => Fire(s)
    case DoAnswer(i, result) => if i < |s.sent| then Accept(s, s.sent[i], result, cfg) else s
  }

  function Run(s: Coordinator, inputs: seq<Input>, cfg: Config): Coordinator {
    if inputs == [] then s else Step(Run(s, inputs[..|inputs| - 1], cfg), inputs[|inputs| - 1], cfg)
  }
}
