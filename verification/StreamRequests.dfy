/** Request discipline over every run: one request at a time, none twice, none forgotten, no late effects. */
module StreamRequests {
  import opened Wrappers
  import opened Protocol
  import opened Stream

  // ---- The invariant --------------------------------------------------------------------------

  /** Without a caption nothing is remembered and nothing is under way. */
  ghost predicate BlankWhenIdle(s: Coordinator) {
    s.current.None? ==>
      && !s.timer && s.active.None? && s.lastAcknowledged.None? && s.completed == {}
      && s.hints == [] && s.frozen == [] && s.activeRow == [] && s.finalized == []
  }

  /** The log of requests: numbered in order, of known generations, for ever later captions. */
  ghost predicate LogOrdered(s: Coordinator) {
    && (forall i | 0 <= i < |s.sent| :: s.sent[i].number == i + 1 && s.sent[i].generation <= s.generation
          && s.sent[i].event.sequence <= s.latestSequence)
    && (forall i, j | 0 <= i < j < |s.sent| :: s.sent[i].event.sequence < s.sent[j].event.sequence)
  }

  function LastSent(s: Coordinator): Dispatch
    requires s.sent != []
  {
    s.sent[|s.sent| - 1]
  }

  /** The caption now shown has not been sent yet. */
  ghost predicate Unsent(s: Coordinator) {
    s.current.Some? && (s.sent == [] || LastSent(s).event.sequence < s.current.value.sequence)
  }

  /** The request in flight is the last one sent, of this generation, and never beside a timer. */
  ghost predicate OneAtATime(s: Coordinator) {
    && (s.current.Some? ==> s.current.value.sequence == s.latestSequence)
    && !(s.timer && s.active.Some?)
    && (s.timer ==> Unsent(s))
    && (s.active.Some? ==> s.sent != [] && s.active.value == LastSent(s) && s.active.value.generation == s.generation)
  }

  /** A request for the caption still shown asks about every key that is not processed. */
  ghost predicate AsksForRest(s: Coordinator) {
    s.active.Some? && s.current.Some? && s.active.value.event.sequence == s.current.value.sequence ==>
      forall i | 0 <= i < |CurrentSegments(s)| ::
        CurrentSegments(s)[i].key in s.completed
        || CurrentSegments(s)[i].key in AppendedKeys(Segments(s.active.value.event.request.current))
  }

  /** Unprocessed text is being worked on, or the last thing rendered was a failure. */
  ghost predicate NoWorkForgotten(s: Coordinator) {
    Pending(s) && !s.timer && s.active.None? ==> s.views != [] && s.views[|s.views| - 1].state == Fallback
  }

  ghost predicate Disciplined(s: Coordinator) {
    BlankWhenIdle(s) && LogOrdered(s) && OneAtATime(s) && AsksForRest(s) && NoWorkForgotten(s)
  }

  // ---- Marked snapshots -----------------------------------------------------------------------

  lemma {:induction false} MarkAppend(a: seq<Segment>, b: seq<Segment>, completed: set<Key>)
    ensures MarkSegments(a + b, completed) == MarkSegments(a, completed) + MarkSegments(b, completed)
  {
  }

  lemma {:induction false} MarkFlat(groups: seq<Group>, completed: set<Key>)
    ensures Flatten(MarkGroups(groups, completed)) == MarkSegments(Flatten(groups), completed)
    ensures |MarkGroups(groups, completed)| == |groups|
  {
    if groups == [] {
    } else {
      var init, last := groups[..|groups| - 1], groups[|groups| - 1];
      MarkFlat(init, completed);
      FlattenAppend(MarkGroups(init, completed), last.(segments := MarkSegments(last.segments, completed)));
      MarkAppend(Flatten(init), last.segments, completed);
    }
  }

  /** Marking changes nothing but the append flags. */
  lemma {:induction false} MarkText(segs: seq<Segment>, completed: set<Key>)
    ensures SegText(MarkSegments(segs, completed)) == SegText(segs)
  {
    if segs == [] {
    } else {
      MarkText(segs[..|segs| - 1], completed);
      assert MarkSegments(segs, completed)[..|segs| - 1] == MarkSegments(segs[..|segs| - 1], completed);
    }
  }

  lemma {:induction false} OutgoingAsks(s: Coordinator, key: Key)
    requires s.current.Some?
    ensures key in AppendedKeys(Segments(Outgoing(s).event.request.current))
            <==> key in KeySet(CurrentSegments(s)) && key !in s.completed
  {
    var shown := s.current.value.request.current;
    MarkFlat(shown.captions, s.completed);
    var segs, marked := Segments(shown), MarkSegments(Segments(shown), s.completed);
    AppendedKeysAre(marked, key);
    if key in KeySet(segs) && key !in s.completed {
      var i :| 0 <= i < |segs| && segs[i].key == key;
      assert marked[i].append && marked[i].key == key;
    }
  }

  // ---- Every step keeps it --------------------------------------------------------------------

  lemma {:induction false} ScheduleKeeps(s: Coordinator)
    requires BlankWhenIdle(s) && LogOrdered(s) && OneAtATime(s) && AsksForRest(s)
    requires s.active.None? && Pending(s) ==> Unsent(s)
    ensures Disciplined(Schedule(s))
  {
  }

  /** What an arriving caption does to the request machinery: nothing, or a full stop. */
  ghost predicate SameRequests(s: Coordinator, a: Coordinator) {
    && a.sent == s.sent && a.generation >= s.generation
    && (|| (a.timer == s.timer && a.active == s.active && a.generation == s.generation)
        || (!a.timer && a.active.None?))
  }

  lemma {:induction false} ArrivedRequests(s: Coordinator, e: Event, cfg: Config)
    ensures var a := Arrived(s, e, cfg.word);
            a.current == Some(e) && a.latestSequence == e.sequence && SameRequests(s, a)
  {
  }

  lemma {:induction false} NewerCaption(s: Coordinator, a: Coordinator, e: Event)
    requires Disciplined(s) && e.sequence > s.latestSequence
    requires a.current == Some(e) && a.latestSequence == e.sequence && SameRequests(s, a)
    ensures Disciplined(Schedule(Publish(a, Status(a), None, None)))
  {
    ScheduleKeeps(Publish(a, Status(a), None, None));
  }

  lemma {:induction false} SubmitKeeps(s: Coordinator, e: Event, cfg: Config)
    requires Disciplined(s)
    ensures Disciplined(Submit(s, e, cfg.word))
  {
    if e.sequence > s.latestSequence {
      ArrivedRequests(s, e, cfg);
      NewerCaption(s, Arrived(s, e, cfg.word), e);
    }
  }

  lemma {:induction false} ClearKeeps(s: Coordinator, sequence: nat)
    requires Disciplined(s)
    ensures Disciplined(Clear(s, sequence))
  {
  }

  lemma {:induction false} FireKeeps(s: Coordinator)
    requires Disciplined(s)
    ensures Disciplined(Fire(s))
  {
    if s.timer {
      var begun := s.(timer := false);
      var after := DispatchNow(begun);
      if Pending(begun) {
        var d := Outgoing(begun);
        assert LogOrdered(after);
        forall i | 0 <= i < |CurrentSegments(after)|
          ensures CurrentSegments(after)[i].key in after.completed
                  || CurrentSegments(after)[i].key in AppendedKeys(Segments(d.event.request.current))
        {
          OutgoingAsks(begun, CurrentSegments(begun)[i].key);
        }
      }
    }
  }

  /** An accepted answer for the caption still shown leaves nothing to ask. */
  lemma {:induction false} AbsorbedCovers(s: Coordinator, d: Dispatch, body: Response, cfg: Config)
    requires Disciplined(s) && !Late(s, d) && d == s.active.value
    requires Answers(body, d.event.request, cfg.evidence)
    requires d.event.sequence == s.current.value.sequence
    ensures !Pending(Absorbed(s, d, body, cfg.word))
  {
    var a := Absorbed(s, d, body, cfg.word);
    forall i | 0 <= i < |CurrentSegments(a)|
      ensures CurrentSegments(a)[i].key in a.completed
    {
      var key := CurrentSegments(s)[i].key;
      assert key in KeySet(CurrentSegments(s));
      assert key in s.completed || key in body.processedKeys;
    }
  }

  /** A state that differs from a disciplined one by an answered request and by what is displayed. */
  lemma {:induction false} AnsweredKeeps(s: Coordinator, a: Coordinator)
    requires Disciplined(s) && s.active.Some? && s.current.Some?
    requires a.sent == s.sent && a.generation == s.generation && a.latestSequence == s.latestSequence
    requires a.current == s.current && a.timer == s.timer && a.active.None?
    requires s.active.value.event.sequence == s.current.value.sequence ==> !Pending(a)
    ensures Disciplined(Schedule(a))
  {
    ScheduleKeeps(a);
  }

  lemma {:induction false} AcceptSuccessKeeps(s: Coordinator, d: Dispatch, body: Response, cfg: Config)
    requires Disciplined(s) && !Late(s, d) && d == s.active.value
    requires Answers(body, d.event.request, cfg.evidence)
    ensures Disciplined(Accept(s, d, Success(body), cfg))
  {
    var a := Absorbed(s, d, body, cfg.word);
    if d.event.sequence == s.current.value.sequence {
      AbsorbedCovers(s, d, body, cfg);
    }
    var published := Publish(a, Status(a), Some(d.event), None);
    SealedKeeps(published);
    AnsweredKeeps(s, Sealed(published));
  }

  /** Sealing rows touches the frozen keys and the view log only. */
  lemma {:induction false} SealedKeeps(s: Coordinator)
    requires s.current.Some?
    ensures Sealed(s) == s.(frozen := Sealed(s).frozen, views := Sealed(s).views)
    ensures Pending(Sealed(s)) <==> Pending(s)
  {
    assert CurrentSegments(Sealed(s)) == CurrentSegments(s) && Sealed(s).completed == s.completed;
    if Pending(Sealed(s)) {
      var i :| 0 <= i < |CurrentSegments(Sealed(s))| && CurrentSegments(Sealed(s))[i].key !in s.completed;
      assert CurrentSegments(s)[i].key !in s.completed;
    }
    if Pending(s) {
      var i :| 0 <= i < |CurrentSegments(s)| && CurrentSegments(s)[i].key !in s.completed;
      assert CurrentSegments(Sealed(s))[i].key !in Sealed(s).completed;
    }
  }

  lemma {:induction false} AcceptKeeps(s: Coordinator, index: nat, result: Result, cfg: Config)
    requires Disciplined(s) && index < |s.sent|
    ensures Disciplined(Accept(s, s.sent[index], result, cfg))
  {
    var d := s.sent[index];
    if !Late(s, d) {
      assert d == s.active.value;
      if result.Success? && Answers(result.body, d.event.request, cfg.evidence) {
        AcceptSuccessKeeps(s, d, result.body, cfg);
      } else {
        FailureKeeps(s, if result.Failure? then result.reason else InvalidResponse);
      }
    }
  }

  lemma {:induction false} FailureKeeps(s: Coordinator, reason: Reason)
    requires Disciplined(s) && s.current.Some?
    ensures Disciplined(Failed(s, reason))
  {
  }

  lemma {:induction false} StepKeeps(s: Coordinator, input: Input, cfg: Config)
    requires Disciplined(s)
    ensures Disciplined(Step(s, input, cfg))
  {
    match input
    case DoSubmit(e) => SubmitKeeps(s, e, cfg);
    case DoClear(n) => ClearKeeps(s, n);
    case DoFire => FireKeeps(s);
    case DoAnswer(i, result) =>
      if i < |s.sent| {
        AcceptKeeps(s, i, result, cfg);
      }
  }

  lemma {:induction false} RunDisciplined(s: Coordinator, inputs: seq<Input>, cfg: Config)
    requires Disciplined(s)
    ensures Disciplined(Run(s, inputs, cfg))
  {
    if inputs == [] {
    } else {
      RunDisciplined(s, inputs[..|inputs| - 1], cfg);
      StepKeeps(Run(s, inputs[..|inputs| - 1], cfg), inputs[|inputs| - 1], cfg);
    }
  }

  // ---- Economy --------------------------------------------------------------------------------

  /** How many submits of the run were not dropped as stale. */
  function EffectiveSubmits(inputs: seq<Input>, cfg: Config): nat {
    if inputs == [] then 0
    else
      var init, last := inputs[..|inputs| - 1], inputs[|inputs| - 1];
      EffectiveSubmits(init, cfg)
      + if last.DoSubmit? && last.event.sequence > Run(Initial(), init, cfg).latestSequence then 1 else 0
  }

  lemma {:induction false} SentAtMostSubmitted(inputs: seq<Input>, cfg: Config)
    ensures var s := Run(Initial(), inputs, cfg);
            |s.sent| + (if Unsent(s) then 1 else 0) <= EffectiveSubmits(inputs, cfg)
  {
    if inputs == [] {
    } else {
      var init, last := inputs[..|inputs| - 1], inputs[|inputs| - 1];
      SentAtMostSubmitted(init, cfg);
      RunDisciplined(Initial(), init, cfg);
      StepSends(Run(Initial(), init, cfg), last, cfg);
    }
  }

  /** A step sends at most one request, and only for a caption not sent before. */
  lemma {:induction false} StepSends(s: Coordinator, input: Input, cfg: Config)
    requires Disciplined(s)
    ensures var s' := Step(s, input, cfg);
            || (s'.sent == s.sent && (Unsent(s') ==>
                Unsent(s) || (input.DoSubmit? && input.event.sequence > s.latestSequence)))
            || (|s'.sent| == |s.sent| + 1 && Unsent(s) && !Unsent(s'))
  {
    hide Disciplined, Submit, Fire, Accept, ResetNeeded;
    match input
    case DoSubmit(e) =>
      SubmitSends(s, e, cfg);
    case DoClear(n) =>
    case DoFire =>
      FireSends(s);
    case DoAnswer(i, result) =>
      if i < |s.sent| {
        AcceptSends(s, s.sent[i], result, cfg);
      }
  }

  lemma {:induction false} SubmitSends(s: Coordinator, e: Event, cfg: Config)
    ensures var s' := Submit(s, e, cfg.word);
            && s'.sent == s.sent && (s'.active.None? || s'.active == s.active)
            && (s' == s || e.sequence > s.latestSequence)
            && (e.sequence > s.latestSequence && ResetNeeded(s, e) ==> s'.active.None?)
  {
    if e.sequence > s.latestSequence {
      ArrivedRequests(s, e, cfg);
    }
  }

  lemma {:induction false} FireSends(s: Coordinator)
    requires Disciplined(s)
    ensures var s' := Fire(s);
            || s' == s
            || (|s'.sent| == |s.sent| + 1 && Unsent(s) && !Unsent(s') && s'.active.Some?
                && s'.active.value.number == |s.sent| + 1)
            || (s'.sent == s.sent && s'.current == s.current && s'.active == s.active)
  {
  }

  lemma {:induction false} AcceptSends(s: Coordinator, d: Dispatch, result: Result, cfg: Config)
    ensures var s' := Accept(s, d, result, cfg);
            s'.sent == s.sent && s'.current == s.current && (s'.active.None? || s'.active == s.active)
  {
    hide Absorbed, Sealed;
    if !Late(s, d) && result.Success? && Answers(result.body, d.event.request, cfg.evidence) {
      var a := Absorbed(s, d, result.body, cfg.word);
      AbsorbedRequests(s, d, result.body, cfg);
      SealedRequests(Publish(a, Status(a), Some(d.event), None));
    }
  }

  lemma {:induction false} AbsorbedRequests(s: Coordinator, d: Dispatch, body: Response, cfg: Config)
    requires s.current.Some?
    ensures var a := Absorbed(s, d, body, cfg.word); a.sent == s.sent && a.current == s.current && a.active.None?
  {
  }

  lemma {:induction false} SealedRequests(s: Coordinator)
    requires s.current.Some?
    ensures Sealed(s).sent == s.sent && Sealed(s).current == s.current && Sealed(s).active == s.active
  {
    hide OlderRows;
  }

  /**
   * Request economy, over every run: captions are sent in strictly increasing order, so none is sent
   * twice; requests never outnumber the submits that took effect; a timer and a request in flight
   * never coexist; and unprocessed text always has one of the two, unless a failure is on display.
   */
  lemma {:induction false} RequestEconomy(inputs: seq<Input>, cfg: Config)
    ensures var s := Run(Initial(), inputs, cfg);
            && (forall i, j | 0 <= i < j < |s.sent| :: s.sent[i].event.sequence < s.sent[j].event.sequence)
            && |s.sent| <= EffectiveSubmits(inputs, cfg)
            && !(s.timer && s.active.Some?)
            && (Pending(s) ==> s.timer || s.active.Some? || (s.views != [] && s.views[|s.views| - 1].state == Fallback))
  {
    RunDisciplined(Initial(), inputs, cfg);
    SentAtMostSubmitted(inputs, cfg);
  }

  // ---- Late answers ---------------------------------------------------------------------------

  /** No request numbered up to n is in flight. */
  ghost predicate Superseded(s: Coordinator, n: nat) {
    |s.sent| >= n && (s.active.Some? ==> s.active.value.number > n)
  }

  lemma {:induction false} StaysSuperseded(s: Coordinator, inputs: seq<Input>, cfg: Config, n: nat)
    requires Disciplined(s) && Superseded(s, n)
    ensures Superseded(Run(s, inputs, cfg), n)
  {
    if inputs == [] {
    } else {
      var before := Run(s, inputs[..|inputs| - 1], cfg);
      StaysSuperseded(s, inputs[..|inputs| - 1], cfg, n);
      RunDisciplined(s, inputs[..|inputs| - 1], cfg);
      StepSuperseded(before, inputs[|inputs| - 1], cfg, n);
    }
  }

  lemma {:induction false} StepSuperseded(s: Coordinator, input: Input, cfg: Config, n: nat)
    requires Disciplined(s) && Superseded(s, n)
    ensures Superseded(Step(s, input, cfg), n)
  {
    match input
    case DoSubmit(e) =>
      SubmitSends(s, e, cfg);
    case DoClear(n) =>
    case DoFire =>
      FireSends(s);
    case DoAnswer(i, result) =>
      if i < |s.sent| {
        AcceptSends(s, s.sent[i], result, cfg);
      }
  }

  lemma {:induction false} CutSupersedes(s: Coordinator, cut: Input, cfg: Config)
    requires || (cut.DoClear? && cut.sequence > s.latestSequence)
             || (cut.DoSubmit? && cut.event.sequence > s.latestSequence && ResetNeeded(s, cut.event))
    ensures Superseded(Step(s, cut, cfg), |s.sent|)
  {
    if cut.DoSubmit? {
      SubmitSends(s, cut.event, cfg);
    }
  }

  lemma {:induction false} SupersededInert(s: Coordinator, index: nat, result: Result, cfg: Config, n: nat)
    requires Disciplined(s) && Superseded(s, n) && index < n
    ensures Step(s, DoAnswer(index, result), cfg) == s
  {
    assert Late(s, s.sent[index]);
  }

  /**
   * After a clear, or a submit that restarts the stream, an answer to any request sent before it
   * changes nothing at all, however much later it arrives.
   */
  lemma {:induction false} LateAnswersInert(s: Coordinator, cut: Input, after: seq<Input>, index: nat, result: Result,
                                            cfg: Config)
    requires Disciplined(s) && index < |s.sent|
    requires || (cut.DoClear? && cut.sequence > s.latestSequence)
             || (cut.DoSubmit? && cut.event.sequence > s.latestSequence && ResetNeeded(s, cut.event))
    ensures var later := Run(Step(s, cut, cfg), after, cfg);
            Step(later, DoAnswer(index, result), cfg) == later
  {
    hide Disciplined, Superseded, Step, Run;
    var begun := Step(s, cut, cfg);
    StepKeeps(s, cut, cfg);
    CutSupersedes(s, cut, cfg);
    RunDisciplined(begun, after, cfg);
    StaysSuperseded(begun, after, cfg, |s.sent|);
    SupersededInert(Run(begun, after, cfg), index, result, cfg, |s.sent|);
  }

  /** An answer counts exactly when its request is the one in flight: the three guards say one thing. */
  lemma {:induction false} LateIffNotInFlight(s: Coordinator, index: nat)
    requires Disciplined(s) && index < |s.sent|
    ensures Late(s, s.sent[index]) <==> s.active != Some(s.sent[index])
  {
  }
}
