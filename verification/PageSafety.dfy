/** Over every page run: no stale topic, no stale caption, and strictly increasing sequence numbers. */
module PageSafety {
  import opened Wrappers
  import opened Utf16
  import opened Protocol
  import opened CaptionSnapshot
  import opened CaptionRun
  import opened Page

  function SequenceOf(op: Op): Option<nat> {
    match op
    case SubmitLatest(n, _, _) => Some(n)
    case ClearStream(n) => Some(n)
    case _ => None
  }

  /** The caption of the snapshot that the tracker holds after these operations. */
  function LatestCaption(log: seq<Emission>): Option<Text> {
    if log == [] then None
    else
      match log[|log| - 1].op
      case Snap(source, _) => Some(source.caption)
      case ForgetCaption => None
      case _ => LatestCaption(log[..|log| - 1])
  }

  /** The length of the log up to the capture that is still the latest; 0 when there is none. */
  function LatestCapture(log: seq<Emission>): nat {
    if log == [] then 0
    else
      match log[|log| - 1].op
      case Snap(_, _) => |log|
      case ForgetCaption => 0
      case _ => LatestCapture(log[..|log| - 1])
  }

  /** Every sequence number in the log is below the bound. */
  ghost predicate Below(log: seq<Emission>, bound: nat) {
    forall i | 0 <= i < |log| && SequenceOf(log[i].op).Some? :: SequenceOf(log[i].op).value < bound
  }

  ghost predicate Increasing(log: seq<Emission>) {
    forall i, j | 0 <= i < j < |log| && SequenceOf(log[i].op).Some? && SequenceOf(log[j].op).Some? ::
      SequenceOf(log[i].op).value < SequenceOf(log[j].op).value
  }

  /** A submit carries the topic of the video on the page, and the caption on the screen, of that moment. */
  ghost predicate Truthful(log: seq<Emission>, i: nat, hash: TopicHash)
    requires i < |log|
  {
    log[i].op.SubmitLatest? ==>
      && log[i].video.Some? && log[i].op.topic == TopicOf(log[i].video.value, hash)
      && log[i].caption.Some? && LatestCaption(log[..i]) == log[i].caption
  }

  ghost predicate Positive(log: seq<Emission>) {
    forall i | 0 <= i < |log| && SequenceOf(log[i].op).Some? :: SequenceOf(log[i].op).value > 0
  }

  ghost predicate GoodLog(log: seq<Emission>, hash: TopicHash) {
    Positive(log) && Increasing(log) && forall i | 0 <= i < |log| :: Truthful(log, i, hash)
  }

  /** The topic held is that of the current video, unless the page key shows it to be out of date. */
  ghost predicate TopicCurrent(p: PageState, hash: TopicHash) {
    p.acq.topic.Some? && p.acq.pageKey == p.life.pageKey ==>
      && !p.life.navigating && p.life.videoId.Some?
      && p.acq.topic.value == TopicOf(p.life.videoId.value, hash)
  }

  ghost predicate KeysIssued(p: PageState) {
    p.life.pageKey <= p.life.issued && p.acq.pageKey <= p.life.issued
  }

  ghost predicate PromiseForVideo(p: PageState) {
    p.acq.topicPromise.Some? ==> p.acq.lastVideoId == Some(p.acq.topicPromise.value.video)
  }

  /** If nothing happened since, the attempt's snapshot is the latest and its number unused. */
  ghost predicate Deliverable(p: PageState, t: Attempt) {
    && 0 < t.sequence <= p.acq.sequence && t.generation <= p.life.generation
    && (t.generation == p.life.generation ==> p.acq.pageKey == p.life.pageKey)
    && (t.sequence == p.acq.sequence ==>
          Below(p.log, t.sequence) && LatestCaption(p.log) == Some(t.caption) && LatestCapture(p.log) == t.taken)
  }

  ghost predicate Awaiting(p: PageState, w: Pending) {
    Deliverable(p, w.attempt) && w.promise.video == w.attempt.video
  }

  ghost predicate AllAwaiting(p: PageState) {
    forall i | 0 <= i < |p.pending| :: Awaiting(p, p.pending[i])
  }

  ghost predicate Safe(p: PageState, hash: TopicHash) {
    && GoodLog(p.log, hash) && Below(p.log, p.acq.sequence + 1)
    && TopicCurrent(p, hash) && KeysIssued(p) && PromiseForVideo(p) && AllAwaiting(p)
    && DistinctAttempts(p.pending)
  }

  ghost predicate DistinctAttempts(pending: seq<Pending>) {
    forall i, j | 0 <= i < j < |pending| :: pending[i].attempt.sequence != pending[j].attempt.sequence
  }

  // ---- Growing the log ------------------------------------------------------------------------

  lemma {:induction false} GoodLogGrows(log: seq<Emission>, x: Emission, hash: TopicHash)
    requires GoodLog(log, hash)
    requires SequenceOf(x.op).Some? ==> SequenceOf(x.op).value > 0 && Below(log, SequenceOf(x.op).value)
    requires Truthful(log + [x], |log|, hash)
    ensures GoodLog(log + [x], hash)
  {
    var longer := log + [x];
    forall i | 0 <= i < |longer|
      ensures Truthful(longer, i, hash)
    {
      if i < |log| {
        assert Truthful(log, i, hash);
        assert longer[..i] == log[..i];
      }
    }
  }

  lemma {:induction false} BelowGrows(log: seq<Emission>, x: Emission, bound: nat)
    requires Below(log, bound) && (SequenceOf(x.op).Some? ==> SequenceOf(x.op).value < bound)
    ensures Below(log + [x], bound)
  {
  }

  lemma {:induction false} LatestAfter(log: seq<Emission>, x: Emission)
    ensures LatestCaption(log + [x])
            == match x.op
               case Snap(source, _) => Some(source.caption)
               case ForgetCaption => None
               case _ => LatestCaption(log)
    ensures LatestCapture(log + [x])
            == match x.op
               case Snap(_, _) => |log| + 1
               case ForgetCaption => 0
               case _ => LatestCapture(log)
  {
    assert (log + [x])[..|log|] == log;
  }

  /** Forgetting the caption and clearing the stream under the next number keeps the log good. */
  lemma {:induction false} ClearingLog(log: seq<Emission>, a: Emission, b: Emission, n: nat, hash: TopicHash)
    requires GoodLog(log, hash) && Below(log, n + 1) && a.op == ForgetCaption && b.op == ClearStream(n + 1)
    ensures GoodLog(log + [a] + [b], hash) && Below(log + [a] + [b], n + 2)
  {
    GoodLogGrows(log, a, hash);
    BelowGrows(log, a, n + 1);
    GoodLogGrows(log + [a], b, hash);
    BelowGrows(log + [a], b, n + 2);
  }

  // ---- Clearing -------------------------------------------------------------------------------

  /** p' is p after a clear: two more log entries, the next number, and no promise to share. */
  ghost predicate Cleared(p: PageState, p': PageState) {
    && p'.life == p.life && p'.pending == p.pending
    && p'.acq.sequence == p.acq.sequence + 1 && p'.acq.topicPromise.None?
    && |p'.log| == |p.log| + 2 && p'.log[..|p.log|] == p.log
    && p'.log[|p.log|].op == ForgetCaption && p'.log[|p.log| + 1].op == ClearStream(p'.acq.sequence)
  }

  /** A clear outdates every attempt that was waiting. */
  lemma {:induction false} ClearedAwaiting(p: PageState, p': PageState)
    requires Cleared(p, p') && AllAwaiting(p)
    requires p'.acq.pageKey == p.acq.pageKey || p'.acq.pageKey == p.life.pageKey
    ensures AllAwaiting(p')
  {
    forall i | 0 <= i < |p'.pending|
      ensures Awaiting(p', p'.pending[i])
    {
      assert Awaiting(p, p.pending[i]);
    }
  }

  lemma {:induction false} ClearedSafe(p: PageState, p': PageState, hash: TopicHash)
    requires Safe(p, hash) && Cleared(p, p')
    requires || (p'.acq.pageKey == p.acq.pageKey && p'.acq.topic == p.acq.topic)
             || (p'.acq.pageKey == p.life.pageKey && p'.acq.topic.None?)
    ensures Safe(p', hash)
  {
    var a, b := p'.log[|p.log|], p'.log[|p.log| + 1];
    assert p'.log == p.log + [a] + [b];
    ClearingLog(p.log, a, b, p.acq.sequence, hash);
    ClearedAwaiting(p, p');
  }

  lemma {:induction false} ClearSourceClears(p: PageState, env: Env)
    ensures Cleared(p, ClearSource(p, env))
    ensures ClearSource(p, env).acq == p.acq.(missingAt := None, topicPromise := None, sequence := p.acq.sequence + 1)
  {
    var caption := CaptionOf(p.life, env);
    var a, b := Emission(ForgetCaption, env.currentVideoId, caption),
        Emission(ClearStream(p.acq.sequence + 1), env.currentVideoId, caption);
    assert ClearSource(p, env).log == p.log + [a] + [b];
  }

  lemma {:induction false} RestartSafe(p: PageState, env: Env, hash: TopicHash)
    requires Safe(p, hash)
    ensures Safe(Restart(p, env), hash) && Restart(p, env).life == p.life
    ensures Restart(p, env).acq.pageKey == p.acq.pageKey && Restart(p, env).acq.lastVideoId == p.acq.lastVideoId
  {
    var begun := p.(acq := p.acq.(activeCaption := None, revision := p.acq.revision + 1));
    ClearSourceClears(begun, env);
    ClearedSafe(p, Restart(p, env), hash);
  }

  lemma {:induction false} GenerationResetClears(p: PageState, env: Env)
    ensures Cleared(p, GenerationReset(p, env))
    ensures GenerationReset(p, env).acq.pageKey == p.acq.pageKey && GenerationReset(p, env).acq.topic == p.acq.topic
  {
    var caption := CaptionOf(p.life, env);
    var a, b := Emission(ForgetCaption, env.currentVideoId, caption),
        Emission(ClearStream(p.acq.sequence + 1), env.currentVideoId, caption);
    assert GenerationReset(p, env).log == p.log + [a] + [b];
  }

  lemma {:induction false} GenerationResetSafe(p: PageState, env: Env, hash: TopicHash)
    requires Safe(p, hash)
    ensures Safe(GenerationReset(p, env), hash) && GenerationReset(p, env).life == p.life
  {
    GenerationResetClears(p, env);
    ClearedSafe(p, GenerationReset(p, env), hash);
  }

  lemma {:induction false} ResetPageSafe(p: PageState, env: Env, hash: TopicHash)
    requires Safe(p, hash)
    ensures Safe(ResetPage(p, env), hash) && ResetPage(p, env).life == p.life
    ensures ResetPage(p, env).acq.pageKey == p.life.pageKey
  {
    GenerationResetClears(p, env);
    ClearedSafe(p, ResetPage(p, env), hash);
  }

  // ---- One capture ----------------------------------------------------------------------------

  /** Fields that no safety property reads may change freely. */
  lemma {:induction false} SameSafety(p: PageState, p': PageState, hash: TopicHash)
    requires Safe(p, hash)
    requires p'.life == p.life && p'.pending == p.pending && p'.log == p.log
    requires p'.acq.sequence == p.acq.sequence && p'.acq.pageKey == p.acq.pageKey && p'.acq.topic == p.acq.topic
    requires PromiseForVideo(p')
    ensures Safe(p', hash)
  {
    forall i | 0 <= i < |p'.pending|
      ensures Awaiting(p', p'.pending[i])
    {
      assert Awaiting(p, p.pending[i]);
    }
  }

  lemma {:induction false} SettleSafe(p: PageState, env: Env, hash: TopicHash)
    requires Safe(p, hash)
    ensures Safe(Settle(p, env), hash) && Settle(p, env).life == p.life
    ensures Settle(p, env).acq.pageKey == p.life.pageKey
  {
    var p1 := if p.acq.pageKey != p.life.pageKey then ResetPage(p, env) else p;
    ResetPageSafe(p, env, hash);
    var p2 := p1.(acq := p1.acq.(activePlayer := env.player));
    SameSafety(p1, p2, hash);
    RestartSafe(p2, env, hash);
  }

  lemma {:induction false} WithoutCaptionSafe(p: PageState, env: Env, hash: TopicHash)
    requires Safe(p, hash)
    ensures Safe(WithoutCaption(p, env), hash)
  {
    RestartSafe(p, env, hash);
    if TransientGap(p.life, env) {
      SameSafety(p, WithoutCaption(p, env), hash);
    }
  }

  /** What a capture keeps while it prepares: page key in step, no stale promise. */
  ghost predicate Prepared(p: PageState, p': PageState, hash: TopicHash) {
    Safe(p', hash) && p'.life == p.life && p'.acq.pageKey == p.acq.pageKey
  }

  lemma {:induction false} ResumeSafe(p: PageState, video: string, env: Env, hash: TopicHash)
    requires Safe(p, hash)
    ensures Prepared(p, Resume(p, video, env), hash) && Resume(p, video, env).acq.lastVideoId == Some(video)
  {
    RestartSafe(p, env, hash);
    var p1 := if p.acq.missingAt.Some? && env.now - p.acq.missingAt.value > MAX_GAP_MS then Restart(p, env) else p;
    var p2 := p1.(acq := p1.acq.(missingAt := None));
    SameSafety(p1, p2, hash);
    if p2.acq.lastVideoId != Some(video) {
      NewVideoSafe(p2, video, env, hash);
    }
  }

  /** Another video drops the promise of the last one before anything can share it. */
  lemma {:induction false} NewVideoSafe(p: PageState, video: string, env: Env, hash: TopicHash)
    requires Safe(p, hash)
    ensures var p' := Restart(p.(acq := p.acq.(lastVideoId := Some(video))), env);
            Prepared(p, p', hash) && p'.acq.lastVideoId == Some(video)
  {
    var begun := p.(acq := p.acq.(lastVideoId := Some(video), activeCaption := None, revision := p.acq.revision + 1));
    ClearSourceClears(begun, env);
    var p' := Restart(p.(acq := p.acq.(lastVideoId := Some(video))), env);
    assert p' == ClearSource(begun, env);
    ClearedSafe(p, p', hash);
  }

  lemma {:induction false} NoteTrackSafe(p: PageState, video: string, caption: Text, env: Env, hash: TopicHash)
    requires Safe(p, hash)
    ensures Prepared(p, NoteTrack(p, video, caption, env), hash)
    ensures NoteTrack(p, video, caption, env).acq.lastVideoId == p.acq.lastVideoId
  {
    RestartSafe(p, env, hash);
    var r := NoteTrack(p, video, caption, env);
    if r.acq.sequence == p.acq.sequence {
      SameSafety(p, r, hash);
    } else {
      SameSafety(Restart(p, env), r, hash);
    }
  }

  /** Taking the next number and the snapshot outdates earlier attempts and readies this one. */
  lemma {:induction false} SnappedSafe(p: PageState, key: CaptionKey, source: Source, env: Env, hash: TopicHash)
    requires Safe(p, hash)
    ensures var q := TakeSnapshot(p, key, source, env);
            && Safe(q, hash) && Below(q.log, q.acq.sequence)
            && LatestCaption(q.log) == Some(source.caption) && LatestCapture(q.log) == |q.log|
  {
    var x := Emission(Snap(source, env.meta), env.currentVideoId, CaptionOf(p.life, env));
    var q := TakeSnapshot(p, key, source, env);
    assert q.log == p.log + [x];
    GoodLogGrows(p.log, x, hash);
    BelowGrows(p.log, x, p.acq.sequence + 1);
    LatestAfter(p.log, x);
    forall i | 0 <= i < |q.pending|
      ensures Awaiting(q, q.pending[i])
    {
      assert Awaiting(p, p.pending[i]);
    }
  }

  /** No other capture awaits under the number of this attempt. */
  ghost predicate NumberFree(p: PageState, t: Attempt) {
    forall i | 0 <= i < |p.pending| :: p.pending[i].attempt.sequence != t.sequence
  }

  /** Delivering submits only what is still true of the page. */
  lemma {:induction false} DeliverSafe(p: PageState, t: Attempt, env: Env, hash: TopicHash)
    requires Safe(p, hash) && Deliverable(p, t) && NumberFree(p, t)
    ensures Safe(Deliver(p, t, env), hash)
  {
    if p.acq.topic.Some? && AcceptResult(p, t, env) {
      var x := Emission(SubmitLatest(t.sequence, p.acq.topic.value, p.acq.trackKey), env.currentVideoId,
          CaptionOf(p.life, env));
      var q := Deliver(p, t, env);
      assert q.log == p.log + [x];
      assert (p.log + [x])[..|p.log|] == p.log;
      GoodLogGrows(p.log, x, hash);
      BelowGrows(p.log, x, p.acq.sequence + 1);
      forall i | 0 <= i < |q.pending|
        ensures Awaiting(q, q.pending[i])
      {
        assert Awaiting(p, p.pending[i]);
      }
    }
  }

  lemma {:induction false} AwaitSafe(p: PageState, t: Attempt, hash: TopicHash)
    requires Safe(p, hash) && Deliverable(p, t) && NumberFree(p, t) && p.acq.lastVideoId == Some(t.video)
    ensures Safe(Await(p, t), hash)
  {
    var q := Await(p, t);
    forall i | 0 <= i < |q.pending|
      ensures Awaiting(q, q.pending[i])
    {
      if i < |p.pending| {
        assert Awaiting(p, p.pending[i]);
      }
    }
  }

  lemma {:induction false} ProceedSafe(p: PageState, t: Attempt, env: Env, hash: TopicHash)
    requires Safe(p, hash) && Deliverable(p, t) && NumberFree(p, t) && p.acq.lastVideoId == Some(t.video)
    ensures Safe(Proceed(p, t, env), hash)
  {
    if p.acq.topic.Some? {
      DeliverSafe(p, t, env, hash);
    } else {
      AwaitSafe(p, t, hash);
    }
  }

  lemma {:induction false} AcquireSafe(p: PageState, video: string, source: Source, env: Env, hash: TopicHash)
    requires Safe(p, hash) && p.acq.pageKey == p.life.pageKey && p.acq.lastVideoId == Some(video)
    ensures Safe(Acquire(p, video, source, env), hash)
  {
    var key := CaptionKey(video, p.acq.revision, source.caption);
    if p.acq.activeCaption != Some(key) {
      if |source.caption| > MAX_CAPTION_LENGTH {
        OversizedSafe(p, env, hash);
      } else {
        var q := TakeSnapshot(p, key, source, env);
        SnappedSafe(p, key, source, env, hash);
        AttemptFresh(p, q, AttemptFor(q, key, env));
        ProceedSafe(q, AttemptFor(q, key, env), env, hash);
      }
    }
  }

  lemma {:induction false} AttemptFresh(p: PageState, q: PageState, t: Attempt)
    requires AllAwaiting(p) && q.pending == p.pending && t.sequence > p.acq.sequence
    ensures NumberFree(q, t)
  {
    forall i | 0 <= i < |q.pending|
      ensures q.pending[i].attempt.sequence != t.sequence
    {
      assert Awaiting(p, p.pending[i]);
    }
  }

  /** An oversized caption takes a number and then clears under the one after it. */
  lemma {:induction false} OversizedSafe(p: PageState, env: Env, hash: TopicHash)
    requires Safe(p, hash)
    ensures Safe(ClearSource(p.(acq := p.acq.(activeCaption := None, sequence := p.acq.sequence + 1)), env), hash)
  {
    var begun := p.(acq := p.acq.(activeCaption := None, sequence := p.acq.sequence + 1));
    forall i | 0 <= i < |begun.pending|
      ensures Awaiting(begun, begun.pending[i])
    {
      assert Awaiting(p, p.pending[i]);
    }
    ClearSourceClears(begun, env);
    ClearedSafe(begun, ClearSource(begun, env), hash);
  }

  lemma {:induction false} CaptureNowSafe(p: PageState, env: Env, hash: TopicHash)
    requires Safe(p, hash)
    ensures Safe(CaptureNow(p, env), hash)
  {
    var settled := Settle(p, env);
    SettleSafe(p, env, hash);
    var source := ReadSource(settled.life, env);
    if !env.hasVideo || settled.life.videoId.None? || source.None? || source.value.caption == [] {
      WithoutCaptionSafe(settled, env, hash);
    } else {
      var video := settled.life.videoId.value;
      ResumeSafe(settled, video, env, hash);
      var resumed := Resume(settled, video, env);
      NoteTrackSafe(resumed, video, source.value.caption, env, hash);
      AcquireSafe(NoteTrack(resumed, video, source.value.caption, env), video, source.value, env, hash);
    }
  }

  // ---- Lifecycle and hashes -------------------------------------------------------------------

  /** A handler either leaves page and video alone, or starts a new generation. */
  lemma {:induction false} ReactKeepsSafety(p: PageState, l: Lifecycle, hash: TopicHash)
    requires Safe(p, hash)
    requires l.issued >= p.life.issued && l.pageKey <= l.issued && l.generation >= p.life.generation
    requires || (l.pageKey == p.life.pageKey && l.videoId == p.life.videoId && (l.navigating ==> p.life.navigating))
             || (l.pageKey == p.life.pageKey && p.life.navigating && !l.navigating && l.generation > p.life.generation)
             || (l.pageKey > p.life.issued && l.generation > p.life.generation)
    ensures Safe(p.(life := l), hash)
  {
    var q := p.(life := l);
    forall i | 0 <= i < |q.pending|
      ensures Awaiting(q, q.pending[i])
    {
      assert Awaiting(p, p.pending[i]);
    }
  }

  lemma {:induction false} CaptureLiveSafe(p: PageState, env: Env, hash: TopicHash)
    requires Safe(p, hash)
    ensures Safe(CaptureLive(p, env), hash)
  {
    if p.life.videoId != env.currentVideoId {
      var moved := p.(life := ResetForLocation(p.life, env));
      ReactKeepsSafety(p, moved.life, hash);
      GenerationResetSafe(moved, env, hash);
      CaptureNowSafe(GenerationReset(moved, env), env, hash);
    } else {
      CaptureNowSafe(p, env, hash);
    }
  }

  lemma {:induction false} LifeStepSafe(p: PageState, ev: LifeEvent, env: Env, hash: TopicHash)
    requires Safe(p, hash)
    ensures Safe(LifeStep(p, ev, env), hash)
  {
    var r := React(p.life, ev, env);
    ReactKeepsSafety(p, r.life, hash);
    var moved := p.(life := r.life);
    GenerationResetSafe(moved, env, hash);
    CaptureLiveSafe(if r.invalidates then GenerationReset(moved, env) else moved, env, hash);
  }

  /** Taking a capture out of the waiting list frees its number. */
  lemma {:induction false} ResumedSafe(p: PageState, i: nat, hash: TopicHash)
    requires Safe(p, hash) && i < |p.pending|
    ensures var rest := p.(pending := p.pending[..i] + p.pending[i + 1..]);
            Safe(rest, hash) && Deliverable(rest, p.pending[i].attempt) && NumberFree(rest, p.pending[i].attempt)
  {
    var rest := p.(pending := p.pending[..i] + p.pending[i + 1..]);
    forall j | 0 <= j < |rest.pending|
      ensures Awaiting(rest, rest.pending[j]) && rest.pending[j].attempt.sequence != p.pending[i].attempt.sequence
    {
      var k := if j < i then j else j + 1;
      assert rest.pending[j] == p.pending[k];
      assert Awaiting(p, p.pending[k]);
    }
    assert Awaiting(p, p.pending[i]);
    forall j, k | 0 <= j < k < |rest.pending|
      ensures rest.pending[j].attempt.sequence != rest.pending[k].attempt.sequence
    {
      assert rest.pending[j] == p.pending[if j < i then j else j + 1];
      assert rest.pending[k] == p.pending[if k < i then k else k + 1];
    }
  }

  /** A topic is stored only for the video it was hashed from, while that video is current. */
  lemma {:induction false} TopicStored(p: PageState, w: Pending, env: Env, hash: TopicHash)
    requires Safe(p, hash) && Deliverable(p, w.attempt) && NumberFree(p, w.attempt)
    requires w.promise.video == w.attempt.video
    requires AcceptResult(p, w.attempt, env)
    ensures var q := p.(acq := p.acq.(topic := Some(TopicOf(w.promise.video, hash))));
            Safe(q, hash) && Deliverable(q, w.attempt) && NumberFree(q, w.attempt)
  {
    var q := p.(acq := p.acq.(topic := Some(TopicOf(w.promise.video, hash))));
    forall i | 0 <= i < |q.pending|
      ensures Awaiting(q, q.pending[i])
    {
      assert Awaiting(p, p.pending[i]);
    }
  }

  lemma {:induction false} SettledSafe(p: PageState, i: nat, ok: bool, env: Env, hash: TopicHash)
    requires Safe(p, hash) && i < |p.pending|
    ensures Safe(Settled(p, i, ok, hash, env), hash)
  {
    var w := p.pending[i];
    var rest := p.(pending := p.pending[..i] + p.pending[i + 1..]);
    assert Awaiting(p, w);
    ResumedSafe(p, i, hash);
    if ok {
      if AcceptResult(rest, w.attempt, env) {
        TopicStored(rest, w, env, hash);
        DeliverSafe(rest.(acq := rest.acq.(topic := Some(TopicOf(w.promise.video, hash)))), w.attempt, env, hash);
      }
    } else {
      SameSafety(rest, Settled(p, i, ok, hash, env), hash);
    }
  }

  lemma {:induction false} PageStepSafe(p: PageState, e: PageEvent, hash: TopicHash)
    requires Safe(p, hash)
    ensures Safe(PageStep(p, e, hash), hash)
  {
    match e
    case Life(ev, env) => LifeStepSafe(p, ev, env, hash);
    case HashSettles(i, ok, env) =>
      if i < |p.pending| {
        SettledSafe(p, i, ok, env, hash);
      }
  }

  lemma {:induction false} PageRunSafe(videoId: Option<string>, es: seq<PageEvent>, hash: TopicHash)
    ensures Safe(PageRun(NewPage(videoId), es, hash), hash)
  {
    if es == [] {
    } else {
      PageRunSafe(videoId, es[..|es| - 1], hash);
      PageStepSafe(PageRun(NewPage(videoId), es[..|es| - 1], hash), es[|es| - 1], hash);
    }
  }

  /**
   * In every run of page events and hash results, in any order: each submit carries the topic of the
   * video the page shows at that moment and the caption then on screen, and the sequence numbers
   * handed to the stream strictly increase.
   */
  lemma {:induction false} TopicsBelongToTheirVideo(videoId: Option<string>, es: seq<PageEvent>, hash: TopicHash)
    ensures var log := PageRun(NewPage(videoId), es, hash).log;
            && Increasing(log)
            && forall i | 0 <= i < |log| && log[i].op.SubmitLatest? ::
                 && log[i].video.Some? && log[i].op.topic == TopicOf(log[i].video.value, hash)
                 && log[i].caption.Some? && LatestCaption(log[..i]) == log[i].caption
  {
    PageRunSafe(videoId, es, hash);
    var log := PageRun(NewPage(videoId), es, hash).log;
    forall i | 0 <= i < |log| && log[i].op.SubmitLatest?
      ensures log[i].video.Some? && log[i].op.topic == TopicOf(log[i].video.value, hash)
      ensures log[i].caption.Some? && LatestCaption(log[..i]) == log[i].caption
    {
      assert Truthful(log, i, hash);
    }
  }
}
