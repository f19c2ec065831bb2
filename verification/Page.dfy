/** Page identity and caption acquisition across asynchronous topic hashing (page-lifecycle.ts, caption-capture.ts). */
module Page {
  import opened Wrappers
  import opened Utf16
  import opened Protocol
  import opened CaptionSnapshot
  import opened CaptionRun

  /** The page as one synchronous callback sees it: document, player, caption on screen, clock. */
  datatype Env = Env(
    currentVideoId: Option<string>,
    hidden: bool,
    player: Option<nat>,
    overlayPresent: bool,
    hasVideo: bool,
    ended: bool,
    adShowing: bool,
    source: Option<Source>,
    nativeVisible: bool,
    now: int,
    track: Option<string>,
    identity: string,
    meta: Metadata
  )

  /** The fields of the lifecycle; issued counts the page keys created, so each key is fresh. */
  datatype Lifecycle = Lifecycle(
    issued: nat,
    pageKey: nat,
    videoId: Option<string>,
    generation: nat,
    enabled: bool,
    navigating: bool,
    seeking: bool,
    stopped: bool,
    disposed: bool
  )

  datatype LifeEvent =
    | NavigateStart | NavigateEnd | PopState | Visibility | PageHide | PageShow
    | SeekingStart | SeekingEnd | StopSource | ResumeSource | Tick
    | SetEnabled(pageKey: nat, value: bool) | Refresh | Dispose

  /** What a lifecycle handler does: the new fields, then the two callbacks it makes. */
  datatype Reaction = Reaction(life: Lifecycle, invalidates: bool, captures: bool)

  function ResetForLocation(l: Lifecycle, env: Env): Lifecycle {
    l.(generation := l.generation + 1, enabled := true, seeking := false, stopped := false,
       issued := l.issued + 1, pageKey := l.issued + 1, videoId := env.currentVideoId)
  }

  function React(l: Lifecycle, ev: LifeEvent, env: Env): Reaction {
    match ev
    case NavigateStart =>
      if l.navigating then Reaction(l, false, false)
      else Reaction(ResetForLocation(l.(navigating := true), env), true, false)
    case NavigateEnd =>
      if l.navigating && env.currentVideoId != l.videoId
      then Reaction(l.(videoId := env.currentVideoId, generation := l.generation + 1, navigating := false), true, true)
      else Reaction(l.(navigating := false), false, true)
    case PopState =>
      if l.navigating then Reaction(l, false, false) else Reaction(ResetForLocation(l, env), true, true)
    case Visibility =>
      if env.hidden then Reaction(l.(generation := l.generation + 1), true, false) else Reaction(l, false, true)
    case PageHide => Reaction(l.(stopped := true, generation := l.generation + 1), true, false)
    case PageShow => Reaction(l.(stopped := false, generation := l.generation + 1), true, true)
    case SeekingStart => Reaction(l.(seeking := true, generation := l.generation + 1), true, false)
    case SeekingEnd => Reaction(l.(seeking := false, stopped := false), false, true)
    case StopSource => Reaction(l.(stopped := true, generation := l.generation + 1), true, false)
    case ResumeSource => Reaction(l.(stopped := false), false, true)
    case Tick => Reaction(l, false, true)
    case SetEnabled(key, value) =>
      if l.disposed || key != l.pageKey || l.enabled == value then Reaction(l, false, false)
      else Reaction(l.(enabled := value, generation := l.generation + 1), true, false)
    case Refresh => Reaction(ResetForLocation(l, env), true, false)
    case Dispose =>
      if l.disposed then Reaction(l, false, false)
      else Reaction(l.(disposed := true, stopped := true, enabled := false, generation := l.generation + 1), true,
          false)
  }

  predicate IsCurrent(l: Lifecycle, generation: nat, videoId: Option<string>, env: Env) {
    && !l.disposed && l.generation == generation && l.videoId == videoId && videoId == env.currentVideoId
    && l.enabled && !l.navigating && !l.seeking && !l.stopped && !env.hidden && env.player.Some?
  }

  // ---- Acquisition ----------------------------------------------------------------------------

  /** One call of the hash, for the topic of one video. */
  datatype Promise = Promise(number: nat, video: string)

  datatype CaptionKey = CaptionKey(video: string, revision: nat, caption: Text)

  datatype Acquisition = Acquisition(
    trackKey: Option<string>,
    lastKnownTrack: Option<string>,
    nativeIdentity: string,
    topic: Option<string>,
    topicPromise: Option<Promise>,
    missingAt: Option<int>,
    lastVideoId: Option<string>,
    pageKey: nat,
    activePlayer: Option<nat>,
    activeCaption: Option<CaptionKey>,
    sequence: nat,
    revision: nat
  )

  /**
   * What a capture remembers: everything its acceptance will compare, across the await or not, and its snapshot, by
   * the length of the log once it was captured.
   */
  datatype Attempt = Attempt(generation: nat, sequence: nat, video: string, revision: nat, caption: Text,
                             identity: string, track: Option<string>, taken: nat)

  datatype Pending = Pending(promise: Promise, attempt: Attempt)

  /** An operation given to tracker or stream, with the video and caption of the page at that moment. */
  datatype Emission = Emission(op: Op, video: Option<string>, caption: Option<Text>)

  datatype PageState = PageState(life: Lifecycle, acq: Acquisition, pending: seq<Pending>, promises: nat,
      log: seq<Emission>)

  /** The hash function of topics. */
  type TopicHash = string -> string

  function TopicOf(video: string, hash: TopicHash): string {
    hash("youtube\0" + video)
  }

  /** The caption that can be read now, if the page is in a state to show one. */
  function ReadSource(l: Lifecycle, env: Env): Option<Source> {
    if !l.enabled || env.player.None? || !env.hasVideo || env.ended || l.stopped || env.hidden || l.seeking
        || l.navigating || env.adShowing
    then None else env.source
  }

  function CaptionOf(l: Lifecycle, env: Env): Option<Text> {
    var source := ReadSource(l, env);
    if source.Some? then Some(source.value.caption) else None
  }

  function Emit(p: PageState, op: Op, env: Env): PageState {
    p.(log := p.log + [Emission(op, env.currentVideoId, CaptionOf(p.life, env))])
  }

  function EmitClear(p: PageState, env: Env): PageState {
    var next := p.(acq := p.acq.(sequence := p.acq.sequence + 1));
    Emit(next, ClearStream(next.acq.sequence), env)
  }

  function ClearSource(p: PageState, env: Env): PageState {
    var begun := Emit(p.(acq := p.acq.(missingAt := None, topicPromise := None)), ForgetCaption, env);
    EmitClear(begun, env)
  }

  /** The caption line changed under us: forget its key, count a new revision, clear. */
  function Restart(p: PageState, env: Env): PageState {
    ClearSource(p.(acq := p.acq.(activeCaption := None, revision := p.acq.revision + 1)), env)
  }

  function GenerationReset(p: PageState, env: Env): PageState {
    var a := p.acq.(missingAt := None, topicPromise := None, activeCaption := None, activePlayer := None,
        revision := p.acq.revision + 1);
    EmitClear(Emit(p.(acq := a), ForgetCaption, env), env)
  }

  function ResetPage(p: PageState, env: Env): PageState {
    var r := GenerationReset(p, env);
    r.(acq := r.acq.(pageKey := r.life.pageKey, topic := None, topicPromise := None, trackKey := None,
        lastKnownTrack := None, nativeIdentity := "", lastVideoId := None))
  }

  predicate Live(p: PageState, t: Attempt, env: Env) {
    && p.life.videoId == Some(t.video) && p.acq.revision == t.revision
    && p.acq.activeCaption == Some(CaptionKey(t.video, t.revision, t.caption))
    && CaptionOf(p.life, env) == Some(t.caption)
    && !(t.track.Some? && env.track.Some? && t.track != env.track)
    && !(t.identity != "" && env.identity != "" && t.identity != env.identity)
  }

  predicate AcceptResult(p: PageState, t: Attempt, env: Env) {
    && t.sequence == p.acq.sequence && t.revision == p.acq.revision
    && IsCurrent(p.life, t.generation, Some(t.video), env)
    && Live(p, t, env)
  }

  /** The end of a capture whose topic is known. */
  function Deliver(p: PageState, t: Attempt, env: Env): PageState {
    if p.acq.topic.None? || !AcceptResult(p, t, env) then p
    else Emit(p, SubmitLatest(t.sequence, p.acq.topic.value, p.acq.trackKey), env)
  }

  /** Page identity and player are brought up to date first. */
  function Settle(p: PageState, env: Env): PageState {
    var p1 := if p.acq.pageKey != p.life.pageKey then ResetPage(p, env) else p;
    if p1.acq.activePlayer != env.player || (env.player.Some? && !env.overlayPresent)
    then Restart(p1.(acq := p1.acq.(activePlayer := env.player)), env) else p1
  }

  predicate TransientGap(l: Lifecycle, env: Env) {
    && ReadSource(l, env).None? && env.player.Some? && env.hasVideo && !env.ended && l.videoId.Some? && l.enabled
        && !env.hidden
    && !l.seeking && !l.navigating && !l.stopped && !env.adShowing && env.nativeVisible
  }

  /** Nothing to read: wait out a short gap, otherwise clear what was being shown. */
  function WithoutCaption(p: PageState, env: Env): PageState {
    if TransientGap(p.life, env) then
      var a := if p.acq.topic.None? then p.acq.(activeCaption := None) else p.acq;
      p.(acq := a.(missingAt := if a.missingAt.None? then Some(env.now) else a.missingAt))
    else if p.acq.activeCaption.Some? then Restart(p, env) else p
  }

  const MAX_GAP_MS: int := 650

  /** A gap that lasted too long, or another video, restarts the caption. */
  function Resume(p: PageState, video: string, env: Env): PageState {
    var p1 := if p.acq.missingAt.Some? && env.now - p.acq.missingAt.value > MAX_GAP_MS then Restart(p, env) else p;
    var p2 := p1.(acq := p1.acq.(missingAt := None));
    if p2.acq.lastVideoId != Some(video) then Restart(p2.(acq := p2.acq.(lastVideoId := Some(video))), env) else p2
  }

  /** Another track, or the same words from another moment, restarts the caption; then the track is noted. */
  function NoteTrack(p: PageState, video: string, caption: Text, env: Env): PageState {
    var sameWords := p.acq.activeCaption == Some(CaptionKey(video, p.acq.revision, caption));
    var p1 := if (env.track.Some? && p.acq.lastKnownTrack.Some? && env.track != p.acq.lastKnownTrack)
                 || (sameWords && p.acq.nativeIdentity != "" && env.identity != ""
                     && p.acq.nativeIdentity != env.identity)
              then Restart(p, env) else p;
    p1.(acq := p1.acq.(lastKnownTrack := if env.track.Some? then env.track else p1.acq.lastKnownTrack,
                       nativeIdentity := if env.identity != "" then env.identity else p1.acq.nativeIdentity,
                       trackKey := env.track))
  }

  function TakeSnapshot(p: PageState, key: CaptionKey, source: Source, env: Env): PageState {
    Emit(p.(acq := p.acq.(activeCaption := Some(key), sequence := p.acq.sequence + 1)), Snap(source, env.meta), env)
  }

  function AttemptFor(p: PageState, key: CaptionKey, env: Env): Attempt {
    Attempt(p.life.generation, p.acq.sequence, key.video, p.acq.revision, key.caption, env.identity, env.track,
        |p.log|)
  }

  /** With a topic at hand the capture ends at once, otherwise it waits for the hash. */
  function Proceed(p: PageState, t: Attempt, env: Env): PageState {
    if p.acq.topic.Some? then Deliver(p, t, env) else Await(p, t)
  }

  /** A caption not captured yet: take a sequence number and a snapshot, then deliver or await the topic. */
  function Acquire(p: PageState, video: string, source: Source, env: Env): PageState {
    var key := CaptionKey(video, p.acq.revision, source.caption);
    if p.acq.activeCaption == Some(key) then p
    else if |source.caption| > MAX_CAPTION_LENGTH
    then ClearSource(p.(acq := p.acq.(activeCaption := None, sequence := p.acq.sequence + 1)), env)
    else
      var snapped := TakeSnapshot(p, key, source, env);
      Proceed(snapped, AttemptFor(snapped, key, env), env)
  }

  /** The hash in progress is shared, otherwise one is started. */
  function Await(p: PageState, t: Attempt): PageState {
    if p.acq.topicPromise.Some? then p.(pending := p.pending + [Pending(p.acq.topicPromise.value, t)])
    else
      var promise := Promise(p.promises, t.video);
      p.(promises := p.promises + 1, acq := p.acq.(topicPromise := Some(promise)),
          pending := p.pending + [Pending(promise, t)])
  }

  function CaptureNow(p: PageState, env: Env): PageState {
    var settled := Settle(p, env);
    var source := ReadSource(settled.life, env);
    if !env.hasVideo || settled.life.videoId.None? || source.None?
        || source.value.caption == [] then WithoutCaption(settled, env)
    else
      var video := settled.life.videoId.value;
      Acquire(NoteTrack(Resume(settled, video, env), video, source.value.caption, env), video, source.value, env)
  }

  /** The capture callback first refreshes a page whose location changed unannounced. */
  function CaptureLive(p: PageState, env: Env): PageState {
    var p1 := if p.life.videoId != env.currentVideoId
        then GenerationReset(p.(life := ResetForLocation(p.life, env)), env) else p;
    CaptureNow(p1, env)
  }

  function LifeStep(p: PageState, ev: LifeEvent, env: Env): PageState {
    var r := React(p.life, ev, env);
    var moved := p.(life := r.life);
    var reset := if r.invalidates then GenerationReset(moved, env) else moved;
    if r.captures then CaptureLive(reset, env) else reset
  }

  /** A hash settles for one of the captures awaiting it. */
  function Settled(p: PageState, i: nat, ok: bool, hash: TopicHash, env: Env): PageState
    requires i < |p.pending|
  {
    var w := p.pending[i];
    var rest := p.(pending := p.pending[..i] + p.pending[i + 1..]);
    if ok then
      if !AcceptResult(rest, w.attempt, env) then rest
      else Deliver(rest.(acq := rest.acq.(topic := Some(TopicOf(w.promise.video, hash)))), w.attempt, env)
    else
      var dropped := if rest.acq.topicPromise == Some(w.promise) then rest.(acq := rest.acq.(topicPromise := None))
          else rest;
      if AcceptResult(dropped, w.attempt, env) then dropped.(acq := dropped.acq.(activeCaption := None)) else dropped
  }

  datatype PageEvent = Life(ev: LifeEvent, env: Env) | HashSettles(index: nat, ok: bool, env: Env)

  function PageStep(p: PageState, e: PageEvent, hash: TopicHash): PageState {
    match e
    case Life(ev, env) => LifeStep(p, ev, env)
    case HashSettles(i, ok, env) => if i < |p.pending| then Settled(p, i, ok, hash, env) else p
  }

  function PageRun(p: PageState, es: seq<PageEvent>, hash: TopicHash): PageState {
    if es == [] then p else PageStep(PageRun(p, es[..|es| - 1], hash), es[|es| - 1], hash)
  }

  function NewPage(videoId: Option<string>): PageState {
    PageState(Lifecycle(1, 1, videoId, 0, true, false, false, false, false),
              Acquisition(None, None, "", None, None, None, None, 1, None, None, 0, 0), [], 0, [])
  }
}
