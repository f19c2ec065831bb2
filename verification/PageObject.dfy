/** The two page objects: lifecycle handlers and the capture that reads them, fields updated in place. */
module PageObject {
  import opened Wrappers
  import opened Utf16
  import opened Protocol
  import opened CaptionSnapshot
  import opened CaptionRun
  import opened Page

  /** Owner of page identity; each handler reports which of its two callbacks it makes. */
  class PageLifecycle {
    var issued: nat
    var pageKey: nat
    var videoId: Option<string>
    var generation: nat
    var enabled: bool
    var navigating: bool
    var seeking: bool
    var stopped: bool
    var disposed: bool

    function State(): Lifecycle
      reads this
    {
      Lifecycle(issued, pageKey, videoId, generation, enabled, navigating, seeking, stopped, disposed)
    }

    constructor (videoId: Option<string>)
      ensures State() == NewPage(videoId).life
    {
      issued, pageKey, generation := 1, 1, 0;
      this.videoId := videoId;
      enabled, navigating, seeking, stopped, disposed := true, false, false, false, false;
    }

    method MoveToLocation(env: Env)
      modifies this
      ensures State() == ResetForLocation(old(State()), env)
    {
      generation := generation + 1;
      enabled, seeking, stopped := true, false, false;
      issued := issued + 1;
      pageKey, videoId := issued, env.currentVideoId;
    }

    method OnNavigateStart(env: Env) returns (invalidates: bool)
      modifies this
      ensures Reaction(State(), invalidates, false) == React(old(State()), NavigateStart, env)
    {
      if navigating {
        return false;
      }
      navigating := true;
      MoveToLocation(env);
      return true;
    }

    method OnNavigateEnd(env: Env) returns (invalidates: bool)
      modifies this
      ensures Reaction(State(), invalidates, true) == React(old(State()), NavigateEnd, env)
    {
      invalidates := false;
      if navigating && env.currentVideoId != videoId {
        videoId := env.currentVideoId;
        generation := generation + 1;
        invalidates := true;
      }
      navigating := false;
    }

    method OnPopState(env: Env) returns (moved: bool)
      modifies this
      ensures Reaction(State(), moved, moved) == React(old(State()), PopState, env)
    {
      if navigating {
        return false;
      }
      MoveToLocation(env);
      return true;
    }

    method OnVisibility(env: Env) returns (invalidates: bool)
      modifies this
      ensures Reaction(State(), invalidates, !invalidates) == React(old(State()), Visibility, env)
    {
      if env.hidden {
        generation := generation + 1;
      }
      return env.hidden;
    }

    /** pagehide, emptied and ended. */
    method OnStop(env: Env)
      modifies this`stopped, this`generation
      ensures Reaction(State(), true, false) == React(old(State()), StopSource, env)
              == React(old(State()), PageHide, env)
    {
      stopped, generation := true, generation + 1;
    }

    method OnPageShow(env: Env)
      modifies this`stopped, this`generation
      ensures Reaction(State(), true, true) == React(old(State()), PageShow, env)
    {
      stopped, generation := false, generation + 1;
    }

    method OnSeekingStart(env: Env)
      modifies this`seeking, this`generation
      ensures Reaction(State(), true, false) == React(old(State()), SeekingStart, env)
    {
      seeking, generation := true, generation + 1;
    }

    method OnSeekingEnd(env: Env)
      modifies this`seeking, this`stopped
      ensures Reaction(State(), false, true) == React(old(State()), SeekingEnd, env)
    {
      seeking, stopped := false, false;
    }

    method OnResume(env: Env)
      modifies this`stopped
      ensures Reaction(State(), false, true) == React(old(State()), ResumeSource, env)
    {
      stopped := false;
    }

    method OnSetEnabled(expectedPageKey: nat, value: bool, env: Env) returns (invalidates: bool)
      modifies this`enabled, this`generation
      ensures Reaction(State(), invalidates, false) == React(old(State()), SetEnabled(expectedPageKey, value), env)
    {
      if disposed || expectedPageKey != pageKey || enabled == value {
        return false;
      }
      enabled, generation := value, generation + 1;
      return true;
    }

    method OnRefresh(env: Env)
      modifies this
      ensures Reaction(State(), true, false) == React(old(State()), Refresh, env)
    {
      MoveToLocation(env);
    }

    method OnDispose(env: Env) returns (invalidates: bool)
      modifies this
      ensures Reaction(State(), invalidates, false) == React(old(State()), Dispose, env)
    {
      if disposed {
        return false;
      }
      disposed, stopped, enabled, generation := true, true, false, generation + 1;
      return true;
    }

    /** Any event through its handler, and which of the two callbacks that handler makes. */
    method OnEvent(ev: LifeEvent, env: Env) returns (invalidates: bool, captures: bool)
      modifies this
      ensures Reaction(State(), invalidates, captures) == React(old(State()), ev, env)
    {
      invalidates, captures := true, false;
      match ev {
        case NavigateStart => invalidates := OnNavigateStart(env);
        case NavigateEnd =>
          invalidates := OnNavigateEnd(env);
          captures := true;
        case PopState =>
          invalidates := OnPopState(env);
          captures := invalidates;
        case Visibility =>
          invalidates := OnVisibility(env);
          captures := !invalidates;
        case PageHide => OnStop(env);
        case PageShow =>
          OnPageShow(env);
          captures := true;
        case SeekingStart => OnSeekingStart(env);
        case SeekingEnd =>
          OnSeekingEnd(env);
          invalidates, captures := false, true;
        case StopSource => OnStop(env);
        case ResumeSource =>
          OnResume(env);
          invalidates, captures := false, true;
        case Tick => invalidates, captures := false, true;
        case SetEnabled(key, value) => invalidates := OnSetEnabled(key, value, env);
        case Refresh => OnRefresh(env);
        case Dispose => invalidates := OnDispose(env);
      }
    }

    predicate IsCurrentNow(expectedGeneration: nat, expectedVideoId: Option<string>, env: Env)
      reads this
    {
      && !disposed && generation == expectedGeneration && videoId == expectedVideoId && videoId == env.currentVideoId
      && enabled && !navigating && !seeking && !stopped && !env.hidden && env.player.Some?
    }
  }

  /** Owner of acquisition; everything it hands to tracker and stream goes to the log. */
  class CaptionCapture {
    const lifecycle: PageLifecycle
    const hash: TopicHash
    var acq: Acquisition
    var pending: seq<Pending>
    var promises: nat
    var log: seq<Emission>

    function State(): PageState
      reads this, lifecycle
    {
      PageState(lifecycle.State(), acq, pending, promises, log)
    }

    constructor (lifecycle: PageLifecycle, hash: TopicHash)
      ensures this.lifecycle == lifecycle && this.hash == hash
      ensures State() == PageState(lifecycle.State(), NewPage(None).acq.(pageKey := lifecycle.pageKey), [], 0, [])
    {
      this.lifecycle, this.hash := lifecycle, hash;
      acq := Acquisition(None, None, "", None, None, None, None, lifecycle.pageKey, None, None, 0, 0);
      pending, promises, log := [], 0, [];
    }

    method EmitOp(op: Op, env: Env)
      modifies this`log
      ensures State() == Emit(old(State()), op, env)
    {
      log := log + [Emission(op, env.currentVideoId, CaptionOf(lifecycle.State(), env))];
    }

    method ClearNext(env: Env)
      modifies this`acq, this`log
      ensures State() == EmitClear(old(State()), env)
    {
      acq := acq.(sequence := acq.sequence + 1);
      EmitOp(ClearStream(acq.sequence), env);
    }

    method DropSource(env: Env)
      modifies this`acq, this`log
      ensures State() == ClearSource(old(State()), env)
    {
      acq := acq.(missingAt := None, topicPromise := None);
      EmitOp(ForgetCaption, env);
      ClearNext(env);
    }

    method RestartCaption(env: Env)
      modifies this`acq, this`log
      ensures State() == Restart(old(State()), env)
    {
      acq := acq.(activeCaption := None, revision := acq.revision + 1);
      DropSource(env);
    }

    /** What the lifecycle's invalidate callback runs. */
    method Invalidate(env: Env)
      modifies this`acq, this`log
      ensures State() == GenerationReset(old(State()), env)
    {
      acq := acq.(missingAt := None, topicPromise := None, activeCaption := None, activePlayer := None,
          revision := acq.revision + 1);
      EmitOp(ForgetCaption, env);
      ClearNext(env);
    }

    method ResetForPage(env: Env)
      modifies this`acq, this`log
      ensures State() == ResetPage(old(State()), env)
    {
      Invalidate(env);
      acq := acq.(pageKey := lifecycle.pageKey, topic := None, topicPromise := None, trackKey := None,
          lastKnownTrack := None, nativeIdentity := "", lastVideoId := None);
    }

    method SettlePage(env: Env)
      modifies this`acq, this`log
      ensures State() == Settle(old(State()), env)
    {
      if acq.pageKey != lifecycle.pageKey {
        ResetForPage(env);
      }
      if acq.activePlayer != env.player || (env.player.Some? && !env.overlayPresent) {
        acq := acq.(activePlayer := env.player);
        RestartCaption(env);
      }
    }

    method MissCaption(env: Env)
      modifies this`acq, this`log
      ensures State() == WithoutCaption(old(State()), env)
    {
      if TransientGap(lifecycle.State(), env) {
        if acq.topic.None? {
          acq := acq.(activeCaption := None);
        }
        if acq.missingAt.None? {
          acq := acq.(missingAt := Some(env.now));
        }
      } else if acq.activeCaption.Some? {
        RestartCaption(env);
      }
    }

    method ResumeCaption(video: string, env: Env)
      modifies this`acq, this`log
      ensures State() == Resume(old(State()), video, env)
    {
      if acq.missingAt.Some? && env.now - acq.missingAt.value > MAX_GAP_MS {
        RestartCaption(env);
      }
      acq := acq.(missingAt := None);
      if acq.lastVideoId != Some(video) {
        acq := acq.(lastVideoId := Some(video));
        RestartCaption(env);
      }
    }

    method NoteNativeTrack(video: string, caption: Text, env: Env)
      modifies this`acq, this`log
      ensures State() == NoteTrack(old(State()), video, caption, env)
    {
      var sameWords := acq.activeCaption == Some(CaptionKey(video, acq.revision, caption));
      if (env.track.Some? && acq.lastKnownTrack.Some? && env.track != acq.lastKnownTrack)
         || (sameWords && acq.nativeIdentity != "" && env.identity != "" && acq.nativeIdentity != env.identity) {
        RestartCaption(env);
      }
      if env.track.Some? {
        acq := acq.(lastKnownTrack := env.track);
      }
      if env.identity != "" {
        acq := acq.(nativeIdentity := env.identity);
      }
      acq := acq.(trackKey := env.track);
    }

    method AcceptsResult(t: Attempt, env: Env) returns (ok: bool)
      ensures ok == AcceptResult(State(), t, env)
    {
      ok := t.sequence == acq.sequence && t.revision == acq.revision
            && lifecycle.IsCurrentNow(t.generation, Some(t.video), env) && Live(State(), t, env);
    }

    method DeliverAttempt(t: Attempt, env: Env)
      requires acq.topic.Some?
      modifies this`log
      ensures State() == Deliver(old(State()), t, env)
    {
      var ok := AcceptsResult(t, env);
      if ok {
        EmitOp(SubmitLatest(t.sequence, acq.topic.value, acq.trackKey), env);
      }
    }

    method AwaitTopic(t: Attempt)
      modifies this`acq, this`pending, this`promises
      ensures State() == Await(old(State()), t)
    {
      if acq.topicPromise.None? {
        acq := acq.(topicPromise := Some(Promise(promises, t.video)));
        promises := promises + 1;
      }
      pending := pending + [Pending(acq.topicPromise.value, t)];
    }

    method AcquireCaption(video: string, source: Source, env: Env)
      modifies this
      ensures State() == Acquire(old(State()), video, source, env)
    {
      var key := CaptionKey(video, acq.revision, source.caption);
      if acq.activeCaption == Some(key) {
        return;
      }
      acq := acq.(activeCaption := Some(key), sequence := acq.sequence + 1);
      if |source.caption| > MAX_CAPTION_LENGTH {
        acq := acq.(activeCaption := None);
        DropSource(env);
        return;
      }
      EmitOp(Snap(source, env.meta), env);
      var t := AttemptFor(State(), key, env);
      if acq.topic.Some? {
        DeliverAttempt(t, env);
      } else {
        AwaitTopic(t);
      }
    }

    /** The synchronous part of capture, up to the await or the submit. */
    method Capture(env: Env)
      modifies this
      ensures State() == CaptureNow(old(State()), env)
    {
      SettlePage(env);
      var source := ReadSource(lifecycle.State(), env);
      if !env.hasVideo || lifecycle.videoId.None? || source.None? || source.value.caption == [] {
        MissCaption(env);
        return;
      }
      var video := lifecycle.videoId.value;
      ResumeCaption(video, env);
      NoteNativeTrack(video, source.value.caption, env);
      AcquireCaption(video, source.value, env);
    }

    /** What follows the await, for one of the captures waiting. */
    method HashSettled(i: nat, ok: bool, env: Env)
      requires i < |pending|
      modifies this
      ensures State() == Settled(old(State()), i, ok, hash, env)
    {
      var w := pending[i];
      pending := pending[..i] + pending[i + 1..];
      if !ok && acq.topicPromise == Some(w.promise) {
        acq := acq.(topicPromise := None);
      }
      var accepted := AcceptsResult(w.attempt, env);
      if !accepted {
        return;
      }
      if ok {
        acq := acq.(topic := Some(TopicOf(w.promise.video, hash)));
        DeliverAttempt(w.attempt, env);
      } else {
        acq := acq.(activeCaption := None);
      }
    }

    /** The capture callback: a page whose location changed unannounced is refreshed first. */
    method OnCapture(env: Env)
      modifies this, lifecycle
      ensures State() == CaptureLive(old(State()), env)
    {
      if lifecycle.videoId != env.currentVideoId {
        lifecycle.OnRefresh(env);
        Invalidate(env);
      }
      Capture(env);
    }

    /** The two objects together: whatever happens to the page is one step of the machine the theorems are about. */
    method OnPageEvent(e: PageEvent)
      modifies this, lifecycle
      ensures State() == PageStep(old(State()), e, hash)
    {
      match e {
        case Life(ev, env) =>
          var invalidates, captures := lifecycle.OnEvent(ev, env);
          if invalidates {
            Invalidate(env);
          }
          if captures {
            OnCapture(env);
          }
        case HashSettles(i, ok, env) =>
          if i < |pending| {
            HashSettled(i, ok, env);
          }
      }
    }
  }
}
