/**
 * The execution ledger of one call, and why replaying from it changes nothing (same_run_check_reuse.py,
 * check_plan_runner.py).
 */
module ReuseLedger {
  import opened Wrappers
  import opened Reuse
  import opened ReuseAgreement

  // ---- What the ledger knows ------------------------------------------------------------------

  /** The key of a check that was really executed and passed. */
  ghost predicate Passes(key: Key, behaviour: Behaviour) {
    && behaviour(key).status == PASS && behaviour(key).exit == Exited
    && (key.operation.reuse ==> behaviour(key).toolchainAfter == key.toolchain)
  }

  /** Item j ran under the key, exited, and passed. */
  ghost predicate RanUnder(items: seq<Item>, results: seq<Result>, j: nat, key: Key) {
    && j < |items| && j < |results|
    && KeyOf(items[j]) == key && results[j].status == PASS && results[j].exit == Exited
    && results[j].environment == Some(key.environment) && results[j].toolchain == key.toolchain
  }

  ghost predicate Backs(items: seq<Item>, results: seq<Result>, checkId: string, key: Key, behaviour: Behaviour) {
    && Passes(key, behaviour) && key.operation.id == checkId
    && exists j: nat :: RanUnder(items, results, j, key)
  }

  ghost predicate DistinctIds(items: seq<Item>) {
    forall i, j | 0 <= i < j < |items| :: items[i].check.id != items[j].check.id
  }

  ghost predicate PublishedSound(publications: map<string, Report>) {
    forall id | id in publications ::
      && publications[id].runId == id && publications[id].result == PASS
      && DistinctIds(publications[id].profile.items) && Named(publications[id].profile.items, publications[id].results)
  }

  /** Every entry of a published run is backed by its report. */
  ghost predicate LedgerSound(executions: map<Key, Source>, publications: map<string, Report>, behaviour: Behaviour) {
    forall key | key in executions && executions[key].runId in publications ::
      var report := publications[executions[key].runId];
      Backs(report.profile.items, report.results, executions[key].checkId, key, behaviour)
  }

  /** Entries of the run in progress are backed by its results so far. */
  ghost predicate RunBacked(executions: map<Key, Source>, runId: string, items: seq<Item>, results: seq<Result>,
                            behaviour: Behaviour) {
    forall key | key in executions && executions[key].runId == runId ::
      Backs(items, results, executions[key].checkId, key, behaviour)
  }

  /** A replayed result names a published run that really executed a check with this id and key, and passed. */
  ghost predicate Traced(item: Item, r: Result, publications: map<string, Report>) {
    r.exit == Deduplicated ==>
      && r.source.Some? && r.source.value.checkId == r.checkId && r.source.value.runId in publications
      && var report := publications[r.source.value.runId];
         exists j: nat ::
           && RanUnder(report.profile.items, report.results, j, KeyOf(item))
           && report.results[j].checkId == r.checkId == item.check.id
  }

  ghost predicate AllTraced(items: seq<Item>, rs: seq<Result>, publications: map<string, Report>) {
    |items| == |rs| && forall i | 0 <= i < |items| :: Traced(items[i], rs[i], publications)
  }

  /** Every entry is old, or of this run. */
  ghost predicate EntriesFrom(executions: map<Key, Source>, before: map<Key, Source>, runId: string) {
    forall key | key in executions :: executions[key].runId == runId
        || (key in before && executions[key] == before[key])
  }

  ghost predicate Unknown(executions: map<Key, Source>, publications: map<string, Report>, runId: string) {
    runId !in publications && forall key | key in executions :: executions[key].runId != runId
  }

  lemma {:induction false} BackedLonger(executions: map<Key, Source>, runId: string, items: seq<Item>,
                                        results: seq<Result>, r: Result, behaviour: Behaviour)
    requires RunBacked(executions, runId, items, results, behaviour)
    ensures RunBacked(executions, runId, items, results + [r], behaviour)
  {
    hide Passes, KeyOf;
    forall key | key in executions && executions[key].runId == runId
      ensures Backs(items, results + [r], executions[key].checkId, key, behaviour)
    {
      var j: nat :| RanUnder(items, results, j, key);
      assert RanUnder(items, results + [r], j, key);
    }
  }

  lemma {:induction false} BackedEntry(executions: map<Key, Source>, runId: string, items: seq<Item>,
                                       results: seq<Result>, behaviour: Behaviour)
    requires RunBacked(executions, runId, items, results, behaviour) && |results| < |items|
    requires Barred(items[|results|]).None? && Passes(KeyOf(items[|results|]), behaviour)
    ensures var item := items[|results|];
            RunBacked(executions[KeyOf(item) := Source(runId, item.check.id)], runId, items,
                results + [Attempt(item, behaviour)], behaviour)
  {
    hide RunBacked;
    var item := items[|results|];
    var key, r := KeyOf(item), Attempt(item, behaviour);
    var more := executions[key := Source(runId, item.check.id)];
    BackedLonger(executions, runId, items, results, r, behaviour);
    assert RanUnder(items, results + [r], |results|, key);
    BackedUpdate(executions, runId, items, results + [r], key, item.check.id, behaviour);
  }

  lemma {:induction false} BackedUpdate(executions: map<Key, Source>, runId: string, items: seq<Item>,
                                        results: seq<Result>, key: Key, checkId: string, behaviour: Behaviour)
    requires RunBacked(executions, runId, items, results, behaviour) && Backs(items, results, checkId, key, behaviour)
    ensures RunBacked(executions[key := Source(runId, checkId)], runId, items, results, behaviour)
  {
    hide Backs;
  }

  /** A turn leaves the ledger alone, or records a check that was really executed and passed. */
  ghost predicate Recorded(before: map<Key, Source>, executions: map<Key, Source>, runId: string, item: Item,
                           r: Result, behaviour: Behaviour) {
    || executions == before
    || (executions == before[KeyOf(item) := Source(runId, item.check.id)]
        && Barred(item).None? && Passes(KeyOf(item), behaviour) && r == Attempt(item, behaviour))
  }

  lemma {:induction false} BackedStep(before: map<Key, Source>, executions: map<Key, Source>, runId: string,
                                      items: seq<Item>, results: seq<Result>, r: Result, behaviour: Behaviour)
    requires RunBacked(before, runId, items, results, behaviour) && |results| < |items|
    requires Recorded(before, executions, runId, items[|results|], r, behaviour)
    ensures RunBacked(executions, runId, items, results + [r], behaviour)
    ensures forall start | EntriesFrom(before, start, runId) :: EntriesFrom(executions, start, runId)
  {
    hide RunBacked, Passes, KeyOf, Barred, Attempt;
    if executions == before {
      BackedLonger(before, runId, items, results, r, behaviour);
    } else {
      BackedEntry(before, runId, items, results, behaviour);
    }
  }

  /** One more check of a profile: the results still agree with the plain run, and so does what stops the rest. */
  lemma {:induction false} PlainRunStep(items: seq<Item>, i: nat, results: seq<Result>, stopped: string, r: Result,
                                        stopped': string, behaviour: Behaviour, stopOnBlocked: bool)
    requires i < |items| && AllAgree(results, PlainRun(items[..i], behaviour, stopOnBlocked).results)
    requires stopped == PlainRun(items[..i], behaviour, stopOnBlocked).stopped
    requires stopped == "" ==> Agrees(r, Attempt(items[i], behaviour))
                               && stopped' == StopAfter(items[i], Attempt(items[i], behaviour), stopOnBlocked)
    requires stopped != "" ==> Agrees(r, Unrun(items[i].check.id, BLOCKED, stopped)) && stopped' == stopped
    ensures var p := PlainRun(items[..i + 1], behaviour, stopOnBlocked);
            AllAgree(results + [r], p.results) && stopped' == p.stopped
  {
    hide Agrees, Attempt, StopAfter;
    assert items[..i + 1][..i] == items[..i];
  }

  lemma {:induction false} PlainRunStart(items: seq<Item>, behaviour: Behaviour, stopOnBlocked: bool)
    ensures AllAgree([], PlainRun(items[..0], behaviour, stopOnBlocked).results)
    ensures PlainRun(items[..0], behaviour, stopOnBlocked).stopped == ""
  {
  }

  lemma {:induction false} RecordsNothing(executions: map<Key, Source>, runId: string, item: Item, r: Result,
                                          behaviour: Behaviour)
    ensures Recorded(executions, executions, runId, item, r, behaviour)
  {
  }

  lemma {:induction false} SelfAgrees(item: Item, r: Result, publications: map<string, Report>)
    requires r.exit == NotRun
    ensures Agrees(r, r) && Traced(item, r, publications)
  {
  }

  lemma {:induction false} RunBackedNone(executions: map<Key, Source>, publications: map<string, Report>, runId: string,
                                         items: seq<Item>, results: seq<Result>, behaviour: Behaviour)
    requires Unknown(executions, publications, runId)
    ensures RunBacked(executions, runId, items, results, behaviour)
    ensures EntriesFrom(executions, executions, runId)
  {
  }

  lemma {:induction false} DriftedAgree(items: seq<Item>, publications: map<string, Report>)
    ensures AllAgree(AllDrifted(items), AllDrifted(items)) && AllTraced(items, AllDrifted(items), publications)
    decreases |items|
  {
    if items == [] {
    } else {
      var n := |items| - 1;
      DriftedAgree(items[..n], publications);
      SelfAgrees(items[n], Unrun(items[n].check.id, FAIL, "input-drift"), publications);
    }
  }

  lemma {:induction false} ClosedTraced(items: seq<Item>, results: seq<Result>, publications: map<string, Report>)
    requires AllTraced(items, results, publications)
    ensures AllTraced(items, CloseAll(items, results), publications)
    decreases |items|
  {
    hide Traced, CloseOne;
    hide KeyOf, RanUnder;
    if items == [] {
    } else {
      var n := |items| - 1;
      assert forall i | 0 <= i < n :: Traced(items[i], results[i], publications);
      ClosedTraced(items[..n], results[..n], publications);
      assert Traced(items[n], results[n], publications);
      ClosedOneTraced(items[n], results[n], publications);
    }
  }

  lemma {:induction false} ClosedOneTraced(item: Item, r: Result, publications: map<string, Report>)
    requires Traced(item, r, publications)
    ensures Traced(item, CloseOne(item, r), publications)
  {
    hide KeyOf, RanUnder;
  }

  class VerificationTransaction {
    var active: bool
    var executions: map<Key, Source>
    var publications: map<string, Report>

    constructor ()
      ensures active && executions == map[] && publications == map[]
    {
      active, executions, publications := true, map[], map[];
    }

    /** Nothing can be replayed once the call is over. */
    method Close()
      modifies this
      ensures !active && executions == map[] && publications == map[]
    {
      active, executions, publications := false, map[], map[];
    }

    ghost predicate Valid(behaviour: Behaviour)
      reads this
    {
      active && PublishedSound(publications) && LedgerSound(executions, publications, behaviour)
    }

    /** The result of a published report under an identifier; the report is not searched in vain. */
    method FindOriginal(items: seq<Item>, results: seq<Result>, checkId: string, key: Key, behaviour: Behaviour)
      returns (original: Result)
      requires Named(items, results) && DistinctIds(items) && Backs(items, results, checkId, key, behaviour)
      ensures original.checkId == checkId && exists j: nat :: RanUnder(items, results, j, key) && results[j] == original
    {
      ghost var j: nat :| RanUnder(items, results, j, key);
      var i := 0;
      while results[i].checkId != checkId
        invariant i <= j
        decreases |results| - i
      {
        i := i + 1;
      }
      assert items[i].check.id == items[j].check.id;
      original := results[i];
    }

    /** Replays the published result recorded for the key of the check. */
    method Replay(item: Item, behaviour: Behaviour) returns (r: Result)
      requires Valid(behaviour) && Barred(item).None?
      requires KeyOf(item) in executions && executions[KeyOf(item)].runId in publications
      ensures Agrees(r, Attempt(item, behaviour)) && Traced(item, r, publications)
      ensures r.exit == Deduplicated && r.status == PASS
    {
      var key := KeyOf(item);
      var source := executions[key];
      var report := publications[source.runId];
      var original := FindOriginal(report.profile.items, report.results, source.checkId, key, behaviour);
      r := original.(checkId := item.check.id, reason := "equivalent-check-deduplicated", exit := Deduplicated,
                     source := Some(Source(source.runId, original.checkId)));
    }

    /** One check that nothing bars: replayed if the ledger has it from a published run, executed otherwise. */
    method RunOrReplay(item: Item, runId: string, behaviour: Behaviour) returns (r: Result)
      requires Valid(behaviour) && Barred(item).None? && runId !in publications
      modifies this`executions
      ensures Valid(behaviour)
      ensures Agrees(r, Attempt(item, behaviour)) && Traced(item, r, publications)
      ensures executions == old(executions)
              || (executions == old(executions)[KeyOf(item) := Source(runId, item.check.id)]
                  && Passes(KeyOf(item), behaviour) && r == Attempt(item, behaviour) && r.status == PASS
                      && r.exit == Exited)
    {
      var key := KeyOf(item);
      var replayable := item.check.reuse && !item.check.transport;
      if replayable && key in executions && executions[key].runId in publications {
        r := Replay(item, behaviour);
        return;
      }
      r := Executed(item, behaviour(key));
      if replayable && r.status == PASS && r.exit == Exited {
        executions := executions[key := Source(runId, item.check.id)];
      }
    }

    /** The checks of a profile in order. */
    method Execute(profile: Profile, runId: string, behaviour: Behaviour) returns (results: seq<Result>)
      requires Valid(behaviour) && Unknown(executions, publications, runId) && profile.selectionUnchanged
      modifies this`executions
      ensures Valid(behaviour) && EntriesFrom(executions, old(executions), runId)
      ensures AllAgree(results, PlainRun(profile.items, behaviour, profile.stopOnBlocked).results)
      ensures AllTraced(profile.items, results, publications)
      ensures RunBacked(executions, runId, profile.items, results, behaviour)
    {
      hide Agrees, Attempt, Traced, RunBacked, Passes, KeyOf, Barred, PublishedSound, LedgerSound, StopAfter, PlainRun,
           AllAgree, Advance, Recorded, EntriesFrom;
      var items, stopped := profile.items, "";
      results := [];
      RunBackedNone(executions, publications, runId, items, results, behaviour);
      PlainRunStart(items, behaviour, profile.stopOnBlocked);
      for i := 0 to |items|
        invariant Valid(behaviour) && EntriesFrom(executions, old(executions), runId)
        invariant |results| == i && AllAgree(results, PlainRun(items[..i], behaviour, profile.stopOnBlocked).results)
        invariant stopped == PlainRun(items[..i], behaviour, profile.stopOnBlocked).stopped
        invariant forall k | 0 <= k < i :: Traced(items[k], results[k], publications)
        invariant RunBacked(executions, runId, items, results, behaviour)
      {
        var item := items[i];
        ghost var before, halted := executions, stopped;
        var r := Unrun(item.check.id, BLOCKED, stopped);
        if stopped == "" {
          r, stopped := TakeTurn(item, runId, profile.stopOnBlocked, behaviour);
        } else {
          SelfAgrees(item, r, publications);
          RecordsNothing(executions, runId, item, r, behaviour);
        }
        PlainRunStep(items, i, results, halted, r, stopped, behaviour, profile.stopOnBlocked);
        BackedStep(before, executions, runId, items, results, r, behaviour);
        results := results + [r];
      }
      assert items[..|items|] == items;
    }

    /** One check whose turn has come: barred, replayed or executed; and whether it stops the rest. */
    method TakeTurn(item: Item, runId: string, stopOnBlocked: bool, behaviour: Behaviour)
      returns (r: Result, stopped: string)
      requires Valid(behaviour) && runId !in publications
      modifies this`executions
      ensures Valid(behaviour) && Agrees(r, Attempt(item, behaviour)) && Traced(item, r, publications)
      ensures stopped == StopAfter(item, Attempt(item, behaviour), stopOnBlocked)
      ensures Recorded(old(executions), executions, runId, item, r, behaviour)
    {
      hide KeyOf, Passes, PublishedSound, LedgerSound;
      var barred := Barred(item);
      if barred.Some? {
        r := barred.value;
        SelfAgrees(item, r, publications);
      } else {
        r := RunOrReplay(item, runId, behaviour);
      }
      stopped := StopAfter(item, r, stopOnBlocked);
    }

    /** A passing report is kept, and its executions can be replayed from now on. */
    method Publish(report: Report, behaviour: Behaviour)
      requires Valid(behaviour) && report.result == PASS && report.runId !in publications
      requires DistinctIds(report.profile.items) && Named(report.profile.items, report.results)
      requires RunBacked(executions, report.runId, report.profile.items, report.results, behaviour)
      modifies this`publications
      ensures Valid(behaviour) && publications == old(publications)[report.runId := report]
    {
      hide Backs, DistinctIds, Named;
      publications := publications[report.runId := report];
    }

    /** One profile: its checks, the closing look, and the report. */
    method VerifyProfile(runId: string, profile: Profile, behaviour: Behaviour) returns (report: Report)
      requires Valid(behaviour) && Unknown(executions, publications, runId)
      modifies this`executions
      ensures Valid(behaviour) && EntriesFrom(executions, old(executions), runId)
      ensures SameReport(report, PlainProfile(runId, profile, behaviour))
      ensures report.results == [] || AllTraced(profile.items, report.results, publications)
      ensures report.result == PASS ==>
                Named(profile.items, report.results)
                    && RunBacked(executions, runId, profile.items, report.results, behaviour)
    {
      hide Agrees, PublishedSound, LedgerSound, RunBacked, EntriesFrom, Attempt, KeyOf, CloseOne, Traced;
      if !profile.freezeHolds {
        RunBackedNone(executions, publications, runId, profile.items, [], behaviour);
        report := ErrorReport(runId, profile, FAIL, "frozen-input-mismatch");
        return;
      }
      var results: seq<Result>;
      PlainLength(profile.items, behaviour, profile.stopOnBlocked);
      if profile.selectionUnchanged {
        results := Execute(profile, runId, behaviour);
      } else {
        results := AllDrifted(profile.items);
        DriftedAgree(profile.items, publications);
        RunBackedNone(executions, publications, runId, profile.items, results, behaviour);
      }
      var closed := CloseAll(profile.items, results);
      CloseAllAgree(profile.items, results, PlainResults(profile, behaviour));
      ClosedTraced(profile.items, results, publications);
      ReportAgrees(runId, profile, closed, CloseAll(profile.items, PlainResults(profile, behaviour)));
      report := ReportOf(runId, profile, closed);
      if report.result == PASS {
        PlainNamed(profile, behaviour);
        AgreeingNamed(profile.items, results, PlainResults(profile, behaviour));
        PassingClosed(runId, profile, results);
      }
    }

    /** A profile between the hooks that the caller may set around it. */
    method VerifyHooked(runId: string, profile: Profile, behaviour: Behaviour) returns (report: Report)
      requires Valid(behaviour) && Unknown(executions, publications, runId) && DistinctIds(profile.items)
      modifies this`executions, this`publications
      ensures Valid(behaviour) && EntriesFrom(executions, old(executions), runId)
      ensures SameReport(report, PlainHooked(runId, profile, behaviour)) && report.profile == profile
      ensures report.results == [] || AllTraced(profile.items, report.results, old(publications))
      ensures publications.Keys <= old(publications.Keys) + {runId}
      ensures report.result == PASS ==> publications == old(publications)[report.runId := report]
    {
      hide PublishedSound, LedgerSound, RunBacked, DistinctIds, Named, PlainProfile, AllAgree, AllTraced;
      if !profile.preflight {
        RunBackedNone(executions, publications, runId, profile.items, [], behaviour);
        report := ErrorReport(runId, profile, FAIL, "profile-preflight-changed");
        ErrorSame(report);
        return;
      }
      report := VerifyProfile(runId, profile, behaviour);
      PlainProfileIs(runId, profile, behaviour);
      if report.result == PASS {
        Publish(report, behaviour);
      }
      if !profile.postflight {
        report := report.(result := FAIL, reason := "profile-postflight-changed");
      }
    }
  }
}
