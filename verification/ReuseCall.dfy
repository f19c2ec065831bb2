/** A whole call: profiles one after another over one ledger (check_plan_runner.py). */
module ReuseCall {
  import opened Wrappers
  import opened Reuse
  import opened ReuseAgreement
  import opened ReuseLedger

  // ---- A whole call ---------------------------------------------------------------------------

  /** A replayed result points at an earlier report of the same call that passed and shows the execution. */
  ghost predicate TracedTo(item: Item, r: Result, earlier: seq<Report>) {
    r.exit == Deduplicated ==>
      exists m: nat, j: nat ::
        && m < |earlier| && earlier[m].result == PASS && r.source == Some(Source(earlier[m].runId, r.checkId))
        && RanUnder(earlier[m].profile.items, earlier[m].results, j, KeyOf(item))
        && earlier[m].results[j].checkId == r.checkId == item.check.id
  }

  ghost predicate ReportTraced(reports: seq<Report>, i: nat)
    requires i < |reports|
  {
    forall k | 0 <= k < |reports[i].results| && k < |reports[i].profile.items| ::
      TracedTo(reports[i].profile.items[k], reports[i].results[k], reports[..i])
  }

  /** What is published are the passing reports of this call. */
  ghost predicate PublishedFrom(publications: map<string, Report>, reports: seq<Report>) {
    forall id | id in publications :: exists m: nat :: m < |reports| && reports[m] == publications[id]
  }

  ghost predicate SameReports(rs: seq<Report>, ps: seq<Report>) {
    |rs| == |ps| && forall i | 0 <= i < |rs| :: SameReport(rs[i], ps[i])
  }

  ghost predicate DistinctRuns(runIds: seq<string>) {
    forall i, j | 0 <= i < j < |runIds| :: runIds[i] != runIds[j]
  }

  ghost predicate Stopped(reports: seq<Report>) {
    reports != [] && reports[|reports| - 1].result != PASS
  }

  /** A stopped call reports nothing more, however many profiles follow. */
  lemma {:induction false} StoppedStays(runIds: seq<string>, profiles: seq<Profile>, behaviour: Behaviour, i: nat)
    requires |runIds| == |profiles| && i <= |profiles|
    requires Stopped(PlainProfiles(runIds[..i], profiles[..i], behaviour))
    ensures PlainProfiles(runIds, profiles, behaviour) == PlainProfiles(runIds[..i], profiles[..i], behaviour)
    decreases |profiles|
  {
    hide PlainHooked;
    var n := |profiles| - 1;
    if i == |profiles| {
      assert runIds[..i] == runIds && profiles[..i] == profiles;
    } else {
      assert runIds[..n][..i] == runIds[..i] && profiles[..n][..i] == profiles[..i];
      StoppedStays(runIds[..n], profiles[..n], behaviour, i);
    }
  }

  /** The trace of a result through the publications is a trace to an earlier report. */
  lemma {:induction false} TraceEarlier(item: Item, r: Result, publications: map<string, Report>, earlier: seq<Report>)
    requires Traced(item, r, publications) && PublishedFrom(publications, earlier) && PublishedSound(publications)
    ensures TracedTo(item, r, earlier)
  {
    hide KeyOf, Named, DistinctIds;
    if r.exit == Deduplicated {
      var id := r.source.value.runId;
      var m: nat :| m < |earlier| && earlier[m] == publications[id];
      var j: nat :| RanUnder(publications[id].profile.items, publications[id].results, j, KeyOf(item))
                    && publications[id].results[j].checkId == r.checkId == item.check.id;
      assert RanUnder(earlier[m].profile.items, earlier[m].results, j, KeyOf(item));
    }
  }

  ghost predicate RunsKnown(executions: map<Key, Source>, publications: map<string, Report>, runIds: seq<string>) {
    && (forall key | key in executions :: executions[key].runId in runIds)
    && forall id | id in publications :: id in runIds
  }

  lemma {:induction false} NextUnknown(executions: map<Key, Source>, publications: map<string, Report>,
                                       runIds: seq<string>, i: nat)
    requires DistinctRuns(runIds) && i < |runIds| && RunsKnown(executions, publications, runIds[..i])
    ensures Unknown(executions, publications, runIds[i])
  {
  }

  lemma {:induction false} RunsKnownLater(executions: map<Key, Source>, publications: map<string, Report>,
                                          executions': map<Key, Source>, publications': map<string, Report>,
                                          runIds: seq<string>, i: nat)
    requires i < |runIds| && RunsKnown(executions, publications, runIds[..i])
    requires EntriesFrom(executions', executions, runIds[i]) && publications'.Keys <= publications.Keys + {runIds[i]}
    ensures RunsKnown(executions', publications', runIds[..i + 1])
  {
    assert runIds[..i + 1] == runIds[..i] + [runIds[i]];
    forall id | id in publications'
      ensures id in runIds[..i + 1]
    {
      assert id in publications.Keys + {runIds[i]};
    }
  }

  lemma {:induction false} PlainStep(runIds: seq<string>, profiles: seq<Profile>, behaviour: Behaviour, i: nat,
                                     reports: seq<Report>, report: Report)
    requires i < |runIds| == |profiles| && SameReports(reports, PlainProfiles(runIds[..i], profiles[..i], behaviour))
    requires !Stopped(reports)
    requires SameReport(report, PlainHooked(runIds[i], profiles[i], behaviour))
    ensures SameReports(reports + [report], PlainProfiles(runIds[..i + 1], profiles[..i + 1], behaviour))
    ensures var ps := PlainProfiles(runIds[..i + 1], profiles[..i + 1], behaviour);
            ps != [] && ps[|ps| - 1].result == report.result
  {
    hide AllAgree, PlainHooked;
    assert runIds[..i + 1][..i] == runIds[..i] && profiles[..i + 1][..i] == profiles[..i];
    if reports != [] {
      assert SameReport(reports[|reports| - 1], PlainProfiles(runIds[..i], profiles[..i], behaviour)[|reports| - 1]);
    }
  }

  lemma {:induction false} TracedStep(reports: seq<Report>, report: Report, publications: map<string, Report>)
    requires forall i | 0 <= i < |reports| :: ReportTraced(reports, i)
    requires report.results == [] || AllTraced(report.profile.items, report.results, publications)
    requires PublishedFrom(publications, reports) && PublishedSound(publications)
    ensures forall i | 0 <= i <= |reports| :: ReportTraced(reports + [report], i)
  {
    hide Traced, TracedTo, PublishedFrom, PublishedSound;
    var more := reports + [report];
    forall i | 0 <= i <= |reports|
      ensures ReportTraced(more, i)
    {
      if i < |reports| {
        assert more[..i] == reports[..i];
        assert ReportTraced(reports, i);
      } else {
        assert more[..i] == reports;
        forall k | 0 <= k < |report.results| && k < |report.profile.items|
          ensures TracedTo(report.profile.items[k], report.results[k], reports)
        {
          TraceEarlier(report.profile.items[k], report.results[k], publications, reports);
        }
      }
    }
  }

  lemma {:induction false} PublishedLater(publications: map<string, Report>, publications': map<string, Report>,
                                          reports: seq<Report>, report: Report)
    requires PublishedFrom(publications, reports)
    requires publications' == publications || publications' == publications[report.runId := report]
    ensures PublishedFrom(publications', reports + [report])
  {
    var more := reports + [report];
    forall id | id in publications'
      ensures exists m: nat :: m < |more| && more[m] == publications'[id]
    {
      if id in publications && publications'[id] == publications[id] {
        var m: nat :| m < |reports| && reports[m] == publications[id];
        assert more[m] == publications'[id];
      } else {
        assert more[|reports|] == publications'[id];
      }
    }
  }

  /**
   * Profiles one after another over one ledger: the same verdicts, reasons and statuses as without any reuse,
   * and every replayed result shown by an earlier report of the same call that passed.
   */
  method RunProfiles(runIds: seq<string>, profiles: seq<Profile>, behaviour: Behaviour) returns (reports: seq<Report>)
    requires |runIds| == |profiles| && DistinctRuns(runIds)
    requires forall i | 0 <= i < |profiles| :: DistinctIds(profiles[i].items)
    ensures SameReports(reports, PlainProfiles(runIds, profiles, behaviour))
    ensures forall i | 0 <= i < |reports| :: ReportTraced(reports, i)
  {
    hide SameReports, SameReport, ReportTraced, Traced, PlainProfile, RunsKnown, EntriesFrom, DistinctIds,
         DistinctRuns, Named, RunBacked, LedgerSound, PublishedFrom, PlainProfiles;
    var transaction := new VerificationTransaction();
    var i, stopped := 0, false;
    reports := [];
    StartSound(runIds, profiles, behaviour, transaction.executions, transaction.publications);
    while i < |profiles| && !stopped
      invariant i <= |profiles| && transaction.Valid(behaviour)
      invariant SameReports(reports, PlainProfiles(runIds[..i], profiles[..i], behaviour))
      invariant stopped <==> Stopped(reports)
      invariant RunsKnown(transaction.executions, transaction.publications, runIds[..i])
      invariant stopped ==>
                PlainProfiles(runIds, profiles, behaviour) == PlainProfiles(runIds[..i], profiles[..i], behaviour)
      invariant !stopped ==> PublishedFrom(transaction.publications, reports)
      invariant forall k | 0 <= k < |reports| :: ReportTraced(reports, k)
    {
      ghost var executions, publications := transaction.executions, transaction.publications;
      NextUnknown(executions, publications, runIds, i);
      var report := transaction.VerifyHooked(runIds[i], profiles[i], behaviour);
      RunsKnownLater(executions, publications, transaction.executions, transaction.publications, runIds, i);
      PlainStep(runIds, profiles, behaviour, i, reports, report);
      TracedStep(reports, report, publications);
      if report.result == PASS {
        PublishedLater(publications, transaction.publications, reports, report);
      } else {
        StoppedStays(runIds, profiles, behaviour, i + 1);
      }
      reports := reports + [report];
      stopped := report.result != PASS;
      i := i + 1;
    }
    assert i == |profiles| ==> runIds[..i] == runIds && profiles[..i] == profiles;
    transaction.Close();
  }

  lemma {:induction false} StartSound(runIds: seq<string>, profiles: seq<Profile>, behaviour: Behaviour,
                                      executions: map<Key, Source>, publications: map<string, Report>)
    requires |runIds| == |profiles| && executions == map[] && publications == map[]
    ensures SameReports([], PlainProfiles(runIds[..0], profiles[..0], behaviour))
    ensures RunsKnown(executions, publications, runIds[..0]) && PublishedFrom(publications, [])
    ensures LedgerSound(executions, publications, behaviour) && PublishedSound(publications)
  {
  }

  // ---- The call around it ---------------------------------------------------------------------

  method ReportPreflight(runIds: seq<string>, profiles: seq<Profile>) returns (reports: seq<Report>)
    requires |runIds| == |profiles|
    ensures reports == PreflightAll(runIds, profiles)
  {
    reports := [];
    for i := 0 to |profiles|
      invariant reports == PreflightAll(runIds[..i], profiles[..i])
    {
      assert runIds[..i + 1][..i] == runIds[..i] && profiles[..i + 1][..i] == profiles[..i];
      reports := reports + [Preflight(runIds[i], profiles[i])];
    }
    assert runIds[..|runIds|] == runIds && profiles[..|profiles|] == profiles;
  }

  method ReportNotRun(runIds: seq<string>, profiles: seq<Profile>, from: nat) returns (reports: seq<Report>)
    requires from <= |profiles| == |runIds|
    ensures reports == NotRunFrom(runIds, profiles, from)
  {
    reports := [];
    for i := from to |profiles|
      invariant reports == NotRunFrom(runIds[..i], profiles[..i], from)
    {
      assert runIds[..i + 1][..i] == runIds[..i] && profiles[..i + 1][..i] == profiles[..i];
      reports := reports + [ErrorReport(runIds[i], profiles[i], BLOCKED, "prior-profile-not-run")];
    }
    assert runIds[..|runIds|] == runIds && profiles[..|profiles|] == profiles;
  }

  lemma {:induction false} PreflightEmpty(runIds: seq<string>, profiles: seq<Profile>)
    requires |runIds| == |profiles|
    ensures |PreflightAll(runIds, profiles)| == |profiles| && AllEmpty(PreflightAll(runIds, profiles))
    decreases |profiles|
  {
    if profiles == [] {
    } else {
      PreflightEmpty(runIds[..|profiles| - 1], profiles[..|profiles| - 1]);
    }
  }

  lemma {:induction false} NotRunEmpty(runIds: seq<string>, profiles: seq<Profile>, from: nat)
    requires from <= |profiles| == |runIds|
    ensures |NotRunFrom(runIds, profiles, from)| == |profiles| - from && AllEmpty(NotRunFrom(runIds, profiles, from))
    decreases |profiles|
  {
    if |profiles| == from {
    } else {
      NotRunEmpty(runIds[..|profiles| - 1], profiles[..|profiles| - 1], from);
    }
  }

  ghost predicate AllEmpty(reports: seq<Report>) {
    forall i | 0 <= i < |reports| :: reports[i].results == []
  }

  /** Reports without results add nothing to trace and agree with themselves. */
  lemma {:induction false} EmptyReportsAppend(rs: seq<Report>, ps: seq<Report>, more: seq<Report>)
    requires SameReports(rs, ps) && AllEmpty(more) && forall i | 0 <= i < |rs| :: ReportTraced(rs, i)
    ensures SameReports(rs + more, ps + more) && forall i | 0 <= i < |rs + more| :: ReportTraced(rs + more, i)
  {
    hide TracedTo;
    forall i | 0 <= i < |rs + more|
      ensures SameReport((rs + more)[i], (ps + more)[i]) && ReportTraced(rs + more, i)
    {
      if i < |rs| {
        assert (rs + more)[..i] == rs[..i];
        assert ReportTraced(rs, i);
      } else {
        ErrorSame((rs + more)[i]);
      }
    }
  }

  /**
   * A whole call over one ledger: refused, held back or reported exactly as without any reuse, and every replayed
   * result shown by an earlier report of the same call that passed. With hooks every profile gets a report.
   */
  method VerifyProfiles(runIds: seq<string>, profiles: seq<Profile>, behaviour: Behaviour, hooked: bool)
    returns (reports: Option<seq<Report>>)
    requires |runIds| == |profiles| && DistinctRuns(runIds)
    requires forall i | 0 <= i < |profiles| :: DistinctIds(profiles[i].items)
    ensures reports.Some? == PlainCall(runIds, profiles, behaviour, hooked).Some?
    ensures reports.Some? ==>
              && SameReports(reports.value, PlainCall(runIds, profiles, behaviour, hooked).value)
              && (forall i | 0 <= i < |reports.value| :: ReportTraced(reports.value, i))
              && (hooked ==> |reports.value| == |profiles|)
  {
    hide SameReports, ReportTraced, DistinctIds, DistinctRuns, PlainProfiles, PreflightAll, NotRunFrom;
    if !WellAsked(profiles) {
      return None;
    }
    if exists p | p in profiles :: p.stale {
      var early := ReportPreflight(runIds, profiles);
      PreflightEmpty(runIds, profiles);
      NoReports();
      EmptyReportsAppend([], [], early);
      assert [] + early == early;
      return Some(early);
    }
    NoMoreReports(runIds, profiles, behaviour);
    var run := RunProfiles(runIds, profiles, behaviour);
    SameCount(run, PlainProfiles(runIds, profiles, behaviour));
    var rest: seq<Report> := [];
    if hooked {
      rest := ReportNotRun(runIds, profiles, |run|);
      NotRunEmpty(runIds, profiles, |run|);
    }
    EmptyReportsAppend(run, PlainProfiles(runIds, profiles, behaviour), rest);
    reports := Some(run + rest);
  }

  lemma {:induction false} SameCount(rs: seq<Report>, ps: seq<Report>)
    requires SameReports(rs, ps)
    ensures |rs| == |ps|
  {
  }

  lemma {:induction false} NoReports()
    ensures SameReports([], [])
  {
  }
}
