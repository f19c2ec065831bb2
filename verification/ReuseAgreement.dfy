/** What a replayed result may differ in, and why no report shows it (check_plan_runner.py, check_runner.py). */
module ReuseAgreement {
  import opened Reuse

  // ---- What a replayed result may differ in ---------------------------------------------------

  /** A result that was not replayed is the plain one; a replayed one passed, and tells only another story of how. */
  ghost predicate Agrees(r: Result, p: Result) {
    && r.checkId == p.checkId && r.status == p.status && r.environment == p.environment && r.toolchain == p.toolchain
    && (r.status != PASS ==> r.reason == p.reason)
    && (r.exit == NotRun <==> p.exit == NotRun)
    && (r.exit != Deduplicated ==> r == p)
  }

  ghost predicate AllAgree(rs: seq<Result>, ps: seq<Result>) {
    |rs| == |ps| && forall i | 0 <= i < |rs| :: Agrees(rs[i], ps[i])
  }

  lemma {:induction false} CloseAgrees(item: Item, r: Result, p: Result)
    requires Agrees(r, p)
    ensures Agrees(CloseOne(item, r), CloseOne(item, p))
  {
  }

  lemma {:induction false} CloseAllAgree(items: seq<Item>, rs: seq<Result>, ps: seq<Result>)
    requires |items| == |rs| && AllAgree(rs, ps)
    ensures AllAgree(CloseAll(items, rs), CloseAll(items, ps))
    decreases |items|
  {
    hide Agrees, CloseOne;
    if items == [] {
    } else {
      var n := |items| - 1;
      assert forall i | 0 <= i < n :: Agrees(rs[i], ps[i]);
      CloseAllAgree(items[..n], rs[..n], ps[..n]);
      CloseAgrees(items[n], rs[n], ps[n]);
    }
  }

  lemma {:induction false} FirstReasonAgrees(rs: seq<Result>, ps: seq<Result>, status: Status, otherwise: string)
    requires AllAgree(rs, ps) && status != PASS
    ensures FirstReason(rs, status, otherwise) == FirstReason(ps, status, otherwise)
    decreases |rs|
  {
    if rs == [] {
    } else {
      assert Agrees(rs[0], ps[0]);
      forall i | 0 <= i < |rs[1..]|
        ensures Agrees(rs[1..][i], ps[1..][i])
      {
      }
      FirstReasonAgrees(rs[1..], ps[1..], status, otherwise);
    }
  }

  lemma {:induction false} RanSomeAgrees(rs: seq<Result>, ps: seq<Result>, id: string)
    requires AllAgree(rs, ps)
    ensures RanSome(rs, id) <==> RanSome(ps, id)
  {
    if i :| 0 <= i < |rs| && rs[i].checkId == id && rs[i].exit != NotRun {
      assert Agrees(rs[i], ps[i]);
    }
    if i :| 0 <= i < |ps| && ps[i].checkId == id && ps[i].exit != NotRun {
      assert Agrees(rs[i], ps[i]);
    }
  }

  lemma {:induction false} GapsAgree(items: seq<Item>, rs: seq<Result>, ps: seq<Result>)
    requires AllAgree(rs, ps)
    ensures Gaps(items, rs) == Gaps(items, ps)
    decreases |items|
  {
    hide AllAgree, RanSome;
    if items == [] {
    } else {
      RanSomeAgrees(rs, ps, items[|items| - 1].check.id);
      GapsAgree(items[..|items| - 1], rs, ps);
    }
  }

  ghost predicate SameReport(r: Report, p: Report) {
    r == p.(results := r.results) && AllAgree(r.results, p.results)
  }

  /** Agreeing results make the same report: verdict, reason and coverage. */
  lemma {:induction false} ReportAgrees(runId: string, profile: Profile, rs: seq<Result>, ps: seq<Result>)
    requires AllAgree(rs, ps)
    ensures SameReport(ReportOf(runId, profile, rs), ReportOf(runId, profile, ps))
  {
    hide Agrees, FirstReason, Gaps;
    FirstReasonAgrees(rs, ps, FAIL, "check-failed");
    FirstReasonAgrees(rs, ps, BLOCKED, "check-blocked");
    GapsAgree(profile.items, rs, ps);
  }

  // ---- The closing look and the names of the results -------------------------------------------

  ghost predicate Named(items: seq<Item>, results: seq<Result>) {
    |items| == |results| && forall i | 0 <= i < |items| :: results[i].checkId == items[i].check.id
  }

  /** A passing list of results holds nothing but passes. */
  lemma {:induction false} NoneOther(results: seq<Result>, i: nat)
    requires i < |results| && results[i].status != PASS
    ensures FirstReason(results, results[i].status, "check-failed").Some?
            && FirstReason(results, results[i].status, "check-blocked").Some?
    decreases i
  {
    if i == 0 {
    } else {
      NoneOther(results[1..], i - 1);
    }
  }

  lemma {:induction false} PassingAll(runId: string, profile: Profile, results: seq<Result>, i: nat)
    requires ReportOf(runId, profile, results).result == PASS && i < |results|
    ensures results[i].status == PASS
  {
    hide FirstReason, Gaps;
    if results[i].status != PASS {
      NoneOther(results, i);
    }
  }

  lemma {:induction false} ClosedLength(items: seq<Item>, results: seq<Result>)
    requires |items| == |results|
    ensures |CloseAll(items, results)| == |items|
    decreases |items|
  {
    if items == [] {
    } else {
      ClosedLength(items[..|items| - 1], results[..|items| - 1]);
    }
  }

  lemma {:induction false} ClosedAt(items: seq<Item>, results: seq<Result>, i: nat)
    requires i < |items| == |results|
    ensures |CloseAll(items, results)| == |items| && CloseAll(items, results)[i] == CloseOne(items[i], results[i])
    decreases |items|
  {
    hide CloseOne;
    var n := |items| - 1;
    if i < n {
      ClosedAt(items[..n], results[..n], i);
    } else {
      ClosedLength(items[..n], results[..n]);
    }
  }

  /** In a passing report the closing look changed nothing. */
  lemma {:induction false} PassingClosed(runId: string, profile: Profile, results: seq<Result>)
    requires |profile.items| == |results| && ReportOf(runId, profile, CloseAll(profile.items, results)).result == PASS
    ensures CloseAll(profile.items, results) == results
  {
    hide ReportOf, CloseAll;
    var closed := CloseAll(profile.items, results);
    ClosedLength(profile.items, results);
    forall i | 0 <= i < |results|
      ensures closed[i] == results[i]
    {
      ClosedAt(profile.items, results, i);
      PassingAll(runId, profile, closed, i);
    }
  }

  lemma {:induction false} RunNamed(items: seq<Item>, behaviour: Behaviour, stopOnBlocked: bool)
    ensures Named(items, PlainRun(items, behaviour, stopOnBlocked).results)
    decreases |items|
  {
    hide KeyOf, StopAfter;
    if items == [] {
    } else {
      RunNamed(items[..|items| - 1], behaviour, stopOnBlocked);
    }
  }

  lemma {:induction false} DriftedNamed(items: seq<Item>)
    ensures Named(items, AllDrifted(items))
    decreases |items|
  {
    if items == [] {
    } else {
      DriftedNamed(items[..|items| - 1]);
    }
  }

  lemma {:induction false} PlainNamed(profile: Profile, behaviour: Behaviour)
    ensures Named(profile.items, PlainResults(profile, behaviour))
  {
    RunNamed(profile.items, behaviour, profile.stopOnBlocked);
    DriftedNamed(profile.items);
  }

  lemma {:induction false} AgreeingNamed(items: seq<Item>, rs: seq<Result>, ps: seq<Result>)
    requires AllAgree(rs, ps) && Named(items, ps)
    ensures Named(items, rs)
  {
    forall i | 0 <= i < |items|
      ensures rs[i].checkId == items[i].check.id
    {
      assert Agrees(rs[i], ps[i]);
    }
  }

  lemma {:induction false} ErrorSame(report: Report)
    requires report.results == []
    ensures SameReport(report, report)
  {
  }

  lemma {:induction false} PlainProfileIs(runId: string, profile: Profile, behaviour: Behaviour)
    ensures PlainProfile(runId, profile, behaviour).runId == runId
            && PlainProfile(runId, profile, behaviour).profile == profile
  {
    hide Gaps, Aggregate, CloseAll;
  }
}
