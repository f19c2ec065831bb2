/** Running frozen profiles of checks one after another, without any reuse (check_plan_runner.py, check_runner.py). */
module Reuse {
  import opened Wrappers

  // ---- Checks and what is seen when they run --------------------------------------------------

  /** qualification stands for scope, triggers, scenarios and selection reasons; config for all other settings. */
  datatype Check = Check(id: string, config: string, qualification: string, reuse: bool, transport: bool)

  datatype Operation = Operation(id: string, config: string, reuse: bool, transport: bool)

  datatype Inputs = Inputs(fingerprint: string, files: string, missing: string)

  /**
   * A check of a profile with its frozen inputs, and what the surroundings show when its turn comes and
   * again when the profile is closed; a toolchain that cannot be resolved is absent.
   */
  datatype Item = Item(
    check: Check, frozen: Inputs,
    current: Inputs, environmentOk: bool, environment: string, toolchain: Option<string>,
    finalFingerprint: string, finalOk: bool, finalEnvironment: string, finalToolchain: Option<string>)

  datatype Key = Key(operation: Operation, files: string, missing: string, environment: string,
      toolchain: Option<string>)

  datatype Status = PASS | FAIL | BLOCKED

  datatype Exit = NotRun | Exited | Abnormal | Deduplicated

  /** How an execution of its own can end. */
  type OwnExit = e: Exit | e != Deduplicated witness NotRun

  /** What an execution yields, down to the toolchain found afterwards. */
  datatype Outcome = Outcome(status: Status, reason: string, exit: OwnExit, toolchainAfter: Option<string>)

  /** The assumption under which reuse is sound: an execution yields what its key determines. */
  type Behaviour = Key -> Outcome

  datatype Source = Source(runId: string, checkId: string)

  datatype Result = Result(checkId: string, status: Status, reason: string, exit: Exit,
                           environment: Option<string>, toolchain: Option<string>, source: Option<Source>)

  /** The operation a check performs, without what merely qualified it for the profile. */
  function OperationOf(c: Check): Operation {
    Operation(c.id, c.config, c.reuse, c.transport)
  }

  function ToolchainOf(item: Item): Option<string> {
    if item.check.reuse then item.toolchain else None
  }

  function KeyOf(item: Item): Key {
    Key(OperationOf(item.check), item.frozen.files, item.frozen.missing, item.environment, ToolchainOf(item))
  }

  // ---- One profile ----------------------------------------------------------------------------

  function Unrun(id: string, status: Status, reason: string): Result {
    Result(id, status, reason, NotRun, None, None, None)
  }

  /** Inputs drifted, or no environment, or no toolchain: the check is not run. */
  function Barred(item: Item): Option<Result> {
    if item.current != item.frozen then Some(Unrun(item.check.id, FAIL, "input-drift"))
    else if !item.environmentOk then Some(Unrun(item.check.id, BLOCKED, "missing-environment"))
    else if item.check.reuse && item.toolchain.None? then Some(Unrun(item.check.id, BLOCKED, "toolchain-unavailable"))
    else None
  }

  function Executed(item: Item, o: Outcome): Result {
    var r := Result(item.check.id, o.status, o.reason, o.exit, Some(item.environment), ToolchainOf(item), None);
    if item.check.reuse && o.toolchainAfter != item.toolchain then r.(status := FAIL, reason := "toolchain-drift")
        else r
  }

  function Attempt(item: Item, behaviour: Behaviour): Result {
    if Barred(item).Some? then Barred(item).value else Executed(item, behaviour(KeyOf(item)))
  }

  /** Why the checks after this one are not run; drifted inputs stop the profile whatever the flag says. */
  function StopAfter(item: Item, r: Result, stopOnBlocked: bool): string {
    if item.current != item.frozen then "prior-check-failed"
    else if stopOnBlocked && r.status == FAIL then "prior-check-failed"
    else if stopOnBlocked && r.status == BLOCKED then "prior-check-blocked"
    else ""
  }

  datatype Progress = Progress(results: seq<Result>, stopped: string)

  function Advance(p: Progress, item: Item, r: Result, stopOnBlocked: bool): Progress {
    if p.stopped != "" then p.(results := p.results + [Unrun(item.check.id, BLOCKED, p.stopped)])
    else Progress(p.results + [r], StopAfter(item, r, stopOnBlocked))
  }

  /** The checks in order, every one executed afresh until one stops the rest. */
  function PlainRun(items: seq<Item>, behaviour: Behaviour, stopOnBlocked: bool): Progress {
    if items == [] then Progress([], "")
    else
      var last := items[|items| - 1];
      Advance(PlainRun(items[..|items| - 1], behaviour, stopOnBlocked), last, Attempt(last, behaviour), stopOnBlocked)
  }

  function AllDrifted(items: seq<Item>): seq<Result> {
    if items == [] then []
    else AllDrifted(items[..|items| - 1]) + [Unrun(items[|items| - 1].check.id, FAIL, "input-drift")]
  }

  /** The last look: inputs of every check, environment and toolchain of those that passed. */
  function CloseOne(item: Item, r: Result): Result {
    if item.finalFingerprint != item.frozen.fingerprint then r.(status := FAIL, reason := "input-drift")
    else if r.status != PASS then r
    else if !item.finalOk then r.(status := FAIL, reason := "missing-environment")
    else if Some(item.finalEnvironment) != r.environment then r.(status := FAIL, reason := "environment-drift")
    else if item.check.reuse && item.finalToolchain != r.toolchain then r.(status := FAIL, reason := "toolchain-drift")
    else r
  }

  function CloseAll(items: seq<Item>, results: seq<Result>): seq<Result>
    requires |items| == |results|
  {
    if items == [] then []
    else CloseAll(items[..|items| - 1], results[..|items| - 1]) + [CloseOne(items[|items| - 1], results[|items| - 1])]
  }

  // ---- The report of a profile ----------------------------------------------------------------

  /**
   * stale is what the check of the whole call finds before anything runs, freezeHolds what the same check finds when
   * the turn of the profile comes; preflight and postflight are what the hooks around it answer.
   */
  datatype Profile = Profile(items: seq<Item>, selectionUnchanged: bool, stopOnBlocked: bool,
                             validScope: bool, stale: bool, freezeHolds: bool, preflight: bool, postflight: bool)

  /** profile stands for the fingerprints of the configuration and of the frozen inputs. */
  datatype Report = Report(runId: string, profile: Profile, result: Status, reason: string, results: seq<Result>,
      gaps: seq<string>)

  /** The reason of the first result of a kind. */
  function FirstReason(results: seq<Result>, status: Status, otherwise: string): Option<string> {
    if results == [] then None
    else if results[0].status == status then Some(if results[0].reason != "" then results[0].reason else otherwise)
    else FirstReason(results[1..], status, otherwise)
  }

  function Aggregate(results: seq<Result>): (Status, string) {
    var failed, blocked := FirstReason(results, FAIL, "check-failed"), FirstReason(results, BLOCKED, "check-blocked");
    if results == [] then (FAIL, "no-checks-executed")
    else if failed.Some? then (FAIL, failed.value)
    else if blocked.Some? then (BLOCKED, blocked.value)
    else (PASS, "")
  }

  predicate RanSome(results: seq<Result>, id: string) {
    exists i | 0 <= i < |results| :: results[i].checkId == id && results[i].exit != NotRun
  }

  /** The selected checks that no result shows as run. */
  function Gaps(items: seq<Item>, results: seq<Result>): seq<string> {
    if items == [] then []
    else
      var id := items[|items| - 1].check.id;
      Gaps(items[..|items| - 1], results) + if RanSome(results, id) then [] else [id]
  }

  function ReportOf(runId: string, profile: Profile, results: seq<Result>): Report {
    var (result, reason), gaps := Aggregate(results), Gaps(profile.items, results);
    if gaps != [] && (result == PASS || reason == "no-checks-executed")
    then Report(runId, profile, BLOCKED, "coverage-gap", results, gaps)
    else Report(runId, profile, result, reason, results, gaps)
  }

  function ErrorReport(runId: string, profile: Profile, status: Status, reason: string): Report {
    Report(runId, profile, status, reason, [], [])
  }

  function PlainResults(profile: Profile, behaviour: Behaviour): seq<Result> {
    if profile.selectionUnchanged then PlainRun(profile.items, behaviour, profile.stopOnBlocked).results
    else AllDrifted(profile.items)
  }

  lemma {:induction false} PlainLength(items: seq<Item>, behaviour: Behaviour, stopOnBlocked: bool)
    ensures |PlainRun(items, behaviour, stopOnBlocked).results| == |items| == |AllDrifted(items)|
    decreases |items|
  {
    if items == [] {
    } else {
      PlainLength(items[..|items| - 1], behaviour, stopOnBlocked);
    }
  }

  ghost function PlainProfile(runId: string, profile: Profile, behaviour: Behaviour): Report {
    PlainLength(profile.items, behaviour, profile.stopOnBlocked);
    if !profile.freezeHolds then ErrorReport(runId, profile, FAIL, "frozen-input-mismatch")
    else ReportOf(runId, profile, CloseAll(profile.items, PlainResults(profile, behaviour)))
  }

  /** Both hooks around a profile can turn it down. */
  ghost function PlainHooked(runId: string, profile: Profile, behaviour: Behaviour): Report {
    if !profile.preflight then ErrorReport(runId, profile, FAIL, "profile-preflight-changed")
    else if !profile.postflight then PlainProfile(runId, profile, behaviour).(result := FAIL,
        reason := "profile-postflight-changed")
    else PlainProfile(runId, profile, behaviour)
  }

  /** One report a profile, up to and including the first that does not pass. */
  ghost function PlainProfiles(runIds: seq<string>, profiles: seq<Profile>, behaviour: Behaviour): seq<Report>
    requires |runIds| == |profiles|
  {
    if profiles == [] then []
    else
      var n := |profiles| - 1;
      var before := PlainProfiles(runIds[..n], profiles[..n], behaviour);
      if before != [] && before[|before| - 1].result != PASS then before
      else before + [PlainHooked(runIds[n], profiles[n], behaviour)]
  }

  const MAX_PROFILES: nat := 16

  /** The number of profiles and their scopes are checked before anything else. */
  predicate WellAsked(profiles: seq<Profile>) {
    1 <= |profiles| <= MAX_PROFILES && forall p | p in profiles :: p.validScope
  }

  /** When some profile is stale, none is run. */
  function Preflight(runId: string, profile: Profile): Report {
    if profile.stale then ErrorReport(runId, profile, FAIL, "frozen-input-mismatch")
    else ErrorReport(runId, profile, BLOCKED, "transaction-preflight-blocked")
  }

  function PreflightAll(runIds: seq<string>, profiles: seq<Profile>): seq<Report>
    requires |runIds| == |profiles|
  {
    if profiles == [] then []
    else
      var n := |profiles| - 1;
      PreflightAll(runIds[..n], profiles[..n]) + [Preflight(runIds[n], profiles[n])]
  }

  /** The profiles from a given one on, reported as not run. */
  function NotRunFrom(runIds: seq<string>, profiles: seq<Profile>, from: nat): seq<Report>
    requires from <= |profiles| == |runIds|
  {
    if |profiles| == from then []
    else
      var n := |profiles| - 1;
      NotRunFrom(runIds[..n], profiles[..n], from) + [ErrorReport(runIds[n], profiles[n], BLOCKED,
          "prior-profile-not-run")]
  }

  lemma {:induction false} NoMoreReports(runIds: seq<string>, profiles: seq<Profile>, behaviour: Behaviour)
    requires |runIds| == |profiles|
    ensures |PlainProfiles(runIds, profiles, behaviour)| <= |profiles|
    decreases |profiles|
  {
    hide PlainHooked;
    if profiles == [] {
    } else {
      NoMoreReports(runIds[..|profiles| - 1], profiles[..|profiles| - 1], behaviour);
    }
  }

  /** A whole call without reuse; None is the refusal of a malformed call. With hooks every profile gets a report. */
  ghost function PlainCall(runIds: seq<string>, profiles: seq<Profile>, behaviour: Behaviour,
                           hooked: bool): Option<seq<Report>>
    requires |runIds| == |profiles|
  {
    NoMoreReports(runIds, profiles, behaviour);
    if !WellAsked(profiles) then None
    else if exists p | p in profiles :: p.stale then Some(PreflightAll(runIds, profiles))
    else
      var reports := PlainProfiles(runIds, profiles, behaviour);
      Some(reports + if hooked then NotRunFrom(runIds, profiles, |reports|) else [])
  }
}
