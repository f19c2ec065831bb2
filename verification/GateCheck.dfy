/** Deciding on a submission, publishing its check, and what a published check means later (_evaluate_conditions). */
module GateCheck {
  import opened Wrappers
  import opened Gate
  import opened GateContext

  // ---- The decision ---------------------------------------------------------------------------

  datatype Refusal = ConsumptionPublishes | CandidateUnproved | InputDrift | RecordInvalid | AmbiguousReceipt
      | ValidationMissing | ReviewMissing | ReviewUnexpected | CheckMissing | SourceDrift | RequirementsDrift

  datatype Reason = ChainFault(fault: Fault) | DependencyNotPass | ApprovalMissing

  datatype Decision =
    | Refused(why: Refusal)
    | Unmet(result: Verdict, reason: Reason, conditions: Conditions)
    | Mismatch
    | Passed(check: Check, idempotent: bool)

  /** The first passing dependency on a given task. */
  function PassingOn(details: seq<Detail>, taskId: string): Option<Detail> {
    if details == [] then None
    else if details[0].PassDetail? && details[0].taskId == taskId then Some(details[0])
    else PassingOn(details[1..], taskId)
  }

  function ApprovalOf(store: Store, s: Submission, details: seq<Detail>): Approval {
    match s.requirements.approval
    case None => NotRequired
    case Some(asked) =>
      if !asked.wellFormed then InvalidRequirement
      else if asked.gate !in store.approvals then NoRecord(asked.gate)
      else
        var r, dep := store.approvals[asked.gate], PassingOn(details, asked.subjectTask);
        Judged(asked.gate,
               r.gate == asked.gate && r.approving && dep.Some? && dep.value.PassDetail?
               && r.subjectTask == dep.value.taskId && r.subjectVersion == dep.value.taskVersion
               && r.subjectChange == dep.value.changeVersion && r.subjectCheckHash == dep.value.checkHash,
               r.hash)
  }

  predicate Approves(a: Approval) {
    a.NotRequired? || (a.Judged? && a.ok)
  }

  /** The chain faults: those of the inspection, and an incomplete verdict. */
  function ChainFaults(s: Submission, v: Validation, r: Option<Review>, c: Option<Check>): seq<Fault> {
    var inspection := Inspect(s, Some(v), r, c);
    inspection.errors
    + When(!inspection.complete, if v.verdict != PASS then ValidationNotPass else ReviewNotPass)
  }

  function ConditionsOf(store: Store, s: Submission, faults: seq<Fault>, deps: Outcome): Conditions {
    Conditions(s.needsReview, faults, deps.ok, ReceiptsIn(deps.details), deps.details,
        ApprovalOf(store, s, deps.details))
  }

  predicate AllMet(c: Conditions) {
    c.errors == [] && c.dependenciesOk && Approves(c.approval)
  }

  function Failing(c: Conditions): Decision
    requires !AllMet(c)
  {
    if c.errors != [] then Unmet(FAIL, ChainFault(c.errors[0]), c)
    else Unmet(BLOCKED, if !c.dependenciesOk then DependencyNotPass else ApprovalMissing, c)
  }

  function Record(id: string, hash: string, s: Submission, v: Validation, r: Option<Review>, c: Conditions): Check {
    Check(id, s.id, s.hash, PASS, hash, v.id, v.hash,
          if r.Some? then Some(r.value.id) else None, if r.Some? then Some(r.value.hash) else None, c)
  }

  /** What is reported once the conditions are known; id and hash name a check that would be published. */
  function Report(s: Submission, v: Validation, r: Option<Review>, existing: Option<Check>, c: Conditions, id: string,
                  hash: string): Decision {
    if !AllMet(c) then Failing(c)
    else if existing.None? then Passed(Record(id, hash, s, v, r, c), false)
    else if existing.value != Record(existing.value.id, existing.value.hash, s, v, r, c) then Mismatch
    else Passed(existing.value, true)
  }

  /** The refusals made before anything is weighed. */
  function Unready(store: Store, s: Submission, publishMissing: bool): Option<Refusal> {
    var v, r, c := At(store.validations, s.id), At(store.reviews, s.id), At(store.checks, s.id);
    if !s.current || !s.sourceSound then Some(InputDrift)
    else if !store.legible then Some(RecordInvalid)
    else if |v| > 1 || |r| > 1 || |c| > 1 then Some(AmbiguousReceipt)
    else if v == [] then Some(ValidationMissing)
    else if r == [] && s.needsReview then Some(ReviewMissing)
    else if r != [] && !s.needsReview then Some(ReviewUnexpected)
    else if c == [] && !publishMissing then Some(CheckMissing)
    else None
  }

  /** The decision as a function of the store, without a candidate to be proved. */
  ghost function Decide(store: Store, s: Submission, publishMissing: bool, id: string, hash: string): Decision {
    var refusal := Unready(store, s, publishMissing);
    if refusal.Some? then Refused(refusal.value)
    else
      var v, r, c := store.validations[s.id][0], One(At(store.reviews, s.id)), One(At(store.checks, s.id));
      Report(s, v, r, c, ConditionsOf(store, s, ChainFaults(s, v, r, c), OutcomeOf(store, s.requirements)), id, hash)
  }

  /**
   * The decision when a candidate directory is given as well: it must not publish, and once all conditions are met
   * the chain must prove the candidate. candidate tells whether it does.
   */
  ghost function Consume(store: Store, s: Submission, publishMissing: bool, candidate: Option<bool>, id: string,
                         hash: string): Decision {
    var d := Decide(store, s, publishMissing, id, hash);
    if candidate.Some? && publishMissing then Refused(ConsumptionPublishes)
    else if candidate == Some(false) && (d.Passed? || d.Mismatch?) then Refused(CandidateUnproved)
    else d
  }

  function Published(store: Store, check: Check): Store {
    store.(checks := store.checks[check.submissionId := At(store.checks, check.submissionId) + [check]])
  }

  // ---- The evaluation -------------------------------------------------------------------------

  /** A clean submission with a check is complete. */
  lemma {:induction false} CleanComplete(store: Store, c: Submission)
    requires Clean(EvidenceOf(store, c)) && EvidenceOf(store, c).check.Some?
    ensures EvidenceOf(store, c).inspection.complete
  {
    hide LayerFaults;
  }

  /** Everything examined is read again before a success is reported. */
  method Recheck(context: EvaluationContext) returns (drifted: bool, why: Refusal)
    requires context.Valid() && CleanSince(context.store, {}, context.examined)
    ensures !drifted
  {
    hide EvidenceOf;
    var store := context.store;
    for i := 0 to |store.submissions| {
      var candidate := store.submissions[i];
      if candidate.id !in context.examined {
        continue;
      }
      var ev := EvidenceOf(store, candidate);
      if ev.Readable? && ev.check.Some? {
        CleanComplete(store, candidate);
      }
      if ev.Unreadable? || ev.inspection.errors != [] || (ev.check.Some? && !ev.inspection.complete) {
        return true, SourceDrift;
      }
    }
    if exists t | t in context.requirements :: t !in store.catalog || store.catalog[t] != context.requirements[t] {
      return true, RequirementsDrift;
    }
    return false, SourceDrift;
  }

  lemma {:induction false} WeighedDecision(store: Store, s: Submission, publishMissing: bool, id: string, hash: string)
    requires Unready(store, s, publishMissing).None?
    ensures At(store.validations, s.id) != []
    ensures var v, r, c := At(store.validations, s.id)[0], One(At(store.reviews, s.id)), One(At(store.checks, s.id));
            Decide(store, s, publishMissing, id, hash)
            == Report(s, v, r, c, ConditionsOf(store, s, ChainFaults(s, v, r, c), OutcomeOf(store, s.requirements)), id,
                      hash)
  {
    hide ChainFaults, ConditionsOf, OutcomeOf, Report;
  }

  method EvaluateConditions(store: Store, s: Submission, publishMissing: bool, candidate: Option<bool>, id: string,
                            hash: string)
    returns (decision: Decision, after: Store)
    requires UniqueIds(store) && s in store.submissions
    ensures decision == Consume(store, s, publishMissing, candidate, id, hash)
    ensures after == if decision.Passed? && !decision.idempotent then Published(store, decision.check) else store
  {
    hide EvidenceOf, OutcomeOf, ChainFaults, ConditionsOf, Approves, Record, Published;
    after := store;
    if candidate.Some? && publishMissing {
      return Refused(ConsumptionPublishes), store;
    }
    var refusal := Unready(store, s, publishMissing);
    if refusal.Some? {
      return Refused(refusal.value), store;
    }
    var v, r, c := At(store.validations, s.id)[0], One(At(store.reviews, s.id)), One(At(store.checks, s.id));
    WeighedDecision(store, s, publishMissing, id, hash);
    hide Unready, Decide, At;
    var context := new EvaluationContext(store);
    var deps := context.DependencyStatus(s, {}, []);
    var conditions := ConditionsOf(store, s, ChainFaults(s, v, r, c), deps);
    DependenciesAre(store, s, ChainFaults(s, v, r, c), deps);
    if !AllMet(conditions) {
      return Failing(conditions), store;
    }
    if candidate == Some(false) {
      return Refused(CandidateUnproved), store;
    }
    var drifted, why := Recheck(context);
    if drifted {
      return Refused(why), store;
    }
    decision := Report(s, v, r, c, conditions, id, hash);
    if decision.Passed? && !decision.idempotent {
      after := Published(store, decision.check);
    }
  }

  lemma {:induction false} DependenciesAre(store: Store, s: Submission, faults: seq<Fault>, deps: Outcome)
    ensures ConditionsOf(store, s, faults, deps).dependenciesOk == deps.ok
  {
  }

  // ---- When a submission passes ---------------------------------------------------------------

  /** The records of the submission itself bear it out. */
  ghost predicate OwnEvidence(store: Store, s: Submission) {
    && EvidenceOf(store, s).Readable?
    && var v, r, c := One(At(store.validations, s.id)), One(At(store.reviews, s.id)), One(At(store.checks, s.id));
       Complete(s, v, r) && Inspect(s, v, r, c).errors == []
  }

  ghost predicate Approved(store: Store, s: Submission)
    requires Accepted(store, s.requirements)
  {
    Approves(ApprovalOf(store, s, TreeOf(store, s.requirements)))
  }

  lemma {:induction false} NoFaults(s: Submission, v: Validation, r: Option<Review>, c: Option<Check>)
    ensures ChainFaults(s, v, r, c) == [] <==> Complete(s, Some(v), r) && Inspect(s, Some(v), r, c).errors == []
  {
  }

  /**
   * From a legible store a check can be published exactly for accepted, approved submissions that are still current,
   * whose own sources authenticate and whose own records bear them out.
   */
  lemma {:induction false} PublishedIff(store: Store, s: Submission, id: string, hash: string)
    requires At(store.checks, s.id) == []
    ensures Decide(store, s, true, id, hash).Passed?
            <==> && s.current && s.sourceSound && store.legible && OwnEvidence(store, s)
                 && Accepted(store, s.requirements) && Approved(store, s)
  {
    hide OutcomeOf, Accepted, Inspect, ApprovalOf, ChainFaults, Approves, ReceiptsIn, TreeOf;
    OutcomeIsAcceptance(store, s.requirements);
    if |At(store.validations, s.id)| == 1 {
      NoFaults(s, store.validations[s.id][0], One(At(store.reviews, s.id)), None);
    }
  }
}
