/** Publishing a check changes nothing below it: idempotence, and the receipts its dependents will recompute. */
module GatePublish {
  import opened Wrappers
  import opened Gate
  import opened GateCheck

  // ---- No accepted cone mentions its own root -------------------------------------------------

  /** Accepted in at most n levels, where s itself needs more than n - 1. */
  ghost predicate Below(store: Store, n: nat, req: Requirements, s: Submission) {
    AcceptedBy(store, n, req) && (n > 0 ==> !AcceptedBy(store, n - 1, s.requirements))
  }

  /**
   * No edge of such a task asks for s: the submission that satisfies it would be accepted
   * for the same task too early.
   */
  lemma {:induction false} NotFilled(store: Store, n: nat, req: Requirements, s: Submission, e: Edge)
    requires Below(store, n, req, s) && Matches(store, s.requirements) && e in req.dependencies && e.Hard?
    ensures !Fills(e, s) && EdgeHolds(store, n - 1, e)
  {
    hide EvidenceOf, ReceiptsAgree;
    assert EdgeHolds(store, n - 1, e);
    var c := CheckedIn(store, Candidates(store, e))[0];
    assert c in CheckedIn(store, Candidates(store, e));
    assert c in Candidates(store, e);
    assert Fills(e, c);
    SameTask(store, n - 1, c.requirements, s.requirements);
  }

  lemma {:induction false} SameTask(store: Store, n: nat, a: Requirements, b: Requirements)
    requires AcceptedBy(store, n, a) && Matches(store, b)
    ensures a.taskId == b.taskId ==> a == b
  {
  }

  lemma {:induction false} BelowStep(store: Store, n: nat, req: Requirements, s: Submission, e: Edge)
    requires Below(store, n, req, s) && Matches(store, s.requirements) && e in req.dependencies && e.Hard?
    ensures EdgeHolds(store, n - 1, e) && Below(store, n - 1, CheckedIn(store, Candidates(store, e))[0].requirements, s)
  {
    hide EvidenceOf, ReceiptsAgree;
    NotFilled(store, n, req, s, e);
    if n - 1 > 0 && AcceptedBy(store, n - 2, s.requirements) {
      AcceptedMonotone(store, n - 2, n - 1, s.requirements);
    }
  }

  // ---- The store after publication ------------------------------------------------------------

  /** The two stores differ at most in the checks of s. */
  ghost predicate DifferAt(store: Store, store': Store, s: Submission) {
    && store' == store.(checks := store'.checks)
    && forall id: string | id != s.id :: At(store'.checks, id) == At(store.checks, id)
  }

  lemma {:induction false} SameEvidence(store: Store, store': Store, s: Submission, c: Submission)
    requires DifferAt(store, store', s) && c.id != s.id
    ensures EvidenceOf(store', c) == EvidenceOf(store, c)
  {
    hide InspectDependency;
  }

  lemma {:induction false} SameChecked(store: Store, store': Store, cs: seq<Submission>)
    requires forall c | c in cs :: EvidenceOf(store', c) == EvidenceOf(store, c)
    ensures CheckedIn(store', cs) == CheckedIn(store, cs)
    decreases |cs|
  {
    hide EvidenceOf;
    if cs == [] {
    } else {
      SameChecked(store, store', cs[..|cs| - 1]);
    }
  }

  /** An edge that s does not fill looks the same in both stores. */
  lemma {:induction false} SameEdge(store: Store, store': Store, s: Submission, e: Edge)
    requires UniqueIds(store) && s in store.submissions && DifferAt(store, store', s) && e.Hard? && !Fills(e, s)
    ensures Candidates(store', e) == Candidates(store, e)
    ensures forall c | c in Candidates(store, e) :: EvidenceOf(store', c) == EvidenceOf(store, c)
    ensures CheckedIn(store', Candidates(store, e)) == CheckedIn(store, Candidates(store, e))
    ensures EdgeReceipts(store', e) == EdgeReceipts(store, e)
  {
    hide EvidenceOf;
    forall c | c in Candidates(store, e)
      ensures EvidenceOf(store', c) == EvidenceOf(store, c)
    {
      SameEvidence(store, store', s, c);
    }
    SameChecked(store, store', Candidates(store, e));
  }

  lemma {:induction false} SameReceipts(store: Store, store': Store, s: Submission, edges: seq<Edge>)
    requires UniqueIds(store) && s in store.submissions && DifferAt(store, store', s)
    requires forall e | e in edges && e.Hard? :: !Fills(e, s)
    ensures StoreReceipts(store', edges) == StoreReceipts(store, edges)
    decreases |edges|
  {
    hide EdgeReceipts, DifferAt, UniqueIds;
    if edges == [] {
    } else {
      SameReceipts(store, store', s, edges[..|edges| - 1]);
      var e := edges[|edges| - 1];
      if e.Hard? {
        SameEdge(store, store', s, e);
      } else {
        SoftReceipts(store, e);
        SoftReceipts(store', e);
      }
    }
  }

  lemma {:induction false} SoftReceipts(store: Store, e: Edge)
    requires e.Soft?
    ensures EdgeReceipts(store, e) == []
  {
  }

  ghost predicate SameBelow(store: Store, store': Store, n: nat, req: Requirements) {
    && AcceptedBy(store, n, req) && AcceptedBy(store', n, req)
    && Tree(store', n, req) == Tree(store, n, req)
    && StoreReceipts(store', req.dependencies) == StoreReceipts(store, req.dependencies)
  }

  /** Everything accepted below s stays accepted, with the same tree and the same receipts. */
  lemma {:induction false} BelowUnchanged(store: Store, store': Store, s: Submission, n: nat, req: Requirements)
    requires UniqueIds(store) && s in store.submissions && DifferAt(store, store', s) && Matches(store, s.requirements)
    requires Below(store, n, req, s)
    ensures SameBelow(store, store', n, req)
    decreases n, 0
  {
    hide EdgeHolds, Fills, EdgeReceipts, Branch, UniqueIds;
    forall e | e in req.dependencies && e.Hard?
      ensures !Fills(e, s) && EdgeHolds(store, n - 1, e) && EdgeHolds(store', n - 1, e)
    {
      NotFilled(store, n, req, s, e);
      EdgeUnchanged(store, store', s, n, req, e);
    }
    SameReceipts(store, store', s, req.dependencies);
    assert AcceptedBy(store', n, req);
    BranchesUnchanged(store, store', s, n, req, req.dependencies);
  }

  lemma {:induction false} EdgeUnchanged(store: Store, store': Store, s: Submission, n: nat, req: Requirements, e: Edge)
    requires UniqueIds(store) && s in store.submissions && DifferAt(store, store', s) && Matches(store, s.requirements)
    requires n > 0 && Below(store, n, req, s) && e in req.dependencies && e.Hard?
    ensures EdgeHolds(store, n - 1, e) && EdgeHolds(store', n - 1, e)
            && Branch(store', n - 1, e) == Branch(store, n - 1, e)
    decreases n - 1, 1
  {
    hide EvidenceOf, Fills, UniqueIds, DifferAt, Below;
    NotFilled(store, n, req, s, e);
    BelowStep(store, n, req, s, e);
    SameEdge(store, store', s, e);
    var c := CheckedIn(store, Candidates(store, e))[0];
    assert c in CheckedIn(store, Candidates(store, e));
    BelowUnchanged(store, store', s, n - 1, c.requirements);
  }

  lemma {:induction false} BranchesUnchanged(store: Store, store': Store, s: Submission, n: nat, req: Requirements,
                                             edges: seq<Edge>)
    requires UniqueIds(store) && s in store.submissions && DifferAt(store, store', s) && Matches(store, s.requirements)
    requires n > 0 && Below(store, n, req, s) && forall e | e in edges :: e in req.dependencies
    requires EdgesHold(store, n - 1, edges) && EdgesHold(store', n - 1, edges)
    ensures Branches(store', n - 1, edges) == Branches(store, n - 1, edges)
    decreases n - 1, 2, |edges|
  {
    hide EdgeHolds, Branch, Fills, DifferAt, Below, UniqueIds, Matches;
    if edges == [] {
    } else {
      var init, e := edges[..|edges| - 1], edges[|edges| - 1];
      BranchesUnchanged(store, store', s, n, req, init);
      if e.Hard? {
        EdgeUnchanged(store, store', s, n, req, e);
      } else {
        SoftReported(store, n - 1, e);
        SoftReported(store', n - 1, e);
      }
    }
  }

  lemma {:induction false} LeastLevel(store: Store, n: nat, s: Submission) returns (m: nat)
    requires AcceptedBy(store, n, s.requirements)
    ensures Below(store, m, s.requirements, s)
    decreases n
  {
    hide EdgeHolds;
    if n > 0 && AcceptedBy(store, n - 1, s.requirements) {
      m := LeastLevel(store, n - 1, s);
    } else {
      m := n;
    }
  }

  /**
   * Whatever happens to the checks of an accepted submission, it stays accepted, with the same details and receipts.
   */
  lemma {:induction false} OutcomeUnchanged(store: Store, store': Store, s: Submission)
    requires UniqueIds(store) && s in store.submissions && DifferAt(store, store', s) && Accepted(store, s.requirements)
    ensures Accepted(store', s.requirements)
    ensures OutcomeOf(store', s.requirements) == OutcomeOf(store, s.requirements)
    ensures StoreReceipts(store', s.requirements.dependencies) == StoreReceipts(store, s.requirements.dependencies)
    ensures ReceiptsIn(OutcomeOf(store, s.requirements).details) == StoreReceipts(store, s.requirements.dependencies)
  {
    hide EdgeHolds, EdgeDetails, DifferAt, UniqueIds;
    var k: nat :| AcceptedBy(store, k, s.requirements);
    var n := LeastLevel(store, k, s);
    BelowUnchanged(store, store', s, n, s.requirements);
    OutcomeIsAcceptance(store, s.requirements);
    OutcomeIsAcceptance(store', s.requirements);
    TreeOfAt(store, n, s.requirements);
    TreeOfAt(store', n, s.requirements);
    GoodReceipts(store, s.requirements.dependencies);
  }

  // ---- Idempotence ----------------------------------------------------------------------------

  lemma {:induction false} PublishedDiffers(store: Store, s: Submission, check: Check)
    requires check.submissionId == s.id
    ensures DifferAt(store, Published(store, check), s)
  {
  }

  /** A check drawn up from a complete, faultless evaluation adds no fault. */
  lemma {:induction false} OwnCheckFaultless(s: Submission, v: Validation, r: Option<Review>, c: Conditions,
                                             id: string, hash: string)
    requires ChainFaults(s, v, r, None) == []
    ensures ChainFaults(s, v, r, Some(Record(id, hash, s, v, r, c))) == []
  {
  }

  /**
   * Evaluating again after a check was published gives the same conditions and reports that very check
   * as already there, whether or not publishing is allowed.
   */
  lemma {:induction false} Idempotent(store: Store, s: Submission, id: string, hash: string, publishAgain: bool,
                                      id': string, hash': string)
    requires UniqueIds(store) && s in store.submissions && At(store.checks, s.id) == []
    requires Decide(store, s, true, id, hash).Passed?
    ensures var check := Decide(store, s, true, id, hash).check;
            && Decide(store, s, true, id, hash) == Passed(check, false)
            && Decide(Published(store, check), s, publishAgain, id', hash') == Passed(check, true)
  {
    hide OutcomeOf, Accepted, ChainFaults, TreeOf, ReceiptsIn, UniqueIds;
    var check := Decide(store, s, true, id, hash).check;
    var store' := Published(store, check);
    var v, r := store.validations[s.id][0], One(At(store.reviews, s.id));
    OutcomeIsAcceptance(store, s.requirements);
    PublishedDiffers(store, s, check);
    OutcomeUnchanged(store, store', s);
    OwnCheckFaultless(s, v, r, check.conditions, id, hash);
    SameConditions(store, store', s, OutcomeOf(store, s.requirements));
  }

  lemma {:induction false} SameConditions(store: Store, store': Store, s: Submission, deps: Outcome)
    requires DifferAt(store, store', s)
    ensures ConditionsOf(store', s, [], deps) == ConditionsOf(store, s, [], deps)
  {
    hide ReceiptsIn, PassingOn;
  }

  // ---- Composability --------------------------------------------------------------------------

  /** The evidence of a published submission: faultless and complete, but for its own sources. */
  lemma {:induction false} PublishedEvidence(store: Store, s: Submission, v: Validation, r: Option<Review>,
                                             c: Conditions, id: string, hash: string)
    requires At(store.validations, s.id) == [v] && One(At(store.reviews, s.id)) == r && |At(store.reviews, s.id)| <= 1
    requires At(store.checks, s.id) == [] && ChainFaults(s, v, r, None) == []
    ensures var check := Record(id, hash, s, v, r, c);
            var ev := EvidenceOf(Published(store, check), s);
            && ev.Readable? && ev.check == Some(check) && ev.inspection.complete
            && ev.inspection.errors == When(!s.sourceSound, SourceUnsound)
  {
    hide Inspect;
    var check := Record(id, hash, s, v, r, c);
    OwnCheckFaultless(s, v, r, c, id, hash);
    NoFaults(s, v, r, Some(check));
    InspectComplete(s, Some(v), r, Some(check));
  }

  lemma {:induction false} InspectComplete(s: Submission, v: Option<Validation>, r: Option<Review>, c: Option<Check>)
    ensures Inspect(s, v, r, c).complete == Complete(s, v, r)
  {
  }

  /**
   * A dependent recomputes for the published submission exactly the receipts recorded in its check, so the
   * submission counts as checked and spoils no edge.
   */
  lemma {:induction false} Composable(store: Store, s: Submission, id: string, hash: string)
    requires UniqueIds(store) && s in store.submissions && At(store.checks, s.id) == []
    requires Decide(store, s, true, id, hash).Passed?
    ensures var check := Decide(store, s, true, id, hash).check;
            var store' := Published(store, check);
            && check.conditions.receipts == StoreReceipts(store', s.requirements.dependencies)
            && Checked(EvidenceOf(store', s)) && !Spoils(store', s)
  {
    hide OutcomeOf, Accepted, ChainFaults, TreeOf, ReceiptsIn, UniqueIds, StoreReceipts, EvidenceOf, ApprovalOf;
    var check := Decide(store, s, true, id, hash).check;
    var v, r := store.validations[s.id][0], One(At(store.reviews, s.id));
    OutcomeIsAcceptance(store, s.requirements);
    PublishedDiffers(store, s, check);
    OutcomeUnchanged(store, Published(store, check), s);
    PublishedEvidence(store, s, v, r, check.conditions, id, hash);
  }

  lemma {:induction false} CheckedOnce(store: Store, cs: seq<Submission>, s: Submission)
    requires s in cs && Checked(EvidenceOf(store, s))
    requires forall c | c in cs && Checked(EvidenceOf(store, c)) :: c == s
    requires forall i, j | 0 <= i < j < |cs| :: cs[i].id != cs[j].id
    ensures CheckedIn(store, cs) == [s]
    decreases |cs|
  {
    hide EvidenceOf, Checked;
    var init, last := cs[..|cs| - 1], cs[|cs| - 1];
    assert cs == init + [last];
    if last == s {
      NoneChecked(store, init);
    } else {
      CheckedOnce(store, init, s);
    }
  }

  lemma {:induction false} NoneChecked(store: Store, cs: seq<Submission>)
    requires forall c | c in cs :: !Checked(EvidenceOf(store, c))
    ensures CheckedIn(store, cs) == []
    decreases |cs|
  {
    hide EvidenceOf, Checked;
    if cs == [] {
    } else {
      NoneChecked(store, cs[..|cs| - 1]);
    }
  }

  lemma {:induction false} CandidatesUnique(submissions: seq<Submission>, e: Edge)
    requires forall i, j | 0 <= i < j < |submissions| :: submissions[i].id != submissions[j].id
    ensures forall i, j | 0 <= i < j < |CandidatesIn(submissions, e)| ::
            CandidatesIn(submissions, e)[i].id != CandidatesIn(submissions, e)[j].id
    decreases |submissions|
  {
    hide Fills;
    if submissions == [] {
    } else {
      var init, last := submissions[..|submissions| - 1], submissions[|submissions| - 1];
      CandidatesUnique(init, e);
      var cs := CandidatesIn(init, e);
      forall i | 0 <= i < |cs|
        ensures cs[i].id != last.id
      {
        assert cs[i] in init;
      }
    }
  }

  /**
   * A published submission carries its dependents: an edge it fills then rests on it alone exactly when all other
   * candidates are clean and unchecked, and is reported as passing with the details of its check.
   */
  lemma {:induction false} DependentPasses(store: Store, s: Submission, id: string, hash: string, e: Edge)
    requires UniqueIds(store) && s in store.submissions && At(store.checks, s.id) == []
    requires Decide(store, s, true, id, hash).Passed? && e.Hard? && Fills(e, s)
    ensures var check := Decide(store, s, true, id, hash).check;
            Satisfies(Published(store, check), e, s) <==> OthersIdle(store, e, s)
    ensures var check := Decide(store, s, true, id, hash).check;
            OthersIdle(store, e, s) ==>
              EdgeDetail(Published(store, check), e)
              == PassDetail(e.taskId, s.requirements.taskVersion, s.requirements.changeVersion, s.hash, hash,
                   check.conditions.details)
  {
    hide EvidenceOf, Accepted, OutcomeOf, ChainFaults, ApprovalOf, StoreReceipts, DifferAt, Spoils, UniqueIds, Fills,
         ReceiptsIn;
    var check := Decide(store, s, true, id, hash).check;
    var store' := Published(store, check);
    OutcomeIsAcceptance(store, s.requirements);
    PublishedDiffers(store, s, check);
    OutcomeUnchanged(store, store', s);
    OutcomeIsAcceptance(store', s.requirements);
    Composable(store, s, id, hash);
    if OthersIdle(store, e, s) {
      SoleCandidate(store, store', s, e);
      CheckHashOf(store, s, check);
    } else if Satisfies(store', e, s) {
      OthersWereIdle(store, store', s, e);
    }
  }

  ghost predicate OthersIdle(store: Store, e: Edge, s: Submission) {
    forall c | c in Candidates(store, e) && c != s :: Clean(EvidenceOf(store, c)) && !Checked(EvidenceOf(store, c))
  }

  lemma {:induction false} OthersWereIdle(store: Store, store': Store, s: Submission, e: Edge)
    requires UniqueIds(store) && s in store.submissions && DifferAt(store, store', s) && e.Hard?
    requires Satisfies(store', e, s)
    ensures OthersIdle(store, e, s)
  {
    hide EvidenceOf, Spoils, Checked, Clean, Fills;
    OnlyChecked(store', e, s);
    forall c | c in Candidates(store, e) && c != s
      ensures Clean(EvidenceOf(store, c)) && !Checked(EvidenceOf(store, c))
    {
      OtherId(store, s, c);
      SameEvidence(store, store', s, c);
    }
  }

  lemma {:induction false} SoleCandidate(store: Store, store': Store, s: Submission, e: Edge)
    requires UniqueIds(store) && s in store.submissions && DifferAt(store, store', s) && e.Hard? && Fills(e, s)
    requires Checked(EvidenceOf(store', s)) && !Spoils(store', s) && OthersIdle(store, e, s)
    ensures Satisfies(store', e, s)
  {
    hide EvidenceOf, Spoils, Fills;
    var cs := Candidates(store, e);
    CandidatesUnique(store.submissions, e);
    forall c | c in cs
      ensures !Spoils(store', c) && (Checked(EvidenceOf(store', c)) ==> c == s)
    {
      if c != s {
        OtherId(store, s, c);
        SameEvidence(store, store', s, c);
        CleanUnchecked(store', c);
      }
    }
    CheckedOnce(store', cs, s);
  }

  lemma {:induction false} OtherId(store: Store, s: Submission, c: Submission)
    requires UniqueIds(store) && s in store.submissions && c in store.submissions && c != s
    ensures c.id != s.id
  {
  }

  lemma {:induction false} CheckHashOf(store: Store, s: Submission, check: Check)
    requires check.submissionId == s.id && At(store.checks, s.id) == []
    requires Checked(EvidenceOf(Published(store, check), s))
    ensures CheckHash(Published(store, check), s) == check.hash
  {
    hide InspectDependency;
  }

  // ---- A second check for the same task -------------------------------------------------------

  /** A submission that already satisfied the edge still does not spoil it: it answers for the same task. */
  lemma {:induction false} RivalUnspoiled(store: Store, store': Store, s: Submission, e: Edge, c: Submission)
    requires UniqueIds(store) && s in store.submissions && DifferAt(store, store', s) && Accepted(store, s.requirements)
    requires e.Hard? && Satisfies(store, e, c) && Fills(e, s) && c.id != s.id
    ensures Checked(EvidenceOf(store', c)) && !Spoils(store', c)
  {
    hide EvidenceOf, Satisfies, Accepted, DifferAt, UniqueIds, StoreReceipts;
    NotSpoiled(store, e, c);
    OnlyChecked(store, e, c);
    AcceptedMatches(store, s.requirements);
    AcceptedMatches(store, c.requirements);
    assert c.requirements == s.requirements;
    OutcomeUnchanged(store, store', s);
    SameEvidence(store, store', s, c);
  }

  lemma {:induction false} AcceptedMatches(store: Store, req: Requirements)
    requires Accepted(store, req)
    ensures Matches(store, req)
  {
  }

  lemma {:induction false} OnlyChecked(store: Store, e: Edge, c: Submission)
    requires e.Hard? && Satisfies(store, e, c)
    ensures c in Candidates(store, e) && Fills(e, c)
    ensures forall d | d in Candidates(store, e) :: !Spoils(store, d) && Clean(EvidenceOf(store, d))
    ensures forall d | d in Candidates(store, e) && Checked(EvidenceOf(store, d)) :: d == c
  {
    hide EvidenceOf;
    assert c in CheckedIn(store, Candidates(store, e));
    forall d | d in Candidates(store, e) && Checked(EvidenceOf(store, d))
      ensures d == c
    {
      assert d in CheckedIn(store, Candidates(store, e));
    }
  }

  lemma {:induction false} TwoChecked(store: Store, e: Edge, c: Submission, d: Submission)
    requires e.Hard? && c != d && c in CheckedIn(store, Candidates(store, e))
             && d in CheckedIn(store, Candidates(store, e))
    requires forall x | x in Candidates(store, e) :: !Spoils(store, x)
    ensures EdgeDetail(store, e) == Problem(e.taskId, Ambiguous)
  {
    hide EvidenceOf, Spoils;
    var checked := CheckedIn(store, Candidates(store, e));
    assert c in Candidates(store, e);
    var i :| 0 <= i < |checked| && checked[i] == c;
    var j :| 0 <= j < |checked| && checked[j] == d;
    assert i != j;
  }

  /**
   * A second check for a task some other submission already answers: every edge that other submission
   * satisfied becomes ambiguous.
   */
  lemma {:induction false} SecondCheckAmbiguous(store: Store, s: Submission, id: string, hash: string, e: Edge,
                                                c: Submission)
    requires UniqueIds(store) && s in store.submissions && At(store.checks, s.id) == []
    requires Decide(store, s, true, id, hash).Passed?
    requires e.Hard? && Satisfies(store, e, c) && Fills(e, s)
    ensures EdgeDetail(Published(store, Decide(store, s, true, id, hash).check), e) == Problem(e.taskId, Ambiguous)
  {
    hide EvidenceOf, Satisfies, Accepted, OutcomeOf, ChainFaults, ApprovalOf, StoreReceipts, DifferAt, Spoils;
    var check := Decide(store, s, true, id, hash).check;
    var store' := Published(store, check);
    OutcomeIsAcceptance(store, s.requirements);
    PublishedDiffers(store, s, check);
    Composable(store, s, id, hash);
    OnlyChecked(store, e, c);
    Unchecked(store, s);
    NotSpoiled(store, e, c);
    RivalUnspoiled(store, store', s, e, c);
    forall d | d in Candidates(store, e)
      ensures !Spoils(store', d)
    {
      if d.id == s.id {
        assert d == s;
      } else if d != c {
        SameEvidence(store, store', s, d);
        CleanUnchecked(store', d);
      }
    }
    TwoChecked(store', e, c, s);
  }

  lemma {:induction false} Unchecked(store: Store, s: Submission)
    requires At(store.checks, s.id) == []
    ensures !Checked(EvidenceOf(store, s))
  {
    hide InspectDependency;
  }

  lemma {:induction false} CleanUnchecked(store: Store, d: Submission)
    requires Clean(EvidenceOf(store, d)) && !Checked(EvidenceOf(store, d))
    ensures !Spoils(store, d)
  {
    hide EvidenceOf;
  }
}
