/** Acceptance of a submission through its dependency receipts, over a frozen store (evaluate_task_acceptance.py). */
module Gate {
  import opened Wrappers

  // ---- Records --------------------------------------------------------------------------------

  datatype Edge = Soft(taskId: string) | Hard(taskId: string, taskVersion: int, changeVersion: string)

  /** wellFormed: the gate identifier has the form the code asks for. */
  datatype ApprovalRequirement = ApprovalRequirement(gate: string, wellFormed: bool, subjectTask: string)

  /** What the catalog says of a task; rest stands for every other field that is compared. */
  datatype Requirements = Requirements(taskId: string, taskVersion: int, changeVersion: string, dependencies: seq<Edge>,
                                       approval: Option<ApprovalRequirement>, rest: string)

  /**
   * sourceSound: authority, producer and bound attachments of the submission check out; current: its verification
   * freeze is complete and its frozen inputs are still those of the working tree.
   */
  datatype Submission = Submission(id: string, requirements: Requirements, hash: string, fingerprint: string,
                                   needsReview: bool, sourceSound: bool, current: bool)

  datatype Verdict = PASS | FAIL | BLOCKED

  /** sound: authority, independence and attached evidence of the record check out. */
  datatype Validation = Validation(id: string, submissionId: string, submissionHash: string, verdict: Verdict,
                                   hash: string, fingerprint: string, sound: bool)

  datatype Review = Review(id: string, submissionId: string, submissionHash: string, verdict: Verdict, hash: string,
                           validationId: string, validationHash: string, findingsVerdict: Option<Verdict>, sound: bool)

  datatype Receipt = Receipt(taskId: string, submissionHash: string, checkHash: string)

  datatype Status = Cycle | Unavailable(code: string) | Drift | Missing | ReceiptInvalid | Ambiguous | NotPass

  datatype Detail =
    | SoftDetail(taskId: string)
    | PassDetail(taskId: string, taskVersion: int, changeVersion: string, submissionHash: string, checkHash: string,
        nested: seq<Detail>)
    | Problem(taskId: string, status: Status)

  /** approving: the fixed fields of the record are those of an approval with a statement. */
  datatype ApprovalRecord = ApprovalRecord(gate: string, approving: bool, subjectTask: string, subjectVersion: int,
                                           subjectChange: string, subjectCheckHash: string, hash: string)

  datatype Approval = NotRequired | InvalidRequirement | NoRecord(gate: string)
      | Judged(gate: string, ok: bool, hash: string)

  datatype Conditions = Conditions(reviewRequired: bool, errors: seq<Fault>, dependenciesOk: bool,
                                   receipts: seq<Receipt>, details: seq<Detail>, approval: Approval)

  datatype Check = Check(id: string, submissionId: string, submissionHash: string, verdict: Verdict, hash: string,
                         validationId: string, validationHash: string, reviewId: Option<string>,
                         reviewHash: Option<string>, conditions: Conditions)

  /**
   * Records are indexed by submission; refusals holds the error the catalog gives for a task it cannot serve; legible
   * says that every listed record can be read safely.
   */
  datatype Store = Store(
    legible: bool,
    catalog: map<string, Requirements>,
    refusals: map<string, string>,
    submissions: seq<Submission>,
    validations: map<string, seq<Validation>>,
    reviews: map<string, seq<Review>>,
    checks: map<string, seq<Check>>,
    approvals: map<string, ApprovalRecord>
  )

  /** Submission identifiers are file names, so no two submissions share one. */
  ghost predicate UniqueIds(store: Store) {
    forall i, j | 0 <= i < j < |store.submissions| :: store.submissions[i].id != store.submissions[j].id
  }

  function RefusalCode(store: Store, taskId: string): string {
    if taskId in store.refusals then store.refusals[taskId] else "task-not-found"
  }

  // ---- Inspecting one submission's evidence ---------------------------------------------------

  datatype Fault =
    | ReviewNotRequired
    | ResultInvalid(layer: string) | SubmissionId(layer: string) | SubmissionHash(layer: string)
    | InputFingerprint | ValidationUnsound
    | FindingsMismatch | ReviewBinding | ReviewUnsound
    | CheckBinding | SourceUnsound
    | ValidationNotPass | ReviewNotPass

  datatype Inspection = Inspection(errors: seq<Fault>, complete: bool)

  function When(condition: bool, fault: Fault): seq<Fault> {
    if condition then [fault] else []
  }

  function LayerFaults(s: Submission, layer: string, submissionId: string, submissionHash: string,
                       allowed: bool): seq<Fault> {
    When(!allowed, ResultInvalid(layer))
    + When(submissionId != s.id, SubmissionId(layer))
    + When(submissionHash != s.hash, SubmissionHash(layer))
  }

  predicate Complete(s: Submission, v: Option<Validation>, r: Option<Review>) {
    && v.Some? && v.value.verdict == PASS
    && if s.needsReview then r.Some? && r.value.verdict == PASS else r.None?
  }

  predicate CheckBound(s: Submission, v: Option<Validation>, r: Option<Review>, c: Check) {
    && Complete(s, v, r)
    && c.validationId == v.value.id && c.validationHash == v.value.hash
    && c.reviewId == (if r.Some? then Some(r.value.id) else None)
    && c.reviewHash == (if r.Some? then Some(r.value.hash) else None)
  }

  function Inspect(s: Submission, v: Option<Validation>, r: Option<Review>, c: Option<Check>): Inspection {
    Inspection(
      When(r.Some? && !s.needsReview, ReviewNotRequired)
      + (if v.Some? then LayerFaults(s, "validation", v.value.submissionId, v.value.submissionHash, true) else [])
      + (if r.Some? then LayerFaults(s, "review", r.value.submissionId, r.value.submissionHash, true) else [])
      + (if c.Some? then LayerFaults(s, "check", c.value.submissionId, c.value.submissionHash,
          c.value.verdict == PASS) else [])
      + (if v.Some? then When(v.value.fingerprint != s.fingerprint, InputFingerprint)
          + When(!v.value.sound, ValidationUnsound) else [])
      + (if r.Some? then
           When(r.value.findingsVerdict != Some(r.value.verdict), FindingsMismatch)
           + When(v.None? || r.value.validationId != v.value.id
               || r.value.validationHash != v.value.hash, ReviewBinding)
           + When(!r.value.sound, ReviewUnsound)
         else [])
      + When(c.Some? && !CheckBound(s, v, r, c.value), CheckBinding),
      Complete(s, v, r))
  }

  function InspectDependency(s: Submission, v: Option<Validation>, r: Option<Review>, c: Option<Check>): Inspection {
    var base := Inspect(s, v, r, c);
    base.(errors := base.errors + When(!s.sourceSound, SourceUnsound))
  }

  /** Unreadable: some layer has more than one record for the submission. */
  datatype Evidence = Unreadable | Readable(validation: Option<Validation>, review: Option<Review>,
      check: Option<Check>, inspection: Inspection)

  function At<T>(index: map<string, seq<T>>, id: string): seq<T> {
    if id in index then index[id] else []
  }

  function One<T>(records: seq<T>): Option<T> {
    if records == [] then None else Some(records[0])
  }

  function EvidenceOf(store: Store, s: Submission): Evidence {
    var v, r, c := At(store.validations, s.id), At(store.reviews, s.id), At(store.checks, s.id);
    if |v| > 1 || |r| > 1 || |c| > 1 then Unreadable
    else Readable(One(v), One(r), One(c), InspectDependency(s, One(v), One(r), One(c)))
  }

  /** Readable and free of faults. */
  predicate Clean(e: Evidence) {
    e.Readable? && e.inspection.errors == []
  }

  /** Clean, with a successful check. */
  predicate Checked(e: Evidence) {
    Clean(e) && e.check.Some? && e.check.value.verdict == PASS
  }

  // ---- What acceptance means ------------------------------------------------------------------

  predicate Matches(store: Store, req: Requirements) {
    req.taskId in store.catalog && store.catalog[req.taskId] == req
  }

  predicate Fills(e: Edge, s: Submission) {
    e.Hard? && s.requirements.taskId == e.taskId && s.requirements.taskVersion == e.taskVersion
    && s.requirements.changeVersion == e.changeVersion
  }

  function CandidatesIn(submissions: seq<Submission>, e: Edge): (cs: seq<Submission>)
    ensures forall c :: c in cs <==> c in submissions && Fills(e, c)
  {
    if submissions == [] then []
    else
      var init, last := submissions[..|submissions| - 1], submissions[|submissions| - 1];
      assert submissions == init + [last];
      if Fills(e, last) then CandidatesIn(init, e) + [last] else CandidatesIn(init, e)
  }

  function Candidates(store: Store, e: Edge): seq<Submission> {
    CandidatesIn(store.submissions, e)
  }

  /** The candidates that carry a successful check. */
  function CheckedIn(store: Store, cs: seq<Submission>): (out: seq<Submission>)
    ensures forall c :: c in out <==> c in cs && Checked(EvidenceOf(store, c))
  {
    if cs == [] then []
    else
      var init, last := cs[..|cs| - 1], cs[|cs| - 1];
      assert cs == init + [last];
      if Checked(EvidenceOf(store, last)) then CheckedIn(store, init) + [last] else CheckedIn(store, init)
  }

  function CheckHash(store: Store, s: Submission): string
    requires Checked(EvidenceOf(store, s))
  {
    EvidenceOf(store, s).check.value.hash
  }

  /** The receipt a task recomputes for an edge: that of its first checked candidate. */
  function EdgeReceipts(store: Store, e: Edge): seq<Receipt> {
    var checked := if e.Hard? then CheckedIn(store, Candidates(store, e)) else [];
    if checked == [] then []
    else
      assert checked[0] in checked;
      [Receipt(e.taskId, checked[0].hash, CheckHash(store, checked[0]))]
  }

  function StoreReceipts(store: Store, edges: seq<Edge>): seq<Receipt> {
    if edges == [] then [] else StoreReceipts(store, edges[..|edges| - 1]) + EdgeReceipts(store, edges[|edges| - 1])
  }

  predicate ReceiptsAgree(store: Store, s: Submission)
    requires Checked(EvidenceOf(store, s))
  {
    EvidenceOf(store, s).check.value.conditions.receipts == StoreReceipts(store, s.requirements.dependencies)
  }

  /**
   * Accepted in at most n levels: the catalog still asks for exactly this, and every hard edge has
   * candidates, all clean, exactly one of them checked, and that one complete, accepted in fewer
   * levels, with recorded receipts equal to those of the store.
   */
  ghost predicate AcceptedBy(store: Store, n: nat, req: Requirements)
    decreases n, 0
  {
    && n > 0 && Matches(store, req)
    && forall e | e in req.dependencies && e.Hard? :: EdgeHolds(store, n - 1, e)
  }

  ghost predicate EdgeHolds(store: Store, n: nat, e: Edge)
    requires e.Hard?
    decreases n, 1
  {
    var cs := Candidates(store, e);
    && (forall c | c in cs :: Clean(EvidenceOf(store, c)))
    && |CheckedIn(store, cs)| == 1
    && var c := CheckedIn(store, cs)[0];
       && EvidenceOf(store, c).inspection.complete && ReceiptsAgree(store, c)
       && AcceptedBy(store, n, c.requirements)
  }

  /** The inductive acceptance predicate: accepted in some number of levels. */
  ghost predicate Accepted(store: Store, req: Requirements) {
    exists n: nat :: AcceptedBy(store, n, req)
  }

  lemma {:induction false} AcceptedMonotone(store: Store, n: nat, m: nat, req: Requirements)
    requires AcceptedBy(store, n, req) && n <= m
    ensures AcceptedBy(store, m, req)
    decreases n, 0
  {
    forall e | e in req.dependencies && e.Hard?
      ensures EdgeHolds(store, m - 1, e)
    {
      EdgeMonotone(store, n - 1, m - 1, e);
    }
  }

  lemma {:induction false} EdgeMonotone(store: Store, n: nat, m: nat, e: Edge)
    requires e.Hard? && EdgeHolds(store, n, e) && n <= m
    ensures EdgeHolds(store, m, e)
    decreases n, 1
  {
    var c := CheckedIn(store, Candidates(store, e))[0];
    AcceptedMonotone(store, n, m, c.requirements);
  }

  // ---- The details of an accepted task --------------------------------------------------------

  function PassOf(store: Store, e: Edge, c: Submission, nested: seq<Detail>): Detail
    requires Checked(EvidenceOf(store, c))
  {
    PassDetail(e.taskId, c.requirements.taskVersion, c.requirements.changeVersion, c.hash, CheckHash(store, c), nested)
  }

  ghost function Tree(store: Store, n: nat, req: Requirements): seq<Detail>
    requires AcceptedBy(store, n, req)
    decreases n, 0
  {
    Branches(store, n - 1, req.dependencies)
  }

  ghost predicate EdgesHold(store: Store, n: nat, edges: seq<Edge>)
    decreases n, 2
  {
    forall e | e in edges && e.Hard? :: EdgeHolds(store, n, e)
  }

  ghost function Branches(store: Store, n: nat, edges: seq<Edge>): seq<Detail>
    requires EdgesHold(store, n, edges)
    decreases n, 2, |edges|
  {
    if edges == [] then []
    else Branches(store, n, edges[..|edges| - 1]) + [Branch(store, n, edges[|edges| - 1])]
  }

  ghost function Branch(store: Store, n: nat, e: Edge): Detail
    requires e.Hard? ==> EdgeHolds(store, n, e)
    decreases n, 1
  {
    if e.Soft? then SoftDetail(e.taskId)
    else
      var c := CheckedIn(store, Candidates(store, e))[0];
      PassOf(store, e, c, Tree(store, n, c.requirements))
  }

  /** The details do not depend on how many levels were allowed. */
  lemma {:induction false} TreeUnique(store: Store, n: nat, m: nat, req: Requirements)
    requires AcceptedBy(store, n, req) && AcceptedBy(store, m, req)
    ensures Tree(store, n, req) == Tree(store, m, req)
    decreases n, 0
  {
    hide EdgeHolds, Matches, Branch;
    BranchesUnique(store, n - 1, m - 1, req.dependencies);
  }

  lemma {:induction false} BranchesUnique(store: Store, n: nat, m: nat, edges: seq<Edge>)
    requires EdgesHold(store, n, edges) && EdgesHold(store, m, edges)
    ensures Branches(store, n, edges) == Branches(store, m, edges)
    decreases n, 2, |edges|
  {
    if edges == [] {
    } else {
      BranchesUnique(store, n, m, edges[..|edges| - 1]);
      BranchUnique(store, n, m, edges[|edges| - 1]);
    }
  }

  lemma {:induction false} BranchUnique(store: Store, n: nat, m: nat, e: Edge)
    requires e.Hard? ==> EdgeHolds(store, n, e) && EdgeHolds(store, m, e)
    ensures Branch(store, n, e) == Branch(store, m, e)
    decreases n, 1
  {
    if e.Hard? {
      TreeUnique(store, n, m, CheckedIn(store, Candidates(store, e))[0].requirements);
    }
  }

  ghost function TreeOf(store: Store, req: Requirements): seq<Detail>
    requires Accepted(store, req)
  {
    var n: nat :| AcceptedBy(store, n, req);
    Tree(store, n, req)
  }

  lemma {:induction false} TreeOfAt(store: Store, n: nat, req: Requirements)
    requires AcceptedBy(store, n, req)
    ensures Accepted(store, req) && TreeOf(store, req) == Tree(store, n, req)
  {
    assert Accepted(store, req);
    var m: nat :| AcceptedBy(store, m, req) && TreeOf(store, req) == Tree(store, m, req);
    TreeUnique(store, n, m, req);
  }

  // ---- The outcome of evaluating a task -------------------------------------------------------

  datatype Outcome = Outcome(ok: bool, details: seq<Detail>)

  /** The candidate spoils its edge: unclean evidence, or a check that its own chain does not bear out. */
  ghost predicate Spoils(store: Store, c: Submission) {
    var e := EvidenceOf(store, c);
    || !Clean(e)
    || (Checked(e) && !(e.inspection.complete && Accepted(store, c.requirements) && ReceiptsAgree(store, c)))
  }

  /** The edge is reported as passing on c: the only checked candidate, and nothing spoils the edge. */
  ghost predicate Satisfies(store: Store, e: Edge, c: Submission)
    requires e.Hard?
  {
    && CheckedIn(store, Candidates(store, e)) == [c]
    && forall d | d in Candidates(store, e) :: !Spoils(store, d)
  }

  ghost function EdgeDetail(store: Store, e: Edge): Detail {
    if e.Soft? then SoftDetail(e.taskId)
    else
      var cs := Candidates(store, e);
      var checked := CheckedIn(store, cs);
      if cs == [] then Problem(e.taskId, Missing)
      else if exists c | c in cs :: Spoils(store, c) then Problem(e.taskId, ReceiptInvalid)
      else if |checked| > 1 then Problem(e.taskId, Ambiguous)
      else if |checked| == 0 then Problem(e.taskId, NotPass)
      else
        assert checked[0] in checked && checked[0] in cs && !Spoils(store, checked[0]);
        PassOf(store, e, checked[0], TreeOf(store, checked[0].requirements))
  }

  predicate Good(d: Detail) {
    d.PassDetail? || d.SoftDetail?
  }

  predicate AllGood(ds: seq<Detail>) {
    forall d | d in ds :: Good(d)
  }

  ghost function EdgeDetails(store: Store, edges: seq<Edge>): seq<Detail> {
    if edges == [] then []
    else EdgeDetails(store, edges[..|edges| - 1]) + [EdgeDetail(store, edges[|edges| - 1])]
  }

  /** What an evaluation gives that starts with nothing visited: a function of the store alone. */
  ghost function OutcomeOf(store: Store, req: Requirements): Outcome {
    if req.taskId !in store.catalog then Outcome(false,
        [Problem(req.taskId, Unavailable(RefusalCode(store, req.taskId)))])
    else if store.catalog[req.taskId] != req then Outcome(false, [Problem(req.taskId, Drift)])
    else
      var ds := EdgeDetails(store, req.dependencies);
      Outcome(AllGood(ds), ds)
  }

  function ReceiptsIn(ds: seq<Detail>): seq<Receipt> {
    if ds == [] then []
    else
      ReceiptsIn(ds[..|ds| - 1]) + Passed(ds[|ds| - 1])
  }

  lemma {:induction false} NotSpoiled(store: Store, e: Edge, c: Submission)
    requires e.Hard? && Satisfies(store, e, c)
    ensures Checked(EvidenceOf(store, c)) && Clean(EvidenceOf(store, c))
    ensures EvidenceOf(store, c).inspection.complete && Accepted(store, c.requirements) && ReceiptsAgree(store, c)
  {
    hide EvidenceOf;
    assert c in CheckedIn(store, Candidates(store, e));
    assert c in Candidates(store, e);
    assert !Spoils(store, c);
  }

  /** A hard edge is reported as passing exactly when one candidate satisfies it. */
  lemma {:induction false} GoodIffSatisfied(store: Store, e: Edge)
    requires e.Hard?
    ensures Good(EdgeDetail(store, e)) <==> exists c :: Satisfies(store, e, c)
  {
    hide EvidenceOf, Accepted, AcceptedBy;
    var cs := Candidates(store, e);
    var checked := CheckedIn(store, cs);
    if Good(EdgeDetail(store, e)) {
      assert checked == [checked[0]];
      assert Satisfies(store, e, checked[0]);
    }
    if c :| Satisfies(store, e, c) {
      NotSpoiled(store, e, c);
      assert c in checked;
    }
  }

  /** A satisfied edge holds at some level. */
  lemma {:induction false} SatisfiedHolds(store: Store, e: Edge, c: Submission) returns (n: nat)
    requires e.Hard? && Satisfies(store, e, c)
    ensures EdgeHolds(store, n, e)
  {
    hide EvidenceOf;
    NotSpoiled(store, e, c);
    n :| AcceptedBy(store, n, c.requirements);
    forall d | d in Candidates(store, e)
      ensures Clean(EvidenceOf(store, d))
    {
      assert !Spoils(store, d);
    }
  }

  /** An edge that holds is satisfied, and reported with its branch. */
  lemma {:induction false} HoldsSatisfied(store: Store, n: nat, e: Edge)
    requires e.Hard? && EdgeHolds(store, n, e)
    ensures Good(EdgeDetail(store, e)) && EdgeDetail(store, e) == Branch(store, n, e)
  {
    hide EvidenceOf;
    var c := CheckedIn(store, Candidates(store, e))[0];
    TreeOfAt(store, n, c.requirements);
    forall d | d in Candidates(store, e)
      ensures !Spoils(store, d)
    {
      if Checked(EvidenceOf(store, d)) {
        assert d in CheckedIn(store, Candidates(store, e));
      }
    }
    assert Satisfies(store, e, c);
    GoodIffSatisfied(store, e);
  }

  lemma {:induction false} AllGoodSplit(store: Store, edges: seq<Edge>)
    requires edges != []
    ensures AllGood(EdgeDetails(store, edges)) <==>
            AllGood(EdgeDetails(store, edges[..|edges| - 1])) && Good(EdgeDetail(store, edges[|edges| - 1]))
  {
    hide EdgeDetail;
    var init, d := EdgeDetails(store, edges[..|edges| - 1]), EdgeDetail(store, edges[|edges| - 1]);
    assert EdgeDetails(store, edges) == init + [d];
    assert d in init + [d];
  }

  /** A good list of details has one level at which every hard edge holds. */
  lemma {:induction false} CommonLevel(store: Store, edges: seq<Edge>) returns (n: nat)
    requires AllGood(EdgeDetails(store, edges))
    ensures EdgesHold(store, n, edges)
    decreases |edges|
  {
    hide EdgeHolds, EdgeDetail, Satisfies;
    if edges == [] {
      n := 0;
    } else {
      var init, last := edges[..|edges| - 1], edges[|edges| - 1];
      AllGoodSplit(store, edges);
      var m := CommonLevel(store, init);
      n := m;
      if last.Hard? {
        GoodIffSatisfied(store, last);
        var c :| Satisfies(store, last, c);
        var k := SatisfiedHolds(store, last, c);
        n := if k > m then k else m;
        EdgeMonotone(store, k, n, last);
      }
      forall e | e in edges && e.Hard?
        ensures EdgeHolds(store, n, e)
      {
        if e != last {
          assert e in init;
          EdgeMonotone(store, m, n, e);
        }
      }
    }
  }

  lemma {:induction false} HeldDetails(store: Store, n: nat, edges: seq<Edge>)
    requires EdgesHold(store, n, edges)
    ensures AllGood(EdgeDetails(store, edges)) && EdgeDetails(store, edges) == Branches(store, n, edges)
    decreases |edges|
  {
    hide EdgeHolds, EdgeDetail, Branch;
    if edges == [] {
    } else {
      var init, last := edges[..|edges| - 1], edges[|edges| - 1];
      assert forall e | e in init :: e in edges;
      HeldDetails(store, n, init);
      if last.Hard? {
        HoldsSatisfied(store, n, last);
      } else {
        SoftReported(store, n, last);
      }
      AllGoodSplit(store, edges);
    }
  }

  lemma {:induction false} SoftReported(store: Store, n: nat, e: Edge)
    requires e.Soft?
    ensures Good(EdgeDetail(store, e)) && EdgeDetail(store, e) == Branch(store, n, e)
  {
  }

  /** The outcome is positive exactly for the accepted tasks, and then lists exactly their tree. */
  lemma {:induction false} OutcomeIsAcceptance(store: Store, req: Requirements)
    ensures OutcomeOf(store, req).ok <==> Accepted(store, req)
    ensures Accepted(store, req) ==> OutcomeOf(store, req).details == TreeOf(store, req)
  {
    hide EdgeHolds, EdgeDetails;
    if OutcomeOf(store, req).ok {
      var n := CommonLevel(store, req.dependencies);
      assert AcceptedBy(store, n + 1, req);
    }
    if Accepted(store, req) {
      var n: nat :| AcceptedBy(store, n, req);
      TreeOfAt(store, n, req);
      HeldDetails(store, n - 1, req.dependencies);
    }
  }

  /** The receipts in a good detail list are those of the store. */
  lemma {:induction false} GoodReceipts(store: Store, edges: seq<Edge>)
    requires AllGood(EdgeDetails(store, edges))
    ensures ReceiptsIn(EdgeDetails(store, edges)) == StoreReceipts(store, edges)
    decreases |edges|
  {
    hide EdgeDetail, EvidenceOf, Satisfies;
    if edges == [] {
    } else {
      var init, e := edges[..|edges| - 1], edges[|edges| - 1];
      var ds := EdgeDetails(store, edges);
      AllGoodSplit(store, edges);
      assert ds[..|ds| - 1] == EdgeDetails(store, init);
      GoodReceipts(store, init);
      EdgeReceipt(store, e);
    }
  }

  function Passed(d: Detail): seq<Receipt> {
    if d.PassDetail? then [Receipt(d.taskId, d.submissionHash, d.checkHash)] else []
  }

  lemma {:induction false} EdgeReceipt(store: Store, e: Edge)
    requires Good(EdgeDetail(store, e))
    ensures Passed(EdgeDetail(store, e)) == EdgeReceipts(store, e)
  {
    hide EvidenceOf, Accepted, Candidates, CandidatesIn, CheckedIn, Spoils, TreeOf;
  }

  // ---- Acceptance is a least fixed point ------------------------------------------------------

  /** One application of the acceptance rule, given which requirements count as accepted. */
  ghost predicate EdgeRule(store: Store, accepted: iset<Requirements>, e: Edge)
    requires e.Hard?
  {
    var cs := Candidates(store, e);
    && (forall c | c in cs :: Clean(EvidenceOf(store, c)))
    && |CheckedIn(store, cs)| == 1
    && var c := CheckedIn(store, cs)[0];
       EvidenceOf(store, c).inspection.complete && ReceiptsAgree(store, c) && c.requirements in accepted
  }

  ghost predicate Rule(store: Store, accepted: iset<Requirements>, req: Requirements) {
    Matches(store, req) && forall e | e in req.dependencies && e.Hard? :: EdgeRule(store, accepted, e)
  }

  ghost function AcceptedSet(store: Store): iset<Requirements> {
    iset req | Accepted(store, req)
  }

  lemma {:induction false} EdgeRuleIff(store: Store, e: Edge)
    requires e.Hard?
    ensures EdgeRule(store, AcceptedSet(store), e) <==> Good(EdgeDetail(store, e))
  {
    hide EvidenceOf, AcceptedBy, EdgeDetail;
    GoodIffSatisfied(store, e);
    var checked := CheckedIn(store, Candidates(store, e));
    if EdgeRule(store, AcceptedSet(store), e) {
      var c := checked[0];
      assert checked == [c];
      forall d | d in Candidates(store, e)
        ensures !Spoils(store, d)
      {
        assert Checked(EvidenceOf(store, d)) ==> d in checked;
      }
      assert Satisfies(store, e, c);
    }
    if c :| Satisfies(store, e, c) {
      NotSpoiled(store, e, c);
      forall d | d in Candidates(store, e)
        ensures Clean(EvidenceOf(store, d))
      {
        assert !Spoils(store, d);
      }
    }
  }

  lemma {:induction false} AllGoodEach(store: Store, edges: seq<Edge>)
    ensures AllGood(EdgeDetails(store, edges)) <==> forall e | e in edges && e.Hard? :: Good(EdgeDetail(store, e))
    decreases |edges|
  {
    hide EdgeDetail;
    if edges == [] {
    } else {
      var init, last := edges[..|edges| - 1], edges[|edges| - 1];
      assert edges == init + [last];
      AllGoodEach(store, init);
      AllGoodSplit(store, edges);
      if last.Soft? {
        SoftReported(store, 0, last);
      }
    }
  }

  /** The accepted requirements are a fixed point of the rule. */
  lemma {:induction false} AcceptedFixed(store: Store, req: Requirements)
    ensures Accepted(store, req) <==> Rule(store, AcceptedSet(store), req)
  {
    hide EdgeRule, EdgeDetail, EdgeDetails, AllGood, AcceptedBy, AcceptedSet, Accepted;
    OutcomeIsAcceptance(store, req);
    AllGoodEach(store, req.dependencies);
    forall e | e in req.dependencies && e.Hard?
      ensures EdgeRule(store, AcceptedSet(store), e) <==> Good(EdgeDetail(store, e))
    {
      EdgeRuleIff(store, e);
    }
  }

  /** And the least one: nothing is accepted that some set closed under the rule leaves out. */
  lemma {:induction false} AcceptedLeast(store: Store, closed: iset<Requirements>, n: nat, req: Requirements)
    requires forall r: Requirements | Rule(store, closed, r) :: r in closed
    requires AcceptedBy(store, n, req)
    ensures req in closed
    decreases n
  {
    hide EvidenceOf, ReceiptsAgree;
    forall e | e in req.dependencies && e.Hard?
      ensures EdgeRule(store, closed, e)
    {
      assert EdgeHolds(store, n - 1, e);
      AcceptedLeast(store, closed, n - 1, CheckedIn(store, Candidates(store, e))[0].requirements);
    }
    assert Rule(store, closed, req);
  }

  // ---- No task is accepted through itself -----------------------------------------------------

  /** b is a checked candidate of a hard edge of a, and a is what the catalog asks for. */
  ghost predicate Link(store: Store, a: Submission, b: Submission) {
    Matches(store, a.requirements)
    && Checked(EvidenceOf(store, b))
    && exists e | e in a.requirements.dependencies && e.Hard? :: b in Candidates(store, e)
  }

  /** path leads, link by link, to s. */
  ghost predicate Chain(store: Store, path: seq<Submission>, s: Submission) {
    && (forall i | 0 <= i < |path| - 1 :: Link(store, path[i], path[i + 1]))
    && (path != [] ==> Link(store, path[|path| - 1], s))
  }

  lemma {:induction false} LinkLowers(store: Store, n: nat, a: Submission, b: Submission)
    requires Link(store, a, b) && AcceptedBy(store, n, a.requirements)
    ensures n > 0 && AcceptedBy(store, n - 1, b.requirements)
  {
    hide EvidenceOf, ReceiptsAgree, Candidates;
    var e :| e in a.requirements.dependencies && e.Hard? && b in Candidates(store, e);
    assert EdgeHolds(store, n - 1, e);
    assert b in CheckedIn(store, Candidates(store, e));
  }

  lemma {:induction false} ChainLowers(store: Store, n: nat, path: seq<Submission>, s: Submission, i: nat)
    requires Chain(store, path, s) && i < |path| && AcceptedBy(store, n, path[i].requirements)
    ensures n >= |path| - i && AcceptedBy(store, n - (|path| - i), s.requirements)
    decreases |path| - i
  {
    hide Link, AcceptedBy;
    if i == |path| - 1 {
      LinkLowers(store, n, path[i], s);
    } else {
      LinkLowers(store, n, path[i], path[i + 1]);
      ChainLowers(store, n - 1, path, s, i + 1);
    }
  }

  lemma {:induction false} ChainMatches(store: Store, path: seq<Submission>, s: Submission, i: nat)
    requires Chain(store, path, s) && i < |path|
    ensures Matches(store, path[i].requirements)
  {
    hide Matches, Candidates, EvidenceOf;
    if i < |path| - 1 {
      assert Link(store, path[i], path[i + 1]);
    }
  }

  /** A task met again on its own path is not accepted, in any number of levels. */
  lemma {:induction false} NoAcceptanceThroughItself(store: Store, n: nat, path: seq<Submission>, s: Submission, i: nat)
    requires Chain(store, path, s) && i < |path| && path[i].requirements.taskId == s.requirements.taskId
    ensures !AcceptedBy(store, n, s.requirements)
    decreases n
  {
    hide Link, Candidates, EvidenceOf;
    if AcceptedBy(store, n, s.requirements) {
      ChainMatches(store, path, s, i);
      assert path[i].requirements == s.requirements;
      hide Chain, AcceptedBy, Matches;
      ChainLowers(store, n, path, s, i);
      NoAcceptanceThroughItself(store, n - (|path| - i), path, s, i);
    }
  }

  lemma {:induction false} RevisitedRejected(store: Store, path: seq<Submission>, s: Submission, i: nat)
    requires Chain(store, path, s) && i < |path| && path[i].requirements.taskId == s.requirements.taskId
    ensures !Accepted(store, s.requirements)
  {
    if Accepted(store, s.requirements) {
      var n: nat :| AcceptedBy(store, n, s.requirements);
      NoAcceptanceThroughItself(store, n, path, s, i);
    }
  }
}
