/** One evaluation over the store: the memoised walk and its caches (_EvaluationContext, _dependency_status). */
module GateContext {
  import opened Wrappers
  import opened Gate

  // ---- What the walk knows about its path -----------------------------------------------------

  /** visiting holds exactly the task ids on the path. */
  ghost predicate OnPath(visiting: set<string>, path: seq<Submission>) {
    && (forall t | t in visiting :: exists i | 0 <= i < |path| :: path[i].requirements.taskId == t)
    && forall i | 0 <= i < |path| :: path[i].requirements.taskId in visiting
  }

  lemma {:induction false} OnLongerPath(visiting: set<string>, path: seq<Submission>, s: Submission)
    requires OnPath(visiting, path)
    ensures OnPath(visiting + {s.requirements.taskId}, path + [s])
  {
    var longer := path + [s];
    forall t | t in visiting + {s.requirements.taskId}
      ensures exists i | 0 <= i < |longer| :: longer[i].requirements.taskId == t
    {
      if t in visiting {
        var i :| 0 <= i < |path| && path[i].requirements.taskId == t;
        assert longer[i].requirements.taskId == t;
      } else {
        assert longer[|path|].requirements.taskId == t;
      }
    }
  }

  /** A checked candidate of an edge of s extends the chain through s. */
  lemma {:induction false} LongerChain(store: Store, path: seq<Submission>, s: Submission, e: Edge, c: Submission)
    requires Chain(store, path, s) && Matches(store, s.requirements)
    requires e in s.requirements.dependencies && e.Hard? && c in Candidates(store, e) && Checked(EvidenceOf(store, c))
    ensures Chain(store, path + [s], c)
  {
    hide EvidenceOf, Candidates, Matches;
    var longer := path + [s];
    assert Link(store, s, c);
    forall i | 0 <= i < |longer| - 1
      ensures Link(store, longer[i], longer[i + 1])
    {
    }
  }

  /** What the walk answers for a submission reached over visiting. */
  ghost function Answer(store: Store, s: Submission, visiting: set<string>): Outcome {
    if s.requirements.taskId in visiting then Outcome(false, [Problem(s.requirements.taskId, Cycle)])
    else OutcomeOf(store, s.requirements)
  }

  /** The answer is positive exactly for accepted tasks, whatever the path. */
  lemma {:induction false} AnswerIsAcceptance(store: Store, s: Submission, visiting: set<string>, path: seq<Submission>)
    requires Chain(store, path, s) && OnPath(visiting, path)
    ensures Answer(store, s, visiting).ok <==> Accepted(store, s.requirements)
    ensures Accepted(store, s.requirements) ==> Answer(store, s, visiting).details == TreeOf(store, s.requirements)
  {
    hide Chain, Accepted, OutcomeOf;
    if s.requirements.taskId in visiting {
      var i :| 0 <= i < |path| && path[i].requirements.taskId == s.requirements.taskId;
      RevisitedRejected(store, path, s, i);
    } else {
      OutcomeIsAcceptance(store, s.requirements);
    }
  }

  /** The test made on a checked candidate decides whether it spoils its edge. */
  lemma {:induction false} CandidateVerdict(store: Store, c: Submission, visiting: set<string>, path: seq<Submission>)
    requires Chain(store, path, c) && OnPath(visiting, path)
    requires Checked(EvidenceOf(store, c)) && EvidenceOf(store, c).inspection.complete
    ensures var child := Answer(store, c, visiting);
            Spoils(store, c) <==>
            !(child.ok && EvidenceOf(store, c).check.value.conditions.receipts == ReceiptsIn(child.details))
    ensures !Spoils(store, c) ==> Answer(store, c, visiting).details == TreeOf(store, c.requirements)
  {
    hide Chain, Accepted, EvidenceOf, EdgeDetails;
    AnswerIsAcceptance(store, c, visiting, path);
    if Answer(store, c, visiting).ok {
      GoodReceipts(store, c.requirements.dependencies);
    }
  }

  // ---- The caches -----------------------------------------------------------------------------

  ghost predicate MemoSound(store: Store, completed: map<string, Outcome>) {
    forall s | s in store.submissions && s.id in completed :: completed[s.id] == OutcomeOf(store, s.requirements)
  }

  ghost predicate EvidenceSound(store: Store, evidence: map<string, Evidence>, examined: set<string>) {
    forall s | s in store.submissions && s.id in evidence ::
      evidence[s.id] == EvidenceOf(store, s) && evidence[s.id].Readable? && s.id in examined
  }

  ghost predicate RequirementsSound(store: Store, requirements: map<string, Requirements>) {
    forall t | t in requirements :: t in store.catalog && requirements[t] == store.catalog[t]
  }

  /** Every candidate of the edge has been examined, and the checked ones have been walked. */
  ghost predicate EdgeCovered(store: Store, completed: set<string>, examined: set<string>, e: Edge) {
    forall c | e.Hard? && c in Candidates(store, e) :: c.id in examined
        && (Checked(EvidenceOf(store, c)) ==> c.id in completed)
  }

  ghost predicate EdgesCovered(store: Store, completed: set<string>, examined: set<string>, edges: seq<Edge>) {
    forall e | e in edges :: EdgeCovered(store, completed, examined, e)
  }

  /** A positive memo rests on requirements and evidence that were looked at, all the way down. */
  ghost predicate MemoCovered(store: Store, completed: map<string, Outcome>, examined: set<string>,
                              requirements: set<string>)
  {
    forall s | s in store.submissions && s.id in completed && completed[s.id].ok ::
      s.requirements.taskId in requirements && EdgesCovered(store, completed.Keys, examined,
          s.requirements.dependencies)
  }

  lemma {:induction false} CoverageGrows(store: Store, completed: set<string>, examined: set<string>,
                                         completed': set<string>, examined': set<string>, edges: seq<Edge>)
    requires EdgesCovered(store, completed, examined, edges) && completed <= completed' && examined <= examined'
    ensures EdgesCovered(store, completed', examined', edges)
  {
    hide Candidates, Checked;
    forall e | e in edges
      ensures EdgeCovered(store, completed', examined', e)
    {
      assert EdgeCovered(store, completed, examined, e);
    }
  }

  lemma {:induction false} CoverageStep(store: Store, completed: set<string>, examined: set<string>, edges: seq<Edge>,
                                        i: nat)
    requires i < |edges| && EdgesCovered(store, completed, examined, edges[..i])
    requires edges[i].Hard? ==> EdgeCovered(store, completed, examined, edges[i])
    ensures EdgesCovered(store, completed, examined, edges[..i + 1])
  {
    hide Candidates, Checked;
    assert edges[..i + 1] == edges[..i] + [edges[i]];
  }

  lemma {:induction false} MemoCoverageGrows(store: Store, completed: map<string, Outcome>, examined: set<string>,
                                             requirements: set<string>,
                                             examined': set<string>, requirements': set<string>)
    requires MemoCovered(store, completed, examined, requirements) && examined <= examined'
             && requirements <= requirements'
    ensures MemoCovered(store, completed, examined', requirements')
  {
    hide EdgesCovered;
    forall s | s in store.submissions && s.id in completed && completed[s.id].ok
      ensures EdgesCovered(store, completed.Keys, examined', s.requirements.dependencies)
    {
      CoverageGrows(store, completed.Keys, examined, completed.Keys, examined', s.requirements.dependencies);
    }
  }

  /** Recording an outcome keeps the memo sound and covered. */
  lemma {:induction false} MemoRecords(store: Store, completed: map<string, Outcome>, examined: set<string>,
                                       requirements: set<string>, s: Submission, r: Outcome)
    requires UniqueIds(store) && s in store.submissions && r == OutcomeOf(store, s.requirements)
    requires MemoSound(store, completed) && MemoCovered(store, completed, examined, requirements)
    requires r.ok ==>
             s.requirements.taskId in requirements
             && EdgesCovered(store, completed.Keys, examined, s.requirements.dependencies)
    ensures MemoSound(store, completed[s.id := r]) && MemoCovered(store, completed[s.id := r], examined, requirements)
  {
    hide EdgesCovered, OutcomeOf;
    var more := completed[s.id := r];
    forall t | t in store.submissions && t.id in more && more[t.id].ok
      ensures t.requirements.taskId in requirements
              && EdgesCovered(store, more.Keys, examined, t.requirements.dependencies)
    {
      assert t.id == s.id ==> t == s;
      CoverageGrows(store, completed.Keys, examined, more.Keys, examined, t.requirements.dependencies);
    }
  }

  /** Everything examined beyond before is clean. */
  ghost predicate CleanSince(store: Store, before: set<string>, examined: set<string>) {
    forall c | c in store.submissions && c.id in examined && c.id !in before :: Clean(EvidenceOf(store, c))
  }

  lemma {:induction false} CleanOne(store: Store, before: set<string>, examined: set<string>, c: Submission)
    requires UniqueIds(store) && c in store.submissions && Clean(EvidenceOf(store, c)) && examined <= before + {c.id}
    ensures CleanSince(store, before, examined)
  {
    hide EvidenceOf;
    forall d | d in store.submissions && d.id in examined && d.id !in before
      ensures d == c
    {
      assert d.id in before + {c.id};
    }
  }

  lemma {:induction false} CleanBoth(store: Store, before: set<string>, middle: set<string>, after: set<string>)
    requires CleanSince(store, before, middle) && CleanSince(store, middle, after)
    ensures CleanSince(store, before, after)
  {
    hide EvidenceOf, Clean;
  }

  /**
   * Whatever a positive memo rests on, through any number of links, was looked at: its requirements are
   * remembered and all candidates of its edges examined. The final recheck therefore misses nothing.
   */
  lemma {:induction false} ConeExamined(store: Store, completed: map<string, Outcome>, examined: set<string>,
                                        requirements: set<string>, path: seq<Submission>, t: Submission, i: nat)
    requires MemoSound(store, completed) && MemoCovered(store, completed, examined, requirements)
    requires Chain(store, path, t) && i < |path|
    requires path[i] in store.submissions && path[i].id in completed && completed[path[i].id].ok
    ensures t.id in completed && completed[t.id].ok && t.requirements.taskId in requirements
    ensures EdgesCovered(store, completed.Keys, examined, t.requirements.dependencies)
    decreases |path| - i
  {
    hide Link, EdgesCovered, OutcomeOf;
    var next := if i == |path| - 1 then t else path[i + 1];
    assert Link(store, path[i], next);
    LinkExamined(store, completed, examined, requirements, path[i], next);
    if i < |path| - 1 {
      ConeExamined(store, completed, examined, requirements, path, t, i + 1);
    }
  }

  lemma {:induction false} LinkExamined(store: Store, completed: map<string, Outcome>, examined: set<string>,
                                        requirements: set<string>, a: Submission, b: Submission)
    requires MemoSound(store, completed) && MemoCovered(store, completed, examined, requirements) && Link(store, a, b)
    requires a in store.submissions && a.id in completed && completed[a.id].ok
    ensures b in store.submissions && b.id in completed && completed[b.id].ok && b.requirements.taskId in requirements
    ensures EdgesCovered(store, completed.Keys, examined, b.requirements.dependencies)
  {
    hide EvidenceOf, OutcomeOf, AcceptedBy, Matches, Checked;
    var e :| e in a.requirements.dependencies && e.Hard? && b in Candidates(store, e);
    assert EdgeCovered(store, completed.Keys, examined, e);
    OutcomeIsAcceptance(store, a.requirements);
    var n: nat :| AcceptedBy(store, n, a.requirements);
    LinkLowers(store, n, a, b);
    OutcomeIsAcceptance(store, b.requirements);
  }

  // ---- The walk -------------------------------------------------------------------------------

  /** A candidate found passing, with its check and the details of its own dependencies. */
  datatype Passing = Passing(dep: Submission, check: Check, details: seq<Detail>)

  ghost predicate PassingFor(store: Store, c: Submission, p: Passing) {
    && p.dep == c && Checked(EvidenceOf(store, c)) && p.check == EvidenceOf(store, c).check.value
    && Accepted(store, c.requirements) && p.details == TreeOf(store, c.requirements)
  }

  /** passing lists the checked candidates among cs, each with its check and its tree. */
  ghost predicate Lists(store: Store, passing: seq<Passing>, checked: seq<Submission>) {
    && |passing| == |checked|
    && forall i | 0 <= i < |passing| ::
         PassingFor(store, checked[i], passing[i])
  }

  lemma {:induction false} CandidateKnown(store: Store, e: Edge, c: Submission)
    requires c in Candidates(store, e)
    ensures c in store.submissions && Fills(e, c)
  {
  }

  lemma {:induction false} EdgePasses(store: Store, e: Edge, p: Passing)
    requires e.Hard? && Lists(store, [p], CheckedIn(store, Candidates(store, e)))
    requires forall c | c in Candidates(store, e) :: !Spoils(store, c)
    ensures EdgeDetail(store, e) == PassDetail(e.taskId, p.dep.requirements.taskVersion,
            p.dep.requirements.changeVersion,
                                               p.dep.hash, p.check.hash, p.details)
  {
    hide EvidenceOf, Spoils, Accepted;
    assert PassingFor(store, CheckedIn(store, Candidates(store, e))[0], [p][0]);
    assert CheckedIn(store, Candidates(store, e))[0] in Candidates(store, e);
  }

  /** The walk along an edge is past its first i candidates: none spoils it, each was looked at. */
  ghost predicate Walked(store: Store, completed: set<string>, examined: set<string>, cs: seq<Submission>,
                         passing: seq<Passing>, i: nat)
    requires i <= |cs|
  {
    && (forall k | 0 <= k < i :: !Spoils(store, cs[k]) && Seen(store, completed, examined, cs[k]))
    && Lists(store, passing, CheckedIn(store, cs[..i]))
  }

  ghost predicate Seen(store: Store, completed: set<string>, examined: set<string>, c: Submission) {
    c.id in examined && (Checked(EvidenceOf(store, c)) ==> c.id in completed)
  }

  lemma {:induction false} WalkedStep(store: Store, completed: set<string>, examined: set<string>,
                                      completed': set<string>, examined': set<string>, cs: seq<Submission>,
                                      passing: seq<Passing>, i: nat, passes: Option<Passing>)
    requires i < |cs| && Walked(store, completed, examined, cs, passing, i)
    requires completed <= completed' && examined <= examined'
    requires !Spoils(store, cs[i]) && Seen(store, completed', examined', cs[i])
    requires passes.Some? == Checked(EvidenceOf(store, cs[i]))
    requires passes.Some? ==> PassingFor(store, cs[i], passes.value)
    ensures Walked(store, completed', examined', cs,
                   if passes.Some? then passing + [passes.value] else passing, i + 1)
  {
    hide EvidenceOf, Checked, Spoils, PassingFor;
    assert cs[..i + 1][..i] == cs[..i];
  }

  /** Past the last candidate the number of passing ones decides the edge. */
  lemma {:induction false} WalkedWhole(store: Store, completed: set<string>, examined: set<string>, e: Edge,
                                       passing: seq<Passing>)
    requires e.Hard? && Candidates(store, e) != []
    requires Walked(store, completed, examined, Candidates(store, e), passing, |Candidates(store, e)|)
    ensures EdgeCovered(store, completed, examined, e)
    ensures |passing| == 0 ==> EdgeDetail(store, e) == Problem(e.taskId, NotPass)
    ensures |passing| > 1 ==> EdgeDetail(store, e) == Problem(e.taskId, Ambiguous)
    ensures |passing| == 1 ==> Lists(store, [passing[0]], CheckedIn(store, Candidates(store, e)))
                               && forall c | c in Candidates(store, e) :: !Spoils(store, c)
  {
    hide EvidenceOf, Checked, Spoils, PassingFor, Candidates;
    var cs := Candidates(store, e);
    assert cs[..|cs|] == cs;
    assert |passing| == 1 ==> passing == [passing[0]];
  }

  /** One more edge: its detail goes last, and the list stays good exactly when the detail is. */
  lemma {:induction false} EdgeAppended(store: Store, edges: seq<Edge>, i: nat)
    requires i < |edges|
    ensures edges[..i + 1] == edges[..i] + [edges[i]]
    ensures EdgeDetails(store, edges[..i + 1]) == EdgeDetails(store, edges[..i]) + [EdgeDetail(store, edges[i])]
    ensures AllGood(EdgeDetails(store, edges[..i + 1])) <==>
            AllGood(EdgeDetails(store, edges[..i])) && Good(EdgeDetail(store, edges[i]))
    ensures edges[i].Soft? ==> EdgeDetail(store, edges[i]) == SoftDetail(edges[i].taskId)
  {
    hide EvidenceOf, Candidates, CheckedIn, Accepted, Good;
    assert edges[..i + 1][..i] == edges[..i];
    AllGoodSplit(store, edges[..i + 1]);
  }

  class EvaluationContext {
    const store: Store
    var completed: map<string, Outcome>
    var evidence: map<string, Evidence>
    var examined: set<string>
    var requirements: map<string, Requirements>

    ghost predicate Valid()
      reads this
    {
      && UniqueIds(store)
      && MemoSound(store, completed) && EvidenceSound(store, evidence, examined)
          && RequirementsSound(store, requirements)
      && MemoCovered(store, completed, examined, requirements.Keys)
    }

    constructor (store: Store)
      requires UniqueIds(store)
      ensures Valid() && this.store == store && examined == {} && completed == map[] && requirements == map[]
    {
      this.store := store;
      completed, evidence, examined, requirements := map[], map[], {}, map[];
    }

    /** The evidence of a candidate, read once; a failed read is not remembered. */
    method ReadEvidence(c: Submission) returns (ev: Evidence)
      requires Valid() && c in store.submissions
      modifies this`evidence, this`examined
      ensures Valid() && ev == EvidenceOf(store, c)
      ensures old(examined) <= examined <= old(examined) + {c.id} && c.id in examined
    {
      if c.id in evidence {
        ev := evidence[c.id];
      } else {
        examined := examined + {c.id};
        MemoCoverageGrows(store, completed, old(examined), requirements.Keys, examined, requirements.Keys);
        ev := EvidenceOf(store, c);
        if ev.Readable? {
          evidence := evidence[c.id := ev];
        }
      }
    }

    /** One candidate of an edge of s: whether it spoils the edge, and if not, whether it passes it. */
    method CandidateStatus(s: Submission, e: Edge, c: Submission, visiting: set<string>, ghost path: seq<Submission>)
      returns (spoils: bool, passing: Option<Passing>)
      requires Valid() && c in store.submissions && e in s.requirements.dependencies && e.Hard?
               && c in Candidates(store, e)
      requires Chain(store, path, s) && Matches(store, s.requirements) && OnPath(visiting, path + [s])
      modifies this`completed, this`evidence, this`examined, this`requirements
      ensures Valid() && Monotone(old(completed.Keys), old(examined), old(requirements.Keys))
      ensures spoils == Spoils(store, c)
      ensures !spoils ==>
              passing.Some? == Checked(EvidenceOf(store, c)) && (passing.Some? ==> PassingFor(store, c, passing.value))
      ensures !spoils ==>
              c.id in examined && (passing.Some? ==> c.id in completed) && CleanSince(store, old(examined), examined)
      decreases store.catalog.Keys - visiting, 1
    {
      hide Candidates, EvidenceOf, Chain, Accepted, MemoSound, MemoCovered, RequirementsSound, EvidenceSound, OnPath,
           Matches, Answer, UniqueIds;
      var ev := ReadEvidence(c);
      if !Clean(ev) {
        return true, None;
      }
      CleanOne(store, old(examined), examined, c);
      if !Checked(ev) {
        return false, None;
      }
      if !ev.inspection.complete {
        return true, None;
      }
      LongerChain(store, path, s, e, c);
      CandidateVerdict(store, c, visiting, path + [s]);
      ghost var read := examined;
      var child := DependencyStatus(c, visiting, path + [s]);
      if !child.ok || ev.check.value.conditions.receipts != ReceiptsIn(child.details) {
        return true, None;
      }
      CleanBoth(store, old(examined), read, examined);
      return false, Some(Passing(c, ev.check.value, child.details));
    }

    ghost predicate Monotone(completed: set<string>, examined: set<string>, requirements: set<string>)
      reads this
    {
      completed <= this.completed.Keys && examined <= this.examined && requirements <= this.requirements.Keys
    }

    /** One hard edge of s: its candidates in order, up to the first that spoils it. */
    method EdgeStatus(s: Submission, e: Edge, visiting: set<string>, ghost path: seq<Submission>) returns (d: Detail)
      requires Valid() && e in s.requirements.dependencies && e.Hard?
      requires Chain(store, path, s) && Matches(store, s.requirements) && OnPath(visiting, path + [s])
      modifies this`completed, this`evidence, this`examined, this`requirements
      ensures Valid() && Monotone(old(completed.Keys), old(examined), old(requirements.Keys))
      ensures d == EdgeDetail(store, e)
      ensures Good(d) ==> EdgeCovered(store, completed.Keys, examined, e) && CleanSince(store, old(examined), examined)
      decreases store.catalog.Keys - visiting, 2
    {
      hide EvidenceOf, Candidates, Chain, Accepted, MemoSound, MemoCovered, RequirementsSound, EvidenceSound, OnPath,
           Matches, UniqueIds, Spoils, Checked, Clean, PassingFor;
      var cs := Candidates(store, e);
      if cs == [] {
        return Problem(e.taskId, Missing);
      }
      var passing: seq<Passing> := [];
      for i := 0 to |cs|
        invariant Valid() && Monotone(old(completed.Keys), old(examined), old(requirements.Keys))
        invariant CleanSince(store, old(examined), examined)
        invariant Walked(store, completed.Keys, examined, cs, passing, i)
      {
        ghost var memo, before := completed.Keys, examined;
        CandidateKnown(store, e, cs[i]);
        var spoils, passes := CandidateStatus(s, e, cs[i], visiting, path);
        if spoils {
          return Problem(e.taskId, ReceiptInvalid);
        }
        CleanBoth(store, old(examined), before, examined);
        WalkedStep(store, memo, before, completed.Keys, examined, cs, passing, i, passes);
        if passes.Some? {
          passing := passing + [passes.value];
        }
      }
      WalkedWhole(store, completed.Keys, examined, e, passing);
      if |passing| > 1 {
        return Problem(e.taskId, Ambiguous);
      }
      if |passing| == 0 {
        return Problem(e.taskId, NotPass);
      }
      EdgePasses(store, e, passing[0]);
      var Passing(dep, check, details) := passing[0];
      d := PassDetail(e.taskId, dep.requirements.taskVersion, dep.requirements.changeVersion, dep.hash, check.hash,
          details);
    }

    /** The catalog still asks for what was submitted, and each edge in turn. */
    method DependencyStatus(s: Submission, visiting: set<string>, ghost path: seq<Submission>) returns (r: Outcome)
      requires Valid() && s in store.submissions && Chain(store, path, s) && OnPath(visiting, path)
      modifies this`completed, this`evidence, this`examined, this`requirements
      ensures Valid() && Monotone(old(completed.Keys), old(examined), old(requirements.Keys))
      ensures r == Answer(store, s, visiting)
      ensures r.ok ==> s.id in completed && CleanSince(store, old(examined), examined)
      decreases store.catalog.Keys - visiting, 0
    {
      hide EvidenceOf, Chain, Accepted, OnPath, EdgeDetail, EdgeCovered;
      var taskId := s.requirements.taskId;
      if taskId in visiting {
        return Outcome(false, [Problem(taskId, Cycle)]);
      }
      if s.id in completed {
        return completed[s.id];
      }
      if taskId !in store.catalog {
        return Outcome(false, [Problem(taskId, Unavailable(RefusalCode(store, taskId)))]);
      }
      requirements := requirements[taskId := store.catalog[taskId]];
      MemoCoverageGrows(store, completed, examined, old(requirements.Keys), examined, requirements.Keys);
      if store.catalog[taskId] != s.requirements {
        return Outcome(false, [Problem(taskId, Drift)]);
      }
      OnLongerPath(visiting, path, s);
      var edges := s.requirements.dependencies;
      var details: seq<Detail> := [];
      for i := 0 to |edges|
        invariant Valid() && Monotone(old(completed.Keys), old(examined), old(requirements.Keys) + {taskId})
        invariant details == EdgeDetails(store, edges[..i])
        invariant AllGood(details) ==>
                  EdgesCovered(store, completed.Keys, examined, edges[..i])
                  && CleanSince(store, old(examined), examined)
      {
        EdgeAppended(store, edges, i);
        if edges[i].Soft? {
          details := details + [SoftDetail(edges[i].taskId)];
          if AllGood(details) {
            CoverageStep(store, completed.Keys, examined, edges, i);
          }
        } else {
          ghost var walked, before := completed.Keys, examined;
          var d := EdgeStatus(s, edges[i], visiting + {taskId}, path);
          details := details + [d];
          if AllGood(details) {
            CoverageGrows(store, walked, before, completed.Keys, examined, edges[..i]);
            CoverageStep(store, completed.Keys, examined, edges, i);
            CleanBoth(store, old(examined), before, examined);
          }
        }
      }
      assert edges[..|edges|] == edges;
      r := Outcome(AllGood(details), details);
      MemoRecords(store, completed, examined, requirements.Keys, s, r);
      completed := completed[s.id := r];
    }
  }
}
