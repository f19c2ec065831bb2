/**
 * The files a task answers for: its own changes, closed under the inputs of the checks they select
 * (task_acceptance_scope.py).
 */
module TaskSubject {
  import opened Wrappers
  import opened DispatchPath

  datatype Refusal = InvalidScope | ForbiddenScope(path: string) | OutsideClaim(path: string) | EmptySubject

  datatype Body = Accepted(paths: seq<string>) | Rejected(why: Refusal)

  datatype Subject = Subject(taskPaths: set<string>, dependencyPaths: set<string>) | Refused(why: Refusal)

  datatype Scope = Scope(allowed: seq<string>, forbidden: seq<string>, claims: seq<string>)

  /** For a set of files, the files that the inputs of the selected checks and their dependencies match. */
  type Inputs = set<string> -> set<string>

  /** Whether some pattern matches, the patterns tried in order; None when a malformed one is met first. */
  function MatchesAny(path: string, patterns: seq<string>, normal: Normal): Option<bool> {
    if patterns == [] then Some(false)
    else
      var first := Match(path, patterns[0], normal);
      if first == Some(false) then MatchesAny(path, patterns[1..], normal) else first
  }

  datatype Verdict = Skip | Take | Refuse(why: Refusal)

  /** What becomes of a changed file. */
  type Judgement = string -> Verdict

  /** An empty list of allowed files or of claims sets no limit. */
  function JudgeScope(path: string, scope: Scope, normal: Normal): Verdict {
    var allowed := if scope.allowed == [] then Some(true) else MatchesAny(path, scope.allowed, normal);
    if allowed.None? then Refuse(InvalidScope)
    else if !allowed.value then Skip
    else
      var forbidden := MatchesAny(path, scope.forbidden, normal);
      if forbidden.None? then Refuse(InvalidScope)
      else if forbidden.value then Refuse(ForbiddenScope(path))
      else
        var claimed := if scope.claims == [] then Some(true) else MatchesAny(path, scope.claims, normal);
        if claimed.None? then Refuse(InvalidScope)
        else if !claimed.value then Refuse(OutsideClaim(path))
        else Take
  }

  /** The changed files within a scope, or the first reason to refuse one. */
  function BodyOf(changed: seq<string>, judge: Judgement): Body {
    if changed == [] then Accepted([])
    else
      var before, verdict := BodyOf(changed[..|changed| - 1], judge), judge(changed[|changed| - 1]);
      if before.Rejected? then before
      else match verdict
        case Skip => before
        case Take => Accepted(before.paths + [changed[|changed| - 1]])
        case Refuse(why) => Rejected(why)
  }

  function SetOf(paths: seq<string>): set<string> {
    set p | p in paths
  }

  /** The changed files among the inputs of the checks that prior selects. */
  function Expanded(changed: seq<string>, inputs: Inputs, prior: set<string>): set<string> {
    set p | p in changed && p in inputs(prior)
  }

  ghost predicate Closed(changed: seq<string>, inputs: Inputs, body: set<string>, c: set<string>) {
    body <= c && Expanded(changed, inputs, c) <= c
  }

  /** More files never select fewer inputs. */
  ghost predicate Monotone(inputs: Inputs) {
    forall a: set<string>, b: set<string> {:trigger inputs(a), inputs(b)} :: a <= b ==> inputs(a) <= inputs(b)
  }

  ghost predicate Least(changed: seq<string>, inputs: Inputs, body: set<string>, total: set<string>) {
    forall c: set<string> | Closed(changed, inputs, body, c) :: total <= c
  }

  /** What the body holds: the changed files that the scope takes; and none is refused. */
  lemma {:induction false} BodyExactly(changed: seq<string>, judge: Judgement, path: string)
    requires BodyOf(changed, judge).Accepted?
    ensures path in BodyOf(changed, judge).paths <==> path in changed && judge(path) == Take
    ensures path in changed ==> !judge(path).Refuse?
    decreases |changed|
  {
    if changed == [] {
    } else {
      var n := |changed| - 1;
      assert changed == changed[..n] + [changed[n]];
      BodyExactly(changed[..n], judge, path);
    }
  }

  lemma {:induction false} BodyChanged(changed: seq<string>, judge: Judgement)
    requires BodyOf(changed, judge).Accepted?
    ensures SetOf(BodyOf(changed, judge).paths) <= SetOf(changed)
  {
    forall p | p in BodyOf(changed, judge).paths
      ensures p in changed
    {
      BodyExactly(changed, judge, p);
    }
  }

  /** One more round from below a closed set stays below it. */
  lemma {:induction false} RoundBelow(changed: seq<string>, inputs: Inputs, body: set<string>, prior: set<string>,
                                      c: set<string>)
    requires Monotone(inputs) && Closed(changed, inputs, body, c) && prior <= c
    ensures Expanded(changed, inputs, prior) <= c
  {
    assert inputs(prior) <= inputs(c);
    assert Expanded(changed, inputs, prior) <= Expanded(changed, inputs, c);
  }

  lemma {:induction false} RoundLeast(changed: seq<string>, inputs: Inputs, body: set<string>, prior: set<string>)
    requires Monotone(inputs) && Least(changed, inputs, body, prior)
    ensures Least(changed, inputs, body, prior + Expanded(changed, inputs, prior))
  {
    hide Monotone, Closed, Expanded;
    forall c: set<string> | Closed(changed, inputs, body, c)
      ensures prior + Expanded(changed, inputs, prior) <= c
    {
      RoundBelow(changed, inputs, body, prior, c);
    }
  }

  method TakeBody(changed: seq<string>, judge: Judgement) returns (body: Body)
    ensures body == BodyOf(changed, judge)
  {
    var paths: seq<string> := [];
    for i := 0 to |changed|
      invariant BodyOf(changed[..i], judge) == Accepted(paths)
    {
      assert changed[..i + 1][..i] == changed[..i];
      match judge(changed[i]) {
        case Skip =>
        case Take => paths := paths + [changed[i]];
        case Refuse(why) =>
          RejectedStays(changed, judge, i + 1);
          return Rejected(why);
      }
    }
    assert changed[..|changed|] == changed;
    return Accepted(paths);
  }

  lemma {:induction false} RejectedStays(changed: seq<string>, judge: Judgement, i: nat)
    requires i <= |changed| && BodyOf(changed[..i], judge).Rejected?
    ensures BodyOf(changed, judge) == BodyOf(changed[..i], judge)
    decreases |changed|
  {
    if i < |changed| {
      var n := |changed| - 1;
      assert changed[..n][..i] == changed[..i];
      RejectedStays(changed[..n], judge, i);
    } else {
      assert changed[..i] == changed;
    }
  }

  /**
   * Grows the files within scope by the changed inputs of the checks they select, until nothing is added: always
   * a closed set of changed files split in two disjoint parts, and the least such set when selection is monotone.
   */
  method CloseSubject(changed: seq<string>, judge: Judgement, inputs: Inputs) returns (r: Subject)
    ensures r.Refused? <==> BodyOf(changed, judge).Rejected? || BodyOf(changed, judge) == Accepted([])
    ensures BodyOf(changed, judge).Rejected? ==> r == Refused(BodyOf(changed, judge).why)
    ensures BodyOf(changed, judge) == Accepted([]) ==> r == Refused(EmptySubject)
    ensures r.Subject? ==>
              var total := r.taskPaths + r.dependencyPaths;
              && r.taskPaths == SetOf(BodyOf(changed, judge).paths) && r.taskPaths !! r.dependencyPaths
              && total <= SetOf(changed) && Closed(changed, inputs, r.taskPaths, total)
              && (Monotone(inputs) ==> Least(changed, inputs, r.taskPaths, total))
  {
    hide BodyOf, Monotone, Least;
    var taken := TakeBody(changed, judge);
    if taken.Rejected? {
      return Refused(taken.why);
    }
    if taken.paths == [] {
      return Refused(EmptySubject);
    }
    BodyChanged(changed, judge);
    var body := SetOf(taken.paths);
    var related: set<string> := {};
    var prior := body;
    BodyLeast(changed, inputs, body);
    while true
      invariant prior == body + related && prior <= SetOf(changed)
      invariant Monotone(inputs) ==> Least(changed, inputs, body, prior)
      decreases SetOf(changed) - prior
    {
      var expanded := Expanded(changed, inputs, prior);
      var newPrior := body + related + expanded;
      if newPrior == prior {
        break;
      }
      if Monotone(inputs) {
        RoundLeast(changed, inputs, body, prior);
        assert newPrior == prior + expanded;
      }
      related := related + expanded;
      prior := newPrior;
    }
    assert body + (related - body) == prior;
    return Subject(body, related - body);
  }

  lemma {:induction false} BodyLeast(changed: seq<string>, inputs: Inputs, body: set<string>)
    ensures Least(changed, inputs, body, body)
  {
  }

  /** The body is rejected exactly when some changed file is refused. */
  lemma {:induction false} RejectedIff(changed: seq<string>, judge: Judgement)
    ensures BodyOf(changed, judge).Rejected? <==> exists p :: p in changed && judge(p).Refuse?
    decreases |changed|
  {
    if changed == [] {
    } else {
      var n := |changed| - 1;
      assert changed == changed[..n] + [changed[n]];
      RejectedIff(changed[..n], judge);
      if p :| p in changed && judge(p).Refuse? {
        assert p in changed[..n] || p == changed[n];
      }
      if judge(changed[n]).Refuse? {
        assert changed[n] in changed;
      }
    }
  }

  /** The rules for one file under a scope, as the judgement of the derivation. */
  method DeriveTaskSubject(changed: seq<string>, scope: Scope, inputs: Inputs, normal: Normal) returns (r: Subject)
    ensures r.Refused? <==> (exists p :: p in changed && JudgeScope(p, scope, normal).Refuse?)
                            || forall p | p in changed :: JudgeScope(p, scope, normal) != Take
    ensures r.Subject? ==>
              var total := r.taskPaths + r.dependencyPaths;
              && (forall p :: p in r.taskPaths <==> p in changed && JudgeScope(p, scope, normal) == Take)
              && (forall p | p in changed :: !JudgeScope(p, scope, normal).Refuse?)
              && total <= SetOf(changed) && Closed(changed, inputs, r.taskPaths, total)
              && (Monotone(inputs) ==> Least(changed, inputs, r.taskPaths, total))
  {
    hide JudgeScope, Monotone, Least, Closed;
    var judge: Judgement := p => JudgeScope(p, scope, normal);
    r := CloseSubject(changed, judge, inputs);
    RejectedIff(changed, judge);
    if BodyOf(changed, judge).Accepted? {
      forall p
        ensures p in BodyOf(changed, judge).paths <==> p in changed && JudgeScope(p, scope, normal) == Take
        ensures p in changed ==> !JudgeScope(p, scope, normal).Refuse?
      {
        BodyExactly(changed, judge, p);
      }
      if BodyOf(changed, judge).paths != [] {
        assert BodyOf(changed, judge).paths[0] in changed
               && JudgeScope(BodyOf(changed, judge).paths[0], scope, normal) == Take;
      }
    }
  }
}
