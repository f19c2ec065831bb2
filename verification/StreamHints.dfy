/** What is displayed over every run: ordered, disjoint, whole-word hints over the words they were made for. */
module StreamHints {
  import opened Wrappers
  import opened Utf16
  import opened Protocol
  import opened CaptionSnapshot
  import opened OrderedKeys
  import opened Sorting
  import opened Stream

  // ---- The invariant --------------------------------------------------------------------------

  /** h shows the evidence and the exact words of hint k of an accepted answer. */
  ghost predicate FromAnswer(a: Acceptance, k: nat, t: Text, h: Hint) {
    && k < |a.body.hints|
    && ResolveHint(a.body.hints[k], a.snapshot).Some?
    && var r := ResolveHint(a.body.hints[k], a.snapshot).value;
       SameEvidence(h, r) && Slice(t, h) == Slice(SnapshotText(a.snapshot), r)
  }

  ghost predicate Sourced(accepted: seq<Acceptance>, t: Text, h: Hint) {
    exists a: nat, k: nat | a < |accepted| :: FromAnswer(accepted[a], k, t, h)
  }

  /** Sorted, disjoint, whole words, one version, and every hint over the words the server saw. */
  ghost predicate Faithful(accepted: seq<Acceptance>, t: Text, hints: seq<Hint>, word: WordUnit) {
    && Displayable(t, hints, word)
    && forall i | 0 <= i < |hints| :: Sourced(accepted, t, hints[i])
  }

  /** The answers to requests about one topic. */
  function OfTopic(accepted: seq<Acceptance>, topic: string): seq<Acceptance> {
    if accepted == [] then []
    else
      var before, last := OfTopic(accepted[..|accepted| - 1], topic), accepted[|accepted| - 1];
      if last.topic == topic then before + [last] else before
  }

  /** Every hint of the view comes from an answer that was accepted before it, to a request about its topic. */
  ghost predicate FaithfulView(accepted: seq<Acceptance>, v: View, word: WordUnit) {
    && v.answered <= |accepted|
    && if v.event.None? then v.hints == []
       else
         var r := v.event.value.request;
         Faithful(OfTopic(accepted[..v.answered], r.topic), SnapshotText(r.current), v.hints, word)
  }

  /** The accepted answers about the topic on display. */
  function Relevant(s: Coordinator): seq<Acceptance> {
    if s.current.None? then [] else OfTopic(s.accepted, s.current.value.request.topic)
  }

  /** The request in flight is one of those sent, about the topic on display. */
  ghost predicate OnTopic(s: Coordinator) {
    && (forall i | 0 <= i < |s.sent| :: s.sent[i].number == i + 1)
    && (s.active.Some? ==>
          && s.current.Some? && 1 <= s.active.value.number <= |s.sent|
          && s.sent[s.active.value.number - 1].event.request.topic == s.current.value.request.topic)
  }

  ghost predicate ShowsTruth(s: Coordinator, word: WordUnit) {
    && (s.current.None? ==> s.hints == [])
    && OnTopic(s)
    && Faithful(Relevant(s), CurrentText(s), s.hints, word)
    && forall i | 0 <= i < |s.views| :: FaithfulView(s.accepted, s.views[i], word)
  }

  // ---- Provenance -----------------------------------------------------------------------------

  lemma {:induction false} SourcedLater(accepted: seq<Acceptance>, x: Acceptance, t: Text, h: Hint)
    requires Sourced(accepted, t, h)
    ensures Sourced(accepted + [x], t, h)
  {
    var a: nat, k: nat :| a < |accepted| && FromAnswer(accepted[a], k, t, h);
    assert FromAnswer((accepted + [x])[a], k, t, h);
  }

  lemma {:induction false} FaithfulLater(accepted: seq<Acceptance>, x: Acceptance, t: Text, hints: seq<Hint>,
                                         word: WordUnit)
    requires Faithful(accepted, t, hints, word)
    ensures Faithful(accepted + [x], t, hints, word)
  {
    forall i | 0 <= i < |hints|
      ensures Sourced(accepted + [x], t, hints[i])
    {
      SourcedLater(accepted, x, t, hints[i]);
    }
  }

  lemma {:induction false} OfTopicPush(accepted: seq<Acceptance>, x: Acceptance, topic: string)
    ensures OfTopic(accepted + [x], topic)
            == if x.topic == topic then OfTopic(accepted, topic) + [x] else OfTopic(accepted, topic)
  {
    assert (accepted + [x])[..|accepted|] == accepted;
  }

  /** A view is as faithful when more answers have been accepted since. */
  lemma {:induction false} ViewLater(accepted: seq<Acceptance>, x: Acceptance, v: View, word: WordUnit)
    requires FaithfulView(accepted, v, word)
    ensures FaithfulView(accepted + [x], v, word)
  {
    hide Faithful, OfTopic;
    assert (accepted + [x])[..v.answered] == accepted[..v.answered];
  }

  lemma {:induction false} DescendsSourced(accepted: seq<Acceptance>, t: Text, prior: seq<Hint>, t': Text, h: Hint)
    requires forall i | 0 <= i < |prior| :: Sourced(accepted, t, prior[i])
    requires Descends(t, prior, t', h)
    ensures Sourced(accepted, t', h)
  {
    var i :| 0 <= i < |prior| && SameEvidence(h, prior[i]) && Slice(t', h) == Slice(t, prior[i]);
    var a: nat, k: nat :| a < |accepted| && FromAnswer(accepted[a], k, t, prior[i]);
    assert FromAnswer(accepted[a], k, t', h);
  }

  /** Scrolling keeps the display faithful: survivors still cover the words they were made for. */
  lemma {:induction false} RemapFaithful(accepted: seq<Acceptance>, t: Text, t': Text, hints: seq<Hint>, word: WordUnit)
    requires Faithful(accepted, t, hints, word)
    ensures Faithful(accepted, t', Remap(t, t', hints, word), word)
  {
    var out := Remap(t, t', hints, word);
    forall i | 0 <= i < |hints|
      ensures 0 <= hints[i].startOffset < hints[i].endOffset
    {
      assert Fits(t, hints[i], word);
    }
    RemapDisplayable(t, t', hints, word);
    forall i | 0 <= i < |out|
      ensures Sourced(accepted, t', out[i])
    {
      assert out[i] in out;
      DescendsSourced(accepted, t, hints, t', out[i]);
    }
  }

  // ---- Merging and sorting --------------------------------------------------------------------

  predicate NonEmpty(h: Hint) {
    0 <= h.startOffset < h.endOffset
  }

  ghost predicate Apart(hints: seq<Hint>) {
    && (forall i | 0 <= i < |hints| :: NonEmpty(hints[i]))
    && forall i, j | 0 <= i < j < |hints| :: !Collides(hints[i], hints[j])
  }

  ghost predicate AllOf(hints: seq<Hint>, version: int) {
    forall i | 0 <= i < |hints| :: hints[i].version == version
  }

  lemma {:induction false} MergeMembers(held: seq<Hint>, mapped: seq<Hint>, s: Snapshot, frozen: seq<Key>,
                                        version: Option<int>)
    ensures var out := Merge(held, mapped, s, frozen, version);
            && held <= out
            && forall h | h in out :: h in held || (h in mapped && !TouchesFrozen(Segments(s), frozen, h)
                && !CrossesRow(s, h))
  {
    if mapped == [] {
    } else {
      MergeMembers(held, mapped[..|mapped| - 1], s, frozen, version);
    }
  }

  lemma {:induction false} MergeApart(held: seq<Hint>, mapped: seq<Hint>, s: Snapshot, frozen: seq<Key>,
                                      version: Option<int>)
    requires Apart(held) && forall i | 0 <= i < |mapped| :: NonEmpty(mapped[i])
    ensures Apart(Merge(held, mapped, s, frozen, version))
  {
    if mapped == [] {
    } else {
      MergeApart(held, mapped[..|mapped| - 1], s, frozen, version);
    }
  }

  lemma {:induction false} MergeVersion(held: seq<Hint>, mapped: seq<Hint>, s: Snapshot, frozen: seq<Key>,
                                        version: Option<int>, v: int)
    requires AllOf(held, v) && (version == Some(v) || AllOf(mapped, v))
    ensures AllOf(Merge(held, mapped, s, frozen, version), v)
  {
    if mapped == [] {
    } else {
      MergeVersion(held, mapped[..|mapped| - 1], s, frozen, version, v);
    }
  }

  predicate EndsBefore(a: Hint, b: Hint) {
    a.endOffset <= b.startOffset
  }

  /** Sorting disjoint hints by their starts puts each one before the start of the next. */
  lemma {:induction false} SortOrdered(hints: seq<Hint>)
    requires Apart(hints)
    ensures Ordered(SortHints(hints))
    ensures multiset(SortHints(hints)) == multiset(hints)
  {
    hide Sort;
    forall i, j | 0 <= i < j < |hints|
      ensures Sided(hints[i], hints[j], StartsNoLater, EndsBefore)
    {
      assert NonEmpty(hints[i]) && NonEmpty(hints[j]) && !Collides(hints[i], hints[j]);
    }
    forall a, b, c | a in hints && b in hints && c in hints
      ensures Chains(a, b, c, EndsBefore)
    {
      assert NonEmpty(b);
    }
    SortPairwise(hints, StartsNoLater, EndsBefore);
    SortMembers(hints, StartsNoLater);
    OrderedFromPairs(SortHints(hints));
  }

  lemma {:induction false} OrderedFromPairs(hints: seq<Hint>)
    requires Pairwise(hints, EndsBefore)
    ensures Ordered(hints)
  {
    forall i, j | 0 <= i < j < |hints|
      ensures hints[i].endOffset <= hints[j].startOffset
    {
      assert EndsBefore(hints[i], hints[j]);
    }
  }

  // ---- A valid answer -------------------------------------------------------------------------

  lemma {:induction false} PresentAll(rs: seq<Option<Hint>>)
    requires forall i | 0 <= i < |rs| :: rs[i].Some?
    ensures |Present(rs)| == |rs|
    ensures forall i | 0 <= i < |rs| :: Present(rs)[i] == rs[i].value
  {
    if rs == [] {
    } else {
      var init := rs[..|rs| - 1];
      PresentAll(init);
      assert Present(rs) == Present(init) + [rs[|rs| - 1].value];
    }
  }

  /** The hints of a valid answer, seen in the snapshot it was asked for. */
  lemma {:induction false} ResolvedSound(x: Acceptance, evidence: Evidence)
    requires GoodHints(x.body.hints, x.snapshot, evidence)
    ensures var rs := Resolved(x.body.hints, x.snapshot);
            && (forall i | 0 <= i < |rs| :: NonEmpty(rs[i]))
            && Ordered(rs) && OneVersion(rs)
            && forall i | 0 <= i < |rs| :: Sourced([x], SnapshotText(x.snapshot), rs[i])
  {
    var hints, rs := x.body.hints, Resolved(x.body.hints, x.snapshot);
    var all := Resolutions(hints, x.snapshot);
    PresentAll(all);
    forall i | 0 <= i < |rs|
      ensures NonEmpty(rs[i]) && rs[i].version == hints[i].hint.version
      ensures Sourced([x], SnapshotText(x.snapshot), rs[i])
    {
      ResolveHintMeaning(x.snapshot.captions, 0, hints[i]);
      assert FromAnswer([x][0], i, SnapshotText(x.snapshot), rs[i]);
    }
    forall i, j | 0 <= i < j < |rs|
      ensures rs[i].endOffset <= rs[j].startOffset
    {
      assert all[i] == Some(rs[i]) && all[j] == Some(rs[j]);
    }
  }

  lemma {:induction false} SourcedWider(accepted: seq<Acceptance>, x: Acceptance, t: Text, h: Hint)
    requires Sourced([x], t, h)
    ensures Sourced(accepted + [x], t, h)
  {
    var a: nat, k: nat :| a < |[x]| && FromAnswer([x][a], k, t, h);
    assert FromAnswer((accepted + [x])[|accepted|], k, t, h);
  }

  /** The mapped hints of an answer, seen in the caption of now. */
  lemma {:induction false} MappedSound(accepted: seq<Acceptance>, x: Acceptance, t: Text, word: WordUnit,
                                       evidence: Evidence)
    requires GoodHints(x.body.hints, x.snapshot, evidence)
    ensures Faithful(accepted + [x], t, Remap(SnapshotText(x.snapshot), t, Resolved(x.body.hints, x.snapshot), word),
            word)
  {
    var asked, rs := SnapshotText(x.snapshot), Resolved(x.body.hints, x.snapshot);
    ResolvedSound(x, evidence);
    forall i | 0 <= i < |rs|
      ensures Sourced(accepted + [x], asked, rs[i])
    {
      SourcedWider(accepted, x, asked, rs[i]);
    }
    RemapDisplayable(asked, t, rs, word);
    var out := Remap(asked, t, rs, word);
    forall i | 0 <= i < |out|
      ensures Sourced(accepted + [x], t, out[i])
    {
      assert out[i] in out;
      DescendsSourced(accepted + [x], asked, rs, t, out[i]);
    }
  }

  /** Adding faithful hints to a faithful display, then sorting, gives a faithful display. */
  lemma {:induction false} MergeFaithful(accepted: seq<Acceptance>, t: Text, held: seq<Hint>, mapped: seq<Hint>,
                                         s: Snapshot, frozen: seq<Key>, word: WordUnit)
    requires Faithful(accepted, t, held, word) && Faithful(accepted, t, mapped, word)
    ensures var version := if held == [] then None else Some(held[0].version);
            Faithful(accepted, t, SortHints(Merge(held, mapped, s, frozen, version)), word)
  {
    var version := if held == [] then None else Some(held[0].version);
    var merged := Merge(held, mapped, s, frozen, version);
    forall i | 0 <= i < |held|
      ensures NonEmpty(held[i])
    {
      assert Fits(t, held[i], word);
    }
    forall i | 0 <= i < |mapped|
      ensures NonEmpty(mapped[i])
    {
      assert Fits(t, mapped[i], word);
    }
    MergeMembers(held, mapped, s, frozen, version);
    MergeApart(held, mapped, s, frozen, version);
    SortOrdered(merged);
    var v := if held != [] then held[0].version else if mapped != [] then mapped[0].version else 0;
    MergeVersion(held, mapped, s, frozen, version, v);
    SortedFaithful(accepted, t, held, mapped, merged, word, v);
  }

  lemma {:induction false} SortedFaithful(accepted: seq<Acceptance>, t: Text, held: seq<Hint>, mapped: seq<Hint>,
                                          merged: seq<Hint>, word: WordUnit, v: int)
    requires Faithful(accepted, t, held, word) && Faithful(accepted, t, mapped, word)
    requires forall h | h in merged :: h in held || h in mapped
    requires Ordered(SortHints(merged)) && multiset(SortHints(merged)) == multiset(merged) && AllOf(merged, v)
    ensures Faithful(accepted, t, SortHints(merged), word)
  {
    var sorted := SortHints(merged);
    forall i | 0 <= i < |sorted|
      ensures Fits(t, sorted[i], word) && Sourced(accepted, t, sorted[i]) && sorted[i].version == v
    {
      SortHolds(merged, StartsNoLater, sorted[i]);
      assert sorted[i] in sorted;
      if sorted[i] in held {
        var j :| 0 <= j < |held| && held[j] == sorted[i];
        assert Fits(t, held[j], word) && Sourced(accepted, t, held[j]);
      } else {
        var j :| 0 <= j < |mapped| && mapped[j] == sorted[i];
        assert Fits(t, mapped[j], word) && Sourced(accepted, t, mapped[j]);
      }
    }
  }

  // ---- Every step keeps it --------------------------------------------------------------------

  /** s' shows the same caption and hints as s and publishes them once more at most. */
  lemma {:induction false} PublishKeeps(s: Coordinator, state: ViewState, debugEvent: Option<Event>,
                                        failure: Option<RuntimeFailure>, word: WordUnit)
    requires ShowsTruth(s, word)
    ensures ShowsTruth(Publish(s, state, debugEvent, failure), word)
  {
    hide Faithful, OfTopic;
    var t := Publish(s, state, debugEvent, failure);
    assert CurrentText(t) == CurrentText(s) && Relevant(t) == Relevant(s);
    assert s.accepted[..|s.accepted|] == s.accepted;
  }

  /** What is displayed when a caption arrives: the old hints, migrated, unless the stream starts over. */
  lemma {:induction false} ArrivedDisplay(s: Coordinator, e: Event, word: WordUnit)
    ensures var a, base := Arrived(s, e, word), Rebased(s, e).hints;
            && a.current == Some(e) && a.accepted == s.accepted && a.views == s.views && a.sent == s.sent
            && (a.active.None? || (a.active == s.active && !ResetNeeded(s, e)))
            && a.hints == Remap(CurrentText(s), SnapshotText(e.request.current), base, word)
            && base == if ResetNeeded(s, e) then [] else s.hints
  {
  }

  lemma {:induction false} PublishedShows(s: Coordinator, word: WordUnit)
    requires ShowsTruth(s, word)
    ensures ShowsTruth(Schedule(Publish(s, Status(s), None, None)), word)
  {
    PublishKeeps(s, Status(s), None, None, word);
    SameDisplay(Publish(s, Status(s), None, None), Schedule(Publish(s, Status(s), None, None)), word);
  }

  lemma {:induction false} SubmitShows(s: Coordinator, e: Event, cfg: Config)
    requires ShowsTruth(s, cfg.word)
    ensures ShowsTruth(Submit(s, e, cfg.word), cfg.word)
  {
    hide Remap;
    if e.sequence > s.latestSequence {
      ArrivedDisplay(s, e, cfg.word);
      var base, a := Rebased(s, e).hints, Arrived(s, e, cfg.word);
      hide OfTopic, Displayable, Sourced;
      if base == [] {
        NoneFaithful(Relevant(a), CurrentText(s), cfg.word);
      } else {
        assert Relevant(a) == Relevant(s);
      }
      RemapFaithful(Relevant(a), CurrentText(s), SnapshotText(e.request.current), base, cfg.word);
      ArrivedShows(s, a, e, base, cfg.word);
      PublishedShows(Arrived(s, e, cfg.word), cfg.word);
    }
  }

  lemma {:induction false} NoneFaithful(accepted: seq<Acceptance>, t: Text, word: WordUnit)
    ensures Faithful(accepted, t, [], word)
  {
  }

  lemma {:induction false} ArrivedShows(s: Coordinator, a: Coordinator, e: Event, base: seq<Hint>, word: WordUnit)
    requires ShowsTruth(s, word)
    requires a.current == Some(e) && a.accepted == s.accepted && a.views == s.views && a.sent == s.sent
    requires a.active.None? || (a.active == s.active && !ResetNeeded(s, e))
    requires a.hints == Remap(CurrentText(s), SnapshotText(e.request.current), base, word)
    requires Faithful(Relevant(a), SnapshotText(e.request.current), a.hints, word)
    ensures ShowsTruth(a, word)
  {
    hide Faithful, OfTopic, Remap;
  }

  /** Timers, rows and requests are no part of what is displayed. */
  lemma {:induction false} SameDisplay(s: Coordinator, t: Coordinator, word: WordUnit)
    requires ShowsTruth(s, word)
    requires t.current == s.current && t.hints == s.hints && t.views == s.views && t.accepted == s.accepted
    requires t.sent == s.sent && (t.active.None? || t.active == s.active)
    ensures ShowsTruth(t, word)
  {
    hide Faithful, OfTopic;
    assert CurrentText(t) == CurrentText(s) && Relevant(t) == Relevant(s);
  }

  /** The request sent by the timer is the next one, about the topic on display. */
  lemma {:induction false} FireShows(s: Coordinator, word: WordUnit)
    requires ShowsTruth(s, word)
    ensures ShowsTruth(Fire(s), word)
  {
    hide Faithful, OfTopic;
    var t := Fire(s);
    assert CurrentText(t) == CurrentText(s) && Relevant(t) == Relevant(s);
  }

  lemma {:induction false} ClearShows(s: Coordinator, sequence: nat, cfg: Config)
    requires ShowsTruth(s, cfg.word)
    ensures ShowsTruth(Clear(s, sequence), cfg.word)
  {
    hide OfTopic;
  }

  lemma {:induction false} AbsorbedShows(s: Coordinator, d: Dispatch, body: Response, cfg: Config)
    requires ShowsTruth(s, cfg.word) && s.current.Some?
    requires d.event.request.topic == s.current.value.request.topic
    requires Answers(body, d.event.request, cfg.evidence)
    ensures ShowsTruth(Absorbed(s, d, body, cfg.word), cfg.word)
  {
    hide OfTopic, Faithful, Merge, SortHints, Remap;
    var x := Acceptance(d.event.request.topic, d.event.request.current, body);
    OfTopicPush(s.accepted, x, x.topic);
    FaithfulLater(Relevant(s), x, CurrentText(s), s.hints, cfg.word);
    MappedSound(Relevant(s), x, CurrentText(s), cfg.word, cfg.evidence);
    MergeFaithful(Relevant(s) + [x], CurrentText(s), s.hints, Mapped(s, d, body, cfg.word),
                  s.current.value.request.current, s.frozen, cfg.word);
    AbsorbedDisplay(s, Absorbed(s, d, body, cfg.word), x, cfg.word);
  }

  lemma {:induction false} AbsorbedDisplay(s: Coordinator, a: Coordinator, x: Acceptance, word: WordUnit)
    requires ShowsTruth(s, word) && s.current.Some?
    requires a.current == s.current && a.views == s.views && a.accepted == s.accepted + [x]
    requires a.sent == s.sent && a.active.None?
    requires Faithful(Relevant(a), CurrentText(s), a.hints, word)
    ensures ShowsTruth(a, word)
  {
    hide Faithful, OfTopic, FaithfulView;
    assert CurrentText(a) == CurrentText(s);
    forall i | 0 <= i < |a.views|
      ensures FaithfulView(a.accepted, a.views[i], word)
    {
      ViewLater(s.accepted, x, s.views[i], word);
    }
  }

  lemma {:induction false} SealedShows(s: Coordinator, word: WordUnit)
    requires ShowsTruth(s, word) && s.current.Some?
    ensures ShowsTruth(Sealed(s), word)
  {
    var sealed := s.(frozen := AddAll(s.frozen, OlderRows(s.current.value.request.current)));
    SameDisplay(s, sealed, word);
    PublishKeeps(sealed, Status(sealed), None, None, word);
  }

  /** An answer that is taken answers a request about the topic on display. */
  lemma {:induction false} TakenOnTopic(s: Coordinator, i: nat)
    requires OnTopic(s) && i < |s.sent| && !Late(s, s.sent[i])
    ensures s.sent[i].event.request.topic == s.current.value.request.topic
  {
  }

  lemma {:induction false} TakenShows(s: Coordinator, d: Dispatch, body: Response, cfg: Config)
    requires ShowsTruth(s, cfg.word) && s.current.Some? && Answers(body, d.event.request, cfg.evidence)
    requires d.event.request.topic == s.current.value.request.topic
    ensures var a := Absorbed(s, d, body, cfg.word);
            a.current.Some? && ShowsTruth(Schedule(Sealed(Publish(a, Status(a), Some(d.event), None))), cfg.word)
  {
    var a := Absorbed(s, d, body, cfg.word);
    AbsorbedShows(s, d, body, cfg);
    hide ShowsTruth, Absorbed, Answers, Sealed;
    var published := Publish(a, Status(a), Some(d.event), None);
    PublishKeeps(a, Status(a), Some(d.event), None, cfg.word);
    SealedShows(published, cfg.word);
    SameDisplay(Sealed(published), Schedule(Sealed(published)), cfg.word);
  }

  lemma {:induction false} FailedShows(s: Coordinator, reason: Reason, word: WordUnit)
    requires ShowsTruth(s, word)
    ensures ShowsTruth(Failed(s, reason), word)
  {
    hide ShowsTruth;
    SameDisplay(s, s.(active := None), word);
    PublishKeeps(s.(active := None), Fallback, None, Some(FailureOf(reason)), word);
  }

  lemma {:induction false} AcceptShows(s: Coordinator, i: nat, result: Result, cfg: Config)
    requires ShowsTruth(s, cfg.word) && i < |s.sent|
    ensures ShowsTruth(Accept(s, s.sent[i], result, cfg), cfg.word)
  {
    var d := s.sent[i];
    assert OnTopic(s);
    hide ShowsTruth, Answers, OnTopic, Absorbed, Sealed, Failed, Schedule, Publish;
    if !Late(s, d) {
      TakenOnTopic(s, i);
      if result.Success? && Answers(result.body, d.event.request, cfg.evidence) {
        TakenShows(s, d, result.body, cfg);
      } else {
        FailedShows(s, if result.Failure? then result.reason else InvalidResponse, cfg.word);
      }
    }
  }

  lemma {:induction false} StepShows(s: Coordinator, input: Input, cfg: Config)
    requires ShowsTruth(s, cfg.word)
    ensures ShowsTruth(Step(s, input, cfg), cfg.word)
  {
    match input
    case DoSubmit(e) => SubmitShows(s, e, cfg);
    case DoClear(n) => ClearShows(s, n, cfg);
    case DoFire => FireShows(s, cfg.word);
    case DoAnswer(i, result) =>
      if i < |s.sent| {
        AcceptShows(s, i, result, cfg);
      }
  }

  /**
   * Every view of every run is faithful: its hints are sorted, disjoint, non-empty, inside the caption,
   * on word boundaries and of one version, and each covers exactly the words it covered in the request
   * that produced it, through any number of scrolls; that request was about the topic of the view, and its
   * answer was accepted before the view.
   */
  lemma {:induction false} EveryViewFaithful(inputs: seq<Input>, cfg: Config)
    ensures ShowsTruth(Run(Initial(), inputs, cfg), cfg.word)
  {
    if inputs == [] {
    } else {
      EveryViewFaithful(inputs[..|inputs| - 1], cfg);
      StepShows(Run(Initial(), inputs[..|inputs| - 1], cfg), inputs[|inputs| - 1], cfg);
    }
  }

  // ---- What one step does to a held hint ------------------------------------------------------

  /**
   * An answer never moves or removes a held hint, and adds only hints that it brought itself, that
   * touch no sealed row and stay within one row.
   */
  lemma {:induction false} AcceptKeepsHeld(s: Coordinator, d: Dispatch, result: Result, cfg: Config)
    requires ShowsTruth(s, cfg.word)
    ensures var after := Accept(s, d, result, cfg).hints;
            && (forall h | h in s.hints :: h in after)
            && forall h | h in after && h !in s.hints ::
                 && s.current.Some? && result.Success? && h in Mapped(s, d, result.body, cfg.word)
                 && !TouchesFrozen(CurrentSegments(s), s.frozen, h)
                 && !CrossesRow(s.current.value.request.current, h)
  {
    hide ShowsTruth, Answers, Absorbed, Mapped, TouchesFrozen, CrossesRow;
    if !Late(s, d) && result.Success? && Answers(result.body, d.event.request, cfg.evidence) {
      AbsorbedKeepsHeld(s, d, result.body, cfg);
    }
  }

  lemma {:induction false} AbsorbedKeepsHeld(s: Coordinator, d: Dispatch, body: Response, cfg: Config)
    requires ShowsTruth(s, cfg.word) && s.current.Some? && Answers(body, d.event.request, cfg.evidence)
    ensures var after := Absorbed(s, d, body, cfg.word).hints;
            && (forall h | h in s.hints :: h in after)
            && forall h | h in after && h !in s.hints ::
                 && h in Mapped(s, d, body, cfg.word)
                 && !TouchesFrozen(CurrentSegments(s), s.frozen, h)
                 && !CrossesRow(s.current.value.request.current, h)
  {
    hide TouchesFrozen, CrossesRow, FromAnswer;
    var shown, mapped := s.current.value.request.current, Mapped(s, d, body, cfg.word);
    var merged := Merge(s.hints, mapped, shown, s.frozen, HeldVersion(s));
    MappedSound([], Acceptance(d.event.request.topic, d.event.request.current, body), CurrentText(s), cfg.word,
        cfg.evidence);
    forall i | 0 <= i < |mapped|
      ensures NonEmpty(mapped[i])
    {
      assert Fits(CurrentText(s), mapped[i], cfg.word);
    }
    forall i | 0 <= i < |s.hints|
      ensures NonEmpty(s.hints[i])
    {
      assert Fits(CurrentText(s), s.hints[i], cfg.word);
    }
    MergeMembers(s.hints, mapped, shown, s.frozen, HeldVersion(s));
    MergeApart(s.hints, mapped, shown, s.frozen, HeldVersion(s));
    SortOrdered(merged);
    forall h: Hint
      ensures h in SortHints(merged) <==> h in merged
    {
      SortHolds(merged, StartsNoLater, h);
    }
  }

  function Shifted(h: Hint, removed: int): Hint {
    h.(startOffset := h.startOffset - removed, endOffset := h.endOffset - removed)
  }

  /** The shifted hint is in the migrated list only if the hint itself could move. */
  lemma {:induction false} MigratedIffMovable(t: Text, t': Text, hints: seq<Hint>, i: nat, word: WordUnit)
    requires i < |hints|
    ensures Shifted(hints[i], |t| - RetainedOverlap(t, t')) in Remap(t, t', hints, word)
            <==> RemapOne(t, t', hints[i], word).Some?
  {
    var out := Remap(t, t', hints, word);
    var moved := Shifted(hints[i], |t| - RetainedOverlap(t, t'));
    if RemapOne(t, t', hints[i], word).Some? {
      RemapComplete(t, t', hints, word, i);
    }
    if moved in out {
      var from := RemapSources(t, t', hints, word);
      var k :| 0 <= k < |out| && out[k] == moved;
      SameShift(t, t', hints[from[k]], hints[i], word);
    }
  }

  lemma {:induction false} SameShift(t: Text, t': Text, g: Hint, h: Hint, word: WordUnit)
    requires RemapOne(t, t', g, word) == Some(Shifted(h, |t| - RetainedOverlap(t, t')))
    ensures g == h
  {
  }

  ghost predicate Survives(t: Text, t': Text, h: Hint, word: WordUnit) {
    var overlap := RetainedOverlap(t, t');
    |t| - overlap <= h.startOffset && !(h.endOffset == |t| && WordAt(t', overlap, word))
  }

  lemma {:induction false} MigratedIffSurvives(t: Text, t': Text, hints: seq<Hint>, i: nat, word: WordUnit)
    requires i < |hints| && Fits(t, hints[i], word)
    ensures Shifted(hints[i], |t| - RetainedOverlap(t, t')) in Remap(t, t', hints, word)
            <==> Survives(t, t', hints[i], word)
  {
    RemapSurvival(t, t', hints[i], word);
    MigratedIffMovable(t, t', hints, i, word);
  }

  /**
   * Exact survival across a submit without reset: a held hint is still shown, shifted by the removed
   * prefix, exactly when it starts beyond that prefix and, if it ended the old caption, no word unit
   * now follows it.
   */
  lemma {:induction false} SubmitSurvival(s: Coordinator, e: Event, i: nat, word: WordUnit)
    requires i < |s.hints| && Fits(CurrentText(s), s.hints[i], word)
    requires e.sequence > s.latestSequence && !ResetNeeded(s, e)
    ensures SurvivesIn(CurrentText(s), CurrentText(Submit(s, e, word)), s.hints[i], Submit(s, e, word).hints, word)
  {
    SubmitHints(s, e, word);
    SurvivalIn(CurrentText(s), CurrentText(Submit(s, e, word)), s.hints, i, word);
  }

  /** The shifted hint is in the new list exactly when the hint survives. */
  ghost predicate SurvivesIn(t: Text, t': Text, h: Hint, after: seq<Hint>, word: WordUnit) {
    Shifted(h, |t| - RetainedOverlap(t, t')) in after <==> Survives(t, t', h, word)
  }

  lemma {:induction false} SurvivalIn(t: Text, t': Text, hints: seq<Hint>, i: nat, word: WordUnit)
    requires i < |hints| && Fits(t, hints[i], word)
    ensures SurvivesIn(t, t', hints[i], Remap(t, t', hints, word), word)
  {
    MigratedIffSurvives(t, t', hints, i, word);
  }

  lemma {:induction false} SubmitDisplay(s: Coordinator, e: Event, word: WordUnit)
    requires e.sequence > s.latestSequence
    ensures Submit(s, e, word).hints == Arrived(s, e, word).hints
            && Submit(s, e, word).current == Arrived(s, e, word).current
  {
  }

  lemma {:induction false} SubmitHints(s: Coordinator, e: Event, word: WordUnit)
    requires e.sequence > s.latestSequence && !ResetNeeded(s, e)
    ensures Submit(s, e, word).hints == Remap(CurrentText(s), CurrentText(Submit(s, e, word)), s.hints, word)
  {
    SubmitDisplay(s, e, word);
    ArrivedDisplay(s, e, word);
  }
}
