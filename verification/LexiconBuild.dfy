/** The passes that build the output, with the counters and the audit they keep (_build_rows). */
module LexiconBuild {
  import opened Wrappers
  import opened Lexicon
  import opened LexiconRows

  datatype Prefilter = Prefilter(invalid: nat, phrases: nat, withoutChinese: nat, derived: nat, duplicates: nat)

  /**
   * A removed baseline row, with what else would have removed it; or an inflected row that no kept base form claims.
   */
  datatype Audit =
    | Removal(line: nat, word: string, reason: Reason, also: seq<Reason>)
    | CoverageGap(line: nat, word: string, prototypes: set<string>)

  datatype Counts = Counts(prefilter: Prefilter, baseline: nat, retained: nat, removedTotal: nat, oxfordAdded: nat,
                           derivedCovered: nat, derivedUncovered: nat)

  function PrefilterOf(base: seq<Row>): Prefilter {
    Prefilter(CountClass(base, InvalidSurface), CountClass(base, Phrase), CountClass(base, WithoutChinese),
              CountClass(base, Derived), CountClass(base, Duplicate))
  }

  function AuditOf(baseline: seq<Entry>, e: Entry): seq<Audit> {
    var reasons := RemovalReasons(baseline, e.row);
    if reasons == [] then [] else [Removal(e.line, e.row.key, reasons[0], reasons[1..])]
  }

  function Audits(baseline: seq<Entry>, upTo: nat): seq<Audit>
    requires upTo <= |baseline|
  {
    if upTo == 0 then [] else Audits(baseline, upTo - 1) + AuditOf(baseline, baseline[upTo - 1])
  }

  // ---- Inflected rows and the base forms that were kept ---------------------------------------

  /** An inflected row that could have been shown: whole, with a Chinese translation, and naming a base form. */
  predicate Inflected(r: Row) {
    r.prototypes != {} && r.validSurface && r.chinese
  }

  /** The words of the entries that claim the word. */
  function ClaimedBy(entries: seq<Entry>, word: string): set<string> {
    set e | e in entries && word in e.row.covers :: e.row.key
  }

  predicate Covered(out: seq<Entry>, r: Row) {
    r.prototypes * ClaimedBy(out, r.key) != {}
  }

  function GapsIn(base: seq<Row>, out: seq<Entry>): seq<Audit> {
    if base == [] then []
    else
      var n := |base| - 1;
      GapsIn(base[..n], out)
      + if Inflected(base[n]) && !Covered(out, base[n]) then [CoverageGap(n + 2, base[n].key, base[n].prototypes)]
          else []
  }

  function CountCovered(base: seq<Row>, out: seq<Entry>): nat {
    if base == [] then 0
    else
      var n := |base| - 1;
      CountCovered(base[..n], out) + if Inflected(base[n]) && Covered(out, base[n]) then 1 else 0
  }

  /**
   * A row is reported as a gap exactly when it is inflected and no row of the output with one of its base forms
   * claims it.
   */
  lemma {:induction false} GapsExactly(base: seq<Row>, out: seq<Entry>, n: nat)
    requires n < |base|
    ensures CoverageGap(n + 2, base[n].key, base[n].prototypes) in GapsIn(base, out)
            <==> Inflected(base[n]) && forall e | e in out && e.row.key in base[n].prototypes ::
                   base[n].key !in e.row.covers
    decreases |base|
  {
    hide Inflected;
    var last := |base| - 1;
    if n < last {
      GapsExactly(base[..last], out, n);
    } else {
      GapLines(base[..last], out);
      CoveredIff(out, base[n]);
    }
  }

  lemma {:induction false} CoveredIff(out: seq<Entry>, r: Row)
    ensures Covered(out, r) <==> exists e :: e in out && e.row.key in r.prototypes && r.key in e.row.covers
  {
    if e :| e in out && e.row.key in r.prototypes && r.key in e.row.covers {
      assert e.row.key in r.prototypes * ClaimedBy(out, r.key);
    }
    if Covered(out, r) {
      var w :| w in r.prototypes * ClaimedBy(out, r.key);
      assert w in ClaimedBy(out, r.key);
    }
  }

  lemma {:induction false} GapLines(base: seq<Row>, out: seq<Entry>)
    ensures forall a | a in GapsIn(base, out) :: a.CoverageGap? && a.line < |base| + 2
    decreases |base|
  {
    hide Inflected, Covered;
    if base == [] {
    } else {
      GapLines(base[..|base| - 1], out);
    }
  }

  function CoverageAt(coverage: map<string, set<string>>, word: string): set<string> {
    if word in coverage then coverage[word] else {}
  }

  lemma {:induction false} ClassCounted(base: seq<Row>, i: nat, class_: Class)
    requires i < |base|
    ensures CountClass(base[..i + 1], class_)
            == CountClass(base[..i], class_) + if Classify(base[i], Baseline(base[..i])) == class_ then 1 else 0
  {
    hide Classify;
    assert base[..i + 1][..i] == base[..i];
  }

  /** One pass sorts the rows into the prefilter classes and the baseline. */
  method ReadBaseline(base: seq<Row>) returns (baseline: seq<Entry>, prefilter: Prefilter)
    ensures baseline == Baseline(base) && prefilter == PrefilterOf(base)
  {
    hide CountClass;
    baseline, prefilter := [], Prefilter(0, 0, 0, 0, 0);
    NothingCounted();
    for i := 0 to |base|
      invariant baseline == Baseline(base[..i]) && prefilter == PrefilterOf(base[..i])
    {
      var row := base[i];
      assert base[..i + 1][..i] == base[..i];
      ClassCounted(base, i, InvalidSurface);
      ClassCounted(base, i, Phrase);
      ClassCounted(base, i, WithoutChinese);
      ClassCounted(base, i, Derived);
      ClassCounted(base, i, Duplicate);
      if !row.validSurface {
        prefilter := prefilter.(invalid := prefilter.invalid + 1);
      } else if row.phrase {
        prefilter := prefilter.(phrases := prefilter.phrases + 1);
      } else if !row.chinese {
        prefilter := prefilter.(withoutChinese := prefilter.withoutChinese + 1);
      } else if row.derivedMark {
        prefilter := prefilter.(derived := prefilter.derived + 1);
      } else if Holds(baseline, row.key) {
        prefilter := prefilter.(duplicates := prefilter.duplicates + 1);
      } else {
        baseline := baseline + [Physical(Ecdict, base, i)];
      }
    }
    assert base[..|base|] == base;
  }

  lemma {:induction false} NothingCounted()
    ensures forall c: Class :: CountClass([], c) == 0
  {
  }

  /** The words that mention an inflection, as a set of words. */
  method ReferenceWords(baseline: seq<Entry>) returns (words: set<string>)
    requires DistinctKeys(baseline)
    ensures forall e | e in baseline :: e.row.key in words <==> MentionsInflection(e.row)
  {
    words := {};
    for i := 0 to |baseline|
      invariant forall w | w in words :: exists k | 0 <= k < i ::
                baseline[k].row.key == w && MentionsInflection(baseline[k].row)
      invariant forall k | 0 <= k < i && MentionsInflection(baseline[k].row) :: baseline[k].row.key in words
    {
      if MentionsInflection(baseline[i].row) {
        words := words + {baseline[i].row.key};
      }
    }
  }

  /** Each safe word is entered under every inflection it claims. */
  method Coverage(baseline: seq<Entry>) returns (coverage: map<string, set<string>>, safe: set<string>)
    requires DistinctKeys(baseline)
    ensures forall w: string :: CoverageAt(coverage, w) * safe == CoveredBy(baseline, w)
  {
    hide Reasons, MentionsInflection, Protected;
    var reference := ReferenceWords(baseline);
    coverage, safe := map[], {};
    for i := 0 to |baseline|
      invariant forall w: string :: CoverageAt(coverage, w) == CoveredBy(baseline[..i], w)
      invariant forall w: string :: CoveredBy(baseline[..i], w) <= safe
    {
      var row := baseline[i].row;
      assert baseline[i] in baseline;
      assert baseline[..i + 1] == baseline[..i] + [baseline[i]];
      if Protected(row) || (row.key !in reference && Reasons(row, {}) == []) {
        safe := safe + {row.key};
        coverage := Enter(coverage, row);
        SafeCovers(baseline, i);
      } else {
        UnsafeCovers(baseline, i);
      }
    }
    assert baseline[..|baseline|] == baseline;
  }

  lemma {:induction false} SafeCovers(baseline: seq<Entry>, i: nat)
    requires i < |baseline| && Safe(baseline[i].row)
    ensures forall w: string :: CoveredBy(baseline[..i + 1], w)
                                == CoveredBy(baseline[..i], w) + if w in baseline[i].row.covers
                                    then {baseline[i].row.key} else {}
  {
    hide Safe;
    assert baseline[..i + 1] == baseline[..i] + [baseline[i]];
  }

  lemma {:induction false} UnsafeCovers(baseline: seq<Entry>, i: nat)
    requires i < |baseline| && !Safe(baseline[i].row)
    ensures forall w: string :: CoveredBy(baseline[..i + 1], w) == CoveredBy(baseline[..i], w)
  {
    hide Safe;
    assert baseline[..i + 1] == baseline[..i] + [baseline[i]];
  }

  method Enter(before: map<string, set<string>>, row: Row) returns (coverage: map<string, set<string>>)
    ensures forall w: string :: CoverageAt(coverage, w) == CoverageAt(before, w) + if w in row.covers then {row.key}
            else {}
  {
    coverage := before;
    for i := 0 to |row.covers|
      invariant forall w: string :: CoverageAt(coverage, w) == CoverageAt(before, w) + if w in row.covers[..i]
                then {row.key} else {}
    {
      var word := row.covers[i];
      assert row.covers[..i + 1] == row.covers[..i] + [word];
      coverage := coverage[word := CoverageAt(coverage, word) + {row.key}];
    }
    assert row.covers[..|row.covers|] == row.covers;
  }

  /** The filtering pass over the baseline. */
  method Filter(baseline: seq<Entry>) returns (retained: seq<Entry>, audits: seq<Audit>)
    requires DistinctKeys(baseline)
    ensures retained == Retained(baseline, |baseline|) && audits == Audits(baseline, |baseline|)
    ensures |retained| + |audits| == |baseline|
  {
    hide Reasons, CoveredBy, Protected, DistinctKeys;
    var coverage, safe := Coverage(baseline);
    retained, audits := [], [];
    for i := 0 to |baseline|
      invariant retained == Retained(baseline, i) && audits == Audits(baseline, i)
      invariant |retained| + |audits| == i
    {
      var e := baseline[i];
      var reasons: seq<Reason> := [];
      if !Protected(e.row) {
        reasons := Reasons(e.row, CoverageAt(coverage, e.row.key) * safe);
      }
      assert reasons == RemovalReasons(baseline, e.row);
      if reasons != [] {
        audits := audits + [Removal(e.line, e.row.key, reasons[0], reasons[1..])];
      } else {
        retained := retained + [e];
      }
    }
  }

  /** One more curated word: it is put in its place, or the whole selection fails. */
  lemma {:induction false} CuratedStep(retained: seq<Entry>, full: seq<Row>, curated: seq<Entry>, i: nat)
    requires i < |CURATED| && PutCurated(retained, full, CURATED[..i]) == Some(curated)
    ensures var found := FirstOf(full, CURATED[i]);
            && (found.Some? ==> PutCurated(retained, full, CURATED[..i + 1]) == Some(Put(curated, found.value)))
            && (found.None? ==> PutCurated(retained, full, CURATED).None?)
  {
    hide FirstOf, Put;
    assert CURATED[..i + 1][..i] == CURATED[..i];
    if FirstOf(full, CURATED[i]).None? {
      MissingCurated(retained, full, CURATED, i);
    }
  }

  /** One more base row: an Oxford row is added unless it is there. */
  lemma {:induction false} OxfordStep(curated: seq<Entry>, base: seq<Row>, i: nat)
    requires i < |base|
    ensures var before := AddOxford(curated, base[..i]);
            AddOxford(curated, base[..i + 1])
            == if base[i].oxford && !Physically(before, Ecdict, i + 2) then before + [Physical(Ecdict, base, i)]
               else before
  {
    hide Physically;
    assert base[..i + 1][..i] == base[..i];
  }

  /** The passes up to the Oxford rows. None stands for the error raised when a curated word is missing. */
  method SelectRows(base: seq<Row>, full: seq<Row>)
    returns (selected: Option<seq<Entry>>, counts: Counts, audits: seq<Audit>)
    ensures selected == Output(base, full)
    ensures audits == Audits(Baseline(base), |Baseline(base)|)
    ensures counts.prefilter == PrefilterOf(base) && counts.baseline == |Baseline(base)|
    ensures counts.baseline == counts.retained + counts.removedTotal && counts.removedTotal == |audits|
    ensures selected.Some? ==>
              |selected.value| == counts.oxfordAdded
                  + |PutCurated(Retained(Baseline(base), |Baseline(base)|), full, CURATED).value|
    ensures counts.derivedCovered == counts.derivedUncovered == 0
  {
    hide Baseline, Retained, CountClass, Audits, DistinctKeys, FirstOf, Put, Physically;
    var baseline, prefilter := ReadBaseline(base);
    BaselineDistinct(base);
    var retained, removed := Filter(baseline);
    counts := Counts(prefilter, |baseline|, |retained|, |removed|, 0, 0, 0);
    var curated := retained;
    assert PutCurated(retained, full, CURATED[..0]) == Some(curated);
    hide PutCurated;
    for i := 0 to |CURATED|
      invariant PutCurated(retained, full, CURATED[..i]) == Some(curated)
    {
      CuratedStep(retained, full, curated, i);
      var found := FirstOf(full, CURATED[i]);
      if found.None? {
        return None, counts, removed;
      }
      curated := Put(curated, found.value);
    }
    assert CURATED[..|CURATED|] == CURATED;
    var out := curated;
    assert AddOxford(curated, base[..0]) == out;
    hide AddOxford;
    for i := 0 to |base|
      invariant out == AddOxford(curated, base[..i])
      invariant |out| == counts.oxfordAdded + |curated|
      invariant counts == Counts(prefilter, |baseline|, |retained|, |removed|, counts.oxfordAdded, 0, 0)
    {
      OxfordStep(curated, base, i);
      if base[i].oxford && !Physically(out, Ecdict, i + 2) {
        out := out + [Physical(Ecdict, base, i)];
        counts := counts.(oxfordAdded := counts.oxfordAdded + 1);
      }
    }
    assert base[..|base|] == base;
    return Some(out), counts, removed;
  }

  /** What the kept rows claim, entered row by row. */
  method FinalCoverage(out: seq<Entry>) returns (coverage: map<string, set<string>>)
    ensures forall w: string :: CoverageAt(coverage, w) == ClaimedBy(out, w)
  {
    coverage := map[];
    for i := 0 to |out|
      invariant forall w: string :: CoverageAt(coverage, w) == ClaimedBy(out[..i], w)
    {
      ClaimedStep(out, i);
      coverage := Enter(coverage, out[i].row);
    }
    assert out[..|out|] == out;
  }

  lemma {:induction false} ClaimedStep(out: seq<Entry>, i: nat)
    requires i < |out|
    ensures forall w: string :: ClaimedBy(out[..i + 1], w)
                                == ClaimedBy(out[..i], w) + if w in out[i].row.covers then {out[i].row.key} else {}
  {
    assert out[..i + 1] == out[..i] + [out[i]];
  }

  /** The audit of inflected rows against what was really kept. */
  method AuditDerived(base: seq<Row>, out: seq<Entry>) returns (gaps: seq<Audit>, covered: nat, uncovered: nat)
    ensures gaps == GapsIn(base, out) && covered == CountCovered(base, out) && uncovered == |gaps|
  {
    hide Inflected, ClaimedBy;
    var coverage := FinalCoverage(out);
    gaps, covered, uncovered := [], 0, 0;
    for i := 0 to |base|
      invariant gaps == GapsIn(base[..i], out) && covered == CountCovered(base[..i], out) && uncovered == |gaps|
    {
      var row := base[i];
      assert base[..i + 1][..i] == base[..i];
      if !Inflected(row) {
        continue;
      }
      if row.prototypes * CoverageAt(coverage, row.key) != {} {
        covered := covered + 1;
      } else {
        uncovered := uncovered + 1;
        gaps := gaps + [CoverageGap(i + 2, row.key, row.prototypes)];
      }
    }
    assert base[..|base|] == base;
  }

  /** All passes: the sorted output, the removals and then the gaps, and the counters. */
  method BuildRows(base: seq<Row>, full: seq<Row>)
    returns (selected: Option<seq<Entry>>, counts: Counts, audits: seq<Audit>)
    ensures selected == if Output(base, full).None? then None else Some(SortEntries(Output(base, full).value))
    ensures selected.Some? ==>
              && audits == Audits(Baseline(base), |Baseline(base)|) + GapsIn(base, selected.value)
              && counts.derivedCovered == CountCovered(base, selected.value)
              && |audits| == counts.removedTotal + counts.derivedUncovered
    ensures var p := counts.prefilter;
            && p == PrefilterOf(base) && counts.baseline == |Baseline(base)|
            && p.invalid + p.phrases + p.withoutChinese + p.derived + p.duplicates + counts.baseline == |base|
            && counts.baseline == counts.retained + counts.removedTotal
  {
    hide Baseline, Retained, CountClass, Audits, Output, GapsIn, CountCovered, SortEntries;
    PrefilterConserves(base);
    selected, counts, audits := SelectRows(base, full);
    if selected.None? {
      return;
    }
    var rows := SortEntries(selected.value);
    var gaps, covered, uncovered := AuditDerived(base, rows);
    selected := Some(rows);
    audits := audits + gaps;
    counts := counts.(derivedCovered := covered, derivedUncovered := uncovered);
  }

  lemma {:induction false} BaselineDistinct(base: seq<Row>)
    ensures DistinctKeys(Baseline(base))
  {
    hide Baseline;
    forall i, j | 0 <= i < j < |Baseline(base)|
      ensures Baseline(base)[i].row.key != Baseline(base)[j].row.key
    {
      BaselineOrder(base, i, j);
    }
  }

  lemma {:induction false} MissingCurated(entries: seq<Entry>, full: seq<Row>, words: seq<string>, i: nat)
    requires i < |words| && FirstOf(full, words[i]).None?
    ensures PutCurated(entries, full, words).None?
    decreases |words|
  {
    if PutCurated(entries, full, words).Some? {
      CuratedPresent(full, entries, words, words[i]);
    }
  }
}
