/**
 * Which dictionary rows are kept, and why a removed inflection always leaves its base form behind
 * (prepare_ecdict_bundle.py).
 */
module Lexicon {
  import opened Wrappers

  // ---- Rows as the filters see them -----------------------------------------------------------

  /**
   * One line of a translation: the word named by a full inflection phrase, and whether any such phrase occurs in it.
   */
  datatype Line = Line(names: Option<string>, mentions: bool)

  /**
   * key is the trimmed lower-case word; covers lists the inflections its exchange field claims, prototypes the
   * base forms that the field names in turn. The booleans are what the fixed patterns say of the other fields.
   */
  datatype Row = Row(
    key: string, validSurface: bool, phrase: bool, chinese: bool, derivedMark: bool,
    ranked: bool, oxford: bool, tagged: bool,
    lines: seq<Line>, proper: bool, institution: bool, coldDomain: bool,
    covers: seq<string>, prototypes: set<string>)

  /** The two inflection patterns agree in one direction: what matches in full is also found by searching. */
  ghost predicate SoundPatterns(rows: seq<Row>) {
    forall r, l | r in rows && l in r.lines :: l.names.Some? ==> l.mentions
  }

  predicate Protected(r: Row) {
    r.ranked || r.oxford || r.tagged
  }

  predicate MentionsInflection(r: Row) {
    exists l | l in r.lines :: l.mentions
  }

  datatype Reason = ProperNoun | Institution | CoveredInflection | ColdDomain

  /** Every line is nothing but the inflection of another word among covered. */
  predicate OnlyReference(r: Row, covered: set<string>) {
    && r.lines != [] && covered != {}
    && forall l | l in r.lines :: l.names.Some? && l.names.value in covered && l.names.value != r.key
  }

  function Reasons(r: Row, covered: set<string>): seq<Reason> {
    (if r.proper then [ProperNoun] else [])
    + (if r.institution then [Institution] else [])
    + (if OnlyReference(r, covered) then [CoveredInflection] else [])
    + (if r.coldDomain then [ColdDomain] else [])
  }

  // ---- The baseline ---------------------------------------------------------------------------

  datatype File = Ecdict | Stardict

  /** A physical row: its file and line. */
  datatype Entry = Entry(file: File, line: nat, row: Row)

  datatype Class = InvalidSurface | Phrase | WithoutChinese | Derived | Duplicate | Kept

  predicate Holds(entries: seq<Entry>, key: string) {
    exists i | 0 <= i < |entries| :: entries[i].row.key == key
  }

  function Classify(r: Row, baseline: seq<Entry>): Class {
    if !r.validSurface then InvalidSurface
    else if r.phrase then Phrase
    else if !r.chinese then WithoutChinese
    else if r.derivedMark then Derived
    else if Holds(baseline, r.key) then Duplicate
    else Kept
  }

  /** The n-th row of a file stands on line n + 2, below the header. */
  function Physical(file: File, rows: seq<Row>, n: nat): Entry
    requires n < |rows|
  {
    Entry(file, n + 2, rows[n])
  }

  function Baseline(base: seq<Row>): seq<Entry> {
    if base == [] then []
    else
      var n := |base| - 1;
      var before := Baseline(base[..n]);
      if Classify(base[n], before) == Kept then before + [Physical(Ecdict, base, n)] else before
  }

  /** How many rows the prefilter puts in a class. */
  function CountClass(base: seq<Row>, class_: Class): nat {
    if base == [] then 0
    else
      var n := |base| - 1;
      CountClass(base[..n], class_) + if Classify(base[n], Baseline(base[..n])) == class_ then 1 else 0
  }

  // ---- Base forms that justify removing their inflections -------------------------------------

  /** Safe: protected, or neither an inflection phrase nor removable on any ground of its own. */
  predicate Safe(r: Row) {
    Protected(r) || (!MentionsInflection(r) && Reasons(r, {}) == [])
  }

  /** The safe words of the baseline whose exchange field claims the word. */
  function CoveredBy(baseline: seq<Entry>, word: string): set<string> {
    set e | e in baseline && Safe(e.row) && word in e.row.covers :: e.row.key
  }

  function RemovalReasons(baseline: seq<Entry>, r: Row): seq<Reason> {
    if Protected(r) then [] else Reasons(r, CoveredBy(baseline, r.key))
  }

  function Retained(baseline: seq<Entry>, upTo: nat): seq<Entry>
    requires upTo <= |baseline|
  {
    if upTo == 0 then []
    else
      var e := baseline[upTo - 1];
      Retained(baseline, upTo - 1) + if RemovalReasons(baseline, e.row) == [] then [e] else []
  }

  function Removed(baseline: seq<Entry>, upTo: nat): seq<Entry>
    requires upTo <= |baseline|
  {
    if upTo == 0 then []
    else
      var e := baseline[upTo - 1];
      Removed(baseline, upTo - 1) + if RemovalReasons(baseline, e.row) != [] then [e] else []
  }

  // ---- The output -----------------------------------------------------------------------------

  /** The first row of the full source for a word. */
  function FirstOf(full: seq<Row>, word: string): Option<Entry> {
    if full == [] then None
    else
      var n := |full| - 1;
      var before := FirstOf(full[..n], word);
      if before.Some? then before
      else if full[n].key == word then Some(Physical(Stardict, full, n))
      else None
  }

  /** Replaces the entry of the same word, or adds one at the end. */
  function Put(entries: seq<Entry>, e: Entry): seq<Entry> {
    if entries == [] then [e]
    else if entries[|entries| - 1].row.key == e.row.key then entries[..|entries| - 1] + [e]
    else Put(entries[..|entries| - 1], e) + [entries[|entries| - 1]]
  }

  const CURATED := ["literally", "sustainability", "stream of data"]

  function PutCurated(entries: seq<Entry>, full: seq<Row>, words: seq<string>): Option<seq<Entry>> {
    if words == [] then Some(entries)
    else
      var before, found := PutCurated(entries, full, words[..|words| - 1]), FirstOf(full, words[|words| - 1]);
      if before.None? || found.None? then None else Some(Put(before.value, found.value))
  }

  predicate Physically(entries: seq<Entry>, file: File, line: nat) {
    exists i | 0 <= i < |entries| :: entries[i].file == file && entries[i].line == line
  }

  /** Every row with the Oxford mark is kept, whatever became of its word. */
  function AddOxford(entries: seq<Entry>, base: seq<Row>): seq<Entry> {
    if base == [] then entries
    else
      var n := |base| - 1;
      var before := AddOxford(entries, base[..n]);
      if base[n].oxford && !Physically(before, Ecdict, n + 2) then before + [Physical(Ecdict, base, n)] else before
  }

  /** The output rows before sorting; None when a curated word is missing from the full source. */
  function Output(base: seq<Row>, full: seq<Row>): Option<seq<Entry>> {
    var baseline := Baseline(base);
    var curated := PutCurated(Retained(baseline, |baseline|), full, CURATED);
    if curated.None? then None else Some(AddOxford(curated.value, base))
  }

  // ---- The baseline has one row a word --------------------------------------------------------

  lemma {:induction false} BaselineAt(base: seq<Row>, i: nat)
    requires i < |Baseline(base)|
    ensures var e := Baseline(base)[i];
            e.file == Ecdict && 2 <= e.line < |base| + 2 && base[e.line - 2] == e.row
    decreases |base|
  {
    hide Classify;
    var n := |base| - 1;
    if i < |Baseline(base[..n])| {
      BaselineAt(base[..n], i);
    }
  }

  lemma {:induction false} BaselineOrder(base: seq<Row>, i: nat, j: nat)
    requires i < j < |Baseline(base)|
    ensures Baseline(base)[i].row.key != Baseline(base)[j].row.key && Baseline(base)[i].line < Baseline(base)[j].line
    decreases |base|
  {
    var n := |base| - 1;
    var before := Baseline(base[..n]);
    if j < |before| {
      BaselineOrder(base[..n], i, j);
    } else {
      BaselineAt(base[..n], i);
      assert Holds(before, before[i].row.key);
    }
  }

  /** The prefilter loses nothing: every row is in exactly one class or in the baseline. */
  lemma {:induction false} PrefilterConserves(base: seq<Row>)
    ensures CountClass(base, InvalidSurface) + CountClass(base, Phrase) + CountClass(base, WithoutChinese)
            + CountClass(base, Derived) + CountClass(base, Duplicate) + |Baseline(base)| == |base|
    decreases |base|
  {
    hide Classify;
    if base == [] {
    } else {
      PrefilterConserves(base[..|base| - 1]);
    }
  }

  /** How often x occurs in s. */
  ghost function Times<T>(s: seq<T>, x: T): nat {
    if s == [] then 0 else Times(s[..|s| - 1], x) + if s[|s| - 1] == x then 1 else 0
  }

  lemma {:induction false} TimesAppend<T>(s: seq<T>, e: T, x: T)
    ensures Times(s + [e], x) == Times(s, x) + if e == x then 1 else 0
  {
    assert (s + [e])[..|s|] == s;
  }

  lemma {:induction false} TimesJoin<T>(a: seq<T>, b: seq<T>, c: seq<T>, e: T, x: T)
    requires Times(a, x) + Times(b, x) == Times(c, x)
    ensures Times(a + [e], x) + Times(b, x) == Times(c + [e], x)
    ensures Times(a, x) + Times(b + [e], x) == Times(c + [e], x)
  {
    hide Times;
    TimesAppend(a, e, x);
    TimesAppend(b, e, x);
    TimesAppend(c, e, x);
  }

  lemma {:induction false} TimesIsMultiset<T>(s: seq<T>, x: T)
    ensures Times(s, x) == multiset(s)[x]
  {
    if s == [] {
    } else {
      var init, last := s[..|s| - 1], s[|s| - 1];
      TimesIsMultiset(init, x);
      assert s == init + [last];
    }
  }

  /** One more row: it goes to the end of exactly one of the two lists. */
  lemma {:induction false} SplitStep(baseline: seq<Entry>, upTo: nat)
    requires upTo < |baseline|
    ensures baseline[..upTo + 1] == baseline[..upTo] + [baseline[upTo]]
    ensures var keep := RemovalReasons(baseline, baseline[upTo].row) == [];
            && Retained(baseline, upTo + 1) ==
               (if keep then Retained(baseline, upTo) + [baseline[upTo]] else Retained(baseline, upTo))
            && Removed(baseline, upTo + 1) ==
               (if keep then Removed(baseline, upTo) else Removed(baseline, upTo) + [baseline[upTo]])
  {
    hide RemovalReasons;
  }

  lemma {:induction false} SplitNone(baseline: seq<Entry>, x: Entry)
    ensures Times(Retained(baseline, 0), x) == Times(Removed(baseline, 0), x) == Times(baseline[..0], x) == 0
  {
    hide RemovalReasons;
    assert baseline[..0] == [];
  }

  lemma {:induction false} SplitTimes(baseline: seq<Entry>, upTo: nat, x: Entry)
    requires upTo <= |baseline|
    ensures Times(Retained(baseline, upTo), x) + Times(Removed(baseline, upTo), x) == Times(baseline[..upTo], x)
    decreases upTo
  {
    hide *;
    if upTo == 0 {
      SplitNone(baseline, x);
    } else {
      SplitTimes(baseline, upTo - 1, x);
      SplitStep(baseline, upTo - 1);
      TimesJoin(Retained(baseline, upTo - 1), Removed(baseline, upTo - 1), baseline[..upTo - 1], baseline[upTo - 1], x);
    }
  }

  /** Every baseline row is either retained or removed. */
  lemma {:induction false} SplitConserves(baseline: seq<Entry>, upTo: nat)
    requires upTo <= |baseline|
    ensures multiset(Retained(baseline, upTo)) + multiset(Removed(baseline, upTo)) == multiset(baseline[..upTo])
  {
    hide *;
    forall x: Entry
      ensures multiset(Retained(baseline, upTo))[x] + multiset(Removed(baseline, upTo))[x]
              == multiset(baseline[..upTo])[x]
    {
      SplitTimes(baseline, upTo, x);
      TimesIsMultiset(Retained(baseline, upTo), x);
      TimesIsMultiset(Removed(baseline, upTo), x);
      TimesIsMultiset(baseline[..upTo], x);
    }
  }

  lemma {:induction false} RetainedIff(baseline: seq<Entry>, upTo: nat, e: Entry)
    requires upTo <= |baseline|
    ensures e in Retained(baseline, upTo) <==> e in baseline[..upTo] && RemovalReasons(baseline, e.row) == []
    decreases upTo
  {
    hide RemovalReasons;
    if upTo > 0 {
      RetainedIff(baseline, upTo - 1, e);
      assert baseline[..upTo] == baseline[..upTo - 1] + [baseline[upTo - 1]];
    }
  }

  // ---- No cascading removal -------------------------------------------------------------------

  /** A safe word is never itself removed: a line that could justify it would have made it a reference word. */
  lemma {:induction false} SafeStays(baseline: seq<Entry>, e: Entry)
    requires e in baseline && Safe(e.row) && forall l | l in e.row.lines :: l.names.Some? ==> l.mentions
    ensures RemovalReasons(baseline, e.row) == []
  {
    hide CoveredBy;
    assert e.row.lines != [] ==> e.row.lines[0] in e.row.lines;
  }

  // ---- What the output holds ------------------------------------------------------------------

  /** The entry is a row of one of the two files, at its line. */
  ghost predicate Genuine(e: Entry, base: seq<Row>, full: seq<Row>) {
    var rows := if e.file == Ecdict then base else full;
    2 <= e.line < |rows| + 2 && rows[e.line - 2] == e.row
  }

  ghost predicate DistinctKeys(entries: seq<Entry>) {
    forall i, j | 0 <= i < j < |entries| :: entries[i].row.key != entries[j].row.key
  }

  ghost predicate DistinctRows(entries: seq<Entry>) {
    forall i, j | 0 <= i < j < |entries| :: entries[i].file != entries[j].file || entries[i].line != entries[j].line
  }

  lemma {:induction false} PutHolds(entries: seq<Entry>, e: Entry, x: Entry)
    requires DistinctKeys(entries)
    ensures DistinctKeys(Put(entries, e))
    ensures x in Put(entries, e) <==> x == e || (x in entries && x.row.key != e.row.key)
    decreases |entries|
  {
    if entries == [] {
    } else {
      var init, last := entries[..|entries| - 1], entries[|entries| - 1];
      assert entries == init + [last];
      PutHolds(init, e, x);
      if last.row.key != e.row.key {
        forall i | 0 <= i < |Put(init, e)|
          ensures Put(init, e)[i].row.key != last.row.key
        {
          PutMembers(init, e, Put(init, e)[i]);
        }
      }
    }
  }

  lemma {:induction false} PutMembers(entries: seq<Entry>, e: Entry, x: Entry)
    requires x in Put(entries, e)
    ensures x == e || x in entries
    decreases |entries|
  {
    if entries == [] {
    } else {
      var init, last := entries[..|entries| - 1], entries[|entries| - 1];
      if last.row.key != e.row.key && x in Put(init, e) {
        PutMembers(init, e, x);
      }
    }
  }

  lemma {:induction false} FirstOfWord(full: seq<Row>, word: string)
    requires FirstOf(full, word).Some?
    ensures var e := FirstOf(full, word).value;
            e.file == Stardict && 2 <= e.line < |full| + 2 && full[e.line - 2] == e.row && e.row.key == word
    decreases |full|
  {
    var n := |full| - 1;
    if FirstOf(full[..n], word).Some? {
      FirstOfWord(full[..n], word);
    }
  }

  /** Curated words take the place of whatever was there; nothing else changes. */
  lemma {:induction false} CuratedHolds(entries: seq<Entry>, full: seq<Row>, words: seq<string>, x: Entry)
    requires DistinctKeys(entries) && PutCurated(entries, full, words).Some?
    ensures DistinctKeys(PutCurated(entries, full, words).value)
    ensures x in PutCurated(entries, full, words).value
            <==> (x in entries && x.row.key !in words) || (x.row.key in words && FirstOf(full, x.row.key) == Some(x))
    decreases |words|
  {
    if words == [] {
    } else {
      var init, word := words[..|words| - 1], words[|words| - 1];
      assert words == init + [word];
      CuratedHolds(entries, full, init, x);
      FirstOfWord(full, word);
      PutHolds(PutCurated(entries, full, init).value, FirstOf(full, word).value, x);
    }
  }

  lemma {:induction false} RetainedDistinct(base: seq<Row>, upTo: nat)
    requires upTo <= |Baseline(base)|
    ensures DistinctKeys(Retained(Baseline(base), upTo))
    decreases upTo
  {
    hide RemovalReasons, Baseline;
    if upTo == 0 {
    } else {
      var baseline := Baseline(base);
      RetainedDistinct(base, upTo - 1);
      var before := Retained(baseline, upTo - 1);
      forall i | 0 <= i < |before|
        ensures before[i].row.key != baseline[upTo - 1].row.key
      {
        RetainedIff(baseline, upTo - 1, before[i]);
        var j :| 0 <= j < upTo - 1 && baseline[j] == before[i];
        BaselineOrder(base, j, upTo - 1);
      }
    }
  }

  lemma {:induction false} SelectedGenuine(base: seq<Row>, full: seq<Row>, x: Entry)
    requires PutCurated(Retained(Baseline(base), |Baseline(base)|), full, CURATED).Some?
    requires x in PutCurated(Retained(Baseline(base), |Baseline(base)|), full, CURATED).value
    ensures Genuine(x, base, full)
  {
    hide RemovalReasons, Retained;
    var baseline := Baseline(base);
    RetainedDistinct(base, |baseline|);
    CuratedHolds(Retained(baseline, |baseline|), full, CURATED, x);
    RetainedIff(baseline, |baseline|, x);
    if x.row.key in CURATED {
      FirstOfWord(full, x.row.key);
    } else {
      var i :| 0 <= i < |baseline| && baseline[i] == x;
      BaselineAt(base, i);
    }
  }

  lemma {:induction false} GenuineDistinct(entries: seq<Entry>, base: seq<Row>, full: seq<Row>)
    requires DistinctKeys(entries) && forall x | x in entries :: Genuine(x, base, full)
    ensures DistinctRows(entries)
  {
    forall i, j | 0 <= i < j < |entries|
      ensures entries[i].file != entries[j].file || entries[i].line != entries[j].line
    {
      assert Genuine(entries[i], base, full) && Genuine(entries[j], base, full);
    }
  }

  lemma {:induction false} OxfordHolds(entries: seq<Entry>, base: seq<Row>, x: Entry)
    requires DistinctRows(entries)
    ensures DistinctRows(AddOxford(entries, base))
    ensures x in entries ==> x in AddOxford(entries, base)
    ensures x in AddOxford(entries, base) && x !in entries ==>
              x.file == Ecdict && 2 <= x.line < |base| + 2 && base[x.line - 2] == x.row && x.row.oxford
    decreases |base|
  {
    if base == [] {
    } else {
      OxfordHolds(entries, base[..|base| - 1], x);
    }
  }

  lemma {:induction false} OxfordPresent(entries: seq<Entry>, base: seq<Row>, n: nat)
    requires n < |base| && base[n].oxford
    ensures Physically(AddOxford(entries, base), Ecdict, n + 2)
    decreases |base|
  {
    var last := |base| - 1;
    var before, after := AddOxford(entries, base[..last]), AddOxford(entries, base);
    if n < last {
      OxfordPresent(entries, base[..last], n);
      var i :| 0 <= i < |before| && before[i].file == Ecdict && before[i].line == n + 2;
      assert after[i] == before[i];
    } else if !Physically(before, Ecdict, n + 2) {
      assert after[|before|].line == n + 2;
    }
  }

  // ---- The promises of the filter -------------------------------------------------------------

  /** x is kept for its own sake: a curated row, or a baseline row that nothing removes. */
  ghost predicate Chosen(base: seq<Row>, full: seq<Row>, x: Entry) {
    if x.row.key in CURATED then FirstOf(full, x.row.key) == Some(x)
    else x in Baseline(base) && RemovalReasons(Baseline(base), x.row) == []
  }

  ghost predicate OxfordRow(base: seq<Row>, x: Entry) {
    x.file == Ecdict && 2 <= x.line < |base| + 2 && base[x.line - 2] == x.row && x.row.oxford
  }

  /** The output is exactly the chosen rows and the Oxford rows, no physical row twice. */
  lemma {:induction false} OutputExactly(base: seq<Row>, full: seq<Row>, x: Entry)
    requires Output(base, full).Some?
    ensures x in Output(base, full).value <==> Chosen(base, full, x) || OxfordRow(base, x)
    ensures DistinctRows(Output(base, full).value)
  {
    hide PutCurated, AddOxford, FirstOf;
    hide RemovalReasons, Retained, Baseline;
    var baseline := Baseline(base);
    var retained := Retained(baseline, |baseline|);
    var selected, out := PutCurated(retained, full, CURATED).value, Output(base, full).value;
    RetainedDistinct(base, |baseline|);
    RetainedIff(baseline, |baseline|, x);
    CuratedHolds(retained, full, CURATED, x);
    forall y | y in selected
      ensures Genuine(y, base, full)
    {
      SelectedGenuine(base, full, y);
    }
    GenuineDistinct(selected, base, full);
    OxfordHolds(selected, base, x);
    assert baseline[..|baseline|] == baseline;
    if OxfordRow(base, x) {
      OxfordPresent(selected, base, x.line - 2);
      var i :| 0 <= i < |out| && out[i].file == Ecdict && out[i].line == x.line;
      OxfordHolds(selected, base, out[i]);
      if out[i] in selected {
        SelectedGenuine(base, full, out[i]);
      }
      assert out[i] == x;
    }
  }

  lemma {:induction false} CuratedPresent(full: seq<Row>, entries: seq<Entry>, words: seq<string>, word: string)
    requires PutCurated(entries, full, words).Some? && word in words
    ensures FirstOf(full, word).Some?
    decreases |words|
  {
    var n := |words| - 1;
    assert words == words[..n] + [words[n]];
    if word in words[..n] {
      CuratedPresent(full, entries, words[..n], word);
    }
  }

  /** A word of the baseline that nothing removes is in the output, if only by its curated row. */
  lemma {:induction false} KeptPresent(base: seq<Row>, full: seq<Row>, e: Entry)
    requires Output(base, full).Some? && e in Baseline(base) && RemovalReasons(Baseline(base), e.row) == []
    ensures Holds(Output(base, full).value, e.row.key)
  {
    hide RemovalReasons, Retained, Baseline, AddOxford, PutCurated;
    var out := Output(base, full).value;
    var x := e;
    if e.row.key in CURATED {
      var baseline := Baseline(base);
      CuratedPresent(full, Retained(baseline, |baseline|), CURATED, e.row.key);
      FirstOfWord(full, e.row.key);
      x := FirstOf(full, e.row.key).value;
    }
    OutputExactly(base, full, x);
    assert x in out && x.row.key == e.row.key;
  }

  /** Ranked, tagged and Oxford words are never lost. */
  lemma {:induction false} ProtectedPresent(base: seq<Row>, full: seq<Row>, e: Entry)
    requires Output(base, full).Some? && e in Baseline(base) && Protected(e.row)
    ensures Holds(Output(base, full).value, e.row.key)
  {
    hide Reasons, CoveredBy, Holds, Output;
    KeptPresent(base, full, e);
  }

  /** The justification of a removal: another baseline word that claims this one, is named by the line, and stays. */
  ghost predicate Justified(base: seq<Row>, full: seq<Row>, r: Row, l: Line, b: Entry)
    requires Output(base, full).Some?
  {
    && b in Baseline(base) && l.names == Some(b.row.key) && b.row.key != r.key && r.key in b.row.covers
    && RemovalReasons(Baseline(base), b.row) == [] && Holds(Output(base, full).value, b.row.key)
  }

  lemma {:induction false} Justification(base: seq<Row>, full: seq<Row>, e: Entry, l: Line) returns (b: Entry)
    requires SoundPatterns(base) && Output(base, full).Some?
    requires e in Baseline(base) && CoveredInflection in RemovalReasons(Baseline(base), e.row) && l in e.row.lines
    ensures Justified(base, full, e.row, l, b)
  {
    hide Output, Holds;
    var baseline := Baseline(base);
    assert OnlyReference(e.row, CoveredBy(baseline, e.row.key));
    assert l.names.Some? && l.names.value in CoveredBy(baseline, e.row.key);
    b :| b in baseline && Safe(b.row) && e.row.key in b.row.covers && b.row.key == l.names.value;
    var i :| 0 <= i < |baseline| && baseline[i] == b;
    BaselineAt(base, i);
    assert b.row in base;
    SafeStays(baseline, b);
    KeptPresent(base, full, b);
  }

  /**
   * No removal cascades: when a word is removed as a covered inflection, every line of its translation names
   * another word that claims it, is not itself removed, and is in the output.
   */
  lemma {:induction false} NoCascade(base: seq<Row>, full: seq<Row>, e: Entry, l: Line)
    requires SoundPatterns(base) && Output(base, full).Some?
    requires e in Baseline(base) && CoveredInflection in RemovalReasons(Baseline(base), e.row) && l in e.row.lines
    ensures exists b :: Justified(base, full, e.row, l, b)
  {
    hide Output, Justified, Baseline, RemovalReasons, SoundPatterns;
    var b := Justification(base, full, e, l);
  }
}
