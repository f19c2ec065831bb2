/** The order of the output and the row map that names the source of every output line (_build_rows, _serialize). */
module LexiconRows {
  import opened Decimals
  import opened Lexicon
  import opened Sorting

  // ---- The order ------------------------------------------------------------------------------

  predicate TextBefore(a: string, b: string) {
    b != [] && (a == [] || a[0] < b[0] || (a[0] == b[0] && TextBefore(a[1..], b[1..])))
  }

  /** By word, then file name, then line. */
  predicate Before(a: Entry, b: Entry) {
    if a.row.key != b.row.key then TextBefore(a.row.key, b.row.key)
    else if a.file != b.file then a.file == Ecdict
    else a.line < b.line
  }

  lemma {:induction false} TextTotal(a: string, b: string)
    ensures TextBefore(a, b) || TextBefore(b, a) || a == b
    ensures !(TextBefore(a, b) && TextBefore(b, a)) && !TextBefore(a, a)
    decreases |a|
  {
    if a != [] && b != [] && a[0] == b[0] {
      TextTotal(a[1..], b[1..]);
      assert a == [a[0]] + a[1..] && b == [b[0]] + b[1..];
    }
    if a != [] {
      TextTotal(a[1..], a[1..]);
    }
  }

  lemma {:induction false} TextTransitive(a: string, b: string, c: string)
    requires TextBefore(a, b) && TextBefore(b, c)
    ensures TextBefore(a, c)
    decreases |a|
  {
    if a != [] && a[0] == b[0] == c[0] {
      TextTransitive(a[1..], b[1..], c[1..]);
    }
  }

  lemma {:induction false} BeforeTotal(a: Entry, b: Entry)
    requires a.file != b.file || a.line != b.line
    ensures Before(a, b) != Before(b, a)
  {
    TextTotal(a.row.key, b.row.key);
  }

  lemma {:induction false} BeforeTransitive(a: Entry, b: Entry, c: Entry)
    requires Before(a, b) && Before(b, c)
    ensures Before(a, c)
  {
    TextTotal(a.row.key, b.row.key);
    TextTotal(b.row.key, c.row.key);
    if a.row.key != b.row.key && b.row.key != c.row.key {
      TextTransitive(a.row.key, b.row.key, c.row.key);
    }
  }

  ghost predicate Ordered(entries: seq<Entry>) {
    forall i, j | 0 <= i < j < |entries| :: Before(entries[i], entries[j])
  }

  function SortEntries(entries: seq<Entry>): seq<Entry> {
    Sort(entries, Before)
  }

  /** The output is sorted into one strict order, and sorting neither loses nor adds a row. */
  lemma {:induction false} SortCorrect(entries: seq<Entry>)
    requires DistinctRows(entries)
    ensures Ordered(SortEntries(entries)) && multiset(SortEntries(entries)) == multiset(entries)
  {
    hide Before, Sort;
    forall i, j | 0 <= i < j < |entries|
      ensures Sided(entries[i], entries[j], Before, Before)
    {
      BeforeTotal(entries[i], entries[j]);
    }
    forall a, b, c | a in entries && b in entries && c in entries
      ensures Chains(a, b, c, Before)
    {
      if Before(a, b) && Before(b, c) {
        BeforeTransitive(a, b, c);
      }
    }
    SortPairwise(entries, Before, Before);
    SortMembers(entries, Before);
  }

  // ---- The row map ----------------------------------------------------------------------------

  /** A line number, marked when it is one of the full source. */
  function Marker(e: Entry): string {
    if e.file == Ecdict then Decimal(e.line) else "s:" + Decimal(e.line)
  }

  lemma {:induction false} DecimalDigits(n: nat)
    ensures |Decimal(n)| > 0 && '0' <= Decimal(n)[0] <= '9'
    decreases n
  {
    if n >= 10 {
      DecimalDigits(n / 10);
    }
  }

  /** A marker identifies the physical row it was made for. */
  lemma {:induction false} MarkerIdentifies(a: Entry, b: Entry)
    ensures Marker(a) == Marker(b) ==> a.file == b.file && a.line == b.line
  {
    hide Decimal;
    DecimalDigits(a.line);
    DecimalDigits(b.line);
    assert a.file == Ecdict ==> Marker(a)[0] != 's';
    assert b.file == Ecdict ==> Marker(b)[0] != 's';
    assert ("s:" + Decimal(a.line))[2..] == Decimal(a.line);
    assert ("s:" + Decimal(b.line))[2..] == Decimal(b.line);
    if Decimal(a.line) == Decimal(b.line) {
      DecimalInjective(a.line, b.line);
    }
  }

  lemma {:induction false} SamePlace(entries: seq<Entry>, a: Entry, b: Entry)
    requires DistinctRows(entries) && a in entries && b in entries
    ensures a.file == b.file && a.line == b.line ==> a == b
  {
    var p :| 0 <= p < |entries| && entries[p] == a;
    var q :| 0 <= q < |entries| && entries[q] == b;
    assert p == q || a.file != b.file || a.line != b.line;
  }

  /** One marker an output line, in order. */
  method Serialize(rows: seq<Entry>) returns (markers: seq<string>)
    ensures |markers| == |rows| && forall i | 0 <= i < |rows| :: markers[i] == Marker(rows[i])
  {
    markers := [];
    for i := 0 to |rows|
      invariant |markers| == i && forall k | 0 <= k < i :: markers[k] == Marker(rows[k])
    {
      var row := rows[i];
      var marker := if row.file == Ecdict then Decimal(row.line) else "s:" + Decimal(row.line);
      markers := markers + [marker];
    }
  }

  /** The sorted output holds exactly the rows that were selected, and no two of its lines get the same marker. */
  lemma {:induction false} RowMapFaithful(base: seq<Row>, full: seq<Row>, i: nat, j: nat)
    requires Output(base, full).Some?
    requires i < j < |SortEntries(Output(base, full).value)|
    ensures var rows := SortEntries(Output(base, full).value);
            && multiset(rows) == multiset(Output(base, full).value)
            && Before(rows[i], rows[j]) && Marker(rows[i]) != Marker(rows[j])
  {
    hide Before, Marker, Output;
    var out, rows := Output(base, full).value, SortEntries(Output(base, full).value);
    OutputExactly(base, full, rows[i]);
    SortCorrect(out);
    NotBeforeItself(rows[i]);
    MarkerIdentifies(rows[i], rows[j]);
    assert rows[i] in multiset(out) && rows[j] in multiset(out);
    SamePlace(out, rows[i], rows[j]);
  }

  lemma {:induction false} NotBeforeItself(e: Entry)
    ensures !Before(e, e)
  {
  }
}
