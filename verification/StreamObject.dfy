/** The coordinator object: fields updated in place, each callback equal to its step of the machine. */
module StreamObject {
  import opened Wrappers
  import opened Utf16
  import opened Protocol
  import opened CaptionSnapshot
  import opened OrderedKeys
  import opened Stream

  // ---- Loops over key lists -------------------------------------------------------------------

  lemma {:induction false} OutsideStep(keys: seq<Key>, i: nat, excluded: set<Key>)
    requires i < |keys|
    ensures Outside(keys[..i + 1], excluded)
            == if keys[i] in excluded then Outside(keys[..i], excluded) else Outside(keys[..i], excluded) + [keys[i]]
  {
    assert keys[..i + 1][..i] == keys[..i];
  }

  lemma {:induction false} AddAllOne(keys: seq<Key>, more: seq<Key>, k: Key)
    ensures AddAll(keys, more + [k]) == Add(AddAll(keys, more), k)
  {
    assert (more + [k])[..|more|] == more;
  }

  lemma {:induction false} AddAllAppend(keys: seq<Key>, a: seq<Key>, b: seq<Key>)
    ensures AddAll(keys, a + b) == AddAll(AddAll(keys, a), b)
  {
    if b == [] {
      assert a + b == a;
    } else {
      var init := b[..|b| - 1];
      AddAllAppend(keys, a, init);
      assert a + b == a + init + [b[|b| - 1]];
      AddAllOne(keys, a + init, b[|b| - 1]);
    }
  }

  method AddOutside(keys: seq<Key>, candidates: seq<Key>, excluded: set<Key>) returns (r: seq<Key>)
    ensures r == AddAll(keys, Outside(candidates, excluded))
  {
    r := keys;
    for i := 0 to |candidates|
      invariant r == AddAll(keys, Outside(candidates[..i], excluded))
    {
      OutsideStep(candidates, i, excluded);
      if candidates[i] !in excluded {
        AddAllOne(keys, Outside(candidates[..i], excluded), candidates[i]);
        r := Add(r, candidates[i]);
      }
    }
    assert candidates[..|candidates|] == candidates;
  }

  method AddEach(keys: seq<Key>, more: seq<Key>) returns (r: seq<Key>)
    ensures r == AddAll(keys, more)
  {
    r := keys;
    for i := 0 to |more|
      invariant r == AddAll(keys, more[..i])
    {
      assert more[..i + 1] == more[..i] + [more[i]];
      AddAllOne(keys, more[..i], more[i]);
      r := Add(r, more[i]);
    }
    assert more[..|more|] == more;
  }

  method EvictOldest(keys: seq<Key>) returns (r: seq<Key>)
    ensures r == Evict(keys)
  {
    r := keys;
    while |r| > MAX_FINALIZED
      invariant |r| <= |keys| && r == keys[|keys| - |r|..]
      invariant |keys| > MAX_FINALIZED ==> |r| >= MAX_FINALIZED
      invariant |keys| <= MAX_FINALIZED ==> r == keys
    {
      r := r[1..];
    }
  }

  // ---- Scanning the rows under a hint ---------------------------------------------------------

  lemma {:induction false} RowsAt(groups: seq<Group>)
    ensures |Rows(groups)| == |Flatten(groups)|
  {
    if groups == [] {
    } else {
      RowsAt(groups[..|groups| - 1]);
    }
  }

  lemma {:induction false} RowsPrefix(groups: seq<Group>, n: nat)
    requires n <= |groups|
    ensures Rows(groups[..n]) <= Rows(groups)
  {
    if n == |groups| {
      assert groups[..n] == groups;
    } else {
      RowsPrefix(groups[..|groups| - 1], n);
      assert groups[..|groups| - 1][..n] == groups[..n];
    }
  }

  /** Segment i of group g, found in the flat lists. */
  lemma {:induction false} FlatAt(groups: seq<Group>, g: nat, i: nat)
    requires g < |groups| && i < |groups[g].segments|
    ensures var n := |Flatten(groups[..g])| + i;
            && n < |Flatten(groups)| == |Rows(groups)|
            && Flatten(groups)[n] == groups[g].segments[i] && Rows(groups)[n] == (g, groups[g].segments[i].line)
  {
    RowsAt(groups);
    RowsAt(groups[..g]);
    RowsAt(groups[..g + 1]);
    FlattenPrefix(groups, g + 1);
    RowsPrefix(groups, g + 1);
    assert groups[..g + 1][..g] == groups[..g];
  }

  /** The four variables of the row scan. */
  datatype Scan = Scan(offset: int, touches: bool, row: Option<(nat, int)>, crosses: bool)

  function ScanOne(seg: Segment, row: (nat, int), frozen: seq<Key>, h: Hint, st: Scan): Scan {
    var end := st.offset + |seg.text|;
    if st.offset < h.endOffset && h.startOffset < end
    then Scan(end, st.touches || seg.key in frozen, Some(row), st.crosses || (st.row.Some? && st.row.value != row))
    else st.(offset := end)
  }

  /** What the scan knows after n segments. */
  ghost predicate RowScan(segs: seq<Segment>, rows: seq<(nat, int)>, frozen: seq<Key>, h: Hint, n: nat, st: Scan)
    requires n <= |segs| == |rows|
  {
    && st.offset == Offset(segs, n)
    && (st.touches <==> exists i | 0 <= i < n :: Touches(segs, i, h) && segs[i].key in frozen)
    && (st.crosses <==> exists i, j | 0 <= i < j < n ::
        Touches(segs, i, h) && Touches(segs, j, h) && rows[i] != rows[j])
    && (st.row.None? <==> forall i | 0 <= i < n :: !Touches(segs, i, h))
    && (st.row.Some? ==> exists i | 0 <= i < n :: Touches(segs, i, h) && rows[i] == st.row.value)
    && (st.row.Some? && !st.crosses ==> forall i | 0 <= i < n && Touches(segs, i, h) :: rows[i] == st.row.value)
  }

  lemma {:induction false} HitCrosses(segs: seq<Segment>, rows: seq<(nat, int)>, frozen: seq<Key>, h: Hint, n: nat,
                                      st: Scan)
    requires n < |segs| == |rows| && RowScan(segs, rows, frozen, h, n, st) && Touches(segs, n, h)
    ensures st.crosses || (st.row.Some? && st.row.value != rows[n])
            <==> exists i, j | 0 <= i < j < n + 1 :: Touches(segs, i, h) && Touches(segs, j, h) && rows[i] != rows[j]
  {
    hide Touches, Offset;
    if st.row.Some? && st.row.value != rows[n] {
      var i :| 0 <= i < n && Touches(segs, i, h) && rows[i] == st.row.value;
      assert Touches(segs, n, h) && rows[i] != rows[n];
    }
  }

  lemma {:induction false} RowScanStep(segs: seq<Segment>, rows: seq<(nat, int)>, frozen: seq<Key>, h: Hint, n: nat,
                                       st: Scan)
    requires n < |segs| == |rows| && RowScan(segs, rows, frozen, h, n, st)
    ensures RowScan(segs, rows, frozen, h, n + 1, ScanOne(segs[n], rows[n], frozen, h, st))
  {
    RowScanOffset(segs, rows, frozen, h, n, st);
    hide RowScan, Touches, Offset;
    if Touches(segs, n, h) {
      HitCrosses(segs, rows, frozen, h, n, st);
      HitSteps(segs, rows, frozen, h, n, st);
    } else {
      MissSteps(segs, rows, frozen, h, n, st);
    }
  }

  lemma {:induction false} RowScanOffset(segs: seq<Segment>, rows: seq<(nat, int)>, frozen: seq<Key>, h: Hint, n: nat,
                                         st: Scan)
    requires n < |segs| == |rows| && RowScan(segs, rows, frozen, h, n, st)
    ensures Offset(segs, n + 1) == st.offset + |segs[n].text|
    ensures Touches(segs, n, h) <==> st.offset < h.endOffset && h.startOffset < st.offset + |segs[n].text|
  {
    assert st.offset == Offset(segs, n);
    hide RowScan;
    OffsetStep(segs, n);
  }

  lemma {:induction false} MissSteps(segs: seq<Segment>, rows: seq<(nat, int)>, frozen: seq<Key>, h: Hint, n: nat,
                                     st: Scan)
    requires n < |segs| == |rows| && RowScan(segs, rows, frozen, h, n, st) && !Touches(segs, n, h)
    ensures RowScan(segs, rows, frozen, h, n + 1, st.(offset := Offset(segs, n + 1)))
  {
    hide Touches, Offset;
  }

  lemma {:induction false} HitSteps(segs: seq<Segment>, rows: seq<(nat, int)>, frozen: seq<Key>, h: Hint, n: nat,
                                    st: Scan)
    requires n < |segs| == |rows| && RowScan(segs, rows, frozen, h, n, st) && Touches(segs, n, h)
    requires st.crosses || (st.row.Some? && st.row.value != rows[n])
             <==> exists i, j | 0 <= i < j < n + 1 :: Touches(segs, i, h) && Touches(segs, j, h) && rows[i] != rows[j]
    ensures RowScan(segs, rows, frozen, h, n + 1,
                    Scan(Offset(segs, n + 1), st.touches || segs[n].key in frozen, Some(rows[n]),
                         st.crosses || (st.row.Some? && st.row.value != rows[n])))
  {
    hide Touches, Offset;
  }

  function ScanFold(segs: seq<Segment>, rows: seq<(nat, int)>, frozen: seq<Key>, h: Hint, n: nat): Scan
    requires n <= |segs| == |rows|
  {
    if n == 0 then Scan(0, false, None, false)
    else ScanOne(segs[n - 1], rows[n - 1], frozen, h, ScanFold(segs, rows, frozen, h, n - 1))
  }

  /** Comparing each touched row with the one touched before is enough to see any crossing. */
  lemma {:induction false} ScanFoldMeaning(segs: seq<Segment>, rows: seq<(nat, int)>, frozen: seq<Key>, h: Hint, n: nat)
    requires n <= |segs| == |rows|
    ensures RowScan(segs, rows, frozen, h, n, ScanFold(segs, rows, frozen, h, n))
  {
    hide ScanOne, Touches;
    if n == 0 {
    } else {
      hide RowScan, Offset;
      ScanFoldMeaning(segs, rows, frozen, h, n - 1);
      RowScanStep(segs, rows, frozen, h, n - 1, ScanFold(segs, rows, frozen, h, n - 1));
    }
  }

  lemma {:induction false} ScanFoldWhole(s: Snapshot, frozen: seq<Key>, h: Hint)
    ensures |Rows(s.captions)| == |Segments(s)|
    ensures var st := ScanFold(Segments(s), Rows(s.captions), frozen, h, |Segments(s)|);
            st.touches == TouchesFrozen(Segments(s), frozen, h) && st.crosses == CrossesRow(s, h)
  {
    RowsAt(s.captions);
    ScanFoldMeaning(Segments(s), Rows(s.captions), frozen, h, |Segments(s)|);
  }

  method ScanSegment(seg: Segment, row: (nat, int), frozen: seq<Key>, h: Hint, before: Scan) returns (after: Scan)
    ensures after == ScanOne(seg, row, frozen, h, before)
  {
    var Scan(offset, touches, lastRow, crosses) := before;
    if offset < h.endOffset && h.startOffset < offset + |seg.text| {
      if seg.key in frozen {
        touches := true;
      }
      if lastRow.Some? && lastRow.value != row {
        crosses := true;
      }
      lastRow := Some(row);
    }
    offset := offset + |seg.text|;
    after := Scan(offset, touches, lastRow, crosses);
  }

  /** One nested pass over groups and segments, remembering the row touched last. */
  method ScanRows(s: Snapshot, frozen: seq<Key>, h: Hint) returns (touchesFrozen: bool, crossesRow: bool)
    ensures touchesFrozen == TouchesFrozen(Segments(s), frozen, h)
    ensures crossesRow == CrossesRow(s, h)
  {
    ScanFoldWhole(s, frozen, h);
    var st := ScanGroups(s.captions, frozen, h, Segments(s), Rows(s.captions));
    return st.touches, st.crosses;
  }

  method ScanGroups(groups: seq<Group>, frozen: seq<Key>, h: Hint, ghost segs: seq<Segment>,
                    ghost rows: seq<(nat, int)>)
    returns (st: Scan)
    requires segs == Flatten(groups) && rows == Rows(groups) && |segs| == |rows|
    ensures st == ScanFold(segs, rows, frozen, h, |segs|)
  {
    hide Rows, Flatten, ScanOne;
    ghost var n := 0;
    FlattenNothing(groups);
    st := Scan(0, false, None, false);
    for g := 0 to |groups|
      invariant n == Before(groups, g) <= |segs|
      invariant st == ScanFold(segs, rows, frozen, h, n)
    {
      GroupAt(groups, g);
      st := ScanGroupRows(groups[g].segments, g, frozen, h, st, segs, rows, n);
      n := n + |groups[g].segments|;
    }
  }

  /** The number of segments before group g. */
  ghost function Before(groups: seq<Group>, g: nat): nat
    requires g <= |groups|
  {
    |Flatten(groups[..g])|
  }

  lemma {:induction false} FlattenNothing(groups: seq<Group>)
    ensures Before(groups, 0) == 0 && Before(groups, |groups|) == |Flatten(groups)|
  {
    assert groups[..|groups|] == groups;
  }

  /** The segments of group g stand together in the flat lists. */
  lemma {:induction false} GroupAt(groups: seq<Group>, g: nat)
    requires g < |groups|
    ensures var base := Before(groups, g);
            && Before(groups, g + 1) == base + |groups[g].segments| <= |Flatten(groups)| == |Rows(groups)|
            && forall i | 0 <= i < |groups[g].segments| ::
                 Flatten(groups)[base + i] == groups[g].segments[i]
                     && Rows(groups)[base + i] == (g, groups[g].segments[i].line)
  {
    RowsAt(groups);
    assert groups[..g + 1][..g] == groups[..g];
    FlattenGroupPrefix(groups, g, |groups[g].segments|);
    forall i | 0 <= i < |groups[g].segments|
      ensures Flatten(groups)[|Flatten(groups[..g])| + i] == groups[g].segments[i]
              && Rows(groups)[|Flatten(groups[..g])| + i] == (g, groups[g].segments[i].line)
    {
      FlatAt(groups, g, i);
    }
  }

  method ScanGroupRows(group: seq<Segment>, g: nat, frozen: seq<Key>, h: Hint, before: Scan,
                       ghost segs: seq<Segment>, ghost rows: seq<(nat, int)>, ghost base: nat) returns (st: Scan)
    requires |segs| == |rows| && base + |group| <= |segs|
    requires forall i | 0 <= i < |group| :: segs[base + i] == group[i] && rows[base + i] == (g, group[i].line)
    requires before == ScanFold(segs, rows, frozen, h, base)
    ensures st == ScanFold(segs, rows, frozen, h, base + |group|)
  {
    st := before;
    for i := 0 to |group|
      invariant st == ScanFold(segs, rows, frozen, h, base + i)
    {
      assert segs[base + i] == group[i] && rows[base + i] == (g, group[i].line);
      st := ScanSegment(group[i], (g, group[i].line), frozen, h, st);
    }
  }

  /** The hints of an answer enter one by one, each checked against those already held. */
  method MergeHints(held: seq<Hint>, mapped: seq<Hint>, s: Snapshot, frozen: seq<Key>, version: Option<int>)
    returns (hints: seq<Hint>)
    ensures hints == Merge(held, mapped, s, frozen, version)
  {
    hints := held;
    for n := 0 to |mapped|
      invariant hints == Merge(held, mapped[..n], s, frozen, version)
    {
      assert mapped[..n + 1][..n] == mapped[..n];
      var hint := mapped[n];
      var touchesFrozen, crossesRow := ScanRows(s, frozen, hint);
      if touchesFrozen || crossesRow {
        continue;
      }
      if version.Some? && hint.version != version.value {
        continue;
      }
      if !exists i | 0 <= i < |hints| :: Collides(hints[i], hint) {
        hints := hints + [hint];
      }
    }
    assert mapped[..|mapped|] == mapped;
  }

  // ---- Sealing older rows ---------------------------------------------------------------------

  lemma {:induction false} KeysOfAppend(a: seq<Segment>, b: seq<Segment>)
    ensures KeysOf(a + b) == KeysOf(a) + KeysOf(b)
  {
  }

  lemma {:induction false} OffLineStep(segs: seq<Segment>, i: nat, line: int)
    requires i < |segs|
    ensures OffLine(segs[..i + 1], line)
            == if segs[i].line != line then OffLine(segs[..i], line) + [segs[i]] else OffLine(segs[..i], line)
  {
    assert segs[..i + 1][..i] == segs[..i];
  }

  /** The segments of a group that the sealing pass picks. */
  function Sealable(segs: seq<Segment>, newest: bool, newestLine: int): seq<Segment> {
    if newest then OffLine(segs, newestLine) else segs
  }

  lemma {:induction false} SealableStep(segs: seq<Segment>, i: nat, newest: bool, newestLine: int, frozen: seq<Key>)
    requires i < |segs|
    ensures AddAll(frozen, KeysOf(Sealable(segs[..i + 1], newest, newestLine)))
            == var before := AddAll(frozen, KeysOf(Sealable(segs[..i], newest, newestLine)));
               if !newest || segs[i].line != newestLine then Add(before, segs[i].key) else before
  {
    OffLineStep(segs, i, newestLine);
    var part := Sealable(segs[..i], newest, newestLine);
    assert segs[..i + 1] == segs[..i] + [segs[i]];
    KeysOfAppend(part, [segs[i]]);
    assert KeysOf([segs[i]]) == [segs[i].key];
    AddAllOne(frozen, KeysOf(part), segs[i].key);
  }

  method SealGroup(segs: seq<Segment>, newest: bool, newestLine: int, frozen: seq<Key>) returns (r: seq<Key>)
    ensures r == AddAll(frozen, KeysOf(Sealable(segs, newest, newestLine)))
  {
    r := frozen;
    assert Sealable(segs[..0], newest, newestLine) == [];
    for i := 0 to |segs|
      invariant r == AddAll(frozen, KeysOf(Sealable(segs[..i], newest, newestLine)))
    {
      SealableStep(segs, i, newest, newestLine, frozen);
      if !newest || segs[i].line != newestLine {
        r := Add(r, segs[i].key);
      }
    }
    assert segs[..|segs|] == segs;
  }

  /** What the sealing pass has added before it reaches group g. */
  ghost function SealedBefore(s: Snapshot, frozen: seq<Key>, g: nat): seq<Key>
    requires g < |s.captions|
  {
    AddAll(frozen, KeysOf(Flatten(s.captions[..g])))
  }

  lemma {:induction false} SealStart(s: Snapshot, frozen: seq<Key>)
    ensures if s.captions == [] then AddAll(frozen, OlderRows(s)) == frozen else SealedBefore(s, frozen, 0) == frozen
  {
    if s.captions != [] {
      assert s.captions[..0] == [];
    }
  }

  lemma {:induction false} SealStep(s: Snapshot, frozen: seq<Key>, g: nat)
    requires g + 1 < |s.captions|
    ensures SealedBefore(s, frozen, g + 1) == AddAll(SealedBefore(s, frozen, g), KeysOf(s.captions[g].segments))
  {
    assert s.captions[..g + 1] == s.captions[..g] + [s.captions[g]];
    FlattenAppend(s.captions[..g], s.captions[g]);
    KeysOfAppend(Flatten(s.captions[..g]), s.captions[g].segments);
    AddAllAppend(frozen, KeysOf(Flatten(s.captions[..g])), KeysOf(s.captions[g].segments));
  }

  lemma {:induction false} SealLast(s: Snapshot, frozen: seq<Key>)
    requires s.captions != []
    ensures var last := s.captions[|s.captions| - 1].segments;
            AddAll(frozen, OlderRows(s))
            == AddAll(SealedBefore(s, frozen, |s.captions| - 1),
                KeysOf(OffLine(last, if last == [] then 0 else last[|last| - 1].line)))
  {
    var n := |s.captions| - 1;
    var last := s.captions[n].segments;
    var off := KeysOf(OffLine(last, if last == [] then 0 else last[|last| - 1].line));
    AddAllAppend(frozen, KeysOf(Flatten(s.captions[..n])), off);
    if last == [] {
      assert off == [];
      assert KeysOf(Flatten(s.captions[..n])) + off == KeysOf(Flatten(s.captions[..n]));
    }
  }

  method SealOlder(s: Snapshot, frozen: seq<Key>) returns (r: seq<Key>)
    ensures r == AddAll(frozen, OlderRows(s))
  {
    hide OffLine, OlderRows, AddAll, KeysOf, Flatten, SealedBefore;
    r := frozen;
    SealStart(s, frozen);
    if s.captions == [] {
      return;
    }
    var n := |s.captions| - 1;
    var last := s.captions[n].segments;
    var newestLine := if last == [] then 0 else last[|last| - 1].line;
    SealLast(s, frozen);
    for g := 0 to |s.captions|
      invariant g <= n ==> r == SealedBefore(s, frozen, g)
      invariant g > n ==> r == AddAll(SealedBefore(s, frozen, n), KeysOf(OffLine(last, newestLine)))
    {
      if g < n {
        SealStep(s, frozen, g);
      }
      r := SealGroup(s.captions[g].segments, g == n, newestLine, r);
    }
  }

  // ---- The object -----------------------------------------------------------------------------

  class CaptionStreamCoordinator {
    const word: WordUnit
    const evidence: Evidence
    var generation: nat
    var latestSequence: nat
    var current: Option<Event>
    var lastKnownTrack: Option<string>
    var timer: bool
    var active: Option<Dispatch>
    var lastAcknowledged: Option<Snapshot>
    var completed: set<Key>
    var hints: seq<Hint>
    var frozenKeys: seq<Key>
    var finalizedKeys: seq<Key>
    var activeRowKeys: seq<Key>
    /** What the transport and the renderer were given, in order. */
    var sent: seq<Dispatch>
    var views: seq<View>
    /** The answers it accepted, in order. */
    var accepted: seq<Acceptance>

    ghost function State(): Coordinator
      reads this
    {
      Coordinator(generation, latestSequence, current, lastKnownTrack, timer, active, lastAcknowledged, completed,
                  hints, frozenKeys, finalizedKeys, activeRowKeys, sent, views, accepted)
    }

    ghost function Cfg(): Config {
      Config(word, evidence)
    }

    constructor (word: WordUnit, evidence: Evidence)
      ensures State() == Initial() && this.word == word && this.evidence == evidence
    {
      this.word, this.evidence := word, evidence;
      generation, latestSequence, current, lastKnownTrack, timer, active := 0, 0, None, None, false, None;
      lastAcknowledged, completed, hints := None, {}, [];
      frozenKeys, finalizedKeys, activeRowKeys, sent, views, accepted := [], [], [], [], [], [];
    }

    method IsPending() returns (pending: bool)
      ensures pending == Pending(State())
    {
      if current.None? {
        return false;
      }
      var segs := Segments(current.value.request.current);
      assert CurrentSegments(State()) == segs;
      pending := exists i | 0 <= i < |segs| :: segs[i].key !in completed;
    }

    method StatusNow() returns (state: ViewState)
      ensures state == Status(State())
    {
      var pending := IsPending();
      state := if pending then Waiting else if hints != [] then Ready else NoPending;
    }

    method SubmitEvent(e: Event)
      modifies this
      ensures State() == Submit(old(State()), e, word)
    {
      if e.sequence <= latestSequence {
        return;
      }
      ghost var s := State();
      var oldText := if current.Some? then SnapshotText(current.value.request.current) else [];
      BeginSubmit(e, oldText);
      ShowCaption(e, oldText, Rebased(s, e), PassedRows(s, e));
      var state := StatusNow();
      PublishView(state, None, None);
      ScheduleTimer();
    }

    /** Up to the point where the arriving caption replaces the shown one. */
    method BeginSubmit(e: Event, oldText: Text)
      requires oldText == CurrentText(State())
      modifies this
      ensures State() == Rebased(old(State()), e).(frozen := PassedRows(old(State()), e))
    {
      ghost var s := State();
      var overlap := FindRetainedOverlap(oldText, SnapshotText(e.request.current));
      latestSequence := e.sequence;
      var reset := Rebase(e, overlap, s);
      if current.Some? && !reset {
        frozenKeys := AddOutside(frozenKeys, KeysOf(Segments(current.value.request.current)), Members(activeRowKeys));
      }
    }

    method ShowCaption(e: Event, oldText: Text, ghost base: Coordinator, ghost passed: seq<Key>)
      requires State() == base.(frozen := passed)
      modifies this`hints, this`current, this`completed, this`activeRowKeys, this`frozenKeys, this`finalizedKeys
      ensures State() == Settled(base, passed, oldText, e, word)
    {
      ArriveRows(e.request.current);
      hints, current := Remap(oldText, SnapshotText(e.request.current), hints, word), Some(e);
    }

    /** Reset when topic, track or text break off, then note the known track. */
    method Rebase(e: Event, overlap: nat, ghost s: Coordinator) returns (reset: bool)
      requires State() == s.(latestSequence := e.sequence)
      requires overlap == RetainedOverlap(CurrentText(s), SnapshotText(e.request.current))
      modifies this
      ensures State() == Rebased(s, e) && reset == ResetNeeded(s, e)
    {
      var same := current.Some? && current.value.request.topic == e.request.topic
          && current.value.request.track == e.request.track;
      var naturalRowExit := same && overlap == 0;
      reset := current.Some? && (current.value.request.topic != e.request.topic
        || (lastKnownTrack.Some? && e.request.track.Some? && lastKnownTrack != e.request.track) || overlap == 0);
      if reset {
        var retired := if naturalRowExit then KeysOf(Segments(current.value.request.current)) else [];
        InvalidateAll();
        assert State() == Invalidate(s.(latestSequence := e.sequence)) && finalizedKeys == [];
        finalizedKeys := AddEach(finalizedKeys, retired);
      }
      if e.request.track.Some? {
        lastKnownTrack := e.request.track;
      }
    }

    method InvalidateAll()
      modifies this
      ensures State() == Invalidate(old(State()))
    {
      CancelRequests();
      ForgetStream();
    }

    method CancelRequests()
      modifies this`generation, this`timer, this`active
      ensures State() == StopRequests(old(State()))
    {
      generation, timer, active := generation + 1, false, None;
    }

    method ForgetStream()
      modifies this`completed, this`hints, this`lastAcknowledged, this`frozenKeys, this`activeRowKeys,
          this`finalizedKeys
      ensures completed == {} && hints == [] && lastAcknowledged == None
      ensures frozenKeys == [] && activeRowKeys == [] && finalizedKeys == []
    {
      completed, hints, lastAcknowledged := {}, [], None;
      frozenKeys, activeRowKeys, finalizedKeys := [], [], [];
    }

    /** Coverage, newest row, sealed and finished keys of the caption that just became current. */
    method ArriveRows(shown: Snapshot)
      modifies this`completed, this`activeRowKeys, this`frozenKeys, this`finalizedKeys
      ensures completed == old(completed) * KeySet(Segments(shown))
      ensures activeRowKeys == NewestRow(shown)
      ensures var sealed := LeaveRow(old(frozenKeys), old(activeRowKeys), NewestRow(shown));
              && frozenKeys == Within(sealed, KeySet(Segments(shown)))
              && finalizedKeys == Finish(old(finalizedKeys), sealed, KeySet(Segments(shown)))
    {
      var keys := KeySet(Segments(shown));
      var nextActive := NewestRow(shown);
      var sealed := frozenKeys;
      if activeRowKeys != [] && Members(activeRowKeys) !! Members(nextActive) {
        sealed := AddEach(sealed, activeRowKeys);
      }
      var finished := AddOutside(finalizedKeys, sealed, keys);
      finished := EvictOldest(Outside(finished, keys));
      completed, activeRowKeys, frozenKeys, finalizedKeys := completed * keys, nextActive, Within(sealed, keys),
          finished;
    }

    method ClearAt(sequence: nat)
      modifies this
      ensures State() == Clear(old(State()), sequence)
    {
      if sequence <= latestSequence {
        return;
      }
      hide Invalidate;
      ghost var begun := State().(latestSequence := sequence);
      latestSequence := sequence;
      assert State() == begun;
      InvalidateAll();
      assert State() == Invalidate(begun);
      current, lastKnownTrack := None, None;
      views := views + [View(Idle, None, [], [], [], None, None, |accepted|)];
    }

    method PublishView(state: ViewState, debugEvent: Option<Event>, failure: Option<RuntimeFailure>)
      modifies this`views
      ensures State() == Publish(old(State()), state, debugEvent, failure)
    {
      views := views + [View(state, current, hints, frozenKeys, finalizedKeys, debugEvent, failure, |accepted|)];
    }

    method ScheduleTimer()
      modifies this`timer
      ensures State() == Schedule(old(State()))
    {
      var pending := IsPending();
      if active.Some? || timer || !pending {
        return;
      }
      timer := true;
    }

    /** The callback of a timer that was not cancelled. */
    method TimerFires()
      requires timer
      modifies this
      ensures State() == Fire(old(State()))
    {
      timer := false;
      var pending := IsPending();
      if current.None? || !pending {
        return;
      }
      var event := current.value;
      var marked := event.request.(current := Mark(event.request.current, completed),
          lastRequested := lastAcknowledged);
      var d := Dispatch(|sent| + 1, generation, event.(request := marked));
      sent := sent + [d];
      active := Some(d);
    }

    method AcceptAnswer(d: Dispatch, answer: Result)
      modifies this
      ensures State() == Accept(old(State()), d, answer, Cfg())
    {
      if d.generation != generation || current.None? || active.None? || active.value.number != d.number {
        return;
      }
      active := None;
      var result := answer;
      if result.Success? {
        var legal := ParseHintResponse(result.body, d.event.request, evidence);
        if !legal {
          result := Failure(InvalidResponse);
        }
      }
      if result.Failure? {
        PublishView(Fallback, None, Some(FailureOf(result.reason)));
        return;
      }
      Absorb(d, result.body);
      var state := StatusNow();
      PublishView(state, Some(d.event), None);
      Seal();
      ScheduleTimer();
    }

    /** Acknowledge the request, extend coverage to what is still shown, and merge the new hints. */
    method Absorb(d: Dispatch, body: Response)
      requires current.Some? && active.None?
      modifies this
      ensures State() == Absorbed(old(State()), d, body, word)
    {
      hide Remap, Resolved, Merge, SortHints, KeySet, Flatten, SegText;
      var asked, shown := d.event.request.current, current.value.request.current;
      lastAcknowledged := Some(asked);
      completed := Cover(completed, body.processedKeys, KeySet(Segments(shown)));
      var mapped := Remap(SnapshotText(asked), SnapshotText(shown), Resolved(body.hints, asked), word);
      var version := if hints == [] then None else Some(hints[0].version);
      var merged := MergeHints(hints, mapped, shown, frozenKeys, version);
      hints := SortHints(merged);
      accepted := accepted + [Acceptance(d.event.request.topic, asked, body)];
    }

    method Cover(before: set<Key>, processed: seq<Key>, visible: set<Key>) returns (after: set<Key>)
      ensures after == before + (set k | k in processed && k in visible)
    {
      after := before;
      for i := 0 to |processed|
        invariant after == before + (set k | k in processed[..i] && k in visible)
      {
        if processed[i] in visible {
          after := after + {processed[i]};
        }
        assert processed[..i + 1] == processed[..i] + [processed[i]];
      }
      assert processed[..|processed|] == processed;
    }

    /** Seal the older rows and publish again if that changed anything. */
    method Seal()
      requires current.Some?
      modifies this
      ensures State() == Sealed(old(State()))
    {
      var frozenCount := |frozenKeys|;
      frozenKeys := SealOlder(current.value.request.current, frozenKeys);
      if |frozenKeys| != frozenCount {
        var state := StatusNow();
        PublishView(state, None, None);
      }
    }
  }
}
