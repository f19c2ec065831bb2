/** The wire protocol of caption hints: snapshots, requests, keyed hints and responses (protocol.ts). */
module Protocol {
  import opened Wrappers
  import opened Utf16
  import opened Decimals

  const MAX_CAPTION_LENGTH: nat := 500
  const MAX_SAFE_INTEGER: nat := 9007199254740991

  /** A segment key is the page prefix, a dash and a decimal serial; Render gives the string. */
  datatype Key = Key(prefix: string, serial: nat) {
    function Render(): string {
      prefix + "-" + Decimal(serial)
    }
  }

  datatype Segment = Segment(key: Key, text: Text, offsetMs: Option<int>, append: bool, line: int)

  datatype Group = Group(windowId: Option<string>, startMs: Option<int>, segments: seq<Segment>)

  datatype Snapshot = Snapshot(captions: seq<Group>)

  datatype Request = Request(topic: string, track: Option<string>, lastRequested: Option<Snapshot>, current: Snapshot)

  datatype Hint = Hint(startOffset: int, endOffset: int, gloss: string, entryId: string, version: int, senseId: string)

  /** A hint as the server sends it: offsets are relative to the segments named by the two keys. */
  datatype KeyedHint = KeyedHint(hint: Hint, startKey: Key, endKey: Key)

  datatype Response = Response(processedKeys: seq<Key>, hints: seq<KeyedHint>)

  /** The lexicon-evidence checks that read no offset: entry id, sense id and gloss alphabet. */
  type Evidence = Hint -> bool

  /** Keys of one page prefix are told apart by their strings exactly as by their serials. */
  lemma {:induction false} RenderInjective(a: Key, b: Key)
    requires a.prefix == b.prefix && a.Render() == b.Render()
    ensures a == b
  {
    var head := a.prefix + "-";
    assert a.Render()[|head|..] == Decimal(a.serial);
    assert b.Render()[|head|..] == Decimal(b.serial);
    DecimalInjective(a.serial, b.serial);
  }

  predicate BoundedId(s: string) {
    0 < |s| <= 128
  }

  predicate NonNegative(n: int) {
    0 <= n <= MAX_SAFE_INTEGER
  }

  // ---- Snapshots as flat segment lists ------------------------------------------------------

  function Flatten(groups: seq<Group>): seq<Segment> {
    if groups == [] then [] else Flatten(groups[..|groups| - 1]) + groups[|groups| - 1].segments
  }

  function Segments(s: Snapshot): seq<Segment> {
    Flatten(s.captions)
  }

  function SegText(segs: seq<Segment>): Text {
    if segs == [] then [] else SegText(segs[..|segs| - 1]) + segs[|segs| - 1].text
  }

  function SnapshotText(s: Snapshot): Text {
    SegText(Segments(s))
  }

  /** Where segment i starts in the text of its snapshot. */
  function Offset(segs: seq<Segment>, i: nat): nat
    requires i <= |segs|
  {
    |SegText(segs[..i])|
  }

  function KeySet(segs: seq<Segment>): set<Key> {
    set i | 0 <= i < |segs| :: segs[i].key
  }

  function KeysOf(segs: seq<Segment>): (keys: seq<Key>)
    ensures |keys| == |segs|
    ensures forall i | 0 <= i < |segs| :: keys[i] == segs[i].key
  {
    seq(|segs|, i requires 0 <= i < |segs| => segs[i].key)
  }

  lemma {:induction false} KeySetAppend(segs: seq<Segment>, s: Segment)
    ensures KeySet(segs + [s]) == KeySet(segs) + {s.key}
  {
    var next := segs + [s];
    forall key | key in KeySet(segs) + {s.key}
      ensures key in KeySet(next)
    {
      if key == s.key {
        assert next[|segs|].key == key;
      } else {
        var i :| 0 <= i < |segs| && segs[i].key == key;
        assert next[i].key == key;
      }
    }
  }

  predicate DistinctKeys(segs: seq<Segment>) {
    forall i, j | 0 <= i < j < |segs| :: segs[i].key != segs[j].key
  }

  lemma {:induction false} ConcatAssociates<T>(a: seq<T>, b: seq<T>, c: seq<T>)
    ensures (a + b) + c == a + (b + c)
  {
  }

  lemma {:induction false} ConcatLast<T>(a: seq<T>, b: seq<T>)
    requires b != []
    ensures b == b[..|b| - 1] + [b[|b| - 1]]
    ensures a + b == (a + b[..|b| - 1]) + [b[|b| - 1]]
  {
  }

  lemma {:induction false} SegTextPush(segs: seq<Segment>, s: Segment)
    ensures SegText(segs + [s]) == SegText(segs) + s.text
  {
    assert (segs + [s])[..|segs|] == segs;
  }

  lemma {:induction false} SegTextAppend(a: seq<Segment>, b: seq<Segment>)
    ensures SegText(a + b) == SegText(a) + SegText(b)
  {
    if b == [] {
      assert a + b == a;
    } else {
      var init, last := b[..|b| - 1], b[|b| - 1];
      SegTextAppend(a, init);
      hide SegText;
      SegTextPush(init, last);
      SegTextPush(a + init, last);
      ConcatLast(a, b);
      ConcatAssociates(SegText(a), SegText(init), last.text);
    }
  }

  lemma {:induction false} OffsetStep(segs: seq<Segment>, i: nat)
    requires i < |segs|
    ensures Offset(segs, i + 1) == Offset(segs, i) + |segs[i].text|
  {
    assert segs[..i + 1][..i] == segs[..i];
  }

  lemma {:induction false} OffsetEnd(segs: seq<Segment>)
    ensures Offset(segs, |segs|) == |SegText(segs)|
  {
    assert segs[..|segs|] == segs;
  }

  lemma {:induction false} OffsetMonotone(segs: seq<Segment>, i: nat, j: nat)
    requires i <= j <= |segs|
    ensures Offset(segs, i) <= Offset(segs, j)
  {
    if i < j {
      OffsetMonotone(segs, i, j - 1);
      OffsetStep(segs, j - 1);
    }
  }

  lemma {:induction false} FlattenAppend(groups: seq<Group>, g: Group)
    ensures Flatten(groups + [g]) == Flatten(groups) + g.segments
  {
    assert (groups + [g])[..|groups|] == groups;
  }

  /** Flattening a longer list of groups extends the flattening of any prefix of it. */
  lemma {:induction false} FlattenPrefix(groups: seq<Group>, n: nat)
    requires n <= |groups|
    ensures Flatten(groups[..n]) <= Flatten(groups)
  {
    if n == |groups| {
      assert groups[..n] == groups;
    } else {
      FlattenPrefix(groups[..|groups| - 1], n);
      assert groups[..|groups| - 1][..n] == groups[..n];
    }
  }

  lemma {:induction false} FlattenGroupPrefix(groups: seq<Group>, g: nat, i: nat)
    requires g < |groups| && i <= |groups[g].segments|
    ensures Flatten(groups[..g]) + groups[g].segments[..i] <= Flatten(groups)
  {
    FlattenPrefix(groups, g + 1);
    assert groups[..g + 1] == groups[..g] + [groups[g]];
    FlattenAppend(groups[..g], groups[g]);
    PrefixOfPrefix(Flatten(groups[..g]), groups[g].segments, i, Flatten(groups));
  }

  lemma {:induction false} PrefixOfPrefix(a: seq<Segment>, b: seq<Segment>, i: nat, all: seq<Segment>)
    requires a + b <= all && i <= |b|
    ensures a + b[..i] <= all
  {
  }

  lemma {:induction false} TextPrefix(part: seq<Segment>, segs: seq<Segment>)
    requires part <= segs
    ensures |SegText(part)| <= |SegText(segs)|
  {
    assert segs == part + segs[|part|..];
    SegTextAppend(part, segs[|part|..]);
  }

  lemma {:induction false} KeySetSize(segs: seq<Segment>)
    requires DistinctKeys(segs)
    ensures |KeySet(segs)| == |segs|
  {
    if segs == [] {
    } else {
      var init := segs[..|segs| - 1];
      KeySetSize(init);
      assert KeySet(segs) == KeySet(init) + {segs[|segs| - 1].key};
    }
  }

  lemma {:induction false} ShortTextFewSegments(segs: seq<Segment>)
    requires forall i | 0 <= i < |segs| :: segs[i].text != []
    ensures |segs| <= |SegText(segs)|
  {
    if segs == [] {
    } else {
      ShortTextFewSegments(segs[..|segs| - 1]);
    }
  }

  lemma {:induction false} SegTextWellFormed(segs: seq<Segment>)
    requires forall i | 0 <= i < |segs| :: WellFormed(segs[i].text)
    ensures WellFormed(SegText(segs))
  {
    if segs == [] {
    } else {
      SegTextWellFormed(segs[..|segs| - 1]);
      ConcatWellFormed(SegText(segs[..|segs| - 1]), segs[|segs| - 1].text);
    }
  }

  // ---- Snapshot validity --------------------------------------------------------------------

  predicate ValidGroup(g: Group) {
    && (g.windowId.Some? ==> BoundedId(g.windowId.value))
    && (g.startMs.Some? ==> NonNegative(g.startMs.value))
    && g.segments != []
  }

  predicate ValidSegment(s: Segment) {
    && BoundedId(s.key.Render())
    && s.text != []
    && !HasLoneSurrogate(s.text)
    && NonNegative(s.line)
    && (s.offsetMs.Some? ==> NonNegative(s.offsetMs.value))
  }

  /** What the protocol asks of a snapshot, stated over the whole snapshot at once. */
  predicate ValidSnapshot(s: Snapshot) {
    && |s.captions| <= 500
    && (forall g | 0 <= g < |s.captions| :: ValidGroup(s.captions[g]))
    && (forall i | 0 <= i < |Segments(s)| :: ValidSegment(Segments(s)[i]))
    && DistinctKeys(Segments(s))
    && |SnapshotText(s)| <= MAX_CAPTION_LENGTH
  }

  /** The state of the validator after the segments in done: nothing wrong so far. */
  ghost predicate Scanned(done: seq<Segment>, length: int, keys: set<Key>) {
    && length == |SegText(done)| <= MAX_CAPTION_LENGTH
    && keys == KeySet(done)
    && DistinctKeys(done)
    && forall i | 0 <= i < |done| :: ValidSegment(done[i])
  }

  predicate Fault(s: Segment, length: int, keys: set<Key>) {
    !ValidSegment(s) || s.key in keys || length + |s.text| > MAX_CAPTION_LENGTH || |keys + {s.key}| > 500
  }

  lemma {:induction false} ScanStep(done: seq<Segment>, s: Segment, length: int, keys: set<Key>)
    requires Scanned(done, length, keys) && !Fault(s, length, keys)
    ensures Scanned(done + [s], length + |s.text|, keys + {s.key})
  {
    var next := done + [s];
    assert next[..|done|] == done;
    KeySetAppend(done, s);
  }

  lemma {:induction false} CountFault(done: seq<Segment>, s: Segment, length: int, keys: set<Key>)
    requires Scanned(done, length, keys) && Fault(s, length, keys)
    requires ValidSegment(s) && s.key !in keys
    ensures |SegText(done + [s])| > MAX_CAPTION_LENGTH
  {
    hide SplitsSurrogate, SegText;
    var next := done + [s];
    SegTextPush(done, s);
    KeySetAppend(done, s);
    assert DistinctKeys(next);
    hide KeySet, DistinctKeys;
    KeySetSize(next);
    ShortTextFewSegments(next);
  }

  /** A fault at any segment condemns the whole snapshot; the key count alone can never be exceeded first. */
  lemma {:induction false} ScanFault(snapshot: Snapshot, done: seq<Segment>, s: Segment, length: int, keys: set<Key>)
    requires Scanned(done, length, keys) && Fault(s, length, keys)
    requires done + [s] <= Segments(snapshot)
    ensures !ValidSnapshot(snapshot)
  {
    var next, all := done + [s], Segments(snapshot);
    assert all[|done|] == next[|done|] == s;
    if s.key in keys {
      var j :| 0 <= j < |done| && done[j].key == s.key;
      assert all[j] == next[j] == done[j];
      assert !DistinctKeys(all);
    } else if ValidSegment(s) {
      CountFault(done, s, length, keys);
      TextPrefix(next, all);
      assert |SnapshotText(snapshot)| > MAX_CAPTION_LENGTH;
    } else {
      assert !ValidSegment(all[|done|]);
    }
  }

  /** The validator: one pass with a running length and a set of keys, leaving at the first fault. */
  method IsCaptionSnapshot(s: Snapshot) returns (ok: bool)
    ensures ok <==> ValidSnapshot(s)
  {
    var groups := s.captions;
    if |groups| > 500 {
      return false;
    }
    var length, keys := 0, {};
    for g := 0 to |groups|
      invariant forall k | 0 <= k < g :: ValidGroup(groups[k])
      invariant Scanned(Flatten(groups[..g]), length, keys)
    {
      if !ValidGroup(groups[g]) {
        return false;
      }
      var fault;
      length, keys, fault := ScanGroup(s, g, length, keys);
      if fault {
        return false;
      }
    }
    assert groups[..|groups|] == groups;
    return true;
  }

  method ScanGroup(s: Snapshot, g: nat, length0: int, keys0: set<Key>)
    returns (length: int, keys: set<Key>, fault: bool)
    requires g < |s.captions| && Scanned(Flatten(s.captions[..g]), length0, keys0)
    ensures fault ==> !ValidSnapshot(s)
    ensures !fault ==> Scanned(Flatten(s.captions[..g + 1]), length, keys)
  {
    var segments := s.captions[g].segments;
    ghost var before := Flatten(s.captions[..g]);
    length, keys, fault := length0, keys0, false;
    assert before + segments[..0] == before;
    for i := 0 to |segments|
      invariant Scanned(before + segments[..i], length, keys)
    {
      FlattenGroupPrefix(s.captions, g, i + 1);
      assert before + segments[..i] + [segments[i]] == before + segments[..i + 1];
      if Fault(segments[i], length, keys) {
        ScanFault(s, before + segments[..i], segments[i], length, keys);
        return length, keys, true;
      }
      ScanStep(before + segments[..i], segments[i], length, keys);
      length := length + |segments[i].text|;
      keys := keys + {segments[i].key};
    }
    assert segments[..|segments|] == segments;
    assert s.captions[..g + 1] == s.captions[..g] + [s.captions[g]];
    FlattenAppend(s.captions[..g], s.captions[g]);
  }

  // ---- Requests -----------------------------------------------------------------------------

  function TextByKey(segs: seq<Segment>): map<Key, Text> {
    if segs == [] then map[]
    else TextByKey(segs[..|segs| - 1])[segs[|segs| - 1].key := segs[|segs| - 1].text]
  }

  ghost predicate LooksUp(segs: seq<Segment>, texts: map<Key, Text>) {
    && texts.Keys == KeySet(segs)
    && forall i | 0 <= i < |segs| :: segs[i].key in texts && texts[segs[i].key] == segs[i].text
  }

  lemma {:induction false} LooksUpStep(segs: seq<Segment>, s: Segment, texts: map<Key, Text>)
    requires LooksUp(segs, texts) && s.key !in KeySet(segs)
    ensures LooksUp(segs + [s], texts[s.key := s.text])
  {
    KeySetAppend(segs, s);
    hide KeySet;
    forall i | 0 <= i < |segs + [s]|
      ensures texts[s.key := s.text][(segs + [s])[i].key] == (segs + [s])[i].text
    {
      if i < |segs| {
        assert (segs + [s])[i] == segs[i] && segs[i].key in texts;
      }
    }
  }

  lemma {:induction false} TextByKeyLookup(segs: seq<Segment>)
    requires DistinctKeys(segs)
    ensures LooksUp(segs, TextByKey(segs))
  {
    if segs == [] {
    } else {
      var init, last := segs[..|segs| - 1], segs[|segs| - 1];
      assert DistinctKeys(init) && last.key !in KeySet(init);
      hide DistinctKeys, LooksUp, KeySet;
      TextByKeyLookup(init);
      LooksUpStep(init, last, TextByKey(init));
      assert segs == init + [last];
    }
  }

  predicate IsCaptionHintRequest(r: Request) {
    && BoundedId(r.topic)
    && (r.track.Some? ==> BoundedId(r.track.value))
    && ValidSnapshot(r.current)
    && (r.lastRequested.Some? ==> ValidSnapshot(r.lastRequested.value))
    && var previous := if r.lastRequested.Some? then TextByKey(Segments(r.lastRequested.value)) else map[];
       forall s | s in Segments(r.current) :: s.key in previous ==> EndsWith(previous[s.key], s.text)
  }

  // ---- Resolving a keyed hint to caption offsets --------------------------------------------

  /** Index of the first segment with the key, or the number of segments when there is none. */
  function FindKey(segs: seq<Segment>, key: Key): (i: nat)
    ensures i <= |segs|
    ensures i < |segs| ==> segs[i].key == key
    ensures forall j | 0 <= j < i :: segs[j].key != key
  {
    if segs == [] then 0
    else if segs[0].key == key then 0
    else 1 + FindKey(segs[1..], key)
  }

  function FirstAppend(segs: seq<Segment>): (i: nat)
    ensures i <= |segs|
    ensures i < |segs| ==> segs[i].append
    ensures forall j | 0 <= j < i :: !segs[j].append
  {
    if segs == [] then 0
    else if segs[0].append then 0
    else 1 + FirstAppend(segs[1..])
  }

  /** A span is hintable: one line, an old prefix of at most two short segments, then only new ones. */
  predicate HintableSpan(span: seq<Segment>)
    requires span != []
  {
    var firstNew := FirstAppend(span);
    && firstNew < |span|
    && (forall i | 0 <= i < |span| :: span[i].line == span[0].line)
    && (forall i | firstNew <= i < |span| :: span[i].append)
    && firstNew <= 2
    && |SegText(span[..firstNew])| <= 48
  }

  predicate OffsetsInside(h: Hint, first: Text, last: Text) {
    && NonNegative(h.startOffset) && NonNegative(h.endOffset)
    && h.startOffset < |first|
    && 1 <= h.endOffset <= |last|
    && !SplitsSurrogate(first, h.startOffset)
    && !SplitsSurrogate(last, h.endOffset)
  }

  function ResolveSpan(segs: seq<Segment>, start: nat, end: nat, position: nat, h: Hint): Option<Hint>
    requires start <= end < |segs|
  {
    if !HintableSpan(segs[start..end + 1]) || !OffsetsInside(h, segs[start].text, segs[end].text) then None
    else
      var from := position + Offset(segs, start) + h.startOffset;
      var to := position + Offset(segs, end) + h.endOffset;
      if to <= from then None else Some(h.(startOffset := from, endOffset := to))
  }

  /** Groups are searched in order; the first holding both keys in order decides. */
  function ResolveFrom(groups: seq<Group>, position: nat, k: KeyedHint): Option<Hint> {
    if groups == [] then None
    else
      var segs := groups[0].segments;
      var start, end := FindKey(segs, k.startKey), FindKey(segs, k.endKey);
      if start <= end < |segs| then ResolveSpan(segs, start, end, position, k.hint)
      else ResolveFrom(groups[1..], position + |SegText(segs)|, k)
  }

  function ResolveHint(k: KeyedHint, s: Snapshot): Option<Hint> {
    ResolveFrom(s.captions, 0, k)
  }

  /**
   * h is the hint k names: the segments i..j of group g carry its two keys and form a hintable span, and the two
   * offsets, taken inside the first and the last of them, are counted from the start of the caption.
   */
  ghost predicate ResolvedIn(groups: seq<Group>, position: nat, k: KeyedHint, h: Hint, g: nat, i: nat, j: nat) {
    && g < |groups| && i <= j < |groups[g].segments|
    && var segs, base := groups[g].segments, position + |SegText(Flatten(groups[..g]))|;
       && segs[i].key == k.startKey && segs[j].key == k.endKey
       && HintableSpan(segs[i..j + 1]) && OffsetsInside(k.hint, segs[i].text, segs[j].text)
       && h == k.hint.(startOffset := base + Offset(segs, i) + k.hint.startOffset,
                       endOffset := base + Offset(segs, j) + k.hint.endOffset)
       && h.startOffset < h.endOffset
  }

  ghost predicate Resolves(groups: seq<Group>, position: nat, k: KeyedHint, h: Hint) {
    exists g: nat, i: nat, j: nat :: ResolvedIn(groups, position, k, h, g, i, j)
  }

  lemma {:induction false} FlattenCons(g: Group, groups: seq<Group>)
    ensures Flatten([g] + groups) == g.segments + Flatten(groups)
  {
    if groups == [] {
      assert [g] + groups == [] + [g];
      FlattenAppend([], g);
    } else {
      var init, last := groups[..|groups| - 1], groups[|groups| - 1];
      FlattenCons(g, init);
      hide Flatten;
      ConcatLast([g], groups);
      FlattenAppend(init, last);
      FlattenAppend([g] + init, last);
      ConcatAssociates(g.segments, Flatten(init), last.segments);
    }
  }

  lemma {:induction false} ResolveSpanMeaning(groups: seq<Group>, position: nat, k: KeyedHint, start: nat, end: nat)
    requires groups != [] && start <= end < |groups[0].segments|
    requires groups[0].segments[start].key == k.startKey && groups[0].segments[end].key == k.endKey
    requires ResolveSpan(groups[0].segments, start, end, position, k.hint).Some?
    ensures ResolvedIn(groups, position, k, ResolveSpan(groups[0].segments, start, end, position, k.hint).value, 0,
            start, end)
  {
    var segs := groups[0].segments;
    OffsetStep(segs, start);
    OffsetStep(segs, end);
    assert groups[..0] == [];
    assert |SegText(Flatten(groups[..0]))| == 0;
  }

  lemma {:induction false} ResolvedInTail(groups: seq<Group>, position: nat, k: KeyedHint, h: Hint, g: nat, i: nat,
                                          j: nat)
    requires groups != []
    requires ResolvedIn(groups[1..], position + |SegText(groups[0].segments)|, k, h, g, i, j)
    ensures ResolvedIn(groups, position, k, h, g + 1, i, j)
  {
    var tail := groups[1..];
    assert groups[..g + 1] == [groups[0]] + tail[..g];
    FlattenCons(groups[0], tail[..g]);
    SegTextAppend(groups[0].segments, Flatten(tail[..g]));
  }

  lemma {:induction false} ResolvedInside(groups: seq<Group>, position: nat, k: KeyedHint, h: Hint, g: nat, i: nat,
                                          j: nat)
    requires ResolvedIn(groups, position, k, h, g, i, j)
    ensures position <= h.startOffset < h.endOffset <= position + |SegText(Flatten(groups))|
  {
    var segs := groups[g].segments;
    OffsetStep(segs, j);
    FlattenGroupPrefix(groups, g, j + 1);
    TextPrefix(Flatten(groups[..g]) + segs[..j + 1], Flatten(groups));
    SegTextAppend(Flatten(groups[..g]), segs[..j + 1]);
  }

  /**
   * A resolved hint is a non-empty range inside one group, its segments share one visual line, and
   * it ends in a segment that this request appended: old text alone can never receive a new hint.
   */
  lemma {:induction false} ResolveHintMeaning(groups: seq<Group>, position: nat, k: KeyedHint)
    requires ResolveFrom(groups, position, k).Some?
    ensures Resolves(groups, position, k, ResolveFrom(groups, position, k).value)
    ensures var h := ResolveFrom(groups, position, k).value;
            position <= h.startOffset < h.endOffset <= position + |SegText(Flatten(groups))|
  {
    var h := ResolveFrom(groups, position, k).value;
    var segs := groups[0].segments;
    var start, end := FindKey(segs, k.startKey), FindKey(segs, k.endKey);
    if start <= end < |segs| {
      ResolveSpanMeaning(groups, position, k, start, end);
      ResolvedInside(groups, position, k, h, 0, start, end);
    } else {
      var rest := position + |SegText(segs)|;
      ResolveHintMeaning(groups[1..], rest, k);
      var g: nat, i: nat, j: nat :| ResolvedIn(groups[1..], rest, k, h, g, i, j);
      ResolvedInTail(groups, position, k, h, g, i, j);
      ResolvedInside(groups, position, k, h, g + 1, i, j);
    }
  }

  lemma {:induction false} DistinctParts(a: seq<Segment>, b: seq<Segment>)
    requires DistinctKeys(a + b)
    ensures DistinctKeys(a) && DistinctKeys(b)
    ensures forall i, j | 0 <= i < |a| && 0 <= j < |b| :: a[i].key != b[j].key
  {
    forall i, j | 0 <= i < j < |a|
      ensures a[i].key != a[j].key
    {
      assert (a + b)[i] == a[i] && (a + b)[j] == a[j];
    }
    forall i, j | 0 <= i < j < |b|
      ensures b[i].key != b[j].key
    {
      assert (a + b)[|a| + i] == b[i] && (a + b)[|a| + j] == b[j];
    }
    forall i, j | 0 <= i < |a| && 0 <= j < |b|
      ensures a[i].key != b[j].key
    {
      assert (a + b)[i] == a[i] && (a + b)[|a| + j] == b[j];
    }
  }

  /** Where keys are distinct, the search finds the only segment with the key. */
  lemma {:induction false} FindKeyOnly(segs: seq<Segment>, i: nat)
    requires DistinctKeys(segs) && i < |segs|
    ensures FindKey(segs, segs[i].key) == i
  {
  }

  lemma {:induction false} ResolvedInHead(groups: seq<Group>, position: nat, k: KeyedHint, h: Hint, g: nat, i: nat,
                                          j: nat)
    requires groups != [] && g > 0 && ResolvedIn(groups, position, k, h, g, i, j)
    ensures ResolvedIn(groups[1..], position + |SegText(groups[0].segments)|, k, h, g - 1, i, j)
  {
    hide HintableSpan, OffsetsInside;
    var tail := groups[1..];
    assert groups[..g] == [groups[0]] + tail[..g - 1];
    FlattenCons(groups[0], tail[..g - 1]);
    SegTextAppend(groups[0].segments, Flatten(tail[..g - 1]));
  }

  /** What the keys and offsets of a hint denote is what the search returns: no earlier group holds its keys. */
  lemma {:induction false} DistinctHead(groups: seq<Group>)
    requires groups != [] && DistinctKeys(Flatten(groups))
    ensures DistinctKeys(groups[0].segments) && DistinctKeys(Flatten(groups[1..]))
    ensures forall i, j | 0 <= i < |groups[0].segments| && 0 <= j < |Flatten(groups[1..])| ::
              groups[0].segments[i].key != Flatten(groups[1..])[j].key
  {
    hide Flatten, DistinctKeys;
    assert groups == [groups[0]] + groups[1..];
    FlattenCons(groups[0], groups[1..]);
    DistinctParts(groups[0].segments, Flatten(groups[1..]));
  }

  lemma {:induction false} ResolvedFirst(groups: seq<Group>, position: nat, k: KeyedHint, h: Hint, i: nat, j: nat)
    requires DistinctKeys(Flatten(groups)) && ResolvedIn(groups, position, k, h, 0, i, j)
    ensures ResolveFrom(groups, position, k) == Some(h)
  {
    hide HintableSpan, OffsetsInside, DistinctKeys, Offset;
    DistinctHead(groups);
    FindKeyOnly(groups[0].segments, i);
    FindKeyOnly(groups[0].segments, j);
    assert groups[..0] == [];
  }

  lemma {:induction false} ResolvedSkips(groups: seq<Group>, position: nat, k: KeyedHint, h: Hint, g: nat, i: nat,
                                         j: nat)
    requires DistinctKeys(Flatten(groups)) && ResolvedIn(groups, position, k, h, g, i, j) && g > 0
    ensures var rest := position + |SegText(groups[0].segments)|;
            && ResolvedIn(groups[1..], rest, k, h, g - 1, i, j) && DistinctKeys(Flatten(groups[1..]))
            && ResolveFrom(groups, position, k) == ResolveFrom(groups[1..], rest, k)
  {
    var segs, tail := groups[0].segments, groups[1..];
    assert tail[g - 1] == groups[g] && tail[g - 1].segments[i].key == k.startKey;
    ResolvedInHead(groups, position, k, h, g, i, j);
    hide ResolvedIn, DistinctKeys, Flatten, SegText, ResolveSpan, FindKey;
    DistinctHead(groups);
    InFlat(tail, g - 1, i);
    assert FindKey(segs, k.startKey) == |segs|;
  }

  lemma {:induction false} ResolvedFound(groups: seq<Group>, position: nat, k: KeyedHint, h: Hint, g: nat, i: nat,
                                         j: nat)
    requires DistinctKeys(Flatten(groups)) && ResolvedIn(groups, position, k, h, g, i, j)
    ensures ResolveFrom(groups, position, k) == Some(h)
    decreases |groups|
  {
    hide ResolveFrom, DistinctKeys, Flatten, HintableSpan, OffsetsInside;
    if g == 0 {
      ResolvedFirst(groups, position, k, h, i, j);
    } else {
      ResolvedSkips(groups, position, k, h, g, i, j);
      ResolvedFound(groups[1..], position + |SegText(groups[0].segments)|, k, h, g - 1, i, j);
    }
  }

  lemma {:induction false} InFlat(groups: seq<Group>, g: nat, i: nat)
    requires g < |groups| && i < |groups[g].segments|
    ensures exists n | 0 <= n < |Flatten(groups)| :: Flatten(groups)[n] == groups[g].segments[i]
  {
    var part := Flatten(groups[..g]) + groups[g].segments[..i + 1];
    FlattenGroupPrefix(groups, g, i + 1);
    assert part[|part| - 1] == groups[g].segments[i];
    assert Flatten(groups)[|part| - 1] == part[|part| - 1];
  }

  /**
   * In a snapshot whose keys are distinct a hint resolves exactly when some group holds both keys in order as a
   * hintable span around its offsets, and then to exactly the range those offsets denote.
   */
  lemma {:induction false} ResolveHintIff(s: Snapshot, k: KeyedHint, h: Hint)
    requires DistinctKeys(Segments(s))
    ensures ResolveHint(k, s) == Some(h) <==> Resolves(s.captions, 0, k, h)
  {
    hide ResolvedIn, ResolveFrom;
    if ResolveHint(k, s) == Some(h) {
      ResolveHintMeaning(s.captions, 0, k);
    }
    if Resolves(s.captions, 0, k, h) {
      var g: nat, i: nat, j: nat :| ResolvedIn(s.captions, 0, k, h, g, i, j);
      ResolvedFound(s.captions, 0, k, h, g, i, j);
    }
  }

  // ---- Responses ----------------------------------------------------------------------------

  function AppendedKeys(segs: seq<Segment>): seq<Key> {
    if segs == [] then []
    else
      var rest := AppendedKeys(segs[..|segs| - 1]);
      if segs[|segs| - 1].append then rest + [segs[|segs| - 1].key] else rest
  }

  lemma {:induction false} AppendedKeysAre(segs: seq<Segment>, key: Key)
    ensures key in AppendedKeys(segs) <==> exists i :: 0 <= i < |segs| && segs[i].append && segs[i].key == key
  {
    if segs == [] {
    } else {
      var last := |segs| - 1;
      AppendedKeysAre(segs[..last], key);
      if key in AppendedKeys(segs) && key in AppendedKeys(segs[..last]) {
        var i :| 0 <= i < last && segs[..last][i].append && segs[..last][i].key == key;
        assert segs[i].append && segs[i].key == key;
      }
      if i :| 0 <= i < |segs| && segs[i].append && segs[i].key == key {
        if i < last {
          assert segs[..last][i].append;
        }
      }
    }
  }

  predicate HintEvidence(h: Hint, evidence: Evidence) {
    evidence(h) && 1 <= h.version <= MAX_SAFE_INTEGER
  }

  function Resolutions(hints: seq<KeyedHint>, s: Snapshot): (rs: seq<Option<Hint>>)
    ensures |rs| == |hints|
    ensures forall i | 0 <= i < |hints| :: rs[i] == ResolveHint(hints[i], s)
  {
    seq(|hints|, i requires 0 <= i < |hints| => ResolveHint(hints[i], s))
  }

  /** Every hint resolved, and each range ends before any later one starts. */
  predicate Consecutive(rs: seq<Option<Hint>>) {
    && (forall i | 0 <= i < |rs| :: rs[i].Some?)
    && (forall i, j | 0 <= i < j < |rs| :: rs[i].value.endOffset <= rs[j].value.startOffset)
  }

  /** Sound evidence, one version, and consecutive disjoint ranges in the snapshot. */
  predicate GoodHints(hints: seq<KeyedHint>, s: Snapshot, evidence: Evidence) {
    && (forall i | 0 <= i < |hints| :: HintEvidence(hints[i].hint, evidence))
    && (forall i, j | 0 <= i < j < |hints| :: hints[i].hint.version == hints[j].hint.version)
    && Consecutive(Resolutions(hints, s))
  }

  /**
   * The response answers this request: it covers exactly the appended keys, in order, and its hints
   * resolve to consecutive disjoint ranges, all of one lexicon version.
   */
  predicate Answers(body: Response, request: Request, evidence: Evidence) {
    && IsCaptionHintRequest(request)
    && body.processedKeys == AppendedKeys(Segments(request.current))
    && |body.hints| <= MAX_CAPTION_LENGTH
    && GoodHints(body.hints, request.current, evidence)
  }

  method ParseHintResponse(body: Response, request: Request, evidence: Evidence) returns (ok: bool)
    ensures ok <==> Answers(body, request, evidence)
  {
    if !IsCaptionHintRequest(request) {
      return false;
    }
    if body.processedKeys != AppendedKeys(Segments(request.current)) || |body.hints| > MAX_CAPTION_LENGTH {
      return false;
    }
    ok := ParseHints(body.hints, request.current, evidence);
  }

  /** The first i hints are good; end and version are those of the last one. */
  ghost predicate Parsed(hints: seq<KeyedHint>, rs: seq<Option<Hint>>, evidence: Evidence, i: nat, end: int,
                         version: Option<int>)
    requires i <= |hints| == |rs|
  {
    && (forall k | 0 <= k < i :: HintEvidence(hints[k].hint, evidence))
    && (forall k | 0 <= k < i :: Some(hints[k].hint.version) == version)
    && (i == 0 ==> version.None? && end == 0)
    && Consecutive(rs[..i])
    && (forall k | 0 <= k < i :: rs[k].value.endOffset <= end)
    && (i > 0 ==> rs[i - 1].value.endOffset == end)
  }

  lemma {:induction false} ParseStep(hints: seq<KeyedHint>, rs: seq<Option<Hint>>, evidence: Evidence, i: nat,
                                     end: int, version: Option<int>)
    requires i < |hints| == |rs| && Parsed(hints, rs, evidence, i, end, version)
    requires rs[i].Some? ==> 0 <= rs[i].value.startOffset < rs[i].value.endOffset
    ensures HintEvidence(hints[i].hint, evidence) && (version.Some? ==> version.value == hints[i].hint.version)
            && rs[i].Some? && end <= rs[i].value.startOffset
            ==> Parsed(hints, rs, evidence, i + 1, rs[i].value.endOffset, Some(hints[i].hint.version))
    ensures Consecutive(rs) ==> rs[i].Some? && end <= rs[i].value.startOffset
  {
    assert rs[..i + 1] == rs[..i] + [rs[i]];
  }

  /** The parser's loop keeps only the end of the last range and the version seen last. */
  method ParseHints(hints: seq<KeyedHint>, s: Snapshot, evidence: Evidence) returns (ok: bool)
    ensures ok <==> GoodHints(hints, s, evidence)
  {
    var end: int := 0;
    var version: Option<int> := None;
    ghost var rs := Resolutions(hints, s);
    for i := 0 to |hints|
      invariant Parsed(hints, rs, evidence, i, end, version)
    {
      var resolved := ResolveHint(hints[i], s);
      assert rs[i] == resolved;
      if resolved.Some? {
        ResolveHintMeaning(s.captions, 0, hints[i]);
      }
      ParseStep(hints, rs, evidence, i, end, version);
      if !HintEvidence(hints[i].hint, evidence) {
        return false;
      }
      if version.Some? && version.value != hints[i].hint.version {
        assert i > 0 && hints[0].hint.version == version.value;
        return false;
      }
      if resolved.None? || resolved.value.startOffset < end {
        return false;
      }
      end := resolved.value.endOffset;
      version := Some(hints[i].hint.version);
    }
    assert rs[..|rs|] == rs;
    return true;
  }
}
