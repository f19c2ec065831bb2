/** UTF-16 text as JavaScript sees it: a sequence of 16-bit code units. */
module Utf16 {
  type CodeUnit = c: int | 0 <= c < 0x1_0000

  type Text = seq<CodeUnit>

  /** Surrogates are those of section 3.8 of the Unicode Standard; pairs follow section 3.9 (D91). */
  predicate IsHigh(c: CodeUnit) {
    0xD800 <= c <= 0xDBFF
  }

  predicate IsLow(c: CodeUnit) {
    0xDC00 <= c <= 0xDFFF
  }

  /** The offset falls between the two halves of a surrogate pair. */
  predicate SplitsSurrogate(t: Text, offset: int) {
    0 < offset < |t| && IsHigh(t[offset - 1]) && IsLow(t[offset])
  }

  /** Code-point iteration meets a surrogate that stands alone. */
  predicate HasLoneSurrogate(t: Text) {
    if |t| == 0 then false
    else if |t| >= 2 && IsHigh(t[0]) && IsLow(t[1]) then HasLoneSurrogate(t[2..])
    else IsHigh(t[0]) || IsLow(t[0]) || HasLoneSurrogate(t[1..])
  }

  /** The unit at i is not a surrogate, or its other half is beside it. */
  predicate Paired(t: Text, i: int)
    requires 0 <= i < |t|
  {
    && (IsHigh(t[i]) ==> i + 1 < |t| && IsLow(t[i + 1]))
    && (IsLow(t[i]) ==> i > 0 && IsHigh(t[i - 1]))
  }

  ghost predicate WellFormed(t: Text) {
    forall i | 0 <= i < |t| :: Paired(t, i)
  }

  /** Iterating by code point finds no lone surrogate exactly when every surrogate is paired. */
  lemma {:induction false} LoneSurrogateScan(t: Text)
    ensures HasLoneSurrogate(t) <==> !WellFormed(t)
  {
    if |t| == 0 {
    } else if |t| >= 2 && IsHigh(t[0]) && IsLow(t[1]) {
      LoneSurrogateScan(t[2..]);
      assert Paired(t, 0) && Paired(t, 1);
      DropPaired(t, 2);
    } else {
      LoneSurrogateScan(t[1..]);
      if IsHigh(t[0]) || IsLow(t[0]) {
        assert !Paired(t, 0);
      } else {
        assert Paired(t, 0);
        DropPaired(t, 1);
      }
    }
  }

  lemma {:induction false} DropPaired(t: Text, n: nat)
    requires n <= |t| && !SplitsSurrogate(t, n)
    requires n < |t| ==> n == 0 || !IsHigh(t[n - 1])
    requires forall i | 0 <= i < n :: Paired(t, i)
    ensures WellFormed(t) <==> WellFormed(t[n..])
  {
    if WellFormed(t) {
      forall i | 0 <= i < |t[n..]|
        ensures Paired(t[n..], i)
      {
        assert Paired(t, n + i);
      }
    }
    if WellFormed(t[n..]) {
      forall i | 0 <= i < |t|
        ensures Paired(t, i)
      {
        if i >= n {
          assert Paired(t[n..], i - n);
        }
      }
    }
  }

  /** A slice whose two ends split no pair is well formed again. */
  lemma {:induction false} SliceWellFormed(t: Text, from: nat, to: nat)
    requires from <= to <= |t| && WellFormed(t)
    requires !SplitsSurrogate(t, from) && !SplitsSurrogate(t, to)
    ensures WellFormed(t[from..to])
  {
    forall i | 0 <= i < to - from
      ensures Paired(t[from..to], i)
    {
      assert Paired(t, from + i);
    }
  }

  lemma {:induction false} ConcatWellFormed(a: Text, b: Text)
    requires WellFormed(a) && WellFormed(b)
    ensures WellFormed(a + b)
    ensures !SplitsSurrogate(a + b, |a|)
  {
    forall i | 0 <= i < |a + b|
      ensures Paired(a + b, i)
    {
      if i < |a| {
        assert Paired(a, i);
      } else {
        assert Paired(b, i - |a|);
      }
    }
    if 0 < |a| < |a + b| {
      assert Paired(a, |a| - 1);
    }
  }

  /** JavaScript's String.prototype.endsWith. */
  predicate EndsWith(t: Text, tail: Text) {
    |tail| <= |t| && t[|t| - |tail|..] == tail
  }

  lemma {:induction false} EndsWithTransitive(a: Text, b: Text, c: Text)
    requires EndsWith(a, b) && EndsWith(b, c)
    ensures EndsWith(a, c)
  {
    var db, dc := |a| - |b|, |b| - |c|;
    assert a[db..][dc..] == a[db + dc..];
  }
}
