/** Dispatch path patterns: what they match, and when two of them share a file (work_package_contract_checks.py). */
module DispatchPath {
  import opened Wrappers

  datatype Kind = Exact | Child | Subtree

  datatype Pattern = Pattern(kind: Kind, parts: seq<string>)

  /** Whether a text is in Unicode normalization form C. */
  type Normal = string -> bool

  // ---- Splitting at slashes -------------------------------------------------------------------

  /** The parts between slashes; a text without slashes is one part. */
  function Split(s: string): (parts: seq<string>)
    ensures parts != []
  {
    if s == [] then [[]]
    else
      var before := Split(s[..|s| - 1]);
      if s[|s| - 1] == '/' then before + [[]]
      else before[..|before| - 1] + [before[|before| - 1] + [s[|s| - 1]]]
  }

  function Join(parts: seq<string>): string
    requires parts != []
  {
    if |parts| == 1 then parts[0] else Join(parts[..|parts| - 1]) + "/" + parts[|parts| - 1]
  }

  lemma {:induction false} JoinSplit(s: string)
    ensures Join(Split(s)) == s
    decreases |s|
  {
    if s == [] {
    } else {
      var n := |s| - 1;
      JoinSplit(s[..n]);
      var before, parts := Split(s[..n]), Split(s);
      assert s == s[..n] + [s[n]];
      if s[n] == '/' {
        assert parts[..|parts| - 1] == before;
      } else {
        assert parts[..|parts| - 1] == before[..|before| - 1];
      }
    }
  }

  /** Adding a part without slashes at the end adds exactly that part. */
  lemma {:induction false} SplitPart(s: string, part: string)
    requires '/' !in part
    ensures Split(s + "/" + part) == Split(s) + [part]
    decreases |part|
  {
    var text := s + "/" + part;
    if part == [] {
      assert text[..|text| - 1] == s;
    } else {
      var init := part[..|part| - 1];
      SplitPart(s, init);
      assert text[..|text| - 1] == s + "/" + init;
      assert part == init + [part[|part| - 1]];
    }
  }

  lemma {:induction false} SplitWhole(part: string)
    requires '/' !in part
    ensures Split(part) == [part]
    decreases |part|
  {
    if part == [] {
    } else {
      SplitWhole(part[..|part| - 1]);
      assert part == part[..|part| - 1] + [part[|part| - 1]];
    }
  }

  // ---- The grammar ----------------------------------------------------------------------------

  predicate Control(c: char) {
    c < ' ' || c == '\U{7F}'
  }

  predicate Letter(c: char) {
    'A' <= c <= 'Z' || 'a' <= c <= 'z'
  }

  function Lower(s: string): string {
    if s == [] then [] else Lower(s[..|s| - 1]) + [LowerChar(s[|s| - 1])]
  }

  function LowerChar(c: char): char {
    if 'A' <= c <= 'Z' then c + 32 as char else c
  }

  /** The characters that no pattern may contain. */
  predicate Forbidden(c: char) {
    c in "\\,$`~?[]{}" || Control(c)
  }

  predicate SafeText(s: string, normal: Normal) {
    && s != [] && s[0] != '/' && s[0] != '!'
    && !(|s| > 1 && Letter(s[0]) && s[1] == ':')
    && normal(s)
    && forall i | 0 <= i < |s| :: !Forbidden(s[i])
  }

  predicate Wild(part: string) {
    part == "*" || part == "**"
  }

  predicate SafePart(part: string) {
    && part != "" && part != "." && part != ".." && Lower(part) != "latest"
    && ('*' in part ==> Wild(part))
  }

  /** Every part is safe, and only the last may be a wildcard. */
  predicate SafeParts(parts: seq<string>) {
    && (forall i | 0 <= i < |parts| :: SafePart(parts[i]))
    && forall i | 0 <= i < |parts| - 1 :: !Wild(parts[i])
  }

  function Parse(s: string, normal: Normal): Option<Pattern> {
    if !SafeText(s, normal) || !SafeParts(Split(s)) then None
    else
      var parts := Split(s);
      var n := |parts| - 1;
      if parts[n] == "*" then Some(Pattern(Child, parts[..n]))
      else if parts[n] == "**" then Some(Pattern(Subtree, parts[..n]))
      else Some(Pattern(Exact, parts))
  }

  // ---- Matching -------------------------------------------------------------------------------

  predicate Admits(p: Pattern, path: seq<string>) {
    match p.kind
    case Exact => path == p.parts
    case Child => |path| == |p.parts| + 1 && path[..|p.parts|] == p.parts
    case Subtree => |path| > |p.parts| && path[..|p.parts|] == p.parts
  }

  /** None stands for the error raised when either argument is malformed, or the path is not exact. */
  function Match(path: string, pattern: string, normal: Normal): Option<bool> {
    var left, right := Parse(path, normal), Parse(pattern, normal);
    if left.None? || right.None? || left.value.kind != Exact then None
    else Some(Admits(right.value, left.value.parts))
  }

  function Intersect(left: string, right: string, normal: Normal): Option<bool> {
    var l, r := Parse(left, normal), Parse(right, normal);
    if l.None? || r.None? then None
    else if l.value.kind == Exact then Match(Join(l.value.parts), right, normal)
    else if r.value.kind == Exact then Match(Join(r.value.parts), left, normal)
    else if l.value.kind == Child && r.value.kind == Child then Some(l.value.parts == r.value.parts)
    else if l.value.kind == Subtree && r.value.kind == Subtree then
      var small, large := if |r.value.parts| < |l.value.parts| then r.value.parts else l.value.parts,
                          if |r.value.parts| < |l.value.parts| then l.value.parts else r.value.parts;
      Some(small <= large)
    else
      var subtree, child := if l.value.kind == Subtree then l.value.parts else r.value.parts,
                            if l.value.kind == Subtree then r.value.parts else l.value.parts;
      Some(subtree <= child && |child| >= |subtree|)
  }

  // ---- A file in both -------------------------------------------------------------------------

  /** Plain characters at the end neither make nor break normalization. */
  ghost predicate PlainTails(normal: Normal) {
    forall s: string, t: string {:trigger normal(s + t)} :: Plain(t) ==> normal(s + t) == normal(s)
  }

  predicate Plain(s: string) {
    forall i | 0 <= i < |s| :: s[i] < '\U{80}'
  }

  const LEAF := "a"

  /** The path of a file directly below the prefix. */
  function Below(parts: seq<string>): string {
    if parts == [] then LEAF else Join(parts) + "/" + LEAF
  }

  ghost predicate Common(left: string, right: string, path: string, normal: Normal) {
    Match(path, left, normal) == Some(true) && Match(path, right, normal) == Some(true)
  }

  /** Some exact path matches both patterns. */
  ghost predicate Shared(left: string, right: string, normal: Normal) {
    exists path :: Common(left, right, path, normal)
  }

  lemma {:induction false} SplitBelow(parts: seq<string>, s: string)
    requires parts == [] || Split(s) == parts
    ensures parts == [] ==> Split(Below(parts)) == [LEAF]
    ensures parts != [] ==> Join(parts) == s && Split(Below(parts)) == parts + [LEAF]
  {
    if parts == [] {
      SplitWhole(LEAF);
    } else {
      JoinSplit(s);
      SplitPart(s, LEAF);
    }
  }

  /** A text that ends in a wildcard part is the prefix, a slash, and the wildcard. */
  lemma {:induction false} WildShape(s: string, wild: string) returns (prefix: string)
    requires Wild(wild) && Split(s)[|Split(s)| - 1] == wild
    ensures if |Split(s)| == 1 then s == wild
            else s == prefix + "/" + wild && Split(prefix) == Split(s)[..|Split(s)| - 1]
  {
    var parts := Split(s);
    JoinSplit(s);
    prefix := "";
    if |parts| > 1 {
      var init := parts[..|parts| - 1];
      prefix := Join(init);
      SlashFree(s);
      SplitJoin(init);
    }
  }

  lemma {:induction false} SlashFree(s: string)
    ensures forall i | 0 <= i < |Split(s)| :: '/' !in Split(s)[i]
    decreases |s|
  {
    if s == [] {
    } else {
      SlashFree(s[..|s| - 1]);
    }
  }

  lemma {:induction false} SplitJoin(parts: seq<string>)
    requires parts != [] && forall i | 0 <= i < |parts| :: '/' !in parts[i]
    ensures Split(Join(parts)) == parts
    decreases |parts|
  {
    hide Split;
    var n := |parts| - 1;
    if n == 0 {
      SplitWhole(parts[0]);
    } else {
      SplitJoin(parts[..n]);
      SplitPart(Join(parts[..n]), parts[n]);
    }
  }

  /** The text below a valid wildcard pattern is a valid exact path. */
  lemma {:induction false} BelowParses(s: string, normal: Normal)
    requires PlainTails(normal) && Parse(s, normal).Some? && Parse(s, normal).value.kind != Exact
    ensures Parse(Below(Parse(s, normal).value.parts), normal)
            == Some(Pattern(Exact, Parse(s, normal).value.parts + [LEAF]))
  {
    hide SafePart, SafeText, PlainTails, Split, Join, Below, Lower;
    var parts := Split(s);
    var n := |parts| - 1;
    var prefix := WildShape(s, parts[n]);
    SplitBelow(parts[..n], prefix);
    BelowSafe(s, prefix, parts[n], parts[..n], normal);
    LeafInstead(parts);
    var below := parts[..n] + [LEAF];
    assert Split(Below(parts[..n])) == below;
    assert below[n] == LEAF && below[..n] == parts[..n];
  }

  lemma {:induction false} LeafInstead(parts: seq<string>)
    requires parts != [] && SafeParts(parts)
    ensures SafeParts(parts[..|parts| - 1] + [LEAF])
  {
    hide SafePart;
    LeafSafe();
    var below := parts[..|parts| - 1] + [LEAF];
    forall i | 0 <= i < |below|
      ensures SafePart(below[i]) && (i < |below| - 1 ==> !Wild(below[i]))
    {
      if i < |parts| - 1 {
        assert SafePart(parts[i]) && !Wild(parts[i]);
      }
    }
  }

  lemma {:induction false} LeafSafe()
    ensures SafePart(LEAF) && !Wild(LEAF) && Plain(LEAF) && Plain("*") && Plain("**") && !Forbidden(LEAF[0])
            && !Forbidden('/')
  {
    LeafPart();
    PlainMarks();
  }

  lemma {:induction false} LowerOne(c: char)
    ensures |Lower([c])| == 1
  {
    assert [c][..0] == [];
  }

  lemma {:induction false} LeafPart()
    ensures SafePart(LEAF) && !Wild(LEAF)
  {
    hide Lower;
    LowerOne('a');
    assert LEAF == ['a'];
    assert |"latest"| == 6 && |".."| == |"**"| == 2 && "."[0] == '.' && "*"[0] == '*';
  }

  lemma {:induction false} PlainMarks()
    ensures Plain(LEAF) && Plain("*") && Plain("**")
  {
    assert LEAF[0] == 'a' && "*"[0] == '*' && "**"[0] == '*' && "**"[1] == '*';
  }

  lemma {:induction false} BelowSafe(s: string, prefix: string, wild: string, init: seq<string>, normal: Normal)
    requires PlainTails(normal) && SafeText(s, normal) && Wild(wild)
    requires if init == [] then s == wild else s == prefix + "/" + wild && Join(init) == prefix
    ensures SafeText(Below(init), normal)
  {
    hide Forbidden;
    LeafSafe();
    var text := Below(init);
    var head := if init == [] then "" else prefix + "/";
    assert s == head + wild && text == head + LEAF;
    assert normal(head + wild) == normal(head) == normal(head + LEAF);
    forall i | 0 <= i < |text|
      ensures !Forbidden(text[i])
    {
      if i < |head| {
        assert text[i] == s[i];
      }
    }
    if init != [] {
      assert s[0] == text[0];
    }
  }

  /** What the code decides about two parsed patterns. */
  predicate Overlap(l: Pattern, r: Pattern) {
    if l.kind == Exact then Admits(r, l.parts)
    else if r.kind == Exact then Admits(l, r.parts)
    else if l.kind == Child && r.kind == Child then l.parts == r.parts
    else if l.kind == Subtree && r.kind == Subtree then l.parts <= r.parts || r.parts <= l.parts
    else if l.kind == Subtree then l.parts <= r.parts
    else r.parts <= l.parts
  }

  /** A path in both, built from the longer prefix; for an exact pattern its own path. */
  function Witness(l: Pattern, r: Pattern): seq<string> {
    if l.kind == Exact then l.parts
    else if r.kind == Exact then r.parts
    else (if |l.parts| >= |r.parts| then l.parts else r.parts) + [LEAF]
  }

  /** Two patterns overlap exactly when some sequence of parts is admitted by both. */
  lemma {:induction false} OverlapIff(l: Pattern, r: Pattern)
    ensures Overlap(l, r) <==> exists path :: Admits(l, path) && Admits(r, path)
    ensures Overlap(l, r) ==> Admits(l, Witness(l, r)) && Admits(r, Witness(l, r))
  {
    if Overlap(l, r) {
      assert Admits(l, Witness(l, r)) && Admits(r, Witness(l, r));
    }
    if path :| Admits(l, path) && Admits(r, path) {
      if l.kind != Exact {
        assert l.parts == path[..|l.parts|];
      }
      if r.kind != Exact {
        assert r.parts == path[..|r.parts|];
      }
    }
  }

  lemma {:induction false} ExactMatch(path: string, normal: Normal)
    requires Parse(path, normal).Some? && Parse(path, normal).value.kind == Exact
    ensures Join(Parse(path, normal).value.parts) == path
  {
    hide SafeText, SafeParts;
    JoinSplit(path);
  }

  lemma {:induction false} IntersectFound(left: string, right: string, normal: Normal) returns (path: string)
    requires PlainTails(normal) && Intersect(left, right, normal) == Some(true)
    ensures Common(left, right, path, normal)
  {
    hide SafeText, SafeParts, PlainTails, Split, Join;
    var l, r := Parse(left, normal).value, Parse(right, normal).value;
    if l.kind == Exact {
      ExactMatch(left, normal);
      path := left;
    } else if r.kind == Exact {
      ExactMatch(right, normal);
      path := right;
    } else {
      assert Overlap(l, r);
      OverlapIff(l, r);
      var longer := if |l.parts| >= |r.parts| then left else right;
      BelowParses(longer, normal);
      path := Below(Parse(longer, normal).value.parts);
    }
  }

  lemma {:induction false} CommonIntersects(left: string, right: string, path: string, normal: Normal)
    requires Common(left, right, path, normal)
    ensures Intersect(left, right, normal) == Some(true)
  {
    hide SafeText, SafeParts, Split, Join;
    var l, r, p := Parse(left, normal).value, Parse(right, normal).value, Parse(path, normal).value;
    ExactMatch(path, normal);
    if l.kind == Exact {
      ExactMatch(left, normal);
    } else if r.kind == Exact {
      ExactMatch(right, normal);
    } else {
      OverlapIff(l, r);
    }
  }

  /** Two valid patterns intersect exactly when some exact path matches both. */
  lemma {:induction false} IntersectIff(left: string, right: string, normal: Normal)
    requires PlainTails(normal) && Parse(left, normal).Some? && Parse(right, normal).Some?
    ensures Intersect(left, right, normal) == Some(true) <==> Shared(left, right, normal)
  {
    hide Intersect, Common, Parse;
    if Intersect(left, right, normal) == Some(true) {
      var path := IntersectFound(left, right, normal);
      assert Common(left, right, path, normal);
    }
    if path :| Common(left, right, path, normal) {
      CommonIntersects(left, right, path, normal);
    }
  }

  /** The order of the two patterns does not matter, errors included. */
  lemma {:induction false} IntersectSymmetric(left: string, right: string, normal: Normal)
    ensures Intersect(left, right, normal) == Intersect(right, left, normal)
  {
    hide SafeText, SafeParts, Split, Join;
    var l, r := Parse(left, normal), Parse(right, normal);
    if l.Some? && r.Some? {
      if l.value.kind == Exact {
        ExactMatch(left, normal);
      }
      if r.value.kind == Exact {
        ExactMatch(right, normal);
      }
    }
  }
}
