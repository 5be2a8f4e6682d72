/** Splitting and joining at a separator. */
module Strings {
  /** strings.Split at a single character. */
  function Split(s: string, c: char): (parts: seq<string>)
    ensures |parts| >= 1
  {
    if s == "" then [""]
    else
      var rest := Split(s[1..], c);
      if s[0] == c then [""] + rest else [[s[0]] + rest[0]] + rest[1..]
  }

  function Join(parts: seq<string>, c: char): string {
    if parts == [] then "" else if |parts| == 1 then parts[0] else parts[0] + [c] + Join(parts[1..], c)
  }

  predicate Free(parts: seq<string>, c: char) { forall p | p in parts :: c !in p }

  lemma {:induction false} SplitFree(s: string, c: char)
    ensures Free(Split(s, c), c)
  {
    if s != "" { SplitFree(s[1..], c); }
  }

  lemma {:induction false} JoinSplit(s: string, c: char)
    ensures Join(Split(s, c), c) == s
  {
    if s != "" {
      JoinSplit(s[1..], c);
      var rest := Split(s[1..], c);
      if s[0] == c {
        assert ([""] + rest)[1..] == rest;
      } else {
        assert ([[s[0]] + rest[0]] + rest[1..])[1..] == rest[1..];
        assert s == [s[0]] + s[1..];
      }
    }
  }

  lemma {:induction false} SplitStep(s: string, c: char)
    requires s != ""
    ensures s[0] == c ==> Split(s, c) == [""] + Split(s[1..], c)
    ensures s[0] != c ==> Split(s, c) == [[s[0]] + Split(s[1..], c)[0]] + Split(s[1..], c)[1..]
  {}

  lemma {:induction false} SplitAppend(a: string, b: string, c: char)
    ensures Split(a + [c] + b, c) == Split(a, c) + Split(b, c)
  {
    var t := a + [c] + b;
    SplitStep(t, c);
    if a == "" {
      assert t[1..] == b;
    } else {
      SplitAppend(a[1..], b, c);
      SplitStep(a, c);
      assert t[0] == a[0];
      assert t[1..] == a[1..] + [c] + b;
      ConsAppend(a[0], Split(a[1..], c), Split(b, c));
    }
  }

  lemma {:induction false} ConsAppend(d: char, x: seq<string>, y: seq<string>)
    requires x != []
    ensures [[d] + (x + y)[0]] + (x + y)[1..] == [[d] + x[0]] + x[1..] + y
    ensures [""] + (x + y) == [""] + x + y
  {}

  lemma {:induction false} SplitWhole(s: string, c: char)
    requires c !in s
    ensures Split(s, c) == [s]
  {
    if s != "" {
      assert forall x | x in s[1..] :: x in s;
      SplitWhole(s[1..], c);
      assert s == [s[0]] + s[1..];
    }
  }

  lemma {:induction false} SplitJoin(parts: seq<string>, c: char)
    requires parts != [] && Free(parts, c)
    ensures Split(Join(parts, c), c) == parts
  {
    SplitWhole(parts[0], c);
    if |parts| > 1 {
      SplitJoin(parts[1..], c);
      SplitAppend(parts[0], Join(parts[1..], c), c);
    }
  }

  lemma {:induction false} JoinAppend(a: seq<string>, b: seq<string>, c: char)
    requires a != [] && b != []
    ensures Join(a + b, c) == Join(a, c) + [c] + Join(b, c)
  {
    if |a| == 1 {
      assert (a + b)[1..] == b;
    } else {
      JoinAppend(a[1..], b, c);
      assert (a + b)[1..] == a[1..] + b;
    }
  }

  predicate Around(s: string, before: string, part: string, after: string, c: char) {
    && s == before + part + after
    && (before == "" || before[|before| - 1] == c) && (after == "" || after[0] == c)
  }

  /** part occurs in s as a whole segment between separators or the ends. */
  ghost predicate Occurs(s: string, part: string, c: char) {
    exists before: string, after: string :: Around(s, before, part, after, c)
  }

  /** The segments of a string are exactly what occurs in it between separators. */
  lemma {:induction false} SegmentsOccur(s: string, part: string, c: char)
    requires c !in part
    ensures part in Split(s, c) <==> Occurs(s, part, c)
  {
    if part in Split(s, c) {
      var k :| 0 <= k < |Split(s, c)| && Split(s, c)[k] == part;
      SegmentOccurs(s, c, k);
    }
    if Occurs(s, part, c) {
      var before: string, after: string :| Around(s, before, part, after, c);
      OccurrenceIsSegment(before, part, after, c);
    }
  }

  lemma {:induction false} JoinAround(parts: seq<string>, c: char, k: nat)
    requires k < |parts|
    ensures Join(parts, c)
      == (if k == 0 then "" else Join(parts[..k], c) + [c])
        + parts[k]
        + (if k == |parts| - 1 then "" else [c] + Join(parts[k + 1..], c))
  {
    assert parts == parts[..k] + parts[k..] && parts[k..] == [parts[k]] + parts[k + 1..];
    if k > 0 { JoinAppend(parts[..k], parts[k..], c); }
    if k < |parts| - 1 { JoinAppend([parts[k]], parts[k + 1..], c); }
  }

  lemma {:induction false} SegmentOccurs(s: string, c: char, k: nat)
    requires k < |Split(s, c)|
    ensures Occurs(s, Split(s, c)[k], c)
  {
    var parts := Split(s, c);
    JoinSplit(s, c);
    JoinAround(parts, c, k);
    var before := if k == 0 then "" else Join(parts[..k], c) + [c];
    var after := if k == |parts| - 1 then "" else [c] + Join(parts[k + 1..], c);
    assert Around(s, before, parts[k], after, c);
  }

  lemma {:induction false} SegmentFirst(part: string, after: string, c: char)
    requires c !in part && (after == "" || after[0] == c)
    ensures part in Split(part + after, c)
  {
    SplitWhole(part, c);
    if after == "" {
      assert part + after == part;
    } else {
      assert part + after == part + [c] + after[1..];
      SplitAppend(part, after[1..], c);
    }
  }

  lemma {:induction false} OccurrenceIsSegment(before: string, part: string, after: string, c: char)
    requires c !in part && (before == "" || before[|before| - 1] == c) && (after == "" || after[0] == c)
    ensures part in Split(before + part + after, c)
  {
    SegmentFirst(part, after, c);
    if before == "" {
      assert before + part + after == part + after;
    } else {
      var b := before[..|before| - 1];
      assert before + part + after == b + [c] + (part + after);
      SplitAppend(b, part + after, c);
    }
  }

  predicate FoundAt(s: string, sub: string, i: nat) { i + |sub| <= |s| && s[i..i + |sub|] == sub }

  ghost predicate Contains(s: string, sub: string) { exists i: nat :: FoundAt(s, sub, i) }

  /** strings.Contains. */
  method Search(s: string, sub: string) returns (found: bool)
    ensures found <==> Contains(s, sub)
  {
    var i := 0;
    while i + |sub| <= |s|
      invariant forall j: nat | j < i :: !FoundAt(s, sub, j)
    {
      if s[i..i + |sub|] == sub {
        assert FoundAt(s, sub, i);
        return true;
      }
      i := i + 1;
    }
    return false;
  }

  lemma {:induction false} OccursContains(s: string, part: string, c: char)
    requires Occurs(s, part, c)
    ensures Contains(s, part)
  {
    var before: string, after: string :| Around(s, before, part, after, c);
    assert FoundAt(s, part, |before|);
  }

  lemma {:induction false} NotWithout(s: string, sub: string)
    requires sub != "" && sub[0] !in s
    ensures !Contains(s, sub)
  {
    assert forall i: nat | FoundAt(s, sub, i) :: s[i] == s[i..i + |sub|][0];
  }

  /** Something free of the separator occurs in two strings joined exactly if it occurs in one of them. */
  lemma {:induction false} ContainsAcross(a: string, b: string, sub: string, c: char)
    requires c !in sub
    ensures Contains(a + [c] + b, sub) <==> Contains(a, sub) || Contains(b, sub)
  {
    var s := a + [c] + b;
    if i: nat :| FoundAt(a, sub, i) {
      assert FoundAt(s, sub, i);
    }
    if i: nat :| FoundAt(b, sub, i) {
      assert s[|a| + 1..] == b;
      assert s[|a| + 1 + i..|a| + 1 + i + |sub|] == b[i..i + |sub|];
      assert FoundAt(s, sub, |a| + 1 + i);
    }
    if i: nat :| FoundAt(s, sub, i) {
      AcrossSide(a, b, sub, c, i);
    }
  }

  lemma {:induction false} AcrossSide(a: string, b: string, sub: string, c: char, i: nat)
    requires c !in sub && FoundAt(a + [c] + b, sub, i)
    ensures Contains(a, sub) || Contains(b, sub)
  {
    var s := a + [c] + b;
    var window := s[i..i + |sub|];
    assert forall k | i <= k < i + |sub| :: s[k] == window[k - i] && s[k] in window;
    assert s[|a|] == c;
    if i + |sub| <= |a| {
      assert a[i..i + |sub|] == sub;
      assert FoundAt(a, sub, i);
    } else {
      var j := i - |a| - 1;
      assert b[j..j + |sub|] == sub;
      assert FoundAt(b, sub, j);
    }
  }

  /** And in any number of strings joined exactly if it occurs in one of them. */
  lemma {:induction false} ContainsInPart(parts: seq<string>, sub: string, c: char)
    requires parts != [] && c !in sub
    ensures Contains(Join(parts, c), sub) <==> exists p :: p in parts && Contains(p, sub)
  {
    if |parts| > 1 {
      ContainsAcross(parts[0], Join(parts[1..], c), sub, c);
      ContainsInPart(parts[1..], sub, c);
      assert forall p :: p in parts <==> p == parts[0] || p in parts[1..];
    } else {
      assert forall p :: p in parts <==> p == parts[0];
    }
  }
}
