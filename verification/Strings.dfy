/** The string operations the program takes from Go's standard library, and what they do to one another. */
module Strings {

  datatype Option<+T> = None | Some(value: T)

  datatype Result<+T> = Ok(value: T) | Err

  /** The parts of [x] + s, given the parts of s. */
  function Push(x: char, parts: seq<string>, c: char): (r: seq<string>)
    requires parts != []
    ensures r != []
  {
    if x == c then [""] + parts else [[x] + parts[0]] + parts[1..]
  }

  /** strings.Split with a one-character separator. */
  function Split(s: string, c: char): (parts: seq<string>)
    ensures parts != []
  {
    if s == "" then [""] else Push(s[0], Split(s[1..], c), c)
  }

  /** strings.Join with a one-character separator. */
  function Join(parts: seq<string>, c: char): string {
    if |parts| == 0 then ""
    else if |parts| == 1 then parts[0]
    else parts[0] + [c] + Join(parts[1..], c)
  }

  function NonEmpty(parts: seq<string>): seq<string> {
    if parts == [] then []
    else if parts[0] == "" then NonEmpty(parts[1..])
    else [parts[0]] + NonEmpty(parts[1..])
  }

  /** The maximal runs of s that are free of c. */
  function Segments(s: string, c: char): seq<string> {
    NonEmpty(Split(s, c))
  }

  predicate Free(s: string, c: char) {
    forall i :: 0 <= i < |s| ==> s[i] != c
  }

  /** Parts that can be told apart again after joining them with c. */
  predicate Proper(parts: seq<string>, c: char) {
    forall i :: 0 <= i < |parts| ==> parts[i] != "" && Free(parts[i], c)
  }

  lemma {:induction false} SplitIsFree(s: string, c: char)
    ensures forall i :: 0 <= i < |Split(s, c)| ==> Free(Split(s, c)[i], c)
  {
    if s != "" {
      SplitIsFree(s[1..], c);
    }
  }

  lemma JoinOfPush(x: char, parts: seq<string>, c: char)
    requires parts != []
    ensures Join(Push(x, parts, c), c) == [x] + Join(parts, c)
  {
    if x == c {
      assert ([""] + parts)[1..] == parts;
    } else {
      assert ([[x] + parts[0]] + parts[1..])[1..] == parts[1..];
    }
  }

  lemma {:induction false} JoinOfSplit(s: string, c: char)
    ensures Join(Split(s, c), c) == s
  {
    if s != "" {
      JoinOfSplit(s[1..], c);
      JoinOfPush(s[0], Split(s[1..], c), c);
    }
  }

  lemma {:induction false} SplitOfFree(s: string, c: char)
    requires Free(s, c)
    ensures Split(s, c) == [s]
  {
    if s != "" {
      SplitOfFree(s[1..], c);
      assert s == [s[0]] + s[1..];
    }
  }

  lemma PushAppend(x: char, p: seq<string>, q: seq<string>, c: char)
    requires p != []
    ensures Push(x, p + q, c) == Push(x, p, c) + q
  {
    assert (p + q)[1..] == p[1..] + q;
  }

  /** Splitting distributes over a separator written into a text. */
  lemma {:induction false} SplitAppend(a: string, b: string, c: char)
    ensures Split(a + [c] + b, c) == Split(a, c) + Split(b, c)
  {
    if a == "" {
      assert (a + [c] + b)[1..] == b;
    } else {
      SplitAppend(a[1..], b, c);
      assert (a + [c] + b)[1..] == a[1..] + [c] + b;
      PushAppend(a[0], Split(a[1..], c), Split(b, c), c);
    }
  }

  lemma {:induction false} SplitOfJoin(parts: seq<string>, c: char)
    requires parts != []
    requires forall i :: 0 <= i < |parts| ==> Free(parts[i], c)
    ensures Split(Join(parts, c), c) == parts
  {
    SplitOfFree(parts[0], c);
    if |parts| > 1 {
      SplitOfJoin(parts[1..], c);
      SplitAppend(parts[0], Join(parts[1..], c), c);
      assert parts == [parts[0]] + parts[1..];
    }
  }

  lemma {:induction false} JoinAppend(a: seq<string>, b: seq<string>, c: char)
    requires a != [] && b != []
    ensures Join(a + b, c) == Join(a, c) + [c] + Join(b, c)
  {
    if |a| == 1 {
      assert (a + b)[1..] == b;
    } else {
      JoinAppend(a[1..], b, c);
      assert (a + b)[1..] == a[1..] + b;
    }
  }

  lemma {:induction false} NonEmptyOfProper(parts: seq<string>, c: char)
    requires Proper(parts, c)
    ensures NonEmpty(parts) == parts
  {
    if parts != [] {
      NonEmptyOfProper(parts[1..], c);
    }
  }

  lemma {:induction false} NonEmptyAppend(a: seq<string>, b: seq<string>)
    ensures NonEmpty(a + b) == NonEmpty(a) + NonEmpty(b)
  {
    if a == [] {
      assert a + b == b;
    } else {
      NonEmptyAppend(a[1..], b);
      assert (a + b)[0] == a[0] && (a + b)[1..] == a[1..] + b;
      assert [a[0]] + (NonEmpty(a[1..]) + NonEmpty(b)) == [a[0]] + NonEmpty(a[1..]) + NonEmpty(b);
    }
  }

  lemma {:induction false} NonEmptyIsProper(parts: seq<string>, c: char)
    requires forall i :: 0 <= i < |parts| ==> Free(parts[i], c)
    ensures Proper(NonEmpty(parts), c)
  {
    if parts != [] {
      NonEmptyIsProper(parts[1..], c);
    }
  }

  lemma SegmentsAreProper(s: string, c: char)
    ensures Proper(Segments(s, c), c)
  {
    SplitIsFree(s, c);
    NonEmptyIsProper(Split(s, c), c);
  }

  lemma SegmentsOfJoin(parts: seq<string>, c: char)
    requires Proper(parts, c)
    ensures Segments(Join(parts, c), c) == parts
  {
    if parts == [] {
      assert Split("", c) == [""];
      assert NonEmpty([""]) == NonEmpty([]);
    } else {
      SplitOfJoin(parts, c);
      NonEmptyOfProper(parts, c);
    }
  }

  predicate IsSpace(c: char) {
    c == ' ' || c == '\t' || c == '\n' || c == '\r' || c == '\U{0B}' || c == '\U{0C}'
  }

  function TrimLeft(s: string, cut: char -> bool): string {
    if s != "" && cut(s[0]) then TrimLeft(s[1..], cut) else s
  }

  function TrimRight(s: string, cut: char -> bool): string {
    if s != "" && cut(s[|s| - 1]) then TrimRight(s[..|s| - 1], cut) else s
  }

  function Trim(s: string, cut: char -> bool): string {
    TrimRight(TrimLeft(s, cut), cut)
  }

  /** strings.TrimSpace on ASCII text. */
  function TrimSpace(s: string): string {
    Trim(s, IsSpace)
  }

  predicate AllCut(s: string, cut: char -> bool) {
    forall i :: 0 <= i < |s| ==> cut(s[i])
  }

  lemma {:induction false} TrimLeftPast(a: string, rest: string, cut: char -> bool)
    requires AllCut(a, cut)
    ensures TrimLeft(a + rest, cut) == TrimLeft(rest, cut)
  {
    if a == "" {
      assert a + rest == rest;
    } else {
      TrimLeftPast(a[1..], rest, cut);
      assert (a + rest)[1..] == a[1..] + rest;
    }
  }

  lemma {:induction false} TrimRightPast(rest: string, b: string, cut: char -> bool)
    requires AllCut(b, cut)
    ensures TrimRight(rest + b, cut) == TrimRight(rest, cut)
  {
    if b == "" {
      assert rest + b == rest;
    } else {
      TrimRightPast(rest, b[..|b| - 1], cut);
      assert (rest + b)[..|rest + b| - 1] == rest + b[..|b| - 1];
    }
  }

  /** Trimming takes exactly the cut characters off both ends. */
  lemma TrimBetween(a: string, m: string, b: string, cut: char -> bool)
    requires AllCut(a, cut) && AllCut(b, cut)
    requires m == "" || (!cut(m[0]) && !cut(m[|m| - 1]))
    ensures Trim(a + m + b, cut) == m
  {
    assert a + m + b == a + (m + b);
    TrimLeftPast(a, m + b, cut);
    if m == "" {
      assert m + b == b == b + "";
      TrimLeftPast(b, "", cut);
    } else {
      TrimRightPast(m, b, cut);
    }
  }

  /** The text with its cut characters taken off is a slice between two runs of them. */
  lemma {:induction false} TrimLeftSplits(s: string, cut: char -> bool)
    ensures |TrimLeft(s, cut)| <= |s|
    ensures s == s[..|s| - |TrimLeft(s, cut)|] + TrimLeft(s, cut)
    ensures AllCut(s[..|s| - |TrimLeft(s, cut)|], cut)
    ensures TrimLeft(s, cut) == "" || !cut(TrimLeft(s, cut)[0])
  {
    if s != "" && cut(s[0]) {
      TrimLeftSplits(s[1..], cut);
      var k := |s[1..]| - |TrimLeft(s[1..], cut)|;
      assert s[..k + 1] == [s[0]] + s[1..][..k];
    }
  }

  lemma {:induction false} TrimRightSplits(s: string, cut: char -> bool)
    ensures TrimRight(s, cut) <= s
    ensures AllCut(s[|TrimRight(s, cut)|..], cut)
    ensures TrimRight(s, cut) == "" || !cut(TrimRight(s, cut)[|TrimRight(s, cut)| - 1])
  {
    if s != "" && cut(s[|s| - 1]) {
      var t := s[..|s| - 1];
      TrimRightSplits(t, cut);
      var k := |TrimRight(t, cut)|;
      assert s[k..] == t[k..] + [s[|s| - 1]];
    }
  }

  lemma ConsAppend<T>(x: seq<T>, a: seq<T>, b: seq<T>)
    ensures x + (a + b) == x + a + b
  {
  }

  /** strings.Contains. */
  predicate Contains(s: string, sub: string) {
    sub <= s || (s != "" && Contains(s[1..], sub))
  }

  /** strings.ReplaceAll for a one-character pattern. */
  function ReplaceChar(s: string, c: char, by_: string): string {
    if s == "" then "" else (if s[0] == c then by_ else [s[0]]) + ReplaceChar(s[1..], c, by_)
  }
}
