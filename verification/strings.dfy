/** The few Python `str` operations the evaluator relies on (`strip`, `upper`,
    `lower`, `in`, `startswith`, `endswith`, `partition`, `split`, `replace`,
    `join`), written over `string` = `seq<char>`. */
module Strings {
  import opened Base

  /** The characters for which Python's `str.isspace()` holds; `str.strip()`
      with no argument removes exactly these. */
  predicate IsSpace(c: char) {
    || ('\t' <= c <= '\r')
    || ('\U{1C}' <= c <= '\U{1F}')
    || c == ' ' || c == '\U{85}' || c == '\U{A0}' || c == '\U{1680}'
    || ('\U{2000}' <= c <= '\U{200A}')
    || c == '\U{2028}' || c == '\U{2029}' || c == '\U{202F}' || c == '\U{205F}' || c == '\U{3000}'
  }

  predicate AllSpace(s: string) {
    forall i :: 0 <= i < |s| ==> IsSpace(s[i])
  }

  /** A string that `strip()` leaves as it is. */
  predicate IsStripped(s: string) {
    s == [] || (!IsSpace(s[0]) && !IsSpace(s[|s| - 1]))
  }

  /** `s.lstrip()`: drops the leading whitespace, and only that
      (`StripLeftSplit` states what was dropped). */
  function StripLeft(s: string): (r: string)
    ensures |r| <= |s|
    ensures r == [] || !IsSpace(r[0])
  {
    if s != [] && IsSpace(s[0]) then StripLeft(s[1..]) else s
  }

  /** `s.rstrip()`: drops the trailing whitespace, and only that
      (`StripRightSplit` states what was dropped). */
  function StripRight(s: string): (r: string)
    ensures |r| <= |s|
    ensures r == [] || !IsSpace(r[|r| - 1])
    ensures r != [] ==> r[0] == s[0]
  {
    if s != [] && IsSpace(s[|s| - 1]) then StripRight(s[..|s| - 1]) else s
  }

  /** `s.strip()`. */
  function Strip(s: string): (r: string)
    ensures |r| <= |s|
    ensures IsStripped(r)
  {
    StripRight(StripLeft(s))
  }

  lemma {:induction false} StripLeftPadded(w: string, x: string)
    requires AllSpace(w)
    requires x == [] || !IsSpace(x[0])
    ensures StripLeft(w + x) == x
  {
    if w != [] {
      assert (w + x)[1..] == w[1..] + x;
      StripLeftPadded(w[1..], x);
    }
  }

  lemma {:induction false} StripRightPadded(x: string, w: string)
    requires AllSpace(w)
    requires x == [] || !IsSpace(x[|x| - 1])
    ensures StripRight(x + w) == x
  {
    if w != [] {
      assert (x + w)[..|x + w| - 1] == x + w[..|w| - 1];
      StripRightPadded(x, w[..|w| - 1]);
    }
  }

  /** `strip()` removes exactly the surrounding whitespace: whatever padding
      surrounds a stripped text, stripping gives that text back. */
  lemma StripOfPadded(w1: string, x: string, w2: string)
    requires AllSpace(w1) && AllSpace(w2) && IsStripped(x)
    ensures Strip(w1 + x + w2) == x
  {
    if x == [] {
      assert w1 + x + w2 == w1 + w2;
      assert AllSpace(w1 + w2);
      StripLeftPadded(w1 + w2, []);
      assert w1 + w2 == (w1 + w2) + [];
      StripRightPadded([], []);
    } else {
      assert w1 + x + w2 == w1 + (x + w2);
      StripLeftPadded(w1, x + w2);
      StripRightPadded(x, w2);
    }
  }

  /** `lstrip` removes a run of whitespace and nothing else. */
  lemma {:induction false} StripLeftSplit(s: string) returns (lead: string)
    ensures AllSpace(lead) && s == lead + StripLeft(s)
    decreases |s|
  {
    if s != [] && IsSpace(s[0]) {
      var rest := StripLeftSplit(s[1..]);
      lead := [s[0]] + rest;
      calc {
        s;
        [s[0]] + s[1..];
        [s[0]] + (rest + StripLeft(s[1..]));
        lead + StripLeft(s);
      }
    } else {
      lead := [];
    }
  }

  /** `rstrip` removes a run of whitespace and nothing else. */
  lemma {:induction false} StripRightSplit(s: string) returns (trail: string)
    ensures AllSpace(trail) && s == StripRight(s) + trail
    decreases |s|
  {
    if s != [] && IsSpace(s[|s| - 1]) {
      var init := s[..|s| - 1];
      var rest := StripRightSplit(init);
      trail := rest + [s[|s| - 1]];
      calc {
        s;
        init + [s[|s| - 1]];
        (StripRight(init) + rest) + [s[|s| - 1]];
        StripRight(s) + trail;
      }
    } else {
      trail := [];
    }
  }

  /** Every text is its stripped form between two runs of whitespace. */
  lemma StripSplit(s: string) returns (lead: string, trail: string)
    ensures AllSpace(lead) && AllSpace(trail) && s == lead + Strip(s) + trail
  {
    lead := StripLeftSplit(s);
    var l := StripLeft(s);
    trail := StripRightSplit(l);
    var c := StripRight(l);
    assert Strip(s) == c;
    Associate(lead, c, trail);
  }

  lemma Associate(a: string, b: string, c: string)
    ensures a + (b + c) == a + b + c
  {
  }

  /** Whitespace added around a text does not change its stripped form. */
  lemma StripPadded(w1: string, s: string, w2: string)
    requires AllSpace(w1) && AllSpace(w2)
    ensures Strip(w1 + s + w2) == Strip(s)
  {
    var lead, trail := StripSplit(s);
    var c := Strip(s);
    Regroup(w1, lead, c, trail, w2);
    AllSpaceConcat(w1, lead);
    AllSpaceConcat(trail, w2);
    StripOfPadded(w1 + lead, c, trail + w2);
  }

  lemma Regroup(a: string, b: string, c: string, d: string, e: string)
    ensures a + (b + c + d) + e == (a + b) + c + (d + e)
  {
  }

  lemma AllSpaceConcat(a: string, b: string)
    requires AllSpace(a) && AllSpace(b)
    ensures AllSpace(a + b)
  {
  }

  /** Stripping a stripped text changes nothing (so `strip` is idempotent). */
  lemma StripStripped(x: string)
    requires IsStripped(x)
    ensures Strip(x) == x
  {
    assert [] + x + [] == x;
    StripOfPadded([], x, []);
  }

  /** ASCII case mapping, as `str.upper()` / `str.lower()` do on ASCII text. */
  function UpperChar(c: char): (r: char)
    ensures IsSpace(r) <==> IsSpace(c)
    ensures !('a' <= r <= 'z')
  {
    if 'a' <= c <= 'z' then (c as int - 32) as char else c
  }

  function LowerChar(c: char): (r: char)
    ensures IsSpace(r) <==> IsSpace(c)
    ensures !('A' <= r <= 'Z')
  {
    if 'A' <= c <= 'Z' then (c as int + 32) as char else c
  }

  function Upper(s: string): (r: string)
    ensures |r| == |s| && forall i :: 0 <= i < |s| ==> r[i] == UpperChar(s[i])
  {
    seq(|s|, i requires 0 <= i < |s| => UpperChar(s[i]))
  }

  /** Upper-casing keeps a stripped text stripped. */
  lemma UpperStripped(s: string)
    requires IsStripped(s)
    ensures IsStripped(Upper(s))
  {
    var r := Upper(s);
    assert r != [] ==> r[0] == UpperChar(s[0]) && r[|r| - 1] == UpperChar(s[|s| - 1]);
  }

  function Lower(s: string): (r: string)
    ensures |r| == |s| && forall i :: 0 <= i < |s| ==> r[i] == LowerChar(s[i])
  {
    seq(|s|, i requires 0 <= i < |s| => LowerChar(s[i]))
  }

  predicate StartsWith(s: string, p: string) {
    |p| <= |s| && s[..|p|] == p
  }

  predicate EndsWith(s: string, p: string) {
    |p| <= |s| && s[|s| - |p|..] == p
  }

  /** `p` occurs in `s` starting at position `j`. */
  predicate OccursAt(s: string, p: string, j: nat) {
    j + |p| <= |s| && s[j..j + |p|] == p
  }

  lemma OccursAtShift(s: string, p: string, j: nat)
    requires s != []
    ensures OccursAt(s[1..], p, j) <==> OccursAt(s, p, j + 1)
  {
    if j + 1 + |p| <= |s| {
      assert s[1..][j..j + |p|] == s[j + 1..j + 1 + |p|];
    }
  }

  /** `s.find(p)`: the first position at which `p` occurs in `s`, if any. */
  function FindFirst(s: string, p: string): (r: Option<nat>)
    requires p != []
    ensures r.Some? ==> OccursAt(s, p, r.value)
    ensures r.Some? ==> forall j :: 0 <= j < r.value ==> !OccursAt(s, p, j)
    ensures r.None? ==> forall j :: 0 <= j ==> !OccursAt(s, p, j)
    decreases |s|
  {
    if |s| < |p| then None
    else if StartsWith(s, p) then Some(0)
    else
      assert forall j: nat :: OccursAt(s[1..], p, j) <==> OccursAt(s, p, j + 1) by {
        forall j: nat ensures OccursAt(s[1..], p, j) <==> OccursAt(s, p, j + 1) {
          OccursAtShift(s, p, j);
        }
      }
      assert forall j: nat :: OccursAt(s, p, j) ==> j == 0 || OccursAt(s[1..], p, j - 1);
      match FindFirst(s[1..], p)
      case None => None
      case Some(i) => Some(i + 1)
  }

  /** One step of the left-to-right search. */
  lemma ContainsStep(s: string, p: string)
    requires p != [] && |p| <= |s|
    ensures Contains(s, p) <==> StartsWith(s, p) || Contains(s[1..], p)
  {
  }

  /** Python's `p in s`. */
  predicate Contains(s: string, p: string)
    requires p != []
  {
    FindFirst(s, p).Some?
  }

  /** The third part of `s.partition(p)` when `p` occurs in `s`. */
  function AfterFirst(s: string, p: string): string
    requires p != [] && Contains(s, p)
  {
    s[FindFirst(s, p).value + |p|..]
  }

  /** `s.split(sep)`: the pieces between the successive non-overlapping
      occurrences of `sep`, scanning from the left. */
  function SplitOn(s: string, sep: string): (parts: seq<string>)
    requires sep != []
    ensures |parts| >= 1
    ensures forall k :: 0 <= k < |parts| ==> !Contains(parts[k], sep)
    ensures |parts| == 1 <==> !Contains(s, sep)
    decreases |s|
  {
    match FindFirst(s, sep)
    case None => [s]
    case Some(i) =>
      assert !Contains(s[..i], sep) by {
        forall j: nat ensures !OccursAt(s[..i], sep, j) {
          if j + |sep| <= i {
            assert s[..i][j..j + |sep|] == s[j..j + |sep|];
            assert !OccursAt(s, sep, j);
          }
        }
      }
      [s[..i]] + SplitOn(s[i + |sep|..], sep)
  }

  /** `sep.join(parts)`. */
  function Join(parts: seq<string>, sep: string): string {
    if |parts| == 0 then ""
    else if |parts| == 1 then parts[0]
    else parts[0] + sep + Join(parts[1..], sep)
  }

  /** Every part occurs in the joined text. */
  lemma {:induction false} JoinHasPart(parts: seq<string>, sep: string, k: nat) returns (j: nat)
    requires k < |parts|
    ensures OccursAt(Join(parts, sep), parts[k], j)
    decreases k
  {
    if |parts| == 1 {
      j := 0;
    } else if k == 0 {
      j := 0;
      var joined := Join(parts, sep);
      assert joined == parts[0] + (sep + Join(parts[1..], sep));
      assert joined[..|parts[0]|] == parts[0];
    } else {
      var i := JoinHasPart(parts[1..], sep, k - 1);
      var head := parts[0] + sep;
      var tail := Join(parts[1..], sep);
      assert Join(parts, sep) == head + tail;
      OccursInContext(head, tail, [], parts[k], i);
      assert head + tail + [] == head + tail;
      j := |head| + i;
    }
  }

  /** The second half of a concatenation occurs right after the first. */
  lemma OccursAtEnd(x: string, y: string)
    ensures OccursAt(x + y, y, |x|)
  {
    assert (x + y)[|x|..|x| + |y|] == y;
  }

  /** An occurrence stays where it is when text is appended. */
  lemma OccursExtend(x: string, y: string, p: string, j: nat)
    requires OccursAt(x, p, j)
    ensures OccursAt(x + y, p, j)
  {
    assert (x + y)[j..j + |p|] == x[j..j + |p|];
  }

  /** An occurrence of `p` inside an occurrence of `m` is an occurrence in `s`. */
  lemma OccursWithin(s: string, m: string, o: nat, p: string, k: nat)
    requires OccursAt(s, m, o) && OccursAt(m, p, k)
    ensures OccursAt(s, p, o + k)
  {
    forall i | 0 <= i < |p| ensures s[o + k + i] == p[i] {
      assert s[o..o + |m|][k + i] == s[o + k + i];
      assert m[k..k + |p|][i] == m[k + i];
    }
    assert s[o + k..o + k + |p|] == p;
  }

  /** An occurrence in `m` is an occurrence in `a + m + b`, shifted by `|a|`. */
  lemma OccursInContext(a: string, m: string, b: string, p: string, j: nat)
    requires OccursAt(m, p, j)
    ensures OccursAt(a + m + b, p, |a| + j)
  {
    assert (a + m + b)[|a| + j..|a| + j + |p|] == m[j..j + |p|];
  }

  /** Splitting and joining again with the same separator gives the text back. */
  lemma {:induction false} JoinSplit(s: string, sep: string)
    requires sep != []
    ensures Join(SplitOn(s, sep), sep) == s
    decreases |s|
  {
    var found := FindFirst(s, sep);
    if found.Some? {
      var i := found.value;
      var rest := s[i + |sep|..];
      calc {
        Join(SplitOn(s, sep), sep);
        == { SplitOnStep(s, sep, i); }
        Join([s[..i]] + SplitOn(rest, sep), sep);
        == { JoinCons(s[..i], SplitOn(rest, sep), sep); }
        s[..i] + sep + Join(SplitOn(rest, sep), sep);
        == { JoinSplit(rest, sep); }
        s[..i] + sep + rest;
        == { CutAround(s, sep, i); }
        s;
      }
    }
  }

  lemma SplitOnStep(s: string, sep: string, i: nat)
    requires sep != [] && FindFirst(s, sep) == Some(i)
    ensures SplitOn(s, sep) == [s[..i]] + SplitOn(s[i + |sep|..], sep)
  {
  }

  lemma JoinCons(head: string, tail: seq<string>, sep: string)
    requires tail != []
    ensures Join([head] + tail, sep) == head + sep + Join(tail, sep)
  {
    var parts := [head] + tail;
    assert parts[0] == head && parts[1..] == tail;
  }

  /** An occurrence of `p` cuts `s` into the text before it, `p`, and the rest. */
  lemma CutAround(s: string, p: string, i: nat)
    requires OccursAt(s, p, i)
    ensures s == s[..i] + p + s[i + |p|..]
  {
    assert s == s[..i] + s[i..i + |p|] + s[i + |p|..];
  }

  /** A one-character separator absent from `a` is first found right after `a`. */
  lemma {:induction false} FindFirstAfter(a: string, p: string, b: string)
    requires |p| == 1 && p[0] !in a
    ensures FindFirst(a + p + b, p) == Some(|a|)
    decreases |a|
  {
    var s := a + p + b;
    if a == [] {
      assert s[..1] == p;
    } else {
      assert s[1..] == a[1..] + p + b;
      assert s[0] == a[0];
      FindFirstAfter(a[1..], p, b);
    }
  }

  /** Two non-overlapping occurrences of the separator cut the text into at
      least three pieces. */
  lemma SplitOnTwice(s: string, sep: string, j1: nat, j2: nat)
    requires sep != [] && OccursAt(s, sep, j1) && OccursAt(s, sep, j2) && j1 + |sep| <= j2
    ensures |SplitOn(s, sep)| >= 3
  {
    var i := FindFirst(s, sep).value;
    assert i <= j1;
    var rest := s[i + |sep|..];
    var k := j2 - i - |sep|;
    assert rest[k..k + |sep|] == s[j2..j2 + |sep|];
    assert OccursAt(rest, sep, k);
    assert SplitOn(s, sep) == [s[..i]] + SplitOn(rest, sep);
  }

  /** `s.split(sep, 1)`: at most two pieces, cut at the first occurrence. */
  function SplitFirst(s: string, sep: string): (parts: seq<string>)
    requires sep != []
    ensures |parts| == 1 || |parts| == 2
    ensures |parts| == 1 <==> !Contains(s, sep)
    ensures |parts| == 1 ==> parts[0] == s
    ensures |parts| == 2 ==> !Contains(parts[0], sep) && parts[0] + sep + parts[1] == s
  {
    match FindFirst(s, sep)
    case None => [s]
    case Some(i) =>
      assert !Contains(s[..i], sep) by {
        forall j: nat ensures !OccursAt(s[..i], sep, j) {
          if j + |sep| <= i {
            assert s[..i][j..j + |sep|] == s[j..j + |sep|];
            assert !OccursAt(s, sep, j);
          }
        }
      }
      assert s == s[..i] + s[i..i + |sep|] + s[i + |sep|..];
      [s[..i], s[i + |sep|..]]
  }

  /** `s.replace(pat, rep)`: scanning from the left, each occurrence of `pat`
      that does not overlap an earlier replaced one becomes `rep`. */
  function ReplaceAll(s: string, pat: string, rep: string): (r: string)
    requires pat != []
    ensures |pat| == |rep| ==> |r| == |s|
    decreases |s|
  {
    if |s| < |pat| then s
    else if StartsWith(s, pat) then rep + ReplaceAll(s[|pat|..], pat, rep)
    else [s[0]] + ReplaceAll(s[1..], pat, rep)
  }

  /** Where the pattern does not occur, `replace` changes nothing. */
  lemma {:induction false} ReplaceAbsent(s: string, pat: string, rep: string)
    requires pat != [] && !Contains(s, pat)
    ensures ReplaceAll(s, pat, rep) == s
    decreases |s|
  {
    if |pat| <= |s| {
      assert !OccursAt(s, pat, 0);
      forall j: nat ensures !OccursAt(s[1..], pat, j) {
        OccursAtShift(s, pat, j);
      }
      assert !Contains(s[1..], pat);
      ReplaceAbsent(s[1..], pat, rep);
      assert s == [s[0]] + s[1..];
    }
  }

  /** A replacement that can never recreate its pattern: both have the same
      length and the same first character, which occurs nowhere else in
      either, and they differ. (`": None"` / `": null"` is one.) */
  predicate Resynchronizing(pat: string, rep: string) {
    && |pat| == |rep| >= 1
    && pat[0] == rep[0]
    && pat != rep
    && (forall i :: 1 <= i < |pat| ==> pat[i] != pat[0])
    && (forall i :: 1 <= i < |rep| ==> rep[i] != pat[0])
  }

  /** Up to the first occurrence of the pattern's first character, the
      replaced text is the original text. */
  lemma {:induction false} ReplacePrefixKept(s: string, pat: string, rep: string, k: nat)
    requires Resynchronizing(pat, rep)
    requires k <= |s|
    requires forall i :: 0 <= i < k ==> ReplaceAll(s, pat, rep)[i] != pat[0]
    ensures ReplaceAll(s, pat, rep)[..k] == s[..k]
    decreases |s|
  {
    var r := ReplaceAll(s, pat, rep);
    if s != [] { ReplaceEnds(s, pat, rep); }
    if |s| < |pat| || k == 0 {
    } else if StartsWith(s, pat) {
      assert false;
    } else {
      var r1 := ReplaceAll(s[1..], pat, rep);
      assert r == [s[0]] + r1;
      forall i | 0 <= i < k - 1 ensures r1[i] != pat[0] {
        assert r1[i] == r[i + 1];
      }
      ReplacePrefixKept(s[1..], pat, rep, k - 1);
      assert r[..k] == [s[0]] + r1[..k - 1];
      assert s[..k] == [s[0]] + s[1..][..k - 1];
    }
  }

  /** Text free of the pattern's first character cannot start an occurrence. */
  lemma {:induction false} ContainsAfterForeign(x: string, y: string, p: string)
    requires p != []
    requires forall i :: 0 <= i < |x| ==> x[i] != p[0]
    requires !Contains(y, p)
    ensures !Contains(x + y, p)
    decreases |x|
  {
    if x == [] {
      assert x + y == y;
    } else if |p| <= |x + y| {
      assert (x + y)[1..] == x[1..] + y;
      ContainsAfterForeign(x[1..], y, p);
      assert (x + y)[..|p|][0] == x[0] != p[0];
      assert !StartsWith(x + y, p);
      ContainsStep(x + y, p);
    }
  }

  /** After a resynchronizing replacement no occurrence of the pattern is left. */
  lemma {:induction false} ReplaceLeavesNoPattern(s: string, pat: string, rep: string)
    requires Resynchronizing(pat, rep)
    ensures !Contains(ReplaceAll(s, pat, rep), pat)
    decreases |s|
  {
    if |s| < |pat| {
    } else if StartsWith(s, pat) {
      ReplaceLeavesNoPattern(s[|pat|..], pat, rep);
      NoPatternAfterReplaced(s, pat, rep);
    } else {
      ReplaceLeavesNoPattern(s[1..], pat, rep);
      NoPatternAfterKept(s, pat, rep);
    }
  }

  /** The step of `ReplaceLeavesNoPattern` where the text opens with the pattern. */
  lemma NoPatternAfterReplaced(s: string, pat: string, rep: string)
    requires Resynchronizing(pat, rep) && |pat| <= |s| && StartsWith(s, pat)
    requires !Contains(ReplaceAll(s[|pat|..], pat, rep), pat)
    ensures !Contains(ReplaceAll(s, pat, rep), pat)
  {
    var r := ReplaceAll(s, pat, rep);
    var r1 := ReplaceAll(s[|pat|..], pat, rep);
    assert r == rep + r1;
    assert r[..|pat|] == rep;
    assert r[1..] == rep[1..] + r1;
    forall i | 0 <= i < |rep| - 1 ensures rep[1..][i] != pat[0] {
      assert rep[1..][i] == rep[i + 1];
    }
    ContainsAfterForeign(rep[1..], r1, pat);
    ContainsStep(r, pat);
  }

  /** The step of `ReplaceLeavesNoPattern` where the first character is kept. */
  lemma NoPatternAfterKept(s: string, pat: string, rep: string)
    requires Resynchronizing(pat, rep) && |pat| <= |s| && !StartsWith(s, pat)
    requires !Contains(ReplaceAll(s[1..], pat, rep), pat)
    ensures !Contains(ReplaceAll(s, pat, rep), pat)
  {
    var r := ReplaceAll(s, pat, rep);
    assert r[1..] == ReplaceAll(s[1..], pat, rep);
    KeptHeadStartsNoPattern(s, pat, rep);
    ContainsStep(r, pat);
  }

  /** When the text does not open with the pattern, neither does its
      replacement: the pattern's first character cannot be introduced. */
  lemma KeptHeadStartsNoPattern(s: string, pat: string, rep: string)
    requires Resynchronizing(pat, rep) && |pat| <= |s| && !StartsWith(s, pat)
    ensures !StartsWith(ReplaceAll(s, pat, rep), pat)
  {
    var r := ReplaceAll(s, pat, rep);
    var r1 := ReplaceAll(s[1..], pat, rep);
    var k := |pat| - 1;
    assert r == [s[0]] + r1;
    assert |r| == |s|;
    if s[0] != pat[0] {
      assert r[..|pat|][0] != pat[0];
    } else if exists j :: 0 <= j < k && r1[j] == pat[0] {
      var j :| 0 <= j < k && r1[j] == pat[0];
      assert r[..|pat|][j + 1] == r1[j] != pat[j + 1];
    } else {
      ReplacePrefixKept(s[1..], pat, rep, k);
      assert r[..|pat|] == [s[0]] + r1[..k];
      assert s[..|pat|] == [s[0]] + s[1..][..k];
    }
  }

  /** The replaced text keeps the first character (the pattern and its
      replacement share theirs) and ends with the original last character or
      with the replacement's. */
  lemma {:induction false} ReplaceEnds(s: string, pat: string, rep: string)
    requires Resynchronizing(pat, rep)
    requires s != []
    ensures var r := ReplaceAll(s, pat, rep);
      |r| == |s| && r[0] == s[0] && (r[|r| - 1] == s[|s| - 1] || r[|r| - 1] == rep[|rep| - 1])
    decreases |s|
  {
    var r := ReplaceAll(s, pat, rep);
    if |s| < |pat| {
    } else if StartsWith(s, pat) {
      var rest := s[|pat|..];
      var r1 := ReplaceAll(rest, pat, rep);
      assert r == rep + r1;
      assert r[0] == rep[0] == pat[0] == s[..|pat|][0] == s[0];
      if rest == [] {
        assert r[|r| - 1] == rep[|rep| - 1];
      } else {
        ReplaceEnds(rest, pat, rep);
        assert r[|r| - 1] == r1[|r1| - 1];
        assert rest[|rest| - 1] == s[|s| - 1];
      }
    } else {
      var rest := s[1..];
      var r1 := ReplaceAll(rest, pat, rep);
      assert r == [s[0]] + r1;
      if rest != [] {
        ReplaceEnds(rest, pat, rep);
        assert r[|r| - 1] == r1[|r1| - 1];
        assert rest[|rest| - 1] == s[|s| - 1];
      }
    }
  }

  /** A resynchronizing replacement whose text ends in a non-space keeps a
      stripped text stripped. */
  lemma ReplaceKeepsStripped(s: string, pat: string, rep: string)
    requires Resynchronizing(pat, rep) && !IsSpace(rep[|rep| - 1])
    requires IsStripped(s)
    ensures IsStripped(ReplaceAll(s, pat, rep))
  {
    if s != [] { ReplaceEnds(s, pat, rep); }
  }
}
