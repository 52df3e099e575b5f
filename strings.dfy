/**
 * The Python `str` operations the theme relies on (`in`, `find`/`rfind`,
 * `split` with and without a split limit, `join`, `replace`, `strip`,
 * `lower`, `endswith`, `str(int)` and `int(str)`), defined over strings as
 * sequences of characters, with the facts about them that the rest of the
 * model needs.
 */
module Strings {
  import opened Options

  // ---------------------------------------------------------------------
  // Occurrences and search
  // ---------------------------------------------------------------------

  /** `sub` occurs in `s` starting at index `i`. */
  predicate OccursAt(s: string, sub: string, i: nat) {
    i + |sub| <= |s| && s[i..i + |sub|] == sub
  }

  /** Python's `sub in s`. */
  predicate Contains(s: string, sub: string) {
    exists i: nat | i <= |s| :: OccursAt(s, sub, i)
  }

  /** The first index at or after `from` where `sub` occurs in `s`. */
  function FindFrom(s: string, sub: string, from: nat): (r: Option<nat>)
    decreases |s| - from
    ensures r.Some? ==> from <= r.value && OccursAt(s, sub, r.value)
  {
    if from + |sub| > |s| then None
    else if s[from..from + |sub|] == sub then Some(from)
    else FindFrom(s, sub, from + 1)
  }

  /** Python's `s.find(sub)`, with "not found" as `None` instead of -1. */
  function Find(s: string, sub: string): (r: Option<nat>)
    ensures r.Some? ==> OccursAt(s, sub, r.value)
  {
    FindFrom(s, sub, 0)
  }

  /** `FindFrom` skips no occurrence: nothing between `from` and its answer. */
  lemma {:induction false} FindFromFirst(s: string, sub: string, from: nat)
    ensures FindFrom(s, sub, from).Some? ==>
      forall j: nat :: from <= j < FindFrom(s, sub, from).value ==> !OccursAt(s, sub, j)
    ensures FindFrom(s, sub, from).None? ==> forall j: nat :: from <= j ==> !OccursAt(s, sub, j)
    decreases |s| - from
  {
    if from + |sub| <= |s| && s[from..from + |sub|] != sub {
      FindFromFirst(s, sub, from + 1);
    }
  }

  /** `find` answers exactly when `sub in s`, with the leftmost occurrence. */
  lemma FindFirst(s: string, sub: string)
    ensures Find(s, sub).Some? <==> Contains(s, sub)
    ensures Find(s, sub).Some? ==> forall j: nat :: j < Find(s, sub).value ==> !OccursAt(s, sub, j)
  {
    FindFromFirst(s, sub, 0);
  }

  /** The last index at or before `upto` where `sub` occurs in `s`. */
  function RFindUpTo(s: string, sub: string, upto: nat): (r: Option<nat>)
    decreases upto
    ensures r.Some? ==> r.value <= upto && OccursAt(s, sub, r.value)
  {
    if OccursAt(s, sub, upto) then Some(upto)
    else if upto == 0 then None
    else RFindUpTo(s, sub, upto - 1)
  }

  /** Python's `s.rfind(sub)`, with "not found" as `None` instead of -1. */
  function RFind(s: string, sub: string): (r: Option<nat>)
    ensures r.Some? ==> OccursAt(s, sub, r.value)
  {
    RFindUpTo(s, sub, |s|)
  }

  /** `RFindUpTo` skips no occurrence: nothing between its answer and `upto`. */
  lemma {:induction false} RFindUpToLast(s: string, sub: string, upto: nat)
    ensures RFindUpTo(s, sub, upto).Some? ==>
      forall j: nat :: RFindUpTo(s, sub, upto).value < j <= upto ==> !OccursAt(s, sub, j)
    ensures RFindUpTo(s, sub, upto).None? ==> forall j: nat :: j <= upto ==> !OccursAt(s, sub, j)
    decreases upto
  {
    if !OccursAt(s, sub, upto) && upto > 0 {
      RFindUpToLast(s, sub, upto - 1);
    }
  }

  /** `rfind` answers exactly when `sub in s`, with the rightmost occurrence. */
  lemma RFindLast(s: string, sub: string)
    ensures RFind(s, sub).Some? <==> Contains(s, sub)
    ensures RFind(s, sub).Some? ==> forall j: nat :: RFind(s, sub).value < j ==> !OccursAt(s, sub, j)
  {
    RFindUpToLast(s, sub, |s|);
  }

  /** With a one-character pattern an occurrence is just that character. */
  lemma CharOccursAt(s: string, c: char, i: nat)
    ensures OccursAt(s, [c], i) <==> i < |s| && s[i] == c
  {
    if i < |s| && s[i] == c {
      assert s[i..i + 1] == [c];
    }
  }

  /** `sub` cannot occur at a position holding a different first character. */
  lemma MismatchNotOccurs(s: string, sub: string, j: nat)
    requires j < |s| && sub != "" && s[j] != sub[0]
    ensures !OccursAt(s, sub, j)
  {
    if j + |sub| <= |s| {
      assert s[j..j + |sub|][0] == s[j];
    }
  }

  /** With a one-character pattern `in` is membership of that character. */
  lemma ContainsChar(s: string, c: char)
    ensures Contains(s, [c]) <==> c in s
  {
    if c in s {
      var i :| 0 <= i < |s| && s[i] == c;
      CharOccursAt(s, c, i);
    }
    if Contains(s, [c]) {
      var i: nat :| OccursAt(s, [c], i);
      CharOccursAt(s, c, i);
    }
  }

  /** An occurrence inside a prefix of `s` is an occurrence in `s`. */
  lemma OccursInPrefix(s: string, sub: string, k: nat, j: nat)
    requires k <= |s|
    ensures OccursAt(s[..k], sub, j) ==> OccursAt(s, sub, j)
  {
    if OccursAt(s[..k], sub, j) {
      assert s[..k][j..j + |sub|] == s[j..j + |sub|];
    }
  }

  /** An occurrence inside a suffix of `s` is an occurrence in `s`, shifted. */
  lemma OccursInSuffix(s: string, sub: string, k: nat, j: nat)
    requires k <= |s|
    ensures OccursAt(s[k..], sub, j) <==> OccursAt(s, sub, k + j)
  {
    if k + j + |sub| <= |s| {
      assert s[k..][j..j + |sub|] == s[k + j..k + j + |sub|];
    }
  }

  // ---------------------------------------------------------------------
  // split and join
  // ---------------------------------------------------------------------

  /**
   * Python's `s.split(sep)` for a non-empty separator: the pieces between
   * the non-overlapping occurrences of `sep`, found from left to right.
   */
  function Split(s: string, sep: string): (parts: seq<string>)
    requires sep != ""
    decreases |s|
    ensures |parts| >= 1
  {
    var f := Find(s, sep);
    if f.None? then [s] else [s[..f.value]] + Split(s[f.value + |sep|..], sep)
  }

  /** Python's `s.split(sep, maxsplit)`: at most `maxsplit` cuts, the rest kept whole. */
  function SplitN(s: string, sep: string, maxsplit: nat): (parts: seq<string>)
    requires sep != ""
    decreases maxsplit
    ensures 1 <= |parts| <= maxsplit + 1
  {
    if maxsplit == 0 then [s]
    else
      var f := Find(s, sep);
      if f.None? then [s] else [s[..f.value]] + SplitN(s[f.value + |sep|..], sep, maxsplit - 1)
  }

  /** Python's `sep.join(parts)`. */
  function Join(sep: string, parts: seq<string>): string
    decreases |parts|
  {
    if |parts| == 0 then ""
    else if |parts| == 1 then parts[0]
    else parts[0] + sep + Join(sep, parts[1..])
  }

  /** The last element of a non-empty sequence (Python's `xs[-1]`). */
  function Last<T>(xs: seq<T>): T
    requires |xs| > 0
  {
    xs[|xs| - 1]
  }

  /** The text before the first occurrence of `sep` holds no occurrence of it. */
  lemma BeforeFirstIsFree(s: string, sep: string, i: nat)
    requires sep != ""
    requires Find(s, sep) == Some(i)
    ensures !Contains(s[..i], sep)
  {
    FindFirst(s, sep);
    if Contains(s[..i], sep) {
      var j: nat :| j <= i && OccursAt(s[..i], sep, j);
      assert j < i;
      OccursInPrefix(s, sep, i, j);
      assert false;
    }
  }

  /** Joining `a` in front of at least one more piece puts a separator after it. */
  lemma JoinCons(sep: string, a: string, rest: seq<string>)
    requires |rest| >= 1
    ensures Join(sep, [a] + rest) == a + sep + Join(sep, rest)
  {
    assert ([a] + rest)[1..] == rest;
  }

  /** One step of `Split` at the first occurrence `i` of the separator. */
  lemma SplitAt(s: string, sep: string, i: nat)
    requires sep != ""
    requires Find(s, sep) == Some(i)
    ensures i + |sep| <= |s|
    ensures Split(s, sep) == [s[..i]] + Split(s[i + |sep|..], sep)
    ensures s == s[..i] + sep + s[i + |sep|..]
  {
    CutAt(s, sep, i);
  }

  /** One step of `SplitN` at the first occurrence `i` of the separator. */
  lemma SplitNAt(s: string, sep: string, n: nat, i: nat)
    requires sep != ""
    requires Find(s, sep) == Some(i)
    ensures i + |sep| <= |s|
    ensures SplitN(s, sep, n + 1) == [s[..i]] + SplitN(s[i + |sep|..], sep, n)
    ensures s == s[..i] + sep + s[i + |sep|..]
  {
    CutAt(s, sep, i);
  }

  /** A string cut around an occurrence of `sep` at `i`. */
  lemma CutAt(s: string, sep: string, i: nat)
    requires OccursAt(s, sep, i)
    ensures s == s[..i] + sep + s[i + |sep|..]
  {
  }

  /** Joining the pieces of a split with the separator gives back the string. */
  lemma {:induction false} JoinSplit(s: string, sep: string)
    requires sep != ""
    ensures Join(sep, Split(s, sep)) == s
    decreases |s|
  {
    var f := Find(s, sep);
    if f.Some? {
      var i := f.value;
      SplitAt(s, sep, i);
      var rest := s[i + |sep|..];
      JoinSplit(rest, sep);
      JoinCons(sep, s[..i], Split(rest, sep));
    }
  }

  /** No piece of a split contains the separator. */
  lemma {:induction false} SplitPiecesFree(s: string, sep: string)
    requires sep != ""
    ensures forall k :: 0 <= k < |Split(s, sep)| ==> !Contains(Split(s, sep)[k], sep)
    decreases |s|
  {
    FindFirst(s, sep);
    var f := Find(s, sep);
    if f.Some? {
      var i := f.value;
      SplitAt(s, sep, i);
      SplitPiecesFree(s[i + |sep|..], sep);
      BeforeFirstIsFree(s, sep, i);
    }
  }

  /** A split yields a single piece exactly when the separator does not occur. */
  lemma SplitSingle(s: string, sep: string)
    requires sep != ""
    ensures |Split(s, sep)| == 1 <==> !Contains(s, sep)
  {
    FindFirst(s, sep);
    var f := Find(s, sep);
    if f.Some? {
      SplitAt(s, sep, f.value);
    }
  }

  /** The last piece of a split is a suffix of the string. */
  lemma {:induction false} LastSplitSuffix(s: string, sep: string)
    requires sep != ""
    ensures EndsWith(s, Last(Split(s, sep)))
    decreases |s|
  {
    var f := Find(s, sep);
    if f.Some? {
      var i := f.value;
      SplitAt(s, sep, i);
      var rest := s[i + |sep|..];
      LastSplitSuffix(rest, sep);
      assert Last(Split(s, sep)) == Last(Split(rest, sep));
      var l := Last(Split(rest, sep));
      assert s[|s| - |l|..] == rest[|rest| - |l|..];
    }
  }

  /** The pieces of `SplitN`, joined with the separator, give back the string. */
  lemma {:induction false} JoinSplitN(s: string, sep: string, maxsplit: nat)
    requires sep != ""
    ensures Join(sep, SplitN(s, sep, maxsplit)) == s
    decreases maxsplit
  {
    var f := Find(s, sep);
    if maxsplit > 0 && f.Some? {
      var n := maxsplit - 1;
      var i := f.value;
      SplitNAt(s, sep, n, i);
      var rest := s[i + |sep|..];
      JoinSplitN(rest, sep, n);
      JoinCons(sep, s[..i], SplitN(rest, sep, n));
    }
  }

  /** In a string `a + [c] + b` whose `a` has no `c`, the first `c` is at `|a|`. */
  lemma FindCharAfter(a: string, c: char, b: string)
    requires c !in a
    ensures Find(a + [c] + b, [c]) == Some(|a|)
  {
    var s := a + [c] + b;
    CharOccursAt(s, c, |a|);
    FindFirst(s, [c]);
    var r := Find(s, [c]);
    CharOccursAt(s, c, r.value);
    assert forall k :: 0 <= k < |a| ==> s[k] == a[k];
  }

  /** A string without `c` has no occurrence of `[c]`. */
  lemma FindCharNone(a: string, c: char)
    requires c !in a
    ensures Find(a, [c]) == None
  {
    FindFirst(a, [c]);
    ContainsChar(a, c);
  }

  /** Splitting on one character undoes joining pieces that do not hold it. */
  lemma {:induction false} SplitJoinChar(parts: seq<string>, c: char)
    requires |parts| >= 1
    requires forall k :: 0 <= k < |parts| ==> c !in parts[k]
    ensures Split(Join([c], parts), [c]) == parts
    decreases |parts|
  {
    if |parts| == 1 {
      FindCharNone(parts[0], c);
    } else {
      var tail := Join([c], parts[1..]);
      JoinCons([c], parts[0], parts[1..]);
      assert parts == [parts[0]] + parts[1..];
      SplitCharCons(parts[0], c, tail);
      SplitJoinChar(parts[1..], c);
    }
  }

  /** `SplitN` with enough cuts, on pieces without `c`, returns exactly those pieces. */
  lemma {:induction false} SplitNJoinChar(parts: seq<string>, c: char, maxsplit: nat)
    requires 1 <= |parts| <= maxsplit + 1
    requires forall k :: 0 <= k < |parts| - 1 ==> c !in parts[k]
    requires |parts| <= maxsplit ==> c !in Last(parts)
    ensures SplitN(Join([c], parts), [c], maxsplit) == parts
    decreases |parts|, 1
  {
    if |parts| == 1 {
      if maxsplit > 0 {
        FindCharNone(parts[0], c);
      }
    } else {
      SplitNJoinCharStep(parts, c, maxsplit - 1);
    }
  }

  /** One step of `SplitNJoinChar`: the first piece is cut off, the rest is split again. */
  lemma {:induction false} SplitNJoinCharStep(parts: seq<string>, c: char, n: nat)
    requires 2 <= |parts| <= n + 2
    requires forall k :: 0 <= k < |parts| - 1 ==> c !in parts[k]
    requires |parts| <= n + 1 ==> c !in Last(parts)
    ensures SplitN(Join([c], parts), [c], n + 1) == parts
    decreases |parts|, 0
  {
    var rest := parts[1..];
    forall k | 0 <= k < |rest| - 1
      ensures c !in rest[k]
    {
      assert rest[k] == parts[k + 1];
    }
    assert Last(rest) == Last(parts);
    SplitNJoinChar(rest, c, n);
    JoinCons([c], parts[0], rest);
    assert parts == [parts[0]] + rest;
    SplitNCharCons(parts[0], c, Join([c], rest), n);
  }

  /** Splitting `a + [c] + tail` on `c`, when `a` has no `c`, cuts right after `a`. */
  lemma SplitCharCons(a: string, c: char, tail: string)
    requires c !in a
    ensures Split(a + [c] + tail, [c]) == [a] + Split(tail, [c])
  {
    var s := a + [c] + tail;
    FindCharAfter(a, c, tail);
    SplitAt(s, [c], |a|);
    assert s[..|a|] == a;
    assert s[|a| + 1..] == tail;
  }

  /** The `SplitN` form of `SplitCharCons`. */
  lemma SplitNCharCons(a: string, c: char, tail: string, n: nat)
    requires c !in a
    ensures SplitN(a + [c] + tail, [c], n + 1) == [a] + SplitN(tail, [c], n)
  {
    var s := a + [c] + tail;
    FindCharAfter(a, c, tail);
    SplitNAt(s, [c], n, |a|);
    assert s[..|a|] == a;
    assert s[|a| + 1..] == tail;
  }

  /** Every piece of `SplitN` on a character but the last is free of that character. */
  lemma {:induction false} SplitNCharPiecesFree(s: string, c: char, maxsplit: nat)
    ensures forall k :: 0 <= k < |SplitN(s, [c], maxsplit)| - 1 ==> c !in SplitN(s, [c], maxsplit)[k]
    decreases maxsplit
  {
    var f := Find(s, [c]);
    if maxsplit > 0 && f.Some? {
      var i := f.value;
      SplitNAt(s, [c], maxsplit - 1, i);
      BeforeFirstIsFree(s, [c], i);
      ContainsChar(s[..i], c);
      SplitNCharPiecesFree(s[i + 1..], c, maxsplit - 1);
    }
  }

  /** A join of four pieces written out. */
  lemma JoinFour(sep: string, parts: seq<string>)
    requires |parts| == 4
    ensures Join(sep, parts) == parts[0] + sep + parts[1] + sep + parts[2] + sep + parts[3]
  {
    assert parts[1..][1..] == parts[2..];
    assert parts[2..][1..] == parts[3..];
    var tail := parts[2] + sep + parts[3];
    assert Join(sep, parts[2..]) == tail;
    assert Join(sep, parts[1..]) == parts[1] + sep + tail;
  }

  /** A join starts with the first character of its first piece. */
  lemma JoinFirst(sep: string, parts: seq<string>)
    requires |parts| >= 1 && parts[0] != ""
    ensures Join(sep, parts) != "" && Join(sep, parts)[0] == parts[0][0]
  {
  }

  /** A join whose last piece is not empty ends with the last character of that piece. */
  lemma {:induction false} JoinLast(sep: string, parts: seq<string>)
    requires |parts| >= 1 && Last(parts) != ""
    ensures Join(sep, parts) != "" && Last(Join(sep, parts)) == Last(Last(parts))
    decreases |parts|
  {
    if |parts| > 1 {
      assert Last(parts[1..]) == Last(parts);
      JoinLast(sep, parts[1..]);
    }
  }

  /** Number of occurrences of the character `c` in `s`. */
  function CountChar(s: string, c: char): nat
    decreases |s|
  {
    if s == "" then 0 else (if s[0] == c then 1 else 0) + CountChar(s[1..], c)
  }

  /** Counting a character over a concatenation. */
  lemma {:induction false} CountCharAppend(a: string, b: string, c: char)
    ensures CountChar(a + b, c) == CountChar(a, c) + CountChar(b, c)
    decreases |a|
  {
    if a != "" {
      assert (a + b)[0] == a[0];
      assert (a + b)[1..] == a[1..] + b;
      CountCharAppend(a[1..], b, c);
    } else {
      assert a + b == b;
    }
  }

  /** A string that does not hold `c` has no `c` to count. */
  lemma {:induction false} CountCharAbsent(s: string, c: char)
    requires c !in s
    ensures CountChar(s, c) == 0
    decreases |s|
  {
    if s != "" {
      CountCharAbsent(s[1..], c);
    }
  }

  /**
   * Splitting on one character with at most `maxsplit` cuts gives
   * `maxsplit + 1` pieces exactly when the character occurs at least
   * `maxsplit` times.
   */
  lemma {:induction false} SplitNCharCount(s: string, c: char, maxsplit: nat)
    ensures |SplitN(s, [c], maxsplit)| == maxsplit + 1 <==> CountChar(s, c) >= maxsplit
    decreases maxsplit
  {
    if maxsplit > 0 {
      match Find(s, [c])
      case None =>
        FindFirst(s, [c]);
        ContainsChar(s, c);
        CountCharAbsent(s, c);
      case Some(i) =>
        CharOccursAt(s, c, i);
        var rest := s[i + 1..];
        assert !Contains(s[..i], [c]) by { BeforeFirstIsFree(s, [c], i); }
        ContainsChar(s[..i], c);
        CountCharAbsent(s[..i], c);
        assert s == s[..i] + ([c] + rest);
        CountCharAppend(s[..i], [c] + rest, c);
        CountCharAppend([c], rest, c);
        SplitNCharCount(rest, c, maxsplit - 1);
    }
  }

  // ---------------------------------------------------------------------
  // replace, strip, lower, endswith
  // ---------------------------------------------------------------------

  /**
   * Python's `s.replace(target, replacement)` for a non-empty `target`: every
   * non-overlapping occurrence, scanning from the left, is replaced.
   */
  function ReplaceAll(s: string, target: string, replacement: string): string
    requires target != ""
    decreases |s|
  {
    if |s| < |target| then s
    else if s[..|target|] == target then replacement + ReplaceAll(s[|target|..], target, replacement)
    else [s[0]] + ReplaceAll(s[1..], target, replacement)
  }

  /** Replacing a pattern that does not occur changes nothing. */
  lemma {:induction false} ReplaceAbsent(s: string, target: string, replacement: string)
    requires target != ""
    requires !Contains(s, target)
    ensures ReplaceAll(s, target, replacement) == s
    decreases |s|
  {
    if |s| >= |target| {
      assert !OccursAt(s, target, 0);
      assert s[..|target|] != target;
      forall j: nat ensures !OccursAt(s[1..], target, j) {
        OccursInSuffix(s, target, 1, j);
      }
      ReplaceAbsent(s[1..], target, replacement);
      assert s == [s[0]] + s[1..];
    }
  }

  /** A prefix without the pattern's first character is copied unchanged. */
  lemma {:induction false} ReplaceSkipPrefix(a: string, b: string, target: string, replacement: string)
    requires target != "" && target[0] !in a
    ensures ReplaceAll(a + b, target, replacement) == a + ReplaceAll(b, target, replacement)
    decreases |a|
  {
    if a != "" {
      var s := a + b;
      assert s[0] == a[0];
      assert s[1..] == a[1..] + b;
      if |s| >= |target| {
        assert s[..|target|][0] == a[0];
      } else {
        assert |b| < |target|;
      }
      ReplaceSkipPrefix(a[1..], b, target, replacement);
      assert a == [a[0]] + a[1..];
    } else {
      assert a + b == b;
    }
  }

  /** A character that does not start an occurrence is copied unchanged. */
  lemma ReplaceSkipChar(c: char, b: string, target: string, replacement: string)
    requires target != ""
    requires !StartsWith([c] + b, target)
    ensures ReplaceAll([c] + b, target, replacement) == [c] + ReplaceAll(b, target, replacement)
  {
    assert ([c] + b)[1..] == b;
  }

  /** An occurrence at the start is replaced, and the scan goes on after it. */
  lemma ReplaceAtStart(b: string, target: string, replacement: string)
    requires target != ""
    ensures ReplaceAll(target + b, target, replacement) == replacement + ReplaceAll(b, target, replacement)
  {
    assert (target + b)[..|target|] == target;
    assert (target + b)[|target|..] == b;
  }

  /**
   * When the pattern occurs only at the very end, `replace` rewrites that
   * one occurrence: everything before it stays.
   */
  lemma {:induction false} ReplaceOnlyAtEnd(a: string, target: string, replacement: string)
    requires target != ""
    requires forall j: nat :: j < |a| ==> !OccursAt(a + target, target, j)
    ensures ReplaceAll(a + target, target, replacement) == a + replacement
    decreases |a|
  {
    if a == "" {
      assert a + target == target + "";
      ReplaceAtStart("", target, replacement);
    } else {
      var s := a + target;
      var rest := a[1..] + target;
      assert s == [a[0]] + rest;
      assert !StartsWith(s, target) by {
        assert !OccursAt(s, target, 0);
      }
      forall j: nat | j < |a[1..]|
        ensures !OccursAt(rest, target, j)
      {
        assert s[1..] == rest;
        OccursInSuffix(s, target, 1, j);
      }
      ReplaceSkipChar(a[0], rest, target, replacement);
      ReplaceOnlyAtEnd(a[1..], target, replacement);
      assert a == [a[0]] + a[1..];
    }
  }

  /** A replacement no longer than the pattern never makes the string longer. */
  lemma {:induction false} ReplaceNoLonger(s: string, target: string, replacement: string)
    requires target != "" && |replacement| <= |target|
    ensures |ReplaceAll(s, target, replacement)| <= |s|
    decreases |s|
  {
    if |s| >= |target| {
      if s[..|target|] == target {
        ReplaceNoLonger(s[|target|..], target, replacement);
      } else {
        ReplaceNoLonger(s[1..], target, replacement);
      }
    }
  }

  /** Replacing one character by another maps every position independently. */
  lemma {:induction false} ReplaceChar(s: string, a: char, b: char)
    ensures |ReplaceAll(s, [a], [b])| == |s|
    ensures forall k :: 0 <= k < |s| ==>
      ReplaceAll(s, [a], [b])[k] == (if s[k] == a then b else s[k])
    decreases |s|
  {
    if |s| >= 1 {
      ReplaceChar(s[1..], a, b);
    }
  }

  /** Python's `s.lstrip(chars)`, with the characters to strip given as a predicate. */
  function LStrip(s: string, drop: char -> bool): (r: string)
    decreases |s|
    ensures |r| <= |s| && r == s[|s| - |r|..]
    ensures forall k :: 0 <= k < |s| - |r| ==> drop(s[k])
    ensures r != "" ==> !drop(r[0])
  {
    if s != "" && drop(s[0]) then LStrip(s[1..], drop) else s
  }

  /** Python's `s.rstrip(chars)`, likewise. */
  function RStrip(s: string, drop: char -> bool): (r: string)
    decreases |s|
    ensures |r| <= |s| && r == s[..|r|]
    ensures forall k :: |r| <= k < |s| ==> drop(s[k])
    ensures r != "" ==> !drop(r[|r| - 1])
  {
    if s != "" && drop(s[|s| - 1]) then RStrip(s[..|s| - 1], drop) else s
  }

  /** Python's `s.strip(chars)`: both ends. */
  function Strip(s: string, drop: char -> bool): string {
    RStrip(LStrip(s, drop), drop)
  }

  /** Stripping leaves a string whose end characters are not stripped ones. */
  lemma StripEnds(s: string, drop: char -> bool)
    ensures Strip(s, drop) != "" ==>
      !drop(Strip(s, drop)[0]) && !drop(Last(Strip(s, drop)))
  {
    var l := LStrip(s, drop);
    var r := RStrip(l, drop);
    if r != "" {
      assert r[0] == l[0];
    }
  }

  /** A string neither of whose ends is dropped is its own strip. */
  lemma StripNothing(s: string, drop: char -> bool)
    requires s != "" ==> !drop(s[0]) && !drop(s[|s| - 1])
    ensures Strip(s, drop) == s
  {
  }

  /** Right-stripping ignores trailing characters that are stripped anyway. */
  lemma {:induction false} RStripAppend(s: string, t: string, drop: char -> bool)
    requires forall k :: 0 <= k < |t| ==> drop(t[k])
    ensures RStrip(s + t, drop) == RStrip(s, drop)
    decreases |t|
  {
    if t != "" {
      assert (s + t)[|s + t| - 1] == t[|t| - 1];
      assert (s + t)[..|s + t| - 1] == s + t[..|t| - 1];
      RStripAppend(s, t[..|t| - 1], drop);
    } else {
      assert s + t == s;
    }
  }

  /** Stripping a string whose ends are kept, followed by dropped characters, gives that string. */
  lemma StripTrailing(s: string, t: string, drop: char -> bool)
    requires s != "" && !drop(s[0]) && !drop(s[|s| - 1])
    requires forall k :: 0 <= k < |t| ==> drop(t[k])
    ensures Strip(s + t, drop) == s
  {
    assert (s + t)[0] == s[0];
    assert LStrip(s + t, drop) == s + t;
    RStripAppend(s, t, drop);
  }

  /** `(s + "\n").strip()` is `s` when `s` neither starts nor ends with white space. */
  lemma StripNewline(s: string)
    requires s != "" && !IsSpace(s[0]) && !IsSpace(s[|s| - 1])
    ensures Strip(s + "\n", IsSpace) == s
  {
    StripTrailing(s, "\n", IsSpace);
  }

  /** Python's `str.isspace()` for one character, as `str.strip()` and `int()` use it. */
  predicate IsSpace(c: char) {
    || ('\U{9}' <= c <= '\U{D}')
    || ('\U{1C}' <= c <= '\U{20}')
    || c == '\U{85}' || c == '\U{A0}' || c == '\U{1680}'
    || ('\U{2000}' <= c <= '\U{200A}')
    || c == '\U{2028}' || c == '\U{2029}' || c == '\U{202F}' || c == '\U{205F}' || c == '\U{3000}'
  }

  /** The characters `strip("/")` removes. */
  predicate IsSlash(c: char) {
    c == '/'
  }

  /** Lower-casing of one character (ASCII letters; every other character is kept). */
  function LowerChar(c: char): char {
    if 'A' <= c <= 'Z' then (c as int - 'A' as int + 'a' as int) as char else c
  }

  /** Python's `s.lower()` restricted to ASCII letters. */
  function Lower(s: string): (r: string)
    ensures |r| == |s| && forall k :: 0 <= k < |s| ==> r[k] == LowerChar(s[k])
  {
    seq(|s|, k requires 0 <= k < |s| => LowerChar(s[k]))
  }

  /**
   * `s.lower() == word`, for a lower-case ASCII word, holds exactly when
   * `s` spells `word` with any mix of upper- and lower-case letters.
   */
  lemma LowerEquals(s: string, word: string)
    requires forall k :: 0 <= k < |word| ==> 'a' <= word[k] <= 'z'
    ensures Lower(s) == word <==>
      |s| == |word| && forall k :: 0 <= k < |s| ==> s[k] == word[k] || s[k] == UpperChar(word[k])
  {
    if |s| == |word| && forall k :: 0 <= k < |s| ==> s[k] == word[k] || s[k] == UpperChar(word[k]) {
      assert forall k :: 0 <= k < |s| ==> Lower(s)[k] == word[k];
    }
  }

  /** The upper-case letter of a lower-case ASCII letter. */
  function UpperChar(c: char): char
    requires 'a' <= c <= 'z'
  {
    (c as int - 'a' as int + 'A' as int) as char
  }

  /** Python's `s.startswith(prefix)`. */
  predicate StartsWith(s: string, prefix: string) {
    |prefix| <= |s| && s[..|prefix|] == prefix
  }

  /** A string that differs from `prefix` at some index of both does not start with it. */
  lemma NotStartsWith(s: string, prefix: string, k: nat)
    requires k < |s| && k < |prefix| && s[k] != prefix[k]
    ensures !StartsWith(s, prefix)
  {
    if |prefix| <= |s| {
      assert s[..|prefix|][k] == s[k];
    }
  }

  /** Python's `s.endswith(suffix)`. */
  predicate EndsWith(s: string, suffix: string) {
    |suffix| <= |s| && s[|s| - |suffix|..] == suffix
  }

  // ---------------------------------------------------------------------
  // Decimal numbers: str(int) and int(str)
  // ---------------------------------------------------------------------

  predicate IsDigit(c: char) {
    '0' <= c <= '9'
  }

  function DigitChar(d: nat): (c: char)
    requires d < 10
    ensures IsDigit(c) && c as int - '0' as int == d
  {
    (d + '0' as int) as char
  }

  /** Python's `str(n)` for a natural number. */
  function NatToString(n: nat): (s: string)
    decreases n
    ensures s != "" && forall k :: 0 <= k < |s| ==> IsDigit(s[k])
  {
    if n < 10 then [DigitChar(n)] else NatToString(n / 10) + [DigitChar(n % 10)]
  }

  /** Python's `str(i)` for an integer. */
  function IntToString(i: int): string {
    if i < 0 then "-" + NatToString(-i) else NatToString(i)
  }

  /** The value of a string of digits and `_` separators (the separators are skipped). */
  function DigitsValue(s: string): nat
    decreases |s|
  {
    if s == "" then 0
    else if IsDigit(Last(s)) then DigitsValue(s[..|s| - 1]) * 10 + (Last(s) as int - '0' as int)
    else DigitsValue(s[..|s| - 1])
  }

  /**
   * The digit part Python's `int()` accepts in base 10: digits, with single
   * underscores allowed between two digits.
   */
  predicate WellFormedDigits(s: string) {
    && s != ""
    && IsDigit(s[0])
    && IsDigit(Last(s))
    && (forall k :: 0 <= k < |s| ==> IsDigit(s[k]) || s[k] == '_')
    && (forall k :: 0 <= k < |s| - 1 ==> s[k] == '_' ==> s[k + 1] != '_')
  }

  /**
   * Python's `int(s)` on a string: surrounding whitespace, an optional sign,
   * then well-formed digits; `None` is the `ValueError` Python raises.
   */
  function ParseInt(s: string): (r: Option<int>)
    ensures r.Some? ==> Strip(s, IsSpace) != ""
  {
    var t := Strip(s, IsSpace);
    if t != "" && (t[0] == '+' || t[0] == '-') then
      if WellFormedDigits(t[1..]) then
        var magnitude: int := DigitsValue(t[1..]);
        Some(if t[0] == '-' then -magnitude else magnitude)
      else None
    else if WellFormedDigits(t) then Some(DigitsValue(t))
    else None
  }

  /** Reading back the decimal digits of `n` gives `n`. */
  lemma {:induction false} DigitsValueOfNat(n: nat)
    ensures DigitsValue(NatToString(n)) == n
    decreases n
  {
    if n >= 10 {
      var s := NatToString(n);
      assert s[..|s| - 1] == NatToString(n / 10);
      DigitsValueOfNat(n / 10);
    }
  }

  /** The decimal digits of `n` are what `int()` accepts as digits. */
  lemma NatStringWellFormed(n: nat)
    ensures WellFormedDigits(NatToString(n))
  {
  }

  /** A string that starts with a digit or a sign and ends with a digit is not stripped. */
  lemma NumberNotStripped(s: string)
    requires s != "" && (IsDigit(s[0]) || s[0] == '-') && IsDigit(Last(s))
    ensures Strip(s, IsSpace) == s
  {
    StripNothing(s, IsSpace);
  }

  /** `int(str(i)) == i`: parsing undoes printing. */
  lemma ParseIntOfString(i: int)
    ensures ParseInt(IntToString(i)) == Some(i)
  {
    var n: nat := if i < 0 then -i else i;
    var digits := NatToString(n);
    NatStringWellFormed(n);
    DigitsValueOfNat(n);
    if i < 0 {
      var s := "-" + digits;
      assert Last(s) == Last(digits);
      NumberNotStripped(s);
      assert s[1..] == digits;
    } else {
      NumberNotStripped(digits);
    }
  }
}
