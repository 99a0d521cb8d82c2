/**
 * The few functions of Go's `strings` package that the crawler and the file
 * server use on URLs and paths, over `seq<char>`, each with the facts the
 * naming rules rely on.
 */
module Strings {

  /** `strings.HasPrefix(s, p)`. */
  predicate HasPrefix(s: string, p: string)
  {
    |p| <= |s| && s[..|p|] == p
  }

  /** `strings.TrimPrefix(s, p)`: `s` without its leading `p`, or `s` itself. */
  function TrimPrefix(s: string, p: string): (r: string)
    ensures HasPrefix(s, p) ==> p + r == s
    ensures !HasPrefix(s, p) ==> r == s
  {
    if HasPrefix(s, p) then s[|p|..] else s
  }

  lemma TrimPrefixOfConcat(p: string, x: string)
    ensures TrimPrefix(p + x, p) == x
  {
    assert (p + x)[..|p|] == p;
  }

  /**
   * `strings.TrimRight(s, cutset)` with a one-character cutset: every trailing
   * `c` is removed, and nothing else.
   */
  function TrimRight(s: string, c: char): (r: string)
    ensures |r| <= |s| && r == s[..|r|]
    ensures r == [] || r[|r| - 1] != c
    ensures forall i :: |r| <= i < |s| ==> s[i] == c
    decreases |s|
  {
    if |s| > 0 && s[|s| - 1] == c then TrimRight(s[..|s| - 1], c) else s
  }

  /** `strings.Replace(s, from, to, -1)` with one-character `from` and `to`. */
  function ReplaceAll(s: string, from: char, to: char): (r: string)
    ensures |r| == |s|
    ensures forall i :: 0 <= i < |s| ==> r[i] == (if s[i] == from then to else s[i])
    ensures from != to ==> from !in r
  {
    if s == [] then [] else [if s[0] == from then to else s[0]] + ReplaceAll(s[1..], from, to)
  }

  lemma ReplaceAllConcat(a: string, b: string, from: char, to: char)
    ensures ReplaceAll(a + b, from, to) == ReplaceAll(a, from, to) + ReplaceAll(b, from, to)
  {
    var l, r := ReplaceAll(a + b, from, to), ReplaceAll(a, from, to) + ReplaceAll(b, from, to);
    assert forall i :: 0 <= i < |l| ==> l[i] == r[i] by {
      forall i | 0 <= i < |l| ensures l[i] == r[i] {
        if i >= |a| {
          assert (a + b)[i] == b[i - |a|];
        }
      }
    }
  }

  /** Replacing around one occurrence of `from`: the occurrence becomes `to`. */
  lemma ReplaceAllAround(x: string, y: string, from: char, to: char)
    ensures ReplaceAll(x + [from] + y, from, to) == ReplaceAll(x, from, to) + [to] + ReplaceAll(y, from, to)
  {
    ReplaceAllConcat(x + [from], y, from, to);
    ReplaceAllConcat(x, [from], from, to);
  }

  lemma ReplaceAllUnchanged(s: string, from: char, to: char)
    requires from !in s
    ensures ReplaceAll(s, from, to) == s
  {
  }

  /**
   * `strings.Index(s, string(c))`: the first position of `c` in `s`, or -1.
   */
  function IndexOf(s: string, c: char): (r: int)
    ensures -1 <= r < |s|
    ensures r == -1 ==> c !in s
    ensures r >= 0 ==> s[r] == c && c !in s[..r]
  {
    if s == [] then -1
    else if s[0] == c then 0
    else
      var k := IndexOf(s[1..], c);
      if k < 0 then -1 else k + 1
  }

  /**
   * `strings.Split(s, string(sep))`: the fields between occurrences of `sep`.
   * There is always at least one field, and no field holds `sep`; `JoinSplit`
   * shows that joining them back gives `s`.
   */
  function Split(s: string, sep: char): (r: seq<string>)
    ensures |r| >= 1
    ensures forall i :: 0 <= i < |r| ==> sep !in r[i]
    decreases |s|
  {
    if s == [] then [[]]
    else
      var rest := Split(s[1..], sep);
      if s[0] == sep then [[]] + rest
      else [[s[0]] + rest[0]] + rest[1..]
  }

  /** `strings.Join(parts, string(sep))`. */
  function JoinWith(parts: seq<string>, sep: char): string
  {
    if parts == [] then []
    else if |parts| == 1 then parts[0]
    else parts[0] + [sep] + JoinWith(parts[1..], sep)
  }

  /** Splitting at `sep` and joining the fields with `sep` gives the string back. */
  lemma {:induction false} JoinSplit(s: string, sep: char)
    ensures JoinWith(Split(s, sep), sep) == s
    decreases |s|
  {
    if s != [] {
      var rest := Split(s[1..], sep);
      JoinSplit(s[1..], sep);
      if s[0] == sep {
        assert ([[]] + rest)[1..] == rest;
        assert s == [sep] + s[1..];
      } else {
        var parts := [[s[0]] + rest[0]] + rest[1..];
        if |rest| == 1 {
          assert s == [s[0]] + s[1..];
        } else {
          assert parts[1..] == rest[1..];
          assert JoinWith(rest, sep) == rest[0] + [sep] + JoinWith(rest[1..], sep);
          assert s == [s[0]] + s[1..];
        }
      }
    }
  }

  /** Joining splits off the last field after the last separator. */
  lemma {:induction false} JoinWithLast(parts: seq<string>, sep: char)
    requires |parts| >= 2
    ensures JoinWith(parts, sep)
         == JoinWith(parts[..|parts| - 1], sep) + [sep] + parts[|parts| - 1]
    decreases |parts|
  {
    if |parts| > 2 {
      JoinWithLast(parts[1..], sep);
      assert parts[1..][..|parts| - 2] == parts[..|parts| - 1][1..];
      assert parts[1..][|parts| - 2] == parts[|parts| - 1];
    } else {
      assert parts[..1] == [parts[0]];
    }
  }

  /** `fields[len(fields)-1]` where `fields := strings.Split(s, string(sep))`. */
  function LastField(s: string, sep: char): string
  {
    var fields := Split(s, sep);
    fields[|fields| - 1]
  }

  /**
   * The last field is the longest suffix of `s` free of `sep`: it is a suffix,
   * it holds no `sep`, and it is either all of `s` or preceded by a `sep`.
   */
  lemma LastFieldIsSuffix(s: string, sep: char)
    ensures var r := LastField(s, sep);
      && sep !in r
      && |r| <= |s| && s[|s| - |r|..] == r
      && (|r| < |s| ==> s[|s| - |r| - 1] == sep)
  {
    var fields := Split(s, sep);
    var r := fields[|fields| - 1];
    JoinSplit(s, sep);
    if |fields| >= 2 {
      JoinWithLast(fields, sep);
      var front := JoinWith(fields[..|fields| - 1], sep);
      assert s == front + [sep] + r;
      assert s[|s| - |r|..] == r;
    }
  }

  /** A string without `sep` is its own last field. */
  lemma LastFieldOfField(n: string, sep: char)
    requires sep !in n
    ensures LastField(n, sep) == n
  {
    LastFieldIsSuffix(n, sep);
  }

  /** The field after the last `sep` of `x + [sep] + n` is `n`. */
  lemma LastFieldAfterSep(x: string, n: string, sep: char)
    requires sep !in n
    ensures LastField(x + [sep] + n, sep) == n
  {
    var s := x + [sep] + n;
    LastFieldIsSuffix(s, sep);
    var r := LastField(s, sep);
    assert s[|s| - |n| - 1] == sep;
    assert forall k :: 0 <= k < |r| ==> r[k] == s[|s| - |r| + k];
    assert forall k :: 0 <= k < |n| ==> n[k] == s[|s| - |n| + k];
    assert |r| == |n|;
    assert s[|s| - |n|..] == n;
  }
}
