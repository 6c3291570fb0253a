/**
 * The .NET string operations the core relies on, on strings as sequences of characters:
 * ordinal `Contains` and `Split(separator)` with `StringSplitOptions.None` (with `IndexOf` as
 * the search both are built on), `EndsWith` compared character by character, and `ToLower`
 * on ASCII letters.
 */
module Strings {
  import opened Wrappers

  /** `p` occurs in `s` starting at position `i`. */
  predicate OccursAt(s: string, p: string, i: nat) {
    i + |p| <= |s| && s[i..i + |p|] == p
  }

  /** The first position at or after `from` where `p` occurs in `s`. */
  function IndexFrom(s: string, p: string, from: nat): (r: Option<nat>)
    requires |p| > 0
    ensures r.Some? ==> from <= r.value && OccursAt(s, p, r.value)
    ensures forall j: nat :: from <= j && (r.None? || j < r.value) ==> !OccursAt(s, p, j)
    decreases |s| - from
  {
    if from + |p| > |s| then None
    else if s[from..from + |p|] == p then Some(from)
    else IndexFrom(s, p, from + 1)
  }

  /** The first position where `p` occurs in `s`, as an ordinal `IndexOf` would find it; `None` for -1. */
  function IndexOf(s: string, p: string): (r: Option<nat>)
    requires |p| > 0
  {
    IndexFrom(s, p, 0)
  }

  /** `s.Contains(p)`: ordinal containment. */
  predicate Contains(s: string, p: string)
    requires |p| > 0
  {
    IndexOf(s, p).Some?
  }

  /** `s.EndsWith(suffix)`, comparing character by character. */
  predicate EndsWith(s: string, suffix: string) {
    |suffix| <= |s| && s[|s| - |suffix|..] == suffix
  }

  /** `string.Join(sep, xs)`. */
  function Join(xs: seq<string>, sep: string): string {
    if |xs| == 0 then ""
    else if |xs| == 1 then xs[0]
    else xs[0] + sep + Join(xs[1..], sep)
  }

  /**
   * `s.Split(new[] { sep }, StringSplitOptions.None)`: the pieces between successive
   * non-overlapping occurrences of `sep`, scanned from the left, empty pieces kept.
   */
  function Split(s: string, sep: string): (r: seq<string>)
    requires |sep| > 0
    ensures |r| >= 1
    ensures forall k :: 0 <= k < |r| ==> !Contains(r[k], sep)
    ensures Join(r, sep) == s
    ensures |r| > 1 ==> OccursAt(s, sep, |r[0]|)
    ensures |r| == 1 <==> !Contains(s, sep)
    decreases |s|
  {
    match IndexOf(s, sep)
    case None => [s]
    case Some(i) =>
      var rest := Split(s[i + |sep|..], sep);
      SplitCons(s, sep, i, rest);
      [s[..i]] + rest
  }

  /** The step of `Split`: the text before the first `sep`, then the pieces of the text after it. */
  lemma SplitCons(s: string, sep: string, i: nat, rest: seq<string>)
    requires |sep| > 0 && IndexOf(s, sep) == Some(i)
    requires |rest| >= 1 && Join(rest, sep) == s[i + |sep|..]
    requires forall k :: 0 <= k < |rest| ==> !Contains(rest[k], sep)
    ensures var r := [s[..i]] + rest;
      && (forall k :: 0 <= k < |r| ==> !Contains(r[k], sep))
      && Join(r, sep) == s
      && OccursAt(s, sep, |r[0]|)
  {
    var r := [s[..i]] + rest;
    PrefixBeforeFirst(s, sep, i);
    assert forall k :: 1 <= k < |r| ==> r[k] == rest[k - 1];
    assert r[1..] == rest;
    assert Join(r, sep) == s[..i] + sep + Join(rest, sep);
    assert s[i..i + |sep|] == sep;
    assert s == s[..i] + s[i..i + |sep|] + s[i + |sep|..];
  }

  /** The text before the first occurrence of `sep` holds no occurrence of it. */
  lemma PrefixBeforeFirst(s: string, sep: string, i: nat)
    requires |sep| > 0 && IndexOf(s, sep) == Some(i)
    ensures !Contains(s[..i], sep)
  {
    var pre := s[..i];
    if IndexOf(pre, sep).Some? {
      var j := IndexOf(pre, sep).value;
      assert pre[j..j + |sep|] == s[j..j + |sep|];
      assert OccursAt(s, sep, j);
      assert false;
    }
  }

  /** A string without the first character of `p` does not contain `p`. */
  lemma NoOccurrence(s: string, p: string)
    requires |p| > 0 && p[0] !in s
    ensures !Contains(s, p)
  {
  }

  /** The first piece of a split is the prefix before the first separator, or the whole string. */
  lemma FirstPiece(s: string, sep: string)
    requires |sep| > 0
    ensures var r := Split(s, sep)[0];
      r <= s && (|r| == |s| || OccursAt(s, sep, |r|))
  {
  }

  /** When `a` does not contain an unbordered `sep`, splitting `a + sep + b` cuts right after `a`. */
  lemma SplitAfter(a: string, sep: string, b: string)
    requires |sep| > 0 && Unbordered(sep) && !Contains(a, sep)
    ensures Split(a + sep + b, sep) == [a] + Split(b, sep)
  {
    var s := a + sep + b;
    FirstOccurrenceUnbordered(a, sep, b);
    assert s[..|a|] == a;
    assert s[|a| + |sep|..] == b;
  }

  /** A string without the first character of `sep` is split into itself alone. */
  lemma SplitWithout(s: string, sep: string)
    requires |sep| > 0 && sep[0] !in s
    ensures Split(s, sep) == [s]
  {
    NoOccurrence(s, sep);
  }

  /** The second piece of `a + sep + m + sep + b`, when neither `a` nor `m` contains the unbordered `sep`, is `m`. */
  lemma PieceBetween(a: string, sep: string, m: string, b: string)
    requires |sep| > 0 && Unbordered(sep) && !Contains(a, sep) && !Contains(m, sep)
    ensures |Split(a + sep + m + sep + b, sep)| >= 2 && Split(a + sep + m + sep + b, sep)[1] == m
  {
    assert a + sep + m + sep + b == a + sep + (m + sep + b);
    SplitAfter(a, sep, m + sep + b);
    SplitAfter(m, sep, b);
  }

  /** The second piece of `a + sep + m`, when neither `a` nor `m` contains the unbordered `sep`, is `m`. */
  lemma LastPiece(a: string, sep: string, m: string)
    requires |sep| > 0 && Unbordered(sep) && !Contains(a, sep) && !Contains(m, sep)
    ensures |Split(a + sep + m, sep)| >= 2 && Split(a + sep + m, sep)[1] == m
  {
    SplitAfter(a, sep, m);
  }

  /**
   * Joining with a character that `p` lacks creates no occurrence of `p`: one spanning the
   * separator would have that character inside it.
   */
  lemma ConcatAvoids(a: string, c: char, b: string, p: string)
    requires |p| > 0 && c !in p && !Contains(a, p) && !Contains(b, p)
    ensures !Contains(a + [c] + b, p)
  {
    var s := a + [c] + b;
    forall j: nat ensures !OccursAt(s, p, j) {
      if j + |p| > |s| {
      } else if j + |p| <= |a| {
        assert s[j..j + |p|] == a[j..j + |p|];
        assert !OccursAt(a, p, j);
      } else if j <= |a| {
        assert s[j..j + |p|][|a| - j] == c;
      } else {
        var k := j - |a| - 1;
        var window, inB := s[j..j + |p|], b[k..k + |p|];
        assert forall i :: 0 <= i < |p| ==> window[i] == inB[i];
        assert window == inB;
        assert !OccursAt(b, p, k);
      }
    }
  }

  /** Pieces without `p`, joined with a character that `p` lacks, do not contain `p`. */
  lemma {:induction false} JoinAvoids(xs: seq<string>, c: char, p: string)
    requires |p| > 0 && c !in p
    requires forall k :: 0 <= k < |xs| ==> !Contains(xs[k], p)
    ensures !Contains(Join(xs, [c]), p)
  {
    if |xs| == 0 {
      assert !OccursAt("", p, 0);
    } else if |xs| > 1 {
      JoinAvoids(xs[1..], c, p);
      ConcatAvoids(xs[0], c, Join(xs[1..], [c]), p);
    }
  }

  /** No proper suffix of `p` is also a prefix of it, so two occurrences of `p` cannot overlap. */
  predicate Unbordered(p: string) {
    forall d :: 0 < d < |p| ==> p[d..] != p[..|p| - d]
  }

  /**
   * When `a` does not contain an unbordered `p`, the first occurrence of `p` in `a + p + b`
   * is right after `a`: one starting inside `a` and running past it would make a border.
   */
  lemma FirstOccurrenceUnbordered(a: string, p: string, b: string)
    requires |p| > 0 && !Contains(a, p) && Unbordered(p)
    ensures IndexOf(a + p + b, p) == Some(|a|)
  {
    var s := a + p + b;
    assert OccursAt(s, p, |a|) by { assert s[|a|..|a| + |p|] == p; }
    forall j: nat | j < |a| ensures !OccursAt(s, p, j) {
      if j + |p| <= |a| {
        assert s[j..j + |p|] == a[j..j + |p|];
        assert !OccursAt(a, p, j);
      } else {
        var d := |a| - j;
        assert s[j..j + |p|][d..] == p[..|p| - d];
        assert p[d..] != p[..|p| - d];
      }
    }
  }

  /** A string that contains `p + q` contains `p`. */
  lemma ContainsPrefix(s: string, p: string, q: string)
    requires |p| > 0 && Contains(s, p + q)
    ensures Contains(s, p)
  {
    var i := IndexOf(s, p + q).value;
    assert s[i..i + |p|] == (p + q)[..|p|];
    assert OccursAt(s, p, i);
  }

  /** Splitting on a one-character separator undoes joining pieces that do not contain it. */
  lemma {:induction false} SplitJoin(xs: seq<string>, c: char)
    requires |xs| >= 1
    requires forall k :: 0 <= k < |xs| ==> c !in xs[k]
    ensures Split(Join(xs, [c]), [c]) == xs
  {
    if |xs| == 1 {
      SplitWithout(xs[0], [c]);
    } else {
      SplitJoin(xs[1..], c);
      NoOccurrence(xs[0], [c]);
      SplitAfter(xs[0], [c], Join(xs[1..], [c]));
      assert xs == [xs[0]] + xs[1..];
    }
  }

  /** The piece after the first `sep` is the text from there up to the next `sep`, or to the end. */
  lemma SecondPiece(s: string, sep: string)
    requires |sep| > 0 && Contains(s, sep)
    ensures var i := IndexOf(s, sep).value;
      |Split(s, sep)| >= 2 && Split(s, sep)[1] == Split(s[i + |sep|..], sep)[0]
  {
  }

  /** ASCII lower-casing of one character. */
  function LowerChar(c: char): char {
    if 'A' <= c <= 'Z' then (c as int + 32) as char else c
  }

  /** `s.ToLower()`, restricted to the ASCII letters. */
  function ToLower(s: string): (r: string)
    ensures |r| == |s|
    ensures forall i :: 0 <= i < |r| ==> !('A' <= r[i] <= 'Z')
    ensures forall i :: 0 <= i < |r| ==> (if 'A' <= s[i] <= 'Z' then r[i] as int == s[i] as int + 32 else r[i] == s[i])
  {
    seq(|s|, i requires 0 <= i < |s| => LowerChar(s[i]))
  }

  /** Lower-casing distributes over concatenation. */
  lemma ToLowerAppend(a: string, b: string)
    ensures ToLower(a + b) == ToLower(a) + ToLower(b)
  {
    assert forall i :: 0 <= i < |a + b| ==> ToLower(a + b)[i] == (ToLower(a) + ToLower(b))[i];
  }
}
