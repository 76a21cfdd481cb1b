/** What several parts share: durations in nanoseconds, plain text, and answers that may fail. */
module Basics {

  const SECOND := 1_000_000_000
  const MINUTE := 60 * SECOND

  datatype Answer<T> = Ok(value: T) | Failed

  /** Lower case, of ASCII letters. */
  function Lower(s: string): string {
    seq(|s|, i requires 0 <= i < |s| => if 'A' <= s[i] <= 'Z' then (s[i] as int + 32) as char else s[i])
  }

  predicate Space(c: char) {
    c in " \t\n\r"
  }

  function TrimSpace(s: string): string
    decreases |s|
  {
    if s == "" then s
    else if Space(s[0]) then TrimSpace(s[1..])
    else if Space(s[|s|-1]) then TrimSpace(s[..|s|-1])
    else s
  }

  /** A text and another, joined by a mark the first does not hold, can be told apart again. */
  lemma {:induction false} FirstMark(mark: char, a: string, x: string, b: string, y: string)
    requires mark !in a && mark !in b && a + [mark] + x == b + [mark] + y
    ensures a == b && x == y
  {
    var s, t := a + [mark] + x, b + [mark] + y;
    assert s[0] == if a == "" then mark else a[0];
    assert t[0] == if b == "" then mark else b[0];
    assert s[1..] == t[1..];
    if a == "" {
      assert s[1..] == x && t[1..] == y;
    } else {
      assert s[1..] == a[1..] + [mark] + x && t[1..] == b[1..] + [mark] + y;
      FirstMark(mark, a[1..], x, b[1..], y);
    }
  }

  /** Equal but for the case of ASCII letters. */
  predicate SameLetters(s: string, t: string) {
    |s| == |t| && forall i :: 0 <= i < |s| ==> SameLetter(s[i], t[i])
  }

  predicate SameLetter(c: char, d: char) {
    c == d || ('A' <= c <= 'Z' && d as int == c as int + 32) || ('A' <= d <= 'Z' && c as int == d as int + 32)
  }

  lemma LowerSame(s: string, t: string)
    ensures Lower(s) == Lower(t) <==> SameLetters(s, t)
  {
    if Lower(s) == Lower(t) {
      assert |Lower(s)| == |Lower(t)|;
      forall i | 0 <= i < |s| ensures SameLetter(s[i], t[i]) {
        assert Lower(s)[i] == Lower(t)[i];
      }
    }
  }

  lemma LowerLength(s: string)
    ensures |Lower(s)| == |s|
  {
  }

  /** What trimming leaves stands between spaces, and has none at its ends. */
  ghost predicate Trimmed(s: string, i: int, j: int) {
    && 0 <= i <= j <= |s| && (forall k :: 0 <= k < i || j <= k < |s| ==> Gap(s[k]))
    && (i < j ==> !Gap(s[i]) && !Gap(s[j-1]))
  }

  predicate Gap(c: char) {
    c == ' ' || c == '\t' || c == '\n' || c == '\r'
  }

  ghost predicate TrimmedTo(s: string, r: string) {
    exists i, j :: Trimmed(s, i, j) && r == s[i..j]
  }

  lemma TrimmedAfter(s: string, r: string)
    requires s != "" && Space(s[0]) && TrimmedTo(s[1..], r)
    ensures TrimmedTo(s, r)
  {
    var i, j :| Trimmed(s[1..], i, j) && r == s[1..][i..j];
    assert forall k :: 0 < k < |s| ==> s[1..][k-1] == s[k];
    assert Trimmed(s, i + 1, j + 1) && s[i+1..j+1] == r;
  }

  lemma TrimmedBefore(s: string, r: string)
    requires s != "" && Space(s[|s|-1]) && TrimmedTo(s[..|s|-1], r)
    ensures TrimmedTo(s, r)
  {
    var i, j :| Trimmed(s[..|s|-1], i, j) && r == s[..|s|-1][i..j];
    assert forall k :: 0 <= k < |s| - 1 ==> s[..|s|-1][k] == s[k];
    assert Trimmed(s, i, j) && s[i..j] == r;
  }

  lemma TrimmedWhole(s: string)
    requires s == "" || (!Space(s[0]) && !Space(s[|s|-1]))
    ensures TrimmedTo(s, s)
  {
    assert Trimmed(s, 0, |s|) && s[0..|s|] == s;
  }

  lemma {:induction false} TrimSpelled(s: string)
    ensures TrimmedTo(s, TrimSpace(s))
    decreases |s|
  {
    hide TrimmedTo, Space;
    if s == "" || (!Space(s[0]) && !Space(s[|s|-1])) {
      TrimmedWhole(s);
    } else if Space(s[0]) {
      TrimSpelled(s[1..]);
      TrimmedAfter(s, TrimSpace(s[1..]));
    } else {
      TrimSpelled(s[..|s|-1]);
      TrimmedBefore(s, TrimSpace(s[..|s|-1]));
    }
  }
}
