/** Finding a name in a text as a word of its own, and cutting a stream into lines. */
module Words {

  predicate WordByte(c: char) {
    'a' <= c <= 'z' || 'A' <= c <= 'Z' || '0' <= c <= '9'
  }

  predicate OccursAt(text: string, name: string, start: nat) {
    start + |name| <= |text| && text[start..start + |name|] == name
  }

  /** An occurrence with no word byte against either end. */
  predicate Delimited(text: string, name: string, start: nat) {
    && OccursAt(text, name, start)
    && (start == 0 || !WordByte(text[start-1]))
    && (start + |name| == |text| || !WordByte(text[start + |name|]))
  }

  /** The first occurrence from `from` on, if there is one. */
  method Index(text: string, name: string, from: nat) returns (found: bool, start: nat)
    requires from <= |text|
    ensures found ==> from <= start && OccursAt(text, name, start) && forall k: nat :: from <= k < start ==> !OccursAt(text, name, k)
    ensures !found ==> forall k: nat :: from <= k ==> !OccursAt(text, name, k)
  {
    start := from;
    while start + |name| <= |text|
      invariant from <= start && forall k: nat :: from <= k < start ==> !OccursAt(text, name, k)
      decreases |text| - start
    {
      if text[start..start + |name|] == name {
        return true, start;
      }
      start := start + 1;
    }
    return false, 0;
  }

  /** True exactly for a delimited occurrence; of the empty name, one before the text's end,
      unless that end is its start. */
  method ContainsWord(text: string, name: string) returns (r: bool)
    ensures r <==> exists k: nat :: Delimited(text, name, k) && (k == 0 || k < |text|)
  {
    var i := 0;
    while true
      invariant 0 <= i <= |text| && (i == 0 || i < |text|)
      invariant forall k: nat :: k < i ==> !Delimited(text, name, k)
      decreases |text| - i
    {
      var found, start := Index(text, name, i);
      if !found {
        return false;
      }
      var end := start + |name|;
      if (start == 0 || !WordByte(text[start-1])) && (end == |text| || !WordByte(text[end])) {
        if start == |text| {
          EmptyAtEnd(text, name, i, start);
        }
        assert Delimited(text, name, start);
        return true;
      }
      i := start + 1;
      if i >= |text| {
        return false;
      }
    }
  }

  /** The empty name is found where the search starts, which is before the end. */
  lemma EmptyAtEnd(text: string, name: string, i: nat, start: nat)
    requires i <= start == |text| && OccursAt(text, name, start) && forall k: nat :: i <= k < start ==> !OccursAt(text, name, k)
    requires i == 0 || i < |text|
    ensures start == 0
  {
    assert name == "";
    assert OccursAt(text, name, i);
  }

  // ---- lines ----

  function LineEnd(s: string): (n: nat)
    ensures n <= |s| && '\n' !in s[..n] && (n < |s| ==> s[n] == '\n')
  {
    if s == "" || s[0] == '\n' then 0 else 1 + LineEnd(s[1..])
  }

  /** The whole lines of a text, without their ends. */
  function Lines(s: string): seq<string>
    decreases |s|
  {
    var n := LineEnd(s);
    if n == |s| then [] else [s[..n]] + Lines(s[n+1..])
  }

  /** What follows the last line end. */
  function Rest(s: string): string
    decreases |s|
  {
    var n := LineEnd(s);
    if n == |s| then s else Rest(s[n+1..])
  }

  class LineSink {
    var buf: string
    var told: seq<string>

    constructor ()
      ensures buf == "" && told == []
    {
      buf, told := "", [];
    }

    /** Tells every line the bytes complete, and keeps the rest. */
    method Write(p: string)
      modifies this
      ensures told == old(told) + Lines(old(buf) + p) && buf == Rest(old(buf) + p)
    {
      buf := buf + p;
      ghost var all := buf;
      while true
        invariant told + Lines(buf) == old(told) + Lines(all) && Rest(buf) == Rest(all)
        decreases |buf|
      {
        var i := IndexByte(buf);
        if i == |buf| {
          break;
        }
        assert told + ([buf[..i]] + Lines(buf[i+1..])) == told + [buf[..i]] + Lines(buf[i+1..]);
        told := told + [buf[..i]];
        buf := buf[i+1..];
      }
    }
  }

  /** Where the first line end is, or the text's length. */
  method IndexByte(s: string) returns (i: nat)
    ensures i == LineEnd(s)
  {
    i := 0;
    while i < |s| && s[i] != '\n'
      invariant i <= |s| && LineEnd(s) == i + LineEnd(s[i..])
    {
      assert s[i..][1..] == s[i+1..];
      i := i + 1;
    }
  }

  lemma {:induction false} EndIs(a: string, b: string)
    ensures LineEnd(a + b) == if LineEnd(a) < |a| then LineEnd(a) else |a| + LineEnd(b)
  {
    if a == "" {
      assert a + b == b;
    } else if a[0] != '\n' {
      EndIs(a[1..], b);
      assert (a + b)[1..] == a[1..] + b;
    }
  }

  /** A text cut anywhere gives the same lines and the same rest. */
  lemma {:induction false} CutsDoNotShow(a: string, b: string)
    ensures Lines(a + b) == Lines(a) + Lines(Rest(a) + b) && Rest(a + b) == Rest(Rest(a) + b)
    decreases |a|
  {
    hide LineEnd;
    var n := LineEnd(a);
    EndIs(a, b);
    if n < |a| {
      var t := a[n+1..];
      CutsDoNotShow(t, b);
      assert (a + b)[..n] == a[..n];
      assert (a + b)[n+1..] == t + b;
      var x, y := Lines(t), Lines(Rest(t) + b);
      assert [a[..n]] + (x + y) == [a[..n]] + x + y;
    } else {
      assert [] + Lines(a + b) == Lines(a + b);
    }
  }

  function Joined(chunks: seq<string>): string {
    if chunks == [] then "" else Joined(chunks[..|chunks|-1]) + chunks[|chunks|-1]
  }

  /** What a sink has told, and keeps, after each chunk in turn. */
  function Fed(chunks: seq<string>): (seq<string>, string) {
    if chunks == [] then ([], "")
    else
      var before := Fed(chunks[..|chunks|-1]);
      (before.0 + Lines(before.1 + chunks[|chunks|-1]), Rest(before.1 + chunks[|chunks|-1]))
  }

  /** The lines told do not depend on how the bytes were chunked. */
  lemma {:induction false} ChunksDoNotShow(chunks: seq<string>)
    ensures Fed(chunks) == (Lines(Joined(chunks)), Rest(Joined(chunks)))
    decreases |chunks|
  {
    if chunks == [] {
      assert LineEnd("") == 0;
    } else {
      ChunksDoNotShow(chunks[..|chunks|-1]);
      CutsDoNotShow(Joined(chunks[..|chunks|-1]), chunks[|chunks|-1]);
    }
  }

  /** A letter or a digit, by its ASCII code. */
  predicate Alphanumeric(c: char) {
    48 <= c as int <= 57 || 65 <= c as int <= 90 || 97 <= c as int <= 122
  }

  lemma WordByteIs(c: char)
    ensures WordByte(c) <==> Alphanumeric(c)
  {
  }

  /** A word of its own: what stands before it ends, and what follows begins, with no letter or digit. */
  ghost predicate StandsBetween(text: string, name: string, before: string, rest: string) {
    && text == before + name + rest
    && (before != "" ==> !Alphanumeric(before[|before|-1])) && (rest != "" ==> !Alphanumeric(rest[0]))
  }

  lemma DelimitedSpelled(text: string, name: string, k: nat)
    ensures Delimited(text, name, k) <==> exists before, rest :: StandsBetween(text, name, before, rest) && |before| == k
  {
    hide WordByte, Alphanumeric;
    forall c ensures WordByte(c) <==> Alphanumeric(c) {
      WordByteIs(c);
    }
    if Delimited(text, name, k) {
      var before, rest := text[..k], text[k + |name|..];
      assert text == before + name + rest;
      assert StandsBetween(text, name, before, rest);
    }
    if before, rest :| StandsBetween(text, name, before, rest) && |before| == k {
      assert text[k..k + |name|] == name;
    }
  }
}
