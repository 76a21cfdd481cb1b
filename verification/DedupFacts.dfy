/** When one message says another again, told by their words: which words count, when the same
    words do, and when enough of them do. */
module DedupFacts {
  import opened Basics
  import opened Dedup

  // ---- words ----

  lemma {:induction false} FieldsAcross(x: string, y: string)
    ensures Fields(x + " " + y) == Fields(x) + Fields(y)
    decreases |x|
  {
    var s := x + " " + y;
    if x == "" {
      assert s[1..] == y;
    } else if x[0] == ' ' {
      assert s[0] == ' ' && s[1..] == x[1..] + " " + y;
      FieldsAcross(x[1..], y);
    } else {
      var n := WordEnd(x);
      var tail := x[n..] + " " + y;
      WordEndIs(x[..n], tail);
      assert s == x[..n] + tail;
      assert (x[..n] + tail)[..n] == x[..n] && (x[..n] + tail)[n..] == tail;
      FieldsAcross(x[n..], y);
    }
  }

  /** A message's words, as they are compared. */
  function WordsOf(a: Alphabet, s: string): seq<string> {
    Fields(Normal(a, s))
  }

  lemma WordsAreSpaced(a: Alphabet, s: string)
    ensures WordsOf(a, s) == Fields(Spaced(a, s))
  {
    FieldsAreWords(Spaced(a, s));
    FieldsOfJoined(Fields(Spaced(a, s)));
  }

  /** A message without a character: no word. */
  lemma NoWords(a: Alphabet)
    ensures WordsOf(a, "") == []
  {
  }

  /** A character that is neither letter nor digit parts the words before it from those after it, and
      is itself in none. */
  lemma WordsPart(a: Alphabet, s: string, c: char, t: string)
    requires !a.keep(a.lower(c))
    ensures WordsOf(a, s + [c] + t) == WordsOf(a, s) + WordsOf(a, t)
  {
    hide Fields;
    WordsAreSpaced(a, s);
    WordsAreSpaced(a, t);
    WordsAreSpaced(a, s + [c] + t);
    assert Spaced(a, s + [c] + t) == Spaced(a, s) + " " + Spaced(a, t);
    FieldsAcross(Spaced(a, s), Spaced(a, t));
  }

  /** Letters and digits in a row are one word, in lower case. */
  lemma OneWord(a: Alphabet, s: string)
    requires s != "" && !a.keep(' ') && forall i :: 0 <= i < |s| ==> a.keep(a.lower(s[i]))
    ensures WordsOf(a, s) == [seq(|s|, i requires 0 <= i < |s| => a.lower(s[i]))]
  {
    var w := seq(|s|, i requires 0 <= i < |s| => a.lower(s[i]));
    WordsAreSpaced(a, s);
    assert Spaced(a, s) == w;
    assert ' ' !in w;
    WordEndIs(w, "");
    assert w + "" == w && w[..|w|] == w && w[|w|..] == "";
  }

  /** Two messages have one normal form iff they have the same words in the same order. */
  lemma NormalTellsWords(a: Alphabet, s: string, t: string)
    ensures Normal(a, s) == Normal(a, t) <==> WordsOf(a, s) == WordsOf(a, t)
    ensures Normal(a, s) == "" <==> WordsOf(a, s) == []
  {
    hide Fields;
    WordsAreSpaced(a, s);
    WordsAreSpaced(a, t);
    JoinedNone(Fields(Spaced(a, s)), Spaced(a, s));
  }

  lemma JoinedNone(words: seq<string>, s: string)
    requires words == Fields(s)
    ensures Joined(words) == "" <==> words == []
  {
    FieldsAreWords(s);
    if words != [] {
      assert words[0] != "" && |Joined(words)| >= |words[0]|;
    }
  }

  lemma {:induction false} BytesOfPlain(w: string)
    ensures |w| <= ByteLength(w) && ((forall c :: c in w ==> c as int < 0x80) ==> ByteLength(w) == |w|)
  {
    if w != "" {
      BytesOfPlain(w[1..]);
      assert w[0] in w && forall c :: c in w[1..] ==> c in w;
    }
  }

  // ---- saying again ----

  /** The words that count: of four bytes or more, and not among the common ones. */
  ghost predicate Counts(a: Alphabet, s: string, w: string) {
    (exists i :: 0 <= i < |WordsOf(a, s)| && WordsOf(a, s)[i] == w) && ByteLength(w) >= 4 && w !in COMMON
  }

  ghost function Counted(a: Alphabet, s: string): set<string> {
    set w | w in WordsOf(a, s) && Counts(a, s, w)
  }

  /** The same words, some, said no more than six hours before. */
  ghost predicate SaysTheSame(a: Alphabet, content: string, p: Past, now: int) {
    0 <= now - p.at <= 6 * 60 * 60 * SECOND && WordsOf(a, content) == WordsOf(a, p.content) != []
  }

  /** Six words or more that count, three fifths at least of the fewer ones shared, said no more than
      ten minutes before. */
  ghost predicate SaysInOtherWords(a: Alphabet, content: string, p: Past, now: int) {
    var mine, theirs := Counted(a, content), Counted(a, p.content);
    && 0 <= now - p.at <= 10 * 60 * SECOND
    && |mine| >= 6 && theirs != {} && (5 * |mine * theirs| >= 3 * |mine| || 5 * |mine * theirs| >= 3 * |theirs|)
  }

  lemma CountedIs(a: Alphabet, s: string)
    ensures Counted(a, s) == Significant(Normal(a, s))
  {
    hide Normal, ByteLength;
  }

  /** A message is a repeat of another iff it says the same, or says it in other words. */
  lemma RepeatsSpelled(a: Alphabet, content: string, p: Past, now: int)
    ensures Repeats(a, content, p, now) <==> SaysTheSame(a, content, p, now) || SaysInOtherWords(a, content, p, now)
  {
    hide Normal, Significant, Counted, WordsOf;
    NormalTellsWords(a, content, p.content);
    NormalTellsWords(a, p.content, content);
    CountedIs(a, content);
    CountedIs(a, p.content);
    CountedNeedsWords(a, content);
    CountedNeedsWords(a, p.content);
  }

  lemma CountedNeedsWords(a: Alphabet, s: string)
    ensures Counted(a, s) != {} ==> WordsOf(a, s) != []
  {
    hide WordsOf;
  }
}
