/** Telling that a message repeats one just sent: the normal form, the rephrasing test, the
    search of the history, and the guard over messages in flight. */
module Dedup {
  import opened Basics

  const IDENTICAL_WINDOW := 6 * 60 * MINUTE
  const REPHRASE_WINDOW := 10 * MINUTE
  const MIN_WORDS := 6

  // ---- the normal form ----

  /** Unicode, as far as it matters: what is a letter or digit, and its lower case. */
  datatype Alphabet = Alphabet(keep: char -> bool, lower: char -> char)

  ghost predicate Sane(a: Alphabet) {
    && (forall c :: a.lower(a.lower(c)) == a.lower(c))
    && a.lower(' ') == ' ' && !a.keep(' ')
  }

  /** Each character in lower case, or a space where it is neither letter nor digit. */
  function Spaced(a: Alphabet, s: string): (r: string)
    ensures |r| == |s|
  {
    seq(|s|, i requires 0 <= i < |s| => if a.keep(a.lower(s[i])) then a.lower(s[i]) else ' ')
  }

  /** The words between spaces. */
  function Fields(s: string): seq<string>
    decreases |s|
  {
    if s == "" then []
    else if s[0] == ' ' then Fields(s[1..])
    else
      var n := WordEnd(s);
      [s[..n]] + Fields(s[n..])
  }

  function WordEnd(s: string): (n: nat)
    ensures n <= |s| && (s != "" && s[0] != ' ' ==> n > 0)
    ensures ' ' !in s[..n] && (n == |s| || s[n] == ' ')
  {
    if s == "" || s[0] == ' ' then 0 else 1 + WordEnd(s[1..])
  }

  function Joined(words: seq<string>): string {
    if words == [] then ""
    else if |words| == 1 then words[0]
    else words[0] + " " + Joined(words[1..])
  }

  function Normal(a: Alphabet, s: string): string {
    Joined(Fields(Spaced(a, s)))
  }

  ghost predicate Words(words: seq<string>) {
    forall i :: 0 <= i < |words| ==> words[i] != "" && ' ' !in words[i]
  }

  lemma Slices(s: string, n: nat)
    requires n <= |s|
    ensures forall c :: c in s[..n] || c in s[n..] ==> c in s
  {
  }

  lemma {:induction false} FieldsAreWords(s: string)
    ensures Words(Fields(s))
    ensures forall i, c :: 0 <= i < |Fields(s)| && c in Fields(s)[i] ==> c in s
    decreases |s|
  {
    if s != "" {
      if s[0] == ' ' {
        FieldsAreWords(s[1..]);
        Slices(s, 1);
      } else {
        var n := WordEnd(s);
        Slices(s, n);
        var rest := Fields(s[n..]);
        FieldsAreWords(s[n..]);
        forall i | 0 <= i < |rest| + 1
          ensures Fields(s)[i] == (if i == 0 then s[..n] else rest[i-1]) && forall c :: c in Fields(s)[i] ==> c in s {
          if i > 0 {
            assert forall c :: c in rest[i-1] ==> c in s[n..];
          }
        }
      }
    }
  }

  lemma {:induction false} WordEndIs(w: string, rest: string)
    requires ' ' !in w && (rest == "" || rest[0] == ' ')
    ensures WordEnd(w + rest) == |w|
  {
    if w == "" {
      assert w + rest == rest;
    } else {
      assert (w + rest)[0] == w[0] && w[0] in w;
      assert (w + rest)[1..] == w[1..] + rest;
      WordEndIs(w[1..], rest);
    }
  }

  /** Joining words and splitting them again gives the words back. */
  lemma {:induction false} FieldsOfJoined(words: seq<string>)
    requires Words(words)
    ensures Fields(Joined(words)) == words
  {
    if words != [] {
      var w := words[0];
      assert w[0] in w;
      if |words| == 1 {
        WordEndIs(w, "");
        assert w + "" == w && w[|w|..] == "";
      } else {
        FieldsOfJoined(words[1..]);
        var tail := " " + Joined(words[1..]);
        WordEndIs(w, tail);
        assert w + " " + Joined(words[1..]) == w + tail;
        assert (w + tail)[|w|..] == tail && (w + tail)[..|w|] == w;
        assert tail[1..] == Joined(words[1..]);
        assert [w] + words[1..] == words;
      }
    }
  }

  lemma {:induction false} JoinedChars(words: seq<string>, c: char)
    requires c in Joined(words)
    ensures c == ' ' || exists i :: 0 <= i < |words| && c in words[i]
  {
    if |words| == 1 {
      assert c in words[0];
    } else if |words| > 1 {
      if c in Joined(words[1..]) {
        JoinedChars(words[1..], c);
        if c != ' ' {
          var i :| 0 <= i < |words[1..]| && c in words[1..][i];
          assert c in words[i+1];
        }
      } else if c in words[0] {
      }
    }
  }

  /** The normal form of a normal form is itself. */
  lemma NormalIsIdempotent(a: Alphabet, s: string)
    requires Sane(a)
    ensures Normal(a, Normal(a, s)) == Normal(a, s)
  {
    var words, n := Fields(Spaced(a, s)), Normal(a, s);
    FieldsAreWords(Spaced(a, s));
    forall i | 0 <= i < |n| ensures Spaced(a, n)[i] == n[i] {
      assert n[i] in n;
      JoinedChars(words, n[i]);
      if n[i] != ' ' {
        var k :| 0 <= k < |words| && n[i] in words[k];
        assert n[i] in Spaced(a, s);
      }
    }
    assert Spaced(a, n) == n;
    FieldsOfJoined(words);
  }

  // ---- the same thing in other words ----

  function Bytes(c: char): nat {
    if c as int < 0x80 then 1 else if c as int < 0x800 then 2 else if c as int < 0x10000 then 3 else 4
  }

  function ByteLength(w: string): nat {
    if w == "" then 0 else Bytes(w[0]) + ByteLength(w[1..])
  }

  const COMMON: set<string> := {
    "just", "know", "that", "this", "with", "from", "have", "your", "will", "been",
    "they", "them", "there", "here", "what", "when", "then", "than", "also", "into",
    "about", "would", "could", "should", "please", "thanks", "hi", "hey", "hello" }

  function Significant(norm: string): set<string> {
    set w | w in Fields(norm) && ByteLength(w) >= 4 && w !in COMMON
  }

  function Smaller(a: set<string>, b: set<string>): nat {
    if |b| < |a| then |b| else |a|
  }

  /** At least three fifths of the shorter one's words are in the other. */
  predicate Overlaps(a: set<string>, b: set<string>) {
    a != {} && b != {} && 5 * |a * b| >= 3 * Smaller(a, b)
  }

  /** The ratio is symmetric and between nothing and all; a message whose words the other
      all has is said again, and one that shares none is not. */
  lemma OverlapIsRatio(a: set<string>, b: set<string>)
    ensures Overlaps(a, b) == Overlaps(b, a)
    ensures 0 <= |a * b| <= Smaller(a, b)
    ensures a != {} && a <= b ==> Overlaps(a, b)
    ensures a !! b ==> !Overlaps(a, b)
  {
    assert a * b == b * a;
    Within(a * b, a);
    Within(a * b, b);
    if a <= b {
      assert a * b == a;
      Within(a, b);
    }
    if a !! b {
      assert a * b == {};
    }
  }

  lemma Within(a: set<string>, b: set<string>)
    requires a <= b
    ensures |a| <= |b| && (b != {} ==> |b| > 0)
  {
    assert |b - a| == |b| - |a|;
  }

  // ---- the history ----

  datatype Past = Past(content: string, at: int)

  predicate Repeats(a: Alphabet, content: string, p: Past, now: int) {
    var norm, prev, age := Normal(a, content), Normal(a, p.content), now - p.at;
    && norm != "" && prev != "" && 0 <= age <= IDENTICAL_WINDOW
    && (prev == norm
        || (age <= REPHRASE_WINDOW && |Significant(norm)| >= MIN_WORDS && Overlaps(Significant(norm), Significant(prev))))
  }

  /** A message is a repeat iff some message of the history is one it repeats. */
  method IsRepeat(a: Alphabet, content: string, recent: seq<Past>, now: int) returns (dup: bool)
    ensures dup <==> exists i :: 0 <= i < |recent| && Repeats(a, content, recent[i], now)
  {
    hide Overlaps, Significant, Normal;
    var norm := Normal(a, content);
    if norm == "" {
      return false;
    }
    var words := Significant(norm);
    for i := 0 to |recent|
      invariant forall j :: 0 <= j < i ==> !Repeats(a, content, recent[j], now)
    {
      var age := now - recent[i].at;
      if age < 0 || age > IDENTICAL_WINDOW {
        continue;
      }
      var prev := Normal(a, recent[i].content);
      if prev == "" {
        continue;
      }
      if prev == norm {
        return true;
      }
      if age <= REPHRASE_WINDOW && |words| >= MIN_WORDS {
        if Overlaps(words, Significant(prev)) {
          return true;
        }
      }
    }
    return false;
  }

  // ---- messages in flight ----

  function Purged(inflight: map<string, int>, now: int): map<string, int> {
    map k | k in inflight && now - inflight[k] <= MINUTE :: inflight[k]
  }

  class SendGuard {
    var inflight: map<string, int>

    constructor ()
      ensures inflight == map[]
    {
      inflight := map[];
    }

    /** Claims a message if nothing holds it; a hold of over a minute is forgotten. */
    method Reserve(key: string, now: int) returns (ok: bool)
      modifies this
      ensures ok <==> key !in old(inflight) || now - old(inflight)[key] > MINUTE
      ensures ok <==> key !in Purged(old(inflight), now)
      ensures inflight == if ok then Purged(old(inflight), now)[key := now] else Purged(old(inflight), now)
    {
      inflight := map k | k in inflight && now - inflight[k] <= MINUTE :: inflight[k];
      if key in inflight {
        return false;
      }
      inflight := inflight[key := now];
      return true;
    }

    method Release(key: string)
      modifies this
      ensures inflight == old(inflight) - {key}
    {
      inflight := inflight - {key};
    }
  }

  datatype Hold = Hold(key: string, at: int)

  /** The guard, and who is inside: each sender between its reservation and its release. */
  datatype Guard = Guard(inflight: map<string, int>, inside: map<nat, Hold>, now: int)

  datatype Move = Enter(p: nat, key: string, now: int) | Exit(p: nat, now: int)

  predicate Granted(g: Guard, key: string, now: int) {
    key !in g.inflight || now - g.inflight[key] > MINUTE
  }

  function After(g: Guard, m: Move): Guard {
    match m
    case Enter(p, key, now) =>
      if p in g.inside then g
      else if Granted(g, key, now) then Guard(Purged(g.inflight, now)[key := now], g.inside[p := Hold(key, now)], now)
      else Guard(Purged(g.inflight, now), g.inside, now)
    case Exit(p, now) =>
      if p !in g.inside then g
      else Guard(g.inflight - {g.inside[p].key}, g.inside - {p}, now)
  }

  ghost predicate Exclusive(g: Guard) {
    forall p, q :: p in g.inside && q in g.inside && g.inside[p].key == g.inside[q].key ==> p == q
  }

  /** No hold is over a minute old. */
  ghost predicate Brief(g: Guard, now: int) {
    forall p :: p in g.inside ==> now - g.inside[p].at <= MINUTE
  }

  ghost predicate Tracks(g: Guard) {
    && Exclusive(g)
    && (forall p :: p in g.inside ==> g.inside[p].key in g.inflight && g.inflight[g.inside[p].key] == g.inside[p].at)
    && (forall k :: k in g.inflight ==> exists p :: p in g.inside && g.inside[p].key == k)
  }

  /** While no one holds a message for over a minute, no two senders of one message are ever
      both inside. */
  lemma BriefHoldsExclude(g: Guard, m: Move)
    requires Tracks(g) && Brief(g, m.now)
    ensures Tracks(After(g, m))
  {
    if m.Enter? && m.p !in g.inside {
      NonePurged(g, m.now);
      EnterTracks(g, m.p, m.key, m.now);
    } else if m.Exit? && m.p in g.inside {
      ExitTracks(g, m.p, m.now);
    }
  }

  lemma NonePurged(g: Guard, now: int)
    requires Tracks(g) && Brief(g, now)
    ensures Purged(g.inflight, now) == g.inflight
  {
    forall k | k in g.inflight ensures now - g.inflight[k] <= MINUTE {
      var p :| p in g.inside && g.inside[p].key == k;
    }
  }

  lemma EnterTracks(g: Guard, p: nat, key: string, now: int)
    requires Tracks(g) && p !in g.inside && Purged(g.inflight, now) == g.inflight && Brief(g, now)
    ensures Tracks(After(g, Enter(p, key, now)))
  {
    hide Purged;
    var g' := After(g, Enter(p, key, now));
    forall k | k in g'.inflight ensures exists q :: q in g'.inside && g'.inside[q].key == k {
      if k in g.inflight {
        var q :| q in g.inside && g.inside[q].key == k;
        assert q in g'.inside && g'.inside[q].key == k;
      } else {
        assert g'.inside[p].key == k;
      }
    }
  }

  lemma ExitTracks(g: Guard, p: nat, now: int)
    requires Tracks(g) && p in g.inside
    ensures Tracks(After(g, Exit(p, now)))
  {
    var g' := After(g, Exit(p, now));
    forall k | k in g'.inflight ensures exists q :: q in g'.inside && g'.inside[q].key == k {
      var q :| q in g.inside && g.inside[q].key == k;
      assert q in g'.inside && g'.inside[q].key == k;
    }
  }

  ghost predicate AlwaysBrief(g: Guard, ms: seq<Move>)
    decreases |ms|
  {
    ms == [] || (Brief(g, ms[0].now) && AlwaysBrief(After(g, ms[0]), ms[1..]))
  }

  function Moves(g: Guard, ms: seq<Move>): Guard
    decreases |ms|
  {
    if ms == [] then g else Moves(After(g, ms[0]), ms[1..])
  }

  lemma {:induction false} GuardExcludes(g: Guard, ms: seq<Move>)
    requires Tracks(g) && AlwaysBrief(g, ms)
    ensures Tracks(Moves(g, ms)) && Exclusive(Moves(g, ms))
    decreases |ms|
  {
    if ms != [] {
      BriefHoldsExclude(g, ms[0]);
      GuardExcludes(After(g, ms[0]), ms[1..]);
    }
  }

  /** And exactly then: from any state the guard tracks, a sender is let in beside another of
      the same message iff that other has held it for over a minute. */
  lemma LetInBesideExactly(g: Guard, p: nat, q: nat, key: string, now: int)
    requires Tracks(g) && p !in g.inside && q in g.inside && g.inside[q].key == key
    ensures p in After(g, Enter(p, key, now)).inside <==> now - g.inside[q].at > MINUTE
  {
  }

  /** Then a release frees a reservation that is no longer its own: a third sender goes in
      beside the second, seconds after it. */
  lemma LongHoldFreesAnother(key: string)
    ensures var g := Moves(Guard(map[], map[], 0),
                           [Enter(0, key, 0), Enter(1, key, 61 * SECOND), Exit(0, 62 * SECOND), Enter(2, key, 63 * SECOND)]);
      1 in g.inside && 2 in g.inside && g.inside[1].key == g.inside[2].key && g.now - g.inside[1].at < MINUTE
  {
    var g1 := After(Guard(map[], map[], 0), Enter(0, key, 0));
    var g2 := After(g1, Enter(1, key, 61 * SECOND));
    var g3 := After(g2, Exit(0, 62 * SECOND));
    var g4 := After(g3, Enter(2, key, 63 * SECOND));
    assert g1.inflight == map[key := 0] && g1.inside == map[0 := Hold(key, 0)];
    assert g2.inside[1] == Hold(key, 61 * SECOND) && key in g2.inflight;
    assert key !in g3.inflight && 1 in g3.inside;
    var ms := [Enter(0, key, 0), Enter(1, key, 61 * SECOND), Exit(0, 62 * SECOND), Enter(2, key, 63 * SECOND)];
    assert ms[1..][1..][1..][1..] == [] && ms[1..][1..][1..][0] == ms[3] && ms[1..][1..][0] == ms[2];
    assert Moves(g3, ms[1..][1..][1..]) == g4;
    assert Moves(g2, ms[1..][1..]) == g4;
    assert Moves(g1, ms[1..]) == g4;
  }
}
