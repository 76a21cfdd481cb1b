/** What a transcript shows, told by the records of its file: whose words stand alone, what became of
    each call, and how prose is joined. */
module ChatFacts {
  import opened ChatLog

  // ---- prose ----

  /** `x` is `a` without the blanks at its end. */
  ghost predicate CutAtEnd(a: string, x: string) {
    x <= a && (forall i :: |x| <= i < |a| ==> a[i] in " \t\n") && (x != "" ==> x[|x|-1] !in " \t\n")
  }

  /** `y` is `b` without the line ends at its start. */
  ghost predicate CutAtStart(b: string, y: string) {
    |y| <= |b| && b[|b|-|y|..] == y && (forall i :: 0 <= i < |b| - |y| ==> b[i] == '\n') && (y != "" ==> y[0] != '\n')
  }

  lemma {:induction false} TrimRightCuts(a: string)
    ensures CutAtEnd(a, TrimRight(a))
    decreases |a|
  {
    if a != "" && Blank(a[|a|-1]) {
      TrimRightCuts(a[..|a|-1]);
      assert forall i :: 0 <= i < |a| - 1 ==> a[..|a|-1][i] == a[i];
    }
  }

  lemma {:induction false} TrimLeftCuts(b: string)
    ensures CutAtStart(b, TrimLeft(b))
    decreases |b|
  {
    if b == "" || b[0] != '\n' {
      assert b[0..] == b;
    } else {
      TrimLeftCuts(b[1..]);
      var y := TrimLeft(b[1..]);
      assert b[1..][|b| - 1 - |y|..] == b[|b| - |y|..];
      assert forall i :: 0 < i < |b| ==> b[i] == b[1..][i-1];
    }
  }

  /** Two blocks of prose are a paragraph apart: what blanks ended the first and line ends began the
      second are gone, and nothing else. */
  lemma JoinSpelled(a: string, b: string)
    ensures a == "" ==> JoinProse(a, b) == b
    ensures b == "" ==> JoinProse(a, b) == a
    ensures a != "" && b != "" ==> exists x, y :: CutAtEnd(a, x) && CutAtStart(b, y) && JoinProse(a, b) == x + "\n\n" + y
  {
    TrimRightCuts(a);
    TrimLeftCuts(b);
  }

  // ---- a user's own messages ----

  /** The user's records that say anything, in the order of the file. */
  function Typed(rs: seq<Record>): seq<Record> {
    if rs == [] then []
    else
      var r := rs[|rs|-1];
      Typed(rs[..|rs|-1]) + (if r.role == "user" && (TextOf(r.content) != "" || CallsOf(r.content) != []) then [r] else [])
  }

  function OfUser(out: seq<Message>): seq<Message> {
    if out == [] then [] else OfUser(out[..|out|-1]) + (if out[|out|-1].role == "user" then [out[|out|-1]] else [])
  }

  lemma OfUserStep(out: seq<Message>, m: Message)
    ensures OfUser(out + [m]) == OfUser(out) + (if m.role == "user" then [m] else [])
  {
    assert (out + [m])[..|out|] == out;
  }

  lemma MergeUsers(out: seq<Message>, m: Message)
    ensures OfUser(Merge(out, m)) == OfUser(out) + (if m.role == "user" && !Silent(m) then [m] else [])
  {
    if !Silent(m) && out != [] && m.role == "assistant" && out[|out|-1].role == m.role {
      var init, last := out[..|out|-1], out[|out|-1];
      OfUserStep(init, last.(text := JoinProse(last.text, m.text), calls := last.calls + m.calls));
    } else if !Silent(m) {
      OfUserStep(out, m);
    }
  }

  lemma {:induction false} ScannedUsers(rs: seq<Record>)
    ensures var users, typed := OfUser(Scanned([], rs)), Typed(rs);
      |users| == |typed| && forall i :: 0 <= i < |typed| ==>
        users[i].text == TextOf(typed[i].content) && users[i].at == typed[i].at && users[i].calls == CallsOf(typed[i].content)
    decreases |rs|
  {
    hide Merge, TextOf, CallsOf;
    if rs != [] {
      var init, r := rs[..|rs|-1], rs[|rs|-1];
      ScannedUsers(init);
      if Heard(r) {
        MergeUsers(Scanned([], init), MessageOf(r));
      }
    }
  }

  lemma {:induction false} AppliedUsers(out: seq<Message>, results: map<string, ChatLog.Outcome>)
    ensures OfUser(Applied(out, results)) == Applied(OfUser(out), results)
    decreases |out|
  {
    hide FatedCalls;
    if out != [] {
      var init, last := out[..|out|-1], out[|out|-1];
      AppliedUsers(init, results);
      assert Applied(out, results)[..|out|-1] == Applied(init, results);
      assert Applied(out, results)[|out|-1].role == last.role;
    }
  }

  /** Each thing the user typed is a message of its own, in order, with its own words and time:
      however many stand together, none is joined to another. */
  lemma TypedStandsAlone(rs: seq<Record>)
    ensures var users, typed := OfUser(Transcript(rs)), Typed(rs);
      |users| == |typed| && forall i :: 0 <= i < |typed| ==> users[i].text == TextOf(typed[i].content) && users[i].at == typed[i].at
  {
    hide Scanned, TextOf, FatedCalls;
    ScannedUsers(rs);
    AppliedUsers(Scanned([], rs), ResultsOf(Parts(rs)));
  }

  /** Records that are neither the user's nor the assistant's leave no trace. */
  lemma OthersDoNotShow(rs: seq<Record>)
    ensures Transcript(rs) == Transcript(SpokenOf(rs))
  {
    OthersNotScanned(rs);
  }

  function SpokenOf(rs: seq<Record>): seq<Record> {
    if rs == [] then []
    else SpokenOf(rs[..|rs|-1]) + (if rs[|rs|-1].role == "user" || rs[|rs|-1].role == "assistant" then [rs[|rs|-1]] else [])
  }

  lemma {:induction false} OthersNotScanned(rs: seq<Record>)
    ensures Scanned([], rs) == Scanned([], SpokenOf(rs)) && Parts(rs) == Parts(SpokenOf(rs))
    decreases |rs|
  {
    hide Merge, MessageOf;
    if rs != [] {
      OthersNotScanned(rs[..|rs|-1]);
      var before, last := SpokenOf(rs[..|rs|-1]), rs[|rs|-1];
      assert (before + [last])[..|before|] == before && before + [] == before;
    }
  }

  // ---- calls ----

  /** The last result under an id, among a file's parts. */
  ghost predicate LastResult(ps: seq<Part>, id: string, i: int) {
    && 0 <= i < |ps| && ps[i].ToolResult? && ps[i].id == id
    && forall j :: i < j < |ps| ==> !(ps[j].ToolResult? && ps[j].id == id)
  }

  ghost predicate NoResult(ps: seq<Part>, id: string) {
    forall j :: 0 <= j < |ps| ==> !(ps[j].ToolResult? && ps[j].id == id)
  }

  lemma {:induction false} ResultsSpelled(ps: seq<Part>, id: string)
    ensures NoResult(ps, id) <==> id !in ResultsOf(ps)
    ensures forall i :: LastResult(ps, id, i) ==>
              id in ResultsOf(ps) && ResultsOf(ps)[id].output == ps[i].output && ResultsOf(ps)[id].failed == ps[i].failed
    decreases |ps|
  {
    if ps != [] {
      var init, p := ps[..|ps|-1], ps[|ps|-1];
      ResultsSpelled(init, id);
      if p.ToolResult? && p.id == id {
        assert !NoResult(ps, id);
      } else {
        assert NoResult(ps, id) <==> NoResult(init, id) by {
          assert forall j :: 0 <= j < |init| ==> init[j] == ps[j];
        }
        forall i | LastResult(ps, id, i)
          ensures id in ResultsOf(ps) && ResultsOf(ps)[id].output == ps[i].output && ResultsOf(ps)[id].failed == ps[i].failed {
          assert LastResult(init, id, i);
        }
      }
    }
  }

  /** What a call shows: itself as it was made, and what the last result under its id says of it: its
      output, and that it failed, or that it was completed; with no result, completed with nothing. */
  lemma CallSpelled(p: Part, ps: seq<Part>)
    requires p.ToolUse?
    ensures var c := Fated(CallOf(p), ResultsOf(ps));
      && c.id == p.id && c.title == p.title && c.kind == p.kind && c.input == p.input
      && (NoResult(ps, p.id) ==> c.output == "" && c.status == "completed")
      && (forall i :: LastResult(ps, p.id, i) ==> c.output == ps[i].output && c.status == if ps[i].failed then "failed" else "completed")
  {
    ResultsSpelled(ps, p.id);
  }

  /** The calls made, in the order of the file. */
  function Made(ps: seq<Part>): (r: seq<Part>)
    ensures forall i :: 0 <= i < |r| ==> r[i].ToolUse?
  {
    if ps == [] then [] else Made(ps[..|ps|-1]) + (if ps[|ps|-1].ToolUse? then [ps[|ps|-1]] else [])
  }

  lemma {:induction false} CallsAreMade(ps: seq<Part>)
    ensures |CallsOf(ps)| == |Made(ps)| && forall i :: 0 <= i < |Made(ps)| ==> CallsOf(ps)[i] == CallOf(Made(ps)[i])
    decreases |ps|
  {
    if ps != [] {
      CallsAreMade(ps[..|ps|-1]);
    }
  }

  /** A transcript's calls are those of the file, in its order, each as its last result left it. */
  lemma CallsSpelled(rs: seq<Record>, i: nat)
    requires i < |Made(Parts(rs))|
    ensures var p, ps, calls := Made(Parts(rs))[i], Parts(rs), AllCalls(Transcript(rs));
      && |calls| == |Made(ps)| && calls[i].id == p.id && calls[i].title == p.title && calls[i].input == p.input
      && (NoResult(ps, p.id) ==> calls[i].output == "" && calls[i].status == "completed")
      && (forall j :: LastResult(ps, p.id, j) ==> calls[i].output == ps[j].output && calls[i].status == if ps[j].failed then "failed" else "completed")
  {
    hide Transcript, Parts, Made, CallsOf, Fated, CallOf, LastResult, NoResult, AllCalls;
    TranscriptIsFaithful(rs);
    CallsAreMade(Parts(rs));
    CallSpelled(Made(Parts(rs))[i], Parts(rs));
  }
}
