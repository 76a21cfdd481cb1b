/** Reading a session file back: records merged into messages, prose joined, and each tool
    call given its result. */
module ChatLog {

  // ---- prose ----

  predicate Blank(c: char) {
    c == ' ' || c == '\t' || c == '\n'
  }

  function TrimRight(s: string): (r: string)
    ensures r <= s && (r == "" || !Blank(r[|r|-1]))
  {
    if s == "" || !Blank(s[|s|-1]) then s else TrimRight(s[..|s|-1])
  }

  function TrimLeft(s: string): string {
    if s == "" || s[0] != '\n' then s else TrimLeft(s[1..])
  }

  /** A paragraph break between two blocks of prose, when there are two. */
  function JoinProse(a: string, b: string): string {
    if a == "" || b == "" then a + b else TrimRight(a) + "\n\n" + TrimLeft(b)
  }

  lemma {:induction false} TrimRightAfter(a: string, b: string)
    ensures TrimRight(a + b) == if TrimRight(b) == "" then TrimRight(a) else a + TrimRight(b)
    decreases |b|
  {
    if b == "" {
      assert a + b == a;
    } else if Blank(b[|b|-1]) {
      TrimRightAfter(a, b[..|b|-1]);
      assert (a + b)[..|a + b|-1] == a + b[..|b|-1];
    } else {
      assert (a + b)[|a + b|-1] == b[|b|-1];
    }
  }

  lemma {:induction false} TrimLeftBefore(a: string, b: string)
    ensures TrimLeft(a + b) == if TrimLeft(a) == "" then TrimLeft(b) else TrimLeft(a) + b
    decreases |a|
  {
    if a == "" {
      assert a + b == b;
    } else if a[0] == '\n' {
      TrimLeftBefore(a[1..], b);
      assert (a + b)[1..] == a[1..] + b;
    } else {
      assert (a + b)[0] == a[0];
    }
  }

  lemma {:induction false} TrimLeftTwice(s: string)
    ensures TrimLeft(TrimLeft(s)) == TrimLeft(s)
  {
    if s != "" && s[0] == '\n' {
      TrimLeftTwice(s[1..]);
    }
  }

  lemma TrimRightTwice(s: string)
    ensures TrimRight(TrimRight(s)) == TrimRight(s)
  {
  }

  /** Trimming either end first makes no difference; what is all blank goes from the right. */
  lemma {:induction false} TrimsCommute(s: string)
    ensures TrimRight(s) == "" <==> TrimRight(TrimLeft(s)) == ""
    ensures TrimRight(TrimLeft(s)) == TrimLeft(TrimRight(s))
    ensures TrimRight(s) != "" ==> TrimLeft(TrimRight(s)) != ""
    decreases |s|
  {
    if s != "" && s[0] == '\n' {
      var t := s[1..];
      TrimsCommute(t);
      assert s == "\n" + t;
      TrimRightAfter("\n", t);
      assert TrimRight("\n") == TrimRight("") == "";
      if TrimRight(t) != "" {
        assert ("\n" + TrimRight(t))[1..] == TrimRight(t);
      }
    } else if s != "" {
      assert TrimLeft(s) == s;
      assert TrimRight(s) != "" ==> TrimRight(s)[0] == s[0];
    }
  }

  lemma BreakTrims()
    ensures TrimRight("\n\n") == "" && TrimLeft("\n\n") == ""
  {
    assert "\n\n"[..1] == "\n" && "\n"[..0] == "" && "\n\n"[1..] == "\n" && "\n"[1..] == "";
    assert TrimRight("\n") == TrimRight("") && TrimLeft("\n") == TrimLeft("");
  }

  /** What three blocks come to. */
  function Joined3(a: string, b: string, c: string): string {
    TrimRight(a) + (if TrimRight(b) == "" then "" else "\n\n" + TrimRight(TrimLeft(b))) + ("\n\n" + TrimLeft(c))
  }

  lemma Regroup(x: string, y: string, z: string)
    ensures x + y + z == x + (y + z)
  {
  }

  lemma TrimBroken(x: string, y: string)
    requires TrimRight(x) == x
    ensures TrimRight(x + "\n\n" + y) == x + if TrimRight(y) == "" then "" else "\n\n" + TrimRight(y)
  {
    hide TrimRight;
    BreakTrims();
    Regroup(x, "\n\n", y);
    TrimRightAfter(x, "\n\n" + y);
    TrimRightAfter("\n\n", y);
    assert x + "" == x;
  }

  lemma JoinInner(a: string, b: string, c: string)
    requires a != "" && b != "" && c != ""
    ensures JoinProse(JoinProse(a, b), c) == Joined3(a, b, c)
  {
    hide TrimRight, TrimLeft;
    TrimsCommute(b);
    TrimRightTwice(a);
    TrimBroken(TrimRight(a), TrimLeft(b));
    Regroup(TrimRight(JoinProse(a, b)), "\n\n", TrimLeft(c));
  }

  lemma JoinOuter(a: string, b: string, c: string)
    requires a != "" && b != "" && c != ""
    ensures JoinProse(a, JoinProse(b, c)) == Joined3(a, b, c)
  {
    hide TrimRight, TrimLeft;
    BreakTrims();
    var rest := "\n\n" + TrimLeft(c);
    assert TrimRight(b) + "\n\n" + TrimLeft(c) == TrimRight(b) + rest;
    TrimLeftBefore(TrimRight(b), rest);
    TrimLeftBefore("\n\n", TrimLeft(c));
    TrimsCommute(b);
    TrimLeftTwice(c);
    var t, l := TrimRight(a), TrimLeft(TrimRight(b));
    if TrimRight(b) == "" {
      TrimLeftNone();
      assert t + "" == t && t + "\n\n" + TrimLeft(c) == t + rest;
    } else {
      assert t + "\n\n" + (l + rest) == t + ("\n\n" + l) + rest;
    }
  }

  lemma TrimLeftNone()
    ensures TrimLeft("") == ""
  {
  }

  /** However the blocks are grouped, the prose is the same. */
  lemma JoinIsAssociative(a: string, b: string, c: string)
    ensures JoinProse(JoinProse(a, b), c) == JoinProse(a, JoinProse(b, c))
    ensures JoinProse(a, "") == a && JoinProse("", a) == a
  {
    if a == "" {
      assert "" + b == b;
    } else if b == "" {
      assert a + "" == a && "" + c == c;
    } else if c == "" {
      assert JoinProse(a, b) + "" == JoinProse(a, b) && b + "" == b;
    } else {
      JoinInner(a, b, c);
      JoinOuter(a, b, c);
      TrimsCommute(b);
    }
    assert a + "" == a && "" + a == a;
  }

  // ---- records and messages ----

  datatype Part =
    | Text(text: string)
    | ToolUse(id: string, title: string, kind: string, input: string)
    | ToolResult(id: string, output: string, failed: bool)
    | OtherPart

  datatype Record = Record(role: string, at: int, content: seq<Part>)

  datatype Call = Call(id: string, title: string, kind: string, status: string, input: string, output: string)

  datatype Message = Message(role: string, text: string, at: int, calls: seq<Call>)

  datatype Outcome = Outcome(output: string, failed: bool)

  function CallOf(p: Part): Call
    requires p.ToolUse?
  {
    Call(p.id, p.title, p.kind, "completed", p.input, "")
  }

  function TextOf(ps: seq<Part>): string {
    if ps == [] then ""
    else
      var p := ps[|ps|-1];
      if p.Text? then JoinProse(TextOf(ps[..|ps|-1]), p.text) else TextOf(ps[..|ps|-1])
  }

  function CallsOf(ps: seq<Part>): seq<Call> {
    if ps == [] then []
    else
      var p := ps[|ps|-1];
      CallsOf(ps[..|ps|-1]) + (if p.ToolUse? then [CallOf(p)] else [])
  }

  /** The last result naming each call. */
  function ResultsOf(ps: seq<Part>): map<string, Outcome> {
    if ps == [] then map[]
    else
      var p := ps[|ps|-1];
      if p.ToolResult? then ResultsOf(ps[..|ps|-1])[p.id := Outcome(p.output, p.failed)] else ResultsOf(ps[..|ps|-1])
  }

  predicate Heard(r: Record) {
    r.role == "user" || r.role == "assistant"
  }

  function MessageOf(r: Record): Message {
    Message(r.role, TextOf(r.content), r.at, CallsOf(r.content))
  }

  predicate Silent(m: Message) {
    m.text == "" && m.calls == []
  }

  /** Adds a message, an assistant's to the assistant turn before it. */
  function Merge(out: seq<Message>, m: Message): seq<Message> {
    if Silent(m) then out
    else if out != [] && m.role == "assistant" && out[|out|-1].role == m.role then
      var last := out[|out|-1];
      out[..|out|-1] + [last.(text := JoinProse(last.text, m.text), calls := last.calls + m.calls)]
    else out + [m]
  }

  function Scanned(out: seq<Message>, rs: seq<Record>): seq<Message>
    decreases |rs|
  {
    if rs == [] then out
    else
      var r, before := rs[|rs|-1], Scanned(out, rs[..|rs|-1]);
      if Heard(r) then Merge(before, MessageOf(r)) else before
  }

  /** All the parts of the records that are heard, in file order. */
  function Parts(rs: seq<Record>): seq<Part> {
    if rs == [] then []
    else Parts(rs[..|rs|-1]) + (if Heard(rs[|rs|-1]) then rs[|rs|-1].content else [])
  }

  function Fated(c: Call, results: map<string, Outcome>): Call {
    if c.id !in results then c
    else c.(output := results[c.id].output, status := if results[c.id].failed then "failed" else c.status)
  }

  function FatedCalls(cs: seq<Call>, results: map<string, Outcome>): (r: seq<Call>)
    ensures |r| == |cs| && forall i :: 0 <= i < |cs| ==> r[i] == Fated(cs[i], results)
  {
    seq(|cs|, i requires 0 <= i < |cs| => Fated(cs[i], results))
  }

  function Applied(out: seq<Message>, results: map<string, Outcome>): (r: seq<Message>)
    ensures |r| == |out| && forall i :: 0 <= i < |out| ==> r[i] == out[i].(calls := FatedCalls(out[i].calls, results))
  {
    seq(|out|, i requires 0 <= i < |out| => out[i].(calls := FatedCalls(out[i].calls, results)))
  }

  function Transcript(rs: seq<Record>): seq<Message> {
    Applied(Scanned([], rs), ResultsOf(Parts(rs)))
  }

  // ---- the reader ----

  /** One record's own message, and the results it carries. */
  method ReadRecord(r: Record, results0: map<string, Outcome>, ghost before: seq<Part>)
    returns (m: Message, results: map<string, Outcome>)
    requires results0 == ResultsOf(before)
    ensures m == MessageOf(r) && results == ResultsOf(before + r.content)
  {
    hide JoinProse;
    m, results := Message(r.role, "", r.at, []), results0;
    assert before + r.content[..0] == before;
    for i := 0 to |r.content|
      invariant m == Message(r.role, TextOf(r.content[..i]), r.at, CallsOf(r.content[..i]))
      invariant results == ResultsOf(before + r.content[..i])
    {
      PartAdded(before, r.content, i);
      match r.content[i] {
        case Text(text) => m := m.(text := JoinProse(m.text, text));
        case ToolUse(id, title, kind, input) => m := m.(calls := m.calls + [Call(id, title, kind, "completed", input, "")]);
        case ToolResult(id, output, failed) => results := results[id := Outcome(output, failed)];
        case OtherPart =>
      }
    }
    assert r.content[..|r.content|] == r.content;
  }

  lemma PartAdded(before: seq<Part>, ps: seq<Part>, i: nat)
    requires i < |ps|
    ensures TextOf(ps[..i+1]) == if ps[i].Text? then JoinProse(TextOf(ps[..i]), ps[i].text) else TextOf(ps[..i])
    ensures CallsOf(ps[..i+1]) == CallsOf(ps[..i]) + (if ps[i].ToolUse? then [CallOf(ps[i])] else [])
    ensures ResultsOf(before + ps[..i+1]) ==
            if ps[i].ToolResult? then ResultsOf(before + ps[..i])[ps[i].id := Outcome(ps[i].output, ps[i].failed)]
            else ResultsOf(before + ps[..i])
  {
    hide JoinProse;
    assert ps[..i+1][..i] == ps[..i];
    assert (before + ps[..i+1])[..|before + ps[..i+1]|-1] == before + ps[..i];
  }

  method Read(rs: seq<Record>) returns (out: seq<Message>)
    ensures out == Transcript(rs)
  {
    hide JoinProse, MessageOf, ResultsOf;
    out := [];
    var results := NoResults();
    for i := 0 to |rs|
      invariant out == Scanned([], rs[..i]) && results == ResultsOf(Parts(rs[..i]))
    {
      assert rs[..i+1][..i] == rs[..i] && rs[..i+1][i] == rs[i];
      var r := rs[i];
      if r.role != "user" && r.role != "assistant" {
        assert Parts(rs[..i]) + [] == Parts(rs[..i]);
        continue;
      }
      var msg: Message;
      msg, results := ReadRecord(r, results, Parts(rs[..i]));
      if msg.text == "" && |msg.calls| == 0 {
        continue;
      }
      var n := |out|;
      if n > 0 && msg.role == "assistant" && out[n-1].role == msg.role {
        out := out[..n-1] + [out[n-1].(text := JoinProse(out[n-1].text, msg.text), calls := out[n-1].calls + msg.calls)];
        continue;
      }
      out := out + [msg];
    }
    assert rs[..|rs|] == rs;
    out := ApplyToolResults(out, results);
  }

  method NoResults() returns (results: map<string, Outcome>)
    ensures results == ResultsOf([])
  {
    results := map[];
  }

  /** Folds each result into the calls of its id, in place. */
  method ApplyToolResults(out0: seq<Message>, results: map<string, Outcome>) returns (out: seq<Message>)
    ensures out == Applied(out0, results)
  {
    out := out0;
    for i := 0 to |out0|
      invariant |out| == |out0| && out[i..] == out0[i..]
      invariant forall k :: 0 <= k < i ==> out[k] == Applied(out0, results)[k]
    {
      assert out[i] == out[i..][0] == out0[i..][0];
      var calls := out[i].calls;
      for j := 0 to |calls|
        invariant |calls| == |out0[i].calls|
        invariant forall k :: 0 <= k < |calls| ==> calls[k] == if k < j then Fated(out0[i].calls[k], results) else out0[i].calls[k]
      {
        if calls[j].id in results {
          var res := results[calls[j].id];
          calls := calls[j := calls[j].(output := res.output)];
          if res.failed {
            calls := calls[j := calls[j].(status := "failed")];
          }
        }
      }
      assert calls == FatedCalls(out0[i].calls, results);
      out := out[i := out[i].(calls := calls)];
    }
  }

  // ---- what the transcript is ----

  lemma {:induction false} TextOfBoth(a: seq<Part>, b: seq<Part>)
    ensures TextOf(a + b) == JoinProse(TextOf(a), TextOf(b))
    ensures CallsOf(a + b) == CallsOf(a) + CallsOf(b)
    decreases |b|
  {
    hide JoinProse;
    JoinIsAssociative(TextOf(a), "", "");
    if b == [] {
      assert a + b == a;
    } else {
      var init, p := b[..|b|-1], b[|b|-1];
      TextOfBoth(a, init);
      assert (a + b)[..|a + b|-1] == a + init;
      if p.Text? {
        JoinIsAssociative(TextOf(a), TextOf(init), p.text);
      }
    }
  }

  /** A turn split over two records reads as the turn in one, of the time of the first part that
      says anything. */
  lemma SplitMerges(out: seq<Message>, a: Record, b: Record)
    requires a.role == b.role == "assistant"
    ensures Merge(Merge(out, MessageOf(a)), MessageOf(b)) ==
            Merge(out, MessageOf(Record("assistant", if Silent(MessageOf(a)) then b.at else a.at, a.content + b.content)))
  {
    hide TextOf, CallsOf, JoinProse;
    TextOfBoth(a.content, b.content);
    var x, y := MessageOf(a), MessageOf(b);
    JoinIsAssociative(x.text, "", "");
    JoinIsAssociative(y.text, "", "");
    JoinNotEmpty(x.text, y.text);
    assert |x.calls + y.calls| == |x.calls| + |y.calls| && [] + y.calls == y.calls && x.calls + [] == x.calls;
    if !Silent(x) && !Silent(y) && out != [] && out[|out|-1].role == "assistant" {
      var last := out[|out|-1];
      JoinIsAssociative(last.text, x.text, y.text);
      var merged := Merge(out, x);
      assert merged[..|merged|-1] == out[..|out|-1];
      assert last.calls + x.calls + y.calls == last.calls + (x.calls + y.calls);
    } else if !Silent(x) && !Silent(y) {
      assert (out + [x])[..|out + [x]|-1] == out;
    }
  }

  lemma JoinNotEmpty(a: string, b: string)
    ensures JoinProse(a, b) == "" <==> a == "" && b == ""
  {
  }

  lemma {:induction false} ScanFrom(out: seq<Message>, a: seq<Record>, b: seq<Record>)
    ensures Scanned(out, a + b) == Scanned(Scanned(out, a), b)
    ensures Parts(a + b) == Parts(a) + Parts(b)
    decreases |b|
  {
    hide Merge, MessageOf;
    if b == [] {
      assert a + b == a;
    } else {
      ScanFrom(out, a, b[..|b|-1]);
      assert (a + b)[..|a + b|-1] == a + b[..|b|-1];
    }
  }

  /** The whole transcript does not depend on how an assistant turn is split over records, each
      with a time of its own: it is that of the turn in one record, of the time of the first
      part that says anything. */
  lemma SplitsDoNotShow(before: seq<Record>, after: seq<Record>, at: int, a: seq<Part>, later: int, b: seq<Part>)
    ensures var first := Record("assistant", at, a);
      Transcript(before + [first, Record("assistant", later, b)] + after)
      == Transcript(before + [Record("assistant", if Silent(MessageOf(first)) then later else at, a + b)] + after)
  {
    hide Merge, MessageOf, TextOf, CallsOf, ResultsOf, Silent;
    var two := [Record("assistant", at, a), Record("assistant", later, b)];
    var one := [Record("assistant", if Silent(MessageOf(two[0])) then later else at, a + b)];
    ScanFrom([], before, two);
    ScanFrom([], before, one);
    ScanFrom([], before + two, after);
    ScanFrom([], before + one, after);
    SplitMerges(Scanned([], before), two[0], two[1]);
    PartsOfTwo(two);
    assert two[..1] == [two[0]] && [two[0]][..0] == [] && one[..0] == [];
  }

  function Untimed(out: seq<Message>): (r: seq<Message>)
    ensures |r| == |out| && forall i :: 0 <= i < |out| ==> r[i] == out[i].(at := 0)
  {
    seq(|out|, i requires 0 <= i < |out| => out[i].(at := 0))
  }

  ghost predicate SameButTimes(a: seq<Record>, b: seq<Record>) {
    |a| == |b| && forall i :: 0 <= i < |a| ==> a[i].role == b[i].role && a[i].content == b[i].content
  }

  lemma MergeUntimed(a: seq<Message>, b: seq<Message>, m: Message, n: Message)
    requires Untimed(a) == Untimed(b) && m.(at := 0) == n.(at := 0)
    ensures Untimed(Merge(a, m)) == Untimed(Merge(b, n))
  {
    hide JoinProse;
    assert |a| == |b| && forall i :: 0 <= i < |a| ==> Untimed(a)[i] == Untimed(b)[i];
  }

  lemma {:induction false} ScanUntimed(a: seq<Record>, b: seq<Record>)
    requires SameButTimes(a, b)
    ensures Untimed(Scanned([], a)) == Untimed(Scanned([], b)) && Parts(a) == Parts(b)
    decreases |a|
  {
    hide Merge, TextOf, CallsOf, Untimed;
    if a != [] {
      var x, y := a[..|a|-1], b[..|b|-1];
      ScanUntimed(x, y);
      MergeUntimed(Scanned([], x), Scanned([], y), MessageOf(a[|a|-1]), MessageOf(b[|b|-1]));
    }
  }

  /** Files whose records differ in their times alone read as transcripts that do. */
  lemma TimesShowAsTimes(a: seq<Record>, b: seq<Record>)
    requires SameButTimes(a, b)
    ensures Untimed(Transcript(a)) == Untimed(Transcript(b))
  {
    hide Merge, MessageOf, TextOf, CallsOf, ResultsOf, Scanned, Parts;
    ScanUntimed(a, b);
    var x, y, results := Scanned([], a), Scanned([], b), ResultsOf(Parts(a));
    forall i | 0 <= i < |x| ensures Untimed(Applied(x, results))[i] == Untimed(Applied(y, results))[i] {
      assert Untimed(x)[i] == Untimed(y)[i];
    }
  }

  lemma PartsOfTwo(two: seq<Record>)
    requires |two| == 2 && Heard(two[0]) && Heard(two[1])
    ensures Parts(two) == two[0].content + two[1].content
  {
    assert two[..1][..0] == [] && Parts(two[..1]) == [] + two[0].content;
  }

  /** A stretch of assistant records, with whatever silent ones stand between, is one message:
      all its prose joined, and all its calls in order. */
  lemma {:induction false} TurnIsOneMessage(out: seq<Message>, rs: seq<Record>)
    requires out == [] || out[|out|-1].role != "assistant"
    requires forall r :: r in rs ==> Heard(r) && (r.role == "assistant" || Silent(MessageOf(r)))
    ensures OneTurn(out, Scanned(out, rs), TextOf(Parts(rs)), CallsOf(Parts(rs)))
    decreases |rs|
  {
    hide TextOf, CallsOf, JoinProse, OneTurn, Merge;
    if rs != [] {
      var init, r := rs[..|rs|-1], rs[|rs|-1];
      assert r in rs;
      TurnIsOneMessage(out, init);
      TextOfBoth(Parts(init), r.content);
      TurnGrows(out, Scanned(out, init), TextOf(Parts(init)), CallsOf(Parts(init)), MessageOf(r));
    } else {
      TurnNone(out);
    }
  }

  /** `now` is `out` with at most one assistant message more, of that text and those calls. */
  ghost predicate OneTurn(out: seq<Message>, now: seq<Message>, text: string, calls: seq<Call>) {
    if text == "" && calls == [] then now == out
    else
      && |now| == |out| + 1 && now[..|out|] == out
      && now[|out|].role == "assistant" && now[|out|].text == text && now[|out|].calls == calls
  }

  lemma TurnNone(out: seq<Message>)
    ensures OneTurn(out, out, TextOf([]), CallsOf([]))
  {
  }

  lemma TurnGrows(out: seq<Message>, now: seq<Message>, text: string, calls: seq<Call>, m: Message)
    requires (out == [] || out[|out|-1].role != "assistant") && OneTurn(out, now, text, calls)
    requires m.role == "assistant" || Silent(m)
    ensures OneTurn(out, Merge(now, m), JoinProse(text, m.text), calls + m.calls)
  {
    hide JoinProse;
    JoinIsAssociative(text, "", "");
    JoinIsAssociative(m.text, "", "");
    JoinNotEmpty(text, m.text);
    if Silent(m) {
      assert calls + [] == calls;
    } else if text == "" && calls == [] {
      assert [] + m.calls == m.calls;
    } else {
      assert now[..|now|-1] == out;
    }
  }

  ghost predicate NoTwinTurns(out: seq<Message>) {
    forall i :: 0 < i < |out| ==> !(out[i-1].role == "assistant" == out[i].role)
  }

  function AllCalls(out: seq<Message>): seq<Call> {
    if out == [] then [] else AllCalls(out[..|out|-1]) + out[|out|-1].calls
  }

  lemma {:induction false} ScanKeeps(rs: seq<Record>)
    ensures NoTwinTurns(Scanned([], rs)) && AllCalls(Scanned([], rs)) == CallsOf(Parts(rs))
    decreases |rs|
  {
    if rs != [] {
      hide TextOf, CallsOf, JoinProse;
      var init, r := rs[..|rs|-1], rs[|rs|-1];
      ScanKeeps(init);
      if Heard(r) {
        TextOfBoth(Parts(init), r.content);
        MergeKeeps(Scanned([], init), MessageOf(r));
      } else {
        assert Parts(init) + [] == Parts(init);
      }
    } else {
      NoCalls();
    }
  }

  lemma NoCalls()
    ensures CallsOf([]) == []
  {
  }

  lemma MergeKeeps(out: seq<Message>, m: Message)
    requires NoTwinTurns(out)
    ensures NoTwinTurns(Merge(out, m)) && AllCalls(Merge(out, m)) == AllCalls(out) + m.calls
  {
    hide JoinProse;
    var now := Merge(out, m);
    if Silent(m) {
      assert AllCalls(out) + [] == AllCalls(out);
    } else if out != [] && m.role == "assistant" && out[|out|-1].role == m.role {
      assert now[..|now|-1] == out[..|out|-1];
    } else {
      assert now[..|now|-1] == out;
    }
  }

  lemma {:induction false} LastResultWins(ps: seq<Part>, id: string)
    ensures id in ResultsOf(ps) <==> exists i :: 0 <= i < |ps| && ps[i].ToolResult? && ps[i].id == id
    ensures forall i :: 0 <= i < |ps| && ps[i].ToolResult? && ps[i].id == id
                        && (forall j :: i < j < |ps| ==> !(ps[j].ToolResult? && ps[j].id == id)) ==>
              ResultsOf(ps)[id] == Outcome(ps[i].output, ps[i].failed)
    decreases |ps|
  {
    if ps != [] {
      var init, p := ps[..|ps|-1], ps[|ps|-1];
      LastResultWins(init, id);
      assert forall i :: 0 <= i < |init| ==> init[i] == ps[i];
    }
  }

  /** No two assistant messages stand side by side; the calls are those of the file, in its
      order; and each carries the last result in the file that names it, or none. */
  lemma TranscriptIsFaithful(rs: seq<Record>)
    ensures NoTwinTurns(Transcript(rs))
    ensures AllCalls(Transcript(rs)) == FatedCalls(CallsOf(Parts(rs)), ResultsOf(Parts(rs)))
  {
    ScanKeeps(rs);
    AppliedCalls(Scanned([], rs), ResultsOf(Parts(rs)));
    hide Scanned, CallsOf, Parts;
  }

  lemma {:induction false} AppliedCalls(out: seq<Message>, results: map<string, Outcome>)
    ensures AllCalls(Applied(out, results)) == FatedCalls(AllCalls(out), results)
    decreases |out|
  {
    if out != [] {
      var init := out[..|out|-1];
      AppliedCalls(init, results);
      assert Applied(out, results)[..|out|-1] == Applied(init, results);
    }
  }
}
