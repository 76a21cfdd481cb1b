/** What is written and what is forgotten, told by what the operations say. */
module ApplyFacts {
  import opened Basics
  import opened Apply

  /** The operation says it is to `verb`, however cased or spaced. */
  predicate Says(o: Op, verb: string) {
    SameLetters(TrimSpace(o.kind), verb)
  }

  lemma WordIs(s: string, verb: string)
    requires Lower(verb) == verb
    ensures Word(s) == verb <==> SameLetters(TrimSpace(s), verb)
  {
    LowerSame(TrimSpace(s), verb);
  }

  lemma VerbsAreLower()
    ensures Lower("add") == "add" && Lower("update") == "update" && Lower("forget") == "forget"
  {
  }

  /** The operation has something to write, for somebody, and it is no secret. */
  predicate Writable(c: Config, o: Op) {
    TrimSpace(o.fact) != "" && TrimSpace(o.subject) != "" && !c.secret(TrimSpace(o.fact))
  }

  /** What is written of it: its fact and subject, for the syncer, at the day it names or else the batch's. */
  predicate WrittenAs(c: Config, o: Op, e: Entry) {
    && e.content == TrimSpace(o.fact) && e.role == c.tag && |e.tags| == 2 && e.tags[1] == c.tag
    && e.tags[0] == Lower(TrimSpace(o.subject))
    && e.occurred == (match c.dayOf(TrimSpace(o.day)) case Some(day) => day case None => c.at)
    && e.category == Category(o.category) && e.importance == Importance(o.importance)
  }

  predicate Names(shown: seq<string>, o: Op, h: string) {
    1 <= o.memory <= |shown| && shown[o.memory-1] == h
  }

  /** It is an addition, or the correction of a memory that was shown. */
  predicate Writes(shown: seq<string>, o: Op) {
    Says(o, "add") || (Says(o, "update") && 1 <= o.memory <= |shown|)
  }

  lemma EntrySpelled(c: Config, o: Op, e: Entry)
    ensures EntryOf(c, o) == Some(e) <==> Writable(c, o) && WrittenAs(c, o, e)
    ensures EntryOf(c, o) == None <==> !Writable(c, o)
  {
    hide Category, Importance, TrimSpace;
    LowerLength(TrimSpace(o.subject));
    if Writable(c, o) && WrittenAs(c, o, e) {
      assert e.tags == [Lower(TrimSpace(o.subject)), c.tag];
    }
  }

  /** Of one operation: what it writes, what it forgets, and how it is counted. */
  lemma OutcomeSpelled(c: Config, shown: seq<string>, w: World, n: nat, o: Op)
    ensures var (v, events) := Outcome(c, shown, w, n, o);
      && (forall e :: Wrote(n, e) in events <==> Writes(shown, o) && Writable(c, o) && WrittenAs(c, o, e) && w.writes(n))
      && (forall h, how :: Forgot(n, h, how) in events <==>
            Names(shown, o, h) && how == w.forgets(n) && (Says(o, "forget") || (Says(o, "update") && Writable(c, o) && w.writes(n))))
      && (v == Added <==> Says(o, "add") && Writable(c, o) && w.writes(n))
      && (v == Updated <==> Says(o, "update") && 1 <= o.memory <= |shown| && Writable(c, o) && w.writes(n))
      && (v == Forgotten <==> Says(o, "forget") && 1 <= o.memory <= |shown| && w.forgets(n).reported)
      && (forall x :: x in events ==> x.n == n)
  {
    hide EntryOf, TrimSpace, Lower, SameLetters;
    VerbsAreLower();
    WordIs(o.kind, "add");
    WordIs(o.kind, "update");
    WordIs(o.kind, "forget");
    forall e ensures EntryOf(c, o) == Some(e) <==> Writable(c, o) && WrittenAs(c, o, e) {
      EntrySpelled(c, o, e);
    }
    assert EntryOf(c, o).Some? ==> EntryOf(c, o) == Some(EntryOf(c, o).value);
    EntryNone(c, o);
  }

  lemma EntryNone(c: Config, o: Op)
    ensures EntryOf(c, o) == None <==> !Writable(c, o)
  {
    hide TrimSpace, Category, Importance;
    LowerLength(TrimSpace(o.subject));
  }

  /** Over all the operations: what is written and forgotten is what each of them says, and no other. */
  lemma {:induction false} TraceSpelled(c: Config, shown: seq<string>, w: World, ops: seq<Op>, n: nat)
    ensures forall e :: Wrote(n, e) in Trace(c, shown, w, ops) <==>
              n < |ops| && Writes(shown, ops[n]) && Writable(c, ops[n]) && WrittenAs(c, ops[n], e) && w.writes(n)
    ensures forall h, how :: Forgot(n, h, how) in Trace(c, shown, w, ops) <==>
              n < |ops| && Names(shown, ops[n], h) && how == w.forgets(n)
              && (Says(ops[n], "forget") || (Says(ops[n], "update") && Writable(c, ops[n]) && w.writes(n)))
    decreases |ops|
  {
    hide Outcome, Writes, Writable, WrittenAs, Names, Says;
    if ops != [] {
      var init, last := ops[..|ops|-1], |ops| - 1;
      TraceSpelled(c, shown, w, init, n);
      OutcomeSpelled(c, shown, w, last, ops[last]);
      assert n < last ==> init[n] == ops[n];
    }
  }

  /** The verdicts a count is of, by what the operations say. */
  predicate Earns(c: Config, shown: seq<string>, w: World, o: Op, n: nat, v: Verdict)
    decreases v.Refused?
  {
    match v
    case Added => Says(o, "add") && Writable(c, o) && w.writes(n)
    case Updated => Says(o, "update") && 1 <= o.memory <= |shown| && Writable(c, o) && w.writes(n)
    case Forgotten => Says(o, "forget") && 1 <= o.memory <= |shown| && w.forgets(n).reported
    case Refused => !Earns(c, shown, w, o, n, Added) && !Earns(c, shown, w, o, n, Updated) && !Earns(c, shown, w, o, n, Forgotten)
  }

  ghost function Earning(c: Config, shown: seq<string>, w: World, ops: seq<Op>, v: Verdict): set<nat> {
    set n: nat | n < |ops| && Earns(c, shown, w, ops[n], n, v)
  }

  lemma EarningStep(c: Config, shown: seq<string>, w: World, ops: seq<Op>, v: Verdict)
    requires ops != []
    ensures var last := |ops| - 1;
      |Earning(c, shown, w, ops, v)| == |Earning(c, shown, w, ops[..last], v)| + if Earns(c, shown, w, ops[last], last, v) then 1 else 0
  {
    hide Earns;
    var last: nat := |ops| - 1;
    var before, after := Earning(c, shown, w, ops[..last], v), Earning(c, shown, w, ops, v);
    forall n: nat ensures n in after <==> n in before || (n == last && Earns(c, shown, w, ops[last], last, v)) {
      assert n < last ==> ops[..last][n] == ops[n];
    }
    OneMore(before, after, last, Earns(c, shown, w, ops[last], last, v));
  }

  lemma OneMore(before: set<nat>, after: set<nat>, last: nat, more: bool)
    requires last !in before && forall n: nat :: n in after <==> n in before || (n == last && more)
    ensures |after| == |before| + if more then 1 else 0
  {
    assert after == before + if more then {last} else {};
  }

  lemma VerdictSpelled(c: Config, shown: seq<string>, w: World, n: nat, o: Op, v: Verdict)
    ensures Outcome(c, shown, w, n, o).0 == v <==> Earns(c, shown, w, o, n, v)
  {
    hide Outcome, Writable, Says;
    OutcomeSpelled(c, shown, w, n, o);
    SaysOnce(o);
  }

  lemma SaysOnce(o: Op)
    ensures !(Says(o, "add") && Says(o, "update")) && !(Says(o, "add") && Says(o, "forget")) && !(Says(o, "update") && Says(o, "forget"))
  {
    hide TrimSpace, Lower;
    VerbsAreLower();
    WordIs(o.kind, "add");
    WordIs(o.kind, "update");
    WordIs(o.kind, "forget");
  }

  /** The additions, the corrections, the removals and the refusals counted are those there were. */
  lemma {:induction false} CountsSpelled(c: Config, shown: seq<string>, w: World, ops: seq<Op>)
    ensures var k := CountsAfter(Counts(0, 0, 0, 0), c, shown, w, ops);
      && k.added == |Earning(c, shown, w, ops, Added)| && k.updated == |Earning(c, shown, w, ops, Updated)|
      && k.forgotten == |Earning(c, shown, w, ops, Forgotten)| && k.refused == |Earning(c, shown, w, ops, Refused)|
    decreases |ops|
  {
    if ops == [] {
      assert forall v :: Earning(c, shown, w, ops, v) == {};
    } else {
      hide Outcome, Earns, Earning;
      var last := |ops| - 1;
      CountsSpelled(c, shown, w, ops[..last]);
      forall v ensures |Earning(c, shown, w, ops, v)| == |Earning(c, shown, w, ops[..last], v)|
                       + if Outcome(c, shown, w, last, ops[last]).0 == v then 1 else 0 {
        EarningStep(c, shown, w, ops, v);
        VerdictSpelled(c, shown, w, last, ops[last], v);
      }
    }
  }

  /** What was written last under a handle, and not forgotten since, is there. */
  lemma {:induction false} WrittenStays(facts: map<string, Entry>, named: nat -> string, trace: seq<Event>, i: nat)
    requires i < |trace| && trace[i].Wrote?
    requires forall j :: i < j < |trace| ==>
               (trace[j].Wrote? ==> named(trace[j].n) != named(trace[i].n)) && (trace[j].Forgot? ==> trace[j].handle != named(trace[i].n) || !trace[j].how.gone)
    ensures var h := named(trace[i].n); h in Facts(facts, named, trace) && Facts(facts, named, trace)[h] == trace[i].entry
    decreases |trace|
  {
    if i < |trace| - 1 {
      var init := trace[..|trace|-1];
      assert init[i] == trace[i] && forall j :: 0 <= j < |init| ==> init[j] == trace[j];
      WrittenStays(facts, named, init, i);
    }
  }

  /** And what was forgotten, and not written again, is not. */
  lemma {:induction false} ForgottenGoes(facts: map<string, Entry>, named: nat -> string, trace: seq<Event>, i: nat)
    requires i < |trace| && trace[i].Forgot? && trace[i].how.gone
    requires forall j :: i < j < |trace| && trace[j].Wrote? ==> named(trace[j].n) != trace[i].handle
    ensures trace[i].handle !in Facts(facts, named, trace)
    decreases |trace|
  {
    if i < |trace| - 1 {
      var init := trace[..|trace|-1];
      assert init[i] == trace[i] && forall j :: 0 <= j < |init| ==> init[j] == trace[j];
      ForgottenGoes(facts, named, init, i);
    }
  }

  /** The text is one of these words, however cased or spaced. */
  predicate OneOf(text: string, words: seq<string>) {
    exists i :: 0 <= i < |words| && SameLetters(TrimSpace(text), words[i])
  }

  lemma WordOneOf(text: string, words: seq<string>)
    requires forall i :: 0 <= i < |words| ==> Lower(words[i]) == words[i]
    ensures Word(text) in words <==> OneOf(text, words)
  {
    hide TrimSpace, Lower, SameLetters;
    forall i | 0 <= i < |words| ensures Word(text) == words[i] <==> SameLetters(TrimSpace(text), words[i]) {
      WordIs(text, words[i]);
    }
  }

  /** The class a memory is filed under, by the word given for it; any other word is context. */
  lemma CategorySpelled(c: string)
    ensures OneOf(c, ["relationship", "person", "people", "contact"]) ==> Category(c) == "relationship"
    ensures OneOf(c, ["project", "projects", "work"]) ==> Category(c) == "project"
    ensures OneOf(c, ["decision", "decisions"]) ==> Category(c) == "decision"
    ensures OneOf(c, ["preference", "preferences"]) ==> Category(c) == "preference"
    ensures OneOf(c, ["reference"]) ==> Category(c) == "reference"
    ensures OneOf(c, ["task", "tasks", "commitment", "deadline"]) ==> Category(c) == "task"
    ensures Category(c) != "context" ==> OneOf(c, CLASS_WORDS)
  {
    hide TrimSpace, Lower, SameLetters, Word, OneOf, Category;
    if OneOf(c, ["relationship", "person", "people", "contact"]) {
      RelationshipSpelled(c);
    }
    if OneOf(c, ["project", "projects", "work"]) {
      ProjectSpelled(c);
    }
    if OneOf(c, ["decision", "decisions"]) {
      DecisionSpelled(c);
    }
    if OneOf(c, ["preference", "preferences"]) {
      PreferenceSpelled(c);
    }
    if OneOf(c, ["reference"]) {
      ReferenceSpelled(c);
    }
    if OneOf(c, ["task", "tasks", "commitment", "deadline"]) {
      TaskSpelled(c);
    }
    OtherwiseContext(c);
  }

  const CLASS_WORDS := ["relationship", "person", "people", "contact", "project", "projects", "work", "decision", "decisions",
                        "preference", "preferences", "reference", "task", "tasks", "commitment", "deadline"]

  lemma OtherwiseContext(c: string)
    ensures Category(c) != "context" ==> OneOf(c, CLASS_WORDS)
  {
    hide TrimSpace, Lower, SameLetters, Word, OneOf;
    WordsAreLower();
    WordOneOf(c, CLASS_WORDS);
    var w := Word(c);
    assert w !in CLASS_WORDS ==> Category(c) == "context" by {
      if w !in CLASS_WORDS {
        assert forall i :: 0 <= i < |CLASS_WORDS| ==> CLASS_WORDS[i] != w;
      }
    }
  }

  lemma RelationshipSpelled(c: string)
    requires OneOf(c, ["relationship", "person", "people", "contact"])
    ensures Category(c) == "relationship"
  {
    hide TrimSpace, Lower, SameLetters, Word, OneOf;
    WordsAreLower();
    WordOneOf(c, ["relationship", "person", "people", "contact"]);
    var w := Word(c);
    var i :| 0 <= i < 4 && w == ["relationship", "person", "people", "contact"][i];
  }

  lemma ProjectSpelled(c: string)
    requires OneOf(c, ["project", "projects", "work"])
    ensures Category(c) == "project"
  {
    hide TrimSpace, Lower, SameLetters, Word, OneOf;
    WordsAreLower();
    WordOneOf(c, ["project", "projects", "work"]);
    var w := Word(c);
    var i :| 0 <= i < 3 && w == ["project", "projects", "work"][i];
  }

  lemma DecisionSpelled(c: string)
    requires OneOf(c, ["decision", "decisions"])
    ensures Category(c) == "decision"
  {
    hide TrimSpace, Lower, SameLetters, Word, OneOf;
    WordsAreLower();
    WordOneOf(c, ["decision", "decisions"]);
    var w := Word(c);
    var i :| 0 <= i < 2 && w == ["decision", "decisions"][i];
  }

  lemma PreferenceSpelled(c: string)
    requires OneOf(c, ["preference", "preferences"])
    ensures Category(c) == "preference"
  {
    hide TrimSpace, Lower, SameLetters, Word, OneOf;
    WordsAreLower();
    WordOneOf(c, ["preference", "preferences"]);
    var w := Word(c);
    var i :| 0 <= i < 2 && w == ["preference", "preferences"][i];
  }

  lemma ReferenceSpelled(c: string)
    requires OneOf(c, ["reference"])
    ensures Category(c) == "reference"
  {
    hide TrimSpace, Lower, SameLetters, Word, OneOf;
    WordsAreLower();
    WordOneOf(c, ["reference"]);
    var w := Word(c);
    var i :| 0 <= i < 1 && w == ["reference"][i];
  }

  lemma TaskSpelled(c: string)
    requires OneOf(c, ["task", "tasks", "commitment", "deadline"])
    ensures Category(c) == "task"
  {
    hide TrimSpace, Lower, SameLetters, Word, OneOf;
    WordsAreLower();
    WordOneOf(c, ["task", "tasks", "commitment", "deadline"]);
    var w := Word(c);
    var i :| 0 <= i < 4 && w == ["task", "tasks", "commitment", "deadline"][i];
  }

  lemma WordsAreLower()
    ensures Lower("relationship") == "relationship" && Lower("person") == "person" && Lower("people") == "people"
            && Lower("contact") == "contact" && Lower("project") == "project" && Lower("projects") == "projects"
            && Lower("work") == "work" && Lower("decision") == "decision" && Lower("decisions") == "decisions"
            && Lower("preference") == "preference" && Lower("preferences") == "preferences" && Lower("reference") == "reference"
            && Lower("task") == "task" && Lower("tasks") == "tasks" && Lower("commitment") == "commitment"
            && Lower("deadline") == "deadline" && Lower("high") == "high" && Lower("critical") == "critical"
            && Lower("low") == "low"
  {
  }

  /** What a memory weighs: critical the most, low the least, and any other word between. */
  lemma ImportanceSpelled(s: string)
    ensures Importance(s) == 4 <==> OneOf(s, ["critical"])
    ensures Importance(s) == 3 <==> OneOf(s, ["high"])
    ensures Importance(s) == 1 <==> OneOf(s, ["low"])
    ensures 1 <= Importance(s) <= 4
  {
    hide TrimSpace, Lower, SameLetters, Word, OneOf;
    WordsAreLower();
    WordOneOf(s, ["critical"]);
    WordOneOf(s, ["high"]);
    WordOneOf(s, ["low"]);
  }
}
