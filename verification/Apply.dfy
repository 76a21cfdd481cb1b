/** Carrying out what the model proposed, against the memories it was shown. */
module Apply {
  import opened Basics

  datatype Option<T> = None | Some(value: T)

  datatype Op = Op(kind: string, memory: int, fact: string, subject: string, day: string, category: string, importance: string)

  datatype Entry = Entry(role: string, content: string, tags: seq<string>, category: string, importance: int, occurred: int)

  /** What is fixed for one call: the syncer's tag, what counts as a secret, how a day is read,
      and the time of the batch. */
  datatype Config = Config(tag: string, secret: string -> bool, dayOf: string -> Option<int>, at: int)

  /** How a forget ends: whether it reports the fact removed, and whether the fact is gone. */
  datatype Forgetting = Forgetting(reported: bool, gone: bool)

  /** What the memory does with each operation's write and forget. */
  datatype World = World(writes: nat -> bool, forgets: nat -> Forgetting)

  datatype Event =
    | Wrote(n: nat, entry: Entry)
    | WriteFailed(n: nat)
    | Forgot(n: nat, handle: string, how: Forgetting)

  datatype Verdict = Added | Updated | Forgotten | Refused

  datatype Counts = Counts(added: nat, updated: nat, forgotten: nat, refused: nat)

  function Word(s: string): string {
    Lower(TrimSpace(s))
  }

  function Category(c: string): string {
    var w := Word(c);
    if w in ["relationship", "person", "people", "contact"] then "relationship"
    else if w in ["project", "projects", "work"] then "project"
    else if w in ["decision", "decisions"] then "decision"
    else if w in ["preference", "preferences"] then "preference"
    else if w == "reference" then "reference"
    else if w in ["task", "tasks", "commitment", "deadline"] then "task"
    else "context"
  }

  function Importance(s: string): int {
    var w := Word(s);
    if w == "high" then 3 else if w == "critical" then 4 else if w == "low" then 1 else 2
  }

  /** The memory an operation writes, if it may be written at all. */
  function EntryOf(c: Config, o: Op): Option<Entry> {
    var fact, subject := TrimSpace(o.fact), Word(o.subject);
    if fact == "" || subject == "" || c.secret(fact) then None
    else
      var day := c.dayOf(TrimSpace(o.day));
      Some(Entry(c.tag, fact, [subject, c.tag], Category(o.category), Importance(o.importance),
                 if day.Some? then day.value else c.at))
  }

  /** The memory an operation names, by its place among those shown, from one. */
  function HandleOf(shown: seq<string>, n: int): Option<string> {
    if 1 <= n <= |shown| then Some(shown[n-1]) else None
  }

  /** One operation's verdict and what it did, in order. */
  function Outcome(c: Config, shown: seq<string>, w: World, n: nat, o: Op): (Verdict, seq<Event>) {
    var kind, entry, handle := Word(o.kind), EntryOf(c, o), HandleOf(shown, o.memory);
    if kind == "add" then
      if entry.None? then (Refused, [])
      else if !w.writes(n) then (Refused, [WriteFailed(n)])
      else (Added, [Wrote(n, entry.value)])
    else if kind == "update" then
      if handle.None? || entry.None? then (Refused, [])
      else if !w.writes(n) then (Refused, [WriteFailed(n)])
      else (Updated, [Wrote(n, entry.value), Forgot(n, handle.value, w.forgets(n))])
    else if kind == "forget" then
      if handle.None? then (Refused, [])
      else (if w.forgets(n).reported then Forgotten else Refused, [Forgot(n, handle.value, w.forgets(n))])
    else (Refused, [])
  }

  function Counted(k: Counts, v: Verdict): Counts {
    match v
    case Added => k.(added := k.added + 1)
    case Updated => k.(updated := k.updated + 1)
    case Forgotten => k.(forgotten := k.forgotten + 1)
    case Refused => k.(refused := k.refused + 1)
  }

  function CountsAfter(k: Counts, c: Config, shown: seq<string>, w: World, ops: seq<Op>): Counts {
    if ops == [] then k
    else Counted(CountsAfter(k, c, shown, w, ops[..|ops|-1]), Outcome(c, shown, w, |ops| - 1, ops[|ops|-1]).0)
  }

  function Trace(c: Config, shown: seq<string>, w: World, ops: seq<Op>): seq<Event> {
    if ops == [] then [] else Trace(c, shown, w, ops[..|ops|-1]) + Outcome(c, shown, w, |ops| - 1, ops[|ops|-1]).1
  }

  /** The facts a store holds, by handle; each write files its own under a new one. */
  function Facts(facts: map<string, Entry>, named: nat -> string, trace: seq<Event>): map<string, Entry> {
    if trace == [] then facts
    else
      var before := Facts(facts, named, trace[..|trace|-1]);
      match trace[|trace|-1]
      case Wrote(n, entry) => before[named(n) := entry]
      case WriteFailed(_) => before
      case Forgot(_, h, how) => if how.gone then before - {h} else before
  }

  class Tally {
    var counts: Counts

    constructor ()
      ensures counts == Counts(0, 0, 0, 0)
    {
      counts := Counts(0, 0, 0, 0);
    }
  }

  class Memory {
    var facts: map<string, Entry>
    const named: nat -> string
    ghost var trace: seq<Event>

    constructor (facts: map<string, Entry>, named: nat -> string)
      ensures this.facts == facts && this.named == named && trace == []
    {
      this.facts, this.named, trace := facts, named, [];
    }

    method Write(n: nat, e: Entry, ok: bool) returns (done: bool)
      modifies this
      ensures done == ok && trace == old(trace) + [if ok then Wrote(n, e) else WriteFailed(n)]
      ensures facts == if ok then old(facts)[named(n) := e] else old(facts)
    {
      trace := trace + [if ok then Wrote(n, e) else WriteFailed(n)];
      if ok {
        facts := facts[named(n) := e];
      }
      return ok;
    }

    method ForgetFact(n: nat, h: string, how: Forgetting) returns (removed: bool)
      modifies this
      ensures removed == how.reported && trace == old(trace) + [Forgot(n, h, how)]
      ensures facts == if how.gone then old(facts) - {h} else old(facts)
    {
      trace := trace + [Forgot(n, h, how)];
      if how.gone {
        facts := facts - {h};
      }
      return how.reported;
    }

    /** One operation, in the order the code has it: the correction first, then the forget. */
    method ApplyOne(c: Config, n: nat, o: Op, shown: seq<string>, w: World) returns (v: Verdict)
      modifies this
      ensures v == Outcome(c, shown, w, n, o).0 && trace == old(trace) + Outcome(c, shown, w, n, o).1
      ensures facts == Facts(old(facts), named, Outcome(c, shown, w, n, o).1)
    {
      hide EntryOf, Word;
      var kind := Word(o.kind);
      ShortTraces(facts, named, n, EntryOf(c, o), HandleOf(shown, o.memory), w.forgets(n));
      assert trace + [] == trace;
      if kind == "add" {
        var e := EntryOf(c, o);
        if e.None? {
          return Refused;
        }
        var ok := Write(n, e.value, w.writes(n));
        return if ok then Added else Refused;
      } else if kind == "update" {
        var h, e := HandleOf(shown, o.memory), EntryOf(c, o);
        if h.None? || e.None? {
          return Refused;
        }
        var ok := Write(n, e.value, w.writes(n));
        if !ok {
          return Refused;
        }
        var removed := ForgetFact(n, h.value, w.forgets(n));
        assert old(trace) + [Wrote(n, e.value)] + [Forgot(n, h.value, w.forgets(n))]
            == old(trace) + [Wrote(n, e.value), Forgot(n, h.value, w.forgets(n))];
        return Updated;
      } else if kind == "forget" {
        var h := HandleOf(shown, o.memory);
        if h.None? {
          return Refused;
        }
        var removed := ForgetFact(n, h.value, w.forgets(n));
        return if removed then Forgotten else Refused;
      }
      return Refused;
    }

    method Apply(c: Config, ops: seq<Op>, shown: seq<string>, w: World, res: Tally)
      modifies this, res
      ensures res.counts == CountsAfter(old(res.counts), c, shown, w, ops)
      ensures trace == old(trace) + Trace(c, shown, w, ops)
      ensures facts == Facts(old(facts), named, Trace(c, shown, w, ops))
    {
      hide Outcome;
      assert trace + [] == trace;
      for i := 0 to |ops|
        invariant res.counts == CountsAfter(old(res.counts), c, shown, w, ops[..i])
        invariant trace == old(trace) + Trace(c, shown, w, ops[..i])
        invariant facts == Facts(old(facts), named, Trace(c, shown, w, ops[..i]))
      {
        assert ops[..i+1][..i] == ops[..i];
        var v := ApplyOne(c, i, ops[i], shown, w);
        FactsBoth(old(facts), named, Trace(c, shown, w, ops[..i]), Outcome(c, shown, w, i, ops[i]).1);
        assert old(trace) + Trace(c, shown, w, ops[..i]) + Outcome(c, shown, w, i, ops[i]).1
            == old(trace) + (Trace(c, shown, w, ops[..i]) + Outcome(c, shown, w, i, ops[i]).1);
        res.counts := Counted(res.counts, v);
      }
      assert ops[..|ops|] == ops;
    }
  }

  lemma ShortTraces(facts: map<string, Entry>, named: nat -> string, n: nat, e: Option<Entry>, h: Option<string>, how: Forgetting)
    ensures Facts(facts, named, []) == facts && Facts(facts, named, [WriteFailed(n)]) == facts
    ensures e.Some? ==> Facts(facts, named, [Wrote(n, e.value)]) == facts[named(n) := e.value]
    ensures h.Some? ==> Facts(facts, named, [Forgot(n, h.value, how)]) == if how.gone then facts - {h.value} else facts
    ensures e.Some? && h.Some? ==>
      var mid := facts[named(n) := e.value];
      Facts(facts, named, [Wrote(n, e.value), Forgot(n, h.value, how)]) == if how.gone then mid - {h.value} else mid
  {
    if e.Some? && h.Some? {
      assert [Wrote(n, e.value), Forgot(n, h.value, how)][..1] == [Wrote(n, e.value)];
    }
    assert forall x: Event :: [x][..0] == [];
  }

  lemma {:induction false} FactsBoth(facts: map<string, Entry>, named: nat -> string, a: seq<Event>, b: seq<Event>)
    ensures Facts(facts, named, a + b) == Facts(Facts(facts, named, a), named, b)
    decreases |b|
  {
    if b == [] {
      assert a + b == a;
    } else {
      FactsBoth(facts, named, a, b[..|b|-1]);
      assert (a + b)[..|a + b|-1] == a + b[..|b|-1];
    }
  }

  // ---- what it may do, and what it may not ----

  function Total(k: Counts): nat {
    k.added + k.updated + k.forgotten + k.refused
  }

  /** Every operation is counted once. */
  lemma {:induction false} EveryOpIsCounted(k: Counts, c: Config, shown: seq<string>, w: World, ops: seq<Op>)
    ensures Total(CountsAfter(k, c, shown, w, ops)) == Total(k) + |ops|
    decreases |ops|
  {
    hide Outcome;
    if ops != [] {
      EveryOpIsCounted(k, c, shown, w, ops[..|ops|-1]);
    }
  }

  function Writes(trace: seq<Event>): nat {
    if trace == [] then 0 else Writes(trace[..|trace|-1]) + (if trace[|trace|-1].Wrote? then 1 else 0)
  }

  lemma WritesOf(trace: seq<Event>, o: seq<Event>)
    requires |o| == 0 || |o| == 1 || (|o| == 2 && !o[1].Wrote?)
    ensures Writes(trace + o) == Writes(trace) + (if o != [] && o[0].Wrote? then 1 else 0)
  {
    if |o| == 2 {
      assert (trace + o)[..|trace + o|-1] == trace + [o[0]];
      assert (trace + [o[0]])[..|trace|] == trace;
    } else if |o| == 1 {
      assert (trace + o)[..|trace + o|-1] == trace;
    } else {
      assert trace + o == trace;
    }
  }

  /** What is counted added or updated is what was written. */
  lemma {:induction false} WritesAreCounted(k: Counts, c: Config, shown: seq<string>, w: World, ops: seq<Op>)
    ensures var k' := CountsAfter(k, c, shown, w, ops);
      k'.added + k'.updated == k.added + k.updated + Writes(Trace(c, shown, w, ops))
    decreases |ops|
  {
    hide EntryOf, Word, Writes;
    if ops != [] {
      WritesAreCounted(k, c, shown, w, ops[..|ops|-1]);
      WritesOf(Trace(c, shown, w, ops[..|ops|-1]), Outcome(c, shown, w, |ops| - 1, ops[|ops|-1]).1);
    } else {
      NoWrites();
    }
  }

  lemma NoWrites()
    ensures Writes([]) == 0
  {
  }

  /** An event is allowed: what is written is no blank or secret, and what is forgotten was
      shown, and, for an update, only just after its own correction was written. */
  ghost predicate Allowed(c: Config, shown: seq<string>, ops: seq<Op>, trace: seq<Event>, i: nat)
    requires i < |trace|
  {
    match trace[i]
    case Wrote(n, e) => n < |ops| && EntryOf(c, ops[n]) == Some(e) && e.content != "" && !c.secret(e.content)
    case WriteFailed(n) => n < |ops|
    case Forgot(n, h, _) =>
      && n < |ops| && h in shown && HandleOf(shown, ops[n].memory) == Some(h)
      && (Word(ops[n].kind) == "forget"
          || (Word(ops[n].kind) == "update" && i > 0 && trace[i-1].Wrote? && trace[i-1].n == n))
  }

  lemma {:induction false} OnlyAllowed(c: Config, shown: seq<string>, w: World, ops: seq<Op>)
    ensures forall i :: 0 <= i < |Trace(c, shown, w, ops)| ==> Allowed(c, shown, ops, Trace(c, shown, w, ops), i)
    decreases |ops|
  {
    hide EntryOf, Word;
    if ops != [] {
      var init, o := ops[..|ops|-1], ops[|ops|-1];
      var before, now := Trace(c, shown, w, init), Trace(c, shown, w, ops);
      OnlyAllowed(c, shown, w, init);
      forall i | 0 <= i < |now| ensures Allowed(c, shown, ops, now, i) {
        if i < |before| {
          assert Allowed(c, shown, init, before, i);
          assert before[i] == now[i] && (i > 0 ==> before[i-1] == now[i-1]);
        } else {
          EntryIsClean(c, o);
          assert now[i] == Outcome(c, shown, w, |ops| - 1, o).1[i - |before|];
        }
      }
    }
  }

  lemma EntryIsClean(c: Config, o: Op)
    ensures EntryOf(c, o).Some? ==> EntryOf(c, o).value.content != "" && !c.secret(EntryOf(c, o).value.content)
  {
  }

  /** A fact there before and not after was shown, and either a forget named it or an update
      did whose correction had been written. */
  lemma {:induction false} LostWereNamed(facts: map<string, Entry>, named: nat -> string, c: Config, shown: seq<string>, ops: seq<Op>,
                                         trace: seq<Event>, h: string)
    requires forall i :: 0 <= i < |trace| ==> Allowed(c, shown, ops, trace, i)
    requires h in facts && h !in Facts(facts, named, trace)
    ensures exists i :: 0 <= i < |trace| && trace[i].Forgot? && trace[i].handle == h && h in shown && Allowed(c, shown, ops, trace, i)
    decreases |trace|
  {
    hide EntryOf, Word;
    var init := trace[..|trace|-1];
    if h !in Facts(facts, named, init) {
      forall i | 0 <= i < |init| ensures Allowed(c, shown, ops, init, i) {
        assert Allowed(c, shown, ops, trace, i);
      }
      LostWereNamed(facts, named, c, shown, ops, init, h);
      var i :| 0 <= i < |init| && init[i].Forgot? && init[i].handle == h && h in shown && Allowed(c, shown, ops, init, i);
      assert Allowed(c, shown, ops, trace, i);
    } else {
      assert Allowed(c, shown, ops, trace, |trace| - 1);
    }
  }
}
