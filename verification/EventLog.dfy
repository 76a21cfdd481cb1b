/** The durable event log and one of its subscribers, step by step: publishers append and
    then wake, the subscriber reads, tries, and records how far it got, and either may die
    between any two steps. */
module EventLog {

  const BATCH_SIZE := 128
  const MAX_ATTEMPTS := 3

  datatype Rec = Rec(n: int, id: string, kind: string)

  datatype Recorded = At(n: int) | Never

  /** Where the subscriber is. `waiter` is the generation of the wake channel it took: that
      channel is closed once a later generation stands. */
  datatype Phase =
    | Down
    | Top(offset: int)
    | Armed(offset: int, waiter: nat)
    | Trying(offset: int, rest: seq<Rec>, tries: nat)
    | Settled(offset: int, rest: seq<Rec>)
    | Blocked(offset: int, waiter: nat)

  datatype Fate = Succeeded | DeadLettered
  datatype Try = Try(n: int, ok: bool)

  /** `log`, `recorded` and `fates` are on disk. `unwoken` are the events appended whose
      publisher has not woken anyone yet. `base` is where the subscriber registered. `tries`
      are all the handler calls there ever were, `firsts` the events in the order first seen. */
  datatype Sys = Sys(log: seq<Rec>, recorded: Recorded, phase: Phase, generation: nat, unwoken: set<int>,
                     base: int, fates: map<int, Fate>, tries: seq<Try>, firsts: seq<int>)

  datatype Action =
    | Append(rec: Rec)
    | Wake(n: int)
    | Start(written: bool)
    | TakeWaiter
    | Read
    | ReadFails
    | Attempt(ok: bool)
    | Ack(written: bool)
    | Unblock(polled: bool)
    | Cancel
    | Crash

  predicate Matches(kinds: seq<string>, r: Rec) {
    kinds == [] || r.kind in kinds
  }

  /** The matching events past an offset, oldest first. */
  function Pending(kinds: seq<string>, log: seq<Rec>, offset: int): seq<Rec> {
    if log == [] then []
    else
      var r := log[|log|-1];
      Pending(kinds, log[..|log|-1], offset) + (if Matches(kinds, r) && r.n > offset then [r] else [])
  }

  function Batch(kinds: seq<string>, log: seq<Rec>, offset: int): seq<Rec> {
    var p := Pending(kinds, log, offset);
    if |p| <= BATCH_SIZE then p else p[..BATCH_SIZE]
  }

  function Head(log: seq<Rec>): int {
    if log == [] then 0 else log[|log|-1].n
  }

  predicate Enabled(s: Sys, a: Action) {
    match a
    case Append(r) => r.n > Head(s.log) && r.n > 0 && forall x :: x in s.log ==> x.id != r.id
    case Wake(_) => true
    case Start(_) => s.phase.Down?
    case TakeWaiter => s.phase.Top?
    case Read => s.phase.Armed?
    case ReadFails => s.phase.Armed?
    case Attempt(_) => s.phase.Trying? && s.phase.rest != []
    case Ack(_) => s.phase.Settled? && s.phase.rest != []
    case Unblock(polled) => s.phase.Blocked? && (polled || s.phase.waiter < s.generation)
    case Cancel => !s.phase.Down?
    case Crash => true
  }

  /** Recording never moves backwards. */
  function Raise(r: Recorded, n: int): Recorded {
    if r.At? && r.n > n then r else At(n)
  }

  function Step(kinds: seq<string>, s: Sys, a: Action): Sys
    requires Enabled(s, a)
  {
    match a
    case Append(r) => s.(log := s.log + [r], unwoken := s.unwoken + {r.n})
    case Wake(n) => s.(generation := s.generation + 1, unwoken := s.unwoken - {n})
    case Start(written) =>
      if s.recorded.At? then s.(phase := Top(s.recorded.n))
      else
        var head := Head(s.log);
        s.(phase := Top(head), base := head, recorded := if written then At(head) else Never)
    case TakeWaiter => s.(phase := Armed(s.phase.offset, s.generation))
    case Read =>
      var batch := Batch(kinds, s.log, s.phase.offset);
      if batch == [] then s.(phase := Blocked(s.phase.offset, s.phase.waiter))
      else s.(phase := Trying(s.phase.offset, batch, 0))
    case ReadFails => s.(phase := Top(s.phase.offset))
    case Attempt(ok) =>
      var n := s.phase.rest[0].n;
      var tried := s.(tries := s.tries + [Try(n, ok)], firsts := if n in s.firsts then s.firsts else s.firsts + [n]);
      if ok then tried.(phase := Settled(s.phase.offset, s.phase.rest), fates := s.fates[n := Succeeded])
      else if s.phase.tries + 1 < MAX_ATTEMPTS then
        tried.(phase := Trying(s.phase.offset, s.phase.rest, s.phase.tries + 1))
      else tried.(phase := Settled(s.phase.offset, s.phase.rest), fates := s.fates[n := DeadLettered])
    case Ack(written) =>
      var n := s.phase.rest[0].n;
      s.(recorded := if written then Raise(s.recorded, n) else s.recorded,
         phase := if |s.phase.rest| == 1 then Top(n) else Trying(n, s.phase.rest[1..], 0))
    case Unblock(_) => s.(phase := Top(s.phase.offset))
    case Cancel => s.(phase := Down)
    case Crash => s.(phase := Down, generation := s.generation + 1, unwoken := {})
  }

  function Init(): Sys {
    Sys([], Never, Down, 0, {}, 0, map[], [], [])
  }

  // ---- what every step keeps ----

  ghost predicate Ordered(log: seq<Rec>) {
    && (forall i :: 0 <= i < |log| ==> log[i].n > 0)
    && (forall i, j :: 0 <= i < j < |log| ==> log[i].n < log[j].n)
  }

  function Fails(tries: seq<Try>, n: int): nat {
    if tries == [] then 0
    else Fails(tries[..|tries|-1], n) + (if tries[|tries|-1] == Try(n, false) then 1 else 0)
  }

  /** How far the subscriber itself has got. */
  function Reached(s: Sys): Recorded {
    if s.phase.Down? then s.recorded else At(s.phase.offset)
  }

  /** At least once: whatever lies between the registration and what was reached has been
      handled, or was tried the full number of times and dead-lettered. */
  ghost predicate Covered(kinds: seq<string>, s: Sys) {
    Reached(s).At? ==>
      forall r :: r in s.log && Matches(kinds, r) && s.base < r.n <= Reached(s).n ==> r.n in s.fates
  }

  ghost predicate FatesEarned(s: Sys) {
    forall n :: n in s.fates ==>
      && n in s.firsts
      && (if s.fates[n].Succeeded? then Try(n, true) in s.tries else Fails(s.tries, n) >= MAX_ATTEMPTS)
  }

  /** First deliveries come in order, and leave no matching event out. */
  ghost predicate FirstsInOrder(kinds: seq<string>, s: Sys) {
    && (forall i, j :: 0 <= i < j < |s.firsts| ==> s.firsts[i] < s.firsts[j])
    && (forall i :: 0 <= i < |s.firsts| ==> s.firsts[i] <= Head(s.log))
    && (forall r, i :: r in s.log && Matches(kinds, r) && 0 <= i < |s.firsts| && s.base < r.n <= s.firsts[i] ==>
          r.n in s.firsts)
  }

  ghost predicate PhaseSound(kinds: seq<string>, s: Sys) {
    match s.phase
    case Down => true
    case Top(_) => true
    case Armed(_, waiter) => waiter <= s.generation
    case Trying(offset, rest, tries) =>
      rest != [] && rest <= Pending(kinds, s.log, offset) && Fails(s.tries, rest[0].n) >= tries && tries < MAX_ATTEMPTS
    case Settled(offset, rest) =>
      rest != [] && rest <= Pending(kinds, s.log, offset) && rest[0].n in s.fates
    case Blocked(offset, waiter) =>
      // no wake-up is lost: a closed channel, unless the publisher has yet to wake
      waiter <= s.generation &&
      forall r :: r in s.log && Matches(kinds, r) && r.n > offset ==> r.n in s.unwoken || waiter < s.generation
  }

  ghost predicate Inv(kinds: seq<string>, s: Sys) {
    && Ordered(s.log) && s.base >= 0 && s.base <= Head(s.log)
    && (s.recorded.At? ==> s.base <= s.recorded.n <= Head(s.log))
    && (!s.phase.Down? ==> s.base <= s.phase.offset <= Head(s.log))
    && (!s.phase.Down? && s.recorded.At? ==> s.recorded.n <= s.phase.offset)
    && Covered(kinds, s)
    && FatesEarned(s)
    && FirstsInOrder(kinds, s)
    && PhaseSound(kinds, s)
  }

  lemma {:induction false} PendingMembers(kinds: seq<string>, log: seq<Rec>, offset: int)
    requires Ordered(log)
    ensures forall r :: r in Pending(kinds, log, offset) <==> r in log && Matches(kinds, r) && r.n > offset
    ensures forall i, j :: 0 <= i < j < |Pending(kinds, log, offset)| ==>
              Pending(kinds, log, offset)[i].n < Pending(kinds, log, offset)[j].n
  {
    if log != [] {
      var init, r := log[..|log|-1], log[|log|-1];
      PendingMembers(kinds, init, offset);
      assert forall x :: x in log <==> x in init || x == r;
    }
  }

  lemma HeadIsLast(log: seq<Rec>)
    requires Ordered(log)
    ensures Head(log) >= 0 && forall r :: r in log ==> 0 < r.n <= Head(log)
  {
  }

  lemma {:induction false} PendingNone(kinds: seq<string>, log: seq<Rec>, offset: int)
    requires forall r :: r in log ==> r.n <= offset
    ensures Pending(kinds, log, offset) == []
  {
    if log != [] {
      PendingNone(kinds, log[..|log|-1], offset);
    }
  }

  /** Moving on over the first pending event leaves the others pending. */
  lemma {:induction false} PendingAdvance(kinds: seq<string>, log: seq<Rec>, offset: int)
    requires Ordered(log) && Pending(kinds, log, offset) != []
    ensures var p := Pending(kinds, log, offset);
      p[0] in log && p[0].n > offset && Pending(kinds, log, p[0].n) == p[1..]
  {
    var init, r := log[..|log|-1], log[|log|-1];
    var p := Pending(kinds, init, offset);
    assert forall x :: x in init ==> x in log && x.n < r.n;
    if p != [] {
      PendingAdvance(kinds, init, offset);
      if Matches(kinds, r) && r.n > offset {
        assert (p + [r])[1..] == p[1..] + [r];
      }
    } else {
      PendingNone(kinds, init, r.n);
      assert Pending(kinds, log, offset) == [r];
    }
  }

  lemma InitHolds(kinds: seq<string>)
    ensures Inv(kinds, Init())
  {
  }

  lemma AppendPhase(kinds: seq<string>, s: Sys, r: Rec)
    requires Ordered(s.log) && PhaseSound(kinds, s) && Enabled(s, Append(r))
    ensures PhaseSound(kinds, Step(kinds, s, Append(r)))
  {
    var s' := Step(kinds, s, Append(r));
    assert s'.log[..|s'.log|-1] == s.log;
    assert forall x :: x in s'.log <==> x in s.log || x == r;
    if s.phase.Trying? || s.phase.Settled? {
      assert Pending(kinds, s.log, s.phase.offset) <= Pending(kinds, s'.log, s.phase.offset);
    }
  }

  lemma StepAppend(kinds: seq<string>, s: Sys, r: Rec)
    requires Inv(kinds, s) && Enabled(s, Append(r))
    ensures Inv(kinds, Step(kinds, s, Append(r)))
  {
    var s' := Step(kinds, s, Append(r));
    AppendPhase(kinds, s, r);
    HeadIsLast(s.log);
    assert forall x :: x in s'.log <==> x in s.log || x == r;
    assert Covered(kinds, s');
    assert FirstsInOrder(kinds, s');
  }

  lemma StepOutside(kinds: seq<string>, s: Sys, a: Action)
    requires Inv(kinds, s) && Enabled(s, a) && (a.Wake? || a.Crash? || a.Cancel?)
    ensures Inv(kinds, Step(kinds, s, a))
  {
  }

  lemma StepStart(kinds: seq<string>, s: Sys, a: Action)
    requires Inv(kinds, s) && Enabled(s, a) && a.Start?
    ensures Inv(kinds, Step(kinds, s, a))
  {
    HeadIsLast(s.log);
  }

  lemma ReadPhase(kinds: seq<string>, s: Sys)
    requires Inv(kinds, s) && s.phase.Armed?
    ensures PhaseSound(kinds, Step(kinds, s, Read))
  {
    hide Pending, Covered, FatesEarned, FirstsInOrder, Matches;
    PendingMembers(kinds, s.log, s.phase.offset);
  }

  lemma StepRead(kinds: seq<string>, s: Sys)
    requires Inv(kinds, s) && s.phase.Armed?
    ensures Inv(kinds, Step(kinds, s, Read))
  {
    hide Pending, PhaseSound, Ordered, Matches, Fails;
    ReadPhase(kinds, s);
  }

  lemma StepWait(kinds: seq<string>, s: Sys, a: Action)
    requires Inv(kinds, s) && Enabled(s, a) && (a.TakeWaiter? || a.ReadFails? || a.Unblock?)
    ensures Inv(kinds, Step(kinds, s, a))
  {
  }

  lemma TryKept(s: Sys, n: int, ok: bool, fates: map<int, Fate>)
    requires FatesEarned(s)
    requires fates == (if ok then s.fates[n := Succeeded] else s.fates)
          || (fates == s.fates[n := DeadLettered] && !ok && Fails(s.tries, n) + 1 >= MAX_ATTEMPTS)
    ensures FatesEarned(s.(tries := s.tries + [Try(n, ok)], fates := fates,
                           firsts := if n in s.firsts then s.firsts else s.firsts + [n]))
    ensures Fails(s.tries + [Try(n, ok)], n) == Fails(s.tries, n) + (if ok then 0 else 1)
  {
    var tries := s.tries + [Try(n, ok)];
    assert tries[..|tries|-1] == s.tries;
    assert Try(n, ok) in tries;
    forall k | k in fates && k in s.fates && fates[k] == s.fates[k]
      ensures if fates[k].Succeeded? then Try(k, true) in tries else Fails(tries, k) >= MAX_ATTEMPTS { }
  }

  lemma AttemptKeepsReach(kinds: seq<string>, s: Sys, a: Action)
    requires Inv(kinds, s) && Enabled(s, a) && a.Attempt?
    ensures Covered(kinds, Step(kinds, s, a))
  {
    var s' := Step(kinds, s, a);
    assert forall n :: n in s.fates ==> n in s'.fates;
  }

  lemma AttemptPhase(kinds: seq<string>, s: Sys, a: Action)
    requires Inv(kinds, s) && Enabled(s, a) && a.Attempt?
    ensures PhaseSound(kinds, Step(kinds, s, a))
  {
    hide Pending, Matches, Ordered, Covered, FirstsInOrder;
    var s' := Step(kinds, s, a);
    assert s'.tries[..|s'.tries|-1] == s.tries;
  }

  lemma AttemptFirsts(kinds: seq<string>, s: Sys, a: Action)
    requires Inv(kinds, s) && Enabled(s, a) && a.Attempt?
    ensures FirstsInOrder(kinds, Step(kinds, s, a))
  {
    hide Pending, Matches, Fails;
    var o, rest := s.phase.offset, s.phase.rest;
    PendingMembers(kinds, s.log, o);
    assert rest[0] == Pending(kinds, s.log, o)[0];
    assert rest[0] in Pending(kinds, s.log, o);
    FirstsKept(kinds, s, rest[0]);
  }

  lemma AttemptFates(kinds: seq<string>, s: Sys, a: Action)
    requires Inv(kinds, s) && Enabled(s, a) && a.Attempt?
    ensures FatesEarned(Step(kinds, s, a))
  {
    hide Pending, Matches, Ordered, Covered, FirstsInOrder;
    TryKept(s, s.phase.rest[0].n, a.ok, Step(kinds, s, a).fates);
  }

  lemma StepAttempt(kinds: seq<string>, s: Sys, a: Action)
    requires Inv(kinds, s) && Enabled(s, a) && a.Attempt?
    ensures Inv(kinds, Step(kinds, s, a))
  {
    hide Pending, Matches, Fails, Ordered, Covered, FirstsInOrder, FatesEarned;
    AttemptFirsts(kinds, s, a);
    AttemptFates(kinds, s, a);
    AttemptKeepsReach(kinds, s, a);
    AttemptPhase(kinds, s, a);
  }

  lemma FirstsKept(kinds: seq<string>, s: Sys, r: Rec)
    requires Ordered(s.log) && Covered(kinds, s) && FatesEarned(s) && FirstsInOrder(kinds, s) && s.phase.Trying?
    requires r in s.log && r.n > s.phase.offset >= s.base && Matches(kinds, r)
    requires forall x :: x in s.log && Matches(kinds, x) && x.n > s.phase.offset ==> x.n >= r.n
    ensures FirstsInOrder(kinds, s.(firsts := if r.n in s.firsts then s.firsts else s.firsts + [r.n]))
  {
    HeadIsLast(s.log);
    if r.n !in s.firsts {
      var firsts := s.firsts + [r.n];
      forall i | 0 <= i < |s.firsts| ensures s.firsts[i] < r.n { }
      forall x, i | x in s.log && Matches(kinds, x) && 0 <= i < |firsts| && s.base < x.n <= firsts[i] ensures x.n in firsts {
        if i < |s.firsts| {
          assert x.n in s.firsts;
        } else if x.n <= s.phase.offset {
          assert x.n in s.fates;
        }
      }
    }
  }

  lemma AckCovers(kinds: seq<string>, s: Sys, a: Action)
    requires Inv(kinds, s) && Enabled(s, a) && a.Ack?
    ensures Covered(kinds, Step(kinds, s, a))
  {
    hide Pending, Matches, Fails, FirstsInOrder, FatesEarned;
    var s', o, rest := Step(kinds, s, a), s.phase.offset, s.phase.rest;
    PendingMembers(kinds, s.log, o);
    var p := Pending(kinds, s.log, o);
    assert p[0] == rest[0] && rest[0] in p;
    forall r | r in s.log && Matches(kinds, r) && s.base < r.n <= rest[0].n ensures r.n in s'.fates {
      if r.n > o {
        assert r in p;
      }
    }
  }

  lemma AckPhase(kinds: seq<string>, s: Sys, a: Action)
    requires Inv(kinds, s) && Enabled(s, a) && a.Ack?
    ensures PhaseSound(kinds, Step(kinds, s, a))
    ensures s.phase.offset < s.phase.rest[0].n <= Head(s.log)
  {
    hide Pending, Matches, FirstsInOrder, FatesEarned, Covered;
    PendingAdvance(kinds, s.log, s.phase.offset);
    HeadIsLast(s.log);
    assert s.phase.rest[1..] <= Pending(kinds, s.log, s.phase.offset)[1..];
  }

  lemma StepAck(kinds: seq<string>, s: Sys, a: Action)
    requires Inv(kinds, s) && Enabled(s, a) && a.Ack?
    ensures Inv(kinds, Step(kinds, s, a))
  {
    hide Pending, Matches, Fails, Ordered, Covered;
    AckCovers(kinds, s, a);
    AckPhase(kinds, s, a);
  }

  lemma StepHolds(kinds: seq<string>, s: Sys, a: Action)
    requires Inv(kinds, s) && Enabled(s, a)
    ensures Inv(kinds, Step(kinds, s, a))
  {
    match a
    case Append(r) => StepAppend(kinds, s, r);
    case Wake(_) => StepOutside(kinds, s, a);
    case Crash => StepOutside(kinds, s, a);
    case Cancel => StepOutside(kinds, s, a);
    case Start(_) => StepStart(kinds, s, a);
    case Read => StepRead(kinds, s);
    case Attempt(_) => StepAttempt(kinds, s, a);
    case Ack(_) => StepAck(kinds, s, a);
    case _ => StepWait(kinds, s, a);
  }

  // ---- runs ----

  predicate Possible(kinds: seq<string>, s: Sys, run: seq<Action>)
    decreases |run|
  {
    run == [] || (Enabled(s, run[0]) && Possible(kinds, Step(kinds, s, run[0]), run[1..]))
  }

  function Exec(kinds: seq<string>, s: Sys, run: seq<Action>): Sys
    requires Possible(kinds, s, run)
    decreases |run|
  {
    if run == [] then s else Exec(kinds, Step(kinds, s, run[0]), run[1..])
  }

  lemma {:induction false} RunHolds(kinds: seq<string>, s: Sys, run: seq<Action>)
    requires Inv(kinds, s) && Possible(kinds, s, run)
    ensures Inv(kinds, Exec(kinds, s, run))
    ensures s.recorded.At? ==> var r := Exec(kinds, s, run).recorded; r.At? && r.n >= s.recorded.n
    ensures s.recorded.At? ==> Exec(kinds, s, run).base == s.base
    decreases |run|
  {
    if run != [] {
      StepHolds(kinds, s, run[0]);
      RunHolds(kinds, Step(kinds, s, run[0]), run[1..]);
    }
  }

  lemma {:induction false} RunSplits(kinds: seq<string>, s: Sys, run: seq<Action>, i: nat)
    requires Possible(kinds, s, run) && i <= |run|
    ensures Possible(kinds, s, run[..i]) && Possible(kinds, Exec(kinds, s, run[..i]), run[i..])
    ensures Exec(kinds, s, run) == Exec(kinds, Exec(kinds, s, run[..i]), run[i..])
    decreases i
  {
    hide Enabled, Step;
    if i == 0 {
      assert run[..0] == [] && run[0..] == run;
    } else {
      assert run[..i][0] == run[0] && run[..i][1..] == run[1..][..i-1] && run[1..][i-1..] == run[i..];
      RunSplits(kinds, Step(kinds, s, run[0]), run[1..], i - 1);
    }
  }

  /** At least once, over any run from an empty log: every matching event between the
      registration and the recorded offset was handled, or tried three times in vain and
      dead-lettered; first deliveries were in log order; and the registration has stood since a
      start was first recorded, so no event past that one's is ever passed over. */
  lemma DeliveredAtLeastOnce(kinds: seq<string>, run: seq<Action>, i: nat)
    requires Possible(kinds, Init(), run) && i <= |run|
    ensures Possible(kinds, Init(), run[..i])
    ensures Exec(kinds, Init(), run[..i]).recorded.At? ==>
              Exec(kinds, Init(), run).recorded.At? && Exec(kinds, Init(), run).base == Exec(kinds, Init(), run[..i]).base
    ensures var s := Exec(kinds, Init(), run);
      && (s.recorded.At? ==> forall r :: r in s.log && Matches(kinds, r) && s.base < r.n <= s.recorded.n ==>
            Try(r.n, true) in s.tries || Fails(s.tries, r.n) >= MAX_ATTEMPTS)
      && (forall i, j :: 0 <= i < j < |s.firsts| ==> s.firsts[i] < s.firsts[j])
      && (s.recorded.At? && !s.phase.Down? ==> s.recorded.n <= s.phase.offset)
  {
    InitHolds(kinds);
    RunHolds(kinds, Init(), run);
    RunSplits(kinds, Init(), run, i);
    RunHolds(kinds, Init(), run[..i]);
    RunHolds(kinds, Exec(kinds, Init(), run[..i]), run[i..]);
    var s := Exec(kinds, Init(), run);
    if s.recorded.At? {
      forall r | r in s.log && Matches(kinds, r) && s.base < r.n <= s.recorded.n
        ensures Try(r.n, true) in s.tries || Fails(s.tries, r.n) >= MAX_ATTEMPTS
      {
        assert r.n in s.fates;
      }
    }
  }

  /** Whatever is tried lies past the recorded offset and past the registration. */
  lemma RedeliveryConfined(kinds: seq<string>, run: seq<Action>)
    requires Possible(kinds, Init(), run)
    ensures var s := Exec(kinds, Init(), run);
      s.phase.Trying? && s.phase.rest != [] ==>
        s.phase.rest[0].n > s.base && (s.recorded.At? ==> s.phase.rest[0].n > s.recorded.n)
  {
    InitHolds(kinds);
    RunHolds(kinds, Init(), run);
    var s := Exec(kinds, Init(), run);
    if s.phase.Trying? {
      PendingMembers(kinds, s.log, s.phase.offset);
      assert s.phase.rest[0] in Pending(kinds, s.log, s.phase.offset);
    }
  }

  /** No lost wake-up, in any interleaving: a subscriber blocked although an event waits for
      it, whose publisher has woken, holds a channel that is already closed. */
  lemma NoLostWakeUp(kinds: seq<string>, run: seq<Action>, r: Rec)
    requires Possible(kinds, Init(), run)
    requires var s := Exec(kinds, Init(), run);
      s.phase.Blocked? && r in s.log && Matches(kinds, r) && r.n > s.phase.offset && r.n !in s.unwoken
    ensures Enabled(Exec(kinds, Init(), run), Unblock(false))
  {
    InitHolds(kinds);
    RunHolds(kinds, Init(), run);
  }

  /** A registration that could not be recorded promises nothing: after a restart the
      subscriber starts at the new head, past an event published while it was registered. */
  lemma UnrecordedStartMisses(e: Rec, kinds: seq<string>)
    requires e.n > 0 && Matches(kinds, e)
    ensures var run := [Start(false), Append(e), Wake(e.n), Crash, Start(true)];
      && Possible(kinds, Init(), run)
      && var s := Exec(kinds, Init(), run);
         e in s.log && s.base == e.n && s.phase == Top(e.n) && s.tries == []
  {
    hide Possible, Exec, Matches;
    var s1 := Step(kinds, Init(), Start(false));
    var s2 := Step(kinds, s1, Append(e));
    assert s2.log == [e];
    var s3 := Step(kinds, s2, Wake(e.n));
    var s4 := Step(kinds, s3, Crash);
    var s5 := Step(kinds, s4, Start(true));
    RunNone(kinds, s5);
    assert [Start(true)] + [] == [Start(true)];
    RunStep(kinds, s4, Start(true), []);
    assert [Crash] + [Start(true)] == [Crash, Start(true)];
    RunStep(kinds, s3, Crash, [Start(true)]);
    assert [Wake(e.n)] + [Crash, Start(true)] == [Wake(e.n), Crash, Start(true)];
    RunStep(kinds, s2, Wake(e.n), [Crash, Start(true)]);
    assert [Append(e)] + [Wake(e.n), Crash, Start(true)] == [Append(e), Wake(e.n), Crash, Start(true)];
    RunStep(kinds, s1, Append(e), [Wake(e.n), Crash, Start(true)]);
    assert [Start(false)] + [Append(e), Wake(e.n), Crash, Start(true)] == [Start(false), Append(e), Wake(e.n), Crash, Start(true)];
    RunStep(kinds, Init(), Start(false), [Append(e), Wake(e.n), Crash, Start(true)]);
  }

  /** A start passes over an event of its registration that nobody has handled iff no offset was
      ever recorded, whether by a start or by an acknowledgement. */
  lemma StartMissesExactly(kinds: seq<string>, run: seq<Action>, written: bool, r: Rec)
    requires Possible(kinds, Init(), run) && Exec(kinds, Init(), run).phase.Down?
    requires r in Exec(kinds, Init(), run).log && Matches(kinds, r) && r.n > Exec(kinds, Init(), run).base
    ensures var s := Exec(kinds, Init(), run);
      var s' := Step(kinds, s, Start(written));
      r.n <= s'.phase.offset && r.n !in s'.fates <==> s.recorded.Never? && r.n !in s.fates
  {
    InitHolds(kinds);
    RunHolds(kinds, Init(), run);
    HeadIsLast(Exec(kinds, Init(), run).log);
  }

  /** What a registration has passed over is never tried again, whatever comes after. */
  lemma {:induction false} MissedForGood(kinds: seq<string>, s: Sys, run: seq<Action>, n: int)
    requires Inv(kinds, s) && Possible(kinds, s, run) && n <= s.base
    ensures n <= Exec(kinds, s, run).base && (n in Exec(kinds, s, run).fates <==> n in s.fates)
    ensures forall ok :: Try(n, ok) in Exec(kinds, s, run).tries <==> Try(n, ok) in s.tries
    decreases |run|
  {
    hide Inv, Step, Enabled;
    if run != [] {
      StepHolds(kinds, s, run[0]);
      StepLeaves(kinds, s, run[0], n);
      MissedForGood(kinds, Step(kinds, s, run[0]), run[1..], n);
    }
  }

  lemma StepLeaves(kinds: seq<string>, s: Sys, a: Action, n: int)
    requires Inv(kinds, s) && Enabled(s, a) && n <= s.base
    ensures var s' := Step(kinds, s, a);
      && n <= s'.base && (n in s'.fates <==> n in s.fates)
      && forall ok :: Try(n, ok) in s'.tries <==> Try(n, ok) in s.tries
  {
    hide Covered, FatesEarned, FirstsInOrder, Matches, Fails, Batch, Pending;
    if a.Attempt? {
      PendingMembers(kinds, s.log, s.phase.offset);
      assert s.phase.rest[0] in Pending(kinds, s.log, s.phase.offset);
    }
  }

  lemma RunNone(kinds: seq<string>, s: Sys)
    ensures Possible(kinds, s, []) && Exec(kinds, s, []) == s
  {
  }

  lemma RunStep(kinds: seq<string>, s: Sys, a: Action, rest: seq<Action>)
    requires Enabled(s, a) && Possible(kinds, Step(kinds, s, a), rest)
    ensures Possible(kinds, s, [a] + rest) && Exec(kinds, s, [a] + rest) == Exec(kinds, Step(kinds, s, a), rest)
  {
    hide Enabled, Step;
    assert ([a] + rest)[1..] == rest;
  }
}
