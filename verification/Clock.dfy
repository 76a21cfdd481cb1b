/** Durable timers fired into the event log: a sweep publishes each due timer under an id
    derived from its deadline and then marks it, and may die between any two steps. */
module Clock {
  import opened Basics
  import opened Decimal

  const SWEEP := 64

  datatype Fired = NotFired | FiredAt(at: int)
  datatype Timer = Timer(fireAt: int, fired: Fired)

  /** A timer as a sweep read it. */
  datatype Due = Due(id: string, deadline: int)

  function EventId(id: string, deadline: int): string {
    "timer:" + id + ":" + Integer(deadline / SECOND)
  }

  /** The id names the timer and the second of its deadline, and nothing else does. */
  lemma EventIdNames(id: string, deadline: int, id': string, deadline': int)
    ensures EventId(id, deadline) == EventId(id', deadline') <==> id == id' && deadline / SECOND == deadline' / SECOND
  {
    if EventId(id, deadline) == EventId(id', deadline') {
      ColonSplits("timer:" + id, deadline / SECOND, "timer:" + id', deadline' / SECOND);
      assert ("timer:" + id)[6..] == id && ("timer:" + id')[6..] == id';
    }
  }

  function LogOnce(log: seq<string>, id: string): seq<string> {
    if id in log then log else log + [id]
  }

  function MarkFired(timers: map<string, Timer>, id: string, now: int): map<string, Timer> {
    if id in timers && timers[id].fired.NotFired? then timers[id := timers[id].(fired := FiredAt(now))] else timers
  }

  predicate IsDue(timers: map<string, Timer>, id: string, now: int) {
    id in timers && timers[id].fired.NotFired? && timers[id].fireAt <= now
  }

  /** Armed timers whose deadline has passed, earliest first, a sweep's worth. */
  ghost predicate DueTimers(due: seq<Due>, timers: map<string, Timer>, now: int) {
    && |due| <= SWEEP
    && (forall i :: 0 <= i < |due| ==>
          IsDue(timers, due[i].id, now) && timers[due[i].id].fireAt == due[i].deadline)
    && (forall i, j :: 0 <= i < j < |due| ==> due[i].id != due[j].id && due[i].deadline <= due[j].deadline)
    && (forall id :: IsDue(timers, id, now) && Due(id, timers[id].fireAt) !in due ==>
          |due| == SWEEP && forall d :: d in due ==> d.deadline <= timers[id].fireAt)
  }

  // ---- the protocol ----

  /** A sweep working through what it read: about to publish its first, or to mark it. */
  datatype Phase = Resting | Publishing(due: seq<Due>) | Marking(due: seq<Due>)

  /** `timers` and `log` are on disk; `marks` are the deadlines a sweep read and then marked. */
  datatype Sys = Sys(timers: map<string, Timer>, log: seq<string>, phase: Phase, marks: seq<Due>)

  datatype Action =
    | Arm(id: string, at: int)
    | CancelTimer(id: string)
    | SweepReads(due: seq<Due>, now: int)
    | Publish(ok: bool)
    | Mark(now: int, ok: bool)
    | Crash

  ghost predicate Enabled(s: Sys, a: Action) {
    match a
    case SweepReads(due, now) => s.phase.Resting? && DueTimers(due, s.timers, now)
    case Publish(_) => s.phase.Publishing? && s.phase.due != []
    case Mark(_, _) => s.phase.Marking? && s.phase.due != []
    case _ => true
  }

  function Onwards(due: seq<Due>): Phase {
    if |due| <= 1 then Resting else Publishing(due[1..])
  }

  function Step(s: Sys, a: Action): Sys {
    match a
    case Arm(id, at) => s.(timers := s.timers[id := Timer(at, NotFired)])
    case CancelTimer(id) => s.(timers := s.timers - {id})
    case SweepReads(due, _) => s.(phase := if due == [] then Resting else Publishing(due))
    case Publish(ok) =>
      if !(s.phase.Publishing? && s.phase.due != []) then s
      else if !ok then s.(phase := Onwards(s.phase.due))
      else s.(log := LogOnce(s.log, EventId(s.phase.due[0].id, s.phase.due[0].deadline)), phase := Marking(s.phase.due))
    case Mark(now, ok) =>
      if !(s.phase.Marking? && s.phase.due != []) then s
      else
        var d := s.phase.due[0];
        if !ok then s.(phase := Onwards(s.phase.due))
        else s.(timers := MarkFired(s.timers, d.id, now), phase := Onwards(s.phase.due), marks := s.marks + [d])
    case Crash => s.(phase := Resting)
  }

  /** A timer that counts as fired has its deadline's event in the log. */
  ghost predicate FiredMeansLogged(s: Sys) {
    forall id :: id in s.timers && s.timers[id].fired.FiredAt? ==> EventId(id, s.timers[id].fireAt) in s.log
  }

  ghost predicate Inv(s: Sys) {
    && (forall i, j :: 0 <= i < j < |s.log| ==> s.log[i] != s.log[j])
    && (forall d :: d in s.marks ==> EventId(d.id, d.deadline) in s.log)
    && (s.phase.Marking? ==> s.phase.due != [] && EventId(s.phase.due[0].id, s.phase.due[0].deadline) in s.log)
  }

  lemma StepKeeps(s: Sys, a: Action)
    requires Inv(s) && Enabled(s, a)
    ensures Inv(Step(s, a)) && s.log <= Step(s, a).log
  {
  }

  ghost predicate Possible(s: Sys, run: seq<Action>)
    decreases |run|
  {
    run == [] || (Enabled(s, run[0]) && Possible(Step(s, run[0]), run[1..]))
  }

  function Exec(s: Sys, run: seq<Action>): Sys
    decreases |run|
  {
    if run == [] then s else Exec(Step(s, run[0]), run[1..])
  }

  lemma {:induction false} RunKeeps(s: Sys, run: seq<Action>)
    requires Inv(s) && Possible(s, run)
    ensures Inv(Exec(s, run)) && s.log <= Exec(s, run).log
    decreases |run|
  {
    if run != [] {
      StepKeeps(s, run[0]);
      RunKeeps(Step(s, run[0]), run[1..]);
    }
  }

  /** Fired once: over any run, crashes anywhere, the log holds at most one event for a timer
      and the second of its deadline, and every deadline that was marked has its event. */
  lemma FiredOnce(run: seq<Action>, i: nat, j: nat, id: string, deadline: int, deadline': int)
    requires Possible(Sys(map[], [], Resting, []), run)
    ensures var s := Exec(Sys(map[], [], Resting, []), run);
      && (deadline / SECOND == deadline' / SECOND && i < |s.log| && j < |s.log| ==>
            s.log[i] == EventId(id, deadline) && s.log[j] == EventId(id, deadline') ==> i == j)
      && (forall d :: d in s.marks ==> EventId(d.id, d.deadline) in s.log)
  {
    RunKeeps(Sys(map[], [], Resting, []), run);
    EventIdNames(id, deadline, id, deadline');
  }

  /** A publish that fails changes nothing but the sweep's place: the timer stays armed, and
      any later sweep short of its limit reads it again. */
  lemma FailedPublishRetries(s: Sys, due: seq<Due>, now: int)
    requires s.phase.Publishing? && s.phase.due != []
    ensures Step(s, Publish(false)).timers == s.timers && Step(s, Publish(false)).log == s.log
    ensures var d := s.phase.due[0];
      (DueTimers(due, s.timers, now) && |due| < SWEEP && IsDue(s.timers, d.id, now) && s.timers[d.id].fireAt == d.deadline) ==>
        d in due
  {
  }

  /** No one re-arms, to another second, a timer a sweep has read and not yet done with. */
  ghost predicate LeavesSweepAlone(s: Sys, a: Action) {
    a.Arm? && !s.phase.Resting? ==> forall d :: d in s.phase.due && d.id == a.id ==> d.deadline / SECOND == a.at / SECOND
  }

  /** What is left of a sweep still names the deadlines its timers have. */
  ghost predicate SweepCurrent(s: Sys) {
    !s.phase.Resting? ==> forall d :: d in s.phase.due && d.id in s.timers && s.timers[d.id].fired.NotFired? ==>
      s.timers[d.id].fireAt / SECOND == d.deadline / SECOND
  }

  lemma AloneKeeps(s: Sys, a: Action)
    requires Inv(s) && Enabled(s, a) && LeavesSweepAlone(s, a) && FiredMeansLogged(s) && SweepCurrent(s)
    ensures FiredMeansLogged(Step(s, a)) && SweepCurrent(Step(s, a))
  {
    var s' := Step(s, a);
    if a.Mark? && s.phase.Marking? {
      var d := s.phase.due[0];
      assert d in s.phase.due;
      if d.id in s.timers {
        EventIdNames(d.id, d.deadline, d.id, s.timers[d.id].fireAt);
      }
      assert forall x :: x in s.phase.due[1..] ==> x in s.phase.due;
    } else if a.Publish? && s.phase.Publishing? {
      assert forall x :: x in s.phase.due[1..] ==> x in s.phase.due;
    }
  }

  ghost predicate AllLeaveSweepsAlone(s: Sys, run: seq<Action>)
    decreases |run|
  {
    run == [] || (LeavesSweepAlone(s, run[0]) && AllLeaveSweepsAlone(Step(s, run[0]), run[1..]))
  }

  /** Over any run in which nobody re-arms a timer under a sweep's feet, a timer that counts as
      fired has its event in the log. */
  lemma {:induction false} FiredIsLogged(s: Sys, run: seq<Action>)
    requires Inv(s) && FiredMeansLogged(s) && SweepCurrent(s)
    requires Possible(s, run) && AllLeaveSweepsAlone(s, run)
    ensures FiredMeansLogged(Exec(s, run))
    decreases |run|
  {
    if run != [] {
      StepKeeps(s, run[0]);
      AloneKeeps(s, run[0]);
      FiredIsLogged(Step(s, run[0]), run[1..]);
    }
  }

  /** A mark breaks the promise exactly when the timer has meanwhile been re-armed to a
      deadline whose event is not in the log. */
  lemma MarkLosesExactly(s: Sys, now: int)
    requires Inv(s) && s.phase.Marking? && FiredMeansLogged(s)
    ensures var id := s.phase.due[0].id;
      FiredMeansLogged(Step(s, Mark(now, true))) <==>
      !(id in s.timers && s.timers[id].fired.NotFired? && EventId(id, s.timers[id].fireAt) !in s.log)
  {
    var id, s' := s.phase.due[0].id, Step(s, Mark(now, true));
    if id in s.timers && s.timers[id].fired.NotFired? {
      assert s'.timers[id] == Timer(s.timers[id].fireAt, FiredAt(now));
    }
  }

  /** It can happen: armed, published, re-armed, marked. The second deadline never fires. */
  lemma RearmedTimerIsLost()
    ensures var run := [Arm("t", SECOND), SweepReads([Due("t", SECOND)], SECOND), Publish(true),
                        Arm("t", 5 * SECOND), Mark(SECOND, true)];
      && Possible(Sys(map[], [], Resting, []), run)
      && var s := Exec(Sys(map[], [], Resting, []), run);
         && s.timers == map["t" := Timer(5 * SECOND, FiredAt(SECOND))]
         && EventId("t", 5 * SECOND) !in s.log
         && (forall due, now :: DueTimers(due, s.timers, now) ==> due == [])
  {
    hide EventId, Possible, Exec;
    var s1 := Step(Sys(map[], [], Resting, []), Arm("t", SECOND));
    assert DueTimers([Due("t", SECOND)], s1.timers, SECOND);
    var s2 := Step(s1, SweepReads([Due("t", SECOND)], SECOND));
    var s3 := Step(s2, Publish(true));
    var s4 := Step(s3, Arm("t", 5 * SECOND));
    var s5 := Step(s4, Mark(SECOND, true));
    RunNone(s5);
    assert [Mark(SECOND, true)] + [] == [Mark(SECOND, true)];
    RunStep(s4, Mark(SECOND, true), []);
    assert [Arm("t", 5 * SECOND)] + [Mark(SECOND, true)] == [Arm("t", 5 * SECOND), Mark(SECOND, true)];
    RunStep(s3, Arm("t", 5 * SECOND), [Mark(SECOND, true)]);
    var two := [Arm("t", 5 * SECOND), Mark(SECOND, true)];
    assert [Publish(true)] + two == [Publish(true), two[0], two[1]];
    RunStep(s2, Publish(true), two);
    var three := [Publish(true), two[0], two[1]];
    assert [SweepReads([Due("t", SECOND)], SECOND)] + three == [SweepReads([Due("t", SECOND)], SECOND), three[0], three[1], three[2]];
    RunStep(s1, SweepReads([Due("t", SECOND)], SECOND), three);
    var four := [SweepReads([Due("t", SECOND)], SECOND), three[0], three[1], three[2]];
    assert [Arm("t", SECOND)] + four == [Arm("t", SECOND), four[0], four[1], four[2], four[3]];
    RunStep(Sys(map[], [], Resting, []), Arm("t", SECOND), four);
    EventIdNames("t", SECOND, "t", 5 * SECOND);
    assert s5.log == [EventId("t", SECOND)];
    assert SECOND / SECOND == 1 && 5 * SECOND / SECOND == 5;
    forall due: seq<Due>, now | DueTimers(due, s5.timers, now) ensures due == [] {
      assert |due| > 0 ==> IsDue(s5.timers, due[0].id, now);
    }
  }

  lemma RunNone(s: Sys)
    ensures Possible(s, []) && Exec(s, []) == s
  {
  }

  lemma RunStep(s: Sys, a: Action, rest: seq<Action>)
    requires Enabled(s, a) && Possible(Step(s, a), rest)
    ensures Possible(s, [a] + rest) && Exec(s, [a] + rest) == Exec(Step(s, a), rest)
  {
    hide Enabled, Step;
    assert ([a] + rest)[1..] == rest;
  }

  // ---- the sweep itself ----

  /** What one due timer's turn makes of the store and the log. */
  function Fire(s: Sys, d: Due, now: int, publishes: string -> bool, marks: string -> bool): Sys {
    if !publishes(d.id) then s
    else
      var logged := s.(log := LogOnce(s.log, EventId(d.id, d.deadline)));
      if !marks(d.id) then logged else logged.(timers := MarkFired(logged.timers, d.id, now), marks := logged.marks + [d])
  }

  function Swept(s: Sys, due: seq<Due>, now: int, publishes: string -> bool, marks: string -> bool): Sys
    decreases |due|
  {
    if due == [] then s else Fire(Swept(s, due[..|due|-1], now, publishes, marks), due[|due|-1], now, publishes, marks)
  }

  class TimerStore {
    var timers: map<string, Timer>
    var log: seq<string>
    ghost var marks: seq<Due>

    constructor ()
      ensures timers == map[] && log == [] && marks == []
    {
      timers, log, marks := map[], [], [];
    }

    ghost function View(): Sys
      reads this
    {
      Sys(timers, log, Resting, marks)
    }

    /** Schedules a timer, moving its deadline when it has one; a blank id or no deadline is
        refused, and a write that fails changes nothing. */
    method Arm(id: string, at: int, noDeadline: bool, written: bool) returns (ok: bool)
      modifies this
      ensures ok == (TrimSpace(id) != "" && !noDeadline && written)
      ensures View() == if ok then Step(old(View()), Action.Arm(id, at)) else old(View())
    {
      if noDeadline || TrimSpace(id) == "" || !written {
        return false;
      }
      timers := timers[id := Timer(at, NotFired)];
      return true;
    }

    method Sweep(due: seq<Due>, readFails: bool, now: int, publishes: string -> bool, marked: string -> bool)
      requires DueTimers(due, timers, now)
      modifies this
      ensures View() == if readFails then old(View()) else Swept(old(View()), due, now, publishes, marked)
    {
      hide Fire;
      if readFails {
        return;
      }
      for i := 0 to |due|
        invariant View() == Swept(old(View()), due[..i], now, publishes, marked)
      {
        assert due[..i+1][..i] == due[..i] && due[..i+1][i] == due[i];
        FireOne(due[i], now, publishes, marked);
      }
      assert due[..|due|] == due;
    }

    /** One due timer's turn: published, and only then marked. */
    method FireOne(d: Due, now: int, publishes: string -> bool, marked: string -> bool)
      modifies this
      ensures View() == Fire(old(View()), d, now, publishes, marked)
    {
      hide EventId;
      if !publishes(d.id) {
        return;
      }
      var id := EventId(d.id, d.deadline);
      if id !in log {
        log := log + [id];
      }
      if marked(d.id) {
        if d.id in timers && timers[d.id].fired.NotFired? {
          timers := timers[d.id := timers[d.id].(fired := FiredAt(now))];
        }
        marks := marks + [d];
      }
    }
  }

  ghost predicate Read(due: seq<Due>, n: nat, timers: map<string, Timer>, now: int)
    requires n <= |due|
  {
    && (forall i :: 0 <= i < n ==> IsDue(timers, due[i].id, now) && timers[due[i].id].fireAt == due[i].deadline)
    && (forall i, j :: 0 <= i < j < n ==> due[i].id != due[j].id)
  }

  /** The timers after a sweep that got to `n`: marked where both steps worked, else as they were. */
  ghost predicate MarkedUpTo(due: seq<Due>, n: nat, was: map<string, Timer>, timers: map<string, Timer>, now: int,
                             publishes: string -> bool, marks: string -> bool)
    requires n <= |due|
  {
    && timers.Keys == was.Keys
    && (forall i :: 0 <= i < n && due[i].id in was ==>
          timers[due[i].id] == if publishes(due[i].id) && marks(due[i].id) then was[due[i].id].(fired := FiredAt(now)) else was[due[i].id])
    && (forall id :: id in was && (forall i :: 0 <= i < n ==> due[i].id != id) ==> timers[id] == was[id])
  }

  /** A sweep nobody interferes with keeps the promise: what it marks is in the log, and what
      it does not mark is still armed. */
  lemma SweepKeeps(s: Sys, due: seq<Due>, now: int, publishes: string -> bool, marks: string -> bool)
    requires Inv(s) && s.phase.Resting? && FiredMeansLogged(s) && DueTimers(due, s.timers, now)
    ensures var s' := Swept(s, due, now, publishes, marks);
      && Inv(s') && FiredMeansLogged(s') && s.log <= s'.log
      && MarkedUpTo(due, |due|, s.timers, s'.timers, now, publishes, marks)
  {
    assert due[..|due|] == due;
    SweepKeepsPrefix(s, due, now, publishes, marks, |due|);
  }

  lemma FireKeeps(s: Sys, d: Due, now: int, publishes: string -> bool, marks: string -> bool)
    requires Inv(s) && s.phase.Resting? && FiredMeansLogged(s) && d.id in s.timers && s.timers[d.id] == Timer(d.deadline, NotFired)
    ensures var s' := Fire(s, d, now, publishes, marks);
      && Inv(s') && s'.phase.Resting? && FiredMeansLogged(s') && s.log <= s'.log
      && s'.timers == if publishes(d.id) && marks(d.id) then s.timers[d.id := Timer(d.deadline, FiredAt(now))] else s.timers
  {
  }

  lemma {:induction false} SweepKeepsPrefix(s: Sys, due: seq<Due>, now: int, publishes: string -> bool, marks: string -> bool, n: nat)
    requires n <= |due| && Inv(s) && s.phase.Resting? && FiredMeansLogged(s) && Read(due, n, s.timers, now)
    ensures var s' := Swept(s, due[..n], now, publishes, marks);
      && Inv(s') && s'.phase.Resting? && FiredMeansLogged(s') && s.log <= s'.log
      && MarkedUpTo(due, n, s.timers, s'.timers, now, publishes, marks)
    decreases n
  {
    hide Inv, FiredMeansLogged, Fire, MarkedUpTo;
    if n > 0 {
      var d := due[n-1];
      assert due[..n][..n-1] == due[..n-1] && due[..n][n-1] == d;
      SweepKeepsPrefix(s, due, now, publishes, marks, n - 1);
      var before := Swept(s, due[..n-1], now, publishes, marks);
      assert IsDue(s.timers, d.id, now);
      StillArmed(due, n - 1, s.timers, before.timers, now, publishes, marks);
      FireKeeps(before, d, now, publishes, marks);
      MarkedStep(due, n - 1, s.timers, before.timers, now, publishes, marks);
    } else {
      MarkedNone(due, s.timers, now, publishes, marks);
    }
  }

  lemma MarkedNone(due: seq<Due>, was: map<string, Timer>, now: int, publishes: string -> bool, marks: string -> bool)
    ensures MarkedUpTo(due, 0, was, was, now, publishes, marks)
  {
  }

  /** A timer whose turn has not come is as it was read. */
  lemma StillArmed(due: seq<Due>, n: nat, was: map<string, Timer>, timers: map<string, Timer>, now: int,
                   publishes: string -> bool, marks: string -> bool)
    requires n < |due| && Read(due, n + 1, was, now) && MarkedUpTo(due, n, was, timers, now, publishes, marks)
    ensures due[n].id in timers && timers[due[n].id] == was[due[n].id]
  {
    assert IsDue(was, due[n].id, now);
  }

  lemma MarkedStep(due: seq<Due>, n: nat, was: map<string, Timer>, timers: map<string, Timer>, now: int,
                   publishes: string -> bool, marks: string -> bool)
    requires n < |due| && Read(due, n + 1, was, now) && MarkedUpTo(due, n, was, timers, now, publishes, marks)
    ensures var d := due[n];
      MarkedUpTo(due, n + 1, was,
        if publishes(d.id) && marks(d.id) then timers[d.id := Timer(d.deadline, FiredAt(now))] else timers, now, publishes, marks)
  {
    assert IsDue(was, due[n].id, now);
  }
}
