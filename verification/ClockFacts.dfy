/** What a sweep comes to for each timer, and for the log. */
module ClockFacts {
  import opened Clock

  /** A sweep logs the event of each due timer whose publish works, and of no other. */
  lemma {:induction false} SweepLogs(s: Sys, due: seq<Due>, now: int, publishes: string -> bool, marks: string -> bool, id: string)
    ensures id in Swept(s, due, now, publishes, marks).log <==>
            id in s.log || exists i :: 0 <= i < |due| && publishes(due[i].id) && EventId(due[i].id, due[i].deadline) == id
    decreases |due|
  {
    hide EventId;
    if due != [] {
      var init, d := due[..|due|-1], due[|due|-1];
      SweepLogs(s, init, now, publishes, marks, id);
      assert forall i :: 0 <= i < |init| ==> init[i] == due[i];
      if publishes(d.id) && EventId(d.id, d.deadline) == id {
        assert publishes(due[|due|-1].id);
      }
    }
  }

  /** An armed timer whose time has come, read with fewer than 64 others, fires: its event is in the log
      under its id and second, and it is marked, when both can be written. */
  lemma DueFires(s: Sys, due: seq<Due>, now: int, publishes: string -> bool, marks: string -> bool, id: string)
    requires Inv(s) && s.phase.Resting? && FiredMeansLogged(s) && DueTimers(due, s.timers, now) && |due| < 64
    requires id in s.timers && s.timers[id].fired == NotFired && s.timers[id].fireAt <= now
    requires publishes(id) && marks(id)
    ensures var after := Swept(s, due, now, publishes, marks);
      && EventId(id, s.timers[id].fireAt) in after.log
      && id in after.timers && after.timers[id] == Timer(s.timers[id].fireAt, FiredAt(now))
  {
    hide EventId, Swept, Inv, FiredMeansLogged, DueTimers, IsDue;
    var d := Due(id, s.timers[id].fireAt);
    DueIsRead(s.timers, due, now, id);
    var i :| 0 <= i < |due| && due[i] == d;
    SweepLogs(s, due, now, publishes, marks, EventId(id, d.deadline));
    SweepKeeps(s, due, now, publishes, marks);
  }

  lemma DueIsRead(timers: map<string, Timer>, due: seq<Due>, now: int, id: string)
    requires DueTimers(due, timers, now) && |due| < 64
    requires id in timers && timers[id].fired == NotFired && timers[id].fireAt <= now
    ensures Due(id, timers[id].fireAt) in due
  {
    assert IsDue(timers, id, now);
  }

  /** A timer that is not due, or has fired, is not swept. */
  lemma OthersStay(s: Sys, due: seq<Due>, now: int, publishes: string -> bool, marks: string -> bool, id: string)
    requires Inv(s) && s.phase.Resting? && FiredMeansLogged(s) && DueTimers(due, s.timers, now)
    requires id in s.timers && (s.timers[id].fired != NotFired || s.timers[id].fireAt > now)
    ensures var after := Swept(s, due, now, publishes, marks); id in after.timers && after.timers[id] == s.timers[id]
  {
    hide EventId, Swept, Inv, FiredMeansLogged;
    SweepKeeps(s, due, now, publishes, marks);
    assert !IsDue(s.timers, id, now);
  }

  /** A cancelled timer is gone until it is armed again: no sweep that begins after has it. */
  lemma {:induction false} CancelledStaysGone(s: Sys, run: seq<Action>, id: string)
    requires Possible(s, run) && forall i :: 0 <= i < |run| ==> !(run[i].Arm? && run[i].id == id)
    requires id !in s.timers && (!s.phase.Resting? ==> forall d :: d in s.phase.due ==> d.id != id)
    ensures var s' := Exec(s, run); id !in s'.timers && (!s'.phase.Resting? ==> forall d :: d in s'.phase.due ==> d.id != id)
    decreases |run|
  {
    hide EventId;
    if run != [] {
      assert forall i :: 0 <= i < |run[1..]| ==> run[1..][i] == run[i+1];
      StepWithout(s, run[0], id);
      CancelledStaysGone(Step(s, run[0]), run[1..], id);
    }
  }

  lemma StepWithout(s: Sys, a: Action, id: string)
    requires Enabled(s, a) && !(a.Arm? && a.id == id)
    requires id !in s.timers && (!s.phase.Resting? ==> forall d :: d in s.phase.due ==> d.id != id)
    ensures var s' := Step(s, a); id !in s'.timers && (!s'.phase.Resting? ==> forall d :: d in s'.phase.due ==> d.id != id)
  {
    hide EventId;
    if a.SweepReads? {
      forall d | d in a.due ensures d.id != id {
        var i :| 0 <= i < |a.due| && a.due[i] == d;
        assert IsDue(s.timers, a.due[i].id, a.now);
      }
    }
  }

  lemma CancelTakesOut(s: Sys, id: string)
    ensures id !in Step(s, CancelTimer(id)).timers
    ensures forall other :: other != id && other in s.timers ==> other in Step(s, CancelTimer(id)).timers && Step(s, CancelTimer(id)).timers[other] == s.timers[other]
  {
  }

  /** A death ends whatever sweep was under way, and loses nothing that was written. */
  lemma CrashEndsSweep(s: Sys)
    ensures var s' := Step(s, Crash); s'.phase == Resting && s'.timers == s.timers && s'.log == s.log
  {
  }

  // ---- a sweep, step by step ----

  /** The steps a sweep takes over what it read. */
  function StepsOf(due: seq<Due>, now: int, publishes: string -> bool, marks: string -> bool): seq<Action> {
    if due == [] then []
    else (if publishes(due[0].id) then [Publish(true), Mark(now, marks(due[0].id))] else [Publish(false)]) + StepsOf(due[1..], now, publishes, marks)
  }

  lemma {:induction false} SweptFront(s: Sys, due: seq<Due>, now: int, publishes: string -> bool, marks: string -> bool)
    requires due != []
    ensures Swept(s, due, now, publishes, marks) == Swept(Fire(s, due[0], now, publishes, marks), due[1..], now, publishes, marks)
    decreases |due|
  {
    hide Fire;
    if |due| > 1 {
      SweptFront(s, due[..|due|-1], now, publishes, marks);
      assert due[..|due|-1][1..] == due[1..][..|due|-2] && due[1..][|due|-2] == due[|due|-1];
    } else {
      assert due[..0] == [] && due[1..] == [];
    }
  }

  lemma OneDue(s: Sys, due: seq<Due>, now: int, publishes: string -> bool, marks: string -> bool, rest: seq<Action>)
    requires due != [] && s.phase == Publishing(due)
    ensures var first := if publishes(due[0].id) then [Publish(true), Mark(now, marks(due[0].id))] else [Publish(false)];
      var after := Fire(s, due[0], now, publishes, marks).(phase := if |due| == 1 then Resting else Publishing(due[1..]));
      (Possible(s, first + rest) <==> Possible(after, rest)) && Exec(s, first + rest) == Exec(after, rest)
  {
    hide EventId;
    var first := if publishes(due[0].id) then [Publish(true), Mark(now, marks(due[0].id))] else [Publish(false)];
    assert (first + rest)[1..] == first[1..] + rest;
    if publishes(due[0].id) {
      assert (first[1..] + rest)[1..] == rest;
      var logged := Step(s, Publish(true));
      assert logged.phase == Marking(due);
    } else {
      assert first[1..] + rest == rest;
    }
  }

  /** The steps come to the whole sweep, one timer after another to the last, and then rest. */
  lemma {:induction false} SweepIsItsSteps(s: Sys, due: seq<Due>, now: int, publishes: string -> bool, marks: string -> bool)
    requires s.phase == if due == [] then Resting else Publishing(due)
    ensures Possible(s, StepsOf(due, now, publishes, marks))
    ensures Exec(s, StepsOf(due, now, publishes, marks)) == Swept(s, due, now, publishes, marks).(phase := Resting)
    decreases |due|
  {
    hide Possible, Exec, Fire, Swept;
    if due == [] {
      NoSteps(s, now, publishes, marks);
    } else {
      var after := Fire(s, due[0], now, publishes, marks).(phase := if |due| == 1 then Resting else Publishing(due[1..]));
      OneDue(s, due, now, publishes, marks, StepsOf(due[1..], now, publishes, marks));
      SweptFront(s, due, now, publishes, marks);
      SweepIsItsSteps(after, due[1..], now, publishes, marks);
      PhaseAlone(Fire(s, due[0], now, publishes, marks), after.phase, due[1..], now, publishes, marks);
    }
  }

  lemma NoSteps(s: Sys, now: int, publishes: string -> bool, marks: string -> bool)
    ensures Possible(s, []) && Exec(s, []) == s && Swept(s, [], now, publishes, marks) == s
  {
  }

  lemma {:induction false} PhaseAlone(s: Sys, phase: Phase, due: seq<Due>, now: int, publishes: string -> bool, marks: string -> bool)
    ensures Swept(s.(phase := phase), due, now, publishes, marks).(phase := Resting) == Swept(s, due, now, publishes, marks).(phase := Resting)
    decreases |due|
  {
    if due != [] {
      hide EventId, MarkFired, LogOnce;
      PhaseAlone(s, phase, due[..|due|-1], now, publishes, marks);
    }
  }
}
