/** Which events a subscriber is given, told by the kinds it asked for. */
module EventFacts {
  import opened EventLog

  /** A record of one of the kinds asked for; of any, when none was named. */
  predicate Wanted(kinds: seq<string>, r: Rec) {
    kinds == [] || exists i :: 0 <= i < |kinds| && kinds[i] == r.kind
  }

  lemma WantedMatches(kinds: seq<string>, r: Rec)
    ensures Matches(kinds, r) <==> Wanted(kinds, r)
  {
  }

  /** A read gives records that are wanted and past the offset, in the order of the log, 128 at
      most; and one it leaves out comes after a full batch. */
  lemma BatchSpelled(kinds: seq<string>, log: seq<Rec>, offset: int)
    requires Ordered(log)
    ensures var batch := Batch(kinds, log, offset);
      && |batch| <= 128
      && (forall r :: r in batch ==> r in log && Wanted(kinds, r) && r.n > offset)
      && (forall i, j :: 0 <= i < j < |batch| ==> batch[i].n < batch[j].n)
      && (forall r :: r in log && Wanted(kinds, r) && r.n > offset && r !in batch ==>
            |batch| == 128 && forall g :: g in batch ==> g.n < r.n)
  {
    hide Pending, Matches, Wanted;
    var p, batch := Pending(kinds, log, offset), Batch(kinds, log, offset);
    PendingMembers(kinds, log, offset);
    forall r: Rec ensures Matches(kinds, r) <==> Wanted(kinds, r) {
      WantedMatches(kinds, r);
    }
    assert forall j :: 0 <= j < |batch| ==> p[j] == batch[j] && p[j] in batch;
    forall r | r in p && r !in batch ensures |batch| == 128 && forall g :: g in batch ==> g.n < r.n {
      var i :| 0 <= i < |p| && p[i] == r;
    }
  }

  /** Whatever was tried was asked for. */
  ghost predicate TriedWanted(kinds: seq<string>, s: Sys) {
    forall i :: 0 <= i < |s.tries| ==> IsWanted(kinds, s.log, s.tries[i].n)
  }

  ghost predicate IsWanted(kinds: seq<string>, log: seq<Rec>, n: int) {
    exists r :: r in log && r.n == n && Wanted(kinds, r)
  }

  lemma WantedStays(kinds: seq<string>, log: seq<Rec>, more: Rec, n: int)
    requires IsWanted(kinds, log, n)
    ensures IsWanted(kinds, log + [more], n)
  {
    hide Wanted;
    var r :| r in log && r.n == n && Wanted(kinds, r);
    assert r in log + [more];
  }

  lemma StepWanted(kinds: seq<string>, s: Sys, a: Action)
    requires Inv(kinds, s) && Enabled(s, a) && TriedWanted(kinds, s)
    ensures TriedWanted(kinds, Step(kinds, s, a))
  {
    hide Batch, Pending, Matches, Wanted, Covered, FatesEarned, FirstsInOrder, Fails;
    var s' := Step(kinds, s, a);
    if a.Attempt? {
      var r := s.phase.rest[0];
      PendingMembers(kinds, s.log, s.phase.offset);
      assert r in Pending(kinds, s.log, s.phase.offset);
      WantedMatches(kinds, r);
      assert IsWanted(kinds, s.log, r.n);
    }
    if a.Append? {
      forall i | 0 <= i < |s.tries| ensures IsWanted(kinds, s'.log, s.tries[i].n) {
        assert IsWanted(kinds, s.log, s.tries[i].n);
        WantedStays(kinds, s.log, a.rec, s.tries[i].n);
      }
    }
  }

  lemma {:induction false} RunWanted(kinds: seq<string>, s: Sys, run: seq<Action>)
    requires Inv(kinds, s) && Possible(kinds, s, run) && TriedWanted(kinds, s)
    ensures TriedWanted(kinds, Exec(kinds, s, run))
    decreases |run|
  {
    hide Inv, Step, Enabled, TriedWanted;
    if run != [] {
      StepHolds(kinds, s, run[0]);
      StepWanted(kinds, s, run[0]);
      RunWanted(kinds, Step(kinds, s, run[0]), run[1..]);
    }
  }

  /** Over any run from an empty log: nothing is tried but what was asked for; and every event
      asked for, between the registration and the recorded offset, was handled once at least, or
      tried three times in vain. */
  lemma AskedAreDelivered(kinds: seq<string>, run: seq<Action>)
    requires Possible(kinds, Init(), run)
    ensures var s := Exec(kinds, Init(), run);
      && (forall i :: 0 <= i < |s.tries| ==> IsWanted(kinds, s.log, s.tries[i].n))
      && (s.recorded.At? ==> forall r :: r in s.log && Wanted(kinds, r) && s.base < r.n <= s.recorded.n ==>
            Try(r.n, true) in s.tries || Fails(s.tries, r.n) >= 3)
  {
    hide Inv, Matches, Wanted, IsWanted;
    InitHolds(kinds);
    RunWanted(kinds, Init(), run);
    DeliveredAtLeastOnce(kinds, run, 0);
    forall r: Rec ensures Matches(kinds, r) <==> Wanted(kinds, r) {
      WantedMatches(kinds, r);
    }
  }

  /** How often a handler failed an event. */
  lemma {:induction false} FailsCount(tries: seq<Try>, n: int)
    ensures Fails(tries, n) == |set i | 0 <= i < |tries| && tries[i] == Try(n, false)|
    decreases |tries|
  {
    var all := set i | 0 <= i < |tries| && tries[i] == Try(n, false);
    if tries == [] {
      assert all == {};
    } else {
      var last := |tries| - 1;
      FailsCount(tries[..last], n);
      var before := set i | 0 <= i < last && tries[..last][i] == Try(n, false);
      assert before == set i | 0 <= i < last && tries[i] == Try(n, false);
      assert all == before + if tries[last] == Try(n, false) then {last} else {};
    }
  }

  /** Nothing past `from` in a log of tries is of an event up to `n`. */
  ghost predicate TriedPast(tries: seq<Try>, from: nat, n: int) {
    from <= |tries| && forall i :: from <= i < |tries| ==> tries[i].n > n
  }

  lemma StepPast(kinds: seq<string>, s: Sys, a: Action, from: nat, n: int)
    requires Inv(kinds, s) && Enabled(s, a) && s.recorded.At? && s.recorded.n >= n && TriedPast(s.tries, from, n)
    ensures var s' := Step(kinds, s, a); s'.recorded.At? && s'.recorded.n >= n && TriedPast(s'.tries, from, n)
  {
    hide Batch, Pending, Matches, Covered, FatesEarned, FirstsInOrder, Fails;
    if a.Attempt? {
      PendingMembers(kinds, s.log, s.phase.offset);
      assert s.phase.rest[0] in Pending(kinds, s.log, s.phase.offset);
    }
  }

  lemma {:induction false} RunPast(kinds: seq<string>, s: Sys, run: seq<Action>, from: nat, n: int)
    requires Inv(kinds, s) && Possible(kinds, s, run) && s.recorded.At? && s.recorded.n >= n && TriedPast(s.tries, from, n)
    ensures TriedPast(Exec(kinds, s, run).tries, from, n)
    decreases |run|
  {
    hide Inv, Step, Enabled, TriedPast;
    if run != [] {
      StepHolds(kinds, s, run[0]);
      StepPast(kinds, s, run[0], from, n);
      RunPast(kinds, Step(kinds, s, run[0]), run[1..], from, n);
    }
  }

  /** An event acknowledged, when that could be written, is never tried again, nor any before it,
      whatever deaths and restarts come after. */
  lemma AckedIsDone(kinds: seq<string>, s: Sys, run: seq<Action>)
    requires Inv(kinds, s) && Enabled(s, Ack(true)) && Possible(kinds, Step(kinds, s, Ack(true)), run)
    ensures TriedPast(Exec(kinds, Step(kinds, s, Ack(true)), run).tries, |s.tries|, s.phase.rest[0].n)
  {
    hide Inv, Batch, Pending;
    StepHolds(kinds, s, Ack(true));
    RunPast(kinds, Step(kinds, s, Ack(true)), run, |s.tries|, s.phase.rest[0].n);
  }

  /** A subscriber cancelled, or dead, is down; what was logged, recorded and handled stays. */
  lemma StopsKeepTheRecord(kinds: seq<string>, s: Sys, a: Action)
    requires a.Crash? || (a.Cancel? && Enabled(s, a))
    ensures var s' := Step(kinds, s, a);
      s'.phase == Down && s'.log == s.log && s'.recorded == s.recorded && s'.fates == s.fates && s'.tries == s.tries && s'.base == s.base
  {
  }
}
