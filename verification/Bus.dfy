/** The bus's own methods: publishing, the close-and-replace wake channel, and a
    subscriber's loop, each held to steps of the event log's protocol. */
module Bus {
  import opened EventLog

  ghost predicate Logged(log: seq<Rec>, id: string) {
    exists r :: r in log && r.id == id
  }

  class Journal {
    var log: seq<Rec>
    var offset: Recorded
    var dead: seq<int>

    constructor ()
      ensures log == [] && offset == Never && dead == []
    {
      log, offset, dead := [], Never, [];
    }

    /** Appends once per id: a second append of an id finds the first, and its number. */
    method Append(id: string, kind: string, n: int, fails: bool) returns (ok: bool, at: int)
      requires n > Head(log) && n > 0
      modifies `log
      ensures ok == !fails
      ensures log == if fails || Logged(old(log), id) then old(log) else old(log) + [Rec(n, id, kind)]
      ensures ok ==> (exists r :: r in log && r.id == id && r.n == at) && (!Logged(old(log), id) ==> at == n)
    {
      if fails {
        return false, 0;
      }
      var i := 0;
      while i < |log|
        invariant 0 <= i <= |log| && forall j :: 0 <= j < i ==> log[j].id != id
      {
        if log[i].id == id {
          assert log[i] in log;
          return true, log[i].n;
        }
        i := i + 1;
      }
      log := log + [Rec(n, id, kind)];
      assert log[|log|-1] in log;
      return true, n;
    }

    /** The first matching events past an offset, a batch of them at most. */
    method EventsAfter(kinds: seq<string>, after: int) returns (batch: seq<Rec>)
      ensures batch == Batch(kinds, log, after)
    {
      batch := [];
      var i := 0;
      while i < |log| && |batch| < BATCH_SIZE
        invariant 0 <= i <= |log| && |batch| <= BATCH_SIZE && batch == Pending(kinds, log[..i], after)
      {
        assert log[..i+1][..i] == log[..i] && log[..i+1][i] == log[i];
        if Matches(kinds, log[i]) && log[i].n > after {
          batch := batch + [log[i]];
        }
        i := i + 1;
      }
      PendingGrows(kinds, log, after, i);
      assert log[..|log|] == log;
    }

    method SetOffset(n: int, fails: bool)
      modifies `offset
      ensures offset == if fails then old(offset) else Raise(old(offset), n)
    {
      if !fails && !(offset.At? && offset.n > n) {
        offset := At(n);
      }
    }
  }

  lemma {:induction false} PendingGrows(kinds: seq<string>, log: seq<Rec>, after: int, i: nat)
    requires i <= |log|
    ensures Pending(kinds, log[..i], after) <= Pending(kinds, log, after)
    decreases |log|
  {
    if i < |log| {
      assert log[..|log|-1][..i] == log[..i];
      PendingGrows(kinds, log[..|log|-1], after, i);
    } else {
      assert log[..i] == log;
    }
  }

  class Channel {
    var closed: bool

    constructor ()
      ensures !closed
    {
      closed := false;
    }
  }

  /** The log as its process has it: the journal, and the wake channel, closed and replaced on
      each publish. `past` are the channels there have been in this process, the first of
      generation `first`; `sys` is the protocol state the steps of the publishers and of one
      subscriber, of these kinds, have led to. */
  class Log {
    const journal: Journal
    const kinds: seq<string>
    ghost const first: nat
    var notify: Channel
    ghost var past: seq<Channel>
    ghost var sys: Sys

    /** The channels of all generations so far but the last are closed. */
    ghost predicate Wakes()
      reads this, notify, past
    {
      && sys.generation == first + |past| && notify !in past && !notify.closed
      && forall i :: 0 <= i < |past| ==> past[i].closed
    }

    ghost predicate Tied()
      reads this, journal, notify, past
    {
      sys.log == journal.log && sys.recorded == journal.offset && Wakes()
    }

    /** The channel of a generation of this process. */
    ghost function ChannelOf(generation: nat): Channel
      requires first <= generation <= first + |past|
      reads this
    {
      if generation == first + |past| then notify else past[generation - first]
    }

    /** A process opens the log it finds. */
    constructor (journal: Journal, kinds: seq<string>, ghost sys: Sys)
      requires sys.log == journal.log && sys.recorded == journal.offset
      ensures Tied() && this.journal == journal && this.kinds == kinds && this.sys == sys && first == sys.generation
      ensures past == [] && fresh(notify)
    {
      this.journal, this.kinds, this.sys, first := journal, kinds, sys, sys.generation;
      notify := new Channel();
      past := [];
    }

    /** Every waiter taken so far finds its channel closed; the next one waits for the next. */
    method Wake(ghost n: int)
      requires Tied()
      modifies this`notify, this`past, this`sys, notify
      ensures Tied() && fresh(notify) && past == old(past) + [old(notify)] && old(notify).closed
      ensures sys == Step(kinds, old(sys), EventLog.Wake(n))
    {
      notify.closed := true;
      past := past + [notify];
      notify := new Channel();
      sys := Step(kinds, sys, EventLog.Wake(n));
    }

    method Waiter() returns (c: Channel)
      requires Tied()
      ensures c == notify == ChannelOf(sys.generation) && !c.closed
    {
      return notify;
    }

    /** An event is on disk before anyone is woken, and nobody is when it could not be put there;
        an event that was there already wakes all the same. */
    method Publish(id: string, kind: string, n: int, fails: bool) returns (ok: bool)
      requires Tied() && n > Head(journal.log) && n > 0
      modifies this`notify, this`past, this`sys, notify, journal`log
      ensures Tied() && ok == !fails
      ensures !ok ==> sys == old(sys) && notify == old(notify) && past == old(past)
      ensures ok ==> past == old(past) + [old(notify)] && old(notify).closed && Logged(journal.log, id)
      ensures ok && !Logged(old(journal.log), id) ==>
        Enabled(old(sys), Append(Rec(n, id, kind)))
        && sys == Step(kinds, Step(kinds, old(sys), Append(Rec(n, id, kind))), EventLog.Wake(n))
      ensures ok && Logged(old(journal.log), id) ==>
        exists r :: r in old(journal.log) && r.id == id && sys == Step(kinds, old(sys), EventLog.Wake(r.n))
    {
      var at: int;
      ok, at := journal.Append(id, kind, n, fails);
      if !ok {
        return;
      }
      if !Logged(old(journal.log), id) {
        sys := Step(kinds, sys, Append(Rec(n, id, kind)));
      }
      Wake(at);
    }
  }

  /** A subscriber that blocked on the channel of its generation is free to go, by the protocol,
      exactly when that channel is closed: the channels are what the generations count. */
  lemma ClosedIsFree(log: Log, waiter: Channel)
    requires log.Tied() && log.sys.phase.Blocked?
    requires log.first <= log.sys.phase.waiter <= log.sys.generation && waiter == log.ChannelOf(log.sys.phase.waiter)
    ensures waiter.closed <==> Enabled(log.sys, Unblock(false))
  {
  }

  /** No lost wake-up, in channels: whatever the interleaving, the channel a subscriber blocked on
      is closed if an event waits for it whose publisher has woken. */
  lemma WaiterIsClosed(log: Log, run: seq<Action>, r: Rec, waiter: Channel)
    requires log.Tied() && Possible(log.kinds, Init(), run) && log.sys == Exec(log.kinds, Init(), run)
    requires log.sys.phase.Blocked? && log.first <= log.sys.phase.waiter <= log.sys.generation
    requires waiter == log.ChannelOf(log.sys.phase.waiter)
    requires r in log.journal.log && Matches(log.kinds, r) && r.n > log.sys.phase.offset && r.n !in log.sys.unwoken
    ensures waiter.closed
  {
    NoLostWakeUp(log.kinds, run, r);
    ClosedIsFree(log, waiter);
  }

  lemma {:induction false} ExecAppend(kinds: seq<string>, s: Sys, run: seq<Action>, a: Action)
    requires Possible(kinds, s, run) && Enabled(Exec(kinds, s, run), a)
    ensures Possible(kinds, s, run + [a]) && Exec(kinds, s, run + [a]) == Step(kinds, Exec(kinds, s, run), a)
    decreases |run|
  {
    if run == [] {
      assert [a][1..] == [];
    } else {
      assert (run + [a])[1..] == run[1..] + [a];
      ExecAppend(kinds, Step(kinds, s, run[0]), run[1..], a);
    }
  }

  /** `t` is what a run of the protocol makes of `s`. */
  ghost predicate Follows(kinds: seq<string>, s: Sys, t: Sys) {
    exists run :: Possible(kinds, s, run) && Exec(kinds, s, run) == t
  }

  lemma FollowsStep(kinds: seq<string>, s: Sys, t: Sys, a: Action)
    requires Follows(kinds, s, t) && Enabled(t, a)
    ensures Follows(kinds, s, Step(kinds, t, a))
  {
    var run :| Possible(kinds, s, run) && Exec(kinds, s, run) == t;
    ExecAppend(kinds, s, run, a);
  }

  lemma FollowsSelf(kinds: seq<string>, s: Sys)
    ensures Follows(kinds, s, s)
  {
    assert Possible(kinds, s, []) && Exec(kinds, s, []) == s;
  }

  /** How the world treats one subscriber: its handler, its cancellation, its writes. */
  datatype World = World(handles: (int, nat) -> bool, cancelled: (int, nat) -> bool, interrupted: (int, nat) -> bool,
                         deadLetterFails: int -> bool, offsetFails: int -> bool)

  function FirstSuccess(w: World, n: int, from: nat): nat
    requires from <= MAX_ATTEMPTS
    decreases MAX_ATTEMPTS - from
  {
    if from == MAX_ATTEMPTS || w.handles(n, from) then from else FirstSuccess(w, n, from + 1)
  }

  /** It is the first try that works, of three. */
  lemma {:induction false} FirstSuccessIs(w: World, n: int, from: nat)
    requires from <= 3
    ensures var k := FirstSuccess(w, n, from);
      from <= k <= 3 && (k < 3 ==> w.handles(n, k)) && forall i :: from <= i < k ==> !w.handles(n, i)
    decreases 3 - from
  {
    if from < 3 && !w.handles(n, from) {
      FirstSuccessIs(w, n, from + 1);
    }
  }

  /** One subscriber of a log. */
  class Subscriber {
    const log: Log
    var offset: int

    constructor (log: Log)
      ensures this.log == log
    {
      this.log := log;
      offset := 0;
    }

    /** Fixes where the subscriber begins: its recorded offset, or the head when it never ran. */
    method StartingPoint(offsetUnreadable: bool, headUnreadable: bool, setFails: bool) returns (ok: bool)
      requires log.Tied() && log.sys.phase.Down?
      modifies this, log`sys, log.journal`offset
      ensures ok == !(offsetUnreadable || (old(log.journal.offset).Never? && headUnreadable))
      ensures !ok ==> log.sys == old(log.sys) && log.journal.offset == old(log.journal.offset)
      ensures ok ==> log.Tied() && log.sys == Step(log.kinds, old(log.sys), Start(!setFails)) && log.sys.phase == Top(offset)
      ensures ok ==> offset == if old(log.journal.offset).At? then old(log.journal.offset).n else Head(log.journal.log)
    {
      if offsetUnreadable {
        return false;
      }
      if log.journal.offset.Never? {
        if headUnreadable {
          return false;
        }
        offset := if |log.journal.log| == 0 then 0 else log.journal.log[|log.journal.log|-1].n;
        log.journal.SetOffset(offset, setFails);
      } else {
        offset := log.journal.offset.n;
      }
      log.sys := Step(log.kinds, log.sys, Start(!setFails));
      return true;
    }

    /** Tries one event up to three times; false only when cancelled, which leaves it unacked. */
    method Deliver(w: World, rec: Rec) returns (settled: bool)
      requires log.Tied() && log.sys.phase.Trying? && log.sys.phase.tries == 0 && log.sys.phase.rest != [] && log.sys.phase.rest[0] == rec
      modifies log`sys, log.journal`dead
      ensures log.Tied() && Follows(log.kinds, old(log.sys), log.sys)
      ensures settled ==> log.sys.phase == Settled(old(log.sys.phase.offset), old(log.sys.phase.rest))
      ensures settled ==> var k := FirstSuccess(w, rec.n, 0);
        && log.sys.fates == old(log.sys.fates)[rec.n := if k < MAX_ATTEMPTS then Succeeded else DeadLettered]
        && log.journal.dead == (if k == MAX_ATTEMPTS && !w.deadLetterFails(rec.n) then old(log.journal.dead) + [rec.n] else old(log.journal.dead))
      ensures !settled ==>
        && log.sys.fates == old(log.sys.fates) && log.journal.dead == old(log.journal.dead)
        && exists k: nat :: k < MAX_ATTEMPTS && (w.cancelled(rec.n, k) || w.interrupted(rec.n, k))
    {
      FollowsSelf(log.kinds, log.sys);
      var attempt: nat := 0;
      while attempt < MAX_ATTEMPTS
        invariant attempt <= MAX_ATTEMPTS && log.Tied() && Follows(log.kinds, old(log.sys), log.sys)
        invariant attempt < MAX_ATTEMPTS ==> log.sys.phase == old(log.sys.phase).(tries := attempt) && log.sys.fates == old(log.sys.fates)
        invariant attempt == MAX_ATTEMPTS ==> log.sys.phase == Settled(old(log.sys.phase.offset), old(log.sys.phase.rest))
        invariant attempt == MAX_ATTEMPTS ==> log.sys.fates == old(log.sys.fates)[rec.n := DeadLettered]
        invariant log.journal.dead == old(log.journal.dead)
        invariant FirstSuccess(w, rec.n, attempt) == FirstSuccess(w, rec.n, 0)
      {
        if w.cancelled(rec.n, attempt) {
          return false;
        }
        var ok := w.handles(rec.n, attempt);
        if !ok && attempt + 1 < MAX_ATTEMPTS && w.interrupted(rec.n, attempt) {
          FollowsStep(log.kinds, old(log.sys), log.sys, Attempt(false));
          log.sys := Step(log.kinds, log.sys, Attempt(false));
          return false;
        }
        FollowsStep(log.kinds, old(log.sys), log.sys, Attempt(ok));
        log.sys := Step(log.kinds, log.sys, Attempt(ok));
        if ok {
          return true;
        }
        attempt := attempt + 1;
      }
      if !w.deadLetterFails(rec.n) {
        log.journal.dead := log.journal.dead + [rec.n];
      }
      return true;
    }

    /** Records an event as done, on disk when that works. */
    method Ack(w: World, rec: Rec)
      requires log.Tied() && log.sys.phase.Settled? && log.sys.phase.rest != [] && log.sys.phase.rest[0] == rec
      modifies this, log`sys, log.journal`offset
      ensures log.Tied() && offset == rec.n && log.sys == Step(log.kinds, old(log.sys), EventLog.Ack(!w.offsetFails(rec.n)))
    {
      offset := rec.n;
      log.journal.SetOffset(offset, w.offsetFails(rec.n));
      log.sys := Step(log.kinds, log.sys, EventLog.Ack(!w.offsetFails(rec.n)));
    }

    /** One event of a batch, tried and then recorded. */
    method Take(w: World, rec: Rec) returns (settled: bool)
      requires log.Tied() && log.sys.phase.Trying? && log.sys.phase.offset == offset
      requires log.sys.phase.tries == 0 && log.sys.phase.rest != [] && log.sys.phase.rest[0] == rec
      modifies this, log`sys, log.journal`offset, log.journal`dead
      ensures log.Tied() && Follows(log.kinds, old(log.sys), log.sys)
      ensures !settled ==> offset == old(offset)
      ensures settled ==> offset == rec.n && var rest := old(log.sys.phase.rest)[1..];
        log.sys.phase == if rest == [] then Top(offset) else Trying(offset, rest, 0)
    {
      settled := Deliver(w, rec);
      if settled {
        FollowsStep(log.kinds, old(log.sys), log.sys, EventLog.Ack(!w.offsetFails(rec.n)));
        Ack(w, rec);
      }
    }

    method TakeBatch(w: World, batch: seq<Rec>) returns (more: bool)
      requires log.Tied() && batch != [] && log.sys.phase == Trying(offset, batch, 0)
      modifies this, log`sys, log.journal`offset, log.journal`dead
      ensures log.Tied() && Follows(log.kinds, old(log.sys), log.sys)
      ensures more ==> log.sys.phase == Top(offset) && offset == batch[|batch|-1].n
      ensures !more ==> offset == old(offset) || exists r :: r in batch && offset == r.n
    {
      FollowsSelf(log.kinds, log.sys);
      var i := 0;
      while i < |batch|
        invariant 0 <= i <= |batch| && log.Tied() && Follows(log.kinds, old(log.sys), log.sys)
        invariant offset == if i > 0 then batch[i-1].n else old(offset)
        invariant log.sys.phase == if i < |batch| then Trying(offset, batch[i..], 0) else Top(offset)
      {
        ghost var s := log.sys;
        var settled := Take(w, batch[i]);
        FollowsAfter(log.kinds, old(log.sys), s, log.sys);
        if !settled {
          assert i > 0 ==> batch[i-1] in batch;
          return false;
        }
        assert batch[i..][1..] == batch[i+1..];
        i := i + 1;
      }
      return true;
    }

    /** One turn of the subscriber's loop: the waiter first, then a read, then the batch. */
    method Round(w: World, readFails: bool) returns (waiter: Channel, more: bool, blocked: bool)
      requires log.Tied() && log.sys.phase == Top(offset)
      modifies this, log`sys, log.journal`offset, log.journal`dead
      ensures log.Tied() && Follows(log.kinds, old(log.sys), log.sys)
      ensures waiter == old(log.notify) && !waiter.closed
      ensures blocked ==> more && Batch(log.kinds, log.journal.log, offset) == []
      ensures blocked ==> log.sys.phase == Blocked(offset, log.sys.generation) && waiter == log.ChannelOf(log.sys.generation)
      ensures blocked ==> (waiter.closed <==> Enabled(log.sys, Unblock(false)))
      ensures more && !blocked ==> log.sys.phase == Top(offset)
      ensures more && !blocked && !readFails ==> var batch := Batch(log.kinds, log.journal.log, old(offset));
        batch != [] && offset == batch[|batch|-1].n
      ensures !more ==> offset == old(offset) || exists r :: r in Batch(log.kinds, log.journal.log, old(offset)) && offset == r.n
    {
      FollowsSelf(log.kinds, log.sys);
      waiter := log.Waiter();
      FollowsStep(log.kinds, old(log.sys), log.sys, TakeWaiter);
      log.sys := Step(log.kinds, log.sys, TakeWaiter);
      if readFails {
        FollowsStep(log.kinds, old(log.sys), log.sys, ReadFails);
        log.sys := Step(log.kinds, log.sys, ReadFails);
        return waiter, true, false;
      }
      var batch := log.journal.EventsAfter(log.kinds, offset);
      FollowsStep(log.kinds, old(log.sys), log.sys, Read);
      log.sys := Step(log.kinds, log.sys, Read);
      if |batch| == 0 {
        return waiter, true, true;
      }
      ghost var s := log.sys;
      more := TakeBatch(w, batch);
      FollowsAfter(log.kinds, old(log.sys), s, log.sys);
      return waiter, more, false;
    }

    /** The wait of a subscriber that found nothing: over once its channel is closed, or at a
        poll, which is when the protocol lets it go. */
    method Await(waiter: Channel, polled: bool) returns (woken: bool)
      requires log.Tied() && log.sys.phase.Blocked? && log.first <= log.sys.phase.waiter <= log.sys.generation
      requires waiter == log.ChannelOf(log.sys.phase.waiter) && log.sys.phase.offset == offset
      modifies log`sys
      ensures log.Tied() && woken == Enabled(old(log.sys), Unblock(polled)) == (polled || waiter.closed)
      ensures log.sys == if woken then Step(log.kinds, old(log.sys), Unblock(polled)) else old(log.sys)
      ensures woken ==> log.sys.phase == Top(offset)
    {
      ClosedIsFree(log, waiter);
      if !polled && !waiter.closed {
        return false;
      }
      log.sys := Step(log.kinds, log.sys, Unblock(polled));
      return true;
    }
  }

  lemma FollowsAfter(kinds: seq<string>, s: Sys, t: Sys, u: Sys)
    requires Follows(kinds, s, t) && Follows(kinds, t, u)
    ensures Follows(kinds, s, u)
  {
    var first :| Possible(kinds, s, first) && Exec(kinds, s, first) == t;
    var then_ :| Possible(kinds, t, then_) && Exec(kinds, t, then_) == u;
    ExecThen(kinds, s, first, then_);
  }

  lemma {:induction false} ExecThen(kinds: seq<string>, s: Sys, first: seq<Action>, rest: seq<Action>)
    requires Possible(kinds, s, first) && Possible(kinds, Exec(kinds, s, first), rest)
    ensures Possible(kinds, s, first + rest) && Exec(kinds, s, first + rest) == Exec(kinds, Exec(kinds, s, first), rest)
    decreases |first|
  {
    if first == [] {
      assert first + rest == rest;
    } else {
      assert (first + rest)[1..] == first[1..] + rest;
      ExecThen(kinds, Step(kinds, s, first[0]), first[1..], rest);
    }
  }
}
