/** The syncer's own loops, over the fields they update, held to the tick they compute. */
module SyncerLoop {
  import opened Basics
  import opened Sorting
  import opened ChatOrder
  import opened Syncer

  /** The store that keeps each chat's cursor across restarts. */
  class Cursors {
    var saved: map<string, Cursor>

    constructor ()
      ensures saved == map[]
    {
      saved := map[];
    }

    method Save(k: string, c: Cursor, result: SaveResult) returns (ok: bool)
      modifies this
      ensures ok == result.Saved?
      ensures saved == if result.NotSaved? then old(saved) else old(saved)[k := c]
    {
      if !result.NotSaved? {
        saved := saved[k := c];
      }
      return result.Saved?;
    }
  }

  class Result {
    var batches: int
    var more: bool
    var stalled: seq<string>

    constructor ()
      ensures batches == 0 && !more && stalled == []
    {
      batches, more, stalled := 0, false, [];
    }
  }

  /** How many of `unread` one batch takes, its lines fitting `limit`. */
  method TakeBatch(line: Message -> string, unread: seq<Message>, limit: int) returns (take: seq<Message>, lines: seq<string>)
    ensures take == unread[..TakeFrom(line, unread, limit, false, 0)]
    ensures lines != [] <==> Readable(line, take)
  {
    take, lines := [], [];
    var size: nat := 0;
    var i := 0;
    while i < |unread|
      invariant 0 <= i <= |unread| && take == unread[..i]
      invariant i + TakeFrom(line, unread[i..], limit, i > 0, size) == TakeFrom(line, unread, limit, false, 0)
      invariant lines != [] <==> Readable(line, take)
    {
      var m := unread[i];
      assert unread[i..][1..] == unread[i+1..];
      var text := line(m);
      if |take| > 0 && size + |text| > limit {
        break;
      }
      assert take + [m] == unread[..i+1];
      assert m in take + [m];
      assert forall x :: x in take + [m] <==> x in take || x == m;
      take := take + [m];
      if text != "" {
        lines := lines + [text];
      }
      size := size + |text|;
      i := i + 1;
    }
  }

  /** Where one answer moves the cursor, and the lines it gives the model. */
  method ReadAnswer(w: World, limit: int, p: Pending, raw: seq<Message>) returns (next: Cursor, lines: seq<string>)
    ensures var r := ReadingOf(LinesOf(w, p.chat), limit, p.chat.lastMessageAt, p.cur, raw);
      next == r.next && (lines != [] <==> r.readable)
  {
    var unread := UnreadOf(raw, p.cur);
    var take;
    take, lines := TakeBatch(LinesOf(w, p.chat), unread, limit);
    if |unread| > 0 {
      next := CursorOn(take[|take|-1]);
    } else if |raw| == 0 && p.chat.lastMessageAt > p.cur.at {
      next := Cursor(p.chat.lastMessageAt, "");
    } else {
      next := p.cur;
    }
  }

  method CountBacklog(queue: seq<Pending>) returns (history: int)
    ensures history == Backlog(queue)
  {
    history := 0;
    for i := 0 to |queue|
      invariant history == Backlog(queue[..i])
    {
      BacklogAppend(queue[..i], queue[i]);
      assert queue[..i+1] == queue[..i] + [queue[i]];
      if !queue[i].live {
        history := history + 1;
      }
    }
    assert queue[..|queue|] == queue;
  }

  class SyncLoop {
    const cfg: Config
    const cur: Cursors
    var ticks: int
    var served: map<string, int>
    var current: set<string>
    ghost var log: seq<Event>

    /** A syncer with the defaults its configuration leaves out. */
    constructor (batchesPerTick: int, batchChars: int, batchMessages: int, lookback: int, since: Since,
                 deny: set<string>, cur: Cursors)
      ensures this.cur == cur && ticks == 0 && served == map[] && current == {} && log == []
      ensures cfg.batchesPerTick == (if batchesPerTick <= 0 then 12 else batchesPerTick)
      ensures cfg.batchChars == (if batchChars <= 0 then 8000 else batchChars)
      ensures cfg.batchMessages == (if batchMessages <= 0 then 150 else batchMessages)
      ensures cfg.lookback == (if lookback <= 0 then 7 * 24 * 60 * MINUTE else lookback)
      ensures cfg.since == since && cfg.deny == deny
    {
      this.cfg := Config(if batchesPerTick <= 0 then 12 else batchesPerTick,
                         if batchChars <= 0 then 8000 else batchChars,
                         if batchMessages <= 0 then 150 else batchMessages,
                         since,
                         if lookback <= 0 then 7 * 24 * 60 * MINUTE else lookback,
                         deny);
      this.cur := cur;
      ticks, served, current, log := 0, map[], {}, [];
    }

    ghost function Mem(): Memory
      reads this
    {
      Memory(ticks, served, current)
    }

    ghost function Now(res: Result, liveUsed: int, history: int): State
      reads this, cur, res
    {
      State(cur.saved, served, current, res.batches, res.stalled, liveUsed, history, log)
    }

    /** What an answer that was read leads to: a stall, or extraction and then the save. */
    method Settle(w: World, p: Pending, next: Cursor, lines: seq<string>, res: Result, ghost r: Reading)
      returns (done: bool, err: bool, ghost outcome: Outcome)
      requires cur as object != this && cur as object != res && this as object != res
      requires next == r.next && (lines != [] <==> r.readable)
      modifies cur, this`current, res`batches, res`stalled
      ensures outcome == OutcomeOf(w, p.chat, p.cur, r)
      ensures forall raw :: var e := Event(p.chat, p.live, p.cur, raw, r, outcome);
        && Now(res, 0, 0).(log := log + [e]) == Record(old(Now(res, 0, 0)), e)
        && err == e.Error() && (!err ==> done == e.Done())
    {
      var k := Key(p.chat);
      outcome := OutcomeOf(w, p.chat, p.cur, r);
      if !p.cur.Before(next) {
        if p.chat.lastMessageAt > p.cur.at {
          res.stalled := res.stalled + [k];
        } else {
          current := current + {k};
        }
        return true, false, outcome;
      }
      if |lines| > 0 {
        res.batches := res.batches + 1;
        if !w.extract(k, p.cur) {
          return false, true, outcome;
        }
      }
      var ok := cur.Save(k, next, w.save(k, next));
      if !ok {
        return false, true, outcome;
      }
      done := p.chat.lastMessageAt <= next.at;
      if done {
        current := current + {k};
      }
      return done, false, outcome;
    }

    /** One batch of a chat: read, then extracted, and only then its cursor saved. */
    method Batch(w: World, p: Pending, res: Result) returns (next: Cursor, done: bool, err: bool)
      requires cur as object != this && cur as object != res && this as object != res
      modifies this, cur, res`batches, res`stalled
      ensures Now(res, 0, 0) == Record(old(Now(res, 0, 0)), EventOf(cfg, w, p))
      ensures err == EventOf(cfg, w, p).Error()
      ensures !err ==> done == EventOf(cfg, w, p).Done() && (!done ==> next == EventOf(cfg, w, p).reading.next)
      ensures ticks == old(ticks)
    {
      ghost var e := EventOf(cfg, w, p);
      var answer := w.messages(Key(p.chat), p.cur);
      if answer.Failed? {
        log := log + [e];
        return p.cur, false, true;
      }
      var lines;
      next, lines := ReadAnswer(w, cfg.batchChars, p, answer.value);
      ghost var outcome;
      done, err, outcome := Settle(w, p, next, lines, res, e.reading);
      assert e == Event(p.chat, p.live, p.cur, answer.value, e.reading, outcome);
      log := log + [e];
    }

    /** The chats with something to read, in the order they were listed. */
    method Listed(w: World, chats: seq<Chat>) returns (r: Answer<seq<Pending>>)
      ensures r == Queue(cfg, w, cur.saved, current, chats)
    {
      var queue := [];
      for i := 0 to |chats|
        invariant Queue(cfg, w, cur.saved, current, chats[..i]) == Ok(queue)
      {
        var c := chats[i];
        assert chats[..i+1][..i] == chats[..i] && chats[..i+1][i] == c;
        if Denied(cfg, c) {
          continue;
        }
        var at := Position(cfg, w, cur.saved, c);
        if at.Failed? {
          QueueFails(cfg, w, cur.saved, current, chats, i + 1);
          return Failed;
        }
        if c.lastMessageAt > at.value.at {
          queue := queue + [Pending(c, at.value, Key(c) in current)];
        }
      }
      assert chats[..|chats|] == chats;
      return Ok(queue);
    }

    /** One turn for a chat: a batch, and what it used up. */
    method Turn(w: World, p: Pending, res: Result, liveUsed0: int, history0: int)
      returns (at: Cursor, done: bool, err: bool, liveUsed: int, history: int)
      requires cur as object != this && cur as object != res && this as object != res
      modifies this, cur, res`batches, res`stalled
      ensures ticks == old(ticks) && err == EventOf(cfg, w, p).Error()
      ensures var e, s := EventOf(cfg, w, p), Record(old(Now(res, liveUsed0, history0)), EventOf(cfg, w, p));
        Now(res, liveUsed, history) == if err then s else Serve(s, e, ticks)
      ensures !err ==> done == EventOf(cfg, w, p).Done() && (!done ==> at == EventOf(cfg, w, p).reading.next)
    {
      liveUsed, history := liveUsed0, history0;
      var before := res.batches;
      at, done, err := Batch(w, p, res);
      if err {
        return;
      }
      served := served[Key(p.chat) := ticks];
      if p.live {
        liveUsed := liveUsed + (res.batches - before);
      }
      if done && !p.live {
        history := history - 1;
      }
    }

    /** One batch for each chat of the queue, while budget remains. */
    method RunPass(w: World, queue: seq<Pending>, res: Result, liveUsed0: int, history0: int)
      returns (next: seq<Pending>, liveUsed: int, history: int, stop: bool, failed: bool)
      requires cur as object != this && cur as object != res && this as object != res && !res.more
      modifies this, cur, res
      ensures ticks == old(ticks) && res.more == stop && (failed ==> stop)
      ensures var r := Pass(cfg, w, ticks, queue, [], old(Now(res, liveUsed0, history0)));
        && r == (if failed then Broke(r.s) else if stop then OutOfBudget(r.s) else Through(next, r.s))
        && r.s == Now(res, liveUsed, history)
    {
      next, liveUsed, history := [], liveUsed0, history0;
      ghost var pass := Pass(cfg, w, ticks, queue, next, Now(res, liveUsed, history));
      var liveCap := cfg.batchesPerTick - cfg.batchesPerTick / 4;
      var i := 0;
      while i < |queue|
        invariant 0 <= i <= |queue| && ticks == old(ticks) && !res.more
        invariant Pass(cfg, w, ticks, queue[i..], next, Now(res, liveUsed, history)) == pass
        decreases |queue| - i
      {
        var p := queue[i];
        assert queue[i..][0] == p && queue[i..][1..] == queue[i+1..];
        if res.batches >= cfg.batchesPerTick {
          res.more := true;
          return next, liveUsed, history, true, false;
        }
        i := i + 1;
        if p.live && history > 0 && liveUsed >= liveCap {
          next := next + [p];
          continue;
        }
        var at, done, err;
        at, done, err, liveUsed, history := Turn(w, p, res, liveUsed, history);
        if err {
          res.more := true;
          return next, liveUsed, history, true, true;
        }
        if !done {
          next := next + [p.(cur := at)];
        }
      }
      assert queue[i..] == [];
      return next, liveUsed, history, false, false;
    }

    /** Passes until nothing is left to read, or the tick must stop. */
    method RunPasses(w: World, queue0: seq<Pending>, res: Result) returns (stop: bool, failed: bool, ghost s: State)
      requires Finite(w)
      requires cur as object != this && cur as object != res && this as object != res && !res.more
      modifies this, cur, res
      ensures ticks == old(ticks) && res.more == stop && (failed ==> stop)
      ensures s == Now(res, s.liveUsed, s.history)
      ensures Passes(cfg, w, ticks, queue0, old(Now(res, 0, Backlog(queue0)))) ==
              if failed then Broke(s) else if stop then OutOfBudget(s) else Through([], s)
    {
      var queue := queue0;
      var liveUsed := 0;
      var history := CountBacklog(queue);
      ghost var outcome := Passes(cfg, w, ticks, queue, Now(res, liveUsed, history));
      while |queue| > 0
        invariant history == Backlog(queue) && ticks == old(ticks) && !res.more
        invariant Passes(cfg, w, ticks, queue, Now(res, liveUsed, history)) == outcome
        decreases Work(w, queue)
      {
        PassProgress(cfg, w, ticks, queue, [], Now(res, liveUsed, history));
        queue, liveUsed, history, stop, failed := RunPass(w, queue, res, liveUsed, history);
        if stop {
          s := Now(res, liveUsed, history);
          return;
        }
      }
      return false, false, Now(res, liveUsed, history);
    }

    /** One tick, with a result of its own to fill; `log` is then this tick's batches. */
    method Tick(w: World, res: Result) returns (failed: bool)
      requires Finite(w)
      requires cur as object != this && cur as object != res && this as object != res
      requires res.batches == 0 && !res.more && res.stalled == []
      modifies this, cur, res
      ensures var t := TickOf(cfg, w, old(Mem()), old(cur.saved));
        && Mem() == t.mem && cur.saved == t.saved && failed == t.failed && log == t.s.log
        && res.batches == t.batches && res.more == t.more && res.stalled == t.stalled
    {
      ticks := ticks + 1;
      log := [];
      if w.chats.Failed? {
        return true;
      }
      var listed := Listed(w, w.chats.value);
      if listed.Failed? {
        return true;
      }
      var queue := StableSort(listed.value, SoonerIn(served));
      assert InitialState(old(Mem()), cur.saved, queue) == Now(res, 0, Backlog(queue));
      var stop;
      ghost var s;
      stop, failed, s := RunPasses(w, queue, res);
    }
  }

  lemma {:induction false} QueueFails(cfg: Config, w: World, saved: map<string, Cursor>, current: set<string>,
                                      chats: seq<Chat>, n: nat)
    requires n <= |chats| && Queue(cfg, w, saved, current, chats[..n]).Failed?
    ensures Queue(cfg, w, saved, current, chats).Failed?
    decreases |chats|
  {
    if n < |chats| {
      assert chats[..|chats|-1][..n] == chats[..n];
      QueueFails(cfg, w, saved, current, chats[..|chats|-1], n);
    } else {
      assert chats[..n] == chats;
    }
  }
}
