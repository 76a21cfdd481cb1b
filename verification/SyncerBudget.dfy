/** How a tick's budget is shared, and that no chat waits for its history for ever. */
module SyncerBudget {
  import opened Sorting
  import opened ChatOrder
  import opened Syncer
  import opened SyncerSafety

  /** Batches spent so far on history. */
  function HistoryUsed(s: State): int {
    s.batches - s.liveUsed
  }

  /** The budget holds, and while history waits new messages keep to their share. */
  ghost predicate WithinShare(cfg: Config, s: State) {
    && 0 <= s.liveUsed && 0 <= HistoryUsed(s)
    && s.batches <= cfg.batchesPerTick
    && (s.history > 0 ==> s.liveUsed <= LiveCap(cfg.batchesPerTick))
  }

  lemma {:induction false} PassShares(cfg: Config, w: World, tick: int, queue: seq<Pending>, next: seq<Pending>, s: State)
    requires WithinShare(cfg, s)
    ensures var r := Pass(cfg, w, tick, queue, next, s);
      && r.s.batches <= cfg.batchesPerTick
      && (!r.Broke? ==> WithinShare(cfg, r.s))
      && (r.OutOfBudget? ==> r.s.batches == cfg.batchesPerTick)
    decreases |queue|
  {
    if queue != [] && s.batches < cfg.batchesPerTick {
      var p, rest := queue[0], queue[1..];
      if Waits(cfg, p, s) {
        PassShares(cfg, w, tick, rest, next + [p], s);
      } else {
        var e := EventOf(cfg, w, p);
        if !e.Error() {
          PassShares(cfg, w, tick, rest, if e.Done() then next else next + [p.(cur := e.reading.next)],
                     Serve(Record(s, e), e, tick));
        }
      }
    }
  }

  lemma {:induction false} PassesShare(cfg: Config, w: World, tick: int, queue: seq<Pending>, s: State)
    requires Finite(w) && s.history == Backlog(queue) && WithinShare(cfg, s)
    ensures var r := Passes(cfg, w, tick, queue, s);
      && r.s.batches <= cfg.batchesPerTick
      && (!r.Broke? ==> WithinShare(cfg, r.s))
      && (r.OutOfBudget? ==> r.s.batches == cfg.batchesPerTick)
    decreases Work(w, queue)
  {
    if queue != [] {
      PassProgress(cfg, w, tick, queue, [], s);
      PassShares(cfg, w, tick, queue, [], s);
      var r := Pass(cfg, w, tick, queue, [], s);
      if r.Through? {
        PassesShare(cfg, w, tick, r.next, r.s);
      }
    }
  }

  /** A tick never makes more batches than its budget; and one that stops on it while
      history waits has given history at least a quarter. */
  lemma TickShares(cfg: Config, w: World, mem: Memory, saved: map<string, Cursor>)
    requires Finite(w) && cfg.batchesPerTick > 0
    ensures var t := TickOf(cfg, w, mem, saved);
      && 0 <= t.batches <= cfg.batchesPerTick
      && (t.more && !t.failed ==> t.batches == cfg.batchesPerTick)
      && (t.more && !t.failed && t.s.history > 0 ==>
            t.s.liveUsed <= LiveCap(cfg.batchesPerTick) && HistoryUsed(t.s) >= cfg.batchesPerTick / 4)
  {
    hide Passes, StableSort, Queue, Finite, Backlog;
    if w.chats.Ok? && Queue(cfg, w, saved, mem.current, w.chats.value).Ok? {
      var queue := StableSort(Queue(cfg, w, saved, mem.current, w.chats.value).value, SoonerIn(mem.served));
      var s := InitialState(mem, saved, queue);
      PassesShare(cfg, w, mem.ticks + 1, queue, s);
      PassesCount(cfg, w, mem.ticks + 1, queue, s);
    }
  }

  function ChargedIn(log: seq<Event>): nat {
    if log == [] then 0
    else ChargedIn(log[..|log|-1]) + (if log[|log|-1].Charged() then 1 else 0)
  }

  lemma ChargedAppend(log: seq<Event>, e: Event)
    ensures ChargedIn(log + [e]) == ChargedIn(log) + (if e.Charged() then 1 else 0)
  {
    assert (log + [e])[..|log + [e]|-1] == log;
  }

  lemma {:induction false} PassCounts(cfg: Config, w: World, tick: int, queue: seq<Pending>, next: seq<Pending>, s: State)
    requires s.batches == ChargedIn(s.log)
    ensures Pass(cfg, w, tick, queue, next, s).s.batches == ChargedIn(Pass(cfg, w, tick, queue, next, s).s.log)
    decreases |queue|
  {
    if queue != [] && s.batches < cfg.batchesPerTick {
      var p, rest := queue[0], queue[1..];
      if Waits(cfg, p, s) {
        PassCounts(cfg, w, tick, rest, next + [p], s);
      } else {
        var e := EventOf(cfg, w, p);
        ChargedAppend(s.log, e);
        if !e.Error() {
          PassCounts(cfg, w, tick, rest, if e.Done() then next else next + [p.(cur := e.reading.next)],
                     Serve(Record(s, e), e, tick));
        }
      }
    }
  }

  /** The budget counts exactly the batches handed to the model. */
  lemma {:induction false} PassesCount(cfg: Config, w: World, tick: int, queue: seq<Pending>, s: State)
    requires Finite(w) && s.history == Backlog(queue) && s.batches == ChargedIn(s.log)
    ensures Passes(cfg, w, tick, queue, s).s.batches == ChargedIn(Passes(cfg, w, tick, queue, s).s.log)
    decreases Work(w, queue)
  {
    if queue != [] {
      PassProgress(cfg, w, tick, queue, [], s);
      PassCounts(cfg, w, tick, queue, [], s);
      var r := Pass(cfg, w, tick, queue, [], s);
      if r.Through? {
        PassesCount(cfg, w, tick, r.next, r.s);
      }
    }
  }

  // ---- no starvation ----

  predicate Marked(served: map<string, int>, k: string, tick: int) {
    k in served && served[k] == tick
  }

  /** Chats whose turn came in this tick are marked with it; no other mark changes. */
  ghost predicate OnlyMarks(was: map<string, int>, now: map<string, int>, tick: int) {
    forall k :: if Marked(was, k, tick) then Marked(now, k, tick)
                else Marked(now, k, tick) || Served(now, k) == Served(was, k)
  }

  lemma MarkThen(was: map<string, int>, k: string, now: map<string, int>, tick: int)
    requires OnlyMarks(was[k := tick], now, tick)
    ensures OnlyMarks(was, now, tick) && Marked(now, k, tick)
  {
    assert Marked(was[k := tick], k, tick);
    forall c | c != k ensures if Marked(was, c, tick) then Marked(now, c, tick)
                              else Marked(now, c, tick) || Served(now, c) == Served(was, c)
    {
      assert Marked(was[k := tick], c, tick) == Marked(was, c, tick);
      assert Served(was[k := tick], c) == Served(was, c);
    }
  }

  lemma {:induction false} PassMarks(cfg: Config, w: World, tick: int, queue: seq<Pending>, next: seq<Pending>, s: State)
    ensures OnlyMarks(s.served, Pass(cfg, w, tick, queue, next, s).s.served, tick)
    decreases |queue|
  {
    if queue != [] && s.batches < cfg.batchesPerTick {
      var p, rest := queue[0], queue[1..];
      if Waits(cfg, p, s) {
        PassMarks(cfg, w, tick, rest, next + [p], s);
      } else {
        var e := EventOf(cfg, w, p);
        if !e.Error() {
          PassMarks(cfg, w, tick, rest, if e.Done() then next else next + [p.(cur := e.reading.next)],
                    Serve(Record(s, e), e, tick));
          MarkThen(s.served, Key(e.chat), Pass(cfg, w, tick, queue, next, s).s.served, tick);
        }
      }
    }
  }

  lemma MarksThen(a: map<string, int>, b: map<string, int>, c: map<string, int>, tick: int)
    requires OnlyMarks(a, b, tick) && OnlyMarks(b, c, tick)
    ensures OnlyMarks(a, c, tick)
  {
    forall k ensures if Marked(a, k, tick) then Marked(c, k, tick)
                     else Marked(c, k, tick) || Served(c, k) == Served(a, k)
    {
      assert Marked(b, k, tick) || Served(b, k) == Served(a, k);
    }
  }

  lemma {:induction false} PassesMark(cfg: Config, w: World, tick: int, queue: seq<Pending>, s: State)
    requires Finite(w) && s.history == Backlog(queue)
    ensures OnlyMarks(s.served, Passes(cfg, w, tick, queue, s).s.served, tick)
    decreases Work(w, queue)
  {
    if queue != [] {
      PassProgress(cfg, w, tick, queue, [], s);
      PassMarks(cfg, w, tick, queue, [], s);
      var r := Pass(cfg, w, tick, queue, [], s);
      if r.Through? {
        PassesMark(cfg, w, tick, r.next, r.s);
        MarksThen(s.served, r.s.served, Passes(cfg, w, tick, queue, s).s.served, tick);
      }
    }
  }

  /** History chats among `queue` whose turn came. */
  function MarkedHistory(queue: seq<Pending>, served: map<string, int>, tick: int): set<string> {
    set p | p in queue && !p.live && Marked(served, Key(p.chat), tick) :: Key(p.chat)
  }

  /** A history chat a first pass does not reach stands behind as many history chats served
      as the budget still owed to history. */
  lemma {:induction false} PassReaches(cfg: Config, w: World, tick: int, queue: seq<Pending>, next: seq<Pending>, s: State, i: nat)
    requires i < |queue| && !queue[i].live && DistinctChats(queue)
    requires WithinShare(cfg, s) && s.history >= Backlog(queue)
    ensures var r := Pass(cfg, w, tick, queue, next, s);
      r.Broke? || Marked(r.s.served, Key(queue[i].chat), tick)
      || (r.OutOfBudget? && |MarkedHistory(queue[..i], r.s.served, tick)| >= cfg.batchesPerTick / 4 - HistoryUsed(s))
    decreases |queue|
  {
    BacklogAt(queue, i);
    var r := Pass(cfg, w, tick, queue, next, s);
    if s.batches < cfg.batchesPerTick {
      var p, rest := queue[0], queue[1..];
      if Waits(cfg, p, s) {
        PassReaches(cfg, w, tick, rest, next + [p], s, i - 1);
        MarkedMore(queue, i, r.s.served, tick);
      } else {
        var e := EventOf(cfg, w, p);
        if !e.Error() {
          var s' := Serve(Record(s, e), e, tick);
          var next' := if e.Done() then next else next + [p.(cur := e.reading.next)];
          PassMarks(cfg, w, tick, rest, next', s');
          MarkThen(s.served, Key(p.chat), r.s.served, tick);
          if i > 0 {
            PassReaches(cfg, w, tick, rest, next', s', i - 1);
            MarkedMore(queue, i, r.s.served, tick);
          }
        }
      }
    }
  }

  lemma {:induction false} BacklogAt(queue: seq<Pending>, i: nat)
    requires i < |queue| && !queue[i].live
    ensures Backlog(queue) > 0
  {
    if i > 0 {
      BacklogAt(queue[1..], i - 1);
    }
  }

  lemma MarkedMore(queue: seq<Pending>, i: nat, served: map<string, int>, tick: int)
    requires 0 < i < |queue| && DistinctChats(queue)
    ensures |MarkedHistory(queue[..i], served, tick)| ==
            |MarkedHistory(queue[1..][..i-1], served, tick)|
            + (if !queue[0].live && Marked(served, Key(queue[0].chat), tick) then 1 else 0)
  {
    var head, rest := queue[0], queue[1..][..i-1];
    assert queue[..i] == [head] + rest;
    assert forall p :: p in queue[..i] <==> p == head || p in rest;
    var more, less, k := MarkedHistory(queue[..i], served, tick), MarkedHistory(rest, served, tick), Key(head.chat);
    forall p | p in rest ensures Key(p.chat) != k {
      var j :| 0 <= j < |rest| && rest[j] == p;
      assert queue[j+1] == p;
    }
    if !head.live && Marked(served, k, tick) {
      assert more == less + {k};
    } else {
      assert more == less;
    }
  }

  /** The chats that come before `k` in turn, or level with it. */
  function Ahead(chats: set<string>, served: map<string, int>, k: string): set<string> {
    set c | c in chats && c != k && Served(served, c) <= Served(served, k)
  }

  ghost predicate Waiting(cfg: Config, w: World, mem: Memory, saved: map<string, Cursor>, k: string) {
    && w.chats.Ok? && Queue(cfg, w, saved, mem.current, w.chats.value).Ok?
    && exists p :: p in Queue(cfg, w, saved, mem.current, w.chats.value).value && Key(p.chat) == k && !p.live
  }

  ghost predicate ListedAmong(w: World, chats: set<string>) {
    w.chats.Ok? && ListedOnce(w.chats.value) && forall c :: c in w.chats.value ==> Key(c) in chats
  }

  ghost predicate Past(mem: Memory) {
    mem.ticks >= 0 && forall k :: Served(mem.served, k) <= mem.ticks
  }

  /** Those marked before `k` in the queue were ahead of it, and no longer are. */
  lemma MarkedWereAhead(queue: seq<Pending>, i: nat, was: map<string, int>, now: map<string, int>, tick: int,
                        chats: set<string>, k: string)
    requires i < |queue| && !queue[i].live && Key(queue[i].chat) == k && DistinctChats(queue)
    requires SortedBy(queue, SoonerIn(was)) && forall p :: p in queue ==> Key(p.chat) in chats
    requires OnlyMarks(was, now, tick) && Served(now, k) == Served(was, k) < tick
    ensures |Ahead(chats, now, k)| + |MarkedHistory(queue[..i], now, tick)| <= |Ahead(chats, was, k)|
  {
    var ahead, still, marked := Ahead(chats, was, k), Ahead(chats, now, k), MarkedHistory(queue[..i], now, tick);
    forall c | c in marked ensures c in ahead && c !in still {
      var q :| q in queue[..i] && !q.live && Marked(now, Key(q.chat), tick) && Key(q.chat) == c;
      var j :| 0 <= j < i && queue[j] == q;
      assert !SoonerIn(was)(queue[i], queue[j]);
      assert q in queue;
    }
    forall c | c in still ensures c in ahead {
      assert Marked(now, c, tick) || Served(now, c) == Served(was, c);
    }
    Smaller(still, ahead, marked);
  }

  /** A tick that ends without error and leaves a history chat unserved has served a quarter
      of its budget of other chats that were ahead of it, which are then behind it. */
  lemma TickPassesOthers(cfg: Config, w: World, mem: Memory, saved: map<string, Cursor>, chats: set<string>, k: string)
    requires Finite(w) && cfg.batchesPerTick > 0 && ListedAmong(w, chats) && Past(mem) && Waiting(cfg, w, mem, saved, k)
    requires var t := TickOf(cfg, w, mem, saved); !t.failed && Served(t.mem.served, k) == Served(mem.served, k)
    ensures var t := TickOf(cfg, w, mem, saved);
      && Past(t.mem)
      && |Ahead(chats, t.mem.served, k)| + cfg.batchesPerTick / 4 <= |Ahead(chats, mem.served, k)|
  {
    hide Passes, StableSort, Ahead, MarkedHistory, Finite, Queue, Key;
    var t, tick := TickOf(cfg, w, mem, saved), mem.ticks + 1;
    var listed := Queue(cfg, w, saved, mem.current, w.chats.value).value;
    var queue := StableSort(listed, SoonerIn(mem.served));
    var s := InitialState(mem, saved, queue);
    QueueDistinct(cfg, w, saved, mem.current, w.chats.value);
    SortKeepsDistinct(listed, SoonerIn(mem.served));
    SortMembers(listed, SoonerIn(mem.served));
    SoonerIsOrder(mem.served);
    SortSorts(listed, SoonerIn(mem.served));
    var p :| p in listed && Key(p.chat) == k && !p.live;
    assert p in queue;
    var i :| 0 <= i < |queue| && queue[i] == p;
    PassesMark(cfg, w, tick, queue, s);
    FirstPassReaches(cfg, w, tick, queue, s, i);
    MarkedWereAhead(queue, i, mem.served, t.mem.served, tick, chats, k);
  }

  lemma Smaller(now: set<string>, was: set<string>, marked: set<string>)
    requires now <= was - marked && marked <= was
    ensures |now| + |marked| <= |was|
  {
    assert |was - marked| == |was| - |marked|;
    assert |was - marked - now| == |was - marked| - |now|;
  }

  lemma FirstPassReaches(cfg: Config, w: World, tick: int, queue: seq<Pending>, s: State, i: nat)
    requires Finite(w) && cfg.batchesPerTick > 0 && i < |queue| && !queue[i].live && DistinctChats(queue)
    requires s.history == Backlog(queue) && s.batches == 0 && s.liveUsed == 0
    requires !Passes(cfg, w, tick, queue, s).Broke? && !Marked(Passes(cfg, w, tick, queue, s).s.served, Key(queue[i].chat), tick)
    ensures |MarkedHistory(queue[..i], Passes(cfg, w, tick, queue, s).s.served, tick)| >= cfg.batchesPerTick / 4
  {
    PassProgress(cfg, w, tick, queue, [], s);
    PassReaches(cfg, w, tick, queue, [], s, i);
    var r := Pass(cfg, w, tick, queue, [], s);
    if r.Through? {
      PassesMark(cfg, w, tick, r.next, r.s);
    }
  }

  /** One tick of a process: the world, and the cursors it finds. */
  datatype Turn = Turn(w: World, saved: map<string, Cursor>)

  /** A tick that does not fail and does not serve `k`, although its history waits. */
  ghost predicate PassesOver(cfg: Config, turn: Turn, mem: Memory, chats: set<string>, k: string) {
    && Finite(turn.w) && ListedAmong(turn.w, chats) && Waiting(cfg, turn.w, mem, turn.saved, k)
    && !TickOf(cfg, turn.w, mem, turn.saved).failed
    && Served(TickOf(cfg, turn.w, mem, turn.saved).mem.served, k) == Served(mem.served, k)
  }

  /** Consecutive ticks of one process, whatever the world did in between, all passing over `k`. */
  ghost predicate PassedOver(cfg: Config, turns: seq<Turn>, mem: Memory, chats: set<string>, k: string)
    decreases |turns|
  {
    turns == [] ||
    (PassesOver(cfg, turns[0], mem, chats, k) &&
     PassedOver(cfg, turns[1..], TickOf(cfg, turns[0].w, mem, turns[0].saved).mem, chats, k))
  }

  lemma AheadAreOthers(chats: set<string>, served: map<string, int>, k: string)
    ensures |Ahead(chats, served, k)| <= |chats - {k}|
  {
    assert Ahead(chats, served, k) <= (chats - {k}) - {};
    Smaller(Ahead(chats, served, k), chats - {k}, {});
  }

  lemma OneMore(n: nat, share: int)
    ensures (n + 1) * share == n * share + share
  {
  }

  /** However active the others are, a history chat is passed over for at most as many ticks
      as the other chats fill, a quarter of the budget at a time. */
  lemma {:induction false} HistoryIsServed(cfg: Config, turns: seq<Turn>, mem: Memory, chats: set<string>, k: string)
    requires cfg.batchesPerTick > 0 && Past(mem) && PassedOver(cfg, turns, mem, chats, k)
    ensures |turns| * (cfg.batchesPerTick / 4) <= |Ahead(chats, mem.served, k)| <= |chats - {k}|
    decreases |turns|
  {
    AheadAreOthers(chats, mem.served, k);
    if turns != [] {
      assert PassesOver(cfg, turns[0], mem, chats, k);
      TurnPassesOthers(cfg, turns[0], mem, chats, k);
      var mem' := TickOf(cfg, turns[0].w, mem, turns[0].saved).mem;
      HistoryIsServed(cfg, turns[1..], mem', chats, k);
      OneMore(|turns[1..]|, cfg.batchesPerTick / 4);
    }
  }

  lemma TurnPassesOthers(cfg: Config, turn: Turn, mem: Memory, chats: set<string>, k: string)
    requires cfg.batchesPerTick > 0 && Past(mem) && PassesOver(cfg, turn, mem, chats, k)
    ensures Past(TickOf(cfg, turn.w, mem, turn.saved).mem)
    ensures |Ahead(chats, TickOf(cfg, turn.w, mem, turn.saved).mem.served, k)| + cfg.batchesPerTick / 4
            <= |Ahead(chats, mem.served, k)|
  {
    TickPassesOthers(cfg, turn.w, mem, turn.saved, chats, k);
  }
}
