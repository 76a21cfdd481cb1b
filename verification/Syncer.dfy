/** One tick of the chat syncer: which chats are read, in what order, under what budget,
    and when each chat's cursor moves. */
module Syncer {
  import opened Basics
  import opened Sorting
  import opened ChatOrder

  datatype Chat = Chat(id: string, name: string, isGroup: bool, kind: string, account: string, lastMessageAt: int)

  /** A chat's cursor key: its id, qualified by its account when the service has several. */
  function Key(c: Chat): string {
    if c.account == "" then c.id else c.account + "|" + c.id
  }

  datatype Since = Since(at: int) | NotSet

  /** How saving a cursor can end: a failed save may or may not have been written. */
  datatype SaveResult = Saved | NotSaved | SavedButFailed

  datatype Config = Config(batchesPerTick: int, batchChars: int, batchMessages: int,
                           since: Since, lookback: int, deny: set<string>)

  predicate Denied(cfg: Config, c: Chat) {
    Lower(c.id) in cfg.deny || (c.name != "" && Lower(c.name) in cfg.deny)
  }

  /** Everything outside the syncer during one tick. A chat is never read twice from one
      cursor within a tick, so answers are functions of the cursor. `pool` holds whatever
      the source may answer with. */
  datatype World = World(
    chats: Answer<seq<Chat>>,
    cursorFails: string -> bool,
    firstLook: string -> Answer<int>,
    messages: (string, Cursor) -> Answer<seq<Message>>,
    line: (Chat, Message) -> string,
    extract: (string, Cursor) -> bool,
    save: (string, Cursor) -> SaveResult,
    pool: string -> seq<Message>)

  ghost predicate Finite(w: World) {
    forall k, c :: w.messages(k, c).Ok? ==> forall m :: m in w.messages(k, c).value ==> m in w.pool(k)
  }

  datatype Pending = Pending(chat: Chat, cur: Cursor, live: bool)

  // ---- one batch ----

  /** How many messages a batch takes: always one, and then while the lines fit. */
  function TakeFrom(line: Message -> string, ms: seq<Message>, limit: int, started: bool, size: nat): (n: nat)
    ensures n <= |ms|
    ensures ms != [] && !started ==> n > 0
  {
    if ms == [] || (started && size + |line(ms[0])| > limit) then 0
    else 1 + TakeFrom(line, ms[1..], limit, true, size + |line(ms[0])|)
  }

  function Size(line: Message -> string, ms: seq<Message>): nat {
    if ms == [] then 0 else |line(ms[0])| + Size(line, ms[1..])
  }

  lemma {:induction false} TakeFromLongest(line: Message -> string, ms: seq<Message>, limit: int, started: bool, size: nat)
    ensures var n := TakeFrom(line, ms, limit, started, size);
      && (n < |ms| && (started || n > 0) ==> size + Size(line, ms[..n+1]) > limit)
      && (n > 1 || (n == 1 && started) ==> size + Size(line, ms[..n]) <= limit)
  {
    if !(ms == [] || (started && size + |line(ms[0])| > limit)) {
      var rest, size' := ms[1..], size + |line(ms[0])|;
      TakeFromLongest(line, rest, limit, true, size');
      var k := TakeFrom(line, rest, limit, true, size');
      assert ms[..k+1] == [ms[0]] + rest[..k];
      assert ms[..k+1][1..] == rest[..k];
      if k < |rest| {
        assert ms[..k+2][1..] == rest[..k+1];
      }
      assert rest[..0] == [];
    } else if ms != [] {
      assert ms[..1][1..] == [];
    }
  }

  /** The batch is the longest start of what is unread whose lines fit, and one message
      when even the first does not. */
  lemma TakeLongest(line: Message -> string, ms: seq<Message>, limit: int)
    requires ms != []
    ensures var n := TakeFrom(line, ms, limit, false, 0);
      && 0 < n <= |ms|
      && (n == 1 || Size(line, ms[..n]) <= limit)
      && (n < |ms| ==> Size(line, ms[..n+1]) > limit)
  {
    TakeFromLongest(line, ms, limit, false, 0);
  }

  /** What one answer of the source comes to. */
  datatype Reading = Reading(next: Cursor, taken: seq<Message>, readable: bool)

  predicate Readable(line: Message -> string, ms: seq<Message>) {
    exists m :: m in ms && line(m) != ""
  }

  function ReadingOf(line: Message -> string, limit: int, lastMessageAt: int, cur: Cursor, raw: seq<Message>): Reading {
    var unread := Unread(raw, cur);
    if unread != [] then
      var n := TakeFrom(line, unread, limit, false, 0);
      Reading(CursorOn(unread[n-1]), unread[..n], Readable(line, unread[..n]))
    else if raw == [] && lastMessageAt > cur.at then Reading(Cursor(lastMessageAt, ""), [], false)
    else Reading(cur, [], false)
  }

  datatype Outcome = Unanswered | Stalled | AtEnd | NotExtracted | Set(result: SaveResult)

  /** One batch, as it went. */
  datatype Event = Event(chat: Chat, live: bool, cur: Cursor, raw: seq<Message>, reading: Reading, outcome: Outcome) {
    predicate Charged() {
      outcome != Unanswered && outcome != Stalled && outcome != AtEnd && reading.readable
    }

    predicate Error() {
      outcome in {Unanswered, NotExtracted, Set(NotSaved), Set(SavedButFailed)}
    }

    predicate Written() {
      outcome == Set(Saved) || outcome == Set(SavedButFailed)
    }

    /** Read up to the chat's last activity, or stalled. */
    predicate Done() {
      outcome in {Stalled, AtEnd} || chat.lastMessageAt <= reading.next.at
    }
  }

  function OutcomeOf(w: World, c: Chat, cur: Cursor, r: Reading): Outcome {
    if !cur.Before(r.next) then (if c.lastMessageAt > cur.at then Stalled else AtEnd)
    else if r.readable && !w.extract(Key(c), cur) then NotExtracted
    else Set(w.save(Key(c), r.next))
  }

  function LinesOf(w: World, c: Chat): Message -> string {
    m => w.line(c, m)
  }

  function EventOf(cfg: Config, w: World, p: Pending): Event {
    match w.messages(Key(p.chat), p.cur)
    case Failed => Event(p.chat, p.live, p.cur, [], Reading(p.cur, [], false), Unanswered)
    case Ok(raw) =>
      var r := ReadingOf(LinesOf(w, p.chat), cfg.batchChars, p.chat.lastMessageAt, p.cur, raw);
      Event(p.chat, p.live, p.cur, raw, r, OutcomeOf(w, p.chat, p.cur, r))
  }

  // ---- the tick ----

  /** A tick's running state; `log` is its batches in order. */
  datatype State = State(saved: map<string, Cursor>, served: map<string, int>, current: set<string>,
                         batches: int, stalled: seq<string>, liveUsed: int, history: int, log: seq<Event>)

  function Record(s: State, e: Event): State {
    var k := Key(e.chat);
    s.(saved := if e.Written() then s.saved[k := e.reading.next] else s.saved,
       current := if e.outcome == AtEnd || (e.outcome == Set(Saved) && e.Done()) then s.current + {k} else s.current,
       batches := s.batches + (if e.Charged() then 1 else 0),
       stalled := if e.outcome == Stalled then s.stalled + [k] else s.stalled,
       log := s.log + [e])
  }

  /** What a batch that ended without an error leaves behind besides its record. */
  function Serve(s: State, e: Event, tick: int): State {
    s.(served := s.served[Key(e.chat) := tick],
       liveUsed := s.liveUsed + (if e.live && e.Charged() then 1 else 0),
       history := s.history - (if !e.live && e.Done() then 1 else 0))
  }

  function LiveCap(budget: int): int {
    budget - budget / 4
  }

  /** New messages wait while history waits and their share of the budget is spent. */
  predicate Waits(cfg: Config, p: Pending, s: State) {
    p.live && s.history > 0 && s.liveUsed >= LiveCap(cfg.batchesPerTick)
  }

  datatype Passed = Through(next: seq<Pending>, s: State) | OutOfBudget(s: State) | Broke(s: State)

  function Pass(cfg: Config, w: World, tick: int, queue: seq<Pending>, next: seq<Pending>, s: State): Passed
    decreases |queue|
  {
    if queue == [] then Through(next, s)
    else if s.batches >= cfg.batchesPerTick then OutOfBudget(s)
    else
      var p, rest := queue[0], queue[1..];
      if Waits(cfg, p, s) then Pass(cfg, w, tick, rest, next + [p], s)
      else
        var e := EventOf(cfg, w, p);
        var s' := Record(s, e);
        if e.Error() then Broke(s')
        else
          Pass(cfg, w, tick, rest, if e.Done() then next else next + [p.(cur := e.reading.next)], Serve(s', e, tick))
  }

  /** Chats of a queue still reading their history. */
  function Backlog(queue: seq<Pending>): nat {
    if queue == [] then 0 else (if queue[0].live then 0 else 1) + Backlog(queue[1..])
  }

  /** What is left to do: each chat, and each message its cursor has not passed. */
  function Work(w: World, queue: seq<Pending>): nat {
    if queue == [] then 0
    else 1 + |Fresh(w.pool(Key(queue[0].chat)), queue[0].cur)| + Work(w, queue[1..])
  }

  lemma {:induction false} BacklogAppend(queue: seq<Pending>, p: Pending)
    ensures Backlog(queue + [p]) == Backlog(queue) + (if p.live then 0 else 1)
  {
    if queue != [] {
      BacklogAppend(queue[1..], p);
      assert (queue + [p])[1..] == queue[1..] + [p];
    }
  }

  lemma {:induction false} WorkAppend(w: World, queue: seq<Pending>, p: Pending)
    ensures Work(w, queue + [p]) == Work(w, queue) + 1 + |Fresh(w.pool(Key(p.chat)), p.cur)|
  {
    if queue != [] {
      WorkAppend(w, queue[1..], p);
      assert (queue + [p])[1..] == queue[1..] + [p];
    } else {
      assert [p][1..] == [];
    }
  }

  lemma {:induction false} FreshShrinks(pool: seq<Message>, c: Cursor, d: Cursor)
    requires c.Before(d)
    ensures |Fresh(pool, d)| <= |Fresh(pool, c)|
    ensures (exists m :: m in pool && !c.Passed(m) && d.Passed(m)) ==> |Fresh(pool, d)| < |Fresh(pool, c)|
  {
    if pool != [] {
      FreshShrinks(pool[1..], c, d);
      CursorOrder(c, d, CursorOn(pool[0]));
      if m :| m in pool && !c.Passed(m) && d.Passed(m) {
        assert m == pool[0] || m in pool[1..];
      }
    }
  }

  /** A batch that leaves its chat unfinished has consumed a message. */
  lemma BatchConsumes(cfg: Config, w: World, p: Pending)
    requires Finite(w)
    requires var e := EventOf(cfg, w, p); !e.Error() && !e.Done()
    ensures var e, pool := EventOf(cfg, w, p), w.pool(Key(p.chat));
      |Fresh(pool, e.reading.next)| < |Fresh(pool, p.cur)|
  {
    var e, pool := EventOf(cfg, w, p), w.pool(Key(p.chat));
    CursorOrder(p.cur, p.cur, p.cur);
    UnreadMembers(e.raw, p.cur);
    var m := e.reading.taken[|e.reading.taken| - 1];
    assert m in Unread(e.raw, p.cur);
    CursorOrder(CursorOn(m), CursorOn(m), p.cur);
    FreshShrinks(pool, p.cur, e.reading.next);
  }

  /** `history` counts the unfinished history chats; a pass never adds work, and leaves it
      undiminished only when every chat of it waited for history that waits elsewhere. */
  lemma {:induction false} PassProgress(cfg: Config, w: World, tick: int, queue: seq<Pending>, next: seq<Pending>, s: State)
    requires Finite(w) && s.history == Backlog(queue) + Backlog(next)
    ensures var r := Pass(cfg, w, tick, queue, next, s);
      r.Through? ==>
        && r.s.history == Backlog(r.next)
        && Work(w, r.next) <= Work(w, queue) + Work(w, next)
        && (Work(w, r.next) == Work(w, queue) + Work(w, next) && queue != [] ==> Backlog(queue) == 0 && s.history > 0)
    decreases |queue|
  {
    if queue != [] && s.batches < cfg.batchesPerTick {
      var p, rest := queue[0], queue[1..];
      if Waits(cfg, p, s) {
        BacklogAppend(next, p);
        WorkAppend(w, next, p);
        PassProgress(cfg, w, tick, rest, next + [p], s);
      } else {
        var e := EventOf(cfg, w, p);
        if !e.Error() {
          var s' := Serve(Record(s, e), e, tick);
          if e.Done() {
            PassProgress(cfg, w, tick, rest, next, s');
          } else {
            var p' := p.(cur := e.reading.next);
            BatchConsumes(cfg, w, p);
            BacklogAppend(next, p');
            WorkAppend(w, next, p');
            PassProgress(cfg, w, tick, rest, next + [p'], s');
          }
        }
      }
    }
  }

  /** Passes until the queue is empty, the budget is spent, or a batch fails. */
  function Passes(cfg: Config, w: World, tick: int, queue: seq<Pending>, s: State): (r: Passed)
    requires Finite(w) && s.history == Backlog(queue)
    ensures r.Through? ==> r.next == []
    decreases Work(w, queue)
  {
    if queue == [] then Through([], s)
    else
      PassProgress(cfg, w, tick, queue, [], s);
      var r := Pass(cfg, w, tick, queue, [], s);
      if r.Through? then Passes(cfg, w, tick, r.next, r.s) else r
  }

  // ---- the queue ----

  function Start(cfg: Config, w: World, c: Chat): Answer<int> {
    if cfg.since.Since? then Ok(cfg.since.at)
    else
      match w.firstLook(c.account)
      case Failed => Failed
      case Ok(at) => Ok(at - cfg.lookback)
  }

  /** Where a chat is read from: its saved cursor, or where a chat with none begins. */
  function Position(cfg: Config, w: World, saved: map<string, Cursor>, c: Chat): Answer<Cursor> {
    if w.cursorFails(Key(c)) then Failed
    else if Key(c) in saved then Ok(saved[Key(c)])
    else
      match Start(cfg, w, c)
      case Failed => Failed
      case Ok(at) => Ok(Cursor(at, ""))
  }

  function Queue(cfg: Config, w: World, saved: map<string, Cursor>, current: set<string>, chats: seq<Chat>): Answer<seq<Pending>> {
    if chats == [] then Ok([])
    else
      var c := chats[|chats|-1];
      var before := Queue(cfg, w, saved, current, chats[..|chats|-1]);
      if before.Failed? || Denied(cfg, c) then before
      else
        match Position(cfg, w, saved, c)
        case Failed => Failed
        case Ok(cur) =>
          if c.lastMessageAt > cur.at then Ok(before.value + [Pending(c, cur, Key(c) in current)]) else before
  }

  /** A chat waits its turn iff it is listed, allowed, and active later than its cursor's time. */
  lemma {:induction false} QueuedExactly(cfg: Config, w: World, saved: map<string, Cursor>, current: set<string>,
                                         chats: seq<Chat>, p: Pending)
    requires Queue(cfg, w, saved, current, chats).Ok?
    ensures p in Queue(cfg, w, saved, current, chats).value <==>
            p.chat in chats && !Denied(cfg, p.chat) && Position(cfg, w, saved, p.chat) == Ok(p.cur)
            && p.chat.lastMessageAt > p.cur.at && (p.live <==> Key(p.chat) in current)
    decreases |chats|
  {
    hide Denied, Position, Key;
    if chats != [] {
      QueuedExactly(cfg, w, saved, current, chats[..|chats|-1], p);
      assert p.chat in chats <==> p.chat in chats[..|chats|-1] || p.chat == chats[|chats|-1];
    }
  }

  /** A message of a chat's last instant, cut off by a batch, is not read again until the chat
      is active later: then, and not before, the chat is queued from the same cursor. */
  lemma SameInstantWaits(cfg: Config, w: World, saved: map<string, Cursor>, current: set<string>, chats: seq<Chat>,
                         c: Chat, m: Message)
    requires Queue(cfg, w, saved, current, chats).Ok? && c in chats && !Denied(cfg, c)
    requires Key(c) in saved && m.at == saved[Key(c)].at && !saved[Key(c)].Passed(m)
    ensures Pending(c, saved[Key(c)], Key(c) in current) in Queue(cfg, w, saved, current, chats).value <==> c.lastMessageAt > m.at
    ensures forall p :: p in Queue(cfg, w, saved, current, chats).value && p.chat == c ==> p.cur == saved[Key(c)] && !p.cur.Passed(m)
  {
    hide Denied, Key;
    QueuedExactly(cfg, w, saved, current, chats, Pending(c, saved[Key(c)], Key(c) in current));
    QueueRead(cfg, w, saved, current, chats, c);
    forall p | p in Queue(cfg, w, saved, current, chats).value && p.chat == c ensures p.cur == saved[Key(c)] {
      QueuedExactly(cfg, w, saved, current, chats, p);
    }
  }

  /** A queue that could be made read every allowed chat's cursor. */
  lemma {:induction false} QueueRead(cfg: Config, w: World, saved: map<string, Cursor>, current: set<string>, chats: seq<Chat>, c: Chat)
    requires Queue(cfg, w, saved, current, chats).Ok? && c in chats && !Denied(cfg, c)
    ensures Position(cfg, w, saved, c).Ok?
    decreases |chats|
  {
    hide Denied, Position, Key;
    if c != chats[|chats|-1] {
      assert c in chats[..|chats|-1];
      QueueRead(cfg, w, saved, current, chats[..|chats|-1], c);
    }
  }

  function Served(served: map<string, int>, k: string): int {
    if k in served then served[k] else 0
  }

  /** Chats read to their end first, the most recently active of them first; then the ones
      still reading history, the one served longest ago first. */
  predicate Sooner(served: map<string, int>, a: Pending, b: Pending) {
    if a.live != b.live then a.live
    else if !a.live && Served(served, Key(a.chat)) != Served(served, Key(b.chat)) then
      Served(served, Key(a.chat)) < Served(served, Key(b.chat))
    else a.chat.lastMessageAt > b.chat.lastMessageAt
  }

  function SoonerIn(served: map<string, int>): (Pending, Pending) -> bool {
    (a, b) => Sooner(served, a, b)
  }

  lemma SoonerIsOrder(served: map<string, int>)
    ensures StrictWeak(SoonerIn(served))
  {
  }

  datatype Memory = Memory(ticks: int, served: map<string, int>, current: set<string>)

  /** What a tick did: `s` is where it stopped. */
  datatype Ticked = Ticked(mem: Memory, saved: map<string, Cursor>, batches: int, more: bool,
                           stalled: seq<string>, failed: bool, s: State)

  function InitialState(mem: Memory, saved: map<string, Cursor>, queue: seq<Pending>): State {
    State(saved, mem.served, mem.current, 0, [], 0, Backlog(queue), [])
  }

  function TickOf(cfg: Config, w: World, mem: Memory, saved: map<string, Cursor>): Ticked
    requires Finite(w)
  {
    var tick := mem.ticks + 1;
    var idle := InitialState(mem, saved, []);
    if w.chats.Failed? then Ticked(mem.(ticks := tick), saved, 0, false, [], true, idle)
    else
      var listed := Queue(cfg, w, saved, mem.current, w.chats.value);
      if listed.Failed? then Ticked(mem.(ticks := tick), saved, 0, false, [], true, idle)
      else
        var queue := StableSort(listed.value, SoonerIn(mem.served));
        var r := Passes(cfg, w, tick, queue, InitialState(mem, saved, queue));
        Ticked(Memory(tick, r.s.served, r.s.current), r.s.saved, r.s.batches, !r.Through?, r.s.stalled, r.Broke?, r.s)
  }
}
