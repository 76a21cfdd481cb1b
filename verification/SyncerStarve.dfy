/** Below a budget of four a quarter of it is nothing, and live chats may keep history waiting
    for as long as they are active. */
module SyncerStarve {
  import opened Basics
  import opened Sorting
  import opened ChatOrder
  import opened Syncer
  import opened SyncerBudget

  /** A live chat whose batch is handed to the model and ends without an error. */
  ghost predicate Busy(cfg: Config, w: World, p: Pending) {
    p.live && EventOf(cfg, w, p).Charged() && !EventOf(cfg, w, p).Error()
  }

  /** What a tick changed, if it read nothing but these chats. */
  ghost predicate OnlyTouches(cfg: Config, w: World, queue: seq<Pending>, k: nat, s: State, s': State)
    requires k <= |queue|
  {
    && s.current <= s'.current
    && (forall c :: Apart(queue, k, c) ==> Same(s, s', c))
    && (forall c :: c in s.saved ==> SavedOn(cfg, w, queue, k, s, s', c))
  }

  ghost predicate Apart(queue: seq<Pending>, k: nat, c: string)
    requires k <= |queue|
  {
    forall i :: 0 <= i < k ==> Key(queue[i].chat) != c
  }

  ghost predicate Same(s: State, s': State, c: string) {
    && Served(s'.served, c) == Served(s.served, c) && (c in s'.current <==> c in s.current)
    && (c in s'.saved <==> c in s.saved) && (c in s.saved ==> s'.saved[c] == s.saved[c])
  }

  ghost predicate SavedOn(cfg: Config, w: World, queue: seq<Pending>, k: nat, s: State, s': State, c: string)
    requires k <= |queue| && c in s.saved
  {
    && c in s'.saved
    && (s'.saved[c] == s.saved[c]
        || exists i :: 0 <= i < k && Key(queue[i].chat) == c && s'.saved[c] == EventOf(cfg, w, queue[i]).reading.next)
  }

  /** As many busy live chats as there is budget, first in the queue, take all of it. */
  lemma {:induction false} LiveTakeAll(cfg: Config, w: World, tick: int, queue: seq<Pending>, next: seq<Pending>, s: State, k: nat)
    requires k < |queue| && s.batches + k == cfg.batchesPerTick < 4 && 0 <= s.batches == s.liveUsed
    requires forall i :: 0 <= i < k ==> Busy(cfg, w, queue[i])
    ensures var r := Pass(cfg, w, tick, queue, next, s); r.OutOfBudget? && OnlyTouches(cfg, w, queue, k, s, r.s)
    decreases k
  {
    hide EventOf, Key, Served;
    if k > 0 {
      var p, rest := queue[0], queue[1..];
      var e := EventOf(cfg, w, p);
      assert Busy(cfg, w, p);
      EventIsOf(cfg, w, p);
      var s1 := Serve(Record(s, e), e, tick);
      var next1 := if e.Done() then next else next + [p.(cur := e.reading.next)];
      forall i | 0 <= i < k - 1 ensures Busy(cfg, w, rest[i]) {
        assert rest[i] == queue[i+1];
      }
      LiveTakeAll(cfg, w, tick, rest, next1, s1, k - 1);
      TouchesMore(cfg, w, tick, queue, k, s, Pass(cfg, w, tick, rest, next1, s1).s);
    }
  }

  lemma EventIsOf(cfg: Config, w: World, p: Pending)
    ensures EventOf(cfg, w, p).chat == p.chat && EventOf(cfg, w, p).live == p.live
  {
    hide ReadingOf, OutcomeOf;
  }

  lemma TouchesMore(cfg: Config, w: World, tick: int, queue: seq<Pending>, k: nat, s: State, s': State)
    requires 0 < k <= |queue|
    requires var e := EventOf(cfg, w, queue[0]);
      OnlyTouches(cfg, w, queue[1..], k - 1, Serve(Record(s, e), e, tick), s') && e.chat == queue[0].chat
    ensures OnlyTouches(cfg, w, queue, k, s, s')
  {
    hide EventOf, Key;
    var e := EventOf(cfg, w, queue[0]);
    var s1 := Serve(Record(s, e), e, tick);
    assert forall i :: 0 < i < k ==> queue[i] == queue[1..][i-1];
    forall c | Apart(queue, k, c) ensures Same(s, s', c) {
      assert Key(queue[0].chat) != c;
      assert Apart(queue[1..], k - 1, c);
      assert Same(s1, s', c);
    }
    forall c | c in s.saved ensures SavedOn(cfg, w, queue, k, s, s', c) {
      assert c in s1.saved && SavedOn(cfg, w, queue[1..], k - 1, s1, s', c);
      if s'.saved[c] != s1.saved[c] {
        var i :| 0 <= i < k - 1 && Key(queue[1..][i].chat) == c && s'.saved[c] == EventOf(cfg, w, queue[1..][i]).reading.next;
        assert queue[i+1] == queue[1..][i];
      } else if s1.saved[c] != s.saved[c] {
        assert Key(queue[0].chat) == c;
      }
    }
  }

  // ---- a world that keeps them busy ----

  function LiveKey(i: nat): string {
    if i == 0 then "a" else if i == 1 then "b" else "c"
  }

  ghost predicate IsLive(budget: nat, k: string) {
    exists j: nat :: j < budget && k == LiveKey(j)
  }

  const HISTORY := "h"
  const ALL: set<string> := {"a", "b", "c", "h"}

  function ChatOf(k: string, at: int): Chat {
    Chat(k, k, false, "", "", at)
  }

  function Listing(budget: nat, t: int): (r: seq<Chat>)
    ensures |r| == budget + 1 && r[budget] == ChatOf(HISTORY, 1)
    ensures forall i :: 0 <= i < budget ==> r[i] == ChatOf(LiveKey(i), t)
  {
    seq(budget, i requires 0 <= i < budget => ChatOf(LiveKey(i), t)) + [ChatOf(HISTORY, 1)]
  }

  function OneMessage(t: int): Message {
    Message("m", "", "", "", "", t, false)
  }

  /** At time `t` as many live chats as there is budget have a new message each, and one chat
      still has its history to read; nothing fails. */
  function BusyWorld(budget: nat, t: int): World {
    World(Ok(Listing(budget, t)), (k: string) => false, (k: string) => Ok(0), (k: string, c: Cursor) => Ok([OneMessage(t)]),
          (c: Chat, m: Message) => "x", (k: string, c: Cursor) => true, (k: string, c: Cursor) => Saved, (k: string) => [OneMessage(t)])
  }

  function Budget(n: nat): Config {
    Config(n, 8000, 150, NotSet, 0, {})
  }

  /** The live chats are read up to before `t`, and the history chat not at all. */
  ghost predicate Ready(budget: nat, mem: Memory, saved: map<string, Cursor>, t: int) {
    && t >= 1 && Past(mem)
    && (forall i :: 0 <= i < budget ==> LiveKey(i) in mem.current && LiveKey(i) in saved && saved[LiveKey(i)].at < t)
    && HISTORY !in mem.current && HISTORY in saved && saved[HISTORY] == Cursor(0, "")
  }

  lemma OneUnread(t: int, c: Cursor)
    requires c.at < t
    ensures Unread([OneMessage(t)], c) == [OneMessage(t)]
  {
    assert [OneMessage(t)][1..] == [];
    assert Fresh([OneMessage(t)], c) == [OneMessage(t)];
    assert StableSort([], MessageBefore) == [];
  }

  lemma BusyBatch(budget: nat, t: int, p: Pending)
    requires p.live && p.cur.at < t
    ensures Busy(Budget(budget), BusyWorld(budget, t), p)
    ensures EventOf(Budget(budget), BusyWorld(budget, t), p).reading.next == Cursor(t, "m")
  {
    hide Unread, StableSort;
    var w, m := BusyWorld(budget, t), OneMessage(t);
    OneUnread(t, p.cur);
    var line := LinesOf(w, p.chat);
    TakeLongest(line, [m], 8000);
    assert m in [m] && line(m) == "x";
    assert [m][..1] == [m];
    var r := ReadingOf(line, 8000, p.chat.lastMessageAt, p.cur, [m]);
    assert r == Reading(Cursor(t, "m"), [m], true);
  }

  /** With nothing failing, and every chat active past its cursor, each is queued, in order. */
  lemma {:induction false} AllQueued(cfg: Config, w: World, saved: map<string, Cursor>, current: set<string>, chats: seq<Chat>)
    requires forall c :: c in chats ==> !Denied(cfg, c) && !w.cursorFails(Key(c)) && Key(c) in saved && c.lastMessageAt > saved[Key(c)].at
    ensures var q := Queue(cfg, w, saved, current, chats);
      && q.Ok? && |q.value| == |chats|
      && forall i :: 0 <= i < |chats| ==> q.value[i] == Pending(chats[i], saved[Key(chats[i])], Key(chats[i]) in current)
    decreases |chats|
  {
    hide Key, Denied;
    if chats != [] {
      var c := chats[|chats|-1];
      assert c in chats;
      forall d | d in chats[..|chats|-1] ensures d in chats {
        var i :| 0 <= i < |chats| - 1 && chats[..|chats|-1][i] == d;
        assert chats[i] == d;
      }
      AllQueued(cfg, w, saved, current, chats[..|chats|-1]);
    }
  }

  /** The queue, sorted: the live chats, and then the one with history. */
  lemma LiveFirst(queue: seq<Pending>, served: map<string, int>, budget: nat)
    requires |queue| == budget + 1 && !queue[budget].live && forall i :: 0 <= i < budget ==> queue[i].live
    ensures var sorted := StableSort(queue, SoonerIn(served));
      && |sorted| == budget + 1 && !sorted[budget].live
      && (forall i :: 0 <= i < budget ==> sorted[i].live) && (forall p :: p in sorted <==> p in queue)
  {
    hide StableSort, Key, Served;
    var less := SoonerIn(served);
    var sorted := StableSort(queue, less);
    SortKeeps(queue, less);
    SortMembers(queue, less);
    SoonerIsOrder(served);
    SortSorts(queue, less);
    assert |sorted| == |multiset(sorted)| == |multiset(queue)| == |queue|;
    var h := queue[budget];
    OnceOnly(queue, h, budget);
    assert h in sorted;
    var i :| 0 <= i < |sorted| && sorted[i] == h;
    forall j | 0 <= j < |sorted| && j != i ensures sorted[j].live {
      assert sorted[j] in queue;
      var k :| 0 <= k < |queue| && queue[k] == sorted[j];
      if sorted[j] == h {
        TwiceCounted(sorted, i, j);
      }
    }
    forall j | 0 <= j < |sorted| && j != i ensures less(sorted[j], h) {
    }
  }

  lemma OnceOnly(queue: seq<Pending>, h: Pending, n: nat)
    requires |queue| == n + 1 && queue[n] == h && forall i :: 0 <= i < n ==> queue[i] != h
    ensures multiset(queue)[h] == 1
  {
    assert queue == queue[..n] + [h];
    assert h !in queue[..n];
    assert h !in multiset(queue[..n]);
  }

  lemma TwiceCounted(xs: seq<Pending>, i: nat, j: nat)
    requires i < |xs| && j < |xs| && i != j && xs[i] == xs[j]
    ensures multiset(xs)[xs[i]] >= 2
  {
    var a, b := if i < j then i else j, if i < j then j else i;
    assert xs == xs[..b] + xs[b..];
    assert xs[..b][a] == xs[i] && xs[b..][0] == xs[i];
    assert xs[i] in xs[..b] && xs[i] in xs[b..];
    assert multiset(xs) == multiset(xs[..b]) + multiset(xs[b..]);
  }

  lemma KeyIs(k: string, at: int)
    ensures Key(ChatOf(k, at)) == k
  {
  }

  lemma ListingIsOnce(budget: nat, t: int)
    requires budget <= 3
    ensures ListedAmong(BusyWorld(budget, t), ALL)
  {
    var chats := Listing(budget, t);
    forall i, j | 0 <= i < j < |chats| ensures Key(chats[i]) != Key(chats[j]) {
    }
  }

  /** The queue such a tick starts with. */
  lemma BusyQueue(budget: nat, mem: Memory, saved: map<string, Cursor>, t: int)
    requires 0 < budget < 4 && Ready(budget, mem, saved, t)
    ensures var q := Queue(Budget(budget), BusyWorld(budget, t), saved, mem.current, Listing(budget, t));
      && q.Ok? && |q.value| == budget + 1 && q.value[budget] == Pending(ChatOf(HISTORY, 1), Cursor(0, ""), false)
      && forall i :: 0 <= i < budget ==> q.value[i] == Pending(ChatOf(LiveKey(i), t), saved[LiveKey(i)], true)
  {
    var cfg, w, chats := Budget(budget), BusyWorld(budget, t), Listing(budget, t);
    forall c | c in chats
      ensures !Denied(cfg, c) && !w.cursorFails(Key(c)) && Key(c) in saved && c.lastMessageAt > saved[Key(c)].at {
      var i :| 0 <= i < |chats| && chats[i] == c;
      KeyIs(LiveKey(i), t);
      KeyIs(HISTORY, 1);
      assert i < budget ==> LiveKey(i) in saved;
    }
    AllQueued(cfg, w, saved, mem.current, chats);
    forall i | 0 <= i < budget ensures Key(chats[i]) == LiveKey(i) {
      KeyIs(LiveKey(i), t);
    }
    KeyIs(HISTORY, 1);
  }

  /** One such tick passes the history chat over, and leaves the next one ready. */
  lemma BusyTick(budget: nat, mem: Memory, saved: map<string, Cursor>, t: int)
    requires 0 < budget < 4 && Ready(budget, mem, saved, t)
    ensures PassesOver(Budget(budget), Turn(BusyWorld(budget, t), saved), mem, ALL, HISTORY)
    ensures var r := TickOf(Budget(budget), BusyWorld(budget, t), mem, saved); Ready(budget, r.mem, r.saved, t + 1)
  {
    hide Queue, StableSort, EventOf, Key, Denied, Busy, Pass, Passes, OnlyTouches, Ready, Finite;
    var cfg, w := Budget(budget), BusyWorld(budget, t);
    BusyQueue(budget, mem, saved, t);
    var listed := Queue(cfg, w, saved, mem.current, w.chats.value).value;
    var queue := StableSort(listed, SoonerIn(mem.served));
    LiveFirst(listed, mem.served, budget);
    ListingIsOnce(budget, t);
    KeyIs(HISTORY, 1);
    BusyFinite(budget, t);
    var s := InitialState(mem, saved, queue);
    BusyChats(budget, mem, saved, t, listed, queue);
    LiveTakeAll(cfg, w, mem.ticks + 1, queue, [], s, budget);
    PassesOnce(cfg, w, mem.ticks + 1, queue, s);
    NothingElse(budget, mem, saved, t, queue, s);
    assert listed[budget] in listed;
  }

  lemma BusyFinite(budget: nat, t: int)
    ensures Finite(BusyWorld(budget, t))
  {
  }

  /** A pass the budget ends is the tick's last. */
  lemma PassesOnce(cfg: Config, w: World, tick: int, queue: seq<Pending>, s: State)
    requires Finite(w) && s.history == Backlog(queue) && queue != [] && !Pass(cfg, w, tick, queue, [], s).Through?
    ensures Passes(cfg, w, tick, queue, s) == Pass(cfg, w, tick, queue, [], s)
  {
    hide Pass;
  }

  lemma BusyChats(budget: nat, mem: Memory, saved: map<string, Cursor>, t: int, listed: seq<Pending>, queue: seq<Pending>)
    requires 0 < budget < 4 && Ready(budget, mem, saved, t) && |listed| == |queue| == budget + 1
    requires forall i :: 0 <= i < budget ==> listed[i] == Pending(ChatOf(LiveKey(i), t), saved[LiveKey(i)], true)
    requires !listed[budget].live && (forall p :: p in queue ==> p in listed) && forall i :: 0 <= i < budget ==> queue[i].live
    ensures forall i :: 0 <= i < budget ==> Busy(Budget(budget), BusyWorld(budget, t), queue[i])
    ensures forall i :: 0 <= i < budget ==> EventOf(Budget(budget), BusyWorld(budget, t), queue[i]).reading.next == Cursor(t, "m")
    ensures forall i :: 0 <= i < budget ==> IsLive(budget, Key(queue[i].chat))
  {
    hide EventOf, Key, Busy;
    forall i | 0 <= i < budget
      ensures Busy(Budget(budget), BusyWorld(budget, t), queue[i])
      ensures EventOf(Budget(budget), BusyWorld(budget, t), queue[i]).reading.next == Cursor(t, "m")
      ensures IsLive(budget, Key(queue[i].chat)) {
      assert queue[i] in queue && queue[i] in listed;
      var j :| 0 <= j < |listed| && listed[j] == queue[i];
      KeyIs(LiveKey(j), t);
      BusyBatch(budget, t, queue[i]);
    }
  }

  lemma NothingElse(budget: nat, mem: Memory, saved: map<string, Cursor>, t: int, queue: seq<Pending>, s: State)
    requires 0 < budget < 4 && Ready(budget, mem, saved, t) && |queue| == budget + 1 && s == InitialState(mem, saved, queue)
    requires forall i :: 0 <= i < budget ==> EventOf(Budget(budget), BusyWorld(budget, t), queue[i]).reading.next == Cursor(t, "m")
    requires forall i :: 0 <= i < budget ==> IsLive(budget, Key(queue[i].chat))
    requires var r := Pass(Budget(budget), BusyWorld(budget, t), mem.ticks + 1, queue, [], s);
      r.OutOfBudget? && OnlyTouches(Budget(budget), BusyWorld(budget, t), queue, budget, s, r.s)
    ensures var r := Pass(Budget(budget), BusyWorld(budget, t), mem.ticks + 1, queue, [], s);
      Served(r.s.served, HISTORY) == Served(mem.served, HISTORY)
      && Ready(budget, Memory(mem.ticks + 1, r.s.served, r.s.current), r.s.saved, t + 1)
  {
    hide EventOf, Key, Pass;
    var r := Pass(Budget(budget), BusyWorld(budget, t), mem.ticks + 1, queue, [], s);
    forall i | 0 <= i < budget ensures Key(queue[i].chat) != HISTORY {
      assert IsLive(budget, Key(queue[i].chat));
    }
    assert Apart(queue, budget, HISTORY) && Same(s, r.s, HISTORY);
    forall i | 0 <= i < budget
      ensures LiveKey(i) in r.s.current && LiveKey(i) in r.s.saved && r.s.saved[LiveKey(i)].at < t + 1 {
      assert LiveKey(i) in s.saved && SavedOn(Budget(budget), BusyWorld(budget, t), queue, budget, s, r.s, LiveKey(i));
    }
    StaysPast(budget, mem, t, queue, s);
  }

  lemma StaysPast(budget: nat, mem: Memory, t: int, queue: seq<Pending>, s: State)
    requires Past(mem) && s.served == mem.served
    ensures Past(Memory(mem.ticks + 1, Pass(Budget(budget), BusyWorld(budget, t), mem.ticks + 1, queue, [], s).s.served,
                        Pass(Budget(budget), BusyWorld(budget, t), mem.ticks + 1, queue, [], s).s.current))
  {
    hide Pass;
    var r := Pass(Budget(budget), BusyWorld(budget, t), mem.ticks + 1, queue, [], s);
    PassMarks(Budget(budget), BusyWorld(budget, t), mem.ticks + 1, queue, [], s);
    forall k ensures Served(r.s.served, k) <= mem.ticks + 1 {
      assert Served(mem.served, k) <= mem.ticks;
    }
  }

  /** `n` such ticks in a row, each finding the cursors the one before it left. */
  function BusyTurns(budget: nat, mem: Memory, saved: map<string, Cursor>, t: int, n: nat): seq<Turn>
    decreases n
  {
    if n == 0 then []
    else
      BusyFinite(budget, t);
      var r := TickOf(Budget(budget), BusyWorld(budget, t), mem, saved);
      [Turn(BusyWorld(budget, t), saved)] + BusyTurns(budget, r.mem, r.saved, t + 1, n - 1)
  }

  /** With a budget of one, two or three, there is a run of any length that never serves the
      history chat: there is no bound such as `HistoryIsServed` gives from four on. */
  lemma {:induction false} HistoryStarves(budget: nat, mem: Memory, saved: map<string, Cursor>, t: int, n: nat)
    requires 0 < budget < 4 && Ready(budget, mem, saved, t)
    ensures |BusyTurns(budget, mem, saved, t, n)| == n
    ensures PassedOver(Budget(budget), BusyTurns(budget, mem, saved, t, n), mem, ALL, HISTORY)
    decreases n
  {
    hide TickOf, Ready, PassesOver, Finite;
    if n > 0 {
      BusyFinite(budget, t);
      BusyTick(budget, mem, saved, t);
      var r := TickOf(Budget(budget), BusyWorld(budget, t), mem, saved);
      HistoryStarves(budget, r.mem, r.saved, t + 1, n - 1);
      var rest := BusyTurns(budget, r.mem, r.saved, t + 1, n - 1);
      assert ([Turn(BusyWorld(budget, t), saved)] + rest)[1..] == rest;
    }
  }

  /** Every chat read up to before the first new message. */
  const READ_SO_FAR := map["a" := Cursor(0, ""), "b" := Cursor(0, ""), "c" := Cursor(0, ""), "h" := Cursor(0, "")]

  /** And it happens: from such cursors, of a process that has just caught up with its live chats. */
  lemma HistoryStarvesFromStart(budget: nat, n: nat)
    requires 0 < budget < 4
    ensures var mem := Memory(0, map[], {"a", "b", "c"});
      var turns := BusyTurns(budget, mem, READ_SO_FAR, 1, n);
      |turns| == n && PassedOver(Budget(budget), turns, mem, ALL, HISTORY)
  {
    hide BusyTurns, PassedOver;
    StarvingStart(budget);
    HistoryStarves(budget, Memory(0, map[], {"a", "b", "c"}), READ_SO_FAR, 1, n);
  }

  lemma StarvingStart(budget: nat)
    requires 0 < budget < 4
    ensures Ready(budget, Memory(0, map[], {"a", "b", "c"}), READ_SO_FAR, 1)
  {
  }
}
