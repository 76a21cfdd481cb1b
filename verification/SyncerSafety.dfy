/** Neither skip nor repeat: over any run of ticks, failures, crashes and restarts, the
    batches whose cursor was saved are exactly the chat's messages up to that cursor. */
module SyncerSafety {
  import opened Basics
  import opened Sorting
  import opened ChatOrder
  import opened ChatSource
  import opened Syncer

  /** A batch the model was through with (or that had nothing to read), and whether its
      cursor was then written. */
  datatype Offer = Offer(batch: seq<Message>, written: bool)

  /** One chat: its history, its cursor (where it starts while none is saved), what the
      saved batches add up to, and every batch offered. */
  datatype Run = Run(history: seq<Message>, at: Cursor, read: seq<Message>, offers: seq<Offer>)

  /** What can happen to a chat: its history changes past the cursor; a batch goes one way
      or another; the process dies between a batch's extraction and its save. */
  datatype Move = Grow(history: seq<Message>) | Did(e: Event) | DiedBeforeSave(e: Event)

  predicate OutcomeFits(e: Event) {
    && ((e.outcome.Stalled? || e.outcome.AtEnd?) <==> !e.cur.Before(e.reading.next))
    && (e.outcome.Stalled? ==> e.chat.lastMessageAt > e.cur.at)
    && (e.outcome.AtEnd? ==> e.chat.lastMessageAt <= e.cur.at)
  }

  ghost predicate Honest(limit: int, e: Event, history: seq<Message>, at: Cursor) {
    && e.cur == at
    && (e.outcome != Unanswered ==>
          && Faithful(e.raw, history, at)
          && (exists line :: e.reading == ReadingOf(line, limit, e.chat.lastMessageAt, at, e.raw))
          && OutcomeFits(e))
  }

  ghost predicate Legal(limit: int, s: Run, mv: Move) {
    match mv
    case Grow(h) => Ascending(h) && UpTo(h, s.at) == UpTo(s.history, s.at)
    case Did(e) => Honest(limit, e, s.history, s.at)
    case DiedBeforeSave(e) => Honest(limit, e, s.history, s.at) && e.outcome.Set?
  }

  function Advance(s: Run, mv: Move): Run {
    match mv
    case Grow(h) => s.(history := h)
    case DiedBeforeSave(e) => s.(offers := s.offers + [Offer(e.reading.taken, false)])
    case Did(e) =>
      if !e.outcome.Set? then s
      else if e.Written() then
        s.(at := e.reading.next, read := s.read + e.reading.taken, offers := s.offers + [Offer(e.reading.taken, true)])
      else s.(offers := s.offers + [Offer(e.reading.taken, false)])
  }

  ghost predicate LegalRun(limit: int, s: Run, moves: seq<Move>)
    decreases |moves|
  {
    moves == [] || (Legal(limit, s, moves[0]) && LegalRun(limit, Advance(s, moves[0]), moves[1..]))
  }

  function AdvanceAll(s: Run, moves: seq<Move>): Run
    decreases |moves|
  {
    if moves == [] then s else AdvanceAll(Advance(s, moves[0]), moves[1..])
  }

  /** A message is offered again only while no batch that held it was saved. */
  ghost predicate OfferedOnce(offers: seq<Offer>) {
    forall i, j, m :: 0 <= i < j < |offers| && offers[i].written && m in offers[i].batch ==> m !in offers[j].batch
  }

  /** No gap, no repeat: what was saved is what lies between the start and the cursor. */
  ghost predicate Exact(start: Cursor, s: Run) {
    && Ascending(s.history)
    && !s.at.Before(start)
    && UpTo(s.history, start) + s.read == UpTo(s.history, s.at)
    && (forall o, m :: o in s.offers && o.written && m in o.batch ==> s.at.Passed(m))
    && OfferedOnce(s.offers)
  }

  /** Standing on a message further on passes exactly the slice up to it. */
  lemma SliceCovers(h: seq<Message>, at: Cursor, k: nat)
    requires Ascending(h) && 0 < k <= |After(h, at)|
    ensures var taken, next := After(h, at)[..k], CursorOn(After(h, at)[k-1]);
      && at.Before(next)
      && UpTo(h, at) + taken == UpTo(h, next)
      && forall m :: m in taken ==> next.Passed(m)
  {
    var n := PassedCount(h, at);
    var next := CursorOn(h[n+k-1]);
    PassedIsPrefix(h, at);
    CursorOrder(next, next, next);
    assert n + k < |h| ==> MessageBefore(h[n+k-1], h[n+k]);
    PassedCountUnique(h, next, n + k);
    PassedIsPrefix(h, next);
    assert h[..n] + h[n..][..k] == h[..n+k];
    forall m | m in h[n..][..k] ensures next.Passed(m) {
      var i :| 0 <= i < k && h[n..][i] == m;
      assert h[n+i] == m;
    }
  }

  /** A cursor at or past the end of a history passes all of it. */
  lemma EndCovers(h: seq<Message>, at: Cursor, next: Cursor)
    requires Ascending(h) && After(h, at) == [] && at.Before(next)
    ensures UpTo(h, at) == h == UpTo(h, next)
  {
    PassedIsPrefix(h, at);
    assert PassedCount(h, at) == |h|;
    if h != [] {
      CursorOrder(at, next, CursorOn(h[|h|-1]));
    }
    PassedCountUnique(h, next, |h|);
  }

  /** A reading that moves the cursor takes exactly what lies between the two. */
  lemma ReadingCovers(line: Message -> string, limit: int, lastMessageAt: int, h: seq<Message>, at: Cursor, raw: seq<Message>)
    requires Ascending(h) && Faithful(raw, h, at)
    requires at.Before(ReadingOf(line, limit, lastMessageAt, at, raw).next)
    ensures var r := ReadingOf(line, limit, lastMessageAt, at, raw);
      && UpTo(h, at) + r.taken == UpTo(h, r.next)
      && forall m :: m in r.taken ==> m in After(h, at) && r.next.Passed(m)
  {
    var r := ReadingOf(line, limit, lastMessageAt, at, raw);
    var u := Unread(raw, at);
    CursorOrder(at, at, at);
    if u != [] {
      var k := |r.taken|;
      assert r.taken == After(h, at)[..k];
      SliceCovers(h, at, k);
    } else {
      EndCovers(h, at, r.next);
    }
  }

  /** Every move keeps the account exact, and never moves the cursor back. */
  lemma MoveKeeps(limit: int, start: Cursor, s: Run, mv: Move)
    requires Exact(start, s) && Legal(limit, s, mv)
    ensures Exact(start, Advance(s, mv)) && !Advance(s, mv).at.Before(s.at)
  {
    var s' := Advance(s, mv);
    CursorOrder(s.at, s.at, s.at);
    match mv {
      case Grow(h) =>
        GrowKeepsStart(start, s.at, s.history, h);
      case Did(e) =>
        if e.outcome.Set? {
          OfferKeeps(limit, start, s, e);
          CursorOrder(s.at, e.reading.next, s.at);
        }
      case DiedBeforeSave(e) =>
        OfferKeeps(limit, start, s, e);
    }
  }

  lemma GrowKeepsStart(start: Cursor, at: Cursor, h: seq<Message>, h': seq<Message>)
    requires Ascending(h) && Ascending(h') && !at.Before(start) && UpTo(h', at) == UpTo(h, at)
    ensures UpTo(h', start) == UpTo(h, start)
  {
    PassedIsPrefix(h, start);
    PassedIsPrefix(h, at);
    PassedIsPrefix(h', start);
    PassedIsPrefix(h', at);
    AfterMembers(h, start);
    AfterMembers(h', start);
    AfterMembers(h, at);
    AfterMembers(h', at);
    forall m ensures m in UpTo(h', start) <==> m in UpTo(h, start) {
      CursorOrder(at, start, CursorOn(m));
      CursorOrder(start, at, CursorOn(m));
      assert start.Passed(m) ==> at.Passed(m);
      assert m in UpTo(h', at) <==> m in UpTo(h, at);
    }
    AscendingUnique(UpTo(h', start), UpTo(h, start));
  }

  lemma OfferedOnceMore(offers: seq<Offer>, at: Cursor, o: Offer)
    requires OfferedOnce(offers)
    requires forall p, m :: p in offers && p.written && m in p.batch ==> at.Passed(m)
    requires forall m :: m in o.batch ==> !at.Passed(m)
    ensures OfferedOnce(offers + [o])
  {
    var more := offers + [o];
    forall i, j, m | 0 <= i < j < |more| && more[i].written && m in more[i].batch ensures m !in more[j].batch {
      assert more[i] in offers;
    }
  }

  lemma OfferKeeps(limit: int, start: Cursor, s: Run, e: Event)
    requires Exact(start, s) && Honest(limit, e, s.history, s.at) && e.outcome.Set?
    ensures Exact(start, s.(offers := s.offers + [Offer(e.reading.taken, false)]))
    ensures Exact(start, s.(at := e.reading.next, read := s.read + e.reading.taken,
                            offers := s.offers + [Offer(e.reading.taken, true)]))
    ensures s.at.Before(e.reading.next)
  {
    var line :| e.reading == ReadingOf(line, limit, e.chat.lastMessageAt, s.at, e.raw);
    ReadingCovers(line, limit, e.chat.lastMessageAt, s.history, s.at, e.raw);
    AfterMembers(s.history, s.at);
    SliceKeeps(start, s, e.reading.next, e.reading.taken);
  }

  lemma SliceKeeps(start: Cursor, s: Run, next: Cursor, taken: seq<Message>)
    requires Exact(start, s) && s.at.Before(next) && UpTo(s.history, s.at) + taken == UpTo(s.history, next)
    requires forall m :: m in taken ==> !s.at.Passed(m) && next.Passed(m)
    ensures Exact(start, s.(offers := s.offers + [Offer(taken, false)]))
    ensures Exact(start, s.(at := next, read := s.read + taken, offers := s.offers + [Offer(taken, true)]))
  {
    CursorOrder(next, start, s.at);
    CursorOrder(start, s.at, next);
    OfferedOnceMore(s.offers, s.at, Offer(taken, false));
    OfferedOnceMore(s.offers, s.at, Offer(taken, true));
    SavedStaysPassed(s.offers, s.at, next, taken);
    assert UpTo(s.history, start) + (s.read + taken) == (UpTo(s.history, start) + s.read) + taken;
  }

  lemma SavedStaysPassed(offers: seq<Offer>, at: Cursor, next: Cursor, taken: seq<Message>)
    requires at.Before(next) && forall m :: m in taken ==> next.Passed(m)
    requires forall o, m :: o in offers && o.written && m in o.batch ==> at.Passed(m)
    ensures forall o, m :: o in offers + [Offer(taken, true)] && o.written && m in o.batch ==> next.Passed(m)
  {
    forall o, m | o in offers + [Offer(taken, true)] && o.written && m in o.batch ensures next.Passed(m) {
      CursorOrder(at, next, CursorOn(m));
      var more := offers + [Offer(taken, true)];
      var i :| 0 <= i < |more| && more[i] == o;
      assert i < |offers| ==> offers[i] == o && at.Passed(m);
    }
  }

  /** Over any legal run the account is exact at the end. */
  lemma {:induction false} RunsAreExact(limit: int, start: Cursor, s: Run, moves: seq<Move>)
    requires Exact(start, s) && LegalRun(limit, s, moves)
    ensures Exact(start, AdvanceAll(s, moves)) && !AdvanceAll(s, moves).at.Before(s.at)
    decreases |moves|
  {
    CursorOrder(s.at, s.at, s.at);
    if moves != [] {
      var s' := Advance(s, moves[0]);
      MoveKeeps(limit, start, s, moves[0]);
      RunsAreExact(limit, start, s', moves[1..]);
      CursorOrder(AdvanceAll(s, moves).at, s.at, s'.at);
      CursorOrder(s.at, s'.at, AdvanceAll(s, moves).at);
    }
  }

  /** A chat is reported stalled exactly when its source answered with only messages already
      read although the chat has later activity; its cursor then stays. */
  lemma StalledExactly(w: World, c: Chat, limit: int, at: Cursor, raw: seq<Message>)
    ensures var r := ReadingOf(LinesOf(w, c), limit, c.lastMessageAt, at, raw);
      && (OutcomeOf(w, c, at, r) == Stalled <==>
            raw != [] && (forall m :: m in raw ==> at.Passed(m)) && c.lastMessageAt > at.at)
      && (OutcomeOf(w, c, at, r) == Stalled ==> r.next == at)
  {
    UnreadMembers(raw, at);
    var u := Unread(raw, at);
    CursorOrder(at, at, at);
    if u != [] {
      var n := TakeFrom(LinesOf(w, c), u, limit, false, 0);
      assert u[0] in u && u[n-1] in u;
      assert !at.Passed(u[n-1]) && !at.Passed(u[0]);
    } else {
      forall m | m in raw ensures at.Passed(m) {
        assert m !in u;
      }
    }
  }

  // ---- a tick's batches are such moves ----

  function At(saved: map<string, Cursor>, k: string, start: Cursor): Cursor {
    if k in saved then saved[k] else start
  }

  /** The cursors on disk after some of a tick's batches. */
  function Replay(saved: map<string, Cursor>, log: seq<Event>): map<string, Cursor> {
    if log == [] then saved
    else
      var e := log[|log|-1];
      var before := Replay(saved, log[..|log|-1]);
      if e.Written() then before[Key(e.chat) := e.reading.next] else before
  }

  /** What a tick's batches so far have made of chat `k`. */
  function AdvanceLog(k: string, s: Run, log: seq<Event>): Run
    decreases |log|
  {
    if log == [] then s
    else
      var before, e := AdvanceLog(k, s, log[..|log|-1]), log[|log|-1];
      if Key(e.chat) == k then Advance(before, Did(e)) else before
  }

  ghost predicate LegalLog(limit: int, k: string, s: Run, log: seq<Event>)
    decreases |log|
  {
    log == [] ||
    (LegalLog(limit, k, s, log[..|log|-1]) &&
     (Key(log[|log|-1].chat) == k ==> Legal(limit, AdvanceLog(k, s, log[..|log|-1]), Did(log[|log|-1]))))
  }

  ghost predicate DistinctChats(queue: seq<Pending>) {
    forall i, j :: 0 <= i < j < |queue| ==> Key(queue[i].chat) != Key(queue[j].chat)
  }

  ghost predicate StandsAt(queue: seq<Pending>, k: string, at: Cursor) {
    forall p :: p in queue && Key(p.chat) == k ==> p.cur == at
  }

  /** The batches logged so far are a legal run of chat `k`, and leave it where the disk says. */
  ghost predicate Tracks(limit: int, k: string, start: Cursor, s0: Run, saved: map<string, Cursor>, log: seq<Event>,
                         now: map<string, Cursor>)
  {
    && now == Replay(saved, log)
    && LegalLog(limit, k, s0, log)
    && AdvanceLog(k, s0, log).history == s0.history
    && AdvanceLog(k, s0, log).at == At(now, k, start)
  }

  ghost predicate AnswersFaithfully(w: World, k: string, history: seq<Message>) {
    forall c :: w.messages(k, c).Ok? ==> Faithful(w.messages(k, c).value, history, c)
  }

  lemma EventIsHonest(cfg: Config, w: World, p: Pending, history: seq<Message>)
    requires AnswersFaithfully(w, Key(p.chat), history)
    ensures Honest(cfg.batchChars, EventOf(cfg, w, p), history, p.cur)
  {
    var e := EventOf(cfg, w, p);
    if e.outcome != Unanswered {
      assert e.reading == ReadingOf(LinesOf(w, p.chat), cfg.batchChars, p.chat.lastMessageAt, p.cur, e.raw);
    }
  }

  /** One more batch on the log. */
  lemma RecordTracks(limit: int, k: string, start: Cursor, s0: Run, saved: map<string, Cursor>, log: seq<Event>,
                     now: map<string, Cursor>, e: Event)
    requires Tracks(limit, k, start, s0, saved, log, now)
    requires Key(e.chat) == k ==> Honest(limit, e, s0.history, At(now, k, start))
    ensures Tracks(limit, k, start, s0, saved, log + [e], if e.Written() then now[Key(e.chat) := e.reading.next] else now)
  {
    var more := log + [e];
    assert more[..|more|-1] == log && more[|more|-1] == e;
  }

  lemma {:induction false} PassTracks(cfg: Config, w: World, tick: int, queue: seq<Pending>, next: seq<Pending>, s: State,
                                      k: string, start: Cursor, s0: Run, saved: map<string, Cursor>)
    requires Tracks(cfg.batchChars, k, start, s0, saved, s.log, s.saved) && AnswersFaithfully(w, k, s0.history)
    requires DistinctChats(next + queue) && StandsAt(next + queue, k, At(s.saved, k, start))
    ensures var r := Pass(cfg, w, tick, queue, next, s);
      && Tracks(cfg.batchChars, k, start, s0, saved, r.s.log, r.s.saved)
      && (r.Through? ==> DistinctChats(r.next) && StandsAt(r.next, k, At(r.s.saved, k, start)))
    decreases |queue|
  {
    if queue == [] {
      assert next + queue == next;
    } else if s.batches < cfg.batchesPerTick {
      var p, rest := queue[0], queue[1..];
      if Waits(cfg, p, s) {
        assert (next + [p]) + rest == next + queue;
        PassTracks(cfg, w, tick, rest, next + [p], s, k, start, s0, saved);
      } else {
        var e := EventOf(cfg, w, p);
        StepTracks(cfg, w, queue, next, s, k, start, s0, saved);
        if !e.Error() {
          PassTracks(cfg, w, tick, rest, if e.Done() then next else next + [p.(cur := e.reading.next)],
                     Serve(Record(s, e), e, tick), k, start, s0, saved);
        }
      }
    }
  }

  lemma UnfinishedIsSaved(e: Event)
    requires !e.Error() && !e.Done()
    ensures e.outcome == Set(Saved)
  {
    match e.outcome
    case Set(Saved) =>
    case Set(NotSaved) =>
    case Set(SavedButFailed) =>
    case _ =>
  }

  lemma StepTracks(cfg: Config, w: World, queue: seq<Pending>, next: seq<Pending>, s: State,
                   k: string, start: Cursor, s0: Run, saved: map<string, Cursor>)
    requires Tracks(cfg.batchChars, k, start, s0, saved, s.log, s.saved) && AnswersFaithfully(w, k, s0.history)
    requires queue != [] && DistinctChats(next + queue) && StandsAt(next + queue, k, At(s.saved, k, start))
    ensures var e, s' := EventOf(cfg, w, queue[0]), Record(s, EventOf(cfg, w, queue[0]));
      && Tracks(cfg.batchChars, k, start, s0, saved, s'.log, s'.saved)
      && (!e.Error() ==>
            var next' := if e.Done() then next else next + [queue[0].(cur := e.reading.next)];
            DistinctChats(next' + queue[1..]) && StandsAt(next' + queue[1..], k, At(s'.saved, k, start)))
  {
    var p, e := queue[0], EventOf(cfg, w, queue[0]);
    assert (next + queue)[|next|] == p && p in next + queue;
    if Key(p.chat) == k {
      EventIsHonest(cfg, w, p, s0.history);
    }
    RecordTracks(cfg.batchChars, k, start, s0, saved, s.log, s.saved, e);
    if !e.Error() {
      TurnTaken(queue, next, s.saved, k, start, e);
    }
  }

  lemma TurnTaken(queue: seq<Pending>, next: seq<Pending>, now: map<string, Cursor>, k: string, start: Cursor, e: Event)
    requires queue != [] && DistinctChats(next + queue) && StandsAt(next + queue, k, At(now, k, start))
    requires !e.Error() && e.chat == queue[0].chat
    ensures var next' := if e.Done() then next else next + [queue[0].(cur := e.reading.next)];
      var now' := if e.Written() then now[Key(e.chat) := e.reading.next] else now;
      DistinctChats(next' + queue[1..]) && StandsAt(next' + queue[1..], k, At(now', k, start))
  {
    var was, n := next + queue, |next|;
    var now' := if e.Written() then now[Key(e.chat) := e.reading.next] else now;
    if e.Done() {
      assert next + queue[1..] == was[..n] + was[n+1..];
      DropKept(was, n, k, At(now, k, start), At(now', k, start));
    } else {
      UnfinishedIsSaved(e);
      var p := queue[0].(cur := e.reading.next);
      assert (next + [p]) + queue[1..] == was[n := p];
      SwapKept(was, n, p, k, At(now, k, start), At(now', k, start));
    }
  }

  lemma DropKept(was: seq<Pending>, n: nat, k: string, at: Cursor, at': Cursor)
    requires n < |was| && DistinctChats(was) && StandsAt(was, k, at) && (Key(was[n].chat) != k ==> at' == at)
    ensures DistinctChats(was[..n] + was[n+1..]) && StandsAt(was[..n] + was[n+1..], k, at')
  {
    var now := was[..n] + was[n+1..];
    assert forall i :: 0 <= i < |now| ==> now[i] == was[if i < n then i else i + 1];
    forall i | 0 <= i < |now| && Key(now[i].chat) == k ensures now[i].cur == at' {
      assert now[i] in was;
      assert Key(now[i].chat) != Key(was[n].chat);
    }
  }

  lemma SwapKept(was: seq<Pending>, n: nat, p: Pending, k: string, at: Cursor, at': Cursor)
    requires n < |was| && DistinctChats(was) && StandsAt(was, k, at)
    requires Key(p.chat) == Key(was[n].chat) && (if Key(p.chat) == k then p.cur == at' else at' == at)
    ensures DistinctChats(was[n := p]) && StandsAt(was[n := p], k, at')
  {
    var now := was[n := p];
    forall i | 0 <= i < |now| && Key(now[i].chat) == k ensures now[i].cur == at' {
      assert i != n ==> now[i] in was && Key(was[i].chat) != Key(was[n].chat);
    }
  }

  lemma {:induction false} PassesTrack(cfg: Config, w: World, tick: int, queue: seq<Pending>, s: State,
                                       k: string, start: Cursor, s0: Run, saved: map<string, Cursor>)
    requires Finite(w) && s.history == Backlog(queue)
    requires Tracks(cfg.batchChars, k, start, s0, saved, s.log, s.saved) && AnswersFaithfully(w, k, s0.history)
    requires DistinctChats(queue) && StandsAt(queue, k, At(s.saved, k, start))
    ensures var r := Passes(cfg, w, tick, queue, s); Tracks(cfg.batchChars, k, start, s0, saved, r.s.log, r.s.saved)
    decreases Work(w, queue)
  {
    if queue != [] {
      PassProgress(cfg, w, tick, queue, [], s);
      assert [] + queue == queue;
      PassTracks(cfg, w, tick, queue, [], s, k, start, s0, saved);
      var r := Pass(cfg, w, tick, queue, [], s);
      if r.Through? {
        PassesTrack(cfg, w, tick, r.next, r.s, k, start, s0, saved);
      }
    }
  }

  ghost predicate ListedOnce(chats: seq<Chat>) {
    forall i, j :: 0 <= i < j < |chats| ==> Key(chats[i]) != Key(chats[j])
  }

  /** A chat that has no cursor yet starts where it always would. */
  ghost predicate StartsAt(cfg: Config, w: World, k: string, start: Cursor) {
    w.chats.Ok? ==> forall c :: c in w.chats.value && Key(c) == k && Start(cfg, w, c).Ok? ==> Cursor(Start(cfg, w, c).value, "") == start
  }

  lemma {:induction false} QueueDistinct(cfg: Config, w: World, saved: map<string, Cursor>, current: set<string>, chats: seq<Chat>)
    requires ListedOnce(chats) && Queue(cfg, w, saved, current, chats).Ok?
    ensures var queue := Queue(cfg, w, saved, current, chats).value;
      && DistinctChats(queue)
      && (forall p :: p in queue ==>
            p.chat in chats && Position(cfg, w, saved, p.chat) == Ok(p.cur) && p.chat.lastMessageAt > p.cur.at)
  {
    if chats != [] {
      var n := |chats| - 1;
      var init := chats[..n];
      if Queue(cfg, w, saved, current, init).Ok? {
        QueueDistinct(cfg, w, saved, current, init);
        var queue, was := Queue(cfg, w, saved, current, chats).value, Queue(cfg, w, saved, current, init).value;
        forall p | p in was ensures Key(p.chat) != Key(chats[n]) {
          var i :| 0 <= i < n && chats[i] == p.chat;
        }
        if queue != was {
          assert queue == was + [queue[|queue|-1]] && queue[|queue|-1].chat == chats[n];
          forall i | 0 <= i < |was| ensures Key(queue[i].chat) != Key(queue[|was|].chat) {
            assert was[i] in was;
          }
        }
      }
    }
  }

  lemma QueueStands(cfg: Config, w: World, saved: map<string, Cursor>, current: set<string>, chats: seq<Chat>,
                    k: string, start: Cursor)
    requires ListedOnce(chats) && Queue(cfg, w, saved, current, chats).Ok?
    requires forall c :: c in chats && Key(c) == k && Start(cfg, w, c).Ok? ==> Cursor(Start(cfg, w, c).value, "") == start
    ensures var queue := Queue(cfg, w, saved, current, chats).value;
      DistinctChats(queue) && StandsAt(queue, k, At(saved, k, start))
  {
    QueueDistinct(cfg, w, saved, current, chats);
  }

  lemma {:induction false} InsertKeepsDistinct(x: Pending, xs: seq<Pending>, less: (Pending, Pending) -> bool)
    requires DistinctChats(xs) && forall y :: y in xs ==> Key(y.chat) != Key(x.chat)
    ensures DistinctChats(Insert(x, xs, less))
  {
    if xs == [] || !less(xs[0], x) {
    } else {
      InsertKeepsDistinct(x, xs[1..], less);
      var rest := Insert(x, xs[1..], less);
      InsertKeeps(x, xs[1..], less);
      forall j | 0 <= j < |rest| ensures Key(rest[j].chat) != Key(xs[0].chat) {
        assert rest[j] in multiset(rest);
        assert rest[j] == x || rest[j] in xs[1..];
      }
    }
  }

  lemma {:induction false} SortKeepsDistinct(xs: seq<Pending>, less: (Pending, Pending) -> bool)
    requires DistinctChats(xs)
    ensures DistinctChats(StableSort(xs, less))
  {
    if xs != [] {
      SortKeepsDistinct(xs[1..], less);
      SortMembers(xs[1..], less);
      InsertKeepsDistinct(xs[0], StableSort(xs[1..], less), less);
    }
  }

  lemma SortKeepsStands(xs: seq<Pending>, less: (Pending, Pending) -> bool, k: string, at: Cursor)
    requires DistinctChats(xs) && StandsAt(xs, k, at)
    ensures DistinctChats(StableSort(xs, less)) && StandsAt(StableSort(xs, less), k, at)
  {
    SortKeepsDistinct(xs, less);
    SortMembers(xs, less);
  }

  lemma NothingTracks(limit: int, k: string, start: Cursor, s0: Run, saved: map<string, Cursor>)
    requires s0.at == At(saved, k, start)
    ensures Tracks(limit, k, start, s0, saved, [], saved)
  {
  }

  /** Whatever a tick comes to, its batches of one chat are a legal run of that chat. */
  lemma TickTracks(cfg: Config, w: World, mem: Memory, saved: map<string, Cursor>, k: string, start: Cursor, s0: Run)
    requires Finite(w) && AnswersFaithfully(w, k, s0.history) && StartsAt(cfg, w, k, start)
    requires w.chats.Ok? ==> ListedOnce(w.chats.value)
    requires s0.at == At(saved, k, start)
    ensures var t := TickOf(cfg, w, mem, saved); Tracks(cfg.batchChars, k, start, s0, saved, t.s.log, t.saved)
  {
    hide Finite, AnswersFaithfully, ListedOnce, Tracks, Passes, StableSort, Queue, DistinctChats, StandsAt;
    NothingTracks(cfg.batchChars, k, start, s0, saved);
    if w.chats.Ok? {
      var listed := Queue(cfg, w, saved, mem.current, w.chats.value);
      if listed.Ok? {
        var queue := StableSort(listed.value, SoonerIn(mem.served));
        QueueStands(cfg, w, saved, mem.current, w.chats.value, k, start);
        SortKeepsStands(listed.value, SoonerIn(mem.served), k, At(saved, k, start));
        PassesTrack(cfg, w, mem.ticks + 1, queue, InitialState(mem, saved, queue), k, start, s0, saved);
      }
    }
  }

  // ---- runs of ticks ----

  /** One tick of a process, in a memory a restart may have emptied; the process dies after
      `cut` of its batches, and `midway` inside the next, once the model is through with it.
      A cut past the last batch is a tick that ended. */
  datatype Session = Session(w: World, mem: Memory, histories: string -> seq<Message>, cut: nat, midway: bool)

  function LogOf(cfg: Config, x: Session, saved: map<string, Cursor>): seq<Event>
    requires Finite(x.w)
  {
    TickOf(cfg, x.w, x.mem, saved).s.log
  }

  function CutLog(cfg: Config, x: Session, saved: map<string, Cursor>): seq<Event>
    requires Finite(x.w)
  {
    var log := LogOf(cfg, x, saved);
    if x.cut <= |log| then log[..x.cut] else log
  }

  /** The batch the process died in, when it was one of chat `k`'s and past its extraction. */
  predicate DiedIn(cfg: Config, x: Session, saved: map<string, Cursor>, k: string)
    requires Finite(x.w)
  {
    var log := LogOf(cfg, x, saved);
    x.midway && x.cut < |log| && log[x.cut].outcome.Set? && Key(log[x.cut].chat) == k
  }

  /** What is asked of the world: each chat is listed once, its history has changed only past
      the cursor, and a chat's first cursor does not wander. */
  ghost predicate Standing(cfg: Config, x: Session, k: string, start: Cursor, s: Run) {
    && Finite(x.w) && StartsAt(cfg, x.w, k, start)
    && (x.w.chats.Ok? ==> ListedOnce(x.w.chats.value))
    && Ascending(x.histories(k)) && UpTo(x.histories(k), s.at) == UpTo(s.history, s.at)
  }

  /** And of the source: answers come from the chat's history. */
  ghost predicate Sound(cfg: Config, x: Session, k: string, start: Cursor, s: Run) {
    Standing(cfg, x, k, start, s) && AnswersFaithfully(x.w, k, x.histories(k))
  }

  function AfterSession(cfg: Config, x: Session, saved: map<string, Cursor>, k: string, s: Run): Run
    requires Finite(x.w)
  {
    var s' := AdvanceLog(k, s.(history := x.histories(k)), CutLog(cfg, x, saved));
    if DiedIn(cfg, x, saved, k) then Advance(s', DiedBeforeSave(LogOf(cfg, x, saved)[x.cut])) else s'
  }

  /** Any start of a legal log is one. */
  lemma {:induction false} PrefixTracks(limit: int, k: string, s0: Run, saved: map<string, Cursor>, start: Cursor,
                                        log: seq<Event>, n: nat)
    requires n <= |log| && LegalLog(limit, k, s0, log) && s0.at == At(saved, k, start)
    ensures LegalLog(limit, k, s0, log[..n])
    ensures AdvanceLog(k, s0, log[..n]).at == At(Replay(saved, log[..n]), k, start)
    ensures n < |log| && Key(log[n].chat) == k ==> Legal(limit, AdvanceLog(k, s0, log[..n]), Did(log[n]))
    decreases |log|
  {
    if n < |log| {
      assert log[..|log|-1][..n] == log[..n];
      PrefixTracks(limit, k, s0, saved, start, log[..|log|-1], n);
    } else {
      assert log[..n] == log;
      if log != [] {
        var init := log[..|log|-1];
        assert init[..|init|] == init;
        PrefixTracks(limit, k, s0, saved, start, init, |init|);
      }
    }
  }

  lemma {:induction false} LogKeeps(limit: int, k: string, start: Cursor, s: Run, log: seq<Event>)
    requires Exact(start, s) && LegalLog(limit, k, s, log)
    ensures Exact(start, AdvanceLog(k, s, log)) && !AdvanceLog(k, s, log).at.Before(s.at)
    decreases |log|
  {
    CursorOrder(s.at, s.at, s.at);
    if log != [] {
      var init, e := log[..|log|-1], log[|log|-1];
      LogKeeps(limit, k, start, s, init);
      if Key(e.chat) == k {
        var s1, s2 := AdvanceLog(k, s, init), AdvanceLog(k, s, log);
        MoveKeeps(limit, start, s1, Did(e));
        CursorOrder(s2.at, s.at, s1.at);
        CursorOrder(s.at, s1.at, s2.at);
      }
    }
  }

  /** A session, however it ends, keeps every chat's account exact and its cursor on disk. */
  lemma SessionKeeps(cfg: Config, x: Session, saved: map<string, Cursor>, k: string, start: Cursor, s: Run)
    requires Sound(cfg, x, k, start, s) && Exact(start, s) && s.at == At(saved, k, start)
    ensures var s' := AfterSession(cfg, x, saved, k, s);
      Exact(start, s') && s'.at == At(Replay(saved, CutLog(cfg, x, saved)), k, start) && !s'.at.Before(s.at)
  {
    var s0 := s.(history := x.histories(k));
    MoveKeeps(cfg.batchChars, start, s, Grow(x.histories(k)));
    TickTracks(cfg, x.w, x.mem, saved, k, start, s0);
    var log, done := LogOf(cfg, x, saved), CutLog(cfg, x, saved);
    assert done == log[..|done|];
    PrefixTracks(cfg.batchChars, k, s0, saved, start, log, |done|);
    LogKeeps(cfg.batchChars, k, start, s0, done);
    if DiedIn(cfg, x, saved, k) {
      MoveKeeps(cfg.batchChars, start, AdvanceLog(k, s0, done), DiedBeforeSave(log[x.cut]));
    }
  }

  ghost predicate AllSound(cfg: Config, xs: seq<Session>, saved: map<string, Cursor>, k: string, start: Cursor, s: Run) {
    xs == [] ||
    (Sound(cfg, xs[0], k, start, s) &&
     AllSound(cfg, xs[1..], Replay(saved, CutLog(cfg, xs[0], saved)), k, start, AfterSession(cfg, xs[0], saved, k, s)))
  }

  ghost function AfterAll(cfg: Config, xs: seq<Session>, saved: map<string, Cursor>, k: string, start: Cursor, s: Run): Run
    requires AllSound(cfg, xs, saved, k, start, s)
  {
    if xs == [] then s
    else AfterAll(cfg, xs[1..], Replay(saved, CutLog(cfg, xs[0], saved)), k, start, AfterSession(cfg, xs[0], saved, k, s))
  }

  /** The syncer's safety: from a chat never read, over any sessions whatever, its saved
      batches are the messages after its start and up to its cursor, once each, in order. */
  lemma {:induction false} TicksNeitherSkipNorRepeat(cfg: Config, xs: seq<Session>, saved: map<string, Cursor>, k: string,
                                                     start: Cursor, s: Run)
    requires AllSound(cfg, xs, saved, k, start, s) && Exact(start, s) && s.at == At(saved, k, start)
    ensures Exact(start, AfterAll(cfg, xs, saved, k, start, s)) && !AfterAll(cfg, xs, saved, k, start, s).at.Before(s.at)
    decreases |xs|
  {
    CursorOrder(s.at, s.at, s.at);
    if xs != [] {
      var s' := AfterSession(cfg, xs[0], saved, k, s);
      SessionKeeps(cfg, xs[0], saved, k, start, s);
      TicksNeitherSkipNorRepeat(cfg, xs[1..], Replay(saved, CutLog(cfg, xs[0], saved)), k, start, s');
      CursorOrder(AfterAll(cfg, xs, saved, k, start, s).at, s.at, s'.at);
      CursorOrder(s.at, s'.at, AfterAll(cfg, xs, saved, k, start, s).at);
    }
  }

  lemma UnreadChatIsExact(start: Cursor, history: seq<Message>)
    requires Ascending(history)
    ensures Exact(start, Run(history, start, [], []))
  {
    CursorOrder(start, start, start);
  }
}
