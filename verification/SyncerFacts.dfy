/** What a tick does to each chat, told by what the world answered: when a cursor is written, what
    was extracted before it was, when a batch is an error, a stall, or the end of a chat. */
module SyncerFacts {
  import opened Basics
  import opened Sorting
  import opened ChatOrder
  import opened Syncer
  import opened SyncerSafety

  // ---- one batch ----

  predicate Answered(w: World, e: Event) {
    w.messages(Key(e.chat), e.cur).Ok?
  }

  predicate Moves(w: World, e: Event) {
    Answered(w, e) && e.cur.Before(e.reading.next)
  }

  /** Some message of the batch has something to read. */
  predicate HasText(w: World, e: Event) {
    exists m :: m in e.reading.taken && w.line(e.chat, m) != ""
  }

  /** The model was asked about the batch. */
  predicate Asked(w: World, e: Event) {
    Moves(w, e) && HasText(w, e)
  }

  /** Whatever there was to extract has been. */
  predicate Extracted(w: World, e: Event) {
    HasText(w, e) ==> w.extract(Key(e.chat), e.cur)
  }

  /** The new cursor is on disk. */
  predicate Wrote(w: World, e: Event) {
    Moves(w, e) && Extracted(w, e) && w.save(Key(e.chat), e.reading.next) != NotSaved
  }

  predicate Errs(w: World, e: Event) {
    !Answered(w, e) || (Moves(w, e) && !(Extracted(w, e) && w.save(Key(e.chat), e.reading.next) == Saved))
  }

  /** The cursor cannot move, although the chat has later activity. */
  predicate StalledAt(w: World, e: Event) {
    Answered(w, e) && !e.cur.Before(e.reading.next) && e.chat.lastMessageAt > e.cur.at
  }

  /** The chat has been read, and saved, up to its last activity. */
  predicate ReadToEnd(w: World, e: Event) {
    && Answered(w, e) && !Errs(w, e)
    && e.chat.lastMessageAt <= if Moves(w, e) then e.reading.next.at else e.cur.at
  }

  /** A batch of the tick. */
  ghost predicate IsBatch(cfg: Config, w: World, e: Event) {
    exists p :: e == EventOf(cfg, w, p)
  }

  /** A cursor is written only over a batch whose text the model is through with; a failed
      extraction is an error and writes nothing; and so on for every way a batch can end. */
  lemma BatchSpelled(cfg: Config, w: World, e: Event)
    requires IsBatch(cfg, w, e)
    ensures e.Written() <==> Wrote(w, e)
    ensures e.Error() <==> Errs(w, e)
    ensures e.Charged() <==> Asked(w, e)
    ensures e.outcome.Stalled? <==> StalledAt(w, e)
    ensures e.outcome == AtEnd || (e.outcome == Set(Saved) && e.Done()) <==> ReadToEnd(w, e)
    ensures Answered(w, e) ==> e.raw == w.messages(Key(e.chat), e.cur).value
  {
    hide Unread, TakeFrom;
    var p :| e == EventOf(cfg, w, p);
    var raw := w.messages(Key(p.chat), p.cur);
    if raw.Ok? {
      TextSpelled(cfg, w, p, raw.value);
    }
  }

  lemma TextSpelled(cfg: Config, w: World, p: Pending, raw: seq<Message>)
    ensures var r := ReadingOf(LinesOf(w, p.chat), cfg.batchChars, p.chat.lastMessageAt, p.cur, raw);
      r.readable <==> exists m :: m in r.taken && w.line(p.chat, m) != ""
  {
    hide Unread, TakeFrom;
    var r := ReadingOf(LinesOf(w, p.chat), cfg.batchChars, p.chat.lastMessageAt, p.cur, raw);
    assert r.readable <==> Readable(LinesOf(w, p.chat), r.taken);
  }

  // ---- a tick ----

  /** Every batch so far but a last that broke the tick ended without an error, and disk, marks
      and stalls are what they make. */
  ghost predicate Kept(cfg: Config, w: World, saved: map<string, Cursor>, current: set<string>, s: State, broke: bool) {
    && (forall e :: e in s.log ==> IsBatch(cfg, w, e))
    && (forall i :: 0 <= i < |s.log| ==> (s.log[i].Error() <==> broke && i == |s.log| - 1))
    && (broke ==> s.log != [])
    && s.saved == Replay(saved, s.log)
    && (forall k :: k in s.current <==> k in current || CaughtUp(w, s.log, k))
    && (forall k :: k in s.stalled <==> DidStall(w, s.log, k))
  }

  ghost predicate CaughtUp(w: World, log: seq<Event>, k: string) {
    exists e :: e in log && Key(e.chat) == k && ReadToEnd(w, e)
  }

  ghost predicate DidStall(w: World, log: seq<Event>, k: string) {
    exists e :: e in log && Key(e.chat) == k && StalledAt(w, e)
  }

  lemma RecordKeeps(cfg: Config, w: World, saved: map<string, Cursor>, current: set<string>, s: State, e: Event)
    requires Kept(cfg, w, saved, current, s, false) && IsBatch(cfg, w, e)
    ensures Kept(cfg, w, saved, current, Record(s, e), e.Error())
  {
    hide IsBatch, ReadToEnd, StalledAt;
    BatchSpelled(cfg, w, e);
    var s' := Record(s, e);
    assert s'.log[..|s'.log|-1] == s.log;
    assert forall x :: x in s'.log <==> x in s.log || x == e;
    MarksGrow(w, s.log, e);
  }

  lemma MarksGrow(w: World, log: seq<Event>, e: Event)
    ensures forall k :: CaughtUp(w, log + [e], k) <==> CaughtUp(w, log, k) || (Key(e.chat) == k && ReadToEnd(w, e))
    ensures forall k :: DidStall(w, log + [e], k) <==> DidStall(w, log, k) || (Key(e.chat) == k && StalledAt(w, e))
  {
    hide ReadToEnd, StalledAt, Key;
    assert forall x :: x in log + [e] <==> x in log || x == e;
    forall k ensures CaughtUp(w, log + [e], k) <==> CaughtUp(w, log, k) || (Key(e.chat) == k && ReadToEnd(w, e)) {
      assert e in log + [e];
      if x :| x in log && Key(x.chat) == k && ReadToEnd(w, x) {
        assert x in log + [e];
      }
    }
    forall k ensures DidStall(w, log + [e], k) <==> DidStall(w, log, k) || (Key(e.chat) == k && StalledAt(w, e)) {
      assert e in log + [e];
      if x :| x in log && Key(x.chat) == k && StalledAt(w, x) {
        assert x in log + [e];
      }
    }
  }

  lemma ServeKeeps(cfg: Config, w: World, saved: map<string, Cursor>, current: set<string>, s: State, e: Event, tick: int)
    requires Kept(cfg, w, saved, current, s, false)
    ensures Kept(cfg, w, saved, current, Serve(s, e, tick), false)
  {
    hide IsBatch, CaughtUp, DidStall;
  }

  lemma {:induction false} PassKeeps(cfg: Config, w: World, tick: int, queue: seq<Pending>, next: seq<Pending>, s: State,
                                     saved: map<string, Cursor>, current: set<string>)
    requires Kept(cfg, w, saved, current, s, false)
    ensures var r := Pass(cfg, w, tick, queue, next, s); Kept(cfg, w, saved, current, r.s, r.Broke?)
    decreases |queue|
  {
    hide Kept, EventOf, Serve, Record;
    if queue != [] && s.batches < cfg.batchesPerTick {
      var p, rest := queue[0], queue[1..];
      if Waits(cfg, p, s) {
        PassKeeps(cfg, w, tick, rest, next + [p], s, saved, current);
      } else {
        var e := EventOf(cfg, w, p);
        RecordKeeps(cfg, w, saved, current, s, e);
        if !e.Error() {
          ServeKeeps(cfg, w, saved, current, Record(s, e), e, tick);
          PassKeeps(cfg, w, tick, rest, if e.Done() then next else next + [p.(cur := e.reading.next)], Serve(Record(s, e), e, tick), saved, current);
        }
      }
    }
  }

  lemma {:induction false} PassesKeep(cfg: Config, w: World, tick: int, queue: seq<Pending>, s: State,
                                      saved: map<string, Cursor>, current: set<string>)
    requires Finite(w) && s.history == Backlog(queue) && Kept(cfg, w, saved, current, s, false)
    ensures var r := Passes(cfg, w, tick, queue, s); Kept(cfg, w, saved, current, r.s, r.Broke?)
    decreases Work(w, queue)
  {
    hide Kept, Pass, Finite;
    if queue != [] {
      PassProgress(cfg, w, tick, queue, [], s);
      PassKeeps(cfg, w, tick, queue, [], s, saved, current);
      var r := Pass(cfg, w, tick, queue, [], s);
      if r.Through? {
        PassesKeep(cfg, w, tick, r.next, r.s, saved, current);
      }
    }
  }

  lemma NothingKept(cfg: Config, w: World, mem: Memory, saved: map<string, Cursor>, queue: seq<Pending>)
    ensures Kept(cfg, w, saved, mem.current, InitialState(mem, saved, queue), false)
  {
  }

  lemma TickKeeps(cfg: Config, w: World, mem: Memory, saved: map<string, Cursor>)
    requires Finite(w)
    ensures var t := TickOf(cfg, w, mem, saved);
      && Kept(cfg, w, saved, mem.current, t.s, t.failed && t.s.log != [])
      && t.saved == t.s.saved && t.mem.current == t.s.current && t.stalled == t.s.stalled && t.mem.ticks == mem.ticks + 1
  {
    hide Kept, Passes, StableSort, Finite;
    NothingKept(cfg, w, mem, saved, []);
    if w.chats.Ok? {
      var listed := Queue(cfg, w, saved, mem.current, w.chats.value);
      if listed.Ok? {
        var queue := StableSort(listed.value, SoonerIn(mem.served));
        NothingKept(cfg, w, mem, saved, queue);
        PassesKeep(cfg, w, mem.ticks + 1, queue, InitialState(mem, saved, queue), saved, mem.current);
        BrokeHasLog(cfg, w, saved, mem.current, Passes(cfg, w, mem.ticks + 1, queue, InitialState(mem, saved, queue)));
      }
    }
  }

  lemma BrokeHasLog(cfg: Config, w: World, saved: map<string, Cursor>, current: set<string>, r: Passed)
    requires Kept(cfg, w, saved, current, r.s, r.Broke?)
    ensures r.Broke? ==> r.s.log != []
  {
  }

  /** Over a tick: the first batch in error is the last, and the tick then fails; the chats read to
      their end are those that were, and those a batch of this tick read to it; and the stalls
      reported are the ones there were. */
  lemma TickSpelled(cfg: Config, w: World, mem: Memory, saved: map<string, Cursor>)
    requires Finite(w)
    ensures var t := TickOf(cfg, w, mem, saved);
      && (forall i :: 0 <= i < |t.s.log| ==> (Errs(w, t.s.log[i]) <==> t.failed && i == |t.s.log| - 1))
      && (forall k :: k in t.mem.current <==> k in mem.current || CaughtUp(w, t.s.log, k))
      && (forall k :: k in t.stalled <==> DidStall(w, t.s.log, k))
  {
    hide TickOf, IsBatch, CaughtUp, DidStall;
    TickKeeps(cfg, w, mem, saved);
    var log := TickOf(cfg, w, mem, saved).s.log;
    forall i | 0 <= i < |log| ensures log[i].Error() <==> Errs(w, log[i]) {
      assert log[i] in log;
      BatchSpelled(cfg, w, log[i]);
    }
  }

  // ---- when a tick has more to do ----

  /** A batch of the chat ended it for this tick, without an error. */
  ghost predicate Finished(log: seq<Event>, k: string) {
    exists i :: 0 <= i < |log| && Key(log[i].chat) == k && log[i].Done() && !log[i].Error()
  }

  ghost predicate Waiting(queue: seq<Pending>, k: string) {
    exists i :: 0 <= i < |queue| && Key(queue[i].chat) == k
  }

  lemma FinishedStays(log: seq<Event>, e: Event, k: string)
    ensures Finished(log, k) || (Key(e.chat) == k && e.Done() && !e.Error()) ==> Finished(log + [e], k)
  {
    hide Key;
    var more := log + [e];
    assert more[|log|] == e;
    if i :| 0 <= i < |log| && Key(log[i].chat) == k && log[i].Done() && !log[i].Error() {
      assert more[i] == log[i];
    }
  }

  lemma WaitingStays(queue: seq<Pending>, p: Pending, k: string)
    ensures Waiting(queue, k) || Key(p.chat) == k ==> Waiting(queue + [p], k)
  {
    hide Key;
    var more := queue + [p];
    assert more[|queue|] == p;
    if i :| 0 <= i < |queue| && Key(queue[i].chat) == k {
      assert more[i] == queue[i];
    }
  }

  lemma WaitingRest(queue: seq<Pending>, k: string)
    requires Waiting(queue, k)
    ensures Key(queue[0].chat) == k || Waiting(queue[1..], k)
  {
    hide Key;
    var i :| 0 <= i < |queue| && Key(queue[i].chat) == k;
    assert i > 0 ==> queue[1..][i-1] == queue[i];
  }

  /** A pass that goes through has each chat finished, or waiting still; one the budget stops has
      spent it. */
  lemma {:induction false} PassFinishes(cfg: Config, w: World, tick: int, queue: seq<Pending>, next: seq<Pending>, s: State, k: string)
    ensures var r := Pass(cfg, w, tick, queue, next, s);
      && (r.Through? && (Waiting(queue, k) || Waiting(next, k) || Finished(s.log, k)) ==> Waiting(r.next, k) || Finished(r.s.log, k))
      && (r.OutOfBudget? ==> r.s.batches >= cfg.batchesPerTick)
    decreases |queue|
  {
    hide Waiting, Finished, EventOf, Key, Waits;
    if queue == [] {
      NoneWaits(k);
    } else if s.batches < cfg.batchesPerTick {
      var p, rest := queue[0], queue[1..];
      if Waiting(queue, k) {
        WaitingRest(queue, k);
      }
      if Waits(cfg, p, s) {
        WaitingStays(next, p, k);
        PassFinishes(cfg, w, tick, rest, next + [p], s, k);
      } else {
        var e := EventOf(cfg, w, p);
        EventChat(cfg, w, p);
        if !e.Error() {
          FinishedStays(s.log, e, k);
          WaitingStays(next, p.(cur := e.reading.next), k);
          PassFinishes(cfg, w, tick, rest, if e.Done() then next else next + [p.(cur := e.reading.next)], Serve(Record(s, e), e, tick), k);
        }
      }
    }
  }

  lemma NoneWaits(k: string)
    ensures !Waiting([], k)
  {
  }

  lemma EventChat(cfg: Config, w: World, p: Pending)
    ensures EventOf(cfg, w, p).chat == p.chat
  {
    hide ReadingOf, OutcomeOf;
  }

  lemma {:induction false} PassesFinish(cfg: Config, w: World, tick: int, queue: seq<Pending>, s: State, k: string)
    requires Finite(w) && s.history == Backlog(queue)
    ensures var r := Passes(cfg, w, tick, queue, s);
      && (r.Through? && (Waiting(queue, k) || Finished(s.log, k)) ==> Finished(r.s.log, k))
      && (r.OutOfBudget? ==> r.s.batches >= cfg.batchesPerTick)
    decreases Work(w, queue)
  {
    hide Waiting, Finished, Pass, Finite;
    NoneWaits(k);
    if queue != [] {
      PassProgress(cfg, w, tick, queue, [], s);
      PassFinishes(cfg, w, tick, queue, [], s, k);
      var r := Pass(cfg, w, tick, queue, [], s);
      if r.Through? {
        PassesFinish(cfg, w, tick, r.next, r.s, k);
      }
    }
  }

  /** A tick that did not fail says there is more iff its budget stopped it: otherwise every chat
      queued was read to its end in it, or stalled. */
  lemma MoreSpelled(cfg: Config, w: World, mem: Memory, saved: map<string, Cursor>, p: Pending)
    requires Finite(w) && !TickOf(cfg, w, mem, saved).failed
    ensures var t := TickOf(cfg, w, mem, saved);
      && (t.more ==> t.batches >= cfg.batchesPerTick)
      && (!t.more && p in Queue(cfg, w, saved, mem.current, w.chats.value).value ==> Finished(t.s.log, Key(p.chat)))
  {
    hide Passes, StableSort, Finite, Finished, Waiting, Queue, Key;
    var listed := Queue(cfg, w, saved, mem.current, w.chats.value).value;
    var queue := StableSort(listed, SoonerIn(mem.served));
    PassesFinish(cfg, w, mem.ticks + 1, queue, InitialState(mem, saved, queue), Key(p.chat));
    if p in listed {
      SortMembers(listed, SoonerIn(mem.served));
      QueuedWaits(queue, p);
    }
  }

  lemma QueuedWaits(queue: seq<Pending>, p: Pending)
    requires p in queue
    ensures Waiting(queue, Key(p.chat))
  {
    hide Key;
    var i :| 0 <= i < |queue| && queue[i] == p;
  }

  /** No cursor is saved over text the model has not been through: what was written was extracted;
      and a batch whose extraction failed ends the tick and leaves every cursor on disk as it was. */
  lemma ExtractedBeforeSaved(cfg: Config, w: World, mem: Memory, saved: map<string, Cursor>, i: nat)
    requires Finite(w) && i < |TickOf(cfg, w, mem, saved).s.log|
    ensures var t := TickOf(cfg, w, mem, saved);
      var e := t.s.log[i];
      var before, after := Replay(saved, t.s.log[..i]), Replay(saved, t.s.log[..i+1]);
      && (after != before && HasText(w, e) ==> w.extract(Key(e.chat), e.cur))
      && (Moves(w, e) && HasText(w, e) && !w.extract(Key(e.chat), e.cur) ==>
            t.failed && i == |t.s.log| - 1 && after == before && t.saved == before)
      && (Moves(w, e) && Extracted(w, e) && w.save(Key(e.chat), e.reading.next) == Saved ==>
            after == before[Key(e.chat) := e.reading.next])
  {
    hide TickOf, IsBatch;
    TickKeeps(cfg, w, mem, saved);
    TickSpelled(cfg, w, mem, saved);
    var log := TickOf(cfg, w, mem, saved).s.log;
    assert log[i] in log;
    BatchSpelled(cfg, w, log[i]);
    assert log[..i+1][..i] == log[..i];
    if i == |log| - 1 {
      assert log[..i+1] == log;
    }
  }

  lemma {:induction false} NoWriteLeaves(saved: map<string, Cursor>, log: seq<Event>, k: string)
    requires forall j :: 0 <= j < |log| && Key(log[j].chat) == k ==> !log[j].Written()
    ensures (k in Replay(saved, log) <==> k in saved) && (k in saved ==> Replay(saved, log)[k] == saved[k])
    decreases |log|
  {
    hide Key;
    if log != [] {
      NoWriteLeaves(saved, log[..|log|-1], k);
    }
  }

  /** Of a chat the cursor on disk is that of the last batch that wrote one. */
  lemma {:induction false} LastWriteStands(saved: map<string, Cursor>, log: seq<Event>, k: string, i: nat)
    requires i < |log| && Key(log[i].chat) == k && log[i].Written()
    requires forall j :: i < j < |log| && Key(log[j].chat) == k ==> !log[j].Written()
    ensures k in Replay(saved, log) && Replay(saved, log)[k] == log[i].reading.next
    decreases |log|
  {
    hide Key;
    if i < |log| - 1 {
      var init := log[..|log|-1];
      assert init[i] == log[i] && forall j :: i < j < |init| ==> init[j] == log[j];
      LastWriteStands(saved, init, k, i);
    }
  }

  // ---- the queue ----

  /** A tick serves chats read to their end before those with history; of the former the most
      recently active first, of the latter the one served longest ago, and of those served
      together the most recently active. */
  lemma ServedInOrder(listed: seq<Pending>, served: map<string, int>, i: nat, j: nat)
    requires i < j < |listed|
    ensures var queue := StableSort(listed, SoonerIn(served));
      var a, b := queue[i], queue[j];
      && (b.live ==> a.live && a.chat.lastMessageAt >= b.chat.lastMessageAt)
      && (!a.live ==> var s, t := Served(served, Key(a.chat)), Served(served, Key(b.chat));
            s <= t && (s == t ==> a.chat.lastMessageAt >= b.chat.lastMessageAt))
  {
    hide StableSort, Key;
    SoonerIsOrder(served);
    SortSorts(listed, SoonerIn(served));
    var queue := StableSort(listed, SoonerIn(served));
    assert !SoonerIn(served)(queue[j], queue[i]);
  }

  /** A chat with no cursor yet is read from the configured start, or else from a lookback before
      its account was first looked at: whatever is that late is unread, and what is earlier is not. */
  lemma FirstReadsFrom(cfg: Config, w: World, saved: map<string, Cursor>, c: Chat, m: Message)
    requires Key(c) !in saved && !w.cursorFails(Key(c)) && m.id != ""
    ensures var p := Position(cfg, w, saved, c);
      && (p.Failed? <==> cfg.since.NotSet? && w.firstLook(c.account).Failed?)
      && (cfg.since.Since? ==> (!p.value.Passed(m) <==> m.at >= cfg.since.at))
      && (cfg.since.NotSet? && w.firstLook(c.account).Ok? ==>
            (!p.value.Passed(m) <==> m.at >= w.firstLook(c.account).value - cfg.lookback))
  {
  }

  /** A tick that cannot list the chats, or read the cursor of one it may read, fails and reads nothing. */
  lemma UnreadableFails(cfg: Config, w: World, mem: Memory, saved: map<string, Cursor>, c: Chat)
    requires Finite(w)
    requires w.chats.Failed? || (c in w.chats.value && !Denied(cfg, c) && w.cursorFails(Key(c)))
    ensures var t := TickOf(cfg, w, mem, saved); t.failed && t.s.log == [] && t.saved == saved
  {
    hide Denied, Key, Passes, StableSort;
    if w.chats.Ok? && Queue(cfg, w, saved, mem.current, w.chats.value).Ok? {
      QueueRead(cfg, w, saved, mem.current, w.chats.value, c);
      assert false;
    }
  }

  /** Keys tell the chats of one service apart: by id, or, when every chat has an account, by both. */
  lemma KeysTell(c: Chat, d: Chat)
    requires (c.account == "" <==> d.account == "") && '|' !in c.account && '|' !in d.account
    ensures Key(c) == Key(d) <==> c.id == d.id && c.account == d.account
  {
    if c.account != "" && Key(c) == Key(d) {
      FirstMark('|', c.account, c.id, d.account, d.id);
    }
  }

  /** A chat is denied by its id or by its name, however cased, and never by having no name. */
  lemma DeniedSpelled(cfg: Config, c: Chat)
    requires forall d :: d in cfg.deny ==> d != "" && Lower(d) == d
    ensures Denied(cfg, c) <==> exists d :: d in cfg.deny && (SameLetters(c.id, d) || SameLetters(c.name, d))
  {
    hide Lower, SameLetters;
    forall d | d in cfg.deny ensures SameLetters(c.id, d) <==> Lower(c.id) == d {
      LowerSame(c.id, d);
    }
    forall d | d in cfg.deny ensures (SameLetters(c.name, d) <==> Lower(c.name) == d) && (c.name == "" ==> Lower(c.name) != d) {
      LowerSame(c.name, d);
      LowerLength(c.name);
    }
  }

  // ---- over sessions ----

  /** A session saved a batch that held `m`, after its text was extracted. */
  ghost predicate SavedExtracted(cfg: Config, x: Session, saved: map<string, Cursor>, k: string, m: Message)
    requires Finite(x.w)
  {
    exists e :: e in CutLog(cfg, x, saved) && Key(e.chat) == k && m in e.reading.taken && Wrote(x.w, e) && Extracted(x.w, e)
  }

  ghost predicate SomeSavedExtracted(cfg: Config, xs: seq<Session>, saved: map<string, Cursor>, k: string, m: Message)
    requires forall i :: 0 <= i < |xs| ==> Finite(xs[i].w)
  {
    xs != [] && (SavedExtracted(cfg, xs[0], saved, k, m)
                 || SomeSavedExtracted(cfg, xs[1..], Replay(saved, CutLog(cfg, xs[0], saved)), k, m))
  }

  lemma {:induction false} ReadOfLog(k: string, s: Run, log: seq<Event>, m: Message)
    requires m in AdvanceLog(k, s, log).read && m !in s.read
    ensures exists e :: e in log && Key(e.chat) == k && e.Written() && m in e.reading.taken
    decreases |log|
  {
    hide Key;
    if log != [] {
      var init, e := log[..|log|-1], log[|log|-1];
      if m in AdvanceLog(k, s, init).read {
        ReadOfLog(k, s, init, m);
        var x :| x in init && Key(x.chat) == k && x.Written() && m in x.reading.taken;
        assert x in log;
      } else {
        assert e in log;
      }
    }
  }

  lemma SessionExtracts(cfg: Config, x: Session, saved: map<string, Cursor>, k: string, s: Run, m: Message)
    requires Finite(x.w) && m in AfterSession(cfg, x, saved, k, s).read && m !in s.read
    ensures SavedExtracted(cfg, x, saved, k, m)
  {
    hide TickOf, IsBatch, Extracted;
    var s0 := s.(history := x.histories(k));
    var log, done := LogOf(cfg, x, saved), CutLog(cfg, x, saved);
    ReadOfLog(k, s0, done, m);
    var e :| e in done && Key(e.chat) == k && e.Written() && m in e.reading.taken;
    TickKeeps(cfg, x.w, x.mem, saved);
    assert e in log;
    BatchSpelled(cfg, x.w, e);
    assert Wrote(x.w, e);
  }

  /** Every message a chat's saved batches add up to was in a batch whose text was extracted
      before its cursor was saved, over any sessions. */
  lemma {:induction false} ReadWasExtracted(cfg: Config, xs: seq<Session>, saved: map<string, Cursor>, k: string,
                                            start: Cursor, s: Run, m: Message)
    requires AllSound(cfg, xs, saved, k, start, s) && (forall i :: 0 <= i < |xs| ==> Finite(xs[i].w))
    requires m in AfterAll(cfg, xs, saved, k, start, s).read && m !in s.read
    ensures SomeSavedExtracted(cfg, xs, saved, k, m)
    decreases |xs|
  {
    hide SavedExtracted, CutLog;
    if xs != [] {
      var s' := AfterSession(cfg, xs[0], saved, k, s);
      if m in s'.read {
        SessionExtracts(cfg, xs[0], saved, k, s, m);
      } else {
        ReadWasExtracted(cfg, xs[1..], Replay(saved, CutLog(cfg, xs[0], saved)), k, start, s', m);
      }
    }
  }
}
