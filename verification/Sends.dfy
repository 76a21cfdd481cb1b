/** The one path every outbound message takes, as interleaved sends: each checks the history,
    reserves the message, delivers it, records it, and releases it. */
module Sends {
  import opened Basics
  import opened Dedup

  const HISTORY := 15
  const STATUS := "status"

  /** A recorded message; its time is kept to the second. */
  datatype Row = Row(target: string, content: string, outbound: bool, at: int)

  /** What a check could read: nothing, or a page of rows, by their places in the store. */
  datatype History = Unreadable | Page(rows: seq<nat>)

  /** The check a send passed: when, over how many recorded rows, and what it read of them. An
      outbound row can also be recorded unchecked: an echo of a send made elsewhere, a file, an
      act done as the operator. */
  datatype Check = Inbound | Unchecked | Passed(producer: string, seen: nat, now: int, history: History)

  datatype Phase = Checked | Inside | Delivered | Recorded

  datatype Proc = Proc(phase: Phase, target: string, content: string, check: Check)

  datatype State = State(rows: seq<Row>, checks: seq<Check>, inflight: map<string, int>, procs: map<nat, Proc>, now: int)

  const START := State([], [], map[], map[], 0)

  datatype Step =
    | Receive(target: string, content: string, now: int)
    | Beside(target: string, content: string, now: int)   // an outbound row from outside this path
    | Look(p: nat, producer: string, target: string, content: string, now: int, history: History)
    | Reserve(p: nat, now: int)
    | Deliver(p: nat, ok: bool)
    | Record(p: nat, now: int, saved: bool)
    | Release(p: nat)

  function Seconds(t: int): int {
    t / SECOND * SECOND
  }

  function GuardKey(a: Alphabet, target: string, content: string): string {
    target + "\0" + Normal(a, content)
  }

  /** A page is the newest of the target's rows, at most fifteen. */
  ghost predicate NewestOf(rows: seq<Row>, target: string, page: seq<nat>) {
    && |page| <= HISTORY
    && (forall i :: 0 <= i < |page| ==> page[i] < |rows| && rows[page[i]].target == target)
    && (forall i, j :: 0 <= i < j < |page| ==> page[i] != page[j])
    && (forall k: nat :: k < |rows| && rows[k].target == target && k !in page ==>
          |page| == HISTORY && forall i :: 0 <= i < |page| ==> rows[page[i]].at >= rows[k].at)
  }

  /** The history says a message was said: some outbound row of the page is one it repeats. */
  ghost predicate Said(a: Alphabet, rows: seq<Row>, history: History, content: string, now: int) {
    history.Page? && exists i :: i in history.rows && i < |rows| && rows[i].outbound
                                 && Repeats(a, content, Past(rows[i].content, rows[i].at), now)
  }

  predicate At(s: State, p: nat, phase: Phase) {
    p in s.procs && s.procs[p].phase == phase
  }

  ghost predicate Enabled(s: State, x: Step) {
    match x
    case Receive(_, _, now) => now >= s.now
    case Beside(_, _, now) => now >= s.now
    case Look(p, _, target, _, now, history) =>
      p !in s.procs && now >= s.now && (history.Page? ==> NewestOf(s.rows, target, history.rows))
    case Reserve(p, now) => At(s, p, Checked) && now >= s.now
    case Deliver(p, _) => At(s, p, Inside)
    case Record(p, now, _) => At(s, p, Delivered) && now >= s.now
    case Release(p) => At(s, p, Recorded)
  }

  ghost function Next(a: Alphabet, s: State, x: Step): State
    requires Enabled(s, x)
  {
    match x
    case Receive(target, content, now) =>
      s.(rows := s.rows + [Row(target, content, false, Seconds(now))], checks := s.checks + [Inbound], now := now)
    case Beside(target, content, now) =>
      s.(rows := s.rows + [Row(target, content, true, Seconds(now))], checks := s.checks + [Unchecked], now := now)
    case Look(p, producer, target, content, now, history) =>
      if Said(a, s.rows, history, content, now) && producer != STATUS then s.(now := now)
      else s.(procs := s.procs[p := Proc(Checked, target, content, Passed(producer, |s.rows|, now, history))], now := now)
    case Reserve(p, now) =>
      var q, kept := s.procs[p], Purged(s.inflight, now);
      var key := GuardKey(a, q.target, q.content);
      if key in kept then s.(inflight := kept, procs := s.procs - {p}, now := now)
      else s.(inflight := kept[key := now], procs := s.procs[p := q.(phase := Inside)], now := now)
    case Deliver(p, ok) =>
      var q := s.procs[p];
      if ok then s.(procs := s.procs[p := q.(phase := Delivered)])
      else s.(inflight := s.inflight - {GuardKey(a, q.target, q.content)}, procs := s.procs - {p})
    case Record(p, now, saved) =>
      var q := s.procs[p];
      var s' := s.(procs := s.procs[p := q.(phase := Recorded)], now := now);
      if saved then s'.(rows := s.rows + [Row(q.target, q.content, true, Seconds(now))], checks := s.checks + [q.check])
      else s'
    case Release(p) =>
      var q := s.procs[p];
      s.(inflight := s.inflight - {GuardKey(a, q.target, q.content)}, procs := s.procs - {p})
  }

  /** Every interleaving: the steps that are enabled when their turn comes. */
  ghost function Run(a: Alphabet, s: State, xs: seq<Step>): State
    decreases |xs|
  {
    if xs == [] then s else Do(a, Run(a, s, xs[..|xs|-1]), xs[|xs|-1])
  }

  ghost function Do(a: Alphabet, s: State, x: Step): State {
    if Enabled(s, x) then Next(a, s, x) else s
  }

  // ---- what every step keeps ----

  /** A check was sound: it read the newest rows there were, and, but for a status notice,
      found the message in none of them. */
  ghost predicate Sound(a: Alphabet, rows: seq<Row>, target: string, content: string, c: Check) {
    c.Passed? ==>
      && c.seen <= |rows|
      && (c.history.Page? ==> NewestOf(rows[..c.seen], target, c.history.rows))
      && (c.producer != STATUS ==> !Said(a, rows[..c.seen], c.history, content, c.now))
      && (forall i :: 0 <= i < c.seen ==> rows[i].at <= c.now)
  }

  ghost predicate Good(a: Alphabet, s: State) {
    && |s.checks| == |s.rows|
    && (forall i :: 0 <= i < |s.rows| ==> s.rows[i].at <= s.now && (s.rows[i].outbound <==> !s.checks[i].Inbound?))
    && (forall j :: 0 <= j < |s.rows| ==> Sound(a, s.rows[..j], s.rows[j].target, s.rows[j].content, s.checks[j]))
    && (forall p :: p in s.procs ==> s.procs[p].check.Passed? && Sound(a, s.rows, s.procs[p].target, s.procs[p].content, s.procs[p].check))
  }

  lemma SoundStays(a: Alphabet, rows: seq<Row>, more: seq<Row>, target: string, content: string, c: Check)
    requires Sound(a, rows, target, content, c)
    ensures Sound(a, rows + more, target, content, c)
  {
    hide Said, NewestOf;
    if c.Passed? {
      assert (rows + more)[..c.seen] == rows[..c.seen];
    }
  }

  lemma Appended(a: Alphabet, s: State, r: Row, c: Check)
    requires Good(a, s) && r.at <= s.now && (r.outbound <==> !c.Inbound?)
    requires Sound(a, s.rows, r.target, r.content, c)
    ensures Good(a, s.(rows := s.rows + [r], checks := s.checks + [c]))
  {
    hide Sound;
    var s' := s.(rows := s.rows + [r], checks := s.checks + [c]);
    forall j | 0 <= j < |s'.rows| ensures Sound(a, s'.rows[..j], s'.rows[j].target, s'.rows[j].content, s'.checks[j]) {
      assert s'.rows[..j] == s.rows[..j];
      assert s.rows[..|s.rows|] == s.rows;
    }
    forall p | p in s.procs ensures Sound(a, s'.rows, s.procs[p].target, s.procs[p].content, s.procs[p].check) {
      SoundStays(a, s.rows, [r], s.procs[p].target, s.procs[p].content, s.procs[p].check);
    }
  }

  lemma SecondsBelow(t: int)
    ensures t - SECOND < Seconds(t) <= t
  {
  }

  lemma LookKeeps(a: Alphabet, s: State, x: Step)
    requires Good(a, s) && Enabled(s, x) && x.Look?
    ensures Good(a, Next(a, s, x))
  {
    hide Sound, Said, NewestOf;
    if !(Said(a, s.rows, x.history, x.content, x.now) && x.producer != STATUS) {
      LookSound(a, s, x);
    }
  }

  lemma RecordKeeps(a: Alphabet, s: State, x: Step)
    requires Good(a, s) && Enabled(s, x) && x.Record?
    ensures Good(a, Next(a, s, x))
  {
    hide Sound, Seconds;
    SecondsBelow(x.now);
    var q := s.procs[x.p];
    assert q.check.Passed?;
    if x.saved {
      Appended(a, s.(procs := s.procs[x.p := q.(phase := Recorded)], now := x.now),
               Row(q.target, q.content, true, Seconds(x.now)), q.check);
    }
  }

  lemma ReceiveKeeps(a: Alphabet, s: State, x: Step)
    requires Good(a, s) && Enabled(s, x) && (x.Receive? || x.Beside?)
    ensures Good(a, Next(a, s, x))
  {
    hide Sound, Seconds;
    SecondsBelow(x.now);
    var c := if x.Receive? then Inbound else Unchecked;
    UncheckedSound(a, s.rows, x.target, x.content, c);
    Appended(a, s.(now := x.now), Row(x.target, x.content, x.Beside?, Seconds(x.now)), c);
  }

  lemma StepKeeps(a: Alphabet, s: State, x: Step)
    requires Good(a, s) && Enabled(s, x)
    ensures Good(a, Next(a, s, x))
  {
    hide Sound, Purged, GuardKey, Seconds, Said, NewestOf;
    match x {
      case Receive(_, _, _) => ReceiveKeeps(a, s, x);
      case Beside(_, _, _) => ReceiveKeeps(a, s, x);
      case Look(_, _, _, _, _, _) => LookKeeps(a, s, x);
      case Record(_, _, _) => RecordKeeps(a, s, x);
      case _ =>
    }
  }

  lemma UncheckedSound(a: Alphabet, rows: seq<Row>, target: string, content: string, c: Check)
    requires !c.Passed?
    ensures Sound(a, rows, target, content, c)
  {
  }

  lemma LookSound(a: Alphabet, s: State, x: Step)
    requires Good(a, s) && Enabled(s, x) && x.Look?
    requires !(Said(a, s.rows, x.history, x.content, x.now) && x.producer != STATUS)
    ensures Sound(a, s.rows, x.target, x.content, Passed(x.producer, |s.rows|, x.now, x.history))
  {
    hide Said, NewestOf;
    assert s.rows[..|s.rows|] == s.rows;
  }

  lemma {:induction false} RunKeeps(a: Alphabet, xs: seq<Step>)
    ensures Good(a, Run(a, START, xs))
    decreases |xs|
  {
    hide Good, Enabled, Next;
    if xs != [] {
      RunKeeps(a, xs[..|xs|-1]);
      if Enabled(Run(a, START, xs[..|xs|-1]), xs[|xs|-1]) {
        StepKeeps(a, Run(a, START, xs[..|xs|-1]), xs[|xs|-1]);
      }
    } else {
      StartGood(a);
    }
  }

  lemma StartGood(a: Alphabet)
    ensures Good(a, START)
  {
  }

  // ---- said once ----

  /** Fifteen rows of the target, of the first `seen`, are as new as row `i` without it. */
  ghost predicate Crowded(rows: seq<Row>, seen: nat, i: nat, page: seq<nat>)
    requires i < |rows|
  {
    && |page| == HISTORY && (forall x, y :: 0 <= x < y < |page| ==> page[x] != page[y])
    && (forall k :: k in page ==> k != i && k < seen && k < |rows| && rows[k].target == rows[i].target && rows[k].at >= rows[i].at)
  }

  /** Two recorded messages to one target with the same words, the later no status notice: the
      later's check came over six hours after the earlier was recorded; or that check could not
      read the history, came before the earlier was recorded, or found fifteen rows as new. */
  lemma SaidOnce(a: Alphabet, xs: seq<Step>, i: nat, j: nat)
    requires var s := Run(a, START, xs);
      && i < j < |s.rows| && s.rows[i].outbound && s.rows[j].outbound && s.rows[i].target == s.rows[j].target
      && Normal(a, s.rows[i].content) == Normal(a, s.rows[j].content) != ""
      && j < |s.checks| && s.checks[j].Passed? && s.checks[j].producer != STATUS
    ensures var s := Run(a, START, xs);
      var c := s.checks[j];
      || c.now - s.rows[i].at > IDENTICAL_WINDOW
      || c.history.Unreadable?
      || i >= c.seen
      || Crowded(s.rows, c.seen, i, c.history.rows)
  {
    RunKeeps(a, xs);
    hide Run, Normal;
    var s := Run(a, START, xs);
    var c := s.checks[j];
    assert Sound(a, s.rows[..j], s.rows[j].target, s.rows[j].content, c);
    if c.history.Page? && i < c.seen {
      assert s.rows[..j][..c.seen] == s.rows[..c.seen];
      assert s.rows[..c.seen][i] == s.rows[i];
      if i in c.history.rows {
        assert !Repeats(a, s.rows[j].content, Past(s.rows[i].content, s.rows[i].at), c.now);
      } else {
        forall k | k in c.history.rows
          ensures k != i && k < c.seen && s.rows[k].target == s.rows[i].target && s.rows[k].at >= s.rows[i].at {
          var n :| 0 <= n < |c.history.rows| && c.history.rows[n] == k;
          assert s.rows[..c.seen][k] == s.rows[k];
        }
      }
    }
  }

  /** Sends that do not overlap: each begins, and each outbound row from outside comes, when none
      is under way. */
  ghost predicate OneAtATime(a: Alphabet, xs: seq<Step>)
    decreases |xs|
  {
    xs == [] || (OneAtATime(a, xs[..|xs|-1]) && (xs[|xs|-1].Look? || xs[|xs|-1].Beside? ==> Run(a, START, xs[..|xs|-1]).procs == map[]))
  }

  ghost predicate Unrecorded(s: State, p: nat) {
    p in s.procs && s.procs[p].check.Passed? && !s.procs[p].phase.Recorded?
  }

  /** Nothing outbound was recorded between a check and its own record. */
  ghost predicate Solo(s: State) {
    && |s.checks| == |s.rows|
    && (forall p, q :: p in s.procs && q in s.procs ==> p == q)
    && (forall p, k :: Unrecorded(s, p) && s.procs[p].check.seen <= k < |s.rows| ==> !s.rows[k].outbound)
    && (forall j, k :: 0 <= j < |s.rows| && s.checks[j].Passed? && s.checks[j].seen <= k < j ==> !s.rows[k].outbound)
  }

  lemma SoloStep(a: Alphabet, s: State, x: Step)
    requires Solo(s) && Enabled(s, x) && (x.Look? || x.Beside? ==> s.procs == map[])
    ensures Solo(Next(a, s, x))
  {
    hide Purged, GuardKey, Seconds, Said, NewestOf;
  }

  lemma {:induction false} SoloRun(a: Alphabet, xs: seq<Step>)
    requires OneAtATime(a, xs)
    ensures Solo(Run(a, START, xs))
    decreases |xs|
  {
    hide Solo, Enabled, Next;
    if xs != [] {
      SoloRun(a, xs[..|xs|-1]);
      if Enabled(Run(a, START, xs[..|xs|-1]), xs[|xs|-1]) {
        SoloStep(a, Run(a, START, xs[..|xs|-1]), xs[|xs|-1]);
      }
    } else {
      StartSolo();
    }
  }

  lemma StartSolo()
    ensures Solo(START)
  {
  }

  /** One send at a time, and nothing recorded beside it, the same words never go to one target
      twice within six hours, as long as the history can be read and is not crowded out. */
  lemma SaidOnceInTurn(a: Alphabet, xs: seq<Step>, i: nat, j: nat)
    requires OneAtATime(a, xs)
    requires var s := Run(a, START, xs);
      && i < j < |s.rows| && s.rows[i].outbound && s.rows[j].outbound && s.rows[i].target == s.rows[j].target
      && Normal(a, s.rows[i].content) == Normal(a, s.rows[j].content) != ""
      && j < |s.checks| && s.checks[j].Passed? && s.checks[j].producer != STATUS && s.checks[j].history.Page?
      && !Crowded(s.rows, s.checks[j].seen, i, s.checks[j].history.rows)
    ensures var s := Run(a, START, xs); s.checks[j].now - s.rows[i].at > IDENTICAL_WINDOW
  {
    SaidOnce(a, xs, i, j);
    SoloRun(a, xs);
    hide Run, Normal, OneAtATime, Crowded;
  }

  // ---- a whole send, and sends that overlap ----

  /** Nobody holds the message: no claim on it is a minute old or less. */
  predicate Free(a: Alphabet, s: State, target: string, content: string, now: int) {
    GuardKey(a, target, content) !in Purged(s.inflight, now)
  }

  /** A send past its check, with nothing in its way. */
  function Rest(p: nat, now: int): seq<Step> {
    [Reserve(p, now), Deliver(p, true), Record(p, now, true), Release(p)]
  }

  lemma RunAppend(a: Alphabet, s: State, xs: seq<Step>, x: Step)
    requires Enabled(Run(a, s, xs), x)
    ensures Run(a, s, xs + [x]) == Next(a, Run(a, s, xs), x)
  {
    hide Enabled, Next;
    assert (xs + [x])[..|xs + [x]|-1] == xs;
  }

  lemma RunNone(a: Alphabet, s: State)
    ensures Run(a, s, []) == s
  {
  }

  lemma RestGoes(a: Alphabet, s: State, p: nat)
    requires At(s, p, Checked) && Free(a, s, s.procs[p].target, s.procs[p].content, s.now)
    ensures var q, s' := s.procs[p], Run(a, s, Rest(p, s.now));
      && s'.rows == s.rows + [Row(q.target, q.content, true, Seconds(s.now))] && s'.now == s.now
      && s'.procs == s.procs - {p}
      && s'.inflight == Purged(s.inflight, s.now)[GuardKey(a, q.target, q.content) := s.now] - {GuardKey(a, q.target, q.content)}
  {
    hide Seconds, GuardKey, Said, NewestOf, Run;
    var t := s.now;
    RunNone(a, s);
    assert [] + [Reserve(p, t)] == [Reserve(p, t)];
    RunAppend(a, s, [], Reserve(p, t));
    assert [Reserve(p, t)] + [Deliver(p, true)] == [Reserve(p, t), Deliver(p, true)];
    RunAppend(a, s, [Reserve(p, t)], Deliver(p, true));
    assert [Reserve(p, t), Deliver(p, true)] + [Record(p, t, true)] == [Reserve(p, t), Deliver(p, true), Record(p, t, true)];
    RunAppend(a, s, [Reserve(p, t), Deliver(p, true)], Record(p, t, true));
    assert [Reserve(p, t), Deliver(p, true), Record(p, t, true)] + [Release(p)] == Rest(p, t);
    RunAppend(a, s, [Reserve(p, t), Deliver(p, true), Record(p, t, true)], Release(p));
  }

  /** Of a send that was refused, or whose message is held, nothing is recorded. */
  lemma RestStops(a: Alphabet, s: State, p: nat)
    requires p in s.procs ==> At(s, p, Checked) && !Free(a, s, s.procs[p].target, s.procs[p].content, s.now)
    ensures Run(a, s, Rest(p, s.now)).rows == s.rows
  {
    hide Seconds, GuardKey, Run, Purged;
    var t := s.now;
    RunNone(a, s);
    assert [] + [Reserve(p, t)] == [Reserve(p, t)] && [Reserve(p, t)] + [Deliver(p, true)] == [Reserve(p, t), Deliver(p, true)];
    RunDo(a, s, [], Reserve(p, t));
    RunDo(a, s, [Reserve(p, t)], Deliver(p, true));
    assert [Reserve(p, t), Deliver(p, true)] + [Record(p, t, true)] == [Reserve(p, t), Deliver(p, true), Record(p, t, true)];
    RunDo(a, s, [Reserve(p, t), Deliver(p, true)], Record(p, t, true));
    assert [Reserve(p, t), Deliver(p, true), Record(p, t, true)] + [Release(p)] == Rest(p, t);
    RunDo(a, s, [Reserve(p, t), Deliver(p, true), Record(p, t, true)], Release(p));
  }

  lemma RunDo(a: Alphabet, s: State, xs: seq<Step>, x: Step)
    ensures Run(a, s, xs + [x]) == Do(a, Run(a, s, xs), x)
  {
    hide Do;
    assert (xs + [x])[..|xs + [x]|-1] == xs;
  }

  lemma {:induction false} RunThen(a: Alphabet, s: State, xs: seq<Step>, ys: seq<Step>)
    ensures Run(a, s, xs + ys) == Run(a, Run(a, s, xs), ys)
    decreases |ys|
  {
    hide Do;
    if ys == [] {
      assert xs + ys == xs;
    } else {
      assert (xs + ys)[..|xs + ys|-1] == xs + ys[..|ys|-1];
      RunThen(a, s, xs, ys[..|ys|-1]);
    }
  }

  function CopyOf(x: Step): Row
    requires x.Look?
  {
    Row(x.target, x.content, true, Seconds(x.now))
  }

  /** A whole send that nothing interrupts and nothing fails records its message iff its check
      lets it through and nobody holds the message. */
  lemma GoesExactly(a: Alphabet, s: State, x: Step)
    requires Enabled(s, x) && x.Look?
    ensures var goes := (x.producer == STATUS || !Said(a, s.rows, x.history, x.content, x.now)) && Free(a, s, x.target, x.content, x.now);
      Run(a, Do(a, s, x), Rest(x.p, x.now)).rows == if goes then s.rows + [CopyOf(x)] else s.rows
  {
    hide Run, GuardKey, Seconds, Purged, Rest, Said, NewestOf;
    var checked := Do(a, s, x);
    if x.p in checked.procs && Free(a, s, x.target, x.content, x.now) {
      RestGoes(a, checked, x.p);
    } else {
      RestStops(a, checked, x.p);
    }
  }

  /** Of words said to a target within six hours, over any interleaving up to then: a second copy
      is recorded iff nobody holds it, and it is a status notice, its page is unreadable, or the
      page neither holds the first copy nor an outbound row the words repeat; and a page that does
      not hold the first is full of rows as new. */
  lemma SecondGoesExactly(a: Alphabet, xs: seq<Step>, x: Step, i: nat)
    requires var s := Run(a, START, xs);
      && Enabled(s, x) && x.Look? && i < |s.rows| && s.rows[i].outbound && s.rows[i].target == x.target
      && Normal(a, s.rows[i].content) == Normal(a, x.content) != "" && x.now - s.rows[i].at <= IDENTICAL_WINDOW
    ensures var s := Run(a, START, xs);
      var recorded := Run(a, Do(a, s, x), Rest(x.p, x.now)).rows == s.rows + [CopyOf(x)];
      && (recorded <==>
            Free(a, s, x.target, x.content, x.now) &&
            (x.producer == STATUS || x.history.Unreadable? || (i !in x.history.rows && NoneRepeated(a, s.rows, x))))
      && (x.history.Page? && i !in x.history.rows ==> Crowded(s.rows, |s.rows|, i, x.history.rows))
  {
    RunKeeps(a, xs);
    hide Run, Normal, GuardKey, Purged, Rest, Overlaps, Significant;
    var s := Run(a, START, xs);
    GoesExactly(a, s, x);
    if x.history.Page? {
      PageHolds(a, s, x, i);
    }
  }

  /** Of a page's outbound rows the words repeat none. */
  ghost predicate NoneRepeated(a: Alphabet, rows: seq<Row>, x: Step)
    requires x.Look? && x.history.Page?
  {
    forall k :: k in x.history.rows && k < |rows| && rows[k].outbound ==> !Repeats(a, x.content, Past(rows[k].content, rows[k].at), x.now)
  }

  lemma PageHolds(a: Alphabet, s: State, x: Step, i: nat)
    requires Good(a, s) && Enabled(s, x) && x.Look? && x.history.Page?
    requires i < |s.rows| && s.rows[i].outbound && s.rows[i].target == x.target
    requires Normal(a, s.rows[i].content) == Normal(a, x.content) != "" && x.now - s.rows[i].at <= IDENTICAL_WINDOW
    ensures Said(a, s.rows, x.history, x.content, x.now) <==> !(i !in x.history.rows && NoneRepeated(a, s.rows, x))
    ensures i !in x.history.rows ==> Crowded(s.rows, |s.rows|, i, x.history.rows)
  {
    hide Normal, Overlaps, Significant, Sound;
    assert Repeats(a, x.content, Past(s.rows[i].content, s.rows[i].at), x.now);
    forall k | k in x.history.rows ensures k < |s.rows| && s.rows[k].target == x.target {
      var n :| 0 <= n < |x.history.rows| && x.history.rows[n] == k;
    }
    if i !in x.history.rows {
      forall k | k in x.history.rows ensures s.rows[k].at >= s.rows[i].at {
        var n :| 0 <= n < |x.history.rows| && x.history.rows[n] == k;
      }
    }
  }

  /** A row from outside recorded behind a check is not seen by it: the send goes out all the same. */
  lemma RowBesideIsNotSeen(a: Alphabet, s: State, p: nat, now: int)
    requires At(s, p, Checked) && now >= s.now
    requires Free(a, s, s.procs[p].target, s.procs[p].content, now)
    ensures var q := s.procs[p];
      var beside := Do(a, s, Beside(q.target, q.content, now));
      var r := Row(q.target, q.content, true, Seconds(now));
      Run(a, beside, Rest(p, now)).rows == s.rows + [r, r]
  {
    hide Seconds, GuardKey, Run, Rest, Purged;
    var beside := Do(a, s, Beside(s.procs[p].target, s.procs[p].content, now));
    RestGoes(a, beside, p);
    var r := Row(s.procs[p].target, s.procs[p].content, true, Seconds(now));
    assert s.rows + [r] + [r] == s.rows + [r, r];
  }

  /** The history is read before the message is reserved: of two sends of one message that both
      passed it, the second goes out too, once the first has recorded and released. */
  lemma TwoCheckedBothGo(a: Alphabet, s: State, p: nat, q: nat)
    requires p != q && At(s, p, Checked) && At(s, q, Checked)
    requires s.procs[p].target == s.procs[q].target && s.procs[p].content == s.procs[q].content
    requires Free(a, s, s.procs[p].target, s.procs[p].content, s.now)
    ensures var r := Row(s.procs[p].target, s.procs[p].content, true, Seconds(s.now));
      Run(a, Run(a, s, Rest(p, s.now)), Rest(q, s.now)).rows == s.rows + [r, r]
  {
    hide Seconds, GuardKey, Run, Rest;
    RestGoes(a, s, p);
    RestGoes(a, Run(a, s, Rest(p, s.now)), q);
    var r := Row(s.procs[p].target, s.procs[p].content, true, Seconds(s.now));
    assert s.rows + [r] + [r] == s.rows + [r, r];
  }

  // ---- from the start ----

  function LookAt(p: nat, producer: string, target: string, content: string, history: History): Step {
    Look(p, producer, target, content, 0, history)
  }

  lemma FirstLook(a: Alphabet, p: nat, producer: string, target: string, content: string, s: State)
    requires s.rows == [] && s.inflight == map[] && s.now == 0 && p !in s.procs
    ensures Do(a, s, LookAt(p, producer, target, content, Page([]))) ==
            s.(procs := s.procs[p := Proc(Checked, target, content, Passed(producer, 0, 0, Page([])))])
  {
    hide GuardKey, Seconds, Purged, Normal;
    assert NewestOf([], target, []);
  }

  /** Two sends of one message, made side by side from the start, both go out. */
  lemma TwoGoFromStart(a: Alphabet, producer: string, target: string, content: string)
    ensures var r, looks := Row(target, content, true, 0),
                            [LookAt(0, producer, target, content, Page([])), LookAt(1, producer, target, content, Page([]))];
      Run(a, START, looks + Rest(0, 0) + Rest(1, 0)).rows == [r, r]
  {
    hide Do, GuardKey, Seconds, Rest, Normal, Run;
    var x, y := LookAt(0, producer, target, content, Page([])), LookAt(1, producer, target, content, Page([]));
    FirstLook(a, 0, producer, target, content, START);
    FirstLook(a, 1, producer, target, content, Do(a, START, x));
    RunNone(a, START);
    assert [] + [x] == [x] && [x] + [y] == [x, y];
    RunDo(a, START, [], x);
    RunDo(a, START, [x], y);
    var s := Run(a, START, [x, y]);
    TwoCheckedBothGo(a, s, 0, 1);
    ZeroSeconds();
    RunThen(a, START, [x, y] + Rest(0, 0), Rest(1, 0));
    RunThen(a, START, [x, y], Rest(0, 0));
    assert [] + [Row(target, content, true, 0), Row(target, content, true, 0)] == [Row(target, content, true, 0), Row(target, content, true, 0)];
  }

  lemma ZeroSeconds()
    ensures Seconds(0) == 0
  {
  }

  /** And so do a send and a row written unchecked beside it. */
  lemma BesideGoesFromStart(a: Alphabet, producer: string, target: string, content: string)
    ensures var r, first := Row(target, content, true, 0), [LookAt(0, producer, target, content, Page([])), Beside(target, content, 0)];
      Run(a, START, first + Rest(0, 0)).rows == [r, r]
  {
    hide Do, GuardKey, Seconds, Rest, Normal, Run;
    var x, y := LookAt(0, producer, target, content, Page([])), Beside(target, content, 0);
    FirstLook(a, 0, producer, target, content, START);
    RunNone(a, START);
    assert [] + [x] == [x] && [x] + [y] == [x, y];
    RunDo(a, START, [], x);
    RunDo(a, START, [x], y);
    RowBesideIsNotSeen(a, Do(a, START, x), 0, 0);
    ZeroSeconds();
    RunThen(a, START, [x, y], Rest(0, 0));
    assert [] + [Row(target, content, true, 0), Row(target, content, true, 0)] == [Row(target, content, true, 0), Row(target, content, true, 0)];
  }

  /** A message sent, once, from the start. */
  function Once(producer: string, target: string, content: string): seq<Step> {
    [LookAt(0, producer, target, content, Page([]))] + Rest(0, 0)
  }

  lemma OnceGoes(a: Alphabet, producer: string, target: string, content: string)
    ensures var s := Run(a, START, Once(producer, target, content));
      s.rows == [Row(target, content, true, 0)] && s.procs == map[] && s.inflight == map[] && s.now == 0
  {
    hide Do, GuardKey, Seconds, Rest, Normal, Run;
    var x := LookAt(0, producer, target, content, Page([]));
    FirstLook(a, 0, producer, target, content, START);
    RunNone(a, START);
    assert [] + [x] == [x];
    RunDo(a, START, [], x);
    RestGoes(a, Do(a, START, x), 0);
    ZeroSeconds();
    RunThen(a, START, [x], Rest(0, 0));
    assert [] + [Row(target, content, true, 0)] == [Row(target, content, true, 0)];
  }

  /** Said once, and again at once by a send that could not read the history. */
  lemma UnreadableGoesFromStart(a: Alphabet, producer: string, target: string, content: string)
    ensures var r, again := Row(target, content, true, 0), LookAt(1, producer, target, content, Unreadable);
      Run(a, START, Once(producer, target, content) + [again] + Rest(1, 0)).rows == [r, r]
  {
    hide Do, GuardKey, Seconds, Rest, Normal, Run, Once;
    var again := LookAt(1, producer, target, content, Unreadable);
    var s := Run(a, START, Once(producer, target, content));
    OnceGoes(a, producer, target, content);
    GoesExactly(a, s, again);
    ZeroSeconds();
    RunDo(a, START, Once(producer, target, content), again);
    RunThen(a, START, Once(producer, target, content) + [again], Rest(1, 0));
  }

  function Heard(n: nat, target: string, other: string): seq<Step> {
    if n == 0 then [] else Heard(n - 1, target, other) + [Receive(target, other, 0)]
  }

  lemma {:induction false} HeardRows(a: Alphabet, s: State, n: nat, target: string, other: string)
    requires s.now == 0
    ensures var s' := Run(a, s, Heard(n, target, other));
      s' == s.(rows := s'.rows, checks := s'.checks) && s'.rows == s.rows + seq(n, i => Row(target, other, false, 0))
  {
    hide Do, Run, Seconds;
    if n == 0 {
      RunNone(a, s);
    } else {
      HeardRows(a, s, n - 1, target, other);
      var before := Run(a, s, Heard(n - 1, target, other));
      RunDo(a, s, Heard(n - 1, target, other), Receive(target, other, 0));
      HeardOne(a, before, target, other);
      assert seq(n, i => Row(target, other, false, 0)) == seq(n - 1, i => Row(target, other, false, 0)) + [Row(target, other, false, 0)];
    }
  }

  lemma HeardOne(a: Alphabet, s: State, target: string, other: string)
    requires s.now == 0
    ensures Do(a, s, Receive(target, other, 0)) == s.(rows := s.rows + [Row(target, other, false, 0)], checks := s.checks + [Inbound])
  {
  }

  const CROWD := seq(HISTORY, i requires 0 <= i < HISTORY => (i + 1) as nat)

  /** Said once, and again at once when fifteen messages have come in between. */
  lemma CrowdedGoesFromStart(a: Alphabet, producer: string, target: string, content: string, other: string)
    ensures var r, again := Row(target, content, true, 0), LookAt(1, producer, target, content, Page(CROWD));
      Run(a, START, Once(producer, target, content) + Heard(HISTORY, target, other) + [again] + Rest(1, 0)).rows
      == [r] + seq(HISTORY, i => Row(target, other, false, 0)) + [r]
  {
    hide Do, GuardKey, Seconds, Rest, Normal, Run, Once, Heard, Said;
    var again := LookAt(1, producer, target, content, Page(CROWD));
    var first := Once(producer, target, content);
    OnceGoes(a, producer, target, content);
    HeardRows(a, Run(a, START, first), HISTORY, target, other);
    RunThen(a, START, first, Heard(HISTORY, target, other));
    var s := Run(a, START, first + Heard(HISTORY, target, other));
    CrowdIsNewest(a, s.rows, target, other, content);
    GoesExactly(a, s, again);
    ZeroSeconds();
    RunDo(a, START, first + Heard(HISTORY, target, other), again);
    RunThen(a, START, first + Heard(HISTORY, target, other) + [again], Rest(1, 0));
  }

  lemma CrowdIsNewest(a: Alphabet, rows: seq<Row>, target: string, other: string, content: string)
    requires |rows| == HISTORY + 1 && forall i :: 0 < i < |rows| ==> rows[i] == Row(target, other, false, 0)
    requires rows[0].at == 0
    ensures NewestOf(rows, target, CROWD) && !Said(a, rows, Page(CROWD), content, 0)
  {
    hide Repeats;
    forall k: nat | 0 < k < |rows| ensures k in CROWD {
      assert CROWD[k - 1] == k;
    }
  }
}
