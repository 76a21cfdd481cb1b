/** Per-conversation mailboxes as a state machine: deliveries, workers, idle timers and a
    shutdown, interleaved at every lock and channel operation. */
module Mailbox {

  datatype Value = Text(text: string) | Other
  datatype Event = Event(kind: string, payload: map<string, Value>, seqNo: int)

  const DEPTH := 32
  const MAX_CONVERSATIONS := 64

  // ---- which conversation an event belongs to ----

  datatype Lane = Chat(id: string) | Job(id: string) | Hook(route: string) | Timer(id: string) | Unkeyed(kind: string)

  function Field(e: Event, name: string): string {
    if name in e.payload && e.payload[name].Text? then e.payload[name].text else ""
  }

  function LaneOf(e: Event): Lane {
    if (e.kind == "comms.message" || e.kind == "comms.sent") && Field(e, "channel_id") != "" then Chat(Field(e, "channel_id"))
    else if e.kind == "scheduler.job" && Field(e, "job_id") != "" then Job(Field(e, "job_id"))
    else if e.kind == "webhook.fired" && Field(e, "route") != "" then Hook(Field(e, "route"))
    else if e.kind == "timer.fired" && Field(e, "timer_id") != "" then Timer(Field(e, "timer_id"))
    else Unkeyed(e.kind)
  }

  function LaneText(l: Lane): string {
    match l
    case Chat(id) => "chat:" + id
    case Job(id) => "job:" + id
    case Hook(route) => "hook:" + route
    case Timer(id) => "timer:" + id
    case Unkeyed(kind) => "kind:" + kind
  }

  function ConversationKey(e: Event): string {
    LaneText(LaneOf(e))
  }

  /** The length of a lane's prefix. */
  function Head(l: Lane): nat {
    match l
    case Chat(_) => 5
    case Job(_) => 4
    case Hook(_) => 5
    case Timer(_) => 6
    case Unkeyed(_) => 5
  }

  function Tail(l: Lane): string {
    match l
    case Chat(id) => id
    case Job(id) => id
    case Hook(route) => route
    case Timer(id) => id
    case Unkeyed(kind) => kind
  }

  lemma LaneTextParts(l: Lane)
    ensures |LaneText(l)| == Head(l) + |Tail(l)| && LaneText(l)[Head(l)..] == Tail(l)
    ensures LaneText(l)[0] == match l case Chat(_) => 'c' case Job(_) => 'j' case Hook(_) => 'h' case Timer(_) => 't' case Unkeyed(_) => 'k'
  {
  }

  /** Two events share a key exactly when they are of one conversation: the same chat, job,
      route or timer, or the same kind when they name none. */
  lemma KeyTellsLanes(a: Event, b: Event)
    ensures ConversationKey(a) == ConversationKey(b) <==> LaneOf(a) == LaneOf(b)
  {
    LaneTextParts(LaneOf(a));
    LaneTextParts(LaneOf(b));
  }

  /** An event with its key, as a delivery carries it. */
  datatype Letter = Letter(key: string, event: Event)

  function Keyed(e: Event): Letter {
    Letter(ConversationKey(e), e)
  }

  // ---- the state ----

  /** Retired by the idle timer, after `at` events had been sent; or by the shutdown. */
  datatype Worker = Waiting | Handling(e: Letter) | Idled(at: nat) | Quit {
    predicate Live() {
      Waiting? || Handling?
    }
  }

  /** A conversation's channel: what was sent on it, what its worker took, what it holds. */
  datatype Chan = Chan(key: string, sent: seq<Letter>, taken: seq<Letter>, queue: seq<Letter>, worker: Worker)

  /** A delivery between its unlock and its send. */
  datatype Flight = Flight(ch: nat, e: Letter)

  datatype State = State(boxes: map<string, nat>, chans: seq<Chan>, flying: map<nat, Flight>, done: bool)

  const START := State(map[], [], map[], false)

  datatype Step =
    | Claim(d: nat, e: Letter)   // a delivery's locked part
    | Send(d: nat)              // and its send
    | Take(c: nat)              // the worker receives
    | Finish(c: nat)            // the handler returns
    | Idle(c: nat)              // the idle timer fires
    | Cancel                    // the agent's context ends
    | Leave(c: nat)             // the worker sees it has ended
    | Deliver(e: Letter)         // both halves of a delivery under one lock

  predicate Refused(s: State, key: string) {
    key !in s.boxes && |s.boxes| >= MAX_CONVERSATIONS
  }

  /** The state with a box for `key`, made if there was none. */
  function Boxed(s: State, key: string): State {
    if key in s.boxes then s
    else s.(boxes := s.boxes[key := |s.chans|], chans := s.chans + [Chan(key, [], [], [], Waiting)])
  }

  /** A send that does not block: it is taken if the channel has room. */
  function Offered(ch: Chan, e: Letter): Chan {
    if |ch.queue| < DEPTH then ch.(sent := ch.sent + [e], queue := ch.queue + [e]) else ch
  }

  function Next(s: State, x: Step): State {
    match x
    case Claim(d, e) =>
      var key := e.key;
      if d in s.flying || Refused(s, key) then s
      else
        var b := Boxed(s, key);
        b.(flying := b.flying[d := Flight(if key in b.boxes then b.boxes[key] else 0, e)])
    case Send(d) =>
      if d !in s.flying || s.flying[d].ch >= |s.chans| then s
      else
        var f := s.flying[d];
        s.(flying := s.flying - {d}, chans := s.chans[f.ch := Offered(s.chans[f.ch], f.e)])
    case Take(c) =>
      if c >= |s.chans| || !s.chans[c].worker.Waiting? || s.chans[c].queue == [] then s
      else
        var ch := s.chans[c];
        s.(chans := s.chans[c := ch.(taken := ch.taken + [ch.queue[0]], queue := ch.queue[1..], worker := Handling(ch.queue[0]))])
    case Finish(c) =>
      if c >= |s.chans| || !s.chans[c].worker.Handling? then s
      else s.(chans := s.chans[c := s.chans[c].(worker := Waiting)])
    case Idle(c) =>
      if c >= |s.chans| || !s.chans[c].worker.Waiting? || s.chans[c].queue != [] then s
      else Retired(s, c, Idled(|s.chans[c].sent|))
    case Cancel => s.(done := true)
    case Leave(c) =>
      if c >= |s.chans| || !s.chans[c].worker.Waiting? || !s.done then s
      else Retired(s, c, Quit)
    case Deliver(e) =>
      var key := e.key;
      if Refused(s, key) then s else Landed(Boxed(s, key), key, e)
  }

  /** The state with `e` offered to `key`'s own channel. */
  function Landed(b: State, key: string, e: Letter): State {
    if key in b.boxes && b.boxes[key] < |b.chans| then
      b.(chans := b.chans[b.boxes[key] := Offered(b.chans[b.boxes[key]], e)])
    else b
  }

  function Retired(s: State, c: nat, how: Worker): State
    requires c < |s.chans|
  {
    s.(boxes := s.boxes - {s.chans[c].key}, chans := s.chans[c := s.chans[c].(worker := how)])
  }

  function Run(s: State, xs: seq<Step>): State
    decreases |xs|
  {
    if xs == [] then s else Next(Run(s, xs[..|xs|-1]), xs[|xs|-1])
  }

  // ---- what every step keeps ----

  /** One channel: what was sent is what was taken and what waits, in order; the event in hand
      is the last taken; and an idle worker left with nothing waiting. */
  ghost predicate ChanGood(ch: Chan) {
    && ch.sent == ch.taken + ch.queue && |ch.queue| <= DEPTH
    && (forall e :: e in ch.sent ==> e.key == ch.key)
    && (ch.worker.Handling? ==> ch.taken != [] && ch.taken[|ch.taken|-1] == ch.worker.e)
    && (ch.worker.Idled? ==> ch.worker.at == |ch.taken|)
  }

  ghost predicate ServedBy(s: State, k: string, c: nat) {
    c < |s.chans| && s.chans[c].key == k && s.chans[c].worker.Live()
  }

  ghost predicate Good(s: State) {
    && |s.boxes| <= MAX_CONVERSATIONS
    && (forall k :: k in s.boxes ==> ServedBy(s, k, s.boxes[k]))
    && (forall c :: 0 <= c < |s.chans| && s.chans[c].worker.Live() ==> s.chans[c].key in s.boxes && s.boxes[s.chans[c].key] == c)
    && (forall c :: 0 <= c < |s.chans| ==> ChanGood(s.chans[c]))
    && (forall d :: d in s.flying ==> s.flying[d].ch < |s.chans| && s.chans[s.flying[d].ch].key == s.flying[d].e.key)
  }

  lemma BoxedGood(s: State, e: Letter)
    requires Good(s) && !Refused(s, e.key)
    ensures var b, key := Boxed(s, e.key), e.key;
      Good(b) && key in b.boxes && b.flying == s.flying && |s.chans| <= |b.chans|
  {
    hide ChanGood;
    assert ChanGood(Chan(e.key, [], [], [], Waiting)) by { NewChanGood(e.key); }
  }

  lemma NewChanGood(key: string)
    ensures ChanGood(Chan(key, [], [], [], Waiting))
  {
  }

  lemma OfferedGood(ch: Chan, e: Letter)
    requires ChanGood(ch) && e.key == ch.key
    ensures ChanGood(Offered(ch, e)) && Offered(ch, e).key == ch.key && Offered(ch, e).worker == ch.worker
  {
    assert (ch.taken + ch.queue) + [e] == ch.taken + (ch.queue + [e]);
  }

  /** Replacing one channel by another of the same key and as live keeps the table. */
  lemma ReplacedGood(s: State, c: nat, ch: Chan)
    requires Good(s) && c < |s.chans| && ChanGood(ch)
    requires ch.key == s.chans[c].key && ch.worker.Live() == s.chans[c].worker.Live()
    ensures Good(s.(chans := s.chans[c := ch]))
  {
    hide ChanGood;
  }

  lemma RetiredParts(s: State, c: nat, how: Worker)
    requires c < |s.chans|
    ensures var r := Retired(s, c, how);
      && r.boxes == s.boxes - {s.chans[c].key} && r.flying == s.flying && |r.chans| == |s.chans|
      && r.chans[c] == s.chans[c].(worker := how) && (forall i :: 0 <= i < |s.chans| && i != c ==> r.chans[i] == s.chans[i])
  {
  }

  lemma RetiredGood(s: State, c: nat, how: Worker)
    requires Good(s) && c < |s.chans| && s.chans[c].worker.Waiting? && !how.Live()
    requires how.Idled? ==> how.at == |s.chans[c].sent| && s.chans[c].queue == []
    ensures Good(Retired(s, c, how))
  {
    var key, r := s.chans[c].key, Retired(s, c, how);
    assert ChanGood(s.chans[c].(worker := how));
    hide ChanGood, Retired;
    RetiredParts(s, c, how);
    assert |s.boxes - {key}| <= |s.boxes|;
    assert key in s.boxes && s.boxes[key] == c;
    forall k | k in r.boxes ensures ServedBy(r, k, r.boxes[k]) {
      assert ServedBy(s, k, s.boxes[k]);
    }
  }

  lemma LandedGood(b: State, e: Letter)
    requires Good(b) && e.key in b.boxes
    ensures Good(Landed(b, e.key, e))
  {
    var c := b.boxes[e.key];
    assert ServedBy(b, e.key, c);
    OfferedGood(b.chans[c], e);
    ReplacedGood(b, c, Offered(b.chans[c], e));
  }

  lemma ClaimKeeps(s: State, d: nat, e: Letter)
    requires Good(s)
    ensures Good(Next(s, Claim(d, e)))
  {
    hide ChanGood, Boxed;
    var key := e.key;
    if d !in s.flying && !Refused(s, key) {
      BoxedGood(s, e);
      assert ServedBy(Boxed(s, key), key, Boxed(s, key).boxes[key]);
    }
  }

  lemma SendKeeps(s: State, d: nat)
    requires Good(s)
    ensures Good(Next(s, Send(d)))
  {
    if d in s.flying && s.flying[d].ch < |s.chans| {
      var f := s.flying[d];
      OfferedGood(s.chans[f.ch], f.e);
      ReplacedGood(s, f.ch, Offered(s.chans[f.ch], f.e));
    }
  }

  lemma FinishKeeps(s: State, c: nat)
    requires Good(s) && c < |s.chans| && s.chans[c].worker.Handling?
    ensures Good(Next(s, Finish(c)))
  {
    ReplacedGood(s, c, s.chans[c].(worker := Waiting));
  }

  lemma CancelKeeps(s: State)
    requires Good(s)
    ensures Good(Next(s, Cancel))
  {
    hide ChanGood;
  }

  lemma StepKeeps(s: State, x: Step)
    requires Good(s)
    ensures Good(Next(s, x))
  {
    hide ChanGood, ServedBy;
    match x {
      case Claim(d, e) => ClaimKeeps(s, d, e);
      case Send(d) => SendKeeps(s, d);
      case Take(c) =>
        if c < |s.chans| && s.chans[c].worker.Waiting? && s.chans[c].queue != [] {
          TakeKeeps(s, c);
        }
      case Finish(c) =>
        if c < |s.chans| && s.chans[c].worker.Handling? {
          FinishKeeps(s, c);
        }
      case Idle(c) =>
        if c < |s.chans| && s.chans[c].worker.Waiting? && s.chans[c].queue == [] {
          RetiredGood(s, c, Idled(|s.chans[c].sent|));
        }
      case Cancel => CancelKeeps(s);
      case Leave(c) =>
        if c < |s.chans| && s.chans[c].worker.Waiting? {
          RetiredGood(s, c, Quit);
        }
      case Deliver(e) =>
        if !Refused(s, e.key) {
          BoxedGood(s, e);
          LandedGood(Boxed(s, e.key), e);
        }
    }
  }

  lemma TakeKeeps(s: State, c: nat)
    requires Good(s) && c < |s.chans| && s.chans[c].worker.Waiting? && s.chans[c].queue != []
    ensures Good(Next(s, Take(c)))
  {
    var ch := s.chans[c];
    var ch' := ch.(taken := ch.taken + [ch.queue[0]], queue := ch.queue[1..], worker := Handling(ch.queue[0]));
    assert ch.queue == [ch.queue[0]] + ch.queue[1..];
    assert ch.taken + ch.queue == ch'.taken + ch'.queue;
    ReplacedGood(s, c, ch');
  }

  lemma {:induction false} RunKeeps(s: State, xs: seq<Step>)
    requires Good(s)
    ensures Good(Run(s, xs))
    decreases |xs|
  {
    if xs != [] {
      RunKeeps(s, xs[..|xs|-1]);
      StepKeeps(Run(s, xs[..|xs|-1]), xs[|xs|-1]);
    }
  }

  /** In every interleaving: a conversation is in the table iff exactly one live worker serves
      it, at most 64 are, and no two handlers of one conversation run at once. */
  lemma OneWorkerEach(xs: seq<Step>)
    ensures var s := Run(START, xs);
      && |s.boxes| <= MAX_CONVERSATIONS
      && (forall k :: k in s.boxes <==> exists c :: ServedBy(s, k, c))
      && (forall k, c, d :: ServedBy(s, k, c) && ServedBy(s, k, d) ==> c == d)
      && (forall c, d :: 0 <= c < d < |s.chans| && s.chans[c].worker.Handling? && s.chans[d].worker.Handling? ==>
            s.chans[c].key != s.chans[d].key)
  {
    RunKeeps(START, xs);
    var s := Run(START, xs);
    hide ChanGood, Run;
    forall k | k in s.boxes ensures exists c :: ServedBy(s, k, c) {
      assert ServedBy(s, k, s.boxes[k]);
    }
  }

  /** Where an accepted event is: taken, in the order sent and once; or waiting for a live
      worker; or dropped by the shutdown; or stranded in a channel its worker had retired
      from when idle, because it was sent after that. */
  lemma EveryEventIsSomewhere(xs: seq<Step>, c: nat, i: nat)
    requires c < |Run(START, xs).chans| && i < |Run(START, xs).chans[c].sent|
    ensures var ch := Run(START, xs).chans[c];
      && ch.taken <= ch.sent && ch.sent[|ch.taken|..] == ch.queue && |ch.queue| <= DEPTH
      && ch.sent[i].key == ch.key
      && (i < |ch.taken| || ch.worker.Live() || ch.worker.Quit? || (ch.worker.Idled? && ch.worker.at <= i))
  {
    hide Run;
    RunKeeps(START, xs);
    assert ChanGood(Run(START, xs).chans[c]);
  }

  // ---- events stranded between unlock and send ----

  /** A send on a channel whose worker has gone idle. */
  ghost predicate Strands(s: State, x: Step) {
    x.Send? && x.d in s.flying && s.flying[x.d].ch < |s.chans|
    && s.chans[s.flying[x.d].ch].worker.Idled? && |s.chans[s.flying[x.d].ch].queue| < DEPTH
  }

  function StrandedIn(chans: seq<Chan>): nat {
    if chans == [] then 0
    else StrandedIn(chans[..|chans|-1]) + (if chans[|chans|-1].worker.Idled? then |chans[|chans|-1].queue| else 0)
  }

  function Stranded(ch: Chan): nat {
    if ch.worker.Idled? then |ch.queue| else 0
  }

  lemma {:induction false} StrandedUpdate(chans: seq<Chan>, c: nat, ch: Chan)
    requires c < |chans|
    ensures StrandedIn(chans[c := ch]) == StrandedIn(chans) - Stranded(chans[c]) + Stranded(ch)
    decreases |chans|
  {
    var n := |chans| - 1;
    if c < n {
      StrandedUpdate(chans[..n], c, ch);
      assert chans[c := ch][..n] == chans[..n][c := ch];
    } else {
      assert chans[c := ch][..n] == chans[..n];
    }
  }

  lemma StrandedAppend(chans: seq<Chan>, ch: Chan)
    ensures StrandedIn(chans + [ch]) == StrandedIn(chans) + Stranded(ch)
  {
    assert (chans + [ch])[..|chans + [ch]|-1] == chans;
  }

  /** Exactly the sends on a retired channel strand an event; every other step strands none
      and rescues none. */
  lemma StrandsExactly(s: State, x: Step)
    requires Good(s)
    ensures StrandedIn(Next(s, x).chans) == StrandedIn(s.chans) + if Strands(s, x) then 1 else 0
  {
    hide ChanGood, StrandedIn, Good;
    match x {
      case Claim(_, e) =>
        StrandedAppend(s.chans, Chan(e.key, [], [], [], Waiting));
      case Send(d) =>
        if d in s.flying && s.flying[d].ch < |s.chans| {
          StrandedUpdate(s.chans, s.flying[d].ch, Offered(s.chans[s.flying[d].ch], s.flying[d].e));
        }
      case Take(c) =>
        if c < |s.chans| && s.chans[c].worker.Waiting? && s.chans[c].queue != [] {
          StrandedUpdate(s.chans, c, Next(s, x).chans[c]);
        }
      case Finish(c) =>
        if c < |s.chans| && s.chans[c].worker.Handling? {
          StrandedUpdate(s.chans, c, Next(s, x).chans[c]);
        }
      case Idle(c) =>
        if c < |s.chans| && s.chans[c].worker.Waiting? && s.chans[c].queue == [] {
          StrandedUpdate(s.chans, c, Next(s, x).chans[c]);
        }
      case Cancel =>
      case Leave(c) =>
        if c < |s.chans| && s.chans[c].worker.Waiting? && s.done {
          StrandedUpdate(s.chans, c, Next(s, x).chans[c]);
        }
      case Deliver(e) =>
        DeliverStrandsNone(s, e);
    }
  }

  lemma DeliverStrandsNone(s: State, e: Letter)
    requires Good(s)
    ensures StrandedIn(Next(s, Deliver(e)).chans) == StrandedIn(s.chans)
  {
    var key := e.key;
    if !Refused(s, key) {
      BoxedGood(s, e);
      BoxedStrandsNone(s, key);
      LandedStrandsNone(Boxed(s, key), key, e);
    }
  }

  lemma BoxedStrandsNone(s: State, key: string)
    ensures StrandedIn(Boxed(s, key).chans) == StrandedIn(s.chans)
  {
    StrandedAppend(s.chans, Chan(key, [], [], [], Waiting));
  }

  lemma LandedStrandsNone(b: State, key: string, e: Letter)
    requires Good(b) && key in b.boxes
    ensures StrandedIn(Landed(b, key, e).chans) == StrandedIn(b.chans)
  {
    hide ChanGood, StrandedIn;
    assert ServedBy(b, key, b.boxes[key]);
    StrandedUpdate(b.chans, b.boxes[key], Offered(b.chans[b.boxes[key]], e));
  }

  ghost predicate SendsInLock(xs: seq<Step>) {
    forall i :: 0 <= i < |xs| ==> !xs[i].Send?
  }

  /** With the send inside the lock, the case is empty: an idle worker leaves nothing behind,
      ever. */
  lemma {:induction false} LockedStrandsNone(xs: seq<Step>)
    requires SendsInLock(xs)
    ensures StrandedIn(Run(START, xs).chans) == 0
    decreases |xs|
  {
    if xs != [] {
      var init := xs[..|xs|-1];
      LockedStrandsNone(init);
      RunKeeps(START, init);
      StrandsExactly(Run(START, init), xs[|xs|-1]);
    }
  }

  /** A stranded event is never handled, whatever happens next. */
  lemma {:induction false} StrandedForGood(s: State, xs: seq<Step>, c: nat)
    requires Good(s) && c < |s.chans| && s.chans[c].worker.Idled?
    ensures var s' := Run(s, xs);
      && c < |s'.chans| && s'.chans[c].worker == s.chans[c].worker && s'.chans[c].taken == s.chans[c].taken
      && s.chans[c].queue <= s'.chans[c].queue && s.chans[c].sent <= s'.chans[c].sent
    decreases |xs|
  {
    if xs != [] {
      var init := xs[..|xs|-1];
      StrandedForGood(s, init, c);
      RunKeeps(s, init);
      IdledStays(Run(s, init), xs[|xs|-1], c);
    }
  }

  lemma LandedElsewhere(b: State, key: string, e: Letter, c: nat)
    requires Good(b) && key in b.boxes && c < |b.chans| && !b.chans[c].worker.Live()
    ensures |Landed(b, key, e).chans| == |b.chans| && Landed(b, key, e).chans[c] == b.chans[c]
  {
    hide ChanGood;
    assert ServedBy(b, key, b.boxes[key]);
  }

  lemma IdledStays(s: State, x: Step, c: nat)
    requires Good(s) && c < |s.chans| && s.chans[c].worker.Idled?
    ensures var s' := Next(s, x);
      && c < |s'.chans| && s'.chans[c].worker == s.chans[c].worker && s'.chans[c].taken == s.chans[c].taken
      && s.chans[c].queue <= s'.chans[c].queue && s.chans[c].sent <= s'.chans[c].sent
  {
    hide ChanGood, Good;
    match x {
      case Deliver(e) =>
        if !Refused(s, e.key) {
          BoxedGood(s, e);
          LandedElsewhere(Boxed(s, e.key), e.key, e, c);
        }
      case Claim(_, e) =>
        assert Boxed(s, e.key).chans[c] == s.chans[c];
      case _ =>
    }
  }

  /** With the send after the unlock it happens: a worker retires in between, and an accepted
      event is left where nobody reads. */
  lemma SendAfterUnlockStrands(e: Letter)
    ensures var s := Run(START, [Claim(0, e), Idle(0), Send(0)]);
      && !s.done && s.boxes == map[] && s.flying == map[]
      && s.chans == [Chan(e.key, [e], [], [e], Idled(0))]
      && StrandedIn(s.chans) == 1
  {
    var k := e.key;
    var xs := [Claim(0, e), Idle(0), Send(0)];
    assert xs[..2] == [Claim(0, e), Idle(0)] && xs[..2][..1] == [Claim(0, e)] && xs[..2][..1][..0] == [];
    var s1, s2 := Next(START, xs[0]), Next(Next(START, xs[0]), xs[1]);
    assert s1.boxes == map[k := 0] && s1.chans == [Chan(k, [], [], [], Waiting)] && s1.flying == map[0 := Flight(0, e)];
    assert s2.boxes == map[] && s2.chans == [Chan(k, [], [], [], Idled(0))] && s2.flying == s1.flying;
    assert Run(START, xs[..2][..1]) == s1;
    assert Run(START, xs[..2]) == s2;
    var s3 := Next(s2, xs[2]);
    assert s2.chans[0].sent + [e] == [e] && s2.chans[0].queue + [e] == [e];
    assert s3.chans == [Offered(s2.chans[0], e)];
    assert s3.chans == [Chan(k, [e], [], [e], Idled(0))] && s3.flying == map[];
    StrandedAppend([], s3.chans[0]);
  }
}
