/** One DevTools connection as a state machine: calls, the reader, replies, cancellations
    and the loss of the socket, interleaved at every lock and channel operation. */
module Cdp {

  datatype Reply = Value(text: string) | Fault(code: int, message: string)

  /** What the socket brings: a reply under its call's id, or, under id 0, an event. */
  datatype Envelope = Envelope(id: int, reply: Reply)

  /** What a call's channel is sent: a reply, with the id it came under, or the news that the
      connection is closed. */
  datatype Note = Answer(id: int, reply: Reply) | Closed

  datatype Phase = Started | Registered | Waiting | Leaving | Returned | Done(note: Note)

  /** One call: its channel of one place, and how often that was ever sent to. */
  datatype Call = Call(phase: Phase, inbox: seq<Note>, sends: nat)

  datatype Reader = Reading | Holding(id: int, note: Note) | Failing(left: set<int>) | Exited

  /** `read` is every envelope so far; `lost` the calls pending when the socket was lost. */
  datatype State = State(nextID: nat, pending: set<int>, calls: map<int, Call>, reader: Reader,
                         read: seq<Envelope>, lost: set<int>)

  const START := State(0, {}, map[], Reading, [], {})

  datatype Step =
    | Begin                  // a call takes its id
    | Register(id: int)      // and enters the pending map
    | Sent(id: int)          // its request is written
    | NotSent(id: int)       // or is not
    | Cancel(id: int)        // its context ends while it waits
    | Forget(id: int)        // it takes itself out of the map and returns its error
    | Receive(id: int)       // it receives what its channel holds
    | Read(e: Envelope)      // the reader gets a message, and claims the call it is for
    | Dispatch               // and sends it on, blocking while the channel is full
    | Lose                   // the socket errs: the reader takes the whole map
    | FailOne(id: int)       // and tells one of its calls, if its channel has room
    | Exit

  predicate In(s: State, id: int, p: Phase) {
    id in s.calls && s.calls[id].phase == p
  }

  function Moved(s: State, id: int, p: Phase): State {
    if id in s.calls then s.(calls := s.calls[id := s.calls[id].(phase := p)]) else s
  }

  function Told(s: State, id: int, n: Note): State {
    if id in s.calls && s.calls[id].inbox == [] then
      s.(calls := s.calls[id := s.calls[id].(inbox := [n], sends := s.calls[id].sends + 1)])
    else s
  }

  /** A step can be taken at all. */
  predicate Enabled(s: State, x: Step) {
    match x
    case Begin => true
    case Register(id) => In(s, id, Started)
    case Sent(id) => In(s, id, Registered)
    case NotSent(id) => In(s, id, Registered)
    case Cancel(id) => In(s, id, Waiting)
    case Forget(id) => In(s, id, Leaving)
    case Receive(id) => In(s, id, Waiting) && s.calls[id].inbox != []
    case Read(_) => s.reader.Reading?
    case Dispatch => s.reader.Holding? && s.reader.id in s.calls && s.calls[s.reader.id].inbox == []
    case Lose => s.reader.Reading?
    case FailOne(id) => s.reader.Failing? && id in s.reader.left
    case Exit => s.reader == Failing({})
  }

  function Next(s: State, x: Step): State
    requires Enabled(s, x)
  {
    match x
    case Begin => s.(nextID := s.nextID + 1, calls := s.calls[s.nextID + 1 := Call(Started, [], 0)])
    case Register(id) => Moved(s, id, Registered).(pending := s.pending + {id})
    case Sent(id) => Moved(s, id, Waiting)
    case NotSent(id) => Moved(s, id, Leaving)
    case Cancel(id) => Moved(s, id, Leaving)
    case Forget(id) => Moved(s, id, Returned).(pending := s.pending - {id})
    case Receive(id) =>
      var c := s.calls[id];
      s.(calls := s.calls[id := c.(phase := Done(c.inbox[0]), inbox := c.inbox[1..])])
    case Read(e) =>
      var s' := s.(read := s.read + [e]);
      if e.id != 0 && e.id in s.pending then
        s'.(pending := s.pending - {e.id}, reader := Holding(e.id, Answer(e.id, e.reply)))
      else s'
    case Dispatch => Told(s, s.reader.id, s.reader.note).(reader := Reading)
    case Lose => s.(reader := Failing(s.pending), lost := s.pending, pending := {})
    case FailOne(id) => Told(s, id, Closed).(reader := Failing(s.reader.left - {id}))
    case Exit => s.(reader := Exited)
  }

  /** Every interleaving: the steps that are enabled when their turn comes. */
  function Run(s: State, xs: seq<Step>): State
    decreases |xs|
  {
    if xs == [] then s
    else
      var s' := Run(s, xs[..|xs|-1]);
      if Enabled(s', xs[|xs|-1]) then Next(s', xs[|xs|-1]) else s'
  }

  // ---- what every step keeps ----

  function One(b: bool): nat {
    if b then 1 else 0
  }

  /** The places that may yet send, or have sent, on a call's channel. */
  function Tokens(s: State, id: int): nat
    requires id in s.calls
  {
    One(id in s.pending) + One(s.reader.Holding? && s.reader.id == id) + One(s.reader.Failing? && id in s.reader.left)
    + s.calls[id].sends
  }

  /** A note a call may have: what was read under its own id, or that the connection closed. */
  ghost predicate Owned(read: seq<Envelope>, id: int, n: Note) {
    n.Closed? || (n.id == id && Envelope(id, n.reply) in read)
  }

  ghost predicate CallGood(s: State, id: int)
    requires id in s.calls
  {
    var c := s.calls[id];
    && 1 <= id <= s.nextID
    && Tokens(s, id) <= 1 && (c.phase.Started? ==> Tokens(s, id) == 0)
    && (c.phase.Registered? || c.phase.Waiting? || c.phase.Leaving? ==> Tokens(s, id) == 1)
    && |c.inbox| + One(c.phase.Done?) == c.sends
    && (forall n :: n in c.inbox ==> Owned(s.read, id, n))
    && (c.phase.Done? ==> Owned(s.read, id, c.phase.note))
    && (id in s.lost ==> id !in s.pending && !s.reader.Reading? && !s.reader.Holding? && Tokens(s, id) == 1)
  }

  ghost predicate Good(s: State) {
    && (forall id :: id in s.calls ==> CallGood(s, id))
    && (forall id :: id in s.pending || id in s.lost ==> id in s.calls)
    && (s.reader.Holding? ==> s.reader.id in s.calls && Owned(s.read, s.reader.id, s.reader.note))
    && (s.reader.Failing? ==> s.reader.left <= s.lost)
  }

  predicate OfReader(x: Step) {
    x.Read? || x.Dispatch? || x.Lose? || x.FailOne? || x.Exit?
  }

  /** A step keeps every call's account, its own call's and the others'. */
  lemma CallKept(s: State, x: Step, id: int)
    requires Good(s) && Enabled(s, x) && id in Next(s, x).calls
    ensures CallGood(Next(s, x), id)
  {
    hide CallGood, Next;
    if OfReader(x) {
      CallKeptByReader(s, x, id);
    } else {
      CallKeptByCall(s, x, id);
    }
  }

  lemma CallKeptByReader(s: State, x: Step, id: int)
    requires Good(s) && Enabled(s, x) && OfReader(x) && id in Next(s, x).calls
    ensures CallGood(Next(s, x), id)
  {
    assert CallGood(s, id);
  }

  lemma CallKeptByCall(s: State, x: Step, id: int)
    requires Good(s) && Enabled(s, x) && !OfReader(x) && id in Next(s, x).calls
    ensures CallGood(Next(s, x), id)
  {
    assert id in s.calls ==> CallGood(s, id);
  }

  lemma StepKeeps(s: State, x: Step)
    requires Good(s) && Enabled(s, x)
    ensures Good(Next(s, x))
  {
    hide CallGood;
    var s' := Next(s, x);
    forall id | id in s'.calls ensures CallGood(s', id) {
      CallKept(s, x, id);
    }
    if x.Read? {
      assert s.read + [x.e] == s'.read;
    }
  }

  lemma {:induction false} RunKeeps(s: State, xs: seq<Step>)
    requires Good(s)
    ensures Good(Run(s, xs))
    decreases |xs|
  {
    hide Good, Enabled, Next;
    if xs != [] {
      RunKeeps(s, xs[..|xs|-1]);
      var s' := Run(s, xs[..|xs|-1]);
      if Enabled(s', xs[|xs|-1]) {
        StepKeeps(s', xs[|xs|-1]);
      }
    }
  }

  /** A call gets at most one note in its life, and only one read under its own id; and the
      reader is never kept from sending: the channel it means to send on is empty. */
  lemma RepliesReachTheirCalls(xs: seq<Step>)
    ensures var s := Run(START, xs);
      && (forall id :: id in s.calls ==> s.calls[id].sends <= 1)
      && (forall id :: id in s.calls && s.calls[id].phase.Done? && s.calls[id].phase.note.Answer? ==>
            s.calls[id].phase.note.id == id && Envelope(id, s.calls[id].phase.note.reply) in s.read)
      && (s.reader.Holding? ==> Enabled(s, Dispatch))
      && (s.reader.Failing? ==> forall id :: id in s.reader.left ==> id in s.calls && s.calls[id].inbox == [])
  {
    RunKeeps(START, xs);
    hide Run;
    var s := Run(START, xs);
    assert forall id :: id in s.calls ==> CallGood(s, id);
  }

  /** Once the reader has left, a waiting call has its note unless it registered after the
      socket was lost; every call pending at the loss was told. */
  lemma PendingAreCompleted(xs: seq<Step>)
    requires Run(START, xs).reader.Exited?
    ensures var s := Run(START, xs);
      && (forall id :: id in s.lost ==> id in s.calls && s.calls[id].sends == 1 && (In(s, id, Waiting) ==> s.calls[id].inbox != []))
      && (forall id :: In(s, id, Waiting) ==> (s.calls[id].inbox != [] <==> id !in s.pending))
  {
    RunKeeps(START, xs);
    hide Run;
    var s := Run(START, xs);
    assert forall id :: id in s.calls ==> CallGood(s, id);
  }

  /** A call that registers after the loss is never answered: only its own context ends it. */
  lemma {:induction false} LateCallIsNotAnswered(s: State, xs: seq<Step>, id: int)
    requires Good(s) && (s.reader.Exited? || s.reader.Failing?) && id in s.pending
    ensures var s' := Run(s, xs);
      && Good(s') && (s'.reader.Exited? || s'.reader.Failing?)
      && id in s'.calls && s'.calls[id].inbox == [] && !s'.calls[id].phase.Done?
      && (s.calls[id].phase.Waiting? ==> s'.calls[id].phase.Waiting? || s'.calls[id].phase.Leaving? || s'.calls[id].phase.Returned?)
    decreases |xs|
  {
    LateCall(s, xs, id);
  }

  ghost predicate Late(s: State, id: int) {
    && (s.reader.Exited? || s.reader.Failing?) && id in s.calls && id !in s.lost
    && s.calls[id].sends == 0 && s.calls[id].inbox == [] && !s.calls[id].phase.Done?
  }

  predicate Ending(p: Phase) {
    p.Waiting? || p.Leaving? || p.Returned?
  }

  lemma {:induction false} LateCall(s: State, xs: seq<Step>, id: int)
    requires Good(s) && (s.reader.Exited? || s.reader.Failing?) && id in s.pending
    ensures Good(Run(s, xs)) && Late(Run(s, xs), id)
    ensures Ending(s.calls[id].phase) ==> Ending(Run(s, xs).calls[id].phase)
    decreases |xs|
  {
    if xs == [] {
      assert CallGood(s, id);
    } else {
      LateCall(s, xs[..|xs|-1], id);
      var s', x := Run(s, xs[..|xs|-1]), xs[|xs|-1];
      if Enabled(s', x) {
        StepKeeps(s', x);
        LateStays(s', x, id);
      }
    }
  }

  lemma LateStays(s: State, x: Step, id: int)
    requires Good(s) && Late(s, id) && Enabled(s, x)
    ensures Late(Next(s, x), id)
    ensures Ending(s.calls[id].phase) ==> Ending(Next(s, x).calls[id].phase)
  {
    assert CallGood(s, id);
  }

  /** It can happen: a call that begins before the loss and registers after it. */
  lemma LateCallHappens()
    ensures var s := Run(START, [Begin, Lose, Register(1), Sent(1), Exit]);
      s.reader.Exited? && In(s, 1, Waiting) && 1 in s.pending && s.calls[1].inbox == []
  {
    hide Good, Run, Enabled, Next;
    RunNone(START);
    assert [] + [Begin] == [Begin] && [Begin] + [Lose] == [Begin, Lose] && [Begin, Lose] + [Register(1)] == [Begin, Lose, Register(1)];
    assert [Begin, Lose, Register(1)] + [Sent(1)] == [Begin, Lose, Register(1), Sent(1)];
    assert [Begin, Lose, Register(1), Sent(1)] + [Exit] == [Begin, Lose, Register(1), Sent(1), Exit];
    LateSteps();
    RunAppend(START, [], Begin);
    RunAppend(START, [Begin], Lose);
    RunAppend(START, [Begin, Lose], Register(1));
    RunAppend(START, [Begin, Lose, Register(1)], Sent(1));
    RunAppend(START, [Begin, Lose, Register(1), Sent(1)], Exit);
  }

  function LateAt(pending: set<int>, p: Phase, r: Reader): State {
    State(1, pending, map[1 := Call(p, [], 0)], r, [], {})
  }

  lemma LateSteps()
    ensures Enabled(START, Begin) && Next(START, Begin) == LateAt({}, Started, Reading)
    ensures Enabled(LateAt({}, Started, Reading), Lose)
    ensures Next(LateAt({}, Started, Reading), Lose) == LateAt({}, Started, Failing({}))
    ensures Enabled(LateAt({}, Started, Failing({})), Register(1))
    ensures Next(LateAt({}, Started, Failing({})), Register(1)) == LateAt({1}, Registered, Failing({}))
    ensures Enabled(LateAt({1}, Registered, Failing({})), Sent(1))
    ensures Next(LateAt({1}, Registered, Failing({})), Sent(1)) == LateAt({1}, Waiting, Failing({}))
    ensures Enabled(LateAt({1}, Waiting, Failing({})), Exit)
    ensures Next(LateAt({1}, Waiting, Failing({})), Exit) == LateAt({1}, Waiting, Exited)
  {
  }

  lemma RunNone(s: State)
    ensures Run(s, []) == s
  {
  }

  lemma RunAppend(s: State, xs: seq<Step>, x: Step)
    ensures Run(s, xs + [x]) == if Enabled(Run(s, xs), x) then Next(Run(s, xs), x) else Run(s, xs)
  {
    hide Good;
    assert (xs + [x])[..|xs + [x]|-1] == xs;
  }

  /** A call that gave up is in the map no more, and no other left it with that. */
  lemma {:induction false} ReturnedIsForgotten(xs: seq<Step>, id: int)
    ensures var s := Run(START, xs);
      (id in s.calls && s.calls[id].phase.Returned? ==> id !in s.pending) && (id in s.calls && s.calls[id].phase.Waiting? && s.calls[id].sends == 0 && s.reader.Reading? ==> id in s.pending)
    decreases |xs|
  {
    RunKeeps(START, xs);
    if xs != [] {
      var init, x := xs[..|xs|-1], xs[|xs|-1];
      RunKeeps(START, init);
      ReturnedIsForgotten(init, id);
      if Enabled(Run(START, init), x) {
        ReturnedStep(Run(START, init), x, id);
      }
      WaitingIsPending(Run(START, xs), id);
    }
  }

  lemma ReturnedStep(s: State, x: Step, id: int)
    requires Good(s) && Enabled(s, x) && (id in s.calls && s.calls[id].phase.Returned? ==> id !in s.pending)
    ensures var s' := Next(s, x); id in s'.calls && s'.calls[id].phase.Returned? ==> id !in s'.pending
  {
    hide CallGood;
  }

  lemma WaitingIsPending(s: State, id: int)
    requires Good(s)
    ensures id in s.calls && s.calls[id].phase.Waiting? && s.calls[id].sends == 0 && s.reader.Reading? ==> id in s.pending
  {
    assert id in s.calls ==> CallGood(s, id);
  }

  /** A call whose request was not written, or whose context ended, gives up: it can take itself out, and
      has then returned. */
  lemma GivesUp(s: State, x: Step)
    requires Enabled(s, x) && (x.NotSent? || x.Cancel?)
    ensures var s' := Next(s, x);
      Enabled(s', Forget(x.id)) && var s'' := Next(s', Forget(x.id)); s''.calls[x.id].phase.Returned? && x.id !in s''.pending
  {
  }
}
