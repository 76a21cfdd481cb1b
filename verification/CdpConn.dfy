/** The connection's own fields: the pending map and the channels its calls wait on. Each
    method is one side's work between two waits; `state` is the state machine's account. */
module CdpConn {
  import opened Cdp

  /** A call's channel, of one place. */
  class Slot {
    var inbox: seq<Note>

    constructor ()
      ensures inbox == []
    {
      inbox := [];
    }
  }

  ghost predicate Mirrored(slots: map<int, Slot>, calls: map<int, Call>)
    reads slots.Values
  {
    slots.Keys == calls.Keys && forall id :: id in slots ==> slots[id].inbox == calls[id].inbox
  }

  ghost predicate Apart(slots: map<int, Slot>) {
    forall i, j :: i in slots && j in slots && i != j ==> slots[i] != slots[j]
  }

  ghost predicate Listed(pending: map<int, Slot>, slots: map<int, Slot>, ids: set<int>) {
    pending.Keys == ids && forall id :: id in pending ==> id in slots && slots[id] == pending[id]
  }

  /** What a message does to the connection: an answer goes to the call it names, if that is
      still waiting; anything else to nobody. */
  ghost function Handled(s: State, e: Envelope): State
    requires s.reader.Reading?
  {
    var s' := Next(s, Read(e));
    if Enabled(s', Dispatch) then Next(s', Dispatch) else s'
  }

  /** The connection once its reader has told every pending call and left. */
  ghost function AllTold(s: State): State {
    ToldAll(s, s.pending).(pending := {}, lost := s.pending, reader := Exited)
  }

  ghost function ToldAll(s: State, ids: set<int>): State {
    s.(calls := map id | id in s.calls :: if id in ids then TheyTold(s.calls[id]) else s.calls[id])
  }

  ghost function TheyTold(c: Call): Call {
    if c.inbox == [] then c.(inbox := [Closed], sends := c.sends + 1) else c
  }

  lemma HandledIs(s: State, e: Envelope)
    requires Good(s) && s.reader.Reading?
    ensures Good(Handled(s, e))
    ensures e.id == 0 || e.id !in s.pending ==> Handled(s, e) == s.(read := s.read + [e])
    ensures e.id != 0 && e.id in s.pending ==>
      && e.id in s.calls && s.calls[e.id].inbox == []
      && Handled(s, e) == Told(s, e.id, Answer(e.id, e.reply)).(read := s.read + [e], pending := s.pending - {e.id})
  {
    StepKeeps(s, Read(e));
    var s' := Next(s, Read(e));
    if Enabled(s', Dispatch) {
      StepKeeps(s', Dispatch);
    }
    if e.id != 0 && e.id in s.pending {
      assert CallGood(s, e.id);
    }
  }

  /** A walk of a map's keys: each once. */
  ghost predicate Walks(order: seq<int>, keys: set<int>) {
    && (forall id :: id in order <==> id in keys)
    && (forall i, j :: 0 <= i < j < |order| ==> order[i] != order[j])
  }

  ghost function Left(order: seq<int>, i: nat): set<int>
    requires i <= |order|
  {
    set j | i <= j < |order| :: order[j]
  }

  lemma LeftAll(order: seq<int>, keys: set<int>)
    requires Walks(order, keys)
    ensures Left(order, 0) == keys && Left(order, |order|) == {}
    ensures forall j :: 0 <= j < |order| ==> order[j] in keys
  {
    assert forall j :: 0 <= j < |order| ==> order[j] in order;
    forall id ensures id in Left(order, 0) <==> id in keys {
      assert id in Left(order, 0) <==> id in order;
    }
  }

  lemma LeftHas(order: seq<int>, i: nat)
    requires i < |order|
    ensures order[i] in Left(order, i)
  {
  }

  lemma LeftLess(order: seq<int>, i: nat)
    requires i < |order| && forall a, b :: 0 <= a < b < |order| ==> order[a] != order[b]
    ensures Left(order, i + 1) == Left(order, i) - {order[i]}
  {
  }

  class Conn {
    var nextID: nat
    var pending: map<int, Slot>
    ghost var state: State
    /** Every call's channel. */
    ghost var slots: map<int, Slot>

    ghost predicate Valid()
      reads this, slots.Values
    {
      && Good(state) && nextID == state.nextID && Mirrored(slots, state.calls) && Apart(slots)
      && Listed(pending, slots, state.pending)
    }

    constructor ()
      ensures Valid() && state == START && slots == map[]
    {
      nextID, pending, state, slots := 0, map[], START, map[];
    }

    /** A call takes the next id and registers its channel under it. */
    method Register() returns (id: int, slot: Slot)
      requires Valid()
      modifies this
      ensures Valid() && fresh(slot) && slots == old(slots)[id := slot] && id == old(nextID) + 1
      ensures state == Next(Next(old(state), Begin), Cdp.Register(id))
    {
      hide Good, Apart, Listed;
      RegisterIs(state);
      nextID := nextID + 1;
      id := nextID;
      slot := new Slot();
      NewSlot(pending, slots, state.pending, id, slot);
      pending := pending[id := slot];
      slots := slots[id := slot];
      state := Next(Next(state, Begin), Cdp.Register(id));
    }

    /** A call that gives up takes itself out. */
    method Forget(id: int)
      requires Valid() && Enabled(state, Cdp.Forget(id))
      modifies this`pending, this`state
      ensures Valid() && state == Next(old(state), Cdp.Forget(id)) && pending == old(pending) - {id}
    {
      hide Good;
      StepKeeps(state, Cdp.Forget(id));
      pending := pending - {id};
      state := Next(state, Cdp.Forget(id));
    }

    /** The reader's work on one message. Its send finds the channel empty. */
    method Dispatch(e: Envelope)
      requires Valid() && state.reader.Reading?
      modifies this`pending, this`state, slots.Values
      ensures Valid() && state == Handled(old(state), e)
      ensures e.id != 0 && e.id in old(pending) ==> old(pending)[e.id].inbox == [Answer(e.id, e.reply)]
      ensures forall id :: id in slots && (e.id == 0 || e.id !in old(pending) || id != e.id) ==> slots[id].inbox == old(slots[id].inbox)
    {
      hide Good, Handled;
      HandledIs(state, e);
      if e.id != 0 {
        if e.id in pending {
          var slot := pending[e.id];
          pending := pending - {e.id};
          slot.inbox := slot.inbox + [Answer(e.id, e.reply)];
        }
      }
      state := Handled(state, e);
    }

    /** The reader leaves: it takes the whole map, and tells each of its calls, in whatever
        order the map is walked and without blocking, that the connection is closed. None of
        them is too full to hear. */
    method FailPending(order: seq<int>)
      requires Valid() && state.reader.Reading?
      requires Walks(order, pending.Keys)
      modifies this, slots.Values
      ensures Valid() && state == AllTold(old(state)) && pending == map[]
      ensures forall id :: id in old(pending) ==> old(pending)[id].inbox == [Closed]
    {
      hide Good, AllTold, Telling, Mirrored, Left, Next, Enabled;
      ghost var s := state;
      ghost var all := slots;
      LeftAll(order, pending.Keys);
      var taken := TakeAll();
      var i := 0;
      assert forall j :: 0 <= j < |order| ==> order[j] in taken.Keys;
      assert forall id :: id in taken.Keys ==> id in slots;
      while i < |order|
        invariant 0 <= i <= |order| && slots == all && pending == map[]
        invariant Valid()
        invariant Telling(s, state, Left(order, i))
        invariant forall j :: 0 <= j < |order| ==> order[j] in taken && order[j] in slots && taken[order[j]] == slots[order[j]]
        invariant forall j :: 0 <= j < i ==> taken[order[j]].inbox == [Closed]
      {
        var id := order[i];
        LeftHas(order, i);
        TellOne(id, taken[id], s, Left(order, i));
        LeftLess(order, i);
        i := i + 1;
      }
      Leave(s);
    }

    method Leave(ghost s: State)
      requires Valid() && Telling(s, state, {})
      modifies this`state
      ensures Valid() && state == AllTold(s)
    {
      hide Good, Telling, AllTold;
      TellingDone(s, state);
      state := Next(state, Exit);
    }

    /** The reader takes the whole map under its lock. */
    method TakeAll() returns (taken: map<int, Slot>)
      requires Valid() && state.reader.Reading?
      modifies this`pending, this`state
      ensures Valid() && taken == old(pending) && pending == map[]
      ensures old(pending).Keys == old(state).pending && Telling(old(state), state, old(pending).Keys)
      ensures forall id :: id in taken ==> id in slots && slots[id] == taken[id]
    {
      hide Good, Telling;
      LoseGood(state);
      taken := pending;
      pending := map[];
      state := Next(state, Lose);
    }

    /** One send that does not block. */
    method TellOne(id: int, slot: Slot, ghost s: State, ghost left: set<int>)
      requires Valid() && id in slots && slots[id] == slot && id in left && Telling(s, state, left)
      modifies this`state, slot
      ensures Valid() && Telling(s, state, left - {id}) && slot.inbox == [Closed]
    {
      hide Good;
      TellingStep(s, state, left, id);
      if |slot.inbox| < 1 {
        slot.inbox := slot.inbox + [Closed];
      }
      state := Next(state, FailOne(id));
    }
  }

  lemma NewSlot(pending: map<int, Slot>, slots: map<int, Slot>, ids: set<int>, id: int, slot: Slot)
    requires Apart(slots) && Listed(pending, slots, ids) && slot !in slots.Values && id !in slots
    ensures Apart(slots[id := slot]) && Listed(pending[id := slot], slots[id := slot], ids + {id})
  {
  }

  lemma RegisterIs(s: State)
    requires Good(s)
    ensures s.nextID + 1 !in s.calls && Enabled(Next(s, Begin), Cdp.Register(s.nextID + 1))
    ensures Good(Next(Next(s, Begin), Cdp.Register(s.nextID + 1)))
    ensures Next(Next(s, Begin), Cdp.Register(s.nextID + 1)) ==
            s.(nextID := s.nextID + 1, pending := s.pending + {s.nextID + 1},
               calls := s.calls[s.nextID + 1 := Call(Registered, [], 0)])
  {
    hide CallGood;
    NewId(s);
    StepKeeps(s, Begin);
    StepKeeps(Next(s, Begin), Cdp.Register(s.nextID + 1));
  }

  lemma NewId(s: State)
    requires Good(s)
    ensures s.nextID + 1 !in s.calls
  {
    assert forall id :: id in s.calls ==> CallGood(s, id);
  }

  /** Part way through the telling: those no longer left have been told. */
  ghost predicate Telling(s: State, now: State, left: set<int>) {
    && left <= s.pending && now == ToldAll(s, s.pending - left).(pending := {}, lost := s.pending, reader := Failing(left))
    && (forall id :: id in left ==> id in s.calls && s.calls[id].inbox == [])
  }

  lemma LoseGood(s: State)
    requires Good(s) && s.reader.Reading?
    ensures Good(Next(s, Lose)) && Telling(s, Next(s, Lose), s.pending)
  {
    StepKeeps(s, Lose);
    forall id | id in s.pending ensures id in s.calls && s.calls[id].inbox == [] {
      assert CallGood(s, id);
    }
    assert ToldAll(s, s.pending - s.pending).calls == s.calls;
  }

  lemma TellingStep(s: State, now: State, left: set<int>, id: int)
    requires Good(now) && id in left && Telling(s, now, left)
    ensures Good(Next(now, FailOne(id))) && Telling(s, Next(now, FailOne(id)), left - {id})
    ensures id in now.calls && now.calls[id].inbox == [] && Next(now, FailOne(id)) == Told(now, id, Closed).(reader := Failing(left - {id}))
  {
    StepKeeps(now, FailOne(id));
    hide Good;
    var next := Next(now, FailOne(id));
    assert next.calls == ToldAll(s, s.pending - (left - {id})).calls;
  }

  lemma TellingDone(s: State, now: State)
    requires Good(now) && Telling(s, now, {})
    ensures Enabled(now, Exit) && Good(Next(now, Exit)) && Next(now, Exit) == AllTold(s)
  {
    StepKeeps(now, Exit);
    assert s.pending - {} == s.pending;
  }
}
