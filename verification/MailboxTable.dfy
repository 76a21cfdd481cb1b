/** The mailbox table itself: a map from conversation to channel, and channels shared with
    their workers. Each method is one locked part or one channel operation; `state` is the
    state machine's account of the fields. */
module MailboxTable {
  import opened Mailbox

  class Channel {
    const key: string
    var queue: seq<Letter>

    constructor (key: string)
      ensures this.key == key && queue == []
    {
      this.key, queue := key, [];
    }
  }

  ghost predicate Mirrored(all: seq<Channel>, chans: seq<Chan>)
    reads all
  {
    |all| == |chans| && forall i :: 0 <= i < |all| ==> all[i].key == chans[i].key && all[i].queue == chans[i].queue
  }

  ghost predicate Tabled(boxes: map<string, Channel>, all: seq<Channel>, table: map<string, nat>) {
    && (forall i, j :: 0 <= i < j < |all| ==> all[i] != all[j])
    && boxes.Keys == table.Keys
    && (forall k :: k in boxes ==> table[k] < |all| && boxes[k] == all[table[k]])
  }

  lemma TableHas(boxes: map<string, Channel>, all: seq<Channel>, table: map<string, nat>, key: string)
    requires Tabled(boxes, all, table)
    ensures |boxes| == |table| && (key in boxes <==> key in table)
    ensures key in boxes ==> table[key] < |all| && boxes[key] == all[table[key]]
  {
    assert |boxes| == |boxes.Keys| && |table| == |table.Keys|;
  }

  lemma OnlyOne(boxes: map<string, Channel>, all: seq<Channel>, table: map<string, nat>, c: nat)
    requires Tabled(boxes, all, table) && c < |all|
    ensures forall i :: 0 <= i < |all| && i != c ==> all[i] != all[c]
  {
  }

  lemma TableAdds(boxes: map<string, Channel>, all: seq<Channel>, table: map<string, nat>, key: string, ch: Channel)
    requires Tabled(boxes, all, table) && ch !in all
    ensures Tabled(boxes[key := ch], all + [ch], table[key := |all|])
  {
  }

  lemma TableDrops(boxes: map<string, Channel>, all: seq<Channel>, table: map<string, nat>, key: string)
    requires Tabled(boxes, all, table)
    ensures Tabled(boxes - {key}, all, table - {key})
  {
  }

  /** One channel's change is one change of the account. */
  lemma MirrorUpdates(all: seq<Channel>, chans: seq<Chan>, c: nat, ch: Chan)
    requires |all| == |chans| && c < |all|
    requires all[c].key == ch.key && all[c].queue == ch.queue
    requires forall i :: 0 <= i < |all| && i != c ==> all[i].key == chans[i].key && all[i].queue == chans[i].queue
    ensures Mirrored(all, chans[c := ch])
  {
  }

  class Mailboxes {
    var boxes: map<string, Channel>
    var done: bool
    ghost var state: State
    /** Every channel ever made, by number. */
    ghost var all: seq<Channel>

    ghost predicate Valid()
      reads this, all
    {
      Good(state) && done == state.done && Mirrored(all, state.chans) && Tabled(boxes, all, state.boxes)
    }

    constructor ()
      ensures Valid() && state == START && all == []
    {
      boxes, done, state, all := map[], false, START, [];
    }

    /** A delivery's locked part: the conversation's channel, made with its worker if there is
        none, or a refusal when too many are active. */
    method Claim(e: Letter, ghost d: nat) returns (ch: Channel?)
      requires Valid() && d !in state.flying
      modifies this
      ensures Valid() && state == Next(old(state), Mailbox.Claim(d, e)) && old(all) <= all
      ensures (ch == null) == Refused(old(state), e.key)
      ensures forall c :: c in all ==> c in old(all) || c == ch
      ensures ch != null ==>
        d in state.flying && state.flying[d].e == e && state.flying[d].ch < |all| && all[state.flying[d].ch] == ch
      ensures ch != null && ch !in old(all) ==> fresh(ch)
    {
      hide Good, Next, Tabled;
      var key := e.key;
      ClaimKeeps(state, d, e);
      TableHas(boxes, all, state.boxes, key);
      ClaimIs(state, d, e);
      if key !in boxes {
        if |boxes| >= MAX_CONVERSATIONS {
          return null;
        }
        ch := new Channel(key);
        TableAdds(boxes, all, state.boxes, key, ch);
        boxes := boxes[key := ch];
        all := all + [ch];
      } else {
        ch := boxes[key];
      }
      state := Next(state, Mailbox.Claim(d, e));
    }

    /** Its send, which does not block: reported refused when the channel is full. */
    method Send(ch: Channel, e: Letter, ghost d: nat) returns (ok: bool)
      requires Valid() && d in state.flying && state.flying[d].e == e
      requires state.flying[d].ch < |all| && all[state.flying[d].ch] == ch
      modifies this`state, ch
      ensures Valid() && state == Next(old(state), Mailbox.Send(d))
      ensures ok == (|old(ch.queue)| < DEPTH) && ch.queue == if ok then old(ch.queue) + [e] else old(ch.queue)
    {
      hide Good, Tabled;
      SendKeeps(state, d);
      ghost var c := state.flying[d].ch;
      OnlyOne(boxes, all, state.boxes, c);
      ok := |ch.queue| < DEPTH;
      if ok {
        ch.queue := ch.queue + [e];
      }
      MirrorUpdates(all, state.chans, c, Offered(state.chans[c], e));
      state := Next(state, Mailbox.Send(d));
    }

    /** A delivery that nothing interrupts is the one made under a single lock. */
    method Deliver(event: Event, ghost d: nat) returns (accepted: bool)
      requires Valid() && d !in state.flying
      modifies this, all
      ensures Valid() && state == Next(old(state), Mailbox.Deliver(Keyed(event)))
      ensures accepted == Accepts(old(state), Keyed(event))
    {
      hide Keyed, ChanGood, Good;
      var e := Keyed(event);
      BothHalves(state, d, e);
      var ch := Claim(e, d);
      if ch == null {
        return false;
      }
      accepted := Send(ch, e, d);
    }

    /** The worker takes the oldest event waiting. */
    method Receive(ch: Channel, ghost c: nat) returns (e: Letter)
      requires Valid() && c < |all| && all[c] == ch && state.chans[c].worker.Waiting? && ch.queue != []
      modifies this`state, ch
      ensures Valid() && state == Next(old(state), Take(c)) && old(ch.queue) == [e] + ch.queue
    {
      hide Good, Tabled;
      TakeKeeps(state, c);
      OnlyOne(boxes, all, state.boxes, c);
      e := ch.queue[0];
      ch.queue := ch.queue[1..];
      MirrorUpdates(all, state.chans, c, Next(state, Take(c)).chans[c]);
      state := Next(state, Take(c));
    }

    /** The idle timer: the worker retires only from an empty channel. */
    method IdleFired(ch: Channel, ghost c: nat) returns (retired: bool)
      requires Valid() && c < |all| && all[c] == ch && state.chans[c].worker.Waiting?
      modifies this`boxes, this`state
      ensures Valid() && state == Next(old(state), Idle(c))
      ensures retired == (ch.queue == []) && (retired ==> ch.key !in boxes)
    {
      hide Good, Tabled;
      StepKeeps(state, Idle(c));
      TableDrops(boxes, all, state.boxes, ch.key);
      if |ch.queue| > 0 {
        return false;
      }
      boxes := boxes - {ch.key};
      state := Next(state, Idle(c));
      retired := true;
    }

    /** The agent's context has ended: the worker takes its key out of the table. */
    method Retire(ch: Channel, ghost c: nat)
      requires Valid() && c < |all| && all[c] == ch && state.chans[c].worker.Waiting? && done
      modifies this`boxes, this`state
      ensures Valid() && state == Next(old(state), Leave(c)) && ch.key !in boxes
    {
      hide Good, Tabled;
      StepKeeps(state, Leave(c));
      TableDrops(boxes, all, state.boxes, ch.key);
      boxes := boxes - {ch.key};
      state := Next(state, Leave(c));
    }
  }

  lemma ClaimIs(s: State, d: nat, e: Letter)
    requires d !in s.flying
    ensures var key, s' := e.key, Next(s, Mailbox.Claim(d, e));
      && s'.done == s.done
      && (Refused(s, key) ==> s' == s)
      && (!Refused(s, key) && key in s.boxes ==>
            s'.boxes == s.boxes && s'.chans == s.chans && s'.flying == s.flying[d := Flight(s.boxes[key], e)])
      && (!Refused(s, key) && key !in s.boxes ==>
            && s'.boxes == s.boxes[key := |s.chans|] && s'.chans == s.chans + [Chan(key, [], [], [], Waiting)]
            && s'.flying == s.flying[d := Flight(|s.chans|, e)])
  {
  }

  /** A delivery is accepted iff its conversation has a box or may have one, with room left. */
  predicate Accepts(s: State, e: Letter) {
    var key := e.key;
    if key in s.boxes then s.boxes[key] < |s.chans| && |s.chans[s.boxes[key]].queue| < DEPTH
    else |s.boxes| < MAX_CONVERSATIONS
  }

  lemma BothHalves(s: State, d: nat, e: Letter)
    requires Good(s) && d !in s.flying
    ensures Next(Next(s, Mailbox.Claim(d, e)), Mailbox.Send(d)) == Next(s, Mailbox.Deliver(e))
    ensures Refused(s, e.key) ==> Next(s, Mailbox.Claim(d, e)) == s == Next(s, Mailbox.Deliver(e))
    ensures !Refused(s, e.key) ==>
      var s1 := Next(s, Mailbox.Claim(d, e));
      d in s1.flying && s1.flying[d].ch < |s1.chans| && (|s1.chans[s1.flying[d].ch].queue| < DEPTH <==> Accepts(s, e))
  {
    hide Good;
    var key := e.key;
    if !Refused(s, key) {
      BoxLives(s, e);
      var b := Boxed(s, key);
      assert b.flying[d := Flight(b.boxes[key], e)] - {d} == b.flying;
    }
  }

  lemma BoxLives(s: State, e: Letter)
    requires Good(s) && !Refused(s, e.key)
    ensures var key, b := e.key, Boxed(s, e.key);
      key in b.boxes && b.boxes[key] < |b.chans| && (key !in s.boxes ==> b.chans[b.boxes[key]].queue == [])
  {
    hide ChanGood;
    if e.key in s.boxes {
      assert ServedBy(s, e.key, s.boxes[e.key]);
    }
  }
}
