/** The send path in one call: its refusals, its order of effects, and what it leaves behind. */
module SendPath {
  import Basics
  import opened Dedup
  import opened Sends

  datatype Channel = NoChannel | Channel(dnd: bool)

  datatype Delivery = Went | BadAddress | Broke

  /** What the world does during one call: its clock, what the history shows, how the delivery
      goes, and whether the message can be stored. */
  datatype World = World(now: int, history: History, reserveAt: int, delivery: Delivery, recordAt: int, saved: bool)

  datatype Result = Sent | Empty | NotFound | Muted | Duplicate | InFlight | Failed

  datatype Event = CommsSent(target: string, content: string) | Critical(target: string)

  predicate Blank(content: string) {
    Basics.TrimSpace(content) == ""
  }

  /** What a call returns, in the order its conditions are met. */
  ghost function ResultOf(a: Alphabet, s: State, producer: string, channel: Channel, target: string, content: string,
                          w: World): Result {
    if Blank(content) then Empty
    else if channel.NoChannel? then NotFound
    else if channel.dnd then Muted
    else if Said(a, s.rows, w.history, content, w.now) && producer != STATUS then Duplicate
    else if GuardKey(a, target, content) in Purged(s.inflight, w.reserveAt) then InFlight
    else if !w.delivery.Went? then Failed
    else Sent
  }

  /** What it does to the store and the guard: nothing before its check, and its steps in turn. */
  ghost function StateOf(a: Alphabet, s: State, r: Result, producer: string, target: string, content: string, w: World): State {
    if r.Empty? || r.NotFound? || r.Muted? then s
    else
      var s1 := Do(a, s, Look(0, producer, target, content, w.now, w.history));
      if r.Duplicate? then s1
      else
        var s2 := Do(a, s1, Reserve(0, w.reserveAt));
        if r.InFlight? then s2
        else
          var s3 := Do(a, s2, Deliver(0, w.delivery.Went?));
          if r.Failed? then s3
          else Do(a, Do(a, s3, Record(0, w.recordAt, w.saved)), Release(0))
  }

  /** What it publishes: the sent message, stored or not; or the alarm it was asked to raise,
      but not over an address its caller got wrong. */
  function EventsOf(r: Result, target: string, content: string, alert: bool, d: Delivery): seq<Event> {
    if r.Sent? then [CommsSent(target, content)]
    else if alert && (r.Muted? || (r.Failed? && !d.BadAddress?)) then [Critical(target)]
    else []
  }

  class Manager {
    const alphabet: Alphabet
    const guard: SendGuard
    var rows: seq<Row>
    var published: seq<Event>
    ghost var state: State

    ghost predicate Valid()
      reads this, guard
    {
      rows == state.rows && guard.inflight == state.inflight && state.procs == map[]
    }

    constructor (a: Alphabet)
      ensures Valid() && state == START && published == [] && alphabet == a && fresh(guard)
    {
      alphabet := a;
      guard := new SendGuard();
      rows, published, state := [], [], START;
    }

    /** Whether the newest fifteen rows say the message was just sent; a history that cannot be
        read never blocks it. */
    method RecentlySaid(content: string, now: int, history: History) returns (dup: bool)
      requires history.Page? ==> forall i :: i in history.rows ==> i < |rows|
      ensures dup <==> Said(alphabet, rows, history, content, now)
    {
      hide Repeats;
      if history.Unreadable? {
        return false;
      }
      var recent: seq<Past> := [];
      ghost var from: seq<nat> := [];
      for i := 0 to |history.rows|
        invariant |from| == |recent| && forall j :: 0 <= j < |history.rows| ==> history.rows[j] in history.rows && history.rows[j] < |rows|
        invariant forall j :: 0 <= j < |recent| ==> from[j] in history.rows && PastOf(from[j], recent[j])
        invariant forall j :: 0 <= j < i && rows[history.rows[j]].outbound ==> history.rows[j] in from
      {
        assert history.rows[i] in history.rows;
        var r := rows[history.rows[i]];
        if !r.outbound {
          continue;
        }
        recent := recent + [Past(r.content, r.at)];
        from := from + [history.rows[i]];
      }
      dup := IsRepeat(alphabet, content, recent, now);
      if Said(alphabet, rows, history, content, now) {
        ghost var k :| k in history.rows && k < |rows| && rows[k].outbound
                       && Repeats(alphabet, content, Past(rows[k].content, rows[k].at), now);
        ghost var j :| 0 <= j < |history.rows| && history.rows[j] == k;
        ghost var n :| 0 <= n < |from| && from[n] == k;
        assert PastOf(from[n], recent[n]);
      }
      if dup {
        ghost var n :| 0 <= n < |recent| && Repeats(alphabet, content, recent[n], now);
        assert PastOf(from[n], recent[n]);
      }
    }

    ghost predicate PastOf(k: nat, p: Past)
      reads this`rows
    {
      k < |rows| && rows[k].outbound && p == Past(rows[k].content, rows[k].at)
    }

    method Send(producer: string, channel: Channel, target: string, content: string, alert: bool, w: World) returns (r: Result)
      requires Valid() && state.now <= w.now <= w.reserveAt <= w.recordAt
      requires w.history.Page? ==> NewestOf(rows, target, w.history.rows)
      modifies this, guard
      ensures Valid() && r == ResultOf(alphabet, old(state), producer, channel, target, content, w)
      ensures state == StateOf(alphabet, old(state), r, producer, target, content, w)
      ensures published == old(published) + EventsOf(r, target, content, alert, w.delivery)
    {
      hide Said, NewestOf, Purged, GuardKey, Seconds, Blank;
      if Blank(content) {
        return Empty;
      }
      if channel.NoChannel? {
        return NotFound;
      }
      if channel.dnd {
        Alarm(alert, target);
        return Muted;
      }
      PageRows(rows, target, w.history);
      var dup := RecentlySaid(content, w.now, w.history);
      state := Do(alphabet, state, Look(0, producer, target, content, w.now, w.history));
      if dup && producer != STATUS {
        return Duplicate;
      }
      var key := GuardKey(alphabet, target, content);
      var ok := guard.Reserve(key, w.reserveAt);
      state := Do(alphabet, state, Reserve(0, w.reserveAt));
      if !ok {
        return InFlight;
      }
      r := Conclude(target, content, alert, key, w);
    }

    /** The part of a send past its reservation: deliver, store, publish, release. */
    method Conclude(target: string, content: string, alert: bool, key: string, w: World) returns (r: Result)
      requires rows == state.rows && guard.inflight == state.inflight && state.now <= w.recordAt
      requires state.procs.Keys == {0} && At(state, 0, Inside)
      requires state.procs[0].target == target && state.procs[0].content == content && key == GuardKey(alphabet, target, content)
      modifies this, guard
      ensures Valid() && r == if w.delivery.Went? then Sent else Failed
      ensures var s3 := Do(alphabet, old(state), Deliver(0, w.delivery.Went?));
        state == if r.Failed? then s3 else Do(alphabet, Do(alphabet, s3, Record(0, w.recordAt, w.saved)), Release(0))
      ensures published == old(published) + EventsOf(r, target, content, alert, w.delivery)
    {
      hide Said, NewestOf, Purged, GuardKey, Seconds;
      state := Do(alphabet, state, Deliver(0, w.delivery.Went?));
      if !w.delivery.Went? {
        Alarm(alert && !w.delivery.BadAddress?, target);
        guard.Release(key);
        return Failed;
      }
      if w.saved {
        rows := rows + [Row(target, content, true, Seconds(w.recordAt))];
      }
      state := Do(alphabet, state, Record(0, w.recordAt, w.saved));
      published := published + [CommsSent(target, content)];
      guard.Release(key);
      state := Do(alphabet, state, Release(0));
      return Sent;
    }

    method Alarm(raise: bool, target: string)
      modifies this`published
      ensures published == old(published) + if raise then [Critical(target)] else []
    {
      if raise {
        published := published + [Critical(target)];
      }
    }
  }

  lemma PageRows(rows: seq<Row>, target: string, history: History)
    requires history.Page? ==> NewestOf(rows, target, history.rows)
    ensures history.Page? ==> forall i :: i in history.rows ==> i < |rows|
  {
  }
}
