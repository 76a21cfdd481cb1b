/** The broker's own fields, and the store behind them. The locked parts are methods of their
    own; a whole call is what they come to when nothing else happens in between. `state` is the
    account of the fields that the steps are told in. */
module BrokerDesk {
  import opened Broker

  /** Asking for a subject's grants, with nothing in between. */
  ghost function Fetched(s: State, p: nat, subject: string, now: int, answer: Listing, at: int): State {
    Do(Do(Do(s, LookUp(p, subject, now), NoNumbers), StoreRead(p, now, answer), NoNumbers), Fill(p, at), NoNumbers)
  }

  /** Whether the times go on and the store answers what it holds, if it is asked. */
  ghost predicate Asks(s: State, p: nat, subject: string, now: int, answer: Listing, at: int) {
    && p !in s.calls && s.now <= now <= at
    && (answer.Got? && !CacheLive(s, subject, now) ==> Lists(s.table, subject, now, answer.grants))
  }

  lemma FetchedIs(s: State, p: nat, subject: string, now: int, answer: Listing, at: int)
    requires Asks(s, p, subject, now, answer, at)
    ensures var r := Fetched(s, p, subject, now, answer, at);
      && r.trust == s.trust && r.table == s.table && r.meter == s.meter && p in r.calls && r.calls - {p} == s.calls
      && (CacheLive(s, subject, now) ==>
            r.cache == s.cache && r.calls[p] == Answered(subject, s.cache[subject].grants, s.cache[subject].at, now))
      && (!CacheLive(s, subject, now) && answer.Unreadable? ==> r.cache == s.cache && r.calls[p] == Refused(subject))
      && (!CacheLive(s, subject, now) && answer.Got? ==>
            r.cache == s.cache[subject := Cached(answer.grants, at)] && r.calls[p] == Answered(subject, answer.grants, at, at))
  {
    hide Lists, CacheLive, Do;
    var first := Do(s, LookUp(p, subject, now), NoNumbers);
    LookUpIs(s, p, subject, now);
    StoreReadIs(first, p, now, answer);
    FillIs(Do(first, StoreRead(p, now, answer), NoNumbers), p, at);
    assert Fetched(s, p, subject, now, answer, at).calls - {p} == s.calls;
  }

  lemma LookUpIs(s: State, p: nat, subject: string, now: int)
    requires p !in s.calls && s.now <= now
    ensures Do(s, LookUp(p, subject, now), NoNumbers) ==
            s.(now := now, calls := s.calls[p := if CacheLive(s, subject, now)
                                                 then Answered(subject, s.cache[subject].grants, s.cache[subject].at, now)
                                                 else Missed(subject)])
  {
    hide Lists, Grants, LimitOf;
  }

  lemma StoreReadIs(s: State, p: nat, now: int, answer: Listing)
    requires p in s.calls && s.now <= now && (s.calls[p].Missed? && answer.Got? ==> Lists(s.table, s.calls[p].subject, now, answer.grants))
    ensures var r := Do(s, StoreRead(p, now, answer), NoNumbers);
      if !s.calls[p].Missed? then r == s
      else
        var c := if answer.Got? then Held(s.calls[p].subject, answer.grants, now) else Refused(s.calls[p].subject);
        r == s.(now := now, calls := s.calls[p := c])
  {
    hide Lists, Grants, LimitOf;
  }

  lemma FillIs(s: State, p: nat, now: int)
    requires p in s.calls && s.now <= now
    ensures var c, r := s.calls[p], Do(s, Fill(p, now), NoNumbers);
      if !c.Held? then r == s
      else r == s.(now := now, cache := s.cache[c.subject := Cached(c.grants, now)],
                   calls := s.calls[p := Answered(c.subject, c.grants, now, now)])
  {
    hide Lists, Grants, LimitOf;
  }

  class Desk {
    var trust: map<string, Trust>
    var cache: map<string, Cached>
    var table: map<Grant, Expiry>
    var meter: map<MeterKey, Reading>
    ghost var state: State

    ghost predicate Tied()
      reads this
    {
      state.trust == trust && state.cache == cache && state.table == table && state.meter == meter
    }

    constructor ()
      ensures Tied() && state == START
    {
      trust, cache, table, meter, state := map[], map[], map[], map[], START;
    }

    method SetTrust(subject: string, t: Trust)
      requires Tied()
      modifies this`trust, this`state
      ensures Tied() && state == Do(old(state), Trusting(subject, t), NoNumbers)
    {
      trust := trust[subject := t];
      state := Do(state, Trusting(subject, t), NoNumbers);
    }

    /** The first locked part: what is cached, if it is under five seconds old. */
    method LookUp(subject: string, now: int, ghost p: nat) returns (hit: bool, gs: seq<Grant>)
      requires Tied() && Enabled(state, Op.LookUp(p, subject, now))
      modifies this`state
      ensures Tied() && state == Next(old(state), Op.LookUp(p, subject, now), NoNumbers)
      ensures hit == CacheLive(old(state), subject, now) && (hit ==> gs == cache[subject].grants)
    {
      state := Next(state, Op.LookUp(p, subject, now), NoNumbers);
      if subject in cache && now - cache[subject].at < TTL {
        return true, cache[subject].grants;
      }
      return false, [];
    }

    /** The second: what the caller read of the store becomes the subject's entry, of this moment. */
    method Fill(subject: string, gs: seq<Grant>, now: int, ghost p: nat)
      requires Tied() && Enabled(state, Op.Fill(p, now)) && state.calls[p].subject == subject && state.calls[p].grants == gs
      modifies this`cache, this`state
      ensures Tied() && state == Next(old(state), Op.Fill(p, now), NoNumbers)
    {
      state := Next(state, Op.Fill(p, now), NoNumbers);
      cache := cache[subject := Cached(gs, now)];
    }

    method GrantsFor(subject: string, now: int, answer: Listing, at: int, ghost p: nat) returns (gs: Listing)
      requires Tied() && Asks(state, p, subject, now, answer, at)
      modifies this`cache, this`state
      ensures Tied() && state == Fetched(old(state), p, subject, now, answer, at)
      ensures gs == if CacheLive(old(state), subject, now) then Got(old(cache)[subject].grants) else answer
    {
      hide Lists;
      FetchedIs(state, p, subject, now, answer, at);
      var hit, cached := LookUp(subject, now, p);
      if hit {
        return Got(cached);
      }
      state := Do(state, StoreRead(p, now, answer), NoNumbers);
      if answer.Unreadable? {
        return Unreadable;
      }
      Fill(subject, answer.grants, at, p);
      return answer;
    }

    /** Books one use or refusal; the write may fail, and then changes nothing. */
    method MeterCapability(subject: string, capability: string, day: int, allowed: bool, units: int, written: bool)
      modifies this`meter
      ensures forall s: State :: s.meter == old(meter) ==>
                meter == if written then Metered(s, subject, capability, day, allowed, units).meter else old(meter)
    {
      if written {
        var k := MeterKey(subject, capability, day);
        var r := if k in meter then meter[k] else Reading(0, 0, 0);
        meter := meter[k := Reading(r.allowed + (if allowed then 1 else 0), r.refused + (if allowed then 0 else 1), r.units + units)];
      }
    }

    /** A whole check: of a subject that is not gated; else by its grants, refused when they cannot be read. */
    method Check(subject: string, capability: string, value: string, now: int, answer: Listing, at: int, day: int,
                 metered: bool, ghost p: nat) returns (d: Decision)
      requires Tied() && Asks(state, p, subject, now, answer, at)
      modifies this`cache, this`meter, this`state
      ensures Tied() && d == Checked(old(state), subject, capability, value, now, answer, metered)
      ensures state ==
              if Trusted(old(state), subject).Ungated? then Do(old(state), Ungating(subject, capability, day, metered), NoNumbers)
              else Do(Fetched(old(state), p, subject, now, answer, at), Checking(p, capability, value, day, metered), NoNumbers)
    {
      hide Matches, Metered, Lists, Fetched, InOrder, Asks;
      if subject in trust && trust[subject].Ungated? {
        MeterCapability(subject, capability, day, true, 0, metered);
        MeteredAlone(state, subject, capability, day, true, 0);
        state := Do(state, Ungating(subject, capability, day, metered), NoNumbers);
        return if metered then Allowed else Errored;
      }
      FetchedIs(state, p, subject, now, answer, at);
      var gs := GrantsFor(subject, now, answer, at, p);
      if gs.Unreadable? {
        return Errored;
      }
      var granted := Covered(gs.grants, capability, value);
      MeterCapability(subject, capability, day, granted, 0, metered);
      MeteredAlone(state, subject, capability, day, granted, 0);
      state := Do(state, Checking(p, capability, value, day, metered), NoNumbers);
      return if !granted then Denied else if metered then Allowed else Errored;
    }

    /** Books before the work, so an over-budget call does not happen. */
    method Spend(subject: string, units: int, now: int, answer: Listing, at: int, day: int, usageRead: bool, bookDay: int,
                 metered: bool, parse: Parse, ghost p: nat) returns (d: Decision)
      requires Tied() && Asks(state, p, subject, now, answer, at)
      modifies this`cache, this`meter, this`state
      ensures Tied()
      ensures units <= 0 ==> d == Allowed && state == old(state)
      ensures units > 0 ==> var s := Fetched(old(state), p, subject, now, answer, at);
        && state == Do(Do(s, Price(p, units, day, usageRead), parse), Book(p, bookDay, metered), parse)
        && d == if Has(s, p) then Spent(Priced(s, subject, LimitOf(s.calls[p].grants, parse), units, day, usageRead), metered) else Errored
    {
      hide Metered, LimitOf, Lists, Fetched, InOrder, Asks;
      if units <= 0 {
        return Allowed;
      }
      FetchedIs(state, p, subject, now, answer, at);
      var gs := GrantsFor(subject, now, answer, at, p);
      if gs.Unreadable? {
        return Errored;
      }
      var l := SpendLimit(gs.grants, parse);
      PriceIs(state, p, units, day, usageRead, bookDay, metered, parse);
      MeteredAlone(state, subject, SPEND, bookDay, true, units);
      MeteredAlone(state, subject, SPEND, bookDay, false, 0);
      state := Do(Do(state, Price(p, units, day, usageRead), parse), Book(p, bookDay, metered), parse);
      if l.AtMost? {
        if !usageRead {
          return Errored;
        }
        var k := MeterKey(subject, SPEND, day);
        var used := if k in meter then meter[k].units else 0;
        if used + units > l.n {
          MeterCapability(subject, SPEND, bookDay, false, 0, metered);
          return Denied;
        }
      }
      MeterCapability(subject, SPEND, bookDay, true, units, metered);
      return if metered then Allowed else Errored;
    }

    /** Records a permission, and then drops what was cached of its subject. */
    method GrantOne(g: Grant, expiry: Expiry, ok: bool) returns (done: bool)
      requires Tied()
      modifies this`table, this`cache, this`state
      ensures Tied() && done == ok
      ensures state == if ok then Changed(old(state), old(table)[g := expiry], g.subject) else old(state)
    {
      if !ok {
        return false;
      }
      table := table[g := expiry];
      cache := cache - {g.subject};
      state := Changed(state, table, g.subject);
      return true;
    }

    method Revoke(g: Grant, ok: bool) returns (done: bool)
      requires Tied()
      modifies this`table, this`cache, this`state
      ensures Tied() && done == ok
      ensures state == if ok then Changed(old(state), old(table) - {g}, g.subject) else old(state)
    {
      if !ok {
        return false;
      }
      table := table - {g};
      cache := cache - {g.subject};
      state := Changed(state, table, g.subject);
      return true;
    }

    method RevokeAll(subject: string, ok: bool) returns (done: bool)
      requires Tied()
      modifies this`table, this`cache, this`state
      ensures Tied() && done == ok && (!ok ==> state == old(state))
      ensures ok ==> state == Changed(old(state), table, subject)
      ensures ok ==> forall g :: g in table <==> g in old(table) && g.subject != subject
      ensures ok ==> forall g :: g in table ==> table[g] == old(table)[g]
    {
      if !ok {
        return false;
      }
      table := map g | g in table && g.subject != subject :: table[g];
      cache := cache - {subject};
      state := Changed(state, table, subject);
      return true;
    }
  }

  /** A change of the store and the drop of its subject's entry. */
  ghost function Changed(s: State, table: map<Grant, Expiry>, subject: string): State {
    Do(Do(s, Alter(table), NoNumbers), Forget(subject), NoNumbers)
  }

  /** What a check with nothing in between decides. */
  ghost function Checked(s: State, subject: string, capability: string, value: string, now: int, answer: Listing,
                         metered: bool): Decision {
    if Trusted(s, subject).Ungated? then if metered then Allowed else Errored
    else if CacheLive(s, subject, now) then Broker.Check(s.cache[subject].grants, capability, value, metered)
    else if answer.Unreadable? then Errored
    else Broker.Check(answer.grants, capability, value, metered)
  }

  function Spent(v: Verdict, metered: bool): Decision {
    if v.NoReading? then Errored else if v.Over? then Denied else if metered then Allowed else Errored
  }

  /** Pricing and booking a spend, with nothing in between. */
  lemma PriceIs(s: State, p: nat, units: int, day: int, usageRead: bool, bookDay: int, metered: bool, parse: Parse)
    requires Has(s, p) && units > 0
    ensures var v := Priced(s, s.calls[p].subject, LimitOf(s.calls[p].grants, parse), units, day, usageRead);
      var r := Do(Do(s, Price(p, units, day, usageRead), parse), Book(p, bookDay, metered), parse);
      r == if v.NoReading? || !metered then s.(calls := s.calls - {p})
           else Metered(s, s.calls[p].subject, SPEND, bookDay, v.Go?, if v.Go? then units else 0).(calls := s.calls - {p})
  {
    hide LimitOf, Priced, Lists;
    var c := s.calls[p];
    var v := Priced(s, c.subject, LimitOf(c.grants, parse), units, day, usageRead);
    var t := Do(s, Price(p, units, day, usageRead), parse);
    assert t.calls - {p} == s.calls - {p};
  }

  lemma MeteredAlone(s: State, subject: string, capability: string, day: int, allowed: bool, units: int)
    ensures Metered(s, subject, capability, day, allowed, units) ==
            s.(meter := Metered(s, subject, capability, day, allowed, units).meter)
  {
  }

  method Covered(gs: seq<Grant>, capability: string, value: string) returns (granted: bool)
    ensures granted == Grants(gs, capability, value)
  {
    hide Matches;
    for i := 0 to |gs|
      invariant forall j :: 0 <= j < i ==> !(gs[j].capability == capability && Matches(gs[j].value, value))
    {
      if gs[i].capability != capability {
        continue;
      }
      if Matches(gs[i].value, value) {
        return true;
      }
    }
    return false;
  }

  method SpendLimit(gs: seq<Grant>, parse: Parse) returns (l: Limit)
    ensures l == LimitOf(gs, parse)
  {
    for i := 0 to |gs|
      invariant LimitOf(gs[i..], parse) == LimitOf(gs, parse)
    {
      assert gs[i..][1..] == gs[i+1..] && gs[i..][0] == gs[i];
      if gs[i].capability != SPEND {
        continue;
      }
      if gs[i].value == ANY {
        return Uncapped;
      }
      if parse(gs[i].value) > 0 {
        return AtMost(parse(gs[i].value));
      }
    }
    return AtMost(0);
  }

  /** For steps that read no ceiling. */
  function NoNumbers(s: string): int {
    0
  }
}
