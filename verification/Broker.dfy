/** Deciding and metering what a subject may do: grants in a store, a short cache over them,
    and a daily ceiling on spending. Reading a subject's grants is three steps, a look at the
    cache, an unlocked read of the store and a locked write of the cache, and the steps of
    different callers interleave. */
module Broker {
  import opened Basics
  import opened ChatOrder

  const TTL := 5 * SECOND
  const SPEND := "spend"
  const ANY := "*"

  datatype Trust = Community | Registry | Ungated

  /** A permission, as the store keys it; it may expire. */
  datatype Grant = Grant(subject: string, capability: string, value: string)
  datatype Expiry = Forever | Until(t: int)

  /** What reading a subject's grants gives. */
  datatype Listing = Unreadable | Got(grants: seq<Grant>)

  datatype Cached = Cached(grants: seq<Grant>, at: int)

  /** A caller that asked for a subject's grants: it missed the cache; it holds what it read of
      the store; it could not read; or it has its answer, cached at `at`, asked for at `asked`.
      With that, it may have priced a spend, which it is about to book, or to book as refused. */
  datatype Call =
    | Missed(subject: string)
    | Held(subject: string, grants: seq<Grant>, readAt: int)
    | Refused(subject: string)
    | Answered(subject: string, grants: seq<Grant>, at: int, asked: int)
    | Spending(subject: string, units: int, go: bool)

  datatype MeterKey = MeterKey(subject: string, capability: string, day: int)
  datatype Reading = Reading(allowed: int, refused: int, units: int)

  datatype State = State(trust: map<string, Trust>, cache: map<string, Cached>, table: map<Grant, Expiry>,
                         meter: map<MeterKey, Reading>, calls: map<nat, Call>, now: int)

  const START := State(map[], map[], map[], map[], map[], 0)

  datatype Decision = Allowed | Denied | Errored

  predicate Live(e: Expiry, now: int) {
    e.Until? ==> e.t > now
  }

  predicate Holds(table: map<Grant, Expiry>, subject: string, now: int, g: Grant) {
    g in table && (g.subject == subject || g.subject == ANY) && Live(table[g], now)
  }

  predicate InOrder(a: Grant, b: Grant) {
    if a.capability != b.capability then StrBefore(a.capability, b.capability) else !StrBefore(b.value, a.value)
  }

  /** A read of the store: every live grant of the subject or of all subjects, in order. */
  ghost predicate Lists(table: map<Grant, Expiry>, subject: string, now: int, gs: seq<Grant>) {
    && (forall g :: g in gs <==> Holds(table, subject, now, g))
    && (forall i, j :: 0 <= i < j < |gs| ==> InOrder(gs[i], gs[j]))
  }

  /** Only two wildcards: a whole class, and one end of a dotted name. */
  predicate Matches(pattern: string, value: string) {
    if pattern == ANY || pattern == value then true
    else if |pattern| >= 2 && pattern[|pattern|-2..] == ".*" then pattern[..|pattern|-1] <= value
    else if |pattern| >= 2 && pattern[..2] == "*." then HasSuffix(value, pattern[1..])
    else false
  }

  predicate HasSuffix(s: string, t: string) {
    |t| <= |s| && s[|s|-|t|..] == t
  }

  /** A star alone is everything; a final `.*` is a beginning and a first `*.` an end of a dotted
      name; and a star anywhere else is only itself. */
  lemma MatchesExactly(stem: string, value: string)
    ensures Matches(ANY, value)
    ensures Matches(stem + ".*", value) <==> stem + "." <= value
    ensures !HasSuffix("*." + stem, ".*") ==> (Matches("*." + stem, value) <==> HasSuffix(value, "." + stem))
    ensures stem != ANY && !HasSuffix(stem, ".*") && !("*." <= stem) ==> (Matches(stem, value) <==> stem == value)
  {
    var before, after := stem + ".*", "*." + stem;
    assert before[|before|-2..] == ".*" && before[..|before|-1] == stem + ".";
    assert after[..2] == "*." && after[1..] == "." + stem;
    assert after == "*" + ("." + stem) && |after| >= 2;
  }

  function Units(s: State, subject: string, capability: string, day: int): int {
    var k := MeterKey(subject, capability, day);
    if k in s.meter then s.meter[k].units else 0
  }

  function Metered(s: State, subject: string, capability: string, day: int, allowed: bool, units: int): State {
    var k := MeterKey(subject, capability, day);
    var r := if k in s.meter then s.meter[k] else Reading(0, 0, 0);
    s.(meter := s.meter[k := Reading(r.allowed + (if allowed then 1 else 0), r.refused + (if allowed then 0 else 1), r.units + units)])
  }

  predicate CacheLive(s: State, subject: string, now: int) {
    subject in s.cache && now - s.cache[subject].at < TTL
  }

  function Trusted(s: State, subject: string): Trust {
    if subject in s.trust then s.trust[subject] else Community
  }

  predicate Grants(gs: seq<Grant>, capability: string, value: string) {
    exists i :: 0 <= i < |gs| && gs[i].capability == capability && Matches(gs[i].value, value)
  }

  // ---- the ceiling ----

  datatype Limit = Uncapped | AtMost(n: int)

  /** The number a value starts with, if it starts with one. */
  type Parse = string -> int

  /** The first spend grant that says anything: no limit, or a positive number. With none, nothing. */
  function LimitOf(gs: seq<Grant>, parse: Parse): Limit {
    if gs == [] then AtMost(0)
    else if gs[0].capability != SPEND then LimitOf(gs[1..], parse)
    else if gs[0].value == ANY then Uncapped
    else if parse(gs[0].value) > 0 then AtMost(parse(gs[0].value))
    else LimitOf(gs[1..], parse)
  }

  /** What a spend would come to, by the meter as it reads it. */
  datatype Verdict = Go | Over | NoReading

  function Priced(s: State, subject: string, limit: Limit, units: int, day: int, usageRead: bool): Verdict {
    match limit
    case Uncapped => Go
    case AtMost(n) =>
      if !usageRead then NoReading else if Units(s, subject, SPEND, day) + units > n then Over else Go
  }

  // ---- steps ----

  datatype Op =
    | Trusting(subject: string, t: Trust)
    | LookUp(p: nat, subject: string, now: int)          // a caller looks at the cache
    | StoreRead(p: nat, now: int, answer: Listing)       // reads the store, without a lock
    | Fill(p: nat, now: int)                             // and writes the cache
    | Checking(p: nat, capability: string, value: string, day: int, metered: bool)
    | Ungating(subject: string, capability: string, day: int, metered: bool)
    | Price(p: nat, units: int, day: int, usageRead: bool)   // a spend goes by its limit and the meter
    | Book(p: nat, day: int, metered: bool)                  // and is booked
    | Alter(table: map<Grant, Expiry>)                   // the store changes, by whatever process
    | Forget(subject: string)                            // and the broker that changed it drops a cache entry

  predicate Has(s: State, p: nat) {
    p in s.calls && s.calls[p].Answered?
  }

  /** A step can be taken; whatever the store answers is what it holds then. */
  ghost predicate Enabled(s: State, op: Op) {
    match op
    case LookUp(p, _, now) => now >= s.now && (p in s.calls ==> s.calls[p].Answered? || s.calls[p].Refused?)
    case StoreRead(p, now, answer) =>
      p in s.calls && s.calls[p].Missed? && now >= s.now && (answer.Got? ==> Lists(s.table, s.calls[p].subject, now, answer.grants))
    case Fill(p, now) => p in s.calls && s.calls[p].Held? && now >= s.now
    case Checking(p, _, _, _, _) => Has(s, p) && !Trusted(s, s.calls[p].subject).Ungated?
    case Ungating(subject, _, _, _) => Trusted(s, subject).Ungated?
    case Price(p, units, _, _) => Has(s, p) && units > 0
    case Book(p, _, _) => p in s.calls && s.calls[p].Spending?
    case _ => true
  }

  /** One decision, once the grants are known. `metered` is whether the meter could be written. */
  function Check(gs: seq<Grant>, capability: string, value: string, metered: bool): Decision {
    if !Grants(gs, capability, value) then Denied else if metered then Allowed else Errored
  }

  function Booked(s: State, subject: string, capability: string, day: int, allowed: bool, metered: bool): State {
    if metered then Metered(s, subject, capability, day, allowed, 0) else s
  }

  ghost function Next(s: State, op: Op, parse: Parse): State
    requires Enabled(s, op)
  {
    match op
    case Trusting(subject, t) => s.(trust := s.trust[subject := t])
    case LookUp(p, subject, now) =>
      if CacheLive(s, subject, now) then
        s.(calls := s.calls[p := Answered(subject, s.cache[subject].grants, s.cache[subject].at, now)], now := now)
      else s.(calls := s.calls[p := Missed(subject)], now := now)
    case StoreRead(p, now, answer) =>
      var subject := s.calls[p].subject;
      s.(calls := s.calls[p := if answer.Got? then Held(subject, answer.grants, now) else Refused(subject)], now := now)
    case Fill(p, now) =>
      var c := s.calls[p];
      s.(cache := s.cache[c.subject := Cached(c.grants, now)], calls := s.calls[p := Answered(c.subject, c.grants, now, now)], now := now)
    case Checking(p, capability, value, day, metered) =>
      var c := s.calls[p];
      Booked(s, c.subject, capability, day, Grants(c.grants, capability, value), metered).(calls := s.calls - {p})
    case Ungating(subject, capability, day, metered) => Booked(s, subject, capability, day, true, metered)
    case Price(p, units, day, usageRead) =>
      var c := s.calls[p];
      var v := Priced(s, c.subject, LimitOf(c.grants, parse), units, day, usageRead);
      s.(calls := if v.NoReading? then s.calls - {p} else s.calls[p := Spending(c.subject, units, v.Go?)])
    case Book(p, day, metered) =>
      var c := s.calls[p];
      (if metered then Metered(s, c.subject, SPEND, day, c.go, if c.go then c.units else 0) else s).(calls := s.calls - {p})
    case Alter(table) => s.(table := table)
    case Forget(subject) => s.(cache := s.cache - {subject})
  }

  ghost function Do(s: State, op: Op, parse: Parse): State {
    if Enabled(s, op) then Next(s, op, parse) else s
  }

  /** Every interleaving: the steps that are enabled when their turn comes. */
  ghost function Run(s: State, ops: seq<Op>, parse: Parse): State
    decreases |ops|
  {
    if ops == [] then s else Do(Run(s, ops[..|ops|-1], parse), ops[|ops|-1], parse)
  }

  // ---- what an answer rests on ----

  /** Step `i` is the caller's read of the store, which held just these grants. */
  ghost predicate ReadAt(ops: seq<Op>, parse: Parse, i: nat, p: nat, subject: string, gs: seq<Grant>, at: int) {
    && i < |ops| && ops[i] == StoreRead(p, at, Got(gs))
    && Lists(Run(START, ops[..i], parse).table, subject, at, gs)
  }

  /** Steps `i` and `j` are a caller's read of the store and its write of the cache. */
  ghost predicate FilledBy(ops: seq<Op>, parse: Parse, i: nat, j: nat, subject: string, gs: seq<Grant>, at: int) {
    i < j < |ops| && ops[j].Fill? && ops[j].now == at && exists r :: r <= at && ReadAt(ops, parse, i, ops[j].p, subject, gs, r)
  }

  lemma ReadStays(ops: seq<Op>, parse: Parse, i: nat, p: nat, subject: string, gs: seq<Grant>, at: int)
    requires ops != [] && ReadAt(ops[..|ops|-1], parse, i, p, subject, gs, at)
    ensures ReadAt(ops, parse, i, p, subject, gs, at)
  {
    hide Run, Lists;
    assert ops[..|ops|-1][..i] == ops[..i];
  }

  lemma FillStays(ops: seq<Op>, parse: Parse, i: nat, j: nat, subject: string, gs: seq<Grant>, at: int)
    requires ops != [] && FilledBy(ops[..|ops|-1], parse, i, j, subject, gs, at)
    ensures FilledBy(ops, parse, i, j, subject, gs, at)
  {
    hide ReadAt;
    var r :| r <= at && ReadAt(ops[..|ops|-1], parse, i, ops[j].p, subject, gs, r);
    ReadStays(ops, parse, i, ops[j].p, subject, gs, r);
  }

  /** What a step makes of a caller: nothing, unless it is the caller's own. */
  lemma NextCall(s: State, op: Op, parse: Parse, p: nat)
    requires p in Do(s, op, parse).calls
    ensures var c := Do(s, op, parse).calls[p];
      || (p in s.calls && s.calls[p] == c)
      || (Enabled(s, op) && op.LookUp? && (c.Missed? || (c.Answered? && c.asked == op.now && CacheLive(s, c.subject, c.asked)
                                                         && s.cache[c.subject] == Cached(c.grants, c.at))))
      || (Enabled(s, op) && op.StoreRead? && op.p == p && p in s.calls && Do(s, op, parse).now == op.now
          && (c == Refused(s.calls[p].subject) || (op.answer.Got? && c == Held(s.calls[p].subject, op.answer.grants, op.now))))
      || (Enabled(s, op) && op.Fill? && op.p == p && p in s.calls
          && c == Answered(s.calls[p].subject, s.calls[p].grants, op.now, op.now))
      || (Enabled(s, op) && op.Price? && op.p == p && Has(s, p) && c.Spending?)
  {
    hide Lists, Grants, LimitOf, Priced;
  }

  /** Whatever a caller holds it read, no later than now. */
  lemma {:induction false} HeldIsRead(ops: seq<Op>, parse: Parse, p: nat)
    requires p in Run(START, ops, parse).calls && Run(START, ops, parse).calls[p].Held?
    ensures var s := Run(START, ops, parse); var c := s.calls[p];
      c.readAt <= s.now && exists i: nat :: ReadAt(ops, parse, i, p, c.subject, c.grants, c.readAt)
    decreases |ops|
  {
    hide Lists, Next;
    if ops != [] {
      var init, op := ops[..|ops|-1], ops[|ops|-1];
      var s, s' := Run(START, init, parse), Run(START, ops, parse);
      var c := s'.calls[p];
      NextCall(s, op, parse, p);
      TimeKeeps(s, op, parse);
      if p in s.calls && s.calls[p] == c {
        HeldIsRead(init, parse, p);
        var i: nat :| ReadAt(init, parse, i, p, c.subject, c.grants, c.readAt);
        ReadStays(ops, parse, i, p, c.subject, c.grants, c.readAt);
      } else {
        assert op == StoreRead(p, c.readAt, Got(c.grants)) && Enabled(s, op);
        assert ReadAt(ops, parse, |init|, p, c.subject, c.grants, c.readAt);
      }
    }
  }

  lemma TimeKeeps(s: State, op: Op, parse: Parse)
    ensures s.now <= Do(s, op, parse).now
  {
    hide Lists, Grants, LimitOf, CacheLive;
  }

  /** A step changes a subject's cache only by a write of what its caller holds, or by forgetting. */
  lemma NextCache(s: State, op: Op, parse: Parse, subject: string)
    requires subject in Do(s, op, parse).cache
    ensures var c := Do(s, op, parse).cache[subject];
      || (subject in s.cache && s.cache[subject] == c)
      || (op.Fill? && Enabled(s, op) && op.now == c.at && s.calls[op.p].subject == subject && s.calls[op.p].grants == c.grants)
  {
    hide Lists, Grants, LimitOf, CacheLive;
  }

  /** What is cached of a subject is what a caller read of the store, and then wrote. */
  lemma {:induction false} CacheIsRead(ops: seq<Op>, parse: Parse, subject: string)
    requires subject in Run(START, ops, parse).cache
    ensures var c := Run(START, ops, parse).cache[subject]; exists i: nat, j: nat :: FilledBy(ops, parse, i, j, subject, c.grants, c.at)
    decreases |ops|
  {
    hide Lists, Next, FilledBy;
    if ops != [] {
      var init, op := ops[..|ops|-1], ops[|ops|-1];
      var s := Run(START, init, parse);
      var c := Run(START, ops, parse).cache[subject];
      NextCache(s, op, parse, subject);
      if subject in s.cache && s.cache[subject] == c {
        CacheIsRead(init, parse, subject);
        var i: nat, j: nat :| FilledBy(init, parse, i, j, subject, c.grants, c.at);
        FillStays(ops, parse, i, j, subject, c.grants, c.at);
      } else {
        FillIs(ops, parse, op.p, op.now);
      }
    }
  }

  /** A write of the cache puts there what its caller read before. */
  lemma FillIs(ops: seq<Op>, parse: Parse, p: nat, at: int)
    requires ops != [] && ops[|ops|-1] == Fill(p, at)
    requires Enabled(Run(START, ops[..|ops|-1], parse), ops[|ops|-1])
    ensures var c := Run(START, ops[..|ops|-1], parse).calls[p];
      exists i: nat, j: nat :: FilledBy(ops, parse, i, j, c.subject, c.grants, at)
  {
    hide Lists, ReadAt, Run, Next;
    var init, op := ops[..|ops|-1], ops[|ops|-1];
    var c := Run(START, init, parse).calls[op.p];
    HeldIsRead(init, parse, op.p);
    var i: nat :| ReadAt(init, parse, i, op.p, c.subject, c.grants, c.readAt);
    ReadInRange(init, parse, i, op.p, c.subject, c.grants, c.readAt);
    ReadStays(ops, parse, i, op.p, c.subject, c.grants, c.readAt);
    assert FilledBy(ops, parse, i, |ops| - 1, c.subject, c.grants, op.now);
  }

  lemma ReadInRange(ops: seq<Op>, parse: Parse, i: nat, p: nat, subject: string, gs: seq<Grant>, at: int)
    requires ReadAt(ops, parse, i, p, subject, gs, at)
    ensures i < |ops|
  {
    hide Run, Lists;
  }

  /** A caller's answer was cached under five seconds before it asked, from such a read. */
  lemma {:induction false} AnswerIsRead(ops: seq<Op>, parse: Parse, p: nat)
    requires Has(Run(START, ops, parse), p)
    ensures var c := Run(START, ops, parse).calls[p];
      c.asked - c.at < TTL && exists i: nat, j: nat :: FilledBy(ops, parse, i, j, c.subject, c.grants, c.at)
    decreases |ops|
  {
    hide Lists, FilledBy, Next;
    if ops != [] {
      var init, op := ops[..|ops|-1], ops[|ops|-1];
      var s := Run(START, init, parse);
      var c := Run(START, ops, parse).calls[p];
      NextCall(s, op, parse, p);
      if p in s.calls && s.calls[p] == c {
        AnswerIsRead(init, parse, p);
        var i: nat, j: nat :| FilledBy(init, parse, i, j, c.subject, c.grants, c.at);
        FillStays(ops, parse, i, j, c.subject, c.grants, c.at);
      } else if op.Fill? {
        FillIs(ops, parse, op.p, op.now);
      } else {
        CacheIsRead(init, parse, c.subject);
        var i: nat, j: nat :| FilledBy(init, parse, i, j, c.subject, c.grants, c.at);
        FillStays(ops, parse, i, j, c.subject, c.grants, c.at);
      }
    }
  }

  /** The live grant `g` was in the store when step `i` read it, covers what is checked, and was
      cached by step `j`, under five seconds before the check asked. */
  ghost predicate Justifies(ops: seq<Op>, parse: Parse, c: Call, capability: string, value: string, i: nat, j: nat, g: Grant)
    requires c.Answered?
  {
    && i < j < |ops| && ops[i].StoreRead? && ops[j].Fill? && ops[i].p == ops[j].p
    && ops[i].now <= ops[j].now && c.asked - ops[j].now < TTL
    && Holds(Run(START, ops[..i], parse).table, c.subject, ops[i].now, g)
    && g.capability == capability && Matches(g.value, value)
  }

  /** Over any interleaving, every gated check that is allowed rests on such a grant. */
  lemma AllowedWasGranted(ops: seq<Op>, parse: Parse, p: nat, capability: string, value: string, metered: bool)
    requires Has(Run(START, ops, parse), p)
    requires Check(Run(START, ops, parse).calls[p].grants, capability, value, metered).Allowed?
    ensures exists i: nat, j: nat, g :: Justifies(ops, parse, Run(START, ops, parse).calls[p], capability, value, i, j, g)
  {
    hide Run, Matches, InOrder;
    var c := Run(START, ops, parse).calls[p];
    AnswerIsRead(ops, parse, p);
    var i: nat, j: nat :| FilledBy(ops, parse, i, j, c.subject, c.grants, c.at);
    var r :| r <= c.at && ReadAt(ops, parse, i, ops[j].p, c.subject, c.grants, r);
    var k :| 0 <= k < |c.grants| && c.grants[k].capability == capability && Matches(c.grants[k].value, value);
    assert c.grants[k] in c.grants;
    assert Justifies(ops, parse, c, capability, value, i, j, c.grants[k]);
  }

  // ---- changes ----

  /** What a table itself says. */
  ghost predicate Permits(table: map<Grant, Expiry>, subject: string, capability: string, value: string, now: int) {
    exists g :: Holds(table, subject, now, g) && g.capability == capability && Matches(g.value, value)
  }

  /** A listing grants iff the table it lists permits. */
  lemma ListingDecides(table: map<Grant, Expiry>, subject: string, now: int, gs: seq<Grant>, capability: string, value: string)
    requires Lists(table, subject, now, gs)
    ensures Grants(gs, capability, value) <==> Permits(table, subject, capability, value, now)
  {
    hide Matches, Holds, InOrder;
    if Permits(table, subject, capability, value, now) {
      var g :| Holds(table, subject, now, g) && g.capability == capability && Matches(g.value, value);
      var i :| 0 <= i < |gs| && gs[i] == g;
    }
    if Grants(gs, capability, value) {
      var i :| 0 <= i < |gs| && gs[i].capability == capability && Matches(gs[i].value, value);
      assert gs[i] in gs;
    }
  }

  /** The callers still holding what they had read at the start. */
  ghost function OldCalls(s: State, ops: seq<Op>, parse: Parse): set<nat>
    decreases |ops|
  {
    if ops == [] then set p | p in s.calls && s.calls[p].Held?
    else
      var op, old_ := ops[|ops|-1], OldCalls(s, ops[..|ops|-1], parse);
      if op.Fill? && Enabled(Run(s, ops[..|ops|-1], parse), op) then old_ - {op.p} else old_
  }

  /** A read made before the start is what is cached of the subject: it was cached then and not
      forgotten or replaced, or was cached since and not forgotten or replaced. */
  ghost predicate CachedOld(s: State, ops: seq<Op>, parse: Parse, subject: string)
    decreases |ops|
  {
    if ops == [] then subject in s.cache
    else
      var init, op := ops[..|ops|-1], ops[|ops|-1];
      if op == Forget(subject) then false
      else if op.Fill? && Enabled(Run(s, init, parse), op) && Run(s, init, parse).calls[op.p].subject == subject then
        op.p in OldCalls(s, init, parse)
      else CachedOld(s, init, parse, subject)
  }

  ghost predicate NoAlter(ops: seq<Op>) {
    forall i :: 0 <= i < |ops| ==> !ops[i].Alter?
  }

  /** What was read before the change: what was cached, and what callers held. */
  ghost predicate ReadBefore(s: State, subject: string, gs: seq<Grant>) {
    || (subject in s.cache && s.cache[subject].grants == gs)
    || exists p :: p in s.calls && s.calls[p].Held? && s.calls[p].subject == subject && s.calls[p].grants == gs
  }

  /** What is held after a run is old, and then as it was, or a listing of the table. */
  ghost predicate HeldSince(s: State, ops: seq<Op>, parse: Parse, p: nat) {
    var now := Run(s, ops, parse);
    p in now.calls && now.calls[p].Held? ==>
      if p in OldCalls(s, ops, parse) then p in s.calls && s.calls[p] == now.calls[p]
      else s.now <= now.calls[p].readAt <= now.now && Lists(s.table, now.calls[p].subject, now.calls[p].readAt, now.calls[p].grants)
  }

  lemma {:induction false} RunForward(s: State, ops: seq<Op>, parse: Parse)
    requires NoAlter(ops)
    ensures Run(s, ops, parse).table == s.table && s.now <= Run(s, ops, parse).now
    decreases |ops|
  {
    hide Next, Enabled;
    if ops != [] {
      RunForward(s, ops[..|ops|-1], parse);
      TimeKeeps(Run(s, ops[..|ops|-1], parse), ops[|ops|-1], parse);
      TableKeeps(Run(s, ops[..|ops|-1], parse), ops[|ops|-1], parse);
    }
  }

  lemma TableKeeps(s: State, op: Op, parse: Parse)
    requires !op.Alter?
    ensures Do(s, op, parse).table == s.table
  {
    hide Lists, Grants, LimitOf, CacheLive;
  }

  lemma {:induction false} HeldIsOldOrNew(s: State, ops: seq<Op>, parse: Parse, p: nat)
    requires NoAlter(ops)
    ensures HeldSince(s, ops, parse, p)
    decreases |ops|
  {
    if ops != [] {
      hide Lists, Next;
      var init, op := ops[..|ops|-1], ops[|ops|-1];
      var was := Run(s, init, parse);
      HeldIsOldOrNew(s, init, parse, p);
      RunForward(s, init, parse);
      TimeKeeps(was, op, parse);
      OldAreHeld(s, init, parse);
      if p in Do(was, op, parse).calls {
        NextCall(was, op, parse, p);
      }
    }
  }

  lemma {:induction false} OldAreHeld(s: State, ops: seq<Op>, parse: Parse)
    ensures forall p :: p in OldCalls(s, ops, parse) ==> p in Run(s, ops, parse).calls && Run(s, ops, parse).calls[p].Held?
    decreases |ops|
  {
    hide Next, Enabled;
    if ops != [] {
      var init, op := ops[..|ops|-1], ops[|ops|-1];
      OldAreHeld(s, init, parse);
      forall p | p in OldCalls(s, ops, parse) ensures p in Run(s, ops, parse).calls && Run(s, ops, parse).calls[p].Held? {
        HeldStays(Run(s, init, parse), op, parse, p);
      }
    }
  }

  lemma HeldStays(s: State, op: Op, parse: Parse, p: nat)
    requires p in s.calls && s.calls[p].Held? && !(op.Fill? && op.p == p && Enabled(s, op))
    ensures p in Do(s, op, parse).calls && Do(s, op, parse).calls[p] == s.calls[p]
  {
    hide Lists, Grants, LimitOf, CacheLive;
  }

  /** What is cached after a run without a further change is, as `CachedOld` tells, what was read
      before it or a listing of the store as it has been since. */
  lemma {:induction false} CacheIsOldOrNew(s: State, ops: seq<Op>, parse: Parse, subject: string)
    requires NoAlter(ops)
    ensures var now := Run(s, ops, parse);
      && (CachedOld(s, ops, parse, subject) ==> subject in now.cache && ReadBefore(s, subject, now.cache[subject].grants))
      && (!CachedOld(s, ops, parse, subject) && subject in now.cache ==>
            exists t :: s.now <= t <= now.now && Lists(s.table, subject, t, now.cache[subject].grants))
    decreases |ops|
  {
    if ops != [] {
      hide Lists, Next;
      var init, op := ops[..|ops|-1], ops[|ops|-1];
      var was := Run(s, init, parse);
      CacheIsOldOrNew(s, init, parse, subject);
      RunForward(s, init, parse);
      TimeKeeps(was, op, parse);
      CacheSteps(was, op, parse, subject);
      if op.Fill? && Enabled(was, op) {
        HeldIsOldOrNew(s, init, parse, op.p);
        OldAreHeld(s, init, parse);
      }
    }
  }

  lemma CacheSteps(s: State, op: Op, parse: Parse, subject: string)
    ensures var s' := Do(s, op, parse);
      if op == Forget(subject) then subject !in s'.cache
      else if op.Fill? && Enabled(s, op) && s.calls[op.p].subject == subject then
        subject in s'.cache && s'.cache[subject] == Cached(s.calls[op.p].grants, op.now) && s'.now == op.now
      else (subject in s'.cache <==> subject in s.cache) && (subject in s.cache ==> s'.cache[subject] == s.cache[subject])
  {
    hide Lists, Grants, LimitOf, CacheLive;
  }

  /** What a check of the subject decides by when it asks: the live cache, or the store. */
  ghost predicate DecidesBy(s: State, subject: string, now: int, gs: seq<Grant>) {
    if CacheLive(s, subject, now) then gs == s.cache[subject].grants else Lists(s.table, subject, now, gs)
  }

  /** A change of the store, by this broker or another process, is seen by a check that comes
      after it, over every interleaving of the others in between, iff no read made before the
      change is then cached and live. This is for what the change decides: all that was read
      before says one thing of it and the store, whenever it is read since, the other. */
  lemma ChangeIsSeenExactly(s: State, ops: seq<Op>, parse: Parse, subject: string, capability: string, value: string,
                            permitted: bool, now: int, gs: seq<Grant>)
    requires NoAlter(ops) && now >= Run(s, ops, parse).now
    requires forall old_ :: ReadBefore(s, subject, old_) ==> Grants(old_, capability, value) != permitted
    requires forall t :: s.now <= t <= now ==> Permits(s.table, subject, capability, value, t) == permitted
    requires DecidesBy(Run(s, ops, parse), subject, now, gs)
    ensures (Grants(gs, capability, value) <==> permitted) <==>
            !(CacheLive(Run(s, ops, parse), subject, now) && CachedOld(s, ops, parse, subject))
  {
    hide Lists, Grants, Permits, Run, ReadBefore, CachedOld, NoAlter;
    CacheIsOldOrNew(s, ops, parse, subject);
    RunForward(s, ops, parse);
    var after := Run(s, ops, parse);
    if !CacheLive(after, subject, now) {
      ListingDecides(s.table, subject, now, gs, capability, value);
    } else if !CachedOld(s, ops, parse, subject) {
      var t :| s.now <= t <= after.now && Lists(s.table, subject, t, gs);
      ListingDecides(s.table, subject, t, gs, capability, value);
    }
  }

  /** Once the broker has dropped the subject's entry, such a read can be there only by a caller
      that had read before the change and writes after the drop. */
  lemma {:induction false} OnlyReadsInFlight(s: State, ops: seq<Op>, parse: Parse, subject: string, k: nat)
    requires k < |ops| && ops[k] == Forget(subject)
    requires CachedOld(s, ops, parse, subject)
    ensures exists j :: k < j < |ops| && WritesOld(s, ops, parse, subject, j)
    decreases |ops|
  {
    hide Enabled, Next, OldCalls, Run;
    var init, op := ops[..|ops|-1], ops[|ops|-1];
    if WritesOld(s, ops, parse, subject, |ops| - 1) {
      assert k < |ops| - 1;
    } else {
      assert k < |init| && CachedOld(s, init, parse, subject);
      OnlyReadsInFlight(s, init, parse, subject, k);
      var j :| k < j < |init| && WritesOld(s, init, parse, subject, j);
      assert ops[..j] == init[..j];
      assert WritesOld(s, ops, parse, subject, j);
    }
  }

  /** Step `j` caches a read of the subject made before the start. */
  ghost predicate WritesOld(s: State, ops: seq<Op>, parse: Parse, subject: string, j: int) {
    && 0 <= j < |ops| && ops[j].Fill? && Enabled(Run(s, ops[..j], parse), ops[j])
    && Run(s, ops[..j], parse).calls[ops[j].p].subject == subject && ops[j].p in OldCalls(s, ops[..j], parse)
  }

  /** A change whose call has returned is seen by the next check of its own subject when no
      read of that subject was under way across it. */
  lemma ChangeIsSeen(s: State, ops: seq<Op>, parse: Parse, subject: string, capability: string, value: string,
                     k: nat, now: int, gs: seq<Grant>)
    requires NoAlter(ops) && now >= Run(s, ops, parse).now && k < |ops| && ops[k] == Forget(subject)
    requires forall j :: k < j < |ops| ==> !WritesOld(s, ops, parse, subject, j)
    requires DecidesBy(Run(s, ops, parse), subject, now, gs)
    ensures exists t :: s.now <= t <= now && (Grants(gs, capability, value) <==> Permits(s.table, subject, capability, value, t))
  {
    hide Lists, Grants, Permits, Run, WritesOld, ReadBefore, CachedOld, NoAlter;
    if CachedOld(s, ops, parse, subject) {
      OnlyReadsInFlight(s, ops, parse, subject, k);
    }
    CacheIsOldOrNew(s, ops, parse, subject);
    RunForward(s, ops, parse);
    var after := Run(s, ops, parse);
    if CacheLive(after, subject, now) {
      var t :| s.now <= t <= after.now && Lists(s.table, subject, t, gs);
      ListingDecides(s.table, subject, t, gs, capability, value);
    } else {
      ListingDecides(s.table, subject, now, gs, capability, value);
    }
  }

  /** A change for every subject, or made by another process, drops no entry of this one: while
      nobody writes or drops that, its checks go by the new store iff it has run out. */
  lemma ChangeForAllIsSeenExactly(s: State, ops: seq<Op>, parse: Parse, subject: string, capability: string, value: string,
                                  permitted: bool, now: int, gs: seq<Grant>)
    requires NoAlter(ops) && now >= Run(s, ops, parse).now
    requires forall i :: 0 <= i < |ops| ==> !ops[i].Fill? && ops[i] != Forget(subject)
    requires CacheLive(s, subject, now) ==> Grants(s.cache[subject].grants, capability, value) != permitted
    requires Permits(s.table, subject, capability, value, now) == permitted
    requires DecidesBy(Run(s, ops, parse), subject, now, gs)
    ensures (Grants(gs, capability, value) <==> permitted) <==> !CacheLive(s, subject, now)
  {
    hide Lists, Grants, Permits, Run, NoAlter;
    EntryStands(s, ops, parse, subject);
    RunForward(s, ops, parse);
    if !CacheLive(s, subject, now) {
      ListingDecides(s.table, subject, now, gs, capability, value);
    }
  }

  lemma {:induction false} EntryStands(s: State, ops: seq<Op>, parse: Parse, subject: string)
    requires forall i :: 0 <= i < |ops| ==> !ops[i].Fill? && ops[i] != Forget(subject)
    ensures var after := Run(s, ops, parse);
      (subject in after.cache <==> subject in s.cache) && (subject in s.cache ==> after.cache[subject] == s.cache[subject])
    decreases |ops|
  {
    hide Do;
    if ops != [] {
      var op := ops[|ops|-1];
      assert !op.Fill? && op != Forget(subject);
      EntryStands(s, ops[..|ops|-1], parse, subject);
      CacheSteps(Run(s, ops[..|ops|-1], parse), op, parse, subject);
    }
  }

  lemma RunStep(s: State, ops: seq<Op>, op: Op, parse: Parse)
    ensures Run(s, ops + [op], parse) == Do(Run(s, ops, parse), op, parse)
  {
    hide Do;
    assert (ops + [op])[..|ops + [op]|-1] == ops;
  }

  lemma RunNone(s: State, parse: Parse)
    ensures Run(s, [], parse) == s
  {
  }

  /** A caller reads, the grant is revoked and the entry dropped, and the caller writes what it
      read: a check a second later is allowed what the store no longer holds. */
  lemma RevokedInFlightStillAllowed(s: State, g: Grant, value: string, parse: Parse)
    requires s.table == map[g := Forever] && s.calls == map[] && g.subject !in s.cache && Matches(g.value, value)
    ensures var ops := [LookUp(0, g.subject, s.now), StoreRead(0, s.now, Got([g])), Alter(map[]), Forget(g.subject),
                        Fill(0, s.now), LookUp(1, g.subject, s.now + SECOND)];
      var after := Run(s, ops, parse);
      && after.table == map[] && Has(after, 1) && after.calls[1].grants == [g]
      && Check(after.calls[1].grants, g.capability, value, true) == Allowed
      && !Permits(after.table, g.subject, g.capability, value, after.now)
  {
    hide Run, Do, Matches;
    var a, b, c := LookUp(0, g.subject, s.now), StoreRead(0, s.now, Got([g])), Alter(map[]);
    var d, e, f := Forget(g.subject), Fill(0, s.now), LookUp(1, g.subject, s.now + SECOND);
    var read := s.(calls := map[0 := Held(g.subject, [g], s.now)]);
    var revoked := read.(table := map[], cache := s.cache - {g.subject});
    ReadSteps(s, g, parse);
    RevokeSteps(read, g.subject, parse);
    CacheWriteSteps(revoked, g, parse);
    RunNone(s, parse);
    RunStep(s, [], a, parse);
    assert [] + [a] == [a] && [a] + [b] == [a, b] && [a, b] + [c] == [a, b, c] && [a, b, c] + [d] == [a, b, c, d];
    assert [a, b, c, d] + [e] == [a, b, c, d, e] && [a, b, c, d, e] + [f] == [a, b, c, d, e, f];
    RunStep(s, [a], b, parse);
    RunStep(s, [a, b], c, parse);
    RunStep(s, [a, b, c], d, parse);
    RunStep(s, [a, b, c, d], e, parse);
    RunStep(s, [a, b, c, d, e], f, parse);
    assert [g][0] == g;
  }

  lemma ReadSteps(s: State, g: Grant, parse: Parse)
    requires s.table == map[g := Forever] && s.calls == map[] && g.subject !in s.cache
    ensures Do(Do(s, LookUp(0, g.subject, s.now), parse), StoreRead(0, s.now, Got([g])), parse) ==
            s.(calls := map[0 := Held(g.subject, [g], s.now)])
  {
    hide Matches, LimitOf, Grants, Priced;
    var missed := Do(s, LookUp(0, g.subject, s.now), parse);
    assert missed == s.(calls := map[0 := Missed(g.subject)]);
    assert Lists(s.table, g.subject, s.now, [g]);
  }

  lemma RevokeSteps(s: State, subject: string, parse: Parse)
    ensures Do(Do(s, Alter(map[]), parse), Forget(subject), parse) == s.(table := map[], cache := s.cache - {subject})
  {
    hide Matches, LimitOf, Grants, Priced, Lists, CacheLive;
  }

  lemma CacheWriteSteps(s: State, g: Grant, parse: Parse)
    requires s.calls == map[0 := Held(g.subject, [g], s.now)]
    ensures var written := s.(calls := map[0 := Answered(g.subject, [g], s.now, s.now)], cache := s.cache[g.subject := Cached([g], s.now)]);
      && Do(s, Fill(0, s.now), parse) == written
      && Do(written, LookUp(1, g.subject, s.now + SECOND), parse) ==
         written.(calls := written.calls[1 := Answered(g.subject, [g], s.now, s.now + SECOND)], now := s.now + SECOND)
  {
    hide Matches, LimitOf, Grants, Lists;
  }

  /** A permission revoked for every subject is allowed to one that was just served. */
  lemma RevokedForAllStillAllowed(s: State, subject: string, gs: seq<Grant>, capability: string, value: string, parse: Parse)
    requires subject != ANY && s.calls == map[] && subject in s.cache && s.cache[subject] == Cached(gs, s.now)
    requires Grants(gs, capability, value)
    ensures var after := Run(s, [Alter(map[]), Forget(ANY), LookUp(0, subject, s.now + SECOND)], parse);
      after.table == map[] && Has(after, 0) && Check(after.calls[0].grants, capability, value, true) == Allowed
  {
    hide Run, Grants, LimitOf;
    var a, b, c := Alter(map[]), Forget(ANY), LookUp(0, subject, s.now + SECOND);
    RunNone(s, parse);
    assert [] + [a] == [a] && [a] + [b] == [a, b] && [a, b] + [c] == [a, b, c];
    RunStep(s, [], a, parse);
    RunStep(s, [a], b, parse);
    RunStep(s, [a, b], c, parse);
  }

  // ---- what the ceiling is ----

  /** A spend grant that says anything. */
  predicate Says(g: Grant, parse: Parse) {
    g.capability == SPEND && (g.value == ANY || parse(g.value) > 0)
  }

  function SaidBy(g: Grant, parse: Parse): Limit {
    if g.value == ANY then Uncapped else AtMost(parse(g.value))
  }

  /** The limit is the first grant's that says anything, and nothing may be spent when none does. */
  lemma {:induction false} LimitIsFirst(gs: seq<Grant>, parse: Parse)
    ensures (forall i :: 0 <= i < |gs| ==> !Says(gs[i], parse)) ==> LimitOf(gs, parse) == AtMost(0)
    ensures forall i :: 0 <= i < |gs| && Says(gs[i], parse) && (forall j :: 0 <= j < i ==> !Says(gs[j], parse)) ==>
              LimitOf(gs, parse) == SaidBy(gs[i], parse)
  {
    if gs != [] {
      LimitIsFirst(gs[1..], parse);
      forall i | 0 <= i < |gs| && Says(gs[i], parse) && (forall j :: 0 <= j < i ==> !Says(gs[j], parse))
        ensures LimitOf(gs, parse) == SaidBy(gs[i], parse) {
        if i > 0 {
          assert !Says(gs[0], parse) && gs[1..][i-1] == gs[i];
          assert forall j :: 0 <= j < i - 1 ==> gs[1..][j] == gs[j+1];
        }
      }
      if forall i :: 0 <= i < |gs| ==> !Says(gs[i], parse) {
        assert forall i :: 0 <= i < |gs| - 1 ==> gs[1..][i] == gs[i+1];
      }
    }
  }

  /** Of a listing in the store's order: the limit is that of the grant that says anything and
      whose text comes first. */
  lemma LimitIsFirstInText(gs: seq<Grant>, g: Grant, parse: Parse)
    requires forall i, j :: 0 <= i < j < |gs| ==> InOrder(gs[i], gs[j])
    requires g in gs && Says(g, parse) && forall h :: h in gs && Says(h, parse) ==> !StrBefore(h.value, g.value)
    ensures LimitOf(gs, parse) == SaidBy(g, parse)
  {
    hide StrBefore, LimitOf;
    LimitIsFirst(gs, parse);
    var k :| 0 <= k < |gs| && gs[k] == g;
    var i := FirstSaying(gs, parse, k);
    if i != k {
      assert InOrder(gs[i], gs[k]) && gs[i] in gs;
      StrBeforeTotal(gs[i].value, g.value);
    }
  }

  ghost function FirstSaying(gs: seq<Grant>, parse: Parse, k: nat): (i: nat)
    requires k < |gs| && Says(gs[k], parse)
    ensures i <= k && Says(gs[i], parse) && forall j :: 0 <= j < i ==> !Says(gs[j], parse)
  {
    if Says(gs[0], parse) then 0
    else
      var i := FirstSaying(gs[1..], parse, k - 1);
      assert forall j :: 0 < j < i + 1 ==> gs[j] == gs[1..][j-1];
      i + 1
  }

  /** Of two numeric ceilings the lower one binds iff the order of their texts is that of their
      numbers. */
  lemma LowerBindsExactly(gs: seq<Grant>, low: Grant, high: Grant, parse: Parse)
    requires forall i, j :: 0 <= i < j < |gs| ==> InOrder(gs[i], gs[j])
    requires low in gs && high in gs && forall g :: g in gs && Says(g, parse) ==> g == low || g == high
    requires Says(low, parse) && Says(high, parse) && low.value != ANY && high.value != ANY
    requires parse(low.value) < parse(high.value)
    ensures LimitOf(gs, parse) == AtMost(parse(low.value)) <==> StrBefore(low.value, high.value)
  {
    hide StrBefore, LimitOf, InOrder;
    StrBeforeTotal(low.value, high.value);
    StrBeforeTotal(low.value, low.value);
    StrBeforeTotal(high.value, high.value);
    if StrBefore(low.value, high.value) {
      LimitIsFirstInText(gs, low, parse);
    } else {
      LimitIsFirstInText(gs, high, parse);
    }
  }

  /** So 1000 binds, of 1000 and 50. */
  lemma ThousandBinds(subject: string, parse: Parse)
    requires parse("1000") == 1000 && parse("50") == 50
    ensures LimitOf([Grant(subject, SPEND, "1000"), Grant(subject, SPEND, "50")], parse) != AtMost(50)
  {
    var low, high := Grant(subject, SPEND, "50"), Grant(subject, SPEND, "1000");
    assert !StrBefore(low.value, high.value);
    LowerBindsExactly([high, low], low, high, parse);
  }
}
