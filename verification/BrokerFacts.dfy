/** What may be done, told by grants, trust and the meter as they stand in the store. */
module BrokerFacts {
  import opened Basics
  import opened Broker
  import opened BrokerDesk

  // ---- trust ----

  /** The last word on a subject's trust. */
  ghost predicate LastTrusted(ops: seq<Op>, subject: string, i: int, t: Trust) {
    && 0 <= i < |ops| && ops[i] == Trusting(subject, t)
    && forall j :: i < j < |ops| && ops[j].Trusting? ==> ops[j].subject != subject
  }

  lemma TrustStep(s: State, op: Op, parse: Parse, subject: string)
    ensures var t := Do(s, op, parse).trust;
      if op.Trusting? && op.subject == subject then subject in t && t[subject] == op.t
      else (subject in t <==> subject in s.trust) && (subject in t ==> t[subject] == s.trust[subject])
  {
    hide Lists, Grants, LimitOf, CacheLive, Priced;
  }

  lemma {:induction false} TrustIs(ops: seq<Op>, parse: Parse, subject: string, t: Trust)
    ensures var trust := Run(START, ops, parse).trust;
      (subject in trust && trust[subject] == t) <==> exists i :: LastTrusted(ops, subject, i, t)
    decreases |ops|
  {
    hide Do;
    if ops != [] {
      var init, op := ops[..|ops|-1], ops[|ops|-1];
      TrustIs(init, parse, subject, t);
      TrustStep(Run(START, init, parse), op, parse, subject);
      if op.Trusting? && op.subject == subject {
        assert LastTrusted(ops, subject, |ops| - 1, op.t);
      } else {
        forall i ensures LastTrusted(ops, subject, i, t) <==> LastTrusted(init, subject, i, t) {
          assert i == |ops| - 1 ==> ops[i] == op;
        }
      }
    }
  }

  /** Over any run, a subject goes ungated iff it was last declared so: one nobody declared is gated. */
  lemma UngatedWasDeclared(ops: seq<Op>, parse: Parse, subject: string, capability: string, day: int, metered: bool)
    ensures Enabled(Run(START, ops, parse), Ungating(subject, capability, day, metered)) <==>
            exists i :: LastTrusted(ops, subject, i, Ungated)
  {
    hide Run, LastTrusted;
    TrustIs(ops, parse, subject, Ungated);
  }

  // ---- grants ----

  ghost predicate StillGood(e: Expiry, now: int) {
    e == Forever || exists t :: e == Until(t) && t > now
  }

  /** A pattern covers a value: it is `*`, or the value, or one end of it up to a dot. */
  ghost predicate Covers(pattern: string, value: string) {
    || pattern == "*" || pattern == value
    || (exists stem :: pattern == stem + ".*" && stem + "." <= value)
    || (exists stem :: pattern == "*." + stem && !HasSuffix(pattern, ".*") && HasSuffix(value, "." + stem))
  }

  lemma MatchesCovers(pattern: string, value: string)
    ensures Matches(pattern, value) <==> Covers(pattern, value)
  {
    hide Matches, Covers, HasSuffix;
    if HasSuffix(pattern, ".*") {
      SuffixCovers(pattern, value);
    } else if "*." <= pattern {
      PrefixCovers(pattern, value);
    } else {
      PlainCovers(pattern, value);
    }
  }

  lemma SuffixOf(stem: string, end: string)
    ensures HasSuffix(stem + end, end) && (stem + end)[..|stem|] == stem
  {
    assert (stem + end)[|stem|..] == end;
  }

  lemma SuffixCovers(pattern: string, value: string)
    requires HasSuffix(pattern, ".*")
    ensures Matches(pattern, value) <==> Covers(pattern, value)
  {
    hide Matches;
    var stem := pattern[..|pattern|-2];
    assert pattern == stem + ".*";
    MatchesExactly(stem, value);
    if other :| pattern == other + ".*" && other + "." <= value {
      SuffixOf(other, ".*");
      assert other == stem;
    }
    SuffixValue(stem);
  }

  /** The pattern is a value it covers itself. */
  lemma SuffixValue(stem: string)
    ensures stem + "." <= stem + ".*"
  {
    assert (stem + ".*")[..|stem|+1] == stem + ".";
  }

  lemma PrefixCovers(pattern: string, value: string)
    requires "*." <= pattern && !HasSuffix(pattern, ".*")
    ensures Matches(pattern, value) <==> Covers(pattern, value)
  {
    hide Matches, HasSuffix;
    var stem := pattern[2..];
    assert pattern == "*." + stem;
    MatchesExactly(stem, value);
    forall other ensures pattern != other + ".*" {
      SuffixOf(other, ".*");
    }
    if other :| pattern == "*." + other && HasSuffix(value, "." + other) {
      assert ("*." + other)[2..] == other;
    }
    SuffixOf("*", "." + stem);
    assert "*" + ("." + stem) == pattern;
  }

  lemma PlainCovers(pattern: string, value: string)
    requires !HasSuffix(pattern, ".*") && !("*." <= pattern)
    ensures Matches(pattern, value) <==> Covers(pattern, value)
  {
    hide Matches, HasSuffix;
    MatchesExactly(pattern, value);
    forall other ensures pattern != other + ".*" {
      SuffixOf(other, ".*");
    }
    forall other ensures pattern != "*." + other {
      assert "*." <= "*." + other;
    }
  }

  /** The store holds a grant, of the subject or of all, not run out, of the capability, that covers
      the value. */
  ghost predicate StoreAllows(table: map<Grant, Expiry>, subject: string, capability: string, value: string, now: int) {
    exists g :: g in table && (g.subject == subject || g.subject == "*") && StillGood(table[g], now)
                && g.capability == capability && Covers(g.value, value)
  }

  lemma PermitsAllows(table: map<Grant, Expiry>, subject: string, capability: string, value: string, now: int)
    ensures Permits(table, subject, capability, value, now) <==> StoreAllows(table, subject, capability, value, now)
  {
    hide Matches, Covers;
    forall g: Grant ensures Matches(g.value, value) <==> Covers(g.value, value) {
      MatchesCovers(g.value, value);
    }
    forall e: Expiry ensures Live(e, now) <==> StillGood(e, now) {
      assert e.Until? ==> e == Until(e.t);
    }
  }

  /** A whole check with nothing in between: a subject not declared ungated is allowed iff its live
      entry, or else a readable store, grants it, and the meter could be written; is refused iff they
      could be read and do not; and nothing that cannot be read allows. */
  lemma CheckSpelled(s: State, subject: string, capability: string, value: string, now: int, answer: Listing, metered: bool)
    requires subject in s.trust ==> s.trust[subject] != Ungated
    requires answer.Got? ==> Lists(s.table, subject, now, answer.grants)
    ensures var d := Checked(s, subject, capability, value, now, answer, metered);
      var cached := subject in s.cache && now - s.cache[subject].at < 5 * SECOND;
      && (cached ==> (d.Allowed? <==> GrantsSpelled(s.cache[subject].grants, capability, value) && metered)
                     && (d.Denied? <==> !GrantsSpelled(s.cache[subject].grants, capability, value)))
      && (!cached && answer.Got? ==> (d.Allowed? <==> StoreAllows(s.table, subject, capability, value, now) && metered)
                                     && (d.Denied? <==> !StoreAllows(s.table, subject, capability, value, now)))
      && (!cached && answer.Unreadable? ==> d.Errored?)
  {
    hide Lists, Permits, Matches, StoreAllows, GrantsSpelled, Grants;
    PermitsAllows(s.table, subject, capability, value, now);
    if answer.Got? {
      ListingDecides(s.table, subject, now, answer.grants, capability, value);
    }
    if subject in s.cache {
      GrantsAre(s.cache[subject].grants, capability, value);
    }
  }

  ghost predicate GrantsSpelled(gs: seq<Grant>, capability: string, value: string) {
    exists g :: g in gs && g.capability == capability && Covers(g.value, value)
  }

  lemma GrantsAre(gs: seq<Grant>, capability: string, value: string)
    ensures Grants(gs, capability, value) <==> GrantsSpelled(gs, capability, value)
  {
    hide Matches, Covers;
    forall g: Grant ensures Matches(g.value, value) <==> Covers(g.value, value) {
      MatchesCovers(g.value, value);
    }
    if i :| 0 <= i < |gs| && gs[i].capability == capability && Matches(gs[i].value, value) {
      assert gs[i] in gs;
    }
  }

  // ---- spending ----

  /** A spend is let through iff it is uncapped, or what the meter shows of the day and it together are
      no more than the ceiling; past it it is refused, and a meter that cannot be read refuses nothing
      and lets nothing through. */
  lemma SpendSpelled(s: State, subject: string, limit: Limit, units: int, day: int, usageRead: bool)
    ensures var v := Priced(s, subject, limit, units, day, usageRead);
      var k := MeterKey(subject, "spend", day);
      var used := if k in s.meter then s.meter[k].units else 0;
      && (v.Go? <==> limit == Uncapped || (usageRead && used + units <= limit.n))
      && (v.Over? <==> limit != Uncapped && usageRead && used + units > limit.n)
  {
  }

  // ---- the meter ----

  /** A step that adds one use of the capability to the day. */
  ghost predicate Uses(s: State, op: Op, subject: string, capability: string, day: int) {
    Enabled(s, op) &&
    match op
    case Checking(p, c, value, d, metered) => metered && c == capability && d == day && s.calls[p].subject == subject && GrantsSpelled(s.calls[p].grants, c, value)
    case Ungating(who, c, d, metered) => metered && who == subject && c == capability && d == day
    case Book(p, d, metered) => metered && capability == "spend" && d == day && s.calls[p].subject == subject && s.calls[p].go
    case _ => false
  }

  /** And one that adds a refusal. */
  ghost predicate Refuses(s: State, op: Op, subject: string, capability: string, day: int) {
    Enabled(s, op) &&
    match op
    case Checking(p, c, value, d, metered) => metered && c == capability && d == day && s.calls[p].subject == subject && !GrantsSpelled(s.calls[p].grants, c, value)
    case Book(p, d, metered) => metered && capability == "spend" && d == day && s.calls[p].subject == subject && !s.calls[p].go
    case _ => false
  }

  function Read(s: State, subject: string, capability: string, day: int): Reading {
    var k := MeterKey(subject, capability, day);
    if k in s.meter then s.meter[k] else Reading(0, 0, 0)
  }

  lemma MeterStep(s: State, op: Op, parse: Parse, subject: string, capability: string, day: int)
    ensures var r, r' := Read(s, subject, capability, day), Read(Do(s, op, parse), subject, capability, day);
      && r'.allowed == r.allowed + (if Uses(s, op, subject, capability, day) then 1 else 0)
      && r'.refused == r.refused + (if Refuses(s, op, subject, capability, day) then 1 else 0)
      && r'.units == r.units + (if op.Book? && Uses(s, op, subject, capability, day) then s.calls[op.p].units else 0)
  {
    hide Do, Uses, Refuses, Read;
    if op.Checking? {
      CheckMeters(s, op, parse, subject, capability, day);
    } else {
      OtherMeters(s, op, parse, subject, capability, day);
    }
  }

  lemma CheckMeters(s: State, op: Op, parse: Parse, subject: string, capability: string, day: int)
    requires op.Checking?
    ensures var r, r' := Read(s, subject, capability, day), Read(Do(s, op, parse), subject, capability, day);
      && r'.allowed == r.allowed + (if Uses(s, op, subject, capability, day) then 1 else 0)
      && r'.refused == r.refused + (if Refuses(s, op, subject, capability, day) then 1 else 0)
      && r'.units == r.units
  {
    hide Lists, LimitOf, CacheLive, Priced, Grants, GrantsSpelled;
    if Enabled(s, op) {
      GrantsAre(s.calls[op.p].grants, op.capability, op.value);
    }
  }

  lemma OtherMeters(s: State, op: Op, parse: Parse, subject: string, capability: string, day: int)
    requires !op.Checking?
    ensures var r, r' := Read(s, subject, capability, day), Read(Do(s, op, parse), subject, capability, day);
      && r'.allowed == r.allowed + (if Uses(s, op, subject, capability, day) then 1 else 0)
      && r'.refused == r.refused + (if Refuses(s, op, subject, capability, day) then 1 else 0)
      && r'.units == r.units + (if op.Book? && Uses(s, op, subject, capability, day) then s.calls[op.p].units else 0)
  {
    hide Lists, LimitOf, CacheLive, Priced, Grants, GrantsSpelled;
  }

  ghost function UsesIn(ops: seq<Op>, parse: Parse, subject: string, capability: string, day: int): nat
    decreases |ops|
  {
    if ops == [] then 0
    else UsesIn(ops[..|ops|-1], parse, subject, capability, day)
         + if Uses(Run(START, ops[..|ops|-1], parse), ops[|ops|-1], subject, capability, day) then 1 else 0
  }

  ghost function RefusalsIn(ops: seq<Op>, parse: Parse, subject: string, capability: string, day: int): nat
    decreases |ops|
  {
    if ops == [] then 0
    else RefusalsIn(ops[..|ops|-1], parse, subject, capability, day)
         + if Refuses(Run(START, ops[..|ops|-1], parse), ops[|ops|-1], subject, capability, day) then 1 else 0
  }

  /** Over any interleaving the meter counts every use and every refusal that could be written, once,
      under its subject, capability and day. */
  lemma {:induction false} MeterCounts(ops: seq<Op>, parse: Parse, subject: string, capability: string, day: int)
    ensures var r := Read(Run(START, ops, parse), subject, capability, day);
      r.allowed == UsesIn(ops, parse, subject, capability, day) && r.refused == RefusalsIn(ops, parse, subject, capability, day)
    decreases |ops|
  {
    hide Do, Uses, Refuses;
    if ops != [] {
      MeterCounts(ops[..|ops|-1], parse, subject, capability, day);
      MeterStep(Run(START, ops[..|ops|-1], parse), ops[|ops|-1], parse, subject, capability, day);
    }
  }
}
