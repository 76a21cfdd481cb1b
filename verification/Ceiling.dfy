/** A subject's daily ceiling, when its spends overlap: a spend goes by the meter as it reads it,
    and is booked later, with nothing held in between. */
module Ceiling {
  import opened Broker

  /** The subject's spends under way: let through, and not yet booked. */
  ghost function UnderWay(s: State, subject: string): set<nat> {
    set p | p in s.calls && s.calls[p].Spending? && s.calls[p].subject == subject && s.calls[p].go
  }

  function UnitsIn(calls: map<nat, Call>, p: nat): int {
    if p in calls && calls[p].Spending? then calls[p].units else 0
  }

  ghost function Pick(ps: set<nat>): (p: nat)
    requires ps != {}
    ensures p in ps
  {
    var p :| p in ps;
    p
  }

  ghost function Total(calls: map<nat, Call>, ps: set<nat>): int
    decreases |ps|
  {
    if ps == {} then 0 else UnitsIn(calls, Pick(ps)) + Total(calls, ps - {Pick(ps)})
  }

  lemma {:induction false} TotalWithout(calls: map<nat, Call>, ps: set<nat>, p: nat)
    requires p in ps
    ensures Total(calls, ps) == UnitsIn(calls, p) + Total(calls, ps - {p})
    decreases |ps|
  {
    var q := Pick(ps);
    if q != p {
      TotalWithout(calls, ps - {q}, p);
      TotalWithout(calls, ps - {p}, q);
      assert ps - {q} - {p} == ps - {p} - {q};
    }
  }

  lemma {:induction false} TotalSame(calls: map<nat, Call>, calls': map<nat, Call>, ps: set<nat>)
    requires forall p :: p in ps ==> UnitsIn(calls, p) == UnitsIn(calls', p)
    ensures Total(calls, ps) == Total(calls', ps)
    decreases |ps|
  {
    if ps != {} {
      TotalSame(calls, calls', ps - {Pick(ps)});
    }
  }

  lemma {:induction false} TotalBounds(calls: map<nat, Call>, ps: set<nat>, n: int)
    requires n >= 0 && forall p :: p in ps ==> 0 <= UnitsIn(calls, p) <= n
    ensures 0 <= Total(calls, ps) <= |ps| * n
    decreases |ps|
  {
    if ps != {} {
      TotalBounds(calls, ps - {Pick(ps)}, n);
      assert |ps| * n == (|ps| - 1) * n + n;
    }
  }

  // ---- runs ----

  predicate OfSpend(op: Op) {
    op.Price? || op.Book?
  }

  /** Days do not go back. */
  ghost predicate DaysForward(ops: seq<Op>) {
    forall i, j :: 0 <= i < j < |ops| && OfSpend(ops[i]) && OfSpend(ops[j]) ==> ops[i].day <= ops[j].day
  }

  ghost predicate UpTo(ops: seq<Op>, day: int) {
    forall i :: 0 <= i < |ops| && OfSpend(ops[i]) ==> ops[i].day <= day
  }

  ghost predicate Before(ops: seq<Op>, day: int) {
    forall i :: 0 <= i < |ops| && OfSpend(ops[i]) ==> ops[i].day < day
  }

  /** The ceiling every spend of the subject is priced by is a number, at most `n`. */
  ghost predicate CeilingHolds(ops: seq<Op>, parse: Parse, subject: string, n: int) {
    forall i :: 0 <= i < |ops| ==> PricedUnder(Run(START, ops[..i], parse), ops[i], parse, subject, n)
  }

  ghost predicate PricedUnder(s: State, op: Op, parse: Parse, subject: string, n: int) {
    op.Price? && Enabled(s, op) && s.calls[op.p].subject == subject ==>
      var l := LimitOf(s.calls[op.p].grants, parse); l.AtMost? && l.n <= n
  }

  /** At most `k` spends of the subject are under way at once. */
  ghost predicate Overlap(ops: seq<Op>, parse: Parse, subject: string, k: nat) {
    forall i :: 0 <= i <= |ops| ==> |UnderWay(Run(START, ops[..i], parse), subject)| <= k
  }

  /** What a step makes of the spends under way and of a day's bookings: one is let through, by
      the meter; one is booked, or is lost with its write; or neither changes. */
  lemma SpendSteps(s: State, op: Op, parse: Parse, subject: string, day: int)
    ensures var s' := Do(s, op, parse);
      var u, u' := Units(s, subject, SPEND, day), Units(s', subject, SPEND, day);
      || (!(op.Price? && LetThrough(s, op, parse, subject)) && !(op.Book? && op.p in UnderWay(s, subject))
          && UnderWay(s', subject) == UnderWay(s, subject) && u' == u
          && forall p :: p in UnderWay(s, subject) ==> UnitsIn(s'.calls, p) == UnitsIn(s.calls, p))
      || (op.Price? && LetThrough(s, op, parse, subject) && u' == u && Others(s, s', subject, op.p)
          && op.p !in UnderWay(s, subject) && op.p in UnderWay(s', subject) && UnitsIn(s'.calls, op.p) == op.units)
      || (op.Book? && Others(s, s', subject, op.p) && op.p in UnderWay(s, subject) && op.p !in UnderWay(s', subject)
          && u' == u + if op.metered && op.day == day then UnitsIn(s.calls, op.p) else 0)
  {
    hide LimitOf, Lists, Grants, CacheLive;
    if Enabled(s, op) {
      match op
      case Price(p, units, d, usageRead) => PriceSteps(s, op, parse, subject, day);
      case Book(p, d, metered) => BookSteps(s, op, parse, subject, day);
      case _ => OtherSteps(s, op, parse, subject, day);
    }
  }

  ghost predicate Others(s: State, s': State, subject: string, p: nat) {
    && UnderWay(s', subject) - {p} == UnderWay(s, subject) - {p}
    && forall q :: q in UnderWay(s, subject) && q != p ==> UnitsIn(s'.calls, q) == UnitsIn(s.calls, q)
  }

  ghost predicate LetThrough(s: State, op: Op, parse: Parse, subject: string)
    requires op.Price?
  {
    && Enabled(s, op) && s.calls[op.p].subject == subject
    && Priced(s, subject, LimitOf(s.calls[op.p].grants, parse), op.units, op.day, op.usageRead).Go?
  }

  lemma PriceSteps(s: State, op: Op, parse: Parse, subject: string, day: int)
    requires op.Price? && Enabled(s, op)
    ensures var s' := Do(s, op, parse);
      && Units(s', subject, SPEND, day) == Units(s, subject, SPEND, day) && Others(s, s', subject, op.p)
      && op.p !in UnderWay(s, subject) && (op.p in UnderWay(s', subject) <==> LetThrough(s, op, parse, subject))
      && (LetThrough(s, op, parse, subject) ==> UnitsIn(s'.calls, op.p) == op.units)
  {
    hide LimitOf, Lists, Grants, CacheLive, Priced;
  }

  lemma BookSteps(s: State, op: Op, parse: Parse, subject: string, day: int)
    requires op.Book? && Enabled(s, op)
    ensures var s' := Do(s, op, parse);
      && Others(s, s', subject, op.p) && op.p !in UnderWay(s', subject)
      && Units(s', subject, SPEND, day) == Units(s, subject, SPEND, day)
           + if op.p in UnderWay(s, subject) && op.metered && op.day == day then UnitsIn(s.calls, op.p) else 0
  {
    hide LimitOf, Lists, Grants, CacheLive, Priced;
  }

  lemma OtherSteps(s: State, op: Op, parse: Parse, subject: string, day: int)
    requires !OfSpend(op) && Enabled(s, op)
    ensures var s' := Do(s, op, parse);
      && Units(s', subject, SPEND, day) == Units(s, subject, SPEND, day)
      && UnderWay(s', subject) == UnderWay(s, subject)
      && forall p :: p in UnderWay(s, subject) ==> UnitsIn(s'.calls, p) == UnitsIn(s.calls, p)
  {
    hide Do, Enabled;
    OtherUnits(s, op, parse, subject, day);
    forall p: nat {
      OtherCalls(s, op, parse, p);
    }
  }

  lemma OtherUnits(s: State, op: Op, parse: Parse, subject: string, day: int)
    requires !OfSpend(op) && Enabled(s, op)
    ensures Units(Do(s, op, parse), subject, SPEND, day) == Units(s, subject, SPEND, day)
  {
    hide LimitOf, Lists, Grants, CacheLive;
  }

  lemma OtherCalls(s: State, op: Op, parse: Parse, p: nat)
    requires !OfSpend(op) && Enabled(s, op)
    ensures var c, c' := s.calls, Do(s, op, parse).calls;
      && (p in c && c[p].Spending? <==> p in c' && c'[p].Spending?) && (p in c && c[p].Spending? ==> c'[p] == c[p])
  {
    hide LimitOf, Lists, Grants, CacheLive;
  }

  lemma {:induction false} NothingYet(ops: seq<Op>, parse: Parse, subject: string, day: int)
    requires Before(ops, day)
    ensures Units(Run(START, ops, parse), subject, SPEND, day) == 0
    decreases |ops|
  {
    hide Do, LetThrough, Others;
    if ops != [] {
      NothingYet(ops[..|ops|-1], parse, subject, day);
      SpendSteps(Run(START, ops[..|ops|-1], parse), ops[|ops|-1], parse, subject, day);
    }
  }

  /** Every spend under way is of a positive number, no more than the ceiling; and nothing is
      ever booked off a day. */
  lemma {:induction false} EachIsUnder(ops: seq<Op>, parse: Parse, subject: string, n: int, day: int)
    requires CeilingHolds(ops, parse, subject, n)
    ensures var s := Run(START, ops, parse);
      Units(s, subject, SPEND, day) >= 0 && forall p :: p in UnderWay(s, subject) ==> 0 < UnitsIn(s.calls, p) <= n
    decreases |ops|
  {
    hide Do, LimitOf, Enabled, LetThrough, CeilingHolds;
    if ops != [] {
      var init, op := ops[..|ops|-1], ops[|ops|-1];
      var s := Run(START, init, parse);
      CeilingHoldsBefore(ops, parse, subject, n);
      EachIsUnder(init, parse, subject, n, day);
      SpendSteps(s, op, parse, subject, day);
      if op.Price? && LetThrough(s, op, parse, subject) {
        EachIsUnder(init, parse, subject, n, op.day);
        GoesBy(s, op, parse, subject, n);
      }
      var s' := Run(START, ops, parse);
      forall p | p in UnderWay(s', subject) ensures 0 < UnitsIn(s'.calls, p) <= n {
        assert OfSpend(op) && p != op.p ==> p in UnderWay(s', subject) - {op.p};
      }
    }
  }

  lemma GoesBy(s: State, op: Op, parse: Parse, subject: string, n: int)
    requires op.Price? && LetThrough(s, op, parse, subject) && PricedUnder(s, op, parse, subject, n)
    ensures Enabled(s, op) && op.units > 0 && Units(s, subject, SPEND, op.day) + op.units <= n
  {
    hide LimitOf;
  }

  lemma CeilingHoldsBefore(ops: seq<Op>, parse: Parse, subject: string, n: int)
    requires ops != [] && CeilingHolds(ops, parse, subject, n)
    ensures CeilingHolds(ops[..|ops|-1], parse, subject, n)
    ensures PricedUnder(Run(START, ops[..|ops|-1], parse), ops[|ops|-1], parse, subject, n)
  {
    hide Run, PricedUnder;
    var init := ops[..|ops|-1];
    forall i | 0 <= i < |init| ensures init[..i] == ops[..i] && init[i] == ops[i] {
    }
  }

  lemma OverlapBefore(ops: seq<Op>, parse: Parse, subject: string, k: nat)
    requires ops != [] && Overlap(ops, parse, subject, k)
    ensures Overlap(ops[..|ops|-1], parse, subject, k) && |UnderWay(Run(START, ops, parse), subject)| <= k
  {
    hide Run, UnderWay;
    var init := ops[..|ops|-1];
    assert ops[..|ops|] == ops;
    forall i | 0 <= i <= |init| ensures init[..i] == ops[..i] {
    }
  }

  /** Of days that do not go back, the last step's is the latest so far. */
  lemma DaysBefore(ops: seq<Op>, day: int)
    requires ops != [] && DaysForward(ops)
    ensures DaysForward(ops[..|ops|-1]) && (UpTo(ops, day) ==> UpTo(ops[..|ops|-1], day))
    ensures OfSpend(ops[|ops|-1]) ==> (UpTo(ops, day) <==> ops[|ops|-1].day <= day)
    ensures OfSpend(ops[|ops|-1]) && ops[|ops|-1].day < day ==> Before(ops, day)
  {
    var init := ops[..|ops|-1];
    assert forall i :: 0 <= i < |init| ==> init[i] == ops[i];
    if OfSpend(ops[|ops|-1]) {
      forall i | 0 <= i < |ops| && OfSpend(ops[i]) ensures ops[i].day <= ops[|ops|-1].day {
      }
    }
  }

  /** The room a spend let through finds: its own units and those of the others under way. */
  lemma RoomFor(calls: map<nat, Call>, ps: set<nat>, p: nat, n: int, k: nat, used: int)
    requires p in ps && |ps| <= k && n >= 0 && used + UnitsIn(calls, p) <= n
    requires forall q :: q in ps ==> 0 < UnitsIn(calls, q) <= n
    ensures used + Total(calls, ps) <= k * n
  {
    TotalWithout(calls, ps, p);
    TotalBounds(calls, ps - {p}, n);
    assert |ps - {p}| == |ps| - 1;
    Times(|ps| - 1, k - 1, n);
    assert (k - 1) * n + n == k * n;
  }

  lemma Times(a: int, b: int, n: int)
    requires a <= b && n >= 0
    ensures a * n <= b * n
  {
  }

  /** The day's bookings, and until the day is over what is under way besides. */
  ghost function Committed(s: State, subject: string, day: int): int {
    Units(s, subject, SPEND, day) + Total(s.calls, UnderWay(s, subject))
  }

  /** With at most `k` of a subject's spends under way at once, a day's bookings never pass `k`
      times its ceiling, over any interleaving; one at a time, they never pass the ceiling, though
      a spend may read the meter before midnight and book after it. */
  lemma {:induction false} CeilingIsKept(ops: seq<Op>, parse: Parse, subject: string, n: int, k: nat, day: int)
    requires n >= 0 && DaysForward(ops) && CeilingHolds(ops, parse, subject, n) && Overlap(ops, parse, subject, k)
    ensures 0 <= Units(Run(START, ops, parse), subject, SPEND, day) <= k * n
    ensures UpTo(ops, day) ==> Committed(Run(START, ops, parse), subject, day) <= k * n
    decreases |ops|
  {
    hide Do, LimitOf, Enabled, LetThrough, CeilingHolds, Overlap, Total, Units, UnitsIn, DaysForward, UpTo, Before;
    EachIsUnder(ops, parse, subject, n, day);
    if ops == [] {
      NoneUnderWay(subject, day);
    } else {
      var init, op := ops[..|ops|-1], ops[|ops|-1];
      var s, s' := Run(START, init, parse), Run(START, ops, parse);
      CeilingHoldsBefore(ops, parse, subject, n);
      OverlapBefore(ops, parse, subject, k);
      DaysBefore(ops, day);
      CeilingIsKept(init, parse, subject, n, k, day);
      SpendSteps(s, op, parse, subject, day);
      if op.Price? && LetThrough(s, op, parse, subject) {
        PriceKeeps(ops, parse, subject, n, k, day);
      } else if op.Book? && op.p in UnderWay(s, subject) {
        EachIsUnder(init, parse, subject, n, day);
        BookKeeps(s, s', op, subject, day);
        TotalBounds(s'.calls, UnderWay(s', subject), n);
      } else {
        TotalSame(s.calls, s'.calls, UnderWay(s, subject));
      }
    }
  }

  lemma NoneUnderWay(subject: string, day: int)
    ensures Committed(START, subject, day) == Units(START, subject, SPEND, day) == 0
  {
  }

  lemma PriceKeeps(ops: seq<Op>, parse: Parse, subject: string, n: int, k: nat, day: int)
    requires n >= 0 && ops != [] && DaysForward(ops) && CeilingHolds(ops, parse, subject, n) && Overlap(ops, parse, subject, k)
    requires var op := ops[|ops|-1]; op.Price? && LetThrough(Run(START, ops[..|ops|-1], parse), op, parse, subject)
    ensures UpTo(ops, day) ==> Committed(Run(START, ops, parse), subject, day) <= k * n
  {
    hide Do, LimitOf, Enabled, LetThrough, CeilingHolds, Overlap, Total, Units, UnitsIn, DaysForward, UpTo, Before;
    var init, op := ops[..|ops|-1], ops[|ops|-1];
    var s, s' := Run(START, init, parse), Run(START, ops, parse);
    if UpTo(ops, day) {
      CeilingHoldsBefore(ops, parse, subject, n);
      OverlapBefore(ops, parse, subject, k);
      GoesBy(s, op, parse, subject, n);
      DaysBefore(ops, day);
      PriceSteps(s, op, parse, subject, day);
      EachIsUnder(ops, parse, subject, n, day);
      if op.day < day {
        EachIsUnder(init, parse, subject, n, op.day);
        NothingYet(ops, parse, subject, day);
      }
      RoomFor(s'.calls, UnderWay(s', subject), op.p, n, k, Units(s', subject, SPEND, day));
    }
  }

  /** What is booked is under way no more: together they are no more than before. */
  lemma BookKeeps(s: State, s': State, op: Op, subject: string, day: int)
    requires op.Book? && op.p in UnderWay(s, subject) && Others(s, s', subject, op.p) && op.p !in UnderWay(s', subject)
    requires forall p :: p in UnderWay(s, subject) ==> UnitsIn(s.calls, p) > 0
    requires Units(s', subject, SPEND, day) ==
             Units(s, subject, SPEND, day) + if op.metered && op.day == day then UnitsIn(s.calls, op.p) else 0
    ensures Committed(s', subject, day) <= Committed(s, subject, day)
  {
    hide Units, UnitsIn;
    var ps := UnderWay(s, subject);
    TotalWithout(s.calls, ps, op.p);
    assert UnderWay(s', subject) == ps - {op.p};
    TotalSame(s.calls, s'.calls, ps - {op.p});
  }

  // ---- the bound is reached ----

  function Prices(k: nat, n: int, day: int): seq<Op> {
    if k == 0 then [] else Prices(k - 1, n, day) + [Price(k - 1, n, day, true)]
  }

  function Books(k: nat, day: int): seq<Op> {
    if k == 0 then [] else Books(k - 1, day) + [Book(k - 1, day, true)]
  }

  /** Callers from `i` on, up to `k`, with a subject's grants and a ceiling of `n`. */
  ghost predicate Ready(s: State, parse: Parse, subject: string, n: int, i: nat, k: nat) {
    forall p: nat :: i <= p < k ==> Has(s, p) && s.calls[p].subject == subject && LimitOf(s.calls[p].grants, parse) == AtMost(n)
  }

  ghost predicate About(s: State, subject: string, n: int, i: nat, k: nat) {
    forall p: nat :: i <= p < k ==> p in s.calls && s.calls[p] == Spending(subject, n, true)
  }

  lemma PriceOne(s: State, parse: Parse, subject: string, n: int, i: nat, k: nat, day: int)
    requires i < k && n > 0 && Units(s, subject, SPEND, day) == 0
    requires Ready(s, parse, subject, n, i, k) && About(s, subject, n, 0, i)
    ensures var s' := Do(s, Price(i, n, day, true), parse);
      Units(s', subject, SPEND, day) == 0 && Ready(s', parse, subject, n, i + 1, k) && About(s', subject, n, 0, i + 1)
  {
    hide LimitOf, Lists, Grants, CacheLive;
    assert Has(s, i);
  }

  lemma {:induction false} AllPriced(s: State, parse: Parse, subject: string, n: int, i: nat, k: nat, day: int)
    requires i <= k && n > 0 && Units(s, subject, SPEND, day) == 0 && Ready(s, parse, subject, n, 0, k)
    ensures var s' := Run(s, Prices(i, n, day), parse);
      Units(s', subject, SPEND, day) == 0 && Ready(s', parse, subject, n, i, k) && About(s', subject, n, 0, i)
  {
    hide Run, Do, Ready, Units;
    if i == 0 {
      RunNone(s, parse);
    } else {
      AllPriced(s, parse, subject, n, i - 1, k, day);
      var s' := Run(s, Prices(i - 1, n, day), parse);
      PriceOne(s', parse, subject, n, i - 1, k, day);
      RunStep(s, Prices(i - 1, n, day), Price(i - 1, n, day, true), parse);
    }
  }

  lemma BookOne(s: State, parse: Parse, subject: string, n: int, i: nat, k: nat, day: int)
    requires i < k && About(s, subject, n, i, k)
    ensures var s' := Do(s, Book(i, day, true), parse);
      Units(s', subject, SPEND, day) == Units(s, subject, SPEND, day) + n && About(s', subject, n, i + 1, k)
  {
    hide LimitOf, Lists, Grants, CacheLive;
    assert i in s.calls;
  }

  lemma {:induction false} AllBooked(s: State, parse: Parse, subject: string, n: int, i: nat, k: nat, day: int)
    requires i <= k && About(s, subject, n, 0, k)
    ensures var s' := Run(s, Books(i, day), parse);
      Units(s', subject, SPEND, day) == Units(s, subject, SPEND, day) + i * n && About(s', subject, n, i, k)
  {
    hide Run, Do, About, Units;
    if i == 0 {
      RunNone(s, parse);
    } else {
      AllBooked(s, parse, subject, n, i - 1, k, day);
      var s' := Run(s, Books(i - 1, day), parse);
      BookOne(s', parse, subject, n, i - 1, k, day);
      RunStep(s, Books(i - 1, day), Book(i - 1, day, true), parse);
      assert i * n == (i - 1) * n + n;
    }
  }

  /** And they may come to that much: `k` callers that each read a meter with nothing on it, and
      then book. */
  lemma OverlapsReachIt(s: State, parse: Parse, subject: string, n: int, k: nat, day: int)
    requires n > 0 && Units(s, subject, SPEND, day) == 0 && Ready(s, parse, subject, n, 0, k)
    ensures Units(Run(Run(s, Prices(k, n, day), parse), Books(k, day), parse), subject, SPEND, day) == k * n
  {
    hide Run, Ready, About, Units;
    AllPriced(s, parse, subject, n, k, k, day);
    AllBooked(Run(s, Prices(k, n, day), parse), parse, subject, n, k, k, day);
  }

  /** A grant that sets the ceiling, and caller `k`, that reads it and caches it. */
  function Granted(g: Grant, k: nat): seq<Op> {
    [Alter(map[g := Forever]), LookUp(k, g.subject, 0), StoreRead(k, 0, Got([g])), Fill(k, 0)]
  }

  /** `i` callers that find it in the cache. */
  function Asks(i: nat, subject: string): seq<Op> {
    if i == 0 then [] else Asks(i - 1, subject) + [LookUp(i - 1, subject, 0)]
  }

  /** Every one of them has the grant, and nothing is booked. */
  ghost predicate Served(s: State, g: Grant, i: nat, k: nat) {
    && s.cache == map[g.subject := Cached([g], 0)] && s.meter == map[] && s.now == 0
    && (forall p: nat :: p in s.calls <==> p < i || p == k)
    && (forall p :: p in s.calls ==> s.calls[p] == Answered(g.subject, [g], 0, 0))
  }

  lemma GrantedServes(g: Grant, k: nat, parse: Parse)
    ensures Served(Run(START, Granted(g, k), parse), g, 0, k)
  {
    hide Run, Do;
    var a, b, c, d := Alter(map[g := Forever]), LookUp(k, g.subject, 0), StoreRead(k, 0, Got([g])), Fill(k, 0);
    RunNone(START, parse);
    RunStep(START, [], a, parse);
    assert [] + [a] == [a] && [a] + [b] == [a, b] && [a, b] + [c] == [a, b, c] && [a, b, c] + [d] == [a, b, c, d];
    RunStep(START, [a], b, parse);
    RunStep(START, [a, b], c, parse);
    RunStep(START, [a, b, c], d, parse);
    var s := START.(table := map[g := Forever]);
    GrantIsRead(s, g, k, parse);
    CacheIsWritten(s, g, k, parse);
  }

  lemma GrantIsRead(s: State, g: Grant, k: nat, parse: Parse)
    requires s == START.(table := map[g := Forever])
    ensures Do(START, Alter(map[g := Forever]), parse) == s
    ensures Do(Do(s, LookUp(k, g.subject, 0), parse), StoreRead(k, 0, Got([g])), parse) == s.(calls := map[k := Held(g.subject, [g], 0)])
  {
    hide LimitOf, Grants, Priced;
    var missed := Do(s, LookUp(k, g.subject, 0), parse);
    assert missed == s.(calls := map[k := Missed(g.subject)]);
    assert Lists(s.table, g.subject, 0, [g]);
  }

  lemma CacheIsWritten(s: State, g: Grant, k: nat, parse: Parse)
    requires s == START.(table := map[g := Forever])
    ensures Do(s.(calls := map[k := Held(g.subject, [g], 0)]), Fill(k, 0), parse) ==
            s.(calls := map[k := Answered(g.subject, [g], 0, 0)], cache := map[g.subject := Cached([g], 0)])
  {
    hide LimitOf, Grants, Priced, Lists;
  }

  lemma {:induction false} AsksServe(s: State, g: Grant, i: nat, k: nat, parse: Parse)
    requires i <= k && Served(s, g, 0, k)
    ensures Served(Run(s, Asks(i, g.subject), parse), g, i, k)
  {
    hide Run, Do;
    if i == 0 {
      RunNone(s, parse);
    } else {
      AsksServe(s, g, i - 1, k, parse);
      RunStep(s, Asks(i - 1, g.subject), LookUp(i - 1, g.subject, 0), parse);
      AskServes(Run(s, Asks(i - 1, g.subject), parse), g, i - 1, k, parse);
    }
  }

  lemma AskServes(s: State, g: Grant, i: nat, k: nat, parse: Parse)
    requires i < k && Served(s, g, i, k)
    ensures Served(Do(s, LookUp(i, g.subject, 0), parse), g, i + 1, k)
  {
    hide LimitOf, Grants, Priced, Lists;
  }

  lemma {:induction false} RunThen(s: State, ops: seq<Op>, more: seq<Op>, parse: Parse)
    ensures Run(s, ops + more, parse) == Run(Run(s, ops, parse), more, parse)
    decreases |more|
  {
    hide Do;
    if more == [] {
      assert ops + more == ops;
    } else {
      assert (ops + more)[..|ops + more|-1] == ops + more[..|more|-1];
      RunThen(s, ops, more[..|more|-1], parse);
    }
  }

  /** From the very start: a ceiling of `n` is granted, `k` callers are served, each prices a spend
      of `n`, and each books it. */
  lemma OverlapsFromStart(g: Grant, n: int, k: nat, day: int, parse: Parse)
    requires g.capability == SPEND && g.value != ANY && parse(g.value) == n > 0
    ensures var run := Granted(g, k) + Asks(k, g.subject) + Prices(k, n, day) + Books(k, day);
      Units(Run(START, run, parse), g.subject, SPEND, day) == k * n
  {
    hide Run, Granted, Asks, Prices, Books, Units;
    GrantedServes(g, k, parse);
    AsksServe(Run(START, Granted(g, k), parse), g, k, k, parse);
    RunThen(START, Granted(g, k), Asks(k, g.subject), parse);
    var first := Granted(g, k) + Asks(k, g.subject);
    RunThen(START, first, Prices(k, n, day), parse);
    RunThen(START, first + Prices(k, n, day), Books(k, day), parse);
    var s := Run(START, first, parse);
    ServedIsReady(s, g, n, k, day, parse);
    OverlapsReachIt(s, parse, g.subject, n, k, day);
  }

  lemma ServedIsReady(s: State, g: Grant, n: int, k: nat, day: int, parse: Parse)
    requires Served(s, g, k, k) && g.capability == SPEND && g.value != ANY && parse(g.value) == n > 0
    ensures Ready(s, parse, g.subject, n, 0, k) && Units(s, g.subject, SPEND, day) == 0
  {
  }
}
