/** Reading forward over a server that answers a bounded query with the NEWEST
    messages inside the bounds: narrow a window while it comes back full, slide it on
    while it holds nothing new. Instants are nanoseconds. */
module Wacli {
  import opened Basics
  import opened Sorting
  import opened ChatOrder
  import opened ChatSource

  const FIRST_WINDOW := 7 * 24 * 60 * MINUTE
  const QUARTER := 15 * SECOND

  /** A week halved fifteen times, and the least window there is. */
  const LEAST := FIRST_WINDOW / 32768

  /** What a window of a minute or less spans, in whole seconds. */
  const SPAN := 37 * SECOND

  /** An instant as it is written in a query: whole seconds (section 5.6 of RFC 3339). */
  function Trunc(t: int): int {
    t / SECOND * SECOND
  }

  /** A message as the server writes it; `at` is None when its timestamp does not parse. */
  datatype Stamp = Stamp(at: int) | Unparseable
  datatype Row = Row(id: string, chat: string, sender: string, content: string, stamp: Stamp, fromMe: bool)

  /** The server, as one call sees it: after, before, limit. */
  type Server = (int, int, nat) -> Answer<seq<Row>>

  function MessageOf(r: Row): Message
    requires r.stamp.Stamp?
  {
    Message(r.id, r.chat, r.sender, "", r.content, r.stamp.at, r.fromMe)
  }

  function Dated(rows: seq<Row>): seq<Message> {
    if rows == [] then []
    else (if rows[0].stamp.Stamp? then [MessageOf(rows[0])] else []) + Dated(rows[1..])
  }

  function PageOf(server: Server, from: int, to: int, limit: nat): Answer<seq<Message>> {
    match server(Trunc(from), Trunc(to), limit)
    case Failed => Failed
    case Ok(rows) => Ok(StableSort(Dated(rows), MessageBefore))
  }

  lemma {:induction false} DatedAppend(rows: seq<Row>, r: Row)
    ensures Dated(rows + [r]) == Dated(rows) + (if r.stamp.Stamp? then [MessageOf(r)] else [])
  {
    if rows != [] {
      DatedAppend(rows[1..], r);
      assert (rows + [r])[1..] == rows[1..] + [r];
    }
  }

  method Page(server: Server, from: int, to: int, limit: nat) returns (res: Answer<seq<Message>>)
    ensures res == PageOf(server, from, to, limit)
  {
    var answer := server(Trunc(from), Trunc(to), limit);
    if answer.Failed? {
      return Failed;
    }
    var rows := answer.value;
    var msgs := [];
    for i := 0 to |rows|
      invariant msgs == Dated(rows[..i])
    {
      DatedAppend(rows[..i], rows[i]);
      assert rows[..i+1] == rows[..i] + [rows[i]];
      if rows[i].stamp.Stamp? {
        msgs := msgs + [MessageOf(rows[i])];
      }
    }
    assert rows[..|rows|] == rows;
    return Ok(StableSort(msgs, MessageBefore));
  }

  function Ahead(from: int, now: int): nat {
    if from < now then now - from else 0
  }

  /** The search from a window on. It ends because a slide is always over more than a
      quarter minute, and between slides the window only narrows. */
  function Search(server: Server, after: Cursor, now: int, limit: nat, from: int, window: int): Answer<seq<Message>>
    requires window >= QUARTER
    decreases Ahead(from, now), window
  {
    if from >= now then Ok([])
    else
      match PageOf(server, from, from + window, limit)
      case Failed => Failed
      case Ok(got) =>
        if |got| >= limit && window > MINUTE then
          Search(server, after, now, limit, from, window / 4)
        else if Unread(got, after) != [] then Ok(Unread(got, after))
        else Search(server, after, now, limit, from + window, window * 2)
  }

  function Limit(limit: int): nat {
    if limit <= 0 then 100 else limit
  }

  function MessagesOf(server: Server, after: Cursor, now: int, limit: int): Answer<seq<Message>> {
    Search(server, after, now, Limit(limit), after.at - SECOND, FIRST_WINDOW)
  }

  method Messages(server: Server, after: Cursor, now: int, limit0: int) returns (res: Answer<seq<Message>>)
    ensures res == MessagesOf(server, after, now, limit0)
  {
    hide PageOf, Unread;
    var limit := if limit0 <= 0 then 100 else limit0;
    var from := after.at - SECOND;
    var window := FIRST_WINDOW;
    ghost var found := Search(server, after, now, limit, from, window);
    while from < now
      invariant window >= QUARTER
      invariant Search(server, after, now, limit, from, window) == found
      decreases Ahead(from, now), window
    {
      var to := from + window;
      var answer := Page(server, from, to, limit);
      if answer.Failed? {
        return Failed;
      }
      var got := answer.value;
      if |got| >= limit && window > MINUTE {
        window := window / 4;
        continue;
      }
      var unread := UnreadOf(got, after);
      if |unread| > 0 {
        return Ok(unread);
      }
      from, window := to, window * 2;
    }
    return Ok([]);
  }

  // ---- the server's side ----

  function Within(h: seq<Message>, lo: int, hi: int): set<Message> {
    set m | m in h && lo <= m.at <= hi
  }

  /** The newest of the messages inside the bounds, up to `limit`: whatever is left out
      is no newer than anything returned. Which of a second's messages a cut keeps is
      the server's choice. */
  ghost predicate NewestWithin(rows: seq<Row>, h: seq<Message>, lo: int, hi: int, limit: nat) {
    && |rows| <= limit
    && (forall r :: r in rows ==> r.stamp.Stamp?)
    && DistinctKeys(Dated(rows))
    && (forall m :: m in Dated(rows) ==> m in Within(h, lo, hi))
    && (forall m :: m in Within(h, lo, hi) && m !in Dated(rows) ==>
          |rows| >= limit && forall g :: g in Dated(rows) ==> m.at <= g.at)
  }

  ghost predicate Serves(server: Server, h: seq<Message>) {
    forall lo, hi, limit ::
      server(lo, hi, limit).Ok? ==> NewestWithin(server(lo, hi, limit).value, h, lo, hi, limit)
  }

  /** More than `limit` messages inside the 37 seconds that start at `lo`. */
  ghost predicate Overfull(h: seq<Message>, lo: int, limit: nat) {
    |Within(h, lo, lo + SPAN)| > limit
  }

  /** No such stretch holds `m`. */
  ghost predicate Sparse(h: seq<Message>, m: Message, limit: nat) {
    forall lo :: lo <= m.at <= lo + SPAN ==> !Overfull(h, lo, limit)
  }

  /** The windows the loop comes to: the least, doubled any number of times. */
  predicate Reached(window: int) {
    window == LEAST || (window > LEAST && window % 2 == 0 && Reached(window / 2))
  }

  lemma {:induction false} ReachedIsLeast(window: int)
    requires Reached(window)
    ensures window >= LEAST > QUARTER
  {
  }

  /** Narrowing and doubling stay among them, and one of a minute or less is the least or twice it. */
  lemma ReachedSteps(window: int)
    requires Reached(window)
    ensures Reached(window * 2)
    ensures window > MINUTE ==> Reached(window / 4)
    ensures window <= MINUTE ==> window <= 2 * LEAST && forall from :: Trunc(from + window) <= Trunc(from) + SPAN
  {
    ReachedIsLeast(window);
    assert window * 2 / 2 == window;
    if window != LEAST {
      ReachedIsLeast(window / 2);
      if window / 2 != LEAST {
        ReachedIsLeast(window / 2 / 2);
        assert window / 2 / 2 == window / 4;
      }
    }
  }

  lemma ReachedEightfold(window: int)
    requires Reached(window)
    ensures Reached(8 * window)
  {
    ReachedSteps(window);
    ReachedSteps(2 * window);
    ReachedSteps(4 * window);
  }

  lemma FirstIsReached()
    ensures Reached(FIRST_WINDOW)
  {
    hide Reached;
    LeastIsReached();
    ReachedEightfold(LEAST);
    ReachedEightfold(8 * LEAST);
    ReachedEightfold(64 * LEAST);
    ReachedEightfold(512 * LEAST);
    ReachedEightfold(4096 * LEAST);
  }

  lemma LeastIsReached()
    ensures Reached(LEAST)
  {
  }

  lemma {:induction false} DatedCount(rows: seq<Row>)
    requires forall r :: r in rows ==> r.stamp.Stamp?
    ensures |Dated(rows)| == |rows|
  {
    if rows != [] {
      DatedCount(rows[1..]);
    }
  }

  lemma WithinMono(h: seq<Message>, lo: int, hi: int, hi': int)
    requires hi <= hi'
    ensures |Within(h, lo, hi)| <= |Within(h, lo, hi')|
  {
    var a, b := Within(h, lo, hi), Within(h, lo, hi');
    assert a <= b;
    assert |b - a| == |b| - |a|;
  }

  /** A page holds everything inside its bounds exactly when no more than `limit` is there. */
  lemma PageWhole(server: Server, h: seq<Message>, from: int, to: int, limit: nat)
    requires Serves(server, h) && PageOf(server, from, to, limit).Ok?
    ensures (forall m :: m in Within(h, Trunc(from), Trunc(to)) ==> m in PageOf(server, from, to, limit).value)
       <==> |Within(h, Trunc(from), Trunc(to))| <= limit
  {
    var lo, hi := Trunc(from), Trunc(to);
    var rows := server(lo, hi, limit).value;
    var within, dated := Within(h, lo, hi), Dated(rows);
    assert NewestWithin(rows, h, lo, hi, limit);
    SortMembers(dated, MessageBefore);
    DatedCount(rows);
    DistinctCount(dated);
    if forall m :: m in within ==> m in dated {
      assert within == set m | m in dated;
    } else if |within| <= limit {
      DistinctFill(dated, within);
    }
  }

  /** A page that is looked into, rather than narrowed, has left out no message but one that an
      overfull stretch holds; and it is in chat order. */
  lemma PageComplete(server: Server, h: seq<Message>, from: int, window: int, limit: nat, m: Message)
    requires Serves(server, h) && Reached(window)
    requires PageOf(server, from, from + window, limit).Ok?
    ensures var got := PageOf(server, from, from + window, limit).value;
      && DistinctKeys(got)
      && (forall g :: g in got ==> g in h && Trunc(from) <= g.at <= Trunc(from + window))
      && (m in h && Trunc(from) <= m.at <= Trunc(from + window) && Sparse(h, m, limit) ==>
            (|got| >= limit && window > MINUTE) || m in got)
  {
    hide StableSort, Reached;
    var lo, hi := Trunc(from), Trunc(from + window);
    var rows := server(lo, hi, limit).value;
    var dated := Dated(rows);
    var got := PageOf(server, from, from + window, limit).value;
    assert NewestWithin(rows, h, lo, hi, limit);
    SortMembers(dated, MessageBefore);
    SortDistinct(dated);
    DatedCount(rows);
    ReachedSteps(window);
    if !(|got| >= limit && window > MINUTE) && m in h && lo <= m.at <= hi && Sparse(h, m, limit) && m !in got {
      assert m in Within(h, lo, hi);
      assert |dated| >= limit && hi <= lo + SPAN;
      assert !Overfull(h, lo, limit);
      WithinMono(h, lo, hi, lo + SPAN);
      DistinctFill(dated, Within(h, lo, hi));
      assert false;
    }
  }

  /** What an accepted page gives, when it holds every unread message of its window that some
      condition picks, and all such unread are later than the window's start. */
  lemma AcceptedPage(got: seq<Message>, h: seq<Message>, after: Cursor, lo: int, hi: int, picked: set<Message>)
    requires DistinctKeys(got) && Ascending(h) && forall g :: g in got ==> g in h && lo <= g.at <= hi
    requires forall m :: m in h && !after.Passed(m) && m in picked ==> m.at > lo
    requires forall m :: m in h && lo <= m.at <= hi && m in picked ==> m in got
    ensures var res := Unread(got, after);
      && Ascending(res) && (forall m :: m in res ==> m in h && !after.Passed(m))
      && (forall m, g :: m in h && !after.Passed(m) && m in picked && g in res && MessageBefore(m, g) ==> m in res)
      && (res == [] ==> forall m :: m in h && !after.Passed(m) && m in picked ==> m.at > hi)
  {
    hide Unread;
    var res := Unread(got, after);
    UnreadMembers(got, after);
    UnreadAscending(got, after);
    if res == [] {
      forall m | m in h && !after.Passed(m) && m in picked ensures m.at > hi {
        assert m !in res;
      }
    }
  }

  lemma PageGives(server: Server, h: seq<Message>, after: Cursor, limit: nat, from: int, window: int)
    requires Reached(window) && Serves(server, h) && Ascending(h)
    requires forall m :: m in h && !after.Passed(m) && Sparse(h, m, limit) ==> m.at > Trunc(from)
    requires PageOf(server, from, from + window, limit).Ok?
    requires |PageOf(server, from, from + window, limit).value| < limit || window <= MINUTE
    ensures var res := Unread(PageOf(server, from, from + window, limit).value, after);
      && Ascending(res) && (forall m :: m in res ==> m in h && !after.Passed(m))
      && (forall m, g :: m in h && !after.Passed(m) && Sparse(h, m, limit) && g in res && MessageBefore(m, g) ==> m in res)
      && (res == [] ==> forall m :: m in h && !after.Passed(m) && Sparse(h, m, limit) ==> m.at > Trunc(from + window))
  {
    hide PageOf, Reached, Serves, Sparse, Unread;
    var got := PageOf(server, from, from + window, limit).value;
    var picked := set m | m in h && Sparse(h, m, limit);
    forall m | m in picked && Trunc(from) <= m.at <= Trunc(from + window) ensures m in got {
      PageComplete(server, h, from, window, limit, m);
    }
    PageBounds(server, h, from, window, limit);
    AcceptedPage(got, h, after, Trunc(from), Trunc(from + window), picked);
  }

  lemma PageBounds(server: Server, h: seq<Message>, from: int, window: int, limit: nat)
    requires Serves(server, h) && PageOf(server, from, from + window, limit).Ok?
    ensures var got := PageOf(server, from, from + window, limit).value;
      DistinctKeys(got) && forall g :: g in got ==> g in h && Trunc(from) <= g.at <= Trunc(from + window)
  {
    hide StableSort;
    var rows := server(Trunc(from), Trunc(from + window), limit).value;
    assert NewestWithin(rows, h, Trunc(from), Trunc(from + window), limit);
    SortMembers(Dated(rows), MessageBefore);
    SortDistinct(Dated(rows));
  }

  /** What the search returns are unread messages of the history, in order; and every
      unread message it stepped over, or left unread up to now, is one that an overfull
      stretch holds. The loop's fact: every sparse unread message is later than `from`. */
  lemma {:induction false} SearchFinds(server: Server, h: seq<Message>, after: Cursor, now: int, limit: nat,
                                       from: int, window: int)
    requires window >= QUARTER && Reached(window) && Serves(server, h) && Ascending(h)
    requires forall m :: m in h && !after.Passed(m) && Sparse(h, m, limit) ==> m.at > Trunc(from)
    requires Search(server, after, now, limit, from, window).Ok?
    ensures var res := Search(server, after, now, limit, from, window).value;
      && Ascending(res)
      && (forall m :: m in res ==> m in h && !after.Passed(m))
      && (forall m, g :: m in h && !after.Passed(m) && Sparse(h, m, limit) && g in res && MessageBefore(m, g) ==>
            m in res)
      && (res == [] ==> forall m :: m in h && !after.Passed(m) && m.at <= Trunc(now) ==> !Sparse(h, m, limit))
    decreases Ahead(from, now), window
  {
    hide PageOf, Reached, Serves, Sparse, Unread;
    if from >= now {
      assert Trunc(now) <= Trunc(from);
    } else {
      var to := from + window;
      var got := PageOf(server, from, to, limit).value;
      ReachedSteps(window);
      if |got| >= limit && window > MINUTE {
        ReachedIsLeast(window / 4);
        SearchFinds(server, h, after, now, limit, from, window / 4);
      } else {
        PageGives(server, h, after, limit, from, window);
        if Unread(got, after) == [] {
          SearchFinds(server, h, after, now, limit, to, window * 2);
        }
      }
    }
  }

  /** A history `limit` messages deep in no 37 seconds is read right: the answer is a prefix
      of the unread messages, and is nothing only when nothing up to now is unread. */
  lemma MessagesRight(server: Server, h: seq<Message>, after: Cursor, now: int, limit: int)
    requires Serves(server, h) && Ascending(h)
    requires forall lo :: !Overfull(h, lo, Limit(limit))
    requires MessagesOf(server, after, now, limit).Ok?
    ensures var res := MessagesOf(server, after, now, limit).value;
      && res <= After(h, after)
      && (res == [] ==> forall m :: m in After(h, after) ==> m.at > Trunc(now))
  {
    var res := MessagesOf(server, after, now, limit).value;
    MessagesSteppedOver(server, h, after, now, limit);
    forall m | m in h ensures Sparse(h, m, Limit(limit)) { }
    ClosedIsPrefix(res, h, after);
    AfterMembers(h, after);
  }

  /** Whatever the history's depth: nothing is invented or given again, and a message that
      was stepped over shares 37 seconds with more than `limit` others. */
  lemma MessagesSteppedOver(server: Server, h: seq<Message>, after: Cursor, now: int, limit: int)
    requires Serves(server, h) && Ascending(h)
    requires MessagesOf(server, after, now, limit).Ok?
    ensures var res := MessagesOf(server, after, now, limit).value;
      && Ascending(res)
      && (forall m :: m in res ==> m in h && !after.Passed(m))
      && (forall m, g :: m in h && !after.Passed(m) && m !in res && g in res && MessageBefore(m, g) ==>
            !Sparse(h, m, Limit(limit)))
      && (res == [] ==> forall m :: m in h && !after.Passed(m) && m.at <= Trunc(now) ==> !Sparse(h, m, Limit(limit)))
  {
    forall m | m in h && !after.Passed(m) ensures m.at > Trunc(after.at - SECOND) {
      assert m.at >= after.at;
    }
    FirstIsReached();
    SearchFinds(server, h, after, now, Limit(limit), after.at - SECOND, FIRST_WINDOW);
  }

  /** With nothing in the history later than the second `now` falls in, the answer meets
      the source's contract with the syncer. */
  lemma MessagesFaithful(server: Server, h: seq<Message>, after: Cursor, now: int, limit: int)
    requires Serves(server, h) && Ascending(h)
    requires forall lo :: !Overfull(h, lo, Limit(limit))
    requires forall m :: m in h ==> m.at <= Trunc(now)
    requires MessagesOf(server, after, now, limit).Ok?
    ensures Faithful(MessagesOf(server, after, now, limit).value, h, after)
  {
    var res := MessagesOf(server, after, now, limit).value;
    MessagesRight(server, h, after, now, limit);
    MessagesSteppedOver(server, h, after, now, limit);
    UnreadOfAnswer(res, after);
    var n := PassedCount(h, after);
    assert n < |h| ==> h[n] in h && h[n..][0] == h[n] && h[n] in After(h, after);
  }

  // ---- a minute that is too full ----

  const BURST := 10 * SECOND

  function BurstRow(id: string): Row {
    Row(id, "c", "s", "hi", Stamp(BURST), false)
  }

  /** Three messages of one second on a server that gives the last two of them. */
  const BurstServer: Server := (lo: int, hi: int, limit: nat) =>
    if lo <= BURST <= hi then
      (if limit >= 3 then Ok([BurstRow("a"), BurstRow("b"), BurstRow("c")]) else
       if limit == 2 then Ok([BurstRow("b"), BurstRow("c")]) else
       if limit == 1 then Ok([BurstRow("c")]) else Ok([]))
    else Ok([])

  const BURST_HISTORY := [MessageOf(BurstRow("a")), MessageOf(BurstRow("b")), MessageOf(BurstRow("c"))]

  lemma BurstPage(window: int)
    requires window >= BURST
    ensures PageOf(BurstServer, 0, window, 2) == Ok(BURST_HISTORY[1..])
  {
    var b, c := BurstRow("b"), BurstRow("c");
    assert Trunc(0) <= BURST <= Trunc(window);
    assert BurstServer(Trunc(0), Trunc(window), 2) == Ok([b, c]);
    assert [b, c][1..] == [c] && [c][1..] == [];
    assert Dated([b, c]) == [MessageOf(b), MessageOf(c)];
    assert !MessageBefore(MessageOf(c), MessageOf(b));
    assert [MessageOf(b), MessageOf(c)][1..] == [MessageOf(c)];
    assert StableSort([MessageOf(c)], MessageBefore) == [MessageOf(c)];
  }

  lemma {:induction false} BurstNarrows(window: int)
    requires window >= QUARTER
    ensures Search(BurstServer, Cursor(SECOND, ""), 20 * SECOND, 2, 0, window) == Ok(BURST_HISTORY[1..])
    decreases window
  {
    BurstPage(window);
    var tail, c := BURST_HISTORY[1..], Cursor(SECOND, "");
    if window > MINUTE {
      BurstNarrows(window / 4);
    } else {
      assert Ascending(tail) by {
        assert MessageBefore(tail[0], tail[1]);
      }
      PassedCountUnique(tail, c, 0);
      UnreadOfHistory(tail, c);
    }
  }

  /** A full page in a window of a minute or less is taken as it is: here the oldest of
      three unread messages is stepped over. */
  lemma FullMinuteSkips()
    ensures Serves(BurstServer, BURST_HISTORY) && Ascending(BURST_HISTORY)
    ensures MessagesOf(BurstServer, Cursor(SECOND, ""), 20 * SECOND, 2) == Ok(BURST_HISTORY[1..])
    ensures !(BURST_HISTORY[1..] <= After(BURST_HISTORY, Cursor(SECOND, "")))
  {
    var h, c := BURST_HISTORY, Cursor(SECOND, "");
    assert MessageBefore(h[0], h[1]) && MessageBefore(h[1], h[2]) && MessageBefore(h[0], h[2]);
    PassedCountUnique(h, c, 0);
    assert After(h, c)[0] == h[0] && h[1..][0] == h[1] != h[0];
    forall lo: int, hi: int, limit: nat
      ensures BurstServer(lo, hi, limit).Ok? && NewestWithin(BurstServer(lo, hi, limit).value, h, lo, hi, limit)
    {
      BurstServes(lo, hi, limit);
    }
    BurstNarrows(FIRST_WINDOW);
  }

  lemma BurstServes(lo: int, hi: int, limit: nat)
    ensures BurstServer(lo, hi, limit).Ok?
    ensures NewestWithin(BurstServer(lo, hi, limit).value, BURST_HISTORY, lo, hi, limit)
  {
    var rows := BurstServer(lo, hi, limit).value;
    var a, b, c := BurstRow("a"), BurstRow("b"), BurstRow("c");
    assert forall m :: m in BURST_HISTORY ==> m.at == BURST;
    assert [a, b, c][1..] == [b, c] && [b, c][1..] == [c] && [c][1..] == [];
    assert Dated(rows) == seq(|rows|, i requires 0 <= i < |rows| => MessageOf(rows[i]));
  }

  /** A bound is the start of the second it falls in. */
  lemma TruncIs(t: int)
    ensures Trunc(t) <= t < Trunc(t) + SECOND && exists n :: Trunc(t) == n * 1_000_000_000
  {
    assert Trunc(t) == t / SECOND * 1_000_000_000;
  }

  /** A read that names no limit is of a hundred messages. */
  lemma DefaultLimit(server: Server, after: Cursor, now: int, limit: int)
    ensures limit <= 0 ==> MessagesOf(server, after, now, limit) == MessagesOf(server, after, now, 100)
  {
    hide Search;
  }
}
