/** Exactly which histories the windowed reading reads right whatever its server keeps of a
    full page. The windows it comes to depend on the history alone, up to the first one that
    may lose an unread message. */
module WacliExact {
  import opened Basics
  import opened ChatOrder
  import opened ChatSource
  import opened Sorting
  import opened Wacli

  /** An unread message the server may leave out of this window's answer: with it, more than
      `limit` messages are at its instant or later. */
  ghost predicate Exposes(h: seq<Message>, after: Cursor, lo: int, hi: int, limit: nat, m: Message) {
    m in h && !after.Passed(m) && lo <= m.at <= hi && |Within(h, m.at, hi)| > limit
  }

  ghost predicate Exposed(h: seq<Message>, after: Cursor, lo: int, hi: int, limit: nat) {
    exists m :: Exposes(h, after, lo, hi, limit, m)
  }

  ghost predicate News(h: seq<Message>, after: Cursor, lo: int, hi: int) {
    exists m :: m in h && !after.Passed(m) && lo <= m.at <= hi
  }

  /** No window that is looked into, up to the first one with news, is exposed. */
  ghost predicate Clear(h: seq<Message>, after: Cursor, now: int, limit: nat, from: int, window: int)
    requires window >= QUARTER
    decreases Ahead(from, now), window
  {
    from >= now ||
    var lo, hi := Trunc(from), Trunc(from + window);
    if |Within(h, lo, hi)| >= limit && window > MINUTE then
      Clear(h, after, now, limit, from, window / 4)
    else
      && !Exposed(h, after, lo, hi, limit)
      && (News(h, after, lo, hi) || Clear(h, after, now, limit, from + window, window * 2))
  }

  /** The unread messages in order without a gap, and nothing only when nothing up to now is unread. */
  ghost predicate Right(answer: Answer<seq<Message>>, h: seq<Message>, after: Cursor, now: int) {
    answer.Ok? ==>
      && answer.value <= After(h, after)
      && (answer.value == [] ==> forall m :: m in After(h, after) ==> m.at > Trunc(now))
  }

  ghost predicate AlwaysRight(h: seq<Message>, after: Cursor, now: int, limit: int) {
    forall server :: Serves(server, h) ==> Right(MessagesOf(server, after, now, limit), h, after, now)
  }

  // ---- a clear history is read right ----

  /** A page is full exactly when its window holds `limit` messages. */
  lemma PageFull(server: Server, h: seq<Message>, from: int, to: int, limit: nat)
    requires Serves(server, h) && PageOf(server, from, to, limit).Ok?
    ensures |PageOf(server, from, to, limit).value| >= limit <==> |Within(h, Trunc(from), Trunc(to))| >= limit
  {
    hide StableSort;
    var lo, hi := Trunc(from), Trunc(to);
    var rows := server(lo, hi, limit).value;
    var within, dated := Within(h, lo, hi), Dated(rows);
    assert NewestWithin(rows, h, lo, hi, limit);
    DatedCount(rows);
    DistinctCount(dated);
    var given := set m | m in dated;
    assert given <= within;
    assert |within - given| == |within| - |given|;
    if |dated| < limit {
      assert given == within;
    }
  }

  lemma PageHasUnread(server: Server, h: seq<Message>, after: Cursor, from: int, to: int, limit: nat, m: Message)
    requires Serves(server, h) && PageOf(server, from, to, limit).Ok?
    requires m in h && !after.Passed(m) && Trunc(from) <= m.at <= Trunc(to)
    ensures m in PageOf(server, from, to, limit).value || Exposes(h, after, Trunc(from), Trunc(to), limit, m)
  {
    hide StableSort;
    var lo, hi := Trunc(from), Trunc(to);
    var rows := server(lo, hi, limit).value;
    var dated := Dated(rows);
    assert NewestWithin(rows, h, lo, hi, limit);
    SortMembers(dated, MessageBefore);
    assert m in Within(h, lo, hi);
    if m !in dated {
      DatedCount(rows);
      DistinctCount(dated);
      var given := set g | g in dated;
      assert given + {m} <= Within(h, m.at, hi);
      assert |Within(h, m.at, hi) - (given + {m})| == |Within(h, m.at, hi)| - |given + {m}|;
    }
  }

  lemma ClearPage(server: Server, h: seq<Message>, after: Cursor, from: int, to: int, limit: nat)
    requires Serves(server, h) && Ascending(h) && PageOf(server, from, to, limit).Ok?
    requires forall m :: m in h && !after.Passed(m) ==> m.at > Trunc(from)
    requires !Exposed(h, after, Trunc(from), Trunc(to), limit)
    ensures var res := Unread(PageOf(server, from, to, limit).value, after);
      && res <= After(h, after)
      && (res == [] <==> !News(h, after, Trunc(from), Trunc(to)))
      && (res == [] ==> forall m :: m in h && !after.Passed(m) ==> m.at > Trunc(to))
  {
    hide PageOf, Serves, Unread, Exposes;
    var got := PageOf(server, from, to, limit).value;
    var picked := set m | m in h;
    PageBounds(server, h, from, to - from, limit);
    forall m | m in h && !after.Passed(m) && Trunc(from) <= m.at <= Trunc(to) ensures m in got {
      PageHasUnread(server, h, after, from, to, limit, m);
    }
    UnreadMembers(got, after);
    UnreadAscending(got, after);
    var res := Unread(got, after);
    assert res != [] ==> res[0] in res;
    ClosedIsPrefix(res, h, after);
  }

  lemma {:induction false} ClearIsRight(server: Server, h: seq<Message>, after: Cursor, now: int, limit: nat,
                                        from: int, window: int)
    requires window >= QUARTER && Serves(server, h) && Ascending(h)
    requires forall m :: m in h && !after.Passed(m) ==> m.at > Trunc(from)
    requires Clear(h, after, now, limit, from, window)
    ensures Right(Search(server, after, now, limit, from, window), h, after, now)
    decreases Ahead(from, now), window
  {
    hide PageOf, Serves, Unread, Exposed, News;
    AfterMembers(h, after);
    if from >= now {
      assert Trunc(now) <= Trunc(from);
    } else if PageOf(server, from, from + window, limit).Ok? {
      PageFull(server, h, from, from + window, limit);
      if |PageOf(server, from, from + window, limit).value| >= limit && window > MINUTE {
        ClearIsRight(server, h, after, now, limit, from, window / 4);
      } else {
        ClearPage(server, h, after, from, from + window, limit);
        if !News(h, after, Trunc(from), Trunc(from + window)) {
          ClearIsRight(server, h, after, now, limit, from + window, window * 2);
        }
      }
    }
  }

  // ---- a server that leaves a message out ----

  /** What a row can say of a message. */
  ghost predicate Nameless(h: seq<Message>) {
    forall m :: m in h ==> m.senderName == ""
  }

  function RowsOf(ms: seq<Message>): (rows: seq<Row>)
    ensures |rows| == |ms| && forall r :: r in rows ==> r.stamp.Stamp?
  {
    seq(|ms|, i requires 0 <= i < |ms| =>
      Row(ms[i].id, ms[i].chat, ms[i].sender, ms[i].content, Stamp(ms[i].at), ms[i].fromMe))
  }

  lemma {:induction false} RowsSay(ms: seq<Message>)
    requires Nameless(ms)
    ensures Dated(RowsOf(ms)) == ms
  {
    if ms != [] {
      RowsSay(ms[1..]);
      assert RowsOf(ms)[1..] == RowsOf(ms[1..]);
    }
  }

  /** The history's messages inside the bounds, but for `skip`. */
  function Slice(h: seq<Message>, lo: int, hi: int, skip: set<Message>): (r: seq<Message>)
    ensures forall m :: m in r <==> m in h && lo <= m.at <= hi && m !in skip
  {
    if h == [] then []
    else
      assert forall m :: m in h <==> m == h[0] || m in h[1..];
      (if lo <= h[0].at <= hi && h[0] !in skip then [h[0]] else []) + Slice(h[1..], lo, hi, skip)
  }

  lemma {:induction false} SliceAscends(h: seq<Message>, lo: int, hi: int, skip: set<Message>)
    requires Ascending(h)
    ensures Ascending(Slice(h, lo, hi, skip))
  {
    if h != [] {
      SliceAscends(h[1..], lo, hi, skip);
      var rest := Slice(h[1..], lo, hi, skip);
      forall j | 0 <= j < |rest| ensures MessageBefore(h[0], rest[j]) {
        assert rest[j] in h[1..];
      }
    }
  }

  function Last(ms: seq<Message>, limit: nat): seq<Message> {
    if |ms| <= limit then ms else ms[|ms| - limit..]
  }

  /** The newest messages inside the bounds; of the one query that names `lo0` and `hi0`, `m` is left out. */
  function Leaving(h: seq<Message>, lo0: int, hi0: int, limit0: nat, m: Message): Server {
    (lo: int, hi: int, limit: nat) =>
      Ok(RowsOf(Last(Slice(h, lo, hi, if lo == lo0 && hi == hi0 && limit == limit0 then {m} else {}), limit)))
  }

  lemma TailCounts(xs: seq<Message>, k: nat, m: Message, s: set<Message>)
    requires DistinctKeys(xs) && k <= |xs|
    requires forall g :: g in s ==> g == m || g in xs[k..]
    ensures |s| <= |xs| - k + 1
  {
    var tail := xs[k..];
    DistinctCount(tail);
    var late := set g | g in tail;
    assert s <= late + {m};
    assert |(late + {m}) - s| == |late + {m}| - |s|;
  }

  /** With the first `k` of the slice older than `m`, what is at least as late as `m` is `m` and what follows them. */
  lemma LateOnes(h: seq<Message>, lo: int, hi: int, m: Message, k: nat)
    requires Ascending(h) && m in h && lo <= m.at <= hi
    requires k <= |Slice(h, lo, hi, {m})| && forall i :: 0 <= i < k ==> Slice(h, lo, hi, {m})[i].at < m.at
    ensures |Within(h, m.at, hi)| <= |Slice(h, lo, hi, {m})| - k + 1
  {
    hide Slice, Ascending, DistinctKeys;
    var xs := Slice(h, lo, hi, {m});
    SliceAscends(h, lo, hi, {m});
    AscendingDistinct(xs);
    forall g | g in Within(h, m.at, hi) ensures g == m || g in xs[k..] {
      if g != m {
        assert g in xs;
        assert xs == xs[..k] + xs[k..];
        assert forall x :: x in xs[..k] ==> x.at < m.at;
      }
    }
    TailCounts(xs, k, m, Within(h, m.at, hi));
  }

  lemma LateAt(h: seq<Message>, lo: int, hi: int, limit: nat, m: Message, k: int)
    requires Ascending(h) && m in h && lo <= m.at <= hi && |Within(h, m.at, hi)| > limit
    requires 0 <= k < |Slice(h, lo, hi, {m})| && k >= |Slice(h, lo, hi, {m})| - limit
    ensures Slice(h, lo, hi, {m})[k].at >= m.at
  {
    hide Slice, Within;
    var xs := Slice(h, lo, hi, {m});
    SliceAscends(h, lo, hi, {m});
    if xs[k].at < m.at {
      forall i | 0 <= i <= k ensures xs[i].at < m.at {
        assert i < k ==> MessageBefore(xs[i], xs[k]);
      }
      LateOnes(h, lo, hi, m, k + 1);
      assert false;
    }
  }

  /** Of a slice without `m`, the last `limit` are no older than `m`, if so many are. */
  lemma LastAreLate(h: seq<Message>, lo: int, hi: int, limit: nat, m: Message)
    requires Ascending(h) && m in h && lo <= m.at <= hi && |Within(h, m.at, hi)| > limit
    ensures var xs := Slice(h, lo, hi, {m});
      |xs| >= limit && forall g :: g in Last(xs, limit) ==> g.at >= m.at
  {
    hide Slice, Within, Ascending;
    var xs := Slice(h, lo, hi, {m});
    LateOnes(h, lo, hi, m, 0);
    forall g | g in Last(xs, limit) ensures g.at >= m.at {
      var j :| 0 <= j < |Last(xs, limit)| && Last(xs, limit)[j] == g;
      LateAt(h, lo, hi, limit, m, |xs| - limit + j);
    }
  }

  lemma LastHolds(xs: seq<Message>, limit: nat, i: nat)
    requires i < |xs|
    ensures i >= |xs| - limit ==> xs[i] in Last(xs, limit)
  {
    var from := if |xs| <= limit then 0 else |xs| - limit;
    assert i >= from ==> Last(xs, limit)[i - from] == xs[i];
  }

  /** What the last `limit` of a list in order leave out is no newer than what they hold. */
  lemma LastAreNewest(xs: seq<Message>, limit: nat, m: Message, g: Message)
    requires Ascending(xs) && m in xs && m !in Last(xs, limit) && g in Last(xs, limit)
    ensures |Last(xs, limit)| == limit && m.at <= g.at
  {
    var last := Last(xs, limit);
    var i :| 0 <= i < |xs| && xs[i] == m;
    var j :| 0 <= j < |last| && last[j] == g;
    LastHolds(xs, limit, i);
    assert MessageBefore(xs[i], xs[|xs| - limit + j]);
  }

  /** A list in order, said as rows, is the newest inside the bounds when what it leaves out is no newer. */
  lemma SaysNewest(ms: seq<Message>, h: seq<Message>, lo: int, hi: int, limit: nat)
    requires Ascending(ms) && Nameless(ms) && |ms| <= limit && forall m :: m in ms ==> m in Within(h, lo, hi)
    requires forall x, g :: x in Within(h, lo, hi) && x !in ms && g in ms ==> x.at <= g.at
    requires forall x :: x in Within(h, lo, hi) && x !in ms ==> |ms| >= limit
    ensures NewestWithin(RowsOf(ms), h, lo, hi, limit)
  {
    hide Dated, RowsOf;
    RowsSay(ms);
    AscendingDistinct(ms);
  }

  lemma LastSays(h: seq<Message>, lo: int, hi: int, limit: nat)
    requires Ascending(h) && Nameless(h)
    ensures NewestWithin(RowsOf(Last(Slice(h, lo, hi, {}), limit)), h, lo, hi, limit)
  {
    hide Slice, RowsOf, NewestWithin;
    var xs := Slice(h, lo, hi, {});
    var last := Last(xs, limit);
    SliceAscends(h, lo, hi, {});
    forall x, g | x in Within(h, lo, hi) && x !in last && g in last ensures x.at <= g.at {
      LastAreNewest(xs, limit, x, g);
    }
    SaysNewest(last, h, lo, hi, limit);
  }

  lemma CutSays(h: seq<Message>, lo: int, hi: int, limit: nat, m: Message)
    requires Ascending(h) && Nameless(h) && m in h && lo <= m.at <= hi && |Within(h, m.at, hi)| > limit
    ensures NewestWithin(RowsOf(Last(Slice(h, lo, hi, {m}), limit)), h, lo, hi, limit)
  {
    hide Slice, RowsOf, NewestWithin;
    var xs := Slice(h, lo, hi, {m});
    var last := Last(xs, limit);
    SliceAscends(h, lo, hi, {m});
    LastAreLate(h, lo, hi, limit, m);
    forall x, g | x in Within(h, lo, hi) && x !in last && g in last ensures x.at <= g.at {
      if x != m {
        LastAreNewest(xs, limit, x, g);
      }
    }
    SaysNewest(last, h, lo, hi, limit);
  }

  lemma LeavingServes(h: seq<Message>, lo: int, hi: int, limit: nat, m: Message)
    requires Ascending(h) && Nameless(h) && m in h && lo <= m.at <= hi && |Within(h, m.at, hi)| > limit
    ensures Serves(Leaving(h, lo, hi, limit, m), h) && Answers(Leaving(h, lo, hi, limit, m))
  {
    hide NewestWithin, Slice, RowsOf;
    forall a: int, b: int, n: nat
      ensures NewestWithin(Leaving(h, lo, hi, limit, m)(a, b, n).value, h, a, b, n)
    {
      if a == lo && b == hi && n == limit {
        CutSays(h, lo, hi, limit, m);
      } else {
        LastSays(h, a, b, n);
      }
    }
  }

  /** Of the unread messages of one exposed instant, the first. */
  lemma FirstExposed(h: seq<Message>, after: Cursor, lo: int, hi: int, limit: nat, i: nat) returns (m: Message)
    requires Ascending(h) && i < |After(h, after)|
    requires Exposes(h, after, lo, hi, limit, After(h, after)[i])
    ensures Exposes(h, after, lo, hi, limit, m) && m in After(h, after)
    ensures forall g :: g in After(h, after) && g.at >= m.at && g != m ==> MessageBefore(m, g)
    decreases i
  {
    var u := After(h, after);
    AfterMembers(h, after);
    if j: nat :| j < i && u[j].at == u[i].at {
      m := FirstExposed(h, after, lo, hi, limit, j);
    } else {
      m := u[i];
      forall g | g in u && g.at >= m.at && g != m ensures MessageBefore(m, g) {
        var k :| 0 <= k < |u| && u[k] == g;
        assert k < i ==> MessageBefore(u[k], u[i]);
      }
    }
  }

  lemma {:induction false} SearchStays(server: Server, h: seq<Message>, after: Cursor, now: int, limit: nat,
                                       from: int, window: int)
    requires window >= QUARTER && Serves(server, h) && Search(server, after, now, limit, from, window).Ok?
    ensures forall g :: g in Search(server, after, now, limit, from, window).value ==>
              g in h && !after.Passed(g) && g.at >= Trunc(from)
    decreases Ahead(from, now), window
  {
    hide PageOf, Unread, Serves;
    if from < now {
      var got := PageOf(server, from, from + window, limit).value;
      PageBounds(server, h, from, window, limit);
      UnreadMembers(got, after);
      if |got| >= limit && window > MINUTE {
        SearchStays(server, h, after, now, limit, from, window / 4);
      } else if Unread(got, after) == [] {
        SearchStays(server, h, after, now, limit, from + window, window * 2);
      }
    }
  }

  ghost predicate Answers(server: Server) {
    forall lo, hi, limit :: server(lo, hi, limit).Ok?
  }

  lemma {:induction false} SearchAnswers(server: Server, after: Cursor, now: int, limit: nat, from: int, window: int)
    requires window >= QUARTER && Answers(server)
    ensures PageOf(server, from, from + window, limit).Ok?
    ensures Search(server, after, now, limit, from, window).Ok?
    decreases Ahead(from, now), window
  {
    hide Unread, Dated, StableSort;
    if from < now {
      var got := PageOf(server, from, from + window, limit).value;
      if |got| >= limit && window > MINUTE {
        SearchAnswers(server, after, now, limit, from, window / 4);
      } else if Unread(got, after) == [] {
        SearchAnswers(server, after, now, limit, from + window, window * 2);
      }
    }
  }

  /** Where the search is: still a second before the cursor, or well past it. */
  predicate Placed(after: Cursor, from: int) {
    from == after.at - SECOND || from >= after.at + QUARTER - SECOND
  }

  /** The page of the server that leaves `m` out. */
  lemma LeavingPage(h: seq<Message>, from: int, to: int, limit: nat, m: Message)
    requires Ascending(h) && Nameless(h) && limit > 0
    requires m in h && Trunc(from) <= m.at <= Trunc(to) && |Within(h, m.at, Trunc(to))| > limit
    ensures var page := PageOf(Leaving(h, Trunc(from), Trunc(to), limit, m), from, to, limit);
      && page.Ok? && |page.value| == limit && DistinctKeys(page.value)
      && forall g :: g in page.value ==> g in h && g != m && g.at >= m.at
  {
    hide Dated, Slice, RowsOf, StableSort;
    var xs := Slice(h, Trunc(from), Trunc(to), {m});
    var last := Last(xs, limit);
    SliceAscends(h, Trunc(from), Trunc(to), {m});
    LastAreLate(h, Trunc(from), Trunc(to), limit, m);
    assert Ascending(last);
    RowsSay(last);
    AscendingDistinct(last);
    SortDistinct(last);
    SortMembers(last, MessageBefore);
  }

  /** The message left out stays out of the answer, and what is answered comes after it. */
  lemma LeftOutForGood(server: Server, h: seq<Message>, after: Cursor, now: int, limit: nat, from: int, window: int, m: Message)
    requires window >= QUARTER && Serves(server, h) && Answers(server)
    requires from < now && Placed(after, from) && window <= MINUTE
    requires m in h && !after.Passed(m) && Trunc(from) <= m.at
    requires var page := PageOf(server, from, from + window, limit);
      page.Ok? && page.value != [] && forall g :: g in page.value ==> g in h && g != m && g.at >= m.at
    ensures var answer := Search(server, after, now, limit, from, window);
      && answer.Ok? && (answer.value == [] ==> m.at == after.at)
      && forall g :: g in answer.value ==> g in h && !after.Passed(g) && g != m && g.at >= m.at
  {
    hide PageOf, Unread, Serves, Answers;
    SearchAnswers(server, after, now, limit, from, window);
    var got := PageOf(server, from, from + window, limit).value;
    UnreadMembers(got, after);
    if Unread(got, after) == [] {
      assert got[0] in got;
      assert m.at == after.at;
      SearchAnswers(server, after, now, limit, from + window, window * 2);
      SearchStays(server, h, after, now, limit, from + window, window * 2);
      LaterThanCursor(after, from, window, m);
    }
  }

  /** An exposed window is looked into wrongly by some serving server. */
  lemma LeavingIsWrong(h: seq<Message>, after: Cursor, now: int, limit: nat, from: int, window: int) returns (server: Server)
    requires window >= QUARTER && Ascending(h) && Nameless(h) && limit > 0 && after.at <= Trunc(now)
    requires from < now && Placed(after, from) && (window <= MINUTE || |Within(h, Trunc(from), Trunc(from + window))| < limit)
    requires Exposed(h, after, Trunc(from), Trunc(from + window), limit)
    ensures Serves(server, h) && Answers(server)
    ensures !Right(Search(server, after, now, limit, from, window), h, after, now)
  {
    hide PageOf, Serves, Search, Leaving, Nameless, Answers, Placed;
    var to := from + window;
    var u := After(h, after);
    AfterMembers(h, after);
    var x :| Exposes(h, after, Trunc(from), Trunc(to), limit, x);
    var i :| 0 <= i < |u| && u[i] == x;
    var m := FirstExposed(h, after, Trunc(from), Trunc(to), limit, i);
    server := Leaving(h, Trunc(from), Trunc(to), limit, m);
    LeavingServes(h, Trunc(from), Trunc(to), limit, m);
    LeavingPage(h, from, to, limit, m);
    NarrowsNot(h, from, to, limit, m, window);
    LeftOutForGood(server, h, after, now, limit, from, window, m);
    var res := Search(server, after, now, limit, from, window).value;
    if res != [] {
      assert res[0] in res && res[0] in u;
      NotAStart(res, u, m, res[0]);
    }
  }

  lemma NarrowsNot(h: seq<Message>, from: int, to: int, limit: nat, m: Message, window: int)
    requires m in h && Trunc(from) <= m.at <= Trunc(to) && |Within(h, m.at, Trunc(to))| > limit
    requires window <= MINUTE || |Within(h, Trunc(from), Trunc(to))| < limit
    ensures window <= MINUTE
  {
    var a, b := Within(h, m.at, Trunc(to)), Within(h, Trunc(from), Trunc(to));
    assert a <= b;
    assert |b - a| == |b| - |a|;
  }

  lemma LaterThanCursor(after: Cursor, from: int, window: int, m: Message)
    requires window >= QUARTER && Placed(after, from) && m.at == after.at && Trunc(from) <= m.at
    ensures Trunc(from + window) > m.at
  {
  }

  lemma {:induction false} UnclearIsWrong(h: seq<Message>, after: Cursor, now: int, limit: nat, from: int, window: int)
      returns (server: Server)
    requires window >= QUARTER && Ascending(h) && Nameless(h) && limit > 0 && after.at <= Trunc(now)
    requires Placed(after, from) && !Clear(h, after, now, limit, from, window)
    ensures Serves(server, h) && Answers(server)
    ensures !Right(Search(server, after, now, limit, from, window), h, after, now)
    decreases Ahead(from, now), window
  {
    hide PageOf, Serves, Unread, Exposed, News, Right, Nameless, Answers;
    var lo, hi := Trunc(from), Trunc(from + window);
    if |Within(h, lo, hi)| >= limit && window > MINUTE {
      server := UnclearIsWrong(h, after, now, limit, from, window / 4);
      SearchAnswers(server, after, now, limit, from, window);
      OnToNarrower(server, h, after, now, limit, from, window);
    } else if Exposed(h, after, lo, hi, limit) {
      server := LeavingIsWrong(h, after, now, limit, from, window);
    } else {
      server := UnclearIsWrong(h, after, now, limit, from + window, window * 2);
      SearchAnswers(server, after, now, limit, from, window);
      OnToNext(server, h, after, now, limit, from, window);
    }
  }

  lemma OnToNarrower(server: Server, h: seq<Message>, after: Cursor, now: int, limit: nat, from: int, window: int)
    requires Serves(server, h) && from < now && window > MINUTE && |Within(h, Trunc(from), Trunc(from + window))| >= limit
    requires PageOf(server, from, from + window, limit).Ok?
    ensures Search(server, after, now, limit, from, window) == Search(server, after, now, limit, from, window / 4)
  {
    hide PageOf, Serves;
    PageFull(server, h, from, from + window, limit);
  }

  lemma OnToNext(server: Server, h: seq<Message>, after: Cursor, now: int, limit: nat, from: int, window: int)
    requires window >= QUARTER && Serves(server, h) && from < now && !News(h, after, Trunc(from), Trunc(from + window))
    requires window <= MINUTE || |Within(h, Trunc(from), Trunc(from + window))| < limit
    requires PageOf(server, from, from + window, limit).Ok?
    ensures Search(server, after, now, limit, from, window) == Search(server, after, now, limit, from + window, window * 2)
  {
    hide PageOf, Serves, Unread;
    var got := PageOf(server, from, from + window, limit).value;
    PageFull(server, h, from, from + window, limit);
    PageBounds(server, h, from, window, limit);
    UnreadMembers(got, after);
    NoneIsNothing(Unread(got, after));
  }

  /** The reading is right on every serving server exactly when the history is clear, which is
      asked of the history, the cursor, the clock and the limit alone. */
  lemma ReadRightExactly(h: seq<Message>, after: Cursor, now: int, limit: int)
    requires Ascending(h) && Nameless(h) && after.at <= Trunc(now)
    ensures AlwaysRight(h, after, now, limit)
       <==> Clear(h, after, now, Limit(limit), after.at - SECOND, FIRST_WINDOW)
  {
    hide Search, Serves, Right, Clear;
    var n, from := Limit(limit), after.at - SECOND;
    if Clear(h, after, now, n, from, FIRST_WINDOW) {
      forall m | m in h && !after.Passed(m) ensures m.at > Trunc(from) {
        assert m.at >= after.at;
      }
      forall server | Serves(server, h) ensures Right(MessagesOf(server, after, now, limit), h, after, now) {
        ClearIsRight(server, h, after, now, n, from, FIRST_WINDOW);
      }
    } else {
      var server := UnclearIsWrong(h, after, now, n, from, FIRST_WINDOW);
      assert MessagesOf(server, after, now, limit) == Search(server, after, now, n, from, FIRST_WINDOW);
    }
  }
}
