/** Between the Chat reader and the service: one way of asking lists the newest messages and
    keeps those after the bound, the other lists the oldest after it and drops the deleted. */
module ChatClient {
  import opened Basics
  import opened ChatOrder
  import opened ChatSource
  import opened GChat

  // ---- the newest, and of them what follows the bound ----

  /** A listed message; its sender is a user, or else a name to show. */
  datatype GogMessage = GogMessage(resource: string, sender: string, text: string, created: int)

  function OfGog(m: GogMessage): ApiMessage {
    if "users/" <= m.sender then ApiMessage(m.resource, m.text, m.sender, "", false, m.created)
    else ApiMessage(m.resource, m.text, "", m.sender, false, m.created)
  }

  /** What was listed newest first, turned round, without what the bound has behind it. */
  function FromGog(listed: seq<GogMessage>, after: int): seq<ApiMessage> {
    if listed == [] then []
    else
      var m := listed[|listed|-1];
      (if m.created > after then [OfGog(m)] else []) + FromGog(listed[..|listed|-1], after)
  }

  method ReadGog(listed: seq<GogMessage>, after: int) returns (out: seq<ApiMessage>)
    ensures out == FromGog(listed, after)
  {
    out := [];
    assert listed[..|listed|] == listed;
    for i := |listed| downto 0
      invariant out + FromGog(listed[..i], after) == FromGog(listed, after)
    {
      assert listed[..i+1][..i] == listed[..i];
      var m := OfGog(listed[i]);
      if m.created > after {
        out := out + [m];
      }
    }
  }

  /** A listed message as the syncer has it. */
  function SeenAs(me: Me, space: string, m: GogMessage): Message {
    MessageOf(me, space, OfGog(m))
  }

  function Seen(me: Me, space: string, ms: seq<GogMessage>): (r: seq<Message>)
    ensures |r| == |ms| && forall i :: 0 <= i < |ms| ==> r[i] == SeenAs(me, space, ms[i])
  {
    seq(|ms|, i requires 0 <= i < |ms| => SeenAs(me, space, ms[i]))
  }

  /** The newest of a space's messages, up to `limit`, newest first: which of an instant's a cut
      takes, and in which order they come, is the service's choice. */
  ghost predicate NewestListed(listed: seq<GogMessage>, all: seq<GogMessage>, limit: int) {
    && |listed| <= limit
    && (forall i, j :: 0 <= i < j < |listed| ==> listed[i] != listed[j] && listed[i].created >= listed[j].created)
    && (forall m :: m in listed ==> m in all)
    && (forall m, g :: m in all && m !in listed && g in listed ==> m.created <= g.created)
    && (forall m :: m in all && m !in listed ==> |listed| >= limit)
  }

  function AnswerOfGog(listed: seq<GogMessage>, me: Me, space: string, after: Cursor, limit: int): seq<Message> {
    Settle(MessagesOf(me, space, FromGog(listed, after.at - SECOND)), after, limit)
  }

  /** The messages of a history no older than `t`. */
  function Since(h: seq<Message>, t: int): seq<Message> {
    if h == [] || h[0].at >= t then h else Since(h[1..], t)
  }

  lemma {:induction false} SinceMembers(h: seq<Message>, t: int)
    requires Ascending(h)
    ensures forall m :: m in Since(h, t) <==> m in h && m.at >= t
    ensures |Since(h, t)| <= |h| && Since(h, t) == h[|h| - |Since(h, t)|..]
  {
    if h != [] && h[0].at < t {
      SinceMembers(h[1..], t);
      assert forall m :: m in h <==> m == h[0] || m in h[1..];
    }
  }

  lemma GogStep(listed: seq<GogMessage>, me: Me, space: string, bound: int)
    requires listed != []
    ensures var init, last := listed[..|listed|-1], listed[|listed|-1];
      MessagesOf(me, space, FromGog(listed, bound)) ==
      (if last.created > bound then [SeenAs(me, space, last)] else []) + MessagesOf(me, space, FromGog(init, bound))
  {
    var init, last := listed[..|listed|-1], listed[|listed|-1];
    SeenApart(me, space, if last.created > bound then [OfGog(last)] else [], FromGog(init, bound));
  }

  lemma {:induction false} FromGogHas(listed: seq<GogMessage>, me: Me, space: string, bound: int)
    ensures var out := MessagesOf(me, space, FromGog(listed, bound));
      && |out| <= |listed| && (forall m :: m in out <==> exists g :: g in listed && g.created > bound && SeenAs(me, space, g) == m)
      && ((forall g :: g in listed ==> g.created > bound) ==> |out| == |listed|)
    decreases |listed|
  {
    if listed != [] {
      hide MessagesOf, FromGog, SeenAs;
      var init, last := listed[..|listed|-1], listed[|listed|-1];
      FromGogHas(init, me, space, bound);
      GogStep(listed, me, space, bound);
      assert forall g :: g in listed <==> g in init || g == last;
    }
  }

  lemma SeenApart(me: Me, space: string, a: seq<ApiMessage>, b: seq<ApiMessage>)
    ensures MessagesOf(me, space, a + b) == MessagesOf(me, space, a) + MessagesOf(me, space, b)
  {
  }

  /** Of a history's messages past the bound, those left out are no newer than those given, and
      are left out of a full page only. */
  ghost predicate NewestAfter(out: seq<Message>, h: seq<Message>, bound: int, limit: int) {
    && DistinctKeys(out) && (forall m :: m in out ==> m in h)
    && (forall m :: m in h && m.at > bound && m !in out ==> |out| >= limit)
    && (forall m, g :: m in h && m.at > bound && m !in out && g in out ==> m.at <= g.at)
  }

  lemma {:induction false} FromGogDistinct(listed: seq<GogMessage>, me: Me, space: string, bound: int)
    requires DistinctKeys(Seen(me, space, listed))
    ensures DistinctKeys(MessagesOf(me, space, FromGog(listed, bound)))
    decreases |listed|
  {
    if listed != [] {
      hide MessagesOf, FromGog, SeenAs, CursorOn;
      var init, last := listed[..|listed|-1], listed[|listed|-1];
      assert Seen(me, space, init) == Seen(me, space, listed)[..|listed|-1];
      FromGogDistinct(init, me, space, bound);
      GogStep(listed, me, space, bound);
      var rest := MessagesOf(me, space, FromGog(init, bound));
      forall m | m in rest ensures CursorOn(m) != CursorOn(SeenAs(me, space, last)) {
        KeyOnce(listed, me, space, bound, m);
      }
      FirstDistinct(SeenAs(me, space, last), rest);
    }
  }

  lemma FirstDistinct(m: Message, rest: seq<Message>)
    requires DistinctKeys(rest) && forall g :: g in rest ==> CursorOn(g) != CursorOn(m)
    ensures DistinctKeys([m] + rest)
  {
  }

  lemma KeyOnce(listed: seq<GogMessage>, me: Me, space: string, bound: int, m: Message)
    requires listed != [] && DistinctKeys(Seen(me, space, listed))
    requires m in MessagesOf(me, space, FromGog(listed[..|listed|-1], bound))
    ensures CursorOn(m) != CursorOn(SeenAs(me, space, listed[|listed|-1]))
  {
    hide MessagesOf, FromGog, SeenAs;
    FromGogHas(listed[..|listed|-1], me, space, bound);
    var g :| g in listed[..|listed|-1] && SeenAs(me, space, g) == m;
    var i :| 0 <= i < |listed| - 1 && listed[i] == g;
    assert Seen(me, space, listed)[i] == m;
  }

  /** Distinct messages of a space have distinct keys. */
  lemma ListedDistinct(listed: seq<GogMessage>, all: seq<GogMessage>, me: Me, space: string)
    requires Ascending(Seen(me, space, all))
    requires forall i, j :: 0 <= i < j < |listed| ==> listed[i] != listed[j]
    requires forall m :: m in listed ==> m in all
    ensures DistinctKeys(Seen(me, space, listed))
  {
    var h := Seen(me, space, all);
    AscendingDistinct(h);
    forall i, j | 0 <= i < j < |listed| ensures CursorOn(SeenAs(me, space, listed[i])) != CursorOn(SeenAs(me, space, listed[j])) {
      assert listed[i] in listed && listed[j] in listed;
      var a :| 0 <= a < |all| && all[a] == listed[i];
      var b :| 0 <= b < |all| && all[b] == listed[j];
      assert CursorOn(h[a]) != CursorOn(h[b]);
    }
  }

  lemma GogGivesNewest(listed: seq<GogMessage>, all: seq<GogMessage>, me: Me, space: string, bound: int, limit: int)
    requires NewestListed(listed, all, limit) && Ascending(Seen(me, space, all))
    ensures NewestAfter(MessagesOf(me, space, FromGog(listed, bound)), Seen(me, space, all), bound, limit)
  {
    hide FromGog, MessagesOf, Ascending, DistinctKeys;
    var h, out := Seen(me, space, all), MessagesOf(me, space, FromGog(listed, bound));
    ListedDistinct(listed, all, me, space);
    FromGogDistinct(listed, me, space, bound);
    FromGogHas(listed, me, space, bound);
    forall m | m in out ensures m in h {
      var g :| g in listed && SeenAs(me, space, g) == m;
      var i :| 0 <= i < |all| && all[i] == g;
      assert h[i] == m;
    }
    forall m | m in h && m.at > bound && m !in out
      ensures |out| >= limit && forall g :: g in out ==> m.at <= g.at {
      var i :| 0 <= i < |all| && h[i] == m;
      assert SeenAs(me, space, all[i]) == m && all[i] !in listed;
    }
  }

  /** One message unread at most, or no more than `limit` as new as the first unread one. */
  ghost predicate GogSuffices(h: seq<Message>, after: Cursor, limit: int) {
    |After(h, after)| <= 1 || |Since(h, After(h, after)[0].at)| <= limit
  }

  /** An answer that holds all that is unread is faithful. */
  lemma AllGiven(out: seq<Message>, h: seq<Message>, after: Cursor, limit: int)
    requires Ascending(h) && DistinctKeys(out) && forall m :: m in out ==> m in h
    requires forall m :: m in After(h, after) ==> m in out
    ensures Faithful(Settle(out, after, limit), h, after)
  {
    hide Unread;
    AfterMembers(h, after);
    UnreadMembers(out, after);
    UnreadAscending(out, after);
    AscendingUnique(Unread(out, after), After(h, after));
    UnreadOfAnswer(After(h, after), after);
  }

  /** A page of only passed messages, when it is full, says nothing and claims nothing. */
  lemma StallFaithful(out: seq<Message>, h: seq<Message>, after: Cursor, limit: int)
    requires limit > 0 && |out| >= limit && forall m :: m in out ==> after.Passed(m)
    ensures Faithful(Settle(out, after, limit), h, after)
  {
    hide Unread;
    UnreadMembers(out, after);
    NoneIsNothing(Unread(out, after));
  }

  lemma FewAreGiven(out: seq<Message>, h: seq<Message>, after: Cursor, limit: int, m: Message)
    requires Ascending(h) && NewestAfter(out, h, after.at - SECOND, limit)
    requires m in After(h, after) && |Since(h, After(h, after)[0].at)| <= limit
    ensures m in out
  {
    hide Since, After;
    var u := After(h, after);
    AfterMembers(h, after);
    SinceMembers(h, u[0].at);
    var i :| 0 <= i < |u| && u[i] == m;
    assert i > 0 ==> MessageBefore(u[0], m);
    assert u[0] in u;
    if m !in out {
      GivenAreLate(out, Since(h, u[0].at), m);
    }
  }

  lemma GivenAreLate(out: seq<Message>, late: seq<Message>, m: Message)
    requires DistinctKeys(out) && |late| <= |out| && m in late && forall g :: g in out ==> g in late
    ensures m in out
  {
    SetNoLarger(late);
    DistinctFill(out, set g | g in late);
  }

  lemma {:induction false} SetNoLarger(ms: seq<Message>)
    ensures |set g | g in ms| <= |ms|
  {
    if ms != [] {
      SetNoLarger(ms[1..]);
      assert (set g | g in ms) == {ms[0]} + (set g | g in ms[1..]);
    }
  }

  lemma GogFaithful(out: seq<Message>, h: seq<Message>, after: Cursor, limit: int)
    requires limit > 0 && Ascending(h) && NewestAfter(out, h, after.at - SECOND, limit) && GogSuffices(h, after, limit)
    ensures Faithful(Settle(out, after, limit), h, after)
  {
    hide Settle, Faithful, Since;
    var u := After(h, after);
    AfterMembers(h, after);
    if |u| <= 1 {
      if u == [] || u[0] in out {
        AllGiven(out, h, after, limit);
      } else {
        forall m | m in out ensures after.Passed(m) {
          assert m !in u;
        }
        assert u[0] in u && u[0].at > after.at - SECOND;
        StallFaithful(out, h, after, limit);
      }
    } else {
      forall m | m in u ensures m in out {
        FewAreGiven(out, h, after, limit, m);
      }
      AllGiven(out, h, after, limit);
    }
  }

  // ---- a listing that leaves the first unread message out ----

  /** Of `n` places but for `i`, the last but `x`. */
  function PlaceBut(n: nat, i: nat, x: nat): (p: int)
    requires i < n && x < n - 1
    ensures 0 <= p < n && p != i && p >= n - 2 - x
  {
    if n - 2 - x < i then n - 2 - x else n - 1 - x
  }

  /** The newest `limit`, newest first, without the one at `i`. */
  function ListedBut(all: seq<GogMessage>, i: nat, limit: nat): (r: seq<GogMessage>)
    requires i < |all| && limit < |all|
    ensures |r| == limit && forall x :: 0 <= x < limit ==> r[x] == all[PlaceBut(|all|, i, x)]
  {
    seq(limit, x requires 0 <= x < limit => all[PlaceBut(|all|, i, x)])
  }

  /** A space's messages in order: by time, and each once. */
  lemma SeenInTime(all: seq<GogMessage>, me: Me, space: string, a: nat, b: nat)
    requires Ascending(Seen(me, space, all)) && a < b < |all|
    ensures all[a].created <= all[b].created && all[a] != all[b]
  {
    var h := Seen(me, space, all);
    assert MessageBefore(h[a], h[b]);
    CursorOrder(CursorOn(h[a]), CursorOn(h[b]), CursorOn(h[a]));
  }

  lemma LateFrom(all: seq<GogMessage>, me: Me, space: string, t: int, p: nat)
    requires Ascending(Seen(me, space, all)) && p < |all| && p >= |all| - |Since(Seen(me, space, all), t)|
    ensures all[p].created >= t
  {
    hide Since;
    var h := Seen(me, space, all);
    SinceMembers(h, t);
    var late := Since(h, t);
    assert late[p - (|h| - |late|)] == h[p];
  }

  /** When more than `limit` are as new as the one at `i`, the service may list `limit` without it. */
  lemma ListedButIsNewest(all: seq<GogMessage>, me: Me, space: string, i: nat, limit: nat)
    requires Ascending(Seen(me, space, all)) && i < |all| && limit < |all|
    requires |Since(Seen(me, space, all), all[i].created)| > limit
    ensures NewestListed(ListedBut(all, i, limit), all, limit) && all[i] !in ListedBut(all, i, limit)
  {
    hide Since, Ascending, ListedBut, Seen;
    var listed := ListedBut(all, i, limit);
    forall x, y | 0 <= x < y < limit ensures listed[x] != listed[y] && listed[x].created >= listed[y].created {
      SeenInTime(all, me, space, PlaceBut(|all|, i, y), PlaceBut(|all|, i, x));
    }
    forall x | 0 <= x < limit ensures listed[x] != all[i] {
      var p := PlaceBut(|all|, i, x);
      SeenInTime(all, me, space, if p < i then p else i, if p < i then i else p);
    }
    forall m, g | m in all && m !in listed && g in listed ensures m.created <= g.created {
      var x :| 0 <= x < limit && listed[x] == g;
      var p :| 0 <= p < |all| && all[p] == m;
      LeftOutIsOlder(all, me, space, i, limit, p, x);
    }
  }

  lemma ListedHas(all: seq<GogMessage>, i: nat, limit: nat, y: nat)
    requires i < |all| && limit < |all| && y < |all| - 1
    ensures y < limit ==> all[PlaceBut(|all|, i, y)] in ListedBut(all, i, limit)
  {
    var listed := ListedBut(all, i, limit);
    assert y < limit ==> listed[y] in listed;
  }

  lemma LeftOutIsOlder(all: seq<GogMessage>, me: Me, space: string, i: nat, limit: nat, p: nat, x: nat)
    requires Ascending(Seen(me, space, all)) && i < |all| && limit < |all| && p < |all| && x < limit
    requires |Since(Seen(me, space, all), all[i].created)| > limit
    requires all[p] !in ListedBut(all, i, limit)
    ensures all[p].created <= ListedBut(all, i, limit)[x].created
  {
    hide Since, Ascending, Seen;
    var listed := ListedBut(all, i, limit);
    var q := PlaceBut(|all|, i, x);
    if p == i {
      SinceFits(all, me, space, all[i].created);
      LateFrom(all, me, space, all[i].created, q);
    } else {
      var y := if p < i then |all| - 2 - p else |all| - 1 - p;
      assert PlaceBut(|all|, i, y) == p;
      ListedHas(all, i, limit, y);
      SeenInTime(all, me, space, p, q);
    }
  }

  lemma SinceFits(all: seq<GogMessage>, me: Me, space: string, t: int)
    requires Ascending(Seen(me, space, all))
    ensures |Since(Seen(me, space, all), t)| <= |all|
  {
    SinceMembers(Seen(me, space, all), t);
  }

  /** Such a listing of a space with two unread messages or more is answered with a gap. */
  lemma GogSkips(all: seq<GogMessage>, me: Me, space: string, after: Cursor, limit: int) returns (listed: seq<GogMessage>)
    requires limit > 0 && Ascending(Seen(me, space, all)) && !GogSuffices(Seen(me, space, all), after, limit)
    ensures NewestListed(listed, all, limit) && !Faithful(AnswerOfGog(listed, me, space, after, limit), Seen(me, space, all), after)
  {
    hide Since, Ascending, NewestListed, FromGog, MessagesOf, NewestAfter, After, SeenAs, ListedBut, Faithful, Settle;
    var h := Seen(me, space, all);
    var u := After(h, after);
    var i := |h| - |u|;
    AfterEnds(h, after);
    AtOf(all, me, space, i);
    SinceFits(all, me, space, u[0].at);
    listed := ListedBut(all, i, limit);
    ListedButIsNewest(all, me, space, i, limit);
    var out := MessagesOf(me, space, FromGog(listed, after.at - SECOND));
    LastGiven(all, me, space, after, limit, i, listed);
    GogGivesNewest(listed, all, me, space, after.at - SECOND, limit);
    SkipIsSeen(out, h, after, limit);
  }

  lemma AfterEnds(h: seq<Message>, after: Cursor)
    requires Ascending(h) && After(h, after) != []
    ensures var u := After(h, after);
      |u| <= |h| && u[0] == h[|h| - |u|] && u[|u|-1] == h[|h|-1] && !after.Passed(u[|u|-1])
  {
    AfterMembers(h, after);
    var u := After(h, after);
    assert u[|u|-1] in u;
  }

  lemma AtOf(all: seq<GogMessage>, me: Me, space: string, i: nat)
    requires i < |all|
    ensures Seen(me, space, all)[i].at == all[i].created
  {
  }

  /** The first unread message is not given, and the last is. */
  lemma LastGiven(all: seq<GogMessage>, me: Me, space: string, after: Cursor, limit: int, i: nat, listed: seq<GogMessage>)
    requires limit > 0 && i < |all| - 1 && limit < |all| && listed == ListedBut(all, i, limit)
    requires Ascending(Seen(me, space, all)) && !after.Passed(SeenAs(me, space, all[|all|-1]))
    ensures var out := MessagesOf(me, space, FromGog(listed, after.at - SECOND));
      SeenAs(me, space, all[|all|-1]) in out && SeenAs(me, space, all[i]) !in out
  {
    hide FromGog, MessagesOf;
    FromGogHas(listed, me, space, after.at - SECOND);
    assert listed[0] == all[|all|-1] && listed[0] in listed;
    var h := Seen(me, space, all);
    forall g | g in listed ensures SeenAs(me, space, g) != h[i] {
      var x :| 0 <= x < limit && listed[x] == g;
      var p := PlaceBut(|all|, i, x);
      AscendingDistinct(h);
      assert h[p] == SeenAs(me, space, g) && CursorOn(h[p]) != CursorOn(h[i]);
    }
  }

  /** An answer without the first unread message and with a later one is not faithful. */
  lemma SkipIsSeen(out: seq<Message>, h: seq<Message>, after: Cursor, limit: int)
    requires Ascending(h) && |After(h, after)| >= 2 && NewestAfter(out, h, after.at - SECOND, limit)
    requires After(h, after)[0] !in out && After(h, after)[|After(h, after)|-1] in out
    ensures !Faithful(Settle(out, after, limit), h, after)
  {
    hide Unread, After;
    var u, given := After(h, after), Unread(out, after);
    AfterMembers(h, after);
    UnreadMembers(out, after);
    UnreadAscending(out, after);
    var last := u[|u|-1];
    assert last in u && last in given && u[0] in u;
    UnreadOfAnswer(given, after);
    assert MessageBefore(u[0], last);
    NotAStart(given, u, u[0], last);
  }

  /** Asked for the newest, the reader is faithful, whatever listing the service gives, if and only
      if one message at most is unread, or no more than `limit` are as new as the first unread. */
  lemma GogExactly(all: seq<GogMessage>, me: Me, space: string, after: Cursor, limit: int)
    requires limit > 0 && Ascending(Seen(me, space, all))
    ensures GogAlwaysFaithful(all, me, space, after, limit) <==> GogSuffices(Seen(me, space, all), after, limit)
  {
    hide NewestListed, Faithful, AnswerOfGog, Ascending, GogSuffices;
    if GogSuffices(Seen(me, space, all), after, limit) {
      forall listed | NewestListed(listed, all, limit)
        ensures Faithful(AnswerOfGog(listed, me, space, after, limit), Seen(me, space, all), after) {
        GogAnswers(listed, all, me, space, after, limit);
      }
    } else {
      var listed := GogSkips(all, me, space, after, limit);
    }
  }

  ghost predicate GogAlwaysFaithful(all: seq<GogMessage>, me: Me, space: string, after: Cursor, limit: int) {
    forall listed :: NewestListed(listed, all, limit) ==> Faithful(AnswerOfGog(listed, me, space, after, limit), Seen(me, space, all), after)
  }

  lemma GogAnswers(listed: seq<GogMessage>, all: seq<GogMessage>, me: Me, space: string, after: Cursor, limit: int)
    requires limit > 0 && NewestListed(listed, all, limit) && Ascending(Seen(me, space, all))
    requires GogSuffices(Seen(me, space, all), after, limit)
    ensures Faithful(AnswerOfGog(listed, me, space, after, limit), Seen(me, space, all), after)
  {
    hide NewestListed, Ascending, GogSuffices, FromGog, MessagesOf, Faithful, Settle, NewestAfter;
    GogGivesNewest(listed, all, me, space, after.at - SECOND, limit);
    GogFaithful(MessagesOf(me, space, FromGog(listed, after.at - SECOND)), Seen(me, space, all), after, limit);
  }

  // ---- the oldest after the bound, without the deleted ----

  datatype Listed = Listed(m: ApiMessage, deleted: bool)

  function FromGws(page: seq<Listed>): seq<ApiMessage> {
    if page == [] then [] else FromGws(page[..|page|-1]) + (if page[|page|-1].deleted then [] else [page[|page|-1].m])
  }

  method ReadGws(page: seq<Listed>) returns (out: seq<ApiMessage>)
    ensures out == FromGws(page)
  {
    out := [];
    for i := 0 to |page|
      invariant out == FromGws(page[..i])
    {
      assert page[..i+1][..i] == page[..i];
      if page[i].deleted {
        continue;
      }
      out := out + [page[i].m];
    }
    assert page[..|page|] == page;
  }

  function Live(me: Me, space: string, rows: seq<Listed>): seq<Message> {
    MessagesOf(me, space, FromGws(rows))
  }

  function Shown(me: Me, space: string, r: Listed): Message {
    MessageOf(me, space, r.m)
  }

  ghost predicate InOrder(me: Me, space: string, rows: seq<Listed>) {
    forall i, j :: 0 <= i < j < |rows| ==> MessageBefore(Shown(me, space, rows[i]), Shown(me, space, rows[j]))
  }

  /** The oldest after a bound, up to `limit`, the deleted among them. */
  ghost predicate OldestListed(page: seq<Listed>, all: seq<Listed>, me: Me, space: string, bound: int, limit: int) {
    && |page| <= limit && InOrder(me, space, page)
    && (forall r :: r in page ==> r in all && r.m.created > bound)
    && (forall r :: r in all && r.m.created > bound && r !in page ==> |page| >= limit)
    && (forall r, g :: r in all && r.m.created > bound && r !in page && g in page ==> MessageBefore(Shown(me, space, g), Shown(me, space, r)))
  }

  lemma {:induction false} LiveHas(me: Me, space: string, rows: seq<Listed>)
    requires InOrder(me, space, rows)
    ensures Ascending(Live(me, space, rows)) && |Live(me, space, rows)| <= |rows|
    ensures forall m :: m in Live(me, space, rows) <==> exists r :: r in rows && !r.deleted && Shown(me, space, r) == m
    ensures |Live(me, space, rows)| == |rows| <==> forall r :: r in rows ==> !r.deleted
    decreases |rows|
  {
    if rows != [] {
      hide MessagesOf, FromGws, Shown, MessageBefore;
      var init, last := rows[..|rows|-1], rows[|rows|-1];
      LiveHas(me, space, init);
      LiveStep(me, space, rows);
      assert forall r :: r in rows <==> r in init || r == last;
      if !last.deleted {
        forall m | m in Live(me, space, init) ensures MessageBefore(m, Shown(me, space, last)) {
          var r :| r in init && !r.deleted && Shown(me, space, r) == m;
          var i :| 0 <= i < |init| && rows[i] == r;
        }
      }
    }
  }

  lemma LiveStep(me: Me, space: string, rows: seq<Listed>)
    requires rows != []
    ensures var init, last := rows[..|rows|-1], rows[|rows|-1];
      Live(me, space, rows) == Live(me, space, init) + (if last.deleted then [] else [Shown(me, space, last)])
  {
    var init, last := rows[..|rows|-1], rows[|rows|-1];
    SeenApart(me, space, FromGws(init), if last.deleted then [] else [last.m]);
  }

  /** A cut page whose messages were all passed or deleted, one of them deleted: it looks like the
      end of the space, and is not. */
  ghost predicate LooksLikeEnd(page: seq<Listed>, me: Me, space: string, after: Cursor) {
    (forall r :: r in page && !r.deleted ==> after.Passed(Shown(me, space, r))) && exists r :: r in page && r.deleted
  }

  /** Asked for the oldest, the reader is faithful if and only if nothing is unread, or the page
      does not look like the end. */
  lemma GwsExactly(page: seq<Listed>, all: seq<Listed>, me: Me, space: string, after: Cursor, limit: int)
    requires limit > 0 && InOrder(me, space, all) && OldestListed(page, all, me, space, after.at - SECOND, limit)
    ensures Faithful(Settle(Live(me, space, page), after, limit), Live(me, space, all), after)
       <==> After(Live(me, space, all), after) == [] || !LooksLikeEnd(page, me, space, after)
  {
    hide InOrder, Live, Unread, Shown, Ascending;
    var h, out := Live(me, space, all), Live(me, space, page);
    GwsGives(page, all, me, space, after, limit);
    LiveHas(me, space, page);
    LiveHas(me, space, all);
    GwsSettles(out, h, after, limit);
    UnreadMembers(out, after);
    NoneIsNothing(Unread(out, after));
    AfterMembers(h, after);
    NoneIsNothing(After(h, after));
  }

  /** Whatever unread message such a page leaves out comes after all it gives, and the page is then full. */
  lemma GwsGives(page: seq<Listed>, all: seq<Listed>, me: Me, space: string, after: Cursor, limit: int)
    requires InOrder(me, space, all) && OldestListed(page, all, me, space, after.at - SECOND, limit)
    ensures var h, out := Live(me, space, all), Live(me, space, page);
      && (forall m :: m in out ==> m in h)
      && (forall m :: m in h && !after.Passed(m) && m !in out ==> |page| >= limit)
      && (forall m, g :: m in h && !after.Passed(m) && m !in out && g in out ==> MessageBefore(g, m))
  {
    hide Live, InOrder, MessageBefore;
    var h, out := Live(me, space, all), Live(me, space, page);
    LiveHas(me, space, page);
    LiveHas(me, space, all);
    forall m | m in h && !after.Passed(m) && m !in out
      ensures |page| >= limit && forall g :: g in out ==> MessageBefore(g, m) {
      var r :| r in all && !r.deleted && Shown(me, space, r) == m;
      assert r !in page && r.m.created > after.at - SECOND;
      forall g | g in out ensures MessageBefore(g, m) {
        var x :| x in page && !x.deleted && Shown(me, space, x) == g;
      }
    }
  }

  /** Of a page that leaves out later ones only, the answer is faithful iff it is not empty, or nothing is unread. */
  lemma GwsSettles(out: seq<Message>, h: seq<Message>, after: Cursor, limit: int)
    requires limit > 0 && Ascending(h) && Ascending(out) && forall m :: m in out ==> m in h
    requires forall m, g :: m in h && !after.Passed(m) && m !in out && g in out ==> MessageBefore(g, m)
    ensures Faithful(Settle(out, after, limit), h, after)
       <==> After(h, after) == [] || Unread(out, after) != [] || |out| >= limit
  {
    hide Unread;
    var u := Unread(out, after);
    AscendingDistinct(out);
    UnreadMembers(out, after);
    UnreadAscending(out, after);
    UnreadOfAnswer(u, after);
    forall m, g | m in h && !after.Passed(m) && g in u && MessageBefore(m, g) ensures m in u {
      CursorOrder(CursorOn(m), CursorOn(g), CursorOn(m));
    }
    ClosedIsPrefix(u, h, after);
  }

  /** A listed sender is a user when written as one, and else a name to show. */
  lemma SenderSpelled(m: GogMessage)
    ensures var api := OfGog(m);
      && api.name == m.resource && api.text == m.text && api.created == m.created && !api.bot
      && (api.sender != "" ==> api.sender == m.sender && api.senderName == "" && "users/" <= m.sender)
      && (api.sender == "" ==> api.senderName == m.sender && !("users/" <= m.sender))
  {
  }
}
