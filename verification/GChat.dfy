/** Google Chat's side of the source contract: what the syncer is told when a page
    holds only messages its cursor has passed. */
module GChat {
  import opened Basics
  import opened ChatOrder
  import opened ChatSource

  datatype ApiMessage = ApiMessage(name: string, text: string, sender: string, senderName: string,
                                   bot: bool, created: int)
  datatype Me = Me(user: string, name: string)

  /** Chat, as one call sees one space: created after, at most. */
  type Api = (int, int) -> Answer<seq<ApiMessage>>

  /** The account's own user wrote `m`: told by the user id when both sides have one, and
      by name only when the message carries no user. */
  predicate Wrote(me: Me, m: ApiMessage) {
    if m.sender != "" && me.user != "" then m.sender == me.user
    else m.sender == "" && me.name != "" && Lower(TrimSpace(m.senderName)) == Lower(me.name)
  }

  function ShownName(m: ApiMessage): string {
    var name := TrimSpace(m.senderName);
    if !m.bot then name else if name == "" then "an app" else name + " (an app)"
  }

  function MessageOf(me: Me, space: string, m: ApiMessage): Message {
    Message(m.name, space, m.sender, ShownName(m), m.text, m.created, Wrote(me, m))
  }

  function MessagesOf(me: Me, space: string, ms: seq<ApiMessage>): (r: seq<Message>)
    ensures |r| == |ms|
    ensures forall i :: 0 <= i < |ms| ==> r[i] == MessageOf(me, space, ms[i])
  {
    if ms == [] then [] else [MessageOf(me, space, ms[0])] + MessagesOf(me, space, ms[1..])
  }

  /** The answer for a cursor: what it has not passed; but a full page of only passed
      messages is handed back as it is. */
  function Settle(page: seq<Message>, after: Cursor, limit: int): seq<Message> {
    if Unread(page, after) == [] && limit > 0 && |page| >= limit then page else Unread(page, after)
  }

  function AnswerOf(api: Api, me: Me, space: string, after: Cursor, limit: int): Answer<seq<Message>> {
    match api(after.at - SECOND, limit)
    case Failed => Failed
    case Ok(ms) => Ok(Settle(MessagesOf(me, space, ms), after, limit))
  }

  /** An account that saw each sender (the first to), and the last name each was shown by. */
  function NoteVia(via: map<string, string>, account: string, m: ApiMessage): map<string, string> {
    if m.sender != "" && m.sender !in via then via[m.sender := account] else via
  }

  function NoteName(names: map<string, string>, m: ApiMessage): map<string, string> {
    if m.sender != "" && ShownName(m) != "" then names[m.sender := ShownName(m)] else names
  }

  function ViaAfter(via: map<string, string>, account: string, ms: seq<ApiMessage>): map<string, string> {
    if ms == [] then via else NoteVia(ViaAfter(via, account, ms[..|ms|-1]), account, ms[|ms|-1])
  }

  function NamesAfter(names: map<string, string>, ms: seq<ApiMessage>): map<string, string> {
    if ms == [] then names else NoteName(NamesAfter(names, ms[..|ms|-1]), ms[|ms|-1])
  }

  /** The reader of one Chat service; `me`, `names` and `via` are caches. */
  class Reader {
    var me: map<string, Me>
    var names: map<string, string>
    var via: map<string, string>

    constructor ()
      ensures me == map[] && names == map[] && via == map[]
    {
      me, names, via := map[], map[], map[];
    }

    /** The account's own user, asked once; an account that cannot say is not read. */
    method Who(account: string, ask: string -> Answer<Me>) returns (r: Answer<Me>)
      modifies `me
      ensures account in old(me) ==> r == Ok(old(me)[account]) && me == old(me)
      ensures account !in old(me) && r.Failed? ==> me == old(me)
      ensures account !in old(me) && r.Ok? ==>
        r == ask(account) && (r.value.user != "" || r.value.name != "") && me == old(me)[account := r.value]
    {
      if account in me {
        return Ok(me[account]);
      }
      r := ask(account);
      if r.Ok? && r.value.user == "" && r.value.name == "" {
        r := Failed;
      }
      if r.Ok? {
        me := me[account := r.value];
      }
    }

    method Note(account: string, m: ApiMessage)
      modifies `names, `via
      ensures via == NoteVia(old(via), account, m) && names == NoteName(old(names), m)
    {
      var name := ShownName(m);
      if m.sender != "" {
        if m.sender !in via {
          via := via[m.sender := account];
        }
        if name != "" {
          names := names[m.sender := name];
        }
      }
    }

    /** One page's messages as the syncer has them, noting who was seen and how shown. */
    method Render(account: string, space: string, own: Me, ms: seq<ApiMessage>) returns (out: seq<Message>)
      modifies `names, `via
      ensures out == MessagesOf(own, space, ms)
      ensures via == ViaAfter(old(via), account, ms)
      ensures names == NamesAfter(old(names), ms)
    {
      out := [];
      for i := 0 to |ms|
        invariant |out| == i && forall j :: 0 <= j < i ==> out[j] == MessageOf(own, space, ms[j])
        invariant via == ViaAfter(old(via), account, ms[..i])
        invariant names == NamesAfter(old(names), ms[..i])
      {
        assert ms[..i+1][..i] == ms[..i] && ms[..i+1][i] == ms[i];
        Note(account, ms[i]);
        out := out + [MessageOf(own, space, ms[i])];
      }
      assert ms[..|ms|] == ms;
    }

    method Messages(account: string, space: string, ask: string -> Answer<Me>, api: Api, after: Cursor, limit: int)
      returns (r: Answer<seq<Message>>)
      modifies this
      ensures r.Ok? ==> account in me && r == AnswerOf(api, me[account], space, after, limit)
      ensures var page := api(after.at - SECOND, limit);
        if r.Ok? then via == ViaAfter(old(via), account, page.value) && names == NamesAfter(old(names), page.value)
        else via == old(via) && names == old(names) && (account in old(me) ==> page.Failed?)
    {
      hide ViaAfter, NamesAfter, MessagesOf, Unread;
      var who := Who(account, ask);
      if who.Failed? {
        return Failed;
      }
      var answer := api(after.at - SECOND, limit);
      if answer.Failed? {
        return Failed;
      }
      var out := Render(account, space, who.value, answer.value);
      var unread := UnreadOf(out, after);
      if |unread| == 0 && limit > 0 && |answer.value| >= limit {
        return Ok(out);
      }
      return Ok(unread);
    }
  }

  /** The last message of a sender that has a name to show. */
  ghost predicate LastNamed(ms: seq<ApiMessage>, i: nat, sender: string) {
    && i < |ms| && ms[i].sender == sender && ShownName(ms[i]) != ""
    && forall j :: i < j < |ms| ==> !(ms[j].sender == sender && ShownName(ms[j]) != "")
  }

  ghost predicate NeverNamed(ms: seq<ApiMessage>, sender: string) {
    forall i :: 0 <= i < |ms| ==> !(ms[i].sender == sender && ShownName(ms[i]) != "")
  }

  /** What the name cache ends as: each sender's last shown name, or as it was for one that
      showed none. */
  lemma {:induction false} NamesEndAs(names: map<string, string>, ms: seq<ApiMessage>, sender: string)
    requires sender != ""
    ensures forall i: nat :: LastNamed(ms, i, sender) ==>
              sender in NamesAfter(names, ms) && NamesAfter(names, ms)[sender] == ShownName(ms[i])
    ensures NeverNamed(ms, sender) ==> (sender in NamesAfter(names, ms) <==> sender in names)
    ensures NeverNamed(ms, sender) && sender in names ==> NamesAfter(names, ms)[sender] == names[sender]
    decreases |ms|
  {
    hide ShownName;
    if ms != [] {
      var init, m := ms[..|ms|-1], ms[|ms|-1];
      NamesEndAs(names, init, sender);
      forall i: nat | LastNamed(ms, i, sender)
        ensures sender in NamesAfter(names, ms) && NamesAfter(names, ms)[sender] == ShownName(ms[i]) {
        if i < |init| {
          assert LastNamed(init, i, sender) && init[i] == ms[i];
        }
      }
      assert NeverNamed(ms, sender) ==> NeverNamed(init, sender);
    }
  }

  /** And the other: the account that saw each sender first, a sender already there keeping theirs. */
  lemma {:induction false} ViaEndsAs(via: map<string, string>, account: string, ms: seq<ApiMessage>, sender: string)
    requires sender != ""
    ensures sender in ViaAfter(via, account, ms) <==> sender in via || exists i :: 0 <= i < |ms| && ms[i].sender == sender
    ensures sender in ViaAfter(via, account, ms) ==>
              ViaAfter(via, account, ms)[sender] == if sender in via then via[sender] else account
    decreases |ms|
  {
    if ms != [] {
      var init, m := ms[..|ms|-1], ms[|ms|-1];
      ViaEndsAs(via, account, init, sender);
      if i :| 0 <= i < |ms| && ms[i].sender == sender {
        assert i < |init| ==> init[i] == ms[i];
      }
      assert forall i :: 0 <= i < |init| ==> init[i] == ms[i];
    }
  }

  // ---- Chat's side ----

  /** The oldest messages after a bound, up to `limit`, a cut taking them in chat order.
      Whether the bound's own instant is included is the API's choice. */
  ghost predicate OldestAfter(ms: seq<Message>, h: seq<Message>, bound: int, limit: int) {
    && DistinctKeys(ms)
    && (forall m :: m in ms ==> m in h && m.at >= bound)
    && (forall m :: m in h && m.at > bound && m !in ms ==>
          |ms| >= limit && forall g :: g in ms ==> MessageBefore(g, m))
  }

  /** Every answer is faithful: whatever is left of it is a prefix of what is unread, and
      it is empty only when nothing follows the cursor. */
  lemma AnswerFaithful(page: seq<Message>, h: seq<Message>, after: Cursor, limit: int)
    requires Ascending(h) && limit > 0
    requires OldestAfter(page, h, after.at - SECOND, limit)
    ensures Faithful(Settle(page, after, limit), h, after)
  {
    var u := Unread(page, after);
    UnreadMembers(page, after);
    UnreadAscending(page, after);
    forall m, g | m in h && !after.Passed(m) && g in u && MessageBefore(m, g) ensures m in u {
      assert m.at > after.at - SECOND;
      CursorOrder(CursorOn(m), CursorOn(g), CursorOn(m));
    }
    ClosedIsPrefix(u, h, after);
    UnreadOfAnswer(u, after);
    if |page| < limit {
      AfterMembers(h, after);
      forall m | m in After(h, after) ensures m in u {
        assert m.at > after.at - SECOND;
      }
      AscendingUnique(u, After(h, after));
    }
  }

  /** The oldest messages after a bound by time alone: which of an instant's a cut takes is the
      service's choice. */
  ghost predicate OldestByTime(ms: seq<Message>, h: seq<Message>, bound: int, limit: int) {
    && DistinctKeys(ms)
    && (forall m :: m in ms ==> m in h && m.at >= bound)
    && (forall m :: m in h && m.at > bound && m !in ms ==> |ms| >= limit && forall g :: g in ms ==> g.at <= m.at)
  }

  /** A page cuts inside an instant by another order than the chat's: an unread message left out
      comes, by its id, before an unread one given of the same instant. */
  ghost predicate CutsTie(page: seq<Message>, h: seq<Message>, after: Cursor) {
    exists m, g :: m in h && !after.Passed(m) && m !in page && g in Unread(page, after) && m.at == g.at && StrBefore(m.id, g.id)
  }

  /** Of a service that answers oldest first by time, an answer is faithful iff its page cuts no
      instant by another order. */
  lemma TiesDecide(page: seq<Message>, h: seq<Message>, after: Cursor, limit: int)
    requires Ascending(h) && limit > 0
    requires OldestByTime(page, h, after.at - SECOND, limit)
    ensures Faithful(Settle(page, after, limit), h, after) <==> !CutsTie(page, h, after)
  {
    UnreadMembers(page, after);
    UnreadAscending(page, after);
    if CutsTie(page, h, after) {
      TieSkips(page, h, after);
      var u := Unread(page, after);
      UnreadOfAnswer(u, after);
      var m, g :| m in h && !after.Passed(m) && m !in page && g in u && m.at == g.at && StrBefore(m.id, g.id);
      assert u != [];
    } else {
      NoTieFaithful(page, h, after, limit);
    }
  }

  /** A prefix of a list in order holds whatever of the list comes before one of its own. */
  lemma PrefixClosed(u: seq<Message>, rest: seq<Message>, m: Message, g: Message)
    requires Ascending(rest) && u <= rest && g in u && m in rest && MessageBefore(m, g)
    ensures m in u
  {
    hide MessageBefore;
    var i :| 0 <= i < |u| && u[i] == g;
    var j :| 0 <= j < |rest| && rest[j] == m;
    BeforeOnce(m, g);
    assert rest[i] == g;
    if j < i {
      assert u[j] == m;
    }
  }

  lemma BeforeOnce(m: Message, g: Message)
    ensures !(MessageBefore(m, g) && MessageBefore(g, m)) && !MessageBefore(m, m)
  {
    CursorOrder(CursorOn(m), CursorOn(g), CursorOn(m));
    CursorOrder(CursorOn(m), CursorOn(m), CursorOn(m));
  }

  lemma TieSkips(page: seq<Message>, h: seq<Message>, after: Cursor)
    requires Ascending(h) && CutsTie(page, h, after)
    ensures !(Unread(page, after) <= After(h, after))
  {
    hide Unread, After, Ascending;
    UnreadMembers(page, after);
    AfterMembers(h, after);
    AfterAscending(h, after);
    var m, g :| m in h && !after.Passed(m) && m !in page && g in Unread(page, after) && m.at == g.at && StrBefore(m.id, g.id);
    assert MessageBefore(m, g);
    if Unread(page, after) <= After(h, after) {
      PrefixClosed(Unread(page, after), After(h, after), m, g);
    }
  }

  lemma AfterAscending(h: seq<Message>, after: Cursor)
    requires Ascending(h)
    ensures Ascending(After(h, after))
  {
    hide MessageBefore;
  }

  lemma NoTieFaithful(page: seq<Message>, h: seq<Message>, after: Cursor, limit: int)
    requires Ascending(h) && limit > 0
    requires OldestByTime(page, h, after.at - SECOND, limit) && !CutsTie(page, h, after)
    ensures Faithful(Settle(page, after, limit), h, after)
  {
    var u := Unread(page, after);
    UnreadMembers(page, after);
    UnreadAscending(page, after);
    forall m, g | m in h && !after.Passed(m) && g in u && MessageBefore(m, g) ensures m in u {
      assert m.at > after.at - SECOND;
    }
    ClosedIsPrefix(u, h, after);
    UnreadOfAnswer(u, after);
    if |page| < limit {
      AfterMembers(h, after);
      forall m | m in After(h, after) ensures m in u {
        assert m.at > after.at - SECOND;
      }
      AscendingUnique(u, After(h, after));
    }
  }

  /** Stall against end: with unread messages waiting, the answer is not empty, and it holds
      only passed ones exactly when a full page of the API does. */
  lemma StallIsNotEnd(page: seq<Message>, h: seq<Message>, after: Cursor, limit: int)
    requires Ascending(h) && limit > 0
    requires OldestAfter(page, h, after.at - SECOND, limit)
    requires After(h, after) != []
    ensures Settle(page, after, limit) != []
    ensures (forall m :: m in Settle(page, after, limit) ==> after.Passed(m)) <==>
            (|page| >= limit && forall m :: m in page ==> after.Passed(m))
  {
    var answer := Settle(page, after, limit);
    AnswerFaithful(page, h, after, limit);
    UnreadMembers(page, after);
    if Unread(page, after) != [] {
      assert answer[0] in answer;
    } else {
      forall m | m in page ensures after.Passed(m) {
        assert m !in Unread(page, after);
      }
    }
  }

  const TIED := [Message("a", "s", "", "", "", 0, false), Message("b", "s", "", "", "", 0, false)]

  /** The order of the cut matters: a page that cuts inside one instant by another order
      leaves the cursor past a message never given. */
  lemma TiedCutSkips()
    ensures var cut := [TIED[1]];
      && Ascending(TIED) && !OldestAfter(cut, TIED, -SECOND, 1)
      && (forall m, g :: m in TIED && m !in cut && g in cut ==> g.at <= m.at)
      && Unread(cut, Cursor(-1, "")) == cut && !(cut <= After(TIED, Cursor(-1, "")))
  {
    var cut, c := [TIED[1]], Cursor(-1, "");
    assert MessageBefore(TIED[0], TIED[1]);
    PassedCountUnique(TIED, c, 0);
    UnreadOfAnswer(cut, c);
    assert After(TIED, c)[0] == TIED[0] != cut[0];
    assert TIED[0] in TIED && TIED[1] in cut;
  }
}
