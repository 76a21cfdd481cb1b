/** Which events share a mailbox, told by what they carry; and the order one chat's are handled in. */
module MailFacts {
  import opened Mailbox

  /** The payload gives `name` this text. */
  predicate Gives(e: Event, name: string, text: string) {
    name in e.payload && e.payload[name] == Text(text) && text != ""
  }

  ghost predicate OfChat(e: Event, id: string) {
    (e.kind == "comms.message" || e.kind == "comms.sent") && Gives(e, "channel_id", id)
  }

  ghost predicate OfJob(e: Event, id: string) {
    e.kind == "scheduler.job" && Gives(e, "job_id", id)
  }

  ghost predicate OfHook(e: Event, route: string) {
    e.kind == "webhook.fired" && Gives(e, "route", route)
  }

  ghost predicate OfTimer(e: Event, id: string) {
    e.kind == "timer.fired" && Gives(e, "timer_id", id)
  }

  /** It is of no chat, job, route or timer. */
  ghost predicate OfKind(e: Event, kind: string) {
    e.kind == kind && forall id :: !OfChat(e, id) && !OfJob(e, id) && !OfHook(e, id) && !OfTimer(e, id)
  }

  lemma LaneSpelled(e: Event, id: string)
    ensures LaneOf(e) == Chat(id) <==> OfChat(e, id)
    ensures LaneOf(e) == Job(id) <==> OfJob(e, id)
    ensures LaneOf(e) == Hook(id) <==> OfHook(e, id)
    ensures LaneOf(e) == Timer(id) <==> OfTimer(e, id)
  {
  }

  lemma KindSpelled(e: Event, kind: string)
    ensures LaneOf(e) == Unkeyed(kind) <==> OfKind(e, kind)
  {
    hide LaneOf, OfChat, OfJob, OfHook, OfTimer;
    forall id ensures LaneOf(e) == Chat(id) <==> OfChat(e, id) { LaneSpelled(e, id); }
    forall id ensures LaneOf(e) == Job(id) <==> OfJob(e, id) { LaneSpelled(e, id); }
    forall id ensures LaneOf(e) == Hook(id) <==> OfHook(e, id) { LaneSpelled(e, id); }
    forall id ensures LaneOf(e) == Timer(id) <==> OfTimer(e, id) { LaneSpelled(e, id); }
    UnkeyedIsKind(e);
    var l := LaneOf(e);
    match l
    case Chat(id) => assert OfChat(e, id);
    case Job(id) => assert OfJob(e, id);
    case Hook(id) => assert OfHook(e, id);
    case Timer(id) => assert OfTimer(e, id);
    case Unkeyed(_) =>
  }

  lemma UnkeyedIsKind(e: Event)
    ensures LaneOf(e).Unkeyed? ==> LaneOf(e).kind == e.kind
  {
  }

  /** Two events share a key iff they are of one chat, one job, one route, one timer, or of none of
      these and of one kind. */
  lemma KeysSpelled(a: Event, b: Event)
    ensures ConversationKey(a) == ConversationKey(b) <==>
            || (exists id :: OfChat(a, id) && OfChat(b, id)) || (exists id :: OfJob(a, id) && OfJob(b, id))
            || (exists id :: OfHook(a, id) && OfHook(b, id)) || (exists id :: OfTimer(a, id) && OfTimer(b, id))
            || (exists kind :: OfKind(a, kind) && OfKind(b, kind))
  {
    hide LaneOf, OfChat, OfJob, OfHook, OfTimer, OfKind, ConversationKey;
    KeyTellsLanes(a, b);
    AllSpelled(a);
    AllSpelled(b);
    var l := LaneOf(a);
    match l
    case Chat(id) => assert OfChat(a, id);
    case Job(id) => assert OfJob(a, id);
    case Hook(id) => assert OfHook(a, id);
    case Timer(id) => assert OfTimer(a, id);
    case Unkeyed(kind) => assert OfKind(a, kind);
  }

  lemma AllSpelled(e: Event)
    ensures forall id :: LaneOf(e) == Chat(id) <==> OfChat(e, id)
    ensures forall id :: LaneOf(e) == Job(id) <==> OfJob(e, id)
    ensures forall id :: LaneOf(e) == Hook(id) <==> OfHook(e, id)
    ensures forall id :: LaneOf(e) == Timer(id) <==> OfTimer(e, id)
    ensures forall kind :: LaneOf(e) == Unkeyed(kind) <==> OfKind(e, kind)
  {
    hide LaneOf, OfChat, OfJob, OfHook, OfTimer, OfKind;
    forall id ensures LaneOf(e) == Chat(id) <==> OfChat(e, id) { LaneSpelled(e, id); }
    forall id ensures LaneOf(e) == Job(id) <==> OfJob(e, id) { LaneSpelled(e, id); }
    forall id ensures LaneOf(e) == Hook(id) <==> OfHook(e, id) { LaneSpelled(e, id); }
    forall id ensures LaneOf(e) == Timer(id) <==> OfTimer(e, id) { LaneSpelled(e, id); }
    forall kind ensures LaneOf(e) == Unkeyed(kind) <==> OfKind(e, kind) { KindSpelled(e, kind); }
  }

  /** A chat's messages, whatever else they carry, share a key, and no message of another chat has it. */
  lemma ChatKeys(a: Event, b: Event, x: string, y: string)
    requires OfChat(a, x) && OfChat(b, y)
    ensures ConversationKey(a) == ConversationKey(b) <==> x == y
  {
    hide ConversationKey, LaneOf, OfChat;
    KeyTellsLanes(a, b);
    LaneSpelled(a, x);
    LaneSpelled(b, y);
  }

  // ---- one chat's order ----

  /** Every delivery carries its event's own key. */
  ghost predicate AllKeyed(xs: seq<Step>) {
    forall i :: 0 <= i < |xs| ==>
      (xs[i].Claim? ==> xs[i].e == Keyed(xs[i].e.event)) && (xs[i].Deliver? ==> xs[i].e == Keyed(xs[i].e.event))
  }

  ghost predicate Letters(s: State) {
    && (forall c, i :: 0 <= c < |s.chans| && 0 <= i < |s.chans[c].sent| ==> s.chans[c].sent[i] == Keyed(s.chans[c].sent[i].event))
    && (forall d :: d in s.flying ==> s.flying[d].e == Keyed(s.flying[d].e.event))
  }

  lemma StepLetters(s: State, x: Step)
    requires Letters(s) && (x.Claim? || x.Deliver? ==> x.e == Keyed(x.e.event))
    ensures Letters(Next(s, x))
  {
    hide Keyed, Offered, Letters;
    match x
    case Claim(_, e) => ClaimLetters(s, x);
    case Send(d) =>
      if d in s.flying && s.flying[d].ch < |s.chans| {
        FlyingLetter(s, d);
        OfferLetters(s, s.flying[d].ch, s.flying[d].e);
        FlownLetters(s.(chans := s.chans[s.flying[d].ch := Offered(s.chans[s.flying[d].ch], s.flying[d].e)]), d);
      }
    case Deliver(e) =>
      BoxLetters(s, e.key);
      var b := Boxed(s, e.key);
      if e.key in b.boxes && b.boxes[e.key] < |b.chans| {
        OfferLetters(b, b.boxes[e.key], e);
      }
    case _ => OtherLetters(s, x);
  }

  lemma FlyingLetter(s: State, d: nat)
    requires Letters(s) && d in s.flying
    ensures s.flying[d].e == Keyed(s.flying[d].e.event)
  {
    hide Keyed;
  }

  lemma ClaimLetters(s: State, x: Step)
    requires Letters(s) && x.Claim? && x.e == Keyed(x.e.event)
    ensures Letters(Next(s, x))
  {
    hide Keyed;
  }

  lemma BoxLetters(s: State, key: string)
    requires Letters(s)
    ensures Letters(Boxed(s, key))
  {
    hide Keyed;
  }

  lemma OfferLetters(s: State, c: nat, e: Letter)
    requires Letters(s) && c < |s.chans| && e == Keyed(e.event)
    ensures Letters(s.(chans := s.chans[c := Offered(s.chans[c], e)]))
  {
    hide Keyed;
  }

  lemma FlownLetters(s: State, d: nat)
    requires Letters(s)
    ensures Letters(s.(flying := s.flying - {d}))
  {
    hide Keyed;
  }

  lemma OtherLetters(s: State, x: Step)
    requires Letters(s) && !x.Claim? && !x.Send? && !x.Deliver?
    ensures Letters(Next(s, x))
  {
    hide Keyed, Offered, Boxed;
  }

  /** Of the channels a key has had, only the last is served. */
  ghost predicate EarlierRetired(s: State) {
    forall c, d :: 0 <= c < d < |s.chans| && s.chans[c].key == s.chans[d].key ==> !s.chans[c].worker.Live()
  }

  lemma StepRetires(s: State, x: Step)
    requires Good(s) && EarlierRetired(s)
    ensures EarlierRetired(Next(s, x))
  {
    hide Good, Boxed;
    match x
    case Claim(_, e) => BoxedRetires(s, e.key);
    case Deliver(e) => BoxedRetires(s, e.key);
    case _ =>
  }

  lemma BoxedRetires(s: State, key: string)
    requires Good(s) && EarlierRetired(s)
    ensures EarlierRetired(Boxed(s, key))
  {
    hide ChanGood;
  }

  lemma {:induction false} RunRetires(xs: seq<Step>)
    ensures EarlierRetired(Run(START, xs)) && (AllKeyed(xs) ==> Letters(Run(START, xs)))
    decreases |xs|
  {
    hide EarlierRetired, Letters, Next, Good;
    if xs != [] {
      var init := xs[..|xs|-1];
      RunRetires(init);
      RunKeeps(START, init);
      StepRetires(Run(START, init), xs[|xs|-1]);
      if AllKeyed(xs) {
        assert forall i :: 0 <= i < |init| ==> init[i] == xs[i];
        StepLetters(Run(START, init), xs[|xs|-1]);
      }
    } else {
      NothingYet();
    }
  }

  lemma NothingYet()
    ensures EarlierRetired(START) && Letters(START)
  {
  }

  /** Of one chat's messages, over any interleaving: those in one channel are taken in the order
      sent; those in two were taken on the earlier before its worker left, for good, and the other
      was made; and no two are ever in hand at once. */
  lemma ChatInOrder(xs: seq<Step>, id: string, c: nat, i: nat, d: nat, j: nat)
    requires AllKeyed(xs)
    requires var s := Run(START, xs);
      && c < |s.chans| && d < |s.chans| && i < |s.chans[c].sent| && j < |s.chans[d].sent|
      && OfChat(s.chans[c].sent[i].event, id) && OfChat(s.chans[d].sent[j].event, id)
    ensures var s := Run(START, xs);
      && s.chans[c].taken <= s.chans[c].sent
      && (c < d ==> !s.chans[c].worker.Live())
      && (s.chans[c].worker.Handling? && s.chans[d].worker.Handling? ==> c == d)
  {
    hide Run, OfChat, Good, ConversationKey;
    RunRetires(xs);
    RunKeeps(START, xs);
    EveryEventIsSomewhere(xs, c, i);
    EveryEventIsSomewhere(xs, d, j);
    var s := Run(START, xs);
    ChatKeys(s.chans[c].sent[i].event, s.chans[d].sent[j].event, id, id);
    assert s.chans[c].key == s.chans[d].key;
    OneWorkerEach(xs);
  }

  /** A send is taken, at the end, iff fewer than 32 events wait; and a delivery starts a conversation
      unless 64 are already active. */
  lemma RoomSpelled(s: State, ch: Chan, e: Letter)
    ensures |ch.queue| < 32 ==> Offered(ch, e) == ch.(sent := ch.sent + [e], queue := ch.queue + [e])
    ensures |ch.queue| >= 32 ==> Offered(ch, e) == ch
    ensures Refused(s, e.key) <==> e.key !in s.boxes && |s.boxes| >= 64
  {
  }

  /** A shutdown ends each worker that waits: its key is free, and it takes nothing more. */
  lemma ShutdownEnds(s: State, c: nat)
    requires Good(s) && c < |s.chans| && s.chans[c].worker.Waiting?
    ensures var s' := Next(Next(s, Cancel), Leave(c));
      s'.chans[c].worker == Quit && s.chans[c].key !in s'.boxes && Next(s', Take(c)) == s'
  {
    hide ChanGood;
  }
}
