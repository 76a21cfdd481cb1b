/** The syncer over each of its two sources: what a run of ticks needs of them, they give. */
module SyncerSources {
  import opened Basics
  import opened ChatOrder
  import opened ChatSource
  import opened Syncer
  import opened SyncerSafety
  import Wacli
  import GChat

  /** The sessions stand as they should, whatever the source answered. */
  ghost predicate AllStanding(cfg: Config, xs: seq<Session>, saved: map<string, Cursor>, k: string, start: Cursor, s: Run) {
    xs == [] ||
    (Standing(cfg, xs[0], k, start, s) &&
     AllStanding(cfg, xs[1..], Replay(saved, CutLog(cfg, xs[0], saved)), k, start, AfterSession(cfg, xs[0], saved, k, s)))
  }

  lemma {:induction false} AnswersMakeSound(cfg: Config, xs: seq<Session>, saved: map<string, Cursor>, k: string,
                                            start: Cursor, s: Run)
    requires AllStanding(cfg, xs, saved, k, start, s)
    requires forall i :: 0 <= i < |xs| && Ascending(xs[i].histories(k)) ==> AnswersFaithfully(xs[i].w, k, xs[i].histories(k))
    ensures AllSound(cfg, xs, saved, k, start, s)
    decreases |xs|
  {
    hide AnswersFaithfully, Ascending;
    if xs != [] {
      forall i | 0 <= i < |xs| - 1 && Ascending(xs[1..][i].histories(k))
        ensures AnswersFaithfully(xs[1..][i].w, k, xs[1..][i].histories(k)) {
        assert xs[1..][i] == xs[i+1];
      }
      AnswersMakeSound(cfg, xs[1..], Replay(saved, CutLog(cfg, xs[0], saved)), k, start, AfterSession(cfg, xs[0], saved, k, s));
    }
  }

  /** Chat `k` is read over a server that gives the newest `limit` of every query, of a history
      that holds no more than `limit` in any 37 seconds and nothing later than now. */
  ghost predicate OverWacli(x: Session, k: string, limit: int) {
    exists server, now :: ReadsWacli(x, k, limit, server, now)
  }

  ghost predicate ReadsWacli(x: Session, k: string, limit: int, server: Wacli.Server, now: int) {
    var h := x.histories(k);
    && Wacli.Serves(server, h) && (forall lo :: !Wacli.Overfull(h, lo, Wacli.Limit(limit)))
    && (forall m :: m in h ==> m.at <= Wacli.Trunc(now))
    && forall c :: x.w.messages(k, c) == Wacli.MessagesOf(server, c, now, limit)
  }

  /** From a chat never read, over any sessions on such servers: neither skip nor repeat. */
  lemma WacliNeitherSkipsNorRepeats(cfg: Config, xs: seq<Session>, saved: map<string, Cursor>, k: string, start: Cursor,
                                    h: seq<Message>, limit: int)
    requires Ascending(h) && k !in saved && AllStanding(cfg, xs, saved, k, start, Run(h, start, [], []))
    requires forall i :: 0 <= i < |xs| ==> OverWacli(xs[i], k, limit)
    ensures AllSound(cfg, xs, saved, k, start, Run(h, start, [], []))
    ensures Exact(start, AfterAll(cfg, xs, saved, k, start, Run(h, start, [], [])))
  {
    hide AllStanding, AllSound, AfterAll, Exact;
    forall i | 0 <= i < |xs| && Ascending(xs[i].histories(k)) ensures AnswersFaithfully(xs[i].w, k, xs[i].histories(k)) {
      WacliAnswers(xs[i], k, limit);
    }
    AnswersMakeSound(cfg, xs, saved, k, start, Run(h, start, [], []));
    UnreadChatIsExact(start, h);
    TicksNeitherSkipNorRepeat(cfg, xs, saved, k, start, Run(h, start, [], []));
  }

  lemma WacliAnswers(x: Session, k: string, limit: int)
    requires OverWacli(x, k, limit) && Ascending(x.histories(k))
    ensures AnswersFaithfully(x.w, k, x.histories(k))
  {
    hide Faithful, Wacli.Serves, Wacli.Overfull, Wacli.MessagesOf, Ascending;
    var server, now :| ReadsWacli(x, k, limit, server, now);
    forall c | x.w.messages(k, c).Ok? ensures Faithful(x.w.messages(k, c).value, x.histories(k), c) {
      Wacli.MessagesFaithful(server, x.histories(k), c, now, limit);
    }
  }

  /** Chat `k` is read over a service that gives the oldest `limit` after a bound, a cut in chat order. */
  ghost predicate OverChat(x: Session, k: string, limit: int) {
    exists api, me, space :: ReadsChat(x, k, limit, api, me, space)
  }

  ghost predicate ReadsChat(x: Session, k: string, limit: int, api: GChat.Api, me: GChat.Me, space: string) {
    && (forall bound :: GivesOldest(api, me, space, x.histories(k), bound, limit))
    && forall c :: x.w.messages(k, c) == GChat.AnswerOf(api, me, space, c, limit)
  }

  ghost predicate GivesOldest(api: GChat.Api, me: GChat.Me, space: string, h: seq<Message>, bound: int, limit: int) {
    api(bound, limit).Ok? ==> GChat.OldestAfter(GChat.MessagesOf(me, space, api(bound, limit).value), h, bound, limit)
  }

  /** The same over such services. */
  lemma ChatNeitherSkipsNorRepeats(cfg: Config, xs: seq<Session>, saved: map<string, Cursor>, k: string, start: Cursor,
                                   h: seq<Message>, limit: int)
    requires Ascending(h) && k !in saved && AllStanding(cfg, xs, saved, k, start, Run(h, start, [], []))
    requires limit > 0 && forall i :: 0 <= i < |xs| ==> OverChat(xs[i], k, limit)
    ensures AllSound(cfg, xs, saved, k, start, Run(h, start, [], []))
    ensures Exact(start, AfterAll(cfg, xs, saved, k, start, Run(h, start, [], [])))
  {
    hide AllStanding, AllSound, AfterAll, Exact;
    forall i | 0 <= i < |xs| && Ascending(xs[i].histories(k)) ensures AnswersFaithfully(xs[i].w, k, xs[i].histories(k)) {
      ChatAnswers(xs[i], k, limit);
    }
    AnswersMakeSound(cfg, xs, saved, k, start, Run(h, start, [], []));
    UnreadChatIsExact(start, h);
    TicksNeitherSkipNorRepeat(cfg, xs, saved, k, start, Run(h, start, [], []));
  }

  lemma ChatAnswers(x: Session, k: string, limit: int)
    requires OverChat(x, k, limit) && limit > 0 && Ascending(x.histories(k))
    ensures AnswersFaithfully(x.w, k, x.histories(k))
  {
    hide Faithful, GChat.Settle, GChat.OldestAfter, GChat.MessagesOf, Ascending;
    var api, me, space :| ReadsChat(x, k, limit, api, me, space);
    forall c | x.w.messages(k, c).Ok? ensures Faithful(x.w.messages(k, c).value, x.histories(k), c) {
      assert GivesOldest(api, me, space, x.histories(k), c.at - SECOND, limit);
      GChat.AnswerFaithful(GChat.MessagesOf(me, space, api(c.at - SECOND, limit).value), x.histories(k), c, limit);
    }
  }
}
