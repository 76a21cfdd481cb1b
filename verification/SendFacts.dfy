/** What a send leaves behind, told by what the caller and the operator see of it: rows, claims and
    events; and what no recorded message says again. */
module SendFacts {
  import Basics
  import opened Dedup
  import opened DedupFacts
  import opened Sends
  import opened SendPath

  /** No outbound row of the page says the words, the same or others, too lately. */
  ghost predicate NothingSaidAgain(a: Alphabet, rows: seq<Row>, page: seq<nat>, content: string, now: int) {
    forall k :: k in page && k < |rows| && rows[k].outbound ==>
      !SaysTheSame(a, content, Past(rows[k].content, rows[k].at), now) && !SaysInOtherWords(a, content, Past(rows[k].content, rows[k].at), now)
  }

  lemma SaidSpelled(a: Alphabet, rows: seq<Row>, page: seq<nat>, content: string, now: int)
    ensures Said(a, rows, Page(page), content, now) <==> !NothingSaidAgain(a, rows, page, content, now)
  {
    hide Repeats, SaysTheSame, SaysInOtherWords;
    forall k: nat | k < |rows|
      ensures Repeats(a, content, Past(rows[k].content, rows[k].at), now) <==>
              SaysTheSame(a, content, Past(rows[k].content, rows[k].at), now) || SaysInOtherWords(a, content, Past(rows[k].content, rows[k].at), now) {
      RepeatsSpelled(a, content, Past(rows[k].content, rows[k].at), now);
    }
  }

  /** Over any run: a recorded message that passed a check and is no status notice says no outbound
      row of the page its check read again, within six hours in its words, or within ten minutes
      in others; and the page is of the fifteen newest rows there were. */
  lemma RecordedSaysNothingAgain(a: Alphabet, xs: seq<Step>, j: nat)
    requires var s := Run(a, START, xs); j < |s.rows| && j < |s.checks| && s.checks[j].Passed? && s.checks[j].producer != "status" && s.checks[j].history.Page?
    ensures var s := Run(a, START, xs);
      var c := s.checks[j];
      && c.seen <= j && |c.history.rows| <= 15
      && NothingSaidAgain(a, s.rows[..c.seen], c.history.rows, s.rows[j].content, c.now)
      && (forall k: nat :: k < c.seen && s.rows[k].target == s.rows[j].target && k !in c.history.rows ==>
            |c.history.rows| == 15 && forall g :: g in c.history.rows ==> g < c.seen && s.rows[g].at >= s.rows[k].at)
  {
    hide Run, NothingSaidAgain, Said;
    RunKeeps(a, xs);
    var s := Run(a, START, xs);
    var c := s.checks[j];
    assert Sound(a, s.rows[..j], s.rows[j].target, s.rows[j].content, c);
    assert s.rows[..j][..c.seen] == s.rows[..c.seen];
    SaidSpelled(a, s.rows[..c.seen], c.history.rows, s.rows[j].content, c.now);
    forall k: nat | k < c.seen && s.rows[k].target == s.rows[j].target && k !in c.history.rows
      ensures |c.history.rows| == 15 && forall g :: g in c.history.rows ==> g < c.seen && s.rows[g].at >= s.rows[k].at {
      assert s.rows[..c.seen][k] == s.rows[k];
      forall g | g in c.history.rows ensures g < c.seen && s.rows[g].at >= s.rows[k].at {
        var n :| 0 <= n < |c.history.rows| && c.history.rows[n] == g;
        assert s.rows[..c.seen][g] == s.rows[g];
      }
    }
  }

  /** The claim a send makes is on its target and its words: two share one iff both are the same. */
  lemma ClaimsTell(a: Alphabet, target: string, content: string, target': string, content': string)
    requires '\0' !in target && '\0' !in target'
    ensures GuardKey(a, target, content) == GuardKey(a, target', content') <==>
            target == target' && WordsOf(a, content) == WordsOf(a, content')
  {
    hide Normal, WordsOf;
    NormalTellsWords(a, content, content');
    if GuardKey(a, target, content) == GuardKey(a, target', content') {
      assert target + ['\0'] + Normal(a, content) == GuardKey(a, target, content);
      assert target' + ['\0'] + Normal(a, content') == GuardKey(a, target', content');
      Basics.FirstMark('\0', target, Normal(a, content), target', Normal(a, content'));
    }
  }

  /** The history says it was said, the same or otherwise. */
  ghost predicate WasSaid(a: Alphabet, s: State, content: string, w: World) {
    w.history.Page? && !NothingSaidAgain(a, s.rows, w.history.rows, content, w.now)
  }

  /** A claim on it stands, a minute old or less. */
  ghost predicate IsHeld(a: Alphabet, s: State, target: string, content: string, w: World) {
    GuardKey(a, target, content) in s.inflight && w.reserveAt - s.inflight[GuardKey(a, target, content)] <= 60 * Basics.SECOND
  }

  /** What the operator is told of a call: each refusal comes before those after it, and a message goes
      out iff it has text, its channel is there and not muted, its check lets it through, nobody holds
      it, and the channel takes it. */
  lemma ResultSpelled(a: Alphabet, s: State, producer: string, channel: Channel, target: string, content: string, w: World)
    ensures var r := ResultOf(a, s, producer, channel, target, content, w);
      var text, open_ := Basics.TrimSpace(content) != "", channel == Channel(false);
      var passed := !WasSaid(a, s, content, w) || producer == "status";
      && (r.Empty? <==> !text)
      && (r.NotFound? <==> text && channel.NoChannel?)
      && (r.Muted? <==> text && channel == Channel(true))
      && (r.Duplicate? <==> text && open_ && !passed)
      && (r.InFlight? <==> text && open_ && passed && IsHeld(a, s, target, content, w))
      && (r.Failed? <==> text && open_ && passed && !IsHeld(a, s, target, content, w) && !w.delivery.Went?)
      && (r.Sent? <==> text && open_ && passed && !IsHeld(a, s, target, content, w) && w.delivery.Went?)
  {
    hide Said, NothingSaidAgain, GuardKey, Basics.TrimSpace;
    if w.history.Page? {
      SaidSpelled(a, s.rows, w.history.rows, content, w.now);
    }
    UnreadableSaysNothing(a, s.rows, content, w.now);
  }

  /** What a call leaves: a row iff it went out and could be stored; no send under way, and no claim of
      its own; and nothing at all of one refused before its claim. */
  lemma SendLeaves(a: Alphabet, s: State, producer: string, channel: Channel, target: string, content: string, w: World)
    requires s.procs == map[] && s.now <= w.now <= w.reserveAt <= w.recordAt
    requires w.history.Page? ==> NewestOf(s.rows, target, w.history.rows)
    ensures var r := ResultOf(a, s, producer, channel, target, content, w);
      var s' := StateOf(a, s, r, producer, target, content, w);
      && s'.rows == (if r.Sent? && w.saved then s.rows + [Row(target, content, true, Seconds(w.recordAt))] else s.rows)
      && s'.procs == map[]
      && (r.Sent? || r.Failed? ==> GuardKey(a, target, content) !in s'.inflight)
      && (r.Empty? || r.NotFound? || r.Muted? || r.Duplicate? ==> s'.inflight == s.inflight)
  {
    hide ResultOf, StateOf, Seconds, GuardKey, NewestOf;
    var r := ResultOf(a, s, producer, channel, target, content, w);
    if r.Sent? || r.Failed? {
      TakenLeaves(a, s, producer, channel, target, content, w);
    } else {
      RefusedLeaves(a, s, producer, channel, target, content, w);
    }
  }

  lemma TakenLeaves(a: Alphabet, s: State, producer: string, channel: Channel, target: string, content: string, w: World)
    requires ResultOf(a, s, producer, channel, target, content, w) in {Sent, Failed}
    requires s.procs == map[] && s.now <= w.now <= w.reserveAt <= w.recordAt
    requires w.history.Page? ==> NewestOf(s.rows, target, w.history.rows)
    ensures var r := ResultOf(a, s, producer, channel, target, content, w);
      var s' := StateOf(a, s, r, producer, target, content, w);
      && s'.rows == (if r.Sent? && w.saved then s.rows + [Row(target, content, true, Seconds(w.recordAt))] else s.rows)
      && s'.procs == map[]
      && (r.Sent? || r.Failed? ==> GuardKey(a, target, content) !in s'.inflight)
      && (r.Empty? || r.NotFound? || r.Muted? || r.Duplicate? ==> s'.inflight == s.inflight)
  {
    hide Said, NewestOf, GuardKey, Seconds, Blank;
  }

  lemma RefusedLeaves(a: Alphabet, s: State, producer: string, channel: Channel, target: string, content: string, w: World)
    requires ResultOf(a, s, producer, channel, target, content, w) !in {Sent, Failed}
    requires s.procs == map[] && s.now <= w.now <= w.reserveAt <= w.recordAt
    requires w.history.Page? ==> NewestOf(s.rows, target, w.history.rows)
    ensures var r := ResultOf(a, s, producer, channel, target, content, w);
      var s' := StateOf(a, s, r, producer, target, content, w);
      && s'.rows == (if r.Sent? && w.saved then s.rows + [Row(target, content, true, Seconds(w.recordAt))] else s.rows)
      && s'.procs == map[]
      && (r.Sent? || r.Failed? ==> GuardKey(a, target, content) !in s'.inflight)
      && (r.Empty? || r.NotFound? || r.Muted? || r.Duplicate? ==> s'.inflight == s.inflight)
  {
    hide Said, NewestOf, GuardKey, Seconds, Blank;
  }

  /** What a call announces: the message iff it went out; and, when it was asked to, an alarm iff the
      channel was muted or failed over an address its caller had right. */
  lemma SendTells(r: SendPath.Result, target: string, content: string, alert: bool, d: Delivery)
    ensures CommsSent(target, content) in EventsOf(r, target, content, alert, d) <==> r.Sent?
    ensures Critical(target) in EventsOf(r, target, content, alert, d) <==> alert && (r.Muted? || (r.Failed? && d != BadAddress))
  {
  }

  lemma UnreadableSaysNothing(a: Alphabet, rows: seq<Row>, content: string, now: int)
    ensures !Said(a, rows, Unreadable, content, now)
  {
  }
}
