/** What the captured-request store makes of one request: its keys, its headers, and what a list
    of requests holds. */
module RingFacts {
  import opened Basics
  import opened RequestRing

  /** Two requests share a wire key iff they are one request of one tab. */
  lemma WireKeysTell(tab: string, request: string, tab': string, request': string)
    requires '|' !in tab && '|' !in tab'
    ensures WireKey(tab, request) == WireKey(tab', request') <==> tab == tab' && request == request'
  {
    if WireKey(tab, request) == WireKey(tab', request') {
      FirstMark('|', tab, request, tab', request');
    }
  }

  /** `now` are the headers of `first` with those of `second` over them. */
  ghost predicate Over(now: map<string, string>, first: map<string, string>, second: map<string, string>) {
    && (forall h :: h in now <==> h in first || h in second)
    && (forall h :: h in second ==> now[h] == second[h])
    && (forall h :: h in first && h !in second ==> now[h] == first[h])
  }

  /** Raw headers that come after their request are put over the headers it has, in its record
      alone, and nothing else of it changes; those that come first are kept for it. */
  lemma ExtraMerges(r: Ring, tab: string, request: string, headers: map<string, string>)
    requires Sound(r)
    ensures var key, r' := WireKey(tab, request), ExtraHeaders(r, tab, request, headers);
      if key in r.keys then
        var i := Place(r.entries, r.keys[key]);
        && r'.(entries := r.entries) == r && |r'.entries| == |r.entries| && 0 <= i < |r.entries| && r.entries[i].n == r.keys[key]
        && (forall j :: 0 <= j < |r.entries| && j != i ==> r'.entries[j] == r.entries[j])
        && Over(r'.entries[i].data.requestHeaders, r.entries[i].data.requestHeaders, headers)
        && r'.entries[i].(data := r'.entries[i].data.(requestHeaders := map[])) == r.entries[i].(data := r.entries[i].data.(requestHeaders := map[]))
      else
        r'.(pending := r.pending) == r && r'.pending == r.pending[key := headers]
  {
    hide RequestId, Place;
  }

  /** The new request holds what was captured of it, under its number and tab, its own headers
      under the raw ones that came before it. */
  lemma BeginHolds(r: Ring, tab: string, request: string, data: Captured)
    requires Begin(r, tab, request, data).entries != []
    ensures var entries, key := Begin(r, tab, request, data).entries, WireKey(tab, request);
      var now := entries[|entries|-1].data;
      && now.id == RequestId(r.counter + 1) && now.tabId == tab
      && now.(id := data.id, tabId := data.tabId, requestHeaders := data.requestHeaders) == data
      && Over(now.requestHeaders, data.requestHeaders, if key in r.pending then r.pending[key] else map[])
  {
    hide Evict, RequestId, Sum;
    EvictDrops(Opening(r, tab, request, data));
  }

  /** Rings alike but for what was captured of the newest request. */
  ghost predicate Alike(a: Ring, b: Ring, d: Captured) {
    if b.entries == [] then a == b
    else
      var n := |b.entries| - 1;
      a == b.(entries := b.entries[n := b.entries[n].(data := d)])
  }

  lemma {:induction false} EvictAlike(a: Ring, b: Ring, d: Captured)
    requires Alike(a, b, d)
    ensures Alike(Evict(a), Evict(b), d)
    decreases |b.entries|
  {
    if b.entries != [] && RequestRing.Over(b) {
      var n := |b.entries| - 1;
      if n == 0 {
        assert a.entries[1..] == b.entries[1..] == [];
      } else {
        assert a.entries[1..] == b.entries[1..][n-1 := b.entries[n].(data := d)];
      }
      EvictAlike(Dropped(a), Dropped(b), d);
    }
  }

  /** The new request as it would be with those headers there first. */
  function Headed(r: Ring, tab: string, request: string, data: Captured, headers: map<string, string>): Captured {
    var entries := Opening(r, tab, request, data).entries;
    entries[|entries|-1].data.(requestHeaders := Merge(data.requestHeaders, headers))
  }

  lemma OpenAlike(r: Ring, tab: string, request: string, data: Captured, headers: map<string, string>)
    requires WireKey(tab, request) !in r.keys && WireKey(tab, request) !in r.pending
    ensures Alike(Opening(ExtraHeaders(r, tab, request, headers), tab, request, data), Opening(r, tab, request, data),
                  Headed(r, tab, request, data, headers))
    ensures var entries := Opening(r, tab, request, data).entries; entries[|entries|-1].data.requestHeaders == data.requestHeaders
    ensures var entries := Opening(r, tab, request, data).entries; entries[|entries|-1].n == r.counter + 1
  {
    hide RequestId;
    var key := WireKey(tab, request);
    assert r.pending[key := headers] - {key} == r.pending - {key};
  }

  lemma AmendNewest(b: Ring, n: nat, tab: string, request: string, headers: map<string, string>, d: Captured)
    requires Sound(b) && Found(b, n, WireKey(tab, request)) && b.entries != [] && b.entries[|b.entries|-1].n == n
    requires d == b.entries[|b.entries|-1].data.(requestHeaders := Merge(b.entries[|b.entries|-1].data.requestHeaders, headers))
    ensures Alike(ExtraHeaders(b, tab, request, headers), b, d)
  {
    hide RequestId, Place;
    PlaceFinds(b.entries, |b.entries| - 1);
  }

  lemma AlikeOnce(a: Ring, b: Ring, c: Ring, d: Captured)
    requires Alike(a, c, d) && Alike(b, c, d)
    ensures a == b
  {
  }

  /** Raw headers before their request or after it come to the same, wherever the request is still found. */
  lemma EitherOrder(r: Ring, tab: string, request: string, data: Captured, headers: map<string, string>)
    requires Sound(r) && WireKey(tab, request) !in r.keys && WireKey(tab, request) !in r.pending
    requires Found(Begin(r, tab, request, data), r.counter + 1, WireKey(tab, request))
    ensures ExtraHeaders(Begin(r, tab, request, data), tab, request, headers) == Begin(ExtraHeaders(r, tab, request, headers), tab, request, data)
  {
    hide RequestId, Evict, Place, Sum, Alike, Sound, Opening, ExtraHeaders, Found;
    var after, before := Opening(r, tab, request, data), Opening(ExtraHeaders(r, tab, request, headers), tab, request, data);
    var b, d := Begin(r, tab, request, data), Headed(r, tab, request, data, headers);
    OpenAlike(r, tab, request, data, headers);
    EvictAlike(before, after, d);
    EvictDrops(after);
    BeginKeeps(r, tab, request, data);
    NewestFound(b, r.counter + 1, WireKey(tab, request));
    assert b.entries[|b.entries|-1] == after.entries[|after.entries|-1];
    AmendNewest(b, r.counter + 1, tab, request, headers, d);
    AlikeOnce(ExtraHeaders(b, tab, request, headers), Evict(before), b, d);
  }

  lemma NewestFound(r: Ring, n: nat, key: string)
    requires Sound(r) && Found(r, n, key)
    ensures r.entries != []
  {
    hide RequestId;
  }

  // ---- lists ----

  /** A part of a text. */
  ghost predicate PartOf(t: string, s: string) {
    exists i :: StandsAt(t, s, i)
  }

  predicate StandsAt(t: string, s: string, i: int) {
    0 <= i <= |s| - |t| && s[i..i+|t|] == t
  }

  lemma {:induction false} ContainsIsPart(s: string, t: string)
    ensures Contains(s, t) <==> PartOf(t, s)
  {
    assert StandsAt(t, s, 0) <==> t <= s;
    if s != "" {
      ContainsIsPart(s[1..], t);
      forall i ensures StandsAt(t, s[1..], i) <==> i >= 0 && StandsAt(t, s, i + 1) {
        assert 0 <= i <= |s| - 1 - |t| ==> s[1..][i..i+|t|] == s[i+1..i+1+|t|];
      }
      if i :| StandsAt(t, s, i) {
        assert i > 0 ==> StandsAt(t, s[1..], i - 1);
      }
    }
  }

  /** What a filter asks: each thing it names, and nothing of what it leaves empty. */
  ghost predicate Asks(f: Filter, c: Captured) {
    && (f.tabId != "" ==> c.tabId == f.tabId)
    && (f.urlContains != "" ==> PartOf(f.urlContains, c.url))
    && (f.verb != "" ==> SameLetters(c.verb, f.verb))
    && (f.resourceType != "" ==> SameLetters(c.resourceType, f.resourceType))
    && (f.status != 0 ==> c.status == f.status)
  }

  lemma MatchesAsks(f: Filter, c: Captured)
    ensures Matches(f, c) <==> Asks(f, c)
  {
    ContainsIsPart(c.url, f.urlContains);
    LowerSame(c.verb, f.verb);
    LowerSame(c.resourceType, f.resourceType);
  }

  /** The places a list takes: of the requests asked for, from the newest back. */
  ghost predicate TakenFrom(out: seq<Captured>, entries: seq<Entry>, f: Filter, at: seq<int>) {
    && |at| == |out|
    && (forall i :: 0 <= i < |at| ==> 0 <= at[i] < |entries| && entries[at[i]].data == out[i] && Asks(f, out[i]))
    && (forall i, j :: 0 <= i < j < |at| ==> at[i] > at[j])
    && (forall n :: 0 <= n < |entries| && Asks(f, entries[n].data) && n !in at ==> f.limit > 0 && |out| == f.limit && forall i :: 0 <= i < |at| ==> at[i] > n)
  }

  /** A list holds the held requests asked for, newest first: all of them, or as many of the newest
      as it is limited to. */
  lemma ListSpelled(r: Ring, f: Filter)
    ensures exists at :: TakenFrom(List(r, f), r.entries, f, at)
    ensures f.limit > 0 ==> |List(r, f)| <= f.limit
  {
    hide Asks;
    var at := NewestPlaces(r.entries, f);
    var all := Newest(r.entries, f);
    if 0 < f.limit < |all| {
      var cut := at[..f.limit];
      forall n | 0 <= n < |r.entries| && Asks(f, r.entries[n].data) && n !in cut ensures forall i :: 0 <= i < |cut| ==> cut[i] > n {
        var k :| 0 <= k < |at| && at[k] == n;
        CutHas(at, f.limit, k);
      }
      assert TakenFrom(List(r, f), r.entries, f, cut);
    } else {
      assert TakenFrom(List(r, f), r.entries, f, at);
    }
  }

  lemma CutHas(at: seq<int>, limit: nat, k: nat)
    requires limit <= |at| && k < |at|
    ensures k < limit ==> at[k] in at[..limit]
  {
    assert k < limit ==> at[..limit][k] == at[k];
  }

  lemma {:induction false} NewestPlaces(entries: seq<Entry>, f: Filter) returns (at: seq<int>)
    ensures var all := Newest(entries, f);
      && |at| == |all|
      && (forall i :: 0 <= i < |at| ==> 0 <= at[i] < |entries| && entries[at[i]].data == all[i] && Asks(f, all[i]))
      && (forall i, j :: 0 <= i < j < |at| ==> at[i] > at[j])
      && (forall n :: 0 <= n < |entries| && Asks(f, entries[n].data) ==> n in at)
    decreases |entries|
  {
    hide Asks, Matches;
    if entries == [] {
      at := [];
    } else {
      var last := |entries| - 1;
      var before := NewestPlaces(entries[..last], f);
      MatchesAsks(f, entries[last].data);
      at := (if Matches(f, entries[last].data) then [last] else []) + before;
      forall n | 0 <= n < |entries| && Asks(f, entries[n].data) ensures n in at {
        if n < last {
          assert entries[..last][n] == entries[n] && n in before;
        }
      }
    }
  }
}
