/** The captured-request ring, as values: what each store operation makes of it. */
module RequestRing {
  import opened Basics
  import opened Decimal

  datatype Captured = Captured(id: string, tabId: string, verb: string, url: string, resourceType: string,
                               requestHeaders: map<string, string>, status: int, responseHeaders: map<string, string>,
                               mime: string, body: string, omitted: bool, reason: string, bodyBytes: int,
                               failed: bool, completedAt: int)

  /** One record: its number, its wire key, and the bytes it counts for. */
  datatype Entry = Entry(n: nat, key: string, bytes: int, data: Captured)

  datatype Ring = Ring(capacity: int, maxBytes: int, entries: seq<Entry>, keys: map<string, nat>, total: int,
                       counter: nat, pending: map<string, map<string, string>>)

  function RequestId(n: nat): string {
    "r" + Natural(n)
  }

  lemma RequestIdNames(m: nat, n: nat)
    ensures RequestId(m) == RequestId(n) ==> m == n
  {
    if RequestId(m) == RequestId(n) {
      assert RequestId(m)[1..] == Natural(m) && RequestId(n)[1..] == Natural(n);
      NaturalInjective(m, n);
    }
  }

  function WireKey(tab: string, request: string): string {
    tab + "|" + request
  }

  function Merge(base: map<string, string>, extra: map<string, string>): map<string, string> {
    base + extra
  }

  predicate Over(r: Ring) {
    |r.entries| > r.capacity || r.total > r.maxBytes
  }

  function Dropped(r: Ring): Ring
    requires r.entries != []
  {
    var oldest := r.entries[0];
    r.(entries := r.entries[1..], keys := r.keys - {oldest.key}, total := r.total - oldest.bytes)
  }

  /** Drops the oldest until both budgets hold again. */
  function Evict(r: Ring): Ring
    decreases |r.entries|
  {
    if r.entries == [] || !Over(r) then r
    else Evict(Dropped(r))
  }

  function Added(r: Ring, e: Entry): Ring {
    r.(entries := r.entries + [e], keys := r.keys[e.key := e.n])
  }

  function Begin(r: Ring, tab: string, request: string, data: Captured): Ring {
    Evict(Opening(r, tab, request, data))
  }

  function Opening(r: Ring, tab: string, request: string, data: Captured): Ring {
    var key := WireKey(tab, request);
    var headers := if key in r.pending then Merge(data.requestHeaders, r.pending[key]) else data.requestHeaders;
    var n := r.counter + 1;
    Added(r.(counter := n, pending := r.pending - {key}),
          Entry(n, key, 0, data.(requestHeaders := headers).(id := RequestId(n), tabId := tab)))
  }

  /** Where a record stands, if it is still held. */
  function Place(entries: seq<Entry>, n: nat): (i: int)
    ensures -1 <= i < |entries| && (i >= 0 ==> entries[i].n == n)
  {
    if entries == [] then -1
    else if entries[0].n == n then 0
    else
      var i := Place(entries[1..], n);
      if i < 0 then -1 else i + 1
  }

  /** What a record is told of its body. */
  datatype Body = Kept(body: string) | Omitted(reason: string)

  /** A change to one record in place. */
  datatype Change =
    | Bodied(b: Body, reported: int, now: int)
    | Answered(status: int, headers: map<string, string>, mime: string)
    | Broken(now: int)
    | Headed(headers: map<string, string>)

  function Changed(e: Entry, c: Change): Entry {
    match c
    case Bodied(Kept(body), reported, now) =>
      e.(bytes := |body|, data := e.data.(body := body, bodyBytes := reported, completedAt := now))
    case Bodied(Omitted(reason), reported, now) =>
      e.(data := e.data.(omitted := true, reason := reason, bodyBytes := reported, completedAt := now))
    case Answered(status, headers, mime) =>
      e.(data := e.data.(status := status, responseHeaders := headers, mime := mime))
    case Broken(now) => e.(data := e.data.(failed := true, completedAt := now))
    case Headed(headers) => e.(data := e.data.(requestHeaders := Merge(e.data.requestHeaders, headers)))
  }

  function Amend(entries: seq<Entry>, n: nat, c: Change): (r: seq<Entry>)
    ensures |r| == |entries|
  {
    var i := Place(entries, n);
    if i < 0 then entries else entries[i := Changed(entries[i], c)]
  }

  function Credit(b: Body): nat {
    if b.Kept? then |b.body| else 0
  }

  /** A body update of record `n` under its wire key: credited whether or not it is held. */
  function UpdateBody(r: Ring, n: nat, key: string, b: Body, reported: int, now: int): Ring {
    Evict(BodyTold(r, n, key, b, reported, now))
  }

  function BodyTold(r: Ring, n: nat, key: string, b: Body, reported: int, now: int): Ring {
    r.(entries := Amend(r.entries, n, Bodied(b, reported, now)), total := r.total + Credit(b), keys := r.keys - {key})
  }

  function UpdateResponse(r: Ring, n: nat, status: int, headers: map<string, string>, mime: string): Ring {
    r.(entries := Amend(r.entries, n, Answered(status, headers, mime)))
  }

  function MarkFailed(r: Ring, n: nat, key: string, now: int): Ring {
    r.(entries := Amend(r.entries, n, Broken(now)), keys := r.keys - {key})
  }

  function ExtraHeaders(r: Ring, tab: string, request: string, headers: map<string, string>): Ring {
    var key := WireKey(tab, request);
    if key in r.keys then r.(entries := Amend(r.entries, r.keys[key], Headed(headers)))
    else r.(pending := r.pending[key := headers])
  }

  // ---- what every operation keeps ----

  function Sum(entries: seq<Entry>): int {
    if entries == [] then 0 else entries[0].bytes + Sum(entries[1..])
  }

  /** Bytes counted that no held record accounts for. */
  function Stray(r: Ring): int {
    r.total - Sum(r.entries)
  }

  ghost predicate Sound(r: Ring) {
    && (forall e :: e in r.entries ==> e.n <= r.counter && e.bytes >= 0 && e.data.id == RequestId(e.n))
    && (forall i, j :: 0 <= i < j < |r.entries| ==> r.entries[i].n < r.entries[j].n)
    && (forall k :: k in r.keys ==> var i := Place(r.entries, r.keys[k]); i >= 0 && r.entries[i].key == k)
  }

  ghost predicate WithinBudgets(r: Ring) {
    |r.entries| == 0 || (|r.entries| <= r.capacity && r.total <= r.maxBytes)
  }

  lemma {:induction false} SumAppend(a: seq<Entry>, b: seq<Entry>)
    ensures Sum(a + b) == Sum(a) + Sum(b)
  {
    if a == [] {
      assert a + b == b;
    } else {
      SumAppend(a[1..], b);
      assert (a + b)[1..] == a[1..] + b;
    }
  }

  lemma {:induction false} SumAmend(entries: seq<Entry>, i: nat, e: Entry)
    requires i < |entries|
    ensures Sum(entries[i := e]) == Sum(entries) - entries[i].bytes + e.bytes
  {
    if i > 0 {
      SumAmend(entries[1..], i - 1, e);
      assert entries[i := e][1..] == entries[1..][i-1 := e];
    } else {
      assert entries[i := e][1..] == entries[1..];
    }
  }

  lemma {:induction false} EvictTail(r: Ring)
    ensures var r', d := Evict(r), |r.entries| - |Evict(r).entries|;
      && 0 <= d && r'.entries == r.entries[d..] && WithinBudgets(r')
      && r' == r.(entries := r'.entries, keys := r'.keys, total := r'.total) && r'.keys.Keys <= r.keys.Keys
    decreases |r.entries|
  {
    hide Sum;
    if r.entries == [] || !Over(r) {
      assert r.entries[0..] == r.entries;
    } else {
      EvictTail(Dropped(r));
      assert r.entries[1..][|r.entries| - |Evict(r).entries| - 1..] == r.entries[|r.entries| - |Evict(r).entries|..];
    }
  }

  lemma {:induction false} EvictTotal(r: Ring)
    ensures 0 <= |r.entries| - |Evict(r).entries| && Evict(r).total == r.total - Sum(r.entries[..|r.entries| - |Evict(r).entries|])
    decreases |r.entries|
  {
    if r.entries == [] || !Over(r) {
      assert r.entries[..0] == [];
    } else {
      EvictTotal(Dropped(r));
      var d := |r.entries| - |Evict(r).entries|;
      assert r.entries[..d][1..] == r.entries[1..][..d-1] && r.entries[..d][0] == r.entries[0];
    }
  }

  lemma EvictDrops(r: Ring)
    ensures var r', d := Evict(r), |r.entries| - |Evict(r).entries|;
      && 0 <= d && r'.entries == r.entries[d..] && WithinBudgets(r')
      && r'.total == r.total - Sum(r.entries[..d]) && Stray(r') == Stray(r)
      && r' == r.(entries := r'.entries, keys := r'.keys, total := r'.total) && r'.keys.Keys <= r.keys.Keys
  {
    hide Evict, Sum, WithinBudgets, Over, Dropped;
    EvictTail(r);
    EvictTotal(r);
    SumSplit(r.entries, |r.entries| - |Evict(r).entries|);
  }

  lemma SumSplit(entries: seq<Entry>, d: nat)
    requires d <= |entries|
    ensures Sum(entries) == Sum(entries[..d]) + Sum(entries[d..])
  {
    hide Sum;
    SumAppend(entries[..d], entries[d..]);
    assert entries[..d] + entries[d..] == entries;
  }

  /** The ring with its `j` oldest gone, and their bytes. */
  ghost function Without(r: Ring, j: nat): Ring
    requires j <= |r.entries|
  {
    r.(entries := r.entries[j..], total := r.total - Sum(r.entries[..j]))
  }

  lemma WithoutDropped(r: Ring, j: nat)
    requires 0 < j <= |r.entries|
    ensures Over(Without(r, j)) == Over(Without(Dropped(r), j - 1))
  {
    assert r.entries[1..][j-1..] == r.entries[j..];
    assert r.entries[..j][1..] == r.entries[1..][..j-1];
  }

  /** Eviction drops the shortest run of the oldest that restores both budgets, and takes
      exactly their bytes off the count. */
  lemma {:induction false} EvictShortest(r: Ring)
    ensures var r', d := Evict(r), |r.entries| - |Evict(r).entries|;
      && 0 <= d && r'.entries == r.entries[d..] && WithinBudgets(r')
      && r'.total == r.total - Sum(r.entries[..d]) && Stray(r') == Stray(r)
      && (forall j :: 0 <= j < d ==> Over(Without(r, j)))
      && r' == r.(entries := r'.entries, keys := r'.keys, total := r'.total) && r'.keys.Keys <= r.keys.Keys
    decreases |r.entries|
  {
    EvictDrops(r);
    if r.entries != [] && Over(r) {
      EvictShortest(Dropped(r));
      forall j | 0 <= j < |r.entries| - |Evict(r).entries| ensures Over(Without(r, j)) {
        if j > 0 {
          WithoutDropped(r, j);
        } else {
          assert r.entries[0..] == r.entries && r.entries[..0] == [];
        }
      }
    }
  }

  lemma {:induction false} PlaceFinds(entries: seq<Entry>, i: nat)
    requires i < |entries| && forall a, b :: 0 <= a < b < |entries| ==> entries[a].n < entries[b].n
    ensures Place(entries, entries[i].n) == i
  {
    if i > 0 {
      PlaceFinds(entries[1..], i - 1);
    }
  }

  lemma {:induction false} EvictSound(r: Ring)
    requires Sound(r)
    ensures Sound(Evict(r))
    decreases |r.entries|
  {
    if r.entries != [] && Over(r) {
      DropSound(r);
      EvictSound(Dropped(r));
    }
  }

  lemma {:induction false} PlaceNone(entries: seq<Entry>, n: nat)
    requires forall i :: 0 <= i < |entries| ==> entries[i].n != n
    ensures Place(entries, n) == -1
  {
    if entries != [] {
      PlaceNone(entries[1..], n);
    }
  }

  lemma {:induction false} PlaceAppend(entries: seq<Entry>, e: Entry, n: nat)
    ensures Place(entries + [e], n) == if Place(entries, n) >= 0 then Place(entries, n) else if e.n == n then |entries| else -1
  {
    if entries == [] {
      assert [e][1..] == [];
    } else {
      PlaceAppend(entries[1..], e, n);
      assert (entries + [e])[1..] == entries[1..] + [e];
    }
  }

  lemma {:induction false} PlaceAmended(entries: seq<Entry>, i: nat, e: Entry, n: nat)
    requires i < |entries| && e.n == entries[i].n
    ensures Place(entries[i := e], n) == Place(entries, n)
  {
    if i > 0 {
      PlaceAmended(entries[1..], i - 1, e, n);
      assert entries[i := e][1..] == entries[1..][i-1 := e];
    } else {
      assert entries[i := e][1..] == entries[1..];
    }
  }

  lemma DropSound(r: Ring)
    requires Sound(r) && r.entries != []
    ensures Sound(Dropped(r))
  {
    var s := Dropped(r);
    forall k | k in s.keys ensures var i := Place(s.entries, s.keys[k]); i >= 0 && s.entries[i].key == k {
      assert Place(r.entries, r.keys[k]) > 0;
    }
  }

  lemma AddSound(r: Ring, e: Entry)
    requires Sound(r) && e.n <= r.counter && e.bytes >= 0 && e.data.id == RequestId(e.n)
    requires forall x :: x in r.entries ==> x.n < e.n
    ensures Sound(Added(r, e))
  {
    var s := Added(r, e);
    PlaceNone(r.entries, e.n);
    forall k | k in s.keys ensures var i := Place(s.entries, s.keys[k]); i >= 0 && s.entries[i].key == k {
      PlaceAppend(r.entries, e, s.keys[k]);
    }
  }

  lemma BeginKeeps(r: Ring, tab: string, request: string, data: Captured)
    requires Sound(r)
    ensures var r' := Begin(r, tab, request, data);
      Sound(r') && WithinBudgets(r') && Stray(r') == Stray(r) && r'.counter == r.counter + 1
  {
    hide RequestId, Place, Evict, Merge, WithinBudgets;
    var s := Opening(r, tab, request, data);
    var e := s.entries[|r.entries|];
    OpeningSound(r, tab, request, data);
    SumAppend(r.entries, [e]);
    assert [e][1..] == [];
    EvictSound(s);
    EvictDrops(s);
  }

  /** A change in place keeps every record's number, key and place. */
  lemma AmendPlaces(entries: seq<Entry>, n: nat, c: Change)
    ensures var r := Amend(entries, n, c);
      && (forall i :: 0 <= i < |entries| ==> r[i].n == entries[i].n && r[i].key == entries[i].key && r[i].data.id == entries[i].data.id)
      && (forall i :: 0 <= i < |entries| ==> r[i].bytes == entries[i].bytes || r[i].bytes >= 0)
      && (forall m :: Place(r, m) == Place(entries, m))
  {
    var i := Place(entries, n);
    if i >= 0 {
      forall m ensures Place(Amend(entries, n, c), m) == Place(entries, m) {
        PlaceAmended(entries, i, Changed(entries[i], c), m);
      }
    }
  }

  lemma AmendSound(r: Ring, n: nat, c: Change, total: int, gone: set<string>)
    requires Sound(r)
    ensures Sound(r.(entries := Amend(r.entries, n, c), total := total, keys := r.keys - gone))
    ensures var i := Place(r.entries, n);
      Sum(Amend(r.entries, n, c)) == Sum(r.entries) + (if i < 0 then 0 else Changed(r.entries[i], c).bytes - r.entries[i].bytes)
  {
    AmendSum(r.entries, n, c);
    AmendPlaces(r.entries, n, c);
    hide RequestId, Place, Amend, Sum;
    var entries := Amend(r.entries, n, c);
    forall e | e in entries ensures e.n <= r.counter && e.bytes >= 0 && e.data.id == RequestId(e.n) {
      var i :| 0 <= i < |entries| && entries[i] == e;
      assert r.entries[i] in r.entries;
    }
  }

  lemma AmendSum(entries: seq<Entry>, n: nat, c: Change)
    ensures var i := Place(entries, n);
      Sum(Amend(entries, n, c)) == Sum(entries) + (if i < 0 then 0 else Changed(entries[i], c).bytes - entries[i].bytes)
  {
    var i := Place(entries, n);
    if i >= 0 {
      SumAmend(entries, i, Changed(entries[i], c));
    }
  }

  /** What a body update adds to the stray bytes: all of it when the record is held no more,
      and what the record counted for before when it is. */
  function StrayOf(r: Ring, n: nat, b: Body): int {
    if b.Omitted? then 0
    else
      var i := Place(r.entries, n);
      if i < 0 then |b.body| else r.entries[i].bytes
  }

  lemma BodyKeeps(r: Ring, n: nat, key: string, b: Body, reported: int, now: int)
    requires Sound(r)
    ensures var r' := UpdateBody(r, n, key, b, reported, now);
      Sound(r') && WithinBudgets(r') && Stray(r') == Stray(r) + StrayOf(r, n, b) && r'.counter == r.counter
  {
    AmendSound(r, n, Bodied(b, reported, now), r.total + Credit(b), {key});
    EvictSound(BodyTold(r, n, key, b, reported, now));
    EvictDrops(BodyTold(r, n, key, b, reported, now));
  }

  datatype Op =
    | Opened(tab: string, request: string, data: Captured)
    | Extra(tab: string, request: string, headers: map<string, string>)
    | Responded(n: nat, status: int, headers: map<string, string>, mime: string)
    | Finished(n: nat, key: string, b: Body, reported: int, now: int)
    | Failed(n: nat, key: string, now: int)

  function Apply(r: Ring, op: Op): Ring {
    match op
    case Opened(tab, request, data) => Begin(r, tab, request, data)
    case Extra(tab, request, headers) => ExtraHeaders(r, tab, request, headers)
    case Responded(n, status, headers, mime) => UpdateResponse(r, n, status, headers, mime)
    case Finished(n, key, b, reported, now) => UpdateBody(r, n, key, b, reported, now)
    case Failed(n, key, now) => MarkFailed(r, n, key, now)
  }

  lemma HeadersKeep(r: Ring, n: nat, headers: map<string, string>)
    requires Sound(r)
    ensures var r' := r.(entries := Amend(r.entries, n, Headed(headers)));
      Sound(r') && Stray(r') == Stray(r) && |r'.entries| == |r.entries|
  {
    hide RequestId, Place, Amend;
    assert r.keys - {} == r.keys;
    AmendSound(r, n, Headed(headers), r.total, {});
  }

  lemma PendingKeeps(r: Ring, pending: map<string, map<string, string>>)
    requires Sound(r)
    ensures Sound(r.(pending := pending)) && Stray(r.(pending := pending)) == Stray(r)
  {
  }

  lemma ExtraKeeps(r: Ring, tab: string, request: string, headers: map<string, string>)
    requires Sound(r)
    ensures var r' := ExtraHeaders(r, tab, request, headers);
      Sound(r') && Stray(r') == Stray(r) && r'.total == r.total && |r'.entries| == |r.entries|
  {
    var key := WireKey(tab, request);
    if key in r.keys {
      HeadersKeep(r, r.keys[key], headers);
    } else {
      PendingKeeps(r, r.pending[key := headers]);
    }
  }

  lemma ResponseKeeps(r: Ring, n: nat, status: int, headers: map<string, string>, mime: string)
    requires Sound(r)
    ensures var r' := UpdateResponse(r, n, status, headers, mime);
      Sound(r') && Stray(r') == Stray(r) && r'.total == r.total && |r'.entries| == |r.entries|
  {
    assert r.keys - {} == r.keys;
    AmendSound(r, n, Answered(status, headers, mime), r.total, {});
  }

  lemma FailureKeeps(r: Ring, n: nat, key: string, now: int)
    requires Sound(r)
    ensures var r' := MarkFailed(r, n, key, now);
      Sound(r') && Stray(r') == Stray(r) && r'.total == r.total && |r'.entries| == |r.entries|
  {
    AmendSound(r, n, Broken(now), r.total, {key});
  }

  function ApplyAll(r: Ring, ops: seq<Op>): Ring {
    if ops == [] then r else Apply(ApplyAll(r, ops[..|ops|-1]), ops[|ops|-1])
  }

  /** All the bytes credited to records already evicted, or told of their body before. */
  function StrayIn(r: Ring, ops: seq<Op>): int {
    if ops == [] then 0
    else
      var before, op := ApplyAll(r, ops[..|ops|-1]), ops[|ops|-1];
      StrayIn(r, ops[..|ops|-1]) + (if op.Finished? then StrayOf(before, op.n, op.b) else 0)
  }

  function Empty(capacity: int, maxBytes: int): Ring {
    Ring(capacity, maxBytes, [], map[], 0, 0, map[])
  }

  /** Over any sequence of operations: the ring is sound, holds its budgets, and counts the
      bytes it holds and exactly the stray ones. */
  lemma {:induction false} RingKeeps(capacity: int, maxBytes: int, ops: seq<Op>)
    ensures var r := ApplyAll(Empty(capacity, maxBytes), ops);
      && Sound(r) && WithinBudgets(r) && r.capacity == capacity && r.maxBytes == maxBytes
      && r.total == Sum(r.entries) + StrayIn(Empty(capacity, maxBytes), ops)
    decreases |ops|
  {
    hide RequestId, Place, Begin, UpdateBody;
    if ops != [] {
      var init, op := ops[..|ops|-1], ops[|ops|-1];
      RingKeeps(capacity, maxBytes, init);
      var r := ApplyAll(Empty(capacity, maxBytes), init);
      match op {
        case Opened(tab, request, data) =>
          BeginKeeps(r, tab, request, data);
          BeginBudget(r, tab, request, data);
        case Finished(n, key, b, reported, now) =>
          BodyKeeps(r, n, key, b, reported, now);
          BodyBudget(r, n, key, b, reported, now);
        case Extra(tab, request, headers) =>
          ExtraKeeps(r, tab, request, headers);
        case Responded(n, status, headers, mime) =>
          ResponseKeeps(r, n, status, headers, mime);
        case Failed(n, key, now) =>
          FailureKeeps(r, n, key, now);
      }
    }
  }

  /** A request that begins is the newest held, if any is; its headers are the event's own,
      overridden by the raw ones that came before it, which are then used up. */
  lemma BeginAdds(r: Ring, tab: string, request: string, data: Captured)
    ensures var r', key := Begin(r, tab, request, data), WireKey(tab, request);
      && key !in r'.pending
      && (r'.entries != [] ==>
            var e := r'.entries[|r'.entries|-1];
            && e.n == r.counter + 1 && e.key == key && e.bytes == 0 && e.data.tabId == tab && e.data.id == RequestId(e.n)
            && (forall h :: h in data.requestHeaders && (key !in r.pending || h !in r.pending[key]) ==>
                  h in e.data.requestHeaders && e.data.requestHeaders[h] == data.requestHeaders[h])
            && (key in r.pending ==> forall h :: h in r.pending[key] ==>
                  h in e.data.requestHeaders && e.data.requestHeaders[h] == r.pending[key][h]))
  {
    EvictDrops(Opening(r, tab, request, data));
  }

  lemma BeginBudget(r: Ring, tab: string, request: string, data: Captured)
    ensures Begin(r, tab, request, data).capacity == r.capacity && Begin(r, tab, request, data).maxBytes == r.maxBytes
  {
    EvictDrops(Opening(r, tab, request, data));
  }

  /** A body update tells its own record alone, if it is held: a kept body and its bytes, or the
      reason there is none, and in either case what was reported and when. Its key is retired. */
  lemma BodyTellsItsRecord(r: Ring, n: nat, key: string, b: Body, reported: int, now: int)
    ensures var r', i := BodyTold(r, n, key, b, reported, now), Place(r.entries, n);
      && |r'.entries| == |r.entries| && key !in r'.keys && (forall k :: k in r.keys && k != key ==> k in r'.keys && r'.keys[k] == r.keys[k])
      && (forall j :: 0 <= j < |r.entries| && j != i ==> r'.entries[j] == r.entries[j])
      && (i >= 0 ==>
            var was, e := r.entries[i], r'.entries[i];
            && e.n == was.n && e.key == was.key && e.data.url == was.data.url && e.data.status == was.data.status
            && e.data.bodyBytes == reported && e.data.completedAt == now && e.data.failed == was.data.failed
            && (b.Kept? ==> e.data.body == b.body && e.bytes == |b.body| && e.data.omitted == was.data.omitted)
            && (b.Omitted? ==> e.data.omitted && e.data.reason == b.reason && e.data.body == was.data.body && e.bytes == was.bytes))
  {
    hide Place;
  }

  /** A response tells its own record alone: status, headers and type; a failure, that it failed
      and when, and retires the key. */
  lemma ResponseTellsItsRecord(r: Ring, n: nat, key: string, status: int, headers: map<string, string>, mime: string, now: int)
    ensures var told, broken, i := UpdateResponse(r, n, status, headers, mime), MarkFailed(r, n, key, now), Place(r.entries, n);
      && |told.entries| == |broken.entries| == |r.entries| && told.keys == r.keys && broken.keys == r.keys - {key}
      && (forall j :: 0 <= j < |r.entries| && j != i ==> told.entries[j] == broken.entries[j] == r.entries[j])
      && (i >= 0 ==>
            && told.entries[i].data.status == status && told.entries[i].data.responseHeaders == headers
            && told.entries[i].data.mime == mime && told.entries[i].bytes == r.entries[i].bytes
            && told.entries[i].data.body == r.entries[i].data.body && told.entries[i].data.failed == r.entries[i].data.failed
            && broken.entries[i].data.failed && broken.entries[i].data.completedAt == now
            && broken.entries[i].data.status == r.entries[i].data.status && broken.entries[i].bytes == r.entries[i].bytes)
  {
    hide Place;
  }

  lemma BodyBudget(r: Ring, n: nat, key: string, b: Body, reported: int, now: int)
    ensures UpdateBody(r, n, key, b, reported, now).capacity == r.capacity
    ensures UpdateBody(r, n, key, b, reported, now).maxBytes == r.maxBytes
  {
    EvictDrops(BodyTold(r, n, key, b, reported, now));
  }

  lemma {:induction false} SumNonNegative(entries: seq<Entry>)
    requires forall i :: 0 <= i < |entries| ==> entries[i].bytes >= 0
    ensures Sum(entries) >= 0
  {
    if entries != [] {
      SumNonNegative(entries[1..]);
    }
  }

  /** Stray bytes are never taken off again. */
  lemma StepStrays(r: Ring, op: Op)
    requires Sound(r)
    ensures Sound(Apply(r, op)) && Stray(Apply(r, op)) >= Stray(r) && Apply(r, op).maxBytes == r.maxBytes
    ensures WithinBudgets(r) ==> WithinBudgets(Apply(r, op))
  {
    hide Place, RequestId, Evict, Amend, Merge, Sum, Begin, UpdateBody;
    match op {
      case Opened(tab, request, data) =>
        BeginKeeps(r, tab, request, data);
        BeginBudget(r, tab, request, data);
      case Finished(n, key, b, reported, now) =>
        BodyKeeps(r, n, key, b, reported, now);
        BodyBudget(r, n, key, b, reported, now);
        StrayOfNonNegative(r, n, b);
      case Extra(tab, request, headers) => ExtraKeeps(r, tab, request, headers);
      case Responded(n, status, headers, mime) => ResponseKeeps(r, n, status, headers, mime);
      case Failed(n, key, now) => FailureKeeps(r, n, key, now);
    }
  }

  lemma StrayOfNonNegative(r: Ring, n: nat, b: Body)
    requires Sound(r)
    ensures StrayOf(r, n, b) >= 0
  {
    hide RequestId;
    if Place(r.entries, n) >= 0 {
      assert r.entries[Place(r.entries, n)] in r.entries;
    }
  }

  lemma {:induction false} StrayNeverFalls(r: Ring, ops: seq<Op>)
    requires Sound(r)
    ensures Sound(ApplyAll(r, ops)) && Stray(ApplyAll(r, ops)) >= Stray(r) && ApplyAll(r, ops).maxBytes == r.maxBytes
    ensures WithinBudgets(r) ==> WithinBudgets(ApplyAll(r, ops))
    decreases |ops|
  {
    hide Apply, Sound, Stray, WithinBudgets;
    if ops != [] {
      StrayNeverFalls(r, ops[..|ops|-1]);
      StepStrays(ApplyAll(r, ops[..|ops|-1]), ops[|ops|-1]);
    }
  }

  /** The byte count keeps its budget exactly while the stray bytes do; and once they alone
      exceed it, the ring keeps no request, whatever comes after. */
  lemma StrayBytesDecide(r: Ring, ops: seq<Op>)
    requires Sound(r) && WithinBudgets(r)
    ensures r.total <= r.maxBytes <==> Stray(r) <= r.maxBytes
    ensures Stray(r) > r.maxBytes ==> r.entries == [] && ApplyAll(r, ops).entries == []
  {
    hide ApplyAll, Place, RequestId;
    SumNonNegative(r.entries);
    StrayNeverFalls(r, ops);
    SumNonNegative(ApplyAll(r, ops).entries);
  }

  /** Over any sequence of operations: the bytes counted keep the budget iff those credited to
      records evicted, or told of their body before, do. */
  lemma BudgetHoldsExactly(capacity: int, maxBytes: int, ops: seq<Op>)
    ensures ApplyAll(Empty(capacity, maxBytes), ops).total <= maxBytes <==> StrayIn(Empty(capacity, maxBytes), ops) <= maxBytes
  {
    hide ApplyAll, Sound, WithinBudgets, StrayIn;
    RingKeeps(capacity, maxBytes, ops);
    StrayBytesDecide(ApplyAll(Empty(capacity, maxBytes), ops), []);
  }

  // ---- bodies told once, of requests held ----

  /** A body update that keeps some text. */
  predicate Tells(op: Op, n: nat) {
    op.Finished? && op.n == n && op.b.Kept? && op.b.body != ""
  }

  ghost predicate WasTold(ops: seq<Op>, n: nat) {
    exists j :: 0 <= j < |ops| && Tells(ops[j], n)
  }

  predicate IsHeld(r: Ring, n: nat) {
    Place(r.entries, n) >= 0
  }

  /** An update that keeps a body keeps it for a held request not told of one before; one for a
      request that is gone keeps no text. */
  ghost predicate ToldInTime(r: Ring, before: seq<Op>, op: Op) {
    op.Finished? && op.b.Kept? ==> if IsHeld(r, op.n) then !WasTold(before, op.n) else op.b.body == ""
  }

  /** Every body update is made once, on a request that is held. */
  ghost predicate ToldOnceHeld(r: Ring, ops: seq<Op>)
    decreases |ops|
  {
    ops == [] ||
    var init, op := ops[..|ops|-1], ops[|ops|-1];
    ToldOnceHeld(r, init) && ToldInTime(ApplyAll(r, init), init, op)
  }

  lemma WasToldSteps(ops: seq<Op>, n: nat)
    requires ops != []
    ensures WasTold(ops, n) <==> WasTold(ops[..|ops|-1], n) || Tells(ops[|ops|-1], n)
  {
    var init := ops[..|ops|-1];
    if j :| 0 <= j < |init| && Tells(init[j], n) {
      assert Tells(ops[j], n);
    }
    if j :| 0 <= j < |ops| && Tells(ops[j], n) {
      assert j < |init| ==> Tells(init[j], n);
    }
  }

  /** What an operation makes of a held record's bytes: those of the body it is told, or as they were. */
  ghost predicate BytesFrom(r: Ring, op: Op, e: Entry) {
    || (op.Opened? && e.n == r.counter + 1 && e.bytes == 0)
    || exists old_ :: old_ in r.entries && BytesOf(op, old_, e)
  }

  predicate BytesOf(op: Op, was: Entry, e: Entry) {
    was.n == e.n && e.bytes == if op.Finished? && op.n == e.n && op.b.Kept? then |op.b.body| else was.bytes
  }

  lemma EvictKeepsOnly(r: Ring, e: Entry)
    requires e in Evict(r).entries
    ensures e in r.entries
  {
    hide Evict, Sum;
    EvictDrops(r);
  }

  lemma AmendBytes(r: Ring, op: Op, n: nat, c: Change, e: Entry)
    requires Sound(r) && e in Amend(r.entries, n, c)
    requires if op.Finished? then op.n == n && c == Bodied(op.b, op.reported, op.now) else !c.Bodied?
    ensures exists was :: was in r.entries && BytesOf(op, was, e)
  {
    hide RequestId;
    AmendPlaces(r.entries, n, c);
    PlaceAll(r, n);
    hide Place;
    var entries := Amend(r.entries, n, c);
    var i :| 0 <= i < |entries| && entries[i] == e;
    assert r.entries[i] in r.entries && BytesOf(op, r.entries[i], e);
  }

  lemma PlaceAll(r: Ring, n: nat)
    requires Sound(r)
    ensures forall i :: 0 <= i < |r.entries| && r.entries[i].n == n ==> Place(r.entries, n) == i
  {
    hide RequestId;
    forall i | 0 <= i < |r.entries| && r.entries[i].n == n ensures Place(r.entries, n) == i {
      PlaceFinds(r.entries, i);
    }
  }

  lemma StepBytes(r: Ring, op: Op, e: Entry)
    requires Sound(r) && e in Apply(r, op).entries
    ensures BytesFrom(r, op, e)
  {
    hide Place, RequestId, Evict, Amend, Merge, Sound, Sum, BytesOf;
    match op
    case Opened(tab, request, data) =>
      EvictKeepsOnly(Opening(r, tab, request, data), e);
      OpenedBytes(r, tab, request, data, e);
    case Finished(n, key, b, reported, now) =>
      EvictKeepsOnly(BodyTold(r, n, key, b, reported, now), e);
      AmendBytes(r, op, n, Bodied(b, reported, now), e);
    case Failed(n, _, now) => AmendBytes(r, op, n, Broken(now), e);
    case Responded(n, status, headers, mime) => AmendBytes(r, op, n, Answered(status, headers, mime), e);
    case Extra(tab, request, headers) =>
      if WireKey(tab, request) in r.keys {
        AmendBytes(r, op, r.keys[WireKey(tab, request)], Headed(headers), e);
      } else {
        assert BytesOf(op, e, e) by { SameBytes(op, e); }
      }
  }

  lemma OpenedBytes(r: Ring, tab: string, request: string, data: Captured, e: Entry)
    requires e in Opening(r, tab, request, data).entries
    ensures BytesFrom(r, Opened(tab, request, data), e)
  {
    hide Merge, RequestId;
    var op := Opened(tab, request, data);
    assert e in r.entries ==> BytesOf(op, e, e);
  }

  lemma SameBytes(op: Op, e: Entry)
    requires !op.Finished?
    ensures BytesOf(op, e, e)
  {
  }

  /** A held record counts bytes iff it was told of a body, and only requests there have been were. */
  ghost predicate BytesAsTold(r: Ring, ops: seq<Op>) {
    && (forall e :: e in r.entries ==> e.bytes >= 0 && (e.bytes > 0 <==> WasTold(ops, e.n)))
    && (forall n: nat :: WasTold(ops, n) ==> n <= r.counter)
  }

  lemma BytesStep(r: Ring, ops: seq<Op>)
    requires ops != [] && Sound(r) && BytesAsTold(r, ops[..|ops|-1])
    requires ToldInTime(r, ops[..|ops|-1], ops[|ops|-1])
    ensures BytesAsTold(Apply(r, ops[|ops|-1]), ops)
  {
    hide Place, RequestId, Apply, WasTold;
    var init, op := ops[..|ops|-1], ops[|ops|-1];
    forall e | e in Apply(r, op).entries ensures e.bytes >= 0 && (e.bytes > 0 <==> WasTold(ops, e.n)) {
      StepBytes(r, op, e);
      WasToldSteps(ops, e.n);
      if !(op.Opened? && e.n == r.counter + 1 && e.bytes == 0) {
        var was :| was in r.entries && BytesOf(op, was, e);
        HeldHere(r, was);
      }
    }
    StepCounter(r, op);
    forall n: nat | WasTold(ops, n) ensures n <= Apply(r, op).counter {
      WasToldSteps(ops, n);
      if Tells(op, n) {
        assert r.entries[Place(r.entries, n)] in r.entries;
      }
    }
  }

  lemma HeldHere(r: Ring, e: Entry)
    requires Sound(r) && e in r.entries
    ensures IsHeld(r, e.n) && r.entries[Place(r.entries, e.n)] == e
  {
    hide RequestId;
    PlaceAll(r, e.n);
  }

  lemma StrayInNonNegative(capacity: int, maxBytes: int, ops: seq<Op>)
    ensures StrayIn(Empty(capacity, maxBytes), ops) >= 0
  {
    hide Apply, StrayIn, ApplyAll;
    RingKeeps(capacity, maxBytes, ops);
    StrayNeverFalls(Empty(capacity, maxBytes), ops);
  }

  /** No byte is ever stray iff every body update is made once, on a request that is held. */
  lemma {:induction false} ToldOnceExactly(capacity: int, maxBytes: int, ops: seq<Op>)
    ensures StrayIn(Empty(capacity, maxBytes), ops) == 0 <==> ToldOnceHeld(Empty(capacity, maxBytes), ops)
    ensures ToldOnceHeld(Empty(capacity, maxBytes), ops) ==> BytesAsTold(ApplyAll(Empty(capacity, maxBytes), ops), ops)
    decreases |ops|
  {
    hide Apply, Place, RequestId, Sound, WithinBudgets, WasTold, BytesAsTold;
    var e := Empty(capacity, maxBytes);
    if ops == [] {
      NothingTold(e);
    } else {
      var init, op := ops[..|ops|-1], ops[|ops|-1];
      var r := ApplyAll(e, init);
      RingKeeps(capacity, maxBytes, init);
      StrayInNonNegative(capacity, maxBytes, init);
      ToldOnceExactly(capacity, maxBytes, init);
      if op.Finished? {
        StrayOfNonNegative(r, op.n, op.b);
      }
      if ToldOnceHeld(e, init) {
        ToldStrays(r, init, op);
        if ToldInTime(r, init, op) {
          BytesStep(r, ops);
        }
      }
    }
  }

  lemma NothingTold(r: Ring)
    requires r.entries == []
    ensures BytesAsTold(r, [])
  {
  }

  lemma ToldStrays(r: Ring, before: seq<Op>, op: Op)
    requires Sound(r) && BytesAsTold(r, before)
    ensures ToldInTime(r, before, op) <==> (op.Finished? ==> StrayOf(r, op.n, op.b) == 0)
  {
    hide Place, RequestId, WasTold;
    if op.Finished? && Place(r.entries, op.n) >= 0 {
      assert r.entries[Place(r.entries, op.n)] in r.entries;
    }
  }

  /** With every body update made once, on a request that is held, the bytes counted are those
      held, and keep the budget. */
  lemma ToldOnceKeepsBudget(capacity: int, maxBytes: int, ops: seq<Op>)
    requires ToldOnceHeld(Empty(capacity, maxBytes), ops)
    ensures var r := ApplyAll(Empty(capacity, maxBytes), ops);
      r.total == Sum(r.entries) && (maxBytes >= 0 ==> r.total <= maxBytes)
  {
    hide ApplyAll, StrayIn, ToldOnceHeld;
    ToldOnceExactly(capacity, maxBytes, ops);
    RingKeeps(capacity, maxBytes, ops);
    BudgetHoldsExactly(capacity, maxBytes, ops);
  }

  /** Two requests, each told of its body once, the second of one too big to keep: the first is
      gone when its own comes. */
  function TwoBodies(data: Captured, big: string): seq<Op> {
    [Opened("t", "1", data), Opened("t", "2", data),
     Finished(2, WireKey("t", "2"), Kept(big), |big|, 0), Finished(1, WireKey("t", "1"), Kept(big), |big|, 0)]
  }

  /** A request that begins is held, as the newest, when what is counted is within the budget. */
  lemma OpenedIsHeld(r: Ring, tab: string, request: string, data: Captured)
    requires Sound(r) && r.capacity >= 1 && r.total <= r.maxBytes
    ensures var r' := Begin(r, tab, request, data);
      r'.entries != [] && r'.entries[|r'.entries|-1].n == r.counter + 1 && IsHeld(r', r.counter + 1)
  {
    hide RequestId, Place, Evict, Merge, Sum;
    var s := Opening(r, tab, request, data);
    EvictShortest(s);
    BeginKeeps(r, tab, request, data);
    SumNonNegative(r.entries);
    assert s.entries[..|r.entries|] == r.entries;
    var r' := Evict(s);
    assert !Over(Without(s, |r.entries|));
    var e := r'.entries[|r'.entries|-1];
    assert e == s.entries[|r.entries|] && e in r'.entries;
    HeldHere(r', e);
  }

  /** Of a body too big for the budget, told in time, nothing is kept. */
  lemma BigBody(capacity: int, maxBytes: int, data: Captured, big: string)
    requires capacity >= 1 && 0 <= maxBytes < |big|
    ensures var r := ApplyAll(Empty(capacity, maxBytes), TwoBodies(data, big)[..3]);
      r.entries == [] && r.total == 0 && r.maxBytes == maxBytes
  {
    hide Sound, RequestId, Sum, Begin, UpdateBody, Place, StrayOf, StrayIn;
    var e, run := Empty(capacity, maxBytes), TwoBodies(data, big);
    assert run[..1] == [run[0]] && run[..2] == [run[0]] + [run[1]] && run[..3] == run[..2] + [run[2]] && run[..1][..0] == [];
    assert run[..2][..1] == run[..1] && run[..3][..2] == run[..2];
    var r1, r2 := ApplyAll(e, run[..1]), ApplyAll(e, run[..2]);
    NothingOpened(e, run[..1]);
    NothingOpened(e, run[..2]);
    ToldOnceKeepsBudget(capacity, maxBytes, run[..1]);
    RingKeeps(capacity, maxBytes, run[..1]);
    RingKeeps(capacity, maxBytes, run[..2]);
    assert r1 == Begin(e, "t", "1", data) && r2 == Begin(r1, "t", "2", data);
    RingKeeps(capacity, maxBytes, []);
    BeginKeeps(e, "t", "1", data);
    OpenedIsHeld(r1, "t", "2", data);
    assert ToldOnceHeld(e, run[..3]);
    ToldOnceKeepsBudget(capacity, maxBytes, run[..3]);
    RingKeeps(capacity, maxBytes, run[..3]);
    LastTold(r2, big);
  }

  lemma NothingOpened(r: Ring, ops: seq<Op>)
    requires forall i :: 0 <= i < |ops| ==> ops[i].Opened?
    ensures ToldOnceHeld(r, ops) && forall n :: !WasTold(ops, n)
  {
    if ops != [] {
      NothingOpened(r, ops[..|ops|-1]);
    }
  }

  lemma {:induction false} SumHasLast(entries: seq<Entry>)
    requires entries != [] && forall i :: 0 <= i < |entries| ==> entries[i].bytes >= 0
    ensures Sum(entries) >= entries[|entries|-1].bytes
  {
    if |entries| > 1 {
      SumHasLast(entries[1..]);
    }
  }

  lemma LastTold(r: Ring, big: string)
    requires Sound(r) && r.entries != [] && r.entries[|r.entries|-1].n == 2 && |big| > r.maxBytes
    ensures var r' := UpdateBody(r, 2, WireKey("t", "2"), Kept(big), |big|, 0);
      r'.total == Sum(r'.entries) ==> r'.entries == []
  {
    hide Evict, RequestId, Place, Sum;
    var told := BodyTold(r, 2, WireKey("t", "2"), Kept(big), |big|, 0);
    var r' := Evict(told);
    BodyKeeps(r, 2, WireKey("t", "2"), Kept(big), |big|, 0);
    EvictDrops(told);
    PlaceAll(r, 2);
    assert told.entries[|r.entries|-1].bytes == |big|;
    if r'.entries != [] {
      SumHasLast(r'.entries);
    }
  }

  lemma GoneBody(r: Ring, big: string)
    requires r.entries == []
    ensures var r' := Apply(r, Finished(1, WireKey("t", "1"), Kept(big), |big|, 0));
      r'.entries == [] && r'.total == r.total + |big| && r'.maxBytes == r.maxBytes
  {
  }

  lemma RingTotal(r: Ring)
    requires r.entries == []
    ensures Stray(r) == r.total
  {
  }

  /** Whatever its capacity and budget, the ring then counts more than its budget of bytes it does
      not hold, and holds no request ever again. */
  lemma LateBodyEmptiesRing(capacity: int, maxBytes: int, data: Captured, big: string, ops: seq<Op>)
    requires capacity >= 1 && 0 <= maxBytes < |big|
    ensures var r := ApplyAll(Empty(capacity, maxBytes), TwoBodies(data, big));
      r.entries == [] && r.total == |big| > maxBytes && ApplyAll(r, ops).entries == []
  {
    hide Sound, RequestId, Apply, StrayOf, Sum;
    var run := TwoBodies(data, big);
    assert run[..3] + [run[3]] == run;
    BigBody(capacity, maxBytes, data, big);
    var r3 := ApplyAll(Empty(capacity, maxBytes), run[..3]);
    GoneBody(r3, big);
    RingKeeps(capacity, maxBytes, run);
    var r := ApplyAll(Empty(capacity, maxBytes), run);
    assert r == Apply(r3, run[3]);
    RingTotal(r);
    StrayBytesDecide(r, ops);
  }

  /** A wire key used again is forgotten when its first record goes, though the second is held. */
  lemma RepeatedKeyForgotten(data: Captured)
    ensures var r := Begin(Begin(Empty(1, 0), "t", "1", data), "t", "1", data);
      |r.entries| == 1 && r.entries[0].n == 2 && r.entries[0].key == WireKey("t", "1") && r.keys == map[]
  {
    var key := WireKey("t", "1");
    var r1 := Begin(Empty(1, 0), "t", "1", data);
    assert r1.entries == [Entry(1, key, 0, data.(id := RequestId(1), tabId := "t"))] && r1.total == 0;
    assert r1.keys == map[key := 1] && r1.pending == map[];
    var e := Entry(2, key, 0, data.(id := RequestId(2), tabId := "t"));
    var s := Opening(r1, "t", "1", data);
    assert s.entries == r1.entries + [e] && s.keys == map[key := 2];
    assert s.entries[1..] == [e];
    assert Evict(s) == Evict(Dropped(s)) == Dropped(s);
  }

  // ---- finding a request by its wire key ----

  /** How many of the oldest an eviction drops. */
  function Fallen(r: Ring): nat
    ensures Fallen(r) <= |r.entries|
  {
    EvictDrops(r);
    |r.entries| - |Evict(r).entries|
  }

  /** An eviction that drops another record of the key. */
  ghost predicate DropsOther(r: Ring, n: nat, key: string) {
    exists j :: 0 <= j < Fallen(r) && r.entries[j].key == key && r.entries[j].n != n
  }

  /** What makes the store lose sight of record `n` under its key: a later request under the key,
      a finished or failed one under it, or the eviction of another record of it. */
  ghost predicate Disturbs(r: Ring, op: Op, n: nat, key: string) {
    match op
    case Opened(tab, request, data) =>
      (r.counter + 1 != n && WireKey(tab, request) == key) || DropsOther(Opening(r, tab, request, data), n, key)
    case Finished(m, k, b, reported, now) => k == key || DropsOther(BodyTold(r, m, k, b, reported, now), n, key)
    case Failed(_, k, _) => k == key
    case Extra(_, _, _) => false
    case Responded(_, _, _, _) => false
  }

  predicate Found(r: Ring, n: nat, key: string) {
    key in r.keys && r.keys[key] == n
  }

  /** Held, under that key. */
  ghost predicate HeldAs(r: Ring, n: nat, key: string) {
    exists i :: 0 <= i < |r.entries| && r.entries[i].n == n && r.entries[i].key == key
  }

  /** An eviction takes exactly the keys of what it drops. */
  lemma {:induction false} EvictKeys(r: Ring, k: string)
    ensures k in Evict(r).keys <==> k in r.keys && forall j :: 0 <= j < |r.entries| - |Evict(r).entries| ==> r.entries[j].key != k
    ensures k in Evict(r).keys ==> Evict(r).keys[k] == r.keys[k]
    decreases |r.entries|
  {
    if r.entries != [] && Over(r) {
      var s := Dropped(r);
      EvictKeys(s, k);
      EvictDrops(s);
      var d := |r.entries| - |Evict(r).entries|;
      assert forall j :: 0 < j < d ==> r.entries[j] == s.entries[j-1];
      if k in s.keys && forall j :: 0 <= j < d - 1 ==> s.entries[j].key != k {
        forall j | 0 <= j < d ensures r.entries[j].key != k {
          if j > 0 {
            assert r.entries[j] == s.entries[j-1];
          }
        }
      }
      if forall j :: 0 <= j < d ==> r.entries[j].key != k {
        forall j | 0 <= j < d - 1 ensures s.entries[j].key != k {
          assert s.entries[j] == r.entries[j+1];
        }
      }
    }
  }

  lemma EvictFinds(r: Ring, n: nat, key: string)
    requires Sound(r) && HeldAs(Evict(r), n, key)
    ensures HeldAs(r, n, key) && (Found(Evict(r), n, key) <==> Found(r, n, key) && !DropsOther(r, n, key))
  {
    hide Place, RequestId, Evict, Sum;
    EvictKeys(r, key);
    EvictDrops(r);
    var d, kept := Fallen(r), Evict(r).entries;
    var i :| 0 <= i < |kept| && kept[i].n == n && kept[i].key == key;
    assert r.entries[d + i] == kept[i];
    forall j | 0 <= j < d ensures r.entries[j].n != n {
    }
  }

  /** The places, numbers and keys a change in place leaves. */
  lemma AmendHolds(entries: seq<Entry>, m: nat, c: Change, n: nat, key: string)
    ensures (exists i :: 0 <= i < |entries| && entries[i].n == n && entries[i].key == key) <==>
            (exists i :: 0 <= i < |entries| && Amend(entries, m, c)[i].n == n && Amend(entries, m, c)[i].key == key)
  {
    AmendPlaces(entries, m, c);
    hide Place, Amend;
    if i :| 0 <= i < |entries| && entries[i].n == n && entries[i].key == key {
      assert Amend(entries, m, c)[i].n == n;
    }
    if i :| 0 <= i < |entries| && Amend(entries, m, c)[i].n == n && Amend(entries, m, c)[i].key == key {
      assert entries[i].n == n;
    }
  }

  lemma LaterOpenFinds(r: Ring, tab: string, request: string, data: Captured, n: nat, key: string)
    requires Sound(r) && n <= r.counter && HeldAs(Begin(r, tab, request, data), n, key)
    ensures HeldAs(r, n, key)
    ensures Found(Begin(r, tab, request, data), n, key) <==> Found(r, n, key) && !Disturbs(r, Opened(tab, request, data), n, key)
  {
    hide Place, RequestId, Evict, Merge, DropsOther, Sound;
    var s := Opening(r, tab, request, data);
    OpeningSound(r, tab, request, data);
    EvictFinds(s, n, key);
    var i :| 0 <= i < |s.entries| && s.entries[i].n == n && s.entries[i].key == key;
    assert i < |r.entries|;
  }

  lemma BodyFinds(r: Ring, m: nat, k: string, b: Body, reported: int, now: int, n: nat, key: string)
    requires Sound(r) && HeldAs(UpdateBody(r, m, k, b, reported, now), n, key)
    ensures HeldAs(r, n, key)
    ensures Found(UpdateBody(r, m, k, b, reported, now), n, key) <==>
            Found(r, n, key) && !Disturbs(r, Finished(m, k, b, reported, now), n, key)
  {
    hide Place, RequestId, Evict, Amend, DropsOther, Sound;
    AmendSound(r, m, Bodied(b, reported, now), r.total + Credit(b), {k});
    EvictFinds(BodyTold(r, m, k, b, reported, now), n, key);
    AmendHolds(r.entries, m, Bodied(b, reported, now), n, key);
  }

  /** A record held after an operation that did not open it was held before, and is found iff it
      was and the operation does not disturb it. */
  lemma StepFinds(r: Ring, op: Op, n: nat, key: string)
    requires Sound(r) && n <= r.counter && HeldAs(Apply(r, op), n, key)
    ensures HeldAs(r, n, key) && (Found(Apply(r, op), n, key) <==> Found(r, n, key) && !Disturbs(r, op, n, key))
  {
    hide Place, RequestId, Evict, Amend, Merge, DropsOther, Sound, Begin, UpdateBody;
    match op
    case Opened(tab, request, data) => LaterOpenFinds(r, tab, request, data, n, key);
    case Finished(m, k, b, reported, now) => BodyFinds(r, m, k, b, reported, now, n, key);
    case Failed(m, _, now) => AmendHolds(r.entries, m, Broken(now), n, key);
    case Responded(m, status, headers, mime) => AmendHolds(r.entries, m, Answered(status, headers, mime), n, key);
    case Extra(tab, request, headers) =>
      if WireKey(tab, request) in r.keys {
        AmendHolds(r.entries, r.keys[WireKey(tab, request)], Headed(headers), n, key);
      }
  }

  lemma OpeningSound(r: Ring, tab: string, request: string, data: Captured)
    requires Sound(r)
    ensures Sound(Opening(r, tab, request, data))
  {
    hide Place, RequestId, Merge;
    var s := Opening(r, tab, request, data);
    AddSound(r.(counter := r.counter + 1, pending := s.pending), s.entries[|r.entries|]);
  }

  /** A record just opened is found, unless its own opening evicts another record of its key. */
  lemma OpenFinds(r: Ring, op: Op, n: nat, key: string)
    requires Sound(r) && op.Opened? && n == r.counter + 1 && key == WireKey(op.tab, op.request)
    requires HeldAs(Apply(r, op), n, key)
    ensures Found(Apply(r, op), n, key) <==> !Disturbs(r, op, n, key)
  {
    hide Place, RequestId, Evict, Merge, DropsOther;
    OpeningSound(r, op.tab, op.request, op.data);
    EvictFinds(Opening(r, op.tab, op.request, op.data), n, key);
  }

  lemma StepCounter(r: Ring, op: Op)
    ensures Apply(r, op).counter == r.counter + if op.Opened? then 1 else 0
  {
    hide Place, RequestId, Evict, Amend, Merge;
    match op
    case Opened(tab, request, data) => EvictDrops(Opening(r, tab, request, data));
    case Finished(m, k, b, reported, now) => EvictDrops(BodyTold(r, m, k, b, reported, now));
    case _ =>
  }

  /** No operation from the `o`-th on disturbed the record. */
  ghost predicate Undisturbed(r: Ring, ops: seq<Op>, o: nat, n: nat, key: string) {
    forall i :: o <= i < |ops| ==> !Disturbs(ApplyAll(r, ops[..i]), ops[i], n, key)
  }

  lemma UndisturbedOpen(r: Ring, ops: seq<Op>, n: nat, key: string)
    requires ops != []
    ensures Undisturbed(r, ops, |ops| - 1, n, key) <==> !Disturbs(ApplyAll(r, ops[..|ops|-1]), ops[|ops|-1], n, key)
  {
    hide ApplyAll, Disturbs;
  }

  lemma UndisturbedStep(r: Ring, ops: seq<Op>, o: nat, n: nat, key: string)
    requires o < |ops| - 1
    ensures Undisturbed(r, ops, o, n, key) <==>
            Undisturbed(r, ops[..|ops|-1], o, n, key) && !Disturbs(ApplyAll(r, ops[..|ops|-1]), ops[|ops|-1], n, key)
  {
    hide ApplyAll, Disturbs;
    assert forall i :: 0 <= i < |ops| - 1 ==> ops[..|ops|-1][..i] == ops[..i] && ops[..|ops|-1][i] == ops[i];
  }

  /** Over any sequence of operations: a request that is held is found under its wire key iff
      nothing since it was opened, its opening included, disturbed it. */
  lemma {:induction false} FoundExactly(capacity: int, maxBytes: int, ops: seq<Op>, o: nat)
    requires o < |ops| && ops[o].Opened?
    requires HeldAs(ApplyAll(Empty(capacity, maxBytes), ops), ApplyAll(Empty(capacity, maxBytes), ops[..o]).counter + 1,
                    WireKey(ops[o].tab, ops[o].request))
    ensures var n, key := ApplyAll(Empty(capacity, maxBytes), ops[..o]).counter + 1, WireKey(ops[o].tab, ops[o].request);
      && n <= ApplyAll(Empty(capacity, maxBytes), ops).counter
      && (Found(ApplyAll(Empty(capacity, maxBytes), ops), n, key) <==>
            Undisturbed(Empty(capacity, maxBytes), ops, o, n, key))
    decreases |ops|
  {
    hide Apply, Disturbs, HeldAs, Found, Sound, Undisturbed, Sum, StrayIn;
    var init, op := ops[..|ops|-1], ops[|ops|-1];
    var r := ApplyAll(Empty(capacity, maxBytes), init);
    var n, key := ApplyAll(Empty(capacity, maxBytes), ops[..o]).counter + 1, WireKey(ops[o].tab, ops[o].request);
    RingKeeps(capacity, maxBytes, init);
    StepCounter(r, op);
    if o == |ops| - 1 {
      assert ops[..o] == init;
      OpenFinds(r, op, n, key);
      UndisturbedOpen(Empty(capacity, maxBytes), ops, n, key);
    } else {
      assert init[..o] == ops[..o] && init[o] == ops[o];
      CounterBy(Empty(capacity, maxBytes), init, o);
      StepFinds(r, op, n, key);
      FoundExactly(capacity, maxBytes, init, o);
      UndisturbedStep(Empty(capacity, maxBytes), ops, o, n, key);
    }
  }

  lemma {:induction false} CounterBy(r: Ring, ops: seq<Op>, o: nat)
    requires o < |ops| && ops[o].Opened?
    ensures ApplyAll(r, ops[..o]).counter + 1 <= ApplyAll(r, ops).counter
    decreases |ops|
  {
    hide Apply;
    var init := ops[..|ops|-1];
    StepCounter(ApplyAll(r, init), ops[|ops|-1]);
    if o < |ops| - 1 {
      assert init[..o] == ops[..o];
      CounterBy(r, init, o);
    } else {
      assert init == ops[..o];
    }
  }

  /** The number the `o`-th operation gives the record it opens. */
  function Number(r: Ring, ops: seq<Op>, o: nat): nat
    requires o < |ops|
  {
    ApplyAll(r, ops[..o]).counter + 1
  }

  ghost predicate OpensAs(r: Ring, ops: seq<Op>, o: nat, n: nat, key: string) {
    o < |ops| && ops[o].Opened? && WireKey(ops[o].tab, ops[o].request) == key && Number(r, ops, o) == n
  }

  lemma EvictHolds(r: Ring, n: nat, key: string)
    requires HeldAs(Evict(r), n, key)
    ensures HeldAs(r, n, key)
  {
    hide Evict;
    EvictTail(r);
    var d, kept := |r.entries| - |Evict(r).entries|, Evict(r).entries;
    var i :| 0 <= i < |kept| && kept[i].n == n && kept[i].key == key;
    assert r.entries[d + i] == kept[i];
  }

  lemma NewestIs(r: Ring, tab: string, request: string, data: Captured, n: nat, key: string)
    requires Sound(r) && HeldAs(Opening(r, tab, request, data), n, key) && n > r.counter
    ensures n == r.counter + 1 && key == WireKey(tab, request)
  {
    hide Place, RequestId, Merge;
    var entries := Opening(r, tab, request, data).entries;
    var i :| 0 <= i < |entries| && entries[i].n == n && entries[i].key == key;
    assert forall x :: 0 <= x < |r.entries| ==> entries[x] == r.entries[x] && r.entries[x] in r.entries;
  }

  lemma NewHeld(r: Ring, op: Op, n: nat, key: string)
    requires Sound(r) && HeldAs(Apply(r, op), n, key) && n > r.counter
    ensures op.Opened? && n == r.counter + 1 && key == WireKey(op.tab, op.request)
  {
    hide Place, RequestId, Evict, Amend, Merge, Sound;
    match op
    case Opened(tab, request, data) =>
      EvictHolds(Opening(r, tab, request, data), n, key);
      NewestIs(r, tab, request, data, n, key);
    case Finished(m, k, b, reported, now) =>
      EvictHolds(BodyTold(r, m, k, b, reported, now), n, key);
      AmendHolds(r.entries, m, Bodied(b, reported, now), n, key);
      NotHeldYet(r, n, key);
    case Failed(m, _, now) =>
      AmendHolds(r.entries, m, Broken(now), n, key);
      NotHeldYet(r, n, key);
    case Responded(m, status, headers, mime) =>
      AmendHolds(r.entries, m, Answered(status, headers, mime), n, key);
      NotHeldYet(r, n, key);
    case Extra(tab, request, headers) =>
      if WireKey(tab, request) in r.keys {
        AmendHolds(r.entries, r.keys[WireKey(tab, request)], Headed(headers), n, key);
      }
      NotHeldYet(r, n, key);
  }

  lemma NotHeldYet(r: Ring, n: nat, key: string)
    requires Sound(r) && n > r.counter
    ensures !HeldAs(r, n, key)
  {
    hide Place, RequestId;
    assert forall i :: 0 <= i < |r.entries| ==> r.entries[i] in r.entries;
  }

  /** Every record held was opened, under its key. */
  lemma {:induction false} HeldWasOpened(capacity: int, maxBytes: int, ops: seq<Op>, n: nat, key: string)
    requires HeldAs(ApplyAll(Empty(capacity, maxBytes), ops), n, key)
    ensures exists o: nat :: OpensAs(Empty(capacity, maxBytes), ops, o, n, key)
    decreases |ops|
  {
    hide Apply, Sound, WithinBudgets, Sum, StrayIn, OpensAs;
    var e := Empty(capacity, maxBytes);
    if ops != [] {
      var init, op := ops[..|ops|-1], ops[|ops|-1];
      var r := ApplyAll(e, init);
      RingKeeps(capacity, maxBytes, init);
      if n > r.counter {
        NewHeld(r, op, n, key);
        OpensLast(e, ops, n, key);
      } else {
        StepFinds(r, op, n, key);
        HeldWasOpened(capacity, maxBytes, init, n, key);
        var o: nat :| OpensAs(e, init, o, n, key);
        OpensStays(e, ops, o, n, key);
      }
    }
  }

  lemma OpensLast(r: Ring, ops: seq<Op>, n: nat, key: string)
    requires ops != [] && ops[|ops|-1].Opened? && WireKey(ops[|ops|-1].tab, ops[|ops|-1].request) == key
    requires n == ApplyAll(r, ops[..|ops|-1]).counter + 1
    ensures OpensAs(r, ops, |ops| - 1, n, key)
  {
    hide ApplyAll;
  }

  lemma OpensStays(r: Ring, ops: seq<Op>, o: nat, n: nat, key: string)
    requires ops != [] && OpensAs(r, ops[..|ops|-1], o, n, key)
    ensures OpensAs(r, ops, o, n, key)
  {
    hide ApplyAll;
    assert ops[..|ops|-1][..o] == ops[..o];
  }

  /** No wire key is used for two requests. */
  ghost predicate KeysOnce(ops: seq<Op>) {
    forall i, j :: 0 <= i < j < |ops| && ops[i].Opened? && ops[j].Opened? ==>
      WireKey(ops[i].tab, ops[i].request) != WireKey(ops[j].tab, ops[j].request)
  }

  /** A body or a failure is told of a record under the key it was opened with. */
  ghost predicate OwnKey(r: Ring, ops: seq<Op>, i: nat)
    requires i < |ops|
  {
    && (ops[i].Finished? ==> exists o: nat :: o < i && OpensAs(r, ops, o, ops[i].n, ops[i].key))
    && (ops[i].Failed? ==> exists o: nat :: o < i && OpensAs(r, ops, o, ops[i].n, ops[i].key))
  }

  /** With each wire key used once, every request held and not yet finished or failed is found. */
  lemma UniqueKeysAreFound(capacity: int, maxBytes: int, ops: seq<Op>, o: nat)
    requires KeysOnce(ops) && forall i :: 0 <= i < |ops| ==> OwnKey(Empty(capacity, maxBytes), ops, i)
    requires o < |ops| && ops[o].Opened?
    requires var n := Number(Empty(capacity, maxBytes), ops, o);
      && HeldAs(ApplyAll(Empty(capacity, maxBytes), ops), n, WireKey(ops[o].tab, ops[o].request))
      && forall i :: 0 <= i < |ops| && (ops[i].Finished? || ops[i].Failed?) ==> ops[i].n != n
    ensures Found(ApplyAll(Empty(capacity, maxBytes), ops), Number(Empty(capacity, maxBytes), ops, o),
                  WireKey(ops[o].tab, ops[o].request))
  {
    hide ApplyAll, Found, HeldAs, Undisturbed, OwnKey, KeysOnce;
    FoundExactly(capacity, maxBytes, ops, o);
    NoneDisturbs(capacity, maxBytes, ops, o);
  }

  lemma NoneDisturbs(capacity: int, maxBytes: int, ops: seq<Op>, o: nat)
    requires KeysOnce(ops) && o < |ops| && ops[o].Opened?
    requires forall i :: 0 <= i < |ops| ==> OwnKey(Empty(capacity, maxBytes), ops, i)
    requires forall i :: 0 <= i < |ops| && (ops[i].Finished? || ops[i].Failed?) ==> ops[i].n != Number(Empty(capacity, maxBytes), ops, o)
    ensures Undisturbed(Empty(capacity, maxBytes), ops, o, Number(Empty(capacity, maxBytes), ops, o), WireKey(ops[o].tab, ops[o].request))
  {
    hide ApplyAll, Disturbs, OwnKey, KeysOnce, Number;
    forall i | o <= i < |ops|
      ensures !Disturbs(ApplyAll(Empty(capacity, maxBytes), ops[..i]), ops[i], Number(Empty(capacity, maxBytes), ops, o),
                        WireKey(ops[o].tab, ops[o].request)) {
      NotDisturbed(capacity, maxBytes, ops, o, i);
    }
  }

  /** Of a key used once, no other record is ever held. */
  lemma OnlyRecord(capacity: int, maxBytes: int, ops: seq<Op>, o: nat, i: nat, m: nat)
    requires KeysOnce(ops) && o < |ops| && ops[o].Opened? && i <= |ops|
    requires HeldAs(ApplyAll(Empty(capacity, maxBytes), ops[..i]), m, WireKey(ops[o].tab, ops[o].request))
    ensures m == Number(Empty(capacity, maxBytes), ops, o)
  {
    hide ApplyAll, HeldAs;
    var e, key := Empty(capacity, maxBytes), WireKey(ops[o].tab, ops[o].request);
    HeldWasOpened(capacity, maxBytes, ops[..i], m, key);
    var q: nat :| OpensAs(e, ops[..i], q, m, key);
    assert ops[..i][..q] == ops[..q] && ops[..i][q] == ops[q];
  }

  lemma NotDisturbed(capacity: int, maxBytes: int, ops: seq<Op>, o: nat, i: nat)
    requires KeysOnce(ops) && o < |ops| && ops[o].Opened? && o <= i < |ops| && OwnKey(Empty(capacity, maxBytes), ops, i)
    requires ops[i].Finished? || ops[i].Failed? ==> ops[i].n != Number(Empty(capacity, maxBytes), ops, o)
    ensures !Disturbs(ApplyAll(Empty(capacity, maxBytes), ops[..i]), ops[i], Number(Empty(capacity, maxBytes), ops, o),
                      WireKey(ops[o].tab, ops[o].request))
  {
    hide ApplyAll, Evict, Place, RequestId, Merge, Amend;
    var e, key, n := Empty(capacity, maxBytes), WireKey(ops[o].tab, ops[o].request), Number(Empty(capacity, maxBytes), ops, o);
    var r, op := ApplyAll(e, ops[..i]), ops[i];
    assert i > o && op.Opened? ==> WireKey(op.tab, op.request) != key;
    match op
    case Opened(tab, request, data) =>
      var s := Opening(r, tab, request, data);
      forall j | 0 <= j < Fallen(s) && s.entries[j].key == key ensures s.entries[j].n == n {
        if j < |r.entries| {
          assert HeldAs(r, r.entries[j].n, key);
          OnlyRecord(capacity, maxBytes, ops, o, i, r.entries[j].n);
        }
      }
    case Finished(m, k, b, reported, now) =>
      OwnKeyTells(e, ops, o, i, m, k);
      var s := BodyTold(r, m, k, b, reported, now);
      AmendPlaces(r.entries, m, Bodied(b, reported, now));
      forall j | 0 <= j < Fallen(s) && s.entries[j].key == key ensures s.entries[j].n == n {
        assert r.entries[j].n == s.entries[j].n && HeldAs(r, r.entries[j].n, key);
        OnlyRecord(capacity, maxBytes, ops, o, i, r.entries[j].n);
      }
    case Failed(m, k, _) => OwnKeyTells(e, ops, o, i, m, k);
    case _ =>
  }

  lemma OwnKeyTells(r: Ring, ops: seq<Op>, o: nat, i: nat, m: nat, k: string)
    requires KeysOnce(ops) && o < |ops| && ops[o].Opened? && i < |ops| && OwnKey(r, ops, i)
    requires (ops[i].Finished? || ops[i].Failed?) && ops[i].n == m && ops[i].key == k && m != Number(r, ops, o)
    ensures k != WireKey(ops[o].tab, ops[o].request)
  {
    hide ApplyAll;
    var q: nat :| q < i && OpensAs(r, ops, q, m, k);
  }

  // ---- reading ----

  datatype Filter = Filter(tabId: string, urlContains: string, verb: string, resourceType: string, status: int, limit: int)

  predicate Contains(s: string, t: string) {
    t <= s || (s != "" && Contains(s[1..], t))
  }

  predicate Matches(f: Filter, c: Captured) {
    && (f.tabId == "" || c.tabId == f.tabId)
    && (f.urlContains == "" || Contains(c.url, f.urlContains))
    && (f.verb == "" || Lower(c.verb) == Lower(f.verb))
    && (f.resourceType == "" || Lower(c.resourceType) == Lower(f.resourceType))
    && (f.status == 0 || c.status == f.status)
  }

  function Newest(entries: seq<Entry>, f: Filter): seq<Captured> {
    if entries == [] then []
    else
      var e := entries[|entries|-1];
      (if Matches(f, e.data) then [e.data] else []) + Newest(entries[..|entries|-1], f)
  }

  lemma NewestStep(entries: seq<Entry>, i: nat, f: Filter)
    requires i < |entries|
    ensures Newest(entries[..i+1], f) == (if Matches(f, entries[i].data) then [entries[i].data] else []) + Newest(entries[..i], f)
  {
    assert entries[..i+1][..i] == entries[..i];
  }

  lemma NewestNone(f: Filter)
    ensures Newest([], f) == []
  {
  }

  function List(r: Ring, f: Filter): seq<Captured> {
    var all := Newest(r.entries, f);
    if 0 < f.limit < |all| then all[..f.limit] else all
  }

  lemma {:induction false} NewestAre(entries: seq<Entry>, f: Filter)
    ensures forall c :: c in Newest(entries, f) <==> exists i :: 0 <= i < |entries| && entries[i].data == c && Matches(f, c)
  {
    hide Matches;
    if entries != [] {
      NewestAre(entries[..|entries|-1], f);
      forall c ensures c in Newest(entries, f) <==> exists i :: 0 <= i < |entries| && entries[i].data == c && Matches(f, c) {
        if i :| 0 <= i < |entries| && entries[i].data == c && Matches(f, c) {
          assert i < |entries| - 1 ==> entries[..|entries|-1][i].data == c;
        }
        if c in Newest(entries[..|entries|-1], f) {
          var i :| 0 <= i < |entries| - 1 && entries[..|entries|-1][i].data == c && Matches(f, c);
          assert entries[i].data == c;
        }
      }
    }
  }

  /** A list holds only held requests that match, and all of them unless it was limited; never
      more than its limit. */
  lemma ListIsRight(r: Ring, f: Filter)
    ensures forall c :: c in List(r, f) ==> Matches(f, c) && exists i :: 0 <= i < |r.entries| && r.entries[i].data == c
    ensures f.limit > 0 ==> |List(r, f)| <= f.limit
    ensures f.limit <= 0 || |List(r, f)| < f.limit ==>
              forall i :: 0 <= i < |r.entries| && Matches(f, r.entries[i].data) ==> r.entries[i].data in List(r, f)
    ensures List(r, f) <= Newest(r.entries, f)
  {
    var all := Newest(r.entries, f);
    NewestAre(r.entries, f);
    assert List(r, f) <= all;
    forall c | c in List(r, f) ensures c in all {
      var i :| 0 <= i < |List(r, f)| && List(r, f)[i] == c;
      assert all[i] == c;
    }
  }
}
