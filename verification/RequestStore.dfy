/** The captured-request store itself: records shared between the order, two indexes and
    whoever still holds one. `ring` is the value its fields stand for. */
module RequestStore {
  import opened RequestRing

  class Record {
    const n: nat
    const key: string
    var data: Captured
    var bodyBytes: int

    constructor (n: nat, key: string, data: Captured)
      ensures this.n == n && Value() == Entry(n, key, 0, data)
    {
      this.n, this.key, this.data := n, key, data;
      bodyBytes := 0;
    }

    ghost function Value(): Entry
      reads this
    {
      Entry(n, key, bodyBytes, data)
    }
  }

  /** The records stand for the ring's entries, place by place. */
  ghost predicate Mirrored(order: seq<Record>, entries: seq<Entry>)
    reads order
  {
    |order| == |entries| && forall i :: 0 <= i < |order| ==> order[i].Value() == entries[i]
  }

  ghost predicate Numbered(order: seq<Record>, entries: seq<Entry>) {
    |order| == |entries| && forall i :: 0 <= i < |order| ==> order[i].n == entries[i].n
  }

  /** Every record held was begun, and numbers name records. */
  ghost predicate Known(order: seq<Record>, all: set<Record>, counter: nat) {
    && (forall i :: 0 <= i < |order| ==> order[i] in all)
    && (forall i, j :: 0 <= i < j < |order| ==> order[i].n < order[j].n)
    && (forall r :: r in all ==> r.n <= counter)
    && (forall r, s :: r in all && s in all && r.n == s.n ==> r == s)
  }

  /** `byID` is exactly the order's index. */
  ghost predicate Named(order: seq<Record>, byID: map<string, Record>) {
    && (forall i :: 0 <= i < |order| ==> RequestId(order[i].n) in byID && byID[RequestId(order[i].n)] == order[i])
    && (forall id :: id in byID ==> byID[id] in order && RequestId(byID[id].n) == id)
  }

  /** Each wire key leads to a held record of that key. */
  ghost predicate Wired(order: seq<Record>, byKey: map<string, Record>, keys: map<string, nat>) {
    && byKey.Keys == keys.Keys
    && (forall k :: k in byKey ==> byKey[k] in order && byKey[k].n == keys[k] && byKey[k].key == k)
  }

  ghost predicate Indexed(order: seq<Record>, byID: map<string, Record>, byKey: map<string, Record>, keys: map<string, nat>) {
    Named(order, byID) && Wired(order, byKey, keys)
  }

  /** Where a record stands in the order, if it is held at all. */
  lemma PlaceOf(order: seq<Record>, entries: seq<Entry>, rec: Record, all: set<Record>, counter: nat)
    requires Numbered(order, entries) && Known(order, all, counter) && rec in all
    ensures var i := Place(entries, rec.n);
      && (rec in order <==> i >= 0)
      && (i >= 0 ==> order[i] == rec)
      && (forall j :: 0 <= j < |order| && j != i ==> order[j] != rec)
  {
    if rec in order {
      var i :| 0 <= i < |order| && order[i] == rec;
      assert entries[i].n == rec.n;
      PlaceFinds(entries, i);
    } else {
      forall i | 0 <= i < |order| ensures entries[i].n != rec.n {
        assert order[i] in order;
      }
      PlaceNone(entries, rec.n);
    }
  }

  /** What changes in one record changes in its entry, if it has one. */
  lemma Rewritten(order: seq<Record>, entries: seq<Entry>, rec: Record, c: Change, all: set<Record>, counter: nat)
    requires Numbered(order, entries) && Known(order, all, counter) && rec in all
    requires forall i :: 0 <= i < |order| ==> order[i].Value() == if order[i] == rec then Changed(entries[i], c) else entries[i]
    ensures Mirrored(order, Amend(entries, rec.n, c))
  {
    PlaceOf(order, entries, rec, all, counter);
  }

  lemma DropIndexed(order: seq<Record>, byID: map<string, Record>, byKey: map<string, Record>, keys: map<string, nat>,
                    all: set<Record>, counter: nat)
    requires Known(order, all, counter) && Indexed(order, byID, byKey, keys) && order != []
    ensures Known(order[1..], all, counter)
    ensures Indexed(order[1..], byID - {RequestId(order[0].n)}, byKey - {order[0].key}, keys - {order[0].key})
  {
    hide Named, Wired;
    DropNamed(order, byID, all, counter);
    DropWired(order, byKey, keys);
  }

  lemma DropNamed(order: seq<Record>, byID: map<string, Record>, all: set<Record>, counter: nat)
    requires Known(order, all, counter) && Named(order, byID) && order != []
    ensures Named(order[1..], byID - {RequestId(order[0].n)})
  {
    hide RequestId;
    forall i | 0 <= i < |order| - 1 ensures RequestId(order[1..][i].n) != RequestId(order[0].n) {
      RequestIdNames(order[i+1].n, order[0].n);
    }
    forall id | id in byID && id != RequestId(order[0].n) ensures byID[id] in order[1..] {
      InRest(order, byID[id]);
    }
  }

  lemma DropWired(order: seq<Record>, byKey: map<string, Record>, keys: map<string, nat>)
    requires Wired(order, byKey, keys) && order != []
    ensures Wired(order[1..], byKey - {order[0].key}, keys - {order[0].key})
  {
    forall k | k in byKey && k != order[0].key ensures byKey[k] in order[1..] {
      InRest(order, byKey[k]);
    }
  }

  lemma InRest(order: seq<Record>, r: Record)
    requires r in order && r != order[0]
    ensures r in order[1..]
  {
    var i :| 0 <= i < |order| && order[i] == r;
    assert order[1..][i-1] == r;
  }

  lemma AddIndexed(order: seq<Record>, byID: map<string, Record>, byKey: map<string, Record>, keys: map<string, nat>,
                   all: set<Record>, counter: nat, rec: Record)
    requires Known(order, all, counter) && Indexed(order, byID, byKey, keys) && rec.n == counter + 1
    ensures Known(order + [rec], all + {rec}, counter + 1)
    ensures Indexed(order + [rec], byID[RequestId(rec.n) := rec], byKey[rec.key := rec], keys[rec.key := rec.n])
  {
    hide RequestId;
    forall i | 0 <= i < |order| ensures RequestId(order[i].n) != RequestId(rec.n) {
      assert order[i] in all;
      RequestIdNames(order[i].n, rec.n);
    }
  }

  lemma RetireIndexed(order: seq<Record>, byID: map<string, Record>, byKey: map<string, Record>, keys: map<string, nat>, k: string)
    requires Indexed(order, byID, byKey, keys)
    ensures Indexed(order, byID, byKey - {k}, keys - {k})
  {
    hide RequestId;
  }

  lemma Leads(order: seq<Record>, byID: map<string, Record>, byKey: map<string, Record>, keys: map<string, nat>,
              all: set<Record>, counter: nat, k: string)
    requires Known(order, all, counter) && Indexed(order, byID, byKey, keys)
    ensures k in byKey <==> k in keys
    ensures k in byKey ==> byKey[k] in order && byKey[k] in all && byKey[k].n == keys[k]
  {
    hide RequestId;
  }

  class Store {
    const capacity: int
    const maxBytes: int
    var order: seq<Record>
    var byID: map<string, Record>
    var byKey: map<string, Record>
    var totalBytes: int
    var counter: nat
    var pending: map<string, map<string, string>>
    /** Every record ever begun, held or evicted. */
    ghost var all: set<Record>
    ghost var ring: Ring

    ghost predicate Scalars()
      reads this
    {
      && ring.capacity == capacity && ring.maxBytes == maxBytes
      && ring.total == totalBytes && ring.counter == counter && ring.pending == pending
    }

    ghost predicate Valid()
      reads this, order
    {
      && Scalars() && Mirrored(order, ring.entries)
      && Known(order, all, counter) && Indexed(order, byID, byKey, ring.keys)
    }

    constructor (capacity: int, maxBytes: int)
      ensures Valid() && ring == Empty(capacity, maxBytes) && all == {}
    {
      this.capacity, this.maxBytes := capacity, maxBytes;
      order, byID, byKey, totalBytes, counter, pending, all := [], map[], map[], 0, 0, map[], {};
      ring := Empty(capacity, maxBytes);
    }

    /** Drops the oldest records until both budgets hold. */
    method EvictLocked()
      requires Valid()
      modifies this
      ensures Valid() && ring == Evict(old(ring)) && all == old(all)
    {
      hide Known, Indexed, Dropped;
      while |order| > 0 && (|order| > capacity || totalBytes > maxBytes)
        invariant Valid() && |order| == |ring.entries|
        invariant Evict(ring) == Evict(old(ring)) && all == old(all)
        invariant forall r :: r in order ==> r in old(order)
        decreases |order|
      {
        DropOldest();
      }
    }

    method DropOldest()
      requires Valid() && order != []
      modifies this
      ensures Valid() && all == old(all) && order == old(order)[1..] && ring.entries != old(ring).entries
      ensures old(ring).entries != [] && ring == Dropped(old(ring)) && |order| == |ring.entries|
    {
      hide Known, Indexed;
      var oldest := order[0];
      assert oldest.Value() == ring.entries[0];
      DropIndexed(order, byID, byKey, ring.keys, all, counter);
      order := order[1..];
      byID := byID - {RequestId(oldest.n)};
      byKey := byKey - {oldest.key};
      totalBytes := totalBytes - oldest.bodyBytes;
      ring := Dropped(ring);
    }

    method Begin(tab: string, request: string, data0: Captured) returns (rec: Record)
      requires Valid()
      modifies this
      ensures Valid() && ring == RequestRing.Begin(old(ring), tab, request, data0)
      ensures fresh(rec) && rec.n == old(counter) + 1 && all == old(all) + {rec}
    {
      hide Known, Indexed, RequestId, Evict;
      var data := data0;
      var key := WireKey(tab, request);
      if key in pending {
        data := data.(requestHeaders := Merge(data.requestHeaders, pending[key]));
      }
      data := data.(id := RequestId(counter + 1), tabId := tab);
      rec := new Record(counter + 1, key, data);
      AddNewest(rec);
      pending := pending - {key};
      ring := ring.(pending := pending);
      EvictLocked();
    }

    /** Puts a new record at the end of the order and into both indexes. */
    method AddNewest(rec: Record)
      requires Valid() && rec.n == counter + 1 && rec.bodyBytes == 0
      modifies this`order, this`byID, this`byKey, this`counter, this`all, this`ring
      ensures Valid() && all == old(all) + {rec}
      ensures ring == Added(old(ring).(counter := rec.n), rec.Value())
    {
      hide Known, Indexed, RequestId;
      AddIndexed(order, byID, byKey, ring.keys, all, counter, rec);
      counter := counter + 1;
      order := order + [rec];
      byID := byID[RequestId(rec.n) := rec];
      byKey := byKey[rec.key := rec];
      all := all + {rec};
      ring := Added(ring.(counter := counter), rec.Value());
    }

    method Find(tab: string, request: string) returns (found: bool, rec: Record?)
      requires Valid()
      ensures found <==> WireKey(tab, request) in ring.keys
      ensures found ==> rec != null && rec in order && rec in all && rec.n == ring.keys[WireKey(tab, request)]
    {
      hide RequestId;
      var key := WireKey(tab, request);
      if key in byKey {
        return true, byKey[key];
      }
      return false, null;
    }

    method UpdateResponse(rec: Record, status: int, headers: map<string, string>, mime: string)
      requires Valid() && rec in all
      modifies this`ring, rec
      ensures Valid() && ring == RequestRing.UpdateResponse(old(ring), rec.n, status, headers, mime)
    {
      hide Known, Indexed;
      rec.data := rec.data.(status := status, responseHeaders := headers, mime := mime);
      Rewritten(order, ring.entries, rec, Answered(status, headers, mime), all, counter);
      ring := RequestRing.UpdateResponse(ring, rec.n, status, headers, mime);
    }

    /** Keeps a fetched body, or why it was not kept, and retires the record's wire key. */
    method UpdateBody(rec: Record, b: Body, reported: int, now: int)
      requires Valid() && rec in all
      modifies this, rec
      ensures Valid() && ring == RequestRing.UpdateBody(old(ring), rec.n, rec.key, b, reported, now) && all == old(all)
    {
      hide Known, Indexed, Amend, Evict;
      TellBody(rec, b, reported, now);
      EvictLocked();
    }

    method TellBody(rec: Record, b: Body, reported: int, now: int)
      requires Valid() && rec in all
      modifies this`byKey, this`totalBytes, this`ring, rec
      ensures Valid() && ring == BodyTold(old(ring), rec.n, rec.key, b, reported, now)
    {
      hide Known, Indexed, Amend;
      match b {
        case Omitted(reason) =>
          rec.data := rec.data.(omitted := true, reason := reason);
        case Kept(body) =>
          rec.data := rec.data.(body := body);
          rec.bodyBytes := |body|;
          totalBytes := totalBytes + rec.bodyBytes;
      }
      rec.data := rec.data.(bodyBytes := reported, completedAt := now);
      Rewritten(order, ring.entries, rec, Bodied(b, reported, now), all, counter);
      RetireIndexed(order, byID, byKey, ring.keys, rec.key);
      byKey := byKey - {rec.key};
      ring := BodyTold(ring, rec.n, rec.key, b, reported, now);
    }

    method MarkFailed(rec: Record, now: int)
      requires Valid() && rec in all
      modifies this`byKey, this`ring, rec
      ensures Valid() && ring == RequestRing.MarkFailed(old(ring), rec.n, rec.key, now)
    {
      hide Known, Indexed, Amend;
      rec.data := rec.data.(failed := true, completedAt := now);
      Rewritten(order, ring.entries, rec, Broken(now), all, counter);
      RetireIndexed(order, byID, byKey, ring.keys, rec.key);
      byKey := byKey - {rec.key};
      ring := RequestRing.MarkFailed(ring, rec.n, rec.key, now);
    }

    method ApplyExtraRequestHeaders(tab: string, request: string, headers: map<string, string>)
      requires Valid()
      modifies this`pending, this`ring, order
      ensures Valid() && ring == ExtraHeaders(old(ring), tab, request, headers)
    {
      hide Known, Indexed, Amend;
      var key := WireKey(tab, request);
      Leads(order, byID, byKey, ring.keys, all, counter, key);
      if key in byKey {
        var rec := byKey[key];
        rec.data := rec.data.(requestHeaders := Merge(rec.data.requestHeaders, headers));
        Rewritten(order, ring.entries, rec, Headed(headers), all, counter);
      } else {
        pending := pending[key := headers];
      }
      ring := ExtraHeaders(ring, tab, request, headers);
    }

    /** The matching requests, newest first. */
    method List(f: Filter) returns (out: seq<Captured>)
      requires Valid()
      ensures out == RequestRing.List(ring, f)
    {
      hide Known, Indexed, Matches, Newest;
      out := [];
      var i := |order|;
      assert ring.entries[..i] == ring.entries;
      while i > 0
        invariant 0 <= i <= |order| && out + Newest(ring.entries[..i], f) == Newest(ring.entries, f)
      {
        i := i - 1;
        NewestStep(ring.entries, i, f);
        assert order[i].Value() == ring.entries[i];
        if Matches(f, order[i].data) {
          out := out + [order[i].data];
        }
      }
      NewestNone(f);
      if f.limit > 0 && |out| > f.limit {
        out := out[..f.limit];
      }
    }

    method Get(id: string) returns (found: bool, data: Captured)
      requires Valid() && Sound(ring)
      ensures found <==> exists i :: 0 <= i < |ring.entries| && ring.entries[i].data.id == id
      ensures found ==> exists i :: 0 <= i < |ring.entries| && ring.entries[i].data == data && data.id == id
    {
      hide RequestId, Place;
      forall i | 0 <= i < |order| ensures ring.entries[i].data.id == RequestId(order[i].n) {
        assert order[i].Value() == ring.entries[i] && ring.entries[i] in ring.entries;
      }
      if id in byID {
        var i :| 0 <= i < |order| && order[i] == byID[id];
        assert order[i].Value() == ring.entries[i];
        return true, byID[id].data;
      }
      data := NOTHING;
      return false, data;
    }
  }

  const NOTHING := Captured("", "", "", "", "", map[], 0, map[], "", "", false, "", 0, false, 0)
}
