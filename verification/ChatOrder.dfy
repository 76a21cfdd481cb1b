/** A chat's order: by time, and messages of one time by id. */
module ChatOrder {
  import opened Sorting

  /** Go's `<` on strings. */
  predicate StrBefore(a: string, b: string) {
    if b == "" then false
    else if a == "" then true
    else if a[0] != b[0] then a[0] < b[0]
    else StrBefore(a[1..], b[1..])
  }

  lemma {:induction false} StrBeforeTransitive(a: string, b: string, c: string)
    ensures StrBefore(a, b) && StrBefore(b, c) ==> StrBefore(a, c)
  {
    if a != "" && b != "" && c != "" && a[0] == b[0] == c[0] {
      StrBeforeTransitive(a[1..], b[1..], c[1..]);
    }
  }

  /** Exactly one of before, equal and after. */
  lemma {:induction false} StrBeforeTotal(a: string, b: string)
    ensures !(StrBefore(a, b) && StrBefore(b, a))
    ensures !StrBefore(a, b) && !StrBefore(b, a) <==> a == b
  {
    if a != "" && b != "" && a[0] == b[0] {
      StrBeforeTotal(a[1..], b[1..]);
      assert a == [a[0]] + a[1..] && b == [b[0]] + b[1..];
    }
  }

  datatype Message = Message(id: string, chat: string, sender: string, senderName: string,
                             content: string, at: int, fromMe: bool)

  /** How far into a chat the syncer has read. */
  datatype Cursor = Cursor(at: int, id: string) {
    predicate Before(d: Cursor) {
      if at != d.at then at < d.at else StrBefore(id, d.id)
    }

    predicate Passed(m: Message) {
      !Before(CursorOn(m))
    }
  }

  function CursorOn(m: Message): Cursor {
    Cursor(m.at, m.id)
  }

  /** The order is a strict total order on cursors. */
  lemma CursorOrder(a: Cursor, b: Cursor, c: Cursor)
    ensures !(a.Before(b) && b.Before(a))
    ensures !a.Before(b) && !b.Before(a) <==> a == b
    ensures a.Before(b) && b.Before(c) ==> a.Before(c)
  {
    StrBeforeTotal(a.id, b.id);
    StrBeforeTransitive(a.id, b.id, c.id);
  }

  lemma CursorOrderAll()
    ensures forall a: Cursor, b: Cursor :: !(a.Before(b) && b.Before(a))
    ensures forall a: Cursor, b: Cursor :: !a.Before(b) && !b.Before(a) ==> a == b
    ensures forall a: Cursor, b: Cursor, c: Cursor :: a.Before(b) && b.Before(c) ==> a.Before(c)
  {
    forall a: Cursor, b: Cursor ensures !(a.Before(b) && b.Before(a)) { CursorOrder(a, b, a); }
    forall a: Cursor, b: Cursor ensures !a.Before(b) && !b.Before(a) ==> a == b { CursorOrder(a, b, a); }
    forall a: Cursor, b: Cursor, c: Cursor ensures a.Before(b) && b.Before(c) ==> a.Before(c) { CursorOrder(a, b, c); }
  }

  predicate MessageBefore(a: Message, b: Message) {
    CursorOn(a).Before(CursorOn(b))
  }

  lemma MessageOrder()
    ensures StrictWeak(MessageBefore)
  {
    CursorOrderAll();
    forall x, y, z: Message | !MessageBefore(y, x) && !MessageBefore(z, y) ensures !MessageBefore(z, x) {
      CursorOrder(CursorOn(y), CursorOn(x), CursorOn(z));
      CursorOrder(CursorOn(z), CursorOn(y), CursorOn(x));
    }
  }

  /** Strictly in chat order: what a chat's history is. */
  ghost predicate Ascending(ms: seq<Message>) {
    forall i, j :: 0 <= i < j < |ms| ==> MessageBefore(ms[i], ms[j])
  }

  function Fresh(ms: seq<Message>, c: Cursor): (r: seq<Message>)
    ensures forall m :: m in r <==> m in ms && !c.Passed(m)
  {
    if ms == [] then []
    else
      assert forall m :: m in ms <==> m == ms[0] || m in ms[1..];
      (if c.Passed(ms[0]) then [] else [ms[0]]) + Fresh(ms[1..], c)
  }

  /** What of `ms` the cursor has not passed, in chat order. */
  function Unread(ms: seq<Message>, c: Cursor): seq<Message> {
    StableSort(Fresh(ms, c), MessageBefore)
  }

  lemma {:induction false} FreshAppend(ms: seq<Message>, m: Message, c: Cursor)
    ensures Fresh(ms + [m], c) == Fresh(ms, c) + (if c.Passed(m) then [] else [m])
  {
    if ms != [] {
      FreshAppend(ms[1..], m, c);
      assert (ms + [m])[1..] == ms[1..] + [m];
    }
  }

  method UnreadOf(ms: seq<Message>, c: Cursor) returns (out: seq<Message>)
    ensures out == Unread(ms, c)
    ensures forall m :: m in out <==> m in ms && !c.Passed(m)
    ensures SortedBy(out, MessageBefore)
  {
    hide StableSort;
    out := [];
    for i := 0 to |ms|
      invariant out == Fresh(ms[..i], c)
    {
      FreshAppend(ms[..i], ms[i], c);
      assert ms[..i+1] == ms[..i] + [ms[i]];
      if !c.Passed(ms[i]) {
        out := out + [ms[i]];
      }
    }
    assert ms[..|ms|] == ms;
    SortMembers(out, MessageBefore);
    MessageOrder();
    SortSorts(out, MessageBefore);
    out := StableSort(out, MessageBefore);
  }

  lemma UnreadMembers(ms: seq<Message>, c: Cursor)
    ensures forall m :: m in Unread(ms, c) <==> m in ms && !c.Passed(m)
  {
    SortMembers(Fresh(ms, c), MessageBefore);
  }

  ghost predicate DistinctKeys(ms: seq<Message>) {
    forall i, j :: 0 <= i < j < |ms| ==> CursorOn(ms[i]) != CursorOn(ms[j])
  }

  lemma {:induction false} FreshDistinct(ms: seq<Message>, c: Cursor)
    requires DistinctKeys(ms)
    ensures DistinctKeys(Fresh(ms, c))
  {
    if ms != [] {
      FreshDistinct(ms[1..], c);
      var rest := Fresh(ms[1..], c);
      forall j | 0 <= j < |rest| ensures CursorOn(rest[j]) != CursorOn(ms[0]) {
        assert rest[j] in ms[1..];
      }
    }
  }

  lemma {:induction false} InsertDistinct(x: Message, xs: seq<Message>)
    requires DistinctKeys(xs) && forall y :: y in xs ==> CursorOn(y) != CursorOn(x)
    ensures DistinctKeys(Insert(x, xs, MessageBefore))
  {
    if xs == [] || !MessageBefore(xs[0], x) {
    } else {
      InsertDistinct(x, xs[1..]);
      var rest := Insert(x, xs[1..], MessageBefore);
      InsertKeeps(x, xs[1..], MessageBefore);
      forall j | 0 <= j < |rest| ensures CursorOn(rest[j]) != CursorOn(xs[0]) {
        assert rest[j] in multiset(rest);
        assert rest[j] == x || rest[j] in xs[1..];
      }
    }
  }

  lemma {:induction false} SortDistinct(ms: seq<Message>)
    requires DistinctKeys(ms)
    ensures DistinctKeys(StableSort(ms, MessageBefore))
  {
    if ms != [] {
      SortDistinct(ms[1..]);
      SortMembers(ms[1..], MessageBefore);
      InsertDistinct(ms[0], StableSort(ms[1..], MessageBefore));
    }
  }

  /** With each message once, the unread messages come out strictly in order. */
  lemma UnreadAscending(ms: seq<Message>, c: Cursor)
    requires DistinctKeys(ms)
    ensures Ascending(Unread(ms, c))
  {
    var u := Unread(ms, c);
    FreshDistinct(ms, c);
    SortDistinct(Fresh(ms, c));
    MessageOrder();
    SortSorts(Fresh(ms, c), MessageBefore);
    forall i, j | 0 <= i < j < |u| ensures MessageBefore(u[i], u[j]) {
      CursorOrder(CursorOn(u[i]), CursorOn(u[j]), CursorOn(u[i]));
    }
  }

  lemma AscendingDistinct(ms: seq<Message>)
    requires Ascending(ms)
    ensures DistinctKeys(ms)
  {
    CursorOrderAll();
  }

  /** A strictly ordered list is determined by its members. */
  lemma {:induction false} AscendingUnique(a: seq<Message>, b: seq<Message>)
    requires Ascending(a) && Ascending(b)
    requires forall m :: m in a <==> m in b
    ensures a == b
  {
    CursorOrderAll();
    assert b != [] ==> b[0] in a;
    if a != [] {
      assert a[0] in b;
      assert a[0] == b[0];
      forall m ensures m in a[1..] <==> m in b[1..] {
        if m in a[1..] { assert m in b; }
        if m in b[1..] { assert m in a; }
      }
      AscendingUnique(a[1..], b[1..]);
    }
  }

  /** How many of a history's messages the cursor has passed. */
  function PassedCount(h: seq<Message>, c: Cursor): (n: nat)
    ensures n <= |h|
  {
    if h == [] then 0 else (if c.Passed(h[0]) then 1 else 0) + PassedCount(h[1..], c)
  }

  /** In a history, what a cursor has passed is a prefix. */
  lemma {:induction false} PassedIsPrefix(h: seq<Message>, c: Cursor)
    requires Ascending(h)
    ensures forall i :: 0 <= i < |h| ==> (c.Passed(h[i]) <==> i < PassedCount(h, c))
  {
    if h != [] {
      CursorOrderAll();
      PassedIsPrefix(h[1..], c);
      var n := PassedCount(h[1..], c);
      forall i | 0 <= i < |h| ensures c.Passed(h[i]) <==> i < PassedCount(h, c) {
        if i > 0 {
          assert h[i] == h[1..][i - 1];
        }
        assert n > 0 ==> c.Passed(h[1..][0]) && MessageBefore(h[0], h[1]);
      }
    }
  }

  /** The messages of a history the cursor has not passed, and those it has. */
  function After(h: seq<Message>, c: Cursor): seq<Message> {
    h[PassedCount(h, c)..]
  }

  function UpTo(h: seq<Message>, c: Cursor): seq<Message> {
    h[..PassedCount(h, c)]
  }

  lemma AfterMembers(h: seq<Message>, c: Cursor)
    requires Ascending(h)
    ensures forall m :: m in After(h, c) <==> m in h && !c.Passed(m)
    ensures forall m :: m in UpTo(h, c) <==> m in h && c.Passed(m)
    ensures Ascending(After(h, c)) && Ascending(UpTo(h, c))
  {
    PassedIsPrefix(h, c);
    var n := PassedCount(h, c);
    forall m ensures m in After(h, c) <==> m in h && !c.Passed(m) {
      if m in h && !c.Passed(m) {
        var i :| 0 <= i < |h| && h[i] == m;
        assert h[n..][i - n] == m;
      }
    }
    forall m ensures m in UpTo(h, c) <==> m in h && c.Passed(m) {
      if m in h && c.Passed(m) {
        var i :| 0 <= i < |h| && h[i] == m;
        assert h[..n][i] == m;
      }
    }
  }

  /** Reading a whole history through `unread` is reading what follows the cursor. */
  lemma UnreadOfHistory(h: seq<Message>, c: Cursor)
    requires Ascending(h)
    ensures Unread(h, c) == After(h, c)
  {
    AscendingDistinct(h);
    UnreadAscending(h, c);
    UnreadMembers(h, c);
    AfterMembers(h, c);
    AscendingUnique(Unread(h, c), After(h, c));
  }

  lemma {:induction false} PassedCountUnique(h: seq<Message>, c: Cursor, n: nat)
    requires Ascending(h) && n <= |h|
    requires n > 0 ==> c.Passed(h[n-1])
    requires n < |h| ==> !c.Passed(h[n])
    ensures PassedCount(h, c) == n
  {
    PassedIsPrefix(h, c);
  }
}
