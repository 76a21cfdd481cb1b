/** What a chat service's history reader promises the syncer. */
module ChatSource {
  import opened ChatOrder

  /** An answer for cursor `c` on history `h`: dropping what the cursor has passed
      leaves a prefix of what is unread, and nothing at all means nothing is unread. */
  ghost predicate Faithful(raw: seq<Message>, h: seq<Message>, c: Cursor) {
    && Unread(raw, c) <= After(h, c)
    && (raw == [] ==> After(h, c) == [])
  }

  lemma {:induction false} ClosedInPrefix(got: seq<Message>, u: seq<Message>)
    requires Ascending(u) && Ascending(got)
    requires forall m :: m in got ==> m in u
    requires forall m, g :: m in u && g in got && MessageBefore(m, g) ==> m in got
    ensures got <= u
  {
    if got != [] {
      var first := got[0];
      assert first in got;
      var k :| 0 <= k < |u| && u[k] == first;
      if k > 0 {
        assert MessageBefore(u[0], first);
        var j :| 0 <= j < |got| && got[j] == u[0];
        CursorOrder(CursorOn(u[0]), CursorOn(first), CursorOn(first));
        assert false;
      }
      forall m | m in got[1..] ensures m in u[1..] {
        var j :| 1 <= j < |got| && got[j] == m;
        var i :| 0 <= i < |u| && u[i] == m;
        CursorOrder(CursorOn(first), CursorOn(m), CursorOn(m));
        assert u[1..][i - 1] == m;
      }
      forall m, g | m in u[1..] && g in got[1..] && MessageBefore(m, g) ensures m in got[1..] {
        var i :| 1 <= i < |u| && u[i] == m;
        assert m in u && g in got;
        CursorOrder(CursorOn(first), CursorOn(m), CursorOn(m));
        assert m != first;
        var j :| 0 <= j < |got| && got[j] == m;
        assert got[1..][j - 1] == m;
      }
      ClosedInPrefix(got[1..], u[1..]);
    }
  }

  /** A set of unread messages closed towards the cursor is a prefix of the unread ones. */
  lemma ClosedIsPrefix(got: seq<Message>, h: seq<Message>, c: Cursor)
    requires Ascending(h) && Ascending(got)
    requires forall m :: m in got ==> m in h && !c.Passed(m)
    requires forall m, g :: m in h && !c.Passed(m) && g in got && MessageBefore(m, g) ==> m in got
    ensures got <= After(h, c)
  {
    AfterMembers(h, c);
    ClosedInPrefix(got, After(h, c));
  }

  /** What leaves out an earlier message of a list in order is no start of it. */
  lemma NotAStart(res: seq<Message>, u: seq<Message>, m: Message, g: Message)
    requires Ascending(u) && m in u && m !in res && g in res && MessageBefore(m, g)
    ensures !(res <= u)
  {
    if res <= u {
      var i :| 0 <= i < |u| && u[i] == m;
      var k :| 0 <= k < |res| && res[k] == g;
      assert forall n :: 0 <= n < |res| ==> u[n] == res[n];
      assert MessageBefore(u[k], u[i]);
      CursorOrder(CursorOn(m), CursorOn(g), CursorOn(m));
      assert false;
    }
  }

  lemma NoneIsNothing(ms: seq<Message>)
    ensures ms == [] <==> forall m :: m !in ms
  {
    assert ms != [] ==> ms[0] in ms;
  }

  /** An answer in order, of messages not passed, is what `unread` leaves of it. */
  lemma UnreadOfAnswer(got: seq<Message>, c: Cursor)
    requires Ascending(got) && forall m :: m in got ==> !c.Passed(m)
    ensures Unread(got, c) == got
  {
    AscendingDistinct(got);
    UnreadAscending(got, c);
    UnreadMembers(got, c);
    AscendingUnique(Unread(got, c), got);
  }

  lemma {:induction false} DistinctCount<T>(xs: seq<T>)
    requires forall i, j :: 0 <= i < j < |xs| ==> xs[i] != xs[j]
    ensures |set x | x in xs| == |xs|
  {
    if xs != [] {
      DistinctCount(xs[1..]);
      assert (set x | x in xs) == {xs[0]} + (set x | x in xs[1..]);
      assert xs[0] !in xs[1..];
    }
  }

  /** Distinct members of a set no larger than their number are all of it. */
  lemma DistinctFill<T>(xs: seq<T>, s: set<T>)
    requires forall i, j :: 0 <= i < j < |xs| ==> xs[i] != xs[j]
    requires forall x :: x in xs ==> x in s
    requires |s| <= |xs|
    ensures forall x :: x in s ==> x in xs
  {
    DistinctCount(xs);
    var t := set x | x in xs;
    assert t <= s;
    assert |s - t| == |s| - |t|;
    assert s - t == {};
    forall x | x in s ensures x in xs {
      assert x in t;
    }
  }
}
