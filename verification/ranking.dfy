/** The ranking sort of a refresh: status rank first (live, upcoming,
    finished), then start time, earliest first. The runtime's sort is stable,
    so events that compare equal keep their merged order; the model is a
    stable insertion sort. */
module Ranking {
  import opened Seqs
  import opened EventStatus
  import opened Events

  /** What the comparator looks at. */
  datatype SortKey = SortKey(rank: nat, startsAt: int)

  function Key(e: Event): SortKey {
    SortKey(Rank(e.status), e.startsAt)
  }

  /** The comparator returns a non-positive number for `(a, b)`. */
  predicate InOrder(a: Event, b: Event) {
    Rank(a.status) < Rank(b.status) || (Rank(a.status) == Rank(b.status) && a.startsAt <= b.startsAt)
  }

  /** Status rank never decreases, and within one rank start times never decrease. */
  predicate Sorted(s: seq<Event>) {
    forall i, j :: 0 <= i < j < |s| ==> InOrder(s[i], s[j])
  }

  /** Places `x` after every element that does not compare greater than it. */
  function Insert(x: Event, s: seq<Event>): (r: seq<Event>)
    requires Sorted(s)
    ensures Sorted(r)
    ensures multiset(r) == multiset(s) + multiset{x}
  {
    if s == [] then [x]
    else if !InOrder(s[0], x) then
      FrontStaysSorted(x, s);
      [x] + s
    else
      var rest := Insert(x, s[1..]);
      assert s == [s[0]] + s[1..];
      HeadStaysSorted(s[0], x, s[1..], rest);
      [s[0]] + rest
  }

  /** An element that compares below the head of a sorted sequence may go in front. */
  lemma FrontStaysSorted(x: Event, s: seq<Event>)
    requires Sorted(s) && s != [] && !InOrder(s[0], x)
    ensures Sorted([x] + s)
  {
    assert forall j :: 0 <= j < |s| ==> InOrder(s[0], s[j]);
  }

  /** A head no greater than `x` and than everything of `tail` may go in front
      of any sorted rearrangement of `tail` and `x`. */
  lemma HeadStaysSorted(h: Event, x: Event, tail: seq<Event>, rest: seq<Event>)
    requires Sorted([h] + tail) && InOrder(h, x)
    requires Sorted(rest) && multiset(rest) == multiset(tail) + multiset{x}
    ensures Sorted([h] + rest)
  {
    forall k | 0 <= k < |rest| ensures InOrder(h, rest[k]) {
      assert rest[k] in multiset(rest);
      if rest[k] != x {
        assert rest[k] in multiset(tail);
        var j :| 0 <= j < |tail| && tail[j] == rest[k];
        assert ([h] + tail)[0] == h && ([h] + tail)[j + 1] == tail[j];
      }
    }
  }

  /** The sort: a sorted rearrangement of its input. */
  function SortEvents(s: seq<Event>): (r: seq<Event>)
    ensures Sorted(r)
    ensures multiset(r) == multiset(s)
  {
    if s == [] then []
    else
      assert s == s[..|s| - 1] + [s[|s| - 1]];
      Insert(s[|s| - 1], SortEvents(s[..|s| - 1]))
  }

  /** The events of `s` that compare equal to `k`, in their order in `s`. */
  function Tied(s: seq<Event>, k: SortKey): seq<Event> {
    if s == [] then [] else (if Key(s[0]) == k then [s[0]] else []) + Tied(s[1..], k)
  }

  lemma {:induction false} TiedAppend(u: seq<Event>, v: seq<Event>, k: SortKey)
    ensures Tied(u + v, k) == Tied(u, k) + Tied(v, k)
  {
    if u == [] {
      assert u + v == v;
    } else {
      assert (u + v)[1..] == u[1..] + v;
      TiedAppend(u[1..], v, k);
    }
  }

  lemma {:induction false} TiedNone(s: seq<Event>, k: SortKey)
    requires forall i :: 0 <= i < |s| ==> Key(s[i]) != k
    ensures Tied(s, k) == []
  {
    if s != [] {
      TiedNone(s[1..], k);
    }
  }

  lemma TiedCons(a: Event, t: seq<Event>, k: SortKey)
    ensures Tied([a] + t, k) == (if Key(a) == k then [a] else []) + Tied(t, k)
  {
    assert ([a] + t)[1..] == t;
  }

  /** When `x` goes in front, nothing after it shares its key. */
  lemma InsertTiedFront(x: Event, s: seq<Event>, k: SortKey)
    requires Sorted(s) && s != [] && !InOrder(s[0], x)
    ensures Tied([x] + s, k) == Tied(s, k) + (if Key(x) == k then [x] else [])
  {
    TiedCons(x, s, k);
    if Key(x) == k {
      assert forall i :: 0 <= i < |s| ==> InOrder(s[0], s[i]);
      TiedNone(s, k);
    }
  }

  /** When `x` goes behind the head, the head's tie stays in front of it. */
  lemma InsertTiedBehind(h: Event, tail: seq<Event>, x: Event, k: SortKey, rest: seq<Event>)
    requires Tied(rest, k) == Tied(tail, k) + (if Key(x) == k then [x] else [])
    ensures Tied([h] + rest, k) == Tied([h] + tail, k) + (if Key(x) == k then [x] else [])
  {
    TiedCons(h, rest, k);
    TiedCons(h, tail, k);
  }

  lemma {:induction false} InsertTied(x: Event, s: seq<Event>, k: SortKey)
    requires Sorted(s)
    ensures Tied(Insert(x, s), k) == Tied(s, k) + (if Key(x) == k then [x] else [])
  {
    if s == [] {
      TiedCons(x, [], k);
    } else if !InOrder(s[0], x) {
      InsertTiedFront(x, s, k);
    } else {
      var rest := Insert(x, s[1..]);
      assert Insert(x, s) == [s[0]] + rest;
      InsertTied(x, s[1..], k);
      InsertTiedBehind(s[0], s[1..], x, k, rest);
      assert [s[0]] + s[1..] == s;
    }
  }

  /** Stability: for every key, the events carrying it appear in the output
      in the same order as in the input. */
  lemma {:induction false} SortIsStable(s: seq<Event>, k: SortKey)
    ensures Tied(SortEvents(s), k) == Tied(s, k)
  {
    if s != [] {
      var init, last := s[..|s| - 1], s[|s| - 1];
      var sortedInit := SortEvents(init);
      var own := if Key(last) == k then [last] else [];
      calc {
        Tied(SortEvents(s), k);
        Tied(Insert(last, sortedInit), k);
        { InsertTied(last, sortedInit, k); }
        Tied(sortedInit, k) + own;
        { SortIsStable(init, k); }
        Tied(init, k) + own;
        { TiedCons(last, [], k); }
        Tied(init, k) + Tied([last], k);
        { TiedAppend(init, [last], k); }
        Tied(init + [last], k);
        { assert s == init + [last]; }
        Tied(s, k);
      }
    }
  }

  /** Dropping one element of a sorted sequence leaves it sorted. */
  lemma SortedWithout(b: seq<Event>, k: nat)
    requires Sorted(b) && k < |b|
    ensures Sorted(b[..k] + b[k+1..])
  {
    var c := b[..k] + b[k+1..];
    assert forall i :: 0 <= i < |c| ==> c[i] == if i < k then b[i] else b[i + 1];
  }

  /** If `b` is sorted and holds the same events as sorted `a`, everything in
      `b` up to an occurrence of `a[0]` carries `a[0]`'s key. */
  lemma LeadersShareKey(a: seq<Event>, b: seq<Event>, k: nat)
    requires Sorted(a) && Sorted(b) && multiset(a) == multiset(b)
    requires k < |b| && a != [] && b[k] == a[0]
    ensures forall i :: 0 <= i <= k ==> Key(b[i]) == Key(a[0])
  {
    assert b[0] in multiset(a);
    assert InOrder(a[0], b[0]);
    forall i | 0 <= i <= k ensures Key(b[i]) == Key(a[0]) {
      if 0 < i { assert InOrder(b[0], b[i]); }
      if i < k { assert InOrder(b[i], b[k]); }
    }
  }

  /** Two sorted rearrangements of the same events agree on every position's
      rank and start time; only events that compare equal can trade places. */
  lemma {:induction false} SortedKeysAgree(a: seq<Event>, b: seq<Event>)
    requires Sorted(a) && Sorted(b) && multiset(a) == multiset(b)
    ensures Map(Key, a) == Map(Key, b)
  {
    if a == [] {
      assert |b| == |multiset(b)| == 0;
    } else {
      var x := a[0];
      assert x in multiset(b);
      var k := Locate(x, b);
      var rest := b[..k] + b[k+1..];
      assert a == [x] + a[1..];
      assert multiset(a[1..]) == multiset(rest);
      SortedWithout(b, k);
      SortedKeysAgree(a[1..], rest);
      LeadersShareKey(a, b, k);
      ShiftedKeysAgree(a, b, k);
    }
  }

  /** The index bookkeeping of the inductive step above. */
  lemma ShiftedKeysAgree(a: seq<Event>, b: seq<Event>, k: nat)
    requires |a| == |b| && k < |b| && a != []
    requires forall i :: 0 <= i <= k ==> Key(b[i]) == Key(a[0])
    requires Map(Key, a[1..]) == Map(Key, b[..k] + b[k+1..])
    ensures Map(Key, a) == Map(Key, b)
  {
    var rest := b[..k] + b[k+1..];
    forall i | 0 <= i < |a| ensures Map(Key, a)[i] == Map(Key, b)[i] {
      if i > 0 {
        assert Map(Key, a)[i] == Map(Key, a[1..])[i - 1] == Map(Key, rest)[i - 1];
        if i <= k {
          assert rest[i - 1] == b[i - 1];
        } else {
          assert rest[i - 1] == b[i];
        }
      }
    }
  }

  /** Two events that compare equal come out in the order they went in. */
  lemma TiesFollowInputOrder(e1: Event, e2: Event)
    requires Key(e1) == Key(e2)
    ensures SortEvents([e1, e2]) == [e1, e2]
    ensures SortEvents([e2, e1]) == [e2, e1]
  {
    assert [e1, e2][..1] == [e1];
    assert [e2, e1][..1] == [e2];
  }
}
