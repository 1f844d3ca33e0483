/** One refresh of the dashboard state, once every source has settled:
    merge in settlement order, rank, record the live count in the trend. */
module Dashboard {
  import opened Seqs
  import opened EventStatus
  import opened Events
  import opened Aggregator
  import opened Ranking
  import opened Trend
  import opened Kpis

  /** What the presentation layer renders. */
  datatype DashboardState = DashboardState(events: seq<Event>, health: seq<Health>, trend: seq<TrendSample>)

  const Initial: DashboardState := DashboardState([], [], [])

  /** The event list of a refresh: the merged events, ranked. */
  function Ranked(settled: seq<Settled>): seq<Event> {
    SortEvents(Merge(settled).events)
  }

  /** A refresh: `settled` lists the sources in the order they settled and `at`
      is the display time of the refresh. The events are the delivered ones,
      ranked; the health list has one entry per settlement; the trend gains a
      sample holding the number of live events and stays within capacity. */
  function Refresh(st: DashboardState, settled: seq<Settled>, at: string): (r: DashboardState)
    ensures Sorted(r.events)
    ensures multiset(r.events) == multiset(FlatMap(Contributed, settled))
    ensures r.health == Map(HealthOf, settled)
    ensures |r.events| == TotalCount(r.health)
    ensures |st.trend| <= TrendCapacity ==>
      r.trend == Window(st.trend + [TrendSample(at, CountStatus(FlatMap(Contributed, settled), Live))])
    ensures |st.trend| <= TrendCapacity ==> |r.trend| <= TrendCapacity
    ensures |r.trend| > 0 && r.trend[|r.trend| - 1].live == CountStatus(r.events, Live)
  {
    var merged := Merge(settled);
    var ranked := Ranked(settled);
    CountStatusPermutation(ranked, merged.events, Live);
    assert |ranked| == |multiset(ranked)| == |multiset(merged.events)| == |merged.events|;
    DashboardState(ranked, merged.health, Record(st.trend, TrendSample(at, CountStatus(ranked, Live))))
  }

  /** Reordering the settlements changes neither which events and health
      entries there are, nor the trend, nor the rank and start time found at
      each position of the event list. */
  lemma RefreshOrderIndependent(st: DashboardState, a: seq<Settled>, b: seq<Settled>, at: string)
    requires multiset(a) == multiset(b)
    ensures multiset(Refresh(st, a, at).events) == multiset(Refresh(st, b, at).events)
    ensures multiset(Refresh(st, a, at).health) == multiset(Refresh(st, b, at).health)
    ensures Refresh(st, a, at).trend == Refresh(st, b, at).trend
    ensures Map(Key, Refresh(st, a, at).events) == Map(Key, Refresh(st, b, at).events)
  {
    MergeOrderIndependent(a, b);
    var ea, eb := Refresh(st, a, at).events, Refresh(st, b, at).events;
    CountStatusPermutation(ea, eb, Live);
    SortedKeysAgree(ea, eb);
  }

  /** Merging two settlements concatenates what they delivered. */
  lemma MergeTwo(x: Settled, y: Settled)
    ensures Merge([x, y]).events == Contributed(x) + Contributed(y)
  {
    assert [x, y][..1] == [x];
    assert [x][..0] == [];
  }

  /** Two sources that settle in either order, each delivering one event, where
      the two events tie on rank and start time: the ranked list follows the
      settlement order. */
  lemma TiedEventsFollowSettlementOrder(x: Settled, y: Settled)
    requires x.outcome.Delivered? && |x.outcome.events| == 1
    requires y.outcome.Delivered? && |y.outcome.events| == 1
    requires Key(x.outcome.events[0]) == Key(y.outcome.events[0])
    ensures Ranked([x, y]) == [x.outcome.events[0], y.outcome.events[0]]
    ensures Ranked([y, x]) == [y.outcome.events[0], x.outcome.events[0]]
  {
    var e1, e2 := x.outcome.events[0], y.outcome.events[0];
    assert Merge([x, y]).events == [e1, e2] by {
      MergeTwo(x, y);
      assert Contributed(x) == [e1] && Contributed(y) == [e2];
    }
    assert Merge([y, x]).events == [e2, e1] by {
      MergeTwo(y, x);
      assert Contributed(x) == [e1] && Contributed(y) == [e2];
    }
    TiesFollowInputOrder(e1, e2);
  }

  /** When every source fails the refresh still completes: no events, every
      health entry failed with count 0, and a trend sample of 0 live events. */
  lemma AllSourcesFail(st: DashboardState, settled: seq<Settled>, at: string)
    requires forall i :: 0 <= i < |settled| ==> settled[i].outcome.Failed?
    ensures Refresh(st, settled, at).events == []
    ensures forall h :: h in Refresh(st, settled, at).health ==> !h.ok && h.count == 0
    ensures Refresh(st, settled, at).trend[|Refresh(st, settled, at).trend| - 1].live == 0
  {
    AllFailed(settled);
  }

  lemma {:induction false} NoLive(s: seq<Event>)
    requires forall i :: 0 <= i < |s| ==> s[i].status != Live
    ensures CountStatus(s, Live) == 0
  {
    if s != [] {
      NoLive(s[1..]);
    }
  }

  /** In a ranked list the live events come first: the first
      `CountStatus(s, Live)` events are exactly the live ones. */
  lemma {:induction false} LiveEventsLead(s: seq<Event>)
    requires Sorted(s)
    ensures forall i :: 0 <= i < |s| ==> (s[i].status == Live <==> i < CountStatus(s, Live))
  {
    if s != [] {
      if s[0].status == Live {
        LiveEventsLead(s[1..]);
        assert forall i :: 1 <= i < |s| ==> s[i] == s[1..][i - 1];
      } else {
        assert forall i :: 0 <= i < |s| ==> InOrder(s[0], s[i]);
        NoLive(s);
      }
    }
  }

  /** One refresh's input: the settlements in settlement order and the display time. */
  datatype Round = Round(settled: seq<Settled>, at: string)

  /** Successive refreshes, one per round. */
  function RefreshAll(st: DashboardState, rounds: seq<Round>): DashboardState
    decreases |rounds|
  {
    if rounds == [] then st else RefreshAll(Refresh(st, rounds[0].settled, rounds[0].at), rounds[1..])
  }

  /** Any number of refreshes from a state within capacity (the initial state
      among them) never holds more than `TrendCapacity` samples. */
  lemma {:induction false} RefreshesKeepTrendBounded(st: DashboardState, rounds: seq<Round>)
    requires |st.trend| <= TrendCapacity
    ensures |RefreshAll(st, rounds).trend| <= TrendCapacity
    decreases |rounds|
  {
    if rounds != [] {
      RefreshesKeepTrendBounded(Refresh(st, rounds[0].settled, rounds[0].at), rounds[1..]);
    }
  }

  /** The dashboard starts with an empty trend, so however many refreshes
      follow, it never shows more than `TrendCapacity` samples. */
  lemma TrendBoundedFromStart(rounds: seq<Round>)
    ensures |RefreshAll(Initial, rounds).trend| <= TrendCapacity
  {
    RefreshesKeepTrendBounded(Initial, rounds);
  }
}
