/** The counting behind the KPI tiles and the per-sport bar chart. */
module Kpis {
  import opened Seqs
  import opened EventStatus
  import opened Events

  /** The number of events whose status is `st`. */
  function CountStatus(events: seq<Event>, st: Status): nat {
    if events == [] then 0
    else (if events[0].status == st then 1 else 0) + CountStatus(events[1..], st)
  }

  function StatusOf(e: Event): Status {
    e.status
  }

  /** Counting a status is taking its multiplicity among the statuses. */
  lemma {:induction false} CountIsMultiplicity(events: seq<Event>, st: Status)
    ensures CountStatus(events, st) == multiset(Map(StatusOf, events))[st]
  {
    if events != [] {
      var rest := Map(StatusOf, events[1..]);
      CountIsMultiplicity(events[1..], st);
      MapAppend(StatusOf, [events[0]], events[1..]);
      assert [events[0]] + events[1..] == events;
      assert Map(StatusOf, events) == [events[0].status] + rest;
      assert multiset(Map(StatusOf, events)) == multiset{events[0].status} + multiset(rest);
    }
  }

  /** Reordering the events changes no status count. */
  lemma CountStatusPermutation(a: seq<Event>, b: seq<Event>, st: Status)
    requires multiset(a) == multiset(b)
    ensures CountStatus(a, st) == CountStatus(b, st)
  {
    CountIsMultiplicity(a, st);
    CountIsMultiplicity(b, st);
    MapPermutation(StatusOf, a, b);
  }

  /** Every event is counted under exactly one status tile. */
  lemma {:induction false} StatusCountsPartition(events: seq<Event>)
    ensures CountStatus(events, Live) + CountStatus(events, Upcoming) + CountStatus(events, Finished) == |events|
  {
    if events != [] {
      StatusCountsPartition(events[1..]);
    }
  }

  /** The four KPI tiles. */
  datatype Tiles = Tiles(sportsCovered: nat, live: nat, upcoming: nat, finished: nat)

  /** The tiles' numbers: the three status tiles split the events between
      them, and there are no more sports than events. */
  function KpiTiles(events: seq<Event>): (t: Tiles)
    ensures t.live + t.upcoming + t.finished == |events|
    ensures t.sportsCovered <= |events|
    ensures t.sportsCovered == 0 <==> events == []
    ensures t.live == CountStatus(events, Live)
    ensures t.upcoming == CountStatus(events, Upcoming)
    ensures t.finished == CountStatus(events, Finished)
  {
    StatusCountsPartition(events);
    Tiles(SportsCovered(events), CountStatus(events, Live), CountStatus(events, Upcoming), CountStatus(events, Finished))
  }

  /** The distinct sports among the events. */
  function SportsOf(events: seq<Event>): set<string> {
    set e | e in events :: e.sport
  }

  /** The number of distinct sports: no more than there are events, and at
      least one as soon as there is an event. */
  function SportsCovered(events: seq<Event>): (n: nat)
    ensures n <= |events|
    ensures n == 0 <==> events == []
  {
    SportsBound(events);
    |SportsOf(events)|
  }

  lemma {:induction false} SportsBound(events: seq<Event>)
    ensures |SportsOf(events)| <= |events|
    ensures events != [] ==> |SportsOf(events)| > 0
  {
    if events != [] {
      SportsBound(events[1..]);
      assert SportsOf(events) == {events[0].sport} + SportsOf(events[1..]);
      assert events[0].sport in SportsOf(events);
    }
  }

  /** One bar of the per-sport chart. */
  datatype SportTally = SportTally(sport: string, count: nat)

  /** The number of events of `sport`. */
  function CountSport(events: seq<Event>, sport: string): nat {
    if events == [] then 0
    else (if events[0].sport == sport then 1 else 0) + CountSport(events[1..], sport)
  }

  /** Counting up to the last event, then that event. */
  lemma {:induction false} CountSportSnoc(init: seq<Event>, x: Event, sport: string)
    ensures CountSport(init + [x], sport) == CountSport(init, sport) + (if x.sport == sport then 1 else 0)
  {
    if init != [] {
      CountSportSnoc(init[1..], x, sport);
      assert (init + [x])[1..] == init[1..] + [x];
    }
  }

  /** The tally recorded for `sport`, 0 if there is none. */
  function TallyOf(g: seq<SportTally>, sport: string): nat {
    if g == [] then 0 else (if g[0].sport == sport then g[0].count else 0) + TallyOf(g[1..], sport)
  }

  predicate DistinctSports(g: seq<SportTally>) {
    forall i, j :: 0 <= i < j < |g| ==> g[i].sport != g[j].sport
  }

  /** The sports that have a bar. */
  function Labels(g: seq<SportTally>): set<string> {
    if g == [] then {} else {g[0].sport} + Labels(g[1..])
  }

  lemma {:induction false} BarsInLabels(g: seq<SportTally>)
    ensures forall i :: 0 <= i < |g| ==> g[i].sport in Labels(g)
  {
    if g != [] {
      BarsInLabels(g[1..]);
      assert forall i :: 1 <= i < |g| ==> g[i] == g[1..][i - 1];
    }
  }

  lemma {:induction false} LabelsFromBars(g: seq<SportTally>, s: string)
    requires forall i :: 0 <= i < |g| ==> g[i].sport != s
    ensures s !in Labels(g)
  {
    if g != [] {
      LabelsFromBars(g[1..], s);
    }
  }

  /** Bar `i` is the first bar of `sport`. */
  predicate FirstBar(g: seq<SportTally>, sport: string, i: nat)
    requires i < |g|
  {
    g[i].sport == sport && forall k :: 0 <= k < i ==> g[k].sport != sport
  }

  /** Counts one more event of `sport` into the tallies, which keep their
      insertion order: a new sport is appended at the end with a count of one,
      an existing one is incremented, and every other bar keeps its place. */
  function Bump(g: seq<SportTally>, sport: string): (r: seq<SportTally>)
    ensures |r| == |g| + (if sport in Labels(g) then 0 else 1)
    ensures forall i :: 0 <= i < |g| ==> r[i].sport == g[i].sport
    ensures |r| > |g| ==> r[|g|] == SportTally(sport, 1)
    ensures Labels(r) == Labels(g) + {sport}
  {
    if g == [] then [SportTally(sport, 1)]
    else if g[0].sport == sport then
      var r := [SportTally(sport, g[0].count + 1)] + g[1..];
      assert r[1..] == g[1..];
      r
    else
      var rest := Bump(g[1..], sport);
      var r := [g[0]] + rest;
      assert r[1..] == rest;
      r
  }

  /** Bumping adds one to the count of the sport's first bar and leaves every
      other count alone; with no sport twice, that is exactly the sport's bar. */
  lemma {:induction false} BumpCounts(g: seq<SportTally>, sport: string)
    ensures var r := Bump(g, sport);
      forall i :: 0 <= i < |g| ==> r[i].count == g[i].count + (if FirstBar(g, sport, i) then 1 else 0)
    ensures var r := Bump(g, sport);
      DistinctSports(g) ==> forall i :: 0 <= i < |g| ==> r[i].count == g[i].count + (if g[i].sport == sport then 1 else 0)
  {
    var r := Bump(g, sport);
    if g != [] {
      if g[0].sport == sport {
        assert r == [SportTally(sport, g[0].count + 1)] + g[1..];
        assert forall i :: 0 < i < |g| ==> !FirstBar(g, sport, i);
      } else {
        BumpCounts(g[1..], sport);
        assert r == [g[0]] + Bump(g[1..], sport);
        FirstBarPastHead(g, sport);
      }
    }
    FirstBarOfDistinct(g, sport);
  }

  /** With no sport twice, a bar of `sport` is its first bar. */
  lemma FirstBarOfDistinct(g: seq<SportTally>, sport: string)
    ensures DistinctSports(g) ==> forall i :: 0 <= i < |g| ==> (FirstBar(g, sport, i) <==> g[i].sport == sport)
  {
  }

  /** Past a head of another sport, the first bar of `sport` is one further on. */
  lemma FirstBarPastHead(g: seq<SportTally>, sport: string)
    requires g != [] && g[0].sport != sport
    ensures !FirstBar(g, sport, 0)
    ensures forall i :: 0 < i < |g| ==> (FirstBar(g, sport, i) <==> FirstBar(g[1..], sport, i - 1))
  {
    forall i | 0 < i < |g| ensures FirstBar(g, sport, i) <==> FirstBar(g[1..], sport, i - 1) {
      assert forall k :: 0 < k < i ==> g[k] == g[1..][k - 1];
      if FirstBar(g[1..], sport, i - 1) {
        forall k | 0 <= k < i ensures g[k].sport != sport {
          if k > 0 { assert g[k] == g[1..][k - 1]; }
        }
      }
    }
  }

  /** A bar past the old ones is the new sport's, which had no bar. */
  lemma BumpGrows(g: seq<SportTally>, sport: string, j: nat)
    requires |g| <= j < |Bump(g, sport)|
    ensures j == |g| && Bump(g, sport)[j] == SportTally(sport, 1) && sport !in Labels(g)
  {
  }

  /** Bumping adds one to that sport's tally and leaves every other tally alone. */
  lemma {:induction false} BumpTally(g: seq<SportTally>, sport: string, s: string)
    ensures TallyOf(Bump(g, sport), s) == TallyOf(g, s) + (if s == sport then 1 else 0)
  {
    if g != [] && g[0].sport != sport {
      BumpTally(g[1..], sport, s);
      assert ([g[0]] + Bump(g[1..], sport))[1..] == Bump(g[1..], sport);
    } else if g != [] {
      assert ([SportTally(sport, g[0].count + 1)] + g[1..])[1..] == g[1..];
    }
  }

  /** Bumping never creates a second bar for a sport. */
  lemma BumpDistinct(g: seq<SportTally>, sport: string)
    requires DistinctSports(g)
    ensures DistinctSports(Bump(g, sport))
  {
    var r := Bump(g, sport);
    if |r| > |g| {
      BarsInLabels(g);
      assert sport !in Labels(g);
      assert r[|g|].sport == sport;
    }
    forall i, j | 0 <= i < j < |r| ensures r[i].sport != r[j].sport {
      if j < |g| {
        assert r[i].sport == g[i].sport && r[j].sport == g[j].sport;
      }
    }
  }

  lemma SportsOfSnoc(events: seq<Event>)
    requires events != []
    ensures SportsOf(events) == SportsOf(events[..|events| - 1]) + {events[|events| - 1].sport}
  {
    assert events == events[..|events| - 1] + [events[|events| - 1]];
  }

  /** The reduce in the sports chart: one bar per sport, in order of first
      appearance, with no sport twice and exactly the events' sports. */
  function GroupBySport(events: seq<Event>): (g: seq<SportTally>)
    ensures DistinctSports(g)
    ensures Labels(g) == SportsOf(events)
  {
    if events == [] then []
    else
      var init := events[..|events| - 1];
      var prev := GroupBySport(init);
      BumpDistinct(prev, events[|events| - 1].sport);
      SportsOfSnoc(events);
      Bump(prev, events[|events| - 1].sport)
  }

  /** Each sport's tally is its number of events. */
  lemma {:induction false} GroupTallies(events: seq<Event>, s: string)
    ensures TallyOf(GroupBySport(events), s) == CountSport(events, s)
  {
    if events != [] {
      var init, x := events[..|events| - 1], events[|events| - 1];
      assert events == init + [x];
      GroupTallies(init, s);
      GroupBySportSnoc(init, x);
      BumpTally(GroupBySport(init), x.sport, s);
      CountSportSnoc(init, x, s);
    }
  }

  /** With no sport twice, the tally of a bar's sport is that bar's count. */
  lemma {:induction false} TallyOfBar(g: seq<SportTally>, i: nat)
    requires DistinctSports(g) && i < |g|
    ensures TallyOf(g, g[i].sport) == g[i].count
  {
    if i == 0 {
      TallyOfAbsent(g[1..], g[0].sport);
    } else {
      TallyOfBar(g[1..], i - 1);
    }
  }

  lemma {:induction false} TallyOfAbsent(g: seq<SportTally>, s: string)
    requires forall i :: 0 <= i < |g| ==> g[i].sport != s
    ensures TallyOf(g, s) == 0
  {
    if g != [] {
      TallyOfAbsent(g[1..], s);
    }
  }

  /** Distinct bars are as many as their labels. */
  lemma {:induction false} DistinctLabelsCount(g: seq<SportTally>)
    requires DistinctSports(g)
    ensures |Labels(g)| == |g|
  {
    if g != [] {
      DistinctLabelsCount(g[1..]);
      assert forall i :: 0 <= i < |g[1..]| ==> g[1..][i].sport != g[0].sport by {
        forall i | 0 <= i < |g[1..]| ensures g[1..][i].sport != g[0].sport {
          assert g[1..][i] == g[i + 1];
        }
      }
      LabelsFromBars(g[1..], g[0].sport);
    }
  }

  /** Every group is one of the events' sports and counts exactly its events;
      there is one group per sport. */
  lemma GroupBars(events: seq<Event>)
    ensures var g := GroupBySport(events);
      && |g| == |SportsOf(events)|
      && forall i :: 0 <= i < |g| ==> g[i].sport in SportsOf(events) && g[i].count == CountSport(events, g[i].sport)
  {
    var g := GroupBySport(events);
    DistinctLabelsCount(g);
    BarsInLabels(g);
    forall i | 0 <= i < |g| ensures g[i].sport in SportsOf(events) && g[i].count == CountSport(events, g[i].sport) {
      TallyOfBar(g, i);
      GroupTallies(events, g[i].sport);
    }
  }

  /** Some event of sport `a` comes before every event of sport `b`. */
  ghost predicate AppearsBefore(events: seq<Event>, a: string, b: string) {
    exists k :: 0 <= k < |events| && events[k].sport == a && forall m :: 0 <= m < k ==> events[m].sport != b
  }

  lemma SportIndex(events: seq<Event>, s: string) returns (k: nat)
    requires s in SportsOf(events)
    ensures k < |events| && events[k].sport == s
  {
    var e :| e in events && e.sport == s;
    k :| k < |events| && events[k] == e;
  }

  lemma {:induction false} LabelIndex(g: seq<SportTally>, s: string) returns (j: nat)
    requires s in Labels(g)
    ensures j < |g| && g[j].sport == s
  {
    if g[0].sport == s {
      j := 0;
    } else {
      var j' := LabelIndex(g[1..], s);
      j := j' + 1;
    }
  }

  lemma AppearsBeforeSnoc(init: seq<Event>, x: Event, a: string, b: string)
    requires AppearsBefore(init, a, b)
    ensures AppearsBefore(init + [x], a, b)
  {
    var k :| 0 <= k < |init| && init[k].sport == a && forall m :: 0 <= m < k ==> init[m].sport != b;
    var events := init + [x];
    assert events[k].sport == a && forall m :: 0 <= m < k ==> events[m].sport != b;
  }

  /** A sport seen for the first time at the end comes after every sport seen before. */
  lemma NewSportComesLast(init: seq<Event>, x: Event, a: string)
    requires a in SportsOf(init) && x.sport !in SportsOf(init)
    ensures AppearsBefore(init + [x], a, x.sport)
  {
    var k := SportIndex(init, a);
    var events := init + [x];
    forall m | 0 <= m < k ensures events[m].sport != x.sport {
      assert events[m] == init[m] && init[m] in init;
    }
    assert events[k].sport == a;
  }

  lemma GroupBySportSnoc(init: seq<Event>, x: Event)
    ensures GroupBySport(init + [x]) == Bump(GroupBySport(init), x.sport)
  {
    assert (init + [x])[..|init|] == init;
  }

  /** Two groups that existed before the last event keep their order. */
  lemma GroupOrderKept(init: seq<Event>, x: Event, i: nat, j: nat)
    requires i < j < |GroupBySport(init)|
    requires AppearsBefore(init, GroupBySport(init)[i].sport, GroupBySport(init)[j].sport)
    ensures j < |GroupBySport(init + [x])|
    ensures AppearsBefore(init + [x], GroupBySport(init + [x])[i].sport, GroupBySport(init + [x])[j].sport)
  {
    var prev := GroupBySport(init);
    GroupBySportSnoc(init, x);
    AppearsBeforeSnoc(init, x, prev[i].sport, prev[j].sport);
  }

  /** A group opened by the last event comes after every earlier group. */
  lemma GroupOrderNew(init: seq<Event>, x: Event, i: nat, j: nat)
    requires i < j < |GroupBySport(init + [x])| && j >= |GroupBySport(init)|
    ensures AppearsBefore(init + [x], GroupBySport(init + [x])[i].sport, GroupBySport(init + [x])[j].sport)
  {
    var prev := GroupBySport(init);
    GroupBySportSnoc(init, x);
    BumpGrows(prev, x.sport, j);
    BarsInLabels(prev);
    NewSportComesLast(init, x, prev[i].sport);
  }

  lemma {:induction false} GroupOrder(events: seq<Event>, i: nat, j: nat)
    requires i < j < |GroupBySport(events)|
    ensures AppearsBefore(events, GroupBySport(events)[i].sport, GroupBySport(events)[j].sport)
    decreases |events|
  {
    var init, x := events[..|events| - 1], events[|events| - 1];
    assert events == init + [x];
    if j < |GroupBySport(init)| {
      GroupOrder(init, i, j);
      GroupOrderKept(init, x, i, j);
    } else {
      GroupOrderNew(init, x, i, j);
    }
  }

  /** The groups are in order of each sport's first appearance among the events. */
  lemma GroupsInFirstAppearanceOrder(events: seq<Event>)
    ensures var g := GroupBySport(events);
      forall i, j :: 0 <= i < j < |g| ==> AppearsBefore(events, g[i].sport, g[j].sport)
  {
    var g := GroupBySport(events);
    forall i, j | 0 <= i < j < |g| ensures AppearsBefore(events, g[i].sport, g[j].sport) {
      GroupOrder(events, i, j);
    }
  }

  const ChartLimit: nat := 12

  /** The bars the chart shows: the first twelve groups. Each shows its sport's
      number of events, and there are as many bars as sports, up to twelve. */
  function ChartBars(events: seq<Event>): (bars: seq<SportTally>)
    ensures |bars| == if |SportsOf(events)| < ChartLimit then |SportsOf(events)| else ChartLimit
    ensures DistinctSports(bars)
    ensures forall i :: 0 <= i < |bars| ==> bars[i].sport in SportsOf(events)
    ensures forall i :: 0 <= i < |bars| ==> bars[i].count == CountSport(events, bars[i].sport)
  {
    var g := GroupBySport(events);
    GroupBars(events);
    var n := if |g| < ChartLimit then |g| else ChartLimit;
    PrefixBars(g, n);
    g[..n]
  }

  lemma ChartIsPrefix(events: seq<Event>)
    ensures ChartBars(events) <= GroupBySport(events)
  {
  }

  lemma ChartPairOrder(events: seq<Event>, i: nat, j: nat)
    requires i < j < |ChartBars(events)|
    ensures AppearsBefore(events, ChartBars(events)[i].sport, ChartBars(events)[j].sport)
  {
    ChartIsPrefix(events);
    GroupOrder(events, i, j);
  }

  lemma ChartLeavesOutLater(events: seq<Event>, i: nat, s: string)
    requires i < |ChartBars(events)| && s in SportsOf(events) && s !in Labels(ChartBars(events))
    ensures AppearsBefore(events, ChartBars(events)[i].sport, s)
  {
    var g, bars := GroupBySport(events), ChartBars(events);
    ChartIsPrefix(events);
    var j := LabelIndex(g, s);
    BarsInLabels(bars);
    assert j >= |bars|;
    GroupOrder(events, i, j);
  }

  /** Which sports the chart shows: the bars run in order of first appearance,
      and every sport left off the chart first appears after every sport on it. */
  lemma ChartShowsFirstSeenSports(events: seq<Event>)
    ensures var bars := ChartBars(events);
      forall i, j :: 0 <= i < j < |bars| ==> AppearsBefore(events, bars[i].sport, bars[j].sport)
    ensures var bars := ChartBars(events);
      forall i, s :: 0 <= i < |bars| && s in SportsOf(events) && s !in Labels(bars) ==>
        AppearsBefore(events, bars[i].sport, s)
  {
    var bars := ChartBars(events);
    forall i, j | 0 <= i < j < |bars| ensures AppearsBefore(events, bars[i].sport, bars[j].sport) {
      ChartPairOrder(events, i, j);
    }
    forall i, s | 0 <= i < |bars| && s in SportsOf(events) && s !in Labels(bars)
      ensures AppearsBefore(events, bars[i].sport, s)
    {
      ChartLeavesOutLater(events, i, s);
    }
  }

  /** The sports tile and the chart agree: there are as many groups as sports
      covered, and the chart shows all of them when there are at most twelve. */
  lemma SportsTileMatchesChart(events: seq<Event>)
    ensures KpiTiles(events).sportsCovered == |GroupBySport(events)|
    ensures KpiTiles(events).sportsCovered <= ChartLimit ==> |ChartBars(events)| == KpiTiles(events).sportsCovered
  {
    GroupBars(events);
  }

  lemma PrefixBars(g: seq<SportTally>, n: nat)
    requires DistinctSports(g) && n <= |g|
    ensures DistinctSports(g[..n])
    ensures forall i :: 0 <= i < n ==> g[..n][i] == g[i]
  {
  }

  /** Sum of the bar counts. */
  function TotalTally(g: seq<SportTally>): nat {
    if g == [] then 0 else g[0].count + TotalTally(g[1..])
  }

  lemma {:induction false} BumpTotal(g: seq<SportTally>, sport: string)
    ensures TotalTally(Bump(g, sport)) == TotalTally(g) + 1
  {
    if g != [] && g[0].sport != sport {
      BumpTotal(g[1..], sport);
      assert ([g[0]] + Bump(g[1..], sport))[1..] == Bump(g[1..], sport);
    } else if g != [] {
      assert ([SportTally(sport, g[0].count + 1)] + g[1..])[1..] == g[1..];
    }
  }

  /** Grouping loses no event and counts none twice. */
  lemma {:induction false} GroupTotal(events: seq<Event>)
    ensures TotalTally(GroupBySport(events)) == |events|
  {
    if events != [] {
      var init := events[..|events| - 1];
      GroupTotal(init);
      BumpTotal(GroupBySport(init), events[|events| - 1].sport);
    }
  }
}
