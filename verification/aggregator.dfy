/** The merge step of a refresh: each source settles (delivers events or
    fails), and the settlements are folded, in the order they settled, into
    one event list and one health entry per source. */
module Aggregator {
  import opened Wrappers
  import opened Seqs
  import opened Events
  import opened EspnAdapter
  import opened CatalogAdapter

  /** One configured sport: display label and the scoreboard's sport and league path segments. */
  datatype SportConfig = SportConfig(key: string, displayLabel: string, espnSport: string, espnLeague: string)

  /** The configured sports, in configuration order. */
  const Sports: seq<SportConfig> := [
    SportConfig("football", "Football", "soccer", "eng.1"),
    SportConfig("cricket", "Cricket", "cricket", "ipl"),
    SportConfig("hockey", "Hockey", "hockey", "nhl"),
    SportConfig("basketball", "NBL/Basketball", "basketball", "nbl"),
    SportConfig("tennis", "Tennis", "tennis", "atp"),
    SportConfig("badminton", "Badminton", "badminton", "bwf")
  ]

  /** A data source: one scoreboard request per configured sport, plus the catalog. */
  datatype Source = ScoreboardSource(config: SportConfig) | CatalogSource

  /** The name a source reports under in the health list. */
  function SourceName(src: Source): string {
    match src
    case ScoreboardSource(config) => "ESPN " + config.displayLabel
    case CatalogSource => "TheSportsDB"
  }

  function ToScoreboardSource(config: SportConfig): Source {
    ScoreboardSource(config)
  }

  /** Every source a refresh queries, in configuration order. */
  function ConfiguredSources(): seq<Source> {
    Map(ToScoreboardSource, Sports) + [CatalogSource]
  }

  /** What one adapter call came to: its events, or a failure (network error,
      non-success HTTP status, unreadable body). */
  datatype Outcome = Delivered(events: seq<Event>) | Failed

  /** A source together with its outcome; a list of these is in settlement order. */
  datatype Settled = Settled(source: Source, outcome: Outcome)

  /** One source's health for this refresh. */
  datatype Health = Health(source: string, ok: bool, count: nat)

  datatype Merged = Merged(events: seq<Event>, health: seq<Health>)

  /** A scoreboard request settled; `reply` is `None` when the request failed. */
  function SettleScoreboard(config: SportConfig, reply: Option<Scoreboard>): (r: Settled)
    ensures r.source == ScoreboardSource(config)
    ensures r.outcome.Failed? <==> reply.None?
    ensures reply.Some? ==> r.outcome.events == MapScoreboard(reply.value, config.espnSport, config.espnLeague)
    ensures HealthOf(r) == Health("ESPN " + config.displayLabel, reply.Some?,
      if reply.Some? && reply.value.events.Some? then |reply.value.events.value| else 0)
    ensures reply.None? ==> Contributed(r) == []
  {
    match reply
    case Some(board) => Settled(ScoreboardSource(config), Delivered(MapScoreboard(board, config.espnSport, config.espnLeague)))
    case None => Settled(ScoreboardSource(config), Failed)
  }

  /** The catalog request settled; `reply` is `None` when the request failed. */
  function SettleCatalog(reply: Option<Catalog>, clock: seq<int>): (r: Settled)
    requires |clock| >= CatalogLimit
    ensures r.source == CatalogSource
    ensures r.outcome.Failed? <==> reply.None?
    ensures reply.Some? ==> r.outcome.events == MapCatalog(reply.value, clock)
    ensures reply.Some? ==> |r.outcome.events| <= CatalogLimit
    ensures HealthOf(r) == Health("TheSportsDB", reply.Some?,
      if reply.Some? && reply.value.sports.Some? then
        (if |reply.value.sports.value| < CatalogLimit then |reply.value.sports.value| else CatalogLimit)
      else 0)
    ensures reply.None? ==> Contributed(r) == []
  {
    match reply
    case Some(c) => Settled(CatalogSource, Delivered(MapCatalog(c, clock)))
    case None => Settled(CatalogSource, Failed)
  }

  /** The health entry a settlement pushes. */
  function HealthOf(s: Settled): Health {
    match s.outcome
    case Delivered(events) => Health(SourceName(s.source), true, |events|)
    case Failed => Health(SourceName(s.source), false, 0)
  }

  /** The events a settlement pushes. */
  function Contributed(s: Settled): seq<Event> {
    match s.outcome
    case Delivered(events) => events
    case Failed => []
  }

  /** Sum of the health counts. */
  function TotalCount(hs: seq<Health>): nat {
    if hs == [] then 0 else hs[0].count + TotalCount(hs[1..])
  }

  lemma {:induction false} TotalCountAppend(u: seq<Health>, v: seq<Health>)
    ensures TotalCount(u + v) == TotalCount(u) + TotalCount(v)
  {
    if u == [] {
      assert u + v == v;
    } else {
      assert (u + v)[1..] == u[1..] + v;
      TotalCountAppend(u[1..], v);
    }
  }

  /** One settlement callback: push its events and its health entry. */
  function Absorb(acc: Merged, s: Settled): Merged {
    match s.outcome
    case Delivered(events) => Merged(acc.events + events, acc.health + [Health(SourceName(s.source), true, |events|)])
    case Failed => Merged(acc.events, acc.health + [Health(SourceName(s.source), false, 0)])
  }

  /** All settlement callbacks, in settlement order. Health entry `i` belongs to
      the `i`-th settlement; a failure yields `ok == false, count == 0` and no
      events; the events are the delivered lists concatenated; and the number
      of events is the sum of the health counts. */
  function Merge(settled: seq<Settled>): (r: Merged)
    ensures |r.health| == |settled|
    ensures forall i :: 0 <= i < |settled| ==>
      && r.health[i].source == SourceName(settled[i].source)
      && (r.health[i].ok <==> settled[i].outcome.Delivered?)
      && r.health[i].count == (if settled[i].outcome.Delivered? then |settled[i].outcome.events| else 0)
    ensures r.health == Map(HealthOf, settled)
    ensures r.events == FlatMap(Contributed, settled)
    ensures |r.events| == TotalCount(r.health)
  {
    if settled == [] then Merged([], [])
    else
      var init, last := settled[..|settled| - 1], settled[|settled| - 1];
      var acc := Merge(init);
      assert settled == init + [last];
      AbsorbExtends(init, last, acc);
      Absorb(acc, last)
  }

  /** One callback extends the fold's invariant by one settlement. */
  lemma AbsorbExtends(init: seq<Settled>, last: Settled, acc: Merged)
    requires acc.health == Map(HealthOf, init)
    requires acc.events == FlatMap(Contributed, init)
    requires |acc.events| == TotalCount(acc.health)
    ensures Absorb(acc, last).health == Map(HealthOf, init + [last])
    ensures Absorb(acc, last).events == FlatMap(Contributed, init + [last])
    ensures |Absorb(acc, last).events| == TotalCount(Absorb(acc, last).health)
  {
    MapAppend(HealthOf, init, [last]);
    FlatMapAppend(Contributed, init, [last]);
    assert FlatMap(Contributed, [last]) == Contributed(last);
    TotalCountAppend(acc.health, [HealthOf(last)]);
  }

  /** When every source fails the refresh still completes: no events, and
      every health entry is `ok == false` with count 0. */
  lemma {:induction false} AllFailed(settled: seq<Settled>)
    requires forall i :: 0 <= i < |settled| ==> settled[i].outcome.Failed?
    ensures Merge(settled).events == []
    ensures forall h :: h in Merge(settled).health ==> !h.ok && h.count == 0
  {
    if settled != [] {
      AllFailed(settled[1..]);
      assert FlatMap(Contributed, settled) == FlatMap(Contributed, settled[1..]);
    }
  }

  /** The settlement order does not matter up to reordering: two orders of
      the same settlements give the same health entries and the same events,
      each as a multiset. */
  lemma MergeOrderIndependent(a: seq<Settled>, b: seq<Settled>)
    requires multiset(a) == multiset(b)
    ensures multiset(Merge(a).health) == multiset(Merge(b).health)
    ensures multiset(Merge(a).events) == multiset(Merge(b).events)
  {
    MapPermutation(HealthOf, a, b);
    FlatMapPermutation(Contributed, a, b);
  }

  function SourceOf(s: Settled): Source {
    s.source
  }

  function HealthSource(h: Health): string {
    h.source
  }

  /** Each configured source settles exactly once, in some order. */
  ghost predicate SettlesEachSourceOnce(settled: seq<Settled>) {
    multiset(Map(SourceOf, settled)) == multiset(ConfiguredSources())
  }

  /** Seven sources are configured, the six scoreboards in configuration
      order and then the catalog, and their health names are distinct. */
  lemma ConfiguredSourceNames()
    ensures |ConfiguredSources()| == 7
    ensures forall i :: 0 <= i < 6 ==> ConfiguredSources()[i] == ScoreboardSource(Sports[i])
    ensures ConfiguredSources()[6] == CatalogSource
    ensures forall i, j :: 0 <= i < j < 7 ==>
      SourceName(ConfiguredSources()[i]) != SourceName(ConfiguredSources()[j])
  {
    var sources := ConfiguredSources();
    assert forall i :: 0 <= i < 6 ==> sources[i] == ScoreboardSource(Sports[i]);
    assert sources[6] == CatalogSource;
    assert forall i :: 0 <= i < 6 ==> SourceName(sources[i]) == "ESPN " + Sports[i].displayLabel;
    // The six labels start with six different letters, so the names differ at position 5.
    var initials := "FCHNTB";
    assert forall i :: 0 <= i < 6 ==> |SourceName(sources[i])| > 5 && SourceName(sources[i])[5] == initials[i];
    assert forall i :: 0 <= i < 6 ==> SourceName(sources[i])[0] == 'E';
    assert SourceName(sources[6])[0] == 'T';
  }

  /** However the sources settle, the health list has one entry per configured
      source: seven entries whose names are the configured names. */
  lemma OneHealthEntryPerSource(settled: seq<Settled>)
    requires SettlesEachSourceOnce(settled)
    ensures |Merge(settled).health| == 7
    ensures multiset(Map(HealthSource, Merge(settled).health)) == multiset(Map(SourceName, ConfiguredSources()))
  {
    var sources := Map(SourceOf, settled);
    ConfiguredSourceNames();
    assert |settled| == |multiset(sources)| == |multiset(ConfiguredSources())| == 7;
    MapPermutation(SourceName, sources, ConfiguredSources());
    assert Map(HealthSource, Merge(settled).health) == Map(SourceName, sources);
  }
}
