# Sports score dashboard — a Dafny model of the data core

The dashboard (`app.js`) pulls fixtures from six ESPN scoreboards (football,
cricket, hockey, basketball, tennis, badminton) and from the TheSportsDB
sports catalog, turns every payload into one flat event record, merges what
arrived, ranks the events (live, then upcoming, then finished; earlier start
first within a status), keeps a per-source health list and a rolling trend
of the last eight live counts, and derives the KPI tiles and the per-sport
bar chart from the ranked list.

This project models that data path as pure functions over immutable
datatypes, one module per component:

| module | models |
|---|---|
| `Wrappers` | `Option`, standing for a JavaScript value that may be `undefined`/`null` |
| `Seqs` | `Map`/`FlatMap` over sequences, and their behaviour under permutation |
| `AsciiText` | `toLowerCase` and `includes`, with a declarative notion of occurrence |
| `EventStatus` | `normalizeStatus` and the status rank used by the sort |
| `Events` | the unified event record, JavaScript truthiness, `formatScore` |
| `EspnAdapter` | the scoreboard payload and its mapping into events |
| `CatalogAdapter` | the catalog payload and its mapping into placeholder events |
| `Aggregator` | the configured sources, a source's outcome, the merge and health fold |
| `Ranking` | the ranking comparator and a stable sort |
| `Trend` | the eight-sample trend buffer |
| `Kpis` | the KPI counts and the per-sport grouping behind the bar chart |
| `Dashboard` | one refresh: merge, rank, record the trend sample |

Concurrency is modelled by its result: every source's fetch settles either
with a list of events (`Delivered`) or with an error (`Failed`), and a
refresh receives the settlements in the order they completed. Any order is
possible, so the properties that should not depend on timing are stated for
every reordering.

Points where the code's behaviour differs from what one might expect of
the dashboard, and where the model follows the code:

- The health list is in completion order, not configuration order: each
  source appends its entry when its own fetch settles (`app.js:87-101`).
  `Aggregator.Merge` states `health == Map(HealthOf, settled)`, and
  `Aggregator.OneHealthEntryPerSource` states that the entries are still one
  per configured source, as a multiset.
- A status text that mentions both a live and a finished keyword is live,
  because the live test comes first (`app.js:27-28`); finished keywords do
  not take precedence (`EventStatus.LiveBeatsFinished`). Keywords match as
  substrings, not words, so "Suspended" is finished
  (`EventStatus.SuspendedIsFinished`).
- The final event order is not fully independent of completion order. The
  sort is stable and the comparator returns 0 for two events with the same
  status and start time, so those events keep their merge order, and the
  merge order is the completion order. `Dashboard.RefreshOrderIndependent`
  proves what does hold: the same events, and the same (rank, start) key at
  every position. `Dashboard.TiedEventsFollowSettlementOrder` exhibits two
  tied events whose ranked order flips with the settlement order.

Representation choices:

- Every optional field of a payload is an `Option`, and every `a || b`
  fallback is modelled by `Events.OrElse`. That function treats `None` and
  the empty string alike, as JavaScript does for strings.
- Scores are `Option<string>`. `None` is an absent score (`undefined`), and
  `Some("")` is the catalog's empty string. `Events.Truthy` is JavaScript
  truthiness for such a value.
- Start times are integers (milliseconds since the epoch). The comparator's
  `new Date(a) - new Date(b)` becomes a comparison of those integers.
- The current time enters as a parameter. The catalog mapping reads the
  clock once per kept entry (`app.js:75` sits inside the per-entry callback),
  so it takes one reading per entry, and the placeholders may carry
  different start times. The trend sample's label is one more reading.

## Model

| member | source | states |
|---|---|---|
| EventStatus.NormalizeStatus | app.js:25-30 | the status is live exactly when the lower-cased text contains "in progress" or "live"; finished exactly when it does not, but contains "final", "ended" or "complete"; upcoming exactly when it contains none of the five |
| EventStatus.NormalizeStatusIgnoresCase | app.js:26 | upper-casing the text first never changes the status |
| EventStatus.LiveBeatsFinished | app.js:27-28 | a text mentioning both a live and a finished keyword ("Live - Final") is live, since the live test comes first |
| EventStatus.ScheduledIsUpcoming | app.js:42 | the scoreboard's fallback text "Scheduled" is upcoming |
| EventStatus.FinalIsFinished | app.js:28 | "Final" is finished |
| EventStatus.SuspendedIsFinished | app.js:28 | matching is by substring, so "Suspended", which contains "ended", is finished |
| EventStatus.EmptyStatusIsUpcoming | app.js:25 | the empty text is upcoming |
| AsciiText.ContainsIsOccurrence | app.js:27-28 | the left-to-right substring search answers true exactly when the pattern occurs at some position of the text |
| AsciiText.AbsentByFirstPair | app.js:27-28 | a word of two or more letters whose first two letters never appear side by side in a text does not occur in it |
| Events.FormatScore | app.js:20-23 | "TBD" exactly when neither score is truthy; otherwise the line has the exact length of, and reads at each position as, the home team, a space, the home score (or "-" when absent), " : ", the away score (or "-"), a space and the away team; an empty but present score stays empty rather than becoming "-" |
| EspnAdapter.FindByRole | app.js:40-41 | `None` exactly when no competitor has the role; otherwise the first competitor that has it |
| EspnAdapter.MapScoreboard | app.js:38-56 | one event per scoreboard event, none when the list is missing; each takes its sport and league from the payload or the configured names, its status text or "Scheduled", the status normalized from that text, "Home"/"Away" and no score for a missing side, source "ESPN" and the event's date |
| EspnAdapter.ScoreboardEventsWellFormed | app.js:42-52 | every mapped event's status is the normalized form of its status text, and its status text, home team and away team are never empty, thanks to the fallbacks |
| EspnAdapter.TeamsFromCompetitors | app.js:40-50 | each side's score is the score of the competitor holding that role in the first competition; each team name is that competitor's non-empty short name when there is one, and "Home"/"Away" otherwise |
| CatalogAdapter.MapCatalog | app.js:64-76 | at most the first eight catalog entries, in order (none when the list is missing); each becomes an upcoming "Reference" event in league "Catalog" from "TheSportsDB", named "Top competitions in" its sport, with empty teams and empty scores, stamped with the clock reading taken for that entry |
| CatalogAdapter.ReferenceMentionsNoKeyword | app.js:72-73 | the text "Reference" mentions none of the live or finished keywords, so the hard-coded status "upcoming" is what normalizing it would give |
| CatalogAdapter.CatalogEventsWellFormed | app.js:68-73 | every catalog event's status is the normalized form of its text, and its score line is "TBD" |
| Aggregator.SettleScoreboard | app.js:86-93 | the health entry a scoreboard settlement pushes is named "ESPN " plus the sport's label, is ok exactly when the reply arrived, and counts the reply's scoreboard events (0 on failure or when the reply has no event list); a failed fetch contributes no events, a successful one exactly the scoreboard mapping |
| Aggregator.SettleCatalog | app.js:95-102 | the health entry a catalog settlement pushes is named "TheSportsDB", is ok exactly when the reply arrived, and counts min(listing length, 8) (0 on failure or without a listing); a failed fetch contributes no events, a successful one exactly the catalog mapping |
| Aggregator.Merge | app.js:82-104 | one health entry per settlement, in settlement order, naming the source, ok exactly when it delivered, with the number of events it delivered (0 on failure); the events are those delivered, concatenated in settlement order, and their number is the sum of the health counts |
| Aggregator.AllFailed | app.js:90-101 | when every source fails the event list is empty and every health entry is failed with count 0 |
| Aggregator.MergeOrderIndependent | app.js:85-104 | any reordering of the settlements merges to the same multiset of events and the same multiset of health entries |
| Aggregator.ConfiguredSourceNames | app.js:1-8 | there are seven sources, the six ESPN scoreboards in configuration order then the catalog, with pairwise distinct display names |
| Aggregator.OneHealthEntryPerSource | app.js:85-104 | when each configured source settles exactly once, in any order, the health list has seven entries whose names are exactly the configured names |
| Ranking.Insert | app.js:106-110 | inserting into a ranked list keeps it ranked and adds exactly the one event |
| Ranking.SortEvents | app.js:106-110 | the result is ranked (status rank, then start time, non-decreasing) and a permutation of the input |
| Ranking.SortIsStable | app.js:106-110 | the events sharing any one (rank, start) key keep their input order |
| Ranking.SortedKeysAgree | app.js:106-110 | two ranked permutations of the same events have the same key at every position |
| Ranking.TiesFollowInputOrder | app.js:106-110 | two events with equal keys come out in the order they went in, whichever order that is |
| Trend.Record | app.js:114-115 | the new sample is last, and from a buffer within capacity the result is the last eight samples of buffer plus sample |
| Trend.RecordAllKeepsNewest | app.js:114-115 | recording many samples into a buffer within capacity leaves exactly the newest eight of everything recorded |
| Trend.RecordsFromEmpty | app.js:13 | starting from the initial empty trend, recording n samples leaves min(n, 8) samples, and they are the last ones recorded |
| Kpis.StatusCountsPartition | app.js:122-126 | the live, upcoming and finished counts add up to the number of events |
| Kpis.CountStatusPermutation | app.js:114 | the count of events with a given status does not depend on their order |
| Kpis.KpiTiles | app.js:121-128 | each status tile counts exactly the events of its status, and the three together split the events; the sports tile is at most the number of events and 0 exactly when there are none |
| Kpis.SportsCovered | app.js:128 | the number of distinct sports is at most the number of events, and 0 exactly when there are none |
| Kpis.Bump | app.js:171-174 | counting one more event of a sport keeps every bar's place and sport, and appends a new bar of count 1 when the sport is new; the bar sports become the old ones plus this one |
| Kpis.BumpCounts | app.js:172 | counting one more event adds one to the count of that sport's first bar and leaves every other count unchanged; with no sport twice, exactly that sport's bar is incremented |
| Kpis.GroupBySport | app.js:171-174 | one bar per distinct sport, no sport twice, exactly the sports of the events |
| Kpis.GroupTallies | app.js:171-174 | each bar's count is the number of events of its sport |
| Kpis.GroupTotal | app.js:171-174 | the counts add up to the number of events |
| Kpis.GroupBars | app.js:171-177 | the grouping has as many bars as there are distinct sports |
| Kpis.ChartBars | app.js:176-177 | the chart shows min(sports, 12) distinct bars, each a sport of the events with its number of events |
| Kpis.GroupsInFirstAppearanceOrder | app.js:171-176 | the groups run in the order in which their sports first appear among the events |
| Kpis.ChartShowsFirstSeenSports | app.js:176-177 | the bars run in order of first appearance, and every sport cut off by the twelve-bar limit first appears after every sport shown |
| Kpis.SportsTileMatchesChart | app.js:121-177 | the sports tile equals the number of chart groups, and with at most twelve sports the chart shows them all |
| Dashboard.Refresh | app.js:82-115 | the new event list is ranked and a permutation of everything delivered; health is one entry per settlement; the trend is the last eight samples with the new live count appended, and that count is the number of live events shown |
| Dashboard.RefreshOrderIndependent | app.js:85-115 | a reordering of the settlements leaves the events and health entries (as multisets), the trend, and the key at every position of the event list unchanged |
| Dashboard.TiedEventsFollowSettlementOrder | app.js:85-110 | two sources delivering one event each, tied on rank and start time: the ranked list follows whichever settled first |
| Dashboard.AllSourcesFail | app.js:85-115 | with every source failed the refresh still completes: no events, every health entry failed with count 0, a trend sample of 0 |
| Dashboard.LiveEventsLead | app.js:106-110 | in a ranked list an event is live exactly when its position is below the number of live events |
| Dashboard.RefreshesKeepTrendBounded | app.js:114-115 | any number of refreshes from a state within capacity keeps at most eight trend samples |
| Dashboard.TrendBoundedFromStart | app.js:10-15 | from the initial state, with its empty trend, any number of refreshes keeps at most eight trend samples |

## Left out

- The HTTP requests, the scoreboard URL, the `res.ok` test and JSON parsing (`app.js:33-36`, `app.js:60-63`) are network I/O. Any failure there, including a thrown error while mapping, is a `Failed` settlement.
- `Promise.all` and the interleaving of the fetches are not modelled step by step. The model takes the settlements as a list in completion order, and every property that should hold for any timing is stated for every reordering.
- Reading the clock is a parameter: the catalog takes eight readings, one per entry it can keep, and only the first ones are used. Formatting a reading with `toISOString()` or `toLocaleTimeString()` is not modelled; start times are integers and the trend label is an opaque string.
- Date parsing is not modelled: start times are already integers. A scoreboard event without a date would make `new Date(undefined)` produce NaN. The comparator would then return NaN, and no fixed ordering could be given; this is not modelled.
- The DOM and Chart.js are not modelled. Neither are the loader toggle, the 140-row table cut-off, the HTML templates, the event listeners, the refresh button, the animation toggle or the two-minute `setInterval` refresh (`app.js:238-267`). Overlapping refreshes, which the button and the timer can start, are not modelled either.
- Lower-casing is ASCII only. `toLowerCase` on other Unicode letters is not modelled, and none of the status keywords contain such letters.
- EspnAdapter.MapScoreboard: scores are strings as the scoreboard sends them. A numeric score would differ only where a 0 is falsy: a line whose scores are both falsy (0 against 0, or 0 against an absent score) would read "TBD", while a 0 against a non-zero score still prints, since `??` keeps the 0. Numeric scores are not modelled.
- CatalogAdapter.MapCatalog: `strSport` is a required string. A catalog entry without it (an `undefined` sport) is not modelled.
- Kpis.ChartShowsFirstSeenSports: bars follow the order in which each sport is first seen, which is the insertion order of a JavaScript object for ordinary keys. JavaScript lists integer-like keys (a sport named "123") first, in numeric order; that reordering is not modelled.
- Kpis.GroupBySport: the tallies are counted into a plain object, so a sport named after an inherited `Object.prototype` member behaves differently in the code. "constructor" or "toString" starts from the inherited function and gets a string count. "__proto__" never becomes a key, so the chart drops it while the sports tile still counts it. The model treats every sport name as an ordinary key, and `Kpis.GroupBars`, `Kpis.ChartBars` and `Kpis.SportsTileMatchesChart` hold only for such names.
- The `status.type.description` chain is flattened to one optional status text per event. The unused default of `normalizeStatus`'s parameter is modelled only by `EventStatus.EmptyStatusIsUpcoming`.
