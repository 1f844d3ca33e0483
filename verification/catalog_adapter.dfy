/** The catalog adapter: turns the first entries of the sports listing into
    upcoming placeholder events. The HTTP request is not modelled; the payload
    and the current time arrive as values. */
module CatalogAdapter {
  import opened Wrappers
  import opened AsciiText
  import opened EventStatus
  import opened Events

  datatype SportEntry = SportEntry(strSport: string)

  /** `sports` is `None` when the payload has no `sports` array. */
  datatype Catalog = Catalog(sports: Option<seq<SportEntry>>)

  /** How many listing entries become events. */
  const CatalogLimit: nat := 8

  function Placeholder(entry: SportEntry, now: int): Event {
    Event(
      sport := entry.strSport,
      league := "Catalog",
      matchName := Some("Top competitions in " + entry.strSport),
      homeTeam := "",
      awayTeam := "",
      homeScore := Some(""),
      awayScore := Some(""),
      statusText := "Reference",
      status := Upcoming,
      source := "TheSportsDB",
      startsAt := now)
  }

  /** The first `CatalogLimit` entries of the listing, in order, or none when
      the listing is missing. The clock is read once per kept entry, so
      `clock[i]` is the time stamped on the i-th placeholder. */
  function MapCatalog(c: Catalog, clock: seq<int>): (r: seq<Event>)
    requires |clock| >= CatalogLimit
    ensures c.sports.None? ==> r == []
    ensures c.sports.Some? ==> |r| == if |c.sports.value| < CatalogLimit then |c.sports.value| else CatalogLimit
    ensures forall i :: 0 <= i < |r| ==>
      && r[i].sport == c.sports.value[i].strSport
      && r[i].matchName == Some("Top competitions in " + c.sports.value[i].strSport)
      && r[i].league == "Catalog"
      && r[i].status == Upcoming
      && r[i].statusText == "Reference"
      && r[i].source == "TheSportsDB"
      && r[i].homeTeam == "" && r[i].awayTeam == ""
      && r[i].homeScore == Some("") && r[i].awayScore == Some("")
      && r[i].startsAt == clock[i]
  {
    match c.sports
    case Some(entries) =>
      var kept := if |entries| < CatalogLimit then entries else entries[..CatalogLimit];
      seq(|kept|, i requires 0 <= i < |kept| => Placeholder(kept[i], clock[i]))
    case None => []
  }

  /** "reference" contains none of the status keywords. */
  lemma ReferenceMentionsNoKeyword()
    ensures !MentionsLive("Reference") && !MentionsFinished("Reference")
  {
    var s := ToLower("Reference");
    assert s == "reference";
    AbsentByFirstPair("in progress", s);
    AbsentByFirstPair("live", s);
    AbsentByFirstPair("final", s);
    AbsentByFirstPair("ended", s);
    AbsentByFirstPair("complete", s);
  }

  /** The fixed "upcoming" status agrees with the classifier applied to "Reference",
      and the score column of every placeholder reads "TBD". */
  lemma CatalogEventsWellFormed(c: Catalog, clock: seq<int>)
    requires |clock| >= CatalogLimit
    ensures forall e :: e in MapCatalog(c, clock) ==> Classified(e) && FormatScore(e) == "TBD"
  {
    ReferenceMentionsNoKeyword();
  }
}
