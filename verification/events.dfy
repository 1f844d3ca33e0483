/** The common event record every source adapter produces, and its score cell. */
module Events {
  import opened Wrappers
  import opened EventStatus

  /** One normalised match or listing. An absent score is `None`; the catalog's
      empty score is `Some("")`. `startsAt` is a timestamp. */
  datatype Event = Event(
    sport: string,
    league: string,
    matchName: Option<string>,
    homeTeam: string,
    awayTeam: string,
    homeScore: Option<string>,
    awayScore: Option<string>,
    statusText: string,
    status: Status,
    source: string,
    startsAt: int)

  /** JavaScript truthiness of an optional string: present and non-empty. */
  predicate Truthy(o: Option<string>) {
    o.Some? && o.value != ""
  }

  /** `o || fallback` on an optional string. */
  function OrElse(o: Option<string>, fallback: string): string {
    if Truthy(o) then o.value else fallback
  }

  /** The event's status agrees with its own status text. */
  predicate Classified(e: Event) {
    e.status == NormalizeStatus(e.statusText)
  }

  /** The score column: "TBD" when neither score is truthy, otherwise
      "home hs : as away" with an absent score shown as "-". */
  function FormatScore(e: Event): (r: string)
    ensures r == "TBD" <==> !Truthy(e.homeScore) && !Truthy(e.awayScore)
    ensures r != "TBD" ==>
      && |r| == |e.homeTeam| + |e.homeScore.GetOr("-")| + |e.awayScore.GetOr("-")| + |e.awayTeam| + 5
      && r[..|e.homeTeam| + 1] == e.homeTeam + " "
      && r[|r| - |e.awayTeam| - 1..] == " " + e.awayTeam
    ensures r != "TBD" ==>
      var h, hs := |e.homeTeam| + 1, e.homeScore.GetOr("-");
      && r[h..h + |hs|] == hs
      && r[h + |hs|..h + |hs| + 3] == " : "
      && r[h + |hs| + 3..|r| - |e.awayTeam| - 1] == e.awayScore.GetOr("-")
  {
    if !Truthy(e.homeScore) && !Truthy(e.awayScore) then "TBD"
    else
      var left := e.homeTeam + " " + e.homeScore.GetOr("-");
      var r := left + " : " + e.awayScore.GetOr("-") + " " + e.awayTeam;
      assert |r| == |left| + 3 + |e.awayScore.GetOr("-")| + 1 + |e.awayTeam|;
      assert r[..|left|] == left;
      assert r[|left|..|left| + 3] == " : ";
      assert r[|left| + 3..|r| - |e.awayTeam| - 1] == e.awayScore.GetOr("-");
      assert r[|r| - |e.awayTeam| - 1..] == " " + e.awayTeam;
      r
  }
}
