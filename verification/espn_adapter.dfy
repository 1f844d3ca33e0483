/** The scoreboard adapter: maps one scoreboard payload to events. The HTTP
    request is not modelled; the payload arrives as a value. Every field the
    code reads through `?.` or `||` is an `Option`. */
module EspnAdapter {
  import opened Wrappers
  import opened EventStatus
  import opened Events

  datatype Team = Team(shortDisplayName: Option<string>)

  /** `homeAway` is the role flag, "home" or "away". */
  datatype Competitor = Competitor(homeAway: Option<string>, team: Option<Team>, score: Option<string>)

  datatype Competition = Competition(competitors: Option<seq<Competitor>>)

  /** `description` stands for `status.type.description`; it is `None` when any
      link of that chain is missing. */
  datatype ScoreboardEvent = ScoreboardEvent(
    name: Option<string>,
    date: int,
    description: Option<string>,
    competitions: Option<seq<Competition>>)

  /** `sportName` and `leagueName` stand for `sport.name` and `league.name`. */
  datatype Scoreboard = Scoreboard(
    sportName: Option<string>,
    leagueName: Option<string>,
    events: Option<seq<ScoreboardEvent>>)

  /** `r` is what a first-match search for `role` finds in `cs`: nothing when
      no competitor has the role, otherwise the competitor at the first
      position that has it. */
  ghost predicate FirstWithRole(cs: seq<Competitor>, role: string, r: Option<Competitor>) {
    && (r.None? <==> forall i :: 0 <= i < |cs| ==> cs[i].homeAway != Some(role))
    && (r.Some? ==> exists i :: 0 <= i < |cs| && cs[i] == r.value && cs[i].homeAway == Some(role)
                      && forall j :: 0 <= j < i ==> cs[j].homeAway != Some(role))
  }

  /** The first competitor listed with `role`, if any. */
  function FindByRole(cs: seq<Competitor>, role: string): (r: Option<Competitor>)
    ensures r.None? <==> forall i :: 0 <= i < |cs| ==> cs[i].homeAway != Some(role)
    ensures r.Some? ==> exists i :: 0 <= i < |cs| && cs[i] == r.value && cs[i].homeAway == Some(role)
                          && forall j :: 0 <= j < i ==> cs[j].homeAway != Some(role)
  {
    if cs == [] then None
    else if cs[0].homeAway == Some(role) then (FirstAtHead(cs, role); Some(cs[0]))
    else
      var r := FindByRole(cs[1..], role);
      FirstPastHead(cs, role, r);
      r
  }

  /** A head with the role is the first match. */
  lemma FirstAtHead(cs: seq<Competitor>, role: string)
    requires cs != [] && cs[0].homeAway == Some(role)
    ensures FirstWithRole(cs, role, Some(cs[0]))
  {
  }

  /** Past a head without the role, the first match of the tail is the first match. */
  lemma FirstPastHead(cs: seq<Competitor>, role: string, r: Option<Competitor>)
    requires cs != [] && cs[0].homeAway != Some(role)
    requires FirstWithRole(cs[1..], role, r)
    ensures FirstWithRole(cs, role, r)
  {
    if r.Some? {
      var i :| 0 <= i < |cs[1..]| && cs[1..][i] == r.value && cs[1..][i].homeAway == Some(role)
                 && forall j :: 0 <= j < i ==> cs[1..][j].homeAway != Some(role);
      forall j | 0 <= j < i + 1 ensures cs[j].homeAway != Some(role) {
        if j > 0 { assert cs[j] == cs[1..][j - 1]; }
      }
      assert cs[i + 1] == r.value && cs[i + 1].homeAway == Some(role);
    } else {
      forall i | 0 <= i < |cs| ensures cs[i].homeAway != Some(role) {
        if i > 0 { assert cs[i] == cs[1..][i - 1]; }
      }
    }
  }

  /** The competitor with `role` in the event's first competition, if any. */
  function Side(ev: ScoreboardEvent, role: string): Option<Competitor> {
    match ev.competitions
    case Some(comps) =>
      if |comps| == 0 then None
      else
        (match comps[0].competitors
         case Some(cs) => FindByRole(cs, role)
         case None => None)
    case None => None
  }

  /** The side's team short name when the side, its team and a non-empty name
      are all present; the fallback otherwise. */
  function TeamName(side: Option<Competitor>, fallback: string): string {
    if side.Some? && side.value.team.Some? then OrElse(side.value.team.value.shortDisplayName, fallback)
    else fallback
  }

  /** The side's score; absent when the side is. */
  function ScoreOf(side: Option<Competitor>): Option<string> {
    if side.Some? then side.value.score else None
  }

  /** One scoreboard entry as an event; `sport` and `league` are the request's path segments. */
  function ToEvent(board: Scoreboard, sport: string, league: string, ev: ScoreboardEvent): Event {
    var statusText := OrElse(ev.description, "Scheduled");
    var home, away := Side(ev, "home"), Side(ev, "away");
    Event(
      sport := OrElse(board.sportName, sport),
      league := OrElse(board.leagueName, league),
      matchName := ev.name,
      homeTeam := TeamName(home, "Home"),
      awayTeam := TeamName(away, "Away"),
      homeScore := ScoreOf(home),
      awayScore := ScoreOf(away),
      statusText := statusText,
      status := NormalizeStatus(statusText),
      source := "ESPN",
      startsAt := ev.date)
  }

  /** One event per scoreboard entry, in order; none when the payload has no
      entry list. */
  function MapScoreboard(board: Scoreboard, sport: string, league: string): (r: seq<Event>)
    ensures |r| == (if board.events.Some? then |board.events.value| else 0)
    ensures forall i :: 0 <= i < |r| ==>
      var ev := board.events.value[i];
      && r[i].source == "ESPN"
      && r[i].startsAt == ev.date
      && r[i].matchName == ev.name
      && r[i].statusText == (if Truthy(ev.description) then ev.description.value else "Scheduled")
      && r[i].status == NormalizeStatus(r[i].statusText)
      && r[i].sport == (if Truthy(board.sportName) then board.sportName.value else sport)
      && r[i].league == (if Truthy(board.leagueName) then board.leagueName.value else league)
      && (Side(ev, "home").None? ==> r[i].homeTeam == "Home" && r[i].homeScore.None?)
      && (Side(ev, "away").None? ==> r[i].awayTeam == "Away" && r[i].awayScore.None?)
  {
    match board.events
    case Some(evs) => seq(|evs|, i requires 0 <= i < |evs| => ToEvent(board, sport, league, evs[i]))
    case None => []
  }

  /** Whatever the payload, every scoreboard event carries a non-empty status
      text that its status agrees with, and non-empty team names. */
  lemma ScoreboardEventsWellFormed(board: Scoreboard, sport: string, league: string)
    ensures forall e :: e in MapScoreboard(board, sport, league) ==>
      Classified(e) && e.statusText != "" && e.homeTeam != "" && e.awayTeam != ""
  {
  }

  /** The side is present and its team has a non-empty short name. */
  predicate Named(side: Option<Competitor>) {
    side.Some? && side.value.team.Some? && Truthy(side.value.team.value.shortDisplayName)
  }

  /** A competitor listed with a role supplies that side's score, and its
      team's short name when that name is non-empty; otherwise the side falls
      back to "Home" or "Away". */
  lemma TeamsFromCompetitors(board: Scoreboard, sport: string, league: string, i: nat)
    requires board.events.Some? && i < |board.events.value|
    ensures var e, ev := MapScoreboard(board, sport, league)[i], board.events.value[i];
      var home, away := Side(ev, "home"), Side(ev, "away");
      && (home.Some? ==> e.homeScore == home.value.score)
      && (away.Some? ==> e.awayScore == away.value.score)
      && (Named(home) ==> e.homeTeam == home.value.team.value.shortDisplayName.value)
      && (!Named(home) ==> e.homeTeam == "Home")
      && (Named(away) ==> e.awayTeam == away.value.team.value.shortDisplayName.value)
      && (!Named(away) ==> e.awayTeam == "Away")
  {
  }
}
