/** Classification of a provider's free-text status into live, upcoming or finished. */
module EventStatus {
  import opened AsciiText

  datatype Status = Live | Upcoming | Finished

  /** `txt` contains `word`, ignoring case. */
  ghost predicate Mentions(txt: string, word: string) {
    OccursIn(word, ToLower(txt))
  }

  ghost predicate MentionsLive(txt: string) {
    Mentions(txt, "in progress") || Mentions(txt, "live")
  }

  ghost predicate MentionsFinished(txt: string) {
    Mentions(txt, "final") || Mentions(txt, "ended") || Mentions(txt, "complete")
  }

  /** Keyword classification; the live keywords are checked first, so they win. */
  function NormalizeStatus(txt: string): (r: Status)
    ensures r == Live <==> MentionsLive(txt)
    ensures r == Finished <==> !MentionsLive(txt) && MentionsFinished(txt)
    ensures r == Upcoming <==> !MentionsLive(txt) && !MentionsFinished(txt)
  {
    var s := ToLower(txt);
    ContainsIsOccurrence(s, "in progress");
    ContainsIsOccurrence(s, "live");
    ContainsIsOccurrence(s, "final");
    ContainsIsOccurrence(s, "ended");
    ContainsIsOccurrence(s, "complete");
    if Contains(s, "in progress") || Contains(s, "live") then Live
    else if Contains(s, "final") || Contains(s, "ended") || Contains(s, "complete") then Finished
    else Upcoming
  }

  /** Sort weight: live first, then upcoming, then finished. */
  function Rank(st: Status): nat {
    match st
    case Live => 0
    case Upcoming => 1
    case Finished => 2
  }

  /** The classification looks only at the lower-cased text, so case never matters. */
  lemma NormalizeStatusIgnoresCase(txt: string)
    ensures NormalizeStatus(ToUpper(txt)) == NormalizeStatus(txt)
    ensures NormalizeStatus(ToLower(txt)) == NormalizeStatus(txt)
  {
    LowerIgnoresCase(txt);
  }

  /** The parameter's default, the empty text, is upcoming. */
  lemma EmptyStatusIsUpcoming()
    ensures NormalizeStatus("") == Upcoming
  {
  }

  /** A text carrying both a live and a finished keyword is live. */
  lemma LiveBeatsFinished()
    ensures NormalizeStatus("Live - Final") == Live
  {
    assert MatchesAt("live", ToLower("Live - Final"), 0);
  }

  /** The scoreboard adapter's fallback text is upcoming. */
  lemma ScheduledIsUpcoming()
    ensures NormalizeStatus("Scheduled") == Upcoming
  {
    var s := ToLower("Scheduled");
    assert s == "scheduled";
    AbsentByFirstPair("in progress", s);
    AbsentByFirstPair("live", s);
    AbsentByFirstPair("final", s);
    AbsentByFirstPair("ended", s);
    AbsentByFirstPair("complete", s);
  }

  /** A plain final score is finished. */
  lemma FinalIsFinished()
    ensures NormalizeStatus("Final") == Finished
  {
    var s := ToLower("Final");
    assert s == "final";
    assert MatchesAt("final", s, 0);
    AbsentByFirstPair("live", s);
  }

  /** Matching is by substring, not by word: "Suspended" contains "ended",
      so a suspended match counts as finished. */
  lemma SuspendedIsFinished()
    ensures NormalizeStatus("Suspended") == Finished
  {
    var s := ToLower("Suspended");
    assert s == "suspended";
    assert MatchesAt("ended", s, 4);
    AbsentByFirstPair("live", s);
  }
}
