/** The two string operations the status classifier relies on: lower-casing
    and substring search. Case mapping covers ASCII letters only. */
module AsciiText {

  function LowerChar(c: char): char {
    if 'A' <= c <= 'Z' then (c as int + 32) as char else c
  }

  function UpperChar(c: char): char {
    if 'a' <= c <= 'z' then (c as int - 32) as char else c
  }

  /** `s.toLowerCase()` restricted to ASCII. */
  function ToLower(s: string): (r: string)
    ensures |r| == |s|
    ensures forall i :: 0 <= i < |s| ==> r[i] == LowerChar(s[i])
  {
    seq(|s|, i requires 0 <= i < |s| => LowerChar(s[i]))
  }

  /** `s.toUpperCase()` restricted to ASCII. */
  function ToUpper(s: string): (r: string)
    ensures |r| == |s|
    ensures forall i :: 0 <= i < |s| ==> r[i] == UpperChar(s[i])
  {
    seq(|s|, i requires 0 <= i < |s| => UpperChar(s[i]))
  }

  /** `p` sits in `s` starting at position `i`. */
  ghost predicate MatchesAt(p: string, s: string, i: int) {
    0 <= i <= |s| - |p| && s[i..i + |p|] == p
  }

  /** Declarative reading of "`p` is a substring of `s`". */
  ghost predicate OccursIn(p: string, s: string) {
    exists i :: MatchesAt(p, s, i)
  }

  /** `s.includes(p)`: tries every start position from the left. */
  function Contains(s: string, p: string): bool
    decreases |s|
  {
    if |p| > |s| then false
    else if s[..|p|] == p then true
    else Contains(s[1..], p)
  }

  /** The left-to-right search finds `p` exactly when `p` occurs somewhere in `s`. */
  lemma {:induction false} ContainsIsOccurrence(s: string, p: string)
    ensures Contains(s, p) <==> OccursIn(p, s)
    decreases |s|
  {
    if |p| > |s| {
    } else if s[..|p|] == p {
      assert MatchesAt(p, s, 0);
    } else {
      ContainsIsOccurrence(s[1..], p);
      if OccursIn(p, s) {
        var i :| MatchesAt(p, s, i);
        assert i != 0;
        assert s[1..][i - 1..i - 1 + |p|] == s[i..i + |p|];
        assert MatchesAt(p, s[1..], i - 1);
      }
      if OccursIn(p, s[1..]) {
        var i :| MatchesAt(p, s[1..], i);
        assert s[i + 1..i + 1 + |p|] == s[1..][i..i + |p|];
        assert MatchesAt(p, s, i + 1);
      }
    }
  }

  /** A word whose first two letters appear side by side at no position where
      the word would fit does not occur in `s`. */
  lemma AbsentByFirstPair(w: string, s: string)
    requires |w| >= 2
    requires forall i :: 0 <= i <= |s| - |w| ==> !(s[i] == w[0] && s[i + 1] == w[1])
    ensures !OccursIn(w, s)
  {
    forall i ensures !MatchesAt(w, s, i) {
      if 0 <= i <= |s| - |w| {
        assert s[i..i + |w|][0] == s[i] && s[i..i + |w|][1] == s[i + 1];
      }
    }
  }

  /** Lower-casing erases every difference of case: upper-casing first changes nothing. */
  lemma LowerIgnoresCase(s: string)
    ensures ToLower(ToUpper(s)) == ToLower(s)
    ensures ToLower(ToLower(s)) == ToLower(s)
  {
  }
}
