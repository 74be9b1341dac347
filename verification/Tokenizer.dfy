/** The words of a command line, as `Console::ArgIterator` of src/client/console.cpp takes them apart. */
module Tokenizer {
  /** `std::isspace` in the "C" locale. */
  predicate Space(c: char) {
    c == ' ' || '\t' <= c <= '\r'
  }

  /** Six characters part words. */
  lemma SpaceCharacters(c: char)
    ensures Space(c) <==> c as int in {9, 10, 11, 12, 13, 32}
  {
  }

  /** How many characters at the front of `s` are spaces, or are not. */
  function Leading(s: string, space: bool): (n: nat)
    ensures n <= |s|
  {
    if s == "" || Space(s[0]) != space then 0 else 1 + Leading(s[1..], space)
  }

  lemma {:induction false} LeadingStops(s: string, space: bool)
    ensures var n := Leading(s, space);
      (forall i | 0 <= i < n :: Space(s[i]) == space) && (n < |s| ==> Space(s[n]) != space)
  {
    if s != "" && Space(s[0]) == space {
      LeadingStops(s[1..], space);
    }
  }

  function Trimmed(s: string): (t: string)
    ensures |t| <= |s| && (t != "" ==> !Space(t[0]))
  {
    LeadingStops(s, true);
    s[Leading(s, true)..]
  }

  /** The words of a line, in order. */
  function Tokens(s: string): seq<string>
    decreases |s|
  {
    var t := Trimmed(s);
    if t == "" then []
    else
      var n := Leading(t, false);
      [t[..n]] + Tokens(t[n..])
  }

  lemma WordStarts(t: string)
    requires t != "" && !Space(t[0])
    ensures Leading(t, false) > 0
  {
  }

  /** The word at the front of a line. */
  lemma {:induction false} FirstToken(s: string)
    ensures var skipped := Leading(s, true);
      if skipped == |s| then Tokens(s) == []
      else
        var t := s[skipped..];
        var n := Leading(t, false);
        n > 0 && Tokens(s) == [t[..n]] + Tokens(t[n..])
  {
    hide Leading;
    if Trimmed(s) != "" {
      WordStarts(Trimmed(s));
    }
  }

  /** Whatever has these two properties is the number of leading characters. */
  lemma {:induction false} LeadingIs(s: string, space: bool, n: nat)
    requires n <= |s| && (forall i | 0 <= i < n :: Space(s[i]) == space) && (n < |s| ==> Space(s[n]) != space)
    ensures Leading(s, space) == n
  {
    if n > 0 {
      LeadingIs(s[1..], space, n - 1);
    }
  }

  // ---------------------------------------------------------------- what words are

  predicate Spaces(s: string) {
    forall c | c in s :: Space(c)
  }

  /** Not empty, and without a space. */
  predicate Word(s: string) {
    s != "" && forall c | c in s :: !Space(c)
  }

  /** A run of non-spaces that cannot be made longer. */
  predicate IsRun(s: string, from: nat, to: nat) {
    && from < to <= |s|
    && (forall i | from <= i < to :: !Space(s[i]))
    && (from > 0 ==> Space(s[from - 1]))
    && (to < |s| ==> Space(s[to]))
  }

  /** Where the words of a line stand that begin at `at` or behind it. */
  function Places(line: string, at: nat): seq<(nat, nat)>
    requires at <= |line|
    decreases |line| - at
  {
    var start := at + Leading(line[at..], true);
    if start == |line| then []
    else
      LeadingStops(line[at..], true);
      WordStarts(line[start..]);
      var end := start + Leading(line[start..], false);
      [(start, end)] + Places(line, end)
  }

  /** `places` are maximal runs of `line`, one after the other, from `at` on. */
  predicate Runs(line: string, at: nat, places: seq<(nat, nat)>) {
    && (forall k | 0 <= k < |places| :: at <= places[k].0 && IsRun(line, places[k].0, places[k].1))
    && (forall j, k | 0 <= j < k < |places| :: places[j].1 < places[k].0)
  }

  /** No run from `at` on is missing. */
  ghost predicate AllRuns(line: string, at: nat, places: seq<(nat, nat)>) {
    forall from: nat, to: nat | at <= from && IsRun(line, from, to) :: (from, to) in places
  }

  predicate StandAt(line: string, words: seq<string>, places: seq<(nat, nat)>) {
    && |words| == |places|
    && forall k | 0 <= k < |places| ::
         places[k].0 <= places[k].1 <= |line| && words[k] == line[places[k].0..places[k].1]
  }

  lemma RunFound(line: string, at: nat, start: nat, end: nat)
    requires at <= start < |line| && (forall i | at <= i < start :: Space(line[i])) && !Space(line[start])
    requires end == start + Leading(line[start..], false)
    requires 0 < at < |line| ==> Space(line[at])
    ensures IsRun(line, start, end)
  {
    var t := line[start..];
    LeadingStops(t, false);
    assert forall i | start <= i < |line| :: line[i] == t[i - start];
  }

  lemma Skipped(line: string, at: nat)
    requires at <= |line|
    ensures var start := at + Leading(line[at..], true);
      && start <= |line| && (forall i | at <= i < start :: Space(line[i])) && (start < |line| ==> !Space(line[start]))
  {
    var s := line[at..];
    LeadingStops(s, true);
    assert forall i | at <= i < |line| :: line[i] == s[i - at];
  }

  lemma Edges(line: string, from: nat, to: nat)
    requires IsRun(line, from, to)
    ensures from < to <= |line| && (from > 0 ==> Space(line[from - 1])) && (to < |line| ==> Space(line[to]))
  {
  }

  lemma Inside(line: string, from: nat, to: nat, i: nat)
    requires IsRun(line, from, to) && from <= i < to
    ensures i < |line| && !Space(line[i])
  {
  }

  lemma NotARun(line: string, at: nat, from: nat, to: nat)
    requires at <= from && forall i | at <= i < |line| :: Space(line[i])
    ensures !IsRun(line, from, to)
  {
    hide IsRun;
    if IsRun(line, from, to) {
      Edges(line, from, to);
      Inside(line, from, to, from);
    }
  }

  lemma NoRuns(line: string, at: nat)
    requires at <= |line| && forall i | at <= i < |line| :: Space(line[i])
    ensures StandAt(line, [], []) && Runs(line, at, []) && AllRuns(line, at, [])
  {
    hide IsRun;
    forall from: nat, to: nat | at <= from ensures !IsRun(line, from, to) {
      NotARun(line, at, from, to);
    }
  }

  lemma WordInFront(line: string, start: nat, end: nat, words: seq<string>, places: seq<(nat, nat)>)
    requires start <= end <= |line| && StandAt(line, words, places)
    ensures StandAt(line, [line[start..end]] + words, [(start, end)] + places)
  {
  }

  /** Two runs are not adjacent. */
  lemma Apart(line: string, start: nat, end: nat, from: nat, to: nat)
    requires IsRun(line, start, end) && IsRun(line, from, to) && end <= from
    ensures end < from
  {
  }

  lemma RunInFront(line: string, at: nat, start: nat, end: nat, places: seq<(nat, nat)>)
    requires IsRun(line, start, end) && at <= start && Runs(line, end, places)
    ensures Runs(line, at, [(start, end)] + places)
  {
    hide IsRun;
    Edges(line, start, end);
    forall k | 0 <= k < |places| ensures end < places[k].0 {
      Apart(line, start, end, places[k].0, places[k].1);
    }
  }

  lemma RunIsFirst(line: string, start: nat, end: nat, from: nat, to: nat, at: nat)
    requires IsRun(line, start, end) && IsRun(line, from, to) && at <= from
    requires forall i | at <= i < start :: Space(line[i])
    ensures (from == start && to == end) || end <= from
  {
    hide IsRun;
    Edges(line, start, end);
    Edges(line, from, to);
    Inside(line, from, to, from);
    if start < from < end {
      Inside(line, start, end, from - 1);
    } else if from == start && to < end {
      Inside(line, start, end, to);
    } else if from == start && end < to {
      Inside(line, from, to, end);
    }
  }

  lemma AllInFront(line: string, at: nat, start: nat, end: nat, places: seq<(nat, nat)>)
    requires IsRun(line, start, end) && at <= start && (forall i | at <= i < start :: Space(line[i]))
    requires AllRuns(line, end, places)
    ensures AllRuns(line, at, [(start, end)] + places)
  {
    hide IsRun;
    forall from: nat, to: nat | at <= from && IsRun(line, from, to) ensures (from, to) in [(start, end)] + places {
      RunIsFirst(line, start, end, from, to, at);
    }
  }

  lemma {:induction false} RunsFrom(line: string, at: nat)
    requires at <= |line| && (0 < at < |line| ==> Space(line[at]))
    ensures var places := Places(line, at);
      StandAt(line, Tokens(line[at..]), places) && Runs(line, at, places) && AllRuns(line, at, places)
    decreases |line| - at
  {
    hide StandAt, Runs, AllRuns, IsRun, Leading, Space, Tokens;
    var s := line[at..];
    var start := at + Leading(s, true);
    Skipped(line, at);
    FirstToken(s);
    if start == |line| {
      NoRuns(line, at);
    } else {
      var t := line[start..];
      assert s[start - at..] == t;
      var end := start + Leading(t, false);
      assert t[end - start..] == line[end..] && t[..end - start] == line[start..end];
      RunFound(line, at, start, end);
      Edges(line, start, end);
      RunsFrom(line, end);
      RunInFront(line, at, start, end, Places(line, end));
      AllInFront(line, at, start, end, Places(line, end));
      WordInFront(line, start, end, Tokens(line[end..]), Places(line, end));
    }
  }

  /** The words of a line are exactly its maximal runs of non-spaces, in the order in which they stand. */
  lemma TokensAreRuns(line: string)
    ensures var places, tokens := Places(line, 0), Tokens(line);
      && |tokens| == |places|
      && (forall k | 0 <= k < |places| ::
            places[k].0 < places[k].1 <= |line| && tokens[k] == line[places[k].0..places[k].1])
      && (forall j, k | 0 <= j < k < |places| :: places[j].1 < places[k].0)
      && (forall from: nat, to: nat :: (from, to) in places <==>
            && from < to <= |line|
            && (forall i | from <= i < to :: !Space(line[i]))
            && (from > 0 ==> Space(line[from - 1]))
            && (to < |line| ==> Space(line[to])))
  {
    RunsFrom(line, 0);
    assert line[0..] == line;
  }

  // ---------------------------------------------------------------- lines made of words

  /** The words with the gaps before, between and behind them. */
  function Spread(words: seq<string>, gaps: seq<string>): string
    requires |gaps| == |words| + 1
  {
    gaps[0] + (if words == [] then "" else words[0] + Spread(words[1..], gaps[1..]))
  }

  lemma WordFirst(gap: string, w: string, rest: string)
    requires Spaces(gap) && Word(w) && (rest != "" ==> Space(rest[0]))
    ensures Tokens(gap + (w + rest)) == [w] + Tokens(rest)
  {
    var t := w + rest;
    var s := gap + t;
    LeadingIs(s, true, |gap|);
    assert s[|gap|..] == t;
    LeadingIs(t, false, |w|);
    assert t[..|w|] == w && t[|w|..] == rest;
  }

  lemma {:induction false} SpreadWords(words: seq<string>, gaps: seq<string>)
    requires |gaps| == |words| + 1
    requires (forall w | w in words :: Word(w)) && (forall g | g in gaps :: Spaces(g))
    requires forall i | 0 < i < |words| :: gaps[i] != ""
    ensures Tokens(Spread(words, gaps)) == words
    decreases |words|
  {
    hide Word;
    var s := Spread(words, gaps);
    assert gaps[0] in gaps;
    if words == [] {
      LeadingIs(s, true, |s|);
    } else {
      hide Tokens, Leading;
      var w, rest := words[0], Spread(words[1..], gaps[1..]);
      SpreadWords(words[1..], gaps[1..]);
      assert w in words && gaps[1] in gaps;
      assert rest != "" ==> Space(rest[0]) by {
        if |words| > 1 {
          assert rest[0] == gaps[1][0];
        } else {
          assert rest == gaps[1] + "";
        }
      }
      WordFirst(gaps[0], w, rest);
      assert s == gaps[0] + (w + rest);
    }
  }

  /** Words set apart by any white space come back from the line, whatever stands before and behind them. */
  lemma SpreadTokens(words: seq<string>, gaps: seq<string>)
    requires |gaps| == |words| + 1
    requires forall w | w in words :: w != "" && forall c | c in w :: !Space(c)
    requires forall g | g in gaps :: forall c | c in g :: Space(c)
    requires forall i | 0 < i < |words| :: gaps[i] != ""
    ensures Tokens(Spread(words, gaps)) == words
  {
    hide Space, Tokens, Spread;
    SpreadWords(words, gaps);
  }
}
