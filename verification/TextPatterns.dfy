/** The two patterns of the plain-text chunker, matched from left to right as the host does: each match begins at the
    first place it can, behind the one before, and takes all it can. */
module TextPatterns {
  import opened JsText

  datatype Match = Match(start: nat, end: nat)

  /** Matches of one global pattern: not empty, in order, apart. */
  predicate AreMatches(matches: seq<Match>, n: nat) {
    && (forall k | 0 <= k < |matches| :: matches[k].start < matches[k].end <= n)
    && (forall j, k | 0 <= j < k < |matches| :: matches[j].end <= matches[k].start)
  }

  /** The matches from `from` on. */
  predicate AreMatchesFrom(matches: seq<Match>, from: nat, n: nat) {
    AreMatches(matches, n) && forall k | 0 <= k < |matches| :: from <= matches[k].start
  }

  lemma MatchesGrow(first: Match, rest: seq<Match>, from: nat, n: nat)
    requires from <= first.start < first.end <= n && AreMatchesFrom(rest, first.end, n)
    ensures AreMatchesFrom([first] + rest, from, n)
  {}

  // ----- paragraph breaks: a newline, white space, a newline -----

  /** A newline at either end of the stretch, and nothing but white space in it. */
  predicate IsBreak(text: string, start: nat, end: nat) {
    && start + 1 < end <= |text|
    && text[start] == '\n' && text[end-1] == '\n'
    && IsBlank(text[start..end])
  }

  /** That is: a newline, any white space or none, a newline. */
  lemma BreakIs(text: string, start: nat, end: nat)
    ensures IsBreak(text, start, end) <==>
              start <= end <= |text| && exists blank :: IsBlank(blank) && text[start..end] == "\n" + blank + "\n"
  {
    if IsBreak(text, start, end) {
      var blank := text[start+1..end-1];
      assert text[start..end] == "\n" + blank + "\n";
      forall k | 0 <= k < |blank| ensures IsSpace(blank[k]) { assert blank[k] == text[start..end][k+1]; }
    }
    if start <= end <= |text| {
      if blank :| IsBlank(blank) && text[start..end] == "\n" + blank + "\n" {
        assert IsSpace('\n');
        hide IsSpace;
        var all := "\n" + blank + "\n";
        assert text[start] == all[0] && text[end-1] == all[|all|-1];
        forall k | 0 <= k < |all| ensures IsSpace(all[k]) {
          if 0 < k < |all| - 1 { assert all[k] == blank[k-1]; }
        }
      }
    }
  }

  /** The end of the longest break at `start` that ends at `end` or before, if there is one. */
  function BreakEnd(text: string, start: nat, end: nat): (r: Option<nat>)
    requires start < end <= |text|
    ensures r.Some? ==> start < r.value <= end && IsBreak(text, start, r.value)
    ensures forall e: nat | e <= end && IsBreak(text, start, e) :: r.Some? && e <= r.value
  {
    if IsBreak(text, start, end) then Some(end)
    else if end - 1 > start then BreakEnd(text, start, end - 1)
    else None
  }

  function BreaksFrom(text: string, from: nat): (r: seq<Match>)
    requires from <= |text|
    ensures AreMatchesFrom(r, from, |text|)
    ensures forall m | m in r :: IsBreak(text, m.start, m.end)
    decreases |text| - from
  {
    if from == |text| then []
    else
      var end := BreakEnd(text, from, |text|);
      if end.None? then BreaksFrom(text, from + 1)
      else
        var rest := BreaksFrom(text, end.value);
        MatchesGrow(Match(from, end.value), rest, from, |text|);
        [Match(from, end.value)] + rest
  }

  function Breaks(text: string): (r: seq<Match>)
    ensures AreMatches(r, |text|)
  {
    BreaksFrom(text, 0)
  }

  lemma OverlappingBreaks(text: string, i: nat, e: nat, start: nat, end: nat)
    requires IsBreak(text, i, e) && IsBreak(text, start, end) && i <= start < e
    ensures IsBreak(text, i, if end > e then end else e)
  {
    forall k | i <= k < (if end > e then end else e) ensures IsSpace(text[k]) {
      if k < e {
        assert text[i..e][k - i] == text[k];
      } else {
        assert text[start..end][k - start] == text[k];
      }
    }
  }

  lemma {:induction false} HoldAllBreaksFrom(text: string, from: nat, start: nat, end: nat) returns (m: Match)
    requires from <= start && IsBreak(text, start, end)
    ensures m in BreaksFrom(text, from) && m.start <= start && end <= m.end
    decreases |text| - from
  {
    hide IsBreak;
    BreakIsInText(text, start, end);
    var longest := BreakEnd(text, from, |text|);
    if longest.None? {
      m := HoldAllBreaksFrom(text, from + 1, start, end);
    } else if start >= longest.value {
      m := HoldAllBreaksFrom(text, longest.value, start, end);
    } else {
      OverlappingBreaks(text, from, longest.value, start, end);
      m := Match(from, longest.value);
    }
  }

  lemma BreakIsInText(text: string, start: nat, end: nat)
    requires IsBreak(text, start, end)
    ensures start < end <= |text|
  {}

  /** The breaks are matches, apart from one another, and leave no break in what is between them. */
  lemma BreaksAreAll(text: string)
    ensures forall m | m in Breaks(text) :: IsBreak(text, m.start, m.end)
    ensures forall start: nat, end: nat | IsBreak(text, start, end) ::
              exists m :: m in Breaks(text) && m.start <= start && end <= m.end
  {
    hide IsBreak, BreaksFrom;
    forall start: nat, end: nat | IsBreak(text, start, end)
      ensures exists m :: m in Breaks(text) && m.start <= start && end <= m.end
    {
      var m := HoldAllBreaksFrom(text, 0, start, end);
    }
  }

  // ----- sentence ends: a stop, a closing quote if there is one, white space -----

  predicate IsStop(c: char) {
    c == '\U{3002}' || c == '\U{FF01}' || c == '\U{FF1F}' || c == '.' || c == '!' || c == '?'
  }

  predicate IsClosing(c: char) {
    c == '"' || c == '\'' || c == ')' || c == '\U{300D}' || c == '\U{300F}'
  }

  /** The stops and closing quotes of the pattern, by their codes. */
  lemma StopCharactersAre(c: char)
    ensures IsStop(c) <==> c as int in {0x21, 0x2E, 0x3F, 0x3002, 0xFF01, 0xFF1F}
    ensures IsClosing(c) <==> c as int in {0x22, 0x27, 0x29, 0x300D, 0x300F}
  {}

  function SkipSpace(text: string, from: nat): (r: nat)
    requires from <= |text|
    ensures from <= r <= |text| && IsBlank(text[from..r]) && (r < |text| ==> !IsSpace(text[r]))
    decreases |text| - from
  {
    if from < |text| && IsSpace(text[from]) then
      var r := SkipSpace(text, from + 1);
      assert text[from..r] == [text[from]] + text[from+1..r];
      r
    else from
  }

  /** Where the match that begins with the stop at `i` ends. */
  function StopEnd(text: string, i: nat): (r: nat)
    requires i < |text|
    ensures i < r <= |text|
    ensures forall k | i < k < r :: IsSpace(text[k]) || (k == i + 1 && IsClosing(text[k]))
    ensures r < |text| ==> !IsSpace(text[r]) && (r == i + 1 ==> !IsClosing(text[r]))
  {
    var from := if i + 1 < |text| && IsClosing(text[i+1]) then i + 2 else i + 1;
    var r := SkipSpace(text, from);
    assert forall k | from <= k < r :: text[k] == text[from..r][k - from];
    r
  }

  function SentenceEndsFrom(text: string, from: nat): (r: seq<Match>)
    requires from <= |text|
    ensures AreMatchesFrom(r, from, |text|)
    ensures forall m | m in r :: IsStop(text[m.start]) && m.end == StopEnd(text, m.start)
    decreases |text| - from
  {
    if from == |text| then []
    else if !IsStop(text[from]) then SentenceEndsFrom(text, from + 1)
    else
      var rest := SentenceEndsFrom(text, StopEnd(text, from));
      MatchesGrow(Match(from, StopEnd(text, from)), rest, from, |text|);
      [Match(from, StopEnd(text, from))] + rest
  }

  function SentenceEnds(text: string): (r: seq<Match>)
    ensures AreMatches(r, |text|)
  {
    SentenceEndsFrom(text, 0)
  }

  lemma StopsApart(text: string, i: nat, k: nat)
    requires i < k < |text| && IsStop(text[i]) && IsStop(text[k])
    ensures StopEnd(text, i) <= k
  {}

  lemma {:induction false} HoldAllStopsFrom(text: string, from: nat, i: nat)
    requires from <= i < |text| && IsStop(text[i])
    ensures Match(i, StopEnd(text, i)) in SentenceEndsFrom(text, from)
    decreases |text| - from
  {
    hide IsStop, StopEnd;
    if !IsStop(text[from]) {
      HoldAllStopsFrom(text, from + 1, i);
    } else if from < i {
      StopsApart(text, from, i);
      HoldAllStopsFrom(text, StopEnd(text, from), i);
    }
  }

  /** Every stop ends a sentence, with its closing quote and white space, and nothing else does. */
  lemma EveryStopEnds(text: string)
    ensures forall m: Match :: m in SentenceEnds(text) <==>
              m.start < |text| && IsStop(text[m.start]) && m.end == StopEnd(text, m.start)
  {
    hide IsStop, StopEnd, SentenceEndsFrom;
    forall m: Match | m.start < |text| && IsStop(text[m.start]) && m.end == StopEnd(text, m.start)
      ensures m in SentenceEnds(text)
    {
      HoldAllStopsFrom(text, 0, m.start);
    }
  }
}
