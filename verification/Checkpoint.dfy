/** Checkpoint envelopes: seven named sections of content lines, printed between two tags and read back. */
module Checkpoint {
  import opened JsText

  const CHECKPOINT_SECTIONS: seq<string> := ["intent", "concepts", "files", "errors", "pending", "work", "next"]
  const CHECKPOINT_OPEN_TAG := "<compacted-summary>"
  const CHECKPOINT_CLOSE_TAG := "</compacted-summary>"

  function SectionName(i: nat): (r: string)
    requires i < 7
  {
    CHECKPOINT_SECTIONS[i]
  }

  /** The content lines of the seven sections, in render order. */
  type Sections = s: seq<seq<string>> | |s| == 7 witness [[], [], [], [], [], [], []]

  // ----- escaping -----

  predicate IsStructuralLine(line: string) {
    || (|line| >= 3 && line[..2] == "##" && IsSpace(line[2]))
    || line == CHECKPOINT_OPEN_TAG || line == CHECKPOINT_CLOSE_TAG
  }

  predicate StartsEscaped(line: string) {
    line != "" && line[0] == '\\'
  }

  function EscapeContentLine(line: string): string {
    if IsStructuralLine(line) || StartsEscaped(line) then "\\" + line else line
  }

  function Tail(line: string): string {
    if line == "" then "" else line[1..]
  }

  function UnescapeContentLine(line: string): string {
    if IsStructuralLine(Tail(line)) || StartsEscaped(Tail(line)) then Tail(line) else line
  }

  // ----- printing -----

  function Escaped(lines: seq<string>): (r: seq<string>)
    ensures |r| == |lines| && forall k | 0 <= k < |r| :: r[k] == EscapeContentLine(lines[k])
  {
    seq(|lines|, i requires 0 <= i < |lines| => EscapeContentLine(lines[i]))
  }

  function RenderSection(name: string, lines: seq<string>): string {
    "## " + name + "\n" + Join(Escaped(lines), "\n")
  }

  function RenderedSections(sections: Sections): (r: seq<string>)
    ensures |r| == 7
  {
    seq(7, i requires 0 <= i < 7 => RenderSection(SectionName(i), sections[i]))
  }

  function RenderCheckpoint(sections: Sections): string {
    CHECKPOINT_OPEN_TAG + "\n" + Join(RenderedSections(sections), "\n\n") + "\n" + CHECKPOINT_CLOSE_TAG
  }

  // ----- the head pattern: line start, "## ", a word, white space up to a line end -----

  predicate IsWord(c: char) {
    'a' <= c <= 'z' || 'A' <= c <= 'Z' || '0' <= c <= '9' || c == '_'
  }

  predicate AtLineStart(s: string, p: nat)
    requires p <= |s|
  {
    p == 0 || IsLineTerminator(s[p-1])
  }

  predicate AtLineEnd(s: string, p: nat)
    requires p <= |s|
  {
    p == |s| || IsLineTerminator(s[p])
  }

  function WordEnd(s: string, from: nat): (r: nat)
    requires from <= |s|
    ensures from <= r <= |s| && (forall k | from <= k < r :: IsWord(s[k])) && (r < |s| ==> !IsWord(s[r]))
    decreases |s| - from
  {
    if from < |s| && IsWord(s[from]) then WordEnd(s, from + 1) else from
  }

  function SpaceEnd(s: string, from: nat): (r: nat)
    requires from <= |s|
    ensures from <= r <= |s| && (forall k | from <= k < r :: IsSpace(s[k])) && (r < |s| ==> !IsSpace(s[r]))
    decreases |s| - from
  {
    if from < |s| && IsSpace(s[from]) then SpaceEnd(s, from + 1) else from
  }

  /** The greedy white space run gives characters back until a line end is reached. */
  function LastLineEnd(s: string, from: nat, last: nat): (r: Option<nat>)
    requires from <= last <= |s|
    ensures r.Some? ==> from <= r.value <= last && AtLineEnd(s, r.value)
    ensures r.None? <==> (forall k | from <= k <= last :: !AtLineEnd(s, k))
    decreases last
  {
    if AtLineEnd(s, last) then Some(last) else if from == last then None else LastLineEnd(s, from, last - 1)
  }

  datatype Head = Head(start: nat, name: string, end: nat)

  function HeadAt(s: string, p: nat): (r: Option<Head>)
    requires p <= |s|
    ensures r.Some? ==> r.value.start == p && p + 3 < r.value.end <= |s|
  {
    if !AtLineStart(s, p) || !MatchesAt(s, "## ", p) then None
    else
      var w := WordEnd(s, p + 3);
      if w == p + 3 then None
      else match LastLineEnd(s, w, SpaceEnd(s, w))
        case None => None
        case Some(end) => Some(Head(p, s[p+3..w], end))
  }

  /** All matches from `from` on, left to right, none overlapping. */
  function MatchAll(s: string, from: nat): (r: seq<Head>)
    requires from <= |s|
    ensures forall i | 0 <= i < |r| :: from <= r[i].start <= r[i].end <= |s|
    ensures forall i, j | 0 <= i < j < |r| :: r[i].end <= r[j].start
    decreases |s| - from
  {
    match HeadAt(s, from)
    case Some(head) => [head] + MatchAll(s, head.end)
    case None => if from == |s| then [] else MatchAll(s, from + 1)
  }

  // ----- reading -----

  /** The trimmed, unescaped line, or nothing when that leaves a blank. */
  function CleanedLine(raw: string): (r: seq<string>)
    ensures |r| <= 1
  {
    var line := UnescapeContentLine(Trim(raw));
    if line == "" then [] else [line]
  }

  function Cleaned(lines: seq<string>): seq<string> {
    if lines == [] then [] else CleanedLine(lines[0]) + Cleaned(lines[1..])
  }

  /** The text between one head and the next. */
  function SectionText(body: string, heads: seq<Head>, i: nat): string
    requires i < |heads|
  {
    Slice(body, heads[i].end, if i + 1 < |heads| then heads[i+1].start else |body|)
  }

  function SectionsOf(body: string, heads: seq<Head>): (r: seq<seq<string>>)
    ensures |r| == |heads|
  {
    seq(|heads|, i requires 0 <= i < |heads| => Cleaned(Split(SectionText(body, heads, i), '\n')))
  }

  predicate AreTheSections(heads: seq<Head>) {
    |heads| == 7 && forall i | 0 <= i < 7 :: heads[i].name == SectionName(i)
  }

  function ParseBody(body: string): Option<Sections> {
    var heads := MatchAll(body, 0);
    if AreTheSections(heads) then Some(SectionsOf(body, heads)) else None
  }

  /** What reading an envelope gives; None when it is malformed. */
  function Parsed(text: string): Option<Sections> {
    var open, close := IndexOf(text, CHECKPOINT_OPEN_TAG), IndexOf(text, CHECKPOINT_CLOSE_TAG);
    if open.None? || close.None? || close.value <= open.value then None
    else ParseBody(Slice(text, open.value + |CHECKPOINT_OPEN_TAG|, close.value))
  }

  method ReadSections(body: string, heads: seq<Head>) returns (sections: seq<seq<string>>, ok: bool)
    requires |heads| == 7
    ensures ok <==> AreTheSections(heads)
    ensures ok ==> sections == SectionsOf(body, heads)
  {
    hide SectionName, Cleaned, Split, SectionText;
    sections := [];
    for i := 0 to 7
      invariant forall k | 0 <= k < i :: heads[k].name == SectionName(k)
      invariant |sections| == i
      invariant forall k | 0 <= k < i :: sections[k] == SectionsOf(body, heads)[k]
    {
      if heads[i].name != SectionName(i) { return sections, false; }
      sections := sections + [Cleaned(Split(SectionText(body, heads, i), '\n'))];
    }
    ok := true;
  }

  method ParseSections(body: string) returns (r: Option<Sections>)
    ensures r == ParseBody(body)
  {
    var heads := MatchAll(body, 0);
    if |heads| != 7 { return None; }
    var sections, ok := ReadSections(body, heads);
    r := if ok then Some(sections) else None;
  }

  method ParseCheckpoint(text: string) returns (r: Option<Sections>)
    ensures r == Parsed(text)
  {
    var open, close := IndexOf(text, CHECKPOINT_OPEN_TAG), IndexOf(text, CHECKPOINT_CLOSE_TAG);
    if open.None? || close.None? || close.value <= open.value { return None; }
    r := ParseSections(Slice(text, open.value + |CHECKPOINT_OPEN_TAG|, close.value));
  }

  // ----- what counts as structure -----

  /** Two hashes with white space behind them, whatever follows, and the two tags; no shorter line. */
  lemma StructureIs(c: char, rest: string, line: string)
    ensures IsStructuralLine("##" + [c] + rest) <==> IsSpace(c)
    ensures IsStructuralLine("<compacted-summary>") && IsStructuralLine("</compacted-summary>")
    ensures |line| < 3 || line[..2] != "##" ==>
        (IsStructuralLine(line) <==> line == "<compacted-summary>" || line == "</compacted-summary>")
  {
    hide IsSpace;
    var text := "##" + [c] + rest;
    assert text[0] == '#' && text[..2] == "##" && text[2] == c;
  }

  /** A word of the head pattern: letters, digits and the underscore, by their code. */
  lemma WordCharactersAre(c: char)
    ensures IsWord(c) <==> 48 <= c as int <= 57 || 65 <= c as int <= 90 || c as int == 95 || 97 <= c as int <= 122
  {}

  /** An envelope is read exactly if its tags enclose seven heads with these names in this order. */
  lemma ReadableExactly(text: string)
    ensures Parsed(text).Some? <==>
              var open, close := IndexOf(text, "<compacted-summary>"), IndexOf(text, "</compacted-summary>");
              && open.Some? && close.Some? && open.value < close.value
              && var heads := MatchAll(Slice(text, open.value + 19, close.value), 0);
              && |heads| == 7 && heads[0].name == "intent" && heads[1].name == "concepts" && heads[2].name == "files"
              && heads[3].name == "errors" && heads[4].name == "pending" && heads[5].name == "work"
              && heads[6].name == "next"
  {
    hide MatchAll, IndexOf, Cleaned, Split, Slice, SectionText;
    var open, close := IndexOf(text, "<compacted-summary>"), IndexOf(text, "</compacted-summary>");
    if open.Some? && close.Some? && open.value < close.value {
      NamesAre(MatchAll(Slice(text, open.value + 19, close.value), 0));
    }
    hide AreTheSections;
  }

  lemma NamesAre(heads: seq<Head>)
    ensures AreTheSections(heads) <==>
              && |heads| == 7 && heads[0].name == "intent" && heads[1].name == "concepts" && heads[2].name == "files"
              && heads[3].name == "errors" && heads[4].name == "pending" && heads[5].name == "work"
              && heads[6].name == "next"
  {
    if |heads| == 7 {
      assert SectionName(0) == "intent" && SectionName(1) == "concepts" && SectionName(2) == "files";
      assert SectionName(3) == "errors" && SectionName(4) == "pending" && SectionName(5) == "work";
      assert SectionName(6) == "next";
    }
    hide SectionName;
  }
}
