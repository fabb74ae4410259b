/** Which checkpoints read back as they were written: an exact, line by line condition. */
module CheckpointRoundTrip {
  import opened JsText
  import opened Checkpoint

  /** No position of the line reads as a section head. */
  ghost predicate HeadFree(line: string) {
    forall p | 0 <= p <= |line| :: HeadAt(line, p).None?
  }

  /** A line that occupies exactly one trimmed, visible line of the envelope. */
  predicate IsPlain(line: string) {
    line != "" && IsTrimmed(line) && '\n' !in line && !Contains(line, CHECKPOINT_CLOSE_TAG)
  }

  /** Escaping is undone exactly by unescaping. */
  predicate EscapeIsUndone(line: string) {
    || IsStructuralLine(line) || StartsEscaped(line)
    || (!IsStructuralLine(Tail(line)) && !StartsEscaped(Tail(line)))
  }

  /** The exact condition on one content line. */
  ghost predicate Survives(line: string) {
    IsPlain(line) && HeadFree(EscapeContentLine(line)) && EscapeIsUndone(line)
  }

  lemma EscapeIsUndoneExactly(line: string)
    ensures UnescapeContentLine(EscapeContentLine(line)) == line <==> EscapeIsUndone(line)
  {
    assert Tail("\\" + line) == line;
    assert Tail(line) == line <==> line == "";
  }

  // ----- heads are found line by line -----

  /** `line` stands in the text at `from`, after a line end and before a newline. */
  ghost predicate LineIn(text: string, from: nat, line: string) {
    && from + |line| < |text|
    && text[from..from+|line|] == line
    && text[from+|line|] == '\n'
    && AtLineStart(text, from)
  }

  lemma WordEndIs(s: string, from: nat, w: nat)
    requires from <= w <= |s| && (forall k | from <= k < w :: IsWord(s[k])) && (w < |s| ==> !IsWord(s[w]))
    ensures WordEnd(s, from) == w
  {
    var r := WordEnd(s, from);
    assert r < |s| ==> !IsWord(s[r]);
    assert w < |s| ==> !IsWord(s[w]);
  }

  lemma SpaceEndIs(s: string, from: nat, e: nat)
    requires from <= e <= |s| && (forall k | from <= k < e :: IsSpace(s[k])) && (e < |s| ==> !IsSpace(s[e]))
    ensures SpaceEnd(s, from) == e
  {
    var r := SpaceEnd(s, from);
    assert r < |s| ==> !IsSpace(s[r]);
    assert e < |s| ==> !IsSpace(s[e]);
  }

  lemma LineChars(text: string, from: nat, line: string)
    requires LineIn(text, from, line)
    ensures forall k | 0 <= k < |line| :: text[from+k] == line[k]
  {
    forall k | 0 <= k < |line| ensures text[from+k] == line[k] {
      assert text[from..from+|line|][k] == text[from+k];
    }
  }

  /** Whether the white space after a word reaches a line end is settled inside the line. */
  lemma LineEndIsLocal(text: string, from: nat, line: string, w: nat)
    requires LineIn(text, from, line) && w <= |line|
    ensures LastLineEnd(text, from + w, SpaceEnd(text, from + w)).Some?
        <==> LastLineEnd(line, w, SpaceEnd(line, w)).Some?
  {
    LineChars(text, from, line);
    var e := SpaceEnd(line, w);
    forall k | from + w <= k < from + e ensures IsSpace(text[k]) {
      assert text[k] == line[k - from];
    }
    if e < |line| {
      assert text[from + e] == line[e];
      SpaceEndIs(text, from + w, from + e);
      forall k | w <= k <= e ensures AtLineEnd(text, from + k) == AtLineEnd(line, k) {
        assert text[from + k] == line[k];
      }
      assert forall k | from + w <= k <= from + e :: AtLineEnd(text, k) == AtLineEnd(line, k - from);
    } else {
      assert AtLineEnd(line, e);
      var e' := SpaceEnd(text, from + w);
      assert e' < |text| ==> !IsSpace(text[e']);
      assert AtLineEnd(text, from + |line|);
    }
  }

  /** So is whether a head may start here. */
  lemma HeadStartIsLocal(text: string, from: nat, line: string, o: nat)
    requires LineIn(text, from, line) && o <= |line|
    ensures AtLineStart(text, from + o) == AtLineStart(line, o)
    ensures MatchesAt(text, "## ", from + o) == MatchesAt(line, "## ", o)
  {
    LineChars(text, from, line);
    if o + 3 <= |line| {
      assert text[from+o..from+o+3] == line[o..o+3];
    } else if from + o + 3 <= |text| {
      assert text[from+o..from+o+3][|line|-o] == '\n';
    }
  }

  lemma HeadIsLocal(text: string, from: nat, line: string, o: nat)
    requires LineIn(text, from, line) && o <= |line|
    ensures HeadAt(text, from + o).Some? <==> HeadAt(line, o).Some?
  {
    HeadStartIsLocal(text, from, line, o);
    if MatchesAt(line, "## ", o) {
      LineChars(text, from, line);
      var w := WordEnd(line, o + 3);
      WordEndIs(text, from + o + 3, from + w);
      LineEndIsLocal(text, from, line, w);
    }
  }

  // ----- heads never swallow one another -----

  /** A head is a word after "## ", then white space only. */
  lemma HeadShape(s: string, p: nat) returns (w: nat)
    requires p <= |s| && HeadAt(s, p).Some?
    ensures s[p] == '#' && AtLineStart(s, p)
    ensures p < w <= HeadAt(s, p).value.end
    ensures forall k | p <= k < w :: !IsLineTerminator(s[k])
    ensures forall k | w <= k < HeadAt(s, p).value.end :: IsSpace(s[k])
  {
    w := WordEnd(s, p + 3);
    assert s[p] == s[p..p+3][0] && s[p+1] == s[p..p+3][1] && s[p+2] == s[p..p+3][2];
  }

  lemma HeadsDoNotOverlap(s: string, p: nat, q: nat)
    requires p < q <= |s| && HeadAt(s, p).Some? && HeadAt(s, q).Some?
    ensures HeadAt(s, p).value.end <= q
  {
    var w := HeadShape(s, p);
    var v := HeadShape(s, q);
    hide HeadAt;
    assert IsLineTerminator(s[q-1]) && !IsSpace(s[q]);
  }

  /** The matches from `i` end with the matches from any later head, and any head in between adds one. */
  lemma {:induction false} MatchAllReaches(s: string, i: nat, q: nat)
    requires i <= q <= |s| && (q == |s| || HeadAt(s, q).Some?)
    ensures (forall p | i <= p < q :: HeadAt(s, p).None?) ==> MatchAll(s, i) == MatchAll(s, q)
    ensures |MatchAll(s, i)| >= |MatchAll(s, q)|
    ensures (exists p :: i <= p < q && HeadAt(s, p).Some?) ==> |MatchAll(s, i)| > |MatchAll(s, q)|
    decreases q - i
  {
    hide HeadAt;
    if i < q {
      match HeadAt(s, i)
      case Some(head) =>
        if q < |s| { HeadsDoNotOverlap(s, i, q); }
        MatchAllReaches(s, head.end, q);
      case None =>
        MatchAllReaches(s, i + 1, q);
    }
  }

  // ----- cleaning a section -----

  lemma CleanedOfBlank(rest: seq<string>)
    ensures Cleaned([""] + rest) == Cleaned(rest)
  {
    assert CleanedLine("") == [];
    hide CleanedLine;
    assert ([""] + rest)[1..] == rest;
  }

  lemma CleanedDependsOnTrim(x: string, y: string, rest: seq<string>)
    requires Trim(x) == Trim(y)
    ensures Cleaned([x] + rest) == Cleaned([y] + rest)
  {
    assert CleanedLine(x) == CleanedLine(y);
    hide CleanedLine;
    assert ([x] + rest)[1..] == ([y] + rest)[1..] == rest;
  }

  lemma CleanedIgnoresLeadingSpace(c: char, s: string)
    requires IsSpace(c)
    ensures Cleaned(Split([c] + s, '\n')) == Cleaned(Split(s, '\n'))
  {
    hide CleanedLine, Cleaned;
    var rest := Split(s, '\n');
    assert ([c] + s)[1..] == s;
    if c == '\n' {
      CleanedOfBlank(rest);
    } else {
      TrimIgnoresLeadingSpace(c, rest[0]);
      CleanedDependsOnTrim([c] + rest[0], rest[0], rest[1..]);
      assert rest == [rest[0]] + rest[1..];
    }
  }

  lemma {:induction false} CleanedIgnoresSpacePrefix(gap: string, s: string)
    requires IsBlank(gap)
    ensures Cleaned(Split(gap + s, '\n')) == Cleaned(Split(s, '\n'))
  {
    hide Split, Cleaned;
    if gap == "" {
      assert gap + s == s;
    } else {
      CleanedIgnoresSpacePrefix(gap[1..], s);
      CleanedIgnoresLeadingSpace(gap[0], gap[1..] + s);
      assert [gap[0]] + (gap[1..] + s) == gap + s;
    }
  }

  lemma {:induction false} CleanedConcat(a: seq<string>, b: seq<string>)
    ensures Cleaned(a + b) == Cleaned(a) + Cleaned(b)
  {
    hide CleanedLine;
    if a == [] {
      assert a + b == b;
    } else {
      assert (a + b)[1..] == a[1..] + b;
      assert Cleaned(a + b) == CleanedLine(a[0]) + Cleaned(a[1..] + b);
      assert Cleaned(a) == CleanedLine(a[0]) + Cleaned(a[1..]);
      hide Cleaned;
      CleanedConcat(a[1..], b);
    }
  }

  function Restored(lines: seq<string>): (r: seq<string>)
    ensures |r| == |lines| && forall k | 0 <= k < |r| :: r[k] == UnescapeContentLine(EscapeContentLine(lines[k]))
  {
    seq(|lines|, i requires 0 <= i < |lines| => UnescapeContentLine(EscapeContentLine(lines[i])))
  }

  lemma PrefixAddsNoMatch(c: char, line: string, pattern: string)
    requires pattern != "" && pattern[0] != c
    ensures Contains([c] + line, pattern) ==> Contains(line, pattern)
  {
    var e := [c] + line;
    if Contains(e, pattern) {
      var p :| 0 <= p <= |e| && MatchesAt(e, pattern, p);
      assert e[p] == e[p..p+|pattern|][0];
      assert e[p..p+|pattern|] == line[p-1..p-1+|pattern|];
      assert MatchesAt(line, pattern, p - 1);
    }
  }

  lemma EscapedIsPlain(line: string)
    requires IsPlain(line)
    ensures IsPlain(EscapeContentLine(line)) && UnescapeContentLine(EscapeContentLine(line)) != ""
  {
    var e := "\\" + line;
    assert e[|e|-1] == line[|line|-1];
    PrefixAddsNoMatch('\\', line, CHECKPOINT_CLOSE_TAG);
  }

  lemma CleanedLineOfEscaped(line: string)
    requires IsPlain(line)
    ensures CleanedLine(EscapeContentLine(line)) == [UnescapeContentLine(EscapeContentLine(line))]
  {
    EscapedIsPlain(line);
  }

  lemma {:induction false} CleanedOfEscaped(lines: seq<string>)
    requires forall k | 0 <= k < |lines| :: IsPlain(lines[k])
    ensures Cleaned(Escaped(lines)) == Restored(lines)
  {
    hide CleanedLine, EscapeContentLine, UnescapeContentLine, IsPlain;
    if lines != [] {
      CleanedLineOfEscaped(lines[0]);
      CleanedOfEscaped(lines[1..]);
      assert Escaped(lines)[1..] == Escaped(lines[1..]);
      assert Restored(lines) == [UnescapeContentLine(EscapeContentLine(lines[0]))] + Restored(lines[1..]);
    }
  }

  // ----- the layout of a printed envelope -----

  function HeadLine(k: nat): string
    requires k < 7
  {
    "## " + SectionName(k)
  }

  /** The lines between one head line and the next. */
  function Interior(k: nat, lines: seq<string>): seq<string> {
    (if lines == [] then [""] else Escaped(lines)) + (if k < 6 then [""] else [])
  }

  /** The lines of the sections from `k` on. */
  function LinesFrom(sections: Sections, k: nat): seq<string>
    requires k <= 7
    decreases 7 - k
  {
    if k == 7 then [] else [HeadLine(k)] + Interior(k, sections[k]) + LinesFrom(sections, k + 1)
  }

  lemma {:induction false} JoinIsUnlines(parts: seq<string>)
    ensures Join(parts, "\n") + "\n" == Unlines(if parts == [] then [""] else parts, '\n')
  {
    if |parts| > 1 {
      JoinIsUnlines(parts[1..]);
    }
  }

  lemma SectionIsUnlines(k: nat, lines: seq<string>)
    requires k < 7
    ensures RenderSection(SectionName(k), lines) + "\n" + (if k < 6 then "\n" else "")
         == Unlines([HeadLine(k)] + Interior(k, lines), '\n')
  {
    hide SectionName, EscapeContentLine;
    JoinIsUnlines(Escaped(lines));
    var content := if lines == [] then [""] else Escaped(lines);
    var rest: seq<string> := if k < 6 then [""] else [];
    UnlinesConcat(content, rest, '\n');
    assert ([HeadLine(k)] + Interior(k, lines))[1..] == Interior(k, lines);
  }

  lemma {:induction false} RenderIsUnlines(sections: Sections, k: nat)
    requires k < 7
    ensures Join(RenderedSections(sections)[k..], "\n\n") + "\n" == Unlines(LinesFrom(sections, k), '\n')
    decreases 7 - k
  {
    hide SectionName, EscapeContentLine, RenderSection, Interior, HeadLine;
    var parts := RenderedSections(sections)[k..];
    SectionIsUnlines(k, sections[k]);
    UnlinesConcat([HeadLine(k)] + Interior(k, sections[k]), LinesFrom(sections, k + 1), '\n');
    if k < 6 {
      RenderIsUnlines(sections, k + 1);
      assert parts[1..] == RenderedSections(sections)[k+1..];
    }
  }

  lemma NamedLineMatches(text: string, from: nat, name: string)
    requires name != "" && (forall i | 0 <= i < |name| :: IsWord(name[i]))
    requires LineIn(text, from, "## " + name)
    ensures HeadAt(text, from).Some?
    ensures var head := HeadAt(text, from).value;
      head.name == name && from + 3 + |name| <= head.end && IsBlank(text[from+3+|name|..head.end])
  {
    var w := from + 3 + |name|;
    assert text[from..w] == "## " + name;
    assert text[from..from+3] == text[from..w][..3] == "## ";
    assert text[from+3..w] == text[from..w][3..] == name;
    assert forall i | from + 3 <= i < w :: text[i] == text[from+3..w][i-from-3];
    WordEndIs(text, from + 3, w);
    assert AtLineEnd(text, w);
  }

  /** A printed head line is found as a head, and only white space of it can be left over. */
  lemma HeadLineMatches(text: string, from: nat, k: nat)
    requires k < 7 && LineIn(text, from, HeadLine(k))
    ensures HeadAt(text, from).Some?
    ensures var head := HeadAt(text, from).value;
      head.name == SectionName(k) && from + |HeadLine(k)| <= head.end && IsBlank(text[from+|HeadLine(k)|..head.end])
  {
    var name := SectionName(k);
    assert name != "" && forall i | 0 <= i < |name| :: IsWord(name[i]);
    hide SectionName;
    NamedLineMatches(text, from, name);
  }

  lemma PartsAt(text: string, from: nat, a: string, c: char, b: string)
    requires from + |a| + 1 + |b| <= |text| && text[from..from+|a|+1+|b|] == a + [c] + b
    ensures text[from..from+|a|] == a && text[from+|a|] == c && text[from+|a|+1..from+|a|+1+|b|] == b
  {
    var s := text[from..from+|a|+1+|b|];
    assert s[..|a|] == a && s[|a|] == c && s[|a|+1..] == b;
    assert s[..|a|] == text[from..from+|a|];
    assert s[|a|+1..] == text[from+|a|+1..from+|a|+1+|b|];
  }

  lemma UnlinesStep(text: string, from: nat, lines: seq<string>)
    requires lines != [] && from + |Unlines(lines, '\n')| <= |text|
    requires text[from..from+|Unlines(lines, '\n')|] == Unlines(lines, '\n')
    ensures var stop, rest := from + |lines[0]|, Unlines(lines[1..], '\n');
      && stop + 1 + |rest| == from + |Unlines(lines, '\n')|
      && text[from..stop] == lines[0] && text[stop] == '\n' && text[stop+1..stop+1+|rest|] == rest
  {
    var rest := Unlines(lines[1..], '\n');
    assert Unlines(lines, '\n') == lines[0] + ['\n'] + rest;
    hide Unlines;
    PartsAt(text, from, lines[0], '\n', rest);
  }

  /** Heads among consecutive lines are exactly the heads inside those lines. */
  lemma {:induction false} HeadsAmongLines(text: string, from: nat, lines: seq<string>)
    requires from + |Unlines(lines, '\n')| <= |text|
    requires text[from..from+|Unlines(lines, '\n')|] == Unlines(lines, '\n')
    requires AtLineStart(text, from)
    requires forall k | 0 <= k < |lines| :: '\n' !in lines[k]
    ensures (forall k | 0 <= k < |lines| :: HeadFree(lines[k]))
        <==> (forall p | from <= p < from + |Unlines(lines, '\n')| :: HeadAt(text, p).None?)
    decreases |lines|
  {
    if lines != [] {
      hide HeadAt, Unlines;
      UnlinesStep(text, from, lines);
      var line, after := lines[0], from + |lines[0]| + 1;
      HeadsAmongLines(text, after, lines[1..]);
      forall o | 0 <= o <= |line| ensures HeadAt(text, from + o).Some? <==> HeadAt(line, o).Some? {
        HeadIsLocal(text, from, line, o);
      }
      assert forall p | from <= p < after :: HeadAt(text, p).Some? <==> HeadAt(line, p - from).Some?;
      assert HeadFree(line) <==> forall p | from <= p < after :: HeadAt(text, p).None?;
    }
  }

  ghost predicate AllPlain(lines: seq<string>) {
    forall i | 0 <= i < |lines| :: IsPlain(lines[i])
  }

  ghost predicate AllHeadFree(lines: seq<string>) {
    forall i | 0 <= i < |lines| :: HeadFree(EscapeContentLine(lines[i]))
  }

  lemma InteriorHeadFree(k: nat, lines: seq<string>)
    ensures AllHeadFree(lines) <==> forall i | 0 <= i < |Interior(k, lines)| :: HeadFree(Interior(k, lines)[i])
  {
    assert HeadFree("");
    hide HeadFree, EscapeContentLine;
    var interior := Interior(k, lines);
    assert forall i | 0 <= i < |lines| :: interior[i] == EscapeContentLine(lines[i]);
  }

  lemma EscapedLinesAreLines(k: nat, lines: seq<string>)
    requires AllPlain(lines)
    ensures forall i | 0 <= i < |Interior(k, lines)| :: '\n' !in Interior(k, lines)[i]
  {
    forall i | 0 <= i < |lines| ensures '\n' !in Escaped(lines)[i] {
      EscapedIsPlain(lines[i]);
    }
    hide EscapeContentLine, IsPlain;
  }

  lemma CleanedInterior(k: nat, lines: seq<string>)
    requires AllPlain(lines)
    ensures Cleaned(Interior(k, lines)) == Restored(lines)
  {
    hide CleanedLine, EscapeContentLine, UnescapeContentLine, IsPlain;
    var content := if lines == [] then [""] else Escaped(lines);
    if lines == [] { CleanedOfBlank([]); } else { CleanedOfEscaped(lines); }
    assert [""] + [] == [""] && content + [] == content;
    if k < 6 {
      CleanedConcat(content, [""]);
      CleanedOfBlank([]);
    }
  }

  lemma CleanedSection(k: nat, lines: seq<string>)
    requires AllPlain(lines)
    ensures Cleaned(Split("\n" + Unlines(Interior(k, lines), '\n'), '\n')) == Restored(lines)
  {
    hide CleanedLine, Cleaned, Interior, Unlines, Split, AllPlain, EscapeContentLine, UnescapeContentLine;
    var interior := Interior(k, lines);
    EscapedLinesAreLines(k, lines);
    CleanedInterior(k, lines);
    CleanedIgnoresLeadingSpace('\n', Unlines(interior, '\n'));
    SplitOfUnlines(interior, '\n');
    CleanedConcat(interior, [""]);
    CleanedOfBlank([]);
    assert [""] + [] == [""];
    NothingToClean();
  }

  lemma NothingToClean()
    ensures Cleaned([]) == []
  {}

  lemma BlockLayout(text: string, from: nat, after: nat, headLine: string, interior: seq<string>)
    requires from <= after <= |text| && text[from..after] == Unlines([headLine] + interior, '\n')
    requires AtLineStart(text, from)
    ensures LineIn(text, from, headLine)
    ensures var start := from + |headLine| + 1;
      && start + |Unlines(interior, '\n')| == after
      && text[start..after] == Unlines(interior, '\n')
      && AtLineStart(text, start)
      && text[from+|headLine|..after] == "\n" + Unlines(interior, '\n')
  {
    var all, rest := Unlines([headLine] + interior, '\n'), Unlines(interior, '\n');
    assert ([headLine] + interior)[1..] == interior;
    assert all == headLine + ['\n'] + rest;
    hide Unlines;
    var h := |headLine|;
    SliceOfSlice(text, from, after, 0, h);
    SliceOfSlice(text, from, after, h + 1, |all|);
    SliceOfSlice(text, from, after, h, |all|);
    assert all[0..h] == headLine && all[h+1..|all|] == rest && all[h..|all|] == ['\n'] + rest;
    assert text[from+h] == all[h] == '\n';
  }

  /** One printed section: its head is found, its lines are restored, and every further head hides in a line. */
  lemma BlockReads(text: string, from: nat, after: nat, k: nat, lines: seq<string>)
    requires k < 7 && AllPlain(lines)
    requires from <= after <= |text| && text[from..after] == Unlines([HeadLine(k)] + Interior(k, lines), '\n')
    requires AtLineStart(text, from)
    requires after == |text| || HeadAt(text, after).Some?
    ensures HeadAt(text, from).Some?
    ensures var head := HeadAt(text, from).value;
      && head.name == SectionName(k) && head.end <= after
      && Cleaned(Split(text[head.end..after], '\n')) == Restored(lines)
      && (AllHeadFree(lines) <==> (forall p | head.end <= p < after :: HeadAt(text, p).None?))
  {
    hide Unlines, SectionName, HeadLine, Interior, HeadAt, Split, Cleaned, Restored, AllHeadFree, HeadFree, AllPlain;
    var headLine, interior := HeadLine(k), Interior(k, lines);
    var start := from + |headLine| + 1;
    BlockLayout(text, from, after, headLine, interior);
    HeadLineMatches(text, from, k);
    var head := HeadAt(text, from).value;
    if after < |text| { HeadsDoNotOverlap(text, from, after); }
    var gap := text[from+|headLine|..head.end];
    assert text[from+|headLine|..after] == gap + text[head.end..after];
    CleanedSection(k, lines);
    CleanedIgnoresSpacePrefix(gap, text[head.end..after]);
    InteriorHeadFree(k, lines);
    EscapedLinesAreLines(k, lines);
    HeadsAmongLines(text, start, interior);
    NewlineIsNoHead(text, from + |headLine|);
    forall p | start <= p < after && HeadAt(text, p).Some? ensures head.end <= p {
      HeadsDoNotOverlap(text, from, p);
    }
  }

  lemma NewlineIsNoHead(text: string, p: nat)
    requires p < |text| && text[p] == '\n'
    ensures HeadAt(text, p).None?
  {
    if p + 3 <= |text| { assert text[p..p+3][0] == '\n'; }
  }

  // ----- the whole envelope -----

  /** The heads found are the printed ones, and each section holds its restored lines. */
  ghost predicate ReadsBack(text: string, heads: seq<Head>, sections: Sections, k: nat)
    requires k <= 7
  {
    && |heads| == 7 - k
    && (forall i | 0 <= i < 7 - k :: heads[i].name == SectionName(k + i))
    && (forall i | 0 <= i < 7 - k :: Cleaned(Split(SectionText(text, heads, i), '\n')) == Restored(sections[k + i]))
  }

  ghost predicate HeadFreeFrom(sections: Sections, k: nat) {
    forall i | k <= i < 7 :: AllHeadFree(sections[i])
  }

  lemma ReadsBackCons(text: string, head: Head, heads: seq<Head>, sections: Sections, k: nat, after: nat)
    requires k < 7 && head.end <= after <= |text|
    requires ReadsBack(text, heads, sections, k + 1)
    requires if k < 6 then heads[0].start == after else after == |text|
    requires head.name == SectionName(k)
    requires Cleaned(Split(text[head.end..after], '\n')) == Restored(sections[k])
    ensures ReadsBack(text, [head] + heads, sections, k)
  {
    hide Cleaned, Split, Restored, SectionName;
    var all := [head] + heads;
    forall i | 0 <= i < 7 - k
      ensures all[i].name == SectionName(k + i)
      ensures Cleaned(Split(SectionText(text, all, i), '\n')) == Restored(sections[k + i])
    {
      if i == 0 {
        assert SectionText(text, all, 0) == text[head.end..after];
      } else {
        assert all[i].name == heads[i-1].name == SectionName(k + 1 + (i - 1));
        assert SectionText(text, all, i) == SectionText(text, heads, i - 1);
      }
    }
  }

  lemma {:induction false} SectionsRead(text: string, from: nat, sections: Sections, k: nat)
    requires k <= 7 && forall i | 0 <= i < 7 :: AllPlain(sections[i])
    requires from <= |text| && text[from..] == Unlines(LinesFrom(sections, k), '\n')
    requires AtLineStart(text, from)
    ensures if k < 7 then HeadAt(text, from).Some? else from == |text|
    ensures if HeadFreeFrom(sections, k) then ReadsBack(text, MatchAll(text, from), sections, k)
            else |MatchAll(text, from)| > 7 - k
    decreases 7 - k
  {
    hide HeadLine, Interior, SectionName, AllPlain, AllHeadFree, HeadAt, Cleaned, Split, Restored;
    if k == 7 {
      NewlineOrEndIsNoHead(text);
    } else {
      var block := [HeadLine(k)] + Interior(k, sections[k]);
      var after := from + |Unlines(block, '\n')|;
      UnlinesConcat(block, LinesFrom(sections, k + 1), '\n');
      hide Unlines;
      assert text[from..after] == text[from..][..after-from] == Unlines(block, '\n');
      assert text[after..] == text[from..][after-from..] == Unlines(LinesFrom(sections, k + 1), '\n');
      BlockEndsLine(text, from, after, HeadLine(k), Interior(k, sections[k]));
      SectionsRead(text, after, sections, k + 1);
      BlockReads(text, from, after, k, sections[k]);
      var head := HeadAt(text, from).value;
      MatchAllReaches(text, head.end, after);
      if HeadFreeFrom(sections, k) {
        ReadsBackCons(text, head, MatchAll(text, after), sections, k, after);
      }
    }
  }

  lemma NewlineOrEndIsNoHead(text: string)
    ensures HeadAt(text, |text|).None?
  {}

  lemma {:induction false} BlockEndsLine(text: string, from: nat, after: nat, headLine: string, interior: seq<string>)
    requires from <= after <= |text| && text[from..after] == Unlines([headLine] + interior, '\n')
    ensures AtLineStart(text, after)
  {
    UnlinesEndsWithNewline([headLine] + interior);
    assert text[after-1] == text[from..after][after-from-1];
  }

  lemma {:induction false} UnlinesEndsWithNewline(lines: seq<string>)
    requires lines != []
    ensures var s := Unlines(lines, '\n'); s != [] && s[|s|-1] == '\n'
  {
    if |lines| > 1 { UnlinesEndsWithNewline(lines[1..]); }
  }

  // ----- where the tags are found -----

  lemma {:induction false} NoMatchAmongLines(text: string, from: nat, lines: seq<string>, pattern: string)
    requires from + |Unlines(lines, '\n')| <= |text|
    requires text[from..from+|Unlines(lines, '\n')|] == Unlines(lines, '\n')
    requires pattern != "" && '\n' !in pattern
    requires NoneHolds(lines, pattern)
    ensures forall p | from <= p < from + |Unlines(lines, '\n')| :: !MatchesAt(text, pattern, p)
    decreases |lines|
  {
    if lines != [] {
      hide Unlines, Contains;
      UnlinesStep(text, from, lines);
      var line, stop := lines[0], from + |lines[0]|;
      NoMatchAmongLines(text, stop + 1, lines[1..], pattern);
      forall p | from <= p <= stop ensures !MatchesAt(text, pattern, p) {
        if MatchesAt(text, pattern, p) { MatchStaysInLine(text, from, line, pattern, p); }
      }
    }
  }

  lemma MatchChars(text: string, pattern: string, p: nat)
    requires MatchesAt(text, pattern, p)
    ensures forall k | 0 <= k < |pattern| :: text[p+k] == pattern[k]
    ensures pattern != "" ==> text[p] == pattern[0]
  {
    assert pattern != "" ==> text[p] == text[p..p+|pattern|][0];
    forall k | 0 <= k < |pattern| ensures text[p+k] == pattern[k] {
      assert text[p..p+|pattern|][k] == text[p+k];
    }
  }

  lemma MatchStaysInLine(text: string, from: nat, line: string, pattern: string, p: nat)
    requires pattern != "" && '\n' !in pattern
    requires from + |line| < |text| && text[from..from+|line|] == line && text[from+|line|] == '\n'
    requires from <= p <= from + |line| && MatchesAt(text, pattern, p)
    ensures Contains(line, pattern)
  {
    var stop := from + |line|;
    MatchChars(text, pattern, p);
    if p + |pattern| <= stop {
      forall k | 0 <= k < |pattern| ensures line[p-from+k] == pattern[k] {
        assert line[p-from+k] == text[from..stop][p-from+k] == text[p+k];
      }
      assert line[p-from..p-from+|pattern|] == pattern;
      assert MatchesAt(line, pattern, p - from);
    }
  }

  /** All lines between the two tags. */
  function EnvelopeLines(sections: Sections): seq<string> {
    [""] + LinesFrom(sections, 0)
  }

  lemma RenderLayout(sections: Sections)
    ensures RenderCheckpoint(sections)
         == CHECKPOINT_OPEN_TAG + Unlines(EnvelopeLines(sections), '\n') + CHECKPOINT_CLOSE_TAG
  {
    hide LinesFrom, RenderedSections, Join;
    RenderIsUnlines(sections, 0);
    var lines := LinesFrom(sections, 0);
    assert RenderedSections(sections)[0..] == RenderedSections(sections);
    assert EnvelopeLines(sections)[1..] == lines;
    assert Unlines(EnvelopeLines(sections), '\n') == "" + ['\n'] + Unlines(lines, '\n');
  }

  lemma NoCloseTag(line: string)
    requires '<' !in line
    ensures !Contains(line, CHECKPOINT_CLOSE_TAG)
  {
    assert forall i | 0 <= i < |line| :: line[i] != '<';
    forall p | 0 <= p <= |line| ensures !MatchesAt(line, CHECKPOINT_CLOSE_TAG, p) {
      assert CHECKPOINT_CLOSE_TAG[0] == '<';
      if MatchesAt(line, CHECKPOINT_CLOSE_TAG, p) {
        MatchChars(line, CHECKPOINT_CLOSE_TAG, p);
      }
    }
  }

  ghost predicate NoneHolds(lines: seq<string>, pattern: string) {
    forall i | 0 <= i < |lines| :: !Contains(lines[i], pattern)
  }

  lemma BlockHoldsNoCloseTag(k: nat, lines: seq<string>)
    requires k < 7 && AllPlain(lines)
    ensures NoneHolds([HeadLine(k)] + Interior(k, lines), CHECKPOINT_CLOSE_TAG)
  {
    NoCloseTag("");
    assert '<' !in HeadLine(k);
    NoCloseTag(HeadLine(k));
    hide Contains, HeadLine, EscapeContentLine;
    forall i | 0 <= i < |lines| ensures !Contains(Escaped(lines)[i], CHECKPOINT_CLOSE_TAG) {
      EscapedIsPlain(lines[i]);
    }
    hide IsPlain;
  }

  lemma {:induction false} NoLineHoldsCloseTag(sections: Sections, k: nat)
    requires k <= 7 && forall i | 0 <= i < 7 :: AllPlain(sections[i])
    ensures NoneHolds(LinesFrom(sections, k), CHECKPOINT_CLOSE_TAG)
    decreases 7 - k
  {
    hide Contains, HeadLine, Interior, AllPlain;
    if k < 7 {
      BlockHoldsNoCloseTag(k, sections[k]);
      NoLineHoldsCloseTag(sections, k + 1);
    }
  }

  lemma CloseTagIsNotInOpenTag(text: string, p: nat)
    requires CHECKPOINT_OPEN_TAG <= text && p < |CHECKPOINT_OPEN_TAG|
    ensures !MatchesAt(text, CHECKPOINT_CLOSE_TAG, p)
  {
    assert text[p] == CHECKPOINT_OPEN_TAG[p] && text[1] == CHECKPOINT_OPEN_TAG[1];
    assert CHECKPOINT_CLOSE_TAG[0] == '<' && CHECKPOINT_CLOSE_TAG[1] == '/'
      && (p > 0 ==> CHECKPOINT_OPEN_TAG[p] != '<');
    if MatchesAt(text, CHECKPOINT_CLOSE_TAG, p) { MatchChars(text, CHECKPOINT_CLOSE_TAG, p); }
  }

  /** Reading a plain envelope comes down to reading its body. */
  lemma TagsAreFound(sections: Sections)
    requires forall i | 0 <= i < 7 :: AllPlain(sections[i])
    ensures Parsed(RenderCheckpoint(sections)) == ParseBody(Unlines(EnvelopeLines(sections), '\n'))
  {
    hide LinesFrom, AllPlain, Unlines, ParseBody, Contains;
    var text, body := RenderCheckpoint(sections), Unlines(EnvelopeLines(sections), '\n');
    RenderLayout(sections);
    hide RenderCheckpoint;
    var open, close := |CHECKPOINT_OPEN_TAG|, |CHECKPOINT_OPEN_TAG| + |body|;
    assert text[open..close] == body && MatchesAt(text, CHECKPOINT_OPEN_TAG, 0)
      && MatchesAt(text, CHECKPOINT_CLOSE_TAG, close);
    NoLineHoldsCloseTag(sections, 0);
    NoCloseTag("");
    NoMatchAmongLines(text, open, EnvelopeLines(sections), CHECKPOINT_CLOSE_TAG);
    forall p | 0 <= p < open ensures !MatchesAt(text, CHECKPOINT_CLOSE_TAG, p) {
      CloseTagIsNotInOpenTag(text, p);
    }
    FirstMatch(text, CHECKPOINT_OPEN_TAG, 0);
    FirstMatch(text, CHECKPOINT_CLOSE_TAG, close);
    hide IndexOf, MatchesAt;
  }

  lemma FirstMatch(text: string, pattern: string, p: nat)
    requires p <= |text| && MatchesAt(text, pattern, p) && forall q | 0 <= q < p :: !MatchesAt(text, pattern, q)
    ensures IndexOf(text, pattern) == Some(p)
  {
    hide MatchesAt;
    var found := IndexOf(text, pattern);
  }

  // ----- every line that is read is plain -----

  lemma {:induction false} SplitPieceIn(s: string, k: nat) returns (from: nat)
    requires k < |Split(s, '\n')|
    decreases |s|
    ensures from + |Split(s, '\n')[k]| <= |s| && s[from..from+|Split(s, '\n')[k]|] == Split(s, '\n')[k]
    ensures k == 0 ==> from == 0
  {
    from := 0;
    if s != [] {
      var rest := Split(s[1..], '\n');
      var j := if k > 0 && s[0] == '\n' then k - 1 else k;
      var at := SplitPieceIn(s[1..], j);
      hide Split;
      if k > 0 {
        from := at + 1;
        PieceOfPiece(s, 1, s[1..], at, rest[j]);
      } else if s[0] != '\n' {
        assert s[..1+|rest[0]|] == [s[0]] + s[1..][..|rest[0]|];
      }
    }
  }

  lemma UnescapeShape(line: string) returns (d: nat)
    requires IsTrimmed(line) && line != ""
    ensures d <= 1 && d < |line| && UnescapeContentLine(line) == line[d..] && IsTrimmed(line[d..])
  {
    d := if UnescapeContentLine(line) == line then 0 else 1;
    if d == 1 {
      var rest := Tail(line);
      assert rest != "" && rest[|rest|-1] == line[|line|-1];
      if !StartsEscaped(rest) { StructuralStart(rest); }
    }
  }

  lemma StructuralStart(line: string)
    requires IsStructuralLine(line)
    ensures line[0] == '#' || line[0] == '<'
  {
    if |line| >= 3 && line[..2] == "##" { assert line[..2][0] == line[0]; }
  }

  lemma PieceOfPiece(raw: string, at: nat, piece: string, d: nat, line: string)
    requires at + |piece| <= |raw| && raw[at..at+|piece|] == piece
    requires d + |line| <= |piece| && piece[d..d+|line|] == line
    ensures raw[at+d..at+d+|line|] == line
    ensures forall c | c in line :: c in raw
  {
    forall i | 0 <= i < |line| ensures raw[at+d+i] == line[i] {
      assert line[i] == piece[d..d+|line|][i] == piece[d+i] == raw[at..at+|piece|][d+i];
    }
  }

  lemma CleanedLineIs(raw: string)
    requires CleanedLine(raw) != []
    ensures CleanedLine(raw)[0] == UnescapeContentLine(Trim(raw)) && Trim(raw) != ""
    ensures CleanedLine(raw)[0] != ""
  {}

  lemma CleanedLineShape(raw: string) returns (from: nat)
    requires CleanedLine(raw) != [] && '\n' !in raw
    ensures var line := CleanedLine(raw)[0];
      && line != "" && IsTrimmed(line) && '\n' !in line
      && from + |line| <= |raw| && raw[from..from+|line|] == line
  {
    hide CleanedLine, Trim, UnescapeContentLine;
    var trimmed, line := Trim(raw), CleanedLine(raw)[0];
    var at := TrimIsPiece(raw);
    CleanedLineIs(raw);
    var d := UnescapeShape(trimmed);
    from := at + d;
    PieceOfPiece(raw, at, trimmed, d, line);
  }

  lemma {:induction false} CleanedComesFrom(lines: seq<string>, i: nat) returns (k: nat)
    requires i < |Cleaned(lines)|
    ensures k < |lines| && CleanedLine(lines[k]) == [Cleaned(lines)[i]]
  {
    hide CleanedLine, UnescapeContentLine, Trim;
    var first := CleanedLine(lines[0]);
    if i < |first| {
      k := 0;
    } else {
      k := CleanedComesFrom(lines[1..], i - |first|);
      k := k + 1;
    }
  }

  lemma NothingBeforeFirst(text: string, pattern: string, stop: nat, from: nat, piece: string)
    requires IndexOf(text, pattern) == Some(stop) && pattern != ""
    requires from + |piece| <= stop && text[from..from+|piece|] == piece
    ensures !Contains(piece, pattern)
  {
    forall p | 0 <= p <= |piece| ensures !MatchesAt(piece, pattern, p) {
      assert p + |pattern| <= |piece| ==> !MatchesAt(text, pattern, from + p);
      if MatchesAt(piece, pattern, p) { PieceOfPiece(text, from, piece, p, pattern); }
    }
  }

  lemma BodyLineIsPiece(body: string, i: nat, j: nat) returns (from: nat)
    requires ParseBody(body).Some? && i < 7 && j < |ParseBody(body).value[i]|
    ensures var line := ParseBody(body).value[i][j];
      && line != "" && IsTrimmed(line) && '\n' !in line
      && from + |line| <= |body| && body[from..from+|line|] == line
  {
    hide MatchAll, Cleaned, Split, IsTrimmed, SectionName;
    var heads := MatchAll(body, 0);
    var section := SectionText(body, heads, i);
    var at := LineIsPiece(section, j);
    from := heads[i].end + at;
    PieceOfPiece(body, heads[i].end, section, at, ParseBody(body).value[i][j]);
  }

  /** Whatever envelope is read, every line it yields is plain. */
  lemma ParsedLinesArePlain(text: string, i: nat, j: nat)
    requires Parsed(text).Some? && i < 7 && j < |Parsed(text).value[i]|
    ensures IsPlain(Parsed(text).value[i][j])
  {
    hide ParseBody, IndexOf, IsTrimmed;
    var line := Parsed(text).value[i][j];
    var open, close := IndexOf(text, CHECKPOINT_OPEN_TAG).value, IndexOf(text, CHECKPOINT_CLOSE_TAG).value;
    var base := open + |CHECKPOINT_OPEN_TAG|;
    var body := Slice(text, base, close);
    var at := BodyLineIsPiece(body, i, j);
    hide Parsed;
    PieceOfPiece(text, base, body, at, line);
    NothingBeforeFirst(text, CHECKPOINT_CLOSE_TAG, close, base + at, line);
  }

  lemma LineIsPiece(section: string, j: nat) returns (from: nat)
    requires j < |Cleaned(Split(section, '\n'))|
    ensures var line := Cleaned(Split(section, '\n'))[j];
      && line != "" && IsTrimmed(line) && '\n' !in line
      && from + |line| <= |section| && section[from..from+|line|] == line
  {
    hide Split, Cleaned, CleanedLine, IsTrimmed;
    var k := CleanedComesFrom(Split(section, '\n'), j);
    var raw := Split(section, '\n')[k];
    PiecesHaveNoSeparator(section, '\n', k);
    var at := SplitPieceIn(section, k);
    var d := CleanedLineShape(raw);
    var line := Cleaned(Split(section, '\n'))[j];
    from := at + d;
    PieceOfPiece(section, at, raw, d, line);
  }

  // ----- the exact condition -----

  lemma EnvelopeBody(sections: Sections)
    ensures var body := Unlines(EnvelopeLines(sections), '\n');
      body != "" && body[0] == '\n' && body[1..] == Unlines(LinesFrom(sections, 0), '\n')
  {
    hide LinesFrom;
    assert EnvelopeLines(sections)[1..] == LinesFrom(sections, 0);
    assert Unlines(EnvelopeLines(sections), '\n') == "" + ['\n'] + Unlines(LinesFrom(sections, 0), '\n');
  }

  /** When the lines are plain, reading succeeds exactly when no line hides a head. */
  lemma PlainEnvelopeReads(sections: Sections)
    requires forall i | 0 <= i < 7 :: AllPlain(sections[i])
    ensures Parsed(RenderCheckpoint(sections)).Some? <==> HeadFreeFrom(sections, 0)
    ensures HeadFreeFrom(sections, 0) ==> forall i | 0 <= i < 7 ::
        Parsed(RenderCheckpoint(sections)).value[i] == Restored(sections[i])
  {
    hide RenderCheckpoint, Parsed, LinesFrom, HeadAt, AllPlain, AllHeadFree, Cleaned, Split, Restored;
    var body := Unlines(EnvelopeLines(sections), '\n');
    TagsAreFound(sections);
    EnvelopeBody(sections);
    hide Unlines, EnvelopeLines;
    SectionsRead(body, 1, sections, 0);
    NewlineIsNoHead(body, 0);
    MatchAllReaches(body, 0, 1);
  }

  /** A checkpoint reads back as written exactly when every one of its lines survives. */
  lemma RoundTripExactly(sections: Sections)
    ensures Parsed(RenderCheckpoint(sections)) == Some(sections)
       <==> forall i, j | 0 <= i < 7 && 0 <= j < |sections[i]| :: Survives(sections[i][j])
  {
    hide RenderCheckpoint, Parsed, IsPlain, HeadFree, EscapeContentLine, UnescapeContentLine, EscapeIsUndone;
    var parsed := Parsed(RenderCheckpoint(sections));
    if parsed == Some(sections) {
      forall i, j | 0 <= i < 7 && 0 <= j < |sections[i]| ensures IsPlain(sections[i][j]) {
        ParsedLinesArePlain(RenderCheckpoint(sections), i, j);
      }
      PlainEnvelopeReads(sections);
      forall i, j | 0 <= i < 7 && 0 <= j < |sections[i]| ensures Survives(sections[i][j]) {
        assert AllHeadFree(sections[i]);
        assert sections[i][j] == Restored(sections[i])[j];
        EscapeIsUndoneExactly(sections[i][j]);
      }
    }
    if forall i, j | 0 <= i < 7 && 0 <= j < |sections[i]| :: Survives(sections[i][j]) {
      assert forall i | 0 <= i < 7 :: AllPlain(sections[i]);
      PlainEnvelopeReads(sections);
      forall i | 0 <= i < 7 ensures Restored(sections[i]) == sections[i] {
        forall j | 0 <= j < |sections[i]| ensures Restored(sections[i])[j] == sections[i][j] {
          assert Survives(sections[i][j]);
          EscapeIsUndoneExactly(sections[i][j]);
        }
      }
      assert parsed.value == sections;
    }
  }

  /** Three lines the envelope does not give back: a deeper heading, an inner backslash, an inner head. */
  lemma SomeLinesAreLost()
    ensures UnescapeContentLine(EscapeContentLine("### x")) == "## x" && !Survives("### x")
    ensures UnescapeContentLine(EscapeContentLine("a\\b")) == "\\b" && !Survives("a\\b")
    ensures !Survives("a\r## b")
  {
    assert Tail("### x") == "## x";
    assert Tail("a\\b") == "\\b";
    var line := "a\r## b";
    assert EscapeContentLine(line) == line;
    assert line[2..5] == "## ";
    WordEndIs(line, 5, 6);
    assert HeadAt(line, 2).Some?;
  }
}
