/** Plain text cut into bounded chunks: its units, runs of neighbours merged, and overlaps between the runs. */
module TextChunks {
  import opened JsText
  import opened TextPatterns
  import opened TextUnits

  const MAX_CHUNK := 1200
  const OVERLAP := 200

  // ----- merging small neighbours -----

  const GLUE := "\n\n"

  /** A run of units as one chunk. */
  function Merged(units: seq<TextChunk>): TextChunk
    requires units != []
  {
    if |units| == 1 then units[0]
    else
      var before, last := Merged(units[..|units|-1]), units[|units|-1];
      TextChunk(before.content + GLUE + last.content, before.start, last.end)
  }

  ghost function Contents(units: seq<TextChunk>): seq<string> {
    seq(|units|, k requires 0 <= k < |units| => units[k].content)
  }

  /** A run is its units' texts with a blank line between neighbours, from the first start to the last end. */
  lemma {:induction false} RunIsGlued(units: seq<TextChunk>)
    requires units != []
    ensures Merged(units).content == Join(Contents(units), "\n\n")
    ensures Merged(units).start == units[0].start && Merged(units).end == Last(units).end
  {
    if |units| == 1 {
      assert Contents(units) == [units[0].content];
    } else {
      var before := units[..|units|-1];
      RunIsGlued(before);
      JoinSnoc(Contents(units), "\n\n");
      assert Front(Contents(units)) == Contents(before);
      hide Join;
    }
  }

  lemma {:induction false} JoinSnoc(parts: seq<string>, glue: string)
    requires |parts| > 1
    ensures Join(parts, glue) == Join(Front(parts), glue) + glue + Last(parts)
  {
    if |parts| > 2 {
      JoinSnoc(parts[1..], glue);
      assert Front(parts[1..]) == Front(parts)[1..];
      assert parts[0] + glue + (Join(Front(parts)[1..], glue) + glue + Last(parts))
          == parts[0] + glue + Join(Front(parts)[1..], glue) + glue + Last(parts);
    }
  }

  predicate AreRunBounds(bounds: seq<nat>, n: nat) {
    && |bounds| >= 1 && bounds[0] == 0
    && (forall j, k | 0 <= j < k < |bounds| :: bounds[j] < bounds[k] <= n)
  }

  /** The chunks of consecutive runs of units; a run ends only where the next unit would not fit. */
  ghost predicate AreRuns(merged: seq<TextChunk>, units: seq<TextChunk>, bounds: seq<nat>, maxChars: nat) {
    && AreRunBounds(bounds, |units|) && |merged| == |bounds| - 1
    && (forall k | 0 <= k < |merged| :: merged[k] == Merged(units[bounds[k]..bounds[k+1]]))
    && (forall k | 0 <= k < |merged| && bounds[k+1] < |units| ::
          |merged[k].content| + |GLUE| + |units[bounds[k+1]].content| > maxChars)
  }

  method MergeUnits(units: seq<TextChunk>, maxChars: nat) returns (merged: seq<TextChunk>, ghost bounds: seq<nat>)
    requires units != [] && AreSmall(units, maxChars)
    ensures AreRuns(merged, units, bounds, maxChars) && bounds[|bounds|-1] == |units|
    ensures merged != [] && AreSmall(merged, maxChars)
  {
    hide Merged;
    merged, bounds := [], [0];
    var current := units[0];
    MergedOne(units, 0);
    for i := 1 to |units|
      invariant AreRuns(merged, units, bounds, maxChars) && bounds[|bounds|-1] < i
      invariant current == Merged(units[bounds[|bounds|-1]..i])
      invariant AreSmall(merged, maxChars) && |current.content| <= maxChars
    {
      var unit := units[i];
      if |current.content + GLUE + unit.content| <= maxChars {
        MergedMore(units, bounds[|bounds|-1], i);
        current := TextChunk(current.content + GLUE + unit.content, current.start, unit.end);
      } else {
        RunCloses(merged, units, bounds, maxChars, i);
        merged, bounds := merged + [current], bounds + [i];
        current := unit;
        MergedOne(units, i);
      }
    }
    RunCloses(merged, units, bounds, maxChars, |units|);
    merged, bounds := merged + [current], bounds + [|units|];
  }

  lemma MergedOne(units: seq<TextChunk>, i: nat)
    requires i < |units|
    ensures Merged(units[i..i+1]) == units[i]
  {}

  lemma MergedMore(units: seq<TextChunk>, from: nat, i: nat)
    requires from < i < |units|
    ensures var before := Merged(units[from..i]);
            Merged(units[from..i+1]) == TextChunk(before.content + GLUE + units[i].content, before.start, units[i].end)
  {
    assert units[from..i+1][..i-from] == units[from..i];
  }

  lemma RunCloses(merged: seq<TextChunk>, units: seq<TextChunk>, bounds: seq<nat>, maxChars: nat, i: nat)
    requires AreRuns(merged, units, bounds, maxChars) && bounds[|bounds|-1] < i <= |units|
    requires i < |units| ==> |Merged(units[bounds[|bounds|-1]..i]).content| + |GLUE| + |units[i].content| > maxChars
    ensures AreRuns(merged + [Merged(units[bounds[|bounds|-1]..i])], units, bounds + [i], maxChars)
  {
    hide Merged;
  }

  // ----- overlaps -----

  /** A chunk led by the end of the one before, unless it begins with that already. */
  function Overlapped(prev: TextChunk, chunk: TextChunk, maxChars: nat, overlap: nat): TextChunk {
    var tail := LastN(prev.content, overlap);
    if tail <= chunk.content then chunk
    else TextChunk(LastN(tail + GLUE + chunk.content, maxChars + overlap),
                   if chunk.start >= overlap then chunk.start - overlap else 0, chunk.end)
  }

  /** Overlapping keeps the chunk's own text whole, at its end, and its end where it was. */
  lemma OverlapKeepsOwnText(prev: TextChunk, chunk: TextChunk, maxChars: nat, overlap: nat)
    requires |chunk.content| <= maxChars
    ensures var c := Overlapped(prev, chunk, maxChars, overlap);
            && |chunk.content| <= |c.content| <= maxChars + overlap
            && LastN(c.content, |chunk.content|) == chunk.content
            && c.start <= chunk.start <= c.start + overlap && c.end == chunk.end
  {
    var tail := LastN(prev.content, overlap);
    var whole := tail + GLUE + chunk.content;
    assert whole[|tail + GLUE|..] == chunk.content;
  }

  /** A chunk that begins with the last `overlap` characters of the one before stays as it is.  Any other is led by
      them and a blank line, as far as that fits into limit and overlap, and starts that much earlier. */
  lemma OverlapIs(prev: TextChunk, chunk: TextChunk, maxChars: nat, overlap: nat)
    ensures var tail := if |prev.content| > overlap then prev.content[|prev.content|-overlap..] else prev.content;
            var led, c := tail + "\n\n" + chunk.content, Overlapped(prev, chunk, maxChars, overlap);
            && c.end == chunk.end
            && (if |tail| <= |chunk.content| && chunk.content[..|tail|] == tail then c == chunk
                else c.content == (if |led| > maxChars + overlap then led[|led|-(maxChars+overlap)..] else led)
                     && c.start == if chunk.start > overlap then chunk.start - overlap else 0)
  {}

  /** Every chunk after the first, overlapped with its unchanged predecessor. */
  predicate AreOverlapped(out: seq<TextChunk>, merged: seq<TextChunk>, maxChars: nat, overlap: nat) {
    && |out| == |merged| && (merged != [] ==> out[0] == merged[0])
    && (forall k | 0 < k < |merged| :: out[k] == Overlapped(merged[k-1], merged[k], maxChars, overlap))
  }

  method AddOverlaps(merged: seq<TextChunk>, maxChars: nat, overlap: nat) returns (out: seq<TextChunk>)
    ensures AreOverlapped(out, merged, maxChars, overlap)
  {
    out := [];
    for k := 0 to |merged|
      invariant |out| == k && (k > 0 ==> out[0] == merged[0])
      invariant forall j | 0 < j < k :: out[j] == Overlapped(merged[j-1], merged[j], maxChars, overlap)
    {
      var chunk := if k == 0 then merged[0] else Overlapped(merged[k-1], merged[k], maxChars, overlap);
      out := out + [chunk];
    }
  }

  // ----- the chunker -----

  function EffectiveMaxChars(option: Option<int>): nat {
    var given := if option.Some? then option.value else MAX_CHUNK;
    if given > 200 then given else 200
  }

  function EffectiveOverlap(maxChars: nat, option: Option<int>): nat {
    var given := if option.Some? then option.value else OVERLAP;
    if given < 0 then 0 else if given < maxChars / 2 then given else maxChars / 2
  }

  /** At least 200 characters a chunk, 1,200 unless told otherwise; the overlap, 200 unless told otherwise, is at most
      half of them. */
  lemma OptionsAre(maxOption: Option<int>, overlapOption: Option<int>)
    ensures var maxChars := EffectiveMaxChars(maxOption);
            var overlap := EffectiveOverlap(maxChars, overlapOption);
            && maxChars >= 200 && (maxChars == 200 || maxChars == if maxOption.Some? then maxOption.value else 1200)
            && (maxOption.Some? && maxOption.value >= 200 ==> maxChars == maxOption.value)
            && overlap <= maxChars / 2
            && (overlap == maxChars / 2 || overlap == 0
                || overlap == if overlapOption.Some? then overlapOption.value else 200)
            && (overlapOption.Some? && 0 <= overlapOption.value <= maxChars / 2 ==> overlap == overlapOption.value)
            && (overlapOption.Some? && overlapOption.value < 0 ==> overlap == 0)
            && (overlapOption.None? && maxChars >= 400 ==> overlap == 200)
  {}

  /** The chunks made of the given units: as they are, merged in runs, or merged and overlapped. */
  ghost predicate AreChunksOf(out: seq<TextChunk>, units: seq<TextChunk>, merged: seq<TextChunk>, bounds: seq<nat>,
        maxChars: nat, overlap: nat) {
    && (|units| <= 1 ==> out == units)
    && (|units| > 1 ==>
          && AreRuns(merged, units, bounds, maxChars) && bounds[|bounds|-1] == |units| && AreSmall(merged, maxChars)
          && (overlap == 0 || |merged| <= 1 ==> out == merged)
          && (overlap > 0 && |merged| > 1 ==> AreOverlapped(out, merged, maxChars, overlap)))
  }

  /** Everything on the way from a text to its chunks, each part fixed by the one before. */
  datatype Chunking = Chunking(paragraphs: seq<TextChunk>, units: seq<TextChunk>, merged: seq<TextChunk>,
    bounds: seq<nat>)

  ghost predicate IsChunking(out: seq<TextChunk>, c: Chunking, text: string, maxChars: nat, overlap: nat)
    requires maxChars >= 1
  {
    && AreParagraphs(c.paragraphs, text, Breaks(text), |Breaks(text)| + 1)
    && AreUnitsOfAll(c.units, c.paragraphs, SentenceEnds, maxChars)
    && AreChunksOf(out, c.units, c.merged, c.bounds, maxChars, overlap)
  }

  method ChunkText(text: string, maxOption: Option<int>, overlapOption: Option<int>)
    returns (out: seq<TextChunk>, ghost how: Chunking)
    ensures var maxChars := EffectiveMaxChars(maxOption);
            && IsChunking(out, how, text, maxChars, EffectiveOverlap(maxChars, overlapOption))
            && AreUnits(how.units, text, |text|) && AreSmall(how.units, maxChars)
    ensures text == "" ==> out == []
  {
    hide AreUnits, AreSmall, AreRuns, AreOverlapped, FindsMatches, AreBreaks, AreParagraphs, AreUnitsOfAll, IsSpace,
         Trim, Breaks, SentenceEnds;
    PatternsMatch(text);
    var maxChars := EffectiveMaxChars(maxOption);
    var overlap := EffectiveOverlap(maxChars, overlapOption);
    if text == "" {
      NothingYet(text);
      NoneAreSmall(maxChars);
      NoParagraphs(Breaks(text));
      NoUnits(SentenceEnds, maxChars);
      return [], Chunking([], [], [], [0]);
    }
    var paragraphs := Paragraphs(text, Breaks(text));
    var units := Units(text, paragraphs, SentenceEnds, maxChars);
    if |units| <= 1 { return units, Chunking(paragraphs, units, [], [0]); }
    var merged, bounds := MergeUnits(units, maxChars);
    out, how := merged, Chunking(paragraphs, units, merged, bounds);
    if overlap != 0 && |merged| > 1 { out := AddOverlaps(merged, maxChars, overlap); }
  }

  lemma PatternsMatch(text: string)
    ensures AreBreaks(Breaks(text), text) && FindsMatches(SentenceEnds)
  {
    BreaksAreAll(text);
    var breaks := Breaks(text);
    assert forall k | 0 <= k < |breaks| :: breaks[k].start < breaks[k].end <= |text|;
    hide Breaks, SentenceEnds, IsSpace, IsBreak, AreMatches;
    forall k, i | 0 <= k < |breaks| && breaks[k].start <= i < breaks[k].end ensures IsSpace(text[i]) {
      assert breaks[k] in breaks;
      BreakIsBlank(text, breaks[k].start, breaks[k].end, i);
    }
  }

  lemma BreakIsBlank(text: string, start: nat, end: nat, i: nat)
    requires IsBreak(text, start, end) && start <= i < end
    ensures IsSpace(text[i])
  {
    hide IsSpace;
    assert text[start..end][i - start] == text[i];
  }

  lemma NoParagraphs(breaks: seq<Match>)
    requires AreMatches(breaks, 0)
    ensures AreParagraphs([], "", breaks, |breaks| + 1)
  {}

  // ----- one answer -----

  lemma {:induction false} MergedGrows(units: seq<TextChunk>, from: nat, i: nat, j: nat)
    requires from < i <= j <= |units|
    ensures |Merged(units[from..i]).content| <= |Merged(units[from..j]).content|
    decreases j - i
  {
    if i < j {
      hide Merged;
      MergedMore(units, from, j - 1);
      MergedGrows(units, from, i, j - 1);
    }
  }

  /** A run is as long as it can be, so no other run from its start is longer. */
  lemma NextRunAgrees(a: seq<nat>, ma: seq<TextChunk>, b: seq<nat>, mb: seq<TextChunk>, units: seq<TextChunk>,
        maxChars: nat, k: nat)
    requires AreRuns(ma, units, a, maxChars) && AreRuns(mb, units, b, maxChars) && AreSmall(mb, maxChars)
    requires k + 1 < |a| && k + 1 < |b| && a[k] == b[k]
    ensures b[k+1] <= a[k+1]
  {
    hide Merged;
    if a[k+1] < b[k+1] {
      assert mb[k] in mb;
      MergedMore(units, a[k], a[k+1]);
      MergedGrows(units, a[k], a[k+1] + 1, b[k+1]);
      assert false;
    }
  }

  lemma {:induction false} RunsAgree(a: seq<nat>, ma: seq<TextChunk>, b: seq<nat>, mb: seq<TextChunk>,
        units: seq<TextChunk>, maxChars: nat, k: nat)
    requires AreRuns(ma, units, a, maxChars) && AreSmall(ma, maxChars) && Last(a) == |units|
    requires AreRuns(mb, units, b, maxChars) && AreSmall(mb, maxChars) && Last(b) == |units| && k < |a|
    ensures k < |b| && a[k] == b[k]
  {
    hide Merged, AreSmall;
    if k > 0 {
      RunsAgree(a, ma, b, mb, units, maxChars, k - 1);
      assert a[k-1] < a[k] <= |units|;
      assert k < |b|;
      hide AreRuns;
      NextRunAgrees(a, ma, b, mb, units, maxChars, k - 1);
      NextRunAgrees(b, mb, a, ma, units, maxChars, k - 1);
    }
  }

  lemma RunsAreUnique(a: seq<nat>, ma: seq<TextChunk>, b: seq<nat>, mb: seq<TextChunk>, units: seq<TextChunk>,
        maxChars: nat)
    requires AreRuns(ma, units, a, maxChars) && AreSmall(ma, maxChars) && Last(a) == |units|
    requires AreRuns(mb, units, b, maxChars) && AreSmall(mb, maxChars) && Last(b) == |units|
    ensures ma == mb
  {
    hide Merged, AreSmall;
    forall k: nat | k < |a| ensures k < |b| && a[k] == b[k] { RunsAgree(a, ma, b, mb, units, maxChars, k); }
    RunsAgree(b, mb, a, ma, units, maxChars, |b| - 1);
    assert a == b;
  }

  lemma OverlapsAreUnique(a: seq<TextChunk>, b: seq<TextChunk>, merged: seq<TextChunk>, maxChars: nat, overlap: nat)
    requires AreOverlapped(a, merged, maxChars, overlap) && AreOverlapped(b, merged, maxChars, overlap)
    ensures a == b
  {
    hide Overlapped;
    forall k | 0 <= k < |a| ensures a[k] == b[k] {
      if k > 0 { assert a[k] == Overlapped(merged[k-1], merged[k], maxChars, overlap) == b[k]; }
    }
  }

  /** A text and the options leave one list of chunks. */
  lemma ChunksAreDetermined(out: seq<TextChunk>, c: Chunking, out': seq<TextChunk>, c': Chunking, text: string,
        maxChars: nat, overlap: nat)
    requires maxChars >= 1
    requires IsChunking(out, c, text, maxChars, overlap) && IsChunking(out', c', text, maxChars, overlap)
    ensures out == out'
  {
    hide AreUnitsOfAll, AreRuns, AreSmall, AreInOrder, IsParagraph, AreMatches, Overlapped, Breaks, SentenceEnds;
    OrderIsUnique(c.paragraphs, c'.paragraphs, |text|);
    UnitsAreUnique(c.units, c'.units, c.paragraphs, SentenceEnds, maxChars);
    if |c.units| > 1 {
      RunsAreUnique(c.bounds, c.merged, c'.bounds, c'.merged, c.units, maxChars);
      if overlap > 0 && |c.merged| > 1 { OverlapsAreUnique(out, out', c.merged, maxChars, overlap); }
    }
  }

  // ----- nothing is lost -----

  /** A run spans its units, and holds the text of each. */
  lemma {:induction false} MergedHoldsUnit(units: seq<TextChunk>, k: nat)
    requires k < |units| && AreInOrder(units, units[|units|-1].end)
    ensures Merged(units).start <= units[k].start && units[k].end <= Merged(units).end
    ensures Contains(Merged(units).content, units[k].content)
  {
    var n := |units| - 1;
    if n == 0 {
      assert MatchesAt(units[0].content, units[0].content, 0);
    } else {
      MergedSpans(units);
      MergedSnoc(units);
      hide Merged, Contains;
      var before, last := Merged(units[..n]).content, units[n].content;
      JoinHolds(before, last, if k == n then last else units[k].content);
      if k < n { MergedHoldsUnit(units[..n], k); }
    }
  }

  lemma MergedSnoc(units: seq<TextChunk>)
    requires |units| > 1
    ensures var n := |units| - 1;
            && Merged(units).content == Merged(units[..n]).content + GLUE + units[n].content
            && Merged(units).start == Merged(units[..n]).start
  {}

  /** Text glued to more keeps what either half holds. */
  lemma JoinHolds(a: string, b: string, pattern: string)
    ensures Contains(a, pattern) ==> Contains(a + GLUE + b, pattern)
    ensures Contains(a + GLUE + b, b)
  {
    assert MatchesAt(a + GLUE + b, b, |a + GLUE|);
    if Contains(a, pattern) {
      var p :| 0 <= p <= |a| && MatchesAt(a, pattern, p);
      assert a + GLUE + b == a + (GLUE + b);
      MatchStays(a, GLUE + b, pattern, p);
    }
  }

  lemma MatchStays(a: string, b: string, pattern: string, p: nat)
    requires MatchesAt(a, pattern, p)
    ensures MatchesAt(a + b, pattern, p)
  {
    assert (a + b)[p..p+|pattern|] == a[p..p+|pattern|];
  }

  lemma {:induction false} MergedSpans(units: seq<TextChunk>)
    requires units != [] && AreInOrder(units, units[|units|-1].end)
    ensures Merged(units).start == units[0].start && Merged(units).end == units[|units|-1].end
  {
    if |units| > 1 { MergedSpans(units[..|units|-1]); }
  }

  lemma {:induction false} RunOfUnit(bounds: seq<nat>, n: nat, u: nat) returns (k: nat)
    requires AreRunBounds(bounds, n) && u < bounds[|bounds|-1]
    ensures k + 1 < |bounds| && bounds[k] <= u < bounds[k+1]
    decreases |bounds|
  {
    var m := |bounds| - 1;
    if u >= bounds[m-1] { k := m - 1; } else { k := RunOfUnit(bounds[..m], n, u); }
  }

  lemma TailHolds(s: string, own: string, pattern: string)
    requires |own| <= |s| && LastN(s, |own|) == own && Contains(own, pattern)
    ensures Contains(s, pattern)
  {
    var p :| 0 <= p <= |own| && MatchesAt(own, pattern, p);
    var d := |s| - |own|;
    assert s[d+p..d+p+|pattern|] == own[p..p+|pattern|];
    assert MatchesAt(s, pattern, d + p);
  }

  lemma RunIsInOrder(units: seq<TextChunk>, n: nat, i: nat, j: nat)
    requires AreInOrder(units, n) && i < j <= |units|
    ensures AreInOrder(units[i..j], units[i..j][j-i-1].end)
  {
    var run := units[i..j];
    forall k | 0 <= k < |run| ensures run[k].start < run[k].end <= units[j-1].end {
      assert run[k] == units[i+k];
    }
  }

  lemma RunHoldsUnit(units: seq<TextChunk>, n: nat, i: nat, j: nat, u: nat)
    requires AreInOrder(units, n) && i <= u < j <= |units|
    ensures var c := Merged(units[i..j]);
            Contains(c.content, units[u].content) && c.start <= units[u].start && units[u].end <= c.end
  {
    hide Contains, Merged;
    RunIsInOrder(units, n, i, j);
    hide AreInOrder;
    assert units[i..j][u-i] == units[u];
    MergedHoldsUnit(units[i..j], u - i);
  }

  lemma MergedRunHoldsUnit(units: seq<TextChunk>, merged: seq<TextChunk>, bounds: seq<nat>, n: nat, maxChars: nat,
        u: nat)
    returns (k: nat)
    requires AreRuns(merged, units, bounds, maxChars) && bounds[|bounds|-1] == |units| && AreInOrder(units, n)
        && u < |units|
    ensures k < |merged| && Contains(merged[k].content, units[u].content)
    ensures merged[k].start <= units[u].start && units[u].end <= merged[k].end
  {
    hide Merged, Contains, AreInOrder;
    k := RunOfUnit(bounds, |units|, u);
    RunHoldsUnit(units, n, bounds[k], bounds[k+1], u);
  }

  /** Every unit's text is whole in some chunk, whose offsets span the unit's. */
  lemma UnitsSurvive(out: seq<TextChunk>, units: seq<TextChunk>, merged: seq<TextChunk>, bounds: seq<nat>, n: nat,
        maxChars: nat, overlap: nat, u: nat)
    returns (k: nat)
    requires AreChunksOf(out, units, merged, bounds, maxChars, overlap) && AreInOrder(units, n) && u < |units|
    ensures k < |out| && Contains(out[k].content, units[u].content)
    ensures out[k].start <= units[u].start && units[u].end <= out[k].end
  {
    if |units| <= 1 {
      k := 0;
      assert MatchesAt(units[0].content, units[0].content, 0);
    } else {
      hide Contains, Overlapped, LastN, AreRuns, AreInOrder;
      k := MergedRunHoldsUnit(units, merged, bounds, n, maxChars, u);
      if overlap != 0 && |merged| > 1 && k > 0 {
        assert merged[k] in merged;
        OverlapKeepsOwnText(merged[k-1], merged[k], maxChars, overlap);
        TailHolds(out[k].content, merged[k].content, units[u].content);
      }
    }
  }

  /** Every character with content lies between the offsets of some chunk. */
  lemma ContentIsCovered(text: string, out: seq<TextChunk>, units: seq<TextChunk>, merged: seq<TextChunk>,
        bounds: seq<nat>, maxChars: nat, overlap: nat, i: nat)
    returns (k: nat)
    requires AreUnits(units, text, |text|) && AreChunksOf(out, units, merged, bounds, maxChars, overlap)
    requires i < |text| && !IsSpace(text[i])
    ensures k < |out| && HoldsOffset(out[k], i)
  {
    hide IsSpace, AreChunksOf, Contains;
    var c :| c in units && HoldsOffset(c, i);
    var u :| 0 <= u < |units| && units[u] == c;
    k := UnitsSurvive(out, units, merged, bounds, |text|, maxChars, overlap, u);
  }

  /** No chunk is longer than the limit and the overlap together. */
  lemma ChunksAreBounded(out: seq<TextChunk>, units: seq<TextChunk>, merged: seq<TextChunk>, bounds: seq<nat>,
        maxChars: nat, overlap: nat, k: nat)
    requires AreChunksOf(out, units, merged, bounds, maxChars, overlap) && AreSmall(units, maxChars) && k < |out|
    ensures |out[k].content| <= maxChars + overlap
    ensures overlap == 0 || k == 0 ==> |out[k].content| <= maxChars
  {
    hide AreRuns, Overlapped;
    assert out[k] in out;
    if |units| > 1 && !(overlap == 0 || |merged| <= 1) {
      assert merged[k] in merged;
      if k > 0 { OverlapKeepsOwnText(merged[k-1], merged[k], maxChars, overlap); }
    }
  }
}
