/** The units of the plain-text chunker: paragraphs, and the sentence groups of over-long ones.  Nothing here needs
    what the two patterns match. */
module TextUnits {
  import opened JsText
  import opened TextPatterns

  datatype TextChunk = TextChunk(content: string, start: nat, end: nat)

  /** A chunk that is exactly the text between its offsets. */
  predicate IsSlice(c: TextChunk, text: string) {
    c.start <= c.end <= |text| && c.content == text[c.start..c.end]
  }

  predicate HoldsOffset(c: TextChunk, i: int) {
    c.start <= i < c.end
  }

  predicate AreInOrder(chunks: seq<TextChunk>, n: nat) {
    && (forall k | 0 <= k < |chunks| :: chunks[k].start < chunks[k].end <= n)
    && (forall j, k | 0 <= j < k < |chunks| :: chunks[j].end <= chunks[k].start)
  }

  /** Every character with content before `n` is in some chunk. */
  ghost predicate HoldAllContent(chunks: seq<TextChunk>, text: string, n: nat)
    requires n <= |text|
  {
    forall i | 0 <= i < n && !IsSpace(text[i]) :: exists c :: c in chunks && HoldsOffset(c, i)
  }

  /** The units of the first `n` characters. */
  ghost predicate AreUnits(units: seq<TextChunk>, text: string, n: nat)
    requires n <= |text|
  {
    && (forall c | c in units :: IsSlice(c, text))
    && AreInOrder(units, n)
    && HoldAllContent(units, text, n)
  }

  // ----- paragraphs -----

  /** Paragraph breaks match white space only. */
  predicate AreBreaks(matches: seq<Match>, text: string) {
    && AreMatches(matches, |text|)
    && (forall k, i | 0 <= k < |matches| && matches[k].start <= i < matches[k].end :: IsSpace(text[i]))
  }

  /** The text between break `k - 1` and break `k`, or up to the text's own ends. */
  function Gap(text: string, breaks: seq<Match>, k: nat): TextChunk
    requires AreMatches(breaks, |text|) && k <= |breaks|
  {
    var start := if k == 0 then 0 else breaks[k-1].end;
    var end := if k == |breaks| then |text| else breaks[k].start;
    TextChunk(text[start..end], start, end)
  }

  /** One of the first `n` gaps, and not blank. */
  ghost predicate IsParagraph(p: TextChunk, text: string, breaks: seq<Match>, n: nat)
    requires AreMatches(breaks, |text|) && n <= |breaks| + 1
  {
    exists k: nat | k < n :: p == Gap(text, breaks, k) && !IsBlank(p.content)
  }

  /** The paragraphs in the order of the text: whatever is between two consecutive breaks, unless it is blank. */
  ghost predicate AreParagraphs(paragraphs: seq<TextChunk>, text: string, breaks: seq<Match>, n: nat)
    requires AreMatches(breaks, |text|) && n <= |breaks| + 1
  {
    AreInOrder(paragraphs, |text|) && forall p :: p in paragraphs <==> IsParagraph(p, text, breaks, n)
  }

  /** A paragraph lies between two neighbouring breaks, or a break and an end of the text, and holds none. */
  lemma ParagraphIsBetweenBreaks(paragraphs: seq<TextChunk>, text: string, breaks: seq<Match>, p: TextChunk)
    requires AreMatches(breaks, |text|) && AreParagraphs(paragraphs, text, breaks, |breaks| + 1) && p in paragraphs
    ensures p.start < p.end <= |text| && p.content == text[p.start..p.end] && !IsBlank(p.content)
    ensures p.start == 0 || exists m :: m in breaks && m.end == p.start
    ensures p.end == |text| || exists m :: m in breaks && m.start == p.end
    ensures forall m | m in breaks :: m.end <= p.start || p.end <= m.start
  {
    hide IsBlank;
    assert IsParagraph(p, text, breaks, |breaks| + 1);
    var k: nat :| k < |breaks| + 1 && p == Gap(text, breaks, k) && !IsBlank(p.content);
    if k > 0 { assert breaks[k-1] in breaks; }
    if k < |breaks| { assert breaks[k] in breaks; }
  }

  lemma ParagraphsGrow(paragraphs: seq<TextChunk>, more: seq<TextChunk>, text: string, breaks: seq<Match>, n: nat)
    requires AreMatches(breaks, |text|) && n <= |breaks| && AreParagraphs(paragraphs, text, breaks, n)
    requires more == paragraphs + (if IsBlank(Gap(text, breaks, n).content) then [] else [Gap(text, breaks, n)])
    requires AreInOrder(more, |text|)
    ensures AreParagraphs(more, text, breaks, n + 1)
  {
    hide IsBlank, Gap, AreInOrder, AreMatches;
    forall p ensures p in more <==> IsParagraph(p, text, breaks, n + 1) {
      if IsParagraph(p, text, breaks, n + 1) && p != Gap(text, breaks, n) {
        assert IsParagraph(p, text, breaks, n);
      }
      if p in paragraphs {
        var k: nat :| k < n && p == Gap(text, breaks, k) && !IsBlank(p.content);
      }
    }
  }

  lemma LastIsLatest(chunks: seq<TextChunk>, n: nat, c: TextChunk)
    requires AreInOrder(chunks, n) && c in chunks
    ensures c == Last(chunks) || c.end <= Last(chunks).start
    ensures c.start < c.end
  {}

  lemma FrontIsRest(chunks: seq<TextChunk>, n: nat)
    requires AreInOrder(chunks, n) && chunks != []
    ensures AreInOrder(Front(chunks), n)
    ensures forall c :: c in Front(chunks) <==> c in chunks && c != Last(chunks)
  {
    var last := Last(chunks);
    assert chunks == Front(chunks) + [last];
    assert forall k | 0 <= k < |chunks| - 1 :: Front(chunks)[k] == chunks[k] && chunks[k] != last;
  }

  lemma SameEmptiness(a: seq<TextChunk>, b: seq<TextChunk>)
    requires forall c :: c in a <==> c in b
    ensures a == [] <==> b == []
  {
    if a != [] { assert a[0] in b; }
    if b != [] { assert b[0] in a; }
  }

  /** Nothing else meets that: lists of the same chunks in the order of the text are the same list. */
  lemma {:induction false} OrderIsUnique(a: seq<TextChunk>, b: seq<TextChunk>, n: nat)
    requires AreInOrder(a, n) && AreInOrder(b, n) && forall c :: c in a <==> c in b
    ensures a == b
    decreases |a|
  {
    hide AreInOrder;
    SameEmptiness(a, b);
    if a != [] {
      LastIsLatest(a, n, Last(b));
      LastIsLatest(b, n, Last(a));
      FrontIsRest(a, n);
      FrontIsRest(b, n);
      OrderIsUnique(Front(a), Front(b), n);
      assert a == Front(a) + [Last(a)] && b == Front(b) + [Last(b)];
    }
  }

  lemma BlankHasNoContent(s: string, i: nat)
    requires Trim(s) == "" && i < |s|
    ensures IsSpace(s[i])
  {
    TrimOfBlank(s);
  }

  /** The chunk becomes a unit unless it is blank. */
  method FlushChunk(units: seq<TextChunk>, text: string, gap: TextChunk) returns (more: seq<TextChunk>)
    requires IsSlice(gap, text) && AreUnits(units, text, gap.start)
    ensures AreUnits(more, text, gap.end)
    ensures more == units + (if IsBlank(gap.content) then [] else [gap])
  {
    hide Trim, IsSpace, IsBlank;
    more := if Trim(gap.content) != "" then units + [gap] else units;
    TrimOfBlank(gap.content);
    if gap.content == "" { TrimOfNothing(); }
    forall i | 0 <= i < gap.end && !IsSpace(text[i]) ensures exists c :: c in more && HoldsOffset(c, i) {
      if i < gap.start {
        var c :| c in units && HoldsOffset(c, i);
        assert c in more;
      } else {
        assert gap.content[i - gap.start] == text[i];
        if Trim(gap.content) == "" { BlankHasNoContent(gap.content, i - gap.start); }
        if Trim(gap.content) != "" { assert gap in more && HoldsOffset(gap, i); }
      }
    }
  }

  lemma TrimOfNothing()
    ensures Trim("") == ""
  {}

  lemma SkipBlank(units: seq<TextChunk>, text: string, from: nat, until: nat)
    requires from <= until <= |text| && AreUnits(units, text, from)
    requires forall i | from <= i < until :: IsSpace(text[i])
    ensures AreUnits(units, text, until)
  {
    hide IsSpace, IsSlice;
  }

  /** Every paragraph with content, as a slice of the text. */
  method Paragraphs(text: string, breaks: seq<Match>) returns (out: seq<TextChunk>)
    requires AreBreaks(breaks, text)
    ensures AreParagraphs(out, text, breaks, |breaks| + 1)
    ensures AreUnits(out, text, |text|)
  {
    hide AreUnits, AreParagraphs, Trim, IsSpace, IsBlank;
    NothingYet(text);
    NoParagraphYet(text, breaks);
    out := [];
    var start: nat := 0;
    for k := 0 to |breaks|
      invariant start <= |text| && AreUnits(out, text, start)
      invariant start == if k == 0 then 0 else breaks[k-1].end
      invariant AreParagraphs(out, text, breaks, k)
    {
      ghost var before := out;
      out := FlushChunk(out, text, TextChunk(text[start..breaks[k].start], start, breaks[k].start));
      NextParagraph(before, out, text, breaks, k);
      SkipBlank(out, text, breaks[k].start, breaks[k].end);
      start := breaks[k].end;
    }
    ghost var before := out;
    out := FlushChunk(out, text, TextChunk(text[start..|text|], start, |text|));
    NextParagraph(before, out, text, breaks, |breaks|);
  }

  lemma NextParagraph(units: seq<TextChunk>, more: seq<TextChunk>, text: string, breaks: seq<Match>, k: nat)
    requires AreMatches(breaks, |text|) && k <= |breaks| && AreParagraphs(units, text, breaks, k)
    requires var gap := Gap(text, breaks, k);
             more == units + (if IsBlank(gap.content) then [] else [gap]) && AreUnits(more, text, gap.end)
    ensures AreParagraphs(more, text, breaks, k + 1)
  {
    hide AreParagraphs, IsBlank;
    assert AreInOrder(more, |text|);
    ParagraphsGrow(units, more, text, breaks, k);
  }

  lemma NoParagraphYet(text: string, breaks: seq<Match>)
    requires AreMatches(breaks, |text|)
    ensures AreParagraphs([], text, breaks, 0)
  {}

  lemma NothingYet(text: string)
    ensures AreUnits([], text, 0)
  {}

  // ----- sentences -----

  /** Ends of the sentences of a paragraph: every match ends one, and so does the paragraph. */
  predicate IsSentenceEnd(n: nat, matches: seq<Match>, i: nat) {
    i == n || exists k | 0 <= k < |matches| :: matches[k].end == i
  }

  /** Boundaries of sentence groups: sentence ends from the start of the paragraph on. */
  predicate AreGroupBounds(bounds: seq<nat>, n: nat, matches: seq<Match>) {
    && |bounds| >= 1 && bounds[0] == 0
    && (forall j, k | 0 <= j < k < |bounds| :: bounds[j] < bounds[k])
    && (forall k | 0 < k < |bounds| :: bounds[k] <= n && IsSentenceEnd(n, matches, bounds[k]))
  }

  /** The text `[from, until)` in pieces of at most `maxChars` characters. */
  function HardCut(text: string, base: nat, from: nat, until: nat, maxChars: nat): seq<TextChunk>
    requires from <= until <= |text| && maxChars >= 1
    decreases until - from
  {
    if from == until then []
    else if until - from <= maxChars then [TextChunk(text[from..until], base + from, base + until)]
    else [TextChunk(text[from..from+maxChars], base + from, base + from + maxChars)]
         + HardCut(text, base, from + maxChars, until, maxChars)
  }

  /** Text within the limit is one piece, and of longer text every piece but the last is as long as the limit. */
  lemma {:induction false} PiecesAreFull(text: string, base: nat, from: nat, until: nat, maxChars: nat, k: nat)
    requires from < until <= |text| && maxChars >= 1 && k < |HardCut(text, base, from, until, maxChars)|
    ensures var cut, at := HardCut(text, base, from, until, maxChars), from + k * maxChars;
            && at < until && cut[k].start == base + at
            && cut[k].end == base + (if at + maxChars < until then at + maxChars else until)
            && (k + 1 < |cut| <==> at + maxChars < until)
    decreases until - from
  {
    CutUnfolds(text, base, from, until, maxChars);
    if k > 0 {
      PiecesAreFull(text, base, from + maxChars, until, maxChars, k - 1);
      assert from + maxChars + (k - 1) * maxChars == from + k * maxChars;
    }
  }

  /** All groups before the last bound, each cut down to size. */
  function Pieces(text: string, base: nat, bounds: seq<nat>, maxChars: nat): seq<TextChunk>
    requires maxChars >= 1 && forall k | 0 <= k < |bounds| :: bounds[k] <= |text|
    requires forall j, k | 0 <= j < k < |bounds| :: bounds[j] < bounds[k]
  {
    if |bounds| <= 1 then []
    else
      var n := |bounds| - 1;
      Pieces(text, base, bounds[..n], maxChars) + HardCut(text, base, bounds[n-1], bounds[n], maxChars)
  }

  /** A group ends only where the next sentence would no longer fit; one that is over-long is a single sentence. */
  predicate AreGreedy(bounds: seq<nat>, n: nat, matches: seq<Match>, maxChars: nat) {
    && (forall k, e: nat | 0 < k < |bounds| - 1 && bounds[k] < e <= n && IsSentenceEnd(n, matches, e) ::
      e - bounds[k-1] > maxChars)
    && (forall k, e: nat | 0 < k < |bounds| && bounds[k] - bounds[k-1] > maxChars && bounds[k-1] < e < bounds[k] ::
      !IsSentenceEnd(n, matches, e))
  }

  /** The sentence groups of a whole paragraph. */
  ghost predicate AreSentenceGroups(bounds: seq<nat>, n: nat, matches: seq<Match>, maxChars: nat) {
    AreGroupBounds(bounds, n, matches) && bounds[|bounds|-1] == n && AreGreedy(bounds, n, matches, maxChars)
  }

  /** There is one way to group greedily: two groupings agree bound by bound. */
  lemma {:induction false} GroupsAgree(a: seq<nat>, b: seq<nat>, n: nat, matches: seq<Match>, maxChars: nat, k: nat)
    requires AreSentenceGroups(a, n, matches, maxChars) && AreSentenceGroups(b, n, matches, maxChars) && k < |a|
    ensures k < |b| && a[k] == b[k]
  {
    hide IsSentenceEnd;
    if k > 0 {
      GroupsAgree(a, b, n, matches, maxChars, k - 1);
      assert a[k-1] < a[k] <= a[|a|-1];
      NextBoundAgrees(a, b, n, matches, maxChars, k);
      NextBoundAgrees(b, a, n, matches, maxChars, k);
    }
  }

  lemma NextBoundAgrees(a: seq<nat>, b: seq<nat>, n: nat, matches: seq<Match>, maxChars: nat, k: nat)
    requires AreSentenceGroups(a, n, matches, maxChars) && AreSentenceGroups(b, n, matches, maxChars)
    requires 0 < k < |a| && k < |b| && a[k-1] == b[k-1]
    ensures a[k] <= b[k]
  {
    hide IsSentenceEnd;
    assert a[k] <= n && b[k] <= n && b[k-1] < b[k];
  }

  lemma GroupsAreUnique(a: seq<nat>, b: seq<nat>, n: nat, matches: seq<Match>, maxChars: nat)
    requires AreSentenceGroups(a, n, matches, maxChars) && AreSentenceGroups(b, n, matches, maxChars)
    ensures a == b
  {
    hide AreGreedy, IsSentenceEnd;
    forall k: nat | k < |a| ensures k < |b| && a[k] == b[k] { GroupsAgree(a, b, n, matches, maxChars, k); }
    GroupsAgree(b, a, n, matches, maxChars, |b| - 1);
  }

  /** The group `[from, until)`, cut down to size when it is over-long. */
  method PushGroup(out: seq<TextChunk>, text: string, base: nat, from: nat, until: nat, maxChars: nat)
    returns (more: seq<TextChunk>)
    requires from <= until <= |text| && maxChars >= 1
    ensures more == out + HardCut(text, base, from, until, maxChars)
  {
    if from == until { return out; }
    if until - from <= maxChars {
      return out + [TextChunk(text[from..until], base + from, base + until)];
    }
    assert HardCut(text, base, until, until, maxChars) == [];
    hide HardCut;
    more := out;
    var at := from;
    while at < until
      invariant from <= at && (at <= until || at - maxChars < until)
      invariant more + HardCut(text, base, if at < until then at else until, until, maxChars)
          == out + HardCut(text, base, from, until, maxChars)
    {
      var end := if at + maxChars < until then at + maxChars else until;
      var piece := TextChunk(text[at..end], base + at, base + end);
      CutUnfolds(text, base, at, until, maxChars);
      PushPiece(more, piece, HardCut(text, base, end, until, maxChars));
      more := more + [piece];
      at := at + maxChars;
    }
  }

  lemma CutUnfolds(text: string, base: nat, at: nat, until: nat, maxChars: nat)
    requires at < until <= |text| && maxChars >= 1
    ensures var end := if at + maxChars < until then at + maxChars else until;
            HardCut(text, base, at, until, maxChars)
            == [TextChunk(text[at..end], base + at, base + end)] + HardCut(text, base, end, until, maxChars)
  {}

  lemma PushPiece<T>(a: seq<T>, x: T, b: seq<T>)
    ensures a + ([x] + b) == a + [x] + b
  {}

  predicate NoEndBetween(n: nat, matches: seq<Match>, from: nat, until: nat) {
    forall i: nat | from < i < until :: !IsSentenceEnd(n, matches, i)
  }

  lemma NextEnd(n: nat, matches: seq<Match>, k: nat)
    requires AreMatches(matches, n) && k <= |matches|
    ensures var from := if k == 0 then 0 else matches[k-1].end;
            var until := if k < |matches| then matches[k].end else n;
            NoEndBetween(n, matches, from, until) && IsSentenceEnd(n, matches, until)
  {}

  /** The groups up to `cursor`: those before the open one closed, the open one from the last bound on. */
  ghost predicate AreGroups(bounds: seq<nat>, cursor: nat, n: nat, matches: seq<Match>, maxChars: nat) {
    && AreGroupBounds(bounds, n, matches) && bounds[|bounds|-1] <= cursor <= n
    && (cursor == bounds[|bounds|-1] ==> bounds == [0])
    && (cursor > bounds[|bounds|-1] ==>
          IsSentenceEnd(n, matches, cursor) && AreGreedy(bounds + [cursor], n, matches, maxChars))
  }

  lemma BoundsGrow(bounds: seq<nat>, c: nat, n: nat, matches: seq<Match>)
    requires AreGroupBounds(bounds, n, matches) && bounds[|bounds|-1] < c <= n && IsSentenceEnd(n, matches, c)
    ensures AreGroupBounds(bounds + [c], n, matches)
  {
    hide IsSentenceEnd;
  }

  /** The next sentence joins the open group. */
  lemma GroupExtends(bounds: seq<nat>, cursor: nat, e: nat, n: nat, matches: seq<Match>, maxChars: nat)
    requires AreGroups(bounds, cursor, n, matches, maxChars) && cursor < e <= n && IsSentenceEnd(n, matches, e)
    requires NoEndBetween(n, matches, cursor, e)
    requires e - bounds[|bounds|-1] <= maxChars || cursor == bounds[|bounds|-1]
    ensures AreGroups(bounds, e, n, matches, maxChars)
  {
    hide IsSentenceEnd;
    var before, after := bounds + [cursor], bounds + [e];
    assert forall k | 0 <= k < |bounds| :: before[k] == after[k] == bounds[k];
  }

  lemma GreedyCloses(bounds: seq<nat>, e: nat, n: nat, matches: seq<Match>, maxChars: nat)
    requires |bounds| >= 2 && AreGreedy(bounds, n, matches, maxChars)
    requires var last := bounds[|bounds|-1]; last < e <= n && NoEndBetween(n, matches, last, e)
    requires e - bounds[|bounds|-2] > maxChars
    ensures AreGreedy(bounds + [e], n, matches, maxChars)
  {
    hide IsSentenceEnd;
    var after := bounds + [e];
    assert forall k | 0 <= k < |bounds| :: after[k] == bounds[k];
  }

  /** The next sentence does not fit: the open group is closed and a new one opened. */
  lemma GroupCloses(bounds: seq<nat>, cursor: nat, e: nat, n: nat, matches: seq<Match>, maxChars: nat)
    requires AreGroups(bounds, cursor, n, matches, maxChars) && cursor < e <= n && IsSentenceEnd(n, matches, e)
    requires NoEndBetween(n, matches, cursor, e)
    requires e - bounds[|bounds|-1] > maxChars && cursor > bounds[|bounds|-1]
    ensures AreGroups(bounds + [cursor], e, n, matches, maxChars)
  {
    hide IsSentenceEnd, AreGreedy, NoEndBetween;
    BoundsGrow(bounds, cursor, n, matches);
    GreedyCloses(bounds + [cursor], e, n, matches, maxChars);
    hide AreGroupBounds;
  }

  /** Over-long text in sentence groups: greedy, and each cut down to size. */
  method Sentences(paragraph: string, base: nat, matches: seq<Match>, maxChars: nat)
    returns (out: seq<TextChunk>, ghost bounds: seq<nat>)
    requires AreMatches(matches, |paragraph|) && maxChars >= 1 && paragraph != ""
    ensures AreSentenceGroups(bounds, |paragraph|, matches, maxChars)
    ensures out == Pieces(paragraph, base, bounds, maxChars)
  {
    hide AreGreedy, IsSentenceEnd, NoEndBetween, HardCut, Pieces;
    ghost var n := |paragraph|;
    out, bounds := [], [0];
    var currentStart, cursor := 0, 0;
    NoPieces(paragraph, base, maxChars);
    for k := 0 to |matches|
      invariant cursor == if k == 0 then 0 else matches[k-1].end
      invariant AreGroups(bounds, cursor, n, matches, maxChars) && bounds[|bounds|-1] == currentStart <= cursor
      invariant out == Pieces(paragraph, base, bounds, maxChars)
    {
      NextEnd(n, matches, k);
      out, currentStart, cursor, bounds := AddSentence(out, paragraph, base, matches, currentStart, cursor,
        matches[k].end, maxChars, bounds);
    }
    if cursor < |paragraph| {
      NextEnd(n, matches, |matches|);
      out, currentStart, cursor, bounds := AddSentence(out, paragraph, base, matches, currentStart, cursor,
        |paragraph|, maxChars, bounds);
    }
    out := PushGroup(out, paragraph, base, currentStart, cursor, maxChars);
    LastGroup(paragraph, base, bounds, matches, maxChars);
    bounds := bounds + [n];
  }

  lemma NoPieces(paragraph: string, base: nat, maxChars: nat)
    requires maxChars >= 1
    ensures Pieces(paragraph, base, [0], maxChars) == []
  {}

  lemma PiecesOfMore(paragraph: string, base: nat, bounds: seq<nat>, c: nat, matches: seq<Match>, maxChars: nat)
    requires AreGroupBounds(bounds, |paragraph|, matches) && bounds[|bounds|-1] < c <= |paragraph| && maxChars >= 1
    requires IsSentenceEnd(|paragraph|, matches, c)
    ensures AreGroupBounds(bounds + [c], |paragraph|, matches)
    ensures Pieces(paragraph, base, bounds + [c], maxChars)
         == Pieces(paragraph, base, bounds, maxChars) + HardCut(paragraph, base, bounds[|bounds|-1], c, maxChars)
  {
    BoundsGrow(bounds, c, |paragraph|, matches);
    hide HardCut, IsSentenceEnd;
    assert (bounds + [c])[..|bounds|] == bounds;
  }

  lemma LastGroup(paragraph: string, base: nat, bounds: seq<nat>, matches: seq<Match>, maxChars: nat)
    requires AreGroups(bounds, |paragraph|, |paragraph|, matches, maxChars) && bounds[|bounds|-1] < |paragraph|
        && maxChars >= 1
    ensures AreGroupBounds(bounds + [|paragraph|], |paragraph|, matches)
    ensures AreGreedy(bounds + [|paragraph|], |paragraph|, matches, maxChars)
    ensures Pieces(paragraph, base, bounds + [|paragraph|], maxChars)
         == Pieces(paragraph, base, bounds, maxChars)
           + HardCut(paragraph, base, bounds[|bounds|-1], |paragraph|, maxChars)
  {
    hide AreGreedy, HardCut, Pieces;
    PiecesOfMore(paragraph, base, bounds, |paragraph|, matches, maxChars);
  }

  /** One more sentence, `[cursor, end)`: it joins the open group or closes it. */
  method AddSentence(out: seq<TextChunk>, paragraph: string, base: nat, ghost matches: seq<Match>,
                     currentStart: nat, cursor: nat, end: nat, maxChars: nat, ghost bounds: seq<nat>)
    returns (out': seq<TextChunk>, currentStart': nat, cursor': nat, ghost bounds': seq<nat>)
    requires AreGroups(bounds, cursor, |paragraph|, matches, maxChars) && maxChars >= 1
    requires bounds[|bounds|-1] == currentStart && cursor < end <= |paragraph|
    requires IsSentenceEnd(|paragraph|, matches, end) && NoEndBetween(|paragraph|, matches, cursor, end)
    requires out == Pieces(paragraph, base, bounds, maxChars)
    ensures AreGroups(bounds', cursor', |paragraph|, matches, maxChars) && cursor' == end
    ensures bounds'[|bounds'|-1] == currentStart'
    ensures out' == Pieces(paragraph, base, bounds', maxChars)
  {
    hide AreGreedy, IsSentenceEnd, NoEndBetween, HardCut, Pieces;
    if end - currentStart <= maxChars || cursor == currentStart {
      GroupExtends(bounds, cursor, end, |paragraph|, matches, maxChars);
      return out, currentStart, end, bounds;
    }
    GroupCloses(bounds, cursor, end, |paragraph|, matches, maxChars);
    PiecesOfMore(paragraph, base, bounds, cursor, matches, maxChars);
    out' := PushGroup(out, paragraph, base, currentStart, cursor, maxChars);
    return out', cursor, end, bounds + [cursor];
  }

  // ----- pieces cover their paragraph -----

  /** Consecutive slices of a text from one offset to another, none longer than `maxChars`. */
  ghost predicate IsChain(chunks: seq<TextChunk>, text: string, from: nat, until: nat, maxChars: nat) {
    && (chunks == [] ==> from == until)
    && (chunks != [] ==> chunks[0].start == from && chunks[|chunks|-1].end == until)
    && (forall c | c in chunks :: IsSlice(c, text) && c.start < c.end <= c.start + maxChars)
    && (forall k | 0 < k < |chunks| :: chunks[k-1].end == chunks[k].start)
  }

  lemma ChainConcat(a: seq<TextChunk>, b: seq<TextChunk>, text: string, i: nat, j: nat, k: nat, maxChars: nat)
    requires IsChain(a, text, i, j, maxChars) && IsChain(b, text, j, k, maxChars)
    ensures IsChain(a + b, text, i, k, maxChars)
  {
    hide IsSlice;
  }

  lemma PieceIsSlice(c: TextChunk, text: string)
    requires c.start <= c.end <= |text| && c.content == text[c.start..c.end]
    ensures IsSlice(c, text)
  {}

  lemma {:induction false} HardCutIsChain(paragraph: string, text: string, base: nat, from: nat, until: nat,
        maxChars: nat)
    requires from <= until <= |paragraph| && maxChars >= 1 && base + |paragraph| <= |text|
        && paragraph == text[base..base+|paragraph|]
    ensures IsChain(HardCut(paragraph, base, from, until, maxChars), text, base + from, base + until, maxChars)
    decreases until - from
  {
    hide HardCut, IsSlice, IsChain;
    if from < until {
      var end := if from + maxChars < until then from + maxChars else until;
      CutUnfolds(paragraph, base, from, until, maxChars);
      HardCutIsChain(paragraph, text, base, end, until, maxChars);
      var piece := TextChunk(paragraph[from..end], base + from, base + end);
      SliceOfSlice(text, base, base + |paragraph|, from, end);
      PieceIsSlice(piece, text);
      OneLinkChain(piece, text, maxChars);
      ChainConcat([piece], HardCut(paragraph, base, end, until, maxChars), text, base + from, base + end,
                  base + until, maxChars);
    } else {
      CutOfNothing(paragraph, base, from, maxChars);
      EmptyChain(text, base + from, maxChars);
    }
  }

  lemma CutOfNothing(paragraph: string, base: nat, from: nat, maxChars: nat)
    requires from <= |paragraph| && maxChars >= 1
    ensures HardCut(paragraph, base, from, from, maxChars) == []
  {}

  lemma {:induction false} PiecesAreChain(paragraph: string, text: string, base: nat, bounds: seq<nat>, maxChars: nat)
    requires maxChars >= 1 && |bounds| >= 1 && bounds[0] == 0
        && (forall k | 0 <= k < |bounds| :: bounds[k] <= |paragraph|)
    requires forall j, k | 0 <= j < k < |bounds| :: bounds[j] < bounds[k]
    requires base + |paragraph| <= |text| && paragraph == text[base..base+|paragraph|]
    ensures IsChain(Pieces(paragraph, base, bounds, maxChars), text, base, base + bounds[|bounds|-1], maxChars)
  {
    hide IsChain, HardCut;
    var n := |bounds| - 1;
    if n == 0 {
      EmptyChain(text, base, maxChars);
    } else {
      PiecesAreChain(paragraph, text, base, bounds[..n], maxChars);
      HardCutIsChain(paragraph, text, base, bounds[n-1], bounds[n], maxChars);
      ChainConcat(Pieces(paragraph, base, bounds[..n], maxChars),
        HardCut(paragraph, base, bounds[n-1], bounds[n], maxChars),
                  text, base, base + bounds[n-1], base + bounds[n], maxChars);
    }
  }

  lemma EmptyChain(text: string, i: nat, maxChars: nat)
    ensures IsChain([], text, i, i, maxChars)
  {}

  lemma OneLinkChain(c: TextChunk, text: string, maxChars: nat)
    requires IsSlice(c, text) && c.start < c.end <= c.start + maxChars
    ensures IsChain([c], text, c.start, c.end, maxChars)
  {}

  lemma {:induction false} ChainIsOrdered(chunks: seq<TextChunk>, text: string, from: nat, until: nat, maxChars: nat,
        j: nat, k: nat)
    requires IsChain(chunks, text, from, until, maxChars) && j <= k < |chunks|
    ensures chunks[j].start <= chunks[k].start && chunks[j].end <= chunks[k].end
    ensures j < k ==> chunks[j].end <= chunks[k].start
    decreases k - j
  {
    hide IsSlice;
    assert chunks[k] in chunks;
    if j < k {
      assert chunks[k-1].end == chunks[k].start;
      ChainIsOrdered(chunks, text, from, until, maxChars, j, k - 1);
    }
  }

  /** A chain is in order, stays within its offsets and leaves none of them out. */
  lemma ChainIsWithin(chunks: seq<TextChunk>, text: string, from: nat, until: nat, maxChars: nat)
    requires IsChain(chunks, text, from, until, maxChars)
    ensures AreInOrder(chunks, until)
    ensures forall k | 0 <= k < |chunks| :: from <= chunks[k].start
  {
    forall k | 0 <= k < |chunks| ensures from <= chunks[k].start < chunks[k].end <= until {
      assert chunks[k] in chunks;
      ChainIsOrdered(chunks, text, from, until, maxChars, 0, k);
      ChainIsOrdered(chunks, text, from, until, maxChars, k, |chunks| - 1);
    }
    forall j, k | 0 <= j < k < |chunks| ensures chunks[j].end <= chunks[k].start {
      ChainIsOrdered(chunks, text, from, until, maxChars, j, k);
    }
  }

  lemma {:induction false} ChainHolds(chunks: seq<TextChunk>, text: string, from: nat, until: nat, maxChars: nat,
        i: nat) returns (k: nat)
    requires IsChain(chunks, text, from, until, maxChars) && from <= i < until
    ensures k < |chunks| && HoldsOffset(chunks[k], i)
  {
    hide IsSlice;
    var n := |chunks| - 1;
    if i >= chunks[n].start {
      k := n;
    } else {
      var before := chunks[..n];
      assert chunks[n] in chunks && n > 0;
      assert IsChain(before, text, from, chunks[n].start, maxChars);
      k := ChainHolds(before, text, from, chunks[n].start, maxChars, i);
    }
  }

  // ----- units -----

  /** Units small enough to be merged: the paragraphs, and the pieces of over-long ones. */
  ghost predicate AreSmall(units: seq<TextChunk>, maxChars: nat) {
    forall c | c in units :: |c.content| <= maxChars
  }

  lemma UnitsGrow(units: seq<TextChunk>, chain: seq<TextChunk>, text: string, from: nat, start: nat, until: nat,
        maxChars: nat)
    requires from <= start <= until <= |text| && AreUnits(units, text, from) && AreSmall(units, maxChars)
    requires forall i | from <= i < start :: IsSpace(text[i])
    requires IsChain(chain, text, start, until, maxChars)
    ensures AreUnits(units + chain, text, until) && AreSmall(units + chain, maxChars)
  {
    hide IsSpace;
    ChainIsWithin(chain, text, start, until, maxChars);
    var more := units + chain;
    forall i | 0 <= i < until && !IsSpace(text[i]) ensures exists c :: c in more && HoldsOffset(c, i) {
      if i < from {
        var c :| c in units && HoldsOffset(c, i);
        assert c in more;
      } else {
        var k := ChainHolds(chain, text, start, until, maxChars, i);
        assert chain[k] in more;
      }
    }
  }

  /** Between one paragraph and the next there is no content. */
  lemma GapIsBlank(paragraphs: seq<TextChunk>, text: string, k: nat)
    requires AreUnits(paragraphs, text, |text|) && k <= |paragraphs|
    ensures var from := if k == 0 then 0 else paragraphs[k-1].end;
            var until := if k == |paragraphs| then |text| else paragraphs[k].start;
            from <= until <= |text| && forall i | from <= i < until :: IsSpace(text[i])
  {
    hide IsSpace, IsSlice;
    var from := if k == 0 then 0 else paragraphs[k-1].end;
    var until := if k == |paragraphs| then |text| else paragraphs[k].start;
    forall i | from <= i < until ensures IsSpace(text[i]) {
      if !IsSpace(text[i]) {
        var c :| c in paragraphs && HoldsOffset(c, i);
        var j :| 0 <= j < |paragraphs| && paragraphs[j] == c;
        NotInGap(paragraphs, text, k, j, i);
      }
    }
  }

  lemma NotInGap(paragraphs: seq<TextChunk>, text: string, k: nat, j: nat, i: int)
    requires AreInOrder(paragraphs, |text|) && k <= |paragraphs| && j < |paragraphs|
    requires (if k == 0 then 0 else paragraphs[k-1].end) <= i
    requires i < (if k == |paragraphs| then |text| else paragraphs[k].start)
    ensures !HoldsOffset(paragraphs[j], i)
  {}

  /** The predicate the sentence pattern has to meet. */
  ghost predicate FindsMatches(sentenceEnds: string -> seq<Match>) {
    forall s :: AreMatches(sentenceEnds(s), |s|)
  }

  /** A paragraph that fits is one unit; an over-long one is cut into its sentence groups. */
  ghost predicate AreUnitsOf(units: seq<TextChunk>, p: TextChunk, ends: seq<Match>, maxChars: nat)
    requires maxChars >= 1
  {
    if |p.content| <= maxChars then units == [p]
    else exists bounds ::
        && AreSentenceGroups(bounds, |p.content|, ends, maxChars)
        && units == Pieces(p.content, p.start, bounds, maxChars)
  }

  /** The units of all paragraphs, one paragraph behind the other. */
  ghost predicate AreUnitsOfAll(units: seq<TextChunk>, paragraphs: seq<TextChunk>, sentenceEnds: string -> seq<Match>,
        maxChars: nat)
    requires maxChars >= 1
    decreases |paragraphs|
  {
    if paragraphs == [] then units == []
    else
      var p := Last(paragraphs);
      exists m: nat | m <= |units| ::
        && AreUnitsOfAll(units[..m], Front(paragraphs), sentenceEnds, maxChars)
        && AreUnitsOf(units[m..], p, sentenceEnds(p.content), maxChars)
  }

  lemma UnitsOfMore(units: seq<TextChunk>, more: seq<TextChunk>, paragraphs: seq<TextChunk>, k: nat,
        sentenceEnds: string -> seq<Match>, maxChars: nat)
    requires k < |paragraphs| && maxChars >= 1 && AreUnitsOfAll(units, paragraphs[..k], sentenceEnds, maxChars)
    requires AreUnitsOf(more, paragraphs[k], sentenceEnds(paragraphs[k].content), maxChars)
    ensures AreUnitsOfAll(units + more, paragraphs[..k+1], sentenceEnds, maxChars)
  {
    hide AreUnitsOf;
    var all := units + more;
    assert all[..|units|] == units && all[|units|..] == more && Front(paragraphs[..k+1]) == paragraphs[..k];
  }

  /** A paragraph's units are determined, so are those of all of them. */
  lemma UnitsOfAreUnique(a: seq<TextChunk>, b: seq<TextChunk>, p: TextChunk, ends: seq<Match>, maxChars: nat)
    requires maxChars >= 1 && AreUnitsOf(a, p, ends, maxChars) && AreUnitsOf(b, p, ends, maxChars)
    ensures a == b
  {
    hide AreGreedy, IsSentenceEnd, Pieces;
    if |p.content| > maxChars {
      var x :| AreSentenceGroups(x, |p.content|, ends, maxChars) && a == Pieces(p.content, p.start, x, maxChars);
      var y :| AreSentenceGroups(y, |p.content|, ends, maxChars) && b == Pieces(p.content, p.start, y, maxChars);
      GroupsAreUnique(x, y, |p.content|, ends, maxChars);
    }
  }

  lemma SplitUnits(units: seq<TextChunk>, paragraphs: seq<TextChunk>, sentenceEnds: string -> seq<Match>, maxChars: nat)
    returns (m: nat)
    requires maxChars >= 1 && paragraphs != [] && AreUnitsOfAll(units, paragraphs, sentenceEnds, maxChars)
    ensures m <= |units| && AreUnitsOfAll(units[..m], Front(paragraphs), sentenceEnds, maxChars)
    ensures AreUnitsOf(units[m..], Last(paragraphs), sentenceEnds(Last(paragraphs).content), maxChars)
  {
    hide AreUnitsOf;
    var p := Last(paragraphs);
    m :| m <= |units| && AreUnitsOfAll(units[..m], Front(paragraphs), sentenceEnds, maxChars)
         && AreUnitsOf(units[m..], p, sentenceEnds(p.content), maxChars);
  }

  lemma {:induction false} UnitsAreUnique(a: seq<TextChunk>, b: seq<TextChunk>, paragraphs: seq<TextChunk>,
        sentenceEnds: string -> seq<Match>, maxChars: nat)
    requires maxChars >= 1
    requires AreUnitsOfAll(a, paragraphs, sentenceEnds, maxChars)
        && AreUnitsOfAll(b, paragraphs, sentenceEnds, maxChars)
    ensures a == b
    decreases |paragraphs|
  {
    if paragraphs != [] {
      hide AreUnitsOf, AreUnitsOfAll;
      var i := SplitUnits(a, paragraphs, sentenceEnds, maxChars);
      var j := SplitUnits(b, paragraphs, sentenceEnds, maxChars);
      UnitsAreUnique(a[..i], b[..j], Front(paragraphs), sentenceEnds, maxChars);
      UnitsOfAreUnique(a[i..], b[j..], Last(paragraphs), sentenceEnds(Last(paragraphs).content), maxChars);
      assert a == a[..i] + a[i..] && b == b[..j] + b[j..];
    }
  }

  method Units(text: string, paragraphs: seq<TextChunk>, sentenceEnds: string -> seq<Match>, maxChars: nat)
    returns (units: seq<TextChunk>)
    requires AreUnits(paragraphs, text, |text|) && FindsMatches(sentenceEnds) && maxChars >= 1
    ensures AreUnitsOfAll(units, paragraphs, sentenceEnds, maxChars)
    ensures AreUnits(units, text, |text|) && AreSmall(units, maxChars)
  {
    hide AreUnits, AreSmall, IsSpace, IsChain, FindsMatches, AreUnitsOf, AreUnitsOfAll;
    NothingYet(text);
    units := [];
    NoneAreSmall(maxChars);
    NoUnits(sentenceEnds, maxChars);
    for k := 0 to |paragraphs|
      invariant (if k == 0 then 0 else paragraphs[k-1].end) <= |text|
      invariant AreUnits(units, text, if k == 0 then 0 else paragraphs[k-1].end) && AreSmall(units, maxChars)
      invariant AreUnitsOfAll(units, paragraphs[..k], sentenceEnds, maxChars)
    {
      var p := paragraphs[k];
      GapIsBlank(paragraphs, text, k);
      ParagraphIsSlice(paragraphs, text, k);
      var more := UnitsOfParagraph(text, p, sentenceEnds, maxChars);
      UnitsGrow(units, more, text, if k == 0 then 0 else paragraphs[k-1].end, p.start, p.end, maxChars);
      UnitsOfMore(units, more, paragraphs, k, sentenceEnds, maxChars);
      units := units + more;
    }
    assert paragraphs[..|paragraphs|] == paragraphs;
    GapIsBlank(paragraphs, text, |paragraphs|);
    SkipBlank(units, text, if paragraphs == [] then 0 else paragraphs[|paragraphs|-1].end, |text|);
  }

  lemma NoUnits(sentenceEnds: string -> seq<Match>, maxChars: nat)
    requires maxChars >= 1
    ensures AreUnitsOfAll([], [], sentenceEnds, maxChars)
  {}

  lemma NoneAreSmall(maxChars: nat)
    ensures AreSmall([], maxChars)
  {}

  lemma ParagraphIsSlice(paragraphs: seq<TextChunk>, text: string, k: nat)
    requires AreUnits(paragraphs, text, |text|) && k < |paragraphs|
    ensures IsSlice(paragraphs[k], text) && paragraphs[k].start < paragraphs[k].end
  {
    assert paragraphs[k] in paragraphs;
  }

  method UnitsOfParagraph(text: string, p: TextChunk, sentenceEnds: string -> seq<Match>, maxChars: nat)
    returns (units: seq<TextChunk>)
    requires IsSlice(p, text) && p.start < p.end && FindsMatches(sentenceEnds) && maxChars >= 1
    ensures IsChain(units, text, p.start, p.end, maxChars)
    ensures AreUnitsOf(units, p, sentenceEnds(p.content), maxChars)
  {
    hide AreGreedy, IsSentenceEnd, Pieces;
    if |p.content| <= maxChars {
      OneLinkChain(p, text, maxChars);
      return [TextChunk(p.content, p.start, p.start + |p.content|)];
    }
    ghost var bounds;
    units, bounds := Sentences(p.content, p.start, sentenceEnds(p.content), maxChars);
    PiecesAreChain(p.content, text, p.start, bounds, maxChars);
  }
}
