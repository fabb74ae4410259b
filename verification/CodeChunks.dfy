/** Source files cut into definition blocks by indentation, and over-long blocks into overlapping windows. */
module CodeChunks {
  import opened JsText

  datatype Kind = Function | Class | Block | Window

  datatype CodeBlock = CodeBlock(kind: Kind, symbol: Option<string>, startLine: nat, lines: seq<string>)

  datatype CodeChunk = CodeChunk(content: string, startLine: nat, endLine: nat, symbol: Option<string>, kind: Kind)

  /** A definition a line announces; the patterns that recognize one are taken as given. */
  datatype Definition = Definition(kind: Kind, symbol: string)

  const MAX_LINES := 120
  const OVERLAP_LINES := 15

  // ----- one line -----

  /** Leading white space; a tab counts twice. */
  function IndentOf(line: string): nat {
    if line != "" && IsSpace(line[0]) then (if line[0] == '\t' then 2 else 1) + IndentOf(line[1..]) else 0
  }

  predicate IsBlankLine(line: string) {
    Trim(line) == ""
  }

  predicate IsComment(line: string) {
    "//" <= Trim(line) || "#" <= Trim(line) || "*" <= Trim(line)
  }

  function DefinitionIn(line: string, detect: string -> Option<Definition>): Option<Definition> {
    if IsBlankLine(line) || IsComment(line) then None else detect(line)
  }

  function Count(line: string, chars: string): nat {
    if line == "" then 0 else (if line[0] in chars then 1 else 0) + Count(line[1..], chars)
  }

  /** More brackets open on the line than close: it continues an expression. */
  predicate OpensMore(line: string) {
    Count(line, "[({") > Count(line, "])}")
  }

  // ----- block boundaries -----

  /** A line starts a block when it defines something at or above the scope, or falls back to it otherwise. */
  predicate BreaksScope(line: string, scope: nat, detect: string -> Option<Definition>) {
    IndentOf(line) <= scope && (DefinitionIn(line, detect).Some? || (!IsBlankLine(line) && !OpensMore(line)))
  }

  /** The indentation of the block open before line `i`. */
  function ScopeAt(lines: seq<string>, detect: string -> Option<Definition>, i: nat): nat
    requires 0 < i <= |lines|
    decreases i, 0
  {
    if Starts(lines, detect, i - 1) then IndentOf(lines[i-1]) else ScopeAt(lines, detect, i - 1)
  }

  predicate Starts(lines: seq<string>, detect: string -> Option<Definition>, i: nat)
    requires i < |lines|
    decreases i, 1
  {
    i == 0 || BreaksScope(lines[i], ScopeAt(lines, detect, i), detect)
  }

  /** The lines `[from, until)` are one block: it starts there, nothing starts inside. */
  predicate IsSection(lines: seq<string>, detect: string -> Option<Definition>, from: nat, until: nat) {
    && from < until <= |lines| && Starts(lines, detect, from)
    && (forall i | from < i < until :: !Starts(lines, detect, i))
  }

  predicate HasContent(lines: seq<string>) {
    exists k | 0 <= k < |lines| :: !IsBlankLine(lines[k])
  }

  function KindOf(d: Option<Definition>): Kind {
    if d.Some? then d.value.kind else Block
  }

  function SymbolOf(d: Option<Definition>): Option<string> {
    if d.Some? then Some(d.value.symbol) else None
  }

  function SectionBlock(lines: seq<string>, detect: string -> Option<Definition>, from: nat, until: nat): CodeBlock
    requires from < until <= |lines|
  {
    var d := DefinitionIn(lines[from], detect);
    CodeBlock(KindOf(d), SymbolOf(d), from + 1, lines[from..until])
  }

  /** The line behind a block. */
  function End(b: CodeBlock): int {
    b.startLine + |b.lines| - 1
  }

  /** A section of the source that holds something. */
  predicate IsBlockOf(b: CodeBlock, lines: seq<string>, detect: string -> Option<Definition>) {
    && 1 <= b.startLine <= End(b) <= |lines|
    && IsSection(lines, detect, b.startLine - 1, End(b))
    && (End(b) < |lines| ==> Starts(lines, detect, End(b)))
    && b == SectionBlock(lines, detect, b.startLine - 1, End(b))
    && HasContent(b.lines)
  }

  predicate HoldsLine(b: CodeBlock, i: int) {
    b.startLine <= i + 1 <= End(b)
  }

  predicate AreInOrder(blocks: seq<CodeBlock>, n: nat) {
    && (forall k | 0 <= k < |blocks| :: End(blocks[k]) <= n)
    && (forall j, k | 0 <= j < k < |blocks| :: End(blocks[j]) < blocks[k].startLine)
  }

  ghost predicate HoldAllContent(blocks: seq<CodeBlock>, lines: seq<string>, n: nat)
    requires n <= |lines|
  {
    forall i | 0 <= i < n && !IsBlankLine(lines[i]) :: exists b :: b in blocks && HoldsLine(b, i)
  }

  /** The blocks of the first `n` lines: sections with content, in order, leaving out blank lines only. */
  ghost predicate AreBlocksOf(blocks: seq<CodeBlock>, lines: seq<string>, detect: string -> Option<Definition>, n: nat)
    requires n <= |lines|
  {
    && (forall b | b in blocks :: IsBlockOf(b, lines, detect))
    && AreInOrder(blocks, n)
    && HoldAllContent(blocks, lines, n)
  }

  // ----- splitting -----

  /** The open section `[from, until)` is closed: kept unless it is blank. */
  method Close(blocks: seq<CodeBlock>, lines: seq<string>, detect: string -> Option<Definition>, from: nat, until: nat)
    returns (more: seq<CodeBlock>)
    requires IsSection(lines, detect, from, until) && AreBlocksOf(blocks, lines, detect, from)
    requires until < |lines| ==> Starts(lines, detect, until)
    ensures AreBlocksOf(more, lines, detect, until)
  {
    hide IsBlankLine, Starts, DefinitionIn;
    var current := SectionBlock(lines, detect, from, until);
    var content := false;
    for k := 0 to |current.lines|
      invariant content <==> exists j | 0 <= j < k :: !IsBlankLine(current.lines[j])
    {
      if !IsBlankLine(current.lines[k]) { content := true; }
    }
    more := if content then blocks + [current] else blocks;
    SectionCloses(blocks, lines, detect, from, until);
  }

  lemma OrderGrows(blocks: seq<CodeBlock>, current: CodeBlock, from: nat)
    requires AreInOrder(blocks, from) && from < current.startLine
    ensures AreInOrder(blocks + [current], if End(current) > from then End(current) else from)
  {}

  lemma ContentIsHeld(blocks: seq<CodeBlock>, lines: seq<string>, detect: string -> Option<Definition>, from: nat,
        until: nat)
    requires from < until <= |lines| && HoldAllContent(blocks, lines, from)
    ensures var current := SectionBlock(lines, detect, from, until);
            HoldAllContent(if HasContent(current.lines) then blocks + [current] else blocks, lines, until)
  {
    hide IsBlankLine, DefinitionIn;
    var current := SectionBlock(lines, detect, from, until);
    var more := if HasContent(current.lines) then blocks + [current] else blocks;
    forall i | 0 <= i < until && !IsBlankLine(lines[i]) ensures exists b :: b in more && HoldsLine(b, i) {
      if i < from {
        var b :| b in blocks && HoldsLine(b, i);
        assert b in more;
      } else {
        assert current.lines[i - from] == lines[i];
        assert current in more && HoldsLine(current, i);
      }
    }
  }

  lemma SectionCloses(blocks: seq<CodeBlock>, lines: seq<string>, detect: string -> Option<Definition>, from: nat,
        until: nat)
    requires IsSection(lines, detect, from, until) && AreBlocksOf(blocks, lines, detect, from)
    requires until < |lines| ==> Starts(lines, detect, until)
    ensures var current := SectionBlock(lines, detect, from, until);
            AreBlocksOf(if HasContent(current.lines) then blocks + [current] else blocks, lines, detect, until)
  {
    hide HasContent, HoldAllContent, DefinitionIn, Starts;
    var current := SectionBlock(lines, detect, from, until);
    ContentIsHeld(blocks, lines, detect, from, until);
    OrderGrows(blocks, current, from);
  }

  method SplitBlocks(lines: seq<string>, detect: string -> Option<Definition>) returns (blocks: seq<CodeBlock>)
    ensures AreBlocksOf(blocks, lines, detect, |lines|)
  {
    hide AreBlocksOf, IndentOf, IsBlankLine, DefinitionIn, OpensMore;
    blocks := [];
    NoBlocksYet(lines, detect);
    if lines == [] { return; }
    var from, scope := 0, IndentOf(lines[0]);
    for i := 1 to |lines|
      invariant from < i && IsSection(lines, detect, from, i) && AreBlocksOf(blocks, lines, detect, from)
      invariant scope == ScopeAt(lines, detect, i)
    {
      var line := lines[i];
      var matched := DefinitionIn(line, detect);
      if matched.Some? && IndentOf(line) <= scope {
        blocks := Close(blocks, lines, detect, from, i);
        from, scope := i, IndentOf(line);
      } else if !IsBlankLine(line) && IndentOf(line) <= scope && !OpensMore(line) && matched.None? {
        blocks := Close(blocks, lines, detect, from, i);
        from, scope := i, IndentOf(line);
      }
    }
    blocks := Close(blocks, lines, detect, from, |lines|);
  }

  lemma NoBlocksYet(lines: seq<string>, detect: string -> Option<Definition>)
    ensures AreBlocksOf([], lines, detect, 0)
  {}

  /** A line is in at most one block. */
  lemma OneBlockPerLine(blocks: seq<CodeBlock>, lines: seq<string>, detect: string -> Option<Definition>, j: nat,
        k: nat, i: nat)
    requires AreBlocksOf(blocks, lines, detect, |lines|) && j < |blocks| && k < |blocks|
    requires HoldsLine(blocks[j], i) && HoldsLine(blocks[k], i)
    ensures j == k
  {
    hide HoldAllContent, HasContent, IsSection, SectionBlock;
    assert blocks[j] in blocks && blocks[k] in blocks;
  }

  // ----- windows -----

  function QualifiedSymbol(symbol: Option<string>, parent: Option<string>): Option<string> {
    if symbol.Some? && parent.Some? then Some(parent.value + " > " + symbol.value)
    else if symbol.Some? then symbol else parent
  }

  /** The lines `[at, until)` of a block as a chunk, cited by their place in the file. */
  function Cited(b: CodeBlock, at: nat, until: nat, symbol: Option<string>, kind: Kind): CodeChunk
    requires at <= until <= |b.lines| && 1 <= b.startLine + until
  {
    CodeChunk(Join(b.lines[at..until], "\n"), b.startLine + at, b.startLine + until - 1, symbol, kind)
  }

  /** The windows from line `at` of an over-long block. */
  function WindowsFrom(b: CodeBlock, maxLines: nat, step: nat, symbol: Option<string>, at: nat): seq<CodeChunk>
    requires maxLines >= 1 && step >= 1 && at <= |b.lines| && b.startLine >= 1
    decreases |b.lines| - at
  {
    if at == |b.lines| then []
    else
      var until := Min(at + maxLines, |b.lines|);
      [Cited(b, at, until, symbol, Window)]
      + if at + maxLines >= |b.lines| then [] else WindowsFrom(b, maxLines, step, symbol, Min(at + step, |b.lines|))
  }

  function Step(maxLines: nat, overlap: nat): nat {
    if maxLines - overlap > 1 then maxLines - overlap else 1
  }

  function Windows(b: CodeBlock, maxLines: nat, overlap: nat, parent: Option<string>): seq<CodeChunk>
    requires maxLines >= 1 && b.startLine >= 1
  {
    var symbol := QualifiedSymbol(b.symbol, parent);
    if |b.lines| <= maxLines then [Cited(b, 0, |b.lines|, symbol, b.kind)]
    else WindowsFrom(b, maxLines, Step(maxLines, overlap), symbol, 0)
  }

  method WindowBlock(b: CodeBlock, maxLines: nat, overlap: nat, parent: Option<string>) returns (out: seq<CodeChunk>)
    requires maxLines >= 1 && b.startLine >= 1
    ensures out == Windows(b, maxLines, overlap, parent)
  {
    hide Join, WindowsFrom;
    var symbol := QualifiedSymbol(b.symbol, parent);
    if |b.lines| <= maxLines {
      assert b.lines[0..|b.lines|] == b.lines;
      return [CodeChunk(Join(b.lines, "\n"), b.startLine, b.startLine + |b.lines| - 1, symbol, b.kind)];
    }
    out := WindowLongBlock(b, maxLines, Step(maxLines, overlap), symbol);
  }

  /** The windows from `at` on, none past the end. */
  function WindowsLeft(b: CodeBlock, maxLines: nat, step: nat, symbol: Option<string>, at: nat): seq<CodeChunk>
    requires maxLines >= 1 && step >= 1 && b.startLine >= 1
  {
    WindowsFrom(b, maxLines, step, symbol, Min(at, |b.lines|))
  }

  lemma WindowsUnfold(b: CodeBlock, maxLines: nat, step: nat, symbol: Option<string>, at: nat)
    requires maxLines >= 1 && step >= 1 && at < |b.lines| && b.startLine >= 1
    ensures var all := WindowsLeft(b, maxLines, step, symbol, at);
            && all != [] && all[0] == Cited(b, at, Min(at + maxLines, |b.lines|), symbol, Window)
            && (at + maxLines >= |b.lines| ==> all[1..] == [])
            && (at + maxLines < |b.lines| ==> all[1..] == WindowsLeft(b, maxLines, step, symbol, at + step))
  {
    hide Cited;
  }

  lemma NothingPastTheEnd(b: CodeBlock, maxLines: nat, step: nat, symbol: Option<string>, at: nat)
    requires maxLines >= 1 && step >= 1 && b.startLine >= 1 && at >= |b.lines|
    ensures WindowsLeft(b, maxLines, step, symbol, at) == []
  {}

  lemma SliceIsCited(b: CodeBlock, at: nat, maxLines: nat, symbol: Option<string>)
    requires at < |b.lines| && b.startLine >= 1
    ensures var slice := Slice(b.lines, at, at + maxLines);
            CodeChunk(Join(slice, "\n"), b.startLine + at, b.startLine + at + |slice| - 1, symbol, Window)
            == Cited(b, at, Min(at + maxLines, |b.lines|), symbol, Window)
  {
    hide Join;
    assert Slice(b.lines, at, at + maxLines) == b.lines[at..Min(at + maxLines, |b.lines|)];
  }

  method WindowLongBlock(b: CodeBlock, maxLines: nat, step: nat, symbol: Option<string>) returns (out: seq<CodeChunk>)
    requires maxLines >= 1 && step >= 1 && b.startLine >= 1
    ensures out == WindowsLeft(b, maxLines, step, symbol, 0)
  {
    hide WindowsLeft, Cited, IsPrefixUpTo, Min;
    out := [];
    ghost var all := WindowsLeft(b, maxLines, step, symbol, 0);
    PrefixStarts(all);
    var at: nat := 0;
    while at < |b.lines|
      invariant IsPrefixUpTo(out, all, WindowsLeft(b, maxLines, step, symbol, at))
      decreases |b.lines| - at
    {
      WindowsUnfold(b, maxLines, step, symbol, at);
      var window := NextWindow(b, at, maxLines, symbol);
      PrefixGrows(out, all, WindowsLeft(b, maxLines, step, symbol, at));
      out := out + [window];
      if at + maxLines >= |b.lines| { return; }
      at := at + step;
    }
    NothingPastTheEnd(b, maxLines, step, symbol, at);
    PrefixEnds(out, all);
  }

  ghost predicate IsPrefixUpTo<T(!new)>(a: seq<T>, all: seq<T>, rest: seq<T>) {
    a + rest == all
  }

  lemma PrefixStarts<T(!new)>(all: seq<T>)
    ensures IsPrefixUpTo([], all, all)
  {
    assert [] + all == all;
  }

  lemma PrefixEnds<T(!new)>(a: seq<T>, all: seq<T>)
    requires IsPrefixUpTo(a, all, [])
    ensures a == all
  {
    assert a + [] == a;
  }

  lemma PrefixGrows<T(!new)>(a: seq<T>, all: seq<T>, rest: seq<T>)
    requires IsPrefixUpTo(a, all, rest) && rest != []
    ensures IsPrefixUpTo(a + [rest[0]], all, rest[1..])
    ensures rest[1..] == [] ==> a + [rest[0]] == all
  {
    assert a + [rest[0]] + rest[1..] == a + rest;
  }

  method NextWindow(b: CodeBlock, at: nat, maxLines: nat, symbol: Option<string>) returns (window: CodeChunk)
    requires at < |b.lines| && b.startLine >= 1
    ensures window == Cited(b, at, Min(at + maxLines, |b.lines|), symbol, Window)
  {
    hide Join;
    SliceIsCited(b, at, maxLines, symbol);
    var slice := Slice(b.lines, at, at + maxLines);
    window := CodeChunk(Join(slice, "\n"), b.startLine + at, b.startLine + at + |slice| - 1, symbol, Window);
  }

  /** A chunk is the source lines it cites, and no more than `maxLines` of them. */
  predicate IsCitation(c: CodeChunk, lines: seq<string>, maxLines: nat) {
    && 1 <= c.startLine <= c.endLine + 1 <= |lines| + 1
    && c.content == Join(lines[c.startLine-1..c.endLine], "\n")
    && c.endLine - c.startLine + 1 <= maxLines
  }

  predicate Cites(c: CodeChunk, i: int) {
    c.startLine <= i + 1 <= c.endLine
  }

  predicate IsWithinFile(b: CodeBlock, lines: seq<string>) {
    1 <= b.startLine && End(b) <= |lines| && b.lines == lines[b.startLine-1..End(b)]
  }

  lemma CitedIsCitation(b: CodeBlock, lines: seq<string>, at: nat, until: nat, symbol: Option<string>, kind: Kind,
        maxLines: nat)
    requires IsWithinFile(b, lines) && at <= until <= |b.lines| && until - at <= maxLines
    ensures IsCitation(Cited(b, at, until, symbol, kind), lines, maxLines)
  {
    hide Join;
    SliceOfSlice(lines, b.startLine - 1, End(b), at, until);
  }

  lemma {:induction false} WindowsFromAreCitations(b: CodeBlock, lines: seq<string>, maxLines: nat, step: nat,
        symbol: Option<string>, at: nat, k: nat)
    requires maxLines >= 1 && step >= 1 && at <= |b.lines| && IsWithinFile(b, lines)
    requires k < |WindowsFrom(b, maxLines, step, symbol, at)|
    ensures IsCitation(WindowsFrom(b, maxLines, step, symbol, at)[k], lines, maxLines)
    decreases |b.lines| - at
  {
    hide IsCitation, Cited, IsWithinFile;
    CitedIsCitation(b, lines, at, Min(at + maxLines, |b.lines|), symbol, Window, maxLines);
    if k > 0 {
      WindowsFromAreCitations(b, lines, maxLines, step, symbol, Min(at + step, |b.lines|), k - 1);
    }
  }

  /** No line is skipped: consecutive windows overlap or touch. */
  lemma {:induction false} WindowsFromCiteAll(b: CodeBlock, maxLines: nat, step: nat, symbol: Option<string>, at: nat,
        i: nat) returns (k: nat)
    requires 1 <= step <= maxLines && b.startLine >= 1 && at <= i < |b.lines|
    ensures k < |WindowsFrom(b, maxLines, step, symbol, at)|
    ensures Cites(WindowsFrom(b, maxLines, step, symbol, at)[k], b.startLine - 1 + i)
    decreases |b.lines| - at
  {
    hide Join;
    if i < at + maxLines {
      k := 0;
    } else {
      k := WindowsFromCiteAll(b, maxLines, step, symbol, at + step, i);
      k := k + 1;
    }
  }

  // ----- chunks -----

  function Chunks(blocks: seq<CodeBlock>, maxLines: nat, overlap: nat, parent: Option<string>): seq<CodeChunk>
    requires maxLines >= 1 && forall b | b in blocks :: b.startLine >= 1
  {
    if blocks == [] then []
    else
      Chunks(blocks[..|blocks|-1], maxLines, overlap, parent)
      + Windows(blocks[|blocks|-1], maxLines, overlap, parent)
  }

  /** The options in effect: at least 20 lines a chunk, at most half of them overlap. */
  function EffectiveMaxLines(option: Option<int>): nat {
    var given := if option.Some? then option.value else MAX_LINES;
    if given > 20 then given else 20
  }

  function EffectiveOverlap(maxLines: nat, option: Option<int>): nat {
    var given := if option.Some? then option.value else OVERLAP_LINES;
    Min(maxLines / 2, if given > 0 then given else 0)
  }

  lemma StartAtLines(blocks: seq<CodeBlock>, lines: seq<string>, detect: string -> Option<Definition>)
    requires AreBlocksOf(blocks, lines, detect, |lines|)
    ensures forall b | b in blocks :: b.startLine >= 1
  {
    hide HoldAllContent, HasContent, IsSection, SectionBlock;
  }

  method ChunkCode(text: string, detect: string -> Option<Definition>, maxOption: Option<int>,
        overlapOption: Option<int>, parent: Option<string>)
    returns (out: seq<CodeChunk>, ghost blocks: seq<CodeBlock>)
    ensures Trim(text) == "" ==> out == [] && blocks == []
    ensures Trim(text) != "" ==>
      && AreBlocksOf(blocks, Split(text, '\n'), detect, |Split(text, '\n')|)
      && (forall b | b in blocks :: b.startLine >= 1)
      && out == Chunks(blocks, EffectiveMaxLines(maxOption),
                       EffectiveOverlap(EffectiveMaxLines(maxOption), overlapOption), parent)
  {
    hide Split, Windows, Trim, AreBlocksOf;
    out, blocks := [], [];
    if Trim(text) == "" { return; }
    var maxLines := EffectiveMaxLines(maxOption);
    var overlap := EffectiveOverlap(maxLines, overlapOption);
    var lines := Split(text, '\n');
    var split := SplitBlocks(lines, detect);
    blocks := split;
    StartAtLines(split, lines, detect);
    for k := 0 to |split|
      invariant (forall b | b in split[..k] :: b in split) && out == Chunks(split[..k], maxLines, overlap, parent)
    {
      assert split[..k+1][..k] == split[..k];
      var windows := WindowBlock(split[k], maxLines, overlap, parent);
      out := out + windows;
    }
    assert split[..|split|] == split;
  }

  lemma WindowsAreCitations(b: CodeBlock, lines: seq<string>, maxLines: nat, overlap: nat, parent: Option<string>,
        k: nat)
    requires maxLines >= 1 && IsWithinFile(b, lines) && k < |Windows(b, maxLines, overlap, parent)|
    ensures IsCitation(Windows(b, maxLines, overlap, parent)[k], lines, maxLines)
  {
    hide IsCitation, IsWithinFile, Cited;
    var symbol := QualifiedSymbol(b.symbol, parent);
    if |b.lines| <= maxLines {
      CitedIsCitation(b, lines, 0, |b.lines|, symbol, b.kind, maxLines);
    } else {
      WindowsFromAreCitations(b, lines, maxLines, Step(maxLines, overlap), symbol, 0, k);
    }
  }

  lemma WindowsCiteAll(b: CodeBlock, maxLines: nat, overlap: nat, parent: Option<string>, i: nat) returns (k: nat)
    requires maxLines >= 1 && b.startLine >= 1 && i < |b.lines|
    ensures k < |Windows(b, maxLines, overlap, parent)|
    ensures Cites(Windows(b, maxLines, overlap, parent)[k], b.startLine - 1 + i)
  {
    hide Join;
    if |b.lines| <= maxLines {
      k := 0;
    } else {
      k := WindowsFromCiteAll(b, maxLines, Step(maxLines, overlap), QualifiedSymbol(b.symbol, parent), 0, i);
    }
  }

  /** Every chunk cites its lines exactly. */
  lemma {:induction false} ChunksAreCitations(blocks: seq<CodeBlock>, lines: seq<string>, maxLines: nat, overlap: nat,
        parent: Option<string>, k: nat)
    requires maxLines >= 1 && forall b | b in blocks :: b.startLine >= 1 && IsWithinFile(b, lines)
    requires k < |Chunks(blocks, maxLines, overlap, parent)|
    ensures IsCitation(Chunks(blocks, maxLines, overlap, parent)[k], lines, maxLines)
  {
    hide IsCitation, IsWithinFile, Windows;
    var before, last := blocks[..|blocks|-1], blocks[|blocks|-1];
    var n := |Chunks(before, maxLines, overlap, parent)|;
    if k < n {
      ChunksAreCitations(before, lines, maxLines, overlap, parent, k);
    } else {
      WindowsAreCitations(last, lines, maxLines, overlap, parent, k - n);
    }
  }

  lemma {:induction false} ChunksCiteBlock(blocks: seq<CodeBlock>, maxLines: nat, overlap: nat,
        parent: Option<string>, b: CodeBlock, i: nat) returns (c: CodeChunk)
    requires maxLines >= 1 && (forall b | b in blocks :: b.startLine >= 1) && b in blocks && i < |b.lines|
    ensures c in Chunks(blocks, maxLines, overlap, parent) && Cites(c, b.startLine - 1 + i)
  {
    hide Windows, Cites;
    var before, last := blocks[..|blocks|-1], blocks[|blocks|-1];
    if b == last {
      var k := WindowsCiteAll(b, maxLines, overlap, parent, i);
      c := Windows(b, maxLines, overlap, parent)[k];
    } else {
      c := ChunksCiteBlock(before, maxLines, overlap, parent, b, i);
    }
  }

  lemma LineIsCited(lines: seq<string>, detect: string -> Option<Definition>, blocks: seq<CodeBlock>, maxLines: nat,
        overlap: nat, parent: Option<string>, i: nat)
    requires AreBlocksOf(blocks, lines, detect, |lines|) && i < |lines| && !IsBlankLine(lines[i])
    requires maxLines >= 1 && forall b | b in blocks :: b.startLine >= 1
    ensures exists c :: c in Chunks(blocks, maxLines, overlap, parent) && Cites(c, i)
  {
    hide Chunks, IsBlankLine, Cites, IsBlockOf;
    var b :| b in blocks && HoldsLine(b, i);
    var c := ChunksCiteBlock(blocks, maxLines, overlap, parent, b, i - (b.startLine - 1));
  }

  lemma BlocksAreWithinFile(lines: seq<string>, detect: string -> Option<Definition>, blocks: seq<CodeBlock>)
    requires AreBlocksOf(blocks, lines, detect, |lines|)
    ensures forall b | b in blocks :: IsWithinFile(b, lines)
  {
    hide IsSection, HasContent, DefinitionIn, HoldAllContent, AreInOrder;
  }

  /** Every line with content is in some chunk, and every chunk is exactly the lines it cites. */
  lemma ChunksCoverTheSource(text: string, detect: string -> Option<Definition>, blocks: seq<CodeBlock>,
        maxLines: nat, overlap: nat, parent: Option<string>)
    requires var lines := Split(text, '\n'); AreBlocksOf(blocks, lines, detect, |lines|)
    requires maxLines >= 1 && forall b | b in blocks :: b.startLine >= 1
    ensures var lines, chunks := Split(text, '\n'), Chunks(blocks, maxLines, overlap, parent);
            && (forall k: nat | k < |chunks| :: IsCitation(chunks[k], lines, maxLines))
            && (forall i: nat | i < |lines| && !IsBlankLine(lines[i]) :: exists c :: c in chunks && Cites(c, i))
  {
    hide Split, Chunks, IsBlankLine, IsCitation, Cites, AreBlocksOf, IsWithinFile;
    var lines, chunks := Split(text, '\n'), Chunks(blocks, maxLines, overlap, parent);
    BlocksAreWithinFile(lines, detect, blocks);
    forall k: nat | k < |chunks| ensures IsCitation(chunks[k], lines, maxLines) {
      ChunksAreCitations(blocks, lines, maxLines, overlap, parent, k);
    }
    forall i: nat | i < |lines| && !IsBlankLine(lines[i]) ensures exists c :: c in chunks && Cites(c, i) {
      LineIsCited(lines, detect, blocks, maxLines, overlap, parent, i);
    }
  }

  // ----- the blocks, line by line -----

  lemma {:induction false} CountSnoc(line: string, c: char, chars: string)
    ensures Count(line + [c], chars) == Count(line, chars) + if c in chars then 1 else 0
  {
    if line == "" {
      assert (line + [c])[1..] == "";
    } else {
      CountSnoc(line[1..], c, chars);
      assert (line + [c])[1..] == line[1..] + [c];
    }
  }

  lemma OnePlaceMore(line: string, chars: string, n: nat, here: nat -> bool, at: seq<nat>)
    requires n < |line| && here(n) == (line[n] in chars)
    requires Selects(at, n, here) && |at| == Count(line[..n], chars)
    ensures var more := if here(n) then at + [n] else at;
            Selects(more, n + 1, here) && |more| == Count(line[..n+1], chars)
  {
    hide *;
    assert line[..n+1] == line[..n] + [line[n]];
    CountSnoc(line[..n], line[n], chars);
    SelectsNext(at, n, here);
  }

  lemma {:induction false} CountIsPlacesUpTo(line: string, chars: string, n: nat, here: nat -> bool)
    returns (at: seq<nat>)
    requires n <= |line| && forall k | 0 <= k < |line| :: here(k) == (line[k] in chars)
    ensures Selects(at, n, here) && |at| == Count(line[..n], chars)
  {
    if n == 0 {
      at := [];
    } else {
      var before := CountIsPlacesUpTo(line, chars, n - 1, here);
      at := if here(n - 1) then before + [n - 1] else before;
      OnePlaceMore(line, chars, n - 1, here, before);
    }
    hide *;
  }

  /** Counted are the places of these characters, each once. */
  lemma CountIsPlaces(line: string, chars: string) returns (at: seq<nat>)
    ensures Selects(at, |line|, (k: nat) => k < |line| && line[k] in chars) && |at| == Count(line, chars)
  {
    at := CountIsPlacesUpTo(line, chars, |line|, (k: nat) => k < |line| && line[k] in chars);
    assert line[..|line|] == line;
    hide Count;
  }

  /** A line is indented by the white space in front, a tab counting twice. */
  lemma {:induction false} IndentIs(white: string, rest: string)
    requires IsBlank(white) && (rest != "" ==> !IsSpace(rest[0]))
    ensures IndentOf(white + rest) == |white| + Count(white, "\t")
  {
    if white == "" {
      assert white + rest == rest;
    } else {
      IndentIs(white[1..], rest);
      assert (white + rest)[1..] == white[1..] + rest && (white + rest)[0] == white[0] && IsSpace(white[0]);
      hide IsSpace;
    }
  }

  /** Whether a line says something. */
  predicate SaysSomething(line: string) {
    exists k :: 0 <= k < |line| && !IsSpace(line[k])
  }

  /** The definition on a line: comments and blank lines define nothing. */
  function Defined(line: string, detect: string -> Option<Definition>): Option<Definition> {
    var text := Trim(line);
    if !SaysSomething(line) || "//" <= text || "#" <= text || "*" <= text then None else detect(line)
  }

  lemma DefinedExactly(line: string, detect: string -> Option<Definition>)
    ensures IsBlankLine(line) <==> !SaysSomething(line)
    ensures DefinitionIn(line, detect) == Defined(line, detect)
  {
    TrimOfBlank(line);
    hide Trim, IsSpace;
  }

  /** The first line starts a block.  Behind the first line of a block, the next one starts where a line is indented no
      deeper than that first line and defines something, or says something with no more brackets opened than closed. */
  lemma BlockEndsExactly(lines: seq<string>, detect: string -> Option<Definition>, from: nat, i: nat)
    requires IsSection(lines, detect, from, i) && i < |lines|
    ensures Starts(lines, detect, 0)
    ensures Starts(lines, detect, i) <==>
              && IndentOf(lines[i]) <= IndentOf(lines[from])
              && (Defined(lines[i], detect).Some?
                  || (SaysSomething(lines[i]) && Count(lines[i], "[({") <= Count(lines[i], "])}")))
  {
    ScopeOfSection(lines, detect, from, i);
    DefinedExactly(lines[i], detect);
    hide IndentOf, Count, Defined, DefinitionIn, IsBlankLine, SaysSomething;
  }

  lemma {:induction false} ScopeOfSection(lines: seq<string>, detect: string -> Option<Definition>, from: nat, i: nat)
    requires IsSection(lines, detect, from, i)
    ensures ScopeAt(lines, detect, i) == IndentOf(lines[from])
    decreases i
  {
    hide IndentOf, BreaksScope;
    if from + 1 < i { ScopeOfSection(lines, detect, from, i - 1); }
  }

  /** A block is all lines from where it starts to the next start. */
  lemma BlockIsItsLines(blocks: seq<CodeBlock>, lines: seq<string>, detect: string -> Option<Definition>, b: CodeBlock)
    requires AreBlocksOf(blocks, lines, detect, |lines|) && b in blocks
    ensures b.startLine >= 1 && b.lines != [] && b.startLine - 1 + |b.lines| <= |lines|
    ensures b.lines == lines[b.startLine-1..b.startLine-1+|b.lines|]
    ensures Starts(lines, detect, b.startLine - 1)
    ensures forall i | b.startLine <= i < b.startLine - 1 + |b.lines| :: !Starts(lines, detect, i)
    ensures var next := b.startLine - 1 + |b.lines|; next < |lines| ==> Starts(lines, detect, next)
    ensures exists k :: 0 <= k < |b.lines| && SaysSomething(b.lines[k])
  {
    assert IsBlockOf(b, lines, detect);
    BlockLines(b, lines, detect);
    BlockStarts(b, lines, detect);
    hide *;
    ContentSays(b.lines, detect);
  }

  lemma BlockStarts(b: CodeBlock, lines: seq<string>, detect: string -> Option<Definition>)
    requires IsBlockOf(b, lines, detect)
    ensures b.startLine >= 1 && b.startLine - 1 + |b.lines| <= |lines| && b.lines != []
    ensures Starts(lines, detect, b.startLine - 1)
    ensures forall i | b.startLine <= i < b.startLine - 1 + |b.lines| :: !Starts(lines, detect, i)
    ensures var next := b.startLine - 1 + |b.lines|; next < |lines| ==> Starts(lines, detect, next)
  {
    hide SectionBlock, HasContent, Starts;
  }

  lemma BlockLines(b: CodeBlock, lines: seq<string>, detect: string -> Option<Definition>)
    requires IsBlockOf(b, lines, detect)
    ensures b.startLine >= 1 && b.lines != [] && b.startLine - 1 + |b.lines| <= |lines| && HasContent(b.lines)
    ensures b.lines == lines[b.startLine-1..b.startLine-1+|b.lines|]
  {
    hide IsSection, HasContent, DefinitionIn;
  }

  /** It is called after what its first line defines. */
  lemma BlockIsCalled(blocks: seq<CodeBlock>, lines: seq<string>, detect: string -> Option<Definition>, b: CodeBlock)
    requires AreBlocksOf(blocks, lines, detect, |lines|) && b in blocks && 1 <= b.startLine <= |lines|
    ensures var d := Defined(lines[b.startLine-1], detect);
            && b.kind == (if d.Some? then d.value.kind else Block)
            && b.symbol == (if d.Some? then Some(d.value.symbol) else None)
  {
    assert IsBlockOf(b, lines, detect);
    hide AreBlocksOf, IsSection, HasContent, DefinitionIn, Defined;
    DefinedExactly(lines[b.startLine-1], detect);
  }

  lemma ContentSays(lines: seq<string>, detect: string -> Option<Definition>)
    ensures HasContent(lines) ==> exists k :: 0 <= k < |lines| && SaysSomething(lines[k])
  {
    hide IsBlankLine, SaysSomething, DefinitionIn, Defined;
    if k :| 0 <= k < |lines| && !IsBlankLine(lines[k]) { DefinedExactly(lines[k], detect); }
  }

  // ----- the windows, one by one -----

  /** The windows of a block longer than the limit start every `step` lines and hold `maxLines` lines, the last one
      what is left; the first to reach the end is the last. */
  lemma {:induction false} WindowsAre(b: CodeBlock, maxLines: nat, step: nat, symbol: Option<string>, at: nat, k: nat)
    requires maxLines >= 1 && step >= 1 && b.startLine >= 1 && at < |b.lines|
    requires k < |WindowsFrom(b, maxLines, step, symbol, at)|
    ensures var windows, from := WindowsFrom(b, maxLines, step, symbol, at), at + k * step;
            var until := if from + maxLines < |b.lines| then from + maxLines else |b.lines|;
            && from < |b.lines|
            && windows[k] == CodeChunk(Join(b.lines[from..until], "\n"), b.startLine + from, b.startLine + until - 1,
                                       symbol, Window)
            && (k + 1 == |windows| <==> from + maxLines >= |b.lines| || from + step >= |b.lines|)
    decreases |b.lines| - at
  {
    hide Join;
    if k > 0 {
      WindowsAre(b, maxLines, step, symbol, at + step, k - 1);
      assert at + step + (k - 1) * step == at + k * step;
    }
  }

  /** A block within the limit is one chunk; a longer one is windowed, by the limit less the overlap but at least one
      line on.  Both are called after the block, behind its parent. */
  lemma ChunksOfBlock(b: CodeBlock, maxLines: nat, overlap: nat, parent: Option<string>)
    requires maxLines >= 1 && b.startLine >= 1
    ensures var symbol := if b.symbol.None? then parent
                          else if parent.None? then b.symbol
                          else Some(parent.value + " > " + b.symbol.value);
            Windows(b, maxLines, overlap, parent)
            == if |b.lines| <= maxLines then
                 [CodeChunk(Join(b.lines, "\n"), b.startLine, b.startLine + |b.lines| - 1, symbol, b.kind)]
               else WindowsFrom(b, maxLines, if maxLines > overlap + 1 then maxLines - overlap else 1, symbol, 0)
  {
    hide Join, WindowsFrom;
    assert b.lines[0..|b.lines|] == b.lines;
  }

  /** At least 20 lines a chunk, 120 unless told otherwise; the overlap, 15 unless told otherwise, is at most half. */
  lemma OptionsAre(maxOption: Option<int>, overlapOption: Option<int>)
    ensures var maxLines := EffectiveMaxLines(maxOption);
            var overlap := EffectiveOverlap(maxLines, overlapOption);
            && maxLines >= 20 && (maxLines == 20 || maxLines == if maxOption.Some? then maxOption.value else 120)
            && (maxOption.Some? && maxOption.value >= 20 ==> maxLines == maxOption.value)
            && overlap <= maxLines / 2
            && (overlap == maxLines / 2 || overlap == 0
                || overlap == if overlapOption.Some? then overlapOption.value else 15)
            && (overlapOption.Some? && 0 <= overlapOption.value <= maxLines / 2 ==> overlap == overlapOption.value)
            && (overlapOption.Some? && overlapOption.value < 0 ==> overlap == 0)
            && (overlapOption.None? && maxLines >= 30 ==> overlap == 15)
  {}

  /** The chunks are those of all blocks. */
  lemma {:induction false} ChunksAreAllWindows(blocks: seq<CodeBlock>, maxLines: nat, overlap: nat,
        parent: Option<string>, c: CodeChunk)
    requires maxLines >= 1 && forall b | b in blocks :: b.startLine >= 1
    ensures c in Chunks(blocks, maxLines, overlap, parent) <==>
              exists b :: b in blocks && b.startLine >= 1 && c in Windows(b, maxLines, overlap, parent)
  {
    hide Windows;
    if blocks != [] {
      var before, last := blocks[..|blocks|-1], blocks[|blocks|-1];
      ChunksAreAllWindows(before, maxLines, overlap, parent, c);
      assert blocks == before + [last];
    }
  }

  lemma Multiples(j: nat, k: nat, step: nat)
    requires j < k && step >= 1
    ensures j * step < k * step
  {}

  /** The chunks of a block start at different lines of it, in order. */
  lemma WindowsAreInOrder(b: CodeBlock, maxLines: nat, overlap: nat, parent: Option<string>, j: nat, k: nat)
    requires maxLines >= 1 && b.startLine >= 1 && b.lines != []
    requires j <= k < |Windows(b, maxLines, overlap, parent)|
    ensures var windows := Windows(b, maxLines, overlap, parent);
            && b.startLine <= windows[j].startLine <= windows[k].startLine <= End(b)
            && (j < k ==> windows[j].startLine < windows[k].startLine)
  {
    hide Join, WindowsFrom;
    if |b.lines| > maxLines {
      var step, symbol := Step(maxLines, overlap), QualifiedSymbol(b.symbol, parent);
      WindowsAre(b, maxLines, step, symbol, 0, j);
      WindowsAre(b, maxLines, step, symbol, 0, k);
      hide *;
      if j < k { Multiples(j, k, step); }
    }
  }

  /** The chunks of all blocks come in the order of their lines, and no two start at one line. */
  lemma {:induction false} ChunksAreInOrder(blocks: seq<CodeBlock>, maxLines: nat, overlap: nat,
        parent: Option<string>, n: nat, j: nat, k: nat)
    requires maxLines >= 1 && forall b | b in blocks :: b.startLine >= 1 && b.lines != []
    requires AreInOrder(blocks, n) && j <= k < |Chunks(blocks, maxLines, overlap, parent)|
    ensures var chunks := Chunks(blocks, maxLines, overlap, parent);
            chunks[k].startLine <= n && (j < k ==> chunks[j].startLine < chunks[k].startLine)
  {
    hide Windows;
    var before, last := blocks[..|blocks|-1], blocks[|blocks|-1];
    var size := |Chunks(before, maxLines, overlap, parent)|;
    if k < size {
      ChunksAreInOrder(before, maxLines, overlap, parent, n, j, k);
    } else {
      WindowsAreInOrder(last, maxLines, overlap, parent, if j < size then 0 else j - size, k - size);
      if j < size {
        ChunksAreInOrder(before, maxLines, overlap, parent, last.startLine - 1, j, j);
      }
    }
  }
}
