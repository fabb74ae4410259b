/** Incremental reader of a server-sent event stream (framing after section 9.2.6 of the WHATWG HTML
    Living Standard; a lone carriage return is no line end here and all leading blanks are stripped). */
module SsePump {
  import opened JsText

  // ----- block and line boundaries -----

  /** Length of the line break (an optional carriage return, then a newline) at `i`; 0 when there is none. */
  function BreakAt(s: string, i: nat): nat {
    if i < |s| && s[i] == '\n' then 1
    else if i + 1 < |s| && s[i] == '\r' && s[i+1] == '\n' then 2
    else 0
  }

  /** Length of the blank line (two line breaks) at `i`; 0 when there is none. */
  function BlankLineAt(s: string, i: nat): (r: nat)
    ensures r > 0 ==> i + r <= |s|
  {
    var first := BreakAt(s, i);
    if first == 0 || BreakAt(s, i + first) == 0 then 0 else first + BreakAt(s, i + first)
  }

  /** The text between blank lines; the last part is not closed by one. */
  function Parts(s: string): (r: seq<string>)
    ensures r != []
    decreases |s|
  {
    if s == "" then [""]
    else if BlankLineAt(s, 0) > 0 then [""] + Parts(s[BlankLineAt(s, 0)..])
    else var rest := Parts(s[1..]); [[s[0]] + rest[0]] + rest[1..]
  }

  function SplitLines(s: string): (r: seq<string>)
    ensures r != []
    decreases |s|
  {
    if s == "" then [""]
    else if BreakAt(s, 0) > 0 then [""] + SplitLines(s[BreakAt(s, 0)..])
    else var rest := SplitLines(s[1..]); [[s[0]] + rest[0]] + rest[1..]
  }

  // ----- what a block delivers -----

  predicate IsDataLine(line: string) {
    "data:" <= line
  }

  function DataOf(line: string): seq<string> {
    if IsDataLine(line) then [TrimStart(line[5..])] else []
  }

  function DataLines(lines: seq<string>): seq<string> {
    if lines == [] then [] else DataLines(lines[..|lines|-1]) + DataOf(lines[|lines|-1])
  }

  function Assembled(dataLines: seq<string>): seq<string> {
    var data := Trim(Join(dataLines, "\n"));
    if dataLines == [] || data == "" then [] else [data]
  }

  /** The calls one block leads to: none or one. */
  function Payload(part: string): seq<string> {
    Assembled(DataLines(SplitLines(part)))
  }

  function Payloads(parts: seq<string>): seq<string> {
    if parts == [] then [] else Payloads(parts[..|parts|-1]) + Payload(parts[|parts|-1])
  }

  /** The last block may be closed by the end of the connection. */
  function FinalPayload(rest: string): seq<string> {
    if Trim(rest) == "" then [] else Payload(rest)
  }

  /** The calls of a read that gets the whole text at once. */
  function OneShot(text: string): seq<string> {
    Payloads(Front(Parts(text))) + FinalPayload(Last(Parts(text)))
  }

  // ----- chunks -----

  lemma {:induction false} SinglePart(s: string)
    requires |Parts(s)| == 1
    ensures Parts(s) == [s]
    decreases |s|
  {
    if s != "" && BlankLineAt(s, 0) == 0 {
      SinglePart(s[1..]);
      assert [s[0]] + s[1..] == s;
    }
  }

  lemma BlankLineStays(a: string, b: string)
    requires BlankLineAt(a, 0) > 0
    ensures BlankLineAt(a + b, 0) == BlankLineAt(a, 0)
  {}

  /** Text in which no blank line starts is one part. */
  lemma {:induction false} WithoutBlankLine(s: string)
    requires forall i | 0 <= i < |s| :: BlankLineAt(s, i) == 0
    ensures Parts(s) == [s]
  {
    if s != "" {
      forall i | 0 <= i < |s| - 1 ensures BlankLineAt(s[1..], i) == 0 {
        BlankLineInRest(s, i);
      }
      WithoutBlankLine(s[1..]);
      assert [s[0]] + s[1..] == s;
    }
  }

  lemma BlankLineInRest(s: string, i: nat)
    requires s != ""
    ensures BlankLineAt(s[1..], i) == BlankLineAt(s, i + 1)
  {}

  /** A blank line that only appears with more text starts in text that holds none. */
  lemma BlankLineAppears(a: string, b: string)
    requires a != "" && BlankLineAt(a, 0) == 0 && BlankLineAt(a + b, 0) > 0
    ensures Parts(a) == [a]
  {
    forall i | 0 <= i < |a| ensures BlankLineAt(a, i) == 0 {
      NoBlankLineInside(a, b, i);
    }
    WithoutBlankLine(a);
  }

  lemma NoBlankLineInside(a: string, b: string, i: nat)
    requires i < |a| && BlankLineAt(a, 0) == 0 && BlankLineAt(a + b, 0) > 0
    ensures BlankLineAt(a, i) == 0
  {
    assert forall k | 0 <= k < |a| :: (a + b)[k] == a[k];
  }

  lemma PartsAfterBlankLine(s: string)
    requires BlankLineAt(s, 0) > 0
    ensures var rest := Parts(s[BlankLineAt(s, 0)..]);
            Parts(s) == [""] + rest && Front(Parts(s)) == [""] + Front(rest) && Last(Parts(s)) == Last(rest)
  {
    hide BlankLineAt;
  }

  lemma PartsAfterCharacter(s: string)
    requires s != "" && BlankLineAt(s, 0) == 0
    ensures var rest := Parts(s[1..]); Parts(s) == [[s[0]] + rest[0]] + rest[1..]
  {
    hide BlankLineAt;
  }

  lemma FrontLongerHead(c: char, x: seq<string>, y: seq<string>)
    requires |x| > 1 && y != []
    ensures var z := Front(x) + y;
            [[c] + z[0]] + z[1..] == Front([[c] + x[0]] + x[1..]) + y
  {}

  /** Reading more text only changes what was left in the buffer. */
  lemma {:induction false} PartsOfMore(a: string, b: string)
    ensures Parts(a + b) == Front(Parts(a)) + Parts(Last(Parts(a)) + b)
    decreases |a|
  {
    if |Parts(a)| == 1 {
      SinglePart(a);
    } else if BlankLineAt(a, 0) > 0 {
      PartsOfMoreAfterBlankLine(a, b);
    } else {
      PartsOfMoreAfterCharacter(a, b);
    }
  }

  lemma {:induction false} PartsOfMoreAfterBlankLine(a: string, b: string)
    requires BlankLineAt(a, 0) > 0
    ensures Parts(a + b) == Front(Parts(a)) + Parts(Last(Parts(a)) + b)
    decreases |a|, 0
  {
    var n := BlankLineAt(a, 0);
    BlankLineStays(a, b);
    assert (a + b)[n..] == a[n..] + b;
    PartsOfMore(a[n..], b);
    PartsAfterBlankLine(a);
    PartsAfterBlankLine(a + b);
    hide Parts, BlankLineAt;
  }

  lemma {:induction false} PartsOfMoreAfterCharacter(a: string, b: string)
    requires a != "" && BlankLineAt(a, 0) == 0 && |Parts(a)| > 1
    ensures Parts(a + b) == Front(Parts(a)) + Parts(Last(Parts(a)) + b)
    decreases |a|, 0
  {
    if BlankLineAt(a + b, 0) > 0 { BlankLineAppears(a, b); }
    assert BlankLineAt(a + b, 0) == 0;
    assert (a + b)[1..] == a[1..] + b;
    PartsOfMore(a[1..], b);
    PartsAfterCharacter(a);
    PartsAfterCharacter(a + b);
    hide Parts, BlankLineAt;
    FrontLongerHead(a[0], Parts(a[1..]), Parts(Last(Parts(a)) + b));
  }

  lemma {:induction false} PayloadsConcat(a: seq<string>, b: seq<string>)
    ensures Payloads(a + b) == Payloads(a) + Payloads(b)
  {
    hide Payload;
    if b == [] {
      assert a + b == a;
    } else {
      PayloadsConcat(a, b[..|b|-1]);
      assert (a + b)[..|a + b|-1] == a + b[..|b|-1];
    }
  }

  function Concat(chunks: seq<string>): string {
    if chunks == [] then "" else Concat(chunks[..|chunks|-1]) + chunks[|chunks|-1]
  }

  // ----- the reader -----

  /** How the byte stream ends: normally, by the user's abort, or with an error. */
  datatype Ending = Done | Aborted | Failed

  class Pump {
    var buffer: string
    var dataLines: seq<string>
    /** The `onData` calls made so far. */
    var calls: seq<string>

    constructor ()
      ensures buffer == "" && dataLines == [] && calls == []
    {
      buffer, dataLines, calls := "", [], [];
    }

    /** What has been read so far is accounted for: complete blocks delivered, the rest buffered. */
    ghost predicate HasRead(text: string)
      reads this
    {
      && dataLines == []
      && calls == Payloads(Front(Parts(text)))
      && buffer == Last(Parts(text))
    }

    method Flush()
      modifies this
      ensures buffer == old(buffer) && dataLines == []
      ensures calls == old(calls) + Assembled(old(dataLines))
    {
      if dataLines == [] { return; }
      var data := Trim(Join(dataLines, "\n"));
      dataLines := [];
      if data != "" { calls := calls + [data]; }
    }

    method PushLine(rawLine: string)
      modifies this
      ensures buffer == old(buffer) && calls == old(calls)
      ensures dataLines == old(dataLines) + DataOf(rawLine)
    {
      if rawLine == "" { return; }
      if rawLine[0] == ':' { return; }
      if "data:" <= rawLine { dataLines := dataLines + [TrimStart(rawLine[5..])]; }
    }

    method PushBlock(part: string)
      requires dataLines == []
      modifies this
      ensures buffer == old(buffer) && dataLines == [] && calls == old(calls) + Payload(part)
    {
      hide SplitLines;
      var lines := SplitLines(part);
      for i := 0 to |lines|
        invariant buffer == old(buffer) && calls == old(calls)
        invariant dataLines == DataLines(lines[..i])
      {
        assert lines[..i+1][..i] == lines[..i];
        PushLine(lines[i]);
      }
      assert lines[..|lines|] == lines;
      Flush();
    }

    method Feed(chunk: string, ghost text: string)
      requires HasRead(text)
      modifies this
      ensures HasRead(text + chunk)
    {
      PartsOfMore(text, chunk);
      hide Parts, Payload;
      var parts := Parts(buffer + chunk);
      buffer := Last(parts);
      ghost var before := calls;
      assert before == Payloads(Front(Parts(text)));
      for i := 0 to |parts| - 1
        invariant dataLines == [] && buffer == Last(parts)
        invariant calls == before + Payloads(parts[..i])
      {
        assert parts[..i+1][..i] == parts[..i];
        PushBlock(parts[i]);
      }
      var done := Front(Parts(text));
      PayloadsConcat(done, Front(parts));
      assert Front(Parts(text + chunk)) == done + Front(parts);
    }

    /** Flushes a final block the connection's end closes. */
    method Finish(ghost text: string)
      requires HasRead(text)
      modifies this
      ensures calls == OneShot(text)
    {
      hide Parts, Payload;
      if Trim(buffer) != "" {
        PushBlock(buffer);
      }
    }
  }

  /** The calls depend on the text alone, never on how it was cut into chunks. */
  method PumpSSEBlocks(chunks: seq<string>, ending: Ending) returns (calls: seq<string>, failed: bool)
    ensures failed <==> ending == Failed
    ensures ending == Done ==> calls == OneShot(Concat(chunks))
    ensures ending != Done ==> calls == Payloads(Front(Parts(Concat(chunks))))
  {
    var pump := new Pump();
    for i := 0 to |chunks|
      invariant fresh(pump)
      invariant pump.HasRead(Concat(chunks[..i]))
    {
      assert chunks[..i+1][..i] == chunks[..i];
      pump.Feed(chunks[i], Concat(chunks[..i]));
    }
    assert chunks[..|chunks|] == chunks;
    if ending == Done { pump.Finish(Concat(chunks)); }
    return pump.calls, ending == Failed;
  }

  // ----- framed payloads come back -----

  function Framed(payloads: seq<string>): string {
    if payloads == [] then "" else "data: " + payloads[0] + "\n\n" + Framed(payloads[1..])
  }

  predicate IsSingleLinePayload(p: string) {
    p != "" && IsTrimmed(p) && '\n' !in p
  }

  lemma {:induction false} PartBeforeBlankLine(s: string, rest: string)
    requires '\n' !in s && (s != "" ==> s[|s|-1] != '\r')
    ensures Parts(s + "\n\n" + rest) == [s] + Parts(rest)
  {
    var text := s + "\n\n" + rest;
    if s == "" {
      assert text[2..] == rest;
    } else {
      assert text[0] == s[0] && text[1] == (if |s| > 1 then s[1] else '\n');
      assert text[1..] == s[1..] + "\n\n" + rest;
      PartBeforeBlankLine(s[1..], rest);
      assert [s[0]] + s[1..] == s;
    }
  }

  lemma {:induction false} LineWithoutBreak(s: string)
    requires '\n' !in s
    ensures SplitLines(s) == [s]
  {
    if s != "" {
      LineWithoutBreak(s[1..]);
      assert [s[0]] + s[1..] == s;
    }
  }

  lemma TrimStartAfterSpace(p: string)
    requires p != "" && IsTrimmed(p)
    ensures TrimStart(" " + p) == p
  {
    assert (" " + p)[1..] == p;
  }

  lemma FramedPayload(p: string)
    requires IsSingleLinePayload(p)
    ensures Payload("data: " + p) == [p]
  {
    hide SplitLines, TrimStart, IsSpace;
    var line := "data: " + p;
    LineWithoutBreak(line);
    assert line[5..] == " " + p;
    TrimStartAfterSpace(p);
    assert DataOf(line) == [p];
    assert DataLines([line]) == DataLines([]) + DataOf(line);
  }

  lemma PayloadsOfOne(part: string)
    ensures Payloads([part]) == Payload(part)
  {
    hide Payload;
    assert [part] == [] + [part];
  }

  lemma OneShotAfterBlock(block: string, rest: string)
    requires '\n' !in block && block != "" && block[|block|-1] != '\r'
    ensures OneShot(block + "\n\n" + rest) == Payload(block) + OneShot(rest)
  {
    hide Parts, Payload, FinalPayload;
    PartBeforeBlankLine(block, rest);
    var parts := Parts(rest);
    assert Front([block] + parts) == [block] + Front(parts);
    PayloadsConcat([block], Front(parts));
    PayloadsOfOne(block);
  }

  lemma BlockOfPayload(p: string)
    requires IsSingleLinePayload(p)
    ensures var block := "data: " + p; '\n' !in block && block != "" && block[|block|-1] != '\r'
  {
    assert ("data: " + p)[|p|+5] == p[|p|-1];
  }

  lemma FrameOne(p: string, rest: string)
    requires IsSingleLinePayload(p)
    ensures OneShot("data: " + p + "\n\n" + rest) == [p] + OneShot(rest)
  {
    hide OneShot, Payload, IsSingleLinePayload;
    BlockOfPayload(p);
    FramedPayload(p);
    OneShotAfterBlock("data: " + p, rest);
  }

  /** A list of single-line payloads is recovered from its framing. */
  lemma {:induction false} FramedPayloadsComeBack(payloads: seq<string>)
    requires forall i | 0 <= i < |payloads| :: IsSingleLinePayload(payloads[i])
    ensures OneShot(Framed(payloads)) == payloads
  {
    hide OneShot, IsSingleLinePayload;
    if payloads == [] {
      NothingFramed();
    } else {
      FramedPayloadsComeBack(payloads[1..]);
      FrameOne(payloads[0], Framed(payloads[1..]));
      hide Framed;
      assert payloads == [payloads[0]] + payloads[1..];
    }
  }

  lemma NothingFramed()
    ensures OneShot("") == []
  {}

  // ----- blocks of lines, whatever their line breaks -----

  /** A line as it is sent: not empty, and closed by either kind of line break. */
  datatype Line = Line(text: string, carriageReturn: bool)

  predicate IsLine(l: Line) {
    l.text != "" && '\n' !in l.text && Last(l.text) != '\r'
  }

  function BreakText(carriageReturn: bool): string {
    if carriageReturn then "\r\n" else "\n"
  }

  function Written(lines: seq<Line>): string {
    if lines == [] then "" else lines[0].text + BreakText(lines[0].carriageReturn) + Written(lines[1..])
  }

  function Texts(lines: seq<Line>): (r: seq<string>)
    ensures |r| == |lines|
  {
    seq(|lines|, k requires 0 <= k < |lines| => lines[k].text)
  }

  /** What the data lines say, in order, without the blanks in front; all other lines say nothing. */
  ghost function Said(texts: seq<string>): seq<string> {
    if texts == [] then []
    else
      var before, last := Said(Front(texts)), Last(texts);
      if |last| >= 5 && last[..5] == "data:" then before + [TrimStart(last[5..])] else before
  }

  /** One call with what the lines say, one text a line, unless that is blank. */
  ghost function Delivered(texts: seq<string>): seq<string> {
    var data := Trim(Join(Said(texts), "\n"));
    if data == "" then [] else [data]
  }

  lemma {:induction false} SaidIsDataLines(texts: seq<string>)
    ensures DataLines(texts) == Said(texts)
  {
    hide TrimStart, IsSpace;
    if texts != [] { SaidIsDataLines(Front(texts)); }
  }

  lemma DeliveredIsAssembled(texts: seq<string>)
    ensures Assembled(DataLines(texts)) == Delivered(texts)
  {
    SaidIsDataLines(texts);
    hide DataLines, Said;
    assert Trim(Join([], "\n")) == "";
  }

  /** Text that holds no break and does not end in half of one. */
  predicate HoldsNoBreak(t: string) {
    '\n' !in t && (t != "" ==> Last(t) != '\r')
  }

  function GluedTo(t: string, pieces: seq<string>): seq<string>
    requires pieces != []
  {
    [t + pieces[0]] + pieces[1..]
  }

  lemma NoBreakAtFront(t: string, rest: string)
    requires HoldsNoBreak(t) && t != ""
    ensures BreakAt(t + rest, 0) == 0
  {
    assert (t + rest)[0] == t[0];
    if |t| > 1 { assert (t + rest)[1] == t[1]; }
  }

  lemma {:induction false} TextIsGlued(t: string, rest: string)
    requires HoldsNoBreak(t)
    ensures Parts(t + rest) == GluedTo(t, Parts(rest)) && SplitLines(t + rest) == GluedTo(t, SplitLines(rest))
  {
    if t == "" {
      assert t + rest == rest && t + Parts(rest)[0] == Parts(rest)[0] && t + SplitLines(rest)[0] == SplitLines(rest)[0];
    } else {
      NoBreakAtFront(t, rest);
      assert (t + rest)[1..] == t[1..] + rest && (t + rest)[0] == t[0];
      TextIsGlued(t[1..], rest);
      GluedLonger(t, Parts(rest));
      GluedLonger(t, SplitLines(rest));
      hide BreakAt, HoldsNoBreak;
    }
  }

  lemma GluedLonger(t: string, pieces: seq<string>)
    requires t != "" && pieces != []
    ensures var rest := GluedTo(t[1..], pieces); [[t[0]] + rest[0]] + rest[1..] == GluedTo(t, pieces)
  {
    assert [t[0]] + (t[1..] + pieces[0]) == t + pieces[0];
  }

  /** A line break before text that starts with none. */
  lemma BreakIsGlued(carriageReturn: bool, rest: string)
    requires BreakAt(rest, 0) == 0
    ensures Parts(BreakText(carriageReturn) + rest) == GluedTo(BreakText(carriageReturn), Parts(rest))
  {
    var one := "\n" + rest;
    assert one[1..] == rest && BreakAt(one, 0) == 1 && BreakAt(one, 1) == 0;
    assert Parts(one) == GluedTo("\n", Parts(rest));
    if carriageReturn {
      var two := "\r\n" + rest;
      assert two[1..] == one && BreakAt(two, 0) == 2 && BreakAt(two, 2) == 0;
      assert Parts(two) == [['\r'] + Parts(one)[0]] + Parts(one)[1..];
      assert ['\r'] + ("\n" + Parts(rest)[0]) == "\r\n" + Parts(rest)[0];
    }
  }

  lemma LineIsSplit(carriageReturn: bool, rest: string)
    ensures SplitLines(BreakText(carriageReturn) + rest) == [""] + SplitLines(rest)
  {
    var text := BreakText(carriageReturn) + rest;
    assert BreakAt(text, 0) == |BreakText(carriageReturn)| && text[|BreakText(carriageReturn)|..] == rest;
  }

  lemma BlankLineIsSplit(first: bool, second: bool, rest: string)
    ensures Parts(BreakText(first) + BreakText(second) + rest) == [""] + Parts(rest)
  {
    var text, n := BreakText(first) + BreakText(second) + rest, |BreakText(first)| + |BreakText(second)|;
    assert BreakAt(text, 0) == |BreakText(first)|;
    assert BreakAt(text, |BreakText(first)|) == |BreakText(second)|;
    assert text[n..] == rest;
  }

  /** The block without the break of its last line. */
  function Body(lines: seq<Line>): string
    requires lines != []
  {
    if |lines| == 1 then lines[0].text
    else lines[0].text + (BreakText(lines[0].carriageReturn) + Body(lines[1..]))
  }

  predicate AreLines(lines: seq<Line>) {
    forall k | 0 <= k < |lines| :: IsLine(lines[k])
  }

  lemma LineIsText(l: Line)
    requires IsLine(l)
    ensures l.text != "" && HoldsNoBreak(l.text)
  {}

  lemma LineThenMore(t: string, carriageReturn: bool, rest: string)
    requires HoldsNoBreak(t)
    ensures SplitLines(t + (BreakText(carriageReturn) + rest)) == [t] + SplitLines(rest)
  {
    hide SplitLines, BreakText, HoldsNoBreak;
    LineIsSplit(carriageReturn, rest);
    TextIsGlued(t, BreakText(carriageReturn) + rest);
    assert t + "" == t;
  }

  lemma LineThenNothing(t: string)
    requires HoldsNoBreak(t) && t != ""
    ensures SplitLines(t) == [t] && Parts(t) == [t] && BreakAt(t, 0) == 0
  {
    TextIsGlued(t, "");
    NoBreakAtFront(t, "");
    assert t + "" == t;
  }

  lemma BodyOfMore(lines: seq<Line>)
    requires |lines| > 1
    ensures Body(lines) == lines[0].text + (BreakText(lines[0].carriageReturn) + Body(lines[1..]))
    ensures Texts(lines) == [lines[0].text] + Texts(lines[1..])
  {
    hide BreakText, Body;
    BodyUnfolds(lines);
  }

  lemma BodyUnfolds(lines: seq<Line>)
    requires |lines| > 1
    ensures Body(lines) == lines[0].text + (BreakText(lines[0].carriageReturn) + Body(lines[1..]))
  {}

  lemma {:induction false} BodyIsSplit(lines: seq<Line>)
    requires lines != [] && AreLines(lines)
    ensures SplitLines(Body(lines)) == Texts(lines)
  {
    var l := lines[0];
    LineIsText(l);
    if |lines| == 1 {
      LineThenNothing(l.text);
    } else {
      BodyIsSplit(lines[1..]);
      BodyOfMore(lines);
      hide *;
      LineThenMore(l.text, l.carriageReturn, Body(lines[1..]));
    }
  }

  lemma WrittenOfMore(lines: seq<Line>, rest: string)
    requires lines != []
    ensures Written(lines) + rest == lines[0].text + (BreakText(lines[0].carriageReturn) + (Written(lines[1..]) + rest))
  {
    hide BreakText;
  }

  lemma WrittenStarts(lines: seq<Line>, rest: string)
    requires lines != [] && AreLines(lines)
    ensures BreakAt(Written(lines) + rest, 0) == 0
  {
    LineIsText(lines[0]);
    WrittenOfMore(lines, rest);
    hide *;
    NoBreakAtFront(lines[0].text, BreakText(lines[0].carriageReturn) + (Written(lines[1..]) + rest));
  }

  lemma LineThenBlank(t: string, first: bool, second: bool, rest: string)
    requires HoldsNoBreak(t)
    ensures Parts(t + (BreakText(first) + (BreakText(second) + rest))) == [t] + Parts(rest)
  {
    hide Parts, BreakText, HoldsNoBreak;
    BlankLineIsSplit(first, second, rest);
    assert BreakText(first) + (BreakText(second) + rest) == BreakText(first) + BreakText(second) + rest;
    TextIsGlued(t, BreakText(first) + (BreakText(second) + rest));
    assert t + "" == t;
  }

  lemma LineThenBlock(t: string, carriageReturn: bool, tail: string, body: string, parts: seq<string>)
    requires HoldsNoBreak(t) && BreakAt(tail, 0) == 0 && Parts(tail) == [body] + parts
    ensures Parts(t + (BreakText(carriageReturn) + tail)) == [t + (BreakText(carriageReturn) + body)] + parts
  {
    hide Parts, BreakText, HoldsNoBreak, BreakAt;
    BreakIsGlued(carriageReturn, tail);
    TextIsGlued(t, BreakText(carriageReturn) + tail);
  }

  /** A blank line behind the lines closes one part, and only there. */
  lemma {:induction false} BlockIsSplit(lines: seq<Line>, close: bool, rest: string)
    requires lines != [] && AreLines(lines)
    ensures Parts(Written(lines) + (BreakText(close) + rest)) == [Body(lines)] + Parts(rest)
  {
    var l, others, tail := lines[0], lines[1..], BreakText(close) + rest;
    LineIsText(l);
    WrittenOfMore(lines, tail);
    if others == [] {
      assert Written(others) + tail == tail && Body(lines) == l.text;
      hide *;
      LineThenBlank(l.text, l.carriageReturn, close, rest);
    } else {
      BlockIsSplit(others, close, rest);
      WrittenStarts(others, tail);
      BodyOfMore(lines);
      hide *;
      LineThenBlock(l.text, l.carriageReturn, Written(others) + tail, Body(others), Parts(rest));
    }
  }

  /** A block in front of any text is one call with what its data lines say, if that is not blank: whichever line
      breaks close its lines, and whatever else it holds. */
  lemma BlockIsRead(lines: seq<Line>, close: bool, rest: string)
    requires lines != [] && AreLines(lines)
    ensures OneShot(Written(lines) + (BreakText(close) + rest)) == Delivered(Texts(lines)) + OneShot(rest)
  {
    BlockIsSplit(lines, close, rest);
    PayloadOfBody(lines);
    OneShotOfMore(Written(lines) + (BreakText(close) + rest), Body(lines), rest);
    hide *;
  }

  lemma PayloadOfBody(lines: seq<Line>)
    requires lines != [] && AreLines(lines)
    ensures Payload(Body(lines)) == Delivered(Texts(lines))
  {
    BodyIsSplit(lines);
    DeliveredIsAssembled(Texts(lines));
    hide SplitLines, Body, Texts, DataLines, Assembled, Delivered, IsLine;
  }

  lemma OneShotOfMore(text: string, part: string, rest: string)
    requires Parts(text) == [part] + Parts(rest)
    ensures OneShot(text) == Payload(part) + OneShot(rest)
  {
    hide Parts, Payload, FinalPayload;
    var parts := Parts(rest);
    assert Front([part] + parts) == [part] + Front(parts);
    PayloadsConcat([part], Front(parts));
    PayloadsOfOne(part);
  }

  /** So is a last block that only the end of the connection closes. */
  lemma LastBlockIsRead(lines: seq<Line>)
    requires lines != [] && AreLines(lines)
    ensures OneShot(Body(lines)) == Delivered(Texts(lines))
  {
    BodyHoldsNoBlankLine(lines);
    PayloadOfBody(lines);
    if Trim(Body(lines)) == "" { BlankBodySaysNothing(lines); }
    hide Parts, Payload, Delivered, Body, Texts, Trim, IsLine;
  }

  lemma {:induction false} BodyHoldsNoBlankLine(lines: seq<Line>)
    requires lines != [] && AreLines(lines)
    ensures Parts(Body(lines)) == [Body(lines)] && BreakAt(Body(lines), 0) == 0
  {
    var l := lines[0];
    LineIsText(l);
    if |lines| == 1 {
      LineThenNothing(l.text);
    } else {
      BodyHoldsNoBlankLine(lines[1..]);
      BodyOfMore(lines);
      hide *;
      LineThenBlock(l.text, l.carriageReturn, Body(lines[1..]), Body(lines[1..]), []);
      NoBreakAtFront(l.text, BreakText(l.carriageReturn) + Body(lines[1..]));
    }
  }

  /** A blank block has no data line. */
  lemma BlankBodySaysNothing(lines: seq<Line>)
    requires lines != [] && AreLines(lines) && Trim(Body(lines)) == ""
    ensures Delivered(Texts(lines)) == []
  {
    TrimOfBlank(Body(lines));
    hide IsSpace;
    BlankLines(lines);
    BlankSaysNothing(Texts(lines));
    assert Trim(Join([], "\n")) == "";
  }

  lemma {:induction false} BlankLines(lines: seq<Line>)
    requires lines != [] && IsBlank(Body(lines))
    ensures forall k | 0 <= k < |lines| :: IsBlank(lines[k].text)
  {
    hide IsSpace;
    if |lines| > 1 {
      var l, body := lines[0], Body(lines);
      var from := |l.text| + |BreakText(l.carriageReturn)|;
      assert body[from..] == Body(lines[1..]) && body[..|l.text|] == l.text;
      forall k | 0 <= k < |Body(lines[1..])| ensures IsSpace(Body(lines[1..])[k]) {
        assert Body(lines[1..])[k] == body[from + k];
      }
      forall k | 0 <= k < |l.text| ensures IsSpace(l.text[k]) {
        assert l.text[k] == body[k];
      }
      BlankLines(lines[1..]);
      assert forall k | 1 <= k < |lines| :: lines[k] == lines[1..][k-1];
    }
  }

  lemma {:induction false} BlankSaysNothing(texts: seq<string>)
    requires forall k | 0 <= k < |texts| :: IsBlank(texts[k])
    ensures Said(texts) == []
  {
    if texts != [] {
      BlankSaysNothing(Front(texts));
      var last := Last(texts);
      assert IsBlank(last) ==> last == "" || last[0] != 'd';
    }
  }
}
