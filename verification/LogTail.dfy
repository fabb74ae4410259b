/** Tail reads of a JSONL log: byte windows from the end of the file, widened until the cap is covered. */
module LogTail {
  import opened JsText

  newtype byte = b: int | 0 <= b < 256

  const NEWLINE: byte := 10

  const TAIL_PROBE_BYTES := 4 * 1024 * 1024
  const MAX_TAIL_PROBES := 4

  /** The row of one physical line; None for a blank or torn line.  Decoding happens inside: a newline
      byte never belongs to a longer character (section 3 of RFC 3629). */
  type RowParser<!T> = seq<byte> -> Option<T>

  datatype TailWindow<T> = TailWindow(rows: seq<T>, count: nat, truncated: bool)

  datatype Tail<T> = Tail(rows: seq<T>, truncated: bool)

  // ----- what a whole-file read gives -----

  /** Physical lines: split at newlines, without the empty piece a final newline leaves. */
  function Lines(bytes: seq<byte>): (r: seq<seq<byte>>) {
    var pieces := Split(bytes, NEWLINE);
    if pieces[|pieces|-1] == [] then pieces[..|pieces|-1] else pieces
  }

  /** Rows of the lines that parse, in order. */
  function Rows<T>(lines: seq<seq<byte>>, parse: RowParser<T>): seq<T> {
    if lines == [] then []
    else Rows(lines[..|lines|-1], parse) + (match parse(lines[|lines|-1]) case None => [] case Some(row) => [row])
  }

  /** Every file is lines that end in a newline and a rest without one; the rest is a line unless it is empty. */
  lemma FileIsItsLines(lines: seq<seq<byte>>, rest: seq<byte>)
    requires (forall k | 0 <= k < |lines| :: NEWLINE !in lines[k]) && NEWLINE !in rest
    ensures Lines(Unlines(lines, NEWLINE) + rest) == lines + if rest == [] then [] else [rest]
  {
    hide Split, Unlines;
    SplitOfUnlines(lines, NEWLINE);
    SplitWithoutSeparator(rest, NEWLINE);
    SplitConcat(Unlines(lines, NEWLINE), rest, NEWLINE);
    assert Glue(lines + [[]], [rest]) == lines + [rest] by { assert [] + rest == rest; }
    hide Glue;
  }

  /** These rows are what the lines at these positions parse to. */
  ghost predicate AreRowsOf<T>(rows: seq<T>, lines: seq<seq<byte>>, at: seq<nat>, parse: RowParser<T>) {
    |rows| == |at| && forall j | 0 <= j < |at| :: at[j] < |lines| && parse(lines[at[j]]) == Some(rows[j])
  }

  lemma RowsNext<T>(rows: seq<T>, lines: seq<seq<byte>>, at: seq<nat>, parse: RowParser<T>, n: nat)
    requires n < |lines| && AreRowsOf(rows, lines[..n], at, parse)
    ensures AreRowsOf(rows, lines[..n+1], at, parse)
    ensures parse(lines[n]).Some? ==> AreRowsOf(rows + [parse(lines[n]).value], lines[..n+1], at + [n], parse)
  {}

  lemma RowsOfOneMore<T>(lines: seq<seq<byte>>, parse: RowParser<T>, n: nat)
    requires n < |lines|
    ensures Rows(lines[..n+1], parse)
         == if parse(lines[n]).Some? then Rows(lines[..n], parse) + [parse(lines[n]).value] else Rows(lines[..n], parse)
  {
    assert lines[..n+1][..n] == lines[..n];
  }

  lemma {:induction false} RowsUpTo<T>(lines: seq<seq<byte>>, parse: RowParser<T>, n: nat, picked: nat -> bool)
    returns (at: seq<nat>)
    requires n <= |lines| && forall k | 0 <= k < |lines| :: picked(k) == parse(lines[k]).Some?
    ensures Selects(at, n, picked) && AreRowsOf(Rows(lines[..n], parse), lines[..n], at, parse)
  {
    if n == 0 { return []; }
    hide *;
    var before := RowsUpTo(lines, parse, n - 1, picked);
    at := if picked(n - 1) then before + [n - 1] else before;
    assert picked(n - 1) == parse(lines[n-1]).Some?;
    RowsOfOneMore(lines, parse, n - 1);
    SelectsNext(before, n - 1, picked);
    RowsNext(Rows(lines[..n-1], parse), lines, before, parse, n - 1);
  }

  /** The rows are those of the lines that parse, each once, in their order. */
  lemma RowsArePicked<T>(lines: seq<seq<byte>>, parse: RowParser<T>) returns (at: seq<nat>)
    ensures Selects(at, |lines|, (k: nat) => k < |lines| && parse(lines[k]).Some?)
    ensures AreRowsOf(Rows(lines, parse), lines, at, parse)
  {
    at := RowsUpTo(lines, parse, |lines|, (k: nat) => k < |lines| && parse(lines[k]).Some?);
    assert lines[..|lines|] == lines;
    hide Rows, AreRowsOf;
  }

  /** One parse of the whole file under the cap. */
  function WholeFile<T>(file: seq<byte>, cap: nat, parse: RowParser<T>): Tail<T> {
    Tail(Rows(LastN(Lines(file), cap), parse), |Lines(file)| > cap)
  }

  // ----- windows -----

  /** The lines of a window: a line cut by the window start is dropped. */
  function WindowLines(file: seq<byte>, start: nat): seq<seq<byte>>
    requires start <= |file|
  {
    var lines := Lines(file[start..]);
    if start > 0 && lines != [] then lines[1..] else lines
  }

  /** The lines of two glued lists of pieces: a later list of several pieces gives up only its first. */
  lemma LinesOfGlue(file: seq<byte>, start: nat, x: seq<seq<byte>>, y: seq<seq<byte>>)
    requires start <= |file| && x != [] && |y| > 1
    requires Split(file, NEWLINE) == Glue(x, y) && Split(file[start..], NEWLINE) == y
    ensures |Lines(file)| >= |x| && Lines(file)[|x|..] == Lines(file[start..])[1..]
  {
    hide Split;
    var all := Glue(x, y);
    assert all[|all|-1] == y[|y|-1] && all[|x|..] == y[1..];
    assert all[|x|..|all|-1] == y[1..|y|-1];
  }

  lemma LinesAreSome(file: seq<byte>)
    requires file != []
    ensures Lines(file) != []
  {
    if |Split(file, NEWLINE)| == 1 {
      SplitSinglePiece(file);
    }
  }

  lemma SuffixIsLast<T>(suffix: seq<T>, s: seq<T>, i: nat)
    requires 0 < i <= |s| && suffix == s[i..]
    ensures |suffix| < |s| && suffix == LastN(s, |suffix|)
  {}

  /** A window that starts inside the file holds the last lines of the file, and not all of them. */
  lemma WindowIsSuffix(file: seq<byte>, start: nat)
    requires 0 < start < |file|
    ensures |WindowLines(file, start)| < |Lines(file)|
    ensures WindowLines(file, start) == LastN(Lines(file), |WindowLines(file, start)|)
  {
    var x, y := Split(file[..start], NEWLINE), Split(file[start..], NEWLINE);
    if |y| == 1 {
      SplitSinglePiece(file[start..]);
      LinesAreSome(file);
      SuffixIsLast([], Lines(file), |Lines(file)|);
    } else {
      assert file == file[..start] + file[start..];
      SplitConcat(file[..start], file[start..], NEWLINE);
      LinesOfGlue(file, start, x, y);
      assert WindowLines(file, start) == Lines(file)[|x|..] by { hide Split, Glue; }
      SuffixIsLast(WindowLines(file, start), Lines(file), |x|);
    }
  }

  lemma {:induction false} SplitSinglePiece(s: seq<byte>)
    requires |Split(s, NEWLINE)| == 1
    ensures Split(s, NEWLINE) == [s]
  {
    if s != [] {
      SplitSinglePiece(s[1..]);
      assert [s[0]] + s[1..] == s;
    }
  }

  /** Fills the window buffer; each system read returns some positive number of bytes. */
  method FillWindow(file: seq<byte>, start: nat, chunk: nat -> nat) returns (bytes: array<byte>)
    requires start <= |file|
    ensures fresh(bytes) && bytes[..] == file[start..]
  {
    bytes := new byte[|file| - start];
    var filled := 0;
    while filled < bytes.Length
      invariant filled <= bytes.Length
      invariant forall k | 0 <= k < filled :: bytes[k] == file[start+k]
    {
      var left := bytes.Length - filled;
      var read := if chunk(filled) == 0 then 1 else if chunk(filled) > left then left else chunk(filled);
      forall k | 0 <= k < read {
        bytes[filled + k] := file[start + filled + k];
      }
      filled := filled + read;
    }
  }

  method ParseRows<T>(lines: seq<seq<byte>>, parse: RowParser<T>) returns (rows: seq<T>)
    ensures rows == Rows(lines, parse)
  {
    rows := [];
    for k := 0 to |lines|
      invariant rows == Rows(lines[..k], parse)
    {
      assert lines[..k+1][..k] == lines[..k];
      match parse(lines[k])
      case None =>
      case Some(row) => rows := rows + [row];
    }
    assert lines[..|lines|] == lines;
  }

  /** Splits the window; the piece after the last newline and a line cut at the front are no rows. */
  method SplitWindow(window: seq<byte>, cut: bool) returns (lines: seq<seq<byte>>)
    ensures lines == if cut && Lines(window) != [] then Lines(window)[1..] else Lines(window)
  {
    hide Split;
    lines := Split(window, NEWLINE);
    if lines[|lines|-1] == [] { lines := lines[..|lines|-1]; }
    if cut && lines != [] { lines := lines[1..]; }
  }

  method ParseTailWindow<T>(file: seq<byte>, start: nat, cap: nat, parse: RowParser<T>, chunk: nat -> nat)
    returns (w: TailWindow<T>)
    requires start <= |file| && cap >= 1
    ensures w.count == |WindowLines(file, start)|
    ensures w.truncated == (start > 0 || w.count > cap)
    ensures w.rows == Rows(LastN(WindowLines(file, start), cap), parse)
  {
    hide Lines, Rows;
    var bytes := FillWindow(file, start, chunk);
    var lines := SplitWindow(bytes[..], start > 0);
    var truncated := start > 0 || |lines| > cap;
    var rows := ParseRows(if truncated then LastN(lines, cap) else lines, parse);
    w := TailWindow(rows, |lines|, truncated);
  }

  lemma FullWindow(file: seq<byte>)
    ensures WindowLines(file, 0) == Lines(file)
  {
    assert file[0..] == file;
  }

  /** The answer for a file of these lines: the rows of its last `cap` ones, cut exactly when there are more. */
  lemma TailOfLines<T>(lines: seq<seq<byte>>, rest: seq<byte>, cap: nat, parse: RowParser<T>)
    requires (forall k | 0 <= k < |lines| :: NEWLINE !in lines[k]) && NEWLINE !in rest
    ensures var all := lines + if rest == [] then [] else [rest];
            WholeFile(Unlines(lines, NEWLINE) + rest, cap, parse)
            == Tail(Rows(if |all| > cap then all[|all|-cap..] else all, parse), |all| > cap)
  {
    FileIsItsLines(lines, rest);
    hide Lines, Rows;
  }

  /** A window that covers the cap answers like the whole file. */
  lemma CoveringWindow<T>(file: seq<byte>, start: nat, cap: nat, parse: RowParser<T>)
    requires start < |file| && cap >= 1
    requires start == 0 || |WindowLines(file, start)| >= cap
    ensures WholeFile(file, cap, parse)
         == Tail(Rows(LastN(WindowLines(file, start), cap), parse), start > 0 || |WindowLines(file, start)| > cap)
  {
    hide Rows, Split, Lines, WindowLines;
    if start > 0 {
      WindowIsSuffix(file, start);
      var all, lines := Lines(file), WindowLines(file, start);
      assert LastN(lines, cap) == lines[|lines|-cap..] == all[|all|-cap..] == LastN(all, cap);
    } else {
      FullWindow(file);
    }
  }

  /** Whatever sizes the probes take, the answer is that of one whole-file parse.
      `needed` is the size estimate for the next window from the current window and its line count. */
  method ReadJsonlTail<T>(file: seq<byte>, cap: nat, parse: RowParser<T>, needed: (nat, nat) -> nat, chunk: nat -> nat)
    returns (tail: Tail<T>)
    requires cap >= 1
    ensures tail == WholeFile(file, cap, parse)
  {
    var size := |file|;
    if size == 0 { return Tail([], false); }
    var window := if size < TAIL_PROBE_BYTES then size else TAIL_PROBE_BYTES;
    for probe := 0 to MAX_TAIL_PROBES
      invariant 0 < window <= size
    {
      var start := size - window;
      var parsed := ParseTailWindow(file, start, cap, parse, chunk);
      if start == 0 || parsed.count >= cap {
        CoveringWindow(file, start, cap, parse);
        return Tail(parsed.rows, parsed.truncated);
      }
      var wider := if needed(window, parsed.count) > window * 2 then needed(window, parsed.count) else window * 2;
      window := if size < wider then size else wider;
    }
    var parsed := ParseTailWindow(file, 0, cap, parse, chunk);
    CoveringWindow(file, 0, cap, parse);
    tail := Tail(parsed.rows, parsed.truncated);
  }
}
