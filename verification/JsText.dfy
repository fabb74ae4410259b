/** String operations of the host language, on sequences.  A `char` stands for one UTF-16 code unit;
    a surrogate half behaves like any other character that none of the tests below mentions. */
module JsText {

  datatype Option<+T> = None | Some(value: T)

  /** White space as `trim` and the `\s` class see it. */
  predicate IsSpace(c: char) {
    || '\t' <= c <= '\r' || c == ' ' || c == '\U{00A0}' || c == '\U{1680}'
    || '\U{2000}' <= c <= '\U{200A}' || IsLineTerminator(c)
    || c == '\U{202F}' || c == '\U{205F}' || c == '\U{3000}' || c == '\U{FEFF}'
  }

  /** Characters the multi-line anchors stop at. */
  predicate IsLineTerminator(c: char) {
    c == '\n' || c == '\r' || c == '\U{2028}' || c == '\U{2029}'
  }

  /** `slice(from, to)` for indices that are not negative. */
  function Slice<T>(s: seq<T>, from: nat, to: nat): seq<T> {
    if from <= to <= |s| then s[from..to] else if from <= |s| < to then s[from..] else []
  }

  lemma SliceOfSlice<T>(s: seq<T>, i: nat, j: nat, k: nat, l: nat)
    requires i <= j <= |s| && k <= l <= j - i
    ensures s[i..j][k..l] == s[i+k..i+l]
  {
    var a, b := s[i..j][k..l], s[i+k..i+l];
    forall x | 0 <= x < |a| ensures a[x] == b[x] {
      assert a[x] == s[i..j][k+x];
    }
  }

  function Front<T>(s: seq<T>): seq<T>
    requires s != []
  {
    s[..|s|-1]
  }

  function Last<T>(s: seq<T>): T
    requires s != []
  {
    s[|s|-1]
  }

  /** `slice(-n)` for positive `n`: the last elements, or all of them. */
  function LastN<T>(s: seq<T>, n: nat): (r: seq<T>)
    ensures |r| == if |s| <= n then |s| else n
    ensures r == s[|s|-|r|..]
  {
    if |s| <= n then s else s[|s|-n..]
  }

  function Min(a: int, b: int): int {
    if a < b then a else b
  }

  function Max(a: int, b: int): int {
    if a < b then b else a
  }

  lemma {:induction false} SubsetSize<T>(x: set<T>, y: set<T>)
    requires x <= y
    ensures |x| <= |y|
  {
    if x != {} {
      var e :| e in x;
      SubsetSize(x - {e}, y - {e});
    }
  }

  // ----- trimming -----

  function TrimStart(s: string): (r: string)
    ensures |r| <= |s| && r == s[|s|-|r|..]
    ensures r != "" ==> !IsSpace(r[0])
    ensures forall k | 0 <= k < |s| - |r| :: IsSpace(s[k])
  {
    if s != "" && IsSpace(s[0]) then TrimStart(s[1..]) else s
  }

  function TrimEnd(s: string): (r: string)
    ensures r <= s
    ensures r != "" ==> !IsSpace(r[|r|-1])
    ensures forall k | |r| <= k < |s| :: IsSpace(s[k])
  {
    if s != "" && IsSpace(s[|s|-1]) then TrimEnd(s[..|s|-1]) else s
  }

  function Trim(s: string): (r: string)
    ensures IsTrimmed(r)
    ensures IsTrimmed(s) ==> r == s
  {
    TrimEnd(TrimStart(s))
  }

  predicate IsTrimmed(s: string) {
    s != "" ==> !IsSpace(s[0]) && !IsSpace(s[|s|-1])
  }

  predicate IsBlank(s: string) {
    forall k | 0 <= k < |s| :: IsSpace(s[k])
  }

  lemma TrimOfBlank(s: string)
    ensures Trim(s) == "" <==> IsBlank(s)
  {
    var t := TrimStart(s);
    assert t != "" ==> t[0] == s[|s|-|t|];
    assert t != "" ==> TrimEnd(t) != "";
  }

  lemma TrimIgnoresLeadingSpace(c: char, s: string)
    requires IsSpace(c)
    ensures Trim([c] + s) == Trim(s)
  {
    assert ([c] + s)[1..] == s;
  }

  /** The trimmed string is a piece of the original with nothing but white space around it. */
  lemma TrimIsPiece(s: string) returns (from: nat)
    ensures from + |Trim(s)| <= |s| && s[from..from+|Trim(s)|] == Trim(s)
    ensures forall k | 0 <= k < from || from + |Trim(s)| <= k < |s| :: IsSpace(s[k])
  {
    hide IsSpace, IsTrimmed, TrimStart, TrimEnd;
    var t := TrimStart(s);
    from := |s| - |t|;
    forall k | from + |Trim(s)| <= k < |s| ensures IsSpace(s[k]) {
      assert s[k] == t[k - from];
    }
  }

  // ----- selecting by position -----

  /** `at` lists, in order, exactly the positions below `n` that are picked. */
  ghost predicate Selects(at: seq<nat>, n: nat, picked: nat -> bool) {
    && (forall j | 0 <= j < |at| :: at[j] < n && picked(at[j]))
    && (forall i, j | 0 <= i < j < |at| :: at[i] < at[j])
    && (forall k: nat | k < n && picked(k) :: k in at)
  }

  /** `r` is what `s` holds at these positions. */
  ghost predicate Gathers<T>(r: seq<T>, s: seq<T>, at: seq<nat>) {
    |r| == |at| && forall j | 0 <= j < |at| :: at[j] < |s| && r[j] == s[at[j]]
  }

  lemma GathersNext<T>(r: seq<T>, s: seq<T>, at: seq<nat>, n: nat)
    requires n < |s| && Gathers(r, s[..n], at)
    ensures Gathers(r, s[..n+1], at) && Gathers(r + [s[n]], s[..n+1], at + [n])
  {}

  lemma SelectsNext(at: seq<nat>, n: nat, picked: nat -> bool)
    requires Selects(at, n, picked)
    ensures Selects(if picked(n) then at + [n] else at, n + 1, picked)
  {
    if picked(n) {
      var more := at + [n];
      forall k: nat | k < n + 1 && picked(k) ensures k in more {
        if k < n { assert k in at; } else { assert more[|at|] == k; }
      }
    }
  }

  // ----- splitting and joining -----

  function Split<T(==)>(s: seq<T>, sep: T): (r: seq<seq<T>>)
    ensures r != []
  {
    if s == [] then [[]]
    else
      var rest := Split(s[1..], sep);
      if s[0] == sep then [[]] + rest else [[s[0]] + rest[0]] + rest[1..]
  }

  lemma {:induction false} PiecesHaveNoSeparator<T>(s: seq<T>, sep: T, k: nat)
    requires k < |Split(s, sep)|
    ensures sep !in Split(s, sep)[k]
  {
    if s != [] {
      var rest := Split(s[1..], sep);
      if s[0] == sep {
        if k > 0 { PiecesHaveNoSeparator(s[1..], sep, k - 1); }
      } else {
        PiecesHaveNoSeparator(s[1..], sep, k);
      }
    }
  }

  /** The pieces of a concatenation: the last piece of `x` runs on into the first of `y`. */
  function Glue<T>(x: seq<seq<T>>, y: seq<seq<T>>): (r: seq<seq<T>>)
    requires x != [] && y != []
    ensures |r| == |x| + |y| - 1
  {
    x[..|x|-1] + [x[|x|-1] + y[0]] + y[1..]
  }

  lemma GlueAfterHead<T>(head: seq<T>, x: seq<seq<T>>, y: seq<seq<T>>)
    requires x != [] && y != []
    ensures Glue([head] + x, y) == [head] + Glue(x, y)
  {}

  lemma GlueLongerHead<T>(c: T, x: seq<seq<T>>, y: seq<seq<T>>)
    requires x != [] && y != []
    ensures Glue([[c] + x[0]] + x[1..], y) == [[c] + Glue(x, y)[0]] + Glue(x, y)[1..]
  {
    if |x| == 1 {
      assert ([c] + x[0]) + y[0] == [c] + (x[0] + y[0]);
    }
  }

  lemma {:induction false} SplitConcat<T>(a: seq<T>, b: seq<T>, sep: T)
    ensures Split(a + b, sep) == Glue(Split(a, sep), Split(b, sep))
  {
    var y := Split(b, sep);
    if a == [] {
      assert a + b == b;
      assert [] + y[0] == y[0];
    } else {
      SplitConcat(a[1..], b, sep);
      assert (a + b)[1..] == a[1..] + b;
      if a[0] == sep {
        GlueAfterHead([], Split(a[1..], sep), y);
      } else {
        GlueLongerHead(a[0], Split(a[1..], sep), y);
      }
    }
  }

  /** Every line followed by the separator. */
  function Unlines<T>(lines: seq<seq<T>>, sep: T): seq<T> {
    if lines == [] then [] else lines[0] + [sep] + Unlines(lines[1..], sep)
  }

  lemma {:induction false} UnlinesConcat<T>(a: seq<seq<T>>, b: seq<seq<T>>, sep: T)
    ensures Unlines(a + b, sep) == Unlines(a, sep) + Unlines(b, sep)
  {
    if a == [] {
      assert a + b == b;
    } else {
      UnlinesConcat(a[1..], b, sep);
      assert (a + b)[1..] == a[1..] + b;
      assert a[0] + [sep] + Unlines(a[1..], sep) + Unlines(b, sep)
        == a[0] + [sep] + (Unlines(a[1..], sep) + Unlines(b, sep));
    }
  }

  lemma {:induction false} SplitAfterLine<T>(line: seq<T>, rest: seq<T>, sep: T)
    requires sep !in line
    ensures Split(line + [sep] + rest, sep) == [line] + Split(rest, sep)
  {
    var s := line + [sep] + rest;
    if line == [] {
      assert s[1..] == rest;
    } else {
      SplitAfterLine(line[1..], rest, sep);
      assert s[1..] == line[1..] + [sep] + rest;
      assert [line[0]] + line[1..] == line;
    }
  }

  lemma {:induction false} SplitOfUnlines<T>(lines: seq<seq<T>>, sep: T)
    requires forall k | 0 <= k < |lines| :: sep !in lines[k]
    ensures Split(Unlines(lines, sep), sep) == lines + [[]]
  {
    if lines != [] {
      SplitOfUnlines(lines[1..], sep);
      SplitAfterLine(lines[0], Unlines(lines[1..], sep), sep);
    }
  }

  function Join(parts: seq<string>, glue: string): string {
    if parts == [] then "" else if |parts| == 1 then parts[0] else parts[0] + glue + Join(parts[1..], glue)
  }

  lemma {:induction false} SplitWithoutSeparator<T>(s: seq<T>, sep: T)
    requires sep !in s
    ensures Split(s, sep) == [s]
  {
    if s != [] {
      SplitWithoutSeparator(s[1..], sep);
      assert [s[0]] + s[1..] == s;
    }
  }

  // ----- searching -----

  predicate MatchesAt(s: string, pattern: string, p: nat) {
    p + |pattern| <= |s| && s[p..p+|pattern|] == pattern
  }

  predicate Contains(s: string, pattern: string) {
    exists p | 0 <= p <= |s| :: MatchesAt(s, pattern, p)
  }

  function IndexOf(s: string, pattern: string, from: nat := 0): (r: Option<nat>)
    requires from <= |s|
    ensures r.Some? ==>
      && from <= r.value && MatchesAt(s, pattern, r.value)
      && forall p | from <= p < r.value :: !MatchesAt(s, pattern, p)
    ensures r.None? ==> forall p | from <= p <= |s| :: !MatchesAt(s, pattern, p)
    decreases |s| - from
  {
    if MatchesAt(s, pattern, from) then Some(from)
    else if from == |s| then None
    else IndexOf(s, pattern, from + 1)
  }

  // ----- numbers -----

  function Digits(n: nat): (r: string)
    ensures r != "" && forall k | 0 <= k < |r| :: '0' <= r[k] <= '9'
  {
    if n < 10 then ["0123456789"[n]] else Digits(n / 10) + ["0123456789"[n % 10]]
  }

  lemma {:induction false} DigitsDiffer(m: nat, n: nat)
    requires Digits(m) == Digits(n)
    ensures m == n
  {
    LastDigit(m);
    LastDigit(n);
    hide Digits;
    SameDigit(m % 10, n % 10);
    if m >= 10 && n >= 10 { DigitsDiffer(m / 10, n / 10); }
  }

  lemma LastDigit(n: nat)
    ensures var a := Digits(n);
            && a[|a|-1] == "0123456789"[n % 10]
            && (n >= 10 ==> |a| > 1 && a[..|a|-1] == Digits(n / 10)) && (n < 10 ==> |a| == 1)
  {}

  lemma SameDigit(a: nat, b: nat)
    requires a < 10 && b < 10 && "0123456789"[a] == "0123456789"[b]
    ensures a == b
  {}
}
