/** Alignment of two answers by longest common subsequence, and their multiset similarity.  Units are compared by
    their fold: white space collapsed, then lower-cased by the host's `lower`.  The table and the walk through it
    need nothing of the fold, so they take any normalisation `norm`. */
module AnswerCompare {
  import opened JsText

  newtype uint32 = x: int | 0 <= x < 0x1_0000_0000

  /** Units beyond this count are cut from each answer before it is compared. */
  const MAX_UNITS := 400

  datatype Row =
    | Same(a: string, b: string)
    | OnlyA(a: string)
    | OnlyB(b: string)

  /** The unit list of an answer, cut to the guard that bounds the table. */
  function CapUnits(units: seq<string>): (r: seq<string>)
    ensures r <= units && |r| == if |units| > 400 then 400 else |units|
  {
    if |units| > MAX_UNITS then units[..MAX_UNITS] else units
  }

  function Normalized(units: seq<string>, norm: string -> string): (r: seq<string>)
    ensures |r| == |units| && forall i | 0 <= i < |r| :: r[i] == norm(units[i])
  {
    seq(|units|, i requires 0 <= i < |units| => norm(units[i]))
  }

  // ----- the fold -----

  /** What one more character adds to a collapsed text. */
  function Collapsed(s: string, c: char): string {
    if !IsSpace(c) then [c] else if s != "" && IsSpace(Last(s)) then "" else " "
  }

  /** Every run of white space becomes one blank. */
  function CollapseSpaces(s: string): string {
    if s == "" then "" else CollapseSpaces(Front(s)) + Collapsed(Front(s), Last(s))
  }

  /** White space survives as single blanks only, at the end only where there was some. */
  lemma {:induction false} SingleBlanksRemain(s: string)
    ensures var r := CollapseSpaces(s);
            && (s == "" <==> r == "") && (s != "" ==> (IsSpace(Last(r)) <==> IsSpace(Last(s))))
            && (forall k | 0 <= k < |r| && IsSpace(r[k]) :: r[k] == ' ' && (k > 0 ==> !IsSpace(r[k-1])))
  {
    if s != "" {
      SingleBlanksRemain(Front(s));
      assert IsSpace(' ');
      hide IsSpace;
    }
  }

  lemma CollapseSnoc(s: string, c: char)
    ensures CollapseSpaces(s + [c]) == CollapseSpaces(s) + Collapsed(s, c)
  {
    hide IsSpace;
    assert Front(s + [c]) == s;
  }

  lemma EmptyCollapses()
    ensures CollapseSpaces("") == ""
  {}

  lemma {:induction false} WordsStay(s: string)
    requires forall k | 0 <= k < |s| :: !IsSpace(s[k])
    ensures CollapseSpaces(s) == s
  {
    hide IsSpace, CollapseSpaces;
    if s == "" {
      EmptyCollapses();
    } else {
      var before, c := Front(s), Last(s);
      assert s == before + [c] && !IsSpace(c);
      WordsStay(before);
      CollapseSnoc(before, c);
    }
  }

  lemma {:induction false} RunCollapses(a: string, run: string)
    requires a == "" || !IsSpace(Last(a))
    requires run != "" && IsBlank(run)
    ensures CollapseSpaces(a + run) == CollapseSpaces(a) + " "
  {
    hide IsSpace, CollapseSpaces;
    var c := Last(run);
    assert a + run == (a + Front(run)) + [c];
    CollapseSnoc(a + Front(run), c);
    if |run| == 1 {
      assert a + Front(run) == a;
    } else {
      RunCollapses(a, Front(run));
    }
  }

  /** A run between two pieces of text is one blank between their collapsed forms. */
  lemma {:induction false} RunBecomesOneBlank(a: string, run: string, b: string)
    requires a == "" || !IsSpace(Last(a))
    requires run != "" && IsBlank(run) && (b == "" || !IsSpace(b[0]))
    ensures CollapseSpaces(a + run + b) == CollapseSpaces(a) + " " + CollapseSpaces(b)
  {
    hide IsSpace, IsBlank, CollapseSpaces;
    if b == "" {
      RunCollapses(a, run);
      assert a + run + b == a + run;
      EmptyCollapses();
    } else {
      var rest, c := Front(b), Last(b);
      RunBecomesOneBlank(a, run, rest);
      CollapseSnoc(a + run + rest, c);
      CollapseSnoc(rest, c);
      assert a + run + b == (a + run + rest) + [c] && b == rest + [c];
      assert Collapsed(a + run + rest, c) == Collapsed(rest, c);
    }
  }

  function Fold(lower: string -> string): string -> string {
    unit => lower(CollapseSpaces(unit))
  }

  predicate IsAscii(s: string) {
    forall c | c in s :: c < '\U{0080}'
  }

  function LowerAscii(s: string): (r: string)
    ensures |r| == |s|
  {
    seq(|s|, i requires 0 <= i < |s| => if 'A' <= s[i] <= 'Z' then s[i] - 'A' + 'a' else s[i])
  }

  /** What the host's lower-casing promises at least. */
  ghost predicate LowersAscii(lower: string -> string) {
    forall s | IsAscii(s) :: lower(s) == LowerAscii(s)
  }

  // ----- what an alignment says -----

  function ASide(rows: seq<Row>): seq<string> {
    if rows == [] then []
    else ASide(rows[..|rows|-1]) + (var r := rows[|rows|-1]; if r.OnlyB? then [] else [r.a])
  }

  function BSide(rows: seq<Row>): seq<string> {
    if rows == [] then []
    else BSide(rows[..|rows|-1]) + (var r := rows[|rows|-1]; if r.OnlyA? then [] else [r.b])
  }

  /** The normalised units the alignment reports as shared, in row order. */
  function Shared(rows: seq<Row>, norm: string -> string): seq<string> {
    if rows == [] then []
    else Shared(rows[..|rows|-1], norm) + (var r := rows[|rows|-1]; if r.Same? then [norm(r.a)] else [])
  }

  ghost predicate SameRowsAgree(rows: seq<Row>, norm: string -> string) {
    forall k | 0 <= k < |rows| && rows[k].Same? :: norm(rows[k].a) == norm(rows[k].b)
  }

  // ----- common subsequences, by explicit positions -----

  /** `pos` picks `s` out of `t` from left to right. */
  ghost predicate Picks(pos: seq<nat>, s: seq<string>, t: seq<string>) {
    && |pos| == |s|
    && (forall k | 0 <= k < |pos| :: pos[k] < |t| && t[pos[k]] == s[k])
    && (forall k, l | 0 <= k < l < |pos| :: pos[k] < pos[l])
  }

  ghost predicate IsCommonSubsequence(s: seq<string>, a: seq<string>, b: seq<string>) {
    (exists p :: Picks(p, s, a)) && (exists q :: Picks(q, s, b))
  }

  // ----- the value of one table cell -----

  /** Recurrence filled in by the table: the value at (i, j). */
  function Lcs(a: seq<string>, b: seq<string>, i: nat, j: nat): (r: nat)
    requires i <= |a| && j <= |b|
    ensures r <= |a| - i && r <= |b| - j
    decreases |a| - i + (|b| - j)
  {
    if i == |a| || j == |b| then 0
    else if a[i] == b[j] then Lcs(a, b, i+1, j+1) + 1
    else Max(Lcs(a, b, i+1, j), Lcs(a, b, i, j+1))
  }

  /** No pair of strictly increasing position lists beats the recurrence. */
  lemma {:induction false} LcsBoundsPicks(a: seq<string>, b: seq<string>, i: nat, j: nat, s: seq<string>, p: seq<nat>,
        q: seq<nat>)
    requires i <= |a| && j <= |b|
    requires Picks(p, s, a) && Picks(q, s, b)
    requires s != [] ==> i <= p[0] && j <= q[0]
    ensures |s| <= Lcs(a, b, i, j)
    decreases |a| - i + (|b| - j)
  {
    if s != [] {
      if a[i] == b[j] {
        LcsBoundsPicks(a, b, i+1, j+1, s[1..], p[1..], q[1..]);
      } else if i < p[0] {
        LcsBoundsPicks(a, b, i+1, j, s, p, q);
      } else {
        LcsBoundsPicks(a, b, i, j+1, s, p, q);
      }
    }
  }

  /** Common to both from the `i`-th and the `j`-th unit on. */
  ghost predicate IsCommonFrom(s: seq<string>, a: seq<string>, b: seq<string>, i: nat, j: nat) {
    exists p, q :: Picks(p, s, a) && Picks(q, s, b) && (s != [] ==> i <= p[0] && j <= q[0])
  }

  lemma PicksPrepended(p: seq<nat>, s: seq<string>, t: seq<string>, i: nat)
    requires i < |t| && Picks(p, s, t) && (s != [] ==> i < p[0])
    ensures Picks([i] + p, [t[i]] + s, t)
  {}

  /** The recurrence is reached. */
  lemma {:induction false} LcsIsReached(a: seq<string>, b: seq<string>, i: nat, j: nat)
    returns (s: seq<string>, p: seq<nat>, q: seq<nat>)
    requires i <= |a| && j <= |b|
    ensures |s| == Lcs(a, b, i, j) && Picks(p, s, a) && Picks(q, s, b) && (s != [] ==> i <= p[0] && j <= q[0])
    decreases |a| - i + (|b| - j)
  {
    if i == |a| || j == |b| {
      s, p, q := [], [], [];
    } else if a[i] == b[j] {
      s, p, q := LcsIsReached(a, b, i + 1, j + 1);
      PicksPrepended(p, s, a, i);
      PicksPrepended(q, s, b, j);
      hide Picks;
      s, p, q := [a[i]] + s, [i] + p, [j] + q;
    } else if Lcs(a, b, i, j + 1) <= Lcs(a, b, i + 1, j) {
      s, p, q := LcsIsReached(a, b, i + 1, j);
    } else {
      s, p, q := LcsIsReached(a, b, i, j + 1);
    }
  }

  /** So every value of the table is the length of a longest common subsequence of two suffixes. */
  lemma LcsIsLongest(a: seq<string>, b: seq<string>, i: nat, j: nat)
    requires i <= |a| && j <= |b|
    ensures forall s | IsCommonFrom(s, a, b, i, j) :: |s| <= Lcs(a, b, i, j)
    ensures exists s :: IsCommonFrom(s, a, b, i, j) && |s| == Lcs(a, b, i, j)
  {
    forall s | IsCommonFrom(s, a, b, i, j) ensures |s| <= Lcs(a, b, i, j) {
      var p, q :| Picks(p, s, a) && Picks(q, s, b) && (s != [] ==> i <= p[0] && j <= q[0]);
      LcsBoundsPicks(a, b, i, j, s, p, q);
    }
    var s, p, q := LcsIsReached(a, b, i, j);
    hide Lcs, Picks;
    assert IsCommonFrom(s, a, b, i, j);
  }

  lemma LcsBoundsCommonSubsequences(a: seq<string>, b: seq<string>)
    ensures forall s :: IsCommonSubsequence(s, a, b) ==> |s| <= Lcs(a, b, 0, 0)
  {
    forall s | IsCommonSubsequence(s, a, b)
      ensures |s| <= Lcs(a, b, 0, 0)
    {
      var p :| Picks(p, s, a);
      var q :| Picks(q, s, b);
      LcsBoundsPicks(a, b, 0, 0, s, p, q);
    }
  }

  lemma PicksExtends(p: seq<nat>, s: seq<string>, t: seq<string>, i: nat)
    requires i < |t| && Picks(p, s, t[..i])
    ensures Picks(p + [i], s + [t[i]], t[..i+1])
  {}

  lemma PicksWidens(p: seq<nat>, s: seq<string>, t: seq<string>, i: nat)
    requires i < |t| && Picks(p, s, t[..i])
    ensures Picks(p, s, t[..i+1])
  {}

  // ----- the table and its traceback -----

  ghost predicate RowHolds(dp: array2<uint32>, an: seq<string>, bn: seq<string>, i: nat)
    requires i <= |an| && dp.Length0 == |an| + 1 && dp.Length1 == |bn| + 1
    reads dp
  {
    forall l | 0 <= l <= |bn| :: dp[i, l] as int == Lcs(an, bn, i, l)
  }

  method FillRow(dp: array2<uint32>, an: seq<string>, bn: seq<string>, i: nat)
    requires |bn| <= MAX_UNITS && i < |an|
    requires dp.Length0 == |an| + 1 && dp.Length1 == |bn| + 1
    requires dp[i, |bn|] == 0 && RowHolds(dp, an, bn, i+1)
    modifies dp
    ensures RowHolds(dp, an, bn, i)
    ensures forall k, l | 0 <= k <= |an| && k != i && 0 <= l <= |bn| :: dp[k, l] == old(dp[k, l])
  {
    var j := |bn|;
    while j > 0
      invariant 0 <= j <= |bn|
      invariant RowHolds(dp, an, bn, i+1)
      invariant forall l | j <= l <= |bn| :: dp[i, l] as int == Lcs(an, bn, i, l)
      invariant forall k, l | 0 <= k <= |an| && k != i && 0 <= l <= |bn| :: dp[k, l] == old(dp[k, l])
    {
      j := j - 1;
      ghost var diagonal := Lcs(an, bn, i+1, j+1);
      assert dp[i+1, j+1] as int == diagonal <= MAX_UNITS;
      assert dp[i+1, j] as int == Lcs(an, bn, i+1, j);
      dp[i, j] := if an[i] == bn[j] then dp[i+1, j+1] + 1
                  else if dp[i+1, j] >= dp[i, j+1] then dp[i+1, j] else dp[i, j+1];
    }
  }

  method FillTable(an: seq<string>, bn: seq<string>) returns (dp: array2<uint32>)
    requires |an| <= MAX_UNITS && |bn| <= MAX_UNITS
    ensures fresh(dp) && dp.Length0 == |an| + 1 && dp.Length1 == |bn| + 1
    ensures forall i | 0 <= i <= |an| :: RowHolds(dp, an, bn, i)
  {
    dp := new uint32[|an| + 1, |bn| + 1]((i, j) => 0);
    var i := |an|;
    while i > 0
      invariant 0 <= i <= |an|
      invariant forall k | i <= k <= |an| :: RowHolds(dp, an, bn, k)
      invariant forall k | 0 <= k < i :: dp[k, |bn|] == 0
    {
      i := i - 1;
      label before:
      FillRow(dp, an, bn, i);
      forall k | i < k <= |an| ensures RowHolds(dp, an, bn, k) {
        assert old@before(RowHolds(dp, an, bn, k));
      }
    }
  }

  /** The rows so far cover exactly the first `i` and `j` units; `p` and `q` place the shared ones. */
  ghost predicate Traced(rows: seq<Row>, au: seq<string>, bu: seq<string>, norm: string -> string, i: nat, j: nat,
        p: seq<nat>, q: seq<nat>)
    requires i <= |au| && j <= |bu|
  {
    && ASide(rows) == au[..i] && BSide(rows) == bu[..j]
    && SameRowsAgree(rows, norm)
    && Picks(p, Shared(rows, norm), Normalized(au, norm)[..i])
    && Picks(q, Shared(rows, norm), Normalized(bu, norm)[..j])
  }

  lemma TraceSame(rows: seq<Row>, au: seq<string>, bu: seq<string>, norm: string -> string, i: nat, j: nat,
        p: seq<nat>, q: seq<nat>)
    requires i < |au| && j < |bu| && norm(au[i]) == norm(bu[j])
    requires Traced(rows, au, bu, norm, i, j, p, q)
    ensures Traced(rows + [Same(au[i], bu[j])], au, bu, norm, i+1, j+1, p + [i], q + [j])
    ensures |Shared(rows + [Same(au[i], bu[j])], norm)| == |Shared(rows, norm)| + 1
  {
    var after := rows + [Same(au[i], bu[j])];
    assert after[..|after|-1] == rows;
    PicksExtends(p, Shared(rows, norm), Normalized(au, norm), i);
    PicksExtends(q, Shared(rows, norm), Normalized(bu, norm), j);
  }

  lemma TraceOnlyA(rows: seq<Row>, au: seq<string>, bu: seq<string>, norm: string -> string, i: nat, j: nat,
        p: seq<nat>, q: seq<nat>)
    requires i < |au| && j <= |bu|
    requires Traced(rows, au, bu, norm, i, j, p, q)
    ensures Traced(rows + [OnlyA(au[i])], au, bu, norm, i+1, j, p, q)
    ensures Shared(rows + [OnlyA(au[i])], norm) == Shared(rows, norm)
  {
    var after := rows + [OnlyA(au[i])];
    assert after[..|after|-1] == rows;
    PicksWidens(p, Shared(rows, norm), Normalized(au, norm), i);
  }

  lemma TraceOnlyB(rows: seq<Row>, au: seq<string>, bu: seq<string>, norm: string -> string, i: nat, j: nat,
        p: seq<nat>, q: seq<nat>)
    requires i <= |au| && j < |bu|
    requires Traced(rows, au, bu, norm, i, j, p, q)
    ensures Traced(rows + [OnlyB(bu[j])], au, bu, norm, i, j+1, p, q)
    ensures Shared(rows + [OnlyB(bu[j])], norm) == Shared(rows, norm)
  {
    var after := rows + [OnlyB(bu[j])];
    assert after[..|after|-1] == rows;
    PicksWidens(q, Shared(rows, norm), Normalized(bu, norm), j);
  }

  lemma TraceIsOptimal(rows: seq<Row>, au: seq<string>, bu: seq<string>, norm: string -> string, p: seq<nat>,
        q: seq<nat>)
    requires Traced(rows, au, bu, norm, |au|, |bu|, p, q)
    requires |Shared(rows, norm)| == Lcs(Normalized(au, norm), Normalized(bu, norm), 0, 0)
    ensures ASide(rows) == au && BSide(rows) == bu
    ensures IsCommonSubsequence(Shared(rows, norm), Normalized(au, norm), Normalized(bu, norm))
    ensures forall s :: IsCommonSubsequence(s, Normalized(au, norm), Normalized(bu, norm)) ==>
        |s| <= |Shared(rows, norm)|
  {
    var an, bn := Normalized(au, norm), Normalized(bu, norm);
    assert au[..|au|] == au && bu[..|bu|] == bu && an[..|an|] == an && bn[..|bn|] == bn;
    LcsBoundsCommonSubsequences(an, bn);
  }

  /** The row the alignment continues with at `(i, j)`: equal heads are shared; otherwise the side whose head can
      be given up without losing more goes first, the first answer on a tie. */
  predicate IsNextRow(row: Row, an: seq<string>, bn: seq<string>, i: nat, j: nat) {
    if i < |an| && j < |bn| then
      if an[i] == bn[j] then row.Same?
      else if Lcs(an, bn, i+1, j) >= Lcs(an, bn, i, j+1) then row.OnlyA?
      else row.OnlyB?
    else if i < |an| then row.OnlyA? else row.OnlyB?
  }

  /** Every row is the one to continue with where the rows before it end. */
  predicate FollowsTable(rows: seq<Row>, an: seq<string>, bn: seq<string>) {
    forall k | 0 <= k < |rows| :: IsNextRow(rows[k], an, bn, |ASide(rows[..k])|, |BSide(rows[..k])|)
  }

  lemma FollowsMore(rows: seq<Row>, row: Row, an: seq<string>, bn: seq<string>, i: nat, j: nat)
    requires FollowsTable(rows, an, bn) && i == |ASide(rows)| && j == |BSide(rows)| && IsNextRow(row, an, bn, i, j)
    ensures FollowsTable(rows + [row], an, bn)
  {
    hide IsNextRow, ASide, BSide;
    var after := rows + [row];
    forall k | 0 <= k < |after| ensures IsNextRow(after[k], an, bn, |ASide(after[..k])|, |BSide(after[..k])|) {
      assert after[..k] == rows[..k];
      if k == |rows| { assert rows[..k] == rows; }
    }
  }

  lemma StartsTraced(au: seq<string>, bu: seq<string>, norm: string -> string)
    ensures Traced([], au, bu, norm, 0, 0, [], []) && |Shared([], norm)| == 0
    ensures FollowsTable([], Normalized(au, norm), Normalized(bu, norm))
  {}

  /** Walks the table from the top left corner; shared units are taken whenever the heads agree. */
  method Traceback(dp: array2<uint32>, au: seq<string>, bu: seq<string>, an: seq<string>, bn: seq<string>,
        ghost norm: string -> string)
    returns (rows: seq<Row>, i: nat, j: nat, ghost p: seq<nat>, ghost q: seq<nat>)
    requires an == Normalized(au, norm) && bn == Normalized(bu, norm)
    requires dp.Length0 == |an| + 1 && dp.Length1 == |bn| + 1
    requires forall i | 0 <= i <= |an| :: RowHolds(dp, an, bn, i)
    ensures i <= |an| && j <= |bn| && (i == |an| || j == |bn|)
    ensures Traced(rows, au, bu, norm, i, j, p, q)
    ensures |Shared(rows, norm)| == Lcs(an, bn, 0, 0) && FollowsTable(rows, an, bn)
  {
    hide ASide, BSide, Shared, Picks, FollowsTable;
    StartsTraced(au, bu, norm);
    rows, p, q := [], [], [];
    i, j := 0, 0;
    while i < |an| && j < |bn|
      invariant i <= |an| && j <= |bn|
      invariant Traced(rows, au, bu, norm, i, j, p, q)
      invariant Lcs(an, bn, 0, 0) == |Shared(rows, norm)| + Lcs(an, bn, i, j) && FollowsTable(rows, an, bn)
      decreases |an| - i + (|bn| - j)
    {
      assert RowHolds(dp, an, bn, i) && RowHolds(dp, an, bn, i+1);
      if an[i] == bn[j] {
        TraceSame(rows, au, bu, norm, i, j, p, q);
        FollowsMore(rows, Same(au[i], bu[j]), an, bn, i, j);
        rows := rows + [Same(au[i], bu[j])];
        p, q := p + [i], q + [j];
        i, j := i + 1, j + 1;
      } else if dp[i+1, j] >= dp[i, j+1] {
        TraceOnlyA(rows, au, bu, norm, i, j, p, q);
        FollowsMore(rows, OnlyA(au[i]), an, bn, i, j);
        rows := rows + [OnlyA(au[i])];
        i := i + 1;
      } else {
        TraceOnlyB(rows, au, bu, norm, i, j, p, q);
        FollowsMore(rows, OnlyB(bu[j]), an, bn, i, j);
        rows := rows + [OnlyB(bu[j])];
        j := j + 1;
      }
    }
  }

  /** Appends what is left of either answer once the other one is used up. */
  method AppendRest(found: seq<Row>, au: seq<string>, bu: seq<string>, from: nat, to: nat,
        ghost norm: string -> string, ghost p: seq<nat>, ghost q: seq<nat>)
    returns (rows: seq<Row>)
    requires from <= |au| && to <= |bu| && (from == |au| || to == |bu|)
    requires FollowsTable(found, Normalized(au, norm), Normalized(bu, norm))
    requires Traced(found, au, bu, norm, from, to, p, q)
    ensures Traced(rows, au, bu, norm, |au|, |bu|, p, q)
    ensures Shared(rows, norm) == Shared(found, norm) && FollowsTable(rows, Normalized(au, norm), Normalized(bu, norm))
  {
    hide ASide, BSide, Shared, Picks, FollowsTable;
    ghost var an, bn := Normalized(au, norm), Normalized(bu, norm);
    rows := found;
    var i, j := from, to;
    while i < |au|
      invariant i <= |au| && (i == |au| || j == |bu|) && FollowsTable(rows, an, bn)
      invariant Traced(rows, au, bu, norm, i, j, p, q)
      invariant Shared(rows, norm) == Shared(found, norm)
    {
      TraceOnlyA(rows, au, bu, norm, i, j, p, q);
      FollowsMore(rows, OnlyA(au[i]), an, bn, i, j);
      rows := rows + [OnlyA(au[i])];
      i := i + 1;
    }
    while j < |bu|
      invariant j <= |bu| && FollowsTable(rows, an, bn)
      invariant Traced(rows, au, bu, norm, i, j, p, q)
      invariant Shared(rows, norm) == Shared(found, norm)
    {
      TraceOnlyB(rows, au, bu, norm, i, j, p, q);
      FollowsMore(rows, OnlyB(bu[j]), an, bn, i, j);
      rows := rows + [OnlyB(bu[j])];
      j := j + 1;
    }
  }

  /** Lossless on both sides, no common subsequence is longer than the shared rows, and each row is the one the
      greedy walk continues with. */
  ghost predicate IsAlignment(rows: seq<Row>, au: seq<string>, bu: seq<string>, norm: string -> string) {
    var an, bn := Normalized(au, norm), Normalized(bu, norm);
    && ASide(rows) == au && BSide(rows) == bu
    && SameRowsAgree(rows, norm)
    && IsCommonSubsequence(Shared(rows, norm), an, bn)
    && (forall s :: IsCommonSubsequence(s, an, bn) ==> |s| <= |Shared(rows, norm)|)
    && FollowsTable(rows, an, bn)
  }

  method AlignAnswers(a: seq<string>, b: seq<string>, lower: string -> string) returns (rows: seq<Row>)
    ensures IsAlignment(rows, CapUnits(a), CapUnits(b), Fold(lower))
  {
    hide FollowsTable, Fold;
    var norm := Fold(lower);
    var au, bu := CapUnits(a), CapUnits(b);
    var an, bn := Normalized(au, norm), Normalized(bu, norm);
    var dp := FillTable(an, bn);
    ghost var p, q;
    var found, i, j;
    found, i, j, p, q := Traceback(dp, au, bu, an, bn, norm);
    rows := AppendRest(found, au, bu, i, j, norm, p, q);
    TraceIsOptimal(rows, au, bu, norm, p, q);
  }

  // ----- what is shared -----

  lemma {:induction false} RowsPerSide(rows: seq<Row>, norm: string -> string)
    ensures |ASide(rows)| <= |rows| && |BSide(rows)| <= |rows|
    ensures |Shared(rows, norm)| <= |ASide(rows)| && |Shared(rows, norm)| <= |BSide(rows)|
    ensures |Shared(rows, norm)| == |ASide(rows)| && |Shared(rows, norm)| == |BSide(rows)| ==>
              forall k | 0 <= k < |rows| :: rows[k].Same?
  {
    if rows != [] { RowsPerSide(rows[..|rows|-1], norm); }
  }

  lemma {:induction false} SidesOfShared(rows: seq<Row>, norm: string -> string)
    requires SameRowsAgree(rows, norm) && forall k | 0 <= k < |rows| :: rows[k].Same?
    ensures Normalized(ASide(rows), norm) == Normalized(BSide(rows), norm)
  {
    if rows != [] { SidesOfShared(rows[..|rows|-1], norm); }
  }

  lemma {:induction false} SidesGrow(rows: seq<Row>, k: nat)
    requires k <= |rows|
    ensures ASide(rows[..k]) <= ASide(rows) && BSide(rows[..k]) <= BSide(rows)
  {
    if k < |rows| {
      SidesGrow(Front(rows), k);
      assert Front(rows)[..k] == rows[..k];
    } else {
      assert rows[..k] == rows;
    }
  }

  lemma SideOfNext(rows: seq<Row>, k: nat)
    requires k < |rows|
    ensures ASide(rows[..k+1]) == ASide(rows[..k]) + if rows[k].OnlyB? then [] else [rows[k].a]
    ensures BSide(rows[..k+1]) == BSide(rows[..k]) + if rows[k].OnlyA? then [] else [rows[k].b]
  {
    assert rows[..k+1][..k] == rows[..k];
  }

  /** Where both answers have a unit left, the next row shares the two exactly when they fold to the same. */
  lemma HeadsSharedExactly(rows: seq<Row>, au: seq<string>, bu: seq<string>, norm: string -> string, k: nat)
    requires IsAlignment(rows, au, bu, norm) && k < |rows|
    ensures var i, j := |ASide(rows[..k])|, |BSide(rows[..k])|;
            && i <= |au| && j <= |bu|
            && (i < |au| && j < |bu| ==> (rows[k] == Same(au[i], bu[j]) <==> norm(au[i]) == norm(bu[j])))
  {
    hide ASide, BSide, Shared, Picks, IsCommonSubsequence;
    var i, j := |ASide(rows[..k])|, |BSide(rows[..k])|;
    SidesGrow(rows, k);
    SidesGrow(rows, k + 1);
    SideOfNext(rows, k);
    if rows[k].Same? {
      assert au[i] == ASide(rows[..k+1])[i] && bu[j] == BSide(rows[..k+1])[j];
    }
  }

  /** Passing the unit at `i` leaves as much in common as passing the one at `j`. */
  ghost predicate LosesNoMore(a: seq<string>, b: seq<string>, i: nat, j: nat) {
    forall s | IsCommonFrom(s, a, b, i, j + 1) :: exists t :: IsCommonFrom(t, a, b, i + 1, j) && |s| <= |t|
  }

  lemma LosesNoMoreExactly(a: seq<string>, b: seq<string>, i: nat, j: nat)
    requires i < |a| && j < |b|
    ensures LosesNoMore(a, b, i, j) <==> Lcs(a, b, i + 1, j) >= Lcs(a, b, i, j + 1)
  {
    hide Lcs, IsCommonFrom;
    LcsIsLongest(a, b, i + 1, j);
    LcsIsLongest(a, b, i, j + 1);
    if LosesNoMore(a, b, i, j) {
      var s :| IsCommonFrom(s, a, b, i, j + 1) && |s| == Lcs(a, b, i, j + 1);
      var t :| IsCommonFrom(t, a, b, i + 1, j) && |s| <= |t|;
    }
  }

  /** Where the next units differ, the first answer's goes first unless passing it loses more than passing the
      other's. */
  lemma FirstAnswerGoesFirst(rows: seq<Row>, au: seq<string>, bu: seq<string>, norm: string -> string, k: nat)
    requires IsAlignment(rows, au, bu, norm) && k < |rows|
    ensures var i, j := |ASide(rows[..k])|, |BSide(rows[..k])|;
            i < |au| && j < |bu| && norm(au[i]) != norm(bu[j]) ==>
              rows[k] == if LosesNoMore(Normalized(au, norm), Normalized(bu, norm), i, j) then OnlyA(au[i])
                         else OnlyB(bu[j])
  {
    var i, j := |ASide(rows[..k])|, |BSide(rows[..k])|;
    if i < |au| && j < |bu| && norm(au[i]) != norm(bu[j]) {
      NextSide(rows, au, bu, norm, k, i, j);
      hide IsAlignment, Lcs, LosesNoMore, ASide, BSide;
      LosesNoMoreExactly(Normalized(au, norm), Normalized(bu, norm), i, j);
    }
  }

  lemma NextSide(rows: seq<Row>, au: seq<string>, bu: seq<string>, norm: string -> string, k: nat, i: nat, j: nat)
    requires IsAlignment(rows, au, bu, norm) && k < |rows| && i == |ASide(rows[..k])| && j == |BSide(rows[..k])|
    requires i < |au| && j < |bu| && norm(au[i]) != norm(bu[j])
    ensures var an, bn := Normalized(au, norm), Normalized(bu, norm);
            rows[k] == if Lcs(an, bn, i + 1, j) >= Lcs(an, bn, i, j + 1) then OnlyA(au[i]) else OnlyB(bu[j])
  {
    assert IsNextRow(rows[k], Normalized(au, norm), Normalized(bu, norm), i, j);
    hide ASide, BSide, Shared, IsCommonSubsequence, Lcs, IsNextRow;
    SidesGrow(rows, k + 1);
    SideOfNext(rows, k);
    assert rows[k].OnlyA? ==> ASide(rows[..k+1])[i] == rows[k].a;
    assert rows[k].OnlyB? ==> BSide(rows[..k+1])[j] == rows[k].b;
    NextRowIs(rows[k], Normalized(au, norm), Normalized(bu, norm), i, j);
  }

  lemma NextRowIs(row: Row, an: seq<string>, bn: seq<string>, i: nat, j: nat)
    requires IsNextRow(row, an, bn, i, j) && i < |an| && j < |bn| && an[i] != bn[j]
    ensures if Lcs(an, bn, i + 1, j) >= Lcs(an, bn, i, j + 1) then row.OnlyA? else row.OnlyB?
  {
    hide Lcs;
  }

  lemma PicksAll(s: seq<string>)
    ensures IsCommonSubsequence(s, s, s)
  {
    var all := seq(|s|, i requires 0 <= i < |s| => i);
    assert Picks(all, s, s);
  }

  /** Two answers come out as shared rows alone exactly when their folded units are the same. */
  lemma AllSharedExactly(rows: seq<Row>, au: seq<string>, bu: seq<string>, norm: string -> string)
    requires IsAlignment(rows, au, bu, norm)
    ensures (forall k | 0 <= k < |rows| :: rows[k].Same?) <==> Normalized(au, norm) == Normalized(bu, norm)
  {
    hide ASide, BSide, Shared, FollowsTable, Picks;
    if forall k | 0 <= k < |rows| :: rows[k].Same? { SidesOfShared(rows, norm); }
    if Normalized(au, norm) == Normalized(bu, norm) {
      PicksAll(Normalized(au, norm));
      RowsPerSide(rows, norm);
    }
  }

  /** Swapping the answers may share other units, but never more or fewer. */
  lemma SwapKeepsSharedCount(rows: seq<Row>, back: seq<Row>, au: seq<string>, bu: seq<string>, norm: string -> string)
    requires IsAlignment(rows, au, bu, norm) && IsAlignment(back, bu, au, norm)
    ensures |Shared(rows, norm)| == |Shared(back, norm)|
  {
    hide ASide, BSide, Shared, FollowsTable, Picks;
    var an, bn := Normalized(au, norm), Normalized(bu, norm);
    assert IsCommonSubsequence(Shared(rows, norm), bn, an) && IsCommonSubsequence(Shared(back, norm), an, bn);
  }

  /** Two words of plain letters fold to the same exactly when they differ in case only. */
  lemma WordsFoldAlike(lower: string -> string, x: string, y: string)
    requires LowersAscii(lower) && IsAscii(x) && IsAscii(y)
    requires (forall c | c in x :: !IsSpace(c)) && forall c | c in y :: !IsSpace(c)
    ensures Fold(lower)(x) == Fold(lower)(y) <==> LowerAscii(x) == LowerAscii(y)
  {
    hide LowerAscii, IsSpace, IsAscii;
    WordsStay(x);
    WordsStay(y);
    assert lower(x) == LowerAscii(x) && lower(y) == LowerAscii(y);
  }

  /** How words are spaced makes no difference either. */
  lemma SpacingIsFolded(lower: string -> string, a: string, run: string, b: string)
    requires a == "" || !IsSpace(Last(a))
    requires run != "" && IsBlank(run) && (b == "" || !IsSpace(b[0]))
    ensures Fold(lower)(a + run + b) == Fold(lower)(a + " " + b)
  {
    RunBecomesOneBlank(a, run, b);
    RunBecomesOneBlank(a, " ", b);
    hide IsSpace, CollapseSpaces;
  }

  const CAPITALS := "ABCDEFGHIJKLMNOPQRSTUVWXYZ"
  const SMALL := "abcdefghijklmnopqrstuvwxyz"

  /** Capital letters become small ones and nothing else changes. */
  lemma LowerAsciiIs(s: string, k: nat, n: nat)
    requires k < |s| && n < 26
    ensures s[k] == CAPITALS[n] ==> LowerAscii(s)[k] == SMALL[n]
    ensures s[k] !in CAPITALS ==> LowerAscii(s)[k] == s[k]
  {
    assert CAPITALS[n] == 'A' + n as char && SMALL[n] == 'a' + n as char;
    if 'A' <= s[k] <= 'Z' {
      var i := (s[k] - 'A') as int;
      assert CAPITALS[i] == 'A' + i as char;
    }
  }

  /** So the alignment is not case-sensitive. */
  lemma CaseIsFolded(lower: string -> string, rows: seq<Row>)
    requires LowersAscii(lower) && IsAlignment(rows, ["Foo"], ["foo"], Fold(lower))
    ensures rows == [Same("Foo", "foo")]
  {
    hide ASide, BSide, Shared, FollowsTable, Picks, Fold, LowersAscii, IsCommonSubsequence;
    assert LowerAscii("Foo") == "foo" == LowerAscii("foo");
    WordsFoldAlike(lower, "Foo", "foo");
    assert Normalized(["Foo"], Fold(lower)) == Normalized(["foo"], Fold(lower));
    AllSharedExactly(rows, ["Foo"], ["foo"], Fold(lower));
    SidesOfRows(rows);
    assert |rows| == 1 && rows == [rows[0]];
  }

  lemma {:induction false} SidesOfRows(rows: seq<Row>)
    requires forall k | 0 <= k < |rows| :: rows[k].Same?
    ensures |ASide(rows)| == |rows| == |BSide(rows)|
    ensures forall k | 0 <= k < |rows| :: rows[k] == Same(ASide(rows)[k], BSide(rows)[k])
  {
    if rows != [] { SidesOfRows(rows[..|rows|-1]); }
  }

  // ----- similarity -----

  /** Units of both answers matched one to one. */
  function Overlap(an: seq<string>, bn: seq<string>): (o: multiset<string>)
    ensures |o| <= |an| && |o| <= |bn|
  {
    var o := multiset(an) * multiset(bn);
    assert multiset(an) == o + (multiset(an) - o);
    assert multiset(bn) == o + (multiset(bn) - o);
    o
  }

  lemma OverlapIsFull(an: seq<string>, bn: seq<string>)
    ensures |Overlap(an, bn)| == Max(|an|, |bn|) <==> multiset(an) == multiset(bn)
  {
    var o := Overlap(an, bn);
    assert multiset(an) == o + (multiset(an) - o);
    assert multiset(bn) == o + (multiset(bn) - o);
  }

  function Pooled(pool: map<string, nat>, key: string): nat {
    if key in pool then pool[key] else 0
  }

  function Minus(x: nat, y: nat): nat { if x <= y then 0 else x - y }

  method PoolUnits(bn: seq<string>) returns (pool: map<string, nat>)
    ensures forall key :: Pooled(pool, key) == multiset(bn)[key]
  {
    pool := map[];
    for j := 0 to |bn|
      invariant forall key :: Pooled(pool, key) == multiset(bn[..j])[key]
    {
      pool := pool[bn[j] := Pooled(pool, bn[j]) + 1];
      assert bn[..j+1] == bn[..j] + [bn[j]];
    }
    assert bn[..|bn|] == bn;
  }

  lemma OverlapGrows(an: seq<string>, bn: seq<string>, i: nat)
    requires i < |an|
    ensures forall key :: multiset(an[..i+1])[key] == multiset(an[..i])[key] + (if key == an[i] then 1 else 0)
    ensures |Overlap(an[..i+1], bn)| == |Overlap(an[..i], bn)|
        + (if multiset(bn)[an[i]] <= multiset(an[..i])[an[i]] then 0 else 1)
  {
    assert an[..i+1] == an[..i] + [an[i]];
    if multiset(bn)[an[i]] <= multiset(an[..i])[an[i]] {
      assert Overlap(an[..i+1], bn) == Overlap(an[..i], bn);
    } else {
      assert Overlap(an[..i+1], bn) == Overlap(an[..i], bn) + multiset{an[i]};
    }
  }

  lemma OverlapOfNothing(an: seq<string>, bn: seq<string>)
    ensures |Overlap(an[..0], bn)| == 0
  {}

  /** Pairs each unit of `an` with an unused equal unit of `bn`. */
  method CountShared(an: seq<string>, bn: seq<string>) returns (shared: nat)
    ensures shared == |Overlap(an, bn)|
  {
    hide Overlap;
    OverlapOfNothing(an, bn);
    var pool := PoolUnits(bn);
    shared := 0;
    for i := 0 to |an|
      invariant forall key :: Pooled(pool, key) == Minus(multiset(bn)[key], multiset(an[..i])[key])
      invariant shared == |Overlap(an[..i], bn)|
    {
      OverlapGrows(an, bn, i);
      var key := an[i];
      var left := Pooled(pool, key);
      if left != 0 {
        shared := shared + 1;
        pool := pool[key := left - 1];
      }
    }
    assert an[..|an|] == an;
  }

  /** `part` out of `whole`; nothing out of nothing counts as everything. */
  function Share(part: nat, whole: nat): (r: real)
    requires part <= whole
    ensures 0.0 <= r <= 1.0 && r * (whole as real) == part as real
    ensures r == 1.0 <==> part == whole
  {
    if whole == 0 then 1.0 else
    var p, w := part as real, whole as real;
    assert p / w * w == p;
    p / w
  }

  /** The units shared one to one over the longer count. */
  function Similarity(an: seq<string>, bn: seq<string>): (r: real)
    ensures 0.0 <= r <= 1.0
    ensures r == 1.0 <==> multiset(an) == multiset(bn)
  {
    OverlapIsFull(an, bn);
    Share(|Overlap(an, bn)|, Max(|an|, |bn|))
  }

  method AnswerSimilarity(a: seq<string>, b: seq<string>, lower: string -> string) returns (similarity: real)
    ensures similarity == Similarity(Normalized(CapUnits(a), Fold(lower)), Normalized(CapUnits(b), Fold(lower)))
  {
    hide Overlap;
    var an, bn := Normalized(CapUnits(a), Fold(lower)), Normalized(CapUnits(b), Fold(lower));
    OverlapOfNothing(an, bn);
    if |an| == 0 && |bn| == 0 {
      assert multiset(an) == multiset(bn);
      return 1.0;
    }
    var shared := CountShared(an, bn);
    similarity := Share(shared, Max(|an|, |bn|));
  }

  /** The similarity times the longer count is the number of units both have, each as often as both have it. */
  lemma SimilarityCounts(an: seq<string>, bn: seq<string>)
    ensures Similarity(an, bn) * (if |an| > |bn| then |an| else |bn|) as real == |multiset(an) * multiset(bn)| as real
    ensures an == [] && bn == [] ==> Similarity(an, bn) == 1.0
  {
    hide Share;
    assert an == [] && bn == [] ==> multiset(an) == multiset(bn);
  }

  lemma OverlapIsSymmetric(an: seq<string>, bn: seq<string>)
    ensures Overlap(an, bn) == Overlap(bn, an)
  {}

  /** Unlike the alignment the similarity does not depend on which answer comes first. */
  lemma SimilarityIsSymmetric(an: seq<string>, bn: seq<string>)
    ensures Similarity(an, bn) == Similarity(bn, an)
  {
    hide Overlap, Share;
    OverlapIsSymmetric(an, bn);
  }

  lemma {:induction false} PickedIsContained(p: seq<nat>, s: seq<string>, t: seq<string>)
    requires Picks(p, s, t)
    ensures multiset(s) <= multiset(t)
  {
    if s != [] {
      var n := |s| - 1;
      var last := p[n];
      assert Picks(p[..n], s[..n], t[..last]);
      PickedIsContained(p[..n], s[..n], t[..last]);
      assert t[last] == s[n];
      hide Picks;
      assert s == s[..n] + [s[n]];
      assert t == t[..last] + [t[last]] + t[last+1..];
      assert multiset(s) == multiset(s[..n]) + multiset{s[n]};
    }
  }

  /** The alignment never reports more shared units than the similarity counts. */
  lemma SharedRowsWithinOverlap(s: seq<string>, an: seq<string>, bn: seq<string>)
    requires IsCommonSubsequence(s, an, bn)
    ensures |s| <= |Overlap(an, bn)|
  {
    var p :| Picks(p, s, an);
    var q :| Picks(q, s, bn);
    PickedIsContained(p, s, an);
    PickedIsContained(q, s, bn);
    assert multiset(s) <= Overlap(an, bn);
    assert Overlap(an, bn) == multiset(s) + (Overlap(an, bn) - multiset(s));
  }
}
