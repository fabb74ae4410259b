/** One column's logs over all runs that hosted its workspace: capped tails merged by time. */
module ColumnLogs {
  import opened JsText
  import opened LogTail

  const MAX_EVENTS := 4_000
  const MAX_WIRE := 400

  // ----- the stable sort by time -----

  type Clock<!T> = T -> real

  /** Merges two lists from their ends; at equal times the second list stays behind. */
  function Merge<T>(a: seq<T>, b: seq<T>, at: Clock<T>): (r: seq<T>)
    ensures |r| == |a| + |b|
    decreases |a| + |b|
  {
    if b == [] then a
    else if a == [] then b
    else if at(a[|a|-1]) > at(b[|b|-1]) then Merge(a[..|a|-1], b, at) + [a[|a|-1]]
    else Merge(a, b[..|b|-1], at) + [b[|b|-1]]
  }

  function Sort<T>(s: seq<T>, at: Clock<T>): (r: seq<T>)
    ensures |r| == |s|
  {
    if s == [] then [] else Merge(Sort(s[..|s|-1], at), [s[|s|-1]], at)
  }

  ghost predicate Sorted<T>(s: seq<T>, at: Clock<T>) {
    forall i, j | 0 <= i < j < |s| :: at(s[i]) <= at(s[j])
  }

  /** The rows of one instant, in order. */
  function At<T>(s: seq<T>, at: Clock<T>, time: real): seq<T> {
    if s == [] then []
    else At(s[..|s|-1], at, time) + (if at(s[|s|-1]) == time then [s[|s|-1]] else [])
  }

  lemma {:induction false} AtIsEmpty<T>(s: seq<T>, at: Clock<T>, time: real)
    requires forall k | 0 <= k < |s| :: at(s[k]) != time
    ensures At(s, at, time) == []
  {
    if s != [] { AtIsEmpty(s[..|s|-1], at, time); }
  }

  lemma {:induction false} MergeKeepsRows<T>(a: seq<T>, b: seq<T>, at: Clock<T>)
    ensures multiset(Merge(a, b, at)) == multiset(a) + multiset(b)
    decreases |a| + |b|
  {
    if a != [] && b != [] {
      assert a == a[..|a|-1] + [a[|a|-1]] && b == b[..|b|-1] + [b[|b|-1]];
      MergeKeepsRows(a[..|a|-1], b, at);
      MergeKeepsRows(a, b[..|b|-1], at);
    }
  }

  lemma MergeTakesFirst<T>(a: seq<T>, x: T, b: seq<T>, at: Clock<T>)
    requires b == [] || at(x) > at(b[|b|-1])
    ensures Merge(a + [x], b, at) == Merge(a, b, at) + [x]
  {
    assert (a + [x])[..|a|] == a;
  }

  lemma MergeTakesSecond<T>(a: seq<T>, b: seq<T>, y: T, at: Clock<T>)
    requires a == [] || at(a[|a|-1]) <= at(y)
    ensures Merge(a, b + [y], at) == Merge(a, b, at) + [y]
  {
    assert (b + [y])[..|b|] == b;
  }

  lemma SortedSnoc<T>(m: seq<T>, p: seq<T>, q: seq<T>, x: T, at: Clock<T>)
    requires Sorted(m, at) && multiset(m) == multiset(p) + multiset(q)
    requires Sorted(p, at) && Sorted(q, at)
    requires p != [] ==> at(p[|p|-1]) <= at(x)
    requires q != [] ==> at(q[|q|-1]) <= at(x)
    ensures Sorted(m + [x], at)
  {
    forall i | 0 <= i < |m| ensures at(m[i]) <= at(x) {
      assert m[i] in multiset(m);
      assert m[i] in multiset(p) || m[i] in multiset(q);
      if m[i] in p {
        var k :| 0 <= k < |p| && p[k] == m[i];
      } else {
        var k :| 0 <= k < |q| && q[k] == m[i];
      }
    }
  }

  lemma {:induction false} MergeKeepsOrder<T>(a: seq<T>, b: seq<T>, at: Clock<T>)
    requires Sorted(a, at) && Sorted(b, at)
    ensures Sorted(Merge(a, b, at), at)
    decreases |a| + |b|
  {
    hide Merge, Sorted;
    if a == [] {
      MergeWithNothing(b, at);
    } else if b == [] {
      MergeWithNothing(a, at);
    } else {
      var a', b', x, y := a[..|a|-1], b[..|b|-1], a[|a|-1], b[|b|-1];
      assert a == a' + [x] && b == b' + [y];
      SortedPrefix(a', x, at);
      SortedPrefix(b', y, at);
      if at(x) > at(y) {
        MergeKeepsOrder(a', b, at);
        MergeKeepsRows(a', b, at);
        SortedSnoc(Merge(a', b, at), a', b, x, at);
        MergeTakesFirst(a', x, b, at);
      } else {
        MergeKeepsOrder(a, b', at);
        MergeKeepsRows(a, b', at);
        SortedSnoc(Merge(a, b', at), a, b', y, at);
        MergeTakesSecond(a, b', y, at);
      }
    }
  }

  lemma SortedPrefix<T>(s: seq<T>, x: T, at: Clock<T>)
    requires Sorted(s + [x], at)
    ensures Sorted(s, at) && (s != [] ==> at(s[|s|-1]) <= at(x))
  {
    var all := s + [x];
    assert s == all[..|s|];
    assert s != [] ==> all[|s|-1] == s[|s|-1] && all[|s|] == x;
  }

  lemma AtSnoc<T>(s: seq<T>, x: T, at: Clock<T>, time: real)
    ensures At(s + [x], at, time) == At(s, at, time) + (if at(x) == time then [x] else [])
  {
    assert (s + [x])[..|s|] == s;
  }

  lemma {:induction false} MergeKeepsTies<T>(a: seq<T>, b: seq<T>, at: Clock<T>, time: real)
    requires Sorted(b, at)
    ensures At(Merge(a, b, at), at, time) == At(a, at, time) + At(b, at, time)
    decreases |a| + |b|
  {
    hide Merge, At;
    if a == [] {
      NothingAt(at, time);
      MergeWithNothing(b, at);
    } else if b == [] {
      NothingAt(at, time);
      MergeWithNothing(a, at);
    } else {
      var a', b', x, y := a[..|a|-1], b[..|b|-1], a[|a|-1], b[|b|-1];
      assert a == a' + [x] && b == b' + [y];
      if at(x) > at(y) {
        MergeKeepsTies(a', b, at, time);
        MergeTakesFirst(a', x, b, at);
        AtSnoc(Merge(a', b, at), x, at, time);
        AtSnoc(a', x, at, time);
        if at(x) == time { AtIsEmpty(b, at, time); }
      } else {
        MergeKeepsTies(a, b', at, time);
        MergeTakesSecond(a, b', y, at);
        AtSnoc(Merge(a, b', at), y, at, time);
        AtSnoc(b', y, at, time);
      }
    }
  }

  lemma NothingAt<T>(at: Clock<T>, time: real)
    ensures At([], at, time) == []
  {}

  lemma MergeWithNothing<T>(s: seq<T>, at: Clock<T>)
    ensures Merge(s, [], at) == s && Merge([], s, at) == s
  {}

  /** The sort is a stable sort: sorted, the same rows, simultaneous rows in their old order. */
  lemma {:induction false} SortIsStable<T>(s: seq<T>, at: Clock<T>, time: real)
    ensures Sorted(Sort(s, at), at)
    ensures multiset(Sort(s, at)) == multiset(s)
    ensures At(Sort(s, at), at, time) == At(s, at, time)
  {
    if s != [] {
      var s', x := s[..|s|-1], s[|s|-1];
      SortIsStable(s', at, time);
      AtSnoc([], x, at, time);
      assert [] + [x] == [x] && s == s' + [x];
      hide Merge, At;
      MergeKeepsRows(Sort(s', at), [x], at);
      MergeKeepsOrder(Sort(s', at), [x], at);
      MergeKeepsTies(Sort(s', at), [x], at, time);
      AtSnoc(s', x, at, time);
    }
  }

  lemma {:induction false} MergeAssociates<T>(a: seq<T>, b: seq<T>, c: seq<T>, at: Clock<T>)
    ensures Merge(Merge(a, b, at), c, at) == Merge(a, Merge(b, c, at), at)
    decreases |a| + |b| + |c|
  {
    if a == [] || b == [] || c == [] {
    } else {
      var a', b', c' := a[..|a|-1], b[..|b|-1], c[..|c|-1];
      var x, y, z := at(a[|a|-1]), at(b[|b|-1]), at(c[|c|-1]);
      var ab, bc := Merge(a, b, at), Merge(b, c, at);
      if x > y && x > z {
        MergeAssociates(a', b, c, at);
        assert ab[..|ab|-1] == Merge(a', b, at);
      } else if y >= x && y > z {
        MergeAssociates(a, b', c, at);
        assert ab[..|ab|-1] == Merge(a, b', at);
        assert bc[..|bc|-1] == Merge(b', c, at);
      } else {
        MergeAssociates(a, b, c', at);
        assert bc[..|bc|-1] == Merge(b, c', at);
      }
    }
  }

  lemma SortSnoc<T>(s: seq<T>, x: T, at: Clock<T>)
    ensures Sort(s + [x], at) == Merge(Sort(s, at), [x], at)
  {
    assert (s + [x])[..|s|] == s;
  }

  lemma {:induction false} SortConcat<T>(a: seq<T>, b: seq<T>, at: Clock<T>)
    ensures Sort(a + b, at) == Merge(Sort(a, at), Sort(b, at), at)
  {
    if b == [] {
      assert a + b == a;
    } else {
      var b', x := b[..|b|-1], b[|b|-1];
      SortConcat(a, b', at);
      assert a + b == (a + b') + [x] && b == b' + [x];
      hide Merge, Sort;
      SortSnoc(a + b', x, at);
      SortSnoc(b', x, at);
      MergeAssociates(Sort(a, at), Sort(b', at), [x], at);
    }
  }

  lemma {:induction false} SortOfSorted<T>(s: seq<T>, at: Clock<T>)
    requires Sorted(s, at)
    ensures Sort(s, at) == s
  {
    if s != [] {
      var s', x := s[..|s|-1], s[|s|-1];
      SortOfSorted(s', at);
      assert s == s' + [x];
      assert [x][..0] == [];
      assert Merge(s', [x], at) == s' + [x];
    }
  }

  // ----- capping before and after the merge -----

  lemma LastOfLast<T>(s: seq<T>, m: nat, n: nat)
    requires n <= m
    ensures LastN(LastN(s, m), n) == LastN(s, n)
  {}

  lemma LastNSnoc<T>(s: seq<T>, x: T, n: nat)
    requires n > 0
    ensures LastN(s + [x], n) == LastN(s, n - 1) + [x]
  {}

  lemma LastNTogether<T>(p: seq<T>, q: seq<T>, x: T, n: nat)
    requires n > 0 && LastN(p, n - 1) == LastN(q, n - 1)
    ensures LastN(p + [x], n) == LastN(q + [x], n)
  {
    LastNSnoc(p, x, n);
    LastNSnoc(q, x, n);
  }

  lemma MergeTailFirst<T>(a: seq<T>, x: T, b: seq<T>, m: nat, k: nat, n: nat, at: Clock<T>)
    requires 0 < n <= m && n <= k && b != [] && at(x) > at(b[|b|-1])
    requires LastN(Merge(LastN(a, m - 1), LastN(b, k), at), n - 1) == LastN(Merge(a, b, at), n - 1)
    ensures LastN(Merge(LastN(a + [x], m), LastN(b, k), at), n) == LastN(Merge(a + [x], b, at), n)
  {
    hide Merge;
    var tail, last := LastN(a, m - 1), LastN(b, k);
    assert last[|last|-1] == b[|b|-1];
    LastNSnoc(a, x, m);
    hide LastN;
    MergeTakesFirst(a, x, b, at);
    MergeTakesFirst(tail, x, last, at);
    LastNTogether(Merge(tail, last, at), Merge(a, b, at), x, n);
  }

  lemma MergeTailSecond<T>(a: seq<T>, b: seq<T>, y: T, m: nat, k: nat, n: nat, at: Clock<T>)
    requires 0 < n <= m && n <= k && a != [] && at(a[|a|-1]) <= at(y)
    requires LastN(Merge(LastN(a, m), LastN(b, k - 1), at), n - 1) == LastN(Merge(a, b, at), n - 1)
    ensures LastN(Merge(LastN(a, m), LastN(b + [y], k), at), n) == LastN(Merge(a, b + [y], at), n)
  {
    hide Merge;
    var last, tail := LastN(a, m), LastN(b, k - 1);
    assert last[|last|-1] == a[|a|-1];
    LastNSnoc(b, y, k);
    hide LastN;
    MergeTakesSecond(a, b, y, at);
    MergeTakesSecond(last, tail, y, at);
    LastNTogether(Merge(last, tail, at), Merge(a, b, at), y, n);
  }

  /** Only the last `n` rows of either list can be among the last `n` of the merge. */
  lemma {:induction false} MergeTail<T>(a: seq<T>, b: seq<T>, m: nat, k: nat, n: nat, at: Clock<T>)
    requires n <= m && n <= k
    ensures LastN(Merge(LastN(a, m), LastN(b, k), at), n) == LastN(Merge(a, b, at), n)
    decreases n
  {
    hide Merge, LastN;
    if n == 0 || a == [] || b == [] {
      MergeTailEmpty(a, b, m, k, n, at);
    } else {
      var a', b', x, y := a[..|a|-1], b[..|b|-1], a[|a|-1], b[|b|-1];
      assert a' + [x] == a;
      assert b' + [y] == b;
      if at(x) > at(y) {
        MergeTail(a', b, m - 1, k, n - 1, at);
        MergeTailFirst(a', x, b, m, k, n, at);
      } else {
        MergeTail(a, b', m, k - 1, n - 1, at);
        MergeTailSecond(a, b', y, m, k, n, at);
      }
    }
  }

  lemma MergeTailEmpty<T>(a: seq<T>, b: seq<T>, m: nat, k: nat, n: nat, at: Clock<T>)
    requires n <= m && n <= k && (n == 0 || a == [] || b == [])
    ensures LastN(Merge(LastN(a, m), LastN(b, k), at), n) == LastN(Merge(a, b, at), n)
  {
    hide Merge;
    if a == [] {
      MergeWithNothing(b, at);
      MergeWithNothing(LastN(b, k), at);
      LastOfLast(b, k, n);
    } else if b == [] {
      MergeWithNothing(a, at);
      MergeWithNothing(LastN(a, m), at);
      LastOfLast(a, m, n);
    }
  }

  function Flatten<T>(lists: seq<seq<T>>): seq<T> {
    if lists == [] then [] else Flatten(lists[..|lists|-1]) + lists[|lists|-1]
  }

  function Tails<T>(lists: seq<seq<T>>, cap: nat): (r: seq<seq<T>>)
    ensures |r| == |lists| && forall i | 0 <= i < |lists| :: r[i] == LastN(lists[i], cap)
  {
    seq(|lists|, i requires 0 <= i < |lists| => LastN(lists[i], cap))
  }

  /** Capping every log before the merge changes nothing after the final cap. */
  lemma {:induction false} CappingCommutes<T>(logs: seq<seq<T>>, cap: nat, at: Clock<T>)
    requires forall i | 0 <= i < |logs| :: Sorted(logs[i], at)
    ensures LastN(Sort(Flatten(Tails(logs, cap)), at), cap) == LastN(Sort(Flatten(logs), at), cap)
  {
    hide Flatten, Merge, Sort, LastN, Sorted, Tails;
    if logs == [] {
      assert Tails(logs, cap) == logs;
    } else {
      var logs', log := logs[..|logs|-1], logs[|logs|-1];
      assert logs == logs' + [log];
      CappingCommutes(logs', cap, at);
      var all, kept := Sort(Flatten(logs'), at), Sort(Flatten(Tails(logs', cap)), at);
      TailsSnoc(logs', log, cap);
      FlattenSnoc(logs', log);
      FlattenSnoc(Tails(logs', cap), LastN(log, cap));
      SortConcat(Flatten(logs'), log, at);
      SortConcat(Flatten(Tails(logs', cap)), LastN(log, cap), at);
      SortOfSorted(log, at);
      TailIsSorted(log, cap, at);
      SortOfSorted(LastN(log, cap), at);
      MergeTail(all, log, cap, cap, cap, at);
      MergeTail(kept, LastN(log, cap), cap, cap, cap, at);
      LastOfLast(log, cap, cap);
    }
  }

  lemma TailIsSorted<T>(log: seq<T>, cap: nat, at: Clock<T>)
    requires Sorted(log, at)
    ensures Sorted(LastN(log, cap), at)
  {}

  ghost predicate SomeLonger<T>(lists: seq<seq<T>>, cap: nat) {
    exists i :: 0 <= i < |lists| && |lists[i]| > cap
  }

  lemma SomeLongerSnoc<T>(lists: seq<seq<T>>, last: seq<T>, cap: nat)
    ensures SomeLonger(lists + [last], cap) <==> SomeLonger(lists, cap) || |last| > cap
  {
    var all := lists + [last];
    if SomeLonger(lists, cap) {
      var i :| 0 <= i < |lists| && |lists[i]| > cap;
      assert |all[i]| > cap;
    }
    if |last| > cap { assert |all[|lists|]| > cap; }
  }

  lemma TailsSnoc<T>(lists: seq<seq<T>>, last: seq<T>, cap: nat)
    ensures Tails(lists + [last], cap) == Tails(lists, cap) + [LastN(last, cap)]
  {}

  lemma FlattenSnoc<T>(lists: seq<seq<T>>, last: seq<T>)
    ensures Flatten(lists + [last]) == Flatten(lists) + last
  {
    assert (lists + [last])[..|lists|] == lists;
  }

  /** Something is cut exactly when one list, or what is left of all of them, exceeds the cap. */
  lemma {:induction false} FlattenedSize<T>(lists: seq<seq<T>>, cap: nat)
    ensures |Flatten(Tails(lists, cap))| <= |Flatten(lists)|
    ensures if SomeLonger(lists, cap) then |Flatten(lists)| > cap else Flatten(Tails(lists, cap)) == Flatten(lists)
  {
    if lists == [] {
      assert Tails(lists, cap) == lists;
    } else {
      var lists', last := lists[..|lists|-1], lists[|lists|-1];
      assert lists == lists' + [last];
      FlattenedSize(lists', cap);
      hide Flatten, Tails, SomeLonger;
      TailsSnoc(lists', last, cap);
      FlattenSnoc(lists', last);
      FlattenSnoc(Tails(lists', cap), LastN(last, cap));
      SomeLongerSnoc(lists', last, cap);
    }
  }

  // ----- the read view -----

  datatype TraceDir = TraceDir(events: seq<byte>, wire: seq<byte>)

  datatype ColumnView<E, W> = ColumnView(events: seq<E>, wire: seq<W>, truncated: bool)

  function EventFiles(dirs: seq<TraceDir>): (r: seq<seq<byte>>)
    ensures |r| == |dirs| && forall i | 0 <= i < |dirs| :: r[i] == dirs[i].events
  {
    seq(|dirs|, i requires 0 <= i < |dirs| => dirs[i].events)
  }

  function WireFiles(dirs: seq<TraceDir>): (r: seq<seq<byte>>)
    ensures |r| == |dirs| && forall i | 0 <= i < |dirs| :: r[i] == dirs[i].wire
  {
    seq(|dirs|, i requires 0 <= i < |dirs| => dirs[i].wire)
  }

  function TailRows<T>(files: seq<seq<byte>>, cap: nat, parse: RowParser<T>): (r: seq<seq<T>>)
    ensures |r| == |files| && forall i | 0 <= i < |files| :: r[i] == WholeFile(files[i], cap, parse).rows
  {
    seq(|files|, i requires 0 <= i < |files| => WholeFile(files[i], cap, parse).rows)
  }

  ghost predicate SomeTruncated<T>(files: seq<seq<byte>>, cap: nat, parse: RowParser<T>) {
    exists i :: 0 <= i < |files| && WholeFile(files[i], cap, parse).truncated
  }

  /** Something was left out: in front of a log's tail, or of the merged tails. */
  ghost predicate LeavesOut<T>(files: seq<seq<byte>>, cap: nat, parse: RowParser<T>) {
    SomeTruncated(files, cap, parse) || |Flatten(TailRows(files, cap, parse))| > cap
  }

  /** Reads the capped tail of every log and collects the rows. */
  method CollectTails<T>(files: seq<seq<byte>>, cap: nat, parse: RowParser<T>, needed: (nat, nat) -> nat,
        chunk: nat -> nat)
    returns (rows: seq<T>, truncated: bool)
    requires cap >= 1
    ensures rows == Flatten(TailRows(files, cap, parse))
    ensures truncated <==> SomeTruncated(files, cap, parse)
  {
    hide WholeFile;
    ghost var parts := TailRows(files, cap, parse);
    rows, truncated := [], false;
    for d := 0 to |files|
      invariant rows == Flatten(parts[..d])
      invariant truncated <==> exists i :: 0 <= i < d && WholeFile(files[i], cap, parse).truncated
    {
      var tail := ReadJsonlTail(files[d], cap, parse, needed, chunk);
      assert parts[..d+1] == parts[..d] + [tail.rows];
      FlattenSnoc(parts[..d], tail.rows);
      rows := rows + tail.rows;
      truncated := truncated || tail.truncated;
    }
    assert parts[..|files|] == parts;
  }

  /** All rows of a well formed log. */
  ghost predicate WellFormed<T>(file: seq<byte>, parse: RowParser<T>, at: Clock<T>) {
    && (forall k | 0 <= k < |Lines(file)| :: parse(Lines(file)[k]).Some?)
    && Sorted(Rows(Lines(file), parse), at)
  }

  function AllRows<T>(files: seq<seq<byte>>, parse: RowParser<T>): seq<seq<T>> {
    seq(|files|, i requires 0 <= i < |files| => Rows(Lines(files[i]), parse))
  }

  lemma RowsSnoc<T>(lines: seq<seq<byte>>, line: seq<byte>, parse: RowParser<T>)
    requires parse(line).Some?
    ensures Rows(lines + [line], parse) == Rows(lines, parse) + [parse(line).value]
  {
    assert (lines + [line])[..|lines|] == lines;
  }

  lemma {:induction false} RowsOfParsed<T>(lines: seq<seq<byte>>, parse: RowParser<T>, n: nat)
    requires forall k | 0 <= k < |lines| :: parse(lines[k]).Some?
    ensures |Rows(lines, parse)| == |lines|
    ensures Rows(LastN(lines, n), parse) == LastN(Rows(lines, parse), n)
    decreases |lines|
  {
    if lines != [] {
      var lines', line := lines[..|lines|-1], lines[|lines|-1];
      assert lines == lines' + [line];
      RowsSnoc(lines', line, parse);
      if n == 0 {
        RowsOfParsed(lines', parse, 0);
      } else {
        RowsOfParsed(lines', parse, n - 1);
        LastNSnoc(lines', line, n);
        hide Rows, LastN;
        RowsSnoc(LastN(lines', n - 1), line, parse);
        LastNSnoc(Rows(lines', parse), parse(line).value, n);
      }
    }
  }

  /** What the tails of well formed logs hold. */
  lemma TailsOfWellFormed<T>(files: seq<seq<byte>>, cap: nat, parse: RowParser<T>, at: Clock<T>)
    requires forall i | 0 <= i < |files| :: WellFormed(files[i], parse, at)
    ensures TailRows(files, cap, parse) == Tails(AllRows(files, parse), cap)
    ensures SomeTruncated(files, cap, parse) <==> SomeLonger(AllRows(files, parse), cap)
    ensures forall i | 0 <= i < |files| :: Sorted(AllRows(files, parse)[i], at)
  {
    var all := AllRows(files, parse);
    forall i | 0 <= i < |files|
      ensures WholeFile(files[i], cap, parse) == Tail(LastN(all[i], cap), |all[i]| > cap)
      ensures Sorted(all[i], at)
    {
      assert WellFormed(files[i], parse, at);
      hide Lines, Rows, Sorted;
      RowsOfParsed(Lines(files[i]), parse, cap);
    }
    hide WholeFile, LastN, Rows, Sorted;
    assert TailRows(files, cap, parse) == Tails(all, cap);
  }

  /** Merging the tails of well formed logs and capping once more is capping the sorted whole. */
  method MergeTails<T>(files: seq<seq<byte>>, cap: nat, parse: RowParser<T>, at: Clock<T>, needed: (nat, nat) -> nat,
        chunk: nat -> nat)
    returns (rows: seq<T>, truncated: bool)
    requires cap >= 1
    ensures rows == LastN(Sort(Flatten(TailRows(files, cap, parse)), at), cap)
    ensures truncated <==> LeavesOut(files, cap, parse)
    ensures (forall i | 0 <= i < |files| :: WellFormed(files[i], parse, at)) ==>
      && rows == LastN(Sort(Flatten(AllRows(files, parse)), at), cap)
      && (truncated <==> |Flatten(AllRows(files, parse))| > cap)
  {
    hide Flatten, Sort, TailRows, AllRows, SomeTruncated, WellFormed, SomeLonger, Sorted, Tails;
    var collected, cut := CollectTails(files, cap, parse, needed, chunk);
    var sorted := Sort(collected, at);
    rows := if |sorted| > cap then LastN(sorted, cap) else sorted;
    truncated := cut || |sorted| > cap;
    if forall i | 0 <= i < |files| :: WellFormed(files[i], parse, at) {
      TailsOfWellFormed(files, cap, parse, at);
      CappingCommutes(AllRows(files, parse), cap, at);
      FlattenedSize(AllRows(files, parse), cap);
    }
  }

  /** The read view of one column over all its trace directories. */
  method ColumnLogs<E, W>(
    dirs: seq<TraceDir>, parseEvent: RowParser<E>, parseWire: RowParser<W>, eventTime: Clock<E>, wireTime: Clock<W>,
    needed: (nat, nat) -> nat, chunk: nat -> nat)
    returns (view: ColumnView<E, W>)
    ensures var events, wires := EventFiles(dirs), WireFiles(dirs);
            && view.events == LastN(Sort(Flatten(TailRows(events, MAX_EVENTS, parseEvent)), eventTime), MAX_EVENTS)
            && view.wire == LastN(Sort(Flatten(TailRows(wires, MAX_WIRE, parseWire)), wireTime), MAX_WIRE)
            && (view.truncated <==>
                 LeavesOut(events, MAX_EVENTS, parseEvent) || LeavesOut(wires, MAX_WIRE, parseWire))
    ensures
      var events, wires := EventFiles(dirs), WireFiles(dirs);
      (forall i | 0 <= i < |dirs| ::
         WellFormed(events[i], parseEvent, eventTime) && WellFormed(wires[i], parseWire, wireTime)) ==>
      var allEvents, allWire := Flatten(AllRows(events, parseEvent)), Flatten(AllRows(wires, parseWire));
      && view.events == LastN(Sort(allEvents, eventTime), MAX_EVENTS)
      && view.wire == LastN(Sort(allWire, wireTime), MAX_WIRE)
      && (view.truncated <==> |allEvents| > MAX_EVENTS || |allWire| > MAX_WIRE)
  {
    hide Flatten, Sort, AllRows, WellFormed, TailRows, LastN, LeavesOut;
    var events, eventsCut := MergeTails(EventFiles(dirs), MAX_EVENTS, parseEvent, eventTime, needed, chunk);
    var wire, wireCut := MergeTails(WireFiles(dirs), MAX_WIRE, parseWire, wireTime, needed, chunk);
    view := ColumnView(events, wire, eventsCut || wireCut);
  }
}
