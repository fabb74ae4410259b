/** Append-only log files of one run.  Every append is fire-and-forget: lines queue up in a batch while the
    file's previous write is in flight, and writes of one file are chained.  A promise is a numbered write; it holds
    the batch its callback captured, and `pending` names the write whose batch a file's next line may still join. */
module RunTraceLogs {
  import opened JsText

  /** `Chained`: its callback has not run; `Writing`: its bytes are on their way; `Settled`: written or
      swallowed; `Retired`: its cleanup ran. */
  datatype Phase = Chained | Writing | Settled | Retired

  /** A column keeps an event log and a wire log. */
  datatype LogFile = EventLog(stem: string) | WireLog(stem: string)

  /** `lines` is the batch object the write's callback captured. */
  datatype Write = Write(file: LogFile, after: Option<nat>, lines: seq<string>, phase: Phase)

  /** A finished write and whether it reached the disk. */
  datatype Batch = Batch(lines: seq<string>, written: bool)

  datatype State = State(
    pending: map<LogFile, nat>, chains: map<LogFile, nat>, inflight: set<nat>, warnings: nat,
    writes: seq<Write>, active: map<LogFile, nat>, disk: map<LogFile, seq<string>>,
    submitted: map<LogFile, seq<string>>, finished: map<LogFile, seq<Batch>>)

  datatype Step =
    | Append(file: LogFile, line: string)
    | Begin(write: nat)
    | Finish(write: nat, written: bool)
    | Retire(write: nat)

  const EMPTY := State(map[], map[], {}, 0, [], map[], map[], map[], map[])

  function Get<T>(m: map<LogFile, seq<T>>, f: LogFile): seq<T> {
    if f in m then m[f] else []
  }

  function Put<T>(m: map<LogFile, seq<T>>, f: LogFile, more: seq<T>): map<LogFile, seq<T>> {
    m[f := Get(m, f) + more]
  }

  /** A promise can be waited for once the one before it has settled. */
  predicate IsFree(writes: seq<Write>, after: Option<nat>) {
    || after.None?
    || (after.value < |writes| && (writes[after.value].phase.Settled? || writes[after.value].phase.Retired?))
  }

  predicate Enabled(s: State, step: Step) {
    match step
    case Append(_, _) => true
    case Begin(w) => w < |s.writes| && s.writes[w].phase.Chained? && IsFree(s.writes, s.writes[w].after)
    case Finish(w, _) => w < |s.writes| && s.writes[w].phase.Writing?
    case Retire(w) => w < |s.writes| && s.writes[w].phase.Settled?
  }

  /** The file has an open batch. */
  predicate Joins(s: State, f: LogFile) {
    f in s.pending && s.pending[f] < |s.writes|
  }

  function WithLine(write: Write, line: string): Write {
    write.(lines := write.lines + [line])
  }

  /** The line joins the file's open batch. */
  function Joined(s: State, f: LogFile, line: string): State
    requires Joins(s, f)
  {
    var w := s.pending[f];
    s.(submitted := Put(s.submitted, f, [line]), writes := s.writes[w := WithLine(s.writes[w], line)])
  }

  /** The line opens a batch, in a new write behind the file's last. */
  function Opened(s: State, f: LogFile, line: string): State {
    var w := |s.writes|;
    var after := if f in s.chains then Some(s.chains[f]) else None;
    s.(submitted := Put(s.submitted, f, [line]), writes := s.writes + [Write(f, after, [line], Chained)],
       pending := s.pending[f := w], chains := s.chains[f := w], inflight := s.inflight + {w})
  }

  function AfterAppend(s: State, f: LogFile, line: string): State {
    if Joins(s, f) then Joined(s, f, line) else Opened(s, f, line)
  }

  /** Whatever batch the file has open is taken off; the captured one is written. */
  function AfterBegin(s: State, w: nat): State
    requires w < |s.writes|
  {
    var f := s.writes[w].file;
    s.(pending := s.pending - {f}, active := s.active[f := w],
       writes := s.writes[w := s.writes[w].(phase := Writing)])
  }

  /** Only the first failure warns. */
  function AfterFinish(s: State, w: nat, written: bool): State
    requires w < |s.writes|
  {
    var write := s.writes[w];
    s.(writes := s.writes[w := write.(phase := Settled)], active := s.active - {write.file},
       disk := Put(s.disk, write.file, if written then write.lines else []),
       finished := Put(s.finished, write.file, [Batch(write.lines, written)]),
       warnings := if !written && s.warnings == 0 then 1 else s.warnings)
  }

  /** The chain slot goes only if this write is still its file's last. */
  function AfterRetire(s: State, w: nat): State
    requires w < |s.writes|
  {
    var f := s.writes[w].file;
    s.(writes := s.writes[w := s.writes[w].(phase := Retired)], inflight := s.inflight - {w},
       chains := if f in s.chains && s.chains[f] == w then s.chains - {f} else s.chains)
  }

  function Next(s: State, step: Step): State
    requires Enabled(s, step)
  {
    match step
    case Append(f, line) => AfterAppend(s, f, line)
    case Begin(w) => AfterBegin(s, w)
    case Finish(w, written) => AfterFinish(s, w, written)
    case Retire(w) => AfterRetire(s, w)
  }

  // ----- what every reachable state keeps -----

  /** A chained write is its file's last, and its batch is the open one; a write under way is the one its file is
      busy with. */
  predicate WriteHolds(s: State, w: nat)
    requires w < |s.writes|
  {
    var write := s.writes[w];
    && (w in s.inflight <==> !write.phase.Retired?)
    && (write.phase.Chained? ==>
          && write.file in s.pending && s.pending[write.file] == w
          && write.file in s.chains && s.chains[write.file] == w)
    && (write.phase.Writing? ==> write.file in s.active && s.active[write.file] == w)
  }

  /** The chain slot names a live write of the file; a batch is open only in a chained write; the file is busy
      with at most one write, its last or the one its last waits for. */
  predicate FileHolds(s: State, f: LogFile) {
    && (f in s.chains ==>
          s.chains[f] < |s.writes| && s.writes[s.chains[f]].file == f && !s.writes[s.chains[f]].phase.Retired?)
    && (f in s.pending ==>
          && f in s.chains && s.pending[f] == s.chains[f]
          && s.writes[s.chains[f]].phase.Chained? && s.writes[s.chains[f]].lines != [])
    && (f in s.active ==>
          && s.active[f] < |s.writes| && s.writes[s.active[f]].file == f && s.writes[s.active[f]].phase.Writing?
          && f in s.chains
          && (s.chains[f] == s.active[f]
              || (s.writes[s.chains[f]].phase.Chained? && s.writes[s.chains[f]].after == Some(s.active[f]))))
  }

  ghost predicate ChainInvariant(s: State) {
    && (forall w: nat | w < |s.writes| :: WriteHolds(s, w))
    && (forall w | w in s.inflight :: w < |s.writes|)
    && (forall f :: FileHolds(s, f))
    && (forall w: nat | w < |s.writes| && s.writes[w].after.Some? :: s.writes[w].after.value < w)
  }

  function Lines(batches: seq<Batch>): seq<string> {
    if batches == [] then [] else Lines(batches[..|batches|-1]) + batches[|batches|-1].lines
  }

  /** The lines of the batches that reached the disk. */
  function Written(batches: seq<Batch>): seq<string> {
    if batches == [] then []
    else Written(batches[..|batches|-1]) + if batches[|batches|-1].written then batches[|batches|-1].lines else []
  }

  function UnderWay(s: State, f: LogFile): seq<string> {
    if f in s.active && s.active[f] < |s.writes| then s.writes[s.active[f]].lines else []
  }

  /** The lines of the file's open batch. */
  function Pending(s: State, f: LogFile): seq<string> {
    if Joins(s, f) then s.writes[s.pending[f]].lines else []
  }

  /** Every submitted line is finished, under way or pending, in order; the disk holds the written batches. */
  predicate Accounts(s: State, f: LogFile) {
    && Get(s.submitted, f) == Lines(Get(s.finished, f)) + UnderWay(s, f) + Pending(s, f)
    && Get(s.disk, f) == Written(Get(s.finished, f))
    && s.warnings <= 1
    && (s.warnings == 0 ==> Lines(Get(s.finished, f)) == Written(Get(s.finished, f)))
  }

  ghost predicate Invariant(s: State) {
    ChainInvariant(s) && forall f :: Accounts(s, f)
  }

  lemma BatchSnoc(batches: seq<Batch>, b: Batch)
    ensures Lines(batches + [b]) == Lines(batches) + b.lines
    ensures Written(batches + [b]) == Written(batches) + if b.written then b.lines else []
  {
    assert (batches + [b])[..|batches|] == batches;
  }

  lemma JoinKeepsChains(s: State, f: LogFile, line: string)
    requires ChainInvariant(s) && Joins(s, f)
    ensures ChainInvariant(Joined(s, f, line))
  {
    hide Put;
    var t := Joined(s, f, line);
    forall g ensures FileHolds(t, g) { assert FileHolds(s, g); }
    forall w: nat | w < |t.writes| ensures WriteHolds(t, w) { assert WriteHolds(s, w); }
    hide FileHolds, WriteHolds;
  }

  lemma OpenKeepsFile(s: State, f: LogFile, line: string, g: LogFile)
    requires FileHolds(s, g) && f !in s.pending
    requires g == f && f in s.chains && s.chains[f] < |s.writes| ==> WriteHolds(s, s.chains[f])
    ensures FileHolds(Opened(s, f, line), g)
  {
    hide Put;
  }

  lemma OpenKeepsWrite(s: State, f: LogFile, line: string, w: nat)
    requires w <= |s.writes| && (w < |s.writes| ==> WriteHolds(s, w)) && f !in s.pending
    ensures WriteHolds(Opened(s, f, line), w)
  {
    hide Put;
  }

  lemma OpenKeepsLinks(s: State, f: LogFile, line: string)
    requires ChainInvariant(s) && f !in s.pending
    ensures var t := Opened(s, f, line);
            && (forall w | w in t.inflight :: w < |t.writes|)
            && (forall w: nat | w < |t.writes| && t.writes[w].after.Some? :: t.writes[w].after.value < w)
  {
    assert FileHolds(s, f);
    hide WriteHolds, Put;
  }

  lemma OpenKeepsChains(s: State, f: LogFile, line: string)
    requires ChainInvariant(s) && f !in s.pending
    ensures ChainInvariant(Opened(s, f, line))
  {
    var t := Opened(s, f, line);
    OpenKeepsLinks(s, f, line);
    forall g ensures FileHolds(t, g) {
      assert FileHolds(s, f) && FileHolds(s, g);
      if f in s.chains { assert WriteHolds(s, s.chains[f]); }
      hide WriteHolds, ChainInvariant;
      OpenKeepsFile(s, f, line, g);
    }
    hide FileHolds;
    forall w: nat | w < |t.writes| ensures WriteHolds(t, w) {
      hide WriteHolds;
      assert w < |s.writes| ==> WriteHolds(s, w);
      OpenKeepsWrite(s, f, line, w);
    }
    hide WriteHolds;
  }

  lemma AppendKeepsChains(s: State, f: LogFile, line: string)
    requires ChainInvariant(s)
    ensures ChainInvariant(AfterAppend(s, f, line))
  {
    assert FileHolds(s, f);
    hide ChainInvariant, Joined, Opened;
    if Joins(s, f) { JoinKeepsChains(s, f, line); } else { OpenKeepsChains(s, f, line); }
  }

  lemma GetPut<T>(m: map<LogFile, seq<T>>, f: LogFile, more: seq<T>, g: LogFile)
    ensures Get(Put(m, f, more), g) == if g == f then Get(m, f) + more else Get(m, g)
  {}

  lemma Regroup<T>(a: seq<T>, b: seq<T>, c: seq<T>, d: seq<T>)
    ensures a + b + c + d == a + b + (c + d) == a + (b + (c + d))
    ensures a + [] + c == a + c && a + b + [] == a + b
  {}

  lemma JoinAccounts(s: State, f: LogFile, line: string, g: LogFile)
    requires ChainInvariant(s) && Joins(s, f)
    ensures UnderWay(Joined(s, f, line), g) == UnderWay(s, g)
    ensures Pending(Joined(s, f, line), g) == if g == f then Pending(s, f) + [line] else Pending(s, g)
  {
    assert FileHolds(s, g) && FileHolds(s, f);
    hide Put, Get, ChainInvariant;
  }

  lemma OpenAccounts(s: State, f: LogFile, line: string, g: LogFile)
    requires ChainInvariant(s) && f !in s.pending
    ensures UnderWay(Opened(s, f, line), g) == UnderWay(s, g)
    ensures Pending(Opened(s, f, line), g) == if g == f then Pending(s, f) + [line] else Pending(s, g)
  {
    assert FileHolds(s, g) && FileHolds(s, f);
    hide Put, Get, ChainInvariant;
  }

  lemma AppendCounts(s: State, f: LogFile, line: string, g: LogFile)
    requires ChainInvariant(s)
    ensures var t := AfterAppend(s, f, line);
            && UnderWay(t, g) == UnderWay(s, g)
            && Pending(t, g) == (if g == f then Pending(s, f) + [line] else Pending(s, g))
  {
    assert FileHolds(s, f);
    hide ChainInvariant, Joined, Opened, UnderWay, Pending;
    if Joins(s, f) { JoinAccounts(s, f, line, g); } else { OpenAccounts(s, f, line, g); }
  }

  predicate SameFiles(s: State, t: State) {
    t.disk == s.disk && t.finished == s.finished && t.warnings == s.warnings && t.active == s.active
  }

  lemma JoinSubmits(s: State, f: LogFile, line: string)
    requires Joins(s, f)
    ensures Joined(s, f, line).submitted == Put(s.submitted, f, [line]) && SameFiles(s, Joined(s, f, line))
  {
    hide Put, WithLine;
  }

  lemma OpenSubmits(s: State, f: LogFile, line: string)
    ensures Opened(s, f, line).submitted == Put(s.submitted, f, [line]) && SameFiles(s, Opened(s, f, line))
  {
    hide Put;
  }

  /** An append adds its line to what was submitted, and leaves the disk alone. */
  lemma AppendSubmits(s: State, f: LogFile, line: string)
    ensures AfterAppend(s, f, line).submitted == Put(s.submitted, f, [line]) && SameFiles(s, AfterAppend(s, f, line))
  {
    hide Put, Joined, Opened, SameFiles;
    if Joins(s, f) { JoinSubmits(s, f, line); } else { OpenSubmits(s, f, line); }
  }

  lemma AppendAccounts(s: State, f: LogFile, line: string, g: LogFile)
    requires ChainInvariant(s) && Accounts(s, g)
    ensures Accounts(AfterAppend(s, f, line), g)
  {
    AppendCounts(s, f, line, g);
    AppendSubmits(s, f, line);
    GetPut(s.submitted, f, [line], g);
    hide Lines, Written, UnderWay, Pending, Get, Put, ChainInvariant, Joins, AfterAppend;
    Regroup(Lines(Get(s.finished, g)), UnderWay(s, g), Pending(s, g), [line]);
  }

  /** The write that may begin finds no other one of its file under way. */
  lemma NothingElseUnderWay(s: State, w: nat)
    requires ChainInvariant(s) && Enabled(s, Begin(w))
    ensures var f := s.writes[w].file; f !in s.active && f in s.pending && s.pending[f] == w
  {
    assert WriteHolds(s, w) && FileHolds(s, s.writes[w].file);
  }

  lemma BeginKeepsChains(s: State, w: nat)
    requires ChainInvariant(s) && Enabled(s, Begin(w))
    ensures ChainInvariant(AfterBegin(s, w))
  {
    NothingElseUnderWay(s, w);
    var t := AfterBegin(s, w);
    assert WriteHolds(s, w);
    forall g ensures FileHolds(t, g) { assert FileHolds(s, g); }
    forall v: nat | v < |t.writes| ensures WriteHolds(t, v) { assert WriteHolds(s, v); }
    hide FileHolds, WriteHolds;
  }

  /** The batch the callback captured is the one its file had open. */
  lemma BeginUnderWay(s: State, w: nat, g: LogFile)
    requires ChainInvariant(s) && Enabled(s, Begin(w))
    ensures UnderWay(AfterBegin(s, w), g) == if g == s.writes[w].file then Pending(s, g) else UnderWay(s, g)
    ensures Pending(AfterBegin(s, w), g) == if g == s.writes[w].file then [] else Pending(s, g)
    ensures UnderWay(s, s.writes[w].file) == []
  {
    NothingElseUnderWay(s, w);
    assert FileHolds(s, g);
  }

  lemma BeginAccounts(s: State, w: nat, g: LogFile)
    requires ChainInvariant(s) && Enabled(s, Begin(w)) && Accounts(s, g)
    ensures Accounts(AfterBegin(s, w), g)
  {
    BeginUnderWay(s, w, g);
    hide Lines, Written, UnderWay, Pending, Get, ChainInvariant, Enabled;
    Regroup(Lines(Get(s.finished, g)), [], Pending(s, g), []);
    Regroup(Lines(Get(s.finished, g)), Pending(s, g), [], []);
  }

  lemma FinishKeepsChains(s: State, w: nat, written: bool)
    requires ChainInvariant(s) && Enabled(s, Finish(w, written))
    ensures ChainInvariant(AfterFinish(s, w, written))
  {
    var t := AfterFinish(s, w, written);
    assert WriteHolds(s, w);
    forall g ensures FileHolds(t, g) { assert FileHolds(s, g); }
    forall v: nat | v < |t.writes| ensures WriteHolds(t, v) { assert WriteHolds(s, v); }
    hide FileHolds, WriteHolds;
  }

  lemma FinishUnderWay(s: State, w: nat, written: bool, g: LogFile)
    requires ChainInvariant(s) && Enabled(s, Finish(w, written))
    ensures UnderWay(AfterFinish(s, w, written), g) == if g == s.writes[w].file then [] else UnderWay(s, g)
    ensures UnderWay(s, s.writes[w].file) == s.writes[w].lines
    ensures Pending(AfterFinish(s, w, written), g) == Pending(s, g)
  {
    assert FileHolds(s, g) && WriteHolds(s, w);
    hide Put;
  }

  lemma FinishAccounts(s: State, w: nat, written: bool, g: LogFile)
    requires ChainInvariant(s) && Enabled(s, Finish(w, written)) && Accounts(s, g)
    ensures Accounts(AfterFinish(s, w, written), g)
  {
    var f, batch := s.writes[w].file, Batch(s.writes[w].lines, written);
    FinishUnderWay(s, w, written, g);
    GetPut(s.disk, f, if written then batch.lines else [], g);
    GetPut(s.finished, f, [batch], g);
    BatchSnoc(Get(s.finished, g), batch);
    hide Lines, Written, UnderWay, Pending, Get, Put, ChainInvariant;
    Regroup(Lines(Get(s.finished, g)), batch.lines, Pending(s, g), []);
    Regroup(Lines(Get(s.finished, g)) + batch.lines, [], Pending(s, g), []);
  }

  lemma RetireKeepsChains(s: State, w: nat)
    requires ChainInvariant(s) && Enabled(s, Retire(w))
    ensures ChainInvariant(AfterRetire(s, w))
  {
    var t := AfterRetire(s, w);
    forall g ensures FileHolds(t, g) { assert FileHolds(s, g); }
    forall v: nat | v < |t.writes| ensures WriteHolds(t, v) { assert WriteHolds(s, v); }
    hide FileHolds, WriteHolds;
  }

  lemma RetireAccounts(s: State, w: nat, g: LogFile)
    requires ChainInvariant(s) && Enabled(s, Retire(w)) && Accounts(s, g)
    ensures Accounts(AfterRetire(s, w), g)
  {
    assert FileHolds(s, g);
    hide Lines, Written;
  }

  lemma AppendKeeps(s: State, f: LogFile, line: string)
    requires Invariant(s)
    ensures Invariant(AfterAppend(s, f, line))
  {
    hide Accounts, ChainInvariant, AfterAppend;
    AppendKeepsChains(s, f, line);
    forall g ensures Accounts(AfterAppend(s, f, line), g) { AppendAccounts(s, f, line, g); }
  }

  lemma BeginKeeps(s: State, w: nat)
    requires Invariant(s) && Enabled(s, Begin(w))
    ensures Invariant(AfterBegin(s, w))
  {
    hide Accounts, ChainInvariant, AfterBegin;
    BeginKeepsChains(s, w);
    forall g ensures Accounts(AfterBegin(s, w), g) { BeginAccounts(s, w, g); }
  }

  lemma FinishKeeps(s: State, w: nat, written: bool)
    requires Invariant(s) && Enabled(s, Finish(w, written))
    ensures Invariant(AfterFinish(s, w, written))
  {
    hide Accounts, ChainInvariant, AfterFinish;
    FinishKeepsChains(s, w, written);
    forall g ensures Accounts(AfterFinish(s, w, written), g) { FinishAccounts(s, w, written, g); }
  }

  lemma RetireKeeps(s: State, w: nat)
    requires Invariant(s) && Enabled(s, Retire(w))
    ensures Invariant(AfterRetire(s, w))
  {
    hide Accounts, ChainInvariant, AfterRetire;
    RetireKeepsChains(s, w);
    forall g ensures Accounts(AfterRetire(s, w), g) { RetireAccounts(s, w, g); }
  }

  lemma StepKeeps(s: State, step: Step)
    requires Invariant(s) && Enabled(s, step)
    ensures Invariant(Next(s, step))
  {
    hide Invariant, AfterAppend, AfterBegin, AfterFinish, AfterRetire;
    match step
    case Append(f, line) => AppendKeeps(s, f, line);
    case Begin(w) => BeginKeeps(s, w);
    case Finish(w, written) => FinishKeeps(s, w, written);
    case Retire(w) => RetireKeeps(s, w);
  }

  // ----- runs -----

  predicate CanRun(steps: seq<Step>)
    decreases |steps|, 0
  {
    steps == [] || (CanRun(steps[..|steps|-1]) && Enabled(StateAfter(steps[..|steps|-1]), steps[|steps|-1]))
  }

  function StateAfter(steps: seq<Step>): State
    requires CanRun(steps)
    decreases |steps|, 1
  {
    if steps == [] then EMPTY else Next(StateAfter(steps[..|steps|-1]), steps[|steps|-1])
  }

  /** The lines a run appends to one file. */
  function Appended(steps: seq<Step>, f: LogFile): seq<string> {
    if steps == [] then []
    else
      var before, last := Appended(steps[..|steps|-1], f), steps[|steps|-1];
      if last.Append? && last.file == f then before + [last.line] else before
  }

  lemma StepSubmits(s: State, step: Step, f: LogFile)
    requires Enabled(s, step)
    ensures Get(Next(s, step).submitted, f)
         == Get(s.submitted, f) + if step.Append? && step.file == f then [step.line] else []
  {
    if step.Append? { GetPut(s.submitted, step.file, [step.line], f); }
    hide Put, Get;
    assert Get(s.submitted, f) + [] == Get(s.submitted, f);
  }

  lemma {:induction false} EveryRunKeeps(steps: seq<Step>, f: LogFile)
    requires CanRun(steps)
    ensures Invariant(StateAfter(steps)) && Get(StateAfter(steps).submitted, f) == Appended(steps, f)
  {
    if steps != [] {
      hide Invariant, Enabled, Next, Get;
      var before, last := steps[..|steps|-1], steps[|steps|-1];
      EveryRunKeeps(before, f);
      StepKeeps(StateAfter(before), last);
      StepSubmits(StateAfter(before), last, f);
      assert Appended(before, f) + [] == Appended(before, f);
    }
  }

  /** Whatever the interleaving: the disk holds the appended lines in order, without duplicates and minus whole
      failed batches, up to what is still under way or pending. */
  lemma DiskHoldsWrittenBatches(steps: seq<Step>, f: LogFile)
    requires CanRun(steps)
    ensures var s := StateAfter(steps);
            Appended(steps, f) == Lines(Get(s.finished, f)) + UnderWay(s, f) + Pending(s, f)
    ensures Get(StateAfter(steps).disk, f) == Written(Get(StateAfter(steps).finished, f))
    ensures StateAfter(steps).warnings == 0 ==>
        Get(StateAfter(steps).disk, f) == Lines(Get(StateAfter(steps).finished, f))
  {
    EveryRunKeeps(steps, f);
    hide StateAfter, CanRun, Lines, Written, ChainInvariant, Get, UnderWay, Pending;
    assert Accounts(StateAfter(steps), f);
  }

  ghost predicate SomeFail(steps: seq<Step>) {
    exists k :: 0 <= k < |steps| && steps[k].Finish? && !steps[k].written
  }

  lemma SomeFailSnoc(before: seq<Step>, last: Step)
    ensures SomeFail(before + [last]) <==> SomeFail(before) || (last.Finish? && !last.written)
  {
    var steps := before + [last];
    assert steps[|before|] == last;
    if k :| 0 <= k < |before| && before[k].Finish? && !before[k].written { assert steps[k] == before[k]; }
  }

  /** There is one warning exactly when some write failed, whichever and however many. */
  lemma {:induction false} WarnsOnceExactly(steps: seq<Step>)
    requires CanRun(steps)
    ensures StateAfter(steps).warnings == if SomeFail(steps) then 1 else 0
  {
    if steps != [] {
      var before, last := steps[..|steps|-1], steps[|steps|-1];
      WarnsOnceExactly(before);
      assert steps == before + [last];
      SomeFailSnoc(before, last);
      hide SomeFail, Put, Get, Joined, Opened, IsFree, CanRun;
      WarningsOf(StateAfter(before), last);
    }
  }

  lemma WarningsOf(s: State, step: Step)
    requires Enabled(s, step)
    ensures Next(s, step).warnings == if step.Finish? && !step.written && s.warnings == 0 then 1 else s.warnings
  {
    hide Put, Get;
  }

  lemma OneWritePerFile(steps: seq<Step>, v: nat, w: nat)
    requires CanRun(steps)
    requires v < |StateAfter(steps).writes| && StateAfter(steps).writes[v].phase.Writing?
    requires w < |StateAfter(steps).writes| && StateAfter(steps).writes[w].phase.Writing?
    requires StateAfter(steps).writes[v].file == StateAfter(steps).writes[w].file
    ensures v == w
  {
    var s := StateAfter(steps);
    EveryRunKeeps(steps, s.writes[v].file);
    hide StateAfter, CanRun, Accounts;
    assert WriteHolds(s, v) && WriteHolds(s, w);
  }

  lemma ChainIsInFlight(s: State, f: LogFile)
    requires Invariant(s) && (f in s.chains || f in s.pending || f in s.active)
    ensures |s.inflight| > 0
  {
    assert FileHolds(s, f) && WriteHolds(s, s.chains[f]);
    assert s.chains[f] in s.inflight;
  }

  lemma QuietWhenNothingInFlight(s: State)
    requires Invariant(s) && |s.inflight| == 0
    ensures s.pending == map[] && s.active == map[] && s.chains == map[]
    ensures forall f :: Get(s.submitted, f) == Lines(Get(s.finished, f))
  {
    forall f ensures f !in s.pending && f !in s.active && f !in s.chains {
      if f in s.chains || f in s.pending || f in s.active { ChainIsInFlight(s, f); }
    }
    forall f ensures Get(s.submitted, f) == Lines(Get(s.finished, f)) {
      assert Accounts(s, f);
    }
  }

  /** `flush` returns when nothing is in flight: then every appended line belongs to a finished batch. */
  lemma FlushLeavesNothingPending(steps: seq<Step>, f: LogFile)
    requires CanRun(steps) && |StateAfter(steps).inflight| == 0
    ensures var s := StateAfter(steps);
            && s.pending == map[] && s.active == map[] && s.chains == map[]
            && Appended(steps, f) == Lines(Get(s.finished, f))
            && (s.warnings == 0 ==> Get(s.disk, f) == Appended(steps, f))
  {
    EveryRunKeeps(steps, f);
    DiskHoldsWrittenBatches(steps, f);
    QuietWhenNothingInFlight(StateAfter(steps));
    hide StateAfter, CanRun, Lines, Written, Get, Invariant;
  }

  // ----- a flush ends -----

  function Rank(phase: Phase): nat {
    match phase case Chained => 3 case Writing => 2 case Settled => 1 case Retired => 0
  }

  function Work(writes: seq<Write>): nat {
    if writes == [] then 0 else Work(writes[..|writes|-1]) + Rank(writes[|writes|-1].phase)
  }

  lemma {:induction false} WorkOfUpdate(writes: seq<Write>, w: nat, write: Write)
    requires w < |writes|
    ensures Work(writes[w := write]) == Work(writes) - Rank(writes[w].phase) + Rank(write.phase)
  {
    var n := |writes| - 1;
    if w < n {
      WorkOfUpdate(writes[..n], w, write);
      assert writes[w := write][..n] == writes[..n][w := write];
    } else {
      assert writes[w := write][..n] == writes[..n];
    }
  }

  /** A write in flight can take its next step, unless it waits for another. */
  predicate CanAdvance(writes: seq<Write>, w: nat) {
    w < |writes| && !writes[w].phase.Retired? && (writes[w].phase.Chained? ==> IsFree(writes, writes[w].after))
  }

  lemma AdvanceWorks(s: State, step: Step)
    requires Enabled(s, step) && !step.Append?
    ensures Work(Next(s, step).writes) < Work(s.writes)
  {
    hide Put, Get, Work;
    match step
    case Begin(w) => WorkOfUpdate(s.writes, w, Next(s, step).writes[w]);
    case Finish(w, _) => WorkOfUpdate(s.writes, w, Next(s, step).writes[w]);
    case Retire(w) => WorkOfUpdate(s.writes, w, Next(s, step).writes[w]);
  }

  /** Of the writes in flight, the one at the head of a chain can advance. */
  lemma {:induction false} SomethingAdvances(s: State, v: nat) returns (w: nat)
    requires ChainInvariant(s) && v in s.inflight
    ensures w in s.inflight && CanAdvance(s.writes, w)
    decreases v
  {
    w := v;
    assert WriteHolds(s, v);
    if s.writes[v].phase.Chained? && !IsFree(s.writes, s.writes[v].after) {
      var u := s.writes[v].after.value;
      assert WriteHolds(s, u);
      w := SomethingAdvances(s, u);
    }
  }

  lemma PendingIsWrite(s: State, f: LogFile)
    requires Invariant(s)
    ensures Joins(s, f) <==> f in s.pending
    ensures f in s.pending ==> s.pending[f] < |s.writes|
  {
    assert FileHolds(s, f);
  }

  function WithArrivals(submitted: map<LogFile, seq<string>>, arrivals: seq<(LogFile, string)>)
    : map<LogFile, seq<string>>
  {
    if arrivals == [] then submitted
    else
      var last := Last(arrivals);
      Put(WithArrivals(submitted, Front(arrivals)), last.0, [last.1])
  }

  // ----- the object -----

  class Logs {
    var pending: map<LogFile, nat>
    var chains: map<LogFile, nat>
    var inflight: set<nat>
    var warnings: nat
    var wireSeq: nat
    /** The promises made so far, and the disk. */
    var writes: seq<Write>
    var active: map<LogFile, nat>
    var disk: map<LogFile, seq<string>>
    ghost var submitted: map<LogFile, seq<string>>
    ghost var finished: map<LogFile, seq<Batch>>

    ghost function View(): State
      reads this
    {
      State(pending, chains, inflight, warnings, writes, active, disk, submitted, finished)
    }

    constructor ()
      ensures View() == EMPTY && Invariant(View()) && wireSeq == 0
    {
      pending, chains, inflight, warnings, wireSeq := map[], map[], {}, 0, 0;
      writes, active, disk, submitted, finished := [], map[], map[], map[], map[];
    }

    method AppendLine(f: LogFile, line: string)
      requires Invariant(View())
      modifies this
      ensures Invariant(View()) && View() == AfterAppend(old(View()), f, line) && wireSeq == old(wireSeq)
    {
      AppendKeeps(View(), f, line);
      PendingIsWrite(View(), f);
      hide Invariant, Joined, Opened;
      if f in pending { JoinBatch(f, line); } else { OpenBatch(f, line); }
    }

    method JoinBatch(f: LogFile, line: string)
      requires Joins(View(), f)
      modifies this`writes, this`submitted
      ensures View() == Joined(old(View()), f, line)
    {
      hide Put;
      submitted := Put(submitted, f, [line]);
      writes := writes[pending[f] := WithLine(writes[pending[f]], line)];
    }

    /** A new write of the file, behind the last one, and its batch. */
    method OpenBatch(f: LogFile, line: string)
      modifies this`writes, this`pending, this`chains, this`inflight, this`submitted
      ensures View() == Opened(old(View()), f, line)
    {
      hide Put;
      submitted := Put(submitted, f, [line]);
      var after := if f in chains then Some(chains[f]) else None;
      var w := |writes|;
      writes := writes + [Write(f, after, [line], Chained)];
      pending := pending[f := w];
      chains := chains[f := w];
      inflight := inflight + {w};
    }

    /** Wire records are numbered in the order they arrive, over all columns. */
    method AppendWire(stem: string, render: nat -> string)
      requires Invariant(View())
      modifies this
      ensures Invariant(View()) && wireSeq == old(wireSeq) + 1
      ensures View() == AfterAppend(old(View()), WireLog(stem), render(old(wireSeq)))
    {
      var line := render(wireSeq);
      wireSeq := wireSeq + 1;
      AppendLine(WireLog(stem), line);
    }

    /** The callback of a chained write: everything appended so far rides in it. */
    method OnTurn(w: nat)
      requires Invariant(View()) && Enabled(View(), Begin(w))
      modifies this
      ensures Invariant(View()) && View() == AfterBegin(old(View()), w) && wireSeq == old(wireSeq)
    {
      hide Invariant, IsFree;
      BeginKeeps(View(), w);
      var write := writes[w];
      pending := pending - {write.file};
      active := active[write.file := w];
      writes := writes[w := write.(phase := Writing)];
    }

    method OnWriteDone(w: nat, written: bool)
      requires Invariant(View()) && Enabled(View(), Finish(w, written))
      modifies this
      ensures Invariant(View()) && View() == AfterFinish(old(View()), w, written) && wireSeq == old(wireSeq)
    {
      hide Invariant, Put;
      FinishKeeps(View(), w, written);
      var write := writes[w];
      active := active - {write.file};
      finished := Put(finished, write.file, [Batch(write.lines, written)]);
      disk := Put(disk, write.file, if written then write.lines else []);
      writes := writes[w := write.(phase := Settled)];
      if !written && warnings == 0 { warnings := 1; }
    }

    method OnSettled(w: nat)
      requires Invariant(View()) && Enabled(View(), Retire(w))
      modifies this
      ensures Invariant(View()) && View() == AfterRetire(old(View()), w) && wireSeq == old(wireSeq)
    {
      hide Invariant;
      RetireKeeps(View(), w);
      var f := writes[w].file;
      inflight := inflight - {w};
      if f in chains && chains[f] == w { chains := chains - {f}; }
      writes := writes[w := writes[w].(phase := Retired)];
    }

    method AdvanceWrite(w: nat, written: bool)
      requires Invariant(View()) && CanAdvance(writes, w)
      modifies this
      ensures Invariant(View()) && Work(writes) < Work(old(writes)) && submitted == old(submitted)
    {
      hide Invariant, Work;
      var phase := writes[w].phase;
      if phase.Chained? {
        AdvanceWorks(View(), Begin(w));
        OnTurn(w);
      } else if phase.Writing? {
        AdvanceWorks(View(), Finish(w, written));
        OnWriteDone(w, written);
      } else {
        AdvanceWorks(View(), Retire(w));
        OnSettled(w);
      }
    }

    method AdvanceSome(fails: nat -> bool)
      requires Invariant(View()) && |inflight| > 0
      modifies this
      ensures Invariant(View()) && Work(writes) < Work(old(writes)) && submitted == old(submitted)
    {
      ghost var v :| v in inflight;
      ghost var u := SomethingAdvances(View(), v);
      hide Invariant, Work, CanAdvance;
      assert CanAdvance(writes, u);
      var w :| w in inflight && CanAdvance(writes, w);
      AdvanceWrite(w, !fails(w));
    }

    /** Waits until nothing is in flight, whatever order the writes advance in, whichever of them fail, and however
        many of the `arrivals` are appended while it waits: those are waited for too. */
    method Flush(fails: nat -> bool, arrivals: seq<(LogFile, string)>, arrivesNow: nat -> bool) returns (arrived: nat)
      requires Invariant(View())
      modifies this
      ensures Invariant(View()) && |inflight| == 0 && pending == map[]
      ensures arrived <= |arrivals| && submitted == WithArrivals(old(submitted), arrivals[..arrived])
      ensures forall f :: Get(submitted, f) == Lines(Get(finished, f))
    {
      hide Work, Put, Invariant, AfterAppend;
      arrived := 0;
      var turn: nat := 0;
      while |inflight| > 0
        invariant Invariant(View())
        invariant arrived <= |arrivals| && submitted == WithArrivals(old(submitted), arrivals[..arrived])
        decreases |arrivals| - arrived, Work(writes)
      {
        if arrived < |arrivals| && arrivesNow(turn) {
          assert arrivals[..arrived+1][..arrived] == arrivals[..arrived];
          AppendSubmits(View(), arrivals[arrived].0, arrivals[arrived].1);
          AppendLine(arrivals[arrived].0, arrivals[arrived].1);
          arrived := arrived + 1;
        } else {
          AdvanceSome(fails);
        }
        turn := turn + 1;
      }
      QuietWhenNothingInFlight(View());
    }
  }
}
