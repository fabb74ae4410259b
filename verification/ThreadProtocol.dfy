/** Turns, forks and deletions of threads as steps that interleave at every await. */
module ThreadProtocol {
  import opened HistoryCaps
  import opened JsText
  import opened ThreadStore

  /** A live call between taking the thread's `running` flag and giving it back. */
  datatype Task =
    | Turn(thread: nat, question: string)
    | Branch(thread: nat, fork: nat)      // a fork waiting for its workspace copy

  /** An event of the arena stream, as far as a turn looks at it; `column` is the thread its column is labelled
      after. */
  datatype RunEvent = RunEvent(isComplete: bool, column: Option<nat>, success: bool, workspace: string,
    answer: string, rounds: seq<ToolRound>)

  datatype Step =
    | Create(title: string, stamp: string, config: string, now: int)
    | Delete(id: nat)
    | StartTurn(task: nat, id: nat, question: string)
    | TurnEvent(task: nat, event: RunEvent, now: int)
    | EndTurn(task: nat)                  // however the stream ends
    | StartFork(task: nat, id: nat, title: string, isProtected: bool, now: int)
    | EndFork(task: nat, copied: bool, now: int)

  /** `transcript` records, per thread, every message ever committed or copied into it. */
  datatype State = State(threads: map<nat, Thread>, nextId: nat, tasks: map<nat, Task>,
    transcript: map<nat, seq<Message>>)

  const EMPTY := State(map[], 0, map[], map[])

  /** Thread-owned workspaces are named after their thread. */
  function CloneName(fork: nat): string {
    "t-" + Digits(fork)
  }

  predicate IsBusy(s: State, id: nat) {
    id in s.threads && s.threads[id].running
  }

  function WithRunning(threads: map<nat, Thread>, id: nat, running: bool): map<nat, Thread> {
    if id in threads then threads[id := threads[id].(running := running)] else threads
  }

  predicate Commits(task: Task, event: RunEvent) {
    task.Turn? && event.isComplete && event.column == Some(task.thread) && event.success
  }

  /** A step that names a live task must find it; a new task takes an unused number. */
  predicate Enabled(s: State, step: Step) {
    match step
    case StartTurn(task, _, _) => task !in s.tasks
    case StartFork(task, _, _, _, _) => task !in s.tasks
    case TurnEvent(task, event, _) => task in s.tasks && s.tasks[task].Turn? && FitsWire(event.rounds)
    case EndTurn(task) => task in s.tasks && s.tasks[task].Turn?
    case EndFork(task, _, _) => task in s.tasks && s.tasks[task].Branch?
    case _ => true
  }

  /** Refused without effect when the thread is missing or busy. */
  predicate IsRefused(s: State, id: nat) {
    id !in s.threads || s.threads[id].running
  }

  function AfterCreate(s: State, limits: Limits, title: string, stamp: string, config: string, now: int): State {
    if !HasRoom(s.threads, limits) then s
    else s.(threads := s.threads[s.nextId := NewThread(s.nextId, title, stamp, config, now)], nextId := s.nextId + 1,
            transcript := s.transcript[s.nextId := []])
  }

  function AfterDelete(s: State, id: nat): State {
    if IsRefused(s, id) then s else s.(threads := s.threads - {id})
  }

  function AfterStartTurn(s: State, task: nat, id: nat, question: string): State {
    if IsRefused(s, id) then s
    else s.(threads := WithRunning(s.threads, id, true), tasks := s.tasks[task := Turn(id, question)])
  }

  function AfterTurnEvent(s: State, limits: Limits, task: nat, event: RunEvent, now: int): State
    requires task in s.tasks && s.tasks[task].Turn?
  {
    var id := s.tasks[task].thread;
    if !Commits(s.tasks[task], event) || id !in s.threads then s
    else
      var question := s.tasks[task].question;
      var after := WithTurn(s.threads[id], limits, question, event.answer, event.workspace, event.rounds, now);
      s.(threads := s.threads[id := after],
         transcript := s.transcript[id := (if id in s.transcript then s.transcript[id] else [])
                                          + TurnPair(question, event.answer, event.rounds)])
  }

  function AfterEndTurn(s: State, task: nat): State
    requires task in s.tasks
  {
    s.(threads := WithRunning(s.threads, s.tasks[task].thread, false), tasks := s.tasks - {task})
  }

  /** The parent is marked, copied and, without a workspace to branch, released again with nothing in between. */
  function AfterStartFork(s: State, limits: Limits, task: nat, id: nat, title: string, isProtected: bool,
        now: int): State {
    if IsRefused(s, id) || (s.threads[id].workspace != "" && isProtected) || !HasRoom(s.threads, limits) then s
    else
      var parent, fork := s.threads[id], s.nextId;
      var held := WithRunning(s.threads, id, true);
      var copied := held[fork := ForkedThread(fork, held[id], title, now)];
      var t := s.(nextId := fork + 1,
                  transcript := s.transcript[fork := if id in s.transcript then s.transcript[id] else []]);
      if parent.workspace == "" then t.(threads := WithRunning(copied, id, false))
      else t.(threads := copied, tasks := s.tasks[task := Branch(id, fork)])
  }

  /** A finished copy is linked; after a failed one the record goes, if the store lets it. */
  function AfterCopy(s: State, fork: nat, copied: bool, now: int): map<nat, Thread> {
    if copied && fork in s.threads then
      s.threads[fork := s.threads[fork].(workspace := CloneName(fork), updatedAt := now)]
    else if copied || IsRefused(s, fork) then s.threads
    else s.threads - {fork}
  }

  function AfterEndFork(s: State, task: nat, copied: bool, now: int): State
    requires task in s.tasks && s.tasks[task].Branch?
  {
    var threads := AfterCopy(s, s.tasks[task].fork, copied, now);
    s.(threads := WithRunning(threads, s.tasks[task].thread, false), tasks := s.tasks - {task})
  }

  function Next(s: State, limits: Limits, step: Step): State
    requires Enabled(s, step)
  {
    match step
    case Create(title, stamp, config, now) => AfterCreate(s, limits, title, stamp, config, now)
    case Delete(id) => AfterDelete(s, id)
    case StartTurn(task, id, question) => AfterStartTurn(s, task, id, question)
    case TurnEvent(task, event, now) => AfterTurnEvent(s, limits, task, event, now)
    case EndTurn(task) => AfterEndTurn(s, task)
    case StartFork(task, id, title, isProtected, now) => AfterStartFork(s, limits, task, id, title, isProtected, now)
    case EndFork(task, copied, now) => AfterEndFork(s, task, copied, now)
  }

  // ----- what every reachable state keeps -----

  /** Every live call holds a thread that exists and is marked, and no two hold the same one. */
  predicate TaskHolds(s: State, task: nat)
    requires task in s.tasks
  {
    && IsBusy(s, s.tasks[task].thread)
    && (s.tasks[task].Branch? ==> s.tasks[task].fork < s.nextId && s.tasks[task].fork != s.tasks[task].thread)
  }

  ghost predicate OwnerInvariant(s: State) {
    && (forall task | task in s.tasks :: TaskHolds(s, task))
    && (forall t, u | t in s.tasks && u in s.tasks && s.tasks[t].thread == s.tasks[u].thread :: t == u)
    && (forall id | IsBusy(s, id) :: exists task :: task in s.tasks && s.tasks[task].thread == id)
  }

  predicate IsSuffix(x: seq<Message>, y: seq<Message>) {
    |x| <= |y| && x == y[|y|-|x|..]
  }

  /** The stored history is what is left of everything committed, two messages per turn. */
  ghost predicate RecordHolds(t: Thread, limits: Limits, id: nat, transcript: seq<Message>) {
    && t.id == id
    && HasSoundHistory(t, limits)
    && |transcript| == 2 * t.turnCount
    && IsSuffix(t.history, transcript)
  }

  ghost predicate ThreadHolds(s: State, limits: Limits, id: nat) {
    id in s.threads ==> id < s.nextId && id in s.transcript && RecordHolds(s.threads[id], limits, id, s.transcript[id])
  }

  predicate IsWithinRegistry(s: State, limits: Limits) {
    |s.threads| <= limits.maxThreads || s.threads == map[]
  }

  ghost predicate Invariant(s: State, limits: Limits) {
    OwnerInvariant(s) && (forall id: nat :: ThreadHolds(s, limits, id)) && IsWithinRegistry(s, limits)
  }

  // ----- single records -----

  lemma NewRecordHolds(limits: Limits, id: nat, title: string, stamp: string, config: string, now: int)
    ensures RecordHolds(NewThread(id, title, stamp, config, now), limits, id, [])
    ensures !NewThread(id, title, stamp, config, now).running
  {
    hide Trim, WithinCaps;
  }

  lemma ForkedRecordHolds(limits: Limits, parent: Thread, id: nat, fork: nat, title: string, now: int,
        transcript: seq<Message>)
    requires RecordHolds(parent, limits, id, transcript)
    ensures RecordHolds(ForkedThread(fork, parent, title, now), limits, fork, transcript)
    ensures !ForkedThread(fork, parent, title, now).running
  {
    hide Trim, WithinCaps, IsTranscript, AreStorable;
  }

  lemma RunningKeepsRecord(t: Thread, limits: Limits, id: nat, transcript: seq<Message>, running: bool)
    requires RecordHolds(t, limits, id, transcript)
    ensures RecordHolds(t.(running := running), limits, id, transcript)
  {
    hide WithinCaps, IsTranscript, AreStorable;
  }

  lemma WorkspaceKeepsRecord(t: Thread, limits: Limits, id: nat, transcript: seq<Message>, workspace: string, now: int)
    requires RecordHolds(t, limits, id, transcript)
    ensures RecordHolds(t.(workspace := workspace, updatedAt := now), limits, id, transcript)
  {
    hide WithinCaps, IsTranscript, AreStorable;
  }

  lemma SuffixOfMore(x: seq<Message>, y: seq<Message>, more: seq<Message>, n: nat)
    requires IsSuffix(x, y) && n <= |x + more|
    ensures IsSuffix((x + more)[|x + more| - n..], y + more)
  {
    assert x + more == (y + more)[|y|-|x|..];
  }

  lemma TurnKeepsRecord(t: Thread, limits: Limits, id: nat, transcript: seq<Message>, question: string,
        event: RunEvent, now: int)
    requires RecordHolds(t, limits, id, transcript)
    ensures RecordHolds(WithTurn(t, limits, question, event.answer, event.workspace, event.rounds, now), limits, id,
                        transcript + TurnPair(question, event.answer, event.rounds))
  {
    hide SanitizedTurnContent;
    var pair := TurnPair(question, event.answer, event.rounds);
    TurnKeepsSoundHistory(t, limits, question, event.answer, event.workspace, event.rounds, now);
    TrimIsSuffix(t.history + pair, limits.history);
    hide HasSoundHistory, Trimmed, TurnPair;
    SuffixOfMore(t.history, transcript, pair, |Trimmed(t.history + pair, limits.history)|);
    hide IsSuffix;
  }

  // ----- ownership -----

  /** Changes to threads that keep every flag leave ownership alone. */
  lemma SameFlagsKeepOwners(s: State, t: State)
    requires OwnerInvariant(s) && t.tasks == s.tasks && t.nextId >= s.nextId
    requires forall id | IsBusy(s, id) :: IsBusy(t, id)
    requires forall id | IsBusy(t, id) :: IsBusy(s, id)
    ensures OwnerInvariant(t)
  {
    forall task | task in t.tasks ensures TaskHolds(t, task) {
      assert TaskHolds(s, task);
    }
  }

  /** An idle thread is held by nobody, so a new call may take it. */
  lemma TakingKeepsOwners(s: State, t: State, task: nat, call: Task)
    requires OwnerInvariant(s) && task !in s.tasks && t.tasks == s.tasks[task := call] && t.nextId >= s.nextId
    requires !IsBusy(s, call.thread) && IsBusy(t, call.thread)
    requires call.Branch? ==> call.fork < t.nextId && call.fork != call.thread
    requires forall id | id != call.thread && IsBusy(s, id) :: IsBusy(t, id)
    requires forall id | id != call.thread && IsBusy(t, id) :: IsBusy(s, id)
    ensures OwnerInvariant(t)
  {
    forall u | u in t.tasks ensures TaskHolds(t, u) {
      if u != task { assert TaskHolds(s, u); }
    }
    forall u, v | u in t.tasks && v in t.tasks && t.tasks[u].thread == t.tasks[v].thread ensures u == v {
      if u != task { assert TaskHolds(s, u); }
      if v != task { assert TaskHolds(s, v); }
    }
    forall id | IsBusy(t, id) ensures exists u :: u in t.tasks && t.tasks[u].thread == id {
      if id == call.thread {
        assert t.tasks[task].thread == id;
      } else {
        var u :| u in s.tasks && s.tasks[u].thread == id;
        assert t.tasks[u].thread == id;
      }
    }
  }

  /** A call that ends is its thread's only holder, so the flag may go with it. */
  lemma ReleasingKeepsOwners(s: State, t: State, task: nat)
    requires OwnerInvariant(s) && task in s.tasks && t.tasks == s.tasks - {task} && t.nextId == s.nextId
    requires !IsBusy(t, s.tasks[task].thread)
    requires forall id | id != s.tasks[task].thread && IsBusy(s, id) :: IsBusy(t, id)
    requires forall id | id != s.tasks[task].thread && IsBusy(t, id) :: IsBusy(s, id)
    ensures OwnerInvariant(t)
  {
    forall u | u in t.tasks ensures TaskHolds(t, u) {
      assert TaskHolds(s, u);
    }
    forall id | IsBusy(t, id) ensures exists u :: u in t.tasks && t.tasks[u].thread == id {
      var u :| u in s.tasks && s.tasks[u].thread == id;
      assert u in t.tasks;
    }
  }

  // ----- steps -----

  lemma FreshIdIsUnused(s: State, limits: Limits)
    requires Invariant(s, limits)
    ensures s.nextId !in s.threads
  {
    assert ThreadHolds(s, limits, s.nextId);
  }

  /** One record is added or replaced. */
  lemma RecordChanges(s: State, limits: Limits, t: State, id: nat, record: Thread, transcript: seq<Message>)
    requires forall g: nat :: ThreadHolds(s, limits, g)
    requires t.threads == s.threads[id := record] && t.transcript == s.transcript[id := transcript]
    requires id < t.nextId && s.nextId <= t.nextId && RecordHolds(record, limits, id, transcript)
    ensures forall g: nat :: ThreadHolds(t, limits, g)
    ensures |t.threads| == |s.threads| + if id in s.threads then 0 else 1
  {
    hide RecordHolds;
    RegistrySize(s.threads, id, record);
    forall g: nat ensures ThreadHolds(t, limits, g) { assert ThreadHolds(s, limits, g); }
  }

  lemma RegistrySize(threads: map<nat, Thread>, id: nat, record: Thread)
    ensures |threads[id := record]| == |threads| + if id in threads then 0 else 1
  {
    assert threads[id := record].Keys == threads.Keys + {id};
  }

  lemma CreateKeeps(s: State, limits: Limits, title: string, stamp: string, config: string, now: int)
    requires Invariant(s, limits)
    ensures Invariant(AfterCreate(s, limits, title, stamp, config, now), limits)
  {
    hide NewThread, RecordHolds, OwnerInvariant, ThreadHolds;
    if HasRoom(s.threads, limits) {
      var t, record := AfterCreate(s, limits, title, stamp, config, now),
        NewThread(s.nextId, title, stamp, config, now);
      FreshIdIsUnused(s, limits);
      NewRecordHolds(limits, s.nextId, title, stamp, config, now);
      RecordChanges(s, limits, t, s.nextId, record, []);
      IdleJoins(s, t, s.nextId, record);
    }
  }

  lemma IdleJoins(s: State, t: State, id: nat, record: Thread)
    requires OwnerInvariant(s) && t.tasks == s.tasks && t.nextId >= s.nextId
    requires id !in s.threads && !record.running && t.threads == s.threads[id := record]
    ensures OwnerInvariant(t)
  {
    hide OwnerInvariant;
    SameFlagsKeepOwners(s, t);
  }

  lemma RecordKeepsFlag(s: State, t: State, id: nat, record: Thread)
    requires OwnerInvariant(s) && t.tasks == s.tasks && t.nextId >= s.nextId
    requires id in s.threads && record.running == s.threads[id].running && t.threads == s.threads[id := record]
    ensures OwnerInvariant(t)
  {
    hide OwnerInvariant;
    SameFlagsKeepOwners(s, t);
  }

  lemma DeleteKeeps(s: State, limits: Limits, id: nat)
    requires Invariant(s, limits)
    ensures Invariant(AfterDelete(s, id), limits)
  {
    var t := AfterDelete(s, id);
    hide RecordHolds, OwnerInvariant;
    SameFlagsKeepOwners(s, t);
    forall g: nat ensures ThreadHolds(t, limits, g) { assert ThreadHolds(s, limits, g); }
    FewerThreads(s.threads, id);
  }

  lemma FewerThreads(threads: map<nat, Thread>, id: nat)
    ensures |threads - {id}| <= |threads|
    ensures threads == map[] ==> threads - {id} == map[]
  {
    assert (threads - {id}).Keys <= threads.Keys;
    SubsetSize((threads - {id}).Keys, threads.Keys);
  }

  lemma RunningKeepsThreads(s: State, limits: Limits, t: State, id: nat, running: bool)
    requires forall g: nat :: ThreadHolds(s, limits, g)
    requires t.threads == WithRunning(s.threads, id, running) && t.transcript == s.transcript && t.nextId == s.nextId
    ensures forall g: nat :: ThreadHolds(t, limits, g)
    ensures |t.threads| == |s.threads|
  {
    hide RecordHolds;
    assert t.threads.Keys == s.threads.Keys;
    forall g: nat ensures ThreadHolds(t, limits, g) {
      assert ThreadHolds(s, limits, g);
      if g == id && id in s.threads { RunningKeepsRecord(s.threads[id], limits, id, s.transcript[id], running); }
    }
  }

  lemma StartTurnKeeps(s: State, limits: Limits, task: nat, id: nat, question: string)
    requires Invariant(s, limits) && task !in s.tasks
    ensures Invariant(AfterStartTurn(s, task, id, question), limits)
  {
    if !IsRefused(s, id) {
      hide ThreadHolds, OwnerInvariant;
      var t := AfterStartTurn(s, task, id, question);
      RunningKeepsThreads(s, limits, t, id, true);
      TakingKeepsOwners(s, t, task, Turn(id, question));
    }
  }

  /** A live call always finds its thread. */
  lemma HolderFindsThread(s: State, limits: Limits, task: nat)
    requires Invariant(s, limits) && task in s.tasks
    ensures s.tasks[task].thread in s.threads && s.threads[s.tasks[task].thread].running
    ensures s.tasks[task].thread in s.transcript
  {
    assert TaskHolds(s, task) && ThreadHolds(s, limits, s.tasks[task].thread);
  }

  lemma TurnEventKeeps(s: State, limits: Limits, task: nat, event: RunEvent, now: int)
    requires Invariant(s, limits) && Enabled(s, TurnEvent(task, event, now))
    ensures Invariant(AfterTurnEvent(s, limits, task, event, now), limits)
  {
    hide RecordHolds, OwnerInvariant, WithTurn, TurnPair, Commits, FitsWire;
    HolderFindsThread(s, limits, task);
    var t, id, question := AfterTurnEvent(s, limits, task, event, now), s.tasks[task].thread, s.tasks[task].question;
    assert ThreadHolds(s, limits, id);
    TurnKeepsRecord(s.threads[id], limits, id, s.transcript[id], question, event, now);
    TurnKeepsFlag(s.threads[id], limits, question, event, now);
    hide ThreadHolds;
    if Commits(s.tasks[task], event) {
      RecordKeepsFlag(s, t, id, t.threads[id]);
      RecordChanges(s, limits, t, id, t.threads[id], t.transcript[id]);
    }
  }

  lemma TurnKeepsFlag(t: Thread, limits: Limits, question: string, event: RunEvent, now: int)
    ensures WithTurn(t, limits, question, event.answer, event.workspace, event.rounds, now).running == t.running
  {
    hide Trimmed, TurnPair;
  }

  lemma EndTurnKeeps(s: State, limits: Limits, task: nat)
    requires Invariant(s, limits) && task in s.tasks
    ensures Invariant(AfterEndTurn(s, task), limits)
  {
    hide ThreadHolds, OwnerInvariant;
    var t := AfterEndTurn(s, task);
    RunningKeepsThreads(s, limits, t, s.tasks[task].thread, false);
    ReleasingKeepsOwners(s, t, task);
  }

  /** Marking the parent and adding the fork commute. */
  lemma MarkAndJoin(threads: map<nat, Thread>, id: nat, fork: nat, record: Thread, running: bool)
    requires id in threads && fork !in threads
    ensures WithRunning(WithRunning(threads, id, true)[fork := record], id, running)
         == WithRunning(threads[fork := record], id, running)
  {
    assert WithRunning(threads, id, true)[fork := record][id] == threads[id].(running := true);
    assert threads[fork := record][id] == threads[id];
  }

  /** A fork's record joins the registry, idle, with its parent marked or not. */
  lemma ForkJoins(s: State, limits: Limits, id: nat, title: string, now: int, t: State, running: bool)
    requires Invariant(s, limits) && id in s.threads && HasRoom(s.threads, limits)
    requires var fork := ForkedThread(s.nextId, s.threads[id].(running := true), title, now);
             t.threads == WithRunning(s.threads[s.nextId := fork], id, running)
    requires t.transcript == s.transcript[s.nextId := if id in s.transcript then s.transcript[id] else []]
    requires t.nextId == s.nextId + 1
    ensures forall g: nat :: ThreadHolds(t, limits, g)
    ensures IsWithinRegistry(t, limits) && s.nextId !in s.threads
    ensures forall g | g != id :: IsBusy(t, g) <==> IsBusy(s, g)
    ensures IsBusy(t, id) <==> running
  {
    hide RecordHolds, OwnerInvariant, ForkedThread;
    FreshIdIsUnused(s, limits);
    assert ThreadHolds(s, limits, id);
    RunningKeepsRecord(s.threads[id], limits, id, s.transcript[id], true);
    ForkedRecordHolds(limits, s.threads[id].(running := true), id, s.nextId, title, now, s.transcript[id]);
    hide ThreadHolds;
    var fork := ForkedThread(s.nextId, s.threads[id].(running := true), title, now);
    var joined := s.(threads := s.threads[s.nextId := fork], transcript := t.transcript, nextId := t.nextId);
    RecordChanges(s, limits, joined, s.nextId, fork, s.transcript[id]);
    RunningKeepsThreads(joined, limits, t, id, running);
  }

  lemma StartForkKeeps(s: State, limits: Limits, task: nat, id: nat, title: string, isProtected: bool, now: int)
    requires Invariant(s, limits) && task !in s.tasks
    ensures Invariant(AfterStartFork(s, limits, task, id, title, isProtected, now), limits)
  {
    hide ThreadHolds, OwnerInvariant, ForkedThread, WithRunning;
    var t := AfterStartFork(s, limits, task, id, title, isProtected, now);
    if !IsRefused(s, id) && !(s.threads[id].workspace != "" && isProtected) && HasRoom(s.threads, limits) {
      FreshIdIsUnused(s, limits);
      var held := WithRunning(s.threads, id, true);
      MarkedRecord(s.threads, id);
      var fork := ForkedThread(s.nextId, s.threads[id].(running := true), title, now);
      MarkAndJoin(s.threads, id, s.nextId, fork, s.threads[id].workspace != "");
      if s.threads[id].workspace == "" {
        ForkJoins(s, limits, id, title, now, t, false);
        SameFlagsKeepOwners(s, t);
      } else {
        MarkedTwice(s.threads, id, s.nextId, fork);
        ForkJoins(s, limits, id, title, now, t, true);
        TakingKeepsOwners(s, t, task, Branch(id, s.nextId));
      }
    }
  }

  lemma MarkedRecord(threads: map<nat, Thread>, id: nat)
    requires id in threads
    ensures id in WithRunning(threads, id, true) && WithRunning(threads, id, true)[id] == threads[id].(running := true)
  {}

  lemma MarkedTwice(threads: map<nat, Thread>, id: nat, fork: nat, record: Thread)
    requires id in threads && fork !in threads
    ensures WithRunning(WithRunning(threads, id, true)[fork := record], id, true)
        == WithRunning(threads, id, true)[fork := record]
  {
    assert WithRunning(threads, id, true)[fork := record][id].(running := true) == threads[id].(running := true);
  }

  lemma EndForkKeeps(s: State, limits: Limits, task: nat, copied: bool, now: int)
    requires Invariant(s, limits) && Enabled(s, EndFork(task, copied, now))
    ensures Invariant(AfterEndFork(s, task, copied, now), limits)
  {
    var t := AfterEndFork(s, task, copied, now);
    var id, fork := s.tasks[task].thread, s.tasks[task].fork;
    assert TaskHolds(s, task);
    var settled := s.(threads := AfterCopy(s, fork, copied, now));
    CopyKeepsThreads(s, limits, fork, copied, now);
    hide ThreadHolds, OwnerInvariant, AfterCopy;
    RunningKeepsThreads(settled, limits, t, id, false);
    ReleasingKeepsOwners(s, t, task);
  }

  lemma CopyKeepsThreads(s: State, limits: Limits, fork: nat, copied: bool, now: int)
    requires Invariant(s, limits)
    ensures var settled := s.(threads := AfterCopy(s, fork, copied, now));
            && (forall g: nat :: ThreadHolds(settled, limits, g)) && IsWithinRegistry(settled, limits)
            && (forall g :: IsBusy(settled, g) <==> IsBusy(s, g))
  {
    var settled := s.(threads := AfterCopy(s, fork, copied, now));
    assert ThreadHolds(s, limits, fork);
    hide RecordHolds, OwnerInvariant, CloneName;
    if copied && fork in s.threads {
      WorkspaceKeepsRecord(s.threads[fork], limits, fork, s.transcript[fork], CloneName(fork), now);
      assert s.transcript == s.transcript[fork := s.transcript[fork]];
      RecordChanges(s, limits, settled, fork, settled.threads[fork], s.transcript[fork]);
    } else {
      forall g: nat ensures ThreadHolds(settled, limits, g) { assert ThreadHolds(s, limits, g); }
      FewerThreads(s.threads, fork);
    }
  }

  lemma StepKeeps(s: State, limits: Limits, step: Step)
    requires Invariant(s, limits) && Enabled(s, step)
    ensures Invariant(Next(s, limits, step), limits)
  {
    hide Invariant, AfterCreate, AfterStartFork, AfterEndFork, AfterTurnEvent;
    match step
    case Create(title, stamp, config, now) => CreateKeeps(s, limits, title, stamp, config, now);
    case Delete(id) => DeleteKeeps(s, limits, id);
    case StartTurn(task, id, question) => StartTurnKeeps(s, limits, task, id, question);
    case TurnEvent(task, event, now) => TurnEventKeeps(s, limits, task, event, now);
    case EndTurn(task) => EndTurnKeeps(s, limits, task);
    case StartFork(task, id, title, isProtected, now) => StartForkKeeps(s, limits, task, id, title, isProtected, now);
    case EndFork(task, copied, now) => EndForkKeeps(s, limits, task, copied, now);
  }

  // ----- runs -----

  predicate CanRun(limits: Limits, steps: seq<Step>)
    decreases |steps|, 0
  {
    steps == [] || (CanRun(limits, steps[..|steps|-1])
      && Enabled(StateAfter(limits, steps[..|steps|-1]), steps[|steps|-1]))
  }

  function StateAfter(limits: Limits, steps: seq<Step>): State
    requires CanRun(limits, steps)
    decreases |steps|, 1
  {
    if steps == [] then EMPTY else Next(StateAfter(limits, steps[..|steps|-1]), limits, steps[|steps|-1])
  }

  lemma {:induction false} EveryRunKeeps(limits: Limits, steps: seq<Step>)
    requires CanRun(limits, steps)
    ensures Invariant(StateAfter(limits, steps), limits)
  {
    if steps != [] {
      hide Invariant, Next, Enabled;
      EveryRunKeeps(limits, steps[..|steps|-1]);
      StepKeeps(StateAfter(limits, steps[..|steps|-1]), limits, steps[|steps|-1]);
    }
  }

  /** In every interleaving a marked thread has exactly one live holder, and only such threads are marked. */
  lemma MarkedThreadsHaveOneHolder(limits: Limits, steps: seq<Step>, id: nat)
    requires CanRun(limits, steps)
    ensures var s := StateAfter(limits, steps);
            && (IsBusy(s, id) <==> exists task :: task in s.tasks && s.tasks[task].thread == id)
            && (forall t, u | t in s.tasks && u in s.tasks && s.tasks[t].thread == id == s.tasks[u].thread :: t == u)
  {
    EveryRunKeeps(limits, steps);
    var s := StateAfter(limits, steps);
    hide StateAfter, CanRun, ThreadHolds;
    forall task | task in s.tasks && s.tasks[task].thread == id ensures IsBusy(s, id) {
      assert TaskHolds(s, task);
    }
  }

  /** Started empty, the registry never exceeds its size, and every stored history is the sound tail of what
      was ever committed: two messages a turn, nothing else. */
  lemma StoredHistoryIsTheTailOfTheTurns(limits: Limits, steps: seq<Step>, id: nat)
    requires CanRun(limits, steps) && id in StateAfter(limits, steps).threads
    ensures var s := StateAfter(limits, steps);
            && |s.threads| <= limits.maxThreads && id in s.transcript
            && HasSoundHistory(s.threads[id], limits)
            && IsSuffix(s.threads[id].history, s.transcript[id])
            && |s.transcript[id]| == 2 * s.threads[id].turnCount
  {
    EveryRunKeeps(limits, steps);
    hide StateAfter, CanRun, OwnerInvariant, HasSoundHistory, IsSuffix;
    assert ThreadHolds(StateAfter(limits, steps), limits, id);
  }

  // ----- what one step may do -----

  predicate Ends(step: Step, task: nat) {
    (step.EndTurn? || step.EndFork?) && step.task == task
  }

  predicate WantsThread(step: Step, id: nat) {
    (step.Delete? || step.StartTurn? || step.StartFork?) && step.id == id
  }

  /** While a call holds a thread no other turn, fork or delete of it succeeds, and nothing else frees it. */
  lemma HolderKeepsItsThread(s: State, limits: Limits, task: nat, step: Step)
    requires Invariant(s, limits) && task in s.tasks && Enabled(s, step) && !Ends(step, task)
    ensures var t := Next(s, limits, step);
            && task in t.tasks && t.tasks[task] == s.tasks[task] && IsBusy(t, s.tasks[task].thread)
            && (WantsThread(step, s.tasks[task].thread) ==> t == s)
  {
    hide ThreadHolds;
    var id := s.tasks[task].thread;
    assert TaskHolds(s, task);
    StepKeeps(s, limits, step);
    var t := Next(s, limits, step);
    hide TaskHolds;
    assert task in t.tasks && t.tasks[task] == s.tasks[task] by {
      hide OwnerInvariant, AfterTurnEvent, ForkedThread, NewThread, AfterCopy, WithRunning;
    }
    hide Next;
    assert TaskHolds(t, task);
    assert IsBusy(t, id) by { TaskIsBusy(t, task); }
    if WantsThread(step, id) { RefusedWhenBusy(s, limits, step, id); }
  }

  lemma TaskIsBusy(s: State, task: nat)
    requires task in s.tasks && TaskHolds(s, task)
    ensures IsBusy(s, s.tasks[task].thread)
  {}

  lemma RefusedWhenBusy(s: State, limits: Limits, step: Step, id: nat)
    requires Enabled(s, step) && WantsThread(step, id) && IsBusy(s, id)
    ensures Next(s, limits, step) == s
  {}

  /** Giving a thread back always finds its record, and leaves it idle with the history it had. */
  lemma ReleaseFindsItsRecord(s: State, limits: Limits, task: nat, step: Step)
    requires Invariant(s, limits) && task in s.tasks && Enabled(s, step) && Ends(step, task)
    ensures var id := s.tasks[task].thread; var t := Next(s, limits, step);
            && id in s.threads && id in t.threads && task !in t.tasks
            && t.threads[id] == s.threads[id].(running := false)
  {
    assert TaskHolds(s, task);
    hide ThreadHolds, CloneName;
  }

  predicate CommitsTo(s: State, step: Step, id: nat) {
    step.TurnEvent? && step.task in s.tasks && s.tasks[step.task].thread == id
      && Commits(s.tasks[step.task], step.event)
  }

  predicate KeepsHistory(before: Thread, after: Thread) {
    && after.id == before.id && after.config == before.config
    && after.history == before.history && after.turnCount == before.turnCount
  }

  lemma StartForkKeepsHistory(s: State, limits: Limits, step: Step, id: nat)
    requires Enabled(s, step) && step.StartFork? && s.nextId !in s.threads
    requires id in s.threads && id in Next(s, limits, step).threads
    ensures KeepsHistory(s.threads[id], Next(s, limits, step).threads[id])
  {
    hide ForkedThread;
  }

  lemma OtherStepKeepsHistory(s: State, limits: Limits, step: Step, id: nat)
    requires Enabled(s, step) && !step.StartFork? && !step.TurnEvent? && s.nextId !in s.threads
    requires id in s.threads && id in Next(s, limits, step).threads
    ensures KeepsHistory(s.threads[id], Next(s, limits, step).threads[id])
  {
    hide CloneName, NewThread, AfterStartFork, AfterTurnEvent;
  }

  /** A thread's history and turn count change only when its own turn completes successfully, and then by
      exactly one pair; its configuration never changes. */
  lemma OnlyCommitsChangeHistory(s: State, limits: Limits, step: Step, id: nat)
    requires Invariant(s, limits) && Enabled(s, step) && id in s.threads && id in Next(s, limits, step).threads
    ensures !CommitsTo(s, step, id) ==> KeepsHistory(s.threads[id], Next(s, limits, step).threads[id])
    ensures CommitsTo(s, step, id) ==>
      Next(s, limits, step).threads[id]
      == WithTurn(s.threads[id], limits, s.tasks[step.task].question, step.event.answer, step.event.workspace,
        step.event.rounds, step.now)
  {
    FreshIdIsUnused(s, limits);
    hide Invariant, AfterCreate, AfterStartFork, AfterEndFork, WithTurn;
    if step.StartFork? {
      StartForkKeepsHistory(s, limits, step, id);
    } else if !step.TurnEvent? {
      OtherStepKeepsHistory(s, limits, step, id);
    }
  }

  /** The record a successful complete of thread `t`'s own column leaves behind, field by field. */
  ghost predicate IsCommitted(t: Thread, after: Thread, limits: Limits, question: string, event: RunEvent, now: int) {
    && after.turnCount == t.turnCount + 1
    && after.workspace == (if event.workspace == "" then t.workspace else event.workspace)
    && after.history
       == Trimmed(t.history + [Message(User, SanitizedTurnContent(question, "(no question recorded)"), []),
                               Message(Assistant, SanitizedTurnContent(event.answer, "(no answer extracted)"),
                                       event.rounds)], limits.history)
    && after == t.(turnCount := after.turnCount, workspace := after.workspace, history := after.history,
                   updatedAt := now)
  }

  /** An event of a turn stores question and answer if it is a complete, of the turn's own column, and successful;
      any other one changes nothing at all. */
  lemma EventCommitsExactly(s: State, limits: Limits, task: nat, event: RunEvent, now: int)
    requires Invariant(s, limits) && Enabled(s, TurnEvent(task, event, now))
    ensures var id, t := s.tasks[task].thread, Next(s, limits, TurnEvent(task, event, now));
            if event.isComplete && event.column == Some(id) && event.success then
              && id in s.threads && id in t.threads
              && IsCommitted(s.threads[id], t.threads[id], limits, s.tasks[task].question, event, now)
              && t.threads == s.threads[id := t.threads[id]] && t.tasks == s.tasks
            else t == s
  {
    HolderFindsThread(s, limits, task);
    hide Invariant, SanitizedTurnContent, Trimmed, FitsWire;
  }

  /** Over all steps: a history or a turn count changes at nothing else, nor does a workspace while a turn streams. */
  lemma OnlyOwnSuccessCommits(s: State, limits: Limits, step: Step, id: nat)
    requires Invariant(s, limits) && Enabled(s, step) && id in s.threads && id in Next(s, limits, step).threads
    requires var before, after := s.threads[id], Next(s, limits, step).threads[id];
             || before.history != after.history || before.turnCount != after.turnCount
             || (step.TurnEvent? && before.workspace != after.workspace)
    ensures step.TurnEvent? && step.event.isComplete && step.event.column == Some(id) && step.event.success
    ensures s.tasks[step.task].Turn? && s.tasks[step.task].thread == id
  {
    if step.TurnEvent? {
      EventCommitsExactly(s, limits, step.task, step.event, step.now);
      hide Invariant, Next, IsCommitted;
    } else {
      hide Invariant, Next;
      OnlyCommitsChangeHistory(s, limits, step, id);
    }
  }

  // ----- what requests do -----

  /** A thread is created exactly while there is room: idle, empty, with its configuration. */
  lemma CreateExactly(s: State, limits: Limits, title: string, stamp: string, config: string, now: int)
    ensures var t := Next(s, limits, Create(title, stamp, config, now));
            if |s.threads| < limits.maxThreads then
              && s.nextId in t.threads && t.threads == s.threads[s.nextId := t.threads[s.nextId]]
              && t.threads[s.nextId] == Thread(s.nextId, if IsBlank(title) then "Thread " + stamp else Trim(title), now,
                                               now, false, 0, "", None, config, [])
              && t.nextId == s.nextId + 1 && t.tasks == s.tasks
            else t == s
  {
    TrimOfBlank(title);
  }

  /** Deleting takes effect exactly on an idle thread, running a turn exactly marks one. */
  lemma DeleteExactly(s: State, limits: Limits, id: nat)
    ensures var t := Next(s, limits, Delete(id));
            if id in s.threads && !s.threads[id].running then t == s.(threads := s.threads - {id}) else t == s
  {}

  lemma StartTurnExactly(s: State, limits: Limits, task: nat, id: nat, question: string)
    requires task !in s.tasks
    ensures var t := Next(s, limits, StartTurn(task, id, question));
            if id in s.threads && !s.threads[id].running then
              t == s.(threads := s.threads[id := s.threads[id].(running := true)],
                      tasks := s.tasks[task := Turn(id, question)])
            else t == s
  {}

  /** However a turn ends, its thread is idle again and otherwise as it was. */
  lemma EndTurnExactly(s: State, limits: Limits, task: nat)
    requires Invariant(s, limits) && Enabled(s, EndTurn(task))
    ensures var id, t := s.tasks[task].thread, Next(s, limits, EndTurn(task));
            && id in s.threads
            && t == s.(threads := s.threads[id := s.threads[id].(running := false)], tasks := s.tasks - {task})
  {
    HolderFindsThread(s, limits, task);
    hide Invariant;
  }

  lemma ForkedIs(id: nat, parent: Thread, title: string, now: int)
    ensures ForkedThread(id, parent, title, now)
         == Thread(id, if IsBlank(title) then parent.title + " (fork)" else Trim(title), now, now, false,
                   parent.turnCount, "", Some(parent.id), parent.config, parent.history)
  {
    TrimOfBlank(title);
    hide Trim, IsBlank;
  }

  lemma MarkedJoin(threads: map<nat, Thread>, id: nat, fork: nat, record: Thread, running: bool)
    requires id in threads && fork !in threads
    ensures var held := WithRunning(threads, id, true)[fork := record];
            threads[id := threads[id].(running := running)][fork := record]
            == (if running then held else WithRunning(held, id, false))
  {
    MarkedRecord(threads, id);
    MarkAndJoin(threads, id, fork, record, running);
    if running { MarkedTwice(threads, id, fork, record); }
    assert threads[fork := record][id] == threads[id];
  }

  lemma ParentIsItself(s: State, limits: Limits, id: nat)
    requires Invariant(s, limits) && id in s.threads
    ensures s.threads[id].id == id
  {
    assert ThreadHolds(s, limits, id);
  }

  predicate MayFork(s: State, limits: Limits, id: nat, isProtected: bool) {
    && id in s.threads && !s.threads[id].running && (s.threads[id].workspace == "" || !isProtected)
    && |s.threads| < limits.maxThreads
  }

  lemma ForkIsRefused(s: State, limits: Limits, task: nat, id: nat, title: string, isProtected: bool, now: int)
    requires !MayFork(s, limits, id, isProtected)
    ensures AfterStartFork(s, limits, task, id, title, isProtected, now) == s
  {
    hide ForkedThread, WithRunning;
  }

  lemma ForkIsMade(s: State, limits: Limits, task: nat, id: nat, title: string, isProtected: bool, now: int)
    requires MayFork(s, limits, id, isProtected)
    ensures id in WithRunning(s.threads, id, true)
    ensures var t := AfterStartFork(s, limits, task, id, title, isProtected, now);
            var copies := s.threads[id].workspace != "";
            var held := WithRunning(s.threads, id, true);
            var joined := held[s.nextId := ForkedThread(s.nextId, held[id], title, now)];
            && t.threads == (if copies then joined else WithRunning(joined, id, false))
            && t.tasks == (if copies then s.tasks[task := Branch(id, s.nextId)] else s.tasks)
            && t.nextId == s.nextId + 1
  {
    hide ForkedThread;
    MarkedRecord(s.threads, id);
    hide WithRunning;
    var held := WithRunning(s.threads, id, true);
    assert id in held[s.nextId := ForkedThread(s.nextId, held[id], title, now)];
  }

  /** A fork is made exactly of an idle thread whose workspace is in no run, while there is room: a record of its own
      with the parent's configuration, history and turn count.  With a workspace to copy the parent stays marked. */
  lemma StartForkExactly(s: State, limits: Limits, task: nat, id: nat, title: string, isProtected: bool, now: int)
    requires Invariant(s, limits) && task !in s.tasks
    ensures var t := Next(s, limits, StartFork(task, id, title, isProtected, now));
            if id in s.threads && !s.threads[id].running && (s.threads[id].workspace == "" || !isProtected)
               && |s.threads| < limits.maxThreads then
              var parent, copies := s.threads[id], s.threads[id].workspace != "";
              var fork := Thread(s.nextId, if IsBlank(title) then parent.title + " (fork)" else Trim(title), now, now,
                                 false, parent.turnCount, "", Some(id), parent.config, parent.history);
              && s.nextId != id && t.nextId == s.nextId + 1
              && t.threads == s.threads[id := parent.(running := copies)][s.nextId := fork]
              && t.tasks == (if copies then s.tasks[task := Branch(id, s.nextId)] else s.tasks)
            else t == s
  {
    hide AfterStartFork, WithRunning, ForkedThread, Trim, IsBlank;
    FreshIdIsUnused(s, limits);
    if MayFork(s, limits, id, isProtected) {
      ParentIsItself(s, limits, id);
      hide Invariant;
      ForkIsMade(s, limits, task, id, title, isProtected, now);
      MarkedRecord(s.threads, id);
      ForkedIs(s.nextId, s.threads[id].(running := true), title, now);
      MarkedJoin(s.threads, id, s.nextId, ForkedThread(s.nextId, s.threads[id].(running := true), title, now),
                 s.threads[id].workspace != "");
    } else {
      hide Invariant;
      ForkIsRefused(s, limits, task, id, title, isProtected, now);
    }
  }

  /** When the copy is done the fork, if it still exists, gets its workspace; after a failed one it goes unless it is
      running.  The parent is idle again either way. */
  lemma EndForkExactly(s: State, limits: Limits, task: nat, copied: bool, now: int)
    requires Invariant(s, limits) && Enabled(s, EndFork(task, copied, now))
    ensures var id, fork, t := s.tasks[task].thread, s.tasks[task].fork, Next(s, limits, EndFork(task, copied, now));
            && id in s.threads && id != fork && id in t.threads && t.tasks == s.tasks - {task}
            && t.threads[id] == s.threads[id].(running := false)
            && (fork in t.threads <==> fork in s.threads && (copied || s.threads[fork].running))
            && (fork in t.threads ==>
                  t.threads[fork] == if copied then s.threads[fork].(workspace := "t-" + Digits(fork), updatedAt := now)
                                     else s.threads[fork])
            && (forall g | g != id && g != fork ::
                  (g in t.threads <==> g in s.threads) && (g in s.threads ==> t.threads[g] == s.threads[g]))
  {
    HolderFindsThread(s, limits, task);
    assert TaskHolds(s, task);
    hide Invariant, Digits;
  }

  /** The pair a commit adds fits the limits by itself. */
  predicate CommitFits(s: State, limits: Limits, step: Step)
    requires step.TurnEvent? && step.task in s.tasks && s.tasks[step.task].Turn?
  {
    TurnFits(s.tasks[step.task].question, step.event.answer, step.event.rounds, limits.history)
  }

  /** A committed pair is the end of the stored transcript exactly when it fits; otherwise the transcript is empty. */
  lemma CommitIsStored(s: State, limits: Limits, step: Step, id: nat)
    requires Invariant(s, limits) && Enabled(s, step) && CommitsTo(s, step, id)
    ensures id in Next(s, limits, step).threads
    ensures var after, event := Next(s, limits, step).threads[id].history, step.event;
            && (EndsWithTurn(after, s.tasks[step.task].question, event.answer, event.rounds)
                <==> CommitFits(s, limits, step))
            && (!CommitFits(s, limits, step) ==> after == [])
  {
    HolderFindsThread(s, limits, step.task);
    assert ThreadHolds(s, limits, id);
    hide OwnerInvariant, HasSoundHistory, WithTurn, TurnFits, EndsWithTurn, FitsWire;
    CommittedPairSurvives(s.threads[id], limits, s.tasks[step.task].question, step.event.answer, step.event.workspace,
                          step.event.rounds, step.now);
  }

  /** The limits the program is built with leave room for every pair: no run loses a turn it commits. */
  lemma CommitIsStoredByDefault(steps: seq<Step>, step: Step, id: nat)
    requires CanRun(DEFAULT_LIMITS, steps)
    requires var s := StateAfter(DEFAULT_LIMITS, steps); Enabled(s, step) && CommitsTo(s, step, id)
    ensures var s, event := StateAfter(DEFAULT_LIMITS, steps), step.event;
            && id in Next(s, DEFAULT_LIMITS, step).threads
            && EndsWithTurn(Next(s, DEFAULT_LIMITS, step).threads[id].history, s.tasks[step.task].question,
                            event.answer, event.rounds)
  {
    hide Invariant, Next, CanRun, StateAfter, EndsWithTurn, TurnFits, FitsWire;
    EveryRunKeeps(DEFAULT_LIMITS, steps);
    var s := StateAfter(DEFAULT_LIMITS, steps);
    DefaultLimitsLeaveRoom(s.tasks[step.task].question, step.event.answer, step.event.rounds);
    CommitIsStored(s, DEFAULT_LIMITS, step, id);
  }

  // ----- persistence -----

  /** A written file: every record once, in some order. */
  ghost predicate IsSnapshot(items: seq<Thread>, threads: map<nat, Thread>) {
    && HasDistinctIds(items) && |items| == |threads|
    && (forall k | 0 <= k < |items| :: items[k].id in threads && threads[items[k].id] == items[k])
    && (forall id | id in threads :: exists k :: 0 <= k < |items| && items[k].id == id)
  }

  /** Whatever happened before, a reload gives back every record, idle and otherwise unchanged, exactly when its
      title fits and every stored round names its tool and has a record of arguments. */
  lemma ReachableRecordsReadBack(limits: Limits, steps: seq<Step>, items: seq<Thread>, id: nat)
    requires CanRun(limits, steps) && IsSnapshot(items, StateAfter(limits, steps).threads)
    ensures var threads, loaded := StateAfter(limits, steps).threads, Load(items, limits);
            && (id in loaded <==>
                 && id in threads && |threads[id].title| <= TITLE_MAX && HasReadableRounds(threads[id].history)
                 && limits.history.maxMessages >= 0)
            && (id in loaded ==> loaded[id] == threads[id].(running := false))
  {
    hide CanRun, StateAfter, HasSoundHistory, HasReadableRounds, ReadsBack, IsSuffix, Load, IsLoaded;
    var threads := StateAfter(limits, steps).threads;
    ReloadRestores(items, limits, id);
    LoadedAreItems(items, limits, Room(items, limits));
    if id in threads {
      StoredHistoryIsTheTailOfTheTurns(limits, steps, id);
      SoundHistoryReadsBack(threads[id], limits);
      var k :| 0 <= k < |items| && items[k].id == id;
      AllItemsFit(items, limits, k);
      assert forall j | 0 <= j < |items| && items[j].id == id :: j == k;
      assert LoadsAs(items, limits, Room(items, limits), k, id) <==> ReadsBack(items[k], limits);
      if ReadsBack(items[k], limits) { assert LoadsLastAs(items, limits, Room(items, limits), k, id); }
    }
  }

  lemma AllItemsFit(items: seq<Thread>, limits: Limits, k: nat)
    requires k < |items| <= limits.maxThreads
    ensures IsLoaded(items, limits, Room(items, limits), k) <==> ReadsBack(items[k], limits)
  {
    hide ReadsBack;
    assert |Readable(items[..k], limits)| <= k;
  }

  /** No stored round keeps its thread from being read. */
  predicate AllRoundsReadable(s: State) {
    forall id | id in s.threads :: HasReadableRounds(s.threads[id].history)
  }

  /** What can be checked before a commit: its rounds are readable, or its pair is trimmed away at once. */
  predicate IsReadableCommit(s: State, limits: Limits, step: Step)
    requires Enabled(s, step)
  {
    step.TurnEvent? && Commits(s.tasks[step.task], step.event) ==>
      AreReadableRounds(step.event.rounds) || !CommitFits(s, limits, step)
  }

  lemma RecordReadable(s: State, t: State, id: nat, record: Thread)
    requires AllRoundsReadable(s) && t.threads == s.threads[id := record]
    ensures AllRoundsReadable(t) <==> HasReadableRounds(record.history)
  {
    hide HasReadableRounds;
    assert t.threads[id] == record;
  }

  lemma CommitReadsBackExactly(s: State, limits: Limits, step: Step)
    requires Invariant(s, limits) && Enabled(s, step) && AllRoundsReadable(s)
    requires step.TurnEvent? && Commits(s.tasks[step.task], step.event)
    ensures AllRoundsReadable(Next(s, limits, step))
       <==> AreReadableRounds(step.event.rounds) || !CommitFits(s, limits, step)
  {
    var id, question, event := s.tasks[step.task].thread, s.tasks[step.task].question, step.event;
    HolderFindsThread(s, limits, step.task);
    assert ThreadHolds(s, limits, id);
    hide OwnerInvariant, ThreadHolds, HasSoundHistory, HasReadableRounds, AreReadableRounds, WithTurn,
         TurnFits, FitsWire;
    TurnReadsBackExactly(s.threads[id], limits, question, event.answer, event.workspace, event.rounds, step.now);
    RecordReadable(s, Next(s, limits, step), id,
                   WithTurn(s.threads[id], limits, question, event.answer, event.workspace, event.rounds, step.now));
  }

  lemma OtherStepsKeepRounds(s: State, limits: Limits, step: Step)
    requires Invariant(s, limits) && Enabled(s, step) && AllRoundsReadable(s)
    requires !(step.TurnEvent? && Commits(s.tasks[step.task], step.event))
    ensures AllRoundsReadable(Next(s, limits, step))
  {
    NoRounds();
    hide HasReadableRounds, Next, Invariant;
    var t := Next(s, limits, step);
    forall id | id in t.threads ensures HasReadableRounds(t.threads[id].history) {
      if id in s.threads {
        OnlyCommitsChangeHistory(s, limits, step, id);
      } else {
        NewHistoryIsCopied(s, limits, step, id);
      }
    }
  }

  lemma NoRounds()
    ensures HasReadableRounds([])
  {}

  lemma NewThreadIsEmpty(id: nat, title: string, stamp: string, config: string, now: int)
    ensures NewThread(id, title, stamp, config, now).history == []
  {
    hide Trim;
  }

  lemma ForkCopiesHistory(s: State, limits: Limits, step: Step, id: nat)
    requires Enabled(s, step) && step.StartFork? && id !in s.threads && id in Next(s, limits, step).threads
    ensures step.id in s.threads && Next(s, limits, step).threads[id].history == s.threads[step.id].history
  {
    hide Trim;
  }

  lemma CreatedIsEmpty(s: State, limits: Limits, step: Step, id: nat)
    requires Enabled(s, step) && step.Create? && id !in s.threads && id in Next(s, limits, step).threads
    ensures Next(s, limits, step).threads[id].history == []
  {
    hide NewThread;
    NewThreadIsEmpty(s.nextId, step.title, step.stamp, step.config, step.now);
  }

  lemma NoOtherRecordJoins(s: State, limits: Limits, step: Step, id: nat)
    requires Enabled(s, step) && !step.Create? && !step.StartFork? && id in Next(s, limits, step).threads
    ensures id in s.threads
  {
    hide CloneName, WithTurn, NewThread, ForkedThread, FitsWire, Commits, TurnPair, AfterStartFork, AfterCreate;
  }

  /** A record that joins starts empty or with the history of its parent. */
  lemma NewHistoryIsCopied(s: State, limits: Limits, step: Step, id: nat)
    requires Enabled(s, step) && id !in s.threads && id in Next(s, limits, step).threads
    ensures var history := Next(s, limits, step).threads[id].history;
            history == [] || (step.StartFork? && step.id in s.threads && history == s.threads[step.id].history)
  {
    hide Next, FitsWire;
    if step.StartFork? {
      ForkCopiesHistory(s, limits, step, id);
    } else if step.Create? {
      CreatedIsEmpty(s, limits, step, id);
    } else {
      NoOtherRecordJoins(s, limits, step, id);
    }
  }

  /** One step keeps all stored rounds readable exactly when what it commits, if it does, is. */
  lemma StepReadsBackExactly(s: State, limits: Limits, step: Step)
    requires Invariant(s, limits) && Enabled(s, step) && AllRoundsReadable(s)
    ensures AllRoundsReadable(Next(s, limits, step)) <==> IsReadableCommit(s, limits, step)
  {
    hide Invariant, Next, AllRoundsReadable, AreReadableRounds, CommitFits;
    if step.TurnEvent? && Commits(s.tasks[step.task], step.event) {
      CommitReadsBackExactly(s, limits, step);
    } else {
      OtherStepsKeepRounds(s, limits, step);
    }
  }

  predicate CommitsReadably(limits: Limits, steps: seq<Step>)
    requires CanRun(limits, steps)
    decreases |steps|
  {
    steps == [] ||
    (CommitsReadably(limits, steps[..|steps|-1])
     && IsReadableCommit(StateAfter(limits, steps[..|steps|-1]), limits, steps[|steps|-1]))
  }

  /** At every moment of the run a reload would lose no thread to its rounds. */
  predicate AlwaysReadable(limits: Limits, steps: seq<Step>)
    requires CanRun(limits, steps)
    decreases |steps|
  {
    AllRoundsReadable(StateAfter(limits, steps)) && (steps == [] || AlwaysReadable(limits, steps[..|steps|-1]))
  }

  /** That is so exactly when every commit of the run met the check. */
  lemma {:induction false} AlwaysReadableExactly(limits: Limits, steps: seq<Step>)
    requires CanRun(limits, steps)
    ensures AlwaysReadable(limits, steps) <==> CommitsReadably(limits, steps)
    decreases |steps|
  {
    if steps != [] {
      hide Invariant, Next, AllRoundsReadable, IsReadableCommit;
      var before := steps[..|steps|-1];
      AlwaysReadableExactly(limits, before);
      EveryRunKeeps(limits, before);
      if AlwaysReadable(limits, before) { StepReadsBackExactly(StateAfter(limits, before), limits, steps[|steps|-1]); }
    }
  }

  // ----- failed copies -----

  /** A failed copy leaves no record behind, exactly unless the fork is itself busy by then. */
  lemma FailedCopyLeavesNoRecord(s: State, limits: Limits, task: nat, now: int)
    requires Invariant(s, limits) && Enabled(s, EndFork(task, false, now))
    ensures s.tasks[task].fork !in Next(s, limits, EndFork(task, false, now)).threads
        <==> !IsBusy(s, s.tasks[task].fork)
  {
    assert TaskHolds(s, task);
    hide OwnerInvariant, ThreadHolds;
  }

  /** Such a fork is busy as soon as somebody runs it while its copy is under way: the half-created record stays. */
  lemma TurnOnHalfForkKeepsIt(s: State, limits: Limits, task: nat, other: nat, question: string, now: int)
    requires Invariant(s, limits) && Enabled(s, EndFork(task, false, now))
        && Enabled(s, StartTurn(other, s.tasks[task].fork, question))
    requires !IsRefused(s, s.tasks[task].fork)
    ensures var mid := Next(s, limits, StartTurn(other, s.tasks[task].fork, question));
            && Enabled(mid, EndFork(task, false, now))
            && s.tasks[task].fork in Next(mid, limits, EndFork(task, false, now)).threads
  {
    hide OwnerInvariant, ThreadHolds;
    var mid := Next(s, limits, StartTurn(other, s.tasks[task].fork, question));
    StepKeeps(s, limits, StartTurn(other, s.tasks[task].fork, question));
    FailedCopyLeavesNoRecord(mid, limits, task, now);
  }

  lemma RunMore(limits: Limits, steps: seq<Step>, step: Step)
    requires CanRun(limits, steps) && Enabled(StateAfter(limits, steps), step)
    ensures CanRun(limits, steps + [step])
    ensures StateAfter(limits, steps + [step]) == Next(StateAfter(limits, steps), limits, step)
  {
    hide Enabled, Next;
    assert (steps + [step])[..|steps|] == steps;
  }

  lemma RunsFromEmpty(limits: Limits)
    ensures CanRun(limits, []) && StateAfter(limits, []) == EMPTY
  {}

  /** The record of thread 0 alone, before and during its first turn. */
  predicate HoldsOneThread(s: State, running: bool, workspace: string) {
    && s.threads.Keys == {0} && s.nextId == 1
    && s.threads[0].running == running && s.threads[0].workspace == workspace && s.threads[0].id == 0
    && |s.threads[0].title| <= TITLE_MAX
  }

  lemma OneThreadCreated() returns (steps: seq<Step>)
    ensures CanRun(DEFAULT_LIMITS, steps)
    ensures var s := StateAfter(DEFAULT_LIMITS, steps); HoldsOneThread(s, false, "") && s.tasks == map[]
  {
    RunsFromEmpty(DEFAULT_LIMITS);
    var from := TrimIsPiece("");
    hide CanRun, StateAfter, Trim;
    RunMore(DEFAULT_LIMITS, [], Create("", "", "", 0));
    steps := [] + [Create("", "", "", 0)];
  }

  lemma OneThreadRuns() returns (steps: seq<Step>)
    ensures CanRun(DEFAULT_LIMITS, steps)
    ensures var s := StateAfter(DEFAULT_LIMITS, steps);
            HoldsOneThread(s, true, "") && s.tasks == map[0 := Turn(0, "q")]
  {
    hide CanRun, StateAfter;
    steps := OneThreadCreated();
    RunMore(DEFAULT_LIMITS, steps, StartTurn(0, 0, "q"));
    steps := steps + [StartTurn(0, 0, "q")];
  }

  lemma TurnSetsWorkspace(t: Thread, limits: Limits, question: string, event: RunEvent, now: int)
    requires event.workspace != ""
    ensures var after := WithTurn(t, limits, question, event.answer, event.workspace, event.rounds, now);
            && after.workspace == event.workspace && after.running == t.running && after.id == t.id
            && after.title == t.title
  {
    hide Trimmed, TurnPair;
  }

  lemma OneThreadCommits() returns (steps: seq<Step>)
    ensures CanRun(DEFAULT_LIMITS, steps)
    ensures var s := StateAfter(DEFAULT_LIMITS, steps);
            HoldsOneThread(s, true, "w") && s.tasks == map[0 := Turn(0, "q")]
  {
    hide CanRun, StateAfter, WithTurn, TurnPair;
    steps := OneThreadRuns();
    var s, event := StateAfter(DEFAULT_LIMITS, steps), RunEvent(true, Some(0), true, "w", "a", []);
    TurnSetsWorkspace(s.threads[0], DEFAULT_LIMITS, "q", event, 0);
    RunMore(DEFAULT_LIMITS, steps, TurnEvent(0, event, 0));
    steps := steps + [TurnEvent(0, event, 0)];
  }

  lemma OneThreadInItsWorkspace() returns (steps: seq<Step>)
    ensures CanRun(DEFAULT_LIMITS, steps)
    ensures var s := StateAfter(DEFAULT_LIMITS, steps); HoldsOneThread(s, false, "w") && s.tasks == map[]
  {
    hide CanRun, StateAfter;
    steps := OneThreadCommits();
    RunMore(DEFAULT_LIMITS, steps, EndTurn(0));
    steps := steps + [EndTurn(0)];
  }

  /** A run from the empty registry in which a failed copy leaves its fork behind: a turn gives thread 0 a
      workspace, thread 0 is forked, somebody runs the fork, the copy fails. */
  lemma FailedCopyCanLeaveItsRecord() returns (steps: seq<Step>)
    ensures CanRun(DEFAULT_LIMITS, steps) && steps != [] && steps[|steps|-1] == EndFork(1, false, 0)
    ensures var s := StateAfter(DEFAULT_LIMITS, steps);
            && 1 in s.threads && s.threads[1].forkOf == Some(0) && s.threads[1].workspace == ""
            && 1 !in s.tasks && !IsBusy(s, 0)
  {
    hide CanRun, StateAfter, CloneName, Trim;
    steps := OneThreadInItsWorkspace();
    assert |StateAfter(DEFAULT_LIMITS, steps).threads.Keys| == 1;
    RunMore(DEFAULT_LIMITS, steps, StartFork(1, 0, "", false, 0));
    steps := steps + [StartFork(1, 0, "", false, 0)];
    RunMore(DEFAULT_LIMITS, steps, StartTurn(2, 1, "q"));
    steps := steps + [StartTurn(2, 1, "q")];
    RunMore(DEFAULT_LIMITS, steps, EndFork(1, false, 0));
    steps := steps + [EndFork(1, false, 0)];
  }

  const UNNAMED := ToolRound("", Record("{}"), "r")

  lemma UnnamedFits()
    ensures FitsWire([UNNAMED]) && !AreReadableRounds([UNNAMED])
  {
    assert !IsReadableRound([UNNAMED][0]);
    assert [UNNAMED][1..] == [];
    assert RoundsChars([UNNAMED]) == RoundChars(UNNAMED);
  }

  /** A run from the empty registry, under the built-in limits, that stores a round without a tool name: whatever
      order the records are written in, a reload loses the thread although its title fits. */
  lemma UnnamedToolDropsItsThread(items: seq<Thread>) returns (steps: seq<Step>)
    ensures CanRun(DEFAULT_LIMITS, steps)
    ensures var threads := StateAfter(DEFAULT_LIMITS, steps).threads;
            && 0 in threads && |threads[0].title| <= TITLE_MAX
            && EndsWithTurn(threads[0].history, "q", "a", [UNNAMED])
            && (IsSnapshot(items, threads) ==> 0 !in Load(items, DEFAULT_LIMITS))
  {
    hide CanRun, StateAfter, WithTurn, TurnPair, FitsWire, EndsWithTurn, AreReadableRounds, Invariant, IsSnapshot, Load;
    var before := OneThreadRuns();
    var s, event := StateAfter(DEFAULT_LIMITS, before), RunEvent(true, Some(0), true, "w", "a", [UNNAMED]);
    UnnamedFits();
    TurnSetsWorkspace(s.threads[0], DEFAULT_LIMITS, "q", event, 0);
    CommitIsStoredByDefault(before, TurnEvent(0, event, 0), 0);
    RunMore(DEFAULT_LIMITS, before, TurnEvent(0, event, 0));
    steps := before + [TurnEvent(0, event, 0)];
    var threads := StateAfter(DEFAULT_LIMITS, steps).threads;
    LastRoundsDecide(threads[0].history, "q", "a", [UNNAMED]);
    if IsSnapshot(items, threads) { ReachableRecordsReadBack(DEFAULT_LIMITS, steps, items, 0); }
  }

  lemma LastRoundsDecide(history: seq<Message>, question: string, answer: string, rounds: seq<ToolRound>)
    requires EndsWithTurn(history, question, answer, rounds) && !AreReadableRounds(rounds)
    ensures !HasReadableRounds(history)
  {
    hide AreReadableRounds, SanitizedTurnContent;
    var last := history[|history|-2..][1];
    assert last == history[|history|-1] && last.rounds == rounds;
  }
}
