/** The thread use cases over the store, cut at their awaits: every method runs without interruption and does
    what one step of the protocol does. */
module ThreadService {
  import opened HistoryCaps
  import opened JsText
  import opened ThreadProtocol
  import opened ThreadStore

  class Service {
    const store: FileThreadStore
    /** The calls suspended at an await. */
    var tasks: map<nat, Task>
    ghost var transcript: map<nat, seq<Message>>

    ghost function View(): State
      reads this, store
    {
      State(store.threads, store.nextId, tasks, transcript)
    }

    ghost predicate Valid()
      reads this, store
    {
      Invariant(View(), store.limits)
    }

    constructor (store: FileThreadStore)
      requires store.threads == map[] && store.nextId == 0
      ensures this.store == store && View() == EMPTY && Valid()
    {
      this.store, tasks, transcript := store, map[], map[];
    }

    method Create(title: string, stamp: string, config: string, now: int) returns (r: Outcome<Thread>)
      requires Valid()
      modifies this, store
      ensures Valid() && View() == AfterCreate(old(View()), store.limits, title, stamp, config, now)
      ensures r.Ok? <==> View() != old(View())
    {
      hide Invariant, NewThread;
      CreateKeeps(View(), store.limits, title, stamp, config, now);
      FreshIdIsUnused(View(), store.limits);
      NewThreadId(store.nextId, title, stamp, config, now);
      r := store.Create(title, stamp, config, now);
      if r.Ok? { transcript := transcript[old(store.nextId) := []]; }
    }

    method DeleteThread(id: nat) returns (r: Outcome<Thread>)
      requires Valid()
      modifies this, store
      ensures Valid() && View() == AfterDelete(old(View()), id)
      ensures r.Ok? <==> !IsRefused(old(View()), id)
    {
      hide Invariant;
      DeleteKeeps(View(), store.limits, id);
      r := store.Delete(id);
    }

    /** `run` up to its first await. */
    method BeginTurn(task: nat, id: nat, question: string) returns (r: Outcome<()>)
      requires Valid() && task !in tasks
      modifies this, store
      ensures Valid() && View() == AfterStartTurn(old(View()), task, id, question)
      ensures r.Ok? <==> !IsRefused(old(View()), id)
    {
      hide Invariant;
      StartTurnKeeps(View(), store.limits, task, id, question);
      var thread := store.Get(id);
      if thread.Failed? { return Failed(NotFound); }
      if thread.value.running { return Failed(Busy); }
      r := store.MarkRunning(id, true);
      tasks := tasks[task := Turn(id, question)];
    }

    /** One event of the arena stream; only a successful completion of the turn's own column commits. */
    method OnEvent(task: nat, event: RunEvent, now: int) returns (r: Outcome<()>)
      requires Valid() && Enabled(View(), TurnEvent(task, event, now))
      modifies this, store
      ensures Valid() && View() == AfterTurnEvent(old(View()), store.limits, task, event, now)
      ensures var id, before := old(tasks)[task].thread, old(store.threads);
              if event.isComplete && event.column == Some(id) && event.success then
                && id in before && id in store.threads && store.threads == before[id := store.threads[id]]
                && IsCommitted(before[id], store.threads[id], store.limits, old(tasks)[task].question, event, now)
              else store.threads == before
      ensures tasks == old(tasks) && r.Ok?
    {
      hide Invariant, WithTurn, TurnPair, IsCommitted, AfterTurnEvent, Commits;
      var id, question := tasks[task].thread, tasks[task].question;
      EventLeaves(View(), store.limits, task, event, now);
      r := Ok(());
      if event.isComplete && event.column == Some(id) && event.success {
        transcript := transcript[id := transcript[id] + TurnPair(question, event.answer, event.rounds)];
        r := store.AppendTurn(id, question, event.answer, event.workspace, event.rounds, now);
      }
    }

    /** However the turn's stream ends, its thread is found and freed. */
    method EndTurn(task: nat) returns (r: Outcome<()>)
      requires Valid() && Enabled(View(), ThreadProtocol.Step.EndTurn(task))
      modifies this, store
      ensures Valid() && View() == AfterEndTurn(old(View()), task)
      ensures r.Ok?
    {
      hide Invariant;
      EndTurnKeeps(View(), store.limits, task);
      HolderFindsThread(View(), store.limits, task);
      r := store.MarkRunning(tasks[task].thread, false);
      tasks := tasks - {task};
    }

    /** `fork` up to the workspace copy, or to its end when there is nothing to copy. */
    method BeginFork(task: nat, id: nat, title: string, isProtected: bool, now: int) returns (r: Outcome<nat>)
      requires Valid() && task !in tasks
      modifies this, store
      ensures Valid() && View() == AfterStartFork(old(View()), store.limits, task, id, title, isProtected, now)
      ensures r.Ok? ==> r.value == old(store.nextId) && r.value in store.threads
      ensures r.Failed? ==> View() == old(View())
    {
      hide Invariant, ForkedThread;
      StartForkKeeps(View(), store.limits, task, id, title, isProtected, now);
      FreshIdIsUnused(View(), store.limits);
      var parent := store.Get(id);
      if parent.Failed? { return Failed(NotFound); }
      if parent.value.running { return Failed(Busy); }
      if parent.value.workspace != "" && isProtected { return Failed(Busy); }
      ForkedThreadId(store.nextId, parent.value.(running := true), title, now);
      var marked := store.MarkRunning(id, true);
      var fork := store.Fork(id, title, now);
      if fork.Failed? {
        marked := store.MarkRunning(id, false);
        assert store.threads == old(store.threads);
        return Failed(fork.failure);
      }
      transcript := transcript[old(store.nextId) := if id in transcript then transcript[id] else []];
      r := Ok(fork.value.id);
      if parent.value.workspace != "" {
        tasks := tasks[task := Branch(id, fork.value.id)];
      } else {
        marked := store.MarkRunning(id, false);
      }
    }

    /** The rest of `fork`; the parent is found and freed on every path. */
    method EndFork(task: nat, copied: bool, now: int) returns (r: Outcome<()>, released: Outcome<()>)
      requires Valid() && Enabled(View(), ThreadProtocol.Step.EndFork(task, copied, now))
      modifies this, store
      ensures Valid() && View() == AfterEndFork(old(View()), task, copied, now)
      ensures released.Ok?
      ensures r.Ok? <==> copied && old(tasks)[task].fork in old(store.threads)
    {
      hide Invariant, CloneName;
      EndForkKeeps(View(), store.limits, task, copied, now);
      HolderFindsThread(View(), store.limits, task);
      ForkIsNotItsParent(View(), store.limits, task);
      var id, fork := tasks[task].thread, tasks[task].fork;
      if copied {
        r := store.SetWorkspace(fork, CloneName(fork), now);
      } else {
        var deleted := store.Delete(fork);
        r := Failed(if deleted.Failed? then deleted.failure else CopyFailed);
      }
      released := store.MarkRunning(id, false);
      tasks := tasks - {task};
    }
  }

  /** What the service may rely on when an event arrives. */
  lemma EventLeaves(s: State, limits: Limits, task: nat, event: RunEvent, now: int)
    requires Invariant(s, limits) && Enabled(s, TurnEvent(task, event, now))
    ensures Invariant(AfterTurnEvent(s, limits, task, event, now), limits)
    ensures var id, question := s.tasks[task].thread, s.tasks[task].question;
            var t := AfterTurnEvent(s, limits, task, event, now);
            && id in s.threads && id in s.transcript
            && (if event.isComplete && event.column == Some(id) && event.success then
                  var after := WithTurn(s.threads[id], limits, question, event.answer, event.workspace, event.rounds,
                                        now);
                  && IsCommitted(s.threads[id], after, limits, question, event, now)
                  && t == s.(threads := s.threads[id := after],
                             transcript := s.transcript[id := s.transcript[id]
                                                              + TurnPair(question, event.answer, event.rounds)])
                else t == s)
  {
    HolderFindsThread(s, limits, task);
    TurnEventKeeps(s, limits, task, event, now);
    EventCommitsExactly(s, limits, task, event, now);
    hide Invariant, WithTurn, TurnPair, IsCommitted;
  }

  lemma NewThreadId(id: nat, title: string, stamp: string, config: string, now: int)
    ensures NewThread(id, title, stamp, config, now).id == id
  {
    hide Trim;
  }

  lemma ForkedThreadId(id: nat, parent: Thread, title: string, now: int)
    ensures ForkedThread(id, parent, title, now).id == id
  {
    hide Trim;
  }

  lemma ForkIsNotItsParent(s: State, limits: Limits, task: nat)
    requires Invariant(s, limits) && task in s.tasks && s.tasks[task].Branch?
    ensures s.tasks[task].fork != s.tasks[task].thread
  {
    assert TaskHolds(s, task);
  }
}
