/** A whole run: every worker pushes what its column does, and the merge channel carries it to the consumer. */
module ArenaRun {
  import opened EventChannel
  import opened JsText
  import opened RunProtocol
  import A = AgentExecution

  /** What a worker pushes during the steps, its sentinel aside. */
  function Emitted<E>(steps: seq<Step<E>>, w: nat): seq<E> {
    if steps == [] then []
    else
      var before, last := Emitted(Front(steps), w), Last(steps);
      if last.Emit? && last.worker == w then before + [last.event] else before
  }

  /** The events of one worker among channel entries. */
  function Payload<E>(entries: seq<Entry<E>>, w: nat): seq<E> {
    if entries == [] then []
    else
      var before, last := Payload(Front(entries), w), Last(entries);
      if last.Event? && last.owner == w then before + [last.event] else before
  }

  lemma PayloadSnoc<E>(entries: seq<Entry<E>>, last: Entry<E>, w: nat)
    ensures Payload(entries + [last], w)
         == Payload(entries, w) + if last.Event? && last.owner == w then [last.event] else []
  {
    assert Front(entries + [last]) == entries;
  }

  lemma {:induction false} PayloadOfEvents<E>(entries: seq<Entry<E>>, w: nat)
    ensures Payload(EventsOf(entries), w) == Payload(entries, w)
  {
    if entries != [] {
      PayloadOfEvents(Front(entries), w);
      EntriesSnoc(Front(entries), Last(entries));
      PayloadSnoc(EventsOf(Front(entries)), Last(entries), w);
      assert entries == Front(entries) + [Last(entries)];
    }
  }

  lemma PushAdds<E(!new)>(s: State<E>, entry: Entry<E>, w: nat)
    requires ChannelInvariant(s)
    ensures Payload(AfterPush(s, entry).accepted, w)
         == Payload(s.accepted, w) + if entry.Event? && entry.owner == w then [entry.event] else []
  {
    hide ChannelInvariant, Payload;
    PushKeepsChannel(s, entry);
    PayloadSnoc(s.accepted, entry, w);
  }

  lemma StepEmits<E(!new)>(s: State<E>, step: Step<E>, w: nat)
    requires ChannelInvariant(s) && Enabled(s, step)
    ensures Payload(Next(s, step).accepted, w)
         == Payload(s.accepted, w) + if step.Emit? && step.worker == w then [step.event] else []
  {
    hide Payload, AfterPush;
    match step {
      case Emit(v, e) => PushAdds(s, Event(v, e), w);
      case Finish(v) => PushAdds(s.(phases := s.phases[v := Done]), Sentinel(v), w);
      case CancelledWhileQueued(v) => PushAdds(s.(phases := s.phases[v := Done]), Sentinel(v), w);
      case _ =>
    }
  }

  lemma {:induction false} RunEmits<E(!new)>(workers: nat, capacity: nat, steps: seq<Step<E>>, w: nat)
    requires capacity >= 1 && CanRun(workers, capacity, steps)
    ensures Payload(StateAfter(workers, capacity, steps).accepted, w) == Emitted(steps, w)
    decreases |steps|
  {
    if steps != [] {
      hide Invariant, Next, Enabled, Payload;
      EveryRunKeeps(workers, capacity, Front(steps));
      SoundChannel(workers, capacity, Front(steps));
      RunEmits(workers, capacity, Front(steps), w);
      StepEmits(StateAfter(workers, capacity, Front(steps)), Last(steps), w);
      assert Emitted(Front(steps), w) + [] == Emitted(Front(steps), w);
    }
  }

  lemma SoundChannel<E(!new)>(workers: nat, capacity: nat, steps: seq<Step<E>>)
    requires capacity >= 1 && CanRun(workers, capacity, steps)
    ensures ChannelInvariant(StateAfter(workers, capacity, steps))
  {
    EveryRunKeeps(workers, capacity, steps);
  }

  predicate EndsWorker<E>(step: Step<E>) {
    step.Finish? || step.CancelledWhileQueued?
  }

  /** Every worker that ends has pushed its whole column by then. */
  predicate RunsColumns<E(==)>(steps: seq<Step<E>>, columns: seq<seq<E>>) {
    forall k | 0 <= k < |steps| && EndsWorker(steps[k]) && steps[k].worker < |columns| ::
      Emitted(steps[..k], steps[k].worker) == columns[steps[k].worker]
  }

  lemma WorkerPhase<E>(s: State<E>, step: Step<E>, w: nat)
    requires Enabled(s, step) && w < |s.phases|
    ensures var t := Next(s, step);
            && |t.phases| == |s.phases|
            && t.phases[w] == (if step.Start? && step.worker == w then Running
                               else if EndsWorker(step) && step.worker == w then Done else s.phases[w])
    ensures step.Emit? && step.worker == w ==> s.phases[w].Running?
  {
    hide Push, PushFates, IsHandedOver, Accept;
  }

  lemma {:induction false} DoneHasEmitted<E(!new)>(workers: nat, capacity: nat, steps: seq<Step<E>>,
        columns: seq<seq<E>>, w: nat)
    requires capacity >= 1 && CanRun(workers, capacity, steps) && w < workers == |columns|
    requires RunsColumns(steps, columns)
    ensures |StateAfter(workers, capacity, steps).phases| == workers
    ensures StateAfter(workers, capacity, steps).phases[w].Done? ==> Emitted(steps, w) == columns[w]
    decreases |steps|
  {
    if steps != [] {
      var before, last := Front(steps), Last(steps);
      RunsColumnsBefore(steps, columns);
      DoneHasEmitted(workers, capacity, before, columns, w);
      WorkerPhase(StateAfter(workers, capacity, before), last, w);
      hide Next, Enabled;
    }
  }

  lemma RunsColumnsBefore<E>(steps: seq<Step<E>>, columns: seq<seq<E>>)
    requires steps != [] && RunsColumns(steps, columns)
    ensures RunsColumns(Front(steps), columns)
    ensures var last := Last(steps);
            EndsWorker(last) && last.worker < |columns| ==> Emitted(Front(steps), last.worker) == columns[last.worker]
  {
    hide Emitted;
    var before := Front(steps);
    assert forall k | 0 <= k < |before| :: before[k] == steps[k] && before[..k] == steps[..k];
  }

  /** Without a drop the consumer of a finished run got each column exactly as its worker pushed it. */
  lemma ColumnsArrive<E(!new)>(workers: nat, capacity: nat, steps: seq<Step<E>>, columns: seq<seq<E>>, w: nat)
    requires capacity >= 1 && CanRun(workers, capacity, steps) && w < workers == |columns|
    requires RunsColumns(steps, columns)
    requires StateAfter(workers, capacity, steps).drain.Ended?
        && StateAfter(workers, capacity, steps).queue.dropped == 0
    ensures Payload(StateAfter(workers, capacity, steps).yielded, w) == columns[w]
  {
    hide StateAfter, CanRun, Payload, Emitted, RunsColumns, EventsOf;
    NothingIsLeftBehind(workers, capacity, steps);
    EverythingIsYielded(workers, capacity, steps);
    PayloadOfEvents(StateAfter(workers, capacity, steps).accepted, w);
    RunEmits(workers, capacity, steps, w);
    DoneHasEmitted(workers, capacity, steps, columns, w);
  }

  // ----- columns of agents -----

  datatype Launch = Launch(admission: A.Admission, surroundings: A.Surroundings)

  function Columns(launches: seq<Launch>): (r: seq<seq<A.Event>>)
    ensures |r| == |launches|
  {
    seq(|launches|, w requires 0 <= w < |launches| => A.Column(launches[w].admission, launches[w].surroundings))
  }

  /** Whatever the interleaving: of each column that started the consumer sees exactly one complete, and sees it
      last. */
  lemma EveryColumnCompletes(capacity: nat, steps: seq<Step<A.Event>>, launches: seq<Launch>, w: nat)
    requires capacity >= 1 && CanRun(|launches|, capacity, steps) && w < |launches|
    requires RunsColumns(steps, Columns(launches))
    requires var s := StateAfter(|launches|, capacity, steps); s.drain.Ended? && s.queue.dropped == 0
    requires !launches[w].surroundings.settlementThrows && !launches[w].surroundings.cleanupThrows
    ensures var seen := Payload(StateAfter(|launches|, capacity, steps).yielded, w);
            if launches[w].admission == A.CancelledWhileQueued then seen == []
            else A.Count(seen, A.Complete) == 1 && seen != [] && Last(seen).kind == A.Complete
  {
    hide StateAfter, CanRun, Payload, RunsColumns;
    ColumnsArrive(|launches|, capacity, steps, Columns(launches), w);
    A.OneCompleteUnlessCleanupThrows(launches[w].admission, launches[w].surroundings);
  }
}
