/** One run as an interleaving of steps: column workers push onto a bounded channel, one drain loop takes
    from it.  Each worker closes with a sentinel (a null in the program; its owner is named here only so
    that it can be talked about). */
module RunProtocol {
  import opened EventChannel
  import opened JsText

  datatype Entry<E> = Event(owner: nat, event: E) | Sentinel(owner: nat)

  datatype Phase = Queued | Running | Done

  /** Where the drain loop is: at its head, inside `receive`, with a received entry in hand, past the loop,
      or abandoned by its consumer at a yield. */
  datatype Drain<E> = AtHead | Waiting | Holding(entry: Entry<E>) | Ended | Cancelled

  datatype State<E> = State(
    phases: seq<Phase>, queue: Queue<Entry<E>>, drain: Drain<E>, finished: nat, yielded: seq<Entry<E>>,
    accepted: seq<Entry<E>>, fates: seq<Fate<Entry<E>>>)

  datatype Step<E> =
    | CancelledWhileQueued(worker: nat)
    | Start(worker: nat)
    | Emit(worker: nat, event: E)
    | Finish(worker: nat)
    | Receive
    | Process
    | TimeoutExpires
    | LeaveLoop
    | ConsumerReturns

  /** The drain loop is the channel's only receiver. */
  const DRAIN: nat := 0

  function Init<E>(workers: nat, capacity: nat): State<E>
    requires capacity >= 1
  {
    State(seq(workers, i => Queued), Queue([], [], false, 0, Some(capacity)), AtHead, 0, [], [], [])
  }

  predicate AllDone(phases: seq<Phase>) {
    forall w | 0 <= w < |phases| :: phases[w].Done?
  }

  predicate Enabled<E>(s: State<E>, step: Step<E>) {
    match step
    case CancelledWhileQueued(w) => w < |s.phases| && s.phases[w].Queued?
    case Start(w) => w < |s.phases| && s.phases[w].Queued?
    case Emit(w, _) => w < |s.phases| && s.phases[w].Running?
    case Finish(w) => w < |s.phases| && s.phases[w].Running?
    case Receive => s.drain.AtHead? && s.finished < |s.phases|
    case Process => s.drain.Holding?
    case TimeoutExpires => s.drain.Waiting?
    case LeaveLoop => s.drain.AtHead? && s.finished >= |s.phases|
    case ConsumerReturns => s.drain.Holding? && s.drain.entry.Event?
  }

  function AfterPush<E>(s: State<E>, entry: Entry<E>): State<E> {
    s.(queue := Push(s.queue, entry),
       drain := if IsHandedOver(s.queue) then Holding(entry) else s.drain,
       accepted := Accept(s.queue, s.accepted, entry),
       fates := s.fates + PushFates(s.queue, entry))
  }

  /** Marking a worker done and pushing its sentinel happen with nothing in between. */
  function AfterDone<E>(s: State<E>, w: nat): State<E>
    requires w < |s.phases|
  {
    AfterPush(s.(phases := s.phases[w := Done]), Sentinel(w))
  }

  function AfterReceive<E>(s: State<E>): State<E> {
    if s.queue.buffer != [] then
      var first := s.queue.buffer[0];
      s.(queue := s.queue.(buffer := s.queue.buffer[1..]), drain := Holding(first),
         fates := s.fates + [Delivered(first)])
    else
      s.(queue := s.queue.(waiters := s.queue.waiters + [DRAIN]), drain := Waiting)
  }

  function AfterProcess<E>(s: State<E>): State<E>
    requires s.drain.Holding?
  {
    if s.drain.entry.Sentinel? then s.(drain := AtHead, finished := s.finished + 1)
    else s.(drain := AtHead, yielded := s.yielded + [s.drain.entry])
  }

  /** The expired call gives up its place among the waiters; the loop goes on unless every worker is done. */
  function AfterTimeout<E>(s: State<E>): State<E> {
    s.(queue := Expire(s.queue, DRAIN), drain := if AllDone(s.phases) then Ended else AtHead)
  }

  function Next<E>(s: State<E>, step: Step<E>): State<E>
    requires Enabled(s, step)
  {
    match step
    case CancelledWhileQueued(w) => AfterDone(s, w)
    case Start(w) => s.(phases := s.phases[w := Running])
    case Emit(w, e) => AfterPush(s, Event(w, e))
    case Finish(w) => AfterDone(s, w)
    case Receive => AfterReceive(s)
    case Process => AfterProcess(s)
    case TimeoutExpires => AfterTimeout(s)
    case LeaveLoop => s.(drain := Ended)
    case ConsumerReturns => AfterProcess(s).(drain := Cancelled)
  }

  // ----- what every reachable state keeps -----

  function EventsOf<E>(entries: seq<Entry<E>>): seq<Entry<E>> {
    if entries == [] then []
    else
      var before, last := EventsOf(entries[..|entries|-1]), entries[|entries|-1];
      if last.Event? then before + [last] else before
  }

  function Sentinels<E>(entries: seq<Entry<E>>): nat {
    if entries == [] then 0
    else Sentinels(entries[..|entries|-1]) + if entries[|entries|-1].Sentinel? then 1 else 0
  }

  lemma EntriesSnoc<E>(entries: seq<Entry<E>>, entry: Entry<E>)
    ensures EventsOf(entries + [entry]) == EventsOf(entries) + (if entry.Event? then [entry] else [])
    ensures Sentinels(entries + [entry]) == Sentinels(entries) + if entry.Sentinel? then 1 else 0
  {
    assert (entries + [entry])[..|entries|] == entries;
  }

  /** The channel is open and its only possible waiter is the drain loop. */
  ghost predicate ChannelInvariant<E(!new)>(s: State<E>) {
    && IsSound(s.queue) && Accounts(s.queue, s.accepted, s.fates)
    && !s.queue.closed && s.queue.capacity.Some?
    && s.queue.waiters == (if s.drain.Waiting? then [DRAIN] else [])
  }

  /** A worker's sentinel comes last, exactly when the worker is done, and nothing precedes its start. */
  ghost predicate WorkerInvariant<E(!new)>(phases: seq<Phase>, accepted: seq<Entry<E>>) {
    && (forall i | 0 <= i < |accepted| :: accepted[i].owner < |phases| && !phases[accepted[i].owner].Queued?)
    && (forall i | 0 <= i < |accepted| && accepted[i].Sentinel? :: phases[accepted[i].owner].Done?)
    && (forall i, j | 0 <= i < j < |accepted| && accepted[i].Sentinel? :: accepted[j].owner != accepted[i].owner)
    && (forall w: nat | w < |phases| && phases[w].Done? :: Sentinel(w) in accepted)
  }

  /** The loop's counters reflect the deliveries, save the entry in hand. */
  ghost predicate DrainInvariant<E(!new)>(s: State<E>) {
    var delivered := DeliveredItems(s.fates);
    && (s.drain.Holding? ==> delivered != [] && delivered[|delivered|-1] == s.drain.entry)
    && (var settled := if s.drain.Holding? then delivered[..|delivered|-1] else delivered;
        s.yielded == EventsOf(settled) && s.finished == Sentinels(settled))
  }

  ghost predicate EndInvariant<E(!new)>(s: State<E>) {
    s.drain.Ended? ==> s.queue.buffer == [] && AllDone(s.phases)
  }

  ghost predicate Invariant<E(!new)>(s: State<E>) {
    ChannelInvariant(s) && WorkerInvariant(s.phases, s.accepted) && DrainInvariant(s) && EndInvariant(s)
  }

  lemma PushKeepsChannel<E(!new)>(s: State<E>, entry: Entry<E>)
    requires ChannelInvariant(s)
    ensures ChannelInvariant(AfterPush(s, entry)) && AfterPush(s, entry).accepted == s.accepted + [entry]
  {
    PushAccounts(s.queue, entry, s.accepted, s.fates);
    hide Accounts, DeliveredItems, Items;
  }

  lemma PushKeepsDrain<E(!new)>(s: State<E>, entry: Entry<E>)
    requires ChannelInvariant(s) && DrainInvariant(s)
    ensures DrainInvariant(AfterPush(s, entry))
  {
    hide Accounts, EventsOf, Sentinels, Items;
    var fates := PushFates(s.queue, entry);
    if fates == [] {
      assert s.fates + [] == s.fates;
    } else {
      DeliveredItemsSnoc(s.fates, fates[0]);
      hide DeliveredItems;
    }
  }

  lemma EmitKeepsWorkers<E(!new)>(phases: seq<Phase>, accepted: seq<Entry<E>>, w: nat, event: E)
    requires WorkerInvariant(phases, accepted) && w < |phases| && phases[w].Running?
    ensures WorkerInvariant(phases, accepted + [Event(w, event)])
  {
    var more := accepted + [Event(w, event)];
    forall v: nat | v < |phases| && phases[v].Done? ensures Sentinel(v) in more {
      assert Sentinel(v) in accepted;
    }
  }

  lemma DoneKeepsWorkers<E(!new)>(phases: seq<Phase>, accepted: seq<Entry<E>>, w: nat)
    requires WorkerInvariant(phases, accepted) && w < |phases| && !phases[w].Done?
    ensures WorkerInvariant(phases[w := Done], accepted + [Sentinel(w)])
  {
    var more, after := accepted + [Sentinel(w)], phases[w := Done];
    assert more[|accepted|] == Sentinel(w);
    forall v: nat | v < |after| && after[v].Done? ensures Sentinel(v) in more {
      assert v == w || Sentinel(v) in accepted;
    }
  }

  lemma StartKeepsWorkers<E(!new)>(phases: seq<Phase>, accepted: seq<Entry<E>>, w: nat)
    requires WorkerInvariant(phases, accepted) && w < |phases| && phases[w].Queued?
    ensures WorkerInvariant(phases[w := Running], accepted)
  {}

  lemma ReceiveKeeps<E(!new)>(s: State<E>)
    requires Invariant(s) && Enabled(s, Receive)
    ensures Invariant(AfterReceive(s))
  {
    hide WorkerInvariant;
    if s.queue.buffer != [] {
      TakeAccounts(s.queue, s.accepted, s.fates);
      DeliveredItemsSnoc(s.fates, Delivered(s.queue.buffer[0]));
      hide Accounts, DeliveredItems, EventsOf, Sentinels;
      var delivered := DeliveredItems(s.fates);
      assert (delivered + [s.queue.buffer[0]])[..|delivered|] == delivered;
    }
  }

  lemma ProcessKeepsDrain<E(!new)>(s: State<E>)
    requires DrainInvariant(s) && s.drain.Holding?
    ensures DrainInvariant(AfterProcess(s)) && DrainInvariant(AfterProcess(s).(drain := Cancelled))
  {
    var delivered := DeliveredItems(s.fates);
    hide DeliveredItems;
    EntriesSnoc(delivered[..|delivered|-1], s.drain.entry);
    assert delivered == delivered[..|delivered|-1] + [s.drain.entry];
    hide EventsOf, Sentinels;
  }

  lemma ProcessKeeps<E(!new)>(s: State<E>)
    requires Invariant(s) && Enabled(s, Process)
    ensures Invariant(AfterProcess(s)) && Invariant(AfterProcess(s).(drain := Cancelled))
  {
    hide WorkerInvariant, DrainInvariant, Accounts;
    ProcessKeepsDrain(s);
  }

  // ----- counting sentinels -----

  function Owners<E>(entries: seq<Entry<E>>): set<nat> {
    set i | 0 <= i < |entries| && entries[i].Sentinel? :: entries[i].owner
  }

  predicate SentinelsDiffer<E>(entries: seq<Entry<E>>) {
    forall i, j | 0 <= i < j < |entries| && entries[i].Sentinel? && entries[j].Sentinel? ::
      entries[i].owner != entries[j].owner
  }

  lemma {:induction false} OwnersCounted<E>(entries: seq<Entry<E>>)
    requires SentinelsDiffer(entries)
    ensures |Owners(entries)| == Sentinels(entries)
  {
    if entries != [] {
      var before, last := entries[..|entries|-1], entries[|entries|-1];
      OwnersCounted(before);
      if last.Sentinel? {
        assert last.owner !in Owners(before);
        assert Owners(entries) == Owners(before) + {last.owner};
      } else {
        assert Owners(entries) == Owners(before);
      }
    }
  }

  lemma {:induction false} FullSet(s: set<nat>, n: nat)
    requires |s| >= n && forall x | x in s :: x < n
    ensures forall w: nat | w < n :: w in s
  {
    if n > 0 {
      var rest := s - {n-1};
      if n - 1 in s {
        FullSet(rest, n - 1);
      } else {
        NoLarger(s, n - 1);
      }
    }
  }

  lemma {:induction false} NoLarger(s: set<nat>, n: nat)
    requires forall x | x in s :: x < n
    ensures |s| <= n
  {
    if n > 0 {
      NoLarger(s - {n-1}, n - 1);
    } else {
      assert s == {};
    }
  }

  /** Deliveries are the accepted entries that were not dropped, so their sentinels belong to different workers. */
  lemma {:induction false} DeliveredAreAccepted<E(!new)>(fates: seq<Fate<Entry<E>>>, accepted: seq<Entry<E>>)
    requires Items(fates) <= accepted
    requires forall i, j | 0 <= i < j < |accepted| && accepted[i].Sentinel? :: accepted[j].owner != accepted[i].owner
    ensures SentinelsDiffer(DeliveredItems(fates))
    ensures forall k | 0 <= k < |DeliveredItems(fates)| :: DeliveredItems(fates)[k] in Items(fates)
  {
    if fates != [] {
      var before, last := fates[..|fates|-1], fates[|fates|-1];
      assert Items(fates) == Items(before) + [last.item];
      assert accepted[|before|] == last.item;
      DeliveredAreAccepted(before, accepted);
      hide DeliveredItems;
      forall k | 0 <= k < |DeliveredItems(before)| && DeliveredItems(before)[k].Sentinel?
        ensures DeliveredItems(before)[k].owner != last.item.owner
      {
        var i :| 0 <= i < |Items(before)| && Items(before)[i] == DeliveredItems(before)[k];
        assert accepted[i] == DeliveredItems(before)[k];
      }
      DeliveredItemsSnoc(before, last);
      assert before + [last] == fates;
    }
  }

  predicate NoneOf<E>(entries: seq<Entry<E>>, w: nat) {
    forall k | 0 <= k < |entries| :: entries[k].owner != w
  }

  /** Nothing of a worker follows its sentinel. */
  lemma SentinelBars<E(!new)>(phases: seq<Phase>, before: seq<Entry<E>>, after: seq<Entry<E>>, w: nat)
    requires WorkerInvariant(phases, before + after) && Sentinel(w) in before
    ensures NoneOf(after, w)
  {
    var i :| 0 <= i < |before| && before[i] == Sentinel(w);
    assert (before + after)[i] == Sentinel(w);
    forall k | 0 <= k < |after| ensures after[k].owner != w {
      assert (before + after)[|before|+k] == after[k];
    }
  }

  lemma NothingFollows<E(!new)>(phases: seq<Phase>, gone: seq<Entry<E>>, buffer: seq<Entry<E>>)
    requires WorkerInvariant(phases, gone + buffer)
    requires forall w: nat | w < |phases| :: Sentinel(w) in gone
    ensures buffer == []
  {
    if buffer != [] {
      assert (gone + buffer)[|gone|] == buffer[0];
      SentinelBars(phases, gone, buffer, buffer[0].owner);
    }
  }

  /** Once every sentinel was delivered nothing is left in the channel, and every worker is done. */
  lemma AllSentinelsDelivered<E(!new)>(s: State<E>)
    requires ChannelInvariant(s) && WorkerInvariant(s.phases, s.accepted)
    requires Sentinels(DeliveredItems(s.fates)) >= |s.phases|
    ensures s.queue.buffer == [] && AllDone(s.phases)
  {
    var delivered, gone, n := DeliveredItems(s.fates), Items(s.fates), |s.phases|;
    DeliveredAreAccepted(s.fates, s.accepted);
    OwnersCounted(delivered);
    hide DeliveredItems, Items, Sentinels;
    forall k | 0 <= k < |delivered| ensures delivered[k].owner < n && delivered[k] in s.accepted {
      assert delivered[k] in gone;
    }
    FullSet(Owners(delivered), n);
    forall w: nat | w < n ensures Sentinel(w) in gone && s.phases[w].Done? {
      assert w in Owners(delivered);
      var k :| 0 <= k < |delivered| && delivered[k].Sentinel? && delivered[k].owner == w;
      assert delivered[k] == Sentinel(w) && Sentinel(w) in s.accepted;
    }
    NothingFollows(s.phases, gone, s.queue.buffer);
  }

  lemma LeaveLoopKeeps<E(!new)>(s: State<E>)
    requires Invariant(s) && Enabled(s, LeaveLoop)
    ensures Invariant(Next(s, LeaveLoop))
  {
    AllSentinelsDelivered(s);
    hide WorkerInvariant, Accounts, DeliveredItems;
  }

  lemma TimeoutKeeps<E(!new)>(s: State<E>)
    requires Invariant(s) && Enabled(s, TimeoutExpires)
    ensures Invariant(AfterTimeout(s))
  {
    hide WorkerInvariant, DeliveredItems, EventsOf, Sentinels;
  }

  lemma DoneKeeps<E(!new)>(s: State<E>, w: nat)
    requires Invariant(s) && w < |s.phases| && !s.phases[w].Done?
    ensures Invariant(AfterDone(s, w))
  {
    var t := s.(phases := s.phases[w := Done]);
    DoneKeepsWorkers(s.phases, s.accepted, w);
    hide WorkerInvariant;
    assert !AllDone(s.phases);
    PushKeepsChannel(t, Sentinel(w));
    PushKeepsDrain(t, Sentinel(w));
    hide ChannelInvariant, DrainInvariant, Push;
  }

  lemma EmitKeeps<E(!new)>(s: State<E>, w: nat, event: E)
    requires Invariant(s) && Enabled(s, Emit(w, event))
    ensures Invariant(AfterPush(s, Event(w, event)))
  {
    EmitKeepsWorkers(s.phases, s.accepted, w, event);
    hide WorkerInvariant;
    assert !AllDone(s.phases);
    PushKeepsChannel(s, Event(w, event));
    PushKeepsDrain(s, Event(w, event));
    hide ChannelInvariant, DrainInvariant, Push;
  }

  lemma StartKeeps<E(!new)>(s: State<E>, w: nat)
    requires Invariant(s) && Enabled(s, Start(w))
    ensures Invariant(Next(s, Start(w)))
  {
    StartKeepsWorkers(s.phases, s.accepted, w);
    hide WorkerInvariant, Accounts, DeliveredItems, EventsOf, Sentinels;
    assert !AllDone(s.phases);
  }

  lemma StepKeeps<E(!new)>(s: State<E>, step: Step<E>)
    requires Invariant(s) && Enabled(s, step)
    ensures Invariant(Next(s, step)) && |Next(s, step).phases| == |s.phases|
  {
    hide Invariant;
    match step
    case CancelledWhileQueued(w) => DoneKeeps(s, w);
    case Start(w) => StartKeeps(s, w);
    case Emit(w, e) => EmitKeeps(s, w, e);
    case Finish(w) => DoneKeeps(s, w);
    case Receive => ReceiveKeeps(s);
    case Process => ProcessKeeps(s);
    case TimeoutExpires => TimeoutKeeps(s);
    case LeaveLoop => LeaveLoopKeeps(s);
    case ConsumerReturns => ProcessKeeps(s);
  }

  // ----- runs -----

  predicate CanRun<E>(workers: nat, capacity: nat, steps: seq<Step<E>>)
    requires capacity >= 1
    decreases |steps|, 0
  {
    steps == [] ||
    (CanRun(workers, capacity, steps[..|steps|-1])
     && Enabled(StateAfter(workers, capacity, steps[..|steps|-1]), steps[|steps|-1]))
  }

  function StateAfter<E>(workers: nat, capacity: nat, steps: seq<Step<E>>): State<E>
    requires capacity >= 1 && CanRun(workers, capacity, steps)
    decreases |steps|, 1
  {
    if steps == [] then Init(workers, capacity)
    else Next(StateAfter(workers, capacity, steps[..|steps|-1]), steps[|steps|-1])
  }

  lemma {:induction false} EveryRunKeeps<E(!new)>(workers: nat, capacity: nat, steps: seq<Step<E>>)
    requires capacity >= 1 && CanRun(workers, capacity, steps)
    ensures Invariant(StateAfter(workers, capacity, steps)) && |StateAfter(workers, capacity, steps).phases| == workers
    decreases |steps|
  {
    if steps != [] {
      EveryRunKeeps(workers, capacity, steps[..|steps|-1]);
      hide Invariant, Next, Enabled;
      StepKeeps(StateAfter(workers, capacity, steps[..|steps|-1]), steps[|steps|-1]);
    } else {
      hide CanRun;
    }
  }

  /** Whenever the loop ends by itself, even with sentinels dropped: all workers are done, the channel is
      empty, and the consumer got exactly the undropped events, in the order they were pushed. */
  lemma NothingIsLeftBehind<E(!new)>(workers: nat, capacity: nat, steps: seq<Step<E>>)
    requires capacity >= 1 && CanRun(workers, capacity, steps)
    requires StateAfter(workers, capacity, steps).drain.Ended?
    ensures var s := StateAfter(workers, capacity, steps);
            && AllDone(s.phases) && s.queue.buffer == []
            && Items(s.fates) == s.accepted
            && s.yielded == EventsOf(DeliveredItems(s.fates))
            && s.queue.dropped == |s.accepted| - |DeliveredItems(s.fates)|
  {
    EveryRunKeeps(workers, capacity, steps);
    hide StateAfter, CanRun, WorkerInvariant, EventsOf, DeliveredItems;
  }

  lemma {:induction false} UndroppedIsDelivered<T>(fates: seq<Fate<T>>)
    requires |DeliveredItems(fates)| == |fates|
    ensures DeliveredItems(fates) == Items(fates)
  {
    if fates != [] {
      var before, last := fates[..|fates|-1], fates[|fates|-1];
      UndroppedIsDelivered(before);
      assert Items(fates) == Items(before) + [last.item];
    }
  }

  /** Without a drop the consumer saw every event. */
  lemma EverythingIsYielded<E(!new)>(workers: nat, capacity: nat, steps: seq<Step<E>>)
    requires capacity >= 1 && CanRun(workers, capacity, steps)
    requires StateAfter(workers, capacity, steps).drain.Ended?
        && StateAfter(workers, capacity, steps).queue.dropped == 0
    ensures var s := StateAfter(workers, capacity, steps); s.yielded == EventsOf(s.accepted)
  {
    NothingIsLeftBehind(workers, capacity, steps);
    UndroppedIsDelivered(StateAfter(workers, capacity, steps).fates);
    hide StateAfter, CanRun, EventsOf, DeliveredItems;
  }

  /** What one worker pushed, in order. */
  function OfWorker<E>(entries: seq<Entry<E>>, w: nat): (r: seq<Entry<E>>)
    ensures forall k | 0 <= k < |r| :: r[k].owner == w && r[k] in entries
  {
    if entries == [] then []
    else
      var before, last := OfWorker(entries[..|entries|-1], w), entries[|entries|-1];
      if last.owner == w then before + [last] else before
  }

  /** Before worker `w`'s sentinel its entries are events; with it they are events and then the sentinel. */
  ghost predicate IsClosedBy<E(!new)>(entries: seq<Entry<E>>, w: nat) {
    var mine := OfWorker(entries, w);
    mine == EventsOf(mine) + (if Sentinel(w) in entries then [Sentinel(w)] else [])
  }

  lemma OfWorkerSnoc<E(!new)>(entries: seq<Entry<E>>, last: Entry<E>, w: nat)
    ensures OfWorker(entries + [last], w) == OfWorker(entries, w) + (if last.owner == w then [last] else [])
  {
    assert (entries + [last])[..|entries|] == entries;
  }

  lemma ClosedByMore<E(!new)>(entries: seq<Entry<E>>, last: Entry<E>, w: nat)
    requires IsClosedBy(entries, w) && (Sentinel(w) in entries ==> last.owner != w)
    ensures IsClosedBy(entries + [last], w)
  {
    OfWorkerSnoc(entries, last, w);
    EntriesSnoc(OfWorker(entries, w), last);
    hide OfWorker, EventsOf, Sentinels;
    assert last in entries + [last];
    assert Sentinel(w) in entries + [last] <==> Sentinel(w) in entries || last == Sentinel(w);
    var mine := OfWorker(entries, w);
    assert mine + [] == mine && EventsOf(mine) + [] == EventsOf(mine);
  }

  lemma {:induction false} SentinelCloses<E(!new)>(phases: seq<Phase>, accepted: seq<Entry<E>>, w: nat, n: nat)
    requires WorkerInvariant(phases, accepted) && n <= |accepted|
    ensures IsClosedBy(accepted[..n], w)
  {
    if n > 0 {
      var before := accepted[..n-1];
      SentinelCloses(phases, accepted, w, n - 1);
      assert accepted == before + accepted[n-1..] && accepted[n-1..][0] == accepted[n-1];
      assert accepted[..n] == before + [accepted[n-1]];
      if Sentinel(w) in before { SentinelBars(phases, before, accepted[n-1..], w); }
      ClosedByMore(before, accepted[n-1], w);
    } else {
      assert accepted[..0] == [];
    }
  }

  /** In every run a worker pushes its sentinel once, as its last push, and has pushed it exactly when it is done. */
  lemma SentinelIsLastAndOnce<E(!new)>(workers: nat, capacity: nat, steps: seq<Step<E>>, w: nat)
    requires capacity >= 1 && CanRun(workers, capacity, steps) && w < workers
    ensures var s := StateAfter(workers, capacity, steps);
            && |s.phases| == workers && (s.phases[w].Done? <==> Sentinel(w) in s.accepted)
            && IsClosedBy(s.accepted, w)
  {
    EveryRunKeeps(workers, capacity, steps);
    var s := StateAfter(workers, capacity, steps);
    hide StateAfter, CanRun, OfWorker, EventsOf, ChannelInvariant, DrainInvariant, IsClosedBy;
    assert s.accepted[..|s.accepted|] == s.accepted;
    SentinelCloses(s.phases, s.accepted, w, |s.accepted|);
  }

  // ----- the drain always ends -----

  /** Steps the drain loop can still take on its own. */
  function Remaining<E>(s: State<E>): nat {
    3 * |s.queue.buffer| + match s.drain case Holding(_) => 2 case AtHead => 1 case _ => 0
  }

  predicate IsDrainStep<E>(step: Step<E>) {
    step.Receive? || step.Process? || step.TimeoutExpires? || step.LeaveLoop?
  }

  predicate IsDraining<E>(s: State<E>) {
    s.drain.AtHead? || s.drain.Waiting? || s.drain.Holding?
  }

  /** The step the loop itself takes next. */
  function DrainStep<E>(s: State<E>): Step<E> {
    match s.drain
    case AtHead => if s.finished < |s.phases| then Receive else LeaveLoop
    case Holding(_) => Process
    case _ => TimeoutExpires
  }

  /** When all workers are done the loop can always go on, and comes closer to its end with every step. */
  lemma DrainAdvances<E(!new)>(s: State<E>)
    requires Invariant(s) && AllDone(s.phases) && IsDraining(s)
    ensures Enabled(s, DrainStep(s)) && IsDrainStep(DrainStep(s))
    ensures Next(s, DrainStep(s)).drain.Ended? || Remaining(Next(s, DrainStep(s))) < Remaining(s)
    ensures AllDone(Next(s, DrainStep(s)).phases)
    ensures Next(s, DrainStep(s)).drain.Ended? || IsDraining(Next(s, DrainStep(s)))
  {
    hide WorkerInvariant, DrainInvariant, Accounts;
  }

  lemma OneMoreStep<E(!new)>(workers: nat, capacity: nat, steps: seq<Step<E>>, step: Step<E>)
    requires capacity >= 1 && CanRun(workers, capacity, steps) && Enabled(StateAfter(workers, capacity, steps), step)
    ensures CanRun(workers, capacity, steps + [step])
    ensures StateAfter(workers, capacity, steps + [step]) == Next(StateAfter(workers, capacity, steps), step)
  {
    hide Enabled, Next;
    assert (steps + [step])[..|steps|] == steps;
  }

  /** A run whose workers are all done is brought to its end by the loop alone, within its remaining steps. */
  lemma {:induction false} DrainEnds<E(!new)>(workers: nat, capacity: nat, steps: seq<Step<E>>)
    returns (more: seq<Step<E>>)
    requires capacity >= 1 && CanRun(workers, capacity, steps)
    requires AllDone(StateAfter(workers, capacity, steps).phases) && IsDraining(StateAfter(workers, capacity, steps))
    ensures CanRun(workers, capacity, steps + more) && StateAfter(workers, capacity, steps + more).drain.Ended?
    ensures |more| <= Remaining(StateAfter(workers, capacity, steps)) + 1
    ensures forall k | 0 <= k < |more| :: IsDrainStep(more[k])
    decreases Remaining(StateAfter(workers, capacity, steps))
  {
    hide Invariant, AllDone, Enabled, Next, DrainStep, Remaining, IsDrainStep, CanRun, StateAfter, IsDraining;
    var s := StateAfter(workers, capacity, steps);
    EveryRunKeeps(workers, capacity, steps);
    DrainAdvances(s);
    var step := DrainStep(s);
    OneMoreStep(workers, capacity, steps, step);
    if Next(s, step).drain.Ended? {
      more := [step];
    } else {
      var rest := DrainEnds(workers, capacity, steps + [step]);
      more := [step] + rest;
      assert steps + more == steps + [step] + rest;
    }
  }
}
