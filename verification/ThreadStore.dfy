/** Registry of agent threads: records with a pinned configuration, a transcript and a `running` flag. */
module ThreadStore {
  import opened HistoryCaps
  import opened JsText

  /** The pinned configuration is never looked into here; `string` stands for it. */
  datatype Thread = Thread(
    id: nat, title: string, createdAt: int, updatedAt: int, running: bool, turnCount: nat,
    workspace: string, forkOf: Option<nat>, config: string, history: seq<Message>)

  datatype Limits = Limits(maxThreads: int, history: Caps)

  datatype Failure = NotFound | Full | Busy | CopyFailed

  datatype Outcome<+T> = Ok(value: T) | Failed(failure: Failure)

  const MESSAGE_MAX: nat := 32_000
  const TITLE_MAX: nat := 200
  const REQUEST_TITLE_MAX: nat := 120
  const QUESTION_MAX: nat := 4_000
  const SMALLEST_BUDGET: nat := 64_000
  const NO_QUESTION := "(no question recorded)"
  const NO_ANSWER := "(no answer extracted)"
  const DEFAULT_LIMITS := Limits(24, Caps(60, 96_000))

  // ----- what the operations do to one record -----

  /** Text that survives being stored and read back. */
  function SanitizedTurnContent(raw: string, placeholder: string): (r: string)
    requires 1 <= |placeholder| <= MESSAGE_MAX
    ensures 1 <= |r| <= MESSAGE_MAX
    ensures IsBlank(raw) ==> r == placeholder
    ensures !IsBlank(raw) ==> r <= raw && |r| == Min(|raw|, MESSAGE_MAX)
  {
    TrimOfBlank(raw);
    if Trim(raw) == "" then placeholder
    else if |raw| > MESSAGE_MAX then raw[..MESSAGE_MAX] else raw
  }

  /** One finished turn: the question and the answer with its captured rounds. */
  function TurnPair(question: string, answer: string, rounds: seq<ToolRound>): (r: seq<Message>)
    ensures |r| == 2
  {
    [Message(User, SanitizedTurnContent(question, NO_QUESTION), []),
     Message(Assistant, SanitizedTurnContent(answer, NO_ANSWER), rounds)]
  }

  function NewThread(id: nat, title: string, stamp: string, config: string, now: int): Thread {
    Thread(id, if Trim(title) == "" then "Thread " + stamp else Trim(title), now, now, false, 0, "", None, config, [])
  }

  function ForkedThread(id: nat, parent: Thread, title: string, now: int): Thread {
    Thread(id, if Trim(title) == "" then parent.title + " (fork)" else Trim(title), now, now, false,
           parent.turnCount, "", Some(parent.id), parent.config, parent.history)
  }

  function WithTurn(t: Thread, limits: Limits, question: string, answer: string, workspace: string,
        rounds: seq<ToolRound>, now: int): Thread {
    t.(history := Trimmed(t.history + TurnPair(question, answer, rounds), limits.history),
       workspace := if workspace != "" then workspace else t.workspace,
       turnCount := t.turnCount + 1, updatedAt := now)
  }

  predicate HasRoom(threads: map<nat, Thread>, limits: Limits) {
    |threads| < limits.maxThreads
  }

  // ----- the store -----

  class FileThreadStore {
    var threads: map<nat, Thread>
    /** The next identifier the injected generator hands out; it never repeats one. */
    var nextId: nat
    const limits: Limits

    constructor (limits: Limits)
      ensures threads == map[] && nextId == 0 && this.limits == limits
    {
      threads, nextId, this.limits := map[], 0, limits;
    }

    method Create(title: string, stamp: string, config: string, now: int) returns (r: Outcome<Thread>)
      modifies this
      ensures !HasRoom(old(threads), limits) ==> r == Failed(Full) && threads == old(threads) && nextId == old(nextId)
      ensures HasRoom(old(threads), limits) ==>
        (var t := NewThread(old(nextId), title, stamp, config, now);
         r == Ok(t) && threads == old(threads)[t.id := t] && nextId == old(nextId) + 1)
    {
      if |threads| >= limits.maxThreads { return Failed(Full); }
      var id := nextId;
      nextId := nextId + 1;
      var record := NewThread(id, title, stamp, config, now);
      threads := threads[id := record];
      return Ok(record);
    }

    method Get(id: nat) returns (r: Outcome<Thread>)
      ensures r == if id in threads then Ok(threads[id]) else Failed(NotFound)
    {
      if id !in threads { return Failed(NotFound); }
      return Ok(threads[id]);
    }

    method Delete(id: nat) returns (r: Outcome<Thread>)
      modifies this
      ensures nextId == old(nextId)
      ensures id !in old(threads) ==> r == Failed(NotFound) && threads == old(threads)
      ensures id in old(threads) && old(threads)[id].running ==> r == Failed(Busy) && threads == old(threads)
      ensures id in old(threads) && !old(threads)[id].running ==>
          r == Ok(old(threads)[id]) && threads == old(threads) - {id}
    {
      var found := Get(id);
      if found.Failed? { return Failed(NotFound); }
      if found.value.running { return Failed(Busy); }
      threads := threads - {id};
      return found;
    }

    method MarkRunning(id: nat, running: bool) returns (r: Outcome<()>)
      modifies this
      ensures nextId == old(nextId)
      ensures id !in old(threads) ==> r == Failed(NotFound) && threads == old(threads)
      ensures id in old(threads) ==> r == Ok(()) && threads == old(threads)[id := old(threads)[id].(running := running)]
    {
      if id !in threads { return Failed(NotFound); }
      threads := threads[id := threads[id].(running := running)];
      return Ok(());
    }

    method Fork(parentId: nat, title: string, now: int) returns (r: Outcome<Thread>)
      modifies this
      ensures parentId !in old(threads) ==> r == Failed(NotFound) && threads == old(threads) && nextId == old(nextId)
      ensures parentId in old(threads) && !HasRoom(old(threads), limits) ==>
        r == Failed(Full) && threads == old(threads) && nextId == old(nextId)
      ensures parentId in old(threads) && HasRoom(old(threads), limits) ==>
        (var t := ForkedThread(old(nextId), old(threads)[parentId], title, now);
         r == Ok(t) && threads == old(threads)[t.id := t] && nextId == old(nextId) + 1)
    {
      var parent := Get(parentId);
      if parent.Failed? { return Failed(NotFound); }
      if |threads| >= limits.maxThreads { return Failed(Full); }
      var id := nextId;
      nextId := nextId + 1;
      var record := ForkedThread(id, parent.value, title, now);
      threads := threads[id := record];
      return Ok(record);
    }

    method SetWorkspace(id: nat, workspace: string, now: int) returns (r: Outcome<()>)
      modifies this
      ensures nextId == old(nextId)
      ensures id !in old(threads) ==> r == Failed(NotFound) && threads == old(threads)
      ensures id in old(threads) ==>
        r == Ok(()) && threads == old(threads)[id := old(threads)[id].(workspace := workspace, updatedAt := now)]
    {
      if id !in threads { return Failed(NotFound); }
      threads := threads[id := threads[id].(workspace := workspace, updatedAt := now)];
      return Ok(());
    }

    method AppendTurn(id: nat, question: string, answer: string, workspace: string, rounds: seq<ToolRound>, now: int)
      returns (r: Outcome<()>)
      modifies this
      ensures nextId == old(nextId)
      ensures id !in old(threads) ==> r == Failed(NotFound) && threads == old(threads)
      ensures id in old(threads) ==>
        r == Ok(()) &&
        threads == old(threads)[id := WithTurn(old(threads)[id], limits, question, answer, workspace, rounds, now)]
    {
      hide Trimmed, TurnPair;
      if id !in threads { return Failed(NotFound); }
      var record := threads[id];
      var history := TrimHistoryToCaps(record.history + TurnPair(question, answer, rounds), limits.history);
      record := record.(history := history);
      if workspace != "" { record := record.(workspace := workspace); }
      threads := threads[id := record.(turnCount := record.turnCount + 1, updatedAt := now)];
      return Ok(());
    }
  }

  // ----- what a record keeps -----

  predicate IsStorableMessage(m: Message) {
    1 <= |m.content| <= MESSAGE_MAX
  }

  /** The stored transcript alternates, starts with a question, meets the caps, and each message reads back. */
  ghost predicate HasSoundHistory(t: Thread, limits: Limits) {
    && IsTranscript(t.history)
    && (t.history == [] || WithinCaps(t.history, limits.history))
    && AreStorable(t.history)
  }

  predicate AreStorable(history: seq<Message>) {
    forall k | 0 <= k < |history| :: IsStorableMessage(history[k])
  }

  lemma PairExtends(history: seq<Message>, u: Message, a: Message)
    requires IsTranscript(history) && AreStorable(history)
    requires u.role == User && a.role == Assistant && IsStorableMessage(u) && IsStorableMessage(a)
    ensures IsTranscript(history + [u, a]) && AreStorable(history + [u, a])
  {
    hide IsStorableMessage;
  }

  lemma TurnKeepsSoundHistory(t: Thread, limits: Limits, question: string, answer: string, workspace: string,
        rounds: seq<ToolRound>, now: int)
    requires HasSoundHistory(t, limits)
    ensures HasSoundHistory(WithTurn(t, limits, question, answer, workspace, rounds, now), limits)
  {
    var pair := TurnPair(question, answer, rounds);
    assert pair == [pair[0], pair[1]] && pair[0].role == User && pair[1].role == Assistant;
    var all := t.history + pair;
    hide WithinCaps, SanitizedTurnContent, Trimmed;
    PairExtends(t.history, pair[0], pair[1]);
    hide TurnPair, IsTranscript, IsStorableMessage;
    TrimKeepsTranscript(all, limits.history);
    TrimIsSuffix(all, limits.history);
  }

  lemma TrimIsSuffix(history: seq<Message>, caps: Caps)
    ensures |Trimmed(history, caps)| <= |history|
    ensures Trimmed(history, caps) == history[|history|-|Trimmed(history, caps)|..]
  {
    hide WithinCaps;
  }

  /** The caps leave room for the turn's two messages alone. */
  predicate TurnFits(question: string, answer: string, rounds: seq<ToolRound>, caps: Caps) {
    var pair := TurnPair(question, answer, rounds);
    PairFits(pair[0], pair[1], caps)
  }

  predicate EndsWithTurn(history: seq<Message>, question: string, answer: string, rounds: seq<ToolRound>) {
    |history| >= 2 && history[|history|-2..] == TurnPair(question, answer, rounds)
  }

  /** The committed pair ends the transcript exactly when there is room for it; otherwise the transcript is empty. */
  lemma CommittedPairSurvives(t: Thread, limits: Limits, question: string, answer: string, workspace: string,
        rounds: seq<ToolRound>, now: int)
    requires HasSoundHistory(t, limits)
    ensures var after := WithTurn(t, limits, question, answer, workspace, rounds, now).history;
            && (EndsWithTurn(after, question, answer, rounds) <==> TurnFits(question, answer, rounds, limits.history))
            && (!TurnFits(question, answer, rounds, limits.history) ==> after == [])
  {
    var pair := TurnPair(question, answer, rounds);
    assert pair == [pair[0], pair[1]];
    hide SanitizedTurnContent, Trimmed, WithinCaps, PairFits, TurnPair;
    NewestPairSurvives(t.history, pair[0], pair[1], limits.history);
  }

  lemma TurnWeighs(question: string, answer: string, rounds: seq<ToolRound>)
    ensures var pair := TurnPair(question, answer, rounds);
            && Weight(pair[0]) == |SanitizedTurnContent(question, NO_QUESTION)|
            && Weight(pair[1]) == |SanitizedTurnContent(answer, NO_ANSWER)| + RoundsChars(rounds)
  {
    hide SanitizedTurnContent;
  }

  function Repeated(c: char, n: nat): string {
    seq(n, i => c)
  }

  /** A turn as heavy as one with a question of `n` characters can be. */
  lemma HeaviestTurn(n: nat) returns (question: string, answer: string, rounds: seq<ToolRound>)
    requires 1 <= n <= MESSAGE_MAX
    ensures |question| == n && FitsWire(rounds) && AreReadableRounds(rounds)
    ensures var pair := TurnPair(question, answer, rounds);
            Weight(pair[0]) + Weight(pair[1]) == n + MESSAGE_MAX + MAX_ROUNDS_CHARS
  {
    question, answer := Repeated('q', n), Repeated('a', MESSAGE_MAX);
    assert !IsSpace(question[0]) && !IsSpace(answer[0]);
    rounds := FourRounds(ToolRound("t", Record("{}"), Repeated('r', 7_997)));
    TurnWeighs(question, answer, rounds);
  }

  lemma FourRounds(round: ToolRound) returns (rounds: seq<ToolRound>)
    ensures rounds == [round, round, round, round] && RoundsChars(rounds) == 4 * RoundChars(round)
  {
    hide RoundChars;
    var two := [round, round];
    rounds := two + two;
    assert two[1..] == [round] && [round][1..] == [];
    assert RoundsChars([round]) == RoundChars(round);
    RoundsCharsConcat(two, two);
  }

  /** Questions of at most `n` characters: every turn fits exactly under caps with room for the heaviest one. */
  lemma EveryTurnFitsExactly(caps: Caps, n: nat)
    requires |NO_QUESTION| <= n <= MESSAGE_MAX
    ensures (forall question, answer, rounds | |question| <= n && FitsWire(rounds) ::
               TurnFits(question, answer, rounds, caps))
       <==> caps.maxMessages >= 2 && caps.maxChars >= n + MESSAGE_MAX + MAX_ROUNDS_CHARS
  {
    hide SanitizedTurnContent, TurnPair, Weight;
    var question, answer, rounds := HeaviestTurn(n);
    assert TurnFits(question, answer, rounds, caps)
      <==> caps.maxMessages >= 2 && caps.maxChars >= n + MESSAGE_MAX + MAX_ROUNDS_CHARS;
    forall question, answer, rounds | |question| <= n && FitsWire(rounds)
      ensures var pair := TurnPair(question, answer, rounds);
              Weight(pair[0]) + Weight(pair[1]) <= n + MESSAGE_MAX + MAX_ROUNDS_CHARS
    {
      TurnWeighs(question, answer, rounds);
    }
  }

  /** The built-in limits leave room for every turn, however long its question. */
  lemma DefaultLimitsLeaveRoom(question: string, answer: string, rounds: seq<ToolRound>)
    requires FitsWire(rounds)
    ensures TurnFits(question, answer, rounds, DEFAULT_LIMITS.history)
  {
    hide SanitizedTurnContent, TurnPair, Weight;
    TurnWeighs(question, answer, rounds);
  }

  /** The smallest budget the settings admit does not: such a turn empties the transcript, itself included. */
  lemma SmallestBudgetLosesATurn(t: Thread, maxThreads: int, maxMessages: int)
    returns (question: string, answer: string, rounds: seq<ToolRound>)
    requires HasSoundHistory(t, Limits(maxThreads, Caps(maxMessages, SMALLEST_BUDGET)))
    ensures |question| == QUESTION_MAX && FitsWire(rounds)
    ensures var limits := Limits(maxThreads, Caps(maxMessages, SMALLEST_BUDGET));
            WithTurn(t, limits, question, answer, "", rounds, 0).history == []
  {
    question, answer, rounds := HeaviestTurn(QUESTION_MAX);
    hide HasSoundHistory, WithTurn, TurnPair, Weight;
    CommittedPairSurvives(t, Limits(maxThreads, Caps(maxMessages, SMALLEST_BUDGET)), question, answer, "", rounds, 0);
  }

  // ----- reading back -----

  predicate HasReadableRounds(history: seq<Message>) {
    forall k | 0 <= k < |history| :: AreReadableRounds(history[k].rounds)
  }

  /** What the schema of a stored record demands; the history bound has twice the headroom of the write cap. */
  predicate ReadsBack(t: Thread, limits: Limits) {
    && |t.title| <= TITLE_MAX
    && |t.history| <= limits.history.maxMessages * 2
    && AreStorable(t.history) && HasReadableRounds(t.history)
  }

  /** The schema in plain numbers: the title's bound, twice the message cap, and per message its length and for each of
      its rounds a tool name and a record of arguments. */
  lemma ReadsBackIs(t: Thread, limits: Limits)
    ensures ReadsBack(t, limits) <==>
              && |t.title| <= 200 && |t.history| <= 2 * limits.history.maxMessages
              && forall k | 0 <= k < |t.history| ::
                   && 1 <= |t.history[k].content| <= 32_000
                   && forall n | 0 <= n < |t.history[k].rounds| ::
                        t.history[k].rounds[n].tool != "" && t.history[k].rounds[n].args.Record?
  {
    hide IsReadableRound;
    forall round: ToolRound ensures IsReadableRound(round) <==> round.tool != "" && round.args.Record? {
      ReadableRoundIs(round);
    }
  }

  lemma ReadableRoundIs(round: ToolRound)
    ensures IsReadableRound(round) <==> round.tool != "" && round.args.Record?
  {}

  /** What turns and forks write is valid for the reader, up to the title and the captured rounds. */
  lemma SoundHistoryReadsBack(t: Thread, limits: Limits)
    requires HasSoundHistory(t, limits)
    ensures ReadsBack(t, limits)
       <==> |t.title| <= TITLE_MAX && HasReadableRounds(t.history) && limits.history.maxMessages >= 0
  {
    hide IsTranscript, AreStorable, HasReadableRounds;
  }

  lemma RoundsOfMore(history: seq<Message>, pair: seq<Message>)
    requires |pair| == 2 && pair[0].rounds == []
    ensures HasReadableRounds(history + pair) <==> HasReadableRounds(history) && AreReadableRounds(pair[1].rounds)
  {
    hide IsReadableRound;
    var all := history + pair;
    assert all[|history|+1] == pair[1];
    assert forall k | 0 <= k < |history| :: all[k] == history[k];
  }

  lemma RoundsOfSuffix(history: seq<Message>, n: nat)
    requires n <= |history| && HasReadableRounds(history)
    ensures HasReadableRounds(history[n..])
  {
    hide AreReadableRounds;
  }

  /** A turn leaves readable rounds readable exactly when its own are, or when no room is left for them. */
  lemma TurnReadsBackExactly(t: Thread, limits: Limits, question: string, answer: string, workspace: string,
        rounds: seq<ToolRound>, now: int)
    requires HasSoundHistory(t, limits) && HasReadableRounds(t.history)
    ensures HasReadableRounds(WithTurn(t, limits, question, answer, workspace, rounds, now).history)
       <==> AreReadableRounds(rounds) || !TurnFits(question, answer, rounds, limits.history)
  {
    var pair := TurnPair(question, answer, rounds);
    var after := WithTurn(t, limits, question, answer, workspace, rounds, now).history;
    assert pair[0].rounds == [] && pair[1].rounds == rounds;
    hide SanitizedTurnContent, TurnPair, TurnFits, HasSoundHistory, AreReadableRounds;
    CommittedPairSurvives(t, limits, question, answer, workspace, rounds, now);
    TrimIsSuffix(t.history + pair, limits.history);
    hide Trimmed;
    RoundsOfMore(t.history, pair);
    var all := t.history + pair;
    if AreReadableRounds(rounds) { RoundsOfSuffix(all, |all| - |after|); }
    if EndsWithTurn(after, question, answer, rounds) { assert after[|after|-1] == pair[1]; }
  }

  /** An untitled fork of a readable thread reads back exactly when its parent's title leaves room for the suffix. */
  lemma ForkReadsBackExactly(id: nat, parent: Thread, title: string, now: int, limits: Limits)
    requires ReadsBack(parent, limits) && |title| <= REQUEST_TITLE_MAX
    ensures ReadsBack(ForkedThread(id, parent, title, now), limits)
      <==> Trim(title) != "" || |parent.title| + |" (fork)"| <= TITLE_MAX
  {
    var from := TrimIsPiece(title);
  }

  /** The title of the `n`-th untitled fork in a chain. */
  function ChainTitle(root: string, n: nat): string {
    if n == 0 then root
    else ForkedThread(0, Thread(0, ChainTitle(root, n - 1), 0, 0, false, 0, "", None, "", []), "", 0).title
  }

  /** A long enough chain of untitled forks leaves the readable range, whatever the root's title. */
  lemma {:induction false} ForkChainsOutgrowTheSchema(root: string, n: nat)
    ensures |ChainTitle(root, n)| == |root| + 7 * n
    ensures n >= 29 ==> |ChainTitle(root, n)| > TITLE_MAX
  {
    if n > 0 { ForkChainsOutgrowTheSchema(root, n - 1); }
  }

  /** `slice(0, end)`: a negative end counts from the back. */
  function SliceTo<T>(s: seq<T>, end: int): seq<T> {
    if end >= |s| then s else if end >= 0 then s[..end] else if |s| + end >= 0 then s[..|s|+end] else []
  }

  /** Reading a file: unreadable items are skipped, the rest capped, and nobody is running any more. */
  function Load(items: seq<Thread>, limits: Limits): map<nat, Thread> {
    Stored(SliceTo(Readable(items, limits), limits.maxThreads))
  }

  function Readable(items: seq<Thread>, limits: Limits): (r: seq<Thread>)
    ensures |r| <= |items|
  {
    if items == [] then []
    else
      var before, last := Readable(items[..|items|-1], limits), items[|items|-1];
      if ReadsBack(last, limits) then before + [last] else before
  }

  lemma ReadableOfOneMore(items: seq<Thread>, limits: Limits, n: nat)
    requires n < |items|
    ensures Readable(items[..n+1], limits)
         == if ReadsBack(items[n], limits) then Readable(items[..n], limits) + [items[n]]
            else Readable(items[..n], limits)
  {
    hide ReadsBack;
    assert items[..n+1][..n] == items[..n];
  }

  lemma OneReadableMore(items: seq<Thread>, limits: Limits, n: nat, readable: nat -> bool, at: seq<nat>)
    requires n < |items| && readable(n) == ReadsBack(items[n], limits)
    requires Selects(at, n, readable) && Gathers(Readable(items[..n], limits), items[..n], at)
    ensures var more := if readable(n) then at + [n] else at;
            Selects(more, n + 1, readable) && Gathers(Readable(items[..n+1], limits), items[..n+1], more)
  {
    hide *;
    ReadableOfOneMore(items, limits, n);
    GathersNext(Readable(items[..n], limits), items, at, n);
    SelectsNext(at, n, readable);
  }

  lemma {:induction false} ReadableUpTo(items: seq<Thread>, limits: Limits, n: nat, readable: nat -> bool)
    returns (at: seq<nat>)
    requires n <= |items| && forall k | 0 <= k < |items| :: readable(k) == ReadsBack(items[k], limits)
    ensures Selects(at, n, readable) && Gathers(Readable(items[..n], limits), items[..n], at)
  {
    if n == 0 {
      at := [];
    } else {
      hide ReadsBack;
      var before := ReadableUpTo(items, limits, n - 1, readable);
      at := if readable(n - 1) then before + [n - 1] else before;
      OneReadableMore(items, limits, n - 1, readable, before);
    }
    hide *;
  }

  /** The readable items, each once, in the order of the file. */
  lemma ReadableAreSelected(items: seq<Thread>, limits: Limits) returns (at: seq<nat>)
    ensures Selects(at, |items|, (k: nat) => k < |items| && ReadsBack(items[k], limits))
    ensures Gathers(Readable(items, limits), items, at)
  {
    hide ReadsBack, Readable, Gathers;
    at := ReadableUpTo(items, limits, |items|, (k: nat) => k < |items| && ReadsBack(items[k], limits));
    assert items[..|items|] == items;
  }

  function Stored(items: seq<Thread>): map<nat, Thread> {
    if items == [] then map[]
    else Stored(items[..|items|-1])[items[|items|-1].id := items[|items|-1].(running := false)]
  }

  method LoadItems(items: seq<Thread>, limits: Limits) returns (threads: map<nat, Thread>)
    ensures threads == Load(items, limits)
  {
    hide ReadsBack;
    var kept := [];
    for i := 0 to |items|
      invariant kept == Readable(items[..i], limits)
    {
      assert items[..i+1][..i] == items[..i];
      if ReadsBack(items[i], limits) { kept := kept + [items[i]]; }
    }
    assert items[..|items|] == items;
    var capped := SliceTo(kept, limits.maxThreads);
    threads := map[];
    for i := 0 to |capped|
      invariant threads == Stored(capped[..i])
    {
      assert capped[..i+1][..i] == capped[..i];
      threads := threads[capped[i].id := capped[i].(running := false)];
    }
    assert capped[..|capped|] == capped;
  }

  /** How many readable items of a file are loaded. */
  function Room(items: seq<Thread>, limits: Limits): nat {
    if limits.maxThreads >= 0 then limits.maxThreads
    else Max(|Readable(items, limits)| + limits.maxThreads, 0)
  }

  /** Item `k` is readable and among the first `room` readable ones. */
  predicate IsLoaded(items: seq<Thread>, limits: Limits, room: nat, k: int) {
    0 <= k < |items| && ReadsBack(items[k], limits) && |Readable(items[..k], limits)| < room
  }

  function LoadFirst(items: seq<Thread>, limits: Limits, room: nat): map<nat, Thread> {
    Stored(SliceTo(Readable(items, limits), room))
  }

  lemma LoadFirstSnoc(before: seq<Thread>, last: Thread, limits: Limits, room: nat)
    ensures LoadFirst(before + [last], limits, room)
         == if IsLoaded(before + [last], limits, room, |before|)
            then LoadFirst(before, limits, room)[last.id := last.(running := false)]
            else LoadFirst(before, limits, room)
  {
    hide ReadsBack;
    var kept, items := Readable(before, limits), before + [last];
    assert items[..|before|] == before;
    if ReadsBack(last, limits) {
      assert Readable(items, limits) == kept + [last];
      if |kept| < room {
        assert SliceTo(kept + [last], room) == kept + [last] && SliceTo(kept, room) == kept;
        assert (kept + [last])[..|kept|] == kept;
      } else {
        assert SliceTo(kept + [last], room) == SliceTo(kept, room);
      }
    }
  }

  lemma LoadedEarlier(items: seq<Thread>, limits: Limits, room: nat, k: nat)
    requires k < |items| - 1
    ensures IsLoaded(items, limits, room, k) <==> IsLoaded(items[..|items|-1], limits, room, k)
  {
    hide ReadsBack, Readable;
    assert items[..|items|-1][..k] == items[..k];
  }

  /** Item `k` is loaded, under this identifier. */
  predicate LoadsAs(items: seq<Thread>, limits: Limits, room: nat, k: int, id: nat) {
    IsLoaded(items, limits, room, k) && items[k].id == id
  }

  /** No later item is loaded under the same identifier. */
  ghost predicate LoadsLastAs(items: seq<Thread>, limits: Limits, room: nat, k: int, id: nat) {
    LoadsAs(items, limits, room, k, id) && forall j | j > k :: !LoadsAs(items, limits, room, j, id)
  }

  lemma LoadsAsSnoc(items: seq<Thread>, limits: Limits, room: nat, k: int, id: nat)
    requires items != []
    ensures LoadsAs(items, limits, room, k, id)
       <==> LoadsAs(Front(items), limits, room, k, id)
            || (k == |items| - 1 && IsLoaded(items, limits, room, k) && Last(items).id == id)
  {
    hide ReadsBack, Readable;
    if 0 <= k < |items| - 1 { LoadedEarlier(items, limits, room, k); }
  }

  /** The identifiers loaded are those of the loaded items. */
  lemma {:induction false} LoadedKeys(items: seq<Thread>, limits: Limits, room: nat, id: nat)
    ensures id in LoadFirst(items, limits, room) <==> exists k :: LoadsAs(items, limits, room, k, id)
  {
    if items != [] {
      hide ReadsBack, Readable, LoadFirst, LoadsAs;
      var before, n := Front(items), |items| - 1;
      assert items == before + [Last(items)];
      LoadFirstSnoc(before, Last(items), limits, room);
      LoadedKeys(before, limits, room, id);
      forall k ensures LoadsAs(items, limits, room, k, id)
          <==> LoadsAs(before, limits, room, k, id)
               || (k == n && IsLoaded(items, limits, room, n) && Last(items).id == id)
      {
        LoadsAsSnoc(items, limits, room, k, id);
      }
      hide IsLoaded;
      if id in LoadFirst(before, limits, room) {
        var k :| LoadsAs(before, limits, room, k, id);
        assert LoadsAs(items, limits, room, k, id);
      }
      assert LoadsAs(items, limits, room, n, id) <==>
        LoadsAs(before, limits, room, n, id) || (IsLoaded(items, limits, room, n) && Last(items).id == id);
    }
  }

  /** Of several items under one identifier the last stays. */
  lemma {:induction false} LoadedValue(items: seq<Thread>, limits: Limits, room: nat, k: int, id: nat)
    requires LoadsLastAs(items, limits, room, k, id)
    ensures id in LoadFirst(items, limits, room) && LoadFirst(items, limits, room)[id] == items[k].(running := false)
    decreases |items|
  {
    var before, n := Front(items), |items| - 1;
    assert items == before + [Last(items)];
    LoadFirstSnoc(before, Last(items), limits, room);
    LoadsAsSnoc(items, limits, room, n, id);
    assert 0 <= k <= n;
    if k < n {
      hide ReadsBack, Readable, LoadFirst, IsLoaded;
      forall j ensures LoadsAs(before, limits, room, j, id) ==> LoadsAs(items, limits, room, j, id) {
        LoadsAsSnoc(items, limits, room, j, id);
      }
      LoadsAsSnoc(items, limits, room, k, id);
      LoadedValue(before, limits, room, k, id);
    }
  }

  lemma LoadedAreItems(items: seq<Thread>, limits: Limits, room: nat)
    ensures forall k | IsLoaded(items, limits, room, k) :: 0 <= k < |items|
  {}

  predicate HasDistinctIds(items: seq<Thread>) {
    forall i, j | 0 <= i < j < |items| :: items[i].id != items[j].id
  }

  /** What was written comes back: of every file exactly the items that are readable and among the first to fit
      are loaded, as they were and idle; under one identifier the last of them. */
  lemma ReloadRestores(items: seq<Thread>, limits: Limits, id: nat)
    ensures var loaded, room := Load(items, limits), Room(items, limits);
            && (id in loaded <==> exists k :: LoadsAs(items, limits, room, k, id))
            && (forall k | LoadsLastAs(items, limits, room, k, id) ::
                  id in loaded && loaded[id] == items[k].(running := false))
  {
    hide ReadsBack, Readable, IsLoaded, Stored;
    var room := Room(items, limits);
    LoadedAreItems(items, limits, room);
    assert Load(items, limits) == LoadFirst(items, limits, room);
    LoadedKeys(items, limits, room, id);
    forall k | LoadsLastAs(items, limits, room, k, id)
      ensures id in LoadFirst(items, limits, room) && LoadFirst(items, limits, room)[id] == items[k].(running := false)
    {
      LoadedValue(items, limits, room, k, id);
    }
  }
}
