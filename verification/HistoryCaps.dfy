/** Trimming of stored transcripts and clamping of captured tool rounds. */
module HistoryCaps {

  /** The arguments of a call in their serialized form; a model may send something else than a record of them. */
  datatype Args = Record(text: string) | OtherValue(text: string)

  datatype ToolRound = ToolRound(tool: string, args: Args, result: string)

  datatype Role = User | Assistant

  datatype Message = Message(role: Role, content: string, rounds: seq<ToolRound>)

  datatype Caps = Caps(maxMessages: int, maxChars: int)

  const MAX_ROUNDS: nat := 64
  const MAX_ROUNDS_CHARS: nat := 32_000

  /** What the schema of a captured round demands. */
  predicate IsReadableRound(round: ToolRound) {
    round.tool != "" && round.args.Record?
  }

  predicate AreReadableRounds(rounds: seq<ToolRound>) {
    forall k | 0 <= k < |rounds| :: IsReadableRound(rounds[k])
  }

  function RoundChars(round: ToolRound): nat {
    |round.tool| + |round.args.text| + |round.result|
  }

  function RoundsChars(rounds: seq<ToolRound>): nat {
    if rounds == [] then 0 else RoundChars(rounds[0]) + RoundsChars(rounds[1..])
  }

  function Weight(m: Message): nat {
    |m.content| + RoundsChars(m.rounds)
  }

  function Total(history: seq<Message>): nat {
    if history == [] then 0 else Weight(history[0]) + Total(history[1..])
  }

  lemma {:induction false} TotalConcat(a: seq<Message>, b: seq<Message>)
    ensures Total(a + b) == Total(a) + Total(b)
  {
    hide Weight;
    if a == [] {
      assert a + b == b;
    } else {
      TotalConcat(a[1..], b);
      assert (a + b)[1..] == a[1..] + b;
    }
  }

  lemma {:induction false} RoundsCharsConcat(a: seq<ToolRound>, b: seq<ToolRound>)
    ensures RoundsChars(a + b) == RoundsChars(a) + RoundsChars(b)
  {
    if a == [] {
      assert a + b == b;
    } else {
      RoundsCharsConcat(a[1..], b);
      assert (a + b)[1..] == a[1..] + b;
    }
  }

  /** All that rounds hold, one text behind the other. */
  ghost function RoundsText(rounds: seq<ToolRound>): string {
    if rounds == [] then "" else rounds[0].tool + rounds[0].args.text + rounds[0].result + RoundsText(rounds[1..])
  }

  ghost function HistoryText(history: seq<Message>): string {
    if history == [] then "" else history[0].content + RoundsText(history[0].rounds) + HistoryText(history[1..])
  }

  /** What is counted are the characters of all that is kept. */
  lemma {:induction false} RoundsCharsCountText(rounds: seq<ToolRound>)
    ensures RoundsChars(rounds) == |RoundsText(rounds)|
  {
    if rounds != [] { RoundsCharsCountText(rounds[1..]); }
  }

  lemma {:induction false} TotalCountsText(history: seq<Message>)
    ensures Total(history) == |HistoryText(history)|
  {
    if history != [] {
      RoundsCharsCountText(history[0].rounds);
      TotalCountsText(history[1..]);
      hide RoundsText, RoundsChars;
    }
  }

  // ----- trimming a transcript -----

  predicate WithinCaps(history: seq<Message>, caps: Caps) {
    |history| <= caps.maxMessages && Total(history) <= caps.maxChars
  }

  /** `slice` past the end of the transcript is empty. */
  function From(history: seq<Message>, start: nat): seq<Message> {
    if start <= |history| then history[start..] else []
  }

  /** Where trimming stops: it drops whole pairs and gives up on an empty transcript. */
  predicate Stops(history: seq<Message>, caps: Caps, start: nat) {
    start % 2 == 0 && (start >= |history| || WithinCaps(history[start..], caps))
  }

  /** The first stop. */
  function FirstStop(history: seq<Message>, caps: Caps, start: nat := 0): (r: nat)
    requires start % 2 == 0 && start <= |history| + 1
    ensures start <= r <= |history| + 1 && Stops(history, caps, r)
    ensures forall k: nat | start <= k < r :: !Stops(history, caps, k)
    decreases |history| - start
  {
    if Stops(history, caps, start) then start
    else FirstStop(history, caps, start + 2)
  }

  function Trimmed(history: seq<Message>, caps: Caps): seq<Message> {
    From(history, FirstStop(history, caps))
  }

  method TrimHistoryToCaps(history: seq<Message>, caps: Caps) returns (trimmed: seq<Message>)
    ensures trimmed == Trimmed(history, caps)
  {
    hide Weight;
    var total := SumWeights(history);
    var start: nat := 0;
    assert history[0..] == history;
    while |history| - start > 0 && (|history| - start > caps.maxMessages || total > caps.maxChars)
      invariant start % 2 == 0 && start <= |history| + 1
      invariant total == Total(From(history, start))
      invariant FirstStop(history, caps) == FirstStop(history, caps, start)
      decreases |history| - start
    {
      DropPair(history, start);
      var first := Weight(history[start]);
      var second := if start + 1 < |history| then Weight(history[start + 1]) else 0;
      total := total - (first + second);
      start := start + 2;
    }
    return From(history, start);
  }

  lemma DropPair(history: seq<Message>, start: nat)
    requires start < |history|
    ensures Total(From(history, start)) == Weight(history[start])
      + (if start + 1 < |history| then Weight(history[start + 1]) else 0) + Total(From(history, start + 2))
  {
    hide Weight;
    var rest := history[start..];
    assert rest[1..] == history[start + 1..];
    if start + 1 < |history| {
      assert rest[1..][1..] == history[start + 2..];
    } else {
      assert rest[1..] == [];
    }
  }

  method SumWeights(history: seq<Message>) returns (total: nat)
    ensures total == Total(history)
  {
    total := 0;
    for i := 0 to |history|
      invariant total == Total(history[..i])
    {
      assert history[..i+1] == history[..i] + [history[i]];
      TotalConcat(history[..i], [history[i]]);
      assert [history[i]][1..] == [];
      total := total + Weight(history[i]);
    }
    assert history[..|history|] == history;
  }

  /** The result is the longest suffix at an even offset that meets both caps, or empty when none does. */
  lemma TrimIsLongest(history: seq<Message>, caps: Caps, k: nat)
    requires k % 2 == 0 && k <= |history| && WithinCaps(history[k..], caps)
    ensures WithinCaps(Trimmed(history, caps), caps) || Trimmed(history, caps) == []
    ensures |Trimmed(history, caps)| >= |history| - k
    ensures Trimmed(history, caps) == history[|history|-|Trimmed(history, caps)|..]
        && |Trimmed(history, caps)| % 2 == |history| % 2
  {
    var n := FirstStop(history, caps);
    assert Stops(history, caps, k);
    assert Trimmed(history, caps) == history[n..];
  }

  /** A user message first, then answers and questions in turn; no question without its answer. */
  predicate IsTranscript(history: seq<Message>) {
    && |history| % 2 == 0
    && forall k | 0 <= k < |history| :: history[k].role == if k % 2 == 0 then User else Assistant
  }

  lemma TrimKeepsTranscript(history: seq<Message>, caps: Caps)
    requires IsTranscript(history)
    ensures IsTranscript(Trimmed(history, caps))
    ensures Trimmed(history, caps) == [] || WithinCaps(Trimmed(history, caps), caps)
  {
    hide WithinCaps;
    var n := FirstStop(history, caps);
    if n <= |history| {
      var kept := history[n..];
      forall k | 0 <= k < |kept| ensures kept[k].role == if k % 2 == 0 then User else Assistant {
        assert kept[k] == history[n + k] && (n + k) % 2 == k % 2;
      }
    }
  }

  lemma TotalOfPair(u: Message, a: Message)
    ensures Total([u, a]) == Weight(u) + Weight(a)
  {
    hide Weight;
    assert [u, a][1..] == [a] && [a][1..] == [];
    assert Total([a]) == Weight(a);
  }

  /** The caps leave room for these two messages alone. */
  predicate PairFits(u: Message, a: Message, caps: Caps) {
    caps.maxMessages >= 2 && Weight(u) + Weight(a) <= caps.maxChars
  }

  predicate EndsWith(history: seq<Message>, u: Message, a: Message) {
    |history| >= 2 && history[|history|-2..] == [u, a]
  }

  /** Whatever was kept of an even transcript and is not empty ends as the transcript ends. */
  lemma KeptEndsAlike(history: seq<Message>, u: Message, a: Message, caps: Caps)
    requires |history| % 2 == 0
    ensures var kept := Trimmed(history + [u, a], caps);
            kept != [] ==> WithinCaps(kept, caps) && EndsWith(kept, u, a)
  {
    hide WithinCaps;
    var all, n := history + [u, a], FirstStop(history + [u, a], caps);
    if n < |all| {
      assert n <= |history|;
      assert all[n..] == history[n..] + [u, a];
    }
  }

  lemma EndWeighs(kept: seq<Message>, u: Message, a: Message)
    requires EndsWith(kept, u, a)
    ensures Weight(u) + Weight(a) <= Total(kept)
  {
    hide Weight;
    assert kept == kept[..|kept|-2] + [u, a];
    TotalConcat(kept[..|kept|-2], [u, a]);
    TotalOfPair(u, a);
  }

  /** A pair just appended survives exactly when the caps leave room for it; otherwise nothing is left. */
  lemma NewestPairSurvives(history: seq<Message>, u: Message, a: Message, caps: Caps)
    requires |history| % 2 == 0
    ensures EndsWith(Trimmed(history + [u, a], caps), u, a) <==> PairFits(u, a, caps)
    ensures !PairFits(u, a, caps) ==> Trimmed(history + [u, a], caps) == []
  {
    var all := history + [u, a];
    assert all[|history|..] == [u, a];
    TotalOfPair(u, a);
    hide Weight, Total, Trimmed;
    KeptEndsAlike(history, u, a, caps);
    var kept := Trimmed(all, caps);
    if kept != [] { EndWeighs(kept, u, a); }
    if PairFits(u, a, caps) { TrimIsLongest(all, caps, |history|); }
  }

  // ----- clamping tool rounds -----

  predicate FitsWire(rounds: seq<ToolRound>) {
    |rounds| <= MAX_ROUNDS && RoundsChars(rounds) <= MAX_ROUNDS_CHARS
  }

  lemma FitsWireExactly(rounds: seq<ToolRound>)
    ensures FitsWire(rounds) <==> |rounds| <= 64 && |RoundsText(rounds)| <= 32_000
  {
    RoundsCharsCountText(rounds);
  }

  predicate SuffixFits(rounds: seq<ToolRound>, n: nat) {
    n <= |rounds| && FitsWire(rounds[|rounds|-n..])
  }

  /** The longest suffix that fits the wire. */
  ghost predicate IsClamped(rounds: seq<ToolRound>, kept: seq<ToolRound>) {
    && |kept| <= |rounds| && kept == rounds[|rounds|-|kept|..] && FitsWire(kept)
    && forall n: nat | |kept| < n :: !SuffixFits(rounds, n)
  }

  lemma ClampIsUnique(rounds: seq<ToolRound>, x: seq<ToolRound>, y: seq<ToolRound>)
    requires IsClamped(rounds, x) && IsClamped(rounds, y)
    ensures x == y
  {
    assert SuffixFits(rounds, |x|) && SuffixFits(rounds, |y|);
    hide FitsWire;
  }

  /** Once a suffix is over the caps, so is every longer one. */
  lemma LongerSuffixIsHeavier(rounds: seq<ToolRound>, m: nat, n: nat)
    requires m <= n && m <= |rounds| && !SuffixFits(rounds, m)
    ensures !SuffixFits(rounds, n)
  {
    if n <= |rounds| {
      var longer, shorter := rounds[|rounds|-n..], rounds[|rounds|-m..];
      assert longer == longer[..n-m] + shorter;
      RoundsCharsConcat(longer[..n-m], shorter);
    }
  }

  method ClampToolRoundsForWire(rounds: seq<ToolRound>) returns (kept: seq<ToolRound>)
    ensures IsClamped(rounds, kept)
  {
    kept := [];
    var total: nat := 0;
    var i := |rounds|;
    while i > 0 && |kept| < MAX_ROUNDS
      invariant 0 <= i <= |rounds| && kept == rounds[i..]
      invariant total == RoundsChars(kept) && FitsWire(kept)
    {
      var round := rounds[i-1];
      var size := RoundChars(round);
      assert rounds[i-1..] == [round] + rounds[i..];
      assert ([round] + kept)[1..] == kept;
      assert RoundsChars(rounds[i-1..]) == size + total;
      if size > MAX_ROUNDS_CHARS || total + size > MAX_ROUNDS_CHARS { break; }
      kept := [round] + kept;
      total := total + size;
      i := i - 1;
    }
    hide RoundsChars;
    forall n: nat | |kept| < n ensures !SuffixFits(rounds, n) {
      if i > 0 {
        assert rounds[|rounds|-(|kept|+1)..] == rounds[i-1..];
        LongerSuffixIsHeavier(rounds, |kept| + 1, n);
      }
    }
  }
}
