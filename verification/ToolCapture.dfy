/** Capture of tool rounds from an event stream: an action and the observation that answers it. */
module ToolCapture {
  import opened HistoryCaps
  import opened JsText

  /** Events as far as the capture looks at them; each belongs to a column. */
  datatype Event =
    | Action(column: string, tool: string, args: Args)
    | Observation(column: string, result: string)
    | Other

  const ARGS_MAX := 2_000
  const RESULT_MAX := 8_000
  const ELLIPSIS := "\U{2026}"

  /** Arguments too long to keep become a record of their beginning; `previewOf` serializes it. */
  function BoundedArgs(args: Args, previewOf: string -> string): (r: Args)
    ensures args.Record? || |args.text| > ARGS_MAX <==> r.Record?
  {
    if |args.text| <= ARGS_MAX then args else Record(previewOf(args.text[..ARGS_MAX]))
  }

  function Truncated(text: string, maxChars: nat): (r: string)
    requires maxChars >= 1
    ensures |r| <= maxChars && (|text| <= maxChars ==> r == text)
  {
    if |text| <= maxChars then text else text[..maxChars-1] + ELLIPSIS
  }

  function RoundOf(action: Event, observation: Event, previewOf: string -> string): ToolRound
    requires action.Action? && observation.Observation?
  {
    ToolRound(action.tool, BoundedArgs(action.args, previewOf), Truncated(observation.result, RESULT_MAX))
  }

  /** The action at `i` is the last one before `n`, and its column has observed nothing since. */
  predicate IsOpen(events: seq<Event>, i: int, n: int) {
    && 0 <= i < n <= |events| && events[i].Action?
    && forall k | i < k < n ::
         !events[k].Action? && !(events[k].Observation? && events[k].column == events[i].column)
  }

  /** The observation at `j` answers the action at `i`. */
  predicate IsRound(events: seq<Event>, i: int, j: int) {
    IsOpen(events, i, j) && j < |events| && events[j].Observation? && events[j].column == events[i].column
  }

  /** The pairs of positions are all rounds that end before `n`, in order. */
  ghost predicate AreRounds(pairs: seq<(nat, nat)>, events: seq<Event>, n: int) {
    && (forall k | 0 <= k < |pairs| :: pairs[k].1 < n && IsRound(events, pairs[k].0, pairs[k].1))
    && (forall k, l | 0 <= k < l < |pairs| :: pairs[k].1 <= pairs[l].0)
    && (forall i: nat, j: nat | j < n && IsRound(events, i, j) :: (i, j) in pairs)
  }

  /** What one more event leaves open. */
  predicate StaysOpen(events: seq<Event>, i: nat, n: nat)
    requires n < |events|
  {
    || (i == n && events[n].Action?)
    || (IsOpen(events, i, n) && !events[n].Action?
        && !(events[n].Observation? && events[n].column == events[i].column))
  }

  lemma OpenStep(events: seq<Event>, i: nat, n: nat)
    requires n < |events|
    ensures IsOpen(events, i, n + 1) <==> StaysOpen(events, i, n)
  {
    if IsOpen(events, i, n + 1) && i < n {
      assert IsOpen(events, i, n);
      assert i < n < n + 1;
    }
  }

  lemma RoundJoins(pairs: seq<(nat, nat)>, events: seq<Event>, i: nat, n: nat)
    requires AreRounds(pairs, events, n) && IsRound(events, i, n)
    requires forall h: nat | IsOpen(events, h, n) :: h == i
    requires pairs != [] ==> Last(pairs).1 <= i
    ensures AreRounds(pairs + [(i, n)], events, n + 1)
  {
    hide IsOpen;
    var more := pairs + [(i, n)];
    assert more[|pairs|] == (i, n);
    forall k | 0 <= k < |pairs| ensures pairs[k].1 <= i {
      assert k < |pairs| - 1 ==> pairs[k].1 <= Last(pairs).0 < Last(pairs).1 by { RoundAdvances(pairs, events, n); }
    }
    forall h: nat, j: nat | j < n + 1 && IsRound(events, h, j) ensures (h, j) in more {
      if j < n { assert (h, j) in pairs; }
    }
  }

  lemma RoundAdvances(pairs: seq<(nat, nat)>, events: seq<Event>, n: int)
    requires AreRounds(pairs, events, n)
    ensures forall k | 0 <= k < |pairs| :: pairs[k].0 < pairs[k].1
  {}

  lemma NoRoundJoins(pairs: seq<(nat, nat)>, events: seq<Event>, n: nat)
    requires AreRounds(pairs, events, n) && forall h: nat :: !IsRound(events, h, n)
    ensures AreRounds(pairs, events, n + 1)
  {
    hide IsRound;
  }

  /** Each round is made of the two events its pair names. */
  ghost predicate Captures(rounds: seq<ToolRound>, pairs: seq<(nat, nat)>, events: seq<Event>,
        previewOf: string -> string) {
    && |rounds| == |pairs|
    && forall k | 0 <= k < |rounds| ::
         && IsRound(events, pairs[k].0, pairs[k].1)
         && rounds[k] == RoundOf(events[pairs[k].0], events[pairs[k].1], previewOf)
  }

  lemma NothingRead(events: seq<Event>, previewOf: string -> string)
    ensures AreRounds([], events, 0) && Captures([], [], events, previewOf)
    ensures forall i: nat :: !IsOpen(events, i, 0)
  {}

  lemma CapturesMore(rounds: seq<ToolRound>, pairs: seq<(nat, nat)>, events: seq<Event>, previewOf: string -> string,
        i: nat, n: nat)
    requires Captures(rounds, pairs, events, previewOf) && IsRound(events, i, n)
    ensures Captures(rounds + [RoundOf(events[i], events[n], previewOf)], pairs + [(i, n)], events, previewOf)
  {
    hide RoundOf;
  }

  /** One pass with one slot for the action waiting for its observation. */
  method ExtractToolRounds(events: seq<Event>, previewOf: string -> string)
    returns (rounds: seq<ToolRound>, ghost pairs: seq<(nat, nat)>)
    ensures AreRounds(pairs, events, |events|) && Captures(rounds, pairs, events, previewOf)
  {
    hide AreRounds, IsOpen, Captures, RoundOf;
    NothingRead(events, previewOf);
    rounds, pairs := [], [];
    var pending: Option<Event> := None;
    ghost var at: nat := 0;
    for n := 0 to |events|
      invariant AreRounds(pairs, events, n) && Captures(rounds, pairs, events, previewOf)
      invariant pending.Some? ==> at < n && events[at] == pending.value && pending.value.Action?
      invariant pending.Some? ==> IsOpen(events, at, n)
      invariant pending.Some? && pairs != [] ==> Last(pairs).1 <= at
      invariant pairs != [] ==> Last(pairs).1 < n
      invariant forall i: nat | IsOpen(events, i, n) :: pending.Some? && i == at
    {
      var event := events[n];
      ghost var next := n + 1;
      forall i: nat ensures IsOpen(events, i, next) <==> StaysOpen(events, i, n) { OpenStep(events, i, n); }
      if event.Action? {
        NoRoundJoins(pairs, events, n);
        pending, at := Some(event), n;
      } else if event.Observation? && pending.Some? && pending.value.column == event.column {
        RoundJoins(pairs, events, at, n);
        CapturesMore(rounds, pairs, events, previewOf, at, n);
        rounds, pairs := rounds + [RoundOf(pending.value, event, previewOf)], pairs + [(at, n)];
        pending := None;
      } else {
        NoRoundJoins(pairs, events, n);
      }
    }
  }

  /** A captured round is its action's tool and arguments, those over 2,000 characters as a record of their beginning,
      and its observation's result, over 8,000 characters cut to that with an ellipsis at its end. */
  lemma RoundSays(rounds: seq<ToolRound>, pairs: seq<(nat, nat)>, events: seq<Event>, previewOf: string -> string,
        k: nat)
    requires Captures(rounds, pairs, events, previewOf) && k < |rounds|
    ensures var (i, j) := pairs[k];
            && i < j < |events| && events[i].Action? && events[j].Observation? && events[i].column == events[j].column
            && rounds[k].tool == events[i].tool
            && rounds[k].args == (if |events[i].args.text| > 2_000 then Record(previewOf(events[i].args.text[..2_000]))
                                  else events[i].args)
            && rounds[k].result == if |events[j].result| > 8_000 then events[j].result[..7_999] + "\U{2026}"
                                   else events[j].result
  {
    assert IsRound(events, pairs[k].0, pairs[k].1);
    RoundStart(events, pairs[k].0, pairs[k].1);
    hide IsOpen;
  }

  // ----- what the stored rounds need -----

  /** An action whose round the schema of stored rounds accepts. */
  predicate NamesItsTool(event: Event) {
    event.Action? && event.tool != "" && (event.args.Record? || |event.args.text| > ARGS_MAX)
  }

  /** Of the captured rounds those that are kept are readable exactly when their actions name their tools and have
      a record of arguments, or arguments long enough to be made one. */
  lemma KeptReadableExactly(rounds: seq<ToolRound>, pairs: seq<(nat, nat)>, events: seq<Event>,
        previewOf: string -> string, kept: seq<ToolRound>)
    requires Captures(rounds, pairs, events, previewOf) && IsClamped(rounds, kept)
    ensures AreReadableRounds(kept)
       <==> forall k | |pairs| - |kept| <= k < |pairs| :: pairs[k].0 < |events| && NamesItsTool(events[pairs[k].0])
  {
    var from := |rounds| - |kept|;
    hide FitsWire, Truncated, IsOpen;
    forall k | from <= k < |rounds|
      ensures kept[k-from] == rounds[k] && pairs[k].0 < |events|
      ensures IsReadableRound(rounds[k]) <==> NamesItsTool(events[pairs[k].0])
    {
      assert IsRound(events, pairs[k].0, pairs[k].1);
      RoundStart(events, pairs[k].0, pairs[k].1);
    }
    if AreReadableRounds(kept) {
      forall k | |pairs| - |kept| <= k < |pairs| ensures NamesItsTool(events[pairs[k].0]) {
        assert IsReadableRound(kept[k-from]);
      }
    }
    if forall k | |pairs| - |kept| <= k < |pairs| :: NamesItsTool(events[pairs[k].0]) {
      forall h | 0 <= h < |kept| ensures IsReadableRound(kept[h]) {
        assert kept[h] == rounds[from + h];
      }
    }
  }

  lemma RoundStart(events: seq<Event>, i: nat, j: nat)
    requires IsRound(events, i, j)
    ensures i < j < |events| && events[i].Action? && events[j].Observation?
  {}

  /** So a turn whose every answered action names its tool stores readable rounds only. */
  lemma NamedActionsStoreReadably(rounds: seq<ToolRound>, pairs: seq<(nat, nat)>, events: seq<Event>,
        previewOf: string -> string, kept: seq<ToolRound>)
    requires Captures(rounds, pairs, events, previewOf) && IsClamped(rounds, kept)
    requires forall i: nat | i < |events| && events[i].Action? :: NamesItsTool(events[i])
    ensures AreReadableRounds(kept)
  {
    hide FitsWire, NamesItsTool, IsOpen;
    KeptReadableExactly(rounds, pairs, events, previewOf, kept);
    forall k | 0 <= k < |pairs| ensures pairs[k].0 < |events| && NamesItsTool(events[pairs[k].0]) {
      RoundStart(events, pairs[k].0, pairs[k].1);
    }
  }

  // ----- interleaved columns -----

  /** The first observation behind an action in its own column. */
  predicate IsNextObservation(events: seq<Event>, i: nat, j: nat) {
    && i < j < |events| && events[i].Action?
    && events[j].Observation? && events[j].column == events[i].column
    && forall k | i < k < j :: !(events[k].Observation? && events[k].column == events[i].column)
  }

  /** An action has its round exactly when no action, of whatever column, comes before its next observation. */
  lemma RoundIsNextObservation(events: seq<Event>, i: nat, j: nat)
    ensures IsRound(events, i, j)
       <==> IsNextObservation(events, i, j) && forall k | i < k < j :: !events[k].Action?
  {}

  /** Two columns acting before either observes: no round joins them, but the first one's round is lost. */
  lemma InterleavedColumnsLoseRounds(pairs: seq<(nat, nat)>)
    ensures var events := [Action("a", "x", Record("{}")), Action("b", "y", Record("{}")),
                           Observation("a", "1"), Observation("b", "2")];
            && IsNextObservation(events, 0, 2) && IsNextObservation(events, 1, 3)
            && (AreRounds(pairs, events, 4) ==> forall pair :: pair in pairs <==> pair == (1, 3))
  {
    var events := [Action("a", "x", Record("{}")), Action("b", "y", Record("{}")),
                   Observation("a", "1"), Observation("b", "2")];
    forall i: nat, j: nat ensures IsRound(events, i, j) <==> i == 1 && j == 3 {
      RoundIsNextObservation(events, i, j);
      assert events[1].Action?;
    }
    if AreRounds(pairs, events, 4) {
      hide IsRound;
      assert IsRound(events, 1, 3);
    }
  }
}
