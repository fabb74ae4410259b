/** Choice of the frame span that context compaction condenses. */
module SpanSelection {
  import opened JsText

  /** A number of the host language, rounding aside; `Finite(0.0)` is the positive zero. */
  datatype Number = Finite(value: real) | MinusZero | PlusInfinity | MinusInfinity | NotANumber

  datatype Role = System | User | Assistant | Tool

  datatype Frame = Frame(id: string, role: Role, text: string, weight: Number, compactable: bool)

  datatype Span = Span(start: nat, end: nat, tokens: Number, ids: seq<string>)

  // ----- numbers -----

  function ValueOf(x: Number): real {
    if x.Finite? then x.value else 0.0
  }

  predicate Less(a: Number, b: Number) {
    && !a.NotANumber? && !b.NotANumber?
    && (if a.MinusInfinity? then !b.MinusInfinity?
        else if b.PlusInfinity? then !a.PlusInfinity?
        else !a.PlusInfinity? && !b.MinusInfinity? && ValueOf(a) < ValueOf(b))
  }

  function Plus(a: Number, b: Number): Number {
    if a.NotANumber? || b.NotANumber? then NotANumber
    else if a.PlusInfinity? || b.PlusInfinity? then
      if a.MinusInfinity? || b.MinusInfinity? then NotANumber else PlusInfinity
    else if a.MinusInfinity? || b.MinusInfinity? then MinusInfinity
    else Finite(ValueOf(a) + ValueOf(b))
  }

  // ----- metering -----

  function Ceil(x: real): (r: int)
    ensures x <= r as real < x + 1.0
  {
    -((-x).Floor)
  }

  /** At least 1; a divisor of zero leaves no number for an empty text, and no bound for any other. */
  function EstimateTokens(text: string, charsPerToken: Number): (r: Number)
    ensures r.Finite? ==> r.value >= 1.0
    ensures r.Finite? || r.PlusInfinity? || r.NotANumber?
    ensures charsPerToken.Finite? && charsPerToken.value != 0.0 ==> r.Finite?
    ensures charsPerToken.Finite? && charsPerToken.value > 0.0 && text != "" ==>
      |text| as real <= r.value * charsPerToken.value < |text| as real + charsPerToken.value
  {
    match charsPerToken
    case Finite(divisor) =>
      if divisor != 0.0 then
        var estimate := Ceil(|text| as real / divisor);
        QuotientBounds(|text| as real, divisor, estimate as real);
        var tokens := Max(1, estimate);
        assert divisor > 0.0 && text != "" ==> tokens == estimate && tokens as real == estimate as real;
        Finite(tokens as real)
      else if text == "" then NotANumber
      else PlusInfinity
    case MinusZero => if text == "" then NotANumber else Finite(1.0)
    case NotANumber => NotANumber
    case _ => Finite(1.0)
  }

  lemma QuotientBounds(x: real, divisor: real, estimate: real)
    requires divisor != 0.0 && x / divisor <= estimate < x / divisor + 1.0
    ensures divisor > 0.0 ==> x <= estimate * divisor < x + divisor
    ensures divisor > 0.0 && x > 0.0 ==> estimate > 0.0
  {
    var quotient, excess := x / divisor, estimate - x / divisor;
    assert quotient * divisor == x;
    if divisor > 0.0 {
      assert excess * divisor >= 0.0;
      assert (1.0 - excess) * divisor > 0.0;
      assert (1.0 - excess) * divisor == divisor - excess * divisor;
      assert estimate == quotient + excess;
      assert estimate * divisor == quotient * divisor + excess * divisor;
      assert estimate * divisor == x + excess * divisor < x + divisor;
      if x > 0.0 { PositiveFactor(estimate, divisor); }
    }
  }

  lemma PositiveFactor(a: real, b: real)
    requires b > 0.0 && a * b > 0.0
    ensures a > 0.0
  {}

  const FRAME_OVERHEAD := 4.0

  function FrameTokens(frame: Frame, charsPerToken: Number): (r: Number)
    ensures r.Finite? ==> r.value > FRAME_OVERHEAD
    ensures r.Finite? || r.PlusInfinity? || r.NotANumber?
    ensures charsPerToken.Finite? && charsPerToken.value != 0.0 ==> r.Finite?
  {
    Plus(EstimateTokens(frame.text, charsPerToken), Finite(FRAME_OVERHEAD))
  }

  function FrameWeight(frame: Frame): (r: real)
    ensures r >= 0.0
  {
    if frame.weight.Finite? && frame.weight.value > 0.0 then frame.weight.value else 0.0
  }

  function Tokens(frames: seq<Frame>, charsPerToken: Number): (r: Number)
    ensures r.Finite? || r.PlusInfinity? || r.NotANumber?
    ensures charsPerToken.Finite? && charsPerToken.value != 0.0 ==> r.Finite?
  {
    if frames == [] then Finite(0.0)
    else Plus(Tokens(frames[..|frames|-1], charsPerToken), FrameTokens(frames[|frames|-1], charsPerToken))
  }

  function WeightOf(frames: seq<Frame>): (r: real)
    ensures r >= 0.0
  {
    if frames == [] then 0.0
    else WeightOf(frames[..|frames|-1]) + FrameWeight(frames[|frames|-1])
  }

  function Ids(frames: seq<Frame>): (r: seq<string>)
    ensures |r| == |frames| && forall k | 0 <= k < |frames| :: r[k] == frames[k].id
  {
    seq(|frames|, k requires 0 <= k < |frames| => frames[k].id)
  }

  // ----- pair safety -----

  /** `requester` is the nearest frame before the tool frame `t` that is not itself a tool frame. */
  ghost predicate Requests(frames: seq<Frame>, requester: nat, t: nat) {
    && requester < t < |frames|
    && frames[t].role == Tool && frames[requester].role != Tool
    && forall k | requester < k < t :: frames[k].role == Tool
  }

  ghost predicate Orphan(frames: seq<Frame>, t: nat) {
    t < |frames| && forall k | 0 <= k <= t :: frames[k].role == Tool
  }

  /** Cutting start..end keeps every tool result on the side of its requester and takes no orphan. */
  ghost predicate PairSafe(frames: seq<Frame>, start: nat, end: nat) {
    && (forall r: nat, t: nat :: Requests(frames, r, t) ==> (start <= r <= end <==> start <= t <= end))
    && (forall t: nat :: Orphan(frames, t) ==> !(start <= t <= end))
  }

  /** The two boundary tests the search performs. */
  predicate BoundariesOk(frames: seq<Frame>, start: nat, end: nat)
    requires start <= end < |frames|
  {
    frames[start].role != Tool && (end + 1 < |frames| ==> frames[end+1].role != Tool)
  }

  lemma {:induction false} RequesterExists(frames: seq<Frame>, t: nat) returns (r: nat)
    requires t < |frames| && frames[t].role == Tool && !Orphan(frames, t)
    ensures Requests(frames, r, t)
  {
    r := t - 1;
    while frames[r].role == Tool
      invariant r < t
      invariant forall k | r < k <= t :: frames[k].role == Tool
      decreases r
    {
      assert r == 0 ==> Orphan(frames, t);
      r := r - 1;
    }
  }

  /** The boundary tests are exactly pair safety. */
  lemma BoundariesArePairSafety(frames: seq<Frame>, start: nat, end: nat)
    requires start <= end < |frames|
    ensures BoundariesOk(frames, start, end) <==> PairSafe(frames, start, end)
  {
    if BoundariesOk(frames, start, end) {
      forall r: nat, t: nat | Requests(frames, r, t)
        ensures start <= r <= end <==> start <= t <= end
      {}
    } else if frames[start].role == Tool {
      if !Orphan(frames, start) {
        var r := RequesterExists(frames, start);
        assert !(start <= r);
      }
    } else {
      assert !Orphan(frames, end+1);
      var r := RequesterExists(frames, end+1);
      assert start <= r;
    }
  }

  // ----- candidates and their order -----

  ghost predicate Qualifies(frames: seq<Frame>, charsPerToken: Number, target: Number, start: nat, end: nat)
  {
    && start <= end < |frames|
    && (forall k | start <= k <= end :: frames[k].compactable)
    && PairSafe(frames, start, end)
    && !Less(Tokens(frames[start..end+1], charsPerToken), target)
  }

  /** Lighter first, then older, then shorter. */
  predicate Precedes(w1: real, start1: nat, end1: nat, w2: real, start2: nat, end2: nat) {
    if w1 != w2 then w1 < w2
    else if start1 != start2 then start1 < start2
    else end1 < end2
  }

  /** The program compares tokens rather than lengths last. */
  predicate IsBetterSpan(candidate: Span, candidateWeight: real, best: Span, bestWeight: real) {
    if candidateWeight != bestWeight then candidateWeight < bestWeight
    else if candidate.start != best.start then candidate.start < best.start
    else Less(candidate.tokens, best.tokens)
  }

  /** `span` describes the frames it names. */
  predicate Describes(span: Span, frames: seq<Frame>, charsPerToken: Number)
  {
    && span.start <= span.end < |frames|
    && span.tokens == Tokens(frames[span.start..span.end+1], charsPerToken)
    && span.ids == Ids(frames[span.start..span.end+1])
  }

  ghost predicate Beats(span: Span, frames: seq<Frame>, charsPerToken: Number, start: nat, end: nat)
    requires Describes(span, frames, charsPerToken) && start <= end < |frames|
  {
    Precedes(WeightOf(frames[span.start..span.end+1]), span.start, span.end, WeightOf(frames[start..end+1]), start, end)
  }

  /** What adding up frames can give. */
  predicate IsTally(x: Number) {
    x.Finite? || x.PlusInfinity? || x.NotANumber?
  }

  predicate AtLeast(a: Number, b: Number) {
    a.NotANumber? || (a.PlusInfinity? && !b.NotANumber?) || (a.Finite? && b.Finite? && a.value >= b.value)
  }

  lemma PlusGrows(a: Number, b: Number, more: Number)
    requires IsTally(a) && IsTally(b) && IsTally(more) && (more.Finite? ==> more.value > 0.0)
    requires AtLeast(a, b)
    ensures AtLeast(Plus(a, more), b) && !Less(Plus(a, more), b)
    ensures Plus(a, more).Finite? ==> Less(b, Plus(a, more))
  {}

  lemma TokensSnoc(frames: seq<Frame>, charsPerToken: Number, start: nat, end: nat)
    requires start <= end < |frames|
    ensures Tokens(frames[start..end+1], charsPerToken)
         == Plus(Tokens(frames[start..end], charsPerToken), FrameTokens(frames[end], charsPerToken))
  {
    hide Plus, FrameTokens;
    var whole := frames[start..end+1];
    assert whole[..|whole|-1] == frames[start..end] && whole[|whole|-1] == frames[end];
  }

  /** A longer span from the same start costs strictly more tokens wherever tokens are numbers at all, and under no
      divisor fewer. */
  lemma {:induction false} TokensGrow(frames: seq<Frame>, charsPerToken: Number, start: nat, end: nat, longer: nat)
    requires start <= end < longer < |frames|
    ensures var short := Tokens(frames[start..end+1], charsPerToken);
            var long := Tokens(frames[start..longer+1], charsPerToken);
            && AtLeast(long, short) && !Less(long, short)
            && (long.Finite? ==> Less(short, long))
            && (charsPerToken.Finite? && charsPerToken.value != 0.0 ==> long.Finite?)
  {
    hide FrameTokens, Plus, Less, Tokens;
    var short := Tokens(frames[start..end+1], charsPerToken);
    TokensSnoc(frames, charsPerToken, start, longer);
    if end + 1 < longer { TokensGrow(frames, charsPerToken, start, end, longer - 1); }
    PlusGrows(Tokens(frames[start..longer], charsPerToken), short, FrameTokens(frames[longer], charsPerToken));
  }

  /** The totals kept while the span grows from `start` up to, not including, `end`. */
  ghost predicate Totals(frames: seq<Frame>, charsPerToken: Number, start: nat, end: nat, tokens: Number, weight: real,
        ids: seq<string>)
    requires start <= end <= |frames|
  {
    && (forall k | start <= k < end :: frames[k].compactable)
    && tokens == Tokens(frames[start..end], charsPerToken)
    && weight == WeightOf(frames[start..end])
    && ids == Ids(frames[start..end])
  }

  lemma ExtendTotals(frames: seq<Frame>, charsPerToken: Number, start: nat, end: nat, tokens: Number, weight: real,
        ids: seq<string>)
    requires start <= end < |frames| && frames[end].compactable
    requires Totals(frames, charsPerToken, start, end, tokens, weight, ids)
    ensures Totals(frames, charsPerToken, start, end + 1,
              Plus(tokens, FrameTokens(frames[end], charsPerToken)), weight + FrameWeight(frames[end]),
              ids + [frames[end].id])
  {
    var whole := frames[start..end+1];
    assert whole[..|whole|-1] == frames[start..end];
  }

  lemma NothingCounted(frames: seq<Frame>, charsPerToken: Number, start: nat)
    requires start <= |frames|
    ensures Totals(frames, charsPerToken, start, start, Finite(0.0), 0.0, [])
  {}

  // ----- the search -----

  /** Every span visited so far: all starts before `start`, and ends before `end` at `start`. */
  predicate Visited(start: nat, end: nat, s: nat, e: nat) {
    s < start || (s == start && e < end)
  }

  /** `best` is the strict minimum over the qualifying spans visited so far. */
  ghost predicate BestSoFar(best: Option<Span>, frames: seq<Frame>, charsPerToken: Number, target: Number, start: nat,
        end: nat)
  {
    match best
    case None =>
      forall s, e | Visited(start, end, s, e) :: !Qualifies(frames, charsPerToken, target, s, e)
    case Some(span) =>
      && Describes(span, frames, charsPerToken)
      && Visited(start, end, span.start, span.end)
      && Qualifies(frames, charsPerToken, target, span.start, span.end)
      && forall s, e | Visited(start, end, s, e) && Qualifies(frames, charsPerToken, target, s, e) ::
           (s == span.start && e == span.end) || Beats(span, frames, charsPerToken, s, e)
  }

  /** The answer the search must give. */
  ghost predicate IsBestSpan(best: Option<Span>, frames: seq<Frame>, charsPerToken: Number, target: Number)
  {
    match best
    case None => forall s, e :: !Qualifies(frames, charsPerToken, target, s, e)
    case Some(span) =>
      && Describes(span, frames, charsPerToken)
      && Qualifies(frames, charsPerToken, target, span.start, span.end)
      && forall s, e | Qualifies(frames, charsPerToken, target, s, e) ::
           (s == span.start && e == span.end) || Beats(span, frames, charsPerToken, s, e)
  }

  lemma SkipStep(best: Option<Span>, frames: seq<Frame>, charsPerToken: Number, target: Number, start: nat, end: nat)
    requires start <= end
    requires BestSoFar(best, frames, charsPerToken, target, start, end)
    requires !Qualifies(frames, charsPerToken, target, start, end)
    ensures BestSoFar(best, frames, charsPerToken, target, start, end + 1)
  {
    forall s, e | Visited(start, end + 1, s, e) && Qualifies(frames, charsPerToken, target, s, e)
      ensures Visited(start, end, s, e)
    {}
  }

  lemma SkipStart(best: Option<Span>, frames: seq<Frame>, charsPerToken: Number, target: Number, start: nat, end: nat)
    requires BestSoFar(best, frames, charsPerToken, target, start, end)
    requires forall e | end <= e :: !Qualifies(frames, charsPerToken, target, start, e)
    ensures BestSoFar(best, frames, charsPerToken, target, start + 1, start + 1)
  {
    forall s, e | Visited(start + 1, start + 1, s, e) && Qualifies(frames, charsPerToken, target, s, e)
      ensures Visited(start, end, s, e)
    {}
  }

  lemma TakeStep(best: Option<Span>, span: Span, frames: seq<Frame>, charsPerToken: Number, target: Number)
    requires Describes(span, frames, charsPerToken)
    requires BestSoFar(best, frames, charsPerToken, target, span.start, span.end)
    requires Qualifies(frames, charsPerToken, target, span.start, span.end)
    requires best.Some? ==> Beats(span, frames, charsPerToken, best.value.start, best.value.end)
    ensures BestSoFar(Some(span), frames, charsPerToken, target, span.start, span.end + 1)
  {
    hide Tokens, WeightOf, Ids, PairSafe, EstimateTokens;
    forall s, e | Visited(span.start, span.end + 1, s, e) && Qualifies(frames, charsPerToken, target, s, e)
      ensures (s == span.start && e == span.end) || Beats(span, frames, charsPerToken, s, e)
    {
      if !(s == span.start && e == span.end) {
        assert Visited(span.start, span.end, s, e);
        assert best.Some?;
      }
    }
  }

  lemma KeepStep(best: Span, span: Span, frames: seq<Frame>, charsPerToken: Number, target: Number)
    requires Describes(span, frames, charsPerToken)
    requires BestSoFar(Some(best), frames, charsPerToken, target, span.start, span.end)
    requires !Beats(span, frames, charsPerToken, best.start, best.end)
    ensures BestSoFar(Some(best), frames, charsPerToken, target, span.start, span.end + 1)
  {
    hide Tokens, WeightOf, Ids, PairSafe, EstimateTokens;
    assert Beats(best, frames, charsPerToken, span.start, span.end);
    forall s, e | Visited(span.start, span.end + 1, s, e) && Qualifies(frames, charsPerToken, target, s, e)
      ensures (s == best.start && e == best.end) || Beats(best, frames, charsPerToken, s, e)
    {
      assert Visited(span.start, span.end, s, e) || (s == span.start && e == span.end);
    }
  }

  ghost predicate WeighsBest(bestWeight: real, best: Option<Span>, frames: seq<Frame>) {
    best.Some? && best.value.start <= best.value.end < |frames| ==>
      bestWeight == WeightOf(frames[best.value.start..best.value.end+1])
  }

  /** For spans in the order of the search, comparing tokens is comparing lengths. */
  lemma BetterIsBeats(frames: seq<Frame>, charsPerToken: Number, target: Number, span: Span, weight: real, best: Span,
        bestWeight: real)
    requires Describes(span, frames, charsPerToken) && weight == WeightOf(frames[span.start..span.end+1])
    requires BestSoFar(Some(best), frames, charsPerToken, target, span.start, span.end)
    requires WeighsBest(bestWeight, Some(best), frames)
    ensures IsBetterSpan(span, weight, best, bestWeight) <==> Beats(span, frames, charsPerToken, best.start, best.end)
  {
    hide Tokens, WeightOf, Ids, Qualifies, Less;
    if best.start == span.start { TokensGrow(frames, charsPerToken, span.start, best.end, span.end); }
  }

  /** Keeps the better of the new candidate and the best so far. */
  method Consider(frames: seq<Frame>, charsPerToken: Number, ghost target: Number, span: Span, weight: real,
        found: Option<Span>, foundWeight: real)
    returns (best: Option<Span>, bestWeight: real)
    requires Describes(span, frames, charsPerToken)
    requires weight == WeightOf(frames[span.start..span.end+1])
    requires Qualifies(frames, charsPerToken, target, span.start, span.end)
    requires BestSoFar(found, frames, charsPerToken, target, span.start, span.end)
    requires WeighsBest(foundWeight, found, frames)
    ensures BestSoFar(best, frames, charsPerToken, target, span.start, span.end + 1)
    ensures WeighsBest(bestWeight, best, frames)
  {
    if found.Some? { BetterIsBeats(frames, charsPerToken, target, span, weight, found.value, foundWeight); }
    if found == None || IsBetterSpan(span, weight, found.value, foundWeight) {
      TakeStep(found, span, frames, charsPerToken, target);
      best, bestWeight := Some(span), weight;
    } else {
      KeepStep(found.value, span, frames, charsPerToken, target);
      best, bestWeight := found, foundWeight;
    }
  }

  /** Extends the span from one start as far as it may go. */
  method ExtendFrom(frames: seq<Frame>, charsPerToken: Number, target: Number, start: nat, found: Option<Span>,
        foundWeight: real)
    returns (best: Option<Span>, bestWeight: real)
    requires start < |frames|
    requires frames[start].compactable && frames[start].role != Tool
    requires BestSoFar(found, frames, charsPerToken, target, start, start)
    requires WeighsBest(foundWeight, found, frames)
    ensures BestSoFar(best, frames, charsPerToken, target, start + 1, start + 1)
    ensures WeighsBest(bestWeight, best, frames)
  {
    hide BestSoFar, PairSafe, WeighsBest, Tokens, WeightOf, Ids, FrameTokens, FrameWeight;
    NothingCounted(frames, charsPerToken, start);
    best, bestWeight := found, foundWeight;
    var tokens, weight, ids := Finite(0.0), 0.0, [];
    var end := start;
    while end < |frames|
      invariant start <= end <= |frames|
      invariant Totals(frames, charsPerToken, start, end, tokens, weight, ids)
      invariant BestSoFar(best, frames, charsPerToken, target, start, end)
      invariant WeighsBest(bestWeight, best, frames)
    {
      if !frames[end].compactable { break; }
      ExtendTotals(frames, charsPerToken, start, end, tokens, weight, ids);
      BoundariesArePairSafety(frames, start, end);
      tokens := Plus(tokens, FrameTokens(frames[end], charsPerToken));
      weight := weight + FrameWeight(frames[end]);
      ids := ids + [frames[end].id];
      if (end + 1 < |frames| && frames[end+1].role == Tool) || Less(tokens, target) {
        SkipStep(best, frames, charsPerToken, target, start, end);
      } else {
        best, bestWeight := Consider(frames, charsPerToken, target, Span(start, end, tokens, ids), weight, best,
          bestWeight);
      }
      end := end + 1;
    }
    SkipStart(best, frames, charsPerToken, target, start, end);
  }

  predicate NothingOverflows(target: Number) {
    target.MinusZero? || target.MinusInfinity? || (target.Finite? && target.value <= 0.0)
  }

  /** Returns the unique least qualifying span, or None exactly when there is none or nothing overflows. */
  method SelectSpan(frames: seq<Frame>, target: Number, charsPerToken: Number) returns (best: Option<Span>)
    ensures if target.MinusZero? || target.MinusInfinity? || (target.Finite? && target.value <= 0.0) then best == None
            else IsBestSpan(best, frames, charsPerToken, target)
  {
    if NothingOverflows(target) { return None; }
    hide Tokens, WeightOf, Ids, PairSafe, Less, Describes, Beats, Qualifies, BestSoFar, WeighsBest, IsBestSpan;
    NothingVisited(frames, charsPerToken, target);
    best := None;
    var bestWeight := 0.0;
    var start := 0;
    while start < |frames|
      invariant start <= |frames|
      invariant BestSoFar(best, frames, charsPerToken, target, start, start)
      invariant WeighsBest(bestWeight, best, frames)
    {
      if frames[start].compactable && frames[start].role != Tool {
        best, bestWeight := ExtendFrom(frames, charsPerToken, target, start, best, bestWeight);
      } else {
        NothingStartsHere(frames, charsPerToken, target, start);
        SkipStart(best, frames, charsPerToken, target, start, start);
      }
      start := start + 1;
    }
    AllVisited(best, frames, charsPerToken, target);
  }

  lemma NothingStartsHere(frames: seq<Frame>, charsPerToken: Number, target: Number, start: nat)
    requires start < |frames| && (!frames[start].compactable || frames[start].role == Tool)
    ensures forall e | start <= e :: !Qualifies(frames, charsPerToken, target, start, e)
  {
    hide PairSafe, Tokens, Less;
    forall e | start <= e ensures !Qualifies(frames, charsPerToken, target, start, e) {
      if e < |frames| { BoundariesArePairSafety(frames, start, e); }
    }
  }

  lemma NothingVisited(frames: seq<Frame>, charsPerToken: Number, target: Number)
    ensures BestSoFar(None, frames, charsPerToken, target, 0, 0) && WeighsBest(0.0, None, frames)
  {}

  lemma AllVisited(best: Option<Span>, frames: seq<Frame>, charsPerToken: Number, target: Number)
    requires BestSoFar(best, frames, charsPerToken, target, |frames|, |frames|)
    ensures IsBestSpan(best, frames, charsPerToken, target)
  {
    hide Tokens, WeightOf, Ids, PairSafe, Less, Describes, Beats;
    forall s, e | Qualifies(frames, charsPerToken, target, s, e) ensures Visited(|frames|, |frames|, s, e) {}
  }

  /** The specification leaves one answer only. */
  lemma BestSpanIsUnique(x: Option<Span>, y: Option<Span>, frames: seq<Frame>, charsPerToken: Number, target: Number)
    requires IsBestSpan(x, frames, charsPerToken, target) && IsBestSpan(y, frames, charsPerToken, target)
    ensures x == y
  {
    hide Tokens, WeightOf, Ids, Qualifies;
  }

  // ----- the choice in plain numbers -----

  /** A text of `n` characters: the least whole number, but at least 1, that times the divisor covers them. */
  ghost function Metered(n: nat, divisor: real): (r: real)
    requires divisor > 0.0
    ensures r >= 1.0
  {
    var quotient := n as real / divisor;
    var whole := quotient.Floor as real;
    var up := if whole == quotient then whole else whole + 1.0;
    if up < 1.0 then 1.0 else up
  }

  /** Metered texts and four tokens a frame, from `start` up to, not including, `end`. */
  ghost function TokenSum(frames: seq<Frame>, divisor: real, start: nat, end: nat): real
    requires divisor > 0.0 && start <= end <= |frames|
  {
    if start == end then 0.0
    else TokenSum(frames, divisor, start, end - 1) + Metered(|frames[end-1].text|, divisor) + 4.0
  }

  /** A weight that is missing, negative or not finite protects nothing. */
  ghost function Protection(weight: Number): real {
    match weight
    case Finite(value) => if value < 0.0 then 0.0 else value
    case _ => 0.0
  }

  ghost function ProtectionSum(frames: seq<Frame>, start: nat, end: nat): real
    requires start <= end <= |frames|
  {
    if start == end then 0.0 else ProtectionSum(frames, start, end - 1) + Protection(frames[end-1].weight)
  }

  lemma CeilIs(x: real)
    ensures Ceil(x) == if x.Floor as real == x then x.Floor else x.Floor + 1
  {}

  lemma EstimateIsMetered(text: string, divisor: real)
    requires divisor > 0.0
    ensures EstimateTokens(text, Finite(divisor)) == Finite(Metered(|text|, divisor))
  {
    CeilIs(|text| as real / divisor);
  }

  /** The other divisors: none at all, a zero of either sign, a negative or an infinite one. */
  lemma EstimateWithoutDivisor(text: string, charsPerToken: Number)
    requires !charsPerToken.Finite? || charsPerToken.value <= 0.0
    ensures EstimateTokens(text, charsPerToken)
         == match charsPerToken
            case NotANumber => NotANumber
            case Finite(divisor) =>
              if divisor < 0.0 then Finite(1.0) else if text == "" then NotANumber else PlusInfinity
            case MinusZero => if text == "" then NotANumber else Finite(1.0)
            case _ => Finite(1.0)
  {
    if charsPerToken.Finite? && charsPerToken.value < 0.0 { NegativeQuotient(|text| as real, charsPerToken.value); }
  }

  predicate HoldsEmptyText(frames: seq<Frame>) {
    exists k :: 0 <= k < |frames| && frames[k].text == ""
  }

  /** So many frames, some with an empty text or none: five a frame, unless a zero leaves no number for an empty text,
      or the positive zero no bound. */
  ghost function Undivided(count: nat, someEmpty: bool, charsPerToken: Number): Number {
    if charsPerToken.NotANumber? then NotANumber
    else if someEmpty && (charsPerToken == Finite(0.0) || charsPerToken.MinusZero?) then NotANumber
    else if charsPerToken == Finite(0.0) then PlusInfinity
    else Finite(5.0 * count as real)
  }

  lemma UndividedFrame(frame: Frame, charsPerToken: Number)
    requires !charsPerToken.Finite? || charsPerToken.value <= 0.0
    ensures FrameTokens(frame, charsPerToken) == Undivided(1, frame.text == "", charsPerToken)
  {
    EstimateWithoutDivisor(frame.text, charsPerToken);
    hide EstimateTokens;
  }

  lemma UndividedSum(count: nat, a: bool, b: bool, charsPerToken: Number)
    ensures Plus(Undivided(count, a, charsPerToken), Undivided(1, b, charsPerToken))
         == Undivided(count + 1, a || b, charsPerToken)
  {}

  /** The totals without a positive divisor. */
  lemma {:induction false} TokensWithoutDivisor(frames: seq<Frame>, charsPerToken: Number)
    requires frames != [] && (!charsPerToken.Finite? || charsPerToken.value <= 0.0)
    ensures Tokens(frames, charsPerToken) == Undivided(|frames|, HoldsEmptyText(frames), charsPerToken)
  {
    var before, last := frames[..|frames|-1], frames[|frames|-1];
    assert frames == before + [last];
    UndividedFrame(last, charsPerToken);
    EmptyTextSnoc(before, last);
    if before != [] {
      hide Plus, FrameTokens, Undivided, HoldsEmptyText;
      TokensWithoutDivisor(before, charsPerToken);
      UndividedSum(|before|, HoldsEmptyText(before), last.text == "", charsPerToken);
    } else {
      hide FrameTokens;
      assert Tokens(before, charsPerToken) == Finite(0.0);
    }
  }

  lemma EmptyTextSnoc(before: seq<Frame>, last: Frame)
    ensures HoldsEmptyText(before + [last]) <==> HoldsEmptyText(before) || last.text == ""
  {
    var frames := before + [last];
    assert frames[|before|] == last;
    if k :| 0 <= k < |before| && before[k].text == "" { assert frames[k].text == ""; }
  }

  lemma NegativeQuotient(x: real, divisor: real)
    requires x >= 0.0 && divisor < 0.0
    ensures x / divisor <= 0.0
  {}

  lemma {:induction false} TokensAreSummed(frames: seq<Frame>, divisor: real, start: nat, end: nat)
    requires divisor > 0.0 && start <= end <= |frames|
    ensures Tokens(frames[start..end], Finite(divisor)) == Finite(TokenSum(frames, divisor, start, end))
  {
    if start == end {
      assert frames[start..end] == [];
    } else {
      hide Tokens, Metered, Plus, FrameTokens;
      TokensAreSummed(frames, divisor, start, end - 1);
      TokensStep(frames, divisor, start, end - 1, TokenSum(frames, divisor, start, end - 1));
    }
    hide Tokens, Metered;
  }

  lemma TokensStep(frames: seq<Frame>, divisor: real, start: nat, end: nat, sum: real)
    requires divisor > 0.0 && start <= end < |frames|
    requires Tokens(frames[start..end], Finite(divisor)) == Finite(sum)
    ensures Tokens(frames[start..end+1], Finite(divisor))
         == Finite(sum + Metered(|frames[end].text|, divisor) + 4.0)
  {
    hide Metered, Tokens, FrameTokens, Plus;
    FrameIsMetered(frames[end], divisor);
    TokensSnoc(frames, Finite(divisor), start, end);
    SumOfTokens(sum, Metered(|frames[end].text|, divisor));
  }

  lemma SumOfTokens(x: real, y: real)
    ensures Plus(Finite(x), Finite(y + 4.0)) == Finite(x + y + 4.0)
  {}

  lemma FrameIsMetered(frame: Frame, divisor: real)
    requires divisor > 0.0
    ensures FrameTokens(frame, Finite(divisor)) == Finite(Metered(|frame.text|, divisor) + 4.0)
  {
    EstimateIsMetered(frame.text, divisor);
    hide Metered, EstimateTokens;
  }

  lemma {:induction false} WeightsAreSummed(frames: seq<Frame>, start: nat, end: nat)
    requires start <= end <= |frames|
    ensures WeightOf(frames[start..end]) == ProtectionSum(frames, start, end)
  {
    if start < end {
      WeightsAreSummed(frames, start, end - 1);
      var span := frames[start..end];
      assert span[..|span|-1] == frames[start..end-1];
    }
  }

  /** A span that may be cut and meters the target, which only an infinite one prevents altogether. */
  ghost predicate MayGo(frames: seq<Frame>, divisor: real, target: Number, start: nat, end: nat)
    requires divisor > 0.0
  {
    && start <= end < |frames| && (forall k | start <= k <= end :: frames[k].compactable)
    && PairSafe(frames, start, end)
    && match target
       case Finite(least) => TokenSum(frames, divisor, start, end + 1) >= least
       case PlusInfinity => false
       case _ => true
  }

  lemma {:induction false} SumIsNatural(frames: seq<Frame>, divisor: real, start: nat, end: nat)
    requires divisor > 0.0 && start <= end <= |frames|
    ensures TokenSum(frames, divisor, start, end) >= 0.0
  {
    if start < end { SumIsNatural(frames, divisor, start, end - 1); }
  }

  lemma QualifyingMayGo(frames: seq<Frame>, divisor: real, target: Number, start: nat, end: nat)
    requires divisor > 0.0
    ensures Qualifies(frames, Finite(divisor), target, start, end) <==> MayGo(frames, divisor, target, start, end)
  {
    hide PairSafe, Tokens;
    if start <= end < |frames| {
      TokensAreSummed(frames, divisor, start, end + 1);
      SumIsNatural(frames, divisor, start, end + 1);
    }
    hide TokenSum;
  }

  /** The choice, with a positive divisor: among the spans that may go the one with the least
      protection, of those the oldest, of those the shortest; its tokens and frames are reported.  Nothing is chosen
      exactly when no span may go. */
  lemma ChosenSpanIs(best: Option<Span>, frames: seq<Frame>, divisor: real, target: Number)
    requires divisor > 0.0 && IsBestSpan(best, frames, Finite(divisor), target)
    ensures best.None? <==> forall s: nat, e: nat :: !MayGo(frames, divisor, target, s, e)
    ensures best.Some? ==>
              var i, j := best.value.start, best.value.end;
              && MayGo(frames, divisor, target, i, j)
              && best.value.tokens == Finite(TokenSum(frames, divisor, i, j + 1))
              && |best.value.ids| == j + 1 - i && (forall k | i <= k <= j :: best.value.ids[k-i] == frames[k].id)
              && forall s: nat, e: nat | MayGo(frames, divisor, target, s, e) ::
                   var here, there := ProtectionSum(frames, i, j + 1), ProtectionSum(frames, s, e + 1);
                   here < there || (here == there && (i < s || (i == s && j <= e)))
  {
    hide PairSafe, Tokens, TokenSum, WeightOf, ProtectionSum;
    forall s: nat, e: nat
      ensures Qualifies(frames, Finite(divisor), target, s, e) <==> MayGo(frames, divisor, target, s, e)
    {
      QualifyingMayGo(frames, divisor, target, s, e);
    }
    if best.Some? {
      var i, j := best.value.start, best.value.end;
      TokensAreSummed(frames, divisor, i, j + 1);
      WeightsAreSummed(frames, i, j + 1);
      hide Qualifies, MayGo;
      forall s: nat, e: nat | MayGo(frames, divisor, target, s, e)
        ensures var here, there := ProtectionSum(frames, i, j + 1), ProtectionSum(frames, s, e + 1);
                here < there || (here == there && (i < s || (i == s && j <= e)))
      {
        assert s <= e < |frames| by { MayGoInRange(frames, divisor, target, s, e); }
        WeightsAreSummed(frames, s, e + 1);
      }
    }
  }

  lemma MayGoInRange(frames: seq<Frame>, divisor: real, target: Number, s: nat, e: nat)
    requires divisor > 0.0 && MayGo(frames, divisor, target, s, e)
    ensures s <= e < |frames|
  {}

  /** Frames alike up to weights that protect nothing either way. */
  ghost predicate ProtectAlike(a: seq<Frame>, b: seq<Frame>) {
    |a| == |b| && forall k | 0 <= k < |a| ::
      b[k] == a[k].(weight := b[k].weight) && Protection(b[k].weight) == Protection(a[k].weight)
  }

  lemma {:induction false} AlikeWeigh(a: seq<Frame>, b: seq<Frame>, charsPerToken: Number)
    requires ProtectAlike(a, b)
    ensures WeightOf(a) == WeightOf(b) && Tokens(a, charsPerToken) == Tokens(b, charsPerToken) && Ids(a) == Ids(b)
  {
    if a != [] {
      var n := |a| - 1;
      AlikeWeigh(a[..n], b[..n], charsPerToken);
      assert b[n] == a[n].(weight := b[n].weight);
      hide Plus, EstimateTokens;
    }
  }

  lemma AlikeQualify(a: seq<Frame>, b: seq<Frame>, charsPerToken: Number, target: Number, start: nat, end: nat)
    requires ProtectAlike(a, b) && Qualifies(a, charsPerToken, target, start, end)
    ensures Qualifies(b, charsPerToken, target, start, end)
  {
    AlikeWeigh(a[start..end+1], b[start..end+1], charsPerToken);
    BoundariesArePairSafety(a, start, end);
    BoundariesArePairSafety(b, start, end);
    hide PairSafe, Tokens, Less;
  }

  /** A weight that is missing, negative or infinite may as well be zero: the choice is the same, for every divisor and
      every target. */
  lemma NonsensicalWeightsAreNeutral(best: Option<Span>, a: seq<Frame>, b: seq<Frame>, charsPerToken: Number,
        target: Number)
    requires |a| == |b|
    requires forall k | 0 <= k < |a| ::
        b[k] == if a[k].weight.Finite? && a[k].weight.value >= 0.0 then a[k] else a[k].(weight := Finite(0.0))
    requires IsBestSpan(best, a, charsPerToken, target)
    ensures IsBestSpan(best, b, charsPerToken, target)
  {
    hide Qualifies, Tokens, WeightOf, Ids;
    AlikeChoose(best, a, b, charsPerToken, target);
  }

  lemma AlikeChoose(best: Option<Span>, a: seq<Frame>, b: seq<Frame>, charsPerToken: Number, target: Number)
    requires ProtectAlike(a, b) && ProtectAlike(b, a) && IsBestSpan(best, a, charsPerToken, target)
    ensures IsBestSpan(best, b, charsPerToken, target)
  {
    hide Qualifies, Tokens, WeightOf, Ids, ProtectAlike;
    forall s: nat, e: nat
      ensures Qualifies(a, charsPerToken, target, s, e) <==> Qualifies(b, charsPerToken, target, s, e)
    {
      if Qualifies(a, charsPerToken, target, s, e) { AlikeQualify(a, b, charsPerToken, target, s, e); }
      if Qualifies(b, charsPerToken, target, s, e) { AlikeQualify(b, a, charsPerToken, target, s, e); }
    }
    if best.Some? {
      var span := best.value;
      SlicesAlike(a, b, span.start, span.end + 1);
      AlikeWeigh(a[span.start..span.end+1], b[span.start..span.end+1], charsPerToken);
      forall s: nat, e: nat | Qualifies(b, charsPerToken, target, s, e)
        ensures s <= e < |b| && ((s == span.start && e == span.end) || Beats(span, b, charsPerToken, s, e))
      {
        QualifyingInRange(b, charsPerToken, target, s, e);
        SlicesAlike(a, b, s, e + 1);
        AlikeWeigh(a[s..e+1], b[s..e+1], charsPerToken);
      }
    }
  }

  lemma SlicesAlike(a: seq<Frame>, b: seq<Frame>, start: nat, end: nat)
    requires ProtectAlike(a, b) && start <= end <= |a|
    ensures |a| == |b| && ProtectAlike(a[start..end], b[start..end])
  {}

  lemma QualifyingInRange(frames: seq<Frame>, charsPerToken: Number, target: Number, s: nat, e: nat)
    requires Qualifies(frames, charsPerToken, target, s, e)
    ensures s <= e < |frames|
  {
    hide PairSafe, Tokens, Less;
  }
}
