/** What each event does to the rows, told by the events and the rows alone: no index, no memory of the open action. */
module TraceRows {
  import opened JsText
  import opened TraceEvents

  // ----- the index is the last row of its key -----

  ghost function KeyOf(s: Segment): Option<Key> {
    match s.kind
    case StepSegment => Some(PendingStep(s.turn, s.step))
    case ThoughtSegment => Some(if s.meta then Banner(s.turn) else Key.Stream(s.turn, s.step))
    case ThinkingSegment => Some(ThinkingKey(s.turn, s.step))
    case ToolProgressSegment => Some(Progress(s.turn, s.step))
    case _ => None
  }

  /** A key names the last row of its kind; only thoughts have several rows of one kind. */
  ghost predicate Indexed(m: Merge) {
    && (forall key | key in m.index :: m.index[key] < |m.segs| && KeyOf(m.segs[m.index[key]]) == Some(key))
    && (forall i: nat | i < |m.segs| && KeyOf(m.segs[i]).Some? ::
          var key := KeyOf(m.segs[i]).value;
          key in m.index && (if m.segs[i].kind == ThoughtSegment then i <= m.index[key] else i == m.index[key]))
  }

  // ----- one event, by the rows -----

  ghost function RowKind(kind: EventKind): SegmentKind {
    match kind
    case StepStart => StepSegment
    case Thinking => ThinkingSegment
    case Action => ActionSegment
    case Observation => ObservationSegment
    case ToolProgress => ToolProgressSegment
    case FileDiff => FileDiffSegment
    case Error => ErrorSegment
    case Verify => VerifySegment
    case Reflect => ReflectSegment
    case HarnessEdit => HarnessEditSegment
    case _ => ThoughtSegment
  }

  /** The row an event opens: its own turn and step, its content, and who acts; a banner is marked as such, and what
      more can be added to is not completed. */
  ghost function NewRow(id: string, ev: Event, texts: Texts, actor: Option<string>, lastTool: string): Segment {
    var banner := (ev.kind == Thought || ev.kind == ThoughtDelta) && texts.isBanner(ev.content);
    Segment(id, RowKind(ev.kind), ev.step, ev.turn,
            if ev.kind == StepStart || ev.kind == Action then "" else ev.content,
            if ev.kind == Action then ev.tool else if ev.kind == Observation then lastTool else "",
            if ev.kind == Action then ev.args else "",
            "", true, "", banner,
            ev.kind != StepStart && ev.kind != ToolProgress && (ev.kind == ThoughtDelta ==> banner),
            ev.timestamp, ev.timestamp, false, actor, None)
  }

  /** The last thought of a step that is no banner, as long as it is streamed. */
  ghost predicate IsStreamRow(rows: seq<Segment>, i: nat, turn: nat, step: int) {
    && i < |rows| && rows[i].kind == ThoughtSegment && !rows[i].meta && rows[i].turn == turn && rows[i].step == step
    && !rows[i].completed
    && forall j | i < j < |rows| ::
         !(rows[j].kind == ThoughtSegment && !rows[j].meta && rows[j].turn == turn && rows[j].step == step)
  }

  ghost predicate HasStreamRow(rows: seq<Segment>, turn: nat, step: int) {
    exists i: nat :: IsStreamRow(rows, i, turn, step)
  }

  ghost predicate HasRow(rows: seq<Segment>, kind: SegmentKind, turn: nat, step: int) {
    exists i :: 0 <= i < |rows| && rows[i].kind == kind && rows[i].turn == turn && rows[i].step == step
  }

  /** Which events open a row; `open` says whether an action takes results. */
  ghost predicate OpensRow(rows: seq<Segment>, open: bool, ev: Event, texts: Texts) {
    match ev.kind
    case StepStart => !HasRow(rows, StepSegment, ev.turn, ev.step)
    case Thought => !texts.isForeign(ev.content)
    case ThoughtDelta =>
      ev.content != "" && !texts.isForeign(ev.content)
      && (texts.isBanner(ev.content) || !HasStreamRow(rows, ev.turn, ev.step))
    case Thinking => !HasRow(rows, ThinkingSegment, ev.turn, ev.step)
    case Observation => !open
    case FileDiff => !open
    case ToolProgress => !open && !HasRow(rows, ToolProgressSegment, ev.turn, ev.step)
    case ThoughtEnd => false
    case Metadata => false
    case _ => true
  }

  /** Events of the language model: they stand for the step announced before. */
  ghost predicate SettlesStep(kind: EventKind) {
    || kind == Thought || kind == ThoughtDelta || kind == Thinking || kind == Action
    || kind == Error || kind == Verify || kind == Reflect || kind == HarnessEdit
  }

  /** Whether an event adds its content to the text of this row. */
  ghost predicate JoinsText(rows: seq<Segment>, open: bool, i: nat, ev: Event, texts: Texts)
    requires i < |rows|
  {
    var s := rows[i];
    || (ev.kind == ThoughtDelta && ev.content != "" && IsPlain(ev, texts) && IsStreamRow(rows, i, ev.turn, ev.step))
    || (ev.kind == Thinking && s.kind == ThinkingSegment && s.turn == ev.turn && s.step == ev.step)
    || (ev.kind == ToolProgress && !open && s.kind == ToolProgressSegment && s.turn == ev.turn && s.step == ev.step)
  }

  ghost predicate Completes(rows: seq<Segment>, i: nat, ev: Event)
    requires i < |rows|
  {
    var s := rows[i];
    || (SettlesStep(ev.kind) && s.kind == StepSegment && s.turn == ev.turn && s.step == ev.step)
    || (ev.kind == ThoughtEnd && IsStreamRow(rows, i, ev.turn, ev.step))
  }

  /** The time of a row's last event. */
  ghost predicate Stretches(rows: seq<Segment>, open: bool, i: nat, ev: Event, texts: Texts)
    requires i < |rows|
  {
    || (JoinsText(rows, open, i, ev, texts) && ev.kind != ToolProgress)
    || (open && i + 1 == |rows|
        && (ev.kind == Observation || ev.kind == ToolProgress || ev.kind == Metadata || ev.kind == ThoughtEnd))
  }

  /** What an event leaves of a row: the last row is the open action if there is one. */
  ghost function RowAfter(rows: seq<Segment>, open: bool, i: nat, ev: Event, texts: Texts): Segment
    requires i < |rows|
  {
    var s, called := rows[i], open && i + 1 == |rows|;
    s.(text := if JoinsText(rows, open, i, ev, texts) then s.text + ev.content else s.text,
       completed := s.completed || Completes(rows, i, ev),
       result := if called && ev.kind == ToolProgress then s.result + ev.content
                 else if called && ev.kind == Observation
                         && (s.result == ""
                             || (ev.content != "" && forall p: nat :: !MatchesAt(s.result, ev.content, p)))
                 then s.result + ev.content
                 else s.result,
       resultDone := if called && ev.kind == ToolProgress then false
                     else if called && ev.kind == Observation then true
                     else s.resultDone,
       diff := if called && ev.kind == FileDiff then s.diff + ev.content else s.diff,
       tsEnd := if Stretches(rows, open, i, ev, texts) && ev.timestamp.Some? then ev.timestamp else s.tsEnd)
  }

  ghost predicate IsRowStep(m: Merge, n: Merge, ev: Event, texts: Texts) {
    var k, opens := |m.segs|, OpensRow(m.segs, m.open.Some?, ev, texts);
    && |n.segs| == (if opens then k + 1 else k)
    && (opens ==> n.segs[k] == NewRow(n.segs[k].id, ev, texts, n.actor, m.lastTool))
    && (forall i: nat | i < k :: n.segs[i] == RowAfter(m.segs, m.open.Some?, i, ev, texts))
    && n.index == (if opens && KeyOf(n.segs[k]).Some? then m.index[KeyOf(n.segs[k]).value := k] else m.index)
  }

  ghost predicate IsSound(m: Merge) {
    Indexed(m) && OpenHolds(m)
  }

  // ----- lookups -----

  lemma LookupIs(m: Merge, key: Key)
    requires Indexed(m)
    ensures Lookup(m, key) == if key in m.index then Some(m.index[key]) else None
    ensures Lookup(m, key).Some? ==> KeyOf(m.segs[m.index[key]]) == Some(key)
  {}

  lemma RowOfKey(m: Merge, key: Key, i: nat)
    requires Indexed(m) && i < |m.segs| && KeyOf(m.segs[i]) == Some(key) && m.segs[i].kind != ThoughtSegment
    ensures key in m.index && m.index[key] == i
  {}

  lemma StreamingIs(m: Merge, turn: nat, step: int)
    requires Indexed(m)
    ensures var key := Key.Stream(turn, step);
            && (IsStreaming(m, key) <==> HasStreamRow(m.segs, turn, step))
            && (forall i: nat :: IsStreamRow(m.segs, i, turn, step) <==>
                  IsStreaming(m, key) && i == m.index[key])
  {
    var key := Key.Stream(turn, step);
    if IsStreaming(m, key) {
      forall j | m.index[key] < j < |m.segs|
        ensures !(m.segs[j].kind == ThoughtSegment && !m.segs[j].meta
                  && m.segs[j].turn == turn && m.segs[j].step == step)
      {
        assert KeyOf(m.segs[j]) != Some(key);
      }
      assert IsStreamRow(m.segs, m.index[key], turn, step);
    }
    forall i: nat | IsStreamRow(m.segs, i, turn, step) ensures IsStreaming(m, key) && i == m.index[key] {
      assert KeyOf(m.segs[i]) == Some(key);
      assert KeyOf(m.segs[m.index[key]]) == Some(key);
    }
  }

  // ----- each event is such a step -----

  /** Taking over the timeline completes the row of the announced step and nothing else. */
  lemma TakeOverIs(m: Merge, ev: Event)
    requires Indexed(m)
    ensures var t := TakeOver(m, ev);
            && |t.segs| == |m.segs| && t.index == m.index && t.actor == m.actor
            && forall i: nat | i < |m.segs| ::
                 t.segs[i] == m.segs[i].(completed := m.segs[i].completed
                   || (m.segs[i].kind == StepSegment && m.segs[i].turn == ev.turn && m.segs[i].step == ev.step))
  {
    SettleIs(m.(open := None), ev);
  }

  lemma SettleIs(m: Merge, ev: Event)
    requires Indexed(m)
    ensures var t := SettlePendingStep(m, ev.turn, ev.step);
            && |t.segs| == |m.segs| && t.index == m.index && t.actor == m.actor
            && forall i: nat | i < |m.segs| ::
                 t.segs[i] == m.segs[i].(completed := m.segs[i].completed
                   || (m.segs[i].kind == StepSegment && m.segs[i].turn == ev.turn && m.segs[i].step == ev.step))
  {
    var key := PendingStep(ev.turn, ev.step);
    LookupIs(m, key);
    forall i: nat | i < |m.segs| && m.segs[i].kind == StepSegment && m.segs[i].turn == ev.turn
                    && m.segs[i].step == ev.step
      ensures key in m.index && m.index[key] == i
    {
      RowOfKey(m, key, i);
    }
    hide Indexed;
  }

  predicate IsSameStep(s: Segment, ev: Event) {
    s.turn == ev.turn && s.step == ev.step
  }

  /** Events that add to no row at most complete the row of their step. */
  lemma AfterMarker(rows: seq<Segment>, open: bool, i: nat, ev: Event, texts: Texts)
    requires i < |rows| && (ev.kind == StepStart || SettlesStep(ev.kind))
    requires !JoinsText(rows, open, i, ev, texts)
    ensures RowAfter(rows, open, i, ev, texts)
         == rows[i].(completed := rows[i].completed
                     || (ev.kind != StepStart && rows[i].kind == StepSegment && IsSameStep(rows[i], ev)))
  {
    hide JoinsText;
  }

  /** The segments of `t` are what the event leaves of those of `m`. */
  ghost predicate RowsFollow(m: Merge, t: Merge, ev: Event, texts: Texts) {
    |t.segs| == |m.segs| && t.index == m.index
    && forall i: nat | i < |m.segs| :: t.segs[i] == RowAfter(m.segs, m.open.Some?, i, ev, texts)
  }

  lemma AddIs(m: Merge, t: Merge, n: Merge, ev: Event, texts: Texts, key: Option<Key>)
    requires RowsFollow(m, t, ev, texts) && OpensRow(m.segs, m.open.Some?, ev, texts)
    requires n.segs != [] && var s := n.segs[|n.segs|-1];
        && n.segs == t.segs + [s] && KeyOf(s) == key && s == NewRow(s.id, ev, texts, n.actor, m.lastTool)
        && n.index == (if key.Some? then t.index[key.value := |t.segs|] else t.index)
    ensures IsRowStep(m, n, ev, texts)
  {
    hide RowAfter, OpensRow, NewRow, KeyOf;
  }

  lemma NoAddIs(m: Merge, t: Merge, ev: Event, texts: Texts)
    requires RowsFollow(m, t, ev, texts) && !OpensRow(m.segs, m.open.Some?, ev, texts)
    ensures IsRowStep(m, t, ev, texts)
  {
    hide RowAfter, OpensRow, NewRow, KeyOf;
  }

  /** Taking over is all that a marker, a thought or a call does to the rows there are. */
  lemma TakenOverFollows(m: Merge, t: Merge, ev: Event, texts: Texts)
    requires Indexed(m) && SettlesStep(ev.kind)
    requires forall i: nat | i < |m.segs| :: !JoinsText(m.segs, m.open.Some?, i, ev, texts)
    requires t == TakeOver(m, ev) || t == SettlePendingStep(m, ev.turn, ev.step)
    ensures RowsFollow(m, t, ev, texts)
  {
    TakeOverIs(m, ev);
    SettleIs(m, ev);
    hide TakeOver, SettlePendingStep, RowAfter, Indexed, JoinsText;
    forall i: nat | i < |m.segs| ensures t.segs[i] == RowAfter(m.segs, m.open.Some?, i, ev, texts) {
      AfterMarker(m.segs, m.open.Some?, i, ev, texts);
    }
  }

  lemma StepStartIs(m: Merge, ev: Event, texts: Texts)
    requires IsSound(m) && ev.kind == StepStart
    ensures IsRowStep(m, OnStepStart(m, ev), ev, texts)
  {
    var key, closed := PendingStep(ev.turn, ev.step), m.(open := None);
    assert RowsFollow(m, closed, ev, texts) by {
      hide RowAfter;
      forall i: nat | i < |m.segs| ensures m.segs[i] == RowAfter(m.segs, m.open.Some?, i, ev, texts) {
        AfterMarker(m.segs, m.open.Some?, i, ev, texts);
      }
    }
    assert key in m.index <==> HasRow(m.segs, StepSegment, ev.turn, ev.step) by { StepRowIs(m, ev.turn, ev.step); }
    hide RowsFollow, IsRowStep, IsSound, HasRow, Digits;
    if key in m.index {
      NoAddIs(m, closed, ev, texts);
    } else {
      AddIs(m, closed, OnStepStart(m, ev), ev, texts, Some(key));
    }
  }

  lemma StepRowIs(m: Merge, turn: nat, step: int)
    requires Indexed(m)
    ensures PendingStep(turn, step) in m.index <==> HasRow(m.segs, StepSegment, turn, step)
  {
    var key := PendingStep(turn, step);
    LookupIs(m, key);
    if i: nat :| i < |m.segs| && m.segs[i].kind == StepSegment && m.segs[i].turn == turn && m.segs[i].step == step {
      RowOfKey(m, key, i);
    }
    hide Indexed;
  }

  lemma MarkerIs(m: Merge, ev: Event, texts: Texts, kind: SegmentKind)
    requires IsSound(m) && kind == RowKind(ev.kind)
    requires ev.kind == Error || ev.kind == Verify || ev.kind == Reflect || ev.kind == HarnessEdit
    ensures IsRowStep(m, OnMarker(m, ev, kind), ev, texts)
  {
    var t := TakeOver(m, ev);
    TakenOverFollows(m, t, ev, texts);
    TakeOverIs(m, ev);
    hide TakeOver, RowsFollow, IsRowStep, IsSound, Digits, EventPrefix;
    AddIs(m, t, OnMarker(m, ev, kind), ev, texts, None);
  }

  lemma ThoughtIs(m: Merge, ev: Event, texts: Texts)
    requires IsSound(m) && ev.kind == Thought
    ensures IsRowStep(m, OnThought(m, ev, texts), ev, texts)
  {
    var t := TakeOver(m, ev);
    TakenOverFollows(m, t, ev, texts);
    TakeOverIs(m, ev);
    hide TakeOver, RowsFollow, IsRowStep, IsSound, Digits;
    if texts.isForeign(ev.content) {
      NoAddIs(m, t, ev, texts);
    } else {
      AddIs(m, t, OnThought(m, ev, texts), ev, texts,
            Some(if texts.isBanner(ev.content) then Banner(ev.turn) else Key.Stream(ev.turn, ev.step)));
    }
  }

  lemma ActionIs(m: Merge, ev: Event, texts: Texts)
    requires IsSound(m) && ev.kind == Action
    ensures IsRowStep(m, OnAction(m, ev), ev, texts)
  {
    var t := SettlePendingStep(m, ev.turn, ev.step);
    TakenOverFollows(m, t, ev, texts);
    SettleIs(m, ev);
    hide SettlePendingStep, RowsFollow, IsRowStep, IsSound, Digits, EventPrefix;
    AddIs(m, t, OnAction(m, ev), ev, texts, None);
  }

  /** Events that add to the text of one row, besides completing the row of their step. */
  lemma AfterJoin(rows: seq<Segment>, open: bool, i: nat, ev: Event, texts: Texts)
    requires i < |rows| && (ev.kind == ThoughtDelta || ev.kind == Thinking) && JoinsText(rows, open, i, ev, texts)
    ensures RowAfter(rows, open, i, ev, texts)
         == rows[i].(text := rows[i].text + ev.content,
                     tsEnd := if ev.timestamp.Some? then ev.timestamp else rows[i].tsEnd)
    ensures rows[i].kind != StepSegment
  {
    hide IsStreamRow;
    assert ev.kind == ThoughtDelta ==> rows[i].kind == ThoughtSegment by { StreamRowKind(rows, i, ev.turn, ev.step); }
  }

  lemma StreamRowKind(rows: seq<Segment>, i: nat, turn: nat, step: int)
    ensures IsStreamRow(rows, i, turn, step) ==> i < |rows| && rows[i].kind == ThoughtSegment
  {}

  /** Taking over and joining the `at`-th row. */
  lemma JoinedFollows(m: Merge, at: nat, ev: Event, texts: Texts)
    requires Indexed(m) && (ev.kind == ThoughtDelta || ev.kind == Thinking) && at < |m.segs|
    requires forall i: nat | i < |m.segs| :: JoinsText(m.segs, m.open.Some?, i, ev, texts) <==> i == at
    ensures |TakeOver(m, ev).segs| == |m.segs|
    ensures var t := TakeOver(m, ev);
            var s := t.segs[at];
            RowsFollow(m, Change(t, at, s.(text := s.text + ev.content, tsEnd := Later(s.tsEnd, ev.timestamp))), ev,
                       texts)
  {
    TakeOverIs(m, ev);
    var t := TakeOver(m, ev);
    hide TakeOver, RowAfter, Indexed, JoinsText;
    var s := t.segs[at];
    var n := Change(t, at, s.(text := s.text + ev.content, tsEnd := Later(s.tsEnd, ev.timestamp)));
    forall i: nat | i < |m.segs| ensures n.segs[i] == RowAfter(m.segs, m.open.Some?, i, ev, texts) {
      if i == at {
        AfterJoin(m.segs, m.open.Some?, i, ev, texts);
      } else {
        AfterMarker(m.segs, m.open.Some?, i, ev, texts);
      }
    }
  }

  lemma ThinkingIs(m: Merge, ev: Event, texts: Texts)
    requires IsSound(m) && ev.kind == Thinking
    ensures IsRowStep(m, OnThinking(m, ev), ev, texts)
  {
    ThinkingRowIs(m, ev, texts);
    if ThinkingKey(ev.turn, ev.step) in m.index {
      ThinkingJoins(m, ev, texts);
    } else {
      ThinkingOpens(m, ev, texts);
    }
  }

  lemma ThinkingJoins(m: Merge, ev: Event, texts: Texts)
    requires Indexed(m) && ev.kind == Thinking && ThinkingKey(ev.turn, ev.step) in m.index
    ensures IsRowStep(m, OnThinking(m, ev), ev, texts)
  {
    ThinkingRowIs(m, ev, texts);
    TakeOverIs(m, ev);
    JoinedFollows(m, m.index[ThinkingKey(ev.turn, ev.step)], ev, texts);
    hide TakeOver, RowsFollow, IsRowStep, Indexed, Digits, HasRow, JoinsText;
    NoAddIs(m, OnThinking(m, ev), ev, texts);
  }

  lemma ThinkingOpens(m: Merge, ev: Event, texts: Texts)
    requires Indexed(m) && ev.kind == Thinking && ThinkingKey(ev.turn, ev.step) !in m.index
    ensures IsRowStep(m, OnThinking(m, ev), ev, texts)
  {
    ThinkingRowIs(m, ev, texts);
    TakeOverIs(m, ev);
    TakenOverFollows(m, TakeOver(m, ev), ev, texts);
    hide TakeOver, RowsFollow, IsRowStep, Indexed, Digits, HasRow, JoinsText;
    AddIs(m, TakeOver(m, ev), OnThinking(m, ev), ev, texts, Some(ThinkingKey(ev.turn, ev.step)));
  }

  lemma ThinkingRowIs(m: Merge, ev: Event, texts: Texts)
    requires Indexed(m) && ev.kind == Thinking
    ensures var key := ThinkingKey(ev.turn, ev.step);
            && (key in m.index <==> HasRow(m.segs, ThinkingSegment, ev.turn, ev.step))
            && (key in m.index ==> m.index[key] < |m.segs| && m.segs[m.index[key]].kind == ThinkingSegment)
            && forall i: nat | i < |m.segs| ::
                 JoinsText(m.segs, m.open.Some?, i, ev, texts) <==> key in m.index && i == m.index[key]
  {
    var key := ThinkingKey(ev.turn, ev.step);
    LookupIs(m, key);
    forall i: nat | i < |m.segs| && m.segs[i].kind == ThinkingSegment && m.segs[i].turn == ev.turn
                    && m.segs[i].step == ev.step
      ensures key in m.index && m.index[key] == i
    {
      RowOfKey(m, key, i);
    }
    hide Indexed;
  }

  /** No row is added to by an empty, a foreign or a banner piece, nor while no thought is streamed. */
  lemma DeltaJoins(m: Merge, ev: Event, texts: Texts)
    requires Indexed(m) && ev.kind == ThoughtDelta
    ensures var key := Key.Stream(ev.turn, ev.step);
            var joins := ev.content != "" && IsPlain(ev, texts) && IsStreaming(m, key);
            && (IsStreaming(m, key) <==> HasStreamRow(m.segs, ev.turn, ev.step))
            && (IsStreaming(m, key) ==> key in m.index && m.index[key] < |m.segs|)
            && forall i: nat | i < |m.segs| ::
                 JoinsText(m.segs, m.open.Some?, i, ev, texts) <==> joins && i == m.index[key]
  {
    StreamingIs(m, ev.turn, ev.step);
    hide Indexed, IsStreamRow;
  }

  lemma TakeOverStreams(m: Merge, ev: Event, key: Key)
    requires Indexed(m)
    ensures IsStreaming(TakeOver(m, ev), key) <==> IsStreaming(m, key)
  {
    TakeOverIs(m, ev);
    hide TakeOver, Indexed;
  }

  lemma ThoughtDeltaIs(m: Merge, ev: Event, texts: Texts)
    requires IsSound(m) && ev.kind == ThoughtDelta
    ensures IsRowStep(m, OnThoughtDelta(m, ev, texts), ev, texts)
  {
    var t, key := TakeOver(m, ev), Key.Stream(ev.turn, ev.step);
    DeltaJoins(m, ev, texts);
    TakeOverStreams(m, ev, key);
    TakeOverIs(m, ev);
    hide TakeOver, RowsFollow, IsRowStep, IsStreaming, HasStreamRow, JoinsText, Digits;
    if ev.content != "" && IsPlain(ev, texts) && IsStreaming(m, key) {
      JoinedFollows(m, m.index[key], ev, texts);
      hide IsSound;
      NoAddIs(m, OnThoughtDelta(m, ev, texts), ev, texts);
    } else {
      TakenOverFollows(m, t, ev, texts);
      hide IsSound;
      DeltaElse(m, t, ev, texts);
    }
  }

  lemma DeltaElse(m: Merge, t: Merge, ev: Event, texts: Texts)
    requires ev.kind == ThoughtDelta && t == TakeOver(m, ev) && RowsFollow(m, t, ev, texts)
    requires var key := Key.Stream(ev.turn, ev.step);
        && (IsStreaming(t, key) <==> HasStreamRow(m.segs, ev.turn, ev.step))
        && (ev.content == "" || !IsPlain(ev, texts) || !IsStreaming(t, key))
    requires t.actor == m.actor && |t.segs| == |m.segs|
    ensures IsRowStep(m, OnThoughtDelta(m, ev, texts), ev, texts)
  {
    hide TakeOver, RowsFollow, IsRowStep, IsStreaming, HasStreamRow, Digits;
    if ev.content == "" || texts.isForeign(ev.content) {
      NoAddIs(m, t, ev, texts);
    } else {
      AddIs(m, t, OnThoughtDelta(m, ev, texts), ev, texts,
            Some(if texts.isBanner(ev.content) then Banner(ev.turn) else Key.Stream(ev.turn, ev.step)));
    }
  }

  // ----- events of a call, and what belongs to nobody -----

  lemma FoldedIs(streamed: string, observation: string)
    ensures FoldedResult(streamed, observation)
         == if streamed == "" || (observation != "" && forall p: nat :: !MatchesAt(streamed, observation, p))
            then streamed + observation else streamed
  {
    assert forall p: nat | MatchesAt(streamed, observation, p) :: 0 <= p <= |streamed|;
  }

  predicate IsCallEvent(kind: EventKind) {
    kind == Observation || kind == ToolProgress || kind == FileDiff || kind == Metadata
  }

  lemma AfterCallEvent(rows: seq<Segment>, open: bool, i: nat, ev: Event, texts: Texts)
    requires i < |rows| && IsCallEvent(ev.kind)
    requires !JoinsText(rows, open, i, ev, texts) && !(open && i + 1 == |rows|)
    ensures RowAfter(rows, open, i, ev, texts) == rows[i]
  {
    hide JoinsText, IsStreamRow;
  }

  lemma OpenCallJoinsNothing(rows: seq<Segment>, i: nat, ev: Event, texts: Texts)
    requires i < |rows| && IsCallEvent(ev.kind)
    ensures !JoinsText(rows, true, i, ev, texts)
  {
    hide IsStreamRow;
  }

  /** While an action takes results, these events change its row only. */
  lemma CalledFollows(m: Merge, s: Segment, ev: Event, texts: Texts)
    requires OpenHolds(m) && m.open.Some? && IsCallEvent(ev.kind)
    requires s == RowAfter(m.segs, true, |m.segs| - 1, ev, texts)
    ensures m.open.value == |m.segs| - 1 && RowsFollow(m, Change(m, m.open.value, s), ev, texts)
  {
    hide RowAfter, JoinsText, IsCallEvent;
    forall i: nat | i + 1 < |m.segs| ensures RowAfter(m.segs, true, i, ev, texts) == m.segs[i] {
      OpenCallJoinsNothing(m.segs, i, ev, texts);
      AfterCallEvent(m.segs, true, i, ev, texts);
    }
  }

  /** While none does, they leave the rows as they are, unless a row of output is added to. */
  lemma UncalledFollows(m: Merge, ev: Event, texts: Texts)
    requires m.open.None? && IsCallEvent(ev.kind)
    requires forall i: nat | i < |m.segs| :: !JoinsText(m.segs, false, i, ev, texts)
    ensures RowsFollow(m, m, ev, texts)
  {
    hide RowAfter, JoinsText, IsCallEvent;
    forall i: nat | i < |m.segs| ensures RowAfter(m.segs, false, i, ev, texts) == m.segs[i] {
      AfterCallEvent(m.segs, false, i, ev, texts);
    }
  }

  lemma AfterObservation(rows: seq<Segment>, ev: Event, texts: Texts)
    requires rows != [] && ev.kind == Observation
    ensures var s := rows[|rows|-1];
            RowAfter(rows, true, |rows| - 1, ev, texts)
            == s.(result := FoldedResult(s.result, ev.content), resultDone := true,
                  tsEnd := Later(s.tsEnd, ev.timestamp))
  {
    FoldedIs(rows[|rows|-1].result, ev.content);
    hide IsStreamRow, FoldedResult;
  }

  lemma ObservationIs(m: Merge, ev: Event, texts: Texts)
    requires IsSound(m) && ev.kind == Observation
    ensures IsRowStep(m, OnObservation(m, ev), ev, texts)
  {
    hide IsRowStep, RowsFollow, Indexed, FoldedResult, RowAfter;
    if m.open.Some? {
      AfterObservation(m.segs, ev, texts);
      CalledFollows(m, RowAfter(m.segs, true, |m.segs| - 1, ev, texts), ev, texts);
      NoAddIs(m, OnObservation(m, ev), ev, texts) by { FollowsAnyway(m, OnObservation(m, ev), ev, texts); }
    } else {
      UncalledFollows(m, ev, texts);
      hide Digits, EventPrefix;
      AddIs(m, m, OnObservation(m, ev), ev, texts, None);
    }
  }

  lemma FollowsAnyway(m: Merge, n: Merge, ev: Event, texts: Texts)
    requires OpenHolds(m) && m.open.Some? && n.index == m.index
    requires n.segs == Change(m, m.open.value, RowAfter(m.segs, true, |m.segs| - 1, ev, texts)).segs
    requires RowsFollow(m, Change(m, m.open.value, RowAfter(m.segs, true, |m.segs| - 1, ev, texts)), ev, texts)
    ensures RowsFollow(m, n, ev, texts)
  {
    hide RowAfter;
  }

  lemma FileDiffIs(m: Merge, ev: Event, texts: Texts)
    requires IsSound(m) && ev.kind == FileDiff
    ensures IsRowStep(m, OnFileDiff(m, ev), ev, texts)
  {
    if m.open.Some? {
      var s := m.segs[m.open.value];
      var after := s.(diff := s.diff + ev.content);
      assert after == RowAfter(m.segs, true, |m.segs| - 1, ev, texts) by { hide IsStreamRow, Indexed; }
      CalledFollows(m, after, ev, texts);
      hide RowAfter, IsRowStep, RowsFollow, Indexed;
      NoAddIs(m, OnFileDiff(m, ev), ev, texts);
    } else {
      UncalledFollows(m, ev, texts);
      hide RowsFollow, IsRowStep, IsSound, Digits, EventPrefix;
      AddIs(m, m, OnFileDiff(m, ev), ev, texts, None);
    }
  }

  lemma ProgressRowIs(m: Merge, ev: Event, texts: Texts)
    requires Indexed(m) && ev.kind == ToolProgress
    ensures var key := Progress(ev.turn, ev.step);
            && Lookup(m, key) == (if key in m.index then Some(m.index[key]) else None)
            && (key in m.index <==> HasRow(m.segs, ToolProgressSegment, ev.turn, ev.step))
            && (key in m.index ==> m.index[key] < |m.segs| && m.segs[m.index[key]].kind == ToolProgressSegment)
            && forall i: nat | i < |m.segs| ::
                 JoinsText(m.segs, false, i, ev, texts) <==> key in m.index && i == m.index[key]
  {
    var key := Progress(ev.turn, ev.step);
    LookupIs(m, key);
    forall i: nat | i < |m.segs| && m.segs[i].kind == ToolProgressSegment && m.segs[i].turn == ev.turn
                    && m.segs[i].step == ev.step
      ensures key in m.index && m.index[key] == i
    {
      RowOfKey(m, key, i);
    }
    hide Indexed;
  }

  lemma StrayOutputFollows(m: Merge, at: nat, ev: Event, texts: Texts)
    requires m.open.None? && ev.kind == ToolProgress && at < |m.segs|
    requires forall i: nat | i < |m.segs| :: JoinsText(m.segs, false, i, ev, texts) <==> i == at
    ensures RowsFollow(m, Change(m, at, m.segs[at].(text := m.segs[at].text + ev.content)), ev, texts)
  {
    hide JoinsText, IsStreamRow;
  }

  lemma ToolProgressIs(m: Merge, ev: Event, texts: Texts)
    requires IsSound(m) && ev.kind == ToolProgress
    ensures IsRowStep(m, OnToolProgress(m, ev), ev, texts)
  {
    if m.open.Some? {
      var s := m.segs[m.open.value];
      var after := s.(result := s.result + ev.content, resultDone := false, tsEnd := Later(s.tsEnd, ev.timestamp));
      assert after == RowAfter(m.segs, true, |m.segs| - 1, ev, texts) by { hide IsStreamRow, Indexed; }
      CalledFollows(m, after, ev, texts);
      hide RowAfter, IsRowStep, RowsFollow, Indexed;
      NoAddIs(m, OnToolProgress(m, ev), ev, texts);
    } else {
      StrayIs(m, ev, texts);
    }
  }

  lemma StrayIs(m: Merge, ev: Event, texts: Texts)
    requires Indexed(m) && ev.kind == ToolProgress && m.open.None?
    ensures IsRowStep(m, OnToolProgress(m, ev), ev, texts)
  {
    ProgressRowIs(m, ev, texts);
    var key := Progress(ev.turn, ev.step);
    hide Indexed, Lookup, JoinsText, HasRow, Digits, RowAfter, IsRowStep, RowsFollow;
    if key in m.index {
      StrayOutputFollows(m, m.index[key], ev, texts);
      NoAddIs(m, OnToolProgress(m, ev), ev, texts);
    } else {
      UncalledFollows(m, ev, texts);
      AddIs(m, m, OnToolProgress(m, ev), ev, texts, Some(key));
    }
  }

  /** Metadata stretches the open action in time. */
  lemma MetadataIs(m: Merge, ev: Event, texts: Texts)
    requires IsSound(m) && ev.kind == Metadata
    ensures IsRowStep(m, StretchOpen(m, ev), ev, texts)
  {
    if m.open.Some? {
      var s := m.segs[m.open.value];
      var after := s.(tsEnd := Later(s.tsEnd, ev.timestamp));
      assert after == RowAfter(m.segs, true, |m.segs| - 1, ev, texts) by { hide IsStreamRow, Indexed; }
      CalledFollows(m, after, ev, texts);
      assert StretchOpen(m, ev).segs == Change(m, m.open.value, after).segs;
      hide RowAfter, IsRowStep, RowsFollow, Indexed;
      NoAddIs(m, StretchOpen(m, ev), ev, texts);
    } else {
      UncalledFollows(m, ev, texts);
      NoAddIs(m, m, ev, texts);
    }
  }

  lemma AfterEnd(rows: seq<Segment>, open: bool, i: nat, ev: Event, texts: Texts)
    requires i < |rows| && ev.kind == ThoughtEnd
    ensures RowAfter(rows, open, i, ev, texts)
         == rows[i].(completed := rows[i].completed || IsStreamRow(rows, i, ev.turn, ev.step),
                     tsEnd := if open && i + 1 == |rows| && ev.timestamp.Some? then ev.timestamp else rows[i].tsEnd)
  {
    hide IsStreamRow;
  }

  lemma ThoughtEndIs(m: Merge, ev: Event, texts: Texts)
    requires IsSound(m) && ev.kind == ThoughtEnd
    ensures IsRowStep(m, OnThoughtEnd(m, ev), ev, texts)
  {
    var n := OnThoughtEnd(m, ev);
    EndedRows(m, ev);
    hide Indexed, IsStreamRow, OnThoughtEnd, RowAfter, IsRowStep;
    forall i: nat | i < |m.segs| ensures n.segs[i] == RowAfter(m.segs, m.open.Some?, i, ev, texts) {
      AfterEnd(m.segs, m.open.Some?, i, ev, texts);
    }
    NoAddIs(m, n, ev, texts);
  }

  lemma EndedRows(m: Merge, ev: Event)
    requires IsSound(m) && ev.kind == ThoughtEnd
    ensures var n := OnThoughtEnd(m, ev);
            && |n.segs| == |m.segs| && n.index == m.index
            && forall i: nat | i < |m.segs| ::
                 n.segs[i] == m.segs[i].(completed := m.segs[i].completed || IsStreamRow(m.segs, i, ev.turn, ev.step),
                   tsEnd := if m.open.Some? && i + 1 == |m.segs| && ev.timestamp.Some? then ev.timestamp
                            else m.segs[i].tsEnd)
  {
    StreamingIs(m, ev.turn, ev.step);
    hide Indexed, IsStreamRow, HasStreamRow;
  }

  /** What the merge remembers beside the rows. */
  ghost predicate IsMemoryStep(m: Merge, n: Merge, ev: Event, texts: Texts) {
    && n.open == (if ev.kind == Action then Some(|m.segs|) else if LeavesCallOpen(ev.kind) then m.open else None)
    && n.lastTool == (if ev.kind == Action then ev.tool else m.lastTool)
    && n.actor == var tag := texts.actorTag(ev.kind, ev.content);
                  if tag.Some? && (ev.kind == Reflect || !texts.isBanner(ev.content)) then tag else m.actor
  }

  lemma MemoryIs(m: Merge, ev: Event, texts: Texts)
    requires IsSound(m)
    ensures IsMemoryStep(m, Next(m, ev, texts), ev, texts)
  {
    hide Digits, EventPrefix, NewSegment, TakeOver, SettlePendingStep, Indexed;
    if SettlesStep(ev.kind) && ev.kind != Action {
      MemoryOfModelEvent(m, ev, texts);
    } else if IsCallEvent(ev.kind) {
      MemoryOfCallEvent(m, ev, texts);
    } else {
      MemoryOfStep(m, ev, texts);
    }
  }

  lemma MemoryOfModelEvent(m: Merge, ev: Event, texts: Texts)
    requires SettlesStep(ev.kind) && ev.kind != Action
    ensures IsMemoryStep(m, Next(m, ev, texts), ev, texts)
  {
    TakeOverRemembers(Announce(m, ev, texts), ev);
    hide Digits, EventPrefix, NewSegment, TakeOver, Lookup, IsStreaming;
  }

  lemma MemoryOfCallEvent(m: Merge, ev: Event, texts: Texts)
    requires OpenHolds(m) && IsCallEvent(ev.kind)
    ensures IsMemoryStep(m, Next(m, ev, texts), ev, texts)
  {
    hide Digits, EventPrefix, NewSegment, Lookup, FoldedResult;
  }

  lemma MemoryOfStep(m: Merge, ev: Event, texts: Texts)
    requires ev.kind == StepStart || ev.kind == Action || ev.kind == ThoughtEnd
    ensures IsMemoryStep(m, Next(m, ev, texts), ev, texts)
  {
    TakeOverRemembers(Announce(m, ev, texts), ev);
    hide Digits, EventPrefix, NewSegment, SettlePendingStep, Lookup, IsStreaming;
  }

  lemma TakeOverRemembers(m: Merge, ev: Event)
    ensures var t := TakeOver(m, ev); t.open.None? && t.lastTool == m.lastTool && t.actor == m.actor
    ensures var t := SettlePendingStep(m, ev.turn, ev.step);
            t.lastTool == m.lastTool && t.actor == m.actor && |t.segs| == |m.segs|
  {}

  // ----- whole streams -----

  lemma StepIs(m: Merge, ev: Event, texts: Texts)
    requires IsSound(m)
    ensures IsRowStep(m, Next(m, ev, texts), ev, texts)
  {
    var a := Announce(m, ev, texts);
    assert IsSound(a) && a.segs == m.segs && a.index == m.index && a.open == m.open && a.lastTool == m.lastTool;
    hide IsSound, IsRowStep, Announce, OnStepStart, OnThought, OnThoughtDelta, OnThoughtEnd, OnThinking, OnAction,
         OnObservation, OnToolProgress, OnFileDiff, OnMarker, StretchOpen;
    match ev.kind {
      case StepStart => StepStartIs(a, ev, texts);
      case Thought => ThoughtIs(a, ev, texts);
      case ThoughtDelta => ThoughtDeltaIs(a, ev, texts);
      case ThoughtEnd => ThoughtEndIs(a, ev, texts);
      case Thinking => ThinkingIs(a, ev, texts);
      case Action => ActionIs(a, ev, texts);
      case Observation => ObservationIs(a, ev, texts);
      case ToolProgress => ToolProgressIs(a, ev, texts);
      case FileDiff => FileDiffIs(a, ev, texts);
      case Error => MarkerIs(a, ev, texts, ErrorSegment);
      case Verify => MarkerIs(a, ev, texts, VerifySegment);
      case Reflect => MarkerIs(a, ev, texts, ReflectSegment);
      case HarnessEdit => MarkerIs(a, ev, texts, HarnessEditSegment);
      case Metadata => MetadataIs(a, ev, texts);
    }
    SameStep(m, a, Next(m, ev, texts), ev, texts);
  }

  lemma SameStep(m: Merge, a: Merge, n: Merge, ev: Event, texts: Texts)
    requires a.segs == m.segs && a.index == m.index && a.open == m.open && a.lastTool == m.lastTool
    requires IsRowStep(a, n, ev, texts)
    ensures IsRowStep(m, n, ev, texts)
  {
    hide RowAfter, OpensRow, NewRow, KeyOf;
  }

  lemma AfterKeepsKey(rows: seq<Segment>, open: bool, i: nat, ev: Event, texts: Texts)
    requires i < |rows|
    ensures var s := RowAfter(rows, open, i, ev, texts);
            KeyOf(s) == KeyOf(rows[i]) && s.kind == rows[i].kind && s.turn == rows[i].turn && s.step == rows[i].step
            && s.meta == rows[i].meta
  {
    hide JoinsText, Completes, Stretches;
  }

  lemma IndexedKeeps(m: Merge, n: Merge, ev: Event, texts: Texts)
    requires Indexed(m) && IsRowStep(m, n, ev, texts)
    ensures Indexed(n)
  {
    NewRowsAreNew(m, n, ev, texts);
    hide RowAfter, KeyOf, Indexed;
    forall i: nat | i < |m.segs|
      ensures i < |n.segs| && KeyOf(n.segs[i]) == KeyOf(m.segs[i]) && n.segs[i].kind == m.segs[i].kind
    {
      AfterKeepsKey(m.segs, m.open.Some?, i, ev, texts);
      assert n.segs[i] == RowAfter(m.segs, m.open.Some?, i, ev, texts);
    }
    SameKeysIndexed(m, n);
  }

  lemma SameKeysIndexed(m: Merge, n: Merge)
    requires Indexed(m) && HasOneKeyMore(m, n)
    requires forall i: nat | i < |m.segs| ::
        i < |n.segs| && KeyOf(n.segs[i]) == KeyOf(m.segs[i]) && n.segs[i].kind == m.segs[i].kind
    ensures Indexed(n)
  {
    hide KeyOf;
    if |n.segs| == |m.segs| + 1 {
      hide Indexed;
      AddedIndexed(m, n);
    }
  }

  lemma AddedIndexed(m: Merge, n: Merge)
    requires Indexed(m) && HasOneKeyMore(m, n) && |n.segs| == |m.segs| + 1
    requires forall i: nat | i < |m.segs| :: KeyOf(n.segs[i]) == KeyOf(m.segs[i]) && n.segs[i].kind == m.segs[i].kind
    ensures Indexed(n)
  {
    hide KeyOf;
    forall key | key in n.index ensures n.index[key] < |n.segs| && KeyOf(n.segs[n.index[key]]) == Some(key) {
      if n.index[key] < |m.segs| { assert key in m.index; }
    }
    forall i: nat | i < |n.segs| && KeyOf(n.segs[i]).Some?
      ensures var key := KeyOf(n.segs[i]).value;
              key in n.index && (if n.segs[i].kind == ThoughtSegment then i <= n.index[key] else i == n.index[key])
    {
      if i < |m.segs| {
        assert KeyOf(m.segs[i]) == KeyOf(n.segs[i]);
        if KeyOf(n.segs[i]) == KeyOf(n.segs[|m.segs|]) { KeyTellsThoughts(n.segs[i], n.segs[|m.segs|]); }
      }
    }
  }

  lemma KeyTellsThoughts(a: Segment, b: Segment)
    requires KeyOf(a).Some? && KeyOf(a) == KeyOf(b)
    ensures a.kind == ThoughtSegment <==> b.kind == ThoughtSegment
  {}

  /** At most one row more, under its key, which is a new one unless the row is a thought. */
  ghost predicate HasOneKeyMore(m: Merge, n: Merge) {
    if |n.segs| == |m.segs| then n.index == m.index
    else
      && |n.segs| == |m.segs| + 1
      && var s := n.segs[|m.segs|];
      && n.index == (if KeyOf(s).Some? then m.index[KeyOf(s).value := |m.segs|] else m.index)
      && (KeyOf(s).Some? && s.kind != ThoughtSegment ==> KeyOf(s).value !in m.index)
  }

  lemma NewRowsAreNew(m: Merge, n: Merge, ev: Event, texts: Texts)
    requires Indexed(m) && IsRowStep(m, n, ev, texts)
    ensures HasOneKeyMore(m, n)
  {
    hide RowAfter, OpensRow, NewRow, KeyOf, Indexed;
    if OpensRow(m.segs, m.open.Some?, ev, texts) {
      var s := n.segs[|m.segs|];
      OpensFresh(m.segs, m.open.Some?, ev, texts, s);
      if KeyOf(s).Some? && s.kind != ThoughtSegment && KeyOf(s).value in m.index { KeyHasRow(m, s); }
    }
  }

  lemma OpensFresh(rows: seq<Segment>, open: bool, ev: Event, texts: Texts, s: Segment)
    requires OpensRow(rows, open, ev, texts)
    requires exists actor, lastTool :: s == NewRow(s.id, ev, texts, actor, lastTool)
    ensures KeyOf(s).Some? && s.kind != ThoughtSegment ==> !HasRow(rows, s.kind, s.turn, s.step)
  {
    hide HasRow, HasStreamRow;
  }

  lemma KeyHasRow(m: Merge, s: Segment)
    requires Indexed(m) && KeyOf(s).Some? && s.kind != ThoughtSegment && KeyOf(s).value in m.index
    ensures HasRow(m.segs, s.kind, s.turn, s.step)
  {
    var i := m.index[KeyOf(s).value];
    assert KeyOf(m.segs[i]) == KeyOf(s);
  }

  lemma {:induction false} MergedIsSound(events: seq<Event>, texts: Texts)
    ensures IsSound(Merged(events, texts))
  {
    MergedKeeps(events, texts);
    if events != [] {
      hide Next, Invariant, IsRowStep;
      MergedIsSound(Front(events), texts);
      StepIs(Merged(Front(events), texts), Last(events), texts);
      IndexedKeeps(Merged(Front(events), texts), Merged(events, texts), Last(events), texts);
    }
  }

  /** Behind the action at `q` come only output, diffs, metadata and ends of thoughts. */
  ghost predicate IsOpenCall(events: seq<Event>, q: nat) {
    q < |events| && events[q].kind == Action && forall k | q < k < |events| :: LeavesCallOpen(events[k].kind)
  }

  /** An action takes results until its observation, or until the language model speaks or acts again. */
  ghost predicate CallIsOpen(events: seq<Event>) {
    exists q: nat :: IsOpenCall(events, q)
  }

  ghost function LastTool(events: seq<Event>): string {
    if events == [] then "" else if Last(events).kind == Action then Last(events).tool else LastTool(Front(events))
  }

  /** The identity announced last; only a reflection may look like a banner and still announce one. */
  ghost function Announced(events: seq<Event>, texts: Texts): Option<string> {
    if events == [] then None
    else
      var ev := Last(events);
      var tag := texts.actorTag(ev.kind, ev.content);
      if tag.Some? && (ev.kind == Reflect || !texts.isBanner(ev.content)) then tag else Announced(Front(events), texts)
  }

  lemma CallSnoc(before: seq<Event>, ev: Event)
    ensures CallIsOpen(before + [ev]) <==> ev.kind == Action || (LeavesCallOpen(ev.kind) && CallIsOpen(before))
  {
    var events := before + [ev];
    if ev.kind == Action { assert IsOpenCall(events, |before|); }
    if q: nat :| IsOpenCall(before, q) {
      if LeavesCallOpen(ev.kind) { assert IsOpenCall(events, q); }
    }
    if q: nat :| IsOpenCall(events, q) {
      if q < |before| {
        assert events[|before|] == ev;
        forall k | q < k < |before| ensures LeavesCallOpen(before[k].kind) { assert events[k] == before[k]; }
        assert IsOpenCall(before, q);
      }
    }
  }

  /** What the merge remembers is what the events say. */
  lemma {:induction false} MemoryOfEvents(events: seq<Event>, texts: Texts)
    ensures var m := Merged(events, texts);
            && (m.open.Some? <==> CallIsOpen(events))
            && m.lastTool == LastTool(events) && m.actor == Announced(events, texts)
  {
    if events != [] {
      hide Next, CallIsOpen, IsSound;
      MemoryOfEvents(Front(events), texts);
      MergedIsSound(Front(events), texts);
      MemoryIs(Merged(Front(events), texts), Last(events), texts);
      assert events == Front(events) + [Last(events)];
      CallSnoc(Front(events), Last(events));
    }
  }

  /** Everything an event does, after whatever events: the row it opens, if it opens one, and what becomes of every
      row there was. */
  lemma EventIs(before: seq<Event>, ev: Event, texts: Texts)
    ensures var rows, after := Merged(before, texts).segs, Merged(before + [ev], texts).segs;
            var k, opens := |rows|, OpensRow(rows, CallIsOpen(before), ev, texts);
            && |after| == (if opens then k + 1 else k)
            && (opens ==>
                  after[k] == NewRow(after[k].id, ev, texts, Announced(before + [ev], texts), LastTool(before)))
            && forall i: nat | i < k :: after[i] == RowAfter(rows, CallIsOpen(before), i, ev, texts)
  {
    assert Front(before + [ev]) == before;
    MemoryOfEvents(before, texts);
    MemoryOfEvents(before + [ev], texts);
    MergedIsSound(before, texts);
    hide IsSound, Next, CallIsOpen, OpensRow, RowAfter, NewRow, LastTool, Announced;
    StepIs(Merged(before, texts), ev, texts);
  }

  // ----- rows that are done -----

  /** A row whose text nothing is added to any more. */
  predicate IsSaid(s: Segment) {
    s.kind != ThinkingSegment && s.kind != ToolProgressSegment && (s.kind == ThoughtSegment ==> s.completed)
  }

  /** The same row, with nothing added to its text. */
  predicate StaysSaid(s: Segment, t: Segment) {
    && t == s.(completed := t.completed, result := t.result, resultDone := t.resultDone, diff := t.diff,
              tsEnd := t.tsEnd)
    && (s.completed ==> t.completed)
  }

  lemma SaidStays(rows: seq<Segment>, open: bool, i: nat, ev: Event, texts: Texts)
    requires i < |rows| && IsSaid(rows[i])
    ensures StaysSaid(rows[i], RowAfter(rows, open, i, ev, texts))
  {
    hide Completes, Stretches;
  }

  lemma SaidTwice(a: Segment, b: Segment, c: Segment)
    requires IsSaid(a) && StaysSaid(a, b)
    ensures IsSaid(b) && (StaysSaid(b, c) ==> StaysSaid(a, c))
  {}

  lemma SaidStaysOnce(before: seq<Event>, ev: Event, texts: Texts, i: nat)
    requires i < |Merged(before, texts).segs| && IsSaid(Merged(before, texts).segs[i])
    ensures i < |Merged(before + [ev], texts).segs|
    ensures StaysSaid(Merged(before, texts).segs[i], Merged(before + [ev], texts).segs[i])
  {
    EventIs(before, ev, texts);
    hide *;
    SaidStays(Merged(before, texts).segs, CallIsOpen(before), i, ev, texts);
  }

  lemma {:induction false} SaidStaysForGood(before: seq<Event>, later: seq<Event>, texts: Texts, i: nat)
    requires i < |Merged(before, texts).segs| && IsSaid(Merged(before, texts).segs[i])
    ensures i < |Merged(before + later, texts).segs|
    ensures StaysSaid(Merged(before, texts).segs[i], Merged(before + later, texts).segs[i])
    decreases |later|
  {
    if later == [] {
      assert before + later == before;
    } else {
      var n := |later| - 1;
      assert before + later == before + later[..n] + [later[n]];
      hide *;
      SaidStaysForGood(before, later[..n], texts, i);
      var a, b := Merged(before, texts).segs[i], Merged(before + later[..n], texts).segs[i];
      SaidTwice(a, b, b);
      SaidStaysOnce(before + later[..n], later[n], texts, i);
      SaidTwice(a, b, Merged(before + later, texts).segs[i]);
    }
  }

  /** A whole thought, unless it is another framework's banner, and an error, a verdict, a reflection, an edit, and an
      observation or a diff that meets no open action, are each one row of their own: completed, of the event's turn
      and step, with exactly its content, whatever came before and whatever follows. */
  lemma EachIsOneRow(before: seq<Event>, ev: Event, later: seq<Event>, texts: Texts)
    requires || (ev.kind == Thought && !texts.isForeign(ev.content))
             || ev.kind == Error || ev.kind == Verify || ev.kind == Reflect || ev.kind == HarnessEdit
             || ((ev.kind == Observation || ev.kind == FileDiff) && !CallIsOpen(before))
    ensures var k := |Merged(before, texts).segs|;
            && |Merged(before + [ev], texts).segs| == k + 1 <= |Merged(before + [ev] + later, texts).segs|
            && var s := Merged(before + [ev] + later, texts).segs[k];
            && s.kind == RowKind(ev.kind) && s.turn == ev.turn && s.step == ev.step
            && s.text == ev.content && s.completed && s.tsStart == ev.timestamp
            && s.meta == (ev.kind == Thought && texts.isBanner(ev.content))
            && s.tool == (if ev.kind == Observation then LastTool(before) else "")
            && s.actor == Announced(before + [ev], texts)
  {
    EventIs(before, ev, texts);
    hide Merged, CallIsOpen, RowAfter, Announced, LastTool;
    var k := |Merged(before, texts).segs|;
    assert IsSaid(Merged(before + [ev], texts).segs[k]);
    SaidStaysForGood(before + [ev], later, texts, k);
  }

  /** A foreign banner adds no row, and neither does an empty piece of a thought. */
  lemma NothingToShow(before: seq<Event>, ev: Event, texts: Texts)
    requires (ev.kind == Thought && texts.isForeign(ev.content))
          || (ev.kind == ThoughtDelta && (ev.content == "" || texts.isForeign(ev.content)))
          || ev.kind == ThoughtEnd || ev.kind == Metadata
    ensures |Merged(before + [ev], texts).segs| == |Merged(before, texts).segs|
    ensures forall i: nat | i < |Merged(before, texts).segs| ::
              Merged(before + [ev], texts).segs[i].text == Merged(before, texts).segs[i].text
  {
    EventIs(before, ev, texts);
    hide Merged, CallIsOpen, Completes, Stretches, NewRow, IsStreamRow;
  }

  // ----- rows that collect -----

  predicate IsCollected(kind: EventKind) {
    kind == Thinking || kind == ToolProgress
  }

  /** Thinking of this step, or output of it that meets no open action. */
  ghost predicate Tells(open: bool, ev: Event, kind: EventKind, turn: nat, step: int) {
    ev.kind == kind && ev.turn == turn && ev.step == step && (kind == ToolProgress ==> !open)
  }

  /** All that the events of one kind tell of a step, in order. */
  ghost function Told(events: seq<Event>, kind: EventKind, turn: nat, step: int): string {
    if events == [] then ""
    else
      Told(Front(events), kind, turn, step)
      + if Tells(CallIsOpen(Front(events)), Last(events), kind, turn, step) then Last(events).content else ""
  }

  ghost predicate IsTold(events: seq<Event>, kind: EventKind, turn: nat, step: int) {
    events != []
    && (Tells(CallIsOpen(Front(events)), Last(events), kind, turn, step) || IsTold(Front(events), kind, turn, step))
  }

  ghost predicate IsRowFor(s: Segment, kind: SegmentKind, turn: nat, step: int) {
    s.kind == kind && s.turn == turn && s.step == step
  }

  /** Exactly one row of the kind for the step if it was told of, with this text. */
  ghost predicate Collects(rows: seq<Segment>, kind: SegmentKind, turn: nat, step: int, told: bool, text: string) {
    && (told <==> exists i: nat :: i < |rows| && IsRowFor(rows[i], kind, turn, step))
    && (forall i: nat | i < |rows| && IsRowFor(rows[i], kind, turn, step) :: rows[i].text == text)
    && (forall i: nat, j: nat | i < j < |rows| && IsRowFor(rows[i], kind, turn, step) ::
          !IsRowFor(rows[j], kind, turn, step))
  }

  lemma RowCollects(rows: seq<Segment>, open: bool, i: nat, ev: Event, texts: Texts, kind: EventKind, turn: nat,
        step: int)
    requires i < |rows| && IsCollected(kind)
    ensures var t := RowAfter(rows, open, i, ev, texts);
            && (IsRowFor(t, RowKind(kind), turn, step) <==> IsRowFor(rows[i], RowKind(kind), turn, step))
            && (IsRowFor(t, RowKind(kind), turn, step) ==>
                  t.text == if Tells(open, ev, kind, turn, step) then rows[i].text + ev.content else rows[i].text)
  {
    hide Completes, Stretches;
  }

  lemma RowOpensCollection(rows: seq<Segment>, open: bool, ev: Event, texts: Texts, id: string, actor: Option<string>,
        lastTool: string, kind: EventKind, turn: nat, step: int)
    requires IsCollected(kind) && OpensRow(rows, open, ev, texts)
    ensures var s := NewRow(id, ev, texts, actor, lastTool);
            && (IsRowFor(s, RowKind(kind), turn, step) <==> Tells(open, ev, kind, turn, step))
            && (IsRowFor(s, RowKind(kind), turn, step) ==>
                  s.text == ev.content && !HasRow(rows, RowKind(kind), turn, step))
  {
    hide HasRow, HasStreamRow;
  }

  lemma RowIsThere(rows: seq<Segment>, open: bool, ev: Event, texts: Texts, kind: EventKind, turn: nat, step: int)
    requires IsCollected(kind) && !OpensRow(rows, open, ev, texts) && Tells(open, ev, kind, turn, step)
    ensures HasRow(rows, RowKind(kind), turn, step)
  {
    hide HasRow, HasStreamRow;
  }

  /** The rows after an event, with one more at the end if it opens one. */
  ghost predicate RowsAfter(rows: seq<Segment>, after: seq<Segment>, open: bool, ev: Event, texts: Texts) {
    && |after| == (if OpensRow(rows, open, ev, texts) then |rows| + 1 else |rows|)
    && (OpensRow(rows, open, ev, texts) ==>
          exists id, actor, lastTool :: after[|rows|] == NewRow(id, ev, texts, actor, lastTool))
    && (forall i: nat | i < |rows| :: after[i] == RowAfter(rows, open, i, ev, texts))
  }

  lemma CollectStep(rows: seq<Segment>, after: seq<Segment>, open: bool, ev: Event, texts: Texts, kind: EventKind,
        turn: nat, step: int, told: bool, text: string)
    requires IsCollected(kind) && Collects(rows, RowKind(kind), turn, step, told, text) && (!told ==> text == "")
    requires RowsAfter(rows, after, open, ev, texts)
    ensures var tells := Tells(open, ev, kind, turn, step);
            Collects(after, RowKind(kind), turn, step, told || tells, text + if tells then ev.content else "")
  {
    var tells, k := Tells(open, ev, kind, turn, step), RowKind(kind);
    hide RowAfter, OpensRow, NewRow, HasRow, Tells, RowKind, IsCollected, IsRowFor;
    assert text + "" == text;
    RowIsTold(rows, k, turn, step, told, text);
    forall i: nat | i < |rows|
      ensures i < |after| && (IsRowFor(after[i], k, turn, step) <==> IsRowFor(rows[i], k, turn, step))
      ensures IsRowFor(after[i], k, turn, step) ==> after[i].text == text + if tells then ev.content else ""
    {
      RowCollects(rows, open, i, ev, texts, kind, turn, step);
    }
    if OpensRow(rows, open, ev, texts) {
      var id, actor, lastTool :| after[|rows|] == NewRow(id, ev, texts, actor, lastTool);
      RowOpensCollection(rows, open, ev, texts, id, actor, lastTool, kind, turn, step);
      assert "" + ev.content == ev.content;
    } else if tells {
      RowIsThere(rows, open, ev, texts, kind, turn, step);
    }
    SameRowsCollect(rows, after, k, turn, step, told, tells, text, text + if tells then ev.content else "");
  }

  lemma RowIsTold(rows: seq<Segment>, kind: SegmentKind, turn: nat, step: int, told: bool, text: string)
    requires Collects(rows, kind, turn, step, told, text)
    ensures HasRow(rows, kind, turn, step) <==> told
  {
    if told {
      var i: nat :| i < |rows| && IsRowFor(rows[i], kind, turn, step);
      assert rows[i].kind == kind;
    }
    if HasRow(rows, kind, turn, step) {
      var i :| 0 <= i < |rows| && rows[i].kind == kind && rows[i].turn == turn && rows[i].step == step;
      assert IsRowFor(rows[i], kind, turn, step);
    }
  }

  lemma SameRowsCollect(rows: seq<Segment>, after: seq<Segment>, kind: SegmentKind, turn: nat, step: int, told: bool,
        tells: bool, text: string, more: string)
    requires Collects(rows, kind, turn, step, told, text)
    requires |rows| <= |after| <= |rows| + 1
    requires forall i: nat | i < |rows| :: IsRowFor(after[i], kind, turn, step) <==> IsRowFor(rows[i], kind, turn, step)
    requires forall i: nat | i < |rows| && IsRowFor(after[i], kind, turn, step) :: after[i].text == more
    requires if |after| == |rows| then tells ==> told
             else var s := after[|rows|];
               && (IsRowFor(s, kind, turn, step) <==> tells)
               && (tells ==> s.text == more && !told)
    ensures Collects(after, kind, turn, step, told || tells, more)
  {
    hide IsRowFor;
    if |after| > |rows| && tells { assert IsRowFor(after[|rows|], kind, turn, step); }
    if told {
      var i: nat :| i < |rows| && IsRowFor(rows[i], kind, turn, step);
      assert IsRowFor(after[i], kind, turn, step);
    }
  }

  lemma EventLeavesRows(before: seq<Event>, ev: Event, texts: Texts)
    ensures RowsAfter(Merged(before, texts).segs, Merged(before + [ev], texts).segs, CallIsOpen(before), ev, texts)
  {
    EventIs(before, ev, texts);
    hide Merged, RowAfter, OpensRow, NewRow, CallIsOpen, LastTool, Announced;
  }

  lemma {:induction false} NothingTold(events: seq<Event>, kind: EventKind, turn: nat, step: int)
    requires !IsTold(events, kind, turn, step)
    ensures Told(events, kind, turn, step) == ""
  {
    if events != [] { NothingTold(Front(events), kind, turn, step); }
  }

  lemma NoRowsYet(texts: Texts, kind: SegmentKind, turn: nat, step: int)
    ensures Collects(Merged([], texts).segs, kind, turn, step, false, "")
  {}

  /** All thinking of a step is one row, and so is all output of it that meets no open action: the contents in order,
      whatever is interleaved with them. */
  lemma {:induction false} ToldInOneRow(events: seq<Event>, texts: Texts, kind: EventKind, turn: nat, step: int)
    requires kind == Thinking || kind == ToolProgress
    ensures Collects(Merged(events, texts).segs, RowKind(kind), turn, step, IsTold(events, kind, turn, step),
                     Told(events, kind, turn, step))
  {
    if events == [] {
      NoRowsYet(texts, RowKind(kind), turn, step);
    } else {
      var before, ev := Front(events), Last(events);
      ToldInOneRow(before, texts, kind, turn, step);
      assert events == before + [ev];
      if !IsTold(before, kind, turn, step) { NothingTold(before, kind, turn, step); }
      EventLeavesRows(before, ev, texts);
      var rows, after := Merged(before, texts).segs, Merged(events, texts).segs;
      hide Merged, RowsAfter, Collects, CallIsOpen, RowKind, Tells;
      CollectStep(rows, after, CallIsOpen(before), ev, texts, kind, turn, step, IsTold(before, kind, turn, step),
                  Told(before, kind, turn, step));
    }
  }

  // ----- rows of announced steps -----

  ghost predicate IsAnnounced(events: seq<Event>, turn: nat, step: int) {
    exists q :: 0 <= q < |events| && IsStart(events[q], turn, step)
  }

  predicate IsStart(ev: Event, turn: nat, step: int) {
    ev.kind == StepStart && ev.turn == turn && ev.step == step
  }

  /** Real content of the step. */
  ghost predicate IsContent(ev: Event, turn: nat, step: int) {
    SettlesStep(ev.kind) && ev.turn == turn && ev.step == step
  }

  /** Content came behind the announcement. */
  ghost predicate IsTaken(events: seq<Event>, turn: nat, step: int) {
    exists p, q :: 0 <= p < q < |events| && IsStart(events[p], turn, step) && IsContent(events[q], turn, step)
  }

  lemma AnnouncedSnoc(before: seq<Event>, ev: Event, turn: nat, step: int)
    ensures IsAnnounced(before + [ev], turn, step) <==> IsAnnounced(before, turn, step) || IsStart(ev, turn, step)
    ensures IsTaken(before + [ev], turn, step) <==>
              IsTaken(before, turn, step) || (IsAnnounced(before, turn, step) && IsContent(ev, turn, step))
  {
    var events := before + [ev];
    assert events[|before|] == ev && forall k | 0 <= k < |before| :: events[k] == before[k];
    hide IsStart, IsContent;
    if q :| 0 <= q < |before| && IsStart(before[q], turn, step) { assert IsStart(events[q], turn, step); }
    if q :| 0 <= q < |events| && IsStart(events[q], turn, step) && q < |before| {
      assert IsStart(before[q], turn, step);
    }
    if p, q :| 0 <= p < q < |before| && IsStart(before[p], turn, step) && IsContent(before[q], turn, step) {
      assert IsStart(events[p], turn, step) && IsContent(events[q], turn, step);
    }
    if p, q :| 0 <= p < q < |events| && IsStart(events[p], turn, step) && IsContent(events[q], turn, step) {
      assert IsStart(before[p], turn, step);
      if q < |before| { assert IsContent(before[q], turn, step); }
    }
  }

  /** One row for the step if it was announced, completed exactly if it was taken. */
  ghost predicate Shows(rows: seq<Segment>, turn: nat, step: int, announced: bool, taken: bool) {
    && (announced <==> exists i: nat :: i < |rows| && IsRowFor(rows[i], StepSegment, turn, step))
    && (forall i: nat | i < |rows| && IsRowFor(rows[i], StepSegment, turn, step) :: rows[i].completed == taken)
    && (forall i: nat, j: nat | i < j < |rows| && IsRowFor(rows[i], StepSegment, turn, step) ::
          !IsRowFor(rows[j], StepSegment, turn, step))
  }

  lemma StepRowAfter(rows: seq<Segment>, open: bool, i: nat, ev: Event, texts: Texts, turn: nat, step: int)
    requires i < |rows|
    ensures var t := RowAfter(rows, open, i, ev, texts);
            && (IsRowFor(t, StepSegment, turn, step) <==> IsRowFor(rows[i], StepSegment, turn, step))
            && (IsRowFor(t, StepSegment, turn, step) ==>
                  t.completed == (rows[i].completed || IsContent(ev, turn, step)))
  {
    hide JoinsText, Stretches;
  }

  lemma StepRowOpens(rows: seq<Segment>, open: bool, ev: Event, texts: Texts, id: string, actor: Option<string>,
        lastTool: string, turn: nat, step: int)
    requires OpensRow(rows, open, ev, texts)
    ensures var s := NewRow(id, ev, texts, actor, lastTool);
            && (IsRowFor(s, StepSegment, turn, step) <==> IsStart(ev, turn, step))
            && (IsRowFor(s, StepSegment, turn, step) ==> !s.completed && !HasRow(rows, StepSegment, turn, step))
  {
    hide HasRow, HasStreamRow;
  }

  lemma StepRowIsThere(rows: seq<Segment>, open: bool, ev: Event, texts: Texts, turn: nat, step: int)
    requires !OpensRow(rows, open, ev, texts) && IsStart(ev, turn, step)
    ensures HasRow(rows, StepSegment, turn, step)
  {
    hide HasRow, HasStreamRow;
  }

  lemma ShowStep(rows: seq<Segment>, after: seq<Segment>, open: bool, ev: Event, texts: Texts, turn: nat, step: int,
        announced: bool, taken: bool)
    requires Shows(rows, turn, step, announced, taken) && (taken ==> announced)
    requires RowsAfter(rows, after, open, ev, texts)
    ensures Shows(after, turn, step, announced || IsStart(ev, turn, step),
                  taken || (announced && IsContent(ev, turn, step)))
  {
    hide RowAfter, OpensRow, NewRow, HasRow, IsRowFor, IsContent, IsStart;
    StartIsNoContent(ev, turn, step);
    StepRowIsShown(rows, turn, step, announced, taken);
    forall i: nat | i < |rows|
      ensures i < |after|
          && (IsRowFor(after[i], StepSegment, turn, step) <==> IsRowFor(rows[i], StepSegment, turn, step))
      ensures IsRowFor(after[i], StepSegment, turn, step) ==>
                after[i].completed == (rows[i].completed || IsContent(ev, turn, step))
    {
      StepRowAfter(rows, open, i, ev, texts, turn, step);
    }
    if OpensRow(rows, open, ev, texts) {
      var id, actor, lastTool :| after[|rows|] == NewRow(id, ev, texts, actor, lastTool);
      StepRowOpens(rows, open, ev, texts, id, actor, lastTool, turn, step);
    } else if IsStart(ev, turn, step) {
      StepRowIsThere(rows, open, ev, texts, turn, step);
    }
    SameRowsShow(rows, after, turn, step, announced, taken, IsStart(ev, turn, step), IsContent(ev, turn, step));
  }

  lemma StartIsNoContent(ev: Event, turn: nat, step: int)
    ensures !(IsStart(ev, turn, step) && IsContent(ev, turn, step))
  {}

  lemma StepRowIsShown(rows: seq<Segment>, turn: nat, step: int, announced: bool, taken: bool)
    requires Shows(rows, turn, step, announced, taken)
    ensures HasRow(rows, StepSegment, turn, step) <==> announced
  {
    if announced {
      var i: nat :| i < |rows| && IsRowFor(rows[i], StepSegment, turn, step);
      assert rows[i].kind == StepSegment;
    }
    if HasRow(rows, StepSegment, turn, step) {
      var i :| 0 <= i < |rows| && rows[i].kind == StepSegment && rows[i].turn == turn && rows[i].step == step;
      assert IsRowFor(rows[i], StepSegment, turn, step);
    }
  }

  lemma SameRowsShow(rows: seq<Segment>, after: seq<Segment>, turn: nat, step: int, announced: bool, taken: bool,
        starts: bool, settles: bool)
    requires Shows(rows, turn, step, announced, taken) && !(starts && settles) && (taken ==> announced)
    requires |rows| <= |after| <= |rows| + 1
    requires forall i: nat | i < |rows| ::
        && (IsRowFor(after[i], StepSegment, turn, step) <==> IsRowFor(rows[i], StepSegment, turn, step))
        && (IsRowFor(after[i], StepSegment, turn, step) ==> after[i].completed == (rows[i].completed || settles))
    requires if |after| == |rows| then starts ==> announced
             else var s := after[|rows|];
               && (IsRowFor(s, StepSegment, turn, step) <==> starts) && (starts ==> !s.completed && !announced)
    ensures Shows(after, turn, step, announced || starts, taken || (announced && settles))
  {
    hide IsRowFor;
    if |after| > |rows| && starts { assert IsRowFor(after[|rows|], StepSegment, turn, step); }
    if announced {
      var i: nat :| i < |rows| && IsRowFor(rows[i], StepSegment, turn, step);
      assert IsRowFor(after[i], StepSegment, turn, step);
    }
  }

  /** An announced step is one row, completed exactly when content of the step came behind the announcement. */
  lemma {:induction false} AnnouncedStepIsOneRow(events: seq<Event>, texts: Texts, turn: nat, step: int)
    ensures Shows(Merged(events, texts).segs, turn, step, IsAnnounced(events, turn, step), IsTaken(events, turn, step))
  {
    if events == [] {
      NoStepsYet(texts, turn, step);
    } else {
      var before, ev := Front(events), Last(events);
      AnnouncedStepIsOneRow(before, texts, turn, step);
      assert events == before + [ev];
      AnnouncedSnoc(before, ev, turn, step);
      EventLeavesRows(before, ev, texts);
      TakenIsAnnounced(before, turn, step);
      var rows, after := Merged(before, texts).segs, Merged(events, texts).segs;
      hide *;
      ShowStep(rows, after, CallIsOpen(before), ev, texts, turn, step, IsAnnounced(before, turn, step),
               IsTaken(before, turn, step));
    }
  }

  lemma TakenIsAnnounced(events: seq<Event>, turn: nat, step: int)
    ensures IsTaken(events, turn, step) ==> IsAnnounced(events, turn, step)
  {
    hide IsStart, IsContent;
  }

  lemma NoStepsYet(texts: Texts, turn: nat, step: int)
    ensures Shows(Merged([], texts).segs, turn, step, IsAnnounced([], turn, step), IsTaken([], turn, step))
  {}

  // ----- the marks, by position -----

  /** A completed thought that says something and is no banner. */
  lemma SettledExactly(s: Segment)
    ensures IsSettledThought(s) <==>
              s.kind == ThoughtSegment && !s.meta && s.completed
              && exists k :: 0 <= k < |s.text| && !IsSpace(s.text[k])
  {
    TrimOfBlank(s.text);
    hide Trim, IsSpace;
  }

  predicate IsAside(s: Segment) {
    s.kind == ThinkingSegment || s.kind == StepSegment
  }

  /** The first row behind `i` that is neither thinking nor a step. */
  ghost predicate IsNext(segs: seq<Segment>, i: nat, j: nat) {
    i < j < |segs| && !IsAside(segs[j]) && forall k | i < k < j :: IsAside(segs[k])
  }

  /** The last row before `i` that is neither thinking nor a step nor a banner. */
  ghost predicate IsPrevious(segs: seq<Segment>, i: nat, j: nat) {
    && j < i <= |segs| && !IsAside(segs[j]) && !segs[j].meta
    && forall k | j < k < i :: IsAside(segs[k]) || segs[k].meta
  }

  lemma {:induction false} PrevContentIs(segs: seq<Segment>, i: nat)
    requires i <= |segs|
    ensures forall j: nat | IsPrevious(segs, i, j) :: PrevContent(segs, i) == Some(segs[j])
    ensures PrevContent(segs, i).Some? ==> exists j: nat :: IsPrevious(segs, i, j)
  {
    if i > 0 {
      if IsAside(segs[i-1]) || segs[i-1].meta {
        var before: nat := i - 1;
        PrevContentIs(segs, before);
        forall j: nat | IsPrevious(segs, i, j) ensures PrevContent(segs, i) == Some(segs[j]) {
          assert IsPrevious(segs, before, j);
        }
        if j: nat :| IsPrevious(segs, before, j) { assert IsPrevious(segs, i, j); }
      } else {
        assert IsPrevious(segs, i, i - 1);
      }
    }
  }

  lemma {:induction false} NextContentIs(segs: seq<Segment>, i: nat)
    requires i < |segs|
    ensures forall j: nat | IsNext(segs, i, j) :: NextContent(segs, i + 1) == Some(segs[j])
    ensures NextContent(segs, i + 1).Some? ==> exists j: nat :: IsNext(segs, i, j)
    decreases |segs| - i
  {
    if i + 1 < |segs| {
      if IsAside(segs[i+1]) {
        var behind: nat := i + 1;
        NextContentIs(segs, behind);
        forall j: nat | IsNext(segs, i, j) ensures NextContent(segs, behind) == Some(segs[j]) {
          assert IsNext(segs, behind, j);
        }
        if j: nat :| IsNext(segs, behind, j) { assert IsNext(segs, i, j); }
      } else {
        assert IsNext(segs, i, i + 1);
      }
    }
  }

  ghost predicate LeadsIntoCall(segs: seq<Segment>, i: nat) {
    exists j: nat :: IsNext(segs, i, j) && segs[j].kind == ActionSegment
  }

  ghost predicate FollowsTool(segs: seq<Segment>, i: nat) {
    exists j: nat :: IsPrevious(segs, i, j)
      && (segs[j].kind == ActionSegment || segs[j].kind == ObservationSegment)
  }

  /** A settled thought that leads into a call and follows no tool states the action, one that follows a tool and leads
      into no call wraps up; doing both or neither it has no role, and nothing else has one. */
  lemma RoleExactly(segs: seq<Segment>, i: nat)
    requires i < |segs|
    ensures var leads, follows := LeadsIntoCall(segs, i), FollowsTool(segs, i);
            RoleOf(segs, i) == if !IsSettledThought(segs[i]) || leads == follows then None
                               else if leads then Some(ActionStatement) else Some(ObservationWrapUp)
  {
    PrevContentIs(segs, i);
    NextContentIs(segs, i);
    hide PrevContent, NextContent, IsSettledThought, IsNext, IsPrevious;
  }
}
