/** The event stream of a column, merged into one display segment per agent action. */
module TraceEvents {
  import opened JsText

  datatype EventKind =
    | StepStart | Thought | ThoughtDelta | ThoughtEnd | Thinking | Action | Observation | ToolProgress | FileDiff
    | Error | Verify | Reflect | HarnessEdit | Metadata

  /** `content` is the message of an error and the result of an observation. */
  datatype Event = Event(kind: EventKind, step: int, turn: nat, timestamp: Option<int>, content: string,
    tool: string, args: string)

  datatype SegmentKind =
    | ThoughtSegment | ThinkingSegment | StepSegment | ActionSegment | ObservationSegment | ErrorSegment
    | VerifySegment | ReflectSegment | HarnessEditSegment | ToolProgressSegment | FileDiffSegment

  datatype StepRole = ActionStatement | ObservationWrapUp

  datatype Segment = Segment(
    id: string, kind: SegmentKind, step: int, turn: nat, text: string, tool: string, args: string,
    result: string, resultDone: bool, diff: string, meta: bool, completed: bool,
    tsStart: Option<int>, tsEnd: Option<int>, final: bool, actor: Option<string>, stepRole: Option<StepRole>)

  datatype Key =
    | PendingStep(turn: nat, step: int) | Banner(turn: nat) | Stream(turn: nat, step: int)
    | ThinkingKey(turn: nat, step: int) | Progress(turn: nat, step: int)

  /** The text tests, taken as given: driver banners, banners of another framework, and announced identities. */
  datatype Texts = Texts(isBanner: string -> bool, isForeign: string -> bool,
    actorTag: (EventKind, string) -> Option<string>)

  /** `observed`: the actions that already took their observation. */
  datatype Merge = Merge(
    segs: seq<Segment>, index: map<Key, nat>, open: Option<nat>, lastTool: string, actor: Option<string>,
    observed: set<nat>)

  const START := Merge([], map[], None, "", None, {})

  // ----- building blocks -----

  function NewSegment(m: Merge, ev: Event, prefix: string, kind: SegmentKind, text: string, completed: bool): Segment {
    Segment(prefix + ":" + Digits(|m.segs|), kind, ev.step, ev.turn, text, "", "", "", true, "", false, completed,
            ev.timestamp, ev.timestamp, false, m.actor, None)
  }

  /** Identifiers made from the event itself rather than from a fixed word. */
  function EventPrefix(ev: Event): string {
    Digits(ev.turn) + ":" + KindName(ev.kind) + ":" + SignedDigits(ev.step)
  }

  function SignedDigits(n: int): string {
    if n < 0 then "-" + Digits(-n) else Digits(n)
  }

  function KindName(kind: EventKind): string {
    match kind
    case Action => "action"
    case Observation => "observation"
    case FileDiff => "file_diff"
    case Error => "error"
    case Verify => "verify"
    case Reflect => "reflect"
    case HarnessEdit => "harness_edit"
    case _ => ""
  }

  function Add(m: Merge, s: Segment): Merge {
    m.(segs := m.segs + [s])
  }

  function AddKeyed(m: Merge, s: Segment, key: Key): Merge {
    m.(segs := m.segs + [s], index := m.index[key := |m.segs|])
  }

  function Change(m: Merge, i: nat, s: Segment): Merge
    requires i < |m.segs|
  {
    m.(segs := m.segs[i := s])
  }

  /** The segment a key stands for. */
  function Lookup(m: Merge, key: Key): Option<nat> {
    if key in m.index && m.index[key] < |m.segs| then Some(m.index[key]) else None
  }

  function Later(was: Option<int>, ts: Option<int>): Option<int> {
    if ts.Some? then ts else was
  }

  /** Real content now represents a step announced before. */
  function SettlePendingStep(m: Merge, turn: nat, step: int): Merge {
    var at := Lookup(m, PendingStep(turn, step));
    if at.Some? && m.segs[at.value].kind == StepSegment && !m.segs[at.value].completed
    then Change(m, at.value, m.segs[at.value].(completed := true))
    else m
  }

  /** A language-model event owns the timeline: no action takes results any more. */
  function TakeOver(m: Merge, ev: Event): Merge {
    SettlePendingStep(m.(open := None), ev.turn, ev.step)
  }

  // ----- one event -----

  function OnStepStart(m: Merge, ev: Event): Merge {
    var key := PendingStep(ev.turn, ev.step);
    if key in m.index then m.(open := None)
    else AddKeyed(m.(open := None), NewSegment(m, ev, "t:step", StepSegment, "", false), key)
  }

  function OnThought(m: Merge, ev: Event, texts: Texts): Merge {
    var t := TakeOver(m, ev);
    if texts.isForeign(ev.content) then t
    else
      var s := NewSegment(t, ev, "t:thought", ThoughtSegment, ev.content, true);
      if texts.isBanner(ev.content) then AddKeyed(t, s.(meta := true), Banner(ev.turn))
      else AddKeyed(t, s, Stream(ev.turn, ev.step))
  }

  predicate IsStreaming(m: Merge, key: Key) {
    var at := Lookup(m, key);
    at.Some? && m.segs[at.value].kind == ThoughtSegment && !m.segs[at.value].completed
  }

  function OnThoughtDelta(m: Merge, ev: Event, texts: Texts): Merge {
    var t := TakeOver(m, ev);
    var key := Stream(ev.turn, ev.step);
    if ev.content == "" || texts.isForeign(ev.content) then t
    else if texts.isBanner(ev.content) then
      AddKeyed(t, NewSegment(t, ev, "t:thought", ThoughtSegment, ev.content, true).(meta := true), Banner(ev.turn))
    else if IsStreaming(t, key) then
      var s := t.segs[t.index[key]];
      Change(t, t.index[key], s.(text := s.text + ev.content, tsEnd := Later(s.tsEnd, ev.timestamp)))
    else AddKeyed(t, NewSegment(t, ev, "t:thought", ThoughtSegment, ev.content, false), key)
  }

  /** An event that neither adds a segment nor ends the open action still stretches it in time. */
  function StretchOpen(m: Merge, ev: Event): Merge {
    if m.open.Some? && m.open.value < |m.segs| && ev.timestamp.Some?
    then Change(m, m.open.value, m.segs[m.open.value].(tsEnd := ev.timestamp))
    else m
  }

  function OnThoughtEnd(m: Merge, ev: Event): Merge {
    var key := Stream(ev.turn, ev.step);
    var t := if IsStreaming(m, key) then Change(m, m.index[key], m.segs[m.index[key]].(completed := true)) else m;
    StretchOpen(t, ev)
  }

  function OnThinking(m: Merge, ev: Event): Merge {
    var t := TakeOver(m, ev);
    var key := ThinkingKey(ev.turn, ev.step);
    var at := Lookup(t, key);
    if at.Some? && t.segs[at.value].kind == ThinkingSegment then
      var s := t.segs[at.value];
      Change(t, at.value, s.(text := s.text + ev.content, tsEnd := Later(s.tsEnd, ev.timestamp)))
    else AddKeyed(t, NewSegment(t, ev, "t:thinking", ThinkingSegment, ev.content, true), key)
  }

  function OnAction(m: Merge, ev: Event): Merge {
    var t := SettlePendingStep(m, ev.turn, ev.step);
    Add(t, NewSegment(t, ev, EventPrefix(ev), ActionSegment, "", true).(tool := ev.tool, args := ev.args))
      .(open := Some(|t.segs|), lastTool := ev.tool)
  }

  /** Streamed output already contains what the observation repeats. */
  function FoldedResult(streamed: string, observation: string): string {
    if streamed == "" || (observation != "" && !Contains(streamed, observation)) then streamed + observation
    else streamed
  }

  function OnObservation(m: Merge, ev: Event): Merge {
    if m.open.Some? && m.open.value < |m.segs| then
      var s := m.segs[m.open.value];
      Change(m, m.open.value, s.(result := FoldedResult(s.result, ev.content), resultDone := true,
        tsEnd := Later(s.tsEnd, ev.timestamp)))
        .(open := None, observed := m.observed + {m.open.value})
    else
      Add(m, NewSegment(m, ev, EventPrefix(ev), ObservationSegment, ev.content, true).(tool := m.lastTool))
  }

  function OnToolProgress(m: Merge, ev: Event): Merge {
    var key := Progress(ev.turn, ev.step);
    var at := Lookup(m, key);
    if m.open.Some? && m.open.value < |m.segs| then
      var s := m.segs[m.open.value];
      Change(m, m.open.value, s.(result := s.result + ev.content, resultDone := false,
        tsEnd := Later(s.tsEnd, ev.timestamp)))
    else if at.Some? && m.segs[at.value].kind == ToolProgressSegment then
      Change(m, at.value, m.segs[at.value].(text := m.segs[at.value].text + ev.content))
    else AddKeyed(m, NewSegment(m, ev, "t:prog", ToolProgressSegment, ev.content, false), key)
  }

  function OnFileDiff(m: Merge, ev: Event): Merge {
    if m.open.Some? && m.open.value < |m.segs| then
      Change(m, m.open.value, m.segs[m.open.value].(diff := m.segs[m.open.value].diff + ev.content))
    else Add(m, NewSegment(m, ev, EventPrefix(ev), FileDiffSegment, ev.content, true))
  }

  function OnMarker(m: Merge, ev: Event, kind: SegmentKind): Merge {
    var t := TakeOver(m, ev);
    Add(t, NewSegment(t, ev, EventPrefix(ev), kind, ev.content, true))
  }

  /** An announced identity sticks until the next one; a thought shaped like a banner announces nobody. */
  function Announce(m: Merge, ev: Event, texts: Texts): Merge {
    var tag := texts.actorTag(ev.kind, ev.content);
    if tag.Some? && !(ev.kind != Reflect && texts.isBanner(ev.content)) then m.(actor := tag) else m
  }

  function Next(before: Merge, ev: Event, texts: Texts): Merge {
    var m := Announce(before, ev, texts);
    match ev.kind
    case StepStart => OnStepStart(m, ev)
    case Thought => OnThought(m, ev, texts)
    case ThoughtDelta => OnThoughtDelta(m, ev, texts)
    case ThoughtEnd => OnThoughtEnd(m, ev)
    case Thinking => OnThinking(m, ev)
    case Action => OnAction(m, ev)
    case Observation => OnObservation(m, ev)
    case ToolProgress => OnToolProgress(m, ev)
    case FileDiff => OnFileDiff(m, ev)
    case Error => OnMarker(m, ev, ErrorSegment)
    case Verify => OnMarker(m, ev, VerifySegment)
    case Reflect => OnMarker(m, ev, ReflectSegment)
    case HarnessEdit => OnMarker(m, ev, HarnessEditSegment)
    case Metadata => StretchOpen(m, ev)
  }

  function Merged(events: seq<Event>, texts: Texts): Merge {
    if events == [] then START else Next(Merged(events[..|events|-1], texts), events[|events|-1], texts)
  }

  // ----- monotone growth -----

  /** A segment keeps what it is; its texts only grow at their end and it never becomes incomplete again. */
  predicate Grows(a: Segment, b: Segment) {
    && b == a.(text := b.text, result := b.result, resultDone := b.resultDone, diff := b.diff,
              completed := b.completed, tsEnd := b.tsEnd)
    && a.text <= b.text && a.result <= b.result && a.diff <= b.diff
    && (a.completed ==> b.completed)
  }

  predicate AllGrow(a: seq<Segment>, b: seq<Segment>) {
    |a| <= |b| && forall i | 0 <= i < |a| :: Grows(a[i], b[i])
  }

  lemma AllGrowTwice(a: seq<Segment>, b: seq<Segment>, c: seq<Segment>)
    requires AllGrow(a, b) && AllGrow(b, c)
    ensures AllGrow(a, c)
  {
    forall i | 0 <= i < |a| ensures Grows(a[i], c[i]) {
      assert Grows(a[i], b[i]) && Grows(b[i], c[i]);
    }
  }

  // ----- what every merge keeps -----

  predicate HasId(id: string, i: nat) {
    |Digits(i)| < |id| && id[|id|-|Digits(i)|..] == Digits(i) && id[|id|-|Digits(i)|-1] == ':'
  }

  /** The open action is the last segment and has no observation yet. */
  predicate OpenHolds(m: Merge) {
    m.open.Some? ==>
      && m.open.value + 1 == |m.segs| && m.segs[m.open.value].kind == ActionSegment
      && m.open.value !in m.observed
  }

  predicate IndexHolds(m: Merge) {
    forall key | key in m.index :: m.index[key] < |m.segs|
  }

  /** Identifiers end in the position; a step row is the one its key stands for. */
  predicate SegmentHolds(m: Merge, i: nat)
    requires i < |m.segs|
  {
    var s := m.segs[i];
    && HasId(s.id, i)
    && (s.kind == StepSegment ==> PendingStep(s.turn, s.step) in m.index && m.index[PendingStep(s.turn, s.step)] == i)
    && (i in m.observed ==> s.kind == ActionSegment)
    && !s.final && s.stepRole.None?
  }

  ghost predicate Invariant(m: Merge) {
    && OpenHolds(m) && IndexHolds(m)
    && (forall i: nat | i < |m.segs| :: SegmentHolds(m, i))
    && (forall i | i in m.observed :: i < |m.segs|)
  }

  /** One event at most adds one segment at the end; the others only grow, and no action is observed twice. */
  ghost predicate IsProgress(m: Merge, n: Merge) {
    && Invariant(n)
    && AllGrow(m.segs, n.segs) && |n.segs| <= |m.segs| + 1
    && m.observed <= n.observed
  }

  lemma NewSegmentHasId(m: Merge, ev: Event, prefix: string, kind: SegmentKind, text: string, completed: bool)
    ensures HasId(NewSegment(m, ev, prefix, kind, text, completed).id, |m.segs|)
  {
    hide Digits;
  }

  lemma AddKeeps(m: Merge, s: Segment, key: Option<Key>)
    requires Invariant(m) && m.open.None? && HasId(s.id, |m.segs|) && !s.final && s.stepRole.None?
    requires s.kind == StepSegment <==> key == Some(PendingStep(s.turn, s.step))
    requires key.Some? && key.value.PendingStep? ==> s.kind == StepSegment && key.value !in m.index
    ensures var n := if key.Some? then AddKeyed(m, s, key.value) else Add(m, s); IsProgress(m, n)
  {
    hide HasId;
    var n := if key.Some? then AddKeyed(m, s, key.value) else Add(m, s);
    assert |m.segs| !in m.observed;
    forall i: nat | i < |n.segs| ensures SegmentHolds(n, i) {
      if i < |m.segs| { assert SegmentHolds(m, i); }
    }
  }

  lemma ChangeKeeps(m: Merge, i: nat, s: Segment)
    requires Invariant(m) && i < |m.segs| && Grows(m.segs[i], s)
    ensures IsProgress(m, Change(m, i, s)) && |Change(m, i, s).segs| == |m.segs|
  {
    hide HasId;
    var n := Change(m, i, s);
    forall k: nat | k < |n.segs| ensures SegmentHolds(n, k) { assert SegmentHolds(m, k); }
  }

  lemma ProgressTwice(m: Merge, t: Merge, n: Merge)
    requires IsProgress(m, t) && |t.segs| == |m.segs| && IsProgress(t, n)
    ensures IsProgress(m, n)
  {
    hide Invariant;
    AllGrowTwice(m.segs, t.segs, n.segs);
  }

  /** Closing the open action and other changes beside the segments. */
  lemma SameSegments(m: Merge, n: Merge)
    requires Invariant(m) && n.segs == m.segs && n.index == m.index && n.observed == m.observed
    requires n.open == m.open || n.open.None?
    ensures IsProgress(m, n)
  {
    hide HasId;
    forall i: nat | i < |n.segs| ensures SegmentHolds(n, i) { assert SegmentHolds(m, i); }
  }

  lemma SettleKeeps(m: Merge, turn: nat, step: int)
    requires Invariant(m)
    ensures var t := SettlePendingStep(m, turn, step);
            IsProgress(m, t) && |t.segs| == |m.segs| && t.index == m.index && t.open == m.open
              && t.observed == m.observed && t.actor == m.actor
  {
    hide Invariant, IsProgress;
    var at := Lookup(m, PendingStep(turn, step));
    if SettlePendingStep(m, turn, step) == m { SameSegments(m, m); }
    if at.Some? && m.segs[at.value].kind == StepSegment && !m.segs[at.value].completed {
      ChangeKeeps(m, at.value, m.segs[at.value].(completed := true));
    }
  }

  lemma TakeOverKeeps(m: Merge, ev: Event)
    requires Invariant(m)
    ensures var t := TakeOver(m, ev);
            IsProgress(m, t) && |t.segs| == |m.segs| && t.index == m.index && t.open.None? && t.observed == m.observed
  {
    hide Invariant, IsProgress, SettlePendingStep;
    var closed := m.(open := None);
    SameSegments(m, closed);
    assert Invariant(closed) by { ProgressIsSound(m, closed); }
    SettleKeeps(closed, ev.turn, ev.step);
    ProgressTwice(m, closed, SettlePendingStep(closed, ev.turn, ev.step));
  }

  lemma ProgressIsSound(m: Merge, n: Merge)
    requires IsProgress(m, n)
    ensures Invariant(n)
  {}

  lemma StepStartKeeps(m: Merge, ev: Event)
    requires Invariant(m)
    ensures IsProgress(m, OnStepStart(m, ev))
  {
    hide Invariant, IsProgress, HasId, Digits;
    var closed, s := m.(open := None), NewSegment(m, ev, "t:step", StepSegment, "", false);
    SameSegments(m, closed);
    ProgressIsSound(m, closed);
    if PendingStep(ev.turn, ev.step) !in m.index {
      NewSegmentHasId(m, ev, "t:step", StepSegment, "", false);
      AddKeeps(closed, s, Some(PendingStep(ev.turn, ev.step)));
      ProgressTwice(m, closed, OnStepStart(m, ev));
    }
  }

  /** Adding one segment that is no step row, after the timeline was taken over or while nothing is open. */
  lemma AddAfter(m: Merge, t: Merge, s: Segment, key: Option<Key>)
    requires Invariant(m) && IsProgress(m, t) && |t.segs| == |m.segs| && t.open.None?
    requires HasId(s.id, |t.segs|) && !s.final && s.stepRole.None? && s.kind != StepSegment
        && (key.Some? ==> !key.value.PendingStep?)
    ensures IsProgress(m, if key.Some? then AddKeyed(t, s, key.value) else Add(t, s))
  {
    hide Invariant, IsProgress, HasId, AllGrow;
    ProgressIsSound(m, t);
    AddKeeps(t, s, key);
    ProgressTwice(m, t, if key.Some? then AddKeyed(t, s, key.value) else Add(t, s));
  }

  lemma ChangeAfter(m: Merge, t: Merge, i: nat, s: Segment)
    requires Invariant(m) && IsProgress(m, t) && |t.segs| == |m.segs| && i < |t.segs| && Grows(t.segs[i], s)
    ensures IsProgress(m, Change(t, i, s))
  {
    hide Invariant, IsProgress, AllGrow, Grows;
    ProgressIsSound(m, t);
    ChangeKeeps(t, i, s);
    ProgressTwice(m, t, Change(t, i, s));
  }

  lemma ThoughtKeeps(m: Merge, ev: Event, texts: Texts)
    requires Invariant(m)
    ensures IsProgress(m, OnThought(m, ev, texts))
  {
    hide Invariant, IsProgress, HasId, Digits, TakeOver, Add, AddKeyed, NewSegment;
    var t := TakeOver(m, ev);
    TakeOverKeeps(m, ev);
    if !texts.isForeign(ev.content) {
      var s := NewSegment(t, ev, "t:thought", ThoughtSegment, ev.content, true);
      NewSegmentIs(t, ev, "t:thought", ThoughtSegment, ev.content, true);
      if texts.isBanner(ev.content) { AddAfter(m, t, s.(meta := true), Some(Banner(ev.turn))); }
      if !texts.isBanner(ev.content) { AddAfter(m, t, s, Some(Stream(ev.turn, ev.step))); }
    }
  }

  lemma NewSegmentIs(m: Merge, ev: Event, prefix: string, kind: SegmentKind, text: string, completed: bool)
    ensures var s := NewSegment(m, ev, prefix, kind, text, completed);
            HasId(s.id, |m.segs|) && s.kind == kind && !s.final && s.stepRole.None?
  {
    NewSegmentHasId(m, ev, prefix, kind, text, completed);
  }

  lemma ThoughtDeltaKeeps(m: Merge, ev: Event, texts: Texts)
    requires Invariant(m)
    ensures IsProgress(m, OnThoughtDelta(m, ev, texts))
  {
    hide Invariant, IsProgress, HasId, Digits, TakeOver, Add, AddKeyed, Change, NewSegment;
    var t := TakeOver(m, ev);
    TakeOverKeeps(m, ev);
    if ev.content != "" && !texts.isForeign(ev.content) {
      var key := Stream(ev.turn, ev.step);
      NewSegmentIs(t, ev, "t:thought", ThoughtSegment, ev.content, true);
      NewSegmentIs(t, ev, "t:thought", ThoughtSegment, ev.content, false);
      if texts.isBanner(ev.content) {
        AddAfter(m, t, NewSegment(t, ev, "t:thought", ThoughtSegment, ev.content, true).(meta := true),
          Some(Banner(ev.turn)));
      } else if IsStreaming(t, key) {
        var s := t.segs[t.index[key]];
        ChangeAfter(m, t, t.index[key], s.(text := s.text + ev.content, tsEnd := Later(s.tsEnd, ev.timestamp)));
      } else {
        AddAfter(m, t, NewSegment(t, ev, "t:thought", ThoughtSegment, ev.content, false), Some(key));
      }
    }
  }

  lemma StretchKeeps(m: Merge, t: Merge, ev: Event)
    requires Invariant(m) && IsProgress(m, t) && |t.segs| == |m.segs|
    ensures IsProgress(m, StretchOpen(t, ev))
  {
    hide Invariant, IsProgress, Change;
    if StretchOpen(t, ev) != t {
      ChangeAfter(m, t, t.open.value, t.segs[t.open.value].(tsEnd := ev.timestamp));
    }
  }

  lemma ThoughtEndKeeps(m: Merge, ev: Event)
    requires Invariant(m)
    ensures IsProgress(m, OnThoughtEnd(m, ev))
  {
    hide Invariant, IsProgress, StretchOpen;
    var key := Stream(ev.turn, ev.step);
    SameSegments(m, m);
    if IsStreaming(m, key) {
      ChangeAfter(m, m, m.index[key], m.segs[m.index[key]].(completed := true));
    }
    var t := if IsStreaming(m, key) then Change(m, m.index[key], m.segs[m.index[key]].(completed := true)) else m;
    StretchKeeps(m, t, ev);
  }

  lemma ThinkingKeeps(m: Merge, ev: Event)
    requires Invariant(m)
    ensures IsProgress(m, OnThinking(m, ev))
  {
    hide Invariant, IsProgress, HasId, Digits, TakeOver, Add, AddKeyed, Change, NewSegment;
    var t, key := TakeOver(m, ev), ThinkingKey(ev.turn, ev.step);
    TakeOverKeeps(m, ev);
    var at := Lookup(t, key);
    if at.Some? && t.segs[at.value].kind == ThinkingSegment {
      var s := t.segs[at.value];
      ChangeAfter(m, t, at.value, s.(text := s.text + ev.content, tsEnd := Later(s.tsEnd, ev.timestamp)));
    } else {
      NewSegmentIs(t, ev, "t:thinking", ThinkingSegment, ev.content, true);
      AddAfter(m, t, NewSegment(t, ev, "t:thinking", ThinkingSegment, ev.content, true), Some(key));
    }
  }

  lemma MarkerKeeps(m: Merge, ev: Event, kind: SegmentKind)
    requires Invariant(m) && kind != StepSegment
    ensures IsProgress(m, OnMarker(m, ev, kind))
  {
    hide Invariant, IsProgress, HasId, Digits, TakeOver, Add, NewSegment, EventPrefix;
    var t := TakeOver(m, ev);
    TakeOverKeeps(m, ev);
    NewSegmentIs(t, ev, EventPrefix(ev), kind, ev.content, true);
    AddAfter(m, t, NewSegment(t, ev, EventPrefix(ev), kind, ev.content, true), None);
  }

  lemma ActionKeeps(m: Merge, ev: Event)
    requires Invariant(m)
    ensures IsProgress(m, OnAction(m, ev))
  {
    hide HasId, Digits, SettlePendingStep, NewSegment, EventPrefix, Grows;
    var t := SettlePendingStep(m, ev.turn, ev.step);
    SettleKeeps(m, ev.turn, ev.step);
    var s := NewSegment(t, ev, EventPrefix(ev), ActionSegment, "", true).(tool := ev.tool, args := ev.args);
    NewSegmentIs(t, ev, EventPrefix(ev), ActionSegment, "", true);
    var closed := t.(open := None);
    SameSegments(t, closed);
    AddKeeps(closed, s, None);
    hide SegmentHolds;
    OpenLast(Add(closed, s), OnAction(m, ev));
    AllGrowTwice(m.segs, t.segs, OnAction(m, ev).segs);
  }

  lemma OpenLast(m: Merge, n: Merge)
    requires Invariant(m) && m.segs != [] && n.segs == m.segs && n.index == m.index && n.observed == m.observed
    requires n.open == Some(|m.segs|-1) && m.segs[|m.segs|-1].kind == ActionSegment && |m.segs|-1 !in m.observed
    ensures Invariant(n)
  {
    hide HasId;
    forall i: nat | i < |n.segs| ensures SegmentHolds(n, i) { assert SegmentHolds(m, i); }
  }

  lemma ObservationKeeps(m: Merge, ev: Event)
    requires Invariant(m)
    ensures IsProgress(m, OnObservation(m, ev))
    ensures m.open.Some? ==> m.open.value !in m.observed && m.open.value in OnObservation(m, ev).observed
  {
    hide HasId, Digits, NewSegment, EventPrefix, Contains;
    if m.open.Some? {
      var i, n := m.open.value, OnObservation(m, ev);
      var s := m.segs[i];
      ChangeKeeps(m, i, s.(result := FoldedResult(s.result, ev.content), resultDone := true,
        tsEnd := Later(s.tsEnd, ev.timestamp)));
      forall k: nat | k < |n.segs| ensures SegmentHolds(n, k) { assert SegmentHolds(m, k); }
    } else {
      hide Invariant, IsProgress;
      SameSegments(m, m);
      NewSegmentIs(m, ev, EventPrefix(ev), ObservationSegment, ev.content, true);
      AddAfter(m, m, NewSegment(m, ev, EventPrefix(ev), ObservationSegment, ev.content, true).(tool := m.lastTool),
        None);
    }
  }

  lemma OpenInRange(m: Merge)
    requires Invariant(m)
    ensures m.open.Some? ==> m.open.value < |m.segs|
  {}

  lemma ToolProgressKeeps(m: Merge, ev: Event)
    requires Invariant(m)
    ensures IsProgress(m, OnToolProgress(m, ev))
  {
    hide Invariant, IsProgress, HasId, Digits, NewSegment, AddKeyed, Change;
    OpenInRange(m);
    SameSegments(m, m);
    var key := Progress(ev.turn, ev.step);
    var at := Lookup(m, key);
    if m.open.Some? {
      var s := m.segs[m.open.value];
      ChangeAfter(m, m, m.open.value, s.(result := s.result + ev.content, resultDone := false,
        tsEnd := Later(s.tsEnd, ev.timestamp)));
    } else if at.Some? && m.segs[at.value].kind == ToolProgressSegment {
      ChangeAfter(m, m, at.value, m.segs[at.value].(text := m.segs[at.value].text + ev.content));
    } else {
      NewSegmentIs(m, ev, "t:prog", ToolProgressSegment, ev.content, false);
      AddAfter(m, m, NewSegment(m, ev, "t:prog", ToolProgressSegment, ev.content, false), Some(key));
    }
  }

  lemma FileDiffKeeps(m: Merge, ev: Event)
    requires Invariant(m)
    ensures IsProgress(m, OnFileDiff(m, ev))
  {
    hide Invariant, IsProgress, HasId, Digits, NewSegment, Add, Change, EventPrefix;
    OpenInRange(m);
    SameSegments(m, m);
    if m.open.Some? {
      ChangeAfter(m, m, m.open.value, m.segs[m.open.value].(diff := m.segs[m.open.value].diff + ev.content));
    } else {
      NewSegmentIs(m, ev, EventPrefix(ev), FileDiffSegment, ev.content, true);
      AddAfter(m, m, NewSegment(m, ev, EventPrefix(ev), FileDiffSegment, ev.content, true), None);
    }
  }

  /** The merge is monotone, event by event. */
  lemma NextKeeps(before: Merge, ev: Event, texts: Texts)
    requires Invariant(before)
    ensures IsProgress(before, Next(before, ev, texts))
  {
    hide Invariant, IsProgress, OnStepStart, OnThought, OnThoughtDelta, OnThoughtEnd, OnThinking, OnAction,
         OnObservation, OnToolProgress, OnFileDiff, OnMarker, StretchOpen;
    var m := Announce(before, ev, texts);
    SameSegments(before, m);
    ProgressIsSound(before, m);
    match ev.kind {
      case StepStart => StepStartKeeps(m, ev);
      case Thought => ThoughtKeeps(m, ev, texts);
      case ThoughtDelta => ThoughtDeltaKeeps(m, ev, texts);
      case ThoughtEnd => ThoughtEndKeeps(m, ev);
      case Thinking => ThinkingKeeps(m, ev);
      case Action => ActionKeeps(m, ev);
      case Observation => ObservationKeeps(m, ev);
      case ToolProgress => ToolProgressKeeps(m, ev);
      case FileDiff => FileDiffKeeps(m, ev);
      case Error => MarkerKeeps(m, ev, ErrorSegment);
      case Verify => MarkerKeeps(m, ev, VerifySegment);
      case Reflect => MarkerKeeps(m, ev, ReflectSegment);
      case HarnessEdit => MarkerKeeps(m, ev, HarnessEditSegment);
      case Metadata => SameSegments(m, m); StretchKeeps(m, m, ev);
    }
    ProgressTwice(before, m, Next(before, ev, texts));
  }

  // ----- whole streams -----

  lemma {:induction false} MergedKeeps(events: seq<Event>, texts: Texts)
    ensures Invariant(Merged(events, texts)) && |Merged(events, texts).segs| <= |events|
  {
    if events != [] {
      hide Invariant, Next, AllGrow;
      MergedKeeps(events[..|events|-1], texts);
      NextKeeps(Merged(events[..|events|-1], texts), events[|events|-1], texts);
    }
  }

  /** More events never reorder, remove, shorten or reopen what is already shown. */
  lemma {:induction false} MoreEventsOnlyGrow(events: seq<Event>, n: nat, texts: Texts)
    requires n <= |events|
    ensures AllGrow(Merged(events[..n], texts).segs, Merged(events, texts).segs)
    ensures Merged(events[..n], texts).observed <= Merged(events, texts).observed
    ensures |Merged(events, texts).segs| <= |Merged(events[..n], texts).segs| + |events| - n
  {
    if n == |events| {
      assert events[..n] == events;
    } else {
      hide Invariant, Next, AllGrow, Merged;
      var before := events[..|events|-1];
      MoreEventsOnlyGrow(before, n, texts);
      assert before[..n] == events[..n];
      MergedKeeps(before, texts);
      NextKeeps(Merged(before, texts), events[|events|-1], texts);
      MergedStep(events, texts);
      AllGrowTwice(Merged(events[..n], texts).segs, Merged(before, texts).segs, Merged(events, texts).segs);
    }
  }

  lemma MergedStep(events: seq<Event>, texts: Texts)
    requires events != []
    ensures Merged(events, texts) == Next(Merged(events[..|events|-1], texts), events[|events|-1], texts)
  {}

  predicate LastColonAt(id: string, p: nat) {
    p < |id| && id[p] == ':' && forall k | p < k < |id| :: id[k] != ':'
  }

  lemma NumberFollowsLastColon(id: string, i: nat)
    requires HasId(id, i)
    ensures LastColonAt(id, |id| - |Digits(i)| - 1)
  {
    var a := Digits(i);
    forall k | |id| - |a| <= k < |id| ensures id[k] != ':' {
      assert id[k] == a[k - (|id| - |a|)];
    }
  }

  lemma IdNamesPosition(id: string, i: nat, j: nat)
    requires HasId(id, i) && HasId(id, j)
    ensures i == j
  {
    NumberFollowsLastColon(id, i);
    NumberFollowsLastColon(id, j);
    assert |Digits(i)| == |Digits(j)|;
    DigitsDiffer(i, j);
  }

  /** Identifiers are distinct, and a step of a turn has one row. */
  lemma RowsAreDistinct(events: seq<Event>, texts: Texts, i: nat, j: nat)
    requires i < j < |Merged(events, texts).segs|
    ensures var segs := Merged(events, texts).segs;
            && segs[i].id != segs[j].id
            && !(segs[i].kind == StepSegment && segs[j].kind == StepSegment
                 && segs[i].turn == segs[j].turn && segs[i].step == segs[j].step)
  {
    MergedKeeps(events, texts);
    hide Merged, HasId;
    var m := Merged(events, texts);
    assert SegmentHolds(m, i) && SegmentHolds(m, j);
    if m.segs[i].id == m.segs[j].id { IdNamesPosition(m.segs[i].id, i, j); }
  }

  /** The action the `k`-th event's observation is folded into, if it is one and meets an open action. */
  function FoldsInto(events: seq<Event>, k: nat, texts: Texts): Option<nat>
    requires k < |events|
  {
    if events[k].kind == Observation then Merged(events[..k], texts).open else None
  }

  /** No action takes two observations. */
  lemma ObservedAtMostOnce(events: seq<Event>, k: nat, l: nat, texts: Texts)
    requires k < l < |events| && FoldsInto(events, k, texts).Some?
    ensures FoldsInto(events, l, texts) != FoldsInto(events, k, texts)
  {
    var i, upTo := FoldsInto(events, k, texts).value, events[..k+1];
    assert upTo[..k] == events[..k];
    MergedKeeps(events[..k], texts);
    MergedStep(upTo, texts);
    assert i in Merged(upTo, texts).observed by {
      hide Merged, Invariant;
      FoldIsRecorded(Merged(events[..k], texts), events[k], texts);
    }
    assert events[..l][..k+1] == upTo;
    hide Merged, Next;
    MoreEventsOnlyGrow(events[..l], k + 1, texts);
    MergedKeeps(events[..l], texts);
  }

  lemma FoldIsRecorded(before: Merge, ev: Event, texts: Texts)
    requires Invariant(before) && ev.kind == Observation && before.open.Some?
    ensures before.open.value in Next(before, ev, texts).observed
  {
    var m := Announce(before, ev, texts);
    hide HasId, FoldedResult;
    SameSegments(before, m);
    ProgressIsSound(before, m);
    hide Invariant, OnObservation;
    ObservationKeeps(m, ev);
  }

  // ----- what the merge shows -----

  predicate IsPlain(ev: Event, texts: Texts) {
    !texts.isForeign(ev.content) && !texts.isBanner(ev.content)
  }

  /** A piece of the thought streamed in this step. */
  predicate IsPlainDelta(ev: Event, texts: Texts, turn: nat, step: int) {
    ev.kind == ThoughtDelta && ev.turn == turn && ev.step == step && ev.content != "" && IsPlain(ev, texts)
  }

  /** The stream's own end, or a whole thought that takes its place. */
  predicate EndsStream(ev: Event, texts: Texts, turn: nat, step: int) {
    ev.turn == turn && ev.step == step && (ev.kind == ThoughtEnd || (ev.kind == Thought && IsPlain(ev, texts)))
  }

  lemma TakeOverFrame(m: Merge, ev: Event)
    ensures var t := TakeOver(m, ev);
            && t.index == m.index && |t.segs| == |m.segs| && t.open.None?
            && forall k | 0 <= k < |m.segs| && m.segs[k].kind != StepSegment :: t.segs[k] == m.segs[k]
  {}

  /** A stream's key names a segment of its own turn and step. */
  predicate StreamHolds(m: Merge, turn: nat, step: int) {
    var key := Stream(turn, step);
    key in m.index ==>
      m.index[key] < |m.segs| && m.segs[m.index[key]].turn == turn && m.segs[m.index[key]].step == step
  }

  /** The key stays where it is, or moves to a new segment of its turn and step. */
  predicate KeyMoves(m: Merge, n: Merge, turn: nat, step: int) {
    var key := Stream(turn, step);
    if key in n.index && n.index[key] == |m.segs| then
      |m.segs| < |n.segs| && n.segs[|m.segs|].turn == turn && n.segs[|m.segs|].step == step
    else SameKey(m, n, key)
  }

  predicate SameKey(m: Merge, n: Merge, key: Key) {
    if key in m.index then key in n.index && n.index[key] == m.index[key] else key !in n.index
  }

  lemma OtherKeyStays(m: Merge, ev: Event, texts: Texts, turn: nat, step: int)
    requires ev.kind != Thought && ev.kind != ThoughtDelta
    ensures SameKey(m, Next(m, ev, texts), Stream(turn, step))
  {
    hide Digits, EventPrefix, NewSegment, Contains, FoldedResult;
    TakeOverFrame(Announce(m, ev, texts), ev);
    hide TakeOver;
  }

  lemma ThoughtKeyMoves(m: Merge, ev: Event, texts: Texts, turn: nat, step: int)
    requires (ev.kind == Thought || ev.kind == ThoughtDelta) && StreamHolds(m, turn, step)
    ensures KeyMoves(m, Next(m, ev, texts), turn, step)
  {
    hide Digits;
    TakeOverFrame(Announce(m, ev, texts), ev);
    hide TakeOver;
  }

  lemma NextKeepsStream(m: Merge, ev: Event, texts: Texts, turn: nat, step: int)
    requires Invariant(m) && StreamHolds(m, turn, step)
    ensures StreamHolds(Next(m, ev, texts), turn, step)
  {
    hide Next, Invariant;
    NextKeeps(m, ev, texts);
    if ev.kind == Thought || ev.kind == ThoughtDelta {
      ThoughtKeyMoves(m, ev, texts, turn, step);
    } else {
      OtherKeyStays(m, ev, texts, turn, step);
    }
  }

  /** The open thought of a step holds exactly this text. */
  predicate StreamsText(m: Merge, turn: nat, step: int, i: nat, text: string) {
    var key := Stream(turn, step);
    key in m.index && m.index[key] == i < |m.segs|
    && m.segs[i].kind == ThoughtSegment && !m.segs[i].completed && m.segs[i].text == text
  }

  predicate IsToolEvent(kind: EventKind) {
    kind == Action || kind == Observation || kind == ToolProgress || kind == FileDiff || kind == Metadata
  }

  predicate IsThoughtEvent(kind: EventKind) {
    kind == Thought || kind == ThoughtDelta || kind == ThoughtEnd
  }

  lemma ActionKeepsThought(m: Merge, ev: Event, i: nat)
    requires i < |m.segs| && m.segs[i].kind == ThoughtSegment
    ensures i < |OnAction(m, ev).segs| && OnAction(m, ev).segs[i] == m.segs[i]
  {
    hide Digits, EventPrefix, NewSegment;
  }

  lemma ToolEventKeepsThought(m: Merge, ev: Event, texts: Texts, i: nat)
    requires OpenHolds(m) && i < |m.segs| && m.segs[i].kind == ThoughtSegment && IsToolEvent(ev.kind)
    ensures i < |Next(m, ev, texts).segs| && Next(m, ev, texts).segs[i] == m.segs[i]
  {
    hide Digits, EventPrefix, NewSegment, Contains, FoldedResult, OnAction;
    ActionKeepsThought(Announce(m, ev, texts), ev, i);
    assert OpenHolds(Announce(m, ev, texts));
    hide Announce;
  }

  lemma MarkerKeepsThought(m: Merge, ev: Event, texts: Texts, i: nat)
    requires i < |m.segs| && m.segs[i].kind == ThoughtSegment
    requires !IsToolEvent(ev.kind) && !IsThoughtEvent(ev.kind)
    ensures i < |Next(m, ev, texts).segs| && Next(m, ev, texts).segs[i] == m.segs[i]
  {
    hide Digits, EventPrefix, NewSegment;
    TakeOverFrame(Announce(m, ev, texts), ev);
    hide TakeOver;
  }

  lemma OtherKindKeepsStream(m: Merge, ev: Event, texts: Texts, turn: nat, step: int, i: nat, text: string)
    requires OpenHolds(m) && StreamsText(m, turn, step, i, text) && !IsThoughtEvent(ev.kind)
    ensures StreamsText(Next(m, ev, texts), turn, step, i, text)
  {
    hide Next, OpenHolds;
    if IsToolEvent(ev.kind) { ToolEventKeepsThought(m, ev, texts, i); } else { MarkerKeepsThought(m, ev, texts, i); }
    OtherKeyStays(m, ev, texts, turn, step);
  }

  /** A thought event of another step, a banner or a foreign one changes other segments only. */
  lemma OtherThoughtKeepsStream(m: Merge, ev: Event, texts: Texts, turn: nat, step: int, i: nat, text: string)
    requires StreamsText(m, turn, step, i, text)
    requires ev.kind == Thought && !EndsStream(ev, texts, turn, step)
    ensures StreamsText(Next(m, ev, texts), turn, step, i, text)
  {
    hide Digits, NewSegment;
    TakeOverFrame(Announce(m, ev, texts), ev);
    hide TakeOver;
  }

  lemma OtherDeltaKeepsStream(m: Merge, ev: Event, texts: Texts, turn: nat, step: int, i: nat, text: string)
    requires StreamsText(m, turn, step, i, text) && StreamHolds(m, turn, step) && StreamHolds(m, ev.turn, ev.step)
    requires ev.kind == ThoughtDelta && !IsPlainDelta(ev, texts, turn, step)
    ensures StreamsText(Next(m, ev, texts), turn, step, i, text)
  {
    hide Digits, NewSegment;
    TakeOverFrame(Announce(m, ev, texts), ev);
    hide TakeOver;
  }

  lemma OtherEndKeepsStream(m: Merge, ev: Event, texts: Texts, turn: nat, step: int, i: nat, text: string)
    requires StreamsText(m, turn, step, i, text) && StreamHolds(m, turn, step) && StreamHolds(m, ev.turn, ev.step)
    requires ev.kind == ThoughtEnd && !EndsStream(ev, texts, turn, step)
    ensures StreamsText(Next(m, ev, texts), turn, step, i, text)
  {
    var n, key := Announce(m, ev, texts), Stream(ev.turn, ev.step);
    assert StreamsText(n, turn, step, i, text) && (IsStreaming(n, key) ==> n.index[key] != i);
    hide Announce, StretchOpen;
    var t := if IsStreaming(n, key) then Change(n, n.index[key], n.segs[n.index[key]].(completed := true)) else n;
    assert StreamsText(t, turn, step, i, text);
    StretchKeepsText(t, ev, turn, step, i, text);
  }

  lemma StretchKeepsText(m: Merge, ev: Event, turn: nat, step: int, i: nat, text: string)
    requires StreamsText(m, turn, step, i, text)
    ensures StreamsText(StretchOpen(m, ev), turn, step, i, text)
  {}

  lemma OtherEventKeepsStream(m: Merge, ev: Event, texts: Texts, turn: nat, step: int, i: nat, text: string)
    requires Invariant(m) && StreamsText(m, turn, step, i, text) && StreamHolds(m, turn, step)
    requires StreamHolds(m, ev.turn, ev.step)
    requires !IsPlainDelta(ev, texts, turn, step) && !EndsStream(ev, texts, turn, step)
    ensures StreamsText(Next(m, ev, texts), turn, step, i, text)
  {
    hide Next, SegmentHolds, StreamsText, StreamHolds, EndsStream, IsPlainDelta;
    match ev.kind {
      case Thought => OtherThoughtKeepsStream(m, ev, texts, turn, step, i, text);
      case ThoughtDelta => OtherDeltaKeepsStream(m, ev, texts, turn, step, i, text);
      case ThoughtEnd => OtherEndKeepsStream(m, ev, texts, turn, step, i, text);
      case _ => OtherKindKeepsStream(m, ev, texts, turn, step, i, text);
    }
  }

  lemma DeltaExtendsStream(m: Merge, ev: Event, texts: Texts, turn: nat, step: int, i: nat, text: string)
    requires StreamsText(m, turn, step, i, text) && IsPlainDelta(ev, texts, turn, step)
    ensures StreamsText(Next(m, ev, texts), turn, step, i, text + ev.content)
  {
    hide Digits, NewSegment;
    TakeOverFrame(Announce(m, ev, texts), ev);
    hide TakeOver;
  }

  lemma DeltaOpensStream(m: Merge, ev: Event, texts: Texts, turn: nat, step: int)
    requires !IsStreaming(m, Stream(turn, step)) && IsPlainDelta(ev, texts, turn, step)
    requires Stream(turn, step) in m.index ==> m.index[Stream(turn, step)] < |m.segs|
    ensures StreamsText(Next(m, ev, texts), turn, step, |m.segs|, ev.content)
  {
    hide Digits;
    TakeOverFrame(Announce(m, ev, texts), ev);
    SettledIsNoThought(Announce(m, ev, texts), ev);
    hide TakeOver;
  }

  lemma SettledIsNoThought(m: Merge, ev: Event)
    ensures forall k | 0 <= k < |m.segs| && m.segs[k].kind == StepSegment ::
              |TakeOver(m, ev).segs| == |m.segs| && TakeOver(m, ev).segs[k].kind == StepSegment
  {}

  /** What a step says: the pieces of its thought, in order. */
  function SaidIn(events: seq<Event>, texts: Texts, turn: nat, step: int): string {
    if events == [] then ""
    else
      var before, last := SaidIn(Front(events), texts, turn, step), Last(events);
      if IsPlainDelta(last, texts, turn, step) then before + last.content else before
  }

  lemma {:induction false} MergedKeepsStream(events: seq<Event>, texts: Texts, turn: nat, step: int)
    ensures StreamHolds(Merged(events, texts), turn, step)
  {
    if events != [] {
      hide StreamHolds, Next, Invariant;
      MergedKeepsStream(Front(events), texts, turn, step);
      MergedKeeps(Front(events), texts);
      NextKeepsStream(Merged(Front(events), texts), Last(events), texts, turn, step);
    } else {
      hide Digits;
    }
  }

  /** From its first piece on, and whatever is interleaved with it, a streamed thought is one row that holds all
      pieces of its step in order and nothing else, until the stream ends. */
  lemma {:induction false} ThoughtOwnsItsText(before: seq<Event>, run: seq<Event>, texts: Texts, turn: nat, step: int)
    requires run != [] && IsPlainDelta(run[0], texts, turn, step)
    requires !IsStreaming(Merged(before, texts), Stream(turn, step))
    requires forall k | 0 <= k < |run| :: !EndsStream(run[k], texts, turn, step)
    ensures StreamsText(Merged(before + run, texts), turn, step, |Merged(before, texts).segs|,
                        SaidIn(run, texts, turn, step))
    decreases |run|
  {
    hide Next, Invariant, IsPlainDelta, EndsStream, StreamsText, StreamHolds, IsStreaming;
    var ev, earlier := Last(run), before + Front(run);
    assert Front(before + run) == earlier;
    var m := Merged(earlier, texts);
    MergedKeepsStream(earlier, texts, turn, step);
    MergedKeepsStream(earlier, texts, ev.turn, ev.step);
    MergedKeeps(earlier, texts);
    if |run| == 1 {
      assert earlier == before && Front(run) == [];
      assert Stream(turn, step) in m.index ==> m.index[Stream(turn, step)] < |m.segs| by { KeyInRange(m, turn, step); }
      DeltaOpensStream(m, ev, texts, turn, step);
      assert SaidIn(run, texts, turn, step) == ev.content;
    } else {
      ThoughtOwnsItsText(before, Front(run), texts, turn, step);
      var i, said := |Merged(before, texts).segs|, SaidIn(Front(run), texts, turn, step);
      if IsPlainDelta(ev, texts, turn, step) {
        DeltaExtendsStream(m, ev, texts, turn, step, i, said);
      } else {
        OtherEventKeepsStream(m, ev, texts, turn, step, i, said);
      }
    }
  }

  lemma KeyInRange(m: Merge, turn: nat, step: int)
    requires StreamHolds(m, turn, step)
    ensures Stream(turn, step) in m.index ==> m.index[Stream(turn, step)] < |m.segs|
  {}

  /** The end of the stream completes that row as it is. */
  lemma EndCompletesThought(before: seq<Event>, run: seq<Event>, end: Event, texts: Texts)
    requires run != [] && IsPlainDelta(run[0], texts, end.turn, end.step) && end.kind == ThoughtEnd
    requires !IsStreaming(Merged(before, texts), Stream(end.turn, end.step))
    requires forall k | 0 <= k < |run| :: !EndsStream(run[k], texts, end.turn, end.step)
    ensures var n, i := Merged(before + run + [end], texts), |Merged(before, texts).segs|;
            && i < |n.segs| && n.segs[i].kind == ThoughtSegment && n.segs[i].completed
            && n.segs[i].text == SaidIn(run, texts, end.turn, end.step)
  {
    ThoughtOwnsItsText(before, run, texts, end.turn, end.step);
    assert Front(before + run + [end]) == before + run;
    hide SaidIn, IsPlainDelta;
    EndCompletes(Merged(before + run, texts), end, texts, |Merged(before, texts).segs|,
                 SaidIn(run, texts, end.turn, end.step));
  }

  lemma EndCompletes(m: Merge, end: Event, texts: Texts, i: nat, text: string)
    requires end.kind == ThoughtEnd && StreamsText(m, end.turn, end.step, i, text)
    ensures var n := Next(m, end, texts);
            i < |n.segs| && n.segs[i].kind == ThoughtSegment && n.segs[i].completed && n.segs[i].text == text
  {}

  /** Events that leave the open action open: its output and diffs, and what belongs to nobody. */
  predicate LeavesCallOpen(kind: EventKind) {
    kind == ToolProgress || kind == FileDiff || kind == Metadata || kind == ThoughtEnd
  }

  /** The contents of the events of one kind, in order. */
  function ContentsOf(events: seq<Event>, kind: EventKind): string {
    if events == [] then "" else ContentsOf(Front(events), kind) + ContentIf(Last(events), kind)
  }

  function ContentIf(ev: Event, kind: EventKind): string {
    if ev.kind == kind then ev.content else ""
  }

  /** The last row is the open call, with this output and these diffs. */
  predicate ShowsCall(m: Merge, i: nat, call: Event, output: string, diff: string) {
    && m.open == Some(i) && i + 1 == |m.segs| && m.segs[i].kind == ActionSegment
    && m.segs[i].tool == call.tool && m.segs[i].args == call.args
    && m.segs[i].result == output && m.segs[i].diff == diff
  }

  lemma CallOpens(m: Merge, call: Event, texts: Texts)
    requires call.kind == Action
    ensures ShowsCall(Next(m, call, texts), |m.segs|, call, "", "")
  {
    SettleFrame(Announce(m, call, texts), call.turn, call.step);
    hide Digits, EventPrefix, SettlePendingStep;
  }

  lemma SettleFrame(m: Merge, turn: nat, step: int)
    ensures |SettlePendingStep(m, turn, step).segs| == |m.segs|
  {}

  lemma OutputJoins(m: Merge, ev: Event, texts: Texts, i: nat, call: Event, output: string, diff: string)
    requires ShowsCall(m, i, call, output, diff) && (ev.kind == ToolProgress || ev.kind == FileDiff)
    ensures ShowsCall(Next(m, ev, texts), i, call, output + ContentIf(ev, ToolProgress), diff + ContentIf(ev, FileDiff))
  {
    hide Announce, Lookup, NewSegment;
    AnnounceShows(m, ev, texts, i, call, output, diff);
    assert output + "" == output && diff + "" == diff;
  }

  lemma AnnounceShows(m: Merge, ev: Event, texts: Texts, i: nat, call: Event, output: string, diff: string)
    requires ShowsCall(m, i, call, output, diff)
    ensures ShowsCall(Announce(m, ev, texts), i, call, output, diff)
  {}

  lemma StretchShows(m: Merge, ev: Event, i: nat, call: Event, output: string, diff: string)
    requires ShowsCall(m, i, call, output, diff)
    ensures ShowsCall(StretchOpen(m, ev), i, call, output, diff)
  {}

  lemma EndShows(m: Merge, ev: Event, i: nat, call: Event, output: string, diff: string)
    requires ShowsCall(m, i, call, output, diff)
    ensures ShowsCall(OnThoughtEnd(m, ev), i, call, output, diff)
  {
    hide StretchOpen;
    var key := Stream(ev.turn, ev.step);
    var t := if IsStreaming(m, key) then Change(m, m.index[key], m.segs[m.index[key]].(completed := true)) else m;
    StretchShows(t, ev, i, call, output, diff);
  }

  lemma CallContinues(m: Merge, ev: Event, texts: Texts, i: nat, call: Event, output: string, diff: string)
    requires ShowsCall(m, i, call, output, diff) && LeavesCallOpen(ev.kind)
    ensures ShowsCall(Next(m, ev, texts), i, call, output + ContentIf(ev, ToolProgress), diff + ContentIf(ev, FileDiff))
  {
    hide ShowsCall, Announce, StretchOpen, OnThoughtEnd;
    if ev.kind == ToolProgress || ev.kind == FileDiff {
      hide Next;
      OutputJoins(m, ev, texts, i, call, output, diff);
    } else {
      AnnounceShows(m, ev, texts, i, call, output, diff);
      StretchShows(Announce(m, ev, texts), ev, i, call, output, diff);
      EndShows(Announce(m, ev, texts), ev, i, call, output, diff);
      assert output + "" == output && diff + "" == diff;
    }
  }

  lemma {:induction false} CallCollects(before: seq<Event>, call: Event, run: seq<Event>, texts: Texts)
    requires call.kind == Action && forall k | 0 <= k < |run| :: LeavesCallOpen(run[k].kind)
    ensures ShowsCall(Merged(before + [call] + run, texts), |Merged(before, texts).segs|, call,
                      ContentsOf(run, ToolProgress), ContentsOf(run, FileDiff))
    decreases |run|
  {
    hide Next, ShowsCall, ContentIf;
    if run == [] {
      assert before + [call] + run == before + [call] && Front(before + [call]) == before;
      CallOpens(Merged(before, texts), call, texts);
    } else {
      assert Front(before + [call] + run) == before + [call] + Front(run);
      CallCollects(before, call, Front(run), texts);
      CallContinues(Merged(before + [call] + Front(run), texts), Last(run), texts, |Merged(before, texts).segs|, call,
                    ContentsOf(Front(run), ToolProgress), ContentsOf(Front(run), FileDiff));
    }
  }

  /** A call, whatever output, diffs, metadata and ends of thoughts follow in whatever order, and its observation
      are one row, the last one: all output in it, an observation that repeats output only once, and all diffs. */
  lemma CallOwnsItsOutput(before: seq<Event>, call: Event, run: seq<Event>, observation: Event, texts: Texts)
    requires call.kind == Action && observation.kind == Observation
    requires forall k | 0 <= k < |run| :: LeavesCallOpen(run[k].kind)
    ensures var n, i := Merged(before + [call] + run + [observation], texts), |Merged(before, texts).segs|;
            && |n.segs| == i + 1 && n.open.None? && n.segs[i].kind == ActionSegment && n.segs[i].resultDone
            && n.segs[i].tool == call.tool && n.segs[i].args == call.args
            && n.segs[i].diff == ContentsOf(run, FileDiff)
            && n.segs[i].result == FoldedResult(ContentsOf(run, ToolProgress), observation.content)
            && (observation.content == ContentsOf(run, ToolProgress) ==> n.segs[i].result == observation.content)
  {
    CallCollects(before, call, run, texts);
    assert Front(before + [call] + run + [observation]) == before + [call] + run;
    RepeatedOutputIsShownOnce(ContentsOf(run, ToolProgress));
    hide ContentsOf, FoldedResult;
    CallCloses(Merged(before + [call] + run, texts), observation, texts, |Merged(before, texts).segs|, call,
               ContentsOf(run, ToolProgress), ContentsOf(run, FileDiff));
  }

  lemma CallCloses(m: Merge, ev: Event, texts: Texts, i: nat, call: Event, output: string, diff: string)
    requires ShowsCall(m, i, call, output, diff) && ev.kind == Observation
    ensures var n := Next(m, ev, texts);
            && |n.segs| == i + 1 && n.open.None? && n.segs[i].kind == ActionSegment && n.segs[i].resultDone
            && n.segs[i].tool == call.tool && n.segs[i].args == call.args
            && n.segs[i].diff == diff && n.segs[i].result == FoldedResult(output, ev.content)
  {
    hide FoldedResult, NewSegment;
  }

  lemma RepeatedOutputIsShownOnce(streamed: string)
    ensures FoldedResult(streamed, streamed) == streamed
  {
    assert MatchesAt(streamed, streamed, 0);
    assert streamed == "" ==> streamed + streamed == streamed;
  }

  // ----- marking passes -----

  predicate IsSettledThought(s: Segment) {
    s.kind == ThoughtSegment && !s.meta && s.completed && Trim(s.text) != ""
  }

  /** The last settled thought of its turn. */
  predicate IsFinalReply(segs: seq<Segment>, i: nat)
    requires i < |segs|
  {
    IsSettledThought(segs[i]) && forall j | i < j < |segs| ::
      !(IsSettledThought(segs[j]) && segs[j].turn == segs[i].turn)
  }

  lemma OneFinalReplyPerTurn(segs: seq<Segment>, i: nat, j: nat)
    requires i < |segs| && j < |segs| && IsFinalReply(segs, i) && IsFinalReply(segs, j) && segs[i].turn == segs[j].turn
    ensures i == j
  {
    hide IsSettledThought;
  }

  /** A turn with a settled thought has its final reply. */
  lemma {:induction false} SettledTurnHasFinalReply(segs: seq<Segment>, i: nat) returns (last: nat)
    requires i < |segs| && IsSettledThought(segs[i])
    ensures i <= last < |segs| && segs[last].turn == segs[i].turn && IsFinalReply(segs, last)
    decreases |segs| - i
  {
    hide IsSettledThought;
    last := i;
    if j :| i < j < |segs| && IsSettledThought(segs[j]) && segs[j].turn == segs[i].turn {
      last := SettledTurnHasFinalReply(segs, j);
    }
  }

  method MarkFinalAnswerSegments(segs: seq<Segment>) returns (marked: seq<Segment>)
    ensures |marked| == |segs|
    ensures forall i: nat | i < |segs| :: marked[i] == segs[i].(final := segs[i].final || IsFinalReply(segs, i))
  {
    hide Trim;
    var lastSettled: map<nat, nat>, turns: seq<nat> := map[], [];
    for i := 0 to |segs|
      invariant forall turn | turn in turns :: turn in lastSettled && lastSettled[turn] < i
                  && IsSettledThought(segs[lastSettled[turn]]) && segs[lastSettled[turn]].turn == turn
      invariant forall turn | turn in lastSettled :: turn in turns
      invariant forall j | 0 <= j < i && IsSettledThought(segs[j]) ::
          segs[j].turn in turns && j <= lastSettled[segs[j].turn]
    {
      if IsSettledThought(segs[i]) {
        if segs[i].turn !in lastSettled { turns := turns + [segs[i].turn]; }
        lastSettled := lastSettled[segs[i].turn := i];
      }
    }
    marked := MarkAll(segs, lastSettled, turns);
  }

  method MarkAll(segs: seq<Segment>, lastSettled: map<nat, nat>, turns: seq<nat>) returns (marked: seq<Segment>)
    requires forall turn | turn in turns :: turn in lastSettled && lastSettled[turn] < |segs|
               && IsSettledThought(segs[lastSettled[turn]]) && segs[lastSettled[turn]].turn == turn
    requires forall turn | turn in lastSettled :: turn in turns
    requires forall j | 0 <= j < |segs| && IsSettledThought(segs[j]) ::
        segs[j].turn in turns && j <= lastSettled[segs[j].turn]
    ensures |marked| == |segs|
    ensures forall i: nat | i < |segs| :: marked[i] == segs[i].(final := segs[i].final || IsFinalReply(segs, i))
  {
    hide IsSettledThought;
    forall i: nat | i < |segs| ensures IsFinalReply(segs, i) <==> IsLast(segs[i], i, lastSettled) {
    }
    hide IsFinalReply;
    marked := segs;
    for n := 0 to |turns|
      invariant |marked| == |segs|
      invariant forall i: nat | i < |segs| ::
        marked[i] == segs[i].(final := segs[i].final || (IsLast(segs[i], i, lastSettled) && segs[i].turn in turns[..n]))
    {
      assert turns[n] in turns;
      var at := lastSettled[turns[n]];
      assert turns[..n+1] == turns[..n] + [turns[n]];
      marked := marked[at := marked[at].(final := true)];
    }
    assert turns[..|turns|] == turns;
  }

  predicate IsLast(s: Segment, i: nat, lastSettled: map<nat, nat>) {
    s.turn in lastSettled && lastSettled[s.turn] == i
  }

  predicate IsSkipped(s: Segment) {
    s.kind == ThinkingSegment || s.kind == StepSegment
  }

  predicate IsToolActivity(s: Segment) {
    s.kind == ActionSegment || s.kind == ObservationSegment
  }

  /** Looking back passes banners, looking ahead does not. */
  function PrevContent(segs: seq<Segment>, i: nat): (r: Option<Segment>)
    requires i <= |segs|
  {
    if i == 0 then None
    else if IsSkipped(segs[i-1]) || segs[i-1].meta then PrevContent(segs, i - 1)
    else Some(segs[i-1])
  }

  function NextContent(segs: seq<Segment>, i: nat): (r: Option<Segment>)
    requires i <= |segs|
    decreases |segs| - i
  {
    if i == |segs| then None else if IsSkipped(segs[i]) then NextContent(segs, i + 1) else Some(segs[i])
  }

  /** The statement leading into a call, or the wrap-up after the last result; in between is neither. */
  function RoleOf(segs: seq<Segment>, i: nat): Option<StepRole>
    requires i < |segs|
  {
    var prev, next := PrevContent(segs, i), NextContent(segs, i + 1);
    var afterTool := prev.Some? && IsToolActivity(prev.value);
    if !IsSettledThought(segs[i]) then None
    else if next.Some? && next.value.kind == ActionSegment then if afterTool then None else Some(ActionStatement)
    else if afterTool then Some(ObservationWrapUp)
    else None
  }

  method PrevContentSegment(segs: seq<Segment>, i: nat) returns (found: Option<Segment>)
    requires i <= |segs|
    ensures found == PrevContent(segs, i)
  {
    var j := i;
    while j > 0
      invariant 0 <= j <= i && PrevContent(segs, i) == PrevContent(segs, j)
    {
      j := j - 1;
      if !(IsSkipped(segs[j]) || segs[j].meta) { return Some(segs[j]); }
    }
    return None;
  }

  method NextContentSegment(segs: seq<Segment>, i: nat) returns (found: Option<Segment>)
    requires i < |segs|
    ensures found == NextContent(segs, i + 1)
  {
    var j := i + 1;
    while j < |segs|
      invariant i < j <= |segs| && NextContent(segs, i + 1) == NextContent(segs, j)
    {
      if !IsSkipped(segs[j]) { return Some(segs[j]); }
      j := j + 1;
    }
    return None;
  }

  /** Segments alike up to what the marking passes set. */
  predicate SameButMarks(a: seq<Segment>, b: seq<Segment>) {
    |a| == |b| && forall k | 0 <= k < |a| :: b[k] == a[k].(final := b[k].final, stepRole := b[k].stepRole)
  }

  lemma {:induction false} MarksDoNotMatterBefore(a: seq<Segment>, b: seq<Segment>, i: nat)
    requires SameButMarks(a, b) && i <= |a|
    ensures PrevContent(a, i).Some? == PrevContent(b, i).Some?
    ensures PrevContent(a, i).Some? ==> PrevContent(a, i).value.kind == PrevContent(b, i).value.kind
  {
    if i > 0 {
      assert b[i-1] == a[i-1].(final := b[i-1].final, stepRole := b[i-1].stepRole);
      MarksDoNotMatterBefore(a, b, i - 1);
    }
  }

  lemma {:induction false} MarksDoNotMatterAfter(a: seq<Segment>, b: seq<Segment>, i: nat)
    requires SameButMarks(a, b) && i <= |a|
    ensures NextContent(a, i).Some? == NextContent(b, i).Some?
    ensures NextContent(a, i).Some? ==> NextContent(a, i).value.kind == NextContent(b, i).value.kind
    decreases |a| - i
  {
    if i < |a| {
      assert b[i] == a[i].(final := b[i].final, stepRole := b[i].stepRole);
      MarksDoNotMatterAfter(a, b, i + 1);
    }
  }

  lemma RoleFromOrder(a: seq<Segment>, b: seq<Segment>, i: nat)
    requires SameButMarks(a, b) && i < |a|
    ensures RoleOf(a, i) == RoleOf(b, i)
  {
    hide PrevContent, NextContent, Trim;
    assert b[i] == a[i].(final := b[i].final, stepRole := b[i].stepRole);
    MarksDoNotMatterBefore(a, b, i);
    MarksDoNotMatterAfter(a, b, i + 1);
  }

  /** Roles come from the order of the segments alone, whichever were marked before. */
  method MarkStepRoles(segs: seq<Segment>) returns (marked: seq<Segment>)
    ensures |marked| == |segs|
    ensures forall i: nat | i < |segs| ::
      marked[i] == if RoleOf(segs, i).Some? then segs[i].(stepRole := RoleOf(segs, i)) else segs[i]
  {
    hide PrevContent, NextContent, IsSettledThought, RoleOf;
    marked := segs;
    for i := 0 to |segs|
      invariant SameButMarks(segs, marked)
      invariant forall k: nat | k < i ::
        marked[k] == if RoleOf(segs, k).Some? then segs[k].(stepRole := RoleOf(segs, k)) else segs[k]
      invariant forall k: nat | i <= k < |segs| :: marked[k] == segs[k]
    {
      var role := StepRoleAt(marked, i);
      RoleFromOrder(segs, marked, i);
      if role.Some? { marked := marked[i := marked[i].(stepRole := role)]; }
    }
  }

  method StepRoleAt(segs: seq<Segment>, i: nat) returns (role: Option<StepRole>)
    requires i < |segs|
    ensures role == RoleOf(segs, i)
  {
    hide PrevContent, NextContent, Trim;
    var s := segs[i];
    if s.kind != ThoughtSegment || s.meta || !s.completed || Trim(s.text) == "" { return None; }
    var next := NextContentSegment(segs, i);
    var prev := PrevContentSegment(segs, i);
    var afterTool := prev.Some? && IsToolActivity(prev.value);
    if next.Some? && next.value.kind == ActionSegment {
      return if afterTool then None else Some(ActionStatement);
    }
    return if afterTool then Some(ObservationWrapUp) else None;
  }

  /** The finished rows: the merge of all events, with final replies and roles marked. */
  method MergeEvents(events: seq<Event>, texts: Texts) returns (segs: seq<Segment>)
    ensures var merged := Merged(events, texts).segs;
            && |segs| == |merged|
            && forall i: nat | i < |segs| ::
                 segs[i] == merged[i].(final := IsFinalReply(merged, i), stepRole := RoleOf(merged, i))
  {
    hide Next, IsFinalReply, RoleOf;
    var m := START;
    for n := 0 to |events|
      invariant m == Merged(events[..n], texts)
    {
      assert events[..n+1][..n] == events[..n];
      m := Next(m, events[n], texts);
    }
    assert events[..|events|] == events;
    MergedKeeps(events, texts);
    hide Merged;
    var finals := MarkFinalAnswerSegments(m.segs);
    segs := MarkStepRoles(finals);
    forall i: nat | i < |segs|
      ensures segs[i] == m.segs[i].(final := IsFinalReply(m.segs, i), stepRole := RoleOf(m.segs, i))
    {
      assert SegmentHolds(m, i);
      RoleFromOrder(m.segs, finals, i);
    }
  }
}
