/** Column labels of the model dimension: the aggregation key of a run, kept unique by appending endpoint ids. */
module EndpointLabels {
  import opened JsText

  datatype Endpoint = Endpoint(id: string, labelText: string, model: string, enabled: bool)

  datatype ModelOption = ModelOption(value: string, labelText: string)

  const CURRENT_SUFFIX := " (current)"

  function BaseLabel(e: Endpoint): string {
    if Trim(e.labelText) != "" then e.labelText else e.model
  }

  /** The default endpoint's label says so. */
  function FirstChoice(e: Endpoint, defaultId: string): string {
    if e.id == defaultId then BaseLabel(e) + CURRENT_SUFFIX else BaseLabel(e)
  }

  /** An endpoint's own label if it says anything, its model otherwise; the default endpoint says that it is the
      current one. */
  lemma FirstChoiceIs(e: Endpoint, defaultId: string)
    ensures FirstChoice(e, defaultId)
         == (if exists k :: 0 <= k < |e.labelText| && !IsSpace(e.labelText[k]) then e.labelText else e.model)
            + (if e.id == defaultId then " (current)" else "")
  {
    TrimOfBlank(e.labelText);
    hide Trim;
    assert BaseLabel(e) + "" == BaseLabel(e);
  }

  /** The label after `n` rounds of appending the identifier. */
  function Suffixed(base: string, id: string, n: nat): (r: string)
    ensures |r| == |base| + n * (|id| + 3)
    ensures base <= r
  {
    if n == 0 then base else Suffixed(base, id, n - 1) + " (" + id + ")"
  }

  /** `text` is the first of the suffixed forms that is still free. */
  ghost predicate IsFirstFree(text: string, base: string, id: string, seen: set<string>) {
    exists n: nat :: IsFirstFreeAt(text, base, id, seen, n)
  }

  ghost predicate IsFirstFreeAt(text: string, base: string, id: string, seen: set<string>, n: nat) {
    text == Suffixed(base, id, n) && text !in seen && forall k: nat | k < n :: Suffixed(base, id, k) in seen
  }

  /** Seen labels at least as long: a label in the set leaves one fewer to a longer one. */
  ghost function AtLeastAsLong(seen: set<string>, n: nat): set<string> {
    set s | s in seen && |s| >= n
  }

  lemma LongerHasFewer(seen: set<string>, text: string, n: nat)
    requires text in seen && |text| < n
    ensures AtLeastAsLong(seen, n) < AtLeastAsLong(seen, |text|)
    ensures |AtLeastAsLong(seen, n)| < |AtLeastAsLong(seen, |text|)|
  {
    var more, fewer := AtLeastAsLong(seen, |text|), AtLeastAsLong(seen, n);
    assert text in more && text !in fewer;
    SubsetSize(fewer, more - {text});
  }

  /** Ends for every set of labels already taken, whether or not identifiers are unique. */
  method Disambiguate(base: string, id: string, seen: set<string>) returns (text: string)
    ensures IsFirstFree(text, base, id, seen)
  {
    text := base;
    ghost var n: nat := 0;
    while text in seen
      invariant text == Suffixed(base, id, n)
      invariant forall k: nat | k < n :: Suffixed(base, id, k) in seen
      decreases |AtLeastAsLong(seen, |text|)|
    {
      LongerHasFewer(seen, text, |text + " (" + id + ")"|);
      text := text + " (" + id + ")";
      n := n + 1;
    }
    assert IsFirstFreeAt(text, base, id, seen, n);
  }

  function Enabled(endpoints: seq<Endpoint>): seq<Endpoint> {
    if endpoints == [] then []
    else
      var before, last := Enabled(endpoints[..|endpoints|-1]), endpoints[|endpoints|-1];
      if last.enabled then before + [last] else before
  }

  /** The enabled endpoints, each once, in their order. */
  lemma {:induction false} EnabledArePicked(endpoints: seq<Endpoint>) returns (at: seq<nat>)
    ensures Selects(at, |endpoints|, (k: nat) => k < |endpoints| && endpoints[k].enabled)
    ensures Gathers(Enabled(endpoints), endpoints, at)
  {
    at := [];
    ghost var picked := (k: nat) => k < |endpoints| && endpoints[k].enabled;
    for n := 0 to |endpoints|
      invariant Selects(at, n, picked) && Gathers(Enabled(endpoints[..n]), endpoints[..n], at)
    {
      assert endpoints[..n+1][..n] == endpoints[..n];
      GathersNext(Enabled(endpoints[..n]), endpoints, at, n);
      hide Selects, Gathers;
      SelectsNext(at, n, picked);
      if endpoints[n].enabled { at := at + [n]; }
    }
    assert endpoints[..|endpoints|] == endpoints;
  }

  ghost function LabelsOf(options: seq<ModelOption>): set<string> {
    set k | 0 <= k < |options| :: options[k].labelText
  }

  method EnabledEndpoints(endpoints: seq<Endpoint>) returns (enabled: seq<Endpoint>)
    ensures enabled == Enabled(endpoints)
  {
    enabled := [];
    for i := 0 to |endpoints|
      invariant enabled == Enabled(endpoints[..i])
    {
      assert endpoints[..i+1][..i] == endpoints[..i];
      if endpoints[i].enabled { enabled := enabled + [endpoints[i]]; }
    }
    assert endpoints[..|endpoints|] == endpoints;
  }

  /** One option per enabled endpoint, in order, under pairwise distinct labels; each is the endpoint's own
      choice followed by its identifier as often as the earlier labels require. */
  method SyncModelOptions(endpoints: seq<Endpoint>, defaultId: string) returns (options: seq<ModelOption>)
    ensures var enabled := Enabled(endpoints);
            && |options| == |enabled|
            && (forall k | 0 <= k < |options| :: options[k].value == enabled[k].id)
            && (forall k | 0 <= k < |options| ::
                  IsFirstFree(options[k].labelText, FirstChoice(enabled[k], defaultId), enabled[k].id,
                              LabelsOf(options[..k])))
    ensures forall j, k | 0 <= j < k < |options| :: options[j].labelText != options[k].labelText
  {
    hide Trim, Enabled, IsFirstFree, FirstChoice;
    var enabled := EnabledEndpoints(endpoints);
    options := [];
    var seenLabels: set<string> := {};
    for i := 0 to |enabled|
      invariant |options| == i && seenLabels == LabelsOf(options)
      invariant forall k | 0 <= k < i :: options[k].value == enabled[k].id
      invariant forall k | 0 <= k < i ::
        IsFirstFree(options[k].labelText, FirstChoice(enabled[k], defaultId), enabled[k].id, LabelsOf(options[..k]))
      invariant forall j, k | 0 <= j < k < i :: options[j].labelText != options[k].labelText
    {
      var text := Disambiguate(FirstChoice(enabled[i], defaultId), enabled[i].id, seenLabels);
      FirstFreeIsFree(text, FirstChoice(enabled[i], defaultId), enabled[i].id, seenLabels);
      var more := options + [ModelOption(enabled[i].id, text)];
      LabelsOfMore(options, more[i]);
      forall k | 0 <= k < i ensures options[k].labelText != text {
        assert options[k].labelText in LabelsOf(options);
      }
      assert more[..i] == options;
      assert forall k | 0 <= k < i :: more[..k] == options[..k];
      options := more;
      seenLabels := seenLabels + {text};
    }
  }

  lemma FirstFreeIsFree(text: string, base: string, id: string, seen: set<string>)
    requires IsFirstFree(text, base, id, seen)
    ensures text !in seen && base <= text && (base !in seen ==> text == base)
  {
    var n: nat :| IsFirstFreeAt(text, base, id, seen, n);
    if n > 0 { assert Suffixed(base, id, 0) in seen; }
  }

  lemma LabelsOfMore(options: seq<ModelOption>, option: ModelOption)
    ensures LabelsOf(options + [option]) == LabelsOf(options) + {option.labelText}
  {
    var more := options + [option];
    assert more[|options|] == option;
    forall x | x in LabelsOf(options) ensures x in LabelsOf(more) {
      var k :| 0 <= k < |options| && options[k].labelText == x;
      assert more[k].labelText == x;
    }
  }

  lemma FirstFreeIsUnique(x: string, y: string, base: string, id: string, seen: set<string>)
    requires IsFirstFree(x, base, id, seen) && IsFirstFree(y, base, id, seen)
    ensures x == y
  {
    var n: nat :| IsFirstFreeAt(x, base, id, seen, n);
    var m: nat :| IsFirstFreeAt(y, base, id, seen, m);
    assert n < m ==> Suffixed(base, id, n) in seen;
    assert m < n ==> Suffixed(base, id, m) in seen;
  }

  /** Where somebody wrote another endpoint's disambiguated label by hand, that endpoint's label is disambiguated
      once more, and is nothing else. */
  lemma HandWrittenCollision(base: string, id: string, seen: set<string>, text: string)
    requires base in seen && base + " (" + id + ")" in seen
    requires base + " (" + id + ")" + " (" + id + ")" !in seen
    ensures IsFirstFree(text, base, id, seen) <==> text == base + " (" + id + ")" + " (" + id + ")"
  {
    var twice := base + " (" + id + ")" + " (" + id + ")";
    assert Suffixed(base, id, 1) == base + " (" + id + ")";
    assert Suffixed(base, id, 2) == twice;
    assert forall k: nat | k < 2 :: Suffixed(base, id, k) in seen;
    assert IsFirstFreeAt(twice, base, id, seen, 2);
    if IsFirstFree(text, base, id, seen) { FirstFreeIsUnique(text, twice, base, id, seen); }
  }
}
