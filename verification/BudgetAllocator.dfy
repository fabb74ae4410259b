/** A fixed token budget spent by claimants in priority order; what one leaves over cascades to the next. */
module BudgetAllocator {
  import opened JsText

  datatype Source = System | Instructions | Tools | History | Mentions | Skills | Retrieval

  const SOURCES: seq<Source> := [System, Instructions, Tools, History, Mentions, Skills, Retrieval]

  type Tokens = x: real | x >= 0.0

  /** A number the host supplies; `None` stands for one that is not finite. */
  type Given = Option<real>

  datatype Allocation = Allocation(source: Source, granted: Tokens, demanded: Tokens, deficit: Tokens)

  datatype Outcome = Allocated(allowances: seq<Allocation>, spent: Tokens, totalDeficit: Tokens) | Rejected

  // ----- weights -----

  function DefaultWeight(s: Source): real {
    match s
    case System => 10.0 case Instructions => 8.0 case Tools => 6.0 case History => 5.0
    case Mentions => 4.0 case Skills => 3.0 case Retrieval => 2.0
  }

  /** A given weight overrides the default one. */
  function WeightOf(weights: map<Source, real>, s: Source): real {
    if s in weights then weights[s] else DefaultWeight(s)
  }

  function SumOf(amounts: map<Source, real>, sources: seq<Source>): real
    requires forall s | s in sources :: s in amounts
  {
    if sources == [] then 0.0 else SumOf(amounts, sources[..|sources|-1]) + amounts[sources[|sources|-1]]
  }

  function Weights(weights: map<Source, real>): (r: map<Source, real>)
    ensures forall s :: s in r && r[s] == WeightOf(weights, s)
  {
    EverySourceIsListed();
    map s | s in SOURCES :: WeightOf(weights, s)
  }

  predicate AreFinite(weights: map<Source, Given>) {
    forall s | s in weights :: weights[s].Some?
  }

  function Values(weights: map<Source, Given>): map<Source, real>
    requires AreFinite(weights)
  {
    map s | s in weights :: weights[s].value
  }

  predicate AreValidWeights(weights: map<Source, real>) {
    SumOf(Weights(weights), SOURCES) > 0.0 && forall s | s in SOURCES :: WeightOf(weights, s) >= 0.0
  }

  /** Weights as shares of their total. */
  function NormalizeWeights(weights: map<Source, real>): (shares: map<Source, real>)
    requires AreValidWeights(weights)
    ensures forall s :: s in shares && shares[s] == WeightOf(weights, s) / SumOf(Weights(weights), SOURCES)
  {
    EverySourceIsListed();
    map s | s in SOURCES :: WeightOf(weights, s) / SumOf(Weights(weights), SOURCES)
  }

  /** A share for every source, none negative, one in total. */
  ghost predicate AreShares(shares: map<Source, real>) {
    (forall s :: s in shares && shares[s] >= 0.0) && SumOf(shares, SOURCES) == 1.0
  }

  lemma {:induction false} SumOfQuotients(a: map<Source, real>, b: map<Source, real>, total: real, sources: seq<Source>)
    requires total > 0.0 && forall s :: s in a && s in b && b[s] == a[s] / total
    ensures SumOf(b, sources) == SumOf(a, sources) / total
  {
    if sources != [] { SumOfQuotients(a, b, total, sources[..|sources|-1]); }
  }

  lemma SharesSumToOne(weights: map<Source, real>)
    requires AreValidWeights(weights)
    ensures AreShares(NormalizeWeights(weights))
  {
    hide SumOf, WeightOf;
    var total := SumOf(Weights(weights), SOURCES);
    SumOfQuotients(Weights(weights), NormalizeWeights(weights), total, SOURCES);
    QuotientOf(total, total);
    EverySourceIsListed();
    forall s ensures NormalizeWeights(weights)[s] >= 0.0 {
      QuotientOf(WeightOf(weights, s), total);
    }
  }

  lemma QuotientOf(x: real, total: real)
    requires x >= 0.0 && total > 0.0
    ensures x / total >= 0.0 && total / total == 1.0
  {}

  lemma SourceIsListed(s: Source)
    ensures s in SOURCES
  {
    match s
    case System => assert SOURCES[0] == s;
    case Instructions => assert SOURCES[1] == s;
    case Tools => assert SOURCES[2] == s;
    case History => assert SOURCES[3] == s;
    case Mentions => assert SOURCES[4] == s;
    case Skills => assert SOURCES[5] == s;
    case Retrieval => assert SOURCES[6] == s;
  }

  lemma EverySourceIsListed()
    ensures forall s :: s in SOURCES
  {
    forall s ensures s in SOURCES { SourceIsListed(s); }
  }

  // ----- priority order -----

  /** Names with equal shares are compared by their spelling. */
  function NameRank(s: Source): nat {
    match s
    case History => 0 case Instructions => 1 case Mentions => 2 case Retrieval => 3
    case Skills => 4 case System => 5 case Tools => 6
  }

  function CanonicalRank(s: Source): nat {
    match s
    case System => 0 case Instructions => 1 case Tools => 2 case History => 3
    case Mentions => 4 case Skills => 5 case Retrieval => 6
  }

  predicate ComesBefore(shares: map<Source, real>, a: Source, b: Source)
    requires a in shares && b in shares
  {
    shares[a] > shares[b] || (shares[a] == shares[b] && NameRank(a) < NameRank(b))
  }

  ghost predicate IsOrdered(shares: map<Source, real>, sources: seq<Source>)
    requires forall s :: s in shares
  {
    forall i, j | 0 <= i < j < |sources| :: ComesBefore(shares, sources[i], sources[j])
  }

  function Insert(shares: map<Source, real>, s: Source, sources: seq<Source>): seq<Source>
    requires forall s :: s in shares
  {
    if sources == [] then [s]
    else if ComesBefore(shares, s, sources[0]) then [s] + sources
    else [sources[0]] + Insert(shares, s, sources[1..])
  }

  function ByPriority(shares: map<Source, real>, sources: seq<Source>): seq<Source>
    requires forall s :: s in shares
  {
    if sources == [] then [] else Insert(shares, sources[0], ByPriority(shares, sources[1..]))
  }

  lemma Prepended<T>(x: T, xs: seq<T>)
    ensures multiset([x] + xs) == multiset(xs) + multiset{x}
  {}

  lemma {:induction false} InsertPermutes(shares: map<Source, real>, s: Source, sources: seq<Source>)
    requires forall s :: s in shares
    ensures multiset(Insert(shares, s, sources)) == multiset(sources) + multiset{s}
  {
    hide ComesBefore;
    Prepended(s, sources);
    if sources != [] && !ComesBefore(shares, s, sources[0]) {
      var first, rest := sources[0], sources[1..];
      InsertPermutes(shares, s, rest);
      assert Insert(shares, s, sources) == [first] + Insert(shares, s, rest);
      assert sources == [first] + rest;
      hide Insert;
      Prepended(first, Insert(shares, s, rest));
      Prepended(first, rest);
    }
  }

  lemma {:induction false} InsertKeepsOrder(shares: map<Source, real>, s: Source, sources: seq<Source>)
    requires (forall s :: s in shares) && IsOrdered(shares, sources) && s !in sources
    ensures IsOrdered(shares, Insert(shares, s, sources))
  {
    if sources != [] && !ComesBefore(shares, s, sources[0]) {
      var rest := sources[1..];
      InsertKeepsOrder(shares, s, rest);
      InsertPermutes(shares, s, rest);
      var more := Insert(shares, s, rest);
      forall j | 0 <= j < |more| ensures ComesBefore(shares, sources[0], more[j]) {
        assert more[j] in multiset(more);
        assert more[j] == s || more[j] in rest;
        SpelledApart(s, sources[0]);
      }
    }
  }

  lemma SpelledApart(a: Source, b: Source)
    ensures NameRank(a) == NameRank(b) ==> a == b
  {}

  predicate AreDistinct(sources: seq<Source>) {
    forall i, j | 0 <= i < j < |sources| :: sources[i] != sources[j]
  }

  /** The priority order lists every source once, higher shares first. */
  lemma {:induction false} PriorityOrder(shares: map<Source, real>, sources: seq<Source>)
    requires (forall s :: s in shares) && AreDistinct(sources)
    ensures IsOrdered(shares, ByPriority(shares, sources))
    ensures multiset(ByPriority(shares, sources)) == multiset(sources)
  {
    if sources != [] {
      var first, others := sources[0], sources[1..];
      PriorityOrder(shares, others);
      var rest := ByPriority(shares, others);
      assert sources == [first] + others;
      hide ByPriority, IsOrdered, Insert;
      assert first !in others && first !in multiset(rest);
      assert first !in rest;
      InsertPermutes(shares, first, rest);
      InsertKeepsOrder(shares, first, rest);
    }
    hide IsOrdered, Insert;
  }

  lemma {:induction false} SumOfPermutation(amounts: map<Source, real>, a: seq<Source>, b: seq<Source>)
    requires (forall s :: s in amounts) && multiset(a) == multiset(b)
    ensures SumOf(amounts, a) == SumOf(amounts, b)
  {
    if a == [] {
      assert |multiset(b)| == 0;
    } else {
      var n := |a| - 1;
      assert SumOf(amounts, a) == SumOf(amounts, a[..n]) + amounts[a[n]];
      hide SumOf;
      var k := IndexIn(a[..n], a[n], b) by { assert a == a[..n] + [a[n]]; }
      SumOfPermutation(amounts, a[..n], b[..k] + b[k+1..]);
      SumOfRemoval(amounts, b[..k], b[k], b[k+1..]);
    }
  }

  lemma IndexIn<T>(a: seq<T>, x: T, b: seq<T>) returns (k: nat)
    requires multiset(a + [x]) == multiset(b)
    ensures k < |b| && b[k] == x && multiset(a) == multiset(b[..k] + b[k+1..]) && b == b[..k] + [x] + b[k+1..]
  {
    assert x in multiset(b);
    k :| 0 <= k < |b| && b[k] == x;
    RemoveOne(a, x, b, k);
    assert b == b[..k] + [x] + b[k+1..];
  }

  lemma RemoveOne<T>(a: seq<T>, x: T, b: seq<T>, k: nat)
    requires k < |b| && b[k] == x && multiset(a + [x]) == multiset(b)
    ensures multiset(a) == multiset(b[..k] + b[k+1..])
  {
    assert b == b[..k] + [b[k]] + b[k+1..];
    assert multiset(a + [x]) == multiset(a) + multiset{x};
    assert multiset(b) == multiset(b[..k] + b[k+1..]) + multiset{x};
    assert multiset(a) == multiset(a) + multiset{x} - multiset{x};
    assert multiset(b[..k] + b[k+1..]) == multiset(b[..k] + b[k+1..]) + multiset{x} - multiset{x};
  }

  lemma {:induction false} SumOfRemoval(amounts: map<Source, real>, x: seq<Source>, s: Source, y: seq<Source>)
    requires forall s :: s in amounts
    ensures SumOf(amounts, x + [s] + y) == SumOf(amounts, x + y) + amounts[s]
  {
    if y == [] {
      assert x + [s] + y == x + [s] && (x + [s])[..|x|] == x && x + y == x;
    } else {
      var n := |y| - 1;
      SumOfRemoval(amounts, x, s, y[..n]);
      assert (x + [s] + y)[..|x| + 1 + n] == x + [s] + y[..n];
      assert (x + y)[..|x| + n] == x + y[..n];
    }
  }

  // ----- phase 1: allowances -----

  function Sum(xs: seq<real>): real {
    if xs == [] then 0.0 else Sum(xs[..|xs|-1]) + xs[|xs|-1]
  }

  /** A share of the budget, before flooring. */
  function Portion(budget: Tokens, share: real): real {
    budget * share
  }

  function Floored(budget: Tokens, shares: map<Source, real>, sources: seq<Source>): (r: seq<real>)
    requires forall s :: s in shares
    ensures |r| == |sources|
  {
    if sources == [] then []
    else Floored(budget, shares, sources[..|sources|-1]) + [Portion(budget, shares[sources[|sources|-1]]).Floor as real]
  }

  /** Floored shares; what flooring leaves over goes to the first in order. */
  function Allowances(budget: Tokens, shares: map<Source, real>, ordered: seq<Source>): (r: seq<real>)
    requires forall s :: s in shares
    ensures |r| == |ordered|
  {
    var floored := Floored(budget, shares, ordered);
    if floored == [] then [] else floored[0 := floored[0] + (budget - Sum(floored))]
  }

  lemma {:induction false} FlooredBounds(budget: Tokens, shares: map<Source, real>, sources: seq<Source>)
    requires forall s :: s in shares && shares[s] >= 0.0
    ensures var floored := Floored(budget, shares, sources);
            && AreAllowances(floored)
            && Sum(floored) <= Portion(budget, SumOf(shares, sources)) <= Sum(floored) + |sources| as real
  {
    if sources != [] {
      hide Portion;
      var before, last := sources[..|sources|-1], sources[|sources|-1];
      FlooredBounds(budget, shares, before);
      var floored, x := Floored(budget, shares, before), Portion(budget, shares[last]);
      PortionOfSum(budget, SumOf(shares, before), shares[last]);
      assert Floored(budget, shares, sources) == floored + [x.Floor as real];
      SumSnoc(floored, x.Floor as real);
      hide Floored, Sum;
      FloorStep(Sum(floored), |before|, Portion(budget, SumOf(shares, before)), x);
      assert SumOf(shares, sources) == SumOf(shares, before) + shares[last];
    } else {
      hide Floored;
    }
  }

  lemma PortionOfSum(budget: Tokens, x: real, y: real)
    requires y >= 0.0
    ensures Portion(budget, x + y) == Portion(budget, x) + Portion(budget, y) && Portion(budget, y) >= 0.0
  {}

  lemma SumSnoc(xs: seq<real>, x: real)
    ensures Sum(xs + [x]) == Sum(xs) + x
  {
    assert (xs + [x])[..|xs|] == xs;
  }

  lemma FloorStep(sum: real, n: nat, total: real, x: real)
    requires sum <= total <= sum + n as real
    ensures sum + x.Floor as real <= total + x <= sum + x.Floor as real + (n + 1) as real
  {}

  lemma SumOfUpdate(xs: seq<real>, d: real)
    requires xs != []
    ensures Sum(xs[0 := xs[0] + d]) == Sum(xs) + d
    decreases |xs|
  {
    var n, ys := |xs| - 1, xs[0 := xs[0] + d];
    if n == 0 {
      assert ys[..0] == xs[..0];
    } else {
      assert ys[..n] == xs[..n][0 := xs[..n][0] + d];
      SumOfUpdate(xs[..n], d);
    }
  }

  lemma FlooringLeavesAResidue(budget: Tokens, shares: map<Source, real>, ordered: seq<Source>)
    requires AreShares(shares) && multiset(ordered) == multiset(SOURCES)
    ensures AreAllowances(Floored(budget, shares, ordered))
    ensures 0.0 <= budget - Sum(Floored(budget, shares, ordered)) <= |ordered| as real
  {
    hide Floored, SumOf, Sum, Portion, AreAllowances;
    SumOfPermutation(shares, ordered, SOURCES);
    FlooredBounds(budget, shares, ordered);
    WholePortion(budget);
  }

  /** The allowances are the whole budget, none negative; the residue is at most one token a source. */
  lemma AllowancesAreTheBudget(budget: Tokens, shares: map<Source, real>, ordered: seq<Source>)
    requires AreShares(shares) && ordered != [] && multiset(ordered) == multiset(SOURCES)
    ensures var allowances := Allowances(budget, shares, ordered);
            && AreAllowances(allowances) && Sum(allowances) == budget
            && 0.0 <= budget - Sum(Floored(budget, shares, ordered)) <= |ordered| as real
  {
    hide Floored, Sum, AreAllowances;
    FlooringLeavesAResidue(budget, shares, ordered);
    var floored := Floored(budget, shares, ordered);
    SumOfUpdate(floored, budget - Sum(floored));
    ResidueKeepsAllowances(floored, budget - Sum(floored));
  }

  lemma ResidueKeepsAllowances(xs: seq<real>, d: Tokens)
    requires xs != [] && AreAllowances(xs)
    ensures AreAllowances(xs[0 := xs[0] + d])
  {}

  lemma WholePortion(budget: Tokens)
    ensures Portion(budget, 1.0) == budget
  {}

  // ----- phase 2: spending -----

  function Lesser(a: real, b: real): real {
    if a < b then a else b
  }

  /** What is left of the first `k` allowances after the first `k` grants. */
  function CascadeAfter(allowances: seq<real>, demands: seq<Tokens>, k: nat): real
    requires k <= |allowances| && k <= |demands|
  {
    if k == 0 then 0.0
    else
      var available := allowances[k-1] + CascadeAfter(allowances, demands, k - 1);
      available - Lesser(demands[k-1], available)
  }

  function GrantAt(allowances: seq<real>, demands: seq<Tokens>, k: nat): real
    requires k < |allowances| && k < |demands|
  {
    Lesser(demands[k], allowances[k] + CascadeAfter(allowances, demands, k))
  }

  function Grants(allowances: seq<real>, demands: seq<Tokens>): seq<real>
    requires |allowances| == |demands|
  {
    seq(|demands|, k requires 0 <= k < |demands| => GrantAt(allowances, demands, k))
  }

  predicate AreAllowances(allowances: seq<real>) {
    forall k | 0 <= k < |allowances| :: allowances[k] >= 0.0
  }

  lemma {:induction false} CascadeIsLeftover(allowances: seq<real>, demands: seq<Tokens>, k: nat)
    requires |allowances| == |demands| && k <= |demands| && AreAllowances(allowances)
    ensures CascadeAfter(allowances, demands, k) >= 0.0
    ensures CascadeAfter(allowances, demands, k) == Sum(allowances[..k]) - Sum(Grants(allowances, demands)[..k])
    ensures forall j | 0 <= j < k :: 0.0 <= GrantAt(allowances, demands, j) <= demands[j]
  {
    if k > 0 {
      CascadeIsLeftover(allowances, demands, k - 1);
      var grants := Grants(allowances, demands);
      assert allowances[..k][..k-1] == allowances[..k-1] && grants[..k][..k-1] == grants[..k-1];
    }
  }

  /** An allocation the allowances permit: bounded by demand and, for every prefix, by the allowances so far. */
  ghost predicate IsPermitted(x: seq<real>, allowances: seq<real>, demands: seq<Tokens>) {
    && |x| == |allowances| == |demands|
    && (forall k | 0 <= k < |x| :: 0.0 <= x[k] <= demands[k])
    && (forall k | 0 <= k <= |x| :: Sum(x[..k]) <= Sum(allowances[..k]))
  }

  lemma SumStep(xs: seq<real>, k: nat)
    requires k < |xs|
    ensures Sum(xs[..k+1]) == Sum(xs[..k]) + xs[k]
  {
    assert xs[..k+1][..k] == xs[..k];
  }

  lemma GrantsArePermitted(allowances: seq<real>, demands: seq<Tokens>)
    requires |allowances| == |demands| && AreAllowances(allowances)
    ensures IsPermitted(Grants(allowances, demands), allowances, demands)
  {
    forall k | 0 <= k <= |demands| ensures Sum(Grants(allowances, demands)[..k]) <= Sum(allowances[..k]) {
      CascadeIsLeftover(allowances, demands, k);
    }
    CascadeIsLeftover(allowances, demands, |demands|);
  }

  /** No permitted allocation gives any prefix of the priority order more in total than the cascade does. */
  lemma {:induction false} GrantsAreGreatest(x: seq<real>, allowances: seq<real>, demands: seq<Tokens>, k: nat)
    requires IsPermitted(x, allowances, demands) && AreAllowances(allowances) && k <= |demands|
    ensures Sum(x[..k]) <= Sum(Grants(allowances, demands)[..k])
  {
    if k > 0 {
      var grants := Grants(allowances, demands);
      GrantsAreGreatest(x, allowances, demands, k - 1);
      CascadeIsLeftover(allowances, demands, k - 1);
      CascadeIsLeftover(allowances, demands, k);
      SumStep(x, k - 1);
      SumStep(grants, k - 1);
      SumStep(allowances, k - 1);
      hide Sum;
      assert Sum(x[..k]) <= Sum(allowances[..k]);
    }
  }

  /** A source is cut only when nothing of the allowances up to it is left. */
  lemma DeficitMeansNothingLeft(allowances: seq<real>, demands: seq<Tokens>, k: nat)
    requires |allowances| == |demands| && AreAllowances(allowances) && k < |demands|
    requires GrantAt(allowances, demands, k) < demands[k]
    ensures CascadeAfter(allowances, demands, k + 1) == 0.0
    ensures Sum(Grants(allowances, demands)[..k+1]) == Sum(allowances[..k+1])
  {
    CascadeIsLeftover(allowances, demands, k + 1);
  }

  // ----- the allocator -----

  /** Whole tokens; a demand that is missing, negative or not finite counts as none. */
  function Demanded(demand: map<Source, Given>, s: Source): (r: Tokens)
    ensures s in demand && demand[s].Some? && demand[s].value >= 0.0 ==> r <= demand[s].value < r + 1.0
    ensures s !in demand || demand[s].None? || demand[s].value < 0.0 ==> r == 0.0
  {
    if s in demand && demand[s].Some? && demand[s].value > 0.0 then demand[s].value.Floor as real else 0.0
  }

  function Demands(demand: map<Source, Given>, sources: seq<Source>): (r: seq<Tokens>)
    ensures |r| == |sources|
  {
    seq(|sources|, i requires 0 <= i < |sources| => Demanded(demand, sources[i]))
  }

  function Amount(a: Allocation, cut: bool): real {
    if cut then a.deficit else a.granted
  }

  function Total(allocations: seq<Allocation>, cut: bool): real {
    if allocations == [] then 0.0
    else Total(allocations[..|allocations|-1], cut) + Amount(allocations[|allocations|-1], cut)
  }

  lemma {:induction false} TotalOfRemoval(x: seq<Allocation>, a: Allocation, y: seq<Allocation>, cut: bool)
    ensures Total(x + [a] + y, cut) == Total(x + y, cut) + Amount(a, cut)
  {
    hide Amount;
    if y == [] {
      assert x + [a] + y == x + [a] && (x + [a])[..|x|] == x && x + y == x;
    } else {
      var n := |y| - 1;
      TotalOfRemoval(x, a, y[..n], cut);
      assert (x + [a] + y)[..|x| + 1 + n] == x + [a] + y[..n];
      assert (x + y)[..|x| + n] == x + y[..n];
    }
  }

  lemma {:induction false} TotalOfPermutation(a: seq<Allocation>, b: seq<Allocation>, cut: bool)
    requires multiset(a) == multiset(b)
    ensures Total(a, cut) == Total(b, cut)
  {
    hide Amount;
    if a == [] {
      assert |multiset(b)| == 0;
    } else {
      var n := |a| - 1;
      assert Total(a, cut) == Total(a[..n], cut) + Amount(a[n], cut);
      hide Total;
      var k := IndexIn(a[..n], a[n], b) by { assert a == a[..n] + [a[n]]; }
      TotalOfPermutation(a[..n], b[..k] + b[k+1..], cut);
      TotalOfRemoval(b[..k], b[k], b[k+1..], cut);
    }
  }

  /** The allocation of the `k`-th source in priority order. */
  function AllocationAt(ordered: seq<Source>, allowances: seq<real>, demands: seq<Tokens>, k: nat): Allocation
    requires |ordered| == |allowances| == |demands| && k < |ordered| && AreAllowances(allowances)
  {
    CascadeIsLeftover(allowances, demands, k + 1);
    var granted := GrantAt(allowances, demands, k);
    Allocation(ordered[k], granted, demands[k], demands[k] - granted)
  }

  lemma CascadeStart(allowances: seq<real>, demands: seq<Tokens>)
    ensures CascadeAfter(allowances, demands, 0) == 0.0
  {}

  lemma CascadeStep(allowances: seq<real>, demands: seq<Tokens>, k: nat)
    requires k < |allowances| && k < |demands|
    ensures CascadeAfter(allowances, demands, k + 1)
         == allowances[k] + CascadeAfter(allowances, demands, k) - GrantAt(allowances, demands, k)
  {}

  /** The spending loop. */
  method Spend(ordered: seq<Source>, allowances: seq<real>, demand: map<Source, Given>)
    returns (allocations: seq<Allocation>)
    requires |ordered| == |allowances| && AreAllowances(allowances)
    ensures |allocations| == |ordered|
    ensures forall k | 0 <= k < |ordered| ::
      allocations[k] == AllocationAt(ordered, allowances, Demands(demand, ordered), k)
  {
    hide Demanded, CascadeAfter;
    ghost var demands := Demands(demand, ordered);
    CascadeStart(allowances, demands);
    allocations := [];
    var cascade: real := 0.0;
    for k := 0 to |ordered|
      invariant |allocations| == k && cascade == CascadeAfter(allowances, demands, k)
      invariant forall j | 0 <= j < k :: allocations[j] == AllocationAt(ordered, allowances, demands, j)
    {
      CascadeIsLeftover(allowances, demands, k + 1);
      CascadeStep(allowances, demands, k);
      var demanded := Demanded(demand, ordered[k]);
      var available := allowances[k] + cascade;
      var granted := Lesser(demanded, available);
      cascade := available - granted;
      allocations := allocations + [Allocation(ordered[k], granted, demanded, demanded - granted)];
    }
  }

  // ----- the report -----

  /** In canonical order, each source at most once. */
  ghost predicate IsCanonical(xs: seq<Allocation>) {
    forall i, j | 0 <= i < j < |xs| :: CanonicalRank(xs[i].source) < CanonicalRank(xs[j].source)
  }

  function Place(a: Allocation, xs: seq<Allocation>): seq<Allocation> {
    if xs == [] then [a]
    else if CanonicalRank(a.source) < CanonicalRank(xs[0].source) then [a] + xs
    else [xs[0]] + Place(a, xs[1..])
  }

  lemma {:induction false} PlacePermutes(a: Allocation, xs: seq<Allocation>)
    ensures multiset(Place(a, xs)) == multiset(xs) + multiset{a}
  {
    hide CanonicalRank;
    if xs != [] && CanonicalRank(a.source) >= CanonicalRank(xs[0].source) {
      PlacePermutes(a, xs[1..]);
      assert xs == [xs[0]] + xs[1..];
    }
  }

  lemma {:induction false} PlaceKeepsCanonical(a: Allocation, xs: seq<Allocation>)
    requires IsCanonical(xs) && forall k | 0 <= k < |xs| :: CanonicalRank(xs[k].source) != CanonicalRank(a.source)
    ensures IsCanonical(Place(a, xs))
  {
    hide CanonicalRank;
    if xs != [] && CanonicalRank(a.source) > CanonicalRank(xs[0].source) {
      var rest := xs[1..];
      PlaceKeepsCanonical(a, rest);
      PlacePermutes(a, rest);
      var more := Place(a, rest);
      forall j | 0 <= j < |more| ensures CanonicalRank(xs[0].source) < CanonicalRank(more[j].source) {
        assert more[j] in multiset(more);
        assert more[j] == a || more[j] in rest;
      }
    }
  }

  lemma {:induction false} RankIsPosition(xs: seq<Allocation>, k: nat)
    requires IsCanonical(xs) && |xs| == 7 && k < 7
    ensures CanonicalRank(xs[k].source) >= k
  {
    if k > 0 { RankIsPosition(xs, k - 1); }
  }

  lemma {:induction false} RankIsAtMostPosition(xs: seq<Allocation>, k: nat)
    requires IsCanonical(xs) && |xs| == 7 && k < 7
    ensures CanonicalRank(xs[k].source) <= k
    decreases 7 - k
  {
    if k < 6 { RankIsAtMostPosition(xs, k + 1); }
  }

  method RestoreCanonicalOrder(allocations: seq<Allocation>, ghost ordered: seq<Source>)
    returns (report: seq<Allocation>)
    requires |allocations| == |ordered| && AreDistinct(ordered)
    requires forall k | 0 <= k < |ordered| :: allocations[k].source == ordered[k]
    ensures multiset(report) == multiset(allocations) && IsCanonical(report)
  {
    hide CanonicalRank, Place;
    report := [];
    for i := 0 to |allocations|
      invariant multiset(report) == multiset(allocations[..i]) && IsCanonical(report)
    {
      var a := allocations[i];
      forall k | 0 <= k < |report| ensures CanonicalRank(report[k].source) != CanonicalRank(a.source) {
        assert report[k] in multiset(allocations[..i]);
        RanksDiffer(report[k].source, a.source);
      }
      PlacePermutes(a, report);
      PlaceKeepsCanonical(a, report);
      assert allocations[..i+1] == allocations[..i] + [a];
      report := Place(a, report);
    }
    assert allocations[..|allocations|] == allocations;
  }

  lemma RanksDiffer(a: Source, b: Source)
    ensures CanonicalRank(a) == CanonicalRank(b) ==> a == b
  {}

  lemma {:induction false} TotalsOfSpending(allocations: seq<Allocation>, ordered: seq<Source>, allowances: seq<real>,
        demands: seq<Tokens>, k: nat)
    requires |allocations| == |ordered| == |allowances| == |demands| && AreAllowances(allowances) && k <= |ordered|
    requires forall j | 0 <= j < |ordered| :: allocations[j] == AllocationAt(ordered, allowances, demands, j)
    ensures Total(allocations[..k], false) == Sum(Grants(allowances, demands)[..k])
    ensures Total(allocations[..k], false) + Total(allocations[..k], true) == Sum(demands[..k])
  {
    if k > 0 {
      TotalsOfSpending(allocations, ordered, allowances, demands, k - 1);
      assert allocations[..k][..k-1] == allocations[..k-1];
      SumStep(Grants(allowances, demands), k - 1);
      SumStep(demands, k - 1);
      hide Sum, GrantAt;
      assert allocations[k-1] == AllocationAt(ordered, allowances, demands, k - 1);
    }
  }

  /** The report for given shares: every source in canonical order with its grant along the priority order and its
      cut; grants and leftover make the budget, grants and cuts make the demand. */
  ghost predicate IsReport(r: Outcome, budget: Tokens, shares: map<Source, real>, demand: map<Source, Given>)
    requires forall s :: s in shares
  {
    var ordered := ByPriority(shares, SOURCES);
    var allowances, demands := Allowances(budget, shares, ordered), Demands(demand, ordered);
    && r.Allocated? && |r.allowances| == |ordered| == |SOURCES|
    && AreAllowances(allowances) && Sum(allowances) == budget
    && (forall i | 0 <= i < |SOURCES| :: r.allowances[i].source == SOURCES[i])
    && (forall k | 0 <= k < |ordered| :: AllocationAt(ordered, allowances, demands, k) in r.allowances)
    && r.spent + CascadeAfter(allowances, demands, |ordered|) == budget
    && r.spent + r.totalDeficit == Sum(demands)
  }

  /** A budget is a finite number, not negative; weights are finite, not negative, and not all zero. */
  predicate IsAcceptable(budget: Given, weights: map<Source, Given>) {
    budget.Some? && budget.value >= 0.0 && AreFinite(weights) && AreValidWeights(Values(weights))
  }

  method AllocateBudget(budget: Given, demand: map<Source, Given>, weights: map<Source, Given>) returns (r: Outcome)
    ensures r == Rejected <==> !IsAcceptable(budget, weights)
    ensures IsAcceptable(budget, weights) ==> IsReport(r, budget.value, NormalizeWeights(Values(weights)), demand)
  {
    if !IsAcceptable(budget, weights) { return Rejected; }
    hide AreValidWeights, Insert, ByPriority, Demanded, Floored;
    SharesSumToOne(Values(weights));
    SourcesAreDistinct();
    var shares := NormalizeWeights(Values(weights));
    var ordered := ByPriority(shares, SOURCES);
    PriorityOrder(shares, SOURCES);
    SameSize(ordered, SOURCES);
    AllowancesAreTheBudget(budget.value, shares, ordered);
    var allowances := Allowances(budget.value, shares, ordered);
    r := Report(budget.value, ordered, allowances, demand, shares);
  }

  lemma SameSize<T>(a: seq<T>, b: seq<T>)
    requires multiset(a) == multiset(b)
    ensures |a| == |b|
  {
    assert |multiset(a)| == |a| && |multiset(b)| == |b|;
  }

  lemma SourcesAreDistinct()
    ensures AreDistinct(SOURCES) && |SOURCES| == 7
  {}

  lemma OrderedAreDistinct(shares: map<Source, real>, ordered: seq<Source>)
    requires (forall s :: s in shares) && IsOrdered(shares, ordered)
    ensures AreDistinct(ordered)
  {
    forall i, j | 0 <= i < j < |ordered| ensures ordered[i] != ordered[j] {
      assert ComesBefore(shares, ordered[i], ordered[j]);
    }
  }

  lemma CanonicalSources(report: seq<Allocation>)
    requires IsCanonical(report) && |report| == 7
    ensures forall i | 0 <= i < 7 :: report[i].source == SOURCES[i]
  {
    forall i | 0 <= i < 7 ensures report[i].source == SOURCES[i] {
      RankIsPosition(report, i);
      RankIsAtMostPosition(report, i);
      PositionOfRank(report[i].source);
    }
  }

  lemma PositionOfRank(s: Source)
    ensures CanonicalRank(s) < 7 && SOURCES[CanonicalRank(s)] == s
  {}

  method Report(budget: Tokens, ordered: seq<Source>, allowances: seq<real>, demand: map<Source, Given>,
        ghost shares: map<Source, real>)
    returns (r: Outcome)
    requires (forall s :: s in shares) && ordered == ByPriority(shares, SOURCES) && IsOrdered(shares, ordered)
        && |ordered| == 7
    requires allowances == Allowances(budget, shares, ordered) && AreAllowances(allowances) && Sum(allowances) == budget
    ensures IsReport(r, budget, shares, demand)
  {
    hide ByPriority, Allowances, IsOrdered, IsCanonical, Demanded, CascadeAfter, Sum, Total, CanonicalRank;
    OrderedAreDistinct(shares, ordered);
    var allocations := Spend(ordered, allowances, demand);
    ghost var demands := Demands(demand, ordered);
    TotalsOfSpending(allocations, ordered, allowances, demands, 7);
    CascadeIsLeftover(allowances, demands, 7);
    assert allocations[..7] == allocations && demands[..7] == demands && allowances[..7] == allowances;
    var report := RestoreCanonicalOrder(allocations, ordered);
    SameSize(report, allocations);
    CanonicalSources(report);
    TotalOfPermutation(report, allocations, false);
    TotalOfPermutation(report, allocations, true);
    forall k | 0 <= k < |ordered| ensures AllocationAt(ordered, allowances, demands, k) in report {
      assert allocations[k] in multiset(report);
    }
    TotalsAreNatural(report);
    r := Allocated(report, Total(report, false), Total(report, true));
  }

  lemma {:induction false} TotalsAreNatural(xs: seq<Allocation>)
    ensures Total(xs, false) >= 0.0 && Total(xs, true) >= 0.0
  {
    if xs != [] { TotalsAreNatural(xs[..|xs|-1]); }
  }

  // ----- the report in plain numbers -----

  const DEFAULTS := map[System := 10.0, Instructions := 8.0, Tools := 6.0, History := 5.0, Mentions := 4.0,
                        Skills := 3.0, Retrieval := 2.0]

  /** Refused is a budget that is no finite number or negative, a given weight of that kind, and a table that gives
      every source the weight zero; a source left out has a weight of its own. */
  lemma RefusedExactly(budget: Given, weights: map<Source, Given>)
    ensures !IsAcceptable(budget, weights) <==>
              || budget.None? || budget.value < 0.0
              || (exists s :: s in weights && (weights[s].None? || weights[s].value < 0.0))
              || (forall s :: s in weights && weights[s] == Some(0.0))
  {
    hide AreValidWeights;
    if AreFinite(weights) {
      var values := Values(weights);
      assert forall s | s in weights :: weights[s] == Some(values[s]);
      ValidExactly(values);
      if !AreValidWeights(values) && (forall s | s in weights :: weights[s].value >= 0.0) {
        forall s ensures s in weights && weights[s] == Some(0.0) { assert values[s] == 0.0; }
      }
    }
  }

  lemma ValidExactly(weights: map<Source, real>)
    ensures AreValidWeights(weights) <==>
              (forall s | s in weights :: weights[s] >= 0.0) && !(forall s :: s in weights && weights[s] == 0.0)
  {
    hide SumOf, DefaultWeight;
    WeightsAddUp(weights);
    if s :| s in weights && weights[s] < 0.0 {
      SourceIsListed(s);
      assert WeightOf(weights, s) < 0.0;
    } else {
      forall s ensures WeightOf(weights, s) >= 0.0 && (WeightOf(weights, s) == 0.0 ==> s in weights) { DefaultIs(s); }
      if s :| s !in weights || weights[s] != 0.0 { assert WeightOf(weights, s) != 0.0; }
    }
  }

  lemma DefaultIs(s: Source)
    ensures DefaultWeight(s) > 0.0 && s in DEFAULTS && DEFAULTS[s] == DefaultWeight(s)
  {}

  lemma WeightsAddUp(weights: map<Source, real>)
    ensures SumOf(Weights(weights), SOURCES)
         == WeightOf(weights, System) + WeightOf(weights, Instructions) + WeightOf(weights, Tools)
            + WeightOf(weights, History) + WeightOf(weights, Mentions) + WeightOf(weights, Skills)
            + WeightOf(weights, Retrieval)
  {
    var w := Weights(weights);
    SumOfSeven(w, SOURCES);
  }

  lemma SumOfTwoMore(w: map<Source, real>, sources: seq<Source>, n: nat)
    requires (forall s :: s in w) && n + 2 <= |sources|
    ensures SumOf(w, sources[..n+2]) == SumOf(w, sources[..n]) + w[sources[n]] + w[sources[n+1]]
  {
    assert sources[..n+2][..n+1] == sources[..n+1] && sources[..n+1][..n] == sources[..n];
  }

  lemma SumOfSeven(w: map<Source, real>, sources: seq<Source>)
    requires (forall s :: s in w) && |sources| == 7
    ensures SumOf(w, sources)
         == w[sources[0]] + w[sources[1]] + w[sources[2]] + w[sources[3]] + w[sources[4]] + w[sources[5]]
            + w[sources[6]]
  {
    assert SumOf(w, sources) == SumOf(w, sources[..6]) + w[sources[6]];
    assert SumOf(w, sources[..0]) == 0.0;
    hide SumOf;
    SumOfTwoMore(w, sources, 0);
    SumOfTwoMore(w, sources, 2);
    SumOfTwoMore(w, sources, 4);
  }

  /** Given weights replace the default ones, and each share is its weight's part of the total. */
  lemma SharesAre(weights: map<Source, real>, s: Source) returns (total: real)
    requires AreValidWeights(weights)
    ensures forall each: Source :: each in DEFAULTS + weights
    ensures var w := DEFAULTS + weights;
            && total == w[System] + w[Instructions] + w[Tools] + w[History] + w[Mentions] + w[Skills] + w[Retrieval]
            && total > 0.0 && NormalizeWeights(weights)[s] == w[s] / total
  {
    total := SumOf(Weights(weights), SOURCES);
    ShareIsQuotient(weights, s);
    WeightsAddUp(weights);
    forall each: Source ensures each in DEFAULTS + weights && (DEFAULTS + weights)[each] == WeightOf(weights, each) {
      DefaultIs(each);
    }
    hide SumOf, WeightOf, NormalizeWeights;
  }

  lemma ShareIsQuotient(weights: map<Source, real>, s: Source)
    requires AreValidWeights(weights)
    ensures NormalizeWeights(weights)[s] == WeightOf(weights, s) / SumOf(Weights(weights), SOURCES)
  {
    hide SumOf, WeightOf;
  }

  function SourceName(s: Source): string {
    match s
    case System => "system" case Instructions => "instructions" case Tools => "tools" case History => "history"
    case Mentions => "mentions" case Skills => "skills" case Retrieval => "retrieval"
  }

  predicate SpelledBefore(a: string, b: string) {
    b != "" && (a == "" || a[0] < b[0] || (a[0] == b[0] && SpelledBefore(a[1..], b[1..])))
  }

  lemma NamesAreSpelled(a: Source, b: Source)
    ensures NameRank(a) < NameRank(b) <==> SpelledBefore(SourceName(a), SourceName(b))
  {
    if a == b {
      NotBeforeItself(SourceName(a));
    } else {
      var x, y := SourceName(a), SourceName(b);
      assert x[0] == y[0] ==> x[0] == 's' && x[1..] != "" && y[1..] != "" && x[1..][0] == x[1] && y[1..][0] == y[1];
    }
  }

  lemma {:induction false} NotBeforeItself(a: string)
    ensures !SpelledBefore(a, a)
  {
    if a != "" { NotBeforeItself(a[1..]); }
  }

  /** The shares of the budget in whole tokens, added up. */
  ghost function FloorSum(budget: Tokens, shares: map<Source, real>, sources: seq<Source>): real
    requires forall s :: s in shares
  {
    SumOf(map s | s in shares :: (budget * shares[s]).Floor as real, sources)
  }

  lemma FloorSumSnoc(budget: Tokens, shares: map<Source, real>, sources: seq<Source>, n: nat)
    requires (forall s :: s in shares) && n < |sources|
    ensures FloorSum(budget, shares, sources[..n+1])
         == FloorSum(budget, shares, sources[..n]) + (budget * shares[sources[n]]).Floor as real
  {
    assert sources[..n+1][..n] == sources[..n];
  }

  lemma {:induction false} FloorsAreSummed(budget: Tokens, shares: map<Source, real>, sources: seq<Source>, k: nat)
    requires (forall s :: s in shares) && k <= |sources|
    ensures Sum(Floored(budget, shares, sources)[..k]) == FloorSum(budget, shares, sources[..k])
    decreases |sources|
  {
    hide FloorSum, Sum, Portion;
    var floored := Floored(budget, shares, sources);
    if k == 0 {
      NothingSummed(budget, shares);
      assert floored[..k] == [] && sources[..k] == [];
    } else {
      var n := |sources| - 1;
      var before := Floored(budget, shares, sources[..n]);
      if k <= n {
        FloorsAreSummed(budget, shares, sources[..n], k);
        assert floored[..k] == before[..k] && sources[..n][..k] == sources[..k];
      } else {
        FloorsAreSummed(budget, shares, sources[..n], n);
        assert sources[..n][..n] == sources[..n] && floored[..k] == floored && before[..n] == before;
        LastFloored(budget, shares, sources, n);
        FloorSumSnoc(budget, shares, sources, n);
        SumSnoc(before, floored[n]);
      }
    }
  }

  lemma LastFloored(budget: Tokens, shares: map<Source, real>, sources: seq<Source>, n: nat)
    requires (forall s :: s in shares) && |sources| == n + 1
    ensures var share := (budget * shares[sources[n]]).Floor as real;
            Floored(budget, shares, sources) == Floored(budget, shares, sources[..n]) + [share]
  {
    assert Portion(budget, shares[sources[n]]) == budget * shares[sources[n]];
  }

  lemma NothingSummed(budget: Tokens, shares: map<Source, real>)
    requires forall s :: s in shares
    ensures Sum([]) == 0.0 && FloorSum(budget, shares, []) == 0.0
  {}

  lemma SumOfUpdatedPrefix(xs: seq<real>, d: real, k: nat)
    requires k < |xs|
    ensures Sum(xs[0 := xs[0] + d][..k+1]) == Sum(xs[..k+1]) + d
  {
    hide Sum;
    SumOfUpdate(xs[..k+1], d);
    assert xs[0 := xs[0] + d][..k+1] == xs[..k+1][0 := xs[..k+1][0] + d];
  }

  /** The allowances up to the `k`-th: whole-token shares, and all that flooring leaves over. */
  lemma AllowancesAddUp(budget: Tokens, shares: map<Source, real>, ordered: seq<Source>, k: nat)
    requires (forall s :: s in shares) && k < |ordered|
    ensures Sum(Allowances(budget, shares, ordered)[..k+1])
         == budget - FloorSum(budget, shares, ordered) + FloorSum(budget, shares, ordered[..k+1])
  {
    hide Floored, Sum, FloorSum;
    var floored := Floored(budget, shares, ordered);
    FloorsAreSummed(budget, shares, ordered, k + 1);
    FloorsAreSummed(budget, shares, ordered, |ordered|);
    assert floored[..|ordered|] == floored && ordered[..|ordered|] == ordered;
    SumOfUpdatedPrefix(floored, budget - Sum(floored), k);
  }

  /** The grant of the `k`-th source from sums alone. */
  lemma GrantFromSums(allowances: seq<real>, demands: seq<Tokens>, k: nat)
    requires |allowances| == |demands| && AreAllowances(allowances) && k < |demands|
    ensures var available := Sum(allowances[..k+1]) - Sum(Grants(allowances, demands)[..k]);
            GrantAt(allowances, demands, k) == if demands[k] < available then demands[k] else available
  {
    CascadeIsLeftover(allowances, demands, k);
    SumStep(allowances, k);
    hide Sum, CascadeAfter;
  }

  ghost predicate ComesFirst(shares: map<Source, real>, a: Source, b: Source)
    requires forall s :: s in shares
  {
    shares[a] > shares[b] || (shares[a] == shares[b] && SpelledBefore(SourceName(a), SourceName(b)))
  }

  /** What is there for the `k`-th source in order when its turn comes. */
  ghost function Available(budget: Tokens, shares: map<Source, real>, order: seq<Source>, granted: seq<real>, k: nat)
    : real
    requires (forall s :: s in shares) && k < |order| && k <= |granted|
  {
    budget - FloorSum(budget, shares, order) + FloorSum(budget, shares, order[..k+1]) - Sum(granted[..k])
  }

  /** The `k`-th source in order asks for its demand in whole tokens, gets that or what is there for it, and the report
      says so. */
  ghost predicate IsServed(r: Outcome, budget: Tokens, shares: map<Source, real>, demand: map<Source, Given>,
        order: seq<Source>, asked: seq<real>, granted: seq<real>, k: nat)
    requires (forall s :: s in shares) && |order| == |asked| == |granted| && k < |order|
  {
    var s, available := order[k], Available(budget, shares, order, granted, k);
    && asked[k] == (if s in demand && demand[s].Some? && demand[s].value >= 0.0 then demand[s].value.Floor as real
                    else 0.0)
    && granted[k] == (if asked[k] < available then asked[k] else available)
    && 0.0 <= granted[k] <= asked[k]
    && r.Allocated? && Allocation(s, granted[k], asked[k], asked[k] - granted[k]) in r.allowances
  }

  lemma OrderIs(shares: map<Source, real>, order: seq<Source>)
    requires (forall s :: s in shares) && order == ByPriority(shares, SOURCES)
    ensures |order| == 7 && multiset(order) == multiset(SOURCES)
    ensures forall i, j | 0 <= i < j < 7 :: ComesFirst(shares, order[i], order[j])
  {
    SourcesAreDistinct();
    PriorityOrder(shares, SOURCES);
    SameSize(order, SOURCES);
    hide ByPriority, SpelledBefore, NameRank, SourceName;
    forall i, j | 0 <= i < j < 7 ensures ComesFirst(shares, order[i], order[j]) {
      NamesAreSpelled(order[i], order[j]);
      assert ComesBefore(shares, order[i], order[j]);
    }
  }

  lemma GrantIs(budget: Tokens, shares: map<Source, real>, order: seq<Source>, demands: seq<Tokens>, k: nat)
    requires (forall s :: s in shares) && |order| == |demands| && k < |order|
    requires AreAllowances(Allowances(budget, shares, order))
    ensures var granted := Grants(Allowances(budget, shares, order), demands);
            var available := Available(budget, shares, order, granted, k);
            granted[k] == if demands[k] < available then demands[k] else available
  {
    hide Allowances, CascadeAfter, Sum, FloorSum, GrantAt;
    AllowancesAddUp(budget, shares, order, k);
    GrantFromSums(Allowances(budget, shares, order), demands, k);
  }

  lemma DemandIs(demand: map<Source, Given>, s: Source)
    ensures Demanded(demand, s) == if s in demand && demand[s].Some? && demand[s].value >= 0.0
                                   then demand[s].value.Floor as real else 0.0
  {}

  lemma ReportServes(r: Outcome, budget: Tokens, shares: map<Source, real>, demand: map<Source, Given>,
        order: seq<Source>, asked: seq<Tokens>, k: nat)
    requires AreShares(shares) && IsReport(r, budget, shares, demand)
    requires order == ByPriority(shares, SOURCES) && asked == Demands(demand, order) && k < |order|
    ensures IsServed(r, budget, shares, demand, order, asked, Grants(Allowances(budget, shares, order), asked), k)
  {
    hide IsReport, SumOf, Allowances, ByPriority, CascadeAfter, Sum, FloorSum, Demanded, GrantAt, Available;
    AllocationIsReported(r, budget, shares, demand, order, asked, k);
    DemandIs(demand, order[k]);
    CascadeIsLeftover(Allowances(budget, shares, order), asked, k + 1);
    GrantIs(budget, shares, order, asked, k);
  }

  lemma AllocationIsReported(r: Outcome, budget: Tokens, shares: map<Source, real>, demand: map<Source, Given>,
        order: seq<Source>, asked: seq<Tokens>, k: nat)
    requires AreShares(shares) && IsReport(r, budget, shares, demand)
    requires order == ByPriority(shares, SOURCES) && asked == Demands(demand, order) && k < |order|
    ensures r.Allocated? && AreAllowances(Allowances(budget, shares, order))
    ensures AllocationAt(order, Allowances(budget, shares, order), asked, k) in r.allowances
  {
    hide SumOf, Sum, ByPriority, Allowances, AllocationAt, CascadeAfter, Demands;
  }

  /** The whole report.  Sources are served by share and then by name.  Each gets its demand in whole tokens, or what is
      left of the allowances up to and including its own: its share of the budget in whole tokens, and for the first
      in order all that flooring leaves over. */
  lemma ReportIs(r: Outcome, budget: Tokens, shares: map<Source, real>, demand: map<Source, Given>)
    returns (order: seq<Source>, asked: seq<real>, granted: seq<real>)
    requires AreShares(shares) && IsReport(r, budget, shares, demand)
    ensures |order| == |asked| == |granted| == 7 && multiset(order) == multiset(SOURCES)
    ensures forall i, j | 0 <= i < j < 7 :: ComesFirst(shares, order[i], order[j])
    ensures forall k | 0 <= k < 7 :: IsServed(r, budget, shares, demand, order, asked, granted, k)
    ensures |r.allowances| == 7 && r.spent == Sum(granted) && r.totalDeficit == Sum(asked) - Sum(granted)
    ensures FloorSum(budget, shares, order) <= budget
  {
    order := ByPriority(shares, SOURCES);
    OrderIs(shares, order);
    FloorsFit(budget, shares, order);
    var demands := Demands(demand, order);
    asked, granted := demands, Grants(Allowances(budget, shares, order), demands);
    ReportAddsUp(r, budget, shares, demand, order);
    hide *;
    forall k | 0 <= k < 7 ensures IsServed(r, budget, shares, demand, order, asked, granted, k) {
      ReportServes(r, budget, shares, demand, order, demands, k);
    }
  }

  lemma ReportAddsUp(r: Outcome, budget: Tokens, shares: map<Source, real>, demand: map<Source, Given>,
        order: seq<Source>)
    requires AreShares(shares) && IsReport(r, budget, shares, demand) && order == ByPriority(shares, SOURCES)
    ensures r.Allocated? && |r.allowances| == 7 && |order| == 7
    ensures var asked := Demands(demand, order);
            var granted := Grants(Allowances(budget, shares, order), asked);
            r.spent == Sum(granted) && r.totalDeficit == Sum(asked) - Sum(granted)
  {
    var allowances, demands := Allowances(budget, shares, order), Demands(demand, order);
    CascadeIsLeftover(allowances, demands, 7);
    assert allowances[..7] == allowances && Grants(allowances, demands)[..7] == Grants(allowances, demands);
    hide Allowances, ByPriority, CascadeAfter, Sum, SumOf, Demands, Grants, DefaultWeight;
  }

  lemma FloorsFit(budget: Tokens, shares: map<Source, real>, order: seq<Source>)
    requires AreShares(shares) && multiset(order) == multiset(SOURCES)
    ensures FloorSum(budget, shares, order) <= budget
  {
    FlooringLeavesAResidue(budget, shares, order);
    FloorsAreSummed(budget, shares, order, |order|);
    hide *;
    assert order[..|order|] == order;
    assert Floored(budget, shares, order)[..|order|] == Floored(budget, shares, order);
  }

  /** So no source gets less than its demand or its share of the budget in whole tokens, whichever is less; for the
      first in order the share grows by all that flooring leaves over. */
  lemma NobodyGetsLessThanItsShare(r: Outcome, budget: Tokens, shares: map<Source, real>, demand: map<Source, Given>,
        order: seq<Source>, asked: seq<real>, granted: seq<real>, k: nat)
    requires (forall s :: s in shares) && |order| == |asked| == |granted| && k < |order|
    requires FloorSum(budget, shares, order) <= budget
    requires forall j | 0 <= j < |order| :: IsServed(r, budget, shares, demand, order, asked, granted, j)
    ensures granted[k] == asked[k]
         || granted[k] >= (budget * shares[order[k]]).Floor as real
                          + if k == 0 then budget - FloorSum(budget, shares, order) else 0.0
  {
    assert IsServed(r, budget, shares, demand, order, asked, granted, k);
    hide FloorSum, Sum;
    FloorSumSnoc(budget, shares, order, k);
    NothingSummed(budget, shares);
    if k == 0 {
      assert order[..k] == [] && granted[..k] == [];
    } else {
      assert IsServed(r, budget, shares, demand, order, asked, granted, k - 1);
      SumStep(granted, k - 1);
    }
  }
}
