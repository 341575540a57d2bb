/**
 * The cost and quality router (crates/diaspor-imagegen/src/studio.rs): rank the eligible
 * generators by policy, try them in that order, fall back on failure.
 */
module ImageStudio {
  import opened Common

  /** A registered provider and its profile; two providers may have the same profile. */
  datatype Generator = Generator(provider: nat, name: string, quality: nat, cost: real)

  datatype Policy = CostOptimized | QualityFirst | Balanced(maxCost: real)

  datatype ImageError = NoProvider | InvalidRequest | ProviderFailed(name: string)

  type Image = seq<Byte>

  /** What each generator does with the current request. */
  type Attempt = Generator -> Result<Image, ImageError>

  predicate Eligible(policy: Policy, g: Generator) { policy.Balanced? ==> g.cost <= policy.maxCost }

  function Filter(policy: Policy, generators: seq<Generator>): seq<Generator>
  {
    if generators == [] then []
    else Filter(policy, Front(generators)) + if Eligible(policy, Last(generators)) then [Last(generators)] else []
  }

  /** `a` ranks strictly before `b`: the comparator's `Less`. */
  predicate Before(policy: Policy, a: Generator, b: Generator)
  {
    if policy.CostOptimized? then a.cost < b.cost || (a.cost == b.cost && a.quality > b.quality)
    else a.quality > b.quality || (a.quality == b.quality && a.cost < b.cost)
  }

  function Insert(policy: Policy, sorted: seq<Generator>, g: Generator): seq<Generator>
  {
    if sorted == [] || !Before(policy, g, Last(sorted)) then sorted + [g]
    else Insert(policy, Front(sorted), g) + [Last(sorted)]
  }

  /** The stable sort by the policy's comparator. */
  function Sort(policy: Policy, generators: seq<Generator>): seq<Generator>
  {
    if generators == [] then [] else Insert(policy, Sort(policy, Front(generators)), Last(generators))
  }

  function Ranked(policy: Policy, generators: seq<Generator>): seq<Generator>
  {
    Sort(policy, Filter(policy, generators))
  }

  predicate BestFirst(policy: Policy, ranked: seq<Generator>)
  {
    forall i, j :: 0 <= i < j < |ranked| ==> !Before(policy, ranked[j], ranked[i])
  }

  lemma {:induction false} InsertMembers(policy: Policy, sorted: seq<Generator>, g: Generator)
    ensures multiset(Insert(policy, sorted, g)) == multiset(sorted) + multiset{g}
  {
    if sorted != [] && Before(policy, g, Last(sorted)) {
      InsertMembers(policy, Front(sorted), g);
      assert sorted == Front(sorted) + [Last(sorted)];
    }
  }

  /** Nothing in the insertion ranks after a floor that `g` and the rest precede or equal. */
  lemma {:induction false} InsertAbove(policy: Policy, sorted: seq<Generator>, g: Generator, floor: Generator)
    requires !Before(policy, floor, g) && forall i :: 0 <= i < |sorted| ==> !Before(policy, floor, sorted[i])
    ensures forall i :: 0 <= i < |Insert(policy, sorted, g)| ==> !Before(policy, floor, Insert(policy, sorted, g)[i])
  {
    if sorted != [] && Before(policy, g, Last(sorted)) {
      InsertAbove(policy, Front(sorted), g, floor);
    }
  }

  lemma {:induction false} InsertIsRanked(policy: Policy, sorted: seq<Generator>, g: Generator)
    requires BestFirst(policy, sorted)
    ensures BestFirst(policy, Insert(policy, sorted, g))
  {
    if sorted != [] {
      if Before(policy, g, Last(sorted)) {
        InsertIsRanked(policy, Front(sorted), g);
        InsertAbove(policy, Front(sorted), g, Last(sorted));
      } else {
        assert forall i :: 0 <= i < |sorted| ==> !Before(policy, g, sorted[i]);
      }
    }
  }

  lemma {:induction false} SortIsRanked(policy: Policy, generators: seq<Generator>)
    ensures BestFirst(policy, Sort(policy, generators))
    ensures multiset(Sort(policy, generators)) == multiset(generators)
    decreases |generators|
  {
    if generators != [] {
      SortIsRanked(policy, Front(generators));
      InsertIsRanked(policy, Sort(policy, Front(generators)), Last(generators));
      InsertMembers(policy, Sort(policy, Front(generators)), Last(generators));
      assert generators == Front(generators) + [Last(generators)];
    }
  }

  lemma {:induction false} FilterKeeps(policy: Policy, generators: seq<Generator>, g: Generator)
    ensures multiset(Filter(policy, generators))[g] == if Eligible(policy, g) then multiset(generators)[g] else 0
    decreases |generators|
  {
    if generators != [] {
      FilterKeeps(policy, Front(generators), g);
      assert generators == Front(generators) + [Last(generators)];
    }
  }

  /** The ranking is sorted and holds every eligible generator as often as registered, and nothing else. */
  lemma {:induction false} RankingIsSortedPermutation(policy: Policy, generators: seq<Generator>, g: Generator)
    ensures BestFirst(policy, Ranked(policy, generators))
    ensures multiset(Ranked(policy, generators))[g] == if Eligible(policy, g) then multiset(generators)[g] else 0
  {
    SortIsRanked(policy, Filter(policy, generators));
    FilterKeeps(policy, generators, g);
  }

  /**
   * What the order means: by cost and then quality for `CostOptimized`, by quality and then cost
   * otherwise, and within the budget for `Balanced`.
   */
  lemma {:induction false} RankingOrder(policy: Policy, generators: seq<Generator>, i: nat, j: nat)
    requires i < j < |Ranked(policy, generators)|
    ensures var a, b := Ranked(policy, generators)[i], Ranked(policy, generators)[j];
            && (policy == CostOptimized ==> a.cost < b.cost || (a.cost == b.cost && a.quality >= b.quality))
            && (policy != CostOptimized ==> a.quality > b.quality || (a.quality == b.quality && a.cost <= b.cost))
            && (policy.Balanced? ==> a.cost <= policy.maxCost && b.cost <= policy.maxCost)
  {
    var ranked := Ranked(policy, generators);
    RankingIsSortedPermutation(policy, generators, ranked[i]);
    RankingIsSortedPermutation(policy, generators, ranked[j]);
    assert ranked[i] in multiset(ranked) && ranked[j] in multiset(ranked);
  }

  /** `select_generator`: the head of the ranking, if any. */
  function Select(policy: Policy, generators: seq<Generator>): Result<Generator, ImageError>
  {
    var ranked := Ranked(policy, generators);
    if ranked == [] then Err(NoProvider) else Ok(ranked[0])
  }

  /** The selected generator is a cheapest one, or a best one within the budget; none is selected exactly if none qualifies. */
  lemma {:induction false} SelectIsBest(policy: Policy, generators: seq<Generator>, g: Generator)
    requires g in generators && (policy.Balanced? ==> g.cost <= policy.maxCost)
    ensures var s := Select(policy, generators);
            && s.Ok? && s.value in generators && (policy.Balanced? ==> s.value.cost <= policy.maxCost)
            && (policy == CostOptimized ==> s.value.cost < g.cost || (s.value.cost == g.cost && s.value.quality >= g.quality))
            && (policy != CostOptimized ==> s.value.quality > g.quality || (s.value.quality == g.quality && s.value.cost <= g.cost))
  {
    var ranked := Ranked(policy, generators);
    RankingIsSortedPermutation(policy, generators, g);
    assert g in multiset(generators);
    assert g in multiset(ranked);
    var j :| 0 <= j < |ranked| && ranked[j] == g;
    RankingIsSortedPermutation(policy, generators, ranked[0]);
    assert ranked[0] in multiset(ranked);
    assert ranked[0] in multiset(generators);
    if j > 0 {
      RankingOrder(policy, generators, 0, j);
    }
  }

  /** None is selected if none qualifies. */
  lemma {:induction false} SelectNone(policy: Policy, generators: seq<Generator>)
    requires forall g :: g in generators ==> policy.Balanced? && g.cost > policy.maxCost
    ensures Select(policy, generators) == Err(NoProvider)
  {
    var ranked := Ranked(policy, generators);
    if ranked != [] {
      RankingIsSortedPermutation(policy, generators, ranked[0]);
    }
  }

  predicate Ties(a: Generator, b: Generator) { a.cost == b.cost && a.quality == b.quality }

  /** The generators of a list that tie with `x`, in the order of the list. */
  function TiedWith(generators: seq<Generator>, x: Generator): seq<Generator>
  {
    if generators == [] then []
    else TiedWith(Front(generators), x) + if Ties(Last(generators), x) then [Last(generators)] else []
  }

  lemma {:induction false} TiedSnoc(generators: seq<Generator>, g: Generator, x: Generator)
    ensures TiedWith(generators + [g], x) == TiedWith(generators, x) + if Ties(g, x) then [g] else []
  {
    assert Front(generators + [g]) == generators;
  }

  lemma {:induction false} BeforeBreaksTies(policy: Policy, a: Generator, b: Generator, x: Generator)
    requires Before(policy, a, b)
    ensures !(Ties(a, x) && Ties(b, x))
  {
  }

  lemma {:induction false} InsertAfterTies(policy: Policy, sorted: seq<Generator>, g: Generator, x: Generator)
    ensures TiedWith(Insert(policy, sorted, g), x) == TiedWith(sorted, x) + if Ties(g, x) then [g] else []
  {
    if sorted == [] || !Before(policy, g, Last(sorted)) {
      TiedSnoc(sorted, g, x);
    } else {
      TiedSnoc(Insert(policy, Front(sorted), g), Last(sorted), x);
      BeforeBreaksTies(policy, g, Last(sorted), x);
      InsertAfterTies(policy, Front(sorted), g, x);
      var tied := TiedWith(Front(sorted), x);
      assert tied + [] == tied && (tied + [g]) + [] == tied + [g];
    }
  }

  lemma {:induction false} SortKeepsTies(policy: Policy, generators: seq<Generator>, x: Generator)
    ensures TiedWith(Sort(policy, generators), x) == TiedWith(generators, x)
    decreases |generators|
  {
    if generators != [] {
      SortKeepsTies(policy, Front(generators), x);
      InsertAfterTies(policy, Sort(policy, Front(generators)), Last(generators), x);
    }
  }

  lemma {:induction false} FilterKeepsTies(policy: Policy, generators: seq<Generator>, x: Generator)
    requires Eligible(policy, x)
    ensures TiedWith(Filter(policy, generators), x) == TiedWith(generators, x)
    decreases |generators|
  {
    if generators != [] {
      FilterKeepsTies(policy, Front(generators), x);
      if Eligible(policy, Last(generators)) {
        TiedSnoc(Filter(policy, Front(generators)), Last(generators), x);
      } else {
        assert Filter(policy, generators) == Filter(policy, Front(generators));
      }
    }
  }

  /** Generators the policy cannot tell apart are tried in the order in which they were registered. */
  lemma {:induction false} RankingIsStable(policy: Policy, generators: seq<Generator>, x: Generator)
    requires Eligible(policy, x)
    ensures TiedWith(Ranked(policy, generators), x) == TiedWith(generators, x)
  {
    SortKeepsTies(policy, Filter(policy, generators), x);
    FilterKeepsTies(policy, generators, x);
  }

  /**
   * `generate`: `tried` is the sequence of providers called. The result is the first success in
   * ranking order, every earlier provider having failed; an error means all eligible providers
   * failed, or there were none. No provider outside the budget is ever called.
   */
  method Generate(generators: seq<Generator>, policy: Policy, attempt: Attempt)
    returns (r: Result<Image, ImageError>, tried: seq<Generator>)
    ensures tried <= Ranked(policy, generators)
    ensures r.Ok? ==> tried != [] && attempt(Last(tried)) == r && forall i :: 0 <= i < |tried| - 1 ==> attempt(tried[i]).Err?
    ensures r.Err? ==> tried == Ranked(policy, generators) && forall i :: 0 <= i < |tried| ==> attempt(tried[i]).Err?
    ensures r.Err? && tried == [] ==> r.error == NoProvider
    ensures r.Err? && tried != [] ==> r == attempt(Last(tried))
    ensures forall i :: 0 <= i < |tried| ==> Eligible(policy, tried[i]) && tried[i] in generators
  {
    var ranked := Ranked(policy, generators);
    forall i | 0 <= i < |ranked|
      ensures Eligible(policy, ranked[i]) && ranked[i] in generators
    {
      RankingIsSortedPermutation(policy, generators, ranked[i]);
      assert ranked[i] in multiset(ranked);
      assert ranked[i] in multiset(generators);
    }
    tried := [];
    if ranked == [] {
      return Err(NoProvider), tried;
    }
    var lastError: Option<ImageError> := None;
    for i := 0 to |ranked|
      invariant tried == ranked[..i]
      invariant forall j :: 0 <= j < i ==> attempt(ranked[j]).Err?
      invariant i == 0 ==> lastError.None?
      invariant i > 0 ==> lastError.Some? && attempt(ranked[i - 1]) == Err(lastError.value)
    {
      tried := tried + [ranked[i]];
      match attempt(ranked[i])
      case Ok(image) =>
        assert tried == ranked[..i + 1];
        return Ok(image), tried;
      case Err(error) =>
        lastError := Some(error);
    }
    assert ranked[..|ranked|] == ranked;
    r := Err(if lastError.Some? then lastError.value else NoProvider);
  }
}
