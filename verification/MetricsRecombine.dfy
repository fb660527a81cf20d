/** The domain metrics recombine to the overall ones. */
module MetricsRecombine {
  import opened Wrappers
  import opened Metrics

  /** The count of a measure in one domain, and in all. */
  function InGroup(g: Group, m: Measure): nat {
    CountDecisions(g.decisions, m) + CountAttributions(g.attributions, m)
  }

  function InAll(ds: seq<Decision>, attrs: seq<Attribution>, m: Measure): nat {
    CountDecisions(ds, m) + CountAttributions(if |attrs| <= |ds| then attrs else attrs[..|ds|], m)
  }

  function SumOver(domains: seq<string>, ds: seq<Decision>, attrs: seq<Attribution>, m: Measure): nat {
    if domains == [] then 0
    else SumOver(domains[..|domains| - 1], ds, attrs, m) + InGroup(GroupOf(ds, attrs, domains[|domains| - 1]), m)
  }

  lemma {:induction false} DomainsAreDistinct(ds: seq<Decision>)
    ensures forall i, j :: 0 <= i < j < |Domains(ds)| ==> Domains(ds)[i] != Domains(ds)[j]
    ensures ds != [] ==> Domains(ds) != []
  {
    if ds != [] {
      DomainsAreDistinct(ds[..|ds| - 1]);
    }
  }

  /** What the last decision adds to the count of a domain. */
  function Step(ds: seq<Decision>, attrs: seq<Attribution>, m: Measure): nat
    requires ds != []
  {
    Weigh(m, ds[|ds| - 1]) + if |ds| - 1 < |attrs| then Credit(m, attrs[|ds| - 1]) else 0
  }

  lemma GroupStep(ds: seq<Decision>, attrs: seq<Attribution>, domain: string, m: Measure)
    requires ds != []
    ensures InGroup(GroupOf(ds, attrs, domain), m)
         == InGroup(GroupOf(ds[..|ds| - 1], attrs, domain), m)
            + if DomainOf(ds[|ds| - 1]) == domain then Step(ds, attrs, m) else 0
  {
    var n := |ds| - 1;
    var g := GroupOf(ds[..n], attrs, domain);
    assert (g.decisions + [ds[n]])[..|g.decisions|] == g.decisions;
    if n < |attrs| {
      assert (g.attributions + [attrs[n]])[..|g.attributions|] == g.attributions;
    }
  }

  lemma AllStep(ds: seq<Decision>, attrs: seq<Attribution>, m: Measure)
    requires ds != []
    ensures InAll(ds, attrs, m) == InAll(ds[..|ds| - 1], attrs, m) + Step(ds, attrs, m)
  {
    var n := |ds| - 1;
    if n < |attrs| {
      assert attrs[..|ds|][..n] == attrs[..n];
      assert |attrs| == |ds| ==> attrs[..|ds|] == attrs;
    } else if n == |attrs| {
      assert attrs[..n] == attrs;
    }
  }

  lemma {:induction false} SumStep(domains: seq<string>, ds: seq<Decision>, attrs: seq<Attribution>, m: Measure)
    requires ds != []
    requires forall i, j :: 0 <= i < j < |domains| ==> domains[i] != domains[j]
    ensures SumOver(domains, ds, attrs, m)
         == SumOver(domains, ds[..|ds| - 1], attrs, m)
            + if DomainOf(ds[|ds| - 1]) in domains then Step(ds, attrs, m) else 0
  {
    if domains != [] {
      var n := |domains| - 1;
      SumStep(domains[..n], ds, attrs, m);
      GroupStep(ds, attrs, domains[n], m);
      assert domains == domains[..n] + [domains[n]];
      assert domains[n] !in domains[..n];
    }
  }

  lemma OldDomainsOnly(ds: seq<Decision>, attrs: seq<Attribution>, m: Measure)
    requires ds != []
    ensures SumOver(Domains(ds), ds[..|ds| - 1], attrs, m) == SumOver(Domains(ds[..|ds| - 1]), ds[..|ds| - 1], attrs, m)
    ensures DomainOf(ds[|ds| - 1]) in Domains(ds)
  {
    var before, d := ds[..|ds| - 1], DomainOf(ds[|ds| - 1]);
    if d !in Domains(before) {
      NewDomainIsEmpty(before, attrs, d);
      assert Domains(ds) == Domains(before) + [d];
      assert Domains(ds)[..|Domains(before)|] == Domains(before);
    }
  }

  /** Each decision, with the attribution at its position, is counted in exactly one domain. */
  lemma {:induction false} SumOverDomainsIsAll(ds: seq<Decision>, attrs: seq<Attribution>, m: Measure)
    ensures SumOver(Domains(ds), ds, attrs, m) == InAll(ds, attrs, m)
  {
    if ds != [] {
      SumOverDomainsIsAll(ds[..|ds| - 1], attrs, m);
      DomainsAreDistinct(ds);
      AllStep(ds, attrs, m);
      SumStep(Domains(ds), ds, attrs, m);
      OldDomainsOnly(ds, attrs, m);
    } else {
      assert attrs[..0] == [];
    }
  }

  // ------------------------------------------------------------- weighted sums

  /** What a rate is a share of. */
  function Base(m: Measure): Measure {
    if m.Overridden? then Decided else Known
  }

  predicate IsRate(m: Measure) {
    m.Overridden? || m.Additive? || m.ProtegeRight? || m.UniqueHuman?
  }

  function Rate(interventionRate: real, values: ValueRates, m: Measure): real {
    match m
    case Overridden => interventionRate
    case Additive => values.additiveValue
    case ProtegeRight => values.protegeStandalone
    case _ => values.uniqueHuman
  }

  function RateOf(d: DomainMetrics, m: Measure): real {
    Rate(d.interventionRate, d.values, m)
  }

  function OverallRate(o: Overall, m: Measure): real {
    Rate(o.interventionRate, o.values, m)
  }

  /** The decisions or known outcomes that an overall rate is a share of. */
  function OverallBase(o: Overall, m: Measure): nat {
    if m.Overridden? then o.totalDecisions else o.validOutcomes
  }

  function SumOfTotals(domains: seq<DomainMetrics>): nat {
    if domains == [] then 0 else SumOfTotals(domains[..|domains| - 1]) + domains[|domains| - 1].totalDecisions
  }

  /** `w` times `r`, as repeated addition. */
  function Times(w: nat, r: real): real {
    if w == 0 then 0.0 else Times(w - 1, r) + r
  }

  lemma {:induction false} TimesIsProduct(w: nat, r: real)
    ensures Times(w, r) == (w as real) * r
  {
    if w > 0 {
      TimesIsProduct(w - 1, r);
      assert ((w - 1) as real) * r + r == (w as real) * r;
    }
  }

  lemma {:induction false} TimesAdds(a: nat, b: nat, r: real)
    ensures Times(a + b, r) == Times(a, r) + Times(b, r)
  {
    if b > 0 {
      TimesAdds(a, b - 1, r);
    }
  }

  lemma {:induction false} TimesGrows(w: nat, high: real, low: real)
    requires high > low
    ensures Times(w, high) >= Times(w, low)
    ensures w > 0 ==> Times(w, high) > Times(w, low)
  {
    if w > 0 {
      TimesGrows(w - 1, high, low);
    }
  }

  /** The domain rates weighted by the number of decisions or known outcomes behind each. */
  function Weighted(domains: seq<string>, ds: seq<Decision>, attrs: seq<Attribution>, m: Measure): real {
    if domains == [] then 0.0
    else
      var g := GroupOf(ds, attrs, domains[|domains| - 1]);
      Weighted(domains[..|domains| - 1], ds, attrs, m)
      + Times(InGroup(g, Base(m)), RateOf(MetricsOf(domains[|domains| - 1], g), m))
  }

  lemma TotalTimesRatio(n: nat, total: nat)
    requires total == 0 ==> n == 0
    ensures Times(total, Ratio(n, total)) == n as real
  {
    TimesIsProduct(total, Ratio(n, total));
    ProductWithRatio(n, total);
  }

  lemma ProductWithRatio(n: nat, total: nat)
    requires total == 0 ==> n == 0
    ensures (total as real) * Ratio(n, total) == n as real
  {
  }

  lemma {:induction false} CountsAreBounded(ds: seq<Decision>, attrs: seq<Attribution>, m: Measure)
    requires IsRate(m)
    ensures CountDecisions(ds, m) <= CountDecisions(ds, Base(m))
    ensures CountAttributions(attrs, m) <= CountAttributions(attrs, Base(m))
    ensures m.Overridden? ==> CountAttributions(attrs, m) == 0 && CountAttributions(attrs, Decided) == 0
    ensures !m.Overridden? ==> CountDecisions(ds, m) == 0 && CountDecisions(ds, Known) == 0
    decreases |ds| + |attrs|
  {
    if ds != [] {
      CountsAreBounded(ds[..|ds| - 1], attrs, m);
    } else if attrs != [] {
      CountsAreBounded(ds, attrs[..|attrs| - 1], m);
    }
  }

  lemma GroupRateIsRatio(domain: string, g: Group, m: Measure)
    requires IsRate(m)
    ensures RateOf(MetricsOf(domain, g), m) == Ratio(InGroup(g, m), InGroup(g, Base(m)))
    ensures InGroup(g, m) <= InGroup(g, Base(m))
  {
    CountsAreBounded(g.decisions, g.attributions, m);
    DecidedIsLength(g.decisions);
  }

  lemma {:induction false} WeightedIsSum(domains: seq<string>, ds: seq<Decision>, attrs: seq<Attribution>, m: Measure)
    requires IsRate(m)
    ensures Weighted(domains, ds, attrs, m) == SumOver(domains, ds, attrs, m) as real
  {
    if domains != [] {
      var n := |domains| - 1;
      WeightedIsSum(domains[..n], ds, attrs, m);
      var g := GroupOf(ds, attrs, domains[n]);
      GroupRateIsRatio(domains[n], g, m);
      TotalTimesRatio(InGroup(g, m), InGroup(g, Base(m)));
    }
  }

  lemma {:induction false} CountSplits(a: seq<Attribution>, b: seq<Attribution>, m: Measure)
    ensures CountAttributions(a + b, m) == CountAttributions(a, m) + CountAttributions(b, m)
  {
    if b == [] {
      assert a + b == a;
    } else {
      assert (a + b)[..|a + b| - 1] == a + b[..|b| - 1];
      CountSplits(a, b[..|b| - 1], m);
    }
  }

  /** The attributions past the last decision, which no domain sees. */
  function Surplus(ds: seq<Decision>, attrs: seq<Attribution>): seq<Attribution> {
    if |attrs| <= |ds| then [] else attrs[|ds|..]
  }

  /**
   Of what calculate returns: domain names are distinct, their totals add up to the overall total, and
   each overall rate times its base is the weighted sum of the domain rates plus what the surplus
   attributions add. Without decisions nothing is counted at all.
   */
  lemma Recombines(ds: seq<Decision>, attrs: seq<Attribution>, m: Measure)
    requires IsRate(m)
    ensures var o := OverallOf(ds, attrs);
            && (forall i, j :: 0 <= i < j < |o.domains| ==> o.domains[i].domain != o.domains[j].domain)
            && SumOfTotals(o.domains) == o.totalDecisions
            && Times(OverallBase(o, m), OverallRate(o, m))
               == Weighted(Domains(ds), ds, attrs, m) + (CountedInNoDomain(ds, attrs, m) as real)
  {
    NamesAreDistinct(ds, attrs);
    TotalsSum(ds, attrs);
    if ds != [] {
      OverallTimesBase(ds, attrs, m);
      SurplusIsTheRest(ds, attrs, m);
    }
  }

  lemma NamesAreDistinct(ds: seq<Decision>, attrs: seq<Attribution>)
    ensures var domains := OverallOf(ds, attrs).domains;
            forall i, j :: 0 <= i < j < |domains| ==> domains[i].domain != domains[j].domain
  {
    DomainsAreDistinct(ds);
  }

  lemma SurplusIsTheRest(ds: seq<Decision>, attrs: seq<Attribution>, m: Measure)
    requires IsRate(m)
    ensures (CountDecisions(ds, m) + CountAttributions(attrs, m)) as real
         == Weighted(Domains(ds), ds, attrs, m) + (CountAttributions(Surplus(ds, attrs), m) as real)
  {
    SumOverDomainsIsAll(ds, attrs, m);
    WeightedIsSum(Domains(ds), ds, attrs, m);
    AllAndSurplus(ds, attrs, m);
  }

  lemma AllAndSurplus(ds: seq<Decision>, attrs: seq<Attribution>, m: Measure)
    ensures CountDecisions(ds, m) + CountAttributions(attrs, m) == InAll(ds, attrs, m) + CountAttributions(Surplus(ds, attrs), m)
  {
    var seen := if |attrs| <= |ds| then attrs else attrs[..|ds|];
    assert attrs == seen + Surplus(ds, attrs);
    CountSplits(seen, Surplus(ds, attrs), m);
  }

  function CountedInNoDomain(ds: seq<Decision>, attrs: seq<Attribution>, m: Measure): nat {
    if ds == [] then 0 else CountAttributions(Surplus(ds, attrs), m)
  }

  lemma TotalsSum(ds: seq<Decision>, attrs: seq<Attribution>)
    ensures SumOfTotals(OverallOf(ds, attrs).domains) == |ds|
  {
    if ds != [] {
      SumOverDomainsIsAll(ds, attrs, Decided);
      DecidedIsLength(ds);
      CountsAreBounded(ds, if |attrs| <= |ds| then attrs else attrs[..|ds|], Overridden);
      TotalsAreSum(ds, attrs, Domains(ds));
    }
  }

  lemma {:induction false} TotalsAreSum(ds: seq<Decision>, attrs: seq<Attribution>, domains: seq<string>)
    ensures SumOfTotals(Breakdown(ds, attrs, domains)) == SumOver(domains, ds, attrs, Decided)
  {
    if domains != [] {
      var n := |domains| - 1;
      TotalsAreSum(ds, attrs, domains[..n]);
      assert Breakdown(ds, attrs, domains)[..n] == Breakdown(ds, attrs, domains[..n]);
      var g := GroupOf(ds, attrs, domains[n]);
      DecidedIsLength(g.decisions);
      CountsAreBounded(g.decisions, g.attributions, Overridden);
    }
  }

  lemma OverallIsRatio(ds: seq<Decision>, attrs: seq<Attribution>, m: Measure)
    requires IsRate(m) && ds != []
    ensures var o := OverallOf(ds, attrs);
            && OverallBase(o, m) == CountDecisions(ds, Base(m)) + CountAttributions(attrs, Base(m))
            && OverallRate(o, m) == Ratio(CountDecisions(ds, m) + CountAttributions(attrs, m), OverallBase(o, m))
            && CountDecisions(ds, m) + CountAttributions(attrs, m) <= OverallBase(o, m)
  {
    GroupRateIsRatio("", Group(ds, attrs), m);
    CountsAreBounded(ds, attrs, m);
    DecidedIsLength(ds);
  }

  lemma OverallTimesBase(ds: seq<Decision>, attrs: seq<Attribution>, m: Measure)
    requires IsRate(m) && ds != []
    ensures var o := OverallOf(ds, attrs);
            Times(OverallBase(o, m), OverallRate(o, m)) == (CountDecisions(ds, m) + CountAttributions(attrs, m)) as real
  {
    OverallIsRatio(ds, attrs, m);
    TotalTimesRatio(CountDecisions(ds, m) + CountAttributions(attrs, m), OverallBase(OverallOf(ds, attrs), m));
  }

  /** A rate recombines exactly when there are no decisions or no attribution past the last one counts towards it. */
  lemma RecombinesExactlyIff(ds: seq<Decision>, attrs: seq<Attribution>, m: Measure)
    requires IsRate(m)
    ensures var o := OverallOf(ds, attrs);
            Times(OverallBase(o, m), OverallRate(o, m)) == Weighted(Domains(ds), ds, attrs, m)
            <==> ds == [] || CountAttributions(Surplus(ds, attrs), m) == 0
  {
    Recombines(ds, attrs, m);
  }

  /** One decision with two attributions of human merit: overall they are 2 of 2, in its domain 1 of 1. */
  lemma SurplusDoesNotRecombine()
    ensures var ds, a := [Decision("ops", true)], Attribution(None, HumanUnique);
            var o := OverallOf(ds, [a, a]);
            Times(OverallBase(o, UniqueHuman), OverallRate(o, UniqueHuman)) != Weighted(Domains(ds), ds, [a, a], UniqueHuman)
  {
    var ds, a := [Decision("ops", true)], Attribution(None, HumanUnique);
    RecombinesExactlyIff(ds, [a, a], UniqueHuman);
    assert Surplus(ds, [a, a]) == [a];
    assert CountAttributions([a], UniqueHuman) == CountAttributions([a][..0], UniqueHuman) + 1;
  }

  // ------------------------------------------------------------------- bounds

  function DomainRate(domain: string, ds: seq<Decision>, attrs: seq<Attribution>, m: Measure): real {
    RateOf(MetricsOf(domain, GroupOf(ds, attrs, domain)), m)
  }

  ghost predicate AllAbove(domains: seq<string>, ds: seq<Decision>, attrs: seq<Attribution>, m: Measure, r: real) {
    forall i :: 0 <= i < |domains| ==> DomainRate(domains[i], ds, attrs, m) > r
  }

  ghost predicate AllBelow(domains: seq<string>, ds: seq<Decision>, attrs: seq<Attribution>, m: Measure, r: real) {
    forall i :: 0 <= i < |domains| ==> DomainRate(domains[i], ds, attrs, m) < r
  }

  /** A strictly greater rate on some weight more keeps a weighted sum ahead. */
  lemma StaysAhead(low: real, high: real, total: nat, w: nat, less: real, more: real)
    requires low <= high && (total > 0 ==> low < high) && less < more
    ensures low + Times(w, less) <= high + Times(w, more)
    ensures total + w > 0 ==> low + Times(w, less) < high + Times(w, more)
  {
    TimesGrows(w, more, less);
  }

  /** If every domain's rate lies above `r`, so does their weighted sum above `r` times the weights. */
  lemma {:induction false} SumLiesAbove(domains: seq<string>, ds: seq<Decision>, attrs: seq<Attribution>, m: Measure, r: real)
    requires AllAbove(domains, ds, attrs, m, r)
    ensures var total := SumOver(domains, ds, attrs, Base(m));
            && Weighted(domains, ds, attrs, m) >= Times(total, r)
            && (total > 0 ==> Weighted(domains, ds, attrs, m) > Times(total, r))
  {
    if domains != [] {
      var n := |domains| - 1;
      assert forall i :: 0 <= i < n ==> domains[..n][i] == domains[i];
      SumLiesAbove(domains[..n], ds, attrs, m, r);
      var g := GroupOf(ds, attrs, domains[n]);
      var total, w := SumOver(domains[..n], ds, attrs, Base(m)), InGroup(g, Base(m));
      StaysAhead(Times(total, r), Weighted(domains[..n], ds, attrs, m), total, w, r, DomainRate(domains[n], ds, attrs, m));
      TimesAdds(total, w, r);
    }
  }

  lemma {:induction false} SumLiesBelow(domains: seq<string>, ds: seq<Decision>, attrs: seq<Attribution>, m: Measure, r: real)
    requires AllBelow(domains, ds, attrs, m, r)
    ensures var total := SumOver(domains, ds, attrs, Base(m));
            && Weighted(domains, ds, attrs, m) <= Times(total, r)
            && (total > 0 ==> Weighted(domains, ds, attrs, m) < Times(total, r))
  {
    if domains != [] {
      var n := |domains| - 1;
      assert forall i :: 0 <= i < n ==> domains[..n][i] == domains[i];
      SumLiesBelow(domains[..n], ds, attrs, m, r);
      var g := GroupOf(ds, attrs, domains[n]);
      var total, w := SumOver(domains[..n], ds, attrs, Base(m)), InGroup(g, Base(m));
      StaysAhead(Weighted(domains[..n], ds, attrs, m), Times(total, r), total, w, DomainRate(domains[n], ds, attrs, m), r);
      TimesAdds(total, w, r);
    }
  }

  /** With no surplus attributions each overall rate lies between two of the domains' rates. */
  lemma OverallIsBetweenDomains(ds: seq<Decision>, attrs: seq<Attribution>, m: Measure) returns (i: nat, j: nat)
    requires IsRate(m) && ds != [] && |attrs| <= |ds|
    ensures var o := OverallOf(ds, attrs);
            && i < |o.domains| && j < |o.domains|
            && RateOf(o.domains[i], m) <= OverallRate(o, m) <= RateOf(o.domains[j], m)
  {
    WeightedMatchesBase(ds, attrs, m);
    OverallIsRatio(ds, attrs, m);
    DomainsAreDistinct(ds);
    i, j := OneOnEachSide(Domains(ds), ds, attrs, m, OverallRate(OverallOf(ds, attrs), m));
  }

  lemma OneOnEachSide(names: seq<string>, ds: seq<Decision>, attrs: seq<Attribution>, m: Measure, r: real)
    returns (i: nat, j: nat)
    requires IsRate(m) && names != []
    requires Weighted(names, ds, attrs, m) == Times(SumOver(names, ds, attrs, Base(m)), r)
    requires SumOver(names, ds, attrs, Base(m)) == 0 ==> r == 0.0
    ensures i < |names| && j < |names|
    ensures DomainRate(names[i], ds, attrs, m) <= r <= DomainRate(names[j], ds, attrs, m)
  {
    if SumOver(names, ds, attrs, Base(m)) > 0 {
      NotAllOnOneSide(names, ds, attrs, m, r);
      i :| i < |names| && !(DomainRate(names[i], ds, attrs, m) > r);
      j :| j < |names| && !(DomainRate(names[j], ds, attrs, m) < r);
    } else {
      NothingKnown(names, ds, attrs, m);
      i, j := 0, 0;
    }
  }

  lemma WeightedMatchesBase(ds: seq<Decision>, attrs: seq<Attribution>, m: Measure)
    requires IsRate(m) && ds != [] && |attrs| <= |ds|
    ensures var o := OverallOf(ds, attrs);
            && SumOver(Domains(ds), ds, attrs, Base(m)) == OverallBase(o, m)
            && Weighted(Domains(ds), ds, attrs, m) == Times(OverallBase(o, m), OverallRate(o, m))
  {
    Recombines(ds, attrs, m);
    SumOverDomainsIsAll(ds, attrs, Base(m));
    OverallIsRatio(ds, attrs, m);
  }

  lemma NotAllOnOneSide(names: seq<string>, ds: seq<Decision>, attrs: seq<Attribution>, m: Measure, r: real)
    requires SumOver(names, ds, attrs, Base(m)) > 0
    requires Weighted(names, ds, attrs, m) == Times(SumOver(names, ds, attrs, Base(m)), r)
    ensures !AllAbove(names, ds, attrs, m, r) && !AllBelow(names, ds, attrs, m, r)
  {
    if AllAbove(names, ds, attrs, m, r) {
      SumLiesAbove(names, ds, attrs, m, r);
    }
    if AllBelow(names, ds, attrs, m, r) {
      SumLiesBelow(names, ds, attrs, m, r);
    }
  }

  /** Without decisions or known outcomes to share, every rate is 0. */
  lemma {:induction false} NothingKnown(names: seq<string>, ds: seq<Decision>, attrs: seq<Attribution>, m: Measure)
    requires IsRate(m) && SumOver(names, ds, attrs, Base(m)) == 0
    ensures forall i :: 0 <= i < |names| ==> DomainRate(names[i], ds, attrs, m) == 0.0
  {
    if names != [] {
      var n := |names| - 1;
      NothingKnown(names[..n], ds, attrs, m);
      var g := GroupOf(ds, attrs, names[n]);
      DecidedIsLength(g.decisions);
      CountsAreBounded(g.decisions, g.attributions, m);
      forall i | 0 <= i < |names|
        ensures DomainRate(names[i], ds, attrs, m) == 0.0
      {
        if i < n {
          assert names[..n][i] == names[i];
        }
      }
    }
  }
}
