/** Attribution metrics overall and by domain, over the reals. */
module Metrics {
  import opened Wrappers

  datatype Category =
    | AllAligned | HumanUnique | ProtegeWisdom | Collaboration | BaselineOnly | ProtegeWrong | HumanWrong | AllWrong
    | Unknown

  datatype Decision = Decision(domain: string, wasOverride: bool)
  datatype Attribution = Attribution(protegeCorrect: Option<bool>, whoWasRight: Category)

  datatype ValueRates = ValueRates(additiveValue: real, protegeStandalone: real, uniqueHuman: real)

  datatype DomainMetrics = DomainMetrics(domain: string, totalDecisions: nat, interventionRate: real, values: ValueRates)

  datatype Overall = Overall(
    totalDecisions: nat, validOutcomes: nat, interventionRate: real, values: ValueRates, domains: seq<DomainMetrics>)

  // ------------------------------------------------------------------ counting

  /** What is counted: of decisions the first two, of attributions with a known outcome the rest. */
  datatype Measure = Decided | Overridden | Known | Additive | ProtegeRight | UniqueHuman

  function Weigh(m: Measure, d: Decision): nat {
    match m
    case Decided => 1
    case Overridden => if d.wasOverride then 1 else 0
    case _ => 0
  }

  function Credit(m: Measure, a: Attribution): nat {
    if a.whoWasRight.Unknown? then 0
    else
      match m
      case Known => 1
      case Additive => if a.whoWasRight in {ProtegeWisdom, HumanUnique, Collaboration} then 1 else 0
      case ProtegeRight => if a.protegeCorrect == Some(true) then 1 else 0
      case UniqueHuman => if a.whoWasRight.HumanUnique? then 1 else 0
      case _ => 0
  }

  function CountDecisions(ds: seq<Decision>, m: Measure): nat {
    if ds == [] then 0 else CountDecisions(ds[..|ds| - 1], m) + Weigh(m, ds[|ds| - 1])
  }

  function CountAttributions(attrs: seq<Attribution>, m: Measure): nat {
    if attrs == [] then 0 else CountAttributions(attrs[..|attrs| - 1], m) + Credit(m, attrs[|attrs| - 1])
  }

  function Valid(attrs: seq<Attribution>): seq<Attribution> {
    if attrs == [] then []
    else
      var rest := Valid(attrs[..|attrs| - 1]);
      if attrs[|attrs| - 1].whoWasRight.Unknown? then rest else rest + [attrs[|attrs| - 1]]
  }

  lemma {:induction false} ValidKeepsCounts(attrs: seq<Attribution>, m: Measure)
    ensures CountAttributions(Valid(attrs), m) == CountAttributions(attrs, m)
    ensures |Valid(attrs)| == CountAttributions(attrs, Known)
    ensures forall a :: a in Valid(attrs) ==> !a.whoWasRight.Unknown?
  {
    if attrs != [] {
      var n := |attrs| - 1;
      ValidKeepsCounts(attrs[..n], m);
      assert (Valid(attrs[..n]) + [attrs[n]])[..|Valid(attrs[..n])|] == Valid(attrs[..n]);
    }
  }

  lemma DecidedIsLength(ds: seq<Decision>)
    ensures CountDecisions(ds, Decided) == |ds|
  {
  }

  // --------------------------------------------------------------------- rates

  function Ratio(n: nat, total: nat): real {
    if total == 0 then 0.0 else (n as real) / (total as real)
  }

  function InterventionRate(ds: seq<Decision>): real {
    Ratio(CountDecisions(ds, Overridden), |ds|)
  }

  /** How often the protégé was right, in outcomes known or not. */
  function CountCorrect(attrs: seq<Attribution>): nat {
    if attrs == [] then 0
    else CountCorrect(attrs[..|attrs| - 1]) + (if attrs[|attrs| - 1].protegeCorrect == Some(true) then 1 else 0)
  }

  lemma {:induction false} CorrectAmongKnown(attrs: seq<Attribution>)
    requires forall a :: a in attrs ==> !a.whoWasRight.Unknown?
    ensures CountCorrect(attrs) == CountAttributions(attrs, ProtegeRight)
  {
    if attrs != [] {
      CorrectAmongKnown(attrs[..|attrs| - 1]);
      assert attrs[|attrs| - 1] in attrs;
    }
  }

  /** Its callers pass attributions with a known outcome, and their number, or 1 if there are none. */
  method CalculateValueMetrics(attrs: seq<Attribution>, validOutcomes: nat) returns (rates: ValueRates)
    ensures rates == ValueRates(Ratio(CountAttributions(attrs, Additive), validOutcomes),
                                Ratio(CountCorrect(attrs), validOutcomes),
                                Ratio(CountAttributions(attrs, UniqueHuman), validOutcomes))
  {
    if validOutcomes == 0 {
      return ValueRates(0.0, 0.0, 0.0);
    }
    var protegeCorrect, humanUnique, collaboration, protegeWisdom := 0, 0, 0, 0;
    for i := 0 to |attrs|
      invariant protegeCorrect == CountCorrect(attrs[..i])
      invariant humanUnique == CountAttributions(attrs[..i], UniqueHuman)
      invariant protegeWisdom + humanUnique + collaboration == CountAttributions(attrs[..i], Additive)
    {
      assert attrs[..i + 1][..i] == attrs[..i];
      var attr := attrs[i];
      if attr.protegeCorrect == Some(true) {
        protegeCorrect := protegeCorrect + 1;
      }
      if attr.whoWasRight == HumanUnique {
        humanUnique := humanUnique + 1;
      }
      if attr.whoWasRight == Collaboration {
        collaboration := collaboration + 1;
      }
      if attr.whoWasRight == ProtegeWisdom {
        protegeWisdom := protegeWisdom + 1;
      }
    }
    assert attrs[..|attrs|] == attrs;
    return ValueRates(Ratio(protegeWisdom + humanUnique + collaboration, validOutcomes),
                      Ratio(protegeCorrect, validOutcomes), Ratio(humanUnique, validOutcomes));
  }

  function RatesOf(attrs: seq<Attribution>): ValueRates {
    var n := CountAttributions(attrs, Known);
    ValueRates(Ratio(CountAttributions(attrs, Additive), n), Ratio(CountAttributions(attrs, ProtegeRight), n),
               Ratio(CountAttributions(attrs, UniqueHuman), n))
  }

  // -------------------------------------------------------------------- domains

  function DomainOf(d: Decision): string {
    if d.domain == "" then "general" else d.domain
  }

  datatype Group = Group(decisions: seq<Decision>, attributions: seq<Attribution>)

  /** The domains in order of first appearance. */
  function Domains(ds: seq<Decision>): seq<string> {
    if ds == [] then []
    else
      var before := Domains(ds[..|ds| - 1]);
      if DomainOf(ds[|ds| - 1]) in before then before else before + [DomainOf(ds[|ds| - 1])]
  }

  /** The decisions of one domain, and the attributions that stand at their positions. */
  function GroupOf(ds: seq<Decision>, attrs: seq<Attribution>, domain: string): Group {
    if ds == [] then Group([], [])
    else
      var n := |ds| - 1;
      var g := GroupOf(ds[..n], attrs, domain);
      if DomainOf(ds[n]) != domain then g
      else Group(g.decisions + [ds[n]], if n < |attrs| then g.attributions + [attrs[n]] else g.attributions)
  }

  function MetricsOf(domain: string, g: Group): DomainMetrics {
    DomainMetrics(domain, |g.decisions|, InterventionRate(g.decisions), RatesOf(g.attributions))
  }

  function Breakdown(ds: seq<Decision>, attrs: seq<Attribution>, domains: seq<string>): seq<DomainMetrics> {
    seq(|domains|, i requires 0 <= i < |domains| => MetricsOf(domains[i], GroupOf(ds, attrs, domains[i])))
  }

  method CalculateDomainBreakdown(ds: seq<Decision>, attrs: seq<Attribution>) returns (metrics: seq<DomainMetrics>)
    ensures metrics == Breakdown(ds, attrs, Domains(ds))
  {
    var order: seq<string>, domainMap: map<string, Group> := GroupByDomain(ds, attrs);
    metrics := [];
    for i := 0 to |order|
      invariant metrics == Breakdown(ds, attrs, Domains(ds))[..i]
    {
      assert order[i] in order;
      var group := domainMap[order[i]];
      var valid := Valid(group.attributions);
      KnownRates(group.attributions, if |valid| == 0 then 1 else |valid|);
      var rates := CalculateValueMetrics(valid, if |valid| == 0 then 1 else |valid|);
      metrics := metrics + [DomainMetrics(order[i], |group.decisions|, InterventionRate(group.decisions), rates)];
    }
  }

  /** The rates of the attributions with a known outcome; without any, dividing by 1 gives 0 as well. */
  lemma KnownRates(attrs: seq<Attribution>, n: nat)
    requires n == |Valid(attrs)| || Valid(attrs) == []
    ensures RatesOf(attrs) == ValueRates(Ratio(CountAttributions(Valid(attrs), Additive), n),
                                         Ratio(CountCorrect(Valid(attrs)), n),
                                         Ratio(CountAttributions(Valid(attrs), UniqueHuman), n))
    ensures |Valid(attrs)| == CountAttributions(attrs, Known)
  {
    ValidKeepsCounts(attrs, Additive);
    ValidKeepsCounts(attrs, ProtegeRight);
    ValidKeepsCounts(attrs, UniqueHuman);
    CorrectAmongKnown(Valid(attrs));
  }

  /** Fills the map and remembers the order of insertion. */
  method GroupByDomain(ds: seq<Decision>, attrs: seq<Attribution>)
    returns (order: seq<string>, domainMap: map<string, Group>)
    ensures order == Domains(ds)
    ensures forall x :: x in domainMap <==> x in order
    ensures forall x :: x in domainMap ==> domainMap[x] == GroupOf(ds, attrs, x)
  {
    order, domainMap := [], map[];
    for i := 0 to |ds|
      invariant order == Domains(ds[..i])
      invariant forall x :: x in domainMap <==> x in order
      invariant forall x :: x in domainMap ==> domainMap[x] == GroupOf(ds[..i], attrs, x)
    {
      assert ds[..i + 1][..i] == ds[..i];
      var domain := DomainOf(ds[i]);
      if domain !in domainMap {
        NewDomainIsEmpty(ds[..i], attrs, domain);
        domainMap := domainMap[domain := Group([], [])];
        order := order + [domain];
      }
      var group := domainMap[domain];
      group := group.(decisions := group.decisions + [ds[i]]);
      if i < |attrs| {
        group := group.(attributions := group.attributions + [attrs[i]]);
      }
      domainMap := domainMap[domain := group];
    }
    assert ds[..|ds|] == ds;
  }

  lemma {:induction false} NewDomainIsEmpty(ds: seq<Decision>, attrs: seq<Attribution>, domain: string)
    requires domain !in Domains(ds)
    ensures GroupOf(ds, attrs, domain) == Group([], [])
  {
    if ds != [] {
      NewDomainIsEmpty(ds[..|ds| - 1], attrs, domain);
    }
  }

  /** Without decisions everything is zero, whatever the attributions. */
  function OverallOf(ds: seq<Decision>, attrs: seq<Attribution>): Overall {
    if ds == [] then Overall(0, 0, 0.0, ValueRates(0.0, 0.0, 0.0), [])
    else Overall(|ds|, CountAttributions(attrs, Known), InterventionRate(ds), RatesOf(attrs),
                 Breakdown(ds, attrs, Domains(ds)))
  }

  method Calculate(ds: seq<Decision>, attrs: seq<Attribution>) returns (overall: Overall)
    ensures overall == OverallOf(ds, attrs)
  {
    if |ds| == 0 {
      return Overall(0, 0, 0.0, ValueRates(0.0, 0.0, 0.0), []);
    }
    var valid := Valid(attrs);
    KnownRates(attrs, |valid|);
    var rates := CalculateValueMetrics(valid, |valid|);
    var domains := CalculateDomainBreakdown(ds, attrs);
    return Overall(|ds|, |valid|, InterventionRate(ds), rates, domains);
  }
}
