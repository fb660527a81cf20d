/** What the metrics are: each rate times what it is a share of is the number of decisions or outcomes it names. */
module MetricsLaws {
  import opened Wrappers
  import opened Sequences
  import opened Metrics
  import opened MetricsRecombine

  /** What each measure counts. */
  lemma MeasuresAre(d: Decision, a: Attribution)
    ensures Weigh(Overridden, d) == (if d.wasOverride then 1 else 0) && Weigh(Decided, d) == 1
    ensures Credit(Known, a) == if a.whoWasRight != Unknown then 1 else 0
    ensures Credit(Additive, a) == if a.whoWasRight in {ProtegeWisdom, HumanUnique, Collaboration} then 1 else 0
    ensures Credit(ProtegeRight, a) == if a.whoWasRight != Unknown && a.protegeCorrect == Some(true) then 1 else 0
    ensures Credit(UniqueHuman, a) == if a.whoWasRight == HumanUnique then 1 else 0
  {
  }

  lemma {:induction false} DecisionsCounted(ds: seq<Decision>, m: Measure, p: nat -> bool)
    requires m.Overridden? && forall i: nat :: i < |ds| ==> (p(i) <==> ds[i].wasOverride)
    ensures CountDecisions(ds, m) == NumberOf(|ds|, p)
  {
    if ds == [] {
      NumberOfNext(0, p);
    } else {
      DecisionsCounted(ds[..|ds| - 1], m, p);
      NumberOfNext(|ds| - 1, p);
    }
  }

  lemma {:induction false} AttributionsCounted(attrs: seq<Attribution>, m: Measure, p: nat -> bool)
    requires forall i: nat :: i < |attrs| ==> (p(i) <==> Credit(m, attrs[i]) == 1)
    ensures CountAttributions(attrs, m) == NumberOf(|attrs|, p)
  {
    if attrs == [] {
      NumberOfNext(0, p);
    } else {
      AttributionsCounted(attrs[..|attrs| - 1], m, p);
      NumberOfNext(|attrs| - 1, p);
    }
  }

  lemma {:induction false} GroupCounted(ds: seq<Decision>, attrs: seq<Attribution>, domain: string, m: Measure, p: nat -> bool)
    requires IsRate(m) || m.Known? || m.Decided?
    requires forall i: nat :: i < |ds| ==> (p(i) <==>
      DomainOf(ds[i]) == domain && Weigh(m, ds[i]) + (if i < |attrs| then Credit(m, attrs[i]) else 0) == 1)
    ensures InGroup(GroupOf(ds, attrs, domain), m) == NumberOf(|ds|, p)
  {
    if ds == [] {
      NumberOfNext(0, p);
    } else {
      GroupCounted(ds[..|ds| - 1], attrs, domain, m, p);
      NumberOfNext(|ds| - 1, p);
      GroupStep(ds, attrs, domain, m);
    }
  }

  /**
   The overall rates: with decisions, the intervention rate times their number is the number overridden,
   and each value rate times the number of known outcomes is the number of those it names.
   */
  lemma OverallIs(ds: seq<Decision>, attrs: seq<Attribution>, overridden: nat -> bool, known: nat -> bool,
                  additive: nat -> bool, right: nat -> bool, unique: nat -> bool)
    requires ds != []
    requires forall i: nat :: i < |ds| ==> (overridden(i) <==> ds[i].wasOverride)
    requires forall i: nat :: i < |attrs| ==> (known(i) <==> attrs[i].whoWasRight != Unknown)
    requires forall i: nat :: i < |attrs| ==>
      (additive(i) <==> attrs[i].whoWasRight in {ProtegeWisdom, HumanUnique, Collaboration})
    requires forall i: nat :: i < |attrs| ==> (right(i) <==> known(i) && attrs[i].protegeCorrect == Some(true))
    requires forall i: nat :: i < |attrs| ==> (unique(i) <==> attrs[i].whoWasRight == HumanUnique)
    ensures var o, n := OverallOf(ds, attrs), |attrs|;
            && o.totalDecisions == |ds| && o.validOutcomes == NumberOf(n, known)
            && o.interventionRate == Ratio(NumberOf(|ds|, overridden), |ds|)
            && o.values == ValueRates(Ratio(NumberOf(n, additive), o.validOutcomes),
                                      Ratio(NumberOf(n, right), o.validOutcomes),
                                      Ratio(NumberOf(n, unique), o.validOutcomes))
  {
    DecisionsCounted(ds, Overridden, overridden);
    AttributionsCounted(attrs, Known, known);
    AttributionsCounted(attrs, Additive, additive);
    AttributionsCounted(attrs, ProtegeRight, right);
    AttributionsCounted(attrs, UniqueHuman, unique);
  }

  /** A ratio is what multiplies back, and 0 of nothing. */
  lemma RatioIs(n: nat, total: nat)
    ensures total > 0 ==> Ratio(n, total) * (total as real) == n as real
    ensures total == 0 ==> Ratio(n, total) == 0.0
  {
  }

  /**
   The rates of one domain, of the decisions made in it and of the outcomes known of them: the i-th
   attribution is of the i-th decision. A decision without a domain counts as "general".
   */
  lemma DomainIs(ds: seq<Decision>, attrs: seq<Attribution>, k: nat, m: Measure, base: nat -> bool, counted: nat -> bool)
    requires ds != [] && IsRate(m) && k < |OverallOf(ds, attrs).domains|
    requires var name := OverallOf(ds, attrs).domains[k].domain;
      forall i: nat :: i < |ds| ==> (base(i) <==>
        && (if ds[i].domain == "" then "general" else ds[i].domain) == name
        && (m.Overridden? || (i < |attrs| && attrs[i].whoWasRight != Unknown)))
    requires forall i: nat :: i < |ds| ==> (counted(i) <==>
        && base(i)
        && (match m
            case Overridden => ds[i].wasOverride
            case Additive => attrs[i].whoWasRight in {ProtegeWisdom, HumanUnique, Collaboration}
            case ProtegeRight => attrs[i].protegeCorrect == Some(true)
            case _ => attrs[i].whoWasRight == HumanUnique))
    ensures var d := OverallOf(ds, attrs).domains[k];
            && RateOf(d, m) == Ratio(NumberOf(|ds|, counted), NumberOf(|ds|, base))
            && (m.Overridden? ==> d.totalDecisions == NumberOf(|ds|, base))
  {
    var name := OverallOf(ds, attrs).domains[k].domain;
    var g := GroupOf(ds, attrs, name);
    GroupCounted(ds, attrs, name, Base(m), base);
    GroupCounted(ds, attrs, name, m, counted);
    GroupRateIsRatio(name, g, m);
    CountsAreBounded(g.decisions, g.attributions, m);
    DecidedIsLength(g.decisions);
  }

  /** Position `i` is the first of the domain. */
  ghost predicate IsFirst(ds: seq<Decision>, i: nat, domain: string) {
    && i < |ds| && domain == (if ds[i].domain == "" then "general" else ds[i].domain)
    && forall j :: 0 <= j < i ==> DomainOf(ds[j]) != domain
  }

  lemma StaysFirst(ds: seq<Decision>, i: nat, domain: string)
    requires ds != [] && IsFirst(ds[..|ds| - 1], i, domain)
    ensures IsFirst(ds, i, domain)
  {
  }

  /** The domains are those of the decisions, each once, in the order in which they first appear. */
  lemma {:induction false} DomainsAppearInOrder(ds: seq<Decision>) returns (first: seq<nat>)
    ensures |first| == |Domains(ds)|
    ensures forall j, k :: 0 <= j < k < |first| ==> first[j] < first[k]
    ensures forall k :: 0 <= k < |first| ==> IsFirst(ds, first[k], Domains(ds)[k])
  {
    first := [];
    if ds != [] {
      var n := |ds| - 1;
      first := DomainsAppearInOrder(ds[..n]);
      forall k | 0 <= k < |first| ensures first[k] < n && IsFirst(ds, first[k], Domains(ds[..n])[k]) {
        StaysFirst(ds, first[k], Domains(ds[..n])[k]);
      }
      if DomainOf(ds[n]) !in Domains(ds[..n]) {
        NewIsFirst(ds);
        first := first + [n];
      }
    }
  }

  lemma NewIsFirst(ds: seq<Decision>)
    requires ds != [] && DomainOf(ds[|ds| - 1]) !in Domains(ds[..|ds| - 1])
    ensures IsFirst(ds, |ds| - 1, DomainOf(ds[|ds| - 1]))
  {
    AllAppear(ds[..|ds| - 1]);
    assert forall i :: 0 <= i < |ds| - 1 ==> ds[..|ds| - 1][i] == ds[i];
  }

  lemma {:induction false} AllAppear(ds: seq<Decision>)
    ensures forall i :: 0 <= i < |ds| ==> DomainOf(ds[i]) in Domains(ds)
  {
    if ds != [] {
      AllAppear(ds[..|ds| - 1]);
      assert forall i :: 0 <= i < |ds| - 1 ==> ds[..|ds| - 1][i] == ds[i];
    }
  }
}
