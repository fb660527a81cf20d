/** Confidence scoring from weighted factors. Scores and weights are reals. */
module Confidence {
  import opened Numbers
  import opened Wrappers

  datatype Impact = Supports | Opposes | Neutral

  datatype Factor = Factor(name: string, weight: real, impact: Impact)

  function Clamp(x: real, low: real, high: real): real {
    MaxReal(low, MinReal(high, x))
  }

  /** Math.round: to the nearest integer, halves upwards. */
  function Round(x: real): int {
    (x + 0.5).Floor
  }

  // ------------------------------------------------------------- weights that count

  function Counted(f: Factor, which: set<Impact>): (w: real)
    ensures w >= 0.0
  {
    if f.weight > 0.0 && f.impact in which then f.weight else 0.0
  }

  /** The sum of the positive weights of the factors with one of the given impacts. */
  function WeightOf(factors: seq<Factor>, which: set<Impact>): (w: real)
    ensures w >= 0.0
  {
    if factors == [] then 0.0
    else WeightOf(factors[..|factors| - 1], which) + Counted(factors[|factors| - 1], which)
  }

  const ANY: set<Impact> := {Supports, Opposes, Neutral}

  function BaseConfidence(factors: seq<Factor>): real {
    if WeightOf(factors, ANY) == 0.0 then 50.0 else 100.0 * (WeightOf(factors, {Supports}) / WeightOf(factors, ANY))
  }

  lemma Grown(factors: seq<Factor>, i: nat, which: set<Impact>)
    requires i < |factors|
    ensures WeightOf(factors[..i + 1], which) == WeightOf(factors[..i], which) + Counted(factors[i], which)
  {
    assert factors[..i + 1][..i] == factors[..i];
  }

  method CalculateBaseConfidence(factors: seq<Factor>) returns (confidence: real)
    ensures confidence == BaseConfidence(factors)
    ensures 0.0 <= confidence <= 100.0
  {
    BaseInRange(factors);
    if |factors| == 0 {
      return 50.0;
    }
    var supportingWeight, totalWeight := 0.0, 0.0;
    for i := 0 to |factors|
      invariant supportingWeight == WeightOf(factors[..i], {Supports})
      invariant totalWeight == WeightOf(factors[..i], ANY)
    {
      Grown(factors, i, {Supports});
      Grown(factors, i, ANY);
      if factors[i].weight <= 0.0 {
        continue;
      }
      totalWeight := totalWeight + factors[i].weight;
      if factors[i].impact == Supports {
        supportingWeight := supportingWeight + factors[i].weight;
      }
    }
    assert factors[..|factors|] == factors;
    if totalWeight == 0.0 {
      return 50.0;
    }
    var ratio := supportingWeight / totalWeight;
    confidence := Clamp(ratio * 100.0, 0.0, 100.0);
  }

  lemma {:induction false} MoreImpactsWeighMore(factors: seq<Factor>, some: set<Impact>, more: set<Impact>)
    requires some <= more
    ensures WeightOf(factors, some) <= WeightOf(factors, more)
  {
    if factors != [] {
      MoreImpactsWeighMore(factors[..|factors| - 1], some, more);
    }
  }

  lemma ShareInRange(part: real, whole: real)
    requires 0.0 <= part <= whole && whole > 0.0
    ensures 0.0 <= part / whole <= 1.0
  {
  }

  lemma BaseInRange(factors: seq<Factor>)
    ensures 0.0 <= BaseConfidence(factors) <= 100.0
  {
    MoreImpactsWeighMore(factors, {Supports}, ANY);
    if WeightOf(factors, ANY) > 0.0 {
      ShareInRange(WeightOf(factors, {Supports}), WeightOf(factors, ANY));
    }
  }

  lemma {:induction false} WeightSplits(a: seq<Factor>, b: seq<Factor>, which: set<Impact>)
    ensures WeightOf(a + b, which) == WeightOf(a, which) + WeightOf(b, which)
  {
    if b == [] {
      assert a + b == a;
    } else {
      WeightSplits(a, b[..|b| - 1], which);
      assert (a + b)[..|a + b| - 1] == a + b[..|b| - 1];
    }
  }

  lemma {:induction false} ReorderedWeighsTheSame(a: seq<Factor>, b: seq<Factor>, which: set<Impact>)
    requires multiset(a) == multiset(b)
    ensures WeightOf(a, which) == WeightOf(b, which)
  {
    if a == [] {
      assert |multiset(b)| == 0;
    } else {
      var last := a[|a| - 1];
      assert a == a[..|a| - 1] + [last];
      assert last in multiset(b);
      var k :| 0 <= k < |b| && b[k] == last;
      var rest := b[..k] + b[k + 1..];
      assert b == b[..k] + ([last] + b[k + 1..]);
      assert multiset(rest) == multiset(b) - multiset{last};
      ReorderedWeighsTheSame(a[..|a| - 1], rest, which);
      WeightSplits(b[..k], [last] + b[k + 1..], which);
      WeightSplits([last], b[k + 1..], which);
      WeightSplits(b[..k], b[k + 1..], which);
      Single(last, which);
    }
  }

  lemma Single(f: Factor, which: set<Impact>)
    ensures WeightOf([f], which) == Counted(f, which)
  {
    assert [f][..0] == [];
  }

  /** What weighs: the factors of these impacts with a positive weight, each by its weight, in sum. */
  lemma WeightIs(a: seq<Factor>, f: Factor, b: seq<Factor>, which: set<Impact>)
    ensures WeightOf(a + [f] + b, which)
         == WeightOf(a, which) + (if f.weight > 0.0 && f.impact in which then f.weight else 0.0) + WeightOf(b, which)
    ensures WeightOf([], which) == 0.0
  {
    WeightSplits(a + [f], b, which);
    WeightSplits(a, [f], which);
    Single(f, which);
  }

  /** The score is what the supporting weight is of all the weight, in hundredths, and 50 where nothing weighs. */
  lemma BaseIsShare(factors: seq<Factor>)
    ensures var total := WeightOf(factors, {Supports, Opposes, Neutral});
            if total == 0.0 then BaseConfidence(factors) == 50.0
            else BaseConfidence(factors) * total == 100.0 * WeightOf(factors, {Supports})
  {
    var total := WeightOf(factors, ANY);
    if total != 0.0 {
      DividedBack(WeightOf(factors, {Supports}), total);
      var share := WeightOf(factors, {Supports}) / total;
      assert 100.0 * share * total == 100.0 * (share * total);
    }
  }

  lemma ClampIs(x: real, low: real, high: real)
    requires low <= high
    ensures Clamp(x, low, high) == if x < low then low else if x > high then high else x
  {
  }

  lemma RoundIs(x: real)
    ensures Round(x) as real - 0.5 <= x < Round(x) as real + 0.5
  {
  }

  /** The base score does not depend on the order of the factors. */
  lemma BaseIgnoresOrder(a: seq<Factor>, b: seq<Factor>)
    requires multiset(a) == multiset(b)
    ensures BaseConfidence(a) == BaseConfidence(b)
  {
    ReorderedWeighsTheSame(a, b, ANY);
    ReorderedWeighsTheSame(a, b, {Supports});
  }

  predicate Has(factors: seq<Factor>, which: set<Impact>) {
    exists i :: 0 <= i < |factors| && factors[i].weight > 0.0 && factors[i].impact in which
  }

  lemma {:induction false} WeighsIffHas(factors: seq<Factor>, which: set<Impact>)
    ensures WeightOf(factors, which) > 0.0 <==> Has(factors, which)
  {
    if factors != [] {
      var rest := factors[..|factors| - 1];
      WeighsIffHas(rest, which);
      if Has(rest, which) {
        var i :| 0 <= i < |rest| && rest[i].weight > 0.0 && rest[i].impact in which;
        assert factors[i] == rest[i];
      }
      if Has(factors, which) {
        var i :| 0 <= i < |factors| && factors[i].weight > 0.0 && factors[i].impact in which;
        if i < |rest| {
          assert rest[i] == factors[i];
        }
      }
    }
  }

  lemma {:induction false} WeightByImpact(factors: seq<Factor>)
    ensures WeightOf(factors, ANY) == WeightOf(factors, {Supports}) + WeightOf(factors, {Opposes, Neutral})
  {
    if factors != [] {
      WeightByImpact(factors[..|factors| - 1]);
    }
  }

  lemma ShareOfWhole(part: real, rest: real)
    requires part >= 0.0 && rest >= 0.0 && part + rest > 0.0
    ensures part / (part + rest) == 1.0 <==> rest == 0.0
    ensures part / (part + rest) == 0.0 <==> part == 0.0
  {
    var share := part / (part + rest);
    assert share * (part + rest) == part;
  }

  /** The ends of the scale: full confidence for support alone, none where nothing supports, 50 when nothing weighs. */
  lemma BaseExtremes(factors: seq<Factor>)
    ensures BaseConfidence(factors) == 100.0 <==> Has(factors, {Supports}) && !Has(factors, {Opposes, Neutral})
    ensures BaseConfidence(factors) == 0.0 <==> !Has(factors, {Supports}) && Has(factors, {Opposes, Neutral})
    ensures !Has(factors, ANY) ==> BaseConfidence(factors) == 50.0
  {
    WeightByImpact(factors);
    WeighsIffHas(factors, {Supports});
    WeighsIffHas(factors, {Opposes, Neutral});
    WeighsIffHas(factors, ANY);
    if WeightOf(factors, ANY) > 0.0 {
      ShareOfWhole(WeightOf(factors, {Supports}), WeightOf(factors, {Opposes, Neutral}));
    }
  }

  // ------------------------------------------------------------ the model's adjustment

  /** The score moves towards the suggestion, all the way when it is within reach and otherwise by the whole reach. */
  function ApplyLLMAdjustment(baseConfidence: real, llmConfidence: real, maxAdjustment: real): (score: real)
    ensures 0.0 <= score <= 100.0
    ensures var base, llm, reach := Clamp(baseConfidence, 0.0, 100.0), Clamp(llmConfidence, 0.0, 100.0), MaxReal(0.0, maxAdjustment);
            && (base - reach <= llm <= base + reach ==> score == llm)
            && (llm > base + reach ==> score == base + reach)
            && (llm < base - reach ==> score == base - reach)
  {
    var validBase := Clamp(baseConfidence, 0.0, 100.0);
    var validLlm := Clamp(llmConfidence, 0.0, 100.0);
    var validMax := MaxReal(0.0, maxAdjustment);
    var adjustment := Clamp(validLlm - validBase, -validMax, validMax);
    Clamp(validBase + adjustment, 0.0, 100.0)
  }

  // --------------------------------------------------------------------- alternatives

  function AlternativeConfidence(baseConfidence: real, differences: seq<Factor>): real {
    var base := Clamp(baseConfidence, 0.0, 100.0);
    var total := WeightOf(differences, ANY);
    if differences == [] then base
    else if total == 0.0 then MaxReal(0.0, base - 10.0)
    else
      var ratio := (WeightOf(differences, {Supports}) - WeightOf(differences, {Opposes})) / total;
      Clamp(base + MinReal(ratio * 40.0, 20.0), 0.0, 100.0)
  }

  method CalculateAlternativeConfidence(baseConfidence: real, differences: seq<Factor>) returns (confidence: real)
    ensures confidence == AlternativeConfidence(baseConfidence, differences)
    ensures 0.0 <= confidence <= 100.0 && confidence <= Clamp(baseConfidence, 0.0, 100.0) + 20.0
  {
    var validBase := Clamp(baseConfidence, 0.0, 100.0);
    if |differences| == 0 {
      return validBase;
    }
    var weightedImpact, totalWeight := 0.0, 0.0;
    for i := 0 to |differences|
      invariant weightedImpact == WeightOf(differences[..i], {Supports}) - WeightOf(differences[..i], {Opposes})
      invariant totalWeight == WeightOf(differences[..i], ANY)
    {
      Grown(differences, i, {Supports});
      Grown(differences, i, {Opposes});
      Grown(differences, i, ANY);
      if differences[i].weight <= 0.0 {
        continue;
      }
      totalWeight := totalWeight + differences[i].weight;
      if differences[i].impact == Supports {
        weightedImpact := weightedImpact + differences[i].weight;
      } else if differences[i].impact == Opposes {
        weightedImpact := weightedImpact - differences[i].weight;
      }
    }
    assert differences[..|differences|] == differences;
    if totalWeight == 0.0 {
      return MaxReal(0.0, validBase - 10.0);
    }
    var impactRatio := weightedImpact / totalWeight;
    var cappedAdjustment := MinReal(impactRatio * 40.0, 20.0);
    confidence := Clamp(validBase + cappedAdjustment, 0.0, 100.0);
  }

  /**
   The alternative's score: the chosen one where nothing differs, 10 less where nothing that differs
   weighs, and else moved by 40 times the balance of the weight, but by at most 20 upwards; never out of range.
   */
  lemma AlternativeIs(baseConfidence: real, differences: seq<Factor>) returns (move: real)
    ensures AlternativeConfidence(baseConfidence, differences) == Clamp(Clamp(baseConfidence, 0.0, 100.0) + move, 0.0, 100.0)
    ensures differences == [] ==> move == 0.0
    ensures differences != [] ==>
      Moves(move, WeightOf(differences, {Supports}) - WeightOf(differences, {Opposes}),
            WeightOf(differences, {Supports, Opposes, Neutral}))
  {
    var total := WeightOf(differences, ANY);
    if differences == [] {
      move := 0.0;
    } else if total == 0.0 {
      move := -10.0;
    } else {
      var difference := WeightOf(differences, {Supports}) - WeightOf(differences, {Opposes});
      move := MinReal((difference / total) * 40.0, 20.0);
      MoveIs(difference, total);
    }
  }

  predicate Moves(move: real, balance: real, total: real) {
    if total == 0.0 then move == -10.0
    else if 40.0 * balance >= 20.0 * total then move == 20.0
    else move * total == 40.0 * balance
  }

  lemma MoveIs(difference: real, total: real)
    requires total > 0.0
    ensures Moves(MinReal((difference / total) * 40.0, 20.0), difference, total)
  {
    var x := (difference / total) * 40.0;
    DividedBack(difference, total);
    InOrderTimes(difference / total, total, difference);
    assert x * total == 40.0 * difference;
    assert x * total - 20.0 * total == (x - 20.0) * total;
  }

  lemma InOrderTimes(ratio: real, total: real, difference: real)
    requires ratio * total == difference
    ensures (ratio * 40.0) * total == 40.0 * difference
  {
    assert (ratio * 40.0) * total == 40.0 * (ratio * total);
  }

  /** The supporting factors of the chosen option, turned against the alternative at half their weight. */
  function Flipped(factors: seq<Factor>): seq<Factor> {
    if factors == [] then []
    else
      var f := factors[|factors| - 1];
      Flipped(factors[..|factors| - 1]) + (if f.impact == Supports then [f.(impact := Opposes, weight := f.weight * 0.5)] else [])
  }

  function Fill(baseConfidence: real, factors: seq<Factor>): int {
    Round(AlternativeConfidence(baseConfidence, Flipped(factors)))
  }

  class AlternativeAnalysis {
    const optionId: string
    var confidenceIfChosen: real

    constructor (optionId: string, confidenceIfChosen: real)
      ensures this.optionId == optionId && this.confidenceIfChosen == confidenceIfChosen
    {
      this.optionId := optionId;
      this.confidenceIfChosen := confidenceIfChosen;
    }
  }

  /** Fills in the missing scores in place; the same alternative may be listed more than once. */
  method EnrichAlternativeAnalysis(alternatives: seq<AlternativeAnalysis>, baseConfidence: real, factors: seq<Factor>)
    returns (enriched: seq<AlternativeAnalysis>)
    modifies alternatives
    ensures enriched == alternatives
    ensures forall alt :: alt in alternatives ==>
      alt.confidenceIfChosen == if old(alt.confidenceIfChosen) == 0.0 then Fill(baseConfidence, factors) as real
                                else old(alt.confidenceIfChosen)
  {
    for i := 0 to |alternatives|
      invariant forall alt :: alt in alternatives[..i] ==>
        alt.confidenceIfChosen == if old(alt.confidenceIfChosen) == 0.0 then Fill(baseConfidence, factors) as real
                                  else old(alt.confidenceIfChosen)
      invariant forall alt :: alt in alternatives && alt !in alternatives[..i] ==>
        alt.confidenceIfChosen == old(alt.confidenceIfChosen)
    {
      var alt := alternatives[i];
      assert alternatives[..i + 1] == alternatives[..i] + [alt];
      if alt.confidenceIfChosen == 0.0 {
        var confidence := CalculateAlternativeConfidence(baseConfidence, Flipped(factors));
        alt.confidenceIfChosen := Round(confidence) as real;
      }
    }
    assert alternatives[..|alternatives|] == alternatives;
    return alternatives;
  }

  // ---------------------------------------------------------- what filling in comes to

  predicate Supported(factors: seq<Factor>) {
    exists i :: 0 <= i < |factors| && factors[i].impact == Supports
  }

  lemma Appended(factors: seq<Factor>, f: Factor, which: set<Impact>)
    ensures WeightOf(factors + [f], which) == WeightOf(factors, which) + Counted(f, which)
  {
    assert (factors + [f])[..|factors|] == factors;
  }

  lemma {:induction false} FlippedIffSupported(factors: seq<Factor>)
    ensures Flipped(factors) == [] <==> !Supported(factors)
  {
    if factors != [] {
      var rest := factors[..|factors| - 1];
      FlippedIffSupported(rest);
      if Supported(rest) {
        var i :| 0 <= i < |rest| && rest[i].impact == Supports;
        assert factors[i].impact == Supports;
      }
      if Supported(factors) {
        var i :| 0 <= i < |factors| && factors[i].impact == Supports;
        if i < |rest| {
          assert rest[i].impact == Supports;
        }
      }
    }
  }

  lemma {:induction false} FlippedWeighs(factors: seq<Factor>)
    ensures 2.0 * WeightOf(Flipped(factors), ANY) == WeightOf(factors, {Supports})
    ensures WeightOf(Flipped(factors), {Opposes}) == WeightOf(Flipped(factors), ANY)
    ensures WeightOf(Flipped(factors), {Supports}) == 0.0
  {
    if factors != [] {
      var rest, f := factors[..|factors| - 1], factors[|factors| - 1];
      FlippedWeighs(rest);
      if f.impact == Supports {
        var g := f.(impact := Opposes, weight := f.weight * 0.5);
        Appended(Flipped(rest), g, ANY);
        Appended(Flipped(rest), g, {Opposes});
        Appended(Flipped(rest), g, {Supports});
      } else {
        assert Flipped(factors) == Flipped(rest);
      }
    }
  }

  lemma DividedBack(x: real, y: real)
    requires y > 0.0
    ensures (x / y) * y == x
  {
  }

  lemma NegatedShare(total: real)
    requires total > 0.0
    ensures (0.0 - total) / total == -1.0
  {
    var ratio := (0.0 - total) / total;
    DividedBack(0.0 - total, total);
    assert (ratio + 1.0) * total == 0.0;
  }

  /** Whatever the weights are, a score that is filled in is one of three. */
  lemma FillClosedForm(baseConfidence: real, factors: seq<Factor>)
    ensures var chosen := Clamp(baseConfidence, 0.0, 100.0);
            Fill(baseConfidence, factors) ==
              if !Supported(factors) then Round(chosen)
              else if !Has(factors, {Supports}) then Round(MaxReal(0.0, chosen - 10.0))
              else Round(MaxReal(0.0, chosen - 40.0))
  {
    FlippedIffSupported(factors);
    FlippedWeighs(factors);
    WeighsIffHas(factors, {Supports});
    var flipped := Flipped(factors);
    if Has(factors, {Supports}) {
      var total := WeightOf(flipped, ANY);
      NegatedShare(total);
    }
  }

  lemma RoundMonotone(x: real, y: real)
    requires x <= y
    ensures Round(x) <= Round(y)
  {
    var p, q := Round(x), Round(y);
    assert p as real <= x + 0.5 <= y + 0.5 < q as real + 1.0;
    assert (p - q) as real < 1.0;
  }

  /** So an alternative is never filled in above the option that was chosen. */
  lemma FillNeverAboveChosen(baseConfidence: real, factors: seq<Factor>)
    ensures 0 <= Fill(baseConfidence, factors) <= Round(Clamp(baseConfidence, 0.0, 100.0)) <= 100
  {
    FillClosedForm(baseConfidence, factors);
    var chosen := Clamp(baseConfidence, 0.0, 100.0);
    RoundMonotone(MaxReal(0.0, chosen - 10.0), chosen);
    RoundMonotone(MaxReal(0.0, chosen - 40.0), chosen);
  }

  // ---------------------------------------------------------------------- normalising

  /** Number(w) || 0.5, held in [0, 1]; None stands for a weight that is absent or not a number. */
  function NormalizeWeight(raw: Option<real>): (w: real)
    ensures 0.0 <= w <= 1.0
    ensures w == 0.0 <==> raw.Some? && raw.value < 0.0
    ensures raw.Some? && 0.0 < raw.value <= 1.0 ==> w == raw.value
    ensures raw.None? || raw.value == 0.0 ==> w == 0.5
    ensures raw.Some? && raw.value > 1.0 ==> w == 1.0
  {
    MaxReal(0.0, MinReal(1.0, if raw.None? || raw.value == 0.0 then 0.5 else raw.value))
  }

  /** Number(c) || 0, held in [0, 100]: what is filled in later is just what is absent, zero or negative here. */
  function NormalizeConfidence(raw: Option<real>): (c: real)
    ensures 0.0 <= c <= 100.0
    ensures c == 0.0 <==> raw.None? || raw.value <= 0.0
    ensures raw.Some? && 0.0 < raw.value <= 100.0 ==> c == raw.value
    ensures raw.Some? && raw.value > 100.0 ==> c == 100.0
  {
    MaxReal(0.0, MinReal(100.0, if raw.None? then 0.0 else raw.value))
  }

  datatype RawFactor = RawFactor(name: string, weight: Option<real>, impact: Impact)

  function NormalizeAll(raw: seq<RawFactor>): (factors: seq<Factor>)
    ensures |factors| == |raw|
    ensures forall i :: 0 <= i < |raw| ==>
      factors[i] == Factor(raw[i].name, NormalizeWeight(raw[i].weight), raw[i].impact)
  {
    seq(|raw|, i requires 0 <= i < |raw| => Factor(raw[i].name, NormalizeWeight(raw[i].weight), raw[i].impact))
  }

  predicate Negative(f: RawFactor) {
    f.weight.Some? && f.weight.value < 0.0
  }

  /** The middle case arises only when every supporting factor was given a negative weight: a zero becomes one half. */
  lemma FillOfNormalized(baseConfidence: real, raw: seq<RawFactor>)
    requires exists i :: 0 <= i < |raw| && raw[i].impact == Supports
    ensures var chosen := Clamp(baseConfidence, 0.0, 100.0);
            Fill(baseConfidence, NormalizeAll(raw)) ==
              if forall i :: 0 <= i < |raw| && raw[i].impact == Supports ==> Negative(raw[i])
              then Round(MaxReal(0.0, chosen - 10.0)) else Round(MaxReal(0.0, chosen - 40.0))
  {
    var factors := NormalizeAll(raw);
    FillClosedForm(baseConfidence, factors);
    var k :| 0 <= k < |raw| && raw[k].impact == Supports;
    assert factors[k].impact == Supports;
    if !forall i :: 0 <= i < |raw| && raw[i].impact == Supports ==> Negative(raw[i]) {
      var i :| 0 <= i < |raw| && raw[i].impact == Supports && !Negative(raw[i]);
      assert factors[i].weight > 0.0;
    }
  }
}
