/** What a score is: told from the input's own fields, the weights and the caps. */
module ScoringLaws {
  import opened Wrappers
  import opened RiskModels
  import opened Scoring

  function Total(factors: seq<Factor>, term: Factor -> real): real {
    if factors == [] then 0.0 else Total(factors[..|factors| - 1], term) + term(factors[|factors| - 1])
  }

  /** The nearest integer, the even one of two. */
  predicate Nearest(x: real, n: int) {
    -0.5 <= x - n as real <= 0.5 && (x - n as real == 0.5 || n as real - x == 0.5 ==> n % 2 == 0)
  }

  predicate LevelFits(score: int, level: RiskLevel) {
    match level
    case Low => 0 <= score <= 29
    case Medium => 30 <= score <= 54
    case High => 55 <= score <= 74
    case Critical => 75 <= score <= 100
  }

  predicate ConfidenceFits(coverage: real, confidence: ConfidenceLevel) {
    match confidence
    case HighConfidence => 0.9 <= coverage
    case MediumConfidence => 0.75 <= coverage < 0.9
    case LowConfidence => 0.6 <= coverage < 0.75
    case InsufficientData => coverage < 0.6
  }

  /** The result for a covered weight and a number of points. */
  predicate ResultFits(result: RiskResult, coverage: real, points: real) {
    if coverage < 0.6 then result.Insufficient? && result.excluded == []
    else
      && result.Scored?
      && Nearest(points, result.score)
      && LevelFits(result.score, result.level)
      && ConfidenceFits(coverage, result.confidence)
  }

  lemma {:induction false} TotalsAgree(factors: seq<Factor>, assess: Assessment,
                                       weight: Factor -> real, points: Factor -> real)
    requires forall f | f in factors ::
      && (assess(f).None? ==> weight(f) == 0.0 && points(f) == 0.0)
      && (assess(f).Some? ==> weight(f) == assess(f).value.weight && points(f) == assess(f).value.points)
    ensures Coverage(Contributions(factors, assess)) == Total(factors, weight)
    ensures Points(Contributions(factors, assess)) == Total(factors, points)
  {
    if factors == [] {
    } else {
      assert forall f | f in factors[..|factors| - 1] :: f in factors;
      TotalsAgree(factors[..|factors| - 1], assess, weight, points);
      ContributionsStep(factors, assess);
      assert factors[|factors| - 1] in factors;
    }
  }

  lemma ResultExactly(factors: seq<Factor>, assess: Assessment, missing: seq<string>)
    requires Accepted(factors) && FairAll(factors, assess)
    ensures
      var contributions := Contributions(factors, assess);
      var result := ResultOf(contributions, missing);
      result.Some? && ResultFits(result.value, Coverage(contributions), Points(contributions))
  {
    ScoreWithinCoverage(factors, assess, missing);
    RoundIsNearest(Points(Contributions(factors, assess)));
  }

  // ----- employee overload

  /** Every factor reads its own field, and a missing one is reported under that field's name. */
  lemma FactorsReadTheirFields(input: OverloadInput)
    requires ValidInput(input)
    ensures RawValue(input, "utilization").Some? <==> input.remainingHours.Some? && input.capacityHours.Some?
    ensures RawValue(input, "utilization").Some? ==>
      RawValue(input, "utilization").value * input.capacityHours.value == input.remainingHours.value
    ensures
      forall entry | entry in {("overdue_work", input.overdue), ("blocked_work", input.blocked),
                               ("priority_load", input.highPriority), ("due_soon_load", input.dueSoon),
                               ("active_task_count", input.active), ("concurrent_projects", input.projects),
                               ("stale_work", input.stale)} ::
        && (RawValue(input, entry.0).Some? <==> entry.1.Some?)
        && (entry.1.Some? ==> RawValue(input, entry.0).value == entry.1.value as real)
    ensures
      forall entry | entry in {("overdue_work", "overdue_tasks"), ("blocked_work", "blocked_or_blocking_tasks"),
                               ("priority_load", "urgent_high_priority_tasks"), ("due_soon_load", "due_soon_tasks"),
                               ("active_task_count", "active_tasks"), ("concurrent_projects", "concurrent_projects"),
                               ("stale_work", "stale_tasks"), ("utilization", "utilization")} ::
        InputLabel(entry.0) == entry.1
  {
  }

  predicate Evidenced(input: OverloadInput, f: Factor)
    requires ValidInput(input)
  {
    RawValue(input, f.name).Some? && f.name in input.references && input.references[f.name] != []
  }

  /** The share of its cap a value reaches, one at most. */
  function ShareOf(raw: real, cap: real): real {
    if raw >= cap || cap <= 0.0 then 1.0 else raw / cap
  }

  function WeightIn(input: OverloadInput): Factor -> real
    requires ValidInput(input)
  {
    f => if Evidenced(input, f) then f.weight else 0.0
  }

  function LoadIn(input: OverloadInput): Factor -> real
    requires ValidInput(input)
  {
    f => if Evidenced(input, f) then 100.0 * f.weight * ShareOf(RawValue(input, f.name).value, f.cap) else 0.0
  }

  lemma ShareIsNormalized(raw: real, cap: real)
    requires raw >= 0.0 && cap > 0.0
    ensures NormalizeCapped(raw, cap) == ShareOf(raw, cap)
  {
  }

  lemma RawIsNonNegative(input: OverloadInput, name: string)
    requires ValidInput(input) && RawValue(input, name).Some?
    ensures RawValue(input, name).value >= 0.0
  {
  }

  /** What an evidenced factor contributes, in full. */
  lemma ContributesExactly(input: OverloadInput, f: Factor)
    requires ValidInput(input) && f.cap > 0.0
    ensures AssessOverload(input, f).Some? <==> Evidenced(input, f)
    ensures Evidenced(input, f) ==>
      var raw := RawValue(input, f.name).value;
      var share := ShareOf(raw, f.cap);
      AssessOverload(input, f).value
        == Contribution(f.name, raw, share, f.weight, 100.0 * f.weight * share, input.references[f.name])
  {
    if Evidenced(input, f) {
      RawIsNonNegative(input, f.name);
      ShareIsNormalized(RawValue(input, f.name).value, f.cap);
    }
  }

  lemma OverloadTotals(input: OverloadInput, factors: seq<Factor>)
    requires ValidInput(input) && Accepted(factors)
    ensures
      var contributions := Contributions(factors, OverloadAssessment(input));
      && Coverage(contributions) == Total(factors, WeightIn(input))
      && Points(contributions) == Total(factors, LoadIn(input))
  {
    forall f | f in factors
      ensures
        var assess := OverloadAssessment(input);
        && (assess(f).None? ==> WeightIn(input)(f) == 0.0 && LoadIn(input)(f) == 0.0)
        && (assess(f).Some? ==>
              WeightIn(input)(f) == assess(f).value.weight && LoadIn(input)(f) == assess(f).value.points)
    {
      ContributesExactly(input, f);
    }
    TotalsAgree(factors, OverloadAssessment(input), WeightIn(input), LoadIn(input));
  }

  /** With both hours known and fresh evidence, the score is the nearest integer to 100 times the sum
      of weight times share of the cap over the evidenced factors; level and confidence follow from
      the score and the evidenced weight, and below 0.6 of it there is no score. */
  lemma OverloadExactly(input: OverloadInput, factors: seq<Factor>, age: real, maxAge: real)
    requires ValidInput(input) && Accepted(factors)
    ensures
      var result := OverloadResult(input, factors, age, maxAge);
      && result.Some?
      && (input.remainingHours.None? || input.capacityHours.None? ==>
            result.value == Insufficient(
              if input.capacityHours.Some? then ["remaining_estimated_hours"]
              else if input.remainingHours.Some? then ["available_capacity_hours"]
              else ["remaining_estimated_hours", "available_capacity_hours"], []))
      && (input.remainingHours.Some? && input.capacityHours.Some? ==>
            if age > maxAge then result.value == Insufficient([], ["stale_evidence"])
            else ResultFits(result.value, Total(factors, WeightIn(input)), Total(factors, LoadIn(input))))
  {
    OverloadIsFair(input, factors);
    OverloadTotals(input, factors);
    ResultExactly(factors, OverloadAssessment(input), Missing(factors, OverloadAssessment(input), InputLabel));
  }

  lemma {:induction false} CappedTotal(factors: seq<Factor>, weight: Factor -> real, points: Factor -> real)
    requires forall f | f in factors :: points(f) == 100.0 * weight(f)
    ensures Total(factors, points) == 100.0 * Total(factors, weight)
  {
    if factors == [] {
    } else {
      assert forall f | f in factors[..|factors| - 1] :: f in factors;
      CappedTotal(factors[..|factors| - 1], weight, points);
      assert factors[|factors| - 1] in factors;
    }
  }

  lemma {:induction false} FullTotal(factors: seq<Factor>, weight: Factor -> real)
    requires forall f | f in factors :: weight(f) == f.weight
    ensures Total(factors, weight) == TotalWeight(factors)
  {
    if factors == [] {
    } else {
      assert forall f | f in factors[..|factors| - 1] :: f in factors;
      FullTotal(factors[..|factors| - 1], weight);
      assert factors[|factors| - 1] in factors;
    }
  }

  /** The bound of the coverage is reached: with every evidenced factor at its cap or above, the score
      is the rounded percentage of the evidenced weight. */
  lemma CapsReachCoverage(input: OverloadInput, factors: seq<Factor>, age: real, maxAge: real)
    requires ValidInput(input) && Accepted(factors) && age <= maxAge
    requires input.remainingHours.Some? && input.capacityHours.Some?
    requires forall f | f in factors && Evidenced(input, f) :: RawValue(input, f.name).value >= f.cap
    ensures
      var result, coverage := OverloadResult(input, factors, age, maxAge).value, Total(factors, WeightIn(input));
      coverage >= 0.6 ==> result.Scored? && Nearest(100.0 * coverage, result.score)
  {
    OverloadExactly(input, factors, age, maxAge);
    CappedTotal(factors, WeightIn(input), LoadIn(input));
  }

  lemma FullWeightIsCritical(result: RiskResult, weight: real)
    requires 1.0 - TOLERANCE <= weight <= 1.0 + TOLERANCE && ResultFits(result, weight, 100.0 * weight)
    ensures result.Scored? && result.score == 100 && result.level == Critical && result.confidence == HighConfidence
  {
  }

  /** Full evidence at the caps scores 100, CRITICAL, with high confidence. */
  lemma FullLoadIsCritical(input: OverloadInput, factors: seq<Factor>, age: real, maxAge: real)
    requires ValidInput(input) && Accepted(factors) && age <= maxAge
    requires input.remainingHours.Some? && input.capacityHours.Some?
    requires forall f | f in factors :: Evidenced(input, f) && RawValue(input, f.name).value >= f.cap
    ensures
      var result := OverloadResult(input, factors, age, maxAge).value;
      result.Scored? && result.score == 100 && result.level == Critical && result.confidence == HighConfidence
  {
    OverloadExactly(input, factors, age, maxAge);
    CappedTotal(factors, WeightIn(input), LoadIn(input));
    FullTotal(factors, WeightIn(input));
    FullWeightIsCritical(OverloadResult(input, factors, age, maxAge).value, TotalWeight(factors));
  }

  // ----- what a result lists

  lemma {:induction false} ListedExactly(factors: seq<Factor>, assess: Assessment, c: Contribution)
    ensures c in Contributions(factors, assess) <==> exists f :: f in factors && assess(f) == Some(c)
  {
    if factors == [] {
    } else {
      var shorter, last := factors[..|factors| - 1], factors[|factors| - 1];
      ListedExactly(shorter, assess, c);
      assert factors == shorter + [last];
    }
  }

  lemma {:induction false} MissingExactly(factors: seq<Factor>, assess: Assessment, labelled: string -> string,
                                          entry: string)
    ensures entry in Missing(factors, assess, labelled) <==>
              exists f :: f in factors && assess(f).None? && labelled(f.name) == entry
  {
    if factors == [] {
    } else {
      var shorter, last := factors[..|factors| - 1], factors[|factors| - 1];
      MissingExactly(shorter, assess, labelled, entry);
      assert factors == shorter + [last];
    }
  }

  /** A scored result lists exactly the evidenced factors, each with its own value, share, weight,
      points and references, names the fields of all others as missing, and collects the references
      of those it lists. */
  lemma OverloadListsExactly(input: OverloadInput, factors: seq<Factor>, age: real, maxAge: real,
                             c: Contribution, entry: string, reference: string)
    requires ValidInput(input) && Accepted(factors)
    requires
      var result := OverloadResult(input, factors, age, maxAge);
      result.Some? && result.value.Scored?
    ensures
      var result := OverloadResult(input, factors, age, maxAge).value;
      && (c in result.factors <==>
            exists f :: f in factors && Evidenced(input, f)
                     && var raw, share := RawValue(input, f.name).value, ShareOf(RawValue(input, f.name).value, f.cap);
                        c == Contribution(f.name, raw, share, f.weight, 100.0 * f.weight * share,
                                          input.references[f.name]))
      && (entry in result.missing <==> exists f :: f in factors && !Evidenced(input, f) && entry == InputLabel(f.name))
      && (reference in result.references <==>
            exists f :: f in factors && Evidenced(input, f) && reference in input.references[f.name])
  {
    var assess := OverloadAssessment(input);
    ListedExactly(factors, assess, c);
    MissingExactly(factors, assess, InputLabel, entry);
    forall f | f in factors
      ensures assess(f).Some? <==> Evidenced(input, f)
      ensures
        Evidenced(input, f) ==>
          var raw, share := RawValue(input, f.name).value, ShareOf(RawValue(input, f.name).value, f.cap);
          assess(f).value
            == Contribution(f.name, raw, share, f.weight, 100.0 * f.weight * share, input.references[f.name])
    {
      ContributesExactly(input, f);
    }
    ReferencesListed(factors, assess, reference);
  }

  lemma ReferencesListed(factors: seq<Factor>, assess: Assessment, reference: string)
    ensures reference in References(Contributions(factors, assess)) <==>
              exists f :: f in factors && assess(f).Some? && reference in assess(f).value.references
  {
    var contributions := Contributions(factors, assess);
    if reference in References(contributions) {
      var i :| 0 <= i < |contributions| && reference in contributions[i].references;
      ListedExactly(factors, assess, contributions[i]);
    }
    if f :| f in factors && assess(f).Some? && reference in assess(f).value.references {
      ListedExactly(factors, assess, assess(f).value);
      var i :| 0 <= i < |contributions| && contributions[i] == assess(f).value;
      assert reference in contributions[i].references;
    }
  }

  // ----- normalised families

  predicate FamilyEvidenced(input: FamilyInput, f: Factor) {
    && f.name in input.values && input.values[f.name].Some?
    && f.name in input.references && input.references[f.name] != []
  }

  function FamilyWeightIn(input: FamilyInput): Factor -> real {
    f => if FamilyEvidenced(input, f) then f.weight else 0.0
  }

  /** A value counts as it is where it adds risk, and its distance from one where it takes risk away. */
  function FamilyLoadIn(input: FamilyInput): Factor -> real {
    f =>
      if !FamilyEvidenced(input, f) then 0.0
      else if f.direction == InverseRisk || f.direction == Protective
      then 100.0 * f.weight * (1.0 - input.values[f.name].value)
      else 100.0 * f.weight * input.values[f.name].value
  }

  /** What an evidenced factor of a family contributes. */
  lemma FamilyContributesExactly(input: FamilyInput, f: Factor)
    ensures AssessFamily(input, f).Some? <==> FamilyEvidenced(input, f)
    ensures FamilyEvidenced(input, f) ==>
      var value := input.values[f.name].value;
      var risk := if f.direction == InverseRisk || f.direction == Protective then 1.0 - value else value;
      AssessFamily(input, f).value
        == Contribution(f.name, value, risk, f.weight, 100.0 * f.weight * risk, input.references[f.name])
  {
  }

  lemma FamilyTotals(input: FamilyInput, factors: seq<Factor>)
    ensures
      var contributions := Contributions(factors, FamilyAssessment(input));
      && Coverage(contributions) == Total(factors, FamilyWeightIn(input))
      && Points(contributions) == Total(factors, FamilyLoadIn(input))
  {
    forall f | f in factors
      ensures
        var assess := FamilyAssessment(input);
        && (assess(f).None? ==> FamilyWeightIn(input)(f) == 0.0 && FamilyLoadIn(input)(f) == 0.0)
        && (assess(f).Some? ==>
              FamilyWeightIn(input)(f) == assess(f).value.weight && FamilyLoadIn(input)(f) == assess(f).value.points)
    {
      FamilyContributesExactly(input, f);
    }
    TotalsAgree(factors, FamilyAssessment(input), FamilyWeightIn(input), FamilyLoadIn(input));
  }

  lemma FamilyFitsExactly(input: FamilyInput, factors: seq<Factor>)
    ensures FamilyFits(input, factors) <==>
      forall f | f in factors && FamilyEvidenced(input, f) :: 0.0 <= input.values[f.name].value <= 1.0
  {
    forall f: Factor
      ensures AssessFamily(input, f).Some? <==> FamilyEvidenced(input, f)
      ensures FamilyEvidenced(input, f) ==>
        (0.0 <= AssessFamily(input, f).value.normalized <= 1.0 <==> 0.0 <= input.values[f.name].value <= 1.0)
    {
      FamilyContributesExactly(input, f);
    }
  }

  /** A family on fresh evidence raises exactly if an evidenced value is outside 0 to 1; otherwise its
      score is the nearest integer to 100 times the sum of weight times value, or times what the value
      leaves of one, over the evidenced factors. */
  lemma FamilyExactly(input: FamilyInput, factors: seq<Factor>, age: real, maxAge: real)
    requires Accepted(factors)
    ensures
      var result := FamilyResult(input, factors, age, maxAge);
      if age > maxAge then result == Some(Insufficient([], ["stale_evidence"]))
      else if exists f :: f in factors && FamilyEvidenced(input, f) && !(0.0 <= input.values[f.name].value <= 1.0)
      then result == None
      else
        && result.Some?
        && ResultFits(result.value, Total(factors, FamilyWeightIn(input)), Total(factors, FamilyLoadIn(input)))
  {
    FamilyFitsExactly(input, factors);
    if age <= maxAge && FamilyFits(input, factors) {
      FamilyTotals(input, factors);
      ResultExactly(factors, FamilyAssessment(input), Missing(factors, FamilyAssessment(input), OwnLabel));
    }
  }

  /** A scored family lists exactly its evidenced factors and names all others as missing. */
  lemma FamilyListsExactly(input: FamilyInput, factors: seq<Factor>, age: real, maxAge: real,
                           c: Contribution, entry: string)
    requires Accepted(factors)
    requires
      var result := FamilyResult(input, factors, age, maxAge);
      result.Some? && result.value.Scored?
    ensures
      var result := FamilyResult(input, factors, age, maxAge).value;
      && (c in result.factors <==>
            exists f :: f in factors && FamilyEvidenced(input, f)
                     && var value := input.values[f.name].value;
                        var risk := if f.direction == InverseRisk || f.direction == Protective then 1.0 - value
                                    else value;
                        c == Contribution(f.name, value, risk, f.weight, 100.0 * f.weight * risk,
                                          input.references[f.name]))
      && (entry in result.missing <==> exists f :: f in factors && !FamilyEvidenced(input, f) && entry == f.name)
  {
    ListedExactly(factors, FamilyAssessment(input), c);
    MissingExactly(factors, FamilyAssessment(input), OwnLabel, entry);
    forall f: Factor
      ensures AssessFamily(input, f).Some? <==> FamilyEvidenced(input, f)
      ensures FamilyEvidenced(input, f) ==>
        var value := input.values[f.name].value;
        var risk := if f.direction == InverseRisk || f.direction == Protective then 1.0 - value else value;
        AssessFamily(input, f).value
          == Contribution(f.name, value, risk, f.weight, 100.0 * f.weight * risk, input.references[f.name])
    {
      FamilyContributesExactly(input, f);
    }
  }

  /** Full evidence at full risk scores 100, CRITICAL, with high confidence. */
  lemma FullRiskIsCritical(input: FamilyInput, factors: seq<Factor>, age: real, maxAge: real)
    requires Accepted(factors) && age <= maxAge
    requires forall f | f in factors ::
      FamilyEvidenced(input, f) && input.values[f.name].value == if f.direction == IncreasesRisk then 1.0 else 0.0
    ensures
      var result := FamilyResult(input, factors, age, maxAge);
      && result.Some? && result.value.Scored?
      && result.value.score == 100 && result.value.level == Critical && result.value.confidence == HighConfidence
  {
    FamilyExactly(input, factors, age, maxAge);
    CappedTotal(factors, FamilyWeightIn(input), FamilyLoadIn(input));
    FullTotal(factors, FamilyWeightIn(input));
    FullWeightIsCritical(FamilyResult(input, factors, age, maxAge).value, TotalWeight(factors));
  }
}
