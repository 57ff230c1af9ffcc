/** Weighted risk scoring over exact reals: capped normalisation, half-even rounding, employee
    overload and the two normalised families. */
module Scoring {
  import opened Wrappers
  import opened RiskModels

  // ----- common

  function Clamp(value: real, minimum: real, maximum: real): real {
    var capped := if value <= maximum then value else maximum;
    if capped >= minimum then capped else minimum
  }

  function NormalizeCapped(value: real, cap: real): (normalized: real)
    requires cap > 0.0
    ensures 0.0 <= normalized <= 1.0
  {
    Clamp(value / cap, 0.0, 1.0)
  }

  /** Rounding to the nearest integer, halves to the even one. */
  function RoundHalfEven(x: real): int {
    var below := x.Floor;
    var rest := x - below as real;
    if rest < 0.5 then below
    else if rest > 0.5 then below + 1
    else if below % 2 == 0 then below
    else below + 1
  }

  lemma RoundIsNearest(x: real)
    ensures x - 0.5 <= RoundHalfEven(x) as real <= x + 0.5
    ensures x == RoundHalfEven(x) as real + 0.5 || x == RoundHalfEven(x) as real - 0.5 ==> RoundHalfEven(x) % 2 == 0
  {
  }

  lemma RoundIsMonotone(x: real, y: real)
    requires x <= y
    ensures RoundHalfEven(x) <= RoundHalfEven(y)
  {
  }

  lemma RoundOfInteger(n: int)
    ensures RoundHalfEven(n as real) == n
  {
  }

  /** `None` is the error for a score outside 0 to 100. */
  function RiskLevelForScore(score: int): Option<RiskLevel> {
    if !(0 <= score <= 100) then None
    else if score <= 29 then Some(Low)
    else if score <= 54 then Some(Medium)
    else if score <= 74 then Some(High)
    else Some(Critical)
  }

  lemma LevelIsMonotone(a: int, b: int)
    requires 0 <= a <= b <= 100
    ensures LevelRank(RiskLevelForScore(a).value) <= LevelRank(RiskLevelForScore(b).value)
  {
  }

  function ConfidenceForCoverage(coverage: real): ConfidenceLevel {
    if coverage >= 0.9 then HighConfidence
    else if coverage >= 0.75 then MediumConfidence
    else if coverage >= 0.6 then LowConfidence
    else InsufficientData
  }

  // ----- configuration

  datatype Direction = IncreasesRisk | InverseRisk | Protective

  datatype Factor = Factor(name: string, weight: real, direction: Direction, cap: real)

  function TotalWeight(factors: seq<Factor>): real {
    if factors == [] then 0.0 else TotalWeight(factors[..|factors| - 1]) + factors[|factors| - 1].weight
  }

  const TOLERANCE: real := 0.000000001

  /** What the configuration validators accept. */
  ghost predicate Accepted(factors: seq<Factor>) {
    && (forall f | f in factors :: 0.0 < f.weight <= 1.0 && f.cap > 0.0)
    && 1.0 - TOLERANCE <= TotalWeight(factors) <= 1.0 + TOLERANCE
  }

  // ----- contributions

  datatype Contribution = Contribution(
    name: string, rawValue: real, normalized: real, weight: real, points: real, references: seq<string>)

  /** What one factor contributes, or nothing if its value or its evidence is missing. */
  type Assessment = Factor -> Option<Contribution>

  function Contributions(factors: seq<Factor>, assess: Assessment): seq<Contribution> {
    if factors == [] then []
    else
      var last := assess(factors[|factors| - 1]);
      Contributions(factors[..|factors| - 1], assess) + if last.Some? then [last.value] else []
  }

  function Missing(factors: seq<Factor>, assess: Assessment, labelled: string -> string): seq<string> {
    if factors == [] then []
    else
      var last := factors[|factors| - 1];
      Missing(factors[..|factors| - 1], assess, labelled) + if assess(last).None? then [labelled(last.name)] else []
  }

  lemma FirstFactors(factors: seq<Factor>, i: nat, assess: Assessment, labelled: string -> string)
    requires i < |factors|
    ensures
      var next := assess(factors[i]);
      && Contributions(factors[..i + 1], assess)
           == Contributions(factors[..i], assess) + (if next.Some? then [next.value] else [])
      && Missing(factors[..i + 1], assess, labelled)
           == Missing(factors[..i], assess, labelled) + (if next.None? then [labelled(factors[i].name)] else [])
  {
    assert factors[..i + 1][..i] == factors[..i];
  }

  function Coverage(contributions: seq<Contribution>): real {
    if contributions == [] then 0.0
    else Coverage(contributions[..|contributions| - 1]) + contributions[|contributions| - 1].weight
  }

  function Points(contributions: seq<Contribution>): real {
    if contributions == [] then 0.0
    else Points(contributions[..|contributions| - 1]) + contributions[|contributions| - 1].points
  }

  lemma OneMore(contributions: seq<Contribution>, more: Contribution)
    ensures Coverage(contributions + [more]) == Coverage(contributions) + more.weight
    ensures Points(contributions + [more]) == Points(contributions) + more.points
  {
  }

  function References(contributions: seq<Contribution>): set<string> {
    set i, reference | 0 <= i < |contributions| && reference in contributions[i].references :: reference
  }

  datatype RiskResult =
    | Insufficient(missing: seq<string>, excluded: seq<string>)
    | Scored(score: int, level: RiskLevel, confidence: ConfidenceLevel, factors: seq<Contribution>,
             references: set<string>, missing: seq<string>)

  /** The result for a list of contributions; `None` is the error for a score without a level. */
  function ResultOf(contributions: seq<Contribution>, missing: seq<string>): Option<RiskResult> {
    var confidence := ConfidenceForCoverage(Coverage(contributions));
    if confidence == InsufficientData then Some(Insufficient(missing, []))
    else
      var score := RoundHalfEven(Clamp(Points(contributions), 0.0, 100.0));
      match RiskLevelForScore(score)
      case None => None
      case Some(level) =>
        Some(Scored(score, level, confidence, contributions, References(contributions), missing))
  }

  // ----- what every assessment must respect

  function PointsFor(normalized: real, weight: real): real {
    normalized * weight * 100.0
  }

  predicate Fair(factor: Factor, contribution: Contribution) {
    && contribution.weight == factor.weight
    && 0.0 <= contribution.normalized <= 1.0
    && contribution.points == PointsFor(contribution.normalized, factor.weight)
  }

  ghost predicate FairAll(factors: seq<Factor>, assess: Assessment) {
    forall f | f in factors :: assess(f).Some? ==> Fair(f, assess(f).value)
  }

  lemma PointsWithinWeight(factor: Factor, contribution: Contribution)
    requires Fair(factor, contribution) && factor.weight > 0.0
    ensures 0.0 <= contribution.points <= 100.0 * factor.weight
  {
  }

  lemma ContributionsStep(factors: seq<Factor>, assess: Assessment)
    requires factors != []
    ensures
      var shorter, last := Contributions(factors[..|factors| - 1], assess), assess(factors[|factors| - 1]);
      && Coverage(Contributions(factors, assess)) == Coverage(shorter) + (if last.Some? then last.value.weight else 0.0)
      && Points(Contributions(factors, assess)) == Points(shorter) + (if last.Some? then last.value.points else 0.0)
  {
    var shorter, last := Contributions(factors[..|factors| - 1], assess), assess(factors[|factors| - 1]);
    if last.Some? { assert (shorter + [last.value])[..|shorter|] == shorter; } else { assert shorter + [] == shorter; }
  }

  lemma {:induction false} PointsWithinCoverage(factors: seq<Factor>, assess: Assessment)
    requires FairAll(factors, assess) && forall f | f in factors :: f.weight > 0.0
    ensures 0.0 <= Points(Contributions(factors, assess)) <= 100.0 * Coverage(Contributions(factors, assess))
    ensures 0.0 <= Coverage(Contributions(factors, assess)) <= TotalWeight(factors)
  {
    if factors == [] {
    } else {
      var last := factors[|factors| - 1];
      assert last in factors && forall f | f in factors[..|factors| - 1] :: f in factors;
      PointsWithinCoverage(factors[..|factors| - 1], assess);
      ContributionsStep(factors, assess);
      if assess(last).Some? { PointsWithinWeight(last, assess(last).value); }
    }
  }

  /** For every accepted configuration the score never raises, clamping never changes it, and it is
      at most the rounded percentage of coverage; low confidence means at most 75. */
  lemma ScoreWithinCoverage(factors: seq<Factor>, assess: Assessment, missing: seq<string>)
    requires Accepted(factors) && FairAll(factors, assess)
    ensures
      var contributions := Contributions(factors, assess);
      var result := ResultOf(contributions, missing);
      && result.Some?
      && RoundHalfEven(Clamp(Points(contributions), 0.0, 100.0)) == RoundHalfEven(Points(contributions))
      && 0 <= RoundHalfEven(Points(contributions)) <= 100
      && RoundHalfEven(Points(contributions)) <= RoundHalfEven(100.0 * Coverage(contributions))
      && (result.value.Scored? && result.value.confidence == LowConfidence ==> result.value.score <= 75)
  {
    var contributions := Contributions(factors, assess);
    var points, coverage := Points(contributions), Coverage(contributions);
    PointsWithinCoverage(factors, assess);
    assert points <= 100.0 + 100.0 * TOLERANCE;
    RoundIsMonotone(points, 100.0 * coverage);
    RoundIsMonotone(0.0, points);
    assert RoundHalfEven(100.0 + 100.0 * TOLERANCE) == 100 by { assert (100.0 + 100.0 * TOLERANCE).Floor == 100; }
    RoundIsMonotone(points, 100.0 + 100.0 * TOLERANCE);
    RoundOfInteger(0);
    RoundOfInteger(100);
    if points > 100.0 { RoundIsMonotone(100.0, points); }
    if coverage < 0.75 {
      RoundIsMonotone(100.0 * coverage, 75.0);
      RoundOfInteger(75);
    }
  }

  // ----- comparing two assessments

  /** Factor by factor, `low` has no evidence or no more points than `high`. */
  predicate Below(low: Option<Contribution>, high: Option<Contribution>) {
    low.Some? ==> high.Some? && low.value.weight == high.value.weight && low.value.points <= high.value.points
  }

  lemma {:induction false} BelowInTotal(factors: seq<Factor>, low: Assessment, high: Assessment)
    requires FairAll(factors, low) && FairAll(factors, high)
    requires forall f | f in factors :: f.weight > 0.0 && Below(low(f), high(f))
    ensures Points(Contributions(factors, low)) <= Points(Contributions(factors, high))
    ensures Coverage(Contributions(factors, low)) <= Coverage(Contributions(factors, high))
    ensures (forall f | f in factors :: low(f).Some? == high(f).Some?) ==>
      Coverage(Contributions(factors, low)) == Coverage(Contributions(factors, high))
  {
    if factors == [] {
    } else {
      var last := factors[|factors| - 1];
      assert last in factors && forall f | f in factors[..|factors| - 1] :: f in factors;
      BelowInTotal(factors[..|factors| - 1], low, high);
      ContributionsStep(factors, low);
      ContributionsStep(factors, high);
      if high(last).Some? { PointsWithinWeight(last, high(last).value); }
    }
  }

  /** Less in every factor never means more in the result: neither the score, nor the level, nor
      the confidence; and with the same evidence both are scored or neither is. */
  lemma BelowInResult(factors: seq<Factor>, low: Assessment, high: Assessment,
                      missingLow: seq<string>, missingHigh: seq<string>)
    requires Accepted(factors) && FairAll(factors, low) && FairAll(factors, high)
    requires forall f | f in factors :: Below(low(f), high(f))
    ensures
      var l, h := ResultOf(Contributions(factors, low), missingLow),
                  ResultOf(Contributions(factors, high), missingHigh);
      && l.Some? && h.Some?
      && (l.value.Scored? ==>
            && h.value.Scored?
            && l.value.score <= h.value.score
            && LevelRank(l.value.level) <= LevelRank(h.value.level)
            && ConfidenceRank(l.value.confidence) <= ConfidenceRank(h.value.confidence))
      && ((forall f | f in factors :: low(f).Some? == high(f).Some?) ==>
            (l.value.Scored? <==> h.value.Scored?)
            && (l.value.Scored? ==> l.value.confidence == h.value.confidence))
  {
    BelowInTotal(factors, low, high);
    ScoreWithinCoverage(factors, low, missingLow);
    ScoreWithinCoverage(factors, high, missingHigh);
    var p, q := Points(Contributions(factors, low)), Points(Contributions(factors, high));
    RoundIsMonotone(p, q);
    LevelIsMonotone(RoundHalfEven(p), RoundHalfEven(q));
  }

  // ----- employee overload

  datatype OverloadInput = OverloadInput(
    remainingHours: Option<real>,
    capacityHours: Option<real>,
    overdue: Option<nat>,
    blocked: Option<nat>,
    highPriority: Option<nat>,
    dueSoon: Option<nat>,
    active: Option<nat>,
    projects: Option<nat>,
    stale: Option<nat>,
    references: map<string, seq<string>>)

  /** What the input model accepts. */
  predicate ValidInput(input: OverloadInput) {
    && (input.remainingHours.Some? ==> input.remainingHours.value >= 0.0)
    && (input.capacityHours.Some? ==> input.capacityHours.value > 0.0)
  }

  function Number(count: Option<nat>): Option<real> {
    if count.Some? then Some(count.value as real) else None
  }

  function RawValue(input: OverloadInput, name: string): Option<real>
    requires ValidInput(input)
  {
    if name == "utilization" then
      if input.remainingHours.Some? && input.capacityHours.Some?
      then Some(input.remainingHours.value / input.capacityHours.value) else None
    else if name == "overdue_work" then Number(input.overdue)
    else if name == "blocked_work" then Number(input.blocked)
    else if name == "priority_load" then Number(input.highPriority)
    else if name == "due_soon_load" then Number(input.dueSoon)
    else if name == "active_task_count" then Number(input.active)
    else if name == "concurrent_projects" then Number(input.projects)
    else if name == "stale_work" then Number(input.stale)
    else None
  }

  function InputLabel(name: string): string {
    if name == "overdue_work" then "overdue_tasks"
    else if name == "blocked_work" then "blocked_or_blocking_tasks"
    else if name == "priority_load" then "urgent_high_priority_tasks"
    else if name == "due_soon_load" then "due_soon_tasks"
    else if name == "active_task_count" then "active_tasks"
    else if name == "concurrent_projects" then "concurrent_projects"
    else if name == "stale_work" then "stale_tasks"
    else name
  }

  function ReferencesFor(references: map<string, seq<string>>, name: string): seq<string> {
    if name in references then references[name] else []
  }

  function AssessOverload(input: OverloadInput, factor: Factor): Option<Contribution>
    requires ValidInput(input)
  {
    var raw, references := RawValue(input, factor.name), ReferencesFor(input.references, factor.name);
    if raw.None? || references == [] || factor.cap <= 0.0 then None
    else
      var normalized := NormalizeCapped(raw.value, factor.cap);
      Some(Contribution(factor.name, raw.value, normalized, factor.weight,
                        PointsFor(normalized, factor.weight), references))
  }

  function OverloadAssessment(input: OverloadInput): Assessment
    requires ValidInput(input)
  {
    factor => AssessOverload(input, factor)
  }

  function MissingMandatory(input: OverloadInput): seq<string> {
    (if input.remainingHours.None? then ["remaining_estimated_hours"] else [])
    + (if input.capacityHours.None? then ["available_capacity_hours"] else [])
  }

  function OverloadResult(input: OverloadInput, factors: seq<Factor>, ageHours: real, maxAgeHours: real)
    : Option<RiskResult>
    requires ValidInput(input)
  {
    if MissingMandatory(input) != [] then Some(Insufficient(MissingMandatory(input), []))
    else if ageHours > maxAgeHours then Some(Insufficient([], ["stale_evidence"]))
    else
      var assess := OverloadAssessment(input);
      ResultOf(Contributions(factors, assess), Missing(factors, assess, InputLabel))
  }

  method ScoreEmployeeOverload(input: OverloadInput, factors: seq<Factor>, ageHours: real, maxAgeHours: real)
    returns (result: RiskResult)
    requires ValidInput(input) && Accepted(factors)
    ensures OverloadResult(input, factors, ageHours, maxAgeHours) == Some(result)
  {
    var mandatory := MissingMandatory(input);
    if mandatory != [] {
      return Insufficient(mandatory, []);
    }
    if ageHours > maxAgeHours {
      return Insufficient([], ["stale_evidence"]);
    }
    ghost var assess := OverloadAssessment(input);
    var contributions: seq<Contribution>, missing: seq<string>, coverage, raw := [], [], 0.0, 0.0;
    for i := 0 to |factors|
      invariant contributions == Contributions(factors[..i], assess)
      invariant missing == Missing(factors[..i], assess, InputLabel)
      invariant coverage == Coverage(contributions) && raw == Points(contributions)
    {
      var factor := factors[i];
      assert factor in factors;
      FirstFactors(factors, i, assess, InputLabel);
      var value, references := RawValue(input, factor.name), ReferencesFor(input.references, factor.name);
      if value.None? || references == [] {
        missing := missing + [InputLabel(factor.name)];
      } else {
        var normalized := NormalizeCapped(value.value, factor.cap);
        var contribution := Contribution(factor.name, value.value, normalized, factor.weight,
                                         PointsFor(normalized, factor.weight), references);
        assert assess(factor) == AssessOverload(input, factor) == Some(contribution);
        OneMore(contributions, contribution);
        coverage := coverage + factor.weight;
        raw := raw + contribution.points;
        contributions := contributions + [contribution];
      }
    }
    assert factors[..|factors|] == factors;
    OverloadIsFair(input, factors);
    ScoreWithinCoverage(factors, assess, missing);
    var confidence := ConfidenceForCoverage(coverage);
    if confidence == InsufficientData {
      return Insufficient(missing, []);
    }
    var score := RoundHalfEven(Clamp(raw, 0.0, 100.0));
    return Scored(score, RiskLevelForScore(score).value, confidence, contributions, References(contributions), missing);
  }

  lemma OverloadIsFair(input: OverloadInput, factors: seq<Factor>)
    requires ValidInput(input)
    ensures FairAll(factors, OverloadAssessment(input))
  {
  }

  // ----- overload: monotone in the load

  predicate CountRose(before: Option<nat>, after: Option<nat>) {
    before.Some? == after.Some? && (before.Some? ==> before.value <= after.value)
  }

  /** The same evidence with every load value as high or higher, and capacity as low or lower. */
  predicate LoadRose(before: OverloadInput, after: OverloadInput) {
    && ValidInput(before) && ValidInput(after)
    && before.references == after.references
    && before.remainingHours.Some? == after.remainingHours.Some?
    && (before.remainingHours.Some? ==> before.remainingHours.value <= after.remainingHours.value)
    && before.capacityHours.Some? == after.capacityHours.Some?
    && (before.capacityHours.Some? ==> before.capacityHours.value >= after.capacityHours.value)
    && CountRose(before.overdue, after.overdue) && CountRose(before.blocked, after.blocked)
    && CountRose(before.highPriority, after.highPriority) && CountRose(before.dueSoon, after.dueSoon)
    && CountRose(before.active, after.active) && CountRose(before.projects, after.projects)
    && CountRose(before.stale, after.stale)
  }

  lemma QuotientRises(a: real, c: real, b: real, d: real)
    requires 0.0 <= a <= b && c >= d > 0.0
    ensures a / c <= b / d
  {
  }

  lemma NormalizedRises(a: real, b: real, cap: real)
    requires a <= b && cap > 0.0
    ensures NormalizeCapped(a, cap) <= NormalizeCapped(b, cap)
  {
  }

  lemma PointsRise(a: real, b: real, weight: real)
    requires a <= b && weight > 0.0
    ensures PointsFor(a, weight) <= PointsFor(b, weight)
  {
  }

  lemma RawRises(before: OverloadInput, after: OverloadInput, name: string)
    requires LoadRose(before, after)
    ensures RawValue(before, name).Some? == RawValue(after, name).Some?
    ensures RawValue(before, name).Some? ==> RawValue(before, name).value <= RawValue(after, name).value
  {
    if name == "utilization" && RawValue(before, name).Some? {
      QuotientRises(before.remainingHours.value, before.capacityHours.value,
                    after.remainingHours.value, after.capacityHours.value);
    }
  }

  lemma FactorRises(before: OverloadInput, after: OverloadInput, factor: Factor)
    requires LoadRose(before, after) && factor.weight > 0.0 && factor.cap > 0.0
    ensures Below(AssessOverload(before, factor), AssessOverload(after, factor))
    ensures AssessOverload(before, factor).Some? == AssessOverload(after, factor).Some?
  {
    RawRises(before, after, factor.name);
    var low, high := RawValue(before, factor.name), RawValue(after, factor.name);
    if low.Some? {
      NormalizedRises(low.value, high.value, factor.cap);
      PointsRise(NormalizeCapped(low.value, factor.cap), NormalizeCapped(high.value, factor.cap), factor.weight);
    }
  }

  /** Raising any load value or lowering capacity never lowers the score or the level. */
  lemma MoreLoadMoreRisk(before: OverloadInput, after: OverloadInput, factors: seq<Factor>, age: real, maxAge: real)
    requires LoadRose(before, after) && Accepted(factors)
    ensures
      var low, high := OverloadResult(before, factors, age, maxAge), OverloadResult(after, factors, age, maxAge);
      && low.Some? && high.Some?
      && (low.value.Scored? <==> high.value.Scored?)
      && (low.value.Scored? ==>
            && low.value.score <= high.value.score
            && LevelRank(low.value.level) <= LevelRank(high.value.level)
            && low.value.confidence == high.value.confidence)
  {
    var low, high := OverloadAssessment(before), OverloadAssessment(after);
    OverloadIsFair(before, factors);
    OverloadIsFair(after, factors);
    forall f | f in factors
      ensures Below(low(f), high(f)) && low(f).Some? == high(f).Some?
    {
      FactorRises(before, after, f);
    }
    BelowInResult(factors, low, high, Missing(factors, low, InputLabel), Missing(factors, high, InputLabel));
  }

  /** Removing the evidence of a factor never raises the score or the confidence, while the
      employee is still scored. */
  lemma LessEvidenceLessRisk(input: OverloadInput, name: string, factors: seq<Factor>, age: real, maxAge: real)
    requires ValidInput(input) && Accepted(factors)
    ensures
      var without := input.(references := input.references[name := []]);
      var high, low := OverloadResult(input, factors, age, maxAge), OverloadResult(without, factors, age, maxAge);
      && high.Some? && low.Some?
      && (low.value.Scored? ==>
            && high.value.Scored?
            && low.value.score <= high.value.score
            && ConfidenceRank(low.value.confidence) <= ConfidenceRank(high.value.confidence))
  {
    var without := input.(references := input.references[name := []]);
    var low, high := OverloadAssessment(without), OverloadAssessment(input);
    OverloadIsFair(input, factors);
    OverloadIsFair(without, factors);
    forall f | f in factors
      ensures Below(low(f), high(f))
    {
      if f.name != name { assert ReferencesFor(without.references, f.name) == ReferencesFor(input.references, f.name); }
    }
    BelowInResult(factors, low, high, Missing(factors, low, InputLabel), Missing(factors, high, InputLabel));
  }

  // ----- normalised families

  datatype FamilyInput = FamilyInput(values: map<string, Option<real>>, references: map<string, seq<string>>)

  function FamilyValue(input: FamilyInput, name: string): Option<real> {
    if name in input.values then input.values[name] else None
  }

  function RiskValue(direction: Direction, value: real): real {
    if direction == IncreasesRisk then value else 1.0 - value
  }

  function AssessFamily(input: FamilyInput, factor: Factor): Option<Contribution> {
    var value, references := FamilyValue(input, factor.name), ReferencesFor(input.references, factor.name);
    if value.None? || references == [] then None
    else
      var risk := RiskValue(factor.direction, value.value);
      Some(Contribution(factor.name, value.value, risk, factor.weight, PointsFor(risk, factor.weight), references))
  }

  function OwnLabel(name: string): string {
    name
  }

  function FamilyAssessment(input: FamilyInput): Assessment {
    factor => AssessFamily(input, factor)
  }

  /** A contribution outside 0 to 1 is refused by its model. */
  predicate FamilyFits(input: FamilyInput, factors: seq<Factor>) {
    forall f | f in factors :: AssessFamily(input, f).Some? ==> 0.0 <= AssessFamily(input, f).value.normalized <= 1.0
  }

  /** `None` is the error of a refused contribution. */
  function FamilyResult(input: FamilyInput, factors: seq<Factor>, age: real, maxAge: real): Option<RiskResult> {
    if age > maxAge then Some(Insufficient([], ["stale_evidence"]))
    else if !FamilyFits(input, factors) then None
    else
      var assess := FamilyAssessment(input);
      ResultOf(Contributions(factors, assess), Missing(factors, assess, OwnLabel))
  }

  lemma FitsOneMore(input: FamilyInput, factors: seq<Factor>, i: nat)
    requires i < |factors|
    ensures
      var next := AssessFamily(input, factors[i]);
      FamilyFits(input, factors[..i + 1]) <==>
        FamilyFits(input, factors[..i]) && (next.Some? ==> 0.0 <= next.value.normalized <= 1.0)
    ensures FamilyFits(input, factors) ==> FamilyFits(input, factors[..i + 1])
  {
    assert factors[..i + 1] == factors[..i] + [factors[i]];
  }

  method ScoreNormalizedFamily(input: FamilyInput, factors: seq<Factor>, age: real, maxAge: real)
    returns (result: Option<RiskResult>)
    requires Accepted(factors)
    ensures result == FamilyResult(input, factors, age, maxAge)
    ensures result.None? ==> !FamilyFits(input, factors)
  {
    if age > maxAge {
      return Some(Insufficient([], ["stale_evidence"]));
    }
    ghost var assess := FamilyAssessment(input);
    var contributions: seq<Contribution>, missing: seq<string>, coverage := [], [], 0.0;
    for i := 0 to |factors|
      invariant contributions == Contributions(factors[..i], assess)
      invariant missing == Missing(factors[..i], assess, OwnLabel)
      invariant coverage == Coverage(contributions)
      invariant FamilyFits(input, factors[..i])
    {
      var factor := factors[i];
      FitsOneMore(input, factors, i);
      FirstFactors(factors, i, assess, OwnLabel);
      var contribution := AssessFamily(input, factor);
      if contribution.None? {
        missing := missing + [factor.name];
      } else {
        if !(0.0 <= contribution.value.normalized <= 1.0) {
          return None;
        }
        OneMore(contributions, contribution.value);
        coverage := coverage + factor.weight;
        contributions := contributions + [contribution.value];
      }
    }
    assert factors[..|factors|] == factors;
    ScoreWithinCoverage(factors, assess, missing);
    var confidence := ConfidenceForCoverage(coverage);
    if confidence == InsufficientData {
      return Some(Insufficient(missing, []));
    }
    var score := RoundHalfEven(Clamp(Points(contributions), 0.0, 100.0));
    return Some(Scored(score, RiskLevelForScore(score).value, confidence, contributions,
                       References(contributions), missing));
  }

  /** `after` is at least as risky as `before` in one factor's own direction. */
  predicate RiskRose(direction: Direction, before: Option<real>, after: Option<real>) {
    && before.Some? == after.Some?
    && (before.Some? ==> RiskValue(direction, before.value) <= RiskValue(direction, after.value))
  }

  /** With the same evidence, a rise in a risk value or a fall in an inverse or protective one never
      lowers the family's score or level. */
  lemma FamilyMoreRisk(before: FamilyInput, after: FamilyInput, factors: seq<Factor>, age: real, maxAge: real)
    requires Accepted(factors) && FamilyFits(before, factors) && FamilyFits(after, factors)
    requires before.references == after.references
    requires forall f | f in factors :: RiskRose(f.direction, FamilyValue(before, f.name), FamilyValue(after, f.name))
    ensures
      var low, high := FamilyResult(before, factors, age, maxAge), FamilyResult(after, factors, age, maxAge);
      && low.Some? && high.Some?
      && (low.value.Scored? <==> high.value.Scored?)
      && (low.value.Scored? ==>
            low.value.score <= high.value.score && LevelRank(low.value.level) <= LevelRank(high.value.level))
  {
    var low, high := FamilyAssessment(before), FamilyAssessment(after);
    forall f | f in factors
      ensures Below(low(f), high(f)) && low(f).Some? == high(f).Some?
    {
      if low(f).Some? {
        PointsRise(RiskValue(f.direction, FamilyValue(before, f.name).value),
                   RiskValue(f.direction, FamilyValue(after, f.name).value), f.weight);
      }
    }
    BelowInResult(factors, low, high, Missing(factors, low, OwnLabel), Missing(factors, high, OwnLabel));
  }
}
