/** Candidate assessment and ordering, and the what-if simulation built on it. */
module Simulation {
  import opened Wrappers
  import opened RiskModels
  import opened StableSort
  import Scoring

  /** The part of a risk result the simulation uses; `material` stands for all of it. */
  datatype Risk = Risk(score: Option<int>, confidence: ConfidenceLevel, version: string, material: string)

  datatype Candidate = Candidate(
    employeeId: string,
    jiraAccount: Option<string>,
    hasProjectAccess: bool,
    overload: Risk,
    taskFit: Risk,
    project: Risk)

  datatype Assessment = Assessment(employeeId: string, eligible: bool, reasons: seq<string>, ranking: Option<real>)

  // ----- one candidate

  predicate Confident(risk: Risk) {
    risk.confidence in {MediumConfidence, HighConfidence}
  }

  predicate NoAccess(c: Candidate) {
    c.jiraAccount.None? || !c.hasProjectAccess
  }

  predicate LowConfidenceIn(c: Candidate) {
    !(Confident(c.overload) && Confident(c.taskFit) && Confident(c.project))
  }

  predicate Incomplete(c: Candidate) {
    c.overload.score.None? || c.taskFit.score.None? || c.project.score.None?
  }

  predicate Overloaded(c: Candidate) {
    c.overload.score.Some? && c.overload.score.value >= 75
  }

  predicate Eligible(c: Candidate) {
    !NoAccess(c) && !LowConfidenceIn(c) && !Incomplete(c) && !Overloaded(c)
  }

  /** Half the fit, three tenths of the load, two tenths of the project, to two decimals. */
  function Ranking(taskFit: int, overload: int, project: int): real {
    var mean := taskFit as real * 0.5 + overload as real * 0.3 + project as real * 0.2;
    Scoring.RoundHalfEven(mean * 100.0) as real / 100.0
  }

  function Reasons(c: Candidate): (reasons: seq<string>)
    ensures reasons == [] <==> Eligible(c)
  {
    (if NoAccess(c) then ["jira_access_unavailable"] else [])
    + (if LowConfidenceIn(c) then ["confidence_below_minimum"] else [])
    + (if Incomplete(c) then ["incomplete_structured_evidence"] else [])
    + (if Overloaded(c) then ["candidate_overloaded"] else [])
  }

  function Assess(c: Candidate): (a: Assessment)
    ensures a.employeeId == c.employeeId
    ensures a.eligible <==> Eligible(c)
    ensures a.eligible <==> a.ranking.Some?
    ensures a.eligible <==> a.reasons == []
  {
    var reasons := Reasons(c);
    if reasons != [] then Assessment(c.employeeId, false, reasons, None)
    else Assessment(c.employeeId, true, [],
                    Some(Ranking(c.taskFit.score.value, c.overload.score.value, c.project.score.value)))
  }

  method CollectReasons(c: Candidate) returns (reasons: seq<string>)
    ensures reasons == Reasons(c)
  {
    reasons := [];
    if c.jiraAccount.None? || !c.hasProjectAccess {
      reasons := reasons + ["jira_access_unavailable"];
    }
    if !Confident(c.overload) || !Confident(c.taskFit) || !Confident(c.project) {
      reasons := reasons + ["confidence_below_minimum"];
    }
    if c.overload.score.None? || c.taskFit.score.None? || c.project.score.None? {
      reasons := reasons + ["incomplete_structured_evidence"];
    }
    if c.overload.score.Some? && c.overload.score.value >= 75 {
      reasons := reasons + ["candidate_overloaded"];
    }
  }

  method AssessCandidate(c: Candidate) returns (a: Assessment)
    ensures a == Assess(c)
  {
    var reasons := CollectReasons(c);
    if reasons != [] {
      return Assessment(c.employeeId, false, reasons, None);
    }
    var ranking := Ranking(c.taskFit.score.value, c.overload.score.value, c.project.score.value);
    return Assessment(c.employeeId, true, [], Some(ranking));
  }

  // ----- the sort key

  function StringLess(a: string, b: string): bool {
    if b == "" then false
    else if a == "" then true
    else if a[0] != b[0] then a[0] < b[0]
    else StringLess(a[1..], b[1..])
  }

  lemma {:induction false} StringTrichotomy(a: string, b: string)
    ensures StringLess(a, b) ==> !StringLess(b, a)
    ensures a != b ==> StringLess(a, b) || StringLess(b, a)
    decreases |a|
  {
    if a != "" && b != "" && a[0] == b[0] {
      StringTrichotomy(a[1..], b[1..]);
      assert a == [a[0]] + a[1..] && b == [b[0]] + b[1..];
    }
  }

  lemma {:induction false} StringTransitive(a: string, b: string, c: string)
    requires StringLess(a, b) && StringLess(b, c)
    ensures StringLess(a, c)
    decreases |a|
  {
    if a != "" && a[0] == b[0] == c[0] {
      StringTransitive(a[1..], b[1..], c[1..]);
    }
  }

  /** Not eligible after eligible, then the ranking with a missing one as infinity, then the name. */
  predicate KeyLess(a: Assessment, b: Assessment) {
    if a.eligible != b.eligible then a.eligible
    else if a.ranking.Some? && b.ranking.Some? && a.ranking.value != b.ranking.value then
      a.ranking.value < b.ranking.value
    else if a.ranking.Some? != b.ranking.Some? then a.ranking.Some?
    else StringLess(a.employeeId, b.employeeId)
  }

  lemma KeyIsAnOrder()
    ensures StrictWeakOrder(KeyLess)
  {
    forall a: Assessment, b: Assessment | KeyLess(a, b)
      ensures !KeyLess(b, a)
    {
      StringTrichotomy(a.employeeId, b.employeeId);
    }
    forall a: Assessment, b: Assessment, c: Assessment | !KeyLess(b, a) && !KeyLess(c, b)
      ensures !KeyLess(c, a)
    {
      KeyChain(a, b, c);
    }
  }

  lemma KeyChain(a: Assessment, b: Assessment, c: Assessment)
    requires !KeyLess(b, a) && !KeyLess(c, b)
    ensures !KeyLess(c, a)
  {
    var x, y, z := a.employeeId, b.employeeId, c.employeeId;
    StringTrichotomy(x, y);
    StringTrichotomy(y, z);
    StringTrichotomy(x, z);
    if StringLess(x, y) && StringLess(y, z) { StringTransitive(x, y, z); }
  }

  /** The ranking is the weighted mean to the nearest hundredth, and rises with each score. */
  lemma RankingIsNearest(taskFit: int, overload: int, project: int)
    ensures
      var exact := taskFit as real * 0.5 + overload as real * 0.3 + project as real * 0.2;
      exact - 0.005 <= Ranking(taskFit, overload, project) <= exact + 0.005
  {
    Scoring.RoundIsNearest((taskFit as real * 0.5 + overload as real * 0.3 + project as real * 0.2) * 100.0);
  }

  lemma RankingRises(f: int, o: int, p: int, f': int, o': int, p': int)
    requires f <= f' && o <= o' && p <= p'
    ensures Ranking(f, o, p) <= Ranking(f', o', p')
  {
    Scoring.RoundIsMonotone((f as real * 0.5 + o as real * 0.3 + p as real * 0.2) * 100.0,
                            (f' as real * 0.5 + o' as real * 0.3 + p' as real * 0.2) * 100.0);
  }

  /** An eligible candidate with no score above another's comes behind it only by name, after equal
      rankings. */
  lemma LessRiskComesFirst(c: Candidate, d: Candidate)
    requires Eligible(c) && Eligible(d)
    requires c.taskFit.score.value <= d.taskFit.score.value
    requires c.overload.score.value <= d.overload.score.value
    requires c.project.score.value <= d.project.score.value
    ensures KeyLess(Assess(d), Assess(c)) ==>
      Assess(c).ranking == Assess(d).ranking && StringLess(d.employeeId, c.employeeId)
  {
    RankingRises(c.taskFit.score.value, c.overload.score.value, c.project.score.value,
                 d.taskFit.score.value, d.overload.score.value, d.project.score.value);
  }

  // ----- all candidates

  function AssessAll(candidates: seq<Candidate>): (assessments: seq<Assessment>)
    ensures |assessments| == |candidates|
    ensures forall i | 0 <= i < |candidates| :: assessments[i] == Assess(candidates[i])
  {
    if candidates == [] then [] else [Assess(candidates[0])] + AssessAll(candidates[1..])
  }

  function SelectCandidates(candidates: seq<Candidate>): seq<Assessment> {
    Sorted(AssessAll(candidates), KeyLess)
  }

  ghost predicate DistinctIds(candidates: seq<Candidate>) {
    forall i, j | 0 <= i < j < |candidates| :: candidates[i].employeeId != candidates[j].employeeId
  }

  /** A permutation of the assessments with the eligible ones first, those by rising ranking. */
  lemma SelectionIsRanked(candidates: seq<Candidate>)
    ensures multiset(SelectCandidates(candidates)) == multiset(AssessAll(candidates))
    ensures
      var selected := SelectCandidates(candidates);
      forall i, j | 0 <= i < j < |selected| ::
        && !KeyLess(selected[j], selected[i])
        && (selected[j].eligible ==>
              && selected[i].eligible && selected[i].ranking.Some? && selected[j].ranking.Some?
              && selected[i].ranking.value <= selected[j].ranking.value)
  {
    KeyIsAnOrder();
    SortedIsSorted(AssessAll(candidates), KeyLess);
    var selected := SelectCandidates(candidates);
    forall i | 0 <= i < |selected|
      ensures selected[i].eligible <==> selected[i].ranking.Some?
    {
      assert selected[i] in multiset(AssessAll(candidates));
    }
    forall i, j | 0 <= i < j < |selected| && selected[j].eligible
      ensures selected[i].eligible && selected[i].ranking.value <= selected[j].ranking.value
    {
      RankedInOrder(selected[i], selected[j]);
    }
  }

  lemma RankedInOrder(a: Assessment, b: Assessment)
    requires !KeyLess(b, a) && b.eligible
    requires (a.eligible <==> a.ranking.Some?) && (b.eligible <==> b.ranking.Some?)
    ensures a.eligible && a.ranking.value <= b.ranking.value
  {
  }

  function Without<T>(xs: seq<T>, i: nat): (rest: seq<T>)
    requires i < |xs|
    ensures |rest| == |xs| - 1
    ensures forall j | 0 <= j < |rest| :: rest[j] == xs[if j < i then j else j + 1]
  {
    xs[..i] + xs[i + 1..]
  }

  lemma WithoutRemoves<T>(xs: seq<T>, i: nat)
    requires i < |xs|
    ensures multiset(xs) == multiset(Without(xs, i)) + multiset{xs[i]}
  {
    assert xs == xs[..i] + [xs[i]] + xs[i + 1..];
  }

  lemma AssessWithout(candidates: seq<Candidate>, i: nat)
    requires i < |candidates|
    ensures AssessAll(Without(candidates, i)) == Without(AssessAll(candidates), i)
  {
  }

  lemma {:induction false} AssessAllPermutes(a: seq<Candidate>, b: seq<Candidate>)
    requires multiset(a) == multiset(b)
    ensures multiset(AssessAll(a)) == multiset(AssessAll(b))
  {
    assert |multiset(a)| == |a| && |multiset(b)| == |b|;
    if a == [] {
    } else {
      assert a[0] in multiset(b);
      var i :| 0 <= i < |b| && b[i] == a[0];
      WithoutRemoves(a, 0);
      WithoutRemoves(b, i);
      assert multiset(Without(a, 0)) == multiset(a) - multiset{a[0]} == multiset(Without(b, i));
      AssessAllPermutes(Without(a, 0), Without(b, i));
      AssessWithout(a, 0);
      AssessWithout(b, i);
      WithoutRemoves(AssessAll(a), 0);
      WithoutRemoves(AssessAll(b), i);
    }
  }

  lemma NoTies(candidates: seq<Candidate>, x: Assessment, y: Assessment)
    requires DistinctIds(candidates) && x in AssessAll(candidates) && y in AssessAll(candidates) && x != y
    ensures KeyLess(x, y) || KeyLess(y, x)
  {
    var assessments := AssessAll(candidates);
    var i :| 0 <= i < |candidates| && assessments[i] == x;
    var j :| 0 <= j < |candidates| && assessments[j] == y;
    assert candidates[i].employeeId == x.employeeId && candidates[j].employeeId == y.employeeId;
    StringTrichotomy(x.employeeId, y.employeeId);
  }

  /** With distinct identifiers the selection does not depend on the order of the input. */
  lemma SelectionIgnoresOrder(a: seq<Candidate>, b: seq<Candidate>)
    requires multiset(a) == multiset(b) && DistinctIds(a)
    ensures SelectCandidates(a) == SelectCandidates(b)
  {
    KeyIsAnOrder();
    AssessAllPermutes(a, b);
    SortedIsSorted(AssessAll(a), KeyLess);
    SortedIsSorted(AssessAll(b), KeyLess);
    var s := SelectCandidates(a);
    forall x, y | x in s && y in s && x != y
      ensures KeyLess(x, y) || KeyLess(y, x)
    {
      assert x in multiset(AssessAll(a)) && y in multiset(AssessAll(a));
      NoTies(a, x, y);
    }
    OrderedIsUnique(s, SelectCandidates(b), KeyLess);
  }

  // ----- simulation

  datatype Families = Families(overload: Risk, taskFit: Risk, project: Risk)

  datatype Material = Material(
    taskId: string, currentAssignee: string, proposedAssignee: string, candidateIds: seq<string>,
    current: Families, proposed: Families)

  datatype Outcome = Outcome(material: Material, fingerprint: string)

  datatype SimulationError = NotEligible | VersionMismatch

  function EligibleIds(assessments: seq<Assessment>): seq<string> {
    if assessments == [] then []
    else (if assessments[0].eligible then [assessments[0].employeeId] else []) + EligibleIds(assessments[1..])
  }

  /** The first candidate with the identifier. */
  function FindCandidate(candidates: seq<Candidate>, id: string): (found: Option<Candidate>)
    ensures found.Some? ==> found.value in candidates && found.value.employeeId == id
    ensures found.None? ==> forall c | c in candidates :: c.employeeId != id
  {
    if candidates == [] then None
    else if candidates[0].employeeId == id then Some(candidates[0])
    else FindCandidate(candidates[1..], id)
  }

  predicate SameVersions(a: Families, b: Families) {
    && a.overload.version == b.overload.version
    && a.taskFit.version == b.taskFit.version
    && a.project.version == b.project.version
  }

  function SimulateReassignment(hash: Material -> string, taskId: string, currentAssignee: string,
                                candidates: seq<Candidate>, selectedId: string, current: Families)
    : Result<Outcome, SimulationError>
  {
    var eligibleIds := EligibleIds(SelectCandidates(candidates));
    var selected := FindCandidate(candidates, selectedId);
    if selected.None? || selectedId !in eligibleIds then Raises(NotEligible)
    else
      var proposed := Families(selected.value.overload, selected.value.taskFit, selected.value.project);
      var material := Material(taskId, currentAssignee, selectedId, eligibleIds, current, proposed);
      if !SameVersions(current, proposed) then Raises(VersionMismatch)
      else Returned(Outcome(material, hash(material)))
  }

  lemma {:induction false} EligibleIdsAreEligible(assessments: seq<Assessment>, id: string)
    ensures id in EligibleIds(assessments) <==> exists a :: a in assessments && a.eligible && a.employeeId == id
  {
    if assessments == [] {
    } else {
      EligibleIdsAreEligible(assessments[1..], id);
      assert assessments == [assessments[0]] + assessments[1..];
    }
  }

  lemma {:induction false} FindIgnoresOrder(a: seq<Candidate>, b: seq<Candidate>, id: string)
    requires multiset(a) == multiset(b) && DistinctIds(a)
    ensures FindCandidate(a, id) == FindCandidate(b, id)
  {
    var x, y := FindCandidate(a, id), FindCandidate(b, id);
    if x.Some? {
      assert x.value in multiset(b);
      assert x.value in b;
      assert y.Some? && y.value in multiset(a);
      var i :| 0 <= i < |a| && a[i] == x.value;
      var j :| 0 <= j < |a| && a[j] == y.value;
    } else {
      forall c | c in b
        ensures c.employeeId != id
      {
        assert c in multiset(a);
      }
    }
  }

  /** The whole result, fingerprint included, is unchanged by any reordering of the candidates. */
  lemma SimulationIgnoresOrder(hash: Material -> string, taskId: string, currentAssignee: string,
                               a: seq<Candidate>, b: seq<Candidate>, selectedId: string, current: Families)
    requires multiset(a) == multiset(b) && DistinctIds(a)
    ensures SimulateReassignment(hash, taskId, currentAssignee, a, selectedId, current)
         == SimulateReassignment(hash, taskId, currentAssignee, b, selectedId, current)
  {
    SelectionIgnoresOrder(a, b);
    FindIgnoresOrder(a, b, selectedId);
  }

  /** A simulation is returned exactly for an eligible candidate scored by the same versions, and
      then carries that candidate's own scores. */
  lemma ProposedIsEligible(hash: Material -> string, taskId: string, currentAssignee: string,
                           candidates: seq<Candidate>, selectedId: string, current: Families)
    requires DistinctIds(candidates)
    ensures
      var result := SimulateReassignment(hash, taskId, currentAssignee, candidates, selectedId, current);
      && (result.Returned? <==>
            exists c :: c in candidates && c.employeeId == selectedId && Eligible(c)
              && SameVersions(current, Families(c.overload, c.taskFit, c.project)))
      && (result.Returned? ==>
            && result.value.material.proposedAssignee == selectedId
            && selectedId in result.value.material.candidateIds)
  {
    var assessments := SelectCandidates(candidates);
    SelectionIsRanked(candidates);
    EligibleIdsAreEligible(assessments, selectedId);
    var found := FindCandidate(candidates, selectedId);
    forall c | c in candidates && c.employeeId == selectedId
      ensures found == Some(c)
    {
      var i :| 0 <= i < |candidates| && candidates[i] == c;
      var j :| 0 <= j < |candidates| && candidates[j] == found.value;
    }
    if found.Some? {
      var i :| 0 <= i < |candidates| && candidates[i] == found.value;
      assert AssessAll(candidates)[i] in multiset(AssessAll(candidates));
      assert AssessAll(candidates)[i] in assessments;
      forall a | a in assessments && a.employeeId == selectedId
        ensures a == Assess(found.value)
      {
        assert a in multiset(AssessAll(candidates));
        var k :| 0 <= k < |candidates| && AssessAll(candidates)[k] == a;
        assert candidates[k] in candidates;
      }
    }
  }
}
