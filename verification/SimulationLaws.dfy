/** Candidate assessments and simulations, told from the candidates. */
module SimulationLaws {
  import opened Wrappers
  import opened RiskModels
  import opened StableSort
  import opened Simulation
  import Scoring

  // ----- one candidate

  const REASONS: seq<string> := [
    "jira_access_unavailable", "confidence_below_minimum", "incomplete_structured_evidence", "candidate_overloaded"]

  predicate Weak(risk: Risk) {
    risk.confidence == LowConfidence || risk.confidence == InsufficientData
  }

  /** A reason applies: no account or no access, a risk of low or no confidence, a risk without a
      score, an overload of 75 or more. */
  predicate Applies(c: Candidate, reason: string) {
    || (reason == REASONS[0] && (c.jiraAccount == None || !c.hasProjectAccess))
    || (reason == REASONS[1] && (Weak(c.overload) || Weak(c.taskFit) || Weak(c.project)))
    || (reason == REASONS[2] && None in {c.overload.score, c.taskFit.score, c.project.score})
    || (reason == REASONS[3] && c.overload.score.Some? && c.overload.score.value >= 75)
  }

  lemma ReasonsDiffer()
    ensures forall i, j | 0 <= i < j < |REASONS| :: REASONS[i] != REASONS[j]
  {
    assert REASONS[0][0] == 'j' && REASONS[1][0] == 'c' && REASONS[2][0] == 'i' && REASONS[3][0] == 'c';
    assert REASONS[1][1] == 'o' && REASONS[3][1] == 'a';
  }

  /** The mean of the three scores, weighted five to three to two, to the nearest hundredth. */
  predicate Ranked(c: Candidate, ranking: real) {
    && c.taskFit.score.Some? && c.overload.score.Some? && c.project.score.Some?
    && var mean := (5.0 * c.taskFit.score.value as real + 3.0 * c.overload.score.value as real
                    + 2.0 * c.project.score.value as real) / 10.0;
    && -0.005 <= ranking - mean <= 0.005
    && ranking * 100.0 == (ranking * 100.0).Floor as real
  }

  lemma AppliesExactly(c: Candidate)
    ensures Applies(c, REASONS[0]) <==> NoAccess(c)
    ensures Applies(c, REASONS[1]) <==> LowConfidenceIn(c)
    ensures Applies(c, REASONS[2]) <==> Incomplete(c)
    ensures Applies(c, REASONS[3]) <==> Overloaded(c)
  {
    ReasonsDiffer();
  }

  lemma FourFiltered(a: string, b: string, c: string, d: string, keep: string -> bool)
    ensures Filter([a, b, c, d], keep)
         == (if keep(a) then [a] else []) + (if keep(b) then [b] else [])
            + (if keep(c) then [c] else []) + (if keep(d) then [d] else [])
  {
    FilterAppend([], a, keep);
    FilterAppend([a], b, keep);
    FilterAppend([a, b], c, keep);
    FilterAppend([a, b, c], d, keep);
    assert [] + [a] == [a] && [a] + [b] == [a, b] && [a, b] + [c] == [a, b, c] && [a, b, c] + [d] == [a, b, c, d];
  }

  lemma ReasonsExactly(c: Candidate)
    ensures Reasons(c) == Filter(REASONS, reason => Applies(c, reason))
  {
    AppliesExactly(c);
    FourFiltered(REASONS[0], REASONS[1], REASONS[2], REASONS[3], reason => Applies(c, reason));
  }

  lemma WholeHundredths(ranking: real, hundredths: int)
    requires ranking == hundredths as real / 100.0
    ensures ranking * 100.0 == (ranking * 100.0).Floor as real
  {
  }

  lemma RankedExactly(c: Candidate)
    requires Eligible(c)
    ensures Ranked(c, Ranking(c.taskFit.score.value, c.overload.score.value, c.project.score.value))
  {
    var fit, load, project := c.taskFit.score.value, c.overload.score.value, c.project.score.value;
    RankingIsNearest(fit, load, project);
    WholeHundredths(Ranking(fit, load, project),
                    Scoring.RoundHalfEven((fit as real * 0.5 + load as real * 0.3 + project as real * 0.2) * 100.0));
  }

  /** A candidate is given exactly the reasons that apply, in their fixed order, and is ranked and
      eligible exactly if there is none. */
  lemma AssessesExactly(c: Candidate)
    ensures
      var a := Assess(c);
      && a.employeeId == c.employeeId
      && a.reasons == Filter(REASONS, reason => Applies(c, reason))
      && (a.eligible <==> a.ranking.Some?)
      && (a.eligible <==> forall i | 0 <= i < 4 :: !Applies(c, REASONS[i]))
      && (a.eligible ==> Ranked(c, a.ranking.value))
  {
    AppliesExactly(c);
    ReasonsExactly(c);
    if Eligible(c) { RankedExactly(c); }
  }

  // ----- names and rankings

  /** A name comes first if it is the beginning of the other, or smaller where they first differ. */
  lemma {:induction false} NamesInOrder(a: string, b: string)
    ensures StringLess(a, b) <==>
      a < b || exists k :: 0 <= k < |a| && k < |b| && a[..k] == b[..k] && a[k] < b[k]
    decreases |a|
  {
    if a != "" && b != "" && a[0] == b[0] {
      NamesInOrder(a[1..], b[1..]);
      assert a == [a[0]] + a[1..] && b == [b[0]] + b[1..];
      forall k: nat
        ensures k + 1 < |a| && k + 1 < |b| ==> (a[..k + 1] == b[..k + 1] <==> a[1..][..k] == b[1..][..k])
      {
        if k + 1 < |a| && k + 1 < |b| {
          assert a[..k + 1] == [a[0]] + a[1..][..k] && b[..k + 1] == [b[0]] + b[1..][..k];
          assert a[..k + 1][1..] == a[1..][..k] && b[..k + 1][1..] == b[1..][..k];
        }
      }
      if k :| 0 <= k < |a| && k < |b| && a[..k] == b[..k] && a[k] < b[k] {
        assert a[1..][..k - 1] == b[1..][..k - 1] && a[1..][k - 1] < b[1..][k - 1];
      }
      if k :| 0 <= k < |a| - 1 && k < |b| - 1 && a[1..][..k] == b[1..][..k] && a[1..][k] < b[1..][k] {
        assert a[..k + 1] == b[..k + 1] && a[k + 1] < b[k + 1];
      }
      assert a < b <==> a[1..] < b[1..];
    }
  }

  /** Of two candidates with one ranking, and of two that are not eligible, the one with the smaller
      name comes first. */
  lemma TiesByName(candidates: seq<Candidate>, i: nat, j: nat)
    requires i < j < |SelectCandidates(candidates)|
    requires
      var selected := SelectCandidates(candidates);
      selected[i].eligible == selected[j].eligible && selected[i].ranking == selected[j].ranking
    ensures !StringLess(SelectCandidates(candidates)[j].employeeId, SelectCandidates(candidates)[i].employeeId)
  {
    SelectionIsRanked(candidates);
  }

  // ----- simulation

  lemma {:induction false} EligibleFirst(assessments: seq<Assessment>)
    requires forall i, j | 0 <= i < j < |assessments| :: assessments[j].eligible ==> assessments[i].eligible
    ensures |EligibleIds(assessments)| <= |assessments|
    ensures forall i | 0 <= i < |assessments| :: assessments[i].eligible <==> i < |EligibleIds(assessments)|
    ensures forall i | 0 <= i < |EligibleIds(assessments)| :: EligibleIds(assessments)[i] == assessments[i].employeeId
  {
    if assessments == [] {
    } else {
      EligibleFirst(assessments[1..]);
      if !assessments[0].eligible && |assessments| > 1 {
        assert !assessments[1..][0].eligible;
      }
    }
  }

  /** The candidate the simulation proposes. */
  predicate Proposes(candidates: seq<Candidate>, id: string, c: Candidate) {
    c in candidates && c.employeeId == id && forall i | 0 <= i < 4 :: !Applies(c, REASONS[i])
  }

  /** The ids of the eligible, in the order of the selection. */
  ghost predicate RankedIds(candidates: seq<Candidate>, ids: seq<string>) {
    var selected := SelectCandidates(candidates);
    && |ids| <= |selected|
    && (forall i | 0 <= i < |selected| :: selected[i].eligible <==> i < |ids|)
    && (forall i | 0 <= i < |ids| :: ids[i] == selected[i].employeeId)
  }

  lemma EligibleAreRanked(candidates: seq<Candidate>)
    ensures RankedIds(candidates, EligibleIds(SelectCandidates(candidates)))
  {
    SelectionIsRanked(candidates);
    EligibleFirst(SelectCandidates(candidates));
  }

  lemma EligibleIsListed(candidates: seq<Candidate>, id: string)
    requires DistinctIds(candidates)
    ensures id in EligibleIds(SelectCandidates(candidates)) <==> exists c :: Proposes(candidates, id, c)
  {
    var assessments, selected := AssessAll(candidates), SelectCandidates(candidates);
    SelectionIsRanked(candidates);
    EligibleIdsAreEligible(selected, id);
    forall c: Candidate
      ensures (forall i | 0 <= i < 4 :: !Applies(c, REASONS[i])) <==> Eligible(c)
    {
      AssessesExactly(c);
    }
    if a :| a in selected && a.eligible && a.employeeId == id {
      assert a in multiset(assessments);
      var i :| 0 <= i < |candidates| && assessments[i] == a;
      assert Proposes(candidates, id, candidates[i]);
    }
    if c :| Proposes(candidates, id, c) {
      var i :| 0 <= i < |candidates| && candidates[i] == c;
      assert assessments[i] in multiset(assessments);
      assert assessments[i] in multiset(selected);
    }
  }

  lemma FoundIsProposed(candidates: seq<Candidate>, id: string, c: Candidate)
    requires DistinctIds(candidates) && Proposes(candidates, id, c)
    ensures FindCandidate(candidates, id) == Some(c)
  {
    var found := FindCandidate(candidates, id);
    var i :| 0 <= i < |candidates| && candidates[i] == c;
    var j :| 0 <= j < |candidates| && candidates[j] == found.value;
  }

  /** The result for the candidate proposed. */
  ghost predicate ResultFor(hash: Material -> string, taskId: string, currentAssignee: string,
                            candidates: seq<Candidate>, c: Candidate, current: Families,
                            result: Result<Outcome, SimulationError>) {
    if || c.overload.version != current.overload.version || c.taskFit.version != current.taskFit.version
       || c.project.version != current.project.version
    then result == Raises(VersionMismatch)
    else
      && result.Returned?
      && var material := result.value.material;
      && material == Material(taskId, currentAssignee, c.employeeId, material.candidateIds, current,
                              Families(c.overload, c.taskFit, c.project))
      && RankedIds(candidates, material.candidateIds)
      && result.value.fingerprint == hash(material)
  }

  /** With distinct identifiers: a simulation raises NotEligible exactly if no candidate of the name
      is free of reasons, and VersionMismatch exactly if that one was scored by other versions;
      otherwise it returns the ids of the eligible in the order of the ranking, the current scores
      and that candidate's own, family by family, and the hash of all of it. */
  lemma SimulatesExactly(hash: Material -> string, taskId: string, currentAssignee: string,
                         candidates: seq<Candidate>, selectedId: string, current: Families)
    requires DistinctIds(candidates)
    ensures
      var result := SimulateReassignment(hash, taskId, currentAssignee, candidates, selectedId, current);
      && (result == Raises(NotEligible) <==> forall c :: !Proposes(candidates, selectedId, c))
      && forall c | Proposes(candidates, selectedId, c) ::
           ResultFor(hash, taskId, currentAssignee, candidates, c, current, result)
  {
    EligibleIsListed(candidates, selectedId);
    EligibleAreRanked(candidates);
    forall c | Proposes(candidates, selectedId, c)
      ensures FindCandidate(candidates, selectedId) == Some(c)
    {
      FoundIsProposed(candidates, selectedId, c);
    }
  }
}
