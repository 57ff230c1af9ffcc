/** The proposal life cycle: states, terminal states and the transition table. */
module Proposals {

  datatype ProposalState =
    | Pending
    | Approved
    | Executing
    | ExecutedVerified
    | ExecutionFailed
    | Uncertain
    | Rejected
    | Expired
    | Stale

  const TERMINAL_STATES: set<ProposalState> :=
    {ExecutedVerified, ExecutionFailed, Rejected, Expired, Stale}

  function AllowedTransitions(current: ProposalState): set<ProposalState> {
    match current
    case Pending => {Executing, Rejected, Expired, Stale}
    case Executing => {ExecutedVerified, ExecutionFailed, Uncertain, Stale}
    case Uncertain => {ExecutedVerified, ExecutionFailed}
    case _ => {}
  }

  predicate ValidTransition(current: ProposalState, target: ProposalState) {
    target in AllowedTransitions(current)
  }

  /** How many more transitions a proposal can make at most. */
  function StepsLeft(state: ProposalState): nat {
    match state
    case Pending => 3
    case Executing => 2
    case Uncertain => 1
    case _ => 0
  }

  ghost predicate IsHistory(states: seq<ProposalState>) {
    forall i | 0 < i < |states| :: ValidTransition(states[i - 1], states[i])
  }

  /** Every history of valid transitions that starts PENDING makes at most three of them,
      never passes through APPROVED, and reaches a terminal state only as its last one. */
  lemma {:induction false} HistoriesAreShort(states: seq<ProposalState>)
    requires |states| > 0 && states[0] == Pending && IsHistory(states)
    ensures |states| + StepsLeft(states[|states| - 1]) <= 4
    ensures Approved !in states
    ensures forall i | 0 <= i < |states| :: states[i] in TERMINAL_STATES ==> i == |states| - 1
  {
    if |states| == 1 {
    } else {
      var before := states[..|states| - 1];
      HistoriesAreShort(before);
      assert forall i | 0 <= i < |before| :: before[i] == states[i];
      assert ValidTransition(states[|states| - 2], states[|states| - 1]);
      assert states == before + [states[|states| - 1]];
    }
  }
}
