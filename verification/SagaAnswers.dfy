/** What Jira answered the edit of an execution, and what was recorded of it. */
module SagaAnswers {
  import opened Wrappers
  import opened Proposals
  import opened Transactions
  import opened JiraMutation
  import opened Saga
  import opened SagaRows
  import opened SagaClaims
  import opened SagaEdits
  import opened SagaTheorems
  import opened SagaFailures

  /** Jira answered the edit of execution `e` with an error. */
  ghost predicate RejectedEdit(log: seq<Event>, e: nat) {
    exists i :: 0 <= i < |log| && log[i].Answered? && log[i].executionId == e
      && log[i].reply.Response? && log[i].reply.status == "error"
  }

  ghost predicate ExecutorAnswered(log: seq<Event>, executor: Executor) {
    executor.Finalizing? && executor.result.errorCode == Some(WRITE_REJECTED) ==>
      RejectedEdit(log, executor.claim.executionId)
  }

  ghost predicate RowAnswered(s: System, e: nat)
    requires e < |s.db.executions|
  {
    s.db.executions[e].state == ExecutionFailed && s.db.executions[e].result.errorCode == Some(WRITE_REJECTED) ==>
      RejectedEdit(s.log, e)
  }

  ghost predicate AnswersSound(s: System) {
    && (forall x | 0 <= x < |s.executors| :: ExecutorAnswered(s.log, s.executors[x]))
    && (forall e | 0 <= e < |s.db.executions| :: RowAnswered(s, e))
  }

  lemma RejectedLonger(log: seq<Event>, note: seq<Event>, e: nat)
    requires RejectedEdit(log, e)
    ensures RejectedEdit(log + note, e)
  {
    var i :| 0 <= i < |log| && log[i].Answered? && log[i].executionId == e
      && log[i].reply.Response? && log[i].reply.status == "error";
    assert (log + note)[i] == log[i];
  }

  lemma RejectedNow(log: seq<Event>, e: nat, reply: Reply)
    requires reply.Response? && reply.status == "error"
    ensures RejectedEdit(log + [Answered(e, reply)], e)
  {
    assert (log + [Answered(e, reply)])[|log|] == Answered(e, reply);
  }

  /** What the reply to the edit makes of the executor: a lost reply is UNCERTAIN, an error answer a
      failure, and anything else is read back. */
  lemma AnswerDecides(s: System, x: nat, reply: Reply)
    requires Enabled(s, EditReply(x, reply))
    ensures
      var claim, after := s.executors[x].claim, Step(s, EditReply(x, reply)).executors[x];
      && (reply.Raised? ==>
            after == Finalizing(claim, ExecutionResult(claim.executionId, claim.proposalId, Uncertain,
                                                       claim.correlation, None, Some("jira_write_outcome_unknown"))))
      && (reply.Response? && reply.status == "error" ==>
            after == Finalizing(claim, ExecutionResult(claim.executionId, claim.proposalId, ExecutionFailed,
                                                       claim.correlation, None, Some("jira_write_rejected"))))
      && (reply.Response? && reply.status != "error" ==> after == ReadingBack(claim))
  {
  }

  /** An executor gets the code of a rejected write only from the answer to its own edit. */
  lemma RejectionIsAnswered(s: System, action: Action, x: nat)
    requires Enabled(s, action) && x == Mover(s, action) && x < |s.executors| && x < |Step(s, action).executors|
    requires Step(s, action).executors[x].Finalizing?
    requires Step(s, action).executors[x].result.errorCode == Some(WRITE_REJECTED)
    requires !action.PreRead? && !action.ReadBack?
    ensures action.EditReply? && action.reply.Response? && action.reply.status == "error"
    ensures Step(s, action).executors[x].claim == s.executors[x].claim
    ensures Note(s, action) == [Answered(s.executors[x].claim.executionId, action.reply)]
  {
    assert WRITE_REJECTED[11] != "jira_write_outcome_unknown"[11];
    assert action.EditReply?;
  }

  lemma ReadsHaveOtherCodes(s: System, action: Action, x: nat)
    requires Enabled(s, action) && (action.PreRead? || action.ReadBack?) && action.x == x
    requires Step(s, action).executors[x].Finalizing?
    ensures Step(s, action).executors[x].result.errorCode != Some(WRITE_REJECTED)
  {
    assert WRITE_REJECTED[5] != PRECONDITION_READ_FAILED[5];
    assert WRITE_REJECTED[5] != "jira_verification_read_failed"[5];
    assert WRITE_REJECTED[5] != "jira_verification_mismatch"[5];
  }

  lemma ExecutorsAnswered(s: System, action: Action)
    requires AnswersSound(s) && Enabled(s, action)
    ensures forall x | 0 <= x < |Step(s, action).executors| ::
      ExecutorAnswered(Step(s, action).log, Step(s, action).executors[x])
  {
    LogGrows(s, action);
    OneExecutorMoves(s, action);
    forall x | 0 <= x < |Step(s, action).executors|
      ensures ExecutorAnswered(Step(s, action).log, Step(s, action).executors[x])
    {
      MovedAnswered(s, action, x);
    }
  }

  lemma MovedAnswered(s: System, action: Action, x: nat)
    requires AnswersSound(s) && Enabled(s, action) && x < |Step(s, action).executors|
    requires Step(s, action).log == s.log + Note(s, action)
    requires OnlyMoved(s.executors, Step(s, action).executors, Mover(s, action))
    ensures ExecutorAnswered(Step(s, action).log, Step(s, action).executors[x])
  {
    var after := Step(s, action).executors[x];
    if after.Finalizing? && after.result.errorCode == Some(WRITE_REJECTED) {
      if x == Mover(s, action) {
        if action.PreRead? || action.ReadBack? {
          ReadsHaveOtherCodes(s, action, x);
        } else {
          RejectionIsAnswered(s, action, x);
          RejectedNow(s.log, after.claim.executionId, action.reply);
        }
      } else {
        assert ExecutorAnswered(s.log, s.executors[x]);
        RejectedLonger(s.log, Note(s, action), after.claim.executionId);
      }
    }
  }

  lemma RowsAnswered(s: System, action: Action, e: nat)
    requires Inv(s) && AnswersSound(s) && Enabled(s, action) && e < |s.db.executions|
    ensures e < |Step(s, action).db.executions| && RowAnswered(Step(s, action), e)
  {
    InvKept(s, action);
    LogGrows(s, action);
    assert RowAnswered(s, e);
    assert ExecutionForward(s.db.executions[e], Step(s, action).db.executions[e]);
    var after := Step(s, action).db.executions[e];
    if after.state == ExecutionFailed && after.result.errorCode == Some(WRITE_REJECTED) {
      if s.db.executions[e].state != ExecutionFailed {
        FailingCode(s, action, e);
        assert ExecutorAnswered(s.log, s.executors[action.x]);
      }
      RejectedLonger(s.log, Note(s, action), e);
    }
  }

  lemma AnswersKept(s: System, action: Action)
    requires Inv(s) && AnswersSound(s) && Enabled(s, action)
    ensures AnswersSound(Step(s, action))
  {
    ExecutorsAnswered(s, action);
    NewRowsExecuting(s, action);
    forall e | 0 <= e < |Step(s, action).db.executions|
      ensures RowAnswered(Step(s, action), e)
    {
      if e < |s.db.executions| { RowsAnswered(s, action, e); }
    }
  }

  lemma {:induction false} RunAnswers(start: System, actions: seq<Action>)
    requires Initial(start)
    ensures Inv(Run(start, actions)) && AnswersSound(Run(start, actions))
    decreases |actions|
  {
    if actions == [] {
      InitialIsSound(start);
    } else {
      var shorter, action := actions[..|actions| - 1], actions[|actions| - 1];
      RunAnswers(start, shorter);
      var before := Run(start, shorter);
      assert Run(start, actions) == Apply(before, action);
      InvKept(before, action);
      if Enabled(before, action) { AnswersKept(before, action); }
    }
  }

  lemma ReachableAnswers(s: System)
    requires Reachable(s)
    ensures AnswersSound(s)
  {
    var start: System, actions: seq<Action> :| Initial(start) && s == Run(start, actions);
    RunAnswers(start, actions);
  }

  /** A `finalize` is about to record EXECUTION_FAILED for an edit that was sent only if Jira
      answered that very edit with an error; an edit whose reply was lost is never recorded so. */
  lemma FailsAfterSendOnlyIfRejected(s: System, x: nat)
    requires Reachable(s) && Enabled(s, DoFinalize(x)) && s.executors[x].result.state == ExecutionFailed
    requires Sent(s.executors[x].claim.proposalId) in s.log
    ensures RejectedEdit(s.log, s.executors[x].claim.executionId)
  {
    ReachableTells(s);
    ReachableAnswers(s);
    assert ExecutorTells(s, s.executors[x]) && ExecutorAnswered(s.log, s.executors[x]);
  }

  /** The same of a stored failure that carries a code. */
  lemma StoredFailureWasRejected(s: System, e: nat)
    requires Reachable(s) && e < |s.db.executions| && s.db.executions[e].state == ExecutionFailed
    requires s.db.executions[e].result.errorCode.Some? && Sent(s.db.executions[e].proposalId) in s.log
    ensures RejectedEdit(s.log, e)
  {
    ReachableTells(s);
    ReachableAnswers(s);
    assert RowTells(s, e) && RowAnswered(s, e);
  }
}
