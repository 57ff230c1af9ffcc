/** The single-attempt Jira assignee mutation: a fresh read, at most one edit, a read-back. */
module JiraMutation {
  import opened Wrappers
  import opened Proposals

  datatype MutationOutcome = Verified | Failed | Unknown | Outdated

  /** The outcome shares its wire names with the proposal states. */
  function OutcomeState(outcome: MutationOutcome): ProposalState {
    match outcome
    case Verified => ExecutedVerified
    case Failed => ExecutionFailed
    case Unknown => Uncertain
    case Outdated => Stale
  }

  datatype Receipt = Receipt(
    outcome: MutationOutcome,
    observed: Option<string>,
    editAttempted: bool,
    errorCode: Option<string>)

  datatype Command = Command(
    environment: string,
    projectKey: string,
    issue: string,
    expected: string,
    proposed: string)

  /** What a tool call does: it raises, or it answers with an assignee (if the response carries
      one) and a status. */
  datatype Reply = Raised | Response(assignee: Option<string>, status: string)

  datatype Call = GetIssue(issue: string) | EditIssue(issue: string, account: string)

  const PRECONDITION_READ_FAILED: string := "jira_precondition_read_failed"
  const WRITE_REJECTED: string := "jira_write_rejected"

  // ----- the decision after each call; `None` means: go on

  function AfterPreRead(expected: string, reply: Reply): Option<Receipt> {
    match reply
    case Raised => Some(Receipt(Failed, None, false, Some(PRECONDITION_READ_FAILED)))
    case Response(current, _) =>
      if current != Some(expected) then Some(Receipt(Outdated, current, false, None)) else None
  }

  function AfterEdit(reply: Reply): Option<Receipt> {
    match reply
    case Raised => Some(Receipt(Unknown, None, true, Some("jira_write_outcome_unknown")))
    case Response(_, status) =>
      if status == "error" then Some(Receipt(Failed, None, true, Some(WRITE_REJECTED))) else None
  }

  function AfterReadBack(proposed: string, reply: Reply): Receipt {
    match reply
    case Raised => Receipt(Unknown, None, true, Some("jira_verification_read_failed"))
    case Response(observed, _) =>
      if observed == Some(proposed)
      then Receipt(Verified, observed, true, None)
      else Receipt(Unknown, observed, true, Some("jira_verification_mismatch"))
  }

  // ----- the whole mutation as a function of the transport's replies

  /** The part of an issue key before its first dash, if it has one. */
  function ProjectOf(issue: string): (project: Option<string>)
    ensures project.Some? ==> exists rest :: issue == project.value + "-" + rest && '-' !in project.value
    ensures project.None? <==> '-' !in issue
  {
    if issue == "" then None
    else if issue[0] == '-' then
      assert issue == "" + "-" + issue[1..];
      Some("")
    else
      match ProjectOf(issue[1..])
      case None => None
      case Some(project) =>
        assert forall rest :: issue[1..] == project + "-" + rest ==> issue == ([issue[0]] + project) + "-" + rest;
        Some([issue[0]] + project)
  }

  predicate Allowed(environment: string, allowedProjects: set<string>, command: Command) {
    && environment == "dev"
    && command.environment == environment
    && ProjectOf(command.issue) == Some(command.projectKey)
    && command.projectKey in allowedProjects
  }

  function ReplyAt(replies: seq<Reply>, i: nat): Reply {
    if i < |replies| then replies[i] else Raised
  }

  function Outcome(command: Command, replies: seq<Reply>): (Receipt, seq<Call>) {
    var read := GetIssue(command.issue);
    var edit := EditIssue(command.issue, command.proposed);
    match AfterPreRead(command.expected, ReplyAt(replies, 0))
    case Some(receipt) => (receipt, [read])
    case None =>
      match AfterEdit(ReplyAt(replies, 1))
      case Some(receipt) => (receipt, [read, edit])
      case None => (AfterReadBack(command.proposed, ReplyAt(replies, 2)), [read, edit, read])
  }

  /** A transport that answers from a script, raising once the script is used up, and keeps the
      calls it received. */
  class Transport {
    var replies: seq<Reply>
    var calls: seq<Call>

    constructor (script: seq<Reply>)
      ensures replies == script && calls == []
    {
      replies := script;
      calls := [];
    }

    method CallTool(call: Call) returns (reply: Reply)
      modifies this
      ensures reply == ReplyAt(old(replies), 0)
      ensures replies == if old(replies) == [] then [] else old(replies)[1..]
      ensures calls == old(calls) + [call]
    {
      calls := calls + [call];
      if replies == [] {
        reply := Raised;
      } else {
        reply := replies[0];
        replies := replies[1..];
      }
    }
  }

  class MutationClient {
    const transport: Transport
    const environment: string
    const allowedProjects: set<string>

    constructor (transport: Transport, environment: string, allowedProjects: set<string>)
      ensures this.transport == transport && this.environment == environment
      ensures this.allowedProjects == allowedProjects
    {
      this.transport := transport;
      this.environment := environment;
      this.allowedProjects := allowedProjects;
    }

    /** `None` is the permission error. */
    method Execute(command: Command) returns (result: Option<Receipt>)
      modifies transport
      ensures result.Some? <==> Allowed(environment, allowedProjects, command)
      ensures result.None? ==> transport.calls == old(transport.calls) && transport.replies == old(transport.replies)
      ensures result.Some? ==>
        var (receipt, calls) := Outcome(command, old(transport.replies));
        result.value == receipt && transport.calls == old(transport.calls) + calls
    {
      if !Allowed(environment, allowedProjects, command) {
        return None;
      }
      var reply := transport.CallTool(GetIssue(command.issue));
      var early := AfterPreRead(command.expected, reply);
      if early.Some? {
        return early;
      }
      reply := transport.CallTool(EditIssue(command.issue, command.proposed));
      early := AfterEdit(reply);
      if early.Some? {
        return early;
      }
      reply := transport.CallTool(GetIssue(command.issue));
      return Some(AfterReadBack(command.proposed, reply));
    }
  }

  /** What the receipt lets a caller conclude, whatever the transport answers: at most one edit is
      sent, and only after a fresh read returned the expected assignee; the receipt says truly
      whether it was sent; VERIFIED means exactly that a read made after an accepted edit
      returned the proposed assignee; OUTDATED and a failure before the edit mean no edit. */
  lemma ReceiptIsHonest(command: Command, replies: seq<Reply>)
    ensures
      var (receipt, calls) := Outcome(command, replies);
      var edit := EditIssue(command.issue, command.proposed);
      && multiset(calls)[edit] == (if receipt.editAttempted then 1 else 0)
      && (forall call | call in calls && call.EditIssue? :: call == edit)
      && (receipt.editAttempted <==>
            ReplyAt(replies, 0).Response? && ReplyAt(replies, 0).assignee == Some(command.expected))
      && (receipt.outcome == Verified <==>
            && receipt.editAttempted
            && ReplyAt(replies, 1).Response? && ReplyAt(replies, 1).status != "error"
            && ReplyAt(replies, 2).Response? && ReplyAt(replies, 2).assignee == Some(command.proposed))
      && (receipt.outcome == Outdated ==> !receipt.editAttempted && receipt.observed != Some(command.expected))
      && (receipt.outcome == Unknown ==> receipt.editAttempted)
  {
  }

  /** The receipt and the calls for every three replies, case by case: each outcome with its error
      code, what it observed, and how far the protocol went. */
  lemma OutcomeExactly(command: Command, replies: seq<Reply>)
    ensures
      var (receipt, calls) := Outcome(command, replies);
      var first, second, third := ReplyAt(replies, 0), ReplyAt(replies, 1), ReplyAt(replies, 2);
      var matched := first.Response? && first.assignee == Some(command.expected);
      var accepted := matched && second.Response? && second.status != "error";
      var confirmed := accepted && third.Response? && third.assignee == Some(command.proposed);
      && (receipt.outcome == Failed <==> first.Raised? || (matched && second.Response? && second.status == "error"))
      && (receipt.outcome == Unknown <==> (matched && second.Raised?) || (accepted && !confirmed))
      && (receipt.outcome == Outdated <==> first.Response? && first.assignee != Some(command.expected))
      && (receipt.outcome == Verified <==> confirmed)
      && (receipt.errorCode ==
            if first.Raised? then Some("jira_precondition_read_failed")
            else if !matched || confirmed then None
            else if second.Raised? then Some("jira_write_outcome_unknown")
            else if !accepted then Some("jira_write_rejected")
            else if third.Raised? then Some("jira_verification_read_failed")
            else Some("jira_verification_mismatch"))
      && (receipt.observed ==
            if first.Response? && !matched then first.assignee
            else if accepted && third.Response? then third.assignee
            else None)
      && (receipt.editAttempted <==> matched)
      && calls == [GetIssue(command.issue), EditIssue(command.issue, command.proposed), GetIssue(command.issue)]
                  [..if !matched then 1 else if !accepted then 2 else 3]
  {
  }

  /** Each outcome is stored as the state of its own name. */
  lemma OutcomesKeepTheirNames()
    ensures OutcomeState(Verified) == ExecutedVerified && OutcomeState(Failed) == ExecutionFailed
    ensures OutcomeState(Unknown) == Uncertain && OutcomeState(Outdated) == Stale
  {
  }

  /** The guard, spelled out: the development environment on both sides, and an allowed project that
      is what the issue key has before its first dash. */
  lemma AllowedExactly(environment: string, allowedProjects: set<string>, command: Command)
    ensures Allowed(environment, allowedProjects, command) <==>
      && environment == "dev" && command.environment == "dev" && command.projectKey in allowedProjects
      && '-' !in command.projectKey
      && exists rest :: command.issue == command.projectKey + "-" + rest
  {
    if exists rest :: command.issue == command.projectKey + "-" + rest && '-' !in command.projectKey {
      var rest :| command.issue == command.projectKey + "-" + rest;
      assert command.issue[|command.projectKey|] == '-';
      FirstDash(command.projectKey, rest);
    }
  }

  lemma {:induction false} FirstDash(project: string, rest: string)
    requires '-' !in project
    ensures ProjectOf(project + "-" + rest) == Some(project)
  {
    var issue := project + "-" + rest;
    if project == "" {
      assert issue[0] == '-';
    } else {
      assert project[0] in project && issue[0] == project[0];
      assert issue[1..] == project[1..] + "-" + rest;
      FirstDash(project[1..], rest);
      assert [project[0]] + project[1..] == project;
    }
  }
}
