/**
 * The seam from an intent to its approval: build, hash, ask. The chain tool and the approver are
 * parameters; what they do is their answer. The digest the seam binds is the one the gate checks.
 */
module Execution {
  import opened Basics
  import Sha256
  import Gate = ApprovalGate
  import Gates = ApprovalRuns
  import Safety = ApprovalSafety

  /** What the tool for an intent's kind did: there is none, it threw, or it returned something. */
  datatype ToolAnswer =
    | Missing
    | Unwired(detail: string)
    | Refused(code: Option<string>, detail: string)
    | Malformed
    | Usable(unsignedXdr: Gate.Xdr, summary: Gate.Summary)

  datatype Request = Request(intent: string, summary: Gate.Summary, payloadHash: string, unsignedXdr: Gate.Xdr)

  /** What the approver did with the request: it threw, it gave no decision, or it decided. */
  datatype ApproverAnswer =
    | Threw(detail: string)
    | NoDecision
    | Decided(approved: bool, reason: Option<string>, approvalId: Option<string>)

  datatype Status = Executed | Rejected | Unsupported | Unavailable | Failed

  datatype Outcome = Outcome(
    status: Status,
    overlay: Option<string>,
    result: Option<(Gate.Xdr, Gate.Summary)>,
    payloadHash: Option<string>,
    approvalId: Option<string>)

  function Fails(status: Status, overlay: string): Outcome {
    Outcome(status, Some(overlay), None, None, None)
  }

  function RequestFor(intent: string, tool: ToolAnswer): Request
    requires tool.Usable? && tool.unsignedXdr != []
  {
    Request(intent, tool.summary, Sha256.HexDigest(tool.unsignedXdr), tool.unsignedXdr)
  }

  /** The label a typed refusal gets is the caller's table; a missing configuration has its own. */
  function RefusalOverlay(code: Option<string>, refusals: string -> string): string {
    if code == Some("not_configured") then "Chain not configured"
    else if code.Some? then refusals(code.value) else "Chain error"
  }

  function ExecuteIntent(intent: string, tool: ToolAnswer, approver: Request -> ApproverAnswer,
      refusals: string -> string): Outcome {
    match tool
    case Missing => Fails(Unsupported, "Not supported")
    case Unwired(_) => Fails(Unavailable, "Chain not wired")
    case Refused(code, _) => Fails(Failed, RefusalOverlay(code, refusals))
    case Malformed => Fails(Failed, "Chain error")
    case Usable(xdr, summary) =>
      if xdr == [] then Fails(Failed, "Chain error") else
      var request := RequestFor(intent, tool);
      match approver(request)
      case Threw(_) => Fails(Failed, "Approval error")
      case NoDecision => Fails(Failed, "Approval error")
      case Decided(approved, _, approvalId) =>
        if !approved then Fails(Rejected, "Not approved")
        else Outcome(Executed, None, Some((xdr, summary)), Some(request.payloadHash), approvalId)
  }

  /**
   * An intent is executed exactly when its tool built a transaction and the approver approved the
   * request carrying it with its digest; nothing else hands out a transaction or a hash.
   */
  lemma ExecutedExactlyWhenApproved(intent: string, tool: ToolAnswer, approver: Request -> ApproverAnswer,
      refusals: string -> string)
    ensures var o := ExecuteIntent(intent, tool, approver, refusals);
            && (o.status.Executed? <==>
                  tool.Usable? && tool.unsignedXdr != [] && var d := approver(RequestFor(intent, tool));
                  d.Decided? && d.approved)
            && (o.status.Executed? <==> o.result.Some?) && (o.status.Executed? <==> o.payloadHash.Some?)
            && (o.status.Executed? <==> o.overlay.None?)
            && (o.status.Executed? ==> o.result.value == (tool.unsignedXdr, tool.summary)
                                       && o.payloadHash.value == Sha256.HexDigest(o.result.value.0))
  {
    hide Sha256.HexDigest;
  }

  predicate IsFailure(o: Outcome, status: Status, overlay: string) {
    o == Outcome(status, Some(overlay), None, None, None)
  }

  /** The tool built something to approve. */
  predicate Builds(tool: ToolAnswer) {
    tool.Usable? && |tool.unsignedXdr| > 0
  }

  /** Whatever goes wrong gets the status and the label of its cause, and hands out nothing. */
  lemma EveryFailureIsLabelled(intent: string, tool: ToolAnswer, approver: Request -> ApproverAnswer,
      refusals: string -> string)
    ensures var o := ExecuteIntent(intent, tool, approver, refusals);
            && (tool.Missing? ==> IsFailure(o, Unsupported, "Not supported"))
            && (tool.Unwired? ==> IsFailure(o, Unavailable, "Chain not wired"))
            && (tool.Refused? && tool.code == Some("not_configured") ==> IsFailure(o, Failed, "Chain not configured"))
            && (tool.Refused? && tool.code.Some? && tool.code != Some("not_configured") ==>
                  IsFailure(o, Failed, refusals(tool.code.value)))
            && (tool.Refused? && tool.code.None? ==> IsFailure(o, Failed, "Chain error"))
            && (tool.Malformed? || (tool.Usable? && !Builds(tool)) ==> IsFailure(o, Failed, "Chain error"))
    ensures Builds(tool) ==>
              var o, d := ExecuteIntent(intent, tool, approver, refusals), approver(RequestFor(intent, tool));
              && (d.Threw? || d.NoDecision? ==> IsFailure(o, Failed, "Approval error"))
              && (d.Decided? && !d.approved ==> IsFailure(o, Rejected, "Not approved"))
              && (d.Decided? && d.approved ==> o.status.Executed? && o.approvalId == d.approvalId)
  {
    hide Sha256.HexDigest;
  }

  /** What the owner is asked to approve is the intent, what its tool built, and the digest of that. */
  lemma RequestIsOfTheTool(intent: string, tool: ToolAnswer)
    requires Builds(tool)
    ensures RequestFor(intent, tool) ==
              Request(intent, tool.summary, Gate.PayloadHashOfXdr(tool.unsignedXdr), tool.unsignedXdr)
  {
    hide Sha256.HexDigest;
  }

  /** The seam's request as the gate takes it: to be approved by a prompt. */
  function AtTheGate(request: Request): Gate.Request {
    Gate.Request(0, request.payloadHash, request.unsignedXdr, request.summary, request.intent, Gate.TouchId)
  }

  /** The gate accepts the seam's request unless its transaction is over the size cap. */
  lemma GateAcceptsTheSeamsRequest(intent: string, tool: ToolAnswer)
    requires tool.Usable? && tool.unsignedXdr != []
    ensures Gate.Validate(AtTheGate(RequestFor(intent, tool)), false).None? <==>
              |tool.unsignedXdr| <= Gate.MAX_XDR_BYTES
  {
    hide Sha256.HexDigest;
  }

  /**
   * From intent to release: when the request of an executed intent was begun at the gate, at any point
   * of any run, every later release under its id, whatever happens in between, carries exactly the
   * transaction and the digest that the intent's outcome reports, and comes within 120 seconds.
   */
  lemma ReleasedIsWhatTheSeamReports(intent: string, tool: ToolAnswer, approver: Request -> ApproverAnswer,
      refusals: string -> string, actions: seq<Gates.Action>, now: nat, more: seq<Gates.Action>, j: nat)
    requires ExecuteIntent(intent, tool, approver, refusals).status.Executed?
    requires tool.Usable? && tool.unsignedXdr != [] && |tool.unsignedXdr| <= Gate.MAX_XDR_BYTES
    requires now <= Gates.Run(Gates.Init(), actions).clock
    requires var log := Begun(intent, tool, actions, now, more).log;
             j < |log| && log[j].Released? && log[j].id == Gates.Run(Gates.Init(), actions).store.nextId + 1
    ensures var o, log := ExecuteIntent(intent, tool, approver, refusals), Begun(intent, tool, actions, now, more).log;
            && o.result == Some((log[j].payload.unsignedXdr, log[j].payload.summary))
            && o.payloadHash == Some(log[j].payload.payloadHash)
            && log[j].payload.intent == intent
            && log[j].at < now + Gate.APPROVAL_TTL
  {
    hide Gates.Run, Gates.Init, Gates.Next, Sha256.HexDigest, Gate.Validate, ExecuteIntent;
    ExecutedExactlyWhenApproved(intent, tool, approver, refusals);
    GateAcceptsTheSeamsRequest(intent, tool);
    Safety.ReleasedIsWhatWasBegun(actions, AtTheGate(RequestFor(intent, tool)), now, more, j);
  }

  /** A run of the gate in which the seam's request is begun, and what follows. */
  function Begun(intent: string, tool: ToolAnswer, actions: seq<Gates.Action>, now: nat,
      more: seq<Gates.Action>): Gates.Sys
    requires tool.Usable? && tool.unsignedXdr != []
  {
    Gates.Run(Gates.Next(Gates.Run(Gates.Init(), actions), Gates.Begin(AtTheGate(RequestFor(intent, tool)), now)), more)
  }
}
