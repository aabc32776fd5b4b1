/** The vocabulary of a gated response: errors, fail modes, the plugin
    configuration the decision reads, and the outcome that is enforced. */
module Outcomes {
  import opened Wrappers

  /** The errors the decision tells apart; every other failure is `Other`. */
  datatype Error =
    | Canceled                  // context.Canceled: a sibling check stopped the call
    | DeadlineExceeded          // the response phase ran out of budget
    | Unauthorized              // errParticipantUnauthorized, internal to the consent client
    | NoCredentials             // ErrNoCredentials
    | NotRegistered             // ErrParticipantNotRegistered
    | Other(text: string)

  datatype FailMode = ByPolicy | AlwaysClosed

  datatype Decision = Allow | Deny

  /** One data owner's consent decision within a response. */
  datatype CheckedOwner = CheckedOwner(subject: string, resource: string, decision: Decision, reason: string)

  /** What is enforced, with the fields the audit record needs. `failMode` is
      `None` for an ordinary consent verdict. */
  datatype Outcome = Outcome(
    decision: Decision, reason: string, requestId: string, subject: string, resource: string,
    verb: string, checked: seq<CheckedOwner>, failMode: Option<FailMode>)

  /** The fields of the plugin configuration that the decision depends on. */
  datatype Config = Config(
    failOpen: Option<bool>, requirePurpose: bool, maxResolveBodyBytes: int, maxOwnersPerResponse: int,
    consumerClaim: string, claimsToForward: seq<string>)
  {
    predicate IsFailOpen() { failOpen == Some(true) }
  }

  /** One consent question put to the consent-manager. */
  datatype ConsentRequest = ConsentRequest(
    subject: string, resource: string, verb: string, dataResource: string, consumer: string, purpose: string)

  function FailModeForError(e: Error): FailMode {
    if e.NoCredentials? || e.NotRegistered? then AlwaysClosed else ByPolicy
  }

  function FailDecision(cfg: Config, mode: FailMode): Decision {
    if mode.ByPolicy? && cfg.IsFailOpen() then Allow else Deny
  }

  function FailOutcome(cfg: Config, mode: FailMode, reason: string, requestId: string,
                       req: Option<ConsentRequest>): Outcome {
    var base := Outcome(FailDecision(cfg, mode), reason, requestId, "", "", "", [], Some(mode));
    match req
    case None => base
    case Some(r) => base.(subject := r.subject, resource := r.resource, verb := r.verb)
  }
}
