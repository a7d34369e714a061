/** How `backend/capability_broker.py` classifies the end of a call: the pure part of the broker. */
module BrokerReceipts {
  import opened Common

  /** `effect_class`: everything but `pure` and `read` counts as effectful. */
  datatype Effect = Pure | ReadOnly | Effectful

  datatype Status = Ok | Failed | CancelledBeforeStart | Cancelled | TimedOut | NeedsReconciliation

  /** The error codes the broker writes or tells apart; a handler may raise any other one. */
  datatype Code =
    | CapabilityUnavailable | CapabilityResolutionError
    | CancellationAuthorityFailed | BrokerCancelledBeforeStart
    | ArgumentsInvalid
    | BrokerParentCancelledAfterDispatch | BrokerCancelledAfterDispatch | BrokerDeadlineExceeded
    | CapabilityHandlerError | CapabilityResultProjectionFailed
    | CapabilityAdmissionInterrupted | ReceiptPersistenceFailed
    | ToolError | FacilityDisabledByUser | StaleMcpHandle | StaleExecutionHandle
    | ArtifactDestinationExists | DesktopInvalidTarget
    | OtherCode(name: string)

  datatype ErrorInfo = ErrorInfo(code: Code, retryable: bool, mayHaveApplied: bool)

  /** `dispatched` stands for a recorded `attempted_at`. */
  datatype Receipt = Receipt(id: nat, status: Status, effect: Effect, dispatched: bool, error: Option<ErrorInfo>,
                             deduplicated: bool)

  /** What a handler raised: a `ToolError` with its code, or anything else. */
  datatype HandlerFault = ToolFault(code: Code, toolUnavailable: bool) | OtherFault

  /** The ways a call can end once it was admitted. */
  datatype Exit =
    | ResolutionFailed(unavailable: bool)
    | CancelledEarly(authorityFailed: bool)
    | InvalidArguments
    | ParentCancelled
    | AuthorityFailed
    | BrokerCancelled
    | DeadlineExceeded
    | HandlerFailed(fault: HandlerFault)
    | ProjectionFailed
    | Succeeded
    /** An exception nobody else handled; `invoke` itself writes the receipt. */
    | Interrupted

  /** Codes that say a handler refused before doing anything. */
  predicate NotApplied(code: Code) {
    code.FacilityDisabledByUser? || code.StaleMcpHandle? || code.StaleExecutionHandle?
    || code.ArtifactDestinationExists? || code.DesktopInvalidTarget?
  }

  function FaultCode(f: HandlerFault): Code {
    match f
    case OtherFault => CapabilityHandlerError
    case ToolFault(code, toolUnavailable) =>
      if code.ToolError? && toolUnavailable then FacilityDisabledByUser else code
  }

  /** How far a call has come, and the effect class once the capability was resolved. */
  datatype Stage = Admitted | Resolved(effect: Effect) | Dispatched(effect: Effect) | Finished

  /** The exits the code can take from a stage. */
  predicate CanExit(stage: Stage, exit: Exit) {
    match stage
    case Admitted => exit.ResolutionFailed? || exit.Interrupted?
    case Resolved(_) => exit.CancelledEarly? || exit.InvalidArguments? || exit.Interrupted?
    case Dispatched(_) =>
      !exit.ResolutionFailed? && !exit.CancelledEarly? && !exit.InvalidArguments?
    case Finished => false
  }

  /** An unresolved capability is assumed to have external side effects. */
  function StageEffect(stage: Stage): Effect {
    match stage
    case Resolved(effect) => effect
    case Dispatched(effect) => effect
    case _ => Effectful
  }

  /** The receipt each exit path builds, before it is persisted. */
  function ExitReceipt(id: nat, stage: Stage, exit: Exit): Receipt
    requires CanExit(stage, exit)
  {
    var effect := StageEffect(stage);
    var effectful := effect.Effectful?;
    var dispatched := stage.Dispatched?;
    match exit
    case ResolutionFailed(unavailable) =>
      Error(id, Failed, effect, dispatched,
            if unavailable then CapabilityUnavailable else CapabilityResolutionError, false, false)
    case CancelledEarly(authorityFailed) =>
      Error(id, CancelledBeforeStart, effect, dispatched,
            if authorityFailed then CancellationAuthorityFailed else BrokerCancelledBeforeStart,
            !effectful, false)
    case InvalidArguments => Error(id, Failed, effect, dispatched, ArgumentsInvalid, true, false)
    case ParentCancelled => Uncertain(id, Cancelled, effect, BrokerParentCancelledAfterDispatch)
    case AuthorityFailed => Uncertain(id, Cancelled, effect, CancellationAuthorityFailed)
    case BrokerCancelled => Uncertain(id, Cancelled, effect, BrokerCancelledAfterDispatch)
    case DeadlineExceeded => Uncertain(id, TimedOut, effect, BrokerDeadlineExceeded)
    case HandlerFailed(fault) =>
      Error(id, Failed, effect, dispatched, FaultCode(fault), !effectful, effectful && !NotApplied(FaultCode(fault)))
    case ProjectionFailed => Uncertain(id, Failed, effect, CapabilityResultProjectionFailed)
    case Succeeded => Receipt(id, Ok, effect, dispatched, None, false)
    case Interrupted =>
      var uncertain := dispatched && effectful;
      Error(id, if uncertain then NeedsReconciliation else Failed, effect, dispatched,
            CapabilityAdmissionInterrupted, false, uncertain)
  }

  function Error(id: nat, status: Status, effect: Effect, dispatched: bool, code: Code, retryable: bool,
                 mayHaveApplied: bool): Receipt
  {
    Receipt(id, status, effect, dispatched, Some(ErrorInfo(code, retryable, mayHaveApplied)), false)
  }

  /** After dispatch: retry what has no effect, reconcile what may have one. */
  function Uncertain(id: nat, otherwise: Status, effect: Effect, code: Code): Receipt {
    Error(id, if effect.Effectful? then NeedsReconciliation else otherwise, effect, true, code,
          !effect.Effectful?, effect.Effectful?)
  }

  /** `_finalize`: a mandatory sink that failed turns an effectful call into one to reconcile. */
  function Persisted(r: Receipt, requiredSinkFailed: bool): Receipt {
    if requiredSinkFailed && r.effect.Effectful?
    then r.(status := NeedsReconciliation, error := Some(ErrorInfo(ReceiptPersistenceFailed, false, true)))
    else r
  }

  predicate Retryable(r: Receipt) {
    r.error.Some? && r.error.value.retryable
  }

  predicate MayHaveApplied(r: Receipt) {
    r.error.Some? && r.error.value.mayHaveApplied
  }

  /** The exits after dispatch that leave the outcome unknown. */
  predicate LosesOutcome(exit: Exit) {
    exit.ParentCancelled? || exit.AuthorityFailed? || exit.BrokerCancelled? || exit.DeadlineExceeded?
    || exit.ProjectionFailed?
  }

  /** What every receipt promises, whatever ended the call. */
  predicate SafeReceipt(r: Receipt) {
    && !(Retryable(r) && MayHaveApplied(r))
    && (Retryable(r) ==> !r.dispatched || !r.effect.Effectful?)
    && (MayHaveApplied(r) ==> r.effect.Effectful?)
    && (r.status.NeedsReconciliation? ==> MayHaveApplied(r))
    && (r.status.Ok? <==> r.error.None?)
  }

  /**
  The receipt that ends a call. It is safe on every exit path; a lost outcome of an effectful call is
  reconciled; and it warns that the call may have applied exactly when nothing rules that out.
  */
  function FinalReceipt(id: nat, stage: Stage, exit: Exit, requiredSinkFailed: bool): (r: Receipt)
    requires CanExit(stage, exit)
    ensures SafeReceipt(r) && r.id == id && r.dispatched == stage.Dispatched? && !r.deduplicated
    ensures StageEffect(stage).Effectful? && (LosesOutcome(exit) || requiredSinkFailed) ==>
              r.status.NeedsReconciliation? && MayHaveApplied(r)
    ensures r.status.Ok? <==> exit.Succeeded? && !(StageEffect(stage).Effectful? && requiredSinkFailed)
    ensures MayHaveApplied(r) <==>
              && StageEffect(stage).Effectful?
              && (requiredSinkFailed
                  || (stage.Dispatched? && !exit.Succeeded?
                      && !(exit.HandlerFailed? && NotApplied(FaultCode(exit.fault)))))
  {
    Persisted(ExitReceipt(id, stage, exit), requiredSinkFailed)
  }

  /**
  A call that was never dispatched can still be reported as possibly applied: this happens exactly
  when a mandatory sink fails for an effectful or unresolved capability.
  */
  lemma UndispatchedMayHaveApplied(id: nat, stage: Stage, exit: Exit, requiredSinkFailed: bool)
    requires CanExit(stage, exit) && !stage.Dispatched?
    ensures MayHaveApplied(FinalReceipt(id, stage, exit, requiredSinkFailed))
       <==> requiredSinkFailed && StageEffect(stage).Effectful?
    ensures var r := FinalReceipt(0, Admitted, ResolutionFailed(true), true);
            MayHaveApplied(r) && !r.dispatched
  {
  }
}
