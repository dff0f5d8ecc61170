/** Causes and decisions exchanged between retry state and recovery policy. */
module RecoveryTypes {
  datatype DeviceUnavailableCause = Removed | Invalidated

  datatype SourceReconfigurationCause = DefaultEndpointChanged | FormatChanged

  datatype RecoveryCause =
    | ExplicitStop
    | NormalShutdown
    | DeviceUnavailable(device: DeviceUnavailableCause)
    | SourceReconfigured(source: SourceReconfigurationCause)
    | Interrupted
    | ResourceExhausted
    | UnsupportedFormat
    | InternalFailure
    | StartupFailure
    | WorkerPanic

  datatype RetryHint = RetryNow | RetryLater | WaitForSource | RequestPermission | ChangeFormat | DoNotRetry

  datatype RecoveryDecision =
    | RemainStopped(reason: RecoveryDecisionReason)
    | Wait(reason: RecoveryDecisionReason)
    | PermitReplacement(reason: RecoveryDecisionReason)

  datatype RecoveryDecisionReason =
    | BecauseExplicitStop
    | StaleIntent
    | StaleConfiguration
    | CleanupPending
    | TerminalBoundaryPending
    | MissingEvidence
    | InconsistentEvidence
    | RetryVetoed
    | ConfiguredNonRetryable
    | BecauseNormalShutdown
    | SourceUnavailable
    | SourceAvailable
    | PinnedSource
    | ReplacementSourcePending
    | ReplacementSourceReady
    | SupportedFormatUnavailable
    | SupportedFormatAvailable
    | RetryBudgetExhausted
    | CooldownPending
    | RetryEligible
    | PressureClearancePending
    | PressureCleared
    | ChangedPreconditionPending
    | BecauseUnsupportedFormat
    | BecauseInternalFailure
    | BecauseStartupFailure
    | BecauseWorkerPanic
}
