/** The fixed high-availability timings and the start-up guard over them
    (src/ha-timing.ts and `validateHaConfig` in src/config.ts). */
module HaTiming {

  const HEARTBEAT_INTERVAL_MS := 5_000
  const REPLICA_LIVENESS_TIMEOUT_MS := HEARTBEAT_INTERVAL_MS * 3
  const ELECTION_TICK_INTERVAL_MS := 2_000
  const AUTO_FAILOVER_MIN_MEMBERS := 3
  const ELECTION_TIMEOUT_BASE_MS := 45_000
  const QUORUM_LOSS_FENCE_MS := 10_000
  const QUORUM_FENCE_SCHEDULING_MARGIN_MS := ELECTION_TICK_INTERVAL_MS * 2

  // the two fetches of a campaign, each with its own timeout (src/services/ha-election-service.ts)
  const VOTE_REQUEST_FETCH_TIMEOUT_MS := 3_000
  const PEER_CERT_FETCH_TIMEOUT_MS := 5_000

  datatype NodeRole = PrimaryRole | ReplicaRole

  /** An optional URL together with the verdict of `isSecureHaUrl` on it. */
  datatype Url = NoUrl | Url(secure: bool)

  datatype HaConfig = HaConfig(
    hasSharedToken: bool,
    role: NodeRole,
    primaryUrl: Url,
    primaryAdminUrl: Url,
    selfAdminUrl: Url,
    autoFailoverEnabled: bool,
    quorumLossFenceSeconds: nat,
    electionTimeoutBaseSeconds: nat)

  datatype HaConfigError =
    | MissingSharedToken | MissingPrimaryUrls | InsecurePrimaryUrl
    | InsecurePrimaryAdminUrl | InsecureSelfAdminUrl | UnsafeFailoverTiming

  datatype Verdict = Accepted | Rejected(error: HaConfigError)

  /** What each error of `validateHaConfig` complains about. */
  predicate Violates(ha: HaConfig, error: HaConfigError) {
    match error
    case MissingSharedToken => !ha.hasSharedToken
    case MissingPrimaryUrls => ha.role.ReplicaRole? && (ha.primaryUrl.NoUrl? || ha.primaryAdminUrl.NoUrl?)
    case InsecurePrimaryUrl => ha.primaryUrl == Url(false)
    case InsecurePrimaryAdminUrl => ha.primaryAdminUrl == Url(false)
    case InsecureSelfAdminUrl => ha.selfAdminUrl == Url(false)
    case UnsafeFailoverTiming => ha.autoFailoverEnabled && ElectionBaseMs(ha) <= SafeBaseMs(ha)
  }

  /** The order in which the errors are looked for. */
  function Position(error: HaConfigError): nat {
    match error
    case MissingSharedToken => 0
    case MissingPrimaryUrls => 1
    case InsecurePrimaryUrl => 2
    case InsecurePrimaryAdminUrl => 3
    case InsecureSelfAdminUrl => 4
    case UnsafeFailoverTiming => 5
  }

  /** Accepted exactly when nothing is wrong; otherwise the error thrown is the first one present. */
  function ValidateHaConfig(ha: HaConfig): (v: Verdict)
    ensures v.Accepted? ==> forall error :: !Violates(ha, error)
    ensures v.Rejected? ==>
              Violates(ha, v.error) && forall error :: Position(error) < Position(v.error) ==> !Violates(ha, error)
  {
    if !ha.hasSharedToken then Rejected(MissingSharedToken)
    else if ha.role.ReplicaRole? && (ha.primaryUrl.NoUrl? || ha.primaryAdminUrl.NoUrl?)
    then Rejected(MissingPrimaryUrls)
    else if !ha.primaryUrl.NoUrl? && !ha.primaryUrl.secure then Rejected(InsecurePrimaryUrl)
    else if !ha.primaryAdminUrl.NoUrl? && !ha.primaryAdminUrl.secure then Rejected(InsecurePrimaryAdminUrl)
    else if !ha.selfAdminUrl.NoUrl? && !ha.selfAdminUrl.secure then Rejected(InsecureSelfAdminUrl)
    else if ha.autoFailoverEnabled
            && REPLICA_LIVENESS_TIMEOUT_MS + FenceMs(ha) + QUORUM_FENCE_SCHEDULING_MARGIN_MS >= ElectionBaseMs(ha)
    then Rejected(UnsafeFailoverTiming)
    else Accepted
  }

  /** The time in which a cut-off primary fences itself, with two ticks to spare. */
  function SafeBaseMs(ha: HaConfig): nat {
    REPLICA_LIVENESS_TIMEOUT_MS + FenceMs(ha) + QUORUM_FENCE_SCHEDULING_MARGIN_MS
  }

  function FenceMs(ha: HaConfig): nat {
    ha.quorumLossFenceSeconds * 1_000
  }

  function ElectionBaseMs(ha: HaConfig): nat {
    ha.electionTimeoutBaseSeconds * 1_000
  }
}
