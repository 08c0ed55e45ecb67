/** The request pipeline of `gateway` in src/index.ts: its ordered exits, authentication state, cache,
    origin attempt with one failover, and passive-failure bookkeeping. Every service the pipeline asks is
    an oracle whose answer is part of `Answers`; only origin attempts fail by throwing. What a run does is
    its ordered trace of steps, the returned status and the origins left in passive quarantine. */
module Gateway {
  import opened Options
  import opened Origins

  datatype Method = Get | Head | OptionsMethod | OtherMethod
  datatype NetworkAction = NoAction | Allow | Pass | ChallengeIp | BlockIp
  datatype Enforcement = NoEnforcement | MonitorOnly | BlockRequest | ChallengeRequest
  datatype AccessMode = Bypass | Challenge | BlockRoute
  datatype Protection = ProtectionDisabled | Clean | Monitored | Blocked
  datatype AppSecMode = AppSecDisabled | AppSecMonitor | AppSecBlock
  datatype AppSecStatus = AppSecClean | AppSecBlocked(httpStatus: Option<nat>) | AppSecError
  datatype CacheAnswer = CacheDisabled | CacheBypass | CacheMiss | CacheHit(status: nat)

  /** What an origin attempt throws; the first four are caused by the client's own request body. */
  datatype OriginError = BodyTooLarge | BodyIncomplete | BodyTimeout | InputRejected(status: nat) | OriginUnavailable
  datatype Attempt = Responded(status: nat) | Failed(error: OriginError)

  /** What the services answer for one request. forceHttps: the site forces HTTPS and its TLS mode is not
      disabled. certificateUsable: its certificate is active and not expired. preflight: the CORS middleware's
      reply, if it gives one. appSecConnected: an AppSec endpoint is configured. apiToken, sessionFound,
      userOfSession, cache, origin and replacement are what the lookups return if they are made. */
  datatype Answers = Answers(
    requestMethod: Method,
    siteFound: bool,
    secure: bool, httpsEnabled: bool, forceHttps: bool, certificateUsable: bool,
    maintenance: bool,
    ipAction: NetworkAction,
    privacyBlock: bool, explicitlyWhitelisted: bool,
    crowdSecDecision: bool, enforcement: Enforcement,
    botBlocked: bool,
    accessMode: AccessMode,
    limitViolation: Option<nat>,
    corsEnabled: bool, preflightHeader: bool, preflight: Option<nat>,
    protection: Protection, primaryMatch: bool,
    appSecMode: AppSecMode, appSecConnected: bool, appSecFailOpen: bool, appSec: AppSecStatus,
    accessListsEnabled: bool, apiToken: bool,
    rateKeyNeedsSession: bool, affinity: bool,
    sessionFound: bool, userOfSession: bool,
    rateLimited: bool,
    cache: CacheAnswer,
    origin: Option<OriginId>, firstAttempt: Attempt,
    replacement: Option<OriginId>, secondAttempt: Attempt)

  datatype Decision =
    | OriginUnhealthy | NetworkBlocked | PrivacyBlocked | CrowdSecBlocked | BotBlocked | RouteBlocked
    | RequestLimited | CorsPreflight | ManagedProtectionBlocked | AppSecUnavailable | AppSecRejected
    | ChallengeRequired | AccessLoginRequired | RateLimited | OriginPoolUnavailable | OriginErrorDecision
    | ProxiedAuthenticated | Allowlisted | ProxiedUnprotected | Proxied

  datatype AccessStatus = StatusVerified | StatusAllowlisted | StatusBypass

  /** One thing a run does to, or asks of, the rest of the system. */
  datatype Step =
    | BanIssued | TokenLookedUp | SessionLookedUp | FlowCreated | UserLookedUp | RateChecked | CacheLookedUp
    | Contacted(origin: OriginId, access: AccessStatus)
    | FailureReported(origin: OriginId) | FailureCleared(origin: OriginId)
    | Recorded(status: nat, decision: Decision)

  /** The steps so far, in order, and the load balancer's passive quarantine after them. */
  datatype Effects = Effects(trace: seq<Step>, quarantine: set<OriginId>) {
    function Do(step: Step): Effects {
      Effects(trace + [step],
              match step
              case FailureReported(id) => quarantine + {id}
              case FailureCleared(id) => quarantine - {id}
              case _ => quarantine)
    }
  }

  function NoEffects(quarantine: set<OriginId>): Effects {
    Effects([], quarantine)
  }

  predicate ClientCaused(e: OriginError) {
    !e.OriginUnavailable?
  }

  predicate Safe(m: Method) {
    m.Get? || m.Head?
  }

  // ---------------------------------------------------------------------------------------------
  // The reference: an ordered list of rules, the first applicable one answers

  /** An exit before any origin is asked. decision is None where no event is recorded. */
  datatype Rule = Rule(applies: bool, status: nat, decision: Option<Decision>)

  predicate ChallengeDemanded(a: Answers) {
    EffectiveAccess(a).Challenge?
  }

  function EffectiveAccess(a: Answers): AccessMode {
    if a.enforcement.ChallengeRequest? || a.ipAction.ChallengeIp? then Challenge
    else if a.ipAction.Allow? then Bypass
    else a.accessMode
  }

  /** A valid API token counts only when access lists are on. */
  predicate HasToken(a: Answers) {
    a.accessListsEnabled && a.apiToken
  }

  predicate NeedsSession(a: Answers) {
    || a.accessListsEnabled || a.accessMode.Challenge? || a.ipAction.ChallengeIp? || a.enforcement.ChallengeRequest?
    || a.rateKeyNeedsSession || a.affinity
  }

  /** The visitor carries a session: the token's, or the one looked up. */
  predicate HasSession(a: Answers) {
    HasToken(a) || (NeedsSession(a) && a.sessionFound)
  }

  predicate HasUser(a: Answers) {
    HasToken(a) || (a.accessListsEnabled && HasSession(a) && a.userOfSession)
  }

  function Redirect(a: Answers): nat {
    if Safe(a.requestMethod) then 302 else 428
  }

  const NO_SITE := 0
  const HTTPS_REDIRECT := 1
  const REQUEST_LIMITED := 8
  const PROTECTION := 10
  const CHALLENGE_REQUIRED := 13
  const ACCESS_LOGIN := 14
  const RATE_LIMITED := 15
  const CACHE_HIT := 16
  const NO_ORIGIN := 17

  const RULES := 18

  /** The k-th rule of the pipeline, in order. */
  function RuleAt(a: Answers, k: nat): Rule
    requires k < RULES
  {
    var inspected := !a.appSecMode.AppSecDisabled? && a.appSecConnected;
    match k
    case 0 => Rule(!a.siteFound, 421, None)
    case 1 => Rule(!a.secure && a.httpsEnabled && a.forceHttps && a.certificateUsable, 308, None)
    case 2 => Rule(a.maintenance, 503, Some(OriginUnhealthy))
    case 3 => Rule(a.ipAction.BlockIp?, 403, Some(NetworkBlocked))
    case 4 => Rule(a.privacyBlock && !a.explicitlyWhitelisted, 403, Some(PrivacyBlocked))
    case 5 => Rule(a.enforcement.BlockRequest? && a.crowdSecDecision, 403, Some(CrowdSecBlocked))
    case 6 => Rule(a.botBlocked, 403, Some(BotBlocked))
    case 7 => Rule(a.accessMode.BlockRoute?, 403, Some(RouteBlocked))
    case 8 => Rule(a.limitViolation.Some?, a.limitViolation.Or(0), Some(RequestLimited))
    case 9 => Rule(a.corsEnabled && a.requestMethod.OptionsMethod? && a.preflightHeader && a.preflight.Some?,
                   a.preflight.Or(0), Some(CorsPreflight))
    case 10 => Rule(a.protection.Blocked?, 403, Some(ManagedProtectionBlocked))
    case 11 => Rule(inspected && a.appSec.AppSecError? && !a.appSecFailOpen, 503, Some(AppSecUnavailable))
    case 12 => Rule(inspected && a.appSec.AppSecBlocked? && a.appSecMode.AppSecBlock?,
                    if a.appSec.AppSecBlocked? then a.appSec.httpStatus.Or(403) else 403, Some(AppSecRejected))
    case 13 => Rule((ChallengeDemanded(a) || a.accessListsEnabled) && !HasSession(a),
                    Redirect(a), Some(ChallengeRequired))
    case 14 => Rule(a.accessListsEnabled && !HasUser(a), Redirect(a), Some(AccessLoginRequired))
    case 15 => Rule(a.rateLimited, 429, Some(RateLimited))
    case 16 => Rule(a.cache.CacheHit?, if a.cache.CacheHit? then a.cache.status else 0, Some(ProxyDecision(a)))
    case _ => Rule(a.origin.None?, 503, Some(OriginPoolUnavailable))
  }

  /** The first applicable rule from k on, or RULES when none applies and the request is forwarded. */
  function FirstFrom(a: Answers, k: nat): (f: nat)
    requires k <= RULES
    ensures f <= RULES
    decreases RULES - k
  {
    if k == RULES || RuleAt(a, k).applies then k else FirstFrom(a, k + 1)
  }

  function FirstApplicable(a: Answers): (f: nat)
    ensures f <= RULES
  {
    FirstFrom(a, 0)
  }

  function Access(a: Answers): AccessStatus {
    if a.accessListsEnabled then StatusVerified
    else if a.ipAction.Allow? then StatusAllowlisted
    else if EffectiveAccess(a).Bypass? then StatusBypass
    else StatusVerified
  }

  function ProxyDecision(a: Answers): Decision {
    if HasUser(a) then ProxiedAuthenticated
    else match Access(a)
      case StatusAllowlisted => Allowlisted
      case StatusBypass => ProxiedUnprotected
      case StatusVerified => Proxied
  }

  /** The reference list is first-match: FirstApplicable is the one rule that applies with none before it. */
  lemma FirstApplicableIsFirst(a: Answers)
    ensures var k := FirstApplicable(a);
      k <= RULES && (k < RULES ==> RuleAt(a, k).applies) && forall j: nat :: j < k ==> !RuleAt(a, j).applies
  {
    FirstFromIsFirst(a, 0);
  }

  lemma {:induction false} FirstFromIsFirst(a: Answers, k: nat)
    requires k <= RULES
    ensures var f := FirstFrom(a, k);
      k <= f <= RULES && (f < RULES ==> RuleAt(a, f).applies) && forall j: nat :: k <= j < f ==> !RuleAt(a, j).applies
    decreases RULES - k
  {
    if k < RULES && !RuleAt(a, k).applies {
      FirstFromIsFirst(a, k + 1);
    }
  }

  // ---------------------------------------------------------------------------------------------
  // The reference for forwarding

  predicate FailsOver(a: Answers) {
    a.firstAttempt == Failed(OriginUnavailable) && Safe(a.requestMethod) && a.replacement.Some?
  }

  /** The attempt whose outcome answers the client. */
  function LastAttempt(a: Answers): Attempt {
    if FailsOver(a) then a.secondAttempt else a.firstAttempt
  }

  function ErrorStatus(e: OriginError): nat {
    match e
    case BodyTooLarge => 413
    case BodyIncomplete => 400
    case BodyTimeout => 408
    case InputRejected(status) => status
    case OriginUnavailable => 502
  }

  function ForwardedEvent(a: Answers): (nat, Decision) {
    match LastAttempt(a)
    case Responded(status) => (status, ProxyDecision(a))
    case Failed(e) => (ErrorStatus(e), if ClientCaused(e) then RequestLimited else OriginErrorDecision)
  }

  /** The steps of forwarding, before the event is recorded. An origin that fails for good is reported twice: when
      it fails and when the failure is answered. */
  function ForwardingSteps(a: Answers): seq<Step>
    requires a.origin.Some?
  {
    var id := a.origin.value;
    [Contacted(id, Access(a))] +
    match a.firstAttempt
    case Responded(_) => [FailureCleared(id)]
    case Failed(e) =>
      if ClientCaused(e) then []
      else [FailureReported(id)] + if FailsOver(a) then FailoverSteps(a) else [FailureReported(id)]
  }

  function FailoverSteps(a: Answers): seq<Step>
    requires a.replacement.Some?
  {
    var id := a.replacement.value;
    [Contacted(id, Access(a))] +
    match a.secondAttempt
    case Responded(_) => [FailureCleared(id)]
    case Failed(e) => if ClientCaused(e) then [] else [FailureReported(id)]
  }

  /** Origins that failed for a reason of their own, and the origin that served. */
  function FailedOrigins(a: Answers): set<OriginId>
    requires a.origin.Some?
  {
    (if a.firstAttempt == Failed(OriginUnavailable) then {a.origin.value} else {})
    + (if FailsOver(a) && a.secondAttempt == Failed(OriginUnavailable) then {a.replacement.value} else {})
  }

  function ServingOrigins(a: Answers): set<OriginId>
    requires a.origin.Some?
  {
    if LastAttempt(a).Responded? then {if FailsOver(a) then a.replacement.value else a.origin.value} else {}
  }

  /** `loadBalancer.selectOrigin` never picks an excluded origin. */
  predicate ReplacementDiffers(a: Answers) {
    a.origin.Some? && a.replacement.Some? ==> a.replacement.value != a.origin.value
  }

  /** The part of the pipeline inside the outer try: an attempt, one failover, and the outer catch. */
  method Forward(a: Answers, access: AccessStatus, decision: Decision, before: Effects)
      returns (status: nat, after: Effects)
    requires a.origin.Some? && ReplacementDiffers(a)
    requires access == Access(a) && decision == ProxyDecision(a)
    ensures status == ForwardedEvent(a).0
    ensures after.trace == before.trace + ForwardingSteps(a) + [Recorded(status, ForwardedEvent(a).1)]
    ensures after.quarantine == before.quarantine + FailedOrigins(a) - ServingOrigins(a)
  {
    hide Access, ProxyDecision;
    var selected := a.origin.value;
    var thrown: Option<OriginError> := None;
    status := 0;
    after := before.Do(Contacted(selected, access));
    match a.firstAttempt {
      case Responded(s) =>
        status := s;
        after := after.Do(FailureCleared(selected));
      case Failed(firstError) =>
        if ClientCaused(firstError) {
          thrown := Some(firstError);
        } else {
          after := after.Do(FailureReported(selected));
          if !Safe(a.requestMethod) || a.replacement.None? {
            thrown := Some(firstError);
          } else {
            selected := a.replacement.value;
            after := after.Do(Contacted(selected, access));
            match a.secondAttempt {
              case Responded(s) =>
                status := s;
                after := after.Do(FailureCleared(selected));
              case Failed(secondError) =>
                thrown := Some(secondError);
            }
          }
        }
    }
    match thrown {
      case None =>
        after := after.Do(Recorded(status, decision));
      case Some(e) =>
        status := ErrorStatus(e);
        if ClientCaused(e) {
          after := after.Do(Recorded(status, RequestLimited));
        } else {
          after := after.Do(FailureReported(selected)).Do(Recorded(status, OriginErrorDecision));
        }
    }
  }

  // ---------------------------------------------------------------------------------------------
  // The pipeline

  function Maybe(happens: bool, step: Step): seq<Step> {
    if happens then [step] else []
  }

  /** The visitor may pass: whoever a challenge or access lists concern has a session, and access lists a user. */
  predicate Authenticated(a: Answers) {
    (ChallengeDemanded(a) || a.accessListsEnabled ==> HasSession(a)) && (a.accessListsEnabled ==> HasUser(a))
  }

  /** The lookups of authentication, in order, when it passes. */
  function Lookups(a: Answers): seq<Step> {
    CredentialLookups(a) + Maybe(a.accessListsEnabled && !HasToken(a), UserLookedUp)
  }

  function CredentialLookups(a: Answers): seq<Step> {
    Maybe(a.accessListsEnabled, TokenLookedUp) + Maybe(!HasToken(a) && NeedsSession(a), SessionLookedUp)
  }

  /** The steps before the event of a run that rule k answers, without forwarding. */
  function Checks(a: Answers, k: nat): seq<Step> {
    if k < CHALLENGE_REQUIRED then Maybe(k == PROTECTION && a.primaryMatch, BanIssued)
    else if k == CHALLENGE_REQUIRED then CredentialLookups(a) + [FlowCreated]
    else Lookups(a) + Maybe(k >= RATE_LIMITED, RateChecked) + Maybe(k >= CACHE_HIT, CacheLookedUp)
  }

  /** What a run must have done when rule k of the reference list is the first applicable one. */
  ghost predicate RunConforms(a: Answers, k: nat, quarantine: set<OriginId>, status: nat, done: Effects)
    requires k <= RULES
  {
    if k < RULES then
      && status == RuleAt(a, k).status && done.quarantine == quarantine
      && done.trace == Checks(a, k) + match RuleAt(a, k).decision case None => [] case Some(d) => [Recorded(status, d)]
    else
      && a.origin.Some? && status == ForwardedEvent(a).0
      && done.trace == Checks(a, k) + ForwardingSteps(a) + [Recorded(status, ForwardedEvent(a).1)]
      && done.quarantine == quarantine + FailedOrigins(a) - ServingOrigins(a)
  }

  /** The site, network, bot and route exits. */
  method NetworkExits(a: Answers, quarantine: set<OriginId>) returns (exited: bool, status: nat, done: Effects)
    ensures var k := FirstApplicable(a);
      && (exited <==> k < REQUEST_LIMITED)
      && (if exited then RunConforms(a, k, quarantine, status, done) else done == NoEffects(quarantine))
  {
    var none := NoEffects(quarantine);
    FirstApplicableIsFirst(a);
    if !a.siteFound {
      return true, 421, none;
    }
    if !a.secure && a.httpsEnabled {
      if a.forceHttps && a.certificateUsable {
        return true, 308, none;
      }
    }
    if a.maintenance {
      return true, 503, none.Do(Recorded(503, OriginUnhealthy));
    }
    if a.ipAction.BlockIp? {
      return true, 403, none.Do(Recorded(403, NetworkBlocked));
    }
    if a.privacyBlock && !a.explicitlyWhitelisted {
      return true, 403, none.Do(Recorded(403, PrivacyBlocked));
    }
    if a.enforcement.BlockRequest? && a.crowdSecDecision {
      return true, 403, none.Do(Recorded(403, CrowdSecBlocked));
    }
    if a.botBlocked {
      return true, 403, none.Do(Recorded(403, BotBlocked));
    }
    if a.accessMode.BlockRoute? {
      return true, 403, none.Do(Recorded(403, RouteBlocked));
    }
    return false, 0, none;
  }

  /** The limit, CORS, managed protection and AppSec exits. */
  method RequestExits(a: Answers, quarantine: set<OriginId>) returns (exited: bool, status: nat, done: Effects)
    requires FirstApplicable(a) >= REQUEST_LIMITED
    ensures var k := FirstApplicable(a);
      && (exited <==> k < CHALLENGE_REQUIRED)
      && (if exited then RunConforms(a, k, quarantine, status, done) else done == NoEffects(quarantine))
  {
    var none := NoEffects(quarantine);
    FirstApplicableIsFirst(a);
    if a.limitViolation.Some? {
      return true, a.limitViolation.value, none.Do(Recorded(a.limitViolation.value, RequestLimited));
    }
    if a.corsEnabled && a.requestMethod.OptionsMethod? && a.preflightHeader {
      if a.preflight.Some? {
        return true, a.preflight.value, none.Do(Recorded(a.preflight.value, CorsPreflight));
      }
    }
    if a.protection.Blocked? {
      var banned := if a.primaryMatch then none.Do(BanIssued) else none;
      return true, 403, banned.Do(Recorded(403, ManagedProtectionBlocked));
    }
    if !a.appSecMode.AppSecDisabled? && a.appSecConnected {
      if a.appSec.AppSecError? {
        if !a.appSecFailOpen {
          return true, 503, none.Do(Recorded(503, AppSecUnavailable));
        }
      } else if a.appSec.AppSecBlocked? && a.appSecMode.AppSecBlock? {
        status := if a.appSec.httpStatus.Some? then a.appSec.httpStatus.value else 403;
        return true, status, none.Do(Recorded(status, AppSecRejected));
      }
    }
    return false, 0, none;
  }

  /** What the pipeline knows of an authenticated visitor. */
  datatype Visitor = Visitor(user: bool, access: AccessStatus)

  /** The challenge and login exits. */
  method AuthenticationExits(a: Answers, quarantine: set<OriginId>)
      returns (exited: bool, status: nat, done: Effects, visitor: Visitor)
    requires FirstApplicable(a) >= CHALLENGE_REQUIRED
    ensures var k := FirstApplicable(a);
      && (exited <==> k < RATE_LIMITED)
      && (if exited then RunConforms(a, k, quarantine, status, done)
          else done == Effects(Lookups(a), quarantine) && visitor == Visitor(HasUser(a), Access(a)))
  {
    FirstApplicableIsFirst(a);
    done := NoEffects(quarantine);
    visitor := Visitor(false, StatusBypass);
    var token := a.accessListsEnabled && a.apiToken;
    if a.accessListsEnabled {
      done := done.Do(TokenLookedUp);
    }
    var crowdSecChallenge := a.enforcement.ChallengeRequest?;
    var needsSession := a.accessListsEnabled || a.accessMode.Challenge? || a.ipAction.ChallengeIp? || crowdSecChallenge
                        || a.rateKeyNeedsSession || a.affinity;
    var candidateSession := token;
    if !token && needsSession {
      done := done.Do(SessionLookedUp);
      candidateSession := a.sessionFound;
    }
    var effectiveAccess := if crowdSecChallenge then Challenge
                           else if a.ipAction.Allow? then Bypass
                           else if a.ipAction.ChallengeIp? then Challenge
                           else a.accessMode;
    var session := token || ((effectiveAccess.Challenge? || a.accessListsEnabled) && candidateSession);
    assert done.trace == CredentialLookups(a);

    if !token && (effectiveAccess.Challenge? || a.accessListsEnabled) && !session {
      assert RuleAt(a, CHALLENGE_REQUIRED).applies;
      done := done.Do(FlowCreated);
      status := if !Safe(a.requestMethod) then 428 else 302;
      return true, status, done.Do(Recorded(status, ChallengeRequired)), visitor;
    }
    assert !RuleAt(a, CHALLENGE_REQUIRED).applies;
    if !token && a.accessListsEnabled {
      done := done.Do(UserLookedUp);
    }
    assert done.trace == Lookups(a);
    var accessUser := token || (a.accessListsEnabled && session && a.userOfSession);
    if !token && a.accessListsEnabled && !accessUser {
      assert RuleAt(a, ACCESS_LOGIN).applies;
      status := if Safe(a.requestMethod) then 302 else 428;
      return true, status, done.Do(Recorded(status, AccessLoginRequired)), visitor;
    }
    assert !RuleAt(a, ACCESS_LOGIN).applies;
    var accessStatus := if a.accessListsEnabled then StatusVerified
                        else if a.ipAction.Allow? then StatusAllowlisted
                        else if effectiveAccess.Bypass? then StatusBypass
                        else StatusVerified;
    return false, 0, done, Visitor(accessUser, accessStatus);
  }

  /** `gateway`, from the request to the returned status. */
  method Handle(a: Answers, quarantine: set<OriginId>) returns (status: nat, done: Effects)
    requires ReplacementDiffers(a)
    ensures IsRun(a, quarantine, status, done)
  {
    hide Lookups, ForwardingSteps, FailedOrigins, ServingOrigins, Access, HasUser, FirstApplicable;
    FirstApplicableIsFirst(a);
    var exited: bool;
    exited, status, done := NetworkExits(a, quarantine);
    if exited {
      return;
    }
    exited, status, done := RequestExits(a, quarantine);
    if exited {
      return;
    }
    var visitor: Visitor;
    exited, status, done, visitor := AuthenticationExits(a, quarantine);
    if exited {
      return;
    }
    done := done.Do(RateChecked);
    if a.rateLimited {
      assert RuleAt(a, RATE_LIMITED).applies;
      return 429, done.Do(Recorded(429, RateLimited));
    }
    assert !RuleAt(a, RATE_LIMITED).applies;
    var decision := if visitor.user then ProxiedAuthenticated
                    else if visitor.access.StatusAllowlisted? then Allowlisted
                    else if visitor.access.StatusBypass? then ProxiedUnprotected
                    else Proxied;
    done := done.Do(CacheLookedUp);
    assert done.trace == Checks(a, RULES);
    if a.cache.CacheHit? {
      assert RuleAt(a, CACHE_HIT).applies;
      return a.cache.status, done.Do(Recorded(a.cache.status, decision));
    }
    assert !RuleAt(a, CACHE_HIT).applies;
    if a.origin.None? {
      assert RuleAt(a, NO_ORIGIN).applies;
      return 503, done.Do(Recorded(503, OriginPoolUnavailable));
    }
    assert !RuleAt(a, NO_ORIGIN).applies;
    status, done := Forward(a, visitor.access, decision, done);
  }

  // ---------------------------------------------------------------------------------------------
  // What holds of every run

  ghost predicate IsRun(a: Answers, quarantine: set<OriginId>, status: nat, done: Effects) {
    FirstApplicable(a) <= RULES && RunConforms(a, FirstApplicable(a), quarantine, status, done)
  }

  /** Which steps the checks consist of. */
  lemma CheckSteps(a: Answers, k: nat)
    ensures forall step <- Checks(a, k) :: !step.Recorded? && !step.Contacted?
              && (step.CacheLookedUp? ==> k >= CACHE_HIT)
    ensures RateChecked in Checks(a, k) <==> k >= RATE_LIMITED
    ensures FlowCreated in Checks(a, k) <==> k == CHALLENGE_REQUIRED
    ensures BanIssued in Checks(a, k) <==> k == PROTECTION && a.primaryMatch
    ensures SessionLookedUp in Checks(a, k) <==> k >= CHALLENGE_REQUIRED && !HasToken(a) && NeedsSession(a)
  {
    hide HasToken, NeedsSession;
  }

  lemma ForwardingContacts(a: Answers)
    requires a.origin.Some?
    ensures forall step <- ForwardingSteps(a) :: step.Contacted? || step.FailureReported? || step.FailureCleared?
    ensures forall step <- ForwardingSteps(a) :: step.Contacted? ==> step.access == Access(a)
    ensures Contacts(ForwardingSteps(a)) == [a.origin.value] + if FailsOver(a) then [a.replacement.value] else []
  {
    hide Access;
    var steps := ForwardingSteps(a);
    if FailsOver(a) {
      var first := [Contacted(a.origin.value, Access(a)), FailureReported(a.origin.value)];
      assert steps == first + FailoverSteps(a);
      ContactsAppend(first, FailoverSteps(a));
      OneContact(first);
      OneContact(FailoverSteps(a));
    } else {
      OneContact(steps);
    }
  }

  lemma OneContact(s: seq<Step>)
    requires s != [] && s[0].Contacted? && forall step <- s[1..] :: !step.Contacted?
    ensures Contacts(s) == [s[0].origin]
  {
    NoContacts(s[1..]);
  }

  /** Past the 421 and 308 exits a run records exactly one event, as its last step and with the status it returns. */
  lemma OneEventPerRun(a: Answers, quarantine: set<OriginId>, status: nat, done: Effects)
    requires IsRun(a, quarantine, status, done)
    ensures FirstApplicable(a) <= HTTPS_REDIRECT ==> done.trace == []
    ensures FirstApplicable(a) > HTTPS_REDIRECT ==>
              && done.trace != []
              && done.trace[|done.trace| - 1] == Recorded(status, done.trace[|done.trace| - 1].decision)
              && forall step <- done.trace[..|done.trace| - 1] :: !step.Recorded?
  {
    var k := FirstApplicable(a);
    if k <= HTTPS_REDIRECT {
      assert Checks(a, k) == [];
    } else {
      if k < RULES {
        RuleRecords(a, k);
      }
      hide Checks, ForwardingSteps, FirstApplicable, RuleAt;
      CheckSteps(a, k);
      if k < RULES {
        assert done.trace[..|done.trace| - 1] == Checks(a, k);
      } else {
        ForwardingContacts(a);
        assert done.trace[..|done.trace| - 1] == Checks(a, k) + ForwardingSteps(a);
      }
    }
  }

  lemma RuleRecords(a: Answers, k: nat)
    requires k < RULES
    ensures RuleAt(a, k).decision.Some? <==> k > HTTPS_REDIRECT
  {
  }

  /** Something demands a challenge: the IP rule, CrowdSec, or the route unless an IP rule allows the address. */
  predicate Challenged(a: Answers) {
    a.ipAction == ChallengeIp || a.enforcement == ChallengeRequest || (a.accessMode == Challenge && a.ipAction != Allow)
  }

  /** What the visitor must bring: for access lists a token, or a session with a user; for a challenge a session. */
  predicate Entitled(a: Answers) {
    if a.accessListsEnabled then a.apiToken || (a.sessionFound && a.userOfSession)
    else Challenged(a) ==> a.sessionFound
  }

  lemma EntitledIff(a: Answers)
    ensures Authenticated(a) <==> Entitled(a)
    ensures ChallengeDemanded(a) <==> Challenged(a)
    ensures HasToken(a) || NeedsSession(a) ==> (HasSession(a) <==> HasToken(a) || a.sessionFound)
  {
  }

  /** No run reaches the cache or an origin unless the visitor is entitled to it, and an origin is told of a verified
      visitor only if there is a token or a session. */
  lemma ReachedMeansAuthenticated(a: Answers, quarantine: set<OriginId>, status: nat, done: Effects)
    requires IsRun(a, quarantine, status, done)
    requires exists step <- done.trace :: step.CacheLookedUp? || step.Contacted?
    ensures Entitled(a)
    ensures forall id :: Contacted(id, StatusVerified) in done.trace ==>
              (a.accessListsEnabled && a.apiToken) || a.sessionFound
    ensures forall id :: Contacted(id, StatusAllowlisted) in done.trace ==> a.ipAction == Allow && !a.accessListsEnabled
    ensures forall id :: Contacted(id, StatusBypass) in done.trace ==>
              !Challenged(a) && a.ipAction != Allow && !a.accessListsEnabled
  {
    hide Checks, ForwardingSteps, FirstApplicable, Access, Entitled, Challenged;
    var k := FirstApplicable(a);
    CheckSteps(a, k);
    assert k >= CACHE_HIT;
    AccessMeans(a);
    if k == RULES {
      ForwardingContacts(a);
    }
  }

  lemma AccessMeans(a: Answers)
    requires FirstApplicable(a) >= CACHE_HIT
    ensures Entitled(a)
    ensures Access(a) == StatusVerified ==> (a.accessListsEnabled && a.apiToken) || a.sessionFound
    ensures Access(a) == StatusAllowlisted ==> a.ipAction == Allow && !a.accessListsEnabled
    ensures Access(a) == StatusBypass ==> !Challenged(a) && a.ipAction != Allow && !a.accessListsEnabled
  {
    PassedMeansAuthenticated(a);
    EntitledIff(a);
  }

  lemma PassedMeansAuthenticated(a: Answers)
    requires FirstApplicable(a) >= CHALLENGE_REQUIRED
    ensures FirstApplicable(a) >= RATE_LIMITED <==> Authenticated(a)
    ensures Authenticated(a) && Access(a).StatusVerified? ==> HasSession(a)
  {
    hide FirstApplicable;
    FirstApplicableIsFirst(a);
    var k := FirstApplicable(a);
    assert !RuleAt(a, 7).applies;
    if k >= RATE_LIMITED {
      assert !RuleAt(a, CHALLENGE_REQUIRED).applies && !RuleAt(a, ACCESS_LOGIN).applies;
    } else {
      assert RuleAt(a, k).applies;
    }
  }

  /** Whoever gets as far as authentication without a token has a session looked up exactly if a challenge, access
      lists, the rate limit's key or affinity asks for one. A flow is created exactly for those who then lack what
      the challenge or the lists demand, right after the lookup and right before the redirect is recorded. */
  lemma ChallengedOnlyAfterLookup(a: Answers, quarantine: set<OriginId>, status: nat, done: Effects)
    requires IsRun(a, quarantine, status, done)
    ensures ReachesAuthentication(a) && Challenged(a) && !(a.accessListsEnabled && a.apiToken) ==>
              SessionLookedUp in done.trace
    ensures SessionLookedUp in done.trace <==>
              && ReachesAuthentication(a) && !(a.accessListsEnabled && a.apiToken)
              && (a.accessListsEnabled || a.accessMode == Challenge || a.ipAction == ChallengeIp
                  || a.enforcement == ChallengeRequest || a.rateKeyNeedsSession || a.affinity)
    ensures FlowCreated in done.trace <==>
              && ReachesAuthentication(a) && !(a.accessListsEnabled && a.apiToken) && !a.sessionFound
              && (a.accessListsEnabled || Challenged(a))
    ensures FlowCreated in done.trace ==>
              && status == (if a.requestMethod == Get || a.requestMethod == Head then 302 else 428)
              && done.trace == Maybe(a.accessListsEnabled, TokenLookedUp)
                               + [SessionLookedUp, FlowCreated, Recorded(status, ChallengeRequired)]
  {
    hide FirstApplicable, ForwardingSteps, Checks;
    var k := FirstApplicable(a);
    CheckSteps(a, k);
    FirstApplicableIsFirst(a);
    ReachesAuthenticationIff(a);
    EntitledIff(a);
    if k >= CHALLENGE_REQUIRED {
      assert k == CHALLENGE_REQUIRED <==> RuleAt(a, CHALLENGE_REQUIRED).applies;
    }
    if k == RULES {
      ForwardingContacts(a);
    } else if k == CHALLENGE_REQUIRED {
      FlowTrace(a, quarantine, status, done);
    }
  }

  lemma FlowTrace(a: Answers, quarantine: set<OriginId>, status: nat, done: Effects)
    requires RunConforms(a, CHALLENGE_REQUIRED, quarantine, status, done) && RuleAt(a, CHALLENGE_REQUIRED).applies
    ensures status == if a.requestMethod == Get || a.requestMethod == Head then 302 else 428
    ensures done.trace == Maybe(a.accessListsEnabled, TokenLookedUp)
                          + [SessionLookedUp, FlowCreated, Recorded(status, ChallengeRequired)]
  {
  }

  /** Nothing stops the request before authentication: the site is known and served over the right scheme, nobody
      blocks the address, the bot or the route, and the request itself is acceptable. */
  predicate ReachesAuthentication(a: Answers) {
    && a.siteFound && (a.secure || !a.httpsEnabled || !a.forceHttps || !a.certificateUsable) && !a.maintenance
    && a.ipAction != BlockIp && (!a.privacyBlock || a.explicitlyWhitelisted)
    && (a.enforcement != BlockRequest || !a.crowdSecDecision) && !a.botBlocked && a.accessMode != BlockRoute
    && a.limitViolation == None
    && !(a.requestMethod == OptionsMethod && a.corsEnabled && a.preflightHeader && a.preflight.Some?)
    && a.protection != Blocked
    && (a.appSecMode == AppSecDisabled || !a.appSecConnected || AppSecPasses(a))
  }

  predicate AppSecPasses(a: Answers) {
    match a.appSec
    case AppSecClean => true
    case AppSecError => a.appSecFailOpen
    case AppSecBlocked(_) => a.appSecMode == AppSecMonitor
  }

  lemma ReachesAuthenticationIff(a: Answers)
    ensures FirstApplicable(a) >= CHALLENGE_REQUIRED <==> ReachesAuthentication(a)
  {
    hide FirstApplicable;
    FirstApplicableIsFirst(a);
    var k := FirstApplicable(a);
    if k >= CHALLENGE_REQUIRED {
      forall j: nat | j < CHALLENGE_REQUIRED ensures !RuleAt(a, j).applies {}
      assert !RuleAt(a, 0).applies && !RuleAt(a, 1).applies && !RuleAt(a, 2).applies && !RuleAt(a, 3).applies;
      assert !RuleAt(a, 4).applies && !RuleAt(a, 5).applies && !RuleAt(a, 6).applies && !RuleAt(a, 7).applies;
      assert !RuleAt(a, 8).applies && !RuleAt(a, 9).applies && !RuleAt(a, 10).applies && !RuleAt(a, 11).applies;
      assert !RuleAt(a, 12).applies;
    } else {
      assert RuleAt(a, k).applies;
    }
  }

  /** The rate limit is consumed exactly by requests that got as far as authentication and passed it; cache and
      origins come only after it; and a ban is issued only by a protection block, right before its event. */
  lemma RateLimitAndBans(a: Answers, quarantine: set<OriginId>, status: nat, done: Effects)
    requires IsRun(a, quarantine, status, done)
    ensures RateChecked in done.trace <==> ReachesAuthentication(a) && Entitled(a)
    ensures forall i :: 0 <= i < |done.trace| && (done.trace[i].CacheLookedUp? || done.trace[i].Contacted?) ==>
              RateChecked in done.trace[..i]
    ensures BanIssued in done.trace ==>
              done.trace == [BanIssued, Recorded(403, ManagedProtectionBlocked)] && a.protection.Blocked?
  {
    hide FirstApplicable, ForwardingSteps, Checks, Authenticated, Entitled, ReachesAuthentication;
    ReachesAuthenticationIff(a);
    EntitledIff(a);
    var k := FirstApplicable(a);
    FirstApplicableIsFirst(a);
    CheckSteps(a, k);
    if k >= CHALLENGE_REQUIRED {
      PassedMeansAuthenticated(a);
    }
    if k == RULES {
      ForwardingContacts(a);
    }
    assert RateChecked in done.trace <==> k >= RATE_LIMITED;
    if k >= CACHE_HIT {
      RateCheckedFirst(a, k, done.trace);
    }
    if BanIssued in done.trace {
      BanTrace(a, quarantine, status, done);
    }
  }

  lemma RateCheckedFirst(a: Answers, k: nat, trace: seq<Step>)
    requires k >= CACHE_HIT && Checks(a, k) <= trace
    ensures forall i :: 0 <= i < |trace| && (trace[i].CacheLookedUp? || trace[i].Contacted?) ==>
              RateChecked in trace[..i]
  {
    hide CredentialLookups;
    var n := |Lookups(a)|;
    LookupSteps(a);
    forall i | 0 <= i < n ensures !trace[i].CacheLookedUp? && !trace[i].Contacted? {
      assert trace[i] == Checks(a, k)[i] == Lookups(a)[i] && Lookups(a)[i] in Lookups(a);
    }
    assert trace[n] == Checks(a, k)[n] == RateChecked;
    forall i | 0 <= i < |trace| && (trace[i].CacheLookedUp? || trace[i].Contacted?) ensures RateChecked in trace[..i] {
      assert trace[..i][n] == RateChecked;
    }
  }

  lemma LookupSteps(a: Answers)
    ensures forall step <- Lookups(a) :: step.TokenLookedUp? || step.SessionLookedUp? || step.UserLookedUp?
  {
  }

  lemma BanTrace(a: Answers, quarantine: set<OriginId>, status: nat, done: Effects)
    requires RunConforms(a, PROTECTION, quarantine, status, done) && RuleAt(a, PROTECTION).applies && a.primaryMatch
    ensures done.trace == [BanIssued, Recorded(403, ManagedProtectionBlocked)] && a.protection.Blocked?
  {
  }

  /** The origins a trace contacts, in order. */
  function Contacts(trace: seq<Step>): seq<OriginId> {
    if trace == [] then []
    else if trace[0].Contacted? then [trace[0].origin] + Contacts(trace[1..])
    else Contacts(trace[1..])
  }

  /** Neither the rate limit nor the cache answers, and there is an origin to forward to. */
  predicate Forwards(a: Answers) {
    ReachesAuthentication(a) && Entitled(a) && !a.rateLimited && !a.cache.CacheHit? && a.origin.Some?
  }

  /** A GET or HEAD whose origin failed by itself, and there is another origin. */
  predicate Retries(a: Answers) {
    && (a.requestMethod == Get || a.requestMethod == Head)
    && a.firstAttempt == Failed(OriginUnavailable) && a.replacement.Some?
  }

  /** The selected origin is contacted exactly if the request is forwarded, and a different one after it exactly if
      it is retried. The quarantine gains exactly the contacted origins that failed by themselves and loses exactly
      the one that served. */
  lemma FailoverLaws(a: Answers, quarantine: set<OriginId>, status: nat, done: Effects)
    requires IsRun(a, quarantine, status, done) && ReplacementDiffers(a)
    ensures Contacts(done.trace) ==
            if !Forwards(a) then [] else if Retries(a) then [a.origin.value, a.replacement.value] else [a.origin.value]
    ensures Retries(a) && a.origin.Some? ==> a.origin.value != a.replacement.value
    ensures forall id :: id in done.quarantine <==>
              var first := Forwards(a) && a.origin == Some(id);
              var second := Forwards(a) && Retries(a) && a.replacement == Some(id);
              || (first && a.firstAttempt == Failed(OriginUnavailable))
              || (second && a.secondAttempt == Failed(OriginUnavailable))
              || (id in quarantine && !(first && a.firstAttempt.Responded?) && !(second && a.secondAttempt.Responded?))
  {
    hide Contacts, Checks, ForwardingSteps, FirstApplicable, ReachesAuthentication, Entitled;
    ContactsOfRun(a, quarantine, status, done);
    ForwardsIff(a);
  }

  lemma ForwardsIff(a: Answers)
    ensures FirstApplicable(a) == RULES <==> Forwards(a)
    ensures FailsOver(a) <==> Retries(a)
  {
    hide FirstApplicable, ReachesAuthentication, Entitled, Authenticated;
    ReachesAuthenticationIff(a);
    EntitledIff(a);
    FirstApplicableIsFirst(a);
    var k := FirstApplicable(a);
    if k >= CHALLENGE_REQUIRED {
      PassedMeansAuthenticated(a);
      if k == RULES {
        assert !RuleAt(a, RATE_LIMITED).applies && !RuleAt(a, CACHE_HIT).applies && !RuleAt(a, NO_ORIGIN).applies;
      } else {
        assert RuleAt(a, k).applies;
      }
    }
  }

  // ---------------------------------------------------------------------------------------------
  // What a recorded decision says about the request

  /** The status answered is one that the cache or an attempt gave. */
  predicate Served(a: Answers, status: nat) {
    a.cache == CacheHit(status) || a.firstAttempt == Responded(status) || a.secondAttempt == Responded(status)
  }

  /** The status answered is that of a client's own mistake while its body was being forwarded. */
  predicate BodyRefused(attempt: Attempt, status: nat) {
    || (attempt == Failed(BodyTooLarge) && status == 413) || (attempt == Failed(BodyIncomplete) && status == 400)
    || (attempt == Failed(BodyTimeout) && status == 408) || attempt == Failed(InputRejected(status))
  }

  /** The cause and the status that each recorded decision stands for. */
  predicate Explains(a: Answers, status: nat, decision: Decision) {
    var redirect := if a.requestMethod == Get || a.requestMethod == Head then 302 else 428;
    match decision
    case OriginUnhealthy => status == 503 && a.maintenance
    case NetworkBlocked => status == 403 && a.ipAction == BlockIp
    case PrivacyBlocked => status == 403 && a.privacyBlock && !a.explicitlyWhitelisted
    case CrowdSecBlocked => status == 403 && a.enforcement == BlockRequest && a.crowdSecDecision
    case BotBlocked => status == 403 && a.botBlocked
    case RouteBlocked => status == 403 && a.accessMode == BlockRoute
    case RequestLimited =>
      a.limitViolation == Some(status) || BodyRefused(a.firstAttempt, status) || BodyRefused(a.secondAttempt, status)
    case CorsPreflight => a.preflight == Some(status) && a.corsEnabled && a.requestMethod == OptionsMethod
    case ManagedProtectionBlocked => status == 403 && a.protection == Blocked
    case AppSecUnavailable => status == 503 && a.appSec == AppSecError && !a.appSecFailOpen
    case AppSecRejected =>
      && a.appSecMode == AppSecBlock
      && (a.appSec == AppSecBlocked(Some(status)) || (a.appSec == AppSecBlocked(None) && status == 403))
    case ChallengeRequired => status == redirect && !a.sessionFound && (a.accessListsEnabled || Challenged(a))
    case AccessLoginRequired => status == redirect && a.accessListsEnabled && a.sessionFound && !a.userOfSession
    case RateLimited => status == 429 && a.rateLimited
    case OriginPoolUnavailable => status == 503 && a.origin == None
    case OriginErrorDecision =>
      status == 502 && (a.firstAttempt == Failed(OriginUnavailable) || a.secondAttempt == Failed(OriginUnavailable))
    case ProxiedAuthenticated =>
      Served(a, status) && a.accessListsEnabled && (a.apiToken || (a.sessionFound && a.userOfSession))
    case Allowlisted => Served(a, status) && !a.accessListsEnabled && a.ipAction == Allow
    case ProxiedUnprotected => Served(a, status) && !a.accessListsEnabled && a.ipAction != Allow && !Challenged(a)
    case Proxied => Served(a, status) && !a.accessListsEnabled && Challenged(a) && a.sessionFound
  }

  /** Every event of every run is explained by the request, and a known site asked for over the wrong scheme, or an
      unknown one, is answered by 308 or 421 without one. */
  lemma EventsExplained(a: Answers, quarantine: set<OriginId>, status: nat, done: Effects)
    requires IsRun(a, quarantine, status, done)
    ensures forall st, d :: Recorded(st, d) in done.trace ==> st == status && Explains(a, st, d)
    ensures done.trace == [] <==> !a.siteFound || (!a.secure && a.httpsEnabled && a.forceHttps && a.certificateUsable)
    ensures done.trace == [] ==> status == if a.siteFound then 308 else 421
  {
    hide FirstApplicable, Checks, ForwardingSteps;
    var k := FirstApplicable(a);
    FirstApplicableIsFirst(a);
    CheckSteps(a, k);
    if k < RULES {
      RuleRecords(a, k);
      RuleExplained(a, k);
      SilentRules(a);
      if k <= HTTPS_REDIRECT {
        NoChecks(a, k);
      }
    } else {
      ForwardingContacts(a);
      ForwardExplained(a);
      assert !RuleAt(a, 0).applies && !RuleAt(a, 1).applies;
    }
  }

  /** The order in which the pipeline looks for a reason to stop. */
  function Position(d: Decision): nat {
    match d
    case OriginUnhealthy => 0
    case NetworkBlocked => 1
    case PrivacyBlocked => 2
    case CrowdSecBlocked => 3
    case BotBlocked => 4
    case RouteBlocked => 5
    case RequestLimited => 6
    case CorsPreflight => 7
    case ManagedProtectionBlocked => 8
    case AppSecUnavailable => 9
    case AppSecRejected => 10
    case ChallengeRequired => 11
    case AccessLoginRequired => 12
    case RateLimited => 13
    case _ => 14
  }

  /** The reason to stop is there, whether or not the pipeline gets to it. */
  predicate Reason(a: Answers, d: Decision) {
    var inspected := a.appSecMode != AppSecDisabled && a.appSecConnected;
    match d
    case OriginUnhealthy => a.maintenance
    case NetworkBlocked => a.ipAction == BlockIp
    case PrivacyBlocked => a.privacyBlock && !a.explicitlyWhitelisted
    case CrowdSecBlocked => a.enforcement == BlockRequest && a.crowdSecDecision
    case BotBlocked => a.botBlocked
    case RouteBlocked => a.accessMode == BlockRoute
    case RequestLimited => a.limitViolation != None
    case CorsPreflight => a.requestMethod == OptionsMethod && a.corsEnabled && a.preflightHeader && a.preflight != None
    case ManagedProtectionBlocked => a.protection == Blocked
    case AppSecUnavailable => inspected && a.appSec == AppSecError && !a.appSecFailOpen
    case AppSecRejected => inspected && a.appSec.AppSecBlocked? && a.appSecMode == AppSecBlock
    case ChallengeRequired =>
      !a.sessionFound && if a.accessListsEnabled then !a.apiToken else Challenged(a)
    case AccessLoginRequired => a.accessListsEnabled && !Entitled(a)
    case RateLimited => a.rateLimited
    case _ => false
  }

  /** A recorded decision means that no reason that comes before it in the order was there. */
  lemma NothingBefore(a: Answers, quarantine: set<OriginId>, status: nat, done: Effects,
                      st: nat, d: Decision, r: Decision)
    requires IsRun(a, quarantine, status, done) && Recorded(st, d) in done.trace && Position(r) < Position(d)
    ensures !Reason(a, r)
  {
    hide FirstApplicable, Checks, ForwardingSteps, Reason;
    var k := FirstApplicable(a);
    FirstApplicableIsFirst(a);
    CheckSteps(a, k);
    if k < RULES {
      RulePosition(a, k);
    } else {
      ForwardingContacts(a);
    }
    ReasonIs(a, r);
    assert !RuleAt(a, Position(r) + 2).applies;
  }

  lemma RulePosition(a: Answers, k: nat)
    requires k < RULES
    ensures RuleAt(a, k).decision.Some? ==> Position(RuleAt(a, k).decision.value) <= k - 2
  {
  }

  lemma ReasonIs(a: Answers, r: Decision)
    requires Position(r) < 14
    ensures Reason(a, r) <==> RuleAt(a, Position(r) + 2).applies
  {
    EntitledIff(a);
  }

  lemma NoChecks(a: Answers, k: nat)
    requires k <= HTTPS_REDIRECT
    ensures Checks(a, k) == []
  {
  }

  lemma SilentRules(a: Answers)
    requires FirstApplicable(a) < RULES
    ensures FirstApplicable(a) <= HTTPS_REDIRECT <==>
              !a.siteFound || (!a.secure && a.httpsEnabled && a.forceHttps && a.certificateUsable)
  {
    hide FirstApplicable;
    FirstApplicableIsFirst(a);
    var k := FirstApplicable(a);
    assert k > 0 ==> !RuleAt(a, 0).applies;
    assert k > 1 ==> !RuleAt(a, 1).applies;
    assert RuleAt(a, k).applies;
  }

  lemma RuleExplained(a: Answers, k: nat)
    requires k < RULES && k == FirstApplicable(a)
    ensures RuleAt(a, k).decision.Some? ==> Explains(a, RuleAt(a, k).status, RuleAt(a, k).decision.value)
    ensures k <= HTTPS_REDIRECT ==> RuleAt(a, k).status == if a.siteFound then 308 else 421
  {
    hide FirstApplicable;
    FirstApplicableIsFirst(a);
    assert RuleAt(a, k).applies;
    assert k == 1 ==> !RuleAt(a, 0).applies;
    if k == ACCESS_LOGIN {
      assert !RuleAt(a, CHALLENGE_REQUIRED).applies;
    }
    if k == CACHE_HIT {
      DecisionExplained(a, a.cache.status);
    }
  }

  lemma DecisionExplained(a: Answers, status: nat)
    requires FirstApplicable(a) >= CACHE_HIT && Served(a, status)
    ensures Explains(a, status, ProxyDecision(a))
  {
    PassedMeansAuthenticated(a);
    hide FirstApplicable;
    FirstApplicableIsFirst(a);
    assert !RuleAt(a, 7).applies;
  }

  lemma ForwardExplained(a: Answers)
    requires FirstApplicable(a) == RULES
    ensures Explains(a, ForwardedEvent(a).0, ForwardedEvent(a).1)
  {
    match LastAttempt(a) {
      case Responded(status) => DecisionExplained(a, status);
      case Failed(e) =>
    }
  }

  // ---------------------------------------------------------------------------------------------
  // Contacts in a trace

  lemma ContactsOfRun(a: Answers, quarantine: set<OriginId>, status: nat, done: Effects)
    requires IsRun(a, quarantine, status, done)
    ensures Contacts(done.trace) ==
            if FirstApplicable(a) < RULES then []
            else [a.origin.value] + if FailsOver(a) then [a.replacement.value] else []
  {
    hide Contacts, Checks, ForwardingSteps, FirstApplicable;
    var k := FirstApplicable(a);
    CheckSteps(a, k);
    if k < RULES {
      NoContacts(done.trace);
    } else {
      var event := [Recorded(status, ForwardedEvent(a).1)];
      NoContacts(Checks(a, k));
      NoContacts(event);
      ForwardingContacts(a);
      ContactsAppend(Checks(a, k) + ForwardingSteps(a), event);
      ContactsAppend(Checks(a, k), ForwardingSteps(a));
    }
  }

  lemma {:induction false} ContactsAppend(s: seq<Step>, t: seq<Step>)
    ensures Contacts(s + t) == Contacts(s) + Contacts(t)
  {
    if s == [] {
      assert s + t == t;
    } else {
      ContactsAppend(s[1..], t);
      ContactsAppendCons(s, t);
    }
  }

  lemma ContactsAppendCons(s: seq<Step>, t: seq<Step>)
    requires s != [] && Contacts(s[1..] + t) == Contacts(s[1..]) + Contacts(t)
    ensures Contacts(s + t) == Contacts(s) + Contacts(t)
  {
    hide Contacts;
    ContactsCons(s);
    ContactsCons(s + t);
    assert (s + t)[1..] == s[1..] + t;
  }

  lemma ContactsCons(s: seq<Step>)
    requires s != []
    ensures Contacts(s) == (if s[0].Contacted? then [s[0].origin] else []) + Contacts(s[1..])
  {
  }

  lemma {:induction false} NoContacts(s: seq<Step>)
    requires forall step <- s :: !step.Contacted?
    ensures Contacts(s) == []
  {
    if s != [] {
      assert forall step <- s[1..] :: step in s;
      NoContacts(s[1..]);
    }
  }
}
