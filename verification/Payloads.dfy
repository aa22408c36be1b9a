/**
  The credential payloads that the broker keeps in the canonical record, and the
  builders that move a payload from one state to the next (src/auth-broker.mjs).

  SHA-256 is modelled as an injective constructor: a hash remembers what was hashed
  and under which domain, so two hashes are equal exactly when their inputs are.
  The canonical JSON text of a payload is compared in the source; here the payload
  value itself is compared.
 */
module Payloads {
  import opened Options

  /** `authJson` stands for the rest of the Codex auth file; its refresh token is shown apart. */
  datatype Credential = Credential(
    accessToken: string,
    refreshToken: string,
    accountId: string,
    userId: string,
    expiresAt: int,
    authJson: string)

  datatype Hash = TokenHash(token: string) | IdentityHash(identity: string)

  datatype Reason =
    | AccessTokenUnchanged
    | AccountIdentityChanged
    | AdapterPostDispatchUncertain
    | InvalidGrant
    | InvalidRefreshCandidate
    | RefreshTokenReused
    | RefreshInProgress
    | RemoteReauthRequired
    | TokenTtlInsufficient
    | UserIdentityChanged

  datatype BlockedStatus = ReauthRequired | RecoveryRequired

  /** What a blocked record remembers of the credential whose refresh was reserved. */
  datatype Fence = Fence(
    reservationId: nat,
    sourceAccount: Hash,
    sourceAccess: Hash,
    sourceRefresh: Hash,
    sourceUser: Hash)

  datatype Payload =
    | Ready(credential: Credential)
    | Blocked(status: BlockedStatus, reason: Reason, fence: Fence)

  function FenceOf(source: Credential, reservationId: nat): Fence {
    Fence(reservationId,
          IdentityHash(source.accountId),
          TokenHash(source.accessToken),
          TokenHash(source.refreshToken),
          IdentityHash(source.userId))
  }

  /** `refreshReservationPayload` */
  function Reservation(source: Credential, reservationId: nat): Payload {
    Blocked(RecoveryRequired, RefreshInProgress, FenceOf(source, reservationId))
  }

  predicate IsReservation(p: Payload) {
    p.Blocked? && p.status == RecoveryRequired && p.reason == RefreshInProgress
  }

  /** `blockedPayload`: a blocked outcome never claims that a refresh is still in progress. */
  function BlockedOutcome(status: BlockedStatus, reason: Reason, fence: Fence): (p: Payload)
    ensures p.Blocked? && p.fence == fence && p.status == status && !IsReservation(p)
  {
    var fallback := if status == ReauthRequired then RemoteReauthRequired else AdapterPostDispatchUncertain;
    Blocked(status, if reason == RefreshInProgress then fallback else reason, fence)
  }

  /** What the injected refresh adapter may do: return a candidate or throw. */
  datatype AdapterReply =
    | Candidate(credential: Credential, wellFormed: bool, ttlSufficient: bool)
    | NeedsLogin(reason: Reason)
    | MaybeDispatched(reason: Reason)
    | NotDispatched
    | Unclassified

  /** `#validateRefreshCandidate`: the first reason to refuse, or `RefreshInProgress` for none. */
  function CandidateFault(previous: Credential, reply: AdapterReply): Reason
    requires reply.Candidate?
  {
    var next := reply.credential;
    if !reply.wellFormed then InvalidRefreshCandidate
    else if next.accountId != previous.accountId then AccountIdentityChanged
    else if next.userId != previous.userId then UserIdentityChanged
    else if next.accessToken == previous.accessToken then AccessTokenUnchanged
    else if next.refreshToken == previous.refreshToken then RefreshTokenReused
    else if !reply.ttlSufficient then TokenTtlInsufficient
    else RefreshInProgress
  }

  /** The candidate may replace the credential: of the same account and user, new, and long enough alive. */
  predicate Acceptable(source: Credential, reply: AdapterReply) {
    && reply.Candidate?
    && reply.wellFormed
    && reply.ttlSufficient
    && reply.credential.accountId == source.accountId
    && reply.credential.userId == source.userId
    && reply.credential.accessToken != source.accessToken
    && reply.credential.refreshToken != source.refreshToken
  }

  /** The payload that a refresh commits on top of its reservation (`#refreshOnce`). */
  function Settle(previous: Credential, fence: Fence, reply: AdapterReply): Payload {
    match reply
    case Candidate(next, _, _) =>
      if CandidateFault(previous, reply) == RefreshInProgress
      then Ready(next)
      else BlockedOutcome(RecoveryRequired, CandidateFault(previous, reply), fence)
    case NeedsLogin(reason) => BlockedOutcome(ReauthRequired, reason, fence)
    case MaybeDispatched(reason) => BlockedOutcome(RecoveryRequired, reason, fence)
    case NotDispatched => Ready(previous)
    case Unclassified => BlockedOutcome(RecoveryRequired, AdapterPostDispatchUncertain, fence)
  }

  /**
    What the adapter said decides what is committed: the source comes back only if nothing was
    sent, a new credential only if it is acceptable, and everything else stays blocked.
   */
  lemma SettleIsExact(source: Credential, fence: Fence, reply: AdapterReply)
    ensures Settle(source, fence, reply) == Ready(source) <==> reply == NotDispatched
    ensures reply.Candidate? ==>
              (Settle(source, fence, reply) == Ready(reply.credential) <==> Acceptable(source, reply))
    ensures Settle(source, fence, reply).Blocked? <==> reply != NotDispatched && !Acceptable(source, reply)
    ensures Settle(source, fence, reply).Blocked? ==>
              && Settle(source, fence, reply).fence == fence
              && !IsReservation(Settle(source, fence, reply))
              && (Settle(source, fence, reply).status == ReauthRequired <==> reply.NeedsLogin?)
  {
  }

  /** Why a record stays blocked: the first fault of the candidate, or what the adapter says. */
  lemma BlockedReasonIsExact(source: Credential, fence: Fence, reply: AdapterReply)
    requires Settle(source, fence, reply).Blocked?
    ensures var reason := Settle(source, fence, reply).reason;
            match reply
            case Candidate(next, wellFormed, ttlSufficient) =>
              && (reason == InvalidRefreshCandidate <==> !wellFormed)
              && (reason == AccountIdentityChanged <==> wellFormed && next.accountId != source.accountId)
              && (reason == UserIdentityChanged <==>
                    wellFormed && next.accountId == source.accountId && next.userId != source.userId)
              && (reason in {AccessTokenUnchanged, RefreshTokenReused, TokenTtlInsufficient} <==>
                    wellFormed && next.accountId == source.accountId && next.userId == source.userId)
              && (reason == AccessTokenUnchanged ==> next.accessToken == source.accessToken)
              && (reason == RefreshTokenReused ==>
                    next.accessToken != source.accessToken && next.refreshToken == source.refreshToken)
              && (reason == TokenTtlInsufficient ==>
                    && !ttlSufficient
                    && next.accessToken != source.accessToken && next.refreshToken != source.refreshToken)
            case NeedsLogin(said) => reason == if said == RefreshInProgress then RemoteReauthRequired else said
            case MaybeDispatched(said) =>
              reason == if said == RefreshInProgress then AdapterPostDispatchUncertain else said
            case Unclassified => reason == AdapterPostDispatchUncertain
            case NotDispatched => true
  {
  }

  /** The error codes that the broker looks for in what an adapter throws. */
  datatype AdapterCode = LoginNeeded | TokenReused | GrantInvalid | RecoveryNeeded | OutcomeUncertain | OtherCode

  /** What the broker reads of a thrown value; `reason` is set if it is one of the known reasons. */
  datatype AdapterError = AdapterError(code: AdapterCode, postDispatch: bool, preDispatch: bool, reason: Option<Reason>)

  /** `adapterFailureKind` */
  function FailureKind(error: AdapterError): AdapterReply {
    match error.code
    case LoginNeeded => NeedsLogin(RemoteReauthRequired)
    case TokenReused => NeedsLogin(RefreshTokenReused)
    case GrantInvalid => NeedsLogin(InvalidGrant)
    case _ =>
      if error.postDispatch || error.code == RecoveryNeeded || error.code == OutcomeUncertain then
        MaybeDispatched(if error.reason.Some? then error.reason.value else AdapterPostDispatchUncertain)
      else if error.preDispatch then NotDispatched
      else Unclassified
  }

  /**
    Of all errors only one that says that it came before the dispatch, and neither that it came
    after nor any of the known codes, brings the source credential back.
   */
  lemma ThrownIsSettledSafely(source: Credential, fence: Fence, error: AdapterError)
    ensures Settle(source, fence, FailureKind(error)) == Ready(source) <==>
              error.code == OtherCode && error.preDispatch && !error.postDispatch
    ensures Settle(source, fence, FailureKind(error)) != Ready(source) ==>
              var p := Settle(source, fence, FailureKind(error));
              && p.Blocked?
              && p.fence == fence
              && p.status == (if error.code in {LoginNeeded, TokenReused, GrantInvalid}
                              then ReauthRequired else RecoveryRequired)
              && (error.code == OtherCode && !error.postDispatch ==> p.reason == AdapterPostDispatchUncertain)
  {
  }

  /** The replacement keeps the identities behind the fence and brings back neither token. */
  predicate Replaces(next: Credential, fence: Fence) {
    && IdentityHash(next.accountId) == fence.sourceAccount
    && IdentityHash(next.userId) == fence.sourceUser
    && TokenHash(next.accessToken) != fence.sourceAccess
    && TokenHash(next.refreshToken) != fence.sourceRefresh
  }

  /** Hash comparison in a recovery decides exactly what the plain comparison would. */
  lemma ReplacesComparesSources(next: Credential, source: Credential, reservationId: nat)
    ensures Replaces(next, FenceOf(source, reservationId)) <==>
              && next.accountId == source.accountId
              && next.userId == source.userId
              && next.accessToken != source.accessToken
              && next.refreshToken != source.refreshToken
  {
  }
}
