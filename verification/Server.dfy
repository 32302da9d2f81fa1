/**
 * The authentication server as a state machine. Every async function is cut at its
 * awaits: a step is the code between two of them, and any steps of any calls may
 * interleave. Random ids are fresh, the ACL resolver answers anything, and the clock
 * never runs backwards.
 */
module Server {
  import opened Options
  import Sessions
  import Challenges

  /** A JavaScript number a resolver may return as its bound. */
  datatype Bound = Finite(at: real) | PosInf | NegInf | NaN

  datatype Decision =
    | Allow(roles: seq<string>, permissions: seq<string>, expiresAt: Option<Bound>)
    | Deny(revokeSessions: bool)

  datatype Config = Config(
    challengeTtl: int,
    resultCacheTtl: int,
    sessionTtl: int,
    stepUpTtl: int,
    refreshTtl: Option<int>,
    maxLifetime: Option<int>,
    lowerGrace: int,
    upperGrace: int,
    maxFailures: int,
    perNpub: int,
    perIp: int)

  /** A NIP-98 completion whose signature, URL, method and payload already checked out. */
  datatype Proof = Proof(
    eventId: string,
    pubkey: string,
    challenge: string,
    challengeId: string,
    createdAt: int,
    stepUp: bool)

  datatype Code =
    | UnknownChallenge | ExpiredChallenge | FailedTerminal | PrincipalMismatch | ChallengeMismatch
    | CreatedAtOutOfRange | AclDenied | RedeemedChallenge | Internal
    | UnknownToken | TokenReused | SessionRevoked | RefreshExpired | RefreshDenied | RefreshInternal

  datatype Outcome = Ok(session: Sessions.Ref) | Fail(code: Code)

  /** The random values one login draws. */
  datatype Ids = Ids(sessionId: string, accessToken: string, refreshToken: string, stepUpToken: string)

  /** Where an in-flight call stands, with what it keeps across the await it is at. */
  datatype Call =
    // issueChallenge
    | Counted(npub: string, pubkey: string, authUrl: string, ip: Option<string>, now: int)
    | Issued(challengeId: Option<string>)
    // verifyCompletion
    | Proved(p: Proof, now: int)
    | Fetched(p: Proof, now: int, record: Option<Challenges.Ref>)
    | Authorizing(p: Proof, now: int, ch: Challenges.Ref)
    | Created(p: Proof, now: int, ch: Challenges.Ref, session: Sessions.Ref)
    | Redeeming(p: Proof, now: int, ch: Challenges.Ref, session: Sessions.Ref, status: Challenges.RedeemStatus)
    | Rereading(p: Proof, now: int, ch: Challenges.Ref, record: Option<Challenges.Ref>)
    | Resuming(p: Proof, now: int, ch: Challenges.Ref, found: Option<Sessions.Ref>)
    | Completed(p: Proof, outcome: Outcome)
    // refreshSession
    | Looked(token: string, found: Option<Sessions.Ref>)
    | Resolving(token: string, ref: Sessions.Ref, now: int)
    | Refreshed(outcome: Outcome)
    // loadSession
    | Loading(token: string, found: Option<Sessions.Ref>)
    | Loaded(accepted: Option<Sessions.Ref>)

  datatype Sys = Sys(
    sessions: Sessions.Store,
    challenges: Challenges.Store,
    clock: int,
    used: set<string>,
    calls: map<nat, Call>)

  datatype Label =
    | Tick(to: int)
    | BeginInit(c: nat, npub: string, pubkey: string, authUrl: string, ip: Option<string>)
    | CreateChallenge(c: nat, challengeId: string, challenge: string)
    | BeginComplete(c: nat, p: Proof)
    | Fetch(c: nat)
    | Inspect(c: nat)
    | Decide(c: nat, d: Decision, ids: Ids)
    | Redeem(c: nat)
    | Conclude(c: nat)
    | Reread(c: nat)
    | Resume(c: nat)
    | BeginRefresh(c: nat, token: string)
    | Check(c: nat)
    | Grant(c: nat, d: Decision, accessToken: string, refreshToken: string)
    | BeginLoad(c: nat, token: string)
    | Accept(c: nat)
    | Logout(sessionId: string)
    | RevokePrincipal(pubkey: string)
    | ExpireChallenges

  ghost predicate Initial(s: Sys) {
    s.sessions == Sessions.EMPTY && s.challenges == Challenges.EMPTY && s.clock > 0 && s.used == {} && s.calls == map[]
  }

  // ------------------------------------------------------------ lifetime arithmetic

  /** `clampTtlToDecision`: only ever shortens, and never below one second. */
  function ClampTtl(configured: int, bound: Option<Bound>, now: int): int {
    if bound.None? || !bound.value.Finite? then configured
    else
      var remaining := bound.value.at.Floor - now;
      if remaining >= configured then configured else Max(1, remaining)
  }

  /** `Math.min` of an integer ceiling and a number; `NaN` wins over everything. */
  function MinBound(ceiling: int, b: Bound): Bound {
    match b
    case Finite(at) => if at < ceiling as real then b else Finite(ceiling as real)
    case PosInf => Finite(ceiling as real)
    case _ => b
  }

  /** The wall: the instant no refresh may reach past, if one is configured. */
  function Ceiling(cfg: Config, issuedAt: int): Option<int> {
    if cfg.maxLifetime.None? then None else Some(issuedAt + cfg.maxLifetime.value)
  }

  function DecisionBound(cfg: Config, issuedAt: int, b: Option<Bound>): Option<Bound> {
    var ceiling := Ceiling(cfg, issuedAt);
    if ceiling.None? then b
    else if b.None? then Some(Finite(ceiling.value as real))
    else Some(MinBound(ceiling.value, b.value))
  }

  function RenewedExpiry(cfg: Config, issuedAt: int, b: Option<Bound>, now: int): int {
    ClampTtl(cfg.sessionTtl, DecisionBound(cfg, issuedAt, b), now) + now
  }

  const MAX_SAFE_INTEGER := 9007199254740991

  function RenewedRefreshExpiry(cfg: Config, issuedAt: int, now: int): int {
    var ceiling := Ceiling(cfg, issuedAt);
    Min(now + RefreshTtl(cfg), if ceiling.Some? then ceiling.value else MAX_SAFE_INTEGER)
  }

  function RefreshTtl(cfg: Config): int {
    if cfg.refreshTtl.Some? then cfg.refreshTtl.value else 0
  }

  predicate RefreshEnabled(cfg: Config) {
    RefreshTtl(cfg) != 0
  }

  // ------------------------------------------------------------------ issueChallenge

  /** The count of the npub's challenges is scoped to the caller's address when there is one. */
  function NpubFilter(npub: string, ip: Option<string>, now: int): Challenges.Filter {
    Challenges.Filter(Some(npub), if Truthy(ip) then ip else None, now)
  }

  function IpFilter(ip: Option<string>, now: int): Challenges.Filter {
    Challenges.Filter(None, ip, now)
  }

  ghost predicate CapExceeded(cfg: Config, challenges: Challenges.Store, npub: string, ip: Option<string>, now: int)
    requires Challenges.Closed(challenges)
  {
    || (cfg.perNpub > 0 && |Challenges.Outstanding(challenges, NpubFilter(npub, ip, now))| >= cfg.perNpub)
    || (Truthy(ip) && cfg.perIp > 0 && |Challenges.Outstanding(challenges, IpFilter(ip, now))| >= cfg.perIp)
  }

  function NewChallenge(cfg: Config, call: Call, challengeId: string, challenge: string): Challenges.Challenge
    requires call.Counted?
  {
    Challenges.Challenge(challengeId, challenge, call.npub, call.pubkey, call.authUrl, call.now,
                         call.now + cfg.challengeTtl, Challenges.Issued, None, None, None,
                         if Truthy(call.ip) then call.ip else None, 0)
  }

  // ---------------------------------------------------------------- verifyCompletion

  datatype Verdict = Reject(code: Code) | RejectAndCount(code: Code) | Proceed

  /** The checks on the loaded record, in order; the first two never spend its failure budget. */
  function Judge(cfg: Config, p: Proof, now: int, x: Challenges.Challenge): Verdict {
    if x.expiresAt < now || x.state == Challenges.Expired then Reject(ExpiredChallenge)
    else if x.state == Challenges.FailedTerminal then Reject(FailedTerminal)
    else if x.pubkey != p.pubkey then Reject(PrincipalMismatch)
    else if x.challenge != p.challenge then RejectAndCount(ChallengeMismatch)
    else if p.createdAt < x.issuedAt - cfg.lowerGrace || p.createdAt > x.expiresAt + cfg.upperGrace
      then RejectAndCount(CreatedAtOutOfRange)
    else Proceed
  }

  ghost function CountFailure(cfg: Config, challenges: Challenges.Store, challengeId: string): Challenges.Store
    requires Challenges.Closed(challenges)
  {
    if cfg.maxFailures <= 0 then challenges
    else Challenges.RecordFailure(challenges, challengeId, cfg.maxFailures)
  }

  /** `createSessionRecord`. */
  function NewSession(cfg: Config, x: Challenges.Challenge, p: Proof, now: int, d: Decision, ids: Ids): Sessions.Session
    requires d.Allow?
  {
    Sessions.Session(
      ids.sessionId, x.challengeId, ids.accessToken, x.npub, x.pubkey, d.roles, d.permissions,
      now, now + ClampTtl(cfg.sessionTtl, d.expiresAt, now),
      if p.stepUp then Some(ids.stepUpToken) else None,
      if p.stepUp then Some(now + cfg.stepUpTtl) else None,
      if RefreshEnabled(cfg) then Some(ids.refreshToken) else None,
      if RefreshEnabled(cfg) then Some(now + RefreshTtl(cfg)) else None,
      None, None)
  }

  /** The reread record answers for this very event, inside its result-cache window. */
  predicate AnswersRetry(x: Challenges.Challenge, p: Proof, now: int) {
    && x.redeemedEventId == Some(p.eventId)
    && Truthy(x.redeemedSessionId)
    && (!TruthyTime(x.resultCacheUntil) || now <= x.resultCacheUntil.value)
  }

  // ------------------------------------------------------------------ refreshSession

  datatype RefreshVerdict = Replayed | Refused(code: Code) | MayResolve

  /** The checks on the looked-up session, in order; a replay is acted on first. */
  function JudgeRefresh(cfg: Config, token: string, now: int, x: Sessions.Session): RefreshVerdict {
    if Truthy(x.previousRefreshToken) && x.previousRefreshToken.value == token then Replayed
    else if !Truthy(x.refreshToken) || x.refreshToken.value != token then Refused(UnknownToken)
    else if Sessions.Revoked(x) then Refused(SessionRevoked)
    else if !TruthyTime(x.refreshExpiresAt) || x.refreshExpiresAt.value < now then Refused(RefreshExpired)
    else if cfg.maxLifetime.Some? && now >= x.issuedAt + cfg.maxLifetime.value then Refused(RefreshExpired)
    else MayResolve
  }

  function RotationFor(cfg: Config, x: Sessions.Session, call: Call, d: Decision, accessToken: string, refreshToken: string): Sessions.Rotation
    requires call.Resolving? && d.Allow?
  {
    Sessions.Rotation(call.token, accessToken, refreshToken,
                      RenewedExpiry(cfg, x.issuedAt, d.expiresAt, call.now),
                      RenewedRefreshExpiry(cfg, x.issuedAt, call.now),
                      d.roles, d.permissions)
  }

  /** `loadSession`'s test on the live record, at the time it resumes. */
  predicate Acceptable(x: Sessions.Session, now: int) {
    !Sessions.Revoked(x) && now < x.expiresAt
  }

  // ---------------------------------------------------------------- the step relation

  /** Every reference a call holds points into the heap. */
  predicate Grounded(s: Sys, call: Call) {
    match call
    case Fetched(_, _, r) => r.Some? ==> r.value < |s.challenges.objs|
    case Authorizing(_, _, ch) => ch < |s.challenges.objs|
    case Created(_, _, ch, x) => ch < |s.challenges.objs| && x < |s.sessions.objs|
    case Redeeming(_, _, ch, x, _) => ch < |s.challenges.objs| && x < |s.sessions.objs|
    case Rereading(_, _, ch, r) => ch < |s.challenges.objs| && (r.Some? ==> r.value < |s.challenges.objs|)
    case Resuming(_, _, ch, x) => ch < |s.challenges.objs| && (x.Some? ==> x.value < |s.sessions.objs|)
    case Completed(_, o) => o.Ok? ==> o.session < |s.sessions.objs|
    case Looked(_, x) => x.Some? ==> x.value < |s.sessions.objs|
    case Resolving(_, x, _) => x < |s.sessions.objs|
    case Refreshed(o) => o.Ok? ==> o.session < |s.sessions.objs|
    case Loading(_, x) => x.Some? ==> x.value < |s.sessions.objs|
    case Loaded(x) => x.Some? ==> x.value < |s.sessions.objs|
    case _ => true
  }

  ghost predicate WellFormed(s: Sys) {
    && Sessions.Closed(s.sessions)
    && Challenges.Closed(s.challenges)
    && (forall c <- s.calls :: Grounded(s, s.calls[c]))
  }

  predicate FreshPair(s: Sys, a: string, b: string) {
    a != "" && b != "" && a !in s.used && b !in s.used && a != b
  }

  predicate FreshIds(s: Sys, ids: Ids) {
    && FreshPair(s, ids.sessionId, ids.accessToken)
    && FreshPair(s, ids.refreshToken, ids.stepUpToken)
    && {ids.sessionId, ids.accessToken} !! {ids.refreshToken, ids.stepUpToken}
  }

  predicate Enabled(cfg: Config, s: Sys, l: Label) {
    match l
    case Tick(to) => s.clock <= to
    case BeginInit(c, _, _, _, _) => c !in s.calls
    case CreateChallenge(c, id, ch) => c in s.calls && s.calls[c].Counted? && FreshPair(s, id, ch)
    case BeginComplete(c, _) => c !in s.calls
    case Fetch(c) => c in s.calls && s.calls[c].Proved?
    case Inspect(c) => c in s.calls && s.calls[c].Fetched?
    case Decide(c, d, ids) => c in s.calls && s.calls[c].Authorizing? && FreshIds(s, ids)
    case Redeem(c) => c in s.calls && s.calls[c].Created?
    case Conclude(c) => c in s.calls && s.calls[c].Redeeming?
    case Reread(c) => c in s.calls && s.calls[c].Rereading?
    case Resume(c) => c in s.calls && s.calls[c].Resuming?
    case BeginRefresh(c, token) => c !in s.calls && token != "" && RefreshEnabled(cfg)
    case Check(c) => c in s.calls && s.calls[c].Looked?
    case Grant(c, d, a, r) => c in s.calls && s.calls[c].Resolving? && FreshPair(s, a, r)
    case BeginLoad(c, token) => c !in s.calls && token != ""
    case Accept(c) => c in s.calls && s.calls[c].Loading?
    case _ => true
  }

  function Become(s: Sys, c: nat, call: Call): Sys {
    s.(calls := s.calls[c := call])
  }

  ghost function BeginInitStep(cfg: Config, s: Sys, l: Label): Sys
    requires WellFormed(s) && l.BeginInit?
  {
    Become(s, l.c, if CapExceeded(cfg, s.challenges, l.npub, l.ip, s.clock) then Issued(None)
                   else Counted(l.npub, l.pubkey, l.authUrl, l.ip, s.clock))
  }

  ghost function CreateChallengeStep(cfg: Config, s: Sys, l: Label): Sys
    requires WellFormed(s) && l.CreateChallenge? && Enabled(cfg, s, l)
  {
    var record := NewChallenge(cfg, s.calls[l.c], l.challengeId, l.challenge);
    Become(s.(challenges := Challenges.Create(s.challenges, s.clock, record),
              used := s.used + {l.challengeId, l.challenge}),
           l.c, Issued(Some(l.challengeId)))
  }

  ghost function InspectStep(cfg: Config, s: Sys, l: Label): Sys
    requires WellFormed(s) && l.Inspect? && Enabled(cfg, s, l)
  {
    var Fetched(p, now, record) := s.calls[l.c];
    if record.None? then Become(s, l.c, Completed(p, Fail(UnknownChallenge)))
    else
      assert Grounded(s, s.calls[l.c]);
      var x := s.challenges.objs[record.value];
      match Judge(cfg, p, now, x)
      case Reject(code) => Become(s, l.c, Completed(p, Fail(code)))
      case RejectAndCount(code) =>
        Become(s.(challenges := CountFailure(cfg, s.challenges, x.challengeId)), l.c, Completed(p, Fail(code)))
      case Proceed => Become(s, l.c, Authorizing(p, now, record.value))
  }

  ghost function DecideStep(cfg: Config, s: Sys, l: Label): Sys
    requires WellFormed(s) && l.Decide? && Enabled(cfg, s, l)
  {
    assert Grounded(s, s.calls[l.c]);
    var Authorizing(p, now, ch) := s.calls[l.c];
    if l.d.Deny? then Become(s, l.c, Completed(p, Fail(AclDenied)))
    else
      var record := NewSession(cfg, s.challenges.objs[ch], p, now, l.d, l.ids);
      var (sessions, ref) := Sessions.CreateForChallenge(s.sessions, s.clock, record);
      Become(s.(sessions := sessions,
                used := s.used + {l.ids.sessionId, l.ids.accessToken, l.ids.refreshToken, l.ids.stepUpToken}),
             l.c, Created(p, now, ch, ref))
  }

  ghost function RedeemStep(cfg: Config, s: Sys, l: Label): Sys
    requires WellFormed(s) && l.Redeem? && Enabled(cfg, s, l)
  {
    assert Grounded(s, s.calls[l.c]);
    var Created(p, now, ch, x) := s.calls[l.c];
    var redemption := Challenges.Redemption(p.eventId, s.sessions.objs[x].sessionId, now, now + cfg.resultCacheTtl);
    var (challenges, status) := Challenges.Redeem(s.challenges, s.challenges.objs[ch].challengeId, redemption);
    Become(s.(challenges := challenges), l.c, Redeeming(p, now, ch, x, status))
  }

  ghost function ConcludeStep(cfg: Config, s: Sys, l: Label): Sys
    requires WellFormed(s) && l.Conclude? && Enabled(cfg, s, l)
  {
    assert Grounded(s, s.calls[l.c]);
    var Redeeming(p, now, ch, x, status) := s.calls[l.c];
    match status
    case WasRedeemed => Become(s, l.c, Completed(p, Ok(x)))
    case HasExpired => Become(s, l.c, Completed(p, Fail(ExpiredChallenge)))
    case NotFound => Become(s, l.c, Completed(p, Fail(UnknownChallenge)))
    case AlreadyRedeemed =>
      Become(s, l.c, Rereading(p, now, ch, Challenges.Get(s.challenges, s.challenges.objs[ch].challengeId)))
  }

  ghost function RereadStep(cfg: Config, s: Sys, l: Label): Sys
    requires WellFormed(s) && l.Reread? && Enabled(cfg, s, l)
  {
    assert Grounded(s, s.calls[l.c]);
    var Rereading(p, now, ch, record) := s.calls[l.c];
    if record.Some? && AnswersRetry(s.challenges.objs[record.value], p, now) then
      var sessionId := s.challenges.objs[record.value].redeemedSessionId.value;
      Become(s, l.c, Resuming(p, now, ch, Sessions.Lookup(s.sessions.byId, sessionId)))
    else Become(s, l.c, Completed(p, Fail(RedeemedChallenge)))
  }

  ghost function ResumeStep(cfg: Config, s: Sys, l: Label): Sys
    requires WellFormed(s) && l.Resume? && Enabled(cfg, s, l)
  {
    var Resuming(p, _, _, found) := s.calls[l.c];
    Become(s, l.c, Completed(p, if found.Some? then Ok(found.value) else Fail(Internal)))
  }

  ghost function CheckStep(cfg: Config, s: Sys, l: Label): Sys
    requires WellFormed(s) && l.Check? && Enabled(cfg, s, l)
  {
    assert Grounded(s, s.calls[l.c]);
    var Looked(token, found) := s.calls[l.c];
    if found.None? then Become(s, l.c, Refreshed(Fail(UnknownToken)))
    else
      var x := s.sessions.objs[found.value];
      match JudgeRefresh(cfg, token, s.clock, x)
      case Replayed =>
        Become(s.(sessions := Sessions.RevokeById(s.sessions, x.sessionId, s.clock)), l.c, Refreshed(Fail(TokenReused)))
      case Refused(code) => Become(s, l.c, Refreshed(Fail(code)))
      case MayResolve => Become(s, l.c, Resolving(token, found.value, s.clock))
  }

  ghost function GrantStep(cfg: Config, s: Sys, l: Label): Sys
    requires WellFormed(s) && l.Grant? && Enabled(cfg, s, l)
  {
    assert Grounded(s, s.calls[l.c]);
    var call := s.calls[l.c];
    var x := s.sessions.objs[call.ref];
    if l.d.Deny? then
      var sessions := if l.d.revokeSessions then Sessions.RevokeByPrincipal(s.sessions, x.pubkey, call.now) else s.sessions;
      Become(s.(sessions := sessions), l.c, Refreshed(Fail(RefreshDenied)))
    else
      var p := RotationFor(cfg, x, call, l.d, l.accessToken, l.refreshToken);
      var ok := Sessions.Rotates(s.sessions, x.sessionId, p);
      Become(s.(sessions := Sessions.Rotate(s.sessions, x.sessionId, p), used := s.used + {l.accessToken, l.refreshToken}),
             l.c, Refreshed(if ok then Ok(s.sessions.byId[x.sessionId]) else Fail(RefreshInternal)))
  }

  ghost function LoadStep(s: Sys, l: Label): Sys
    requires WellFormed(s) && l.BeginLoad?
  {
    var sessions := Sessions.Sweep(s.sessions, s.clock);
    Become(s.(sessions := sessions), l.c, Loading(l.token, Sessions.Lookup(sessions.byAccess, l.token)))
  }

  ghost function AcceptStep(cfg: Config, s: Sys, l: Label): Sys
    requires WellFormed(s) && l.Accept? && Enabled(cfg, s, l)
  {
    assert Grounded(s, s.calls[l.c]);
    var found := s.calls[l.c].found;
    Become(s, l.c, Loaded(if found.Some? && Acceptable(s.sessions.objs[found.value], s.clock) then found else None))
  }

  ghost function Next(cfg: Config, s: Sys, l: Label): Sys
    requires WellFormed(s) && Enabled(cfg, s, l)
  {
    match l
    case Tick(to) => s.(clock := to)
    case BeginInit(_, _, _, _, _) => BeginInitStep(cfg, s, l)
    case CreateChallenge(_, _, _) => CreateChallengeStep(cfg, s, l)
    case BeginComplete(c, p) => Become(s, c, Proved(p, s.clock))
    case Fetch(c) => Become(s, c, Fetched(s.calls[c].p, s.calls[c].now, Challenges.Get(s.challenges, s.calls[c].p.challengeId)))
    case Inspect(_) => InspectStep(cfg, s, l)
    case Decide(_, _, _) => DecideStep(cfg, s, l)
    case Redeem(_) => RedeemStep(cfg, s, l)
    case Conclude(_) => ConcludeStep(cfg, s, l)
    case Reread(_) => RereadStep(cfg, s, l)
    case Resume(_) => ResumeStep(cfg, s, l)
    case BeginRefresh(c, token) => Become(s, c, Looked(token, Sessions.Lookup(s.sessions.byRefresh, token)))
    case Check(_) => CheckStep(cfg, s, l)
    case Grant(_, _, _, _) => GrantStep(cfg, s, l)
    case BeginLoad(_, _) => LoadStep(s, l)
    case Accept(_) => AcceptStep(cfg, s, l)
    case Logout(id) => s.(sessions := Sessions.RevokeById(s.sessions, id, s.clock))
    case RevokePrincipal(pubkey) => s.(sessions := Sessions.RevokeByPrincipal(s.sessions, pubkey, s.clock))
    case ExpireChallenges => s.(challenges := Challenges.MarkExpired(s.challenges, s.clock))
  }
}
