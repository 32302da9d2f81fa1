/**
 * The in-memory challenge store as a value: a heap of challenge records and the map
 * from challenge ids to them. As in `Sessions`, a swept record stays in the heap,
 * because a completion that fetched it may still be running.
 */
module Challenges {
  import opened Options

  type Ref = nat

  datatype State = Issued | Redeemed | Expired | FailedTerminal

  datatype Challenge = Challenge(
    challengeId: string,
    challenge: string,
    npub: string,
    pubkey: string,
    authUrl: string,
    issuedAt: int,
    expiresAt: int,
    state: State,
    redeemedEventId: Option<string>,
    redeemedSessionId: Option<string>,
    resultCacheUntil: Option<int>,
    clientIp: Option<string>,
    failureCount: nat)

  datatype Store = Store(objs: seq<Challenge>, records: map<string, Ref>, lastSweptAt: Option<int>)

  datatype Redemption = Redemption(eventId: string, sessionId: string, now: int, resultCacheUntil: int)
  datatype RedeemStatus = WasRedeemed | AlreadyRedeemed | NotFound | HasExpired

  /** Which outstanding challenges to count: every given dimension must match. */
  datatype Filter = Filter(npub: Option<string>, clientIp: Option<string>, now: int)

  const EMPTY := Store([], map[], None)

  function RetainUntil(x: Challenge): int {
    if x.resultCacheUntil.Some? then x.resultCacheUntil.value else x.expiresAt
  }

  ghost predicate Closed(s: Store) {
    forall k <- s.records :: s.records[k] < |s.objs|
  }

  // ---------------------------------------------------------------- operations

  predicate SweepDue(lastSweptAt: Option<int>, now: int) {
    lastSweptAt.None? || lastSweptAt.value < now
  }

  ghost function Stale(s: Store, now: int): set<string>
    requires Closed(s)
  {
    set k | k in s.records && RetainUntil(s.objs[s.records[k]]) < now
  }

  ghost function Sweep(s: Store, now: int): Store
    requires Closed(s)
  {
    if SweepDue(s.lastSweptAt, now)
    then s.(records := s.records - Stale(s, now), lastSweptAt := Some(now))
    else s
  }

  ghost function Create(s: Store, now: int, record: Challenge): Store
    requires Closed(s)
  {
    var swept := Sweep(s, now);
    swept.(objs := swept.objs + [record], records := swept.records[record.challengeId := |swept.objs|])
  }

  function Get(s: Store, challengeId: string): Option<Ref> {
    if challengeId in s.records then Some(s.records[challengeId]) else None
  }

  function RedeemStatusOf(x: Challenge, p: Redemption): RedeemStatus {
    if x.expiresAt < p.now || x.state == Expired then HasExpired
    else if x.state == Issued then WasRedeemed
    else AlreadyRedeemed
  }

  function RedeemRecord(x: Challenge, p: Redemption): Challenge {
    match RedeemStatusOf(x, p)
    case HasExpired => x.(state := Expired)
    case WasRedeemed =>
      x.(state := Redeemed, redeemedEventId := Some(p.eventId), redeemedSessionId := Some(p.sessionId),
         resultCacheUntil := Some(p.resultCacheUntil))
    case _ => x
  }

  ghost function Update(s: Store, challengeId: string, x: Challenge): Store
    requires Closed(s) && challengeId in s.records
  {
    s.(objs := s.objs[s.records[challengeId] := x])
  }

  ghost function Redeem(s: Store, challengeId: string, p: Redemption): (Store, RedeemStatus)
    requires Closed(s)
  {
    if challengeId !in s.records then (s, NotFound)
    else
      var x := s.objs[s.records[challengeId]];
      (Update(s, challengeId, RedeemRecord(x, p)), RedeemStatusOf(x, p))
  }

  predicate Lapsed(x: Challenge, now: int) {
    x.state == Issued && x.expiresAt < now
  }

  /** The records under the given ids that are issued but past their expiry. */
  ghost function LapsedRefs(s: Store, ids: set<string>, now: int): set<Ref>
    requires Closed(s) && ids <= s.records.Keys
  {
    set k | k in ids && Lapsed(s.objs[s.records[k]], now) :: s.records[k]
  }

  function ExpireRefs(objs: seq<Challenge>, refs: set<Ref>): (r: seq<Challenge>)
    ensures |r| == |objs|
  {
    seq(|objs|, i requires 0 <= i < |objs| => if i in refs then objs[i].(state := Expired) else objs[i])
  }

  ghost function MarkExpired(s: Store, now: int): Store
    requires Closed(s)
  {
    s.(objs := ExpireRefs(s.objs, LapsedRefs(s, s.records.Keys, now)))
  }

  predicate Counts(x: Challenge, f: Filter) {
    && x.state == Issued
    && f.now <= x.expiresAt
    && (f.npub.Some? ==> x.npub == f.npub.value)
    && (f.clientIp.Some? ==> x.clientIp == f.clientIp)
  }

  /** The ids of the outstanding challenges a filter selects. */
  ghost function Outstanding(s: Store, f: Filter): set<string>
    requires Closed(s)
  {
    set k | k in s.records && Counts(s.objs[s.records[k]], f)
  }

  function FailRecord(x: Challenge, maxFailures: int): Challenge {
    x.(failureCount := x.failureCount + 1,
       state := if x.failureCount + 1 >= maxFailures then FailedTerminal else x.state)
  }

  ghost function RecordFailure(s: Store, challengeId: string, maxFailures: int): Store
    requires Closed(s)
  {
    if challengeId in s.records && s.objs[s.records[challengeId]].state == Issued
    then Update(s, challengeId, FailRecord(s.objs[s.records[challengeId]], maxFailures))
    else s
  }
}
