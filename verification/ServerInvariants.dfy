/** What every step of the server keeps, whatever calls interleave. */
module ServerInvariants {
  import opened Options
  import Sessions
  import Challenges
  import opened Server

  // ------------------------------------------------- what a step does to the sessions

  datatype SessionOp =
    | KeepAll
    | DoSweep(now: int)
    | DoCreate(now: int, record: Sessions.Session)
    | DoRevoke(sessionId: string, now: int)
    | DoRevokeAll(pubkey: string, now: int)
    | DoRotate(sessionId: string, p: Sessions.Rotation)

  ghost function Apply(st: Sessions.Store, op: SessionOp): Sessions.Store
    requires Sessions.Closed(st)
  {
    match op
    case KeepAll => st
    case DoSweep(now) => Sessions.Sweep(st, now)
    case DoCreate(now, record) => Sessions.CreateForChallenge(st, now, record).0
    case DoRevoke(sessionId, now) => Sessions.RevokeById(st, sessionId, now)
    case DoRevokeAll(pubkey, now) => Sessions.RevokeByPrincipal(st, pubkey, now)
    case DoRotate(sessionId, p) => Sessions.Rotate(st, sessionId, p)
  }

  ghost function SessionOpOf(cfg: Config, s: Sys, l: Label): SessionOp
    requires WellFormed(s) && Enabled(cfg, s, l)
  {
    match l
    case Decide(c, d, ids) =>
      assert Grounded(s, s.calls[c]);
      var call := s.calls[c];
      if d.Deny? then KeepAll
      else DoCreate(s.clock, NewSession(cfg, s.challenges.objs[call.ch], call.p, call.now, d, ids))
    case Check(c) =>
      assert Grounded(s, s.calls[c]);
      var call := s.calls[c];
      if call.found.None? then KeepAll
      else
        var x := s.sessions.objs[call.found.value];
        if JudgeRefresh(cfg, call.token, s.clock, x).Replayed? then DoRevoke(x.sessionId, s.clock) else KeepAll
    case Grant(c, d, a, r) =>
      assert Grounded(s, s.calls[c]);
      var call := s.calls[c];
      var x := s.sessions.objs[call.ref];
      if d.Deny? then (if d.revokeSessions then DoRevokeAll(x.pubkey, call.now) else KeepAll)
      else DoRotate(x.sessionId, RotationFor(cfg, x, call, d, a, r))
    case BeginLoad(_, _) => DoSweep(s.clock)
    case Logout(id) => DoRevoke(id, s.clock)
    case RevokePrincipal(pubkey) => DoRevokeAll(pubkey, s.clock)
    case _ => KeepAll
  }

  lemma SessionEffect(cfg: Config, s: Sys, l: Label)
    requires WellFormed(s) && Enabled(cfg, s, l)
    ensures Next(cfg, s, l).sessions == Apply(s.sessions, SessionOpOf(cfg, s, l))
  {
  }

  // ----------------------------------------------------------- the session invariant

  predicate KnownSession(x: Sessions.Session, used: set<string>) {
    && x.sessionId in used && x.accessToken in used
    && (x.refreshToken.Some? ==> x.refreshToken.value in used && x.refreshToken.value != "")
    && (x.previousRefreshToken.Some? ==> x.previousRefreshToken.value in used && x.previousRefreshToken.value != "")
  }

  /** Two records share no id and no token. */
  predicate Disjoint(x: Sessions.Session, y: Sessions.Session) {
    && x.sessionId != y.sessionId
    && x.accessToken != y.accessToken
    && Sessions.OwnRefreshKeys(x) !! Sessions.OwnRefreshKeys(y)
  }

  ghost predicate SessionInv(st: Sessions.Store, used: set<string>) {
    && Sessions.Indexed(st)
    && (forall i | 0 <= i < |st.objs| :: KnownSession(st.objs[i], used))
    && (forall i, j | 0 <= i < |st.objs| && 0 <= j < |st.objs| && i != j :: Disjoint(st.objs[i], st.objs[j]))
  }

  /** The tokens an operation brings in were never used before, and its clock reading is positive. */
  predicate OpFresh(op: SessionOp, used: set<string>, used': set<string>) {
    && used <= used'
    && match op
       case DoCreate(_, x) =>
         && KnownSession(x, used' - used) && x.previousRefreshToken.None? && x.revokedAt.None?
       case DoRevoke(_, now) => now > 0
       case DoRevokeAll(_, now) => now > 0
       case DoRotate(_, p) =>
         p.accessToken in used' - used && p.refreshToken in used' - used && p.refreshToken != ""
       case _ => true
  }

  lemma IndexKeysAreUsed(st: Sessions.Store, used: set<string>)
    requires SessionInv(st, used)
    ensures st.byId.Keys <= used && st.byAccess.Keys <= used && st.byRefresh.Keys <= used
  {
    forall k <- st.byId ensures k in used {
      assert KnownSession(st.objs[st.byId[k]], used);
    }
    forall k <- st.byAccess ensures k in used {
      assert KnownSession(st.objs[st.byAccess[k]], used);
    }
    forall k <- st.byRefresh ensures k in used {
      assert Sessions.HoldsRefresh(st.objs[st.byRefresh[k]], k) && KnownSession(st.objs[st.byRefresh[k]], used);
    }
  }

  lemma ApplyKeepsIndexed(st: Sessions.Store, op: SessionOp, used: set<string>, used': set<string>)
    requires SessionInv(st, used) && OpFresh(op, used, used')
    ensures Sessions.Indexed(Apply(st, op))
  {
    IndexKeysAreUsed(st, used);
    match op
    case KeepAll =>
    case DoSweep(now) => Sessions.SweepKeepsIndexed(st, now);
    case DoCreate(now, record) => Sessions.CreateKeepsIndexed(st, now, record);
    case DoRevoke(sessionId, now) => Sessions.UpdateKeepsIndexed(st, Apply(st, op).objs);
    case DoRevokeAll(pubkey, now) => Sessions.UpdateKeepsIndexed(st, Apply(st, op).objs);
    case DoRotate(sessionId, p) => Sessions.RotateKeepsIndexed(st, sessionId, p);
  }

  // ------------------------------------------------------- how one record may change

  /** A record keeps its identity and its login time, and a revocation is never undone. */
  predicate Ages(x: Sessions.Session, y: Sessions.Session) {
    && y.sessionId == x.sessionId && y.challengeId == x.challengeId
    && y.npub == x.npub && y.pubkey == x.pubkey && y.issuedAt == x.issuedAt
    && (Sessions.Revoked(x) ==> Sessions.Revoked(y))
  }

  /** Apart from a revocation, a record changes only by a rotation that spends its current token. */
  predicate Renews(x: Sessions.Session, y: Sessions.Session, op: SessionOp) {
    || y == x.(revokedAt := y.revokedAt)
    || (op.DoRotate? && x.sessionId == op.sessionId && x.refreshToken == Some(op.p.expected) && y == Sessions.Rotated(x, op.p))
  }

  /** No record is lost, each one ages, and at most one is new. */
  ghost predicate Aged(before: seq<Sessions.Session>, after: seq<Sessions.Session>, op: SessionOp) {
    && |before| <= |after| <= |before| + 1
    && (forall r | 0 <= r < |before| :: Ages(before[r], after[r]) && Renews(before[r], after[r], op))
    && (|before| < |after| ==> op.DoCreate? && after[|before|] == op.record)
  }

  lemma RevokeAges(st: Sessions.Store, op: SessionOp)
    requires Sessions.Closed(st) && (op.DoRevoke? || op.DoRevokeAll?) && op.now > 0
    ensures Aged(st.objs, Apply(st, op).objs, op)
  {
  }

  lemma CreateAges(st: Sessions.Store, op: SessionOp)
    requires Sessions.Closed(st) && op.DoCreate?
    ensures Aged(st.objs, Apply(st, op).objs, op)
  {
    assert Sessions.Sweep(st, op.now).objs == st.objs;
  }

  lemma RotateAges(st: Sessions.Store, op: SessionOp)
    requires Sessions.Indexed(st) && op.DoRotate?
    ensures Aged(st.objs, Apply(st, op).objs, op)
  {
    if op.sessionId in st.byId {
      assert st.objs[st.byId[op.sessionId]].sessionId == op.sessionId;
    }
  }

  lemma ApplyAges(st: Sessions.Store, op: SessionOp, used: set<string>, used': set<string>)
    requires SessionInv(st, used) && OpFresh(op, used, used')
    ensures Aged(st.objs, Apply(st, op).objs, op)
  {
    match op
    case KeepAll =>
    case DoSweep(_) =>
    case DoCreate(_, _) => CreateAges(st, op);
    case DoRotate(_, _) => RotateAges(st, op);
    case _ => RevokeAges(st, op);
  }

  lemma RenewalStaysKnown(x: Sessions.Session, y: Sessions.Session, op: SessionOp, used: set<string>, used': set<string>)
    requires KnownSession(x, used) && OpFresh(op, used, used') && Renews(x, y, op)
    ensures KnownSession(y, used')
  {
  }

  lemma RenewalStaysDisjoint(x: Sessions.Session, y: Sessions.Session, x': Sessions.Session, y': Sessions.Session,
                             op: SessionOp, used: set<string>, used': set<string>)
    requires KnownSession(x, used) && KnownSession(y, used) && Disjoint(x, y)
    requires OpFresh(op, used, used') && Renews(x, x', op) && Renews(y, y', op)
    ensures Disjoint(x', y') && Disjoint(y', x')
  {
  }

  lemma NewcomerIsDisjoint(x: Sessions.Session, x': Sessions.Session, op: SessionOp, used: set<string>, used': set<string>)
    requires KnownSession(x, used) && OpFresh(op, used, used') && Renews(x, x', op) && op.DoCreate?
    ensures Disjoint(x', op.record) && Disjoint(op.record, x')
  {
  }

  lemma AgedStayDisjoint(before: seq<Sessions.Session>, after: seq<Sessions.Session>, op: SessionOp, used: set<string>, used': set<string>,
                         i: nat, j: nat)
    requires Aged(before, after, op) && OpFresh(op, used, used')
    requires forall k | 0 <= k < |before| :: KnownSession(before[k], used)
    requires forall k, l | 0 <= k < |before| && 0 <= l < |before| && k != l :: Disjoint(before[k], before[l])
    requires i < |after| && j < |after| && i != j
    ensures Disjoint(after[i], after[j])
  {
    if i < |before| && j < |before| {
      RenewalStaysDisjoint(before[i], before[j], after[i], after[j], op, used, used');
    } else {
      var k := if i < |before| then i else j;
      NewcomerIsDisjoint(before[k], after[k], op, used, used');
    }
  }

  ghost predicate AllKnown(objs: seq<Sessions.Session>, used: set<string>) {
    forall i | 0 <= i < |objs| :: KnownSession(objs[i], used)
  }

  ghost predicate AllDisjoint(objs: seq<Sessions.Session>) {
    forall i, j | 0 <= i < |objs| && 0 <= j < |objs| && i != j :: Disjoint(objs[i], objs[j])
  }

  lemma AgedStayKnown(before: seq<Sessions.Session>, after: seq<Sessions.Session>, op: SessionOp, used: set<string>, used': set<string>)
    requires Aged(before, after, op) && OpFresh(op, used, used') && AllKnown(before, used) && AllDisjoint(before)
    ensures AllKnown(after, used') && AllDisjoint(after)
  {
    forall i | 0 <= i < |after| ensures KnownSession(after[i], used') {
      if i < |before| {
        RenewalStaysKnown(before[i], after[i], op, used, used');
      }
    }
    forall i, j | 0 <= i < |after| && 0 <= j < |after| && i != j ensures Disjoint(after[i], after[j]) {
      AgedStayDisjoint(before, after, op, used, used', i, j);
    }
  }

  lemma ApplyKeepsInv(st: Sessions.Store, op: SessionOp, used: set<string>, used': set<string>)
    requires SessionInv(st, used) && OpFresh(op, used, used')
    ensures SessionInv(Apply(st, op), used')
  {
    ApplyKeepsIndexed(st, op, used, used');
    ApplyAges(st, op, used, used');
    AgedStayKnown(st.objs, Apply(st, op).objs, op, used, used');
  }

  // ----------------------------------------------- what a step does to the challenges

  datatype ChallengeOp =
    | LeaveAll
    | DoIssue(now: int, record: Challenges.Challenge)
    | DoRedeem(challengeId: string, p: Challenges.Redemption)
    | DoFail(challengeId: string, maxFailures: int)
    | DoExpire(now: int)

  ghost function ApplyC(st: Challenges.Store, op: ChallengeOp): Challenges.Store
    requires Challenges.Closed(st)
  {
    match op
    case LeaveAll => st
    case DoIssue(now, record) => Challenges.Create(st, now, record)
    case DoRedeem(id, p) => Challenges.Redeem(st, id, p).0
    case DoFail(id, maxFailures) => Challenges.RecordFailure(st, id, maxFailures)
    case DoExpire(now) => Challenges.MarkExpired(st, now)
  }

  ghost function ChallengeOpOf(cfg: Config, s: Sys, l: Label): ChallengeOp
    requires WellFormed(s) && Enabled(cfg, s, l)
  {
    match l
    case CreateChallenge(c, id, challenge) => DoIssue(s.clock, NewChallenge(cfg, s.calls[c], id, challenge))
    case Inspect(c) =>
      assert Grounded(s, s.calls[c]);
      var call := s.calls[c];
      if call.record.None? then LeaveAll
      else
        var x := s.challenges.objs[call.record.value];
        if Judge(cfg, call.p, call.now, x).RejectAndCount? && cfg.maxFailures > 0
        then DoFail(x.challengeId, cfg.maxFailures) else LeaveAll
    case Redeem(c) =>
      assert Grounded(s, s.calls[c]);
      var call := s.calls[c];
      DoRedeem(s.challenges.objs[call.ch].challengeId,
               Challenges.Redemption(call.p.eventId, s.sessions.objs[call.session].sessionId, call.now,
                                     call.now + cfg.resultCacheTtl))
    case ExpireChallenges => DoExpire(s.clock)
    case _ => LeaveAll
  }

  lemma ChallengeEffect(cfg: Config, s: Sys, l: Label)
    requires WellFormed(s) && Enabled(cfg, s, l)
    ensures Next(cfg, s, l).challenges == ApplyC(s.challenges, ChallengeOpOf(cfg, s, l))
  {
  }

  // --------------------------------------------------------- the challenge invariant

  /** A record was redeemed at some time, whatever its state says now. */
  predicate WasRedeemed(x: Challenges.Challenge) {
    x.redeemedEventId.Some?
  }

  /** A record ran out of its failure budget at some time, whatever its state says now. */
  predicate WasTerminal(cfg: Config, x: Challenges.Challenge) {
    cfg.maxFailures > 0 && x.failureCount >= cfg.maxFailures
  }

  predicate SoundRecord(cfg: Config, x: Challenges.Challenge) {
    && (x.redeemedSessionId.Some? <==> WasRedeemed(x))
    && (x.state == Challenges.Redeemed ==> WasRedeemed(x))
    && (x.state == Challenges.FailedTerminal ==> WasTerminal(cfg, x))
    && (x.state == Challenges.Issued ==> !WasRedeemed(x) && !WasTerminal(cfg, x))
    && !(WasRedeemed(x) && WasTerminal(cfg, x))
    && x.failureCount <= Max(cfg.maxFailures, 0)
  }

  ghost predicate ChallengeInv(cfg: Config, st: Challenges.Store, used: set<string>) {
    && Challenges.Closed(st)
    && (forall k <- st.records :: st.objs[st.records[k]].challengeId == k)
    && (forall i | 0 <= i < |st.objs| :: st.objs[i].challengeId in used && SoundRecord(cfg, st.objs[i]))
    && (forall i, j | 0 <= i < j < |st.objs| :: st.objs[i].challengeId != st.objs[j].challengeId)
  }

  predicate OpFreshC(cfg: Config, op: ChallengeOp, used: set<string>, used': set<string>) {
    && used <= used'
    && match op
       case DoIssue(_, x) =>
         && x.challengeId in used' - used && x.state == Challenges.Issued && x.failureCount == 0
         && x.redeemedEventId.None? && x.redeemedSessionId.None?
       case DoFail(_, maxFailures) => maxFailures == cfg.maxFailures && cfg.maxFailures > 0
       case _ => true
  }

  /** A record keeps what it was issued with, never becomes `issued` again, and once it has
      left that state its redemption is settled for good. */
  predicate AgesC(x: Challenges.Challenge, y: Challenges.Challenge) {
    && y == x.(state := y.state, redeemedEventId := y.redeemedEventId, redeemedSessionId := y.redeemedSessionId,
               resultCacheUntil := y.resultCacheUntil, failureCount := y.failureCount)
    && x.failureCount <= y.failureCount
    && (x.state != Challenges.Issued ==>
          y == x.(state := y.state) && y.state != Challenges.Issued)
  }

  /** No record is lost, each one ages and stays sound, and at most one is new. */
  ghost predicate AgedC(cfg: Config, before: seq<Challenges.Challenge>, after: seq<Challenges.Challenge>, op: ChallengeOp) {
    && |before| <= |after| <= |before| + 1
    && (forall r | 0 <= r < |before| :: AgesC(before[r], after[r]) && SoundRecord(cfg, after[r]))
    && (|before| < |after| ==> op.DoIssue? && after[|before|] == op.record)
  }

  lemma RedeemAges(cfg: Config, st: Challenges.Store, op: ChallengeOp, used: set<string>)
    requires ChallengeInv(cfg, st, used) && op.DoRedeem?
    ensures AgedC(cfg, st.objs, ApplyC(st, op).objs, op)
  {
  }

  lemma FailAges(cfg: Config, st: Challenges.Store, op: ChallengeOp, used: set<string>, used': set<string>)
    requires ChallengeInv(cfg, st, used) && OpFreshC(cfg, op, used, used') && op.DoFail?
    ensures AgedC(cfg, st.objs, ApplyC(st, op).objs, op)
  {
  }

  lemma ApplyCAges(cfg: Config, st: Challenges.Store, op: ChallengeOp, used: set<string>, used': set<string>)
    requires ChallengeInv(cfg, st, used) && OpFreshC(cfg, op, used, used')
    ensures AgedC(cfg, st.objs, ApplyC(st, op).objs, op)
  {
    match op
    case DoRedeem(_, _) => RedeemAges(cfg, st, op, used);
    case DoFail(_, _) => FailAges(cfg, st, op, used, used');
    case _ =>
  }

  lemma ApplyCKeepsInv(cfg: Config, st: Challenges.Store, op: ChallengeOp, used: set<string>, used': set<string>)
    requires ChallengeInv(cfg, st, used) && OpFreshC(cfg, op, used, used')
    ensures ChallengeInv(cfg, ApplyC(st, op), used')
  {
    ApplyCAges(cfg, st, op, used, used');
  }
}
