/** The lifetime wall: how long a login can be kept alive by refreshing it. */
module Lifetime {
  import opened Options
  import Sessions
  import opened Server
  import opened ServerInvariants
  import opened ServerRuns
  import opened RefreshSafety
  import opened Revocation

  /** A bound that is not a number, or is minus infinity, escapes every clamp. */
  predicate Clampable(b: Option<Bound>) {
    b.Some? ==> b.value.Finite? || b.value.PosInf?
  }

  /** What is minted at `now` for `ttl` seconds and must stop at each of these: it lasts that long if they
      all let it, and otherwise until the first of them, but for one second at least. */
  ghost predicate EndsBy(ttl: int, stops: set<int>, now: int, end: int) {
    if forall stop <- stops :: now + ttl <= stop then end == now + ttl
    else exists first <- stops :: (forall stop <- stops :: first <= stop) && end == Max(now + 1, first)
  }

  /** Where a resolver's bound stops a session: rounded down, and nowhere unless it is a finite number. */
  function StopOf(b: Option<Bound>): set<int> {
    if b.Some? && b.value.Finite? then {b.value.at.Floor} else {}
  }

  /** A refresh also stops at the wall, unless the resolver's answer is not a number or minus infinity. */
  function StopsOf(cfg: Config, issuedAt: int, b: Option<Bound>): set<int> {
    StopOf(b) + if cfg.maxLifetime.Some? && Clampable(b) then {issuedAt + cfg.maxLifetime.value} else {}
  }

  lemma ClampedEnd(ttl: int, b: Option<Bound>, now: int)
    ensures EndsBy(ttl, StopOf(b), now, now + ClampTtl(ttl, b, now))
  {
    if b.Some? && b.value.Finite? && now + ttl > b.value.at.Floor {
      assert b.value.at.Floor in StopOf(b);
    }
  }

  /** The bound that is clamped to stops where the first of the two does. */
  lemma FirstStop(cfg: Config, issuedAt: int, b: Option<Bound>)
    ensures var stops, bound := StopsOf(cfg, issuedAt, b), DecisionBound(cfg, issuedAt, b);
            && (stops == {} <==> StopOf(bound) == {})
            && forall first <- StopOf(bound) :: first in stops && forall stop <- stops :: first <= stop
  {
    if cfg.maxLifetime.Some? && b.Some? && b.value.Finite? {
      var ceiling := issuedAt + cfg.maxLifetime.value;
      assert b.value.at < ceiling as real <==> b.value.at.Floor < ceiling;
    }
  }

  /** The exact end of what a login and a refresh mint. */
  lemma MintedExpiryIsExact(cfg: Config, issuedAt: int, b: Option<Bound>, now: int)
    ensures EndsBy(cfg.sessionTtl, StopOf(b), now, now + ClampTtl(cfg.sessionTtl, b, now))
    ensures EndsBy(cfg.sessionTtl, StopsOf(cfg, issuedAt, b), now, RenewedExpiry(cfg, issuedAt, b, now))
  {
    ClampedEnd(cfg.sessionTtl, b, now);
    ClampedEnd(cfg.sessionTtl, DecisionBound(cfg, issuedAt, b), now);
    FirstStop(cfg, issuedAt, b);
    var stops := StopsOf(cfg, issuedAt, b);
    forall first <- StopOf(DecisionBound(cfg, issuedAt, b))
      ensures (forall stop <- stops :: now + cfg.sessionTtl <= stop) <==> now + cfg.sessionTtl <= first
    {
    }
  }

  /** Whatever bound the resolver returns, a minted expiry lies after the `now` it was computed from. */
  lemma MintedExpiryIsInTheFuture(cfg: Config, issuedAt: int, b: Option<Bound>, now: int)
    requires cfg.sessionTtl >= 1
    ensures now < RenewedExpiry(cfg, issuedAt, b, now)
    ensures now < now + ClampTtl(cfg.sessionTtl, b, now) <= now + cfg.sessionTtl
  {
  }

  /** A refresh below the ceiling mints an expiry below it exactly when the resolver's bound can be
      clamped, or the full TTL happens to fit; its refresh expiry always stays below. */
  lemma RenewalStaysBelowCeiling(cfg: Config, issuedAt: int, b: Option<Bound>, now: int)
    requires cfg.maxLifetime.Some? && now < issuedAt + cfg.maxLifetime.value && cfg.sessionTtl >= 1
    ensures RenewedExpiry(cfg, issuedAt, b, now) <= issuedAt + cfg.maxLifetime.value
            <==> Clampable(b) || now + cfg.sessionTtl <= issuedAt + cfg.maxLifetime.value
    ensures RenewedRefreshExpiry(cfg, issuedAt, now) <= issuedAt + cfg.maxLifetime.value
  {
    var ceiling := issuedAt + cfg.maxLifetime.value;
    if Clampable(b) {
      var bound := DecisionBound(cfg, issuedAt, b);
      assert bound.Some? && bound.value.Finite? && bound.value.at <= ceiling as real;
      assert bound.value.at.Floor <= ceiling;
    }
  }

  /** A login is only clamped to the resolver's bound, not to the wall: it fits below the wall exactly
      when the configured time to live does, or a finite bound makes it. */
  predicate LoginFits(cfg: Config, b: Option<Bound>, now: int)
    requires cfg.maxLifetime.Some?
  {
    || cfg.sessionTtl <= cfg.maxLifetime.value
    || (b.Some? && b.value.Finite? && Max(1, b.value.at.Floor - now) <= cfg.maxLifetime.value)
  }

  lemma LoginStaysBelowCeiling(cfg: Config, b: Option<Bound>, now: int)
    requires cfg.maxLifetime.Some? && cfg.sessionTtl >= 1
    ensures now + ClampTtl(cfg.sessionTtl, b, now) <= now + cfg.maxLifetime.value <==> LoginFits(cfg, b, now)
  {
  }

  /** A resolver answering `NaN` one second before the wall mints a full session past it. */
  lemma NotANumberEscapesTheWall()
    ensures exists cfg: Config, issuedAt, now ::
              && cfg.maxLifetime == Some(1000) && cfg.sessionTtl == 900 && now < issuedAt + 1000
              && RenewedExpiry(cfg, issuedAt, Some(NaN), now) == issuedAt + 1000 + 899
  {
    var cfg := Config(60, 30, 900, 600, Some(3600), Some(1000), 30, 5, 5, 10, 30);
    assert RenewedExpiry(cfg, 1, Some(NaN), 1000) == 1 + 1000 + 899;
  }

  // --------------------------------------------------------------------- whole runs

  /** The resolver's answer, if this step acts on one, leaves the session it mints below the wall:
      a login that fits, or a refresh whose bound can be clamped or whose full time to live fits. */
  ghost predicate Fits(cfg: Config, s: Sys, l: Label)
    requires WellFormed(s) && Enabled(cfg, s, l) && cfg.maxLifetime.Some?
  {
    match l
    case Decide(c, d, _) => d.Allow? ==> LoginFits(cfg, d.expiresAt, s.calls[c].now)
    case Grant(c, d, _, _) =>
      assert Grounded(s, s.calls[c]);
      d.Allow? ==> Clampable(d.expiresAt)
                   || s.calls[c].now + cfg.sessionTtl <= s.sessions.objs[s.calls[c].ref].issuedAt + cfg.maxLifetime.value
    case _ => true
  }

  ghost predicate AllFit(cfg: Config, s: Sys, ls: seq<Label>)
    requires Runs(cfg, s, ls) && cfg.maxLifetime.Some?
    decreases |ls|
  {
    ls == [] || (Fits(cfg, s, ls[0]) && AllFit(cfg, Next(cfg, s, ls[0]), ls[1..]))
  }

  /** Every refresh past its checks still has time left before the wall. */
  ghost predicate ChecksInv(cfg: Config, s: Sys) {
    forall c <- s.calls :: s.calls[c].Resolving? ==> HasTimeLeft(cfg, s, s.calls[c])
  }

  predicate HasTimeLeft(cfg: Config, s: Sys, call: Call)
    requires call.Resolving?
  {
    && call.ref < |s.sessions.objs|
    && (cfg.maxLifetime.Some? ==> call.now < s.sessions.objs[call.ref].issuedAt + cfg.maxLifetime.value)
  }

  lemma CheckLeavesTime(cfg: Config, s: Sys, l: Label)
    requires Inv(cfg, s) && Enabled(cfg, s, l) && l.Check?
    ensures l.c in Next(cfg, s, l).calls
    ensures Next(cfg, s, l).calls[l.c].Resolving? ==> HasTimeLeft(cfg, Next(cfg, s, l), Next(cfg, s, l).calls[l.c])
  {
    assert Grounded(s, s.calls[l.c]);
    PassedChecksLeaveTime(cfg, s, l);
    assert Next(cfg, s, l) == CheckStep(cfg, s, l);
  }

  lemma PassedChecksLeaveTime(cfg: Config, s: Sys, l: Label)
    requires WellFormed(s) && Enabled(cfg, s, l) && l.Check?
    ensures var t := CheckStep(cfg, s, l);
            l.c in t.calls && (t.calls[l.c].Resolving? ==> t.sessions == s.sessions && HasTimeLeft(cfg, s, t.calls[l.c]))
  {
    assert Grounded(s, s.calls[l.c]);
  }

  lemma OnlyCheckStartsResolving(cfg: Config, s: Sys, l: Label)
    requires WellFormed(s) && Enabled(cfg, s, l) && CallOf(l).Some? && !l.Check?
    ensures CallOf(l).value in Next(cfg, s, l).calls && !Next(cfg, s, l).calls[CallOf(l).value].Resolving?
  {
  }

  lemma NextKeepsChecks(cfg: Config, s: Sys, l: Label)
    requires Inv(cfg, s) && Enabled(cfg, s, l) && ChecksInv(cfg, s)
    ensures ChecksInv(cfg, Next(cfg, s, l))
  {
    var t := Next(cfg, s, l);
    OneCallMoves(cfg, s, l);
    NextEvolves(cfg, s, l);
    if l.Check? {
      CheckLeavesTime(cfg, s, l);
    } else if CallOf(l).Some? {
      OnlyCheckStartsResolving(cfg, s, l);
    }
    forall c <- t.calls | t.calls[c].Resolving? && CallOf(l) != Some(c) ensures HasTimeLeft(cfg, t, t.calls[c]) {
      assert HasTimeLeft(cfg, s, s.calls[c]);
      assert Ages(s.sessions.objs[t.calls[c].ref], t.sessions.objs[t.calls[c].ref]);
    }
  }

  lemma {:induction false} RunKeepsChecks(cfg: Config, s: Sys, ls: seq<Label>)
    requires Inv(cfg, s) && Runs(cfg, s, ls) && ChecksInv(cfg, s)
    ensures ChecksInv(cfg, After(cfg, s, ls))
    decreases |ls|
  {
    if ls != [] {
      NextKeepsInv(cfg, s, ls[0]);
      NextKeepsChecks(cfg, s, ls[0]);
      RunKeepsChecks(cfg, Next(cfg, s, ls[0]), ls[1..]);
    }
  }

  lemma ReachableChecks(cfg: Config, s: Sys)
    requires Reachable(cfg, s)
    ensures Inv(cfg, s) && ChecksInv(cfg, s)
  {
    ReachableInv(cfg, s);
    var s0, ls :| Reaches(cfg, s0, ls, s);
    assert Reaches(cfg, s0, [], s0);
    ReachableInv(cfg, s0);
    RunKeepsChecks(cfg, s0, ls);
  }

  /** What a rotation makes of a session's times, when it was checked below the wall. */
  lemma RotatedTimes(cfg: Config, x: Sessions.Session, call: Call, d: Decision, accessToken: string, refreshToken: string)
    requires call.Resolving? && d.Allow? && cfg.maxLifetime.Some? && cfg.sessionTtl >= 1 && call.now < x.issuedAt + cfg.maxLifetime.value
    ensures var y := Sessions.Rotated(x, RotationFor(cfg, x, call, d, accessToken, refreshToken));
            var wall := x.issuedAt + cfg.maxLifetime.value;
            && y.issuedAt == x.issuedAt && call.now < y.expiresAt
            && (y.expiresAt <= wall <==> Clampable(d.expiresAt) || call.now + cfg.sessionTtl <= wall)
            && y.refreshExpiresAt.Some? && y.refreshExpiresAt.value <= wall
  {
    MintedExpiryIsInTheFuture(cfg, x.issuedAt, d.expiresAt, call.now);
    RenewalStaysBelowCeiling(cfg, x.issuedAt, d.expiresAt, call.now);
  }

  lemma RotationHasTimeLeft(cfg: Config, s: Sys, l: Label, r: Sessions.Ref, token: string)
    requires Inv(cfg, s) && ChecksInv(cfg, s) && RotatesNow(cfg, s, l, r, token)
    ensures HasTimeLeft(cfg, s, s.calls[l.c])
  {
  }

  /** Every rotation of every run: the new access expiry lies after the check that allowed it, the
      refresh expiry never passes the wall, and the access expiry passes it exactly when the
      resolver's bound escapes the clamp and the full TTL does not fit. */
  lemma RotationsMeetTheWall(cfg: Config, s: Sys, l: Label, r: Sessions.Ref, token: string)
    requires Reachable(cfg, s) && WellFormed(s) && RotatesNow(cfg, s, l, r, token)
    requires cfg.maxLifetime.Some? && cfg.sessionTtl >= 1
    ensures l.d.Allow? && r < |Next(cfg, s, l).sessions.objs|
    ensures var x := Next(cfg, s, l).sessions.objs[r];
            var wall := x.issuedAt + cfg.maxLifetime.value;
            && s.calls[l.c].now < x.expiresAt
            && (x.expiresAt <= wall <==> Clampable(l.d.expiresAt) || s.calls[l.c].now + cfg.sessionTtl <= wall)
            && x.refreshExpiresAt.Some? && x.refreshExpiresAt.value <= wall
  {
    ReachableChecks(cfg, s);
    RotationFacts(cfg, s, l, r, token);
    RotationHasTimeLeft(cfg, s, l, r, token);
    RotatedTimes(cfg, s.sessions.objs[r], s.calls[l.c], l.d, l.accessToken, l.refreshToken);
  }

  /** Every login of every run that makes a session: its access expiry stays below the wall exactly when it fits. */
  lemma LoginsMeetTheWall(cfg: Config, s: Sys, l: Label)
    requires Reachable(cfg, s) && WellFormed(s) && Enabled(cfg, s, l) && l.Decide?
    requires |Next(cfg, s, l).sessions.objs| > |s.sessions.objs|
    requires cfg.maxLifetime.Some? && cfg.sessionTtl >= 1
    ensures var x := Next(cfg, s, l).sessions.objs[|s.sessions.objs|];
            && l.d.Allow? && x.issuedAt == s.calls[l.c].now < x.expiresAt
            && (x.expiresAt <= x.issuedAt + cfg.maxLifetime.value <==> LoginFits(cfg, l.d.expiresAt, s.calls[l.c].now))
  {
    ReachableInv(cfg, s);
    OpsAreFresh(cfg, s, l);
    SessionEffect(cfg, s, l);
    ApplyAges(s.sessions, SessionOpOf(cfg, s, l), s.used, Next(cfg, s, l).used);
    LoginStaysBelowCeiling(cfg, l.d.expiresAt, s.calls[l.c].now);
    MintedExpiryIsInTheFuture(cfg, 0, l.d.expiresAt, s.calls[l.c].now);
  }

  /** No session outlives the wall. */
  ghost predicate WallInv(cfg: Config, s: Sys)
    requires cfg.maxLifetime.Some?
  {
    forall r | 0 <= r < |s.sessions.objs| ::
      s.sessions.objs[r].expiresAt <= s.sessions.objs[r].issuedAt + cfg.maxLifetime.value
  }

  /** What a step brings into the sessions respects the wall. */
  ghost predicate OpBelowWall(cfg: Config, st: Sessions.Store, op: SessionOp)
    requires cfg.maxLifetime.Some? && Sessions.Closed(st)
  {
    match op
    case DoCreate(_, x) => x.expiresAt <= x.issuedAt + cfg.maxLifetime.value
    case DoRotate(sessionId, p) =>
      sessionId in st.byId ==> p.expiresAt <= st.objs[st.byId[sessionId]].issuedAt + cfg.maxLifetime.value
    case _ => true
  }

  lemma StepsBelowWall(cfg: Config, s: Sys, l: Label)
    requires Inv(cfg, s) && Enabled(cfg, s, l) && ChecksInv(cfg, s)
    requires cfg.maxLifetime.Some? && 1 <= cfg.sessionTtl && Fits(cfg, s, l)
    ensures OpBelowWall(cfg, s.sessions, SessionOpOf(cfg, s, l))
  {
    match l
    case Decide(c, d, _) =>
      if d.Allow? {
        LoginStaysBelowCeiling(cfg, d.expiresAt, s.calls[c].now);
      }
    case Grant(c, d, _, _) =>
      assert Grounded(s, s.calls[c]);
      var r := s.calls[c].ref;
      if d.Allow? {
        assert HasTimeLeft(cfg, s, s.calls[c]);
        RenewalStaysBelowCeiling(cfg, s.sessions.objs[r].issuedAt, d.expiresAt, s.calls[c].now);
        if s.sessions.objs[r].sessionId in s.sessions.byId {
          OneRecordPerId(s, r);
        }
      }
    case _ =>
  }

  lemma OneRecordPerId(s: Sys, r: Sessions.Ref)
    requires SessionInv(s.sessions, s.used) && r < |s.sessions.objs| && s.sessions.objs[r].sessionId in s.sessions.byId
    ensures s.sessions.byId[s.sessions.objs[r].sessionId] == r
  {
    var q := s.sessions.byId[s.sessions.objs[r].sessionId];
    assert s.sessions.objs[q].sessionId == s.sessions.objs[r].sessionId;
  }

  lemma SessionsStayBelowWall(cfg: Config, st: Sessions.Store, op: SessionOp, used: set<string>, used': set<string>)
    requires SessionInv(st, used) && OpFresh(op, used, used')
    requires cfg.maxLifetime.Some? && OpBelowWall(cfg, st, op)
    requires forall r | 0 <= r < |st.objs| :: st.objs[r].expiresAt <= st.objs[r].issuedAt + cfg.maxLifetime.value
    ensures forall r | 0 <= r < |Apply(st, op).objs| ::
              Apply(st, op).objs[r].expiresAt <= Apply(st, op).objs[r].issuedAt + cfg.maxLifetime.value
  {
    ApplyAges(st, op, used, used');
    var after := Apply(st, op);
    forall r | 0 <= r < |after.objs| ensures after.objs[r].expiresAt <= after.objs[r].issuedAt + cfg.maxLifetime.value {
      if r < |st.objs| {
        assert Renews(st.objs[r], after.objs[r], op) && Ages(st.objs[r], after.objs[r]);
        assert after.objs[r] != st.objs[r].(revokedAt := after.objs[r].revokedAt) ==> op.sessionId in st.byId;
        if op.DoRotate? && op.sessionId in st.byId && st.objs[r].sessionId == op.sessionId {
          assert st.objs[st.byId[op.sessionId]].sessionId == op.sessionId;
          assert st.byId[op.sessionId] == r;
        }
      }
    }
  }

  lemma NextKeepsWall(cfg: Config, s: Sys, l: Label)
    requires Inv(cfg, s) && ChecksInv(cfg, s) && Enabled(cfg, s, l)
    requires cfg.maxLifetime.Some? && 1 <= cfg.sessionTtl && Fits(cfg, s, l) && WallInv(cfg, s)
    ensures WallInv(cfg, Next(cfg, s, l))
  {
    OpsAreFresh(cfg, s, l);
    SessionEffect(cfg, s, l);
    StepsBelowWall(cfg, s, l);
    SessionsStayBelowWall(cfg, s.sessions, SessionOpOf(cfg, s, l), s.used, Next(cfg, s, l).used);
  }

  lemma {:induction false} RunKeepsWall(cfg: Config, s: Sys, ls: seq<Label>)
    requires Inv(cfg, s) && ChecksInv(cfg, s) && Runs(cfg, s, ls)
    requires cfg.maxLifetime.Some? && 1 <= cfg.sessionTtl && AllFit(cfg, s, ls) && WallInv(cfg, s)
    ensures WallInv(cfg, After(cfg, s, ls))
    decreases |ls|
  {
    if ls != [] {
      NextKeepsInv(cfg, s, ls[0]);
      NextKeepsChecks(cfg, s, ls[0]);
      NextKeepsWall(cfg, s, ls[0]);
      RunKeepsWall(cfg, Next(cfg, s, ls[0]), ls[1..]);
    }
  }

  /** Over any logins and refreshes that fit, no guarded request is let in at or past
      `issued_at + maxSessionLifetimeSeconds`. With a time to live within the ceiling every login
      fits, and every refresh does whose bound is a number or plus infinity. */
  lemma NoAcceptancePastTheWall(cfg: Config, s0: Sys, ls: seq<Label>, l: Label, r: Sessions.Ref)
    requires Initial(s0) && Runs(cfg, s0, ls) && cfg.maxLifetime.Some? && 1 <= cfg.sessionTtl && AllFit(cfg, s0, ls)
    ensures var s := After(cfg, s0, ls);
            AcceptsNow(s, l, r) ==> s.clock < s.sessions.objs[r].issuedAt + cfg.maxLifetime.value
  {
    assert Reaches(cfg, s0, [], s0);
    ReachableInv(cfg, s0);
    RunKeepsWall(cfg, s0, ls);
  }

  /** `issued_at`, the anchor the wall is measured from, never changes. */
  lemma LoginTimeIsFixed(cfg: Config, s: Sys, ls: seq<Label>, r: Sessions.Ref)
    requires Reachable(cfg, s) && Runs(cfg, s, ls) && r < |s.sessions.objs|
    ensures r < |After(cfg, s, ls).sessions.objs|
    ensures After(cfg, s, ls).sessions.objs[r].issuedAt == s.sessions.objs[r].issuedAt
  {
    ReachableInv(cfg, s);
    RunKeepsInv(cfg, s, ls);
    assert Ages(s.sessions.objs[r], After(cfg, s, ls).sessions.objs[r]);
  }
}
