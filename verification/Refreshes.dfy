/** What a refresh has to show for itself, and what the session it renews is given. */
module Refreshes {
  import opened Options
  import Sessions
  import opened Server
  import opened ServerInvariants
  import opened ServerRuns
  import opened RefreshSafety
  import opened Lifetime

  // --------------------------------------------------------------------- the checks

  /** The presented token is the one the session was last given. */
  predicate Holds(x: Sessions.Session, token: string) {
    token != "" && x.refreshToken == Some(token)
  }

  predicate Precedes(x: Sessions.Session, token: string) {
    token != "" && x.previousRefreshToken == Some(token)
  }

  predicate StillRefreshable(cfg: Config, x: Sessions.Session, now: int) {
    && x.refreshExpiresAt.Some? && x.refreshExpiresAt.value != 0 && now <= x.refreshExpiresAt.value
    && (cfg.maxLifetime.Some? ==> now < x.issuedAt + cfg.maxLifetime.value)
  }

  predicate NeverRevoked(x: Sessions.Session) {
    x.revokedAt.None? || x.revokedAt.value == 0
  }

  /** From `s` to `t` the checks of refresh `c` on session `r` decided as its fields say; a replay revokes
      that session if it is still indexed, and nothing else changes any. */
  ghost predicate RefreshCheckedByFields(cfg: Config, s: Sys, t: Sys, c: nat, r: Sessions.Ref)
    requires Sessions.Closed(s.sessions) && c in s.calls && s.calls[c].Looked? && r < |s.sessions.objs|
  {
    var x, token := s.sessions.objs[r], s.calls[c].token;
    && c in t.calls && t.challenges == s.challenges && t.clock == s.clock
    && var call := t.calls[c];
    && (call == Resolving(token, r, s.clock) <==>
          !Precedes(x, token) && Holds(x, token) && NeverRevoked(x) && StillRefreshable(cfg, x, s.clock))
    && (call == Refreshed(Fail(TokenReused)) <==> Precedes(x, token))
    && (call == Refreshed(Fail(UnknownToken)) <==> !Precedes(x, token) && !Holds(x, token))
    && (call == Refreshed(Fail(SessionRevoked)) <==> !Precedes(x, token) && Holds(x, token) && !NeverRevoked(x))
    && (call == Refreshed(Fail(RefreshExpired)) <==>
          !Precedes(x, token) && Holds(x, token) && NeverRevoked(x) && !StillRefreshable(cfg, x, s.clock))
    && (if Precedes(x, token) && x.sessionId in s.sessions.byId
        then t.sessions == s.sessions.(objs := s.sessions.objs[s.sessions.byId[x.sessionId] :=
               s.sessions.objs[s.sessions.byId[x.sessionId]].(revokedAt := Some(s.clock))])
        else t.sessions == s.sessions)
  }

  lemma RefreshChecks(cfg: Config, s: Sys, l: Label, r: Sessions.Ref)
    requires WellFormed(s) && Enabled(cfg, s, l) && l.Check? && s.calls[l.c].found == Some(r) && r < |s.sessions.objs|
    ensures RefreshCheckedByFields(cfg, s, CheckStep(cfg, s, l), l.c, r)
  {
  }

  /** The checks of a refresh on the session it found, in every run. */
  lemma CheckDecides(cfg: Config, s: Sys, l: Label, r: Sessions.Ref)
    requires Reachable(cfg, s) && Enabled(cfg, s, l) && l.Check? && s.calls[l.c].found == Some(r)
    ensures WellFormed(s) && r < |s.sessions.objs| && RefreshCheckedByFields(cfg, s, Next(cfg, s, l), l.c, r)
  {
    ReachableInv(cfg, s);
    assert Grounded(s, s.calls[l.c]);
    RefreshChecks(cfg, s, l, r);
    assert Next(cfg, s, l) == CheckStep(cfg, s, l);
  }

  // --------------------------------------------------------------- what a refresh gives

  /** The session with new tokens and times and what this decision says, and nothing else new. */
  ghost predicate RenewedBy(cfg: Config, x: Sessions.Session, y: Sessions.Session, now: int, d: Decision, accessToken: string, refreshToken: string)
    requires d.Allow?
  {
    && y == x.(accessToken := accessToken, refreshToken := Some(refreshToken), previousRefreshToken := x.refreshToken,
               roles := d.roles, permissions := d.permissions, expiresAt := y.expiresAt, refreshExpiresAt := y.refreshExpiresAt)
    && EndsBy(cfg.sessionTtl, StopsOf(cfg, x.issuedAt, d.expiresAt), now, y.expiresAt)
    && y.refreshExpiresAt == Some(Min(now + RefreshTtl(cfg),
                                      if cfg.maxLifetime.Some? then x.issuedAt + cfg.maxLifetime.value else 9007199254740991))
  }

  lemma RotatedIsRenewed(cfg: Config, x: Sessions.Session, call: Call, d: Decision, accessToken: string, refreshToken: string)
    requires call.Resolving? && d.Allow?
    ensures RenewedBy(cfg, x, Sessions.Rotated(x, RotationFor(cfg, x, call, d, accessToken, refreshToken)), call.now, d, accessToken, refreshToken)
  {
    MintedExpiryIsExact(cfg, x.issuedAt, d.expiresAt, call.now);
  }

  /** Every rotation of every run: the roles and permissions are those of this very decision; identity,
      step-up token, login time and every other session stay as they were. */
  lemma RotationIsGiven(cfg: Config, s: Sys, l: Label, r: Sessions.Ref, token: string)
    requires Reachable(cfg, s) && WellFormed(s) && RotatesNow(cfg, s, l, r, token)
    ensures l.Grant? && l.d.Allow? && l.c in s.calls && s.calls[l.c].Resolving?
    ensures var before, after := s.sessions.objs, Next(cfg, s, l).sessions.objs;
            && r < |before| == |after|
            && RenewedBy(cfg, before[r], after[r], s.calls[l.c].now, l.d, l.accessToken, l.refreshToken)
            && (forall i | 0 <= i < |before| && i != r :: after[i] == before[i])
  {
    ReachableInv(cfg, s);
    RotationFacts(cfg, s, l, r, token);
    RotatedIsRenewed(cfg, s.sessions.objs[r], s.calls[l.c], l.d, l.accessToken, l.refreshToken);
  }

  /** A denial renews nothing; it revokes the principal's other sessions exactly when it says so. */
  ghost predicate DeniedBy(s: Sys, t: Sys, c: nat, d: Decision)
    requires Sessions.Closed(s.sessions) && c in s.calls && s.calls[c].Resolving? && s.calls[c].ref < |s.sessions.objs| && d.Deny?
  {
    && c in t.calls && t.calls[c] == Refreshed(Fail(RefreshDenied))
    && t.sessions == s.sessions.(objs := t.sessions.objs) && |t.sessions.objs| == |s.sessions.objs|
    && forall i | 0 <= i < |s.sessions.objs| ::
         var x := s.sessions.objs[i];
         t.sessions.objs[i] ==
           if d.revokeSessions && Sessions.Live(s.sessions, i) && x.pubkey == s.sessions.objs[s.calls[c].ref].pubkey && NeverRevoked(x)
           then x.(revokedAt := Some(s.calls[c].now)) else x
  }

  lemma RevokedPrincipal(st: Sessions.Store, pubkey: string, now: int, i: nat)
    requires Sessions.Indexed(st) && i < |st.objs|
    ensures Sessions.RevokeByPrincipal(st, pubkey, now).objs[i] ==
            if Sessions.Live(st, i) && st.objs[i].pubkey == pubkey && NeverRevoked(st.objs[i])
            then st.objs[i].(revokedAt := Some(now)) else st.objs[i]
  {
    if Sessions.Live(st, i) {
      assert st.objs[i].sessionId in st.byId.Keys && st.byId[st.objs[i].sessionId] == i;
    }
    forall k | k in st.byId && st.byId[k] == i ensures Sessions.Live(st, i) {
      assert st.objs[st.byId[k]].sessionId == k;
    }
  }

  lemma DenialDecides(cfg: Config, s: Sys, l: Label)
    requires Reachable(cfg, s) && Enabled(cfg, s, l) && l.Grant? && l.d.Deny?
    ensures WellFormed(s) && s.calls[l.c].ref < |s.sessions.objs| && DeniedBy(s, Next(cfg, s, l), l.c, l.d)
  {
    ReachableInv(cfg, s);
    assert Grounded(s, s.calls[l.c]);
    var x := s.sessions.objs[s.calls[l.c].ref];
    forall i | 0 <= i < |s.sessions.objs|
      ensures Sessions.RevokeByPrincipal(s.sessions, x.pubkey, s.calls[l.c].now).objs[i] ==
              if Sessions.Live(s.sessions, i) && s.sessions.objs[i].pubkey == x.pubkey && NeverRevoked(s.sessions.objs[i])
              then s.sessions.objs[i].(revokedAt := Some(s.calls[l.c].now)) else s.sessions.objs[i]
    {
      RevokedPrincipal(s.sessions, x.pubkey, s.calls[l.c].now, i);
    }
    assert Next(cfg, s, l) == GrantStep(cfg, s, l);
  }

  /** An allowed refresh rotates exactly when its session is still indexed and still holds the token it was
      checked with; otherwise it changes no session and is answered as an internal error. */
  lemma GrantRotatesExactly(cfg: Config, s: Sys, l: Label)
    requires Reachable(cfg, s) && Enabled(cfg, s, l) && l.Grant? && l.d.Allow?
    ensures WellFormed(s) && s.calls[l.c].ref < |s.sessions.objs|
    ensures var call := s.calls[l.c];
            RotatesNow(cfg, s, l, call.ref, call.token) <==>
            Sessions.Live(s.sessions, call.ref) && s.sessions.objs[call.ref].refreshToken == Some(call.token)
    ensures var call, t := s.calls[l.c], Next(cfg, s, l);
            !RotatesNow(cfg, s, l, call.ref, call.token) ==>
              t.sessions == s.sessions && l.c in t.calls && t.calls[l.c] == Refreshed(Fail(RefreshInternal))
  {
    ReachableInv(cfg, s);
    GrantRotates(cfg, s, l);
  }

  lemma GrantRotates(cfg: Config, s: Sys, l: Label)
    requires Inv(cfg, s) && Enabled(cfg, s, l) && l.Grant? && l.d.Allow?
    ensures s.calls[l.c].ref < |s.sessions.objs|
    ensures var call, t := s.calls[l.c], Next(cfg, s, l);
            if Sessions.Live(s.sessions, call.ref) && s.sessions.objs[call.ref].refreshToken == Some(call.token)
            then l.c in t.calls && t.calls[l.c] == Refreshed(Ok(call.ref))
            else t.sessions == s.sessions && l.c in t.calls && t.calls[l.c] == Refreshed(Fail(RefreshInternal))
  {
    var call := s.calls[l.c];
    assert Grounded(s, call);
    var x := s.sessions.objs[call.ref];
    if x.sessionId in s.sessions.byId {
      SameRecord(s.sessions, s.used, call.ref);
    }
    assert Next(cfg, s, l) == GrantStep(cfg, s, l);
  }

  lemma SameRecord(st: Sessions.Store, used: set<string>, r: Sessions.Ref)
    requires SessionInv(st, used) && r < |st.objs| && st.objs[r].sessionId in st.byId
    ensures st.byId[st.objs[r].sessionId] == r
  {
    var q := st.byId[st.objs[r].sessionId];
    assert st.objs[q].sessionId == st.objs[r].sessionId;
    assert q != r ==> Disjoint(st.objs[q], st.objs[r]);
  }

  // ------------------------------------------------------------------------ whole runs

  /** The step is a successful refresh of session `r`. */
  ghost predicate Refreshes(cfg: Config, s: Sys, l: Label, r: Sessions.Ref)
    requires WellFormed(s)
  {
    l.Grant? && Enabled(cfg, s, l) && RotatesNow(cfg, s, l, r, s.calls[l.c].token)
  }

  /** What a session may do: its roles and its permissions. */
  datatype Rights = Rights(roles: seq<string>, permissions: seq<string>)

  function RightsOf(x: Sessions.Session): Rights {
    Rights(x.roles, x.permissions)
  }

  /** The rights of session `r` after a run, as the decisions of its refreshes tell it. */
  ghost function LastRights(cfg: Config, s: Sys, ls: seq<Label>, r: Sessions.Ref, rights: Rights): Rights
    requires Runs(cfg, s, ls)
    decreases |ls|
  {
    if ls == [] then rights
    else LastRights(cfg, Next(cfg, s, ls[0]), ls[1..], r,
                    if Refreshes(cfg, s, ls[0], r) && ls[0].d.Allow? then Rights(ls[0].d.roles, ls[0].d.permissions) else rights)
  }

  lemma StepRights(cfg: Config, s: Sys, l: Label, r: Sessions.Ref)
    requires Inv(cfg, s) && Enabled(cfg, s, l) && r < |s.sessions.objs|
    ensures r < |Next(cfg, s, l).sessions.objs|
    ensures RightsOf(Next(cfg, s, l).sessions.objs[r]) ==
            if Refreshes(cfg, s, l, r) && l.d.Allow? then Rights(l.d.roles, l.d.permissions) else RightsOf(s.sessions.objs[r])
  {
    var op, t := SessionOpOf(cfg, s, l), Next(cfg, s, l);
    OpsAreFresh(cfg, s, l);
    SessionEffect(cfg, s, l);
    ApplyAges(s.sessions, op, s.used, t.used);
    assert Renews(s.sessions.objs[r], t.sessions.objs[r], op);
    if l.Grant? && l.d.Allow? {
      GrantRights(cfg, s, l, r);
    }
  }

  lemma GrantRights(cfg: Config, s: Sys, l: Label, r: Sessions.Ref)
    requires Inv(cfg, s) && Enabled(cfg, s, l) && r < |s.sessions.objs| && l.Grant? && l.d.Allow?
    ensures r < |Next(cfg, s, l).sessions.objs|
    ensures RightsOf(Next(cfg, s, l).sessions.objs[r]) ==
            if Refreshes(cfg, s, l, r) then Rights(l.d.roles, l.d.permissions) else RightsOf(s.sessions.objs[r])
  {
    var q := s.calls[l.c].ref;
    GrantRotates(cfg, s, l);
    if Refreshes(cfg, s, l, q) {
      RotationFacts(cfg, s, l, q, s.calls[l.c].token);
    }
  }

  lemma {:induction false} RunRights(cfg: Config, s: Sys, ls: seq<Label>, r: Sessions.Ref)
    requires Inv(cfg, s) && Runs(cfg, s, ls) && r < |s.sessions.objs|
    ensures r < |After(cfg, s, ls).sessions.objs|
    ensures RightsOf(After(cfg, s, ls).sessions.objs[r]) == LastRights(cfg, s, ls, r, RightsOf(s.sessions.objs[r]))
    decreases |ls|
  {
    if ls != [] {
      NextKeepsInv(cfg, s, ls[0]);
      StepRights(cfg, s, ls[0], r);
      RunRights(cfg, Next(cfg, s, ls[0]), ls[1..], r);
    }
  }

  /** Over any run, a session's roles and permissions are those the resolver last decided for it: at its
      last refresh, or if there was none, before. */
  lemma RightsAreThoseLastDecided(cfg: Config, s: Sys, ls: seq<Label>, r: Sessions.Ref)
    requires Reachable(cfg, s) && Runs(cfg, s, ls) && r < |s.sessions.objs|
    ensures r < |After(cfg, s, ls).sessions.objs|
    ensures RightsOf(After(cfg, s, ls).sessions.objs[r]) == LastRights(cfg, s, ls, r, RightsOf(s.sessions.objs[r]))
  {
    ReachableInv(cfg, s);
    RunRights(cfg, s, ls, r);
  }
}
