/** Revocation is final: checking a session's predecessor token ends the session, and nothing revives it. */
module Revocation {
  import opened Options
  import Sessions
  import opened Server
  import opened ServerInvariants
  import opened ServerRuns
  import opened RefreshSafety

  // ------------------------------------------------------------------ swept sessions

  /** A session the sweep took out of the indexes is past everything it was kept for. */
  ghost predicate GoneInv(s: Sys) {
    forall r | 0 <= r < |s.sessions.objs| && !Sessions.Live(s.sessions, r) ::
      Sessions.RetainUntil(s.sessions.objs[r]) < s.clock
  }

  function OpTime(op: SessionOp): Option<int> {
    match op
    case DoSweep(now) => Some(now)
    case DoCreate(now, _) => Some(now)
    case _ => None
  }

  /** Session `r` can only leave the indexes, by a sweep past its retention bound, and is then left alone. */
  ghost predicate OnlyLeaves(st: Sessions.Store, after: Sessions.Store, r: Sessions.Ref, sweptAt: Option<int>) {
    && r < |st.objs| <= |after.objs|
    && (Sessions.Live(after, r) ==> Sessions.Live(st, r))
    && (!Sessions.Live(st, r) ==> after.objs[r] == st.objs[r])
    && (Sessions.Live(st, r) && !Sessions.Live(after, r) ==>
          sweptAt.Some? && Sessions.RetainUntil(st.objs[r]) < sweptAt.value && after.objs[r] == st.objs[r])
  }

  lemma CreateNeverRevives(st: Sessions.Store, now: int, record: Sessions.Session, r: Sessions.Ref)
    requires Sessions.Indexed(st) && r < |st.objs|
    requires st.objs[r].sessionId != record.sessionId
    ensures OnlyLeaves(st, Sessions.CreateForChallenge(st, now, record).0, r, Some(now))
  {
    SweepNeverRevives(st, now, r);
    var swept := Sessions.Sweep(st, now);
    assert swept.objs == st.objs;
    if record.challengeId !in swept.byChallenge {
      AddNeverRevives(swept, record, r);
    }
  }

  lemma SweepNeverRevives(st: Sessions.Store, now: int, r: Sessions.Ref)
    requires Sessions.Indexed(st) && r < |st.objs|
    ensures OnlyLeaves(st, Sessions.Sweep(st, now), r, Some(now))
    ensures Sessions.Closed(Sessions.Sweep(st, now)) && Sessions.Sweep(st, now).objs == st.objs
  {
    Sessions.SweepKeepsIndexed(st, now);
  }

  lemma AddNeverRevives(st: Sessions.Store, record: Sessions.Session, r: Sessions.Ref)
    requires Sessions.Closed(st) && r < |st.objs| && st.objs[r].sessionId != record.sessionId
    ensures var after := Sessions.Add(st, record);
            after.objs[r] == st.objs[r] && (Sessions.Live(after, r) <==> Sessions.Live(st, r))
  {
  }

  lemma RotateNeverRevives(st: Sessions.Store, sessionId: string, p: Sessions.Rotation, r: Sessions.Ref)
    requires Sessions.Indexed(st) && r < |st.objs|
    ensures OnlyLeaves(st, Sessions.Rotate(st, sessionId, p), r, None)
  {
    if Sessions.Rotates(st, sessionId, p) {
      Sessions.RotateKeepsLive(st, sessionId, p);
      assert Sessions.Live(st, st.byId[sessionId]);
    }
  }

  lemma RevokeNeverRevives(st: Sessions.Store, op: SessionOp, r: Sessions.Ref)
    requires Sessions.Indexed(st) && r < |st.objs| && (op.DoRevoke? || op.DoRevokeAll?)
    ensures OnlyLeaves(st, Apply(st, op), r, None)
  {
    assert op.DoRevoke? && op.sessionId in st.byId ==> Sessions.Live(st, st.byId[op.sessionId]);
    assert forall k <- st.byId :: Sessions.Live(st, st.byId[k]);
  }

  lemma ApplyNeverRevives(st: Sessions.Store, op: SessionOp, used: set<string>, used': set<string>, r: Sessions.Ref)
    requires SessionInv(st, used) && OpFresh(op, used, used') && r < |st.objs|
    ensures OnlyLeaves(st, Apply(st, op), r, OpTime(op))
  {
    assert KnownSession(st.objs[r], used);
    match op
    case KeepAll =>
    case DoSweep(now) => SweepNeverRevives(st, now, r);
    case DoCreate(now, record) => CreateNeverRevives(st, now, record, r);
    case DoRotate(sessionId, p) => RotateNeverRevives(st, sessionId, p, r);
    case _ => RevokeNeverRevives(st, op, r);
  }

  lemma NewcomerIsLive(st: Sessions.Store, op: SessionOp, used: set<string>, used': set<string>)
    requires SessionInv(st, used) && OpFresh(op, used, used') && |st.objs| < |Apply(st, op).objs|
    ensures Sessions.Live(Apply(st, op), |st.objs|)
  {
    IndexKeysAreUsed(st, used);
    ApplyAges(st, op, used, used');
    Sessions.SweepKeepsIndexed(st, op.now);
  }

  lemma OpsAreOnTime(cfg: Config, s: Sys, l: Label)
    requires Inv(cfg, s) && Enabled(cfg, s, l)
    ensures OpTime(SessionOpOf(cfg, s, l)).Some? ==> OpTime(SessionOpOf(cfg, s, l)).value == s.clock
  {
  }

  lemma NextKeepsGoneInv(cfg: Config, s: Sys, l: Label)
    requires Inv(cfg, s) && GoneInv(s) && Enabled(cfg, s, l)
    ensures GoneInv(Next(cfg, s, l))
  {
    var op, t := SessionOpOf(cfg, s, l), Next(cfg, s, l);
    NextKeepsInv(cfg, s, l);
    OpsAreFresh(cfg, s, l);
    OpsAreOnTime(cfg, s, l);
    SessionEffect(cfg, s, l);
    ApplyAges(s.sessions, op, s.used, t.used);
    forall r | 0 <= r < |t.sessions.objs| && !Sessions.Live(t.sessions, r)
      ensures Sessions.RetainUntil(t.sessions.objs[r]) < t.clock
    {
      if r < |s.sessions.objs| {
        ApplyNeverRevives(s.sessions, op, s.used, t.used, r);
      } else {
        NewcomerIsLive(s.sessions, op, s.used, t.used);
      }
    }
  }

  lemma {:induction false} RunKeepsGoneInv(cfg: Config, s: Sys, ls: seq<Label>)
    requires Inv(cfg, s) && GoneInv(s) && Runs(cfg, s, ls)
    ensures GoneInv(After(cfg, s, ls))
    decreases |ls|
  {
    if ls != [] {
      NextKeepsInv(cfg, s, ls[0]);
      NextKeepsGoneInv(cfg, s, ls[0]);
      RunKeepsGoneInv(cfg, Next(cfg, s, ls[0]), ls[1..]);
    }
  }

  lemma ReachableGoneInv(cfg: Config, s: Sys)
    requires Reachable(cfg, s)
    ensures Inv(cfg, s) && GoneInv(s)
  {
    ReachableInv(cfg, s);
    var s0, ls :| Reaches(cfg, s0, ls, s);
    assert Reaches(cfg, s0, [], s0);
    ReachableInv(cfg, s0);
    RunKeepsGoneInv(cfg, s0, ls);
  }

  // ------------------------------------------------------------------- dead sessions

  /** Revoked, or swept because everything about it had expired. */
  predicate Dead(s: Sys, r: Sessions.Ref) {
    r < |s.sessions.objs| && (Sessions.Revoked(s.sessions.objs[r]) || !Sessions.Live(s.sessions, r))
  }

  /** A refresh of `r` that has passed its checks and is waiting for the ACL. */
  predicate PastChecks(s: Sys, c: nat, r: Sessions.Ref) {
    c in s.calls && s.calls[c].Resolving? && s.calls[c].ref == r
  }

  /** `loadSession` resumes with session `r` and accepts it. */
  predicate AcceptsNow(s: Sys, l: Label, r: Sessions.Ref) {
    && l.Accept? && l.c in s.calls && s.calls[l.c].Loading? && s.calls[l.c].found == Some(r)
    && r < |s.sessions.objs| && Acceptable(s.sessions.objs[r], s.clock)
  }

  lemma DeadStaysDead(cfg: Config, s: Sys, l: Label, r: Sessions.Ref)
    requires Inv(cfg, s) && Enabled(cfg, s, l) && Dead(s, r)
    ensures Dead(Next(cfg, s, l), r)
  {
    var op, t := SessionOpOf(cfg, s, l), Next(cfg, s, l);
    OpsAreFresh(cfg, s, l);
    SessionEffect(cfg, s, l);
    ApplyAges(s.sessions, op, s.used, t.used);
    ApplyNeverRevives(s.sessions, op, s.used, t.used, r);
    assert Ages(s.sessions.objs[r], t.sessions.objs[r]);
  }

  lemma CheckRefusesDead(cfg: Config, s: Sys, l: Label, r: Sessions.Ref)
    requires Inv(cfg, s) && GoneInv(s) && Enabled(cfg, s, l) && Dead(s, r)
    requires l.Check? && s.calls[l.c].found == Some(r)
    ensures !PastChecks(Next(cfg, s, l), l.c, r)
  {
    assert Grounded(s, s.calls[l.c]);
    assert Sessions.RetainUntil(s.sessions.objs[r]) < s.clock || Sessions.Revoked(s.sessions.objs[r]);
  }

  lemma OnlyCheckPasses(cfg: Config, s: Sys, l: Label, r: Sessions.Ref, c: nat)
    requires WellFormed(s) && Enabled(cfg, s, l)
    requires PastChecks(Next(cfg, s, l), c, r) && !PastChecks(s, c, r)
    ensures l.Check? && l.c == c && s.calls[c].found == Some(r)
  {
    OneCallMoves(cfg, s, l);
    assert CallOf(l) == Some(c);
  }

  /** No refresh of a dead session passes its checks any more. */
  lemma DeadFailsChecks(cfg: Config, s: Sys, l: Label, r: Sessions.Ref, c: nat)
    requires Inv(cfg, s) && GoneInv(s) && Enabled(cfg, s, l) && Dead(s, r)
    ensures PastChecks(Next(cfg, s, l), c, r) ==> PastChecks(s, c, r)
  {
    if l.Check? && l.c == c && s.calls[c].found == Some(r) {
      CheckRefusesDead(cfg, s, l, r);
    } else if PastChecks(Next(cfg, s, l), c, r) && !PastChecks(s, c, r) {
      OnlyCheckPasses(cfg, s, l, r, c);
    }
  }

  lemma {:induction false} RunFromDeath(cfg: Config, s: Sys, ls: seq<Label>, r: Sessions.Ref, c: nat)
    requires Inv(cfg, s) && GoneInv(s) && Dead(s, r) && Runs(cfg, s, ls)
    ensures Dead(After(cfg, s, ls), r)
    ensures PastChecks(After(cfg, s, ls), c, r) ==> PastChecks(s, c, r)
    decreases |ls|
  {
    if ls != [] {
      var t := Next(cfg, s, ls[0]);
      NextKeepsInv(cfg, s, ls[0]);
      NextKeepsGoneInv(cfg, s, ls[0]);
      DeadStaysDead(cfg, s, ls[0], r);
      DeadFailsChecks(cfg, s, ls[0], r, c);
      RunFromDeath(cfg, t, ls[1..], r, c);
    }
  }

  lemma DeadIsNotAccepted(s: Sys, l: Label, r: Sessions.Ref)
    requires GoneInv(s) && Dead(s, r)
    ensures !AcceptsNow(s, l, r)
  {
  }

  /** After a session has died, no guarded request is ever let in on it, and the only refreshes
      that can still succeed are those already past their checks when it died. */
  lemma DeathIsFinal(cfg: Config, s: Sys, ls: seq<Label>, r: Sessions.Ref, l: Label, token: string)
    requires Reachable(cfg, s) && Dead(s, r) && Runs(cfg, s, ls)
    ensures WellFormed(After(cfg, s, ls)) && Dead(After(cfg, s, ls), r)
    ensures !AcceptsNow(After(cfg, s, ls), l, r)
    ensures RotatesNow(cfg, After(cfg, s, ls), l, r, token) ==> PastChecks(s, l.c, r)
  {
    ReachableGoneInv(cfg, s);
    RunKeepsInv(cfg, s, ls);
    RunKeepsGoneInv(cfg, s, ls);
    var t := After(cfg, s, ls);
    if l.Grant? {
      RunFromDeath(cfg, s, ls, r, l.c);
      if RotatesNow(cfg, t, l, r, token) {
        RotationFacts(cfg, t, l, r, token);
      }
    } else {
      RunFromDeath(cfg, s, ls, r, 0);
    }
    DeadIsNotAccepted(t, l, r);
  }

  /** Checking a token that is by then the session's predecessor kills the session, whatever else is wrong
      with it. `Replays` says when a token that was the predecessor at its presentation still is. */
  lemma ReplayKills(cfg: Config, s: Sys, l: Label, r: Sessions.Ref)
    requires Reachable(cfg, s) && WellFormed(s) && Enabled(cfg, s, l) && l.Check? && s.calls[l.c].found == Some(r)
    requires r < |s.sessions.objs| && s.calls[l.c].token != ""
    requires s.sessions.objs[r].previousRefreshToken == Some(s.calls[l.c].token)
    ensures Dead(Next(cfg, s, l), r)
    ensures Next(cfg, s, l).calls[l.c] == Refreshed(Fail(TokenReused))
  {
    ReachableInv(cfg, s);
    assert Grounded(s, s.calls[l.c]);
  }

  // ------------------------------------------------- no token leads to a dead session

  /** `token` was issued to session `r` as an access token, and no other session can hold it. */
  ghost predicate Issuee(s: Sys, token: string, r: Sessions.Ref) {
    && token in s.used && r < |s.sessions.objs|
    && forall i | 0 <= i < |s.sessions.objs| && i != r :: s.sessions.objs[i].accessToken != token
  }

  /** Every lookup in flight found the session its token was issued to. */
  ghost predicate LookupsInv(s: Sys) {
    forall c <- s.calls :: s.calls[c].Loading? && s.calls[c].found.Some? ==>
      Issuee(s, s.calls[c].token, s.calls[c].found.value)
  }

  lemma HolderIsIssuee(s: Sys, r: Sessions.Ref)
    requires SessionInv(s.sessions, s.used) && r < |s.sessions.objs|
    ensures Issuee(s, s.sessions.objs[r].accessToken, r)
  {
    assert KnownSession(s.sessions.objs[r], s.used);
    forall i | 0 <= i < |s.sessions.objs| && i != r ensures s.sessions.objs[i].accessToken != s.sessions.objs[r].accessToken {
      assert Disjoint(s.sessions.objs[i], s.sessions.objs[r]);
    }
  }

  lemma IssueeIsStable(s: Sys, t: Sys, op: SessionOp, token: string, r: Sessions.Ref)
    requires Issuee(s, token, r) && OpFresh(op, s.used, t.used)
    requires |s.sessions.objs| <= |t.sessions.objs| <= |s.sessions.objs| + 1
    requires forall i | 0 <= i < |s.sessions.objs| :: Renews(s.sessions.objs[i], t.sessions.objs[i], op)
    requires |s.sessions.objs| < |t.sessions.objs| ==> op.DoCreate? && t.sessions.objs[|s.sessions.objs|] == op.record
    ensures Issuee(t, token, r)
  {
    forall i | 0 <= i < |t.sessions.objs| && i != r ensures t.sessions.objs[i].accessToken != token {
      if i < |s.sessions.objs| {
        assert Renews(s.sessions.objs[i], t.sessions.objs[i], op);
      }
    }
  }

  lemma IssueeStays(cfg: Config, s: Sys, l: Label, token: string, r: Sessions.Ref)
    requires Inv(cfg, s) && Enabled(cfg, s, l) && Issuee(s, token, r)
    ensures Issuee(Next(cfg, s, l), token, r)
  {
    var op, t := SessionOpOf(cfg, s, l), Next(cfg, s, l);
    OpsAreFresh(cfg, s, l);
    SessionEffect(cfg, s, l);
    ApplyAges(s.sessions, op, s.used, t.used);
    IssueeIsStable(s, t, op, token, r);
  }

  lemma LookupFindsHolder(cfg: Config, s: Sys, l: Label)
    requires Inv(cfg, s) && Enabled(cfg, s, l) && l.BeginLoad?
    ensures l.c in Next(cfg, s, l).calls
    ensures var call := Next(cfg, s, l).calls[l.c];
            call.Loading? && (call.found.Some? ==> Issuee(Next(cfg, s, l), call.token, call.found.value))
  {
    var t := Next(cfg, s, l);
    NextKeepsInv(cfg, s, l);
    if t.calls[l.c].found.Some? {
      assert t.sessions.byAccess[l.token] == t.calls[l.c].found.value;
      HolderIsIssuee(t, t.calls[l.c].found.value);
    }
  }

  lemma NextKeepsLookups(cfg: Config, s: Sys, l: Label)
    requires Inv(cfg, s) && LookupsInv(s) && Enabled(cfg, s, l)
    ensures LookupsInv(Next(cfg, s, l))
  {
    var t := Next(cfg, s, l);
    OneCallMoves(cfg, s, l);
    forall c <- t.calls | t.calls[c].Loading? && t.calls[c].found.Some?
      ensures Issuee(t, t.calls[c].token, t.calls[c].found.value)
    {
      if CallOf(l) == Some(c) {
        assert l.BeginLoad?;
        LookupFindsHolder(cfg, s, l);
      } else {
        assert s.calls[c] == t.calls[c];
        IssueeStays(cfg, s, l, t.calls[c].token, t.calls[c].found.value);
      }
    }
  }

  lemma {:induction false} RunKeepsLookups(cfg: Config, s: Sys, ls: seq<Label>)
    requires Inv(cfg, s) && LookupsInv(s) && Runs(cfg, s, ls)
    ensures LookupsInv(After(cfg, s, ls))
    decreases |ls|
  {
    if ls != [] {
      NextKeepsInv(cfg, s, ls[0]);
      NextKeepsLookups(cfg, s, ls[0]);
      RunKeepsLookups(cfg, Next(cfg, s, ls[0]), ls[1..]);
    }
  }

  lemma ReachableLookups(cfg: Config, s: Sys)
    requires Reachable(cfg, s)
    ensures LookupsInv(s)
  {
    var s0, ls :| Reaches(cfg, s0, ls, s);
    assert Reaches(cfg, s0, [], s0);
    ReachableInv(cfg, s0);
    RunKeepsLookups(cfg, s0, ls);
  }

  /** Every lookup of `token`, past or future, leads to session `r` or nowhere. */
  ghost predicate LeadsOnlyTo(s: Sys, token: string, r: Sessions.Ref) {
    && Issuee(s, token, r)
    && forall c <- s.calls :: s.calls[c].Loading? && s.calls[c].token == token && s.calls[c].found.Some? ==>
         s.calls[c].found.value == r
  }

  /** A lookup that begins now finds what the index holds. */
  lemma LoadReadsIndex(cfg: Config, s: Sys, l: Label, c: nat)
    requires WellFormed(s) && Enabled(cfg, s, l) && CallOf(l) == Some(c)
    ensures c in Next(cfg, s, l).calls
    ensures var t := Next(cfg, s, l);
            t.calls[c].Loading? && t.calls[c].found.Some? ==>
              t.calls[c].token in t.sessions.byAccess && t.sessions.byAccess[t.calls[c].token] == t.calls[c].found.value
  {
  }

  lemma NextLeadsOnlyTo(cfg: Config, s: Sys, l: Label, token: string, r: Sessions.Ref)
    requires Inv(cfg, s) && Enabled(cfg, s, l) && LeadsOnlyTo(s, token, r)
    ensures LeadsOnlyTo(Next(cfg, s, l), token, r)
  {
    var t := Next(cfg, s, l);
    OneCallMoves(cfg, s, l);
    IssueeStays(cfg, s, l, token, r);
    NextKeepsInv(cfg, s, l);
    forall c <- t.calls | t.calls[c].Loading? && t.calls[c].token == token && t.calls[c].found.Some?
      ensures t.calls[c].found.value == r
    {
      if CallOf(l) == Some(c) {
        LoadReadsIndex(cfg, s, l, c);
      }
    }
  }

  lemma {:induction false} RunLeadsOnlyTo(cfg: Config, s: Sys, ls: seq<Label>, token: string, r: Sessions.Ref)
    requires Inv(cfg, s) && LeadsOnlyTo(s, token, r) && Runs(cfg, s, ls)
    ensures LeadsOnlyTo(After(cfg, s, ls), token, r)
    decreases |ls|
  {
    if ls != [] {
      NextKeepsInv(cfg, s, ls[0]);
      NextLeadsOnlyTo(cfg, s, ls[0], token, r);
      RunLeadsOnlyTo(cfg, Next(cfg, s, ls[0]), ls[1..], token, r);
    }
  }

  lemma HeldTokenLeadsOnlyToHolder(cfg: Config, s: Sys, r: Sessions.Ref)
    requires Reachable(cfg, s) && r < |s.sessions.objs|
    ensures LeadsOnlyTo(s, s.sessions.objs[r].accessToken, r)
  {
    ReachableInv(cfg, s);
    ReachableLookups(cfg, s);
    HolderIsIssuee(s, r);
  }

  /** An access token a session ever held lets nobody in once that session has died: not on that
      session, and not on any other. */
  lemma DeadTokensAreRefused(cfg: Config, s: Sys, r: Sessions.Ref, ls: seq<Label>, ls': seq<Label>, l: Label, r': Sessions.Ref)
    requires Reachable(cfg, s) && r < |s.sessions.objs| && Runs(cfg, s, ls)
    requires Dead(After(cfg, s, ls), r) && Runs(cfg, After(cfg, s, ls), ls')
    ensures var u := After(cfg, After(cfg, s, ls), ls');
            l.Accept? && l.c in u.calls && u.calls[l.c].Loading? && u.calls[l.c].token == s.sessions.objs[r].accessToken
            ==> !AcceptsNow(u, l, r')
  {
    var token, t := s.sessions.objs[r].accessToken, After(cfg, s, ls);
    ReachableGoneInv(cfg, s);
    HeldTokenLeadsOnlyToHolder(cfg, s, r);
    RunKeepsInv(cfg, s, ls);
    RunKeepsGoneInv(cfg, s, ls);
    RunLeadsOnlyTo(cfg, s, ls, token, r);
    LateLoadsAreRefused(cfg, t, r, token, ls', l, r');
  }

  lemma LateLoadsAreRefused(cfg: Config, s: Sys, r: Sessions.Ref, token: string, ls: seq<Label>, l: Label, r': Sessions.Ref)
    requires Inv(cfg, s) && GoneInv(s) && Dead(s, r) && LeadsOnlyTo(s, token, r) && Runs(cfg, s, ls)
    ensures var u := After(cfg, s, ls);
            l.Accept? && l.c in u.calls && u.calls[l.c].Loading? && u.calls[l.c].token == token ==> !AcceptsNow(u, l, r')
  {
    RunKeepsGoneInv(cfg, s, ls);
    RunLeadsOnlyTo(cfg, s, ls, token, r);
    RunFromDeath(cfg, s, ls, r, 0);
    DeadIsNotAccepted(After(cfg, s, ls), l, r);
  }
}
