/**
 * A predecessor refresh token presented again. The lookup and the checks are two steps, and a
 * refresh already past its checks may rotate the session between them.
 */
module Replays {
  import opened Options
  import Sessions
  import opened Server
  import opened ServerInvariants
  import opened ServerRuns
  import opened RefreshSafety
  import opened Revocation
  import PastTheWall

  /** In `s` a new call `c` presents `token`, the predecessor token of the indexed session `r`. */
  ghost predicate Presents(cfg: Config, s: Sys, c: nat, token: string, r: Sessions.Ref) {
    && WellFormed(s) && Enabled(cfg, s, BeginRefresh(c, token))
    && Sessions.Live(s.sessions, r) && s.sessions.objs[r].previousRefreshToken == Some(token)
  }

  // -------------------------------------------------------------- the call that waits

  predicate Waits(s: Sys, c: nat) {
    c in s.calls && s.calls[c].Looked?
  }

  lemma PredecessorIsFound(st: Sessions.Store, token: string, r: Sessions.Ref)
    requires Sessions.Indexed(st) && Sessions.Live(st, r) && token != "" && st.objs[r].previousRefreshToken == Some(token)
    ensures Sessions.Lookup(st.byRefresh, token) == Some(r)
  {
    assert Sessions.Reachable(st, r);
  }

  /** The state after the lookup. */
  function Asked(s: Sys, c: nat, token: string, r: Sessions.Ref): Sys {
    s.(calls := s.calls[c := Looked(token, Some(r))])
  }

  lemma LookupStep(cfg: Config, s: Sys, c: nat, token: string, r: Sessions.Ref)
    requires Inv(cfg, s) && Presents(cfg, s, c, token, r)
    ensures c !in s.calls && Inv(cfg, Asked(s, c, token, r)) && Next(cfg, s, BeginRefresh(c, token)) == Asked(s, c, token, r)
  {
    PredecessorIsFound(s.sessions, token, r);
    NextKeepsInv(cfg, s, BeginRefresh(c, token));
  }

  /** A call past its lookup never waits there again. */
  lemma MovedOn(cfg: Config, s: Sys, l: Label, c: nat)
    requires WellFormed(s) && Enabled(cfg, s, l) && c in s.calls
    ensures c in Next(cfg, s, l).calls
    ensures Waits(Next(cfg, s, l), c) ==> Next(cfg, s, l).calls[c] == s.calls[c]
  {
    OneCallMoves(cfg, s, l);
  }

  lemma {:induction false} WaitsUnchanged(cfg: Config, s: Sys, ls: seq<Label>, c: nat)
    requires Runs(cfg, s, ls) && c in s.calls && Waits(After(cfg, s, ls), c)
    ensures After(cfg, s, ls).calls[c] == s.calls[c]
    decreases |ls|
  {
    if ls != [] {
      MovedOn(cfg, s, ls[0], c);
      WaitsUnchanged(cfg, Next(cfg, s, ls[0]), ls[1..], c);
    }
  }

  // ------------------------------------------------------------- the session meanwhile

  /** Session `r` has `token` behind it: as its predecessor, while it still holds `current`, or for good. */
  ghost predicate Behind(s: Sys, r: Sessions.Ref, token: string, current: Option<string>) {
    && r < |s.sessions.objs| && Spent(s, token)
    && var x := s.sessions.objs[r];
       if x.refreshToken == current then x.previousRefreshToken == Some(token)
       else x.previousRefreshToken != Some(token) && current.Some? && Spent(s, current.value)
  }

  lemma PredecessorIsSpent(s: Sys, r: Sessions.Ref, token: string)
    requires SessionInv(s.sessions, s.used) && Sessions.Live(s.sessions, r)
    requires s.sessions.objs[r].previousRefreshToken == Some(token)
    ensures Spent(s, token) && Behind(s, r, token, s.sessions.objs[r].refreshToken)
  {
    var x := s.sessions.objs[r];
    assert KnownSession(x, s.used) && Sessions.Reachable(s.sessions, r);
    assert token in Sessions.OwnRefreshKeys(x);
    forall i | 0 <= i < |s.sessions.objs| && i != r ensures s.sessions.objs[i].refreshToken != Some(token) {
      assert Disjoint(s.sessions.objs[i], x);
    }
  }

  /** A rotation of `r` leaves the token it had with nobody. */
  lemma RenewalSpends(s: Sys, t: Sys, op: SessionOp, r: Sessions.Ref)
    requires SessionInv(s.sessions, s.used) && OpFresh(op, s.used, t.used) && Aged(s.sessions.objs, t.sessions.objs, op)
    requires r < |s.sessions.objs| && s.sessions.objs[r].refreshToken.Some?
    requires t.sessions.objs[r].refreshToken != s.sessions.objs[r].refreshToken
    ensures Spent(t, s.sessions.objs[r].refreshToken.value)
  {
    var x := s.sessions.objs[r];
    var token := x.refreshToken.value;
    assert KnownSession(x, s.used) && Renews(x, t.sessions.objs[r], op);
    forall i | 0 <= i < |t.sessions.objs| ensures t.sessions.objs[i].refreshToken != Some(token) {
      if i < |s.sessions.objs| && i != r {
        assert Renews(s.sessions.objs[i], t.sessions.objs[i], op);
        assert Disjoint(s.sessions.objs[i], x);
      }
    }
  }

  lemma StaysBehind(s: Sys, t: Sys, op: SessionOp, r: Sessions.Ref, token: string, current: Option<string>)
    requires SessionInv(s.sessions, s.used) && OpFresh(op, s.used, t.used) && Aged(s.sessions.objs, t.sessions.objs, op)
    requires Behind(s, r, token, current) && Spent(t, token)
    requires current.Some? && Spent(s, current.value) ==> Spent(t, current.value)
    ensures Behind(t, r, token, current)
  {
    var x, y := s.sessions.objs[r], t.sessions.objs[r];
    assert Renews(x, y, op);
    if y.refreshToken != x.refreshToken {
      RenewalSpends(s, t, op, r);
    }
  }

  lemma NextStaysBehind(cfg: Config, s: Sys, l: Label, r: Sessions.Ref, token: string, current: Option<string>)
    requires Inv(cfg, s) && Enabled(cfg, s, l) && Behind(s, r, token, current)
    ensures Behind(Next(cfg, s, l), r, token, current)
  {
    var op, t := SessionOpOf(cfg, s, l), Next(cfg, s, l);
    OpsAreFresh(cfg, s, l);
    SessionEffect(cfg, s, l);
    ApplyAges(s.sessions, op, s.used, t.used);
    SpentStaysSpent(cfg, s, l, token);
    if current.Some? && Spent(s, current.value) {
      SpentStaysSpent(cfg, s, l, current.value);
    }
    StaysBehind(s, t, op, r, token, current);
  }

  lemma {:induction false} RunStaysBehind(cfg: Config, s: Sys, ls: seq<Label>, r: Sessions.Ref, token: string, current: Option<string>)
    requires Inv(cfg, s) && Runs(cfg, s, ls) && Behind(s, r, token, current)
    ensures Behind(After(cfg, s, ls), r, token, current)
    decreases |ls|
  {
    if ls != [] {
      NextKeepsInv(cfg, s, ls[0]);
      NextStaysBehind(cfg, s, ls[0], r, token, current);
      RunStaysBehind(cfg, Next(cfg, s, ls[0]), ls[1..], r, token, current);
    }
  }

  // ------------------------------------------------------------------------ the check

  /** The check answers a replay and the session is dead. */
  ghost predicate ActedOn(cfg: Config, s: Sys, c: nat, r: Sessions.Ref)
    requires WellFormed(s) && Enabled(cfg, s, Check(c))
  {
    var t := Next(cfg, s, Check(c));
    c in t.calls && t.calls[c] == Refreshed(Fail(TokenReused)) && Dead(t, r)
  }

  /** The check answers as to a token nobody ever had, and leaves every session as it is. */
  ghost predicate PassedOver(cfg: Config, s: Sys, c: nat)
    requires WellFormed(s) && Enabled(cfg, s, Check(c))
  {
    var t := Next(cfg, s, Check(c));
    c in t.calls && t.calls[c] == Refreshed(Fail(UnknownToken)) && t.sessions == s.sessions
  }

  lemma CheckDecides(cfg: Config, s: Sys, c: nat, r: Sessions.Ref, token: string)
    requires Inv(cfg, s) && Enabled(cfg, s, Check(c)) && s.calls[c] == Looked(token, Some(r))
    requires token != "" && r < |s.sessions.objs| && s.sessions.objs[r].refreshToken != Some(token)
    ensures if s.sessions.objs[r].previousRefreshToken == Some(token) then ActedOn(cfg, s, c, r) else PassedOver(cfg, s, c)
  {
    assert Next(cfg, s, Check(c)) == CheckStep(cfg, s, Check(c));
  }

  /**
   * A session's predecessor token is presented, and then anything happens until the call is checked.
   * The replay is noticed and the session dead exactly when no refresh has rotated it in between;
   * otherwise the token counts as unknown and nothing happens to any session.
   */
  lemma ReplayIsNoticed(cfg: Config, s: Sys, c: nat, token: string, r: Sessions.Ref, ls: seq<Label>)
    requires Reachable(cfg, s) && Presents(cfg, s, c, token, r)
    requires Runs(cfg, Next(cfg, s, BeginRefresh(c, token)), ls)
    requires Waits(After(cfg, Next(cfg, s, BeginRefresh(c, token)), ls), c)
    ensures var u := After(cfg, Next(cfg, s, BeginRefresh(c, token)), ls);
            && WellFormed(u) && Enabled(cfg, u, Check(c)) && r < |u.sessions.objs|
            && (ActedOn(cfg, u, c, r) <==> u.sessions.objs[r].refreshToken == s.sessions.objs[r].refreshToken)
            && (!ActedOn(cfg, u, c, r) ==> PassedOver(cfg, u, c))
  {
    ReachableInv(cfg, s);
    var l, current := BeginRefresh(c, token), s.sessions.objs[r].refreshToken;
    var s1 := Next(cfg, s, l);
    LookupStep(cfg, s, c, token, r);
    PredecessorIsSpent(s, r, token);
    RunKeepsInv(cfg, s1, ls);
    RunStaysBehind(cfg, s1, ls, r, token, current);
    WaitsUnchanged(cfg, s1, ls, c);
    CheckDecides(cfg, After(cfg, s1, ls), c, r, token);
  }

  // ------------------------------------------------------------------------- the race

  /** Call `d` is a refresh of `r` past its checks, on the token `r` still holds. */
  predicate Overtakes(s: Sys, d: nat, r: Sessions.Ref) {
    && d in s.calls && s.calls[d].Resolving? && s.calls[d].ref == r && r < |s.sessions.objs|
    && s.sessions.objs[r].refreshToken == Some(s.calls[d].token)
  }

  lemma GrantRotates(cfg: Config, s: Sys, d: nat, r: Sessions.Ref, a: string, b: string)
    requires WellFormed(s) && Sessions.Live(s.sessions, r) && Overtakes(s, d, r) && FreshPair(s, a, b)
    requires b != s.calls[d].token
    ensures var l := Grant(d, Allow([], [], None), a, b);
            && Enabled(cfg, s, l)
            && var t := Next(cfg, s, l);
               && t.clock == s.clock && t.calls == s.calls[d := t.calls[d]] && t.sessions.byId == s.sessions.byId
               && |t.sessions.objs| == |s.sessions.objs|
               && t.sessions.objs[r] == s.sessions.objs[r].(previousRefreshToken := s.sessions.objs[r].refreshToken, refreshToken := Some(b),
                    accessToken := a, expiresAt := t.sessions.objs[r].expiresAt, refreshExpiresAt := t.sessions.objs[r].refreshExpiresAt,
                    roles := [], permissions := [])
  {
    var l := Grant(d, Allow([], [], None), a, b);
    assert Next(cfg, s, l) == GrantStep(cfg, s, l);
  }

  lemma HolderKnowsToken(s: Sys, d: nat, r: Sessions.Ref, b: string)
    requires SessionInv(s.sessions, s.used) && Overtakes(s, d, r) && b !in s.used
    ensures b != s.calls[d].token
  {
    assert KnownSession(s.sessions.objs[r], s.used);
  }

  lemma OneStep(cfg: Config, s: Sys, l: Label)
    requires WellFormed(s) && Enabled(cfg, s, l) && WellFormed(Next(cfg, s, l))
    ensures Runs(cfg, s, [l]) && After(cfg, s, [l]) == Next(cfg, s, l)
  {
    assert [l][1..] == [];
    assert Runs(cfg, Next(cfg, s, l), []);
  }

  /** The overtaking refresh, from the state after the lookup. */
  lemma GrantRuns(cfg: Config, s: Sys, c: nat, r: Sessions.Ref, d: nat, a: string, b: string)
    requires Inv(cfg, s) && Sessions.Live(s.sessions, r) && Waits(s, c) && Overtakes(s, d, r) && FreshPair(s, a, b)
    requires !Sessions.Revoked(s.sessions.objs[r])
    ensures var ls := [Grant(d, Allow([], [], None), a, b)];
            && Runs(cfg, s, ls)
            && var u := After(cfg, s, ls);
               && Waits(u, c) && Sessions.Live(u.sessions, r) && !Sessions.Revoked(u.sessions.objs[r])
               && u.sessions.objs[r].refreshToken != s.sessions.objs[r].refreshToken
  {
    var l := Grant(d, Allow([], [], None), a, b);
    HolderKnowsToken(s, d, r, b);
    GrantRotates(cfg, s, d, r, a, b);
    StaysWellFormed(cfg, s, l);
    OneStep(cfg, s, l);
  }

  lemma StaysWellFormed(cfg: Config, s: Sys, l: Label)
    requires Inv(cfg, s) && Enabled(cfg, s, l)
    ensures WellFormed(Next(cfg, s, l))
  {
    NextKeepsInv(cfg, s, l);
  }

  lemma RaceRuns(cfg: Config, s: Sys, c: nat, token: string, r: Sessions.Ref, d: nat, a: string, b: string)
    requires Inv(cfg, s) && Presents(cfg, s, c, token, r) && Overtakes(s, d, r) && FreshPair(s, a, b)
    requires !Sessions.Revoked(s.sessions.objs[r])
    ensures var s1, ls := Next(cfg, s, BeginRefresh(c, token)), [Grant(d, Allow([], [], None), a, b)];
            && Runs(cfg, s1, ls)
            && var u := After(cfg, s1, ls);
               && Waits(u, c) && Sessions.Live(u.sessions, r) && !Sessions.Revoked(u.sessions.objs[r])
               && u.sessions.objs[r].refreshToken != s.sessions.objs[r].refreshToken
  {
    LookupStep(cfg, s, c, token, r);
    GrantRuns(cfg, Asked(s, c, token, r), c, r, d, a, b);
  }

  lemma PassedOverLives(cfg: Config, u: Sys, c: nat, r: Sessions.Ref)
    requires WellFormed(u) && Enabled(cfg, u, Check(c)) && PassedOver(cfg, u, c)
    requires Sessions.Live(u.sessions, r) && !Sessions.Revoked(u.sessions.objs[r])
    ensures !Dead(Next(cfg, u, Check(c)), r)
  {
  }

  lemma InvOf(cfg: Config, s: Sys)
    requires Reachable(cfg, s)
    ensures Inv(cfg, s)
  {
    ReachableInv(cfg, s);
  }

  /**
   * The race: whenever a refresh of a live session is past its checks while the session's predecessor
   * token is presented, the replay can go unnoticed and the session live on.
   */
  lemma RefreshOutrunsReplay(cfg: Config, s: Sys, c: nat, token: string, r: Sessions.Ref, d: nat, a: string, b: string)
    requires Reachable(cfg, s) && Presents(cfg, s, c, token, r) && Overtakes(s, d, r) && FreshPair(s, a, b)
    requires !Sessions.Revoked(s.sessions.objs[r])
    ensures var s1, ls := Next(cfg, s, BeginRefresh(c, token)), [Grant(d, Allow([], [], None), a, b)];
            && Runs(cfg, s1, ls)
            && var u := After(cfg, s1, ls);
               WellFormed(u) && Enabled(cfg, u, Check(c)) && PassedOver(cfg, u, c) && !Dead(Next(cfg, u, Check(c)), r)
  {
    var s1, ls := Next(cfg, s, BeginRefresh(c, token)), [Grant(d, Allow([], [], None), a, b)];
    InvOf(cfg, s);
    RaceRuns(cfg, s, c, token, r, d, a, b);
    ReplayIsNoticed(cfg, s, c, token, r, ls);
    PassedOverLives(cfg, After(cfg, s1, ls), c, r);
  }

  // ---------------------------------------------------------------------- an instance

  /** The session of `PastTheWall.Renewed` has been refreshed once, and a second refresh asks for its checks. */
  function Again(cfg: Config, now: int, call: Server.Call): Sys
    requires cfg.maxLifetime.Some?
  {
    var s := PastTheWall.Renewed(cfg, now);
    s.(calls := s.calls[4 := call])
  }

  lemma SecondLookup(cfg: Config, s: Sys, now: int)
    requires PastTheWall.RefreshableAtTheWall(cfg) && WellFormed(s) && s == PastTheWall.Renewed(cfg, now)
    ensures Enabled(cfg, s, BeginRefresh(4, "rrrrrrrr"))
    ensures Next(cfg, s, BeginRefresh(4, "rrrrrrrr")) == Again(cfg, now, Looked("rrrrrrrr", Some(0)))
  {
    assert |"rrrrr"| == 5 && |"rrrrrrrr"| == 8;
    assert Sessions.Lookup(s.sessions.byRefresh, "rrrrrrrr") == Some(0);
  }

  lemma SecondCheck(cfg: Config, s: Sys, now: int)
    requires PastTheWall.RefreshableAtTheWall(cfg) && now == cfg.maxLifetime.value && WellFormed(s)
    requires s == Again(cfg, now, Looked("rrrrrrrr", Some(0)))
    ensures Enabled(cfg, s, Check(4)) && Next(cfg, s, Check(4)) == Again(cfg, now, Resolving("rrrrrrrr", 0, now))
  {
    assert |"rrrrr"| == 5 && |"rrrrrrrr"| == 8;
    assert JudgeRefresh(cfg, "rrrrrrrr", now, s.sessions.objs[0]).MayResolve?;
    assert s.calls[4 := Resolving("rrrrrrrr", 0, now)] == Again(cfg, now, Resolving("rrrrrrrr", 0, now)).calls;
    assert Next(cfg, s, Check(4)) == CheckStep(cfg, s, Check(4));
  }

  lemma SecondRefreshSteps(cfg: Config, now: int)
    requires PastTheWall.RefreshableAtTheWall(cfg) && now == cfg.maxLifetime.value
    ensures PastTheWall.Reached(cfg, Again(cfg, now, Resolving("rrrrrrrr", 0, now)))
  {
    var s, s1 := PastTheWall.Renewed(cfg, now), Again(cfg, now, Looked("rrrrrrrr", Some(0)));
    PastTheWall.GrantSteps(cfg, now);
    SecondLookup(cfg, s, now);
    PastTheWall.StepReaches(cfg, s, BeginRefresh(4, "rrrrrrrr"), s1);
    SecondCheck(cfg, s1, now);
    PastTheWall.StepReaches(cfg, s1, Check(4), Again(cfg, now, Resolving("rrrrrrrr", 0, now)));
  }

  lemma SecondIsFresh(cfg: Config, now: int)
    requires cfg.maxLifetime.Some?
    ensures FreshPair(Again(cfg, now, Resolving("rrrrrrrr", 0, now)), "b", "bb")
  {
    assert |"c"| == 1 && |"cc"| == 2 && |"sss"| == 3 && |"aaaa"| == 4 && |"rrrrr"| == 5 && |"tttttt"| == 6;
    assert |"aaaaaaa"| == 7 && |"rrrrrrrr"| == 8 && |"b"| == 1 && |"bb"| == 2 && "b"[0] != "c"[0] && "bb"[0] != "cc"[0];
  }

  lemma SecondOvertakes(cfg: Config, s: Sys, now: int)
    requires PastTheWall.RefreshableAtTheWall(cfg) && WellFormed(s) && s == Again(cfg, now, Resolving("rrrrrrrr", 0, now))
    ensures Presents(cfg, s, 5, "rrrrr", 0) && Overtakes(s, 4, 0) && !Sessions.Revoked(s.sessions.objs[0])
  {
    assert |"rrrrr"| == 5;
  }

  /** Such a state is the end of some run: after a login and one refresh, with the next one under way. */
  lemma RaceHappens(cfg: Config)
    requires PastTheWall.RefreshableAtTheWall(cfg)
    ensures exists s: Sys :: && Reachable(cfg, s) && Presents(cfg, s, 5, "rrrrr", 0) && Overtakes(s, 4, 0)
                        && !Sessions.Revoked(s.sessions.objs[0]) && FreshPair(s, "b", "bb")
  {
    var now := cfg.maxLifetime.value;
    var s := Again(cfg, now, Resolving("rrrrrrrr", 0, now));
    SecondRefreshSteps(cfg, now);
    SecondOvertakes(cfg, s, now);
    SecondIsFresh(cfg, now);
  }
}
