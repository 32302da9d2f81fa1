/**
 * When the lifetime wall is passed: a session minted above it is let in past it, and two runs
 * mint one, the first by a login time to live above the ceiling, the second by a resolver that
 * answers a refresh with `NaN`.
 */
module PastTheWall {
  import opened Options
  import Sessions
  import Challenges
  import opened Server
  import opened ServerRuns
  import opened Revocation

  const PROOF := Proof("event", "k", "cc", "c", 1, false)
  const IDS := Ids("sss", "aaaa", "rrrrr", "tttttt")

  /** A state some run of the server ends in. */
  ghost predicate Reached(cfg: Config, s: Sys) {
    WellFormed(s) && Reachable(cfg, s)
  }

  lemma {:induction false} RunThenStep(cfg: Config, s: Sys, ls: seq<Label>, l: Label)
    requires Runs(cfg, s, ls) && WellFormed(After(cfg, s, ls)) && Enabled(cfg, After(cfg, s, ls), l)
    requires WellFormed(Next(cfg, After(cfg, s, ls), l))
    ensures Runs(cfg, s, ls + [l]) && After(cfg, s, ls + [l]) == Next(cfg, After(cfg, s, ls), l)
    decreases |ls|
  {
    if ls != [] {
      RunThenStep(cfg, Next(cfg, s, ls[0]), ls[1..], l);
      assert (ls + [l])[1..] == ls[1..] + [l];
    }
  }

  lemma StepReaches(cfg: Config, s: Sys, l: Label, t: Sys)
    requires Reached(cfg, s) && Enabled(cfg, s, l) && Next(cfg, s, l) == t
    ensures Reached(cfg, t)
  {
    ReachableInv(cfg, s);
    NextKeepsInv(cfg, s, l);
    var s0, ls :| Reaches(cfg, s0, ls, s);
    RunThenStep(cfg, s0, ls, l);
    assert Reaches(cfg, s0, ls + [l], t);
  }

  /** Nothing the run needs is switched off. */
  predicate Ordinary(cfg: Config) {
    cfg.challengeTtl >= 0 && cfg.resultCacheTtl >= 0 && cfg.sessionTtl >= 1 && cfg.lowerGrace >= 0 && cfg.upperGrace >= 0
  }

  // -------------------------------------------------------------- the login, step by step

  function Record(cfg: Config): Challenges.Challenge {
    Challenges.Challenge("c", "cc", "n", "k", "u", 1, 1 + cfg.challengeTtl, Challenges.Issued, None, None, None, None, 0)
  }

  function LoggedIn(cfg: Config): Sessions.Session {
    Sessions.Session("sss", "c", "aaaa", "n", "k", [], [], 1, 1 + cfg.sessionTtl, None, None,
                     if RefreshEnabled(cfg) then Some("rrrrr") else None,
                     if RefreshEnabled(cfg) then Some(1 + RefreshTtl(cfg)) else None, None, None)
  }

  function Start(): Sys {
    Sys(Sessions.EMPTY, Challenges.EMPTY, 1, {}, map[])
  }

  function Begun(): Sys {
    Start().(calls := map[0 := Counted("n", "k", "u", None, 1)])
  }

  function Issuing(cfg: Config): Sys {
    Sys(Sessions.EMPTY, Challenges.Store([Record(cfg)], map["c" := 0], Some(1)), 1, {"c", "cc"}, map[0 := Server.Issued(Some("c"))])
  }

  function WithCall(s: Sys, call: Server.Call): Sys {
    s.(calls := s.calls[1 := call])
  }

  function Held(cfg: Config): Sessions.Store {
    Sessions.Store([LoggedIn(cfg)], map["sss" := 0], map["c" := 0], map["aaaa" := 0],
                   if RefreshEnabled(cfg) then map["rrrrr" := 0] else map[], Some(1))
  }

  function Making(cfg: Config): Sys {
    WithCall(Issuing(cfg), Created(PROOF, 1, 0, 0)).(sessions := Held(cfg), used := {"c", "cc", "sss", "aaaa", "rrrrr", "tttttt"})
  }

  function Redeemed(cfg: Config): Challenges.Challenge {
    Record(cfg).(state := Challenges.Redeemed, redeemedEventId := Some("event"), redeemedSessionId := Some("sss"),
                 resultCacheUntil := Some(1 + cfg.resultCacheTtl))
  }

  function Entered(cfg: Config): Sys {
    WithCall(Making(cfg), Completed(PROOF, Ok(0))).(challenges := Challenges.Store([Redeemed(cfg)], map["c" := 0], Some(1)))
  }

  lemma IssueSteps(cfg: Config)
    requires Ordinary(cfg)
    ensures Reached(cfg, Issuing(cfg))
  {
    var l0, l1 := BeginInit(0, "n", "k", "u", None), CreateChallenge(0, "c", "cc");
    assert Reaches(cfg, Start(), [], Start());
    assert Challenges.Outstanding(Challenges.EMPTY, NpubFilter("n", None, 1)) == {};
    StepReaches(cfg, Start(), l0, Begun());
    assert |"c"| != |"cc"|;
    assert Challenges.Create(Challenges.EMPTY, 1, Record(cfg)).records == map["c" := 0];
    assert Next(cfg, Begun(), l1).used == {"c", "cc"};
    StepReaches(cfg, Begun(), l1, Issuing(cfg));
  }

  lemma FetchNext(cfg: Config, s: Sys)
    requires WellFormed(s) && s == WithCall(Issuing(cfg), Proved(PROOF, 1))
    ensures Enabled(cfg, s, Fetch(1)) && Next(cfg, s, Fetch(1)) == WithCall(Issuing(cfg), Fetched(PROOF, 1, Some(0)))
  {
    assert s.calls[1 := Fetched(PROOF, 1, Some(0))] == WithCall(Issuing(cfg), Fetched(PROOF, 1, Some(0))).calls;
  }

  lemma InspectNext(cfg: Config, s: Sys)
    requires Ordinary(cfg) && WellFormed(s) && s == WithCall(Issuing(cfg), Fetched(PROOF, 1, Some(0)))
    ensures Enabled(cfg, s, Inspect(1)) && Next(cfg, s, Inspect(1)) == WithCall(Issuing(cfg), Authorizing(PROOF, 1, 0))
  {
    assert Judge(cfg, PROOF, 1, Record(cfg)).Proceed?;
    assert s.calls[1 := Authorizing(PROOF, 1, 0)] == WithCall(Issuing(cfg), Authorizing(PROOF, 1, 0)).calls;
    assert Next(cfg, s, Inspect(1)) == InspectStep(cfg, s, Inspect(1));
  }

  lemma ProofSteps(cfg: Config)
    requires Ordinary(cfg)
    ensures Reached(cfg, WithCall(Issuing(cfg), Authorizing(PROOF, 1, 0)))
  {
    var s := Issuing(cfg);
    IssueSteps(cfg);
    var s1, s2, s3 := WithCall(s, Proved(PROOF, 1)), WithCall(s, Fetched(PROOF, 1, Some(0))), WithCall(s, Authorizing(PROOF, 1, 0));
    StepReaches(cfg, s, BeginComplete(1, PROOF), s1);
    FetchNext(cfg, s1);
    StepReaches(cfg, s1, Fetch(1), s2);
    InspectNext(cfg, s2);
    StepReaches(cfg, s2, Inspect(1), s3);
  }

  lemma SessionIsMade(cfg: Config)
    requires Ordinary(cfg)
    ensures Sessions.CreateForChallenge(Sessions.EMPTY, 1, LoggedIn(cfg)) == (Held(cfg), 0)
  {
    var swept := Sessions.EMPTY.(lastSweptAt := Some(1));
    Sessions.RemoveNone(swept);
    assert Sessions.Stale(Sessions.EMPTY, 1) == {};
    assert Sessions.Sweep(Sessions.EMPTY, 1) == swept;
    assert |"rrrrr"| == 5;
    assert Sessions.Add(swept, LoggedIn(cfg)) == Held(cfg);
  }

  lemma DecideNext(cfg: Config, s: Sys, l: Label)
    requires Ordinary(cfg) && WellFormed(s)
    requires s == WithCall(Issuing(cfg), Authorizing(PROOF, 1, 0)) && l == Decide(1, Allow([], [], None), IDS)
    ensures Enabled(cfg, s, l) && Next(cfg, s, l) == Making(cfg)
  {
    SessionIsMade(cfg);
    assert |"c"| == 1 && |"cc"| == 2 && |"sss"| == 3 && |"aaaa"| == 4 && |"rrrrr"| == 5 && |"tttttt"| == 6;
    assert FreshIds(s, IDS);
    assert NewSession(cfg, Record(cfg), PROOF, 1, l.d, IDS) == LoggedIn(cfg);
    assert s.calls[1 := Created(PROOF, 1, 0, 0)] == Making(cfg).calls;
    assert s.used + {"sss", "aaaa", "rrrrr", "tttttt"} == Making(cfg).used;
    assert Next(cfg, s, l) == DecideStep(cfg, s, l);
  }

  lemma DecideSteps(cfg: Config)
    requires Ordinary(cfg)
    ensures Reached(cfg, Making(cfg))
  {
    var s, l := WithCall(Issuing(cfg), Authorizing(PROOF, 1, 0)), Decide(1, Allow([], [], None), IDS);
    ProofSteps(cfg);
    DecideNext(cfg, s, l);
    StepReaches(cfg, s, l, Making(cfg));
  }

  function Redeemings(cfg: Config): Sys {
    WithCall(Entered(cfg), Redeeming(PROOF, 1, 0, 0, Challenges.WasRedeemed))
  }

  lemma RecordIsRedeemed(cfg: Config)
    requires Ordinary(cfg)
    ensures Challenges.Redeem(Making(cfg).challenges, "c", Challenges.Redemption("event", "sss", 1, 1 + cfg.resultCacheTtl))
            == (Entered(cfg).challenges, Challenges.WasRedeemed)
  {
    var s := Making(cfg).challenges;
    var p := Challenges.Redemption("event", "sss", 1, 1 + cfg.resultCacheTtl);
    assert Challenges.RedeemStatusOf(Record(cfg), p).WasRedeemed?;
    assert Challenges.RedeemRecord(Record(cfg), p) == Redeemed(cfg);
    assert s.objs[0 := Redeemed(cfg)] == Entered(cfg).challenges.objs;
  }

  lemma RedeemNext(cfg: Config)
    requires Ordinary(cfg) && WellFormed(Making(cfg))
    ensures Enabled(cfg, Making(cfg), Redeem(1)) && Next(cfg, Making(cfg), Redeem(1)) == Redeemings(cfg)
  {
    var s := Making(cfg);
    RecordIsRedeemed(cfg);
    assert s.calls[1] == Created(PROOF, 1, 0, 0);
    assert s.calls[1 := Redeeming(PROOF, 1, 0, 0, Challenges.WasRedeemed)] == Redeemings(cfg).calls;
    assert Next(cfg, s, Redeem(1)) == RedeemStep(cfg, s, Redeem(1));
  }

  lemma ConcludeNext(cfg: Config)
    requires Ordinary(cfg) && WellFormed(Redeemings(cfg))
    ensures Enabled(cfg, Redeemings(cfg), Conclude(1)) && Next(cfg, Redeemings(cfg), Conclude(1)) == Entered(cfg)
  {
    var s := Redeemings(cfg);
    assert s.calls[1 := Completed(PROOF, Ok(0))] == Entered(cfg).calls;
    assert Next(cfg, s, Conclude(1)) == ConcludeStep(cfg, s, Conclude(1));
  }

  /** A client logs in at instant 1. */
  lemma LoginSteps(cfg: Config)
    requires Ordinary(cfg)
    ensures Reached(cfg, Entered(cfg))
  {
    DecideSteps(cfg);
    RedeemNext(cfg);
    StepReaches(cfg, Making(cfg), Redeem(1), Redeemings(cfg));
    ConcludeNext(cfg);
    StepReaches(cfg, Redeemings(cfg), Conclude(1), Entered(cfg));
  }

  // ------------------------------------------------------------- a request past the wall

  /** In a state some run ends in, this step lets a guarded request in at or past the wall of the session it is let in on. */
  ghost predicate AcceptedPastTheWall(cfg: Config, s: Sys, l: Label, r: Sessions.Ref)
    requires cfg.maxLifetime.Some?
  {
    && Reached(cfg, s) && Enabled(cfg, s, l) && AcceptsNow(s, l, r)
    && s.sessions.objs[r].issuedAt + cfg.maxLifetime.value <= s.clock
  }

  /** The sweep leaves a session alone that has not expired, and the access index finds it. */
  lemma SweepKeepsUnexpired(st: Sessions.Store, r: Sessions.Ref, now: int)
    requires Sessions.Indexed(st) && Sessions.Live(st, r) && now < st.objs[r].expiresAt
    ensures Sessions.Sweep(st, now).objs == st.objs
    ensures Sessions.Lookup(Sessions.Sweep(st, now).byAccess, st.objs[r].accessToken) == Some(r)
  {
    var swept := Sessions.Sweep(st, now);
    Sessions.SweepKeepsIndexed(st, now);
    assert Sessions.Live(swept, r);
    assert Sessions.Reachable(swept, r);
  }

  lemma LoadFinds(cfg: Config, s: Sys, r: Sessions.Ref, c: nat, token: string)
    requires WellFormed(s) && Sessions.Indexed(s.sessions) && Sessions.Live(s.sessions, r) && c !in s.calls && token != ""
    requires token == s.sessions.objs[r].accessToken && s.clock < s.sessions.objs[r].expiresAt
    ensures Enabled(cfg, s, BeginLoad(c, token))
    ensures var t := Next(cfg, s, BeginLoad(c, token));
            t.clock == s.clock && t.sessions.objs == s.sessions.objs && c in t.calls && t.calls[c] == Loading(token, Some(r))
  {
    SweepKeepsUnexpired(s.sessions, r, s.clock);
    assert Next(cfg, s, BeginLoad(c, token)) == LoadStep(s, BeginLoad(c, token));
  }

  lemma IndexedThen(cfg: Config, s: Sys)
    requires Reached(cfg, s)
    ensures Sessions.Indexed(s.sessions)
  {
    ReachableInv(cfg, s);
  }

  lemma LoadPasses(cfg: Config, s: Sys, r: Sessions.Ref, c: nat)
    requires Reached(cfg, s) && Sessions.Live(s.sessions, r) && c !in s.calls && cfg.maxLifetime.Some?
    requires var x := s.sessions.objs[r];
             x.accessToken != "" && !Sessions.Revoked(x) && x.issuedAt + cfg.maxLifetime.value <= s.clock < x.expiresAt
    ensures var l := BeginLoad(c, s.sessions.objs[r].accessToken);
            && Enabled(cfg, s, l) && AcceptedPastTheWall(cfg, Next(cfg, s, l), Accept(c), r)
            && Next(cfg, s, l).sessions.objs == s.sessions.objs
  {
    var l := BeginLoad(c, s.sessions.objs[r].accessToken);
    IndexedThen(cfg, s);
    LoadFinds(cfg, s, r, c, l.token);
    var t := Next(cfg, s, l);
    StepReaches(cfg, s, l, t);
    assert Enabled(cfg, t, Accept(c)) && AcceptsNow(t, Accept(c), r);
  }

  lemma TwoSteps(cfg: Config, s: Sys, l: Label, l': Label)
    requires WellFormed(s) && Enabled(cfg, s, l) && WellFormed(Next(cfg, s, l)) && Enabled(cfg, Next(cfg, s, l), l')
    requires WellFormed(Next(cfg, Next(cfg, s, l), l'))
    ensures Runs(cfg, s, [l, l']) && After(cfg, s, [l, l']) == Next(cfg, Next(cfg, s, l), l')
  {
    var t := Next(cfg, s, l);
    assert [l, l'][1..] == [l'] && [l'][1..] == [];
    assert Runs(cfg, Next(cfg, t, l'), []);
    assert Runs(cfg, t, [l']) && After(cfg, t, [l']) == After(cfg, Next(cfg, t, l'), []);
  }

  /** The run in which the client of session `r` waits for an instant and then presents its access token. */
  function WaitAndLoad(s: Sys, r: Sessions.Ref, c: nat, to: int): seq<Label>
    requires r < |s.sessions.objs|
  {
    [Tick(to), BeginLoad(c, s.sessions.objs[r].accessToken)]
  }

  /** The fit the wall needs is needed: from any state of any run, an indexed and unrevoked session whose
      expiry lies above its wall is let in past the wall, when from there its client just waits for that
      instant and presents its access token. */
  lemma AboveTheWallIsAccepted(cfg: Config, s: Sys, r: Sessions.Ref, c: nat)
    requires Reached(cfg, s) && Sessions.Live(s.sessions, r) && c !in s.calls && cfg.maxLifetime.Some?
    requires var x := s.sessions.objs[r];
             x.accessToken != "" && !Sessions.Revoked(x) && Max(s.clock, x.issuedAt + cfg.maxLifetime.value) < x.expiresAt
    ensures var ls := WaitAndLoad(s, r, c, Max(s.clock, s.sessions.objs[r].issuedAt + cfg.maxLifetime.value));
            && Runs(cfg, s, ls) && AcceptedPastTheWall(cfg, After(cfg, s, ls), Accept(c), r)
            && After(cfg, s, ls).sessions.objs == s.sessions.objs
  {
    var to := Max(s.clock, s.sessions.objs[r].issuedAt + cfg.maxLifetime.value);
    var s1 := s.(clock := to);
    StepReaches(cfg, s, Tick(to), s1);
    LoadPasses(cfg, s1, r, c);
    TwoSteps(cfg, s, Tick(to), BeginLoad(c, s.sessions.objs[r].accessToken));
  }

  /** A login time to live above the ceiling: the session works past the wall without any refresh. */
  lemma LongLoginPassesTheWall(cfg: Config)
    requires Ordinary(cfg) && cfg.maxLifetime.Some? && 0 <= cfg.maxLifetime.value < cfg.sessionTtl
    ensures exists s, l, r :: AcceptedPastTheWall(cfg, s, l, r)
  {
    LoginSteps(cfg);
    assert |"aaaa"| == 4;
    AboveTheWallIsAccepted(cfg, Entered(cfg), 0, 3);
  }

  // ----------------------------------------------------------- a refresh answered with NaN

  function Rotation(cfg: Config, now: int): Sessions.Rotation
    requires cfg.maxLifetime.Some?
  {
    Sessions.Rotation("rrrrr", "aaaaaaa", "rrrrrrrr", now + cfg.sessionTtl, Min(now + RefreshTtl(cfg), 1 + cfg.maxLifetime.value), [], [])
  }

  function Renewed(cfg: Config, now: int): Sys
    requires cfg.maxLifetime.Some?
  {
    var s, x := Entered(cfg), Sessions.Rotated(LoggedIn(cfg), Rotation(cfg, now));
    s.(clock := now, used := s.used + {"aaaaaaa", "rrrrrrrr"}, calls := s.calls[2 := Refreshed(Ok(0))],
       sessions := Held(cfg).(objs := [x], byAccess := map["aaaaaaa" := 0], byRefresh := map["rrrrr" := 0, "rrrrrrrr" := 0]))
  }

  /** One second before the wall the refresh token is still good. */
  predicate RefreshableAtTheWall(cfg: Config) {
    Ordinary(cfg) && cfg.maxLifetime.Some? && 1 <= cfg.maxLifetime.value <= RefreshTtl(cfg) + 1 && RefreshTtl(cfg) >= 1 && cfg.sessionTtl >= 2
  }

  /** The login's state at `now`, with a refresh under way. */
  function WithRefresh(cfg: Config, now: int, call: Server.Call): Sys {
    Entered(cfg).(clock := now, calls := Entered(cfg).calls[2 := call])
  }

  lemma LookupNext(cfg: Config, s: Sys, now: int)
    requires RefreshableAtTheWall(cfg) && WellFormed(s) && s == Entered(cfg).(clock := now)
    ensures Enabled(cfg, s, BeginRefresh(2, "rrrrr"))
    ensures Next(cfg, s, BeginRefresh(2, "rrrrr")) == WithRefresh(cfg, now, Looked("rrrrr", Some(0)))
  {
    assert |"rrrrr"| == 5;
    assert Sessions.Lookup(s.sessions.byRefresh, "rrrrr") == Some(0);
  }

  lemma CheckNext(cfg: Config, s: Sys, now: int)
    requires RefreshableAtTheWall(cfg) && now == cfg.maxLifetime.value && WellFormed(s)
    requires s == WithRefresh(cfg, now, Looked("rrrrr", Some(0)))
    ensures Enabled(cfg, s, Check(2)) && Next(cfg, s, Check(2)) == WithRefresh(cfg, now, Resolving("rrrrr", 0, now))
  {
    assert |"rrrrr"| == 5;
    assert JudgeRefresh(cfg, "rrrrr", now, LoggedIn(cfg)).MayResolve?;
    assert s.calls[2 := Resolving("rrrrr", 0, now)] == WithRefresh(cfg, now, Resolving("rrrrr", 0, now)).calls;
    assert Next(cfg, s, Check(2)) == CheckStep(cfg, s, Check(2));
  }

  lemma RefreshSteps(cfg: Config, now: int)
    requires RefreshableAtTheWall(cfg) && now == cfg.maxLifetime.value
    ensures Reached(cfg, WithRefresh(cfg, now, Resolving("rrrrr", 0, now)))
  {
    LoginSteps(cfg);
    var s1, s2 := Entered(cfg).(clock := now), WithRefresh(cfg, now, Looked("rrrrr", Some(0)));
    StepReaches(cfg, Entered(cfg), Tick(now), s1);
    LookupNext(cfg, s1, now);
    StepReaches(cfg, s1, BeginRefresh(2, "rrrrr"), s2);
    CheckNext(cfg, s2, now);
    StepReaches(cfg, s2, Check(2), WithRefresh(cfg, now, Resolving("rrrrr", 0, now)));
  }

  lemma SessionRotates(cfg: Config, now: int)
    requires RefreshableAtTheWall(cfg) && now == cfg.maxLifetime.value
    ensures Sessions.Rotates(Held(cfg), "sss", Rotation(cfg, now))
    ensures Sessions.Rotate(Held(cfg), "sss", Rotation(cfg, now)) == Renewed(cfg, now).sessions
  {
    assert |"aaaa"| != |"aaaaaaa"| && |"rrrrr"| != |"rrrrrrrr"|;
    assert (Held(cfg).byAccess - {"aaaa"})["aaaaaaa" := 0] == map["aaaaaaa" := 0];
    assert Held(cfg).byRefresh["rrrrrrrr" := 0] == map["rrrrr" := 0, "rrrrrrrr" := 0];
  }

  const GRANT := Grant(2, Allow([], [], Some(NaN)), "aaaaaaa", "rrrrrrrr")

  lemma GrantIsEnabled(cfg: Config, s: Sys, now: int)
    requires s == WithRefresh(cfg, now, Resolving("rrrrr", 0, now))
    ensures Enabled(cfg, s, GRANT)
  {
    assert |"c"| == 1 && |"cc"| == 2 && |"sss"| == 3 && |"aaaa"| == 4 && |"rrrrr"| == 5 && |"tttttt"| == 6;
    assert |"aaaaaaa"| == 7 && |"rrrrrrrr"| == 8;
  }

  lemma GrantNext(cfg: Config, s: Sys, now: int)
    requires RefreshableAtTheWall(cfg) && now == cfg.maxLifetime.value && WellFormed(s)
    requires s == WithRefresh(cfg, now, Resolving("rrrrr", 0, now)) && Enabled(cfg, s, GRANT)
    ensures Next(cfg, s, GRANT) == Renewed(cfg, now)
  {
    SessionRotates(cfg, now);
    assert RotationFor(cfg, LoggedIn(cfg), s.calls[2], GRANT.d, "aaaaaaa", "rrrrrrrr") == Rotation(cfg, now);
    assert s.calls[2 := Refreshed(Ok(0))] == Renewed(cfg, now).calls;
    assert Next(cfg, s, GRANT) == GrantStep(cfg, s, GRANT);
  }

  lemma GrantSteps(cfg: Config, now: int)
    requires RefreshableAtTheWall(cfg) && now == cfg.maxLifetime.value
    ensures Reached(cfg, Renewed(cfg, now))
  {
    var s := WithRefresh(cfg, now, Resolving("rrrrr", 0, now));
    RefreshSteps(cfg, now);
    GrantIsEnabled(cfg, s, now);
    GrantNext(cfg, s, now);
    StepReaches(cfg, s, GRANT, Renewed(cfg, now));
  }

  /** A resolver that answers one refresh with `NaN` lets the session work past the wall. */
  lemma NotANumberPassesTheWall(cfg: Config)
    requires RefreshableAtTheWall(cfg)
    ensures exists s, l, r :: AcceptedPastTheWall(cfg, s, l, r)
  {
    GrantSteps(cfg, cfg.maxLifetime.value);
    assert |"aaaaaaa"| == 7;
    AboveTheWallIsAccepted(cfg, Renewed(cfg, cfg.maxLifetime.value), 0, 3);
  }
}
