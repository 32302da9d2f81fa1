/**
 * For which configurations the sweeps go unnoticed: those in which no session can pass its retention
 * bound while its completion may still be repeated.
 */
module RetryWindow {
  import opened Options
  import Sessions
  import Challenges
  import opened Server
  import opened SequentialServer
  import SessionSweep
  import ChallengeSweep

  // ------------------------------------------------------------------ the configuration

  /** The shortest time to live a resolver can bring about. */
  function ShortestTtl(cfg: Config): int {
    Min(1, cfg.sessionTtl)
  }

  /** How long after its login a session is kept at least; a refresh at once brings in the lifetime ceiling. */
  function ShortestRetention(cfg: Config): int {
    var refresh := RefreshTtl(cfg);
    Max(ShortestTtl(cfg), if cfg.maxLifetime.Some? && cfg.maxLifetime.value >= 1 then Min(refresh, cfg.maxLifetime.value) else refresh)
  }

  /** How long after its login a completion can be repeated at most. */
  function RetryReach(cfg: Config): int {
    Min(cfg.resultCacheTtl, cfg.challengeTtl)
  }

  /** Some `created_at` is accepted. */
  predicate Completable(cfg: Config) {
    cfg.lowerGrace + cfg.challengeTtl + cfg.upperGrace >= 0
  }

  predicate Outlived(cfg: Config) {
    Completable(cfg) ==> RetryReach(cfg) <= ShortestRetention(cfg)
  }

  /** Without a lifetime ceiling the code caps refresh expiries at the largest safe integer. */
  predicate SafelyTimed(cfg: Config, c: SequentialServer.Call) {
    c.op.Serve? && c.op.op.Refresh? && cfg.maxLifetime.None? ==> c.now + RefreshTtl(cfg) <= MAX_SAFE_INTEGER
  }

  predicate AllSafelyTimed(cfg: Config, calls: seq<SequentialServer.Call>) {
    forall c <- calls :: SafelyTimed(cfg, c)
  }

  // ------------------------------------------------------------- what sessions live up to

  /** A session is kept for the shortest retention from its login. */
  predicate Lasts(cfg: Config, x: Sessions.Session, now: int) {
    0 < x.issuedAt <= now && x.issuedAt + ShortestRetention(cfg) <= Sessions.RetainUntil(x)
  }

  lemma ClampLasts(cfg: Config, configured: int, b: Option<Bound>, now: int)
    ensures Min(1, configured) <= ClampTtl(configured, b, now)
  {
  }

  lemma LoginLasts(cfg: Config, x: Challenges.Challenge, p: Proof, now: int, d: Decision, ids: Ids)
    requires d.Allow? && now > 0 && cfg.sessionTtl >= 0
    ensures Lasts(cfg, NewSession(cfg, x, p, now, d, ids), now)
  {
    ClampLasts(cfg, cfg.sessionTtl, d.expiresAt, now);
  }

  lemma RotationLasts(cfg: Config, x: Sessions.Session, sop: SessionSweep.Op, now: int, earlier: int)
    requires sop.Refresh? && Lasts(cfg, x, earlier) && earlier <= now && cfg.sessionTtl >= 0
    requires cfg.maxLifetime.None? ==> now + RefreshTtl(cfg) <= MAX_SAFE_INTEGER
    ensures var e := SessionSweep.RefreshEffect(cfg, sop, now, x); e.Renew? ==> Lasts(cfg, Sessions.Rotated(x, e.p), now)
  {
    if sop.d.Allow? {
      ClampLasts(cfg, cfg.sessionTtl, DecisionBound(cfg, x.issuedAt, sop.d.expiresAt), now);
    }
  }

  // ---------------------------------------------------------------------- the invariant

  /** A record's times are those of its issue, and its cached result those of the login that redeemed it. */
  predicate Dated(cfg: Config, x: Challenges.Challenge, t: Table, now: int) {
    && x.issuedAt <= now && x.expiresAt == x.issuedAt + cfg.challengeTtl
    && (x.redeemedSessionId.Some? && x.redeemedSessionId.value in t ==>
          var y := t[x.redeemedSessionId.value];
          x.issuedAt <= y.issuedAt && x.resultCacheUntil == Some(y.issuedAt + cfg.resultCacheTtl))
  }

  ghost predicate AllLast(cfg: Config, t: Table, now: int) {
    forall k <- t :: Lasts(cfg, t[k], now)
  }

  ghost predicate AllDated(cfg: Config, b: Challenges.Store, t: Table, now: int)
    requires Challenges.Closed(b)
  {
    forall k <- b.records :: Dated(cfg, b.objs[b.records[k]], t, now)
  }

  ghost predicate Timed(cfg: Config, i: Ideal, now: int) {
    Challenges.Closed(i.challenges) && AllLast(cfg, i.table, now) && AllDated(cfg, i.challenges, i.table, now)
  }

  lemma TimedLater(cfg: Config, i: Ideal, now: int, later: int)
    requires Timed(cfg, i, now) && now <= later
    ensures Timed(cfg, i, later)
  {
    forall k <- i.table ensures Lasts(cfg, i.table[k], later) {
      assert Lasts(cfg, i.table[k], now);
    }
    forall k <- i.challenges.records ensures Dated(cfg, i.challenges.objs[i.challenges.records[k]], i.table, later) {
      assert Dated(cfg, i.challenges.objs[i.challenges.records[k]], i.table, now);
    }
  }

  // ------------------------------------------------------------- requests and refreshes

  /** The same sessions, made at the same time, and all still kept long enough. */
  ghost predicate KeepsTimes(cfg: Config, t: Table, t': Table, now: int) {
    && t'.Keys == t.Keys && AllLast(cfg, t', now)
    && (forall k <- t :: t'[k].issuedAt == t[k].issuedAt)
  }

  lemma RevocationKeepsTimes(cfg: Config, t: Table, e: SessionSweep.Effect, now: int)
    requires AllLast(cfg, t, now) && !e.Renew?
    ensures KeepsTimes(cfg, t, SessionSweep.TableApply(t, e, now), now)
  {
    forall k <- t ensures Lasts(cfg, SessionSweep.TableApply(t, e, now)[k], now) {
      assert Lasts(cfg, t[k], now);
    }
  }

  lemma RefreshKeepsTimes(cfg: Config, t: Table, sop: SessionSweep.Op, now: int, k: string)
    requires AllLast(cfg, t, now) && sop.Refresh? && k in t && t[k].sessionId == k && cfg.sessionTtl >= 0
    requires cfg.maxLifetime.None? ==> now + RefreshTtl(cfg) <= MAX_SAFE_INTEGER
    ensures KeepsTimes(cfg, t, SessionSweep.TableApply(t, SessionSweep.RefreshEffect(cfg, sop, now, t[k]), now), now)
  {
    var e := SessionSweep.RefreshEffect(cfg, sop, now, t[k]);
    if e.Renew? {
      RotationLasts(cfg, t[k], sop, now, now);
      SequentialServer.RenewalIsNotInThePast(cfg, sop, now, t[k]);
      var t' := SessionSweep.TableApply(t, e, now);
      forall j <- t' ensures Lasts(cfg, t'[j], now) {
        assert Lasts(cfg, t[j], now);
      }
    } else {
      RevocationKeepsTimes(cfg, t, e, now);
    }
  }

  lemma ServeKeepsTimes(cfg: Config, t: Table, used: set<string>, sop: SessionSweep.Op, now: int)
    requires AllLast(cfg, t, now) && SessionSweep.TableInv(t, used) && !sop.Login? && cfg.sessionTtl >= 0
    requires sop.Refresh? && cfg.maxLifetime.None? ==> now + RefreshTtl(cfg) <= MAX_SAFE_INTEGER
    ensures KeepsTimes(cfg, t, SessionSweep.TableStep(cfg, t, sop, now).0, now)
  {
    match sop
    case Refresh(token, _, _, _) =>
      forall k | SessionSweep.HoldsToken(t, k, token)
        ensures KeepsTimes(cfg, t, SessionSweep.TableApply(t, SessionSweep.RefreshEffect(cfg, sop, now, t[k]), now), now)
      {
        RefreshKeepsTimes(cfg, t, sop, now, k);
      }
    case LogOut(id) => RevocationKeepsTimes(cfg, t, SessionSweep.RevokeOne(id), now);
    case RevokeAll(pubkey) => RevocationKeepsTimes(cfg, t, SessionSweep.RevokeMany(pubkey), now);
    case Load(_) =>
  }

  lemma DatedWithSameTimes(cfg: Config, b: Challenges.Store, t: Table, t': Table, now: int)
    requires Challenges.Closed(b) && AllDated(cfg, b, t, now) && KeepsTimes(cfg, t, t', now)
    ensures AllDated(cfg, b, t', now)
  {
    forall k <- b.records ensures Dated(cfg, b.objs[b.records[k]], t', now) {
      assert Dated(cfg, b.objs[b.records[k]], t, now);
    }
  }

  // ------------------------------------------------------------------------ completions

  /** A record's new state keeps its times. */
  lemma UpdateStaysDated(cfg: Config, b: Challenges.Store, t: Table, k: string, y: Challenges.Challenge, now: int)
    requires ChallengeSweep.Keyed(b) && AllDated(cfg, b, t, now) && k in b.records && Dated(cfg, y, t, now)
    ensures Challenges.Closed(Challenges.Update(b, k, y)) && AllDated(cfg, Challenges.Update(b, k, y), t, now)
  {
    OthersStay(b, k, y);
    var b' := Challenges.Update(b, k, y);
    forall j <- b'.records ensures Dated(cfg, b'.objs[b'.records[j]], t, now) {
      if j != k {
        assert Dated(cfg, b.objs[b.records[j]], t, now);
      }
    }
  }

  lemma MoreSessionsStayDated(cfg: Config, b: Challenges.Store, t: Table, record: Sessions.Session, now: int)
    requires Challenges.Closed(b) && AllDated(cfg, b, t, now) && Linked(b, t) && record.sessionId !in t
    ensures AllDated(cfg, b, t[record.sessionId := record], now)
  {
    forall k <- b.records ensures Dated(cfg, b.objs[b.records[k]], t[record.sessionId := record], now) {
      var x := b.objs[b.records[k]];
      assert Dated(cfg, x, t, now);
      if x.redeemedSessionId.Some? {
        assert Redeems(t, x.redeemedSessionId.value, k);
      }
    }
  }

  lemma FirstEntryIsTimed(cfg: Config, i: Ideal, op: SequentialServer.Op, k: string, used: set<string>, now: int)
    requires ChallengeSweep.Keyed(i.challenges) && Linked(i.challenges, i.table) && SessionSweep.TableInv(i.table, used)
    requires Timed(cfg, i, now) && op.Complete? && k in i.challenges.records && op.ids.sessionId !in used
    requires Enters(cfg, i.challenges.objs[i.challenges.records[k]], op, now) && !SessionSweep.Knows(i.table, k)
    requires now > 0 && cfg.sessionTtl >= 0
    ensures var (i', answer) := IdealEntry(cfg, i, op, k, now);
            Timed(cfg, i', now) && !TooLate(Entered(answer), now)
  {
    var Entry(x, record) := EntryOf(cfg, i.challenges, op, k, now);
    assert x.challengeId == k && Dated(cfg, x, i.table, now);
    TableIdsAreUsed(i.table, used);
    LoginLasts(cfg, x, op.p, now, op.d, op.ids);
    LinkedKnows(i.challenges, i.table, k);
    IdealEntryIs(cfg, i, op, k, now, record);
    EnteringStatus(cfg, x, op, record.sessionId, now);
    var y, t' := Challenges.RedeemRecord(x, RedemptionFor(cfg, op, record.sessionId, now)), i.table[record.sessionId := record];
    MoreSessionsStayDated(cfg, i.challenges, i.table, record, now);
    UpdateStaysDated(cfg, i.challenges, t', k, y, now);
  }

  /** A session a retry is answered with is past its retention bound only where retries outlive sessions. */
  lemma RetryIsTimed(cfg: Config, i: Ideal, op: SequentialServer.Op, k: string, now: int)
    requires ChallengeSweep.Keyed(i.challenges) && Timed(cfg, i, now) && op.Complete? && k in i.challenges.records
    requires Enters(cfg, i.challenges.objs[i.challenges.records[k]], op, now) && SessionSweep.Knows(i.table, k)
    requires i.challenges.objs[i.challenges.records[k]].redeemedSessionId.Some? && cfg.resultCacheTtl >= 0
    ensures var (i', answer) := IdealEntry(cfg, i, op, k, now);
            i' == i && (TooLate(Entered(answer), now) ==> !Outlived(cfg))
  {
    var x := i.challenges.objs[i.challenges.records[k]];
    assert Dated(cfg, x, i.table, now);
    IdealRetry(cfg, i, op, k, now);
    if x.redeemedSessionId.value in i.table {
      assert Lasts(cfg, i.table[x.redeemedSessionId.value], now);
    }
  }

  lemma TurnedAwayIsTimed(cfg: Config, i: Ideal, op: SequentialServer.Op, now: int)
    requires ChallengeSweep.Keyed(i.challenges) && Timed(cfg, i, now) && op.Complete?
    requires var k := op.p.challengeId;
             k in i.challenges.records ==> !Enters(cfg, i.challenges.objs[i.challenges.records[k]], op, now)
    ensures var (i', answer) := IdealComplete(cfg, i, op, now);
            Timed(cfg, i', now) && answer.None?
  {
    var k := op.p.challengeId;
    if k in i.challenges.records {
      var x := i.challenges.objs[i.challenges.records[k]];
      assert Dated(cfg, x, i.table, now) && x.challengeId == k;
      ChallengeSweep.SameUpdates(cfg, i.challenges, k, RedemptionFor(cfg, op, "", now));
      UpdateStaysDated(cfg, i.challenges, i.table, k, ChallengeSweep.Failed(cfg, x), now);
    }
  }

  lemma CompleteIsTimed(cfg: Config, i: Ideal, op: SequentialServer.Op, used: set<string>, now: int)
    requires ChallengeSweep.Keyed(i.challenges) && Linked(i.challenges, i.table) && SessionSweep.TableInv(i.table, used)
    requires Timed(cfg, i, now) && op.Complete? && op.ids.sessionId !in used
    requires now > 0 && cfg.sessionTtl >= 0 && cfg.resultCacheTtl >= 0
    ensures var (i', answer) := IdealComplete(cfg, i, op, now);
            Timed(cfg, i', now) && (TooLate(Entered(answer), now) ==> !Outlived(cfg))
  {
    var k := op.p.challengeId;
    if k !in i.challenges.records || !Enters(cfg, i.challenges.objs[i.challenges.records[k]], op, now) {
      TurnedAwayIsTimed(cfg, i, op, now);
    } else if SessionSweep.Knows(i.table, k) {
      LinkedKnows(i.challenges, i.table, k);
      RetryIsTimed(cfg, i, op, k, now);
    } else {
      FirstEntryIsTimed(cfg, i, op, k, used, now);
    }
  }

  // ------------------------------------------------------------------------- every call

  lemma InitIsTimed(cfg: Config, i: Ideal, op: SequentialServer.Op, now: int)
    requires Timed(cfg, i, now) && op.Init? && op.challengeId !in i.challenges.records
    ensures Timed(cfg, IdealInit(cfg, i, op, now).0, now)
  {
    var b' := ChallengeSweep.Insert(i.challenges, Requested(cfg, op, now));
    forall k <- b'.records ensures Dated(cfg, b'.objs[b'.records[k]], i.table, now) {
      if k != op.challengeId {
        assert Dated(cfg, i.challenges.objs[i.challenges.records[k]], i.table, now);
      }
    }
  }

  lemma ExpireIsTimed(cfg: Config, i: Ideal, now: int)
    requires ChallengeSweep.Keyed(i.challenges) && Timed(cfg, i, now)
    ensures Timed(cfg, i.(challenges := Challenges.MarkExpired(i.challenges, now)), now)
  {
    var b' := Challenges.MarkExpired(i.challenges, now);
    forall k <- b'.records ensures Dated(cfg, b'.objs[b'.records[k]], i.table, now) {
      ChallengeSweep.ExpireEntries(i.challenges, now, k);
      assert Dated(cfg, i.challenges.objs[i.challenges.records[k]], i.table, now);
    }
  }

  lemma ServeIsTimed(cfg: Config, i: Ideal, op: SequentialServer.Op, used: set<string>, now: int)
    requires Timed(cfg, i, now) && SessionSweep.TableInv(i.table, used) && op.Serve? && !op.op.Login? && cfg.sessionTtl >= 0
    requires op.op.Refresh? && cfg.maxLifetime.None? ==> now + RefreshTtl(cfg) <= MAX_SAFE_INTEGER
    ensures Timed(cfg, i.(table := SessionSweep.TableStep(cfg, i.table, op.op, now).0), now)
  {
    ServeKeepsTimes(cfg, i.table, used, op.op, now);
    DatedWithSameTimes(cfg, i.challenges, i.table, SessionSweep.TableStep(cfg, i.table, op.op, now).0, now);
  }

  lemma StepIsTimed(cfg: Config, i: Ideal, c: SequentialServer.Call, used: set<string>, given: set<string>)
    requires ChallengeSweep.Keyed(i.challenges) && Linked(i.challenges, i.table) && SessionSweep.TableInv(i.table, used)
    requires Timed(cfg, i, c.now) && Sensible(i, c.op, used, c.used, given) && SafelyTimed(cfg, c)
    requires c.now > 0 && cfg.sessionTtl >= 0 && cfg.resultCacheTtl >= 0
    ensures var (i', answer) := IdealStep(cfg, i, c.op, c.now);
            Timed(cfg, i', c.now) && (TooLate(answer, c.now) ==> !Outlived(cfg))
  {
    match c.op
    case Init(_, _, _, _, _, _) => InitIsTimed(cfg, i, c.op, c.now);
    case Complete(_, _, _) => CompleteIsTimed(cfg, i, c.op, used, c.now);
    case Count(_, _) =>
    case Expire => ExpireIsTimed(cfg, i, c.now);
    case Serve(_) => ServeIsTimed(cfg, i, c.op, used, c.now);
  }

  lemma {:induction false} NoneIsTooLate(cfg: Config, r: Real, i: Ideal, used: set<string>, given: set<string>, now: int,
                                         calls: seq<SequentialServer.Call>)
    requires Agree(r, i, used, given, now) && Workload(cfg, i, used, given, now, calls) && AllSafelyTimed(cfg, calls)
    requires Timed(cfg, i, now) && Outlived(cfg) && now > 0 && cfg.sessionTtl >= 0 && cfg.resultCacheTtl >= 0
    ensures |IdealAnswers(cfg, i, calls)| == |calls|
    ensures forall j | 0 <= j < |calls| :: !TooLate(IdealAnswers(cfg, i, calls)[j], calls[j].now)
    decreases |calls|
  {
    if calls != [] {
      var c := calls[0];
      AgreeLater(r, i, used, used, given, now, c.now);
      TimedLater(cfg, i, now, c.now);
      StepAgrees(cfg, true, r, i, c.op, used, c.used, given, c.now);
      StepIsTimed(cfg, i, c, used, given);
      var i', b := IdealStep(cfg, i, c.op, c.now).0, IdealStep(cfg, i, c.op, c.now).1;
      NoneIsTooLate(cfg, RealStep(cfg, true, r, c.op, c.now).0, i', c.used, given + HandedBy(c.op, b), c.now, calls[1..]);
      AllOfThem(IdealAnswers(cfg, i', calls[1..]), b, calls);
    }
  }

  lemma AllOfThem(rest: seq<Answer>, first: Answer, calls: seq<SequentialServer.Call>)
    requires calls != [] && |rest| == |calls[1..]| && !TooLate(first, calls[0].now)
    requires forall j | 0 <= j < |rest| :: !TooLate(rest[j], calls[1..][j].now)
    ensures forall j | 0 <= j < |calls| :: !TooLate(([first] + rest)[j], calls[j].now)
  {
    forall j | 0 < j < |calls| ensures !TooLate(([first] + rest)[j], calls[j].now) {
      assert ([first] + rest)[j] == rest[j - 1] && calls[j] == calls[1..][j - 1];
    }
  }

  // --------------------------------------------------------------- a retry that comes too late

  /** A completion signed as early as the grace allows. */
  function ProofOf(cfg: Config): Proof {
    Proof("event", "k", "cc", "c", 1 - cfg.lowerGrace, false)
  }

  const ASK := Init("n", "k", "u", None, "c", "cc")

  function Login(cfg: Config): SequentialServer.Op {
    Complete(ProofOf(cfg), Allow([], [], Some(Finite(1.0))), Ids("s", "a", "r", "t"))
  }

  const RENEW := Serve(SessionSweep.Refresh("r", Allow([], [], Some(Finite(1.0))), "a2", "r2"))

  function Retry(cfg: Config): SequentialServer.Op {
    Complete(ProofOf(cfg), Allow([], [], None), Ids("s3", "a3", "r3", "t3"))
  }

  /** A refresh at once pays only when the lifetime ceiling lies below the refresh time to live. */
  predicate RefreshShortens(cfg: Config) {
    cfg.maxLifetime.Some? && 1 <= cfg.maxLifetime.value < RefreshTtl(cfg)
  }

  const USED: set<string> := {"s", "a", "r"}
  const USED_AFTER: set<string> := {"s", "a", "r", "a2", "r2"}
  const USED_LAST: set<string> := {"s", "a", "r", "a2", "r2", "s3", "a3", "r3"}

  const RENEW_CALL := SequentialServer.Call(RENEW, 1, USED_AFTER)

  function RetryCall(cfg: Config): SequentialServer.Call {
    SequentialServer.Call(Retry(cfg), 1 + RetryReach(cfg), USED_LAST)
  }

  /** What follows the login: a refresh where that shortens the session's retention, and, as late as a
      retry is answered at all, the completion again. */
  function Aftermath(cfg: Config): seq<SequentialServer.Call> {
    if RefreshShortens(cfg) then [RENEW_CALL] + [RetryCall(cfg)] else [RetryCall(cfg)]
  }

  /** A challenge and its completion at instant 1, and then that. */
  function LateRetry(cfg: Config): seq<SequentialServer.Call> {
    [SequentialServer.Call(ASK, 1, {})] + ([SequentialServer.Call(Login(cfg), 1, USED)] + Aftermath(cfg))
  }

  predicate CanBeLate(cfg: Config) {
    cfg.sessionTtl >= 0 && cfg.resultCacheTtl >= 0 && !Outlived(cfg)
  }

  function AskedRecord(cfg: Config): Challenges.Challenge {
    Challenges.Challenge("c", "cc", "n", "k", "u", 1, 1 + cfg.challengeTtl, Challenges.Issued, None, None, None, None, 0)
  }

  function RedeemedRecord(cfg: Config): Challenges.Challenge {
    AskedRecord(cfg).(state := Challenges.Redeemed, redeemedEventId := Some("event"), redeemedSessionId := Some("s"),
                      resultCacheUntil := Some(1 + cfg.resultCacheTtl))
  }

  function OneRecord(x: Challenges.Challenge): Challenges.Store {
    Challenges.Store([x], map["c" := 0], None)
  }

  function Made(cfg: Config): Sessions.Session {
    Sessions.Session("s", "c", "a", "n", "k", [], [], 1, 1 + ShortestTtl(cfg), None, None,
                     if RefreshEnabled(cfg) then Some("r") else None,
                     if RefreshEnabled(cfg) then Some(1 + RefreshTtl(cfg)) else None, None, None)
  }

  function Renewed(cfg: Config): Sessions.Session
    requires RefreshShortens(cfg)
  {
    Made(cfg).(previousRefreshToken := Some("r"), refreshToken := Some("r2"), accessToken := "a2",
               refreshExpiresAt := Some(1 + cfg.maxLifetime.value))
  }

  /** The session as it is when the retry comes. */
  function Last(cfg: Config): Sessions.Session {
    if RefreshShortens(cfg) then Renewed(cfg) else Made(cfg)
  }

  function After(cfg: Config, x: Sessions.Session): Ideal {
    Ideal(OneRecord(RedeemedRecord(cfg)), map["s" := x])
  }

  lemma AskStep(cfg: Config)
    ensures IdealStep(cfg, BLANK, ASK, 1) == (Ideal(OneRecord(AskedRecord(cfg)), map[]), Begun(true))
  {
    assert Challenges.Outstanding(Challenges.EMPTY, NpubFilter("n", None, 1)) == {};
    assert !CapExceeded(cfg, Challenges.EMPTY, "n", None, 1);
    assert ChallengeSweep.Insert(Challenges.EMPTY, AskedRecord(cfg)) == OneRecord(AskedRecord(cfg));
  }

  lemma LoginStep(cfg: Config)
    requires CanBeLate(cfg)
    ensures IdealStep(cfg, Ideal(OneRecord(AskedRecord(cfg)), map[]), Login(cfg), 1) == (After(cfg, Made(cfg)), Entered(Some(Made(cfg))))
  {
    var i := Ideal(OneRecord(AskedRecord(cfg)), map[]);
    var p := RedemptionFor(cfg, Login(cfg), "s", 1);
    assert ClampTtl(cfg.sessionTtl, Some(Finite(1.0)), 1) == ShortestTtl(cfg);
    assert NewSession(cfg, AskedRecord(cfg), ProofOf(cfg), 1, Login(cfg).d, Login(cfg).ids) == Made(cfg);
    assert !SessionSweep.Knows(i.table, "c");
    IdealEntryIs(cfg, i, Login(cfg), "c", 1, Made(cfg));
    assert Challenges.RedeemRecord(AskedRecord(cfg), p) == RedeemedRecord(cfg);
    assert Challenges.Update(i.challenges, "c", RedeemedRecord(cfg)) == OneRecord(RedeemedRecord(cfg));
    assert SessionSweep.Noted(i.table, Made(cfg)) == map["s" := Made(cfg)];
  }

  lemma RenewalOf(cfg: Config)
    requires CanBeLate(cfg) && RefreshShortens(cfg)
    ensures var e := SessionSweep.RefreshEffect(cfg, RENEW.op, 1, Made(cfg));
            e.Renew? && e.id == "s" && Sessions.Rotated(Made(cfg), e.p) == Renewed(cfg)
  {
    assert |"r"| == 1;
    assert JudgeRefresh(cfg, "r", 1, Made(cfg)).MayResolve?;
    assert DecisionBound(cfg, 1, Some(Finite(1.0))) == Some(Finite(1.0));
    assert RenewedExpiry(cfg, 1, Some(Finite(1.0)), 1) == 1 + ShortestTtl(cfg);
    assert RenewedRefreshExpiry(cfg, 1, 1) == 1 + cfg.maxLifetime.value;
  }

  lemma RenewStep(cfg: Config)
    requires CanBeLate(cfg) && RefreshShortens(cfg)
    ensures IdealStep(cfg, After(cfg, Made(cfg)), RENEW, 1) == (After(cfg, Renewed(cfg)), Served(true))
  {
    var t := map["s" := Made(cfg)];
    assert |"r"| == 1;
    assert SessionSweep.HoldsToken(t, "s", "r");
    RenewalOf(cfg);
    assert forall k | SessionSweep.HoldsToken(t, k, "r") :: k == "s";
    assert t["s" := Renewed(cfg)] == map["s" := Renewed(cfg)];
  }

  lemma RetryStep(cfg: Config)
    requires CanBeLate(cfg)
    ensures IdealStep(cfg, After(cfg, Last(cfg)), Retry(cfg), 1 + RetryReach(cfg)) == (After(cfg, Last(cfg)), Entered(Some(Last(cfg))))
    ensures TooLate(Entered(Some(Last(cfg))), 1 + RetryReach(cfg))
  {
    var i := After(cfg, Last(cfg));
    assert i.table["s"].challengeId == "c";
    assert |"s"| == 1;
    IdealRetry(cfg, i, Retry(cfg), "c", 1 + RetryReach(cfg));
  }

  lemma Names()
    ensures {"a2", "r2"} !! USED && {"s3", "a3", "r3"} !! USED_AFTER
  {
    assert |"s"| == |"a"| == |"r"| == 1 && |"a2"| == |"r2"| == |"s3"| == |"a3"| == |"r3"| == 2;
    assert "a2"[1] == "r2"[1] == '2' && "s3"[1] == "a3"[1] == "r3"[1] == '3';
  }

  lemma RetryRun(cfg: Config, used: set<string>, given: set<string>)
    requires CanBeLate(cfg) && used <= USED_AFTER
    ensures Workload(cfg, After(cfg, Last(cfg)), used, given, 1, [RetryCall(cfg)])
    ensures IdealAnswers(cfg, After(cfg, Last(cfg)), [RetryCall(cfg)]) == [Entered(Some(Last(cfg)))]
  {
    var c, i := RetryCall(cfg), After(cfg, Last(cfg));
    Names();
    assert |"r3"| == 2;
    RetryStep(cfg);
    CallThenRun(cfg, i, used, given, 1, c, [], i, Entered(Some(Last(cfg))));
    assert [c] + [] == [c];
  }

  lemma RenewIsSensible(i: Ideal, given: set<string>)
    requires "r" in given
    ensures Sensible(i, RENEW, USED, USED_AFTER, given)
  {
    Names();
    assert |"r"| == 1 && |"r2"| == 2;
  }

  lemma RenewRun(cfg: Config, given: set<string>)
    requires CanBeLate(cfg) && RefreshShortens(cfg) && "r" in given
    ensures Workload(cfg, After(cfg, Made(cfg)), USED, given, 1, [RENEW_CALL] + [RetryCall(cfg)])
    ensures IdealAnswers(cfg, After(cfg, Made(cfg)), [RENEW_CALL] + [RetryCall(cfg)]) == [Served(true)] + [Entered(Some(Last(cfg)))]
  {
    RenewIsSensible(After(cfg, Made(cfg)), given);
    RenewStep(cfg);
    RetryRun(cfg, USED_AFTER, given + HandedBy(RENEW, Served(true)));
    CallThenRun(cfg, After(cfg, Made(cfg)), USED, given, 1, RENEW_CALL, [RetryCall(cfg)], After(cfg, Last(cfg)), Served(true));
  }

  /** The last of the answers is the session as it is when the retry comes. */
  predicate EndsLate(cfg: Config, answers: seq<Answer>, calls: seq<SequentialServer.Call>) {
    |answers| == |calls| > 0 && answers[|answers| - 1] == Entered(Some(Last(cfg)))
  }

  lemma AfterLoginRun(cfg: Config)
    requires CanBeLate(cfg)
    ensures Workload(cfg, After(cfg, Made(cfg)), USED, {} + {} + Tokens(Made(cfg)), 1, Aftermath(cfg))
    ensures EndsLate(cfg, IdealAnswers(cfg, After(cfg, Made(cfg)), Aftermath(cfg)), Aftermath(cfg))
  {
    if RefreshShortens(cfg) {
      RenewRun(cfg, {} + {} + Tokens(Made(cfg)));
    } else {
      RetryRun(cfg, USED, {} + {} + Tokens(Made(cfg)));
    }
  }

  lemma LoginRun(cfg: Config)
    requires CanBeLate(cfg)
    ensures var asked, cs := Ideal(OneRecord(AskedRecord(cfg)), map[]), [SequentialServer.Call(Login(cfg), 1, USED)] + Aftermath(cfg);
            Workload(cfg, asked, {}, {} + {}, 1, cs) && EndsLate(cfg, IdealAnswers(cfg, asked, cs), cs)
  {
    var asked, c := Ideal(OneRecord(AskedRecord(cfg)), map[]), SequentialServer.Call(Login(cfg), 1, USED);
    LoginStep(cfg);
    AfterLoginRun(cfg);
    assert |"r"| == 1;
    CallThenRun(cfg, asked, {}, {} + {}, 1, c, Aftermath(cfg), After(cfg, Made(cfg)), Entered(Some(Made(cfg))));
  }

  lemma LateRetryIsSafelyTimed(cfg: Config)
    ensures AllSafelyTimed(cfg, LateRetry(cfg))
  {
  }

  /** The workload is a proper one, and its last answer would be a session past its retention bound. */
  lemma LateRetryRuns(cfg: Config)
    requires CanBeLate(cfg)
    ensures Workload(cfg, BLANK, {}, {}, 1, LateRetry(cfg))
    ensures EndsLate(cfg, IdealAnswers(cfg, BLANK, LateRetry(cfg)), LateRetry(cfg))
  {
    var c, rest := SequentialServer.Call(ASK, 1, {}), [SequentialServer.Call(Login(cfg), 1, USED)] + Aftermath(cfg);
    AskStep(cfg);
    LoginRun(cfg);
    CallThenRun(cfg, BLANK, {}, {}, 1, c, rest, Ideal(OneRecord(AskedRecord(cfg)), map[]), Begun(true));
  }

  /** Then the client that repeats its completion inside the result-cache window is answered with no session. */
  lemma LateRetryIsRefused(cfg: Config, sweeps: bool)
    requires CanBeLate(cfg)
    ensures Workload(cfg, BLANK, {}, {}, 1, LateRetry(cfg)) && AllSafelyTimed(cfg, LateRetry(cfg))
    ensures var got, ideal, n := RealAnswers(cfg, sweeps, START, LateRetry(cfg)), IdealAnswers(cfg, BLANK, LateRetry(cfg)), |LateRetry(cfg)|;
            && |got| == |ideal| == n
            && ideal[n - 1] == Entered(Some(Last(cfg))) && got[n - 1] == Entered(None)
  {
    LateRetryIsSafelyTimed(cfg);
    LateRetryRuns(cfg);
    RetryStep(cfg);
    SweepingIsInvisible(cfg, sweeps, 1, LateRetry(cfg));
    assert LateRetry(cfg)[|LateRetry(cfg)| - 1].now == 1 + RetryReach(cfg);
  }

  // -------------------------------------------------------------------------- exactly when

  /** Whatever clients do, no answer tells the server from one that never forgets. */
  ghost predicate SweepsGoUnnoticed(cfg: Config, sweeps: bool) {
    forall now, calls | now > 0 && Workload(cfg, BLANK, {}, {}, now, calls) && AllSafelyTimed(cfg, calls) ::
      RealAnswers(cfg, sweeps, START, calls) == IdealAnswers(cfg, BLANK, calls)
  }

  lemma OutlivedGoesUnnoticed(cfg: Config, sweeps: bool, now: int, calls: seq<SequentialServer.Call>)
    requires Outlived(cfg) && cfg.sessionTtl >= 0 && cfg.resultCacheTtl >= 0
    requires now > 0 && Workload(cfg, BLANK, {}, {}, now, calls) && AllSafelyTimed(cfg, calls)
    ensures RealAnswers(cfg, sweeps, START, calls) == IdealAnswers(cfg, BLANK, calls)
  {
    BlankAgrees(now);
    NoneIsTooLate(cfg, START, BLANK, {}, {}, now, calls);
    SweepingIsInvisible(cfg, sweeps, now, calls);
  }

  /**
   * The sweeps go unnoticed exactly when the configuration keeps every session as long as its completion
   * can be repeated: the shorter of challenge and result-cache time against the longer of one second and
   * the refresh time to live, the latter cut to the lifetime ceiling.
   */
  lemma SweepsGoUnnoticedExactly(cfg: Config, sweeps: bool)
    requires cfg.sessionTtl >= 0 && cfg.resultCacheTtl >= 0
    ensures SweepsGoUnnoticed(cfg, sweeps) <==> Outlived(cfg)
  {
    if Outlived(cfg) {
      forall now, calls | now > 0 && Workload(cfg, BLANK, {}, {}, now, calls) && AllSafelyTimed(cfg, calls)
        ensures RealAnswers(cfg, sweeps, START, calls) == IdealAnswers(cfg, BLANK, calls)
      {
        OutlivedGoesUnnoticed(cfg, sweeps, now, calls);
      }
    } else {
      LateRetryIsRefused(cfg, sweeps);
    }
  }
}
