/**
 * What the server is for: whatever happened before, an honest login that the caps let begin ends in a
 * session whose access token is let in, and a live session's refresh token renews it.
 */
module Progress {
  import opened Options
  import Sessions
  import Challenges
  import opened Server
  import opened ServerInvariants
  import opened ServerRuns
  import opened Completions
  import opened Refreshes
  import opened Inits
  import opened ServerDecisions
  import PastTheWall

  // ------------------------------------------------------------------- runs, step by step

  /** These steps lead from `s` to `u`. */
  ghost predicate Path(cfg: Config, s: Sys, ls: seq<Label>, u: Sys) {
    Runs(cfg, s, ls) && After(cfg, s, ls) == u && PastTheWall.Reached(cfg, u)
  }

  lemma NoStep(cfg: Config, s: Sys)
    requires Reachable(cfg, s)
    ensures PastTheWall.Reached(cfg, s) && Path(cfg, s, [], s)
  {
    ReachableInv(cfg, s);
  }

  lemma StepAppended(cfg: Config, s: Sys, ls: seq<Label>, u: Sys, l: Label)
    requires Path(cfg, s, ls, u) && Enabled(cfg, u, l)
    ensures Path(cfg, s, ls + [l], Next(cfg, u, l))
  {
    var w := Next(cfg, u, l);
    PastTheWall.StepReaches(cfg, u, l, w);
    PastTheWall.RunThenStep(cfg, s, ls, l);
  }

  lemma OneMoreStep(cfg: Config, s: Sys, ls: seq<Label>, k: nat, u: Sys, l: Label)
    requires k < |ls| && l == ls[k] && Path(cfg, s, ls[..k], u) && Enabled(cfg, u, l)
    ensures Path(cfg, s, ls[..k + 1], Next(cfg, u, l))
  {
    assert ls[..k] + [l] == ls[..k + 1];
    StepAppended(cfg, s, ls[..k], u, l);
  }

  lemma FollowedBy(cfg: Config, s: Sys, ls: seq<Label>, k: nat, u: Sys) returns (w: Sys)
    requires k < |ls| && Path(cfg, s, ls[..k], u) && Enabled(cfg, u, ls[k])
    ensures Path(cfg, s, ls[..k + 1], w) && WellFormed(u) && w == Next(cfg, u, ls[k])
  {
    OneMoreStep(cfg, s, ls, k, u, ls[k]);
    w := Next(cfg, u, ls[k]);
  }

  // ------------------------------------------------------- sessions belong to challenges

  /** Every session was made for a challenge that was issued before. */
  ghost predicate MadeForKnown(s: Sys) {
    forall i | 0 <= i < |s.sessions.objs| :: s.sessions.objs[i].challengeId in s.used
  }

  lemma NewRecordIsForKnown(cfg: Config, s: Sys, l: Label)
    requires Inv(cfg, s) && Enabled(cfg, s, l)
    ensures var op := SessionOpOf(cfg, s, l); op.DoCreate? ==> op.record.challengeId in s.used
  {
    if l.Decide? && l.d.Allow? {
      assert Grounded(s, s.calls[l.c]);
    }
  }

  lemma NextMakesForKnown(cfg: Config, s: Sys, l: Label)
    requires Inv(cfg, s) && Enabled(cfg, s, l) && MadeForKnown(s)
    ensures MadeForKnown(Next(cfg, s, l))
  {
    var t := Next(cfg, s, l);
    OpsAreFresh(cfg, s, l);
    SessionEffect(cfg, s, l);
    ApplyAges(s.sessions, SessionOpOf(cfg, s, l), s.used, t.used);
    NewRecordIsForKnown(cfg, s, l);
    ClockAndIdsGrow(cfg, s, l);
    forall i | 0 <= i < |t.sessions.objs| ensures t.sessions.objs[i].challengeId in t.used {
      if i < |s.sessions.objs| {
        assert Ages(s.sessions.objs[i], t.sessions.objs[i]);
      }
    }
  }

  lemma {:induction false} RunMakesForKnown(cfg: Config, s: Sys, ls: seq<Label>)
    requires Inv(cfg, s) && Runs(cfg, s, ls) && MadeForKnown(s)
    ensures MadeForKnown(After(cfg, s, ls))
    decreases |ls|
  {
    if ls != [] {
      NextKeepsInv(cfg, s, ls[0]);
      NextMakesForKnown(cfg, s, ls[0]);
      RunMakesForKnown(cfg, Next(cfg, s, ls[0]), ls[1..]);
    }
  }

  lemma SessionsAreForKnown(cfg: Config, s: Sys)
    requires Reachable(cfg, s)
    ensures MadeForKnown(s)
  {
    var s0, ls :| Reaches(cfg, s0, ls, s);
    assert Reaches(cfg, s0, [], s0);
    ReachableInv(cfg, s0);
    RunMakesForKnown(cfg, s0, ls);
  }

  // ------------------------------------------------------------------------- a login

  /** A visitor's calls, what the login begins with, the proof made for it, the resolver's decision, and the values drawn. */
  datatype Visit = Visit(
    init: nat, complete: nat, load: nat, npub: string, authUrl: string, ip: Option<string>,
    p: Proof, d: Decision, ids: Ids)

  function Steps(v: Visit): (ls: seq<Label>)
    ensures |ls| == 10
  {
    [BeginInit(v.init, v.npub, v.p.pubkey, v.authUrl, v.ip), CreateChallenge(v.init, v.p.challengeId, v.p.challenge),
     BeginComplete(v.complete, v.p), Fetch(v.complete), Inspect(v.complete), Decide(v.complete, v.d, v.ids),
     Redeem(v.complete), Conclude(v.complete), BeginLoad(v.load, v.ids.accessToken), Accept(v.load)]
  }

  predicate NewCalls(s: Sys, v: Visit) {
    && v.init !in s.calls && v.complete !in s.calls && v.load !in s.calls
    && v.init != v.complete && v.init != v.load && v.complete != v.load
  }

  /** The ids drawn are new, and no two of them alike. */
  predicate NewIds(s: Sys, v: Visit) {
    && FreshPair(s, v.p.challengeId, v.p.challenge) && FreshIds(s, v.ids)
    && {v.p.challengeId, v.p.challenge} !! {v.ids.sessionId, v.ids.accessToken, v.ids.refreshToken, v.ids.stepUpToken}
  }

  /** The proof is made while the challenge is open, give or take the graces. */
  predicate InWindow(cfg: Config, p: Proof, now: int) {
    now - cfg.lowerGrace <= p.createdAt <= now + cfg.challengeTtl + cfg.upperGrace
  }

  /** A visitor who signs what the server sends, lets in by the resolver, while the caps let the login begin. */
  ghost predicate Honest(cfg: Config, s: Sys, v: Visit)
    requires Challenges.Closed(s.challenges)
  {
    && NewCalls(s, v) && NewIds(s, v) && v.d.Allow? && InWindow(cfg, v.p, s.clock)
    && LetThrough(cfg, s.challenges, v.npub, v.ip, s.clock)
  }

  /** The challenge as it was issued to the visitor. */
  predicate IssuedTo(cfg: Config, x: Challenges.Challenge, v: Visit, now: int) {
    && x.challengeId == v.p.challengeId && x.challenge == v.p.challenge && x.pubkey == v.p.pubkey && x.npub == v.npub
    && x.issuedAt == now && x.expiresAt == now + cfg.challengeTtl && x.state == Challenges.Issued
  }

  /** The visitor has the challenge `r`, and nothing else has happened since `s`. */
  ghost predicate HasChallenge(cfg: Config, s: Sys, v: Visit, u: Sys, r: Challenges.Ref) {
    && u.sessions == s.sessions && u.clock == s.clock && u.used == s.used + {v.p.challengeId, v.p.challenge}
    && Filed(u.challenges, r) && IssuedTo(cfg, u.challenges.objs[r], v, s.clock)
    && v.load !in u.calls
  }

  /** The visitor's login has begun, and nothing else has happened since `s`. */
  function Begun(s: Sys, v: Visit): Sys {
    s.(calls := s.calls[v.init := Counted(v.npub, v.p.pubkey, v.authUrl, v.ip, s.clock)])
  }

  lemma CapsLetBegin(cfg: Config, s: Sys, v: Visit)
    requires PastTheWall.Reached(cfg, s) && Honest(cfg, s, v)
    ensures var l := BeginInit(v.init, v.npub, v.p.pubkey, v.authUrl, v.ip);
            Enabled(cfg, s, l) && Next(cfg, s, l) == Begun(s, v)
  {
    InitIsLetThrough(cfg, s, BeginInit(v.init, v.npub, v.p.pubkey, v.authUrl, v.ip));
  }

  lemma ChallengeIsMade(cfg: Config, s: Sys, v: Visit) returns (r: Challenges.Ref)
    requires PastTheWall.Reached(cfg, Begun(s, v)) && NewCalls(s, v) && NewIds(s, v)
    ensures var l, u := CreateChallenge(v.init, v.p.challengeId, v.p.challenge), Begun(s, v);
            Enabled(cfg, u, l) && HasChallenge(cfg, s, v, Next(cfg, u, l), r) && v.complete !in Next(cfg, u, l).calls
  {
    var l, u := CreateChallenge(v.init, v.p.challengeId, v.p.challenge), Begun(s, v);
    ChallengeIsRecorded(cfg, u, l);
    r := Next(cfg, u, l).challenges.records[v.p.challengeId];
  }

  lemma GoBegin(cfg: Config, s: Sys, v: Visit)
    requires PastTheWall.Reached(cfg, s) && Honest(cfg, s, v)
    ensures Path(cfg, s, Steps(v)[..1], Begun(s, v))
  {
    NoStep(cfg, s);
    assert Steps(v)[..0] == [];
    CapsLetBegin(cfg, s, v);
    var w := FollowedBy(cfg, s, Steps(v), 0, s);
  }

  lemma ChallengeIsSent(cfg: Config, s: Sys, v: Visit) returns (u: Sys, r: Challenges.Ref)
    requires Path(cfg, s, Steps(v)[..1], Begun(s, v)) && NewCalls(s, v) && NewIds(s, v)
    ensures Path(cfg, s, Steps(v)[..2], u) && HasChallenge(cfg, s, v, u, r) && v.complete !in u.calls
  {
    r := ChallengeIsMade(cfg, s, v);
    u := FollowedBy(cfg, s, Steps(v), 1, Begun(s, v));
  }

  /** The visitor has a challenge, and its completion is at `call`. */
  ghost predicate Completing(cfg: Config, s: Sys, v: Visit, u: Sys, r: Challenges.Ref, call: Call) {
    HasChallenge(cfg, s, v, u, r) && v.complete in u.calls && u.calls[v.complete] == call
  }

  lemma ProofIsSent(cfg: Config, s: Sys, v: Visit, u: Sys, r: Challenges.Ref)
    requires PastTheWall.Reached(cfg, u) && HasChallenge(cfg, s, v, u, r) && v.complete !in u.calls && v.complete != v.load
    ensures var l := BeginComplete(v.complete, v.p);
            Enabled(cfg, u, l) && Completing(cfg, s, v, Next(cfg, u, l), r, Proved(v.p, s.clock))
  {
  }

  lemma RecordIsFetched(cfg: Config, s: Sys, v: Visit, u: Sys, r: Challenges.Ref)
    requires PastTheWall.Reached(cfg, u) && Completing(cfg, s, v, u, r, Proved(v.p, s.clock)) && v.complete != v.load
    ensures var l := Fetch(v.complete);
            Enabled(cfg, u, l) && Completing(cfg, s, v, Next(cfg, u, l), r, Fetched(v.p, s.clock, Some(r)))
  {
    FetchIsExact(cfg, u, Fetch(v.complete));
  }

  lemma ChecksPass(cfg: Config, s: Sys, v: Visit, u: Sys, r: Challenges.Ref)
    requires PastTheWall.Ordinary(cfg) && InWindow(cfg, v.p, s.clock) && v.complete != v.load
    requires PastTheWall.Reached(cfg, u) && Completing(cfg, s, v, u, r, Fetched(v.p, s.clock, Some(r)))
    ensures var l := Inspect(v.complete);
            Enabled(cfg, u, l) && Completing(cfg, s, v, Next(cfg, u, l), r, Authorizing(v.p, s.clock, r))
  {
    var l := Inspect(v.complete);
    InspectDecides(cfg, u, l);
    OneCallMoves(cfg, u, l);
  }

  /** The session is what a challenge issued to the visitor, the proof and the decision give. */
  ghost predicate GivenTo(cfg: Config, now: int, v: Visit, x: Sessions.Session)
    requires v.d.Allow?
  {
    exists y :: IssuedTo(cfg, y, v, now) && GivenBy(cfg, x, y, v.p, now, v.d, v.ids)
  }

  /** The visitor's session `x` is filed and as the login gives it. */
  ghost predicate HasSession(cfg: Config, s: Sys, v: Visit, u: Sys, x: Sessions.Ref)
    requires v.d.Allow?
  {
    u.clock == s.clock && Known(u.sessions, x) && v.load !in u.calls && GivenTo(cfg, s.clock, v, u.sessions.objs[x])
  }

  /** So it is, and its completion is at `call`. */
  ghost predicate Finishing(cfg: Config, s: Sys, v: Visit, u: Sys, x: Sessions.Ref, call: Call)
    requires v.d.Allow?
  {
    HasSession(cfg, s, v, u, x) && v.complete in u.calls && u.calls[v.complete] == call
  }

  /** The challenge is still the visitor's to redeem. */
  predicate Redeemable(cfg: Config, s: Sys, v: Visit, u: Sys, r: Challenges.Ref) {
    Filed(u.challenges, r) && IssuedTo(cfg, u.challenges.objs[r], v, s.clock)
  }

  lemma SessionIsMade(cfg: Config, s: Sys, v: Visit, u: Sys, r: Challenges.Ref) returns (x: Sessions.Ref)
    requires PastTheWall.Reached(cfg, s) && NewIds(s, v) && v.d.Allow? && v.complete != v.load
    requires PastTheWall.Reached(cfg, u) && Completing(cfg, s, v, u, r, Authorizing(v.p, s.clock, r))
    ensures var l := Decide(v.complete, v.d, v.ids);
            && Enabled(cfg, u, l) && Finishing(cfg, s, v, Next(cfg, u, l), x, Created(v.p, s.clock, r, x))
            && Redeemable(cfg, s, v, Next(cfg, u, l), r)
  {
    var l := Decide(v.complete, v.d, v.ids);
    LoginIsGiven(cfg, u, l);
    OneCallMoves(cfg, u, l);
    var w := Next(cfg, u, l);
    x := w.calls[v.complete].session;
    SessionsAreForKnown(cfg, s);
    assert w.sessions.objs != s.sessions.objs;
    DecidingTakesNoTime(cfg, u, l);
  }

  lemma DecidingTakesNoTime(cfg: Config, u: Sys, l: Label)
    requires WellFormed(u) && Enabled(cfg, u, l) && (l.Decide? || l.Redeem?)
    ensures Next(cfg, u, l).clock == u.clock
  {
  }

  lemma ChallengeIsRedeemed(cfg: Config, s: Sys, v: Visit, u: Sys, r: Challenges.Ref, x: Sessions.Ref)
    requires PastTheWall.Ordinary(cfg) && v.d.Allow? && v.complete != v.load
    requires PastTheWall.Reached(cfg, u) && Finishing(cfg, s, v, u, x, Created(v.p, s.clock, r, x)) && Redeemable(cfg, s, v, u, r)
    ensures var l := Redeem(v.complete);
            Enabled(cfg, u, l) && Finishing(cfg, s, v, Next(cfg, u, l), x, Redeeming(v.p, s.clock, r, x, Challenges.WasRedeemed))
  {
    var l := Redeem(v.complete);
    RedeemDecides(cfg, u, l);
    OneCallMoves(cfg, u, l);
    DecidingTakesNoTime(cfg, u, l);
  }

  lemma LoginIsAnswered(cfg: Config, s: Sys, v: Visit, u: Sys, r: Challenges.Ref, x: Sessions.Ref)
    requires v.d.Allow? && v.complete != v.load
    requires PastTheWall.Reached(cfg, u) && Finishing(cfg, s, v, u, x, Redeeming(v.p, s.clock, r, x, Challenges.WasRedeemed))
    ensures var l := Conclude(v.complete);
            Enabled(cfg, u, l) && Finishing(cfg, s, v, Next(cfg, u, l), x, Completed(v.p, Ok(x)))
  {
    ConclusionDecides(cfg, u, Conclude(v.complete));
  }

  /** The session is filed as the login gave it, its completion is answered with it, and its load is at `call`. */
  ghost predicate Loads(cfg: Config, s: Sys, v: Visit, u: Sys, x: Sessions.Ref, call: Call)
    requires v.d.Allow?
  {
    && u.clock == s.clock && Known(u.sessions, x) && GivenTo(cfg, s.clock, v, u.sessions.objs[x])
    && v.complete in u.calls && u.calls[v.complete] == Completed(v.p, Ok(x))
    && v.load in u.calls && u.calls[v.load] == call
  }

  lemma GivenSessionLasts(cfg: Config, x: Sessions.Session, v: Visit, now: int)
    requires v.d.Allow? && cfg.sessionTtl >= 1 && GivenTo(cfg, now, v, x)
    ensures now < x.expiresAt && NeverRevoked(x) && x.accessToken == v.ids.accessToken
  {
  }

  lemma SessionIsFound(cfg: Config, s: Sys, v: Visit, u: Sys, x: Sessions.Ref)
    requires PastTheWall.Ordinary(cfg) && v.d.Allow? && v.complete != v.load && v.ids.accessToken != ""
    requires PastTheWall.Reached(cfg, u) && Finishing(cfg, s, v, u, x, Completed(v.p, Ok(x)))
    ensures var l := BeginLoad(v.load, v.ids.accessToken);
            Enabled(cfg, u, l) && Loads(cfg, s, v, Next(cfg, u, l), x, Loading(v.ids.accessToken, Some(x)))
  {
    var l := BeginLoad(v.load, v.ids.accessToken);
    GivenSessionLasts(cfg, u.sessions.objs[x], v, s.clock);
    LoadLookupIsExact(cfg, u, l);
    assert HasAccess(Next(cfg, u, l).sessions, v.ids.accessToken, x);
    LoadingKeepsToken(cfg, u, l);
  }

  lemma LoadingKeepsToken(cfg: Config, u: Sys, l: Label)
    requires WellFormed(u) && Enabled(cfg, u, l) && l.BeginLoad?
    ensures var t := Next(cfg, u, l); t.clock == u.clock && l.c in t.calls && t.calls[l.c].Loading? && t.calls[l.c].token == l.token
  {
  }

  lemma SessionIsLetIn(cfg: Config, s: Sys, v: Visit, u: Sys, x: Sessions.Ref)
    requires PastTheWall.Ordinary(cfg) && v.d.Allow? && v.complete != v.load
    requires PastTheWall.Reached(cfg, u) && Loads(cfg, s, v, u, x, Loading(v.ids.accessToken, Some(x)))
    ensures var l := Accept(v.load);
            Enabled(cfg, u, l) && Loads(cfg, s, v, Next(cfg, u, l), x, Loaded(Some(x)))
  {
    GivenSessionLasts(cfg, u.sessions.objs[x], v, s.clock);
    AcceptDecides(cfg, u, Accept(v.load));
  }

  // The same steps, one after the other.

  lemma GoProve(cfg: Config, s: Sys, v: Visit, u: Sys, r: Challenges.Ref) returns (w: Sys)
    requires Path(cfg, s, Steps(v)[..2], u)
    requires HasChallenge(cfg, s, v, u, r) && v.complete !in u.calls && v.complete != v.load
    ensures Path(cfg, s, Steps(v)[..3], w)
    ensures Completing(cfg, s, v, w, r, Proved(v.p, s.clock))
  {
    ProofIsSent(cfg, s, v, u, r);
    w := FollowedBy(cfg, s, Steps(v), 2, u);
  }

  lemma GoFetch(cfg: Config, s: Sys, v: Visit, u: Sys, r: Challenges.Ref) returns (w: Sys)
    requires Path(cfg, s, Steps(v)[..3], u)
    requires Completing(cfg, s, v, u, r, Proved(v.p, s.clock)) && v.complete != v.load
    ensures Path(cfg, s, Steps(v)[..4], w)
    ensures Completing(cfg, s, v, w, r, Fetched(v.p, s.clock, Some(r)))
  {
    RecordIsFetched(cfg, s, v, u, r);
    w := FollowedBy(cfg, s, Steps(v), 3, u);
  }

  lemma GoCheck(cfg: Config, s: Sys, v: Visit, u: Sys, r: Challenges.Ref) returns (w: Sys)
    requires Path(cfg, s, Steps(v)[..4], u)
    requires PastTheWall.Ordinary(cfg) && InWindow(cfg, v.p, s.clock) && v.complete != v.load
    requires Completing(cfg, s, v, u, r, Fetched(v.p, s.clock, Some(r)))
    ensures Path(cfg, s, Steps(v)[..5], w)
    ensures Completing(cfg, s, v, w, r, Authorizing(v.p, s.clock, r))
  {
    ChecksPass(cfg, s, v, u, r);
    w := FollowedBy(cfg, s, Steps(v), 4, u);
  }

  lemma GoDecide(cfg: Config, s: Sys, v: Visit, u: Sys, r: Challenges.Ref) returns (w: Sys, x: Sessions.Ref)
    requires Path(cfg, s, Steps(v)[..5], u)
    requires PastTheWall.Reached(cfg, s) && NewIds(s, v) && v.d.Allow? && v.complete != v.load
    requires Completing(cfg, s, v, u, r, Authorizing(v.p, s.clock, r))
    ensures Path(cfg, s, Steps(v)[..6], w)
    ensures Finishing(cfg, s, v, w, x, Created(v.p, s.clock, r, x)) && Redeemable(cfg, s, v, w, r)
  {
    x := SessionIsMade(cfg, s, v, u, r);
    w := FollowedBy(cfg, s, Steps(v), 5, u);
  }

  lemma GoRedeem(cfg: Config, s: Sys, v: Visit, u: Sys, r: Challenges.Ref, x: Sessions.Ref) returns (w: Sys)
    requires Path(cfg, s, Steps(v)[..6], u)
    requires PastTheWall.Ordinary(cfg) && v.d.Allow? && v.complete != v.load
    requires Finishing(cfg, s, v, u, x, Created(v.p, s.clock, r, x)) && Redeemable(cfg, s, v, u, r)
    ensures Path(cfg, s, Steps(v)[..7], w)
    ensures Finishing(cfg, s, v, w, x, Redeeming(v.p, s.clock, r, x, Challenges.WasRedeemed))
  {
    ChallengeIsRedeemed(cfg, s, v, u, r, x);
    w := FollowedBy(cfg, s, Steps(v), 6, u);
  }

  lemma GoConclude(cfg: Config, s: Sys, v: Visit, u: Sys, r: Challenges.Ref, x: Sessions.Ref) returns (w: Sys)
    requires Path(cfg, s, Steps(v)[..7], u)
    requires v.d.Allow? && v.complete != v.load
    requires Finishing(cfg, s, v, u, x, Redeeming(v.p, s.clock, r, x, Challenges.WasRedeemed))
    ensures Path(cfg, s, Steps(v)[..8], w)
    ensures Finishing(cfg, s, v, w, x, Completed(v.p, Ok(x)))
  {
    LoginIsAnswered(cfg, s, v, u, r, x);
    w := FollowedBy(cfg, s, Steps(v), 7, u);
  }

  lemma GoLoad(cfg: Config, s: Sys, v: Visit, u: Sys, x: Sessions.Ref) returns (w: Sys)
    requires Path(cfg, s, Steps(v)[..8], u)
    requires PastTheWall.Ordinary(cfg) && v.d.Allow? && v.complete != v.load && v.ids.accessToken != ""
    requires Finishing(cfg, s, v, u, x, Completed(v.p, Ok(x)))
    ensures Path(cfg, s, Steps(v)[..9], w)
    ensures Loads(cfg, s, v, w, x, Loading(v.ids.accessToken, Some(x)))
  {
    SessionIsFound(cfg, s, v, u, x);
    w := FollowedBy(cfg, s, Steps(v), 8, u);
  }

  lemma GoAccept(cfg: Config, s: Sys, v: Visit, u: Sys, x: Sessions.Ref) returns (w: Sys)
    requires Path(cfg, s, Steps(v)[..9], u)
    requires PastTheWall.Ordinary(cfg) && v.d.Allow? && v.complete != v.load
    requires Loads(cfg, s, v, u, x, Loading(v.ids.accessToken, Some(x)))
    ensures Path(cfg, s, Steps(v)[..10], w)
    ensures Loads(cfg, s, v, w, x, Loaded(Some(x)))
  {
    SessionIsLetIn(cfg, s, v, u, x);
    w := FollowedBy(cfg, s, Steps(v), 9, u);
  }

  lemma LoginIsChecked(cfg: Config, s: Sys, v: Visit) returns (u: Sys, r: Challenges.Ref)
    requires PastTheWall.Ordinary(cfg) && PastTheWall.Reached(cfg, s) && Honest(cfg, s, v)
    ensures Path(cfg, s, Steps(v)[..5], u) && Completing(cfg, s, v, u, r, Authorizing(v.p, s.clock, r))
  {
    var sent, proved, fetched;
    GoBegin(cfg, s, v);
    sent, r := ChallengeIsSent(cfg, s, v);
    proved := GoProve(cfg, s, v, sent, r);
    fetched := GoFetch(cfg, s, v, proved, r);
    u := GoCheck(cfg, s, v, fetched, r);
  }

  lemma LoginIsDecided(cfg: Config, s: Sys, v: Visit, checked: Sys, r: Challenges.Ref) returns (u: Sys, x: Sessions.Ref)
    requires PastTheWall.Ordinary(cfg) && PastTheWall.Reached(cfg, s) && NewIds(s, v) && v.d.Allow? && v.complete != v.load
    requires Path(cfg, s, Steps(v)[..5], checked) && Completing(cfg, s, v, checked, r, Authorizing(v.p, s.clock, r))
    ensures Path(cfg, s, Steps(v)[..8], u) && Finishing(cfg, s, v, u, x, Completed(v.p, Ok(x)))
  {
    var made, redeemed;
    made, x := GoDecide(cfg, s, v, checked, r);
    redeemed := GoRedeem(cfg, s, v, made, r, x);
    u := GoConclude(cfg, s, v, redeemed, r, x);
  }

  lemma RequestIsLetIn(cfg: Config, s: Sys, v: Visit, answered: Sys, x: Sessions.Ref) returns (u: Sys)
    requires PastTheWall.Ordinary(cfg) && v.d.Allow? && v.complete != v.load && v.ids.accessToken != ""
    requires Path(cfg, s, Steps(v)[..8], answered) && Finishing(cfg, s, v, answered, x, Completed(v.p, Ok(x)))
    ensures Path(cfg, s, Steps(v)[..10], u) && Loads(cfg, s, v, u, x, Loaded(Some(x)))
  {
    var found := GoLoad(cfg, s, v, answered, x);
    u := GoAccept(cfg, s, v, found, x);
  }

  lemma AllTheSteps(cfg: Config, s: Sys, v: Visit, u: Sys)
    requires Path(cfg, s, Steps(v)[..10], u)
    ensures Path(cfg, s, Steps(v), u)
  {
    assert Steps(v)[..10] == Steps(v);
  }

  lemma NewAccessToken(s: Sys, v: Visit)
    requires NewIds(s, v)
    ensures v.ids.accessToken != ""
  {
  }

  /**
   * An honest login succeeds: from any state a run can reach, a visitor whose login the caps let begin,
   * who signs the challenge it is sent inside its window and whom the resolver allows, is answered with a
   * session that holds what the challenge, the proof and the decision say; its access token is let in.
   */
  lemma HonestLoginSucceeds(cfg: Config, s: Sys, v: Visit) returns (u: Sys, x: Sessions.Ref)
    requires PastTheWall.Ordinary(cfg) && PastTheWall.Reached(cfg, s) && Honest(cfg, s, v)
    ensures Path(cfg, s, Steps(v), u) && Loads(cfg, s, v, u, x, Loaded(Some(x)))
  {
    var checked, r, answered;
    checked, r := LoginIsChecked(cfg, s, v);
    answered, x := LoginIsDecided(cfg, s, v, checked, r);
    NewAccessToken(s, v);
    u := RequestIsLetIn(cfg, s, v, answered, x);
    AllTheSteps(cfg, s, v, u);
  }

  // ----------------------------------------------------------------------- a refresh

  function RefreshSteps(c: nat, token: string, d: Decision, a: string, b: string): (ls: seq<Label>)
    ensures |ls| == 3
  {
    [BeginRefresh(c, token), Check(c), Grant(c, d, a, b)]
  }

  /** Session `r` can be refreshed with this token now. */
  predicate Renewable(cfg: Config, s: Sys, r: Sessions.Ref, token: string) {
    && Known(s.sessions, r) && Holds(s.sessions.objs[r], token)
    && NeverRevoked(s.sessions.objs[r]) && StillRefreshable(cfg, s.sessions.objs[r], s.clock)
  }

  lemma TokenIsFound(cfg: Config, s: Sys, c: nat, r: Sessions.Ref, token: string)
    requires PastTheWall.Reached(cfg, s) && RefreshEnabled(cfg) && c !in s.calls && Renewable(cfg, s, r, token)
    ensures Enabled(cfg, s, BeginRefresh(c, token))
    ensures Next(cfg, s, BeginRefresh(c, token)) == s.(calls := s.calls[c := Looked(token, Some(r))])
  {
    ReachableInv(cfg, s);
    RefreshFinds(s.sessions, token);
    assert HasRefresh(s.sessions, token, r);
  }

  lemma RefreshPasses(cfg: Config, s: Sys, c: nat, r: Sessions.Ref, token: string)
    requires PastTheWall.Reached(cfg, s) && Renewable(cfg, s, r, token) && c in s.calls && s.calls[c] == Looked(token, Some(r))
    ensures var l, t := Check(c), Next(cfg, s, Check(c));
            && Enabled(cfg, s, l) && t.sessions == s.sessions && t.clock == s.clock && t.used == s.used
            && c in t.calls && t.calls[c] == Resolving(token, r, s.clock)
  {
    var l := Check(c);
    NotItsOwnPredecessor(cfg, s, r, token);
    CheckDecides(cfg, s, l, r);
    CheckingDrawsNothing(cfg, s, l);
  }

  lemma NotItsOwnPredecessor(cfg: Config, s: Sys, r: Sessions.Ref, token: string)
    requires PastTheWall.Reached(cfg, s) && Renewable(cfg, s, r, token)
    ensures !Precedes(s.sessions.objs[r], token)
  {
    ReachableInv(cfg, s);
    assert Sessions.Reachable(s.sessions, r);
  }

  lemma CheckingDrawsNothing(cfg: Config, s: Sys, l: Label)
    requires WellFormed(s) && Enabled(cfg, s, l) && l.Check?
    ensures Next(cfg, s, l).used == s.used
  {
  }

  lemma TokensAreGiven(cfg: Config, s: Sys, c: nat, r: Sessions.Ref, token: string, d: Decision, a: string, b: string)
    requires PastTheWall.Reached(cfg, s) && Renewable(cfg, s, r, token) && FreshPair(s, a, b) && d.Allow?
    requires c in s.calls && s.calls[c] == Resolving(token, r, s.clock)
    ensures var l, t := Grant(c, d, a, b), Next(cfg, s, Grant(c, d, a, b));
            && Enabled(cfg, s, l) && c in t.calls && t.calls[c] == Refreshed(Ok(r)) && r < |t.sessions.objs|
            && RenewedBy(cfg, s.sessions.objs[r], t.sessions.objs[r], s.clock, d, a, b)
  {
    var l := Grant(c, d, a, b);
    ReachableInv(cfg, s);
    GrantRotates(cfg, s, l);
    RotationIsGiven(cfg, s, l, r, token);
  }

  /**
   * A live session is renewed: from any state a run can reach, the refresh token a session holds, presented
   * while it can still be refreshed and allowed by the resolver, gives that session its new tokens.
   */
  lemma LiveSessionIsRenewed(cfg: Config, s: Sys, c: nat, r: Sessions.Ref, token: string, d: Decision, a: string, b: string)
    requires PastTheWall.Reached(cfg, s) && RefreshEnabled(cfg) && c !in s.calls && FreshPair(s, a, b) && d.Allow?
    requires Renewable(cfg, s, r, token)
    ensures Runs(cfg, s, RefreshSteps(c, token, d, a, b))
    ensures var u := After(cfg, s, RefreshSteps(c, token, d, a, b));
            && c in u.calls && u.calls[c] == Refreshed(Ok(r)) && r < |u.sessions.objs|
            && RenewedBy(cfg, s.sessions.objs[r], u.sessions.objs[r], s.clock, d, a, b)
  {
    var ls := RefreshSteps(c, token, d, a, b);
    assert ls[..3] == ls;
    var looked := GoLook(cfg, s, ls, c, r, token);
    var resolving := GoPass(cfg, s, ls, looked, c, r, token);
    TokensAreGiven(cfg, resolving, c, r, token, d, a, b);
    var u := FollowedBy(cfg, s, ls, 2, resolving);
  }

  lemma GoLook(cfg: Config, s: Sys, ls: seq<Label>, c: nat, r: Sessions.Ref, token: string) returns (w: Sys)
    requires PastTheWall.Reached(cfg, s) && RefreshEnabled(cfg) && c !in s.calls && Renewable(cfg, s, r, token)
    requires |ls| == 3 && ls[0] == BeginRefresh(c, token)
    ensures Path(cfg, s, ls[..1], w) && w == s.(calls := s.calls[c := Looked(token, Some(r))])
  {
    NoStep(cfg, s);
    assert ls[..0] == [];
    TokenIsFound(cfg, s, c, r, token);
    w := FollowedBy(cfg, s, ls, 0, s);
  }

  lemma GoPass(cfg: Config, s: Sys, ls: seq<Label>, u: Sys, c: nat, r: Sessions.Ref, token: string) returns (w: Sys)
    requires |ls| == 3 && ls[1] == Check(c) && Path(cfg, s, ls[..1], u)
    requires u == s.(calls := s.calls[c := Looked(token, Some(r))]) && Renewable(cfg, u, r, token)
    ensures Path(cfg, s, ls[..2], w) && w.sessions == s.sessions && w.clock == s.clock && w.used == s.used
    ensures c in w.calls && w.calls[c] == Resolving(token, r, s.clock)
  {
    RefreshPasses(cfg, u, c, r, token);
    w := FollowedBy(cfg, s, ls, 1, u);
  }
}
