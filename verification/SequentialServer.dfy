/**
 * What sweeping can be noticed by. With calls run one at a time on a shared clock, the server over
 * its two in-memory stores gives every call the answer of a server that never forgets (one table of
 * sessions, and challenge records that are never deleted), but for one: a retried completion whose
 * session is past its retention bound gets no session back.
 */
module SequentialServer {
  import opened Options
  import Sessions
  import Challenges
  import opened Server
  import opened ServerInvariants
  import SessionSweep
  import ChallengeSweep

  type Table = SessionSweep.Table

  datatype Op =
    | Init(npub: string, pubkey: string, authUrl: string, ip: Option<string>, challengeId: string, challenge: string)
    | Complete(p: Proof, d: Decision, ids: Ids)
    | Count(filterNpub: Option<string>, filterIp: Option<string>)
    | Expire
    | Serve(op: SessionSweep.Op)

  datatype Answer =
    | Silent
    | Begun(issued: bool)
    | Entered(session: Option<Sessions.Session>)
    | Total(count: nat)
    | Served(ok: bool)

  datatype Real = Real(challenges: Challenges.Store, sessions: Sessions.Store)
  datatype Ideal = Ideal(challenges: Challenges.Store, table: Table)

  ghost predicate Closed(r: Real) {
    Challenges.Closed(r.challenges) && Sessions.Closed(r.sessions)
  }

  // ------------------------------------------------------------- a completion, start to end

  predicate Enters(cfg: Config, x: Challenges.Challenge, op: Op, now: int)
    requires op.Complete?
  {
    Judge(cfg, op.p, now, x).Proceed? && op.d.Allow?
  }

  function RedemptionFor(cfg: Config, op: Op, sessionId: string, now: int): Challenges.Redemption
    requires op.Complete?
  {
    Challenges.Redemption(op.p.eventId, sessionId, now, now + cfg.resultCacheTtl)
  }

  /** What a completion answers after its redemption: the session it made, or the one an earlier completion did. */
  function Reply(status: Challenges.RedeemStatus, y: Challenges.Challenge, op: Op, now: int,
                 made: Sessions.Session, found: Option<Sessions.Session>): Option<Sessions.Session>
    requires op.Complete?
  {
    match status
    case WasRedeemed => Some(made)
    case AlreadyRedeemed => if AnswersRetry(y, op.p, now) then found else None
    case _ => None
  }

  ghost function RealFound(s: Sessions.Store, id: Option<string>): Option<Sessions.Session>
    requires Sessions.Closed(s)
  {
    if id.Some? && id.value in s.byId then Some(s.objs[s.byId[id.value]]) else None
  }

  function IdealFound(t: Table, id: Option<string>): Option<Sessions.Session> {
    if id.Some? && id.value in t then Some(t[id.value]) else None
  }

  /** A session that was found, unless it is past its retention bound. */
  function Retained(found: Option<Sessions.Session>, now: int): Option<Sessions.Session> {
    if found.Some? && SessionSweep.Expired(found.value, now) then None else found
  }

  lemma CreateIsClosed(s: Sessions.Store, now: int, record: Sessions.Session)
    requires Sessions.Closed(s)
    ensures var (after, ref) := Sessions.CreateForChallenge(s, now, record); Sessions.Closed(after) && ref < |after.objs|
  {
  }

  /** Creating the session, redeeming the challenge for it, and answering; `k` is the challenge's id. */
  ghost function RealEntry(cfg: Config, r: Real, op: Op, k: string, now: int): (Real, Option<Sessions.Session>)
    requires Closed(r) && op.Complete? && op.d.Allow? && k in r.challenges.records
  {
    var record := NewSession(cfg, r.challenges.objs[r.challenges.records[k]], op.p, now, op.d, op.ids);
    CreateIsClosed(r.sessions, now, record);
    var (sessions, ref) := Sessions.CreateForChallenge(r.sessions, now, record);
    var made := sessions.objs[ref];
    var (challenges, status) := Challenges.Redeem(r.challenges, k, RedemptionFor(cfg, op, made.sessionId, now));
    var y := challenges.objs[challenges.records[k]];
    (Real(challenges, sessions), Reply(status, y, op, now, made, RealFound(sessions, y.redeemedSessionId)))
  }

  ghost function SessionFor(t: Table, record: Sessions.Session): Sessions.Session {
    if SessionSweep.Knows(t, record.challengeId) then var k :| k in t && t[k].challengeId == record.challengeId; t[k] else record
  }

  ghost function IdealEntry(cfg: Config, i: Ideal, op: Op, k: string, now: int): (Ideal, Option<Sessions.Session>)
    requires Challenges.Closed(i.challenges) && op.Complete? && op.d.Allow? && k in i.challenges.records
  {
    var record := NewSession(cfg, i.challenges.objs[i.challenges.records[k]], op.p, now, op.d, op.ids);
    var table, made := SessionSweep.Noted(i.table, record), SessionFor(i.table, record);
    var (challenges, status) := Challenges.Redeem(i.challenges, k, RedemptionFor(cfg, op, made.sessionId, now));
    var y := challenges.objs[challenges.records[k]];
    (Ideal(challenges, table), Reply(status, y, op, now, made, IdealFound(table, y.redeemedSessionId)))
  }

  ghost function RealComplete(cfg: Config, r: Real, op: Op, now: int): (Real, Option<Sessions.Session>)
    requires Closed(r) && op.Complete?
  {
    var k := op.p.challengeId;
    if k !in r.challenges.records then (r, None)
    else
      var x := r.challenges.objs[r.challenges.records[k]];
      if Enters(cfg, x, op, now) then RealEntry(cfg, r, op, k, now)
      else if Judge(cfg, op.p, now, x).RejectAndCount? then (r.(challenges := CountFailure(cfg, r.challenges, k)), None)
      else (r, None)
  }

  ghost function IdealComplete(cfg: Config, i: Ideal, op: Op, now: int): (Ideal, Option<Sessions.Session>)
    requires Challenges.Closed(i.challenges) && op.Complete?
  {
    var k := op.p.challengeId;
    if k !in i.challenges.records then (i, None)
    else
      var x := i.challenges.objs[i.challenges.records[k]];
      if Enters(cfg, x, op, now) then IdealEntry(cfg, i, op, k, now)
      else if Judge(cfg, op.p, now, x).RejectAndCount? then (i.(challenges := CountFailure(cfg, i.challenges, k)), None)
      else (i, None)
  }

  // ------------------------------------------------------------------------ one call

  function Requested(cfg: Config, op: Op, now: int): Challenges.Challenge
    requires op.Init?
  {
    NewChallenge(cfg, Counted(op.npub, op.pubkey, op.authUrl, op.ip, now), op.challengeId, op.challenge)
  }

  ghost function Filed(sweeps: bool, s: Challenges.Store, record: Challenges.Challenge, now: int): Challenges.Store
    requires Challenges.Closed(s)
  {
    if sweeps then Challenges.Create(s, now, record) else ChallengeSweep.Insert(s, record)
  }

  ghost function RealInit(cfg: Config, sweeps: bool, r: Real, op: Op, now: int): (Real, Answer)
    requires Closed(r) && op.Init?
  {
    if CapExceeded(cfg, r.challenges, op.npub, op.ip, now) then (r, Begun(false))
    else (r.(challenges := Filed(sweeps, r.challenges, Requested(cfg, op, now), now)), Begun(true))
  }

  ghost function IdealInit(cfg: Config, i: Ideal, op: Op, now: int): (Ideal, Answer)
    requires Challenges.Closed(i.challenges) && op.Init?
  {
    if CapExceeded(cfg, i.challenges, op.npub, op.ip, now) then (i, Begun(false))
    else (i.(challenges := ChallengeSweep.Insert(i.challenges, Requested(cfg, op, now))), Begun(true))
  }

  /** A call on the two stores; `sweeps` tells the challenge store that cleans up from one that never does. */
  ghost function RealStep(cfg: Config, sweeps: bool, r: Real, op: Op, now: int): (Real, Answer)
    requires Closed(r)
  {
    match op
    case Init(_, _, _, _, _, _) => RealInit(cfg, sweeps, r, op, now)
    case Complete(_, _, _) => var (after, x) := RealComplete(cfg, r, op, now); (after, Entered(x))
    case Count(npub, ip) => (r, Total(|Challenges.Outstanding(r.challenges, Challenges.Filter(npub, ip, now))|))
    case Expire => (r.(challenges := Challenges.MarkExpired(r.challenges, now)), Silent)
    case Serve(sop) =>
      var (sessions, ok) := SessionSweep.StoreStep(cfg, r.sessions, sop, now);
      (r.(sessions := sessions), Served(ok))
  }

  /** The same call on what never forgets. */
  ghost function IdealStep(cfg: Config, i: Ideal, op: Op, now: int): (Ideal, Answer)
    requires Challenges.Closed(i.challenges)
  {
    match op
    case Init(_, _, _, _, _, _) => IdealInit(cfg, i, op, now)
    case Complete(_, _, _) => var (after, x) := IdealComplete(cfg, i, op, now); (after, Entered(x))
    case Count(npub, ip) => (i, Total(|Challenges.Outstanding(i.challenges, Challenges.Filter(npub, ip, now))|))
    case Expire => (i.(challenges := Challenges.MarkExpired(i.challenges, now)), Silent)
    case Serve(sop) =>
      var (table, ok) := SessionSweep.TableStep(cfg, i.table, sop, now);
      (i.(table := table), Served(ok))
  }

  // ------------------------------------------------------------ tokens handed to clients

  function Tokens(x: Sessions.Session): set<string> {
    {x.accessToken} + (if x.refreshToken.Some? then {x.refreshToken.value} else {})
  }

  function AllTokens(x: Sessions.Session): set<string> {
    {x.accessToken} + Sessions.OwnRefreshKeys(x)
  }

  /** The tokens an answer hands to its caller. */
  function HandedBy(op: Op, answer: Answer): set<string> {
    if answer.Entered? && answer.session.Some? then Tokens(answer.session.value)
    else if answer.Served? && answer.ok && op.Serve? && op.op.Refresh? then {op.op.accessToken, op.op.refreshToken}
    else {}
  }

  /** A caller presents a token some answer handed out, or one the server never drew. */
  predicate Presents(op: SessionSweep.Op, used: set<string>, given: set<string>) {
    match op
    case Load(token) => token in given || token !in used
    case Refresh(token, _, _, _) => token != "" && (token in given || token !in used)
    case _ => true
  }

  /** The ids a call draws are new, and the tokens it presents are no one else's secrets. */
  ghost predicate Sensible(i: Ideal, op: Op, used: set<string>, used': set<string>, given: set<string>) {
    && used <= used'
    && match op
       case Init(_, _, _, _, id, _) => id !in i.challenges.records
       case Complete(_, _, ids) => {ids.sessionId, ids.accessToken, ids.refreshToken} <= used' - used && ids.refreshToken != ""
       case Serve(sop) => !sop.Login? && SessionSweep.Fresh(sop, used, used') && Presents(sop, used, given)
       case _ => true
  }

  // ------------------------------------------------------------------ the simulation

  ghost predicate AllRetained(s: Sessions.Store, at: int)
    requires Sessions.Closed(s)
  {
    forall k <- s.byId :: at <= Sessions.RetainUntil(s.objs[s.byId[k]])
  }

  /** Everything indexed was worth keeping at the last sweep. */
  ghost predicate Kept(s: Sessions.Store, now: int)
    requires Sessions.Closed(s)
  {
    s.lastSweptAt.Some? ==> s.lastSweptAt.value <= now && AllRetained(s, s.lastSweptAt.value)
  }

  /** A challenge names the session it was redeemed for, and every session its challenge. */
  ghost predicate Linked(b: Challenges.Store, t: Table) {
    && Challenges.Closed(b)
    && (forall k <- t :: t[k].challengeId in b.records && b.objs[b.records[t[k].challengeId]].redeemedSessionId == Some(k))
    && (forall k <- b.records :: b.objs[b.records[k]].redeemedSessionId.Some? ==> Redeems(t, b.objs[b.records[k]].redeemedSessionId.value, k))
  }

  predicate Redeems(t: Table, id: string, challengeId: string) {
    id in t && t[id].challengeId == challengeId
  }

  predicate HoldsAll(given: set<string>, x: Sessions.Session) {
    Tokens(x) <= given
  }

  predicate HoldsNone(given: set<string>, x: Sessions.Session) {
    AllTokens(x) !! given
  }

  /** Clients hold the tokens of the sessions in the table, and of no others. */
  ghost predicate Handed(s: Sessions.Store, t: Table, used: set<string>, given: set<string>)
    requires Sessions.Closed(s)
  {
    && given <= used
    && (forall k <- t :: HoldsAll(given, t[k]))
    && (forall k <- s.byId :: k in t || HoldsNone(given, s.objs[s.byId[k]]))
  }

  ghost predicate ChallengesAgree(a: Challenges.Store, b: Challenges.Store, t: Table, now: int) {
    ChallengeSweep.Sim(a, b, now) && Linked(b, t)
  }

  ghost predicate SessionsAgree(s: Sessions.Store, t: Table, used: set<string>, given: set<string>, now: int) {
    SessionSweep.Sim(s, t, used, now) && Kept(s, now) && Handed(s, t, used, given)
  }

  ghost predicate Agree(r: Real, i: Ideal, used: set<string>, given: set<string>, now: int) {
    ChallengesAgree(r.challenges, i.challenges, i.table, now) && SessionsAgree(r.sessions, i.table, used, given, now)
  }

  // ---------------------------------------------------------------- the session half

  ghost predicate SweptAt(s: Sessions.Store, now: int)
    requires Sessions.Closed(s)
  {
    s.lastSweptAt == Some(now) && AllRetained(s, now)
  }

  lemma SweepKeeps(s: Sessions.Store, now: int)
    requires Sessions.Closed(s) && Kept(s, now)
    ensures Sessions.Closed(Sessions.Sweep(s, now)) && SweptAt(Sessions.Sweep(s, now), now)
  {
  }

  lemma AddKeeps(s: Sessions.Store, now: int, record: Sessions.Session)
    requires Sessions.Closed(s) && SweptAt(s, now) && now <= Sessions.RetainUntil(record)
    ensures Sessions.Closed(Sessions.Add(s, record)) && SweptAt(Sessions.Add(s, record), now)
  {
  }

  lemma CreateKeeps(s: Sessions.Store, now: int, record: Sessions.Session)
    requires Sessions.Closed(s) && Kept(s, now) && now <= Sessions.RetainUntil(record)
    ensures var after := Sessions.CreateForChallenge(s, now, record).0; Sessions.Closed(after) && SweptAt(after, now)
  {
    SweepKeeps(s, now);
    AddKeeps(Sessions.Sweep(s, now), now, record);
  }

  /** Just after a sweep the store holds exactly the sessions of the table that are still worth keeping. */
  lemma FoundAgrees(s: Sessions.Store, t: Table, used: set<string>, now: int, id: string)
    requires SessionSweep.Sim(s, t, used, now) && SweptAt(s, now) && id in t
    ensures RealFound(s, Some(id)) == Retained(IdealFound(t, Some(id)), now)
  {
    if id in s.byId {
      assert SessionSweep.Same(s, t, id);
    }
  }

  /** A challenge no session was made for gets a new one. */
  lemma FirstSession(s: Sessions.Store, t: Table, used: set<string>, now: int, record: Sessions.Session)
    requires SessionSweep.Sim(s, t, used, now) && !SessionSweep.Knows(t, record.challengeId)
    ensures Sessions.CreateForChallenge(s, now, record) == (Sessions.Add(Sessions.Sweep(s, now), record), |s.objs|)
    ensures Sessions.Add(Sessions.Sweep(s, now), record).objs == s.objs + [record]
  {
    SessionSweep.SweepSims(s, t, used, now, now);
    if record.challengeId in Sessions.Sweep(s, now).byChallenge {
      SessionSweep.RepeatedLogin(Sessions.Sweep(s, now), t, used, now, record.challengeId);
    }
  }

  lemma SweepHands(s: Sessions.Store, t: Table, used: set<string>, given: set<string>, now: int)
    requires Sessions.Closed(s) && Handed(s, t, used, given)
    ensures Sessions.Closed(Sessions.Sweep(s, now)) && Handed(Sessions.Sweep(s, now), t, used, given)
  {
  }

  /** What a login leaves in the clients' hands: the tokens of the session it is answered with, if it is the first. */
  ghost function HandedFirst(t: Table, record: Sessions.Session): set<string> {
    if SessionSweep.Knows(t, record.challengeId) then {} else Tokens(record)
  }

  /** Every token of the record is newly drawn. */
  predicate Drawn(record: Sessions.Session, used: set<string>, used': set<string>) {
    && used <= used' && SessionSweep.Fresh(SessionSweep.Login(record), used, used')
    && AllTokens(record) <= used' - used && Tokens(record) <= used' - used
  }

  lemma DrawnIsHeldByNoOne(x: Sessions.Session, record: Sessions.Session, t: Table, used: set<string>, used': set<string>, given: set<string>)
    requires given <= used && Drawn(record, used, used')
    ensures SessionSweep.Knows(t, record.challengeId) ==> HoldsNone(given + HandedFirst(t, record), record)
    ensures HoldsNone(given, x) && AllTokens(x) <= used ==> HoldsNone(given + HandedFirst(t, record), x)
  {
  }

  lemma AddHands(s: Sessions.Store, t: Table, record: Sessions.Session, used: set<string>, used': set<string>, given: set<string>)
    requires Sessions.Closed(s) && Handed(s, t, used, given) && Drawn(record, used, used')
    requires forall k <- s.byId :: AllTokens(s.objs[s.byId[k]]) <= used
    ensures Sessions.Closed(Sessions.Add(s, record))
    ensures Handed(Sessions.Add(s, record), SessionSweep.Noted(t, record), used', given + HandedFirst(t, record))
  {
    var after, t', given' := Sessions.Add(s, record), SessionSweep.Noted(t, record), given + HandedFirst(t, record);
    forall k <- t' ensures HoldsAll(given', t'[k]) {
      assert k in t ==> HoldsAll(given, t[k]);
    }
    forall k <- after.byId | k !in t' ensures HoldsNone(given', after.objs[after.byId[k]]) {
      if k == record.sessionId {
        DrawnIsHeldByNoOne(record, record, t, used, used', given);
      } else {
        DrawnIsHeldByNoOne(s.objs[s.byId[k]], record, t, used, used', given);
      }
    }
  }

  lemma IndexedTokensAreUsed(s: Sessions.Store, used: set<string>)
    requires SessionInv(s, used)
    ensures forall k <- s.byId :: AllTokens(s.objs[s.byId[k]]) <= used
  {
    forall k <- s.byId ensures AllTokens(s.objs[s.byId[k]]) <= used {
      assert KnownSession(s.objs[s.byId[k]], used);
    }
  }

  lemma RepeatedLoginIsKnown(s: Sessions.Store, t: Table, used: set<string>, now: int, challengeId: string)
    requires SessionSweep.Sim(s, t, used, now) && challengeId in Sessions.Sweep(s, now).byChallenge
    ensures SessionSweep.Knows(t, challengeId)
  {
    SessionSweep.SweepSims(s, t, used, now, now);
    SessionSweep.RepeatedLogin(Sessions.Sweep(s, now), t, used, now, challengeId);
  }

  lemma SweptTokensAreUsed(s: Sessions.Store, t: Table, used: set<string>, now: int)
    requires SessionSweep.Sim(s, t, used, now)
    ensures var swept := Sessions.Sweep(s, now);
            Sessions.Closed(swept) && forall k <- swept.byId :: AllTokens(swept.objs[swept.byId[k]]) <= used
  {
    SessionSweep.SweepSims(s, t, used, now, now);
    IndexedTokensAreUsed(Sessions.Sweep(s, now), used);
  }

  lemma LoginHands(s: Sessions.Store, t: Table, record: Sessions.Session, used: set<string>, used': set<string>, given: set<string>, now: int)
    requires Sessions.Closed(s) && Handed(s, t, used, given) && Drawn(record, used, used')
    requires record.challengeId in Sessions.Sweep(s, now).byChallenge ==> SessionSweep.Knows(t, record.challengeId)
    requires var swept := Sessions.Sweep(s, now);
             Sessions.Closed(swept) && forall k <- swept.byId :: AllTokens(swept.objs[swept.byId[k]]) <= used
    ensures var after := Sessions.CreateForChallenge(s, now, record).0;
            Sessions.Closed(after) && Handed(after, SessionSweep.Noted(t, record), used', given + HandedFirst(t, record))
  {
    var swept := Sessions.Sweep(s, now);
    SweepHands(s, t, used, given, now);
    if record.challengeId in swept.byChallenge {
      assert given + HandedFirst(t, record) == given;
    } else {
      AddHands(swept, t, record, used, used', given);
    }
  }

  /** The session half of an entering completion. */
  lemma LoginAgrees(cfg: Config, s: Sessions.Store, t: Table, record: Sessions.Session, used: set<string>, used': set<string>,
                    given: set<string>, now: int)
    requires SessionsAgree(s, t, used, given, now) && Drawn(record, used, used') && now > 0 && now <= Sessions.RetainUntil(record)
    ensures var after, t' := Sessions.CreateForChallenge(s, now, record).0, SessionSweep.Noted(t, record);
            SessionsAgree(after, t', used', given + HandedFirst(t, record), now) && SweptAt(after, now)
  {
    SessionSweep.LoginAgrees(cfg, s, t, used, used', SessionSweep.Login(record), now);
    CreateKeeps(s, now, record);
    if record.challengeId in Sessions.Sweep(s, now).byChallenge {
      RepeatedLoginIsKnown(s, t, used, now, record.challengeId);
    }
    SweptTokensAreUsed(s, t, used, now);
    LoginHands(s, t, record, used, used', given, now);
  }

  lemma LoginMakes(s: Sessions.Store, t: Table, used: set<string>, now: int, record: Sessions.Session)
    requires SessionSweep.Sim(s, t, used, now) && !SessionSweep.Knows(t, record.challengeId)
    ensures var (after, ref) := Sessions.CreateForChallenge(s, now, record); ref < |after.objs| && after.objs[ref] == record
  {
    FirstSession(s, t, used, now, record);
  }

  // -------------------------------------------------------------- the challenge half

  lemma LinkedKnows(b: Challenges.Store, t: Table, k: string)
    requires Linked(b, t) && k in b.records
    ensures SessionSweep.Knows(t, k) <==> b.objs[b.records[k]].redeemedSessionId.Some?
  {
  }

  lemma OthersStay(b: Challenges.Store, k: string, y: Challenges.Challenge)
    requires ChallengeSweep.Keyed(b) && k in b.records
    ensures var b' := Challenges.Update(b, k, y);
            && Challenges.Closed(b') && b'.records == b.records && b'.objs[b.records[k]] == y
            && forall j <- b.records | j != k :: b'.objs[b.records[j]] == b.objs[b.records[j]]
  {
    forall j <- b.records | j != k ensures b.records[j] != b.records[k] {
      assert b.objs[b.records[j]].challengeId == j;
    }
  }

  /** A session made for `k` and a redemption that names it. */
  lemma LinkFirst(b: Challenges.Store, t: Table, record: Sessions.Session, k: string, y: Challenges.Challenge)
    requires ChallengeSweep.Keyed(b) && Linked(b, t) && k in b.records && record.challengeId == k && record.sessionId !in t
    requires !SessionSweep.Knows(t, k) && y.redeemedSessionId == Some(record.sessionId)
    ensures Challenges.Closed(Challenges.Update(b, k, y)) && Linked(Challenges.Update(b, k, y), SessionSweep.Noted(t, record))
  {
    var b', t' := Challenges.Update(b, k, y), SessionSweep.Noted(t, record);
    OthersStay(b, k, y);
    assert t' == t[record.sessionId := record];
    forall j <- t' ensures t'[j].challengeId in b'.records && b'.objs[b'.records[t'[j].challengeId]].redeemedSessionId == Some(j) {
      if j != record.sessionId {
        assert t[j].challengeId != k;
      }
    }
    forall j <- b'.records | b'.objs[b'.records[j]].redeemedSessionId.Some? ensures Redeems(t', b'.objs[b'.records[j]].redeemedSessionId.value, j) {
      if j != k {
        assert Redeems(t, b.objs[b.records[j]].redeemedSessionId.value, j);
      }
    }
  }

  /** A change that leaves the redemption as it is. */
  lemma LinkSame(b: Challenges.Store, t: Table, k: string, y: Challenges.Challenge)
    requires ChallengeSweep.Keyed(b) && Linked(b, t) && k in b.records
    requires y.redeemedSessionId == b.objs[b.records[k]].redeemedSessionId
    ensures Challenges.Closed(Challenges.Update(b, k, y)) && Linked(Challenges.Update(b, k, y), t)
  {
    OthersStay(b, k, y);
  }

  /** A record past its checks is redeemed by this completion exactly when no session was made for it. */
  lemma EnteringStatus(cfg: Config, x: Challenges.Challenge, op: Op, sessionId: string, now: int)
    requires op.Complete? && Enters(cfg, x, op, now) && ChallengeSweep.Tidy(x)
    ensures var p := RedemptionFor(cfg, op, sessionId, now);
            && Challenges.RedeemStatusOf(x, p) == (if x.redeemedSessionId.None? then Challenges.WasRedeemed else Challenges.AlreadyRedeemed)
            && (x.redeemedSessionId.None? ==> Challenges.RedeemRecord(x, p).redeemedSessionId == Some(sessionId))
            && (x.redeemedSessionId.Some? ==> Challenges.RedeemRecord(x, p) == x)
  {
  }

  lemma RedeemedStaysTidy(cfg: Config, x: Challenges.Challenge, op: Op, sessionId: string, now: int)
    requires op.Complete? && ChallengeSweep.Tidy(x) && now > 0 && cfg.resultCacheTtl >= 0
    ensures var y := Challenges.RedeemRecord(x, RedemptionFor(cfg, op, sessionId, now)); ChallengeSweep.Tidy(y) && y.challengeId == x.challengeId
  {
  }

  // ---------------------------------------------------------------------- both halves

  /** What an entering completion reads. */
  datatype Entry = Entry(x: Challenges.Challenge, record: Sessions.Session)

  ghost function EntryOf(cfg: Config, b: Challenges.Store, op: Op, k: string, now: int): Entry
    requires Challenges.Closed(b) && op.Complete? && op.d.Allow? && k in b.records
  {
    var x := b.objs[b.records[k]];
    Entry(x, NewSession(cfg, x, op.p, now, op.d, op.ids))
  }

  lemma RealEntryIs(cfg: Config, r: Real, op: Op, k: string, now: int, made: Sessions.Session)
    requires Closed(r) && ChallengeSweep.Keyed(r.challenges) && op.Complete? && op.d.Allow? && k in r.challenges.records
    requires var e := EntryOf(cfg, r.challenges, op, k, now);
             var (sessions, ref) := Sessions.CreateForChallenge(r.sessions, now, e.record);
             Sessions.Closed(sessions) && ref < |sessions.objs| && made == sessions.objs[ref]
    ensures var e := EntryOf(cfg, r.challenges, op, k, now);
            var sessions, p := Sessions.CreateForChallenge(r.sessions, now, e.record).0, RedemptionFor(cfg, op, made.sessionId, now);
            var y := Challenges.RedeemRecord(e.x, p);
            RealEntry(cfg, r, op, k, now) ==
              (Real(Challenges.Update(r.challenges, k, y), sessions),
               Reply(Challenges.RedeemStatusOf(e.x, p), y, op, now, made, RealFound(sessions, y.redeemedSessionId)))
  {
    ChallengeSweep.SameUpdates(cfg, r.challenges, k, RedemptionFor(cfg, op, made.sessionId, now));
  }

  lemma IdealEntryIs(cfg: Config, i: Ideal, op: Op, k: string, now: int, made: Sessions.Session)
    requires ChallengeSweep.Keyed(i.challenges) && op.Complete? && op.d.Allow? && k in i.challenges.records
    requires made == SessionFor(i.table, EntryOf(cfg, i.challenges, op, k, now).record)
    ensures var e := EntryOf(cfg, i.challenges, op, k, now);
            var table, p := SessionSweep.Noted(i.table, e.record), RedemptionFor(cfg, op, made.sessionId, now);
            var y := Challenges.RedeemRecord(e.x, p);
            IdealEntry(cfg, i, op, k, now) ==
              (Ideal(Challenges.Update(i.challenges, k, y), table),
               Reply(Challenges.RedeemStatusOf(e.x, p), y, op, now, made, IdealFound(table, y.redeemedSessionId)))
  {
    ChallengeSweep.SameUpdates(cfg, i.challenges, k, RedemptionFor(cfg, op, made.sessionId, now));
  }

  lemma EnteringRecord(cfg: Config, x: Challenges.Challenge, op: Op, now: int, used: set<string>, used': set<string>)
    requires op.Complete? && op.d.Allow? && now > 0 && cfg.sessionTtl >= 0
    requires used <= used' && {op.ids.sessionId, op.ids.accessToken, op.ids.refreshToken} <= used' - used && op.ids.refreshToken != ""
    ensures var record := NewSession(cfg, x, op.p, now, op.d, op.ids);
            && Drawn(record, used, used') && now <= Sessions.RetainUntil(record)
            && record.challengeId == x.challengeId && record.sessionId == op.ids.sessionId
  {
  }

  lemma TableIdsAreUsed(t: Table, used: set<string>)
    requires SessionSweep.TableInv(t, used)
    ensures t.Keys <= used
  {
    forall k <- t ensures k in used {
      assert KnownSession(t[k], used);
    }
  }

  /** The answer of the stores, given that of the server that never forgets. */
  function Swept(answer: Answer, now: int): Answer {
    if answer.Entered? then Entered(Retained(answer.session, now)) else answer
  }

  /** A call answers alike on both sides, up to a session past its retention, and leaves them in agreement. */
  ghost predicate Keeps(r: Real, i: Ideal, op: Op, used': set<string>, given: set<string>, now: int, a: Answer, b: Answer) {
    a == Swept(b, now) && Agree(r, i, used', given + HandedBy(op, b), now)
  }

  lemma FirstRedemption(cfg: Config, a: Challenges.Store, b: Challenges.Store, t: Table, used: set<string>, op: Op, k: string,
                        record: Sessions.Session, now: int)
    requires ChallengeSweep.Sim(a, b, now) && Linked(b, t) && SessionSweep.TableInv(t, used) && op.Complete? && k in a.records
    requires now > 0 && cfg.resultCacheTtl >= 0 && Enters(cfg, a.objs[a.records[k]], op, now)
    requires record.challengeId == k && record.sessionId !in used && !SessionSweep.Knows(t, k)
    ensures k in b.records && b.objs[b.records[k]] == a.objs[a.records[k]]
    ensures var x, p := a.objs[a.records[k]], RedemptionFor(cfg, op, record.sessionId, now);
            var y := Challenges.RedeemRecord(x, p);
            && Challenges.RedeemStatusOf(x, p) == Challenges.WasRedeemed
            && Challenges.Closed(Challenges.Update(b, k, y))
            && ChallengesAgree(Challenges.Update(a, k, y), Challenges.Update(b, k, y), SessionSweep.Noted(t, record), now)
  {
    var x := a.objs[a.records[k]];
    LinkedKnows(b, t, k);
    EnteringStatus(cfg, x, op, record.sessionId, now);
    RedeemedStaysTidy(cfg, x, op, record.sessionId, now);
    var y := Challenges.RedeemRecord(x, RedemptionFor(cfg, op, record.sessionId, now));
    ChallengeSweep.UpdateAgrees(a, b, now, k, y);
    TableIdsAreUsed(t, used);
    LinkFirst(b, t, record, k, y);
  }

  lemma FirstEntryAnswers(cfg: Config, r: Real, i: Ideal, op: Op, k: string, now: int)
    requires Closed(r) && ChallengeSweep.Sim(r.challenges, i.challenges, now) && op.Complete? && op.d.Allow? && k in r.challenges.records
    requires !SessionSweep.Knows(i.table, k)
    requires var (sessions, ref) := Sessions.CreateForChallenge(r.sessions, now, EntryOf(cfg, r.challenges, op, k, now).record);
             ref < |sessions.objs| && sessions.objs[ref] == EntryOf(cfg, r.challenges, op, k, now).record
    requires var Entry(x, record) := EntryOf(cfg, r.challenges, op, k, now);
             Challenges.RedeemStatusOf(x, RedemptionFor(cfg, op, record.sessionId, now)) == Challenges.WasRedeemed
    ensures var Entry(x, record) := EntryOf(cfg, r.challenges, op, k, now);
            var sessions := Sessions.CreateForChallenge(r.sessions, now, record).0;
            var y := Challenges.RedeemRecord(x, RedemptionFor(cfg, op, record.sessionId, now));
            && RealEntry(cfg, r, op, k, now) == (Real(Challenges.Update(r.challenges, k, y), sessions), Some(record))
            && IdealEntry(cfg, i, op, k, now) == (Ideal(Challenges.Update(i.challenges, k, y), SessionSweep.Noted(i.table, record)), Some(record))
  {
    var Entry(x, record) := EntryOf(cfg, r.challenges, op, k, now);
    assert EntryOf(cfg, i.challenges, op, k, now) == Entry(x, record) && x.challengeId == k;
    CreateIsClosed(r.sessions, now, record);
    RealEntryIs(cfg, r, op, k, now, record);
    IdealEntryIs(cfg, i, op, k, now, record);
  }

  /** Both halves put together. */
  lemma FirstEntryKeeps(a: Challenges.Store, b: Challenges.Store, s: Sessions.Store, t: Table, record: Sessions.Session, op: Op,
                        used': set<string>, given: set<string>, now: int)
    requires var t' := SessionSweep.Noted(t, record);
             ChallengesAgree(a, b, t', now) && SessionsAgree(s, t', used', given + HandedFirst(t, record), now)
    requires !SessionSweep.Knows(t, record.challengeId) && now <= Sessions.RetainUntil(record)
    ensures Keeps(Real(a, s), Ideal(b, SessionSweep.Noted(t, record)), op, used', given, now, Entered(Some(record)), Entered(Some(record)))
  {
    assert HandedBy(op, Entered(Some(record))) == HandedFirst(t, record);
  }

  lemma FirstEntryAgrees(cfg: Config, r: Real, i: Ideal, op: Op, k: string, used: set<string>, used': set<string>, given: set<string>, now: int)
    requires Agree(r, i, used, given, now) && op.Complete? && k in r.challenges.records && now > 0
    requires cfg.resultCacheTtl >= 0 && cfg.sessionTtl >= 0 && Sensible(i, op, used, used', given)
    requires Enters(cfg, r.challenges.objs[r.challenges.records[k]], op, now) && !SessionSweep.Knows(i.table, k)
    ensures var (r', a), (i', b) := RealEntry(cfg, r, op, k, now), IdealEntry(cfg, i, op, k, now);
            Keeps(r', i', op, used', given, now, Entered(a), Entered(b))
  {
    var Entry(x, record) := EntryOf(cfg, r.challenges, op, k, now);
    EnteringRecord(cfg, x, op, now, used, used');
    FirstRedemption(cfg, r.challenges, i.challenges, i.table, used, op, k, record, now);
    LoginAgrees(cfg, r.sessions, i.table, record, used, used', given, now);
    LoginMakes(r.sessions, i.table, used, now, record);
    FirstEntryAnswers(cfg, r, i, op, k, now);
    var y := Challenges.RedeemRecord(x, RedemptionFor(cfg, op, record.sessionId, now));
    FirstEntryKeeps(Challenges.Update(r.challenges, k, y), Challenges.Update(i.challenges, k, y),
                    Sessions.CreateForChallenge(r.sessions, now, record).0, i.table, record, op, used', given, now);
  }

  lemma RealRetry(cfg: Config, r: Real, op: Op, k: string, now: int)
    requires Closed(r) && ChallengeSweep.Keyed(r.challenges) && op.Complete? && k in r.challenges.records
    requires var x := r.challenges.objs[r.challenges.records[k]]; Enters(cfg, x, op, now) && x.redeemedSessionId.Some?
    ensures var Entry(x, record) := EntryOf(cfg, r.challenges, op, k, now);
            var sessions := Sessions.CreateForChallenge(r.sessions, now, record).0;
            && Sessions.Closed(sessions)
            && RealEntry(cfg, r, op, k, now) ==
                 (Real(r.challenges, sessions), if AnswersRetry(x, op.p, now) then RealFound(sessions, x.redeemedSessionId) else None)
  {
    var Entry(x, record) := EntryOf(cfg, r.challenges, op, k, now);
    CreateIsClosed(r.sessions, now, record);
    var (sessions, ref) := Sessions.CreateForChallenge(r.sessions, now, record);
    RealEntryIs(cfg, r, op, k, now, sessions.objs[ref]);
    EnteringStatus(cfg, x, op, sessions.objs[ref].sessionId, now);
    assert Challenges.Update(r.challenges, k, x) == r.challenges;
  }

  lemma IdealRetry(cfg: Config, i: Ideal, op: Op, k: string, now: int)
    requires ChallengeSweep.Keyed(i.challenges) && op.Complete? && k in i.challenges.records && SessionSweep.Knows(i.table, k)
    requires var x := i.challenges.objs[i.challenges.records[k]]; Enters(cfg, x, op, now) && x.redeemedSessionId.Some?
    ensures var x := i.challenges.objs[i.challenges.records[k]];
            IdealEntry(cfg, i, op, k, now) == (i, if AnswersRetry(x, op.p, now) then IdealFound(i.table, x.redeemedSessionId) else None)
  {
    var Entry(x, record) := EntryOf(cfg, i.challenges, op, k, now);
    assert x.challengeId == k;
    var made := SessionFor(i.table, record);
    IdealEntryIs(cfg, i, op, k, now, made);
    EnteringStatus(cfg, x, op, made.sessionId, now);
    assert Challenges.Update(i.challenges, k, x) == i.challenges;
  }

  lemma RetryAnswers(cfg: Config, r: Real, i: Ideal, op: Op, k: string, used: set<string>, now: int)
    requires Closed(r) && ChallengeSweep.Sim(r.challenges, i.challenges, now) && op.Complete? && op.d.Allow? && k in r.challenges.records
    requires SessionSweep.Knows(i.table, k) && Linked(i.challenges, i.table) && Enters(cfg, r.challenges.objs[r.challenges.records[k]], op, now)
    requires var sessions := Sessions.CreateForChallenge(r.sessions, now, EntryOf(cfg, r.challenges, op, k, now).record).0;
             SessionSweep.Sim(sessions, i.table, used, now) && SweptAt(sessions, now)
    ensures var Entry(x, record) := EntryOf(cfg, r.challenges, op, k, now);
            var sessions := Sessions.CreateForChallenge(r.sessions, now, record).0;
            var reply := if AnswersRetry(x, op.p, now) then IdealFound(i.table, x.redeemedSessionId) else None;
            && RealEntry(cfg, r, op, k, now) == (Real(r.challenges, sessions), Retained(reply, now))
            && IdealEntry(cfg, i, op, k, now) == (i, reply)
  {
    var Entry(x, record) := EntryOf(cfg, r.challenges, op, k, now);
    LinkedKnows(i.challenges, i.table, k);
    RealRetry(cfg, r, op, k, now);
    IdealRetry(cfg, i, op, k, now);
    assert Redeems(i.table, x.redeemedSessionId.value, k);
    FoundAgrees(Sessions.CreateForChallenge(r.sessions, now, record).0, i.table, used, now, x.redeemedSessionId.value);
  }

  lemma RetryKeeps(a: Challenges.Store, i: Ideal, s: Sessions.Store, reply: Option<Sessions.Session>, op: Op,
                   used': set<string>, given: set<string>, now: int)
    requires ChallengesAgree(a, i.challenges, i.table, now) && SessionsAgree(s, i.table, used', given, now)
    requires reply.Some? ==> exists k :: k in i.table && reply.value == i.table[k]
    ensures Keeps(Real(a, s), i, op, used', given, now, Entered(Retained(reply, now)), Entered(reply))
  {
    RetryHandsNothingNew(reply, i.table, given, op);
  }

  lemma RetryAfterLogin(cfg: Config, r: Real, i: Ideal, op: Op, k: string, used': set<string>, given: set<string>, now: int)
    requires Closed(r) && ChallengesAgree(r.challenges, i.challenges, i.table, now) && op.Complete? && k in r.challenges.records
    requires Enters(cfg, r.challenges.objs[r.challenges.records[k]], op, now) && SessionSweep.Knows(i.table, k)
    requires var sessions := Sessions.CreateForChallenge(r.sessions, now, EntryOf(cfg, r.challenges, op, k, now).record).0;
             SessionsAgree(sessions, i.table, used', given, now) && SweptAt(sessions, now)
    ensures var (r', a), (i', b) := RealEntry(cfg, r, op, k, now), IdealEntry(cfg, i, op, k, now);
            Keeps(r', i', op, used', given, now, Entered(a), Entered(b))
  {
    var Entry(x, record) := EntryOf(cfg, r.challenges, op, k, now);
    RetryAnswers(cfg, r, i, op, k, used', now);
    var reply := if AnswersRetry(x, op.p, now) then IdealFound(i.table, x.redeemedSessionId) else None;
    RetryKeeps(r.challenges, i, Sessions.CreateForChallenge(r.sessions, now, record).0, reply, op, used', given, now);
  }

  /** A login for a challenge whose session is known changes nothing the table could tell. */
  lemma RetrySessions(cfg: Config, s: Sessions.Store, t: Table, x: Challenges.Challenge, op: Op, used: set<string>, used': set<string>,
                      given: set<string>, now: int)
    requires SessionsAgree(s, t, used, given, now) && SessionSweep.Knows(t, x.challengeId) && op.Complete? && op.d.Allow?
    requires now > 0 && cfg.sessionTtl >= 0
    requires used <= used' && {op.ids.sessionId, op.ids.accessToken, op.ids.refreshToken} <= used' - used && op.ids.refreshToken != ""
    ensures var after := Sessions.CreateForChallenge(s, now, NewSession(cfg, x, op.p, now, op.d, op.ids)).0;
            SessionsAgree(after, t, used', given, now) && SweptAt(after, now)
  {
    var record := NewSession(cfg, x, op.p, now, op.d, op.ids);
    EnteringRecord(cfg, x, op, now, used, used');
    LoginAgrees(cfg, s, t, record, used, used', given, now);
    assert SessionSweep.Noted(t, record) == t && given + HandedFirst(t, record) == given;
  }

  lemma RetryAgrees(cfg: Config, r: Real, i: Ideal, op: Op, k: string, used: set<string>, used': set<string>, given: set<string>, now: int)
    requires Agree(r, i, used, given, now) && op.Complete? && k in r.challenges.records && now > 0
    requires cfg.resultCacheTtl >= 0 && cfg.sessionTtl >= 0 && Sensible(i, op, used, used', given)
    requires Enters(cfg, r.challenges.objs[r.challenges.records[k]], op, now) && SessionSweep.Knows(i.table, k)
    ensures var (r', a), (i', b) := RealEntry(cfg, r, op, k, now), IdealEntry(cfg, i, op, k, now);
            Keeps(r', i', op, used', given, now, Entered(a), Entered(b))
  {
    var Entry(x, record) := EntryOf(cfg, r.challenges, op, k, now);
    assert x.challengeId == k;
    RetrySessions(cfg, r.sessions, i.table, x, op, used, used', given, now);
    RetryAfterLogin(cfg, r, i, op, k, used', given, now);
  }

  lemma RetryHandsNothingNew(found: Option<Sessions.Session>, t: Table, given: set<string>, op: Op)
    requires forall k <- t :: HoldsAll(given, t[k])
    requires found.Some? ==> exists k :: k in t && found.value == t[k]
    ensures given + HandedBy(op, Entered(found)) == given == given + HandedBy(op, Entered(None))
  {
  }

  // ------------------------------------------------------- completions that do not enter

  lemma AgreeLater(r: Real, i: Ideal, used: set<string>, used': set<string>, given: set<string>, now: int, later: int)
    requires Agree(r, i, used, given, now) && used <= used' && now <= later && later > 0
    ensures Agree(r, i, used', given, later)
  {
    SessionSweep.StaysSim(r.sessions, i.table, used, later);
    SessionSweep.EffectSims(r.sessions, i.table, SessionSweep.NoEffect, later, used, used');
    ChallengeSweep.SimLater(r.challenges, i.challenges, now, later);
  }

  /** What a completion that does not enter makes of the record. */
  function Turned(cfg: Config, x: Challenges.Challenge, op: Op, now: int): Challenges.Challenge
    requires op.Complete?
  {
    if Judge(cfg, op.p, now, x).RejectAndCount? then ChallengeSweep.Failed(cfg, x) else x
  }

  lemma TurnedIs(cfg: Config, r: Real, i: Ideal, op: Op, now: int)
    requires Closed(r) && ChallengeSweep.Sim(r.challenges, i.challenges, now) && op.Complete?
    ensures var k := op.p.challengeId;
            k in r.challenges.records ==>
              var x := r.challenges.objs[r.challenges.records[k]];
              !Enters(cfg, x, op, now) ==>
                && RealComplete(cfg, r, op, now) == (r.(challenges := Challenges.Update(r.challenges, k, Turned(cfg, x, op, now))), None)
                && IdealComplete(cfg, i, op, now) == (i.(challenges := Challenges.Update(i.challenges, k, Turned(cfg, x, op, now))), None)
  {
    var k := op.p.challengeId;
    if k in r.challenges.records {
      var x, p := r.challenges.objs[r.challenges.records[k]], RedemptionFor(cfg, op, "", now);
      ChallengeSweep.SameUpdates(cfg, r.challenges, k, p);
      ChallengeSweep.SameUpdates(cfg, i.challenges, k, p);
      assert Challenges.Update(r.challenges, k, x) == r.challenges && Challenges.Update(i.challenges, k, x) == i.challenges;
    }
  }

  lemma TurnedAwayChallenges(cfg: Config, a: Challenges.Store, b: Challenges.Store, t: Table, op: Op, k: string, now: int)
    requires ChallengesAgree(a, b, t, now) && op.Complete? && k in a.records && k in b.records
    ensures var y := Turned(cfg, a.objs[a.records[k]], op, now);
            && Challenges.Closed(Challenges.Update(a, k, y)) && Challenges.Closed(Challenges.Update(b, k, y))
            && ChallengesAgree(Challenges.Update(a, k, y), Challenges.Update(b, k, y), t, now)
  {
    var y := Turned(cfg, a.objs[a.records[k]], op, now);
    ChallengeSweep.UpdateAgrees(a, b, now, k, y);
    LinkSame(b, t, k, y);
  }

  lemma TurnedAwayAgrees(cfg: Config, r: Real, i: Ideal, op: Op, used: set<string>, used': set<string>, given: set<string>, now: int)
    requires Agree(r, i, used, given, now) && op.Complete? && op.p.challengeId in r.challenges.records && now > 0
    requires Sensible(i, op, used, used', given) && !Enters(cfg, r.challenges.objs[r.challenges.records[op.p.challengeId]], op, now)
    ensures var (r', a), (i', b) := RealComplete(cfg, r, op, now), IdealComplete(cfg, i, op, now);
            Keeps(r', i', op, used', given, now, Entered(a), Entered(b))
  {
    TurnedIs(cfg, r, i, op, now);
    AgreeLater(r, i, used, used', given, now, now);
    TurnedAwayChallenges(cfg, r.challenges, i.challenges, i.table, op, op.p.challengeId, now);
    assert given + {} == given;
  }

  /** A record only the unforgetting side still holds answers nothing, and the session made for it is long known. */
  lemma GoneAgrees(cfg: Config, i: Ideal, op: Op, now: int)
    requires ChallengeSweep.Keyed(i.challenges) && Linked(i.challenges, i.table) && op.Complete? && now > 0 && cfg.resultCacheTtl >= 0
    requires var k := op.p.challengeId;
             k in i.challenges.records ==> ChallengeSweep.Gone(i.challenges.objs[i.challenges.records[k]], now)
    ensures IdealComplete(cfg, i, op, now) == (i, None)
  {
    var k := op.p.challengeId;
    if k in i.challenges.records {
      var x := i.challenges.objs[i.challenges.records[k]];
      ChallengeSweep.SameUpdates(cfg, i.challenges, k, RedemptionFor(cfg, op, "", now));
      assert Challenges.Update(i.challenges, k, x) == i.challenges;
      if Enters(cfg, x, op, now) {
        LinkedKnows(i.challenges, i.table, k);
        IdealRetry(cfg, i, op, k, now);
      }
    }
  }

  lemma CompleteAgrees(cfg: Config, r: Real, i: Ideal, op: Op, used: set<string>, used': set<string>, given: set<string>, now: int)
    requires Agree(r, i, used, given, now) && op.Complete? && Sensible(i, op, used, used', given)
    requires now > 0 && cfg.resultCacheTtl >= 0 && cfg.sessionTtl >= 0
    ensures var (r', a), (i', b) := RealComplete(cfg, r, op, now), IdealComplete(cfg, i, op, now);
            Keeps(r', i', op, used', given, now, Entered(a), Entered(b))
  {
    var k := op.p.challengeId;
    if k !in r.challenges.records {
      GoneAgrees(cfg, i, op, now);
      AgreeLater(r, i, used, used', given, now, now);
      assert given + {} == given;
    } else if !Enters(cfg, r.challenges.objs[r.challenges.records[k]], op, now) {
      TurnedAwayAgrees(cfg, r, i, op, used, used', given, now);
    } else if SessionSweep.Knows(i.table, k) {
      RetryAgrees(cfg, r, i, op, k, used, used', given, now);
    } else {
      FirstEntryAgrees(cfg, r, i, op, k, used, used', given, now);
    }
  }

  // ------------------------------------------------- requests, refreshes and revocations

  lemma HolderIsKnown(s: Sessions.Store, t: Table, used: set<string>, given: set<string>, token: string, r: Sessions.Ref)
    requires Sessions.Closed(s) && Handed(s, t, used, given) && Sessions.Live(s, r) && KnownSession(s.objs[r], used)
    requires token in AllTokens(s.objs[r]) && (token in given || token !in used)
    ensures s.objs[r].sessionId in t
  {
    var k := s.objs[r].sessionId;
    assert k in s.byId && s.byId[k] == r;
  }

  lemma RefreshHolder(s: Sessions.Store, token: string)
    requires Sessions.Indexed(s) && token in s.byRefresh
    ensures Sessions.Live(s, s.byRefresh[token]) && token in AllTokens(s.objs[s.byRefresh[token]])
  {
    assert Sessions.HoldsRefresh(s.objs[s.byRefresh[token]], token);
  }

  /** No token an operation presents is an orphan's: clients were only given the table's. */
  lemma PresentedTokensAreKnown(s: Sessions.Store, t: Table, used: set<string>, given: set<string>, sop: SessionSweep.Op)
    requires SessionInv(s, used) && Handed(s, t, used, given) && Presents(sop, used, given)
    ensures SessionSweep.Presentable(s, t, sop)
  {
    if sop.Load? && sop.token in s.byAccess {
      HolderIsKnown(s, t, used, given, sop.token, s.byAccess[sop.token]);
    }
    if sop.Refresh? && sop.token in s.byRefresh {
      RefreshHolder(s, sop.token);
      HolderIsKnown(s, t, used, given, sop.token, s.byRefresh[sop.token]);
    }
  }

  predicate RenewsId(e: SessionSweep.Effect, k: string) {
    e.Renew? && e.id == k
  }

  lemma EffectKeepsIndex(s: Sessions.Store, e: SessionSweep.Effect, now: int)
    requires Sessions.Closed(s)
    ensures Apply(s, SessionSweep.OpOf(e, now)).byId == s.byId && Apply(s, SessionSweep.OpOf(e, now)).lastSweptAt == s.lastSweptAt
  {
  }

  /** A record that a step renews or revokes is kept as long as before, and has new tokens only by the renewal. */
  lemma RenewalFrame(x: Sessions.Session, y: Sessions.Session, e: SessionSweep.Effect, now: int, at: int)
    requires Renews(x, y, SessionSweep.OpOf(e, now)) && at <= now && at <= Sessions.RetainUntil(x) && (e.Renew? ==> now <= e.p.expiresAt)
    ensures at <= Sessions.RetainUntil(y)
    ensures !RenewsId(e, x.sessionId) ==> AllTokens(y) == AllTokens(x)
  {
  }

  ghost predicate Framed(s: Sessions.Store, s': Sessions.Store, t: Table)
    requires Sessions.Closed(s)
  {
    && Sessions.Closed(s')
    && (forall k <- s'.byId | k !in t :: k in s.byId && AllTokens(s'.objs[s'.byId[k]]) == AllTokens(s.objs[s.byId[k]]))
  }

  lemma EffectFrame(s: Sessions.Store, t: Table, e: SessionSweep.Effect, now: int, used: set<string>, used': set<string>)
    requires SessionInv(s, used) && OpFresh(SessionSweep.OpOf(e, now), used, used') && Kept(s, now)
    requires e.Renew? ==> now <= e.p.expiresAt && e.id in t
    ensures var s' := Apply(s, SessionSweep.OpOf(e, now)); Framed(s, s', t) && Kept(s', now)
  {
    var op, s' := SessionSweep.OpOf(e, now), Apply(s, SessionSweep.OpOf(e, now));
    ApplyKeepsIndexed(s, op, used, used');
    ApplyAges(s, op, used, used');
    EffectKeepsIndex(s, e, now);
    forall k <- s.byId
      ensures k !in t ==> AllTokens(s'.objs[s.byId[k]]) == AllTokens(s.objs[s.byId[k]])
      ensures s.lastSweptAt.Some? ==> s.lastSweptAt.value <= Sessions.RetainUntil(s'.objs[s.byId[k]])
    {
      var x, y := s.objs[s.byId[k]], s'.objs[s.byId[k]];
      assert Renews(x, y, op);
      RenewalFrame(x, y, e, now, if s.lastSweptAt.Some? then s.lastSweptAt.value else Min(now, Sessions.RetainUntil(x)));
    }
  }

  lemma RenewalIsNotInThePast(cfg: Config, sop: SessionSweep.Op, now: int, x: Sessions.Session)
    requires sop.Refresh? && cfg.sessionTtl >= 0
    ensures var e := SessionSweep.RefreshEffect(cfg, sop, now, x); e.Renew? ==> e.id == x.sessionId && now <= e.p.expiresAt
  {
  }

  lemma RefreshFrame(cfg: Config, s: Sessions.Store, t: Table, used: set<string>, used': set<string>, sop: SessionSweep.Op, now: int)
    requires Sessions.Closed(s) && SessionSweep.Presentable(s, t, sop) && sop.Refresh? && sop.token in s.byRefresh
    requires SessionSweep.Fresh(sop, used, used') && now > 0 && cfg.sessionTtl >= 0
    ensures var e := StoreEffect(cfg, s, sop, now);
            OpFresh(SessionSweep.OpOf(e, now), used, used') && (e.Renew? ==> now <= e.p.expiresAt && e.id in t)
  {
    var x := s.objs[s.byRefresh[sop.token]];
    assert StoreEffect(cfg, s, sop, now) == SessionSweep.RefreshEffect(cfg, sop, now, x);
    SessionSweep.RefreshEffectIsFresh(cfg, sop, now, x, used, used');
    RenewalIsNotInThePast(cfg, sop, now, x);
  }

  /** The store's side of an operation: what was kept stays kept, and only a session of the table gets new tokens. */
  lemma StoreFrame(cfg: Config, s: Sessions.Store, t: Table, used: set<string>, used': set<string>, sop: SessionSweep.Op, now: int)
    requires SessionInv(s, used) && Kept(s, now) && SessionSweep.Presentable(s, t, sop)
    requires !sop.Login? && SessionSweep.Fresh(sop, used, used') && now > 0 && cfg.sessionTtl >= 0
    ensures var s' := SessionSweep.StoreStep(cfg, s, sop, now).0; Framed(s, s', t) && Kept(s', now)
  {
    if sop.Load? {
      SweepKeeps(s, now);
    } else {
      if sop.Refresh? && sop.token in s.byRefresh {
        RefreshFrame(cfg, s, t, used, used', sop, now);
      }
      StepIsEffect(cfg, s, sop, now);
      EffectFrame(s, t, StoreEffect(cfg, s, sop, now), now, used, used');
    }
  }

  lemma StepIsEffect(cfg: Config, s: Sessions.Store, sop: SessionSweep.Op, now: int)
    requires Sessions.Closed(s) && !sop.Login? && !sop.Load?
    ensures SessionSweep.StoreStep(cfg, s, sop, now).0 == Apply(s, SessionSweep.OpOf(StoreEffect(cfg, s, sop, now), now))
  {
  }

  /** What an operation that does not sweep does to the store. */
  ghost function StoreEffect(cfg: Config, s: Sessions.Store, sop: SessionSweep.Op, now: int): SessionSweep.Effect
    requires Sessions.Closed(s) && !sop.Login? && !sop.Load?
  {
    match sop
    case Refresh(token, _, _, _) =>
      if token in s.byRefresh then SessionSweep.RefreshEffect(cfg, sop, now, s.objs[s.byRefresh[token]]) else SessionSweep.NoEffect
    case LogOut(id) => SessionSweep.RevokeOne(id)
    case RevokeAll(pubkey) => SessionSweep.RevokeMany(pubkey)
  }

  ghost predicate TableFramed(t: Table, t': Table, handed: set<string>) {
    && t'.Keys == t.Keys
    && (forall k <- t :: t'[k].challengeId == t[k].challengeId)
    && (forall k <- t :: Tokens(t'[k]) <= Tokens(t[k]) + handed)
  }

  lemma TableEffectFrame(t: Table, e: SessionSweep.Effect, now: int, handed: set<string>)
    requires e.Renew? ==> {e.p.accessToken, e.p.refreshToken} <= handed
    ensures TableFramed(t, SessionSweep.TableApply(t, e, now), handed)
  {
  }

  lemma TableRefreshFrame(cfg: Config, t: Table, sop: SessionSweep.Op, now: int, k: string)
    requires sop.Refresh? && k in t
    ensures var e := SessionSweep.RefreshEffect(cfg, sop, now, t[k]);
            TableFramed(t, SessionSweep.TableApply(t, e, now), HandedBy(Serve(sop), Served(e.Renew?)))
  {
    var e := SessionSweep.RefreshEffect(cfg, sop, now, t[k]);
    TableEffectFrame(t, e, now, HandedBy(Serve(sop), Served(e.Renew?)));
  }

  /** The table's side: the same sessions for the same challenges, and new tokens only those the answer hands out. */
  lemma TableFrame(cfg: Config, t: Table, sop: SessionSweep.Op, now: int)
    requires !sop.Login?
    ensures var (t', ok) := SessionSweep.TableStep(cfg, t, sop, now); TableFramed(t, t', HandedBy(Serve(sop), Served(ok)))
  {
    match sop
    case Refresh(token, _, _, _) =>
      forall k | SessionSweep.HoldsToken(t, k, token)
        ensures var e := SessionSweep.RefreshEffect(cfg, sop, now, t[k]);
                TableFramed(t, SessionSweep.TableApply(t, e, now), HandedBy(Serve(sop), Served(e.Renew?)))
      {
        TableRefreshFrame(cfg, t, sop, now, k);
      }
    case LogOut(id) => TableEffectFrame(t, SessionSweep.RevokeOne(id), now, {});
    case RevokeAll(pubkey) => TableEffectFrame(t, SessionSweep.RevokeMany(pubkey), now, {});
    case Load(_) =>
  }

  lemma FramedLinks(b: Challenges.Store, t: Table, t': Table, handed: set<string>)
    requires Linked(b, t) && TableFramed(t, t', handed)
    ensures Linked(b, t')
  {
    forall k <- t' ensures t'[k].challengeId in b.records && b.objs[b.records[t'[k].challengeId]].redeemedSessionId == Some(k) {
      assert k in t;
    }
    forall k <- b.records | b.objs[b.records[k]].redeemedSessionId.Some?
      ensures Redeems(t', b.objs[b.records[k]].redeemedSessionId.value, k)
    {
      assert Redeems(t, b.objs[b.records[k]].redeemedSessionId.value, k);
    }
  }

  lemma FramedHands(s: Sessions.Store, s': Sessions.Store, t: Table, t': Table, used: set<string>, used': set<string>, given: set<string>, handed: set<string>)
    requires Sessions.Closed(s) && Framed(s, s', t) && TableFramed(t, t', handed) && Handed(s, t, used, given)
    requires used <= used' && handed <= used' - used
    requires forall k <- s.byId :: AllTokens(s.objs[s.byId[k]]) <= used
    ensures Handed(s', t', used', given + handed)
  {
    forall k <- s'.byId | k !in t' ensures HoldsNone(given + handed, s'.objs[s'.byId[k]]) {
      assert k in s.byId && AllTokens(s.objs[s.byId[k]]) <= used;
    }
    forall k <- t' ensures HoldsAll(given + handed, t'[k]) {
      assert k in t;
    }
  }

  lemma ServeHands(cfg: Config, s: Sessions.Store, t: Table, sop: SessionSweep.Op, used: set<string>, used': set<string>, given: set<string>, now: int)
    requires SessionInv(s, used) && Handed(s, t, used, given) && !sop.Login? && SessionSweep.Fresh(sop, used, used')
    requires Framed(s, SessionSweep.StoreStep(cfg, s, sop, now).0, t)
    ensures var s', (t', b) := SessionSweep.StoreStep(cfg, s, sop, now).0, SessionSweep.TableStep(cfg, t, sop, now);
            Handed(s', t', used', given + HandedBy(Serve(sop), Served(b)))
  {
    TableFrame(cfg, t, sop, now);
    IndexedTokensAreUsed(s, used);
    var (t', b) := SessionSweep.TableStep(cfg, t, sop, now);
    FramedHands(s, SessionSweep.StoreStep(cfg, s, sop, now).0, t, t', used, used', given, HandedBy(Serve(sop), Served(b)));
  }

  lemma ServeSessions(cfg: Config, s: Sessions.Store, t: Table, sop: SessionSweep.Op, used: set<string>, used': set<string>, given: set<string>, now: int)
    requires SessionsAgree(s, t, used, given, now) && now > 0 && cfg.sessionTtl >= 0
    requires !sop.Login? && SessionSweep.Fresh(sop, used, used') && Presents(sop, used, given)
    ensures var (s', a), (t', b) := SessionSweep.StoreStep(cfg, s, sop, now), SessionSweep.TableStep(cfg, t, sop, now);
            a == b && SessionsAgree(s', t', used', given + HandedBy(Serve(sop), Served(b)), now)
  {
    PresentedTokensAreKnown(s, t, used, given, sop);
    SessionSweep.CallAgrees(cfg, s, t, used, used', sop, now);
    StoreFrame(cfg, s, t, used, used', sop, now);
    ServeHands(cfg, s, t, sop, used, used', given, now);
  }

  lemma ServeAgrees(cfg: Config, r: Real, i: Ideal, op: Op, used: set<string>, used': set<string>, given: set<string>, now: int)
    requires Agree(r, i, used, given, now) && op.Serve? && Sensible(i, op, used, used', given) && now > 0 && cfg.sessionTtl >= 0
    ensures var (s', a), (t', b) := SessionSweep.StoreStep(cfg, r.sessions, op.op, now), SessionSweep.TableStep(cfg, i.table, op.op, now);
            Keeps(r.(sessions := s'), i.(table := t'), op, used', given, now, Served(a), Served(b))
  {
    ServeSessions(cfg, r.sessions, i.table, op.op, used, used', given, now);
    TableFrame(cfg, i.table, op.op, now);
    var (t', ok) := SessionSweep.TableStep(cfg, i.table, op.op, now);
    FramedLinks(i.challenges, i.table, t', HandedBy(op, Served(ok)));
  }

  // ------------------------------------------------------------- issuing and expiring

  lemma InsertLinks(b: Challenges.Store, t: Table, record: Challenges.Challenge)
    requires Linked(b, t) && record.challengeId !in b.records && record.redeemedSessionId.None?
    ensures Challenges.Closed(ChallengeSweep.Insert(b, record)) && Linked(ChallengeSweep.Insert(b, record), t)
  {
    var b' := ChallengeSweep.Insert(b, record);
    forall k <- b'.records | b'.objs[b'.records[k]].redeemedSessionId.Some?
      ensures Redeems(t, b'.objs[b'.records[k]].redeemedSessionId.value, k)
    {
      assert k in b.records;
    }
  }

  lemma InsertAgrees(a: Challenges.Store, b: Challenges.Store, record: Challenges.Challenge, now: int)
    requires ChallengeSweep.Sim(a, b, now) && record.challengeId !in b.records && ChallengeSweep.Tidy(record)
    ensures ChallengeSweep.Sim(ChallengeSweep.Insert(a, record), ChallengeSweep.Insert(b, record), now)
  {
    var a', b' := ChallengeSweep.Insert(a, record), ChallengeSweep.Insert(b, record);
    forall k <- a'.records ensures k in b'.records && b'.objs[b'.records[k]] == a'.objs[a'.records[k]] {
      assert k != record.challengeId ==> k in a.records;
    }
  }

  lemma CapsAgree(cfg: Config, a: Challenges.Store, b: Challenges.Store, npub: string, ip: Option<string>, now: int)
    requires ChallengeSweep.Sim(a, b, now)
    ensures CapExceeded(cfg, a, npub, ip, now) == CapExceeded(cfg, b, npub, ip, now)
  {
    ChallengeSweep.CountAgrees(a, b, NpubFilter(npub, ip, now));
    ChallengeSweep.CountAgrees(a, b, IpFilter(ip, now));
  }

  lemma IssuedChallenges(sweeps: bool, a: Challenges.Store, b: Challenges.Store, t: Table, record: Challenges.Challenge, now: int)
    requires ChallengesAgree(a, b, t, now) && record.challengeId !in b.records
    requires ChallengeSweep.Tidy(record) && record.redeemedSessionId.None?
    ensures ChallengesAgree(Filed(sweeps, a, record, now), ChallengeSweep.Insert(b, record), t, now)
  {
    InsertLinks(b, t, record);
    if sweeps {
      ChallengeSweep.IssueAgrees(a, b, record, now);
    } else {
      InsertAgrees(a, b, record, now);
    }
  }

  lemma InitAgrees(cfg: Config, sweeps: bool, r: Real, i: Ideal, op: Op, used: set<string>, used': set<string>, given: set<string>, now: int)
    requires Agree(r, i, used, given, now) && op.Init? && Sensible(i, op, used, used', given) && now > 0
    ensures var (r', a), (i', b) := RealInit(cfg, sweeps, r, op, now), IdealInit(cfg, i, op, now);
            Keeps(r', i', op, used', given, now, a, b)
  {
    AgreeLater(r, i, used, used', given, now, now);
    CapsAgree(cfg, r.challenges, i.challenges, op.npub, op.ip, now);
    IssuedChallenges(sweeps, r.challenges, i.challenges, i.table, Requested(cfg, op, now), now);
    assert given + {} == given;
  }

  lemma ExpiryLinks(b: Challenges.Store, t: Table, now: int)
    requires ChallengeSweep.Keyed(b) && Linked(b, t)
    ensures Challenges.Closed(Challenges.MarkExpired(b, now)) && Linked(Challenges.MarkExpired(b, now), t)
  {
    var b' := Challenges.MarkExpired(b, now);
    forall k <- b.records ensures b'.objs[b'.records[k]].redeemedSessionId == b.objs[b.records[k]].redeemedSessionId {
      ChallengeSweep.ExpireEntries(b, now, k);
    }
  }

  lemma ExpireAgrees(r: Real, i: Ideal, op: Op, used: set<string>, used': set<string>, given: set<string>, now: int)
    requires Agree(r, i, used, given, now) && op.Expire? && used <= used' && now > 0
    ensures Keeps(r.(challenges := Challenges.MarkExpired(r.challenges, now)), i.(challenges := Challenges.MarkExpired(i.challenges, now)),
                  op, used', given, now, Silent, Silent)
  {
    AgreeLater(r, i, used, used', given, now, now);
    ChallengeSweep.ExpireAgrees(r.challenges, i.challenges, now);
    ExpiryLinks(i.challenges, i.table, now);
    assert given + {} == given;
  }

  // --------------------------------------------------------------------- whole runs

  lemma StepAgrees(cfg: Config, sweeps: bool, r: Real, i: Ideal, op: Op, used: set<string>, used': set<string>, given: set<string>, now: int)
    requires Agree(r, i, used, given, now) && Sensible(i, op, used, used', given)
    requires now > 0 && cfg.resultCacheTtl >= 0 && cfg.sessionTtl >= 0
    ensures var (r', a), (i', b) := RealStep(cfg, sweeps, r, op, now), IdealStep(cfg, i, op, now);
            Keeps(r', i', op, used', given, now, a, b)
  {
    match op
    case Init(_, _, _, _, _, _) => InitAgrees(cfg, sweeps, r, i, op, used, used', given, now);
    case Complete(_, _, _) => CompleteAgrees(cfg, r, i, op, used, used', given, now);
    case Count(npub, ip) =>
      AgreeLater(r, i, used, used', given, now, now);
      ChallengeSweep.CountAgrees(r.challenges, i.challenges, Challenges.Filter(npub, ip, now));
      assert given + {} == given;
    case Expire => ExpireAgrees(r, i, op, used, used', given, now);
    case Serve(_) => ServeAgrees(cfg, r, i, op, used, used', given, now);
  }

  /** One call: what it does, when, and the random values drawn once it is over. */
  datatype Call = Call(op: Op, now: int, used: set<string>)

  /** Calls on a shared clock with new ids, presenting only tokens that earlier answers handed out. */
  ghost predicate Workload(cfg: Config, i: Ideal, used: set<string>, given: set<string>, now: int, calls: seq<Call>)
    requires Challenges.Closed(i.challenges)
    decreases |calls|
  {
    calls == [] ||
    var c := calls[0];
    && now <= c.now && Sensible(i, c.op, used, c.used, given)
    && var (next, answer) := IdealStep(cfg, i, c.op, c.now);
       Challenges.Closed(next.challenges) && Workload(cfg, next, c.used, given + HandedBy(c.op, answer), c.now, calls[1..])
  }

  ghost function RealAnswers(cfg: Config, sweeps: bool, r: Real, calls: seq<Call>): seq<Answer>
    requires Closed(r)
    decreases |calls|
  {
    if calls == [] then [] else
      var (next, answer) := RealStep(cfg, sweeps, r, calls[0].op, calls[0].now);
      [answer] + if Closed(next) then RealAnswers(cfg, sweeps, next, calls[1..]) else []
  }

  ghost function IdealAnswers(cfg: Config, i: Ideal, calls: seq<Call>): seq<Answer>
    requires Challenges.Closed(i.challenges)
    decreases |calls|
  {
    if calls == [] then [] else
      var (next, answer) := IdealStep(cfg, i, calls[0].op, calls[0].now);
      [answer] + if Challenges.Closed(next.challenges) then IdealAnswers(cfg, next, calls[1..]) else []
  }

  /** The answers are those of the server that never forgets, each as the sweep leaves it. */
  ghost predicate SameButSwept(got: seq<Answer>, ideal: seq<Answer>, calls: seq<Call>) {
    && |got| == |ideal| == |calls|
    && forall j | 0 <= j < |calls| :: got[j] == Swept(ideal[j], calls[j].now)
  }

  lemma OneMoreSwept(got: seq<Answer>, ideal: seq<Answer>, calls: seq<Call>, a: Answer, b: Answer)
    requires calls != [] && SameButSwept(got, ideal, calls[1..]) && a == Swept(b, calls[0].now)
    ensures SameButSwept([a] + got, [b] + ideal, calls)
  {
    forall j | 0 < j < |calls| ensures ([a] + got)[j] == Swept(([b] + ideal)[j], calls[j].now) {
      assert calls[j] == calls[1..][j - 1];
    }
  }

  lemma {:induction false} SimulationHolds(cfg: Config, sweeps: bool, r: Real, i: Ideal, used: set<string>, given: set<string>, now: int, calls: seq<Call>)
    requires Agree(r, i, used, given, now) && Workload(cfg, i, used, given, now, calls)
    requires now > 0 && cfg.resultCacheTtl >= 0 && cfg.sessionTtl >= 0
    ensures SameButSwept(RealAnswers(cfg, sweeps, r, calls), IdealAnswers(cfg, i, calls), calls)
    decreases |calls|
  {
    if calls != [] {
      var c := calls[0];
      AgreeLater(r, i, used, used, given, now, c.now);
      StepAgrees(cfg, sweeps, r, i, c.op, used, c.used, given, c.now);
      var r', a := RealStep(cfg, sweeps, r, c.op, c.now).0, RealStep(cfg, sweeps, r, c.op, c.now).1;
      var i', b := IdealStep(cfg, i, c.op, c.now).0, IdealStep(cfg, i, c.op, c.now).1;
      SimulationHolds(cfg, sweeps, r', i', c.used, given + HandedBy(c.op, b), c.now, calls[1..]);
      OneMoreSwept(RealAnswers(cfg, sweeps, r', calls[1..]), IdealAnswers(cfg, i', calls[1..]), calls, a, b);
    }
  }

  const START := Real(Challenges.EMPTY, Sessions.EMPTY)
  const BLANK := Ideal(Challenges.EMPTY, map[])

  /** A completion is answered with a session past its retention bound. */
  predicate TooLate(answer: Answer, now: int) {
    answer.Entered? && answer.session.Some? && SessionSweep.Expired(answer.session.value, now)
  }

  lemma BlankAgrees(now: int)
    ensures Agree(START, BLANK, {}, {}, now)
  {
  }

  lemma SweptApart(got: seq<Answer>, ideal: seq<Answer>, calls: seq<Call>)
    requires SameButSwept(got, ideal, calls)
    ensures got == ideal <==> forall j | 0 <= j < |calls| :: !TooLate(ideal[j], calls[j].now)
  {
    forall j | 0 <= j < |calls| ensures got[j] == ideal[j] <==> !TooLate(ideal[j], calls[j].now) {
    }
  }

  /** Starting empty, and whether or not the challenge store sweeps, every call is answered as by the
      server that never forgets, tokens included, exactly when that answers no retry with a session past
      its retention bound; such a retry, and no other call, gets no session instead. */
  lemma SweepingIsInvisible(cfg: Config, sweeps: bool, now: int, calls: seq<Call>)
    requires now > 0 && cfg.resultCacheTtl >= 0 && cfg.sessionTtl >= 0 && Workload(cfg, BLANK, {}, {}, now, calls)
    ensures var got, ideal := RealAnswers(cfg, sweeps, START, calls), IdealAnswers(cfg, BLANK, calls);
            && SameButSwept(got, ideal, calls)
            && (got == ideal <==> forall j | 0 <= j < |calls| :: !TooLate(ideal[j], calls[j].now))
  {
    BlankAgrees(now);
    SimulationHolds(cfg, sweeps, START, BLANK, {}, {}, now, calls);
    SweptApart(RealAnswers(cfg, sweeps, START, calls), IdealAnswers(cfg, BLANK, calls), calls);
  }

  /** The same session store beside a challenge store that sweeps and one that never does: the extra
      sessions the latter leads to are seen by nobody. */
  lemma SweepingChallengesIsInvisible(cfg: Config, now: int, calls: seq<Call>)
    requires now > 0 && cfg.resultCacheTtl >= 0 && cfg.sessionTtl >= 0 && Workload(cfg, BLANK, {}, {}, now, calls)
    ensures RealAnswers(cfg, true, START, calls) == RealAnswers(cfg, false, START, calls)
  {
    SweepingIsInvisible(cfg, true, now, calls);
    SweepingIsInvisible(cfg, false, now, calls);
  }

  /** One call in front of a workload. */
  lemma CallThenRun(cfg: Config, i: Ideal, used: set<string>, given: set<string>, now: int, c: Call, rest: seq<Call>, next: Ideal, answer: Answer)
    requires Challenges.Closed(i.challenges) && Challenges.Closed(next.challenges)
    requires IdealStep(cfg, i, c.op, c.now) == (next, answer) && now <= c.now && Sensible(i, c.op, used, c.used, given)
    requires Workload(cfg, next, c.used, given + HandedBy(c.op, answer), c.now, rest)
    ensures Workload(cfg, i, used, given, now, [c] + rest)
    ensures IdealAnswers(cfg, i, [c] + rest) == [answer] + IdealAnswers(cfg, next, rest)
  {
    assert ([c] + rest)[1..] == rest;
  }
}
