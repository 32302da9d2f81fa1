/**
 * Sweeping sessions is invisible. With calls run one at a time, the store with its four
 * indexes and its lazy sweep lets in exactly the requests, and grants exactly the
 * refreshes, that one table which never forgets a session would.
 */
module SessionSweep {
  import opened Options
  import opened Sessions
  import opened Server
  import opened ServerInvariants

  /** Session id to session; nothing is ever removed. */
  type Table = map<string, Session>

  datatype Op =
    | Login(record: Session)
    | Load(token: string)
    | Refresh(token: string, d: Decision, accessToken: string, refreshToken: string)
    | LogOut(sessionId: string)
    | RevokeAll(pubkey: string)

  // ------------------------------------------------- what a refresh does to a session

  datatype Effect = NoEffect | RevokeOne(id: string) | RevokeMany(pubkey: string) | Renew(id: string, p: Rotation)

  function RefreshEffect(cfg: Config, op: Op, now: int, x: Session): Effect
    requires op.Refresh?
  {
    match JudgeRefresh(cfg, op.token, now, x)
    case Replayed => RevokeOne(x.sessionId)
    case Refused(_) => NoEffect
    case MayResolve =>
      if op.d.Allow?
      then Renew(x.sessionId, RotationFor(cfg, x, Resolving(op.token, 0, now), op.d, op.accessToken, op.refreshToken))
      else if op.d.revokeSessions then RevokeMany(x.pubkey) else NoEffect
  }

  // ----------------------------------------------------------------- the real store

  function OpOf(e: Effect, now: int): SessionOp {
    match e
    case NoEffect => KeepAll
    case RevokeOne(id) => DoRevoke(id, now)
    case RevokeMany(pubkey) => DoRevokeAll(pubkey, now)
    case Renew(id, p) => DoRotate(id, p)
  }

  /** One call at a time on the store; the answer says whether it was let in or refreshed. */
  ghost function StoreStep(cfg: Config, s: Store, op: Op, now: int): (Store, bool)
    requires Closed(s)
  {
    match op
    case Login(record) => (CreateForChallenge(s, now, record).0, false)
    case Load(token) =>
      var swept := Sweep(s, now);
      (swept, token in swept.byAccess && Acceptable(swept.objs[swept.byAccess[token]], now))
    case Refresh(token, _, _, _) =>
      if token !in s.byRefresh then (s, false)
      else
        var e := RefreshEffect(cfg, op, now, s.objs[s.byRefresh[token]]);
        (Apply(s, OpOf(e, now)), e.Renew? && Rotates(s, e.id, e.p))
    case LogOut(id) => (RevokeById(s, id, now), false)
    case RevokeAll(pubkey) => (RevokeByPrincipal(s, pubkey, now), false)
  }

  // ------------------------------------------------------------ the unforgetting table

  function RevokeEntry(x: Session, now: int): Session {
    x.(revokedAt := Some(now))
  }

  ghost function TableApply(t: Table, e: Effect, now: int): Table {
    match e
    case NoEffect => t
    case RevokeOne(id) => if id in t then t[id := RevokeEntry(t[id], now)] else t
    case RevokeMany(pubkey) =>
      map k | k in t :: if t[k].pubkey == pubkey && !Revoked(t[k]) then RevokeEntry(t[k], now) else t[k]
    case Renew(id, p) => if id in t then t[id := Rotated(t[id], p)] else t
  }

  ghost predicate HoldsAccess(t: Table, k: string, token: string) {
    k in t && t[k].accessToken == token
  }

  ghost predicate HoldsToken(t: Table, k: string, token: string) {
    k in t && HoldsRefresh(t[k], token)
  }

  ghost predicate Knows(t: Table, challengeId: string) {
    exists k <- t :: t[k].challengeId == challengeId
  }

  ghost function TableStep(cfg: Config, t: Table, op: Op, now: int): (Table, bool) {
    match op
    case Login(record) => (if Knows(t, record.challengeId) then t else t[record.sessionId := record], false)
    case Load(token) => (t, exists k :: HoldsAccess(t, k, token) && Acceptable(t[k], now))
    case Refresh(token, _, _, _) =>
      if exists k :: HoldsToken(t, k, token) then
        var k :| HoldsToken(t, k, token);
        var e := RefreshEffect(cfg, op, now, t[k]);
        (TableApply(t, e, now), e.Renew?)
      else (t, false)
    case LogOut(id) => (TableApply(t, RevokeOne(id), now), false)
    case RevokeAll(pubkey) => (TableApply(t, RevokeMany(pubkey), now), false)
  }

  // ------------------------------------------------------------------ the simulation

  predicate Expired(x: Session, now: int) {
    RetainUntil(x) < now
  }

  /** Everything the table or the store holds is keyed by its id, uses known tokens and shares none. */
  ghost predicate TableInv(t: Table, used: set<string>) {
    && (forall k <- t :: t[k].sessionId == k && KnownSession(t[k], used))
    && (forall j, k | j in t && k in t && j != k :: Disjoint(t[j], t[k]))
  }

  /** The store's entry under `k` is the table's. */
  ghost predicate Same(s: Store, t: Table, k: string)
    requires Closed(s)
  {
    k in s.byId && k in t && s.objs[s.byId[k]] == t[k]
  }

  /** A session the store made for a challenge whose session it had swept: a retried completion
      made it, its tokens were handed to nobody, and the table never heard of it. */
  ghost predicate Orphan(s: Store, t: Table, k: string)
    requires Closed(s)
  {
    && k in s.byId && k !in t
    && Knows(t, s.objs[s.byId[k]].challengeId)
    && (forall j <- t :: Disjoint(s.objs[s.byId[k]], t[j]))
  }

  ghost predicate Sim(s: Store, t: Table, used: set<string>, now: int) {
    && SessionInv(s, used) && TableInv(t, used)
    && (forall k <- s.byId :: Same(s, t, k) || Orphan(s, t, k))
    && (forall k <- t :: k in s.byId || Expired(t[k], now))
  }

  /** The token an operation presents is not an orphan's. */
  ghost predicate Presentable(s: Store, t: Table, op: Op)
    requires Closed(s)
  {
    match op
    case Load(token) => token in s.byAccess ==> s.objs[s.byAccess[token]].sessionId in t
    case Refresh(token, _, _, _) => token != "" && (token in s.byRefresh ==> s.objs[s.byRefresh[token]].sessionId in t)
    case _ => true
  }

  /** Ids and tokens an operation brings in are fresh. */
  predicate Fresh(op: Op, used: set<string>, used': set<string>) {
    && used <= used'
    && match op
       case Login(x) => KnownSession(x, used' - used) && x.previousRefreshToken.None? && x.revokedAt.None?
       case Refresh(_, _, a, r) => a in used' - used && r in used' - used && r != ""
       case _ => true
  }

  lemma SweepSims(s: Store, t: Table, used: set<string>, now: int, later: int)
    requires Sim(s, t, used, now) && now <= later
    ensures Sim(Sweep(s, later), t, used, later)
  {
    var swept := Sweep(s, later);
    ApplyKeepsInv(s, DoSweep(later), used, used);
    SweepKeepsIndexed(s, later);
    forall k <- swept.byId ensures Same(swept, t, k) || Orphan(swept, t, k) {
      assert Same(s, t, k) || Orphan(s, t, k);
    }
    forall k <- t ensures k in swept.byId || Expired(t[k], later) {
      if k in s.byId {
        assert Same(s, t, k);
      }
    }
  }

  // ---------------------------------------------------------------- one call agrees

  /** What the access index finds is what a search of the table finds, and the other way round. */
  lemma AccessAgrees(s: Store, t: Table, used: set<string>, now: int, token: string, k: string)
    requires Sim(s, t, used, now) && HoldsAccess(t, k, token)
    requires token in s.byAccess ==> s.objs[s.byAccess[token]].sessionId in t
    ensures token in s.byAccess ==> s.objs[s.byAccess[token]] == t[k]
    ensures token !in s.byAccess ==> Expired(t[k], now)
  {
    if k in s.byId {
      assert Same(s, t, k) && Live(s, s.byId[k]) && Reachable(s, s.byId[k]);
    }
    if token in s.byAccess {
      assert Live(s, s.byAccess[token]);
      assert Same(s, t, s.objs[s.byAccess[token]].sessionId);
    }
  }

  lemma RefreshAgrees(s: Store, t: Table, used: set<string>, now: int, token: string, k: string)
    requires Sim(s, t, used, now) && HoldsToken(t, k, token)
    requires token in s.byRefresh ==> s.objs[s.byRefresh[token]].sessionId in t
    ensures token in s.byRefresh ==> s.objs[s.byRefresh[token]] == t[k]
    ensures token !in s.byRefresh ==> k !in s.byId && Expired(t[k], now)
  {
    assert token in OwnRefreshKeys(t[k]);
    if k in s.byId {
      assert Same(s, t, k) && Live(s, s.byId[k]) && Reachable(s, s.byId[k]);
    }
    if token in s.byRefresh {
      var id := s.objs[s.byRefresh[token]].sessionId;
      assert Live(s, s.byRefresh[token]) && HoldsRefresh(s.objs[s.byRefresh[token]], token);
      assert Same(s, t, id) && token in OwnRefreshKeys(t[id]);
    }
  }

  lemma LoadAnswersAgree(cfg: Config, s: Store, t: Table, used: set<string>, token: string, now: int)
    requires Sim(s, t, used, now)
    requires token in s.byAccess ==> s.objs[s.byAccess[token]].sessionId in t
    ensures token in s.byAccess && Acceptable(s.objs[s.byAccess[token]], now)
            <==> exists k :: HoldsAccess(t, k, token) && Acceptable(t[k], now)
  {
    if token in s.byAccess {
      var id := s.objs[s.byAccess[token]].sessionId;
      assert Live(s, s.byAccess[token]) && Same(s, t, id) && HoldsAccess(t, id, token);
    }
    forall k | HoldsAccess(t, k, token) && Acceptable(t[k], now)
      ensures token in s.byAccess && Acceptable(s.objs[s.byAccess[token]], now)
    {
      AccessAgrees(s, t, used, now, token, k);
    }
  }

  lemma LoadAgrees(cfg: Config, s: Store, t: Table, used: set<string>, op: Op, now: int)
    requires Sim(s, t, used, now) && op.Load? && Presentable(s, t, op)
    ensures StoreStep(cfg, s, op, now).1 == TableStep(cfg, t, op, now).1
    ensures Sim(StoreStep(cfg, s, op, now).0, TableStep(cfg, t, op, now).0, used, now)
  {
    SweepSims(s, t, used, now, now);
    LoadAnswersAgree(cfg, Sweep(s, now), t, used, op.token, now);
  }

  // ------------------------------------------------------- effects keep the simulation

  /** The table changes entry by entry, and a renewal touches only the session that holds the token. */
  lemma TableEntries(t: Table, e: Effect, now: int, k: string)
    requires k in t && t[k].sessionId == k && now > 0
    requires e.Renew? && e.id in t ==> t[e.id].refreshToken == Some(e.p.expected)
    ensures TableApply(t, e, now).Keys == t.Keys
    ensures Renews(t[k], TableApply(t, e, now)[k], OpOf(e, now)) && Ages(t[k], TableApply(t, e, now)[k])
  {
  }

  lemma TableApplyKeepsInv(t: Table, e: Effect, now: int, used: set<string>, used': set<string>)
    requires TableInv(t, used) && OpFresh(OpOf(e, now), used, used') && now > 0
    requires e.Renew? && e.id in t ==> t[e.id].refreshToken == Some(e.p.expected)
    ensures TableInv(TableApply(t, e, now), used')
  {
    var t', op := TableApply(t, e, now), OpOf(e, now);
    forall k <- t' ensures t'[k].sessionId == k && KnownSession(t'[k], used') {
      TableEntries(t, e, now, k);
      RenewalStaysKnown(t[k], t'[k], op, used, used');
    }
    forall j, k | j in t' && k in t' && j != k ensures Disjoint(t'[j], t'[k]) {
      TableEntries(t, e, now, j);
      TableEntries(t, e, now, k);
      RenewalStaysDisjoint(t[j], t[k], t'[j], t'[k], op, used, used');
    }
  }

  /** A common entry goes through the same change on both sides. */
  lemma SameStaysSame(s: Store, t: Table, e: Effect, now: int, k: string)
    requires Indexed(s) && Same(s, t, k)
    requires e.Renew? && e.id in s.byId ==> s.objs[s.byId[e.id]].refreshToken == Some(e.p.expected)
    ensures Closed(Apply(s, OpOf(e, now))) && Same(Apply(s, OpOf(e, now)), TableApply(t, e, now), k)
  {
    assert s.objs[s.byId[k]].sessionId == k;
    if e.RevokeMany? {
      assert s.byId[k] in Held(s, s.byId.Keys, e.pubkey) <==> s.objs[s.byId[k]].pubkey == e.pubkey && !Revoked(s.objs[s.byId[k]]);
    }
  }

  lemma OrphanStaysOrphan(s: Store, t: Table, e: Effect, now: int, k: string, used: set<string>, used': set<string>)
    requires SessionInv(s, used) && TableInv(t, used) && Orphan(s, t, k) && now > 0
    requires OpFresh(OpOf(e, now), used, used')
    requires e.Renew? ==> e.id in t && e.id in s.byId && Rotates(s, e.id, e.p) && t[e.id].refreshToken == Some(e.p.expected)
    ensures Closed(Apply(s, OpOf(e, now))) && Orphan(Apply(s, OpOf(e, now)), TableApply(t, e, now), k)
  {
    var s', t', op := Apply(s, OpOf(e, now)), TableApply(t, e, now), OpOf(e, now);
    ApplyKeepsInv(s, op, used, used');
    ApplyAges(s, op, used, used');
    var x, x' := s.objs[s.byId[k]], s'.objs[s.byId[k]];
    assert Ages(x, x') && Renews(x, x', op) && KnownSession(x, used);
    var j0 :| j0 in t && t[j0].challengeId == x.challengeId;
    TableEntries(t, e, now, j0);
    assert t'[j0].challengeId == x'.challengeId;
    forall j <- t' ensures Disjoint(x', t'[j]) {
      TableEntries(t, e, now, j);
      assert Disjoint(x, t[j]) && KnownSession(t[j], used);
      RenewalStaysDisjoint(x, t[j], x', t'[j], op, used, used');
    }
  }

  lemma EffectKeepsExpired(s: Store, t: Table, e: Effect, now: int, used: set<string>, used': set<string>)
    requires Sim(s, t, used, now) && OpFresh(OpOf(e, now), used, used') && now > 0
    requires e.Renew? ==> e.id in s.byId && (e.id in t ==> t[e.id].refreshToken == Some(e.p.expected))
    ensures Apply(s, OpOf(e, now)).byId == s.byId
    ensures forall k <- TableApply(t, e, now) :: k in s.byId || Expired(TableApply(t, e, now)[k], now)
  {
    forall k <- TableApply(t, e, now) ensures k in s.byId || Expired(TableApply(t, e, now)[k], now) {
      TableEntries(t, e, now, k);
    }
  }

  lemma EffectSims(s: Store, t: Table, e: Effect, now: int, used: set<string>, used': set<string>)
    requires Sim(s, t, used, now) && OpFresh(OpOf(e, now), used, used') && now > 0
    requires e.Renew? ==> e.id in t && e.id in s.byId && Rotates(s, e.id, e.p) && t[e.id].refreshToken == Some(e.p.expected)
    ensures Closed(Apply(s, OpOf(e, now))) && Sim(Apply(s, OpOf(e, now)), TableApply(t, e, now), used', now)
  {
    var s', t' := Apply(s, OpOf(e, now)), TableApply(t, e, now);
    ApplyKeepsInv(s, OpOf(e, now), used, used');
    TableApplyKeepsInv(t, e, now, used, used');
    EffectKeepsExpired(s, t, e, now, used, used');
    forall k <- s'.byId ensures Same(s', t', k) || Orphan(s', t', k) {
      if Same(s, t, k) {
        SameStaysSame(s, t, e, now, k);
      } else {
        OrphanStaysOrphan(s, t, e, now, k, used, used');
      }
    }
  }

  lemma RefreshEffectIsFresh(cfg: Config, op: Op, now: int, x: Session, used: set<string>, used': set<string>)
    requires op.Refresh? && Fresh(op, used, used') && now > 0
    ensures OpFresh(OpOf(RefreshEffect(cfg, op, now, x), now), used, used')
    ensures var e := RefreshEffect(cfg, op, now, x);
            e.Renew? ==> e.id == x.sessionId && x.refreshToken == Some(e.p.expected) && !Expired(x, now)
  {
  }

  /** A session the store still finds under a refresh token is the table's, so both do the same to it. */
  lemma FoundRefreshSims(cfg: Config, s: Store, t: Table, used: set<string>, used': set<string>, op: Op, now: int, k: string)
    requires Sim(s, t, used, now) && op.Refresh? && Fresh(op, used, used') && now > 0
    requires HoldsToken(t, k, op.token) && Same(s, t, k)
    ensures var e := RefreshEffect(cfg, op, now, t[k]);
            && (e.Renew? ==> Rotates(s, e.id, e.p))
            && Closed(Apply(s, OpOf(e, now)))
            && Sim(Apply(s, OpOf(e, now)), TableApply(t, e, now), used', now)
  {
    RefreshEffectIsFresh(cfg, op, now, t[k], used, used');
    EffectSims(s, t, RefreshEffect(cfg, op, now, t[k]), now, used, used');
  }

  /** A session only the table still remembers has expired: no refresh of it succeeds. */
  lemma ForgottenRefreshSims(cfg: Config, s: Store, t: Table, used: set<string>, used': set<string>, op: Op, now: int, k: string)
    requires Sim(s, t, used, now) && op.Refresh? && Fresh(op, used, used') && now > 0
    requires HoldsToken(t, k, op.token) && k !in s.byId && Expired(t[k], now)
    ensures var e := RefreshEffect(cfg, op, now, t[k]);
            !e.Renew? && Sim(s, TableApply(t, e, now), used', now)
  {
    var e := RefreshEffect(cfg, op, now, t[k]);
    RefreshEffectIsFresh(cfg, op, now, t[k], used, used');
    assert e.NoEffect? || e == RevokeOne(k);
    EffectSims(s, t, e, now, used, used');
  }

  lemma FoundIsSame(s: Store, t: Table, used: set<string>, now: int, token: string, k: string)
    requires Sim(s, t, used, now) && HoldsToken(t, k, token) && token in s.byRefresh
    requires s.objs[s.byRefresh[token]].sessionId in t
    ensures Same(s, t, k) && s.byId[k] == s.byRefresh[token]
  {
    RefreshAgrees(s, t, used, now, token, k);
    assert Live(s, s.byRefresh[token]);
  }

  lemma RefreshOfHolder(cfg: Config, s: Store, t: Table, used: set<string>, used': set<string>, op: Op, now: int, k: string)
    requires Sim(s, t, used, now) && op.Refresh? && Presentable(s, t, op) && Fresh(op, used, used') && now > 0
    requires HoldsToken(t, k, op.token)
    ensures var (next, answer), e := StoreStep(cfg, s, op, now), RefreshEffect(cfg, op, now, t[k]);
            answer == e.Renew? && Closed(next) && Sim(next, TableApply(t, e, now), used', now)
  {
    RefreshAgrees(s, t, used, now, op.token, k);
    if op.token in s.byRefresh {
      FoundIsSame(s, t, used, now, op.token, k);
      FoundRefreshSims(cfg, s, t, used, used', op, now, k);
    } else {
      ForgottenRefreshSims(cfg, s, t, used, used', op, now, k);
    }
  }

  lemma RefreshCallAgrees(cfg: Config, s: Store, t: Table, used: set<string>, used': set<string>, op: Op, now: int)
    requires Sim(s, t, used, now) && op.Refresh? && Presentable(s, t, op) && Fresh(op, used, used') && now > 0
    ensures StoreStep(cfg, s, op, now).1 == TableStep(cfg, t, op, now).1
    ensures Closed(StoreStep(cfg, s, op, now).0)
    ensures Sim(StoreStep(cfg, s, op, now).0, TableStep(cfg, t, op, now).0, used', now)
  {
    if op.token in s.byRefresh {
      IndexedIsHeld(s, t, used, now, op);
    }
    if exists k :: HoldsToken(t, k, op.token) {
      forall k | HoldsToken(t, k, op.token)
        ensures var (next, answer), e := StoreStep(cfg, s, op, now), RefreshEffect(cfg, op, now, t[k]);
                answer == e.Renew? && Closed(next) && Sim(next, TableApply(t, e, now), used', now)
      {
        RefreshOfHolder(cfg, s, t, used, used', op, now, k);
      }
    } else {
      EffectSims(s, t, NoEffect, now, used, used');
    }
  }

  lemma IndexedIsHeld(s: Store, t: Table, used: set<string>, now: int, op: Op)
    requires Sim(s, t, used, now) && op.Refresh? && Presentable(s, t, op) && op.token in s.byRefresh
    ensures HoldsToken(t, s.objs[s.byRefresh[op.token]].sessionId, op.token)
  {
    var r := s.byRefresh[op.token];
    assert Live(s, r) && HoldsRefresh(s.objs[r], op.token);
    assert Same(s, t, s.objs[r].sessionId);
  }

  lemma TableAddKeepsInv(t: Table, record: Session, used: set<string>, used': set<string>)
    requires TableInv(t, used) && Fresh(Login(record), used, used')
    ensures record.sessionId !in t
    ensures forall k <- t :: Disjoint(record, t[k]) && Disjoint(t[k], record)
    ensures TableInv(t, used') && TableInv(t[record.sessionId := record], used')
  {
    var op := DoCreate(0, record);
    forall k <- t ensures k in used && KnownSession(t[k], used') && Disjoint(record, t[k]) && Disjoint(t[k], record) {
      RenewalStaysKnown(t[k], t[k], op, used, used');
      NewcomerIsDisjoint(t[k], t[k], op, used, used');
    }
  }

  /** The table after a login with this record. */
  ghost function Noted(t: Table, record: Session): Table {
    if Knows(t, record.challengeId) then t else t[record.sessionId := record]
  }

  lemma AddSims(s: Store, t: Table, record: Session, used: set<string>, used': set<string>, now: int)
    requires Sim(s, t, used, now) && Fresh(Login(record), used, used') && record.challengeId !in s.byChallenge
    ensures Closed(Add(s, record)) && Sim(Add(s, record), Noted(t, record), used', now)
  {
    var id, s', t' := record.sessionId, Add(s, record), Noted(t, record);
    AddKeepsSessionInv(s, record, used, used');
    TableAddKeepsInv(t, record, used, used');
    NewEntry(s, t, record);
    forall k <- s'.byId ensures Same(s', t', k) || Orphan(s', t', k) {
      if k != id {
        assert KnownSession(s.objs[s.byId[k]], used);
        NewcomerIsDisjoint(s.objs[s.byId[k]], s.objs[s.byId[k]], DoCreate(now, record), used, used');
        AddKeepsEntry(s, t, record, k);
      }
    }
  }

  lemma NewEntry(s: Store, t: Table, record: Session)
    requires Closed(s) && Closed(Add(s, record)) && record.sessionId !in t
    requires forall k <- t :: Disjoint(record, t[k])
    ensures Same(Add(s, record), Noted(t, record), record.sessionId) || Orphan(Add(s, record), Noted(t, record), record.sessionId)
  {
  }

  lemma AddKeepsSessionInv(s: Store, record: Session, used: set<string>, used': set<string>)
    requires SessionInv(s, used) && Fresh(Login(record), used, used') && record.challengeId !in s.byChallenge
    ensures SessionInv(Add(s, record), used')
  {
    IndexKeysAreUsed(s, used);
    AddKeepsIndexed(s, record);
    var s', n := Add(s, record), |s.objs|;
    var op := DoCreate(0, record);
    forall i | 0 <= i < |s'.objs| ensures KnownSession(s'.objs[i], used') {
      if i < n {
        RenewalStaysKnown(s.objs[i], s.objs[i], op, used, used');
      }
    }
    forall i, j | 0 <= i < |s'.objs| && 0 <= j < |s'.objs| && i != j ensures Disjoint(s'.objs[i], s'.objs[j]) {
      if i == n || j == n {
        var k := if i < n then i else j;
        NewcomerIsDisjoint(s.objs[k], s.objs[k], op, used, used');
      }
    }
  }

  lemma AddKeepsEntry(s: Store, t: Table, record: Session, k: string)
    requires Closed(s) && Closed(Add(s, record)) && record.sessionId !in t
    requires k in s.byId && k != record.sessionId && (Same(s, t, k) || Orphan(s, t, k))
    requires Orphan(s, t, k) ==> Disjoint(s.objs[s.byId[k]], record)
    ensures Same(Add(s, record), Noted(t, record), k) || Orphan(Add(s, record), Noted(t, record), k)
  {
    if Orphan(s, t, k) {
      var j :| j in t && t[j].challengeId == s.objs[s.byId[k]].challengeId;
      assert j in Noted(t, record) && Noted(t, record)[j] == t[j];
    }
  }

  lemma RepeatedLogin(s: Store, t: Table, used: set<string>, now: int, challengeId: string)
    requires Sim(s, t, used, now) && challengeId in s.byChallenge
    ensures Knows(t, challengeId)
  {
    var r := s.byChallenge[challengeId];
    assert Live(s, r);
    assert Same(s, t, s.objs[r].sessionId) || Orphan(s, t, s.objs[r].sessionId);
  }

  lemma LoginAgrees(cfg: Config, s: Store, t: Table, used: set<string>, used': set<string>, op: Op, now: int)
    requires Sim(s, t, used, now) && op.Login? && Fresh(op, used, used') && now > 0
    ensures Closed(StoreStep(cfg, s, op, now).0)
    ensures Sim(StoreStep(cfg, s, op, now).0, TableStep(cfg, t, op, now).0, used', now)
  {
    SweepSims(s, t, used, now, now);
    var swept := Sweep(s, now);
    if op.record.challengeId in swept.byChallenge {
      RepeatedLogin(swept, t, used, now, op.record.challengeId);
      EffectSims(swept, t, NoEffect, now, used, used');
    } else {
      AddSims(swept, t, op.record, used, used', now);
    }
  }

  // --------------------------------------------------------------------- whole runs

  /** One call: what it does, when, and the random values drawn once it is over. */
  datatype Call = Call(op: Op, now: int, used: set<string>)

  /** Calls on a shared clock, each with fresh tokens, none presenting an orphan's token. */
  ghost predicate Workload(cfg: Config, s: Store, t: Table, used: set<string>, now: int, calls: seq<Call>)
    requires Closed(s)
    decreases |calls|
  {
    calls == [] ||
    var c := calls[0];
    && now <= c.now && Fresh(c.op, used, c.used) && Presentable(s, t, c.op)
    && var next := StoreStep(cfg, s, c.op, c.now).0;
       Closed(next) && Workload(cfg, next, TableStep(cfg, t, c.op, c.now).0, c.used, c.now, calls[1..])
  }

  ghost function StoreAnswers(cfg: Config, s: Store, calls: seq<Call>): seq<bool>
    requires Closed(s)
    decreases |calls|
  {
    if calls == [] then [] else
      var (next, answer) := StoreStep(cfg, s, calls[0].op, calls[0].now);
      [answer] + if Closed(next) then StoreAnswers(cfg, next, calls[1..]) else []
  }

  ghost function TableAnswers(cfg: Config, t: Table, calls: seq<Call>): seq<bool>
    decreases |calls|
  {
    if calls == [] then [] else
      var (next, answer) := TableStep(cfg, t, calls[0].op, calls[0].now);
      [answer] + TableAnswers(cfg, next, calls[1..])
  }

  lemma StaysSim(s: Store, t: Table, used: set<string>, now: int)
    requires exists then' :: then' <= now && Sim(s, t, used, then')
    ensures Sim(s, t, used, now)
  {
  }

  lemma CallAgrees(cfg: Config, s: Store, t: Table, used: set<string>, used': set<string>, op: Op, now: int)
    requires Sim(s, t, used, now) && Fresh(op, used, used') && Presentable(s, t, op) && now > 0
    ensures StoreStep(cfg, s, op, now).1 == TableStep(cfg, t, op, now).1
    ensures Closed(StoreStep(cfg, s, op, now).0)
    ensures Sim(StoreStep(cfg, s, op, now).0, TableStep(cfg, t, op, now).0, used', now)
  {
    match op
    case Login(_) => LoginAgrees(cfg, s, t, used, used', op, now);
    case Load(_) =>
      LoadAgrees(cfg, s, t, used, op, now);
      EffectSims(Sweep(s, now), t, NoEffect, now, used, used');
    case Refresh(_, _, _, _) => RefreshCallAgrees(cfg, s, t, used, used', op, now);
    case LogOut(id) => EffectSims(s, t, RevokeOne(id), now, used, used');
    case RevokeAll(pubkey) => EffectSims(s, t, RevokeMany(pubkey), now, used, used');
  }

  lemma {:induction false} SimulationHolds(cfg: Config, s: Store, t: Table, used: set<string>, now: int, calls: seq<Call>)
    requires Sim(s, t, used, now) && now > 0 && Workload(cfg, s, t, used, now, calls)
    ensures StoreAnswers(cfg, s, calls) == TableAnswers(cfg, t, calls)
    decreases |calls|
  {
    if calls != [] {
      var c := calls[0];
      StaysSim(s, t, used, c.now);
      CallAgrees(cfg, s, t, used, c.used, c.op, c.now);
      SimulationHolds(cfg, StoreStep(cfg, s, c.op, c.now).0, TableStep(cfg, t, c.op, c.now).0, c.used, c.now, calls[1..]);
    }
  }

  /** Starting empty, every guarded request and every refresh of a sequential workload gets from the
      sweeping store the answer it would get from the table that never deletes. */
  lemma SweepingSessionsIsInvisible(cfg: Config, now: int, calls: seq<Call>)
    requires now > 0 && Workload(cfg, EMPTY, map[], {}, now, calls)
    ensures StoreAnswers(cfg, EMPTY, calls) == TableAnswers(cfg, map[], calls)
  {
    SimulationHolds(cfg, EMPTY, map[], {}, now, calls);
  }
}
