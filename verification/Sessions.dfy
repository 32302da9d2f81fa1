/**
 * The in-memory session store as a value: a heap of session records and the four
 * indexes over it. Records are never removed from the heap, because a call that
 * fetched one before a sweep still holds it afterwards; a `Ref` names one record.
 */
module Sessions {
  import opened Options

  type Ref = nat

  datatype Session = Session(
    sessionId: string,
    challengeId: string,
    accessToken: string,
    npub: string,
    pubkey: string,
    roles: seq<string>,
    permissions: seq<string>,
    issuedAt: int,
    expiresAt: int,
    stepUpToken: Option<string>,
    stepUpExpiresAt: Option<int>,
    refreshToken: Option<string>,
    refreshExpiresAt: Option<int>,
    previousRefreshToken: Option<string>,
    revokedAt: Option<int>)

  datatype Rotation = Rotation(
    expected: string,
    accessToken: string,
    refreshToken: string,
    expiresAt: int,
    refreshExpiresAt: int,
    roles: seq<string>,
    permissions: seq<string>)

  datatype Store = Store(
    objs: seq<Session>,
    byId: map<string, Ref>,
    byChallenge: map<string, Ref>,
    byAccess: map<string, Ref>,
    byRefresh: map<string, Ref>,
    lastSweptAt: Option<int>)

  const EMPTY := Store([], map[], map[], map[], map[], None)

  predicate Revoked(x: Session) {
    TruthyTime(x.revokedAt)
  }

  /** The instant up to which a record is worth keeping. */
  function RetainUntil(x: Session): int {
    Max(x.expiresAt, if x.refreshExpiresAt.Some? then x.refreshExpiresAt.value else 0)
  }

  /** Every index entry points into the heap. */
  ghost predicate Closed(s: Store) {
    && (forall k <- s.byId :: s.byId[k] < |s.objs|)
    && (forall k <- s.byChallenge :: s.byChallenge[k] < |s.objs|)
    && (forall k <- s.byAccess :: s.byAccess[k] < |s.objs|)
    && (forall k <- s.byRefresh :: s.byRefresh[k] < |s.objs|)
  }

  // ---------------------------------------------------------------- operations

  ghost function ChallengeKeys(s: Store, ids: set<string>): set<string>
    requires Closed(s) && ids <= s.byId.Keys
  {
    set k | k in ids :: s.objs[s.byId[k]].challengeId
  }

  ghost function AccessKeys(s: Store, ids: set<string>): set<string>
    requires Closed(s) && ids <= s.byId.Keys
  {
    set k | k in ids :: s.objs[s.byId[k]].accessToken
  }

  /** The tokens a record occupies in the refresh index: its current one and its predecessor. */
  function OwnRefreshKeys(x: Session): set<string> {
    (if Truthy(x.refreshToken) then {x.refreshToken.value} else {}) +
    (if Truthy(x.previousRefreshToken) then {x.previousRefreshToken.value} else {})
  }

  ghost function RefreshKeys(s: Store, ids: set<string>): set<string>
    requires Closed(s) && ids <= s.byId.Keys
  {
    set k, t | k in ids && t in OwnRefreshKeys(s.objs[s.byId[k]]) :: t
  }

  /** Drop the sessions with the given ids from all four indexes. */
  ghost function Remove(s: Store, ids: set<string>): Store
    requires Closed(s) && ids <= s.byId.Keys
  {
    s.(byId := s.byId - ids,
       byChallenge := s.byChallenge - ChallengeKeys(s, ids),
       byAccess := s.byAccess - AccessKeys(s, ids),
       byRefresh := s.byRefresh - RefreshKeys(s, ids))
  }

  /** What one sweep step does for the session indexed under `k`. */
  function Without(s: Store, k: string, x: Session): Store {
    s.(byId := s.byId - {k},
       byChallenge := s.byChallenge - {x.challengeId},
       byAccess := s.byAccess - {x.accessToken},
       byRefresh := s.byRefresh - OwnRefreshKeys(x))
  }

  lemma RemoveOneMore(s: Store, ids: set<string>, k: string)
    requires Closed(s) && ids <= s.byId.Keys && k in s.byId
    ensures Remove(s, ids + {k}) == Without(Remove(s, ids), k, s.objs[s.byId[k]])
  {
    var x := s.objs[s.byId[k]];
    assert ChallengeKeys(s, ids + {k}) == ChallengeKeys(s, ids) + {x.challengeId};
    assert AccessKeys(s, ids + {k}) == AccessKeys(s, ids) + {x.accessToken};
    assert RefreshKeys(s, ids + {k}) == RefreshKeys(s, ids) + OwnRefreshKeys(x);
    MinusTwice(s.byId, ids, {k});
    MinusTwice(s.byChallenge, ChallengeKeys(s, ids), {x.challengeId});
    MinusTwice(s.byAccess, AccessKeys(s, ids), {x.accessToken});
    MinusTwice(s.byRefresh, RefreshKeys(s, ids), OwnRefreshKeys(x));
  }

  lemma MinusTwice<V>(m: map<string, V>, a: set<string>, b: set<string>)
    ensures m - (a + b) == m - a - b
  {
  }

  lemma RemoveNone(s: Store)
    requires Closed(s)
    ensures Remove(s, {}) == s
  {
    assert ChallengeKeys(s, {}) == {} && AccessKeys(s, {}) == {} && RefreshKeys(s, {}) == {};
  }

  ghost function Stale(s: Store, now: int): set<string>
    requires Closed(s)
  {
    set k | k in s.byId && RetainUntil(s.objs[s.byId[k]]) < now
  }

  predicate SweepDue(lastSweptAt: Option<int>, now: int) {
    lastSweptAt.None? || lastSweptAt.value < now
  }

  ghost function Sweep(s: Store, now: int): (r: Store)
    requires Closed(s)
  {
    if SweepDue(s.lastSweptAt, now) then Remove(s.(lastSweptAt := Some(now)), Stale(s, now)) else s
  }

  ghost function Add(s: Store, record: Session): Store
    requires Closed(s)
  {
    var r := |s.objs|;
    Store(s.objs + [record],
          s.byId[record.sessionId := r],
          s.byChallenge[record.challengeId := r],
          s.byAccess[record.accessToken := r],
          if Truthy(record.refreshToken) then s.byRefresh[record.refreshToken.value := r] else s.byRefresh,
          s.lastSweptAt)
  }

  ghost function CreateForChallenge(s: Store, now: int, record: Session): (Store, Ref)
    requires Closed(s)
  {
    var swept := Sweep(s, now);
    if record.challengeId in swept.byChallenge then (swept, swept.byChallenge[record.challengeId])
    else (Add(swept, record), |swept.objs|)
  }

  function Lookup(index: map<string, Ref>, key: string): Option<Ref> {
    if key in index then Some(index[key]) else None
  }

  ghost function RevokeById(s: Store, sessionId: string, now: int): Store
    requires Closed(s)
  {
    if sessionId in s.byId then
      var r := s.byId[sessionId];
      s.(objs := s.objs[r := s.objs[r].(revokedAt := Some(now))])
    else s
  }

  /** The live, not yet revoked sessions of one principal among the given ids. */
  ghost function Held(s: Store, ids: set<string>, pubkey: string): set<Ref>
    requires Closed(s) && ids <= s.byId.Keys
  {
    set k | k in ids && s.objs[s.byId[k]].pubkey == pubkey && !Revoked(s.objs[s.byId[k]]) :: s.byId[k]
  }

  function RevokeRefs(objs: seq<Session>, refs: set<Ref>, now: int): (r: seq<Session>)
    ensures |r| == |objs|
  {
    seq(|objs|, i requires 0 <= i < |objs| => if i in refs then objs[i].(revokedAt := Some(now)) else objs[i])
  }

  ghost function RevokeByPrincipal(s: Store, pubkey: string, now: int): Store
    requires Closed(s)
  {
    s.(objs := RevokeRefs(s.objs, Held(s, s.byId.Keys, pubkey), now))
  }

  function Rotated(x: Session, p: Rotation): Session {
    x.(previousRefreshToken := x.refreshToken,
       refreshToken := Some(p.refreshToken),
       accessToken := p.accessToken,
       expiresAt := p.expiresAt,
       refreshExpiresAt := Some(p.refreshExpiresAt),
       roles := p.roles,
       permissions := p.permissions)
  }

  /** The compare-and-swap succeeds: the session is indexed and still holds the expected token. */
  ghost predicate Rotates(s: Store, sessionId: string, p: Rotation)
    requires Closed(s)
  {
    sessionId in s.byId && s.objs[s.byId[sessionId]].refreshToken == Some(p.expected)
  }

  ghost function Rotate(s: Store, sessionId: string, p: Rotation): Store
    requires Closed(s)
  {
    if !Rotates(s, sessionId, p) then s
    else
      var r := s.byId[sessionId];
      var x := s.objs[r];
      var kept := if Truthy(x.previousRefreshToken) then s.byRefresh - {x.previousRefreshToken.value} else s.byRefresh;
      s.(objs := s.objs[r := Rotated(x, p)],
         byAccess := (s.byAccess - {x.accessToken})[p.accessToken := r],
         byRefresh := kept[p.refreshToken := r])
  }

  // ------------------------------------------------- the indexes are exact views

  predicate Live(s: Store, r: Ref) {
    r < |s.objs| && s.objs[r].sessionId in s.byId && s.byId[s.objs[r].sessionId] == r
  }

  predicate HoldsRefresh(x: Session, token: string) {
    token != "" && (x.refreshToken == Some(token) || x.previousRefreshToken == Some(token))
  }

  /** An indexed session is reachable under each of its own keys. */
  ghost predicate Reachable(s: Store, r: Ref)
    requires r < |s.objs|
  {
    var x := s.objs[r];
    && Lookup(s.byChallenge, x.challengeId) == Some(r)
    && Lookup(s.byAccess, x.accessToken) == Some(r)
    && (Truthy(x.refreshToken) ==> Lookup(s.byRefresh, x.refreshToken.value) == Some(r))
    && (Truthy(x.previousRefreshToken) ==> Lookup(s.byRefresh, x.previousRefreshToken.value) == Some(r))
    && (Truthy(x.previousRefreshToken) ==> x.previousRefreshToken != x.refreshToken)
  }

  ghost predicate IdIndex(s: Store)
    requires Closed(s)
  {
    forall k <- s.byId :: s.objs[s.byId[k]].sessionId == k
  }

  ghost predicate ChallengeIndex(s: Store)
    requires Closed(s)
  {
    forall k <- s.byChallenge :: Live(s, s.byChallenge[k]) && s.objs[s.byChallenge[k]].challengeId == k
  }

  ghost predicate AccessIndex(s: Store)
    requires Closed(s)
  {
    forall k <- s.byAccess :: Live(s, s.byAccess[k]) && s.objs[s.byAccess[k]].accessToken == k
  }

  ghost predicate RefreshIndex(s: Store)
    requires Closed(s)
  {
    forall k <- s.byRefresh :: Live(s, s.byRefresh[k]) && HoldsRefresh(s.objs[s.byRefresh[k]], k)
  }

  /** No entry of any index leads anywhere but to the live session holding its key. */
  ghost predicate Sound(s: Store) {
    Closed(s) && IdIndex(s) && ChallengeIndex(s) && AccessIndex(s) && RefreshIndex(s)
  }

  /** All four indexes are views of one set of live sessions, and of nothing else. */
  ghost predicate Indexed(s: Store) {
    && Sound(s)
    && (forall r | 0 <= r < |s.objs| && Live(s, r) :: Reachable(s, r))
  }

  /** What `createSessionRecord` guarantees of a new record, given fresh random ids. */
  predicate FreshRecord(s: Store, x: Session) {
    && x.sessionId !in s.byId
    && x.accessToken !in s.byAccess
    && (x.refreshToken.Some? ==> x.refreshToken.value !in s.byRefresh)
    && x.previousRefreshToken.None?
  }

  /** Distinct live sessions share no key. */
  lemma LiveSessionsShareNoKey(s: Store, q: Ref, r: Ref)
    requires Indexed(s) && q < |s.objs| && r < |s.objs| && Live(s, q) && Live(s, r) && q != r
    ensures s.objs[q].challengeId != s.objs[r].challengeId && s.objs[q].accessToken != s.objs[r].accessToken
    ensures OwnRefreshKeys(s.objs[q]) !! OwnRefreshKeys(s.objs[r])
  {
    assert Reachable(s, q) && Reachable(s, r);
  }

  /** So dropping one leaves the others' entries alone. */
  lemma RemoveKeepsReachable(s: Store, ids: set<string>, r: Ref)
    requires Indexed(s) && ids <= s.byId.Keys
    requires r < |s.objs| && Live(s, r) && s.objs[r].sessionId !in ids
    ensures Reachable(Remove(s, ids), r)
  {
    assert Reachable(s, r);
    var x := s.objs[r];
    forall k | k in ids
      ensures s.objs[s.byId[k]].challengeId != x.challengeId && s.objs[s.byId[k]].accessToken != x.accessToken
      ensures OwnRefreshKeys(s.objs[s.byId[k]]) !! OwnRefreshKeys(x)
    {
      LiveSessionsShareNoKey(s, s.byId[k], r);
    }
    assert OwnRefreshKeys(x) !! RefreshKeys(s, ids);
  }

  lemma RemoveKeepsIndexed(s: Store, ids: set<string>)
    requires Indexed(s) && ids <= s.byId.Keys
    ensures Indexed(Remove(s, ids))
    ensures forall r | 0 <= r < |s.objs| :: Live(Remove(s, ids), r) <==> Live(s, r) && s.objs[r].sessionId !in ids
  {
    var t := Remove(s, ids);
    forall r | 0 <= r < |t.objs| && Live(t, r) ensures Reachable(t, r) {
      RemoveKeepsReachable(s, ids, r);
    }
    forall key <- t.byRefresh ensures Live(t, t.byRefresh[key]) {
      RefreshKeyOwner(s, ids, key);
    }
  }

  lemma RefreshKeyOwner(s: Store, ids: set<string>, key: string)
    requires Indexed(s) && ids <= s.byId.Keys && key in s.byRefresh
    ensures key !in RefreshKeys(s, ids) ==> s.objs[s.byRefresh[key]].sessionId !in ids
  {
    var r := s.byRefresh[key];
    assert Live(s, r) && HoldsRefresh(s.objs[r], key) && key in OwnRefreshKeys(s.objs[r]);
  }

  lemma SweepKeepsIndexed(s: Store, now: int)
    requires Indexed(s)
    ensures Indexed(Sweep(s, now))
    ensures forall r | 0 <= r < |s.objs| :: Live(Sweep(s, now), r) ==> Live(s, r)
    ensures forall r | 0 <= r < |s.objs| && Live(s, r) && !Live(Sweep(s, now), r) :: RetainUntil(s.objs[r]) < now
  {
    var s1 := s.(lastSweptAt := Some(now));
    forall r | 0 <= r < |s.objs| && Live(s1, r) ensures Reachable(s1, r) {
      assert Live(s, r) && Reachable(s, r);
    }
    assert Indexed(s1);
    RemoveKeepsIndexed(s1, Stale(s, now));
  }

  lemma AddKeepsReachable(s: Store, record: Session, r: Ref)
    requires Indexed(s) && FreshRecord(s, record) && record.challengeId !in s.byChallenge
    requires r < |s.objs| && Live(s, r)
    ensures Reachable(Add(s, record), r)
  {
    assert Reachable(s, r);
  }

  lemma AddKeepsLive(s: Store, record: Session)
    requires Sound(s) && FreshRecord(s, record)
    ensures Closed(Add(s, record)) && Live(Add(s, record), |s.objs|)
    ensures forall r | 0 <= r < |s.objs| :: Live(Add(s, record), r) == Live(s, r)
  {
  }

  lemma AddKeepsAccessIndex(s: Store, record: Session)
    requires Sound(s) && FreshRecord(s, record) && Closed(Add(s, record))
    ensures AccessIndex(Add(s, record))
  {
    AddKeepsLive(s, record);
    var t := Add(s, record);
    forall k <- t.byAccess ensures Live(t, t.byAccess[k]) && t.objs[t.byAccess[k]].accessToken == k {
      assert k != record.accessToken ==> Live(s, s.byAccess[k]);
    }
  }

  lemma AddKeepsRefreshIndex(s: Store, record: Session)
    requires Sound(s) && FreshRecord(s, record) && Closed(Add(s, record))
    ensures RefreshIndex(Add(s, record))
  {
    AddKeepsLive(s, record);
    var t := Add(s, record);
    forall k <- t.byRefresh ensures Live(t, t.byRefresh[k]) && HoldsRefresh(t.objs[t.byRefresh[k]], k) {
      assert k in s.byRefresh ==> Live(s, s.byRefresh[k]);
    }
  }

  lemma AddKeepsSound(s: Store, record: Session)
    requires Sound(s) && FreshRecord(s, record)
    ensures Sound(Add(s, record))
  {
    AddKeepsLive(s, record);
    AddKeepsAccessIndex(s, record);
    AddKeepsRefreshIndex(s, record);
    var t := Add(s, record);
    forall k <- t.byChallenge ensures Live(t, t.byChallenge[k]) && t.objs[t.byChallenge[k]].challengeId == k {
      assert k != record.challengeId ==> Live(s, s.byChallenge[k]);
    }
  }

  lemma AddKeepsIndexed(s: Store, record: Session)
    requires Indexed(s) && FreshRecord(s, record) && record.challengeId !in s.byChallenge
    ensures Indexed(Add(s, record)) && Live(Add(s, record), |s.objs|)
  {
    var t := Add(s, record);
    AddKeepsSound(s, record);
    AddKeepsLive(s, record);
    forall r | 0 <= r < |t.objs| && Live(t, r) ensures Reachable(t, r) {
      if r < |s.objs| {
        AddKeepsReachable(s, record, r);
      }
    }
  }

  lemma CreateKeepsIndexed(s: Store, now: int, record: Session)
    requires Indexed(s) && FreshRecord(s, record)
    ensures var (t, r) := CreateForChallenge(s, now, record); Indexed(t) && Live(t, r) && t.objs[r].challengeId == record.challengeId
  {
    SweepKeepsIndexed(s, now);
    var swept := Sweep(s, now);
    if record.challengeId !in swept.byChallenge {
      AddKeepsIndexed(swept, record);
    }
  }

  lemma UpdateKeepsIndexed(s: Store, objs: seq<Session>)
    requires Indexed(s) && |objs| == |s.objs|
    requires forall r | 0 <= r < |objs| :: objs[r] == s.objs[r].(revokedAt := objs[r].revokedAt)
    ensures Indexed(s.(objs := objs))
  {
    var t := s.(objs := objs);
    assert forall r | 0 <= r < |objs| :: Live(t, r) == Live(s, r);
    forall r | 0 <= r < |t.objs| && Live(t, r) ensures Reachable(t, r) {
      assert Live(s, r) && Reachable(s, r);
      assert forall k :: HoldsRefresh(t.objs[r], k) == HoldsRefresh(s.objs[r], k);
    }
  }

  ghost predicate FreshRotation(s: Store, p: Rotation) {
    p.accessToken !in s.byAccess && p.refreshToken !in s.byRefresh && p.refreshToken != ""
  }

  lemma RotateKeepsReachable(s: Store, sessionId: string, p: Rotation, r: Ref)
    requires Indexed(s) && FreshRotation(s, p) && Rotates(s, sessionId, p)
    requires r < |s.objs| && Live(s, r)
    ensures Reachable(Rotate(s, sessionId, p), r)
  {
    assert Reachable(s, r) && Reachable(s, s.byId[sessionId]);
  }

  lemma RotateKeepsLive(s: Store, sessionId: string, p: Rotation)
    requires Sound(s) && Rotates(s, sessionId, p)
    ensures Closed(Rotate(s, sessionId, p))
    ensures forall r | 0 <= r < |s.objs| :: Live(Rotate(s, sessionId, p), r) == Live(s, r)
  {
  }

  lemma RotateKeepsAccessIndex(s: Store, sessionId: string, p: Rotation)
    requires Sound(s) && FreshRotation(s, p) && Rotates(s, sessionId, p) && Closed(Rotate(s, sessionId, p))
    ensures AccessIndex(Rotate(s, sessionId, p))
  {
    RotateKeepsLive(s, sessionId, p);
    var t := Rotate(s, sessionId, p);
    forall k <- t.byAccess ensures Live(t, t.byAccess[k]) && t.objs[t.byAccess[k]].accessToken == k {
      assert k != p.accessToken ==> Live(s, s.byAccess[k]);
    }
  }

  lemma RotateKeepsRefreshIndex(s: Store, sessionId: string, p: Rotation)
    requires Sound(s) && FreshRotation(s, p) && Rotates(s, sessionId, p) && Closed(Rotate(s, sessionId, p))
    ensures RefreshIndex(Rotate(s, sessionId, p))
  {
    RotateKeepsLive(s, sessionId, p);
    var t := Rotate(s, sessionId, p);
    forall k <- t.byRefresh ensures Live(t, t.byRefresh[k]) && HoldsRefresh(t.objs[t.byRefresh[k]], k) {
      assert k != p.refreshToken ==> Live(s, s.byRefresh[k]) && HoldsRefresh(s.objs[s.byRefresh[k]], k);
    }
  }

  lemma RotateKeepsSound(s: Store, sessionId: string, p: Rotation)
    requires Sound(s) && FreshRotation(s, p) && Rotates(s, sessionId, p)
    ensures Sound(Rotate(s, sessionId, p))
  {
    RotateKeepsLive(s, sessionId, p);
    RotateKeepsAccessIndex(s, sessionId, p);
    RotateKeepsRefreshIndex(s, sessionId, p);
    var t := Rotate(s, sessionId, p);
    forall k <- t.byChallenge ensures Live(t, t.byChallenge[k]) && t.objs[t.byChallenge[k]].challengeId == k {
      assert Live(s, s.byChallenge[k]);
    }
  }

  lemma RotateKeepsIndexed(s: Store, sessionId: string, p: Rotation)
    requires Indexed(s) && FreshRotation(s, p)
    ensures Indexed(Rotate(s, sessionId, p))
  {
    if Rotates(s, sessionId, p) {
      assert Live(s, s.byId[sessionId]);
      RotateKeepsLive(s, sessionId, p);
      RotateKeepsSound(s, sessionId, p);
      var t := Rotate(s, sessionId, p);
      forall r | 0 <= r < |t.objs| && Live(t, r) ensures Reachable(t, r) {
        RotateKeepsReachable(s, sessionId, p, r);
      }
    }
  }
}
