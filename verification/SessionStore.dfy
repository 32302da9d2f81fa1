/**
 * `InMemorySessionStore`: four hash maps over shared mutable records. Each method is
 * proved to do to the objects what the corresponding function of `Sessions` does to
 * the store's value. `now` stands for the reading of the store's clock.
 */
module SessionStore {
  import opened Options
  import opened Sessions

  class SessionRecord {
    const sessionId: string
    const challengeId: string
    const npub: string
    const pubkey: string
    const issuedAt: int
    const stepUpToken: Option<string>
    const stepUpExpiresAt: Option<int>
    var accessToken: string
    var roles: seq<string>
    var permissions: seq<string>
    var expiresAt: int
    var refreshToken: Option<string>
    var refreshExpiresAt: Option<int>
    var previousRefreshToken: Option<string>
    var revokedAt: Option<int>
    /** The record's place in the store's heap. */
    ghost const ref: Ref

    constructor (x: Session, ghost r: Ref)
      ensures Value() == x && ref == r
    {
      ref := r;
      sessionId, challengeId, npub, pubkey := x.sessionId, x.challengeId, x.npub, x.pubkey;
      issuedAt, stepUpToken, stepUpExpiresAt := x.issuedAt, x.stepUpToken, x.stepUpExpiresAt;
      accessToken, roles, permissions, expiresAt := x.accessToken, x.roles, x.permissions, x.expiresAt;
      refreshToken, refreshExpiresAt := x.refreshToken, x.refreshExpiresAt;
      previousRefreshToken, revokedAt := x.previousRefreshToken, x.revokedAt;
    }

    ghost function Value(): Session
      reads this
    {
      Session(sessionId, challengeId, accessToken, npub, pubkey, roles, permissions, issuedAt, expiresAt,
              stepUpToken, stepUpExpiresAt, refreshToken, refreshExpiresAt, previousRefreshToken, revokedAt)
    }

    method Renew(p: Rotation)
      modifies this
      ensures Value() == Rotated(old(Value()), p)
    {
      previousRefreshToken := refreshToken;
      refreshToken := Some(p.refreshToken);
      accessToken := p.accessToken;
      expiresAt := p.expiresAt;
      refreshExpiresAt := Some(p.refreshExpiresAt);
      roles := p.roles;
      permissions := p.permissions;
    }
  }

  /** The objects currently have the values the view lists, each at its own place. */
  ghost predicate Holds(heap: seq<SessionRecord>, objs: seq<Session>)
    reads heap
  {
    && |objs| == |heap|
    && (forall i | 0 <= i < |heap| :: heap[i].ref == i && heap[i].Value() == objs[i])
  }

  /** The map from keys to objects that a map from keys to heap positions stands for. */
  ghost function Objects(heap: seq<SessionRecord>, v: map<string, Ref>): map<string, SessionRecord> {
    map k | k in v && v[k] < |heap| :: heap[v[k]]
  }

  lemma ObjectsMinus(heap: seq<SessionRecord>, v: map<string, Ref>, keys: set<string>)
    ensures Objects(heap, v - keys) == Objects(heap, v) - keys
  {
  }

  lemma ObjectsPut(heap: seq<SessionRecord>, v: map<string, Ref>, key: string, r: Ref)
    requires r < |heap|
    ensures Objects(heap, v[key := r]) == Objects(heap, v)[key := heap[r]]
  {
  }

  /** The index maps hold the objects a store value refers to. */
  ghost predicate Mirrors(byId: map<string, SessionRecord>, byChallenge: map<string, SessionRecord>,
                          byAccess: map<string, SessionRecord>, byRefresh: map<string, SessionRecord>,
                          heap: seq<SessionRecord>, view: Store)
  {
    && byId == Objects(heap, view.byId)
    && byChallenge == Objects(heap, view.byChallenge)
    && byAccess == Objects(heap, view.byAccess)
    && byRefresh == Objects(heap, view.byRefresh)
  }

  lemma MirrorsWithout(byId: map<string, SessionRecord>, byChallenge: map<string, SessionRecord>,
                       byAccess: map<string, SessionRecord>, byRefresh: map<string, SessionRecord>,
                       heap: seq<SessionRecord>, view: Store, k: string, x: Session)
    requires Mirrors(byId, byChallenge, byAccess, byRefresh, heap, view)
    ensures Mirrors(byId - {k}, byChallenge - {x.challengeId}, byAccess - {x.accessToken},
                    byRefresh - OwnRefreshKeys(x), heap, Without(view, k, x))
  {
    ObjectsMinus(heap, view.byId, {k});
    ObjectsMinus(heap, view.byChallenge, {x.challengeId});
    ObjectsMinus(heap, view.byAccess, {x.accessToken});
    ObjectsMinus(heap, view.byRefresh, OwnRefreshKeys(x));
  }

  lemma MirrorsAdd(byId: map<string, SessionRecord>, byChallenge: map<string, SessionRecord>,
                   byAccess: map<string, SessionRecord>, byRefresh: map<string, SessionRecord>,
                   heap: seq<SessionRecord>, view: Store, stored: SessionRecord, x: Session)
    requires Mirrors(byId, byChallenge, byAccess, byRefresh, heap, view) && Closed(view) && |view.objs| == |heap|
    ensures Mirrors(byId[x.sessionId := stored], byChallenge[x.challengeId := stored], byAccess[x.accessToken := stored],
                    if Truthy(x.refreshToken) then byRefresh[x.refreshToken.value := stored] else byRefresh,
                    heap + [stored], Add(view, x))
  {
    var longer, r := heap + [stored], |heap|;
    assert Objects(longer, view.byId) == byId;
    assert Objects(longer, view.byChallenge) == byChallenge;
    assert Objects(longer, view.byAccess) == byAccess;
    assert Objects(longer, view.byRefresh) == byRefresh;
    ObjectsPut(longer, view.byId, x.sessionId, r);
    ObjectsPut(longer, view.byChallenge, x.challengeId, r);
    ObjectsPut(longer, view.byAccess, x.accessToken, r);
    if Truthy(x.refreshToken) {
      ObjectsPut(longer, view.byRefresh, x.refreshToken.value, r);
    }
  }

  lemma MirrorsRotate(byAccess: map<string, SessionRecord>, byRefresh: map<string, SessionRecord>,
                      heap: seq<SessionRecord>, view: Store, sessionId: string, p: Rotation)
    requires Closed(view) && |view.objs| == |heap| && Rotates(view, sessionId, p)
    requires byAccess == Objects(heap, view.byAccess) && byRefresh == Objects(heap, view.byRefresh)
    ensures var r := view.byId[sessionId];
            var x := view.objs[r];
            var kept := if Truthy(x.previousRefreshToken) then byRefresh - {x.previousRefreshToken.value} else byRefresh;
            var after := Rotate(view, sessionId, p);
            && (byAccess - {x.accessToken})[p.accessToken := heap[r]] == Objects(heap, after.byAccess)
            && kept[p.refreshToken := heap[r]] == Objects(heap, after.byRefresh)
  {
    var r := view.byId[sessionId];
    var x := view.objs[r];
    ObjectsMinus(heap, view.byAccess, {x.accessToken});
    ObjectsPut(heap, view.byAccess - {x.accessToken}, p.accessToken, r);
    if Truthy(x.previousRefreshToken) {
      var gone := {x.previousRefreshToken.value};
      ObjectsMinus(heap, view.byRefresh, gone);
      ObjectsPut(heap, view.byRefresh - gone, p.refreshToken, r);
    } else {
      ObjectsPut(heap, view.byRefresh, p.refreshToken, r);
    }
  }

  class InMemorySessionStore {
    var sessionsByChallengeId: map<string, SessionRecord>
    var sessionsById: map<string, SessionRecord>
    var sessionsByAccessToken: map<string, SessionRecord>
    var sessionsByRefreshToken: map<string, SessionRecord>
    var lastSweptAt: Option<int>

    /** Every record this store ever held, swept ones included, and the store's value. */
    ghost var heap: seq<SessionRecord>
    ghost var view: Store

    ghost predicate Mirrored()
      reads this
    {
      && Mirrors(sessionsById, sessionsByChallengeId, sessionsByAccessToken, sessionsByRefreshToken, heap, view)
      && lastSweptAt == view.lastSweptAt
    }

    ghost predicate Valid()
      reads this, heap
    {
      Mirrored() && Closed(view) && Holds(heap, view.objs) && IdIndex(view)
    }

    constructor ()
      ensures Valid() && view == EMPTY && heap == []
    {
      sessionsByChallengeId, sessionsById := map[], map[];
      sessionsByAccessToken, sessionsByRefreshToken := map[], map[];
      lastSweptAt := None;
      heap, view := [], EMPTY;
    }

    /** One sweep step: take a session out of every index that mentions it. */
    method Drop(sessionId: string, session: SessionRecord)
      requires Mirrored()
      modifies this
      ensures Mirrored() && heap == old(heap)
      ensures view == Without(old(view), sessionId, session.Value())
    {
      var refreshIndex := sessionsByRefreshToken;
      if Truthy(session.refreshToken) {
        refreshIndex := refreshIndex - {session.refreshToken.value};
      }
      if Truthy(session.previousRefreshToken) {
        refreshIndex := refreshIndex - {session.previousRefreshToken.value};
      }
      assert refreshIndex == sessionsByRefreshToken - OwnRefreshKeys(session.Value());
      MirrorsWithout(sessionsById, sessionsByChallengeId, sessionsByAccessToken, sessionsByRefreshToken, heap, view,
                     sessionId, session.Value());
      sessionsById := sessionsById - {sessionId};
      sessionsByChallengeId := sessionsByChallengeId - {session.challengeId};
      sessionsByAccessToken := sessionsByAccessToken - {session.accessToken};
      sessionsByRefreshToken := refreshIndex;
      view := Without(view, sessionId, session.Value());
    }

    /** A sweep of `start` under way; `todo` are the sessions it has not looked at yet. */
    ghost predicate Sweeping(start: Store, now: int, todo: set<string>)
      reads this, heap
    {
      && Mirrored() && Closed(start) && Holds(heap, start.objs)
      && todo <= start.byId.Keys && view == Remove(start, Stale(start, now) - todo)
    }

    /** The sweep's look at one session. */
    method Visit(sessionId: string, now: int, ghost start: Store, ghost todo: set<string>)
      requires Sweeping(start, now, todo) && sessionId in todo
      modifies this
      ensures Sweeping(start, now, todo - {sessionId}) && heap == old(heap)
    {
      var session := sessionsById[sessionId];
      assert session == heap[start.byId[sessionId]];
      if Max(session.expiresAt, if session.refreshExpiresAt.Some? then session.refreshExpiresAt.value else 0) < now {
        assert sessionId in Stale(start, now);
        assert Stale(start, now) - (todo - {sessionId}) == Stale(start, now) - todo + {sessionId};
        RemoveOneMore(start, Stale(start, now) - todo, sessionId);
        Drop(sessionId, session);
      } else {
        assert sessionId !in Stale(start, now);
        assert Stale(start, now) - (todo - {sessionId}) == Stale(start, now) - todo;
      }
    }

    method SweepAll(now: int)
      requires Valid()
      modifies this
      ensures Valid() && heap == old(heap)
      ensures view == Remove(old(view), Stale(old(view), now))
    {
      ghost var start := view;
      var todo := sessionsById.Keys;
      assert todo == start.byId.Keys;
      SweepEnds(start, now);
      RemoveKeepsIdIndex(start, Stale(start, now));
      while todo != {}
        invariant Sweeping(start, now, todo) && heap == old(heap)
        decreases todo
      {
        var sessionId :| sessionId in todo;
        Visit(sessionId, now, start, todo);
        todo := todo - {sessionId};
      }
    }

    method Sweep(now: int)
      requires Valid()
      modifies this
      ensures Valid() && heap == old(heap)
      ensures view == Sessions.Sweep(old(view), now)
    {
      if lastSweptAt.Some? && now <= lastSweptAt.value {
        return;
      }
      lastSweptAt := Some(now);
      view := view.(lastSweptAt := Some(now));
      SweepAll(now);
    }

    /** Enter a new record into the heap and every index. */
    method Index(session: SessionRecord, ghost record: Session)
      requires Mirrored() && Closed(view) && |view.objs| == |heap| && session.Value() == record
      modifies this
      ensures Mirrored() && heap == old(heap) + [session]
      ensures view == Add(old(view), record)
    {
      MirrorsAdd(sessionsById, sessionsByChallengeId, sessionsByAccessToken, sessionsByRefreshToken, heap, view,
                 session, record);
      sessionsByChallengeId := sessionsByChallengeId[session.challengeId := session];
      sessionsById := sessionsById[session.sessionId := session];
      sessionsByAccessToken := sessionsByAccessToken[session.accessToken := session];
      if Truthy(session.refreshToken) {
        sessionsByRefreshToken := sessionsByRefreshToken[session.refreshToken.value := session];
      }
      heap := heap + [session];
      view := Add(view, record);
    }

    method Insert(record: Session) returns (session: SessionRecord)
      requires Valid()
      modifies this
      ensures Valid() && fresh(session) && heap == old(heap) + [session]
      ensures view == Add(old(view), record)
    {
      session := new SessionRecord(record, |heap|);
      Index(session, record);
    }

    method CreateForChallenge(record: Session, now: int) returns (session: SessionRecord)
      requires Valid()
      modifies this
      ensures Valid() && (heap == old(heap) || (fresh(session) && heap == old(heap) + [session]))
      ensures var (after, r) := Sessions.CreateForChallenge(old(view), now, record);
              view == after && r < |heap| && session == heap[r]
    {
      Sweep(now);
      if record.challengeId in sessionsByChallengeId {
        session := sessionsByChallengeId[record.challengeId];
      } else {
        session := Insert(record);
      }
    }

    method GetBySessionId(sessionId: string) returns (session: SessionRecord?)
      requires Valid()
      ensures session == null <==> Lookup(view.byId, sessionId).None?
      ensures session != null ==> session == heap[view.byId[sessionId]]
    {
      session := if sessionId in sessionsById then sessionsById[sessionId] else null;
    }

    method GetByAccessToken(token: string, now: int) returns (session: SessionRecord?)
      requires Valid()
      modifies this
      ensures Valid() && heap == old(heap) && view == Sessions.Sweep(old(view), now)
      ensures session == null <==> Lookup(view.byAccess, token).None?
      ensures session != null ==> session == heap[view.byAccess[token]]
    {
      Sweep(now);
      session := if token in sessionsByAccessToken then sessionsByAccessToken[token] else null;
    }

    method GetByRefreshToken(token: string) returns (session: SessionRecord?)
      requires Valid()
      ensures session == null <==> Lookup(view.byRefresh, token).None?
      ensures session != null ==> session == heap[view.byRefresh[token]]
    {
      session := if token in sessionsByRefreshToken then sessionsByRefreshToken[token] else null;
    }

    /** Flag one record as revoked. */
    method Revoke(session: SessionRecord, now: int)
      requires Valid() && session in heap
      modifies this`view, session
      ensures Valid()
      ensures view == old(view).(objs := old(view).objs[session.ref := old(session.Value()).(revokedAt := Some(now))])
    {
      view := view.(objs := view.objs[session.ref := session.Value().(revokedAt := Some(now))]);
      session.revokedAt := Some(now);
    }

    method RevokeBySessionId(sessionId: string, now: int)
      requires Valid()
      modifies this, heap
      ensures Valid() && heap == old(heap)
      ensures view == RevokeById(old(view), sessionId, now)
    {
      if sessionId !in sessionsById {
        return;
      }
      var session := sessionsById[sessionId];
      Revoke(session, now);
    }

    /** Revoke one session if the principal holds it and it is not revoked; `todo` are the sessions still to look at. */
    method RevokeIfHeld(sessionId: string, pubkey: string, now: int, ghost start: Store, ghost todo: set<string>)
      returns (hit: bool)
      requires Valid() && Closed(start) && IdIndex(start) && sessionId in start.byId && sessionId in todo
      requires view == start.(objs := RevokeRefs(start.objs, Held(start, start.byId.Keys - todo, pubkey), now))
      modifies this`view, heap
      ensures Valid()
      ensures var held := Held(start, start.byId.Keys - (todo - {sessionId}), pubkey);
              && view == start.(objs := RevokeRefs(start.objs, held, now))
              && |held| == |Held(start, start.byId.Keys - todo, pubkey)| + if hit then 1 else 0
    {
      assert start.byId.Keys - (todo - {sessionId}) == start.byId.Keys - todo + {sessionId};
      HeldOneMore(start, start.byId.Keys - todo, pubkey, sessionId, now);
      var session := sessionsById[sessionId];
      assert session == heap[start.byId[sessionId]];
      hit := session.pubkey == pubkey && !TruthyTime(session.revokedAt);
      if hit {
        Revoke(session, now);
      }
    }

    method RevokeByPrincipal(pubkey: string, now: int) returns (count: nat)
      requires Valid()
      modifies this`view, heap
      ensures Valid()
      ensures view == Sessions.RevokeByPrincipal(old(view), pubkey, now)
      ensures count == |Held(old(view), old(view).byId.Keys, pubkey)|
    {
      ghost var start := view;
      var todo := sessionsById.Keys;
      assert todo == start.byId.Keys;
      count := 0;
      assert Held(start, start.byId.Keys - todo, pubkey) == {};
      assert RevokeRefs(start.objs, {}, now) == start.objs;
      while todo != {}
        invariant Valid()
        invariant todo <= start.byId.Keys
        invariant view == start.(objs := RevokeRefs(start.objs, Held(start, start.byId.Keys - todo, pubkey), now))
        invariant count == |Held(start, start.byId.Keys - todo, pubkey)|
        decreases todo
      {
        var sessionId :| sessionId in todo;
        var hit := RevokeIfHeld(sessionId, pubkey, now, start, todo);
        todo := todo - {sessionId};
        count := if hit then count + 1 else count;
      }
      assert start.byId.Keys - todo == start.byId.Keys;
    }

    /** Point the token indexes at the rotated session's new tokens. */
    method Reindex(sessionId: string, session: SessionRecord, p: Rotation)
      requires Mirrored() && Closed(view) && |view.objs| == |heap|
      requires Rotates(view, sessionId, p)
      requires heap[view.byId[sessionId]] == session && view.objs[view.byId[sessionId]] == session.Value()
      modifies this
      ensures Mirrored() && heap == old(heap)
      ensures view == Rotate(old(view), sessionId, p)
    {
      MirrorsRotate(sessionsByAccessToken, sessionsByRefreshToken, heap, view, sessionId, p);
      if Truthy(session.previousRefreshToken) {
        sessionsByRefreshToken := sessionsByRefreshToken - {session.previousRefreshToken.value};
      }
      sessionsByAccessToken := (sessionsByAccessToken - {session.accessToken})[p.accessToken := session];
      sessionsByRefreshToken := sessionsByRefreshToken[p.refreshToken := session];
      view := Rotate(view, sessionId, p);
    }

    /** Give a session its next tokens, in the indexes and on the record. */
    method Turn(sessionId: string, session: SessionRecord, p: Rotation)
      requires Valid() && Rotates(view, sessionId, p) && session == heap[view.byId[sessionId]]
      modifies this, session
      ensures Valid() && heap == old(heap) && view == Rotate(old(view), sessionId, p)
    {
      RotateKeepsIdIndex(view, sessionId, p);
      Reindex(sessionId, session, p);
      session.Renew(p);
    }

    method RotateRefreshToken(sessionId: string, p: Rotation) returns (session: SessionRecord?)
      requires Valid()
      modifies this, heap
      ensures Valid() && heap == old(heap)
      ensures view == Rotate(old(view), sessionId, p)
      ensures session != null <==> Rotates(old(view), sessionId, p)
      ensures session != null ==> session == heap[view.byId[sessionId]]
    {
      if sessionId !in sessionsById {
        return null;
      }
      session := sessionsById[sessionId];
      if session.refreshToken != Some(p.expected) {
        return null;
      }
      Turn(sessionId, session, p);
    }
  }

  lemma RemoveKeepsIdIndex(s: Store, ids: set<string>)
    requires Closed(s) && IdIndex(s) && ids <= s.byId.Keys
    ensures Closed(Remove(s, ids)) && IdIndex(Remove(s, ids))
  {
  }

  lemma RotateKeepsIdIndex(s: Store, sessionId: string, p: Rotation)
    requires Closed(s) && IdIndex(s)
    ensures Closed(Rotate(s, sessionId, p)) && IdIndex(Rotate(s, sessionId, p))
  {
  }

  /** Where the sweep begins and where it ends. */
  lemma SweepEnds(s: Store, now: int)
    requires Closed(s)
    ensures Remove(s, Stale(s, now) - s.byId.Keys) == s
    ensures Stale(s, now) - {} == Stale(s, now)
  {
    assert Stale(s, now) - s.byId.Keys == {};
    RemoveNone(s);
  }

  /** Visiting one more session revokes it exactly when no earlier visit did. */
  lemma HeldOneMore(s: Store, ids: set<string>, pubkey: string, k: string, now: int)
    requires Closed(s) && IdIndex(s) && ids <= s.byId.Keys && k in s.byId && k !in ids
    ensures var before := RevokeRefs(s.objs, Held(s, ids, pubkey), now);
            var after := RevokeRefs(s.objs, Held(s, ids + {k}, pubkey), now);
            var r := s.byId[k];
            if before[r].pubkey == pubkey && !Revoked(before[r])
            then after == before[r := before[r].(revokedAt := Some(now))] &&
                 |Held(s, ids + {k}, pubkey)| == |Held(s, ids, pubkey)| + 1
            else after == before && |Held(s, ids + {k}, pubkey)| == |Held(s, ids, pubkey)|
  {
    assert s.byId[k] !in Held(s, ids, pubkey) by {
      assert forall j | j in ids :: s.objs[s.byId[j]].sessionId == j != s.objs[s.byId[k]].sessionId;
    }
    HeldRefsOneMore(s, ids, pubkey, k);
  }

  lemma HeldRefsOneMore(s: Store, ids: set<string>, pubkey: string, k: string)
    requires Closed(s) && ids <= s.byId.Keys && k in s.byId
    ensures var x := s.objs[s.byId[k]];
            Held(s, ids + {k}, pubkey) == Held(s, ids, pubkey) + if x.pubkey == pubkey && !Revoked(x) then {s.byId[k]} else {}
  {
  }
}
