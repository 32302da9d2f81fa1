/**
 * The remaining steps of the server, over the records themselves: what a lookup finds, what a redemption
 * and a retry are answered, who is let in, and what logout, revocation, expiry and sweeping do.
 */
module ServerDecisions {
  import opened Options
  import Sessions
  import Challenges
  import opened Server
  import opened ServerRuns
  import opened Refreshes

  // ------------------------------------------------------------------------- lookups

  /** The session is one the store still has. */
  predicate Known(st: Sessions.Store, r: Sessions.Ref) {
    Sessions.Live(st, r)
  }

  /** The record is one the store still has. */
  predicate Filed(st: Challenges.Store, r: Challenges.Ref) {
    r < |st.objs| && st.objs[r].challengeId in st.records && st.records[st.objs[r].challengeId] == r
  }

  predicate HasAccess(st: Sessions.Store, token: string, r: Sessions.Ref) {
    Known(st, r) && st.objs[r].accessToken == token
  }

  /** A session is presented by its current refresh token and by the one before. */
  predicate HasRefresh(st: Sessions.Store, token: string, r: Sessions.Ref) {
    Known(st, r) && (st.objs[r].refreshToken == Some(token) || st.objs[r].previousRefreshToken == Some(token))
  }

  /** Only this call moves on. */
  predicate Moves(s: Sys, t: Sys, c: nat) {
    t == s.(calls := t.calls) && c in t.calls && t.calls == s.calls[c := t.calls[c]]
  }

  lemma AccessFinds(st: Sessions.Store, token: string)
    requires Sessions.Indexed(st)
    ensures forall r: nat :: Sessions.Lookup(st.byAccess, token) == Some(r) <==> HasAccess(st, token, r)
  {
    forall r: nat ensures Sessions.Lookup(st.byAccess, token) == Some(r) <==> HasAccess(st, token, r) {
      if HasAccess(st, token, r) {
        assert Sessions.Reachable(st, r);
      }
    }
  }

  lemma RefreshFinds(st: Sessions.Store, token: string)
    requires Sessions.Indexed(st) && token != ""
    ensures forall r: nat :: Sessions.Lookup(st.byRefresh, token) == Some(r) <==> HasRefresh(st, token, r)
  {
    forall r: nat ensures Sessions.Lookup(st.byRefresh, token) == Some(r) <==> HasRefresh(st, token, r) {
      if HasRefresh(st, token, r) {
        assert Sessions.Reachable(st, r);
      }
    }
  }

  /** In every run, a refresh finds exactly the session that holds the token, now or as its predecessor. */
  lemma RefreshLookupIsExact(cfg: Config, s: Sys, l: Label)
    requires Reachable(cfg, s) && Enabled(cfg, s, l) && l.BeginRefresh?
    ensures WellFormed(s)
    ensures var t := Next(cfg, s, l);
            && Moves(s, t, l.c)
            && t.calls[l.c].Looked? && t.calls[l.c].token == l.token
            && forall r: nat :: t.calls[l.c].found == Some(r) <==> HasRefresh(s.sessions, l.token, r)
  {
    ReachableInv(cfg, s);
    RefreshFinds(s.sessions, l.token);
  }

  /** In every run, a completion fetches exactly the record with the id it names. */
  lemma FetchIsExact(cfg: Config, s: Sys, l: Label)
    requires Reachable(cfg, s) && Enabled(cfg, s, l) && l.Fetch?
    ensures WellFormed(s)
    ensures var t, was := Next(cfg, s, l), s.calls[l.c];
            && Moves(s, t, l.c)
            && t.calls[l.c].Fetched? && t.calls[l.c].p == was.p && t.calls[l.c].now == was.now
            && forall r: nat :: t.calls[l.c].record == Some(r) <==> Filed(s.challenges, r) && s.challenges.objs[r].challengeId == was.p.challengeId
  {
    ReachableInv(cfg, s);
    assert forall k <- s.challenges.records :: s.challenges.objs[s.challenges.records[k]].challengeId == k;
  }

  // ------------------------------------------------------------------------ sweeping

  /** Neither its access token nor its refresh token can be of use from `now` on. */
  predicate SpentBy(x: Sessions.Session, now: int) {
    x.expiresAt < now && (x.refreshExpiresAt.Some? ==> x.refreshExpiresAt.value < now)
  }

  predicate FirstThisTick(lastSweptAt: Option<int>, now: int) {
    lastSweptAt.Some? ==> lastSweptAt.value < now
  }

  /** The first sweep of a tick forgets exactly the sessions neither token of which can still be of use. */
  lemma SweepForgetsExactly(st: Sessions.Store, now: int)
    requires Sessions.Indexed(st) && now > 0
    ensures var t := Sessions.Sweep(st, now);
            && Sessions.Indexed(t) && t.objs == st.objs && (st.lastSweptAt.Some? && now <= st.lastSweptAt.value ==> t == st)
            && forall r | 0 <= r < |st.objs| ::
                 Known(t, r) <==> Known(st, r) && !(FirstThisTick(st.lastSweptAt, now) && SpentBy(st.objs[r], now))
  {
    Sessions.SweepKeepsIndexed(st, now);
    if FirstThisTick(st.lastSweptAt, now) {
      SweepForgets(st, now);
    }
  }

  lemma SweepForgets(st: Sessions.Store, now: int)
    requires Sessions.Indexed(st) && now > 0 && FirstThisTick(st.lastSweptAt, now)
    ensures forall r | 0 <= r < |st.objs| :: Known(Sessions.Sweep(st, now), r) <==> Known(st, r) && !SpentBy(st.objs[r], now)
  {
    var stale := Sessions.Stale(st, now);
    forall r | 0 <= r < |st.objs| && Known(st, r) ensures st.objs[r].sessionId in stale <==> SpentBy(st.objs[r], now) {
    }
    assert Sessions.Sweep(st, now).byId == st.byId - stale;
  }

  /** A load sweeps first, and then finds exactly the session whose access token is presented. */
  lemma LoadLookupIsExact(cfg: Config, s: Sys, l: Label)
    requires Reachable(cfg, s) && Enabled(cfg, s, l) && l.BeginLoad?
    ensures WellFormed(s)
    ensures var t := Next(cfg, s, l);
            && t == s.(sessions := t.sessions, calls := t.calls) && t.sessions.objs == s.sessions.objs
            && l.c in t.calls && t.calls == s.calls[l.c := t.calls[l.c]] && t.calls[l.c].Loading?
            && (forall r | 0 <= r < |s.sessions.objs| ::
                  Known(t.sessions, r) <==>
                  Known(s.sessions, r) && !(FirstThisTick(s.sessions.lastSweptAt, s.clock) && SpentBy(s.sessions.objs[r], s.clock)))
            && (forall r: nat :: t.calls[l.c].found == Some(r) <==> HasAccess(t.sessions, l.token, r))
  {
    ReachableInv(cfg, s);
    SweepForgetsExactly(s.sessions, s.clock);
    AccessFinds(Sessions.Sweep(s.sessions, s.clock), l.token);
    assert Next(cfg, s, l) == LoadStep(s, l);
  }

  /** A challenge is kept until its answer may no longer be repeated, and until it expires when it has none. */
  predicate AnswerSpentBy(x: Challenges.Challenge, now: int) {
    if x.resultCacheUntil.Some? then x.resultCacheUntil.value < now else x.expiresAt < now
  }

  /** Issuing a challenge first forgets, once per tick, exactly the records of no more use. */
  lemma IssueSweepsExactly(cfg: Config, s: Sys, l: Label)
    requires Reachable(cfg, s) && Enabled(cfg, s, l) && l.CreateChallenge?
    ensures WellFormed(s)
    ensures var st, t := s.challenges, Next(cfg, s, l).challenges;
            && |t.objs| == |st.objs| + 1 && t.objs[..|st.objs|] == st.objs && Filed(t, |st.objs|)
            && forall r | 0 <= r < |st.objs| ::
                 Filed(t, r) <==> Filed(st, r) && !(FirstThisTick(st.lastSweptAt, s.clock) && AnswerSpentBy(st.objs[r], s.clock))
  {
    ReachableInv(cfg, s);
    var st, t := s.challenges, Next(cfg, s, l).challenges;
    assert Next(cfg, s, l) == CreateChallengeStep(cfg, s, l);
    assert forall k <- st.records :: st.objs[st.records[k]].challengeId == k;
    forall r | 0 <= r < |st.objs| ensures st.objs[r].challengeId != l.challengeId {
      assert st.objs[r].challengeId in s.used;
    }
  }

  // --------------------------------------------------------------------- redemptions

  /** From `before` to `after` the record filed under `id` becomes `y`, and nothing else changes. */
  ghost predicate Becomes(before: Challenges.Store, after: Challenges.Store, id: string, y: Challenges.Challenge)
    requires Challenges.Closed(before) && id in before.records
  {
    after == before.(objs := before.objs[before.records[id] := y])
  }

  /** What redeeming the record of a completion for the session made for it leads to. */
  ghost predicate RedeemedByFields(cfg: Config, s: Sys, t: Sys, c: nat)
    requires Challenges.Closed(s.challenges) && c in s.calls && s.calls[c].Created?
    requires s.calls[c].session < |s.sessions.objs|
  {
    var Created(p, now, ch, r) := s.calls[c];
    var id := p.challengeId;
    && c in t.calls && t.sessions == s.sessions && t.calls[c].Redeeming? && t.calls[c] == Redeeming(p, now, ch, r, t.calls[c].status)
    && var status := t.calls[c].status;
    if id !in s.challenges.records then status == Challenges.NotFound && t.challenges == s.challenges
    else
      var x := s.challenges.objs[s.challenges.records[id]];
      if x.expiresAt < now || x.state == Challenges.Expired then
        status == Challenges.HasExpired && Becomes(s.challenges, t.challenges, id, x.(state := Challenges.Expired))
      else if x.state == Challenges.Issued then
        status == Challenges.WasRedeemed
        && Becomes(s.challenges, t.challenges, id,
                   x.(state := Challenges.Redeemed, redeemedEventId := Some(p.eventId),
                      redeemedSessionId := Some(s.sessions.objs[r].sessionId), resultCacheUntil := Some(now + cfg.resultCacheTtl)))
      else status == Challenges.AlreadyRedeemed && t.challenges == s.challenges
  }

  lemma RedeemByFields(cfg: Config, s: Sys, l: Label)
    requires WellFormed(s) && Enabled(cfg, s, l) && l.Redeem? && s.calls[l.c].session < |s.sessions.objs|
    requires s.calls[l.c].ch < |s.challenges.objs| && s.challenges.objs[s.calls[l.c].ch].challengeId == s.calls[l.c].p.challengeId
    ensures RedeemedByFields(cfg, s, RedeemStep(cfg, s, l), l.c)
  {
    var Created(p, now, ch, r) := s.calls[l.c];
    if p.challengeId in s.challenges.records {
      var x := s.challenges.objs[s.challenges.records[p.challengeId]];
      assert s.challenges.objs[s.challenges.records[p.challengeId] := x] == s.challenges.objs;
    }
  }

  /** In every run: a redemption succeeds exactly on a record that is issued and has not expired. */
  lemma RedeemDecides(cfg: Config, s: Sys, l: Label)
    requires Reachable(cfg, s) && Enabled(cfg, s, l) && l.Redeem?
    ensures WellFormed(s) && s.calls[l.c].session < |s.sessions.objs| && RedeemedByFields(cfg, s, Next(cfg, s, l), l.c)
  {
    ReachableInv(cfg, s);
    assert Grounded(s, s.calls[l.c]) && CallInv(s, s.calls[l.c]);
    RedeemByFields(cfg, s, l);
    assert Next(cfg, s, l) == RedeemStep(cfg, s, l);
  }

  /** In every run: the one redemption that succeeds answers with its session; a second one reads the record again. */
  lemma ConclusionDecides(cfg: Config, s: Sys, l: Label)
    requires Reachable(cfg, s) && Enabled(cfg, s, l) && l.Conclude?
    ensures WellFormed(s)
    ensures var t, was := Next(cfg, s, l), s.calls[l.c];
            && Moves(s, t, l.c)
            && (was.status == Challenges.WasRedeemed ==> t.calls[l.c] == Completed(was.p, Ok(was.session)))
            && (was.status == Challenges.HasExpired ==> t.calls[l.c] == Completed(was.p, Fail(ExpiredChallenge)))
            && (was.status == Challenges.NotFound ==> t.calls[l.c] == Completed(was.p, Fail(UnknownChallenge)))
            && (was.status == Challenges.AlreadyRedeemed ==>
                  && t.calls[l.c].Rereading? && t.calls[l.c] == Rereading(was.p, was.now, was.ch, t.calls[l.c].record)
                  && forall r: nat :: t.calls[l.c].record == Some(r) <==>
                                 Filed(s.challenges, r) && s.challenges.objs[r].challengeId == was.p.challengeId)
  {
    ReachableInv(cfg, s);
    assert Grounded(s, s.calls[l.c]) && CallInv(s, s.calls[l.c]);
    assert forall k <- s.challenges.records :: s.challenges.objs[s.challenges.records[k]].challengeId == k;
    assert Next(cfg, s, l) == ConcludeStep(cfg, s, l);
  }

  /** The record was redeemed by this very event, and its answer may still be repeated. */
  predicate Repeats(x: Challenges.Challenge, p: Proof, now: int) {
    && x.redeemedEventId == Some(p.eventId)
    && x.redeemedSessionId.Some? && x.redeemedSessionId.value != ""
    && (x.resultCacheUntil.Some? && x.resultCacheUntil.value != 0 ==> now <= x.resultCacheUntil.value)
  }

  /** In every run: a repeated completion is answered again exactly while the record says so, with the session it was redeemed for. */
  lemma RetryDecides(cfg: Config, s: Sys, l: Label)
    requires Reachable(cfg, s) && Enabled(cfg, s, l) && l.Reread?
    ensures WellFormed(s)
    ensures var t, was := Next(cfg, s, l), s.calls[l.c];
            && Moves(s, t, l.c)
            && (was.record.Some? ==> was.record.value < |s.challenges.objs|)
            && if was.record.Some? && Repeats(s.challenges.objs[was.record.value], was.p, was.now) then
                 var id := s.challenges.objs[was.record.value].redeemedSessionId.value;
                 && t.calls[l.c].Resuming? && t.calls[l.c].p == was.p
                 && forall r: nat :: t.calls[l.c].found == Some(r) <==> Known(s.sessions, r) && s.sessions.objs[r].sessionId == id
               else t.calls[l.c] == Completed(was.p, Fail(RedeemedChallenge))
  {
    ReachableInv(cfg, s);
    assert Grounded(s, s.calls[l.c]);
    assert Next(cfg, s, l) == RereadStep(cfg, s, l);
  }

  /** A session that has gone meanwhile is an internal error. */
  lemma ResumeDecides(cfg: Config, s: Sys, l: Label)
    requires WellFormed(s) && Enabled(cfg, s, l) && l.Resume?
    ensures var found := s.calls[l.c].found;
            Next(cfg, s, l) == s.(calls := s.calls[l.c :=
              Completed(s.calls[l.c].p, if found == None then Fail(Internal) else Ok(found.value))])
  {
  }

  /** In every run: a request is let in exactly with a session that was found, has not been revoked and has not expired. */
  lemma AcceptDecides(cfg: Config, s: Sys, l: Label)
    requires Reachable(cfg, s) && Enabled(cfg, s, l) && l.Accept?
    ensures WellFormed(s)
    ensures var t, found := Next(cfg, s, l), s.calls[l.c].found;
            && Moves(s, t, l.c) && t.calls[l.c].Loaded?
            && (found.Some? ==> found.value < |s.sessions.objs|)
            && forall r: nat :: t.calls[l.c].accepted == Some(r) <==>
                 found == Some(r) && NeverRevoked(s.sessions.objs[r]) && s.clock < s.sessions.objs[r].expiresAt
  {
    ReachableInv(cfg, s);
    assert Grounded(s, s.calls[l.c]);
    assert Next(cfg, s, l) == AcceptStep(cfg, s, l);
  }

  // ----------------------------------------------------------- logout and revocation

  /** From `before` to `after` these sessions are revoked at `now`, and nothing else changes. */
  ghost predicate RevokesExactly(before: Sessions.Store, after: Sessions.Store, which: Sessions.Session -> bool, now: int) {
    && after == before.(objs := after.objs) && |after.objs| == |before.objs|
    && forall r | 0 <= r < |before.objs| ::
         after.objs[r] == if Known(before, r) && which(before.objs[r]) then before.objs[r].(revokedAt := Some(now)) else before.objs[r]
  }

  /** In every run: logout revokes the session with this id, again if it was revoked before. */
  lemma LogoutIsExact(cfg: Config, s: Sys, id: string)
    requires Reachable(cfg, s) && Enabled(cfg, s, Logout(id))
    ensures WellFormed(s)
    ensures var t := Next(cfg, s, Logout(id));
            && t == s.(sessions := t.sessions)
            && RevokesExactly(s.sessions, t.sessions, (x: Sessions.Session) => x.sessionId == id, s.clock)
  {
    ReachableInv(cfg, s);
  }

  /** In every run: revoking a principal revokes its sessions that are not yet, and no one else's. */
  lemma PrincipalRevocationIsExact(cfg: Config, s: Sys, pubkey: string)
    requires Reachable(cfg, s) && Enabled(cfg, s, RevokePrincipal(pubkey))
    ensures WellFormed(s)
    ensures var t := Next(cfg, s, RevokePrincipal(pubkey));
            && t == s.(sessions := t.sessions)
            && RevokesExactly(s.sessions, t.sessions, (x: Sessions.Session) => x.pubkey == pubkey && NeverRevoked(x), s.clock)
  {
    ReachableInv(cfg, s);
    forall r | 0 <= r < |s.sessions.objs|
      ensures Sessions.RevokeByPrincipal(s.sessions, pubkey, s.clock).objs[r] ==
              if Known(s.sessions, r) && s.sessions.objs[r].pubkey == pubkey && NeverRevoked(s.sessions.objs[r])
              then s.sessions.objs[r].(revokedAt := Some(s.clock)) else s.sessions.objs[r]
    {
      RevokedPrincipal(s.sessions, pubkey, s.clock, r);
    }
  }

  /** In every run: expiring challenges marks exactly the issued ones past their expiry that are still filed. */
  lemma ExpiryIsExact(cfg: Config, s: Sys)
    requires Reachable(cfg, s) && Enabled(cfg, s, ExpireChallenges)
    ensures WellFormed(s)
    ensures var st, u := s.challenges, Next(cfg, s, ExpireChallenges);
            && u == s.(challenges := u.challenges) && u.challenges == st.(objs := u.challenges.objs)
            && |u.challenges.objs| == |st.objs|
            && forall r | 0 <= r < |st.objs| ::
                 var x := st.objs[r];
                 u.challenges.objs[r] == if Filed(st, r) && x.state == Challenges.Issued && x.expiresAt < s.clock
                                         then x.(state := Challenges.Expired) else x
  {
    ReachableInv(cfg, s);
    var st := s.challenges;
    assert forall k <- st.records :: st.objs[st.records[k]].challengeId == k;
    var refs := Challenges.LapsedRefs(st, st.records.Keys, s.clock);
    forall r | 0 <= r < |st.objs|
      ensures r in refs <==> Filed(st, r) && st.objs[r].state == Challenges.Issued && st.objs[r].expiresAt < s.clock
    {
      if Filed(st, r) && Challenges.Lapsed(st.objs[r], s.clock) {
        assert st.objs[r].challengeId in st.records.Keys;
      }
    }
  }
}
