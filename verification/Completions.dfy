/**
 * What a completion has to show for itself: its checks one by one, what holds of every completion
 * past them in every run, and what the session it makes is given.
 */
module Completions {
  import opened Options
  import Sessions
  import Challenges
  import opened Server
  import opened ServerInvariants
  import opened ServerRuns
  import opened Lifetime

  // --------------------------------------------------------------------- the checks

  /** The proof was signed over this record's challenge, inside its window. */
  predicate SignedFor(cfg: Config, p: Proof, x: Challenges.Challenge) {
    p.challenge == x.challenge && x.issuedAt - cfg.lowerGrace <= p.createdAt <= x.expiresAt + cfg.upperGrace
  }

  /** The record is one a completion may still be made for, at the time it began. */
  predicate Open(x: Challenges.Challenge, now: int) {
    now <= x.expiresAt && (x.state == Challenges.Issued || x.state == Challenges.Redeemed)
  }

  /** One more failure on the live record of this id, if it is issued and failures are counted; nothing else. */
  ghost predicate OneFailureMore(cfg: Config, before: Challenges.Store, after: Challenges.Store, id: string)
    requires Challenges.Closed(before)
  {
    && after.records == before.records && after.lastSweptAt == before.lastSweptAt && |after.objs| == |before.objs|
    && (forall i | 0 <= i < |before.objs| ::
          var x, y := before.objs[i], after.objs[i];
          if cfg.maxFailures > 0 && id in before.records && before.records[id] == i && x.state == Challenges.Issued
          then y == x.(failureCount := x.failureCount + 1,
                       state := if x.failureCount + 1 >= cfg.maxFailures then Challenges.FailedTerminal else Challenges.Issued)
          else y == x)
  }

  /** From `s` to `t` the checks of call `c` on the record it fetched decided as their fields say. */
  ghost predicate CheckedByFields(cfg: Config, s: Sys, t: Sys, c: nat)
    requires Challenges.Closed(s.challenges) && c in s.calls && s.calls[c].Fetched? && s.calls[c].record.Some?
    requires s.calls[c].record.value < |s.challenges.objs|
  {
    var Fetched(p, now, record) := s.calls[c];
    var x := s.challenges.objs[record.value];
    && c in t.calls && t.sessions == s.sessions && t.clock == s.clock && t.used == s.used
    && var call := t.calls[c];
    && (call == Authorizing(p, now, record.value) <==> Open(x, now) && x.pubkey == p.pubkey && SignedFor(cfg, p, x))
    && (call == Completed(p, Fail(ExpiredChallenge)) <==> x.expiresAt < now || x.state == Challenges.Expired)
    && (call == Completed(p, Fail(FailedTerminal)) <==> now <= x.expiresAt && x.state == Challenges.FailedTerminal)
    && (call == Completed(p, Fail(PrincipalMismatch)) <==> Open(x, now) && x.pubkey != p.pubkey)
    && (call == Completed(p, Fail(ChallengeMismatch)) <==> Open(x, now) && x.pubkey == p.pubkey && x.challenge != p.challenge)
    && (call == Completed(p, Fail(CreatedAtOutOfRange)) <==>
          Open(x, now) && x.pubkey == p.pubkey && x.challenge == p.challenge && !SignedFor(cfg, p, x))
    && (if Open(x, now) && x.pubkey == p.pubkey && !SignedFor(cfg, p, x)
        then OneFailureMore(cfg, s.challenges, t.challenges, p.challengeId)
        else t.challenges == s.challenges)
  }

  lemma InspectChecks(cfg: Config, s: Sys, l: Label)
    requires WellFormed(s) && Enabled(cfg, s, l) && l.Inspect? && s.calls[l.c].record.Some? && s.calls[l.c].record.value < |s.challenges.objs|
    requires s.challenges.objs[s.calls[l.c].record.value].challengeId == s.calls[l.c].p.challengeId
    ensures CheckedByFields(cfg, s, InspectStep(cfg, s, l), l.c)
  {
  }

  /**
   * The checks of a completion on the record it fetched, in every run. It goes on exactly when the record
   * is open, was issued to the signing key, and the proof is signed for it. Otherwise the first check that
   * fails gives the answer, and only a wrong challenge and a wrong `created_at` count as a failure.
   */
  lemma InspectDecides(cfg: Config, s: Sys, l: Label)
    requires Reachable(cfg, s) && Enabled(cfg, s, l) && l.Inspect? && s.calls[l.c].record.Some?
    ensures WellFormed(s) && s.calls[l.c].record.value < |s.challenges.objs|
    ensures CheckedByFields(cfg, s, Next(cfg, s, l), l.c)
  {
    ReachableInv(cfg, s);
    assert Grounded(s, s.calls[l.c]) && CallInv(s, s.calls[l.c]);
    InspectChecks(cfg, s, l);
    assert Next(cfg, s, l) == InspectStep(cfg, s, l);
  }

  /** A challenge id no live record has is answered as unknown. */
  lemma UnknownIsRefused(cfg: Config, s: Sys, l: Label)
    requires WellFormed(s) && Enabled(cfg, s, l) && l.Inspect? && s.calls[l.c].record.None?
    ensures Next(cfg, s, l) == s.(calls := s.calls[l.c := Completed(s.calls[l.c].p, Fail(UnknownChallenge))])
  {
  }

  // ------------------------------------------------------------------------ whole runs

  /** The completion was signed by the key of this record, for its challenge, inside its window. */
  predicate Vouched(cfg: Config, s: Sys, p: Proof, ch: Challenges.Ref) {
    Named(s, p, ch) && SignedFor(cfg, p, s.challenges.objs[ch])
  }

  /** A call past the checks is vouched for; one that succeeded, by the record that answers for it. */
  ghost predicate CallVouched(cfg: Config, s: Sys, call: Call) {
    match call
    case Authorizing(p, _, ch) => Vouched(cfg, s, p, ch)
    case Created(p, _, ch, _) => Vouched(cfg, s, p, ch)
    case Redeeming(p, _, ch, _, _) => Vouched(cfg, s, p, ch)
    case Rereading(p, _, ch, _) => Vouched(cfg, s, p, ch)
    case Resuming(p, _, ch, _) => Vouched(cfg, s, p, ch)
    case Completed(p, o) => o.Ok? ==> exists ch :: Vouched(cfg, s, p, ch) && Answered(s, p, ch, o.session)
    case _ => true
  }

  ghost predicate AllVouched(cfg: Config, s: Sys) {
    forall c <- s.calls :: CallVouched(cfg, s, s.calls[c])
  }

  lemma VouchedStays(cfg: Config, s: Sys, t: Sys, p: Proof, ch: Challenges.Ref)
    requires Evolves(s, t) && Vouched(cfg, s, p, ch)
    ensures Vouched(cfg, t, p, ch)
  {
    assert AgesC(s.challenges.objs[ch], t.challenges.objs[ch]);
  }

  lemma AnsweredStaysAnswered(cfg: Config, s: Sys, t: Sys, p: Proof, ch: Challenges.Ref, x: Sessions.Ref)
    requires ChallengeInv(cfg, s.challenges, s.used) && Evolves(s, t) && Answered(s, p, ch, x)
    ensures Answered(t, p, ch, x)
  {
    assert AgesC(s.challenges.objs[ch], t.challenges.objs[ch]) && Ages(s.sessions.objs[x], t.sessions.objs[x]);
  }

  lemma CallStaysVouched(cfg: Config, s: Sys, t: Sys, call: Call)
    requires ChallengeInv(cfg, s.challenges, s.used) && Evolves(s, t) && CallVouched(cfg, s, call)
    ensures CallVouched(cfg, t, call)
  {
    match call
    case Authorizing(p, _, ch) => VouchedStays(cfg, s, t, p, ch);
    case Created(p, _, ch, _) => VouchedStays(cfg, s, t, p, ch);
    case Redeeming(p, _, ch, _, _) => VouchedStays(cfg, s, t, p, ch);
    case Rereading(p, _, ch, _) => VouchedStays(cfg, s, t, p, ch);
    case Resuming(p, _, ch, _) => VouchedStays(cfg, s, t, p, ch);
    case Completed(p, o) =>
      if o.Ok? {
        var ch :| Vouched(cfg, s, p, ch) && Answered(s, p, ch, o.session);
        VouchedStays(cfg, s, t, p, ch);
        AnsweredStaysAnswered(cfg, s, t, p, ch, o.session);
      }
    case _ =>
  }

  /** A call that moves past its checks, or on from them, is vouched for. */
  lemma FirstVouched(cfg: Config, s: Sys, l: Label)
    requires Inv(cfg, s) && Enabled(cfg, s, l) && l.Inspect?
    ensures l.c in Next(cfg, s, l).calls && CallVouched(cfg, Next(cfg, s, l), Next(cfg, s, l).calls[l.c])
  {
    assert Grounded(s, s.calls[l.c]) && CallInv(s, s.calls[l.c]);
    if s.calls[l.c].record.Some? {
      InspectChecks(cfg, s, l);
    }
    assert Next(cfg, s, l) == InspectStep(cfg, s, l);
  }

  lemma VouchedMovesOn(cfg: Config, s: Sys, l: Label)
    requires Inv(cfg, s) && Enabled(cfg, s, l) && AllVouched(cfg, s) && (l.Decide? || l.Redeem? || l.Reread?)
    ensures l.c in Next(cfg, s, l).calls && CallVouched(cfg, Next(cfg, s, l), Next(cfg, s, l).calls[l.c])
  {
    NextEvolves(cfg, s, l);
    assert CallVouched(cfg, s, s.calls[l.c]) && Grounded(s, s.calls[l.c]);
    VouchedStays(cfg, s, Next(cfg, s, l), s.calls[l.c].p, s.calls[l.c].ch);
  }

  /** A success is the call's own session, or the one it found, and its call was answered with it. */
  lemma SuccessWasAnswered(cfg: Config, s: Sys, l: Label)
    requires Inv(cfg, s) && Enabled(cfg, s, l) && (l.Conclude? || l.Resume?)
    ensures var call, t := s.calls[l.c], Next(cfg, s, l);
            && l.c in t.calls
            && (t.calls[l.c].Completed? && t.calls[l.c].outcome.Ok? ==>
                  t.calls[l.c].p == call.p && Answered(s, call.p, call.ch, t.calls[l.c].outcome.session))
            && (t.calls[l.c].Completed? || (t.calls[l.c].Rereading? && t.calls[l.c].p == call.p && t.calls[l.c].ch == call.ch))
  {
    assert CallInv(s, s.calls[l.c]) && Grounded(s, s.calls[l.c]);
  }

  lemma SuccessIsVouched(cfg: Config, s: Sys, l: Label)
    requires Inv(cfg, s) && Enabled(cfg, s, l) && AllVouched(cfg, s) && (l.Conclude? || l.Resume?)
    ensures l.c in Next(cfg, s, l).calls && CallVouched(cfg, Next(cfg, s, l), Next(cfg, s, l).calls[l.c])
  {
    var call, t := s.calls[l.c], Next(cfg, s, l);
    NextEvolves(cfg, s, l);
    SuccessWasAnswered(cfg, s, l);
    assert CallVouched(cfg, s, call);
    VouchedStays(cfg, s, t, call.p, call.ch);
    if t.calls[l.c].Completed? && t.calls[l.c].outcome.Ok? {
      AnsweredStaysAnswered(cfg, s, t, call.p, call.ch, t.calls[l.c].outcome.session);
    }
  }

  /** Every other step leaves its call where nothing has to be vouched for. */
  lemma OthersNeedNoVoucher(cfg: Config, s: Sys, l: Label)
    requires WellFormed(s) && Enabled(cfg, s, l) && CallOf(l).Some?
    requires !(l.Inspect? || l.Decide? || l.Redeem? || l.Reread? || l.Conclude? || l.Resume?)
    ensures CallOf(l).value in Next(cfg, s, l).calls && CallVouched(cfg, Next(cfg, s, l), Next(cfg, s, l).calls[CallOf(l).value])
  {
  }

  lemma NextKeepsVouched(cfg: Config, s: Sys, l: Label)
    requires Inv(cfg, s) && Enabled(cfg, s, l) && AllVouched(cfg, s)
    ensures AllVouched(cfg, Next(cfg, s, l))
  {
    var t := Next(cfg, s, l);
    NextEvolves(cfg, s, l);
    OneCallMoves(cfg, s, l);
    if l.Inspect? {
      FirstVouched(cfg, s, l);
    } else if l.Decide? || l.Redeem? || l.Reread? {
      VouchedMovesOn(cfg, s, l);
    } else if l.Conclude? || l.Resume? {
      SuccessIsVouched(cfg, s, l);
    } else if CallOf(l).Some? {
      OthersNeedNoVoucher(cfg, s, l);
    }
    forall c <- t.calls | CallOf(l) != Some(c) ensures CallVouched(cfg, t, t.calls[c]) {
      CallStaysVouched(cfg, s, t, s.calls[c]);
    }
  }

  lemma {:induction false} RunKeepsVouched(cfg: Config, s: Sys, ls: seq<Label>)
    requires Inv(cfg, s) && Runs(cfg, s, ls) && AllVouched(cfg, s)
    ensures AllVouched(cfg, After(cfg, s, ls))
    decreases |ls|
  {
    if ls != [] {
      NextKeepsInv(cfg, s, ls[0]);
      NextKeepsVouched(cfg, s, ls[0]);
      RunKeepsVouched(cfg, Next(cfg, s, ls[0]), ls[1..]);
    }
  }

  /**
   * In every state of every run, a completion that waits for the resolver names a record issued to its
   * key, whose challenge it signed inside the record's window; and one that succeeded was, too, with the
   * session that record was redeemed for by this event.
   */
  lemma CompletionsAreSigned(cfg: Config, s: Sys, c: nat)
    requires Reachable(cfg, s) && c in s.calls
    ensures s.calls[c].Authorizing? ==> Vouched(cfg, s, s.calls[c].p, s.calls[c].ch)
    ensures s.calls[c].Completed? && s.calls[c].outcome.Ok? ==>
              exists ch :: Vouched(cfg, s, s.calls[c].p, ch) && Answered(s, s.calls[c].p, ch, s.calls[c].outcome.session)
  {
    var s0, ls :| Reaches(cfg, s0, ls, s);
    assert Reaches(cfg, s0, [], s0);
    ReachableInv(cfg, s0);
    RunKeepsVouched(cfg, s0, ls);
    assert CallVouched(cfg, s, s.calls[c]);
  }

  // ----------------------------------------------------------------- what a login makes

  /** A new session for this challenge, with what the decision and the proof say and nothing else. */
  ghost predicate GivenBy(cfg: Config, x: Sessions.Session, y: Challenges.Challenge, p: Proof, now: int, d: Decision, ids: Ids)
    requires d.Allow?
  {
    && x.sessionId == ids.sessionId && x.accessToken == ids.accessToken
    && x.challengeId == y.challengeId && x.npub == y.npub && x.pubkey == y.pubkey
    && x.roles == d.roles && x.permissions == d.permissions && x.issuedAt == now
    && EndsBy(cfg.sessionTtl, StopOf(d.expiresAt), now, x.expiresAt)
    && (if p.stepUp then x.stepUpToken == Some(ids.stepUpToken) && x.stepUpExpiresAt == Some(now + cfg.stepUpTtl)
        else x.stepUpToken.None? && x.stepUpExpiresAt.None?)
    && (if cfg.refreshTtl.Some? && cfg.refreshTtl.value != 0
        then x.refreshToken == Some(ids.refreshToken) && x.refreshExpiresAt == Some(now + cfg.refreshTtl.value)
        else x.refreshToken.None? && x.refreshExpiresAt.None?)
    && x.previousRefreshToken.None? && x.revokedAt.None?
  }

  lemma NewSessionIsGiven(cfg: Config, y: Challenges.Challenge, p: Proof, now: int, d: Decision, ids: Ids)
    requires d.Allow?
    ensures GivenBy(cfg, NewSession(cfg, y, p, now, d, ids), y, p, now, d, ids)
  {
    MintedExpiryIsExact(cfg, now, d.expiresAt, now);
  }

  lemma LoginRecords(st: Sessions.Store, now: int, record: Sessions.Session)
    requires Sessions.Indexed(st) && Sessions.FreshRecord(st, record)
    ensures var (after, ref) := Sessions.CreateForChallenge(st, now, record);
            && ref < |after.objs| && after.objs[ref].challengeId == record.challengeId && Sessions.Live(after, ref)
            && (|| (after.objs == st.objs + [record] && ref == |st.objs|)
                || after.objs == st.objs)
  {
    Sessions.CreateKeepsIndexed(st, now, record);
  }

  /** From `s` to `t` call `c` was decided: a denial makes nothing, an allowed login its own session or
      none where the challenge has one already. */
  ghost predicate LoggedIn(cfg: Config, s: Sys, t: Sys, c: nat, d: Decision, ids: Ids)
    requires c in s.calls && s.calls[c].Authorizing? && s.calls[c].ch < |s.challenges.objs|
  {
    var Authorizing(p, now, ch) := s.calls[c];
    var y := s.challenges.objs[ch];
    && c in t.calls && t.challenges == s.challenges
    && if d.Deny? then t.sessions == s.sessions && t.calls[c] == Completed(p, Fail(AclDenied))
       else
         && t.calls[c].Created? && t.calls[c] == Created(p, now, ch, t.calls[c].session)
         && t.calls[c].session < |t.sessions.objs| && Sessions.Live(t.sessions, t.calls[c].session)
         && t.sessions.objs[t.calls[c].session].challengeId == y.challengeId
         && (|| t.sessions.objs == s.sessions.objs
             || (t.sessions.objs == s.sessions.objs + [t.sessions.objs[t.calls[c].session]] && t.calls[c].session == |s.sessions.objs|
                 && GivenBy(cfg, t.sessions.objs[t.calls[c].session], y, p, now, d, ids)))
  }

  lemma DecideMakes(cfg: Config, s: Sys, l: Label)
    requires WellFormed(s) && SessionInv(s.sessions, s.used) && Enabled(cfg, s, l) && l.Decide?
    requires s.calls[l.c].ch < |s.challenges.objs|
    ensures LoggedIn(cfg, s, DecideStep(cfg, s, l), l.c, l.d, l.ids)
  {
    var Authorizing(p, now, ch) := s.calls[l.c];
    if l.d.Allow? {
      var record := NewSession(cfg, s.challenges.objs[ch], p, now, l.d, l.ids);
      IndexKeysAreUsed(s.sessions, s.used);
      NewSessionIsGiven(cfg, s.challenges.objs[ch], p, now, l.d, l.ids);
      LoginRecords(s.sessions, s.clock, record);
    }
  }

  /** In every run, a session made for a completion is what its challenge, its proof and this very decision give. */
  lemma LoginIsGiven(cfg: Config, s: Sys, l: Label)
    requires Reachable(cfg, s) && Enabled(cfg, s, l) && l.Decide?
    ensures WellFormed(s) && s.calls[l.c].ch < |s.challenges.objs| && s.challenges.objs[s.calls[l.c].ch].challengeId == s.calls[l.c].p.challengeId
    ensures LoggedIn(cfg, s, Next(cfg, s, l), l.c, l.d, l.ids)
  {
    ReachableInv(cfg, s);
    assert Grounded(s, s.calls[l.c]) && CallInv(s, s.calls[l.c]);
    DecideMakes(cfg, s, l);
    assert Next(cfg, s, l) == DecideStep(cfg, s, l);
  }
}
