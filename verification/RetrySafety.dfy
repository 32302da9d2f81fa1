/** Completion is safe to retry: one redemption, one session and one event per challenge. */
module RetrySafety {
  import opened Options
  import Challenges
  import opened Server
  import opened ServerInvariants
  import opened ServerRuns

  /** A call has been answered with a session. */
  predicate Succeeded(s: Sys, c: nat) {
    c in s.calls && s.calls[c].Completed? && s.calls[c].outcome.Ok?
  }

  /** However completions of one challenge interleave, all that succeed carry one event and one session. */
  lemma OneSessionPerChallenge(cfg: Config, s: Sys, c: nat, d: nat)
    requires Reachable(cfg, s)
    requires Succeeded(s, c) && Succeeded(s, d) && s.calls[c].p.challengeId == s.calls[d].p.challengeId
    ensures s.calls[c].p.eventId == s.calls[d].p.eventId
    ensures s.calls[c].p.pubkey == s.calls[d].p.pubkey
    ensures s.calls[c].outcome.session == s.calls[d].outcome.session < |s.sessions.objs|
  {
    ReachableInv(cfg, s);
    assert CallInv(s, s.calls[c]) && CallInv(s, s.calls[d]);
    var ch :| Answered(s, s.calls[c].p, ch, s.calls[c].outcome.session);
    var dh :| Answered(s, s.calls[d].p, dh, s.calls[d].outcome.session);
    assert ch == dh;
  }

  /** The step answers `redeemed` for the challenge with this id. */
  ghost predicate RedeemsNow(cfg: Config, s: Sys, l: Label, challengeId: string)
    requires WellFormed(s)
  {
    && l.Redeem? && Enabled(cfg, s, l)
    && s.calls[l.c].p.challengeId == challengeId
    && Next(cfg, s, l).calls[l.c].status == Challenges.WasRedeemed
  }

  /** The challenge with this id has left the `issued` state, under which alone it can be redeemed. */
  predicate Settled(s: Sys, challengeId: string, ch: Challenges.Ref) {
    && ch < |s.challenges.objs|
    && s.challenges.objs[ch].challengeId == challengeId
    && s.challenges.objs[ch].state != Challenges.Issued
  }

  lemma RedeemingSettles(cfg: Config, s: Sys, l: Label, challengeId: string) returns (ch: Challenges.Ref)
    requires Inv(cfg, s) && RedeemsNow(cfg, s, l, challengeId)
    ensures Settled(Next(cfg, s, l), challengeId, ch)
  {
    assert Grounded(s, s.calls[l.c]) && CallInv(s, s.calls[l.c]);
    ch := s.challenges.records[challengeId];
  }

  lemma SettledIsNotRedeemed(cfg: Config, s: Sys, l: Label, challengeId: string, ch: Challenges.Ref)
    requires Inv(cfg, s) && Settled(s, challengeId, ch)
    ensures !RedeemsNow(cfg, s, l, challengeId)
  {
    if l.Redeem? && Enabled(cfg, s, l) {
      assert Grounded(s, s.calls[l.c]) && CallInv(s, s.calls[l.c]);
      assert s.calls[l.c].p.challengeId == challengeId ==> s.calls[l.c].ch == ch;
    }
  }

  /** Over any run, `redeem` answers `redeemed` at most once for a challenge. */
  lemma RedeemedAtMostOnce(cfg: Config, s: Sys, l: Label, ls: seq<Label>, l': Label, challengeId: string)
    requires Reachable(cfg, s) && WellFormed(s) && RedeemsNow(cfg, s, l, challengeId)
    requires Runs(cfg, Next(cfg, s, l), ls)
    ensures WellFormed(After(cfg, Next(cfg, s, l), ls))
    ensures !RedeemsNow(cfg, After(cfg, Next(cfg, s, l), ls), l', challengeId)
  {
    ReachableInv(cfg, s);
    var t := Next(cfg, s, l);
    var u := After(cfg, t, ls);
    NextKeepsInv(cfg, s, l);
    RunKeepsInv(cfg, t, ls);
    var ch := RedeemingSettles(cfg, s, l, challengeId);
    assert AgesC(t.challenges.objs[ch], u.challenges.objs[ch]);
    SettledIsNotRedeemed(cfg, u, l', challengeId, ch);
  }

  /** A challenge's failures stay within the cap, and it is never both redeemed and burnt, in either order. */
  lemma BudgetAndRedemptionExclude(cfg: Config, s: Sys, ls: seq<Label>, ch: Challenges.Ref)
    requires Reachable(cfg, s) && Runs(cfg, s, ls) && ch < |s.challenges.objs|
    ensures var t := After(cfg, s, ls);
            && ch < |t.challenges.objs|
            && t.challenges.objs[ch].failureCount <= Max(cfg.maxFailures, 0)
            && (s.challenges.objs[ch].state == Challenges.FailedTerminal ==> !WasRedeemed(t.challenges.objs[ch]))
            && (WasRedeemed(s.challenges.objs[ch]) ==>
                  t.challenges.objs[ch].state != Challenges.FailedTerminal && t.challenges.objs[ch].failureCount < Max(cfg.maxFailures, 1))
            && (s.challenges.objs[ch].state != Challenges.Issued ==> t.challenges.objs[ch].state != Challenges.Issued)
  {
    ReachableInv(cfg, s);
    RunKeepsInv(cfg, s, ls);
    var t := After(cfg, s, ls);
    assert AgesC(s.challenges.objs[ch], t.challenges.objs[ch]);
    assert SoundRecord(cfg, s.challenges.objs[ch]) && SoundRecord(cfg, t.challenges.objs[ch]);
  }
}
