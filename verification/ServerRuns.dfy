/** Runs of the server: the invariant of every reachable state, and how states evolve. */
module ServerRuns {
  import opened Options
  import Sessions
  import Challenges
  import opened Server
  import opened ServerInvariants

  // -------------------------------------------------------------------- the invariant

  /** The challenge a completion names, issued to the key that signed it. */
  predicate Named(s: Sys, p: Proof, ch: Challenges.Ref) {
    && ch < |s.challenges.objs|
    && s.challenges.objs[ch].challengeId == p.challengeId
    && s.challenges.objs[ch].pubkey == p.pubkey
  }

  /** That challenge was redeemed by this very event, for this very session. */
  predicate Answered(s: Sys, p: Proof, ch: Challenges.Ref, x: Sessions.Ref) {
    && Named(s, p, ch) && x < |s.sessions.objs|
    && s.challenges.objs[ch].redeemedEventId == Some(p.eventId)
    && s.challenges.objs[ch].redeemedSessionId == Some(s.sessions.objs[x].sessionId)
  }

  predicate Timely(s: Sys, now: int) {
    0 < now <= s.clock
  }

  ghost predicate CallInv(s: Sys, call: Call) {
    match call
    case Counted(_, _, _, _, now) => Timely(s, now)
    case Proved(_, now) => Timely(s, now)
    case Fetched(p, now, r) => Timely(s, now) && (r.Some? ==> r.value < |s.challenges.objs| && s.challenges.objs[r.value].challengeId == p.challengeId)
    case Authorizing(p, now, ch) => Timely(s, now) && Named(s, p, ch)
    case Created(p, now, ch, _) => Timely(s, now) && Named(s, p, ch)
    case Redeeming(p, now, ch, x, status) =>
      Timely(s, now) && Named(s, p, ch) && (status.WasRedeemed? ==> Answered(s, p, ch, x))
    case Rereading(p, now, ch, r) => Timely(s, now) && Named(s, p, ch) && (r.Some? ==> r.value == ch)
    case Resuming(p, now, ch, found) => Named(s, p, ch) && (found.Some? ==> Answered(s, p, ch, found.value))
    case Completed(p, o) => o.Ok? ==> exists ch :: Answered(s, p, ch, o.session)
    case Resolving(_, _, now) => Timely(s, now)
    case _ => true
  }

  ghost predicate Inv(cfg: Config, s: Sys) {
    && WellFormed(s)
    && s.clock > 0
    && SessionInv(s.sessions, s.used)
    && ChallengeInv(cfg, s.challenges, s.used)
    && (forall c <- s.calls :: CallInv(s, s.calls[c]))
  }

  /** Later states only add records, and change them only as records may age. */
  ghost predicate Evolves(s: Sys, t: Sys) {
    && s.clock <= t.clock
    && s.used <= t.used
    && |s.sessions.objs| <= |t.sessions.objs|
    && (forall r | 0 <= r < |s.sessions.objs| :: Ages(s.sessions.objs[r], t.sessions.objs[r]))
    && |s.challenges.objs| <= |t.challenges.objs|
    && (forall r | 0 <= r < |s.challenges.objs| :: AgesC(s.challenges.objs[r], t.challenges.objs[r]))
  }

  lemma GrantIsFresh(cfg: Config, s: Sys, l: Label)
    requires Inv(cfg, s) && Enabled(cfg, s, l) && (l.Grant? || l.Check?)
    ensures OpFresh(SessionOpOf(cfg, s, l), s.used, Next(cfg, s, l).used)
  {
    assert CallInv(s, s.calls[l.c]);
  }

  lemma OpsAreFresh(cfg: Config, s: Sys, l: Label)
    requires Inv(cfg, s) && Enabled(cfg, s, l)
    ensures OpFresh(SessionOpOf(cfg, s, l), s.used, Next(cfg, s, l).used)
    ensures OpFreshC(cfg, ChallengeOpOf(cfg, s, l), s.used, Next(cfg, s, l).used)
  {
    if l.Grant? || l.Check? {
      GrantIsFresh(cfg, s, l);
    }
  }

  lemma SessionsEvolve(st: Sessions.Store, op: SessionOp, used: set<string>, used': set<string>)
    requires SessionInv(st, used) && OpFresh(op, used, used')
    ensures SessionInv(Apply(st, op), used') && |st.objs| <= |Apply(st, op).objs|
    ensures forall r | 0 <= r < |st.objs| :: Ages(st.objs[r], Apply(st, op).objs[r])
  {
    ApplyAges(st, op, used, used');
    ApplyKeepsInv(st, op, used, used');
  }

  lemma ChallengesEvolve(cfg: Config, st: Challenges.Store, op: ChallengeOp, used: set<string>, used': set<string>)
    requires ChallengeInv(cfg, st, used) && OpFreshC(cfg, op, used, used')
    ensures ChallengeInv(cfg, ApplyC(st, op), used') && |st.objs| <= |ApplyC(st, op).objs|
    ensures forall r | 0 <= r < |st.objs| :: AgesC(st.objs[r], ApplyC(st, op).objs[r])
  {
    ApplyCAges(cfg, st, op, used, used');
    ApplyCKeepsInv(cfg, st, op, used, used');
  }

  lemma ClockAndIdsGrow(cfg: Config, s: Sys, l: Label)
    requires WellFormed(s) && Enabled(cfg, s, l)
    ensures s.clock <= Next(cfg, s, l).clock && s.used <= Next(cfg, s, l).used
  {
  }

  lemma NextEvolves(cfg: Config, s: Sys, l: Label)
    requires Inv(cfg, s) && Enabled(cfg, s, l)
    ensures Evolves(s, Next(cfg, s, l))
    ensures SessionInv(Next(cfg, s, l).sessions, Next(cfg, s, l).used)
    ensures ChallengeInv(cfg, Next(cfg, s, l).challenges, Next(cfg, s, l).used)
  {
    var used' := Next(cfg, s, l).used;
    OpsAreFresh(cfg, s, l);
    SessionEffect(cfg, s, l);
    ChallengeEffect(cfg, s, l);
    ClockAndIdsGrow(cfg, s, l);
    SessionsEvolve(s.sessions, SessionOpOf(cfg, s, l), s.used, used');
    ChallengesEvolve(cfg, s.challenges, ChallengeOpOf(cfg, s, l), s.used, used');
  }

  /** What a call relies on survives every later step. */
  lemma CallInvIsStable(cfg: Config, s: Sys, t: Sys, call: Call)
    requires ChallengeInv(cfg, s.challenges, s.used) && Evolves(s, t) && Grounded(s, call) && CallInv(s, call)
    ensures Grounded(t, call) && CallInv(t, call)
  {
    forall p, ch: nat, x: nat | Answered(s, p, ch, x) ensures Answered(t, p, ch, x) {
      assert AgesC(s.challenges.objs[ch], t.challenges.objs[ch]) && Ages(s.sessions.objs[x], t.sessions.objs[x]);
    }
    match call
    case Completed(p, o) =>
      if o.Ok? {
        var ch :| Answered(s, p, ch, o.session);
        assert Answered(t, p, ch, o.session);
      }
    case Fetched(_, _, r) =>
      if r.Some? {
        assert AgesC(s.challenges.objs[r.value], t.challenges.objs[r.value]);
      }
    case Authorizing(_, _, ch) => assert AgesC(s.challenges.objs[ch], t.challenges.objs[ch]);
    case Created(_, _, ch, _) => assert AgesC(s.challenges.objs[ch], t.challenges.objs[ch]);
    case Redeeming(_, _, ch, _, _) => assert AgesC(s.challenges.objs[ch], t.challenges.objs[ch]);
    case Rereading(_, _, ch, _) => assert AgesC(s.challenges.objs[ch], t.challenges.objs[ch]);
    case Resuming(_, _, ch, _) => assert AgesC(s.challenges.objs[ch], t.challenges.objs[ch]);
    case _ =>
  }

  /** The call a label advances, if it is about one. */
  function CallOf(l: Label): Option<nat> {
    match l
    case Tick(_) => None
    case Logout(_) => None
    case RevokePrincipal(_) => None
    case ExpireChallenges => None
    case _ => Some(l.c)
  }

  /** A step changes the state of one call at most. */
  lemma OneCallMoves(cfg: Config, s: Sys, l: Label)
    requires WellFormed(s) && Enabled(cfg, s, l)
    ensures var t := Next(cfg, s, l);
            if CallOf(l).None? then t.calls == s.calls
            else CallOf(l).value in t.calls && t.calls == s.calls[CallOf(l).value := t.calls[CallOf(l).value]]
  {
  }

  /** The call that moved still satisfies its part of the invariant. */
  ghost predicate MovedWell(t: Sys, c: nat) {
    c in t.calls && Grounded(t, t.calls[c]) && CallInv(t, t.calls[c])
  }

  lemma FetchedWell(cfg: Config, s: Sys, l: Label)
    requires Inv(cfg, s) && Enabled(cfg, s, l) && l.Fetch?
    ensures MovedWell(Next(cfg, s, l), CallOf(l).value)
  {
    assert Grounded(s, s.calls[l.c]) && CallInv(s, s.calls[l.c]);
  }

  lemma InspectLeaves(cfg: Config, s: Sys, l: Label)
    requires WellFormed(s) && Enabled(cfg, s, l) && l.Inspect?
    ensures var t, was := InspectStep(cfg, s, l), s.calls[l.c];
            && l.c in t.calls && t.clock == s.clock
            && var call := t.calls[l.c];
               || (call.Completed? && call.outcome.Fail?)
               || (&& t.challenges == s.challenges && was.record.Some? && was.record.value < |s.challenges.objs|
                   && call == Authorizing(was.p, was.now, was.record.value)
                   && s.challenges.objs[was.record.value].pubkey == was.p.pubkey)
  {
    assert Grounded(s, s.calls[l.c]);
  }

  lemma InspectedWell(cfg: Config, s: Sys, l: Label)
    requires Inv(cfg, s) && Enabled(cfg, s, l) && l.Inspect?
    ensures MovedWell(Next(cfg, s, l), CallOf(l).value)
  {
    assert CallInv(s, s.calls[l.c]);
    InspectLeaves(cfg, s, l);
    assert Next(cfg, s, l) == InspectStep(cfg, s, l);
  }

  lemma DecidedWell(cfg: Config, s: Sys, l: Label)
    requires Inv(cfg, s) && Enabled(cfg, s, l) && l.Decide?
    ensures MovedWell(Next(cfg, s, l), CallOf(l).value)
  {
    NextEvolves(cfg, s, l);
    assert Grounded(s, s.calls[l.c]) && CallInv(s, s.calls[l.c]);
  }

  lemma RedeemedWell(cfg: Config, s: Sys, l: Label)
    requires Inv(cfg, s) && Enabled(cfg, s, l) && l.Redeem?
    ensures MovedWell(Next(cfg, s, l), CallOf(l).value)
  {
    NextEvolves(cfg, s, l);
    assert Grounded(s, s.calls[l.c]) && CallInv(s, s.calls[l.c]);
  }

  /** An answered completion stays answered. */
  lemma AnsweredStays(cfg: Config, s: Sys, l: Label, p: Proof, ch: Challenges.Ref, x: Sessions.Ref)
    requires Inv(cfg, s) && Enabled(cfg, s, l) && Answered(s, p, ch, x)
    ensures Answered(Next(cfg, s, l), p, ch, x)
  {
    NextEvolves(cfg, s, l);
    assert AgesC(s.challenges.objs[ch], Next(cfg, s, l).challenges.objs[ch]);
    assert Ages(s.sessions.objs[x], Next(cfg, s, l).sessions.objs[x]);
  }

  lemma ConcludedWell(cfg: Config, s: Sys, l: Label)
    requires Inv(cfg, s) && Enabled(cfg, s, l) && l.Conclude?
    ensures MovedWell(Next(cfg, s, l), CallOf(l).value)
  {
    assert Grounded(s, s.calls[l.c]) && CallInv(s, s.calls[l.c]);
    var Redeeming(p, _, ch, x, status) := s.calls[l.c];
    if status.WasRedeemed? {
      AnsweredStays(cfg, s, l, p, ch, x);
    }
    assert Next(cfg, s, l) == ConcludeStep(cfg, s, l);
  }

  lemma RereadWell(cfg: Config, s: Sys, l: Label)
    requires Inv(cfg, s) && Enabled(cfg, s, l) && l.Reread?
    ensures MovedWell(Next(cfg, s, l), CallOf(l).value)
  {
    NextEvolves(cfg, s, l);
    assert Grounded(s, s.calls[l.c]) && CallInv(s, s.calls[l.c]);
  }

  lemma ResumedWell(cfg: Config, s: Sys, l: Label)
    requires Inv(cfg, s) && Enabled(cfg, s, l) && l.Resume?
    ensures MovedWell(Next(cfg, s, l), CallOf(l).value)
  {
    assert Grounded(s, s.calls[l.c]) && CallInv(s, s.calls[l.c]);
    var Resuming(p, _, ch, found) := s.calls[l.c];
    if found.Some? {
      AnsweredStays(cfg, s, l, p, ch, found.value);
    }
    assert Next(cfg, s, l) == ResumeStep(cfg, s, l);
  }

  lemma CheckLeaves(cfg: Config, s: Sys, l: Label)
    requires WellFormed(s) && Enabled(cfg, s, l) && l.Check?
    ensures var t := CheckStep(cfg, s, l);
            && l.c in t.calls && t.clock == s.clock && |t.sessions.objs| == |s.sessions.objs|
            && var call := t.calls[l.c];
               || (call.Refreshed? && call.outcome.Fail?)
               || (call.Resolving? && call.ref < |s.sessions.objs| && call.now == s.clock)
  {
    assert Grounded(s, s.calls[l.c]);
  }

  lemma CheckedWell(cfg: Config, s: Sys, l: Label)
    requires Inv(cfg, s) && Enabled(cfg, s, l) && l.Check?
    ensures MovedWell(Next(cfg, s, l), CallOf(l).value)
  {
    CheckLeaves(cfg, s, l);
    assert Next(cfg, s, l) == CheckStep(cfg, s, l);
  }

  lemma AcceptedWell(cfg: Config, s: Sys, l: Label)
    requires Inv(cfg, s) && Enabled(cfg, s, l) && l.Accept?
    ensures MovedWell(Next(cfg, s, l), CallOf(l).value)
  {
    assert Grounded(s, s.calls[l.c]);
    assert Next(cfg, s, l) == AcceptStep(cfg, s, l);
  }

  lemma GrantedWell(cfg: Config, s: Sys, l: Label)
    requires Inv(cfg, s) && Enabled(cfg, s, l) && l.Grant?
    ensures MovedWell(Next(cfg, s, l), CallOf(l).value)
  {
    NextEvolves(cfg, s, l);
    assert Grounded(s, s.calls[l.c]) && CallInv(s, s.calls[l.c]);
    assert Next(cfg, s, l) == GrantStep(cfg, s, l);
  }

  lemma StartedWell(cfg: Config, s: Sys, l: Label)
    requires Inv(cfg, s) && Enabled(cfg, s, l)
    requires l.BeginInit? || l.CreateChallenge? || l.BeginComplete? || l.BeginRefresh? || l.BeginLoad?
    ensures MovedWell(Next(cfg, s, l), CallOf(l).value)
  {
    NextEvolves(cfg, s, l);
  }

  lemma CallMovesWell(cfg: Config, s: Sys, l: Label)
    requires Inv(cfg, s) && Enabled(cfg, s, l) && CallOf(l).Some?
    ensures MovedWell(Next(cfg, s, l), CallOf(l).value)
  {
    match l
    case Fetch(_) => FetchedWell(cfg, s, l);
    case Inspect(_) => InspectedWell(cfg, s, l);
    case Decide(_, _, _) => DecidedWell(cfg, s, l);
    case Redeem(_) => RedeemedWell(cfg, s, l);
    case Conclude(_) => ConcludedWell(cfg, s, l);
    case Reread(_) => RereadWell(cfg, s, l);
    case Resume(_) => ResumedWell(cfg, s, l);
    case Check(_) => CheckedWell(cfg, s, l);
    case Grant(_, _, _, _) => GrantedWell(cfg, s, l);
    case Accept(_) => AcceptedWell(cfg, s, l);
    case _ => StartedWell(cfg, s, l);
  }

  lemma NextKeepsInv(cfg: Config, s: Sys, l: Label)
    requires Inv(cfg, s) && Enabled(cfg, s, l)
    ensures Inv(cfg, Next(cfg, s, l)) && Evolves(s, Next(cfg, s, l))
  {
    var t := Next(cfg, s, l);
    NextEvolves(cfg, s, l);
    OneCallMoves(cfg, s, l);
    forall c <- t.calls ensures Grounded(t, t.calls[c]) && CallInv(t, t.calls[c]) {
      if CallOf(l) == Some(c) {
        CallMovesWell(cfg, s, l);
      } else {
        CallInvIsStable(cfg, s, t, s.calls[c]);
      }
    }
  }

  // --------------------------------------------------------------------------- runs

  /** The labels can be taken one after the other from `s`. */
  ghost predicate Runs(cfg: Config, s: Sys, ls: seq<Label>)
    decreases |ls|
  {
    WellFormed(s) && (ls == [] || (Enabled(cfg, s, ls[0]) && Runs(cfg, Next(cfg, s, ls[0]), ls[1..])))
  }

  ghost function After(cfg: Config, s: Sys, ls: seq<Label>): Sys
    requires Runs(cfg, s, ls)
    decreases |ls|
  {
    if ls == [] then s else After(cfg, Next(cfg, s, ls[0]), ls[1..])
  }

  ghost predicate Reaches(cfg: Config, s0: Sys, ls: seq<Label>, s: Sys) {
    Initial(s0) && Runs(cfg, s0, ls) && After(cfg, s0, ls) == s
  }

  ghost predicate Reachable(cfg: Config, s: Sys) {
    exists s0, ls :: Reaches(cfg, s0, ls, s)
  }

  lemma {:induction false} RunKeepsInv(cfg: Config, s: Sys, ls: seq<Label>)
    requires Inv(cfg, s) && Runs(cfg, s, ls)
    ensures Inv(cfg, After(cfg, s, ls)) && Evolves(s, After(cfg, s, ls))
    decreases |ls|
  {
    if ls != [] {
      var t := Next(cfg, s, ls[0]);
      NextKeepsInv(cfg, s, ls[0]);
      RunKeepsInv(cfg, t, ls[1..]);
      EvolvesTransitive(s, t, After(cfg, s, ls));
    }
  }

  lemma EvolvesTransitive(s: Sys, t: Sys, u: Sys)
    requires Evolves(s, t) && Evolves(t, u)
    ensures Evolves(s, u)
  {
    forall r | 0 <= r < |s.sessions.objs| ensures Ages(s.sessions.objs[r], u.sessions.objs[r]) {
      assert Ages(s.sessions.objs[r], t.sessions.objs[r]) && Ages(t.sessions.objs[r], u.sessions.objs[r]);
    }
    forall r | 0 <= r < |s.challenges.objs| ensures AgesC(s.challenges.objs[r], u.challenges.objs[r]) {
      assert AgesC(s.challenges.objs[r], t.challenges.objs[r]) && AgesC(t.challenges.objs[r], u.challenges.objs[r]);
    }
  }

  /** Every state of every run satisfies the invariant; in particular its four session indexes are exact. */
  lemma ReachableInv(cfg: Config, s: Sys)
    requires Reachable(cfg, s)
    ensures Inv(cfg, s) && Sessions.Indexed(s.sessions)
  {
    var s0, ls :| Reaches(cfg, s0, ls, s);
    assert Sessions.Indexed(Sessions.EMPTY);
    RunKeepsInv(cfg, s0, ls);
  }
}
