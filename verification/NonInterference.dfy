/** Completions signed by someone else's key change nothing for anybody (rate limiter off). */
module NonInterference {
  import opened Server
  import opened ServerInvariants
  import opened ServerRuns

  /** The state as it would be had the calls in `f` never been made. */
  function Erase(s: Sys, f: set<nat>): Sys {
    s.(calls := s.calls - f)
  }

  predicate Concerns(l: Label, f: set<nat>) {
    CallOf(l).Some? && CallOf(l).value in f
  }

  /** The labels that are not about the calls in `f`. */
  function Others(ls: seq<Label>, f: set<nat>): seq<Label> {
    if ls == [] then []
    else (if Concerns(ls[0], f) then [] else [ls[0]]) + Others(ls[1..], f)
  }

  /** No challenge with the id this proof names was issued to the key that signed it. */
  ghost predicate Stranger(u: Sys, p: Proof) {
    forall ch | 0 <= ch < |u.challenges.objs| :: u.challenges.objs[ch].challengeId == p.challengeId ==>
      u.challenges.objs[ch].pubkey != p.pubkey
  }

  predicate Begins(l: Label) {
    l.BeginInit? || l.BeginComplete? || l.BeginRefresh? || l.BeginLoad?
  }

  /** All that the labels start under the names in `f` are completions by strangers. */
  ghost predicate OnlyStrangers(ls: seq<Label>, f: set<nat>, u: Sys) {
    forall l <- ls :: Begins(l) && Concerns(l, f) ==> l.BeginComplete? && Stranger(u, l.p)
  }

  /** The calls in `f` that are under way are strangers' completions that got nowhere. */
  ghost predicate StrangersSoFar(s: Sys, f: set<nat>, u: Sys) {
    forall c <- s.calls :: c in f ==>
      && (s.calls[c].Proved? || s.calls[c].Fetched? || (s.calls[c].Completed? && s.calls[c].outcome.Fail?))
      && Stranger(u, s.calls[c].p)
  }

  lemma StrangerIsRejected(cfg: Config, s: Sys, l: Label, u: Sys)
    requires Inv(cfg, s) && Enabled(cfg, s, l) && Evolves(s, u) && l.Inspect? && Stranger(u, s.calls[l.c].p)
    ensures exists code :: Next(cfg, s, l) == Become(s, l.c, Completed(s.calls[l.c].p, Fail(code)))
  {
    assert Grounded(s, s.calls[l.c]) && CallInv(s, s.calls[l.c]);
    var Fetched(p, now, record) := s.calls[l.c];
    if record.None? {
      assert Next(cfg, s, l) == Become(s, l.c, Completed(p, Fail(UnknownChallenge)));
    } else {
      var x := s.challenges.objs[record.value];
      assert AgesC(x, u.challenges.objs[record.value]);
      assert Judge(cfg, p, now, x).Reject?;
      assert Next(cfg, s, l) == Become(s, l.c, Completed(p, Fail(Judge(cfg, p, now, x).code)));
    }
  }

  /** A step of a stranger's completion is invisible outside it. */
  lemma StrangerStutters(cfg: Config, s: Sys, l: Label, f: set<nat>, u: Sys)
    requires Inv(cfg, s) && Enabled(cfg, s, l) && Evolves(s, u) && Concerns(l, f)
    requires StrangersSoFar(s, f, u) && (Begins(l) ==> l.BeginComplete? && Stranger(u, l.p))
    ensures Erase(Next(cfg, s, l), f) == Erase(s, f)
    ensures StrangersSoFar(Next(cfg, s, l), f, u)
  {
    var c := CallOf(l).value;
    if l.Inspect? {
      StrangerIsRejected(cfg, s, l, u);
    }
    assert l.BeginComplete? || l.Fetch? || l.Inspect?;
    OneCallMoves(cfg, s, l);
    var t := Next(cfg, s, l);
    assert t.calls - f == s.calls - f;
  }

  lemma ErasedIsWellFormed(s: Sys, f: set<nat>)
    requires WellFormed(s)
    ensures WellFormed(Erase(s, f))
  {
    forall c <- Erase(s, f).calls ensures Grounded(Erase(s, f), s.calls[c]) {
      assert Grounded(s, s.calls[c]);
    }
  }

  /** Every other step does the same with and without the calls in `f`. */
  lemma OthersCommute(cfg: Config, s: Sys, l: Label, f: set<nat>)
    requires WellFormed(s) && Enabled(cfg, s, l) && !Concerns(l, f)
    ensures WellFormed(Erase(s, f)) && Enabled(cfg, Erase(s, f), l)
    ensures Next(cfg, Erase(s, f), l) == Erase(Next(cfg, s, l), f)
  {
    ErasedIsWellFormed(s, f);
    var e := Erase(s, f);
    SameStores(cfg, s, l, f);
    SameCalls(cfg, s, l, f);
    assert Next(cfg, e, l).(calls := Next(cfg, s, l).calls - f) == Next(cfg, s, l).(calls := Next(cfg, s, l).calls - f);
  }

  lemma SameCalls(cfg: Config, s: Sys, l: Label, f: set<nat>)
    requires WellFormed(s) && WellFormed(Erase(s, f)) && Enabled(cfg, s, l) && Enabled(cfg, Erase(s, f), l) && !Concerns(l, f)
    ensures Next(cfg, Erase(s, f), l).calls == Next(cfg, s, l).calls - f
  {
    OneCallMoves(cfg, s, l);
    OneCallMoves(cfg, Erase(s, f), l);
    if CallOf(l).Some? {
      var c := CallOf(l).value;
      SameCall(cfg, s, l, f);
      assert (s.calls - f)[c := Next(cfg, s, l).calls[c]] == s.calls[c := Next(cfg, s, l).calls[c]] - f;
    }
  }

  lemma SameOps(cfg: Config, s: Sys, l: Label, f: set<nat>)
    requires WellFormed(s) && WellFormed(Erase(s, f)) && Enabled(cfg, s, l) && !Concerns(l, f)
    ensures Enabled(cfg, Erase(s, f), l)
    ensures SessionOpOf(cfg, Erase(s, f), l) == SessionOpOf(cfg, s, l) && ChallengeOpOf(cfg, Erase(s, f), l) == ChallengeOpOf(cfg, s, l)
  {
  }

  lemma SameClock(cfg: Config, s: Sys, e: Sys, l: Label)
    requires WellFormed(s) && WellFormed(e) && Enabled(cfg, s, l) && Enabled(cfg, e, l) && Alike(s, e, l)
    ensures Next(cfg, s, l).clock == Next(cfg, e, l).clock
  {
  }

  lemma SameIdsDrawn(cfg: Config, s: Sys, e: Sys, l: Label)
    requires WellFormed(s) && WellFormed(e) && Enabled(cfg, s, l) && Enabled(cfg, e, l) && Alike(s, e, l)
    ensures Next(cfg, s, l).used == Next(cfg, e, l).used
  {
    match l
    case CreateChallenge(_, _, _) => assert Next(cfg, s, l) == CreateChallengeStep(cfg, s, l);
    case Decide(_, _, _) => assert Next(cfg, s, l) == DecideStep(cfg, s, l);
    case Grant(_, _, _, _) => assert Next(cfg, s, l) == GrantStep(cfg, s, l);
    case _ =>
  }

  lemma SameStores(cfg: Config, s: Sys, l: Label, f: set<nat>)
    requires WellFormed(s) && WellFormed(Erase(s, f)) && Enabled(cfg, s, l) && !Concerns(l, f)
    ensures Enabled(cfg, Erase(s, f), l)
    ensures var t, e := Next(cfg, s, l), Next(cfg, Erase(s, f), l);
            t.sessions == e.sessions && t.challenges == e.challenges && t.clock == e.clock && t.used == e.used
  {
    SameOps(cfg, s, l, f);
    SessionEffect(cfg, s, l);
    SessionEffect(cfg, Erase(s, f), l);
    ChallengeEffect(cfg, s, l);
    ChallengeEffect(cfg, Erase(s, f), l);
    SameClock(cfg, s, Erase(s, f), l);
    SameIdsDrawn(cfg, s, Erase(s, f), l);
  }

  /** The call a step moves comes out the same. */
  ghost predicate MovesAlike(cfg: Config, s: Sys, e: Sys, l: Label)
    requires WellFormed(s) && WellFormed(e) && Enabled(cfg, s, l) && Enabled(cfg, e, l) && CallOf(l).Some?
  {
    var c := CallOf(l).value;
    c in Next(cfg, s, l).calls && c in Next(cfg, e, l).calls && Next(cfg, s, l).calls[c] == Next(cfg, e, l).calls[c]
  }

  /** The two states differ only in calls this step does not touch. */
  ghost predicate Alike(s: Sys, e: Sys, l: Label) {
    && e == s.(calls := e.calls)
    && (CallOf(l).Some? ==>
          var c := CallOf(l).value; (c in s.calls <==> c in e.calls) && (c in s.calls ==> s.calls[c] == e.calls[c]))
  }

  lemma SameInitOrLoad(cfg: Config, s: Sys, e: Sys, l: Label)
    requires WellFormed(s) && WellFormed(e) && Enabled(cfg, s, l) && Enabled(cfg, e, l) && CallOf(l).Some? && Alike(s, e, l)
    requires l.BeginInit? || l.CreateChallenge? || l.BeginLoad? || l.Accept?
    ensures MovesAlike(cfg, s, e, l)
  {
  }

  lemma SameCompletion(cfg: Config, s: Sys, e: Sys, l: Label)
    requires WellFormed(s) && WellFormed(e) && Enabled(cfg, s, l) && Enabled(cfg, e, l) && CallOf(l).Some? && Alike(s, e, l)
    requires l.BeginComplete? || l.Fetch? || l.Inspect? || l.Decide?
    ensures MovesAlike(cfg, s, e, l)
  {
  }

  lemma SameRedemption(cfg: Config, s: Sys, e: Sys, l: Label)
    requires WellFormed(s) && WellFormed(e) && Enabled(cfg, s, l) && Enabled(cfg, e, l) && CallOf(l).Some? && Alike(s, e, l)
    requires l.Redeem? || l.Conclude? || l.Reread? || l.Resume?
    ensures MovesAlike(cfg, s, e, l)
  {
  }

  lemma SameRefresh(cfg: Config, s: Sys, e: Sys, l: Label)
    requires WellFormed(s) && WellFormed(e) && Enabled(cfg, s, l) && Enabled(cfg, e, l) && CallOf(l).Some? && Alike(s, e, l)
    requires l.BeginRefresh? || l.Check? || l.Grant?
    ensures MovesAlike(cfg, s, e, l)
  {
  }

  lemma SameCall(cfg: Config, s: Sys, l: Label, f: set<nat>)
    requires WellFormed(s) && WellFormed(Erase(s, f)) && Enabled(cfg, s, l) && Enabled(cfg, Erase(s, f), l)
    requires CallOf(l).Some? && !Concerns(l, f)
    ensures MovesAlike(cfg, s, Erase(s, f), l)
  {
    var e := Erase(s, f);
    assert Alike(s, e, l);
    if l.BeginInit? || l.CreateChallenge? || l.BeginLoad? || l.Accept? {
      SameInitOrLoad(cfg, s, e, l);
    } else if l.BeginRefresh? || l.Check? || l.Grant? {
      SameRefresh(cfg, s, e, l);
    } else if l.Redeem? || l.Conclude? || l.Reread? || l.Resume? {
      SameRedemption(cfg, s, e, l);
    } else {
      SameCompletion(cfg, s, e, l);
    }
  }

  lemma {:induction false} RunWithoutStrangers(cfg: Config, s: Sys, ls: seq<Label>, f: set<nat>, u: Sys)
    requires Inv(cfg, s) && Runs(cfg, s, ls) && u == After(cfg, s, ls)
    requires OnlyStrangers(ls, f, u) && StrangersSoFar(s, f, u)
    ensures Runs(cfg, Erase(s, f), Others(ls, f)) && After(cfg, Erase(s, f), Others(ls, f)) == Erase(u, f)
    decreases |ls|
  {
    ErasedIsWellFormed(s, f);
    if ls != [] {
      var l, t := ls[0], Next(cfg, s, ls[0]);
      NextKeepsInv(cfg, s, l);
      RunKeepsInv(cfg, s, ls);
      if Concerns(l, f) {
        assert l in ls;
        StrangerStutters(cfg, s, l, f, u);
        RunWithoutStrangers(cfg, t, ls[1..], f, u);
        assert Others(ls, f) == Others(ls[1..], f);
      } else {
        OthersCommute(cfg, s, l, f);
        OneCallMoves(cfg, s, l);
        RunWithoutStrangers(cfg, t, ls[1..], f, u);
        assert Others(ls, f) == [l] + Others(ls[1..], f);
        assert Others(ls, f)[1..] == Others(ls[1..], f);
      }
    }
  }

  /** Take any run of the server and drop from it any number of completions whose signing key is not
      the key of the challenge they name: what remains is a run too, and it ends in the same state,
      with the same challenge records, the same sessions and the same outcome of every other call. */
  lemma StrangersLeaveNoTrace(cfg: Config, s0: Sys, ls: seq<Label>, f: set<nat>)
    requires Initial(s0) && Runs(cfg, s0, ls) && OnlyStrangers(ls, f, After(cfg, s0, ls))
    ensures Runs(cfg, s0, Others(ls, f))
    ensures After(cfg, s0, Others(ls, f)) == Erase(After(cfg, s0, ls), f)
  {
    assert Reaches(cfg, s0, [], s0);
    ReachableInv(cfg, s0);
    RunWithoutStrangers(cfg, s0, ls, f, After(cfg, s0, ls));
    assert Erase(s0, f) == s0;
  }
}
