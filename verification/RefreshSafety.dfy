/** Refresh tokens are single-spend and linear. */
module RefreshSafety {
  import opened Options
  import Sessions
  import opened Server
  import opened ServerInvariants
  import opened ServerRuns

  // ------------------------------------------------------------------- single spend

  /** The step is a successful rotation of session `r`, and `token` is the refresh token it consumes. */
  ghost predicate RotatesNow(cfg: Config, s: Sys, l: Label, r: Sessions.Ref, token: string)
    requires WellFormed(s)
  {
    && l.Grant? && Enabled(cfg, s, l)
    && s.calls[l.c].token == token
    && Next(cfg, s, l).calls[l.c] == Refreshed(Ok(r))
  }

  /** A token that was issued and that no session, live or swept, currently holds. */
  ghost predicate Spent(s: Sys, token: string) {
    token in s.used && forall i | 0 <= i < |s.sessions.objs| :: s.sessions.objs[i].refreshToken != Some(token)
  }

  lemma RotationFacts(cfg: Config, s: Sys, l: Label, r: Sessions.Ref, token: string)
    requires Inv(cfg, s) && RotatesNow(cfg, s, l, r, token)
    ensures l.Grant? && l.c in s.calls && s.calls[l.c].Resolving?
    ensures r < |s.sessions.objs| && Sessions.Live(s.sessions, r) && s.calls[l.c].ref == r
    ensures s.sessions.objs[r].refreshToken == Some(token)
    ensures l.d.Allow? &&
            Next(cfg, s, l).sessions.objs ==
            s.sessions.objs[r := Sessions.Rotated(s.sessions.objs[r], RotationFor(cfg, s.sessions.objs[r], s.calls[l.c], l.d, l.accessToken, l.refreshToken))]
  {
    assert Grounded(s, s.calls[l.c]) && CallInv(s, s.calls[l.c]);
  }

  /** With every other session holding other tokens, a rotation leaves the token it consumes with none. */
  lemma RotatedAway(objs: seq<Sessions.Session>, r: Sessions.Ref, p: Sessions.Rotation, token: string)
    requires r < |objs| && objs[r].refreshToken == Some(token) && p.refreshToken != token && token != ""
    requires forall i | 0 <= i < |objs| && i != r :: Disjoint(objs[i], objs[r])
    ensures var after := objs[r := Sessions.Rotated(objs[r], p)]; forall i | 0 <= i < |after| :: after[i].refreshToken != Some(token)
  {
    forall i | 0 <= i < |objs| && i != r ensures objs[i].refreshToken != Some(token) {
      assert Disjoint(objs[i], objs[r]);
    }
  }

  /** The token a rotation gives out is not the one it consumes, which was issued before. */
  lemma RotationGivesAnother(cfg: Config, s: Sys, l: Label, r: Sessions.Ref, token: string)
    requires WellFormed(s) && RotatesNow(cfg, s, l, r, token) && r < |s.sessions.objs|
    requires KnownSession(s.sessions.objs[r], s.used) && s.sessions.objs[r].refreshToken == Some(token)
    ensures token != "" && token in s.used && l.refreshToken != token
  {
  }

  lemma OthersHoldOtherTokens(s: Sys, r: Sessions.Ref)
    requires SessionInv(s.sessions, s.used) && r < |s.sessions.objs|
    ensures KnownSession(s.sessions.objs[r], s.used)
    ensures forall i | 0 <= i < |s.sessions.objs| && i != r :: Disjoint(s.sessions.objs[i], s.sessions.objs[r])
  {
  }

  lemma SpentAfter(s: Sys, t: Sys, r: Sessions.Ref, p: Sessions.Rotation, token: string)
    requires SessionInv(s.sessions, s.used) && r < |s.sessions.objs| && s.used <= t.used
    requires t.sessions.objs == s.sessions.objs[r := Sessions.Rotated(s.sessions.objs[r], p)]
    requires s.sessions.objs[r].refreshToken == Some(token) && p.refreshToken != token
    ensures Spent(t, token)
  {
    OthersHoldOtherTokens(s, r);
    RotatedAway(s.sessions.objs, r, p, token);
  }

  lemma RotatingSpends(cfg: Config, s: Sys, l: Label, r: Sessions.Ref, token: string)
    requires Inv(cfg, s) && RotatesNow(cfg, s, l, r, token)
    ensures Spent(Next(cfg, s, l), token)
  {
    RotationFacts(cfg, s, l, r, token);
    OthersHoldOtherTokens(s, r);
    RotationGivesAnother(cfg, s, l, r, token);
    ClockAndIdsGrow(cfg, s, l);
    SpentAfter(s, Next(cfg, s, l), r, RotationFor(cfg, s.sessions.objs[r], s.calls[l.c], l.d, l.accessToken, l.refreshToken), token);
  }

  lemma SpentStaysSpent(cfg: Config, s: Sys, l: Label, token: string)
    requires Inv(cfg, s) && Enabled(cfg, s, l) && Spent(s, token)
    ensures Spent(Next(cfg, s, l), token)
  {
    var op, t := SessionOpOf(cfg, s, l), Next(cfg, s, l);
    OpsAreFresh(cfg, s, l);
    SessionEffect(cfg, s, l);
    ApplyAges(s.sessions, op, s.used, t.used);
    forall i | 0 <= i < |t.sessions.objs| ensures t.sessions.objs[i].refreshToken != Some(token) {
      if i < |s.sessions.objs| {
        assert Renews(s.sessions.objs[i], t.sessions.objs[i], op);
      }
    }
  }

  lemma {:induction false} SpentForever(cfg: Config, s: Sys, ls: seq<Label>, token: string)
    requires Inv(cfg, s) && Runs(cfg, s, ls) && Spent(s, token)
    ensures Spent(After(cfg, s, ls), token)
    decreases |ls|
  {
    if ls != [] {
      NextKeepsInv(cfg, s, ls[0]);
      SpentStaysSpent(cfg, s, ls[0], token);
      SpentForever(cfg, Next(cfg, s, ls[0]), ls[1..], token);
    }
  }

  /** Over any run, a refresh token is consumed by at most one successful rotation, of any session. */
  lemma SingleSpend(cfg: Config, s: Sys, l: Label, r: Sessions.Ref, token: string, ls: seq<Label>, l': Label, r': Sessions.Ref)
    requires Reachable(cfg, s) && WellFormed(s) && RotatesNow(cfg, s, l, r, token)
    requires Runs(cfg, Next(cfg, s, l), ls)
    ensures WellFormed(After(cfg, Next(cfg, s, l), ls))
    ensures !RotatesNow(cfg, After(cfg, Next(cfg, s, l), ls), l', r', token)
  {
    ReachableInv(cfg, s);
    var t := Next(cfg, s, l);
    var u := After(cfg, t, ls);
    NextKeepsInv(cfg, s, l);
    RunKeepsInv(cfg, t, ls);
    RotatingSpends(cfg, s, l, r, token);
    SpentForever(cfg, t, ls, token);
    SpentCannotRotate(cfg, u, l', r', token);
  }

  lemma SpentCannotRotate(cfg: Config, s: Sys, l: Label, r: Sessions.Ref, token: string)
    requires Inv(cfg, s) && Spent(s, token)
    ensures !RotatesNow(cfg, s, l, r, token)
  {
    if l.Grant? && Enabled(cfg, s, l) {
      assert Grounded(s, s.calls[l.c]) && CallInv(s, s.calls[l.c]);
      assert forall i | 0 <= i < |s.sessions.objs| :: s.sessions.objs[i].refreshToken != Some(token);
    }
  }

  // ------------------------------------------------------------------ linear chains

  /** The refresh token a step gives to session `r`, if it gives it one. */
  ghost function Given(s: Sys, t: Sys, r: Sessions.Ref): seq<string> {
    if r < |t.sessions.objs| && t.sessions.objs[r].refreshToken.Some? &&
       (r >= |s.sessions.objs| || s.sessions.objs[r].refreshToken != t.sessions.objs[r].refreshToken)
    then [t.sessions.objs[r].refreshToken.value] else []
  }

  /** Every refresh token session `r` is given along a run, in order. */
  ghost function Chain(cfg: Config, s: Sys, ls: seq<Label>, r: Sessions.Ref): seq<string>
    requires Runs(cfg, s, ls)
    decreases |ls|
  {
    if ls == [] then [] else
      var t := Next(cfg, s, ls[0]);
      Given(s, t, r) + Chain(cfg, t, ls[1..], r)
  }

  /** The tokens a session has been given so far end with its predecessor token and its current one. */
  predicate EndsWithPair(past: seq<string>, x: Sessions.Session) {
    && (x.refreshToken.None? ==> past == [] && x.previousRefreshToken.None?)
    && (x.refreshToken.Some? ==>
          && past != [] && past[|past| - 1] == x.refreshToken.value
          && x.previousRefreshToken == if |past| == 1 then None else Some(past[|past| - 2]))
  }

  /** The history of one session up to `s`: distinct used tokens ending with the session's pair. */
  ghost predicate History(s: Sys, r: Sessions.Ref, past: seq<string>) {
    && (r >= |s.sessions.objs| ==> past == [])
    && (r < |s.sessions.objs| ==> EndsWithPair(past, s.sessions.objs[r]))
    && (forall i | 0 <= i < |past| :: past[i] in s.used)
    && (forall i, j | 0 <= i < j < |past| :: past[i] != past[j])
  }

  lemma StepExtendsHistory(s: Sys, t: Sys, op: SessionOp, r: Sessions.Ref, past: seq<string>)
    requires History(s, r, past) && OpFresh(op, s.used, t.used)
    requires |s.sessions.objs| <= |t.sessions.objs|
    requires if r < |s.sessions.objs| then Renews(s.sessions.objs[r], t.sessions.objs[r], op)
             else r < |t.sessions.objs| ==> op.DoCreate? && t.sessions.objs[r] == op.record
    ensures History(t, r, past + Given(s, t, r))
  {
    assert forall token <- Given(s, t, r) :: token !in s.used && token in t.used;
  }

  lemma NextExtendsHistory(cfg: Config, s: Sys, l: Label, r: Sessions.Ref, past: seq<string>)
    requires Inv(cfg, s) && Enabled(cfg, s, l) && History(s, r, past)
    ensures History(Next(cfg, s, l), r, past + Given(s, Next(cfg, s, l), r))
  {
    var op, t := SessionOpOf(cfg, s, l), Next(cfg, s, l);
    OpsAreFresh(cfg, s, l);
    SessionEffect(cfg, s, l);
    ApplyAges(s.sessions, op, s.used, t.used);
    StepExtendsHistory(s, t, op, r, past);
  }

  lemma {:induction false} RunExtendsHistory(cfg: Config, s: Sys, ls: seq<Label>, r: Sessions.Ref, past: seq<string>)
    requires Inv(cfg, s) && Runs(cfg, s, ls) && History(s, r, past)
    ensures History(After(cfg, s, ls), r, past + Chain(cfg, s, ls, r))
    decreases |ls|
  {
    if ls == [] {
      assert past + Chain(cfg, s, ls, r) == past;
    } else {
      var t := Next(cfg, s, ls[0]);
      NextKeepsInv(cfg, s, ls[0]);
      NextExtendsHistory(cfg, s, ls[0], r, past);
      RunExtendsHistory(cfg, t, ls[1..], r, past + Given(s, t, r));
      Associates(past, Given(s, t, r), Chain(cfg, t, ls[1..], r));
    }
  }

  lemma Associates(a: seq<string>, b: seq<string>, c: seq<string>)
    ensures a + (b + c) == a + b + c
  {
  }

  /** From the start of the server, a session's refresh tokens form one chain of distinct tokens
      whose last two elements are `previous_refresh_token` and `refresh_token`. */
  lemma TokensFormOneChain(cfg: Config, s0: Sys, ls: seq<Label>, r: Sessions.Ref)
    requires Initial(s0) && Runs(cfg, s0, ls) && r < |After(cfg, s0, ls).sessions.objs|
    ensures var chain := Chain(cfg, s0, ls, r);
            && EndsWithPair(chain, After(cfg, s0, ls).sessions.objs[r])
            && (forall i, j | 0 <= i < j < |chain| :: chain[i] != chain[j])
  {
    assert Reaches(cfg, s0, [], s0);
    ReachableInv(cfg, s0);
    RunExtendsHistory(cfg, s0, ls, r, []);
    assert [] + Chain(cfg, s0, ls, r) == Chain(cfg, s0, ls, r);
  }

  /** The only step that gives an existing session a token is a successful rotation that consumes the last one. */
  lemma LinksAreRotations(cfg: Config, s: Sys, l: Label, r: Sessions.Ref)
    requires Reachable(cfg, s) && WellFormed(s) && Enabled(cfg, s, l) && r < |s.sessions.objs|
    ensures Given(s, Next(cfg, s, l), r) != [] <==>
            exists token :: s.sessions.objs[r].refreshToken == Some(token) && RotatesNow(cfg, s, l, r, token)
  {
    ReachableInv(cfg, s);
    var op, t := SessionOpOf(cfg, s, l), Next(cfg, s, l);
    OpsAreFresh(cfg, s, l);
    SessionEffect(cfg, s, l);
    ApplyAges(s.sessions, op, s.used, t.used);
    assert Renews(s.sessions.objs[r], t.sessions.objs[r], op);
    assert KnownSession(s.sessions.objs[r], s.used);
    if Given(s, t, r) != [] {
      GivenByRotation(cfg, s, l, r);
    } else {
      forall token | s.sessions.objs[r].refreshToken == Some(token) ensures !RotatesNow(cfg, s, l, r, token) {
        NotGivenNotRotated(cfg, s, l, r, token);
      }
    }
  }

  lemma GivenByRotation(cfg: Config, s: Sys, l: Label, r: Sessions.Ref)
    requires Inv(cfg, s) && Enabled(cfg, s, l) && r < |s.sessions.objs| && Given(s, Next(cfg, s, l), r) != []
    ensures s.sessions.objs[r].refreshToken.Some? && RotatesNow(cfg, s, l, r, s.sessions.objs[r].refreshToken.value)
  {
    var op, t := SessionOpOf(cfg, s, l), Next(cfg, s, l);
    OpsAreFresh(cfg, s, l);
    SessionEffect(cfg, s, l);
    ApplyAges(s.sessions, op, s.used, t.used);
    assert Renews(s.sessions.objs[r], t.sessions.objs[r], op);
    assert l.Grant?;
    assert Grounded(s, s.calls[l.c]);
  }

  lemma NotGivenNotRotated(cfg: Config, s: Sys, l: Label, r: Sessions.Ref, token: string)
    requires Inv(cfg, s) && Enabled(cfg, s, l) && r < |s.sessions.objs| && Given(s, Next(cfg, s, l), r) == []
    ensures !RotatesNow(cfg, s, l, r, token)
  {
    if l.Grant? {
      assert Grounded(s, s.calls[l.c]) && CallInv(s, s.calls[l.c]);
      assert KnownSession(s.sessions.objs[r], s.used);
    }
  }
}
