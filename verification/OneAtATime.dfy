/**
 * The server that runs its calls one at a time is the step machine with nothing in between: from any state
 * a run can reach, the steps of one call, taken one after the other, leave the two stores as that server
 * does and answer as it does.
 */
module OneAtATime {
  import opened Options
  import Sessions
  import Challenges
  import opened Server
  import opened ServerRuns
  import opened PastTheWall
  import opened Progress
  import SequentialServer
  import SessionSweep

  function Stores(s: Sys): SequentialServer.Real {
    SequentialServer.Real(s.challenges, s.sessions)
  }

  /** The state with call `c` at this point. */
  function At(s: Sys, c: nat, call: Server.Call): Sys {
    s.(calls := s.calls[c := call])
  }

  lemma AtAgain(s: Sys, c: nat, before: Server.Call, after: Server.Call)
    ensures Become(At(s, c, before), c, after) == At(s, c, after)
  {
    assert s.calls[c := before][c := after] == s.calls[c := after];
  }

  /** These steps, all of call `c`, lead from `s` to `u`. */
  ghost predicate Alone(cfg: Config, s: Sys, c: nat, ls: seq<Label>, u: Sys) {
    Path(cfg, s, ls, u) && forall l <- ls :: CallOf(l) == Some(c)
  }

  lemma NothingYet(cfg: Config, s: Sys, c: nat)
    requires Reached(cfg, s)
    ensures Alone(cfg, s, c, [], s)
  {
    NoStep(cfg, s);
  }

  lemma ThenStep(cfg: Config, s: Sys, c: nat, ls: seq<Label>, u: Sys, l: Label, w: Sys)
    requires Alone(cfg, s, c, ls, u) && CallOf(l) == Some(c) && Enabled(cfg, u, l) && Next(cfg, u, l) == w
    ensures Alone(cfg, s, c, ls + [l], w)
  {
    StepAppended(cfg, s, ls, u, l);
  }

  // -------------------------------------------------------------------------- an init

  lemma BeginsAlone(cfg: Config, s: Sys, c: nat, op: SequentialServer.Op)
    requires Reached(cfg, s) && c !in s.calls && op.Init?
    ensures var l := BeginInit(c, op.npub, op.pubkey, op.authUrl, op.ip);
            Enabled(cfg, s, l) && Next(cfg, s, l) == At(s, c,
              if CapExceeded(cfg, s.challenges, op.npub, op.ip, s.clock) then Issued(None)
              else Counted(op.npub, op.pubkey, op.authUrl, op.ip, s.clock))
  {
  }

  lemma CreatesAlone(cfg: Config, s: Sys, c: nat, op: SequentialServer.Op)
    requires op.Init? && FreshPair(s, op.challengeId, op.challenge)
    requires Reached(cfg, s) && Reached(cfg, At(s, c, Counted(op.npub, op.pubkey, op.authUrl, op.ip, s.clock)))
    ensures var u, l := At(s, c, Counted(op.npub, op.pubkey, op.authUrl, op.ip, s.clock)), CreateChallenge(c, op.challengeId, op.challenge);
            && Enabled(cfg, u, l)
            && Next(cfg, u, l) == At(s.(challenges := Challenges.Create(s.challenges, s.clock, SequentialServer.Requested(cfg, op, s.clock)),
                                        used := s.used + {op.challengeId, op.challenge}), c, Issued(Some(op.challengeId)))
  {
    var call := Counted(op.npub, op.pubkey, op.authUrl, op.ip, s.clock);
    var u, l := At(s, c, call), CreateChallenge(c, op.challengeId, op.challenge);
    assert Next(cfg, u, l) == CreateChallengeStep(cfg, u, l);
    AtAgain(s.(challenges := Challenges.Create(s.challenges, s.clock, SequentialServer.Requested(cfg, op, s.clock)),
               used := s.used + {op.challengeId, op.challenge}), c, call, Issued(Some(op.challengeId)));
  }

  /** An init with no other step in between. */
  lemma InitAlone(cfg: Config, s: Sys, c: nat, op: SequentialServer.Op) returns (ls: seq<Label>, u: Sys)
    requires Reached(cfg, s) && c !in s.calls && op.Init? && FreshPair(s, op.challengeId, op.challenge)
    ensures Alone(cfg, s, c, ls, u) && SequentialServer.Closed(Stores(s))
    ensures u.clock == s.clock && c in u.calls && u.calls[c].Issued? && u.calls == s.calls[c := u.calls[c]]
    ensures SequentialServer.RealStep(cfg, true, Stores(s), op, s.clock) ==
            (Stores(u), SequentialServer.Begun(u.calls[c] == Issued(Some(op.challengeId))))
  {
    var first := BeginInit(c, op.npub, op.pubkey, op.authUrl, op.ip);
    NothingYet(cfg, s, c);
    BeginsAlone(cfg, s, c, op);
    if CapExceeded(cfg, s.challenges, op.npub, op.ip, s.clock) {
      u := At(s, c, Issued(None));
      ThenStep(cfg, s, c, [], s, first, u);
      ls := [] + [first];
    } else {
      var counted := At(s, c, Counted(op.npub, op.pubkey, op.authUrl, op.ip, s.clock));
      ThenStep(cfg, s, c, [], s, first, counted);
      var second := CreateChallenge(c, op.challengeId, op.challenge);
      CreatesAlone(cfg, s, c, op);
      u := At(s.(challenges := Challenges.Create(s.challenges, s.clock, SequentialServer.Requested(cfg, op, s.clock)),
                 used := s.used + {op.challengeId, op.challenge}), c, Issued(Some(op.challengeId)));
      ThenStep(cfg, s, c, [] + [first], counted, second, u);
      ls := [] + [first] + [second];
    }
  }

  // --------------------------------------------------------------------- a completion

  lemma FetchesAlone(cfg: Config, s: Sys, c: nat, p: Proof) returns (ls: seq<Label>)
    requires Reached(cfg, s) && c !in s.calls
    ensures Alone(cfg, s, c, ls, At(s, c, Fetched(p, s.clock, Challenges.Get(s.challenges, p.challengeId))))
  {
    var proved, fetched := At(s, c, Proved(p, s.clock)), At(s, c, Fetched(p, s.clock, Challenges.Get(s.challenges, p.challengeId)));
    NothingYet(cfg, s, c);
    ProvesAlone(cfg, s, c, p);
    ThenStep(cfg, s, c, [], s, BeginComplete(c, p), proved);
    LooksAlone(cfg, s, c, p);
    ThenStep(cfg, s, c, [] + [BeginComplete(c, p)], proved, Fetch(c), fetched);
    ls := [] + [BeginComplete(c, p)] + [Fetch(c)];
  }

  lemma ProvesAlone(cfg: Config, s: Sys, c: nat, p: Proof)
    requires Reached(cfg, s) && c !in s.calls
    ensures Enabled(cfg, s, BeginComplete(c, p)) && Next(cfg, s, BeginComplete(c, p)) == At(s, c, Proved(p, s.clock))
  {
  }

  lemma LooksAlone(cfg: Config, s: Sys, c: nat, p: Proof)
    requires Reached(cfg, s) && WellFormed(At(s, c, Proved(p, s.clock)))
    ensures var u := At(s, c, Proved(p, s.clock));
            && Enabled(cfg, u, Fetch(c))
            && Next(cfg, u, Fetch(c)) == At(s, c, Fetched(p, s.clock, Challenges.Get(s.challenges, p.challengeId)))
  {
    AtAgain(s, c, Proved(p, s.clock), Fetched(p, s.clock, Challenges.Get(s.challenges, p.challengeId)));
  }

  /** The record a completion names, once fetched. */
  function FetchedAt(s: Sys, c: nat, p: Proof): Sys {
    At(s, c, Fetched(p, s.clock, Challenges.Get(s.challenges, p.challengeId)))
  }

  /** What the checks leave when they do not let the completion go on. */
  ghost function TurnedAway(cfg: Config, s: Sys, c: nat, p: Proof): Sys
    requires WellFormed(s)
  {
    if p.challengeId !in s.challenges.records then At(s, c, Completed(p, Fail(UnknownChallenge)))
    else
      match Judge(cfg, p, s.clock, s.challenges.objs[s.challenges.records[p.challengeId]])
      case Reject(code) => At(s, c, Completed(p, Fail(code)))
      case RejectAndCount(code) =>
        At(s.(challenges := CountFailure(cfg, s.challenges, p.challengeId)), c, Completed(p, Fail(code)))
      case Proceed => At(s, c, Authorizing(p, s.clock, s.challenges.records[p.challengeId]))
  }

  lemma ChecksAlone(cfg: Config, s: Sys, c: nat, p: Proof)
    requires Reached(cfg, s) && WellFormed(FetchedAt(s, c, p))
    ensures var u := FetchedAt(s, c, p); Enabled(cfg, u, Inspect(c)) && InspectStep(cfg, u, Inspect(c)) == TurnedAway(cfg, s, c, p)
  {
    ReachableInv(cfg, s);
    var u, was := FetchedAt(s, c, p), Fetched(p, s.clock, Challenges.Get(s.challenges, p.challengeId));
    forall call ensures Become(u, c, call) == At(s, c, call) {
      AtAgain(s, c, was, call);
    }
    if p.challengeId in s.challenges.records {
      assert s.challenges.objs[s.challenges.records[p.challengeId]].challengeId == p.challengeId;
      forall call, st ensures Become(u.(challenges := st), c, call) == At(s.(challenges := st), c, call) {
        AtAgain(s.(challenges := st), c, was, call);
      }
    }
  }

  lemma InspectsAlone(cfg: Config, s: Sys, c: nat, p: Proof, ls: seq<Label>)
    requires Reached(cfg, s) && Alone(cfg, s, c, ls, FetchedAt(s, c, p))
    ensures Alone(cfg, s, c, ls + [Inspect(c)], TurnedAway(cfg, s, c, p))
  {
    var u := FetchedAt(s, c, p);
    ChecksAlone(cfg, s, c, p);
    assert Next(cfg, u, Inspect(c)) == InspectStep(cfg, u, Inspect(c));
    ThenStep(cfg, s, c, ls, u, Inspect(c), TurnedAway(cfg, s, c, p));
  }

  /** The completion waits for the resolver. */
  function Waiting(s: Sys, c: nat, p: Proof): Sys
    requires p.challengeId in s.challenges.records
  {
    At(s, c, Authorizing(p, s.clock, s.challenges.records[p.challengeId]))
  }

  lemma DeniedAlone(cfg: Config, s: Sys, c: nat, p: Proof, d: Decision, ids: Ids)
    requires Reached(cfg, s) && p.challengeId in s.challenges.records && d.Deny? && FreshIds(s, ids)
    requires WellFormed(Waiting(s, c, p))
    ensures var u, l := Waiting(s, c, p), Decide(c, d, ids);
            Enabled(cfg, u, l) && Next(cfg, u, l) == At(s, c, Completed(p, Fail(AclDenied)))
  {
    var u, l := Waiting(s, c, p), Decide(c, d, ids);
    AtAgain(s, c, Authorizing(p, s.clock, s.challenges.records[p.challengeId]), Completed(p, Fail(AclDenied)));
    assert Next(cfg, u, l) == DecideStep(cfg, u, l);
  }

  /** The session the completion makes, or the one its challenge has. */
  ghost function Made(cfg: Config, s: Sys, p: Proof, d: Decision, ids: Ids): (Sessions.Store, Sessions.Ref)
    requires WellFormed(s) && p.challengeId in s.challenges.records && d.Allow?
  {
    Sessions.CreateForChallenge(s.sessions, s.clock,
      NewSession(cfg, s.challenges.objs[s.challenges.records[p.challengeId]], p, s.clock, d, ids))
  }

  /** The state once the session is made, and then with the challenge redeemed for it. */
  ghost function WithSession(cfg: Config, s: Sys, p: Proof, d: Decision, ids: Ids): Sys
    requires WellFormed(s) && p.challengeId in s.challenges.records && d.Allow?
  {
    s.(sessions := Made(cfg, s, p, d, ids).0,
       used := s.used + {ids.sessionId, ids.accessToken, ids.refreshToken, ids.stepUpToken})
  }

  lemma AllowedAlone(cfg: Config, s: Sys, c: nat, p: Proof, d: Decision, ids: Ids)
    requires Reached(cfg, s) && p.challengeId in s.challenges.records && d.Allow? && FreshIds(s, ids)
    requires WellFormed(Waiting(s, c, p))
    ensures var u, l := Waiting(s, c, p), Decide(c, d, ids);
            && Enabled(cfg, u, l)
            && DecideStep(cfg, u, l) ==
               At(WithSession(cfg, s, p, d, ids), c, Created(p, s.clock, s.challenges.records[p.challengeId], Made(cfg, s, p, d, ids).1))
  {
    var u, l, k := Waiting(s, c, p), Decide(c, d, ids), s.challenges.records[p.challengeId];
    AtAgain(WithSession(cfg, s, p, d, ids), c, Authorizing(p, s.clock, k), Created(p, s.clock, k, Made(cfg, s, p, d, ids).1));
  }

  lemma DecidesAlone(cfg: Config, s: Sys, c: nat, p: Proof, d: Decision, ids: Ids, ls: seq<Label>)
    requires Reached(cfg, s) && p.challengeId in s.challenges.records && d.Allow? && FreshIds(s, ids)
    requires Alone(cfg, s, c, ls, Waiting(s, c, p))
    ensures var k := s.challenges.records[p.challengeId];
            Alone(cfg, s, c, ls + [Decide(c, d, ids)],
                  At(WithSession(cfg, s, p, d, ids), c, Created(p, s.clock, k, Made(cfg, s, p, d, ids).1)))
  {
    var u, l, k := Waiting(s, c, p), Decide(c, d, ids), s.challenges.records[p.challengeId];
    AllowedAlone(cfg, s, c, p, d, ids);
    assert Next(cfg, u, l) == DecideStep(cfg, u, l);
    ThenStep(cfg, s, c, ls, u, l, At(WithSession(cfg, s, p, d, ids), c, Created(p, s.clock, k, Made(cfg, s, p, d, ids).1)));
  }

  /** The redemption of a completion at `t` for the session `x` it made. */
  ghost function Redemption(cfg: Config, t: Sys, p: Proof, x: Sessions.Ref): (Challenges.Store, Challenges.RedeemStatus)
    requires WellFormed(t) && x < |t.sessions.objs|
  {
    Challenges.Redeem(t.challenges, p.challengeId,
      Challenges.Redemption(p.eventId, t.sessions.objs[x].sessionId, t.clock, t.clock + cfg.resultCacheTtl))
  }

  lemma RedeemsAlone(cfg: Config, t: Sys, c: nat, p: Proof, k: Challenges.Ref, x: Sessions.Ref)
    requires WellFormed(t) && k < |t.challenges.objs| && t.challenges.objs[k].challengeId == p.challengeId && x < |t.sessions.objs|
    requires WellFormed(At(t, c, Created(p, t.clock, k, x)))
    ensures var u := At(t, c, Created(p, t.clock, k, x));
            && Enabled(cfg, u, Redeem(c))
            && RedeemStep(cfg, u, Redeem(c)) ==
               At(t.(challenges := Redemption(cfg, t, p, x).0), c, Redeeming(p, t.clock, k, x, Redemption(cfg, t, p, x).1))
  {
    var (challenges, status) := Redemption(cfg, t, p, x);
    AtAgain(t.(challenges := challenges), c, Created(p, t.clock, k, x), Redeeming(p, t.clock, k, x, status));
  }

  lemma RedeemsNext(cfg: Config, s: Sys, c: nat, ls: seq<Label>, t: Sys, p: Proof, k: Challenges.Ref, x: Sessions.Ref)
    requires WellFormed(t) && k < |t.challenges.objs| && t.challenges.objs[k].challengeId == p.challengeId && x < |t.sessions.objs|
    requires Alone(cfg, s, c, ls, At(t, c, Created(p, t.clock, k, x)))
    ensures Alone(cfg, s, c, ls + [Redeem(c)],
                  At(t.(challenges := Redemption(cfg, t, p, x).0), c, Redeeming(p, t.clock, k, x, Redemption(cfg, t, p, x).1)))
  {
    var u := At(t, c, Created(p, t.clock, k, x));
    RedeemsAlone(cfg, t, c, p, k, x);
    assert Next(cfg, u, Redeem(c)) == RedeemStep(cfg, u, Redeem(c));
    ThenStep(cfg, s, c, ls, u, Redeem(c),
             At(t.(challenges := Redemption(cfg, t, p, x).0), c, Redeeming(p, t.clock, k, x, Redemption(cfg, t, p, x).1)));
  }

  /** Where a completion is after its redemption. */
  function Concluded(t: Sys, p: Proof, k: Challenges.Ref, x: Sessions.Ref, status: Challenges.RedeemStatus): Server.Call
  {
    match status
    case WasRedeemed => Completed(p, Ok(x))
    case HasExpired => Completed(p, Fail(ExpiredChallenge))
    case NotFound => Completed(p, Fail(UnknownChallenge))
    case AlreadyRedeemed => Rereading(p, t.clock, k, Challenges.Get(t.challenges, p.challengeId))
  }

  lemma ConcludesNext(cfg: Config, s: Sys, c: nat, ls: seq<Label>, t: Sys, p: Proof, k: Challenges.Ref, x: Sessions.Ref, status: Challenges.RedeemStatus)
    requires k < |t.challenges.objs| && t.challenges.objs[k].challengeId == p.challengeId
    requires Alone(cfg, s, c, ls, At(t, c, Redeeming(p, t.clock, k, x, status)))
    ensures Alone(cfg, s, c, ls + [Conclude(c)], At(t, c, Concluded(t, p, k, x, status)))
  {
    var u := At(t, c, Redeeming(p, t.clock, k, x, status));
    AtAgain(t, c, Redeeming(p, t.clock, k, x, status), Concluded(t, p, k, x, status));
    assert Next(cfg, u, Conclude(c)) == ConcludeStep(cfg, u, Conclude(c));
    ThenStep(cfg, s, c, ls, u, Conclude(c), At(t, c, Concluded(t, p, k, x, status)));
  }

  /** Where a repeated completion is after the record was read again, and in the end. */
  function Reconsidered(t: Sys, p: Proof, k: Challenges.Ref): Server.Call
    requires k < |t.challenges.objs|
  {
    var y := t.challenges.objs[k];
    if AnswersRetry(y, p, t.clock) then Resuming(p, t.clock, k, Sessions.Lookup(t.sessions.byId, y.redeemedSessionId.value))
    else Completed(p, Fail(RedeemedChallenge))
  }

  lemma RereadsNext(cfg: Config, s: Sys, c: nat, ls: seq<Label>, t: Sys, p: Proof, k: Challenges.Ref)
    requires k < |t.challenges.objs| && Alone(cfg, s, c, ls, At(t, c, Rereading(p, t.clock, k, Some(k))))
    ensures Alone(cfg, s, c, ls + [Reread(c)], At(t, c, Reconsidered(t, p, k)))
  {
    var u := At(t, c, Rereading(p, t.clock, k, Some(k)));
    AtAgain(t, c, Rereading(p, t.clock, k, Some(k)), Reconsidered(t, p, k));
    assert Next(cfg, u, Reread(c)) == RereadStep(cfg, u, Reread(c));
    ThenStep(cfg, s, c, ls, u, Reread(c), At(t, c, Reconsidered(t, p, k)));
  }

  lemma ResumesNext(cfg: Config, s: Sys, c: nat, ls: seq<Label>, t: Sys, p: Proof, k: Challenges.Ref, found: Option<Sessions.Ref>)
    requires Alone(cfg, s, c, ls, At(t, c, Resuming(p, t.clock, k, found)))
    ensures Alone(cfg, s, c, ls + [Resume(c)], At(t, c, Completed(p, if found.Some? then Ok(found.value) else Fail(Internal))))
  {
    var u, over := At(t, c, Resuming(p, t.clock, k, found)), Completed(p, if found.Some? then Ok(found.value) else Fail(Internal));
    AtAgain(t, c, Resuming(p, t.clock, k, found), over);
    assert Next(cfg, u, Resume(c)) == ResumeStep(cfg, u, Resume(c));
    ThenStep(cfg, s, c, ls, u, Resume(c), At(t, c, over));
  }

  /** The session a completed call answers with. */
  function Answered(u: Sys, c: nat): Option<Sessions.Session> {
    if c in u.calls && u.calls[c].Completed? && u.calls[c].outcome.Ok? && u.calls[c].outcome.session < |u.sessions.objs|
    then Some(u.sessions.objs[u.calls[c].outcome.session]) else None
  }

  /** From the redemption on, whatever it answered. */
  lemma FinishesAlone(cfg: Config, s: Sys, c: nat, before: seq<Label>, t: Sys, p: Proof, k: Challenges.Ref, x: Sessions.Ref,
                      status: Challenges.RedeemStatus) returns (ls: seq<Label>, call: Server.Call)
    requires k < |t.challenges.objs| && t.challenges.objs[k].challengeId == p.challengeId && x < |t.sessions.objs| && Sessions.Closed(t.sessions)
    requires p.challengeId in t.challenges.records && t.challenges.records[p.challengeId] == k
    requires Alone(cfg, s, c, before, At(t, c, Redeeming(p, t.clock, k, x, status))) && status != Challenges.NotFound
    ensures Alone(cfg, s, c, ls, At(t, c, call)) && call.Completed?
    ensures Answered(At(t, c, call), c) ==
            match status
            case WasRedeemed => Some(t.sessions.objs[x])
            case AlreadyRedeemed =>
              var y := t.challenges.objs[k];
              if AnswersRetry(y, p, t.clock) then SequentialServer.RealFound(t.sessions, y.redeemedSessionId) else None
            case _ => None
  {
    ConcludesNext(cfg, s, c, before, t, p, k, x, status);
    ls, call := before + [Conclude(c)], Concluded(t, p, k, x, status);
    if status.AlreadyRedeemed? {
      ls, call := RetriesAlone(cfg, s, c, ls, t, p, k);
    }
  }

  /** From the second reading of the record on. */
  lemma RetriesAlone(cfg: Config, s: Sys, c: nat, before: seq<Label>, t: Sys, p: Proof, k: Challenges.Ref) returns (ls: seq<Label>, call: Server.Call)
    requires k < |t.challenges.objs| && Sessions.Closed(t.sessions) && Alone(cfg, s, c, before, At(t, c, Rereading(p, t.clock, k, Some(k))))
    ensures Alone(cfg, s, c, ls, At(t, c, call)) && call.Completed?
    ensures var y := t.challenges.objs[k];
            Answered(At(t, c, call), c) ==
            if AnswersRetry(y, p, t.clock) then SequentialServer.RealFound(t.sessions, y.redeemedSessionId) else None
  {
    RereadsNext(cfg, s, c, before, t, p, k);
    ls, call := before + [Reread(c)], Reconsidered(t, p, k);
    if call.Resuming? {
      var found := call.found;
      ResumesNext(cfg, s, c, ls, t, p, k, found);
      ls, call := ls + [Resume(c)], Completed(p, if found.Some? then Ok(found.value) else Fail(Internal));
    }
  }

  /** The redeemed record stays where it is. */
  lemma RedemptionKeepsPlace(cfg: Config, t: Sys, p: Proof, x: Sessions.Ref)
    requires WellFormed(t) && x < |t.sessions.objs| && p.challengeId in t.challenges.records
    requires t.challenges.objs[t.challenges.records[p.challengeId]].challengeId == p.challengeId
    ensures var (st, status) := Redemption(cfg, t, p, x);
            && st.records == t.challenges.records && status != Challenges.NotFound
            && t.challenges.records[p.challengeId] < |st.objs| && st.objs[t.challenges.records[p.challengeId]].challengeId == p.challengeId
  {
  }

  /** The sequential server's entry, on the machine's terms. */
  lemma EntryServed(cfg: Config, s: Sys, op: SequentialServer.Op)
    requires Reached(cfg, s) && op.Complete? && op.d.Allow? && op.p.challengeId in s.challenges.records
    requires WellFormed(WithSession(cfg, s, op.p, op.d, op.ids))
    ensures SequentialServer.Closed(Stores(s))
    ensures var t, x := WithSession(cfg, s, op.p, op.d, op.ids), Made(cfg, s, op.p, op.d, op.ids).1;
            && x < |t.sessions.objs| && t.challenges == s.challenges && t.clock == s.clock
            && var (st, status) := Redemption(cfg, t, op.p, x);
               && st.records == s.challenges.records && s.challenges.records[op.p.challengeId] < |st.objs|
               && var y := st.objs[s.challenges.records[op.p.challengeId]];
                  SequentialServer.RealEntry(cfg, Stores(s), op, op.p.challengeId, s.clock) ==
                  (SequentialServer.Real(st, t.sessions),
                   SequentialServer.Reply(status, y, op, s.clock, t.sessions.objs[x], SequentialServer.RealFound(t.sessions, y.redeemedSessionId)))
  {
    var record := NewSession(cfg, s.challenges.objs[s.challenges.records[op.p.challengeId]], op.p, s.clock, op.d, op.ids);
    SequentialServer.CreateIsClosed(s.sessions, s.clock, record);
  }

  /** The named record is the one the completion's id finds. */
  lemma NamedByItsId(cfg: Config, s: Sys, k: string)
    requires Reached(cfg, s) && k in s.challenges.records
    ensures s.challenges.objs[s.challenges.records[k]].challengeId == k
  {
    ReachableInv(cfg, s);
  }

  /** A completion the resolver lets in, from the checks on. */
  lemma EntersAlone(cfg: Config, s: Sys, c: nat, op: SequentialServer.Op, before: seq<Label>) returns (ls: seq<Label>, u: Sys)
    requires Reached(cfg, s) && op.Complete? && op.d.Allow? && FreshIds(s, op.ids) && op.p.challengeId in s.challenges.records
    requires Alone(cfg, s, c, before, Waiting(s, c, op.p))
    ensures Alone(cfg, s, c, ls, u) && SequentialServer.Closed(Stores(s))
    ensures SequentialServer.RealEntry(cfg, Stores(s), op, op.p.challengeId, s.clock) == (Stores(u), Answered(u, c))
    ensures u.clock == s.clock && c in u.calls && u.calls[c].Completed? && u.calls == s.calls[c := u.calls[c]]
  {
    var p, k := op.p, s.challenges.records[op.p.challengeId];
    var x, t := Made(cfg, s, p, op.d, op.ids).1, WithSession(cfg, s, p, op.d, op.ids);
    NamedByItsId(cfg, s, p.challengeId);
    StaysWellFormed(cfg, s, c, p, op.d, op.ids);
    EntryServed(cfg, s, op);
    DecidesAlone(cfg, s, c, p, op.d, op.ids, before);
    ls := before + [Decide(c, op.d, op.ids)];
    var call;
    ls, call := RedeemedAlone(cfg, s, c, ls, t, p, k, x);
    u := At(t.(challenges := Redemption(cfg, t, p, x).0), c, call);
  }

  /** From the session on. */
  lemma RedeemedAlone(cfg: Config, s: Sys, c: nat, before: seq<Label>, t: Sys, p: Proof, k: Challenges.Ref, x: Sessions.Ref)
    returns (ls: seq<Label>, call: Server.Call)
    requires WellFormed(t) && x < |t.sessions.objs| && p.challengeId in t.challenges.records
    requires k == t.challenges.records[p.challengeId] && t.challenges.objs[k].challengeId == p.challengeId
    requires Alone(cfg, s, c, before, At(t, c, Created(p, t.clock, k, x)))
    ensures var (st, status) := Redemption(cfg, t, p, x);
            var u := At(t.(challenges := st), c, call);
            && k < |st.objs| && Alone(cfg, s, c, ls, u) && call.Completed?
            && Answered(u, c) ==
               match status
               case WasRedeemed => Some(t.sessions.objs[x])
               case AlreadyRedeemed =>
                 if AnswersRetry(st.objs[k], p, t.clock) then SequentialServer.RealFound(t.sessions, st.objs[k].redeemedSessionId) else None
               case _ => None
  {
    RedeemsNext(cfg, s, c, before, t, p, k, x);
    RedemptionKeepsPlace(cfg, t, p, x);
    var (st, status) := Redemption(cfg, t, p, x);
    ls, call := FinishesAlone(cfg, s, c, before + [Redeem(c)], t.(challenges := st), p, k, x, status);
  }

  lemma StaysWellFormed(cfg: Config, s: Sys, c: nat, p: Proof, d: Decision, ids: Ids)
    requires Reached(cfg, s) && p.challengeId in s.challenges.records && d.Allow?
    ensures WellFormed(WithSession(cfg, s, p, d, ids))
  {
    var record := NewSession(cfg, s.challenges.objs[s.challenges.records[p.challengeId]], p, s.clock, d, ids);
    SequentialServer.CreateIsClosed(s.sessions, s.clock, record);
    var t := WithSession(cfg, s, p, d, ids);
    assert |s.sessions.objs| <= |t.sessions.objs|;
    forall e <- t.calls ensures Grounded(t, t.calls[e]) {
      assert Grounded(s, s.calls[e]);
    }
  }

  /** The sequential server's completion, on the machine's terms: turned away, denied, or let enter. */
  lemma CompletionServed(cfg: Config, s: Sys, c: nat, op: SequentialServer.Op)
    requires WellFormed(s) && op.Complete?
    ensures SequentialServer.Closed(Stores(s))
    ensures var u, served := TurnedAway(cfg, s, c, op.p), SequentialServer.RealComplete(cfg, Stores(s), op, s.clock);
            && u.clock == s.clock && c in u.calls && u.calls == s.calls[c := u.calls[c]]
            && if u.calls[c].Authorizing? then
                 && op.p.challengeId in s.challenges.records && u == Waiting(s, c, op.p)
                 && served == if op.d.Allow? then SequentialServer.RealEntry(cfg, Stores(s), op, op.p.challengeId, s.clock) else (Stores(s), None)
               else u.calls[c].Completed? && u.calls[c].outcome.Fail? && served == (Stores(u), None)
  {
  }

  lemma CompletionSteps(cfg: Config, s: Sys, c: nat, op: SequentialServer.Op) returns (ls: seq<Label>, u: Sys)
    requires Reached(cfg, s) && c !in s.calls && op.Complete? && FreshIds(s, op.ids)
    ensures Alone(cfg, s, c, ls, u) && SequentialServer.Closed(Stores(s))
    ensures SequentialServer.RealComplete(cfg, Stores(s), op, s.clock) == (Stores(u), Answered(u, c))
    ensures u.clock == s.clock && c in u.calls && u.calls[c].Completed? && u.calls == s.calls[c := u.calls[c]]
  {
    var inspected := IsInspected(cfg, s, c, op.p);
    CompletionServed(cfg, s, c, op);
    var turned := TurnedAway(cfg, s, c, op.p);
    if !turned.calls[c].Authorizing? {
      ls, u := inspected, turned;
    } else if op.d.Allow? {
      ls, u := EntersAlone(cfg, s, c, op, inspected);
    } else {
      ls, u := IsDenied(cfg, s, c, op, inspected);
    }
  }

  lemma IsInspected(cfg: Config, s: Sys, c: nat, p: Proof) returns (ls: seq<Label>)
    requires Reached(cfg, s) && c !in s.calls
    ensures Alone(cfg, s, c, ls, TurnedAway(cfg, s, c, p))
  {
    var fetched := FetchesAlone(cfg, s, c, p);
    InspectsAlone(cfg, s, c, p, fetched);
    ls := fetched + [Inspect(c)];
  }

  lemma IsDenied(cfg: Config, s: Sys, c: nat, op: SequentialServer.Op, before: seq<Label>) returns (ls: seq<Label>, u: Sys)
    requires Reached(cfg, s) && op.Complete? && op.d.Deny? && FreshIds(s, op.ids) && op.p.challengeId in s.challenges.records
    requires Alone(cfg, s, c, before, Waiting(s, c, op.p))
    ensures Alone(cfg, s, c, ls, u) && u == At(s, c, Completed(op.p, Fail(AclDenied)))
  {
    var l := Decide(c, op.d, op.ids);
    u := At(s, c, Completed(op.p, Fail(AclDenied)));
    DeniedAlone(cfg, s, c, op.p, op.d, op.ids);
    ThenStep(cfg, s, c, before, Waiting(s, c, op.p), l, u);
    ls := before + [l];
  }

  /** The sequential server takes a completion through these functions and no others. */
  lemma CompletionIsServed(cfg: Config, s: Sys, op: SequentialServer.Op)
    requires WellFormed(s) && op.Complete?
    ensures SequentialServer.Closed(Stores(s))
    ensures var (after, x) := SequentialServer.RealComplete(cfg, Stores(s), op, s.clock);
            SequentialServer.RealStep(cfg, true, Stores(s), op, s.clock) == (after, SequentialServer.Entered(x))
  {
  }

  /** A completion with no other step in between. */
  lemma CompletionAlone(cfg: Config, s: Sys, c: nat, op: SequentialServer.Op) returns (ls: seq<Label>, u: Sys)
    requires Reached(cfg, s) && c !in s.calls && op.Complete? && FreshIds(s, op.ids)
    ensures Alone(cfg, s, c, ls, u) && SequentialServer.Closed(Stores(s))
    ensures SequentialServer.RealStep(cfg, true, Stores(s), op, s.clock) == (Stores(u), SequentialServer.Entered(Answered(u, c)))
    ensures u.clock == s.clock && c in u.calls && u.calls[c].Completed? && u.calls == s.calls[c := u.calls[c]]
  {
    ls, u := CompletionSteps(cfg, s, c, op);
    CompletionIsServed(cfg, s, op);
  }

  // ----------------------------------------------------------- requests and refreshes

  lemma LoadsFirst(cfg: Config, s: Sys, c: nat, token: string)
    requires Reached(cfg, s) && c !in s.calls && token != ""
    ensures var swept := Sessions.Sweep(s.sessions, s.clock);
            && Enabled(cfg, s, BeginLoad(c, token))
            && Next(cfg, s, BeginLoad(c, token)) == At(s.(sessions := swept), c, Loading(token, Sessions.Lookup(swept.byAccess, token)))
  {
    assert Next(cfg, s, BeginLoad(c, token)) == LoadStep(s, BeginLoad(c, token));
  }

  lemma AcceptsNext(cfg: Config, t: Sys, c: nat, token: string, found: Option<Sessions.Ref>)
    requires WellFormed(At(t, c, Loading(token, found)))
    ensures found.Some? ==> found.value < |t.sessions.objs|
    ensures var u := At(t, c, Loading(token, found));
            && Enabled(cfg, u, Accept(c))
            && Next(cfg, u, Accept(c)) ==
               At(t, c, Loaded(if found.Some? && Acceptable(t.sessions.objs[found.value], t.clock) then found else None))
  {
    var u := At(t, c, Loading(token, found));
    assert Grounded(u, u.calls[c]);
    assert Next(cfg, u, Accept(c)) == AcceptStep(cfg, u, Accept(c));
    AtAgain(t, c, Loading(token, found), Loaded(if found.Some? && Acceptable(t.sessions.objs[found.value], t.clock) then found else None));
  }

  /** The session a guarded request is let in with, after the sweep. */
  ghost function LetIn(t: Sys, token: string): Option<Sessions.Ref>
    requires Sessions.Closed(t.sessions)
  {
    var found := Sessions.Lookup(t.sessions.byAccess, token);
    if found.Some? && Acceptable(t.sessions.objs[found.value], t.clock) then found else None
  }

  ghost function Swept(s: Sys): Sys
    requires Sessions.Closed(s.sessions)
  {
    s.(sessions := Sessions.Sweep(s.sessions, s.clock))
  }

  lemma LoadServed(cfg: Config, s: Sys, token: string)
    requires WellFormed(s)
    ensures SequentialServer.Closed(Stores(s)) && Sessions.Closed(Swept(s).sessions)
    ensures SequentialServer.RealStep(cfg, true, Stores(s), SequentialServer.Serve(SessionSweep.Load(token)), s.clock) ==
            (Stores(Swept(s)), SequentialServer.Served(LetIn(Swept(s), token).Some?))
  {
  }

  /** A guarded request with no other step in between. */
  lemma LoadAlone(cfg: Config, s: Sys, c: nat, token: string) returns (ls: seq<Label>, u: Sys)
    requires Reached(cfg, s) && c !in s.calls && token != ""
    ensures Alone(cfg, s, c, ls, u) && SequentialServer.Closed(Stores(s)) && c in u.calls && u.calls[c].Loaded?
    ensures SequentialServer.RealStep(cfg, true, Stores(s), SequentialServer.Serve(SessionSweep.Load(token)), s.clock) ==
            (Stores(u), SequentialServer.Served(u.calls[c].accepted.Some?))
    ensures u.clock == s.clock && u.calls == s.calls[c := u.calls[c]]
  {
    LoadServed(cfg, s, token);
    ls := LoadSteps(cfg, s, c, token);
    u := At(Swept(s), c, Loaded(LetIn(Swept(s), token)));
  }

  lemma LoadSteps(cfg: Config, s: Sys, c: nat, token: string) returns (ls: seq<Label>)
    requires Reached(cfg, s) && c !in s.calls && token != ""
    ensures Sessions.Closed(Swept(s).sessions) && Alone(cfg, s, c, ls, At(Swept(s), c, Loaded(LetIn(Swept(s), token))))
  {
    var t := Swept(s);
    var found := Sessions.Lookup(t.sessions.byAccess, token);
    LoadServed(cfg, s, token);
    NothingYet(cfg, s, c);
    LoadsFirst(cfg, s, c, token);
    ThenStep(cfg, s, c, [], s, BeginLoad(c, token), At(t, c, Loading(token, found)));
    ls := AcceptsAfterLoading(cfg, s, c, [] + [BeginLoad(c, token)], t, token, found);
  }

  lemma AcceptsAfterLoading(cfg: Config, s: Sys, c: nat, before: seq<Label>, t: Sys, token: string, found: Option<Sessions.Ref>)
    returns (ls: seq<Label>)
    requires Alone(cfg, s, c, before, At(t, c, Loading(token, found)))
    ensures found.Some? ==> found.value < |t.sessions.objs|
    ensures Alone(cfg, s, c, ls, At(t, c, Loaded(if found.Some? && Acceptable(t.sessions.objs[found.value], t.clock) then found else None)))
  {
    AcceptsNext(cfg, t, c, token, found);
    ThenStep(cfg, s, c, before, At(t, c, Loading(token, found)), Accept(c),
             At(t, c, Loaded(if found.Some? && Acceptable(t.sessions.objs[found.value], t.clock) then found else None)));
    ls := before + [Accept(c)];
  }

  lemma PresentsFirst(cfg: Config, s: Sys, c: nat, token: string)
    requires Reached(cfg, s) && c !in s.calls && token != "" && RefreshEnabled(cfg)
    ensures Enabled(cfg, s, BeginRefresh(c, token))
    ensures Next(cfg, s, BeginRefresh(c, token)) == At(s, c, Looked(token, Sessions.Lookup(s.sessions.byRefresh, token)))
  {
  }

  /** What the checks of a refresh leave. */
  ghost function Checked(cfg: Config, s: Sys, c: nat, token: string): Sys
    requires WellFormed(s)
  {
    if token !in s.sessions.byRefresh then At(s, c, Refreshed(Fail(UnknownToken)))
    else
      var x := s.sessions.objs[s.sessions.byRefresh[token]];
      match JudgeRefresh(cfg, token, s.clock, x)
      case Replayed => At(s.(sessions := Sessions.RevokeById(s.sessions, x.sessionId, s.clock)), c, Refreshed(Fail(TokenReused)))
      case Refused(code) => At(s, c, Refreshed(Fail(code)))
      case MayResolve => At(s, c, Resolving(token, s.sessions.byRefresh[token], s.clock))
  }

  lemma ChecksNext(cfg: Config, s: Sys, c: nat, token: string)
    requires WellFormed(s) && WellFormed(At(s, c, Looked(token, Sessions.Lookup(s.sessions.byRefresh, token))))
    ensures var u := At(s, c, Looked(token, Sessions.Lookup(s.sessions.byRefresh, token)));
            Enabled(cfg, u, Check(c)) && CheckStep(cfg, u, Check(c)) == Checked(cfg, s, c, token)
  {
    var was := Looked(token, Sessions.Lookup(s.sessions.byRefresh, token));
    forall st, call ensures Become(At(s, c, was).(sessions := st), c, call) == At(s.(sessions := st), c, call) {
      AtAgain(s.(sessions := st), c, was, call);
    }
    assert s.(sessions := s.sessions) == s;
    assert At(s, c, was).(sessions := s.sessions) == At(s, c, was);
  }

  lemma ChecksAfterLooking(cfg: Config, s: Sys, c: nat, ls: seq<Label>, token: string)
    requires WellFormed(s) && Alone(cfg, s, c, ls, At(s, c, Looked(token, Sessions.Lookup(s.sessions.byRefresh, token))))
    ensures Alone(cfg, s, c, ls + [Check(c)], Checked(cfg, s, c, token))
  {
    var u := At(s, c, Looked(token, Sessions.Lookup(s.sessions.byRefresh, token)));
    ChecksNext(cfg, s, c, token);
    assert Next(cfg, u, Check(c)) == CheckStep(cfg, u, Check(c));
    ThenStep(cfg, s, c, ls, u, Check(c), Checked(cfg, s, c, token));
  }

  /** What the resolver's decision leaves. */
  ghost function Decided(cfg: Config, s: Sys, c: nat, op: SessionSweep.Op, r: Sessions.Ref): Sys
    requires WellFormed(s) && op.Refresh? && r < |s.sessions.objs|
  {
    var x := s.sessions.objs[r];
    if op.d.Deny? then
      At(s.(sessions := if op.d.revokeSessions then Sessions.RevokeByPrincipal(s.sessions, x.pubkey, s.clock) else s.sessions),
         c, Refreshed(Fail(RefreshDenied)))
    else
      var p := RotationFor(cfg, x, Resolving(op.token, r, s.clock), op.d, op.accessToken, op.refreshToken);
      At(s.(sessions := Sessions.Rotate(s.sessions, x.sessionId, p), used := s.used + {op.accessToken, op.refreshToken}),
         c, Refreshed(if Sessions.Rotates(s.sessions, x.sessionId, p) then Ok(s.sessions.byId[x.sessionId]) else Fail(RefreshInternal)))
  }

  lemma GrantsNext(cfg: Config, s: Sys, c: nat, op: SessionSweep.Op, r: Sessions.Ref)
    requires WellFormed(s) && op.Refresh? && r < |s.sessions.objs| && FreshPair(s, op.accessToken, op.refreshToken)
    requires WellFormed(At(s, c, Resolving(op.token, r, s.clock)))
    ensures var u, l := At(s, c, Resolving(op.token, r, s.clock)), Grant(c, op.d, op.accessToken, op.refreshToken);
            Enabled(cfg, u, l) && GrantStep(cfg, u, l) == Decided(cfg, s, c, op, r)
  {
    var was := Resolving(op.token, r, s.clock);
    forall st, used, call ensures Become(At(s, c, was).(sessions := st, used := used), c, call) == At(s.(sessions := st, used := used), c, call) {
      AtAgain(s.(sessions := st, used := used), c, was, call);
    }
    assert forall st :: s.(sessions := st, used := s.used) == s.(sessions := st);
    assert forall st :: At(s, c, was).(sessions := st, used := s.used) == At(s, c, was).(sessions := st);
  }

  lemma GrantsAfterChecks(cfg: Config, s: Sys, c: nat, ls: seq<Label>, op: SessionSweep.Op, r: Sessions.Ref)
    requires WellFormed(s) && op.Refresh? && r < |s.sessions.objs| && FreshPair(s, op.accessToken, op.refreshToken)
    requires Alone(cfg, s, c, ls, At(s, c, Resolving(op.token, r, s.clock)))
    ensures Alone(cfg, s, c, ls + [Grant(c, op.d, op.accessToken, op.refreshToken)], Decided(cfg, s, c, op, r))
  {
    var u, l := At(s, c, Resolving(op.token, r, s.clock)), Grant(c, op.d, op.accessToken, op.refreshToken);
    GrantsNext(cfg, s, c, op, r);
    assert Next(cfg, u, l) == GrantStep(cfg, u, l);
    ThenStep(cfg, s, c, ls, u, l, Decided(cfg, s, c, op, r));
  }

  /** The sequential server's refresh, on the machine's terms. */
  lemma RefreshServed(cfg: Config, s: Sys, c: nat, op: SessionSweep.Op)
    requires WellFormed(s) && op.Refresh?
    ensures var (st, ok) := SessionSweep.StoreStep(cfg, s.sessions, op, s.clock);
            var u := Checked(cfg, s, c, op.token);
            && c in u.calls
            && (u.calls[c].Resolving? ==>
                  && op.token in s.sessions.byRefresh
                  && var w := Decided(cfg, s, c, op, s.sessions.byRefresh[op.token]);
                     c in w.calls && w.calls[c].Refreshed? && st == w.sessions && ok == w.calls[c].outcome.Ok?)
            && (!u.calls[c].Resolving? ==> u.calls[c].Refreshed? && st == u.sessions && ok == u.calls[c].outcome.Ok?)
  {
    if op.token in s.sessions.byRefresh && JudgeRefresh(cfg, op.token, s.clock, s.sessions.objs[s.sessions.byRefresh[op.token]]).MayResolve? {
      DecisionServed(cfg, s, c, op);
    }
  }

  lemma DecisionServed(cfg: Config, s: Sys, c: nat, op: SessionSweep.Op)
    requires WellFormed(s) && op.Refresh? && op.token in s.sessions.byRefresh
    requires JudgeRefresh(cfg, op.token, s.clock, s.sessions.objs[s.sessions.byRefresh[op.token]]).MayResolve?
    ensures var (st, ok) := SessionSweep.StoreStep(cfg, s.sessions, op, s.clock);
            var w := Decided(cfg, s, c, op, s.sessions.byRefresh[op.token]);
            c in w.calls && w.calls[c].Refreshed? && st == w.sessions && ok == w.calls[c].outcome.Ok?
  {
  }

  /** From the checks on. */
  lemma RefreshIsDecided(cfg: Config, s: Sys, c: nat, op: SessionSweep.Op, before: seq<Label>) returns (ls: seq<Label>, u: Sys)
    requires WellFormed(s) && op.Refresh? && FreshPair(s, op.accessToken, op.refreshToken)
    requires Alone(cfg, s, c, before, Checked(cfg, s, c, op.token))
    ensures Alone(cfg, s, c, ls, u) && c in u.calls && u.calls[c].Refreshed?
    ensures SessionSweep.StoreStep(cfg, s.sessions, op, s.clock) == (u.sessions, u.calls[c].outcome.Ok?)
    ensures u.clock == s.clock && u.challenges == s.challenges && u.calls == s.calls[c := u.calls[c]]
  {
    RefreshServed(cfg, s, c, op);
    CheckedIsOneCall(cfg, s, c, op.token);
    u := Checked(cfg, s, c, op.token);
    if u.calls[c].Resolving? {
      var r := s.sessions.byRefresh[op.token];
      GrantsAfterChecks(cfg, s, c, before, op, r);
      ls, u := before + [Grant(c, op.d, op.accessToken, op.refreshToken)], Decided(cfg, s, c, op, r);
    } else {
      ls := before;
    }
  }

  /** A refresh with no other step in between. */
  lemma RefreshAlone(cfg: Config, s: Sys, c: nat, op: SessionSweep.Op) returns (ls: seq<Label>, u: Sys)
    requires Reached(cfg, s) && c !in s.calls && op.Refresh? && op.token != "" && RefreshEnabled(cfg)
    requires FreshPair(s, op.accessToken, op.refreshToken)
    ensures Alone(cfg, s, c, ls, u) && SequentialServer.Closed(Stores(s)) && c in u.calls && u.calls[c].Refreshed?
    ensures SequentialServer.RealStep(cfg, true, Stores(s), SequentialServer.Serve(op), s.clock) ==
            (Stores(u), SequentialServer.Served(u.calls[c].outcome.Ok?))
    ensures u.clock == s.clock && u.calls == s.calls[c := u.calls[c]]
  {
    var checked := RefreshIsChecked(cfg, s, c, op.token);
    ls, u := RefreshIsDecided(cfg, s, c, op, checked);
    RefreshIsServed(cfg, s, op);
  }

  lemma CheckedIsOneCall(cfg: Config, s: Sys, c: nat, token: string)
    requires WellFormed(s)
    ensures var u := Checked(cfg, s, c, token);
            u.clock == s.clock && u.challenges == s.challenges && c in u.calls && u.calls == s.calls[c := u.calls[c]]
            && (u.calls[c].Resolving? ==> token in s.sessions.byRefresh && u == At(s, c, Resolving(token, s.sessions.byRefresh[token], s.clock)))
  {
  }

  /** The sequential server takes a refresh through this function and no other. */
  lemma RefreshIsServed(cfg: Config, s: Sys, op: SessionSweep.Op)
    requires WellFormed(s) && op.Refresh?
    ensures SequentialServer.Closed(Stores(s))
    ensures var (st, ok) := SessionSweep.StoreStep(cfg, s.sessions, op, s.clock);
            SequentialServer.RealStep(cfg, true, Stores(s), SequentialServer.Serve(op), s.clock)
            == (SequentialServer.Real(s.challenges, st), SequentialServer.Served(ok))
  {
  }

  lemma RefreshIsChecked(cfg: Config, s: Sys, c: nat, token: string) returns (ls: seq<Label>)
    requires Reached(cfg, s) && c !in s.calls && token != "" && RefreshEnabled(cfg)
    ensures Alone(cfg, s, c, ls, Checked(cfg, s, c, token))
  {
    NothingYet(cfg, s, c);
    PresentsFirst(cfg, s, c, token);
    ThenStep(cfg, s, c, [], s, BeginRefresh(c, token), At(s, c, Looked(token, Sessions.Lookup(s.sessions.byRefresh, token))));
    ChecksAfterLooking(cfg, s, c, [] + [BeginRefresh(c, token)], token);
    ls := [] + [BeginRefresh(c, token)] + [Check(c)];
  }

  /** Logout, the revocation of a principal and the expiry of challenges are one step each. */
  lemma LogoutAlone(cfg: Config, s: Sys, id: string)
    requires Reached(cfg, s)
    ensures SequentialServer.Closed(Stores(s))
    ensures SequentialServer.RealStep(cfg, true, Stores(s), SequentialServer.Serve(SessionSweep.LogOut(id)), s.clock)
            == (Stores(Next(cfg, s, Logout(id))), SequentialServer.Served(false))
  {
  }

  lemma RevocationAlone(cfg: Config, s: Sys, pubkey: string)
    requires Reached(cfg, s)
    ensures SequentialServer.Closed(Stores(s))
    ensures SequentialServer.RealStep(cfg, true, Stores(s), SequentialServer.Serve(SessionSweep.RevokeAll(pubkey)), s.clock)
            == (Stores(Next(cfg, s, RevokePrincipal(pubkey))), SequentialServer.Served(false))
  {
  }

  lemma ExpiryAlone(cfg: Config, s: Sys)
    requires Reached(cfg, s)
    ensures SequentialServer.Closed(Stores(s))
    ensures SequentialServer.RealStep(cfg, true, Stores(s), SequentialServer.Expire, s.clock)
            == (Stores(Next(cfg, s, ExpireChallenges)), SequentialServer.Silent)
  {
  }
}
