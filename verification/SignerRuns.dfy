/**
 * Every interleaving at the key origin: messages arrive, users and signers answer, and grants are
 * revoked between any two awaits. `granted` remembers every grant ever made and when, and `calls`
 * every request ever handed to the signer and what became of it.
 */
module SignerRuns {
  import opened Options
  import opened CrossOrigin
  import opened CrossOriginSigner

  /** Where one request is. `at` is the instant its checks passed; `approved` says the user approved
      this signature. A request that reached the signer is remembered as `Replied` or `Unsent`. */
  datatype Call =
    | Consenting(connect: ConnectRequest)
    | Prompting(r: SignRequest, at: int)
    | Signing(r: SignRequest, at: int, approved: bool)
    | Replied(r: SignRequest, at: int, approved: bool, event: Event)
    | Unsent(r: SignRequest, at: int, approved: bool)
    | Over

  /** A grant as it was made, and when. */
  datatype Made = Made(grant: Grant, at: int)

  datatype Sys = Sys(s: State, granted: map<string, Made>, calls: map<nat, Call>, now: int)

  datatype Label =
    | Arrives(call: nat, origin: string, source: nat, message: Message, now: int)
    | ConsentAnswers(call: nat, answer: Consent, grantId: string, now: int)
    | PromptAnswers(call: nat, ok: bool)
    | SignerAnswers(call: nat, result: Option<Event>)
    | RevokesAll
    | Revokes(grantIdOrOrigin: string)
    | Closes

  predicate SignRun(call: Call) {
    call.Prompting? || call.Signing? || call.Replied? || call.Unsent?
  }

  /** Grant ids are random, so never one that was used before. */
  predicate Enabled(cfg: Config, y: Sys, l: Label) {
    match l
    case Arrives(c, _, _, _, now) => c !in y.calls && y.now <= now
    case ConsentAnswers(c, _, g, now) =>
      c in y.calls && y.calls[c].Consenting? && y.calls[c].connect.origin in cfg.policy && g !in y.granted && y.now <= now
    case PromptAnswers(c, _) => c in y.calls && y.calls[c].Prompting?
    case SignerAnswers(c, _) => c in y.calls && y.calls[c].Signing?
    case _ => true
  }

  function Opened(a: Arrival, now: int): Call {
    match a
    case Settled => Over
    case Consents(r) => Consenting(r)
    case Routed(Stops) => Over
    case Routed(Prompts(r)) => Prompting(r, now)
    case Routed(Signs(r)) => Signing(r, now, false)
  }

  function Next(cfg: Config, y: Sys, l: Label): Sys
    requires Enabled(cfg, y, l)
  {
    match l
    case Arrives(c, origin, source, m, now) =>
      var (s, a) := Receive(cfg, y.s, origin, source, m, now);
      y.(s := s, calls := y.calls[c := Opened(a, now)], now := now)
    case ConsentAnswers(c, answer, g, now) =>
      var r := y.calls[c].connect;
      Sys(FinishConnect(cfg, y.s, r, answer, g, now),
          if CreatesGrant(y.s, r, answer) then y.granted[g := Made(NewGrant(cfg, r, answer.pubkey, g, now), now)] else y.granted,
          y.calls[c := Over], now)
    case PromptAnswers(c, ok) =>
      var (s, signs) := AfterPrompt(y.s, y.calls[c].r, ok);
      y.(s := s, calls := y.calls[c := if signs then Signing(y.calls[c].r, y.calls[c].at, true) else Over])
    case SignerAnswers(c, result) =>
      var r := y.calls[c].r;
      y.(s := AfterSigner(y.s, r, result),
         calls := y.calls[c := if MaySend(y.s, r, result) then Replied(r, y.calls[c].at, y.calls[c].approved, result.value)
                               else Unsent(r, y.calls[c].at, y.calls[c].approved)])
    case RevokesAll => y.(s := RevokeAll(y.s))
    case Revokes(x) => y.(s := Revoke(y.s, x))
    case Closes => y.(s := Close(y.s))
  }

  function Start(now: int): Sys {
    Sys(State(map[], false, multiset{}), map[], map[], now)
  }

  ghost predicate Runs(cfg: Config, y: Sys, labels: seq<Label>)
    decreases |labels|
  {
    labels == [] || (Enabled(cfg, y, labels[0]) && Runs(cfg, Next(cfg, y, labels[0]), labels[1..]))
  }

  ghost function After(cfg: Config, y: Sys, labels: seq<Label>): Sys
    requires Runs(cfg, y, labels)
    decreases |labels|
  {
    if labels == [] then y else After(cfg, Next(cfg, y, labels[0]), labels[1..])
  }

  // ---------------------------------------------------------------------- invariant

  /** The grant as it was made; only `completionUsed` ever changes. */
  predicate SameGrant(a: Grant, b: Grant) {
    a.info == b.info && a.origin == b.origin && a.source == b.source
  }

  predicate GrantInsidePolicy(cfg: Config, g: string, made: Made, now: int) {
    var grant := made.grant;
    && grant.info.grantId == g && grant.source == cfg.opener
    && grant.origin in cfg.policy
    && grant.info.kinds <= cfg.policy[grant.origin].kinds
    && grant.info.audiences <= cfg.policy[grant.origin].audiences
    && made.at <= now && grant.info.expiresAt == made.at + cfg.policy[grant.origin].maxTtlSeconds
  }

  predicate ConnectInsidePolicy(cfg: Config, r: ConnectRequest) {
    && r.source == cfg.opener && r.origin in cfg.policy
    && r.kinds <= cfg.policy[r.origin].kinds && r.audiences <= cfg.policy[r.origin].audiences
  }

  /** A signing request passed its checks at `at`, under a grant given to this origin and window. */
  predicate Covered(cfg: Config, granted: map<string, Made>, r: SignRequest, at: int) {
    && r.grantId in granted
    && var made := granted[r.grantId];
    && r.origin == made.grant.origin && r.source == made.grant.source
    && r.pubkey == made.grant.info.pubkey
    && made.at <= at < made.grant.info.expiresAt
    && InsideGrant(cfg, made.grant, r.template, at)
  }

  /** This call handed a completion proof to the signer without asking the user. */
  predicate Rides(call: Call, g: string) {
    (call.Signing? || call.Replied? || call.Unsent?) && !call.approved && call.r.grantId == g && IsCompletion(call.r.template)
  }

  predicate CallSound(cfg: Config, s: State, granted: map<string, Made>, call: Call) {
    && (call.Consenting? ==> ConnectInsidePolicy(cfg, call.connect))
    && (SignRun(call) ==> Covered(cfg, granted, call.r, call.at))
    && (call.Replied? ==> call.event.pubkey == call.r.pubkey && call.event.template == call.r.template)
    && (SignRun(call) && Rides(call, call.r.grantId) && call.r.grantId in s.grants ==> s.grants[call.r.grantId].completionUsed)
  }

  ghost predicate GrantsSound(cfg: Config, s: State, granted: map<string, Made>, now: int) {
    && (forall g <- s.grants :: g in granted && SameGrant(s.grants[g], granted[g].grant))
    && (forall g <- granted :: GrantInsidePolicy(cfg, g, granted[g], now))
    && (s.closed ==> s.grants == map[])
  }

  ghost predicate OneRider(calls: map<nat, Call>) {
    forall c, d | c in calls && d in calls && c != d && SignRun(calls[c]) && Rides(calls[c], calls[c].r.grantId) ::
      !Rides(calls[d], calls[c].r.grantId)
  }

  /** The calls that sent this very message. */
  function Senders(calls: map<nat, Call>, p: Posted): set<nat> {
    set c | c in calls && calls[c].Replied? && Posted(calls[c].r.origin, Signed(calls[c].r.id, calls[c].event)) == p
  }

  ghost predicate Accounted(s: State, calls: map<nat, Call>) {
    forall p: Posted | p.message.Signed? :: s.outbox[p] == |Senders(calls, p)|
  }

  ghost predicate Inv(cfg: Config, y: Sys) {
    && GrantsSound(cfg, y.s, y.granted, y.now)
    && (forall c <- y.calls :: CallSound(cfg, y.s, y.granted, y.calls[c]))
    && OneRider(y.calls)
    && Accounted(y.s, y.calls)
  }

  // ------------------------------------------------------ what one step may do to the state

  /** Grants only disappear, except that `born` may appear, and a completion mark is only ever set. */
  ghost predicate Evolves(before: State, after: State, born: set<string>) {
    && after.grants.Keys <= before.grants.Keys + born
    && (forall g | g in after.grants && g in before.grants ::
          SameGrant(after.grants[g], before.grants[g]) && (before.grants[g].completionUsed ==> after.grants[g].completionUsed))
    && (before.closed ==> after.closed)
  }

  /** No signature is among the messages posted. */
  ghost predicate Silent(before: State, after: State) {
    forall p: Posted | p.message.Signed? :: after.outbox[p] == before.outbox[p]
  }

  lemma DropAllEvolves(s: State, ids: set<string>)
    requires ids <= s.grants.Keys
    ensures Evolves(s, DropAll(s, ids), {}) && Silent(s, DropAll(s, ids))
  {
    var sent := set g | g in ids :: Posted(s.grants[g].origin, RevokedGrant(g));
    forall p: Posted | p.message.Signed? ensures DropAll(s, ids).outbox[p] == s.outbox[p] {
      assert p !in sent;
    }
  }

  /** The three things the checks of `handleSign` can do to the grants, and the one message they may send. */
  lemma StartSignShape(cfg: Config, s: State, origin: string, source: nat, m: Message, now: int)
    requires m.Sign?
    ensures var after := StartSign(cfg, s, origin, source, m, now).0;
            && after.closed == s.closed
            && (|| after.grants == s.grants
                || (m.grantId in s.grants && after.grants == s.grants - {s.grants[m.grantId].info.grantId})
                || (m.grantId in s.grants && after.grants == s.grants[m.grantId := s.grants[m.grantId].(completionUsed := true)]))
            && (after.outbox == s.outbox || exists code :: after.outbox == s.outbox + multiset{Posted(origin, Error(Some(m.id), code))})
  {
  }

  lemma StartSignEvolves(cfg: Config, s: State, origin: string, source: nat, m: Message, now: int)
    requires m.Sign?
    ensures var after := StartSign(cfg, s, origin, source, m, now).0;
            Evolves(s, after, {}) && Silent(s, after) && after.closed == s.closed
  {
    StartSignShape(cfg, s, origin, source, m, now);
  }

  lemma ReceiveEvolves(cfg: Config, s: State, origin: string, source: nat, m: Message, now: int)
    ensures var after := Receive(cfg, s, origin, source, m, now).0;
            Evolves(s, after, {}) && Silent(s, after) && after.closed == s.closed
  {
    if m.Sign? {
      StartSignEvolves(cfg, s, origin, source, m, now);
    }
  }

  lemma AfterSignerEvolves(s: State, r: SignRequest, result: Option<Event>)
    ensures Evolves(s, AfterSigner(s, r, result), {})
    ensures AfterSigner(s, r, result).closed == s.closed
    ensures !MaySend(s, r, result) ==> Silent(s, AfterSigner(s, r, result))
    ensures MaySend(s, r, result) ==> AfterSigner(s, r, result) == Post(s, r.origin, Signed(r.id, result.value))
  {
    var told := FailWith(s, r.origin, r.id, Revoked);
    DropAllEvolves(told, told.grants.Keys);
    if result.Some? && r.grantId in s.grants && result.value.pubkey != r.pubkey {
      assert AfterSigner(s, r, result) == RevokeAll(told);
    }
  }

  function Born(cfg: Config, y: Sys, l: Label): set<string>
    requires Enabled(cfg, y, l)
  {
    if l.ConsentAnswers? && CreatesGrant(y.s, y.calls[l.call].connect, l.answer) then {l.grantId} else {}
  }

  /** Only an approved consent makes a grant; every other step can only end grants. */
  lemma StepEvolves(cfg: Config, y: Sys, l: Label)
    requires Enabled(cfg, y, l) && GrantsSound(cfg, y.s, y.granted, y.now)
    ensures Evolves(y.s, Next(cfg, y, l).s, Born(cfg, y, l))
  {
    match l
    case Arrives(_, origin, source, m, now) => ReceiveEvolves(cfg, y.s, origin, source, m, now);
    case ConsentAnswers(_, _, _, _) =>
    case PromptAnswers(_, _) =>
    case SignerAnswers(c, result) => AfterSignerEvolves(y.s, y.calls[c].r, result);
    case RevokesAll => DropAllEvolves(y.s, y.s.grants.Keys);
    case Revokes(x) => DropAllEvolves(y.s, set g | g in y.s.grants && Matches(y.s.grants[g], x));
    case Closes => DropAllEvolves(y.s, y.s.grants.Keys);
  }

  /** When a step closes the page, no grant is left. */
  lemma StepCloses(cfg: Config, y: Sys, l: Label)
    requires Enabled(cfg, y, l) && Next(cfg, y, l).s.closed && !y.s.closed
    ensures Next(cfg, y, l).s.grants == map[]
  {
    match l
    case Arrives(_, origin, source, m, now) => ReceiveEvolves(cfg, y.s, origin, source, m, now);
    case SignerAnswers(c, result) => AfterSignerEvolves(y.s, y.calls[c].r, result);
    case _ =>
  }

  lemma GrantsStaySound(cfg: Config, s: State, t: State, granted: map<string, Made>, later: map<string, Made>,
                        born: set<string>, now: int, soon: int)
    requires GrantsSound(cfg, s, granted, now) && Evolves(s, t, born) && now <= soon
    requires later.Keys == granted.Keys + born && born !! granted.Keys
    requires forall g <- granted :: later[g] == granted[g]
    requires forall g <- born :: GrantInsidePolicy(cfg, g, later[g], soon) && (g in t.grants ==> SameGrant(t.grants[g], later[g].grant))
    requires t.closed && !s.closed ==> t.grants == map[]
    requires s.closed ==> born == {}
    ensures GrantsSound(cfg, t, later, soon)
  {
    if s.closed {
      assert t.grants.Keys == {};
    }
  }

  lemma StepKeepsGrants(cfg: Config, y: Sys, l: Label)
    requires SoundPolicy(cfg.policy) && Enabled(cfg, y, l) && Inv(cfg, y)
    ensures var z := Next(cfg, y, l); GrantsSound(cfg, z.s, z.granted, z.now) && z.granted.Keys == y.granted.Keys + Born(cfg, y, l)
    ensures forall g <- y.granted :: Next(cfg, y, l).granted[g] == y.granted[g]
  {
    var z := Next(cfg, y, l);
    StepEvolves(cfg, y, l);
    if z.s.closed && !y.s.closed {
      StepCloses(cfg, y, l);
    }
    if l.ConsentAnswers? {
      assert CallSound(cfg, y.s, y.granted, y.calls[l.call]);
    }
    GrantsStaySound(cfg, y.s, z.s, y.granted, z.granted, Born(cfg, y, l), y.now, z.now);
  }

  // ------------------------------------------------------------------ the calls stay sound

  lemma CallStaysSound(cfg: Config, s: State, t: State, granted: map<string, Made>, later: map<string, Made>,
                       born: set<string>, call: Call)
    requires CallSound(cfg, s, granted, call) && Evolves(s, t, born)
    requires born !! granted.Keys && granted.Keys <= later.Keys && forall g <- granted :: later[g] == granted[g]
    ensures CallSound(cfg, t, later, call)
  {
  }

  /** A request that passes the checks is covered by its grant, and one that needs no question claims the grant's one completion. */
  lemma RoutedIsCovered(cfg: Config, s: State, granted: map<string, Made>, origin: string, source: nat, m: Message, now: int)
    requires m.Sign? && GrantsSound(cfg, s, granted, now)
    ensures var (after, route) := StartSign(cfg, s, origin, source, m, now);
            && (route.Prompts? || route.Signs? ==> Covered(cfg, granted, route.r, now))
            && (route.Signs? && IsCompletion(route.r.template) ==>
                  && route.r.grantId in s.grants && !s.grants[route.r.grantId].completionUsed
                  && route.r.grantId in after.grants && after.grants[route.r.grantId].completionUsed)
  {
    if m.grantId in s.grants {
      assert SameGrant(s.grants[m.grantId], granted[m.grantId].grant);
      assert GrantInsidePolicy(cfg, m.grantId, granted[m.grantId], now);
    }
  }

  /** The call a step is about, after the step. */
  lemma OwnCallSound(cfg: Config, y: Sys, l: Label)
    requires SoundPolicy(cfg.policy) && Enabled(cfg, y, l) && Inv(cfg, y)
    requires l.Arrives? || l.ConsentAnswers? || l.PromptAnswers? || l.SignerAnswers?
    ensures var z := Next(cfg, y, l); CallSound(cfg, z.s, z.granted, z.calls[l.call])
  {
    var z := Next(cfg, y, l);
    match l
    case Arrives(c, origin, source, m, now) =>
      if m.Sign? {
        RoutedIsCovered(cfg, y.s, y.granted, origin, source, m, now);
      }
    case ConsentAnswers(_, _, _, _) =>
    case PromptAnswers(c, _) => assert CallSound(cfg, y.s, y.granted, y.calls[c]);
    case SignerAnswers(c, result) =>
      assert CallSound(cfg, y.s, y.granted, y.calls[c]);
      StepEvolves(cfg, y, l);
  }

  lemma StepKeepsCalls(cfg: Config, y: Sys, l: Label)
    requires SoundPolicy(cfg.policy) && Enabled(cfg, y, l) && Inv(cfg, y)
    ensures var z := Next(cfg, y, l); forall c <- z.calls :: CallSound(cfg, z.s, z.granted, z.calls[c])
  {
    var z := Next(cfg, y, l);
    StepEvolves(cfg, y, l);
    StepKeepsGrants(cfg, y, l);
    forall c <- z.calls ensures CallSound(cfg, z.s, z.granted, z.calls[c]) {
      if c in y.calls && z.calls[c] == y.calls[c] {
        CallStaysSound(cfg, y.s, z.s, y.granted, z.granted, Born(cfg, y, l), y.calls[c]);
      } else {
        OwnCallSound(cfg, y, l);
      }
    }
  }

  /** A step adds a rider only where its grant's completion was still unclaimed, so no call rides it already. */
  lemma NewRiderIsAlone(cfg: Config, y: Sys, l: Label, c: nat, d: nat)
    requires SoundPolicy(cfg.policy) && Enabled(cfg, y, l) && Inv(cfg, y)
    requires var z := Next(cfg, y, l); c in z.calls && d in y.calls && c != d && SignRun(z.calls[c]) && Rides(z.calls[c], z.calls[c].r.grantId)
    ensures !Rides(y.calls[d], Next(cfg, y, l).calls[c].r.grantId)
  {
    var z := Next(cfg, y, l);
    assert CallSound(cfg, y.s, y.granted, y.calls[d]);
    if c in y.calls && z.calls[c] == y.calls[c] {
      assert SignRun(y.calls[c]);
    } else {
      match l
      case Arrives(_, origin, source, m, now) => RoutedIsCovered(cfg, y.s, y.granted, origin, source, m, now);
      case SignerAnswers(_, _) => assert SignRun(y.calls[c]) && Rides(y.calls[c], y.calls[c].r.grantId);
      case _ =>
    }
  }

  lemma StepKeepsOneRider(cfg: Config, y: Sys, l: Label)
    requires SoundPolicy(cfg.policy) && Enabled(cfg, y, l) && Inv(cfg, y)
    ensures OneRider(Next(cfg, y, l).calls)
  {
    var z := Next(cfg, y, l);
    forall c, d | c in z.calls && d in z.calls && c != d && SignRun(z.calls[c]) && Rides(z.calls[c], z.calls[c].r.grantId)
      ensures !Rides(z.calls[d], z.calls[c].r.grantId)
    {
      if d in y.calls && z.calls[d] == y.calls[d] {
        NewRiderIsAlone(cfg, y, l, c, d);
      } else if SignRun(z.calls[d]) && Rides(z.calls[d], z.calls[d].r.grantId) && c in y.calls {
        NewRiderIsAlone(cfg, y, l, d, c);
      }
    }
  }

  lemma ReplyAccounts(s: State, t: State, calls: map<nat, Call>, c: nat, result: Option<Event>)
    requires Accounted(s, calls) && c in calls && calls[c].Signing? && MaySend(s, calls[c].r, result)
    requires t == Post(s, calls[c].r.origin, Signed(calls[c].r.id, result.value))
    ensures Accounted(t, calls[c := Replied(calls[c].r, calls[c].at, calls[c].approved, result.value)])
  {
    var later := calls[c := Replied(calls[c].r, calls[c].at, calls[c].approved, result.value)];
    var sent := Posted(calls[c].r.origin, Signed(calls[c].r.id, result.value));
    forall p: Posted | p.message.Signed? ensures t.outbox[p] == |Senders(later, p)| {
      if p == sent {
        assert Senders(later, p) == Senders(calls, p) + {c};
      } else {
        assert Senders(later, p) == Senders(calls, p);
      }
    }
  }

  lemma SilenceAccounts(s: State, t: State, calls: map<nat, Call>, later: map<nat, Call>)
    requires Accounted(s, calls) && Silent(s, t)
    requires forall c: nat :: (c in calls && calls[c].Replied?) || (c in later && later[c].Replied?) ==>
               c in calls && c in later && calls[c] == later[c]
    ensures Accounted(t, later)
  {
    forall p: Posted | p.message.Signed? ensures t.outbox[p] == |Senders(later, p)| {
      assert Senders(later, p) == Senders(calls, p);
    }
  }

  lemma StepAccounts(cfg: Config, y: Sys, l: Label)
    requires Enabled(cfg, y, l) && Inv(cfg, y)
    ensures Accounted(Next(cfg, y, l).s, Next(cfg, y, l).calls)
  {
    var z := Next(cfg, y, l);
    if l.SignerAnswers? && MaySend(y.s, y.calls[l.call].r, l.result) {
      AfterSignerEvolves(y.s, y.calls[l.call].r, l.result);
      ReplyAccounts(y.s, z.s, y.calls, l.call, l.result);
    } else {
      StepIsSilent(cfg, y, l);
      SilenceAccounts(y.s, z.s, y.calls, z.calls);
    }
  }

  lemma StepIsSilent(cfg: Config, y: Sys, l: Label)
    requires Enabled(cfg, y, l)
    requires l.SignerAnswers? ==> !MaySend(y.s, y.calls[l.call].r, l.result)
    ensures Silent(y.s, Next(cfg, y, l).s)
  {
    match l
    case Arrives(_, origin, source, m, now) => ReceiveEvolves(cfg, y.s, origin, source, m, now);
    case ConsentAnswers(_, _, _, _) =>
    case PromptAnswers(_, _) =>
    case SignerAnswers(c, result) => AfterSignerEvolves(y.s, y.calls[c].r, result);
    case RevokesAll => DropAllEvolves(y.s, y.s.grants.Keys);
    case Revokes(x) => DropAllEvolves(y.s, set g | g in y.s.grants && Matches(y.s.grants[g], x));
    case Closes => DropAllEvolves(y.s, y.s.grants.Keys);
  }

  lemma StepKeepsInv(cfg: Config, y: Sys, l: Label)
    requires SoundPolicy(cfg.policy) && Enabled(cfg, y, l) && Inv(cfg, y)
    ensures Inv(cfg, Next(cfg, y, l))
  {
    StepKeepsGrants(cfg, y, l);
    StepKeepsCalls(cfg, y, l);
    StepKeepsOneRider(cfg, y, l);
    StepAccounts(cfg, y, l);
  }

  lemma {:induction false} RunKeepsInv(cfg: Config, y: Sys, labels: seq<Label>)
    requires SoundPolicy(cfg.policy) && Runs(cfg, y, labels) && Inv(cfg, y)
    ensures Inv(cfg, After(cfg, y, labels))
    decreases |labels|
  {
    if labels != [] {
      StepKeepsInv(cfg, y, labels[0]);
      RunKeepsInv(cfg, Next(cfg, y, labels[0]), labels[1..]);
    }
  }

  // ----------------------------------------------------------------------- theorems

  ghost predicate Reachable(cfg: Config, y: Sys) {
    exists now, labels :: Runs(cfg, Start(now), labels) && After(cfg, Start(now), labels) == y
  }

  lemma ReachableInv(cfg: Config, y: Sys)
    requires SoundPolicy(cfg.policy) && Reachable(cfg, y)
    ensures Inv(cfg, y)
  {
    var now, labels :| Runs(cfg, Start(now), labels) && After(cfg, Start(now), labels) == y;
    RunKeepsInv(cfg, Start(now), labels);
  }

  /** What reached the signer is never forgotten, nor is whether the user approved it. */
  lemma StepKeepsRides(cfg: Config, y: Sys, l: Label, c: nat, g: string)
    requires Enabled(cfg, y, l) && c in y.calls && Rides(y.calls[c], g)
    ensures c in Next(cfg, y, l).calls && Rides(Next(cfg, y, l).calls[c], g)
  {
  }

  lemma {:induction false} RidesForever(cfg: Config, y: Sys, labels: seq<Label>, c: nat, g: string)
    requires Runs(cfg, y, labels) && c in y.calls && Rides(y.calls[c], g)
    ensures c in After(cfg, y, labels).calls && Rides(After(cfg, y, labels).calls[c], g)
    decreases |labels|
  {
    if labels != [] {
      StepKeepsRides(cfg, y, labels[0], c, g);
      RidesForever(cfg, Next(cfg, y, labels[0]), labels[1..], c, g);
    }
  }

  /**
   * However the sign requests of a grant interleave, and whatever became of the first one, at most
   * one completion proof is ever handed to the signer without an approved `onSign`: a request that
   * has been, and one that is at any later time, are the same request.
   */
  lemma OneUnpromptedCompletion(cfg: Config, y: Sys, labels: seq<Label>, c: nat, d: nat, g: string)
    requires SoundPolicy(cfg.policy) && Reachable(cfg, y) && Runs(cfg, y, labels)
    requires c in y.calls && Rides(y.calls[c], g)
    requires d in After(cfg, y, labels).calls && Rides(After(cfg, y, labels).calls[d], g)
    ensures c == d
  {
    ReachableInv(cfg, y);
    RunKeepsInv(cfg, y, labels);
    RidesForever(cfg, y, labels, c, g);
    assert SignRun(After(cfg, y, labels).calls[c]);
  }

  /**
   * Every signature posted answers one request each: it goes to the origin and window its grant was
   * made for, and signs what was asked with the grant's key, for a kind and an audience inside both
   * the grant and the policy, asked for in the lifetime the policy gives the grant and near its own
   * `created_at`.
   */
  lemma SignedRepliesAreCovered(cfg: Config, y: Sys, p: Posted)
    requires SoundPolicy(cfg.policy) && Reachable(cfg, y) && p.message.Signed?
    ensures y.s.outbox[p] == |Senders(y.calls, p)|
    ensures forall c <- Senders(y.calls, p) ::
              var call, event := y.calls[c], p.message.event;
              var audience := AudienceOf(cfg.originOf, event.template);
              && call.r.grantId in y.granted
              && var Made(grant, madeAt) := y.granted[call.r.grantId];
              && p.origin == grant.origin && grant.source == cfg.opener && grant.origin in cfg.policy
              && var entry := cfg.policy[grant.origin];
              && event.template == call.r.template && event.pubkey == grant.info.pubkey
              && event.template.kind in grant.info.kinds && event.template.kind in entry.kinds
              && audience.Some? && audience.value in grant.info.audiences && audience.value in entry.audiences
              && madeAt <= call.at < madeAt + entry.maxTtlSeconds <= madeAt + MAX_GRANT_TTL_SECONDS
              && Abs(event.template.createdAt - call.at) <= cfg.skew
  {
    ReachableInv(cfg, y);
    forall c <- Senders(y.calls, p) ensures CallSound(cfg, y.s, y.granted, y.calls[c]) && y.calls[c].Replied? {
    }
    forall g <- y.granted ensures GrantInsidePolicy(cfg, g, y.granted[g], y.now) {
    }
  }

  /** Nothing of grant `g` can be signed any more: it is gone, and was made before. */
  predicate Ended(y: Sys, g: string) {
    g in y.granted && g !in y.s.grants
  }

  /** The signatures made under `g`: requests that reached a `signed` reply. */
  function SignedUnder(y: Sys, g: string): set<nat> {
    set c | c in y.calls && y.calls[c].Replied? && y.calls[c].r.grantId == g
  }

  lemma StepKeepsEnded(cfg: Config, y: Sys, l: Label, g: string)
    requires SoundPolicy(cfg.policy) && Enabled(cfg, y, l) && Inv(cfg, y) && Ended(y, g)
    ensures Ended(Next(cfg, y, l), g) && SignedUnder(Next(cfg, y, l), g) == SignedUnder(y, g)
  {
    StepEvolves(cfg, y, l);
    StepKeepsGrants(cfg, y, l);
  }

  /**
   * The end of a grant is final: whatever dropped it (revocation, disconnect, expiry, a changed
   * identity, close), no request pending then or made later yields a `signed` reply for it.
   */
  lemma {:induction false} EndIsFinal(cfg: Config, y: Sys, labels: seq<Label>, g: string)
    requires SoundPolicy(cfg.policy) && Inv(cfg, y) && Runs(cfg, y, labels) && Ended(y, g)
    ensures Ended(After(cfg, y, labels), g) && SignedUnder(After(cfg, y, labels), g) == SignedUnder(y, g)
    decreases |labels|
  {
    if labels != [] {
      StepKeepsEnded(cfg, y, labels[0], g);
      StepKeepsInv(cfg, y, labels[0]);
      EndIsFinal(cfg, Next(cfg, y, labels[0]), labels[1..], g);
    }
  }

  lemma StepStaysClosed(cfg: Config, y: Sys, l: Label)
    requires SoundPolicy(cfg.policy) && Enabled(cfg, y, l) && Inv(cfg, y) && y.s.closed
    ensures var z := Next(cfg, y, l); z.s.closed && z.s.grants == map[] && z.granted == y.granted
    ensures Silent(y.s, Next(cfg, y, l).s)
  {
    StepEvolves(cfg, y, l);
    StepKeepsGrants(cfg, y, l);
    StepIsSilent(cfg, y, l);
  }

  /** After `close` the grant table stays empty for good, no grant is ever made, and nothing more is signed. */
  lemma {:induction false} CloseIsFinal(cfg: Config, y: Sys, labels: seq<Label>)
    requires SoundPolicy(cfg.policy) && Inv(cfg, y) && Runs(cfg, y, labels) && y.s.closed
    ensures var z := After(cfg, y, labels); z.s.closed && z.s.grants == map[] && z.granted == y.granted && Silent(y.s, z.s)
    decreases |labels|
  {
    if labels != [] {
      StepStaysClosed(cfg, y, labels[0]);
      StepKeepsInv(cfg, y, labels[0]);
      CloseIsFinal(cfg, Next(cfg, y, labels[0]), labels[1..]);
    }
  }

  /** A grant appears in exactly one way: the page is open, the user approved, and the identity is the one asked for. */
  lemma GrantsComeFromConsent(cfg: Config, y: Sys, l: Label, g: string)
    requires SoundPolicy(cfg.policy) && Enabled(cfg, y, l) && Inv(cfg, y) && g !in y.s.grants
    ensures g in Next(cfg, y, l).s.grants <==>
            l.ConsentAnswers? && l.grantId == g && CreatesGrant(y.s, y.calls[l.call].connect, l.answer)
  {
    StepEvolves(cfg, y, l);
  }

  /** A message that, arriving, can begin a connect. */
  predicate BringsConnect(l: Label) {
    l.Arrives? && l.message.Connect?
  }

  predicate NoConnectArrives(labels: seq<Label>) {
    forall l <- labels :: !BringsConnect(l)
  }

  predicate AnyoneWaits(y: Sys) {
    exists c :: c in y.calls && y.calls[c].Consenting?
  }

  lemma NobodyNewWaits(cfg: Config, y: Sys, l: Label)
    requires Enabled(cfg, y, l) && !BringsConnect(l)
    ensures AnyoneWaits(Next(cfg, y, l)) ==> AnyoneWaits(y)
  {
    var z := Next(cfg, y, l);
    forall c | c in z.calls && z.calls[c].Consenting? ensures c in y.calls && y.calls[c].Consenting? {
    }
  }

  lemma NobodyWaitingGetsNothing(cfg: Config, y: Sys, l: Label)
    requires Enabled(cfg, y, l) && !AnyoneWaits(y)
    ensures Born(cfg, y, l) == {}
  {
  }

  lemma StepWithoutConnect(cfg: Config, y: Sys, l: Label)
    requires SoundPolicy(cfg.policy) && Enabled(cfg, y, l) && Inv(cfg, y) && !BringsConnect(l)
    ensures AnyoneWaits(Next(cfg, y, l)) ==> AnyoneWaits(y)
    ensures !AnyoneWaits(y) && y.s.grants == map[] ==> Next(cfg, y, l).s.grants == map[]
  {
    NobodyNewWaits(cfg, y, l);
    if !AnyoneWaits(y) && y.s.grants == map[] {
      StepEvolves(cfg, y, l);
      NobodyWaitingGetsNothing(cfg, y, l);
      assert Next(cfg, y, l).s.grants.Keys == {};
    }
  }

  /** With no connect arriving, a page without grants can only get one from a connect already waiting. */
  lemma {:induction false} GrantsNeedSomeoneWaiting(cfg: Config, y: Sys, labels: seq<Label>)
    requires SoundPolicy(cfg.policy) && Runs(cfg, y, labels) && Inv(cfg, y) && NoConnectArrives(labels) && y.s.grants == map[]
    ensures After(cfg, y, labels).s.grants != map[] ==> AnyoneWaits(y)
    decreases |labels|
  {
    if labels != [] {
      assert labels[0] in labels && forall l <- labels[1..] :: l in labels;
      StepWithoutConnect(cfg, y, labels[0]);
      StepKeepsInv(cfg, y, labels[0]);
      if Next(cfg, y, labels[0]).s.grants == map[] {
        GrantsNeedSomeoneWaiting(cfg, Next(cfg, y, labels[0]), labels[1..]);
      }
    }
  }

  /** Some string is not among finitely many. */
  lemma {:induction false} FreshString(used: set<string>) returns (unused: string)
    ensures unused !in used && forall s <- used :: |s| < |unused|
  {
    if used == {} {
      unused := "g";
    } else {
      var s :| s in used;
      var shorter := FreshString(used - {s});
      unused := shorter + s + "g";
    }
  }

  /**
   * `revokeAll` is not `close`: a connect request already waiting for the user still makes a grant
   * when the user then approves, with whatever identity the request accepts.
   */
  lemma RevokeAllLetsAPendingConnectThrough(cfg: Config, y: Sys, c: nat, pubkey: string, g: string)
    requires SoundPolicy(cfg.policy) && Inv(cfg, y) && !y.s.closed && g !in y.granted
    requires c in y.calls && y.calls[c].Consenting?
    requires Truthy(y.calls[c].connect.expectedPubkey) ==> pubkey == y.calls[c].connect.expectedPubkey.value
    ensures var z, l := Next(cfg, y, RevokesAll), ConsentAnswers(c, Answered(pubkey, true), g, y.now);
            && Enabled(cfg, y, RevokesAll) && z.s.grants == map[]
            && Runs(cfg, z, [l]) && After(cfg, z, [l]).s.grants.Keys == {g}
  {
    var z, l := Next(cfg, y, RevokesAll), ConsentAnswers(c, Answered(pubkey, true), g, y.now);
    assert CallSound(cfg, y.s, y.granted, y.calls[c]);
    assert Enabled(cfg, z, l);
    assert [l][1..] == [];
    assert Runs(cfg, Next(cfg, z, l), []);
  }

  /**
   * `revokeAll` is not `close`: after the wait for the user only `closed` is checked again. On a page
   * that is open when `revokeAll` has ended every grant, some run in which no further connect arrives
   * ends with a grant exactly when a connect is waiting for consent at that moment.
   */
  lemma RevokedUntilConsent(cfg: Config, y: Sys)
    requires SoundPolicy(cfg.policy) && Inv(cfg, y) && !y.s.closed
    ensures var z := Next(cfg, y, RevokesAll);
            && z.s.grants == map[]
            && ((exists labels :: NoConnectArrives(labels) && Runs(cfg, z, labels) && After(cfg, z, labels).s.grants != map[])
                <==> AnyoneWaits(y))
  {
    var z := Next(cfg, y, RevokesAll);
    StepKeepsInv(cfg, y, RevokesAll);
    if labels :| NoConnectArrives(labels) && Runs(cfg, z, labels) && After(cfg, z, labels).s.grants != map[] {
      GrantsNeedSomeoneWaiting(cfg, z, labels);
    }
    if c :| c in y.calls && y.calls[c].Consenting? {
      var g := FreshString(y.granted.Keys);
      var expected := y.calls[c].connect.expectedPubkey;
      var pubkey := if Truthy(expected) then expected.value else "";
      RevokeAllLetsAPendingConnectThrough(cfg, y, c, pubkey, g);
      assert NoConnectArrives([ConsentAnswers(c, Answered(pubkey, true), g, y.now)]);
    }
  }
}
