/**
 * What the relying origin does with each message and call, in every state a run can reach: which request a
 * message settles, when the channel ends and with what reason, what is posted, and that a signature asked
 * for and given comes back.
 */
module ClientDecisions {
  import opened Options
  import opened CrossOrigin
  import opened CrossOriginClient
  import opened ClientRuns

  ghost predicate Reachable(cfg: Config, s: State) {
    exists labels :: Runs(cfg, Start(), labels) && After(cfg, Start(), labels) == s
  }

  lemma ReachableInv(cfg: Config, s: State)
    requires Reachable(cfg, s)
    ensures Inv(s) && GrantInv(cfg, s)
  {
    var labels :| Runs(cfg, Start(), labels) && After(cfg, Start(), labels) == s;
    assert Waiting(Start().pending) == {};
    RunKeepsInv(cfg, Start(), labels);
  }

  // ----------------------------------------------------------------- the end, spelled out

  /** Everyone is told once: what was waiting has failed with this reason, and every listener has heard it. */
  ghost predicate EndsWith(s: State, t: State, code: ErrorCode) {
    && t.ended == Some(code) && t.pending == map[] && t.timers == {} && t.listeners == {}
    && t.ready == s.ready && t.grant == s.grant && t.asked == s.asked && t.posted == s.posted
    && t.promises.Keys == s.promises.Keys && t.heard.Keys == s.heard.Keys
    && (forall n <- s.promises :: t.promises[n] == if s.promises[n] == [] then [Failed(code)] else s.promises[n])
    && (forall l <- s.heard :: t.heard[l] == if l in s.listeners then [code] else s.heard[l])
  }

  lemma EndIsSpelled(s: State, code: ErrorCode)
    requires Inv(s) && s.ended.None?
    ensures EndsWith(s, End(s, code), code) && End(s, code).phase == s.phase
  {
    forall n <- s.promises ensures n in Waiting(s.pending) <==> s.promises[n] == [] {
      assert n in s.timers <==> n in Waiting(s.pending);
    }
  }

  /** Nothing more happens once the channel has ended. */
  ghost predicate EndsOnce(s: State, t: State, code: ErrorCode) {
    if s.ended.Some? then t == s else EndsWith(s, t, code) && t.phase == s.phase
  }

  // ------------------------------------------------------------------------- messages

  /** The one request waiting under `id` gets this outcome, and its timer is cleared. */
  ghost predicate Settles(s: State, t: State, id: string, o: Outcome) {
    && id in s.pending
    && var n := s.pending[id];
    t == s.(pending := s.pending - {id}, timers := s.timers - {n}, promises := s.promises[n := [o]])
  }

  lemma SettledIsSpelled(s: State, id: string, o: Outcome)
    requires Inv(s) && id in s.pending && (o.Reply? ==> ReplyId(o.message) == Some(id))
    ensures Settles(s, Settled(s, id, o), id, o) && Inv(Settled(s, id, o))
  {
    var n := s.pending[id];
    assert n in s.timers && n in s.promises && s.promises[n] == [];
    assert s.promises[n] + [o] == [o];
    SettledKeepsInv(s, id, o);
  }

  /** A failure that ends the channel: the request it names fails, and then everyone else does, all with the same reason. */
  lemma SettlingEnds(s: State, id: string, code: ErrorCode)
    requires Inv(s) && s.ended.None? && id in s.pending
    ensures EndsWith(s, End(Settled(s, id, Failed(code)), code), code)
  {
    var settled := Settled(s, id, Failed(code));
    SettledIsSpelled(s, id, Failed(code));
    EndIsSpelled(settled, code);
    assert s.pending[id] in s.timers && s.promises[s.pending[id]] == [];
    forall n <- s.promises ensures End(settled, code).promises[n] == if s.promises[n] == [] then [Failed(code)] else s.promises[n] {
      assert n in settled.promises && (n != s.pending[id] ==> settled.promises[n] == s.promises[n]);
    }
  }

  /** The message is one the listener takes: from the window it opened, showing the key origin, before the end. */
  predicate Taken(cfg: Config, s: State, l: Label)
    requires l.Hears?
  {
    s.ended.None? && l.source == cfg.popup && l.origin == cfg.keyOrigin
  }

  /** What a message leads to. */
  ghost predicate MessageOutcome(cfg: Config, s: State, t: State, m: Message) {
    match m
    case Ready =>
      if !s.ready then t == s.(ready := true)
      else if s.grant.Some? then EndsWith(s, t, ErrorCode.Revoked) && t.phase == s.phase
      else t == s
    case RevokedGrant(g) =>
      if s.grant.Some? && s.grant.value.grantId == g then EndsWith(s, t, ErrorCode.Revoked) && t.phase == s.phase else t == s
    case Connected(id, _) => if id in s.pending then Settles(s, t, id, Reply(m)) else t == s
    case Signed(id, _) => if id in s.pending then Settles(s, t, id, Reply(m)) else t == s
    case Error(id, code) =>
      if id.None? || id.value == "" || id.value !in s.pending then t == s
      else if code == ErrorCode.Revoked || code == GrantExpired then EndsWith(s, t, code) && t.phase == s.phase
      else Settles(s, t, id.value, Failed(code))
    case _ => t == s
  }

  /** A message is heard exactly from the opened window at the key origin; then its kind and id decide. */
  lemma MessagesAreDecided(cfg: Config, s: State, l: Label)
    requires Reachable(cfg, s) && l.Hears?
    ensures if Taken(cfg, s, l) then MessageOutcome(cfg, s, Next(cfg, s, l), l.message) else Next(cfg, s, l) == s
  {
    ReachableInv(cfg, s);
    if Taken(cfg, s, l) {
      var m := l.message;
      EndIsSpelled(s, ErrorCode.Revoked);
      if ReplyId(m).Some? && ReplyId(m).value in s.pending {
        AnswersAreDecided(cfg, s, m);
      }
    }
  }

  lemma AnswersAreDecided(cfg: Config, s: State, m: Message)
    requires Inv(s) && s.ended.None? && ReplyId(m).Some? && ReplyId(m).value in s.pending
    ensures MessageOutcome(cfg, s, Answer(s, ReplyId(m).value, m), m)
    ensures Answer(s, ReplyId(m).value, m).phase == s.phase
  {
    var id := ReplyId(m).value;
    if m.Error? {
      SettledIsSpelled(s, id, Failed(m.code));
      SettlingEnds(s, id, m.code);
    } else {
      SettledIsSpelled(s, id, Reply(m));
    }
  }

  // ------------------------------------------------------------------ the page's own calls

  /** The request `m` is posted and waits for promise `n` under `id`; after the end it fails at once instead. */
  ghost predicate Asks(s: State, t: State, n: nat, id: string, m: Message) {
    if s.ended.Some? then t == s.(asked := s.asked[n := id], promises := s.promises[n := [Failed(s.ended.value)]])
    else t == s.(asked := s.asked[n := id], promises := s.promises[n := []], timers := s.timers + {n},
                 pending := s.pending[id := n], posted := s.posted + [m])
  }

  /** Once the signer page is ready the grant is asked for: these kinds, these audiences, and this identity if one is expected. */
  lemma ConnectIsAsked(cfg: Config, s: State, l: Label)
    requires Enabled(s, l) && l.AsksToConnect?
    ensures exists asked ::
              && Asks(s, asked, l.promise, l.id, Connect(l.id, cfg.kinds, cfg.audiences,
                        if cfg.expectedPubkey == Some("") then None else cfg.expectedPubkey))
              && Next(cfg, s, l) == asked.(phase := Connecting(l.promise))
  {
    var m := Connect(l.id, cfg.kinds, cfg.audiences, if cfg.expectedPubkey == Some("") then None else cfg.expectedPubkey);
    var asked := Request(s, l.promise, l.id, m);
    assert Asks(s, asked, l.promise, l.id, m);
  }

  /** The reply is a grant no wider than asked for, for the identity expected if one is. */
  predicate Fitting(cfg: Config, o: Outcome) {
    && o.Reply? && o.message.Connected?
    && var info := o.message.grant;
    && (forall k <- info.kinds :: k in cfg.kinds) && (forall a <- info.audiences :: a in cfg.audiences)
    && cfg.expectedPubkey in {None, Some(""), Some(info.pubkey)}
  }

  /** The page has a grant exactly when the reply fits; any other ends the channel, with the failure's own reason if it is one. */
  lemma ConnectAnswersAreDecided(cfg: Config, s: State, l: Label)
    requires Reachable(cfg, s) && Enabled(s, l) && l.HearsBack?
    ensures var t, o := Next(cfg, s, l), s.promises[s.phase.promise][0];
            && (t.phase.Open? <==> Fitting(cfg, o))
            && (Fitting(cfg, o) ==> t == s.(grant := Some(o.message.grant), listeners := {}, phase := Open))
            && (!Fitting(cfg, o) ==>
                  var code := if o.Failed? then o.code else SignerError;
                  t.phase == GaveUp(code) && EndsOnce(s, t.(phase := s.phase), code))
  {
    ReachableInv(cfg, s);
    var o := s.promises[s.phase.promise][0];
    FittingIsAcceptable(cfg, o);
    if s.ended.None? {
      EndIsSpelled(s, if o.Failed? then o.code else SignerError);
    }
  }

  lemma FittingIsAcceptable(cfg: Config, o: Outcome)
    ensures Fitting(cfg, o) <==> o.Reply? && o.message.Connected? && Acceptable(cfg, o.message.grant)
  {
    if o.Reply? && o.message.Connected? {
      assert cfg.expectedPubkey in {None, Some(""), Some(o.message.grant.pubkey)} <==>
               (Truthy(cfg.expectedPubkey) ==> o.message.grant.pubkey == cfg.expectedPubkey.value);
    }
  }

  /**
   * A signature is asked for under the grant's id exactly while the channel is open and the grant has not
   * expired; an expired grant ends the channel, and after the end the caller is told why it ended.
   */
  lemma SigningIsDecided(cfg: Config, s: State, l: Label)
    requires Reachable(cfg, s) && Enabled(s, l) && l.Signs?
    ensures s.grant.Some?
    ensures var t, thrown := Next(cfg, s, l), BeginSign(s, l.promise, l.id, l.template, l.now).1;
            if s.ended.Some? then t == s && thrown == s.ended
            else if l.now < s.grant.value.expiresAt
            then thrown == None && Asks(s, t, l.promise, l.id, Sign(l.id, s.grant.value.grantId, l.template))
            else thrown == Some(GrantExpired) && EndsWith(s, t, GrantExpired) && t.phase == s.phase
  {
    ReachableInv(cfg, s);
    if s.ended.None? {
      EndIsSpelled(s, GrantExpired);
    }
  }

  /** Disconnecting tells the key origin which grant to drop, once, and then ends the channel. */
  lemma DisconnectIsDecided(cfg: Config, s: State)
    requires Reachable(cfg, s) && Enabled(s, Disconnects)
    ensures s.grant.Some?
    ensures EndsOnce(if s.ended.Some? then s else s.(posted := s.posted + [Disconnect(s.grant.value.grantId)]),
                     Next(cfg, s, Disconnects), ErrorCode.Revoked)
  {
    ReachableInv(cfg, s);
    if s.ended.None? {
      EndIsSpelled(s.(posted := s.posted + [Disconnect(s.grant.value.grantId)]), ErrorCode.Revoked);
    }
  }

  /** A timer fails its own request and no other; a popup that has gone, or never said it was ready, ends the channel. */
  lemma FailuresAreDecided(cfg: Config, s: State, n: nat)
    requires Reachable(cfg, s)
    ensures Enabled(s, TimerRuns(n)) ==> n in s.asked && Settles(s, Next(cfg, s, TimerRuns(n)), s.asked[n], Failed(Timeout))
    ensures EndsOnce(s, Next(cfg, s, PopupGone), ChannelClosed)
    ensures Enabled(s, NeverReady) ==>
              EndsOnce(s, Next(cfg, s, NeverReady).(phase := s.phase), NotAvailable) && Next(cfg, s, NeverReady).phase == GaveUp(NotAvailable)
  {
    ReachableInv(cfg, s);
    if s.ended.None? {
      EndIsSpelled(s, ChannelClosed);
      EndIsSpelled(s, NotAvailable);
    }
    if Enabled(s, TimerRuns(n)) {
      var id :| id in s.pending && s.pending[id] == n;
      SettledIsSpelled(s, id, Failed(Timeout));
    }
  }

  // ------------------------------------------------------------------------- progress

  lemma RunOfTwo(cfg: Config, s: State, a: Label, b: Label)
    requires Enabled(s, a) && Enabled(Next(cfg, s, a), b)
    ensures Runs(cfg, s, [a, b]) && After(cfg, s, [a, b]) == Next(cfg, Next(cfg, s, a), b)
  {
    var t := Next(cfg, s, a);
    assert [a, b][1..] == [b] && [b][1..] == [];
    assert Runs(cfg, Next(cfg, t, b), []);
    assert Runs(cfg, t, [b]);
    assert After(cfg, t, [b]) == After(cfg, Next(cfg, t, b), []);
  }

  lemma {:induction false} RunThenRun(cfg: Config, s: State, a: seq<Label>, b: seq<Label>)
    requires Runs(cfg, s, a) && Runs(cfg, After(cfg, s, a), b)
    ensures Runs(cfg, s, a + b) && After(cfg, s, a + b) == After(cfg, After(cfg, s, a), b)
    decreases |a|
  {
    if a == [] {
      assert a + b == b;
    } else {
      assert (a + b)[1..] == a[1..] + b;
      RunThenRun(cfg, Next(cfg, s, a[0]), a[1..], b);
    }
  }

  function Announced(n: nat, id: string, cfg: Config): State {
    AskToConnect(cfg, Start().(ready := true), n, id)
  }

  lemma PageIsAsked(cfg: Config, n: nat, id: string)
    ensures var steps := [Hears(cfg.popup, cfg.keyOrigin, Ready), AsksToConnect(n, id)];
            Runs(cfg, Start(), steps) && After(cfg, Start(), steps) == Announced(n, id, cfg)
  {
    RunOfTwo(cfg, Start(), Hears(cfg.popup, cfg.keyOrigin, Ready), AsksToConnect(n, id));
  }

  lemma PageIsAnswered(cfg: Config, n: nat, id: string, info: GrantInfo)
    requires Fitting(cfg, Reply(Connected(id, info)))
    ensures var steps, s := [Hears(cfg.popup, cfg.keyOrigin, Connected(id, info)), HearsBack], Announced(n, id, cfg);
            Runs(cfg, s, steps) && After(cfg, s, steps).phase.Open? && After(cfg, s, steps).grant == Some(info)
  {
    var s := Announced(n, id, cfg);
    assert s.pending[id] == n && s.promises[n] == [];
    FittingIsAcceptable(cfg, Reply(Connected(id, info)));
    RunOfTwo(cfg, s, Hears(cfg.popup, cfg.keyOrigin, Connected(id, info)), HearsBack);
  }

  /** A page that says it is ready and answers with a fitting grant is connected to. */
  lemma GrantsArrive(cfg: Config, n: nat, id: string, info: GrantInfo)
    requires Fitting(cfg, Reply(Connected(id, info)))
    ensures var steps := [Hears(cfg.popup, cfg.keyOrigin, Ready), AsksToConnect(n, id)]
                         + [Hears(cfg.popup, cfg.keyOrigin, Connected(id, info)), HearsBack];
            && Runs(cfg, Start(), steps)
            && var s := After(cfg, Start(), steps); Reachable(cfg, s) && s.phase.Open? && s.grant == Some(info)
  {
    PageIsAsked(cfg, n, id);
    PageIsAnswered(cfg, n, id, info);
    RunThenRun(cfg, Start(), [Hears(cfg.popup, cfg.keyOrigin, Ready), AsksToConnect(n, id)],
               [Hears(cfg.popup, cfg.keyOrigin, Connected(id, info)), HearsBack]);
  }

  /**
   * A signature asked for and given comes back: whatever happened before, while the channel is open and the
   * grant has not expired, the key origin's event under the request's id settles that request, and the
   * caller gets it exactly when it is by the grant's key, of the template asked for, and validly signed.
   */
  lemma SignaturesComeBack(cfg: Config, s: State, l: Label, event: Event)
    requires Reachable(cfg, s) && Enabled(s, l) && l.Signs? && s.ended.None?
    requires s.grant.Some? && l.now < s.grant.value.expiresAt
    ensures var steps, reply := [l, Hears(cfg.popup, cfg.keyOrigin, Signed(l.id, event))], Reply(Signed(l.id, event));
            && Runs(cfg, s, steps)
            && var t := After(cfg, s, steps);
               && l.promise in t.promises && t.promises[l.promise] == [reply]
               && t.posted == s.posted + [Sign(l.id, s.grant.value.grantId, l.template)]
               && (FinishSign(cfg, s.grant.value, l.template, reply) == Some(event)
                   <==> event.pubkey == s.grant.value.pubkey && event.template == l.template && cfg.verify(event))
  {
    ReachableInv(cfg, s);
    var answer := Hears(cfg.popup, cfg.keyOrigin, Signed(l.id, event));
    SigningIsDecided(cfg, s, l);
    var t := Next(cfg, s, l);
    RequestKeepsInv(s, l.promise, l.id, Sign(l.id, s.grant.value.grantId, l.template));
    AnswersAreDecided(cfg, t, answer.message);
    RunOfTwo(cfg, s, l, answer);
  }
}
