/** Every interleaving at the relying origin: messages, timers, a closed popup, and the page's own calls. */
module ClientRuns {
  import opened Options
  import opened CrossOrigin
  import opened CrossOriginClient

  datatype Label =
    | Hears(source: nat, origin: string, message: Message)
    | TimerRuns(promise: nat)
    | NeverReady
    | EndsUnready
    | AsksToConnect(promise: nat, id: string)
    | HearsBack
    | Signs(promise: nat, id: string, template: Template, now: int)
    | Listens(listener: nat)
    | StopsListening(listener: nat)
    | Disconnects
    | PopupGone

  /** Promise and listener numbers are new; message ids are random, so never one in use. */
  predicate Enabled(s: State, l: Label) {
    match l
    case Hears(_, _, _) => true
    case TimerRuns(n) => n in s.timers && n in s.asked
    case NeverReady => s.phase.AwaitingReady? && !s.ready && s.ended.None?
    case EndsUnready => s.phase.AwaitingReady? && s.ended.Some?
    case AsksToConnect(n, id) => s.phase.AwaitingReady? && s.ready && n !in s.promises && id !in s.pending
    case HearsBack => s.phase.Connecting? && s.phase.promise in s.promises && s.promises[s.phase.promise] != []
    case Signs(n, id, _, _) => s.phase.Open? && n !in s.promises && id !in s.pending
    case Listens(l) => s.phase.Open? && l !in s.heard
    case StopsListening(_) => true
    case Disconnects => s.phase.Open?
    case PopupGone => true
  }

  function Next(cfg: Config, s: State, l: Label): State
    requires Enabled(s, l)
  {
    match l
    case Hears(source, origin, m) => Receive(cfg, s, source, origin, m)
    case TimerRuns(n) => TimeOut(s, n)
    case NeverReady => GiveUp(s, NotAvailable)
    case EndsUnready => GiveUp(s, s.ended.value)
    case AsksToConnect(n, id) => AskToConnect(cfg, s, n, id)
    case HearsBack => FinishConnecting(cfg, s, s.promises[s.phase.promise][0])
    case Signs(n, id, template, now) => BeginSign(s, n, id, template, now).0
    case Listens(l) => OnEnd(s, l)
    case StopsListening(l) => s.(listeners := s.listeners - {l})
    case Disconnects => CloseGrant(s)
    case PopupGone => End(s, ChannelClosed)
  }

  ghost predicate Runs(cfg: Config, s: State, labels: seq<Label>)
    decreases |labels|
  {
    labels == [] || (Enabled(s, labels[0]) && Runs(cfg, Next(cfg, s, labels[0]), labels[1..]))
  }

  ghost function After(cfg: Config, s: State, labels: seq<Label>): State
    requires Runs(cfg, s, labels)
    decreases |labels|
  {
    if labels == [] then s else After(cfg, Next(cfg, s, labels[0]), labels[1..])
  }

  /** What the page was given is never more than it asked for. */
  ghost predicate GrantInv(cfg: Config, s: State) {
    && (s.grant.Some? ==> s.phase.Open? && Acceptable(cfg, s.grant.value))
    && (s.phase.Open? ==> s.grant.Some?)
  }

  lemma PhaseIsApart(s: State, phase: Phase)
    requires Inv(s)
    ensures Inv(s.(phase := phase))
  {
  }

  lemma GiveUpKeepsInv(s: State, code: ErrorCode)
    requires Inv(s)
    ensures Inv(GiveUp(s, code))
  {
    EndKeepsInv(s, code);
    PhaseIsApart(End(s, code), GaveUp(code));
  }

  lemma AskToConnectKeepsInv(cfg: Config, s: State, n: nat, id: string)
    requires Inv(s) && n !in s.promises && id !in s.pending
    ensures Inv(AskToConnect(cfg, s, n, id))
  {
    var m := Connect(id, cfg.kinds, cfg.audiences, if Truthy(cfg.expectedPubkey) then cfg.expectedPubkey else None);
    RequestKeepsInv(s, n, id, m);
    PhaseIsApart(Request(s, n, id, m), Connecting(n));
  }

  lemma FinishConnectingKeepsInv(cfg: Config, s: State, o: Outcome)
    requires Inv(s)
    ensures Inv(FinishConnecting(cfg, s, o))
  {
    GiveUpKeepsInv(s, if o.Failed? then o.code else SignerError);
  }

  lemma SignStepKeepsInv(s: State, n: nat, id: string, template: Template, now: int)
    requires Inv(s) && n !in s.promises && id !in s.pending
    ensures Inv(BeginSign(s, n, id, template, now).0)
  {
    EndKeepsInv(s, GrantExpired);
    if s.grant.Some? {
      RequestKeepsInv(s, n, id, Sign(id, s.grant.value.grantId, template));
    }
  }

  lemma CloseGrantKeepsInv(s: State)
    requires Inv(s)
    ensures Inv(CloseGrant(s))
  {
    EndKeepsInv(s, ErrorCode.Revoked);
    if s.grant.Some? && s.ended.None? {
      EndKeepsInv(s.(posted := s.posted + [Disconnect(s.grant.value.grantId)]), ErrorCode.Revoked);
    }
  }

  lemma StepKeepsTable(cfg: Config, s: State, l: Label)
    requires Enabled(s, l) && Inv(s)
    ensures Inv(Next(cfg, s, l))
  {
    match l
    case Hears(source, origin, m) => ReceiveKeepsInv(cfg, s, source, origin, m);
    case TimerRuns(n) => TimeOutKeepsInv(s, n);
    case NeverReady => GiveUpKeepsInv(s, NotAvailable);
    case EndsUnready => GiveUpKeepsInv(s, s.ended.value);
    case AsksToConnect(n, id) => AskToConnectKeepsInv(cfg, s, n, id);
    case HearsBack => FinishConnectingKeepsInv(cfg, s, s.promises[s.phase.promise][0]);
    case Signs(n, id, template, now) => SignStepKeepsInv(s, n, id, template, now);
    case Listens(_) =>
    case StopsListening(_) =>
    case Disconnects => CloseGrantKeepsInv(s);
    case PopupGone => EndKeepsInv(s, ChannelClosed);
  }

  lemma ReceiveKeepsGrant(cfg: Config, s: State, source: nat, origin: string, m: Message)
    ensures Receive(cfg, s, source, origin, m).grant == s.grant && Receive(cfg, s, source, origin, m).phase == s.phase
  {
  }

  lemma StepKeepsGrant(cfg: Config, s: State, l: Label)
    requires Enabled(s, l) && GrantInv(cfg, s)
    ensures GrantInv(cfg, Next(cfg, s, l))
  {
    if l.Hears? {
      ReceiveKeepsGrant(cfg, s, l.source, l.origin, l.message);
    }
  }

  lemma StepKeepsInv(cfg: Config, s: State, l: Label)
    requires Enabled(s, l) && Inv(s) && GrantInv(cfg, s)
    ensures Inv(Next(cfg, s, l)) && GrantInv(cfg, Next(cfg, s, l))
  {
    StepKeepsTable(cfg, s, l);
    StepKeepsGrant(cfg, s, l);
  }

  lemma {:induction false} RunKeepsInv(cfg: Config, s: State, labels: seq<Label>)
    requires Runs(cfg, s, labels) && Inv(s) && GrantInv(cfg, s)
    ensures Inv(After(cfg, s, labels)) && GrantInv(cfg, After(cfg, s, labels))
    decreases |labels|
  {
    if labels != [] {
      StepKeepsInv(cfg, s, labels[0]);
      RunKeepsInv(cfg, Next(cfg, s, labels[0]), labels[1..]);
    }
  }

  // ----------------------------------------------------------------------- theorems

  /**
   * At every moment of every run, a request that has its timer running is unsettled and in the
   * table, and every other one was settled exactly once, a reply only ever for the id it was asked under.
   */
  lemma SettledExactlyOnce(cfg: Config, labels: seq<Label>, n: nat)
    requires Runs(cfg, Start(), labels) && n in After(cfg, Start(), labels).promises
    ensures var s := After(cfg, Start(), labels);
            && (n in Waiting(s.pending) <==> n in s.timers)
            && (n in Waiting(s.pending) <==> s.promises[n] == [])
            && (n !in Waiting(s.pending) <==> |s.promises[n]| == 1)
            && n in s.asked
            && (s.promises[n] != [] && s.promises[n][0].Reply? ==> ReplyId(s.promises[n][0].message) == Some(s.asked[n]))
  {
    assert Waiting(Start().pending) == {};
    RunKeepsInv(cfg, Start(), labels);
  }

  /** What was delivered to a promise can only be added to. */
  ghost predicate Grows(before: map<nat, seq<Outcome>>, after: map<nat, seq<Outcome>>) {
    forall n <- before :: n in after && before[n] <= after[n]
  }

  /** No promise was given a reply. */
  ghost predicate Quiet(before: map<nat, seq<Outcome>>, after: map<nat, seq<Outcome>>) {
    forall n <- after, m | after[n] == [Reply(m)] :: n in before && before[n] == after[n]
  }

  lemma EndGrows(s: State, code: ErrorCode)
    requires Inv(s)
    ensures Grows(s.promises, End(s, code).promises) && Quiet(s.promises, End(s, code).promises)
  {
  }

  lemma WaitingIsUnsettled(s: State, id: string)
    requires Inv(s) && id in s.pending
    ensures var n := s.pending[id]; n in s.promises && n in s.timers && s.promises[n] == [] && s.asked[n] == id
  {
  }

  lemma SettledGrows(s: State, id: string, o: Outcome)
    requires Inv(s) && id in s.pending
    ensures Grows(s.promises, Settled(s, id, o).promises) && (o.Failed? ==> Quiet(s.promises, Settled(s, id, o).promises))
    ensures Settled(s, id, o).promises == s.promises[s.pending[id] := [o]]
  {
    WaitingIsUnsettled(s, id);
    assert [] + [o] == [o];
  }

  lemma AnswerGrows(s: State, id: string, m: Message)
    requires Inv(s) && id in s.pending && ReplyId(m) == Some(id)
    ensures Grows(s.promises, Answer(s, id, m).promises)
    ensures if m.Error? then Quiet(s.promises, Answer(s, id, m).promises) else Answer(s, id, m) == Settled(s, id, Reply(m))
  {
    var o := if m.Error? then Failed(m.code) else Reply(m);
    SettledGrows(s, id, o);
    SettledKeepsInv(s, id, o);
    if m.Error? {
      EndGrows(Settled(s, id, o), m.code);
    }
  }

  /** A delivered message is a reply to one request, or no request gets a reply. */
  lemma ReceiveGrows(cfg: Config, s: State, source: nat, origin: string, m: Message)
    requires Inv(s)
    ensures var t := Receive(cfg, s, source, origin, m);
            && Grows(s.promises, t.promises)
            && (Quiet(s.promises, t.promises) || (&& source == cfg.popup && origin == cfg.keyOrigin
                                && ReplyId(m).Some? && ReplyId(m).value in s.pending
                                && t == Settled(s, ReplyId(m).value, Reply(m))))
  {
    EndGrows(s, ErrorCode.Revoked);
    var id := ReplyId(m);
    if s.ended.None? && id.Some? && id.value in s.pending {
      AnswerGrows(s, id.value, m);
    }
  }

  lemma RequestGrows(s: State, n: nat, id: string, m: Message)
    requires n !in s.promises
    ensures Grows(s.promises, Request(s, n, id, m).promises) && Quiet(s.promises, Request(s, n, id, m).promises)
  {
  }

  lemma TimeOutGrows(s: State, n: nat)
    requires Inv(s) && n in s.timers && n in s.asked
    ensures Grows(s.promises, TimeOut(s, n).promises) && Quiet(s.promises, TimeOut(s, n).promises)
  {
    var id :| id in s.pending && s.pending[id] == n;
    SettledGrows(s, id, Failed(Timeout));
  }

  lemma AskToConnectGrows(cfg: Config, s: State, n: nat, id: string)
    requires n !in s.promises
    ensures Grows(s.promises, AskToConnect(cfg, s, n, id).promises) && Quiet(s.promises, AskToConnect(cfg, s, n, id).promises)
  {
    RequestGrows(s, n, id, Connect(id, cfg.kinds, cfg.audiences, if Truthy(cfg.expectedPubkey) then cfg.expectedPubkey else None));
  }

  lemma FinishConnectingGrows(cfg: Config, s: State, o: Outcome)
    requires Inv(s)
    ensures Grows(s.promises, FinishConnecting(cfg, s, o).promises) && Quiet(s.promises, FinishConnecting(cfg, s, o).promises)
  {
    EndGrows(s, if o.Failed? then o.code else SignerError);
  }

  lemma BeginSignGrows(s: State, n: nat, id: string, template: Template, now: int)
    requires Inv(s) && n !in s.promises
    ensures var t := BeginSign(s, n, id, template, now).0; Grows(s.promises, t.promises) && Quiet(s.promises, t.promises)
  {
    if s.grant.Some? && s.ended.None? {
      if now >= s.grant.value.expiresAt {
        EndGrows(s, GrantExpired);
      } else {
        RequestGrows(s, n, id, Sign(id, s.grant.value.grantId, template));
      }
    }
  }

  lemma CloseGrantGrows(s: State)
    requires Inv(s)
    ensures Grows(s.promises, CloseGrant(s).promises) && Quiet(s.promises, CloseGrant(s).promises)
  {
    EndGrows(s, ErrorCode.Revoked);
    assert CloseGrant(s).promises == End(s, ErrorCode.Revoked).promises;
  }

  lemma StepGrows(cfg: Config, s: State, l: Label)
    requires Enabled(s, l) && Inv(s)
    ensures Grows(s.promises, Next(cfg, s, l).promises) && (!l.Hears? ==> Quiet(s.promises, Next(cfg, s, l).promises))
  {
    match l
    case Hears(source, origin, m) => ReceiveGrows(cfg, s, source, origin, m);
    case TimerRuns(n) => TimeOutGrows(s, n);
    case NeverReady => EndGrows(s, NotAvailable);
    case EndsUnready => EndGrows(s, s.ended.value);
    case AsksToConnect(n, id) => AskToConnectGrows(cfg, s, n, id);
    case HearsBack => FinishConnectingGrows(cfg, s, s.promises[s.phase.promise][0]);
    case Signs(n, id, template, now) => BeginSignGrows(s, n, id, template, now);
    case Listens(_) =>
    case StopsListening(_) =>
    case Disconnects => CloseGrantGrows(s);
    case PopupGone => EndGrows(s, ChannelClosed);
  }

  /** `t` adds nothing to the ended state `s` but requests that failed at once and listeners told at once. */
  ghost predicate Keeps(s: State, t: State) {
    && t.ended == s.ended && s.ended.Some? && t.posted == s.posted && t.pending == map[] && t.timers == {}
    && (forall n <- s.promises :: n in t.promises && t.promises[n] == s.promises[n])
    && (forall n <- t.promises | n !in s.promises :: t.promises[n] == [Failed(s.ended.value)])
    && (forall l <- s.heard :: l in t.heard && t.heard[l] == s.heard[l])
  }

  lemma StepKeeps(cfg: Config, s: State, l: Label)
    requires Enabled(s, l) && Inv(s) && s.ended.Some?
    ensures Keeps(s, Next(cfg, s, l))
  {
    assert Waiting(s.pending) == {};
    match l
    case AsksToConnect(_, _) =>
    case Signs(_, _, _, _) =>
    case _ => assert Next(cfg, s, l).promises == s.promises;
  }

  /**
   * The end of a grant is final: its reason stands, nothing more is posted to the signer page, the
   * pending table and the timers stay empty, settled requests stay as they were, every request made
   * later fails at once with the same reason, and no listener hears the end twice.
   */
  lemma {:induction false} EndIsFinal(cfg: Config, s: State, labels: seq<Label>)
    requires Runs(cfg, s, labels) && Inv(s) && GrantInv(cfg, s) && s.ended.Some?
    ensures Keeps(s, After(cfg, s, labels))
    decreases |labels|
  {
    if labels != [] {
      var t := Next(cfg, s, labels[0]);
      StepKeeps(cfg, s, labels[0]);
      StepKeepsInv(cfg, s, labels[0]);
      EndIsFinal(cfg, t, labels[1..]);
      assert Keeps(t, After(cfg, t, labels[1..]));
    } else {
      assert Waiting(s.pending) == {};
    }
  }

  /** When the channel ends, whoever waits or listens is told this reason, once. */
  lemma EndTellsEveryone(s: State, code: ErrorCode)
    requires Inv(s) && s.ended.None?
    ensures forall n <- Waiting(s.pending) :: n in s.promises && End(s, code).promises[n] == [Failed(code)]
    ensures forall l <- s.listeners :: l in s.heard && End(s, code).heard[l] == [code]
  {
    forall n <- Waiting(s.pending) ensures n in s.promises && s.promises[n] == [] {
      assert n in s.timers;
    }
  }

  lemma HeardReply(cfg: Config, s: State, source: nat, origin: string, heard: Message, n: nat, m: Message)
    requires Inv(s)
    requires n in Receive(cfg, s, source, origin, heard).promises && Receive(cfg, s, source, origin, heard).promises[n] == [Reply(m)]
    requires n in s.promises ==> s.promises[n] == []
    ensures source == cfg.popup && origin == cfg.keyOrigin && heard == m && n in s.asked && ReplyId(m) == Some(s.asked[n])
  {
    ReceiveGrows(cfg, s, source, origin, heard);
    var id := ReplyId(heard);
    if id.Some? && id.value in s.pending {
      SettledGrows(s, id.value, Reply(heard));
      WaitingIsUnsettled(s, id.value);
    }
  }

  /** A promise gets a reply only from the opened window while it shows the key origin, and only by the message delivered then. */
  lemma RepliesComeFromTheKeyOrigin(cfg: Config, s: State, l: Label, n: nat, m: Message)
    requires Enabled(s, l) && Inv(s)
    requires n in Next(cfg, s, l).promises && Next(cfg, s, l).promises[n] == [Reply(m)]
    requires n in s.promises ==> s.promises[n] == []
    ensures l == Hears(cfg.popup, cfg.keyOrigin, m) && n in s.asked && ReplyId(m) == Some(s.asked[n])
  {
    if l.Hears? {
      HeardReply(cfg, s, l.source, l.origin, l.message, n, m);
    } else {
      StepGrows(cfg, s, l);
    }
  }
}
