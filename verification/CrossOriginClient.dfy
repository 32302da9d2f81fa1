/**
 * The relying origin's end of cross-origin signing: the table of requests waiting for an answer,
 * their timers, and the end of the grant. A promise is a number; the history records what was
 * delivered to it, so that "settled exactly once" is a claim about that record.
 */
module CrossOriginClient {
  import opened Options
  import opened CrossOrigin

  datatype Config = Config(
    keyOrigin: string, popup: nat, kinds: seq<int>, audiences: seq<string>, expectedPubkey: Option<string>,
    verify: Event -> bool)

  /** What a promise was settled with. */
  datatype Outcome = Reply(message: Message) | Failed(code: ErrorCode)

  /** Where `connectCrossOrigin` is. */
  datatype Phase = AwaitingReady | Connecting(promise: nat) | Open | GaveUp(code: ErrorCode)

  /** `pending`, `timers`, `listeners`, `ended`, `ready`, `grant` and `phase` are the closure's state; the rest is history. */
  datatype State = State(
    pending: map<string, nat>,
    timers: set<nat>,
    listeners: set<nat>,
    ended: Option<ErrorCode>,
    ready: bool,
    grant: Option<GrantInfo>,
    phase: Phase,
    promises: map<nat, seq<Outcome>>,
    asked: map<nat, string>,
    heard: map<nat, seq<ErrorCode>>,
    posted: seq<Message>)

  function Start(): State {
    State(map[], {}, {}, None, false, None, AwaitingReady, map[], map[], map[], [])
  }

  // ------------------------------------------------------------------------ the pieces

  function Settle(promises: map<nat, seq<Outcome>>, n: nat, o: Outcome): map<nat, seq<Outcome>> {
    if n in promises then promises[n := promises[n] + [o]] else promises
  }

  function SettleAll(promises: map<nat, seq<Outcome>>, ns: set<nat>, o: Outcome): map<nat, seq<Outcome>> {
    map n | n in promises :: if n in ns then promises[n] + [o] else promises[n]
  }

  function TellAll(heard: map<nat, seq<ErrorCode>>, ls: set<nat>, code: ErrorCode): map<nat, seq<ErrorCode>> {
    map l | l in heard :: if l in ls then heard[l] + [code] else heard[l]
  }

  /** The promises with an entry in the pending table. */
  function Waiting(pending: map<string, nat>): set<nat> {
    set id | id in pending :: pending[id]
  }

  /** `end`: the first reason counts; every waiting request fails with it, and every listener hears it. */
  function End(s: State, code: ErrorCode): State {
    if s.ended.Some? then s
    else s.(ended := Some(code), pending := map[], timers := s.timers - Waiting(s.pending),
            promises := SettleAll(s.promises, Waiting(s.pending), Failed(code)),
            heard := TellAll(s.heard, s.listeners, code), listeners := {})
  }

  /** `request`: the new promise `n` waits under `id`, or fails at once when the channel has ended. */
  function Request(s: State, n: nat, id: string, m: Message): State {
    var made := s.(asked := s.asked[n := id]);
    if s.ended.Some? then made.(promises := s.promises[n := [Failed(s.ended.value)]])
    else made.(promises := s.promises[n := []], timers := s.timers + {n},
               pending := s.pending[id := n], posted := s.posted + [m])
  }

  /** The timer of promise `n` fires. */
  function TimeOut(s: State, n: nat): State
    requires n in s.asked
  {
    s.(pending := s.pending - {s.asked[n]}, timers := s.timers - {n}, promises := Settle(s.promises, n, Failed(Timeout)))
  }

  /** The id a reply names, when it names one. */
  function ReplyId(m: Message): Option<string> {
    match m
    case Connected(id, _) => Some(id)
    case Signed(id, _) => Some(id)
    case Error(id, _) => if Truthy(id) then id else None
    case _ => None
  }

  /** The request waiting under `id` is settled and leaves the table. */
  function Settled(s: State, id: string, o: Outcome): State
    requires id in s.pending
  {
    var n := s.pending[id];
    s.(pending := s.pending - {id}, timers := s.timers - {n}, promises := Settle(s.promises, n, o))
  }

  function Answer(s: State, id: string, m: Message): State
    requires id in s.pending
  {
    if !m.Error? then Settled(s, id, Reply(m))
    else if m.code == ErrorCode.Revoked || m.code == GrantExpired then End(Settled(s, id, Failed(m.code)), m.code)
    else Settled(s, id, Failed(m.code))
  }

  /** The message listener; `end` takes it off the window. */
  function Receive(cfg: Config, s: State, source: nat, origin: string, m: Message): State {
    if s.ended.Some? || source != cfg.popup || origin != cfg.keyOrigin then s
    else match m
      case Ready => if !s.ready then s.(ready := true) else if s.grant.Some? then End(s, ErrorCode.Revoked) else s
      case RevokedGrant(g) => if s.grant.Some? && g == s.grant.value.grantId then End(s, ErrorCode.Revoked) else s
      case _ => if ReplyId(m).Some? && ReplyId(m).value in s.pending then Answer(s, ReplyId(m).value, m) else s
  }

  // ------------------------------------------------------------------------ connecting

  /** The signer page announced itself, so the connect request goes out. */
  function AskToConnect(cfg: Config, s: State, n: nat, id: string): State {
    var m := Connect(id, cfg.kinds, cfg.audiences, if Truthy(cfg.expectedPubkey) then cfg.expectedPubkey else None);
    Request(s, n, id, m).(phase := Connecting(n))
  }

  function GiveUp(s: State, code: ErrorCode): State {
    End(s, code).(phase := GaveUp(code))
  }

  /** A grant may not be wider than what was asked for, nor for another identity. */
  predicate Acceptable(cfg: Config, info: GrantInfo) {
    && (forall k <- info.kinds :: k in cfg.kinds)
    && (forall a <- info.audiences :: a in cfg.audiences)
    && (Truthy(cfg.expectedPubkey) ==> info.pubkey == cfg.expectedPubkey.value)
  }

  function FinishConnecting(cfg: Config, s: State, o: Outcome): State {
    if o.Failed? then GiveUp(s, o.code)
    else if !o.message.Connected? || !Acceptable(cfg, o.message.grant) then GiveUp(s, SignerError)
    else s.(grant := Some(o.message.grant), listeners := {}, phase := Open)
  }

  // --------------------------------------------------------------------------- signing

  /** `signEvent` up to its await: the request was made, or the call threw. */
  function BeginSign(s: State, n: nat, id: string, template: Template, now: int): (State, Option<ErrorCode>) {
    if s.grant.None? || s.ended.Some? then (s, Some(if s.ended.Some? then s.ended.value else ErrorCode.Revoked))
    else if now >= s.grant.value.expiresAt then (End(s, GrantExpired), Some(GrantExpired))
    else (Request(s, n, id, Sign(id, s.grant.value.grantId, template)), None)
  }

  /** What `signEvent` returns: nothing from the other window is trusted. */
  function FinishSign(cfg: Config, info: GrantInfo, template: Template, o: Outcome): (r: Option<Event>)
    ensures r.Some? <==> o.Reply? && o.message.Signed? && o.message.event.pubkey == info.pubkey
                         && o.message.event.template == template && cfg.verify(o.message.event)
    ensures r.Some? ==> r.value == o.message.event
  {
    if o.Failed? || !o.message.Signed? then None
    else
      var e := o.message.event;
      if e.pubkey != info.pubkey || e.template != template || !cfg.verify(e) then None else Some(e)
  }

  function OnEnd(s: State, l: nat): State {
    if s.ended.Some? then s.(heard := s.heard[l := [s.ended.value]])
    else s.(listeners := s.listeners + {l}, heard := s.heard[l := []])
  }

  function CloseGrant(s: State): State {
    End(if s.grant.Some? && s.ended.None? then s.(posted := s.posted + [Disconnect(s.grant.value.grantId)]) else s,
        ErrorCode.Revoked)
  }

  // ------------------------------------------------------------------------- invariant

  /**
   * A request is waiting exactly when its timer runs and its promise is unsettled, and every other
   * promise was settled exactly once; a reply settles only the request whose id it names.
   */
  ghost predicate Inv(s: State) {
    && s.asked.Keys == s.promises.Keys
    && s.timers == Waiting(s.pending)
    && Filed(s.pending, s.asked)
    && (forall n <- s.promises :: |s.promises[n]| == if n in s.timers then 0 else 1)
    && (forall n <- s.promises | s.promises[n] != [] && s.promises[n][0].Reply? ::
          ReplyId(s.promises[n][0].message) == Some(s.asked[n]))
    && s.listeners <= s.heard.Keys
    && (forall l <- s.listeners :: s.heard[l] == [])
    && (forall l <- s.heard :: s.heard[l] == [] || (s.ended.Some? && s.heard[l] == [s.ended.value]))
    && (s.ended.Some? ==> s.pending == map[] && s.listeners == {})
  }

  /** Each waiting promise has one id: the one it was asked under. */
  ghost predicate Filed(pending: map<string, nat>, asked: map<nat, string>) {
    forall id <- pending :: pending[id] in asked && asked[pending[id]] == id
  }

  lemma WaitingWithout(pending: map<string, nat>, asked: map<nat, string>, id: string)
    requires Filed(pending, asked) && id in pending
    ensures Waiting(pending - {id}) == Waiting(pending) - {pending[id]}
  {
    var without := pending - {id};
    forall n ensures n in Waiting(without) <==> n in Waiting(pending) - {pending[id]} {
      if n in Waiting(pending) && n != pending[id] {
        var other :| other in pending && pending[other] == n;
        assert other in without;
      }
      if n in Waiting(without) {
        var other :| other in without && without[other] == n;
        assert asked[n] == other;
      }
    }
  }

  lemma EndKeepsInv(s: State, code: ErrorCode)
    requires Inv(s)
    ensures Inv(End(s, code)) && End(s, code).ended.Some?
  {
    if s.ended.None? {
      var t := End(s, code);
      assert t.timers == {} == Waiting(t.pending);
      forall n <- t.promises ensures |t.promises[n]| == 1 {
        assert n in s.promises;
      }
    }
  }

  lemma RequestKeepsInv(s: State, n: nat, id: string, m: Message)
    requires Inv(s) && n !in s.promises && id !in s.pending
    ensures Inv(Request(s, n, id, m))
  {
    var t := Request(s, n, id, m);
    if s.ended.None? {
      assert Waiting(t.pending) == Waiting(s.pending) + {n} by {
        assert t.pending[id] == n;
        assert forall other <- s.pending :: t.pending[other] == s.pending[other];
      }
      assert forall other <- s.timers :: other in s.promises;
    }
  }

  lemma SettledKeepsInv(s: State, id: string, o: Outcome)
    requires Inv(s) && id in s.pending && (o.Reply? ==> ReplyId(o.message) == Some(id))
    ensures Inv(Settled(s, id, o))
  {
    WaitingWithout(s.pending, s.asked, id);
    assert s.pending[id] in s.timers;
  }

  lemma TimeOutKeepsInv(s: State, n: nat)
    requires Inv(s) && n in s.timers
    ensures n in s.asked && Inv(TimeOut(s, n))
  {
    var id :| id in s.pending && s.pending[id] == n;
    SettledKeepsInv(s, id, Failed(Timeout));
  }

  lemma AnswerKeepsInv(s: State, id: string, m: Message)
    requires Inv(s) && id in s.pending && ReplyId(m) == Some(id)
    ensures Inv(Answer(s, id, m))
  {
    SettledKeepsInv(s, id, if m.Error? then Failed(m.code) else Reply(m));
    if m.Error? {
      EndKeepsInv(Settled(s, id, Failed(m.code)), m.code);
    }
  }

  lemma ReceiveKeepsInv(cfg: Config, s: State, source: nat, origin: string, m: Message)
    requires Inv(s)
    ensures Inv(Receive(cfg, s, source, origin, m))
  {
    EndKeepsInv(s, ErrorCode.Revoked);
    if s.ended.None? && ReplyId(m).Some? && ReplyId(m).value in s.pending {
      AnswerKeepsInv(s, ReplyId(m).value, m);
    }
  }

  // ------------------------------------------------------------------------ the object

  class Connection {
    const cfg: Config
    var pending: map<string, nat>
    var timers: set<nat>
    var listeners: set<nat>
    var ended: Option<ErrorCode>
    var ready: bool
    var grant: Option<GrantInfo>
    var phase: Phase
    ghost var promises: map<nat, seq<Outcome>>
    ghost var asked: map<nat, string>
    ghost var heard: map<nat, seq<ErrorCode>>
    ghost var posted: seq<Message>

    ghost function View(): State
      reads this
    {
      State(pending, timers, listeners, ended, ready, grant, phase, promises, asked, heard, posted)
    }

    constructor (cfg: Config)
      ensures this.cfg == cfg && View() == Start() && Inv(View())
    {
      this.cfg := cfg;
      pending, timers, listeners, ended, ready, grant, phase := map[], {}, {}, None, false, None, AwaitingReady;
      promises, asked, heard, posted := map[], map[], map[], [];
    }

    /** Fail every waiting request, one entry after the other. */
    method FailPending(code: ErrorCode)
      requires Filed(pending, asked) && timers == Waiting(pending)
      modifies this`pending, this`timers, this`promises
      ensures pending == map[] && timers == {} && promises == SettleAll(old(promises), old(timers), Failed(code))
    {
      ghost var start := promises;
      assert promises == SettleAll(start, old(timers) - timers, Failed(code));
      while pending != map[]
        invariant Filed(pending, asked) && timers == Waiting(pending) && timers <= old(timers)
        invariant promises == SettleAll(start, old(timers) - timers, Failed(code))
        decreases |pending|
      {
        var id :| id in pending;
        var n := pending[id];
        assert n in timers;
        WaitingWithout(pending, asked, id);
        ghost var gone := old(timers) - timers;
        SettleOneMore(start, gone, n, Failed(code));
        timers := timers - {n};
        assert gone + {n} == old(timers) - timers;
        promises := Settle(promises, n, Failed(code));
        pending := pending - {id};
      }
      assert old(timers) - timers == old(timers);
    }

    /** One turn of the loop; `todo` are the listeners still to tell. */
    method Tell(l: nat, code: ErrorCode, ghost start: State, ghost todo: set<nat>)
      requires l in todo && todo <= start.listeners
      requires View() == start.(heard := TellAll(start.heard, start.listeners - todo, code))
      modifies this`heard
      ensures View() == start.(heard := TellAll(start.heard, start.listeners - (todo - {l}), code))
    {
      assert start.listeners - (todo - {l}) == start.listeners - todo + {l};
      if l in heard {
        heard := heard[l := heard[l] + [code]];
      }
    }

    method TellListeners(code: ErrorCode)
      modifies this`listeners, this`heard
      ensures View() == old(View()).(listeners := {}, heard := TellAll(old(heard), old(listeners), code))
    {
      ghost var start := View();
      var todo := listeners;
      while todo != {}
        invariant todo <= start.listeners
        invariant View() == start.(heard := TellAll(start.heard, start.listeners - todo, code))
        decreases todo
      {
        var l :| l in todo;
        Tell(l, code, start, todo);
        todo := todo - {l};
      }
      assert start.listeners - todo == start.listeners;
      listeners := {};
    }

    method EndChannel(code: ErrorCode)
      requires Inv(View())
      modifies this
      ensures View() == End(old(View()), code)
    {
      if ended.Some? {
        return;
      }
      FailPending(code);
      ended := Some(code);
      TellListeners(code);
    }

    /** `n` names the new promise. */
    method MakeRequest(n: nat, id: string, m: Message)
      modifies this`pending, this`timers, this`promises, this`asked, this`posted
      ensures View() == Request(old(View()), n, id, m)
    {
      asked := asked[n := id];
      if ended.Some? {
        promises := promises[n := [Failed(ended.value)]];
        return;
      }
      promises := promises[n := []];
      timers := timers + {n};
      pending := pending[id := n];
      posted := posted + [m];
    }

    method TimerFires(n: nat, id: string)
      requires n in asked && asked[n] == id
      modifies this`pending, this`timers, this`promises
      ensures View() == TimeOut(old(View()), n)
    {
      timers := timers - {n};
      pending := pending - {id};
      promises := Settle(promises, n, Failed(Timeout));
    }

    method TakeAnswer(id: string, m: Message)
      requires Inv(View()) && id in pending && ended.None? && ReplyId(m) == Some(id)
      modifies this
      ensures View() == Answer(old(View()), id, m)
    {
      var n := pending[id];
      SettledKeepsInv(View(), id, if m.Error? then Failed(m.code) else Reply(m));
      pending := pending - {id};
      timers := timers - {n};
      if !m.Error? {
        promises := Settle(promises, n, Reply(m));
        return;
      }
      promises := Settle(promises, n, Failed(m.code));
      if m.code == ErrorCode.Revoked || m.code == GrantExpired {
        EndChannel(m.code);
      }
    }

    method Listen(source: nat, origin: string, m: Message)
      requires Inv(View())
      modifies this
      ensures View() == Receive(cfg, old(View()), source, origin, m)
    {
      if ended.Some? || source != cfg.popup || origin != cfg.keyOrigin {
        return;
      }
      if m.Ready? {
        if !ready {
          ready := true;
        } else if grant.Some? {
          EndChannel(ErrorCode.Revoked);
        }
        return;
      }
      if m.RevokedGrant? {
        if grant.Some? && m.grantId == grant.value.grantId {
          EndChannel(ErrorCode.Revoked);
        }
        return;
      }
      var id := ReplyId(m);
      if id.Some? && id.value in pending {
        TakeAnswer(id.value, m);
      }
    }

    method ConnectAnswered(o: Outcome)
      requires Inv(View())
      modifies this
      ensures View() == FinishConnecting(cfg, old(View()), o)
    {
      if o.Failed? {
        EndChannel(o.code);
        phase := GaveUp(o.code);
        return;
      }
      if !o.message.Connected? || !Acceptable(cfg, o.message.grant) {
        EndChannel(SignerError);
        phase := GaveUp(SignerError);
        return;
      }
      grant := Some(o.message.grant);
      listeners := {};
      phase := Open;
    }

    method StartSigning(n: nat, id: string, template: Template, now: int) returns (thrown: Option<ErrorCode>)
      requires Inv(View())
      modifies this
      ensures (View(), thrown) == BeginSign(old(View()), n, id, template, now)
    {
      if grant.None? || ended.Some? {
        return Some(if ended.Some? then ended.value else ErrorCode.Revoked);
      }
      if now >= grant.value.expiresAt {
        EndChannel(GrantExpired);
        return Some(GrantExpired);
      }
      MakeRequest(n, id, Sign(id, grant.value.grantId, template));
      thrown := None;
    }

    method OnEndOfGrant(l: nat)
      modifies this`listeners, this`heard
      ensures View() == OnEnd(old(View()), l)
    {
      if ended.Some? {
        heard := heard[l := [ended.value]];
        return;
      }
      listeners := listeners + {l};
      heard := heard[l := []];
    }

    method DisconnectGrant()
      requires Inv(View())
      modifies this
      ensures View() == CloseGrant(old(View()))
    {
      if grant.Some? && ended.None? {
        posted := posted + [Disconnect(grant.value.grantId)];
      }
      EndChannel(ErrorCode.Revoked);
    }
  }

  lemma SettleOneMore(promises: map<nat, seq<Outcome>>, ns: set<nat>, n: nat, o: Outcome)
    requires n !in ns
    ensures SettleAll(promises, ns + {n}, o) == Settle(SettleAll(promises, ns, o), n, o)
  {
  }
}
