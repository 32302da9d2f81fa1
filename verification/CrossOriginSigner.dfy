/**
 * The key-origin end: which grants exist, and what is signed for them. `State` and its
 * functions say what the code between two awaits does; the class carries it out.
 */
module CrossOriginSigner {
  import opened Options
  import opened CrossOrigin

  datatype PolicyEntry = PolicyEntry(kinds: set<int>, audiences: set<string>, maxTtlSeconds: int)

  /** `opener` is the window that opened the page; `asks` says whether `onSign` is set. */
  datatype Config = Config(
    policy: map<string, PolicyEntry>,
    opener: nat,
    skew: int,
    asks: bool,
    originOf: string -> Option<string>,
    normalize: string -> Option<string>)

  datatype Grant = Grant(
    info: GrantInfo,
    origin: string,
    source: nat,
    completionUsed: bool)

  /** A message posted to the opener, with the one origin it may be delivered to. */
  datatype Posted = Posted(origin: string, message: Message)

  datatype State = State(grants: map<string, Grant>, closed: bool, outbox: multiset<Posted>)

  // ------------------------------------------------------------------------- policy

  datatype RawEntry = RawEntry(kinds: set<int>, audiences: seq<string>, maxTtlSeconds: Option<int>)

  function NormalizeAll(normalize: string -> Option<string>, xs: seq<string>): Option<set<string>> {
    if xs == [] then Some({})
    else
      var first, rest := normalize(xs[0]), NormalizeAll(normalize, xs[1..]);
      if first.Some? && rest.Some? then Some({first.value} + rest.value) else None
  }

  predicate ValidEntry(normalize: string -> Option<string>, origin: string, e: RawEntry) {
    && normalize(origin).Some?
    && e.kinds != {}
    && e.audiences != []
    && NormalizeAll(normalize, e.audiences).Some?
    && (e.maxTtlSeconds.Some? ==> 0 < e.maxTtlSeconds.value <= MAX_GRANT_TTL_SECONDS)
  }

  function EntryOf(normalize: string -> Option<string>, e: RawEntry): PolicyEntry {
    var audiences := NormalizeAll(normalize, e.audiences);
    PolicyEntry(e.kinds, if audiences.Some? then audiences.value else {},
                if e.maxTtlSeconds.Some? then e.maxTtlSeconds.value else MAX_GRANT_TTL_SECONDS)
  }

  /** A policy a signer can be mounted with never lets a grant live longer than the cap. */
  ghost predicate SoundPolicy(policy: map<string, PolicyEntry>) {
    forall o <- policy :: policy[o].kinds != {} && 0 < policy[o].maxTtlSeconds <= MAX_GRANT_TTL_SECONDS
  }

  /** `i` is the last of the first `n` entries for origin `o`. */
  predicate LastFor(normalize: string -> Option<string>, entries: seq<(string, RawEntry)>, n: nat, o: string, i: nat)
    requires n <= |entries|
  {
    && i < n && normalize(entries[i].0) == Some(o)
    && forall j | i < j < n :: normalize(entries[j].0) != Some(o)
  }

  /** `result` is the policy the first `n` entries describe: one entry per origin, the last for it. */
  ghost predicate Describes(normalize: string -> Option<string>, entries: seq<(string, RawEntry)>, n: nat, result: map<string, PolicyEntry>)
    requires n <= |entries|
  {
    && (forall i | 0 <= i < n :: ValidEntry(normalize, entries[i].0, entries[i].1) && normalize(entries[i].0).value in result)
    && (forall o <- result :: exists i: nat :: LastFor(normalize, entries, n, o, i) && result[o] == EntryOf(normalize, entries[i].1))
  }

  lemma DescribesOneMore(normalize: string -> Option<string>, entries: seq<(string, RawEntry)>, n: nat, result: map<string, PolicyEntry>)
    requires n < |entries| && Describes(normalize, entries, n, result) && ValidEntry(normalize, entries[n].0, entries[n].1)
    ensures Describes(normalize, entries, n + 1, result[normalize(entries[n].0).value := EntryOf(normalize, entries[n].1)])
  {
    var here := normalize(entries[n].0).value;
    var next := result[here := EntryOf(normalize, entries[n].1)];
    forall o <- next ensures exists i: nat :: LastFor(normalize, entries, n + 1, o, i) && next[o] == EntryOf(normalize, entries[i].1) {
      if o == here {
        assert LastFor(normalize, entries, n + 1, o, n);
      } else {
        var i: nat :| LastFor(normalize, entries, n, o, i) && result[o] == EntryOf(normalize, entries[i].1);
        LastForLonger(normalize, entries, n, o, i);
      }
    }
  }

  lemma LastForLonger(normalize: string -> Option<string>, entries: seq<(string, RawEntry)>, n: nat, o: string, i: nat)
    requires n < |entries| && LastFor(normalize, entries, n, o, i) && normalize(entries[n].0) != Some(o)
    ensures LastFor(normalize, entries, n + 1, o, i)
  {
  }

  /** `validatePolicy`: a policy is accepted exactly when it names someone and every entry is valid;
      the last of several entries for one origin counts. */
  method ValidatePolicy(normalize: string -> Option<string>, entries: seq<(string, RawEntry)>)
    returns (policy: Option<map<string, PolicyEntry>>)
    ensures policy.Some? <==> entries != [] && forall i | 0 <= i < |entries| :: ValidEntry(normalize, entries[i].0, entries[i].1)
    ensures policy.Some? ==> Describes(normalize, entries, |entries|, policy.value) && SoundPolicy(policy.value)
  {
    if entries == [] {
      return None;
    }
    var result: map<string, PolicyEntry> := map[];
    for n := 0 to |entries|
      invariant Describes(normalize, entries, n, result) && SoundPolicy(result)
    {
      var (origin, entry) := entries[n];
      if !ValidEntry(normalize, origin, entry) {
        return None;
      }
      DescribesOneMore(normalize, entries, n, result);
      result := result[normalize(origin).value := EntryOf(normalize, entry)];
    }
    policy := Some(result);
  }

  // ------------------------------------------------------------- synchronous pieces

  function Post(s: State, origin: string, message: Message): State {
    s.(outbox := s.outbox + multiset{Posted(origin, message)})
  }

  function FailWith(s: State, origin: string, id: string, code: ErrorCode): State {
    Post(s, origin, Error(Some(id), code))
  }

  /** `dropGrant` without a notice to the relying origin. */
  function Drop(s: State, grantId: string): State {
    s.(grants := s.grants - {grantId})
  }

  /** The notices that go out when the given grants end. */
  function Notices(grants: map<string, Grant>, ids: set<string>): multiset<Posted>
    requires ids <= grants.Keys
  {
    multiset(set g | g in ids :: Posted(grants[g].origin, RevokedGrant(g)))
  }

  /** End the given grants and tell their origins. */
  function DropAll(s: State, ids: set<string>): State
    requires ids <= s.grants.Keys
  {
    s.(grants := s.grants - ids, outbox := s.outbox + Notices(s.grants, ids))
  }

  function RevokeAll(s: State): State {
    DropAll(s, s.grants.Keys)
  }

  predicate Matches(grant: Grant, grantIdOrOrigin: string) {
    grant.info.grantId == grantIdOrOrigin || grant.origin == grantIdOrOrigin
  }

  function Revoke(s: State, grantIdOrOrigin: string): State {
    DropAll(s, set g | g in s.grants && Matches(s.grants[g], grantIdOrOrigin))
  }

  function Close(s: State): State {
    if s.closed then s else RevokeAll(s).(closed := true)
  }

  function DisconnectFrom(s: State, origin: string, grantId: string): State {
    if grantId in s.grants && s.grants[grantId].origin == origin then Drop(s, grantId) else s
  }

  // ------------------------------------------------------------------------ connect

  /** A connect request that passed the policy and waits for the user. */
  datatype ConnectRequest = ConnectRequest(
    origin: string, source: nat, id: string, kinds: set<int>, audiences: set<string>, expectedPubkey: Option<string>)

  /** The checks before the first await: inside the policy, or refused. */
  function StartConnect(cfg: Config, s: State, origin: string, source: nat, m: Message): (State, Option<ConnectRequest>)
    requires m.Connect? && origin in cfg.policy
  {
    var entry, audiences := cfg.policy[origin], NormalizeAll(cfg.normalize, m.audiences);
    var kinds := set k | k in m.kinds;
    if audiences.None? || !(kinds <= entry.kinds) || !(audiences.value <= entry.audiences)
    then (FailWith(s, origin, m.id, Refused), None)
    else (s, Some(ConnectRequest(origin, source, m.id, kinds, audiences.value, m.expectedPubkey)))
  }

  /** What unlocking, the signer and the user answered. */
  datatype Consent = StaysLocked | SignerFails | Answered(pubkey: string, approved: bool)

  predicate CreatesGrant(s: State, r: ConnectRequest, answer: Consent) {
    && answer.Answered? && answer.approved && !s.closed
    && (Truthy(r.expectedPubkey) ==> r.expectedPubkey.value == answer.pubkey)
  }

  function NewGrant(cfg: Config, r: ConnectRequest, pubkey: string, grantId: string, now: int): Grant
    requires r.origin in cfg.policy
  {
    Grant(GrantInfo(grantId, pubkey, r.kinds, r.audiences, now + cfg.policy[r.origin].maxTtlSeconds),
          r.origin, r.source, false)
  }

  function FinishConnect(cfg: Config, s: State, r: ConnectRequest, answer: Consent, grantId: string, now: int): State
    requires r.origin in cfg.policy
  {
    match answer
    case StaysLocked => FailWith(s, r.origin, r.id, Declined)
    case SignerFails => FailWith(s, r.origin, r.id, SignerError)
    case Answered(pubkey, approved) =>
      if s.closed then s
      else if !approved then FailWith(s, r.origin, r.id, Declined)
      else if !CreatesGrant(s, r, answer) then FailWith(s, r.origin, r.id, Refused)
      else
        var grant := NewGrant(cfg, r, pubkey, grantId, now);
        Post(s.(grants := s.grants[grantId := grant]), r.origin, Connected(r.id, grant.info))
  }

  // --------------------------------------------------------------------------- sign

  datatype SignRequest = SignRequest(origin: string, source: nat, id: string, grantId: string, pubkey: string, template: Template)

  /** Where a sign request goes after its checks: nowhere, to the user, or straight to the signer. */
  datatype Route = Stops | Prompts(r: SignRequest) | Signs(r: SignRequest)

  function InsideGrant(cfg: Config, grant: Grant, template: Template, now: int): bool {
    var audience := AudienceOf(cfg.originOf, template);
    && template.kind in grant.info.kinds
    && audience.Some? && audience.value in grant.info.audiences
    && Abs(template.createdAt - now) <= cfg.skew
  }

  /** `handleSign` up to its first await. */
  function StartSign(cfg: Config, s: State, origin: string, source: nat, m: Message, now: int): (State, Route)
    requires m.Sign?
  {
    if m.grantId !in s.grants || s.grants[m.grantId].origin != origin || s.grants[m.grantId].source != source
    then (FailWith(s, origin, m.id, Revoked), Stops)
    else
      var grant := s.grants[m.grantId];
      if now >= grant.info.expiresAt then (FailWith(Drop(s, grant.info.grantId), origin, m.id, GrantExpired), Stops)
      else if !InsideGrant(cfg, grant, m.template, now) then (FailWith(s, origin, m.id, Refused), Stops)
      else
        var needsPrompt := IsCompletion(m.template) && grant.completionUsed;
        var claimed := if IsCompletion(m.template) then s.(grants := s.grants[m.grantId := grant.(completionUsed := true)]) else s;
        var r := SignRequest(origin, source, m.id, grant.info.grantId, grant.info.pubkey, m.template);
        if cfg.asks then (claimed, Prompts(r))
        else if needsPrompt then (FailWith(claimed, origin, m.id, Refused), Stops)
        else (claimed, Signs(r))
  }

  /** After `onSign` answered: sign, or stop. */
  function AfterPrompt(s: State, r: SignRequest, ok: bool): (State, bool) {
    if !ok then (FailWith(s, r.origin, r.id, Declined), false)
    else if r.grantId !in s.grants then (FailWith(s, r.origin, r.id, Revoked), false)
    else (s, true)
  }

  /** The signer's event may be sent: the grant still stands, the key is the grant's, the event is what was asked for. */
  predicate MaySend(s: State, r: SignRequest, result: Option<Event>) {
    && result.Some? && r.grantId in s.grants
    && result.value.pubkey == r.pubkey && result.value.template == r.template
  }

  /** After the signer answered. */
  function AfterSigner(s: State, r: SignRequest, result: Option<Event>): State {
    if result.None? then FailWith(s, r.origin, r.id, SignerError)
    else if r.grantId !in s.grants then FailWith(s, r.origin, r.id, Revoked)
    else if result.value.pubkey != r.pubkey then RevokeAll(FailWith(s, r.origin, r.id, Revoked))
    else if !MaySend(s, r, result) then FailWith(s, r.origin, r.id, SignerError)
    else Post(s, r.origin, Signed(r.id, result.value))
  }

  // ------------------------------------------------------------------------ listener

  /** What an arriving message leads to: nothing more, a wait for consent, or a signing request. */
  datatype Arrival = Settled | Consents(connect: ConnectRequest) | Routed(route: Route)

  /** The listener answers only the opener, while open, from an origin the policy names. */
  predicate Heard(cfg: Config, s: State, origin: string, source: nat) {
    !s.closed && source == cfg.opener && origin in cfg.policy
  }

  function Receive(cfg: Config, s: State, origin: string, source: nat, m: Message, now: int): (State, Arrival) {
    if !Heard(cfg, s, origin, source) then (s, Settled)
    else match m
      case Connect(_, _, _, _) =>
        var (after, r) := StartConnect(cfg, s, origin, source, m);
        (after, if r.Some? then Consents(r.value) else Settled)
      case Sign(_, _, _) =>
        var (after, route) := StartSign(cfg, s, origin, source, m, now);
        (after, Routed(route))
      case Disconnect(grantId) => (DisconnectFrom(s, origin, grantId), Settled)
      case _ => (s, Settled)
  }

  // ---------------------------------------------------------------------- the object

  class Signer {
    const cfg: Config
    var grants: map<string, Grant>
    var closed: bool
    ghost var outbox: multiset<Posted>

    ghost function View(): State
      reads this
    {
      State(grants, closed, outbox)
    }

    constructor (cfg: Config)
      ensures this.cfg == cfg && View() == State(map[], false, multiset{})
    {
      this.cfg := cfg;
      grants, closed, outbox := map[], false, multiset{};
    }

    method Reply(origin: string, message: Message)
      modifies this`outbox
      ensures View() == Post(old(View()), origin, message)
    {
      outbox := outbox + multiset{Posted(origin, message)};
    }

    method DropGrant(grantId: string, origin: string, notify: bool)
      modifies this`grants, this`outbox
      ensures View() == if notify then Post(Drop(old(View()), grantId), origin, RevokedGrant(grantId))
                        else Drop(old(View()), grantId)
    {
      grants := grants - {grantId};
      if notify {
        Reply(origin, RevokedGrant(grantId));
      }
    }

    /** End the given grants one by one, telling each origin. */
    method DropEach(ids: set<string>)
      requires ids <= grants.Keys
      modifies this`grants, this`outbox
      ensures View() == DropAll(old(View()), ids)
    {
      ghost var start := View();
      var todo := ids;
      var matched := grants;
      assert start.grants - (ids - todo) == start.grants;
      while todo != {}
        invariant todo <= ids && matched == start.grants
        invariant View() == DropAll(start, ids - todo)
        decreases todo
      {
        var g :| g in todo;
        DropOneMore(start, ids - todo, g);
        assert ids - (todo - {g}) == ids - todo + {g};
        todo := todo - {g};
        DropGrant(g, matched[g].origin, true);
      }
      assert ids - todo == ids;
    }

    method RevokeAllGrants()
      modifies this`grants, this`outbox
      ensures View() == RevokeAll(old(View()))
    {
      DropEach(grants.Keys);
    }

    method RevokeMatching(grantIdOrOrigin: string)
      modifies this`grants, this`outbox
      ensures View() == Revoke(old(View()), grantIdOrOrigin)
    {
      DropEach(set g | g in grants && Matches(grants[g], grantIdOrOrigin));
    }

    method CloseSigner()
      modifies this
      ensures View() == Close(old(View()))
    {
      if closed {
        return;
      }
      RevokeAllGrants();
      closed := true;
    }

    method HandleDisconnect(origin: string, grantId: string)
      modifies this`grants
      ensures View() == DisconnectFrom(old(View()), origin, grantId)
    {
      if grantId in grants && grants[grantId].origin == origin {
        grants := grants - {grantId};
      }
    }

    method HandleConnect(origin: string, source: nat, m: Message) returns (r: Option<ConnectRequest>)
      requires m.Connect? && origin in cfg.policy
      modifies this`outbox
      ensures (View(), r) == StartConnect(cfg, old(View()), origin, source, m)
    {
      var entry, audiences := cfg.policy[origin], NormalizeAll(cfg.normalize, m.audiences);
      var kinds := set k | k in m.kinds;
      if audiences.None? || !(kinds <= entry.kinds) || !(audiences.value <= entry.audiences) {
        Reply(origin, Error(Some(m.id), Refused));
        return None;
      }
      r := Some(ConnectRequest(origin, source, m.id, kinds, audiences.value, m.expectedPubkey));
    }

    method ConnectAnswered(r: ConnectRequest, answer: Consent, grantId: string, now: int)
      requires r.origin in cfg.policy
      modifies this`grants, this`outbox
      ensures View() == FinishConnect(cfg, old(View()), r, answer, grantId, now)
    {
      if answer.StaysLocked? {
        Reply(r.origin, Error(Some(r.id), Declined));
        return;
      }
      if answer.SignerFails? {
        Reply(r.origin, Error(Some(r.id), SignerError));
        return;
      }
      if closed {
        return;
      }
      if !answer.approved {
        Reply(r.origin, Error(Some(r.id), Declined));
        return;
      }
      if Truthy(r.expectedPubkey) && r.expectedPubkey.value != answer.pubkey {
        Reply(r.origin, Error(Some(r.id), Refused));
        return;
      }
      var grant := NewGrant(cfg, r, answer.pubkey, grantId, now);
      grants := grants[grantId := grant];
      Reply(r.origin, Connected(r.id, grant.info));
    }

    method HandleSign(origin: string, source: nat, m: Message, now: int) returns (route: Route)
      requires m.Sign?
      modifies this`grants, this`outbox
      ensures (View(), route) == StartSign(cfg, old(View()), origin, source, m, now)
    {
      if m.grantId !in grants || grants[m.grantId].origin != origin || grants[m.grantId].source != source {
        Reply(origin, Error(Some(m.id), Revoked));
        return Stops;
      }
      var grant := grants[m.grantId];
      if now >= grant.info.expiresAt {
        DropGrant(grant.info.grantId, grant.origin, false);
        Reply(origin, Error(Some(m.id), GrantExpired));
        return Stops;
      }
      if !InsideGrant(cfg, grant, m.template, now) {
        Reply(origin, Error(Some(m.id), Refused));
        return Stops;
      }
      var isCompletion := IsCompletion(m.template);
      var needsPrompt := isCompletion && grant.completionUsed;
      if isCompletion {
        grants := grants[m.grantId := grant.(completionUsed := true)];
      }
      var r := SignRequest(origin, source, m.id, grant.info.grantId, grant.info.pubkey, m.template);
      if needsPrompt || cfg.asks {
        if !cfg.asks {
          Reply(origin, Error(Some(m.id), Refused));
          return Stops;
        }
        return Prompts(r);
      }
      route := Signs(r);
    }

    /** The message listener. */
    method Listen(origin: string, source: nat, m: Message, now: int) returns (arrival: Arrival)
      modifies this`grants, this`outbox
      ensures (View(), arrival) == Receive(cfg, old(View()), origin, source, m, now)
    {
      if closed || source != cfg.opener || origin !in cfg.policy {
        return Settled;
      }
      match m {
        case Connect(_, _, _, _) =>
          var r := HandleConnect(origin, source, m);
          return if r.Some? then Consents(r.value) else Settled;
        case Sign(_, _, _) =>
          var route := HandleSign(origin, source, m, now);
          return Routed(route);
        case Disconnect(grantId) =>
          HandleDisconnect(origin, grantId);
          return Settled;
        case _ =>
          return Settled;
      }
    }

    method PromptAnswered(r: SignRequest, ok: bool) returns (signs: bool)
      modifies this`outbox
      ensures (View(), signs) == AfterPrompt(old(View()), r, ok)
    {
      if !ok {
        Reply(r.origin, Error(Some(r.id), Declined));
        return false;
      }
      if r.grantId !in grants {
        Reply(r.origin, Error(Some(r.id), Revoked));
        return false;
      }
      signs := true;
    }

    method SignerAnswered(r: SignRequest, result: Option<Event>)
      modifies this`grants, this`outbox
      ensures View() == AfterSigner(old(View()), r, result)
    {
      if result.None? {
        Reply(r.origin, Error(Some(r.id), SignerError));
        return;
      }
      if r.grantId !in grants {
        Reply(r.origin, Error(Some(r.id), Revoked));
        return;
      }
      if result.value.pubkey != r.pubkey {
        Reply(r.origin, Error(Some(r.id), Revoked));
        RevokeAllGrants();
        return;
      }
      if result.value.template != r.template {
        Reply(r.origin, Error(Some(r.id), SignerError));
        return;
      }
      Reply(r.origin, Signed(r.id, result.value));
    }
  }

  lemma DropOneMore(s: State, ids: set<string>, g: string)
    requires ids <= s.grants.Keys && g in s.grants && g !in ids
    ensures DropAll(s, ids + {g}) == Post(Drop(DropAll(s, ids), g), s.grants[g].origin, RevokedGrant(g))
  {
    var one := Posted(s.grants[g].origin, RevokedGrant(g));
    var sent := set h | h in ids :: Posted(s.grants[h].origin, RevokedGrant(h));
    assert (set h | h in ids + {g} :: Posted(s.grants[h].origin, RevokedGrant(h))) == sent + {one};
    assert one !in sent;
    assert multiset(sent + {one}) == multiset(sent) + multiset{one};
    assert s.grants - (ids + {g}) == s.grants - ids - {g};
  }
}
