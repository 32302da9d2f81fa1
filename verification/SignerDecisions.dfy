/**
 * What the key origin does with each message and answer, in every state a run can reach: when it asks
 * the user, when it hands a request to the signer, when it signs, and what it answers otherwise.
 */
module SignerDecisions {
  import opened Options
  import opened Tags
  import opened CrossOrigin
  import opened CrossOriginSigner
  import opened SignerRuns

  // ------------------------------------------------------------------------- asking

  /** A request at or past the signer was approved by the user exactly when the page asks about every signature. */
  predicate AskedAsSet(cfg: Config, call: Call) {
    && (call.Signing? || call.Replied? || call.Unsent? ==> call.approved == cfg.asks)
    && (call.Prompting? ==> cfg.asks)
  }

  lemma StepKeepsAsked(cfg: Config, y: Sys, l: Label)
    requires Enabled(cfg, y, l) && forall c <- y.calls :: AskedAsSet(cfg, y.calls[c])
    ensures forall c <- Next(cfg, y, l).calls :: AskedAsSet(cfg, Next(cfg, y, l).calls[c])
  {
  }

  lemma {:induction false} RunKeepsAsked(cfg: Config, y: Sys, labels: seq<Label>)
    requires Runs(cfg, y, labels) && forall c <- y.calls :: AskedAsSet(cfg, y.calls[c])
    ensures forall c <- After(cfg, y, labels).calls :: AskedAsSet(cfg, After(cfg, y, labels).calls[c])
    decreases |labels|
  {
    if labels != [] {
      StepKeepsAsked(cfg, y, labels[0]);
      RunKeepsAsked(cfg, Next(cfg, y, labels[0]), labels[1..]);
    }
  }

  /**
   * A page that asks about every signature hands nothing to its signer that the user did not approve,
   * and one that does not ask never waits for an answer: in every run, of every request that is at the
   * signer or has been.
   */
  lemma SignedOnlyWhenAsked(cfg: Config, y: Sys, c: nat)
    requires Reachable(cfg, y) && c in y.calls
    ensures y.calls[c].Signing? || y.calls[c].Replied? || y.calls[c].Unsent? ==> (y.calls[c].approved <==> cfg.asks)
    ensures y.calls[c].Prompting? ==> cfg.asks
  {
    var now, labels :| Runs(cfg, Start(now), labels) && After(cfg, Start(now), labels) == y;
    RunKeepsAsked(cfg, Start(now), labels);
    assert AskedAsSet(cfg, y.calls[c]);
  }

  // ------------------------------------------------------------------ a sign request

  /** The template asks for a completion proof. */
  predicate ProvesLogin(t: Template) {
    exists i :: 0 <= i < |t.tags| && IsNamed(t.tags[i], "challenge")
  }

  lemma CompletionIsSpelled(t: Template)
    ensures IsCompletion(t) <==> ProvesLogin(t)
  {
    NoneNamed(t.tags, "challenge");
  }

  /** The template's one `u` tag is a URL at this origin. */
  ghost predicate AddressedTo(cfg: Config, t: Template, audience: string) {
    exists url :: OnlyTag(t.tags, "u", url) && cfg.originOf(url) == Some(audience)
  }

  lemma AudienceIsSpelled(cfg: Config, t: Template, audience: string)
    ensures AudienceOf(cfg.originOf, t) == Some(audience) <==> AddressedTo(cfg, t, audience)
  {
    var us := TagsNamed(t.tags, "u");
    forall url ensures (|us| == 1 && |us[0]| >= 2 && us[0][1] == url) <==> OnlyTag(t.tags, "u", url) {
      OnlyTagIsFiltered(t.tags, "u", url);
    }
  }

  /** The grant allows this template now: its kind, the origin it is addressed to, and its time. */
  ghost predicate Allows(cfg: Config, grant: Grant, t: Template, now: int) {
    && t.kind in grant.info.kinds
    && (exists audience <- grant.info.audiences :: AddressedTo(cfg, t, audience))
    && -cfg.skew <= t.createdAt - now <= cfg.skew
  }

  lemma AllowedIsSpelled(cfg: Config, grant: Grant, t: Template, now: int)
    ensures InsideGrant(cfg, grant, t, now) <==> Allows(cfg, grant, t, now)
  {
    forall audience ensures AudienceOf(cfg.originOf, t) == Some(audience) <==> AddressedTo(cfg, t, audience) {
      AudienceIsSpelled(cfg, t, audience);
    }
  }

  /** A request names a grant that stands, made for this origin and this window. */
  predicate Standing(s: State, l: Label)
    requires l.Arrives? && l.message.Sign?
  {
    var g := l.message.grantId;
    g in s.grants && s.grants[g].origin == l.origin && s.grants[g].source == l.source
  }

  predicate InTime(s: State, l: Label)
    requires l.Arrives? && l.message.Sign?
  {
    Standing(s, l) && l.now < s.grants[l.message.grantId].info.expiresAt
  }

  /** The request is one the grant covers. */
  ghost predicate Covers(cfg: Config, s: State, l: Label)
    requires l.Arrives? && l.message.Sign?
  {
    InTime(s, l) && Allows(cfg, s.grants[l.message.grantId], l.message.template, l.now)
  }

  /** The request asks for a second completion proof under its grant. */
  predicate Repeats(s: State, l: Label)
    requires l.Arrives? && l.message.Sign?
  {
    Standing(s, l) && ProvesLogin(l.message.template) && s.grants[l.message.grantId].completionUsed
  }

  /** The grants once a request has claimed the completion of its grant. */
  function Claimed(s: State, l: Label): map<string, Grant>
    requires l.Arrives? && l.message.Sign?
  {
    var g := l.message.grantId;
    if Standing(s, l) && ProvesLogin(l.message.template) then s.grants[g := s.grants[g].(completionUsed := true)] else s.grants
  }

  /** What a request asks the signer for. */
  predicate AsksFor(s: State, l: Label, r: SignRequest)
    requires l.Arrives? && l.message.Sign?
  {
    var m := l.message;
    && Standing(s, l)
    && r == SignRequest(l.origin, l.source, m.id, m.grantId, s.grants[m.grantId].info.pubkey, m.template)
  }

  predicate Answers(s: State, t: State, origin: string, message: Message) {
    t.outbox == s.outbox + multiset{Posted(origin, message)}
  }

  lemma SignIsDecided(cfg: Config, s: State, l: Label)
    requires l.Arrives? && l.message.Sign?
    requires l.message.grantId in s.grants ==> s.grants[l.message.grantId].info.grantId == l.message.grantId
    ensures var (t, route) := StartSign(cfg, s, l.origin, l.source, l.message, l.now);
            && (route.Prompts? <==> Covers(cfg, s, l) && cfg.asks)
            && (route.Signs? <==> Covers(cfg, s, l) && !cfg.asks && !Repeats(s, l))
            && (!route.Stops? ==> AsksFor(s, l, route.r) && t.outbox == s.outbox && t.grants == Claimed(s, l))
            && (route.Stops? ==> Answers(s, t, l.origin, Error(Some(l.message.id),
                  if !Standing(s, l) then Revoked else if !InTime(s, l) then GrantExpired else Refused)))
            && (route.Stops? ==> t.grants == if Standing(s, l) && !InTime(s, l) then s.grants - {l.message.grantId} else s.grants)
            && t.closed == s.closed
  {
    CompletionIsSpelled(l.message.template);
    if Standing(s, l) {
      AllowedIsSpelled(cfg, s.grants[l.message.grantId], l.message.template, l.now);
      var grant := s.grants[l.message.grantId];
      assert grant.completionUsed ==> grant.(completionUsed := true) == grant;
      assert grant.completionUsed ==> s.grants[l.message.grantId := grant] == s.grants;
    }
  }

  /** What an arriving sign request leads to. */
  ghost predicate SignOutcome(cfg: Config, y: Sys, l: Label, z: Sys)
    requires l.Arrives? && l.message.Sign? && l.call in z.calls
  {
    var call := z.calls[l.call];
    && (call.Prompting? <==> Covers(cfg, y.s, l) && cfg.asks)
    && (call.Signing? <==> Covers(cfg, y.s, l) && !cfg.asks && !Repeats(y.s, l))
    && (call.Prompting? || call.Signing? || call.Over?)
    && (!call.Over? ==> AsksFor(y.s, l, call.r) && z.s.outbox == y.s.outbox && z.s.grants == Claimed(y.s, l))
    && (call.Over? ==> Answers(y.s, z.s, l.origin, Error(Some(l.message.id),
          if !Standing(y.s, l) then Revoked else if !InTime(y.s, l) then GrantExpired else Refused)))
    && (call.Over? ==> z.s.grants == if Standing(y.s, l) && !InTime(y.s, l) then y.s.grants - {l.message.grantId} else y.s.grants)
  }

  /**
   * A sign request from the opener goes to the user exactly when its grant covers it and the page asks
   * about every signature; straight to the signer exactly when the grant covers it, the page does not
   * ask, and it is no completion or the grant's first; every other is refused with its own code.
   */
  lemma SignRequestsAreDecided(cfg: Config, y: Sys, l: Label)
    requires SoundPolicy(cfg.policy) && Reachable(cfg, y) && Enabled(cfg, y, l)
    requires l.Arrives? && l.message.Sign? && Heard(cfg, y.s, l.origin, l.source)
    ensures l.call in Next(cfg, y, l).calls && SignOutcome(cfg, y, l, Next(cfg, y, l))
  {
    ReachableInv(cfg, y);
    if l.message.grantId in y.s.grants {
      assert SameGrant(y.s.grants[l.message.grantId], y.granted[l.message.grantId].grant);
      assert GrantInsidePolicy(cfg, l.message.grantId, y.granted[l.message.grantId], y.now);
    }
    SignIsDecided(cfg, y.s, l);
  }

  /** A message that is not from the opener, or from an origin the policy does not name, or after the end, changes nothing. */
  lemma StrangersAreIgnored(cfg: Config, y: Sys, l: Label)
    requires Enabled(cfg, y, l) && l.Arrives?
    requires y.s.closed || l.source != cfg.opener || l.origin !in cfg.policy
    ensures Next(cfg, y, l).s == y.s && Next(cfg, y, l).calls == y.calls[l.call := Over]
  {
  }

  // -------------------------------------------------------------------- the answers

  /** The user declines, the grant has gone meanwhile, or the request goes to the signer. */
  lemma PromptIsDecided(cfg: Config, y: Sys, l: Label)
    requires Enabled(cfg, y, l) && l.PromptAnswers?
    ensures var z, call := Next(cfg, y, l), y.calls[l.call];
            && z.s.grants == y.s.grants && l.call in z.calls
            && (z.calls[l.call] == Signing(call.r, call.at, true) <==> l.ok && call.r.grantId in y.s.grants)
            && (z.calls[l.call].Signing? ==> z.s == y.s)
            && (!z.calls[l.call].Signing? ==>
                  z.calls[l.call] == Over
                  && Answers(y.s, z.s, call.r.origin, Error(Some(call.r.id), if l.ok then Revoked else Declined)))
  {
  }

  /** These grants end and no other, and each one's origin is told so once; `others` is what else is posted. */
  ghost predicate EndsExactly(s: State, t: State, ids: set<string>, others: multiset<Posted>) {
    && ids <= s.grants.Keys && t.grants == s.grants - ids
    && forall p: Posted ::
         t.outbox[p] == s.outbox[p] + others[p]
           + if p.message.RevokedGrant? && p.message.grantId in ids && p.origin == s.grants[p.message.grantId].origin then 1 else 0
  }

  lemma DropAllEndsExactly(s: State, ids: set<string>)
    requires ids <= s.grants.Keys
    ensures EndsExactly(s, DropAll(s, ids), ids, multiset{})
  {
    var told := set g | g in ids :: Posted(s.grants[g].origin, RevokedGrant(g));
    forall p: Posted ensures multiset(told)[p] ==
        if p.message.RevokedGrant? && p.message.grantId in ids && p.origin == s.grants[p.message.grantId].origin then 1 else 0
    {
      if p.message.RevokedGrant? && p.message.grantId in ids && p.origin == s.grants[p.message.grantId].origin {
        assert p == Posted(s.grants[p.message.grantId].origin, RevokedGrant(p.message.grantId));
        assert p in told;
      }
    }
  }

  /**
   * The signer's event is sent exactly while the grant stands, with the grant's key and the template asked
   * for. Another key ends every grant on the page and tells their origins; a grant that has gone, a signer
   * that fails and an event that is not what was asked for each have their answer.
   */
  lemma SignerAnswersAreDecided(cfg: Config, y: Sys, l: Label)
    requires Enabled(cfg, y, l) && l.SignerAnswers?
    ensures var z, call := Next(cfg, y, l), y.calls[l.call];
            var r, stands := call.r, call.r.grantId in y.s.grants;
            && l.call in z.calls
            && (z.calls[l.call].Replied? <==>
                  stands && l.result.Some? && l.result.value.pubkey == r.pubkey && l.result.value.template == r.template)
            && (z.calls[l.call].Replied? ==> z.s.grants == y.s.grants && Answers(y.s, z.s, r.origin, Signed(r.id, l.result.value)))
            && (stands && l.result.Some? && l.result.value.pubkey != r.pubkey ==>
                  EndsExactly(y.s, z.s, y.s.grants.Keys, multiset{Posted(r.origin, Error(Some(r.id), Revoked))}))
            && (!z.calls[l.call].Replied? && !(stands && l.result.Some? && l.result.value.pubkey != r.pubkey) ==>
                  z.s.grants == y.s.grants
                  && Answers(y.s, z.s, r.origin, Error(Some(r.id), if l.result.None? || stands then SignerError else Revoked)))
  {
    var r := y.calls[l.call].r;
    DropAllEndsExactly(FailWith(y.s, r.origin, r.id, Revoked), y.s.grants.Keys);
  }

  // --------------------------------------------------------------------- revocation

  /** Ending every grant, for good or not, tells each origin once. */
  lemma EndingIsTold(cfg: Config, y: Sys)
    requires SoundPolicy(cfg.policy) && Reachable(cfg, y)
    ensures EndsExactly(y.s, Next(cfg, y, RevokesAll).s, y.s.grants.Keys, multiset{}) && Next(cfg, y, RevokesAll).s.closed == y.s.closed
    ensures EndsExactly(y.s, Next(cfg, y, Closes).s, y.s.grants.Keys, multiset{}) && Next(cfg, y, Closes).s.closed
  {
    ReachableInv(cfg, y);
    DropAllEndsExactly(y.s, y.s.grants.Keys);
    if y.s.closed {
      assert y.s.grants == map[];
    }
  }

  /** Revocation ends exactly the grants it names, by id or by origin, and tells each origin once. */
  lemma RevocationsAreTold(cfg: Config, y: Sys, x: string)
    requires SoundPolicy(cfg.policy) && Reachable(cfg, y)
    ensures EndsExactly(y.s, Next(cfg, y, Revokes(x)).s, set g | g in y.s.grants && (g == x || y.s.grants[g].origin == x), multiset{})
    ensures Next(cfg, y, Revokes(x)).s.closed == y.s.closed
  {
    ReachableInv(cfg, y);
    forall g <- y.s.grants ensures Matches(y.s.grants[g], x) <==> g == x || y.s.grants[g].origin == x {
      assert SameGrant(y.s.grants[g], y.granted[g].grant);
      assert GrantInsidePolicy(cfg, g, y.granted[g], y.now);
    }
    var ids := set g | g in y.s.grants && Matches(y.s.grants[g], x);
    assert ids == set g | g in y.s.grants && (g == x || y.s.grants[g].origin == x);
    DropAllEndsExactly(y.s, ids);
  }

  /** A relying origin can end its own grants and no others; it is not told again. */
  lemma DisconnectIsDecided(cfg: Config, y: Sys, l: Label)
    requires Enabled(cfg, y, l) && l.Arrives? && l.message.Disconnect? && Heard(cfg, y.s, l.origin, l.source)
    ensures var z, g := Next(cfg, y, l), l.message.grantId;
            && z.s.outbox == y.s.outbox && z.s.closed == y.s.closed
            && z.s.grants == if g in y.s.grants && y.s.grants[g].origin == l.origin then y.s.grants - {g} else y.s.grants
  {
  }

  // ------------------------------------------------------------------------ connect

  lemma {:induction false} NormalizedIsSpelled(normalize: string -> Option<string>, xs: seq<string>)
    ensures NormalizeAll(normalize, xs).Some? <==> forall i | 0 <= i < |xs| :: normalize(xs[i]).Some?
    ensures NormalizeAll(normalize, xs).Some? ==>
              forall a :: a in NormalizeAll(normalize, xs).value <==> exists i :: 0 <= i < |xs| && normalize(xs[i]) == Some(a)
  {
    if xs != [] {
      var rest := xs[1..];
      NormalizedIsSpelled(normalize, rest);
      assert forall i | 1 <= i < |xs| :: xs[i] == rest[i - 1];
      assert forall i | 0 <= i < |rest| :: rest[i] == xs[i + 1];
      if NormalizeAll(normalize, xs).Some? {
        forall a | exists i :: 0 <= i < |xs| && normalize(xs[i]) == Some(a) ensures a in NormalizeAll(normalize, xs).value {
          var i :| 0 <= i < |xs| && normalize(xs[i]) == Some(a);
          assert i > 0 ==> normalize(rest[i - 1]) == Some(a);
        }
        forall a | a in NormalizeAll(normalize, xs).value ensures exists i :: 0 <= i < |xs| && normalize(xs[i]) == Some(a) {
          if a != normalize(xs[0]).value {
            var i :| 0 <= i < |rest| && normalize(rest[i]) == Some(a);
            assert normalize(xs[i + 1]) == Some(a);
          } else {
            assert normalize(xs[0]) == Some(a);
          }
        }
      }
    }
  }

  lemma NormalizedSet(normalize: string -> Option<string>, xs: seq<string>)
    requires NormalizeAll(normalize, xs).Some?
    ensures NormalizeAll(normalize, xs).value
            == set i | 0 <= i < |xs| && normalize(xs[i]).Some? :: normalize(xs[i]).value
  {
    NormalizedIsSpelled(normalize, xs);
    var all := set i | 0 <= i < |xs| && normalize(xs[i]).Some? :: normalize(xs[i]).value;
    forall a ensures a in NormalizeAll(normalize, xs).value <==> a in all {
      if a in all {
        var i :| 0 <= i < |xs| && normalize(xs[i]).Some? && normalize(xs[i]).value == a;
        assert normalize(xs[i]) == Some(a);
      }
    }
  }

  /** A policy entry is accepted exactly with an origin, some kinds, some audiences that all parse, and a lifetime in bounds
      if it gives one; what counts then is its kinds, the origins its audiences parse to, and that lifetime or the longest. */
  lemma EntriesAreSpelled(normalize: string -> Option<string>, origin: string, e: RawEntry)
    ensures ValidEntry(normalize, origin, e) <==>
              && normalize(origin).Some? && e.kinds != {} && |e.audiences| > 0
              && (forall i | 0 <= i < |e.audiences| :: normalize(e.audiences[i]).Some?)
              && (e.maxTtlSeconds.None? || 1 <= e.maxTtlSeconds.value <= 900)
    ensures ValidEntry(normalize, origin, e) ==>
              EntryOf(normalize, e) ==
              PolicyEntry(e.kinds, set i | 0 <= i < |e.audiences| && normalize(e.audiences[i]).Some? :: normalize(e.audiences[i]).value,
                          if e.maxTtlSeconds == None then 900 else e.maxTtlSeconds.value)
  {
    NormalizedIsSpelled(normalize, e.audiences);
    if ValidEntry(normalize, origin, e) {
      NormalizedSet(normalize, e.audiences);
    }
  }

  /** Everything a connect message asks for is in the policy's entry. */
  predicate AsksInside(cfg: Config, entry: PolicyEntry, m: Message)
    requires m.Connect?
  {
    && (forall k <- m.kinds :: k in entry.kinds)
    && (forall a <- m.audiences :: cfg.normalize(a).Some? && cfg.normalize(a).value in entry.audiences)
  }

  lemma InsideIsSpelled(cfg: Config, entry: PolicyEntry, m: Message)
    requires m.Connect?
    ensures var kinds, audiences := (set k | k in m.kinds), NormalizeAll(cfg.normalize, m.audiences);
            AsksInside(cfg, entry, m) <==> kinds <= entry.kinds && audiences.Some? && audiences.value <= entry.audiences
  {
    var kinds, audiences := (set k | k in m.kinds), NormalizeAll(cfg.normalize, m.audiences);
    NormalizedIsSpelled(cfg.normalize, m.audiences);
    if AsksInside(cfg, entry, m) {
      forall k | k in kinds ensures k in entry.kinds {
        assert k in m.kinds;
      }
      forall i | 0 <= i < |m.audiences| ensures cfg.normalize(m.audiences[i]).Some? {
        assert m.audiences[i] in m.audiences;
      }
      forall a | a in audiences.value ensures a in entry.audiences {
        var i :| 0 <= i < |m.audiences| && cfg.normalize(m.audiences[i]) == Some(a);
        assert m.audiences[i] in m.audiences;
      }
    }
    if kinds <= entry.kinds && audiences.Some? && audiences.value <= entry.audiences {
      forall k | k in m.kinds ensures k in entry.kinds {
        assert k in kinds;
      }
      forall a | a in m.audiences ensures cfg.normalize(a).Some? && cfg.normalize(a).value in entry.audiences {
        var i :| 0 <= i < |m.audiences| && m.audiences[i] == a;
        assert cfg.normalize(m.audiences[i]) == Some(cfg.normalize(a).value);
      }
    }
  }

  /** A connect request waits with exactly what the message asks for. */
  predicate WaitsFor(cfg: Config, l: Label, r: ConnectRequest)
    requires l.Arrives? && l.message.Connect?
  {
    var m := l.message;
    && r.origin == l.origin && r.source == l.source && r.id == m.id && r.expectedPubkey == m.expectedPubkey
    && r.kinds == (set k | k in m.kinds)
    && r.audiences == (set i | 0 <= i < |m.audiences| && cfg.normalize(m.audiences[i]).Some? :: cfg.normalize(m.audiences[i]).value)
  }

  /** A connect request waits for the user exactly when everything it asks for is in the policy of its origin. */
  lemma ConnectRequestsAreDecided(cfg: Config, y: Sys, l: Label)
    requires Enabled(cfg, y, l) && l.Arrives? && l.message.Connect? && Heard(cfg, y.s, l.origin, l.source)
    ensures var z, inside := Next(cfg, y, l), AsksInside(cfg, cfg.policy[l.origin], l.message);
            && l.call in z.calls && (z.calls[l.call].Consenting? <==> inside)
            && (inside ==> WaitsFor(cfg, l, z.calls[l.call].connect) && z.s == y.s)
            && (!inside ==> z.calls[l.call] == Over && z.s.grants == y.s.grants
                            && Answers(y.s, z.s, l.origin, Error(Some(l.message.id), Refused)))
  {
    var m, entry := l.message, cfg.policy[l.origin];
    NormalizedIsSpelled(cfg.normalize, m.audiences);
    if NormalizeAll(cfg.normalize, m.audiences).Some? {
      NormalizedSet(cfg.normalize, m.audiences);
    }
    InsideIsSpelled(cfg, entry, m);
  }

  /** What the page then grants: what was asked for, with the signer's key, until the policy's lifetime is over. */
  predicate Grants(cfg: Config, y: Sys, l: Label, z: Sys)
    requires Enabled(cfg, y, l) && l.ConsentAnswers? && l.answer.Answered?
  {
    var r := y.calls[l.call].connect;
    var info := GrantInfo(l.grantId, l.answer.pubkey, r.kinds, r.audiences, l.now + cfg.policy[r.origin].maxTtlSeconds);
    && z.s.grants == y.s.grants[l.grantId := Grant(info, r.origin, r.source, false)]
    && Answers(y.s, z.s, r.origin, Connected(r.id, info))
  }

  /**
   * A waiting connect gets its grant exactly when the page is open, the user approves and the identity
   * is the one expected, if one is; a page closed meanwhile says nothing more.
   */
  lemma ConsentIsDecided(cfg: Config, y: Sys, l: Label)
    requires SoundPolicy(cfg.policy) && Reachable(cfg, y) && Enabled(cfg, y, l) && l.ConsentAnswers?
    ensures var z, r, closed := Next(cfg, y, l), y.calls[l.call].connect, y.s.closed;
            && l.call in z.calls && z.calls[l.call] == Over
            && (l.grantId in z.s.grants <==>
                  && l.answer.Answered? && l.answer.approved && !closed
                  && (r.expectedPubkey in {None, Some(""), Some(l.answer.pubkey)}))
            && (l.grantId in z.s.grants ==> Grants(cfg, y, l, z) && z.s.grants[l.grantId].info.expiresAt <= l.now + 900)
            && (l.answer.Answered? && closed ==> z.s == y.s)
            && (l.grantId !in z.s.grants && !(l.answer.Answered? && closed) ==>
                  && z.s.grants == y.s.grants
                  && Answers(y.s, z.s, r.origin, Error(Some(r.id),
                       if l.answer.SignerFails? then SignerError else if l.answer.Answered? && l.answer.approved then Refused else Declined)))
  {
    ReachableInv(cfg, y);
    var expected := y.calls[l.call].connect.expectedPubkey;
    assert l.grantId !in y.s.grants;
    if l.answer.Answered? {
      assert expected in {None, Some(""), Some(l.answer.pubkey)} <==> (Truthy(expected) ==> expected.value == l.answer.pubkey);
    }
    assert Next(cfg, y, l).s == FinishConnect(cfg, y.s, y.calls[l.call].connect, l.answer, l.grantId, l.now);
  }

  // ----------------------------------------------------------------------- progress

  /** The steps of one signature: the request, the user's approval where the page asks, and the signer's event. */
  function SignatureSteps(cfg: Config, l: Label, event: Event): seq<Label>
    requires l.Arrives?
  {
    [l] + (if cfg.asks then [PromptAnswers(l.call, true)] else []) + [SignerAnswers(l.call, Some(event))]
  }

  lemma RunOfTwo(cfg: Config, y: Sys, a: Label, b: Label)
    requires Enabled(cfg, y, a) && Enabled(cfg, Next(cfg, y, a), b)
    ensures Runs(cfg, y, [a, b]) && After(cfg, y, [a, b]) == Next(cfg, Next(cfg, y, a), b)
  {
    var z := Next(cfg, y, a);
    assert [a, b][1..] == [b] && [b][1..] == [];
    assert Runs(cfg, Next(cfg, z, b), []);
    assert Runs(cfg, z, [b]);
    assert After(cfg, z, [b]) == After(cfg, Next(cfg, z, b), []);
  }

  lemma RunOfThree(cfg: Config, y: Sys, a: Label, b: Label, c: Label)
    requires Enabled(cfg, y, a) && Enabled(cfg, Next(cfg, y, a), b) && Enabled(cfg, Next(cfg, Next(cfg, y, a), b), c)
    ensures Runs(cfg, y, [a, b, c]) && After(cfg, y, [a, b, c]) == Next(cfg, Next(cfg, Next(cfg, y, a), b), c)
  {
    assert [a, b, c][1..] == [b, c];
    RunOfTwo(cfg, Next(cfg, y, a), b, c);
  }

  /**
   * A covered request on a standing grant is signed: whatever happened before, if the signer answers it
   * with the grant's key and the template asked for (and the user approves, where the page asks), the
   * opener gets that event as its `signed` reply, and nothing else is posted.
   */
  lemma CoveredRequestsAreSigned(cfg: Config, y: Sys, l: Label, event: Event)
    requires SoundPolicy(cfg.policy) && Reachable(cfg, y) && Enabled(cfg, y, l)
    requires l.Arrives? && l.message.Sign? && Heard(cfg, y.s, l.origin, l.source)
    requires Covers(cfg, y.s, l) && (cfg.asks || !Repeats(y.s, l))
    requires event.pubkey == y.s.grants[l.message.grantId].info.pubkey && event.template == l.message.template
    ensures var steps := SignatureSteps(cfg, l, event);
            Runs(cfg, y, steps) && Answers(y.s, After(cfg, y, steps).s, l.origin, Signed(l.message.id, event))
  {
    SignRequestsAreDecided(cfg, y, l);
    var z, signed := Next(cfg, y, l), SignerAnswers(l.call, Some(event));
    assert l.message.grantId in z.s.grants;
    if cfg.asks {
      var ok := PromptAnswers(l.call, true);
      PromptIsDecided(cfg, z, ok);
      SignerAnswersAreDecided(cfg, Next(cfg, z, ok), signed);
      RunOfThree(cfg, y, l, ok, signed);
    } else {
      SignerAnswersAreDecided(cfg, z, signed);
      RunOfTwo(cfg, y, l, signed);
    }
  }
}
