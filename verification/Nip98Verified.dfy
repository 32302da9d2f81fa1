/** What is verified, and why anything else is refused: for every header and body, whoever made them. */
module Nip98Verified {
  import opened Options
  import opened Text
  import opened Hex
  import opened JsonValues
  import opened Nip98
  import opened Tags
  import Base64

  // ---------------------------------------------------------------------------- tags

  lemma SingleTagIsThere(e: Event, name: string)
    ensures SingleTag(e, name).Some? <==> HasOnlyTag(e.tags, name)
    ensures forall value :: SingleTag(e, name) == Some(value) <==> OnlyTag(e.tags, name, value)
  {
    forall value ensures SingleTag(e, name) == Some(value) <==> OnlyTag(e.tags, name, value) {
      OnlyTagIsFiltered(e.tags, name, value);
    }
    if SingleTag(e, name).Some? {
      assert OnlyTag(e.tags, name, SingleTag(e, name).value);
    }
  }

  // -------------------------------------------------------------------------- header

  /** A decoded list of lists of texts is these tags. */
  ghost predicate SpellsTags(v: Json, tags: seq<seq<string>>) {
    && v.Arr? && |v.items| == |tags|
    && forall i | 0 <= i < |tags| :: v.items[i].Arr? && |v.items[i].items| == |tags[i]|
         && forall k | 0 <= k < |tags[i]| :: v.items[i].items[k] == Str(tags[i][k])
  }

  /** A decoded object has the seven properties of this event, each of its type; others are ignored. */
  ghost predicate SpellsEvent(v: Json, e: Event) {
    && v.Obj? && {"id", "pubkey", "created_at", "kind", "tags", "content", "sig"} <= v.fields.Keys
    && v.fields["id"] == Str(e.id) && v.fields["pubkey"] == Str(e.pubkey)
    && v.fields["created_at"] == Num(e.createdAt) && v.fields["kind"] == Num(e.kind)
    && v.fields["content"] == Str(e.content) && v.fields["sig"] == Str(e.sig)
    && SpellsTags(v.fields["tags"], e.tags)
  }

  lemma TextsAreSpelled(v: Json, xs: seq<string>)
    ensures IsTexts(v) && TextsOf(v) == xs
            <==> v.Arr? && |v.items| == |xs| && forall k | 0 <= k < |xs| :: v.items[k] == Str(xs[k])
  {
    if IsTexts(v) {
      forall k | 0 <= k < |v.items| ensures v.items[k] == Str(TextsOf(v)[k]) {
      }
    }
  }

  lemma TagsAreSpelled(v: Json, tags: seq<seq<string>>)
    ensures IsTagLists(Some(v)) && TagListsOf(v) == tags <==> SpellsTags(v, tags)
  {
    if IsTagLists(Some(v)) && TagListsOf(v) == tags {
      forall i | 0 <= i < |tags| ensures IsTexts(v.items[i]) && TextsOf(v.items[i]) == tags[i] {
      }
    }
    if v.Arr? && |v.items| == |tags| {
      forall i | 0 <= i < |tags| {
        TextsAreSpelled(v.items[i], tags[i]);
      }
    }
  }

  lemma EventIsSpelled(v: Json, e: Event)
    ensures EventOf(v) == Some(e) <==> SpellsEvent(v, e)
  {
    if v.Obj? && "tags" in v.fields {
      TagsAreSpelled(v.fields["tags"], e.tags);
    }
  }

  /** All before `i` and from `j` on is white space, and between them the ends are not. */
  predicate CutsAt(s: string, i: nat, j: nat) {
    && i <= j <= |s|
    && (forall k | 0 <= k < i :: IsSpace(s[k])) && (forall k | j <= k < |s| :: IsSpace(s[k]))
    && (i < j ==> !IsSpace(s[i]) && !IsSpace(s[j - 1]))
  }

  /** `core` is what is left of `s` without the white space around it. */
  ghost predicate Framed(s: string, core: string) {
    exists i: nat, j: nat :: CutsAt(s, i, j) && core == s[i..j]
  }

  lemma {:induction false} TrimStartCuts(s: string) returns (i: nat)
    ensures i <= |s| && TrimStart(s) == s[i..] && forall k | 0 <= k < i :: IsSpace(s[k])
    ensures TrimStart(s) != [] ==> !IsSpace(TrimStart(s)[0])
  {
    i := 0;
    if s != [] && IsSpace(s[0]) {
      var rest := TrimStartCuts(s[1..]);
      i := rest + 1;
      assert forall k | 1 <= k < i :: s[k] == s[1..][k - 1];
    }
  }

  lemma {:induction false} TrimEndCuts(s: string) returns (j: nat)
    ensures j <= |s| && TrimEnd(s) == s[..j] && forall k | j <= k < |s| :: IsSpace(s[k])
    ensures TrimEnd(s) != [] ==> !IsSpace(TrimEnd(s)[|TrimEnd(s)| - 1])
  {
    j := |s|;
    if s != [] && IsSpace(s[|s| - 1]) {
      j := TrimEndCuts(s[..|s| - 1]);
      assert forall k | j <= k < |s| - 1 :: s[k] == s[..|s| - 1][k];
    }
  }

  lemma TrimFrames(s: string)
    ensures Framed(s, Trim(s))
  {
    var i := TrimStartCuts(s);
    var t := s[i..];
    var j := TrimEndCuts(t);
    assert Trim(s) == t[..j] == s[i..i + j];
    forall k | i + j <= k < |s| ensures IsSpace(s[k]) {
      assert t[k - i] == s[k];
    }
    if Trim(s) != [] {
      assert t[0] == Trim(s)[0];
    }
    assert CutsAt(s, i, i + j);
  }

  /** The header is the scheme and, framed by white space, base64 of JSON that spells this event. */
  ghost predicate Carries(p: Platform, header: string, e: Event) {
    && |header| >= 6 && header[..6] == "Nostr "
    && exists core, bytes, v ::
         && Framed(header[6..], core) && core != ""
         && Base64.Decode(core) == Some(bytes) && p.parse(p.decode(bytes)) == Some(v) && SpellsEvent(v, e)
  }

  lemma CutIsUnique(s: string, i: nat, j: nat, m: nat, n: nat)
    requires CutsAt(s, i, j) && CutsAt(s, m, n) && i < j
    ensures m <= i && j <= n
  {
  }

  lemma FrameIsUnique(s: string, a: string, b: string)
    requires Framed(s, a) && Framed(s, b)
    ensures a == b
  {
    var i: nat, j: nat :| CutsAt(s, i, j) && a == s[i..j];
    var m: nat, n: nat :| CutsAt(s, m, n) && b == s[m..n];
    if i < j {
      CutIsUnique(s, i, j, m, n);
    }
    if m < n {
      CutIsUnique(s, m, n, i, j);
    }
  }

  lemma HeaderCarries(p: Platform, header: string, e: Event)
    ensures ParseHeader(p, header) == Some(e) <==> Carries(p, header, e)
  {
    if |header| >= 6 && header[..6] == "Nostr " {
      var rest := header[6..];
      TrimFrames(rest);
      forall core | Framed(rest, core) ensures core == Trim(rest) {
        FrameIsUnique(rest, core, Trim(rest));
      }
      forall v ensures EventOf(v) == Some(e) <==> SpellsEvent(v, e) {
        EventIsSpelled(v, e);
      }
    }
  }

  // ----------------------------------------------------------------------- decisions

  /** Signed as a completion event, near the server's clock. */
  predicate Proven(p: Platform, e: Event, input: Input) {
    && e.kind == 27235.0 && e.content == "" && p.verify(e)
    && -input.skew <= input.now - e.createdAt <= input.skew
  }

  /** The one `u` tag names the server's own URL. */
  ghost predicate UrlAgrees(p: Platform, e: Event, input: Input) {
    exists u :: OnlyTag(e.tags, "u", u) && p.url(u).Some? && p.url(u) == p.url(input.url)
  }

  ghost predicate MethodAgrees(p: Platform, e: Event, input: Input) {
    OnlyTag(e.tags, "method", p.upper(input.httpMethod))
  }

  ghost predicate PayloadAgrees(p: Platform, e: Event, input: Input) {
    OnlyTag(e.tags, "payload", BytesToHex(p.sha(input.rawBody)))
  }

  ghost predicate IdAgrees(e: Event, input: Input) {
    input.challengeId != "" && OnlyTag(e.tags, "challenge_id", input.challengeId)
  }

  lemma TagsDecide(p: Platform, e: Event, input: Input)
    ensures var v := CheckTags(p, e, input);
            var url, verb, payload, id :=
              UrlAgrees(p, e, input), MethodAgrees(p, e, input), PayloadAgrees(p, e, input), IdAgrees(e, input);
            && (v == Refused(InvalidEvent) <==> !HasOnlyTag(e.tags, "u") || (url && !HasOnlyTag(e.tags, "method")))
            && (v == Refused(UrlMismatch) <==> HasOnlyTag(e.tags, "u") && !url)
            && (v == Refused(MethodMismatch) <==> url && HasOnlyTag(e.tags, "method") && !verb)
            && (v == Refused(MissingPayload) <==> url && verb && !HasOnlyTag(e.tags, "payload"))
            && (v == Refused(PayloadMismatch) <==> url && verb && HasOnlyTag(e.tags, "payload") && !payload)
            && (v == Refused(MissingChallengeId) <==> url && verb && payload && !id)
            && (v == Refused(ChallengeMismatch) <==> url && verb && payload && id && !HasOnlyTag(e.tags, "challenge"))
            && (v.Verified? <==> url && verb && payload && id && HasOnlyTag(e.tags, "challenge"))
            && (v.Verified? ==> v.event == e && OnlyTag(e.tags, "challenge", v.challenge)
                                && v.challengeId == input.challengeId && v.payload == BytesToHex(p.sha(input.rawBody)))
            && (v.Refused? ==> v.why in {InvalidEvent, UrlMismatch, MethodMismatch, MissingPayload, PayloadMismatch,
                                         MissingChallengeId, ChallengeMismatch})
  {
    SingleTagIsThere(e, "u");
    SingleTagIsThere(e, "method");
    SingleTagIsThere(e, "payload");
    SingleTagIsThere(e, "challenge_id");
    SingleTagIsThere(e, "challenge");
  }

  /** Nothing but an event can be verified; the header says why it holds none. */
  lemma WithoutAnEvent(p: Platform, input: Input)
    requires forall e :: !Carries(p, input.authorization, e)
    ensures Verify(p, input) == Refused(
              if input.authorization == "" then MissingHeader
              else if |input.authorization| < 6 || input.authorization[..6] != "Nostr " then InvalidScheme
              else InvalidEvent)
  {
    var event := ParseHeader(p, input.authorization);
    if event.Some? {
      HeaderCarries(p, input.authorization, event.value);
    }
  }

  /**
   * What becomes of a header that carries an event: it is verified exactly when the event is proven and
   * every tag agrees, and each refusal is given exactly for the first check that fails.
   */
  lemma CarriedIsDecided(p: Platform, input: Input, e: Event)
    requires Carries(p, input.authorization, e)
    ensures var v := Verify(p, input);
            var kind, content, sig := e.kind == 27235.0, e.content == "", p.verify(e);
            && (v == Refused(InvalidKind) <==> !kind)
            && (v == Refused(InvalidSignature) <==> kind && content && !sig)
            && (v == Refused(CreatedAtOutOfRange) <==> kind && content && sig && !Proven(p, e, input))
            && (v == Refused(InvalidEvent) <==>
                  kind && (!content || (Proven(p, e, input) && (|| !HasOnlyTag(e.tags, "u")
                                                                || (UrlAgrees(p, e, input) && !HasOnlyTag(e.tags, "method"))))))
            && (Proven(p, e, input) ==> v == CheckTags(p, e, input))
            && (v.Verified? ==> Proven(p, e, input))
  {
    HeaderCarries(p, input.authorization, e);
    TagsDecide(p, e, input);
    assert SCHEME <= input.authorization;
  }

  lemma TagsVerify(p: Platform, e: Event, input: Input, challenge: string, id: string, payload: string)
    ensures CheckTags(p, e, input) == Verified(e, challenge, id, payload)
            <==> && UrlAgrees(p, e, input) && MethodAgrees(p, e, input) && PayloadAgrees(p, e, input) && IdAgrees(e, input)
                 && payload == BytesToHex(p.sha(input.rawBody)) && id == input.challengeId
                 && OnlyTag(e.tags, "challenge", challenge)
    ensures CheckTags(p, e, input).Verified? ==> CheckTags(p, e, input).event == e
  {
    TagsDecide(p, e, input);
    SingleTagIsThere(e, "challenge");
  }

  lemma VerifiedHasPassed(p: Platform, input: Input, e: Event, challenge: string, id: string, payload: string)
    requires Verify(p, input) == Verified(e, challenge, id, payload)
    ensures Carries(p, input.authorization, e) && Proven(p, e, input)
    ensures CheckTags(p, e, input) == Verified(e, challenge, id, payload)
  {
    var event := ParseHeader(p, input.authorization).value;
    TagsVerify(p, event, input, challenge, id, payload);
    HeaderCarries(p, input.authorization, e);
  }

  lemma PassedIsVerified(p: Platform, input: Input, e: Event)
    requires Carries(p, input.authorization, e) && Proven(p, e, input)
    ensures Verify(p, input) == CheckTags(p, e, input)
  {
    HeaderCarries(p, input.authorization, e);
    assert SCHEME <= input.authorization;
  }

  /**
   * Whoever made the header: a completion is verified, with this event, challenge, id and payload hash,
   * exactly when the header carries that event, its signature, kind, content and time are right, and it
   * has exactly one tag of each name, with this server's URL and method, this body's hash, the id in the
   * body, and this challenge.
   */
  lemma VerifiedExactly(p: Platform, input: Input, e: Event, challenge: string, id: string, payload: string)
    ensures Verify(p, input) == Verified(e, challenge, id, payload)
            <==> && Carries(p, input.authorization, e)
                 && p.verify(e) && e.kind == 27235.0 && e.content == ""
                 && -input.skew <= input.now - e.createdAt <= input.skew
                 && (exists u :: OnlyTag(e.tags, "u", u) && p.url(u).Some? && p.url(u) == p.url(input.url))
                 && OnlyTag(e.tags, "method", p.upper(input.httpMethod))
                 && OnlyTag(e.tags, "payload", payload) && payload == BytesToHex(p.sha(input.rawBody))
                 && OnlyTag(e.tags, "challenge_id", id) && id == input.challengeId != ""
                 && OnlyTag(e.tags, "challenge", challenge)
  {
    TagsVerify(p, e, input, challenge, id, payload);
    if Verify(p, input) == Verified(e, challenge, id, payload) {
      VerifiedHasPassed(p, input, e, challenge, id, payload);
    } else if Carries(p, input.authorization, e) && Proven(p, e, input) {
      PassedIsVerified(p, input, e);
    }
  }

  // ---------------------------------------------------------------------------- body

  /** A decoded object has the parts of this voucher credential, each filled in; others are ignored. */
  ghost predicate SpellsCredential(v: Json, c: Credential) {
    && v.Obj? && {"mint_url", "keyset_id", "secret", "signature", "amount", "dleq"} <= v.fields.Keys
    && Complete(c)
    && v.fields["mint_url"] == Str(c.mintUrl) && v.fields["keyset_id"] == Str(c.keysetId)
    && v.fields["secret"] == Str(c.secret) && v.fields["signature"] == Str(c.signature)
    && v.fields["amount"] == Num(c.amount)
    && var dleq := v.fields["dleq"];
    && dleq.Obj? && {"e", "s", "r"} <= dleq.fields.Keys
    && dleq.fields["e"] == Str(c.e) && dleq.fields["s"] == Str(c.s) && dleq.fields["r"] == Str(c.r)
    && (c.lockWitness.Some? ==> "witness" in v.fields && v.fields["witness"] == Str(c.lockWitness.value))
    && (c.lockWitness.None? ==> "witness" !in v.fields)
  }

  /** A decoded object is this completion request. */
  ghost predicate SpellsBody(v: Json, b: Body) {
    && v.Obj? && b.challengeId != ""
    && "challenge_id" in v.fields && v.fields["challenge_id"] == Str(b.challengeId)
    && ("step_up" in v.fields ==> v.fields["step_up"] == Bool(b.stepUp))
    && ("step_up" !in v.fields ==> !b.stepUp)
    && (b.voucher.Some? ==> "voucher" in v.fields && SpellsCredential(v.fields["voucher"], b.voucher.value))
    && (b.voucher.None? ==> "voucher" !in v.fields)
  }

  lemma CredentialIsSpelled(v: Json, c: Credential)
    ensures CredentialOf(Some(v)) == Some(c) <==> SpellsCredential(v, c)
  {
  }

  /** A body is read exactly as the request it spells; anything else is malformed. */
  lemma BodyIsSpelled(v: Json, b: Body)
    ensures BodyOf(v) == Some(b) <==> SpellsBody(v, b)
  {
    if Field(v, "voucher").Some? {
      forall c ensures CredentialOf(Some(v.fields["voucher"])) == Some(c) <==> SpellsCredential(v.fields["voucher"], c) {
        CredentialIsSpelled(v.fields["voucher"], c);
      }
    }
  }
}
