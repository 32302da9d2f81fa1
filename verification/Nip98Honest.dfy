/** Honest completions are accepted, and nothing but what was signed is. */
module Nip98Honest {
  import opened Options
  import opened Text
  import opened Hex
  import opened JsonValues
  import opened Nip98
  import Base64
  import Base64RoundTrips
  import Tags

  // ----------------------------------------------------------------- shapes read back

  lemma TextsReadBack(xs: seq<string>)
    ensures IsTexts(Texts(xs)) && TextsOf(Texts(xs)) == xs
  {
  }

  lemma TagListsReadBack(tags: seq<seq<string>>)
    ensures IsTagLists(Some(TagLists(tags))) && TagListsOf(TagLists(tags)) == tags
  {
    forall i | 0 <= i < |tags| ensures IsTexts(TagLists(tags).items[i]) && TextsOf(TagLists(tags).items[i]) == tags[i] {
      TextsReadBack(tags[i]);
    }
  }

  lemma EventReadsBack(e: Event)
    ensures EventOf(EventJson(e)) == Some(e)
  {
    TagListsReadBack(e.tags);
    assert "kind"[0] != "tags"[0];
  }

  lemma CredentialReadsBack(c: Credential)
    requires Complete(c)
    ensures CredentialOf(Some(CredentialJson(c))) == Some(c)
  {
    assert "secret"[0] != "amount"[0];
    assert "e"[0] != "s"[0] && "e"[0] != "r"[0] && "s"[0] != "r"[0];
  }

  lemma BodyReadsBack(b: Body)
    requires b.challengeId != "" && (b.voucher.Some? ==> Complete(b.voucher.value))
    ensures BodyOf(BodyJson(b)) == Some(b)
  {
    if b.voucher.Some? {
      CredentialReadsBack(b.voucher.value);
    }
  }

  // ------------------------------------------------------------------- header and body

  /** What JSON wrote for an object comes back through UTF-8 and base64. */
  lemma TextReadsBack(p: Platform, v: Json)
    requires Lawful(p) && ReadsBack(p, v) && v.Obj?
    ensures p.decode(p.encode(p.stringify(v))) == p.stringify(v)
    ensures DecodeString(p, EncodeString(p, p.stringify(v))) == Some(p.stringify(v))
  {
    assert DecodesBack(p, p.stringify(v));
    Base64RoundTrips.DecodeOfEncode(p.encode(p.stringify(v)));
  }

  /** Base64 has no white space, so trimming a payload leaves it as it was. */
  lemma EncodedStaysTrimmed(bytes: seq<byte>)
    ensures Trim(Base64.Encode(bytes)) == Base64.Encode(bytes)
    ensures Base64.Encode(bytes) == "" <==> bytes == []
  {
    var e := Base64.Encode(bytes);
    if e != [] {
      Base64RoundTrips.EncodedChar(bytes, 0);
      Base64RoundTrips.EncodedChar(bytes, |e| - 1);
    }
    PlainEndsStay(e);
  }

  lemma HeaderReadsBack(p: Platform, e: Event)
    requires Lawful(p) && EventExists(p, e)
    ensures ParseHeader(p, SCHEME + EncodeString(p, p.stringify(EventJson(e)))) == Some(e)
  {
    var v := EventJson(e);
    assert ReadsBack(p, v);
    TextReadsBack(p, v);
    EventReadsBack(e);
    var text := p.stringify(v);
    EncodedStaysTrimmed(p.encode(text));
    assert DecodesBack(p, "");
    assert p.encode(text) != [];
    var header := SCHEME + EncodeString(p, text);
    assert header[|SCHEME|..] == EncodeString(p, text);
  }

  // ------------------------------------------------------------------------------ tags

  /** In a list of tags with names that all differ, each name finds its own tag. */
  lemma {:induction false} OwnTag(tags: seq<seq<string>>, i: nat)
    requires i < |tags| && (forall k | 0 <= k < |tags| :: tags[k] != [])
    requires forall k | 0 <= k < |tags| && k != i :: tags[k][0] != tags[i][0]
    ensures Tags.TagsNamed(tags, tags[i][0]) == [tags[i]]
  {
    if i == 0 {
      NoTag(tags[1..], tags[0][0]);
    } else {
      OwnTag(tags[1..], i - 1);
    }
  }

  lemma {:induction false} NoTag(tags: seq<seq<string>>, name: string)
    requires forall k | 0 <= k < |tags| :: tags[k] != [] && tags[k][0] != name
    ensures Tags.TagsNamed(tags, name) == []
  {
    if tags != [] {
      NoTag(tags[1..], name);
    }
  }

  lemma TemplateTags(c: Challenge, payload: string, createdAt: real, e: Event)
    requires e.tags == TemplateFor(c, payload, createdAt).tags
    ensures SingleTag(e, "u") == Some(c.url) && SingleTag(e, "method") == Some(c.httpMethod)
    ensures SingleTag(e, "payload") == Some(payload) && SingleTag(e, "challenge") == Some(c.challenge)
    ensures SingleTag(e, "challenge_id") == Some(c.id)
  {
    var tags := e.tags;
    assert |tags[0][0]| == 1 && |tags[1][0]| == 6 && |tags[2][0]| == 7 && |tags[3][0]| == 9 && |tags[4][0]| == 12;
    OwnTag(tags, 0);
    OwnTag(tags, 1);
    OwnTag(tags, 2);
    OwnTag(tags, 3);
    OwnTag(tags, 4);
  }

  // -------------------------------------------------------------------------- theorems

  /** Everything the client puts in is a value that exists at run time. */
  predicate Buildable(p: Platform, createdAt: real, voucher: Option<Credential>) {
    p.isNumber(createdAt) && (voucher.Some? ==> Complete(voucher.value) && p.isNumber(voucher.value.amount))
  }

  /** The event that arrives is the one that was signed. */
  lemma BuiltEventArrives(p: Platform, c: Challenge, signer: Template -> Event, createdAt: real, stepUp: bool, voucher: Option<Credential>)
    requires Lawful(p) && Honest(p, signer) && p.isNumber(createdAt)
    ensures var r := Build(p, c, signer, createdAt, stepUp, voucher);
            && ParseHeader(p, r.authorization) == Some(r.event) && SCHEME <= r.authorization
            && r.event.kind == COMPLETION_KIND as real && r.event.content == "" && r.event.createdAt == createdAt
            && p.verify(r.event) && r.event.tags == TemplateFor(c, Sha256Hex(p, r.rawBody), createdAt).tags
  {
    var r := Build(p, c, signer, createdAt, stepUp, voucher);
    assert SignsAsAsked(p, signer, TemplateFor(c, Sha256Hex(p, r.rawBody), createdAt));
    HeaderReadsBack(p, r.event);
  }

  /** An honest body survives the wire with its challenge id, its step-up flag and its voucher. */
  lemma BuiltBodyArrives(p: Platform, c: Challenge, signer: Template -> Event, createdAt: real, stepUp: bool, voucher: Option<Credential>)
    requires Lawful(p) && c.id != "" && Buildable(p, createdAt, voucher)
    ensures var r := Build(p, c, signer, createdAt, stepUp, voucher);
            ParseBody(p, r.rawBody) == Some(r.body) && r.body == Body(c.id, stepUp, voucher)
  {
    var body := Body(c.id, stepUp, voucher);
    assert BodyExists(p, body);
    assert ReadsBack(p, BodyJson(body));
    TextReadsBack(p, BodyJson(body));
    BodyReadsBack(body);
  }

  /**
   * What the server makes of an honest authorization header, with whatever body, URL and method it
   * arrives: verified, giving the signed challenge and challenge id back, exactly when the body
   * parses and names this challenge and hashes as the signed one, `created_at` is within the skew,
   * and URL and method are the challenge's.
   */
  lemma HonestHeaderIsVerified(p: Platform, c: Challenge, signer: Template -> Event, createdAt: real, stepUp: bool,
                               voucher: Option<Credential>, a: Arrival)
    requires Lawful(p) && Honest(p, signer) && p.isNumber(createdAt)
    requires a.authorization == Build(p, c, signer, createdAt, stepUp, voucher).authorization
    ensures var r := Build(p, c, signer, createdAt, stepUp, voucher);
            var body, verdict := ParseBody(p, a.rawBody), VerifyArrival(p, a);
            && (verdict.Some? && verdict.value.Verified? <==>
                  && body.Some? && body.value.challengeId == c.id && c.id != ""
                  && Distance(a.now, createdAt) <= a.skew && SameUrl(p, c.url, a.url) && c.httpMethod == p.upper(a.httpMethod)
                  && Sha256Hex(p, r.rawBody) == Sha256Hex(p, a.rawBody))
            && (verdict.Some? && verdict.value.Verified? ==>
                  verdict.value == Verified(r.event, c.challenge, c.id, Sha256Hex(p, r.rawBody)))
  {
    var r := Build(p, c, signer, createdAt, stepUp, voucher);
    BuiltEventArrives(p, c, signer, createdAt, stepUp, voucher);
    TemplateTags(c, Sha256Hex(p, r.rawBody), createdAt, r.event);
  }

  /**
   * The completion an honest client builds is accepted as it stands, for every challenge, body and
   * honest signer, exactly when its `created_at` is within the skew and the challenge's URL parses.
   */
  lemma HonestCompletionIsAccepted(p: Platform, c: Challenge, signer: Template -> Event, createdAt: real, stepUp: bool,
                                   voucher: Option<Credential>, now: real, skew: real)
    requires Lawful(p) && Honest(p, signer) && c.id != "" && Buildable(p, createdAt, voucher) && p.upper(c.httpMethod) == c.httpMethod
    ensures var r := Build(p, c, signer, createdAt, stepUp, voucher);
            var verdict := VerifyArrival(p, Arrival(r.authorization, c.url, c.httpMethod, r.rawBody, now, skew));
            && verdict.Some?
            && (verdict.value.Verified? <==> Distance(now, createdAt) <= skew && p.url(c.url).Some?)
            && (verdict.value.Verified? ==> verdict.value == Verified(r.event, c.challenge, c.id, Sha256Hex(p, r.rawBody)))
  {
    var r := Build(p, c, signer, createdAt, stepUp, voucher);
    BuiltBodyArrives(p, c, signer, createdAt, stepUp, voucher);
    HonestHeaderIsVerified(p, c, signer, createdAt, stepUp, voucher,
                           Arrival(r.authorization, c.url, c.httpMethod, r.rawBody, now, skew));
  }

  /** A body swapped in transit for one that still parses and names the challenge is refused, unless its hash is that of the signed one. */
  lemma SwappedBodyIsRefused(p: Platform, c: Challenge, signer: Template -> Event, createdAt: real, stepUp: bool,
                             voucher: Option<Credential>, rawBody: seq<byte>, now: real, skew: real)
    requires Lawful(p) && Honest(p, signer) && p.isNumber(createdAt) && p.upper(c.httpMethod) == c.httpMethod
    requires Distance(now, createdAt) <= skew && p.url(c.url).Some?
    requires ParseBody(p, rawBody).Some? && ParseBody(p, rawBody).value.challengeId == c.id && c.id != ""
    ensures var r := Build(p, c, signer, createdAt, stepUp, voucher);
            VerifyArrival(p, Arrival(r.authorization, c.url, c.httpMethod, rawBody, now, skew)) ==
            Some(if p.sha(rawBody) == p.sha(r.rawBody) then Verified(r.event, c.challenge, c.id, Sha256Hex(p, r.rawBody))
                 else Refused(PayloadMismatch))
  {
    var r := Build(p, c, signer, createdAt, stepUp, voucher);
    BuiltEventArrives(p, c, signer, createdAt, stepUp, voucher);
    TemplateTags(c, Sha256Hex(p, r.rawBody), createdAt, r.event);
    HexIsInjective(p.sha(rawBody), p.sha(r.rawBody));
  }

  lemma HexIsInjective(a: seq<byte>, b: seq<byte>)
    ensures BytesToHex(a) == BytesToHex(b) <==> a == b
  {
    HexRoundTrip(a);
    HexRoundTrip(b);
  }
}
