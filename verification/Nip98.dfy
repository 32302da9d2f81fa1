/**
 * Building a NIP-98 completion and checking one. The JSON writer and reader, text encoding,
 * hashing, URL parsing and signatures are parameters; the checks and their order are the code's.
 */
module Nip98 {
  import opened Options
  import opened Text
  import opened Hex
  import opened JsonValues
  import Base64
  import Tags

  const COMPLETION_KIND := 27235
  const SCHEME := "Nostr "

  /** Library functions; `None` is a thrown error. `isNumber` says which reals a JavaScript number can
      be; `url` normalises an absolute URL. */
  datatype Platform = Platform(
    isNumber: real -> bool,
    stringify: Json -> string,
    parse: string -> Option<Json>,
    encode: string -> seq<byte>,
    decode: seq<byte> -> string,
    sha: seq<byte> -> seq<byte>,
    url: string -> Option<string>,
    upper: string -> string,
    verify: Event -> bool)

  datatype Event = Event(
    id: string, pubkey: string, createdAt: real, kind: real, tags: seq<seq<string>>, content: string, sig: string)

  datatype Template = Template(kind: real, createdAt: real, tags: seq<seq<string>>, content: string)

  datatype Challenge = Challenge(id: string, challenge: string, url: string, httpMethod: string)

  datatype Credential = Credential(
    mintUrl: string, keysetId: string, secret: string, signature: string, amount: real,
    e: string, s: string, r: string, lockWitness: Option<string>)

  datatype Body = Body(challengeId: string, stepUp: bool, voucher: Option<Credential>)

  datatype Request = Request(body: Body, rawBody: seq<byte>, event: Event, authorization: string)

  datatype Failure =
    | MissingHeader | InvalidScheme | InvalidEvent | InvalidKind | InvalidSignature | CreatedAtOutOfRange
    | UrlMismatch | MethodMismatch | MissingPayload | PayloadMismatch | MissingChallengeId | ChallengeMismatch

  datatype Verdict = Verified(event: Event, challenge: string, challengeId: string, payload: string) | Refused(why: Failure)

  // ---------------------------------------------------------------------- JSON shapes

  function Texts(xs: seq<string>): Json {
    Arr(seq(|xs|, i requires 0 <= i < |xs| => Str(xs[i])))
  }

  function TagLists(tags: seq<seq<string>>): Json {
    Arr(seq(|tags|, i requires 0 <= i < |tags| => Texts(tags[i])))
  }

  function EventJson(e: Event): Json {
    Obj(map["id" := Str(e.id), "pubkey" := Str(e.pubkey), "created_at" := Num(e.createdAt), "kind" := Num(e.kind),
            "tags" := TagLists(e.tags), "content" := Str(e.content), "sig" := Str(e.sig)])
  }

  function CredentialJson(c: Credential): Json {
    var required := map["mint_url" := Str(c.mintUrl), "keyset_id" := Str(c.keysetId), "secret" := Str(c.secret),
                        "signature" := Str(c.signature), "amount" := Num(c.amount),
                        "dleq" := Obj(map["e" := Str(c.e), "s" := Str(c.s), "r" := Str(c.r)])];
    Obj(if c.lockWitness.Some? then required["witness" := Str(c.lockWitness.value)] else required)
  }

  function BodyJson(b: Body): Json {
    var base := map["challenge_id" := Str(b.challengeId)];
    var stepped := if b.stepUp then base["step_up" := Bool(true)] else base;
    Obj(if b.voucher.Some? then stepped["voucher" := CredentialJson(b.voucher.value)] else stepped)
  }

  predicate IsTexts(v: Json) {
    v.Arr? && forall i | 0 <= i < |v.items| :: v.items[i].Str?
  }

  predicate IsTagLists(v: Option<Json>) {
    v.Some? && v.value.Arr? && forall i | 0 <= i < |v.value.items| :: IsTexts(v.value.items[i])
  }

  function TextsOf(v: Json): seq<string>
    requires IsTexts(v)
  {
    seq(|v.items|, i requires 0 <= i < |v.items| => v.items[i].s)
  }

  function TagListsOf(v: Json): seq<seq<string>>
    requires IsTagLists(Some(v))
  {
    seq(|v.items|, i requires 0 <= i < |v.items| => TextsOf(v.items[i]))
  }

  predicate IsNum(v: Option<Json>) {
    v.Some? && v.value.Num?
  }

  /** The event a decoded value is, if every field has its type. */
  function EventOf(v: Json): Option<Event> {
    var id, pubkey, createdAt, kind := Field(v, "id"), Field(v, "pubkey"), Field(v, "created_at"), Field(v, "kind");
    var content, sig, tags := Field(v, "content"), Field(v, "sig"), Field(v, "tags");
    if IsText(id) && IsText(pubkey) && IsNum(createdAt) && IsNum(kind) && IsText(content) && IsText(sig) && IsTagLists(tags)
    then Some(Event(id.value.s, pubkey.value.s, createdAt.value.n, kind.value.n, TagListsOf(tags.value), content.value.s, sig.value.s))
    else None
  }

  /** `parseVoucherCredential`: shape only. */
  function CredentialOf(v: Option<Json>): Option<Credential> {
    if v.None? || !v.value.Obj? then None
    else
      var c := v.value;
      var amount, dleq, lockWitness := Field(c, "amount"), Field(c, "dleq"), Field(c, "witness");
      if !IsFilledText(Field(c, "mint_url")) || !IsFilledText(Field(c, "keyset_id")) || !IsFilledText(Field(c, "secret"))
         || !IsFilledText(Field(c, "signature")) then None
      else if !IsNum(amount) || amount.value.n <= 0.0 || amount.value.n.Floor as real != amount.value.n then None
      else if dleq.None? || !dleq.value.Obj? then None
      else if !IsFilledText(Field(dleq.value, "e")) || !IsFilledText(Field(dleq.value, "s")) || !IsFilledText(Field(dleq.value, "r")) then None
      else if lockWitness.Some? && !lockWitness.value.Str? then None
      else
        Some(Credential(Field(c, "mint_url").value.s, Field(c, "keyset_id").value.s, Field(c, "secret").value.s,
                        Field(c, "signature").value.s, amount.value.n,
                        Field(dleq.value, "e").value.s, Field(dleq.value, "s").value.s, Field(dleq.value, "r").value.s,
                        if lockWitness.Some? then Some(lockWitness.value.s) else None))
  }

  /** `parseAuthCompleteRequest`, on the decoded value. */
  function BodyOf(v: Json): Option<Body> {
    var id, stepUp, voucher := Field(v, "challenge_id"), Field(v, "step_up"), CredentialOf(Field(v, "voucher"));
    if !IsFilledText(id) then None
    else if stepUp.Some? && !stepUp.value.Bool? then None
    else if Field(v, "voucher").Some? && voucher.None? then None
    else Some(Body(id.value.s, stepUp.Some? && stepUp.value.b, voucher))
  }

  function ParseBody(p: Platform, rawBody: seq<byte>): Option<Body> {
    var decoded := p.parse(p.decode(rawBody));
    if decoded.None? then None else BodyOf(decoded.value)
  }

  // -------------------------------------------------------------------------- building

  function Sha256Hex(p: Platform, bytes: seq<byte>): string {
    BytesToHex(p.sha(bytes))
  }

  function EncodeString(p: Platform, s: string): string {
    Base64.Encode(p.encode(s))
  }

  function DecodeString(p: Platform, s: string): Option<string> {
    var bytes := Base64.Decode(s);
    if bytes.None? then None else Some(p.decode(bytes.value))
  }

  /** The template a client asks its signer to sign. */
  function TemplateFor(c: Challenge, payload: string, createdAt: real): Template {
    Template(COMPLETION_KIND as real, createdAt,
             [["u", c.url], ["method", c.httpMethod], ["payload", payload], ["challenge", c.challenge], ["challenge_id", c.id]], "")
  }

  /** `buildAuthCompleteRequest`. */
  function Build(p: Platform, c: Challenge, signer: Template -> Event, createdAt: real, stepUp: bool, voucher: Option<Credential>): Request {
    var body := Body(c.id, stepUp, voucher);
    var rawBody := p.encode(p.stringify(BodyJson(body)));
    var event := signer(TemplateFor(c, Sha256Hex(p, rawBody), createdAt));
    Request(body, rawBody, event, SCHEME + EncodeString(p, p.stringify(EventJson(event))))
  }

  // ------------------------------------------------------------------------- verifying

  /** `parseNostrAuthorizationHeader`. */
  function ParseHeader(p: Platform, header: string): Option<Event> {
    if !(SCHEME <= header) then None
    else
      var payload := Trim(header[|SCHEME|..]);
      if payload == "" then None
      else
        var decoded := DecodeString(p, payload);
        if decoded.None? then None
        else
          var value := p.parse(decoded.value);
          if value.None? then None else EventOf(value.value)
  }

  /** `getSingleTag`: the value of the only tag with this name. */
  function SingleTag(e: Event, name: string): Option<string> {
    var matches := Tags.TagsNamed(e.tags, name);
    if |matches| != 1 || |matches[0]| < 2 then None else Some(matches[0][1])
  }

  predicate SameUrl(p: Platform, left: string, right: string) {
    p.url(left).Some? && p.url(left) == p.url(right)
  }

  function Distance(a: real, b: real): real {
    if a < b then b - a else a - b
  }

  /** What the check is given: the header, the server's own URL, the method, the raw body and the challenge id parsed from it. */
  datatype Input = Input(
    authorization: string, url: string, httpMethod: string, rawBody: seq<byte>, challengeId: string, now: real, skew: real)

  /** The checks on the event's tags, in order. */
  function CheckTags(p: Platform, e: Event, input: Input): Verdict {
    var u, m, payload := SingleTag(e, "u"), SingleTag(e, "method"), SingleTag(e, "payload");
    var id, challenge := SingleTag(e, "challenge_id"), SingleTag(e, "challenge");
    if u.None? then Refused(InvalidEvent)
    else if !SameUrl(p, u.value, input.url) then Refused(UrlMismatch)
    else if m.None? then Refused(InvalidEvent)
    else if m.value != p.upper(input.httpMethod) then Refused(MethodMismatch)
    else if payload.None? then Refused(MissingPayload)
    else if payload.value != Sha256Hex(p, input.rawBody) then Refused(PayloadMismatch)
    else if id.None? then Refused(MissingChallengeId)
    else if input.challengeId == "" || id.value != input.challengeId then Refused(MissingChallengeId)
    else if challenge.None? then Refused(ChallengeMismatch)
    else Verified(e, challenge.value, id.value, payload.value)
  }

  /** `verifyNip98Completion`. */
  function Verify(p: Platform, input: Input): Verdict {
    if input.authorization == "" then Refused(MissingHeader)
    else if !(SCHEME <= input.authorization) then Refused(InvalidScheme)
    else
      var event := ParseHeader(p, input.authorization);
      if event.None? then Refused(InvalidEvent)
      else if event.value.kind != COMPLETION_KIND as real then Refused(InvalidKind)
      else if event.value.content != "" then Refused(InvalidEvent)
      else if !p.verify(event.value) then Refused(InvalidSignature)
      else if Distance(input.now, event.value.createdAt) > input.skew then Refused(CreatedAtOutOfRange)
      else CheckTags(p, event.value, input)
  }

  /** What arrives at the completion endpoint, with the server's clock and skew. */
  datatype Arrival = Arrival(authorization: string, url: string, httpMethod: string, rawBody: seq<byte>, now: real, skew: real)

  /** The endpoint's first two steps: parse the body, then verify with the challenge id it names; `None` is a malformed body. */
  function VerifyArrival(p: Platform, a: Arrival): Option<Verdict> {
    var body := ParseBody(p, a.rawBody);
    if body.None? then None
    else Some(Verify(p, Input(a.authorization, a.url, a.httpMethod, a.rawBody, body.value.challengeId, a.now, a.skew)))
  }

  // -------------------------------------------------------------------- what is assumed

  predicate ReadsBack(p: Platform, v: Json) {
    var text := p.stringify(v);
    p.parse(text) == Some(v) && (v.Obj? ==> text != [] && text[0] == '{')
  }

  predicate DecodesBack(p: Platform, s: string) {
    (s != [] ==> s[0] as int != 0xFEFF) ==> p.decode(p.encode(s)) == s
  }

  /** Events and bodies whose numbers a JavaScript number can be; no others exist at run time. */
  predicate EventExists(p: Platform, e: Event) {
    p.isNumber(e.createdAt) && p.isNumber(e.kind)
  }

  predicate BodyExists(p: Platform, b: Body) {
    b.voucher.Some? ==> p.isNumber(b.voucher.value.amount)
  }

  /** JSON reads back what it wrote, and text decodes to what was encoded unless it starts with a byte order mark. */
  ghost predicate Lawful(p: Platform) {
    && p.isNumber(COMPLETION_KIND as real)
    && (forall e: Event | EventExists(p, e) :: ReadsBack(p, EventJson(e)))
    && (forall b: Body | BodyExists(p, b) :: ReadsBack(p, BodyJson(b)))
    && (forall s :: DecodesBack(p, s))
    && p.encode("") == []
  }

  predicate SignsAsAsked(p: Platform, signer: Template -> Event, t: Template) {
    var e := signer(t);
    e.kind == t.kind && e.createdAt == t.createdAt && e.tags == t.tags && e.content == t.content && p.verify(e)
  }

  /** The signer returns the template it was given, validly signed. */
  ghost predicate Honest(p: Platform, signer: Template -> Event) {
    forall t :: SignsAsAsked(p, signer, t)
  }

  /** A credential with every part the protocol requires. */
  predicate Complete(c: Credential) {
    && c.mintUrl != "" && c.keysetId != "" && c.secret != "" && c.signature != "" && c.e != "" && c.s != "" && c.r != ""
    && c.amount > 0.0 && c.amount.Floor as real == c.amount
  }
}
