/** Parsing a NUT-10 voucher secret, and what an issuer's signature over its canonical bytes settles. */
module VoucherSecret {
  import opened JsonValues
  import opened Options
  import opened VoucherCanonical
  import VoucherReader
  import VoucherBytes

  datatype Parsed = Parsed(
    secret: Secret,
    lockKey: Option<string>,
    voucherId: Option<string>,
    issuer: Option<string>,
    issuerPubkey: Option<string>,
    issuerSig: Option<string>,
    expiresAt: Option<real>,
    unit: Option<string>,
    faceValue: Option<real>)

  /** `Malformed` is the null answer, `Thrown` an exception that leaves the parser. */
  datatype Answer<+T> = Accepted(value: T) | Malformed | Thrown

  // ----------------------------------------------------------------------------- tags

  /** Strings, and finite numbers by their spelling; `spell` is `String`. */
  function TextOf(spell: real -> string, v: Json): Option<string> {
    match v
    case Str(s) => Some(s)
    case Num(n) => Some(spell(n))
    case _ => None
  }

  predicate ValidTag(spell: real -> string, tag: Json) {
    tag.Arr? && tag.items != [] && forall i | 0 <= i < |tag.items| :: TextOf(spell, tag.items[i]).Some?
  }

  function TagTexts(spell: real -> string, tag: Json): seq<string>
    requires ValidTag(spell, tag)
  {
    seq(|tag.items|, i requires 0 <= i < |tag.items| => TextOf(spell, tag.items[i]).value)
  }

  /** NUT-11: every tag is a list of texts, and no key repeats. */
  predicate ValidTags(spell: real -> string, tags: seq<Json>) {
    && (forall i | 0 <= i < |tags| :: ValidTag(spell, tags[i]))
    && (forall i, j | 0 <= i < j < |tags| :: TagTexts(spell, tags[i])[0] != TagTexts(spell, tags[j])[0])
  }

  /**
   * `String` of a decoded value throws: an object whose own `toString`, which cannot be a function,
   * hides the inherited one, or an array that holds such a value.
   */
  predicate Unspellable(v: Json) {
    match v
    case Obj(fields) => "toString" in fields
    case Arr(items) => exists i | 0 <= i < |items| :: Unspellable(items[i])
    case _ => false
  }

  /** The first tag that is not accepted has a key that cannot be spelled. */
  predicate ThrowsAt(spell: real -> string, tags: seq<Json>, i: nat)
    requires i < |tags|
  {
    ValidTags(spell, tags[..i]) && tags[i].Arr? && tags[i].items != [] && Unspellable(tags[i].items[0])
  }

  predicate TagsThrow(spell: real -> string, tags: seq<Json>) {
    exists i | 0 <= i < |tags| :: ThrowsAt(spell, tags, i)
  }

  lemma ValidPrefix(spell: real -> string, tags: seq<Json>, i: nat, j: nat)
    requires i <= j <= |tags| && ValidTags(spell, tags[..j])
    ensures ValidTags(spell, tags[..i])
  {
    assert forall k | 0 <= k < i :: tags[..i][k] == tags[..j][k];
  }

  /** When the tags before the `i`th are accepted and it is not, whether anything throws is settled by it. */
  lemma FirstRefusalDecides(spell: real -> string, tags: seq<Json>, i: nat)
    requires i < |tags| && ValidTags(spell, tags[..i]) && !ValidTags(spell, tags[..i + 1])
    ensures !ValidTags(spell, tags) && (TagsThrow(spell, tags) <==> ThrowsAt(spell, tags, i))
  {
    if ValidTags(spell, tags) {
      assert tags[..|tags|] == tags;
      ValidPrefix(spell, tags, i + 1, |tags|);
    }
    forall j | 0 <= j < i ensures !ThrowsAt(spell, tags, j) {
      AcceptedKeyIsSpelled(spell, tags[..i][j]);
    }
    forall j | i < j < |tags| ensures !ValidTags(spell, tags[..j]) {
      if ValidTags(spell, tags[..j]) {
        ValidPrefix(spell, tags, i + 1, j);
      }
    }
  }

  lemma AcceptedKeyIsSpelled(spell: real -> string, tag: Json)
    requires ValidTag(spell, tag)
    ensures !Unspellable(tag.items[0])
  {
    assert TextOf(spell, tag.items[0]).Some?;
  }

  lemma AcceptedTagsDoNotThrow(spell: real -> string, tags: seq<Json>)
    requires ValidTags(spell, tags)
    ensures !TagsThrow(spell, tags)
  {
    forall j | 0 <= j < |tags| ensures !ThrowsAt(spell, tags, j) {
      AcceptedKeyIsSpelled(spell, tags[j]);
    }
  }

  /** The first value of the first tag with this key that has one. */
  function TagValue(tags: seq<seq<string>>, key: string): Option<string> {
    if tags == [] then None
    else if |tags[0]| > 1 && tags[0][0] == key then Some(tags[0][1])
    else TagValue(tags[1..], key)
  }

  method ParseTag(spell: real -> string, tag: Json) returns (r: Option<seq<string>>)
    requires tag.Arr? && tag.items != []
    ensures r.Some? <==> ValidTag(spell, tag)
    ensures r.Some? ==> r.value == TagTexts(spell, tag)
  {
    var values: seq<string> := [];
    for i := 0 to |tag.items|
      invariant |values| == i && forall k | 0 <= k < i :: TextOf(spell, tag.items[k]) == Some(values[k])
    {
      var text := TextOf(spell, tag.items[i]);
      if text.None? {
        return None;
      }
      values := values + [text.value];
    }
    r := Some(values);
  }

  /** A tag that is not a list of texts, or repeats a key, ends the run of accepted tags. */
  lemma RefusedHere(spell: real -> string, tags: seq<Json>, i: nat)
    requires i < |tags|
    requires !ValidTag(spell, tags[i]) ||
             exists k | 0 <= k < i :: ValidTag(spell, tags[k]) && TagTexts(spell, tags[k])[0] == TagTexts(spell, tags[i])[0]
    ensures !ValidTags(spell, tags[..i + 1])
  {
    var front := tags[..i + 1];
    assert front[i] == tags[i] && forall k | 0 <= k < i :: front[k] == tags[k];
  }

  method ParseTags(spell: real -> string, raw: seq<Json>) returns (r: Answer<seq<seq<string>>>)
    ensures r.Accepted? <==> ValidTags(spell, raw)
    ensures r.Accepted? ==> |r.value| == |raw| && forall i | 0 <= i < |raw| :: r.value[i] == TagTexts(spell, raw[i])
    ensures r.Thrown? <==> TagsThrow(spell, raw)
  {
    var tags: seq<seq<string>> := [];
    var seenKeys: set<string> := {};
    for i := 0 to |raw|
      invariant |tags| == i && ValidTags(spell, raw[..i])
      invariant forall k | 0 <= k < i :: ValidTag(spell, raw[k]) && tags[k] == TagTexts(spell, raw[k]) && tags[k][0] in seenKeys
      invariant forall key <- seenKeys :: exists k | 0 <= k < i :: tags[k][0] == key
    {
      var tag := raw[i];
      if !tag.Arr? || tag.items == [] {
        RefusedHere(spell, raw, i);
        FirstRefusalDecides(spell, raw, i);
        return Malformed;
      }
      if Unspellable(tag.items[0]) {
        RefusedHere(spell, raw, i);
        FirstRefusalDecides(spell, raw, i);
        return Thrown;
      }
      var values := ParseTag(spell, tag);
      // A key that has a spelling but is neither text nor number is refused with its tag, whether or not
      // its spelling was seen before.
      if values.None? || values.value[0] in seenKeys {
        RefusedHere(spell, raw, i);
        FirstRefusalDecides(spell, raw, i);
        return Malformed;
      }
      assert raw[..i + 1] == raw[..i] + [tag];
      seenKeys := seenKeys + {values.value[0]};
      tags := tags + [values.value];
    }
    assert raw[..|raw|] == raw;
    AcceptedTagsDoNotThrow(spell, raw);
    r := Accepted(tags);
  }

  // --------------------------------------------------------------------------- secrets

  predicate Absent(v: Option<Json>) {
    v.None? || v.value.Null?
  }

  function KindOf(v: Json): Option<Kind> {
    if v == Str("VOUCHER") then Some(Voucher) else if v == Str("P2PK_VOUCHER") then Some(P2pkVoucher) else None
  }

  /** What is checked before the tags are read. */
  predicate Framed(decoded: Json) {
    && decoded.Arr? && |decoded.items| == 2
    && KindOf(decoded.items[0]).Some? && decoded.items[1].Obj?
    && var body := decoded.items[1];
    var nonce, data := Field(body, "nonce"), Field(body, "data");
    && (Absent(nonce) || nonce.value.Str?)
    && data.Some? && data.value.Str?
  }

  /** A secret is accepted exactly when it has this shape. */
  predicate WellFormed(spell: real -> string, decoded: Json) {
    && Framed(decoded)
    && var tags := Field(decoded.items[1], "tags");
    Absent(tags) || (tags.value.Arr? && ValidTags(spell, tags.value.items))
  }

  /** The parser throws exactly on these. */
  predicate Throws(spell: real -> string, decoded: Json) {
    && Framed(decoded)
    && var tags := Field(decoded.items[1], "tags");
    !Absent(tags) && tags.value.Arr? && TagsThrow(spell, tags.value.items)
  }

  function SecretOf(spell: real -> string, decoded: Json): Secret
    requires WellFormed(spell, decoded)
  {
    var body := decoded.items[1];
    var nonce, tags := Field(body, "nonce"), Field(body, "tags");
    Secret(KindOf(decoded.items[0]).value,
           if Absent(nonce) then None else Some(nonce.value.s),
           Field(body, "data").value.s,
           if Absent(tags) then [] else
             seq(|tags.value.items|, i requires 0 <= i < |tags.value.items| => TagTexts(spell, tags.value.items[i])))
  }

  /** `numericTagValue`; `read` is `Number`, `None` when that is not finite. */
  function NumericTagValue(read: string -> Option<real>, tags: seq<seq<string>>, key: string): Option<real> {
    var raw := TagValue(tags, key);
    if raw.None? then None else read(raw.value)
  }

  /** What the checks read off a secret; only a locked voucher has a lock key. */
  function Views(read: string -> Option<real>, s: Secret): Parsed {
    Parsed(s,
           if s.kind.P2pkVoucher? then Some(s.data) else None,
           if s.kind.P2pkVoucher? then TagValue(s.tags, "voucher_id") else Some(s.data),
           TagValue(s.tags, "issuer"), TagValue(s.tags, "issuer_pubkey"), TagValue(s.tags, "issuer_sig"),
           NumericTagValue(read, s.tags, "expires_at"), TagValue(s.tags, "unit"), NumericTagValue(read, s.tags, "face_value"))
  }

  /** `parseVoucherSecret`; `parse` is `JSON.parse`, `None` when it throws. */
  method ParseVoucherSecret(spell: real -> string, read: string -> Option<real>, parse: string -> Option<Json>, secret: string)
    returns (r: Answer<Parsed>)
    ensures r.Accepted? <==> secret != "" && parse(secret).Some? && WellFormed(spell, parse(secret).value)
    ensures r.Accepted? ==> r.value == Views(read, SecretOf(spell, parse(secret).value))
    ensures r.Thrown? <==> secret != "" && parse(secret).Some? && Throws(spell, parse(secret).value)
  {
    if secret == "" || parse(secret).None? {
      return Malformed;
    }
    var decoded := parse(secret).value;
    if !decoded.Arr? || |decoded.items| != 2 || KindOf(decoded.items[0]).None? || !decoded.items[1].Obj? {
      return Malformed;
    }
    var body := decoded.items[1];
    var rawNonce, rawData, rawTags := Field(body, "nonce"), Field(body, "data"), Field(body, "tags");
    if !Absent(rawNonce) && !rawNonce.value.Str? {
      return Malformed;
    }
    if rawData.None? || !rawData.value.Str? {
      return Malformed;
    }
    var tags: seq<seq<string>> := [];
    if !Absent(rawTags) {
      if !rawTags.value.Arr? {
        return Malformed;
      }
      var parsed := ParseTags(spell, rawTags.value.items);
      if !parsed.Accepted? {
        return if parsed.Thrown? then Thrown else Malformed;
      }
      tags := parsed.value;
      AcceptedTagsDoNotThrow(spell, rawTags.value.items);
    }
    var s := Secret(KindOf(decoded.items[0]).value, if Absent(rawNonce) then None else Some(rawNonce.value.s), rawData.value.s, tags);
    assert s.tags == SecretOf(spell, decoded).tags;
    r := Accepted(Views(read, s));
  }

  /** One that throws: `["VOUCHER",{"data":"ab","tags":[[{"toString":1}]]}]`. */
  lemma OwnToStringThrows(spell: real -> string)
    ensures Throws(spell, Arr([Str("VOUCHER"), Obj(map["data" := Str("ab"), "tags" := Arr([Arr([Obj(map["toString" := Num(1.0)])])])])]))
  {
    var tags := [Arr([Obj(map["toString" := Num(1.0)])])];
    assert tags[..0] == [];
    assert ThrowsAt(spell, tags, 0);
  }

  // -------------------------------------------------------- what the signature settles

  /** In an accepted secret a lookup has one answer: no other tag has the key. */
  lemma LookupIsUnambiguous(spell: real -> string, decoded: Json, i: nat)
    requires WellFormed(spell, decoded)
    requires var tags := SecretOf(spell, decoded).tags; i < |tags| && |tags[i]| > 1
    ensures var tags := SecretOf(spell, decoded).tags; TagValue(tags, tags[i][0]) == Some(tags[i][1])
  {
    var tags := SecretOf(spell, decoded).tags;
    assert forall k, l | 0 <= k < l < |tags| :: tags[k][0] != tags[l][0];
    FirstMatch(tags, i);
  }

  lemma {:induction false} FirstMatch(tags: seq<seq<string>>, i: nat)
    requires i < |tags| && |tags[i]| > 1 && (forall k | 0 <= k < |tags| :: tags[k] != [])
    requires forall k, l | 0 <= k < l < |tags| :: tags[k][0] != tags[l][0]
    ensures TagValue(tags, tags[i][0]) == Some(tags[i][1])
  {
    if i > 0 {
      FirstMatch(tags[1..], i - 1);
    }
  }

  /** Tag `i` of a decoded secret has this key and, after it, this value. */
  predicate TagSays(spell: real -> string, tags: seq<Json>, i: nat, key: string, value: string) {
    && i < |tags| && tags[i].Arr? && |tags[i].items| > 1
    && TextOf(spell, tags[i].items[0]) == Some(key) && TextOf(spell, tags[i].items[1]) == Some(value)
  }

  /** The tags of a decoded secret, none if it says nothing of them. */
  function RawTags(decoded: Json): seq<Json>
    requires Framed(decoded)
  {
    var tags := Field(decoded.items[1], "tags");
    if !Absent(tags) && tags.value.Arr? then tags.value.items else []
  }

  /** The decoded secret has a tag that says so. */
  predicate Says(spell: real -> string, decoded: Json, key: string, value: string)
    requires Framed(decoded)
  {
    exists i | 0 <= i < |RawTags(decoded)| :: TagSays(spell, RawTags(decoded), i, key, value)
  }

  lemma {:induction false} FoundInSomeTag(tags: seq<seq<string>>, key: string)
    requires TagValue(tags, key).Some?
    ensures exists i :: 0 <= i < |tags| && |tags[i]| > 1 && tags[i][0] == key && TagValue(tags, key) == Some(tags[i][1])
  {
    if !(|tags[0]| > 1 && tags[0][0] == key) {
      FoundInSomeTag(tags[1..], key);
      var i :| 0 <= i < |tags[1..]| && |tags[1..][i]| > 1 && tags[1..][i][0] == key && TagValue(tags[1..], key) == Some(tags[1..][i][1]);
      assert tags[i + 1] == tags[1..][i];
    }
  }

  lemma ValueIsSaid(spell: real -> string, decoded: Json, key: string, value: string)
    requires WellFormed(spell, decoded)
    ensures TagValue(SecretOf(spell, decoded).tags, key) == Some(value) <==> Says(spell, decoded, key, value)
  {
    var raw, tags := RawTags(decoded), SecretOf(spell, decoded).tags;
    assert |tags| == |raw| && forall i | 0 <= i < |raw| :: ValidTag(spell, raw[i]) && tags[i] == TagTexts(spell, raw[i]);
    if TagValue(tags, key) == Some(value) {
      FoundInSomeTag(tags, key);
      var i :| 0 <= i < |tags| && |tags[i]| > 1 && tags[i][0] == key && tags[i][1] == value;
      assert TagSays(spell, raw, i, key, value);
    }
    forall i | 0 <= i < |raw| && TagSays(spell, raw, i, key, value) ensures TagValue(tags, key) == Some(value) {
      LookupIsUnambiguous(spell, decoded, i);
    }
  }

  /** A text read off a secret is what its tag of this key says. */
  ghost predicate ReadFrom(spell: real -> string, decoded: Json, key: string, view: Option<string>)
    requires Framed(decoded)
  {
    forall value :: view == Some(value) <==> Says(spell, decoded, key, value)
  }

  /** A number read off a secret is that of its tag of this key, if it can be read. */
  ghost predicate NumberFrom(n: Numbers, decoded: Json, key: string, view: Option<real>)
    requires Framed(decoded)
  {
    forall x :: view == Some(x) <==> exists raw :: Says(n.spell, decoded, key, raw) && n.read(raw) == Some(x)
  }

  lemma TextIsReadFrom(spell: real -> string, decoded: Json, key: string)
    requires WellFormed(spell, decoded)
    ensures ReadFrom(spell, decoded, key, TagValue(SecretOf(spell, decoded).tags, key))
  {
    forall value ensures TagValue(SecretOf(spell, decoded).tags, key) == Some(value) <==> Says(spell, decoded, key, value) {
      ValueIsSaid(spell, decoded, key, value);
    }
  }

  lemma NumberIsReadFrom(n: Numbers, decoded: Json, key: string)
    requires WellFormed(n.spell, decoded)
    ensures NumberFrom(n, decoded, key, NumericTagValue(n.read, SecretOf(n.spell, decoded).tags, key))
  {
    TextIsReadFrom(n.spell, decoded, key);
    var raw := TagValue(SecretOf(n.spell, decoded).tags, key);
    forall other | Says(n.spell, decoded, key, other) ensures raw == Some(other) {
    }
    if raw.Some? {
      assert Says(n.spell, decoded, key, raw.value);
    }
  }

  /** What the checks read off an accepted secret, each from the tag of its own name; the kinds differ in what `data` is. */
  lemma ViewsAreByName(n: Numbers, decoded: Json)
    requires WellFormed(n.spell, decoded)
    ensures var v := Views(n.read, SecretOf(n.spell, decoded));
            var locked, data := decoded.items[0] == Str("P2PK_VOUCHER"), decoded.items[1].fields["data"].s;
            && v.secret.data == data && v.secret.kind == (if locked then P2pkVoucher else Voucher)
            && v.secret.nonce == (if IsText(Field(decoded.items[1], "nonce")) then Some(decoded.items[1].fields["nonce"].s) else None)
            && v.lockKey == (if locked then Some(data) else None)
            && (locked ==> ReadFrom(n.spell, decoded, "voucher_id", v.voucherId)) && (!locked ==> v.voucherId == Some(data))
            && ReadFrom(n.spell, decoded, "issuer", v.issuer)
            && ReadFrom(n.spell, decoded, "issuer_pubkey", v.issuerPubkey)
            && ReadFrom(n.spell, decoded, "issuer_sig", v.issuerSig)
            && ReadFrom(n.spell, decoded, "unit", v.unit)
            && NumberFrom(n, decoded, "expires_at", v.expiresAt)
            && NumberFrom(n, decoded, "face_value", v.faceValue)
  {
    TextIsReadFrom(n.spell, decoded, "voucher_id");
    TextIsReadFrom(n.spell, decoded, "issuer");
    TextIsReadFrom(n.spell, decoded, "issuer_pubkey");
    TextIsReadFrom(n.spell, decoded, "issuer_sig");
    TextIsReadFrom(n.spell, decoded, "unit");
    NumberIsReadFrom(n, decoded, "expires_at");
    NumberIsReadFrom(n, decoded, "face_value");
  }

  /** The same lookup on what a canonical rendering says. */
  function ContentValue(tags: seq<VoucherReader.SignedTag>, key: string): Option<VoucherReader.Item> {
    if tags == [] then None
    else if tags[0].items != [] && tags[0].key == key then Some(tags[0].items[0])
    else ContentValue(tags[1..], key)
  }

  lemma {:induction false} ValueIsSigned(schema: Schema, tags: seq<seq<string>>, key: string)
    requires !schema.late(key) && forall k | 0 <= k < |tags| :: tags[k] != []
    ensures ContentValue(VoucherReader.TagsOf(schema, SignedTags(schema, tags)), key) ==
            var v := TagValue(tags, key);
            if v.Some? then Some(VoucherReader.ItemOf(schema, key, v.value)) else None
  {
    if tags != [] {
      var rest := SignedTags(schema, tags[1..]);
      ValueIsSigned(schema, tags[1..], key);
      if !schema.late(Key(tags[0])) {
        var signed := [tags[0]] + rest;
        assert signed[1..] == rest;
        var content := VoucherReader.TagsOf(schema, signed);
        assert content[1..] == VoucherReader.TagsOf(schema, rest);
      } else {
        assert [] + rest == rest;
      }
    }
  }

  /** `Number` and `String` on the doubles: which reals those are, how a text is read and a number written. */
  datatype Numbers = Numbers(isNumber: real -> bool, read: string -> Option<real>, spell: real -> string)

  predicate ReadsNumber(n: Numbers, raw: string) {
    n.read(raw).Some? ==> n.isNumber(n.read(raw).value)
  }

  predicate SpellsNumber(n: Numbers, x: real) {
    n.isNumber(x) ==> NumberText(n.spell(x))
  }

  predicate SpellsApart(n: Numbers, x: real, y: real) {
    n.isNumber(x) && n.isNumber(y) && n.spell(x) == n.spell(y) ==> x == y
  }

  ghost predicate LawfulNumbers(n: Numbers) {
    && n.isNumber(0.0) && n.spell(0.0) == "0"
    && (forall raw :: ReadsNumber(n, raw))
    && (forall x :: SpellsNumber(n, x))
    && (forall x, y :: SpellsApart(n, x, y))
  }

  /** `renderNumber`: what cannot be read is written as zero. */
  function RenderNumber(n: Numbers, raw: string): string {
    if n.read(raw).None? then "0" else n.spell(n.read(raw).value)
  }

  /** The schema of the vouchers in use. */
  function SchemaOf(n: Numbers): Schema {
    VoucherSchema(raw => RenderNumber(n, raw))
  }

  lemma NumbersRenderWell(n: Numbers, raw: string)
    requires LawfulNumbers(n)
    ensures NumberText(RenderNumber(n, raw))
  {
    assert SpellsNumber(n, 0.0) && ReadsNumber(n, raw);
    if n.read(raw).Some? {
      assert SpellsNumber(n, n.read(raw).value);
    }
  }

  lemma SchemaIsLawful(n: Numbers)
    requires LawfulNumbers(n)
    ensures Lawful(SchemaOf(n))
  {
    forall raw ensures RendersWell(SchemaOf(n), raw) {
      NumbersRenderWell(n, raw);
    }
  }

  /** The laws can be met, for instance by the ten digits. */
  lemma LawfulNumbersExist()
    ensures exists n: Numbers :: LawfulNumbers(n) && n.read("7") == Some(7.0)
  {
    var n := Numbers(
      x => 0.0 <= x < 10.0 && x.Floor as real == x,
      raw => if |raw| == 1 && '0' <= raw[0] <= '9' then Some((raw[0] as int - '0' as int) as real) else None,
      x => if 0.0 <= x < 10.0 then ['0' + x.Floor as char] else "0");
    assert LawfulNumbers(n) && n.read("7") == Some(7.0);
  }

  /** Both are accepted, and the issuer's signature is over the same bytes. */
  predicate SameSignedBytes(n: Numbers, a: Json, b: Json) {
    && WellFormed(n.spell, a) && WellFormed(n.spell, b)
    && VoucherBytes.CanonicalBytes(SchemaOf(n), SecretOf(n.spell, a)) == VoucherBytes.CanonicalBytes(SchemaOf(n), SecretOf(n.spell, b))
  }

  lemma SameValues(n: Numbers, a: Json, b: Json, key: string)
    requires LawfulNumbers(n) && SameSignedBytes(n, a, b) && key !in ADDED_AFTER_SIGNING
    ensures var s, t := SecretOf(n.spell, a), SecretOf(n.spell, b);
            var v, w := TagValue(s.tags, key), TagValue(t.tags, key);
            && s.kind == t.kind && VoucherBytes.Fields(s) == VoucherBytes.Fields(t) && (v.Some? <==> w.Some?)
            && (v.Some? ==> VoucherReader.ItemOf(SchemaOf(n), key, v.value) == VoucherReader.ItemOf(SchemaOf(n), key, w.value))
  {
    var s, t := SecretOf(n.spell, a), SecretOf(n.spell, b);
    SchemaIsLawful(n);
    VoucherBytes.BytesSettleAllButTheSplit(SchemaOf(n), s, t);
    SecretValueIsSigned(n, a, key);
    SecretValueIsSigned(n, b, key);
  }

  lemma SecretValueIsSigned(n: Numbers, decoded: Json, key: string)
    requires WellFormed(n.spell, decoded) && key !in ADDED_AFTER_SIGNING
    ensures var tags := SecretOf(n.spell, decoded).tags;
            ContentValue(VoucherReader.TagsOf(SchemaOf(n), SignedTags(SchemaOf(n), tags)), key) ==
            var v := TagValue(tags, key);
            if v.Some? then Some(VoucherReader.ItemOf(SchemaOf(n), key, v.value)) else None
  {
    ValueIsSigned(SchemaOf(n), SecretOf(n.spell, decoded).tags, key);
  }

  /**
   * A signature over the canonical bytes of a voucher settles the tags a session is granted from: any
   * accepted secret with the same bytes has the same kind, and every text tag that is signed reads the same.
   */
  lemma SignatureSettlesTags(n: Numbers, a: Json, b: Json, key: string)
    requires LawfulNumbers(n) && SameSignedBytes(n, a, b)
    requires key !in ADDED_AFTER_SIGNING && key !in NUMERIC_TAGS
    ensures var s, t := SecretOf(n.spell, a), SecretOf(n.spell, b);
            s.kind == t.kind && TagValue(s.tags, key) == TagValue(t.tags, key)
  {
    SameValues(n, a, b, key);
  }

  /** An accepted secret with the same bytes and another lock key. */
  predicate OtherLockKey(n: Numbers, a: Json, b: Json) {
    && SameSignedBytes(n, a, b)
    && Views(n.read, SecretOf(n.spell, a)).lockKey != Views(n.read, SecretOf(n.spell, b)).lockKey
  }

  /** The decoded secret with other data and another nonce. */
  function WithFields(a: Json, data: string, nonce: string): Json
    requires Framed(a)
  {
    Arr([a.items[0], Obj(a.items[1].fields["data" := Str(data)]["nonce" := Str(nonce)])])
  }

  lemma OtherFieldsAreAccepted(spell: real -> string, a: Json, data: string, nonce: string)
    requires WellFormed(spell, a)
    ensures WellFormed(spell, WithFields(a, data, nonce))
    ensures SecretOf(spell, WithFields(a, data, nonce)) == SecretOf(spell, a).(data := data, nonce := Some(nonce))
  {
    assert |"data"| == 4 && |"nonce"| == 5 && "data"[0] != "tags"[0] && |"tags"| == 4;
    var b := WithFields(a, data, nonce);
    assert Field(b.items[1], "tags") == Field(a.items[1], "tags");
    assert SecretOf(spell, b).tags == SecretOf(spell, a).tags;
  }

  /**
   * The lock key of a locked voucher is settled by the bytes exactly when the separator occurs once in
   * data and nonce run together; otherwise another accepted secret has the bytes and another lock key.
   */
  lemma SignatureSettlesLockKey(n: Numbers, a: Json)
    requires LawfulNumbers(n) && WellFormed(n.spell, a)
    ensures (exists b :: OtherLockKey(n, a, b)) <==>
            SecretOf(n.spell, a).kind.P2pkVoucher? && !VoucherBytes.SplitsOnce(SecretOf(n.spell, a))
  {
    var s := SecretOf(n.spell, a);
    if b :| OtherLockKey(n, a, b) {
      var t := SecretOf(n.spell, b);
      SchemaIsLawful(n);
      VoucherBytes.BytesSettleAllButTheSplit(SchemaOf(n), s, t);
      VoucherBytes.SplitsDiffer(s, t);
    }
    if s.kind.P2pkVoucher? && !VoucherBytes.SplitsOnce(s) {
      var i: nat :| VoucherBytes.SeparatorAt(VoucherBytes.Fields(s), i) && i != |s.data|;
      var t := VoucherBytes.SplitAt(s, i);
      var b := WithFields(a, t.data, t.nonce.value);
      VoucherBytes.OtherSplitCollides(SchemaOf(n), s, i);
      OtherFieldsAreAccepted(n.spell, a, t.data, t.nonce.value);
      assert OtherLockKey(n, a, b);
    }
  }

  lemma NumbersAreSigned(key: string)
    requires key in NUMERIC_TAGS
    ensures key !in ADDED_AFTER_SIGNING
  {
    assert |"issuer_sig"| == |"face_value"| == |"expires_at"| == 10 && |"issuer_pubkey"| == |"face_decimals"| == 13;
    assert "issuer_sig"[0] != "face_value"[0] && "issuer_sig"[0] != "expires_at"[0];
    assert "issuer_pubkey"[0] != "face_decimals"[0] && |"issuance_ratio"| == 14;
  }

  /** What two spellings that are written alike were read as. */
  lemma WrittenAlike(n: Numbers, v: string, w: string)
    requires LawfulNumbers(n) && RenderNumber(n, v) == RenderNumber(n, w)
    ensures n.read(v) == n.read(w) <==> (n.read(v).Some? <==> n.read(w).Some?)
    ensures n.read(v) != n.read(w) ==> {n.read(v), n.read(w)} == {None, Some(0.0)}
  {
    assert ReadsNumber(n, v) && ReadsNumber(n, w);
    var x, y := if n.read(v).Some? then n.read(v).value else 0.0, if n.read(w).Some? then n.read(w).value else 0.0;
    assert SpellsApart(n, x, y);
  }

  /**
   * A signed number reads the same in both exactly when both spellings can be read or neither can;
   * otherwise one secret has no such number and the other has zero, under one signature.
   */
  lemma SignatureSettlesNumbers(n: Numbers, a: Json, b: Json, key: string)
    requires LawfulNumbers(n) && SameSignedBytes(n, a, b) && key in NUMERIC_TAGS
    ensures var s, t := SecretOf(n.spell, a).tags, SecretOf(n.spell, b).tags;
            var x, y := NumericTagValue(n.read, s, key), NumericTagValue(n.read, t, key);
            && (x == y <==> (x.Some? <==> y.Some?))
            && (x != y ==> {x, y} == {None, Some(0.0)})
  {
    var s, t := SecretOf(n.spell, a).tags, SecretOf(n.spell, b).tags;
    NumbersAreSigned(key);
    SameValues(n, a, b, key);
    if TagValue(s, key).Some? {
      WrittenAlike(n, TagValue(s, key).value, TagValue(t, key).value);
    }
  }

  lemma OneTag(schema: Schema, key: string, value: string)
    requires !schema.late(key)
    ensures RenderTags(schema, SignedTags(schema, [[key, value]])) == "[\"" + Escape(key) + "\"" + ("," + RenderValue(schema, key, value)) + "]"
    ensures TagValue([[key, value]], key) == Some(value)
  {
    var tag, tags := [key, value], [[key, value]];
    assert tag[1..] == [value] && [value][1..] == [] && tags[1..] == [];
    assert RenderValues(schema, key, [value]) == "," + RenderValue(schema, key, value);
    assert SignedTags(schema, tags) == tags;
    assert RenderTags(schema, tags) == RenderTag(schema, tag);
  }

  /** So it is: a voucher signed with expiry zero and one whose expiry cannot be read share their bytes. */
  lemma UnreadableNumberCollides(n: Numbers, raw: string, kind: Kind, nonce: Option<string>, data: string)
    requires LawfulNumbers(n) && n.read("0") == Some(0.0) && n.read(raw).None?
    ensures var s, t := Secret(kind, nonce, data, [["expires_at", "0"]]), Secret(kind, nonce, data, [["expires_at", raw]]);
            && VoucherBytes.CanonicalBytes(SchemaOf(n), s) == VoucherBytes.CanonicalBytes(SchemaOf(n), t)
            && Views(n.read, s).expiresAt == Some(0.0) && Views(n.read, t).expiresAt == None
  {
    NumbersAreSigned("expires_at");
    OneTag(SchemaOf(n), "expires_at", "0");
    OneTag(SchemaOf(n), "expires_at", raw);
    assert RenderNumber(n, "0") == RenderNumber(n, raw);
  }
}
