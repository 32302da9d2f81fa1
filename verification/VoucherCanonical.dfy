/** The canonical rendering of a voucher secret that its issuer signs, and a reader for it. */
module VoucherCanonical {
  import opened Options
  import opened Hex

  // ------------------------------------------------------------------------ escaping

  /** What `escapeJson` appends for one character. */
  function EscapeChar(c: char): (s: string)
    ensures s != [] && s[0] != '"'
  {
    if c == '"' then "\\\""
    else if c == '\\' then "\\\\"
    else if c as int == 8 then "\\b"
    else if c as int == 12 then "\\f"
    else if c == '\n' then "\\n"
    else if c == '\r' then "\\r"
    else if c == '\t' then "\\t"
    else if c as int < 0x20 then "\\u" + Spell(c as nat, 4)
    else [c]
  }

  /** The characters with an escape of their own, and its letter. */
  const SHORT_ESCAPES: map<char, char> :=
    map['"' := '"', '\\' := '\\', 8 as char := 'b', 12 as char := 'f', '\n' := 'n', '\r' := 'r', '\t' := 't']

  /** Seven characters have short escapes, other control characters are numbered, and every other one is written as itself. */
  lemma EscapesAreNamed(c: char)
    ensures EscapeChar(c) ==
            if c in SHORT_ESCAPES then ['\\', SHORT_ESCAPES[c]]
            else if c as int < 0x20 then ['\\', 'u', '0', '0', "01"[c as int / 16], "0123456789abcdef"[c as int % 16]]
            else [c]
  {
    var n := c as int;
    if n < 0x20 {
      DigitIsNamed(n % 16);
      assert n / 16 / 16 == 0 && n / 16 < 2;
      DigitIsNamed(n / 16);
      assert Spell(n, 4) == Spell(n / 16, 3) + [Digit(n % 16)];
      assert Spell(n / 16, 3) == Spell(0, 2) + [Digit(n / 16)];
      assert Spell(0, 2) == ['0', '0'];
    }
  }

  function Escape(s: string): string {
    if s == [] then [] else EscapeChar(s[0]) + Escape(s[1..])
  }

  lemma {:induction false} EscapeAppend(s: string, c: char)
    ensures Escape(s + [c]) == Escape(s) + EscapeChar(c)
  {
    if s == [] {
      assert [c][1..] == [];
    } else {
      assert (s + [c])[1..] == s[1..] + [c];
      EscapeAppend(s[1..], c);
    }
  }

  /** `escapeJson`. */
  method EscapeJson(input: string) returns (out: string)
    ensures out == Escape(input)
  {
    out := "";
    for i := 0 to |input|
      invariant out == Escape(input[..i])
    {
      assert input[..i + 1] == input[..i] + [input[i]];
      EscapeAppend(input[..i], input[i]);
      out := out + EscapeChar(input[i]);
    }
    assert input[..|input|] == input;
  }

  /** A JSON reader's step: one character, plain or escaped. */
  function ReadChar(s: string): (r: Option<(char, string)>)
    ensures r.Some? ==> |r.value.1| < |s|
  {
    if s == [] || s[0] == '"' then None
    else if s[0] != '\\' then Some((s[0], s[1..]))
    else if |s| < 2 then None
    else if s[1] == '"' || s[1] == '\\' then Some((s[1], s[2..]))
    else if s[1] == 'b' then Some((8 as char, s[2..]))
    else if s[1] == 'f' then Some((12 as char, s[2..]))
    else if s[1] == 'n' then Some(('\n', s[2..]))
    else if s[1] == 'r' then Some(('\r', s[2..]))
    else if s[1] == 't' then Some(('\t', s[2..]))
    else if s[1] == 'u' && |s| >= 6 && IsHex(s[2..6]) && Number(s[2..6]) < 0xD800 then Some((Number(s[2..6]) as char, s[6..]))
    else None
  }

  /** A JSON string up to and including its closing quote. */
  function ReadText(s: string): (r: Option<(string, string)>)
    ensures r.Some? ==> |r.value.1| < |s|
    decreases |s|
  {
    if s != [] && s[0] == '"' then Some(([], s[1..]))
    else
      var first := ReadChar(s);
      if first.None? then None
      else
        var more := ReadText(first.value.1);
        if more.None? then None else Some(([first.value.0] + more.value.0, more.value.1))
  }

  lemma ControlRoundTrip(n: nat)
    requires n < 0x20
    ensures Number(Spell(n, 4)) == n
  {
    assert Power16(4) == 65536;
    NumberOfSpelling(n, 4);
  }

  lemma ReadEscapedChar(c: char, rest: string)
    ensures ReadChar(EscapeChar(c) + rest) == Some((c, rest))
  {
    var s := EscapeChar(c) + rest;
    if c as int < 0x20 {
      ControlRoundTrip(c as nat);
    }
    if |EscapeChar(c)| == 6 {
      assert s[2..6] == Spell(c as nat, 4) && s[6..] == rest;
    } else if |EscapeChar(c)| == 2 {
      assert s[2..] == rest;
    } else {
      assert s[1..] == rest;
    }
  }

  /** An escaped text followed by a quote reads back, whatever comes after. */
  lemma {:induction false} ReadEscaped(t: string, rest: string)
    ensures ReadText(Escape(t) + "\"" + rest) == Some((t, rest))
  {
    if t == [] {
      assert Escape(t) + "\"" + rest == "\"" + rest;
      assert ("\"" + rest)[1..] == rest;
    } else {
      var tail := Escape(t[1..]) + "\"" + rest;
      assert Escape(t) + "\"" + rest == EscapeChar(t[0]) + tail;
      ReadEscapedChar(t[0], tail);
      ReadEscaped(t[1..], rest);
      assert t == [t[0]] + t[1..];
    }
  }

  /** Escaping loses nothing. */
  lemma EscapeIsInjective(a: string, b: string)
    requires Escape(a) == Escape(b)
    ensures a == b
  {
    ReadEscaped(a, "");
    ReadEscaped(b, "");
  }

  /** Every quote is escaped and every escape is complete. */
  predicate NoBareQuote(s: string) {
    s == [] || (s[0] != '"' && if s[0] == '\\' then |s| >= 2 && NoBareQuote(s[2..]) else NoBareQuote(s[1..]))
  }

  lemma {:induction false} PlainTail(s: string, t: string)
    requires NoBareQuote(t) && forall i | 0 <= i < |s| :: s[i] != '"' && s[i] != '\\'
    ensures NoBareQuote(s + t)
  {
    if s == [] {
      assert s + t == t;
    } else {
      PlainTail(s[1..], t);
      assert (s + t)[1..] == s[1..] + t;
    }
  }

  lemma {:induction false} EscapeHasNoBareQuote(s: string)
    ensures NoBareQuote(Escape(s))
  {
    if s != [] {
      EscapeHasNoBareQuote(s[1..]);
      var e, rest := EscapeChar(s[0]), Escape(s[1..]);
      if e[0] == '\\' {
        assert (e + rest)[2..] == e[2..] + rest;
        PlainTail(e[2..], rest);
      } else {
        assert (e + rest)[1..] == rest;
      }
    }
  }

  // -------------------------------------------------------------------- the rendering

  datatype Kind = Voucher | P2pkVoucher

  /** A parsed secret: what the rendering reads of it. */
  datatype Secret = Secret(kind: Kind, nonce: Option<string>, data: string, tags: seq<seq<string>>)

  /** The tag schema: which keys hold bare numbers, which are added after signing; `render` is `renderNumber`. */
  datatype Schema = Schema(numeric: string -> bool, late: string -> bool, render: string -> string)

  predicate NumberChar(c: char) {
    '0' <= c <= '9' || c == '-' || c == '+' || c == '.' || c == 'e'
  }

  predicate NumberText(s: string) {
    s != [] && forall i | 0 <= i < |s| :: NumberChar(s[i])
  }

  predicate RendersWell(schema: Schema, raw: string) {
    NumberText(schema.render(raw))
  }

  /** JavaScript writes a finite number with digits, a sign, a point and an exponent. */
  ghost predicate Lawful(schema: Schema) {
    forall raw :: RendersWell(schema, raw)
  }

  function KindText(kind: Kind): string {
    match kind
    case Voucher => "VOUCHER"
    case P2pkVoucher => "P2PK_VOUCHER"
  }

  const NUMERIC_TAGS := {"face_value", "expires_at", "face_decimals", "issuance_ratio"}
  const ADDED_AFTER_SIGNING := {"issuer_sig", "issuer_pubkey"}

  /** The schema of the vouchers in use. */
  function VoucherSchema(render: string -> string): Schema {
    Schema(key => key in NUMERIC_TAGS, key => key in ADDED_AFTER_SIGNING, render)
  }

  function Key(tag: seq<string>): string {
    if tag == [] then "" else tag[0]
  }

  function Values(tag: seq<string>): seq<string> {
    if tag == [] then [] else tag[1..]
  }

  function RenderValue(schema: Schema, key: string, value: string): string {
    if schema.numeric(key) then schema.render(value) else "\"" + Escape(value) + "\""
  }

  /** The values from place `i` on, each after a comma. */
  function RenderValues(schema: Schema, key: string, values: seq<string>): string {
    if values == [] then [] else "," + RenderValue(schema, key, values[0]) + RenderValues(schema, key, values[1..])
  }

  function RenderTag(schema: Schema, tag: seq<string>): string {
    "[\"" + Escape(Key(tag)) + "\"" + RenderValues(schema, Key(tag), Values(tag)) + "]"
  }

  function SignedTags(schema: Schema, tags: seq<seq<string>>): seq<seq<string>> {
    if tags == [] then [] else (if schema.late(Key(tags[0])) then [] else [tags[0]]) + SignedTags(schema, tags[1..])
  }

  function RenderTags(schema: Schema, tags: seq<seq<string>>): string {
    if tags == [] then []
    else RenderTag(schema, tags[0]) + (if |tags| == 1 then [] else ",") + RenderTags(schema, tags[1..])
  }

  function OrEmpty(s: Option<string>): string {
    if s.Some? then s.value else ""
  }

  function Render(schema: Schema, s: Secret): string {
    "[\"" + KindText(s.kind) + "\",\"" + s.data + "\",\"" + OrEmpty(s.nonce) + "\",["
    + RenderTags(schema, SignedTags(schema, s.tags)) + "]]"
  }

  // ------------------------------------------------------------------------ the loops

  lemma {:induction false} RenderValuesAppend(schema: Schema, key: string, values: seq<string>, value: string)
    ensures RenderValues(schema, key, values + [value]) ==
            RenderValues(schema, key, values) + "," + RenderValue(schema, key, value)
  {
    if values == [] {
      assert [value][1..] == [] && [] + [value] == [value];
    } else {
      assert (values + [value])[1..] == values[1..] + [value];
      RenderValuesAppend(schema, key, values[1..], value);
    }
  }

  lemma Regroup<T>(a: seq<T>, b: seq<T>, c: seq<T>, d: seq<T>, e: seq<T>)
    ensures a + b + (c + d + e) == (a + b + c) + d + e
  {
  }

  lemma {:induction false} RenderTagsAppend(schema: Schema, tags: seq<seq<string>>, tag: seq<string>)
    ensures RenderTags(schema, tags + [tag]) ==
            RenderTags(schema, tags) + (if tags == [] then [] else ",") + RenderTag(schema, tag)
  {
    if tags == [] {
      assert [] + [tag] == [tag] && [tag][1..] == [];
    } else {
      var more := tags + [tag];
      assert more[1..] == tags[1..] + [tag] && more[0] == tags[0];
      RenderTagsAppend(schema, tags[1..], tag);
      var front, last := RenderTag(schema, tags[0]), RenderTag(schema, tag);
      assert RenderTags(schema, more) == front + "," + RenderTags(schema, more[1..]);
      if |tags| == 1 {
        assert tags[1..] == [] && RenderTags(schema, tags) == front + [] + [];
        assert front + "," + ([] + [] + last) == (front + [] + []) + "," + last;
      } else {
        Regroup(front, ",", RenderTags(schema, tags[1..]), ",", last);
      }
    }
  }

  lemma {:induction false} SignedTagsAppend(schema: Schema, tags: seq<seq<string>>, tag: seq<string>)
    ensures SignedTags(schema, tags + [tag]) == SignedTags(schema, tags) + if schema.late(Key(tag)) then [] else [tag]
  {
    if tags == [] {
      assert [] + [tag] == [tag] && [tag][1..] == [];
    } else {
      var more := tags + [tag];
      assert more[1..] == tags[1..] + [tag] && more[0] == tags[0];
      SignedTagsAppend(schema, tags[1..], tag);
    }
  }

  method WriteValues(schema: Schema, key: string, values: seq<string>) returns (out: string)
    ensures out == RenderValues(schema, key, values)
  {
    out := "";
    for i := 0 to |values|
      invariant out == RenderValues(schema, key, values[..i])
    {
      RenderValuesAppend(schema, key, values[..i], values[i]);
      assert values[..i + 1] == values[..i] + [values[i]];
      var value := WriteValue(schema, key, values[i]);
      out := out + "," + value;
    }
    assert values[..|values|] == values;
  }

  method WriteValue(schema: Schema, key: string, value: string) returns (out: string)
    ensures out == RenderValue(schema, key, value)
  {
    if schema.numeric(key) {
      return schema.render(value);
    }
    var escaped := EscapeJson(value);
    out := "\"" + escaped + "\"";
  }

  /** The tags that are signed, in order, with a comma between two of them. */
  method WriteTags(schema: Schema, tags: seq<seq<string>>) returns (out: string)
    ensures out == RenderTags(schema, SignedTags(schema, tags))
  {
    out := "";
    var first := true;
    for i := 0 to |tags|
      invariant out == RenderTags(schema, SignedTags(schema, tags[..i]))
      invariant first <==> SignedTags(schema, tags[..i]) == []
    {
      var tag := tags[i];
      SignedTagsAppend(schema, tags[..i], tag);
      assert tags[..i + 1] == tags[..i] + [tag];
      if schema.late(Key(tag)) {
        assert SignedTags(schema, tags[..i + 1]) == SignedTags(schema, tags[..i]);
        continue;
      }
      RenderTagsAppend(schema, SignedTags(schema, tags[..i]), tag);
      if !first {
        out := out + ",";
      }
      first := false;
      var key := EscapeJson(Key(tag));
      var values := WriteValues(schema, Key(tag), Values(tag));
      out := out + ("[\"" + key + "\"" + values + "]");
    }
    assert tags[..|tags|] == tags;
  }

  /** `voucherCanonicalBytes`, before the text is encoded. */
  method CanonicalText(schema: Schema, s: Secret) returns (out: string)
    ensures out == Render(schema, s)
  {
    out := "[\"" + KindText(s.kind) + "\",\"" + s.data + "\",\"" + OrEmpty(s.nonce) + "\",[";
    var tags := WriteTags(schema, s.tags);
    out := out + tags + "]]";
  }

  /** Bare numbers and unsigned keys are these, and no other tag is. */
  lemma SchemaIsNamed(render: string -> string, key: string)
    ensures VoucherSchema(render).numeric(key) <==>
              key == "face_value" || key == "expires_at" || key == "face_decimals" || key == "issuance_ratio"
    ensures VoucherSchema(render).late(key) <==> key == "issuer_sig" || key == "issuer_pubkey"
    ensures VoucherSchema(render).render(key) == render(key)
  {
  }

  /** The tags of four kinds, in order: a text, a number, one added after signing, and one without values. */
  function FourTags(quoted: string, v: string, bare: string, w: string, added: string, x: string, alone: string): seq<seq<string>> {
    [[quoted, v], [bare, w], [added, x], [alone]]
  }

  ghost predicate AreOfKinds(schema: Schema, quoted: string, bare: string, added: string, alone: string) {
    && !schema.numeric(quoted) && !schema.late(quoted) && schema.numeric(bare) && !schema.late(bare)
    && schema.late(added) && !schema.late(alone)
  }

  lemma FourAreSigned(schema: Schema, quoted: string, v: string, bare: string, w: string, added: string, x: string, alone: string)
    requires AreOfKinds(schema, quoted, bare, added, alone)
    ensures SignedTags(schema, FourTags(quoted, v, bare, w, added, x, alone)) == [[quoted, v], [bare, w], [alone]]
  {
    var q, b, l, a := [quoted, v], [bare, w], [added, x], [alone];
    assert [q, b, l, a][1..] == [b, l, a] && [b, l, a][1..] == [l, a] && [l, a][1..] == [a] && [a][1..] == [];
    assert SignedTags(schema, [a]) == [a];
    assert SignedTags(schema, [l, a]) == [a];
    assert SignedTags(schema, [b, l, a]) == [b] + [a];
    assert [q] + ([b] + [a]) == [q, b, a];
  }

  lemma OneValue(schema: Schema, key: string, value: string)
    ensures RenderTag(schema, [key, value]) == "[\"" + Escape(key) + "\"," + RenderValue(schema, key, value) + "]"
    ensures RenderTag(schema, [key]) == "[\"" + Escape(key) + "\"]"
  {
    assert Values([key, value]) == [value] && Values([key]) == [] && [value][1..] == [];
    assert RenderValues(schema, key, [value]) == "," + RenderValue(schema, key, value) + [];
  }

  lemma ThreeTags(schema: Schema, a: seq<string>, b: seq<string>, c: seq<string>)
    ensures RenderTags(schema, [a, b, c]) == RenderTag(schema, a) + "," + RenderTag(schema, b) + "," + RenderTag(schema, c)
  {
    assert [a, b, c][1..] == [b, c] && [b, c][1..] == [c] && [c][1..] == [];
    assert RenderTags(schema, [c]) == RenderTag(schema, c) + [] + [];
    assert RenderTags(schema, [b, c]) == RenderTag(schema, b) + "," + RenderTag(schema, c);
  }

  /** Texts are escaped and quoted, numbers bare, and what is added after signing is left out. */
  lemma TagsInFull(schema: Schema, quoted: string, v: string, bare: string, w: string, added: string, x: string, alone: string)
    requires AreOfKinds(schema, quoted, bare, added, alone)
    ensures var one, two := "[\"" + Escape(quoted) + "\"," + ("\"" + Escape(v) + "\"") + "]", "[\"" + Escape(bare) + "\"," + schema.render(w) + "]";
            RenderTags(schema, SignedTags(schema, FourTags(quoted, v, bare, w, added, x, alone)))
            == one + "," + two + "," + ("[\"" + Escape(alone) + "\"]")
  {
    FourAreSigned(schema, quoted, v, bare, w, added, x, alone);
    OneValue(schema, quoted, v);
    OneValue(schema, bare, w);
    OneValue(schema, alone, "");
    ThreeTags(schema, [quoted, v], [bare, w], [alone]);
  }

  /** A voucher in full: its kind by name, its two fields as they are, a missing nonce as an empty one, then its signed tags. */
  lemma VoucherInFull(schema: Schema, kind: Kind, nonce: Option<string>, data: string, tags: seq<seq<string>>)
    ensures Render(schema, Secret(kind, nonce, data, tags)) ==
            (if kind.Voucher? then "[\"VOUCHER\",\"" else "[\"P2PK_VOUCHER\",\"") + data + "\",\""
            + (if nonce == None then "" else nonce.value) + "\",[" + RenderTags(schema, SignedTags(schema, tags)) + "]]"
  {
    assert "[\"" + "VOUCHER" + "\",\"" == "[\"VOUCHER\",\"";
    assert "[\"" + "P2PK_VOUCHER" + "\",\"" == "[\"P2PK_VOUCHER\",\"";
  }
}
