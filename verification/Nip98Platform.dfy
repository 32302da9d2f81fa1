/**
 * A platform that meets every law `Nip98` assumes, with an honest signer for it: numbers are the
 * integers, text is three bytes a character, and JSON is a prefix-free code. It shows that the
 * theorems about honest completions are about something.
 */
module Nip98Platform {
  import opened Options
  import opened Hex
  import opened JsonValues
  import opened Nip98
  import VoucherCanonical

  // ------------------------------------------------------------------ prefix-free codes

  function TextCode(s: string): string {
    VoucherCanonical.Escape(s) + "\""
  }

  lemma TextCodeSplits(x: string, y: string, u: string, v: string)
    requires TextCode(x) + u == TextCode(y) + v
    ensures x == y && u == v
  {
    VoucherCanonical.ReadEscaped(x, u);
    VoucherCanonical.ReadEscaped(y, v);
  }

  function NatCode(n: nat): string {
    if n == 0 then "." else "1" + NatCode(n - 1)
  }

  lemma {:induction false} NatCodeSplits(m: nat, n: nat, u: string, v: string)
    requires NatCode(m) + u == NatCode(n) + v
    ensures m == n && u == v
  {
    var s := NatCode(m) + u;
    assert s[0] == NatCode(m)[0] == NatCode(n)[0];
    if m != 0 {
      assert s[1..] == NatCode(m - 1) + u && s[1..] == NatCode(n - 1) + v;
      NatCodeSplits(m - 1, n - 1, u, v);
    } else {
      assert s[1..] == u && s[1..] == v;
    }
  }

  predicate Whole(r: real) {
    r == r.Floor as real
  }

  function Magnitude(n: int): nat {
    if n >= 0 then n else -n
  }

  function NumberCode(r: real): string {
    (if r.Floor >= 0 then "+" else "-") + NatCode(Magnitude(r.Floor))
  }

  lemma NumberCodeSplits(x: real, y: real, u: string, v: string)
    requires Whole(x) && Whole(y) && NumberCode(x) + u == NumberCode(y) + v
    ensures x == y && u == v
  {
    var m, n := Magnitude(x.Floor), Magnitude(y.Floor);
    Headless(if x.Floor >= 0 then "+" else "-", NatCode(m), "", u);
    Headless(if y.Floor >= 0 then "+" else "-", NatCode(n), "", v);
    NatCodeSplits(m, n, u, v);
    assert x.Floor == y.Floor;
  }

  /** A code that starts with one character, and what follows it. */
  lemma Headless(head: string, a: string, b: string, u: string)
    requires |head| == 1
    ensures (head + (a + b)) + u != [] && ((head + (a + b)) + u)[0] == head[0] && ((head + (a + b)) + u)[1..] == a + (b + u)
    ensures b == "" ==> head + (a + b) == head + a && a + (b + u) == a + u
  {
    assert b == "" ==> a + b == a && b + u == u;
  }

  function TextsCode(xs: seq<string>): string {
    if xs == [] then "." else "," + (TextCode(xs[0]) + TextsCode(xs[1..]))
  }

  lemma TextsHead(xs: seq<string>, u: string)
    ensures (TextsCode(xs) + u)[0] == if xs == [] then '.' else ','
  {
  }

  lemma {:induction false} TextsCodeSplits(x: seq<string>, y: seq<string>, u: string, v: string)
    requires TextsCode(x) + u == TextsCode(y) + v
    ensures x == y && u == v
  {
    TextsHead(x, u);
    TextsHead(y, v);
    if x == [] {
      assert ("." + u)[1..] == u && ("." + v)[1..] == v;
    } else {
      Headless(",", TextCode(x[0]), TextsCode(x[1..]), u);
      Headless(",", TextCode(y[0]), TextsCode(y[1..]), v);
      TextCodeSplits(x[0], y[0], TextsCode(x[1..]) + u, TextsCode(y[1..]) + v);
      TextsCodeSplits(x[1..], y[1..], u, v);
      assert x == [x[0]] + x[1..] && y == [y[0]] + y[1..];
    }
  }

  function TagsCode(tags: seq<seq<string>>): string {
    if tags == [] then "." else "," + (TextsCode(tags[0]) + TagsCode(tags[1..]))
  }

  lemma TagsHead(xs: seq<seq<string>>, u: string)
    ensures (TagsCode(xs) + u)[0] == if xs == [] then '.' else ','
  {
  }

  lemma {:induction false} TagsCodeSplits(x: seq<seq<string>>, y: seq<seq<string>>, u: string, v: string)
    requires TagsCode(x) + u == TagsCode(y) + v
    ensures x == y && u == v
  {
    TagsHead(x, u);
    TagsHead(y, v);
    if x == [] {
      assert ("." + u)[1..] == u && ("." + v)[1..] == v;
    } else {
      Headless(",", TextsCode(x[0]), TagsCode(x[1..]), u);
      Headless(",", TextsCode(y[0]), TagsCode(y[1..]), v);
      TextsCodeSplits(x[0], y[0], TagsCode(x[1..]) + u, TagsCode(y[1..]) + v);
      TagsCodeSplits(x[1..], y[1..], u, v);
      assert x == [x[0]] + x[1..] && y == [y[0]] + y[1..];
    }
  }

  // ------------------------------------------------------------------ events and bodies

  /** The texts of an event in order, its numbers and its tags. */
  function EventCode(e: Event): string {
    TextsCode([e.id, e.pubkey, e.content, e.sig]) + (NumberCode(e.createdAt) + (NumberCode(e.kind) + TagsCode(e.tags)))
  }

  lemma EventCodeIsInjective(x: Event, y: Event)
    requires Whole(x.createdAt) && Whole(x.kind) && Whole(y.createdAt) && Whole(y.kind) && EventCode(x) == EventCode(y)
    ensures x == y
  {
    var xs, ys := [x.id, x.pubkey, x.content, x.sig], [y.id, y.pubkey, y.content, y.sig];
    var u, v := NumberCode(x.kind) + TagsCode(x.tags), NumberCode(y.kind) + TagsCode(y.tags);
    TextsCodeSplits(xs, ys, NumberCode(x.createdAt) + u, NumberCode(y.createdAt) + v);
    NumberCodeSplits(x.createdAt, y.createdAt, u, v);
    NumberCodeSplits(x.kind, y.kind, TagsCode(x.tags), TagsCode(y.tags));
    assert TagsCode(x.tags) + "" == TagsCode(y.tags) + "";
    TagsCodeSplits(x.tags, y.tags, "", "");
    assert xs[0] == ys[0] && xs[1] == ys[1] && xs[2] == ys[2] && xs[3] == ys[3];
  }

  /** Every text of a body; the flags are told by what is there. */
  function BodyTexts(b: Body): seq<string> {
    [b.challengeId, if b.stepUp then "1" else ""] +
    if b.voucher.None? then []
    else
      var c := b.voucher.value;
      [c.mintUrl, c.keysetId, c.secret, c.signature, c.e, c.s, c.r] + if c.lockWitness.Some? then [c.lockWitness.value] else []
  }

  function BodyCode(b: Body): string {
    TextsCode(BodyTexts(b)) + if b.voucher.Some? then NumberCode(b.voucher.value.amount) else ""
  }

  lemma BodyTextsTellApart(x: Body, y: Body)
    requires BodyTexts(x) == BodyTexts(y)
    ensures x.challengeId == y.challengeId && x.stepUp == y.stepUp && (x.voucher.Some? <==> y.voucher.Some?)
    ensures x.voucher.Some? ==> x.voucher.value == y.voucher.value.(amount := x.voucher.value.amount)
  {
    var s, t := BodyTexts(x), BodyTexts(y);
    assert s[0] == t[0] && s[1] == t[1];
    if x.voucher.Some? {
      assert s[2] == t[2] && s[3] == t[3] && s[4] == t[4] && s[5] == t[5] && s[6] == t[6] && s[7] == t[7] && s[8] == t[8];
      if x.voucher.value.lockWitness.Some? {
        assert s[9] == t[9];
      }
    }
  }

  lemma BodyCodeIsInjective(x: Body, y: Body)
    requires (x.voucher.Some? ==> Whole(x.voucher.value.amount)) && (y.voucher.Some? ==> Whole(y.voucher.value.amount))
    requires BodyCode(x) == BodyCode(y)
    ensures x == y
  {
    var u, v := if x.voucher.Some? then NumberCode(x.voucher.value.amount) else "", if y.voucher.Some? then NumberCode(y.voucher.value.amount) else "";
    TextsCodeSplits(BodyTexts(x), BodyTexts(y), u, v);
    BodyTextsTellApart(x, y);
    if x.voucher.Some? {
      assert u + "" == v + "";
      NumberCodeSplits(x.voucher.value.amount, y.voucher.value.amount, "", "");
    }
  }

  // ---------------------------------------------------------------------------- JSON

  ghost predicate WritesEvent(e: Event, v: Json) {
    Whole(e.createdAt) && Whole(e.kind) && EventJson(e) == v
  }

  ghost predicate WritesBody(b: Body, v: Json) {
    (b.voucher.Some? ==> Whole(b.voucher.value.amount)) && BodyJson(b) == v
  }

  ghost function Stringify(v: Json): string {
    if exists e :: WritesEvent(e, v) then (var e :| WritesEvent(e, v); "{e" + EventCode(e))
    else if exists b :: WritesBody(b, v) then (var b :| WritesBody(b, v); "{b" + BodyCode(b))
    else ""
  }

  ghost predicate SpellsEvent(e: Event, text: string) {
    Whole(e.createdAt) && Whole(e.kind) && text == "{e" + EventCode(e)
  }

  ghost predicate SpellsBody(b: Body, text: string) {
    (b.voucher.Some? ==> Whole(b.voucher.value.amount)) && text == "{b" + BodyCode(b)
  }

  ghost function Parse(text: string): Option<Json> {
    if exists e :: SpellsEvent(e, text) then (var e :| SpellsEvent(e, text); Some(EventJson(e)))
    else if exists b :: SpellsBody(b, text) then (var b :| SpellsBody(b, text); Some(BodyJson(b)))
    else None
  }

  lemma Headed(x: string, y: string)
    ensures "{e" + x != "{b" + y
    ensures "{e" + x == "{e" + y ==> x == y
    ensures "{b" + x == "{b" + y ==> x == y
  {
    assert ("{e" + x)[1] != ("{b" + y)[1];
    assert ("{e" + x)[2..] == x && ("{e" + y)[2..] == y && ("{b" + x)[2..] == x && ("{b" + y)[2..] == y;
  }

  lemma EventSpellingReads(e: Event)
    requires Whole(e.createdAt) && Whole(e.kind)
    ensures Parse("{e" + EventCode(e)) == Some(EventJson(e))
  {
    var text := "{e" + EventCode(e);
    assert SpellsEvent(e, text);
    forall d | SpellsEvent(d, text) ensures d == e {
      Headed(EventCode(d), EventCode(e));
      EventCodeIsInjective(d, e);
    }
  }

  lemma BodySpellingReads(b: Body)
    requires b.voucher.Some? ==> Whole(b.voucher.value.amount)
    ensures Parse("{b" + BodyCode(b)) == Some(BodyJson(b))
  {
    var text := "{b" + BodyCode(b);
    assert SpellsBody(b, text);
    forall e ensures !SpellsEvent(e, text) {
      Headed(EventCode(e), BodyCode(b));
    }
    forall d | SpellsBody(d, text) ensures d == b {
      Headed(BodyCode(d), BodyCode(b));
      BodyCodeIsInjective(d, b);
    }
  }

  lemma WrittenReads(v: Json)
    requires (exists e :: WritesEvent(e, v)) || (exists b :: WritesBody(b, v))
    ensures Parse(Stringify(v)) == Some(v) && Stringify(v) != [] && Stringify(v)[0] == '{'
  {
    if exists e :: WritesEvent(e, v) {
      forall e | WritesEvent(e, v) ensures Parse("{e" + EventCode(e)) == Some(v) {
        EventSpellingReads(e);
      }
    } else {
      forall b | WritesBody(b, v) ensures Parse("{b" + BodyCode(b)) == Some(v) {
        BodySpellingReads(b);
      }
    }
  }

  // ---------------------------------------------------------------------------- text

  function EncodeChar(c: char): seq<byte> {
    var n := c as int;
    [(n / 65536) as byte, (n / 256 % 256) as byte, (n % 256) as byte]
  }

  function DecodeChar(a: byte, b: byte, c: byte): char {
    var n := a as int * 65536 + b as int * 256 + c as int;
    if n < 0xD800 || 0xE000 <= n < 0x11_0000 then n as char else '?'
  }

  function EncodeText(s: string): seq<byte> {
    if s == [] then [] else EncodeChar(s[0]) + EncodeText(s[1..])
  }

  function DecodeText(bytes: seq<byte>): string {
    if |bytes| < 3 then [] else [DecodeChar(bytes[0], bytes[1], bytes[2])] + DecodeText(bytes[3..])
  }

  lemma CharDecodes(c: char)
    ensures DecodeChar(EncodeChar(c)[0], EncodeChar(c)[1], EncodeChar(c)[2]) == c
  {
    var n := c as int;
    var m := n / 256;
    assert n == 256 * m + n % 256 && m == 256 * (m / 256) + m % 256 && n / 65536 == m / 256;
  }

  lemma {:induction false} TextDecodes(s: string)
    ensures DecodeText(EncodeText(s)) == s
  {
    if s != [] {
      CharDecodes(s[0]);
      TextDecodes(s[1..]);
      assert EncodeText(s)[3..] == EncodeText(s[1..]);
    }
  }

  // ------------------------------------------------------------------------ the witness

  /** The laws can be met, together with an honest signer. */
  lemma LawsCanBeMet() returns (p: Platform, signer: Template -> Event)
    ensures Lawful(p) && Honest(p, signer)
  {
    p := Platform(r => Whole(r), v => Stringify(v), t => Parse(t), s => EncodeText(s), b => DecodeText(b),
                  b => [], s => Some(s), s => s, e => true);
    signer := (t: Template) => Event("", "", t.createdAt, t.kind, t.tags, t.content, "");
    forall e: Event | EventExists(p, e) ensures ReadsBack(p, EventJson(e)) {
      assert WritesEvent(e, EventJson(e));
      WrittenReads(EventJson(e));
    }
    forall b: Body | BodyExists(p, b) ensures ReadsBack(p, BodyJson(b)) {
      assert WritesBody(b, BodyJson(b));
      WrittenReads(BodyJson(b));
    }
    forall s ensures DecodesBack(p, s) {
      TextDecodes(s);
    }
    forall t ensures SignsAsAsked(p, signer, t) {
    }
  }
}
