/** What the codec promises: reading undoes writing, and which texts are the spelling of their bytes. */
module Base64RoundTrips {
  import opened Options
  import opened Text
  import opened Hex
  import opened Base64

  // --------------------------------------------------------------------- one group

  /** The one to three bytes of a group. */
  function Present(b1: byte, b2: byte, b3: byte, left: nat): seq<byte> {
    [b1] + (if left > 1 then [b2] else []) + (if left > 2 then [b3] else [])
  }

  lemma SextetsUndone(b1: byte, b2: byte, b3: byte)
    ensures var s := Sextets(b1, b2, b3); Octets(s.0, s.1, s.2, s.3) == (b1, b2, b3)
  {
    var n1, n2, n3 := b1 as nat, b2 as nat, b3 as nat;
    Base64.Divided(n1 % 4 * 16 + n2 / 16, 16, n1 % 4, n2 / 16);
    Base64.Divided(n2 % 16 * 4 + n3 / 64, 4, n2 % 16, n3 / 64);
  }

  lemma QuadReadBack(b1: byte, b2: byte, b3: byte, left: nat)
    requires left > 0 && (left <= 1 ==> b2 == 0) && (left <= 2 ==> b3 == 0)
    ensures QuadBytes(QuadOf(b1, b2, b3, left)) == Some(Present(b1, b2, b3, left))
  {
    var s := Sextets(b1, b2, b3);
    SextetsUndone(b1, b2, b3);
    LookupOfSymbol(s.0);
    LookupOfSymbol(s.1);
    LookupOfSymbol(s.2);
    LookupOfSymbol(s.3);
  }

  /** The bits that the padding says are not there are zero. */
  predicate NoStrayBits(q: string)
    requires |q| == 4
  {
    && (q[2] == '=' ==> Lookup(q[1]).Some? && Lookup(q[1]).value % 16 == 0)
    && (q[2] != '=' && q[3] == '=' ==> Lookup(q[2]).Some? && Lookup(q[2]).value % 4 == 0)
  }

  lemma OctetsUndone(v1: nat, v2: nat, v3: nat, v4: nat)
    requires v1 < 64 && v2 < 64 && v3 < 64 && v4 < 64
    ensures var o := Octets(v1, v2, v3, v4); Sextets(o.0, o.1, o.2) == (v1, v2, v3, v4)
  {
    Base64.Divided(v1 * 4 + v2 / 16, 4, v1, v2 / 16);
    Base64.Divided(v2 % 16 * 16 + v3 / 4, 16, v2 % 16, v3 / 4);
    Base64.Divided(v3 % 4 * 64 + v4, 64, v3 % 4, v4);
  }

  lemma QuadWrittenBack(q: string)
    requires |q| == 4 && QuadBytes(q).Some? && (q[2] == '=' ==> q[3] == '=')
    ensures var b := QuadBytes(q).value;
            QuadOf(b[0], ByteAt(b, 1), ByteAt(b, 2), |b|) == q <==> NoStrayBits(q)
  {
    var b := QuadBytes(q).value;
    var v1, v2, v3, v4 := Lookup(q[0]).value, Lookup(q[1]).value, ValueOf(q[2]).value, ValueOf(q[3]).value;
    OctetsUndone(v1, v2, v3, v4);
    var s := Sextets(b[0], ByteAt(b, 1), ByteAt(b, 2));
    assert s.0 == v1;
    assert q[2] != '=' ==> s.1 == v2;
    assert q[3] != '=' ==> s.2 == v3 && s.3 == v4;
    assert q[2] == '=' ==> s.1 == v2 - v2 % 16;
    assert q[2] != '=' && q[3] == '=' ==> s.2 == v3 - v3 % 4;
    SymbolOfLookup(q[0]);
    SymbolOfLookup(q[1]);
    LookupOfSymbol(s.1);
    LookupOfSymbol(s.2);
    if q[2] != '=' {
      SymbolOfLookup(q[2]);
    }
    if q[3] != '=' {
      SymbolOfLookup(q[3]);
    }
  }

  // ------------------------------------------------------------- decode after encode

  lemma {:induction false} EncodedQuad(bytes: seq<byte>, k: nat, i: nat)
    requires i < k <= Groups(|bytes|)
    ensures 3 * i < |bytes| && EncodeFirst(bytes, k)[4 * i..4 * i + 4] == QuadAt(bytes, i)
  {
    if i < k - 1 {
      EncodedQuad(bytes, k - 1, i);
    }
  }

  /** The characters of one group: symbols, or padding in the last two places of the last group. */
  lemma QuadChar(bytes: seq<byte>, i: nat, m: nat)
    requires 3 * i < |bytes| && m < 4
    ensures |QuadAt(bytes, i)| == 4
    ensures var c := QuadAt(bytes, i)[m];
            && !IsSpace(c)
            && (c == '=' || Lookup(c).Some?)
            && (c == '=' ==> m >= 2 && |bytes| < 3 * i + 3 && QuadAt(bytes, i)[3] == '=')
  {
    var s := Sextets(bytes[3 * i], ByteAt(bytes, 3 * i + 1), ByteAt(bytes, 3 * i + 2));
    LookupOfSymbol(s.0);
    LookupOfSymbol(s.1);
    LookupOfSymbol(s.2);
    LookupOfSymbol(s.3);
  }

  lemma CharInQuad(bytes: seq<byte>, i: nat, m: nat)
    requires i < Groups(|bytes|) && m < 4
    ensures 3 * i < |bytes| && |QuadAt(bytes, i)| == 4 && 4 * i + m < |Encode(bytes)|
    ensures Encode(bytes)[4 * i + m] == QuadAt(bytes, i)[m]
  {
    EncodedQuad(bytes, Groups(|bytes|), i);
    assert Encode(bytes)[4 * i..4 * i + 4][m] == Encode(bytes)[4 * i + m];
  }

  /** A character of an encoding is a symbol, or padding in one of the last two places. */
  lemma EncodedChar(bytes: seq<byte>, j: nat)
    requires j < |Encode(bytes)|
    ensures var c := Encode(bytes)[j];
            && !IsSpace(c)
            && (c == '=' || Lookup(c).Some?)
            && (c == '=' ==> |Encode(bytes)| - 2 <= j && Encode(bytes)[|Encode(bytes)| - 1] == '=')
  {
    var i, m, n := j / 4, j % 4, Groups(|bytes|);
    assert j == 4 * i + m && |Encode(bytes)| == 4 * n;
    CharInQuad(bytes, i, m);
    CharInQuad(bytes, n - 1, 3);
    QuadChar(bytes, i, m);
  }

  ghost predicate NoSpace(s: string) {
    forall c | c in s :: !IsSpace(c)
  }

  lemma {:induction false} SanitizedIsSpaceFree(s: string)
    ensures NoSpace(Sanitize(s)) && |Sanitize(s)| <= |s| && (Sanitize(s) == s <==> NoSpace(s))
  {
    if s != [] {
      SanitizedIsSpaceFree(s[1..]);
      assert s == [s[0]] + s[1..];
    }
  }

  lemma EncodedIsWellPadded(bytes: seq<byte>)
    ensures Sanitize(Encode(bytes)) == Encode(bytes) && PaddingOk(Encode(bytes))
  {
    var e := Encode(bytes);
    forall j | 0 <= j < |e| ensures !IsSpace(e[j]) && (e[j] == '=' ==> |e| - 2 <= j && e[|e| - 1] == '=') {
      EncodedChar(bytes, j);
    }
    SanitizedIsSpaceFree(e);
  }

  lemma GroupReadBack(bytes: seq<byte>, i: nat)
    requires 3 * i < |bytes|
    ensures QuadBytes(QuadAt(bytes, i)) == Some(bytes[3 * i..Min(3 * i + 3, |bytes|)])
  {
    var left := |bytes| - 3 * i;
    QuadReadBack(bytes[3 * i], ByteAt(bytes, 3 * i + 1), ByteAt(bytes, 3 * i + 2), left);
    assert bytes[3 * i..Min(3 * i + 3, |bytes|)] == Present(bytes[3 * i], ByteAt(bytes, 3 * i + 1), ByteAt(bytes, 3 * i + 2), left);
  }

  lemma GroupDecoded(bytes: seq<byte>, i: nat)
    requires i < Groups(|bytes|)
    ensures 3 * i < |bytes| && 4 * i + 4 <= |Encode(bytes)|
    ensures QuadBytes(Encode(bytes)[4 * i..4 * i + 4]) == Some(bytes[3 * i..Min(3 * i + 3, |bytes|)])
  {
    EncodedQuad(bytes, Groups(|bytes|), i);
    GroupReadBack(bytes, i);
  }

  /** The bytes of the first groups, and of one group more. */
  function FirstGroups(bytes: seq<byte>, k: nat): seq<byte> {
    bytes[..Min(3 * k, |bytes|)]
  }

  lemma OneGroupMore(bytes: seq<byte>, i: nat)
    requires 3 * i < |bytes|
    ensures FirstGroups(bytes, i + 1) == FirstGroups(bytes, i) + bytes[3 * i..Min(3 * i + 3, |bytes|)]
  {
  }

  lemma {:induction false} DecodeFirstOfEncoded(bytes: seq<byte>, k: nat)
    requires k <= Groups(|bytes|)
    ensures DecodeFirst(Encode(bytes), k) == Some(FirstGroups(bytes, k))
  {
    if k != 0 {
      var i := k - 1;
      DecodeFirstOfEncoded(bytes, i);
      GroupDecoded(bytes, i);
      DecodeStep(Encode(bytes), i, FirstGroups(bytes, i), bytes[3 * i..Min(3 * i + 3, |bytes|)]);
      OneGroupMore(bytes, i);
    }
  }

  lemma DecodeStep(s: string, i: nat, before: seq<byte>, own: seq<byte>)
    requires 4 * i + 4 <= |s| && DecodeFirst(s, i) == Some(before) && QuadBytes(s[4 * i..4 * i + 4]) == Some(own)
    ensures DecodeFirst(s, i + 1) == Some(before + own)
  {
    assert s[4 * (i + 1) - 4..4 * (i + 1)] == s[4 * i..4 * i + 4];
  }

  /** Decoding an encoding gives the bytes back, whatever they are. */
  lemma DecodeOfEncode(bytes: seq<byte>)
    ensures Decode(Encode(bytes)) == Some(bytes)
  {
    EncodedIsWellPadded(bytes);
    EncodedDecodes(bytes, Groups(|bytes|));
    assert |Encode(bytes)| == 4 * Groups(|bytes|);
    DecodeSanitized(Encode(bytes), Groups(|bytes|));
  }

  lemma EncodedDecodes(bytes: seq<byte>, groups: nat)
    requires groups == Groups(|bytes|)
    ensures DecodeFirst(Encode(bytes), groups) == Some(bytes)
  {
    DecodeFirstOfEncoded(bytes, groups);
    assert bytes[..Min(3 * groups, |bytes|)] == bytes;
  }

  lemma DecodeSanitized(s: string, quads: nat)
    requires |s| == 4 * quads && Sanitize(s) == s && PaddingOk(s)
    ensures Decode(s) == DecodeFirst(s, quads)
  {
    assert |s| % 4 == 0 && |s| / 4 == quads;
  }

  // ------------------------------------------------------------- encode after decode

  /** What group `i` contributes stays where it is as more groups are read. */
  lemma {:induction false} DecodedPrefix(s: string, k: nat, i: nat)
    requires i <= k && 4 * k <= |s| && DecodeFirst(s, k).Some?
    ensures DecodeFirst(s, i).Some? && DecodeFirst(s, i).value <= DecodeFirst(s, k).value
  {
    if i < k {
      DecodedPrefix(s, k - 1, i);
    }
  }

  /** Each group of characters contributes its bytes at three times its position. */
  lemma DecodedGroup(s: string, quads: nat, i: nat)
    requires |s| == 4 * quads && i < quads && PaddingOk(s) && DecodeFirst(s, quads).Some?
    ensures var b, q := DecodeFirst(s, quads).value, QuadBytes(s[4 * i..4 * i + 4]);
            && q.Some? && 3 * i + |q.value| <= |b| && b[3 * i..3 * i + |q.value|] == q.value
            && (i + 1 == quads ==> 3 * i + |q.value| == |b|)
            && (i + 1 < quads ==> |q.value| == 3)
  {
    DecodedPrefix(s, quads, i);
    DecodedPrefix(s, quads, i + 1);
    DecodedLength(s, quads, i);
    DecodedLength(s, quads, i + 1);
    LastGroup(s, i);
    var before, own := DecodeFirst(s, i).value, QuadBytes(s[4 * i..4 * i + 4]).value;
    assert DecodeFirst(s, i + 1).value[3 * i..] == own;
  }

  lemma LastGroup(s: string, i: nat)
    requires 4 * i + 4 <= |s| && DecodeFirst(s, i + 1).Some?
    ensures DecodeFirst(s, i).Some? && QuadBytes(s[4 * i..4 * i + 4]).Some?
    ensures DecodeFirst(s, i + 1).value == DecodeFirst(s, i).value + QuadBytes(s[4 * i..4 * i + 4]).value
  {
    assert s[4 * (i + 1) - 4..4 * (i + 1)] == s[4 * i..4 * i + 4];
  }

  ghost predicate Canonical(s: string) {
    NoSpace(s) && (s == [] || (|s| >= 4 && NoStrayBits(s[|s| - 4..])))
  }

  /** The group read from place `i` is written back as it was, unless it is the last and has stray bits. */
  lemma GroupWrittenBack(s: string, quads: nat, b: seq<byte>, i: nat)
    requires |s| == 4 * quads && i < quads && PaddingOk(s) && DecodeFirst(s, quads) == Some(b)
    ensures 3 * i < |b|
    ensures var q := s[4 * i..4 * i + 4];
            && (QuadAt(b, i) == q <==> NoStrayBits(q))
            && (i + 1 < quads ==> NoStrayBits(q))
  {
    var q := s[4 * i..4 * i + 4];
    assert q[2] == s[4 * i + 2] && q[3] == s[4 * i + 3];
    DecodedGroup(s, quads, i);
    DecodedLength(s, quads, quads);
    var own := QuadBytes(q).value;
    QuadWrittenBack(q);
    var there := b[3 * i..3 * i + |own|];
    assert own[0] == there[0] == b[3 * i];
    if |own| > 1 {
      assert own[1] == there[1] == b[3 * i + 1];
    }
    if |own| > 2 {
      assert own[2] == there[2] == b[3 * i + 2];
    }
  }

  /** If every one of the first `k` groups is written back, so is the text they make. */
  lemma {:induction false} GroupsJoin(s: string, b: seq<byte>, k: nat)
    requires k <= Groups(|b|) && 4 * k <= |s|
    requires forall i: nat | i < k :: SameGroup(s, b, i)
    ensures EncodeFirst(b, k) == s[..4 * k]
  {
    if k != 0 {
      GroupsJoin(s, b, k - 1);
      assert SameGroup(s, b, k - 1);
      assert s[..4 * k] == s[..4 * (k - 1)] + s[4 * (k - 1)..4 * (k - 1) + 4];
    }
  }

  ghost predicate SameGroup(s: string, b: seq<byte>, i: nat) {
    3 * i < |b| && 4 * i + 4 <= |s| && QuadAt(b, i) == s[4 * i..4 * i + 4]
  }

  lemma FullGroupsWrittenBack(s: string, quads: nat, b: seq<byte>, k: nat)
    requires |s| == 4 * quads && k < quads == Groups(|b|) && PaddingOk(s) && DecodeFirst(s, quads) == Some(b)
    ensures EncodeFirst(b, k) == s[..4 * k]
  {
    forall i: nat | i < k ensures SameGroup(s, b, i) {
      GroupWrittenBack(s, quads, b, i);
    }
    GroupsJoin(s, b, k);
  }

  lemma AllGroupsWrittenBack(s: string, quads: nat, b: seq<byte>)
    requires |s| == 4 * quads && 0 < quads == Groups(|b|) && PaddingOk(s) && DecodeFirst(s, quads) == Some(b)
    ensures Encode(b) == s <==> NoStrayBits(s[|s| - 4..])
  {
    var k := quads - 1;
    FullGroupsWrittenBack(s, quads, b, k);
    GroupWrittenBack(s, quads, b, k);
    var q, e := s[4 * k..4 * k + 4], Encode(b);
    assert q == s[|s| - 4..];
    assert e == s[..4 * k] + QuadAt(b, k) && s == s[..4 * k] + q;
    assert e[4 * k..] == QuadAt(b, k) && s[4 * k..] == q;
  }

  /** A text that decodes is the encoding of its bytes exactly when it has no white space and no stray bits. */
  lemma EncodeOfDecode(s: string)
    requires Decode(s).Some?
    ensures Encode(Decode(s).value) == s <==> Canonical(s)
  {
    var b := Decode(s).value;
    SanitizedIsSpaceFree(s);
    EncodedIsWellPadded(b);
    SanitizedIsSpaceFree(Encode(b));
    if NoSpace(s) && s != [] {
      var quads := |s| / 4;
      DecodedLength(s, quads, quads);
      PaddingFits(s, quads);
      AllGroupsWrittenBack(s, quads, b);
    }
  }

  lemma PaddingFits(s: string, quads: nat)
    requires |s| == 4 * quads && PaddingOk(s)
    ensures Groups(3 * quads - PaddingOf(s)) == quads
  {
  }

  // --------------------------------------------------------------- what is accepted

  /** The sixty-four symbols of section 4 of RFC 4648, sixteen to a row. */
  const ALPHABET: seq<string> := ["ABCDEFGHIJKLMNOP", "QRSTUVWXYZabcdef", "ghijklmnopqrstuv", "wxyz0123456789+/"]

  /** The last row of section 5. */
  const URL_LAST_ROW: string := "wxyz0123456789-_"

  lemma AlphabetsAreNamed(v: nat)
    requires v < 64
    ensures Symbol(v) == ALPHABET[v / 16][v % 16]
    ensures UrlChar(Symbol(v)) == if v < 48 then ALPHABET[v / 16][v % 16] else URL_LAST_ROW[v % 16]
  {
    if v < 16 {
      assert v % 16 == v;
    } else if v < 32 {
      assert v % 16 == v - 16;
    } else if v < 48 {
      assert v % 16 == v - 32;
    } else {
      assert v % 16 == v - 48;
    }
  }

  /** A symbol, or padding in one of the last two places with padding after it. */
  predicate Fits(s: string, i: nat)
    requires i < |s|
  {
    Lookup(s[i]).Some? || (s[i] == '=' && (i + 1 == |s| || (i + 2 == |s| && s[i + 1] == '=')))
  }

  /** No text but groups of four symbols, the last one perhaps padded, is decoded, whatever white space is in it. */
  lemma AcceptedExactly(value: string)
    ensures var s := Sanitize(value);
            Decode(value).Some? <==> |s| % 4 == 0 && forall i | 0 <= i < |s| :: Fits(s, i)
  {
    var s := Sanitize(value);
    if |s| % 4 == 0 {
      PaddingFitsExactly(s);
      if PaddingOk(s) {
        GroupsDecode(s, |s| / 4);
      }
    }
  }

  lemma PaddingFitsExactly(s: string)
    ensures PaddingOk(s) <==> forall i | 0 <= i < |s| && s[i] == '=' :: Fits(s, i)
  {
    if forall i | 0 <= i < |s| && s[i] == '=' :: Fits(s, i) {
      forall i | 0 <= i < |s| && s[i] == '=' ensures |s| - 2 <= i && forall j | i <= j < |s| :: s[j] == '=' {
        assert Fits(s, i);
      }
    }
    if PaddingOk(s) {
      forall i | 0 <= i < |s| && s[i] == '=' ensures Fits(s, i) {
        assert i + 1 < |s| ==> s[i + 1] == '=';
      }
    }
  }

  /** With the padding in its place, the first `k` groups decode exactly when each of their characters fits. */
  lemma {:induction false} GroupsDecode(s: string, k: nat)
    requires 4 * k <= |s| && |s| % 4 == 0 && PaddingOk(s)
    ensures DecodeFirst(s, k).Some? <==> forall i | 0 <= i < 4 * k :: Fits(s, i)
  {
    if k != 0 {
      GroupsDecode(s, k - 1);
      GroupDecodes(s, k - 1);
      assert s[4 * (k - 1)..4 * (k - 1) + 4] == s[4 * k - 4..4 * k];
    }
  }

  lemma GroupDecodes(s: string, k: nat)
    requires 4 * k + 4 <= |s| && |s| % 4 == 0 && PaddingOk(s)
    ensures QuadBytes(s[4 * k..4 * k + 4]).Some? <==>
              Fits(s, 4 * k) && Fits(s, 4 * k + 1) && Fits(s, 4 * k + 2) && Fits(s, 4 * k + 3)
  {
    PaddingFitsExactly(s);
    var q := s[4 * k..4 * k + 4];
    assert q[0] == s[4 * k] && q[1] == s[4 * k + 1] && q[2] == s[4 * k + 2] && q[3] == s[4 * k + 3];
    assert Lookup('=').None?;
  }

  /** White space anywhere makes no difference, and nothing else is left out. */
  lemma {:induction false} WhiteSpaceIsIgnored(s: string, c: char, t: string)
    ensures Sanitize(s + [c] + t) == if IsSpace(c) then Sanitize(s + t) else Sanitize(s) + [c] + Sanitize(t)
  {
    if s == [] {
      assert s + [c] + t == [c] + t && ([c] + t)[1..] == t && s + t == t;
    } else {
      assert (s + [c] + t)[1..] == s[1..] + [c] + t && (s + t)[1..] == s[1..] + t;
      WhiteSpaceIsIgnored(s[1..], c, t);
    }
  }

  // ----------------------------------------------------------------------- base64url

  function UrlChar(c: char): char {
    if c == '+' then '-' else if c == '/' then '_' else c
  }

  function Urls(s: string): string {
    seq(|s|, i requires 0 <= i < |s| => UrlChar(s[i]))
  }

  function StripPadding(s: string): string {
    if s != [] && s[|s| - 1] == '=' then StripPadding(s[..|s| - 1]) else s
  }

  /** `encodeBase64UrlBytes`. */
  function EncodeUrl(bytes: seq<byte>): string {
    StripPadding(Urls(Encode(bytes)))
  }

  /** Stripping takes away a tail of padding, and all of it. */
  lemma {:induction false} Stripped(s: string)
    ensures var t := StripPadding(s);
            && t <= s && (t != [] ==> t[|t| - 1] != '=')
            && (forall j | |t| <= j < |s| :: s[j] == '=')
  {
    if s != [] && s[|s| - 1] == '=' {
      Stripped(s[..|s| - 1]);
    }
  }

  /** At most two characters are stripped from an encoding. */
  lemma StrippedByTwo(bytes: seq<byte>)
    ensures var e := Encode(bytes); |e| - 2 <= |EncodeUrl(bytes)| <= |e|
    ensures EncodeUrl(bytes) <= Urls(Encode(bytes))
    ensures forall j | |EncodeUrl(bytes)| <= j < |Encode(bytes)| :: Encode(bytes)[j] == '='
  {
    var e := Encode(bytes);
    Stripped(Urls(e));
    forall j | |EncodeUrl(bytes)| <= j < |e| ensures e[j] == '=' {
      assert Urls(e)[j] == '=';
    }
    if 3 <= |e| {
      EncodedChar(bytes, |e| - 3);
    }
  }

  lemma SameLength(m: nat, n: nat, p: nat, q: nat)
    requires p <= 2 && q <= 2 && 4 * m - p == 4 * n - q
    ensures m == n
  {
  }

  /** Without its padding a base64url text still determines the bytes. */
  lemma UrlIsInjective(a: seq<byte>, b: seq<byte>)
    requires EncodeUrl(a) == EncodeUrl(b)
    ensures a == b
  {
    var ea, eb, u := Encode(a), Encode(b), EncodeUrl(a);
    StrippedByTwo(a);
    StrippedByTwo(b);
    SameLength(Groups(|a|), Groups(|b|), |ea| - |u|, |eb| - |u|);
    forall j | 0 <= j < |ea| ensures ea[j] == eb[j] {
      EncodedChar(a, j);
      EncodedChar(b, j);
      if j < |u| {
        assert u[j] == Urls(ea)[j] == UrlChar(ea[j]) && u[j] == Urls(eb)[j] == UrlChar(eb[j]);
      }
    }
    assert ea == eb;
    DecodeOfEncode(a);
    DecodeOfEncode(b);
  }
}
