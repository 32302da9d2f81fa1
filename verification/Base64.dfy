/** Base64 and base64url (sections 4 and 5 of RFC 4648), as the byte codec writes and reads them. */
module Base64 {
  import opened Options
  import opened Text
  import opened Hex

  // ------------------------------------------------------------------------ alphabet

  /** The symbol at position `v` of the alphabet. */
  function Symbol(v: nat): char
    requires v < 64
  {
    if v < 26 then ('A' as int + v) as char
    else if v < 52 then ('a' as int + v - 26) as char
    else if v < 62 then ('0' as int + v - 52) as char
    else if v == 62 then '+' else '/'
  }

  /** The position of a character in the alphabet. */
  function Lookup(c: char): (v: Option<nat>)
    ensures v.Some? ==> v.value < 64
  {
    if 'A' <= c <= 'Z' then Some(c as int - 'A' as int)
    else if 'a' <= c <= 'z' then Some(c as int - 'a' as int + 26)
    else if '0' <= c <= '9' then Some(c as int - '0' as int + 52)
    else if c == '+' then Some(62)
    else if c == '/' then Some(63) else None
  }

  lemma LookupOfSymbol(v: nat)
    requires v < 64
    ensures Lookup(Symbol(v)) == Some(v) && Symbol(v) != '=' && !IsSpace(Symbol(v))
  {
  }

  lemma SymbolOfLookup(c: char)
    requires Lookup(c).Some?
    ensures Symbol(Lookup(c).value) == c && c != '=' && !IsSpace(c)
  {
  }

  // ------------------------------------------------------------------------ encoding

  /** The four groups of six bits of three bytes. */
  function Sextets(b1: byte, b2: byte, b3: byte): (s: (nat, nat, nat, nat))
    ensures s.0 < 64 && s.1 < 64 && s.2 < 64 && s.3 < 64
  {
    var (n1, n2, n3) := (b1 as nat, b2 as nat, b3 as nat);
    (n1 / 4, n1 % 4 * 16 + n2 / 16, n2 % 16 * 4 + n3 / 64, n3 % 64)
  }

  /** They are the shifts and masks of the 24-bit chunk. */
  lemma SextetsOfChunk(b1: byte, b2: byte, b3: byte)
    ensures var chunk, s := b1 as nat * 65536 + b2 as nat * 256 + b3 as nat, Sextets(b1, b2, b3);
            s == (chunk / 262144 % 64, chunk / 4096 % 64, chunk / 64 % 64, chunk % 64)
  {
    var chunk, s := b1 as nat * 65536 + b2 as nat * 256 + b3 as nat, Sextets(b1, b2, b3);
    Divided(chunk, 262144, s.0, b1 as nat % 4 * 65536 + b2 as nat * 256 + b3 as nat);
    Divided(chunk, 4096, s.0 * 64 + s.1, b2 as nat % 16 * 256 + b3 as nat);
    Divided(chunk, 64, s.0 * 4096 + s.1 * 64 + s.2, s.3);
    Divided(s.0 * 64 + s.1, 64, s.0, s.1);
    Divided(s.0 * 4096 + s.1 * 64 + s.2, 64, s.0 * 64 + s.1, s.2);
  }

  lemma Divided(n: nat, d: nat, q: nat, r: nat)
    requires n == d * q + r && r < d
    ensures n / d == q && n % d == r
  {
    var q', r' := n / d, n % d;
    assert d * (q - q') == r' - r;
    assert q - q' >= 1 ==> d * (q - q') >= d;
    assert q - q' <= -1 ==> d * (q - q') <= -(d as int);
  }

  /** Four characters for three bytes, of which `left` were there; `=` stands for a missing one. */
  function QuadOf(b1: byte, b2: byte, b3: byte, left: nat): (q: string)
    ensures |q| == 4
  {
    var s := Sextets(b1, b2, b3);
    [Symbol(s.0), Symbol(s.1), if left > 1 then Symbol(s.2) else '=', if left > 2 then Symbol(s.3) else '=']
  }

  function ByteAt(bytes: seq<byte>, i: nat): byte {
    if i < |bytes| then bytes[i] else 0
  }

  /** The characters for the `i`th three bytes. */
  function QuadAt(bytes: seq<byte>, i: nat): (q: string)
    requires 3 * i < |bytes|
    ensures |q| == 4
  {
    QuadOf(bytes[3 * i], ByteAt(bytes, 3 * i + 1), ByteAt(bytes, 3 * i + 2), |bytes| - 3 * i)
  }

  /** How many groups of three the bytes make, the last one perhaps short. */
  function Groups(length: nat): nat {
    (length + 2) / 3
  }

  function EncodeFirst(bytes: seq<byte>, k: nat): (s: string)
    requires k <= Groups(|bytes|)
    ensures |s| == 4 * k
  {
    if k == 0 then [] else EncodeFirst(bytes, k - 1) + QuadAt(bytes, k - 1)
  }

  function Encode(bytes: seq<byte>): string {
    EncodeFirst(bytes, Groups(|bytes|))
  }

  /** `encodeBase64Bytes`. */
  method EncodeBytes(bytes: seq<byte>) returns (result: string)
    ensures result == Encode(bytes)
  {
    result := "";
    var index := 0;
    ghost var k := 0;
    while index < |bytes|
      invariant index == 3 * k && k <= Groups(|bytes|)
      invariant result == EncodeFirst(bytes, k)
    {
      result := result + QuadOf(bytes[index], ByteAt(bytes, index + 1), ByteAt(bytes, index + 2), |bytes| - index);
      index := index + 3;
      k := k + 1;
    }
  }

  // ------------------------------------------------------------------------ decoding

  /** The text without its white space. */
  function Sanitize(s: string): string {
    if s == [] then [] else (if IsSpace(s[0]) then [] else [s[0]]) + Sanitize(s[1..])
  }

  /** `=` appears only as a tail of one or two. */
  predicate PaddingOk(s: string) {
    forall i | 0 <= i < |s| && s[i] == '=' :: |s| - 2 <= i && (forall j | i <= j < |s| :: s[j] == '=')
  }

  function PaddingOf(s: string): (p: nat)
    ensures p <= 2
  {
    if |s| >= 2 && s[|s| - 2] == '=' && s[|s| - 1] == '=' then 2 else if |s| >= 1 && s[|s| - 1] == '=' then 1 else 0
  }

  function ValueOf(c: char): (v: Option<nat>)
    ensures v.Some? ==> v.value < 64
  {
    if c == '=' then Some(0) else Lookup(c)
  }

  /** The three bytes of four groups of six bits. */
  function Octets(v1: nat, v2: nat, v3: nat, v4: nat): (byte, byte, byte)
    requires v1 < 64 && v2 < 64 && v3 < 64 && v4 < 64
  {
    ((v1 * 4 + v2 / 16) as byte, (v2 % 16 * 16 + v3 / 4) as byte, (v3 % 4 * 64 + v4) as byte)
  }

  /** They are the shifts and masks of the 24-bit chunk. */
  lemma OctetsOfChunk(v1: nat, v2: nat, v3: nat, v4: nat, chunk: nat)
    requires v1 < 64 && v2 < 64 && v3 < 64 && v4 < 64
    requires chunk == v1 * 262144 + v2 * 4096 + v3 * 64 + v4
    ensures Octets(v1, v2, v3, v4).0 as int == chunk / 65536 % 256
    ensures Octets(v1, v2, v3, v4).1 as int == chunk / 256 % 256
    ensures Octets(v1, v2, v3, v4).2 as int == chunk % 256
  {
    var o := Octets(v1, v2, v3, v4);
    var o0, o1, o2 := o.0 as nat, o.1 as nat, o.2 as nat;
    ChunkOfOctets(v1, v2 / 16, v2 % 16, v3 / 4, v3 % 4, v4);
    Divided(chunk, 65536, o0, o1 * 256 + o2);
    Divided(chunk, 256, o0 * 256 + o1, o2);
    Divided(o0 * 256 + o1, 256, o0, o1);
  }

  lemma ChunkOfOctets(v1: nat, high2: nat, low2: nat, high3: nat, low3: nat, v4: nat)
    ensures v1 * 262144 + (16 * high2 + low2) * 4096 + (4 * high3 + low3) * 64 + v4
            == (v1 * 4 + high2) * 65536 + (low2 * 16 + high3) * 256 + (low3 * 64 + v4)
  {
  }

  /** The bytes of four characters: one fewer for each `=` in third and fourth place. */
  function QuadBytes(q: string): Option<seq<byte>>
    requires |q| == 4
  {
    var v1, v2, v3, v4 := Lookup(q[0]), Lookup(q[1]), ValueOf(q[2]), ValueOf(q[3]);
    if v1.None? || v2.None? || v3.None? || v4.None? then None
    else
      var o := Octets(v1.value, v2.value, v3.value, v4.value);
      Some([o.0] + (if q[2] != '=' then [o.1] else []) + (if q[3] != '=' then [o.2] else []))
  }

  function DecodeFirst(s: string, k: nat): Option<seq<byte>>
    requires 4 * k <= |s|
  {
    if k == 0 then Some([])
    else
      var before, quad := DecodeFirst(s, k - 1), QuadBytes(s[4 * k - 4..4 * k]);
      if before.Some? && quad.Some? then Some(before.value + quad.value) else None
  }

  function Decode(value: string): Option<seq<byte>> {
    var s := Sanitize(value);
    if |s| % 4 != 0 || !PaddingOk(s) then None else DecodeFirst(s, |s| / 4)
  }

  lemma {:induction false} DecodePrefix(s: string, j: nat, k: nat)
    requires j <= k && 4 * k <= |s| && DecodeFirst(s, j).None?
    ensures DecodeFirst(s, k).None?
  {
    if j < k {
      DecodePrefix(s, j, k - 1);
    }
  }

  /** What `k` groups give: three bytes each, but for the padding of the last one. */
  lemma {:induction false} DecodedLength(s: string, quads: nat, k: nat)
    requires |s| == 4 * quads && k <= quads && PaddingOk(s) && DecodeFirst(s, k).Some?
    ensures |DecodeFirst(s, k).value| == 3 * k - if k == quads then PaddingOf(s) else 0
  {
    if k != 0 {
      DecodedLength(s, quads, k - 1);
      var q := s[4 * k - 4..4 * k];
      assert q[0] == s[4 * k - 4] && q[1] == s[4 * k - 3] && q[2] == s[4 * k - 2] && q[3] == s[4 * k - 1];
      assert k < quads ==> q[2] != '=' && q[3] != '=';
      assert q[2] == '=' ==> q[3] == '=';
      assert k == quads ==> PaddingOf(s) == if q[2] == '=' then 2 else if q[3] == '=' then 1 else 0;
      assert QuadBytes(q).Some? && |QuadBytes(q).value| == if q[2] == '=' then 1 else if q[3] == '=' then 2 else 3;
    }
  }

  lemma PaddingNeedsAQuad(s: string, k: nat)
    requires |s| == 4 * k && PaddingOk(s) && k > 0
    ensures PaddingOf(s) <= 3 * k
  {
  }

  /** The first slots, in order. */
  function Slots(count: nat): seq<nat> {
    seq(count, n => n)
  }

  /**
   * `decodeBase64Bytes`; `None` is a thrown error. The output is allocated before the loop at the size
   * the length and the padding call for, and `writes`, the slots written in the order of the writes,
   * are then all of its slots, each once and in order.
   */
  method DecodeBytes(value: string) returns (r: Option<seq<byte>>, ghost writes: seq<nat>)
    ensures r == Decode(value)
    ensures r.Some? ==> writes == Slots(|r.value|)
  {
    var sanitized := Sanitize(value);
    if |sanitized| == 0 {
      return Some([]), [];
    }
    if |sanitized| % 4 != 0 || !PaddingOk(sanitized) {
      return None, [];
    }
    r, writes := DecodeQuads(sanitized, |sanitized| / 4);
  }

  /** Write the given bytes from slot `at` on, right behind the writes so far. */
  method Store(output: array<byte>, at: nat, bytes: seq<byte>, ghost before: seq<nat>) returns (next: nat, ghost writes: seq<nat>)
    requires at + |bytes| <= output.Length && before == Slots(at)
    modifies output
    ensures next == at + |bytes| && output[..next] == old(output[..at]) + bytes
    ensures writes == Slots(next)
  {
    writes := before;
    for n := 0 to |bytes|
      invariant output[..at + n] == old(output[..at]) + bytes[..n]
      invariant writes == Slots(at + n)
    {
      output[at + n] := bytes[n];
      writes := writes + [at + n];
      assert output[..at + n + 1] == output[..at + n] + [bytes[n]];
    }
    assert bytes[..|bytes|] == bytes;
    next := at + |bytes|;
  }

  /** One group more: the bytes after it, which still fit the output, or no bytes at all. */
  lemma NextQuad(s: string, quads: nat, k: nat)
    requires |s| == 4 * quads && PaddingOk(s) && k < quads && DecodeFirst(s, k).Some?
    ensures var quad := QuadBytes(s[4 * k..4 * k + 4]);
            if quad.None? then DecodeFirst(s, quads).None?
            else
              && DecodeFirst(s, k + 1) == Some(DecodeFirst(s, k).value + quad.value)
              && |DecodeFirst(s, k).value| + |quad.value| <= 3 * quads - PaddingOf(s)
  {
    assert s[4 * (k + 1) - 4..4 * (k + 1)] == s[4 * k..4 * k + 4];
    if QuadBytes(s[4 * k..4 * k + 4]).None? {
      DecodePrefix(s, k + 1, quads);
    } else {
      DecodedLength(s, quads, k + 1);
    }
  }

  /** The output has the size of the result, and every one of its slots is written exactly once, in order. */
  method DecodeQuads(s: string, quads: nat) returns (r: Option<seq<byte>>, ghost writes: seq<nat>)
    requires |s| == 4 * quads && PaddingOk(s) && quads > 0
    ensures r == DecodeFirst(s, quads)
    ensures r.Some? ==> |r.value| == 3 * quads - PaddingOf(s) && writes == Slots(|r.value|)
  {
    PaddingNeedsAQuad(s, quads);
    var output := new byte[3 * quads - PaddingOf(s)];
    var outputIndex := 0;
    writes := [];
    for k := 0 to quads
      invariant 0 <= outputIndex <= output.Length
      invariant DecodeFirst(s, k) == Some(output[..outputIndex])
      invariant writes == Slots(outputIndex)
    {
      NextQuad(s, quads, k);
      var quad := QuadBytes(s[4 * k..4 * k + 4]);
      if quad.None? {
        return None, writes;
      }
      outputIndex, writes := Store(output, outputIndex, quad.value, writes);
    }
    DecodedLength(s, quads, quads);
    assert output[..outputIndex] == output[..];
    r := Some(output[..]);
  }
}
