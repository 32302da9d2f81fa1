/** `TextEncoder`: the UTF-8 encoding of text, and what it makes of lone surrogates. */
module Utf8 {
  import opened Hex

  /** One character in one to four bytes. */
  function EncodeChar(c: char): (r: seq<byte>)
    ensures 1 <= |r| <= 4
  {
    var n := c as int;
    if n < 0x80 then [n as byte]
    else if n < 0x800 then [(0xC0 + n / 64) as byte, Continued(n)]
    else if n < 0x1_0000 then [(0xE0 + n / 4096) as byte, Continued(n / 64), Continued(n)]
    else [(0xF0 + n / 262144) as byte, Continued(n / 4096), Continued(n / 64), Continued(n)]
  }

  /** A continuation byte holds the last six bits. */
  function Continued(n: nat): byte {
    (0x80 + n % 64) as byte
  }

  /** How many bytes a character takes is told by its first one. */
  function Width(b: byte): nat {
    if b < 0x80 then 1 else if b < 0xE0 then 2 else if b < 0xF0 then 3 else 4
  }

  lemma WidthOfChar(c: char)
    ensures |EncodeChar(c)| == Width(EncodeChar(c)[0])
  {
  }

  lemma LastSixBits(m: nat, n: nat)
    requires m / 64 == n / 64 && Continued(m) == Continued(n)
    ensures m == n
  {
    assert m == 64 * (m / 64) + m % 64 && n == 64 * (n / 64) + n % 64;
  }

  lemma Quotients(n: nat)
    ensures n / 64 / 64 == n / 4096 && n / 4096 / 64 == n / 262144
  {
  }

  /** Different characters are encoded differently. */
  lemma CharIsEncodedOnce(c: char, d: char)
    requires EncodeChar(c) == EncodeChar(d)
    ensures c == d
  {
    WidthOfChar(c);
    WidthOfChar(d);
    var m, n := c as int, d as int;
    Quotients(m);
    Quotients(n);
    var e, f := EncodeChar(c), EncodeChar(d);
    if |e| == 2 {
      assert e[0] == f[0] && e[1] == f[1];
      LastSixBits(m, n);
    } else if |e| == 3 {
      assert e[0] == f[0] && e[1] == f[1] && e[2] == f[2];
      LastSixBits(m / 64, n / 64);
      LastSixBits(m, n);
    } else if |e| == 4 {
      assert e[0] == f[0] && e[1] == f[1] && e[2] == f[2] && e[3] == f[3];
      LastSixBits(m / 4096, n / 4096);
      LastSixBits(m / 64, n / 64);
      LastSixBits(m, n);
    } else {
      assert e[0] == f[0];
    }
  }

  function Encode(s: string): seq<byte> {
    if s == [] then [] else EncodeChar(s[0]) + Encode(s[1..])
  }

  lemma FirstCharIsRead(c: char, d: char, e: seq<byte>, f: seq<byte>)
    requires EncodeChar(c) + e == EncodeChar(d) + f
    ensures c == d && e == f
  {
    var whole := EncodeChar(c) + e;
    WidthOfChar(c);
    WidthOfChar(d);
    assert whole[0] == EncodeChar(c)[0] && whole[0] == EncodeChar(d)[0];
    assert whole[..|EncodeChar(c)|] == EncodeChar(c) && whole[..|EncodeChar(d)|] == EncodeChar(d);
    CharIsEncodedOnce(c, d);
    assert whole[|EncodeChar(c)|..] == e && whole[|EncodeChar(d)|..] == f;
  }

  /** A byte that continues a character, holding these six bits. */
  predicate Holds(b: byte, bits: nat) {
    b as int == 0x80 + bits && bits < 64
  }

  /** The four forms of the encoding: the first byte tells the length, and the bits come highest first. */
  lemma CharIsUtf8(c: char, high: nat, middle: nat, low: nat, last: nat)
    requires middle < 64 && low < 64 && last < 64 && c as int == ((high * 64 + middle) * 64 + low) * 64 + last
    ensures var e, n := EncodeChar(c), c as int;
            && (n < 0x80 ==> e == [n as byte])
            && (0x80 <= n < 0x800 ==> |e| == 2 && e[0] as int == 0xC0 + low && Holds(e[1], last))
            && (0x800 <= n < 0x1_0000 ==> |e| == 3 && e[0] as int == 0xE0 + middle && Holds(e[1], low) && Holds(e[2], last))
            && (0x1_0000 <= n ==> |e| == 4 && e[0] as int == 0xF0 + high && Holds(e[1], middle) && Holds(e[2], low) && Holds(e[3], last))
  {
    var n, m := c as int, (high * 64 + middle) * 64 + low;
    Quotients(n);
    assert n / 64 == m && n % 64 == last;
    assert m / 64 == high * 64 + middle && m % 64 == low;
    assert (high * 64 + middle) / 64 == high && (high * 64 + middle) % 64 == middle;
  }

  /** A text is encoded character by character, in order. */
  lemma {:induction false} TextIsEncodedInOrder(s: string, c: char)
    ensures Encode(s + [c]) == Encode(s) + EncodeChar(c)
  {
    if s == [] {
      assert ([c] + [])[1..] == [] && s + [c] == [c];
    } else {
      assert (s + [c])[1..] == s[1..] + [c];
      TextIsEncodedInOrder(s[1..], c);
    }
  }

  /** The bytes determine the text. */
  lemma {:induction false} EncodingIsInjective(s: string, t: string)
    requires Encode(s) == Encode(t)
    ensures s == t
  {
    if s != [] && t != [] {
      FirstCharIsRead(s[0], t[0], Encode(s[1..]), Encode(t[1..]));
      EncodingIsInjective(s[1..], t[1..]);
      assert s == [s[0]] + s[1..] && t == [t[0]] + t[1..];
    }
  }

  // ------------------------------------------------------------------ lone surrogates

  /** A code point of a JavaScript string: a character, or a surrogate that is not part of a pair. */
  datatype Point = Scalar(c: char) | Lone(unit: nat)

  /** The text that is encoded in place of one with lone surrogates. */
  function Mended(t: seq<Point>): string {
    seq(|t|, i requires 0 <= i < |t| => if t[i].Scalar? then t[i].c else '\U{FFFD}')
  }

  /** The two points are one, or each is a lone surrogate or the character that replaces it. */
  predicate Alike(p: Point, q: Point) {
    p == q || ((p.Lone? || p.c == '\U{FFFD}') && (q.Lone? || q.c == '\U{FFFD}'))
  }

  predicate AllAlike(s: seq<Point>, t: seq<Point>) {
    |s| == |t| && forall i | 0 <= i < |s| :: Alike(s[i], t[i])
  }

  lemma MendedAlike(s: seq<Point>, t: seq<Point>)
    ensures Mended(s) == Mended(t) <==> AllAlike(s, t)
  {
    if Mended(s) == Mended(t) {
      assert |s| == |Mended(s)| == |t|;
      forall i | 0 <= i < |s| ensures Alike(s[i], t[i]) {
        assert Mended(s)[i] == Mended(t)[i];
      }
    }
  }

  /** Two texts have the same bytes exactly when they differ in nothing but lone surrogates and the
      character that replaces them. */
  lemma EncodedAlike(s: seq<Point>, t: seq<Point>)
    ensures Encode(Mended(s)) == Encode(Mended(t)) <==> AllAlike(s, t)
  {
    MendedAlike(s, t);
    if Encode(Mended(s)) == Encode(Mended(t)) {
      EncodingIsInjective(Mended(s), Mended(t));
    }
  }
}
