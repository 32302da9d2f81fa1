/** Hexadecimal: `bytesToHex`, and what `hexToBytes` makes of a string. */
module Hex {
  import opened Options
  import opened Text

  newtype byte = b: int | 0 <= b < 256

  predicate IsHexDigit(c: char) {
    '0' <= c <= '9' || 'a' <= c <= 'f'
  }

  predicate IsHex(s: string) {
    forall i | 0 <= i < |s| :: IsHexDigit(s[i])
  }

  function DigitValue(c: char): (v: nat)
    requires IsHexDigit(c)
    ensures v < 16
  {
    if c <= '9' then c as int - '0' as int else c as int - 'a' as int + 10
  }

  function Digit(v: nat): (c: char)
    requires v < 16
    ensures IsHexDigit(c) && DigitValue(c) == v
  {
    if v < 10 then ('0' as int + v) as char else ('a' as int + v - 10) as char
  }

  lemma DigitOfValue(c: char)
    requires IsHexDigit(c)
    ensures Digit(DigitValue(c)) == c
  {
  }

  function ByteToHex(b: byte): (s: string)
    ensures |s| == 2 && IsHex(s)
  {
    [Digit(b as int / 16), Digit(b as int % 16)]
  }

  /** The `i`th pair of characters. */
  function PairAt(s: string, i: nat): string
    requires 2 * i + 2 <= |s|
  {
    [s[2 * i], s[2 * i + 1]]
  }

  function BytesToHex(bytes: seq<byte>): (s: string)
    ensures |s| == 2 * |bytes|
  {
    if bytes == [] then [] else BytesToHex(bytes[..|bytes| - 1]) + ByteToHex(bytes[|bytes| - 1])
  }

  lemma {:induction false} WrittenPairs(bytes: seq<byte>)
    ensures forall i | 0 <= i < |bytes| :: PairAt(BytesToHex(bytes), i) == ByteToHex(bytes[i])
  {
    if bytes != [] {
      WrittenPairs(bytes[..|bytes| - 1]);
    }
  }

  /** Each byte is written as two of the sixteen digits, the high one first. */
  lemma BytesAreSpelled(bytes: seq<byte>, i: nat)
    requires i < |bytes|
    ensures var digits, n := "0123456789abcdef", bytes[i] as int;
            BytesToHex(bytes)[2 * i] == digits[n / 16] && BytesToHex(bytes)[2 * i + 1] == digits[n % 16]
  {
    WrittenPairs(bytes);
    var pair := PairAt(BytesToHex(bytes), i);
    assert pair[0] == Digit(bytes[i] as int / 16) && pair[1] == Digit(bytes[i] as int % 16);
    DigitIsNamed(bytes[i] as int / 16);
    DigitIsNamed(bytes[i] as int % 16);
  }

  lemma DigitIsNamed(v: nat)
    requires v < 16
    ensures Digit(v) == "0123456789abcdef"[v]
  {
  }

  lemma SamePairs(s: string, t: string)
    requires |s| == |t| && |s| % 2 == 0
    requires forall i | 0 <= i < |s| / 2 :: PairAt(s, i) == PairAt(t, i)
    ensures s == t
  {
    forall k | 0 <= k < |s| ensures s[k] == t[k] {
      assert PairAt(s, k / 2) == PairAt(t, k / 2);
      assert PairAt(s, k / 2)[k % 2] == s[k] && PairAt(t, k / 2)[k % 2] == t[k];
    }
  }

  /**
   * `Number.parseInt` in base 16 on a pair of characters: an optional sign or space, then as many digits
   * as there are. `None` is `NaN`.
   */
  function ParsePair(pair: string): Option<int>
    requires |pair| == 2
  {
    var a, b := pair[0], pair[1];
    if IsHexDigit(a) then
      if IsHexDigit(b) then Some(16 * DigitValue(a) + DigitValue(b))
      else if a == '0' && b == 'x' then None
      else Some(DigitValue(a))
    else if !IsHexDigit(b) then None
    else if a == '-' then var v: int := DigitValue(b); Some(-v)
    else if a == '+' || IsSpace(a) then Some(DigitValue(b))
    else None
  }

  /** Which pairs are read, and as what: two digits, a digit before anything but the `x` of `0x`, or one after a sign or space. */
  lemma PairsAreRead(a: char, b: char)
    ensures ParsePair([a, b]).Some? <==>
              || (IsHexDigit(a) && !(a == '0' && b == 'x'))
              || (IsHexDigit(b) && (a == '-' || a == '+' || IsSpace(a)))
    ensures IsHexDigit(a) && ParsePair([a, b]).Some? ==>
              ParsePair([a, b]).value == if IsHexDigit(b) then 16 * DigitValue(a) + DigitValue(b) else DigitValue(a)
    ensures !IsHexDigit(a) && ParsePair([a, b]).Some? ==>
              ParsePair([a, b]).value == if a == '-' then -(DigitValue(b) as int) else DigitValue(b)
  {
    assert !IsHexDigit('x') && !IsHexDigit('-') && !IsHexDigit('+');
  }

  /** What storing a number in a byte array keeps of it. */
  function ToByte(n: int): byte {
    (n % 256) as byte
  }

  /** The bytes the first `n` pairs of a string stand for, or `None` if one of them is not a number. */
  function ParsePairs(s: string, n: nat): (r: Option<seq<byte>>)
    requires 2 * n <= |s|
    ensures r.Some? ==> |r.value| == n
  {
    if n == 0 then Some([])
    else
      var before, pair := ParsePairs(s, n - 1), ParsePair(PairAt(s, n - 1));
      if before.Some? && pair.Some? then Some(before.value + [ToByte(pair.value)]) else None
  }

  lemma {:induction false} ParsedPairs(s: string, n: nat)
    requires 2 * n <= |s|
    ensures ParsePairs(s, n).Some? <==> forall i | 0 <= i < n :: ParsePair(PairAt(s, i)).Some?
    ensures ParsePairs(s, n).Some? ==> forall i | 0 <= i < n :: ParsePairs(s, n).value[i] == ToByte(ParsePair(PairAt(s, i)).value)
  {
    if n != 0 {
      ParsedPairs(s, n - 1);
    }
  }

  /** A character that is two code units once lower-cased: outside the basic plane, or a dotted capital I. */
  predicate Wide(c: char) {
    c as int >= 0x1_0000 || c as int == 0x130
  }

  predicate HasWide(s: string) {
    exists i | 0 <= i < |s| :: Wide(s[i])
  }

  /** Stands for a code unit that is neither a digit, nor a sign, nor white space. */
  const OTHER: char := '?'

  /** The code units of a text, either unit of a wide character as `OTHER`. */
  function CodeUnits(s: string): string {
    if s == [] then [] else (if Wide(s[0]) then [OTHER, OTHER] else [s[0]]) + CodeUnits(s[1..])
  }

  lemma {:induction false} NarrowIsItself(s: string)
    requires !HasWide(s)
    ensures CodeUnits(s) == s
  {
    if s != [] {
      assert !Wide(s[0]) && forall i | 0 <= i < |s[1..]| :: s[1..][i] == s[i + 1];
      NarrowIsItself(s[1..]);
    }
  }

  predicate OthersAt(units: string, i: nat) {
    i + 1 < |units| && units[i] == OTHER && units[i + 1] == OTHER
  }

  lemma {:induction false} WideIsTwoOthers(s: string) returns (i: nat)
    requires HasWide(s)
    ensures OthersAt(CodeUnits(s), i)
  {
    if Wide(s[0]) {
      i := 0;
    } else {
      var k :| 0 <= k < |s| && Wide(s[k]);
      assert s[1..][k - 1] == s[k];
      i := WideIsTwoOthers(s[1..]);
      i := i + 1;
    }
  }

  function Parse(hex: string): Option<seq<byte>> {
    var normalized := CodeUnits(Normal(hex));
    if |normalized| % 2 != 0 then None else ParsePairs(normalized, |normalized| / 2)
  }

  lemma OthersAreRefused(units: string, i: nat)
    requires OthersAt(units, i) && |units| % 2 == 0
    ensures ParsePairs(units, |units| / 2).None?
  {
    var pair := PairAt(units, (i + 1) / 2);
    assert pair[0] == OTHER && ParsePair(pair).None?;
    ParsedPairs(units, |units| / 2);
  }

  /** Nothing with a wide character is accepted: one of its units starts a pair, or their number is odd. */
  lemma AcceptedIsNarrow(hex: string)
    requires Parse(hex).Some?
    ensures !HasWide(Normal(hex)) && CodeUnits(Normal(hex)) == Normal(hex)
  {
    if HasWide(Normal(hex)) {
      var i := WideIsTwoOthers(Normal(hex));
      OthersAreRefused(CodeUnits(Normal(hex)), i);
    } else {
      NarrowIsItself(Normal(hex));
    }
  }

  /** `hexToBytes`; `None` is the thrown error. */
  method HexToBytes(hex: string) returns (r: Option<seq<byte>>)
    ensures r == Parse(hex)
  {
    var normalized := CodeUnits(Normal(hex));
    if |normalized| % 2 != 0 {
      return None;
    }
    r := PairsToBytes(normalized, |normalized| / 2);
  }

  method PairsToBytes(s: string, length: nat) returns (r: Option<seq<byte>>)
    requires |s| == 2 * length
    ensures r == ParsePairs(s, length)
  {
    var bytes := new byte[length];
    for pairs := 0 to length
      invariant ParsePairs(s, pairs) == Some(bytes[..pairs])
    {
      var value := ParsePair(PairAt(s, pairs));
      if value.None? {
        ParsedPairs(s, length);
        return None;
      }
      bytes[pairs] := ToByte(value.value);
      assert bytes[..pairs + 1] == bytes[..pairs] + [bytes[pairs]];
    }
    assert bytes[..length] == bytes[..];
    r := Some(bytes[..]);
  }

  // ------------------------------------------------------------------- round trips

  lemma HexIsNormal(s: string)
    requires IsHex(s)
    ensures Normal(s) == s && CodeUnits(s) == s
  {
    PlainEndsStay(s);
    assert Lower(s) == s;
    NarrowIsItself(s);
  }

  lemma TwoDigits(high: nat, low: nat)
    requires high < 16 && low < 16
    ensures ToByte(16 * high + low) as int == 16 * high + low
    ensures ByteToHex(ToByte(16 * high + low)) == [Digit(high), Digit(low)]
  {
  }

  /** A pair is the spelling of its byte exactly when both characters are digits. */
  lemma PairWrittenBack(pair: string)
    requires |pair| == 2 && ParsePair(pair).Some?
    ensures ByteToHex(ToByte(ParsePair(pair).value)) == pair <==> IsHex(pair)
  {
    if IsHex(pair) {
      DigitOfValue(pair[0]);
      DigitOfValue(pair[1]);
      TwoDigits(DigitValue(pair[0]), DigitValue(pair[1]));
    }
  }

  lemma PairReadBack(b: byte)
    ensures ParsePair(ByteToHex(b)) == Some(b as int) && ToByte(b as int) == b
  {
  }

  lemma HexOfPairs(s: string)
    requires |s| % 2 == 0
    ensures IsHex(s) <==> forall i | 0 <= i < |s| / 2 :: IsHex(PairAt(s, i))
  {
    if forall i | 0 <= i < |s| / 2 :: IsHex(PairAt(s, i)) {
      forall k | 0 <= k < |s| ensures IsHexDigit(s[k]) {
        assert IsHex(PairAt(s, k / 2)) && PairAt(s, k / 2)[k % 2] == s[k];
      }
    }
  }

  lemma PairsReadBack(bytes: seq<byte>)
    ensures ParsePairs(BytesToHex(bytes), |bytes|) == Some(bytes)
  {
    var s := BytesToHex(bytes);
    WrittenPairs(bytes);
    forall i | 0 <= i < |bytes| ensures ParsePair(PairAt(s, i)) == Some(bytes[i] as int) && ToByte(bytes[i] as int) == bytes[i] {
      PairReadBack(bytes[i]);
    }
    ParsedPairs(s, |bytes|);
    assert ParsePairs(s, |bytes|).value == bytes;
  }

  lemma WrittenIsHex(bytes: seq<byte>)
    ensures IsHex(BytesToHex(bytes))
  {
    WrittenPairs(bytes);
    HexOfPairs(BytesToHex(bytes));
  }

  /** Reading back what was written gives the same bytes. */
  lemma HexRoundTrip(bytes: seq<byte>)
    ensures Parse(BytesToHex(bytes)) == Some(bytes)
  {
    var s := BytesToHex(bytes);
    WrittenIsHex(bytes);
    HexIsNormal(s);
    PairsReadBack(bytes);
    assert |s| / 2 == |bytes|;
  }

  /**
   * The parser is laxer than its error message: it accepts pairs such as `1g` or `-1`. A string it
   * accepts is the spelling of the bytes it returns exactly when it holds hexadecimal digits only.
   */
  lemma AcceptedHexIsFaithful(hex: string)
    requires Parse(hex).Some?
    ensures BytesToHex(Parse(hex).value) == Normal(hex) <==> IsHex(Normal(hex))
  {
    var s, bytes := Normal(hex), Parse(hex).value;
    AcceptedIsNarrow(hex);
    ParsedPairs(s, |bytes|);
    WrittenPairs(bytes);
    HexOfPairs(s);
    WrittenIsHex(bytes);
    forall i | 0 <= i < |bytes| ensures ByteToHex(bytes[i]) == PairAt(s, i) <==> IsHex(PairAt(s, i)) {
      PairWrittenBack(PairAt(s, i));
    }
    if IsHex(s) {
      SamePairs(BytesToHex(bytes), s);
    }
  }

  lemma LaxPairs()
    ensures ParsePair("1g") == Some(1) && ParsePair("-1") == Some(-1) && ToByte(-1) == 255
    ensures Parse("1g").Some? && Parse("-1").Some? && !IsHex("1g") && !IsHex("-1")
  {
    PlainEndsStay("1g");
    PlainEndsStay("-1");
    assert Lower("1g") == "1g" && Lower("-1") == "-1";
    NarrowIsItself("1g");
    NarrowIsItself("-1");
    assert PairAt("1g", 0) == "1g" && PairAt("-1", 0) == "-1";
    assert !IsHexDigit("1g"[1]) && !IsHexDigit("-1"[0]);
  }

  // ------------------------------------------------------------------- numbers

  /** The number a string of digits spells. */
  function Number(s: string): nat
    requires IsHex(s)
  {
    if s == [] then 0 else 16 * Number(s[..|s| - 1]) + DigitValue(s[|s| - 1])
  }

  /** `n` written with exactly `width` digits. */
  function Spell(n: nat, width: nat): (s: string)
    ensures |s| == width && IsHex(s)
  {
    if width == 0 then [] else Spell(n / 16, width - 1) + [Digit(n % 16)]
  }

  function Power16(k: nat): nat {
    if k == 0 then 1 else 16 * Power16(k - 1)
  }

  lemma {:induction false} NumberOfSpelling(n: nat, width: nat)
    requires n < Power16(width)
    ensures Number(Spell(n, width)) == n
  {
    if width != 0 {
      NumberOfSpelling(n / 16, width - 1);
      var s := Spell(n, width);
      assert s[..|s| - 1] == Spell(n / 16, width - 1);
    }
  }

  lemma {:induction false} SpellingOfNumber(s: string)
    requires IsHex(s)
    ensures Number(s) < Power16(|s|) && Spell(Number(s), |s|) == s
  {
    if s != [] {
      var front, last := s[..|s| - 1], s[|s| - 1];
      SpellingOfNumber(front);
      DigitOfValue(last);
      assert Number(s) / 16 == Number(front) && Number(s) % 16 == DigitValue(last);
      assert s == front + [last];
    }
  }
}
