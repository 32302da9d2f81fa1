/** The comparison of secrets that looks at every byte. */
module ConstantTime {
  import opened Hex

  /** `^`, bit by bit. */
  function Xor(m: nat, n: nat): nat {
    if m == 0 && n == 0 then 0 else 2 * Xor(m / 2, n / 2) + if m % 2 == n % 2 then 0 else 1
  }

  /** `|`, bit by bit. */
  function Or(m: nat, n: nat): nat {
    if m == 0 && n == 0 then 0 else 2 * Or(m / 2, n / 2) + if m % 2 == 0 && n % 2 == 0 then 0 else 1
  }

  lemma {:induction false} XorIsZero(m: nat, n: nat)
    ensures Xor(m, n) == 0 <==> m == n
  {
    if m != 0 || n != 0 {
      XorIsZero(m / 2, n / 2);
      assert m == 2 * (m / 2) + m % 2 && n == 2 * (n / 2) + n % 2;
    }
  }

  lemma {:induction false} OrIsZero(m: nat, n: nat)
    ensures Or(m, n) == 0 <==> m == 0 && n == 0
  {
    if m != 0 || n != 0 {
      OrIsZero(m / 2, n / 2);
      assert m == 2 * (m / 2) + m % 2 && n == 2 * (n / 2) + n % 2;
    }
  }

  /** A byte, or 0 past the end. */
  function ByteAt(bytes: seq<byte>, i: nat): nat {
    if i < |bytes| then bytes[i] as nat else 0
  }

  /**
   * `constantTimeEquals`, on the encoded bytes. The lengths enter the difference first, so a text
   * that is a prefix of the other, or is followed by zero bytes only, is not equal to it.
   */
  method Equals(left: seq<byte>, right: seq<byte>) returns (equal: bool)
    ensures equal <==> left == right
  {
    var difference := Xor(|left|, |right|);
    XorIsZero(|left|, |right|);
    for index := 0 to |left|
      invariant difference == 0 <==> |left| == |right| && left[..index] == right[..if index <= |right| then index else |right|]
    {
      var x := Xor(ByteAt(left, index), ByteAt(right, index));
      XorIsZero(ByteAt(left, index), ByteAt(right, index));
      OrIsZero(difference, x);
      difference := Or(difference, x);
    }
    equal := difference == 0;
  }
}
