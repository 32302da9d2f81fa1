/**
 * NUT-12 DLEQ verification over an abstract prime-order group: the point encodings, the hash and
 * the curve test are parameters; the algebra, the scalar parsing and the control flow are the code's.
 */
module Dleq {
  import opened Options
  import opened Text
  import opened Hex
  import opened PrimeGroups

  const HASH_TO_CURVE_ATTEMPTS: nat := 0x0100_0000

  /** The `Secp256k1_HashToCurve_Cashu_` prefix. */
  const DOMAIN_SEPARATOR: seq<byte> := [
    83, 101, 99, 112, 50, 53, 54, 107, 49, 95, 72, 97, 115, 104, 84, 111, 67, 117, 114, 118, 101, 95, 67, 97, 115, 104, 117, 95]

  /**
   * `parse` reads a compressed point (`fromHex`); `compressed` and `uncompressed` write one and fail
   * at infinity; `sha` is SHA-256; `utf8` encodes text.
   */
  datatype Curve<!P> = Curve(
    group: Group<P>,
    parse: string -> Option<P>,
    compressed: P -> Option<string>,
    uncompressed: P -> Option<string>,
    sha: seq<byte> -> seq<byte>,
    utf8: string -> seq<byte>)

  predicate Encodes<P(==)>(c: Curve<P>, p: P) {
    if p == c.group.zero then c.compressed(p).None? && c.uncompressed(p).None?
    else c.compressed(p).Some? && c.uncompressed(p).Some?
         && Normal(c.compressed(p).value) == c.compressed(p).value
         && c.parse(c.compressed(p).value) == Some(p)
  }

  predicate HashesWell<P>(c: Curve<P>, bytes: seq<byte>) {
    |c.sha(bytes)| == 32
  }

  /** A written point reads back, infinity has no encoding, no encoding names it, and a scalar fits in 64 digits. */
  ghost predicate LawfulCurve<P(!new)>(c: Curve<P>) {
    && Lawful(c.group)
    && c.group.order <= Power16(64)
    && (forall p :: Encodes(c, p))
    && (forall s :: c.parse(s) != Some(c.group.zero))
    && (forall bytes :: HashesWell(c, bytes))
  }

  // ------------------------------------------------------------------------ parsing

  /** 64 lower-case digits of a number strictly between zero and the order. */
  function ParseScalar(order: nat, value: string): Option<nat> {
    var normal := Normal(value);
    if |normal| == 64 && IsHex(normal) && 0 < Number(normal) < order then Some(Number(normal)) else None
  }

  /** Two spellings that both parse name the same scalar only if they are the same digits. */
  lemma ScalarsHaveOneSpelling(order: nat, u: string, v: string)
    requires ParseScalar(order, u).Some? && ParseScalar(order, v).Some?
    ensures ParseScalar(order, u) == ParseScalar(order, v) <==> Normal(u) == Normal(v)
  {
    SpellingOfNumber(Normal(u));
    SpellingOfNumber(Normal(v));
  }

  lemma SpellingIsNormal(k: nat, width: nat)
    ensures Normal(Spell(k, width)) == Spell(k, width)
    ensures k < Power16(width) ==> Number(Spell(k, width)) == k
  {
    HexIsNormal(Spell(k, width));
    if k < Power16(width) {
      NumberOfSpelling(k, width);
    }
  }

  lemma ScalarOf(order: nat, value: string, k: nat)
    requires Normal(value) == value && |value| == 64 && IsHex(value) && Number(value) == k
    ensures ParseScalar(order, value) == if 0 < k < order then Some(k) else None
  {
  }

  /** Every scalar in range has a spelling that parses, and nothing out of range has one. */
  lemma ScalarRoundTrip(order: nat, k: nat)
    requires order <= Power16(64) && k < Power16(64)
    ensures ParseScalar(order, Spell(k, 64)) == if 0 < k < order then Some(k) else None
  {
    SpellingIsNormal(k, 64);
    ScalarOf(order, Spell(k, 64), k);
  }

  function ParsePoint<P>(c: Curve<P>, value: string): Option<P> {
    c.parse(Normal(value))
  }

  // ------------------------------------------------------------------- hash to curve

  function LittleEndian(n: nat): seq<byte>
    requires n < 0x1_0000_0000
  {
    var m := n / 256;
    [(n % 256) as byte, (m % 256) as byte, (m / 256 % 256) as byte, (m / 256 / 256) as byte]
  }

  function Candidate<P>(c: Curve<P>, secret: seq<byte>, counter: nat): Option<P>
    requires counter < HASH_TO_CURVE_ATTEMPTS
  {
    var messageHash := c.sha(DOMAIN_SEPARATOR + secret);
    c.parse(BytesToHex([2] + c.sha(messageHash + LittleEndian(counter))))
  }

  /** `hashToCurve`; `None` is the thrown error. */
  method HashToCurve<P>(c: Curve<P>, secret: seq<byte>) returns (r: Option<P>)
    ensures r == CurvePoint(c, secret, 0)
  {
    for counter := 0 to HASH_TO_CURVE_ATTEMPTS
      invariant CurvePoint(c, secret, 0) == CurvePoint(c, secret, counter)
    {
      var point := Candidate(c, secret, counter);
      if point.Some? {
        return point;
      }
    }
    r := None;
  }

  function CurvePoint<P>(c: Curve<P>, secret: seq<byte>, counter: nat): Option<P>
    requires counter <= HASH_TO_CURVE_ATTEMPTS
    decreases HASH_TO_CURVE_ATTEMPTS - counter
  {
    if counter == HASH_TO_CURVE_ATTEMPTS then None
    else if Candidate(c, secret, counter).Some? then Candidate(c, secret, counter)
    else CurvePoint(c, secret, counter + 1)
  }

  /** `counter` is the first from `from` on whose candidate lies on the curve. */
  ghost predicate FirstAt<P>(c: Curve<P>, secret: seq<byte>, from: nat, counter: nat) {
    && from <= counter < HASH_TO_CURVE_ATTEMPTS && Candidate(c, secret, counter).Some?
    && NoneBetween(c, secret, from, counter)
  }

  ghost predicate NoneBetween<P>(c: Curve<P>, secret: seq<byte>, from: nat, to: nat)
    requires to <= HASH_TO_CURVE_ATTEMPTS
  {
    forall k: nat | from <= k < to :: Candidate(c, secret, k).None?
  }

  lemma FirstFromBefore<P>(c: Curve<P>, secret: seq<byte>, from: nat, counter: nat)
    requires from < HASH_TO_CURVE_ATTEMPTS && Candidate(c, secret, from).None? && FirstAt(c, secret, from + 1, counter)
    ensures FirstAt(c, secret, from, counter)
  {
  }

  /** The loop stops at the least counter whose candidate lies on the curve, and fails only when none does. */
  lemma {:induction false} FirstCandidateWins<P>(c: Curve<P>, secret: seq<byte>, from: nat)
    requires from <= HASH_TO_CURVE_ATTEMPTS
    ensures CurvePoint(c, secret, from).None? ==> NoneBetween(c, secret, from, HASH_TO_CURVE_ATTEMPTS)
    ensures CurvePoint(c, secret, from).Some? ==>
              exists counter: nat :: FirstAt(c, secret, from, counter) && Candidate(c, secret, counter) == CurvePoint(c, secret, from)
    decreases HASH_TO_CURVE_ATTEMPTS - from
  {
    if from < HASH_TO_CURVE_ATTEMPTS {
      if Candidate(c, secret, from).Some? {
        assert FirstAt(c, secret, from, from);
      } else {
        FirstCandidateWins(c, secret, from + 1);
        if CurvePoint(c, secret, from).Some? {
          var counter: nat :| FirstAt(c, secret, from + 1, counter) && Candidate(c, secret, counter) == CurvePoint(c, secret, from + 1);
          FirstFromBefore(c, secret, from, counter);
        }
      }
    }
  }

  /** What is tried for a counter with these three low bytes: byte 2, then the hash of the hash of the prefixed secret and the counter. */
  function Trial<P>(c: Curve<P>, prefix: seq<byte>, secret: seq<byte>, b0: byte, b1: byte, b2: byte): string {
    "02" + BytesToHex(c.sha(c.sha(prefix + secret) + [b0, b1, b2, 0]))
  }

  /** The bytes of a text of plain characters. */
  predicate IsAscii(bytes: seq<byte>, text: string) {
    |bytes| == |text| && forall i | 0 <= i < |text| :: bytes[i] as int == text[i] as int
  }

  function CounterOf(b0: byte, b1: byte, b2: byte): nat {
    b0 as nat + 256 * b1 as nat + 65536 * b2 as nat
  }

  lemma {:induction false} HexOfMore(b: byte, bytes: seq<byte>)
    ensures BytesToHex([b] + bytes) == ByteToHex(b) + BytesToHex(bytes)
  {
    var whole := [b] + bytes;
    if bytes == [] {
      assert whole[..0] == [];
    } else {
      assert whole[..|whole| - 1] == [b] + bytes[..|bytes| - 1];
      HexOfMore(b, bytes[..|bytes| - 1]);
    }
  }

  lemma BytesOfCounter(b0: byte, b1: byte, b2: byte)
    ensures CounterOf(b0, b1, b2) < HASH_TO_CURVE_ATTEMPTS && LittleEndian(CounterOf(b0, b1, b2)) == [b0, b1, b2, 0]
  {
    var n, high := CounterOf(b0, b1, b2), b1 as nat + 256 * b2 as nat;
    assert n == 256 * high + b0 as nat && n / 256 == high && n % 256 == b0 as nat;
    assert high / 256 == b2 as nat && high % 256 == b1 as nat;
  }

  lemma CounterOfBytes(n: nat) returns (b0: byte, b1: byte, b2: byte)
    requires n < HASH_TO_CURVE_ATTEMPTS
    ensures CounterOf(b0, b1, b2) == n
  {
    b0, b1, b2 := (n % 256) as byte, (n / 256 % 256) as byte, (n / 256 / 256) as byte;
  }

  lemma CandidateIsTrial<P>(c: Curve<P>, secret: seq<byte>, b0: byte, b1: byte, b2: byte)
    ensures CounterOf(b0, b1, b2) < HASH_TO_CURVE_ATTEMPTS
    ensures Candidate(c, secret, CounterOf(b0, b1, b2)) == c.parse(Trial(c, DOMAIN_SEPARATOR, secret, b0, b1, b2))
  {
    BytesOfCounter(b0, b1, b2);
    HexOfMore(2, c.sha(c.sha(DOMAIN_SEPARATOR + secret) + [b0, b1, b2, 0]));
    assert ByteToHex(2) == "02";
  }

  /** No counter below this one gives a point. */
  ghost predicate NoneBelow<P>(c: Curve<P>, prefix: seq<byte>, secret: seq<byte>, counter: nat) {
    forall b0, b1, b2 | CounterOf(b0, b1, b2) < counter :: c.parse(Trial(c, prefix, secret, b0, b1, b2)).None?
  }

  lemma NoneBetweenTrials<P>(c: Curve<P>, secret: seq<byte>, counter: nat)
    requires counter <= HASH_TO_CURVE_ATTEMPTS
    ensures NoneBetween(c, secret, 0, counter) ==> NoneBelow(c, DOMAIN_SEPARATOR, secret, counter)
  {
    forall b0, b1, b2 ensures CounterOf(b0, b1, b2) < HASH_TO_CURVE_ATTEMPTS
                              && Candidate(c, secret, CounterOf(b0, b1, b2)) == c.parse(Trial(c, DOMAIN_SEPARATOR, secret, b0, b1, b2)) {
      CandidateIsTrial(c, secret, b0, b1, b2);
    }
  }

  /**
   * The point of a secret is read from the trial with the least counter that reads as a point, the
   * counter written in four bytes, low byte first; there is none exactly when none of the 2^24 does.
   */
  lemma LeastTrialWins<P>(c: Curve<P>, prefix: seq<byte>, secret: seq<byte>)
    requires IsAscii(prefix, "Secp256k1_HashToCurve_Cashu_")
    ensures var point := CurvePoint(c, secret, 0);
            && (point.Some? ==> exists b0, b1, b2 ::
                  c.parse(Trial(c, prefix, secret, b0, b1, b2)) == point && NoneBelow(c, prefix, secret, CounterOf(b0, b1, b2)))
            && (point.None? <==> NoneBelow(c, prefix, secret, 0x0100_0000))
  {
    var point := CurvePoint(c, secret, 0);
    assert prefix == DOMAIN_SEPARATOR;
    FirstCandidateWins(c, secret, 0);
    if point.None? {
      NoneBetweenTrials(c, secret, HASH_TO_CURVE_ATTEMPTS);
    } else {
      var counter: nat :| FirstAt(c, secret, 0, counter) && Candidate(c, secret, counter) == point;
      var b0, b1, b2 := CounterOfBytes(counter);
      CandidateIsTrial(c, secret, b0, b1, b2);
      NoneBetweenTrials(c, secret, counter);
      assert c.parse(Trial(c, DOMAIN_SEPARATOR, secret, b0, b1, b2)) == point && NoneBelow(c, DOMAIN_SEPARATOR, secret, CounterOf(b0, b1, b2));
    }
  }

  /** A point found on the curve is never infinity. */
  lemma {:induction false} CurvePointIsFinite<P(!new)>(c: Curve<P>, secret: seq<byte>, counter: nat)
    requires LawfulCurve(c) && counter <= HASH_TO_CURVE_ATTEMPTS
    ensures CurvePoint(c, secret, counter) != Some(c.group.zero)
    decreases HASH_TO_CURVE_ATTEMPTS - counter
  {
    if counter < HASH_TO_CURVE_ATTEMPTS && Candidate(c, secret, counter).None? {
      CurvePointIsFinite(c, secret, counter + 1);
    }
  }

  // -------------------------------------------------------------------- verification

  /** The hex encodings one after the other; a point at infinity has none and makes the code throw. */
  function Joined<P>(c: Curve<P>, points: seq<P>): Option<string> {
    if points == [] then Some("")
    else
      var first, rest := c.uncompressed(points[0]), Joined(c, points[1..]);
      if first.Some? && rest.Some? then Some(first.value + rest.value) else None
  }

  /** `hashE`, as lower-case hex. */
  function HashE<P>(c: Curve<P>, points: seq<P>): Option<string> {
    var joined := Joined(c, points);
    if joined.Some? then Some(BytesToHex(c.sha(c.utf8(joined.value)))) else None
  }

  /** The hexadecimal text of a point that has one. */
  function Written<P>(c: Curve<P>, p: P): string {
    if c.uncompressed(p).Some? then c.uncompressed(p).value else ""
  }

  /** The challenge NUT-12 derives: the hash of the four uncompressed encodings, as text, in hexadecimal. */
  function Challenge<P>(c: Curve<P>, R1: P, R2: P, A: P, C: P): string {
    BytesToHex(c.sha(c.utf8(Written(c, R1) + Written(c, R2) + Written(c, A) + Written(c, C))))
  }

  predicate AllWritten<P>(c: Curve<P>, R1: P, R2: P, A: P, C: P) {
    c.uncompressed(R1).Some? && c.uncompressed(R2).Some? && c.uncompressed(A).Some? && c.uncompressed(C).Some?
  }

  /** The hash the code computes is that challenge, and it throws exactly when a point has no encoding. */
  lemma HashIsChallenge<P>(c: Curve<P>, R1: P, R2: P, A: P, C: P)
    ensures HashE(c, [R1, R2, A, C]) == if AllWritten(c, R1, R2, A, C) then Some(Challenge(c, R1, R2, A, C)) else None
  {
    JoinedMore(c, C, []);
    JoinedMore(c, A, [C]);
    JoinedMore(c, R2, [A, C]);
    JoinedMore(c, R1, [R2, A, C]);
    assert [C] + [] == [C] && [A] + [C] == [A, C] && [R2] + [A, C] == [R2, A, C] && [R1] + [R2, A, C] == [R1, R2, A, C];
    var u1, u2, u3, u4 := Written(c, R1), Written(c, R2), Written(c, A), Written(c, C);
    assert u1 + (u2 + (u3 + (u4 + ""))) == u1 + u2 + u3 + u4;
  }

  lemma JoinedMore<P>(c: Curve<P>, p: P, rest: seq<P>)
    ensures var joined := Joined(c, rest);
            Joined(c, [p] + rest) == if c.uncompressed(p).Some? && joined.Some? then Some(Written(c, p) + joined.value) else None
  {
    assert ([p] + rest)[1..] == rest;
  }

  /** `s` times `x` minus `e` times `z`: the commitment a proof claims. */
  function Commitment<P>(g: Group<P>, x: P, z: P, e: nat, s: nat): P {
    Sub(g, Mul(g, s, x), Mul(g, e, z))
  }

  predicate VerifyDleq<P(==)>(c: Curve<P>, A: string, B: string, C: string, e: string, s: string) {
    var n := c.group.order;
    var a, b, z, ev, sv := ParsePoint(c, A), ParsePoint(c, B), ParsePoint(c, C), ParseScalar(n, e), ParseScalar(n, s);
    && a.Some? && b.Some? && z.Some? && ev.Some? && sv.Some?
    && var R1 := Commitment(c.group, c.group.base, a.value, ev.value, sv.value);
    var R2 := Commitment(c.group, b.value, z.value, ev.value, sv.value);
    HashE(c, [R1, R2, a.value, z.value]) == Some(Normal(e))
  }

  /** The blinded pair `B'`, `C'` rebuilt from the blinding factor. */
  function Blinded<P>(g: Group<P>, Y: P, C: P, A: P, r: nat): (P, P) {
    (g.add(Y, Mul(g, r, g.base)), g.add(C, Mul(g, r, A)))
  }

  predicate VerifyProofDleq<P(==)>(c: Curve<P>, A: string, secret: string, C: string, e: string, s: string, r: string) {
    var a, z, rv := ParsePoint(c, A), ParsePoint(c, C), ParseScalar(c.group.order, r);
    && a.Some? && z.Some? && rv.Some? && secret != ""
    && var Y := CurvePoint(c, c.utf8(secret), 0);
    && Y.Some?
    && var (B', C') := Blinded(c.group, Y.value, z.value, a.value, rv.value);
    && c.compressed(a.value).Some? && c.compressed(B').Some? && c.compressed(C').Some?
    && VerifyDleq(c, c.compressed(a.value).value, c.compressed(B').value, c.compressed(C').value, e, s)
  }

  // ------------------------------------------------------------------------- algebra

  /** Blinding keeps the relation: `C = aY` exactly when `C' = aB'`. */
  lemma BlindingKeepsTheRelation<P(!new)>(g: Group<P>, a: nat, Y: P, C: P, r: nat)
    requires Lawful(g)
    ensures var (B', C') := Blinded(g, Y, C, Mul(g, a, g.base), r);
            C == Mul(g, a, Y) <==> C' == Mul(g, a, B')
  {
    var A := Mul(g, a, g.base);
    MulOfSum(g, a, Y, Mul(g, r, g.base));
    MulCommutes(g, a, r, g.base);
    Cancel(g, C, Mul(g, a, Y), Mul(g, r, A));
  }

  /** The response an honest signer computes for challenge `e` with key `a` and nonce `w`. */
  function Response(order: nat, w: nat, e: nat, a: nat): (s: nat)
    requires order > 0
    ensures s < order
  {
    (w + e * a) % order
  }

  /** The honest answer to `e` with nonce `w` reproduces the commitment `w X`. */
  lemma HonestAnswer<P(!new)>(g: Group<P>, x: P, a: nat, e: nat, w: nat)
    requires Lawful(g)
    ensures Commitment(g, x, Mul(g, a, x), e, Response(g.order, w, e, a)) == Mul(g, w, x)
  {
    var ea: nat := e * a;
    MulModulo(g, w + ea, x);
    MulSum(g, w, ea, x);
    MulProduct(g, e, a, x);
    SubAdd(g, Mul(g, w, x), Mul(g, e, Mul(g, a, x)));
  }

  /** From two answers to the same commitment, the multiple that links `x` and `z`. */
  lemma TwoAnswers<P(!new)>(g: Group<P>, x: P, z: P, e1: nat, s1: nat, e2: nat, s2: nat)
    requires Lawful(g) && s2 < g.order && e2 <= e1
    requires Commitment(g, x, z, e1, s1) == Commitment(g, x, z, e2, s2)
    ensures Mul(g, s1 + (g.order - s2), x) == Mul(g, e1 - e2, z)
  {
    var n, d, R := g.order, e1 - e2, Commitment(g, x, z, e1, s1);
    var dz, e2z, s2x, backx := Mul(g, d, z), Mul(g, e2, z), Mul(g, s2, x), Mul(g, n - s2, x);
    SubAdd(g, Mul(g, s1, x), Mul(g, e1, z));
    SubAdd(g, s2x, e2z);
    MulSum(g, d, e2, z);
    MulSum(g, s1, n - s2, x);
    MulSum(g, s2, n - s2, x);
    assert HasOrder(g, x);
    calc {
      Mul(g, s1 + (n - s2), x);
      g.add(g.add(R, g.add(dz, e2z)), backx);
      { assert Commutes(g, dz, e2z); assert Associates(g, R, e2z, dz); }
      g.add(g.add(s2x, dz), backx);
      { assert Commutes(g, s2x, dz); assert Associates(g, dz, s2x, backx); }
      g.add(dz, g.zero);
      { assert HasUnit(g, dz); }
      dz;
    }
  }

  /** `e` can be answered for the commitments `R1` and `R2`. */
  ghost predicate Answerable<P(!new)>(g: Group<P>, A: P, B: P, C: P, R1: P, R2: P, e: nat) {
    exists s: nat | s < g.order :: Answers(g, A, B, C, R1, R2, e, s)
  }

  predicate Answers<P(==)>(g: Group<P>, A: P, B: P, C: P, R1: P, R2: P, e: nat, s: nat) {
    Commitment(g, g.base, A, e, s) == R1 && Commitment(g, B, C, e, s) == R2
  }

  predicate SharesExponent<P(==)>(g: Group<P>, A: P, B: P, C: P, k: nat) {
    A == Mul(g, k, g.base) && C == Mul(g, k, B)
  }

  /** Answers to two different challenges give the exponent that `A` and `C'` share. */
  lemma Extract<P(!new)>(g: Group<P>, A: P, B: P, C: P, R1: P, R2: P, e1: nat, s1: nat, e2: nat, s2: nat) returns (k: nat)
    requires Lawful(g) && s2 < g.order && e2 < e1 < g.order
    requires Answers(g, A, B, C, R1, R2, e1, s1) && Answers(g, A, B, C, R1, R2, e2, s2)
    ensures SharesExponent(g, A, B, C, k)
  {
    var t, d := s1 + (g.order - s2), e1 - e2;
    TwoAnswers(g, g.base, A, e1, s1, e2, s2);
    TwoAnswers(g, B, C, e1, s1, e2, s2);
    var i := Undo(g, d);
    k := i * t;
    MulProduct(g, i, t, g.base);
    MulProduct(g, i, t, B);
    assert Mul(g, i, Mul(g, d, A)) == A && Mul(g, i, Mul(g, d, C)) == C;
  }

  /**
   * Two different challenges can be answered for some commitment pair exactly when `A` and `C'` are
   * the same multiple of `G` and of `B'`; then every challenge can.
   */
  lemma SoundExactlyWithoutSharedExponent<P(!new)>(g: Group<P>, A: P, B: P, C: P)
    requires Lawful(g)
    ensures (exists R1, R2, e1: nat, e2: nat | e2 < e1 < g.order :: Answerable(g, A, B, C, R1, R2, e1) && Answerable(g, A, B, C, R1, R2, e2))
       <==> (exists k: nat :: SharesExponent(g, A, B, C, k))
  {
    if R1, R2, e1: nat, e2: nat :| e2 < e1 < g.order && Answerable(g, A, B, C, R1, R2, e1) && Answerable(g, A, B, C, R1, R2, e2) {
      var s1: nat :| s1 < g.order && Answers(g, A, B, C, R1, R2, e1, s1);
      var s2: nat :| s2 < g.order && Answers(g, A, B, C, R1, R2, e2, s2);
      var k := Extract(g, A, B, C, R1, R2, e1, s1, e2, s2);
    }
    if k: nat :| SharesExponent(g, A, B, C, k) {
      EveryChallengeIsAnswerable(g, B, k, 0);
      EveryChallengeIsAnswerable(g, B, k, 1);
    }
  }

  lemma EveryChallengeIsAnswerable<P(!new)>(g: Group<P>, B: P, k: nat, e: nat)
    requires Lawful(g)
    ensures Answerable(g, Mul(g, k, g.base), B, Mul(g, k, B), Mul(g, 1, g.base), Mul(g, 1, B), e)
  {
    HonestAnswer(g, g.base, k, e, 1);
    HonestAnswer(g, B, k, e, 1);
    assert Answers(g, Mul(g, k, g.base), B, Mul(g, k, B), Mul(g, 1, g.base), Mul(g, 1, B), e, Response(g.order, 1, e, k));
  }

  /** A multiplier that takes the generator to infinity takes every point there. */
  lemma VanishesEverywhere<P(!new)>(g: Group<P>, m: nat, x: P)
    requires Lawful(g) && Mul(g, m, g.base) == g.zero
    ensures Mul(g, m, x) == g.zero
  {
    var d := m % g.order;
    MulModulo(g, m, g.base);
    MulModulo(g, m, x);
    if d != 0 {
      MulIsZero(g, d, g.base);
    }
  }

  /** Multipliers that agree on the generator agree on every point. */
  lemma ExponentIsUnique<P(!new)>(g: Group<P>, k: nat, a: nat, x: P)
    requires Lawful(g) && a <= k && Mul(g, k, g.base) == Mul(g, a, g.base)
    ensures Mul(g, k, x) == Mul(g, a, x)
  {
    MulSum(g, k - a, a, g.base);
    assert Commutes(g, g.zero, Mul(g, a, g.base)) && HasUnit(g, Mul(g, a, g.base));
    Cancel(g, Mul(g, k - a, g.base), g.zero, Mul(g, a, g.base));
    VanishesEverywhere(g, k - a, x);
    MulSum(g, k - a, a, x);
    assert Commutes(g, g.zero, Mul(g, a, x)) && HasUnit(g, Mul(g, a, x));
  }

  /**
   * Soundness on the unblinded proof: if `C` is not the mint's key times `Y`, then whatever blinding
   * factor is claimed, each commitment pair can be answered for at most one challenge.
   */
  lemma ForgeryAnswersOneChallenge<P(!new)>(g: Group<P>, a: nat, Y: P, C: P, r: nat, R1: P, R2: P, e1: nat, e2: nat)
    requires Lawful(g) && C != Mul(g, a, Y) && e1 < g.order && e2 < g.order
    requires var A := Mul(g, a, g.base);
             var (B', C') := Blinded(g, Y, C, A, r);
             Answerable(g, A, B', C', R1, R2, e1) && Answerable(g, A, B', C', R1, R2, e2)
    ensures e1 == e2
  {
    var A := Mul(g, a, g.base);
    var (B', C') := Blinded(g, Y, C, A, r);
    BlindingKeepsTheRelation(g, a, Y, C, r);
    forall k: nat ensures !SharesExponent(g, A, B', C', k) {
      if Mul(g, k, g.base) == Mul(g, a, g.base) {
        if a <= k {
          ExponentIsUnique(g, k, a, B');
        } else {
          ExponentIsUnique(g, a, k, B');
        }
      }
    }
    SoundExactlyWithoutSharedExponent(g, A, B', C');
    assert e1 < e2 ==> !(Answerable(g, A, B', C', R1, R2, e2) && Answerable(g, A, B', C', R1, R2, e1));
    assert e2 < e1 ==> !(Answerable(g, A, B', C', R1, R2, e1) && Answerable(g, A, B', C', R1, R2, e2));
  }

  // ------------------------------------------------------------------ what is accepted

  /** A text of 64 digits, give or take case and white space around it, for a number strictly between zero and the order. */
  predicate SpellsScalar(order: nat, value: string, k: nat) {
    |Normal(value)| == 64 && IsHex(Normal(value)) && k == Number(Normal(value)) && 0 < k < order
  }

  /** The two equations of NUT-12 for these points: `R1 = sG - eA`, `R2 = sB' - eC'`, and `e` is their challenge. */
  predicate Satisfies<P>(c: Curve<P>, A: P, B: P, C: P, e: nat, s: nat, eText: string) {
    var g := c.group;
    var R1 := g.add(Mul(g, s, g.base), g.neg(Mul(g, e, A)));
    var R2 := g.add(Mul(g, s, B), g.neg(Mul(g, e, C)));
    AllWritten(c, R1, R2, A, C) && Normal(eText) == Challenge(c, R1, R2, A, C)
  }

  /** The texts are these points and scalars, and they satisfy the equations. */
  predicate Proves<P(==)>(c: Curve<P>, A: string, B: string, C: string, e: string, s: string, a: P, b: P, z: P, ev: nat, sv: nat) {
    && c.parse(Normal(A)) == Some(a) && c.parse(Normal(B)) == Some(b) && c.parse(Normal(C)) == Some(z)
    && SpellsScalar(c.group.order, e, ev) && SpellsScalar(c.group.order, s, sv)
    && Satisfies(c, a, b, z, ev, sv, e)
  }

  lemma AcceptedProves<P>(c: Curve<P>, A: string, B: string, C: string, e: string, s: string)
    requires VerifyDleq(c, A, B, C, e, s)
    ensures exists a, b, z, ev, sv :: Proves(c, A, B, C, e, s, a, b, z, ev, sv)
  {
    var n := c.group.order;
    var a, b, z := ParsePoint(c, A).value, ParsePoint(c, B).value, ParsePoint(c, C).value;
    var ev, sv := ParseScalar(n, e).value, ParseScalar(n, s).value;
    HashIsChallenge(c, Commitment(c.group, c.group.base, a, ev, sv), Commitment(c.group, b, z, ev, sv), a, z);
    assert Proves(c, A, B, C, e, s, a, b, z, ev, sv);
  }

  lemma ProvingIsAccepted<P>(c: Curve<P>, A: string, B: string, C: string, e: string, s: string, a: P, b: P, z: P, ev: nat, sv: nat)
    requires Proves(c, A, B, C, e, s, a, b, z, ev, sv)
    ensures VerifyDleq(c, A, B, C, e, s)
  {
    HashIsChallenge(c, Commitment(c.group, c.group.base, a, ev, sv), Commitment(c.group, b, z, ev, sv), a, z);
  }

  /** A proof is accepted exactly when its points and scalars can be read and satisfy the equations. */
  lemma DleqIsDecided<P>(c: Curve<P>, A: string, B: string, C: string, e: string, s: string)
    ensures VerifyDleq(c, A, B, C, e, s) <==> exists a, b, z, ev, sv :: Proves(c, A, B, C, e, s, a, b, z, ev, sv)
  {
    if VerifyDleq(c, A, B, C, e, s) {
      AcceptedProves(c, A, B, C, e, s);
    }
    if a, b, z, ev, sv :| Proves(c, A, B, C, e, s, a, b, z, ev, sv) {
      ProvingIsAccepted(c, A, B, C, e, s, a, b, z, ev, sv);
    }
  }

  // ------------------------------------------------------------------------- honest proofs

  /** What an honest mint with key `a` and the wallet that unblinded its signature hand over. */
  datatype Honest = Honest(a: nat, w: nat, r: nat)

  ghost predicate InRange<P(!new)>(c: Curve<P>, h: Honest) {
    0 < h.a < c.group.order && 0 < h.w < c.group.order && 0 < h.r < c.group.order
  }

  /** The two blinded points: `B' = Y + rG` and `C' = aB'`. */
  function HonestB<P>(g: Group<P>, h: Honest, Y: P): P {
    g.add(Y, Mul(g, h.r, g.base))
  }

  /** The challenge an honest mint derives from its commitments. */
  function HonestE<P>(c: Curve<P>, h: Honest, Y: P): string {
    var g := c.group;
    Challenge(c, Mul(g, h.w, g.base), Mul(g, h.w, HonestB(g, h, Y)), Mul(g, h.a, g.base), Mul(g, h.a, HonestB(g, h, Y)))
  }

  /** Away from infinity the code reconstructs exactly the points the mint signed. */
  lemma RebuiltPoints<P(!new)>(c: Curve<P>, h: Honest, Y: P)
    requires LawfulCurve(c) && InRange(c, h) && Y != c.group.zero
    ensures var g := c.group; var A, C := Mul(g, h.a, g.base), Mul(g, h.a, Y);
            && A != g.zero && C != g.zero
            && Blinded(g, Y, C, A, h.r) == (HonestB(g, h, Y), Mul(g, h.a, HonestB(g, h, Y)))
            && (Mul(g, h.a, HonestB(g, h, Y)) == g.zero <==> HonestB(g, h, Y) == g.zero)
            && (Mul(g, h.w, HonestB(g, h, Y)) == g.zero <==> HonestB(g, h, Y) == g.zero)
            && Mul(g, h.w, g.base) != g.zero
  {
    var g := c.group;
    BlindingKeepsTheRelation(g, h.a, Y, Mul(g, h.a, Y), h.r);
    MulIsZero(g, h.a, g.base);
    MulIsZero(g, h.a, Y);
    MulIsZero(g, h.w, g.base);
    MulIsZero(g, h.a, HonestB(g, h, Y));
    MulIsZero(g, h.w, HonestB(g, h, Y));
  }

  lemma WrittenPointParses<P(!new)>(c: Curve<P>, p: P)
    requires LawfulCurve(c)
    ensures if p == c.group.zero then c.compressed(p).None? && c.uncompressed(p).None?
            else c.compressed(p).Some? && c.uncompressed(p).Some? && ParsePoint(c, c.compressed(p).value) == Some(p)
  {
    assert Encodes(c, p);
  }

  lemma DigestIsNormal<P(!new)>(c: Curve<P>, bytes: seq<byte>)
    requires LawfulCurve(c)
    ensures var e := BytesToHex(c.sha(bytes)); Normal(e) == e && |e| == 64 && IsHex(e)
  {
    assert HashesWell(c, bytes);
    WrittenIsHex(c.sha(bytes));
    HexIsNormal(BytesToHex(c.sha(bytes)));
  }

  /** With all points and scalars parsed, verification is one comparison of hashes. */
  lemma ParsedDleq<P(!new)>(c: Curve<P>, A: P, B: P, C: P, e: string, s: string, ev: nat, sv: nat)
    requires LawfulCurve(c) && A != c.group.zero && B != c.group.zero && C != c.group.zero
    requires Normal(e) == e && |e| == 64 && IsHex(e) && Number(e) == ev
    requires ParseScalar(c.group.order, s) == if 0 < sv < c.group.order then Some(sv) else None
    ensures c.compressed(A).Some? && c.compressed(B).Some? && c.compressed(C).Some?
    ensures VerifyDleq(c, c.compressed(A).value, c.compressed(B).value, c.compressed(C).value, e, s) <==>
            && 0 < ev < c.group.order && 0 < sv < c.group.order
            && HashE(c, [Commitment(c.group, c.group.base, A, ev, sv), Commitment(c.group, B, C, ev, sv), A, C]) == Some(e)
  {
    WrittenPointParses(c, A);
    WrittenPointParses(c, B);
    WrittenPointParses(c, C);
    ScalarOf(c.group.order, e, ev);
  }

  /** The verification equations hold of honest answers, so all that is left is the range of the two scalars. */
  lemma HonestBlindProof<P(!new)>(c: Curve<P>, h: Honest, B: P)
    requires LawfulCurve(c) && InRange(c, h) && B != c.group.zero
    ensures var g := c.group;
            var A, C, R1, R2 := Mul(g, h.a, g.base), Mul(g, h.a, B), Mul(g, h.w, g.base), Mul(g, h.w, B);
            var e := Challenge(c, R1, R2, A, C);
            && c.compressed(A).Some? && c.compressed(B).Some? && c.compressed(C).Some?
            && AllWritten(c, R1, R2, A, C) && IsHex(e)
            && (VerifyDleq(c, c.compressed(A).value, c.compressed(B).value, c.compressed(C).value, e,
                           Spell(Response(g.order, h.w, Number(e), h.a), 64))
                <==> 0 < Number(e) < g.order && Response(g.order, h.w, Number(e), h.a) != 0)
  {
    var g := c.group;
    var A, C, R1, R2 := Mul(g, h.a, g.base), Mul(g, h.a, B), Mul(g, h.w, g.base), Mul(g, h.w, B);
    HonestPoints(c, h, B);
    HashIsChallenge(c, R1, R2, A, C);
    DigestIsNormal(c, c.utf8(Written(c, R1) + Written(c, R2) + Written(c, A) + Written(c, C)));
    var e := Challenge(c, R1, R2, A, C);
    var ev := Number(e);
    var s := Response(g.order, h.w, ev, h.a);
    ScalarRoundTrip(g.order, s);
    HonestAnswer(g, g.base, h.a, ev, h.w);
    HonestAnswer(g, B, h.a, ev, h.w);
    ParsedDleq(c, A, B, C, e, Spell(s, 64), ev, s);
  }

  /** None of the points of an honest proof is infinity. */
  lemma HonestPoints<P(!new)>(c: Curve<P>, h: Honest, B: P)
    requires LawfulCurve(c) && InRange(c, h) && B != c.group.zero
    ensures var g := c.group;
            var A, C, R1, R2 := Mul(g, h.a, g.base), Mul(g, h.a, B), Mul(g, h.w, g.base), Mul(g, h.w, B);
            A != g.zero && C != g.zero && AllWritten(c, R1, R2, A, C)
  {
    var g := c.group;
    var A, C, R1, R2 := Mul(g, h.a, g.base), Mul(g, h.a, B), Mul(g, h.w, g.base), Mul(g, h.w, B);
    MulIsZero(g, h.a, g.base);
    MulIsZero(g, h.w, g.base);
    MulIsZero(g, h.a, B);
    MulIsZero(g, h.w, B);
    assert Encodes(c, A) && Encodes(c, C) && Encodes(c, R1) && Encodes(c, R2);
  }

  /**
   * An honest voucher proof is accepted after `B'` and `C'` are rebuilt from `r`, exactly when `B'`
   * is not infinity and the challenge and the response fall in the scalar range the parser takes.
   */
  lemma HonestProofIsAccepted<P(!new)>(c: Curve<P>, h: Honest, secret: string, Y: P)
    requires LawfulCurve(c) && InRange(c, h)
    requires secret != "" && CurvePoint(c, c.utf8(secret), 0) == Some(Y) && HonestB(c.group, h, Y) != c.group.zero
    ensures var g := c.group; var A, C, e := Mul(g, h.a, g.base), Mul(g, h.a, Y), HonestE(c, h, Y);
            && c.compressed(A).Some? && c.compressed(C).Some? && IsHex(e)
            && (VerifyProofDleq(c, c.compressed(A).value, secret, c.compressed(C).value, e,
                                Spell(Response(g.order, h.w, Number(e), h.a), 64), Spell(h.r, 64))
                <==> 0 < Number(e) < g.order && Response(g.order, h.w, Number(e), h.a) != 0)
  {
    var g := c.group;
    CurvePointIsFinite(c, c.utf8(secret), 0);
    RebuiltPoints(c, h, Y);
    WrittenPointParses(c, Mul(g, h.a, g.base));
    WrittenPointParses(c, Mul(g, h.a, Y));
    ScalarRoundTrip(g.order, h.r);
    HonestBlindProof(c, h, HonestB(g, h, Y));
  }

  /** The texts are these points and scalars, and the equations hold of the points rebuilt from `y` and the blinding factor. */
  predicate ProvesVoucher<P(==)>(c: Curve<P>, A: string, C: string, e: string, s: string, r: string,
                                 a: P, z: P, y: P, rv: nat, ev: nat, sv: nat) {
    var g := c.group;
    var B', C' := g.add(y, Mul(g, rv, g.base)), g.add(z, Mul(g, rv, a));
    && c.parse(Normal(A)) == Some(a) && c.parse(Normal(C)) == Some(z)
    && SpellsScalar(g.order, e, ev) && SpellsScalar(g.order, s, sv) && SpellsScalar(g.order, r, rv)
    && a != g.zero && B' != g.zero && C' != g.zero && Satisfies(c, a, B', C', ev, sv, e)
  }

  /** Verification of the rebuilt points, once they are written, is the two equations on them. */
  lemma WrittenDleq<P(!new)>(c: Curve<P>, a: P, b: P, z: P, e: string, s: string)
    requires LawfulCurve(c) && a != c.group.zero && b != c.group.zero && z != c.group.zero
    ensures c.compressed(a).Some? && c.compressed(b).Some? && c.compressed(z).Some?
    ensures VerifyDleq(c, c.compressed(a).value, c.compressed(b).value, c.compressed(z).value, e, s) <==>
            exists ev: nat, sv: nat ::
              SpellsScalar(c.group.order, e, ev) && SpellsScalar(c.group.order, s, sv) && Satisfies(c, a, b, z, ev, sv, e)
  {
    WrittenPointParses(c, a);
    WrittenPointParses(c, b);
    WrittenPointParses(c, z);
    var A, B, C := c.compressed(a).value, c.compressed(b).value, c.compressed(z).value;
    DleqIsDecided(c, A, B, C, e, s);
    if ev: nat, sv: nat :|
      SpellsScalar(c.group.order, e, ev) && SpellsScalar(c.group.order, s, sv) && Satisfies(c, a, b, z, ev, sv, e)
    {
      assert Proves(c, A, B, C, e, s, a, b, z, ev, sv);
    }
  }

  /** A voucher proof is accepted exactly when it has a secret, and its texts prove it for that secret's point. */
  lemma VoucherProofIsDecided<P(!new)>(c: Curve<P>, A: string, secret: string, C: string, e: string, s: string, r: string)
    requires LawfulCurve(c)
    ensures VerifyProofDleq(c, A, secret, C, e, s, r) <==>
            secret != "" && exists a, z, y, rv, ev, sv ::
              CurvePoint(c, c.utf8(secret), 0) == Some(y) && ProvesVoucher(c, A, C, e, s, r, a, z, y, rv, ev, sv)
  {
    var g := c.group;
    var Y := CurvePoint(c, c.utf8(secret), 0);
    var a, z, rv := ParsePoint(c, A), ParsePoint(c, C), ParseScalar(g.order, r);
    if a.Some? && z.Some? && rv.Some? && secret != "" && Y.Some? {
      var (B', C') := Blinded(g, Y.value, z.value, a.value, rv.value);
      WrittenPointParses(c, a.value);
      WrittenPointParses(c, B');
      WrittenPointParses(c, C');
      if a.value != g.zero && B' != g.zero && C' != g.zero {
        WrittenDleq(c, a.value, B', C', e, s);
        if VerifyProofDleq(c, A, secret, C, e, s, r) {
          var ev: nat, sv: nat :|
            SpellsScalar(g.order, e, ev) && SpellsScalar(g.order, s, sv) && Satisfies(c, a.value, B', C', ev, sv, e);
          assert ProvesVoucher(c, A, C, e, s, r, a.value, z.value, Y.value, rv.value, ev, sv);
        }
      }
    }
  }

  /** When a rebuilt point is infinity nothing is accepted, whatever the proof says. */
  lemma InfinityIsRefused<P(!new)>(c: Curve<P>, A: P, secret: string, Y: P, C: P, e: string, s: string, r: nat)
    requires LawfulCurve(c) && 0 < r < c.group.order
    requires A != c.group.zero && C != c.group.zero && CurvePoint(c, c.utf8(secret), 0) == Some(Y)
    requires var (B', C') := Blinded(c.group, Y, C, A, r); B' == c.group.zero || C' == c.group.zero
    ensures c.compressed(A).Some? && c.compressed(C).Some?
    ensures !VerifyProofDleq(c, c.compressed(A).value, secret, c.compressed(C).value, e, s, Spell(r, 64))
  {
    WrittenPointParses(c, A);
    WrittenPointParses(c, C);
    var (B', C') := Blinded(c.group, Y, C, A, r);
    WrittenPointParses(c, B');
    WrittenPointParses(c, C');
    ScalarRoundTrip(c.group.order, r);
  }
}
