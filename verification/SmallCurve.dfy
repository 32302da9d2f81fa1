/** A curve of three points: the laws the DLEQ theorems assume can be met, and an honest proof is accepted on it. */
module SmallCurve {
  import opened Options
  import opened Text
  import opened Hex
  import opened PrimeFields
  import opened PrimeGroups
  import opened Dleq

  datatype Third = Zero | One | Two

  function Plus(x: Third, y: Third): Third {
    match x
    case Zero => y
    case One => if y.Zero? then One else if y.One? then Two else Zero
    case Two => if y.Zero? then Two else if y.One? then Zero else One
  }

  function Minus(x: Third): Third {
    match x
    case Zero => Zero
    case One => Two
    case Two => One
  }

  function Zeros(k: nat): (r: seq<byte>)
    ensures |r| == k
  {
    if k == 0 then [] else Zeros(k - 1) + [0]
  }

  /** The digest of everything: the number one. */
  function Digest(): (r: seq<byte>)
    ensures |r| == 32
  {
    Zeros(31) + [1]
  }

  function KeyOf(x: Third): string {
    BytesToHex([if x.One? then 2 else 3] + Digest())
  }

  function Write(x: Third): Option<string> {
    if x.Zero? then None else Some(KeyOf(x))
  }

  function Read(s: string): Option<Third> {
    if s == KeyOf(One) then Some(One) else if s == KeyOf(Two) then Some(Two) else None
  }

  function ThreePoints(): Curve<Third> {
    Curve(Group((x, y) => Plus(x, y), x => Minus(x), Zero, One, 3), s => Read(s), x => Write(x), x => Write(x), bytes => Digest(), s => [])
  }

  // ------------------------------------------------------------------------ the laws

  lemma KeysDiffer()
    ensures KeyOf(One) != KeyOf(Two)
  {
    WrittenPairs([2] + Digest());
    WrittenPairs([3] + Digest());
    assert PairAt(KeyOf(One), 0) == ByteToHex(2) && PairAt(KeyOf(Two), 0) == ByteToHex(3);
    assert ByteToHex(2)[1] == Digit(2) == '2' && ByteToHex(3)[1] == Digit(3) == '3';
  }

  lemma KeyIsNormal(x: Third)
    ensures Normal(KeyOf(x)) == KeyOf(x)
  {
    WrittenIsHex([if x.One? then 2 else 3] + Digest());
    HexIsNormal(KeyOf(x));
  }

  lemma ThreeIsPrime()
    ensures Prime(3)
  {
    forall d: nat, k: nat | Times(d, k, 3) ensures d == 1 || d == 3 {
      assert d != 2 && d <= 3;
    }
  }

  lemma PlusIsAGroup()
    ensures Lawful(ThreePoints().group)
  {
    var g := ThreePoints().group;
    ThreeIsPrime();
    forall x ensures HasOrder(g, x) {
      assert Mul(g, 3, x) == g.add(x, g.add(x, g.add(x, g.zero)));
    }
    assert forall x, y :: Commutes(g, x, y);
    assert forall x, y, z :: Associates(g, x, y, z);
    assert forall x :: HasUnit(g, x);
    assert forall x :: HasInverse(g, x);
  }

  lemma {:induction false} PowerIsPositive(k: nat)
    ensures Power16(k) >= 1
  {
    if k != 0 {
      PowerIsPositive(k - 1);
    }
  }

  lemma WritesWell(x: Third)
    ensures Encodes(ThreePoints(), x)
  {
    if !x.Zero? {
      KeysDiffer();
      KeyIsNormal(x);
    }
  }

  lemma OrderFits()
    ensures 3 <= Power16(64)
  {
    assert Power16(64) == 16 * Power16(63);
    PowerIsPositive(63);
  }

  lemma LawfulCurveExists()
    ensures LawfulCurve(ThreePoints())
  {
    var c := ThreePoints();
    PlusIsAGroup();
    OrderFits();
    forall p ensures Encodes(c, p) {
      WritesWell(p);
    }
    forall bytes ensures HashesWell(c, bytes) {
    }
  }

  // ------------------------------------------------------------------- an honest proof

  lemma {:induction false} ZerosAreZero(k: nat)
    ensures IsHex(BytesToHex(Zeros(k))) && Number(BytesToHex(Zeros(k))) == 0
  {
    WrittenIsHex(Zeros(k));
    if k != 0 {
      ZerosAreZero(k - 1);
      assert Zeros(k)[..k - 1] == Zeros(k - 1);
      TwoMoreDigits(BytesToHex(Zeros(k - 1)), 0);
    }
  }

  lemma TwoMoreDigits(s: string, b: byte)
    requires IsHex(s) && b < 16
    ensures IsHex(s + ByteToHex(b)) && Number(s + ByteToHex(b)) == 256 * Number(s) + b as nat
  {
    var t := s + ByteToHex(b);
    assert t[..|t| - 1] == s + [ByteToHex(b)[0]];
    assert (s + [ByteToHex(b)[0]])[..|s|] == s;
  }

  lemma DigestIsOne()
    ensures IsHex(BytesToHex(Digest())) && Number(BytesToHex(Digest())) == 1
  {
    ZerosAreZero(31);
    assert Digest()[..31] == Zeros(31);
    TwoMoreDigits(BytesToHex(Zeros(31)), 1);
  }

  /** The secret exponent, the nonce and the blinding factor are all one. */
  const PROVER := Honest(1, 1, 1)

  lemma PointsOfTheProof(secret: string)
    ensures var c := ThreePoints(); var g := c.group;
            && CurvePoint(c, c.utf8(secret), 0) == Some(One) && HonestB(g, PROVER, One) == Two
            && Mul(g, 1, One) == One && Mul(g, 1, Two) == Two
  {
    var c := ThreePoints();
    assert Candidate(c, c.utf8(secret), 0) == Some(One);
    assert Mul(c.group, 0, One) == Zero && Mul(c.group, 0, Two) == Zero;
  }

  lemma ChallengeIsOne()
    ensures var e := HonestE(ThreePoints(), PROVER, One); IsHex(e) && Number(e) == 1
  {
    DigestIsOne();
  }

  lemma AnswerIsTwo()
    ensures Response(3, 1, 1, 1) == 2
  {
  }

  /** All that the theorems on honest proofs ask for is met, and the proof they speak of is accepted. */
  lemma HonestProofExists(secret: string)
    requires secret != ""
    ensures var c := ThreePoints(); var g := c.group;
            && LawfulCurve(c) && InRange(c, PROVER)
            && CurvePoint(c, c.utf8(secret), 0) == Some(One) && HonestB(g, PROVER, One) != g.zero
            && var A, C, e := Mul(g, 1, g.base), Mul(g, 1, One), HonestE(c, PROVER, One);
               && c.compressed(A).Some? && c.compressed(C).Some? && IsHex(e)
               && VerifyProofDleq(c, c.compressed(A).value, secret, c.compressed(C).value, e,
                                  Spell(Response(g.order, 1, Number(e), 1), 64), Spell(1, 64))
  {
    LawfulCurveExists();
    PointsOfTheProof(secret);
    HonestProofIsAccepted(ThreePoints(), PROVER, secret, One);
    ChallengeIsOne();
    AnswerIsTwo();
  }
}
