/** What the agent keeps of a parsed X.509 certificate, and what it costs to check one. */
module Certificates {
  import opened Basics

  datatype PublicKey =
    | Rsa(modulusBits: nat, exponent: int)
    | Ecdsa(curveBits: nat)
    | Ed25519
    | OtherKey

  /** `ptr` is the address of the parsed value: two parses of the same bytes are two
      certificates with one `raw`. */
  datatype Certificate = Certificate(
    ptr: nat,
    raw: Bytes,
    subject: Bytes,
    issuer: Bytes,
    basicConstraintsValid: bool,
    isCA: bool,
    notBefore: int,
    notAfter: int,
    key: PublicKey)

  const MAX_CERTIFICATES_PER_STORE: nat := 4096
  const MAX_LEAVES_PER_STORE: nat := 256
  const MAX_CHAIN_DEPTH: nat := 10
  const VERIFY_BUDGET: nat := 4096

  /** False only for a certificate that says it is not a CA. */
  predicate MayIssue(c: Certificate) { !c.basicConstraintsValid || c.isCA }

  function BitLen(n: nat): nat { if n == 0 then 0 else 1 + BitLen(n / 2) }

  function OnesCount(n: nat): nat { if n == 0 then 0 else n % 2 + OnesCount(n / 2) }

  /** Signature checking under this key, in RSA-2048 verifications. */
  function VerifyCost(key: PublicKey): (cost: nat)
    ensures cost >= 1
  {
    match key
    case Rsa(modulusBits, exponent) =>
      var k := (modulusBits + 1023) / 1024;
      var modulus := Max(1, k * k * k / 8);
      var e: nat := Max(exponent, 0);
      var steps := (BitLen(e) + OnesCount(e) + 18) / 19;
      Product(modulus, Max(1, steps))
    case Ecdsa(curveBits) =>
      if curveBits == 256 then 3 else if curveBits == 384 then 12 else 60
    case Ed25519 => 2
    case OtherKey => 1
  }

  /** The cost of a larger RSA modulus is no smaller, whatever the exponent. */
  lemma LargerModulusCostsMore(bits: nat, larger: nat, exponent: int)
    requires bits <= larger
    ensures VerifyCost(Rsa(bits, exponent)) <= VerifyCost(Rsa(larger, exponent))
  {
    var k, l := (bits + 1023) / 1024, (larger + 1023) / 1024;
    CubeGrows(k, l);
    var modulus, larger' := Max(1, k * k * k / 8), Max(1, l * l * l / 8);
    var e: nat := Max(exponent, 0);
    ProductGrows(modulus, larger', Max(1, (BitLen(e) + OnesCount(e) + 18) / 19));
  }

  lemma CubeGrows(k: nat, l: nat)
    requires k <= l
    ensures k * k * k <= l * l * l
  {
    assert k * k <= l * l;
    assert k * k * k <= l * l * k <= l * l * l;
  }

  lemma ProductGrows(a: nat, b: nat, c: nat)
    requires a <= b
    ensures Product(a, c) <= Product(b, c)
  {
  }

  /** As many leaves as one store reports still fit the budget under the dearest key in common use. */
  lemma LeavesFitBudget()
    ensures MAX_LEAVES_PER_STORE * VerifyCost(Ecdsa(384)) <= VERIFY_BUDGET
  {
  }

  function Power(n: nat): nat { if n == 0 then 1 else 2 * Power(n - 1) }

  lemma {:induction false} PowerHasOneBit(n: nat)
    ensures BitLen(Power(n)) == n + 1 && OnesCount(Power(n)) == 1
  {
    if n > 0 {
      PowerHasOneBit(n - 1);
      assert Power(n) / 2 == Power(n - 1) && Power(n) % 2 == 0;
    }
  }

  /** Under the usual exponent the unit is what it is said to be, and costs grow by the cube of the modulus. */
  lemma UsualCosts(k: nat)
    requires k >= 2
    ensures VerifyCost(Rsa(1024 * k, 65537)) == k * k * k / 8
    ensures VerifyCost(Rsa(2048, 65537)) == 1
  {
    assert Power(5) == 32 && Power(10) == 1024 && Power(15) == 32768;
    PowerHasOneBit(15);
    assert 65537 / 2 == Power(15);
    assert BitLen(65537) == 17 && OnesCount(65537) == 2;
    assert (1024 * k + 1023) / 1024 == k;
    CubeGrows(2, k);
  }

  /** A product of positive factors is positive, whatever the solver thinks of nonlinear terms. */
  function Product(a: nat, b: nat): (p: nat)
    ensures a >= 1 && b >= 1 ==> p >= 1
  {
    a * b
  }
}
