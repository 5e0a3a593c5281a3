/**
  * El Gamal encryption and the zero-knowledge proof of delivery: a seeder who
  * received a key part encrypted to itself re-encrypts it for a consumer and
  * proves, without the consumer's private key, that both ciphertexts hold the
  * same message.
  */
module DeliveryProofs {
  import opened ModularArithmetic

  datatype Group = Group(p: Modulus, g: int)

  /** The group the program uses. */
  const GROUP := Group(
    11760620558671662461946567396662025495126946227619472274601251081547302009186313201119191293557856181195016058359990840577430081932807832465057884143546419,
    3)

  /** A message is two 32-byte numbers. */
  datatype Message = Message(first: int, second: int)

  const HALF: nat := 0x1_0000000000000000_0000000000000000_0000000000000000_0000000000000000

  datatype Ciphertext = Ciphertext(c1: int, d1: int)

  datatype Proof = Proof(g1: int, g2: int, g3: int, s: nat, r: nat)

  /** The digest of two ciphertexts, two public keys and three commitments. */
  type Hash = (Ciphertext, Ciphertext, int, int, int, int, int) -> nat

  /** The number whose 64 bytes are the two halves. */
  function Encode(message: Message): (m: nat)
    ensures 0 <= message.first < HALF && 0 <= message.second < HALF ==> m == message.first * HALF + message.second
  {
    message.first % HALF * HALF + message.second % HALF
  }

  function Decode(m: nat): Message {
    Message(m / HALF % HALF, m % HALF)
  }

  /** Messages whose halves fit in 32 bytes survive the byte encoding. */
  lemma DecodeEncode(message: Message)
    requires 0 <= message.first < HALF && 0 <= message.second < HALF
    ensures Decode(Encode(message)) == message
  {
  }

  function PublicKey(a: nat, group: Group): int
  {
    Power(group.g, a, group.p)
  }

  /** Encrypts `message` to `publicKey` with the random exponent `draw`. */
  method ElGamalEncrypt(message: Message, publicKey: int, draw: nat, group: Group) returns (result: Ciphertext)
    ensures result == Encrypted(message, publicKey, draw, group)
  {
    var m := Encode(message);
    var d1 := Power(group.g, draw, group.p);
    var c1 := Multiply(m, Power(publicKey, draw, group.p), group.p);
    result := Ciphertext(c1, d1);
  }

  function Encrypted(message: Message, publicKey: int, draw: nat, group: Group): Ciphertext
  {
    Ciphertext(Multiply(Encode(message), Power(publicKey, draw, group.p), group.p), Power(group.g, draw, group.p))
  }

  /** The number a ciphertext holds for the private key `a`. */
  function Plain(input: Ciphertext, a: nat, group: Group): nat
  {
    Multiply(input.c1, Invert(Power(input.d1, a, group.p), group.p), group.p)
  }

  function ElGamalDecrypt(input: Ciphertext, a: nat, group: Group): Message
  {
    Decode(Plain(input, a, group))
  }

  method Decrypt(input: Ciphertext, a: nat, group: Group) returns (message: Message)
    ensures message == ElGamalDecrypt(input, a, group)
  {
    var s := Power(input.d1, a, group.p);
    var m := Multiply(input.c1, Invert(s, group.p), group.p);
    message := Decode(m);
  }

  /** The digest as the prover and the verifier both take it. */
  function HashElements(hash: Hash, first: Ciphertext, second: Ciphertext, key1: int, key2: int, proof: Proof): nat {
    hash(first, second, key1, key2, proof.g1, proof.g2, proof.g3)
  }

  predicate VerifyDeliveryProof(proof: Proof, first: Ciphertext, second: Ciphertext,
                                firstKey: int, secondKey: int, hash: Hash, group: Group)
  {
    var p := group.p;
    var x := HashElements(hash, first, second, firstKey, secondKey, proof);
    && Power(group.g, proof.s, p) == Multiply(Power(firstKey, x, p), proof.g1, p)
    && Power(group.g, proof.r, p) == Multiply(Power(second.d1, x, p), proof.g2, p)
    && Third(proof, first, second, secondKey, x, p) == proof.g3
  }

  /** The left side of the third equation. */
  function Third(proof: Proof, first: Ciphertext, second: Ciphertext, secondKey: int, x: nat, p: Modulus): int {
    var c2v := Power(second.c1, x, p);
    var c1v := Invert(Power(first.c1, x, p), p);
    var d1v := Power(first.d1, proof.s, p);
    var r2v := Power(secondKey, proof.r, p);
    Multiply(Multiply(Multiply(c2v, c1v, p), d1v, p), Invert(r2v, p), p)
  }

  // ---- Exponents ----

  /** `(g^a)^b` and `(g^b)^a` agree: what makes the scheme decrypt. */
  lemma KeyAgreement(g: int, a: nat, b: nat, p: Modulus)
    ensures Congruent(Power(Power(g, a, p), b, p), Pow(Pow(g, a), b), p)
    ensures Pow(Pow(g, a), b) == Pow(Pow(g, b), a)
  {
    ResidueCongruent(Pow(g, a), p);
    PowerCongruent(Power(g, a, p), Pow(g, a), b, p);
    PowMul(g, a, b);
    PowMul(g, b, a);
    assert a * b == b * a;
  }

  /** `g^(a * x + b) == (g^a)^x * g^b`, with the exponent never reduced. */
  lemma ExponentSum(g: int, a: nat, x: nat, b: nat)
    ensures a * x + b >= 0
    ensures Pow(g, a * x + b) == Pow(Pow(g, a), x) * Pow(g, b)
  {
    PowMul(g, a, x);
    PowAdd(g, a * x, b);
  }

  // ---- Decryption ----

  /** Decrypting what was encrypted to one's own key gives the number back, reduced. */
  lemma DecryptEncrypt(message: Message, a: nat, draw: nat, group: Group)
    requires Invertible(group.g, group.p)
    ensures Plain(Encrypted(message, PublicKey(a, group), draw, group), a, group) == Encode(message) % group.p
  {
    var g, p, m := group.g, group.p, Encode(message);
    var t := Pow(Pow(g, a), draw);
    KeyAgreement(g, a, draw, p);
    KeyAgreement(g, draw, a, p);
    var shared, secret := Power(PublicKey(a, group), draw, p), Power(Power(g, draw, p), a, p);
    Same(m, p);
    ProductCongruent(m, m, shared, t, p);
    InvertiblePow(g, a, p);
    InvertiblePow(Pow(g, a), draw, p);
    Unmask(Multiply(m, shared, p), m, t, secret, p);
  }

  /** Dividing `m * t` by a number congruent to `t` leaves `m`. */
  lemma Unmask(c: int, m: int, t: int, secret: int, p: Modulus)
    requires Congruent(c, m * t, p) && Congruent(secret, t, p) && Invertible(t, p)
    ensures Multiply(c, Invert(secret, p), p) == m % p
  {
    var i := Invert(secret, p);
    InvertOther(t, secret, p);
    Same(i, p);
    ProductCongruent(c, m * t, i, i, p);
    Scale(m, t * i, 1, p);
    Regroup(m, t, i);
    var r := Multiply(c, i, p);
    Chain(r, m * (t * i), m * 1, p);
    Reduced(r, m, p);
  }

  /** A message comes back from encryption exactly when its number is below the modulus. */
  lemma MessageRoundTrip(message: Message, a: nat, draw: nat, group: Group)
    requires Invertible(group.g, group.p) && group.p <= HALF * HALF
    requires 0 <= message.first < HALF && 0 <= message.second < HALF
    ensures ElGamalDecrypt(Encrypted(message, PublicKey(a, group), draw, group), a, group) == message
       <==> Encode(message) < group.p
  {
    var m, p := Encode(message), group.p;
    DecryptEncrypt(message, a, draw, group);
    DecodeEncode(message);
    ResidueCongruent(m, p);
    if m < p {
      SmallResidue(m, p);
    } else {
      DecodeInjective(m % p, m);
    }
  }

  /** In the group the program uses the largest message is too large. */
  lemma LargestMessageLost(a: nat, draw: nat)
    ensures var largest := Message(HALF - 1, HALF - 1);
            ElGamalDecrypt(Encrypted(largest, PublicKey(a, GROUP), draw, GROUP), a, GROUP) != largest
  {
    GeneratorInvertible(GROUP.g, GROUP.p);
    TooLarge(GROUP, a, draw);
  }

  lemma TooLarge(group: Group, a: nat, draw: nat)
    requires Invertible(group.g, group.p) && group.p <= HALF * HALF - 1
    ensures var largest := Message(HALF - 1, HALF - 1);
            ElGamalDecrypt(Encrypted(largest, PublicKey(a, group), draw, group), a, group) != largest
  {
    assert Encode(Message(HALF - 1, HALF - 1)) == HALF * HALF - 1;
    MessageRoundTrip(Message(HALF - 1, HALF - 1), a, draw, group);
  }

  lemma GeneratorInvertible(g: int, p: int)
    requires g == GROUP.g && p == GROUP.p
    ensures Invertible(g, p)
  {
    var inverse := 3920206852890554153982189132220675165042315409206490758200417027182434003062104400373063764519285393731672019453330280192476693977602610821685961381182140;
    Introduce(g * inverse, 1, p, 1);
  }

  lemma DecodeInjective(m: nat, n: nat)
    requires m < HALF * HALF && n < HALF * HALF && m != n
    ensures Decode(m) != Decode(n)
  {
  }

  // ---- The prover ----

  /** The draws a proof is made from: the encryption exponent and two blinding exponents. */
  datatype Draws = Draws(draw: nat, b1: nat, b2: nat)

  /** The commitments, before the responses are known. */
  function Commit(key: int, incoming: Ciphertext, draws: Draws, group: Group): Proof {
    var p := group.p;
    var g3 := Multiply(Power(incoming.d1, draws.b1, p), Invert(Power(key, draws.b2, p), p), p);
    Proof(Power(group.g, draws.b1, p), Power(group.g, draws.b2, p), g3, 0, 0)
  }

  /** The challenge for a delivery from the holder of `a` to the holder of `key`. */
  function Challenge(message: Message, a: nat, key: int, incoming: Ciphertext, hash: Hash, draws: Draws, group: Group): nat {
    var outgoing := Encrypted(message, key, draws.draw, group);
    HashElements(hash, incoming, outgoing, PublicKey(a, group), key, Commit(key, incoming, draws, group))
  }

  function ProofOf(message: Message, a: nat, key: int, incoming: Ciphertext, hash: Hash, draws: Draws, group: Group): Proof {
    var x := Challenge(message, a, key, incoming, hash, draws, group);
    Commit(key, incoming, draws, group).(s := a * x + draws.b1, r := draws.draw * x + draws.b2)
  }

  method EncryptWithProof(message: Message, a: nat, key: int, incoming: Ciphertext, hash: Hash, draws: Draws, group: Group)
    returns (outgoing: Ciphertext, proof: Proof)
    ensures outgoing == Encrypted(message, key, draws.draw, group)
    ensures proof == ProofOf(message, a, key, incoming, hash, draws, group)
  {
    var p := group.p;
    var m := Encode(message);
    outgoing := Ciphertext(Multiply(m, Power(key, draws.draw, p), p), Power(group.g, draws.draw, p));
    var myPublicElement := Power(group.g, a, p);
    var g1 := Power(group.g, draws.b1, p);
    var g2 := Power(group.g, draws.b2, p);
    var g3 := Multiply(Power(incoming.d1, draws.b1, p), Invert(Power(key, draws.b2, p), p), p);
    var x := hash(incoming, outgoing, myPublicElement, key, g1, g2, g3);
    var s := a * x + draws.b1;
    var r := draws.draw * x + draws.b2;
    proof := Proof(g1, g2, g3, s, r);
  }

  // ---- Completeness ----

  /** The shape shared by the first two equations. */
  lemma ResponseEquation(g: int, a: nat, x: nat, b: nat, p: Modulus)
    ensures a * x + b >= 0
    ensures Power(g, a * x + b, p) == Multiply(Power(Power(g, a, p), x, p), Power(g, b, p), p)
  {
    var u, v := Pow(Pow(g, a), x), Pow(g, b);
    ExponentSum(g, a, x, b);
    ResidueCongruent(Pow(g, a), p);
    PowerCongruent(Power(g, a, p), Pow(g, a), x, p);
    ResidueCongruent(v, p);
    ProductCongruent(Power(Power(g, a, p), x, p), u, Power(g, b, p), v, p);
    Reduced(Multiply(Power(Power(g, a, p), x, p), Power(g, b, p), p), u * v, p);
  }

  /**
    * The third equation, with `t` for the power of the incoming ciphertext and
    * `u * v` for what it should be: it holds exactly when they are congruent.
    */
  lemma Balance(u: int, b: int, v: int, f: int, h: int, t: int, i1: int, i2: int, i3: int, p: Modulus)
    requires Congruent(t * i1, 1, p) && Congruent((b * h) * i2, 1, p) && Congruent(h * i3, 1, p)
    requires Invertible(f, p)
    ensures Congruent(u * b * i1 * (v * f) * i2, f * i3, p) <==> Congruent(u * v, t, p)
  {
    var l, g, k := u * b * i1 * (v * f) * i2, f * i3, t * h;
    LeftSide(u, b, v, f, h, t, i1, i2, p);
    RightSide(f, h, t, i3, p);
    assert Invertible(t, p) && Invertible(h, p);
    InvertibleProduct(t, h, p);
    if Congruent(l, g, p) {
      Scale(k, l, g, p);
      Flip(k * l, f * (u * v), p);
      Chain(f * (u * v), k * l, k * g, p);
      Chain(f * (u * v), k * g, f * t, p);
      Cancel(f, u * v, t, p);
    }
    if Congruent(u * v, t, p) {
      Scale(f, u * v, t, p);
      Chain(k * l, f * (u * v), f * t, p);
      Flip(k * g, f * t, p);
      Chain(k * l, f * t, k * g, p);
      Cancel(k, l, g, p);
    }
  }

  lemma LeftSide(u: int, b: int, v: int, f: int, h: int, t: int, i1: int, i2: int, p: Modulus)
    requires Congruent(t * i1, 1, p) && Congruent((b * h) * i2, 1, p)
    ensures Congruent((t * h) * (u * b * i1 * (v * f) * i2), f * (u * v), p)
  {
    Times(t * i1, 1, (b * h) * i2, 1, p);
    Scale(f * (u * v), (t * i1) * ((b * h) * i2), 1 * 1, p);
    LeftFactors(u, b, v, f, h, t, i1, i2);
  }

  lemma LeftFactors(u: int, b: int, v: int, f: int, h: int, t: int, i1: int, i2: int)
    ensures (t * h) * (u * b * i1 * (v * f) * i2) == f * (u * v) * ((t * i1) * ((b * h) * i2))
  {
    calc {
      (t * h) * (u * b * i1 * (v * f) * i2);
      (t * i1) * (h * (u * b * (v * f) * i2));
      (t * i1) * ((b * h) * i2 * (u * (v * f)));
      f * (u * v) * ((t * i1) * ((b * h) * i2));
    }
  }

  lemma RightSide(f: int, h: int, t: int, i3: int, p: Modulus)
    requires Congruent(h * i3, 1, p)
    ensures Congruent((t * h) * (f * i3), f * t, p)
  {
    Scale(f * t, h * i3, 1, p);
    Interchange(t, h, f, i3);
    Interchange(f, i3, t, h);
    assert f * t * (h * i3) == (t * h) * (f * i3);
  }

  /** The inverses the verifier takes: of the incoming power, of the key's response power and of the key's commitment. */
  lemma Inverses(c1: int, key: int, draws: Draws, x: nat, p: Modulus)
    requires Invertible(c1, p) && Invertible(key, p)
    ensures draws.draw * x + draws.b2 >= 0
    ensures var b, h := Pow(Pow(key, draws.draw), x), Pow(key, draws.b2);
            && Congruent(Power(c1, x, p) * Invert(Power(c1, x, p), p), 1, p)
            && Congruent((b * h) * Invert(Power(key, draws.draw * x + draws.b2, p), p), 1, p)
            && Congruent(h * Invert(Power(key, draws.b2, p), p), 1, p)
  {
    var b, h := Pow(Pow(key, draws.draw), x), Pow(key, draws.b2);
    InvertiblePow(c1, x, p);
    ResidueCongruent(Pow(c1, x), p);
    Flip(Power(c1, x, p), Pow(c1, x), p);
    InvertibleCongruent(Pow(c1, x), Power(c1, x, p), p);
    InvertCorrect(Power(c1, x, p), p);
    ExponentSum(key, draws.draw, x, draws.b2);
    InvertiblePow(key, draws.draw * x + draws.b2, p);
    ResidueCongruent(b * h, p);
    InvertOther(b * h, Power(key, draws.draw * x + draws.b2, p), p);
    InvertiblePow(key, draws.b2, p);
    ResidueCongruent(h, p);
    InvertOther(h, Power(key, draws.b2, p), p);
  }

  /** The verifier's left side, multiplied out. */
  lemma ThirdExpanded(m: nat, a: nat, x: nat, key: int, incoming: Ciphertext, draws: Draws, second: Ciphertext, proof: Proof, p: Modulus)
    requires second.c1 == Multiply(m, Power(key, draws.draw, p), p)
    requires proof.s == a * x + draws.b1
    ensures Congruent(Third(proof, incoming, second, key, x, p),
                      Pow(m, x) * Pow(Pow(key, draws.draw), x) * Invert(Power(incoming.c1, x, p), p)
                      * (Pow(Pow(incoming.d1, a), x) * Pow(incoming.d1, draws.b1)) * Invert(Power(key, proof.r, p), p), p)
  {
    var u, b := Pow(m, x), Pow(Pow(key, draws.draw), x);
    var v, f := Pow(Pow(incoming.d1, a), x), Pow(incoming.d1, draws.b1);
    var i1, i2 := Invert(Power(incoming.c1, x, p), p), Invert(Power(key, proof.r, p), p);
    Same(m, p);
    ResidueCongruent(Pow(key, draws.draw), p);
    ProductCongruent(m, m, Power(key, draws.draw, p), Pow(key, draws.draw), p);
    PowerCongruent(second.c1, m * Pow(key, draws.draw), x, p);
    PowProduct(m, Pow(key, draws.draw), x);
    Same(i1, p);
    ProductCongruent(Power(second.c1, x, p), u * b, i1, i1, p);
    ExponentSum(incoming.d1, a, x, draws.b1);
    ResidueCongruent(v * f, p);
    ProductCongruent(Multiply(Power(second.c1, x, p), i1, p), u * b * i1, Power(incoming.d1, proof.s, p), v * f, p);
    Same(i2, p);
    ProductCongruent(Multiply(Multiply(Power(second.c1, x, p), i1, p), Power(incoming.d1, proof.s, p), p),
                     u * b * i1 * (v * f), i2, i2, p);
  }

  /** What the third equation says of an honest prover: the incoming ciphertext holds the message too, up to the challenge. */
  lemma ThirdEquation(message: Message, a: nat, key: int, incoming: Ciphertext, hash: Hash, draws: Draws, group: Group)
    requires Invertible(incoming.c1, group.p) && Invertible(incoming.d1, group.p) && Invertible(key, group.p)
    ensures var proof := ProofOf(message, a, key, incoming, hash, draws, group);
            var x := Challenge(message, a, key, incoming, hash, draws, group);
            Third(proof, incoming, Encrypted(message, key, draws.draw, group), key, x, group.p) == proof.g3
            <==> Congruent(Pow(Encode(message) * Pow(incoming.d1, a), x), Pow(incoming.c1, x), group.p)
  {
    var p, m, d := group.p, Encode(message), incoming.d1;
    var proof := ProofOf(message, a, key, incoming, hash, draws, group);
    var x := Challenge(message, a, key, incoming, hash, draws, group);
    var u, b, v := Pow(m, x), Pow(Pow(key, draws.draw), x), Pow(Pow(d, a), x);
    var f, h, t := Pow(d, draws.b1), Pow(key, draws.b2), Power(incoming.c1, x, p);
    var i1, i2, i3 := Invert(t, p), Invert(Power(key, proof.r, p), p), Invert(Power(key, draws.b2, p), p);
    Inverses(incoming.c1, key, draws, x, p);
    InvertiblePow(d, draws.b1, p);
    Balance(u, b, v, f, h, t, i1, i2, i3, p);
    ThirdExpanded(m, a, x, key, incoming, draws, Encrypted(message, key, draws.draw, group), proof, p);
    ResidueCongruent(f, p);
    Same(i3, p);
    ProductCongruent(Power(d, draws.b1, p), f, i3, i3, p);
    var third := Third(proof, incoming, Encrypted(message, key, draws.draw, group), key, x, p);
    EqualIffCongruent(third, u * b * i1 * (v * f) * i2, proof.g3, f * i3, p);
    PowProduct(m, Pow(d, a), x);
    ResidueCongruent(Pow(incoming.c1, x), p);
    SwapRight(u * v, t, Pow(incoming.c1, x), p);
  }

  lemma EqualIffCongruent(r: int, a: int, s: int, b: int, p: Modulus)
    requires 0 <= r < p && 0 <= s < p
    requires Congruent(r, a, p) && Congruent(s, b, p)
    ensures r == s <==> Congruent(a, b, p)
  {
    Flip(r, a, p);
    if r == s {
      Chain(a, r, b, p);
    }
    if Congruent(a, b, p) {
      Chain(r, a, b, p);
      Flip(s, b, p);
      Chain(r, b, s, p);
      ResidueUnique(r, s, p);
    }
  }

  lemma SwapRight(a: int, t: int, c: int, p: Modulus)
    requires Congruent(t, c, p)
    ensures Congruent(a, t, p) <==> Congruent(a, c, p)
  {
    Flip(t, c, p);
    if Congruent(a, t, p) { Chain(a, t, c, p); }
    if Congruent(a, c, p) { Chain(a, c, t, p); }
  }

  /**
    * An honest proof is accepted exactly when the incoming ciphertext, raised to
    * the challenge, is an encryption of the same message.
    */
  lemma Accepted(message: Message, a: nat, key: int, incoming: Ciphertext, hash: Hash, draws: Draws, group: Group)
    requires Invertible(incoming.c1, group.p) && Invertible(incoming.d1, group.p) && Invertible(key, group.p)
    ensures VerifyDeliveryProof(ProofOf(message, a, key, incoming, hash, draws, group), incoming,
                                Encrypted(message, key, draws.draw, group), PublicKey(a, group), key, hash, group)
       <==> Congruent(Pow(Encode(message) * Pow(incoming.d1, a), Challenge(message, a, key, incoming, hash, draws, group)),
                      Pow(incoming.c1, Challenge(message, a, key, incoming, hash, draws, group)), group.p)
  {
    var x := Challenge(message, a, key, incoming, hash, draws, group);
    ResponseEquation(group.g, a, x, draws.b1, group.p);
    ResponseEquation(group.g, draws.draw, x, draws.b2, group.p);
    ThirdEquation(message, a, key, incoming, hash, draws, group);
  }

  /** What decrypting says about a ciphertext: its number is the message times the shared secret. */
  lemma DecryptsTo(incoming: Ciphertext, m: nat, a: nat, group: Group)
    requires Invertible(incoming.d1, group.p)
    requires Plain(incoming, a, group) == m % group.p
    ensures Congruent(incoming.c1, m * Pow(incoming.d1, a), group.p)
  {
    var p := group.p;
    var t, s := Pow(incoming.d1, a), Power(incoming.d1, a, group.p);
    var i, r := Invert(s, p), Plain(incoming, a, group);
    InvertiblePow(incoming.d1, a, p);
    ResidueCongruent(t, p);
    InvertOther(t, s, p);
    MultiplyCongruent(incoming.c1, i, p);
    Flip(r, incoming.c1 * i, p);
    ResidueCongruent(m, p);
    Chain(incoming.c1 * i, r, m, p);
    Scale(t, incoming.c1 * i, m, p);
    Scale(incoming.c1, t * i, 1, p);
    Regroup(incoming.c1, i, t);
    Regroup(t, i, incoming.c1);
    assert t * (incoming.c1 * i) == incoming.c1 * (t * i);
    Flip(incoming.c1 * (t * i), incoming.c1 * 1, p);
    Chain(incoming.c1 * 1, incoming.c1 * (t * i), t * m, p);
  }

  /**
    * Completeness: when the incoming ciphertext decrypts to the message under the
    * prover's key, the proof passes all three equations, whatever the draws and
    * whatever the hash function.
    */
  lemma Completeness(message: Message, a: nat, key: int, incoming: Ciphertext, hash: Hash, draws: Draws, group: Group)
    requires Plain(incoming, a, group) == Encode(message) % group.p
    requires Invertible(Encode(message), group.p) && Invertible(incoming.d1, group.p) && Invertible(key, group.p)
    ensures VerifyDeliveryProof(ProofOf(message, a, key, incoming, hash, draws, group), incoming,
                                Encrypted(message, key, draws.draw, group), PublicKey(a, group), key, hash, group)
  {
    var p, product := group.p, Encode(message) * Pow(incoming.d1, a);
    DecryptsTo(incoming, Encode(message), a, group);
    Flip(incoming.c1, product, p);
    InvertiblePow(incoming.d1, a, p);
    InvertibleProduct(Encode(message), Pow(incoming.d1, a), p);
    InvertibleCongruent(product, incoming.c1, p);
    PowCongruent(product, incoming.c1, Challenge(message, a, key, incoming, hash, draws, group), p);
    Accepted(message, a, key, incoming, hash, draws, group);
  }

  // ---- What the verifier accepts ----

  /**
    * The three equations without inverses: both responses fit their commitments,
    * and so does the quotient of the ciphertexts.
    */
  ghost predicate Responds(proof: Proof, first: Ciphertext, second: Ciphertext, firstKey: int, secondKey: int, x: nat, group: Group) {
    var g, p := group.g, group.p;
    && Congruent(Pow(g, proof.s), Pow(firstKey, x) * proof.g1, p)
    && Congruent(Pow(g, proof.r), Pow(second.d1, x) * proof.g2, p)
    && Congruent(Pow(second.c1, x) * Pow(first.d1, proof.s), proof.g3 * (Pow(first.c1, x) * Pow(secondKey, proof.r)), p)
  }

  /** A proof is accepted exactly when it meets all three of them, whatever the hash function. */
  lemma VerifierExactly(proof: Proof, first: Ciphertext, second: Ciphertext, firstKey: int, secondKey: int, hash: Hash, group: Group)
    requires Invertible(first.c1, group.p) && Invertible(secondKey, group.p) && 0 <= proof.g3 < group.p
    ensures VerifyDeliveryProof(proof, first, second, firstKey, secondKey, hash, group)
       <==> Responds(proof, first, second, firstKey, secondKey,
                     hash(first, second, firstKey, secondKey, proof.g1, proof.g2, proof.g3), group)
  {
    var x := HashElements(hash, first, second, firstKey, secondKey, proof);
    ResponseMeans(group.g, proof.s, firstKey, x, proof.g1, group.p);
    ResponseMeans(group.g, proof.r, second.d1, x, proof.g2, group.p);
    ThirdMeans(proof, first, second, secondKey, x, group.p);
  }

  lemma ResponseMeans(g: int, s: nat, key: int, x: nat, commitment: int, p: Modulus)
    ensures Power(g, s, p) == Multiply(Power(key, x, p), commitment, p) <==> Congruent(Pow(g, s), Pow(key, x) * commitment, p)
  {
    ResidueCongruent(Pow(g, s), p);
    ResidueCongruent(Pow(key, x), p);
    Same(commitment, p);
    ProductCongruent(Power(key, x, p), Pow(key, x), commitment, commitment, p);
    EqualIffCongruent(Power(g, s, p), Pow(g, s), Multiply(Power(key, x, p), commitment, p), Pow(key, x) * commitment, p);
  }

  lemma ThirdMeans(proof: Proof, first: Ciphertext, second: Ciphertext, secondKey: int, x: nat, p: Modulus)
    requires Invertible(first.c1, p) && Invertible(secondKey, p) && 0 <= proof.g3 < p
    ensures Third(proof, first, second, secondKey, x, p) == proof.g3
       <==> Congruent(Pow(second.c1, x) * Pow(first.d1, proof.s), proof.g3 * (Pow(first.c1, x) * Pow(secondKey, proof.r)), p)
  {
    var a, b, t, h := Pow(second.c1, x), Pow(first.d1, proof.s), Pow(first.c1, x), Pow(secondKey, proof.r);
    var i1, i2 := Invert(Power(first.c1, x, p), p), Invert(Power(secondKey, proof.r, p), p);
    InverseOfPower(first.c1, x, p);
    InverseOfPower(secondKey, proof.r, p);
    ThirdMultiplied(proof, first, second, secondKey, x, p);
    Same(proof.g3, p);
    EqualIffCongruent(Third(proof, first, second, secondKey, x, p), a * i1 * b * i2, proof.g3, proof.g3, p);
    CrossMultiplied(a, b, i1, i2, t, h, proof.g3, p);
  }

  lemma InverseOfPower(a: int, n: nat, p: Modulus)
    requires Invertible(a, p)
    ensures Congruent(Pow(a, n) * Invert(Power(a, n, p), p), 1, p)
  {
    InvertiblePow(a, n, p);
    ResidueCongruent(Pow(a, n), p);
    InvertOther(Pow(a, n), Power(a, n, p), p);
  }

  lemma ThirdMultiplied(proof: Proof, first: Ciphertext, second: Ciphertext, secondKey: int, x: nat, p: Modulus)
    ensures var i1, i2 := Invert(Power(first.c1, x, p), p), Invert(Power(secondKey, proof.r, p), p);
            Congruent(Third(proof, first, second, secondKey, x, p), Pow(second.c1, x) * i1 * Pow(first.d1, proof.s) * i2, p)
  {
    var a, b := Pow(second.c1, x), Pow(first.d1, proof.s);
    var i1, i2 := Invert(Power(first.c1, x, p), p), Invert(Power(secondKey, proof.r, p), p);
    ResidueCongruent(a, p);
    ResidueCongruent(b, p);
    Same(i1, p);
    Same(i2, p);
    ProductCongruent(Power(second.c1, x, p), a, i1, i1, p);
    ProductCongruent(Multiply(Power(second.c1, x, p), i1, p), a * i1, Power(first.d1, proof.s, p), b, p);
    ProductCongruent(Multiply(Multiply(Power(second.c1, x, p), i1, p), Power(first.d1, proof.s, p), p), a * i1 * b, i2, i2, p);
  }

  lemma CrossMultiplied(a: int, b: int, i1: int, i2: int, t: int, h: int, c: int, p: Modulus)
    requires Congruent(t * i1, 1, p) && Congruent(h * i2, 1, p)
    ensures Congruent(a * i1 * b * i2, c, p) <==> Congruent(a * b, c * (t * h), p)
  {
    var l, k := a * i1 * b * i2, t * h;
    Times(t * i1, 1, h * i2, 1, p);
    Scale(a * b, (t * i1) * (h * i2), 1 * 1, p);
    BothInverses(a, b, i1, i2, t, h);
    assert Congruent(k * l, a * b, p);
    assert Invertible(t, p) && Invertible(h, p);
    InvertibleProduct(t, h, p);
    if Congruent(l, c, p) {
      Scale(k, l, c, p);
      Flip(k * l, a * b, p);
      Chain(a * b, k * l, k * c, p);
    }
    if Congruent(a * b, c * k, p) {
      Chain(k * l, a * b, k * c, p);
      Cancel(k, l, c, p);
    }
  }

  lemma BothInverses(a: int, b: int, i1: int, i2: int, t: int, h: int)
    ensures (t * h) * (a * i1 * b * i2) == (a * b) * ((t * i1) * (h * i2))
  {
    calc {
      (t * h) * (a * i1 * b * i2);
      (t * i1) * (h * i2 * (a * b));
      (a * b) * ((t * i1) * (h * i2));
    }
  }

  /** A challenge leaves no choice of the answers: two that are accepted are the same as powers. */
  lemma AnswersAgree(proof: Proof, other: Proof, first: Ciphertext, second: Ciphertext, firstKey: int, secondKey: int,
                     hash: Hash, group: Group)
    requires other == proof.(s := other.s, r := other.r)
    requires VerifyDeliveryProof(proof, first, second, firstKey, secondKey, hash, group)
    requires VerifyDeliveryProof(other, first, second, firstKey, secondKey, hash, group)
    ensures Power(group.g, proof.s, group.p) == Power(group.g, other.s, group.p)
    ensures Power(group.g, proof.r, group.p) == Power(group.g, other.r, group.p)
  {
    var x := HashElements(hash, first, second, firstKey, secondKey, proof);
    assert HashElements(hash, first, second, firstKey, secondKey, other) == x;
  }

  /**
    * Who can answer two challenges to the same commitments knows what is to be
    * proved: the answers tie the prover's key, the outgoing ciphertext and the
    * quotient of the two ciphertexts to one exponent each.
    */
  lemma TwoAnswers(proof: Proof, other: Proof, first: Ciphertext, second: Ciphertext, firstKey: int, secondKey: int,
                   hash: Hash, hash': Hash, group: Group)
    requires Invertible(first.c1, group.p) && Invertible(secondKey, group.p) && 0 <= proof.g3 < group.p
    requires other == proof.(s := other.s, r := other.r)
    requires VerifyDeliveryProof(proof, first, second, firstKey, secondKey, hash, group)
    requires VerifyDeliveryProof(other, first, second, firstKey, secondKey, hash', group)
    ensures var x := hash(first, second, firstKey, secondKey, proof.g1, proof.g2, proof.g3);
            var y := hash'(first, second, firstKey, secondKey, proof.g1, proof.g2, proof.g3);
            var g, p := group.g, group.p;
            && Congruent(Pow(g, proof.s) * Pow(firstKey, y), Pow(g, other.s) * Pow(firstKey, x), p)
            && Congruent(Pow(g, proof.r) * Pow(second.d1, y), Pow(g, other.r) * Pow(second.d1, x), p)
            && Congruent(Pow(second.c1, x) * Pow(first.d1, proof.s) * (Pow(first.c1, y) * Pow(secondKey, other.r)),
                         Pow(second.c1, y) * Pow(first.d1, other.s) * (Pow(first.c1, x) * Pow(secondKey, proof.r)), p)
  {
    var x := hash(first, second, firstKey, secondKey, proof.g1, proof.g2, proof.g3);
    var y := hash'(first, second, firstKey, secondKey, proof.g1, proof.g2, proof.g3);
    var g, p := group.g, group.p;
    VerifierExactly(proof, first, second, firstKey, secondKey, hash, group);
    VerifierExactly(other, first, second, firstKey, secondKey, hash', group);
    SameCommitment(Pow(g, proof.s), Pow(g, other.s), Pow(firstKey, x), Pow(firstKey, y), proof.g1, p);
    SameCommitment(Pow(g, proof.r), Pow(g, other.r), Pow(second.d1, x), Pow(second.d1, y), proof.g2, p);
    var u, v := Pow(first.c1, x) * Pow(secondKey, proof.r), Pow(first.c1, y) * Pow(secondKey, other.r);
    SameCommitment(Pow(second.c1, x) * Pow(first.d1, proof.s), Pow(second.c1, y) * Pow(first.d1, other.s), u, v, proof.g3, p);
  }

  lemma SameCommitment(a: int, b: int, u: int, v: int, c: int, p: int)
    requires Congruent(a, u * c, p) || Congruent(a, c * u, p)
    requires Congruent(b, v * c, p) || Congruent(b, c * v, p)
    ensures Congruent(a * v, b * u, p)
  {
    Same(u, p);
    Same(v, p);
    Times(a, u * c, v, v, p);
    Times(b, v * c, u, u, p);
    assert u * c * v == v * c * u;
    Flip(b * u, v * c * u, p);
    Chain(a * v, u * c * v, b * u, p);
  }
}
