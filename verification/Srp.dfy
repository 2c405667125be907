/**
 * The server side of SRP-6a, with the hash left uninterpreted and the group
 * modulus a parameter: nothing below needs it to be prime.
 */
module Srp {
  import opened Prelude
  import opened Codec
  import opened ModArith

  /** The group and the hash. The generator is 2. */
  datatype Group = Group(N: nat, hash: seq<Byte> -> seq<Byte>)

  const HASH_BYTES: nat := 32
  const GENERATOR: nat := 2

  ghost predicate GroupOk(G: Group)
  {
    G.N > 1 && G.N % 2 == 1 && forall m :: |G.hash(m)| == HASH_BYTES
  }

  datatype Error = BadHex | InvalidProof
  datatype Result<+T> = Ok(value: T) | Err(error: Error)

  /** Fields are set once, when the session is made. */
  datatype ServerSession = ServerSession(verifier: nat, b: nat, B: nat)

  function PadN(G: Group, x: nat): seq<Byte>
  {
    Padded(x, Width(G.N))
  }

  function XorByte(x: Byte, y: Byte): Byte
  {
    ((x as bv8) ^ (y as bv8)) as int
  }

  function XorBytes(s: seq<Byte>, t: seq<Byte>): seq<Byte>
    requires |s| == |t|
  {
    seq(|s|, i requires 0 <= i < |s| => XorByte(s[i], t[i]))
  }

  /** k = H(pad(N) || pad(g)). */
  function Multiplier(G: Group): nat
  {
    NatOf(G.hash(PadN(G, G.N) + PadN(G, GENERATOR)))
  }

  /** H(N) xor H(g). */
  ghost function XorNG(G: Group): seq<Byte>
    requires GroupOk(G)
  {
    XorBytes(G.hash(PadN(G, G.N)), G.hash(PadN(G, GENERATOR)))
  }

  /** computeXorNG as written: a buffer filled byte by byte. */
  method ComputeXorNG(G: Group) returns (out: array<Byte>)
    requires GroupOk(G)
    ensures fresh(out)
    ensures out[..] == XorNG(G)
  {
    var hN, hG := G.hash(PadN(G, G.N)), G.hash(PadN(G, GENERATOR));
    out := new Byte[HASH_BYTES](_ => 0);
    for i := 0 to out.Length
      invariant out[..i] == XorBytes(hN, hG)[..i]
    {
      out[i] := XorByte(hN[i], hG[i]);
      assert out[..i + 1] == out[..i] + [out[i]];
    }
    assert out[..] == out[..out.Length];
  }

  /** B = (k·v + g^b) mod N. */
  function PublicEphemeral(G: Group, v: nat, b: nat): nat
    requires G.N > 0
  {
    ((Multiplier(G) * v) % G.N + ModExp(GENERATOR, b, G.N)) % G.N
  }

  /** NewServerSession, with the 32 random bytes as input. */
  function NewServerSession(G: Group, verifierHex: string, random: seq<Byte>): Result<ServerSession>
    requires G.N > 0
  {
    var bytes := HexDecode(verifierHex);
    if bytes.None? then Err(BadHex)
    else
      var v, b := NatOf(bytes.value), NatOf(random);
      Ok(ServerSession(v, b, PublicEphemeral(G, v, b)))
  }

  /** u = H(pad(A) || pad(B)). */
  function Scramble(G: Group, A: nat, B: nat): nat
  {
    NatOf(G.hash(PadN(G, A) + PadN(G, B)))
  }

  /** S = (A · v^u)^b mod N. */
  function ServerSecret(G: Group, A: nat, v: nat, b: nat, u: nat): nat
    requires G.N > 0
  {
    ModExp((A * ModExp(v, u, G.N)) % G.N, b, G.N)
  }

  function SessionKey(G: Group, A: nat, v: nat, b: nat, B: nat): seq<Byte>
    requires G.N > 0
  {
    G.hash(PadN(G, ServerSecret(G, A, v, b, Scramble(G, A, B))))
  }

  ghost function ComputeM1(G: Group, A: nat, B: nat, key: seq<Byte>, username: seq<Byte>, salt: seq<Byte>): seq<Byte>
    requires GroupOk(G)
  {
    G.hash(XorNG(G) + G.hash(username) + salt + PadN(G, A) + PadN(G, B) + key)
  }

  function ComputeM2(G: Group, A: nat, m1: seq<Byte>, key: seq<Byte>): seq<Byte>
  {
    G.hash(PadN(G, A) + m1 + key)
  }

  ghost function VerifyClientProof(G: Group, s: ServerSession, aHex: string, m1Hex: string,
                                   username: seq<Byte>, saltHex: string): Result<string>
    requires GroupOk(G)
  {
    var aBytes := HexDecode(aHex);
    if aBytes.None? then Err(BadHex)
    else
      var A := NatOf(aBytes.value);
      if A % G.N == 0 then Err(InvalidProof)
      else
        var salt := HexDecode(saltHex);
        if salt.None? then Err(BadHex)
        else
          var key := SessionKey(G, A, s.verifier, s.b, s.B);
          var want := ComputeM1(G, A, s.B, key, username, salt.value);
          var got := HexDecode(m1Hex);
          if got.None? then Err(BadHex)
          else if want != got.value then Err(InvalidProof)
          else Ok(HexEncode(ComputeM2(G, A, want, key)))
  }

  /** VerifyClientProof as written. */
  method CheckProof(G: Group, s: ServerSession, aHex: string, m1Hex: string, username: seq<Byte>, saltHex: string)
    returns (answer: Result<string>)
    requires GroupOk(G)
    ensures answer == VerifyClientProof(G, s, aHex, m1Hex, username, saltHex)
  {
    var aBytes := HexDecode(aHex);
    if aBytes.None? {
      return Err(BadHex);
    }
    var A := NatOf(aBytes.value);
    if A % G.N == 0 {
      return Err(InvalidProof);
    }
    var salt := HexDecode(saltHex);
    if salt.None? {
      return Err(BadHex);
    }
    var key := SessionKey(G, A, s.verifier, s.b, s.B);
    var xorNG := ComputeXorNG(G);
    var want := G.hash(xorNG[..] + G.hash(username) + salt.value + PadN(G, A) + PadN(G, s.B) + key);
    var got := HexDecode(m1Hex);
    if got.None? {
      return Err(BadHex);
    }
    if want != got.value {
      return Err(InvalidProof);
    }
    answer := Ok(HexEncode(ComputeM2(G, A, want, key)));
  }

  // ---------- the client, as section 2.6 of RFC 5054 describes it ----------
  // Written out from the hash, padding and powers; nothing is taken from the server side above.

  /** k = H(pad(N) || pad(g)). */
  function ClientK(G: Group): nat
  {
    NatOf(G.hash(Padded(G.N, Width(G.N)) + Padded(2, Width(G.N))))
  }

  /** u = H(pad(A) || pad(B)). */
  function ClientU(G: Group, A: nat, B: nat): nat
  {
    NatOf(G.hash(Padded(A, Width(G.N)) + Padded(B, Width(G.N))))
  }

  /** The B a client should be sent: (k·v + g^b) mod N. */
  function DueB(G: Group, v: nat, b: nat): nat
    requires G.N > 0
  {
    (ClientK(G) * v + Pow(2, b)) % G.N
  }

  /** S = (B - k·g^x)^(a + u·x) mod N. */
  ghost function ClientSecret(G: Group, B: nat, a: nat, x: nat, u: nat): nat
    requires G.N > 0
  {
    Pow((B - ClientK(G) * Pow(2, x)) % G.N, a + Product(u, x)) % G.N
  }

  function Product(u: nat, x: nat): nat
  {
    u * x
  }

  /** K = H(pad(S)). */
  ghost function KeyOf(G: Group, S: nat): seq<Byte>
  {
    G.hash(Padded(S, Width(G.N)))
  }

  ghost function ClientKey(G: Group, A: nat, B: nat, a: nat, x: nat): seq<Byte>
    requires G.N > 0
  {
    KeyOf(G, ClientSecret(G, B, a, x, ClientU(G, A, B)))
  }

  /** The message whose hash is M1: H(N) xor H(g), H(I), the salt, pad(A), pad(B), K. */
  ghost function ProofMessage(G: Group, A: nat, B: nat, key: seq<Byte>, username: seq<Byte>, salt: seq<Byte>): seq<Byte>
    requires GroupOk(G)
  {
    var w := Width(G.N);
    var hN, hg := G.hash(Padded(G.N, w)), G.hash(Padded(2, w));
    seq(32, i requires 0 <= i < 32 => ((hN[i] as bv8) ^ (hg[i] as bv8)) as int) +
    G.hash(username) + salt + Padded(A, w) + Padded(B, w) + key
  }

  ghost function ClientM1(G: Group, A: nat, B: nat, key: seq<Byte>, username: seq<Byte>, salt: seq<Byte>): seq<Byte>
    requires GroupOk(G)
  {
    G.hash(ProofMessage(G, A, B, key, username, salt))
  }

  /** M2 = H(pad(A) || M1 || K). */
  ghost function ClientM2(G: Group, A: nat, m1: seq<Byte>, key: seq<Byte>): seq<Byte>
  {
    G.hash(Padded(A, Width(G.N)) + m1 + key)
  }

  // ---------- what the server computes, in the same terms ----------

  lemma ServerM1(G: Group, A: nat, B: nat, key: seq<Byte>, username: seq<Byte>, salt: seq<Byte>)
    requires GroupOk(G)
    ensures ComputeM1(G, A, B, key, username, salt) == ClientM1(G, A, B, key, username, salt)
  {
    var w := Width(G.N);
    var hN, hg := G.hash(Padded(G.N, w)), G.hash(Padded(2, w));
    assert XorNG(G) == seq(32, i requires 0 <= i < 32 => ((hN[i] as bv8) ^ (hg[i] as bv8)) as int);
  }

  /** S = (A · v^u)^b mod N, whatever is reduced in between. */
  lemma ServerSecretIs(G: Group, A: nat, v: nat, b: nat, u: nat)
    requires G.N > 0
    ensures ServerSecret(G, A, v, b, u) == Pow(A * Pow(v, u), b) % G.N
  {
    var n := G.N;
    CongruentMod(Pow(v, u), n);
    CongruentMul(A, A, ModExp(v, u, n), Pow(v, u), n);
    CongruentMod(A * ModExp(v, u, n), n);
    CongruentPow((A * ModExp(v, u, n)) % n, A * Pow(v, u), b, n);
  }

  /** The secret of a session for a client's A. */
  ghost function SessionSecret(G: Group, s: ServerSession, A: nat): nat
    requires G.N > 0
  {
    Pow(A * Pow(s.verifier, ClientU(G, A, s.B)), s.b) % G.N
  }

  /** A new session: the verifier as stored, b from the random bytes, B = (k·v + g^b) mod N. */
  lemma SessionMade(G: Group, verifierHex: string, random: seq<Byte>)
    requires G.N > 0
    ensures var session := NewServerSession(G, verifierHex, random);
      && (session.Ok? <==> HexDecode(verifierHex).Some?)
      && (session.Ok? ==>
            var ServerSession(v, b, B) := session.value;
            v == NatOf(HexDecode(verifierHex).value) && b == NatOf(random) && B == DueB(G, v, b))
  {
    if HexDecode(verifierHex).Some? {
      EphemeralIs(G, NatOf(HexDecode(verifierHex).value), NatOf(random));
    }
  }

  lemma EphemeralIs(G: Group, v: nat, b: nat)
    requires G.N > 0
    ensures PublicEphemeral(G, v, b) == DueB(G, v, b)
  {
    var kv, gb := ClientK(G) * v, Pow(2, b);
    CongruentMod(kv, G.N);
    CongruentMod(gb, G.N);
    CongruentAdd(kv % G.N, kv, gb % G.N, gb, G.N);
  }

  // ---------- both sides agree ----------

  /** With the stored verifier, what the client subtracts leaves g^b. */
  lemma ClientBase(G: Group, x: nat, b: nat)
    requires G.N > 0
    ensures Congruent(PublicEphemeral(G, ModExp(GENERATOR, x, G.N), b) - ClientK(G) * Pow(2, x), Pow(2, b), G.N)
  {
    var n, v, k := G.N, ModExp(GENERATOR, x, G.N), ClientK(G);
    EphemeralIs(G, v, b);
    CongruentMod(k * v + Pow(2, b), n);
    CongruentMod(Pow(2, x), n);
    CongruentMul(k, k, v, Pow(2, x), n);
    CongruentAdd((k * v + Pow(2, b)) % n, k * v + Pow(2, b), k * v, k * Pow(2, x), n);
    CongruentAdd((k * v + Pow(2, b)) % n, k * v + Pow(2, b), k * Pow(2, x), k * v, n);
  }

  /** The client's secret is g^(b·(a + u·x)). */
  lemma ClientSecretValue(G: Group, a: nat, b: nat, x: nat, u: nat)
    requires G.N > 0
    ensures var v := ModExp(GENERATOR, x, G.N);
      ClientSecret(G, PublicEphemeral(G, v, b), a, x, u) == Pow(Pow(GENERATOR, b), a + Product(u, x)) % G.N
  {
    var n, v := G.N, ModExp(GENERATOR, x, G.N);
    var diff := PublicEphemeral(G, v, b) - ClientK(G) * Pow(2, x);
    ClientBase(G, x, b);
    CongruentMod(diff, n);
    CongruentPow(diff % n, Pow(GENERATOR, b), a + Product(u, x), n);
  }

  /** The server's secret is g^((a + u·x)·b). */
  lemma ServerSecretValue(G: Group, a: nat, b: nat, x: nat, u: nat)
    requires G.N > 0
    ensures ServerSecret(G, ModExp(GENERATOR, a, G.N), ModExp(GENERATOR, x, G.N), b, u) ==
              Pow(Pow(GENERATOR, a + Product(u, x)), b) % G.N
  {
    var n := G.N;
    var A, v := ModExp(GENERATOR, a, n), ModExp(GENERATOR, x, n);
    var vu := ModExp(v, u, n);
    CongruentMod(Pow(GENERATOR, a), n);
    CongruentMod(Pow(GENERATOR, x), n);
    CongruentMod(Pow(v, u), n);
    CongruentPow(v, Pow(GENERATOR, x), u, n);
    PowMul(GENERATOR, x, u);
    assert x * u == Product(u, x);
    CongruentMul(A, Pow(GENERATOR, a), vu, Pow(GENERATOR, Product(u, x)), n);
    PowAdd(GENERATOR, a, Product(u, x));
    CongruentMod(A * vu, n);
    CongruentPow((A * vu) % n, Pow(GENERATOR, a + Product(u, x)), b, n);
  }

  /** For all exponents the two sides compute the same secret. */
  lemma SecretsAgree(G: Group, a: nat, b: nat, x: nat, u: nat)
    requires G.N > 0
    ensures var A, v := ModExp(GENERATOR, a, G.N), ModExp(GENERATOR, x, G.N);
      ServerSecret(G, A, v, b, u) == ClientSecret(G, PublicEphemeral(G, v, b), a, x, u)
  {
    var e := a + Product(u, x);
    ServerSecretValue(G, a, b, x, u);
    ClientSecretValue(G, a, b, x, u);
    PowMul(GENERATOR, e, b);
    PowMul(GENERATOR, b, e);
    assert e * b == b * e;
  }

  /**
   * The whole handshake over the wire formats: whatever the password key, the
   * ephemerals, the salt and the user name, the server accepts an honest
   * client's proof and answers with the M2 that client expects.
   */
  lemma HonestHandshakeAccepted(G: Group, x: nat, a: nat, random: seq<Byte>, username: seq<Byte>, salt: seq<Byte>)
    requires GroupOk(G)
    ensures var v, A := Pow(2, x) % G.N, Pow(2, a) % G.N;
      var session := NewServerSession(G, HexEncode(BytesOf(v)), random);
      && session.Ok?
      && var B := session.value.B;
         var key := ClientKey(G, A, B, a, x);
         var m1 := ClientM1(G, A, B, key, username, salt);
         VerifyClientProof(G, session.value, HexEncode(Padded(A, Width(G.N))), HexEncode(m1), username, HexEncode(salt)) ==
           Ok(HexEncode(ClientM2(G, A, m1, key)))
  {
    var v, A, b := ModExp(GENERATOR, x, G.N), ModExp(GENERATOR, a, G.N), NatOf(random);
    var B := PublicEphemeral(G, v, b);
    var key := ClientKey(G, A, B, a, x);
    HexRoundTrip(BytesOf(v));
    NatOfBytes(v);
    HexRoundTrip(PadN(G, A));
    PaddedValue(A, Width(G.N));
    HexRoundTrip(salt);
    HexRoundTrip(ClientM1(G, A, B, key, username, salt));
    ServerM1(G, A, B, key, username, salt);
    SecretsAgree(G, a, b, x, ClientU(G, A, B));
    PowerOfTwoNotZero(a, G.N);
    CongruentMod(Pow(GENERATOR, a), G.N);
  }

  /** Every A that is a multiple of N is turned away, whatever proof comes with it. */
  lemma MultiplesOfNRejected(G: Group, s: ServerSession, k: nat, width: nat, m1Hex: string, username: seq<Byte>, saltHex: string)
    requires GroupOk(G)
    ensures k * G.N >= 0
    ensures VerifyClientProof(G, s, HexEncode(Padded(k * G.N, width)), m1Hex, username, saltHex) == Err(InvalidProof)
  {
    HexRoundTrip(Padded(k * G.N, width));
    PaddedValue(k * G.N, width);
    RemainderUnique(k * G.N, G.N, k, 0);
  }

  /** A proof is accepted exactly if it is the one written out above for the session's secret; the answer is then determined. */
  lemma OnlyTheProofIsAccepted(G: Group, s: ServerSession, aHex: string, m1Hex: string, username: seq<Byte>, saltHex: string)
    requires GroupOk(G)
    ensures var answer := VerifyClientProof(G, s, aHex, m1Hex, username, saltHex);
      var aBytes, salt, m1 := HexDecode(aHex), HexDecode(saltHex), HexDecode(m1Hex);
      && (answer.Ok? <==>
            && aBytes.Some? && salt.Some? && m1.Some? && NatOf(aBytes.value) % G.N != 0
            && var A := NatOf(aBytes.value);
               m1.value == ClientM1(G, A, s.B, KeyOf(G, SessionSecret(G, s, A)), username, salt.value))
      && (answer.Ok? ==>
            var A := NatOf(aBytes.value);
            answer.value == HexEncode(ClientM2(G, A, m1.value, KeyOf(G, SessionSecret(G, s, A)))))
  {
    if HexDecode(aHex).Some? && HexDecode(saltHex).Some? {
      var A := NatOf(HexDecode(aHex).value);
      ServerSecretIs(G, A, s.verifier, s.b, ClientU(G, A, s.B));
      ServerM1(G, A, s.B, KeyOf(G, SessionSecret(G, s, A)), username, HexDecode(saltHex).value);
    }
  }

  // ---------- a proof binds what went into it ----------

  /** The hash tells these two messages apart. */
  predicate NoCollision(G: Group, m: seq<Byte>, m': seq<Byte>)
  {
    G.hash(m) == G.hash(m') ==> m == m'
  }

  /** Equal ends of equal length can be cut off. */
  lemma CutEnd(p: seq<Byte>, q: seq<Byte>, p': seq<Byte>, q': seq<Byte>)
    requires p + q == p' + q' && |q| == |q'|
    ensures p == p' && q == q'
  {
    assert p == (p + q)[..|p|] && q == (p + q)[|p|..];
    assert p' == (p' + q')[..|p'|] && q' == (p' + q')[|p'|..];
  }

  /** Equal starts of equal length can be cut off. */
  lemma CutStart(p: seq<Byte>, q: seq<Byte>, p': seq<Byte>, q': seq<Byte>)
    requires p + q == p' + q' && |p| == |p'|
    ensures p == p' && q == q'
  {
    CutEnd(p, q, p', q');
  }

  /**
   * If the hash does not collide on the two messages, equal proofs have the same
   * key and B, and the same salt and A wherever the two can be told apart: salts of
   * one length, or ephemerals below N.
   */
  lemma EqualProofsAgree(G: Group, A: nat, B: nat, key: seq<Byte>, name: seq<Byte>, salt: seq<Byte>,
                         A': nat, B': nat, key': seq<Byte>, name': seq<Byte>, salt': seq<Byte>)
    requires GroupOk(G) && B < G.N && B' < G.N && |key| == |key'|
    requires ClientM1(G, A, B, key, name, salt) == ClientM1(G, A', B', key', name', salt')
    requires NoCollision(G, ProofMessage(G, A, B, key, name, salt), ProofMessage(G, A', B', key', name', salt'))
    ensures key == key' && B == B' && G.hash(name) == G.hash(name')
    ensures |salt| == |salt'| || (A < G.N && A' < G.N) ==> salt == salt' && A == A'
  {
    var w := Width(G.N);
    var hN, hg := G.hash(Padded(G.N, w)), G.hash(Padded(2, w));
    var head := seq(32, i requires 0 <= i < 32 => ((hN[i] as bv8) ^ (hg[i] as bv8)) as int);
    var a, b, a', b' := Padded(A, w), Padded(B, w), Padded(A', w), Padded(B', w);
    PaddedWidth(B, G.N);
    PaddedWidth(B', G.N);
    CutEnd(head + G.hash(name) + salt + a + b, key, head + G.hash(name') + salt' + a' + b', key');
    CutEnd(head + G.hash(name) + salt + a, b, head + G.hash(name') + salt' + a', b');
    PaddedInjective(B, B', w);
    MiddleAgrees(head, G.hash(name), salt, a, G.hash(name'), salt', a');
    if |salt| == |salt'| {
      CutStart(salt, a, salt', a');
      PaddedInjective(A, A', w);
    } else if A < G.N && A' < G.N {
      PaddedWidth(A, G.N);
      PaddedWidth(A', G.N);
      CutEnd(salt, a, salt', a');
    }
  }

  lemma MiddleAgrees(head: seq<Byte>, name: seq<Byte>, salt: seq<Byte>, a: seq<Byte>,
                     name': seq<Byte>, salt': seq<Byte>, a': seq<Byte>)
    requires head + name + salt + a == head + name' + salt' + a' && |name| == |name'|
    ensures name == name' && salt + a == salt' + a'
  {
    assert head + name + salt + a == (head + name) + (salt + a);
    assert head + name' + salt' + a' == (head + name') + (salt' + a');
    CutStart(head + name, salt + a, head + name', salt' + a');
    CutStart(head, name, head, name');
  }

  /**
   * A proof made with another secret than the session's is refused, unless the
   * hash collides on the two padded secrets or on the two proof messages.
   */
  lemma WrongSecretRefused(G: Group, s: ServerSession, aHex: string, S: nat, username: seq<Byte>, salt: seq<Byte>)
    requires GroupOk(G) && s.B < G.N && HexDecode(aHex).Some? && NatOf(HexDecode(aHex).value) % G.N != 0
    requires var A := NatOf(HexDecode(aHex).value);
      var due := SessionSecret(G, s, A);
      && S != due && NoCollision(G, Padded(S, Width(G.N)), Padded(due, Width(G.N)))
      && NoCollision(G, ProofMessage(G, A, s.B, KeyOf(G, S), username, salt),
                     ProofMessage(G, A, s.B, KeyOf(G, due), username, salt))
    ensures var A := NatOf(HexDecode(aHex).value);
      VerifyClientProof(G, s, aHex, HexEncode(ClientM1(G, A, s.B, KeyOf(G, S), username, salt)), username, HexEncode(salt)) ==
        Err(InvalidProof)
  {
    var A := NatOf(HexDecode(aHex).value);
    var due := SessionSecret(G, s, A);
    var m1 := ClientM1(G, A, s.B, KeyOf(G, S), username, salt);
    HexRoundTrip(m1);
    HexRoundTrip(salt);
    OnlyTheProofIsAccepted(G, s, aHex, HexEncode(m1), username, HexEncode(salt));
    if m1 == ClientM1(G, A, s.B, KeyOf(G, due), username, salt) {
      EqualProofsAgree(G, A, s.B, KeyOf(G, S), username, salt, A, s.B, KeyOf(G, due), username, salt);
      PaddedInjective(S, due, Width(G.N));
    }
  }

  // ---------- snapshots ----------

  datatype Snapshot = Snapshot(verifierHex: string, bHex: string, BHex: string)

  function TakeSnapshot(G: Group, s: ServerSession): Snapshot
  {
    Snapshot(HexEncode(BytesOf(s.verifier)), HexEncode(BytesOf(s.b)), HexEncode(PadN(G, s.B)))
  }

  function FromSnapshot(snap: Snapshot): Result<ServerSession>
  {
    var v, b, B := HexDecode(snap.verifierHex), HexDecode(snap.bHex), HexDecode(snap.BHex);
    if v.None? || b.None? || B.None? then Err(BadHex)
    else Ok(ServerSession(NatOf(v.value), NatOf(b.value), NatOf(B.value)))
  }

  /** Every session survives its snapshot: zero, leading zeros and all. */
  lemma SnapshotRoundTrip(G: Group, s: ServerSession)
    ensures FromSnapshot(TakeSnapshot(G, s)) == Ok(s)
  {
    HexRoundTrip(BytesOf(s.verifier));
    HexRoundTrip(BytesOf(s.b));
    HexRoundTrip(PadN(G, s.B));
    NatOfBytes(s.verifier);
    NatOfBytes(s.b);
    PaddedValue(s.B, Width(G.N));
  }
}
