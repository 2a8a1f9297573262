/** The rolling hash over token ids that guards every session's KV state
    (ds4_distributed.c, dist_token_hash_*). */
module TokenHash {
  import opened Bits

  type Token = int
  type Hash = h: nat | h < MODULUS

  const MODULUS: nat := 0x1_0000_0000_0000_0000
  const INIT: Hash := 1469598103934665603
  const PRIME: nat := 1099511628211
  /** The inverse of the odd multiplier modulo 2^64. */
  const PRIME_INVERSE: nat := 0xce965057aff6957b

  /** One round: absorb a byte, then multiply with 64-bit wrap-around. */
  function Absorb(h: Hash, b: nat): Hash {
    (Xor(h, b) * PRIME) % MODULUS
  }

  function AbsorbAll(h: Hash, bytes: seq<nat>): Hash
    decreases |bytes|
  {
    if bytes == [] then h
    else Absorb(AbsorbAll(h, bytes[..|bytes| - 1]), bytes[|bytes| - 1])
  }

  /** The four little-endian bytes of a token after the cast to uint32_t. */
  function TokenBytes(token: Token): (r: seq<nat>)
    ensures |r| == 4 && forall i :: 0 <= i < 4 ==> r[i] < 256
  {
    var t := token % 0x1_0000_0000;
    [t % 256, (t / 256) % 256, (t / 65536) % 256, (t / 16777216) % 256]
  }

  /** The four bytes are the token's 32-bit word, least significant first. */
  lemma TokenBytesSum(token: Token)
    ensures var r := TokenBytes(token);
            r[0] + 256 * r[1] + 65536 * r[2] + 16777216 * r[3] == token % 0x1_0000_0000
  {
    var t := token % 0x1_0000_0000;
    var u := t / 256;
    var v := u / 256;
    assert t / 65536 == v;
    assert t / 16777216 == v / 256;
    assert v / 256 < 256;
    hide TokenBytes;
    assert TokenBytes(token) == [t % 256, u % 256, v % 256, v / 256] by { BytesOfWord(token, t, u, v); }
  }

  lemma BytesOfWord(token: Token, t: nat, u: nat, v: nat)
    requires t == token % 0x1_0000_0000 && u == t / 256 && v == t / 65536 && t / 16777216 == v / 256 < 256
    ensures TokenBytes(token) == [t % 256, u % 256, v % 256, v / 256]
  {
  }

  function Bytes(tokens: seq<Token>): (r: seq<nat>)
    ensures |r| == 4 * |tokens|
    ensures forall i :: 0 <= i < |r| ==> r[i] < 256
  {
    if tokens == [] then []
    else Bytes(tokens[..|tokens| - 1]) + TokenBytes(tokens[|tokens| - 1])
  }

  /** The hash of `tokens` continued from state `h`. */
  function Continue(h: Hash, tokens: seq<Token>): Hash {
    AbsorbAll(h, Bytes(tokens))
  }

  function Prefix(tokens: seq<Token>): Hash {
    Continue(INIT, tokens)
  }

  // --- The loops of the source, against the functions above ---

  method UpdateToken(h0: Hash, token: Token) returns (h: Hash)
    ensures h == AbsorbAll(h0, TokenBytes(token))
  {
    var t := token % 0x1_0000_0000;
    ghost var bytes := TokenBytes(token);
    h := h0;
    var shift := 1;
    for i := 0 to 4
      invariant shift == [1, 256, 65536, 16777216, 0x1_0000_0000][i]
      invariant h == AbsorbAll(h0, bytes[..i])
    {
      assert bytes[..i + 1][..i] == bytes[..i];
      assert bytes[i] == (t / shift) % 256;
      h := Absorb(h, (t / shift) % 256);
      shift := shift * 256;
    }
    assert bytes[..4] == bytes;
  }

  method UpdateSpan(h0: Hash, tokens: seq<Token>) returns (h: Hash)
    ensures h == Continue(h0, tokens)
  {
    h := h0;
    for i := 0 to |tokens|
      invariant h == Continue(h0, tokens[..i])
    {
      assert tokens[..i + 1][..i] == tokens[..i];
      AbsorbConcat(h0, Bytes(tokens[..i]), TokenBytes(tokens[i]));
      h := UpdateToken(h, tokens[i]);
    }
    assert tokens[..|tokens|] == tokens;
  }

  // --- Algebra ---

  lemma {:induction false} AbsorbConcat(h: Hash, a: seq<nat>, b: seq<nat>)
    ensures AbsorbAll(h, a + b) == AbsorbAll(AbsorbAll(h, a), b)
    decreases |b|
  {
    if b == [] {
      assert a + b == a;
    } else {
      var n := |b| - 1;
      assert (a + b)[..|a + b| - 1] == a + b[..n];
      AbsorbConcat(h, a, b[..n]);
    }
  }

  lemma {:induction false} BytesConcat(a: seq<Token>, b: seq<Token>)
    ensures Bytes(a + b) == Bytes(a) + Bytes(b)
    decreases |b|
  {
    if b == [] {
      assert a + b == a;
    } else {
      var n := |b| - 1;
      assert (a + b)[..|a + b| - 1] == a + b[..n];
      BytesConcat(a, b[..n]);
    }
  }

  /** Hashing a prompt chunk by chunk is hashing it whole. */
  lemma ContinueConcat(h: Hash, a: seq<Token>, b: seq<Token>)
    ensures Continue(h, a + b) == Continue(Continue(h, a), b)
  {
    BytesConcat(a, b);
    AbsorbConcat(h, Bytes(a), Bytes(b));
  }

  lemma CongruentTimesInverse(x: Hash, q: nat, y: Hash)
    requires x * PRIME == MODULUS * q + y
    ensures (y * PRIME_INVERSE) % MODULUS == x
  {
    var k := (PRIME * PRIME_INVERSE) / MODULUS;
    assert PRIME * PRIME_INVERSE == MODULUS * k + 1;
    calc {
      y * PRIME_INVERSE;
      (x * PRIME - MODULUS * q) * PRIME_INVERSE;
      x * (PRIME * PRIME_INVERSE) - MODULUS * q * PRIME_INVERSE;
      x * (MODULUS * k + 1) - MODULUS * q * PRIME_INVERSE;
      MODULUS * (x * k - q * PRIME_INVERSE) + x;
    }
    DivideExact(y * PRIME_INVERSE, MODULUS, x * k - q * PRIME_INVERSE, x);
  }

  /** A round never merges two states, because the multiplier is odd. */
  lemma AbsorbInjectiveInState(g: Hash, h: Hash, b: nat)
    requires b < 256
    requires Absorb(g, b) == Absorb(h, b)
    ensures g == h
  {
    RoundInjective(g, b, h, b);
    XorInvolutive(g, b);
    XorInvolutive(h, b);
  }

  lemma Pow2Of64()
    ensures Pow2(64) == MODULUS
    ensures 256 <= MODULUS
  {
    assert Pow2(8) == 256 by { assert Pow2(4) == 16; Pow2Add(4, 4); }
    Pow2Add(8, 8);
    Pow2Add(16, 16);
    Pow2Add(32, 32);
  }

  lemma XorIsHash(h: Hash, b: nat)
    requires b < 256
    ensures Xor(h, b) < MODULUS
  {
    Pow2Of64();
    XorBound(h, b, 64);
  }

  lemma RoundInjective(g: Hash, b: nat, h: Hash, c: nat)
    requires b < 256 && c < 256
    requires Absorb(g, b) == Absorb(h, c)
    ensures Xor(g, b) == Xor(h, c)
  {
    XorIsHash(g, b);
    XorIsHash(h, c);
    var x, y := Xor(g, b), Xor(h, c);
    CongruentTimesInverse(x, (x * PRIME) / MODULUS, Absorb(g, b));
    CongruentTimesInverse(y, (y * PRIME) / MODULUS, Absorb(h, c));
  }

  lemma XorInjectiveInByte(h: nat, b: nat, c: nat)
    requires Xor(h, b) == Xor(h, c)
    ensures b == c
  {
    XorCommutes(h, b);
    XorCommutes(h, c);
    XorInvolutive(b, h);
    XorInvolutive(c, h);
  }

  lemma {:induction false} XorCommutes(a: nat, b: nat)
    ensures Xor(a, b) == Xor(b, a)
    decreases a + b
  {
    if a != 0 || b != 0 { XorCommutes(a / 2, b / 2); }
  }

  lemma {:induction false} AbsorbAllInjectiveInState(g: Hash, h: Hash, bytes: seq<nat>)
    requires forall i :: 0 <= i < |bytes| ==> bytes[i] < 256
    requires AbsorbAll(g, bytes) == AbsorbAll(h, bytes)
    ensures g == h
    decreases |bytes|
  {
    if bytes != [] {
      var n := |bytes| - 1;
      AbsorbInjectiveInState(AbsorbAll(g, bytes[..n]), AbsorbAll(h, bytes[..n]), bytes[n]);
      AbsorbAllInjectiveInState(g, h, bytes[..n]);
    }
  }

  /** A prefix mismatch is never repaired by an identical suffix: two states agree
      after the same span exactly when they agreed before it. */
  lemma MismatchPersists(g: Hash, h: Hash, span: seq<Token>)
    ensures Continue(g, span) == Continue(h, span) <==> g == h
  {
    if Continue(g, span) == Continue(h, span) {
      AbsorbAllInjectiveInState(g, h, Bytes(span));
    }
  }

  /** Changing one byte of the hashed stream, at any position, changes the hash. */
  lemma SingleByteChangeDetected(h: Hash, before: seq<nat>, b: nat, c: nat, after: seq<nat>)
    requires b < 256 && c < 256 && b != c
    requires forall i :: 0 <= i < |after| ==> after[i] < 256
    ensures AbsorbAll(h, before + [b] + after) != AbsorbAll(h, before + [c] + after)
  {
    var s := AbsorbAll(h, before);
    AbsorbConcat(h, before + [b], after);
    AbsorbConcat(h, before + [c], after);
    AbsorbConcat(h, before, [b]);
    AbsorbConcat(h, before, [c]);
    assert AbsorbAll(s, [b]) == Absorb(s, b) && AbsorbAll(s, [c]) == Absorb(s, c);
    if AbsorbAll(h, before + [b] + after) == AbsorbAll(h, before + [c] + after) {
      AbsorbAllInjectiveInState(Absorb(s, b), Absorb(s, c), after);
      RoundInjective(s, b, s, c);
      XorInjectiveInByte(s, b, c);
    }
  }

  // --- Two different prefixes that the guard has to tell apart ---

  /** One round on a zero byte, the product given as quotient and remainder. */
  lemma AbsorbZero(h: Hash, q: nat, next: Hash)
    requires h * PRIME == MODULUS * q + next
    ensures Absorb(h, 0) == next
  {
    XorZero(h);
    DivideExact(h * PRIME, MODULUS, q, next);
  }

  /** One round on the byte 1 from an odd state. */
  lemma AbsorbOne(h: Hash, q: nat, next: Hash)
    requires h % 2 == 1 && (h - 1) * PRIME == MODULUS * q + next
    ensures Absorb(h, 1) == next
  {
    XorOne(h);
    assert h / 1 == h;
    DivideExact((h - 1) * PRIME, MODULUS, q, next);
  }

  lemma BytesOfOne()
    ensures Bytes([1]) == [1, 0, 0, 0]
  {
    assert TokenBytes(1) == [1, 0, 0, 0];
    assert [1][..0] == [];
  }

  lemma AbsorbLast(h: Hash, s: seq<nat>, b: nat)
    ensures AbsorbAll(h, s + [b]) == Absorb(AbsorbAll(h, s), b)
  {
    hide Absorb;
    assert (s + [b])[..|s|] == s;
  }

  lemma AbsorbFour(h: Hash, a: nat, b: nat, c: nat, d: nat)
    ensures AbsorbAll(h, [a, b, c, d]) == Absorb(Absorb(Absorb(Absorb(h, a), b), c), d)
  {
    AbsorbNone(h);
    hide Absorb, AbsorbAll;
    AbsorbLast(h, [], a);
    AbsorbLast(h, [a], b);
    AbsorbLast(h, [a, b], c);
    AbsorbLast(h, [a, b, c], d);
    assert [] + [a] == [a] && [a] + [b] == [a, b] && [a, b] + [c] == [a, b, c] && [a, b, c] + [d] == [a, b, c, d];
  }

  lemma AbsorbNone(h: Hash)
    ensures AbsorbAll(h, []) == h && Bytes([]) == []
  {
  }

  /** The hash of the one-token timeline [1], computed; in particular it is not the hash of
      the empty timeline. */
  lemma HashOfOneToken()
    ensures Prefix([1]) == 10473572386864919714 != INIT == Prefix([])
  {
    BytesOfOne();
    AbsorbFour(INIT, 1, 0, 0, 0);
    AbsorbNone(INIT);
    hide Absorb, AbsorbAll, Bytes;
    AbsorbOne(INIT, 87594872982, 4953162257141659110);
    AbsorbZero(4953162257141659110, 295231476968, 11125488673309971922);
    AbsorbZero(11125488673309971922, 663130800587, 11572784634033492950);
    AbsorbZero(11572784634033492950, 689791717446, 10473572386864919714);
  }
}
