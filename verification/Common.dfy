/** Results, errors, bytes and the big-endian fields shared by every component. */
module Common {

  datatype Option<+T> = None | Some(value: T)

  /** Why an encrypted file is not well formed, in the order the code can find out. */
  datatype FormatError =
    | IncompletePreamble
    | WrongMagic
    | UnsupportedVersion(version: nat)
    | IncompleteVersionedHeader
    | KeyMaterialLength
    | NonceLength
    | TagLength
    | IncompleteKeyMaterial
    | IncompleteNonce
    | VersionOneRequired
    | MethodSizes
    | KeyMaterialSize
    | EphemeralKey
    | IncompleteTag

  datatype Error =
    | Io
    | NameCollisions
    | Crypto
    | InvalidFormat(reason: FormatError)
    | AuthenticationFailed
    | InvalidPassphrase
    | InvalidPrivateKey
    | InvalidPublicKey
    | KeyAlgorithmMismatch
    | UnsupportedPublicKeyAlgorithm
    | UnsupportedAlgorithms(keyEstablishment: nat, dataCipher: nat)
    | PassphraseInput
    | KeypairRollback(publication: Error, rollback: Error)

  datatype Result<+T> = Ok(value: T) | Err(error: Error) {
    predicate IsFailure() {
      Err?
    }

    function PropagateFailure<U>(): Result<U>
      requires Err?
    {
      Err(error)
    }

    function Extract(): T
      requires Ok?
    {
      value
    }
  }

  type byte = x: int | 0 <= x < 256
  type Bytes = seq<byte>

  /** The bytes of a text in ASCII. */
  function Ascii(text: string): (r: Bytes)
    requires forall i :: 0 <= i < |text| ==> text[i] < 128 as char
    ensures |r| == |text| && forall i :: 0 <= i < |r| ==> r[i] == text[i] as int
  {
    seq(|text|, i requires 0 <= i < |text| => text[i] as int)
  }

  /** Bitwise exclusive or of the low `bits` bits: each bit is the parity of the two inputs' bits. */
  function XorBits(a: nat, k: nat, bits: nat): (r: nat) {
    if bits == 0 then 0 else 2 * XorBits(a / 2, k / 2, bits - 1) + (a + k) % 2
  }

  function Power2(bits: nat): (r: nat)
    ensures 1 <= r
  {
    if bits == 0 then 1 else 2 * Power2(bits - 1)
  }

  lemma {:induction false} XorBitsInRange(a: nat, k: nat, bits: nat)
    ensures XorBits(a, k, bits) < Power2(bits)
  {
    if bits > 0 {
      XorBitsInRange(a / 2, k / 2, bits - 1);
    }
  }

  lemma {:induction false} XorBitsInvolution(a: nat, k: nat, bits: nat)
    requires a < Power2(bits)
    ensures XorBits(XorBits(a, k, bits), k, bits) == a
  {
    if bits > 0 {
      var r := XorBits(a, k, bits);
      XorBitsInvolution(a / 2, k / 2, bits - 1);
      XorBitsDigits(a, k, bits);
      assert XorBits(r, k, bits) == 2 * (a / 2) + (r + k) % 2;
      LowBitCancels(a, k, r);
    }
  }

  lemma XorBitsDigits(a: nat, k: nat, bits: nat)
    requires bits > 0
    ensures XorBits(a, k, bits) / 2 == XorBits(a / 2, k / 2, bits - 1)
    ensures XorBits(a, k, bits) % 2 == (a + k) % 2
  {
    var high := XorBits(a / 2, k / 2, bits - 1);
    var low := (a + k) % 2;
    assert XorBits(a, k, bits) == 2 * high + low;
  }

  lemma LowBitCancels(a: nat, k: nat, r: nat)
    requires r % 2 == (a + k) % 2
    ensures (r + k) % 2 == a % 2
  {
  }

  function Xor(a: byte, k: byte): (r: byte) {
    XorBitsInRange(a, k, 8);
    assert Power2(8) == 256 by { assert Power2(4) == 16; }
    XorBits(a, k, 8)
  }

  /** Bit `i` of a byte, counted from the low end. */
  function Bit(a: nat, i: nat): (r: nat) {
    if i == 0 then a % 2 else Bit(a / 2, i - 1)
  }

  lemma {:induction false} XorBitsBitwise(a: nat, k: nat, bits: nat, i: nat)
    requires i < bits
    ensures Bit(XorBits(a, k, bits), i) == if Bit(a, i) == Bit(k, i) then 0 else 1
  {
    XorBitsDigits(a, k, bits);
    if i > 0 {
      XorBitsBitwise(a / 2, k / 2, bits - 1, i - 1);
    }
  }

  /** Each bit of the result is set exactly if the bits of the two inputs differ. */
  lemma XorIsBitwise(a: byte, k: byte, i: nat)
    requires i < 8
    ensures Bit(Xor(a, k), i) == if Bit(a, i) == Bit(k, i) then 0 else 1
  {
    XorBitsBitwise(a, k, 8, i);
  }

  lemma XorUndoesItself(a: byte, k: byte)
    ensures Xor(Xor(a, k), k) == a
  {
    assert Power2(8) == 256 by { assert Power2(4) == 16; }
    XorBitsInvolution(a, k, 8);
  }

  // The `as u16` and `as u32` casts keep the low bits; `to_be_bytes` writes them high byte first.

  function U16ToBytes(x: nat): (r: Bytes)
    ensures |r| == 2
  {
    var low := x % 0x1_0000;
    [low / 256, low % 256]
  }

  function U32ToBytes(x: nat): (r: Bytes)
    ensures |r| == 4
  {
    var low := x % 0x1_0000_0000;
    [low / 0x100_0000, low / 0x1_0000 % 256, low / 256 % 256, low % 256]
  }

  function BytesToU16(s: Bytes): (r: nat)
    requires |s| == 2
    ensures r < 0x1_0000
  {
    s[0] as int * 256 + s[1]
  }

  function BytesToU32(s: Bytes): (r: nat)
    requires |s| == 4
    ensures r < 0x1_0000_0000
  {
    s[0] as int * 0x100_0000 + s[1] as int * 0x1_0000 + s[2] as int * 256 + s[3]
  }

  lemma LastDigit(high: nat, low: nat)
    requires low < 256
    ensures (high * 256 + low) / 256 == high && (high * 256 + low) % 256 == low
  {
  }

  lemma SplitDigit(x: nat)
    ensures x / 256 * 256 + x % 256 == x
  {
  }

  lemma TwoDigits(x: nat)
    ensures x / 0x1_0000 == x / 256 / 256
  {
  }

  lemma ThreeDigits(x: nat)
    ensures x / 0x100_0000 == x / 0x1_0000 / 256
  {
  }

  lemma Narrowed(x: nat, limit: nat)
    requires x < limit
    ensures x % limit == x
  {
  }

  /** A big-endian field reads back as the value truncated to its width, and every field is the
      rendering of what it reads as. */
  lemma U16RoundTrip(x: nat, s: Bytes)
    requires |s| == 2
    ensures BytesToU16(U16ToBytes(x)) == x % 0x1_0000
    ensures U16ToBytes(BytesToU16(s)) == s
  {
    SplitDigit(x % 0x1_0000);
    Narrowed(BytesToU16(s), 0x1_0000);
    LastDigit(s[0], s[1]);
  }

  lemma U32RoundTrip(x: nat, s: Bytes)
    requires |s| == 4
    ensures BytesToU32(U32ToBytes(x)) == x % 0x1_0000_0000
    ensures U32ToBytes(BytesToU32(s)) == s
  {
    U32Digits(x % 0x1_0000_0000);
    U32OfDigits(s);
  }

  lemma U32Digits(low: nat)
    ensures low / 0x100_0000 * 0x100_0000 + low / 0x1_0000 % 256 * 0x1_0000 + low / 256 % 256 * 256 + low % 256 == low
  {
    TwoDigits(low);
    ThreeDigits(low);
    SplitDigit(low);
    SplitDigit(low / 256);
    SplitDigit(low / 0x1_0000);
  }

  lemma SplitWide(x: nat)
    ensures x / 0x1_0000_0000 * 0x1_0000_0000 + x % 0x1_0000_0000 == x
  {
  }

  lemma TopQuotient(q: nat, low: nat)
    ensures (q * 0x1_0000_0000 + low) / 0x100_0000 == q * 256 + low / 0x100_0000
  {
  }

  lemma SecondQuotient(q: nat, low: nat)
    ensures (q * 0x1_0000_0000 + low) / 0x1_0000 == (q * 256) * 256 + low / 0x1_0000
  {
  }

  lemma ThirdQuotient(q: nat, low: nat)
    ensures (q * 0x1_0000_0000 + low) / 256 == (q * 0x1_0000) * 256 + low / 256
  {
  }

  lemma SameDigit(high: nat, low: nat)
    ensures (high * 256 + low) % 256 == low % 256
  {
  }

  lemma TopIsDigit(low: nat)
    requires low < 0x1_0000_0000
    ensures low / 0x100_0000 < 256
  {
  }

  lemma WideDigits(x: nat)
    ensures var low := x % 0x1_0000_0000;
            && x / 0x100_0000 % 256 == low / 0x100_0000 && x / 0x1_0000 % 256 == low / 0x1_0000 % 256
            && x / 256 % 256 == low / 256 % 256 && x % 256 == low % 256
  {
    var q, low := x / 0x1_0000_0000, x % 0x1_0000_0000;
    SplitWide(x);
    TopQuotient(q, low);
    SecondQuotient(q, low);
    ThirdQuotient(q, low);
    TopIsDigit(low);
    LastDigit(q, low / 0x100_0000);
    SameDigit(q * 256, low / 0x1_0000);
    SameDigit(q * 0x1_0000, low / 256);
    SameDigit(q * 0x100_0000, low);
  }

  /** The four bytes, without the narrowing first. */
  lemma U32Plain(x: nat)
    ensures U32ToBytes(x) == [x / 0x100_0000 % 256, x / 0x1_0000 % 256, x / 256 % 256, x % 256]
  {
    WideDigits(x);
  }

  lemma U32OfDigits(s: Bytes)
    requires |s| == 4
    ensures U32ToBytes(BytesToU32(s)) == s
  {
    var v := BytesToU32(s);
    Narrowed(v, 0x1_0000_0000);
    TwoDigits(v);
    ThreeDigits(v);
    LastDigit(s[0], s[1]);
    LastDigit(s[0] as int * 256 + s[1], s[2]);
    LastDigit((s[0] as int * 256 + s[1]) * 256 + s[2], s[3]);
  }

  function Flatten(parts: seq<Bytes>): (r: Bytes) {
    if parts == [] then [] else parts[0] + Flatten(parts[1..])
  }

  lemma ConcatAssociative<T>(a: seq<T>, b: seq<T>, c: seq<T>)
    ensures (a + b) + c == a + (b + c)
  {
  }

  lemma SliceOfSlice<T>(s: seq<T>, at: nat, from: nat, until: nat)
    requires from <= until && at + until <= |s|
    ensures s[at..][from..until] == s[at + from..at + until]
  {
  }

  lemma SliceInSlice<T>(s: seq<T>, at: nat, end: nat, from: nat, until: nat)
    requires from <= until && at + until <= end <= |s|
    ensures s[at..end][from..until] == s[at + from..at + until]
  {
    forall i | 0 <= i < until - from
      ensures s[at..end][from..until][i] == s[at + from..at + until][i]
    {
    }
  }

  lemma ConcatSlices<T>(a: seq<T>, b: seq<T>)
    ensures (a + b)[..|a|] == a && (a + b)[|a|..] == b
  {
  }
}
