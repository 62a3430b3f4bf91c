/** The compact wire encoding as functions on byte strings: what a value is written as, and
    what reading it back from the front of a longer byte string gives. */
module Codec {
  import opened Options

  type byte = x: int | 0 <= x < 256
  type Bytes = seq<byte>

  const TWO32: int := 0x1_0000_0000
  const TWO64: int := 0x1_0000_0000_0000_0000

  type u16 = x: int | 0 <= x < 0x1_0000
  type u32 = x: int | 0 <= x < TWO32
  type u64 = x: int | 0 <= x < TWO64

  datatype Error = OutOfBounds | ArrayTooLarge | BadVersion | InvalidFrame

  /** A value read from the front of the input and the input left after it, or an error. */
  datatype Parse<+T> = Got(value: T, rest: Bytes) | Fail(error: Error) {
    predicate IsFailure() {
      Fail?
    }

    function PropagateFailure<U>(): Parse<U>
      requires Fail?
    {
      Fail(error)
    }

    function Extract(): (T, Bytes)
      requires Got?
    {
      (value, rest)
    }
  }

  // ---------------------------------------------------------------- fixed-width integers

  function Pow256(k: nat): (p: nat)
    ensures p > 0
  {
    if k == 0 then 1 else 256 * Pow256(k - 1)
  }

  /** `k` bytes, least significant first. */
  function LittleEndian(n: nat, k: nat): (b: Bytes)
    ensures |b| == k
  {
    if k == 0 then [] else [(n % 256) as byte] + LittleEndian(n / 256, k - 1)
  }

  function FromLittleEndian(b: Bytes): (n: nat)
    ensures n < Pow256(|b|)
  {
    if b == [] then 0 else b[0] + 256 * FromLittleEndian(b[1..])
  }

  lemma {:induction false} LittleEndianRoundTrip(n: nat, k: nat)
    requires n < Pow256(k)
    ensures FromLittleEndian(LittleEndian(n, k)) == n
  {
    if k > 0 {
      LittleEndianRoundTrip(n / 256, k - 1);
      assert LittleEndian(n, k)[1..] == LittleEndian(n / 256, k - 1);
    }
  }

  /** Every `k`-byte string is the encoding of the number it stands for. */
  lemma {:induction false} LittleEndianOnto(b: Bytes)
    ensures LittleEndian(FromLittleEndian(b), |b|) == b
  {
    if b != [] {
      LittleEndianOnto(b[1..]);
      var rest := FromLittleEndian(b[1..]);
      assert (b[0] + 256 * rest) % 256 == b[0] && (b[0] + 256 * rest) / 256 == rest;
      assert b == [b[0]] + b[1..];
    }
  }

  function Low(n: nat, p: nat): nat
    requires p > 0
  {
    n % p
  }

  function High(n: nat, p: nat): nat
    requires p > 0
  {
    n / p
  }

  /** Writing the low part and then the high part is writing the whole. */
  lemma {:induction false} LittleEndianSplit(n: nat, j: nat, k: nat)
    ensures LittleEndian(n, j + k) == LittleEndian(Low(n, Pow256(j)), j) + LittleEndian(High(n, Pow256(j)), k)
  {
    if j > 0 {
      hide Low, High;
      var p := Pow256(j - 1);
      LittleEndianSplit(n / 256, j - 1, k);
      DigitSplit(n, p);
      PrependByte(n, Low(n, 256 * p), High(n, 256 * p), j, k);
    }
  }

  lemma PrependByte(n: nat, low: nat, high: nat, j: nat, k: nat)
    requires j > 0 && low % 256 == n % 256
    requires LittleEndian(n / 256, j - 1 + k) == LittleEndian(low / 256, j - 1) + LittleEndian(high, k)
    ensures LittleEndian(n, j + k) == LittleEndian(low, j) + LittleEndian(high, k)
  {
  }

  lemma DigitSplit(n: nat, p: nat)
    requires p > 0
    ensures High(n, 256 * p) == High(n / 256, p)
    ensures Low(n, 256 * p) % 256 == n % 256
    ensures Low(n, 256 * p) / 256 == Low(n / 256, p)
  {
    var m := n / 256;
    var q, r, d := m / p, m % p, n % 256;
    Rearranged(q, p, r, d);
    Quotient(n, 256 * p, q, 256 * r + d);
  }

  lemma Rearranged(q: nat, p: nat, r: nat, d: nat)
    requires r < p && d < 256
    ensures 256 * (q * p + r) + d == q * (256 * p) + (256 * r + d)
    ensures 256 * r + d < 256 * p
  {
  }

  lemma Quotient(n: nat, m: nat, q: nat, r: nat)
    requires m > 0 && r < m && n == q * m + r
    ensures n / m == q && n % m == r
  {
    if n / m < q {
      Scaled(n / m + 1, q, m);
    } else if q < n / m {
      Scaled(q + 1, n / m, m);
    }
  }

  lemma Scaled(a: nat, b: nat, m: nat)
    requires a <= b
    ensures a * m <= b * m
  {
  }

  /** Eight bytes are the four of the low half and then the four of the high half. */
  lemma Halves(n: u64)
    ensures LittleEndian(n, 8) == LittleEndian(n % TWO32, 4) + LittleEndian(n / TWO32, 4)
  {
    PowerValues();
    LittleEndianSplit(n, 4, 4);
    hide LittleEndian, Pow256;
  }

  function DecodeFixed(b: Bytes, n: nat): (p: Parse<Bytes>) {
    if |b| < n then Fail(OutOfBounds) else Got(b[..n], b[n..])
  }

  function DecodeLittleEndian(b: Bytes, k: nat): (p: Parse<nat>)
    ensures p.Got? ==> |p.rest| <= |b|
  {
    if |b| < k then Fail(OutOfBounds) else Got(FromLittleEndian(b[..k]), b[k..])
  }

  // ---------------------------------------------------------------- variable-length integers

  function EncodeUint(n: u64): (b: Bytes)
    ensures 1 <= |b| <= 9
  {
    if n <= 0xfc then [n as byte]
    else if n <= 0xffff then [0xfd] + LittleEndian(n, 2)
    else if n <= 0xffff_ffff then [0xfe] + LittleEndian(n, 4)
    else [0xff] + LittleEndian(n, 8)
  }

  function DecodeUint(b: Bytes): (p: Parse<nat>)
    ensures p.Got? ==> |p.rest| < |b|
  {
    if b == [] then Fail(OutOfBounds)
    else if b[0] <= 0xfc then Got(b[0], b[1..])
    else if b[0] == 0xfd then DecodeLittleEndian(b[1..], 2)
    else if b[0] == 0xfe then DecodeLittleEndian(b[1..], 4)
    else DecodeLittleEndian(b[1..], 8)
  }

  lemma PowerValues()
    ensures Pow256(2) == 0x1_0000 && Pow256(4) == TWO32 && Pow256(8) == TWO64
  {
    assert Pow256(1) == 256;
    assert Pow256(2) == 0x1_0000;
    assert Pow256(3) == 0x100_0000;
    assert Pow256(4) == TWO32;
    assert Pow256(5) == 0x100_0000_0000;
    assert Pow256(6) == 0x1_0000_0000_0000;
    assert Pow256(7) == 0x100_0000_0000_0000;
  }

  lemma LittleEndianPrefix(n: nat, k: nat, rest: Bytes)
    requires n < Pow256(k)
    ensures DecodeLittleEndian(LittleEndian(n, k) + rest, k) == Got(n, rest)
  {
    var b := LittleEndian(n, k) + rest;
    assert b[..k] == LittleEndian(n, k) && b[k..] == rest;
    LittleEndianRoundTrip(n, k);
  }

  lemma TaggedPrefix(tag: byte, n: nat, k: nat, rest: Bytes)
    requires n < Pow256(k)
    ensures DecodeLittleEndian(([tag] + LittleEndian(n, k) + rest)[1..], k) == Got(n, rest)
  {
    assert ([tag] + LittleEndian(n, k) + rest)[1..] == LittleEndian(n, k) + rest;
    LittleEndianPrefix(n, k, rest);
  }

  lemma UintRoundTrip(n: u64, rest: Bytes)
    ensures DecodeUint(EncodeUint(n) + rest) == Got(n, rest)
  {
    PowerValues();
    if 0xfc < n <= 0xffff {
      TaggedPrefix(0xfd, n, 2, rest);
    } else if 0xffff < n <= 0xffff_ffff {
      TaggedPrefix(0xfe, n, 4, rest);
    } else if n > 0xffff_ffff {
      TaggedPrefix(0xff, n, 8, rest);
    }
  }

  lemma UintRange(b: Bytes)
    ensures DecodeUint(b).Got? ==> DecodeUint(b).value < TWO64
  {
    PowerValues();
  }

  // ---------------------------------------------------------------- signed integers

  const TWO63: int := 0x8000_0000_0000_0000

  type i64 = x: int | -TWO63 <= x < TWO63

  /** The signed reading of the low 64 bits. */
  function Wrap(x: int): (n: i64) {
    var u := x % TWO64;
    if u < TWO63 then u else u - TWO64
  }

  function Unsigned(n: i64): (u: u64) {
    if n < 0 then n + TWO64 else n
  }

  /** Exclusive or with a mask of all ones, which complements every bit, or of none. */
  function XorMask(n: i64, ones: bool): (r: i64) {
    if ones then -1 - n else n
  }

  /** Shift left by one, and exclusive-or with the sign spread over all bits. */
  function ZigzagEncode(n: i64): u64 {
    Unsigned(XorMask(Wrap(2 * n), n < 0))
  }

  /** Shift right by one, and exclusive-or with the negated lowest bit. */
  function ZigzagDecode(z: u64): i64 {
    XorMask(z / 2, z % 2 == 1)
  }

  /** Zigzag pairs the signed and the unsigned numbers one to one, in order of magnitude. */
  lemma ZigzagBijective(n: i64, z: u64)
    ensures ZigzagEncode(n) == if n >= 0 then 2 * n else -2 * n - 1
    ensures ZigzagDecode(ZigzagEncode(n)) == n
    ensures ZigzagEncode(ZigzagDecode(z)) == z
  {
    ZigzagMeaning(n);
    ZigzagMeaning(ZigzagDecode(z));
  }

  lemma ZigzagMeaning(n: i64)
    ensures ZigzagEncode(n) == if n >= 0 then 2 * n else -2 * n - 1
  {
    assert 2 * n >= 0 ==> (2 * n) % TWO64 == 2 * n;
    assert 2 * n < 0 ==> (2 * n) % TWO64 == 2 * n + TWO64;
  }

  function EncodeInt(n: i64): Bytes {
    EncodeUint(ZigzagEncode(n))
  }

  function DecodeInt(b: Bytes): Parse<i64> {
    UintRange(b);
    var (v, rest) :- DecodeUint(b);
    Got(ZigzagDecode(v), rest)
  }

  lemma IntRoundTrip(n: i64, rest: Bytes)
    ensures DecodeInt(EncodeInt(n) + rest) == Got(n, rest)
  {
    UintRoundTrip(ZigzagEncode(n), rest);
    ZigzagBijective(n, 0);
  }

  // ---------------------------------------------------------------- buffers

  /** An absent buffer is written like an empty one. */
  function Contents(b: Option<Bytes>): Bytes {
    match b case Some(d) => d case None => []
  }

  /** What a reader sees of an optional buffer. */
  function Seen(b: Option<Bytes>): Option<Bytes> {
    if Contents(b) == [] then None else b
  }

  predicate Sized(b: Bytes) {
    |b| < TWO64
  }

  function EncodeBuffer(b: Bytes): Bytes
    requires Sized(b)
  {
    EncodeUint(|b|) + b
  }

  /** A length and that many bytes; both a string and the non-empty case of a buffer. */
  function DecodeSized(b: Bytes): Parse<Bytes> {
    var (n, rest) :- DecodeUint(b);
    DecodeFixed(rest, n)
  }

  function DecodeBuffer(b: Bytes): Parse<Option<Bytes>> {
    var (n, rest) :- DecodeUint(b);
    if n == 0 then Got(None, rest)
    else
      var (d, rest) :- DecodeFixed(rest, n);
      Got(Some(d), rest)
  }

  lemma FixedPrefix(d: Bytes, rest: Bytes)
    ensures DecodeFixed(d + rest, |d|) == Got(d, rest)
  {
  }

  lemma BufferRoundTrip(b: Option<Bytes>, rest: Bytes)
    requires Sized(Contents(b))
    ensures DecodeBuffer(EncodeBuffer(Contents(b)) + rest) == Got(Seen(b), rest)
    ensures DecodeSized(EncodeBuffer(Contents(b)) + rest) == Got(Contents(b), rest)
  {
    var d := Contents(b);
    assert EncodeBuffer(d) + rest == EncodeUint(|d|) + (d + rest);
    UintRoundTrip(|d|, d + rest);
    FixedPrefix(d, rest);
  }
}
