/** The XOR metric on 32-byte node ids: distance as a 256-bit number, the
    byte-wise comparison of the query engine, and common-prefix lengths. */
module XorMetric {

  type NodeId = s: seq<bv8> | |s| == 32 witness seq(32, _ => 0)

  function Zero(): NodeId {
    seq(32, _ => 0)
  }

  type Digit = n: nat | n < 256

  function ByteValue(x: bv8): Digit {
    x as int
  }

  lemma ByteOrder(x: bv8, y: bv8)
    ensures x < y <==> ByteValue(x) < ByteValue(y)
    ensures x == y <==> ByteValue(x) == ByteValue(y)
  {
  }

  /** Big-endian value of a string of base-256 digits. */
  ghost function Number(s: seq<Digit>): nat {
    if s == [] then 0 else Number(s[..|s| - 1]) * 256 + s[|s| - 1]
  }

  ghost function XorDigits(t: NodeId, a: NodeId): seq<Digit> {
    seq(32, i requires 0 <= i < 32 => XorDigit(t, a, i))
  }

  ghost function XorDigit(t: NodeId, a: NodeId, i: nat): Digit
    requires i < 32
  {
    ByteValue(t[i] ^ a[i])
  }

  /** The XOR distance of two ids as a 256-bit number. */
  ghost function Distance(t: NodeId, a: NodeId): nat {
    Number(XorDigits(t, a))
  }

  lemma {:induction false} FirstDigitDecides(x: seq<Digit>, y: seq<Digit>, i: nat)
    requires i < |x| == |y| && x[..i] == y[..i] && x[i] < y[i]
    ensures Number(x) < Number(y)
  {
    var n := |x| - 1;
    if i < n {
      assert x[..n][..i] == x[..i] && y[..n][..i] == y[..i];
      FirstDigitDecides(x[..n], y[..n], i);
    }
  }

  lemma XorDigitsAgree(t: NodeId, a: NodeId, b: NodeId, i: nat)
    requires i <= 32 && a[..i] == b[..i]
    ensures XorDigits(t, a)[..i] == XorDigits(t, b)[..i]
  {
    forall j | 0 <= j < i
      ensures XorDigits(t, a)[j] == XorDigits(t, b)[j]
    {
      assert a[j] == a[..i][j] == b[..i][j] == b[j];
    }
  }

  lemma XorDigitOrder(t: NodeId, a: NodeId, b: NodeId, i: nat, x: bv8, y: bv8)
    requires i < 32 && x == t[i] ^ a[i] && y == t[i] ^ b[i]
    requires ByteValue(x) < ByteValue(y)
    ensures XorDigits(t, a)[i] < XorDigits(t, b)[i]
  {
    assert XorDigit(t, a, i) == ByteValue(x) && XorDigit(t, b, i) == ByteValue(y);
  }

  /** The most significant differing byte decides the distance. */
  lemma FirstByteDecides(t: NodeId, a: NodeId, b: NodeId, i: nat)
    requires i < 32 && a[..i] == b[..i]
    requires t[i] ^ a[i] < t[i] ^ b[i]
    ensures Distance(t, a) < Distance(t, b)
  {
    XorDigitsAgree(t, a, b, i);
    ByteOrder(t[i] ^ a[i], t[i] ^ b[i]);
    XorDigitOrder(t, a, b, i, t[i] ^ a[i], t[i] ^ b[i]);
    FirstDigitDecides(XorDigits(t, a), XorDigits(t, b), i);
  }

  lemma DistanceInjective(t: NodeId, a: NodeId, b: NodeId)
    requires Distance(t, a) == Distance(t, b)
    ensures a == b
  {
    if a != b {
      var i := FirstDifference(a, b);
      XorInjective(t[i], a[i], b[i]);
      if t[i] ^ a[i] < t[i] ^ b[i] {
        FirstByteDecides(t, a, b, i);
      } else {
        FirstByteDecides(t, b, a, i);
      }
    }
  }

  lemma XorInjective(t: bv8, a: bv8, b: bv8)
    requires a != b
    ensures t ^ a != t ^ b
  {
  }

  lemma FirstDifference(a: NodeId, b: NodeId) returns (i: nat)
    requires a != b
    ensures i < 32 && a[i] != b[i] && a[..i] == b[..i]
  {
    i := 0;
    while i < 31 && a[i] == b[i]
      invariant i < 32 && a[..i] == b[..i]
    {
      i := i + 1;
    }
    assert a == a[..31] + [a[31]] && b == b[..31] + [b[31]];
  }

  /** The query engine's signed comparison decides the order of the 256-bit distances. */
  method Compare(target: NodeId, a: NodeId, b: NodeId) returns (r: int)
    ensures r < 0 <==> Distance(target, a) < Distance(target, b)
    ensures r == 0 <==> a == b
    ensures r > 0 <==> Distance(target, b) < Distance(target, a)
  {
    for i := 0 to 32
      invariant a[..i] == b[..i]
    {
      if a[i] == b[i] {
        continue;
      }
      var t := target[i];
      ByteOrder(t ^ a[i], t ^ b[i]);
      XorInjective(t, a[i], b[i]);
      if t ^ a[i] < t ^ b[i] {
        FirstByteDecides(target, a, b, i);
      } else {
        FirstByteDecides(target, b, a, i);
      }
      return ByteValue(t ^ a[i]) - ByteValue(t ^ b[i]);
    }
    assert a == a[..32] == b[..32] == b;
    return 0;
  }

  /** Leading zero bits of one byte; 8 for the zero byte. */
  function LeadingZeros(x: bv8): (n: nat)
    ensures n <= 8
  {
    if x >= 128 then 0 else if x >= 64 then 1 else if x >= 32 then 2 else if x >= 16 then 3
    else if x >= 8 then 4 else if x >= 4 then 5 else if x >= 2 then 6 else if x >= 1 then 7 else 8
  }

  /** Bit `j` of an id, the most significant bit of byte 0 being bit 0. */
  predicate Bit(a: NodeId, j: nat)
    requires j < 256
  {
    ByteBit(a[j / 8], j % 8)
  }

  predicate ByteBit(x: bv8, j: nat)
    requires j < 8
  {
    x & (128 >> j) != 0
  }

  /** `p` is the number of leading bits on which `a` and `b` agree. */
  ghost predicate AgreeFor(a: NodeId, b: NodeId, p: nat) {
    && p <= 256
    && (forall j: nat :: j < p ==> Bit(a, j) == Bit(b, j))
    && (p < 256 ==> Bit(a, p) != Bit(b, p))
  }

  ghost function PrefixFrom(a: NodeId, b: NodeId, i: nat): (p: nat)
    requires i <= 32
    ensures 8 * i <= p <= 256
    decreases 32 - i
  {
    if i == 32 then 256
    else if a[i] != b[i] then i * 8 + LeadingZerosOfDifference(a[i], b[i])
    else PrefixFrom(a, b, i + 1)
  }

  ghost function LeadingZerosOfDifference(x: bv8, y: bv8): (n: nat)
    requires x != y
    ensures n < 8
  {
    LeadingZeros(x ^ y)
  }

  ghost function PrefixLength(a: NodeId, b: NodeId): (p: nat)
    ensures p <= 256
  {
    PrefixFrom(a, b, 0)
  }

  lemma BytePrefix(x: bv8, y: bv8, j: nat)
    requires j < 8
    ensures j < LeadingZeros(x ^ y) ==> ByteBit(x, j) == ByteBit(y, j)
    ensures j == LeadingZeros(x ^ y) ==> ByteBit(x, j) != ByteBit(y, j)
  {
  }

  /** The computed prefix length is the number of agreeing leading bits. */
  lemma PrefixLengthMeaning(a: NodeId, b: NodeId)
    ensures AgreeFor(a, b, PrefixLength(a, b))
  {
    PrefixFromMeaning(a, b, 0);
  }

  lemma {:induction false} PrefixFromMeaning(a: NodeId, b: NodeId, i: nat)
    requires i <= 32
    requires a[..i] == b[..i]
    ensures AgreeFor(a, b, PrefixFrom(a, b, i))
    decreases 32 - i
  {
    if i < 32 && a[i] == b[i] {
      assert a[..i + 1] == a[..i] + [a[i]] && b[..i + 1] == b[..i] + [b[i]];
      PrefixFromMeaning(a, b, i + 1);
    } else {
      var p := PrefixFrom(a, b, i);
      forall j: nat | j < p
        ensures Bit(a, j) == Bit(b, j)
      {
        BitBelowPrefix(a, b, i, j);
      }
      if i < 32 {
        BytePrefix(a[i], b[i], p - 8 * i);
      }
    }
  }

  lemma BitBelowPrefix(a: NodeId, b: NodeId, i: nat, j: nat)
    requires i <= 32 && a[..i] == b[..i] && j < 256
    requires i < 32 ==> a[i] != b[i] && j < 8 * i + LeadingZeros(a[i] ^ b[i])
    ensures Bit(a, j) == Bit(b, j)
  {
    if j / 8 < i {
      assert a[..i][j / 8] == b[..i][j / 8];
    } else {
      BytePrefix(a[i], b[i], j % 8);
    }
  }

  lemma AgreeForUnique(a: NodeId, b: NodeId, p: nat, q: nat)
    requires AgreeFor(a, b, p) && AgreeFor(a, b, q)
    ensures p == q
  {
  }

  /** Two ids that leave `l` at the same bit agree on that bit with each other. */
  lemma SamePrefix(l: NodeId, t: NodeId, n: NodeId)
    requires PrefixLength(l, t) == PrefixLength(l, n) < 256
    ensures PrefixLength(t, n) > PrefixLength(l, t)
  {
    PrefixLengthMeaning(l, t);
    PrefixLengthMeaning(l, n);
    PrefixLengthMeaning(t, n);
    var p := PrefixLength(l, t);
    forall j: nat | j <= p
      ensures Bit(t, j) == Bit(n, j)
    {
      assert j < p ==> Bit(l, j) == Bit(t, j) && Bit(l, j) == Bit(n, j);
    }
  }

  /** If `m` leaves `l` before `t` does, it leaves `t` at the same bit. */
  lemma EarlierPrefix(l: NodeId, t: NodeId, m: NodeId)
    requires PrefixLength(l, m) < PrefixLength(l, t)
    ensures PrefixLength(t, m) == PrefixLength(m, t) == PrefixLength(l, m)
  {
    PrefixLengthMeaning(l, t);
    PrefixLengthMeaning(l, m);
    PrefixLengthMeaning(t, m);
    PrefixLengthMeaning(m, t);
    var p := PrefixLength(l, m);
    forall j: nat | j < p
      ensures Bit(t, j) == Bit(m, j)
    {
      assert Bit(l, j) == Bit(t, j) && Bit(l, j) == Bit(m, j);
    }
    assert Bit(l, p) == Bit(t, p);
    AgreeForUnique(t, m, p, PrefixLength(t, m));
    AgreeForUnique(m, t, p, PrefixLength(m, t));
  }

  /** A longer common prefix with the target means a strictly smaller XOR distance. */
  lemma LongerPrefixIsNearer(t: NodeId, n: NodeId, m: NodeId)
    requires PrefixLength(t, n) > PrefixLength(t, m)
    ensures Distance(t, n) < Distance(t, m)
  {
    var i := PrefixByte(t, m, 0);
    PrefixAgreesBytes(t, n, i, 0);
    assert m[..i] == t[..i] == n[..i];
    if t[i] == n[i] {
      XorZero(t[i], m[i]);
    } else {
      PrefixAtByte(t, n, i, 0);
      LeadingZerosOrder(t[i] ^ n[i], t[i] ^ m[i]);
    }
    FirstByteDecides(t, n, m, i);
  }

  lemma XorZero(x: bv8, y: bv8)
    requires x != y
    ensures x ^ x < x ^ y
  {
  }

  lemma LeadingZerosOrder(x: bv8, y: bv8)
    requires LeadingZeros(x) > LeadingZeros(y)
    ensures x < y
  {
  }

  /** The byte in which a proper prefix ends. */
  lemma {:induction false} PrefixByte(a: NodeId, b: NodeId, i: nat) returns (k: nat)
    requires i <= 32 && a[..i] == b[..i]
    requires PrefixFrom(a, b, i) < 256
    ensures i <= k < 32 && a[..k] == b[..k] && a[k] != b[k]
    ensures PrefixFrom(a, b, i) == 8 * k + LeadingZeros(a[k] ^ b[k])
    decreases 32 - i
  {
    if a[i] != b[i] {
      k := i;
    } else {
      k := PrefixByte(a, b, i + 1);
    }
  }

  lemma {:induction false} PrefixAgreesBytes(a: NodeId, b: NodeId, k: nat, i: nat)
    requires i <= k <= 32 && a[..i] == b[..i]
    requires PrefixFrom(a, b, i) >= 8 * k
    ensures a[..k] == b[..k]
    decreases 32 - i
  {
    if i < k {
      assert a[i] == b[i];
      PrefixAgreesBytes(a, b, k, i + 1);
    }
  }

  lemma {:induction false} PrefixAtByte(a: NodeId, b: NodeId, k: nat, i: nat)
    requires i <= k < 32 && a[..k] == b[..k] && a[k] != b[k]
    ensures PrefixFrom(a, b, i) == 8 * k + LeadingZeros(a[k] ^ b[k])
    decreases 32 - i
  {
    if i < k {
      assert a[i] == a[..k][i] == b[i];
      PrefixAtByte(a, b, k, i + 1);
    }
  }
}
