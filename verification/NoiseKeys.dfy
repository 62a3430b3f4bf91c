/** Honest handshakes written out: every message on the wire, the handshake hash and both
    session keys as terms over the secrets of the two sides. */
module NoiseKeys {
  import opened Options
  import opened NoiseSpec
  import opened NoiseRuns

  // ---------------------------------------------------------------- derivation

  ghost function Extracted(ck: Str, input: Str): Str {
    Bytes(Mac(ck, input))
  }

  ghost function FirstOutput(temp: Str): Str {
    Bytes(Mac(temp, [Literal(1)]))
  }

  ghost function SecondOutput(temp: Str): Str {
    Bytes(Mac(temp, FirstOutput(temp) + [Literal(2)]))
  }

  /** The chaining key after mixing in the products `dhs` in order. */
  ghost function ChainKey(start: Str, dhs: seq<Str>): Str {
    if dhs == [] then start
    else FirstOutput(Extracted(ChainKey(start, dhs[..|dhs| - 1]), dhs[|dhs| - 1]))
  }

  /** The key that seals handshake parts after mixing in `dhs`. */
  ghost function PartKey(start: Str, dhs: seq<Str>): Str
    requires dhs != []
  {
    SecondOutput(Extracted(ChainKey(start, dhs[..|dhs| - 1]), dhs[|dhs| - 1]))[..32]
  }

  /** The key the initiator sends with, and the one it receives with. */
  ghost function SendKey(ck: Str): Str {
    FirstOutput(Extracted(ck, []))[..32]
  }

  ghost function ReceiveKey(ck: Str): Str {
    SecondOutput(Extracted(ck, []))[..32]
  }

  ghost function Product(a: nat, b: nat): Str {
    Bytes(Point(multiset{a, b}))
  }

  /** The two session keys differ. */
  lemma SessionKeysDiffer(ck: Str)
    ensures SendKey(ck) != ReceiveKey(ck)
  {
    var temp := Extracted(ck, []);
    assert SendKey(ck)[0] == Of(Mac(temp, [Literal(1)]), 0);
    assert ReceiveKey(ck)[0] == Of(Mac(temp, FirstOutput(temp) + [Literal(2)]), 0);
    assert |FirstOutput(temp) + [Literal(2)]| == 65;
  }

  // ---------------------------------------------------------------- the symmetric state

  /** A protocol name of at most 64 bytes, padded with zeros. */
  ghost function NameBytes(name: string): (h: Str)
    ensures |h| == 64
  {
    seq(64, i requires 0 <= i < 64 => if i < |name| then Literal(name[i] as int) else Literal(0))
  }

  lemma {:induction false} TextAt(name: string, i: nat)
    requires i < |name|
    ensures |Text(name)| == |name| && Text(name)[i] == Literal(name[i] as int)
  {
    AllLiteral(name);
    if i > 0 {
      TextAt(name[1..], i - 1);
    }
  }

  lemma {:induction false} PaddedAt(s: Str)
    requires |s| <= 64
    ensures forall i :: 0 <= i < 64 ==> Padded(s)[i] == if i < |s| then s[i] else Literal(0)
    decreases 64 - |s|
  {
    if |s| < 64 {
      PaddedAt(s + [Literal(0)]);
    }
  }

  lemma NewSymmetricAt(name: string)
    requires |name| <= 64
    ensures At(NewSymmetric(name), NameBytes(name), [], [], 0)
  {
    AllLiteral(name);
    PaddedAt(Text(name));
    forall i | 0 <= i < 64
      ensures Padded(Text(name))[i] == NameBytes(name)[i]
    {
      if i < |name| {
        TextAt(name, i);
      }
    }
    assert Padded(Text(name)) == NameBytes(name);
  }

  /** A state reached from `start` by mixing in the products `dhs` and the strings `parts`, with
      `nonce` texts sealed under the current key. */
  ghost predicate At(s: Symmetric, start: Str, dhs: seq<Str>, parts: seq<Str>, nonce: nat) {
    && |start| == 64
    && s.chainingKey == ChainKey(start, dhs)
    && s.digest == Chain(start, parts)
    && s.cipher == Cipher(if dhs == [] then None else Some(PartKey(start, dhs)), nonce)
  }

  /** A text sealed in such a state. */
  ghost function Part(start: Str, dhs: seq<Str>, parts: seq<Str>, nonce: nat, text: Str): Str
    requires |start| == 64 && dhs != []
  {
    Bytes(Sealed(PartKey(start, dhs), nonce, Chain(start, parts), text))
  }

  lemma MixHashAt(s: Symmetric, start: Str, dhs: seq<Str>, parts: seq<Str>, nonce: nat, data: Str)
    requires At(s, start, dhs, parts, nonce)
    ensures At(MixHash(s, data), start, dhs, parts + [data], nonce)
  {
    hide ChainKey, PartKey;
    assert (parts + [data])[..|parts|] == parts;
  }

  lemma MixKeyAt(s: Symmetric, start: Str, dhs: seq<Str>, parts: seq<Str>, nonce: nat, dh: Str)
    requires At(s, start, dhs, parts, nonce)
    ensures At(MixKey(s, dh), start, dhs + [dh], parts, 0)
  {
    assert (dhs + [dh])[..|dhs|] == dhs;
  }

  lemma SealAt(s: Symmetric, start: Str, dhs: seq<Str>, parts: seq<Str>, nonce: nat, text: Str)
    requires At(s, start, dhs, parts, nonce) && dhs != []
    ensures var (s', sealed) := EncryptAndHash(s, text);
            && sealed == Part(start, dhs, parts, nonce, text)
            && At(s', start, dhs, parts + [sealed], nonce + 1)
  {
    hide ChainKey, PartKey;
    assert (parts + [Part(start, dhs, parts, nonce, text)])[..|parts|] == parts;
  }

  lemma PlainAt(s: Symmetric, start: Str, parts: seq<Str>, nonce: nat, text: Str)
    requires At(s, start, [], parts, nonce)
    ensures var (s', sealed) := EncryptAndHash(s, text);
            sealed == text && At(s', start, [], parts + [text], nonce)
  {
    assert (parts + [text])[..|parts|] == parts;
  }

  lemma SealStaticAt(s: Symmetric, start: Str, dhs: seq<Str>, parts: seq<Str>, nonce: nat, own: nat, d: Str,
                     payload: Str)
    requires At(s, start, dhs, parts, nonce) && dhs != []
    ensures var c1 := Part(start, dhs, parts, nonce, PublicKey(own));
            var c2 := Part(start, dhs + [d], parts + [c1], 0, payload);
            var (s', m) := SealStatic(s, own, Some(d), payload);
            m == Ok(c1 + c2) && At(s', start, dhs + [d], parts + [c1] + [c2], 1)
  {
    hide At, Part, EncryptAndHash, MixKey;
    var (s1, c1) := EncryptAndHash(s, PublicKey(own));
    SealAt(s, start, dhs, parts, nonce, PublicKey(own));
    MixKeyAt(s1, start, dhs, parts + [c1], nonce + 1, d);
    SealAt(MixKey(s1, d), start, dhs + [d], parts + [c1], 0, payload);
  }

  lemma MirrorAt(s: Symmetric, start: Str, dhs: seq<Str>, parts: seq<Str>, nonce: nat)
    requires At(s, start, dhs, parts, nonce)
    ensures At(Mirror(s), start, dhs, parts, nonce)
  {
    hide ChainKey, PartKey;
  }

  /** The session of a side whose handshake ends in such a state. */
  lemma CompleteAt(h: Handshake, s: Symmetric, start: Str, dhs: seq<Str>, parts: seq<Str>, nonce: nat)
    requires At(s, start, dhs, parts, nonce)
    ensures var ck := ChainKey(start, dhs);
            Complete(h, s) ==
            Session(if h.isInitiator then SendKey(ck) else ReceiveKey(ck),
                    if h.isInitiator then ReceiveKey(ck) else SendKey(ck), Chain(start, parts), Remote(h))
  {
    hide ChainKey, PartKey, Chain;
  }

  // ---------------------------------------------------------------- XX written out

  ghost function Chosen(preset: Option<nat>, random: nat): nat {
    if preset.Some? then preset.value else random
  }

  /** What both sides of an exchange must end with. */
  ghost predicate Sessions(i: Handshake, r: Handshake, ck: Str, hash: Str, si: nat, sr: nat) {
    && i.result == Some(Session(SendKey(ck), ReceiveKey(ck), hash, PublicKey(sr)))
    && r.result == Some(Session(ReceiveKey(ck), SendKey(ck), hash, PublicKey(si)))
    && SendKey(ck) != ReceiveKey(ck)
  }

  /** The strings an XX handshake mixes in before its second and its third message. */
  ghost function XXFirstParts(ei: nat): seq<Str> {
    [[], PublicKey(ei), []]
  }

  ghost function XXPart1(ei: nat, er: nat, sr: nat): Str {
    Part(NameBytes(XX_NAME), [Product(ei, er)], XXFirstParts(ei) + [PublicKey(er)], 0, PublicKey(sr))
  }

  ghost function XXPart2(ei: nat, er: nat, sr: nat): Str {
    Part(NameBytes(XX_NAME), [Product(ei, er), Product(ei, sr)],
         XXFirstParts(ei) + [PublicKey(er)] + [XXPart1(ei, er, sr)], 0, [])
  }

  ghost function XXSecondParts(ei: nat, er: nat, sr: nat): seq<Str> {
    XXFirstParts(ei) + [PublicKey(er)] + [XXPart1(ei, er, sr)] + [XXPart2(ei, er, sr)]
  }

  ghost function XXPart3(ei: nat, er: nat, si: nat, sr: nat): Str {
    Part(NameBytes(XX_NAME), [Product(ei, er), Product(ei, sr)], XXSecondParts(ei, er, sr), 1, PublicKey(si))
  }

  /** The products of an XX handshake: ee, es and se. */
  ghost function XXProducts(ei: nat, er: nat, si: nat, sr: nat): seq<Str> {
    [Product(ei, er), Product(ei, sr), Product(si, er)]
  }

  ghost function XXPart4(ei: nat, er: nat, si: nat, sr: nat): Str {
    Part(NameBytes(XX_NAME), XXProducts(ei, er, si, sr), XXSecondParts(ei, er, sr) + [XXPart3(ei, er, si, sr)], 0, [])
  }

  ghost function XXHash(ei: nat, er: nat, si: nat, sr: nat): Str {
    Chain(NameBytes(XX_NAME), XXSecondParts(ei, er, sr) + [XXPart3(ei, er, si, sr)] + [XXPart4(ei, er, si, sr)])
  }

  lemma NewXXAt(isInitiator: bool, s: nat, preset: Option<nat>)
    ensures At(NewXX(isInitiator, s, preset).sym, NameBytes(XX_NAME), [], [[]], 0)
  {
    NewSymmetricAt(XX_NAME);
    hide At, NewSymmetric, MixHash, NameBytes;
    MixHashAt(NewSymmetric(XX_NAME), NameBytes(XX_NAME), [], [], 0, []);
    var none: seq<Str>, empty: Str := [], [];
    assert none + [empty] == [empty];
  }

  lemma XXSends1(h: Handshake, random: nat)
    requires h.result.None? && h.isInitiator && h.step == 0 && At(h.sym, NameBytes(XX_NAME), [], [[]], 0)
    ensures var e := Ephemeral(h, random);
            var (h', m) := SendXX(h, random);
            m == Ok(PublicKey(e)) && At(h'.sym, NameBytes(XX_NAME), [], XXFirstParts(e), 0)
  {
    hide At, EncryptAndHash, MixHash, NameBytes, PublicKey;
    var e := Ephemeral(h, random);
    var s1 := MixHash(h.sym, PublicKey(e));
    MixHashAt(h.sym, NameBytes(XX_NAME), [], [[]], 0, PublicKey(e));
    PlainAt(s1, NameBytes(XX_NAME), [[]] + [PublicKey(e)], 0, []);
    assert [[]] + [PublicKey(e)] + [[]] == XXFirstParts(e);
    assert PublicKey(e) + [] == PublicKey(e);
  }

  lemma XXSends2(h: Handshake, random: nat, ei: nat)
    requires h.result.None? && !h.isInitiator && h.step == 1 && h.re == Some(PublicKey(ei))
    requires At(h.sym, NameBytes(XX_NAME), [], XXFirstParts(ei), 0)
    ensures var e := Ephemeral(h, random);
            var (h', m) := SendXX(h, random);
            && m == Ok(PublicKey(e) + (XXPart1(ei, e, h.s) + XXPart2(ei, e, h.s)))
            && At(h'.sym, NameBytes(XX_NAME), [Product(ei, e), Product(ei, h.s)], XXSecondParts(ei, e, h.s), 1)
  {
    hide At, SealStatic, MixHash, MixKey, NameBytes, PublicKey, Part, Dh;
    var e := Ephemeral(h, random);
    var s1 := MixHash(h.sym, PublicKey(e));
    var ee, es := Product(ei, e), Product(ei, h.s);
    var parts := XXFirstParts(ei) + [PublicKey(e)];
    DhMeets(ei, e);
    DhMeets(ei, h.s);
    MixHashAt(h.sym, NameBytes(XX_NAME), [], XXFirstParts(ei), 0, PublicKey(e));
    MixKeyAt(s1, NameBytes(XX_NAME), [], parts, 0, ee);
    assert [] + [ee] == [ee] && [ee] + [es] == [ee, es];
    SealStaticAt(MixKey(s1, ee), NameBytes(XX_NAME), [ee], parts, 0, h.s, es, []);
  }

  lemma XXSends3(h: Handshake, random: nat, ei: nat, er: nat, sr: nat)
    requires h.result.None? && h.isInitiator && h.step == 2 && h.re == Some(PublicKey(er))
    requires At(h.sym, NameBytes(XX_NAME), [Product(ei, er), Product(ei, sr)], XXSecondParts(ei, er, sr), 1)
    ensures var (h', m) := SendXX(h, random);
            && m == Ok(XXPart3(ei, er, h.s, sr) + XXPart4(ei, er, h.s, sr))
            && At(h'.sym, NameBytes(XX_NAME), XXProducts(ei, er, h.s, sr),
                  XXSecondParts(ei, er, sr) + [XXPart3(ei, er, h.s, sr)] + [XXPart4(ei, er, h.s, sr)], 1)
            && h'.result == Some(Complete(h, h'.sym)) && h'.isInitiator == h.isInitiator && h'.rs == h.rs
  {
    hide At, SealStatic, NameBytes, PublicKey, Part, Dh, XXSecondParts, Complete;
    var dhs, se := [Product(ei, er), Product(ei, sr)], Product(h.s, er);
    DhMeets(h.s, er);
    assert dhs + [se] == XXProducts(ei, er, h.s, sr);
    SealStaticAt(h.sym, NameBytes(XX_NAME), dhs, XXSecondParts(ei, er, sr), 1, h.s, se, []);
  }

  lemma FirstKept(si: nat, sr: nat, presetI: Option<nat>, presetR: Option<nat>, ri: nat)
    ensures var i0, r0, ei := NewXX(true, si, presetI), NewXX(false, sr, presetR), Chosen(presetI, ri);
            var (i1, m1) := SendXX(i0, ri);
            m1 == Ok(PublicKey(ei)) &&
            var (r1, got1) := RecvXX(r0, m1.value);
            && got1.Ok? && Lockstep(i1, r1)
            && i1.isInitiator && i1.step == 1 && i1.result.None? && i1.e == Some(ei) && i1.s == si
            && !r1.isInitiator && r1.step == 1 && r1.result.None? && r1.re == Some(PublicKey(ei)) && r1.e == presetR
            && r1.s == sr && At(r1.sym, NameBytes(XX_NAME), [], XXFirstParts(ei), 0)
  {
    var i0, r0 := NewXX(true, si, presetI), NewXX(false, sr, presetR);
    assert Lockstep(i0, r0);
    hide At, SendXX, RecvXX, MixHash, NewSymmetric, NameBytes, PublicKey;
    NewXXAt(true, si, presetI);
    XXFirst(i0, r0, ri);
    XXSends1(i0, ri);
    MirrorAt(SendXX(i0, ri).0.sym, NameBytes(XX_NAME), [], XXFirstParts(Chosen(presetI, ri)), 0);
  }

  lemma SecondKept(i: Handshake, r: Handshake, rr: nat, ei: nat)
    requires i.isInitiator && i.step == 1 && i.result.None? && i.e == Some(ei) && Lockstep(i, r)
    requires !r.isInitiator && r.step == 1 && r.result.None? && r.re == Some(PublicKey(ei))
    requires At(r.sym, NameBytes(XX_NAME), [], XXFirstParts(ei), 0)
    ensures var e := Ephemeral(r, rr);
            var (r', m) := SendXX(r, rr);
            m == Ok(PublicKey(e) + (XXPart1(ei, e, r.s) + XXPart2(ei, e, r.s))) &&
            var (i', got) := RecvXX(i, m.value);
            && got.Ok? && Lockstep(i', r') && i'.sym.cipher.key.Some?
            && i'.isInitiator && i'.step == 2 && i'.result.None? && i'.s == i.s
            && i'.re == Some(PublicKey(e)) && i'.rs == Some(PublicKey(r.s))
            && !r'.isInitiator && r'.step == 2 && r'.result.None? && r'.e == Some(e) && r'.s == r.s
            && At(i'.sym, NameBytes(XX_NAME), [Product(ei, e), Product(ei, r.s)], XXSecondParts(ei, e, r.s), 1)
  {
    XXSecond(i, r, rr);
    XXSends2(r, rr, ei);
    hide At, SendXX, RecvXX, NameBytes, PublicKey, XXSecondParts, Product, Lockstep;
    var e := Ephemeral(r, rr);
    var (r', m) := SendXX(r, rr);
    var (i', got) := RecvXX(i, m.value);
    MirrorBack(i', r');
    MirrorAt(r'.sym, NameBytes(XX_NAME), [Product(ei, e), Product(ei, r.s)], XXSecondParts(ei, e, r.s), 1);
  }

  lemma ThirdKept(i: Handshake, r: Handshake, ri: nat, ei: nat, er: nat)
    requires i.isInitiator && i.step == 2 && i.result.None? && i.sym.cipher.key.Some? && Lockstep(i, r)
    requires !r.isInitiator && r.step == 2 && r.result.None? && r.e == Some(er)
    requires i.re == Some(PublicKey(er)) && i.rs == Some(PublicKey(r.s))
    requires At(i.sym, NameBytes(XX_NAME), [Product(ei, er), Product(ei, r.s)], XXSecondParts(ei, er, r.s), 1)
    ensures var (i', m) := SendXX(i, ri);
            m == Ok(XXPart3(ei, er, i.s, r.s) + XXPart4(ei, er, i.s, r.s)) &&
            var (r', got) := RecvXX(r, m.value);
            got.Ok? && Sessions(i', r', ChainKey(NameBytes(XX_NAME), XXProducts(ei, er, i.s, r.s)),
                                XXHash(ei, er, i.s, r.s), i.s, r.s)
  {
    XXThird(i, r, ri);
    XXSends3(i, ri, ei, er, r.s);
    hide At, SendXX, RecvXX, NameBytes, PublicKey, XXSecondParts, XXPart3, XXPart4, XXProducts, ChainKey, Complete,
         SendKey, ReceiveKey, Chain;
    var dhs := XXProducts(ei, er, i.s, r.s);
    var parts := XXSecondParts(ei, er, r.s) + [XXPart3(ei, er, i.s, r.s)] + [XXPart4(ei, er, i.s, r.s)];
    CompleteAt(i, SendXX(i, ri).0.sym, NameBytes(XX_NAME), dhs, parts, 1);
    SessionKeysDiffer(ChainKey(NameBytes(XX_NAME), dhs));
  }

  /** An honest XX run written out, for all static and ephemeral secrets. The first message is the
      initiator's ephemeral key; the second the responder's, its static key sealed under ee and an
      empty text under es; the third the initiator's static key under es and an empty text under
      se. Both sides end with the hash of that transcript, the other's static key, and two
      different session keys of the chain over ee, es and se: the first for what the initiator
      sends, the second for what it receives. */
  lemma XXTranscript(si: nat, sr: nat, presetI: Option<nat>, presetR: Option<nat>, ri: nat, rr: nat)
    ensures var i0, r0 := NewXX(true, si, presetI), NewXX(false, sr, presetR);
            var ei, er := Chosen(presetI, ri), Chosen(presetR, rr);
            var (i1, m1) := SendXX(i0, ri);
            m1 == Ok(PublicKey(ei)) &&
            var (r1, got1) := RecvXX(r0, m1.value);
            var (r2, m2) := SendXX(r1, rr);
            got1.Ok? && m2 == Ok(PublicKey(er) + (XXPart1(ei, er, sr) + XXPart2(ei, er, sr))) &&
            var (i2, got2) := RecvXX(i1, m2.value);
            var (i3, m3) := SendXX(i2, ri);
            got2.Ok? && m3 == Ok(XXPart3(ei, er, si, sr) + XXPart4(ei, er, si, sr)) &&
            var (r3, got3) := RecvXX(r2, m3.value);
            got3.Ok? && Sessions(i3, r3, ChainKey(NameBytes(XX_NAME), XXProducts(ei, er, si, sr)),
                                 XXHash(ei, er, si, sr), si, sr)
  {
    hide At, SendXX, RecvXX, NameBytes, PublicKey, XXSecondParts, XXPart1, XXPart2, XXPart3, XXPart4, XXProducts,
         ChainKey, XXHash, Sessions, Lockstep, NewXX;
    var i0, r0 := NewXX(true, si, presetI), NewXX(false, sr, presetR);
    var ei, er := Chosen(presetI, ri), Chosen(presetR, rr);
    FirstKept(si, sr, presetI, presetR, ri);
    var (i1, m1) := SendXX(i0, ri);
    var (r1, got1) := RecvXX(r0, m1.value);
    SecondKept(i1, r1, rr, ei);
    var (r2, m2) := SendXX(r1, rr);
    var (i2, got2) := RecvXX(i1, m2.value);
    ThirdKept(i2, r2, ri, ei, er);
  }

  // ---------------------------------------------------------------- IK written out

  ghost function IKFirstParts(prologue: Str, ei: nat, sr: nat): seq<Str> {
    [prologue, PublicKey(sr), PublicKey(ei)]
  }

  ghost function IKPart1(prologue: Str, ei: nat, si: nat, sr: nat): Str {
    Part(NameBytes(IK_NAME), [Product(ei, sr)], IKFirstParts(prologue, ei, sr), 0, PublicKey(si))
  }

  ghost function IKPart2(prologue: Str, ei: nat, si: nat, sr: nat, payload: Str): Str {
    Part(NameBytes(IK_NAME), [Product(ei, sr), Product(si, sr)],
         IKFirstParts(prologue, ei, sr) + [IKPart1(prologue, ei, si, sr)], 0, payload)
  }

  ghost function IKSecondParts(prologue: Str, ei: nat, si: nat, sr: nat, payload: Str): seq<Str> {
    IKFirstParts(prologue, ei, sr) + [IKPart1(prologue, ei, si, sr)] + [IKPart2(prologue, ei, si, sr, payload)]
  }

  /** The products of an IK handshake: es, ss, ee and se. */
  ghost function IKProducts(ei: nat, er: nat, si: nat, sr: nat): seq<Str> {
    [Product(ei, sr), Product(si, sr), Product(ei, er), Product(si, er)]
  }

  ghost function IKPart3(prologue: Str, ei: nat, er: nat, si: nat, sr: nat, payload1: Str, payload2: Str): Str {
    Part(NameBytes(IK_NAME), IKProducts(ei, er, si, sr),
         IKSecondParts(prologue, ei, si, sr, payload1) + [PublicKey(er)], 0, payload2)
  }

  ghost function IKHash(prologue: Str, ei: nat, er: nat, si: nat, sr: nat, payload1: Str, payload2: Str): Str {
    Chain(NameBytes(IK_NAME),
          IKSecondParts(prologue, ei, si, sr, payload1) + [PublicKey(er)] +
          [IKPart3(prologue, ei, er, si, sr, payload1, payload2)])
  }

  lemma TwoMixed(s: Symmetric, start: Str, a: Str, b: Str)
    requires At(s, start, [], [], 0)
    ensures At(MixHash(MixHash(s, a), b), start, [], [a, b], 0)
  {
    hide At, MixHash;
    MixHashAt(s, start, [], [], 0, a);
    MixHashAt(MixHash(s, a), start, [], [] + [a], 0, b);
    assert [] + [a] + [b] == [a, b];
  }

  lemma NewIKAt(si: nat, sr: nat, prologue: Str, preset: Option<nat>)
    ensures At(NewInitiator(si, PublicKey(sr), prologue, preset).sym, NameBytes(IK_NAME), [],
               [prologue, PublicKey(sr)], 0)
  {
    hide At, NewSymmetric, MixHash, NameBytes, PublicKey;
    NewSymmetricAt(IK_NAME);
    TwoMixed(NewSymmetric(IK_NAME), NameBytes(IK_NAME), prologue, PublicKey(sr));
  }

  lemma IKSends1(h: Handshake, payload: Str, random: nat, prologue: Str, sr: nat)
    requires h.result.None? && h.isInitiator && h.step == 0 && h.rs == Some(PublicKey(sr))
    requires At(h.sym, NameBytes(IK_NAME), [], [prologue, PublicKey(sr)], 0)
    ensures var e := Ephemeral(h, random);
            var (h', m) := SendIK(h, payload, random);
            && m == Ok(PublicKey(e) + (IKPart1(prologue, e, h.s, sr) + IKPart2(prologue, e, h.s, sr, payload)))
            && At(h'.sym, NameBytes(IK_NAME), [Product(e, sr), Product(h.s, sr)],
                  IKSecondParts(prologue, e, h.s, sr, payload), 1)
  {
    hide At, SealStatic, MixHash, MixKey, NameBytes, PublicKey, Part, Dh;
    var e := Ephemeral(h, random);
    var s1 := MixHash(h.sym, PublicKey(e));
    var es, ss := Product(e, sr), Product(h.s, sr);
    DhMeets(e, sr);
    DhMeets(h.s, sr);
    MixHashAt(h.sym, NameBytes(IK_NAME), [], [prologue, PublicKey(sr)], 0, PublicKey(e));
    var parts := IKFirstParts(prologue, e, sr);
    assert [prologue, PublicKey(sr)] + [PublicKey(e)] == parts;
    MixKeyAt(s1, NameBytes(IK_NAME), [], parts, 0, es);
    assert [] + [es] == [es] && [es] + [ss] == [es, ss];
    SealStaticAt(MixKey(s1, es), NameBytes(IK_NAME), [es], parts, 0, h.s, ss, payload);
  }

  lemma IKSends2(h: Handshake, payload: Str, random: nat, prologue: Str, ei: nat, si: nat, payload1: Str)
    requires h.result.None? && !h.isInitiator && h.step == 1
    requires h.re == Some(PublicKey(ei)) && h.rs == Some(PublicKey(si))
    requires At(h.sym, NameBytes(IK_NAME), [Product(ei, h.s), Product(si, h.s)],
                IKSecondParts(prologue, ei, si, h.s, payload1), 1)
    ensures var e := Ephemeral(h, random);
            var (h', m) := SendIK(h, payload, random);
            var c3 := IKPart3(prologue, ei, e, si, h.s, payload1, payload);
            && m == Ok(PublicKey(e) + c3)
            && At(h'.sym, NameBytes(IK_NAME), IKProducts(ei, e, si, h.s),
                  IKSecondParts(prologue, ei, si, h.s, payload1) + [PublicKey(e)] + [c3], 1)
            && h'.result == Some(Complete(h, h'.sym))
  {
    hide At, EncryptAndHash, MixHash, MixKey, NameBytes, PublicKey, Part, Dh, IKSecondParts, Complete;
    var e := Ephemeral(h, random);
    var parts := IKSecondParts(prologue, ei, si, h.s, payload1);
    var dhs, ee, se := [Product(ei, h.s), Product(si, h.s)], Product(ei, e), Product(si, e);
    DhMeets(ei, e);
    DhMeets(si, e);
    var s1 := MixHash(h.sym, PublicKey(e));
    MixHashAt(h.sym, NameBytes(IK_NAME), dhs, parts, 1, PublicKey(e));
    MixKeyAt(s1, NameBytes(IK_NAME), dhs, parts + [PublicKey(e)], 1, ee);
    MixKeyAt(MixKey(s1, ee), NameBytes(IK_NAME), dhs + [ee], parts + [PublicKey(e)], 0, se);
    assert dhs + [ee] + [se] == IKProducts(ei, e, si, h.s);
    SealAt(MixKey(MixKey(s1, ee), se), NameBytes(IK_NAME), dhs + [ee] + [se], parts + [PublicKey(e)], 0, payload);
  }

  lemma IKFirstKept(si: nat, sr: nat, prologue: Str, presetI: Option<nat>, presetR: Option<nat>, ri: nat, payload: Str)
    ensures var i0, r0 := NewInitiator(si, PublicKey(sr), prologue, presetI), NewResponder(sr, prologue, presetR);
            var ei := Chosen(presetI, ri);
            var (i1, m1) := SendIK(i0, payload, ri);
            m1 == Ok(PublicKey(ei) + (IKPart1(prologue, ei, si, sr) + IKPart2(prologue, ei, si, sr, payload))) &&
            var (r1, got1) := RecvIK(r0, m1.value);
            && got1 == Ok(payload) && Lockstep(i1, r1)
            && i1.isInitiator && i1.step == 1 && i1.result.None? && i1.e == Some(ei) && i1.s == si
            && i1.rs == Some(PublicKey(sr))
            && !r1.isInitiator && r1.step == 1 && r1.result.None? && r1.e == presetR && r1.s == sr
            && r1.re == Some(PublicKey(ei)) && r1.rs == Some(PublicKey(si))
            && At(r1.sym, NameBytes(IK_NAME), [Product(ei, sr), Product(si, sr)],
                  IKSecondParts(prologue, ei, si, sr, payload), 1)
  {
    var i0, r0 := NewInitiator(si, PublicKey(sr), prologue, presetI), NewResponder(sr, prologue, presetR);
    assert Lockstep(i0, r0);
    hide At, SendIK, RecvIK, MixHash, NewSymmetric, NameBytes, PublicKey, IKSecondParts, IKPart1, IKPart2, Product;
    var ei := Chosen(presetI, ri);
    NewIKAt(si, sr, prologue, presetI);
    IKFirst(i0, r0, payload, ri);
    IKSends1(i0, payload, ri, prologue, sr);
    MirrorAt(SendIK(i0, payload, ri).0.sym, NameBytes(IK_NAME), [Product(ei, sr), Product(si, sr)],
             IKSecondParts(prologue, ei, si, sr, payload), 1);
  }

  lemma IKSecondKept(i: Handshake, r: Handshake, payload: Str, rr: nat, prologue: Str, ei: nat, payload1: Str)
    requires i.isInitiator && i.step == 1 && i.result.None? && i.e == Some(ei) && i.rs == Some(PublicKey(r.s))
    requires !r.isInitiator && r.step == 1 && r.result.None? && Lockstep(i, r)
    requires r.re == Some(PublicKey(ei)) && r.rs == Some(PublicKey(i.s))
    requires At(r.sym, NameBytes(IK_NAME), [Product(ei, r.s), Product(i.s, r.s)],
                IKSecondParts(prologue, ei, i.s, r.s, payload1), 1)
    ensures var er := Ephemeral(r, rr);
            var (r', m) := SendIK(r, payload, rr);
            m == Ok(PublicKey(er) + IKPart3(prologue, ei, er, i.s, r.s, payload1, payload)) &&
            var (i', got) := RecvIK(i, m.value);
            got == Ok(payload) && Sessions(i', r', ChainKey(NameBytes(IK_NAME), IKProducts(ei, er, i.s, r.s)),
                                           IKHash(prologue, ei, er, i.s, r.s, payload1, payload), i.s, r.s)
  {
    IKSecond(i, r, payload, rr);
    IKSends2(r, payload, rr, prologue, ei, i.s, payload1);
    hide At, SendIK, RecvIK, NameBytes, PublicKey, IKSecondParts, IKPart3, IKProducts, ChainKey, Complete, SendKey,
         ReceiveKey, Chain;
    var er := Ephemeral(r, rr);
    var dhs := IKProducts(ei, er, i.s, r.s);
    var parts := IKSecondParts(prologue, ei, i.s, r.s, payload1) + [PublicKey(er)] +
                 [IKPart3(prologue, ei, er, i.s, r.s, payload1, payload)];
    CompleteAt(r, SendIK(r, payload, rr).0.sym, NameBytes(IK_NAME), dhs, parts, 1);
    SessionKeysDiffer(ChainKey(NameBytes(IK_NAME), dhs));
  }

  /** An honest IK run written out, for all secrets, prologues and payloads: the first message is
      the initiator's ephemeral key, its static key sealed under es and the first payload under
      ss; the second the responder's ephemeral key and the second payload sealed under ee and se.
      Both sides end with the hash of that transcript and two different session keys of the chain
      over es, ss, ee and se. */
  lemma IKTranscript(si: nat, sr: nat, prologue: Str, presetI: Option<nat>, presetR: Option<nat>, ri: nat, rr: nat,
                     payload1: Str, payload2: Str)
    ensures var i0, r0 := NewInitiator(si, PublicKey(sr), prologue, presetI), NewResponder(sr, prologue, presetR);
            var ei, er := Chosen(presetI, ri), Chosen(presetR, rr);
            var (i1, m1) := SendIK(i0, payload1, ri);
            m1 == Ok(PublicKey(ei) + (IKPart1(prologue, ei, si, sr) + IKPart2(prologue, ei, si, sr, payload1))) &&
            var (r1, got1) := RecvIK(r0, m1.value);
            var (r2, m2) := SendIK(r1, payload2, rr);
            got1 == Ok(payload1) &&
            m2 == Ok(PublicKey(er) + IKPart3(prologue, ei, er, si, sr, payload1, payload2)) &&
            var (i2, got2) := RecvIK(i1, m2.value);
            got2 == Ok(payload2) && Sessions(i2, r2, ChainKey(NameBytes(IK_NAME), IKProducts(ei, er, si, sr)),
                                             IKHash(prologue, ei, er, si, sr, payload1, payload2), si, sr)
  {
    hide At, SendIK, RecvIK, NameBytes, PublicKey, IKSecondParts, IKPart1, IKPart2, IKPart3, IKProducts, ChainKey,
         IKHash, Sessions, Lockstep, NewInitiator, NewResponder;
    var i0, r0 := NewInitiator(si, PublicKey(sr), prologue, presetI), NewResponder(sr, prologue, presetR);
    IKFirstKept(si, sr, prologue, presetI, presetR, ri, payload1);
    var (i1, m1) := SendIK(i0, payload1, ri);
    var (r1, got1) := RecvIK(r0, m1.value);
    IKSecondKept(i1, r1, payload2, rr, prologue, Chosen(presetI, ri), payload1);
  }
}
