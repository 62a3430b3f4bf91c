/** What the Noise handshakes guarantee: agreement of honest runs, no reuse of a key and nonce
    whatever is received, and that equal handshake hashes mean equal transcripts. */
module NoiseRuns {
  import opened Options
  import opened NoiseSpec

  // ---------------------------------------------------------------- lockstep

  ghost function Flip(us: seq<Use>): seq<Use> {
    if us == [] then [] else Flip(us[..|us| - 1]) + [us[|us| - 1].(sealing := !us[|us| - 1].sealing)]
  }

  /** The state of the other side in lockstep: the same chaining key, digest, cipher key and
      nonce, having opened whatever this side sealed and sealed whatever it opened. */
  ghost function Mirror(s: Symmetric): Symmetric {
    s.(uses := Flip(s.uses))
  }

  lemma FlipSnoc(us: seq<Use>, u: Use)
    ensures Flip(us + [u]) == Flip(us) + [u.(sealing := !u.sealing)]
  {
    assert (us + [u])[..|us|] == us;
  }

  lemma {:induction false} FlipTwice(us: seq<Use>)
    ensures Flip(Flip(us)) == us
  {
    if us != [] {
      var init, last := us[..|us| - 1], us[|us| - 1];
      FlipTwice(init);
      FlipSnoc(Flip(init), last.(sealing := !last.sealing));
      assert us == init + [last];
    }
  }

  lemma MirrorMixes(s: Symmetric, data: Str)
    ensures MixHash(Mirror(s), data) == Mirror(MixHash(s, data))
    ensures MixKey(Mirror(s), data) == Mirror(MixKey(s, data))
  {
  }

  /** What one side seals, the other side in lockstep opens, and both stay in lockstep. */
  lemma SealOpen(s: Symmetric, text: Str)
    ensures var (s', sealed) := EncryptAndHash(s, text);
            DecryptAndHash(Mirror(s), sealed) == (Mirror(s'), Ok(text))
  {
    var (cipher, sealed) := Encrypt(s.cipher, text, s.digest);
    if s.cipher.key.Some? {
      FlipSnoc(s.uses, Use(s.cipher.key.value, s.cipher.nonce, true));
      assert s.uses + UseOf(s.cipher, true) == s.uses + [Use(s.cipher.key.value, s.cipher.nonce, true)];
    } else {
      assert s.uses + [] == s.uses && Flip(s.uses) + [] == Flip(s.uses);
    }
  }

  /** Both sides of an exchange form the same product. */
  lemma DhMeets(a: nat, b: nat)
    ensures Dh(a, PublicKey(b)) == Some(Bytes(Point(multiset{a, b}))) == Dh(b, PublicKey(a))
  {
    assert multiset{b} + multiset{a} == multiset{a, b} == multiset{a} + multiset{b};
  }

  lemma StaticOpens(s: Symmetric, own: nat, d: Str, secret: nat, payload: Str)
    requires s.cipher.key.Some? && Dh(secret, PublicKey(own)) == Some(d)
    ensures var (s', m) := SealStatic(s, own, Some(d), payload);
            && m.Ok? && |m.value| == 64 + |payload|
            && OpenStatic(Mirror(s), secret, m.value) == (Mirror(s'), Some(PublicKey(own)), Ok(payload))
  {
    var (s1, encS) := EncryptAndHash(s, PublicKey(own));
    var s2 := MixKey(s1, d);
    var (s3, enc) := EncryptAndHash(s2, payload);
    SealOpen(s, PublicKey(own));
    SealOpen(s2, payload);
    MirrorMixes(s1, d);
    Sizes(s, PublicKey(own));
    Sizes(s2, payload);
    assert (encS + enc)[..48] == encS && (encS + enc)[48..] == enc;
    hide EncryptAndHash, DecryptAndHash, MixKey, Mirror, Dh;
  }

  lemma Sizes(s: Symmetric, text: Str)
    requires s.cipher.key.Some?
    ensures |EncryptAndHash(s, text).1| == |text| + 16
  {
  }

  // ---------------------------------------------------------------- XX agreement

  ghost predicate Agree(i: Handshake, r: Handshake) {
    && i.result.Some? && r.result.Some?
    && i.result.value.hash == r.result.value.hash
    && i.result.value.tx == r.result.value.rx
    && i.result.value.rx == r.result.value.tx
    && i.result.value.remote == PublicKey(r.s)
    && r.result.value.remote == PublicKey(i.s)
  }

  ghost predicate Lockstep(i: Handshake, r: Handshake) {
    r.sym == Mirror(i.sym)
  }

  lemma XXFirst(i: Handshake, r: Handshake, random: nat)
    requires i.result.None? && r.result.None? && i.isInitiator && !r.isInitiator && i.step == 0 && r.step == 0
    requires i.sym.cipher.key.None? && Lockstep(i, r)
    ensures var (i', m) := SendXX(i, random);
            m.Ok? &&
            var (r', got) := RecvXX(r, m.value);
            && got.Ok? && Lockstep(i', r') && i'.sym.cipher.key.None?
            && i' == i.(e := Some(Ephemeral(i, random)), sym := i'.sym, step := 1)
            && r' == r.(re := Some(PublicKey(Ephemeral(i, random))), sym := r'.sym, step := 1)
  {
    var e := Ephemeral(i, random);
    MirrorMixes(i.sym, PublicKey(e));
    SealOpen(MixHash(i.sym, PublicKey(e)), []);
    var m := PublicKey(e) + [];
    assert m[..32] == PublicKey(e) && m[32..] == [];
  }

  lemma XXSecond(i: Handshake, r: Handshake, random: nat)
    requires i.result.None? && r.result.None? && i.isInitiator && !r.isInitiator && i.step == 1 && r.step == 1
    requires i.e.Some? && r.re == Some(PublicKey(i.e.value)) && Lockstep(i, r)
    ensures var (r', m) := SendXX(r, random);
            m.Ok? &&
            var (i', got) := RecvXX(i, m.value);
            && got.Ok? && Lockstep(i', r')
            && r' == r.(e := Some(Ephemeral(r, random)), sym := r'.sym, step := 2)
            && i' == i.(re := Some(PublicKey(Ephemeral(r, random))), rs := Some(PublicKey(r.s)), sym := i'.sym,
                        step := 2)
            && i'.sym.cipher.key.Some?
  {
    var e := Ephemeral(r, random);
    var s1 := MixHash(r.sym, PublicKey(e));
    DhMeets(e, i.e.value);
    DhMeets(r.s, i.e.value);
    var ee := Dh(e, r.re.value).value;
    var es := Dh(r.s, r.re.value).value;
    var s2 := MixKey(s1, ee);
    MirrorBack(i, r);
    MirrorMixes(r.sym, PublicKey(e));
    MirrorMixes(s1, ee);
    StaticOpens(s2, r.s, es, i.e.value, []);
    var (s3, rest) := SealStatic(s2, r.s, Some(es), []);
    var m := PublicKey(e) + rest.value;
    assert m[..32] == PublicKey(e) && m[32..] == rest.value;
    MirrorOnce(s3);
    OpenedKey(Mirror(s2), i.e.value, rest.value);
    hide SealStatic, OpenStatic, MixKey, MixHash, Dh, Mirror;
  }

  /** Being in lockstep is mutual. */
  lemma MirrorBack(i: Handshake, r: Handshake)
    requires Lockstep(i, r)
    ensures i.sym == Mirror(r.sym)
  {
    FlipTwice(i.sym.uses);
  }

  lemma MirrorOnce(s: Symmetric)
    ensures Mirror(Mirror(s)) == s
  {
    FlipTwice(s.uses);
  }

  lemma OpenedKey(s: Symmetric, secret: nat, m: Str)
    requires |m| >= 48
    ensures OpenStatic(s, secret, m).2.Ok? ==> OpenStatic(s, secret, m).0.cipher.key.Some?
  {
  }

  lemma XXThird(i: Handshake, r: Handshake, random: nat)
    requires i.result.None? && r.result.None? && i.isInitiator && !r.isInitiator && i.step == 2 && r.step == 2
    requires r.e.Some? && i.re == Some(PublicKey(r.e.value)) && i.rs == Some(PublicKey(r.s))
    requires i.sym.cipher.key.Some? && Lockstep(i, r)
    ensures var (i', m) := SendXX(i, random);
            m.Ok? &&
            var (r', got) := RecvXX(r, m.value);
            && got.Ok? && Lockstep(i', r') && i'.s == i.s && r'.s == r.s && Agree(i', r')
  {
    DhMeets(i.s, r.e.value);
    var se := Dh(i.s, i.re.value).value;
    StaticOpens(i.sym, i.s, se, r.e.value, []);
    var (s1, m) := SealStatic(i.sym, i.s, Some(se), []);
    hide SealStatic, OpenStatic, Dh;
  }

  /** An honest XX run, for all static and ephemeral secrets: the three messages are accepted,
      both sides finish in lockstep with the same handshake hash and crossed keys, and each
      learns the other's static key. */
  lemma XXAgreement(si: nat, sr: nat, presetI: Option<nat>, presetR: Option<nat>, ri: nat, rr: nat)
    ensures var i0, r0 := NewXX(true, si, presetI), NewXX(false, sr, presetR);
            var (i1, m1) := SendXX(i0, ri);
            m1.Ok? &&
            var (r1, got1) := RecvXX(r0, m1.value);
            var (r2, m2) := SendXX(r1, rr);
            got1.Ok? && m2.Ok? &&
            var (i2, got2) := RecvXX(i1, m2.value);
            var (i3, m3) := SendXX(i2, ri);
            got2.Ok? && m3.Ok? &&
            var (r3, got3) := RecvXX(r2, m3.value);
            got3.Ok? && i3.s == si && r3.s == sr && Agree(i3, r3) && Lockstep(i3, r3)
  {
    var i0, r0 := NewXX(true, si, presetI), NewXX(false, sr, presetR);
    assert Lockstep(i0, r0);
    XXFirst(i0, r0, ri);
    hide SendXX, RecvXX, Lockstep, MixHash;
    var (i1, m1) := SendXX(i0, ri);
    var (r1, got1) := RecvXX(r0, m1.value);
    XXSecond(i1, r1, rr);
    var (r2, m2) := SendXX(r1, rr);
    var (i2, got2) := RecvXX(i1, m2.value);
    XXThird(i2, r2, ri);
  }

  // ---------------------------------------------------------------- IK agreement

  lemma IKFirst(i: Handshake, r: Handshake, payload: Str, random: nat)
    requires i.result.None? && r.result.None? && i.isInitiator && !r.isInitiator && i.step == 0 && r.step == 0
    requires i.rs == Some(PublicKey(r.s)) && Lockstep(i, r)
    ensures var (i', m) := SendIK(i, payload, random);
            m.Ok? &&
            var (r', got) := RecvIK(r, m.value);
            && got == Ok(payload) && Lockstep(i', r')
            && i' == i.(e := Some(Ephemeral(i, random)), sym := i'.sym, step := 1)
            && r' == r.(re := Some(PublicKey(Ephemeral(i, random))), rs := Some(PublicKey(i.s)), sym := r'.sym,
                        step := 1)
  {
    var e := Ephemeral(i, random);
    var s1 := MixHash(i.sym, PublicKey(e));
    DhMeets(e, r.s);
    DhMeets(i.s, r.s);
    var es := Dh(e, i.rs.value).value;
    var ss := Dh(i.s, i.rs.value).value;
    var s2 := MixKey(s1, es);
    MirrorMixes(i.sym, PublicKey(e));
    MirrorMixes(s1, es);
    StaticOpens(s2, i.s, ss, r.s, payload);
    var (s3, rest) := SealStatic(s2, i.s, Some(ss), payload);
    var m := PublicKey(e) + rest.value;
    assert m[..32] == PublicKey(e) && m[32..] == rest.value;
    hide SealStatic, OpenStatic, MixKey, MixHash, Dh, Mirror;
  }

  lemma IKSecond(i: Handshake, r: Handshake, payload: Str, random: nat)
    requires i.result.None? && r.result.None? && i.isInitiator && !r.isInitiator && i.step == 1 && r.step == 1
    requires i.e.Some? && r.re == Some(PublicKey(i.e.value)) && r.rs == Some(PublicKey(i.s)) &&
             i.rs == Some(PublicKey(r.s))
    requires Lockstep(i, r)
    ensures var (r', m) := SendIK(r, payload, random);
            m.Ok? &&
            var (i', got) := RecvIK(i, m.value);
            && got == Ok(payload) && i'.s == i.s && r'.s == r.s && Agree(i', r') && Lockstep(i', r')
  {
    hide EncryptAndHash, DecryptAndHash, MixKey, MixHash, Dh, Mirror, Split;
    var e := Ephemeral(r, random);
    var s1 := MixHash(r.sym, PublicKey(e));
    DhMeets(e, i.e.value);
    DhMeets(e, i.s);
    var ee := Dh(e, r.re.value).value;
    var se := Dh(e, r.rs.value).value;
    var s2 := MixKey(s1, ee);
    var s3 := MixKey(s2, se);
    MirrorBack(i, r);
    MirrorMixes(r.sym, PublicKey(e));
    MirrorMixes(s1, ee);
    MirrorMixes(s2, se);
    SealOpen(s3, payload);
    MixKeySets(s2, se);
    Sizes(s3, payload);
    var (s4, enc) := EncryptAndHash(s3, payload);
    var m := PublicKey(e) + enc;
    assert m[..32] == PublicKey(e) && m[32..] == enc;
    MirrorOnce(s4);
    MirrorSplits(s4);
  }

  lemma MixKeySets(s: Symmetric, d: Str)
    ensures MixKey(s, d).cipher.key.Some?
  {
  }

  lemma MirrorSplits(s: Symmetric)
    ensures Split(Mirror(s)) == Split(s) && Mirror(s).digest == s.digest
  {
  }

  /** An honest IK run, for all secrets, prologues and payloads: both messages are accepted and
      give back their payloads, and both sides finish in lockstep and in agreement. */
  lemma IKAgreement(si: nat, sr: nat, prologue: Str, presetI: Option<nat>, presetR: Option<nat>, ri: nat, rr: nat,
                    payload1: Str, payload2: Str)
    ensures var i0, r0 := NewInitiator(si, PublicKey(sr), prologue, presetI), NewResponder(sr, prologue, presetR);
            var (i1, m1) := SendIK(i0, payload1, ri);
            m1.Ok? &&
            var (r1, got1) := RecvIK(r0, m1.value);
            var (r2, m2) := SendIK(r1, payload2, rr);
            got1 == Ok(payload1) && m2.Ok? &&
            var (i2, got2) := RecvIK(i1, m2.value);
            got2 == Ok(payload2) && i2.s == si && r2.s == sr && Agree(i2, r2) && Lockstep(i2, r2)
  {
    var i0, r0 := NewInitiator(si, PublicKey(sr), prologue, presetI), NewResponder(sr, prologue, presetR);
    assert Lockstep(i0, r0);
    IKFirst(i0, r0, payload1, ri);
    hide SendIK, RecvIK, Lockstep, MixHash;
    var (i1, m1) := SendIK(i0, payload1, ri);
    var (r1, got1) := RecvIK(r0, m1.value);
    IKSecond(i1, r1, payload2, rr);
  }

  // ---------------------------------------------------------------- no reuse of a key and nonce

  /** How often a code has been keyed with an earlier one. */
  ghost function Depth(s: Str): nat {
    if s != [] && s[0].Of? then TermDepth(s[0].term) else 0
  }

  ghost function TermDepth(t: Term): nat {
    match t
    case Mac(key, _) => 1 + if key != [] && key[0].Of? then TermDepth(key[0].term) else 0
    case _ => 0
  }

  ghost predicate Distinct(us: seq<Use>) {
    forall m, n :: 0 <= m < n < |us| ==> us[m].key != us[n].key || us[m].nonce != us[n].nonce
  }

  /** Uses of earlier keys lie less deep than the current one; uses of the current key are
      below its nonce. */
  ghost predicate UseOk(s: Symmetric, u: Use) {
    && Depth(u.key) <= Depth(s.chainingKey)
    && (Depth(u.key) == Depth(s.chainingKey) ==> s.cipher.key == Some(u.key) && u.nonce < s.cipher.nonce)
  }

  ghost predicate SymOk(s: Symmetric) {
    && (s.cipher.key.Some? ==> Depth(s.cipher.key.value) == Depth(s.chainingKey))
    && (s.cipher.key.None? ==> s.uses == [])
    && (forall n :: 0 <= n < |s.uses| ==> UseOk(s, s.uses[n]))
    && Distinct(s.uses)
  }

  lemma MixHashOk(s: Symmetric, data: Str)
    requires SymOk(s)
    ensures SymOk(MixHash(s, data))
  {
    forall n | 0 <= n < |s.uses|
      ensures UseOk(MixHash(s, data), s.uses[n])
    {
      assert UseOk(s, s.uses[n]);
    }
  }

  lemma KeyDepths(ck: Str, input: Str)
    ensures Depth(Hkdf(ck, input).0) == Depth(ck) + 2 == Depth(Hkdf(ck, input).1[..32])
  {
    var temp := Bytes(Mac(ck, input));
    assert Depth(temp) == Depth(ck) + 1;
    var first := Hkdf(ck, input).0;
    assert first[0] == Of(Mac(temp, [Literal(1)]), 0);
    var key := Hkdf(ck, input).1[..32];
    assert key[0] == Of(Mac(temp, first + [Literal(2)]), 0);
  }

  lemma MixKeyOk(s: Symmetric, dh: Str)
    requires SymOk(s)
    ensures SymOk(MixKey(s, dh)) && MixKey(s, dh).cipher.key.Some?
  {
    KeyDepths(s.chainingKey, dh);
    hide Hkdf, Depth;
    forall n | 0 <= n < |s.uses|
      ensures UseOk(MixKey(s, dh), s.uses[n])
    {
      assert UseOk(s, s.uses[n]);
    }
  }

  /** Advancing the nonce after recording the use. */
  lemma UsedOk(s: Symmetric, sealing: bool)
    requires SymOk(s)
    ensures var c := if s.cipher.key.Some? then s.cipher.(nonce := s.cipher.nonce + 1) else s.cipher;
            SymOk(s.(cipher := c, uses := s.uses + UseOf(s.cipher, sealing)))
  {
    hide Depth;
    var c := if s.cipher.key.Some? then s.cipher.(nonce := s.cipher.nonce + 1) else s.cipher;
    var t := s.(cipher := c, uses := s.uses + UseOf(s.cipher, sealing));
    if s.cipher.key.Some? {
      var u := Use(s.cipher.key.value, s.cipher.nonce, sealing);
      assert t.uses == s.uses + [u];
      forall n | 0 <= n < |t.uses|
        ensures UseOk(t, t.uses[n])
      {
        assert n < |s.uses| ==> UseOk(s, s.uses[n]);
      }
      forall n | 0 <= n < |s.uses|
        ensures s.uses[n].key != u.key || s.uses[n].nonce != u.nonce
      {
        assert UseOk(s, s.uses[n]);
      }
    } else {
      assert t == s;
    }
  }

  lemma EncryptOk(s: Symmetric, text: Str)
    requires SymOk(s)
    ensures SymOk(EncryptAndHash(s, text).0)
  {
    hide SymOk, MixHash;
    UsedOk(s, true);
    var (cipher, sealed) := Encrypt(s.cipher, text, s.digest);
    MixHashOk(s.(cipher := cipher, uses := s.uses + UseOf(s.cipher, true)), sealed);
  }

  lemma DecryptOk(s: Symmetric, sealed: Str)
    requires SymOk(s)
    ensures SymOk(DecryptAndHash(s, sealed).0)
  {
    hide SymOk, MixHash;
    var (cipher, r) := Decrypt(s.cipher, sealed, s.digest);
    if r.Ok? {
      UsedOk(s, false);
      MixHashOk(s.(cipher := cipher, uses := s.uses + UseOf(s.cipher, false)), sealed);
    }
  }

  lemma SealStaticOk(s: Symmetric, own: nat, dh: Option<Str>, payload: Str)
    requires SymOk(s)
    ensures SymOk(SealStatic(s, own, dh, payload).0)
  {
    hide SymOk, EncryptAndHash, MixKey;
    EncryptOk(s, PublicKey(own));
    var s1 := EncryptAndHash(s, PublicKey(own)).0;
    if dh.Some? {
      MixKeyOk(s1, dh.value);
      EncryptOk(MixKey(s1, dh.value), payload);
    }
  }

  lemma OpenStaticOk(s: Symmetric, secret: nat, m: Str)
    requires SymOk(s) && |m| >= 48
    ensures SymOk(OpenStatic(s, secret, m).0)
  {
    hide SymOk, DecryptAndHash, MixKey, Dh;
    DecryptOk(s, m[..48]);
    var (s1, rs) := DecryptAndHash(s, m[..48]);
    if rs.Ok? && Dh(secret, rs.value).Some? {
      MixKeyOk(s1, Dh(secret, rs.value).value);
      DecryptOk(MixKey(s1, Dh(secret, rs.value).value), m[48..]);
    }
  }

  lemma SendXXOk(h: Handshake, random: nat)
    requires SymOk(h.sym)
    ensures SymOk(SendXX(h, random).0.sym)
  {
    hide SymOk, EncryptAndHash, MixKey, MixHash, SealStatic, Dh;
    var e := Ephemeral(h, random);
    var s1 := MixHash(h.sym, PublicKey(e));
    MixHashOk(h.sym, PublicKey(e));
    EncryptOk(s1, []);
    if h.re.Some? {
      SealStaticOk(h.sym, h.s, Dh(h.s, h.re.value), []);
      if Dh(e, h.re.value).Some? {
        MixKeyOk(s1, Dh(e, h.re.value).value);
        SealStaticOk(MixKey(s1, Dh(e, h.re.value).value), h.s, Dh(h.s, h.re.value), []);
      }
    }
  }

  lemma RecvXXOk(h: Handshake, m: Str)
    requires SymOk(h.sym)
    ensures SymOk(RecvXX(h, m).0.sym)
  {
    hide SymOk, DecryptAndHash, MixKey, MixHash, OpenStatic, Dh;
    if |m| >= 32 {
      var s1 := MixHash(h.sym, m[..32]);
      MixHashOk(h.sym, m[..32]);
      DecryptOk(s1, m[32..]);
      if |m| >= 64 && h.e.Some? {
        OpenStaticOk(h.sym, h.e.value, m);
        if |m| >= 96 && Dh(h.e.value, m[..32]).Some? {
          MixKeyOk(s1, Dh(h.e.value, m[..32]).value);
          OpenStaticOk(MixKey(s1, Dh(h.e.value, m[..32]).value), h.e.value, m[32..]);
        }
      }
    }
  }

  lemma SendIKOk(h: Handshake, payload: Str, random: nat)
    requires SymOk(h.sym)
    ensures SymOk(SendIK(h, payload, random).0.sym)
  {
    hide SymOk, EncryptAndHash, MixKey, MixHash, SealStatic, Dh, Complete;
    var e := Ephemeral(h, random);
    var s1 := MixHash(h.sym, PublicKey(e));
    MixHashOk(h.sym, PublicKey(e));
    if h.rs.Some? {
      if Dh(e, h.rs.value).Some? {
        MixKeyOk(s1, Dh(e, h.rs.value).value);
        SealStaticOk(MixKey(s1, Dh(e, h.rs.value).value), h.s, Dh(h.s, h.rs.value), payload);
      }
      if h.re.Some? && Dh(e, h.re.value).Some? {
        var s2 := MixKey(s1, Dh(e, h.re.value).value);
        MixKeyOk(s1, Dh(e, h.re.value).value);
        if Dh(e, h.rs.value).Some? {
          MixKeyOk(s2, Dh(e, h.rs.value).value);
          EncryptOk(MixKey(s2, Dh(e, h.rs.value).value), payload);
        }
      }
    }
  }

  lemma RecvIKOk(h: Handshake, m: Str)
    requires SymOk(h.sym)
    ensures SymOk(RecvIK(h, m).0.sym)
  {
    hide SymOk, DecryptAndHash, MixKey, MixHash, OpenStatic, Dh, Complete;
    if |m| >= 48 {
      var s1 := MixHash(h.sym, m[..32]);
      MixHashOk(h.sym, m[..32]);
      if |m| >= 96 && Dh(h.s, m[..32]).Some? {
        MixKeyOk(s1, Dh(h.s, m[..32]).value);
        OpenStaticOk(MixKey(s1, Dh(h.s, m[..32]).value), h.s, m[32..]);
      }
      if h.e.Some? && Dh(h.e.value, m[..32]).Some? {
        var s2 := MixKey(s1, Dh(h.e.value, m[..32]).value);
        MixKeyOk(s1, Dh(h.e.value, m[..32]).value);
        if Dh(h.s, m[..32]).Some? {
          MixKeyOk(s2, Dh(h.s, m[..32]).value);
          DecryptOk(MixKey(s2, Dh(h.s, m[..32]).value), m[32..]);
        }
      }
    }
  }

  datatype Call = DoSend(payload: Str, random: nat) | DoRecv(message: Str)

  /** Any calls at all, in any order, with any received bytes, failing or not. */
  ghost function RunXX(h: Handshake, calls: seq<Call>): Handshake
    decreases |calls|
  {
    if calls == [] then h
    else
      match calls[0]
      case DoSend(_, random) => RunXX(SendXX(h, random).0, calls[1..])
      case DoRecv(m) => RunXX(RecvXX(h, m).0, calls[1..])
  }

  ghost function RunIK(h: Handshake, calls: seq<Call>): Handshake
    decreases |calls|
  {
    if calls == [] then h
    else
      match calls[0]
      case DoSend(payload, random) => RunIK(SendIK(h, payload, random).0, calls[1..])
      case DoRecv(m) => RunIK(RecvIK(h, m).0, calls[1..])
  }

  lemma {:induction false} RunXXOk(h: Handshake, calls: seq<Call>)
    requires SymOk(h.sym)
    ensures SymOk(RunXX(h, calls).sym)
    decreases |calls|
  {
    hide SymOk, SendXX, RecvXX;
    if calls != [] {
      match calls[0]
      case DoSend(_, random) =>
        SendXXOk(h, random);
        RunXXOk(SendXX(h, random).0, calls[1..]);
      case DoRecv(m) =>
        RecvXXOk(h, m);
        RunXXOk(RecvXX(h, m).0, calls[1..]);
    }
  }

  lemma {:induction false} RunIKOk(h: Handshake, calls: seq<Call>)
    requires SymOk(h.sym)
    ensures SymOk(RunIK(h, calls).sym)
    decreases |calls|
  {
    hide SymOk, SendIK, RecvIK;
    if calls != [] {
      match calls[0]
      case DoSend(payload, random) =>
        SendIKOk(h, payload, random);
        RunIKOk(SendIK(h, payload, random).0, calls[1..]);
      case DoRecv(m) =>
        RecvIKOk(h, m);
        RunIKOk(RecvIK(h, m).0, calls[1..]);
    }
  }

  /** No key and nonce are used twice, in any run of either pattern on either side, whatever
      arrives. */
  lemma NoReuse(isInitiator: bool, s: nat, remote: Str, prologue: Str, preset: Option<nat>, calls: seq<Call>)
    ensures Distinct(RunXX(NewXX(isInitiator, s, preset), calls).sym.uses)
    ensures Distinct(RunIK(NewInitiator(s, remote, prologue, preset), calls).sym.uses)
    ensures Distinct(RunIK(NewResponder(s, prologue, preset), calls).sym.uses)
  {
    hide RunXX, RunIK, MixHash, NewSymmetric, UseOk;
    NewOk(XX_NAME, [], []);
    NewOk(IK_NAME, prologue, remote);
    NewOk(IK_NAME, prologue, PublicKey(s));
    RunXXOk(NewXX(isInitiator, s, preset), calls);
    RunIKOk(NewInitiator(s, remote, prologue, preset), calls);
    RunIKOk(NewResponder(s, prologue, preset), calls);
  }

  lemma NewOk(name: string, a: Str, b: Str)
    ensures SymOk(MixHash(NewSymmetric(name), a)) && SymOk(MixHash(MixHash(NewSymmetric(name), a), b))
  {
    hide Depth, Padded;
  }

  lemma {:induction false} FlipAt(us: seq<Use>, n: nat)
    requires n < |us|
    ensures |Flip(us)| == |us| && Flip(us)[n] == us[n].(sealing := !us[n].sealing)
  {
    if n < |us| - 1 {
      FlipAt(us[..|us| - 1], n);
    } else if n > 0 {
      FlipAt(us[..|us| - 1], n - 1);
    }
  }

  /** Nor do the two sides of a handshake in lockstep ever seal with the same key and nonce. */
  lemma NoJointReuse(i: Handshake, r: Handshake, m: nat, n: nat)
    requires Lockstep(i, r) && Distinct(i.sym.uses) && m < |i.sym.uses| && n < |r.sym.uses|
    requires i.sym.uses[m].sealing && r.sym.uses[n].sealing
    ensures i.sym.uses[m].key != r.sym.uses[n].key || i.sym.uses[m].nonce != r.sym.uses[n].nonce
  {
    FlipLength(i.sym.uses);
    FlipAt(i.sym.uses, n);
  }

  lemma {:induction false} FlipLength(us: seq<Use>)
    ensures |Flip(us)| == |us|
  {
    if us != [] {
      FlipLength(us[..|us| - 1]);
    }
  }

  /** Neither party uses a key and nonce twice, and no two of their encryptions share them. */
  ghost predicate NothingReused(i: Handshake, r: Handshake) {
    && Distinct(i.sym.uses) && Distinct(r.sym.uses)
    && forall m, n :: && 0 <= m < |i.sym.uses| && 0 <= n < |r.sym.uses|
                      && i.sym.uses[m].sealing && r.sym.uses[n].sealing ==>
         i.sym.uses[m].key != r.sym.uses[n].key || i.sym.uses[m].nonce != r.sym.uses[n].nonce
  }

  lemma LockstepReusesNothing(i: Handshake, r: Handshake)
    requires SymOk(i.sym) && SymOk(r.sym) && Lockstep(i, r)
    ensures NothingReused(i, r)
  {
    hide Lockstep;
    forall m, n | 0 <= m < |i.sym.uses| && 0 <= n < |r.sym.uses| && i.sym.uses[m].sealing && r.sym.uses[n].sealing
      ensures i.sym.uses[m].key != r.sym.uses[n].key || i.sym.uses[m].nonce != r.sym.uses[n].nonce
    {
      NoJointReuse(i, r, m, n);
    }
  }

  /** An honest XX run, for all secrets: over the whole handshake nothing is reused. */
  lemma XXReusesNothing(si: nat, sr: nat, presetI: Option<nat>, presetR: Option<nat>, ri: nat, rr: nat)
    ensures var i0, r0 := NewXX(true, si, presetI), NewXX(false, sr, presetR);
            var (i1, m1) := SendXX(i0, ri);
            m1.Ok? &&
            var (r2, m2) := SendXX(RecvXX(r0, m1.value).0, rr);
            m2.Ok? &&
            var (i3, m3) := SendXX(RecvXX(i1, m2.value).0, ri);
            m3.Ok? && NothingReused(i3, RecvXX(r2, m3.value).0)
  {
    var i0, r0 := NewXX(true, si, presetI), NewXX(false, sr, presetR);
    NewOk(XX_NAME, [], []);
    assert SymOk(i0.sym) && SymOk(r0.sym);
    XXAgreement(si, sr, presetI, presetR, ri, rr);
    hide SymOk, SendXX, RecvXX, Lockstep, Agree, NothingReused;
    var (i1, m1) := SendXX(i0, ri);
    var r1 := RecvXX(r0, m1.value).0;
    var (r2, m2) := SendXX(r1, rr);
    var i2 := RecvXX(i1, m2.value).0;
    var (i3, m3) := SendXX(i2, ri);
    SendXXOk(i0, ri);
    RecvXXOk(r0, m1.value);
    SendXXOk(r1, rr);
    RecvXXOk(i1, m2.value);
    SendXXOk(i2, ri);
    RecvXXOk(r2, m3.value);
    LockstepReusesNothing(i3, RecvXX(r2, m3.value).0);
  }

  /** An honest IK run, for all secrets, prologues and payloads, likewise. */
  lemma IKReusesNothing(si: nat, sr: nat, prologue: Str, presetI: Option<nat>, presetR: Option<nat>, ri: nat, rr: nat,
                        payload1: Str, payload2: Str)
    ensures var i0, r0 := NewInitiator(si, PublicKey(sr), prologue, presetI), NewResponder(sr, prologue, presetR);
            var (i1, m1) := SendIK(i0, payload1, ri);
            m1.Ok? &&
            var (r2, m2) := SendIK(RecvIK(r0, m1.value).0, payload2, rr);
            m2.Ok? && NothingReused(RecvIK(i1, m2.value).0, r2)
  {
    var i0, r0 := NewInitiator(si, PublicKey(sr), prologue, presetI), NewResponder(sr, prologue, presetR);
    NewOk(IK_NAME, prologue, PublicKey(sr));
    assert SymOk(i0.sym) && SymOk(r0.sym);
    IKAgreement(si, sr, prologue, presetI, presetR, ri, rr, payload1, payload2);
    hide SymOk, SendIK, RecvIK, Lockstep, Agree, NothingReused;
    var (i1, m1) := SendIK(i0, payload1, ri);
    var r1 := RecvIK(r0, m1.value).0;
    var (r2, m2) := SendIK(r1, payload2, rr);
    SendIKOk(i0, payload1, ri);
    RecvIKOk(r0, m1.value);
    SendIKOk(r1, payload2, rr);
    RecvIKOk(i1, m2.value);
    LockstepReusesNothing(RecvIK(i1, m2.value).0, r2);
  }

  // ---------------------------------------------------------------- the handshake hash

  /** The digest that mixing in `ms` gives. */
  ghost function Chain(start: Str, ms: seq<Str>): (h: Str)
    requires |start| == 64
    ensures |h| == 64
  {
    if ms == [] then start else Bytes(Digest(Chain(start, ms[..|ms| - 1]) + ms[|ms| - 1]))
  }

  /** Equal digests mean that the same strings were mixed in, in the same order. */
  lemma {:induction false} ChainInjective(start: Str, a: seq<Str>, b: seq<Str>)
    requires |start| == 64 && start[0].Literal? && Chain(start, a) == Chain(start, b)
    ensures a == b
    decreases |a|
  {
    assert a != [] ==> Chain(start, a)[0].Of?;
    assert b != [] ==> Chain(start, b)[0].Of?;
    assert a == [] <==> b == [];
    if a != [] {
      var x, y := a[|a| - 1], b[|b| - 1];
      var p, q := Chain(start, a[..|a| - 1]), Chain(start, b[..|b| - 1]);
      assert Chain(start, a)[0] == Of(Digest(p + x), 0) && Chain(start, b)[0] == Of(Digest(q + y), 0);
      assert p == (p + x)[..64] && q == (q + y)[..64] && x == (p + x)[64..] && y == (q + y)[64..];
      ChainInjective(start, a[..|a| - 1], b[..|b| - 1]);
      assert a == a[..|a| - 1] + [x] && b == b[..|b| - 1] + [y];
    }
  }

  ghost predicate HashOk(start: Str, s: Symmetric)
    requires |start| == 64
  {
    s.digest == Chain(start, s.mixed)
  }

  lemma MixHashChain(start: Str, s: Symmetric, data: Str)
    requires |start| == 64 && HashOk(start, s)
    ensures HashOk(start, MixHash(s, data)) && MixHash(s, data).mixed == s.mixed + [data]
  {
    assert (s.mixed + [data])[..|s.mixed|] == s.mixed;
  }

  /** What sealing, or opening, adds to the transcript. */
  lemma SealChain(start: Str, s: Symmetric, text: Str)
    requires |start| == 64 && HashOk(start, s)
    ensures var (t, sealed) := EncryptAndHash(s, text);
            HashOk(start, t) && t.mixed == s.mixed + [sealed]
  {
    var (cipher, sealed) := Encrypt(s.cipher, text, s.digest);
    MixHashChain(start, s.(cipher := cipher, uses := s.uses + UseOf(s.cipher, true)), sealed);
  }

  lemma OpenChain(start: Str, s: Symmetric, sealed: Str)
    requires |start| == 64 && HashOk(start, s)
    ensures var (t, r) := DecryptAndHash(s, sealed);
            HashOk(start, t) && (r.Ok? ==> t.mixed == s.mixed + [sealed])
  {
    var (cipher, r) := Decrypt(s.cipher, sealed, s.digest);
    MixHashChain(start, s.(cipher := cipher, uses := s.uses + UseOf(s.cipher, false)), sealed);
  }

  lemma SealStaticChain(start: Str, s: Symmetric, own: nat, d: Str, payload: Str)
    requires |start| == 64 && HashOk(start, s) && s.cipher.key.Some?
    ensures var (t, m) := SealStatic(s, own, Some(d), payload);
            && m.Ok? && |m.value| >= 48 && HashOk(start, t)
            && t.mixed == s.mixed + [m.value[..48], m.value[48..]]
  {
    var (s1, encS) := EncryptAndHash(s, PublicKey(own));
    SealChain(start, s, PublicKey(own));
    Sizes(s, PublicKey(own));
    var s2 := MixKey(s1, d);
    SealChain(start, s2, payload);
    var (s3, enc) := EncryptAndHash(s2, payload);
    hide EncryptAndHash;
    assert (encS + enc)[..48] == encS && (encS + enc)[48..] == enc;
    assert s.mixed + [encS] + [enc] == s.mixed + [encS, enc];
  }

  lemma OpenStaticChain(start: Str, s: Symmetric, secret: nat, m: Str)
    requires |start| == 64 && HashOk(start, s) && |m| >= 48
    ensures var (t, rs, r) := OpenStatic(s, secret, m);
            HashOk(start, t) && (r.Ok? ==> rs.Some? && t.mixed == s.mixed + [m[..48], m[48..]])
  {
    OpenChain(start, s, m[..48]);
    var (s1, rs) := DecryptAndHash(s, m[..48]);
    if rs.Ok? && Dh(secret, rs.value).Some? {
      var s2 := MixKey(s1, Dh(secret, rs.value).value);
      OpenChain(start, s2, m[48..]);
      hide DecryptAndHash, Dh;
      assert s.mixed + [m[..48]] + [m[48..]] == s.mixed + [m[..48], m[48..]];
    }
  }

  // ---------------------------------------------------------------- binding

  /** The strings that each message of XX adds to the transcript, on both sides. */
  ghost function Parts1(m: Str): seq<Str>
    requires |m| >= 32
  {
    [m[..32], m[32..]]
  }

  ghost function Parts2(m: Str): seq<Str>
    requires |m| >= 80
  {
    [m[..32], m[32..][..48], m[32..][48..]]
  }

  ghost function Parts3(m: Str): seq<Str>
    requires |m| >= 48
  {
    [m[..48], m[48..]]
  }

  lemma PartsDetermine(m: Str, m': Str)
    ensures |m| >= 32 && |m'| >= 32 && Parts1(m) == Parts1(m') ==> m == m'
    ensures |m| >= 80 && |m'| >= 80 && Parts2(m) == Parts2(m') ==> m == m'
    ensures |m| >= 48 && |m'| >= 48 && Parts3(m) == Parts3(m') ==> m == m'
  {
    assert |m| >= 32 ==> m == m[..32] + m[32..];
    assert |m'| >= 32 ==> m' == m'[..32] + m'[32..];
    assert |m| >= 48 ==> m == m[..48] + m[48..];
    assert |m'| >= 48 ==> m' == m'[..48] + m'[48..];
    assert |m| >= 80 ==> m[32..] == m[32..][..48] + m[32..][48..];
    assert |m'| >= 80 ==> m'[32..] == m'[32..][..48] + m'[32..][48..];
    assert |m| >= 32 && |m'| >= 32 && Parts1(m) == Parts1(m') ==>
      Parts1(m)[0] == Parts1(m')[0] && Parts1(m)[1] == Parts1(m')[1];
    assert |m| >= 80 && |m'| >= 80 && Parts2(m) == Parts2(m') ==>
      Parts2(m)[0] == Parts2(m')[0] && Parts2(m)[1] == Parts2(m')[1] && Parts2(m)[2] == Parts2(m')[2];
    assert |m| >= 48 && |m'| >= 48 && Parts3(m) == Parts3(m') ==>
      Parts3(m)[0] == Parts3(m')[0] && Parts3(m)[1] == Parts3(m')[1];
  }

  lemma SendEChain(start: Str, h: Handshake, random: nat)
    requires |start| == 64 && HashOk(start, h.sym)
    ensures var (h', m) := SendE(h, random);
            m.Ok? && |m.value| >= 32 && HashOk(start, h'.sym) &&
              (h.sym.cipher.key.None? ==> h'.sym.mixed == h.sym.mixed + Parts1(m.value))
  {
    var e := Ephemeral(h, random);
    var s1 := MixHash(h.sym, PublicKey(e));
    MixHashChain(start, h.sym, PublicKey(e));
    SealChain(start, s1, []);
    var sealed := EncryptAndHash(s1, []).1;
    var m := PublicKey(e) + sealed;
    assert m[..32] == PublicKey(e) && m[32..] == sealed;
    assert h.sym.mixed + [PublicKey(e)] + [sealed] == h.sym.mixed + [PublicKey(e), sealed];
  }

  lemma RecvEChain(start: Str, h: Handshake, m: Str)
    requires |start| == 64 && HashOk(start, h.sym)
    ensures var (h', r) := RecvE(h, m);
            r.Ok? ==> |m| >= 32 && HashOk(start, h'.sym) && h'.sym.mixed == h.sym.mixed + Parts1(m)
  {
    hide DecryptAndHash, HashOk, MixHash;
    if |m| >= 32 {
      MixHashChain(start, h.sym, m[..32]);
      var s1 := MixHash(h.sym, m[..32]);
      OpenChain(start, s1, m[32..]);
      var (s2, payload) := DecryptAndHash(s1, m[32..]);
      assert payload.Ok? ==> s2.mixed == h.sym.mixed + [m[..32]] + [m[32..]];
      assert h.sym.mixed + [m[..32]] + [m[32..]] == h.sym.mixed + Parts1(m);
    }
  }

  lemma SendEeSEsChain(start: Str, h: Handshake, random: nat)
    requires |start| == 64 && HashOk(start, h.sym)
    ensures var (h', m) := SendEeSEs(h, random);
            m.Ok? ==> |m.value| >= 80 && HashOk(start, h'.sym) && h'.sym.mixed == h.sym.mixed + Parts2(m.value)
  {
    var e := Ephemeral(h, random);
    if h.re.Some? && Dh(e, h.re.value).Some? && Dh(h.s, h.re.value).Some? {
      var s1 := MixHash(h.sym, PublicKey(e));
      MixHashChain(start, h.sym, PublicKey(e));
      var s2 := MixKey(s1, Dh(e, h.re.value).value);
      SealStaticChain(start, s2, h.s, Dh(h.s, h.re.value).value, []);
      hide SealStatic, Dh;
      var rest := SealStatic(s2, h.s, Dh(h.s, h.re.value), []).1.value;
      var m := PublicKey(e) + rest;
      assert m[..32] == PublicKey(e) && m[32..] == rest;
      assert h.sym.mixed + [PublicKey(e)] + [rest[..48], rest[48..]] == h.sym.mixed + Parts2(m);
    }
  }

  lemma RecvEeSEsChain(start: Str, h: Handshake, m: Str)
    requires |start| == 64 && HashOk(start, h.sym)
    ensures var (h', r) := RecvEeSEs(h, m);
            r.Ok? ==> |m| >= 80 && HashOk(start, h'.sym) && h'.sym.mixed == h.sym.mixed + Parts2(m)
  {
    hide OpenStatic, Dh, MixHash, HashOk, MixKey;
    if |m| >= 96 && h.e.Some? && Dh(h.e.value, m[..32]).Some? {
      var s1 := MixHash(h.sym, m[..32]);
      MixHashChain(start, h.sym, m[..32]);
      var s2 := MixKey(s1, Dh(h.e.value, m[..32]).value);
      MixKeyChain(start, s1, Dh(h.e.value, m[..32]).value);
      OpenStaticChain(start, s2, h.e.value, m[32..]);
      var (s3, rs, payload) := OpenStatic(s2, h.e.value, m[32..]);
      assert payload.Ok? ==> s3.mixed == h.sym.mixed + [m[..32]] + [m[32..][..48], m[32..][48..]];
      assert h.sym.mixed + [m[..32]] + [m[32..][..48], m[32..][48..]] == h.sym.mixed + Parts2(m);
    }
  }

  lemma MixKeyChain(start: Str, s: Symmetric, d: Str)
    requires |start| == 64 && HashOk(start, s)
    ensures HashOk(start, MixKey(s, d)) && MixKey(s, d).mixed == s.mixed
  {
  }

  lemma SendSSeChain(start: Str, h: Handshake)
    requires |start| == 64 && HashOk(start, h.sym) && h.sym.cipher.key.Some?
    ensures var (h', m) := SendSSe(h);
            m.Ok? ==> && |m.value| >= 48 && HashOk(start, h'.sym) && h'.sym.mixed == h.sym.mixed + Parts3(m.value)
                      && h'.result.Some? && h'.result.value.hash == h'.sym.digest
  {
    if h.re.Some? && Dh(h.s, h.re.value).Some? {
      SealStaticChain(start, h.sym, h.s, Dh(h.s, h.re.value).value, []);
      hide SealStatic, Dh;
    }
  }

  lemma RecvSSeChain(start: Str, h: Handshake, m: Str)
    requires |start| == 64 && HashOk(start, h.sym)
    ensures var (h', r) := RecvSSe(h, m);
            r.Ok? ==> && |m| >= 48 && HashOk(start, h'.sym) && h'.sym.mixed == h.sym.mixed + Parts3(m)
                      && h'.result.Some? && h'.result.value.hash == h'.sym.digest
  {
    if |m| >= 64 && h.e.Some? {
      OpenStaticChain(start, h.sym, h.e.value, m);
      hide OpenStatic;
    }
  }

  /** The initiator's three calls, receiving `m2`. */
  ghost function Initiated(s: nat, preset: Option<nat>, random: nat, m2: Str)
    : (Handshake, Outcome<Str>, Outcome<Str>, Outcome<Str>)
  {
    var (h1, m1) := SendXX(NewXX(true, s, preset), random);
    var (h2, got) := RecvXX(h1, m2);
    var (h3, m3) := SendXX(h2, random);
    (h3, m1, got, m3)
  }

  /** The responder's three calls, receiving `m1` and `m3`. */
  ghost function Responded(s: nat, preset: Option<nat>, random: nat, m1: Str, m3: Str)
    : (Handshake, Outcome<Str>, Outcome<Str>, Outcome<Str>)
  {
    var (h1, got1) := RecvXX(NewXX(false, s, preset), m1);
    var (h2, m2) := SendXX(h1, random);
    var (h3, got3) := RecvXX(h2, m3);
    (h3, got1, m2, got3)
  }

  ghost function PaddedName(name: string): (h: Str)
    requires 0 < |name| <= 64
    ensures |h| == 64 && h[0].Literal?
  {
    AllLiteral(name);
    Padded(Text(name))
  }

  ghost function Start(): (h: Str)
    ensures |h| == 64 && h[0].Literal?
  {
    PaddedName(XX_NAME)
  }

  lemma {:induction false} AllLiteral(name: string)
    ensures |Text(name)| == |name| && forall i :: 0 <= i < |name| ==> Text(name)[i].Literal?
  {
    if name != "" {
      AllLiteral(name[1..]);
    }
  }

  lemma InitiatedMixes(s: nat, preset: Option<nat>, random: nat, m2: Str)
    ensures var (h, m1, got, m3) := Initiated(s, preset, random, m2);
            m1.Ok? && got.Ok? && m3.Ok? ==>
              && |m1.value| >= 32 && |m2| >= 80 && |m3.value| >= 48 && HashOk(Start(), h.sym)
              && h.sym.mixed == [[]] + Parts1(m1.value) + Parts2(m2) + Parts3(m3.value)
              && h.result.Some? && h.result.value.hash == h.sym.digest
  {
    hide HashOk, Start, SendE, RecvEeSEs, SendSSe, NewSymmetric, MixHash, Parts1, Parts2, Parts3;
    var h0 := NewXX(true, s, preset);
    StartHash(true, s, preset);
    SendEChain(Start(), h0, random);
    var (h1, m1) := SendE(h0, random);
    SentE(h0, random);
    assert SendXX(h0, random) == (h1, m1);
    RecvEeSEsChain(Start(), h1, m2);
    ReceivedKey(h1, m2);
    var (h2, got) := RecvEeSEs(h1, m2);
    assert RecvXX(h1, m2) == (h2, got);
    if got.Ok? {
      SendSSeChain(Start(), h2);
      assert SendXX(h2, random) == SendSSe(h2);
    }
  }

  lemma StartHash(isInitiator: bool, s: nat, preset: Option<nat>)
    ensures var h := NewXX(isInitiator, s, preset);
            HashOk(Start(), h.sym) && h.sym.mixed == [[]] && h.sym.cipher.key.None?
  {
    AllLiteral(XX_NAME);
    MixHashChain(Start(), NewSymmetric(XX_NAME), []);
  }

  lemma SentE(h: Handshake, random: nat)
    ensures var h' := SendE(h, random).0;
            h'.isInitiator == h.isInitiator && h'.step == 1 && h'.result == h.result
  {
  }

  lemma ReceivedKey(h: Handshake, m: Str)
    ensures var (h', r) := RecvEeSEs(h, m);
            r.Ok? ==>
              h'.sym.cipher.key.Some? && h'.isInitiator == h.isInitiator && h'.step == 2 && h'.result == h.result
  {
  }

  lemma RespondedMixes(s: nat, preset: Option<nat>, random: nat, m1: Str, m3: Str)
    ensures var (h, got1, m2, got3) := Responded(s, preset, random, m1, m3);
            got1.Ok? && m2.Ok? && got3.Ok? ==>
              && |m1| >= 32 && |m2.value| >= 80 && |m3| >= 48 && HashOk(Start(), h.sym)
              && h.sym.mixed == [[]] + Parts1(m1) + Parts2(m2.value) + Parts3(m3)
              && h.result.Some? && h.result.value.hash == h.sym.digest
  {
    hide HashOk, Start, RecvE, SendEeSEs, RecvSSe, NewSymmetric, MixHash, Parts1, Parts2, Parts3;
    var h0 := NewXX(false, s, preset);
    StartHash(false, s, preset);
    RecvEChain(Start(), h0, m1);
    ReceivedE(h0, m1);
    var (h1, got1) := RecvE(h0, m1);
    assert RecvXX(h0, m1) == (h1, got1);
    if got1.Ok? {
      SendEeSEsChain(Start(), h1, random);
      SentEeSEs(h1, random);
      var (h2, m2) := SendEeSEs(h1, random);
      assert SendXX(h1, random) == (h2, m2);
      if m2.Ok? {
        RecvSSeChain(Start(), h2, m3);
        assert RecvXX(h2, m3) == RecvSSe(h2, m3);
      }
    }
  }

  lemma ReceivedE(h: Handshake, m: Str)
    ensures var (h', r) := RecvE(h, m);
            r.Ok? ==> h'.isInitiator == h.isInitiator && h'.step == 1 && h'.result == h.result
  {
  }

  lemma SentEeSEs(h: Handshake, random: nat)
    ensures var (h', m) := SendEeSEs(h, random);
            m.Ok? ==> h'.isInitiator == h.isInitiator && h'.step == 2 && h'.result == h.result
  {
  }

  ghost predicate SameHash(i: Handshake, r: Handshake) {
    i.result.Some? && r.result.Some? && i.result.value.hash == r.result.value.hash
  }

  /** Whatever the network delivers: if both sides complete XX with the same handshake hash,
      then every message arrived as it was sent, and the two sides agree. */
  lemma XXBinding(si: nat, sr: nat, presetI: Option<nat>, presetR: Option<nat>, ri: nat, rr: nat, m1: Str, m2: Str,
                  m3: Str)
    ensures var (i, sent1, gotI, sent3) := Initiated(si, presetI, ri, m2);
            var (r, got1, sent2, got3) := Responded(sr, presetR, rr, m1, m3);
            && sent1.Ok? && gotI.Ok? && sent3.Ok? && got1.Ok? && sent2.Ok? && got3.Ok?
            && SameHash(i, r) ==>
              sent1.value == m1 && sent2.value == m2 && sent3.value == m3 && Agree(i, r)
  {
    hide Initiated, Responded, Agree, Start, Parts1, Parts2, Parts3;
    InitiatedMixes(si, presetI, ri, m2);
    RespondedMixes(sr, presetR, rr, m1, m3);
    var (i, sent1, gotI, sent3) := Initiated(si, presetI, ri, m2);
    var (r, got1, sent2, got3) := Responded(sr, presetR, rr, m1, m3);
    if sent1.Ok? && gotI.Ok? && sent3.Ok? && got1.Ok? && sent2.Ok? && got3.Ok? && SameHash(i, r) {
      ChainInjective(Start(), i.sym.mixed, r.sym.mixed);
      SamePieces(sent1.value, m2, sent3.value, m1, sent2.value, m3);
      HonestAgree(si, sr, presetI, presetR, ri, rr, m1, m2, m3);
    }
  }

  /** Agreement once every message is known to be the one that was sent. */
  lemma HonestAgree(si: nat, sr: nat, presetI: Option<nat>, presetR: Option<nat>, ri: nat, rr: nat, m1: Str, m2: Str,
                    m3: Str)
    requires Initiated(si, presetI, ri, m2).1 == Ok(m1) && Initiated(si, presetI, ri, m2).3 == Ok(m3)
    requires Responded(sr, presetR, rr, m1, m3).2 == Ok(m2)
    ensures Agree(Initiated(si, presetI, ri, m2).0, Responded(sr, presetR, rr, m1, m3).0)
  {
    hide SendXX, RecvXX, Agree, Lockstep, NewXX;
    XXAgreement(si, sr, presetI, presetR, ri, rr);
  }

  lemma SamePieces(a1: Str, a2: Str, a3: Str, b1: Str, b2: Str, b3: Str)
    requires |a1| >= 32 && |b1| >= 32 && |a2| >= 80 && |b2| >= 80 && |a3| >= 48 && |b3| >= 48
    requires [[]] + Parts1(a1) + Parts2(a2) + Parts3(a3) == [[]] + Parts1(b1) + Parts2(b2) + Parts3(b3)
    ensures a1 == b1 && a2 == b2 && a3 == b3
  {
    var a := [[]] + Parts1(a1) + Parts2(a2) + Parts3(a3);
    var b := [[]] + Parts1(b1) + Parts2(b2) + Parts3(b3);
    assert Parts1(a1) == a[1..3] && Parts2(a2) == a[3..6] && Parts3(a3) == a[6..8];
    assert Parts1(b1) == b[1..3] && Parts2(b2) == b[3..6] && Parts3(b3) == b[6..8];
    hide Parts1, Parts2, Parts3;
    PartsDetermine(a1, b1);
    PartsDetermine(a2, b2);
    PartsDetermine(a3, b3);
  }

  // ---------------------------------------------------------------- binding in IK

  lemma SendEsSsChain(start: Str, h: Handshake, payload: Str, random: nat)
    requires |start| == 64 && HashOk(start, h.sym)
    ensures var (h', m) := SendEsSs(h, payload, random);
            m.Ok? ==> && |m.value| >= 80 && HashOk(start, h'.sym) && h'.sym.mixed == h.sym.mixed + Parts2(m.value)
                      && h'.isInitiator == h.isInitiator && h'.step == 1 && h'.result == h.result
  {
    var e := Ephemeral(h, random);
    if h.rs.Some? && Dh(e, h.rs.value).Some? && Dh(h.s, h.rs.value).Some? {
      var s1 := MixHash(h.sym, PublicKey(e));
      MixHashChain(start, h.sym, PublicKey(e));
      var s2 := MixKey(s1, Dh(e, h.rs.value).value);
      SealStaticChain(start, s2, h.s, Dh(h.s, h.rs.value).value, payload);
      hide SealStatic, Dh;
      var rest := SealStatic(s2, h.s, Dh(h.s, h.rs.value), payload).1.value;
      var m := PublicKey(e) + rest;
      assert m[..32] == PublicKey(e) && m[32..] == rest;
      assert h.sym.mixed + [PublicKey(e)] + [rest[..48], rest[48..]] == h.sym.mixed + Parts2(m);
    }
  }

  lemma RecvEsSsChain(start: Str, h: Handshake, m: Str)
    requires |start| == 64 && HashOk(start, h.sym)
    ensures var (h', r) := RecvEsSs(h, m);
            r.Ok? ==> && |m| >= 80 && HashOk(start, h'.sym) && h'.sym.mixed == h.sym.mixed + Parts2(m)
                      && h'.isInitiator == h.isInitiator && h'.step == 1 && h'.result == h.result
  {
    hide OpenStatic, Dh, MixHash, HashOk, MixKey;
    if |m| >= 96 && Dh(h.s, m[..32]).Some? {
      var s1 := MixHash(h.sym, m[..32]);
      MixHashChain(start, h.sym, m[..32]);
      var s2 := MixKey(s1, Dh(h.s, m[..32]).value);
      MixKeyChain(start, s1, Dh(h.s, m[..32]).value);
      OpenStaticChain(start, s2, h.s, m[32..]);
      var (s3, rs, payload) := OpenStatic(s2, h.s, m[32..]);
      assert payload.Ok? ==> s3.mixed == h.sym.mixed + [m[..32]] + [m[32..][..48], m[32..][48..]];
      assert h.sym.mixed + [m[..32]] + [m[32..][..48], m[32..][48..]] == h.sym.mixed + Parts2(m);
    }
  }

  lemma SendEeSeChain(start: Str, h: Handshake, payload: Str, random: nat)
    requires |start| == 64 && HashOk(start, h.sym)
    ensures var (h', m) := SendEeSe(h, payload, random);
            m.Ok? ==> && |m.value| >= 32 && HashOk(start, h'.sym) && h'.sym.mixed == h.sym.mixed + Parts1(m.value)
                      && h'.result.Some? && h'.result.value.hash == h'.sym.digest
  {
    hide EncryptAndHash, Dh, MixHash, HashOk, MixKey;
    var e := Ephemeral(h, random);
    if h.re.Some? && h.rs.Some? && Dh(e, h.re.value).Some? && Dh(e, h.rs.value).Some? {
      var ee, se := Dh(e, h.re.value).value, Dh(e, h.rs.value).value;
      var s1 := MixHash(h.sym, PublicKey(e));
      MixHashChain(start, h.sym, PublicKey(e));
      MixKeyChain(start, s1, ee);
      MixKeyChain(start, MixKey(s1, ee), se);
      var s2 := MixKey(MixKey(s1, ee), se);
      SealChain(start, s2, payload);
      var enc := EncryptAndHash(s2, payload).1;
      var m := PublicKey(e) + enc;
      assert m[..32] == PublicKey(e) && m[32..] == enc;
      assert h.sym.mixed + [PublicKey(e)] + [enc] == h.sym.mixed + Parts1(m);
    }
  }

  lemma RecvEeSeChain(start: Str, h: Handshake, m: Str)
    requires |start| == 64 && HashOk(start, h.sym)
    ensures var (h', r) := RecvEeSe(h, m);
            r.Ok? ==> && |m| >= 32 && HashOk(start, h'.sym) && h'.sym.mixed == h.sym.mixed + Parts1(m)
                      && h'.result.Some? && h'.result.value.hash == h'.sym.digest
  {
    hide DecryptAndHash, Dh, MixHash, HashOk, MixKey;
    if |m| >= 48 && h.e.Some? && Dh(h.e.value, m[..32]).Some? && Dh(h.s, m[..32]).Some? {
      var ee, se := Dh(h.e.value, m[..32]).value, Dh(h.s, m[..32]).value;
      var s1 := MixHash(h.sym, m[..32]);
      MixHashChain(start, h.sym, m[..32]);
      MixKeyChain(start, s1, ee);
      MixKeyChain(start, MixKey(s1, ee), se);
      var s2 := MixKey(MixKey(s1, ee), se);
      OpenChain(start, s2, m[32..]);
      assert h.sym.mixed + [m[..32]] + [m[32..]] == h.sym.mixed + Parts1(m);
    }
  }

  ghost function IKStart(): (h: Str)
    ensures |h| == 64 && h[0].Literal?
  {
    PaddedName(IK_NAME)
  }

  lemma NewChain()
    ensures HashOk(IKStart(), NewSymmetric(IK_NAME)) && NewSymmetric(IK_NAME).mixed == []
  {
    AllLiteral(IK_NAME);
    hide Padded, Text;
  }

  lemma IKStartHash(prologue: Str, key: Str)
    ensures var s := MixHash(MixHash(NewSymmetric(IK_NAME), prologue), key);
            HashOk(IKStart(), s) && s.mixed == [prologue, key]
  {
    NewChain();
    hide NewSymmetric, IKStart, HashOk, MixHash;
    MixHashChain(IKStart(), NewSymmetric(IK_NAME), prologue);
    MixHashChain(IKStart(), MixHash(NewSymmetric(IK_NAME), prologue), key);
    assert [] + [prologue] + [key] == [prologue, key];
  }

  /** The initiator's two calls, receiving `m2`. */
  ghost function IKInitiated(s: nat, remote: Str, prologue: Str, preset: Option<nat>, random: nat, payload: Str,
                             m2: Str)
    : (Handshake, Outcome<Str>, Outcome<Str>)
  {
    var (h1, m1) := SendIK(NewInitiator(s, remote, prologue, preset), payload, random);
    var (h2, got) := RecvIK(h1, m2);
    (h2, m1, got)
  }

  /** The responder's two calls, receiving `m1`. */
  ghost function IKResponded(s: nat, prologue: Str, preset: Option<nat>, random: nat, payload: Str, m1: Str)
    : (Handshake, Outcome<Str>, Outcome<Str>)
  {
    var (h1, got) := RecvIK(NewResponder(s, prologue, preset), m1);
    var (h2, m2) := SendIK(h1, payload, random);
    (h2, got, m2)
  }

  lemma IKInitiatedMixes(s: nat, remote: Str, prologue: Str, preset: Option<nat>, random: nat, payload: Str, m2: Str)
    ensures var (h, m1, got) := IKInitiated(s, remote, prologue, preset, random, payload, m2);
            m1.Ok? && got.Ok? ==>
              && |m1.value| >= 80 && |m2| >= 32 && HashOk(IKStart(), h.sym)
              && h.sym.mixed == [prologue, remote] + Parts2(m1.value) + Parts1(m2)
              && h.result.Some? && h.result.value.hash == h.sym.digest
  {
    hide HashOk, IKStart, SendEsSs, RecvEeSe, NewSymmetric, MixHash, Parts1, Parts2;
    var h0 := NewInitiator(s, remote, prologue, preset);
    IKStartHash(prologue, remote);
    SendEsSsChain(IKStart(), h0, payload, random);
    var (h1, m1) := SendEsSs(h0, payload, random);
    assert SendIK(h0, payload, random) == (h1, m1);
    if m1.Ok? {
      RecvEeSeChain(IKStart(), h1, m2);
      assert RecvIK(h1, m2) == RecvEeSe(h1, m2);
    }
  }

  lemma IKRespondedMixes(s: nat, prologue: Str, preset: Option<nat>, random: nat, payload: Str, m1: Str)
    ensures var (h, got, m2) := IKResponded(s, prologue, preset, random, payload, m1);
            got.Ok? && m2.Ok? ==>
              && |m1| >= 80 && |m2.value| >= 32 && HashOk(IKStart(), h.sym)
              && h.sym.mixed == [prologue, PublicKey(s)] + Parts2(m1) + Parts1(m2.value)
              && h.result.Some? && h.result.value.hash == h.sym.digest
  {
    hide HashOk, IKStart, RecvEsSs, SendEeSe, NewSymmetric, MixHash, Parts1, Parts2;
    var h0 := NewResponder(s, prologue, preset);
    IKStartHash(prologue, PublicKey(s));
    RecvEsSsChain(IKStart(), h0, m1);
    var (h1, got) := RecvEsSs(h0, m1);
    assert RecvIK(h0, m1) == (h1, got);
    if got.Ok? {
      SendEeSeChain(IKStart(), h1, payload, random);
      assert SendIK(h1, payload, random) == SendEeSe(h1, payload, random);
    }
  }

  lemma SameIKPieces(p: Str, k: Str, a1: Str, a2: Str, p': Str, k': Str, b1: Str, b2: Str)
    requires |a1| >= 80 && |b1| >= 80 && |a2| >= 32 && |b2| >= 32
    requires [p, k] + Parts2(a1) + Parts1(a2) == [p', k'] + Parts2(b1) + Parts1(b2)
    ensures p == p' && k == k' && a1 == b1 && a2 == b2
  {
    var a, b := [p, k] + Parts2(a1) + Parts1(a2), [p', k'] + Parts2(b1) + Parts1(b2);
    assert a[0] == p && a[1] == k && b[0] == p' && b[1] == k';
    assert Parts2(a1) == a[2..5] && Parts1(a2) == a[5..7] && Parts2(b1) == b[2..5] && Parts1(b2) == b[5..7];
    hide Parts1, Parts2;
    PartsDetermine(a1, b1);
    PartsDetermine(a2, b2);
  }

  /** Whatever the network delivers, and whatever key and prologues the two sides start from: if
      both complete IK with the same handshake hash, then they started alike, both messages
      arrived as they were sent, both payloads are the other side's, and the two sides agree. */
  lemma IKBinding(si: nat, sr: nat, remote: Str, prologue: Str, prologue': Str, presetI: Option<nat>,
                  presetR: Option<nat>, ri: nat, rr: nat, payload1: Str, payload2: Str, m1: Str, m2: Str)
    ensures var (i, sent1, got2) := IKInitiated(si, remote, prologue, presetI, ri, payload1, m2);
            var (r, got1, sent2) := IKResponded(sr, prologue', presetR, rr, payload2, m1);
            && sent1.Ok? && got2.Ok? && got1.Ok? && sent2.Ok? && SameHash(i, r) ==>
              && prologue == prologue' && remote == PublicKey(sr) && sent1.value == m1 && sent2.value == m2
              && got1.value == payload1 && got2.value == payload2 && Agree(i, r)
  {
    hide IKInitiated, IKResponded, Agree, IKStart, Parts1, Parts2;
    IKInitiatedMixes(si, remote, prologue, presetI, ri, payload1, m2);
    IKRespondedMixes(sr, prologue', presetR, rr, payload2, m1);
    var (i, sent1, got2) := IKInitiated(si, remote, prologue, presetI, ri, payload1, m2);
    var (r, got1, sent2) := IKResponded(sr, prologue', presetR, rr, payload2, m1);
    if sent1.Ok? && got2.Ok? && got1.Ok? && sent2.Ok? && SameHash(i, r) {
      ChainInjective(IKStart(), i.sym.mixed, r.sym.mixed);
      SameIKPieces(prologue, remote, sent1.value, m2, prologue', PublicKey(sr), m1, sent2.value);
      HonestIKAgree(si, sr, prologue, presetI, presetR, ri, rr, payload1, payload2, m1, m2);
    }
  }

  lemma HonestIKAgree(si: nat, sr: nat, prologue: Str, presetI: Option<nat>, presetR: Option<nat>, ri: nat, rr: nat,
                      payload1: Str, payload2: Str, m1: Str, m2: Str)
    requires IKInitiated(si, PublicKey(sr), prologue, presetI, ri, payload1, m2).1 == Ok(m1)
    requires IKResponded(sr, prologue, presetR, rr, payload2, m1).2 == Ok(m2)
    ensures var i := IKInitiated(si, PublicKey(sr), prologue, presetI, ri, payload1, m2);
            var r := IKResponded(sr, prologue, presetR, rr, payload2, m1);
            Agree(i.0, r.0) && i.2 == Ok(payload2) && r.1 == Ok(payload1)
  {
    hide SendIK, RecvIK, Agree, Lockstep, NewInitiator, NewResponder;
    IKAgreement(si, sr, prologue, presetI, presetR, ri, rr, payload1, payload2);
  }

  // ---------------------------------------------------------------- who IK accepts

  lemma DigestInjective(p: Str, x: Str, q: Str, y: Str)
    requires |p| == |q| && Bytes(Digest(p + x)) == Bytes(Digest(q + y))
    ensures p == q && x == y
  {
    assert Bytes(Digest(p + x))[0] == Bytes(Digest(q + y))[0];
    assert p + x == q + y;
    assert p == (p + x)[..|p|] && q == (q + y)[..|q|] && x == (p + x)[|p|..] && y == (q + y)[|q|..];
  }

  /** The digest after the prologue, the responder's key and the first ephemeral key. */
  ghost function Opening(prologue: Str, remote: Str, e: Str): Str {
    MixHash(MixHash(MixHash(NewSymmetric(IK_NAME), prologue), remote), e).digest
  }

  lemma OpeningInjective(prologue: Str, remote: Str, prologue': Str, remote': Str, e: Str)
    requires Opening(prologue, remote, e) == Opening(prologue', remote', e)
    ensures prologue == prologue' && remote == remote'
  {
    hide NewSymmetric;
    var s := NewSymmetric(IK_NAME);
    var a, b := Bytes(Digest(s.digest + prologue)), Bytes(Digest(s.digest + prologue'));
    DigestInjective(Bytes(Digest(a + remote)), e, Bytes(Digest(b + remote')), e);
    DigestInjective(a, remote, b, remote');
    DigestInjective(s.digest, prologue, s.digest, prologue');
  }

  /** What is opened as a static key was sealed with the opener's own digest. */
  lemma OpenedDigest(s: Symmetric, own: nat, d: Option<Str>, payload: Str, t: Symmetric, secret: nat)
    requires s.cipher.key.Some? && t.cipher.key.Some?
    requires SealStatic(s, own, d, payload).1.Ok? && |SealStatic(s, own, d, payload).1.value| >= 48
    requires OpenStatic(t, secret, SealStatic(s, own, d, payload).1.value).2.Ok?
    ensures t.digest == s.digest
  {
    var m := SealStatic(s, own, d, payload).1.value;
    var (s1, encS) := EncryptAndHash(s, PublicKey(own));
    Sizes(s, PublicKey(own));
    assert m[..48] == encS;
    assert encS[0] == Of(Sealed(s.cipher.key.value, s.cipher.nonce, s.digest, PublicKey(own)), 0);
  }

  /** A responder accepts an initiator's first message exactly when the initiator knew its static
      key and used the same prologue. */
  lemma IKAccepts(si: nat, sr: nat, remote: Str, prologue: Str, prologue': Str, presetI: Option<nat>,
                  presetR: Option<nat>, ri: nat, payload: Str)
    ensures var (i, m) := SendIK(NewInitiator(si, remote, prologue, presetI), payload, ri);
            m.Ok? ==> (RecvIK(NewResponder(sr, prologue', presetR), m.value).1.Ok? <==>
                       remote == PublicKey(sr) && prologue == prologue')
  {
    var i0, r0 := NewInitiator(si, remote, prologue, presetI), NewResponder(sr, prologue', presetR);
    var m := SendIK(i0, payload, ri).1;
    if m.Ok? {
      if remote == PublicKey(sr) && prologue == prologue' {
        IKAgreement(si, sr, prologue, presetI, presetR, ri, 0, payload, []);
      }
      if RecvIK(r0, m.value).1.Ok? {
        AcceptedMatches(si, sr, remote, prologue, prologue', presetI, presetR, ri, payload);
      }
    }
  }

  lemma AcceptedMatches(si: nat, sr: nat, remote: Str, prologue: Str, prologue': Str, presetI: Option<nat>,
                        presetR: Option<nat>, ri: nat, payload: Str)
    requires SendIK(NewInitiator(si, remote, prologue, presetI), payload, ri).1.Ok?
    requires RecvIK(NewResponder(sr, prologue', presetR),
                    SendIK(NewInitiator(si, remote, prologue, presetI), payload, ri).1.value).1.Ok?
    ensures remote == PublicKey(sr) && prologue == prologue'
  {
    var i0, r0 := NewInitiator(si, remote, prologue, presetI), NewResponder(sr, prologue', presetR);
    var e := Ephemeral(i0, ri);
    hide SealStatic, OpenStatic, MixHash, NewSymmetric, MixKey, Dh;
    var es, ss := Dh(e, remote), Dh(si, remote);
    var s1 := MixHash(i0.sym, PublicKey(e));
    var s2 := MixKey(s1, es.value);
    var rest := SealStatic(s2, si, ss, payload).1;
    var m := PublicKey(e) + rest.value;
    assert m[..32] == PublicKey(e) && m[32..] == rest.value;
    var es' := Dh(sr, PublicKey(e));
    var t1 := MixHash(r0.sym, PublicKey(e));
    var t2 := MixKey(t1, es'.value);
    KeyAndDigest(s1, es.value);
    KeyAndDigest(t1, es'.value);
    OpenedDigest(s2, si, ss, payload, t2, sr);
    OpeningInjective(prologue, remote, prologue', PublicKey(sr), PublicKey(e));
  }

  lemma KeyAndDigest(s: Symmetric, d: Str)
    ensures MixKey(s, d).cipher.key.Some? && MixKey(s, d).digest == s.digest
  {
  }
}
