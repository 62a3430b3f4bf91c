/** The Noise state objects, updated in place; each method is proved to take the step that
    `NoiseSpec` gives for it, also when it fails part way. */
module Noise {
  import opened Options
  import opened NoiseSpec

  class CipherState {
    var key: Option<Str>
    var nonce: nat

    ghost function Model(): Cipher
      reads this
    {
      Cipher(key, nonce)
    }

    constructor ()
      ensures Model() == Cipher(None, 0)
    {
      key, nonce := None, 0;
    }

    method SetKey(k: Str)
      modifies this
      ensures Model() == Cipher(Some(k), 0)
    {
      key, nonce := Some(k), 0;
    }

    method EncryptWithAd(text: Str, ad: Str) returns (sealed: Str)
      modifies this
      ensures (Model(), sealed) == Encrypt(old(Model()), text, ad)
    {
      match key
      case None => sealed := text;
      case Some(k) =>
        sealed := Bytes(Sealed(k, nonce, ad, text));
        nonce := nonce + 1;
    }

    method DecryptWithAd(sealed: Str, ad: Str) returns (r: Outcome<Str>)
      modifies this
      ensures (Model(), r) == Decrypt(old(Model()), sealed, ad)
    {
      match key
      case None => r := Ok(sealed);
      case Some(k) =>
        var opens := sealed != [] && sealed[0].Of? && sealed[0].term.Sealed?;
        if opens {
          var t := sealed[0].term;
          opens := t.key == k && t.nonce == nonce && t.ad == ad && sealed == Bytes(t);
        }
        if opens {
          r := Ok(sealed[0].term.text);
          nonce := nonce + 1;
        } else {
          r := Err(DecryptionFailed);
        }
    }
  }

  class SymmetricState {
    var chainingKey: Str
    var digest: Str
    const cipher: CipherState
    ghost var mixed: seq<Str>
    ghost var uses: seq<Use>

    ghost function Model(): Symmetric
      reads this, cipher
    {
      Symmetric(chainingKey, digest, cipher.Model(), mixed, uses)
    }

    constructor (name: string)
      ensures Model() == NewSymmetric(name) && fresh(cipher)
    {
      var start := if |Text(name)| <= 64 then Padded(Text(name)) else Bytes(Digest(Text(name)));
      chainingKey, digest := start, start;
      cipher := new CipherState();
      mixed, uses := [], [];
    }

    method MixHash(data: Str)
      modifies this
      ensures Model() == NoiseSpec.MixHash(old(Model()), data)
    {
      digest := Bytes(Digest(digest + data));
      mixed := mixed + [data];
    }

    method MixKey(dh: Str)
      modifies this, cipher
      ensures Model() == NoiseSpec.MixKey(old(Model()), dh)
    {
      var (ck, temp) := Hkdf(chainingKey, dh);
      chainingKey := ck;
      cipher.SetKey(temp[..32]);
    }

    method EncryptAndHash(text: Str) returns (sealed: Str)
      modifies this, cipher
      ensures (Model(), sealed) == NoiseSpec.EncryptAndHash(old(Model()), text)
    {
      var ad := digest;
      uses := uses + UseOf(cipher.Model(), true);
      sealed := cipher.EncryptWithAd(text, ad);
      MixHash(sealed);
    }

    method DecryptAndHash(sealed: Str) returns (r: Outcome<Str>)
      modifies this, cipher
      ensures (Model(), r) == NoiseSpec.DecryptAndHash(old(Model()), sealed)
    {
      var ad := digest;
      ghost var use := UseOf(cipher.Model(), false);
      r := cipher.DecryptWithAd(sealed, ad);
      if r.Ok? {
        uses := uses + use;
        MixHash(sealed);
      }
    }

    method SplitKeys() returns (k1: Str, k2: Str)
      ensures (k1, k2) == Split(Model())
    {
      var (t1, t2) := Hkdf(chainingKey, []);
      k1, k2 := t1[..32], t2[..32];
    }

    /** The tokens s, and a product, and the payload, of a message that carries a static key. */
    method SealStatic(own: nat, dh: Option<Str>, payload: Str) returns (r: Outcome<Str>)
      modifies this, cipher
      ensures (Model(), r) == NoiseSpec.SealStatic(old(Model()), own, dh, payload)
    {
      hide NoiseSpec.EncryptAndHash, NoiseSpec.MixKey;
      var encS := EncryptAndHash(PublicKey(own));
      match dh
      case None => r := Err(InvalidPublicKey);
      case Some(d) =>
        MixKey(d);
        var enc := EncryptAndHash(payload);
        r := Ok(encS + enc);
    }

    method OpenStatic(secret: nat, m: Str) returns (rs: Option<Str>, r: Outcome<Str>)
      requires |m| >= 48
      modifies this, cipher
      ensures (Model(), rs, r) == NoiseSpec.OpenStatic(old(Model()), secret, m)
    {
      hide NoiseSpec.DecryptAndHash, NoiseSpec.MixKey, Dh;
      var found := DecryptAndHash(m[..48]);
      if found.Err? {
        rs, r := None, found;
      } else {
        rs := Some(found.value);
        match Dh(secret, found.value) {
          case None => r := Err(InvalidPublicKey);
          case Some(d) =>
            MixKey(d);
            r := DecryptAndHash(m[48..]);
        }
      }
    }
  }

  class HandshakeState {
    const isInitiator: bool
    var step: nat
    const symmetric: SymmetricState
    const s: nat
    var e: Option<nat>
    var re: Option<Str>
    var rs: Option<Str>
    var result: Option<Session>

    ghost function Model(): Handshake
      reads this, symmetric, symmetric.cipher
    {
      Handshake(isInitiator, step, symmetric.Model(), s, e, re, rs, result)
    }

    constructor XX(isInitiator: bool, s: nat, preset: Option<nat>)
      ensures Model() == NewXX(isInitiator, s, preset) && fresh(symmetric) && fresh(symmetric.cipher)
    {
      hide NewSymmetric, NoiseSpec.MixHash;
      this.isInitiator, this.s := isInitiator, s;
      var sym := new SymmetricState(XX_NAME);
      sym.MixHash([]);
      symmetric := sym;
      step, e, re, rs, result := 0, preset, None, None, None;
    }

    constructor Initiator(s: nat, remote: Str, prologue: Str, preset: Option<nat>)
      ensures Model() == NewInitiator(s, remote, prologue, preset) && fresh(symmetric) && fresh(symmetric.cipher)
    {
      hide NewSymmetric, NoiseSpec.MixHash;
      isInitiator, this.s := true, s;
      var sym := new SymmetricState(IK_NAME);
      sym.MixHash(prologue);
      sym.MixHash(remote);
      symmetric := sym;
      step, e, re, rs, result := 0, preset, None, Some(remote), None;
    }

    constructor Responder(s: nat, prologue: Str, preset: Option<nat>)
      ensures Model() == NewResponder(s, prologue, preset) && fresh(symmetric) && fresh(symmetric.cipher)
    {
      hide NewSymmetric, NoiseSpec.MixHash;
      isInitiator, this.s := false, s;
      var sym := new SymmetricState(IK_NAME);
      sym.MixHash(prologue);
      sym.MixHash(PublicKey(s));
      symmetric := sym;
      step, e, re, rs, result := 0, preset, None, None, None;
    }

    method Finish()
      modifies this`result
      ensures result == Some(Complete(Model(), symmetric.Model()))
    {
      hide Split;
      var k1, k2 := symmetric.SplitKeys();
      result := Some(Session(if isInitiator then k1 else k2, if isInitiator then k2 else k1, symmetric.digest,
                             if rs.Some? then rs.value else Zeros(32)));
    }

    // -------------------------------------------------------------- XX

    method WriteE(random: nat) returns (r: Outcome<Str>)
      modifies this, symmetric, symmetric.cipher
      ensures (Model(), r) == SendE(old(Model()), random)
    {
      hide NoiseSpec.MixHash, NoiseSpec.EncryptAndHash;
      var eph := if e.Some? then e.value else random;
      symmetric.MixHash(PublicKey(eph));
      e := Some(eph);
      var payload := symmetric.EncryptAndHash([]);
      step := 1;
      r := Ok(PublicKey(eph) + payload);
    }

    method ReadE(m: Str) returns (r: Outcome<Str>)
      modifies this, symmetric, symmetric.cipher
      ensures (Model(), r) == RecvE(old(Model()), m)
    {
      hide NoiseSpec.MixHash, NoiseSpec.DecryptAndHash;
      if |m| < 32 {
        r := Err(UnexpectedState);
      } else {
        symmetric.MixHash(m[..32]);
        re := Some(m[..32]);
        r := symmetric.DecryptAndHash(m[32..]);
        if r.Ok? {
          step := 1;
          r := Ok([]);
        }
      }
    }

    method WriteEeSEs(random: nat) returns (r: Outcome<Str>)
      modifies this, symmetric, symmetric.cipher
      ensures (Model(), r) == SendEeSEs(old(Model()), random)
    {
      hide NoiseSpec.MixHash, NoiseSpec.MixKey, NoiseSpec.SealStatic, Dh;
      if re.None? {
        r := Err(UnexpectedState);
      } else {
        var eph := if e.Some? then e.value else random;
        e := None;
        symmetric.MixHash(PublicKey(eph));
        match Dh(eph, re.value) {
          case None => r := Err(InvalidPublicKey);
          case Some(ee) =>
            symmetric.MixKey(ee);
            r := symmetric.SealStatic(s, Dh(s, re.value), []);
            if r.Ok? {
              e := Some(eph);
              step := 2;
              r := Ok(PublicKey(eph) + r.value);
            }
        }
      }
    }

    method ReadEeSEs(m: Str) returns (r: Outcome<Str>)
      modifies this, symmetric, symmetric.cipher
      ensures (Model(), r) == RecvEeSEs(old(Model()), m)
    {
      hide NoiseSpec.MixHash, NoiseSpec.MixKey, NoiseSpec.OpenStatic, Dh;
      if |m| < 96 || e.None? {
        r := Err(UnexpectedState);
      } else {
        symmetric.MixHash(m[..32]);
        re := Some(m[..32]);
        match Dh(e.value, m[..32]) {
          case None => r := Err(InvalidPublicKey);
          case Some(ee) =>
            symmetric.MixKey(ee);
            r := Adopt(e.value, m[32..]);
            if r.Ok? {
              step := 2;
              r := Ok([]);
            }
        }
      }
    }

    /** Open the remote static key and the payload, and keep the key. */
    method Adopt(secret: nat, m: Str) returns (r: Outcome<Str>)
      requires |m| >= 48
      modifies this`rs, symmetric, symmetric.cipher
      ensures var (sym, key, payload) := NoiseSpec.OpenStatic(old(symmetric.Model()), secret, m);
              symmetric.Model() == sym && r == payload && rs == if key.Some? then key else old(rs)
    {
      hide NoiseSpec.OpenStatic;
      var key: Option<Str>;
      key, r := symmetric.OpenStatic(secret, m);
      if key.Some? {
        rs := key;
      }
    }

    method WriteSSe() returns (r: Outcome<Str>)
      modifies this, symmetric, symmetric.cipher
      ensures (Model(), r) == SendSSe(old(Model()))
    {
      hide NoiseSpec.SealStatic, Dh, Split;
      if re.None? {
        r := Err(UnexpectedState);
      } else {
        r := symmetric.SealStatic(s, Dh(s, re.value), []);
        if r.Ok? {
          Finish();
          step := 3;
        }
      }
    }

    method ReadSSe(m: Str) returns (r: Outcome<Str>)
      modifies this, symmetric, symmetric.cipher
      ensures (Model(), r) == RecvSSe(old(Model()), m)
    {
      hide NoiseSpec.OpenStatic, Split;
      if |m| < 64 || e.None? {
        r := Err(UnexpectedState);
      } else {
        r := Adopt(e.value, m);
        if r.Ok? {
          Finish();
          step := 3;
          r := Ok([]);
        }
      }
    }

    method SendXXMessage(random: nat) returns (r: Outcome<Str>)
      modifies this, symmetric, symmetric.cipher
      ensures (Model(), r) == SendXX(old(Model()), random)
    {
      hide SendE, SendEeSEs, SendSSe;
      if result.Some? {
        r := Err(HandshakeComplete);
      } else if isInitiator && step == 0 {
        r := WriteE(random);
      } else if !isInitiator && step == 1 {
        r := WriteEeSEs(random);
      } else if isInitiator && step == 2 {
        r := WriteSSe();
      } else {
        r := Err(UnexpectedState);
      }
    }

    method RecvXXMessage(m: Str) returns (r: Outcome<Str>)
      modifies this, symmetric, symmetric.cipher
      ensures (Model(), r) == RecvXX(old(Model()), m)
    {
      hide RecvE, RecvEeSEs, RecvSSe;
      if result.Some? {
        r := Err(HandshakeComplete);
      } else if !isInitiator && step == 0 {
        r := ReadE(m);
      } else if isInitiator && step == 1 {
        r := ReadEeSEs(m);
      } else if !isInitiator && step == 2 {
        r := ReadSSe(m);
      } else {
        r := Err(UnexpectedState);
      }
    }

    // -------------------------------------------------------------- IK

    method WriteEsSs(payload: Str, random: nat) returns (r: Outcome<Str>)
      modifies this, symmetric, symmetric.cipher
      ensures (Model(), r) == SendEsSs(old(Model()), payload, random)
    {
      hide NoiseSpec.MixHash, NoiseSpec.MixKey, NoiseSpec.SealStatic, Dh;
      if rs.None? {
        r := Err(UnexpectedState);
      } else {
        var eph := if e.Some? then e.value else random;
        e := None;
        symmetric.MixHash(PublicKey(eph));
        match Dh(eph, rs.value) {
          case None => r := Err(InvalidPublicKey);
          case Some(es) =>
            symmetric.MixKey(es);
            r := symmetric.SealStatic(s, Dh(s, rs.value), payload);
            if r.Ok? {
              e := Some(eph);
              step := 1;
              r := Ok(PublicKey(eph) + r.value);
            }
        }
      }
    }

    method ReadEsSs(m: Str) returns (r: Outcome<Str>)
      modifies this, symmetric, symmetric.cipher
      ensures (Model(), r) == RecvEsSs(old(Model()), m)
    {
      hide NoiseSpec.MixHash, NoiseSpec.MixKey, NoiseSpec.OpenStatic, Dh;
      if |m| < 96 {
        r := Err(UnexpectedState);
      } else {
        symmetric.MixHash(m[..32]);
        re := Some(m[..32]);
        match Dh(s, m[..32]) {
          case None => r := Err(InvalidPublicKey);
          case Some(es) =>
            symmetric.MixKey(es);
            r := Adopt(s, m[32..]);
            if r.Ok? {
              step := 1;
            }
        }
      }
    }

    method WriteEeSe(payload: Str, random: nat) returns (r: Outcome<Str>)
      modifies this, symmetric, symmetric.cipher
      ensures (Model(), r) == SendEeSe(old(Model()), payload, random)
    {
      hide NoiseSpec.MixHash, NoiseSpec.MixKey, NoiseSpec.EncryptAndHash, Dh, Split;
      if re.None? || rs.None? {
        r := Err(UnexpectedState);
      } else {
        var eph := if e.Some? then e.value else random;
        e := None;
        symmetric.MixHash(PublicKey(eph));
        match Dh(eph, re.value) {
          case None => r := Err(InvalidPublicKey);
          case Some(ee) =>
            symmetric.MixKey(ee);
            match Dh(eph, rs.value) {
              case None => r := Err(InvalidPublicKey);
              case Some(se) =>
                symmetric.MixKey(se);
                e := Some(eph);
                var enc := symmetric.EncryptAndHash(payload);
                Finish();
                step := 2;
                r := Ok(PublicKey(eph) + enc);
            }
        }
      }
    }

    method ReadEeSe(m: Str) returns (r: Outcome<Str>)
      modifies this, symmetric, symmetric.cipher
      ensures (Model(), r) == RecvEeSe(old(Model()), m)
    {
      hide NoiseSpec.MixHash, NoiseSpec.MixKey, NoiseSpec.DecryptAndHash, Dh, Split;
      if |m| < 48 || e.None? {
        r := Err(UnexpectedState);
      } else {
        symmetric.MixHash(m[..32]);
        re := Some(m[..32]);
        match Dh(e.value, m[..32]) {
          case None => r := Err(InvalidPublicKey);
          case Some(ee) =>
            symmetric.MixKey(ee);
            match Dh(s, m[..32]) {
              case None => r := Err(InvalidPublicKey);
              case Some(se) =>
                symmetric.MixKey(se);
                r := symmetric.DecryptAndHash(m[32..]);
                if r.Ok? {
                  Finish();
                  step := 2;
                }
            }
        }
      }
    }

    method SendIKMessage(payload: Str, random: nat) returns (r: Outcome<Str>)
      modifies this, symmetric, symmetric.cipher
      ensures (Model(), r) == SendIK(old(Model()), payload, random)
    {
      hide SendEsSs, SendEeSe;
      if result.Some? {
        r := Err(HandshakeComplete);
      } else if isInitiator && step == 0 {
        r := WriteEsSs(payload, random);
      } else if !isInitiator && step == 1 {
        r := WriteEeSe(payload, random);
      } else {
        r := Err(UnexpectedState);
      }
    }

    method RecvIKMessage(m: Str) returns (r: Outcome<Str>)
      modifies this, symmetric, symmetric.cipher
      ensures (Model(), r) == RecvIK(old(Model()), m)
    {
      hide RecvEsSs, RecvEeSe;
      if result.Some? {
        r := Err(HandshakeComplete);
      } else if !isInitiator && step == 0 {
        r := ReadEsSs(m);
      } else if isInitiator && step == 1 {
        r := ReadEeSe(m);
      } else {
        r := Err(UnexpectedState);
      }
    }
  }
}
