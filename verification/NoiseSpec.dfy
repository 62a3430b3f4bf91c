/** The Noise XX and IK handshakes over symbolic byte strings: hashes, codes, sealed texts and
    curve points are terms, and a byte of one is the term with an index. */
module NoiseSpec {
  import opened Options

  datatype Error = InvalidPublicKey | DecryptionFailed | HandshakeComplete | UnexpectedState

  datatype Outcome<+T> = Ok(value: T) | Err(error: Error)

  // ---------------------------------------------------------------- terms

  /** A point is the base point times the secrets in `secrets`, so that the order in which the
      two sides multiply does not matter. */
  datatype Term =
    | Point(secrets: multiset<nat>)
    | Digest(input: Str)
    | Mac(key: Str, data: Str)
    | Sealed(key: Str, nonce: nat, ad: Str, text: Str)

  datatype Symbol = Literal(value: nat) | Of(term: Term, index: nat)

  type Str = seq<Symbol>

  function Length(t: Term): nat {
    match t
    case Point(_) => 32
    case Digest(_) => 64
    case Mac(_, _) => 64
    case Sealed(_, _, _, text) => |text| + 16
  }

  function Bytes(t: Term): (s: Str)
    ensures |s| == Length(t) > 0
    ensures forall i :: 0 <= i < |s| ==> s[i] == Of(t, i)
  {
    seq(Length(t), i requires 0 <= i < Length(t) => Of(t, i))
  }

  function PublicKey(secret: nat): Str {
    Bytes(Point(multiset{secret}))
  }

  /** Multiply a point by a secret; only the bytes of a point are one. */
  function Dh(secret: nat, public: Str): Option<Str> {
    if public != [] && public[0].Of? && public[0].term.Point? && public == Bytes(public[0].term) then
      Some(Bytes(Point(public[0].term.secrets + multiset{secret})))
    else None
  }

  function Hkdf(chainingKey: Str, input: Str): (Str, Str) {
    var temp := Bytes(Mac(chainingKey, input));
    var first := Bytes(Mac(temp, [Literal(1)]));
    (first, Bytes(Mac(temp, first + [Literal(2)])))
  }

  // ---------------------------------------------------------------- cipher state

  /** One use of a key and nonce, to seal or to open. */
  datatype Use = Use(key: Str, nonce: nat, sealing: bool)

  datatype Cipher = Cipher(key: Option<Str>, nonce: nat)

  function Encrypt(c: Cipher, text: Str, ad: Str): (Cipher, Str) {
    match c.key
    case None => (c, text)
    case Some(k) => (c.(nonce := c.nonce + 1), Bytes(Sealed(k, c.nonce, ad, text)))
  }

  /** Opening succeeds exactly on what was sealed with this key, nonce and additional data. */
  function Decrypt(c: Cipher, sealed: Str, ad: Str): (Cipher, Outcome<Str>) {
    match c.key
    case None => (c, Ok(sealed))
    case Some(k) =>
      if sealed != [] && sealed[0].Of? && sealed[0].term.Sealed? && sealed[0].term.key == k &&
         sealed[0].term.nonce == c.nonce && sealed[0].term.ad == ad && sealed == Bytes(sealed[0].term) then
        (c.(nonce := c.nonce + 1), Ok(sealed[0].term.text))
      else (c, Err(DecryptionFailed))
  }

  // ---------------------------------------------------------------- symmetric state

  /** `mixed` records everything mixed into the digest, and `uses` every use of a key. */
  datatype Symmetric = Symmetric(chainingKey: Str, digest: Str, cipher: Cipher, mixed: seq<Str>, uses: seq<Use>)

  function Text(name: string): Str {
    if name == "" then [] else [Literal(name[0] as int)] + Text(name[1..])
  }

  /** A name of at most 64 bytes is padded with zeros; a longer one is hashed. */
  function Padded(name: Str): (s: Str)
    requires |name| <= 64
    ensures |s| == 64
    ensures (forall i :: 0 <= i < |name| ==> name[i].Literal?) ==> forall i :: 0 <= i < 64 ==> s[i].Literal?
    decreases 64 - |name|
  {
    if |name| < 64 then Padded(name + [Literal(0)]) else name
  }

  function NewSymmetric(name: string): Symmetric {
    var digest := if |Text(name)| <= 64 then Padded(Text(name)) else Bytes(Digest(Text(name)));
    Symmetric(digest, digest, Cipher(None, 0), [], [])
  }

  function MixHash(s: Symmetric, data: Str): Symmetric {
    s.(digest := Bytes(Digest(s.digest + data)), mixed := s.mixed + [data])
  }

  function MixKey(s: Symmetric, dh: Str): Symmetric {
    var (ck, temp) := Hkdf(s.chainingKey, dh);
    s.(chainingKey := ck, cipher := Cipher(Some(temp[..32]), 0))
  }

  function UseOf(c: Cipher, sealing: bool): seq<Use> {
    match c.key
    case None => []
    case Some(k) => [Use(k, c.nonce, sealing)]
  }

  function EncryptAndHash(s: Symmetric, text: Str): (Symmetric, Str) {
    var (cipher, sealed) := Encrypt(s.cipher, text, s.digest);
    (MixHash(s.(cipher := cipher, uses := s.uses + UseOf(s.cipher, true)), sealed), sealed)
  }

  function DecryptAndHash(s: Symmetric, sealed: Str): (Symmetric, Outcome<Str>) {
    var (cipher, r) := Decrypt(s.cipher, sealed, s.digest);
    match r
    case Err(e) => (s, Err(e))
    case Ok(text) => (MixHash(s.(cipher := cipher, uses := s.uses + UseOf(s.cipher, false)), sealed), Ok(text))
  }

  function Split(s: Symmetric): (Str, Str) {
    var (t1, t2) := Hkdf(s.chainingKey, []);
    (t1[..32], t2[..32])
  }

  // ---------------------------------------------------------------- handshake state

  datatype Session = Session(tx: Str, rx: Str, hash: Str, remote: Str)

  datatype Handshake = Handshake(
    isInitiator: bool, step: nat, sym: Symmetric, s: nat, e: Option<nat>, re: Option<Str>, rs: Option<Str>,
    result: Option<Session>)

  const XX_NAME := "Noise_XX_Ed25519_ChaChaPoly_BLAKE2b"
  const IK_NAME := "Noise_IK_Ed25519_ChaChaPoly_BLAKE2b"

  /** Use the preset ephemeral secret if there is one. */
  function Ephemeral(h: Handshake, random: nat): nat {
    if h.e.Some? then h.e.value else random
  }

  function Remote(h: Handshake): Str {
    if h.rs.Some? then h.rs.value else Zeros(32)
  }

  function Zeros(n: nat): Str {
    if n == 0 then [] else [Literal(0)] + Zeros(n - 1)
  }

  /** The initiator sends with the first key of the split and the responder with the second. */
  function Complete(h: Handshake, sym: Symmetric): Session {
    var (k1, k2) := Split(sym);
    Session(if h.isInitiator then k1 else k2, if h.isInitiator then k2 else k1, sym.digest, Remote(h))
  }

  // ---------------------------------------------------------------- XX

  function NewXX(isInitiator: bool, s: nat, preset: Option<nat>): Handshake {
    Handshake(isInitiator, 0, MixHash(NewSymmetric(XX_NAME), []), s, preset, None, None, None)
  }

  /** Message 1, from the initiator: e. */
  function SendE(h: Handshake, random: nat): (Handshake, Outcome<Str>) {
    var e := Ephemeral(h, random);
    var s1 := MixHash(h.sym, PublicKey(e));
    var (s2, payload) := EncryptAndHash(s1, []);
    (h.(e := Some(e), sym := s2, step := 1), Ok(PublicKey(e) + payload))
  }

  function RecvE(h: Handshake, m: Str): (Handshake, Outcome<Str>) {
    if |m| < 32 then (h, Err(UnexpectedState))
    else
      var s1 := MixHash(h.sym, m[..32]);
      var (s2, payload) := DecryptAndHash(s1, m[32..]);
      var h2 := h.(re := Some(m[..32]), sym := s2);
      if payload.Err? then (h2, payload) else (h2.(step := 1), Ok([]))
  }

  /** Seal our static key, mix in a product of secrets, and seal a payload. */
  function SealStatic(s: Symmetric, own: nat, dh: Option<Str>, payload: Str): (Symmetric, Outcome<Str>) {
    var (s1, encS) := EncryptAndHash(s, PublicKey(own));
    match dh
    case None => (s1, Err(InvalidPublicKey))
    case Some(d) =>
      var (s2, enc) := EncryptAndHash(MixKey(s1, d), payload);
      (s2, Ok(encS + enc))
  }

  /** Message 2, from the responder: e, ee, s, es. The ephemeral secret is kept only if the
      products can be formed. */
  function SendEeSEs(h: Handshake, random: nat): (Handshake, Outcome<Str>) {
    if h.re.None? then (h, Err(UnexpectedState))
    else
      var e := Ephemeral(h, random);
      var s1 := MixHash(h.sym, PublicKey(e));
      match Dh(e, h.re.value)
      case None => (h.(e := None, sym := s1), Err(InvalidPublicKey))
      case Some(ee) =>
        var (s2, rest) := SealStatic(MixKey(s1, ee), h.s, Dh(h.s, h.re.value), []);
        if rest.Err? then (h.(e := None, sym := s2), rest)
        else (h.(e := Some(e), sym := s2, step := 2), Ok(PublicKey(e) + rest.value))
  }

  /** Open the remote static key, mix in the product of our secret with it, and open a payload;
      also gives the key if that much succeeds. */
  function OpenStatic(s: Symmetric, secret: nat, m: Str): (Symmetric, Option<Str>, Outcome<Str>)
    requires |m| >= 48
  {
    var (s1, rs) := DecryptAndHash(s, m[..48]);
    if rs.Err? then (s1, None, rs)
    else
      match Dh(secret, rs.value)
      case None => (s1, Some(rs.value), Err(InvalidPublicKey))
      case Some(d) =>
        var (s2, payload) := DecryptAndHash(MixKey(s1, d), m[48..]);
        (s2, Some(rs.value), payload)
  }

  function Learn(h: Handshake, rs: Option<Str>): Handshake {
    if rs.Some? then h.(rs := rs) else h
  }

  function RecvEeSEs(h: Handshake, m: Str): (Handshake, Outcome<Str>) {
    if |m| < 96 || h.e.None? then (h, Err(UnexpectedState))
    else
      var h1 := h.(sym := MixHash(h.sym, m[..32]), re := Some(m[..32]));
      match Dh(h.e.value, m[..32])
      case None => (h1, Err(InvalidPublicKey))
      case Some(ee) =>
        var (s2, rs, payload) := OpenStatic(MixKey(h1.sym, ee), h.e.value, m[32..]);
        var h2 := Learn(h1, rs).(sym := s2);
        if payload.Err? then (h2, payload) else (h2.(step := 2), Ok([]))
  }

  /** Message 3, from the initiator: s, se. */
  function SendSSe(h: Handshake): (Handshake, Outcome<Str>) {
    if h.re.None? then (h, Err(UnexpectedState))
    else
      var (s1, m) := SealStatic(h.sym, h.s, Dh(h.s, h.re.value), []);
      if m.Err? then (h.(sym := s1), m)
      else (h.(sym := s1, result := Some(Complete(h, s1)), step := 3), m)
  }

  function RecvSSe(h: Handshake, m: Str): (Handshake, Outcome<Str>) {
    if |m| < 64 || h.e.None? then (h, Err(UnexpectedState))
    else
      var (s1, rs, payload) := OpenStatic(h.sym, h.e.value, m);
      var h1 := Learn(h, rs).(sym := s1);
      if payload.Err? then (h1, payload)
      else (h1.(result := Some(Complete(h1, s1)), step := 3), Ok([]))
  }

  function SendXX(h: Handshake, random: nat): (Handshake, Outcome<Str>) {
    if h.result.Some? then (h, Err(HandshakeComplete))
    else if h.isInitiator && h.step == 0 then SendE(h, random)
    else if !h.isInitiator && h.step == 1 then SendEeSEs(h, random)
    else if h.isInitiator && h.step == 2 then SendSSe(h)
    else (h, Err(UnexpectedState))
  }

  function RecvXX(h: Handshake, m: Str): (Handshake, Outcome<Str>) {
    if h.result.Some? then (h, Err(HandshakeComplete))
    else if !h.isInitiator && h.step == 0 then RecvE(h, m)
    else if h.isInitiator && h.step == 1 then RecvEeSEs(h, m)
    else if !h.isInitiator && h.step == 2 then RecvSSe(h, m)
    else (h, Err(UnexpectedState))
  }

  // ---------------------------------------------------------------- IK

  function NewInitiator(s: nat, remote: Str, prologue: Str, preset: Option<nat>): Handshake {
    Handshake(true, 0, MixHash(MixHash(NewSymmetric(IK_NAME), prologue), remote), s, preset, None, Some(remote), None)
  }

  function NewResponder(s: nat, prologue: Str, preset: Option<nat>): Handshake {
    Handshake(false, 0, MixHash(MixHash(NewSymmetric(IK_NAME), prologue), PublicKey(s)), s, preset, None, None, None)
  }

  /** Message 1, from the initiator: e, es, s, ss. */
  function SendEsSs(h: Handshake, payload: Str, random: nat): (Handshake, Outcome<Str>) {
    if h.rs.None? then (h, Err(UnexpectedState))
    else
      var e := Ephemeral(h, random);
      var s1 := MixHash(h.sym, PublicKey(e));
      match Dh(e, h.rs.value)
      case None => (h.(e := None, sym := s1), Err(InvalidPublicKey))
      case Some(es) =>
        var (s2, rest) := SealStatic(MixKey(s1, es), h.s, Dh(h.s, h.rs.value), payload);
        if rest.Err? then (h.(e := None, sym := s2), rest)
        else (h.(e := Some(e), sym := s2, step := 1), Ok(PublicKey(e) + rest.value))
  }

  function RecvEsSs(h: Handshake, m: Str): (Handshake, Outcome<Str>) {
    if |m| < 96 then (h, Err(UnexpectedState))
    else
      var h1 := h.(sym := MixHash(h.sym, m[..32]), re := Some(m[..32]));
      match Dh(h.s, m[..32])
      case None => (h1, Err(InvalidPublicKey))
      case Some(es) =>
        var (s2, rs, payload) := OpenStatic(MixKey(h1.sym, es), h.s, m[32..]);
        var h2 := Learn(h1, rs).(sym := s2);
        if payload.Err? then (h2, payload) else (h2.(step := 1), payload)
  }

  /** Message 2, from the responder: e, ee, se. */
  function SendEeSe(h: Handshake, payload: Str, random: nat): (Handshake, Outcome<Str>) {
    if h.re.None? || h.rs.None? then (h, Err(UnexpectedState))
    else
      var e := Ephemeral(h, random);
      var s1 := MixHash(h.sym, PublicKey(e));
      match Dh(e, h.re.value)
      case None => (h.(e := None, sym := s1), Err(InvalidPublicKey))
      case Some(ee) =>
        var s2 := MixKey(s1, ee);
        match Dh(e, h.rs.value)
        case None => (h.(e := None, sym := s2), Err(InvalidPublicKey))
        case Some(se) =>
          var (s3, enc) := EncryptAndHash(MixKey(s2, se), payload);
          (h.(e := Some(e), sym := s3, result := Some(Complete(h, s3)), step := 2), Ok(PublicKey(e) + enc))
  }

  function RecvEeSe(h: Handshake, m: Str): (Handshake, Outcome<Str>) {
    if |m| < 48 || h.e.None? then (h, Err(UnexpectedState))
    else
      var h1 := h.(sym := MixHash(h.sym, m[..32]), re := Some(m[..32]));
      match Dh(h.e.value, m[..32])
      case None => (h1, Err(InvalidPublicKey))
      case Some(ee) =>
        var s2 := MixKey(h1.sym, ee);
        match Dh(h.s, m[..32])
        case None => (h1.(sym := s2), Err(InvalidPublicKey))
        case Some(se) =>
          var (s3, payload) := DecryptAndHash(MixKey(s2, se), m[32..]);
          if payload.Err? then (h1.(sym := s3), payload)
          else (h1.(sym := s3, result := Some(Complete(h1, s3)), step := 2), payload)
  }

  function SendIK(h: Handshake, payload: Str, random: nat): (Handshake, Outcome<Str>) {
    if h.result.Some? then (h, Err(HandshakeComplete))
    else if h.isInitiator && h.step == 0 then SendEsSs(h, payload, random)
    else if !h.isInitiator && h.step == 1 then SendEeSe(h, payload, random)
    else (h, Err(UnexpectedState))
  }

  function RecvIK(h: Handshake, m: Str): (Handshake, Outcome<Str>) {
    if h.result.Some? then (h, Err(HandshakeComplete))
    else if !h.isInitiator && h.step == 0 then RecvEsSs(h, m)
    else if h.isInitiator && h.step == 1 then RecvEeSe(h, m)
    else (h, Err(UnexpectedState))
  }
}
