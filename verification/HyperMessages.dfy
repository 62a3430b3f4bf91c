/** The HyperDHT messages carried in request values and inside the Noise handshake. */
module HyperMessages {
  import opened Options
  import opened Codec
  import opened Messages

  // ---------------------------------------------------------------- parts

  function EncodeOptionalPeer(p: Option<Peer>): Bytes {
    if p.Some? then EncodePeer(p.value) else []
  }

  lemma OptionalPeer(p: Option<Peer>, rest: Bytes)
    requires p.Some? ==> p.value.Ok()
    ensures var b := EncodeOptionalPeer(p) + rest;
            DecodeOptional(p.Some?, DecodePeer(b), b) == Got(p, rest)
  {
    if p.Some? {
      PeerRoundTrip(p.value, rest);
    } else {
      assert EncodeOptionalPeer(p) + rest == rest;
    }
  }

  /** What a reader makes of a value with lists: it is refused if one of them is too long. */
  function Limited<T>(short: bool, value: T, rest: Bytes): Parse<T> {
    if short then Got(value, rest) else Fail(ArrayTooLarge)
  }

  predicate ShortList(ps: Option<seq<Peer>>) {
    ps.Some? ==> |ps.value| <= MAX_ARRAY
  }

  function EncodeOptionalPeers(ps: Option<seq<Peer>>): Bytes
    requires ps.Some? ==> |ps.value| < TWO64
  {
    if ps.Some? then EncodePeers(ps.value) else []
  }

  lemma OptionalPeers(ps: Option<seq<Peer>>, rest: Bytes)
    requires ps.Some? ==> AllOk(ps.value)
    ensures var b := EncodeOptionalPeers(ps) + rest;
            DecodeOptional(ps.Some?, DecodePeers(b), b) == Limited(ShortList(ps), ps, rest)
  {
    if ps.Some? {
      PeersRoundTrip(ps.value, rest);
    } else {
      assert EncodeOptionalPeers(ps) + rest == rest;
    }
  }

  /** A list written only when it is not empty. */
  function EncodeList(ps: seq<Peer>): Bytes
    requires |ps| < TWO64
  {
    if ps != [] then EncodePeers(ps) else []
  }

  function DecodeList(b: Bytes, present: bool, width: nat := 4): Parse<seq<Peer>> {
    if present then DecodePeers(b, width) else Got([], b)
  }

  lemma ListRoundTrip(ps: seq<Peer>, rest: Bytes, width: nat := 4)
    requires AllOk(ps, width)
    ensures DecodeList(EncodeList(ps) + rest, ps != [], width) == Limited(|ps| <= MAX_ARRAY, ps, rest)
  {
    if ps != [] {
      PeersRoundTrip(ps, rest, width);
    } else {
      assert EncodeList(ps) + rest == rest;
    }
  }

  /** An integer that is in range because it was read from the wire. */
  function DecodeNumber(b: Bytes): Parse<u64> {
    UintRange(b);
    DecodeUint(b)
  }

  lemma NumberRoundTrip(n: u64, rest: Bytes)
    ensures DecodeNumber(EncodeUint(n) + rest) == Got(n, rest)
  {
    UintRoundTrip(n, rest);
  }

  // ---------------------------------------------------------------- sizes

  lemma SmallNumber(n: u64)
    ensures |EncodeUint(n)| == 1 <==> n <= 0xfc
  {
  }

  /** The bytes that the size pass of a list reserves, of `each` for an address. */
  function ListSize(ps: seq<Peer>, each: nat): nat
    requires |ps| < TWO64
  {
    |EncodeUint(|ps|)| + |ps| * each
  }

  lemma PeersSize(ps: seq<Peer>, width: nat := 4)
    requires AllOk(ps, width)
    ensures |EncodePeers(ps)| == ListSize(ps, width + 2)
  {
    EachSize(ps, width);
  }

  // ---------------------------------------------------------------- handshake and holepunch

  datatype Handshake = Handshake(mode: u64, noise: Bytes, peerAddress: Option<Peer>, relayAddress: Option<Peer>) {
    predicate Ok() {
      && Sized(noise)
      && (peerAddress.Some? ==> peerAddress.value.Ok())
      && (relayAddress.Some? ==> relayAddress.value.Ok())
    }
  }

  function EncodeHandshake(m: Handshake): Bytes
    requires m.Ok()
  {
    EncodeUint(Flags(m.peerAddress.Some?, m.relayAddress.Some?, false, false, false)) + EncodeUint(m.mode) +
    EncodeBuffer(m.noise) + EncodeOptionalPeer(m.peerAddress) + EncodeOptionalPeer(m.relayAddress)
  }

  function DecodeHandshake(b: Bytes): Parse<Handshake> {
    var (flags, b) :- DecodeNumber(b);
    var (mode, b) :- DecodeNumber(b);
    var (noise, b) :- DecodeBuffer(b);
    var (peerAddress, b) :- DecodeOptional(HasFlag(flags, 1), DecodePeer(b), b);
    var (relayAddress, b) :- DecodeOptional(HasFlag(flags, 2), DecodePeer(b), b);
    Got(Handshake(mode, Contents(noise), peerAddress, relayAddress), b)
  }

  lemma HandshakeRoundTrip(m: Handshake, rest: Bytes)
    requires m.Ok()
    ensures DecodeHandshake(EncodeHandshake(m) + rest) == Got(m, rest)
  {
    hide DecodeNumber, DecodeBuffer, DecodeOptional, DecodePeer, EncodeUint, EncodeBuffer, EncodeOptionalPeer, Flags,
         HasFlag;
    var flags := Flags(m.peerAddress.Some?, m.relayAddress.Some?, false, false, false);
    var b4 := EncodeOptionalPeer(m.relayAddress) + rest;
    var b3 := EncodeOptionalPeer(m.peerAddress) + b4;
    var b2 := EncodeBuffer(m.noise) + b3;
    var b1 := EncodeUint(m.mode) + b2;
    assert EncodeHandshake(m) + rest == EncodeUint(flags) + b1;
    NumberRoundTrip(flags, b1);
    NumberRoundTrip(m.mode, b2);
    BufferRoundTrip(Some(m.noise), b3);
    OptionalPeer(m.peerAddress, b4);
    OptionalPeer(m.relayAddress, rest);
  }

  /** The bytes that the size pass of a buffer reserves. */
  function BufferSize(b: Bytes): nat
    requires Sized(b)
  {
    |EncodeUint(|b|)| + |b|
  }

  /** The bytes that the size pass reserves: one for the flags, whatever they are. */
  function HandshakeSize(m: Handshake): nat
    requires m.Ok()
  {
    |EncodeUint(0)| + |EncodeUint(m.mode)| + BufferSize(m.noise) +
    (if m.peerAddress.Some? then 6 else 0) + (if m.relayAddress.Some? then 6 else 0)
  }

  lemma HandshakeSizeExact(m: Handshake)
    requires m.Ok()
    ensures HandshakeSize(m) == |EncodeHandshake(m)|
  {
    var flags := Flags(m.peerAddress.Some?, m.relayAddress.Some?, false, false, false);
    SmallNumber(flags);
    SmallNumber(0);
  }

  datatype Holepunch = Holepunch(mode: u64, id: u64, payload: Bytes, peerAddress: Option<Peer>) {
    predicate Ok() {
      Sized(payload) && (peerAddress.Some? ==> peerAddress.value.Ok())
    }
  }

  function EncodeHolepunch(m: Holepunch): Bytes
    requires m.Ok()
  {
    EncodeUint(Flags(m.peerAddress.Some?, false, false, false, false)) + EncodeUint(m.mode) + EncodeUint(m.id) +
    EncodeBuffer(m.payload) + EncodeOptionalPeer(m.peerAddress)
  }

  function DecodeHolepunch(b: Bytes): Parse<Holepunch> {
    var (flags, b) :- DecodeNumber(b);
    var (mode, b) :- DecodeNumber(b);
    var (id, b) :- DecodeNumber(b);
    var (payload, b) :- DecodeBuffer(b);
    var (peerAddress, b) :- DecodeOptional(HasFlag(flags, 1), DecodePeer(b), b);
    Got(Holepunch(mode, id, Contents(payload), peerAddress), b)
  }

  lemma HolepunchRoundTrip(m: Holepunch, rest: Bytes)
    requires m.Ok()
    ensures DecodeHolepunch(EncodeHolepunch(m) + rest) == Got(m, rest)
  {
    hide DecodeNumber, DecodeBuffer, DecodeOptional, DecodePeer, EncodeUint, EncodeBuffer, EncodeOptionalPeer, Flags,
         HasFlag;
    var flags := Flags(m.peerAddress.Some?, false, false, false, false);
    var b4 := EncodeOptionalPeer(m.peerAddress) + rest;
    var b3 := EncodeBuffer(m.payload) + b4;
    var b2 := EncodeUint(m.id) + b3;
    var b1 := EncodeUint(m.mode) + b2;
    assert EncodeHolepunch(m) + rest == EncodeUint(flags) + b1;
    NumberRoundTrip(flags, b1);
    NumberRoundTrip(m.mode, b2);
    NumberRoundTrip(m.id, b3);
    BufferRoundTrip(Some(m.payload), b4);
    OptionalPeer(m.peerAddress, rest);
  }

  function HolepunchSize(m: Holepunch): nat
    requires m.Ok()
  {
    |EncodeUint(0)| + |EncodeUint(m.mode)| + |EncodeUint(m.id)| + BufferSize(m.payload) +
    (if m.peerAddress.Some? then 6 else 0)
  }

  lemma HolepunchSizeExact(m: Holepunch)
    requires m.Ok()
    ensures HolepunchSize(m) == |EncodeHolepunch(m)|
  {
    SmallNumber(Flags(m.peerAddress.Some?, false, false, false, false));
    SmallNumber(0);
  }

  // ---------------------------------------------------------------- announce

  datatype HyperPeer = HyperPeer(publicKey: Bytes, relays: seq<Peer>) {
    predicate Ok() { |publicKey| == 32 && AllOk(relays) }
  }

  function EncodeHyperPeer(p: HyperPeer): Bytes
    requires p.Ok()
  {
    p.publicKey + EncodePeers(p.relays)
  }

  function DecodeHyperPeer(b: Bytes): Parse<HyperPeer> {
    var (publicKey, b) :- DecodeFixed(b, 32);
    var (relays, b) :- DecodePeers(b);
    Got(HyperPeer(publicKey, relays), b)
  }

  function EncodeOptionalHyperPeer(p: Option<HyperPeer>): Bytes
    requires p.Some? ==> p.value.Ok()
  {
    if p.Some? then EncodeHyperPeer(p.value) else []
  }

  lemma OptionalHyperPeer(p: Option<HyperPeer>, rest: Bytes)
    requires p.Some? ==> p.value.Ok()
    ensures var b := EncodeOptionalHyperPeer(p) + rest;
            DecodeOptional(p.Some?, DecodeHyperPeer(b), b) ==
            Limited(p.Some? ==> |p.value.relays| <= MAX_ARRAY, p, rest)
  {
    if p.Some? {
      var relays := EncodePeers(p.value.relays) + rest;
      assert EncodeOptionalHyperPeer(p) + rest == p.value.publicKey + relays;
      FixedPrefix(p.value.publicKey, relays);
      PeersRoundTrip(p.value.relays, rest);
    } else {
      assert EncodeOptionalHyperPeer(p) + rest == rest;
    }
  }

  datatype Announce = Announce(peer: Option<HyperPeer>, refresh: Option<Bytes>, signature: Option<Bytes>, bump: u64) {
    predicate Ok() {
      (peer.Some? ==> peer.value.Ok()) && Fits(refresh, 32) && Fits(signature, 64)
    }

    predicate Short() { peer.Some? ==> |peer.value.relays| <= MAX_ARRAY }
  }

  function EncodeAnnounce(m: Announce): Bytes
    requires m.Ok()
  {
    EncodeUint(Flags(m.peer.Some?, m.refresh.Some?, m.signature.Some?, m.bump != 0, false)) +
    EncodeOptionalHyperPeer(m.peer) + Contents(m.refresh) + Contents(m.signature) +
    (if m.bump != 0 then EncodeUint(m.bump) else [])
  }

  function DecodeAnnounce(b: Bytes): Parse<Announce> {
    var (flags, b) :- DecodeNumber(b);
    var (peer, b) :- DecodeOptional(HasFlag(flags, 1), DecodeHyperPeer(b), b);
    var (refresh, b) :- DecodeOptional(HasFlag(flags, 2), DecodeFixed(b, 32), b);
    var (signature, b) :- DecodeOptional(HasFlag(flags, 4), DecodeFixed(b, 64), b);
    var (bump, b) :- DecodeErrorCode(b, HasFlag(flags, 8));
    Got(Announce(peer, refresh, signature, bump), b)
  }

  /** An announce is read back exactly when its list of relays is within the limit. */
  lemma AnnounceRoundTrip(m: Announce, rest: Bytes)
    requires m.Ok()
    ensures DecodeAnnounce(EncodeAnnounce(m) + rest) == Limited(m.Short(), m, rest)
  {
    hide DecodeNumber, DecodeFixed, DecodeOptional, DecodeHyperPeer, DecodeErrorCode, EncodeUint,
         EncodeOptionalHyperPeer, Flags, HasFlag;
    var flags := Flags(m.peer.Some?, m.refresh.Some?, m.signature.Some?, m.bump != 0, false);
    var b4 := (if m.bump != 0 then EncodeUint(m.bump) else []) + rest;
    var b3 := Contents(m.signature) + b4;
    var b2 := Contents(m.refresh) + b3;
    var b1 := EncodeOptionalHyperPeer(m.peer) + b2;
    assert EncodeAnnounce(m) + rest == EncodeUint(flags) + b1;
    NumberRoundTrip(flags, b1);
    OptionalHyperPeer(m.peer, b2);
    OptionalFixed(m.refresh, 32, b3);
    OptionalFixed(m.signature, 64, b4);
    ErrorCodeRoundTrip(m.bump, rest);
  }

  /** The bytes that the size pass reserves: one for the flags, whatever they are. */
  function AnnounceSize(m: Announce): nat
    requires m.Ok()
  {
    1 + (if m.peer.Some? then 32 + ListSize(m.peer.value.relays, 6) else 0) + (if m.refresh.Some? then 32 else 0) +
    (if m.signature.Some? then 64 else 0) + (if m.bump != 0 then |EncodeUint(m.bump)| else 0)
  }

  lemma AnnounceSizeExact(m: Announce)
    requires m.Ok()
    ensures AnnounceSize(m) == |EncodeAnnounce(m)|
  {
    hide EncodePeers, ListSize;
    SmallNumber(Flags(m.peer.Some?, m.refresh.Some?, m.signature.Some?, m.bump != 0, false));
    if m.peer.Some? {
      PeersSize(m.peer.value.relays);
    }
  }

  // ---------------------------------------------------------------- holepunch payload

  datatype HolepunchPayload = HolepunchPayload(
    error: u64, firewall: u64, round: u64, connected: bool, punching: bool, addresses: Option<seq<Peer>>,
    remoteAddress: Option<Peer>, token: Option<Bytes>, remoteToken: Option<Bytes>) {

    predicate Ok() {
      && (addresses.Some? ==> AllOk(addresses.value))
      && (remoteAddress.Some? ==> remoteAddress.value.Ok())
      && Fits(token, 32) && Fits(remoteToken, 32)
    }

    predicate Short() { ShortList(addresses) }

    function FlagBits(): byte {
      Flags(connected, punching, addresses.Some?, remoteAddress.Some?, token.Some?) + Flag(remoteToken.Some?, 32)
    }
  }

  lemma SixFlags(m: HolepunchPayload)
    ensures var f := m.FlagBits();
            && HasFlag(f, 1) == m.connected && HasFlag(f, 2) == m.punching && HasFlag(f, 4) == m.addresses.Some?
            && HasFlag(f, 8) == m.remoteAddress.Some? && HasFlag(f, 16) == m.token.Some?
            && HasFlag(f, 32) == m.remoteToken.Some? && f <= 0xfc
  {
  }

  function EncodeHolepunchTail(m: HolepunchPayload): Bytes
    requires m.Ok()
  {
    EncodeOptionalPeers(m.addresses) + EncodeOptionalPeer(m.remoteAddress) + Contents(m.token) + Contents(m.remoteToken)
  }

  function EncodeHolepunchPayload(m: HolepunchPayload): Bytes
    requires m.Ok()
  {
    EncodeUint(m.FlagBits()) + EncodeUint(m.error) + EncodeUint(m.firewall) + EncodeUint(m.round) +
    EncodeHolepunchTail(m)
  }

  function DecodeHolepunchPayload(b: Bytes): Parse<HolepunchPayload> {
    var (flags, b) :- DecodeNumber(b);
    var (error, b) :- DecodeNumber(b);
    var (firewall, b) :- DecodeNumber(b);
    var (round, b) :- DecodeNumber(b);
    var (addresses, b) :- DecodeOptional(HasFlag(flags, 4), DecodePeers(b), b);
    var (remoteAddress, b) :- DecodeOptional(HasFlag(flags, 8), DecodePeer(b), b);
    var (token, b) :- DecodeOptional(HasFlag(flags, 16), DecodeFixed(b, 32), b);
    var (remoteToken, b) :- DecodeOptional(HasFlag(flags, 32), DecodeFixed(b, 32), b);
    Got(HolepunchPayload(error, firewall, round, HasFlag(flags, 1), HasFlag(flags, 2), addresses, remoteAddress,
                         token, remoteToken), b)
  }

  /** A payload is read back exactly when its list of addresses is within the limit. Where a
      leading number is over 0xfc these are more bytes than the size pass reserves. */
  lemma HolepunchPayloadRoundTrip(m: HolepunchPayload, rest: Bytes)
    requires m.Ok()
    ensures DecodeHolepunchPayload(EncodeHolepunchPayload(m) + rest) == Limited(m.Short(), m, rest)
  {
    SixFlags(m);
    hide DecodeNumber, DecodeFixed, DecodeOptional, DecodePeer, DecodePeers, EncodeUint, EncodeOptionalPeer,
         EncodeOptionalPeers, Flags, HasFlag;
    var b7 := Contents(m.remoteToken) + rest;
    var b6 := Contents(m.token) + b7;
    var b5 := EncodeOptionalPeer(m.remoteAddress) + b6;
    var b4 := EncodeOptionalPeers(m.addresses) + b5;
    var b3 := EncodeUint(m.round) + b4;
    var b2 := EncodeUint(m.firewall) + b3;
    var b1 := EncodeUint(m.error) + b2;
    assert EncodeHolepunchTail(m) + rest == b4;
    assert EncodeHolepunchPayload(m) + rest == EncodeUint(m.FlagBits()) + b1;
    NumberRoundTrip(m.FlagBits(), b1);
    NumberRoundTrip(m.error, b2);
    NumberRoundTrip(m.firewall, b3);
    NumberRoundTrip(m.round, b4);
    OptionalPeers(m.addresses, b5);
    OptionalPeer(m.remoteAddress, b6);
    OptionalFixed(m.token, 32, b7);
    OptionalFixed(m.remoteToken, 32, rest);
  }

  /** The bytes that the size pass of the payload reserves: one for each leading number. */
  function HolepunchPayloadSize(m: HolepunchPayload): nat
    requires m.Ok()
  {
    4 + (if m.addresses.Some? then |EncodeUint(|m.addresses.value|)| + |m.addresses.value| * 6 else 0) +
    (if m.remoteAddress.Some? then 6 else 0) + (if m.token.Some? then 32 else 0) +
    (if m.remoteToken.Some? then 32 else 0)
  }

  /** The reserved size is the written size exactly when each leading number fits in one byte. */
  lemma HolepunchPayloadSizeExact(m: HolepunchPayload)
    requires m.Ok()
    ensures HolepunchPayloadSize(m) <= |EncodeHolepunchPayload(m)|
    ensures HolepunchPayloadSize(m) == |EncodeHolepunchPayload(m)| <==>
            m.error <= 0xfc && m.firewall <= 0xfc && m.round <= 0xfc
  {
    SixFlags(m);
    if m.addresses.Some? {
      EachSize(m.addresses.value);
    }
    SmallNumber(m.FlagBits());
    SmallNumber(m.error);
    SmallNumber(m.firewall);
    SmallNumber(m.round);
  }

  // ---------------------------------------------------------------- noise payload

  datatype RelayInfo = RelayInfo(relay: Peer, peer: Peer) {
    predicate Ok() { relay.Ok() && peer.Ok() }
  }

  function EncodeRelays(rs: seq<RelayInfo>): Bytes {
    if rs == [] then [] else EncodePeer(rs[0].relay) + EncodePeer(rs[0].peer) + EncodeRelays(rs[1..])
  }

  function DecodeRelays(b: Bytes, n: nat): Parse<seq<RelayInfo>> {
    if n == 0 then Got([], b)
    else
      var (relay, b) :- DecodePeer(b);
      var (peer, b) :- DecodePeer(b);
      var (more, b) :- DecodeRelays(b, n - 1);
      Got([RelayInfo(relay, peer)] + more, b)
  }

  lemma {:induction false} RelaysRoundTrip(rs: seq<RelayInfo>, rest: Bytes)
    requires forall r :: r in rs ==> r.Ok()
    ensures DecodeRelays(EncodeRelays(rs) + rest, |rs|) == Got(rs, rest)
  {
    hide DecodePeer, EncodePeer;
    if rs == [] {
      assert EncodeRelays(rs) + rest == rest;
    } else {
      var b2 := EncodeRelays(rs[1..]) + rest;
      var b1 := EncodePeer(rs[0].peer) + b2;
      assert EncodeRelays(rs) + rest == EncodePeer(rs[0].relay) + b1;
      assert rs[0] in rs;
      PeerRoundTrip(rs[0].relay, b1);
      PeerRoundTrip(rs[0].peer, b2);
      RelaysRoundTrip(rs[1..], rest);
      assert [rs[0]] + rs[1..] == rs;
    }
  }

  datatype HolepunchInfo = HolepunchInfo(id: u64, relays: seq<RelayInfo>) {
    predicate Ok() { |relays| < TWO64 && forall r :: r in relays ==> r.Ok() }
  }

  datatype UdxInfo = UdxInfo(version: u64, reusableSocket: bool, id: u64, seqNumber: u64)

  datatype RelayThrough = RelayThrough(version: u64, publicKey: Bytes, token: Bytes) {
    predicate Ok() { |publicKey| == 32 && |token| == 32 }
  }

  function EncodeHolepunchInfo(m: Option<HolepunchInfo>): Bytes
    requires m.Some? ==> m.value.Ok()
  {
    if m.None? then [] else EncodeUint(m.value.id) + EncodeUint(|m.value.relays|) + EncodeRelays(m.value.relays)
  }

  function DecodeHolepunchInfo(b: Bytes): Parse<HolepunchInfo> {
    var (id, b) :- DecodeNumber(b);
    var (n, b) :- DecodeNumber(b);
    if n > MAX_ARRAY then Fail(ArrayTooLarge)
    else
      var (relays, b) :- DecodeRelays(b, n);
      Got(HolepunchInfo(id, relays), b)
  }

  lemma OptionalHolepunchInfo(m: Option<HolepunchInfo>, rest: Bytes)
    requires m.Some? ==> m.value.Ok()
    ensures var b := EncodeHolepunchInfo(m) + rest;
            DecodeOptional(m.Some?, DecodeHolepunchInfo(b), b) ==
            Limited(m.Some? ==> |m.value.relays| <= MAX_ARRAY, m, rest)
  {
    hide DecodeNumber, EncodeUint, DecodeRelays, EncodeRelays;
    if m.Some? {
      var b2 := EncodeRelays(m.value.relays) + rest;
      var b1 := EncodeUint(|m.value.relays|) + b2;
      assert EncodeHolepunchInfo(m) + rest == EncodeUint(m.value.id) + b1;
      NumberRoundTrip(m.value.id, b1);
      NumberRoundTrip(|m.value.relays|, b2);
      RelaysRoundTrip(m.value.relays, rest);
    } else {
      assert EncodeHolepunchInfo(m) + rest == rest;
    }
  }

  function EncodeUdx(m: Option<UdxInfo>): Bytes {
    if m.None? then []
    else
      EncodeUint(1) + EncodeUint(if m.value.reusableSocket then 1 else 0) + EncodeUint(m.value.id) +
      EncodeUint(m.value.seqNumber)
  }

  function DecodeUdx(b: Bytes): Parse<UdxInfo> {
    var (version, b) :- DecodeNumber(b);
    var (features, b) :- DecodeNumber(b);
    var (id, b) :- DecodeNumber(b);
    var (seqNumber, b) :- DecodeNumber(b);
    Got(UdxInfo(version, HasFlag(features, 1), id, seqNumber), b)
  }

  function NormalUdx(m: Option<UdxInfo>): Option<UdxInfo> {
    if m.None? then None else Some(m.value.(version := 1))
  }

  lemma OptionalUdx(m: Option<UdxInfo>, rest: Bytes)
    ensures var b := EncodeUdx(m) + rest;
            DecodeOptional(m.Some?, DecodeUdx(b), b) == Got(NormalUdx(m), rest)
  {
    hide DecodeNumber, EncodeUint;
    if m.Some? {
      var features := if m.value.reusableSocket then 1 else 0;
      var b3 := EncodeUint(m.value.seqNumber) + rest;
      var b2 := EncodeUint(m.value.id) + b3;
      var b1 := EncodeUint(features) + b2;
      assert EncodeUdx(m) + rest == EncodeUint(1) + b1;
      NumberRoundTrip(1, b1);
      NumberRoundTrip(features, b2);
      NumberRoundTrip(m.value.id, b3);
      NumberRoundTrip(m.value.seqNumber, rest);
    } else {
      assert EncodeUdx(m) + rest == rest;
    }
  }

  /** The secret-stream part is only a version, always written as one. */
  function EncodeSecretStream(version: Option<u64>): Bytes {
    if version.None? then [] else EncodeUint(1)
  }

  function NormalVersion(version: Option<u64>): Option<u64> {
    if version.None? then None else Some(1)
  }

  lemma OptionalSecretStream(version: Option<u64>, rest: Bytes)
    ensures var b := EncodeSecretStream(version) + rest;
            DecodeOptional(version.Some?, DecodeNumber(b), b) == Got(NormalVersion(version), rest)
  {
    NumberRoundTrip(1, rest);
    assert version.None? ==> EncodeSecretStream(version) + rest == rest;
  }

  function EncodeRelayThrough(m: Option<RelayThrough>): Bytes {
    if m.None? then [] else EncodeUint(1) + EncodeUint(0) + m.value.publicKey + m.value.token
  }

  function DecodeRelayThrough(b: Bytes): Parse<RelayThrough> {
    var (version, b) :- DecodeNumber(b);
    var (flags, b) :- DecodeNumber(b);
    var (publicKey, b) :- DecodeFixed(b, 32);
    var (token, b) :- DecodeFixed(b, 32);
    Got(RelayThrough(version, publicKey, token), b)
  }

  function NormalRelayThrough(m: Option<RelayThrough>): Option<RelayThrough> {
    if m.None? then None else Some(m.value.(version := 1))
  }

  lemma OptionalRelayThrough(m: Option<RelayThrough>, rest: Bytes)
    requires m.Some? ==> m.value.Ok()
    ensures var b := EncodeRelayThrough(m) + rest;
            DecodeOptional(m.Some?, DecodeRelayThrough(b), b) == Got(NormalRelayThrough(m), rest)
  {
    hide DecodeNumber, EncodeUint, DecodeFixed;
    if m.Some? {
      var b3 := m.value.token + rest;
      var b2 := m.value.publicKey + b3;
      var b1 := EncodeUint(0) + b2;
      assert EncodeRelayThrough(m) + rest == EncodeUint(1) + b1;
      NumberRoundTrip(1, b1);
      NumberRoundTrip(0, b2);
      FixedPrefix(m.value.publicKey, b3);
      FixedPrefix(m.value.token, rest);
    } else {
      assert EncodeRelayThrough(m) + rest == rest;
    }
  }

  datatype NoisePayload = NoisePayload(
    version: u64, error: u64, firewall: u64, holepunch: Option<HolepunchInfo>, addresses4: seq<Peer>,
    addresses6: seq<Peer>, udx: Option<UdxInfo>, secretStream: Option<u64>, relayThrough: Option<RelayThrough>,
    relayAddresses: Option<seq<Peer>>) {

    predicate Ok() {
      && (holepunch.Some? ==> holepunch.value.Ok())
      && AllOk(addresses4) && AllOk(addresses6, 16)
      && (relayThrough.Some? ==> relayThrough.value.Ok())
      && (relayAddresses.Some? ==> AllOk(relayAddresses.value))
    }

    predicate Short() {
      && (holepunch.Some? ==> |holepunch.value.relays| <= MAX_ARRAY)
      && |addresses4| <= MAX_ARRAY && |addresses6| <= MAX_ARRAY && ShortList(relayAddresses)
    }

    /** Every version is written, and so read back, as one. */
    function Normal(): NoisePayload {
      this.(version := 1, udx := NormalUdx(udx), secretStream := NormalVersion(secretStream),
            relayThrough := NormalRelayThrough(relayThrough))
    }

    function FlagBits(): byte {
      Flags(holepunch.Some?, addresses4 != [], addresses6 != [], udx.Some?, secretStream.Some?) +
      Flag(relayThrough.Some?, 32) + Flag(relayAddresses.Some?, 64)
    }
  }

  lemma SevenFlags(m: NoisePayload)
    ensures var f := m.FlagBits();
            && HasFlag(f, 1) == m.holepunch.Some? && HasFlag(f, 2) == (m.addresses4 != [])
            && HasFlag(f, 4) == (m.addresses6 != []) && HasFlag(f, 8) == m.udx.Some?
            && HasFlag(f, 16) == m.secretStream.Some? && HasFlag(f, 32) == m.relayThrough.Some?
            && HasFlag(f, 64) == m.relayAddresses.Some? && f <= 0xfc
  {
    var low := Flags(m.holepunch.Some?, m.addresses4 != [], m.addresses6 != [], m.udx.Some?, m.secretStream.Some?);
    assert low < 32;
    HighFlags(low, m.relayThrough.Some?, m.relayAddresses.Some?);
    hide Flags, HasFlag, Flag;
  }

  /** Adding the two high flags leaves the five low ones as they are. */
  lemma HighFlags(low: nat, f5: bool, f6: bool)
    requires low < 32
    ensures var f := low + Flag(f5, 32) + Flag(f6, 64);
            && HasFlag(f, 1) == HasFlag(low, 1) && HasFlag(f, 2) == HasFlag(low, 2) && HasFlag(f, 4) == HasFlag(low, 4)
            && HasFlag(f, 8) == HasFlag(low, 8) && HasFlag(f, 16) == HasFlag(low, 16)
            && HasFlag(f, 32) == f5 && HasFlag(f, 64) == f6 && f <= 0xfc
  {
    var h := Flag(f5, 1) + Flag(f6, 2);
    TopFlags(low, f5, f6);
    KeepsFlags(low, h);
    hide HasFlag;
  }

  lemma KeepsFlags(low: nat, h: nat)
    ensures HasFlag(low + 32 * h, 1) == HasFlag(low, 1) && HasFlag(low + 32 * h, 2) == HasFlag(low, 2)
    ensures HasFlag(low + 32 * h, 4) == HasFlag(low, 4) && HasFlag(low + 32 * h, 8) == HasFlag(low, 8)
    ensures HasFlag(low + 32 * h, 16) == HasFlag(low, 16)
  {
    SameParity(low, 16 * h);
    Halved(low, 16 * h);
    SameParity(low / 2, 8 * h);
    Halved(low / 2, 8 * h);
    SameParity(low / 4, 4 * h);
    Halved(low / 4, 4 * h);
    SameParity(low / 8, 2 * h);
    Halved(low / 8, 2 * h);
    SameParity(low / 16, h);
  }

  lemma SameParity(x: nat, m: nat)
    ensures (x + 2 * m) % 2 == x % 2
  {
  }

  lemma Halved(x: nat, m: nat)
    ensures (x + 2 * m) / 2 == x / 2 + m
  {
  }

  lemma TopFlags(low: nat, f5: bool, f6: bool)
    requires low < 32
    ensures HasFlag(low + Flag(f5, 32) + Flag(f6, 64), 32) == f5
    ensures HasFlag(low + Flag(f5, 32) + Flag(f6, 64), 64) == f6
  {
  }

  function EncodeNoiseTail(m: NoisePayload): Bytes
    requires m.Ok()
  {
    EncodeHolepunchInfo(m.holepunch) + EncodeList(m.addresses4) + EncodeList(m.addresses6) + EncodeUdx(m.udx) +
    EncodeSecretStream(m.secretStream) + EncodeRelayThrough(m.relayThrough) + EncodeOptionalPeers(m.relayAddresses)
  }

  function EncodeNoisePayload(m: NoisePayload): Bytes
    requires m.Ok()
  {
    EncodeUint(1) + EncodeUint(m.FlagBits()) + EncodeUint(m.error) + EncodeUint(m.firewall) + EncodeNoiseTail(m)
  }

  function DecodeNoiseTail(flags: u64, error: u64, firewall: u64, b: Bytes): Parse<NoisePayload> {
    var (holepunch, b) :- DecodeOptional(HasFlag(flags, 1), DecodeHolepunchInfo(b), b);
    var (addresses4, b) :- DecodeList(b, HasFlag(flags, 2));
    var (addresses6, b) :- DecodeList(b, HasFlag(flags, 4), 16);
    var (udx, b) :- DecodeOptional(HasFlag(flags, 8), DecodeUdx(b), b);
    var (secretStream, b) :- DecodeOptional(HasFlag(flags, 16), DecodeNumber(b), b);
    var (relayThrough, b) :- DecodeOptional(HasFlag(flags, 32), DecodeRelayThrough(b), b);
    var (relayAddresses, b) :- DecodeOptional(HasFlag(flags, 64), DecodePeers(b), b);
    Got(NoisePayload(1, error, firewall, holepunch, addresses4, addresses6, udx, secretStream, relayThrough,
                     relayAddresses), b)
  }

  function DecodeNoisePayload(b: Bytes): Parse<NoisePayload> {
    var (version, b) :- DecodeNumber(b);
    if version != 1 then Got(NoisePayload(version, 0, 0, None, [], [], None, None, None, None), b)
    else
      var (flags, b) :- DecodeNumber(b);
      var (error, b) :- DecodeNumber(b);
      var (firewall, b) :- DecodeNumber(b);
      DecodeNoiseTail(flags, error, firewall, b)
  }

  lemma NoiseTailRoundTrip(m: NoisePayload, rest: Bytes)
    requires m.Ok()
    ensures DecodeNoiseTail(m.FlagBits(), m.error, m.firewall, EncodeNoiseTail(m) + rest) ==
            Limited(m.Short(), m.Normal(), rest)
  {
    SevenFlags(m);
    hide DecodeOptional, DecodeHolepunchInfo, DecodeList, DecodeUdx, DecodeNumber, DecodeRelayThrough, DecodePeers,
         HasFlag, Flags;
    hide EncodeHolepunchInfo, EncodeList, EncodeUdx, EncodeSecretStream, EncodeRelayThrough, EncodeOptionalPeers;
    hide NormalUdx, NormalVersion, NormalRelayThrough;
    var b6 := EncodeOptionalPeers(m.relayAddresses) + rest;
    var b5 := EncodeRelayThrough(m.relayThrough) + b6;
    var b4 := EncodeSecretStream(m.secretStream) + b5;
    var b3 := EncodeUdx(m.udx) + b4;
    var b2 := EncodeList(m.addresses6) + b3;
    var b1 := EncodeList(m.addresses4) + b2;
    assert EncodeNoiseTail(m) + rest == EncodeHolepunchInfo(m.holepunch) + b1;
    OptionalHolepunchInfo(m.holepunch, b1);
    ListRoundTrip(m.addresses4, b2);
    ListRoundTrip(m.addresses6, b3, 16);
    OptionalUdx(m.udx, b4);
    OptionalSecretStream(m.secretStream, b5);
    OptionalRelayThrough(m.relayThrough, b6);
    OptionalPeers(m.relayAddresses, rest);
  }

  /** A payload is read back, with its versions as one, exactly when its four lists are within
      the limit. Where error or firewall are over 0xfc these are more bytes than the size pass
      reserves. */
  lemma NoisePayloadRoundTrip(m: NoisePayload, rest: Bytes)
    requires m.Ok()
    ensures DecodeNoisePayload(EncodeNoisePayload(m) + rest) == Limited(m.Short(), m.Normal(), rest)
  {
    hide DecodeNumber, EncodeUint, DecodeNoiseTail, EncodeNoiseTail, Flags, Flag;
    var b3 := EncodeNoiseTail(m) + rest;
    var b2 := EncodeUint(m.firewall) + b3;
    var b1 := EncodeUint(m.error) + b2;
    var b0 := EncodeUint(m.FlagBits()) + b1;
    assert EncodeNoisePayload(m) + rest == EncodeUint(1) + b0;
    NumberRoundTrip(1, b0);
    NumberRoundTrip(m.FlagBits(), b1);
    NumberRoundTrip(m.error, b2);
    NumberRoundTrip(m.firewall, b3);
    NoiseTailRoundTrip(m, rest);
  }

  lemma {:induction false} RelaysSize(rs: seq<RelayInfo>)
    requires forall r :: r in rs ==> r.Ok()
    ensures |EncodeRelays(rs)| == |rs| * 12
  {
    if rs != [] {
      assert rs[0] in rs;
      RelaysSize(rs[1..]);
    }
  }

  /** The bytes that the size pass reserves after the four leading numbers. */
  function NoiseTailSize(m: NoisePayload): nat
    requires m.Ok()
  {
    (if m.holepunch.Some? then
       |EncodeUint(m.holepunch.value.id)| + |EncodeUint(|m.holepunch.value.relays|)| + |m.holepunch.value.relays| * 12
     else 0) +
    (if m.addresses4 != [] then ListSize(m.addresses4, 6) else 0) +
    (if m.addresses6 != [] then ListSize(m.addresses6, 18) else 0) +
    (if m.udx.Some? then 2 + |EncodeUint(m.udx.value.id)| + |EncodeUint(m.udx.value.seqNumber)| else 0) +
    (if m.secretStream.Some? then 1 else 0) +
    (if m.relayThrough.Some? then 1 + 1 + 64 else 0) +
    (if m.relayAddresses.Some? then ListSize(m.relayAddresses.value, 6) else 0)
  }

  lemma NoiseTailSizeExact(m: NoisePayload)
    requires m.Ok()
    ensures NoiseTailSize(m) == |EncodeNoiseTail(m)|
  {
    hide EncodePeers, ListSize, EncodeRelays;
    if m.holepunch.Some? {
      RelaysSize(m.holepunch.value.relays);
    }
    PeersSize(m.addresses4);
    PeersSize(m.addresses6, 16);
    SmallNumber(1);
    SmallNumber(0);
    if m.relayAddresses.Some? {
      PeersSize(m.relayAddresses.value);
    }
  }

  /** The reserved size is the written size exactly when the error and firewall codes fit in a byte. */
  lemma NoisePayloadSizeExact(m: NoisePayload)
    requires m.Ok()
    ensures 4 + NoiseTailSize(m) == |EncodeNoisePayload(m)| <==> m.error <= 0xfc && m.firewall <= 0xfc
  {
    hide EncodeNoiseTail, NoiseTailSize;
    SevenFlags(m);
    NoiseTailSizeExact(m);
    SmallNumber(1);
    SmallNumber(m.FlagBits());
    SmallNumber(m.error);
    SmallNumber(m.firewall);
  }
}
