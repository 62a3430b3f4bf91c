/** Handshake routing between nodes with arbitrary forward tables. */
module RouterSpec {
  import opened Options
  import opened Codec
  import opened Messages
  import opened HyperMessages

  const FROM_CLIENT: u64 := 0
  const FROM_SERVER: u64 := 1
  const FROM_RELAY: u64 := 2
  const FROM_SECOND_RELAY: u64 := 3
  const REPLY: u64 := 4

  type Address = p: Peer | p.Ok() witness Peer([0, 0, 0, 0], 0)
  type Target = Bytes

  datatype Forward = Forward(relay: Option<Address>, hasServer: bool, inserted: nat)

  type Forwards = map<Target, Forward>

  /** Twenty minutes, in milliseconds. */
  const TTL: nat := 1200000

  predicate Live(f: Forward, now: nat) {
    f.hasServer || now <= f.inserted + TTL
  }

  function Lookup(m: Forwards, target: Option<Target>, now: nat): Option<Forward> {
    if target.Some? && target.value in m && Live(m[target.value], now) then Some(m[target.value]) else None
  }

  function HasServer(f: Option<Forward>): bool {
    f.Some? && f.value.hasServer
  }

  function RelayOf(f: Option<Forward>): Option<Address> {
    if f.Some? then f.value.relay else None
  }

  // ---------------------------------------------------------------- handshake

  datatype Action =
    | ForwardRequest(value: Bytes, to: Address)
    | ReplyTo(value: Bytes, to: Address)
    | HandleLocally(msg: Handshake)
    | CloserNodes
    | Ignore

  function Forwarded(mode: u64, noise: Bytes, peer: Option<Address>, relay: Option<Address>, to: Address): Action {
    var m := Handshake(mode, noise, peer, relay);
    if m.Ok() then ForwardRequest(EncodeHandshake(m), to) else Ignore
  }

  function AsAddress(p: Option<Peer>): Option<Address> {
    if p.Some? && p.value.Ok() then Some(p.value) else None
  }

  /** What a node that is not the server does with a handshake message. */
  function RelayHandshake(relay: Option<Address>, from: Address, hs: Handshake): Action {
    if hs.noise == [] then Ignore
    else if hs.mode == FROM_CLIENT then
      var via := if hs.relayAddress.Some? then AsAddress(hs.relayAddress) else relay;
      if via.Some? then Forwarded(FROM_RELAY, hs.noise, Some(from), None, via.value) else CloserNodes
    else if hs.mode == FROM_RELAY then
      if relay.Some? then
        Forwarded(FROM_SECOND_RELAY, hs.noise, AsAddress(hs.peerAddress), Some(from), relay.value)
      else Ignore
    else if hs.mode == FROM_SERVER then
      var client := AsAddress(hs.peerAddress);
      if client.Some? then
        (match Forwarded(REPLY, hs.noise, Some(from), None, client.value)
         case ForwardRequest(value, to) => ReplyTo(value, to)
         case a => a)
      else Ignore
    else Ignore
  }

  function RouteHandshake(m: Forwards, target: Option<Target>, from: Address, value: Bytes, now: nat): Action {
    match DecodeHandshake(value)
    case Fail(_) => Ignore
    case Got(hs, _) =>
      var f := Lookup(m, target, now);
      if HasServer(f) then
        if hs.mode == FROM_CLIENT || hs.mode == FROM_RELAY || hs.mode == FROM_SECOND_RELAY then
          HandleLocally(hs)
        else Ignore
      else RelayHandshake(RelayOf(f), from, hs)
  }

  /** The server's answer: back along the relay for a relayed handshake, else a reply. */
  function ServerReply(msg: Handshake, noise: Bytes): Handshake {
    if msg.mode == FROM_RELAY || msg.mode == FROM_SECOND_RELAY then Handshake(FROM_SERVER, noise, msg.peerAddress, None)
    else Handshake(REPLY, noise, None, None)
  }

  // ---------------------------------------------------------------- packets

  datatype Packet =
    | RequestPacket(from: Address, to: Address, tid: nat, target: Option<Target>, value: Option<Bytes>)
    | ResponsePacket(from: Address, to: Address, tid: nat, error: nat, value: Option<Bytes>)

  const ERR_UNKNOWN: nat := 1

  /** What a node sends when it handles a handshake request. A node forwards, or finishes the
      chain, without answering the request itself; a request that is ignored is answered with
      an error. `outcome` is what becomes of it at the server, if this node is one. */
  function Handle(m: Forwards, p: Packet, now: nat, outcome: Outcome): seq<Packet>
    requires p.RequestPacket?
  {
    if p.value.None? then [ResponsePacket(p.to, p.from, p.tid, ERR_UNKNOWN, None)]
    else
      match RouteHandshake(m, p.target, p.from, p.value.value, now)
      case ForwardRequest(value, to) => [RequestPacket(p.to, to, p.tid, p.target, Some(value))]
      case ReplyTo(value, to) => [ResponsePacket(p.to, to, p.tid, 0, Some(value))]
      case HandleLocally(msg) => ServerAnswer(p, msg, outcome)
      case CloserNodes => [ResponsePacket(p.to, p.from, p.tid, 0, None)]
      case Ignore => [ResponsePacket(p.to, p.from, p.tid, ERR_UNKNOWN, None)]
  }

  /** The server's handshake gives noise bytes, or declines, or its reply channel is dropped. */
  datatype Outcome = Gives(noise: Bytes) | Declines | Drops

  function ServerAnswer(p: Packet, msg: Handshake, outcome: Outcome): seq<Packet>
    requires p.RequestPacket?
  {
    if outcome.Drops? then [ResponsePacket(p.to, p.from, p.tid, ERR_UNKNOWN, None)]
    else if outcome.Declines? || !ServerReply(msg, outcome.noise).Ok() then
      [ResponsePacket(p.to, p.from, p.tid, 0, None)]
    else
      var value := EncodeHandshake(ServerReply(msg, outcome.noise));
      if msg.mode == FROM_RELAY || msg.mode == FROM_SECOND_RELAY then
        [RequestPacket(p.to, p.from, p.tid, p.target, Some(value))]
      else [ResponsePacket(p.to, p.from, p.tid, 0, Some(value))]
  }

  // ---------------------------------------------------------------- the client

  datatype HandshakeResult = HandshakeResult(noise: Bytes, relayed: bool, serverAddress: Peer, clientAddress: Address)

  function ValidateReply(value: Bytes, expected: Address, actual: Address): Option<HandshakeResult> {
    match DecodeHandshake(value)
    case Fail(_) => None
    case Got(hs, _) =>
      if hs.mode != REPLY || expected != actual || hs.noise == [] then None
      else Some(HandshakeResult(hs.noise, hs.peerAddress.Some?,
                                if hs.peerAddress.Some? then hs.peerAddress.value else expected, actual))
  }

  // ---------------------------------------------------------------- the forward table

  /** An announce makes the announcer the relay, unless this node is the server. */
  function Announced(m: Forwards, target: Target, from: Address, now: nat): Forwards {
    if HasServer(Lookup(m, Some(target), now)) then m else m[target := Forward(Some(from), false, now)]
  }

  function Registered(m: Forwards, target: Target, now: nat): Forwards {
    m[target := Forward(None, true, now)]
  }

  function Unregistered(m: Forwards, target: Target): Forwards {
    m - {target}
  }

  function Collected(m: Forwards, now: nat): Forwards {
    map t | t in m && Live(m[t], now) :: m[t]
  }

  // ---------------------------------------------------------------- holepunch

  datatype HolepunchAction =
    | ForwardPunch(value: Bytes, to: Address)
    | ReplyPunchTo(value: Bytes, to: Address)
    | PunchLocally(msg: Holepunch, peer: Peer)
    | IgnorePunch

  function RouteHolepunch(m: Forwards, target: Option<Target>, from: Address, value: Bytes, now: nat): HolepunchAction {
    match DecodeHolepunch(value)
    case Fail(_) => IgnorePunch
    case Got(hp, _) =>
      var f := Lookup(m, target, now);
      var next := Holepunch(if hp.mode == FROM_CLIENT then FROM_RELAY else REPLY, hp.id, hp.payload, Some(from));
      if hp.mode == FROM_CLIENT then
        var to := if hp.peerAddress.Some? then AsAddress(hp.peerAddress) else RelayOf(f);
        if to.Some? && next.Ok() then ForwardPunch(EncodeHolepunch(next), to.value) else IgnorePunch
      else if hp.mode == FROM_RELAY then
        if HasServer(f) && hp.peerAddress.Some? then PunchLocally(hp, hp.peerAddress.value) else IgnorePunch
      else if hp.mode == FROM_SERVER then
        var to := AsAddress(hp.peerAddress);
        if to.Some? && next.Ok() then ReplyPunchTo(EncodeHolepunch(next), to.value) else IgnorePunch
      else IgnorePunch
  }

  datatype HolepunchResult = HolepunchResult(from: Address, to: Address, payload: Bytes, peerAddress: Peer)

  function ValidatePunchReply(value: Bytes, expected: Address, actual: Address, to: Address): Option<HolepunchResult> {
    match DecodeHolepunch(value)
    case Fail(_) => None
    case Got(hp, _) =>
      if hp.mode != REPLY || expected != actual then None
      else Some(HolepunchResult(actual, to, hp.payload,
                                if hp.peerAddress.Some? then hp.peerAddress.value else expected))
  }
}
