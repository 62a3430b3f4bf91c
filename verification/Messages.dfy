/** The wire messages as functions on byte strings: each message is written as its fields in
    turn, with the flags saying which optional ones are there. */
module Messages {
  import opened Options
  import opened Codec

  /** Host bytes, four of them unless said otherwise, and a port. */
  datatype Peer = Peer(host: Bytes, port: u16) {
    predicate Ok(width: nat := 4) { |host| == width }
  }

  const MAX_ARRAY: nat := 1048576

  // ---------------------------------------------------------------- parts

  function DecodeOptional<T>(present: bool, found: Parse<T>, b: Bytes): Parse<Option<T>> {
    if present then
      var (value, rest) :- found;
      Got(Some(value), rest)
    else Got(None, b)
  }

  function EncodePeer(p: Peer): Bytes {
    p.host + LittleEndian(p.port, 2)
  }

  function DecodePeer(b: Bytes, width: nat := 4): Parse<Peer> {
    var (host, b) :- DecodeFixed(b, width);
    var (port, b) :- DecodeU16(b);
    Got(Peer(host, port), b)
  }

  function DecodeU16(b: Bytes): Parse<u16> {
    PowerValues();
    var (n, b) :- DecodeLittleEndian(b, 2);
    Got(n, b)
  }

  lemma U16RoundTrip(n: u16, rest: Bytes)
    ensures DecodeU16(LittleEndian(n, 2) + rest) == Got(n, rest)
  {
    PowerValues();
    LittleEndianPrefix(n, 2, rest);
  }

  lemma PeerRoundTrip(p: Peer, rest: Bytes, width: nat := 4)
    requires p.Ok(width)
    ensures DecodePeer(EncodePeer(p) + rest, width) == Got(p, rest)
  {
    assert EncodePeer(p) + rest == p.host + (LittleEndian(p.port, 2) + rest);
    FixedPrefix(p.host, LittleEndian(p.port, 2) + rest);
    U16RoundTrip(p.port, rest);
  }

  function EncodeEach(ps: seq<Peer>): Bytes {
    if ps == [] then [] else EncodePeer(ps[0]) + EncodeEach(ps[1..])
  }

  function DecodeEach(b: Bytes, n: nat, width: nat := 4): Parse<seq<Peer>> {
    if n == 0 then Got([], b)
    else
      var (p, b) :- DecodePeer(b, width);
      var (ps, b) :- DecodeEach(b, n - 1, width);
      Got([p] + ps, b)
  }

  predicate AllOk(ps: seq<Peer>, width: nat := 4) {
    |ps| < TWO64 && forall p :: p in ps ==> p.Ok(width)
  }

  lemma {:induction false} EachRoundTrip(ps: seq<Peer>, rest: Bytes, width: nat := 4)
    requires AllOk(ps, width)
    ensures DecodeEach(EncodeEach(ps) + rest, |ps|, width) == Got(ps, rest)
  {
    hide DecodePeer, EncodePeer;
    if ps != [] {
      var more := EncodeEach(ps[1..]) + rest;
      assert EncodeEach(ps) + rest == EncodePeer(ps[0]) + more;
      PeerRoundTrip(ps[0], more, width);
      EachRoundTrip(ps[1..], rest, width);
      assert [ps[0]] + ps[1..] == ps;
    } else {
      assert EncodeEach(ps) + rest == rest;
    }
  }

  lemma {:induction false} EachSize(ps: seq<Peer>, width: nat := 4)
    requires AllOk(ps, width)
    ensures |EncodeEach(ps)| == |ps| * (width + 2)
  {
    if ps != [] {
      assert ps[0] in ps && |EncodePeer(ps[0])| == width + 2;
      EachSize(ps[1..], width);
    }
  }

  function EncodePeers(ps: seq<Peer>): Bytes
    requires |ps| < TWO64
  {
    EncodeUint(|ps|) + EncodeEach(ps)
  }

  function DecodePeers(b: Bytes, width: nat := 4): Parse<seq<Peer>> {
    var (n, b) :- DecodeUint(b);
    if n > MAX_ARRAY then Fail(ArrayTooLarge) else DecodeEach(b, n, width)
  }

  /** The writer has no limit on a list; the reader takes it back exactly up to the maximum. */
  lemma PeersRoundTrip(ps: seq<Peer>, rest: Bytes, width: nat := 4)
    requires AllOk(ps, width)
    ensures DecodePeers(EncodePeers(ps) + rest, width) ==
            if |ps| <= MAX_ARRAY then Got(ps, rest) else Fail(ArrayTooLarge)
  {
    assert EncodePeers(ps) + rest == EncodeUint(|ps|) + (EncodeEach(ps) + rest);
    UintRoundTrip(|ps|, EncodeEach(ps) + rest);
    EachRoundTrip(ps, rest, width);
  }

  /** The optional fixed-size field: its bytes or nothing. */
  predicate Fits(o: Option<Bytes>, n: nat) {
    o.Some? ==> |o.value| == n
  }

  lemma OptionalFixed(o: Option<Bytes>, n: nat, rest: Bytes)
    requires Fits(o, n)
    ensures DecodeOptional(o.Some?, DecodeFixed(Contents(o) + rest, n), Contents(o) + rest) == Got(o, rest)
  {
    FixedPrefix(Contents(o), rest);
    assert Contents(o) == [] ==> Contents(o) + rest == rest;
  }

  // ---------------------------------------------------------------- flags

  function Flag(set_: bool, bit: nat): nat {
    if set_ then bit else 0
  }

  predicate HasFlag(flags: nat, bit: nat)
    requires bit > 0
  {
    flags / bit % 2 == 1
  }

  function Flags(f0: bool, f1: bool, f2: bool, f3: bool, f4: bool): (n: byte)
    ensures HasFlag(n, 1) == f0 && HasFlag(n, 2) == f1 && HasFlag(n, 4) == f2 && HasFlag(n, 8) == f3 &&
            HasFlag(n, 16) == f4
  {
    Flag(f0, 1) + Flag(f1, 2) + Flag(f2, 4) + Flag(f3, 8) + Flag(f4, 16)
  }

  // ---------------------------------------------------------------- requests and responses

  const VERSION: int := 3
  const REQUEST_ID: byte := 0x03
  const RESPONSE_ID: byte := 0x13

  datatype Request = Request(tid: u16, to: Peer, id: Option<Bytes>, token: Option<Bytes>, internal: bool,
                             command: u64, target: Option<Bytes>, value: Option<Bytes>) {
    predicate Ok() {
      to.Ok() && Fits(id, 32) && Fits(token, 32) && Fits(target, 32) && Sized(Contents(value))
    }

    /** What a reader sees: an empty value is an absent one. */
    function Normal(): Request {
      this.(value := Seen(value))
    }

    function FlagByte(): byte {
      Flags(id.Some?, token.Some?, internal, target.Some?, value.Some?)
    }
  }

  datatype Response = Response(tid: u16, to: Peer, id: Option<Bytes>, token: Option<Bytes>, closer: seq<Peer>,
                               error: u64, value: Option<Bytes>) {
    predicate Ok() {
      to.Ok() && Fits(id, 32) && Fits(token, 32) && AllOk(closer) && Sized(Contents(value))
    }

    function Normal(): Response {
      this.(value := Seen(value))
    }

    function FlagByte(): byte {
      Flags(id.Some?, token.Some?, closer != [], error != 0, value.Some?)
    }
  }

  datatype Message = Ask(request: Request) | Answer(response: Response)

  function EncodeValue(value: Option<Bytes>): Bytes
    requires Sized(Contents(value))
  {
    if value.Some? then EncodeBuffer(value.value) else []
  }

  function DecodeValue(b: Bytes, present: bool): Parse<Option<Bytes>> {
    if present then DecodeBuffer(b) else Got(None, b)
  }

  lemma ValueRoundTrip(value: Option<Bytes>, rest: Bytes)
    requires Sized(Contents(value))
    ensures DecodeValue(EncodeValue(value) + rest, value.Some?) == Got(Seen(value), rest)
  {
    if value.Some? {
      BufferRoundTrip(value, rest);
    } else {
      assert EncodeValue(value) + rest == rest;
    }
  }

  /** What every message starts with. */
  datatype Head = Head(kind: byte, flags: byte, tid: u16, to: Peer, id: Option<Bytes>, token: Option<Bytes>)

  function EncodeHead(h: Head): Bytes {
    [h.kind, h.flags] + LittleEndian(h.tid, 2) + EncodePeer(h.to) + Contents(h.id) + Contents(h.token)
  }

  function DecodeHead(b: Bytes): Parse<Head> {
    if b == [] then Fail(OutOfBounds)
    else if b[0] % 16 != VERSION then Fail(BadVersion)
    else if |b| == 1 then Fail(OutOfBounds)
    else
      var kind, flags := b[0], b[1];
      var (tid, b) :- DecodeU16(b[2..]);
      var (to, b) :- DecodePeer(b);
      var (id, b) :- DecodeOptional(HasFlag(flags, 1), DecodeFixed(b, 32), b);
      var (token, b) :- DecodeOptional(HasFlag(flags, 2), DecodeFixed(b, 32), b);
      Got(Head(kind, flags, tid, to, id, token), b)
  }

  lemma HeadRoundTrip(h: Head, rest: Bytes)
    requires h.kind % 16 == VERSION && h.to.Ok() && Fits(h.id, 32) && Fits(h.token, 32)
    requires HasFlag(h.flags, 1) == h.id.Some? && HasFlag(h.flags, 2) == h.token.Some?
    ensures DecodeHead(EncodeHead(h) + rest) == Got(h, rest)
  {
    hide DecodeU16, DecodePeer, DecodeFixed, DecodeOptional, EncodePeer, LittleEndian, HasFlag;
    var b3 := Contents(h.token) + rest;
    var b2 := Contents(h.id) + b3;
    var b1 := EncodePeer(h.to) + b2;
    var b := EncodeHead(h) + rest;
    assert b == [h.kind, h.flags] + (LittleEndian(h.tid, 2) + b1);
    assert b[2..] == LittleEndian(h.tid, 2) + b1;
    U16RoundTrip(h.tid, b1);
    PeerRoundTrip(h.to, b2);
    OptionalFixed(h.id, 32, b3);
    OptionalFixed(h.token, 32, rest);
  }

  function EncodeRequest(r: Request): Bytes
    requires r.Ok()
  {
    EncodeHead(Head(REQUEST_ID, r.FlagByte(), r.tid, r.to, r.id, r.token)) +
    EncodeUint(r.command) + Contents(r.target) + EncodeValue(r.value)
  }

  function EncodeResponse(r: Response): Bytes
    requires r.Ok()
  {
    EncodeHead(Head(RESPONSE_ID, r.FlagByte(), r.tid, r.to, r.id, r.token)) +
    (if r.closer != [] then EncodePeers(r.closer) else []) +
    (if r.error != 0 then EncodeUint(r.error) else []) +
    EncodeValue(r.value)
  }

  function DecodeRequestBody(h: Head, b: Bytes): Parse<Message> {
    UintRange(b);
    var (command, b) :- DecodeUint(b);
    var (target, b) :- DecodeOptional(HasFlag(h.flags, 8), DecodeFixed(b, 32), b);
    var (value, b) :- DecodeValue(b, HasFlag(h.flags, 16));
    Got(Ask(Request(h.tid, h.to, h.id, h.token, HasFlag(h.flags, 4), command, target, value)), b)
  }

  function DecodeCloser(b: Bytes, present: bool): Parse<seq<Peer>> {
    if present then DecodePeers(b) else Got([], b)
  }

  function DecodeErrorCode(b: Bytes, present: bool): Parse<u64> {
    UintRange(b);
    if present then DecodeUint(b) else Got(0, b)
  }

  function DecodeResponseBody(h: Head, b: Bytes): Parse<Message> {
    var (closer, b) :- DecodeCloser(b, HasFlag(h.flags, 4));
    var (error, b) :- DecodeErrorCode(b, HasFlag(h.flags, 8));
    var (value, b) :- DecodeValue(b, HasFlag(h.flags, 16));
    Got(Answer(Response(h.tid, h.to, h.id, h.token, closer, error, value)), b)
  }

  function DecodeMessage(b: Bytes): Parse<Message> {
    var (h, b) :- DecodeHead(b);
    if h.kind / 16 != 0 then DecodeResponseBody(h, b) else DecodeRequestBody(h, b)
  }

  /** A request read back from the front of any longer input is the request that was written. */
  lemma RequestRoundTrip(r: Request, rest: Bytes)
    requires r.Ok()
    ensures DecodeMessage(EncodeRequest(r) + rest) == Got(Ask(r.Normal()), rest)
  {
    hide DecodeHead, EncodeHead, DecodeUint, DecodeFixed, DecodeOptional, DecodeValue, EncodeValue, EncodeUint,
         HasFlag, Flags;
    var h := Head(REQUEST_ID, r.FlagByte(), r.tid, r.to, r.id, r.token);
    var b2 := EncodeValue(r.value) + rest;
    var b1 := Contents(r.target) + b2;
    var b0 := EncodeUint(r.command) + b1;
    assert EncodeRequest(r) + rest == EncodeHead(h) + b0;
    HeadRoundTrip(h, b0);
    UintRoundTrip(r.command, b1);
    OptionalFixed(r.target, 32, b2);
    ValueRoundTrip(r.value, rest);
  }

  lemma CloserRoundTrip(closer: seq<Peer>, rest: Bytes)
    requires AllOk(closer)
    ensures DecodeCloser((if closer != [] then EncodePeers(closer) else []) + rest, closer != []) ==
            if |closer| <= MAX_ARRAY then Got(closer, rest) else Fail(ArrayTooLarge)
  {
    if closer != [] {
      PeersRoundTrip(closer, rest);
    } else {
      assert [] + rest == rest;
    }
  }

  lemma ErrorCodeRoundTrip(error: u64, rest: Bytes)
    ensures DecodeErrorCode((if error != 0 then EncodeUint(error) else []) + rest, error != 0) == Got(error, rest)
  {
    if error != 0 {
      UintRoundTrip(error, rest);
    } else {
      assert [] + rest == rest;
    }
  }

  /** A response is read back exactly when its list of closer nodes is within the limit. */
  lemma ResponseRoundTrip(r: Response, rest: Bytes)
    requires r.Ok()
    ensures DecodeMessage(EncodeResponse(r) + rest) ==
            if |r.closer| <= MAX_ARRAY then Got(Answer(r.Normal()), rest) else Fail(ArrayTooLarge)
  {
    hide DecodeHead, EncodeHead, DecodeCloser, DecodeErrorCode, DecodeValue, EncodeValue, EncodeUint, EncodePeers,
         HasFlag, Flags;
    var h := Head(RESPONSE_ID, r.FlagByte(), r.tid, r.to, r.id, r.token);
    var b2 := EncodeValue(r.value) + rest;
    var b1 := (if r.error != 0 then EncodeUint(r.error) else []) + b2;
    var b0 := (if r.closer != [] then EncodePeers(r.closer) else []) + b1;
    assert EncodeResponse(r) + rest == EncodeHead(h) + b0;
    HeadRoundTrip(h, b0);
    CloserRoundTrip(r.closer, b1);
    ErrorCodeRoundTrip(r.error, b2);
    ValueRoundTrip(r.value, rest);
  }
}
