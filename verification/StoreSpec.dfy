/** The mutable and immutable record stores of a node. Hashing and signatures are arbitrary
    functions. */
module StoreSpec {
  import opened Options
  import opened Codec
  import opened Messages
  import opened HyperMessages

  /** A hash, a signature check (signature, message, public key), and the message that is
      signed for a sequence number and a value. */
  datatype Crypto = Crypto(hash: Bytes -> Bytes, verify: (Bytes, Bytes, Bytes) -> bool, signable: (u64, Bytes) -> Bytes)

  // ---------------------------------------------------------------- messages

  datatype Record = Record(seqNumber: u64, value: Bytes, signature: Bytes) {
    predicate Ok() { Sized(value) && |signature| == 64 }
  }

  function EncodeRecord(r: Record): Bytes
    requires r.Ok()
  {
    EncodeUint(r.seqNumber) + EncodeBuffer(r.value) + r.signature
  }

  function DecodeRecord(b: Bytes): (p: Parse<Record>)
    ensures p.Got? ==> p.value.Ok()
  {
    var (seqNumber, b) :- DecodeNumber(b);
    var (value, b) :- DecodeBuffer(b);
    var (signature, b) :- DecodeFixed(b, 64);
    Got(Record(seqNumber, Contents(value), signature), b)
  }

  lemma RecordRoundTrip(r: Record, rest: Bytes)
    requires r.Ok()
    ensures DecodeRecord(EncodeRecord(r) + rest) == Got(r, rest)
  {
    hide DecodeNumber, DecodeBuffer, DecodeFixed, EncodeUint, EncodeBuffer;
    var b2 := r.signature + rest;
    var b1 := EncodeBuffer(r.value) + b2;
    assert EncodeRecord(r) + rest == EncodeUint(r.seqNumber) + b1;
    NumberRoundTrip(r.seqNumber, b1);
    BufferRoundTrip(Some(r.value), b2);
    FixedPrefix(r.signature, rest);
  }

  datatype Put = Put(publicKey: Bytes, record: Record)

  function DecodePut(b: Bytes): Parse<Put> {
    var (publicKey, b) :- DecodeFixed(b, 32);
    var (record, b) :- DecodeRecord(b);
    Got(Put(publicKey, record), b)
  }

  // ---------------------------------------------------------------- caches

  datatype Cached = Cached(value: Bytes, insertedAt: nat)

  type Cache = map<Bytes, Cached>

  datatype Limits = Limits(maxSize: nat, maxAge: nat) {
    /** A store of size zero still keeps what was put last. */
    function Room(): nat { if maxSize == 0 then 1 else maxSize }
  }

  function Get(l: Limits, m: Cache, key: Bytes, now: nat): Option<Bytes> {
    if key in m && now < m[key].insertedAt + l.maxAge then Some(m[key].value) else None
  }

  predicate IsOldest(m: Cache, key: Bytes) {
    key in m && forall k :: k in m ==> m[key].insertedAt <= m[k].insertedAt
  }

  /** At capacity the oldest entry makes room; `victim` says which of equally old ones. */
  function Set(l: Limits, m: Cache, key: Bytes, value: Bytes, now: nat, victim: Bytes): Cache {
    (if |m| >= l.maxSize then m - {victim} else m)[key := Cached(value, now)]
  }

  predicate CanSet(l: Limits, m: Cache, victim: Bytes) {
    |m| >= l.maxSize && m != map[] ==> IsOldest(m, victim)
  }

  // ---------------------------------------------------------------- requests

  datatype Request = Request(target: Option<Bytes>, token: Option<Bytes>, value: Option<Bytes>)

  datatype Reply = Value(value: Option<Bytes>) | Refused(code: nat) | Silent

  const SEQ_REUSED: nat := 16
  const SEQ_TOO_LOW: nat := 17

  /** A put that is signed by the owner of the target. */
  function Accepted(c: Crypto, req: Request): Option<Put> {
    if req.target.None? || req.token.None? || req.value.None? then None
    else
      match DecodePut(req.value.value)
      case Fail(_) => None
      case Got(put, _) =>
        if c.hash(put.publicKey) != req.target.value then None
        else if !c.verify(put.record.signature, c.signable(put.record.seqNumber, put.record.value), put.publicKey) then
          None
        else Some(put)
  }

  /** The sequence number of the live record, if there is one that can be read. */
  function LiveSeq(l: Limits, m: Cache, target: Bytes, now: nat): Option<u64> {
    match Get(l, m, target, now)
    case None => None
    case Some(b) => if DecodeRecord(b).Got? then Some(DecodeRecord(b).value.seqNumber) else None
  }

  function MutablePut(c: Crypto, l: Limits, m: Cache, req: Request, now: nat, victim: Bytes): (Cache, Reply) {
    match Accepted(c, req)
    case None => (m, Silent)
    case Some(put) =>
      var live := LiveSeq(l, m, req.target.value, now);
      if live == Some(put.record.seqNumber) then (m, Refused(SEQ_REUSED))
      else if live.Some? && live.value > put.record.seqNumber then (m, Refused(SEQ_TOO_LOW))
      else (Set(l, m, req.target.value, EncodeRecord(put.record), now, victim), Value(None))
  }

  function RequestedSeq(value: Bytes): nat {
    if DecodeUint(value).Got? then DecodeUint(value).value else 0
  }

  function MutableGet(l: Limits, m: Cache, req: Request, now: nat): Reply {
    if req.target.None? || req.value.None? then Silent
    else
      var live := LiveSeq(l, m, req.target.value, now);
      if live.Some? && live.value >= RequestedSeq(req.value.value) then
        Value(Get(l, m, req.target.value, now))
      else Value(None)
  }

  function ImmutablePut(c: Crypto, l: Limits, m: Cache, req: Request, now: nat, victim: Bytes): (Cache, Reply) {
    if req.target.None? || req.token.None? || req.value.None? || c.hash(req.value.value) != req.target.value then
      (m, Silent)
    else (Set(l, m, req.target.value, req.value.value, now, victim), Value(None))
  }

  function ImmutableGet(l: Limits, m: Cache, req: Request, now: nat): Reply {
    if req.target.None? then Silent else Value(Get(l, m, req.target.value, now))
  }
}
