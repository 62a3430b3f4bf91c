/** The encoding state: a buffer with a read or write position, moved by every call. Writers
    are proved to append the byte string `Codec` or `Messages` gives for the value, and
    readers to take back what their decoding functions take. */
module Cursor {
  import opened Options
  import opened Codec
  import opened Messages

  datatype Result<+T> = Ok(value: T) | Err(error: Error) {
    predicate IsFailure() {
      Err?
    }

    function PropagateFailure<U>(): Result<U>
      requires Err?
    {
      Err(error)
    }

    function Extract(): T
      requires Ok?
    {
      value
    }
  }

  /** A reader's report agrees with `p`, and if it is a value then `left` is what follows it. */
  ghost predicate Reports<T(!new)>(r: Result<T>, left: Bytes, p: Parse<T>) {
    match p
    case Got(value, rest) => r == Ok(value) && left == rest
    case Fail(e) => r == Err(e)
  }

  class EncodingState {
    var start: nat
    var end: nat
    var buffer: Bytes

    /** What has been written so far. */
    ghost function Written(): Bytes
      requires start <= |buffer|
      reads this
    {
      buffer[..start]
    }

    ghost predicate Readable()
      reads this
    {
      start <= end <= |buffer|
    }

    /** What is left to read. */
    ghost function Left(): Bytes
      requires Readable()
      reads this
    {
      buffer[start..end]
    }

    constructor ()
      ensures start == 0 && end == 0 && buffer == []
    {
      start, end, buffer := 0, 0, [];
    }

    constructor FromBuffer(data: Bytes)
      ensures Readable() && start == 0 && Left() == data
    {
      start, end, buffer := 0, |data|, data;
    }

    method Alloc()
      modifies this`buffer
      ensures |buffer| == if |old(buffer)| < end then end else |old(buffer)|
      ensures old(buffer) <= buffer
    {
      if |buffer| < end {
        buffer := buffer + seq(end - |buffer|, _ => 0);
      }
    }

    // -------------------------------------------------------------- writing

    /** Copy bytes to the position and move past them; there has to be room. */
    method WriteBytes(data: Bytes)
      requires start + |data| <= |buffer|
      modifies this`start, this`buffer
      ensures |buffer| == |old(buffer)| && start == old(start) + |data|
      ensures Written() == old(Written()) + data
    {
      buffer := buffer[..start] + data + buffer[start + |data|..];
      start := start + |data|;
      assert buffer[..start] == old(buffer[..start]) + data;
    }

    method WriteUint8(v: byte)
      requires start + 1 <= |buffer|
      modifies this`start, this`buffer
      ensures |buffer| == |old(buffer)| && start == old(start) + 1
      ensures Written() == old(Written()) + [v]
    {
      buffer := buffer[start := v];
      start := start + 1;
      assert buffer[..start] == old(buffer[..start]) + [v];
    }

    method WriteUint16(v: u16)
      requires start + 2 <= |buffer|
      modifies this`start, this`buffer
      ensures |buffer| == |old(buffer)| && start == old(start) + 2
      ensures Written() == old(Written()) + LittleEndian(v, 2)
    {
      buffer := buffer[start := v % 256];
      buffer := buffer[start + 1 := v / 256];
      start := start + 2;
      assert LittleEndian(v, 2) == [v % 256, v / 256] by {
        assert LittleEndian(v / 256, 1) == [v / 256 % 256];
      }
      assert buffer[..start] == old(buffer[..start]) + [v % 256, v / 256];
    }

    method WriteUint32(v: u32)
      requires start + 4 <= |buffer|
      modifies this`start, this`buffer
      ensures |buffer| == |old(buffer)| && start == old(start) + 4
      ensures Written() == old(Written()) + LittleEndian(v, 4)
    {
      WriteBytes(LittleEndian(v, 4));
    }

    /** The low half and then the high half. */
    method WriteUint64(v: u64)
      requires start + 8 <= |buffer|
      modifies this`start, this`buffer
      ensures |buffer| == |old(buffer)| && start == old(start) + 8
      ensures Written() == old(Written()) + LittleEndian(v, 8)
    {
      hide LittleEndian;
      WriteUint32(v % TWO32);
      WriteUint32(v / TWO32);
      Halves(v);
    }

    method PreencodeUint(n: u64)
      modifies this`end
      ensures end == old(end) + |EncodeUint(n)|
    {
      if n <= 0xfc {
        end := end + 1;
      } else if n <= 0xffff {
        end := end + 3;
      } else if n <= 0xffff_ffff {
        end := end + 5;
      } else {
        end := end + 9;
      }
    }

    method WriteUint(n: u64)
      requires start + |EncodeUint(n)| <= |buffer|
      modifies this`start, this`buffer
      ensures |buffer| == |old(buffer)| && start == old(start) + |EncodeUint(n)|
      ensures Written() == old(Written()) + EncodeUint(n)
    {
      hide LittleEndian;
      if n <= 0xfc {
        WriteUint8(n);
      } else if n <= 0xffff {
        WriteUint8(0xfd);
        WriteUint16(n);
      } else if n <= 0xffff_ffff {
        WriteUint8(0xfe);
        WriteUint32(n);
      } else {
        WriteUint8(0xff);
        WriteUint64(n);
      }
    }

    method PreencodeBuffer(b: Option<Bytes>)
      requires Sized(Contents(b))
      modifies this`end
      ensures end == old(end) + |EncodeBuffer(Contents(b))|
    {
      match b
      case Some(d) =>
        PreencodeUint(|d|);
        end := end + |d|;
      case None =>
        end := end + 1;
    }

    method WriteBuffer(b: Option<Bytes>)
      requires Sized(Contents(b)) && start + |EncodeBuffer(Contents(b))| <= |buffer|
      modifies this`start, this`buffer
      ensures |buffer| == |old(buffer)| && start == old(start) + |EncodeBuffer(Contents(b))|
      ensures Written() == old(Written()) + EncodeBuffer(Contents(b))
    {
      hide EncodeUint;
      match b
      case Some(d) =>
        WriteUint(|d|);
        WriteBytes(d);
      case None =>
        WriteUint8(0);
        assert EncodeBuffer([]) == [0] by { SmallZero(); }
    }

    method WritePeer(p: Peer)
      requires p.Ok() && start + 6 <= |buffer|
      modifies this`start, this`buffer
      ensures |buffer| == |old(buffer)| && start == old(start) + 6
      ensures Written() == old(Written()) + EncodePeer(p)
    {
      WriteBytes(p.host);
      WriteUint16(p.port);
    }

    method WritePeers(ps: seq<Peer>)
      requires AllOk(ps) && start + |EncodePeers(ps)| <= |buffer|
      modifies this`start, this`buffer
      ensures |buffer| == |old(buffer)| && start == old(start) + |EncodePeers(ps)|
      ensures Written() == old(Written()) + EncodePeers(ps)
    {
      hide EncodeUint, EncodePeer;
      EachSize(ps);
      WriteUint(|ps|);
      assert ps[..0] == [];
      ghost var head := Written();
      for i := 0 to |ps|
        invariant |buffer| == |old(buffer)| && start == old(start) + |EncodeUint(|ps|)| + 6 * i
        invariant Written() == head + EncodeEach(ps[..i])
      {
        assert ps[i] in ps;
        EachSnoc(ps, i);
        WritePeer(ps[i]);
      }
      assert ps[..|ps|] == ps;
    }

    // -------------------------------------------------------------- reading

    method ReadUint8() returns (r: Result<byte>)
      requires Readable()
      modifies this`start
      ensures Readable()
      ensures old(Left()) == [] ==> r == Err(OutOfBounds)
      ensures old(Left()) != [] ==> r == Ok(old(Left())[0]) && Left() == old(Left())[1..]
    {
      if end - start < 1 {
        r := Err(OutOfBounds);
      } else {
        r := Ok(buffer[start]);
        start := start + 1;
      }
    }

    method ReadFixed(n: nat) returns (r: Result<Bytes>)
      requires Readable()
      modifies this`start
      ensures Readable() && Reports(r, Left(), DecodeFixed(old(Left()), n))
    {
      if end - start < n {
        r := Err(OutOfBounds);
      } else {
        assert old(Left())[..n] == buffer[start..start + n];
        r := Ok(buffer[start..start + n]);
        start := start + n;
      }
    }

    method ReadUint16() returns (r: Result<u16>)
      requires Readable()
      modifies this`start
      ensures Readable() && Reports(r, Left(), DecodeU16(old(Left())))
    {
      if end - start < 2 {
        r := Err(OutOfBounds);
      } else {
        ghost var two := [buffer[start], buffer[start + 1]];
        var low: int, high: int := buffer[start], buffer[start + 1];
        r := Ok(low + 256 * high);
        start := start + 2;
        assert old(Left())[..2] == two;
        assert FromLittleEndian(two) == low + 256 * high by {
          assert FromLittleEndian(two[1..]) == two[1] by { assert FromLittleEndian(two[1..][1..]) == 0; }
        }
      }
    }

    method ReadUint32() returns (r: Result<nat>)
      requires Readable()
      modifies this`start
      ensures Readable() && Reports(r, Left(), DecodeLittleEndian(old(Left()), 4))
    {
      hide FromLittleEndian;
      if end - start < 4 {
        r := Err(OutOfBounds);
      } else {
        assert old(Left())[..4] == buffer[start..start + 4];
        r := Ok(FromLittleEndian(buffer[start..start + 4]));
        start := start + 4;
      }
    }

    /** The low half and then the high half. */
    method ReadUint64() returns (r: Result<nat>)
      requires Readable()
      modifies this`start
      ensures Readable() && Reports(r, Left(), DecodeLittleEndian(old(Left()), 8))
    {
      hide FromLittleEndian;
      if end - start < 8 {
        r := Err(OutOfBounds);
      } else {
        ghost var b := Left();
        var lo := ReadUint32();
        var hi := ReadUint32();
        r := Ok(lo.value + hi.value * TWO32);
        assert b[..8] == b[..4] + b[4..8] && b[4..][..4] == b[4..8];
        assert b[4..][4..] == b[8..];
        PowerValues();
        FromHalves(b[..4], b[4..8]);
      }
    }

    method ReadUint() returns (r: Result<u64>)
      requires Readable()
      modifies this`start
      ensures Readable() && Reports(r, Left(), DecodeUint(old(Left())))
    {
      hide FromLittleEndian;
      UintRange(Left());
      PowerValues();
      var a :- ReadUint8();
      if a <= 0xfc {
        r := Ok(a);
      } else if a == 0xfd {
        var v :- ReadUint16();
        r := Ok(v);
      } else if a == 0xfe {
        r := ReadUint32();
      } else {
        r := ReadUint64();
      }
    }

    method ReadBuffer() returns (r: Result<Option<Bytes>>)
      requires Readable()
      modifies this`start
      ensures Readable() && Reports(r, Left(), DecodeBuffer(old(Left())))
    {
      hide DecodeUint;
      var n :- ReadUint();
      if n == 0 {
        r := Ok(None);
      } else {
        var d :- ReadFixed(n);
        r := Ok(Some(d));
      }
    }

    method ReadPeer() returns (r: Result<Peer>)
      requires Readable()
      modifies this`start
      ensures Readable() && Reports(r, Left(), DecodePeer(old(Left())))
    {
      hide DecodeU16;
      var host :- ReadFixed(4);
      var port :- ReadUint16();
      r := Ok(Peer(host, port));
    }

    method ReadPeers() returns (r: Result<seq<Peer>>)
      requires Readable()
      modifies this`start
      ensures Readable() && Reports(r, Left(), DecodePeers(old(Left())))
    {
      hide DecodeUint, DecodePeer;
      var n :- ReadUint();
      if n > MAX_ARRAY {
        r := Err(ArrayTooLarge);
      } else {
        r := ReadEach(n);
      }
    }

    method ReadEach(n: nat) returns (r: Result<seq<Peer>>)
      requires Readable()
      modifies this`start
      ensures Readable() && Reports(r, Left(), DecodeEach(old(Left()), n))
    {
      hide DecodePeer;
      var ps: seq<Peer> := [];
      ghost var b := Left();
      ThenNone(DecodeEach(b, n));
      for i := 0 to n
        invariant Readable()
        invariant DecodeEach(b, n) == Then(ps, DecodeEach(Left(), n - i))
      {
        ghost var here := Left();
        var p := ReadPeer();
        if p.Err? {
          return Err(p.error);
        }
        ThenOne(ps, p.value, DecodeEach(Left(), n - i - 1));
        ps := ps + [p.value];
      }
      assert ps + [] == ps;
      r := Ok(ps);
    }

    // -------------------------------------------------------------- requests and responses

    method PreencodeRequest(r: Request)
      requires r.Ok()
      modifies this`end
      ensures end == old(end) + |EncodeRequest(r)|
    {
      hide EncodeUint, EncodeBuffer, LittleEndian, Flags;
      end := end + 1;
      end := end + 1;
      end := end + 2;
      end := end + 6;
      if r.id.Some? {
        end := end + 32;
      }
      if r.token.Some? {
        end := end + 32;
      }
      PreencodeUint(r.command);
      if r.target.Some? {
        end := end + 32;
      }
      if r.value.Some? {
        PreencodeBuffer(r.value);
      }
    }

    /** The type, flags, transaction id, destination, and the optional id and token. */
    method WriteHead(h: Head)
      requires h.to.Ok() && Fits(h.id, 32) && Fits(h.token, 32) && start + |EncodeHead(h)| <= |buffer|
      modifies this`start, this`buffer
      ensures |buffer| == |old(buffer)| && start == old(start) + |EncodeHead(h)|
      ensures Written() == old(Written()) + EncodeHead(h)
    {
      hide EncodePeer, LittleEndian;
      HeadSize(h);
      WriteUint8(h.kind);
      WriteUint8(h.flags);
      WriteUint16(h.tid);
      WritePeer(h.to);
      WriteOptional(h.id);
      WriteOptional(h.token);
    }

    method WriteOptional(b: Option<Bytes>)
      requires start + |Contents(b)| <= |buffer|
      modifies this`start, this`buffer
      ensures |buffer| == |old(buffer)| && start == old(start) + |Contents(b)|
      ensures Written() == old(Written()) + Contents(b)
    {
      if b.Some? {
        WriteBytes(b.value);
      }
    }

    method WriteValue(value: Option<Bytes>)
      requires Sized(Contents(value)) && start + |EncodeValue(value)| <= |buffer|
      modifies this`start, this`buffer
      ensures |buffer| == |old(buffer)| && start == old(start) + |EncodeValue(value)|
      ensures Written() == old(Written()) + EncodeValue(value)
    {
      hide EncodeBuffer;
      if value.Some? {
        WriteBuffer(value);
      }
    }

    method WriteRequest(r: Request)
      requires r.Ok() && start + |EncodeRequest(r)| <= |buffer|
      modifies this`start, this`buffer
      ensures |buffer| == |old(buffer)| && start == old(start) + |EncodeRequest(r)|
      ensures Written() == old(Written()) + EncodeRequest(r)
    {
      hide EncodeHead, EncodeUint, EncodeValue, Flags;
      var flags := r.FlagByte();
      WriteHead(Head(REQUEST_ID, flags, r.tid, r.to, r.id, r.token));
      WriteUint(r.command);
      WriteOptional(r.target);
      WriteValue(r.value);
    }

    method PreencodePeers(ps: seq<Peer>)
      requires AllOk(ps)
      modifies this`end
      ensures end == old(end) + |EncodePeers(ps)|
    {
      hide EncodeUint;
      EachSize(ps);
      PreencodeUint(|ps|);
      end := end + |ps| * 6;
    }

    method PreencodeResponse(r: Response)
      requires r.Ok()
      modifies this`end
      ensures end == old(end) + |EncodeResponse(r)|
    {
      hide EncodeUint, EncodeBuffer, LittleEndian, Flags, EncodePeers;
      end := end + 1;
      end := end + 1;
      end := end + 2;
      end := end + 6;
      if r.id.Some? {
        end := end + 32;
      }
      if r.token.Some? {
        end := end + 32;
      }
      if r.closer != [] {
        PreencodePeers(r.closer);
      }
      if r.error != 0 {
        PreencodeUint(r.error);
      }
      if r.value.Some? {
        PreencodeBuffer(r.value);
      }
    }

    method WriteResponse(r: Response)
      requires r.Ok() && start + |EncodeResponse(r)| <= |buffer|
      modifies this`start, this`buffer
      ensures |buffer| == |old(buffer)| && start == old(start) + |EncodeResponse(r)|
      ensures Written() == old(Written()) + EncodeResponse(r)
    {
      hide EncodeHead, EncodeUint, EncodeValue, Flags, EncodePeers;
      var flags := r.FlagByte();
      WriteHead(Head(RESPONSE_ID, flags, r.tid, r.to, r.id, r.token));
      if r.closer != [] {
        WritePeers(r.closer);
      }
      if r.error != 0 {
        WriteUint(r.error);
      }
      WriteValue(r.value);
    }

    method ReadOptional(present: bool, n: nat) returns (r: Result<Option<Bytes>>)
      requires Readable()
      modifies this`start
      ensures Readable() && Reports(r, Left(), DecodeOptional(present, DecodeFixed(old(Left()), n), old(Left())))
    {
      hide DecodeFixed;
      if present {
        var b :- ReadFixed(n);
        r := Ok(Some(b));
      } else {
        r := Ok(None);
      }
    }

    method ReadHead() returns (r: Result<Head>)
      requires Readable()
      modifies this`start
      ensures Readable() && Reports(r, Left(), DecodeHead(old(Left())))
    {
      hide DecodeU16, DecodePeer, DecodeOptional, DecodeFixed, HasFlag;
      var kind :- ReadUint8();
      if kind % 16 != VERSION {
        r := Err(BadVersion);
      } else {
        ghost var b := old(Left());
        var flags :- ReadUint8();
        assert Left() == b[2..];
        var tid :- ReadUint16();
        var to :- ReadPeer();
        var id :- ReadOptional(HasFlag(flags, 1), 32);
        var token :- ReadOptional(HasFlag(flags, 2), 32);
        r := Ok(Head(kind, flags, tid, to, id, token));
      }
    }

    method ReadRequestBody(h: Head) returns (r: Result<Message>)
      requires Readable()
      modifies this`start
      ensures Readable() && Reports(r, Left(), DecodeRequestBody(h, old(Left())))
    {
      hide DecodeUint, DecodeOptional, DecodeFixed, DecodeBuffer, HasFlag;
      var command :- ReadUint();
      var target :- ReadOptional(HasFlag(h.flags, 8), 32);
      var value := None;
      if HasFlag(h.flags, 16) {
        value :- ReadBuffer();
      }
      r := Ok(Ask(Request(h.tid, h.to, h.id, h.token, HasFlag(h.flags, 4), command, target, value)));
    }

    method ReadResponseBody(h: Head) returns (r: Result<Message>)
      requires Readable()
      modifies this`start
      ensures Readable() && Reports(r, Left(), DecodeResponseBody(h, old(Left())))
    {
      hide DecodeUint, DecodePeers, DecodeBuffer, HasFlag;
      var closer, error, value := [], 0, None;
      if HasFlag(h.flags, 4) {
        closer :- ReadPeers();
      }
      if HasFlag(h.flags, 8) {
        error :- ReadUint();
      }
      if HasFlag(h.flags, 16) {
        value :- ReadBuffer();
      }
      r := Ok(Answer(Response(h.tid, h.to, h.id, h.token, closer, error, value)));
    }
  }

  /** Put values already read in front of what is read next. */
  ghost function Then<T>(read: seq<T>, p: Parse<seq<T>>): Parse<seq<T>> {
    match p
    case Got(more, rest) => Got(read + more, rest)
    case Fail(e) => Fail(e)
  }

  lemma ThenNone<T>(p: Parse<seq<T>>)
    ensures Then([], p) == p
  {
    assert p.Got? ==> [] + p.value == p.value;
  }

  lemma ThenOne<T>(read: seq<T>, x: T, more: Parse<seq<T>>)
    ensures Then(read, Then([x], more)) == Then(read + [x], more)
  {
    if more.Got? {
      assert read + ([x] + more.value) == read + [x] + more.value;
    }
  }

  /** Size the message, make room for it, and write it: the room is exactly used. */
  method RequestToBytes(r: Request) returns (b: Bytes)
    requires r.Ok()
    ensures b == EncodeRequest(r)
  {
    hide EncodeRequest;
    var state := new EncodingState();
    state.PreencodeRequest(r);
    state.Alloc();
    state.WriteRequest(r);
    b := state.buffer;
    assert state.Written() == b;
  }

  method ResponseToBytes(r: Response) returns (b: Bytes)
    requires r.Ok()
    ensures b == EncodeResponse(r)
  {
    hide EncodeResponse;
    var state := new EncodingState();
    state.PreencodeResponse(r);
    state.Alloc();
    state.WriteResponse(r);
    b := state.buffer;
    assert state.Written() == b;
  }

  /** Reading back any bytes that start with a written message. */
  method MessageFromBytes(b: Bytes) returns (r: Result<Message>)
    ensures match DecodeMessage(b) case Got(m, _) => r == Ok(m) case Fail(e) => r == Err(e)
  {
    hide DecodeHead, DecodeRequestBody, DecodeResponseBody;
    var state := new EncodingState.FromBuffer(b);
    var h :- state.ReadHead();
    if h.kind / 16 != 0 {
      r := state.ReadResponseBody(h);
    } else {
      r := state.ReadRequestBody(h);
    }
  }

  lemma HeadSize(h: Head)
    requires h.to.Ok()
    ensures |EncodeHead(h)| == 10 + |Contents(h.id)| + |Contents(h.token)|
  {
  }

  lemma SmallZero()
    ensures EncodeUint(0) == [0]
  {
  }

  lemma {:induction false} EachSnoc(ps: seq<Peer>, i: nat)
    requires i < |ps|
    ensures EncodeEach(ps[..i + 1]) == EncodeEach(ps[..i]) + EncodePeer(ps[i])
  {
    hide EncodePeer;
    if i == 0 {
      assert ps[..1] == [ps[0]] && ps[..0] == [];
      assert EncodeEach([ps[0]][1..]) == [];
    } else {
      EachSnoc(ps[1..], i - 1);
      assert ps[..i + 1][1..] == ps[1..][..i] && ps[..i][1..] == ps[1..][..i - 1];
    }
  }

  lemma {:induction false} FromHalves(a: Bytes, b: Bytes)
    ensures FromLittleEndian(a + b) == FromLittleEndian(a) + Pow256(|a|) * FromLittleEndian(b)
  {
    if a == [] {
      assert a + b == b;
    } else {
      FromHalves(a[1..], b);
      assert (a + b)[1..] == a[1..] + b;
      Regroup(Pow256(|a| - 1), FromLittleEndian(b));
    }
  }

  lemma Regroup(p: nat, n: nat)
    ensures 256 * (p * n) == 256 * p * n
  {
  }
}
