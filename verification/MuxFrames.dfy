/** Protomux frames on the wire. */
module MuxFrames {
  import opened Options
  import opened Codec

  /** One message of a batch: the channel and the encoded type and payload. */
  datatype Item = Item(channel: u64, data: Bytes)

  datatype Frame =
    | Open(localId: u64, protocol: Bytes, id: Option<Bytes>, handshake: Option<Bytes>)
    | Close(localId: u64)
    | Reject(remoteId: u64)
    | Batch(items: seq<Item>)
    | Message(channel: u64, kind: u64, payload: Bytes)

  predicate FrameOk(f: Frame) {
    match f
    case Open(_, protocol, id, _) => Sized(protocol) && Sized(Contents(id))
    case Batch(items) => forall i :: 0 <= i < |items| ==> Sized(items[i].data)
    case _ => true
  }

  // ---------------------------------------------------------------- writing

  /** Items in turn; a zero byte announces a change of channel. */
  function EncodeItems(items: seq<Item>, current: u64): Bytes
    requires FrameOk(Batch(items))
  {
    if items == [] then []
    else
      (if items[0].channel != current then [0] + EncodeUint(items[0].channel) else []) +
      EncodeBuffer(items[0].data) + EncodeItems(items[1..], items[0].channel)
  }

  function EncodeFrame(f: Frame): Bytes
    requires FrameOk(f)
  {
    match f
    case Open(localId, protocol, id, handshake) =>
      [0, 1] + EncodeUint(localId) + EncodeBuffer(protocol) + EncodeBuffer(Contents(id)) + Contents(handshake)
    case Close(localId) => [0, 3] + EncodeUint(localId)
    case Reject(remoteId) => [0, 2] + EncodeUint(remoteId)
    case Batch(items) =>
      if items == [] then [] else [0, 0] + EncodeUint(items[0].channel) + EncodeItems(items, items[0].channel)
    case Message(channel, kind, payload) => EncodeUint(channel) + EncodeUint(kind) + payload
  }

  // ---------------------------------------------------------------- reading

  /** A length of zero is a change of channel; any other length is followed by an item. */
  function DecodeItems(b: Bytes, current: u64): Parse<seq<Item>>
    decreases |b|
  {
    if b == [] then Got([], [])
    else
      var (n, b1) :- DecodeUint(b);
      if n == 0 then
        UintRange(b1);
        var (channel, b2) :- DecodeUint(b1);
        DecodeItems(b2, channel)
      else if |b1| < n then Fail(InvalidFrame)
      else
        var (items, rest) :- DecodeItems(b1[n..], current);
        Got([Item(current, b1[..n])] + items, rest)
  }

  /** What is left after the last field of an open frame, if anything. */
  function Remaining(b: Bytes): Option<Bytes> {
    if b == [] then None else Some(b)
  }

  function DecodeControl(kind: nat, b: Bytes): Parse<Frame> {
    UintRange(b);
    if kind == 1 then
      var (localId, b) :- DecodeUint(b);
      var (protocol, b) :- DecodeSized(b);
      var (id, b) :- DecodeBuffer(b);
      Got(Open(localId, protocol, id, Remaining(b)), [])
    else if kind == 3 then
      var (localId, b) :- DecodeUint(b);
      Got(Close(localId), b)
    else if kind == 2 then
      var (remoteId, b) :- DecodeUint(b);
      Got(Reject(remoteId), b)
    else if kind == 0 then
      var (channel, b) :- DecodeUint(b);
      var (items, b) :- DecodeItems(b, channel);
      Got(Batch(items), b)
    else Fail(InvalidFrame)
  }

  function DecodeFrame(b: Bytes): Parse<Frame> {
    if b == [] then Fail(InvalidFrame)
    else
      UintRange(b);
      var (channel, b) :- DecodeUint(b);
      UintRange(b);
      var (kind, b) :- DecodeUint(b);
      if channel == 0 then DecodeControl(kind, b)
      else Got(Message(channel, kind, b), [])
  }

  // ---------------------------------------------------------------- round trips

  lemma ControlHeader(kind: byte, b: Bytes)
    requires kind <= 3
    ensures DecodeFrame([0, kind] + b) == DecodeControl(kind, b)
  {
    hide DecodeControl;
    var f := [0, kind] + b;
    assert f[1..] == [kind] + b && ([kind] + b)[1..] == b;
    assert DecodeUint(f) == Got(0, f[1..]);
    assert DecodeUint([kind] + b) == Got(kind, b);
  }

  lemma OpenRoundTrip(localId: u64, protocol: Bytes, id: Option<Bytes>, handshake: Option<Bytes>)
    requires Sized(protocol) && Sized(Contents(id))
    ensures DecodeFrame(EncodeFrame(Open(localId, protocol, id, handshake))) ==
            Got(Open(localId, protocol, Seen(id), Seen(handshake)), [])
  {
    hide EncodeUint, DecodeUint, EncodeBuffer, DecodeBuffer, DecodeSized, DecodeFrame;
    var b2 := EncodeBuffer(Contents(id)) + Contents(handshake);
    var b1 := EncodeBuffer(protocol) + b2;
    var b0 := EncodeUint(localId) + b1;
    assert EncodeFrame(Open(localId, protocol, id, handshake)) == [0, 1] + b0;
    ControlHeader(1, b0);
    UintRoundTrip(localId, b1);
    BufferRoundTrip(Some(protocol), b2);
    BufferRoundTrip(id, Contents(handshake));
  }

  /** A data message is read back exactly when its channel is not the control channel. */
  lemma MessageRoundTrip(channel: u64, kind: u64, payload: Bytes)
    ensures DecodeFrame(EncodeFrame(Message(channel, kind, payload))) == Got(Message(channel, kind, payload), [])
            <==> channel != 0
  {
    hide EncodeUint, DecodeUint;
    var b1 := EncodeUint(kind) + payload;
    assert EncodeFrame(Message(channel, kind, payload)) == EncodeUint(channel) + b1;
    UintRoundTrip(channel, b1);
    UintRoundTrip(kind, payload);
  }

  /** Every item of a decoded batch carries at least one byte. */
  lemma {:induction false} DecodedNonEmpty(b: Bytes, current: u64)
    ensures var p := DecodeItems(b, current);
            p.Got? ==> forall i :: 0 <= i < |p.value| ==> p.value[i].data != []
    decreases |b|
  {
    if b != [] && DecodeUint(b).Got? {
      var (n, b1) := DecodeUint(b).Extract();
      if n == 0 {
        UintRange(b1);
        if DecodeUint(b1).Got? {
          DecodedNonEmpty(DecodeUint(b1).rest, DecodeUint(b1).value);
        }
      } else if n <= |b1| {
        DecodedNonEmpty(b1[n..], current);
      }
    }
  }

  function Prepend(item: Item, p: Parse<seq<Item>>): Parse<seq<Item>> {
    match p
    case Got(items, left) => Got([item] + items, left)
    case Fail(e) => Fail(e)
  }

  lemma PlainItem(channel: u64, data: Bytes, rest: Bytes)
    requires Sized(data) && data != []
    ensures DecodeItems(EncodeBuffer(data) + rest, channel) == Prepend(Item(channel, data), DecodeItems(rest, channel))
  {
    hide EncodeUint, DecodeUint;
    var b1 := data + rest;
    assert EncodeBuffer(data) + rest == EncodeUint(|data|) + b1;
    UintRoundTrip(|data|, b1);
    assert b1[..|data|] == data && b1[|data|..] == rest;
  }

  lemma OneItem(channel: u64, current: u64, data: Bytes, rest: Bytes)
    requires Sized(data) && data != []
    ensures DecodeItems((if channel != current then [0] + EncodeUint(channel) else []) + EncodeBuffer(data) + rest,
                        current) ==
            Prepend(Item(channel, data), DecodeItems(rest, channel))
  {
    hide EncodeUint, EncodeBuffer, DecodeItems;
    PlainItem(channel, data, rest);
    var b := EncodeBuffer(data) + rest;
    if channel == current {
      assert [] + EncodeBuffer(data) + rest == b;
    } else {
      SwitchItem(channel, current, b);
      assert [0] + EncodeUint(channel) + EncodeBuffer(data) + rest == [0] + (EncodeUint(channel) + b);
    }
  }

  lemma SwitchItem(channel: u64, current: u64, b: Bytes)
    ensures DecodeItems([0] + (EncodeUint(channel) + b), current) == DecodeItems(b, channel)
  {
    hide EncodeUint;
    var f := [0] + (EncodeUint(channel) + b);
    assert f[1..] == EncodeUint(channel) + b;
    assert DecodeUint(f) == Got(0, f[1..]);
    UintRoundTrip(channel, b);
    hide DecodeUint;
  }

  lemma {:induction false} ItemsRoundTrip(items: seq<Item>, current: u64)
    requires FrameOk(Batch(items)) && forall i :: 0 <= i < |items| ==> items[i].data != []
    ensures DecodeItems(EncodeItems(items, current), current) == Got(items, [])
  {
    if items != [] {
      hide DecodeItems, EncodeBuffer, EncodeUint;
      var first, rest := items[0], EncodeItems(items[1..], items[0].channel);
      ItemsRoundTrip(items[1..], first.channel);
      OneItem(first.channel, current, first.data, rest);
      assert [Item(first.channel, first.data)] + items[1..] == items;
    }
  }

  lemma BatchHeader(items: seq<Item>)
    requires FrameOk(Batch(items)) && items != []
    ensures var c := items[0].channel;
            DecodeFrame(EncodeFrame(Batch(items))) ==
            match DecodeItems(EncodeItems(items, c), c)
            case Got(found, left) => Got(Batch(found), left)
            case Fail(e) => Fail(e)
  {
    hide EncodeUint, DecodeUint, EncodeItems, DecodeItems, DecodeFrame;
    var c := items[0].channel;
    var b := EncodeItems(items, c);
    assert EncodeFrame(Batch(items)) == [0, 0] + (EncodeUint(c) + b);
    ControlHeader(0, EncodeUint(c) + b);
    UintRoundTrip(c, b);
  }

  /** A batch is read back exactly when it has an item and no item is empty. */
  lemma BatchRoundTrip(items: seq<Item>)
    requires FrameOk(Batch(items))
    ensures DecodeFrame(EncodeFrame(Batch(items))) == Got(Batch(items), []) <==>
            items != [] && forall i :: 0 <= i < |items| ==> items[i].data != []
  {
    if items == [] {
      EmptyFrame();
    } else {
      hide EncodeFrame, EncodeItems, DecodeItems, DecodeFrame;
      BatchHeader(items);
      DecodedNonEmpty(EncodeItems(items, items[0].channel), items[0].channel);
      if forall i :: 0 <= i < |items| ==> items[i].data != [] {
        ItemsRoundTrip(items, items[0].channel);
      }
    }
  }

  lemma EmptyFrame()
    ensures DecodeFrame([]) == Fail(InvalidFrame)
  {
  }

  // ---------------------------------------------------------------- channel keys

  /** Two lower-case hexadecimal digits. */
  function HexDigit(n: nat): byte
    requires n < 16
  {
    if n < 10 then 0x30 + n else 0x61 + n - 10
  }

  function Hex(b: Bytes): Bytes {
    if b == [] then [] else [HexDigit(b[0] / 16), HexDigit(b[0] % 16)] + Hex(b[1..])
  }

  const HASH: byte := 0x23

  function ChannelKey(protocol: Bytes, id: Option<Bytes>): Bytes {
    match id
    case Some(d) => protocol + [HASH, HASH] + Hex(d)
    case None => protocol + [HASH, HASH]
  }

  lemma {:induction false} HexHasNoHash(b: Bytes)
    ensures HASH !in Hex(b) && |Hex(b)| == 2 * |b|
  {
    if b != [] {
      HexHasNoHash(b[1..]);
    }
  }

  lemma DigitInjective(m: nat, n: nat)
    requires m < 16 && n < 16 && HexDigit(m) == HexDigit(n)
    ensures m == n
  {
  }

  lemma {:induction false} HexInjective(a: Bytes, b: Bytes)
    requires Hex(a) == Hex(b)
    ensures a == b
  {
    HexHasNoHash(a);
    HexHasNoHash(b);
    if a != [] {
      assert Hex(a)[0] == Hex(b)[0] && Hex(a)[1] == Hex(b)[1];
      DigitInjective(a[0] / 16, b[0] / 16);
      DigitInjective(a[0] % 16, b[0] % 16);
      assert Hex(a)[2..] == Hex(a[1..]) && Hex(b)[2..] == Hex(b[1..]);
      HexInjective(a[1..], b[1..]);
      assert a == [a[0]] + a[1..] && b == [b[0]] + b[1..];
    }
  }

  /** Splitting at the last hash sign is unambiguous. */
  lemma LastHash(p: Bytes, x: Bytes, q: Bytes, y: Bytes)
    requires HASH !in x && HASH !in y && p + [HASH] + x == q + [HASH] + y
    ensures p == q && x == y
  {
    var s := p + [HASH] + x;
    var t := q + [HASH] + y;
    assert s[|p|] == HASH && t[|q|] == HASH;
    assert forall i :: |p| < i < |s| ==> s[i] == x[i - |p| - 1];
    assert forall i :: |q| < i < |t| ==> t[i] == y[i - |q| - 1];
    assert |p| == |q|;
    assert p == s[..|p|] && q == t[..|q|] && x == s[|p| + 1..] && y == t[|q| + 1..];
  }

  /** Two channels have the same key exactly when they agree on the protocol and on the id,
      an empty id counting as none. */
  lemma KeyMeaning(p: Bytes, c: Option<Bytes>, q: Bytes, d: Option<Bytes>)
    ensures ChannelKey(p, c) == ChannelKey(q, d) <==> p == q && Seen(c) == Seen(d)
  {
    var x, y := Hex(Contents(c)), Hex(Contents(d));
    KeyShape(p, c);
    KeyShape(q, d);
    HexHasNoHash(Contents(c));
    HexHasNoHash(Contents(d));
    if ChannelKey(p, c) == ChannelKey(q, d) {
      LastHash(p + [HASH], x, q + [HASH], y);
      assert p == (p + [HASH])[..|p|] && q == (q + [HASH])[..|q|];
      HexInjective(Contents(c), Contents(d));
    }
  }

  lemma KeyShape(p: Bytes, c: Option<Bytes>)
    ensures ChannelKey(p, c) == p + [HASH] + [HASH] + Hex(Contents(c))
    ensures ChannelKey(p, c) == ChannelKey(p, Seen(c))
  {
  }
}
