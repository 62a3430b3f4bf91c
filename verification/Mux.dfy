/** Protomux in place: frames are written and read through the encoding state, and the
    channel tables of one mux are updated by each command and each frame read. */
module Mux {
  import opened Options
  import opened Codec
  import opened Cursor
  import opened MuxFrames
  import MuxSpec

  // ---------------------------------------------------------------- writing frames

  method WriteOpen(localId: u64, protocol: Bytes, id: Option<Bytes>, handshake: Option<Bytes>) returns (b: Bytes)
    requires Sized(protocol) && Sized(Contents(id))
    ensures b == EncodeFrame(Open(localId, protocol, id, handshake))
  {
    hide EncodeUint, EncodeBuffer;
    var state := new EncodingState();
    state.end := 2;
    state.PreencodeUint(localId);
    state.PreencodeBuffer(Some(protocol));
    state.PreencodeBuffer(id);
    state.end := state.end + |Contents(handshake)|;
    state.Alloc();
    state.WriteUint8(0);
    state.WriteUint8(1);
    assert state.Written() == [0, 1];
    state.WriteUint(localId);
    state.WriteBuffer(Some(protocol));
    state.WriteBuffer(id);
    state.WriteBytes(Contents(handshake));
    b := state.buffer;
    assert state.Written() == b;
  }

  method WriteMessage(channel: u64, kind: u64, payload: Bytes) returns (b: Bytes)
    ensures b == EncodeFrame(Message(channel, kind, payload))
  {
    hide EncodeUint;
    var state := new EncodingState();
    state.PreencodeUint(channel);
    state.PreencodeUint(kind);
    state.end := state.end + |payload|;
    state.Alloc();
    state.WriteUint(channel);
    state.WriteUint(kind);
    state.WriteBytes(payload);
    b := state.buffer;
    assert state.Written() == b;
  }

  /** The type and payload of a batched message. */
  method WriteInner(kind: u64, payload: Bytes) returns (b: Bytes)
    ensures b == EncodeUint(kind) + payload
  {
    hide EncodeUint;
    var state := new EncodingState();
    state.PreencodeUint(kind);
    state.end := state.end + |payload|;
    state.Alloc();
    state.WriteUint(kind);
    state.WriteBytes(payload);
    b := state.buffer;
    assert state.Written() == b;
  }

  /** What one item adds to a batch whose last item was on `previous`. */
  function EncodeItem(previous: u64, item: Item): Bytes
    requires Sized(item.data)
  {
    (if item.channel != previous then [0] + EncodeUint(item.channel) else []) + EncodeBuffer(item.data)
  }

  function Previous(items: seq<Item>, i: nat): u64
    requires items != [] && i <= |items|
  {
    if i == 0 then items[0].channel else items[i - 1].channel
  }

  lemma {:induction false} ItemsSnoc(items: seq<Item>, current: u64, i: nat)
    requires FrameOk(Batch(items)) && i < |items|
    ensures FrameOk(Batch(items[..i])) && FrameOk(Batch(items[..i + 1]))
    ensures EncodeItems(items[..i + 1], current) ==
            EncodeItems(items[..i], current) + EncodeItem(if i == 0 then current else items[i - 1].channel, items[i])
  {
    hide EncodeUint, EncodeBuffer;
    if i == 0 {
      assert items[..1] == [items[0]];
      assert [items[0]][1..] == [];
      assert EncodeItems(items[..0], current) == [];
      assert EncodeItems([items[0]], current) == EncodeItem(current, items[0]) + EncodeItems([], items[0].channel);
    } else {
      var rest := items[1..];
      ItemsSnoc(rest, items[0].channel, i - 1);
      assert items[..i + 1][1..] == rest[..i] && items[..i][1..] == rest[..i - 1];
      assert i > 1 ==> rest[i - 2] == items[i - 1];
    }
  }

  /** Size every item, make room, and write every item, naming a channel when it changes. */
  method WriteBatch(items: seq<Item>) returns (b: Bytes)
    requires FrameOk(Batch(items))
    ensures b == EncodeFrame(Batch(items))
  {
    if items == [] {
      b := [];
    } else {
      hide EncodeUint, EncodeBuffer, EncodeItems, EncodeItem;
      var state := new EncodingState();
      state.end := 2;
      state.PreencodeUint(items[0].channel);
      SizeItems(state, items);
      state.Alloc();
      state.WriteUint8(0);
      state.WriteUint8(0);
      assert state.Written() == [0, 0];
      state.WriteUint(items[0].channel);
      WriteItems(state, items);
      b := state.buffer;
      assert state.Written() == b;
    }
  }

  method SizeItems(state: EncodingState, items: seq<Item>)
    requires items != [] && FrameOk(Batch(items))
    modifies state`end
    ensures state.end == old(state.end) + |EncodeItems(items, items[0].channel)|
  {
    hide EncodeUint, EncodeBuffer, EncodeItems;
    var previous := items[0].channel;
    NoItems(items);
    for i := 0 to |items|
      invariant previous == Previous(items, i) && FrameOk(Batch(items[..i]))
      invariant state.end == old(state.end) + |EncodeItems(items[..i], items[0].channel)|
    {
      ItemsSnoc(items, items[0].channel, i);
      if items[i].channel != previous {
        state.end := state.end + 1;
        state.PreencodeUint(items[i].channel);
        previous := items[i].channel;
      }
      state.PreencodeBuffer(Some(items[i].data));
    }
    assert items[..|items|] == items;
  }

  method WriteItems(state: EncodingState, items: seq<Item>)
    requires items != [] && FrameOk(Batch(items))
    requires state.start + |EncodeItems(items, items[0].channel)| <= |state.buffer|
    modifies state`start, state`buffer
    ensures |state.buffer| == |old(state.buffer)|
    ensures state.start == old(state.start) + |EncodeItems(items, items[0].channel)|
    ensures state.Written() == old(state.Written()) + EncodeItems(items, items[0].channel)
  {
    hide EncodeItems, EncodeItem;
    var previous := items[0].channel;
    NoItems(items);
    for i := 0 to |items|
      invariant previous == Previous(items, i) && FrameOk(Batch(items[..i]))
      invariant |state.buffer| == |old(state.buffer)|
      invariant state.start == old(state.start) + |EncodeItems(items[..i], items[0].channel)| <= |state.buffer|
      invariant state.Written() == old(state.Written()) + EncodeItems(items[..i], items[0].channel)
    {
      ItemsSnoc(items, items[0].channel, i);
      ItemsGrow(items, items[0].channel, i + 1);
      WriteItem(state, previous, items[i]);
      previous := items[i].channel;
    }
    assert items[..|items|] == items;
  }

  method WriteItem(state: EncodingState, previous: u64, item: Item)
    requires Sized(item.data) && state.start + |EncodeItem(previous, item)| <= |state.buffer|
    modifies state`start, state`buffer
    ensures |state.buffer| == |old(state.buffer)| && state.start == old(state.start) + |EncodeItem(previous, item)|
    ensures state.Written() == old(state.Written()) + EncodeItem(previous, item)
  {
    hide EncodeUint, EncodeBuffer;
    if item.channel != previous {
      state.WriteUint8(0);
      state.WriteUint(item.channel);
    }
    state.WriteBuffer(Some(item.data));
  }

  lemma NoItems(items: seq<Item>)
    requires items != []
    ensures items[..0] == [] && EncodeItems(items[..0], items[0].channel) == []
  {
  }

  lemma {:induction false} ItemsGrow(items: seq<Item>, current: u64, i: nat)
    requires FrameOk(Batch(items)) && i <= |items|
    ensures FrameOk(Batch(items[..i])) && |EncodeItems(items[..i], current)| <= |EncodeItems(items, current)|
    decreases |items| - i
  {
    hide EncodeItems, EncodeItem;
    if i < |items| {
      ItemsSnoc(items, current, i);
      ItemsGrow(items, current, i + 1);
    } else {
      assert items[..i] == items;
    }
  }

  // ---------------------------------------------------------------- reading frames

  method ReadItems(state: EncodingState, first: u64) returns (r: Result<seq<Item>>)
    requires state.Readable()
    modifies state`start
    ensures state.Readable()
    ensures match DecodeItems(old(state.Left()), first)
            case Got(items, _) => r == Ok(items)
            case Fail(e) => r == Err(e)
  {
    hide DecodeUint, DecodeFixed;
    var items: seq<Item> := [];
    var current := first;
    ghost var b := state.Left();
    ThenNone(DecodeItems(b, first));
    while state.start < state.end
      invariant state.Readable()
      invariant DecodeItems(b, first) == Then(items, DecodeItems(state.Left(), current))
      decreases state.end - state.start
    {
      ghost var here := state.Left();
      var n := state.ReadUint();
      if n.Err? {
        return Err(n.error);
      }
      if n.value == 0 {
        var channel := state.ReadUint();
        if channel.Err? {
          return Err(channel.error);
        }
        current := channel.value;
      } else {
        if state.start + n.value > state.end {
          return Err(InvalidFrame);
        }
        var data := state.buffer[state.start..state.start + n.value];
        ghost var b1 := state.Left();
        assert data == b1[..n.value];
        state.start := state.start + n.value;
        assert state.Left() == b1[n.value..];
        ThenOne(items, Item(current, data), DecodeItems(state.Left(), current));
        items := items + [Item(current, data)];
      }
    }
    assert items + [] == items;
    r := Ok(items);
  }

  method ReadControl(state: EncodingState, kind: u64) returns (r: Result<Frame>)
    requires state.Readable()
    modifies state`start
    ensures match DecodeControl(kind, old(state.Left()))
            case Got(f, _) => r == Ok(f)
            case Fail(e) => r == Err(e)
  {
    hide DecodeUint, DecodeFixed, DecodeItems;
    if kind == 1 {
      var localId :- state.ReadUint();
      var n :- state.ReadUint();
      var protocol :- state.ReadFixed(n);
      var id :- state.ReadBuffer();
      var left := state.buffer[state.start..state.end];
      r := Ok(Open(localId, protocol, id, if left == [] then None else Some(left)));
    } else if kind == 3 {
      var localId :- state.ReadUint();
      r := Ok(Close(localId));
    } else if kind == 2 {
      var remoteId :- state.ReadUint();
      r := Ok(Reject(remoteId));
    } else if kind == 0 {
      var first :- state.ReadUint();
      var items :- ReadItems(state, first);
      r := Ok(Batch(items));
    } else {
      r := Err(InvalidFrame);
    }
  }

  method ReadFrame(data: Bytes) returns (r: Result<Frame>)
    ensures match DecodeFrame(data)
            case Got(f, _) => r == Ok(f)
            case Fail(e) => r == Err(e)
  {
    hide DecodeUint, DecodeControl;
    if data == [] {
      r := Err(InvalidFrame);
    } else {
      var state := new EncodingState.FromBuffer(data);
      var channel :- state.ReadUint();
      var kind :- state.ReadUint();
      if channel == 0 {
        r := ReadControl(state, kind);
      } else {
        r := Ok(Message(channel, kind, state.buffer[state.start..state.end]));
      }
    }
  }

  // ---------------------------------------------------------------- the mux

  class MuxState {
    var local: seq<MuxSpec.Local>
    var remote: seq<Option<MuxSpec.Remote>>
    var infos: map<Bytes, MuxSpec.Info>
    var corkDepth: nat
    var batch: seq<Item>
    /** Every frame queued for the stream, in order. */
    var written: seq<Bytes>

    ghost var history: MuxSpec.Sender

    ghost function Rx(): MuxSpec.Receiver
      reads this
    {
      MuxSpec.Receiver(local, remote, infos)
    }

    ghost function Model(): MuxSpec.Mux
      reads this
    {
      MuxSpec.Mux(Rx(), history)
    }

    /** The batch holds the encoded messages of the model's batch, and the bytes queued are
        the encoded frames of the model. */
    ghost predicate Valid()
      reads this
    {
      && corkDepth == history.depth
      && batch == MuxSpec.ItemsOf(history.batch)
      && (forall i :: 0 <= i < |history.batch| ==> MuxSpec.Storable(history.batch[i].data))
      && Encodes(written, history.out)
    }

    constructor ()
      ensures Valid() && Model() == MuxSpec.INITIAL
    {
      local, remote, infos, corkDepth, batch, written := [], [], map[], 0, [], [];
      history := MuxSpec.INITIAL.tx;
    }

    method Queue(frame: Bytes, ghost o: MuxSpec.Out)
      requires Encodes(written, history.out) && MuxSpec.OutOk(o)
      requires FrameOk(MuxSpec.FrameOf(o)) && frame == EncodeFrame(MuxSpec.FrameOf(o))
      modifies this`written, this`history
      ensures history == old(history).(out := old(history).out + [o])
      ensures Encodes(written, history.out)
    {
      hide EncodeFrame, MuxSpec.FrameOf;
      written := written + [frame];
      history := history.(out := history.out + [o]);
    }

    /** Open a channel: pair it with a waiting remote channel or let it wait, and say so. */
    method CreateChannel(protocol: Bytes, id: Option<Bytes>, handshake: Option<Bytes>) returns (localId: nat)
      requires Valid() && |local| < TWO32 - 1
      requires MuxSpec.OutOk(MuxSpec.OpenOut(1, MuxSpec.Creation(protocol, id, handshake)))
      modifies this
      ensures Valid() && localId == |old(local)| + 1
      ensures Model() == MuxSpec.Create(old(Model()), MuxSpec.Creation(protocol, id, handshake))
    {
      hide EncodeFrame, ChannelKey;
      ghost var o := MuxSpec.OpenOut(|local| + 1, MuxSpec.Creation(protocol, id, handshake));
      MuxSpec.OutFits(o);
      localId := |local| + 1;
      AddLocal(protocol, id);
      var frame := WriteOpen(localId, protocol, id, handshake);
      Queue(frame, o);
      history := history.(made := history.made + [MuxSpec.Creation(protocol, id, handshake)]);
    }

    method AddLocal(protocol: Bytes, id: Option<Bytes>)
      modifies this`local, this`remote, this`infos
      ensures Rx() == MuxSpec.CreateLocal(old(Rx()), protocol, id)
    {
      hide ChannelKey, MuxSpec.Drained;
      var key := ChannelKey(protocol, id);
      var info := if key in infos then infos[key] else MuxSpec.Info([], []);
      var internal := |local|;
      if info.incoming != [] {
        var rid := info.incoming[0];
        infos := infos[key := info.(incoming := info.incoming[1..])];
        local := local + [MuxSpec.Local(protocol, id, Some(rid), true, [])];
        if 1 <= rid <= |remote| && remote[rid - 1].Some? {
          var r := remote[rid - 1].value;
          remote := remote[rid - 1 := Some(MuxSpec.Remote(None, Some(internal), []))];
          var events := Drain(r.pending);
          local := local[internal := local[internal].(events := [MuxSpec.Opened(r.handshake)] + events)];
        } else {
          local := local[internal := local[internal].(events := [MuxSpec.Opened(None)])];
        }
      } else {
        infos := infos[key := info.(outgoing := info.outgoing + [internal + 1])];
        local := local + [MuxSpec.Local(protocol, id, None, false, [])];
      }
    }

    method SendMessage(localId: nat, kind: u32, data: Bytes)
      requires Valid() && 1 <= localId < TWO32 && MuxSpec.Storable(data)
      modifies this`batch, this`written, this`history
      ensures Valid()
      ensures Model() == MuxSpec.Send(old(Model()), MuxSpec.Sent(localId, kind, data))
    {
      hide EncodeFrame, EncodeUint;
      ghost var s := MuxSpec.Sent(localId, kind, data);
      if localId <= |local| {
        if corkDepth > 0 {
          var inner := WriteInner(kind, data);
          batch := batch + [Item(localId, inner)];
          ItemsOfSnoc(history.batch, s);
          history := history.(batch := history.batch + [s]);
        } else {
          var frame := WriteMessage(localId, kind, data);
          Queue(frame, MuxSpec.MessageOut(s));
        }
        history := history.(sent := history.sent + [s]);
      }
    }

    method Cork()
      requires Valid()
      modifies this`corkDepth, this`history
      ensures Valid() && Model() == MuxSpec.Cork(old(Model()))
    {
      corkDepth := corkDepth + 1;
      history := history.(depth := history.depth + 1);
    }

    /** The last uncork sends what was held back as one frame. */
    method Uncork()
      requires Valid()
      modifies this`corkDepth, this`batch, this`written, this`history
      ensures Valid() && Model() == MuxSpec.Uncork(old(Model()))
    {
      hide EncodeFrame, EncodeUint, MuxSpec.ItemOf;
      if corkDepth > 0 {
        corkDepth := corkDepth - 1;
        history := history.(depth := history.depth - 1);
        if corkDepth == 0 && batch != [] {
          ghost var o := MuxSpec.BatchOut(history.batch);
          MuxSpec.OutFits(o);
          var frame := WriteBatch(batch);
          Queue(frame, o);
          batch := [];
          history := history.(batch := []);
        }
      }
    }

    // -------------------------------------------------------------- frames read

    /** Handle one frame; false means that the frame is refused and the mux shuts down. */
    method HandleIncoming(data: Bytes) returns (ok: bool)
      requires Valid()
      modifies this
      ensures var r := MuxSpec.HandleBytes(old(Model()), data);
              (ok <==> r.Some?) && (ok ==> Model() == r.value)
      ensures Valid()
      ensures match DecodeFrame(data)
              case Fail(_) => Model() == old(Model())
              case Got(f, _) => !f.Close? && !f.Reject? ==> Model() == MuxSpec.After(old(Model()), f)
    {
      hide DecodeFrame, MuxSpec.HandleFrame, MuxSpec.After, EncodeFrame;
      var frame := ReadFrame(data);
      if frame.Err? {
        ok := false;
      } else {
        ok := HandleFrame(frame.value);
      }
    }

    method HandleFrame(frame: Frame) returns (ok: bool)
      requires Valid()
      modifies this
      ensures frame.Close? || frame.Reject? ==> !ok
      ensures !frame.Close? && !frame.Reject? ==>
                var r := MuxSpec.HandleFrame(old(Model()), frame);
                && (ok <==> r.Some?) && (ok ==> Model() == r.value)
                && Model() == MuxSpec.After(old(Model()), frame)
      ensures Valid() && (frame.Close? || frame.Reject? ==> Model() == old(Model()))
    {
      hide MuxSpec.AcceptOpen, MuxSpec.DispatchItems, MuxSpec.DispatchPrefix, MuxSpec.Dispatch, MuxSpec.Grown,
           EncodeFrame;
      if !frame.Close? && !frame.Reject? {
        MuxSpec.AfterHandled(Model(), frame);
      }
      match frame
      case Open(localId, protocol, id, handshake) =>
        var rid := localId % TWO32;
        if rid == 0 {
          var reject := [0, 2] + EncodeUint(0);
          RejectFrame();
          Queue(reject, MuxSpec.RejectOut);
          ok := true;
        } else {
          ok := HandleOpen(rid, protocol, id, handshake);
        }
      case Message(channel, kind, payload) =>
        DispatchMessage(channel, kind, payload);
        ok := true;
      case Batch(items) =>
        ok := DispatchBatch(items);
      case _ =>
        ok := false;
    }

    method HandleOpen(rid: nat, protocol: Bytes, id: Option<Bytes>, handshake: Option<Bytes>) returns (ok: bool)
      requires rid >= 1
      modifies this`local, this`remote, this`infos
      ensures var r := MuxSpec.AcceptOpen(old(Rx()), rid, protocol, id, handshake);
              (ok <==> r.Some?) && (ok ==> Rx() == r.value)
      ensures Rx() == MuxSpec.OpenedOrNot(old(Rx()), rid, protocol, id, handshake)
    {
      hide ChannelKey;
      ghost var before := remote;
      while |remote| < rid
        invariant MuxSpec.Grown(remote, rid) == MuxSpec.Grown(before, rid)
        invariant local == old(local) && infos == old(infos)
      {
        remote := remote + [None];
      }
      ok := PlaceOpen(rid, protocol, id, handshake);
    }

    method PlaceOpen(rid: nat, protocol: Bytes, id: Option<Bytes>, handshake: Option<Bytes>) returns (ok: bool)
      requires 1 <= rid <= |remote|
      modifies this`local, this`remote, this`infos
      ensures var r := MuxSpec.AcceptOpen(old(Rx()), rid, protocol, id, handshake);
              (ok <==> r.Some?) && (ok ==> Rx() == r.value) && (!ok ==> Rx() == old(Rx()))
    {
      hide ChannelKey;
      var key := ChannelKey(protocol, id);
      var info := if key in infos then infos[key] else MuxSpec.Info([], []);
      ok := remote[rid - 1].None?;
      if ok {
        if info.outgoing != [] {
          var pos := info.outgoing[0];
          ok := 1 <= pos <= |local|;
          if ok {
            infos := infos[key := info.(outgoing := info.outgoing[1..])];
            remote := remote[rid - 1 := Some(MuxSpec.Remote(handshake, Some(pos - 1), []))];
            var ch := local[pos - 1];
            local := local[pos - 1 := ch.(remoteId := Some(rid), isOpen := true,
                                          events := ch.events + [MuxSpec.Opened(handshake)])];
          }
        } else {
          remote := remote[rid - 1 := Some(MuxSpec.Remote(handshake, None, []))];
          infos := infos[key := info.(incoming := info.incoming + [rid])];
        }
      }
    }

    method DispatchMessage(channel: u64, kind: u64, payload: Bytes)
      modifies this`local, this`remote
      ensures Rx() == MuxSpec.Dispatch(old(Rx()), channel, kind, payload)
    {
      var rid := channel % TWO32;
      if 1 <= rid <= |remote| && remote[rid - 1].Some? {
        var r := remote[rid - 1].value;
        if r.localId.Some? && r.localId.value < |local| && local[r.localId.value].isOpen {
          var i := r.localId.value;
          local := local[i := local[i].(events := local[i].events + [MuxSpec.Received(kind % TWO32, payload)])];
        } else {
          remote := remote[rid - 1 := Some(r.(pending := r.pending + [MuxSpec.Buffered(kind, payload)]))];
        }
      }
    }

    method DispatchBatch(items: seq<Item>) returns (ok: bool)
      modifies this`local, this`remote
      ensures var r := MuxSpec.DispatchItems(old(Rx()), items);
              (ok <==> r.Some?) && (ok ==> Rx() == r.value)
      ensures Rx() == MuxSpec.DispatchPrefix(old(Rx()), items)
    {
      hide MuxSpec.Dispatch, DecodeUint;
      ok := true;
      assert items[0..] == items;
      for i := 0 to |items|
        invariant MuxSpec.DispatchItems(Rx(), items[i..]) == MuxSpec.DispatchItems(old(Rx()), items)
        invariant MuxSpec.DispatchPrefix(Rx(), items[i..]) == MuxSpec.DispatchPrefix(old(Rx()), items)
        invariant infos == old(infos)
      {
        assert items[i..][0] == items[i] && items[i..][1..] == items[i + 1..];
        var state := new EncodingState.FromBuffer(items[i].data);
        UintRange(items[i].data);
        var kind := state.ReadUint();
        if kind.Err? {
          return false;
        }
        DispatchMessage(items[i].channel, kind.value, state.buffer[state.start..state.end]);
      }
    }
  }

  ghost predicate Encodes(written: seq<Bytes>, out: seq<MuxSpec.Out>) {
    && |written| == |out|
    && forall i :: 0 <= i < |out| ==> MuxSpec.OutOk(out[i]) && EncodesOne(written[i], out[i])
  }

  ghost predicate EncodesOne(b: Bytes, o: MuxSpec.Out) {
    FrameOk(MuxSpec.FrameOf(o)) && b == EncodeFrame(MuxSpec.FrameOf(o))
  }

  /** Tell a newly paired handle of the buffered messages, in order. */
  method Drain(pending: seq<MuxSpec.Buffered>) returns (events: seq<MuxSpec.Event>)
    ensures events == MuxSpec.Drained(pending)
  {
    events := [];
    assert pending[..0] == [];
    for i := 0 to |pending|
      invariant events == MuxSpec.Drained(pending[..i])
    {
      assert pending[..i + 1][..i] == pending[..i];
      events := events + [MuxSpec.Received(pending[i].kind % TWO32, pending[i].data)];
    }
    assert pending[..|pending|] == pending;
  }

  lemma {:induction false} ItemsOfSnoc(ss: seq<MuxSpec.Sent>, s: MuxSpec.Sent)
    ensures MuxSpec.ItemsOf(ss + [s]) == MuxSpec.ItemsOf(ss) + [MuxSpec.ItemOf(s)]
  {
    if ss == [] {
      assert [s][1..] == [];
    } else {
      ItemsOfSnoc(ss[1..], s);
      assert (ss + [s])[1..] == ss[1..] + [s];
    }
  }

  lemma RejectFrame()
    ensures FrameOk(MuxSpec.FrameOf(MuxSpec.RejectOut))
    ensures EncodeFrame(MuxSpec.FrameOf(MuxSpec.RejectOut)) == [0, 2] + EncodeUint(0)
  {
  }
}
