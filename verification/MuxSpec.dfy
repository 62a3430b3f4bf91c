/** Protomux as a state machine, and two of them joined by a pair of first-in first-out
    streams. Channel close and reject are not part of this model. */
module MuxSpec {
  import opened Options
  import opened Codec
  import opened MuxFrames

  datatype Event = Opened(handshake: Option<Bytes>) | Received(kind: u32, data: Bytes)

  /** A channel created here; `events` is all that its handle has been sent. */
  datatype Local = Local(protocol: Bytes, id: Option<Bytes>, remoteId: Option<nat>, isOpen: bool, events: seq<Event>)

  datatype Buffered = Buffered(kind: u64, data: Bytes)

  /** A channel opened by the other side; messages wait in `pending` until it is paired. */
  datatype Remote = Remote(handshake: Option<Bytes>, localId: Option<nat>, pending: seq<Buffered>)

  /** Per key: our ids waiting for their open, and their ids waiting for ours. */
  datatype Info = Info(outgoing: seq<nat>, incoming: seq<nat>)

  datatype Receiver = Receiver(local: seq<Local>, remote: seq<Option<Remote>>, infos: map<Bytes, Info>)

  datatype Creation = Creation(protocol: Bytes, id: Option<Bytes>, handshake: Option<Bytes>) {
    function Key(): Bytes {
      ChannelKey(protocol, id)
    }
  }

  datatype Sent = Sent(channel: u64, kind: u32, data: Bytes)

  datatype Out =
    | OpenOut(localId: u64, creation: Creation)
    | MessageOut(message: Sent)
    | BatchOut(messages: seq<Sent>)
    | RejectOut

  /** The cork depth and the batch; and, as history, all frames written, all channels
      created and all messages sent. */
  datatype Sender = Sender(depth: nat, batch: seq<Sent>, out: seq<Out>, made: seq<Creation>, sent: seq<Sent>)

  datatype Mux = Mux(rx: Receiver, tx: Sender)

  const INITIAL: Mux := Mux(Receiver([], [], map[]), Sender(0, [], [], [], []))

  // ---------------------------------------------------------------- frames written

  function ItemOf(s: Sent): Item {
    Item(s.channel, EncodeUint(s.kind) + s.data)
  }

  function ItemsOf(ss: seq<Sent>): (items: seq<Item>)
    ensures |items| == |ss| && forall i :: 0 <= i < |ss| ==> items[i] == ItemOf(ss[i])
  {
    if ss == [] then [] else [ItemOf(ss[0])] + ItemsOf(ss[1..])
  }

  function FrameOf(o: Out): Frame {
    match o
    case OpenOut(localId, c) => Open(localId, c.protocol, c.id, c.handshake)
    case MessageOut(s) => Message(s.channel, s.kind, s.data)
    case BatchOut(ss) => Batch(ItemsOf(ss))
    case RejectOut => Reject(0)
  }

  // ---------------------------------------------------------------- creating a channel

  function InfoOf(rx: Receiver, key: Bytes): Info {
    if key in rx.infos then rx.infos[key] else Info([], [])
  }

  function RemoteAt(rx: Receiver, id: nat): Option<Remote> {
    if 1 <= id <= |rx.remote| then rx.remote[id - 1] else None
  }

  function Drained(pending: seq<Buffered>): seq<Event> {
    if pending == [] then []
    else
      Drained(pending[..|pending| - 1]) +
      [Received(pending[|pending| - 1].kind % TWO32, pending[|pending| - 1].data)]
  }

  /** Pair with the oldest unpaired remote channel of the same key, if there is one. */
  function CreateLocal(rx: Receiver, protocol: Bytes, id: Option<Bytes>): Receiver {
    var key := ChannelKey(protocol, id);
    var info := InfoOf(rx, key);
    var i := |rx.local|;
    if info.incoming != [] then
      var rid := info.incoming[0];
      var infos := rx.infos[key := info.(incoming := info.incoming[1..])];
      match RemoteAt(rx, rid)
      case Some(r) =>
        Receiver(rx.local + [Local(protocol, id, Some(rid), true, [Opened(r.handshake)] + Drained(r.pending))],
                 rx.remote[rid - 1 := Some(Remote(None, Some(i), []))], infos)
      case None =>
        Receiver(rx.local + [Local(protocol, id, Some(rid), true, [Opened(None)])], rx.remote, infos)
    else
      Receiver(rx.local + [Local(protocol, id, None, false, [])], rx.remote,
               rx.infos[key := info.(outgoing := info.outgoing + [i + 1])])
  }

  // ---------------------------------------------------------------- frames read

  function Grown(remote: seq<Option<Remote>>, id: nat): (r: seq<Option<Remote>>)
    ensures |r| >= id && remote <= r
    decreases id - |remote|
  {
    if |remote| < id then Grown(remote + [None], id) else remote
  }

  /** Pair with our oldest unpaired channel of the same key, if there is one. */
  function AcceptOpen(rx: Receiver, rid: nat, protocol: Bytes, id: Option<Bytes>,
                      handshake: Option<Bytes>): Option<Receiver>
    requires rid >= 1
  {
    var remote := Grown(rx.remote, rid);
    if remote[rid - 1].Some? then None
    else
      var key := ChannelKey(protocol, id);
      var info := InfoOf(rx, key);
      if info.outgoing != [] then
        var pos := info.outgoing[0];
        var infos := rx.infos[key := info.(outgoing := info.outgoing[1..])];
        if 1 <= pos <= |rx.local| then
          var ch := rx.local[pos - 1];
          Some(Receiver(rx.local[pos - 1 := ch.(remoteId := Some(rid), isOpen := true,
                                                events := ch.events + [Opened(handshake)])],
                        remote[rid - 1 := Some(Remote(handshake, Some(pos - 1), []))], infos))
        else None
      else
        Some(Receiver(rx.local, remote[rid - 1 := Some(Remote(handshake, None, []))],
                      rx.infos[key := info.(incoming := info.incoming + [rid])]))
  }

  function Dispatch(rx: Receiver, channel: u64, kind: u64, payload: Bytes): Receiver {
    var rid := channel % TWO32;
    match RemoteAt(rx, rid)
    case None => rx
    case Some(r) =>
      if r.localId.Some? && r.localId.value < |rx.local| && rx.local[r.localId.value].isOpen then
        var ch := rx.local[r.localId.value];
        rx.(local := rx.local[r.localId.value := ch.(events := ch.events + [Received(kind % TWO32, payload)])])
      else
        rx.(remote := rx.remote[rid - 1 := Some(r.(pending := r.pending + [Buffered(kind, payload)]))])
  }

  /** Each item holds its own type; the first malformed one stops the whole frame. */
  function DispatchItems(rx: Receiver, items: seq<Item>): Option<Receiver>
    decreases |items|
  {
    if items == [] then Some(rx)
    else
      UintRange(items[0].data);
      match DecodeUint(items[0].data)
      case Fail(_) => None
      case Got(kind, payload) => DispatchItems(Dispatch(rx, items[0].channel, kind, payload), items[1..])
  }

  function HandleFrame(m: Mux, f: Frame): Option<Mux>
    requires !f.Close? && !f.Reject?
  {
    match f
    case Open(localId, protocol, id, handshake) =>
      var rid := localId % TWO32;
      if rid == 0 then Some(m.(tx := m.tx.(out := m.tx.out + [RejectOut])))
      else (match AcceptOpen(m.rx, rid, protocol, id, handshake)
            case Some(rx) => Some(m.(rx := rx))
            case None => None)
    case Message(channel, kind, payload) => Some(m.(rx := Dispatch(m.rx, channel, kind, payload)))
    case Batch(items) =>
      match DispatchItems(m.rx, items)
      case Some(rx) => Some(m.(rx := rx))
      case None => None
  }

  /** The state after a frame, accepted or not: items before a malformed one have been dispatched,
      and an open that is refused leaves at most room for its id. */
  function DispatchPrefix(rx: Receiver, items: seq<Item>): Receiver
    decreases |items|
  {
    if items == [] then rx
    else
      UintRange(items[0].data);
      match DecodeUint(items[0].data)
      case Fail(_) => rx
      case Got(kind, payload) => DispatchPrefix(Dispatch(rx, items[0].channel, kind, payload), items[1..])
  }

  function OpenedOrNot(rx: Receiver, rid: nat, protocol: Bytes, id: Option<Bytes>, handshake: Option<Bytes>): Receiver
    requires rid >= 1
  {
    match AcceptOpen(rx, rid, protocol, id, handshake)
    case Some(rx') => rx'
    case None => rx.(remote := Grown(rx.remote, rid))
  }

  function After(m: Mux, f: Frame): Mux
    requires !f.Close? && !f.Reject?
  {
    match f
    case Open(localId, protocol, id, handshake) =>
      var rid := localId % TWO32;
      if rid == 0 then m.(tx := m.tx.(out := m.tx.out + [RejectOut]))
      else m.(rx := OpenedOrNot(m.rx, rid, protocol, id, handshake))
    case Message(channel, kind, payload) => m.(rx := Dispatch(m.rx, channel, kind, payload))
    case Batch(items) => m.(rx := DispatchPrefix(m.rx, items))
  }

  lemma {:induction false} PrefixOfAll(rx: Receiver, items: seq<Item>)
    ensures DispatchItems(rx, items).Some? ==> DispatchItems(rx, items).value == DispatchPrefix(rx, items)
    decreases |items|
  {
    if items != [] {
      UintRange(items[0].data);
      match DecodeUint(items[0].data)
      case Fail(_) =>
      case Got(kind, payload) => PrefixOfAll(Dispatch(rx, items[0].channel, kind, payload), items[1..]);
    }
  }

  /** A frame that is accepted leaves the state that handling it gives; an open with an id that is
      in use, which is refused, changes nothing. */
  lemma AfterHandled(m: Mux, f: Frame)
    requires !f.Close? && !f.Reject?
    ensures HandleFrame(m, f).Some? ==> HandleFrame(m, f).value == After(m, f)
    ensures f.Open? && RemoteAt(m.rx, f.localId % TWO32).Some? ==> HandleFrame(m, f).None? && After(m, f) == m
  {
    if f.Batch? {
      PrefixOfAll(m.rx, f.items);
    }
  }

  /** Handle the bytes of a frame; none when the frame is refused. */
  function HandleBytes(m: Mux, b: Bytes): Option<Mux> {
    match DecodeFrame(b)
    case Fail(_) => None
    case Got(f, _) => if f.Close? || f.Reject? then None else HandleFrame(m, f)
  }

  // ---------------------------------------------------------------- commands

  function Create(m: Mux, c: Creation): Mux
    requires |m.rx.local| < TWO32
  {
    Mux(CreateLocal(m.rx, c.protocol, c.id),
        m.tx.(out := m.tx.out + [OpenOut(|m.rx.local| + 1, c)], made := m.tx.made + [c]))
  }

  function Send(m: Mux, s: Sent): Mux {
    if s.channel == 0 || s.channel > |m.rx.local| then m
    else if m.tx.depth > 0 then m.(tx := m.tx.(batch := m.tx.batch + [s], sent := m.tx.sent + [s]))
    else m.(tx := m.tx.(out := m.tx.out + [MessageOut(s)], sent := m.tx.sent + [s]))
  }

  function Cork(m: Mux): Mux {
    m.(tx := m.tx.(depth := m.tx.depth + 1))
  }

  function Uncork(m: Mux): Mux {
    if m.tx.depth == 0 then m
    else if m.tx.depth == 1 && m.tx.batch != [] then
      m.(tx := m.tx.(depth := 0, batch := [], out := m.tx.out + [BatchOut(m.tx.batch)]))
    else m.(tx := m.tx.(depth := m.tx.depth - 1))
  }

  // ---------------------------------------------------------------- the network

  /** Two muxes, how many of each one's frames the other has read, and whether a frame was refused. */
  datatype Net = Net(a: Mux, b: Mux, readA: nat, readB: nat, failed: bool)

  const START: Net := Net(INITIAL, INITIAL, 0, 0, false)

  datatype Action = DoCreate(creation: Creation) | DoSend(sent: Sent) | DoCork | DoUncork | DoRead

  datatype Move = Move(onA: bool, action: Action)

  function Swap(n: Net): Net {
    Net(n.b, n.a, n.readB, n.readA, n.failed)
  }

  /** A byte vector is at most half the address space. */
  predicate Storable(b: Bytes) {
    |b| < TWO63
  }

  predicate OutOk(o: Out) {
    match o
    case OpenOut(_, c) => Storable(c.protocol) && Storable(Contents(c.id)) && Storable(Contents(c.handshake))
    case MessageOut(s) => Storable(s.data)
    case BatchOut(ss) => forall i :: 0 <= i < |ss| ==> Storable(ss[i].data)
    case RejectOut => true
  }

  lemma OutFits(o: Out)
    requires OutOk(o)
    ensures FrameOk(FrameOf(o))
  {
  }

  /** Ids have 32 bits, and a frame is read when one is there. */
  predicate EnabledA(n: Net, act: Action) {
    match act
    case DoCreate(c) => |n.a.rx.local| < TWO32 - 1 && OutOk(OpenOut(1, c))
    case DoSend(s) => Storable(s.data)
    case DoRead => n.readB < |n.b.tx.out| && OutOk(n.b.tx.out[n.readB])
    case _ => true
  }

  function StepA(n: Net, act: Action): Net
    requires EnabledA(n, act)
  {
    match act
    case DoCreate(c) => n.(a := Create(n.a, c))
    case DoSend(s) => n.(a := Send(n.a, s))
    case DoCork => n.(a := Cork(n.a))
    case DoUncork => n.(a := Uncork(n.a))
    case DoRead =>
      OutFits(n.b.tx.out[n.readB]);
      match HandleBytes(n.a, EncodeFrame(FrameOf(n.b.tx.out[n.readB])))
      case Some(a) => n.(a := a, readB := n.readB + 1)
      case None => n.(failed := true)
  }

  predicate Enabled(n: Net, e: Move) {
    EnabledA(if e.onA then n else Swap(n), e.action)
  }

  function Step(n: Net, e: Move): Net
    requires Enabled(n, e)
  {
    if e.onA then StepA(n, e.action) else Swap(StepA(Swap(n), e.action))
  }
}
