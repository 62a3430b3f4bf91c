/** What two connected muxes keep in every run: channels pair one to one, in order of creation
    per key, and each receiver hears one opening and then what was sent, in order. */
module MuxRuns {
  import opened Options
  import opened Codec
  import opened MuxFrames
  import opened MuxSpec

  // ---------------------------------------------------------------- what was written

  /** The channels that a run of frames opens, in order. */
  ghost function Creations(f: seq<Out>): seq<Creation> {
    if f == [] then []
    else
      var last := f[|f| - 1];
      Creations(f[..|f| - 1]) + (if last.OpenOut? then [last.creation] else [])
  }

  ghost function Carried(o: Out): seq<Sent> {
    match o
    case MessageOut(s) => [s]
    case BatchOut(ss) => ss
    case _ => []
  }

  /** The messages that a run of frames carries, in order. */
  ghost function Flat(f: seq<Out>): seq<Sent> {
    if f == [] then [] else Flat(f[..|f| - 1]) + Carried(f[|f| - 1])
  }

  /** A frame that may follow `before`: ids count up from one, and messages only use channels
      opened earlier. */
  ghost predicate NextOk(before: seq<Out>, o: Out) {
    && OutOk(o)
    && !o.RejectOut?
    && (o.OpenOut? ==> o.localId == |Creations(before)| + 1 < TWO32)
    && (o.BatchOut? ==> o.messages != [])
    && (forall s :: s in Carried(o) ==> 1 <= s.channel <= |Creations(before)|)
  }

  ghost predicate OutsOk(f: seq<Out>) {
    f == [] || (OutsOk(f[..|f| - 1]) && NextOk(f[..|f| - 1], f[|f| - 1]))
  }

  ghost predicate SenderOk(tx: Sender) {
    && OutsOk(tx.out)
    && Creations(tx.out) == tx.made
    && |tx.made| < TWO32
    && Flat(tx.out) + tx.batch == tx.sent
    && (forall i :: 0 <= i < |tx.batch| ==> 1 <= tx.batch[i].channel <= |tx.made| && Storable(tx.batch[i].data))
    && (tx.depth == 0 ==> tx.batch == [])
  }

  lemma {:induction false} PrefixOk(f: seq<Out>, n: nat)
    requires OutsOk(f) && n <= |f|
    ensures OutsOk(f[..n])
    ensures n < |f| ==> NextOk(f[..n], f[n])
    ensures Creations(f[..n]) <= Creations(f) && Flat(f[..n]) <= Flat(f)
    decreases |f|
  {
    if n == |f| {
      assert f[..n] == f;
    } else {
      var g := f[..|f| - 1];
      PrefixOk(g, n);
      assert g[..n] == f[..n];
      assert n < |g| ==> g[n] == f[n];
    }
  }

  lemma Snoc(f: seq<Out>, o: Out)
    ensures Creations(f + [o]) == Creations(f) + (if o.OpenOut? then [o.creation] else [])
    ensures Flat(f + [o]) == Flat(f) + Carried(o)
    ensures OutsOk(f + [o]) <==> OutsOk(f) && NextOk(f, o)
  {
    assert (f + [o])[..|f|] == f;
  }

  /** Messages use channels that the frames so far have opened. */
  lemma {:induction false} ChannelsOpened(f: seq<Out>)
    requires OutsOk(f)
    ensures forall s :: s in Flat(f) ==> 1 <= s.channel <= |Creations(f)|
  {
    if f != [] {
      ChannelsOpened(f[..|f| - 1]);
    }
  }

  // ---------------------------------------------------------------- positions by key

  /** The ids, counted from one, of the channels with a key, in order. */
  ghost function Positions(cs: seq<Creation>, key: Bytes): (r: seq<nat>)
    ensures |r| <= |cs|
    ensures forall n :: 0 <= n < |r| ==> 1 <= r[n] <= |cs| && cs[r[n] - 1].Key() == key
    ensures forall m, n :: 0 <= m < n < |r| ==> r[m] < r[n]
  {
    if cs == [] then []
    else
      var before := Positions(cs[..|cs| - 1], key);
      if cs[|cs| - 1].Key() == key then before + [|cs|] else before
  }

  lemma PositionsSnoc(cs: seq<Creation>, c: Creation, key: Bytes)
    ensures Positions(cs + [c], key) == if c.Key() == key then Positions(cs, key) + [|cs| + 1] else Positions(cs, key)
  {
    assert (cs + [c])[..|cs|] == cs;
  }

  /** Every channel has a place among those of its key. */
  lemma {:induction false} PositionOf(cs: seq<Creation>, i: nat) returns (n: nat)
    requires i < |cs|
    ensures n < |Positions(cs, cs[i].Key())| && Positions(cs, cs[i].Key())[n] == i + 1
  {
    if i == |cs| - 1 {
      n := |Positions(cs, cs[i].Key())| - 1;
    } else {
      n := PositionOf(cs[..|cs| - 1], i);
    }
  }

  lemma {:induction false} PositionsPrefix(p: seq<Creation>, cs: seq<Creation>, key: Bytes)
    requires p <= cs
    ensures Positions(p, key) <= Positions(cs, key)
    decreases |cs|
  {
    if |p| < |cs| {
      PositionsPrefix(p, cs[..|cs| - 1], key);
    } else {
      assert p == cs;
    }
  }

  // ---------------------------------------------------------------- what was heard

  /** The messages for one channel, as its handle is told of them. */
  ghost function Heard(ms: seq<Sent>, channel: nat): seq<Event> {
    if ms == [] then []
    else
      var last := ms[|ms| - 1];
      Heard(ms[..|ms| - 1], channel) + (if last.channel == channel then [Received(last.kind, last.data)] else [])
  }

  lemma HeardSnoc(ms: seq<Sent>, s: Sent, channel: nat)
    ensures Heard(ms + [s], channel) ==
            Heard(ms, channel) + (if s.channel == channel then [Received(s.kind, s.data)] else [])
  {
    assert (ms + [s])[..|ms|] == ms;
  }

  lemma {:induction false} HeardNone(ms: seq<Sent>, channel: nat)
    requires forall s :: s in ms ==> s.channel != channel
    ensures Heard(ms, channel) == []
  {
    if ms != [] {
      HeardNone(ms[..|ms| - 1], channel);
    }
  }

  lemma {:induction false} HeardPrefix(p: seq<Sent>, ms: seq<Sent>, channel: nat)
    requires p <= ms
    ensures Heard(p, channel) <= Heard(ms, channel)
    decreases |ms|
  {
    if |p| < |ms| {
      HeardPrefix(p, ms[..|ms| - 1], channel);
    } else {
      assert p == ms;
    }
  }

  // ---------------------------------------------------------------- the receiver's invariant

  ghost function Min(m: nat, n: nat): nat {
    if m <= n then m else n
  }

  /** Per key, the n-th of ours is paired with the n-th of theirs, and the rest wait in order. */
  ghost predicate KeyOk(rx: Receiver, ours: seq<nat>, theirs: seq<nat>, key: Bytes) {
    var m := Min(|ours|, |theirs|);
    && InfoOf(rx, key) == Info(ours[m..], theirs[m..])
    && (forall n :: 0 <= n < |ours| ==> 1 <= ours[n] <= |rx.local|)
    && (forall n :: 0 <= n < |theirs| ==> RemoteAt(rx, theirs[n]).Some?)
    && (forall n :: 0 <= n < m ==> rx.local[ours[n] - 1].remoteId == Some(theirs[n]))
    && (forall n :: m <= n < |ours| ==> !rx.local[ours[n] - 1].isOpen)
    && (forall n :: m <= n < |theirs| ==> RemoteAt(rx, theirs[n]).value.localId.None?)
  }

  ghost predicate KeysOk(rx: Receiver, own: seq<Creation>, theirs: seq<Creation>) {
    forall key :: KeyOk(rx, Positions(own, key), Positions(theirs, key), key)
  }

  /** A local channel is open exactly when it is paired, and its partner points back. */
  ghost predicate LocalOk(rx: Receiver, i: nat)
    requires i < |rx.local|
  {
    var ch := rx.local[i];
    && (ch.isOpen <==> ch.remoteId.Some?)
    && (!ch.isOpen ==> ch.events == [])
    && (ch.isOpen ==> RemoteAt(rx, ch.remoteId.value).Some? && RemoteAt(rx, ch.remoteId.value).value.localId == Some(i))
  }

  /** The messages heard for a remote channel are with its partner's handle, or wait for one. */
  ghost predicate RemoteOk(rx: Receiver, theirs: seq<Creation>, heard: seq<Sent>, j: nat)
    requires j < |theirs|
  {
    && RemoteAt(rx, j + 1).Some?
    && var r := RemoteAt(rx, j + 1).value;
       && (r.localId.None? ==> r.handshake == Seen(theirs[j].handshake) && Drained(r.pending) == Heard(heard, j + 1))
       && (r.localId.Some? ==>
             && r.localId.value < |rx.local|
             && var ch := rx.local[r.localId.value];
                && ch.isOpen && ch.remoteId == Some(j + 1)
                && ch.events == [Opened(Seen(theirs[j].handshake))] + Heard(heard, j + 1))
  }

  ghost predicate LocalsOk(rx: Receiver) {
    forall i :: 0 <= i < |rx.local| ==> LocalOk(rx, i)
  }

  ghost predicate RemotesOk(rx: Receiver, theirs: seq<Creation>, heard: seq<Sent>) {
    |rx.remote| == |theirs| && forall j :: 0 <= j < |theirs| ==> RemoteOk(rx, theirs, heard, j)
  }

  ghost predicate ReceiverOk(rx: Receiver, own: seq<Creation>, theirs: seq<Creation>, heard: seq<Sent>) {
    && |rx.local| == |own|
    && KeysOk(rx, own, theirs)
    && LocalsOk(rx)
    && RemotesOk(rx, theirs, heard)
  }

  // ---------------------------------------------------------------- creating a channel

  /** Only the table entry of one key changes. */
  ghost predicate InfoChanges(rx: Receiver, rx': Receiver, key: Bytes, info: Info) {
    InfoOf(rx', key) == info && forall k :: k != key ==> InfoOf(rx', k) == InfoOf(rx, k)
  }

  lemma KeyWaits(rx: Receiver, rx': Receiver, ours: seq<nat>, others: seq<nat>, key: Bytes, ch: Local)
    requires KeyOk(rx, ours, others, key) && !ch.isOpen && InfoOf(rx, key).incoming == []
    requires rx'.local == rx.local + [ch] && rx'.remote == rx.remote
    requires InfoOf(rx', key) == Info(InfoOf(rx, key).outgoing + [|rx.local| + 1], [])
    ensures KeyOk(rx', ours + [|rx.local| + 1], others, key)
  {
    hide InfoOf;
    assert |others| <= |ours|;
    assert (ours + [|rx.local| + 1])[|others|..] == ours[|others|..] + [|rx.local| + 1];
  }

  lemma KeyLonger(rx: Receiver, rx': Receiver, ours: seq<nat>, others: seq<nat>, key: Bytes)
    requires KeyOk(rx, ours, others, key) && rx.local <= rx'.local && rx.remote <= rx'.remote
    requires InfoOf(rx', key) == InfoOf(rx, key)
    ensures KeyOk(rx', ours, others, key)
  {
    hide InfoOf;
  }

  lemma CreateWaits(rx: Receiver, own: seq<Creation>, theirs: seq<Creation>, heard: seq<Sent>, c: Creation)
    requires ReceiverOk(rx, own, theirs, heard) && InfoOf(rx, c.Key()).incoming == []
    ensures ReceiverOk(CreateLocal(rx, c.protocol, c.id), own + [c], theirs, heard)
  {
    hide KeysOk, LocalsOk, RemotesOk, ChannelKey;
    var rx' := CreateLocal(rx, c.protocol, c.id);
    var ch := Local(c.protocol, c.id, None, false, []);
    assert rx' == Receiver(rx.local + [ch], rx.remote,
                           rx.infos[c.Key() := InfoOf(rx, c.Key()).(
                                      outgoing := InfoOf(rx, c.Key()).outgoing + [|rx.local| + 1])]);
    CreateWaitsKeys(rx, rx', own, theirs, c, ch);
    LocalAdded(rx, rx', ch);
    RemotesKept(rx, rx', theirs, heard);
  }

  lemma CreateWaitsKeys(rx: Receiver, rx': Receiver, own: seq<Creation>, theirs: seq<Creation>, c: Creation, ch: Local)
    requires KeysOk(rx, own, theirs) && |rx.local| == |own| && InfoOf(rx, c.Key()).incoming == [] && !ch.isOpen
    requires rx'.local == rx.local + [ch] && rx'.remote == rx.remote
    requires InfoChanges(rx, rx', c.Key(), Info(InfoOf(rx, c.Key()).outgoing + [|rx.local| + 1], []))
    ensures KeysOk(rx', own + [c], theirs)
  {
    hide InfoOf, ChannelKey, KeyOk, Positions;
    forall key
      ensures KeyOk(rx', Positions(own + [c], key), Positions(theirs, key), key)
    {
      assert KeyOk(rx, Positions(own, key), Positions(theirs, key), key);
      CreateWaitsKey(rx, rx', own, Positions(theirs, key), c, ch, key);
    }
  }

  lemma CreateWaitsKey(rx: Receiver, rx': Receiver, own: seq<Creation>, others: seq<nat>, c: Creation, ch: Local,
                       key: Bytes)
    requires KeyOk(rx, Positions(own, key), others, key) && |rx.local| == |own| && !ch.isOpen
    requires rx'.local == rx.local + [ch] && rx'.remote == rx.remote
    requires c.Key() == key ==> InfoOf(rx, key).incoming == [] &&
                                InfoOf(rx', key) == Info(InfoOf(rx, key).outgoing + [|rx.local| + 1], [])
    requires c.Key() != key ==> InfoOf(rx', key) == InfoOf(rx, key)
    ensures KeyOk(rx', Positions(own + [c], key), others, key)
  {
    hide InfoOf, ChannelKey, KeyOk, Positions;
    PositionsSnoc(own, c, key);
    if c.Key() == key {
      KeyWaits(rx, rx', Positions(own, key), others, key, ch);
    } else {
      KeyLonger(rx, rx', Positions(own, key), others, key);
    }
  }

  lemma LocalAdded(rx: Receiver, rx': Receiver, ch: Local)
    requires LocalsOk(rx) && !ch.isOpen && ch.remoteId.None? && ch.events == []
    requires rx'.local == rx.local + [ch] && rx'.remote == rx.remote
    ensures LocalsOk(rx')
  {
    forall i | 0 <= i < |rx'.local|
      ensures LocalOk(rx', i)
    {
      assert i < |rx.local| ==> LocalOk(rx, i);
    }
  }

  lemma RemotesKept(rx: Receiver, rx': Receiver, theirs: seq<Creation>, heard: seq<Sent>)
    requires RemotesOk(rx, theirs, heard) && rx.local <= rx'.local && rx'.remote == rx.remote
    ensures RemotesOk(rx', theirs, heard)
  {
    forall j | 0 <= j < |theirs|
      ensures RemoteOk(rx', theirs, heard, j)
    {
      assert RemoteOk(rx, theirs, heard, j);
    }
  }

  /** The remote channel that a new local channel is paired with. */
  lemma FirstIncoming(rx: Receiver, ours: seq<nat>, others: seq<nat>, key: Bytes)
    requires KeyOk(rx, ours, others, key) && InfoOf(rx, key).incoming != []
    ensures |ours| < |others| && InfoOf(rx, key) == Info([], others[|ours|..]) &&
            others[|ours|] == InfoOf(rx, key).incoming[0]
    ensures RemoteAt(rx, others[|ours|]).Some? && RemoteAt(rx, others[|ours|]).value.localId.None?
  {
  }

  lemma KeyTaken(rx: Receiver, rx': Receiver, ours: seq<nat>, others: seq<nat>, key: Bytes, ch: Local, r: Remote,
                 rid: nat)
    requires KeyOk(rx, ours, others, key) && InfoOf(rx, key).incoming != [] && rid == InfoOf(rx, key).incoming[0]
    requires 1 <= rid <= |rx.remote|
    requires forall m, n :: 0 <= m < n < |others| ==> others[m] < others[n]
    requires rx'.local == rx.local + [ch] && ch.remoteId == Some(rid) && rx'.remote == rx.remote[rid - 1 := Some(r)]
    requires InfoOf(rx', key) == Info(InfoOf(rx, key).outgoing, InfoOf(rx, key).incoming[1..])
    ensures KeyOk(rx', ours + [|rx.local| + 1], others, key)
  {
    FirstIncoming(rx, ours, others, key);
    assert others[|ours|..][1..] == others[|ours| + 1..];
  }

  lemma KeyUntouched(rx: Receiver, rx': Receiver, ours: seq<nat>, others: seq<nat>, key: Bytes, ch: Local, r: Remote,
                     rid: nat)
    requires KeyOk(rx, ours, others, key) && 1 <= rid <= |rx.remote| && rid !in others
    requires rx'.local == rx.local + [ch] && rx'.remote == rx.remote[rid - 1 := Some(r)]
    requires InfoOf(rx', key) == InfoOf(rx, key)
    ensures KeyOk(rx', ours, others, key)
  {
    forall n | 0 <= n < |others|
      ensures RemoteAt(rx', others[n]) == RemoteAt(rx, others[n])
    {
      assert others[n] in others;
    }
  }

  lemma NotOfKey(cs: seq<Creation>, id: nat, key: Bytes)
    requires 1 <= id <= |cs| && cs[id - 1].Key() != key
    ensures id !in Positions(cs, key)
  {
  }

  lemma CreatePairs(rx: Receiver, own: seq<Creation>, theirs: seq<Creation>, heard: seq<Sent>, c: Creation)
    requires ReceiverOk(rx, own, theirs, heard) && InfoOf(rx, c.Key()).incoming != []
    ensures ReceiverOk(CreateLocal(rx, c.protocol, c.id), own + [c], theirs, heard)
  {
    var rx' := CreateLocal(rx, c.protocol, c.id);
    var rid := InfoOf(rx, c.Key()).incoming[0];
    IncomingKnown(rx, own, theirs, heard, c.Key());
    hide KeysOk, LocalsOk, RemotesOk, ChannelKey;
    var r := RemoteAt(rx, rid).value;
    var ch := Local(c.protocol, c.id, Some(rid), true, [Opened(r.handshake)] + Drained(r.pending));
    var r' := Remote(None, Some(|rx.local|), []);
    assert rx'.local == rx.local + [ch] && rx'.remote == rx.remote[rid - 1 := Some(r')];
    CreatePairsKeys(rx, rx', own, theirs, c, ch, r', rid);
    CreatePairsLocals(rx, rx', ch, r', rid);
    CreatePairsRemotes(rx, rx', theirs, heard, ch, r', rid);
  }

  lemma IncomingKnown(rx: Receiver, own: seq<Creation>, theirs: seq<Creation>, heard: seq<Sent>, key: Bytes)
    requires ReceiverOk(rx, own, theirs, heard) && InfoOf(rx, key).incoming != []
    ensures var rid := InfoOf(rx, key).incoming[0];
            && 1 <= rid <= |theirs| && theirs[rid - 1].Key() == key
            && RemoteAt(rx, rid).Some? && RemoteAt(rx, rid).value.localId.None?
  {
    assert KeyOk(rx, Positions(own, key), Positions(theirs, key), key);
    hide KeysOk, LocalsOk, RemotesOk, KeyOk;
    FirstIncoming(rx, Positions(own, key), Positions(theirs, key), key);
  }

  lemma CreatePairsKeys(rx: Receiver, rx': Receiver, own: seq<Creation>, theirs: seq<Creation>, c: Creation, ch: Local,
                        r: Remote, rid: nat)
    requires KeysOk(rx, own, theirs) && |rx.local| == |own| && |rx.remote| == |theirs| &&
             InfoOf(rx, c.Key()).incoming != []
    requires 1 <= rid <= |theirs| && theirs[rid - 1].Key() == c.Key() && rid == InfoOf(rx, c.Key()).incoming[0]
    requires rx'.local == rx.local + [ch] && ch.remoteId == Some(rid) && rx'.remote == rx.remote[rid - 1 := Some(r)]
    requires InfoChanges(rx, rx', c.Key(), Info(InfoOf(rx, c.Key()).outgoing, InfoOf(rx, c.Key()).incoming[1..]))
    ensures KeysOk(rx', own + [c], theirs)
  {
    hide InfoOf, ChannelKey;
    forall key
      ensures KeyOk(rx', Positions(own + [c], key), Positions(theirs, key), key)
    {
      assert KeyOk(rx, Positions(own, key), Positions(theirs, key), key);
      hide KeyOk;
      PositionsSnoc(own, c, key);
      if c.Key() == key {
        KeyTaken(rx, rx', Positions(own, key), Positions(theirs, key), key, ch, r, rid);
      } else {
        NotOfKey(theirs, rid, key);
        KeyUntouched(rx, rx', Positions(own, key), Positions(theirs, key), key, ch, r, rid);
      }
    }
  }

  lemma CreatePairsLocals(rx: Receiver, rx': Receiver, ch: Local, r: Remote, rid: nat)
    requires LocalsOk(rx) && RemoteAt(rx, rid).Some? && RemoteAt(rx, rid).value.localId.None?
    requires ch.isOpen && ch.remoteId == Some(rid) && r.localId == Some(|rx.local|)
    requires rx'.local == rx.local + [ch] && rx'.remote == rx.remote[rid - 1 := Some(r)]
    ensures LocalsOk(rx')
  {
    forall i | 0 <= i < |rx'.local|
      ensures LocalOk(rx', i)
    {
      assert i < |rx.local| ==> LocalOk(rx, i);
    }
  }

  lemma CreatePairsRemotes(rx: Receiver, rx': Receiver, theirs: seq<Creation>, heard: seq<Sent>, ch: Local, r: Remote,
                           rid: nat)
    requires RemotesOk(rx, theirs, heard) && 1 <= rid <= |theirs|
    requires RemoteAt(rx, rid).Some? && RemoteAt(rx, rid).value.localId.None?
    requires ch.isOpen && ch.remoteId == Some(rid) && r.localId == Some(|rx.local|)
    requires ch.events == [Opened(RemoteAt(rx, rid).value.handshake)] + Drained(RemoteAt(rx, rid).value.pending)
    requires rx'.local == rx.local + [ch] && rx'.remote == rx.remote[rid - 1 := Some(r)]
    ensures RemotesOk(rx', theirs, heard)
  {
    assert RemoteOk(rx, theirs, heard, rid - 1);
    forall j | 0 <= j < |theirs|
      ensures RemoteOk(rx', theirs, heard, j)
    {
      assert RemoteOk(rx, theirs, heard, j);
    }
  }

  lemma CreateKeeps(rx: Receiver, own: seq<Creation>, theirs: seq<Creation>, heard: seq<Sent>, c: Creation)
    requires ReceiverOk(rx, own, theirs, heard)
    ensures ReceiverOk(CreateLocal(rx, c.protocol, c.id), own + [c], theirs, heard)
  {
    hide ReceiverOk, CreateLocal, InfoOf, ChannelKey;
    if InfoOf(rx, c.Key()).incoming == [] {
      CreateWaits(rx, own, theirs, heard, c);
    } else {
      CreatePairs(rx, own, theirs, heard, c);
    }
  }

  // ---------------------------------------------------------------- reading an open frame

  lemma KeyOpenWaits(rx: Receiver, rx': Receiver, ours: seq<nat>, others: seq<nat>, key: Bytes, r: Remote)
    requires KeyOk(rx, ours, others, key) && r.localId.None? && InfoOf(rx, key).outgoing == []
    requires rx'.local == rx.local && rx'.remote == rx.remote + [Some(r)]
    requires InfoOf(rx', key) == Info([], InfoOf(rx, key).incoming + [|rx.remote| + 1])
    ensures KeyOk(rx', ours, others + [|rx.remote| + 1], key)
  {
    hide InfoOf;
    assert |ours| <= |others|;
    assert (others + [|rx.remote| + 1])[|ours|..] == others[|ours|..] + [|rx.remote| + 1];
  }

  /** The local channel that an open frame is paired with. */
  lemma FirstOutgoing(rx: Receiver, ours: seq<nat>, others: seq<nat>, key: Bytes)
    requires KeyOk(rx, ours, others, key) && InfoOf(rx, key).outgoing != []
    ensures |others| < |ours| && InfoOf(rx, key) == Info(ours[|others|..], []) &&
            ours[|others|] == InfoOf(rx, key).outgoing[0]
    ensures 1 <= ours[|others|] <= |rx.local| && !rx.local[ours[|others|] - 1].isOpen
  {
  }

  lemma KeyOpenTaken(rx: Receiver, rx': Receiver, ours: seq<nat>, others: seq<nat>, key: Bytes, ch: Local, r: Remote,
                     pos: nat)
    requires KeyOk(rx, ours, others, key) && InfoOf(rx, key).outgoing != [] && pos == InfoOf(rx, key).outgoing[0]
    requires 1 <= pos <= |rx.local|
    requires forall m, n :: 0 <= m < n < |ours| ==> ours[m] < ours[n]
    requires rx'.local == rx.local[pos - 1 := ch] && ch.remoteId == Some(|rx.remote| + 1) &&
             rx'.remote == rx.remote + [Some(r)]
    requires InfoOf(rx', key) == Info(InfoOf(rx, key).outgoing[1..], InfoOf(rx, key).incoming)
    ensures KeyOk(rx', ours, others + [|rx.remote| + 1], key)
  {
    FirstOutgoing(rx, ours, others, key);
    assert ours[|others|..][1..] == ours[|others| + 1..];
  }

  lemma KeyOpenUntouched(rx: Receiver, rx': Receiver, ours: seq<nat>, others: seq<nat>, key: Bytes, ch: Local,
                         r: Remote, pos: nat)
    requires KeyOk(rx, ours, others, key) && 1 <= pos <= |rx.local| && pos !in ours
    requires rx'.local == rx.local[pos - 1 := ch] && rx'.remote == rx.remote + [Some(r)]
    requires InfoOf(rx', key) == InfoOf(rx, key)
    ensures KeyOk(rx', ours, others, key)
  {
    forall n | 0 <= n < |ours|
      ensures rx'.local[ours[n] - 1] == rx.local[ours[n] - 1]
    {
      assert ours[n] in ours;
    }
  }

  ghost function AsSeen(c: Creation): Creation {
    Creation(c.protocol, Seen(c.id), Seen(c.handshake))
  }

  lemma SeenKey(c: Creation)
    ensures AsSeen(c).Key() == c.Key()
  {
    KeyShape(c.protocol, c.id);
  }

  lemma OpenWaits(rx: Receiver, own: seq<Creation>, theirs: seq<Creation>, heard: seq<Sent>, c: Creation)
    requires ReceiverOk(rx, own, theirs, heard) && InfoOf(rx, c.Key()).outgoing == []
    requires forall s :: s in heard ==> s.channel <= |theirs|
    ensures var o := AcceptOpen(rx, |theirs| + 1, c.protocol, Seen(c.id), Seen(c.handshake));
            o.Some? && ReceiverOk(o.value, own, theirs + [c], heard)
  {
    SeenKey(c);
    hide KeysOk, LocalsOk, ChannelKey;
    var rx' := AcceptOpen(rx, |theirs| + 1, c.protocol, Seen(c.id), Seen(c.handshake)).value;
    var r := Remote(Seen(c.handshake), None, []);
    assert Grown(rx.remote, |theirs| + 1) == rx.remote + [None];
    assert rx'.local == rx.local && rx'.remote == rx.remote + [Some(r)];
    hide RemotesOk;
    OpenWaitsKeys(rx, rx', own, theirs, c, r);
    LocalsKept(rx, rx');
    HeardNone(heard, |theirs| + 1);
    RemoteAdded(rx, rx', theirs, heard, c, r);
  }

  lemma OpenWaitsKeys(rx: Receiver, rx': Receiver, own: seq<Creation>, theirs: seq<Creation>, c: Creation, r: Remote)
    requires KeysOk(rx, own, theirs) && |rx.remote| == |theirs| && InfoOf(rx, c.Key()).outgoing == [] && r.localId.None?
    requires rx'.local == rx.local && rx'.remote == rx.remote + [Some(r)]
    requires InfoChanges(rx, rx', c.Key(), Info([], InfoOf(rx, c.Key()).incoming + [|rx.remote| + 1]))
    ensures KeysOk(rx', own, theirs + [c])
  {
    hide InfoOf, ChannelKey, KeyOk, Positions;
    forall key
      ensures KeyOk(rx', Positions(own, key), Positions(theirs + [c], key), key)
    {
      assert KeyOk(rx, Positions(own, key), Positions(theirs, key), key);
      OpenWaitsKey(rx, rx', Positions(own, key), theirs, c, r, key);
    }
  }

  lemma OpenWaitsKey(rx: Receiver, rx': Receiver, ours: seq<nat>, theirs: seq<Creation>, c: Creation, r: Remote,
                     key: Bytes)
    requires KeyOk(rx, ours, Positions(theirs, key), key) && |rx.remote| == |theirs| && r.localId.None?
    requires rx'.local == rx.local && rx'.remote == rx.remote + [Some(r)]
    requires c.Key() == key ==> InfoOf(rx, key).outgoing == [] &&
                                InfoOf(rx', key) == Info([], InfoOf(rx, key).incoming + [|rx.remote| + 1])
    requires c.Key() != key ==> InfoOf(rx', key) == InfoOf(rx, key)
    ensures KeyOk(rx', ours, Positions(theirs + [c], key), key)
  {
    hide InfoOf, ChannelKey, KeyOk, Positions;
    PositionsSnoc(theirs, c, key);
    if c.Key() == key {
      KeyOpenWaits(rx, rx', ours, Positions(theirs, key), key, r);
    } else {
      KeyLonger(rx, rx', ours, Positions(theirs, key), key);
    }
  }

  lemma LocalsKept(rx: Receiver, rx': Receiver)
    requires LocalsOk(rx) && rx'.local == rx.local && rx.remote <= rx'.remote
    ensures LocalsOk(rx')
  {
    forall i | 0 <= i < |rx'.local|
      ensures LocalOk(rx', i)
    {
      assert LocalOk(rx, i);
    }
  }

  lemma RemoteAdded(rx: Receiver, rx': Receiver, theirs: seq<Creation>, heard: seq<Sent>, c: Creation, r: Remote)
    requires RemotesOk(rx, theirs, heard) && Heard(heard, |theirs| + 1) == []
    requires r == Remote(Seen(c.handshake), None, [])
    requires rx'.local == rx.local && rx'.remote == rx.remote + [Some(r)]
    ensures RemotesOk(rx', theirs + [c], heard)
  {
    forall j | 0 <= j < |theirs| + 1
      ensures RemoteOk(rx', theirs + [c], heard, j)
    {
      assert j < |theirs| ==> RemoteOk(rx, theirs, heard, j);
    }
  }

  lemma OutgoingKnown(rx: Receiver, own: seq<Creation>, theirs: seq<Creation>, heard: seq<Sent>, key: Bytes)
    requires ReceiverOk(rx, own, theirs, heard) && InfoOf(rx, key).outgoing != []
    ensures var pos := InfoOf(rx, key).outgoing[0];
            && 1 <= pos <= |own| && own[pos - 1].Key() == key
            && !rx.local[pos - 1].isOpen && rx.local[pos - 1].events == []
  {
    assert KeyOk(rx, Positions(own, key), Positions(theirs, key), key);
    FirstOutgoing(rx, Positions(own, key), Positions(theirs, key), key);
    hide KeysOk, RemotesOk, KeyOk;
    assert LocalOk(rx, InfoOf(rx, key).outgoing[0] - 1);
  }

  lemma OpenPairs(rx: Receiver, own: seq<Creation>, theirs: seq<Creation>, heard: seq<Sent>, c: Creation)
    requires ReceiverOk(rx, own, theirs, heard) && InfoOf(rx, c.Key()).outgoing != []
    requires forall s :: s in heard ==> s.channel <= |theirs|
    ensures var o := AcceptOpen(rx, |theirs| + 1, c.protocol, Seen(c.id), Seen(c.handshake));
            o.Some? && ReceiverOk(o.value, own, theirs + [c], heard)
  {
    SeenKey(c);
    OutgoingKnown(rx, own, theirs, heard, c.Key());
    hide KeysOk, LocalsOk, ChannelKey;
    var pos := InfoOf(rx, c.Key()).outgoing[0];
    var r := Remote(Seen(c.handshake), Some(pos - 1), []);
    var ch := rx.local[pos - 1].(remoteId := Some(|theirs| + 1), isOpen := true, events := [Opened(Seen(c.handshake))]);
    assert rx.local[pos - 1].events + [Opened(Seen(c.handshake))] == [Opened(Seen(c.handshake))];
    assert Grown(rx.remote, |theirs| + 1) == rx.remote + [None];
    var rx' := AcceptOpen(rx, |theirs| + 1, c.protocol, Seen(c.id), Seen(c.handshake)).value;
    assert rx'.local == rx.local[pos - 1 := ch] && rx'.remote == rx.remote + [Some(r)];
    hide RemotesOk;
    OpenPairsKeys(rx, rx', own, theirs, c, ch, r, pos);
    OpenPairsLocals(rx, rx', ch, r, pos);
    HeardNone(heard, |theirs| + 1);
    OpenPairsRemotes(rx, rx', theirs, heard, c, ch, r, pos);
  }

  lemma OpenPairsKeys(rx: Receiver, rx': Receiver, own: seq<Creation>, theirs: seq<Creation>, c: Creation, ch: Local,
                      r: Remote, pos: nat)
    requires KeysOk(rx, own, theirs) && |rx.local| == |own| && |rx.remote| == |theirs| &&
             InfoOf(rx, c.Key()).outgoing != []
    requires 1 <= pos <= |own| && own[pos - 1].Key() == c.Key() && pos == InfoOf(rx, c.Key()).outgoing[0]
    requires rx'.local == rx.local[pos - 1 := ch] && ch.remoteId == Some(|rx.remote| + 1) &&
             rx'.remote == rx.remote + [Some(r)]
    requires InfoChanges(rx, rx', c.Key(), Info(InfoOf(rx, c.Key()).outgoing[1..], InfoOf(rx, c.Key()).incoming))
    ensures KeysOk(rx', own, theirs + [c])
  {
    hide InfoOf, ChannelKey;
    forall key
      ensures KeyOk(rx', Positions(own, key), Positions(theirs + [c], key), key)
    {
      assert KeyOk(rx, Positions(own, key), Positions(theirs, key), key);
      hide KeyOk;
      PositionsSnoc(theirs, c, key);
      if c.Key() == key {
        KeyOpenTaken(rx, rx', Positions(own, key), Positions(theirs, key), key, ch, r, pos);
      } else {
        NotOfKey(own, pos, key);
        KeyOpenUntouched(rx, rx', Positions(own, key), Positions(theirs, key), key, ch, r, pos);
      }
    }
  }

  lemma OpenPairsLocals(rx: Receiver, rx': Receiver, ch: Local, r: Remote, pos: nat)
    requires LocalsOk(rx) && 1 <= pos <= |rx.local| && ch.isOpen && ch.remoteId == Some(|rx.remote| + 1) &&
             r.localId == Some(pos - 1)
    requires rx'.local == rx.local[pos - 1 := ch] && rx'.remote == rx.remote + [Some(r)]
    ensures LocalsOk(rx')
  {
    forall i | 0 <= i < |rx'.local|
      ensures LocalOk(rx', i)
    {
      assert LocalOk(rx, i);
    }
  }

  lemma OpenPairsRemotes(rx: Receiver, rx': Receiver, theirs: seq<Creation>, heard: seq<Sent>, c: Creation, ch: Local,
                         r: Remote, pos: nat)
    requires RemotesOk(rx, theirs, heard) && Heard(heard, |theirs| + 1) == []
    requires 1 <= pos <= |rx.local| && !rx.local[pos - 1].isOpen && r.localId == Some(pos - 1)
    requires ch.isOpen && ch.remoteId == Some(|theirs| + 1) && ch.events == [Opened(Seen(c.handshake))]
    requires rx'.local == rx.local[pos - 1 := ch] && rx'.remote == rx.remote + [Some(r)]
    ensures RemotesOk(rx', theirs + [c], heard)
  {
    assert ch.events == [Opened(Seen(c.handshake))] + [];
    forall j | 0 <= j < |theirs| + 1
      ensures RemoteOk(rx', theirs + [c], heard, j)
    {
      assert j < |theirs| ==> RemoteOk(rx, theirs, heard, j);
    }
  }

  lemma OpenKeeps(rx: Receiver, own: seq<Creation>, theirs: seq<Creation>, heard: seq<Sent>, c: Creation)
    requires ReceiverOk(rx, own, theirs, heard)
    requires forall s :: s in heard ==> s.channel <= |theirs|
    ensures var o := AcceptOpen(rx, |theirs| + 1, c.protocol, Seen(c.id), Seen(c.handshake));
            o.Some? && ReceiverOk(o.value, own, theirs + [c], heard)
  {
    hide ReceiverOk, AcceptOpen, InfoOf, ChannelKey;
    if InfoOf(rx, c.Key()).outgoing == [] {
      OpenWaits(rx, own, theirs, heard, c);
    } else {
      OpenPairs(rx, own, theirs, heard, c);
    }
  }

  // ---------------------------------------------------------------- reading a message

  /** The pairing is the same; only events and buffers differ. */
  ghost predicate SamePairing(rx: Receiver, rx': Receiver) {
    && rx'.infos == rx.infos && |rx'.local| == |rx.local| && |rx'.remote| == |rx.remote|
    && (forall i :: 0 <= i < |rx.local| ==>
          rx'.local[i].remoteId == rx.local[i].remoteId && rx'.local[i].isOpen == rx.local[i].isOpen)
    && (forall j :: 0 <= j < |rx.remote| ==> (rx'.remote[j].Some? <==> rx.remote[j].Some?))
    && (forall j :: 0 <= j < |rx.remote| && rx.remote[j].Some? ==>
          rx'.remote[j].value.localId == rx.remote[j].value.localId)
  }

  lemma KeysStable(rx: Receiver, rx': Receiver, own: seq<Creation>, theirs: seq<Creation>)
    requires KeysOk(rx, own, theirs) && SamePairing(rx, rx')
    ensures KeysOk(rx', own, theirs)
  {
    forall key
      ensures KeyOk(rx', Positions(own, key), Positions(theirs, key), key)
    {
      assert KeyOk(rx, Positions(own, key), Positions(theirs, key), key);
      KeyStable(rx, rx', Positions(own, key), Positions(theirs, key), key);
    }
  }

  lemma KeyStable(rx: Receiver, rx': Receiver, ours: seq<nat>, others: seq<nat>, key: Bytes)
    requires KeyOk(rx, ours, others, key) && SamePairing(rx, rx')
    ensures KeyOk(rx', ours, others, key)
  {
  }

  lemma DrainedSnoc(p: seq<Buffered>, b: Buffered)
    ensures Drained(p + [b]) == Drained(p) + [Received(b.kind % TWO32, b.data)]
  {
    assert (p + [b])[..|p|] == p;
  }

  lemma DispatchKeeps(rx: Receiver, own: seq<Creation>, theirs: seq<Creation>, heard: seq<Sent>, s: Sent)
    requires ReceiverOk(rx, own, theirs, heard) && 1 <= s.channel <= |theirs| && s.channel < TWO32
    ensures ReceiverOk(Dispatch(rx, s.channel, s.kind, s.data), own, theirs, heard + [s])
  {
    var j := s.channel - 1;
    assert RemoteOk(rx, theirs, heard, j);
    var r := RemoteAt(rx, s.channel).value;
    var rx' := Dispatch(rx, s.channel, s.kind, s.data);
    hide KeysOk, LocalsOk, RemotesOk;
    if r.localId.Some? {
      DispatchToHandle(rx, rx', own, theirs, heard, s, r.localId.value);
    } else {
      DispatchToBuffer(rx, rx', own, theirs, heard, s);
    }
  }

  lemma DispatchToHandle(rx: Receiver, rx': Receiver, own: seq<Creation>, theirs: seq<Creation>, heard: seq<Sent>,
                         s: Sent, i: nat)
    requires ReceiverOk(rx, own, theirs, heard) && 1 <= s.channel <= |theirs| && i < |rx.local|
    requires RemoteAt(rx, s.channel).Some? && RemoteAt(rx, s.channel).value.localId == Some(i)
    requires rx' == rx.(local := rx.local[i := rx.local[i].(events := rx.local[i].events + [Received(s.kind, s.data)])])
    requires rx.local[i].isOpen
    ensures ReceiverOk(rx', own, theirs, heard + [s])
  {
    hide KeysOk, LocalsOk, RemotesOk;
    KeysStable(rx, rx', own, theirs);
    HandedLocals(rx, rx', i);
    HandedRemotes(rx, rx', theirs, heard, s, i);
  }

  lemma HandedLocals(rx: Receiver, rx': Receiver, i: nat)
    requires LocalsOk(rx) && i < |rx.local| && rx.local[i].isOpen && rx'.remote == rx.remote && SamePairing(rx, rx')
    requires forall k :: 0 <= k < |rx.local| && k != i ==> rx'.local[k] == rx.local[k]
    ensures LocalsOk(rx')
  {
    forall k | 0 <= k < |rx'.local|
      ensures LocalOk(rx', k)
    {
      assert LocalOk(rx, k);
    }
  }

  lemma HandedRemotes(rx: Receiver, rx': Receiver, theirs: seq<Creation>, heard: seq<Sent>, s: Sent, i: nat)
    requires RemotesOk(rx, theirs, heard) && 1 <= s.channel <= |theirs| && i < |rx.local|
    requires RemoteAt(rx, s.channel).Some? && RemoteAt(rx, s.channel).value.localId == Some(i)
    requires rx' == rx.(local := rx.local[i := rx.local[i].(events := rx.local[i].events + [Received(s.kind, s.data)])])
    ensures RemotesOk(rx', theirs, heard + [s])
  {
    hide RemoteOk;
    forall j | 0 <= j < |theirs|
      ensures RemoteOk(rx', theirs, heard + [s], j)
    {
      HandedRemote(rx, rx', theirs, heard, s, i, j);
    }
  }

  lemma HandedRemote(rx: Receiver, rx': Receiver, theirs: seq<Creation>, heard: seq<Sent>, s: Sent, i: nat, j: nat)
    requires 1 <= s.channel <= |theirs| && i < |rx.local| && j < |theirs|
    requires RemoteOk(rx, theirs, heard, s.channel - 1) && RemoteOk(rx, theirs, heard, j)
    requires RemoteAt(rx, s.channel).Some? && RemoteAt(rx, s.channel).value.localId == Some(i)
    requires rx' == rx.(local := rx.local[i := rx.local[i].(events := rx.local[i].events + [Received(s.kind, s.data)])])
    ensures RemoteOk(rx', theirs, heard + [s], j)
  {
    hide Heard;
    HeardSnoc(heard, s, j + 1);
  }

  lemma DispatchToBuffer(rx: Receiver, rx': Receiver, own: seq<Creation>, theirs: seq<Creation>, heard: seq<Sent>,
                         s: Sent)
    requires ReceiverOk(rx, own, theirs, heard) && 1 <= s.channel <= |theirs|
    requires RemoteAt(rx, s.channel).Some? && RemoteAt(rx, s.channel).value.localId.None?
    requires var r := RemoteAt(rx, s.channel).value;
             rx' == rx.(remote :=
                        rx.remote[s.channel - 1 := Some(r.(pending := r.pending + [Buffered(s.kind, s.data)]))])
    ensures ReceiverOk(rx', own, theirs, heard + [s])
  {
    hide KeysOk, LocalsOk, RemotesOk;
    KeysStable(rx, rx', own, theirs);
    BufferedLocals(rx, rx');
    BufferedRemotes(rx, rx', theirs, heard, s);
  }

  lemma BufferedLocals(rx: Receiver, rx': Receiver)
    requires LocalsOk(rx) && rx'.local == rx.local && SamePairing(rx, rx')
    ensures LocalsOk(rx')
  {
    forall k | 0 <= k < |rx'.local|
      ensures LocalOk(rx', k)
    {
      assert LocalOk(rx, k);
    }
  }

  lemma BufferedRemotes(rx: Receiver, rx': Receiver, theirs: seq<Creation>, heard: seq<Sent>, s: Sent)
    requires RemotesOk(rx, theirs, heard) && 1 <= s.channel <= |theirs|
    requires RemoteAt(rx, s.channel).Some? && RemoteAt(rx, s.channel).value.localId.None?
    requires var r := RemoteAt(rx, s.channel).value;
             rx' == rx.(remote :=
                        rx.remote[s.channel - 1 := Some(r.(pending := r.pending + [Buffered(s.kind, s.data)]))])
    ensures RemotesOk(rx', theirs, heard + [s])
  {
    DrainedSnoc(RemoteAt(rx, s.channel).value.pending, Buffered(s.kind, s.data));
    hide Drained;
    forall j | 0 <= j < |theirs|
      ensures RemoteOk(rx', theirs, heard + [s], j)
    {
      assert RemoteOk(rx, theirs, heard, j);
      HeardSnoc(heard, s, j + 1);
    }
  }

  lemma {:induction false} BatchKeeps(rx: Receiver, own: seq<Creation>, theirs: seq<Creation>, heard: seq<Sent>,
                                      ss: seq<Sent>)
    requires ReceiverOk(rx, own, theirs, heard) && |theirs| < TWO32
    requires forall s :: s in ss ==> 1 <= s.channel <= |theirs|
    ensures var o := DispatchItems(rx, ItemsOf(ss));
            o.Some? && ReceiverOk(o.value, own, theirs, heard + ss)
    decreases |ss|
  {
    hide ReceiverOk, Dispatch, EncodeUint, DecodeUint;
    if ss == [] {
      assert heard + ss == heard;
    } else {
      var s := ss[0];
      assert s in ss;
      UintRoundTrip(s.kind, s.data);
      DispatchKeeps(rx, own, theirs, heard, s);
      BatchKeeps(Dispatch(rx, s.channel, s.kind, s.data), own, theirs, heard + [s], ss[1..]);
      assert heard + [s] + ss[1..] == heard + ss;
      assert ItemsOf(ss)[1..] == ItemsOf(ss[1..]);
    }
  }

  // ---------------------------------------------------------------- reading a frame

  ghost predicate ReadsTo(m: Mux, o: Out, f: seq<Out>)
    requires OutOk(o)
  {
    OutFits(o);
    var r := HandleBytes(m, EncodeFrame(FrameOf(o)));
    && r.Some? && r.value.tx == m.tx
    && ReceiverOk(r.value.rx, m.tx.made, Creations(f + [o]), Flat(f + [o]))
  }

  lemma HandleDecoded(m: Mux, b: Bytes, f: Frame)
    requires DecodeFrame(b).Got? && DecodeFrame(b).value == f && !f.Close? && !f.Reject?
    ensures HandleBytes(m, b) == HandleFrame(m, f)
  {
    hide DecodeFrame, HandleFrame;
  }

  lemma OpenBytes(m: Mux, localId: u64, c: Creation)
    requires 1 <= localId < TWO32 && OutOk(OpenOut(localId, c))
    ensures FrameOk(FrameOf(OpenOut(localId, c)))
    ensures HandleBytes(m, EncodeFrame(FrameOf(OpenOut(localId, c)))) ==
            match AcceptOpen(m.rx, localId, c.protocol, Seen(c.id), Seen(c.handshake))
            case Some(rx) => Some(m.(rx := rx))
            case None => None
  {
    hide EncodeFrame, DecodeFrame, AcceptOpen, HandleBytes;
    OpenRoundTrip(localId, c.protocol, c.id, c.handshake);
    HandleDecoded(m, EncodeFrame(Open(localId, c.protocol, c.id, c.handshake)),
                  Open(localId, c.protocol, Seen(c.id), Seen(c.handshake)));
  }

  lemma BatchBytes(m: Mux, ss: seq<Sent>)
    requires ss != [] && OutOk(BatchOut(ss))
    ensures FrameOk(FrameOf(BatchOut(ss)))
    ensures HandleBytes(m, EncodeFrame(FrameOf(BatchOut(ss)))) ==
            match DispatchItems(m.rx, ItemsOf(ss))
            case Some(rx) => Some(m.(rx := rx))
            case None => None
  {
    hide EncodeFrame, DecodeFrame, DispatchItems, HandleBytes;
    OutFits(BatchOut(ss));
    BatchRoundTrip(ItemsOf(ss));
    HandleDecoded(m, EncodeFrame(Batch(ItemsOf(ss))), Batch(ItemsOf(ss)));
  }

  lemma ReadOpen(m: Mux, f: seq<Out>, o: Out)
    requires ReceiverOk(m.rx, m.tx.made, Creations(f), Flat(f)) && OutsOk(f) && NextOk(f, o) && o.OpenOut?
    ensures ReadsTo(m, o, f)
  {
    Snoc(f, o);
    ChannelsOpened(f);
    hide OutsOk, Creations, Flat, ReceiverOk, AcceptOpen, HandleBytes, EncodeFrame;
    OpenKeeps(m.rx, m.tx.made, Creations(f), Flat(f), o.creation);
    OpenBytes(m, o.localId, o.creation);
    assert Flat(f) + [] == Flat(f);
  }

  lemma ReadMessage(m: Mux, f: seq<Out>, o: Out)
    requires ReceiverOk(m.rx, m.tx.made, Creations(f), Flat(f)) && OutsOk(f) && NextOk(f, o) && o.MessageOut?
    requires |Creations(f)| < TWO32
    ensures ReadsTo(m, o, f)
  {
    var s := o.message;
    assert s in Carried(o);
    Snoc(f, o);
    hide OutsOk, Creations, Flat, ReceiverOk, Dispatch, HandleBytes, EncodeFrame;
    DispatchKeeps(m.rx, m.tx.made, Creations(f), Flat(f), s);
    MessageBytes(m, s);
    assert Creations(f) + [] == Creations(f);
  }

  lemma MessageBytes(m: Mux, s: Sent)
    requires s.channel != 0
    ensures HandleBytes(m, EncodeFrame(FrameOf(MessageOut(s)))) ==
            Some(m.(rx := Dispatch(m.rx, s.channel, s.kind, s.data)))
  {
    hide EncodeFrame, DecodeFrame, Dispatch, HandleBytes;
    MessageRoundTrip(s.channel, s.kind, s.data);
    HandleDecoded(m, EncodeFrame(Message(s.channel, s.kind, s.data)), Message(s.channel, s.kind, s.data));
  }

  lemma ReadBatch(m: Mux, f: seq<Out>, o: Out)
    requires ReceiverOk(m.rx, m.tx.made, Creations(f), Flat(f)) && OutsOk(f) && NextOk(f, o) && o.BatchOut?
    requires |Creations(f)| < TWO32
    ensures ReadsTo(m, o, f)
  {
    Snoc(f, o);
    hide OutsOk, Creations, Flat, ReceiverOk, DispatchItems, HandleBytes, EncodeFrame;
    BatchKeeps(m.rx, m.tx.made, Creations(f), Flat(f), o.messages);
    BatchBytes(m, o.messages);
    assert Creations(f) + [] == Creations(f);
  }

  lemma ReadKeeps(m: Mux, f: seq<Out>, o: Out)
    requires ReceiverOk(m.rx, m.tx.made, Creations(f), Flat(f)) && OutsOk(f) && NextOk(f, o)
    requires |Creations(f)| < TWO32
    ensures ReadsTo(m, o, f)
  {
    hide ReceiverOk, OutsOk, Creations, Flat, ReadsTo;
    match o
    case OpenOut(_, _) => ReadOpen(m, f, o);
    case MessageOut(_) => ReadMessage(m, f, o);
    case BatchOut(_) => ReadBatch(m, f, o);
  }

  // ---------------------------------------------------------------- the sender's steps

  lemma CreateSends(m: Mux, c: Creation)
    requires SenderOk(m.tx) && |m.rx.local| == |m.tx.made| < TWO32 - 1 && OutOk(OpenOut(1, c))
    ensures SenderOk(Create(m, c).tx) && m.tx.out <= Create(m, c).tx.out
  {
    Snoc(m.tx.out, OpenOut(|m.rx.local| + 1, c));
    hide CreateLocal;
    assert Flat(m.tx.out) + [] == Flat(m.tx.out);
  }

  lemma DirectSends(tx: Sender, s: Sent)
    requires SenderOk(tx) && tx.depth == 0 && 1 <= s.channel <= |tx.made| && Storable(s.data)
    ensures SenderOk(tx.(out := tx.out + [MessageOut(s)], sent := tx.sent + [s]))
  {
    Snoc(tx.out, MessageOut(s));
    hide Flat, Creations, OutsOk;
    assert Flat(tx.out) + [] == Flat(tx.out);
    assert Creations(tx.out) + [] == Creations(tx.out);
  }

  lemma CorkedSends(tx: Sender, s: Sent)
    requires SenderOk(tx) && tx.depth > 0 && 1 <= s.channel <= |tx.made| && Storable(s.data)
    ensures SenderOk(tx.(batch := tx.batch + [s], sent := tx.sent + [s]))
  {
    hide Flat, Creations, OutsOk;
    assert Flat(tx.out) + (tx.batch + [s]) == tx.sent + [s];
  }

  lemma SendSends(m: Mux, s: Sent)
    requires SenderOk(m.tx) && |m.rx.local| == |m.tx.made| && Storable(s.data)
    ensures SenderOk(Send(m, s).tx) && m.tx.out <= Send(m, s).tx.out && Send(m, s).rx == m.rx &&
            Send(m, s).tx.made == m.tx.made
  {
    hide SenderOk;
    if 1 <= s.channel <= |m.rx.local| {
      if m.tx.depth > 0 {
        CorkedSends(m.tx, s);
      } else {
        DirectSends(m.tx, s);
      }
    }
  }

  lemma UncorkSends(m: Mux)
    requires SenderOk(m.tx)
    ensures SenderOk(Uncork(m).tx) && m.tx.out <= Uncork(m).tx.out && Uncork(m).rx == m.rx &&
            Uncork(m).tx.made == m.tx.made
  {
    if m.tx.depth == 1 && m.tx.batch != [] {
      Snoc(m.tx.out, BatchOut(m.tx.batch));
      assert Creations(m.tx.out) + [] == Creations(m.tx.out);
    }
  }

  // ---------------------------------------------------------------- runs

  /** One side: what it sent is in order, and what it has read has been heard. */
  ghost predicate SideOk(m: Mux, peer: Mux, read: nat) {
    && SenderOk(m.tx)
    && read <= |peer.tx.out|
    && ReceiverOk(m.rx, m.tx.made, Creations(peer.tx.out[..read]), Flat(peer.tx.out[..read]))
  }

  ghost predicate Inv(n: Net) {
    !n.failed && SideOk(n.a, n.b, n.readB) && SideOk(n.b, n.a, n.readA)
  }

  lemma PeerKeeps(m: Mux, peer: Mux, peer': Mux, read: nat)
    requires SideOk(m, peer, read) && peer.tx.out <= peer'.tx.out
    ensures SideOk(m, peer', read)
  {
    assert peer'.tx.out[..read] == peer.tx.out[..read];
  }

  lemma ReadStep(m: Mux, peer: Mux, read: nat)
    requires SideOk(m, peer, read) && SenderOk(peer.tx) && read < |peer.tx.out|
    ensures OutOk(peer.tx.out[read]) && FrameOk(FrameOf(peer.tx.out[read]))
    ensures var r := HandleBytes(m, EncodeFrame(FrameOf(peer.tx.out[read])));
            r.Some? && r.value.tx == m.tx && SideOk(r.value, peer, read + 1)
  {
    hide ReceiverOk, HandleBytes, EncodeFrame, OutsOk, Creations, Flat;
    var f, o := peer.tx.out[..read], peer.tx.out[read];
    PrefixOk(peer.tx.out, read);
    OutFits(o);
    hide SenderOk;
    ReadKeeps(m, f, o);
    assert f + [o] == peer.tx.out[..read + 1];
  }

  lemma StepAInv(n: Net, act: Action)
    requires Inv(n) && EnabledA(n, act)
    ensures Inv(StepA(n, act))
  {
    match act
    case DoRead =>
      hide SideOk;
      assert SenderOk(n.b.tx) by { SideSends(n.b, n.a, n.readA); }
      ReadStep(n.a, n.b, n.readB);
      hide HandleBytes, SenderOk;
      PeerKeeps(n.b, n.a, StepA(n, act).a, n.readA);
    case _ => CommandInv(n, act);
  }

  lemma SideSends(m: Mux, peer: Mux, read: nat)
    requires SideOk(m, peer, read)
    ensures SenderOk(m.tx) && |m.rx.local| == |m.tx.made|
  {
  }

  lemma CommandInv(n: Net, act: Action)
    requires Inv(n) && EnabledA(n, act) && !act.DoRead?
    ensures Inv(StepA(n, act))
  {
    SideSends(n.a, n.b, n.readB);
    var theirs, heard := Creations(n.b.tx.out[..n.readB]), Flat(n.b.tx.out[..n.readB]);
    match act {
      case DoCreate(c) =>
        CreateSends(n.a, c);
        CreateKeeps(n.a.rx, n.a.tx.made, theirs, heard, c);
      case DoSend(s) => SendSends(n.a, s);
      case DoCork =>
      case DoUncork => UncorkSends(n.a);
    }
    hide ReceiverOk, SenderOk, CreateLocal, Send, Uncork;
    PeerKeeps(n.b, n.a, StepA(n, act).a, n.readA);
  }

  lemma StepInv(n: Net, e: Move)
    requires Inv(n) && Enabled(n, e)
    ensures Inv(Step(n, e))
  {
    hide SideOk, StepA;
    StepAInv(if e.onA then n else Swap(n), e.action);
  }

  ghost predicate ValidRun(n: Net, es: seq<Move>)
    decreases |es|
  {
    es != [] ==> Enabled(n, es[0]) && ValidRun(Step(n, es[0]), es[1..])
  }

  ghost function Run(n: Net, es: seq<Move>): Net
    requires ValidRun(n, es)
    decreases |es|
  {
    if es == [] then n else Run(Step(n, es[0]), es[1..])
  }

  lemma {:induction false} RunInv(n: Net, es: seq<Move>)
    requires Inv(n) && ValidRun(n, es)
    ensures Inv(Run(n, es))
    decreases |es|
  {
    hide Inv, Step;
    if es != [] {
      StepInv(n, es[0]);
      RunInv(Step(n, es[0]), es[1..]);
    }
  }

  lemma StartInv()
    ensures Inv(START)
  {
    forall key: Bytes
      ensures KeyOk(INITIAL.rx, Positions([], key), Positions([], key), key)
    {
    }
  }

  // ---------------------------------------------------------------- delivery

  /** Ids `i` and `j` have this key and the same place, `k`, among those of the key. */
  ghost predicate SamePlace(ours: seq<Creation>, i: nat, theirs: seq<Creation>, j: nat, key: Bytes, k: nat) {
    && 0 <= k < |Positions(ours, key)| && Positions(ours, key)[k] == i
    && 0 <= k < |Positions(theirs, key)| && Positions(theirs, key)[k] == j
  }

  ghost predicate Corresponds(ours: seq<Creation>, i: nat, theirs: seq<Creation>, j: nat, key: Bytes) {
    exists k :: SamePlace(ours, i, theirs, j, key, k)
  }

  /** An open channel is paired with the channel of the other side that has the same key and
      the same place among those of that key; and that one, once open, is paired with it. */
  ghost predicate Paired(m: Mux, peer: Mux, i: nat)
    requires i < |m.rx.local| == |m.tx.made| && |peer.rx.local| == |peer.tx.made|
  {
    m.rx.local[i].isOpen ==>
      && m.rx.local[i].remoteId.Some?
      && var j := m.rx.local[i].remoteId.value;
         && 1 <= j <= |peer.rx.local|
         && peer.tx.made[j - 1].Key() == m.tx.made[i].Key()
         && Corresponds(m.tx.made, i + 1, peer.tx.made, j, m.tx.made[i].Key())
         && (peer.rx.local[j - 1].isOpen ==> peer.rx.local[j - 1].remoteId == Some(i + 1))
  }

  /** In every run no frame is refused, and channels pair one to one, in order, per key. */
  lemma Pairing(es: seq<Move>)
    requires ValidRun(START, es)
    ensures var n := Run(START, es);
            && !n.failed
            && |n.a.rx.local| == |n.a.tx.made| && |n.b.rx.local| == |n.b.tx.made|
            && (forall i :: 0 <= i < |n.a.rx.local| ==> Paired(n.a, n.b, i))
            && (forall i :: 0 <= i < |n.b.rx.local| ==> Paired(n.b, n.a, i))
  {
    var n := Run(START, es);
    StartInv();
    RunInv(START, es);
    hide Run, ValidRun;
    SideSends(n.a, n.b, n.readB);
    SideSends(n.b, n.a, n.readA);
    hide SideOk, Paired;
    forall i | 0 <= i < |n.a.rx.local|
      ensures Paired(n.a, n.b, i)
    {
      SidePaired(n.a, n.b, n.readA, n.readB, i);
    }
    forall i | 0 <= i < |n.b.rx.local|
      ensures Paired(n.b, n.a, i)
    {
      SidePaired(n.b, n.a, n.readB, n.readA, i);
    }
  }

  lemma SidePaired(m: Mux, peer: Mux, readM: nat, readPeer: nat, i: nat)
    requires SideOk(m, peer, readPeer) && SideOk(peer, m, readM) && i < |m.rx.local|
    ensures |m.rx.local| == |m.tx.made| && |peer.rx.local| == |peer.tx.made| && Paired(m, peer, i)
  {
    SideSends(m, peer, readPeer);
    SideSends(peer, m, readM);
    hide SideOk, SenderOk, SamePlace;
    if m.rx.local[i].isOpen {
      hide Paired;
      var j, k := PairedPlace(m, peer, readPeer, i);
      PartnerBack(m, peer, readM, i, j, k);
      PairedBy(m, peer, i, j, k);
    }
  }

  lemma PairedBy(m: Mux, peer: Mux, i: nat, j: nat, k: nat)
    requires i < |m.rx.local| == |m.tx.made| && 1 <= j <= |peer.rx.local| == |peer.tx.made|
    requires m.rx.local[i].remoteId == Some(j) && peer.tx.made[j - 1].Key() == m.tx.made[i].Key()
    requires SamePlace(m.tx.made, i + 1, peer.tx.made, j, m.tx.made[i].Key(), k)
    requires peer.rx.local[j - 1].isOpen ==> peer.rx.local[j - 1].remoteId == Some(i + 1)
    ensures Paired(m, peer, i)
  {
    hide SamePlace, ChannelKey;
  }

  /** If the partner is open too, it is paired with this channel. */
  lemma PartnerBack(m: Mux, peer: Mux, readM: nat, i: nat, j: nat, k: nat)
    requires SideOk(peer, m, readM) && SenderOk(m.tx) && i < |m.tx.made| && 1 <= j <= |peer.rx.local| == |peer.tx.made|
    requires peer.tx.made[j - 1].Key() == m.tx.made[i].Key()
    requires SamePlace(m.tx.made, i + 1, peer.tx.made, j, m.tx.made[i].Key(), k)
    ensures peer.rx.local[j - 1].isOpen ==> peer.rx.local[j - 1].remoteId == Some(i + 1)
  {
    hide SideOk, SenderOk, SamePlace;
    if peer.rx.local[j - 1].isOpen {
      var i', k' := PairedPlace(peer, m, readM, j - 1);
      PlaceOnce(m.tx.made, peer.tx.made, i + 1, i', j, m.tx.made[i].Key(), k, k');
    }
  }

  lemma PlaceOnce(ours: seq<Creation>, theirs: seq<Creation>, i: nat, i': nat, j: nat, key: Bytes, k: nat, k': nat)
    requires SamePlace(ours, i, theirs, j, key, k) && SamePlace(theirs, j, ours, i', key, k')
    ensures i == i'
  {
  }

  /** The place of an open channel and of its partner. */
  lemma PairedPlace(m: Mux, peer: Mux, read: nat, i: nat) returns (j: nat, k: nat)
    requires SideOk(m, peer, read) && SenderOk(peer.tx) && i < |m.rx.local| == |m.tx.made| && m.rx.local[i].isOpen
    ensures m.rx.local[i].remoteId == Some(j) && 1 <= j <= |peer.tx.made|
    ensures peer.tx.made[j - 1].Key() == m.tx.made[i].Key()
    ensures SamePlace(m.tx.made, i + 1, peer.tx.made, j, m.tx.made[i].Key(), k)
  {
    var own, theirs := m.tx.made, Creations(peer.tx.out[..read]);
    var key := own[i].Key();
    PrefixOk(peer.tx.out, read);
    assert theirs <= peer.tx.made;
    k := PositionOf(own, i);
    assert KeyOk(m.rx, Positions(own, key), Positions(theirs, key), key);
    assert LocalOk(m.rx, i);
    hide SideOk, SenderOk, OutsOk, Creations;
    KeyPlace(m.rx, Positions(own, key), Positions(theirs, key), key, i, k);
    j := Positions(theirs, key)[k];
    PositionsPrefix(theirs, peer.tx.made, key);
  }

  lemma KeyPlace(rx: Receiver, ours: seq<nat>, others: seq<nat>, key: Bytes, i: nat, k: nat)
    requires KeyOk(rx, ours, others, key) && k < |ours| && ours[k] == i + 1 && i < |rx.local| && rx.local[i].isOpen
    ensures k < |others| && rx.local[i].remoteId == Some(others[k])
  {
  }

  /** A handle is told nothing before its channel opens; then it has been told of one opening,
      with the other side's handshake, and of a prefix of the messages sent on the partner
      channel, in order; of all of them once every frame is read and none waits in a batch. */
  ghost predicate Told(m: Mux, peer: Mux, read: nat, i: nat)
    requires i < |m.rx.local|
  {
    var ch := m.rx.local[i];
    && (!ch.isOpen ==> ch.events == [])
    && (ch.isOpen ==>
          && ch.remoteId.Some? && 1 <= ch.remoteId.value <= |peer.tx.made|
          && var j := ch.remoteId.value;
             && ch.events != [] && ch.events[0] == Opened(Seen(peer.tx.made[j - 1].handshake))
             && ch.events[1..] <= Heard(peer.tx.sent, j)
             && (read == |peer.tx.out| && peer.tx.batch == [] ==> ch.events[1..] == Heard(peer.tx.sent, j)))
  }

  lemma Delivery(es: seq<Move>)
    requires ValidRun(START, es)
    ensures var n := Run(START, es);
            && (forall i :: 0 <= i < |n.a.rx.local| ==> Told(n.a, n.b, n.readB, i))
            && (forall i :: 0 <= i < |n.b.rx.local| ==> Told(n.b, n.a, n.readA, i))
  {
    var n := Run(START, es);
    StartInv();
    RunInv(START, es);
    hide Run, ValidRun;
    SideSends(n.a, n.b, n.readB);
    SideSends(n.b, n.a, n.readA);
    hide SideOk, SenderOk, Told;
    forall i | 0 <= i < |n.a.rx.local|
      ensures Told(n.a, n.b, n.readB, i)
    {
      SideTold(n.a, n.b, n.readB, i);
    }
    forall i | 0 <= i < |n.b.rx.local|
      ensures Told(n.b, n.a, n.readA, i)
    {
      SideTold(n.b, n.a, n.readA, i);
    }
  }

  lemma SideTold(m: Mux, peer: Mux, read: nat, i: nat)
    requires SideOk(m, peer, read) && SenderOk(peer.tx) && i < |m.rx.local|
    ensures Told(m, peer, read, i)
  {
    hide Heard, Creations, Flat, OutsOk, KeysOk;
    var theirs, heard := Creations(peer.tx.out[..read]), Flat(peer.tx.out[..read]);
    assert LocalOk(m.rx, i);
    PrefixOk(peer.tx.out, read);
    assert theirs <= peer.tx.made && heard <= peer.tx.sent;
    assert read == |peer.tx.out| ==> peer.tx.out[..read] == peer.tx.out;
    assert read == |peer.tx.out| && peer.tx.batch == [] ==> heard == peer.tx.sent;
    if m.rx.local[i].isOpen {
      var j := m.rx.local[i].remoteId.value;
      assert RemoteOk(m.rx, theirs, heard, j - 1);
      hide SideOk, SenderOk, RemoteOk, LocalOk;
      HeardPrefix(heard, peer.tx.sent, j);
    }
  }

  /** Once a side has read everything, its k-th channel of a key is open exactly when the other
      side has created more than k channels of that key. */
  ghost predicate AllOpen(m: Mux, peer: Mux, read: nat, key: Bytes, k: nat) {
    && |m.rx.local| == |m.tx.made|
    && (read == |peer.tx.out| && k < |Positions(m.tx.made, key)| ==>
          (m.rx.local[Positions(m.tx.made, key)[k] - 1].isOpen <==> k < |Positions(peer.tx.made, key)|))
  }

  /** So it is on both sides in every run. */
  lemma AllPaired(es: seq<Move>, key: Bytes, k: nat)
    requires ValidRun(START, es)
    ensures var n := Run(START, es); AllOpen(n.a, n.b, n.readB, key, k) && AllOpen(n.b, n.a, n.readA, key, k)
  {
    var n := Run(START, es);
    StartInv();
    RunInv(START, es);
    hide Run, ValidRun;
    SideSends(n.a, n.b, n.readB);
    SideSends(n.b, n.a, n.readA);
    hide SideOk, SenderOk, AllOpen;
    SideAllOpen(n.a, n.b, n.readB, key, k);
    SideAllOpen(n.b, n.a, n.readA, key, k);
  }

  /** The k-th of our channels on a key is open exactly if the other side has as many. */
  lemma KeyOpen(rx: Receiver, ours: seq<nat>, theirs: seq<nat>, key: Bytes, k: nat)
    requires KeyOk(rx, ours, theirs, key) && k < |ours| && 1 <= ours[k] <= |rx.local| && LocalOk(rx, ours[k] - 1)
    ensures rx.local[ours[k] - 1].isOpen <==> k < |theirs|
  {
    hide InfoOf, RemoteAt;
  }

  lemma SideAllOpen(m: Mux, peer: Mux, read: nat, key: Bytes, k: nat)
    requires SideOk(m, peer, read) && SenderOk(m.tx) && SenderOk(peer.tx)
    ensures AllOpen(m, peer, read, key, k)
  {
    hide Positions, RemoteOk, RemoteAt, InfoOf, Flat, OutsOk, Creations, LocalOk;
    var ours, theirs := Positions(m.tx.made, key), Positions(peer.tx.made, key);
    assert read == |peer.tx.out| ==> peer.tx.out[..read] == peer.tx.out;
    if read == |peer.tx.out| && k < |ours| {
      assert KeyOk(m.rx, ours, theirs, key);
      assert LocalOk(m.rx, ours[k] - 1);
      hide KeyOk;
      KeyOpen(m.rx, ours, theirs, key, k);
    }
  }
}
