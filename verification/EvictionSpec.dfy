/** When nodes leave the routing table: the ticks of its nodes, the nodes that wait for a full
    bucket, and the pings that decide between them. */
module EvictionSpec {
  import opened Options

  type Id = seq<bv8>

  datatype Ticks = Ticks(added: nat, seen: nat, pinged: nat, downHints: nat)

  /** A node that found its bucket full. */
  datatype Waiting = Waiting(id: Id, ticks: Ticks)

  /** A ping that decides about a table node when it is answered or times out. */
  datatype Ping =
    | Check(node: Id, lastSeen: nat)
    | Reping(newcomer: Waiting, node: Id, lastSeen: nat)

  datatype State = State(
    own: Id, tick: nat, bootstrapped: bool, table: map<Id, Ticks>, queue: seq<Waiting>, repinging: nat,
    pings: map<nat, Ping>)

  const RECENT_NODE: nat := 12
  const OLD_NODE: nat := 360
  const MAX_REPINGING: nat := 3

  function Start(own: Id): State {
    State(own, 0, false, map[], [], 0, map[])
  }

  // ---------------------------------------------------------------- the table

  /** The table replaces a node it has; a new one needs room in its bucket, or has to wait. */
  function TableAdd(s: State, w: Waiting, room: bool): State {
    if w.id in s.table || room then s.(table := s.table[w.id := w.ticks]) else s.(queue := s.queue + [w])
  }

  /** Mark the node as pinged now; the request itself may fail to be created. */
  function SendPing(s: State, node: Id, hint: bool, tid: Option<nat>, ping: Ping): State
    requires node in s.table
  {
    var t := s.table[node];
    var hints := if hint then t.downHints + 1 else t.downHints;
    var s1 := s.(table := s.table[node := t.(pinged := s.tick, downHints := hints)]);
    if tid.Some? then
      s1.(pings := s1.pings[tid.value := ping], repinging := if ping.Reping? then s.repinging + 1 else s.repinging)
    else s1
  }

  predicate Due(s: State, node: Id) {
    node in s.table && s.table[node].pinged < s.tick
  }

  /** A check of a node that was not pinged in this tick. */
  function CheckNode(s: State, node: Id, hint: bool, tid: Option<nat>): State {
    if Due(s, node) then SendPing(s, node, hint, tid, Check(node, s.table[node].seen)) else s
  }

  // ---------------------------------------------------------------- full buckets

  /** The node chosen to make way for the i-th waiting one, if any is due, and the id of the
      request to it. */
  datatype Pick = Pick(node: Id, tid: Option<nat>)

  /** A node that has been around for long and was seen lately is left alone. */
  predicate Trusted(s: State, t: Ticks) {
    s.tick - t.seen < RECENT_NODE && s.tick - t.added > OLD_NODE
  }

  function RepingFrom(s: State, waiting: seq<Waiting>, picks: nat -> Option<Pick>, i: nat): State
    requires i <= |waiting|
    decreases |waiting| - i
  {
    if i == |waiting| then s
    else if picks(i).None? || !Due(s, picks(i).value.node) then RepingFrom(s, waiting, picks, i + 1)
    else
      var node := picks(i).value.node;
      if Trusted(s, s.table[node]) then s
      else
        var ping := Reping(waiting[i], node, s.table[node].seen);
        RepingFrom(SendPing(s, node, false, picks(i).value.tid, ping), waiting, picks, i + 1)
  }

  /** Take all waiting nodes, and ping a node for each. */
  function BucketFull(s: State, picks: nat -> Option<Pick>): State {
    if !s.bootstrapped || s.repinging >= MAX_REPINGING then s
    else RepingFrom(s.(queue := []), s.queue, picks, 0)
  }

  /** Any packet with a validated id refreshes its node, or offers a new one. */
  function Heard(s: State, id: Option<Id>, room: bool, picks: nat -> Option<Pick>): State {
    if id.None? || id.value == s.own then s
    else if id.value in s.table then
      s.(table := s.table[id.value := s.table[id.value].(seen := s.tick, pinged := s.tick)])
    else
      var s1 := TableAdd(s, Waiting(id.value, Ticks(s.tick, s.tick, s.tick, 0)), room);
      if room then s1 else BucketFull(s1, picks)
  }

  // ---------------------------------------------------------------- the outcome of pings

  predicate Stale(s: State, node: Id, lastSeen: nat, missing: bool) {
    if node in s.table then s.table[node].seen <= lastSeen else missing
  }

  function Evict(s: State, node: Id): State {
    s.(table := s.table - {node})
  }

  function OneLess(n: nat): nat {
    if n > 0 then n - 1 else 0
  }

  function Decide(s: State, ping: Ping, room: bool): State {
    match ping
    case Check(node, lastSeen) => if Stale(s, node, lastSeen, false) then Evict(s, node) else s
    case Reping(newcomer, node, lastSeen) =>
      var s1 := s.(repinging := OneLess(s.repinging));
      if Stale(s, node, lastSeen, true) then TableAdd(Evict(s1, node), newcomer, room) else s1
  }

  /** A response first refreshes its sender and then decides the ping it answers. */
  function Answered(s: State, tid: nat, id: Option<Id>, room: bool, room2: bool, picks: nat -> Option<Pick>): State {
    var s1 := Heard(s, id, room, picks);
    if tid !in s1.pings then s1 else Decide(s1.(pings := s1.pings - {tid}), s1.pings[tid], room2)
  }

  function TimedOut(s: State, tid: nat, room: bool): State {
    if tid !in s.pings then s
    else
      var s1 := Evict(s.(pings := s.pings - {tid}), s.pings[tid].node);
      match s.pings[tid]
      case Check(_, _) => s1
      case Reping(newcomer, _, _) => TableAdd(s1.(repinging := OneLess(s.repinging)), newcomer, room)
  }

  // ---------------------------------------------------------------- ticks and bootstrap

  /** After a sleep the tick jumps, to a multiple of eight. */
  function NextTick(tick: nat, slept: bool): nat {
    if slept then
      var t := tick + 2 * OLD_NODE;
      t + (8 - t % 8)
    else tick + 1
  }

  /** The first `n` of the old nodes are back in the table or, where there is no room, waiting. */
  function Reinserted(s: State, nodes: map<Id, Ticks>, order: seq<Id>, fits: Id -> bool, n: nat): State
    requires n <= |order| && forall i :: 0 <= i < |order| ==> order[i] in nodes
  {
    if n == 0 then s
    else
      var s1 := Reinserted(s, nodes, order, fits, n - 1);
      var id := order[n - 1];
      if id == s.own then s1 else TableAdd(s1, Waiting(id, nodes[id]), fits(id))
  }

  /** A new id of our own: nobody waits any more, and all nodes but our own are added again. */
  function Rebuilt(s: State, own: Id, order: seq<Id>, fits: Id -> bool): State
    requires forall i :: 0 <= i < |order| ==> order[i] in s.table
  {
    if own == s.own then s
    else Reinserted(s.(own := own, table := map[], queue := []), s.table, order, fits, |order|)
  }

  /** The end of the bootstrap, when the samples of our address may give us a new id. */
  function Bootstrap(s: State, own: Option<Id>, order: seq<Id>, fits: Id -> bool): State
    requires forall i :: 0 <= i < |order| ==> order[i] in s.table
  {
    if s.bootstrapped then s
    else (if own.Some? then Rebuilt(s, own.value, order, fits) else s).(bootstrapped := true)
  }

  // ---------------------------------------------------------------- events

  datatype Event =
    | DoTick(slept: bool)
    | DoRequest(id: Option<Id>, room: bool, picks: nat -> Option<Pick>)
    | DoResponse(tid: nat, id: Option<Id>, room: bool, room2: bool, picks: nat -> Option<Pick>)
    | DoTimeout(tid: nat, room: bool)
    | DoDownHint(node: Id, pingTid: Option<nat>)
    | DoPing(node: Id, pingTid: Option<nat>)
    | DoBootstrap(own: Option<Id>, order: seq<Id>, fits: Id -> bool)

  /** `order` names every node of the table once. */
  ghost predicate Lists(order: seq<Id>, table: map<Id, Ticks>) {
    && (forall i :: 0 <= i < |order| ==> order[i] in table)
    && (forall id :: id in table ==> id in order)
    && (forall i, j :: 0 <= i < j < |order| ==> order[i] != order[j])
  }

  /** Table nodes are pinged in the background only after the bootstrap. */
  ghost predicate Enabled(s: State, e: Event) {
    match e
    case DoPing(_, _) => s.bootstrapped
    case DoBootstrap(_, order, _) => Lists(order, s.table)
    case _ => true
  }

  ghost function Step(s: State, e: Event): State
    requires Enabled(s, e)
  {
    match e
    case DoTick(slept) => s.(tick := NextTick(s.tick, slept))
    case DoRequest(id, room, picks) => Heard(s, id, room, picks)
    case DoResponse(tid, id, room, room2, picks) => Answered(s, tid, id, room, room2, picks)
    case DoTimeout(tid, room) => TimedOut(s, tid, room)
    case DoDownHint(node, tid) => CheckNode(s, node, true, tid)
    case DoPing(node, tid) => CheckNode(s, node, false, tid)
    case DoBootstrap(own, order, fits) => Bootstrap(s, own, order, fits)
  }
}
