/** The part of the node actor that keeps the ticks of table nodes and decides who leaves. */
module Eviction {
  import opened Options
  import opened EvictionSpec

  class DhtNode {
    var own: Id
    var tick: nat
    var bootstrapped: bool
    var table: map<Id, Ticks>
    var queue: seq<Waiting>
    var repinging: nat
    var pings: map<nat, Ping>

    ghost function Model(): State
      reads this
    {
      State(own, tick, bootstrapped, table, queue, repinging, pings)
    }

    constructor (own: Id)
      ensures Model() == Start(own)
    {
      this.own := own;
      tick, bootstrapped, table, queue, repinging, pings := 0, false, map[], [], 0, map[];
    }

    method HandleTick(slept: bool)
      modifies this`tick
      ensures Model() == Step(old(Model()), DoTick(slept))
    {
      if slept {
        tick := tick + 2 * OLD_NODE;
        tick := tick + (8 - tick % 8);
      } else {
        tick := tick + 1;
      }
    }

    method TryAdd(w: Waiting, room: bool) returns (added: bool)
      modifies this`table, this`queue
      ensures Model() == TableAdd(old(Model()), w, room)
      ensures added <==> w.id in old(table) || room
    {
      added := w.id in table || room;
      if added {
        table := table[w.id := w.ticks];
      } else {
        queue := queue + [w];
      }
    }

    method AddNodeFromNetwork(id: Option<Id>, room: bool, picks: nat -> Option<Pick>)
      modifies this`table, this`queue, this`repinging, this`pings
      ensures Model() == Heard(old(Model()), id, room, picks)
    {
      hide BucketFull;
      if id.Some? && id.value != own {
        if id.value in table {
          table := table[id.value := table[id.value].(seen := tick, pinged := tick)];
        } else {
          var added := TryAdd(Waiting(id.value, Ticks(tick, tick, tick, 0)), room);
          if !added {
            HandleBucketFull(picks);
          }
        }
      }
    }

    /** Take all waiting nodes, and for each ping a node that may have to make way. */
    method HandleBucketFull(picks: nat -> Option<Pick>)
      modifies this`table, this`queue, this`repinging, this`pings
      ensures Model() == BucketFull(old(Model()), picks)
    {
      hide SendPing;
      if bootstrapped && repinging < MAX_REPINGING {
        var waiting := queue;
        queue := [];
        ghost var start := Model();
        var i := 0;
        while i < |waiting|
          invariant i <= |waiting| && RepingFrom(Model(), waiting, picks, i) == RepingFrom(start, waiting, picks, 0)
        {
          var pick := picks(i);
          if pick.Some? && pick.value.node in table && table[pick.value.node].pinged < tick {
            var t := table[pick.value.node];
            if tick - t.seen < RECENT_NODE && tick - t.added > OLD_NODE {
              break;
            }
            PingNode(pick.value.node, false, pick.value.tid, Reping(waiting[i], pick.value.node, t.seen));
          }
          i := i + 1;
        }
      }
    }

    method PingNode(node: Id, hint: bool, tid: Option<nat>, ping: Ping)
      requires node in table
      modifies this`table, this`repinging, this`pings
      ensures Model() == SendPing(old(Model()), node, hint, tid, ping)
    {
      var t := table[node];
      table := table[node := t.(pinged := tick, downHints := if hint then t.downHints + 1 else t.downHints)];
      if tid.Some? {
        if ping.Reping? {
          repinging := repinging + 1;
        }
        pings := pings[tid.value := ping];
      }
    }

    method HandleDownHint(node: Id, tid: Option<nat>)
      modifies this`table, this`repinging, this`pings
      ensures Model() == Step(old(Model()), DoDownHint(node, tid))
    {
      if node in table && table[node].pinged < tick {
        PingNode(node, true, tid, Check(node, table[node].seen));
      }
    }

    /** One of the nodes that the background pinging picks. */
    method PingSome(node: Id, tid: Option<nat>)
      modifies this`table, this`repinging, this`pings
      ensures Model() == CheckNode(old(Model()), node, false, tid)
    {
      if node in table && table[node].pinged < tick {
        PingNode(node, false, tid, Check(node, table[node].seen));
      }
    }

    method HandleResponse(tid: nat, id: Option<Id>, room: bool, room2: bool, picks: nat -> Option<Pick>)
      modifies this`table, this`queue, this`repinging, this`pings
      ensures Model() == Answered(old(Model()), tid, id, room, room2, picks)
    {
      hide Heard, Decide;
      AddNodeFromNetwork(id, room, picks);
      if tid in pings {
        var ping := pings[tid];
        pings := pings - {tid};
        StandaloneResponse(ping, room2);
      }
    }

    method StandaloneResponse(ping: Ping, room: bool)
      modifies this`table, this`queue, this`repinging
      ensures Model() == Decide(old(Model()), ping, room)
    {
      match ping
      case Check(node, lastSeen) =>
        if node in table && table[node].seen <= lastSeen {
          table := table - {node};
        }
      case Reping(newcomer, node, lastSeen) =>
        repinging := if repinging > 0 then repinging - 1 else 0;
        if node !in table || table[node].seen <= lastSeen {
          table := table - {node};
          var _ := TryAdd(newcomer, room);
        }
    }

    method HandleTimeout(tid: nat, room: bool)
      modifies this`table, this`queue, this`repinging, this`pings
      ensures Model() == TimedOut(old(Model()), tid, room)
    {
      if tid in pings {
        var ping := pings[tid];
        pings := pings - {tid};
        table := table - {ping.node};
        if ping.Reping? {
          repinging := if repinging > 0 then repinging - 1 else 0;
          var _ := TryAdd(ping.newcomer, room);
        }
      }
    }

    /** The bootstrap is over: take the id that our address samples give, if any, and add all
        nodes again under it. */
    method MarkBootstrapped(newId: Option<Id>, fits: Id -> bool) returns (ghost order: seq<Id>)
      modifies this
      ensures Lists(order, old(table))
      ensures Model() == Bootstrap(old(Model()), newId, order, fits)
    {
      hide Reinserted, Lists;
      var nodes := Listed(table);
      order := nodes;
      ListsMembers(nodes, table);
      if !bootstrapped {
        if newId.Some? && newId.value != own {
          Rebuild(newId.value, nodes, fits);
        }
        bootstrapped := true;
      }
    }

    method Rebuild(newId: Id, nodes: seq<Id>, fits: Id -> bool)
      requires forall i :: 0 <= i < |nodes| ==> nodes[i] in table
      requires newId != own
      modifies this`own, this`table, this`queue
      ensures Model() == Rebuilt(old(Model()), newId, nodes, fits)
    {
      hide TableAdd;
      var was := table;
      own, table, queue := newId, map[], [];
      ghost var start := Model();
      for i := 0 to |nodes|
        invariant forall j :: 0 <= j < |nodes| ==> nodes[j] in was
        invariant Model() == Reinserted(start, was, nodes, fits, i) && own == newId
      {
        if nodes[i] != newId {
          var _ := TryAdd(Waiting(nodes[i], was[nodes[i]]), fits(nodes[i]));
        }
      }
    }
  }

  /** The ids of a table, in some order. */
  method Listed(table: map<Id, Ticks>) returns (order: seq<Id>)
    ensures Lists(order, table)
  {
    order := [];
    var rest := table.Keys;
    while rest != {}
      invariant rest <= table.Keys
      invariant forall i :: 0 <= i < |order| ==> order[i] in table && order[i] !in rest
      invariant forall id :: id in table && id !in rest ==> id in order
      invariant forall i, j :: 0 <= i < j < |order| ==> order[i] != order[j]
    {
      var id :| id in rest;
      rest := rest - {id};
      order := order + [id];
    }
  }

  lemma ListsMembers(order: seq<Id>, table: map<Id, Ticks>)
    requires Lists(order, table)
    ensures forall i :: 0 <= i < |order| ==> order[i] in table
  {
  }
}
