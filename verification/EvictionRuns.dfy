/** Our own id is never stored, and a table node that answers the ping which checks it is kept. */
module EvictionRuns {
  import opened Options
  import opened EvictionSpec

  // ---------------------------------------------------------------- the invariant

  ghost predicate TicksOk(t: Ticks, tick: nat) {
    t.seen <= t.pinged <= tick
  }

  ghost predicate WaitingOk(w: Waiting, own: Id, tick: nat) {
    w.id != own && TicksOk(w.ticks, tick)
  }

  ghost predicate PingOk(p: Ping, own: Id, tick: nat) {
    p.lastSeen < tick && (p.Reping? ==> WaitingOk(p.newcomer, own, tick))
  }

  ghost predicate TableOk(table: map<Id, Ticks>, own: Id, tick: nat) {
    own !in table && forall i :: i in table ==> TicksOk(table[i], tick)
  }

  ghost predicate QueueOk(queue: seq<Waiting>, own: Id, tick: nat) {
    forall i :: 0 <= i < |queue| ==> WaitingOk(queue[i], own, tick)
  }

  ghost predicate PingsOk(pings: map<nat, Ping>, own: Id, tick: nat) {
    forall t :: t in pings ==> PingOk(pings[t], own, tick)
  }

  ghost predicate NoRepings(pings: map<nat, Ping>) {
    forall t :: t in pings ==> pings[t].Check?
  }

  /** Repings are sent only after the bootstrap, which is the last time that our id changes. */
  ghost predicate Inv(s: State) {
    && TableOk(s.table, s.own, s.tick) && QueueOk(s.queue, s.own, s.tick) && PingsOk(s.pings, s.own, s.tick)
    && (!s.bootstrapped ==> NoRepings(s.pings))
  }

  // ---------------------------------------------------------------- steps

  lemma LaterOk(s: State, tick: nat)
    requires Inv(s) && s.tick <= tick
    ensures Inv(s.(tick := tick))
  {
    assert forall i :: i in s.table ==> TicksOk(s.table[i], s.tick);
    assert forall i :: 0 <= i < |s.queue| ==> WaitingOk(s.queue[i], s.own, s.tick);
    assert forall t :: t in s.pings ==> PingOk(s.pings[t], s.own, s.tick);
  }

  lemma AddOk(s: State, w: Waiting, room: bool)
    requires Inv(s) && WaitingOk(w, s.own, s.tick)
    ensures Inv(TableAdd(s, w, room))
  {
    hide PingsOk, NoRepings;
  }

  lemma SendPingOk(s: State, node: Id, hint: bool, tid: Option<nat>, ping: Ping)
    requires Inv(s) && Due(s, node) && ping.lastSeen == s.table[node].seen
    requires ping.Reping? ==> s.bootstrapped && WaitingOk(ping.newcomer, s.own, s.tick)
    ensures Inv(SendPing(s, node, hint, tid, ping))
  {
    assert TicksOk(s.table[node], s.tick);
    hide QueueOk;
  }

  lemma {:induction false} RepingOk(s: State, waiting: seq<Waiting>, picks: nat -> Option<Pick>, i: nat)
    requires Inv(s) && s.bootstrapped && QueueOk(waiting, s.own, s.tick) && i <= |waiting|
    ensures Inv(RepingFrom(s, waiting, picks, i))
    ensures s.table.Keys <= RepingFrom(s, waiting, picks, i).table.Keys
    decreases |waiting| - i
  {
    if i < |waiting| {
      if picks(i).Some? && Due(s, picks(i).value.node) {
        var node := picks(i).value.node;
        var ping := Reping(waiting[i], node, s.table[node].seen);
        assert WaitingOk(waiting[i], s.own, s.tick);
        SendPingOk(s, node, false, picks(i).value.tid, ping);
        RepingOk(SendPing(s, node, false, picks(i).value.tid, ping), waiting, picks, i + 1);
      } else {
        RepingOk(s, waiting, picks, i + 1);
      }
    }
  }

  lemma BucketFullOk(s: State, picks: nat -> Option<Pick>)
    requires Inv(s)
    ensures Inv(BucketFull(s, picks)) && s.table.Keys <= BucketFull(s, picks).table.Keys
  {
    if s.bootstrapped {
      RepingOk(s.(queue := []), s.queue, picks, 0);
    }
  }

  lemma HeardOk(s: State, id: Option<Id>, room: bool, picks: nat -> Option<Pick>)
    requires Inv(s)
    ensures Inv(Heard(s, id, room, picks)) && s.table.Keys <= Heard(s, id, room, picks).table.Keys
  {
    hide BucketFull;
    if id.Some? && id.value != s.own {
      if id.value in s.table {
        hide PingsOk, QueueOk, NoRepings;
        assert Inv(s.(table := s.table[id.value := s.table[id.value].(seen := s.tick, pinged := s.tick)]));
      } else {
        var w := Waiting(id.value, Ticks(s.tick, s.tick, s.tick, 0));
        AddOk(s, w, room);
        BucketFullOk(TableAdd(s, w, room), picks);
      }
    }
  }

  lemma EvictOk(s: State, node: Id)
    requires Inv(s)
    ensures Inv(Evict(s, node))
  {
    hide PingsOk, QueueOk, NoRepings;
  }

  lemma ResolveOk(s: State, tid: nat)
    requires Inv(s)
    ensures Inv(s.(pings := s.pings - {tid}))
  {
    hide TableOk, QueueOk;
  }

  lemma DecideOk(s: State, ping: Ping, room: bool)
    requires Inv(s) && PingOk(ping, s.own, s.tick)
    ensures Inv(Decide(s, ping, room))
  {
    hide Stale, TableAdd;
    EvictOk(s, ping.node);
    if ping.Reping? {
      var s1 := s.(repinging := OneLess(s.repinging));
      assert Inv(s1);
      EvictOk(s1, ping.node);
      AddOk(Evict(s1, ping.node), ping.newcomer, room);
    }
  }

  lemma AnsweredOk(s: State, tid: nat, id: Option<Id>, room: bool, room2: bool, picks: nat -> Option<Pick>)
    requires Inv(s)
    ensures Inv(Answered(s, tid, id, room, room2, picks))
  {
    HeardOk(s, id, room, picks);
    var s1 := Heard(s, id, room, picks);
    hide Heard, Decide;
    if tid in s1.pings {
      assert PingOk(s1.pings[tid], s1.own, s1.tick);
      ResolveOk(s1, tid);
      DecideOk(s1.(pings := s1.pings - {tid}), s1.pings[tid], room2);
    }
  }

  lemma TimedOutOk(s: State, tid: nat, room: bool)
    requires Inv(s)
    ensures Inv(TimedOut(s, tid, room))
  {
    if tid in s.pings {
      var ping := s.pings[tid];
      assert PingOk(ping, s.own, s.tick);
      ResolveOk(s, tid);
      EvictOk(s.(pings := s.pings - {tid}), ping.node);
      if ping.Reping? {
        hide TableAdd;
        var s1 := Evict(s.(pings := s.pings - {tid}), ping.node).(repinging := OneLess(s.repinging));
        assert Inv(s1);
        AddOk(s1, ping.newcomer, room);
      }
    }
  }

  lemma CheckOk(s: State, node: Id, hint: bool, tid: Option<nat>)
    requires Inv(s)
    ensures Inv(CheckNode(s, node, hint, tid)) && s.table.Keys <= CheckNode(s, node, hint, tid).table.Keys
  {
    if Due(s, node) {
      SendPingOk(s, node, hint, tid, Check(node, s.table[node].seen));
    }
  }

  lemma {:induction false} ReinsertedOk(s: State, nodes: map<Id, Ticks>, order: seq<Id>, fits: Id -> bool, n: nat)
    requires Inv(s) && n <= |order| && (forall i :: 0 <= i < |order| ==> order[i] in nodes)
    requires forall id :: id in nodes ==> TicksOk(nodes[id], s.tick)
    ensures Inv(Reinserted(s, nodes, order, fits, n))
    ensures Reinserted(s, nodes, order, fits, n).own == s.own && Reinserted(s, nodes, order, fits, n).tick == s.tick
    ensures Reinserted(s, nodes, order, fits, n).pings == s.pings
  {
    if n > 0 {
      ReinsertedOk(s, nodes, order, fits, n - 1);
      var s1 := Reinserted(s, nodes, order, fits, n - 1);
      hide Reinserted, TableAdd;
      if order[n - 1] != s.own {
        assert TicksOk(nodes[order[n - 1]], s.tick);
        AddOk(s1, Waiting(order[n - 1], nodes[order[n - 1]]), fits(order[n - 1]));
      }
    }
  }

  lemma BootstrapOk(s: State, own: Option<Id>, order: seq<Id>, fits: Id -> bool)
    requires Inv(s) && Lists(order, s.table)
    ensures Inv(Bootstrap(s, own, order, fits))
  {
    if !s.bootstrapped {
      assert forall t :: t in s.pings ==> PingOk(s.pings[t], s.own, s.tick) && s.pings[t].Check?;
      if own.Some? && own.value != s.own {
        var s1 := s.(own := own.value, table := map[], queue := []);
        assert Inv(s1);
        ReinsertedOk(s1, s.table, order, fits, |order|);
      }
    }
  }

  lemma StepInv(s: State, e: Event)
    requires Inv(s) && Enabled(s, e)
    ensures Inv(Step(s, e))
  {
    hide Inv, Heard, Answered, TimedOut, CheckNode, Bootstrap, Lists, NextTick;
    match e
    case DoTick(slept) => Onward(s.tick, slept); LaterOk(s, NextTick(s.tick, slept));
    case DoRequest(id, room, picks) => HeardOk(s, id, room, picks);
    case DoResponse(tid, id, room, room2, picks) => AnsweredOk(s, tid, id, room, room2, picks);
    case DoTimeout(tid, room) => TimedOutOk(s, tid, room);
    case DoDownHint(node, tid) => CheckOk(s, node, true, tid);
    case DoPing(node, tid) => CheckOk(s, node, false, tid);
    case DoBootstrap(own, order, fits) => BootstrapOk(s, own, order, fits);
  }

  lemma Onward(tick: nat, slept: bool)
    ensures tick < NextTick(tick, slept)
  {
  }

  // ---------------------------------------------------------------- runs

  ghost predicate ValidRun(s: State, es: seq<Event>)
    decreases |es|
  {
    |es| > 0 ==> Enabled(s, es[0]) && ValidRun(Step(s, es[0]), es[1..])
  }

  ghost function Run(s: State, es: seq<Event>): State
    requires ValidRun(s, es)
    decreases |es|
  {
    if |es| == 0 then s else Run(Step(s, es[0]), es[1..])
  }

  lemma {:induction false} RunInv(s: State, es: seq<Event>)
    requires Inv(s) && ValidRun(s, es)
    ensures Inv(Run(s, es))
    decreases |es|
  {
    hide Inv, Step, Enabled;
    if |es| > 0 {
      StepInv(s, es[0]);
      RunInv(Step(s, es[0]), es[1..]);
    }
  }

  /** In every run no node, stored or waiting, was seen after it was last pinged nor pinged after
      the current tick. */
  lemma TicksOrdered(own: Id, es: seq<Event>)
    requires ValidRun(Start(own), es)
    ensures var s := Run(Start(own), es);
            && (forall i :: i in s.table ==> s.table[i].seen <= s.table[i].pinged <= s.tick)
            && (forall i :: 0 <= i < |s.queue| ==> s.queue[i].ticks.seen <= s.queue[i].ticks.pinged <= s.tick)
  {
    hide Run, ValidRun;
    RunInv(Start(own), es);
    var s := Run(Start(own), es);
    assert forall i :: i in s.table ==> TicksOk(s.table[i], s.tick);
    assert forall i :: 0 <= i < |s.queue| ==> WaitingOk(s.queue[i], s.own, s.tick);
  }

  /** In every run, across the change of our id, our own id is neither stored, nor waiting, nor
      about to take the place of a node that is being pinged. */
  lemma OwnIdAbsent(own: Id, es: seq<Event>)
    requires ValidRun(Start(own), es)
    ensures var s := Run(Start(own), es);
            && s.own !in s.table
            && (forall i :: 0 <= i < |s.queue| ==> s.queue[i].id != s.own)
            && (forall t :: t in s.pings && s.pings[t].Reping? ==> s.pings[t].newcomer.id != s.own)
  {
    hide Run, ValidRun;
    RunInv(Start(own), es);
    var s := Run(Start(own), es);
    assert forall i :: 0 <= i < |s.queue| ==> WaitingOk(s.queue[i], s.own, s.tick);
    assert forall t :: t in s.pings ==> PingOk(s.pings[t], s.own, s.tick);
  }

  /** In every run a table node that answers the ping checking it, with its own validated id, is
      still in the table once the answer is handled. */
  lemma AnswererStays(own: Id, es: seq<Event>, tid: nat, room: bool, room2: bool, picks: nat -> Option<Pick>)
    requires ValidRun(Start(own), es)
    ensures var s := Run(Start(own), es);
            tid in s.pings && s.pings[tid].node in s.table ==>
              s.pings[tid].node in Answered(s, tid, Some(s.pings[tid].node), room, room2, picks).table
  {
    hide Run, ValidRun;
    RunInv(Start(own), es);
    var s := Run(Start(own), es);
    if tid in s.pings && s.pings[tid].node in s.table {
      RefreshedStays(s, tid, s.pings[tid].node, room, room2, picks);
    }
  }

  /** What takes a node out of the table: a ping about it that timed out; a response to a ping
      about it that did not come from it; or the new id at the end of the bootstrap. */
  ghost predicate MayEvict(s: State, e: Event, node: Id) {
    match e
    case DoTimeout(tid, _) => tid in s.pings && s.pings[tid].node == node
    case DoResponse(tid, id, room, _, picks) =>
      var pings := Heard(s, id, room, picks).pings;
      tid in pings && pings[tid].node == node && id != Some(node)
    case DoBootstrap(own, _, _) => !s.bootstrapped && own.Some? && own.value != s.own
    case _ => false
  }

  /** In every run, every node that leaves the table leaves for one of these reasons. */
  lemma EvictedOnly(own: Id, es: seq<Event>, e: Event, node: Id)
    requires ValidRun(Start(own), es) && Enabled(Run(Start(own), es), e)
    ensures var s := Run(Start(own), es);
            node in s.table && node !in Step(s, e).table ==> MayEvict(s, e, node)
  {
    hide Run, ValidRun;
    RunInv(Start(own), es);
    var s := Run(Start(own), es);
    hide Inv, Lists, CheckNode, Heard;
    match e
    case DoRequest(id, room, picks) => HeardOk(s, id, room, picks);
    case DoResponse(tid, id, room, room2, picks) =>
      HeardOk(s, id, room, picks);
      if id == Some(node) && node in s.table {
        RefreshedStays(s, tid, node, room, room2, picks);
      }
    case DoDownHint(n, tid) => CheckOk(s, n, true, tid);
    case DoPing(n, tid) => CheckOk(s, n, false, tid);
    case _ =>
  }

  lemma RefreshedStays(s: State, tid: nat, node: Id, room: bool, room2: bool, picks: nat -> Option<Pick>)
    requires Inv(s) && node in s.table
    ensures node in Answered(s, tid, Some(node), room, room2, picks).table
  {
    if tid in s.pings {
      assert PingOk(s.pings[tid], s.own, s.tick);
    }
  }
}
