/** Exactly when a node enters and leaves the routing table, and where the pings and the waiting
    nodes that decide it come from, in every run. */
module EvictionLaws {
  import opened Options
  import opened EvictionSpec
  import opened EvictionRuns

  // ---------------------------------------------------------------- runs, from the back

  lemma {:induction false} RunSnoc(s: State, es: seq<Event>, e: Event)
    requires ValidRun(s, es + [e])
    ensures ValidRun(s, es) && Enabled(Run(s, es), e) && Run(s, es + [e]) == Step(Run(s, es), e)
    decreases |es|
  {
    hide Step, Enabled;
    if |es| == 0 {
      assert es == [] && [e][1..] == [] && es + [e] == [e];
    } else {
      assert (es + [e])[0] == es[0] && (es + [e])[1..] == es[1..] + [e];
      RunSnoc(Step(s, es[0]), es[1..], e);
    }
  }

  // ---------------------------------------------------------------- leaving the table

  /** The ping that a response with this id decides, if it decides one. */
  ghost function Decided(s: State, tid: nat, id: Option<Id>, room: bool, picks: nat -> Option<Pick>): Option<Ping> {
    var pings := Heard(s, id, room, picks).pings;
    if tid in pings then Some(pings[tid]) else None
  }

  /** The newcomer of a reping is put in the place of the node itself. */
  ghost predicate PutsBack(p: Ping, node: Id, room: bool) {
    p.Reping? && p.newcomer.id == node && room
  }

  /** A response does not come from the node its ping is about, which was not seen since. */
  ghost predicate Unseen(s: State, p: Ping, id: Option<Id>) {
    id != Some(p.node) && p.node in s.table && s.table[p.node].seen <= p.lastSeen
  }

  /** When a step takes `node` out of the table. */
  ghost predicate Leaves(s: State, e: Event, node: Id) {
    match e
    case DoTimeout(tid, room) => tid in s.pings && s.pings[tid].node == node && !PutsBack(s.pings[tid], node, room)
    case DoResponse(tid, id, room, room2, picks) =>
      var p := Decided(s, tid, id, room, picks);
      p.Some? && p.value.node == node && Unseen(s, p.value, id) && !PutsBack(p.value, node, room2)
    case DoBootstrap(own, _, fits) =>
      !s.bootstrapped && own.Some? && own.value != s.own && (node == own.value || !fits(node))
    case _ => false
  }

  /** Hearing from a node touches no other: their ticks, up to being pinged, stay. */
  ghost predicate SameSeen(s: State, t: State, but: Option<Id>) {
    forall i :: i in s.table && but != Some(i) ==> i in t.table && t.table[i].seen == s.table[i].seen
  }

  lemma {:induction false} RepingSeen(s: State, waiting: seq<Waiting>, picks: nat -> Option<Pick>, i: nat)
    requires i <= |waiting|
    ensures var t := RepingFrom(s, waiting, picks, i);
            SameSeen(s, t, None) && t.table.Keys == s.table.Keys && t.own == s.own && t.tick == s.tick
    decreases |waiting| - i
  {
    if i < |waiting| {
      if picks(i).Some? && Due(s, picks(i).value.node) {
        var node := picks(i).value.node;
        var ping := Reping(waiting[i], node, s.table[node].seen);
        RepingSeen(SendPing(s, node, false, picks(i).value.tid, ping), waiting, picks, i + 1);
      } else {
        RepingSeen(s, waiting, picks, i + 1);
      }
    }
  }

  /** A validated id that is not ours: a known node is refreshed, an unknown one is in the table
      afterwards exactly if there is room for it, and nothing else enters or leaves. */
  lemma HeardTable(s: State, id: Option<Id>, room: bool, picks: nat -> Option<Pick>)
    ensures var t := Heard(s, id, room, picks);
            && SameSeen(s, t, id) && t.own == s.own && t.tick == s.tick
            && (forall i :: i in t.table <==> i in s.table || (id == Some(i) && i != s.own && room))
            && (id.Some? && id.value in t.table && id.value != s.own ==> t.table[id.value].seen == s.tick)
  {
    hide RepingFrom;
    if id.Some? && id.value != s.own && id.value !in s.table && !room {
      var s1 := TableAdd(s, Waiting(id.value, Ticks(s.tick, s.tick, s.tick, 0)), room);
      RepingSeen(s1.(queue := []), s1.queue, picks, 0);
    }
  }

  lemma AddTable(s: State, w: Waiting, room: bool)
    ensures var t := TableAdd(s, w, room);
            && (t.table == if w.id in s.table || room then s.table[w.id := w.ticks] else s.table)
            && t.own == s.own
  {
  }

  /** The table once the first `n` nodes are back: those that fit, without our own. */
  ghost predicate Holds(t: State, own: Id, nodes: map<Id, Ticks>, back: seq<Id>, fits: Id -> bool) {
    && t.own == own
    && (forall id :: id in t.table <==> id in back && id != own && fits(id))
    && (forall id :: id in t.table ==> id in nodes && t.table[id] == nodes[id])
  }

  lemma HoldsNext(t: State, t': State, own: Id, nodes: map<Id, Ticks>, back: seq<Id>, fits: Id -> bool, id: Id)
    requires Holds(t, own, nodes, back, fits) && id in nodes
    requires t' == if id == own then t else TableAdd(t, Waiting(id, nodes[id]), fits(id))
    ensures Holds(t', own, nodes, back + [id], fits)
  {
    if id != own {
      AddTable(t, Waiting(id, nodes[id]), fits(id));
    }
    hide TableAdd;
  }

  lemma {:induction false} ReinsertedTable(s: State, nodes: map<Id, Ticks>, order: seq<Id>, fits: Id -> bool, n: nat)
    requires n <= |order| && (forall i :: 0 <= i < |order| ==> order[i] in nodes) && s.table == map[]
    ensures Holds(Reinserted(s, nodes, order, fits, n), s.own, nodes, order[..n], fits)
  {
    if n > 0 {
      hide Holds, TableAdd;
      ReinsertedTable(s, nodes, order, fits, n - 1);
      assert order[..n] == order[..n - 1] + [order[n - 1]];
      HoldsNext(Reinserted(s, nodes, order, fits, n - 1), Reinserted(s, nodes, order, fits, n), s.own, nodes,
                order[..n - 1], fits, order[n - 1]);
    }
  }

  /** At the end of the bootstrap a new id of our own keeps exactly the nodes that fit under it. */
  lemma BootstrapTable(s: State, own: Option<Id>, order: seq<Id>, fits: Id -> bool)
    requires Lists(order, s.table)
    ensures var t := Bootstrap(s, own, order, fits);
            && (forall id :: id in t.table ==> id in s.table && t.table[id] == s.table[id])
            && (forall id :: id in s.table ==>
                  (id !in t.table <==> !s.bootstrapped && own.Some? && own.value != s.own &&
                                       (id == own.value || !fits(id))))
  {
    hide Reinserted;
    if !s.bootstrapped && own.Some? && own.value != s.own {
      ReinsertedTable(s.(own := own.value, table := map[], queue := []), s.table, order, fits, |order|);
      assert order[..|order|] == order;
    }
  }

  lemma CheckTable(s: State, node: Id, hint: bool, tid: Option<nat>)
    ensures var t := CheckNode(s, node, hint, tid);
            t.table.Keys == s.table.Keys && SameSeen(s, t, None)
  {
  }

  // ---------------------------------------------------------------- entering the table

  /** A packet whose validated id is not ours, and finds room. */
  ghost predicate Admits(s: State, id: Option<Id>, room: bool, node: Id) {
    id == Some(node) && node != s.own && room
  }

  /** A response finds that the node its reping is about is gone, or was not seen since. */
  ghost predicate GivesWay(s: State, p: Ping, id: Option<Id>, room: bool) {
    Unseen(s, p, id) || (p.node !in s.table && !Admits(s, id, room, p.node))
  }

  /** When a step puts `node` into the table. */
  ghost predicate Enters(s: State, e: Event, node: Id) {
    match e
    case DoRequest(id, room, _) => Admits(s, id, room, node)
    case DoTimeout(tid, room) => tid in s.pings && PutsBack(s.pings[tid], node, room)
    case DoResponse(tid, id, room, room2, picks) =>
      var p := Decided(s, tid, id, room, picks);
      var placed := p.Some? && GivesWay(s, p.value, id, room) && PutsBack(p.value, node, room2);
      placed || Admits(s, id, room, node)
    case _ => false
  }

  /** The table once a ping is decided. */
  lemma DecideTable(s: State, p: Ping, room: bool, i: Id)
    ensures i in Decide(s, p, room).table <==>
            || (i in s.table && !(i == p.node && s.table[i].seen <= p.lastSeen))
            || (Stale(s, p.node, p.lastSeen, true) && PutsBack(p, i, room))
  {
  }

  lemma HeardStale(s: State, p: Ping, id: Option<Id>, room: bool, picks: nat -> Option<Pick>)
    requires Inv(s) && PingOk(p, s.own, s.tick)
    ensures var t := Heard(s, id, room, picks);
            && (p.node in t.table && t.table[p.node].seen <= p.lastSeen <==> Unseen(s, p, id))
            && (Stale(t, p.node, p.lastSeen, true) <==> GivesWay(s, p, id, room))
  {
    HeardTable(s, id, room, picks);
    hide Heard;
  }

  /** The table after a response, from the ping it decides. */
  lemma AnsweredTable(s: State, tid: nat, id: Option<Id>, room: bool, room2: bool, picks: nat -> Option<Pick>, i: Id)
    requires Inv(s)
    ensures var e := DoResponse(tid, id, room, room2, picks);
            && (i in s.table ==> (i !in Step(s, e).table <==> Leaves(s, e, i)))
            && (i !in s.table ==> (i in Step(s, e).table <==> Enters(s, e, i)))
  {
    hide Heard, Decide, Inv, PutsBack, Unseen, GivesWay, Stale;
    HeardTable(s, id, room, picks);
    HeardOk(s, id, room, picks);
    var s1 := Heard(s, id, room, picks);
    if tid in s1.pings {
      var p := s1.pings[tid];
      PingIsOk(s1, tid);
      HeardStale(s, p, id, room, picks);
      DecideTable(s1.(pings := s1.pings - {tid}), p, room2, i);
      StaleSame(s1, s1.(pings := s1.pings - {tid}), p);
      UnseenGivesWay(s, p, id, room);
    }
  }

  lemma UnseenGivesWay(s: State, p: Ping, id: Option<Id>, room: bool)
    ensures Unseen(s, p, id) ==> GivesWay(s, p, id, room) && p.node in s.table
  {
  }

  lemma PingIsOk(s: State, tid: nat)
    requires Inv(s) && tid in s.pings
    ensures PingOk(s.pings[tid], s.own, s.tick)
  {
  }

  lemma StaleSame(s: State, t: State, p: Ping)
    requires t.table == s.table
    ensures Stale(t, p.node, p.lastSeen, true) == Stale(s, p.node, p.lastSeen, true)
  {
  }

  lemma TimedOutTable(s: State, tid: nat, room: bool, i: Id)
    ensures var e := DoTimeout(tid, room);
            && (i in s.table ==> (i !in Step(s, e).table <==> Leaves(s, e, i)))
            && (i !in s.table ==> (i in Step(s, e).table <==> Enters(s, e, i)))
  {
  }

  lemma StepTable(s: State, e: Event, i: Id)
    requires Inv(s) && Enabled(s, e)
    ensures i in s.table ==> (i !in Step(s, e).table <==> Leaves(s, e, i))
    ensures i !in s.table ==> (i in Step(s, e).table <==> Enters(s, e, i))
  {
    match e
    case DoTick(slept) =>
    case DoRequest(id, room, picks) =>
      HeardTable(s, id, room, picks);
      hide Heard;
    case DoResponse(tid, id, room, room2, picks) =>
      hide Leaves, Enters, Answered;
      AnsweredTable(s, tid, id, room, room2, picks, i);
    case DoTimeout(tid, room) =>
      hide Leaves, Enters, TimedOut;
      TimedOutTable(s, tid, room, i);
    case DoDownHint(node, tid) =>
      CheckTable(s, node, true, tid);
      hide CheckNode;
    case DoPing(node, tid) =>
      CheckTable(s, node, false, tid);
      hide CheckNode;
    case DoBootstrap(own, order, fits) =>
      BootstrapTable(s, own, order, fits);
      hide Bootstrap, Lists;
  }

  /** In every run the next step takes a node out of the table exactly when a ping about it times
      out, a response from another decides a ping about it and it was not seen since that ping, or
      our new id leaves no room for it; unless a reping's newcomer puts it back. And it puts a node
      in exactly when a packet with its validated id finds room, or it is the newcomer of a reping
      that found the other gone, unseen or silent, and there is room. */
  lemma TableExact(own: Id, es: seq<Event>, e: Event, node: Id)
    requires ValidRun(Start(own), es) && Enabled(Run(Start(own), es), e)
    ensures var s := Run(Start(own), es);
            && (node in s.table ==> (node !in Step(s, e).table <==> Leaves(s, e, node)))
            && (node !in s.table ==> (node in Step(s, e).table <==> Enters(s, e, node)))
  {
    hide Run, ValidRun, Step, Leaves, Enters, Enabled;
    RunInv(Start(own), es);
    StepTable(Run(Start(own), es), e, node);
  }

  // ---------------------------------------------------------------- who waits

  /** The newcomer `w` is in the table with its own ticks if it is known or there is room, and
      waits behind the others if not. */
  ghost predicate Placed(s: State, t: State, w: Waiting, gone: Id, room: bool) {
    var fits := room || (w.id in s.table && w.id != gone);
    && (fits ==> w.id in t.table && t.table[w.id] == w.ticks)
    && t.queue == (if fits then s.queue else s.queue + [w])
  }

  /** A decided ping is forgotten. A check adds nobody; a reping places its newcomer if its node
      timed out, was not seen since or is gone, and forgets it if the node was seen. */
  lemma NewcomerPlaced(own: Id, es: seq<Event>, tid: nat, room: bool)
    requires ValidRun(Start(own), es) && tid in Run(Start(own), es).pings
    ensures var s := Run(Start(own), es);
            var p, t := s.pings[tid], TimedOut(s, tid, room);
            tid !in t.pings && if p.Check? then t.queue == s.queue else Placed(s, t, p.newcomer, p.node, room)
    ensures var s := Run(Start(own), es);
            var p, t := s.pings[tid], Decide(s, s.pings[tid], room);
            if p.Reping? && Stale(s, p.node, p.lastSeen, true) then Placed(s, t, p.newcomer, p.node, room)
            else t.queue == s.queue && t.table.Keys == (if Stale(s, p.node, p.lastSeen, false)
                                                        then s.table.Keys - {p.node} else s.table.Keys)
  {
    hide Run, ValidRun;
  }

  // ---------------------------------------------------------------- where pings come from

  /** A packet that offers a new node which finds no room. */
  ghost predicate Crowds(s: State, e: Event) {
    || (e.DoRequest? && e.id.Some? && !e.room && e.id.value != s.own && e.id.value !in s.table)
    || (e.DoResponse? && e.id.Some? && !e.room && e.id.value != s.own && e.id.value !in s.table)
  }

  ghost function NewWaiting(s: State, e: Event): Waiting
    requires Crowds(s, e)
  {
    Waiting(e.id.value, Ticks(s.tick, s.tick, s.tick, 0))
  }

  /** The reping `p` is sent for one of the waiting nodes, about a node picked for it that was not
      pinged in this tick and is not both old and seen lately. */
  ghost predicate SentFor(s: State, waiting: seq<Waiting>, picks: nat -> Option<Pick>, tid: nat, p: Ping) {
    p.Reping? && Due(s, p.node) && !Trusted(s, s.table[p.node]) && p.lastSeen == s.table[p.node].seen &&
      exists i :: 0 <= i < |waiting| && picks(i) == Some(Pick(p.node, Some(tid))) && waiting[i] == p.newcomer
  }

  /** The step sends the ping `p` as request `tid`. */
  ghost predicate Sends(s: State, e: Event, tid: nat, p: Ping) {
    match p
    case Check(node, lastSeen) =>
      (e == DoPing(node, Some(tid)) || e == DoDownHint(node, Some(tid))) && Due(s, node) &&
      lastSeen == s.table[node].seen
    case Reping(_, _, _) =>
      s.bootstrapped && s.repinging < 3 && Crowds(s, e) &&
      SentFor(s, s.queue + [NewWaiting(s, e)], e.picks, tid, p)
  }

  /** Less is due later in a step, and the nodes are otherwise the same. */
  ghost predicate Aged(s: State, t: State) {
    && t.tick == s.tick && t.table.Keys == s.table.Keys
    && forall i :: i in s.table ==> t.table[i].seen == s.table[i].seen && t.table[i].added == s.table[i].added &&
                                    (s.table[i].pinged == t.table[i].pinged || t.table[i].pinged == s.tick)
  }

  lemma AgedSent(s: State, t: State, waiting: seq<Waiting>, picks: nat -> Option<Pick>, tid: nat, p: Ping)
    requires Aged(s, t) && SentFor(t, waiting, picks, tid, p)
    ensures SentFor(s, waiting, picks, tid, p)
  {
  }

  lemma {:induction false} RepingPings(s: State, waiting: seq<Waiting>, picks: nat -> Option<Pick>, i: nat, tid: nat)
    requires i <= |waiting|
    ensures var t := RepingFrom(s, waiting, picks, i);
            tid in t.pings ==>
              (tid in s.pings && t.pings[tid] == s.pings[tid]) || SentFor(s, waiting, picks, tid, t.pings[tid])
    decreases |waiting| - i
  {
    if i < |waiting| {
      if picks(i).Some? && Due(s, picks(i).value.node) {
        var node := picks(i).value.node;
        var ping := Reping(waiting[i], node, s.table[node].seen);
        if !Trusted(s, s.table[node]) {
          var s1 := SendPing(s, node, false, picks(i).value.tid, ping);
          RepingPings(s1, waiting, picks, i + 1, tid);
          assert Aged(s, s1);
          var t := RepingFrom(s, waiting, picks, i);
          if tid in t.pings && SentFor(s1, waiting, picks, tid, t.pings[tid]) {
            AgedSent(s, s1, waiting, picks, tid, t.pings[tid]);
          }
        }
      } else {
        RepingPings(s, waiting, picks, i + 1, tid);
      }
    }
  }

  lemma HeardPings(s: State, e: Event, tid: nat)
    requires e.DoRequest? || e.DoResponse?
    ensures var t := Heard(s, e.id, e.room, e.picks);
            tid in t.pings ==> (tid in s.pings && t.pings[tid] == s.pings[tid]) || Sends(s, e, tid, t.pings[tid])
  {
    hide RepingFrom, SentFor;
    if Crowds(s, e) {
      var s1 := TableAdd(s, NewWaiting(s, e), false);
      RepingPings(s1.(queue := []), s1.queue, e.picks, 0, tid);
      var t := Heard(s, e.id, e.room, e.picks);
      if tid in t.pings && SentFor(s1.(queue := []), s1.queue, e.picks, tid, t.pings[tid]) {
        AgedSent(s, s1.(queue := []), s1.queue, e.picks, tid, t.pings[tid]);
      }
    }
  }

  lemma {:induction false} ReinsertedPings(s: State, nodes: map<Id, Ticks>, order: seq<Id>, fits: Id -> bool, n: nat)
    requires n <= |order| && (forall i :: 0 <= i < |order| ==> order[i] in nodes)
    ensures Reinserted(s, nodes, order, fits, n).pings == s.pings
  {
    if n > 0 {
      ReinsertedPings(s, nodes, order, fits, n - 1);
    }
  }

  lemma CheckPings(s: State, e: Event, tid: nat)
    requires e.DoPing? || e.DoDownHint?
    ensures var t := CheckNode(s, e.node, e.DoDownHint?, e.pingTid);
            tid in t.pings ==> (tid in s.pings && t.pings[tid] == s.pings[tid]) || Sends(s, e, tid, t.pings[tid])
  {
    hide SentFor;
  }

  lemma StepPings(s: State, e: Event, tid: nat)
    requires Enabled(s, e)
    ensures var t := Step(s, e);
            tid in t.pings ==> (tid in s.pings && t.pings[tid] == s.pings[tid]) || Sends(s, e, tid, t.pings[tid])
  {
    hide SentFor;
    match e
    case DoRequest(_, _, _) =>
      HeardPings(s, e, tid);
      hide Heard, Sends;
    case DoResponse(_, _, _, _, _) =>
      HeardPings(s, e, tid);
      hide Heard, Sends;
    case DoBootstrap(own, order, fits) =>
      if own.Some? {
        ReinsertedPings(s.(own := own.value, table := map[], queue := []), s.table, order, fits, |order|);
      }
      hide Reinserted, Lists;
    case DoPing(_, _) =>
      CheckPings(s, e, tid);
      hide CheckNode, Sends;
    case DoDownHint(_, _) =>
      CheckPings(s, e, tid);
      hide CheckNode, Sends;
    case _ =>
      hide Sends;
  }

  ghost predicate SentAt(own: Id, es: seq<Event>, tid: nat, p: Ping, k: nat) {
    k < |es| && ValidRun(Start(own), es[..k]) && Sends(Run(Start(own), es[..k]), es[k], tid, p)
  }

  /** In every run each ping still to be decided was sent by one of its steps: a check by a ping or
      a down hint, a reping after the bootstrap, when fewer than three were counted, by a packet
      whose node found no room, for that node or one waiting before it. Its node was in the table,
      was not pinged in that tick, and `lastSeen` is the tick it had been seen in then. */
  lemma {:induction false} PingOrigins(own: Id, es: seq<Event>, tid: nat)
    requires ValidRun(Start(own), es) && tid in Run(Start(own), es).pings
    ensures exists k: nat :: SentAt(own, es, tid, Run(Start(own), es).pings[tid], k)
    decreases |es|
  {
    hide Sends;
    if |es| > 0 {
      var n := |es| - 1;
      var e := es[n];
      assert es == es[..n] + [e];
      RunSnoc(Start(own), es[..n], e);
      hide Run, ValidRun, Step, Enabled;
      var s, p := Run(Start(own), es[..n]), Run(Start(own), es).pings[tid];
      StepPings(s, e, tid);
      if Sends(s, e, tid, p) {
        assert SentAt(own, es, tid, p, n);
      } else {
        PingOrigins(own, es[..n], tid);
        var k: nat :| SentAt(own, es[..n], tid, p, k);
        assert es[..n][..k] == es[..k];
        assert SentAt(own, es, tid, p, k);
      }
    }
  }

  ghost predicate Reuses(picks: nat -> Option<Pick>, tid: nat) {
    exists i :: picks(i).Some? && picks(i).value.tid == Some(tid)
  }

  lemma {:induction false} RepingKeeps(s: State, waiting: seq<Waiting>, picks: nat -> Option<Pick>, i: nat)
    requires i <= |waiting|
    ensures s.pings.Keys <= RepingFrom(s, waiting, picks, i).pings.Keys
    decreases |waiting| - i
  {
    if i < |waiting| {
      if picks(i).Some? && Due(s, picks(i).value.node) {
        var node := picks(i).value.node;
        var ping := Reping(waiting[i], node, s.table[node].seen);
        RepingKeeps(SendPing(s, node, false, picks(i).value.tid, ping), waiting, picks, i + 1);
      } else {
        RepingKeeps(s, waiting, picks, i + 1);
      }
    }
  }

  lemma DecidedIs(s: State, tid: nat, id: Option<Id>, room: bool, picks: nat -> Option<Pick>)
    requires tid in s.pings && !Reuses(picks, tid)
    ensures Decided(s, tid, id, room, picks) == Some(s.pings[tid])
  {
    var e := DoResponse(tid, id, room, false, picks);
    HeardPings(s, e, tid);
    if Crowds(s, e) {
      var s1 := TableAdd(s, NewWaiting(s, e), false);
      RepingKeeps(s1.(queue := []), s1.queue, picks, 0);
      hide RepingFrom;
    }
  }

  /** In every run an answered check drops its node exactly if the answer is not from the node and
      the node has not been seen since the step that sent the ping. */
  lemma CheckDecided(own: Id, es: seq<Event>, tid: nat, id: Option<Id>, room: bool, room2: bool,
                     picks: nat -> Option<Pick>)
    requires ValidRun(Start(own), es) && tid in Run(Start(own), es).pings && !Reuses(picks, tid)
    requires var s := Run(Start(own), es);
             s.pings[tid].Check? && s.pings[tid].node in s.table
    ensures var s := Run(Start(own), es);
            var p := s.pings[tid];
            exists k: nat :: SentAt(own, es, tid, p, k) && p.node in Run(Start(own), es[..k]).table &&
              (p.node !in Answered(s, tid, id, room, room2, picks).table <==>
               id != Some(p.node) && s.table[p.node].seen <= Run(Start(own), es[..k]).table[p.node].seen)
  {
    hide Run, ValidRun, Answered, Heard;
    PingOrigins(own, es, tid);
    var s := Run(Start(own), es);
    var p := s.pings[tid];
    var k: nat :| SentAt(own, es, tid, p, k);
    TableExact(own, es, DoResponse(tid, id, room, room2, picks), p.node);
    DecidedIs(s, tid, id, room, picks);
  }

  // ---------------------------------------------------------------- repings are sent

  /** The i-th waiting node has a node of its own to be pinged for it: due, not trusted, and the
      request can be created under an id that no other pick has. */
  ghost predicate Picked(s: State, waiting: seq<Waiting>, picks: nat -> Option<Pick>, i: nat, tid: nat) {
    && i < |waiting| && picks(i).Some? && picks(i).value.tid == Some(tid)
    && Due(s, picks(i).value.node) && !Trusted(s, s.table[picks(i).value.node])
    && forall j: nat :: j < |waiting| && j != i && picks(j).Some? ==>
         picks(j).value.node != picks(i).value.node && picks(j).value.tid != Some(tid)
  }

  /** No pick before the i-th stops the round at a trusted node. */
  ghost predicate Reached(s: State, picks: nat -> Option<Pick>, i: nat) {
    forall j: nat :: j < i && picks(j).Some? && Due(s, picks(j).value.node) ==>
      !Trusted(s, s.table[picks(j).value.node])
  }

  /** A round that reaches a pick sends its ping. */
  lemma {:induction false} RepingSends(s: State, waiting: seq<Waiting>, picks: nat -> Option<Pick>, i: nat, k: nat,
                                       tid: nat)
    requires i <= k && Picked(s, waiting, picks, k, tid) && Reached(s, picks, k)
    ensures var t := RepingFrom(s, waiting, picks, i);
            tid in t.pings &&
            t.pings[tid] == Reping(waiting[k], picks(k).value.node, s.table[picks(k).value.node].seen)
    decreases |waiting| - i
  {
    if i == k {
      var node := picks(k).value.node;
      var ping := Reping(waiting[k], node, s.table[node].seen);
      RepingLeaves(SendPing(s, node, false, Some(tid), ping), waiting, picks, k + 1, tid);
    } else if picks(i).Some? && Due(s, picks(i).value.node) {
      var node := picks(i).value.node;
      var s1 := SendPing(s, node, false, picks(i).value.tid, Reping(waiting[i], node, s.table[node].seen));
      RepingSends(s1, waiting, picks, i + 1, k, tid);
    } else {
      RepingSends(s, waiting, picks, i + 1, k, tid);
    }
  }

  lemma {:induction false} RepingLeaves(s: State, waiting: seq<Waiting>, picks: nat -> Option<Pick>, i: nat, tid: nat)
    requires i <= |waiting| && tid in s.pings
    requires forall j: nat :: i <= j < |waiting| && picks(j).Some? ==> picks(j).value.tid != Some(tid)
    ensures var t := RepingFrom(s, waiting, picks, i);
            tid in t.pings && t.pings[tid] == s.pings[tid]
    decreases |waiting| - i
  {
    if i < |waiting| {
      if picks(i).Some? && Due(s, picks(i).value.node) {
        var node := picks(i).value.node;
        var ping := Reping(waiting[i], node, s.table[node].seen);
        RepingLeaves(SendPing(s, node, false, picks(i).value.tid, ping), waiting, picks, i + 1, tid);
      } else {
        RepingLeaves(s, waiting, picks, i + 1, tid);
      }
    }
  }

  lemma {:induction false} RepingQueue(s: State, waiting: seq<Waiting>, picks: nat -> Option<Pick>, i: nat)
    requires i <= |waiting|
    ensures RepingFrom(s, waiting, picks, i).queue == s.queue
    decreases |waiting| - i
  {
    if i < |waiting| {
      if picks(i).Some? && Due(s, picks(i).value.node) {
        var node := picks(i).value.node;
        var ping := Reping(waiting[i], node, s.table[node].seen);
        RepingQueue(SendPing(s, node, false, picks(i).value.tid, ping), waiting, picks, i + 1);
      } else {
        RepingQueue(s, waiting, picks, i + 1);
      }
    }
  }

  /** A new node that finds no room waits behind the others. After the bootstrap, if fewer than
      three repings are counted, all that wait are taken at once, and for each a node picked for
      it is pinged, up to the first pick that is trusted. */
  lemma CrowdedRound(s: State, e: Event, k: nat, tid: nat)
    requires Crowds(s, e)
    ensures var t, waiting := Heard(s, e.id, e.room, e.picks), s.queue + [NewWaiting(s, e)];
            if s.bootstrapped && s.repinging < 3 then
              && t.queue == []
              && (Picked(s, waiting, e.picks, k, tid) && Reached(s, e.picks, k) ==>
                    tid in t.pings && t.pings[tid] == Reping(waiting[k], e.picks(k).value.node,
                                                             s.table[e.picks(k).value.node].seen))
            else t == s.(queue := waiting)
  {
    hide RepingFrom;
    var waiting := s.queue + [NewWaiting(s, e)];
    var s1 := s.(queue := []);
    assert TableAdd(s, NewWaiting(s, e), false).(queue := []) == s1;
    RepingQueue(s1, waiting, e.picks, 0);
    if Picked(s, waiting, e.picks, k, tid) && Reached(s, e.picks, k) {
      assert Picked(s1, waiting, e.picks, k, tid) && Reached(s1, e.picks, k);
      RepingSends(s1, waiting, e.picks, 0, k, tid);
    }
  }

  // ---------------------------------------------------------------- ticks

  lemma {:induction false} RepingAges(s: State, waiting: seq<Waiting>, picks: nat -> Option<Pick>, i: nat)
    requires i <= |waiting|
    ensures Aged(s, RepingFrom(s, waiting, picks, i))
    ensures forall n :: n in s.table ==>
              RepingFrom(s, waiting, picks, i).table[n].downHints == s.table[n].downHints
    decreases |waiting| - i
  {
    if i < |waiting| {
      if picks(i).Some? && Due(s, picks(i).value.node) {
        var node := picks(i).value.node;
        var ping := Reping(waiting[i], node, s.table[node].seen);
        RepingAges(SendPing(s, node, false, picks(i).value.tid, ping), waiting, picks, i + 1);
      } else {
        RepingAges(s, waiting, picks, i + 1);
      }
    }
  }

  /** The ticks of a node that stays: a packet from it marks it as seen and pinged now; a ping or a
      down hint that is due marks it as pinged now, and a hint is counted; and nothing changes when
      it was added, or when another node is heard, except that it may be pinged now. */
  lemma TicksExact(s: State, e: Event, i: Id)
    requires i in s.table && i != s.own && (e.DoRequest? || e.DoPing? || e.DoDownHint?)
    ensures i in (if e.DoRequest? then Heard(s, e.id, e.room, e.picks)
                  else CheckNode(s, e.node, e.DoDownHint?, e.pingTid)).table
    ensures var was := s.table[i];
            if e.DoRequest? then
              var now := Heard(s, e.id, e.room, e.picks).table[i];
              if e.id == Some(i) then now == was.(seen := s.tick, pinged := s.tick)
              else now == was || now == was.(pinged := s.tick)
            else
              var now := CheckNode(s, e.node, e.DoDownHint?, e.pingTid).table[i];
              if e.node == i && was.pinged < s.tick then
                now == was.(pinged := s.tick, downHints := was.downHints + if e.DoDownHint? then 1 else 0)
              else now == was
  {
    if e.DoRequest? && e.id.Some? && e.id.value != s.own && e.id.value !in s.table && !e.room {
      var s1 := TableAdd(s, Waiting(e.id.value, Ticks(s.tick, s.tick, s.tick, 0)), e.room);
      RepingAges(s1.(queue := []), s1.queue, e.picks, 0);
      hide RepingFrom;
    }
  }

  /** The tick moves on by one; after a sleep it jumps by more than 720, to a multiple of eight, and
      by no more than it takes to get there. */
  lemma TickMoves(s: State, slept: bool)
    ensures var t := Step(s, DoTick(slept));
            && t == s.(tick := t.tick)
            && (!slept ==> t.tick == s.tick + 1)
            && (slept ==> t.tick % 8 == 0 && s.tick + 720 < t.tick <= s.tick + 728)
  {
  }

  // ---------------------------------------------------------------- counting repings

  ghost function Repings(pings: map<nat, Ping>): set<nat> {
    set t | t in pings && pings[t].Reping?
  }

  /** The ids of new requests are not in use, as the request table hands them out. */
  ghost predicate NewIds(s: State, e: Event) {
    match e
    case DoRequest(_, _, picks) => NewPicks(s.pings.Keys, picks)
    case DoResponse(_, _, _, _, picks) => NewPicks(s.pings.Keys, picks)
    case DoDownHint(_, tid) => tid.Some? ==> tid.value !in s.pings
    case DoPing(_, tid) => tid.Some? ==> tid.value !in s.pings
    case _ => true
  }

  ghost predicate NewPicks(used: set<nat>, picks: nat -> Option<Pick>) {
    && (forall i: nat :: picks(i).Some? && picks(i).value.tid.Some? ==> picks(i).value.tid.value !in used)
    && (forall i: nat, j: nat :: i < j && picks(i).Some? && picks(j).Some? && picks(i).value.tid.Some? ==>
          picks(i).value.tid != picks(j).value.tid)
  }

  ghost predicate Counted(s: State) {
    s.repinging == |Repings(s.pings)|
  }

  lemma SendCounts(s: State, node: Id, hint: bool, tid: Option<nat>, ping: Ping)
    requires Counted(s) && node in s.table && (tid.Some? ==> tid.value !in s.pings)
    ensures Counted(SendPing(s, node, hint, tid, ping))
  {
    if tid.Some? {
      var pings := s.pings[tid.value := ping];
      assert Repings(pings) == if ping.Reping? then Repings(s.pings) + {tid.value} else Repings(s.pings);
    }
  }

  lemma {:induction false} RepingCounts(s: State, waiting: seq<Waiting>, picks: nat -> Option<Pick>, i: nat)
    requires i <= |waiting| && Counted(s)
    requires forall j: nat :: i <= j && picks(j).Some? && picks(j).value.tid.Some? ==>
               picks(j).value.tid.value !in s.pings
    requires forall j: nat, k: nat :: i <= j < k && picks(j).Some? && picks(k).Some? && picks(j).value.tid.Some? ==>
               picks(j).value.tid != picks(k).value.tid
    ensures Counted(RepingFrom(s, waiting, picks, i))
    decreases |waiting| - i
  {
    hide Counted;
    if i < |waiting| {
      if picks(i).Some? && Due(s, picks(i).value.node) {
        var node := picks(i).value.node;
        var ping := Reping(waiting[i], node, s.table[node].seen);
        SendCounts(s, node, false, picks(i).value.tid, ping);
        RepingCounts(SendPing(s, node, false, picks(i).value.tid, ping), waiting, picks, i + 1);
      } else {
        RepingCounts(s, waiting, picks, i + 1);
      }
    }
  }

  lemma HeardCounts(s: State, id: Option<Id>, room: bool, picks: nat -> Option<Pick>)
    requires Counted(s) && NewPicks(s.pings.Keys, picks)
    ensures Counted(Heard(s, id, room, picks))
  {
    hide RepingFrom;
    if id.Some? && id.value != s.own && id.value !in s.table && !room {
      var s1 := TableAdd(s, Waiting(id.value, Ticks(s.tick, s.tick, s.tick, 0)), room);
      RepingCounts(s1.(queue := []), s1.queue, picks, 0);
    }
  }

  lemma ForgetCounts(pings: map<nat, Ping>, tid: nat)
    requires tid in pings
    ensures |Repings(pings - {tid})| == |Repings(pings)| - if pings[tid].Reping? then 1 else 0
  {
    if pings[tid].Reping? {
      assert Repings(pings) == Repings(pings - {tid}) + {tid};
    } else {
      assert Repings(pings) == Repings(pings - {tid});
    }
  }

  lemma DecideCounts(s: State, tid: nat, room: bool)
    requires Counted(s) && tid in s.pings
    ensures Counted(Decide(s.(pings := s.pings - {tid}), s.pings[tid], room))
    ensures Counted(TimedOut(s, tid, room))
  {
    ForgetCounts(s.pings, tid);
    hide Repings;
  }

  lemma {:induction false} ReinsertedCounts(s: State, nodes: map<Id, Ticks>, order: seq<Id>, fits: Id -> bool, n: nat)
    requires n <= |order| && (forall i :: 0 <= i < |order| ==> order[i] in nodes)
    ensures var t := Reinserted(s, nodes, order, fits, n);
            t.pings == s.pings && t.repinging == s.repinging
  {
    if n > 0 {
      ReinsertedCounts(s, nodes, order, fits, n - 1);
    }
  }

  lemma StepCounts(s: State, e: Event)
    requires Enabled(s, e) && Counted(s) && NewIds(s, e)
    ensures Counted(Step(s, e))
  {
    match e
    case DoRequest(id, room, picks) =>
      HeardCounts(s, id, room, picks);
      hide Heard;
    case DoResponse(tid, id, room, room2, picks) =>
      hide Heard, Decide, Counted;
      HeardCounts(s, id, room, picks);
      var s1 := Heard(s, id, room, picks);
      if tid in s1.pings {
        DecideCounts(s1, tid, room2);
      }
    case DoTimeout(tid, room) =>
      if tid in s.pings {
        DecideCounts(s, tid, room);
      }
    case DoBootstrap(own, order, fits) =>
      if own.Some? {
        ReinsertedCounts(s.(own := own.value, table := map[], queue := []), s.table, order, fits, |order|);
      }
      hide Reinserted, Lists, Repings;
    case DoDownHint(node, tid) =>
      if Due(s, node) {
        SendCounts(s, node, true, tid, Check(node, s.table[node].seen));
      }
    case DoPing(node, tid) =>
      if Due(s, node) {
        SendCounts(s, node, false, tid, Check(node, s.table[node].seen));
      }
    case DoTick(_) =>
  }

  ghost predicate NewIdsRun(s: State, es: seq<Event>)
    requires ValidRun(s, es)
    decreases |es|
  {
    |es| > 0 ==> NewIds(s, es[0]) && NewIdsRun(Step(s, es[0]), es[1..])
  }

  lemma {:induction false} RunCounts(s: State, es: seq<Event>)
    requires ValidRun(s, es) && NewIdsRun(s, es) && Counted(s)
    ensures Counted(Run(s, es))
    decreases |es|
  {
    hide Step, Enabled, Counted, NewIds;
    if |es| > 0 {
      StepCounts(s, es[0]);
      RunCounts(Step(s, es[0]), es[1..]);
    }
  }

  /** In every run in which requests get ids that are not in use, the counter of repings is the
      number of repings still to be decided. */
  lemma RepingsCounted(own: Id, es: seq<Event>)
    requires ValidRun(Start(own), es) && NewIdsRun(Start(own), es)
    ensures var s := Run(Start(own), es);
            s.repinging == |Repings(s.pings)|
  {
    assert Repings(map[]) == {};
    hide Run, ValidRun, NewIdsRun;
    RunCounts(Start(own), es);
  }
}
