/** The forward table of a node over its whole life: what a lookup finds is settled by the
    operations applied so far, and handshakes routed by it start from an announce. */
module RouterTable {
  import opened Options
  import opened Codec
  import opened Messages
  import opened HyperMessages
  import opened RouterSpec
  import opened RouterRuns

  // ---------------------------------------------------------------- which operation counts

  ghost predicate On(op: TableOp, t: Target) {
    !op.Collect? && op.target == t
  }

  /** The operation at i registered t, and nothing since has unregistered it. */
  ghost predicate StillRegistered(ops: seq<TableOp>, t: Target, i: nat) {
    && i < |ops| && ops[i].Register? && ops[i].target == t
    && forall j :: i < j < |ops| ==> ops[j] != Unregister(t)
  }

  ghost predicate Serving(ops: seq<TableOp>, t: Target) {
    exists i: nat :: StillRegistered(ops, t, i)
  }

  /** The operation at i changed the entry of t: an announce does so unless the node serves t. */
  ghost predicate Effective(ops: seq<TableOp>, t: Target, i: nat) {
    i < |ops| && On(ops[i], t) && (ops[i].Announce? ==> !Serving(ops[..i], t))
  }

  ghost predicate Last(ops: seq<TableOp>, t: Target, i: nat) {
    Effective(ops, t, i) && forall j: nat :: i < j ==> !Effective(ops, t, j)
  }

  ghost predicate CollectedBy(ops: seq<TableOp>, now: nat) {
    forall i :: 0 <= i < |ops| && ops[i].Collect? ==> ops[i].now <= now
  }

  // ---------------------------------------------------------------- one more operation

  lemma {:induction false} ApplySnoc(m: Forwards, ops: seq<TableOp>, op: TableOp)
    ensures ApplyAll(m, ops + [op]) == Apply(ApplyAll(m, ops), op)
    decreases |ops|
  {
    hide Apply;
    if ops == [] {
      assert ops + [op] == [op] && [op][1..] == [];
    } else {
      assert (ops + [op])[1..] == ops[1..] + [op];
      ApplySnoc(Apply(m, ops[0]), ops[1..], op);
    }
  }

  lemma ServingSnoc(ops: seq<TableOp>, op: TableOp, t: Target)
    ensures Serving(ops + [op], t) <==>
              (op.Register? && op.target == t) || (Serving(ops, t) && op != Unregister(t))
  {
    var ops' := ops + [op];
    assert ops'[|ops|] == op;
    if Serving(ops, t) && op != Unregister(t) {
      var i: nat :| StillRegistered(ops, t, i);
      assert StillRegistered(ops', t, i);
    }
    if op.Register? && op.target == t {
      assert StillRegistered(ops', t, |ops|);
    } else if Serving(ops', t) {
      var i: nat :| StillRegistered(ops', t, i);
      assert forall j :: i < j < |ops| ==> ops[j] == ops'[j];
      assert StillRegistered(ops, t, i);
    }
  }

  lemma EffectiveSnoc(ops: seq<TableOp>, op: TableOp, t: Target, i: nat)
    ensures i < |ops| ==> (Effective(ops + [op], t, i) <==> Effective(ops, t, i))
    ensures Effective(ops + [op], t, |ops|) <==> On(op, t) && (op.Announce? ==> !Serving(ops, t))
  {
    hide Serving;
    assert (ops + [op])[..|ops|] == ops;
    if i < |ops| {
      assert (ops + [op])[..i] == ops[..i];
    }
  }

  /** The last effective operation after one more: that one if it is effective, else the one before. */
  lemma LastSnoc(ops: seq<TableOp>, op: TableOp, t: Target, i: nat)
    ensures var now := On(op, t) && (op.Announce? ==> !Serving(ops, t));
            Last(ops + [op], t, i) <==> if now then i == |ops| else Last(ops, t, i)
  {
    hide Serving;
    forall j: nat
      ensures j < |ops| ==> (Effective(ops + [op], t, j) <==> Effective(ops, t, j))
      ensures Effective(ops + [op], t, |ops|) <==> On(op, t) && (op.Announce? ==> !Serving(ops, t))
    {
      EffectiveSnoc(ops, op, t, j);
    }
    hide Effective;
    EffectiveBounded(ops, t);
    EffectiveBounded(ops + [op], t);
  }

  lemma EffectiveBounded(ops: seq<TableOp>, t: Target)
    ensures forall j: nat :: Effective(ops, t, j) ==> j < |ops|
  {
    hide Serving;
  }

  // ---------------------------------------------------------------- the table

  /** The entry an operation leaves. */
  ghost predicate Leaves(op: TableOp, f: Forward) {
    || (op.Announce? && f == Forward(Some(op.from), false, op.now))
    || (op.Register? && f == Forward(None, true, op.now))
  }

  /** An operation whose entry is gone: it removed it, or it was announced too long ago. */
  ghost predicate Gone(ops: seq<TableOp>, op: TableOp) {
    op.Unregister? || (op.Announce? && exists i :: 0 <= i < |ops| && ops[i].Collect? && op.now + TTL < ops[i].now)
  }

  /** The entry of t is what the last effective operation left, and it is there unless gone. */
  ghost predicate Stands(m: Forwards, ops: seq<TableOp>, t: Target) {
    && (t in m ==> exists i: nat :: Last(ops, t, i) && Leaves(ops[i], m[t]))
    && (t !in m ==> forall i: nat :: Last(ops, t, i) ==> Gone(ops, ops[i]))
    && (t in m && m[t].hasServer <==> Serving(ops, t))
  }

  lemma LastUnique(ops: seq<TableOp>, t: Target, i: nat, j: nat)
    requires Last(ops, t, i) && Last(ops, t, j)
    ensures i == j
  {
    hide Effective;
  }

  lemma GoneStays(ops: seq<TableOp>, op: TableOp, past: TableOp)
    requires Gone(ops, past)
    ensures Gone(ops + [op], past)
  {
    if !past.Unregister? {
      var i :| 0 <= i < |ops| && ops[i].Collect? && past.now + TTL < ops[i].now;
      assert (ops + [op])[i] == ops[i];
    }
  }

  /** An operation that leaves the entry of t alone. */
  lemma StandsPassed(m: Forwards, m': Forwards, ops: seq<TableOp>, op: TableOp, t: Target)
    requires Stands(m, ops, t) && !(On(op, t) && (op.Announce? ==> !Serving(ops, t)))
    requires t in m' ==> t in m && m'[t] == m[t]
    requires t in m && t !in m' ==> op.Collect? && !Live(m[t], op.now)
    ensures Stands(m', ops + [op], t)
  {
    var ops' := ops + [op];
    ServingSnoc(ops, op, t);
    forall i: nat
      ensures Last(ops', t, i) <==> Last(ops, t, i)
      ensures Last(ops, t, i) ==> i < |ops| && ops'[i] == ops[i]
    {
      LastSnoc(ops, op, t, i);
    }
    hide Serving, Effective;
    if t in m {
      var i: nat :| Last(ops, t, i) && Leaves(ops[i], m[t]);
      assert Last(ops', t, i) && Leaves(ops'[i], m[t]);
      if t !in m' {
        forall j: nat | Last(ops', t, j)
          ensures Gone(ops', ops'[j])
        {
          hide Last;
          LastUnique(ops, t, i, j);
          assert ops'[|ops|] == op;
        }
      }
    } else {
      forall j: nat | Last(ops', t, j)
        ensures Gone(ops', ops'[j])
      {
        hide Last, Gone;
        GoneStays(ops, op, ops[j]);
      }
    }
  }

  /** An operation that settles the entry of t. */
  lemma StandsSettled(m: Forwards, ops: seq<TableOp>, op: TableOp, t: Target)
    requires Stands(m, ops, t) && On(op, t) && (op.Announce? ==> !Serving(ops, t))
    ensures Stands(Apply(m, op), ops + [op], t)
  {
    var ops' := ops + [op];
    ServingSnoc(ops, op, t);
    forall i: nat
      ensures Last(ops', t, i) <==> i == |ops|
    {
      LastSnoc(ops, op, t, i);
    }
    hide Serving, Effective, Last;
    assert Last(ops', t, |ops|) && ops'[|ops|] == op;
  }

  lemma StandsSnoc(m: Forwards, ops: seq<TableOp>, op: TableOp, t: Target)
    requires Stands(m, ops, t)
    ensures Stands(Apply(m, op), ops + [op], t)
  {
    if On(op, t) && (op.Announce? ==> !Serving(ops, t)) {
      StandsSettled(m, ops, op, t);
    } else {
      StandsPassed(m, Apply(m, op), ops, op, t);
    }
  }

  lemma {:induction false} TableStands(ops: seq<TableOp>, t: Target)
    ensures Stands(ApplyAll(map[], ops), ops, t)
    decreases |ops|
  {
    if ops != [] {
      hide Stands, Apply;
      var n := |ops| - 1;
      TableStands(ops[..n], t);
      assert ops == ops[..n] + [ops[n]];
      ApplySnoc(map[], ops[..n], ops[n]);
      StandsSnoc(ApplyAll(map[], ops[..n]), ops[..n], ops[n], t);
    }
  }

  // ---------------------------------------------------------------- main theorems

  /** In milliseconds. */
  const TWENTY_MINUTES: nat := 20 * 60 * 1000

  /** The last effective operation on t announced `from` no more than twenty minutes before. */
  ghost predicate AnnouncedLast(ops: seq<TableOp>, t: Target, from: Address, now: nat) {
    exists i: nat :: Last(ops, t, i) && ops[i].Announce? && ops[i].from == from && now <= ops[i].now + TWENTY_MINUTES
  }

  /** What a lookup finds, from the operations alone: the relay `from` exactly if the last
      operation on the target that took effect announced it at most twenty minutes ago, and a
      server exactly if the last registration was not undone. */
  lemma LookupFinds(ops: seq<TableOp>, t: Target, from: Address, now: nat)
    requires CollectedBy(ops, now)
    ensures RelayOf(Lookup(ApplyAll(map[], ops), Some(t), now)) == Some(from) <==> AnnouncedLast(ops, t, from, now)
    ensures HasServer(Lookup(ApplyAll(map[], ops), Some(t), now)) <==> Serving(ops, t)
  {
    hide Serving, ApplyAll;
    var m := ApplyAll(map[], ops);
    TableStands(ops, t);
    if AnnouncedLast(ops, t, from, now) {
      var i: nat :| Last(ops, t, i) && ops[i].Announce? && ops[i].from == from && now <= ops[i].now + TWENTY_MINUTES;
      if t in m {
        var j: nat :| Last(ops, t, j) && Leaves(ops[j], m[t]);
        LastUnique(ops, t, i, j);
      }
    }
  }

  /** What a node's table holds for a target announced to it last. */
  lemma AnnouncedFound(ops: seq<TableOp>, t: Target, from: Address, now: nat)
    requires CollectedBy(ops, now) && AnnouncedLast(ops, t, from, now)
    ensures var m := ApplyAll(map[], ops);
            t in m && Live(m[t], now) && !m[t].hasServer && m[t].relay == Some(from)
  {
    hide Serving, ApplyAll, Effective, AnnouncedLast;
    LookupFinds(ops, t, from, now);
    TableStands(ops, t);
  }

  lemma ServingFound(ops: seq<TableOp>, t: Target)
    requires Serving(ops, t)
    ensures var m := ApplyAll(map[], ops);
            t in m && m[t].hasServer
  {
    hide Serving, ApplyAll, Effective;
    TableStands(ops, t);
  }

  /** What the client is to get: one response from `via` on its own transaction id. */
  ghost predicate Answered(n: Net, client: Address, via: Address, tid: nat, requests: nat) {
    && n.flight == [] && n.requests == requests && |n.delivered| == 1
    && var r := n.delivered[0];
       r.ResponsePacket? && r.from == via && r.to == client && r.tid == tid && r.error == 0 && r.value.Some?
  }

  /** End to end from an announce: a server serves the target and announced itself to a relay,
      which heard nothing else of the target since that took effect, at most twenty minutes ago.
      Then three deliveries turn a client's request to the relay into one response on the client's
      own transaction id, and the client accepts it, getting the server's noise bytes unchanged
      and the address the server announced from. */
  lemma OneRelay(relayOps: seq<TableOp>, serverOps: seq<TableOp>, laterOps: seq<TableOp>, client: Address,
                 relay: Address, server: Address, tid: nat, target: Target, noise: Bytes, answer: Bytes, t1: nat,
                 t2: nat, t3: nat, any: Outcome)
    requires Sized(noise) && noise != [] && Sized(answer) && answer != []
    requires CollectedBy(relayOps, t1) && AnnouncedLast(relayOps, target, server, t1)
    requires Serving(serverOps, target)
    requires CollectedBy(laterOps, t3) && !Serving(laterOps, target)
    ensures var later := ApplyAll(map[], laterOps);
            var es := [Deliver(0, ApplyAll(map[], relayOps), t1, any),
                       Deliver(0, ApplyAll(map[], serverOps), t2, Gives(answer)),
                       Deliver(0, later, t3, any), Deliver(0, later, t3, any)];
            var start := Net([ClientRequest(client, relay, tid, target, noise)], [], 0);
            ValidRun(start, es) &&
            var n := Run(start, es);
            && Answered(n, client, relay, tid, 2)
            && ValidateReply(n.delivered[0].value.value, relay, n.delivered[0].from) ==
               Some(HandshakeResult(answer, true, server, relay))
  {
    hide AnnouncedLast, Serving, ApplyAll, CollectedBy, Run, ValidRun, ClientRequest, ValidateReply;
    AnnouncedFound(relayOps, target, server, t1);
    ServingFound(serverOps, target);
    LookupFinds(laterOps, target, server, t3);
    RelayRound(ApplyAll(map[], relayOps), ApplyAll(map[], serverOps), ApplyAll(map[], laterOps), client, relay, server,
               tid, target, noise, answer, t1, t2, t3, any);
  }

  /** Through two relays, the first having heard the announce of the second and that one the
      server's, the client gets one response with the server's noise bytes from the second relay,
      and so accepts it exactly if that is the relay it asked. */
  lemma TwoRelays(firstOps: seq<TableOp>, secondOps: seq<TableOp>, serverOps: seq<TableOp>, laterOps: seq<TableOp>,
                  client: Address, first: Address, second: Address, server: Address, tid: nat, target: Target,
                  noise: Bytes, answer: Bytes, t1: nat, t2: nat, t3: nat, t4: nat, any: Outcome)
    requires Sized(noise) && noise != [] && Sized(answer) && answer != []
    requires CollectedBy(firstOps, t1) && AnnouncedLast(firstOps, target, second, t1)
    requires CollectedBy(secondOps, t2) && AnnouncedLast(secondOps, target, server, t2)
    requires Serving(serverOps, target)
    requires CollectedBy(laterOps, t4) && !Serving(laterOps, target)
    ensures var later := ApplyAll(map[], laterOps);
            var es := [Deliver(0, ApplyAll(map[], firstOps), t1, any), Deliver(0, ApplyAll(map[], secondOps), t2, any),
                       Deliver(0, ApplyAll(map[], serverOps), t3, Gives(answer)), Deliver(0, later, t4, any),
                       Deliver(0, later, t4, any)];
            var start := Net([ClientRequest(client, first, tid, target, noise)], [], 0);
            ValidRun(start, es) &&
            var n := Run(start, es);
            && Answered(n, client, second, tid, 3)
            && ValidateReply(n.delivered[0].value.value, first, n.delivered[0].from) ==
               if first == second then Some(HandshakeResult(answer, true, server, second)) else None
  {
    hide AnnouncedLast, Serving, ApplyAll, CollectedBy, Run, ValidRun, ClientRequest, ValidateReply;
    AnnouncedFound(firstOps, target, second, t1);
    AnnouncedFound(secondOps, target, server, t2);
    ServingFound(serverOps, target);
    LookupFinds(laterOps, target, server, t4);
    TwoRelayRound(ApplyAll(map[], firstOps), ApplyAll(map[], secondOps), ApplyAll(map[], serverOps),
                  ApplyAll(map[], laterOps), client, first, second, server, tid, target, noise, answer, t1, t2, t3, t4,
                  any);
  }

  ghost function Asking(client: Address, node: Address, tid: nat, target: Target, hs: Handshake): Packet
    requires hs.Ok()
  {
    RequestPacket(client, node, tid, Some(target), Some(EncodeHandshake(hs)))
  }

  /** Where a client's handshake goes at a node that does not serve the target: to the relay that
      the client names, else to the one last announced to the node, else back to the client as an
      answer without a value, from which it takes the closer nodes. */
  lemma ClientRouted(ops: seq<TableOp>, client: Address, node: Address, tid: nat, target: Target, noise: Bytes,
                     named: Option<Address>, now: nat, any: Outcome)
    requires Sized(noise) && noise != [] && CollectedBy(ops, now) && !Serving(ops, target)
    ensures var out := Handle(ApplyAll(map[], ops),
                              Asking(client, node, tid, target, Handshake(FROM_CLIENT, noise, None, named)), now, any);
            var passed := Handshake(FROM_RELAY, noise, Some(client), None);
            && (named.Some? ==> out == [Asking(node, named.value, tid, target, passed)])
            && (forall a :: named.None? && AnnouncedLast(ops, target, a, now) ==>
                  out == [Asking(node, a, tid, target, passed)])
            && (named.None? && (forall a :: !AnnouncedLast(ops, target, a, now)) ==>
                  out == [ResponsePacket(node, client, tid, 0, None)])
  {
    hide EncodeHandshake, DecodeHandshake, AnnouncedLast, Serving, ApplyAll, CollectedBy;
    var m := ApplyAll(map[], ops);
    Reads(Handshake(FROM_CLIENT, noise, None, named));
    forall a: Address
      ensures RelayOf(Lookup(m, Some(target), now)) == Some(a) <==> AnnouncedLast(ops, target, a, now)
      ensures HasServer(Lookup(m, Some(target), now)) <==> Serving(ops, target)
    {
      LookupFinds(ops, target, a, now);
    }
    var f := Lookup(m, Some(target), now);
    LookupFinds(ops, target, client, now);
    hide Lookup;
    assert named.None? && (forall a :: !AnnouncedLast(ops, target, a, now)) ==> RelayOf(f).None?;
  }

  /** A node that serves the target takes handshakes from clients and relays to its server, whose
      answer goes back on the same transaction id, and refuses every other mode. */
  lemma ServerRouted(ops: seq<TableOp>, from: Address, node: Address, tid: nat, target: Target, hs: Handshake,
                     answer: Bytes, now: nat)
    requires hs.Ok() && Sized(answer) && Serving(ops, target)
    ensures var out := Handle(ApplyAll(map[], ops), Asking(from, node, tid, target, hs), now, Gives(answer));
            if hs.mode == FROM_CLIENT then
              out == [ResponsePacket(node, from, tid, 0, Some(EncodeHandshake(Handshake(REPLY, answer, None, None))))]
            else if hs.mode == FROM_RELAY || hs.mode == FROM_SECOND_RELAY then
              out == [Asking(node, from, tid, target, Handshake(FROM_SERVER, answer, hs.peerAddress, None))]
            else out == [ResponsePacket(node, from, tid, ERR_UNKNOWN, None)]
  {
    hide EncodeHandshake, DecodeHandshake, Serving, ApplyAll;
    Reads(hs);
    ServingFound(ops, target);
  }

  /** A holepunch message from a client goes to the peer it names, else to the relay last announced;
      one from a relay is for the node's own server, if it serves the target and the message names
      the client; and one of an unknown mode is ignored. */
  lemma PunchRouted(ops: seq<TableOp>, from: Address, target: Target, id: u64, payload: Bytes, named: Option<Address>,
                    mode: u64, now: nat)
    requires Sized(payload) && CollectedBy(ops, now)
    ensures var m := ApplyAll(map[], ops);
            var a := RouteHolepunch(m, Some(target), from, EncodeHolepunch(Holepunch(mode, id, payload, named)), now);
            var passed := EncodeHolepunch(Holepunch(FROM_RELAY, id, payload, Some(from)));
            if mode == FROM_CLIENT then
              && (named.Some? ==> a == ForwardPunch(passed, named.value))
              && (forall r :: named.None? && AnnouncedLast(ops, target, r, now) ==> a == ForwardPunch(passed, r))
              && (named.None? && (forall r :: !AnnouncedLast(ops, target, r, now)) ==> a == IgnorePunch)
            else if mode == FROM_RELAY then
              a == if Serving(ops, target) && named.Some?
                   then PunchLocally(Holepunch(FROM_RELAY, id, payload, named), named.value) else IgnorePunch
            else mode != FROM_SERVER ==> a == IgnorePunch
  {
    hide EncodeHolepunch, DecodeHolepunch, AnnouncedLast, Serving, ApplyAll, CollectedBy;
    var m := ApplyAll(map[], ops);
    PunchReads(Holepunch(mode, id, payload, named));
    forall r: Address
      ensures RelayOf(Lookup(m, Some(target), now)) == Some(r) <==> AnnouncedLast(ops, target, r, now)
    {
      LookupFinds(ops, target, r, now);
    }
    LookupFinds(ops, target, from, now);
    var f := Lookup(m, Some(target), now);
    hide Lookup;
    assert (forall r :: !AnnouncedLast(ops, target, r, now)) ==> RelayOf(f).None?;
  }
}
