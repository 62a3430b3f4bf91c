/** Relayed handshakes never loop, and through one relay they reach the server and come back. */
module RouterRuns {
  import opened Options
  import opened Codec
  import opened Messages
  import opened HyperMessages
  import opened RouterSpec

  // ---------------------------------------------------------------- modes only advance

  /** How many more times a message of this mode can be passed on as a request. */
  ghost function HopsLeft(mode: u64): nat {
    if mode == FROM_CLIENT then 3 else if mode == FROM_RELAY then 2 else if mode == FROM_SECOND_RELAY then 1 else 0
  }

  ghost function Hops(value: Option<Bytes>): nat {
    if value.Some? && DecodeHandshake(value.value).Got? then HopsLeft(DecodeHandshake(value.value).value.mode) else 0
  }

  ghost function PacketHops(p: Packet): nat {
    if p.RequestPacket? then Hops(p.value) else 0
  }

  lemma Reads(m: Handshake)
    requires m.Ok()
    ensures DecodeHandshake(EncodeHandshake(m)) == Got(m, [])
  {
    HandshakeRoundTrip(m, []);
    assert EncodeHandshake(m) + [] == EncodeHandshake(m);
  }

  /** Handling a request gives one packet with the same transaction id, and if that is again a
      request then its mode has advanced. */
  lemma Advances(m: Forwards, p: Packet, now: nat, outcome: Outcome)
    requires p.RequestPacket?
    ensures var out := Handle(m, p, now, outcome);
            && |out| == 1 && out[0].tid == p.tid && out[0].from == p.to
            && (out[0].RequestPacket? ==> PacketHops(out[0]) < PacketHops(p) && out[0].target == p.target)
  {
    hide EncodeHandshake, DecodeHandshake, ServerAnswer, RelayHandshake, Lookup;
    if p.value.Some? && DecodeHandshake(p.value.value).Got? {
      var hs := DecodeHandshake(p.value.value).value;
      var f := Lookup(m, p.target, now);
      if HasServer(f) {
        AnswerAdvances(p, hs, outcome);
      } else {
        RelayAdvances(RelayOf(f), p.from, hs);
      }
    }
  }

  lemma AnswerAdvances(p: Packet, hs: Handshake, outcome: Outcome)
    requires p.RequestPacket?
    ensures var out := ServerAnswer(p, hs, outcome);
            && |out| == 1 && out[0].tid == p.tid && out[0].from == p.to
            && (out[0].RequestPacket? ==> PacketHops(out[0]) < HopsLeft(hs.mode) && out[0].target == p.target)
  {
    hide EncodeHandshake, DecodeHandshake;
    if outcome.Gives? && ServerReply(hs, outcome.noise).Ok() {
      Reads(ServerReply(hs, outcome.noise));
    }
  }

  lemma RelayAdvances(relay: Option<Address>, from: Address, hs: Handshake)
    ensures var a := RelayHandshake(relay, from, hs);
            && !a.HandleLocally?
            && (a.ForwardRequest? ==> Hops(Some(a.value)) < HopsLeft(hs.mode))
  {
    hide EncodeHandshake, DecodeHandshake;
    var via := if hs.relayAddress.Some? then AsAddress(hs.relayAddress) else relay;
    if via.Some? {
      ReadsIfOk(Handshake(FROM_RELAY, hs.noise, Some(from), None));
    }
    ReadsIfOk(Handshake(FROM_SECOND_RELAY, hs.noise, AsAddress(hs.peerAddress), Some(from)));
  }

  lemma ReadsIfOk(m: Handshake)
    ensures m.Ok() ==> DecodeHandshake(EncodeHandshake(m)) == Got(m, [])
  {
    if m.Ok() {
      Reads(m);
    }
  }

  // ---------------------------------------------------------------- runs of the network

  /** Packets in flight, those delivered to a requester, and the requests sent by nodes. */
  datatype Net = Net(flight: seq<Packet>, delivered: seq<Packet>, requests: nat)

  /** A packet arrives at its node, with any forward table there at that moment, or is lost. */
  datatype Move = Deliver(index: nat, table: Forwards, now: nat, outcome: Outcome) | Lose(index: nat)

  ghost function Step(n: Net, e: Move): Net
    requires e.index < |n.flight|
  {
    var p := n.flight[e.index];
    var rest := n.flight[..e.index] + n.flight[e.index + 1..];
    match e
    case Lose(_) => n.(flight := rest)
    case Deliver(_, table, now, outcome) =>
      if p.ResponsePacket? then n.(flight := rest, delivered := n.delivered + [p])
      else
        var out := Handle(table, p, now, outcome);
        n.(flight := rest + out, requests := n.requests + Requests(out))
  }

  ghost function Requests(ps: seq<Packet>): nat {
    if ps == [] then 0 else (if ps[0].RequestPacket? then 1 else 0) + Requests(ps[1..])
  }

  ghost predicate ValidRun(n: Net, es: seq<Move>)
    decreases |es|
  {
    es != [] ==> es[0].index < |n.flight| && ValidRun(Step(n, es[0]), es[1..])
  }

  ghost function Run(n: Net, es: seq<Move>): Net
    requires ValidRun(n, es)
    decreases |es|
  {
    if es == [] then n else Run(Step(n, es[0]), es[1..])
  }

  /** There is never more than one packet, and what it can still cause is bounded. */
  ghost predicate Bounded(n: Net, tid: nat, budget: nat) {
    && |n.flight| + |n.delivered| <= 1
    && (forall i :: 0 <= i < |n.flight| ==> n.flight[i].tid == tid)
    && (forall i :: 0 <= i < |n.delivered| ==> n.delivered[i].tid == tid && n.delivered[i].ResponsePacket?)
    && n.requests + (if |n.flight| == 1 then PacketHops(n.flight[0]) else 0) <= budget
  }

  lemma StepBounded(n: Net, e: Move, tid: nat, budget: nat)
    requires Bounded(n, tid, budget) && e.index < |n.flight|
    ensures Bounded(Step(n, e), tid, budget)
  {
    var p := n.flight[0];
    assert n.flight[..0] + n.flight[1..] == [];
    if e.Deliver? && p.RequestPacket? {
      Advances(e.table, p, e.now, e.outcome);
      var out := Handle(e.table, p, e.now, e.outcome);
      hide Handle, Hops;
      assert [] + out == out;
      OneRequest(out[0]);
      assert out == [out[0]];
    }
  }

  lemma {:induction false} RunBounded(n: Net, es: seq<Move>, tid: nat, budget: nat)
    requires Bounded(n, tid, budget) && ValidRun(n, es)
    ensures Bounded(Run(n, es), tid, budget)
    decreases |es|
  {
    hide Bounded, Step;
    if es != [] {
      StepBounded(n, es[0], tid, budget);
      RunBounded(Step(n, es[0]), es[1..], tid, budget);
    }
  }

  /** One client request, whatever the forward tables of all nodes are and however they change:
      nodes send at most three further requests, and at most one response is ever delivered,
      with the client's transaction id. */
  lemma NoLoops(p: Packet, es: seq<Move>)
    requires p.RequestPacket? && ValidRun(Net([p], [], 0), es)
    ensures var n := Run(Net([p], [], 0), es);
            && n.requests <= 3
            && |n.delivered| <= 1
            && (forall i :: 0 <= i < |n.delivered| ==> n.delivered[i].ResponsePacket? && n.delivered[i].tid == p.tid)
  {
    assert Bounded(Net([p], [], 0), p.tid, 3) by { hide DecodeHandshake; }
    hide Run, ValidRun, PacketHops;
    RunBounded(Net([p], [], 0), es, p.tid, 3);
  }

  // ---------------------------------------------------------------- through one relay

  ghost function ClientRequest(client: Address, relay: Address, tid: nat, target: Target, noise: Bytes): Packet
    requires Sized(noise)
  {
    RequestPacket(client, relay, tid, Some(target), Some(EncodeHandshake(Handshake(FROM_CLIENT, noise, None, None))))
  }

  /** The relay forwards the client's noise bytes to the server, saying who they came from. */
  lemma RelayForwards(m: Forwards, client: Address, relay: Address, server: Address, tid: nat, target: Target,
                      noise: Bytes, now: nat, any: Outcome)
    requires Sized(noise) && noise != [] && target in m && Live(m[target], now)
    requires !m[target].hasServer && m[target].relay == Some(server)
    ensures Handle(m, ClientRequest(client, relay, tid, target, noise), now, any) ==
            [RequestPacket(relay, server, tid, Some(target),
                           Some(EncodeHandshake(Handshake(FROM_RELAY, noise, Some(client), None))))]
  {
    hide EncodeHandshake, DecodeHandshake;
    Reads(Handshake(FROM_CLIENT, noise, None, None));
  }

  /** The server sends its own noise bytes back to the relay, for that client. */
  lemma ServerAnswers(m: Forwards, client: Address, relay: Address, server: Address, tid: nat, target: Target,
                      noise: Bytes, answer: Bytes, now: nat)
    requires Sized(noise) && Sized(answer) && target in m && m[target].hasServer
    ensures Handle(m, RequestPacket(relay, server, tid, Some(target),
                                    Some(EncodeHandshake(Handshake(FROM_RELAY, noise, Some(client), None)))),
                   now, Gives(answer)) ==
            [RequestPacket(server, relay, tid, Some(target),
                           Some(EncodeHandshake(Handshake(FROM_SERVER, answer, Some(client), None))))]
  {
    hide EncodeHandshake, DecodeHandshake;
    Reads(Handshake(FROM_RELAY, noise, Some(client), None));
  }

  /** The relay turns that into a response to the client, with the server's address as it sees it. */
  lemma RelayFinishes(m: Forwards, client: Address, relay: Address, server: Address, tid: nat, target: Target,
                      answer: Bytes, now: nat, any: Outcome)
    requires Sized(answer) && answer != [] && !HasServer(Lookup(m, Some(target), now))
    ensures Handle(m, RequestPacket(server, relay, tid, Some(target),
                                    Some(EncodeHandshake(Handshake(FROM_SERVER, answer, Some(client), None)))),
                   now, any) ==
            [ResponsePacket(relay, client, tid, 0, Some(EncodeHandshake(Handshake(REPLY, answer, Some(server), None))))]
  {
    hide EncodeHandshake, DecodeHandshake;
    Reads(Handshake(FROM_SERVER, answer, Some(client), None));
  }

  /** End to end through one relay: three deliveries turn the client's request into one
      response, on the client's own transaction id and from the relay it asked, and the client
      accepts it, getting the server's noise bytes unchanged and the server's address as the
      relay saw it. */
  lemma RelayRound(relayTable: Forwards, serverTable: Forwards, laterTable: Forwards, client: Address, relay: Address,
                 server: Address, tid: nat, target: Target, noise: Bytes, answer: Bytes, t1: nat, t2: nat, t3: nat,
                 any: Outcome)
    requires Sized(noise) && noise != [] && Sized(answer) && answer != []
    requires target in relayTable && Live(relayTable[target], t1) && !relayTable[target].hasServer &&
             relayTable[target].relay == Some(server)
    requires target in serverTable && serverTable[target].hasServer
    requires !HasServer(Lookup(laterTable, Some(target), t3))
    ensures var es := [Deliver(0, relayTable, t1, any), Deliver(0, serverTable, t2, Gives(answer)),
                       Deliver(0, laterTable, t3, any), Deliver(0, laterTable, t3, any)];
            var start := Net([ClientRequest(client, relay, tid, target, noise)], [], 0);
            ValidRun(start, es) &&
            var n := Run(start, es);
            && n.flight == [] && n.requests == 2 && |n.delivered| == 1
            && var r := n.delivered[0];
               && r.ResponsePacket? && r.from == relay && r.to == client && r.tid == tid && r.error == 0 &&
                  r.value.Some?
               && ValidateReply(r.value.value, relay, r.from) == Some(HandshakeResult(answer, true, server, relay))
  {
    hide EncodeHandshake, DecodeHandshake, Handle;
    var p0 := ClientRequest(client, relay, tid, target, noise);
    var p1 := RequestPacket(relay, server, tid, Some(target),
                            Some(EncodeHandshake(Handshake(FROM_RELAY, noise, Some(client), None))));
    var p2 := RequestPacket(server, relay, tid, Some(target),
                            Some(EncodeHandshake(Handshake(FROM_SERVER, answer, Some(client), None))));
    var r := ResponsePacket(relay, client, tid, 0, Some(EncodeHandshake(Handshake(REPLY, answer, Some(server), None))));
    RelayForwards(relayTable, client, relay, server, tid, target, noise, t1, any);
    ServerAnswers(serverTable, client, relay, server, tid, target, noise, answer, t2);
    RelayFinishes(laterTable, client, relay, server, tid, target, answer, t3, any);
    Reads(Handshake(REPLY, answer, Some(server), None));
    var e1, e2, e3 := Deliver(0, relayTable, t1, any), Deliver(0, serverTable, t2, Gives(answer)),
      Deliver(0, laterTable, t3, any);
    Alone(p0, p1, e1, 0);
    Alone(p1, p2, e2, 1);
    Alone(p2, r, e3, 2);
    assert Step(Net([r], [], 2), e3) == Net([], [r], 2);
    var es := [e1, e2, e3, e3];
    FourSteps(Net([p0], [], 0), Net([p1], [], 1), Net([p2], [], 2), Net([r], [], 2), Net([], [r], 2), es);
  }

  /** A relay that knows another one for the target forwards to that, naming itself... */
  lemma SecondForwards(m: Forwards, client: Address, first: Address, second: Address, server: Address, tid: nat,
                       target: Target, noise: Bytes, now: nat, any: Outcome)
    requires Sized(noise) && noise != [] && target in m && Live(m[target], now)
    requires !m[target].hasServer && m[target].relay == Some(server)
    ensures Handle(m, RequestPacket(first, second, tid, Some(target),
                                    Some(EncodeHandshake(Handshake(FROM_RELAY, noise, Some(client), None)))),
                   now, any) ==
            [RequestPacket(second, server, tid, Some(target),
                           Some(EncodeHandshake(Handshake(FROM_SECOND_RELAY, noise, Some(client), Some(first)))))]
  {
    hide EncodeHandshake, DecodeHandshake;
    Reads(Handshake(FROM_RELAY, noise, Some(client), None));
  }

  /** ... and the server answers that one, not the relay the client asked. */
  lemma SecondAnswered(m: Forwards, client: Address, first: Address, second: Address, server: Address, tid: nat,
                       target: Target, noise: Bytes, answer: Bytes, now: nat)
    requires Sized(noise) && Sized(answer) && target in m && m[target].hasServer
    ensures Handle(m, RequestPacket(second, server, tid, Some(target),
                                    Some(EncodeHandshake(Handshake(FROM_SECOND_RELAY, noise, Some(client),
                                                                   Some(first))))),
                   now, Gives(answer)) ==
            [RequestPacket(server, second, tid, Some(target),
                           Some(EncodeHandshake(Handshake(FROM_SERVER, answer, Some(client), None))))]
  {
    hide EncodeHandshake, DecodeHandshake;
    Reads(Handshake(FROM_SECOND_RELAY, noise, Some(client), Some(first)));
  }

  /** Through two relays the client also gets one response on its own transaction id with the
      server's noise bytes, but from the second relay, and so accepts it exactly if that is the
      relay it asked. */
  lemma TwoRelayRound(firstTable: Forwards, secondTable: Forwards, serverTable: Forwards, laterTable: Forwards,
                  client: Address, first: Address, second: Address, server: Address, tid: nat, target: Target,
                  noise: Bytes, answer: Bytes, t1: nat, t2: nat, t3: nat, t4: nat, any: Outcome)
    requires Sized(noise) && noise != [] && Sized(answer) && answer != []
    requires target in firstTable && Live(firstTable[target], t1)
    requires !firstTable[target].hasServer && firstTable[target].relay == Some(second)
    requires target in secondTable && Live(secondTable[target], t2)
    requires !secondTable[target].hasServer && secondTable[target].relay == Some(server)
    requires target in serverTable && serverTable[target].hasServer
    requires !HasServer(Lookup(laterTable, Some(target), t4))
    ensures var es := [Deliver(0, firstTable, t1, any), Deliver(0, secondTable, t2, any),
                       Deliver(0, serverTable, t3, Gives(answer)), Deliver(0, laterTable, t4, any),
                       Deliver(0, laterTable, t4, any)];
            var start := Net([ClientRequest(client, first, tid, target, noise)], [], 0);
            ValidRun(start, es) &&
            var n := Run(start, es);
            && n.flight == [] && n.requests == 3 && |n.delivered| == 1
            && var r := n.delivered[0];
               && r.ResponsePacket? && r.from == second && r.to == client && r.tid == tid && r.error == 0
               && r.value.Some?
               && ValidateReply(r.value.value, first, r.from) ==
                  if first == second then Some(HandshakeResult(answer, true, server, second)) else None
  {
    hide EncodeHandshake, DecodeHandshake, Handle;
    var p0 := ClientRequest(client, first, tid, target, noise);
    var p1 := RequestPacket(first, second, tid, Some(target),
                            Some(EncodeHandshake(Handshake(FROM_RELAY, noise, Some(client), None))));
    var p2 := RequestPacket(second, server, tid, Some(target),
                            Some(EncodeHandshake(Handshake(FROM_SECOND_RELAY, noise, Some(client), Some(first)))));
    var p3 := RequestPacket(server, second, tid, Some(target),
                            Some(EncodeHandshake(Handshake(FROM_SERVER, answer, Some(client), None))));
    var reply := EncodeHandshake(Handshake(REPLY, answer, Some(server), None));
    var r := ResponsePacket(second, client, tid, 0, Some(reply));
    RelayForwards(firstTable, client, first, second, tid, target, noise, t1, any);
    SecondForwards(secondTable, client, first, second, server, tid, target, noise, t2, any);
    SecondAnswered(serverTable, client, first, second, server, tid, target, noise, answer, t3);
    RelayFinishes(laterTable, client, second, server, tid, target, answer, t4, any);
    Reads(Handshake(REPLY, answer, Some(server), None));
    assert ValidateReply(reply, first, second) ==
           if first == second then Some(HandshakeResult(answer, true, server, second)) else None;
    var e1, e2, e3, e4 := Deliver(0, firstTable, t1, any), Deliver(0, secondTable, t2, any),
      Deliver(0, serverTable, t3, Gives(answer)), Deliver(0, laterTable, t4, any);
    Chain(p0, p1, p2, p3, r, e1, e2, e3, e4);
  }

  /** Three requests, one after the other, and a response. */
  lemma Chain(p0: Packet, p1: Packet, p2: Packet, p3: Packet, r: Packet, e1: Move, e2: Move, e3: Move, e4: Move)
    requires p0.RequestPacket? && p1.RequestPacket? && p2.RequestPacket? && p3.RequestPacket? && r.ResponsePacket?
    requires e1.Deliver? && e1.index == 0 && Handle(e1.table, p0, e1.now, e1.outcome) == [p1]
    requires e2.Deliver? && e2.index == 0 && Handle(e2.table, p1, e2.now, e2.outcome) == [p2]
    requires e3.Deliver? && e3.index == 0 && Handle(e3.table, p2, e3.now, e3.outcome) == [p3]
    requires e4.Deliver? && e4.index == 0 && Handle(e4.table, p3, e4.now, e4.outcome) == [r]
    ensures var es := [e1, e2, e3, e4, e4];
            ValidRun(Net([p0], [], 0), es) && Run(Net([p0], [], 0), es) == Net([], [r], 3)
  {
    hide Handle;
    Alone(p0, p1, e1, 0);
    Alone(p1, p2, e2, 1);
    Alone(p2, p3, e3, 2);
    Alone(p3, r, e4, 3);
    assert Step(Net([r], [], 3), e4) == Net([], [r], 3);
    var es := [e1, e2, e3, e4, e4];
    assert es[1..] == [e2, e3, e4, e4];
    hide Step;
    FourSteps(Net([p1], [], 1), Net([p2], [], 2), Net([p3], [], 3), Net([r], [], 3), Net([], [r], 3), es[1..]);
  }

  /** A single packet in flight is replaced by the single packet it causes. */
  lemma Alone(p: Packet, q: Packet, e: Move, n: nat)
    requires p.RequestPacket? && e.Deliver? && e.index == 0 && Handle(e.table, p, e.now, e.outcome) == [q]
    ensures Step(Net([p], [], n), e) == Net([q], [], n + if q.RequestPacket? then 1 else 0)
  {
    hide Handle;
    assert [p][..0] + [p][1..] == [];
    assert [] + [q] == [q];
    OneRequest(q);
  }

  lemma OneRequest(q: Packet)
    ensures Requests([q]) == if q.RequestPacket? then 1 else 0
  {
    assert [q][1..] == [];
  }

  lemma FourSteps(n0: Net, n1: Net, n2: Net, n3: Net, n4: Net, es: seq<Move>)
    requires |es| == 4
    requires es[0].index < |n0.flight| && Step(n0, es[0]) == n1
    requires es[1].index < |n1.flight| && Step(n1, es[1]) == n2
    requires es[2].index < |n2.flight| && Step(n2, es[2]) == n3
    requires es[3].index < |n3.flight| && Step(n3, es[3]) == n4
    ensures ValidRun(n0, es) && Run(n0, es) == n4
  {
    hide Step;
    var es1 := es[1..];
    var es2 := es1[1..];
    var es3 := es2[1..];
    assert es1[0] == es[1] && es2[0] == es[2] && es3[0] == es[3];
    assert es3[1..] == [];
    assert ValidRun(n4, es3[1..]) && Run(n4, es3[1..]) == n4;
    assert ValidRun(n3, es3) && Run(n3, es3) == n4;
    assert ValidRun(n2, es2) && Run(n2, es2) == n4;
    assert ValidRun(n1, es1) && Run(n1, es1) == n4;
  }

  /** Asked directly, the server answers the client itself, and its address is the one asked. */
  lemma Direct(m: Forwards, client: Address, server: Address, tid: nat, target: Target, noise: Bytes, answer: Bytes,
               now: nat)
    requires Sized(noise) && Sized(answer) && answer != [] && target in m && m[target].hasServer
    ensures var out := Handle(m, ClientRequest(client, server, tid, target, noise), now, Gives(answer));
            && |out| == 1
            && out[0].ResponsePacket? && out[0].from == server && out[0].to == client && out[0].tid == tid &&
               out[0].value.Some?
            && ValidateReply(out[0].value.value, server, out[0].from) ==
               Some(HandshakeResult(answer, false, server, server))
  {
    hide EncodeHandshake, DecodeHandshake;
    Reads(Handshake(FROM_CLIENT, noise, None, None));
    Reads(Handshake(REPLY, answer, None, None));
  }

  // ---------------------------------------------------------------- holepunch

  lemma PunchReads(m: Holepunch)
    requires m.Ok()
    ensures DecodeHolepunch(EncodeHolepunch(m)) == Got(m, [])
  {
    HolepunchRoundTrip(m, []);
    assert EncodeHolepunch(m) + [] == EncodeHolepunch(m);
  }

  /** A holepunch message passed on by a relay reaches the server's handler with its session id
      and payload unchanged and the client's address as the relay saw it; and the server's
      message passed back is accepted by the client with the server's payload and address. */
  lemma PunchThroughRelay(relayTable: Forwards, serverTable: Forwards, client: Address, relay: Address, server: Address,
                          target: Target, id: u64, id2: u64, payload: Bytes, answer: Bytes, now: nat, clientTo: Address)
    requires Sized(payload) && Sized(answer) && target in serverTable && serverTable[target].hasServer
    ensures var a := RouteHolepunch(relayTable, Some(target), client,
                                    EncodeHolepunch(Holepunch(FROM_CLIENT, id, payload, Some(server))), now);
            && a.ForwardPunch? && a.to == server
            && RouteHolepunch(serverTable, Some(target), relay, a.value, now) ==
               PunchLocally(Holepunch(FROM_RELAY, id, payload, Some(client)), client)
    ensures var b := RouteHolepunch(relayTable, Some(target), server,
                                    EncodeHolepunch(Holepunch(FROM_SERVER, id2, answer, Some(client))), now);
            && b.ReplyPunchTo? && b.to == client
            && ValidatePunchReply(b.value, relay, relay, clientTo) ==
               Some(HolepunchResult(relay, clientTo, answer, server))
  {
    hide EncodeHolepunch, DecodeHolepunch;
    PunchReads(Holepunch(FROM_CLIENT, id, payload, Some(server)));
    PunchReads(Holepunch(FROM_RELAY, id, payload, Some(client)));
    PunchReads(Holepunch(FROM_SERVER, id2, answer, Some(client)));
    PunchReads(Holepunch(REPLY, id2, answer, Some(server)));
  }

  // ---------------------------------------------------------------- the forward table

  /** Collecting garbage is invisible: no lookup, now or later, changes. */
  lemma CollectInvisible(m: Forwards, now: nat, target: Option<Target>, later: nat)
    requires now <= later
    ensures Lookup(Collected(m, now), target, later) == Lookup(m, target, later)
  {
  }

  datatype TableOp =
    | Announce(target: Target, from: Address, now: nat)
    | Register(target: Target, now: nat)
    | Unregister(target: Target)
    | Collect(now: nat)

  ghost function Apply(m: Forwards, op: TableOp): Forwards {
    match op
    case Announce(t, from, now) => Announced(m, t, from, now)
    case Register(t, now) => Registered(m, t, now)
    case Unregister(t) => Unregistered(m, t)
    case Collect(now) => Collected(m, now)
  }

  ghost function ApplyAll(m: Forwards, ops: seq<TableOp>): Forwards
    decreases |ops|
  {
    if ops == [] then m else ApplyAll(Apply(m, ops[0]), ops[1..])
  }

  /** A registered server stays found, at all times, through every announce, collection and
      registration, until it is unregistered. */
  lemma {:induction false} ServerStays(m: Forwards, target: Target, ops: seq<TableOp>, now: nat)
    requires target in m && m[target].hasServer
    requires forall i :: 0 <= i < |ops| && ops[i].Unregister? ==> ops[i].target != target
    ensures HasServer(Lookup(ApplyAll(m, ops), Some(target), now))
    decreases |ops|
  {
    if ops != [] {
      ServerStays(Apply(m, ops[0]), target, ops[1..], now);
    }
  }
}
