/** The forward table of one node, changed in place, and the requests that change it. */
module Router {
  import opened Options
  import opened Codec
  import opened Messages
  import opened HyperMessages
  import opened RouterSpec

  class ForwardTable {
    var forwards: Forwards

    constructor ()
      ensures forwards == map[]
    {
      forwards := map[];
    }

    method Set(target: Target, entry: Forward)
      modifies this
      ensures forwards == old(forwards)[target := entry]
    {
      forwards := forwards[target := entry];
    }

    /** Server entries never expire; the others do, but stay in the table until collected. */
    method Get(target: Target, now: nat) returns (r: Option<Forward>)
      ensures r == Lookup(forwards, Some(target), now)
    {
      r := None;
      if target in forwards {
        var entry := forwards[target];
        if entry.hasServer || now <= entry.inserted + TTL {
          r := Some(entry);
        }
      }
    }

    method Delete(target: Target)
      modifies this
      ensures forwards == Unregistered(old(forwards), target)
    {
      forwards := forwards - {target};
    }

    /** Visit every entry and keep the live ones. */
    method Gc(now: nat)
      modifies this
      ensures forwards == Collected(old(forwards), now)
    {
      ghost var before := forwards;
      var rest := forwards.Keys;
      while rest != {}
        invariant rest <= before.Keys
        invariant forwards == map t | t in before && (t in rest || Live(before[t], now)) :: before[t]
      {
        var t :| t in rest;
        rest := rest - {t};
        if !(forwards[t].hasServer || now <= forwards[t].inserted + TTL) {
          forwards := forwards - {t};
        }
      }
    }

    /** An announce that was stored. */
    method OnAnnounce(target: Target, from: Address, now: nat)
      modifies this
      ensures forwards == Announced(old(forwards), target, from, now)
    {
      var found := Get(target, now);
      var alreadyServer := found.Some? && found.value.hasServer;
      if !alreadyServer {
        Set(target, Forward(Some(from), false, now));
      }
    }

    method RegisterServer(target: Target, now: nat)
      modifies this
      ensures forwards == Registered(old(forwards), target, now)
    {
      Set(target, Forward(None, true, now));
    }

    method UnregisterServer(target: Target)
      modifies this
      ensures forwards == Unregistered(old(forwards), target)
    {
      Delete(target);
    }
  }

  /** The one-shot reply slot of a request: it is answered or released, once. */
  datatype Slot = Waiting | Answered(error: nat, value: Option<Bytes>) | Released

  /** A request being handled, and what the node has sent on its behalf. */
  class PeerRequest {
    const packet: Packet
    var slot: Slot
    var sent: seq<Packet>

    ghost predicate Valid()
      reads this
    {
      packet.RequestPacket?
    }

    constructor (packet: Packet)
      requires packet.RequestPacket?
      ensures Valid() && this.packet == packet && slot == Waiting && sent == []
    {
      this.packet := packet;
      slot, sent := Waiting, [];
    }

    method Reply(value: Option<Bytes>)
      modifies this`slot
      ensures slot == if old(slot).Waiting? then Answered(0, value) else old(slot)
    {
      if slot.Waiting? {
        slot := Answered(0, value);
      }
    }

    method Error(code: nat)
      modifies this`slot
      ensures slot == if old(slot).Waiting? then Answered(code, None) else old(slot)
    {
      if slot.Waiting? {
        slot := Answered(code, None);
      }
    }

    method Release()
      modifies this`slot
      ensures slot == if old(slot).Waiting? then Released else old(slot)
    {
      if slot.Waiting? {
        slot := Released;
      }
    }

    /** Send a request on with the transaction id of this one. */
    method RelayWithTid(value: Bytes, to: Address)
      requires Valid()
      modifies this`sent
      ensures sent == old(sent) + [RequestPacket(packet.to, to, packet.tid, packet.target, Some(value))]
    {
      sent := sent + [RequestPacket(packet.to, to, packet.tid, packet.target, Some(value))];
    }

    method SendReplyTo(value: Bytes, to: Address)
      requires Valid()
      modifies this`sent
      ensures sent == old(sent) + [ResponsePacket(packet.to, to, packet.tid, 0, Some(value))]
    {
      sent := sent + [ResponsePacket(packet.to, to, packet.tid, 0, Some(value))];
    }

    /** The slot's answer goes out when the request is dropped; one never filled in is an error. */
    method Close()
      requires Valid()
      modifies this`sent
      ensures sent == old(sent) + match slot
                                  case Answered(error, value) =>
                                    [ResponsePacket(packet.to, packet.from, packet.tid, error, value)]
                                  case Waiting =>
                                    [ResponsePacket(packet.to, packet.from, packet.tid, ERR_UNKNOWN, None)]
                                  case Released => []
    {
      match slot
      case Answered(error, value) => sent := sent + [ResponsePacket(packet.to, packet.from, packet.tid, error, value)];
      case Waiting => sent := sent + [ResponsePacket(packet.to, packet.from, packet.tid, ERR_UNKNOWN, None)];
      case Released => assert sent + [] == sent;
    }

    /** Handle a handshake request to the end, given what becomes of it at the server. */
    method HandleHandshake(table: ForwardTable, now: nat, outcome: Outcome)
      requires Valid() && slot == Waiting && sent == []
      modifies this
      ensures sent == Handle(table.forwards, packet, now, outcome)
    {
      hide RouteHandshake, EncodeHandshake;
      if packet.value.None? {
        Error(ERR_UNKNOWN);
      } else {
        match RouteHandshake(table.forwards, packet.target, packet.from, packet.value.value, now) {
          case ForwardRequest(value, to) =>
            RelayWithTid(value, to);
            Release();
          case ReplyTo(value, to) =>
            SendReplyTo(value, to);
            Release();
          case HandleLocally(msg) => AnswerLocally(msg, outcome);
          case CloserNodes => Reply(None);
          case Ignore =>
        }
      }
      Close();
    }

    method AnswerLocally(msg: Handshake, outcome: Outcome)
      requires Valid() && slot == Waiting && sent == []
      modifies this
      ensures !slot.Waiting?
      ensures sent + (match slot
                      case Answered(error, value) => [ResponsePacket(packet.to, packet.from, packet.tid, error, value)]
                      case _ => []) == ServerAnswer(packet, msg, outcome)
    {
      hide EncodeHandshake;
      if outcome.Drops? {
        Error(ERR_UNKNOWN);
      } else if outcome.Gives? && ServerReply(msg, outcome.noise).Ok() {
        var value := EncodeHandshake(ServerReply(msg, outcome.noise));
        if msg.mode == FROM_RELAY || msg.mode == FROM_SECOND_RELAY {
          RelayWithTid(value, packet.from);
          Release();
        } else {
          Reply(Some(value));
        }
      } else {
        Reply(None);
      }
    }
  }
}
