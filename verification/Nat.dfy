/** The NAT classifier, updated in place. */
module Nat {
  import opened Options
  import opened NatSpec

  /** Count an address: raise its sample and move it up, or add a new one. */
  method AddTo(samples: seq<Sample>, a: Address) returns (r: seq<Sample>)
    ensures r == AddSample(samples, a)
  {
    r := samples;
    var i := 0;
    while i < |r|
      invariant 0 <= i <= |r| && r == samples
      invariant Find(samples, a, 0) == Find(samples, a, i)
    {
      if r[i].address == a {
        r := r[i := Sample(a, r[i].hits + 1)];
        var j := i;
        ghost var start := r;
        while j > 0 && r[j - 1].hits < r[j].hits
          invariant 0 <= j < |r| && |r| == |samples|
          invariant BubbleUp(r, j) == BubbleUp(start, i)
        {
          r := r[j - 1 := r[j]][j := r[j - 1]];
          j := j - 1;
        }
        return;
      }
      i := i + 1;
    }
    r := r + [Sample(a, 1)];
  }

  class Classifier {
    var byHost: seq<Sample>
    var byAddress: seq<Sample>
    var visited: map<Address, nat>
    var frozen: bool
    const firewalled: bool
    var sampled: nat
    var firewall: Firewall
    var addresses: Option<seq<Address>>
    var settled: bool
    ghost var seen: multiset<Address>
    ghost var hosts: multiset<Address>

    ghost function Counted(): Tally
      reads this
    {
      Tally(byHost, byAddress, sampled, seen, hosts)
    }

    ghost function Model(): NatSpec.Nat
      reads this
    {
      NatSpec.Nat(Counted(), visited, frozen, firewalled, firewall, addresses, settled)
    }

    constructor (firewalled: bool)
      ensures Model() == Initial(firewalled)
    {
      this.firewalled := firewalled;
      byHost, byAddress, visited, frozen, sampled := [], [], map[], false, 0;
      firewall := if firewalled then Unknown else Open;
      addresses, settled, seen, hosts := None, !firewalled, multiset{}, multiset{};
    }

    method CountSample(addr: Address)
      modifies this`byHost, this`byAddress, this`sampled, this`seen, this`hosts
      ensures Counted() == Count(old(Counted()), addr)
    {
      hide AddSample;
      byHost := AddTo(byHost, Address(addr.host, 0));
      byAddress := AddTo(byAddress, addr);
      sampled := sampled + 1;
      seen, hosts := seen + multiset{addr}, hosts + multiset{Address(addr.host, 0)};
    }

    method AddObservation(addr: Address, from: Address)
      modifies this
      ensures Model() == Add(old(Model()), addr, from)
    {
      hide Count, NatSpec.Update;
      if !(from in visited && visited[from] == 2) {
        visited := visited[from := 2];
        CountSample(addr);
        if (sampled >= 3 || !firewalled) && !frozen {
          Update();
        }
        TrySettle();
      }
    }

    method TrySettle()
      modifies this`settled
      ensures Model() == Settle(old(Model()))
    {
      if firewall == Open || firewall == Consistent || sampled >= 4 {
        settled := true;
      }
    }

    method Mark(peer: Address) returns (isNew: bool)
      modifies this`visited
      ensures Model() == MarkVisited(old(Model()), peer)
      ensures isNew <==> peer !in old(visited)
    {
      isNew := peer !in visited;
      if isNew {
        visited := visited[peer := 1];
      }
    }

    method Freeze()
      modifies this`frozen
      ensures Model() == NatSpec.Freeze(old(Model()))
    {
      frozen := true;
    }

    method Unfreeze()
      modifies this`frozen, this`firewall, this`addresses
      ensures Model() == NatSpec.Unfreeze(old(Model()))
    {
      hide Judge, Addresses;
      frozen := false;
      UpdateFirewall();
      UpdateAddresses();
    }

    method Update()
      modifies this`firewall, this`addresses
      ensures Model() == NatSpec.Update(old(Model()))
    {
      hide Judge, Addresses;
      if firewalled && firewall == Open {
        firewall := Unknown;
      }
      UpdateFirewall();
      UpdateAddresses();
    }

    method UpdateFirewall()
      modifies this`firewall
      ensures firewall == if firewalled then Judge(Counted(), old(firewall)) else Open
    {
      if !firewalled {
        firewall := Open;
      } else if sampled >= 3 && byAddress != [] {
        var max := byAddress[0].hits;
        if max >= 3 {
          firewall := Consistent;
        } else if max == 1 {
          firewall := Random;
        } else if |byHost| == 1 && sampled > 3 {
          firewall := Random;
        } else if |byHost| > 1 && |byAddress| > 1 && byAddress[1].hits > 1 {
          firewall := Consistent;
        } else if sampled > 4 {
          firewall := Random;
        }
      }
    }

    method UpdateAddresses()
      modifies this`addresses
      ensures addresses == Addresses(Counted(), firewall, old(addresses))
    {
      match firewall
      case Unknown => addresses := None;
      case Random =>
        if byHost != [] {
          addresses := Some([byHost[0].address]);
        }
      case Consistent =>
        var found: seq<Address> := [];
        assert byAddress[0..] == byAddress;
        for i := 0 to |byAddress|
          invariant Likely(byAddress, []) == Likely(byAddress[i..], found)
          invariant addresses == old(addresses)
        {
          assert byAddress[i..][0] == byAddress[i] && byAddress[i..][1..] == byAddress[i + 1..];
          if byAddress[i].hits >= 2 || |found| < 2 {
            found := found + [byAddress[i].address];
          }
        }
        addresses := Some(found);
      case Open =>
    }
  }
}
