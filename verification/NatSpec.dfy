/** NAT classification: tallies of the addresses that other nodes see us at. */
module NatSpec {
  import opened Options

  datatype Address = Address(host: string, port: nat)

  datatype Firewall = Unknown | Open | Consistent | Random

  datatype Sample = Sample(address: Address, hits: nat)

  /** The tallies by host and by full address; and, as history, the observed addresses with
      and without port. */
  datatype Tally = Tally(byHost: seq<Sample>, byAddress: seq<Sample>, sampled: nat, seen: multiset<Address>,
                         hosts: multiset<Address>)

  datatype Nat = Nat(
    tally: Tally, visited: map<Address, nat>, frozen: bool, firewalled: bool, firewall: Firewall,
    addresses: Option<seq<Address>>, settled: bool)

  const NOTHING_SEEN := Tally([], [], 0, multiset{}, multiset{})

  function Initial(firewalled: bool): Nat {
    Nat(NOTHING_SEEN, map[], false, firewalled, if firewalled then Unknown else Open, None, !firewalled)
  }

  // ---------------------------------------------------------------- samples

  /** Move the sample at `j` up past those with fewer hits. */
  function BubbleUp(s: seq<Sample>, j: nat): seq<Sample>
    requires j < |s|
    decreases j
  {
    if j > 0 && s[j - 1].hits < s[j].hits then BubbleUp(s[j - 1 := s[j]][j := s[j - 1]], j - 1) else s
  }

  function Find(s: seq<Sample>, a: Address, i: nat): (r: nat)
    requires i <= |s|
    ensures i <= r <= |s|
    ensures r < |s| ==> s[r].address == a
    ensures forall k :: i <= k < r ==> s[k].address != a
    decreases |s| - i
  {
    if i == |s| || s[i].address == a then i else Find(s, a, i + 1)
  }

  function AddSample(s: seq<Sample>, a: Address): seq<Sample> {
    var i := Find(s, a, 0);
    if i < |s| then BubbleUp(s[i := Sample(a, s[i].hits + 1)], i) else s + [Sample(a, 1)]
  }

  function Count(t: Tally, addr: Address): Tally {
    var host := Address(addr.host, 0);
    Tally(AddSample(t.byHost, host), AddSample(t.byAddress, addr), t.sampled + 1,
          t.seen + multiset{addr}, t.hosts + multiset{host})
  }

  // ---------------------------------------------------------------- verdict

  /** The verdict on a firewalled node, given the one before. */
  function Judge(t: Tally, before: Firewall): Firewall {
    if t.sampled < 3 || t.byAddress == [] then before
    else
      var max := t.byAddress[0].hits;
      if max >= 3 then Consistent
      else if max == 1 then Random
      else if |t.byHost| == 1 && t.sampled > 3 then Random
      else if |t.byHost| > 1 && |t.byAddress| > 1 && t.byAddress[1].hits > 1 then Consistent
      else if t.sampled > 4 then Random
      else before
  }

  /** Every sample with two hits, and the first two in any case. */
  function Likely(s: seq<Sample>, found: seq<Address>): seq<Address>
    decreases |s|
  {
    if s == [] then found
    else Likely(s[1..], if s[0].hits >= 2 || |found| < 2 then found + [s[0].address] else found)
  }

  function Addresses(t: Tally, verdict: Firewall, before: Option<seq<Address>>): Option<seq<Address>> {
    match verdict
    case Unknown => None
    case Random => if t.byHost != [] then Some([t.byHost[0].address]) else before
    case Consistent => Some(Likely(t.byAddress, []))
    case Open => before
  }

  function Refresh(n: Nat): Nat {
    var verdict := if n.firewalled then Judge(n.tally, n.firewall) else Open;
    n.(firewall := verdict, addresses := Addresses(n.tally, verdict, n.addresses))
  }

  function Update(n: Nat): Nat {
    Refresh(if n.firewalled && n.firewall == Open then n.(firewall := Unknown) else n)
  }

  function Settle(n: Nat): Nat {
    if n.firewall == Open || n.firewall == Consistent || n.tally.sampled >= 4 then n.(settled := true) else n
  }

  /** One observation per observer. */
  function Add(n: Nat, addr: Address, from: Address): Nat {
    if from in n.visited && n.visited[from] == 2 then n
    else
      var n1 := n.(visited := n.visited[from := 2], tally := Count(n.tally, addr));
      Settle(if (n1.tally.sampled >= 3 || !n.firewalled) && !n.frozen then Update(n1) else n1)
  }

  function MarkVisited(n: Nat, peer: Address): Nat {
    if peer in n.visited then n else n.(visited := n.visited[peer := 1])
  }

  function Freeze(n: Nat): Nat {
    n.(frozen := true)
  }

  function Unfreeze(n: Nat): Nat {
    Refresh(n.(frozen := false))
  }

  datatype Event = DoAdd(addr: Address, from: Address) | DoMark(peer: Address) | DoFreeze | DoUnfreeze | DoUpdate

  function Step(n: Nat, e: Event): Nat {
    match e
    case DoAdd(addr, from) => Add(n, addr, from)
    case DoMark(peer) => MarkVisited(n, peer)
    case DoFreeze => Freeze(n)
    case DoUnfreeze => Unfreeze(n)
    case DoUpdate => Update(n)
  }
}
