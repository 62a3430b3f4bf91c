/** What the NAT classifier has observed, read from its calls, and which addresses it reports. */
module NatOrigins {
  import opened Options
  import opened NatSpec
  import opened NatRuns

  // ---------------------------------------------------------------- observations

  ghost predicate Observer(es: seq<Event>, from: Address) {
    exists k :: 0 <= k < |es| && es[k].DoAdd? && es[k].from == from
  }

  /** The k-th call is the first observation by its observer. */
  ghost predicate Fresh(es: seq<Event>, k: nat) {
    k < |es| && es[k].DoAdd? && !Observer(es[..k], es[k].from)
  }

  /** The first address that each observer saw. */
  ghost function Observed(es: seq<Event>): multiset<Address> {
    if es == [] then multiset{}
    else
      var n := |es| - 1;
      Observed(es[..n]) + (if Fresh(es, n) then multiset{es[n].addr} else multiset{})
  }

  ghost function ObservedHosts(es: seq<Event>): multiset<Address> {
    if es == [] then multiset{}
    else
      var n := |es| - 1;
      ObservedHosts(es[..n]) + (if Fresh(es, n) then multiset{Address(es[n].addr.host, 0)} else multiset{})
  }

  ghost predicate Watched(n: Nat, es: seq<Event>) {
    && (forall from :: from in n.visited <==> Observer(es, from) || DoMark(from) in es)
    && (forall from :: (from in n.visited && n.visited[from] == 2) <==> Observer(es, from))
    && n.tally.seen == Observed(es) && n.tally.hosts == ObservedHosts(es)
  }

  lemma {:induction false} RunSnoc(n: Nat, es: seq<Event>, e: Event)
    ensures Run(n, es + [e]) == Step(Run(n, es), e)
    decreases |es|
  {
    hide Step;
    if es == [] {
      assert es + [e] == [e] && [e][1..] == [];
    } else {
      assert (es + [e])[0] == es[0] && (es + [e])[1..] == es[1..] + [e];
      RunSnoc(Step(n, es[0]), es[1..], e);
    }
  }

  lemma ObserverSnoc(es: seq<Event>, e: Event, from: Address)
    ensures Observer(es + [e], from) <==> Observer(es, from) || (e.DoAdd? && e.from == from)
  {
    var es' := es + [e];
    assert es'[|es|] == e;
    if k :| 0 <= k < |es| && es[k].DoAdd? && es[k].from == from {
      assert es'[k].DoAdd? && es'[k].from == from;
    }
  }

  /** What a step does to the tally and to the visited peers. */
  lemma StepCounts(n: Nat, e: Event)
    ensures var again := e.DoAdd? && e.from in n.visited && n.visited[e.from] == 2;
            var t := Step(n, e);
            && t.tally == (if e.DoAdd? && !again then Count(n.tally, e.addr) else n.tally)
            && (forall p :: p in t.visited <==> p in n.visited || (e.DoAdd? && p == e.from) || e == DoMark(p))
            && (forall p :: (p in t.visited && t.visited[p] == 2) <==>
                  (p in n.visited && n.visited[p] == 2) || (e.DoAdd? && p == e.from))
  {
    hide Count, Judge, Addresses;
  }

  lemma ObservedSnoc(es: seq<Event>, e: Event)
    ensures var counted := e.DoAdd? && !Observer(es, e.from);
            && Observed(es + [e]) == Observed(es) + (if counted then multiset{e.addr} else multiset{})
            && ObservedHosts(es + [e]) ==
               ObservedHosts(es) + (if counted then multiset{Address(e.addr.host, 0)} else multiset{})
  {
    hide Observer;
    var es' := es + [e];
    assert es'[..|es|] == es && es'[|es|] == e;
    assert Fresh(es', |es|) <==> e.DoAdd? && !Observer(es, e.from);
  }

  lemma CountSeen(t: Tally, addr: Address)
    ensures Count(t, addr).seen == t.seen + multiset{addr}
    ensures Count(t, addr).hosts == t.hosts + multiset{Address(addr.host, 0)}
  {
    hide AddSample;
  }

  lemma StepWatched(n: Nat, es: seq<Event>, e: Event)
    requires Watched(n, es)
    ensures Watched(Step(n, e), es + [e])
  {
    hide Step, Observer, Count, Observed, ObservedHosts;
    StepCounts(n, e);
    ObservedSnoc(es, e);
    if e.DoAdd? {
      CountSeen(n.tally, e.addr);
    }
    forall from
      ensures Observer(es + [e], from) <==> Observer(es, from) || (e.DoAdd? && e.from == from)
      ensures DoMark(from) in es + [e] <==> DoMark(from) in es || e == DoMark(from)
    {
      ObserverSnoc(es, e, from);
    }
  }

  /** In every run the classifier has counted exactly the first address that each observer saw, and
      visited exactly the observers and the peers it was told of. */
  lemma {:induction false} ObservedOnce(firewalled: bool, es: seq<Event>)
    ensures Watched(Run(Initial(firewalled), es), es)
    decreases |es|
  {
    if es != [] {
      var m := |es| - 1;
      assert es == es[..m] + [es[m]];
      RunSnoc(Initial(firewalled), es[..m], es[m]);
      ObservedOnce(firewalled, es[..m]);
      hide Run, Watched, Step;
      StepWatched(Run(Initial(firewalled), es[..m]), es[..m], es[m]);
    }
  }

  // ---------------------------------------------------------------- reported addresses

  ghost function AddressesOf(s: seq<Sample>): seq<Address> {
    seq(|s|, i requires 0 <= i < |s| => s[i].address)
  }

  /** From samples with the most frequent first, the likely ones are a prefix. */
  lemma {:induction false} LikelyPrefix(s: seq<Sample>, found: seq<Address>) returns (n: nat)
    requires Sorted(s)
    ensures n <= |s| && Likely(s, found) == found + AddressesOf(s[..n])
    ensures forall i :: 0 <= i < n ==> s[i].hits >= 2 || |found| + i < 2
    ensures n < |s| ==> s[n].hits < 2 && |found| + n >= 2
    decreases |s|
  {
    n := 0;
    if s != [] {
      if s[0].hits >= 2 || |found| < 2 {
        n := LikelyPrefix(s[1..], found + [s[0].address]);
        n := n + 1;
        assert AddressesOf(s[..n]) == [s[0].address] + AddressesOf(s[1..][..n - 1]);
        assert n < |s| ==> s[n] == s[1..][n - 1];
      } else {
        NoneLikely(s, found);
      }
    }
  }

  lemma {:induction false} NoneLikely(s: seq<Sample>, found: seq<Address>)
    requires Sorted(s) && |found| >= 2 && (s != [] ==> s[0].hits < 2)
    ensures Likely(s, found) == found
    decreases |s|
  {
    if |s| > 1 {
      assert s[1..][0] == s[1];
    }
    if s != [] {
      NoneLikely(s[1..], found);
    }
  }

  /** The addresses reported for a consistent NAT: each once, the most frequent first; all those
      seen at least twice; and others, seen once, only to make up two. */
  ghost predicate Report(r: seq<Address>, m: multiset<Address>) {
    && (forall i, j :: 0 <= i < j < |r| ==> r[i] != r[j] && m[r[i]] >= m[r[j]])
    && (forall i :: 0 <= i < |r| ==> r[i] in m && (m[r[i]] >= 2 || i < 2))
    && (forall a :: a in m && m[a] >= 2 ==> a in r)
    && (|r| < 2 ==> forall a :: a in m ==> a in r)
  }

  lemma PrefixReports(s: seq<Sample>, m: multiset<Address>, n: nat, a: Address)
    requires Tallies(s, m) && n <= |s| && (n < |s| ==> s[n].hits < 2 && n >= 2)
    requires a in m && (m[a] >= 2 || n < 2)
    ensures a in AddressesOf(s[..n])
  {
    assert Listed(s, a);
    var i :| 0 <= i < |s| && s[i].address == a;
    assert i < n;
    assert AddressesOf(s[..n])[i] == a;
  }

  /** A prefix of the tallies that ends below two hits and at two or more. */
  lemma CutReports(s: seq<Sample>, m: multiset<Address>, n: nat)
    requires Tallies(s, m) && n <= |s|
    requires forall i :: 0 <= i < n ==> s[i].hits >= 2 || i < 2
    requires n < |s| ==> s[n].hits < 2 && n >= 2
    ensures Report(AddressesOf(s[..n]), m)
  {
    hide Listed;
    var r := AddressesOf(s[..n]);
    forall a | a in m && (m[a] >= 2 || n < 2)
      ensures a in r
    {
      PrefixReports(s, m, n, a);
    }
    assert |r| == n;
    forall i | 0 <= i < n
      ensures r[i] == s[i].address && m[r[i]] == s[i].hits
    {
      assert s[..n][i] == s[i];
    }
    hide AddressesOf;
  }

  lemma LikelyReports(s: seq<Sample>, m: multiset<Address>)
    requires Tallies(s, m)
    ensures Report(Likely(s, []), m)
  {
    var n := LikelyPrefix(s, []);
    hide Likely, Report, AddressesOf;
    assert [] + AddressesOf(s[..n]) == AddressesOf(s[..n]);
    CutReports(s, m, n);
  }

  /** A host seen as often as any. */
  ghost predicate TopHost(h: Address, hosts: multiset<Address>) {
    h in hosts && forall g :: g in hosts ==> hosts[g] <= hosts[h]
  }

  lemma FirstIsTop(s: seq<Sample>, m: multiset<Address>)
    requires Tallies(s, m) && s != []
    ensures TopHost(s[0].address, m)
  {
    forall g | g in m
      ensures m[g] <= m[s[0].address]
    {
      assert Listed(s, g);
      var i :| 0 <= i < |s| && s[i].address == g;
    }
  }

  /** The state of a firewalled node: no verdict yet below three samples, and the addresses are
      those of the verdict unless it is frozen. */
  ghost predicate Reporting(n: Nat) {
    && n.firewalled && n.firewall != Open
    && (n.tally.sampled < 3 ==> n.firewall == Unknown && n.addresses == None)
    && (!n.frozen ==> n.addresses == Addresses(n.tally, n.firewall, None))
  }

  lemma JudgeFacts(t: Tally, before: Firewall)
    requires before != Open
    ensures Judge(t, before) != Open
    ensures t.sampled < 3 ==> Judge(t, before) == before
  {
  }

  lemma HostsThere(t: Tally)
    requires TallyOk(t) && t.sampled >= 3
    ensures t.byHost != []
  {
  }

  lemma RefreshReports(n: Nat)
    requires n.firewalled && n.firewall != Open && TallyOk(n.tally)
    requires n.tally.sampled < 3 ==> n.firewall == Unknown
    ensures Reporting(Refresh(n)) && Refresh(n).tally == n.tally && Refresh(n).frozen == n.frozen
  {
    hide TallyOk, Likely;
    JudgeFacts(n.tally, n.firewall);
    if n.tally.sampled >= 3 {
      HostsThere(n.tally);
    }
    hide Judge;
  }

  lemma StepReports(n: Nat, e: Event)
    requires Reporting(n) && TallyOk(n.tally)
    ensures Reporting(Step(n, e))
  {
    StepOk(n, e);
    hide TallyOk, Likely, Judge;
    match e
    case DoAdd(addr, from) =>
      hide Refresh;
      if !(from in n.visited && n.visited[from] == 2) {
        AddReports(n, addr, from);
      }
    case DoUnfreeze =>
      hide Refresh;
      RefreshReports(n.(frozen := false));
    case DoUpdate =>
      hide Refresh;
      RefreshReports(n);
    case _ =>
  }

  lemma CountFacts(t: Tally, addr: Address)
    ensures Count(t, addr).sampled == t.sampled + 1
  {
    hide AddSample;
  }

  lemma UncountedReports(n: Nat, t: Tally, visited: map<Address, nat>)
    requires Reporting(n) && (t.sampled < 3 || n.frozen) && t.sampled >= n.tally.sampled
    ensures Reporting(n.(tally := t, visited := visited))
  {
    hide Likely;
  }

  lemma SettleReports(n: Nat)
    requires Reporting(n)
    ensures Reporting(Settle(n))
  {
    hide Addresses;
  }

  lemma AddReports(n: Nat, addr: Address, from: Address)
    requires Reporting(n) && TallyOk(n.tally) && !(from in n.visited && n.visited[from] == 2)
    ensures Reporting(Add(n, addr, from))
  {
    CountOk(n.tally, addr);
    CountFacts(n.tally, addr);
    var n1 := n.(visited := n.visited[from := 2], tally := Count(n.tally, addr));
    hide TallyOk, Count, Refresh, Settle, Addresses;
    if n1.tally.sampled >= 3 && !n.frozen {
      RefreshReports(n1);
      SettleReports(Refresh(n1));
    } else {
      UncountedReports(n, n1.tally, n1.visited);
      SettleReports(n1);
    }
  }

  lemma {:induction false} RunReports(n: Nat, es: seq<Event>)
    requires Reporting(n) && TallyOk(n.tally)
    ensures Reporting(Run(n, es))
    decreases |es|
  {
    hide Reporting, TallyOk, Step;
    if es != [] {
      StepReports(n, es[0]);
      StepOk(n, es[0]);
      RunReports(Step(n, es[0]), es[1..]);
    }
  }

  /** In every run of a firewalled node, unless it is frozen: without a verdict nothing is
      reported; a consistent NAT reports the addresses seen at least twice, or enough of the
      others to make up two, the most frequent first; and a random one reports, without a port,
      a host seen as often as any. What was seen is the first address of each observer. */
  lemma AddressesExact(es: seq<Event>)
    ensures var n := Run(Initial(true), es);
            !n.frozen ==>
              match n.firewall
              case Unknown => n.addresses.None?
              case Consistent => n.addresses.Some? && Report(n.addresses.value, Observed(es))
              case Random => n.addresses.Some? && |n.addresses.value| == 1 &&
                             TopHost(n.addresses.value[0], ObservedHosts(es))
              case Open => false
  {
    hide Run, Likely, Observed, ObservedHosts, Report, TopHost;
    InitialOk();
    RunReports(Initial(true), es);
    RunOk(Initial(true), es);
    ObservedOnce(true, es);
    var n := Run(Initial(true), es);
    hide Total, HostsMatch;
    LikelyReports(n.tally.byAddress, n.tally.seen);
    if n.firewall == Random {
      HostsThere(n.tally);
      FirstIsTop(n.tally.byHost, n.tally.hosts);
    }
  }

  // ---------------------------------------------------------------- settling

  /** The k-th call is an observation that counts, and leaves the verdict final or four samples. */
  ghost predicate SettlesAt(es: seq<Event>, k: nat) {
    Fresh(es, k) && (|Observed(es[..k + 1])| >= 4 || Run(Initial(true), es[..k + 1]).firewall == Consistent)
  }

  ghost predicate Settles(es: seq<Event>) {
    exists k: nat :: SettlesAt(es, k)
  }

  lemma SettlesSnoc(es: seq<Event>, e: Event)
    ensures Settles(es + [e]) <==> Settles(es) || SettlesAt(es + [e], |es|)
  {
    hide Run, Observed;
    var es' := es + [e];
    forall k: nat | k < |es|
      ensures SettlesAt(es', k) <==> SettlesAt(es, k)
    {
      assert es'[k] == es[k] && es'[..k] == es[..k] && es'[..k + 1] == es[..k + 1];
    }
    if Settles(es) {
      var k: nat :| SettlesAt(es, k);
      assert SettlesAt(es', k);
    }
    if Settles(es') {
      var k: nat :| SettlesAt(es', k);
      assert k < |es| ==> SettlesAt(es, k);
    }
  }

  /** How a step of a firewalled node settles it. */
  lemma StepSettles(n: Nat, e: Event)
    requires n.firewalled && n.firewall != Open
    ensures var t := Step(n, e);
            var counts := e.DoAdd? && !(e.from in n.visited && n.visited[e.from] == 2);
            t.settled <==> n.settled || (counts && (t.tally.sampled >= 4 || t.firewall == Consistent))
  {
    hide Count, Addresses;
  }

  lemma {:induction false} SampledIs(es: seq<Event>)
    ensures Run(Initial(true), es).tally.sampled == |Observed(es)|
    decreases |es|
  {
    if es != [] {
      var m := |es| - 1;
      assert es == es[..m] + [es[m]];
      RunSnoc(Initial(true), es[..m], es[m]);
      SampledIs(es[..m]);
      ObservedOnce(true, es[..m]);
      hide Run, Step, Observer;
      StepCounts(Run(Initial(true), es[..m]), es[m]);
      ObservedSnoc(es[..m], es[m]);
      hide Observed, ObservedHosts;
      if es[m].DoAdd? {
        CountFacts(Run(Initial(true), es[..m]).tally, es[m].addr);
      }
      hide Count;
    }
  }

  lemma SettledNext(n: Nat, es: seq<Event>, e: Event)
    requires Watched(n, es) && n.firewalled && n.firewall != Open && (n.settled <==> Settles(es))
    requires Run(Initial(true), es + [e]) == Step(n, e) && Step(n, e).tally.sampled == |Observed(es + [e])|
    ensures Step(n, e).settled <==> Settles(es + [e])
  {
    hide Run, Observed, ObservedHosts, Settles, Step, Observer;
    StepSettles(n, e);
    SettlesSnoc(es, e);
    var es' := es + [e];
    assert es'[|es|] == e && es'[..|es|] == es && es'[..|es| + 1] == es';
  }

  /** In every run a firewalled node has settled exactly if, after some observation that counted, it
      had four of them or took its NAT for consistent. */
  lemma {:induction false} SettledExact(es: seq<Event>)
    ensures Run(Initial(true), es).settled <==> Settles(es)
    decreases |es|
  {
    hide Observed, Watched, Reporting, TallyOk, Step;
    if es != [] {
      var m := |es| - 1;
      var n := Run(Initial(true), es[..m]);
      assert es == es[..m] + [es[m]];
      RunSnoc(Initial(true), es[..m], es[m]);
      SettledExact(es[..m]);
      ObservedOnce(true, es[..m]);
      SampledIs(es);
      StaysFirewalled(es[..m]);
      hide Run, Settles;
      SettledNext(n, es[..m], es[m]);
    }
  }

  lemma StaysFirewalled(es: seq<Event>)
    ensures var n := Run(Initial(true), es);
            n.firewalled && n.firewall != Open
  {
    hide Run, TallyOk;
    InitialOk();
    RunReports(Initial(true), es);
  }
}
