/** What the NAT classifier keeps in every run, and when its verdict depends on order. */
module NatRuns {
  import opened NatSpec

  // ---------------------------------------------------------------- tallies

  ghost predicate Distinct(s: seq<Sample>) {
    forall i, j :: 0 <= i < j < |s| ==> s[i].address != s[j].address
  }

  ghost predicate Sorted(s: seq<Sample>) {
    forall i, j :: 0 <= i < j < |s| ==> s[i].hits >= s[j].hits
  }

  ghost predicate Listed(s: seq<Sample>, a: Address) {
    exists i :: 0 <= i < |s| && s[i].address == a
  }

  /** The samples are the counts of `m`, the most frequent first. */
  ghost predicate Tallies(s: seq<Sample>, m: multiset<Address>) {
    && Distinct(s) && Sorted(s)
    && (forall i :: 0 <= i < |s| ==> s[i].hits == m[s[i].address] >= 1)
    && (forall a :: a in m ==> Listed(s, a))
  }

  ghost function Total(s: seq<Sample>): nat {
    if s == [] then 0 else Total(s[..|s| - 1]) + s[|s| - 1].hits
  }

  lemma {:induction false} TotalUpdate(s: seq<Sample>, i: nat, x: Sample)
    requires i < |s|
    ensures Total(s[i := x]) == Total(s) - s[i].hits + x.hits
  {
    var t := s[i := x];
    if i == |s| - 1 {
      assert t[..|s| - 1] == s[..|s| - 1];
    } else {
      TotalUpdate(s[..|s| - 1], i, x);
      assert t[..|s| - 1] == s[..|s| - 1][i := x];
    }
  }

  /** Sorted except that the sample at `j` may belong further up. */
  ghost predicate SortedBut(s: seq<Sample>, j: nat) {
    && (forall i, k :: 0 <= i < k < |s| && i != j && k != j ==> s[i].hits >= s[k].hits)
    && (forall k :: j < k < |s| ==> s[j].hits >= s[k].hits)
  }

  lemma {:induction false} BubbleSorts(s: seq<Sample>, j: nat)
    requires j < |s| && SortedBut(s, j)
    ensures Sorted(BubbleUp(s, j))
    decreases j
  {
    if j > 0 && s[j - 1].hits < s[j].hits {
      var t := s[j - 1 := s[j]][j := s[j - 1]];
      assert SortedBut(t, j - 1);
      BubbleSorts(t, j - 1);
    }
  }

  lemma {:induction false} BubbleKeeps(s: seq<Sample>, j: nat)
    requires j < |s|
    ensures multiset(BubbleUp(s, j)) == multiset(s) && |BubbleUp(s, j)| == |s|
    ensures Distinct(s) ==> Distinct(BubbleUp(s, j))
    ensures Total(BubbleUp(s, j)) == Total(s)
    decreases j
  {
    if j > 0 && s[j - 1].hits < s[j].hits {
      var t := s[j - 1 := s[j]][j := s[j - 1]];
      BubbleKeeps(t, j - 1);
      SwapKeeps(s, j);
    }
  }

  lemma SwapKeeps(s: seq<Sample>, j: nat)
    requires 0 < j < |s|
    ensures var t := s[j - 1 := s[j]][j := s[j - 1]];
            multiset(t) == multiset(s) && (Distinct(s) ==> Distinct(t)) && Total(t) == Total(s)
  {
    var t := s[j - 1 := s[j]][j := s[j - 1]];
    TotalUpdate(s, j - 1, s[j]);
    TotalUpdate(s[j - 1 := s[j]], j, s[j - 1]);
    hide Total;
    SwapMembers(s, j);
  }

  lemma SwapMembers<T>(s: seq<T>, j: nat)
    requires 0 < j < |s|
    ensures multiset(s[j - 1 := s[j]][j := s[j - 1]]) == multiset(s)
  {
    assert s == s[..j - 1] + [s[j - 1], s[j]] + s[j + 1..];
    assert s[j - 1 := s[j]][j := s[j - 1]] == s[..j - 1] + [s[j], s[j - 1]] + s[j + 1..];
  }

  /** The facts of a tally that do not depend on the order of the samples. */
  lemma SameMembers(s: seq<Sample>, t: seq<Sample>, m: multiset<Address>)
    requires multiset(s) == multiset(t) && Distinct(t) && Sorted(t)
    requires forall i :: 0 <= i < |s| ==> s[i].hits == m[s[i].address] >= 1
    requires forall a :: a in m ==> Listed(s, a)
    ensures Tallies(t, m)
  {
    forall i | 0 <= i < |t|
      ensures t[i].hits == m[t[i].address] >= 1
    {
      assert t[i] in multiset(s);
    }
    forall a | a in m
      ensures Listed(t, a)
    {
      var i :| 0 <= i < |s| && s[i].address == a;
      assert s[i] in multiset(t);
    }
  }

  lemma AddKeepsTally(s: seq<Sample>, m: multiset<Address>, a: Address)
    requires Tallies(s, m)
    ensures Tallies(AddSample(s, a), m + multiset{a}) && Total(AddSample(s, a)) == Total(s) + 1
  {
    hide BubbleUp, Sorted, SortedBut, Total, Tallies, Distinct, Find;
    var i := Find(s, a, 0);
    if i < |s| {
      MovedUp(s, m, a, i);
    } else {
      FirstHit(s, m, a);
    }
  }

  lemma MovedUp(s: seq<Sample>, m: multiset<Address>, a: Address, i: nat)
    requires Tallies(s, m) && i < |s| && s[i].address == a
    ensures var t := BubbleUp(s[i := Sample(a, s[i].hits + 1)], i);
            Tallies(t, m + multiset{a}) && Total(t) == Total(s) + 1
  {
    hide BubbleUp, Sorted, SortedBut, Total, Tallies, Distinct;
    var t := s[i := Sample(a, s[i].hits + 1)];
    HitAgain(s, m, a, i);
    TotalUpdate(s, i, Sample(a, s[i].hits + 1));
    BubbleSorts(t, i);
    BubbleKeeps(t, i);
    SameMembers(t, BubbleUp(t, i), m + multiset{a});
  }

  lemma HitAgain(s: seq<Sample>, m: multiset<Address>, a: Address, i: nat)
    requires Tallies(s, m) && i < |s| && s[i].address == a
    ensures var t := s[i := Sample(a, s[i].hits + 1)];
            && SortedBut(t, i) && Distinct(t)
            && (forall k :: 0 <= k < |t| ==> t[k].hits == (m + multiset{a})[t[k].address] >= 1)
            && (forall b :: b in m + multiset{a} ==> Listed(t, b))
  {
    var t := s[i := Sample(a, s[i].hits + 1)];
    forall b | b in m + multiset{a}
      ensures Listed(t, b)
    {
      assert a == b || b in m;
      assert t[i].address == a;
      if b != a {
        var k :| 0 <= k < |s| && s[k].address == b;
        assert t[k].address == b;
      }
    }
  }

  lemma FirstHit(s: seq<Sample>, m: multiset<Address>, a: Address)
    requires Tallies(s, m) && forall k :: 0 <= k < |s| ==> s[k].address != a
    ensures Tallies(s + [Sample(a, 1)], m + multiset{a}) && Total(s + [Sample(a, 1)]) == Total(s) + 1
  {
    var t := s + [Sample(a, 1)];
    assert t[..|s|] == s;
    assert a !in m by {
      assert a in m ==> Listed(s, a);
    }
    hide Listed, Total;
    assert forall i :: 0 <= i < |s| ==> t[i] == s[i];
    NewListed(s, m, a);
  }

  lemma NewListed(s: seq<Sample>, m: multiset<Address>, a: Address)
    requires forall b :: b in m ==> Listed(s, b)
    ensures forall b :: b in m + multiset{a} ==> Listed(s + [Sample(a, 1)], b)
  {
    var t := s + [Sample(a, 1)];
    forall b | b in m + multiset{a}
      ensures Listed(t, b)
    {
      assert t[|s|].address == a;
      if b != a {
        assert b in m;
        var k :| 0 <= k < |s| && s[k].address == b;
        assert t[k].address == b;
      }
    }
  }

  // ---------------------------------------------------------------- every run

  /** The host tally has exactly the hosts of the observed addresses. */
  ghost predicate HostsMatch(seen: multiset<Address>, hosts: multiset<Address>) {
    && (forall a :: a in seen ==> Address(a.host, 0) in hosts)
    && (forall h :: h in hosts ==> h.port == 0 && FromHost(seen, h.host))
  }

  ghost predicate FromHost(seen: multiset<Address>, host: string) {
    exists a :: a in seen && a.host == host
  }

  ghost predicate TallyOk(t: Tally) {
    && Tallies(t.byAddress, t.seen)
    && Tallies(t.byHost, t.hosts)
    && Total(t.byAddress) == t.sampled == Total(t.byHost)
    && HostsMatch(t.seen, t.hosts)
  }

  lemma AddHosts(seen: multiset<Address>, hosts: multiset<Address>, a: Address)
    requires HostsMatch(seen, hosts)
    ensures HostsMatch(seen + multiset{a}, hosts + multiset{Address(a.host, 0)})
  {
    var seen' := seen + multiset{a};
    forall h | h in hosts + multiset{Address(a.host, 0)}
      ensures h.port == 0 && FromHost(seen', h.host)
    {
      if h in hosts {
        var b :| b in seen && b.host == h.host;
        assert b in seen';
      } else {
        assert h == Address(a.host, 0);
        assert a in seen';
      }
    }
  }

  lemma CountOk(t: Tally, addr: Address)
    requires TallyOk(t)
    ensures TallyOk(Count(t, addr))
  {
    hide Tallies, HostsMatch, Total, AddSample;
    AddKeepsTally(t.byAddress, t.seen, addr);
    AddKeepsTally(t.byHost, t.hosts, Address(addr.host, 0));
    AddHosts(t.seen, t.hosts, addr);
  }

  lemma StepOk(n: Nat, e: Event)
    requires TallyOk(n.tally)
    ensures TallyOk(Step(n, e).tally)
  {
    hide TallyOk, Count, Judge, Addresses;
    if e.DoAdd? {
      CountOk(n.tally, e.addr);
    }
  }

  ghost function Run(n: Nat, es: seq<Event>): Nat
    decreases |es|
  {
    if es == [] then n else Run(Step(n, es[0]), es[1..])
  }

  lemma {:induction false} RunOk(n: Nat, es: seq<Event>)
    requires TallyOk(n.tally)
    ensures TallyOk(Run(n, es).tally)
    decreases |es|
  {
    hide TallyOk, Step;
    if es != [] {
      StepOk(n, es[0]);
      RunOk(Step(n, es[0]), es[1..]);
    }
  }

  lemma InitialOk()
    ensures TallyOk(NOTHING_SEEN)
  {
  }

  /** In every run the samples are distinct, the most frequent first, count exactly what was
      observed, and add up to the number of samples. */
  lemma SamplesCount(firewalled: bool, es: seq<Event>)
    ensures var t := Run(Initial(firewalled), es).tally;
            && Tallies(t.byAddress, t.seen) && Tallies(t.byHost, t.hosts)
            && Total(t.byAddress) == t.sampled == Total(t.byHost)
  {
    hide Run;
    InitialOk();
    RunOk(Initial(firewalled), es);
  }

  // ---------------------------------------------------------------- the verdict

  ghost predicate Often(m: multiset<Address>, k: nat) {
    exists a :: a in m && m[a] >= k
  }

  ghost predicate OneHost(m: multiset<Address>) {
    forall a, b :: a in m && b in m ==> a.host == b.host
  }

  ghost predicate TwoTwice(m: multiset<Address>) {
    exists a, b :: a in m && b in m && a != b && m[a] >= 2 && m[b] >= 2
  }

  /** Four samples among which the order decides: some address twice, but none three times nor
      two of them twice, and not all from one host. */
  ghost predicate OrderDecides(m: multiset<Address>) {
    |m| == 4 && Often(m, 2) && !Often(m, 3) && !OneHost(m) && !TwoTwice(m)
  }

  /** The verdict as a property of the observed addresses alone. */
  ghost function Verdict(m: multiset<Address>): Firewall {
    if |m| < 3 then Unknown
    else if Often(m, 3) then Consistent
    else if !Often(m, 2) then Random
    else if |m| == 3 then Unknown
    else if !OneHost(m) && TwoTwice(m) then Consistent
    else Random
  }

  lemma MaxHits(s: seq<Sample>, m: multiset<Address>, k: nat)
    requires Tallies(s, m) && k >= 1
    ensures Often(m, k) <==> s != [] && s[0].hits >= k
  {
    if s != [] && s[0].hits >= k {
      assert s[0].address in m && m[s[0].address] >= k;
    }
    if Often(m, k) {
      var a :| a in m && m[a] >= k;
      var i :| 0 <= i < |s| && s[i].address == a;
      assert s[i].hits >= k;
    }
  }

  lemma SecondHits(s: seq<Sample>, m: multiset<Address>)
    requires Tallies(s, m)
    ensures TwoTwice(m) <==> |s| > 1 && s[1].hits > 1
  {
    if |s| > 1 && s[1].hits > 1 {
      var a, b := s[0].address, s[1].address;
      assert a != b && m[a] >= 2 && m[b] >= 2;
      assert a in m && b in m;
    }
    if TwoTwice(m) {
      var a, b :| a in m && b in m && a != b && m[a] >= 2 && m[b] >= 2;
      assert Listed(s, a) && Listed(s, b);
      var i :| 0 <= i < |s| && s[i].address == a;
      var j :| 0 <= j < |s| && s[j].address == b;
      assert s[i].hits >= 2 && s[j].hits >= 2;
    }
  }

  lemma HostCount(s: seq<Sample>, seen: multiset<Address>, hosts: multiset<Address>)
    requires Tallies(s, hosts) && HostsMatch(seen, hosts)
    ensures OneHost(seen) <==> |s| <= 1
  {
    if |s| <= 1 {
      forall a, b | a in seen && b in seen
        ensures a.host == b.host
      {
        var h, g := Address(a.host, 0), Address(b.host, 0);
        assert h in hosts && g in hosts;
        assert Listed(s, h) && Listed(s, g);
      }
    } else {
      var h, g := s[0].address, s[1].address;
      assert h != g && h in hosts && g in hosts;
      assert FromHost(seen, h.host) && FromHost(seen, g.host);
      var a :| a in seen && a.host == h.host;
      var b :| b in seen && b.host == g.host;
      assert a.host != b.host;
    }
  }

  lemma TwoTwiceSize(m: multiset<Address>)
    requires TwoTwice(m)
    ensures |m| >= 4
  {
    var a, b :| a in m && b in m && a != b && m[a] >= 2 && m[b] >= 2;
    assert m == multiset{a, a, b, b} + (m - multiset{a, a, b, b});
  }

  /** When the observed addresses leave the verdict as it was. */
  ghost predicate LeavesOpen(m: multiset<Address>) {
    OrderDecides(m) || (|m| == 3 && Often(m, 2) && !Often(m, 3))
  }

  /** What the decision list reads off the samples, in terms of the observed addresses. */
  lemma JudgeReads(t: Tally)
    requires TallyOk(t) && t.sampled >= 3
    ensures t.byAddress != [] && t.byHost != [] && t.byAddress[0].hits >= 1
    ensures t.byAddress[0].hits >= 3 <==> Often(t.seen, 3)
    ensures t.byAddress[0].hits >= 2 <==> Often(t.seen, 2)
    ensures |t.byAddress| > 1 && t.byAddress[1].hits > 1 <==> TwoTwice(t.seen)
    ensures |t.byHost| == 1 <==> OneHost(t.seen)
  {
    assert t.byAddress != [] && t.byHost != [];
    assert t.byAddress[0].hits >= 1;
    hide Often, OneHost, TwoTwice, HostsMatch, Tallies;
    MaxHits(t.byAddress, t.seen, 3);
    MaxHits(t.byAddress, t.seen, 2);
    SecondHits(t.byAddress, t.seen);
    HostCount(t.byHost, t.seen, t.hosts);
  }

  /** From three samples on the verdict is that of the observed addresses, whatever it was
      before, or exactly the one before. */
  lemma JudgeExact(t: Tally, before: Firewall)
    requires TallyOk(t) && |t.seen| == t.sampled >= 3
    ensures Judge(t, before) == if LeavesOpen(t.seen) then before else Verdict(t.seen)
  {
    hide TallyOk, Often, OneHost, TwoTwice;
    JudgeReads(t);
    if TwoTwice(t.seen) {
      TwoTwiceSize(t.seen);
    }
  }

  ghost predicate NeverFrozen(es: seq<Event>) {
    forall i :: 0 <= i < |es| ==> !es[i].DoFreeze?
  }

  /** The verdict is that of the observed addresses, or one of two where the order decides. */
  ghost predicate UpToDate(t: Tally, verdict: Firewall) {
    if OrderDecides(t.seen) then verdict == Unknown || verdict == Random else verdict == Verdict(t.seen)
  }

  /** The verdict is up to date after every step that is not frozen. */
  ghost predicate Current(n: Nat) {
    && TallyOk(n.tally) && !n.frozen && n.firewalled && |n.tally.seen| == n.tally.sampled
    && UpToDate(n.tally, n.firewall)
  }

  lemma CurrentStart()
    ensures Current(Initial(true))
  {
    InitialOk();
  }

  lemma CountsOne(t: Tally, addr: Address)
    ensures Count(t, addr).sampled == t.sampled + 1 && Count(t, addr).seen == t.seen + multiset{addr}
  {
  }

  lemma OftenGrows(t: Tally, addr: Address)
    requires Often(t.seen, 3)
    ensures Often(Count(t, addr).seen, 3)
  {
    var a :| a in t.seen && t.seen[a] >= 3;
    var seen := Count(t, addr).seen;
    assert a in seen && seen[a] >= 3;
  }

  /** One more observation brings the verdict up to date. */
  lemma AddCurrent(n: Nat, addr: Address)
    requires Current(n)
    ensures var t := Count(n.tally, addr);
            && TallyOk(t) && |t.seen| == t.sampled && n.firewall != Open
            && UpToDate(t, if t.sampled >= 3 then Judge(t, n.firewall) else n.firewall)
  {
    hide TallyOk, Often, OneHost, TwoTwice, Judge, Count;
    var t := Count(n.tally, addr);
    CountOk(n.tally, addr);
    CountsOne(n.tally, addr);
    if Often(n.tally.seen, 3) {
      OftenGrows(n.tally, addr);
    }
    if t.sampled >= 3 {
      JudgeExact(t, n.firewall);
    }
  }

  /** A new verdict without a new observation changes nothing. */
  lemma RefreshCurrent(n: Nat)
    requires Current(n)
    ensures Judge(n.tally, n.firewall) == n.firewall != Open
  {
    if n.tally.sampled >= 3 {
      hide TallyOk, Often, OneHost, TwoTwice, Judge;
      JudgeExact(n.tally, n.firewall);
    } else {
      hide TallyOk, Often, OneHost, TwoTwice;
    }
  }

  lemma StepCurrent(n: Nat, e: Event)
    requires Current(n) && !e.DoFreeze?
    ensures Current(Step(n, e))
  {
    hide UpToDate, TallyOk, Addresses, Count, Judge;
    RefreshCurrent(n);
    if e.DoAdd? {
      AddCurrent(n, e.addr);
    }
  }

  lemma {:induction false} RunCurrent(n: Nat, es: seq<Event>)
    requires Current(n) && NeverFrozen(es)
    ensures Current(Run(n, es))
    decreases |es|
  {
    hide Step, Current;
    if es != [] {
      StepCurrent(n, es[0]);
      RunCurrent(Step(n, es[0]), es[1..]);
    }
  }

  /** The verdict of a firewalled, never frozen classifier does not depend on the order, at any
      number of samples, unless the observed addresses are four among which the order decides. */
  lemma OrderFree(es: seq<Event>, fs: seq<Event>)
    requires NeverFrozen(es) && NeverFrozen(fs)
    ensures var n, m := Run(Initial(true), es), Run(Initial(true), fs);
            n.tally.seen == m.tally.seen && !OrderDecides(n.tally.seen) ==>
              n.firewall == m.firewall == Verdict(n.tally.seen)
  {
    hide Run, Verdict, OrderDecides, TallyOk;
    CurrentStart();
    RunCurrent(Initial(true), es);
    RunCurrent(Initial(true), fs);
  }

  // ---------------------------------------------------------------- where the order decides

  /** The observation of `addr` by the observer numbered `k`. */
  ghost function Observe(addr: Address, k: nat): Event {
    DoAdd(addr, Address("", k))
  }

  /** Four observations in this order. */
  ghost function InOrder(a: Address, b: Address, c: Address, d: Address): seq<Event> {
    [Observe(a, 1), Observe(b, 2), Observe(c, 3), Observe(d, 4)]
  }

  lemma FourRun(n: Nat, e1: Event, e2: Event, e3: Event, e4: Event)
    ensures Run(n, [e1, e2, e3, e4]) == Step(Step(Step(Step(n, e1), e2), e3), e4)
  {
    hide Step;
    RunCons(n, e1, [e2, e3, e4]);
    RunCons(Step(n, e1), e2, [e3, e4]);
    RunCons(Step(Step(n, e1), e2), e3, [e4]);
    RunCons(Step(Step(Step(n, e1), e2), e3), e4, []);
    assert [e1, e2, e3, e4] == [e1] + [e2, e3, e4] && [e2, e3, e4] == [e2] + [e3, e4];
    assert [e3, e4] == [e3] + [e4] && [e4] == [e4] + [];
  }

  lemma RunCons(n: Nat, e: Event, es: seq<Event>)
    ensures Run(n, [e] + es) == Run(Step(n, e), es)
  {
    assert ([e] + es)[1..] == es;
  }

  /** A run in which the observers 1 to k have reported the addresses `m`. */
  ghost predicate At(n: Nat, m: multiset<Address>, k: nat) {
    Current(n) && n.tally.seen == m && forall j :: j > k ==> Address("", j) !in n.visited
  }

  lemma NextObservation(n: Nat, m: multiset<Address>, addr: Address, k: nat)
    requires At(n, m, k)
    ensures var n' := Step(n, Observe(addr, k + 1));
            At(n', m + multiset{addr}, k + 1) && (LeavesOpen(m + multiset{addr}) ==> n'.firewall == n.firewall)
  {
    hide UpToDate, Count, Judge, Addresses, LeavesOpen, TallyOk;
    StepCurrent(n, Observe(addr, k + 1));
    AddCurrent(n, addr);
    CountsOne(n.tally, addr);
    if LeavesOpen(m + multiset{addr}) {
      OpenSize(m + multiset{addr});
      JudgeExact(Count(n.tally, addr), n.firewall);
    }
  }

  lemma OpenSize(m: multiset<Address>)
    requires LeavesOpen(m)
    ensures |m| >= 3
  {
  }

  ghost function Three(a: Address, b: Address, c: Address): multiset<Address> {
    multiset{} + multiset{a} + multiset{b} + multiset{c}
  }

  lemma ThreeSteps(n0: Nat, a: Address, b: Address, c: Address)
    requires At(n0, multiset{}, 0)
    ensures At(Step(Step(Step(n0, Observe(a, 1)), Observe(b, 2)), Observe(c, 3)), Three(a, b, c), 3)
  {
    hide Step, Observe, LeavesOpen, At;
    var n1 := Step(n0, Observe(a, 1));
    var n2 := Step(n1, Observe(b, 2));
    NextObservation(n0, multiset{}, a, 0);
    NextObservation(n1, multiset{} + multiset{a}, b, 1);
    NextObservation(n2, multiset{} + multiset{a} + multiset{b}, c, 2);
  }

  lemma FourSteps(n0: Nat, a: Address, b: Address, c: Address, d: Address)
    requires At(n0, multiset{}, 0) && LeavesOpen(Three(a, b, c) + multiset{d})
    ensures var n := Run(n0, InOrder(a, b, c, d));
            n.tally.seen == Three(a, b, c) + multiset{d} && n.firewall == Verdict(Three(a, b, c))
  {
    hide Step, Run, Current, Verdict, Observe, LeavesOpen, Three;
    FourRun(n0, Observe(a, 1), Observe(b, 2), Observe(c, 3), Observe(d, 4));
    ThreeSteps(n0, a, b, c);
    var n3 := Step(Step(Step(n0, Observe(a, 1)), Observe(b, 2)), Observe(c, 3));
    CurrentVerdict(n3, a, b, c);
    NextObservation(n3, Three(a, b, c), d, 3);
  }

  lemma Beginning()
    ensures At(Initial(true), multiset{}, 0)
  {
    CurrentStart();
  }

  /** Four observations among which the order decides keep the verdict of the first three. */
  lemma FourObservations(a: Address, b: Address, c: Address, d: Address)
    requires OrderDecides(multiset{a, b, c, d})
    ensures var n := Run(Initial(true), InOrder(a, b, c, d));
            n.tally.seen == multiset{a, b, c, d} && n.firewall == Verdict(multiset{a, b, c})
  {
    hide Run, Verdict, OrderDecides, InOrder, Initial, At;
    assert Three(a, b, c) == multiset{a, b, c};
    assert Three(a, b, c) + multiset{d} == multiset{a, b, c, d};
    Beginning();
    FourSteps(Initial(true), a, b, c, d);
  }

  lemma CurrentVerdict(n: Nat, a: Address, b: Address, c: Address)
    requires Current(n) && n.tally.seen == Three(a, b, c)
    ensures n.firewall == Verdict(Three(a, b, c))
  {
  }

  lemma TwiceFirst(a: Address, b: Address)
    requires a != b
    ensures Verdict(multiset{a, a, b}) == Unknown
  {
    var m := multiset{a, a, b};
    assert a in m && m[a] >= 2;
    assert forall x :: x in m ==> m[x] <= 2;
  }

  lemma AllOnce(a: Address, b: Address, c: Address)
    requires a != b && a != c && b != c
    ensures Verdict(multiset{a, b, c}) == Random
  {
    var m := multiset{a, b, c};
    assert forall x :: x in m ==> m[x] <= 1;
  }

  /** Addresses among which the order decides are one twice and two others once. */
  lemma OneTwice(m: multiset<Address>) returns (a: Address, b: Address, c: Address)
    requires OrderDecides(m)
    ensures m == multiset{a, a, b, c} && a != b && a != c && b != c
  {
    a :| a in m && m[a] >= 2;
    var rest;
    rest := TakeOne(m, a);
    rest := TakeOne(rest, a);
    b :| b in rest;
    var last := TakeOne(rest, b);
    c :| c in last;
    var none := TakeOne(last, c);
    assert m == multiset{a, a, b, c};
    DifferentOnes(m, a, b, c);
  }

  lemma TakeOne<T>(m: multiset<T>, x: T) returns (rest: multiset<T>)
    requires x in m
    ensures m == multiset{x} + rest && |rest| == |m| - 1
  {
    rest := m - multiset{x};
    assert m == multiset{x} + rest;
  }

  lemma DifferentOnes(m: multiset<Address>, a: Address, b: Address, c: Address)
    requires m == multiset{a, a, b, c} && !Often(m, 3) && !TwoTwice(m)
    ensures a != b && a != c && b != c
  {
    assert a in m && b in m;
  }

  /** Wherever the order decides, one order leaves the verdict open and another gives random. */
  lemma BothOrders(m: multiset<Address>) returns (a: Address, b: Address, c: Address)
    requires OrderDecides(m)
    ensures var n := Run(Initial(true), InOrder(a, a, b, c)); n.tally.seen == m && n.firewall == Unknown
    ensures var n := Run(Initial(true), InOrder(a, b, c, a)); n.tally.seen == m && n.firewall == Random
  {
    a, b, c := OneTwice(m);
    assert multiset{a, a, b, c} == multiset{a, b, c, a};
    hide Run, Verdict, OrderDecides;
    FourObservations(a, a, b, c);
    FourObservations(a, b, c, a);
    TwiceFirst(a, b);
    AllOnce(a, b, c);
  }

  /** Two never frozen runs that observed the same addresses as often and disagree. */
  ghost predicate Disagree(m: multiset<Address>, es: seq<Event>, fs: seq<Event>) {
    && NeverFrozen(es) && NeverFrozen(fs)
    && Run(Initial(true), es).tally.seen == m == Run(Initial(true), fs).tally.seen
    && Run(Initial(true), es).firewall != Run(Initial(true), fs).firewall
  }

  /** The order of the same observations can make a difference exactly where it decides. */
  lemma OrderMattersIff(m: multiset<Address>)
    ensures OrderDecides(m) <==> exists es, fs :: Disagree(m, es, fs)
  {
    hide Run, OrderDecides;
    if OrderDecides(m) {
      var a, b, c := BothOrders(m);
      assert Disagree(m, InOrder(a, a, b, c), InOrder(a, b, c, a));
    } else if es, fs :| Disagree(m, es, fs) {
      OrderFree(es, fs);
    }
  }

  /** For instance: an address twice and two others, of three hosts. */
  lemma OrderMattersAtFour()
    ensures var a, b, c := Address("a", 1), Address("b", 1), Address("c", 1);
            && Run(Initial(true), InOrder(a, a, b, c)).firewall == Unknown
            && Run(Initial(true), InOrder(a, b, c, a)).firewall == Random
  {
    var a, b, c := Address("a", 1), Address("b", 1), Address("c", 1);
    OneTwiceDecides(a, b, c);
    hide Run, OrderDecides, Verdict;
    FourObservations(a, a, b, c);
    FourObservations(a, b, c, a);
    TwiceFirst(a, b);
    AllOnce(a, b, c);
  }

  /** The other way round: one address twice and two others once, not all of one host. */
  lemma OneTwiceDecides(a: Address, b: Address, c: Address)
    requires a != b && a != c && b != c && !(a.host == b.host == c.host)
    ensures OrderDecides(multiset{a, a, b, c}) && multiset{a, b, c, a} == multiset{a, a, b, c}
  {
    var m := multiset{a, a, b, c};
    assert m == multiset{a, b, c, a} && a in m && b in m && c in m && m[a] == 2 && m[b] == 1 && m[c] == 1;
    assert forall x :: x in m ==> x == a || m[x] == 1;
  }

  // ---------------------------------------------------------------- permanence

  ghost predicate TripleHit(n: Nat) {
    TallyOk(n.tally) && n.firewalled && Often(n.tally.seen, 3) && n.firewall == Consistent
  }

  lemma TripleJudged(t: Tally, before: Firewall)
    requires TallyOk(t) && Often(t.seen, 3)
    ensures Judge(t, before) == Consistent && t.sampled >= 3
  {
    MaxHits(t.byAddress, t.seen, 3);
    FirstOfTotal(t.byAddress);
  }

  lemma {:induction false} FirstOfTotal(s: seq<Sample>)
    requires s != []
    ensures Total(s) >= s[0].hits
  {
    if |s| > 1 {
      FirstOfTotal(s[..|s| - 1]);
    }
  }

  /** No later observation, freezing or thawing takes back a verdict that rests on a triple hit. */
  lemma StaysTriple(n: Nat, e: Event)
    requires TripleHit(n)
    ensures TripleHit(Step(n, e))
  {
    hide TallyOk, Often, Addresses, Judge, Count;
    TripleJudged(n.tally, n.firewall);
    if e.DoAdd? {
      CountOk(n.tally, e.addr);
      OftenGrows(n.tally, e.addr);
      CountsOne(n.tally, e.addr);
      TripleJudged(Count(n.tally, e.addr), n.firewall);
    }
  }

  lemma {:induction false} ConsistentForever(n: Nat, es: seq<Event>)
    requires TripleHit(n)
    ensures Run(n, es).firewall == Consistent
    decreases |es|
  {
    if es != [] {
      hide Step;
      StaysTriple(n, es[0]);
      ConsistentForever(Step(n, es[0]), es[1..]);
    }
  }

  /** A classifier that is not frozen has drawn the conclusion from a triple hit. */
  ghost predicate Concluded(n: Nat) {
    TallyOk(n.tally) && n.firewalled && (!n.frozen && Often(n.tally.seen, 3) ==> n.firewall == Consistent)
  }

  lemma StepConcludes(n: Nat, e: Event)
    requires Concluded(n)
    ensures Concluded(Step(n, e))
  {
    hide TallyOk, Often, Addresses, Judge, Count;
    StepOk(n, e);
    if Often(n.tally.seen, 3) {
      TripleJudged(n.tally, n.firewall);
      TripleJudged(n.tally, Unknown);
    }
    if e.DoAdd? {
      CountOk(n.tally, e.addr);
      var t := Count(n.tally, e.addr);
      if Often(t.seen, 3) {
        TripleJudged(t, n.firewall);
        TripleJudged(t, Unknown);
      }
    }
  }

  lemma {:induction false} RunConcludes(n: Nat, es: seq<Event>)
    requires Concluded(n)
    ensures Concluded(Run(n, es))
    decreases |es|
  {
    hide Concluded, Step;
    if es != [] {
      StepConcludes(n, es[0]);
      RunConcludes(Step(n, es[0]), es[1..]);
    }
  }

  /** In every run of a firewalled classifier, once it is not frozen and some address was
      observed three times the verdict is consistent, whatever happens after. */
  lemma TripleIsFinal(es: seq<Event>, more: seq<Event>)
    ensures var n := Run(Initial(true), es);
            !n.frozen && Often(n.tally.seen, 3) ==> n.firewall == Consistent && Run(n, more).firewall == Consistent
  {
    InitialOk();
    assert !Often(NOTHING_SEEN.seen, 3);
    hide Run, Often, TallyOk;
    RunConcludes(Initial(true), es);
    var n := Run(Initial(true), es);
    if !n.frozen && Often(n.tally.seen, 3) {
      ConsistentForever(n, more);
    }
  }
}
