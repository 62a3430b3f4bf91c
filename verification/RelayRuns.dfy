/** What every interleaving of the blind-relay engine keeps. */
module RelayRuns {
  import opened Options
  import opened RelaySpec

  // ---------------------------------------------------------------- the invariant

  /** Exactly one side has registered, in the slot of its role. */
  ghost predicate Sole(p: Pending) {
    || (p.acceptor.Some? && p.initiator.None? && !p.acceptor.value.isInitiator)
    || (p.initiator.Some? && p.acceptor.None? && p.initiator.value.isInitiator)
  }

  ghost function TheLink(p: Pending): Link
    requires Sole(p)
  {
    if p.acceptor.Some? then p.acceptor.value else p.initiator.value
  }

  /** Each token has exactly one link, and links are told apart by their serials. */
  ghost predicate TableOk(m: map<Token, Pending>, serials: nat) {
    && (forall t :: t in m ==> Sole(m[t]) && TheLink(m[t]).serial < serials && TheLink(m[t]).token == t)
    && (forall t, u :: t in m && u in m && t != u ==> TheLink(m[t]).serial != TheLink(m[u]).serial)
  }

  ghost predicate MatchOk(m: Match) {
    && m.first.isInitiator != m.second.isInitiator
    && m.first.token == m.token == m.second.token
    && m.first.serial < m.second.serial
  }

  ghost predicate Joins(m: Match, serial: nat) {
    m.first.serial == serial || m.second.serial == serial
  }

  /** Matches join opposite roles on one token, and a link joins at most one match. */
  ghost predicate MatchesOk(ms: seq<Match>, serials: nat) {
    && (forall i :: 0 <= i < |ms| ==> MatchOk(ms[i]) && ms[i].second.serial < serials)
    && (forall i, j, n :: 0 <= i < j < |ms| && Joins(ms[i], n) ==> !Joins(ms[j], n))
  }

  /** A link that has been matched is no longer in the table. */
  ghost predicate Apart(m: map<Token, Pending>, ms: seq<Match>)
    requires forall t :: t in m ==> Sole(m[t])
  {
    forall t, i :: t in m && 0 <= i < |ms| ==> !Joins(ms[i], TheLink(m[t]).serial)
  }

  ghost predicate PairingOk(m: map<Token, Pending>, ms: seq<Match>, serials: nat) {
    TableOk(m, serials) && MatchesOk(ms, serials) && Apart(m, ms)
  }

  /** Conservation: every accepted request is accounted for exactly once. */
  ghost predicate CountersOk(s: State) {
    && s.pendingCount == |s.pairing|
    && s.requested == |s.h.busy| + s.h.duplicates + |s.pairing| + 2 * s.matched + s.cancelled
    && s.matched == |s.h.matches|
    && s.activeCount == s.matched - |s.h.signals|
    && |s.active| + |s.h.signals| <= |s.h.marked|
    && |s.h.marked| <= |s.h.matches|
    && (forall k :: k in s.h.marked ==> k < |s.h.matches|)
  }

  /** The threads that have raised the count for a session which is not open yet. */
  ghost function Joining(acceptors: map<nat, Acceptor>): set<nat> {
    set t | t in acceptors && !acceptors[t].Loaded?
  }

  /** Counts are loaded below the limit; ids are taken once, and not used yet. */
  ghost predicate AcceptorsOk(max: nat, acceptors: map<nat, Acceptor>, next: nat, counts: map<nat, nat>,
                              used: set<nat>) {
    && (forall t :: t in acceptors && acceptors[t].Loaded? ==> acceptors[t].count < max)
    && (forall t :: t in acceptors && acceptors[t].Named? ==>
          acceptors[t].id < next && acceptors[t].id !in counts && acceptors[t].id !in used)
    && (forall t, u :: t in acceptors && u in acceptors && t != u && acceptors[t].Named? && acceptors[u].Named? ==>
          acceptors[t].id != acceptors[u].id)
  }

  ghost predicate SessionsOk(c: Config, s: State) {
    && s.sessionCount == |s.h.open| + |Joining(s.h.acceptors)| <= c.maxSessions
    && s.accepted == |s.h.open| + |s.h.closing|
    && AcceptorsOk(c.maxSessions, s.h.acceptors, s.nextSession, s.h.counts, s.h.open + s.h.closing)
    && (forall i :: i in s.h.open ==> i < s.nextSession && i in s.h.counts)
    && (forall i :: i in s.h.closing ==> i < s.nextSession)
    && (forall i :: i in s.h.counts ==> i < s.nextSession)
    && s.h.open !! s.h.closing && s.h.cleared <= s.h.closing && s.h.busy <= s.h.open
  }

  /** The tokens for which `session` has a pending link. */
  ghost function Held(m: map<Token, Pending>, session: nat): set<Token> {
    set t | t in m && m[t].HeldBy(session)
  }

  /** A session's pending links never exceed its counter, nor the counter the cap. */
  ghost predicate LimitOk(cap: nat, m: map<Token, Pending>, counts: map<nat, nat>, busy: set<nat>, i: nat)
    requires i in counts
  {
    && |Held(m, i)| <= counts[i] <= cap
    && (i in busy ==> counts[i] < cap)
  }

  ghost predicate LimitsOk(cap: nat, m: map<Token, Pending>, counts: map<nat, nat>, busy: set<nat>, cleared: set<nat>) {
    && (forall i :: i in counts ==> LimitOk(cap, m, counts, busy, i))
    && (forall i :: i in cleared || i !in counts ==> Held(m, i) == {})
  }

  ghost predicate Inv(c: Config, s: State) {
    && PairingOk(s.pairing, s.h.matches, s.serials)
    && CountersOk(s)
    && SessionsOk(c, s)
    && LimitsOk(c.maxPairingsPerSession, s.pairing, s.h.counts, s.h.busy, s.h.cleared)
  }

  // ---------------------------------------------------------------- removing entries

  lemma RemoveKeys<K, V>(m: map<K, V>, gone: set<K>)
    requires gone <= m.Keys
    ensures |m - gone| == |m| - |gone|
  {
    assert (m - gone).Keys == m.Keys - gone;
    assert m.Keys == (m.Keys - gone) + gone;
  }

  lemma CardinalityGrows<T>(a: set<T>, b: set<T>)
    requires a <= b
    ensures |a| <= |b|
  {
    assert b == a + (b - a);
  }

  lemma PairingShrinks(m: map<Token, Pending>, ms: seq<Match>, serials: nat, gone: set<Token>)
    requires PairingOk(m, ms, serials)
    ensures PairingOk(m - gone, ms, serials)
  {
  }

  lemma HeldShrinks(m: map<Token, Pending>, gone: set<Token>, i: nat)
    ensures Held(m - gone, i) == Held(m, i) - gone
    ensures |Held(m - gone, i)| <= |Held(m, i)|
  {
    CardinalityGrows(Held(m - gone, i), Held(m, i));
  }

  lemma LimitsShrink(cap: nat, m: map<Token, Pending>, counts: map<nat, nat>, busy: set<nat>, cleared: set<nat>,
                     gone: set<Token>)
    requires LimitsOk(cap, m, counts, busy, cleared)
    ensures LimitsOk(cap, m - gone, counts, busy, cleared)
  {
    forall i
      ensures i in counts ==> LimitOk(cap, m - gone, counts, busy, i)
      ensures i in cleared || i !in counts ==> Held(m - gone, i) == {}
    {
      assert i in counts ==> LimitOk(cap, m, counts, busy, i);
      HeldShrinks(m, gone, i);
    }
  }

  /** Dropping pending entries as cancelled keeps the invariant. */
  lemma CancelSome(c: Config, s: State, gone: set<Token>)
    requires Inv(c, s) && gone <= s.pairing.Keys
    ensures Inv(c, s.(pairing := s.pairing - gone, cancelled := s.cancelled + |gone|,
                      pendingCount := s.pendingCount - |gone|))
  {
    hide PairingOk, LimitsOk;
    RemoveKeys(s.pairing, gone);
    PairingShrinks(s.pairing, s.h.matches, s.serials, gone);
    LimitsShrink(c.maxPairingsPerSession, s.pairing, s.h.counts, s.h.busy, s.h.cleared, gone);
  }

  // ---------------------------------------------------------------- pairing steps

  lemma LimitsBusy(cap: nat, m: map<Token, Pending>, counts: map<nat, nat>, busy: set<nat>, cleared: set<nat>, i: nat)
    requires LimitsOk(cap, m, counts, busy, cleared) && (i in counts ==> counts[i] < cap)
    ensures LimitsOk(cap, m, counts, busy + {i}, cleared)
  {
    forall j | j in counts
      ensures LimitOk(cap, m, counts, busy + {i}, j)
    {
      assert LimitOk(cap, m, counts, busy, j);
    }
  }

  lemma BeginInv(c: Config, s: State, i: nat)
    requires Inv(c, s) && i in s.h.open && i !in s.h.busy && i in s.h.counts
    ensures Inv(c, Begin(c, s, i))
  {
    hide PairingOk, LimitsOk, AcceptorsOk, Joining;
    if s.h.counts[i] < c.maxPairingsPerSession {
      LimitsBusy(c.maxPairingsPerSession, s.pairing, s.h.counts, s.h.busy, s.h.cleared, i);
    }
  }

  lemma AddLink(m: map<Token, Pending>, ms: seq<Match>, serials: nat, t: Token, link: Link)
    requires PairingOk(m, ms, serials) && t !in m && link.serial == serials && link.token == t
    ensures PairingOk(m[t := NO_LINKS.With(link.isInitiator, Some(link))], ms, serials + 1)
  {
  }

  lemma HeldAdd(m: map<Token, Pending>, t: Token, link: Link, i: nat)
    requires t !in m
    ensures var m' := m[t := NO_LINKS.With(link.isInitiator, Some(link))];
            Held(m', i) == if i == link.session then Held(m, i) + {t} else Held(m, i)
  {
  }

  lemma LimitsAdd(cap: nat, m: map<Token, Pending>, counts: map<nat, nat>, busy: set<nat>, cleared: set<nat>, t: Token,
                  link: Link)
    requires LimitsOk(cap, m, counts, busy, cleared) && t !in m
    requires link.session in counts && link.session in busy && link.session !in cleared
    ensures LimitsOk(cap, m[t := NO_LINKS.With(link.isInitiator, Some(link))],
                     counts[link.session := counts[link.session] + 1], busy - {link.session}, cleared)
  {
    var m' := m[t := NO_LINKS.With(link.isInitiator, Some(link))];
    var counts' := counts[link.session := counts[link.session] + 1];
    forall i
      ensures i in counts' ==> LimitOk(cap, m', counts', busy - {link.session}, i)
      ensures i in cleared || i !in counts' ==> Held(m', i) == {}
    {
      assert i in counts ==> LimitOk(cap, m, counts, busy, i);
      HeldAdd(m, t, link, i);
    }
  }

  lemma LimitsIdle(cap: nat, m: map<Token, Pending>, counts: map<nat, nat>, busy: set<nat>, cleared: set<nat>, i: nat)
    requires LimitsOk(cap, m, counts, busy, cleared)
    ensures LimitsOk(cap, m, counts, busy - {i}, cleared)
  {
    forall j | j in counts
      ensures LimitOk(cap, m, counts, busy - {i}, j)
    {
      assert LimitOk(cap, m, counts, busy, j);
    }
  }

  /** A registered link meets the opposite role: both leave the table in one match. */
  lemma AddMatch(m: map<Token, Pending>, ms: seq<Match>, serials: nat, t: Token, link: Link)
    requires PairingOk(m, ms, serials) && t in m && link.serial == serials && link.token == t
    requires m[t].Slot(link.isInitiator).None?
    ensures m[t].Slot(!link.isInitiator).Some?
    ensures PairingOk(m - {t}, ms + [Match(t, m[t].Slot(!link.isInitiator).value, link)], serials + 1)
  {
    var other := TheLink(m[t]);
    var made := Match(t, other, link);
    var ms' := ms + [made];
    assert MatchOk(made);
    forall i, n: nat | 0 <= i < |ms| && Joins(ms[i], n)
      ensures !Joins(made, n)
    {
      assert n < serials;
      assert !Joins(ms[i], other.serial);
    }
    forall u, i | u in m - {t} && 0 <= i < |ms'|
      ensures !Joins(ms'[i], TheLink(m[u]).serial)
    {
      if i < |ms| {
        assert !Joins(ms[i], TheLink(m[u]).serial);
      }
    }
  }

  lemma BusyLeaves(s: State, i: nat)
    requires i in s.h.busy
    ensures |s.h.busy - {i}| == |s.h.busy| - 1
  {
  }

  ghost predicate Registers(s: State, e: Event) {
    e.FinishPair? && e.session in s.h.busy && e.session in s.h.counts && e.token !in s.pairing
  }

  lemma FinishPending(c: Config, s: State, e: Event)
    requires Inv(c, s) && Registers(s, e)
    ensures Inv(c, Finish(s, e))
  {
    hide PairingOk, LimitsOk, CountersOk, SessionsOk, Finish;
    RegisteredSessions(c, s, e);
    RegisteredPairing(s, e);
    RegisteredLimits(c.maxPairingsPerSession, s, e);
    RegisteredCounters(s, e);
  }

  lemma RegisteredPairing(s: State, e: Event)
    requires PairingOk(s.pairing, s.h.matches, s.serials) && Registers(s, e)
    ensures var t := Finish(s, e); PairingOk(t.pairing, t.h.matches, t.serials)
  {
    hide PairingOk;
    AddLink(s.pairing, s.h.matches, s.serials, e.token, NewLink(s, e));
  }

  lemma RegisteredLimits(cap: nat, s: State, e: Event)
    requires LimitsOk(cap, s.pairing, s.h.counts, s.h.busy, s.h.cleared) && Registers(s, e) && e.session !in s.h.cleared
    ensures var t := Finish(s, e); LimitsOk(cap, t.pairing, t.h.counts, t.h.busy, t.h.cleared)
  {
    hide LimitsOk;
    LimitsAdd(cap, s.pairing, s.h.counts, s.h.busy, s.h.cleared, e.token, NewLink(s, e));
  }

  lemma RegisteredCounters(s: State, e: Event)
    requires CountersOk(s) && Registers(s, e)
    ensures CountersOk(Finish(s, e))
  {
    BusyLeaves(s, e.session);
  }

  lemma RegisteredSessions(c: Config, s: State, e: Event)
    requires SessionsOk(c, s) && Registers(s, e)
    ensures SessionsOk(c, Finish(s, e)) && e.session !in s.h.cleared
  {
  }

  ghost predicate Completes(s: State, e: Event) {
    && e.FinishPair? && e.session in s.h.busy && e.session in s.h.counts
    && e.token in s.pairing && s.pairing[e.token].Slot(e.isInitiator).None?
  }

  lemma FinishMatched(c: Config, s: State, e: Event)
    requires Inv(c, s) && Completes(s, e)
    ensures Inv(c, Finish(s, e))
  {
    hide PairingOk, LimitsOk, CountersOk, SessionsOk, Finish;
    MatchedPairing(s, e);
    MatchedLimits(c.maxPairingsPerSession, s, e);
    MatchedCounters(s, e);
    MatchedSessions(c, s, e);
  }

  lemma MatchedPairing(s: State, e: Event)
    requires PairingOk(s.pairing, s.h.matches, s.serials) && Completes(s, e)
    ensures s.pairing[e.token].Slot(!e.isInitiator).Some?
    ensures var t := Finish(s, e); PairingOk(t.pairing, t.h.matches, t.serials)
  {
    hide PairingOk;
    AddMatch(s.pairing, s.h.matches, s.serials, e.token, NewLink(s, e));
  }

  lemma MatchedLimits(cap: nat, s: State, e: Event)
    requires LimitsOk(cap, s.pairing, s.h.counts, s.h.busy, s.h.cleared) && Completes(s, e)
    requires s.pairing[e.token].Slot(!e.isInitiator).Some?
    ensures var t := Finish(s, e); LimitsOk(cap, t.pairing, t.h.counts, t.h.busy, t.h.cleared)
  {
    hide LimitsOk;
    LimitsIdle(cap, s.pairing, s.h.counts, s.h.busy, s.h.cleared, e.session);
    LimitsShrink(cap, s.pairing, s.h.counts, s.h.busy - {e.session}, s.h.cleared, {e.token});
  }

  lemma MatchedSessions(c: Config, s: State, e: Event)
    requires SessionsOk(c, s) && Completes(s, e)
    requires s.pairing[e.token].Slot(!e.isInitiator).Some?
    ensures SessionsOk(c, Finish(s, e))
  {
  }

  lemma MatchedCounters(s: State, e: Event)
    requires CountersOk(s) && Completes(s, e)
    requires s.pairing[e.token].Slot(!e.isInitiator).Some?
    ensures CountersOk(Finish(s, e))
  {
    RemoveKeys(s.pairing, {e.token});
    BusyLeaves(s, e.session);
  }

  lemma FinishDuplicate(c: Config, s: State, e: Event)
    requires Inv(c, s) && e.FinishPair? && e.session in s.h.busy && e.session in s.h.counts
    requires PairOf(s, e.token).Slot(e.isInitiator).Some?
    ensures Inv(c, Finish(s, e))
  {
    hide PairingOk, LimitsOk, Held;
    LimitsIdle(c.maxPairingsPerSession, s.pairing, s.h.counts, s.h.busy, s.h.cleared, e.session);
    BusyLeaves(s, e.session);
  }

  lemma FinishInv(c: Config, s: State, e: Event)
    requires Inv(c, s) && e.FinishPair? && e.session in s.h.busy && e.session in s.h.counts
    ensures Inv(c, Finish(s, e))
  {
    hide Inv, Finish;
    if PairOf(s, e.token).Slot(e.isInitiator).Some? {
      FinishDuplicate(c, s, e);
    } else if e.token in s.pairing {
      FinishMatched(c, s, e);
    } else {
      FinishPending(c, s, e);
    }
  }

  lemma SoleHeld(p: Pending, i: nat)
    requires Sole(p) && p.HeldBy(i)
    ensures p.Without(i).Empty()
  {
  }

  lemma LimitsCancel(cap: nat, m: map<Token, Pending>, counts: map<nat, nat>, busy: set<nat>, cleared: set<nat>,
                     i: nat, t: Token)
    requires LimitsOk(cap, m, counts, busy, cleared) && i in counts && t in m && m[t].HeldBy(i)
    ensures LimitsOk(cap, m - {t}, Lowered(counts, i), busy, cleared)
  {
    var counts' := Lowered(counts, i);
    forall j
      ensures j in counts' ==> LimitOk(cap, m - {t}, counts', busy, j)
      ensures j in cleared || j !in counts' ==> Held(m - {t}, j) == {}
    {
      assert j in counts ==> LimitOk(cap, m, counts, busy, j);
      HeldShrinks(m, {t}, j);
      assert j == i ==> t in Held(m, i);
    }
  }

  lemma CancelInv(c: Config, s: State, i: nat, t: Token)
    requires Inv(c, s) && i in s.h.counts
    ensures Inv(c, Cancel(s, i, t))
  {
    hide PairingOk, LimitsOk, CountersOk, SessionsOk, Cancel;
    if t in s.pairing && s.pairing[t].HeldBy(i) {
      TableOf(c, s);
      SoleHeld(s.pairing[t], i);
      CancelledState(s, i, t);
      PairingShrinks(s.pairing, s.h.matches, s.serials, {t});
      LimitsCancel(c.maxPairingsPerSession, s.pairing, s.h.counts, s.h.busy, s.h.cleared, i, t);
      CancelledCounters(c, s, i, t);
    } else {
      CancelledNothing(s, i, t);
    }
  }

  lemma CancelledNothing(s: State, i: nat, t: Token)
    requires i in s.h.counts && !(t in s.pairing && s.pairing[t].HeldBy(i))
    ensures Cancel(s, i, t) == s
  {
  }

  lemma CancelledState(s: State, i: nat, t: Token)
    requires i in s.h.counts && t in s.pairing && s.pairing[t].HeldBy(i) && s.pairing[t].Without(i).Empty()
    ensures var u := Cancel(s, i, t);
            && u.pairing == s.pairing - {t} && u.h.matches == s.h.matches && u.serials == s.serials &&
               u.h.busy == s.h.busy
            && u.h.counts == Lowered(s.h.counts, i) && u.h.cleared == s.h.cleared
  {
  }

  lemma CancelledCounters(c: Config, s: State, i: nat, t: Token)
    requires CountersOk(s) && SessionsOk(c, s)
    requires i in s.h.counts && t in s.pairing && s.pairing[t].HeldBy(i) && s.pairing[t].Without(i).Empty()
    ensures CountersOk(Cancel(s, i, t)) && SessionsOk(c, Cancel(s, i, t))
  {
    RemoveKeys(s.pairing, {t});
  }

  // ---------------------------------------------------------------- release, sweep, streams

  /** With one link per token, releasing a session drops exactly the entries it holds. */
  lemma ClearedTable(m: map<Token, Pending>, serials: nat, i: nat)
    requires TableOk(m, serials)
    ensures OnlyHeldBy(m, i) == Held(m, i)
    ensures (map t | t in m && t !in OnlyHeldBy(m, i) :: m[t].Without(i)) == m - Held(m, i)
  {
    forall t | t in m
      ensures m[t].HeldBy(i) ==> m[t].Without(i).Empty()
      ensures !m[t].HeldBy(i) ==> m[t].Without(i) == m[t]
    {
      if m[t].HeldBy(i) {
        SoleHeld(m[t], i);
      }
    }
  }

  lemma ClearPendingInv(c: Config, s: State, i: nat)
    requires Inv(c, s) && i in s.h.closing
    ensures Inv(c, ClearPending(s, i))
    ensures Held(ClearPending(s, i).pairing, i) == {}
    ensures forall t :: t in s.pairing && !s.pairing[t].HeldBy(i) ==>
              t in ClearPending(s, i).pairing && ClearPending(s, i).pairing[t] == s.pairing[t]
  {
    hide PairingOk, CountersOk, LimitsOk, SessionsOk, ClearPending, Inv;
    TableOf(c, s);
    var gone := Held(s.pairing, i);
    ClearedTable(s.pairing, s.serials, i);
    CancelSome(c, s, gone);
    HeldShrinks(s.pairing, gone, i);
    ClearIsCancel(s, i, gone);
    ClearedInv(c, s.(pairing := s.pairing - gone, cancelled := s.cancelled + |gone|,
                     pendingCount := s.pendingCount - |gone|), i);
  }

  lemma ClearedInv(c: Config, s: State, i: nat)
    requires Inv(c, s) && i in s.h.closing && Held(s.pairing, i) == {}
    ensures Inv(c, s.(h := s.h.(cleared := s.h.cleared + {i})))
  {
    hide PairingOk, CountersOk, LimitOk;
    SameCounters(s, s.(h := s.h.(cleared := s.h.cleared + {i})));
  }

  lemma ClearIsCancel(s: State, i: nat, gone: set<Token>)
    requires OnlyHeldBy(s.pairing, i) == gone
    requires (map t | t in s.pairing && t !in gone :: s.pairing[t].Without(i)) == s.pairing - gone
    ensures ClearPending(s, i) == s.(pairing := s.pairing - gone, cancelled := s.cancelled + |gone|,
                                     pendingCount := s.pendingCount - |gone|, h := s.h.(cleared := s.h.cleared + {i}))
  {
  }

  lemma TableOf(c: Config, s: State)
    requires Inv(c, s)
    ensures TableOk(s.pairing, s.serials)
  {
  }

  lemma SweepInv(c: Config, s: State, now: nat)
    requires Inv(c, s)
    ensures Inv(c, SweepAt(c, s, now))
    ensures forall t :: t in SweepAt(c, s, now).pairing <==> t in s.pairing && !Expired(c, s.pairing[t], now)
  {
    CancelSome(c, s, ExpiredTokens(c, s.pairing, now));
  }

  lemma TearDownInv(c: Config, s: State, t: Token)
    requires Inv(c, s)
    ensures Inv(c, TearDown(s, t))
  {
    hide PairingOk, LimitsOk;
    if t in s.active {
      RemoveKeys(s.active, {t});
    }
  }

  lemma MarkInv(c: Config, s: State, k: nat)
    requires Inv(c, s) && k < |s.h.matches| && k !in s.h.marked
    ensures Inv(c, Mark(s, k))
  {
    hide PairingOk, LimitsOk, CountersOk;
    MarkCounters(s, k);
  }

  lemma MarkCounters(s: State, k: nat)
    requires CountersOk(s) && k < |s.h.matches| && k !in s.h.marked
    ensures CountersOk(Mark(s, k))
  {
    var m := s.h.matches[k];
    OverwriteGrows(s.active, m.token, Active(m.first.session, m.second.session));
    NewElement(s.h.marked, k);
    MarkedBound(s.h.marked + {k}, |s.h.matches|);
  }

  lemma OverwriteGrows<K, V>(m: map<K, V>, k: K, v: V)
    ensures |m[k := v]| <= |m| + 1
  {
    assert m[k := v].Keys == m.Keys + {k};
  }

  lemma NewElement<T>(s: set<T>, x: T)
    requires x !in s
    ensures |s + {x}| == |s| + 1
  {
  }

  lemma {:induction false} MarkedBound(marked: set<nat>, n: nat)
    requires forall k :: k in marked ==> k < n
    ensures |marked| <= n
  {
    if n > 0 {
      MarkedBound(marked - {n - 1}, n - 1);
    } else {
      assert marked == {};
    }
  }

  lemma SignalCount(m: map<Token, Active>, gone: set<Token>)
    requires gone <= m.Keys
    ensures |SignalsFor(m, gone)| == |gone|
  {
    if gone != {} {
      var t :| t in gone;
      SignalCount(m, gone - {t});
      assert SignalsFor(m, gone) == SignalsFor(m, gone - {t}) + {Signal(t, m[t])};
    }
  }

  /** Releasing tears down exactly the active pairings that name the session, one signal each. */
  lemma ClearActiveInv(c: Config, s: State, i: nat)
    requires Inv(c, s)
    ensures var t := ClearActive(s, i);
            && Inv(c, t)
            && (forall k :: k in t.active <==> k in s.active && !Names(s.active[k], i))
            && (forall k :: k in t.active ==> t.active[k] == s.active[k])
            && (forall k :: k in s.active && Names(s.active[k], i) ==>
                  t.h.signals[Signal(k, s.active[k])] == s.h.signals[Signal(k, s.active[k])] + 1)
            && |t.h.signals| == |s.h.signals| + |Naming(s.active, i)|
  {
    hide PairingOk, LimitsOk;
    var gone := Naming(s.active, i);
    RemoveKeys(s.active, gone);
    SignalCount(s.active, gone);
    forall k | k in s.active && Names(s.active[k], i)
      ensures Signal(k, s.active[k]) in SignalsFor(s.active, gone)
    {
      assert k in gone;
    }
  }

  lemma BeginReleaseInv(c: Config, s: State, i: nat)
    requires Inv(c, s) && i in s.h.open && i !in s.h.busy
    ensures Inv(c, BeginRelease(s, i))
  {
    hide PairingOk, LimitsOk, CountersOk, SessionsOk;
    ReleaseSessions(c, s, i);
    SameCounters(s, BeginRelease(s, i));
  }

  lemma ReleaseSessions(c: Config, s: State, i: nat)
    requires SessionsOk(c, s) && i in s.h.open && i !in s.h.busy
    ensures SessionsOk(c, BeginRelease(s, i))
  {
    hide AcceptorsOk, Joining;
    NewElement(s.h.open - {i}, i);
    NewElement(s.h.closing, i);
    assert s.h.open == (s.h.open - {i}) + {i};
    assert (s.h.open - {i}) + (s.h.closing + {i}) == s.h.open + s.h.closing;
  }

  lemma SameCounters(s: State, t: State)
    requires CountersOk(s)
    requires t == s.(sessionCount := t.sessionCount, nextSession := t.nextSession, accepted := t.accepted, h := t.h)
    requires t.h == s.h.(open := t.h.open, closing := t.h.closing, acceptors := t.h.acceptors, counts := t.h.counts,
                         cleared := t.h.cleared)
    ensures CountersOk(t)
  {
  }

  /** A successful exchange raises the count only when the one it saw is still current. */
  lemma ExchangeInv(c: Config, s: State, thread: nat)
    requires Inv(c, s) && thread in s.h.acceptors && s.h.acceptors[thread].Loaded?
    ensures Inv(c, Exchange(s, thread))
  {
    hide PairingOk, CountersOk, LimitsOk, SessionsOk;
    SameCounters(s, Exchange(s, thread));
    ExchangeSessions(c, s, thread);
  }

  lemma ExchangeSessions(c: Config, s: State, thread: nat)
    requires SessionsOk(c, s) && thread in s.h.acceptors && s.h.acceptors[thread].Loaded?
    ensures SessionsOk(c, Exchange(s, thread))
  {
    hide AcceptorsOk;
    if s.sessionCount == s.h.acceptors[thread].count {
      AcceptorsStep(c.maxSessions, s.h.acceptors, s.nextSession, s.h.counts, s.h.open + s.h.closing, thread, Won);
      JoinOne(s.h.acceptors, thread);
    } else {
      AcceptorsLeave(c.maxSessions, s.h.acceptors, s.nextSession, s.h.counts, s.h.open + s.h.closing, thread);
      assert Joining(s.h.acceptors - {thread}) == Joining(s.h.acceptors);
    }
  }

  lemma JoinOne(acceptors: map<nat, Acceptor>, thread: nat)
    requires thread in acceptors && acceptors[thread].Loaded?
    ensures |Joining(acceptors[thread := Won])| == |Joining(acceptors)| + 1
  {
    assert Joining(acceptors[thread := Won]) == Joining(acceptors) + {thread};
  }

  lemma AcceptorsStep(max: nat, acceptors: map<nat, Acceptor>, next: nat, counts: map<nat, nat>, used: set<nat>,
                      thread: nat, a: Acceptor)
    requires AcceptorsOk(max, acceptors, next, counts, used) && (a.Loaded? ==> a.count < max) && !a.Named?
    ensures AcceptorsOk(max, acceptors[thread := a], next, counts, used)
    ensures thread in acceptors && acceptors[thread].Loaded? ==> acceptors[thread].count < max
  {
  }

  lemma AcceptorsLeave(max: nat, acceptors: map<nat, Acceptor>, next: nat, counts: map<nat, nat>, used: set<nat>,
                       thread: nat)
    requires AcceptorsOk(max, acceptors, next, counts, used)
    ensures AcceptorsOk(max, acceptors - {thread}, next, counts, used)
  {
  }

  lemma NameInv(c: Config, s: State, thread: nat)
    requires Inv(c, s) && thread in s.h.acceptors && s.h.acceptors[thread].Won?
    ensures Inv(c, Name(s, thread))
  {
    hide PairingOk, CountersOk, LimitsOk, SessionsOk;
    SameCounters(s, Name(s, thread));
    NameSessions(c, s, thread);
  }

  lemma NameSessions(c: Config, s: State, thread: nat)
    requires SessionsOk(c, s) && thread in s.h.acceptors && s.h.acceptors[thread].Won?
    ensures SessionsOk(c, Name(s, thread))
  {
    assert Joining(s.h.acceptors[thread := Named(s.nextSession)]) == Joining(s.h.acceptors);
  }

  /** The id that was taken opens as a new session. */
  lemma AdmitInv(c: Config, s: State, thread: nat)
    requires Inv(c, s) && thread in s.h.acceptors && s.h.acceptors[thread].Named?
    ensures Inv(c, Admit(s, thread))
  {
    hide PairingOk, CountersOk, LimitsOk, SessionsOk;
    SameCounters(s, Admit(s, thread));
    AdmitSessions(c, s, thread);
    LimitsOpen(c.maxPairingsPerSession, s.pairing, s.h.counts, s.h.busy, s.h.cleared, s.h.acceptors[thread].id);
  }

  lemma AdmitSessions(c: Config, s: State, thread: nat)
    requires SessionsOk(c, s) && thread in s.h.acceptors && s.h.acceptors[thread].Named?
    ensures s.h.acceptors[thread].id !in s.h.counts && s.h.acceptors[thread].id !in s.h.busy
    ensures SessionsOk(c, Admit(s, thread))
  {
    var id := s.h.acceptors[thread].id;
    assert id !in s.h.open + s.h.closing;
    NewElement(s.h.open, id);
    assert Joining(s.h.acceptors) == Joining(s.h.acceptors - {thread}) + {thread};
  }

  lemma LimitsOpen(cap: nat, m: map<Token, Pending>, counts: map<nat, nat>, busy: set<nat>, cleared: set<nat>, i: nat)
    requires LimitsOk(cap, m, counts, busy, cleared) && i !in counts && i !in busy
    ensures LimitsOk(cap, m, counts[i := 0], busy, cleared)
  {
    var counts' := counts[i := 0];
    forall j | j in counts'
      ensures LimitOk(cap, m, counts', busy, j)
    {
      assert j in counts ==> LimitOk(cap, m, counts, busy, j);
    }
  }

  // ---------------------------------------------------------------- runs

  lemma LoadInv(c: Config, s: State, thread: nat)
    requires Inv(c, s) && thread !in s.h.acceptors
    ensures Inv(c, LoadCount(c, s, thread))
  {
    hide PairingOk, CountersOk, LimitsOk, AcceptorsOk;
    SameCounters(s, LoadCount(c, s, thread));
    if s.sessionCount < c.maxSessions {
      var used, a := s.h.open + s.h.closing, Loaded(s.sessionCount);
      AcceptorsStep(c.maxSessions, s.h.acceptors, s.nextSession, s.h.counts, used, thread, a);
    }
    assert Joining(s.h.acceptors[thread := Loaded(s.sessionCount)]) == Joining(s.h.acceptors);
  }

  lemma StepInv(c: Config, s: State, e: Event)
    requires Inv(c, s) && Enabled(s, e)
    ensures Inv(c, Step(c, s, e))
  {
    hide Inv, LoadCount, Exchange, Name, Admit, Begin, Finish, Cancel, TearDown, Mark, BeginRelease, ClearPending,
         ClearActive, SweepAt;
    match e
    case Load(t) => LoadInv(c, s, t);
    case CompareExchange(t) => ExchangeInv(c, s, t);
    case TakeId(t) => NameInv(c, s, t);
    case CountSession(t) => AdmitInv(c, s, t);
    case BeginPair(i) => BeginInv(c, s, i);
    case FinishPair(_, _, _, _, _) => FinishInv(c, s, e);
    case Unpair(i, t) => CancelInv(c, s, i, t);
    case UnpairActive(t) => TearDownInv(c, s, t);
    case MarkActive(k) => MarkInv(c, s, k);
    case Release(i) => BeginReleaseInv(c, s, i);
    case ReleasePending(i) => ClearPendingInv(c, s, i);
    case ReleaseActive(i) => ClearActiveInv(c, s, i);
    case Sweep(now) => SweepInv(c, s, now);
  }

  ghost predicate ValidRun(c: Config, s: State, es: seq<Event>)
    decreases |es|
  {
    es != [] ==> Enabled(s, es[0]) && ValidRun(c, Step(c, s, es[0]), es[1..])
  }

  ghost function Run(c: Config, s: State, es: seq<Event>): State
    requires ValidRun(c, s, es)
    decreases |es|
  {
    if es == [] then s else Run(c, Step(c, s, es[0]), es[1..])
  }

  lemma {:induction false} RunInv(c: Config, s: State, es: seq<Event>)
    requires Inv(c, s) && ValidRun(c, s, es)
    ensures Inv(c, Run(c, s, es))
    decreases |es|
  {
    hide Inv, Step;
    if es != [] {
      StepInv(c, s, es[0]);
      RunInv(c, Step(c, s, es[0]), es[1..]);
    }
  }

  lemma InitialInv(c: Config)
    ensures Inv(c, INITIAL)
  {
  }

  /** Conservation, under every interleaving from the start. */
  lemma PairingConservation(c: Config, es: seq<Event>)
    requires ValidRun(c, INITIAL, es)
    ensures var s := Run(c, INITIAL, es);
            && (forall t :: t in s.pairing ==> Sole(s.pairing[t]))
            && s.pendingCount == |s.pairing|
            && s.requested == |s.h.busy| + s.h.duplicates + s.pendingCount + 2 * s.matched + s.cancelled
            && s.matched == |s.h.matches|
            && (forall i :: 0 <= i < |s.h.matches| ==> MatchOk(s.h.matches[i]))
            && (forall i, j, n :: 0 <= i < j < |s.h.matches| && Joins(s.h.matches[i], n) ==> !Joins(s.h.matches[j], n))
  {
    hide Run, ValidRun, Step, LimitsOk, Apart;
    InitialInv(c);
    RunInv(c, INITIAL, es);
  }

  /** Limits, under every interleaving from the start. */
  lemma RelayLimits(c: Config, es: seq<Event>)
    requires ValidRun(c, INITIAL, es)
    ensures var s := Run(c, INITIAL, es);
            && (forall i :: i in s.h.counts ==> |Held(s.pairing, i)| <= s.h.counts[i] <= c.maxPairingsPerSession)
            && s.accepted - |s.h.closing| + |Joining(s.h.acceptors)| == s.sessionCount <= c.maxSessions
            && s.activeCount == s.matched - |s.h.signals|
            && |s.active| <= s.activeCount
            && (forall i :: i in s.h.cleared ==> Held(s.pairing, i) == {})
  {
    hide Run, ValidRun, Step, PairingOk;
    InitialInv(c);
    RunInv(c, INITIAL, es);
    var s := Run(c, INITIAL, es);
    forall i | i in s.h.counts
      ensures |Held(s.pairing, i)| <= s.h.counts[i] <= c.maxPairingsPerSession
    {
      assert LimitOk(c.maxPairingsPerSession, s.pairing, s.h.counts, s.h.busy, i);
    }
  }
}
