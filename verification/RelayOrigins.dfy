/** The pending table and the matches of the relay, read from the events of a run alone: which
    pair request waits, which one completes a match with it, and what a sweep takes away. */
module RelayOrigins {
  import opened Options
  import opened RelaySpec
  import opened RelayRuns
  import opened RelayTeardown

  /** The step ends the wait of the pair request `waiting`: the other role arrives on its token,
      its session cancels it or leaves, or a sweep finds it too old. */
  ghost predicate Ends(c: Config, e: Event, waiting: Event)
    requires waiting.FinishPair?
  {
    match e
    case FinishPair(_, isInitiator, t, _, _) => t == waiting.token && isInitiator != waiting.isInitiator
    case Unpair(i, t) => t == waiting.token && i == waiting.session
    case ReleasePending(i) => i == waiting.session
    case Sweep(now) => now > waiting.now + c.pairingTimeout
    case _ => false
  }

  /** The k-th step is a pair request on `t` that found no other waiting, and nothing since has
      ended its wait. */
  ghost predicate Waits(c: Config, es: seq<Event>, t: Token, k: nat)
    decreases |es|
  {
    && k < |es| && es[k].FinishPair? && es[k].token == t
    && (forall i: nat | i < k :: !Waits(c, es[..k], t, i))
    && (forall j | k < j < |es| :: !Ends(c, es[j], es[k]))
  }

  /** A link made of a pair request: its session, role, stream and time. */
  ghost predicate LinkOf(e: Event, link: Link) {
    && e.FinishPair?
    && link.session == e.session && link.isInitiator == e.isInitiator && link.streamId == e.streamId
    && link.createdAt == e.now && link.token == e.token
  }

  /** A pending entry that holds the link of `e` and no other. */
  ghost predicate Holding(p: Pending, e: Event) {
    && e.FinishPair?
    && p.Slot(!e.isInitiator).None? && p.Slot(e.isInitiator).Some?
    && LinkOf(e, p.Slot(e.isInitiator).value)
  }

  ghost predicate SomeWaits(c: Config, es: seq<Event>, t: Token) {
    exists k: nat :: Waits(c, es, t, k)
  }

  ghost predicate PendingIs(c: Config, m: map<Token, Pending>, es: seq<Event>) {
    && (forall t :: t in m <==> SomeWaits(c, es, t))
    && (forall t, k: nat :: Waits(c, es, t, k) ==> t in m && Holding(m[t], es[k]))
  }

  // ---------------------------------------------------------------- one more step

  lemma WaitsBounds(c: Config, es: seq<Event>, t: Token, k: nat)
    requires Waits(c, es, t, k)
    ensures k < |es| && es[k].FinishPair? && es[k].token == t
  {
  }

  lemma WaitsPrefix(c: Config, es: seq<Event>, t: Token, k: nat, n: nat)
    requires Waits(c, es, t, k) && k < n <= |es|
    ensures Waits(c, es[..n], t, k)
  {
    assert es[..n][..k] == es[..k];
    assert forall j :: 0 <= j < n ==> es[..n][j] == es[j];
  }

  /** At most one request waits on a token. */
  lemma WaitsUnique(c: Config, es: seq<Event>, t: Token, i: nat, k: nat)
    requires Waits(c, es, t, i) && Waits(c, es, t, k)
    ensures i == k
  {
    if i < k {
      WaitsPrefix(c, es, t, i, k);
    } else if k < i {
      WaitsPrefix(c, es, t, k, i);
    }
  }

  lemma WaitsKept(c: Config, es: seq<Event>, e: Event, t: Token, k: nat)
    requires k < |es|
    ensures Waits(c, es + [e], t, k) <==> Waits(c, es, t, k) && !Ends(c, e, es[k])
  {
    var es' := es + [e];
    assert es'[..k] == es[..k] && es'[|es|] == e;
    assert forall j :: 0 <= j < |es| ==> es'[j] == es[j];
    if Waits(c, es', t, k) {
      assert !Ends(c, es'[|es|], es[k]);
      WaitsPrefix(c, es', t, k, |es|);
      assert es'[..|es|] == es;
    }
  }

  lemma WaitsNew(c: Config, es: seq<Event>, e: Event, t: Token)
    ensures Waits(c, es + [e], t, |es|) <==> e.FinishPair? && e.token == t && !SomeWaits(c, es, t)
  {
    var es' := es + [e];
    assert es'[..|es|] == es && es'[|es|] == e;
    if e.FinishPair? && e.token == t && !SomeWaits(c, es, t) {
      assert forall i: nat | i < |es| :: !Waits(c, es, t, i);
    }
    if SomeWaits(c, es, t) {
      var k: nat :| Waits(c, es, t, k);
      assert k < |es|;
    }
  }

  /** A step in which no request begins to wait leaves exactly those whose wait it does not end. */
  lemma PendingShrinks(c: Config, m: map<Token, Pending>, m': map<Token, Pending>, es: seq<Event>, e: Event)
    requires PendingIs(c, m, es) && (e.FinishPair? ==> SomeWaits(c, es, e.token))
    requires forall t, k: nat :: Waits(c, es, t, k) ==> (t in m' <==> !Ends(c, e, es[k]))
    requires forall t :: t in m' ==> t in m && m'[t] == m[t]
    ensures PendingIs(c, m', es + [e])
  {
    hide Waits, Ends, Holding;
    var es' := es + [e];
    forall t, k: nat
      ensures Waits(c, es', t, k) ==> k < |es| && Waits(c, es, t, k) && t in m' && Holding(m'[t], es'[k])
    {
      if Waits(c, es', t, k) {
        WaitsBounds(c, es', t, k);
        if k == |es| {
          WaitsNew(c, es, e, t);
        } else {
          WaitsKept(c, es, e, t, k);
          assert es'[k] == es[k];
        }
      }
    }
    forall t | t in m'
      ensures SomeWaits(c, es', t)
    {
      assert SomeWaits(c, es, t);
      var k: nat :| Waits(c, es, t, k);
      WaitsBounds(c, es, t, k);
      WaitsKept(c, es, e, t, k);
    }
  }

  /** A pair request that finds none waiting on its token begins to wait. */
  lemma PendingGrows(c: Config, m: map<Token, Pending>, p: Pending, es: seq<Event>, e: Event)
    requires PendingIs(c, m, es) && e.FinishPair? && !SomeWaits(c, es, e.token) && Holding(p, e)
    ensures PendingIs(c, m[e.token := p], es + [e])
  {
    var es', m' := es + [e], m[e.token := p];
    forall t, k: nat | k < |es| && Waits(c, es, t, k)
      ensures es[k].FinishPair? && !Ends(c, e, es[k])
    {
      assert SomeWaits(c, es, t);
    }
    hide Waits, Ends, Holding;
    forall t, k: nat
      ensures Waits(c, es', t, k) ==> t in m' && Holding(m'[t], es'[k])
    {
      if Waits(c, es', t, k) {
        WaitsBounds(c, es', t, k);
        if k == |es| {
          assert es'[k] == e;
        } else {
          WaitsKept(c, es, e, t, k);
          assert es'[k] == es[k] && SomeWaits(c, es, t);
        }
      }
    }
    forall t | t in m'
      ensures SomeWaits(c, es', t)
    {
      WaitsNew(c, es, e, t);
      if t != e.token {
        var k: nat :| Waits(c, es, t, k);
        WaitsBounds(c, es, t, k);
        WaitsKept(c, es, e, t, k);
      }
    }
  }

  lemma FinishPendingIs(c: Config, s: State, es: seq<Event>, e: Event)
    requires Enabled(s, e) && e.FinishPair? && PendingIs(c, s.pairing, es)
    ensures PendingIs(c, Finish(s, e).pairing, es + [e])
  {
    var m := s.pairing;
    if SomeWaits(c, es, e.token) {
      var k: nat :| Waits(c, es, e.token, k);
      WaitsBounds(c, es, e.token, k);
      assert Holding(m[e.token], es[k]);
      forall t, i: nat | Waits(c, es, t, i)
        ensures t in Finish(s, e).pairing <==> !Ends(c, e, es[i])
      {
        WaitsBounds(c, es, t, i);
        if t == e.token {
          WaitsUnique(c, es, t, i, k);
        }
      }
      hide Waits, Ends, Holding;
      PendingShrinks(c, m, Finish(s, e).pairing, es, e);
    } else {
      assert e.token !in m;
      PendingGrows(c, m, Finish(s, e).pairing[e.token], es, e);
    }
  }

  lemma CancelPendingIs(c: Config, s: State, es: seq<Event>, e: Event)
    requires Enabled(s, e) && e.Unpair? && PendingIs(c, s.pairing, es)
    ensures PendingIs(c, Cancel(s, e.session, e.token).pairing, es + [e])
  {
    var m' := Cancel(s, e.session, e.token).pairing;
    hide Waits, SomeWaits;
    forall t, k: nat | Waits(c, es, t, k)
      ensures es[k].FinishPair? && (t in m' <==> !Ends(c, e, es[k]))
    {
      WaitsBounds(c, es, t, k);
      assert Holding(s.pairing[t], es[k]);
    }
    forall t | t in m'
      ensures t in s.pairing && m'[t] == s.pairing[t]
    {
      CancelSame(c, s, es, e, t);
    }
    hide Ends, Holding;
    PendingShrinks(c, s.pairing, m', es, e);
  }

  lemma CancelSame(c: Config, s: State, es: seq<Event>, e: Event, t: Token)
    requires Enabled(s, e) && e.Unpair? && PendingIs(c, s.pairing, es)
    ensures var m' := Cancel(s, e.session, e.token).pairing;
            t in m' ==> t in s.pairing && m'[t] == s.pairing[t]
  {
    hide Waits;
    if t in s.pairing {
      assert SomeWaits(c, es, t);
      var k: nat :| Waits(c, es, t, k);
      WaitsBounds(c, es, t, k);
      assert Holding(s.pairing[t], es[k]);
    }
  }

  lemma ReleasePendingIs(c: Config, s: State, es: seq<Event>, e: Event)
    requires e.ReleasePending? && PendingIs(c, s.pairing, es)
    ensures PendingIs(c, ClearPending(s, e.session).pairing, es + [e])
  {
    var m' := ClearPending(s, e.session).pairing;
    hide Waits;
    forall t, k: nat | Waits(c, es, t, k)
      ensures es[k].FinishPair? && (t in m' <==> !Ends(c, e, es[k]))
    {
      WaitsBounds(c, es, t, k);
      assert Holding(s.pairing[t], es[k]);
    }
    forall t | t in m'
      ensures t in s.pairing && m'[t] == s.pairing[t]
    {
      assert SomeWaits(c, es, t);
      var k: nat :| Waits(c, es, t, k);
      WaitsBounds(c, es, t, k);
      assert Holding(s.pairing[t], es[k]);
    }
    hide Ends, Holding;
    PendingShrinks(c, s.pairing, m', es, e);
  }

  lemma SweepPendingIs(c: Config, s: State, es: seq<Event>, e: Event)
    requires e.Sweep? && PendingIs(c, s.pairing, es)
    ensures PendingIs(c, SweepAt(c, s, e.now).pairing, es + [e])
  {
    var m' := SweepAt(c, s, e.now).pairing;
    hide Waits;
    forall t, k: nat | Waits(c, es, t, k)
      ensures es[k].FinishPair? && (t in m' <==> !Ends(c, e, es[k]))
    {
      WaitsBounds(c, es, t, k);
      assert Holding(s.pairing[t], es[k]);
    }
    hide Ends, Holding;
    PendingShrinks(c, s.pairing, m', es, e);
  }

  lemma OtherPendingIs(c: Config, m: map<Token, Pending>, es: seq<Event>, e: Event)
    requires PendingIs(c, m, es) && !e.FinishPair? && !e.Unpair? && !e.ReleasePending? && !e.Sweep?
    ensures PendingIs(c, m, es + [e])
  {
    hide Waits;
    forall t, k: nat | Waits(c, es, t, k)
      ensures k < |es| && es[k].FinishPair? && !Ends(c, e, es[k])
    {
      WaitsBounds(c, es, t, k);
    }
    hide Ends, Holding;
    PendingShrinks(c, m, m, es, e);
  }

  lemma SamePairing(c: Config, s: State, e: Event)
    requires Enabled(s, e) && !e.FinishPair? && !e.Unpair? && !e.ReleasePending? && !e.Sweep?
    ensures Step(c, s, e).pairing == s.pairing
  {
  }

  lemma StepPendingIs(c: Config, s: State, es: seq<Event>, e: Event)
    requires Enabled(s, e) && PendingIs(c, s.pairing, es)
    ensures PendingIs(c, Step(c, s, e).pairing, es + [e])
  {
    hide PendingIs, Finish, Cancel, ClearPending, SweepAt;
    match e
    case FinishPair(_, _, _, _, _) =>
      FinishPendingIs(c, s, es, e);
    case Unpair(_, _) =>
      CancelPendingIs(c, s, es, e);
    case ReleasePending(_) =>
      ReleasePendingIs(c, s, es, e);
    case Sweep(_) =>
      SweepPendingIs(c, s, es, e);
    case _ =>
      SamePairing(c, s, e);
      OtherPendingIs(c, s.pairing, es, e);
  }

  // ---------------------------------------------------------------- matches

  /** The k-th step is a pair request that finds the one of step j waiting in the other role. */
  ghost predicate Completes(c: Config, es: seq<Event>, j: nat, k: nat) {
    k < |es| && es[k].FinishPair? && Waits(c, es[..k], es[k].token, j) && es[j].isInitiator != es[k].isInitiator
  }

  ghost predicate CompletesSome(c: Config, es: seq<Event>, k: nat) {
    exists j: nat :: Completes(c, es, j, k)
  }

  /** The steps that complete a match, in order. */
  ghost function Completions(c: Config, es: seq<Event>): seq<nat> {
    if es == [] then []
    else
      var n := |es| - 1;
      Completions(c, es[..n]) + (if CompletesSome(c, es, n) then [n] else [])
  }

  /** A match of the requests of steps j and k, first the one that waited. */
  ghost predicate MatchOf(c: Config, es: seq<Event>, j: nat, k: nat, m: Match) {
    Completes(c, es, j, k) && m.token == es[k].token && LinkOf(es[j], m.first) && LinkOf(es[k], m.second)
  }

  ghost predicate MatchAt(c: Config, es: seq<Event>, k: nat, m: Match) {
    exists j: nat :: j < k && MatchOf(c, es, j, k, m)
  }

  ghost predicate MatchesAre(c: Config, ms: seq<Match>, es: seq<Event>) {
    var ks := Completions(c, es);
    |ms| == |ks| && forall x :: 0 <= x < |ms| ==> MatchAt(c, es, ks[x], ms[x])
  }

  lemma MatchKept(c: Config, es: seq<Event>, e: Event, k: nat, m: Match)
    requires MatchAt(c, es, k, m)
    ensures MatchAt(c, es + [e], k, m)
  {
    hide Waits, LinkOf;
    var j: nat :| j < k && MatchOf(c, es, j, k, m);
    var es' := es + [e];
    assert es'[k] == es[k] && es'[j] == es[j] && es'[..k] == es[..k];
    assert MatchOf(c, es', j, k, m);
  }

  lemma NoMatchAdded(c: Config, ms: seq<Match>, es: seq<Event>, e: Event)
    requires MatchesAre(c, ms, es) && !CompletesSome(c, es + [e], |es|)
    ensures MatchesAre(c, ms, es + [e])
  {
    hide MatchAt, CompletesSome;
    assert (es + [e])[..|es|] == es;
    forall x | 0 <= x < |ms|
      ensures MatchAt(c, es + [e], Completions(c, es)[x], ms[x])
    {
      MatchKept(c, es, e, Completions(c, es)[x], ms[x]);
    }
  }

  lemma OneMatchAdded(c: Config, ms: seq<Match>, es: seq<Event>, e: Event, m: Match)
    requires MatchesAre(c, ms, es) && MatchAt(c, es + [e], |es|, m)
    ensures MatchesAre(c, ms + [m], es + [e])
  {
    assert CompletesSome(c, es + [e], |es|);
    hide MatchAt, CompletesSome;
    assert (es + [e])[..|es|] == es;
    var ks := Completions(c, es);
    assert Completions(c, es + [e]) == ks + [|es|];
    forall x | 0 <= x < |ms|
      ensures MatchAt(c, es + [e], ks[x], ms[x])
    {
      MatchKept(c, es, e, ks[x], ms[x]);
    }
  }

  lemma CompletesNow(c: Config, es: seq<Event>, e: Event, j: nat)
    ensures Completes(c, es + [e], j, |es|) <==>
            e.FinishPair? && Waits(c, es, e.token, j) && es[j].isInitiator != e.isInitiator
  {
    hide Waits;
    var es' := es + [e];
    assert es'[..|es|] == es && es'[|es|] == e;
    if e.FinishPair? && Waits(c, es, e.token, j) {
      WaitsBounds(c, es, e.token, j);
      assert es'[j] == es[j];
    }
  }

  lemma FinishMatches(c: Config, s: State, es: seq<Event>, e: Event)
    requires Enabled(s, e) && e.FinishPair? && PendingIs(c, s.pairing, es) && MatchesAre(c, s.h.matches, es)
    ensures MatchesAre(c, Finish(s, e).h.matches, es + [e])
  {
    hide MatchesAre, Waits;
    forall j: nat
      ensures Completes(c, es + [e], j, |es|) ==>
                Waits(c, es, e.token, j) && j < |es| && es[j].FinishPair? && es[j].isInitiator != e.isInitiator
      ensures Waits(c, es, e.token, j) ==> j < |es| && es[j].FinishPair?
      ensures Waits(c, es, e.token, j) && es[j].isInitiator != e.isInitiator ==> Completes(c, es + [e], j, |es|)
    {
      if Waits(c, es, e.token, j) {
        WaitsBounds(c, es, e.token, j);
      }
      CompletesNow(c, es, e, j);
    }
    if j: nat :| Waits(c, es, e.token, j) {
      WaitsBounds(c, es, e.token, j);
      assert Holding(s.pairing[e.token], es[j]);
      if es[j].isInitiator != e.isInitiator {
        var m := Match(e.token, s.pairing[e.token].Slot(!e.isInitiator).value, NewLink(s, e));
        assert (es + [e])[j] == es[j] && (es + [e])[|es|] == e;
        assert MatchOf(c, es + [e], j, |es|, m);
        OneMatchAdded(c, s.h.matches, es, e, m);
      } else {
        forall i: nat
          ensures !Completes(c, es + [e], i, |es|)
        {
          if Waits(c, es, e.token, i) {
            WaitsUnique(c, es, e.token, i, j);
          }
        }
        NoMatchAdded(c, s.h.matches, es, e);
      }
    } else {
      assert !SomeWaits(c, es, e.token) && e.token !in s.pairing;
      NoMatchAdded(c, s.h.matches, es, e);
    }
  }

  lemma SameMatches(c: Config, s: State, e: Event)
    requires Enabled(s, e) && !e.FinishPair?
    ensures Step(c, s, e).h.matches == s.h.matches
  {
  }

  lemma StepMatches(c: Config, s: State, es: seq<Event>, e: Event)
    requires Enabled(s, e) && PendingIs(c, s.pairing, es) && MatchesAre(c, s.h.matches, es)
    ensures MatchesAre(c, Step(c, s, e).h.matches, es + [e])
  {
    hide PendingIs, MatchesAre, Finish;
    if e.FinishPair? {
      FinishMatches(c, s, es, e);
    } else {
      SameMatches(c, s, e);
      assert (es + [e])[|es|] == e;
      assert !CompletesSome(c, es + [e], |es|);
      NoMatchAdded(c, s.h.matches, es, e);
    }
  }

  // ---------------------------------------------------------------- main theorems

  /** After every run the pending table holds exactly the pair requests that wait, each with the
      session, role, stream and time it was made with, and the matches are exactly the pair
      requests that found one waiting in the other role, in order, the one that waited first. */
  lemma {:induction false} PairingsExact(c: Config, es: seq<Event>)
    requires ValidRun(c, INITIAL, es)
    ensures PendingIs(c, Run(c, INITIAL, es).pairing, es)
    ensures MatchesAre(c, Run(c, INITIAL, es).h.matches, es)
    decreases |es|
  {
    if es != [] {
      var n := |es| - 1;
      var e := es[n];
      assert es == es[..n] + [e];
      RunSnoc(c, INITIAL, es[..n], e);
      hide Run, ValidRun, PendingIs, MatchesAre, Step, Enabled;
      PairingsExact(c, es[..n]);
      var s := Run(c, INITIAL, es[..n]);
      StepPendingIs(c, s, es[..n], e);
      StepMatches(c, s, es[..n], e);
    }
  }

  /** Every match comes from two pair requests of the run on its token, in opposite roles, with
      their sessions, streams and times, first the earlier one. */
  lemma MatchOrigins(c: Config, es: seq<Event>, m: Match)
    requires ValidRun(c, INITIAL, es) && m in Run(c, INITIAL, es).h.matches
    ensures exists j, k :: 0 <= j < k < |es| && LinkOf(es[j], m.first) && LinkOf(es[k], m.second) &&
              m.token == es[j].token == es[k].token && es[j].isInitiator != es[k].isInitiator
  {
    hide Run, ValidRun;
    PairingsExact(c, es);
    var ms, ks := Run(c, INITIAL, es).h.matches, Completions(c, es);
    var x :| 0 <= x < |ms| && ms[x] == m;
    assert MatchAt(c, es, ks[x], m);
    var j: nat :| j < ks[x] && MatchOf(c, es, j, ks[x], m);
    WaitsBounds(c, es[..ks[x]], es[ks[x]].token, j);
  }

  /** A sweep takes away exactly the waiting requests made more than the timeout before it. */
  lemma SweepExact(c: Config, es: seq<Event>, now: nat, t: Token)
    requires ValidRun(c, INITIAL, es) && t in Run(c, INITIAL, es).pairing
    ensures exists k: nat :: Waits(c, es, t, k) &&
              (t in SweepAt(c, Run(c, INITIAL, es), now).pairing <==> now <= es[k].now + c.pairingTimeout)
  {
    hide Run, ValidRun, Waits;
    PairingsExact(c, es);
    assert SomeWaits(c, es, t);
    var k: nat :| Waits(c, es, t, k);
    WaitsBounds(c, es, t, k);
    assert Holding(Run(c, INITIAL, es).pairing[t], es[k]);
  }

  // ---------------------------------------------------------------- session counters

  /** The k-th step makes a request of session `i` wait. */
  ghost predicate BeginsWait(c: Config, es: seq<Event>, k: nat, i: nat) {
    k < |es| && es[k].FinishPair? && es[k].session == i && !SomeWaits(c, es[..k], es[k].token)
  }

  /** A request of session `i` waits on the token. */
  ghost predicate WaitsFor(c: Config, es: seq<Event>, t: Token, i: nat) {
    exists j: nat :: Waits(c, es, t, j) && j < |es| && es[j].FinishPair? && es[j].session == i
  }

  /** The k-th step cancels a waiting request of its own session `i`. */
  ghost predicate CancelsWait(c: Config, es: seq<Event>, k: nat, i: nat) {
    k < |es| && es[k].Unpair? && es[k].session == i && WaitsFor(c, es[..k], es[k].token, i)
  }

  /** Requests of session `i` that began to wait, less those it cancelled. */
  ghost function Balance(c: Config, es: seq<Event>, i: nat): int {
    if es == [] then 0
    else
      var n := |es| - 1;
      Balance(c, es[..n], i) + (if BeginsWait(c, es, n, i) then 1 else 0) - (if CancelsWait(c, es, n, i) then 1 else 0)
  }

  ghost predicate CountsAre(c: Config, counts: map<nat, nat>, es: seq<Event>) {
    forall i :: Balance(c, es, i) == if i in counts then counts[i] else 0
  }

  lemma BalanceSnoc(c: Config, es: seq<Event>, e: Event, i: nat)
    ensures Balance(c, es + [e], i) ==
            Balance(c, es, i) +
            (if e.FinishPair? && e.session == i && !SomeWaits(c, es, e.token) then 1 else 0) -
            (if e.Unpair? && e.session == i && WaitsFor(c, es, e.token, i) then 1 else 0)
  {
    hide WaitsFor, SomeWaits;
    var es' := es + [e];
    assert es'[..|es|] == es && es'[|es|] == e;
  }

  /** The entry on a token is held by a session exactly if the waiting request is its own. */
  lemma HeldWaits(c: Config, m: map<Token, Pending>, es: seq<Event>, t: Token, i: nat)
    requires PendingIs(c, m, es)
    ensures t in m && m[t].HeldBy(i) <==> WaitsFor(c, es, t, i)
  {
    hide Waits;
    if t in m && m[t].HeldBy(i) {
      assert SomeWaits(c, es, t);
      var j: nat :| Waits(c, es, t, j);
      WaitsBounds(c, es, t, j);
      assert Holding(m[t], es[j]);
    }
    if WaitsFor(c, es, t, i) {
      var j: nat :| Waits(c, es, t, j) && j < |es| && es[j].FinishPair? && es[j].session == i;
      assert Holding(m[t], es[j]);
    }
  }

  lemma FinishCounts(c: Config, s: State, es: seq<Event>, e: Event)
    requires Enabled(s, e) && e.FinishPair? && PendingIs(c, s.pairing, es)
    ensures Finish(s, e).h.counts ==
            if SomeWaits(c, es, e.token) then s.h.counts else s.h.counts[e.session := s.h.counts[e.session] + 1]
  {
    hide Waits;
    if SomeWaits(c, es, e.token) {
      var j: nat :| Waits(c, es, e.token, j);
      WaitsBounds(c, es, e.token, j);
      assert Holding(s.pairing[e.token], es[j]);
    }
  }

  /** A session that holds a pending link has a counter of at least one. */
  lemma HeldCounts(c: Config, s: State, t: Token, i: nat)
    requires Inv(c, s) && t in s.pairing && s.pairing[t].HeldBy(i) && i in s.h.counts
    ensures s.h.counts[i] >= 1
  {
    hide PairingOk, CountersOk, SessionsOk;
    assert LimitOk(c.maxPairingsPerSession, s.pairing, s.h.counts, s.h.busy, i);
    assert t in Held(s.pairing, i);
  }

  lemma CancelCounts(c: Config, s: State, es: seq<Event>, e: Event)
    requires Enabled(s, e) && e.Unpair? && PendingIs(c, s.pairing, es) && Inv(c, s)
    ensures WaitsFor(c, es, e.token, e.session) ==> s.h.counts[e.session] >= 1
    ensures Cancel(s, e.session, e.token).h.counts ==
            if WaitsFor(c, es, e.token, e.session) then s.h.counts[e.session := s.h.counts[e.session] - 1]
            else s.h.counts
  {
    hide PendingIs, WaitsFor, Inv;
    HeldWaits(c, s.pairing, es, e.token, e.session);
    if WaitsFor(c, es, e.token, e.session) {
      HeldCounts(c, s, e.token, e.session);
    }
  }

  lemma OtherCounts(c: Config, s: State, e: Event)
    requires Enabled(s, e) && !e.FinishPair? && !e.Unpair? && !e.CountSession?
    ensures Step(c, s, e).h.counts == s.h.counts
  {
  }

  lemma AdmitCounts(c: Config, s: State, e: Event)
    requires Enabled(s, e) && e.CountSession? && Inv(c, s)
    ensures var id := s.h.acceptors[e.thread].id;
            id !in s.h.counts && Admit(s, e.thread).h.counts == s.h.counts[id := 0]
  {
    hide PairingOk, CountersOk, LimitsOk, SessionsOk;
    AdmitSessions(c, s, e.thread);
  }

  lemma StepCounts(c: Config, s: State, es: seq<Event>, e: Event)
    requires Enabled(s, e) && PendingIs(c, s.pairing, es) && Inv(c, s) && CountsAre(c, s.h.counts, es)
    ensures CountsAre(c, Step(c, s, e).h.counts, es + [e])
  {
    hide PendingIs, Inv, SomeWaits, WaitsFor, Finish, Cancel, Admit, Balance;
    forall i: nat
      ensures Balance(c, es + [e], i) ==
              Balance(c, es, i) +
              (if e.FinishPair? && e.session == i && !SomeWaits(c, es, e.token) then 1 else 0) -
              (if e.Unpair? && e.session == i && WaitsFor(c, es, e.token, i) then 1 else 0)
    {
      BalanceSnoc(c, es, e, i);
    }
    if e.FinishPair? {
      FinishCounts(c, s, es, e);
    } else if e.Unpair? {
      CancelCounts(c, s, es, e);
    } else if e.CountSession? {
      AdmitCounts(c, s, e);
    } else {
      OtherCounts(c, s, e);
    }
  }

  /** In every run a session's pairing counter is the number of its requests that began to wait,
      less those it cancelled itself: a match, a sweep or its leaving does not lower it. */
  lemma {:induction false} CountersExact(c: Config, es: seq<Event>)
    requires ValidRun(c, INITIAL, es)
    ensures CountsAre(c, Run(c, INITIAL, es).h.counts, es)
    decreases |es|
  {
    if es != [] {
      var n := |es| - 1;
      var e := es[n];
      assert es == es[..n] + [e];
      RunSnoc(c, INITIAL, es[..n], e);
      hide Run, ValidRun, PendingIs, MatchesAre, Step, Enabled, Inv, CountsAre;
      CountersExact(c, es[..n]);
      PairingsExact(c, es[..n]);
      InitialInv(c);
      RunInv(c, INITIAL, es[..n]);
      StepCounts(c, Run(c, INITIAL, es[..n]), es[..n], e);
    }
  }

  // ---------------------------------------------------------------- teardown signals

  /** The registrations that a step takes out of the active table, each with its sessions. */
  ghost function TornDown(s: State, t: State): set<Signal> {
    set k | k in s.active && k !in t.active :: Signal(k, s.active[k])
  }

  /** Every registration that leaves the active table is signalled once, with its token and its
      two sessions, and nothing else is. */
  lemma SignalsExact(c: Config, s: State, e: Event)
    requires Enabled(s, e)
    ensures Step(c, s, e).h.signals == s.h.signals + multiset(TornDown(s, Step(c, s, e)))
  {
    match e
    case UnpairActive(t) =>
      if t in s.active {
        assert TornDown(s, Step(c, s, e)) == {Signal(t, s.active[t])};
      } else {
        assert TornDown(s, Step(c, s, e)) == {};
      }
    case ReleaseActive(i) =>
      assert TornDown(s, Step(c, s, e)) == SignalsFor(s.active, Naming(s.active, i));
    case _ =>
      SameSignals(c, s, e);
      assert TornDown(s, Step(c, s, e)) == {};
  }

  lemma SameSignals(c: Config, s: State, e: Event)
    requires Enabled(s, e) && !e.UnpairActive? && !e.ReleaseActive?
    ensures Step(c, s, e).h.signals == s.h.signals && s.active.Keys <= Step(c, s, e).active.Keys
  {
  }
}
