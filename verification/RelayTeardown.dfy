/** What is in the active table after any interleaving, and exactly when it still names a session
    whose active pairings were torn down. */
module RelayTeardown {
  import opened Options
  import opened RelaySpec
  import opened RelayRuns

  ghost function Registered(m: Match): Active {
    Active(m.first.session, m.second.session)
  }

  /** The step takes the registration of `m` out of the table or replaces it. */
  ghost predicate Removes(ms: seq<Match>, e: Event, m: Match) {
    match e
    case UnpairActive(t) => t == m.token
    case ReleaseActive(i) => Names(Registered(m), i)
    case MarkActive(k) => k < |ms| && ms[k].token == m.token
    case _ => false
  }

  ghost predicate Marks(ms: seq<Match>, e: Event) {
    e.MarkActive? && e.index < |ms|
  }

  /** The k-th step registers a match on `t`, which no later step removes or replaces. */
  ghost predicate LiveMark(ms: seq<Match>, es: seq<Event>, k: nat, t: Token) {
    && k < |es| && Marks(ms, es[k]) && ms[es[k].index].token == t
    && forall j :: k < j < |es| ==> !Removes(ms, es[j], ms[es[k].index])
  }

  /** The active table as the history of the run gives it. */
  ghost predicate TableIs(active: map<Token, Active>, ms: seq<Match>, es: seq<Event>) {
    && (forall t :: t in active <==> exists k: nat :: LiveMark(ms, es, k, t))
    && (forall t, k: nat :: LiveMark(ms, es, k, t) ==> t in active && active[t] == Registered(ms[es[k].index]))
  }

  // ---------------------------------------------------------------- runs, from the back

  lemma {:induction false} RunSnoc(c: Config, s: State, es: seq<Event>, e: Event)
    requires ValidRun(c, s, es + [e])
    ensures ValidRun(c, s, es) && Enabled(Run(c, s, es), e) && Run(c, s, es + [e]) == Step(c, Run(c, s, es), e)
    decreases |es|
  {
    hide Step, Enabled;
    if es == [] {
      assert [] + [e] == [e] && [e][1..] == [];
    } else {
      assert (es + [e])[0] == es[0] && (es + [e])[1..] == es[1..] + [e];
      RunSnoc(c, Step(c, s, es[0]), es[1..], e);
    }
  }

  lemma MatchesGrow(c: Config, s: State, e: Event)
    requires Enabled(s, e)
    ensures s.h.matches <= Step(c, s, e).h.matches
    ensures !e.UnpairActive? && !e.ReleaseActive? && !e.MarkActive? ==> Step(c, s, e).active == s.active
  {
  }

  /** A step that is not about active pairings removes none, and registers none. */
  lemma NoMark(ms: seq<Match>, es: seq<Event>, e: Event, k: nat, t: Token)
    requires !e.MarkActive?
    ensures LiveMark(ms, es + [e], k, t) <==>
            LiveMark(ms, es, k, t) && !Removes(ms, e, ms[es[k].index])
  {
    if k < |es| {
      assert (es + [e])[k] == es[k] && (es + [e])[|es|] == e;
      assert forall j :: k < j < |es| ==> (es + [e])[j] == es[j];
    }
  }

  lemma KeepsTable(active: map<Token, Active>, ms: seq<Match>, es: seq<Event>, e: Event)
    requires TableIs(active, ms, es) && !e.MarkActive? && !e.UnpairActive? && !e.ReleaseActive?
    ensures TableIs(active, ms, es + [e])
  {
    hide LiveMark;
    forall k: nat, t
      ensures LiveMark(ms, es + [e], k, t) <==> LiveMark(ms, es, k, t)
      ensures LiveMark(ms, es, k, t) ==> k < |es| && (es + [e])[k] == es[k]
    {
      NoMark(ms, es, e, k, t);
      InRange(ms, es, k, t);
    }
  }

  lemma InRange(ms: seq<Match>, es: seq<Event>, k: nat, t: Token)
    ensures LiveMark(ms, es, k, t) ==> k < |es| && Marks(ms, es[k]) && ms[es[k].index].token == t
  {
  }

  /** Taking out what `gone` says and the step removes. */
  lemma RemovesTable(active: map<Token, Active>, ms: seq<Match>, es: seq<Event>, e: Event, gone: set<Token>)
    requires TableIs(active, ms, es) && (e.UnpairActive? || e.ReleaseActive?)
    requires forall t, k: nat :: LiveMark(ms, es, k, t) ==> (t in gone <==> Removes(ms, e, ms[es[k].index]))
    ensures TableIs(active - gone, ms, es + [e])
  {
    hide LiveMark, Removes;
    forall k: nat, t
      ensures LiveMark(ms, es + [e], k, t) <==> LiveMark(ms, es, k, t) && t !in gone
      ensures LiveMark(ms, es, k, t) ==> k < |es| && (es + [e])[k] == es[k]
    {
      NoMark(ms, es, e, k, t);
      InRange(ms, es, k, t);
    }
  }

  lemma MarkTable(active: map<Token, Active>, ms: seq<Match>, es: seq<Event>, e: Event)
    requires TableIs(active, ms, es) && Marks(ms, e)
    ensures TableIs(active[ms[e.index].token := Registered(ms[e.index])], ms, es + [e])
  {
    var m := ms[e.index];
    forall k: nat, t
      ensures LiveMark(ms, es + [e], k, t) <==>
              if t == m.token then k == |es| else LiveMark(ms, es, k, t)
      ensures LiveMark(ms, es, k, t) ==> k < |es| && (es + [e])[k] == es[k]
    {
      MarkOne(ms, es, e, k, t);
    }
    hide LiveMark;
    assert LiveMark(ms, es + [e], |es|, m.token);
  }

  lemma MarkOne(ms: seq<Match>, es: seq<Event>, e: Event, k: nat, t: Token)
    requires Marks(ms, e)
    ensures LiveMark(ms, es + [e], k, t) <==>
            if t == ms[e.index].token then k == |es| else LiveMark(ms, es, k, t)
    ensures LiveMark(ms, es, k, t) ==> k < |es| && (es + [e])[k] == es[k]
  {
    var all := es + [e];
    assert all[|es|] == e && forall j :: 0 <= j < |es| ==> all[j] == es[j];
  }

  /** After every run from the start, the active table holds exactly the matches registered and
      not removed or replaced since. */
  lemma {:induction false} ActiveExact(c: Config, es: seq<Event>, ms: seq<Match>)
    requires ValidRun(c, INITIAL, es) && Run(c, INITIAL, es).h.matches <= ms
    ensures TableIs(Run(c, INITIAL, es).active, ms, es)
    decreases |es|
  {
    if es != [] {
      var n := |es| - 1;
      var e := es[n];
      assert es == es[..n] + [e];
      RunSnoc(c, INITIAL, es[..n], e);
      var s := Run(c, INITIAL, es[..n]);
      hide Run, ValidRun;
      MatchesGrow(c, s, e);
      ActiveExact(c, es[..n], ms);
      StepTable(c, s, e, es[..n], ms);
    }
  }

  lemma StepTable(c: Config, s: State, e: Event, es: seq<Event>, ms: seq<Match>)
    requires Enabled(s, e) && TableIs(s.active, ms, es) && s.h.matches <= ms
    ensures TableIs(Step(c, s, e).active, ms, es + [e])
  {
    hide TableIs, LiveMark;
    match e
    case MarkActive(k) =>
      assert ms[k] == s.h.matches[k];
      MarkTable(s.active, ms, es, e);
    case UnpairActive(t) =>
      UnpairTable(s.active, ms, es, t);
    case ReleaseActive(i) =>
      ReleaseTable(s.active, ms, es, i);
    case _ =>
      MatchesGrow(c, s, e);
      KeepsTable(s.active, ms, es, e);
  }

  lemma UnpairTable(active: map<Token, Active>, ms: seq<Match>, es: seq<Event>, t: Token)
    requires TableIs(active, ms, es)
    ensures TableIs(active - {t}, ms, es + [UnpairActive(t)])
    ensures t !in active ==> active - {t} == active
  {
    RemovesTable(active, ms, es, UnpairActive(t), {t});
  }

  lemma ReleaseTable(active: map<Token, Active>, ms: seq<Match>, es: seq<Event>, i: nat)
    requires TableIs(active, ms, es)
    ensures TableIs(active - Naming(active, i), ms, es + [ReleaseActive(i)])
  {
    RemovesTable(active, ms, es, ReleaseActive(i), Naming(active, i));
  }

  // ---------------------------------------------------------------- released sessions

  /** A match naming the session was registered after position `p`, and is still registered. */
  ghost predicate MarkedSince(ms: seq<Match>, es: seq<Event>, p: nat, i: nat, k: nat) {
    p < k < |es| && Marks(ms, es[k]) && Names(Registered(ms[es[k].index]), i) &&
      LiveMark(ms, es, k, ms[es[k].index].token)
  }

  /** After any run in which the active pairings of a session were torn down at some point, the
      active table names the session again exactly if one of its matches was registered after
      that point, and not removed or replaced since. */
  lemma ReleasedNamedIff(c: Config, es: seq<Event>, p: nat, i: nat)
    requires ValidRun(c, INITIAL, es) && p < |es| && es[p] == ReleaseActive(i)
    ensures var s := Run(c, INITIAL, es);
            Naming(s.active, i) != {} <==> exists k: nat :: MarkedSince(s.h.matches, es, p, i, k)
  {
    hide Run, ValidRun;
    var s := Run(c, INITIAL, es);
    var ms := s.h.matches;
    ActiveExact(c, es, ms);
    if t :| t in Naming(s.active, i) {
      assert t in s.active;
      var k: nat :| LiveMark(ms, es, k, t);
      AfterRelease(ms, es, p, i, k, t);
      assert MarkedSince(ms, es, p, i, k);
    }
    if k: nat :| MarkedSince(ms, es, p, i, k) {
      var t := ms[es[k].index].token;
      assert LiveMark(ms, es, k, t) && t in s.active;
      assert t in Naming(s.active, i);
    }
  }

  /** A registration naming the session that is still there is later than the teardown. */
  lemma AfterRelease(ms: seq<Match>, es: seq<Event>, p: nat, i: nat, k: nat, t: Token)
    requires p < |es| && es[p] == ReleaseActive(i) && LiveMark(ms, es, k, t) && Names(Registered(ms[es[k].index]), i)
    ensures p < k
  {
    if k < p {
      assert Removes(ms, es[p], ms[es[k].index]);
    }
  }

  // ---------------------------------------------------------------- it happens

  lemma {:induction false} RunJoin(c: Config, s: State, es: seq<Event>, fs: seq<Event>)
    requires ValidRun(c, s, es) && ValidRun(c, Run(c, s, es), fs)
    ensures ValidRun(c, s, es + fs) && Run(c, s, es + fs) == Run(c, Run(c, s, es), fs)
    decreases |es|
  {
    hide Step, Enabled;
    if es == [] {
      assert es + fs == fs;
    } else {
      assert (es + fs)[0] == es[0] && (es + fs)[1..] == es[1..] + fs;
      RunJoin(c, Step(c, s, es[0]), es[1..], fs);
    }
  }

  lemma One(c: Config, s: State, e: Event, t: State)
    requires Enabled(s, e) && Step(c, s, e) == t
    ensures ValidRun(c, s, [e]) && Run(c, s, [e]) == t
  {
    hide Step, Enabled;
    assert [e][1..] == [];
    assert ValidRun(c, t, []);
  }

  lemma Four(c: Config, s0: State, e1: Event, s1: State, e2: Event, s2: State, e3: Event, s3: State, e4: Event,
             s4: State)
    requires Enabled(s0, e1) && Step(c, s0, e1) == s1 && Enabled(s1, e2) && Step(c, s1, e2) == s2
    requires Enabled(s2, e3) && Step(c, s2, e3) == s3 && Enabled(s3, e4) && Step(c, s3, e4) == s4
    ensures ValidRun(c, s0, [e1, e2, e3, e4]) && Run(c, s0, [e1, e2, e3, e4]) == s4
  {
    hide Step, Enabled, Run, ValidRun;
    One(c, s0, e1, s1);
    One(c, s1, e2, s2);
    One(c, s2, e3, s3);
    One(c, s3, e4, s4);
    RunJoin(c, s2, [e3], [e4]);
    RunJoin(c, s1, [e2], [e3] + [e4]);
    RunJoin(c, s0, [e1], [e2] + ([e3] + [e4]));
    assert [e1] + ([e2] + ([e3] + [e4])) == [e1, e2, e3, e4];
  }

  ghost function Accepting(thread: nat): seq<Event> {
    [Load(thread), CompareExchange(thread), TakeId(thread), CountSession(thread)]
  }

  ghost function Joined(s: State): State {
    s.(sessionCount := s.sessionCount + 1, nextSession := s.nextSession + 1, accepted := s.accepted + 1,
       h := s.h.(open := s.h.open + {s.nextSession}, counts := s.h.counts[s.nextSession := 0]))
  }

  lemma AcceptRun(c: Config, s: State, thread: nat)
    requires s.h.acceptors == map[] && s.sessionCount < c.maxSessions
    ensures ValidRun(c, s, Accepting(thread)) && Run(c, s, Accepting(thread)) == Joined(s)
  {
    var s1 := LoadCount(c, s, thread);
    var s2 := Exchange(s1, thread);
    var s3 := Name(s2, thread);
    assert s3.h.acceptors - {thread} == s.h.acceptors;
    assert Admit(s3, thread) == Joined(s);
    Four(c, s, Load(thread), s1, CompareExchange(thread), s2, TakeId(thread), s3, CountSession(thread), Joined(s));
  }

  ghost function Matching(token: Token): seq<Event> {
    [BeginPair(1), FinishPair(1, true, token, 1, 0), BeginPair(2), FinishPair(2, false, token, 2, 0)]
  }

  /** Two sessions that have not paired yet. */
  ghost predicate TwoIdle(s: State) {
    && 1 in s.h.open && 2 in s.h.open && s.h.busy == {} && s.h.matches == [] && s.h.marked == {}
    && 1 in s.h.counts && 2 in s.h.counts && s.h.counts[1] == 0 && s.h.counts[2] == 0
    && s.pairing == map[] && s.active == map[]
  }

  lemma MatchRun(c: Config, s: State, token: Token)
    requires c.maxPairingsPerSession >= 1 && TwoIdle(s)
    ensures ValidRun(c, s, Matching(token))
    ensures var t := Run(c, s, Matching(token));
            && 1 in t.h.open && t.h.busy == {} && t.h.marked == {} && t.active == map[]
            && |t.h.matches| == 1 && t.h.matches[0].token == token && t.h.matches[0].first.session == 1
  {
    var e2, e4 := FinishPair(1, true, token, 1, 0), FinishPair(2, false, token, 2, 0);
    var s1 := Begin(c, s, 1);
    var s2 := Finish(s1, e2);
    assert s2.pairing == map[token := NO_LINKS.With(true, Some(NewLink(s1, e2)))];
    assert s2.h.busy == {};
    var s3 := Begin(c, s2, 2);
    var s4 := Finish(s3, e4);
    assert s4.h.busy == {};
    Four(c, s, BeginPair(1), s1, e2, s2, BeginPair(2), s3, e4, s4);
  }

  ghost function Leaving(): seq<Event> {
    [Release(1), ReleasePending(1), ReleaseActive(1), MarkActive(0)]
  }

  lemma LeaveRun(c: Config, s: State)
    requires 1 in s.h.open && s.h.busy == {} && s.h.marked == {} && s.active == map[]
    requires |s.h.matches| == 1 && s.h.matches[0].first.session == 1
    ensures ValidRun(c, s, Leaving()) && Naming(Run(c, s, Leaving()).active, 1) == {s.h.matches[0].token}
  {
    var s1 := BeginRelease(s, 1);
    var s2 := ClearPending(s1, 1);
    var s3 := ClearActive(s2, 1);
    var s4 := Mark(s3, 0);
    assert s3.active == map[] && s3.h.matches == s.h.matches;
    Four(c, s, Release(1), s1, ReleasePending(1), s2, ReleaseActive(1), s3, MarkActive(0), s4);
  }

  /** A run that leaves a released session in the active table: two sessions match, one of them is
      released, and only then are their streams registered. */
  lemma ReleasedNamedAgain(c: Config, token: Token)
    requires c.maxSessions >= 2 && c.maxPairingsPerSession >= 1
    ensures var es := Accepting(0) + Accepting(0) + Matching(token) + Leaving();
            && ValidRun(c, INITIAL, es) && es[14] == ReleaseActive(1)
            && Naming(Run(c, INITIAL, es).active, 1) == {token}
  {
    hide Run, ValidRun;
    var s1 := Joined(INITIAL);
    var s2 := Joined(s1);
    AcceptRun(c, INITIAL, 0);
    AcceptRun(c, s1, 0);
    RunJoin(c, INITIAL, Accepting(0), Accepting(0));
    assert TwoIdle(s2);
    MatchRun(c, s2, token);
    RunJoin(c, INITIAL, Accepting(0) + Accepting(0), Matching(token));
    LeaveRun(c, Run(c, s2, Matching(token)));
    RunJoin(c, INITIAL, Accepting(0) + Accepting(0) + Matching(token), Leaving());
  }

  // ---------------------------------------------------------------- the active counter

  /** The step registers a match on a token that is still registered. */
  ghost predicate Overwrites(s: State, e: Event) {
    e.MarkActive? && e.index < |s.h.matches| && s.h.matches[e.index].token in s.active
  }

  ghost function Overwritten(c: Config, s: State, es: seq<Event>): nat
    requires ValidRun(c, s, es)
    decreases |es|
  {
    if es == [] then 0
    else (if Overwrites(s, es[0]) then 1 else 0) + Overwritten(c, Step(c, s, es[0]), es[1..])
  }

  /** Registrations that are neither in the table nor were signalled. */
  ghost function Lost(s: State): int {
    |s.h.marked| - |s.active| - |s.h.signals|
  }

  lemma StepLost(c: Config, s: State, e: Event)
    requires Enabled(s, e)
    ensures Lost(Step(c, s, e)) == Lost(s) + if Overwrites(s, e) then 1 else 0
  {
    match e
    case MarkActive(k) =>
      NewElement(s.h.marked, k);
      GrowsBy(s.active, s.h.matches[k].token, Registered(s.h.matches[k]));
    case UnpairActive(t) =>
      if t in s.active {
        RemoveKeys(s.active, {t});
      }
    case ReleaseActive(i) =>
      var gone := Naming(s.active, i);
      RemoveKeys(s.active, gone);
      SignalCount(s.active, gone);
    case _ => SameLost(c, s, e);
  }

  lemma SameLost(c: Config, s: State, e: Event)
    requires Enabled(s, e) && !e.MarkActive? && !e.UnpairActive? && !e.ReleaseActive?
    ensures var t := Step(c, s, e); t.active == s.active && t.h.marked == s.h.marked && t.h.signals == s.h.signals
  {
  }

  lemma GrowsBy<K, V>(m: map<K, V>, k: K, v: V)
    ensures |m[k := v]| == if k in m then |m| else |m| + 1
  {
    assert m[k := v].Keys == m.Keys + {k};
    if k in m {
      assert m.Keys + {k} == m.Keys;
    }
  }

  lemma {:induction false} RunLost(c: Config, s: State, es: seq<Event>)
    requires ValidRun(c, s, es)
    ensures Lost(Run(c, s, es)) == Lost(s) + Overwritten(c, s, es)
    decreases |es|
  {
    hide Lost, Step, Enabled, Overwrites;
    if es != [] {
      StepLost(c, s, es[0]);
      RunLost(c, Step(c, s, es[0]), es[1..]);
    }
  }

  /** After every run the counter of active pairings exceeds the table by exactly the matches not
      registered yet and the registrations that were overwritten. */
  lemma ActiveCountExact(c: Config, es: seq<Event>)
    requires ValidRun(c, INITIAL, es)
    ensures var s := Run(c, INITIAL, es);
            s.activeCount - |s.active| == |s.h.matches| - |s.h.marked| + Overwritten(c, INITIAL, es)
  {
    RunLost(c, INITIAL, es);
    hide Run, ValidRun, Overwritten;
    RelayLimits(c, es);
    PairingConservation(c, es);
  }
}
