/** How a query sends: the newest pending node first, with at most three requests in flight while
    it is slow, and never below its limit while nodes are pending. */
module QueryPace {
  import opened Options
  import opened RoutingTable
  import opened QuerySpec
  import opened QueryClosest
  import opened QueryRuns
  import opened QueryOffers
  import opened QueryOrigins

  type Event = QueryRuns.Event

  /** Requests in flight that a query aims for. */
  ghost function Aim(c: Config, slow: bool): nat {
    if slow && c.concurrency > 3 then 3 else c.concurrency
  }

  ghost function Max(a: int, b: int): int {
    if a >= b then a else b
  }

  // ---------------------------------------------------------------- one step

  /** From `s` to `t` requests were sent up to the limit, and all of it used if nodes are left. */
  ghost predicate Fills(s: State, t: State, limit: nat) {
    && t.slowdown == s.slowdown && t.inflight <= Max(s.inflight, limit)
    && (t.pending != [] ==> t.inflight >= limit)
  }

  lemma {:induction false} PumpFills(c: Config, s: State, limit: nat)
    ensures Fills(s, Pump(c, s, limit), limit)
    decreases |s.pending|
  {
    hide IsCloser;
    if s.inflight < limit && s.pending != [] {
      PumpFills(c, PopOne(c, s), limit);
    }
  }

  /** The requests for popped nodes, the last of them first, without those not nearer than the
      k-th kept reply. */
  ghost function Asks(c: Config, closest: seq<Reply>, nodes: seq<QueryNode>): seq<Request> {
    if nodes == [] then []
    else
      Asks(c, closest, nodes[1..]) + (if IsCloser(c, closest, nodes[0].id) then [QueryRequest(nodes[0].peer)] else [])
  }

  lemma {:induction false} AsksSnoc(c: Config, closest: seq<Reply>, nodes: seq<QueryNode>, n: QueryNode)
    ensures Asks(c, closest, nodes + [n]) ==
            (if IsCloser(c, closest, n.id) then [QueryRequest(n.peer)] else []) + Asks(c, closest, nodes)
    decreases |nodes|
  {
    hide IsCloser;
    if nodes == [] {
      assert nodes + [n] == [n] && [n][1..] == [];
    } else {
      assert (nodes + [n])[1..] == nodes[1..] + [n];
      AsksSnoc(c, closest, nodes[1..], n);
    }
  }

  /** From `s` to `t` the pending nodes from m on were taken, the newest first. */
  ghost predicate Popped(c: Config, s: State, t: State, limit: nat, m: nat) {
    && m <= |s.pending| && t.pending == s.pending[..m]
    && t.sent == s.sent + Asks(c, s.closest, s.pending[m..])
    && t.inflight == s.inflight + |Asks(c, s.closest, s.pending[m..])|
    && (m == 0 || t.inflight >= limit)
    && (m < |s.pending| ==> s.inflight + |Asks(c, s.closest, s.pending[m + 1..])| < limit)
  }

  lemma AsksLast(c: Config, closest: seq<Reply>, pending: seq<QueryNode>, m: nat)
    requires m < |pending|
    ensures var n := |pending| - 1;
            Asks(c, closest, pending[m..]) ==
            (if IsCloser(c, closest, pending[n].id) then [QueryRequest(pending[n].peer)] else []) +
            Asks(c, closest, pending[..n][m..])
  {
    var n := |pending| - 1;
    assert pending[m..] == pending[..n][m..] + [pending[n]];
    AsksSnoc(c, closest, pending[..n][m..], pending[n]);
  }

  lemma AsksNothing(c: Config, closest: seq<Reply>, pending: seq<QueryNode>)
    ensures Asks(c, closest, pending[|pending|..]) == []
  {
  }

  lemma PoppedOne(c: Config, s: State, s1: State, t: State, limit: nat, m: nat)
    requires s.inflight < limit && s.pending != [] && Popped(c, s1, t, limit, m)
    requires var n := |s.pending| - 1;
             var asked := if IsCloser(c, s.closest, s.pending[n].id) then [QueryRequest(s.pending[n].peer)] else [];
             && s1.pending == s.pending[..n] && s1.closest == s.closest
             && s1.sent == s.sent + asked && s1.inflight == s.inflight + |asked|
    ensures Popped(c, s, t, limit, m)
  {
    hide IsCloser, Asks;
    var n := |s.pending| - 1;
    AsksLast(c, s.closest, s.pending, m);
    if m < n {
      AsksLast(c, s.closest, s.pending, m + 1);
    } else {
      AsksNothing(c, s.closest, s.pending);
    }
    assert t.pending == s.pending[..m];
    assert t.sent == s.sent + Asks(c, s.closest, s.pending[m..]);
  }

  lemma PopsOne(c: Config, s: State)
    requires s.pending != []
    ensures var n := |s.pending| - 1;
            var asked := if IsCloser(c, s.closest, s.pending[n].id) then [QueryRequest(s.pending[n].peer)] else [];
            var s1 := PopOne(c, s);
            && s1.pending == s.pending[..n] && s1.closest == s.closest
            && s1.sent == s.sent + asked && s1.inflight == s.inflight + |asked|
  {
    hide IsCloser;
  }

  /** Sending takes pending nodes from the newest on, asks each that is nearer than the k-th kept
      reply, drops the others, and stops exactly at the limit or when none is left. */
  lemma {:induction false} PumpOrder(c: Config, s: State, limit: nat) returns (m: nat)
    ensures Popped(c, s, Pump(c, s, limit), limit, m)
    decreases |s.pending|
  {
    hide IsCloser;
    if s.inflight < limit && s.pending != [] {
      hide Popped;
      m := PumpOrder(c, PopOne(c, s), limit);
      PopsOne(c, s);
      PoppedOne(c, s, PopOne(c, s), Pump(c, s, limit), limit, m);
    } else {
      m := |s.pending|;
      assert s.pending[m..] == [] && s.pending[..m] == s.pending;
    }
  }

  /** What sending does once an outcome is in: the mode no longer changes. */
  lemma PumpAndSlowFills(c: Config, s: State)
    requires s.fromTable || s.successes + s.errors >= 1
    ensures Fills(s, PumpAndSlow(c, s), Aim(c, s.slowdown))
  {
    hide Pump;
    PumpFills(c, s, EffectiveConcurrency(c, s));
    PumpSame(c, s, EffectiveConcurrency(c, s));
  }

  ghost predicate Paced(c: Config, s: State, t: State) {
    && t.slowdown == s.slowdown && t.inflight <= Max(s.inflight, Aim(c, s.slowdown))
    && (!t.committing && t.pending != [] ==> t.inflight >= Aim(c, s.slowdown))
  }

  lemma FlushQuiet(c: Config, s: State)
    ensures Flush(c, s).slowdown == s.slowdown && Flush(c, s).inflight == s.inflight
    ensures Flush(c, s).committing
  {
    hide Commits;
  }

  lemma TableQuiet(c: Config, s: State, view: seq<Node>)
    ensures var t := AddFromTable(c, s, view);
            t.slowdown == s.slowdown && t.inflight == s.inflight && t.committing == s.committing
    ensures |s.pending| < c.k ==> AddFromTable(c, s, view).fromTable
  {
    if |s.pending| < c.k {
      var nodes := AsQueryNodes(Take(view, c.k - |s.pending|));
      AddAllGrows(c, s.(fromTable := true), nodes, nodes);
    }
    hide AddAll;
  }

  lemma ReadMorePaced(c: Config, s: State, view: seq<Node>)
    requires c.k >= 1 && !s.committing && (s.fromTable || s.successes + s.errors >= 1)
    ensures Paced(c, s, ReadMore(c, s, view)) || s.finished
  {
    hide PumpAndSlow, Flush, AddFromTable;
    var s1 := PumpAndSlow(c, s);
    PumpAndSlowFills(c, s);
    DriveSame(c, s);
    FlushQuiet(c, s1);
    if s1.pending == [] && s1.inflight == 0 && !s1.fromTable && s1.successes < c.k / 4 {
      var s2 := AddFromTable(c, s1, view);
      TableQuiet(c, s1, view);
      FlushQuiet(c, s2);
      PumpAndSlowFills(c, s2);
      FlushQuiet(c, PumpAndSlow(c, s2));
    }
  }

  lemma RespondPaced(c: Config, s: State, data: Response, view: seq<Node>)
    requires ConfigOk(c) && IsTopK(c, s.closest, s.heard) && !s.committing && !s.finished && s.inflight >= 1
    ensures var t := OnResponse(c, s, data, view);
            var slow := s.slowdown && !(!s.fromTable && t.successes + t.errors >= c.concurrency);
            && t.slowdown == slow && t.inflight <= Max(s.inflight - 1, Aim(c, slow))
            && (!t.committing && t.pending != [] ==> t.inflight >= Aim(c, slow))
  {
    hide IsTopK, ReadMore, AddCloser, Learn;
    var s2 := Heeded(c, s, data);
    HeededCounts(c, s, data);
    HeededQuiet(c, s, data);
    var cut := AddCloserTakes(c, s2, data.closer, data.from);
    var s3 := AddCloser(c, s2, data.closer, data.from);
    ReadMorePaced(c, Unslow(c, s3), view);
    ReadMoreGrows(c, Unslow(c, s3), view);
    hide Grows, GrowsBy, Offers, Suggestions;
  }

  lemma HeededQuiet(c: Config, s: State, data: Response)
    requires s.inflight >= 1
    ensures var t := Heeded(c, s, data);
            t.slowdown == s.slowdown && t.inflight == s.inflight - 1 && t.finished == s.finished
  {
    hide IsCloser, PushClosest;
  }

  lemma TimeoutPaced(c: Config, s: State, asked: Peer, view: seq<Node>)
    requires ConfigOk(c) && !s.committing && !s.finished && s.inflight >= 1
    ensures var t := OnTimeout(c, s, asked, view);
            && t.slowdown == s.slowdown && t.inflight <= Max(s.inflight - 1, Aim(c, s.slowdown))
            && (!t.committing && t.pending != [] ==> t.inflight >= Aim(c, s.slowdown))
  {
    hide ReadMore, Hints;
    ReadMorePaced(c, TimedOut(s, asked), view);
  }

  /** The event ends slow mode: a reply, without the table, with enough outcomes in. */
  ghost predicate Lifts(c: Config, s: State, t: State, e: Event) {
    e.Respond? && !s.fromTable && t.successes + t.errors >= c.concurrency
  }

  /** The mode and the number in flight after an event of phase 1. */
  lemma StepPaced(c: Config, w: World, e: Event)
    requires ConfigOk(c) && Inv(c, w, false) && Enabled(w, e)
    ensures var s, t := w.s, Step(c, w, e).s;
            && t.slowdown == (s.slowdown && !Lifts(c, s, t, e))
            && (!e.CommitDone? ==> t.inflight <= Max(s.inflight - 1, Aim(c, t.slowdown)))
            && (!t.committing && t.pending != [] ==> t.inflight >= Aim(c, t.slowdown))
  {
    hide IsTopK, Once, Complete, Queries, OnResponse, OnTimeout, CommitsOf, Commits, NotStuck;
    match e
    case Respond(asked, data, view) =>
      OutstandingCounts(c, w, false, asked);
      RespondPaced(c, w.s, data, view);
    case Timeout(asked, view) =>
      OutstandingCounts(c, w, false, asked);
      TimeoutPaced(c, w.s, asked, view);
    case CommitDone =>
  }

  // ---------------------------------------------------------------- the start

  lemma FirstPump(c: Config, s: State)
    requires !s.slowdown && s.successes == 0 && s.errors == 0
    ensures var t := PumpAndSlow(c, s);
            && t.slowdown == !s.fromTable && t.inflight <= Max(s.inflight, c.concurrency)
            && (t.pending != [] ==> t.inflight >= c.concurrency)
  {
    hide Pump;
    PumpFills(c, s, EffectiveConcurrency(c, s));
    PumpSame(c, s, EffectiveConcurrency(c, s));
  }

  lemma FirstReadMore(c: Config, s: State, view: seq<Node>)
    requires c.k >= 1 && !s.committing && !s.finished && !s.slowdown && s.successes == 0 && s.errors == 0
    requires s.inflight == 0
    ensures var t := ReadMore(c, s, view);
            && t.slowdown == !s.fromTable && t.inflight <= c.concurrency
            && (!t.committing && t.pending != [] ==> t.inflight >= Aim(c, t.slowdown))
  {
    hide PumpAndSlow, Flush, AddFromTable;
    var s1 := PumpAndSlow(c, s);
    FirstPump(c, s);
    DriveSame(c, s);
    FlushQuiet(c, s1);
    if s1.pending == [] && s1.inflight == 0 && !s1.fromTable && s1.successes < c.k / 4 {
      var s2 := AddFromTable(c, s1, view);
      TableQuiet(c, s1, view);
      FlushQuiet(c, s2);
      PumpAndSlowFills(c, s2);
      FlushQuiet(c, PumpAndSlow(c, s2));
    }
  }

  lemma SeededQuiet(c: Config, view: Option<seq<Node>>, nodes: seq<QueryNode>)
    ensures var s := Seeded(c, view, nodes);
            !s.slowdown && !s.finished && s.inflight == 0
  {
    var s1 := if view.Some? then AddFromTable(c, INITIAL, view.value) else INITIAL;
    if view.Some? {
      TableQuiet(c, INITIAL, view.value);
      TableOpen(c, view.value);
    }
    AddAllGrows(c, s1, nodes, nodes);
    hide AddFromTable, AddAll;
  }

  lemma TableOpen(c: Config, view: seq<Node>)
    ensures !AddFromTable(c, INITIAL, view).finished
  {
    if 0 < c.k {
      var nodes := AsQueryNodes(Take(view, c.k));
      AddAllGrows(c, INITIAL.(fromTable := true), nodes, nodes);
    }
    hide AddAll;
  }

  // ---------------------------------------------------------------- runs

  lemma {:induction false} RunSnoc(c: Config, w: World, es: seq<Event>, e: Event)
    requires ValidRun(c, w, es + [e])
    ensures ValidRun(c, w, es) && Enabled(Run(c, w, es), e) && Run(c, w, es + [e]) == Step(c, Run(c, w, es), e)
    decreases |es|
  {
    hide Step, Enabled;
    if es == [] {
      assert es + [e] == [e] && [e][1..] == [];
    } else {
      assert (es + [e])[0] == es[0] && (es + [e])[1..] == es[1..] + [e];
      RunSnoc(c, Step(c, w, es[0]), es[1..], e);
    }
  }

  /** The k-th event of a run ends slow mode: a reply that comes before the query turns to the
      table, when answers and failures together reach the concurrency. */
  ghost predicate LiftsAt(c: Config, w: World, es: seq<Event>, k: nat) {
    && k < |es| && es[k].Respond? && !Run(c, w, es[..k]).s.fromTable
    && AnswersIn(es[..k + 1]) + FailuresIn(es[..k + 1]) >= c.concurrency
  }

  /** A query begun without the table is slow until that. */
  ghost predicate Slow(c: Config, view: Option<seq<Node>>, w: World, es: seq<Event>) {
    view.None? && forall k: nat :: !LiftsAt(c, w, es, k)
  }

  lemma SlowSnoc(c: Config, view: Option<seq<Node>>, w: World, es: seq<Event>, e: Event)
    ensures Slow(c, view, w, es + [e]) <==> Slow(c, view, w, es) && !LiftsAt(c, w, es + [e], |es|)
  {
    hide Run, AnswersIn, FailuresIn;
    var es' := es + [e];
    forall k: nat | k < |es|
      ensures LiftsAt(c, w, es', k) <==> LiftsAt(c, w, es, k)
    {
      assert es'[k] == es[k] && es'[..k] == es[..k] && es'[..k + 1] == es[..k + 1];
    }
  }

  ghost predicate CountedIn(w: World, es: seq<Event>) {
    w.s.successes == AnswersIn(es) && w.s.errors == FailuresIn(es)
  }

  /** One more event of a run. */
  lemma PaceNext(c: Config, view: Option<seq<Node>>, w0: World, w: World, es: seq<Event>, e: Event)
    requires ConfigOk(c) && Inv(c, w, false) && Enabled(w, e) && w == Run(c, w0, es)
    requires w.s.slowdown <==> Slow(c, view, w0, es)
    requires CountedIn(Step(c, w, e), es + [e])
    ensures var t := Step(c, w, e).s;
            && (t.slowdown <==> Slow(c, view, w0, es + [e]))
            && t.slowdown == (w.s.slowdown && !Lifts(c, w.s, t, e))
            && (!e.CommitDone? ==> t.inflight <= Max(w.s.inflight - 1, Aim(c, t.slowdown)))
            && (!t.committing && t.pending != [] ==> t.inflight >= Aim(c, t.slowdown))
  {
    hide Inv, Run, Enabled, Step, Slow, Aim, AnswersIn, FailuresIn;
    StepPaced(c, w, e);
    SlowSnoc(c, view, w0, es, e);
    var es' := es + [e];
    assert es'[|es|] == e && es'[..|es|] == es && es'[..|es| + 1] == es';
  }

  lemma PaceStart(c: Config, view: Option<seq<Node>>, nodes: seq<QueryNode>, view': seq<Node>)
    requires ConfigOk(c)
    ensures var w0 := Start(c, view, nodes, view');
            && (w0.s.slowdown <==> Slow(c, view, w0, []))
            && (!w0.s.committing && w0.s.pending != [] ==> w0.s.inflight >= Aim(c, w0.s.slowdown))
  {
    hide IsCloser, Seeded, ReadMore, Grows, AsQueryNodes, SeedsKnown, Run;
    var w0 := Start(c, view, nodes, view');
    SeededQuiet(c, view, nodes);
    SeededGrows(c, view, nodes, view');
    FromNothing(c, Seeded(c, view, nodes), Given(view, nodes, view'));
    FirstReadMore(c, Seeded(c, view, nodes), view');
    assert forall k: nat :: !LiftsAt(c, w0, [], k);
  }

  lemma FromNothing(c: Config, s: State, given: seq<QueryNode>)
    requires Grows(INITIAL, s, given)
    ensures s.successes == 0 && s.errors == 0
  {
  }

  /** In every run the query is slow exactly if it began without the table and no reply has ended
      that; and before the commits, as long as nodes are pending, at least its aim is in flight:
      three requests while it is slow, or its concurrency. */
  lemma {:induction false} PaceExact(c: Config, view: Option<seq<Node>>, nodes: seq<QueryNode>, view': seq<Node>,
                                     es: seq<Event>)
    requires ConfigOk(c) && ValidRun(c, Start(c, view, nodes, view'), es)
    ensures var w0 := Start(c, view, nodes, view');
            var s := Run(c, w0, es).s;
            && (s.slowdown <==> Slow(c, view, w0, es))
            && (!s.committing && s.pending != [] ==> s.inflight >= Aim(c, Slow(c, view, w0, es)))
    decreases |es|
  {
    hide Start, Enabled, Step, Inv, Slow, Aim, Lifts, QueryRuns.Rank, HeardIn, AnswersIn, FailuresIn;
    var w0 := Start(c, view, nodes, view');
    if es == [] {
      PaceStart(c, view, nodes, view');
    } else {
      var n := |es| - 1;
      assert es == es[..n] + [es[n]];
      RunSnoc(c, w0, es[..n], es[n]);
      CountsAt(c, view, nodes, view', es);
      hide Run, ValidRun;
      PaceExact(c, view, nodes, view', es[..n]);
      StartInv(c, view, nodes, view', false);
      RunInv(c, w0, es[..n], false);
      PaceNext(c, view, w0, Run(c, w0, es[..n]), es[..n], es[n]);
    }
  }

  lemma CountsAt(c: Config, view: Option<seq<Node>>, nodes: seq<QueryNode>, view': seq<Node>, es: seq<Event>)
    requires ConfigOk(c) && ValidRun(c, Start(c, view, nodes, view'), es)
    ensures var s := Run(c, Start(c, view, nodes, view'), es).s;
            s.successes == AnswersIn(es) && s.errors == FailuresIn(es)
  {
    hide Start, Run, ValidRun;
    var cuts := QueryTracked(c, view, nodes, view', es);
  }

  /** And in every run an event lets requests out only up to the aim. */
  lemma PaceKept(c: Config, view: Option<seq<Node>>, nodes: seq<QueryNode>, view': seq<Node>, es: seq<Event>, e: Event)
    requires ConfigOk(c) && ValidRun(c, Start(c, view, nodes, view'), es + [e]) && !e.CommitDone?
    ensures var w0 := Start(c, view, nodes, view');
            var s, t := Run(c, w0, es).s, Run(c, w0, es + [e]).s;
            t.inflight <= Max(s.inflight - 1, Aim(c, Slow(c, view, w0, es + [e])))
  {
    hide Start, Run, ValidRun, Enabled, Step, Inv, Slow, Aim, Lifts, QueryRuns.Rank, HeardIn, AnswersIn, FailuresIn;
    var w0 := Start(c, view, nodes, view');
    RunSnoc(c, w0, es, e);
    CountsAt(c, view, nodes, view', es + [e]);
    PaceExact(c, view, nodes, view', es);
    StartInv(c, view, nodes, view', false);
    RunInv(c, w0, es, false);
    PaceNext(c, view, w0, Run(c, w0, es), es, e);
  }
}
