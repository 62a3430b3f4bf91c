/** A query whose requests are handed to the I/O layer, which cannot create all of them: exactly
    when the query comes to its end. */
module QueryDispatch {
  import opened Options
  import opened QuerySpec
  import opened QueryClosest
  import opened QueryRuns
  import Table = RoutingTable

  /** Which requests can be created: their address parses and their message encodes. */
  type Creates = Request -> bool

  /** A query in its environment, with the number of its commits that were answered or timed out. */
  datatype Client = Client(w: World, done: nat)

  ghost function Created(rs: seq<Request>, creates: Creates): nat {
    if rs == [] then 0 else Created(rs[..|rs| - 1], creates) + if creates(rs[|rs| - 1]) then 1 else 0
  }

  /** Only a request that was created can be answered or time out. */
  ghost predicate Possible(creates: Creates, n: Client, e: Event) {
    match e
    case Respond(asked, _, _) => Outstanding(n.w.s, n.w.resolved, asked) && creates(QueryRequest(asked))
    case Timeout(asked, _) => Outstanding(n.w.s, n.w.resolved, asked) && creates(QueryRequest(asked))
    case CommitDone => n.done < Created(CommitsOf(n.w.s.sent), creates)
  }

  ghost function Next(c: Config, n: Client, e: Event): Client {
    Client(Step(c, n.w, e), if e.CommitDone? then n.done + 1 else n.done)
  }

  ghost predicate ValidDispatch(c: Config, creates: Creates, n: Client, es: seq<Event>)
    decreases |es|
  {
    es != [] ==> Possible(creates, n, es[0]) && ValidDispatch(c, creates, Next(c, n, es[0]), es[1..])
  }

  ghost function Dispatch(c: Config, n: Client, es: seq<Event>): Client
    decreases |es|
  {
    if es == [] then n else Dispatch(c, Next(c, n, es[0]), es[1..])
  }

  // ---------------------------------------------------------------- counting commits

  lemma {:induction false} CreatedAll(rs: seq<Request>, creates: Creates)
    ensures Created(rs, creates) <= |rs|
    ensures Created(rs, creates) == |rs| <==> forall i :: 0 <= i < |rs| ==> creates(rs[i])
  {
    if rs != [] {
      CreatedAll(rs[..|rs| - 1], creates);
    }
  }

  /** What is outstanding when the commits go out. */
  ghost predicate CommitsOut(c: Config, s: State) {
    && (s.committing && c.commit ==> s.commitInflight == |Commits(s.closest)|)
    && (s.committing && !c.commit ==> s.finished)
  }

  lemma FlushOut(c: Config, s: State)
    requires !s.committing && !s.finished && s.commitInflight == 0
    ensures CommitsOut(c, Flush(c, s)) && (!c.commit ==> Flush(c, s).commitInflight == 0)
  {
  }

  lemma ReadMoreOut(c: Config, s: State, view: seq<Table.Node>)
    requires !s.committing && !s.finished && s.commitInflight == 0
    ensures CommitsOut(c, ReadMore(c, s, view)) && (!c.commit ==> ReadMore(c, s, view).commitInflight == 0)
  {
    hide Flush, Pump, AddAll;
    var s1 := PumpAndSlow(c, s);
    PumpOut(c, s);
    FlushOut(c, s1);
    if s1.pending == [] && s1.inflight == 0 && !s1.fromTable && s1.successes < c.k / 4 {
      var s2 := AddFromTable(c, s1, view);
      AddOut(c, s1, view);
      FlushOut(c, s2);
      PumpOut(c, s2);
      FlushOut(c, PumpAndSlow(c, s2));
    }
  }

  lemma PumpOut(c: Config, s: State)
    ensures var t := PumpAndSlow(c, s);
            t.committing == s.committing && t.finished == s.finished && t.commitInflight == s.commitInflight
  {
    PumpKeepsCommits(c, s, EffectiveConcurrency(c, s));
  }

  lemma {:induction false} PumpKeepsCommits(c: Config, s: State, limit: nat)
    ensures var t := Pump(c, s, limit);
            t.committing == s.committing && t.finished == s.finished && t.commitInflight == s.commitInflight
    decreases |s.pending|
  {
    if s.inflight < limit && s.pending != [] {
      var n := |s.pending| - 1;
      var s1 := s.(pending := s.pending[..n]);
      hide IsCloser;
      PumpKeepsCommits(c, Emit(s1.(inflight := s.inflight + 1), QueryRequest(s.pending[n].peer)), limit);
      PumpKeepsCommits(c, s1, limit);
    }
  }

  lemma AddOut(c: Config, s: State, view: seq<Table.Node>)
    ensures var t := AddFromTable(c, s, view);
            t.committing == s.committing && t.finished == s.finished && t.commitInflight == s.commitInflight
  {
    if |s.pending| < c.k {
      AddAllKeepsCommits(c, s.(fromTable := true), AsQueryNodes(Table.Take(view, c.k - |s.pending|)));
    }
  }

  lemma {:induction false} AddAllKeepsCommits(c: Config, s: State, nodes: seq<QueryNode>)
    ensures var t := AddAll(c, s, nodes);
            t.committing == s.committing && t.finished == s.finished && t.commitInflight == s.commitInflight
    decreases |nodes|
  {
    if nodes != [] {
      AddAllKeepsCommits(c, AddPending(c, s, nodes[0], None).0, nodes[1..]);
    }
  }

  lemma {:induction false} AddCloserKeepsCommits(c: Config, s: State, peers: seq<Table.Peer>, from: Table.Peer)
    ensures var t := AddCloser(c, s, peers, from);
            t.committing == s.committing && t.finished == s.finished && t.commitInflight == s.commitInflight
    decreases |peers|
  {
    if peers != [] {
      hide IsCloser;
      AddCloserKeepsCommits(c, s, peers[1..], from);
      AddCloserKeepsCommits(c, AddPending(c, s, QueryNode(c.idOf(peers[0]), peers[0]), Some(from)).0, peers[1..], from);
    }
  }

  lemma RespondOut(c: Config, s: State, data: Response, view: seq<Table.Node>)
    requires !s.committing && !s.finished && s.commitInflight == 0
    ensures var t := OnResponse(c, s, data, view); CommitsOut(c, t) && (!c.commit ==> t.commitInflight == 0)
  {
    hide AddCloser, ReadMore, IsCloser, PushClosest;
    var s2 := Learn(c, Accept(Resolve(s, data.from, Done), data), data);
    AddCloserKeepsCommits(c, s2, data.closer, data.from);
    ReadMoreOut(c, Unslow(c, AddCloser(c, s2, data.closer, data.from)), view);
  }

  lemma TimeoutOut(c: Config, s: State, to: Table.Peer, view: seq<Table.Node>)
    requires !s.committing && !s.finished && s.commitInflight == 0
    ensures var t := OnTimeout(c, s, to, view); CommitsOut(c, t) && (!c.commit ==> t.commitInflight == 0)
  {
    hide ReadMore;
    ReadMoreOut(c, TimedOut(s, to), view);
  }

  // ---------------------------------------------------------------- every run

  ghost predicate DispatchInv(c: Config, creates: Creates, n: Client) {
    && Inv(c, n.w, false)
    && (forall p :: p in n.w.resolved ==> creates(QueryRequest(p)))
    && n.done <= Created(CommitsOf(n.w.s.sent), creates)
    && (n.w.s.committing && c.commit ==> n.w.s.commitInflight + n.done == |CommitsOf(n.w.s.sent)|)
    && (n.w.s.committing && !c.commit ==> n.w.s.finished)
    && (!n.w.s.committing ==> n.done == 0)
  }

  /** What the invariant of the query says about commits. */
  lemma Committed(c: Config, w: World)
    requires Inv(c, w, false)
    ensures CommitsOf(w.s.sent) == if w.s.committing && c.commit then Commits(w.s.closest) else []
    ensures !w.s.committing ==> w.s.commitInflight == 0
    ensures w.s.finished ==> w.s.committing && w.s.commitInflight == 0
  {
    hide IsTopK, Once, Complete, HintsOk, AllWaiting, NotStuck;
  }

  lemma QueryStepInv(c: Config, creates: Creates, n: Client, e: Event)
    requires ConfigOk(c) && DispatchInv(c, creates, n) && Possible(creates, n, e) && !e.CommitDone?
    ensures Enabled(n.w, e) && DispatchInv(c, creates, Next(c, n, e))
  {
    hide Inv, Commits, CommitsOf, OnResponse, OnTimeout, Outstanding;
    OutstandingCounts(c, n.w, false, e.asked);
    Committed(c, n.w);
    StepInv(c, n.w, false, e);
    Committed(c, Step(c, n.w, e));
    match e
    case Respond(_, data, view) => RespondOut(c, n.w.s, data, view);
    case Timeout(asked, view) => TimeoutOut(c, n.w.s, asked, view);
  }

  lemma CommitStepInv(c: Config, creates: Creates, n: Client)
    requires ConfigOk(c) && DispatchInv(c, creates, n) && Possible(creates, n, CommitDone)
    ensures Enabled(n.w, CommitDone) && DispatchInv(c, creates, Next(c, n, CommitDone))
  {
    hide Inv, Commits, CommitsOf;
    Committed(c, n.w);
    CreatedAll(CommitsOf(n.w.s.sent), creates);
    StepInv(c, n.w, false, CommitDone);
  }

  lemma {:induction false} DispatchRunInv(c: Config, creates: Creates, n: Client, es: seq<Event>)
    requires ConfigOk(c) && DispatchInv(c, creates, n) && ValidDispatch(c, creates, n, es)
    ensures DispatchInv(c, creates, Dispatch(c, n, es))
    ensures ValidRun(c, n.w, es) && Dispatch(c, n, es).w == Run(c, n.w, es)
    decreases |es|
  {
    hide DispatchInv, Possible, Enabled, Step;
    if es != [] {
      if es[0].CommitDone? {
        CommitStepInv(c, creates, n);
      } else {
        QueryStepInv(c, creates, n, es[0]);
      }
      DispatchRunInv(c, creates, Next(c, n, es[0]), es[1..]);
    }
  }

  lemma StartDispatchInv(c: Config, creates: Creates, view: Option<seq<Table.Node>>, nodes: seq<QueryNode>,
                         view': seq<Table.Node>)
    requires ConfigOk(c)
    ensures DispatchInv(c, creates, Client(Start(c, view, nodes, view'), 0))
  {
    hide Inv, Commits, CommitsOf, ReadMore, AddAll, AddFromTable;
    StartInv(c, view, nodes, view', false);
    Committed(c, Start(c, view, nodes, view'));
    var s1 := INITIAL;
    if view.Some? {
      AddOut(c, INITIAL, view.value);
      s1 := AddFromTable(c, INITIAL, view.value);
    }
    AddAllKeepsCommits(c, s1, nodes);
    ReadMoreOut(c, AddAll(c, s1, nodes), view');
  }

  ghost predicate AllCreated(sent: seq<Request>, creates: Creates) {
    && (forall p :: p in Queries(sent) ==> creates(QueryRequest(p)))
    && (forall i :: 0 <= i < |CommitsOf(sent)| ==> creates(CommitsOf(sent)[i]))
  }

  /** In every run: a finished query had all its requests created, and one whose requests were
      all created and is not finished can go on. So where nothing can happen any more, it is
      finished exactly if every request it handed out was created, and stalls otherwise. */
  lemma QueryFinishesIff(c: Config, creates: Creates, view: Option<seq<Table.Node>>, nodes: seq<QueryNode>,
                         view': seq<Table.Node>, es: seq<Event>)
    requires ConfigOk(c) && ValidDispatch(c, creates, Client(Start(c, view, nodes, view'), 0), es)
    ensures var n := Dispatch(c, Client(Start(c, view, nodes, view'), 0), es);
            && (n.w.s.finished ==> AllCreated(n.w.s.sent, creates))
            && (AllCreated(n.w.s.sent, creates) && !n.w.s.finished ==> exists e :: Possible(creates, n, e))
            && ((forall e :: !Possible(creates, n, e)) ==>
                  (n.w.s.finished <==> AllCreated(n.w.s.sent, creates)))
  {
    hide Start, Dispatch, ValidDispatch;
    StartDispatchInv(c, creates, view, nodes, view');
    DispatchRunInv(c, creates, Client(Start(c, view, nodes, view'), 0), es);
    var n := Dispatch(c, Client(Start(c, view, nodes, view'), 0), es);
    if n.w.s.finished {
      FinishedCreated(c, creates, n);
    } else if AllCreated(n.w.s.sent, creates) {
      CreatedGoesOn(c, creates, n);
    }
  }

  lemma FinishedCreated(c: Config, creates: Creates, n: Client)
    requires DispatchInv(c, creates, n) && n.w.s.finished
    ensures AllCreated(n.w.s.sent, creates)
  {
    Idle(c, n.w);
    hide Inv, CommitsOf, Queries;
    Committed(c, n.w);
    AllResolved(c, n.w, false);
    CreatedAll(CommitsOf(n.w.s.sent), creates);
  }

  lemma Idle(c: Config, w: World)
    requires Inv(c, w, false) && w.s.finished
    ensures w.s.inflight == 0
  {
    hide IsTopK, Once, Complete, HintsOk, AllWaiting, NotStuck;
  }

  lemma CreatedGoesOn(c: Config, creates: Creates, n: Client)
    requires DispatchInv(c, creates, n) && AllCreated(n.w.s.sent, creates) && !n.w.s.finished
    ensures exists e :: Possible(creates, n, e)
  {
    Going(c, n.w);
    hide Inv, CommitsOf, Queries;
    if n.w.s.committing {
      CreatedAll(CommitsOf(n.w.s.sent), creates);
      assert Possible(creates, n, CommitDone);
    } else {
      CountsOutstanding(c, n.w, false);
      var p :| Outstanding(n.w.s, n.w.resolved, p);
      assert Possible(creates, n, Timeout(p, []));
    }
  }

  lemma Going(c: Config, w: World)
    requires Inv(c, w, false) && !w.s.finished
    ensures if w.s.committing then w.s.commitInflight >= 1 else w.s.inflight >= 1
  {
    hide IsTopK, Once, Complete, HintsOk, AllWaiting, Phases;
  }

  /** The stall happens: a query whose only node has an address for which no request can be
      created hands out one request and waits for ever. One such address is that of an IPv6
      bootstrap node, which is resolved as such and then does not parse as `host:port`. */
  lemma StallsAtOnce(c: Config, creates: Creates, node: QueryNode, view: Option<seq<Table.Node>>)
    requires ConfigOk(c) && (view.Some? ==> view.value == []) && !creates(QueryRequest(node.peer))
    ensures var n := Client(Start(c, view, [node], []), 0);
            && n.w.s.sent == [QueryRequest(node.peer)] && !n.w.s.finished
            && forall e :: !Possible(creates, n, e)
  {
    var s1 := if view.Some? then AddFromTable(c, INITIAL, view.value) else INITIAL;
    NoneTaken(c);
    hide AddFromTable, AddAll, ReadMore, Queries, CommitsOf, Created;
    OneAdded(c, s1, node);
    OneSent(c, AddAll(c, s1, [node]), node);
    QueriesOfOne(node.peer);
    NoneCreated(creates);
  }

  lemma NoneTaken(c: Config)
    ensures AddFromTable(c, INITIAL, []) == if c.k == 0 then INITIAL else INITIAL.(fromTable := true)
  {
    assert AsQueryNodes(Table.Take([], c.k)) == [];
  }

  lemma NoneCreated(creates: Creates)
    ensures Created([], creates) == 0
  {
  }

  lemma QueriesOfOne(p: Table.Peer)
    ensures Queries([QueryRequest(p)]) == [p] && CommitsOf([QueryRequest(p)]) == []
  {
    EmitOne([], QueryRequest(p));
    assert [] + [QueryRequest(p)] == [QueryRequest(p)];
  }

  lemma OneAdded(c: Config, s: State, node: QueryNode)
    requires ConfigOk(c) && s.seen == map[] && s.pending == [] && s.closest == []
    ensures AddAll(c, s, [node]) == AddPending(c, s, node, None).0
    ensures var t := AddAll(c, s, [node]);
            && t.pending == [node] && t.closest == [] && t.sent == s.sent && t.inflight == s.inflight
            && t.committing == s.committing && t.finished == s.finished && t.slowdown == s.slowdown
  {
    assert [node][1..] == [];
    assert AddAll(c, AddPending(c, s, node, None).0, []) == AddPending(c, s, node, None).0;
  }

  lemma OneSent(c: Config, s: State, node: QueryNode)
    requires ConfigOk(c) && s.pending == [node] && s.closest == [] && s.inflight == 0 && s.sent == []
    requires !s.committing && !s.finished
    ensures var t := ReadMore(c, s, []);
            t.sent == [QueryRequest(node.peer)] && !t.finished && !t.committing
  {
    var limit := EffectiveConcurrency(c, s);
    var t := Pump(c, s, limit);
    assert [node][..0] == [];
    var s1 := Emit(s.(pending := [], inflight := 1), QueryRequest(node.peer));
    assert t == Pump(c, s1, limit) == s1;
    assert s1.sent == [QueryRequest(node.peer)];
  }
}
