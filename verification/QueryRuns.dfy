/** What every run of a query keeps, and how every run ends. */
module QueryRuns {
  import opened Options
  import opened RoutingTable
  import opened QuerySpec
  import opened QueryClosest

  // ---------------------------------------------------------------- reading the history

  /** Addresses of the phase-1 requests, in order. */
  ghost function Queries(sent: seq<Request>): seq<Peer> {
    if sent == [] then []
    else
      var n := |sent| - 1;
      Queries(sent[..n]) + (if sent[n].QueryRequest? then [sent[n].to] else [])
  }

  ghost function CommitsOf(sent: seq<Request>): seq<Request> {
    if sent == [] then []
    else
      var n := |sent| - 1;
      CommitsOf(sent[..n]) + (if sent[n].CommitRequest? then [sent[n]] else [])
  }

  /** Who was told that `p` is down, in order. */
  ghost function HintsFor(sent: seq<Request>, p: Peer): seq<Peer> {
    if sent == [] then []
    else
      var n := |sent| - 1;
      HintsFor(sent[..n], p) + (if sent[n].DownHint? && sent[n].down == p then [sent[n].to] else [])
  }

  /** Who suggested `p`, in order. */
  ghost function SuggestersOf(suggested: seq<Suggestion>, p: Peer): seq<Peer> {
    if suggested == [] then []
    else
      var n := |suggested| - 1;
      SuggestersOf(suggested[..n], p) + (if suggested[n].node == p then [suggested[n].referrer] else [])
  }

  lemma EmitOne(sent: seq<Request>, r: Request)
    ensures Queries(sent + [r]) == Queries(sent) + (if r.QueryRequest? then [r.to] else [])
    ensures CommitsOf(sent + [r]) == CommitsOf(sent) + (if r.CommitRequest? then [r] else [])
    ensures forall p :: HintsFor(sent + [r], p) ==
              HintsFor(sent, p) + (if r.DownHint? && r.down == p then [r.to] else [])
  {
    assert (sent + [r])[..|sent|] == sent;
  }

  lemma SuggestOne(suggested: seq<Suggestion>, x: Suggestion)
    ensures forall p :: SuggestersOf(suggested + [x], p) ==
              SuggestersOf(suggested, p) + (if x.node == p then [x.referrer] else [])
  {
    assert (suggested + [x])[..|suggested|] == suggested;
  }

  lemma {:induction false} EmitCommits(sent: seq<Request>, closest: seq<Reply>)
    ensures Queries(sent + Commits(closest)) == Queries(sent)
    ensures CommitsOf(sent + Commits(closest)) == CommitsOf(sent) + Commits(closest)
    ensures forall p :: HintsFor(sent + Commits(closest), p) == HintsFor(sent, p)
  {
    if closest == [] {
      assert sent + Commits(closest) == sent;
    } else {
      var n := |closest| - 1;
      EmitCommits(sent, closest[..n]);
      if closest[n].token.Some? {
        var r := CommitRequest(closest[n].from, closest[n].token.value);
        EmitOne(sent + Commits(closest[..n]), r);
        assert sent + Commits(closest) == sent + Commits(closest[..n]) + [r];
      } else {
        assert Commits(closest) == Commits(closest[..n]);
      }
    }
  }

  lemma {:induction false} EmitHints(sent: seq<Request>, refs: seq<Peer>, down: Peer)
    ensures Queries(sent + Hints(refs, down)) == Queries(sent)
    ensures CommitsOf(sent + Hints(refs, down)) == CommitsOf(sent)
    ensures forall p :: HintsFor(sent + Hints(refs, down), p) == HintsFor(sent, p) + (if p == down then refs else [])
  {
    if refs == [] {
      assert sent + Hints(refs, down) == sent;
    } else {
      var n := |refs| - 1;
      EmitHints(sent, refs[..n], down);
      EmitOne(sent + Hints(refs[..n], down), DownHint(refs[n], down));
      assert sent + Hints(refs, down) == sent + Hints(refs[..n], down) + [DownHint(refs[n], down)];
      assert refs == refs[..n] + [refs[n]];
    }
  }

  // ---------------------------------------------------------------- the invariant

  ghost predicate DistinctPeers(s: seq<QueryNode>) {
    forall i, j :: 0 <= i < j < |s| ==> s[i].peer != s[j].peer
  }

  ghost predicate Distinct(s: seq<Peer>) {
    forall i, j :: 0 <= i < j < |s| ==> s[i] != s[j]
  }

  /** No address is queued or requested twice. */
  ghost predicate Once(enqueued: seq<QueryNode>, pending: seq<QueryNode>, queries: seq<Peer>, seen: set<Peer>) {
    && DistinctPeers(enqueued)
    && DistinctPeers(pending)
    && Distinct(queries)
    && (forall i :: 0 <= i < |enqueued| ==> enqueued[i].peer in seen)
    && (forall i :: 0 <= i < |queries| ==> queries[i] in seen)
    && (forall i :: 0 <= i < |pending| ==> pending[i] in enqueued && pending[i].peer !in queries)
  }

  /** A queued node is still pending, was requested, or is not nearer than the k-th kept reply. */
  ghost predicate Accounted(c: Config, closest: seq<Reply>, pending: seq<QueryNode>, queries: seq<Peer>, n: QueryNode) {
    n in pending || n.peer in queries || !IsCloser(c, closest, n.id)
  }

  ghost predicate Complete(c: Config, closest: seq<Reply>, enqueued: seq<QueryNode>, pending: seq<QueryNode>,
                           queries: seq<Peer>) {
    forall i :: 0 <= i < |enqueued| ==> Accounted(c, closest, pending, queries, enqueued[i])
  }

  /** Phase 2: commits go to exactly the kept replies that hold tokens; one result. */
  ghost predicate Phases(c: Config, s: State) {
    && |s.results| == (if s.finished then 1 else 0)
    && (s.finished ==>
          s.committing && s.commitInflight == 0 && s.results[0] == Result(s.closest, s.successes, s.errors))
    && (s.committing ==> s.pending == [] && s.inflight == 0)
    && (s.committing && !s.finished ==> s.commitInflight >= 1)
    && (!s.committing ==> s.commitInflight == 0)
    && s.commitInflight <= |s.closest|
    && CommitsOf(s.sent) == (if s.committing && c.commit then Commits(s.closest) else [])
    && s.inflight <= c.concurrency
  }

  /** Every suggestion of a node that is down produced exactly one hint, in order; no other hints. */
  ghost predicate HintOk(seen: map<Peer, Seen>, hints: seq<Peer>, suggesters: seq<Peer>, p: Peer) {
    if p !in seen then hints == suggesters == []
    else match seen[p]
      case Pending(refs) => hints == [] && suggesters == refs
      case Down => hints == suggesters
      case Done => hints == []
  }

  ghost predicate HintsOk(seen: map<Peer, Seen>, sent: seq<Request>, suggested: seq<Suggestion>) {
    forall p :: HintOk(seen, HintsFor(sent, p), SuggestersOf(suggested, p), p)
  }

  ghost predicate Waiting(seen: map<Peer, Seen>, p: Peer) {
    p in seen && seen[p].Pending?
  }

  /** Nodes not yet heard from are still marked as waiting. */
  ghost predicate AllWaiting(seen: map<Peer, Seen>, pending: seq<QueryNode>, queries: seq<Peer>, resolved: set<Peer>) {
    && (forall i :: 0 <= i < |pending| ==> Waiting(seen, pending[i].peer))
    && (forall i :: 0 <= i < |queries| ==> queries[i] in resolved || Waiting(seen, queries[i]))
  }

  /** The state part of the invariant; `honest` adds what needs replies to come from the address asked. */
  ghost predicate Good(c: Config, s: State, resolved: set<Peer>, honest: bool) {
    && IsTopK(c, s.closest, s.heard)
    && Once(s.enqueued, s.pending, Queries(s.sent), s.seen.Keys)
    && Complete(c, s.closest, s.enqueued, s.pending, Queries(s.sent))
    && Phases(c, s)
    && (honest ==> HintsOk(s.seen, s.sent, s.suggested) && AllWaiting(s.seen, s.pending, Queries(s.sent), resolved))
  }

  /** Falls with every resolved request; `seen` is bounded by the address space. */
  ghost function Potential(s: State): int {
    2 * |s.pending| + s.inflight - 3 * |s.seen.Keys|
  }

  /** What one internal step from `s` to `t` may do. */
  ghost predicate Advances(s: State, t: State) {
    && s.seen.Keys <= t.seen.Keys
    && Potential(t) <= Potential(s)
    && Queries(s.sent) <= Queries(t.sent)
    && |Queries(t.sent)| - |Queries(s.sent)| == t.inflight - s.inflight
    && t.heard == s.heard && t.closest == s.closest
  }

  lemma AdvancesTransitive(s: State, t: State, u: State)
    requires Advances(s, t) && Advances(t, u)
    ensures Advances(s, u)
  {
  }

  // ---------------------------------------------------------------- single steps

  lemma OnceAdd(enqueued: seq<QueryNode>, pending: seq<QueryNode>, queries: seq<Peer>, seen: set<Peer>, n: QueryNode)
    requires Once(enqueued, pending, queries, seen) && n.peer !in seen
    ensures Once(enqueued + [n], pending + [n], queries, seen + {n.peer})
  {
    forall i | 0 <= i < |pending|
      ensures pending[i].peer != n.peer
    {
      assert pending[i] in enqueued;
    }
  }

  lemma CompleteAdd(c: Config, closest: seq<Reply>, enqueued: seq<QueryNode>, pending: seq<QueryNode>,
                    queries: seq<Peer>, n: QueryNode)
    requires Complete(c, closest, enqueued, pending, queries)
    ensures Complete(c, closest, enqueued + [n], pending + [n], queries)
  {
    hide IsCloser;
    var e := enqueued + [n];
    forall i | 0 <= i < |e|
      ensures Accounted(c, closest, pending + [n], queries, e[i])
    {
      assert i < |enqueued| ==> Accounted(c, closest, pending, queries, enqueued[i]);
    }
  }

  lemma HintsSuggest(seen: map<Peer, Seen>, sent: seq<Request>, suggested: seq<Suggestion>, p: Peer, r: Peer)
    requires HintsOk(seen, sent, suggested) && p in seen
    ensures var suggested' := suggested + [Suggestion(r, p)];
            match seen[p]
            case Pending(refs) => HintsOk(seen[p := Pending(refs + [r])], sent, suggested')
            case Down => HintsOk(seen, sent + [DownHint(r, p)], suggested')
            case Done => HintsOk(seen, sent, suggested')
  {
    SuggestOne(suggested, Suggestion(r, p));
    EmitOne(sent, DownHint(r, p));
    hide HintsFor, SuggestersOf;
    assert forall q :: HintOk(seen, HintsFor(sent, q), SuggestersOf(suggested, q), q);
  }

  lemma HintsNew(seen: map<Peer, Seen>, sent: seq<Request>, suggested: seq<Suggestion>, p: Peer, referrer: Option<Peer>)
    requires HintsOk(seen, sent, suggested) && p !in seen
    ensures HintsOk(seen[p := Pending(RefsOf(referrer))], sent,
                    if referrer.Some? then suggested + [Suggestion(referrer.value, p)] else suggested)
  {
    if referrer.Some? {
      SuggestOne(suggested, Suggestion(referrer.value, p));
    }
    assert HintOk(seen, HintsFor(sent, p), SuggestersOf(suggested, p), p);
  }

  lemma AddSeenHints(c: Config, s: State, node: QueryNode, referrer: Option<Peer>)
    requires HintsOk(s.seen, s.sent, s.suggested) && node.peer in s.seen
    ensures var t := AddPending(c, s, node, referrer).0;
            HintsOk(t.seen, t.sent, t.suggested)
  {
    hide IsCloser, HintsOk;
    if referrer.Some? {
      HintsSuggest(s.seen, s.sent, s.suggested, node.peer, referrer.value);
    } else if s.seen[node.peer].Pending? {
      assert s.seen[node.peer].refs + [] == s.seen[node.peer].refs;
      assert s.seen[node.peer := s.seen[node.peer]] == s.seen;
    }
  }

  lemma AddSeenGood(c: Config, s: State, node: QueryNode, referrer: Option<Peer>, resolved: set<Peer>, honest: bool)
    requires Good(c, s, resolved, honest) && !s.committing && node.peer in s.seen
    ensures var t := AddPending(c, s, node, referrer).0;
            Good(c, t, resolved, honest) && Advances(s, t)
  {
    hide IsCloser, IsTopK, Once, Complete, HintsOk, AllWaiting, Queries, CommitsOf, Commits, HintsFor;
    var t := AddPending(c, s, node, referrer).0;
    assert t.seen.Keys == s.seen.Keys;
    if referrer.Some? {
      EmitOne(s.sent, DownHint(referrer.value, node.peer));
    }
    assert Queries(t.sent) == Queries(s.sent) && CommitsOf(t.sent) == CommitsOf(s.sent);
    if honest {
      AddSeenHints(c, s, node, referrer);
      WaitingKept(s.seen, t.seen, s.pending, Queries(s.sent), resolved);
    }
  }

  lemma WaitingKept(seen: map<Peer, Seen>, seen': map<Peer, Seen>, pending: seq<QueryNode>, queries: seq<Peer>,
                    resolved: set<Peer>)
    requires AllWaiting(seen, pending, queries, resolved)
    requires forall p :: Waiting(seen, p) ==> Waiting(seen', p)
    ensures AllWaiting(seen', pending, queries, resolved)
  {
  }

  lemma AddNewGood(c: Config, s: State, node: QueryNode, referrer: Option<Peer>, resolved: set<Peer>, honest: bool)
    requires Good(c, s, resolved, honest) && !s.committing
    requires node.peer !in s.seen && IsCloser(c, s.closest, node.id)
    ensures var t := AddPending(c, s, node, referrer).0;
            Good(c, t, resolved, honest) && Advances(s, t)
  {
    hide IsCloser, IsTopK, Once, Complete, HintsOk;
    var t := AddPending(c, s, node, referrer).0;
    assert t.seen.Keys == s.seen.Keys + {node.peer};
    OnceAdd(s.enqueued, s.pending, Queries(s.sent), s.seen.Keys, node);
    CompleteAdd(c, s.closest, s.enqueued, s.pending, Queries(s.sent), node);
    if honest {
      HintsNew(s.seen, s.sent, s.suggested, node.peer, referrer);
    }
  }

  /** Offering a node keeps the invariant. */
  lemma AddPendingGood(c: Config, s: State, node: QueryNode, referrer: Option<Peer>, resolved: set<Peer>, honest: bool)
    requires Good(c, s, resolved, honest) && !s.committing
    ensures var t := AddPending(c, s, node, referrer).0;
            Good(c, t, resolved, honest) && Advances(s, t) && Offered(s, t)
  {
    hide IsCloser, Good, Advances;
    if node.peer in s.seen {
      AddSeenGood(c, s, node, referrer, resolved, honest);
    } else if IsCloser(c, s.closest, node.id) {
      AddNewGood(c, s, node, referrer, resolved, honest);
    } else {
      AdvancesReflexive(s);
    }
  }

  lemma AdvancesReflexive(s: State)
    ensures Advances(s, s)
  {
  }

  /** What offering nodes leaves alone. */
  ghost predicate Offered(s: State, t: State) {
    && t.inflight == s.inflight && t.fromTable == s.fromTable && t.slowdown == s.slowdown
    && t.committing == s.committing && t.finished == s.finished
    && t.closest == s.closest && t.heard == s.heard
  }

  lemma {:induction false} AddCloserGood(c: Config, s: State, peers: seq<Peer>, from: Peer, resolved: set<Peer>,
                                         honest: bool)
    requires Good(c, s, resolved, honest) && !s.committing
    ensures var t := AddCloser(c, s, peers, from);
            Good(c, t, resolved, honest) && Advances(s, t) && Offered(s, t)
    decreases |peers|
  {
    hide IsCloser, Good, Advances, AddPending;
    if peers == [] {
      AdvancesReflexive(s);
    } else if c.idOf(peers[0]) == c.ownId {
      AddCloserGood(c, s, peers[1..], from, resolved, honest);
    } else {
      var node := QueryNode(c.idOf(peers[0]), peers[0]);
      AddPendingGood(c, s, node, Some(from), resolved, honest);
      var (s1, stop) := AddPending(c, s, node, Some(from));
      if !stop {
        AddCloserGood(c, s1, peers[1..], from, resolved, honest);
        AdvancesTransitive(s, s1, AddCloser(c, s1, peers[1..], from));
      }
    }
  }

  lemma {:induction false} AddAllGood(c: Config, s: State, nodes: seq<QueryNode>, resolved: set<Peer>, honest: bool)
    requires Good(c, s, resolved, honest) && !s.committing
    ensures var t := AddAll(c, s, nodes);
            Good(c, t, resolved, honest) && Advances(s, t) && Offered(s, t)
    decreases |nodes|
  {
    hide IsCloser, Good, Advances, AddPending;
    if nodes == [] {
      AdvancesReflexive(s);
    } else {
      AddPendingGood(c, s, nodes[0], None, resolved, honest);
      var s1 := AddPending(c, s, nodes[0], None).0;
      AddAllGood(c, s1, nodes[1..], resolved, honest);
      AdvancesTransitive(s, s1, AddAll(c, s1, nodes[1..]));
    }
  }

  lemma OncePop(enqueued: seq<QueryNode>, pending: seq<QueryNode>, queries: seq<Peer>, seen: set<Peer>)
    requires Once(enqueued, pending, queries, seen) && pending != []
    ensures var n := |pending| - 1;
            && Once(enqueued, pending[..n], queries, seen)
            && Once(enqueued, pending[..n], queries + [pending[n].peer], seen)
  {
    var n := |pending| - 1;
    assert pending[n] in enqueued;
  }

  lemma CompletePop(c: Config, closest: seq<Reply>, enqueued: seq<QueryNode>, pending: seq<QueryNode>,
                    queries: seq<Peer>)
    requires Complete(c, closest, enqueued, pending, queries) && pending != []
    ensures var n := |pending| - 1;
            && Complete(c, closest, enqueued, pending[..n], queries + [pending[n].peer])
            && (!IsCloser(c, closest, pending[n].id) ==> Complete(c, closest, enqueued, pending[..n], queries))
  {
    hide IsCloser;
    var n := |pending| - 1;
    assert pending == pending[..n] + [pending[n]];
    forall i | 0 <= i < |enqueued|
      ensures Accounted(c, closest, pending[..n], queries + [pending[n].peer], enqueued[i])
      ensures !IsCloser(c, closest, pending[n].id) ==> Accounted(c, closest, pending[..n], queries, enqueued[i])
    {
      assert Accounted(c, closest, pending, queries, enqueued[i]);
    }
  }

  /** The state after popping one pending node. */
  ghost function PopOne(c: Config, s: State): State
    requires s.pending != []
  {
    var n := |s.pending| - 1;
    var s1 := s.(pending := s.pending[..n]);
    if IsCloser(c, s.closest, s.pending[n].id)
    then Emit(s1.(inflight := s.inflight + 1), QueryRequest(s.pending[n].peer))
    else s1
  }

  lemma HintsSame(seen: map<Peer, Seen>, sent: seq<Request>, suggested: seq<Suggestion>, sent': seq<Request>)
    requires HintsOk(seen, sent, suggested)
    requires forall p :: HintsFor(sent', p) == HintsFor(sent, p)
    ensures HintsOk(seen, sent', suggested)
  {
    forall p
      ensures HintOk(seen, HintsFor(sent', p), SuggestersOf(suggested, p), p)
    {
      assert HintOk(seen, HintsFor(sent, p), SuggestersOf(suggested, p), p);
    }
  }

  lemma WaitingPop(seen: map<Peer, Seen>, pending: seq<QueryNode>, queries: seq<Peer>, resolved: set<Peer>)
    requires AllWaiting(seen, pending, queries, resolved) && pending != []
    ensures var n := |pending| - 1;
            && AllWaiting(seen, pending[..n], queries, resolved)
            && AllWaiting(seen, pending[..n], queries + [pending[n].peer], resolved)
  {
    assert Waiting(seen, pending[|pending| - 1].peer);
  }

  lemma PopGood(c: Config, s: State, resolved: set<Peer>, honest: bool)
    requires Good(c, s, resolved, honest) && s.pending != [] && s.inflight < c.concurrency
    ensures Good(c, PopOne(c, s), resolved, honest) && Advances(s, PopOne(c, s))
  {
    hide IsCloser, IsTopK, Once, Complete, HintsOk, AllWaiting, Queries, CommitsOf, Commits;
    var n := |s.pending| - 1;
    EmitOne(s.sent, QueryRequest(s.pending[n].peer));
    OncePop(s.enqueued, s.pending, Queries(s.sent), s.seen.Keys);
    CompletePop(c, s.closest, s.enqueued, s.pending, Queries(s.sent));
    if honest {
      HintsSame(s.seen, s.sent, s.suggested, s.sent + [QueryRequest(s.pending[n].peer)]);
      WaitingPop(s.seen, s.pending, Queries(s.sent), resolved);
    }
  }

  /** What pumping leaves alone, and that it stops at the limit or with nothing pending. */
  ghost predicate Pumped(s: State, t: State, limit: nat) {
    && t.fromTable == s.fromTable && t.slowdown == s.slowdown && t.committing == s.committing &&
       t.finished == s.finished
    && t.closest == s.closest && t.heard == s.heard && t.successes == s.successes && t.errors == s.errors
    && t.inflight >= s.inflight
    && (t.pending != [] ==> t.inflight >= limit)
  }

  lemma {:induction false} PumpGood(c: Config, s: State, limit: nat, resolved: set<Peer>, honest: bool)
    requires Good(c, s, resolved, honest) && limit <= c.concurrency
    ensures var t := Pump(c, s, limit);
            Good(c, t, resolved, honest) && Advances(s, t) && Pumped(s, t, limit)
    decreases |s.pending|
  {
    hide IsCloser, Good, Advances;
    if s.inflight >= limit || s.pending == [] {
      AdvancesReflexive(s);
    } else {
      PopGood(c, s, resolved, honest);
      PumpGood(c, PopOne(c, s), limit, resolved, honest);
      AdvancesTransitive(s, PopOne(c, s), Pump(c, s, limit));
    }
  }

  lemma PumpAndSlowGood(c: Config, s: State, resolved: set<Peer>, honest: bool)
    requires ConfigOk(c) && Good(c, s, resolved, honest)
    ensures var t := PumpAndSlow(c, s);
            && Good(c, t, resolved, honest) && Advances(s, t)
            && t.fromTable == s.fromTable && t.committing == s.committing && t.finished == s.finished
            && t.heard == s.heard
            && (t.pending != [] ==> t.inflight >= 1)
  {
    hide IsCloser, IsTopK, Once, Complete, HintsOk, AllWaiting, Queries, CommitsOf, Commits, Pump;
    PumpGood(c, s, EffectiveConcurrency(c, s), resolved, honest);
  }

  lemma {:induction false} CommitsFewer(closest: seq<Reply>)
    ensures |Commits(closest)| <= |closest|
  {
    if closest != [] {
      CommitsFewer(closest[..|closest| - 1]);
    }
  }

  /** Entering phase 2 with nothing left to do. */
  lemma FlushGood(c: Config, s: State, resolved: set<Peer>, honest: bool)
    requires Good(c, s, resolved, honest) && !s.committing && s.pending == [] && s.inflight == 0
    ensures var t := Flush(c, s);
            Good(c, t, resolved, honest) && Advances(s, t) && t.committing
  {
    hide IsCloser, IsTopK, Once, Complete, HintsOk, AllWaiting, Queries, CommitsOf, Commits;
    EmitCommits(s.sent, s.closest);
    CommitsFewer(s.closest);
    if honest {
      HintsSame(s.seen, s.sent, s.suggested, s.sent + Commits(s.closest));
    }
  }

  /** Not stuck: some request is outstanding, or the query is over. */
  ghost predicate NotStuck(c: Config, s: State) {
    || s.finished
    || (s.committing && s.commitInflight >= 1)
    || (!s.committing && 1 <= s.inflight <= c.concurrency)
  }

  lemma PumpOrFlush(c: Config, s: State, resolved: set<Peer>, honest: bool)
    requires ConfigOk(c) && Good(c, s, resolved, honest) && !s.committing
    ensures var s1 := PumpAndSlow(c, s);
            var t := if s1.pending != [] || s1.inflight > 0 then s1 else Flush(c, s1);
            Good(c, t, resolved, honest) && Advances(s, t) && NotStuck(c, t)
  {
    hide IsCloser, IsTopK, Once, Complete, Advances, HintsOk, AllWaiting;
    PumpAndSlowGood(c, s, resolved, honest);
    var s1 := PumpAndSlow(c, s);
    if s1.pending == [] && s1.inflight == 0 {
      FlushGood(c, s1, resolved, honest);
      AdvancesTransitive(s, s1, Flush(c, s1));
    }
  }

  lemma AddFromTableGood(c: Config, s: State, view: seq<Node>, resolved: set<Peer>, honest: bool)
    requires Good(c, s, resolved, honest) && !s.committing
    ensures var t := AddFromTable(c, s, view);
            && Good(c, t, resolved, honest) && Advances(s, t)
            && t.inflight == s.inflight && t.committing == s.committing && t.heard == s.heard && t.closest == s.closest
  {
    hide IsCloser, IsTopK, Once, Complete, HintsOk;
    if |s.pending| >= c.k {
    } else {
      AddAllGood(c, s.(fromTable := true), AsQueryNodes(Take(view, c.k - |s.pending|)), resolved, honest);
    }
  }

  /** Driving the query keeps the invariant and never leaves it stuck. */
  lemma ReadMoreGood(c: Config, s: State, view: seq<Node>, resolved: set<Peer>, honest: bool)
    requires ConfigOk(c) && Good(c, s, resolved, honest) && !s.committing
    ensures var t := ReadMore(c, s, view);
            Good(c, t, resolved, honest) && Advances(s, t) && NotStuck(c, t)
  {
    hide IsCloser, IsTopK, Once, Complete, Advances, HintsOk, AllWaiting, PumpAndSlow, AddFromTable, Flush;
    var s1 := PumpAndSlow(c, s);
    PumpAndSlowGood(c, s, resolved, honest);
    PumpOrFlush(c, s, resolved, honest);
    if s1.pending == [] && s1.inflight == 0 && !s1.fromTable && s1.successes < c.k / 4 {
      var s2 := AddFromTable(c, s1, view);
      AddFromTableGood(c, s1, view, resolved, honest);
      AdvancesTransitive(s, s1, s2);
      if s2.pending == [] {
        FlushGood(c, s2, resolved, honest);
      } else {
        PumpOrFlush(c, s2, resolved, honest);
      }
      AdvancesTransitive(s, s2, ReadMore(c, s, view));
    }
  }

  // ---------------------------------------------------------------- events

  /** A request sent in phase 1 and not yet resolved. */
  ghost predicate Outstanding(s: State, resolved: set<Peer>, p: Peer) {
    p in Queries(s.sent) && p !in resolved
  }

  /** A query in its environment: the engine, and the phase-1 requests resolved so far. */
  datatype World = World(s: State, resolved: set<Peer>)

  datatype Event =
    | Respond(asked: Peer, data: Response, view: seq<Node>)
    | Timeout(asked: Peer, view: seq<Node>)
    | CommitDone

  /** An event resolves one outstanding request. */
  ghost predicate Enabled(w: World, e: Event) {
    match e
    case Respond(asked, _, _) => Outstanding(w.s, w.resolved, asked)
    case Timeout(asked, _) => Outstanding(w.s, w.resolved, asked)
    case CommitDone => w.s.committing && w.s.commitInflight >= 1
  }

  ghost predicate Honest(e: Event) {
    e.Respond? ==> e.data.from == e.asked
  }

  ghost function Step(c: Config, w: World, e: Event): World {
    match e
    case Respond(asked, data, view) => World(OnResponse(c, w.s, data, view), w.resolved + {asked})
    case Timeout(asked, view) => World(OnTimeout(c, w.s, asked, view), w.resolved + {asked})
    case CommitDone => World(OnCommitDone(w.s), w.resolved)
  }

  /** Every run keeps this. */
  ghost predicate Inv(c: Config, w: World, honest: bool) {
    && Good(c, w.s, w.resolved, honest)
    && NotStuck(c, w.s)
    && (forall p :: p in w.resolved ==> p in Queries(w.s.sent))
    && w.s.inflight + |w.resolved| == |Queries(w.s.sent)|
  }

  ghost function PeerSet(s: seq<Peer>): set<Peer> {
    set i | 0 <= i < |s| :: s[i]
  }

  lemma {:induction false} DistinctCardinality(s: seq<Peer>)
    requires Distinct(s)
    ensures |PeerSet(s)| == |s|
  {
    if s != [] {
      var n := |s| - 1;
      DistinctCardinality(s[..n]);
      assert PeerSet(s) == PeerSet(s[..n]) + {s[n]};
    }
  }

  /** An outstanding request means the in-flight counter is positive, and the query is in phase 1. */
  lemma OutstandingCounts(c: Config, w: World, honest: bool, p: Peer)
    requires Inv(c, w, honest) && Outstanding(w.s, w.resolved, p)
    ensures w.s.inflight >= 1 && !w.s.committing && !w.s.finished
  {
    var q := Queries(w.s.sent);
    DistinctCardinality(q);
    assert w.resolved + {p} <= PeerSet(q);
    SubsetCardinality(w.resolved + {p}, PeerSet(q));
  }

  /** Conversely, a positive counter means that some request is outstanding. */
  lemma CountsOutstanding(c: Config, w: World, honest: bool)
    requires Inv(c, w, honest) && w.s.inflight >= 1
    ensures exists p :: Outstanding(w.s, w.resolved, p)
  {
    var q := Queries(w.s.sent);
    DistinctCardinality(q);
    if PeerSet(q) <= w.resolved {
      SubsetCardinality(PeerSet(q), w.resolved);
    } else {
      var p :| p in PeerSet(q) && p !in w.resolved;
      assert Outstanding(w.s, w.resolved, p);
    }
  }

  lemma OnceResolve(enqueued: seq<QueryNode>, pending: seq<QueryNode>, queries: seq<Peer>, seen: set<Peer>, p: Peer)
    requires Once(enqueued, pending, queries, seen)
    ensures Once(enqueued, pending, queries, seen + {p})
  {
  }

  lemma WaitingResolve(enqueued: seq<QueryNode>, pending: seq<QueryNode>, queries: seq<Peer>, seen: map<Peer, Seen>,
                       resolved: set<Peer>, p: Peer, outcome: Seen)
    requires Once(enqueued, pending, queries, seen.Keys) && AllWaiting(seen, pending, queries, resolved) && p in queries
    ensures AllWaiting(seen[p := outcome], pending, queries, resolved + {p})
  {
    var seen' := seen[p := outcome];
    forall i | 0 <= i < |pending|
      ensures Waiting(seen', pending[i].peer)
    {
      assert Waiting(seen, pending[i].peer) && pending[i].peer != p;
    }
    forall i | 0 <= i < |queries|
      ensures queries[i] in resolved + {p} || Waiting(seen', queries[i])
    {
      assert queries[i] in resolved || Waiting(seen, queries[i]);
    }
  }

  lemma HintsResolve(seen: map<Peer, Seen>, sent: seq<Request>, suggested: seq<Suggestion>, p: Peer)
    requires HintsOk(seen, sent, suggested) && Waiting(seen, p)
    ensures HintsOk(seen[p := Done], sent, suggested)
    ensures HintsOk(seen[p := Down], sent + Hints(seen[p].refs, p), suggested)
  {
    hide HintsFor, SuggestersOf, Queries, CommitsOf, Hints;
    EmitHints(sent, seen[p].refs, p);
    assert HintOk(seen, HintsFor(sent, p), SuggestersOf(suggested, p), p);
    var sent' := sent + Hints(seen[p].refs, p);
    forall q
      ensures HintOk(seen[p := Down], HintsFor(sent', q), SuggestersOf(suggested, q), q)
    {
      assert HintOk(seen, HintsFor(sent, q), SuggestersOf(suggested, q), q);
    }
  }

  /** A reply arrives for an outstanding request. */
  lemma ResolveDone(c: Config, s: State, resolved: set<Peer>, honest: bool, asked: Peer, from: Peer)
    requires Good(c, s, resolved, honest) && !s.committing && s.inflight >= 1
    requires Outstanding(s, resolved, asked) && (honest ==> from == asked)
    ensures var t := Resolve(s, from, Done);
            && Good(c, t, resolved + {asked}, honest)
            && s.seen.Keys <= t.seen.Keys && Potential(t) < Potential(s)
  {
    hide IsCloser, IsTopK, Once, Complete, HintsOk, AllWaiting, Queries, CommitsOf, Commits;
    var t := Resolve(s, from, Done);
    assert t.seen.Keys == s.seen.Keys + {from};
    SubsetCardinality(s.seen.Keys, t.seen.Keys);
    OnceResolve(s.enqueued, s.pending, Queries(s.sent), s.seen.Keys, from);
    if honest {
      OutstandingWaits(s, resolved, asked);
      HintsResolve(s.seen, s.sent, s.suggested, asked);
      WaitingResolve(s.enqueued, s.pending, Queries(s.sent), s.seen, resolved, asked, Done);
    }
  }

  lemma OutstandingWaits(s: State, resolved: set<Peer>, p: Peer)
    requires AllWaiting(s.seen, s.pending, Queries(s.sent), resolved) && Outstanding(s, resolved, p)
    ensures Waiting(s.seen, p)
  {
  }

  /** The state after a timeout, before more requests are sent. */
  ghost function TimedOut(s: State, to: Peer): State {
    Resolve(s, to, Down).(errors := s.errors + 1, sent := s.sent + Hints(RefsFor(s, to), to))
  }

  lemma ResolveDown(c: Config, s: State, resolved: set<Peer>, honest: bool, asked: Peer)
    requires Good(c, s, resolved, honest) && !s.committing && s.inflight >= 1
    requires Outstanding(s, resolved, asked)
    ensures var t := TimedOut(s, asked);
            && Good(c, t, resolved + {asked}, honest)
            && s.seen.Keys <= t.seen.Keys && Potential(t) < Potential(s)
            && Queries(t.sent) == Queries(s.sent)
  {
    hide IsCloser, IsTopK, Once, Complete, HintsOk, AllWaiting, Queries, CommitsOf, Commits;
    var t := TimedOut(s, asked);
    assert t.seen.Keys == s.seen.Keys + {asked};
    SubsetCardinality(s.seen.Keys, t.seen.Keys);
    OnceResolve(s.enqueued, s.pending, Queries(s.sent), s.seen.Keys, asked);
    EmitHints(s.sent, RefsFor(s, asked), asked);
    if honest {
      OutstandingWaits(s, resolved, asked);
      HintsResolve(s.seen, s.sent, s.suggested, asked);
      WaitingResolve(s.enqueued, s.pending, Queries(s.sent), s.seen, resolved, asked, Down);
    }
  }

  lemma CompleteHear(c: Config, closest: seq<Reply>, heard: seq<Reply>, enqueued: seq<QueryNode>,
                     pending: seq<QueryNode>, queries: seq<Peer>, r: Reply)
    requires ConfigOk(c) && IsTopK(c, closest, heard) && IsCloser(c, closest, r.id)
    requires Complete(c, closest, enqueued, pending, queries)
    ensures Complete(c, PushClosest(c, closest, r), enqueued, pending, queries)
  {
    hide IsCloser, PushClosest;
    forall i | 0 <= i < |enqueued|
      ensures Accounted(c, PushClosest(c, closest, r), pending, queries, enqueued[i])
    {
      assert Accounted(c, closest, pending, queries, enqueued[i]);
      if !IsCloser(c, closest, enqueued[i].id) {
        NotCloserStays(c, closest, r, enqueued[i].id);
      }
    }
  }

  /** Counting and keeping a reply preserves the invariant. */
  lemma LearnGood(c: Config, s: State, data: Response, resolved: set<Peer>, honest: bool)
    requires ConfigOk(c) && Good(c, s, resolved, honest) && !s.committing
    ensures var t := Learn(c, Accept(s, data), data);
            && Good(c, t, resolved, honest) && !t.committing
            && t.seen == s.seen && t.pending == s.pending && t.inflight == s.inflight && t.sent == s.sent
            && t.heard == s.heard + Replies(data)
  {
    hide IsCloser, IsTopK, Once, Complete, HintsOk, AllWaiting, Queries, CommitsOf, Commits, PushClosest;
    if data.error == 0 && data.fromId.Some? {
      var r := Reply(data.from, data.fromId.value, data.token, data.closer);
      HearTopK(c, s.closest, s.heard, r);
      if IsCloser(c, s.closest, r.id) {
        CompleteHear(c, s.closest, s.heard, s.enqueued, s.pending, Queries(s.sent), r);
      }
    }
  }

  /** The replies a response contributes: one if it is error-free and validated. */
  ghost function Replies(data: Response): seq<Reply> {
    if data.error == 0 && data.fromId.Some? then [Reply(data.from, data.fromId.value, data.token, data.closer)] else []
  }

  // ---------------------------------------------------------------- steps and runs

  /** Strictly falls with every event, when at most `space` addresses exist. */
  ghost function Rank(c: Config, s: State, space: nat): int {
    if s.finished then 0
    else if s.committing then s.commitInflight
    else Potential(s) + 3 * space + c.k + 1
  }

  lemma RankNonNegative(c: Config, s: State, space: nat)
    requires |s.seen.Keys| <= space
    ensures Rank(c, s, space) >= 0
  {
  }

  lemma RankFalls(c: Config, s: State, t: State, resolved: set<Peer>, honest: bool, space: nat)
    requires Good(c, t, resolved, honest) && NotStuck(c, t) && !s.committing && !s.finished
    requires Potential(t) < Potential(s) && s.seen.Keys <= t.seen.Keys && |t.seen.Keys| <= space
    ensures 0 <= Rank(c, t, space) < Rank(c, s, space)
  {
    hide IsCloser, Once, Complete, HintsOk, AllWaiting;
    SubsetCardinality(s.seen.Keys, t.seen.Keys);
  }

  /** What a step adds to the heard replies. */
  ghost function HeardBy(e: Event): seq<Reply> {
    if e.Respond? then Replies(e.data) else []
  }

  /** Taking in a reply's content and sending more requests. */
  lemma AfterReply(c: Config, s: State, data: Response, view: seq<Node>, resolved: set<Peer>, honest: bool)
    requires ConfigOk(c) && Good(c, s, resolved, honest) && !s.committing
    ensures var t := ReadMore(c, Unslow(c, AddCloser(c, Learn(c, Accept(s, data), data), data.closer, data.from)),
                              view);
            && Good(c, t, resolved, honest) && NotStuck(c, t)
            && s.seen.Keys <= t.seen.Keys && Potential(t) <= Potential(s)
            && Queries(s.sent) <= Queries(t.sent)
            && |Queries(t.sent)| - |Queries(s.sent)| == t.inflight - s.inflight
            && t.heard == s.heard + Replies(data)
  {
    hide IsCloser, Good, NotStuck, Queries, Learn, AddCloser, ReadMore, Unslow, Accept, Replies;
    LearnGood(c, s, data, resolved, honest);
    var s2 := Learn(c, Accept(s, data), data);
    AddCloserGood(c, s2, data.closer, data.from, resolved, honest);
    var s3 := AddCloser(c, s2, data.closer, data.from);
    UnslowGood(c, s3, resolved, honest);
    ReadMoreGood(c, Unslow(c, s3), view, resolved, honest);
  }

  lemma RespondInv(c: Config, w: World, honest: bool, asked: Peer, data: Response, view: seq<Node>)
    requires ConfigOk(c) && Inv(c, w, honest) && Outstanding(w.s, w.resolved, asked)
    requires honest ==> data.from == asked
    ensures var w' := World(OnResponse(c, w.s, data, view), w.resolved + {asked});
            && Inv(c, w', honest) && w'.s.heard == w.s.heard + Replies(data)
            && w.s.seen.Keys <= w'.s.seen.Keys && Potential(w'.s) < Potential(w.s)
  {
    hide IsCloser, Good, NotStuck, Queries, Learn, AddCloser, ReadMore, Unslow, Accept, Replies, Potential;
    OutstandingCounts(c, w, honest, asked);
    ResolveDone(c, w.s, w.resolved, honest, asked, data.from);
    AfterReply(c, Resolve(w.s, data.from, Done), data, view, w.resolved + {asked}, honest);
  }

  /** Equal up to counters and flags. */
  ghost predicate SameWork(s: State, t: State) {
    && t.seen == s.seen && t.pending == s.pending && t.inflight == s.inflight && t.sent == s.sent
    && t.heard == s.heard && t.committing == s.committing
  }

  lemma UnslowGood(c: Config, s: State, resolved: set<Peer>, honest: bool)
    requires Good(c, s, resolved, honest)
    ensures Good(c, Unslow(c, s), resolved, honest) && SameWork(s, Unslow(c, s))
  {
    hide IsCloser, IsTopK, Once, Complete, HintsOk, AllWaiting;
  }

  lemma TimeoutInv(c: Config, w: World, honest: bool, asked: Peer, view: seq<Node>)
    requires ConfigOk(c) && Inv(c, w, honest) && Outstanding(w.s, w.resolved, asked)
    ensures var w' := World(OnTimeout(c, w.s, asked, view), w.resolved + {asked});
            && Inv(c, w', honest) && w'.s.heard == w.s.heard
            && w.s.seen.Keys <= w'.s.seen.Keys && Potential(w'.s) < Potential(w.s)
  {
    hide IsCloser, Good, NotStuck, Queries, ReadMore;
    OutstandingCounts(c, w, honest, asked);
    ResolveDown(c, w.s, w.resolved, honest, asked);
    ReadMoreGood(c, TimedOut(w.s, asked), view, w.resolved + {asked}, honest);
  }

  /** One event: the invariant holds again, and the rank has fallen. */
  lemma StepInv(c: Config, w: World, honest: bool, e: Event)
    requires ConfigOk(c) && Inv(c, w, honest) && Enabled(w, e) && (honest ==> Honest(e))
    ensures Inv(c, Step(c, w, e), honest)
    ensures w.s.seen.Keys <= Step(c, w, e).s.seen.Keys
    ensures Step(c, w, e).s.heard == w.s.heard + HeardBy(e)
    ensures forall space: nat :: |Step(c, w, e).s.seen.Keys| <= space ==>
              0 <= Rank(c, Step(c, w, e).s, space) < Rank(c, w.s, space)
  {
    hide IsCloser, IsTopK, Once, Complete, HintsOk, AllWaiting, Queries, CommitsOf, Commits, OnResponse, OnTimeout,
         Rank;
    var w' := Step(c, w, e);
    if e.CommitDone? {
      CommitDoneInv(c, w, honest);
    } else {
      OutstandingCounts(c, w, honest, e.asked);
      if e.Respond? {
        RespondInv(c, w, honest, e.asked, e.data, e.view);
      } else {
        TimeoutInv(c, w, honest, e.asked, e.view);
      }
      forall space: nat | |w'.s.seen.Keys| <= space
        ensures 0 <= Rank(c, w'.s, space) < Rank(c, w.s, space)
      {
        RankFalls(c, w.s, w'.s, w'.resolved, honest, space);
      }
    }
  }

  lemma CommitDoneInv(c: Config, w: World, honest: bool)
    requires Inv(c, w, honest) && w.s.committing && w.s.commitInflight >= 1
    ensures var w' := World(OnCommitDone(w.s), w.resolved);
            && Inv(c, w', honest) && w'.s.seen == w.s.seen && w'.s.heard == w.s.heard
            && forall space: nat :: 0 <= Rank(c, w'.s, space) < Rank(c, w.s, space)
  {
    hide IsCloser, IsTopK, Once, Complete, HintsOk, AllWaiting, Queries, CommitsOf, Commits;
  }

  ghost predicate ValidRun(c: Config, w: World, es: seq<Event>)
    decreases |es|
  {
    es != [] ==> Enabled(w, es[0]) && ValidRun(c, Step(c, w, es[0]), es[1..])
  }

  ghost function Run(c: Config, w: World, es: seq<Event>): World
    decreases |es|
  {
    if es == [] then w else Run(c, Step(c, w, es[0]), es[1..])
  }

  ghost predicate AllHonest(es: seq<Event>) {
    forall i :: 0 <= i < |es| ==> Honest(es[i])
  }

  ghost function HeardIn(es: seq<Event>): seq<Reply>
    decreases |es|
  {
    if es == [] then [] else HeardBy(es[0]) + HeardIn(es[1..])
  }

  lemma {:induction false} RunInv(c: Config, w: World, es: seq<Event>, honest: bool)
    requires ConfigOk(c) && Inv(c, w, honest) && ValidRun(c, w, es) && (honest ==> AllHonest(es))
    ensures Inv(c, Run(c, w, es), honest)
    ensures w.s.seen.Keys <= Run(c, w, es).s.seen.Keys
    ensures Run(c, w, es).s.heard == w.s.heard + HeardIn(es)
    ensures forall space: nat :: |Run(c, w, es).s.seen.Keys| <= space ==>
              Rank(c, Run(c, w, es).s, space) + |es| <= Rank(c, w.s, space)
    decreases |es|
  {
    hide Inv, Rank, Step, Enabled, HeardBy, Honest;
    if es != [] {
      StepInv(c, w, honest, es[0]);
      RunInv(c, Step(c, w, es[0]), es[1..], honest);
      var w1, w2 := Step(c, w, es[0]), Run(c, w, es);
      SubsetCardinality(w1.s.seen.Keys, w2.s.seen.Keys);
    }
  }

  /** The nodes a query begins with: those of the routing table, unless it is left out, and then
      explicit ones. */
  ghost function Seeded(c: Config, view: Option<seq<Node>>, nodes: seq<QueryNode>): State {
    AddAll(c, if view.Some? then AddFromTable(c, INITIAL, view.value) else INITIAL, nodes)
  }

  /** A query with its first requests. Without the routing table it begins in slow mode, and may
      fall back to the table later. */
  ghost function Start(c: Config, view: Option<seq<Node>>, nodes: seq<QueryNode>, view': seq<Node>): World {
    World(ReadMore(c, Seeded(c, view, nodes), view'), {})
  }

  lemma StartInv(c: Config, view: Option<seq<Node>>, nodes: seq<QueryNode>, view': seq<Node>, honest: bool)
    requires ConfigOk(c)
    ensures Inv(c, Start(c, view, nodes, view'), honest)
    ensures Start(c, view, nodes, view').s.heard == []
  {
    hide IsCloser, AddFromTable, AddAll, ReadMore;
    assert Good(c, INITIAL, {}, honest);
    var s1 := INITIAL;
    if view.Some? {
      AddFromTableGood(c, INITIAL, view.value, {}, honest);
      s1 := AddFromTable(c, INITIAL, view.value);
    }
    AddAllGood(c, s1, nodes, {}, honest);
    ReadMoreGood(c, AddAll(c, s1, nodes), view', {}, honest);
  }

  // ---------------------------------------------------------------- main theorems

  /** Completeness: no address is requested twice, and when phase 1 is over every queued node
      was requested and resolved or is not strictly nearer than the k-th kept reply. */
  lemma QueryCompleteness(c: Config, view: Option<seq<Node>>, nodes: seq<QueryNode>, view': seq<Node>, es: seq<Event>)
    requires ConfigOk(c) && ValidRun(c, Start(c, view, nodes, view'), es)
    ensures var w := Run(c, Start(c, view, nodes, view'), es);
            && Distinct(Queries(w.s.sent))
            && (w.s.committing ==> forall n :: n in w.s.enqueued ==>
                  || n.peer in w.resolved
                  || (|w.s.closest| == c.k && D(c, w.s.closest[c.k - 1].id) <= D(c, n.id)))
  {
    hide D, Start, Run, ValidRun, HintsOk, AllWaiting, Phases;
    StartInv(c, view, nodes, view', false);
    RunInv(c, Start(c, view, nodes, view'), es, false);
    var w := Run(c, Start(c, view, nodes, view'), es);
    if w.s.committing {
      CompleteAtEnd(c, w);
    }
  }

  lemma CompleteAtEnd(c: Config, w: World)
    requires ConfigOk(c) && Inv(c, w, false) && w.s.committing
    ensures forall n :: n in w.s.enqueued ==>
              || n.peer in w.resolved
              || (|w.s.closest| == c.k && D(c, w.s.closest[c.k - 1].id) <= D(c, n.id))
  {
    hide D, HintsOk, AllWaiting, Once;
    AllResolved(c, w, false);
    forall n | n in w.s.enqueued
      ensures n.peer in w.resolved || (|w.s.closest| == c.k && D(c, w.s.closest[c.k - 1].id) <= D(c, n.id))
    {
      assert Accounted(c, w.s.closest, w.s.pending, Queries(w.s.sent), n);
    }
  }

  lemma AllResolved(c: Config, w: World, honest: bool)
    requires Inv(c, w, honest) && w.s.inflight == 0
    ensures forall p :: p in Queries(w.s.sent) ==> p in w.resolved
  {
    hide IsCloser, IsTopK, Complete, HintsOk, AllWaiting;
    forall p | p in Queries(w.s.sent)
      ensures p in w.resolved
    {
      if p !in w.resolved {
        OutstandingCounts(c, w, honest, p);
      }
    }
  }

  /** Top-k: the kept replies are exactly the k nearest distinct ids among the error-free
      validated responses of the run, nearest first. */
  lemma QueryTopK(c: Config, view: Option<seq<Node>>, nodes: seq<QueryNode>, view': seq<Node>, es: seq<Event>)
    requires ConfigOk(c) && ValidRun(c, Start(c, view, nodes, view'), es)
    ensures IsTopK(c, Run(c, Start(c, view, nodes, view'), es).s.closest, HeardIn(es))
  {
    hide D, Start, Run, ValidRun, IsTopK, Once, Complete, HintsOk, AllWaiting;
    StartInv(c, view, nodes, view', false);
    RunInv(c, Start(c, view, nodes, view'), es, false);
    assert [] + HeardIn(es) == HeardIn(es);
  }

  /** Never stuck, always ends: a run that is not finished can go on, and no run is longer
      than the rank of its start; when it is over there is exactly one result, and in a
      committing query the commits went to exactly the kept replies that hold tokens. */
  lemma QueryEnds(c: Config, view: Option<seq<Node>>, nodes: seq<QueryNode>, view': seq<Node>, es: seq<Event>,
                  space: nat)
    requires ConfigOk(c) && ValidRun(c, Start(c, view, nodes, view'), es)
    requires |Run(c, Start(c, view, nodes, view'), es).s.seen.Keys| <= space
    ensures var w := Run(c, Start(c, view, nodes, view'), es);
            && |es| <= Rank(c, Start(c, view, nodes, view').s, space)
            && (!w.s.finished ==> exists e :: Enabled(w, e))
            && (!w.s.finished && !w.s.committing ==> 1 <= w.s.inflight <= c.concurrency)
            && (w.s.finished ==> w.s.results == [Result(w.s.closest, w.s.successes, w.s.errors)])
            && (!w.s.finished ==> w.s.results == [])
            && (w.s.committing && c.commit ==> CommitsOf(w.s.sent) == Commits(w.s.closest))
  {
    hide IsCloser, IsTopK, Once, Complete, Start, Run, ValidRun, Rank;
    StartInv(c, view, nodes, view', false);
    RunInv(c, Start(c, view, nodes, view'), es, false);
    var w := Run(c, Start(c, view, nodes, view'), es);
    RankNonNegative(c, w.s, space);
    if !w.s.finished {
      if w.s.committing {
        assert Enabled(w, CommitDone);
      } else {
        CountsOutstanding(c, w, false);
        var p :| Outstanding(w.s, w.resolved, p);
        assert Enabled(w, Timeout(p, []));
      }
    }
  }

  /** Down hints: if replies come from the address asked, each suggestion of a node that
      is down produced exactly one hint to its referrer, in order, and no other hint was sent. */
  lemma DownHintsExact(c: Config, view: Option<seq<Node>>, nodes: seq<QueryNode>, view': seq<Node>, es: seq<Event>,
                       p: Peer)
    requires ConfigOk(c) && ValidRun(c, Start(c, view, nodes, view'), es) && AllHonest(es)
    ensures var s := Run(c, Start(c, view, nodes, view'), es).s;
            HintsFor(s.sent, p) == if p in s.seen && s.seen[p].Down? then SuggestersOf(s.suggested, p) else []
  {
    hide IsCloser, IsTopK, Once, Complete, Start, Run, ValidRun;
    StartInv(c, view, nodes, view', true);
    RunInv(c, Start(c, view, nodes, view'), es, true);
    var s := Run(c, Start(c, view, nodes, view'), es).s;
    assert HintOk(s.seen, HintsFor(s.sent, p), SuggestersOf(s.suggested, p), p);
  }
}
