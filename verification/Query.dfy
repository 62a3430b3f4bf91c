/** The iterative query engine, updating its fields in place; every method is proved
    to take the step that module QuerySpec defines. */
module Query {
  import opened Options
  import opened XorMetric
  import opened RoutingTable
  import opened QuerySpec

  class Query {
    const target: NodeId
    const k: nat
    const concurrency: nat
    const commit: bool
    const ownId: NodeId
    const idOf: Peer -> NodeId
    const table: RoutingTable

    var inflight: nat
    var slowdown: bool
    var successes: nat
    var errors: nat
    var fromTable: bool
    var committing: bool
    var commitInflight: nat
    var seen: map<Peer, Seen>
    var pending: seq<QueryNode>
    var closest: seq<Reply>
    var finished: bool
    var results: seq<Result>

    ghost var heard: seq<Reply>
    ghost var enqueued: seq<QueryNode>
    ghost var suggested: seq<Suggestion>
    ghost var sent: seq<Request>

    ghost function Conf(): Config {
      Config(target, k, concurrency, commit, ownId, idOf)
    }

    ghost function Model(): State
      reads this
    {
      State(inflight, slowdown, successes, errors, fromTable, committing, commitInflight, seen, pending,
            closest, finished, results, heard, enqueued, suggested, sent)
    }

    ghost function View(): seq<Node>
      reads table
    {
      table.View(target)
    }

    constructor (target: NodeId, concurrency: nat, commit: bool, table: RoutingTable, ownId: NodeId,
                 idOf: Peer -> NodeId, k: nat)
      ensures Model() == INITIAL && Conf() == Config(target, k, concurrency, commit, ownId, idOf)
      ensures this.table == table
    {
      this.target, this.k, this.concurrency, this.commit := target, k, concurrency, commit;
      this.ownId, this.idOf, this.table := ownId, idOf, table;
      inflight, slowdown, successes, errors, fromTable := 0, false, 0, 0, false;
      committing, commitInflight, seen, pending, closest := false, 0, map[], [], [];
      finished, results := false, [];
      heard, enqueued, suggested, sent := [], [], [], [];
    }

    method CheckCloser(id: NodeId) returns (closer: bool)
      requires ConfigOk(Conf())
      ensures closer == IsCloser(Conf(), closest, id)
    {
      if |closest| < k {
        return true;
      }
      var c := Compare(target, id, closest[|closest| - 1].id);
      return c < 0;
    }

    ghost predicate Valid()
      reads this
    {
      ConfigOk(Conf()) && |closest| <= k
    }

    /** Append the reply and bubble it up to its place; a duplicate id is removed again. */
    method PushReply(reply: Reply)
      requires |closest| <= k
      modifies this`closest
      ensures closest == PushClosest(Conf(), old(closest), reply)
      ensures |closest| <= k
    {
      hide Distance, InsertReply;
      ghost var orig := closest;
      closest := closest + [reply];
      var i := |closest| - 2;
      assert orig[..|orig|] == orig;
      InsertLength(Conf(), orig, reply);
      while i >= 0
        invariant -1 <= i < |orig|
        invariant closest == orig[..i + 1] + [reply] + orig[i + 1..]
        invariant InsertReply(Conf(), orig, reply) == InsertReply(Conf(), orig[..i + 1], reply) + orig[i + 1..]
      {
        SwapUp(orig, i, reply);
        var c := Compare(target, closest[i].id, reply.id);
        InsertUnfold(Conf(), orig, i, reply);
        if c < 0 {
          break;
        }
        if c == 0 {
          closest := closest[..i + 1] + closest[i + 2..];
          return;
        }
        closest := closest[i := closest[i + 1]][i + 1 := closest[i]];
        i := i - 1;
      }
      if i < 0 {
        InsertEmpty(Conf(), orig, reply);
      }
      if |closest| > k {
        closest := closest[..|closest| - 1];
      }
    }

    /** Offer a node; says whether to abandon the list it came from, and any hint to send. */
    method AddPendingReturning(node: QueryNode, referrer: Option<Peer>) returns (stop: bool, hint: Option<Request>)
      requires Valid()
      modifies this`seen, this`pending, this`enqueued, this`suggested, this`sent
      ensures (Model(), stop) == AddPending(Conf(), old(Model()), node, referrer)
      ensures sent == old(sent) + OptionSeq(hint)
      ensures referrer.None? ==> hint.None?
    {
      var closer := CheckCloser(node.id);
      stop, hint := !closer, None;
      if node.peer in seen {
        hint := NoteAgain(node.peer, referrer);
      } else if closer {
        suggested := Suggest(Model(), referrer, node.peer).suggested;
        seen := seen[node.peer := Pending(RefsOf(referrer))];
        pending := pending + [node];
        enqueued := enqueued + [node];
      }
    }

    /** A known node was suggested again: remember the referrer, or hint that it is down. */
    method NoteAgain(peer: Peer, referrer: Option<Peer>) returns (hint: Option<Request>)
      requires peer in seen
      modifies this`seen, this`suggested, this`sent
      ensures Model() == Again(old(Model()), peer, referrer)
      ensures sent == old(sent) + OptionSeq(hint)
      ensures referrer.None? ==> hint.None?
    {
      hint := None;
      suggested := Suggest(Model(), referrer, peer).suggested;
      match seen[peer] {
        case Done =>
        case Down =>
          if referrer.Some? {
            hint := Some(DownHint(referrer.value, peer));
            sent := sent + [hint.value];
          }
        case Pending(refs) =>
          seen := seen[peer := Pending(refs + RefsOf(referrer))];
      }
    }

    method AddEach(nodes: seq<QueryNode>)
      requires Valid()
      modifies this`seen, this`pending, this`enqueued, this`suggested, this`sent
      ensures Model() == AddAll(Conf(), old(Model()), nodes)
      ensures sent == old(sent)
    {
      hide AddPending;
      assert nodes[0..] == nodes;
      for i := 0 to |nodes|
        invariant AddAll(Conf(), Model(), nodes[i..]) == AddAll(Conf(), old(Model()), nodes)
        invariant sent == old(sent) && Valid()
      {
        assert nodes[i..][0] == nodes[i] && nodes[i..][1..] == nodes[i + 1..];
        var stop, hint := AddPendingReturning(nodes[i], None);
      }
    }

    /** Add explicit addresses, leaving out our own. */
    method AddNodes(peers: seq<Peer>)
      requires Valid()
      modifies this`seen, this`pending, this`enqueued, this`suggested, this`sent
      ensures Model() == AddAll(Conf(), old(Model()), Explicit(Conf(), peers))
      ensures sent == old(sent)
    {
      hide AddPending;
      assert peers[0..] == peers;
      for i := 0 to |peers|
        invariant AddAll(Conf(), Model(), Explicit(Conf(), peers[i..])) ==
                  AddAll(Conf(), old(Model()), Explicit(Conf(), peers))
        invariant sent == old(sent) && Valid()
      {
        assert peers[i..][0] == peers[i] && peers[i..][1..] == peers[i + 1..];
        var id := idOf(peers[i]);
        if id == ownId {
          continue;
        }
        var stop, hint := AddPendingReturning(QueryNode(id, peers[i]), None);
        ghost var all := Explicit(Conf(), peers[i..]);
        assert all[0] == QueryNode(id, peers[i]) && all[1..] == Explicit(Conf(), peers[i + 1..]);
      }
    }

    method AddTableNodes()
      requires Valid() && table.Valid()
      modifies this`seen, this`pending, this`enqueued, this`suggested, this`sent, this`fromTable
      ensures Model() == AddFromTable(Conf(), old(Model()), View())
      ensures sent == old(sent)
    {
      hide AddAll, Take, WellFormed, Represents, ScanOrder, Stores, SumLengths;
      if |pending| >= k {
        return;
      }
      fromTable := true;
      var nodes := table.Closest(target, k - |pending|);
      AddEach(AsQueryNodes(nodes));
    }

    /** Pop pending nodes while the limit allows, requesting those that are still closer. */
    method PumpPending(limit: nat) returns (requests: seq<Request>)
      requires Valid()
      modifies this`pending, this`inflight, this`sent
      ensures Model() == Pump(Conf(), old(Model()), limit)
      ensures sent == old(sent) + requests
    {
      hide IsCloser, Pump;
      requests := [];
      while inflight < limit && pending != []
        invariant Pump(Conf(), Model(), limit) == Pump(Conf(), old(Model()), limit)
        invariant sent == old(sent) + requests && Valid()
        decreases |pending|
      {
        PumpUnfold(Conf(), Model(), limit);
        var next := pending[|pending| - 1];
        pending := pending[..|pending| - 1];
        var closer := CheckCloser(next.id);
        if !closer {
          continue;
        }
        inflight := inflight + 1;
        requests := requests + [QueryRequest(next.peer)];
        sent := sent + [QueryRequest(next.peer)];
      }
      PumpUnfold(Conf(), Model(), limit);
    }

    method FinishInternal()
      modifies this`finished, this`results
      ensures Model() == Finish(old(Model()))
    {
      if finished {
        return;
      }
      finished := true;
      results := results + [Result(closest, successes, errors)];
    }

    /** Enter the commit phase: re-request the kept replies that hold a token. */
    method FlushReplies() returns (requests: seq<Request>)
      modifies this`committing, this`commitInflight, this`finished, this`results, this`sent
      ensures Model() == Flush(Conf(), old(Model()))
      ensures sent == old(sent) + requests
    {
      requests := [];
      if committing {
        return;
      }
      committing := true;
      if !commit {
        FinishInternal();
        return;
      }
      var commits := CollectCommits();
      commitInflight := |commits|;
      if commitInflight == 0 {
        FinishInternal();
        return;
      }
      requests := commits;
      sent := sent + commits;
    }

    method CollectCommits() returns (commits: seq<Request>)
      ensures commits == Commits(closest)
    {
      commits := [];
      for i := 0 to |closest|
        invariant commits == Commits(closest[..i])
      {
        assert closest[..i + 1][..i] == closest[..i];
        if closest[i].token.Some? {
          commits := commits + [CommitRequest(closest[i].from, closest[i].token.value)];
        }
      }
      assert closest[..|closest|] == closest;
    }

    /** Pop what the limit allows and start the initial slowdown. */
    method PumpThenSlow() returns (requests: seq<Request>)
      requires Valid()
      modifies this`pending, this`inflight, this`sent, this`slowdown
      ensures Model() == PumpAndSlow(Conf(), old(Model()))
      ensures sent == old(sent) + requests
    {
      hide Pump, IsCloser;
      var limit := if slowdown && concurrency > 3 then 3 else concurrency;
      requests := PumpPending(limit);
      if !fromTable && successes == 0 && errors == 0 {
        slowdown := true;
      }
    }

    /** The driver: send what the limit allows; when nothing is left, fall back to the
        routing table once, then finish. */
    method ReadMoreRequests() returns (requests: seq<Request>)
      requires Valid() && table.Valid()
      modifies this
      ensures Model() == ReadMore(Conf(), old(Model()), View()) && closest == old(closest)
      ensures sent == old(sent) + requests
      decreases if fromTable then 0 else 1
    {
      hide PumpAndSlow, AddFromTable, Flush, WellFormed, Represents, ScanOrder, Stores, SumLengths;
      if finished || committing {
        return [];
      }
      requests := PumpThenSlow();
      if pending != [] {
        return;
      }
      if inflight == 0 {
        if !fromTable && successes < k / 4 {
          AddTableNodes();
          if pending != [] {
            FallbackOnce(Conf(), old(Model()), View());
            var more := ReadMoreRequests();
            requests := requests + more;
            return;
          }
        }
        var more := FlushReplies();
        requests := requests + more;
      }
    }

    /** The initial requests. */
    method PollRequests() returns (requests: seq<Request>)
      requires Valid() && table.Valid()
      modifies this
      ensures Model() == ReadMore(Conf(), old(Model()), View()) && Valid()
      ensures sent == old(sent) + requests
    {
      requests := ReadMoreRequests();
    }

    /** Keep a validated reply if it is closer than the farthest kept one. */
    method LearnReply(data: Response)
      requires Valid()
      modifies this`closest, this`heard
      ensures Model() == Learn(Conf(), old(Model()), data) && Valid()
    {
      hide IsCloser, PushClosest;
      if data.error == 0 {
        if data.fromId.Some? {
          var reply := Reply(data.from, data.fromId.value, data.token, data.closer);
          heard := heard + [reply];
          var closer := CheckCloser(reply.id);
          if closer {
            PushReply(reply);
          }
        }
      }
    }

    /** Offer the suggested nodes, stopping at the first that is not closer. */
    method AddSuggested(peers: seq<Peer>, from: Peer) returns (requests: seq<Request>)
      requires Valid()
      modifies this`seen, this`pending, this`enqueued, this`suggested, this`sent
      ensures Model() == AddCloser(Conf(), old(Model()), peers, from) && Valid()
      ensures sent == old(sent) + requests
    {
      hide AddPending;
      requests := [];
      assert peers[0..] == peers;
      for i := 0 to |peers|
        invariant AddCloser(Conf(), Model(), peers[i..], from) == AddCloser(Conf(), old(Model()), peers, from)
        invariant sent == old(sent) + requests && Valid()
      {
        assert peers[i..][0] == peers[i] && peers[i..][1..] == peers[i + 1..];
        var id := idOf(peers[i]);
        if id == ownId {
          continue;
        }
        var stop, hint := AddPendingReturning(QueryNode(id, peers[i]), Some(from));
        requests := requests + OptionSeq(hint);
        if stop {
          return;
        }
      }
    }

    method ResolveInflight(peer: Peer, outcome: Seen)
      modifies this`inflight, this`seen
      ensures Model() == Resolve(old(Model()), peer, outcome)
    {
      if inflight > 0 {
        inflight := inflight - 1;
      }
      seen := seen[peer := outcome];
    }

    method CountReply(data: Response)
      requires Valid()
      modifies this`successes, this`errors
      ensures Model() == Accept(old(Model()), data) && Valid()
    {
      if data.error == 0 {
        successes := successes + 1;
      } else {
        errors := errors + 1;
      }
    }

    method LeaveSlowdown()
      requires Valid()
      modifies this`slowdown
      ensures Model() == Unslow(Conf(), old(Model())) && Valid()
    {
      if !fromTable && successes + errors >= concurrency {
        slowdown := false;
      }
    }

    /** Count a reply, keep it, and offer the nodes it suggests. */
    method TakeIn(data: Response) returns (requests: seq<Request>)
      requires Valid()
      modifies this
      ensures Model() == Unslow(Conf(),
                                AddCloser(Conf(), Learn(Conf(), Accept(old(Model()), data), data), data.closer,
                                          data.from))
      ensures Valid() && sent == old(sent) + requests
    {
      hide IsCloser, Learn, AddCloser, Accept, Unslow;
      CountReply(data);
      LearnReply(data);
      requests := AddSuggested(data.closer, data.from);
      LeaveSlowdown();
    }

    method OnResponse(data: Response) returns (requests: seq<Request>)
      requires Valid() && table.Valid()
      modifies this
      ensures Model() == QuerySpec.OnResponse(Conf(), old(Model()), data, View()) && Valid()
      ensures sent == old(sent) + requests
    {
      hide Learn, AddCloser, ReadMore, Unslow, Accept, Resolve;
      hide WellFormed, Represents, ScanOrder, Stores, SumLengths;
      ResolveInflight(data.from, Done);
      if committing {
        return [];
      }
      requests := TakeIn(data);
      var more := ReadMoreRequests();
      requests := requests + more;
    }

    method OnTimeout(to: Peer) returns (requests: seq<Request>)
      requires Valid() && table.Valid()
      modifies this
      ensures Model() == QuerySpec.OnTimeout(Conf(), old(Model()), to, View()) && Valid()
      ensures sent == old(sent) + requests
    {
      hide ReadMore, WellFormed, Represents, ScanOrder, Stores, SumLengths, Hints, IsCloser;
      var refs := if to in seen && seen[to].Pending? then seen[to].refs else [];
      ResolveInflight(to, Down);
      requests := Hints(refs, to);
      sent := sent + requests;
      errors := errors + 1;
      if !committing {
        var more := ReadMoreRequests();
        requests := requests + more;
      }
    }

    method OnCommitDone() returns (done: bool)
      requires Valid()
      modifies this`commitInflight, this`finished, this`results
      ensures Model() == QuerySpec.OnCommitDone(old(Model())) && Valid()
      ensures done <==> commitInflight == 0
    {
      if commitInflight > 0 {
        commitInflight := commitInflight - 1;
      }
      if commitInflight == 0 {
        FinishInternal();
        return true;
      }
      return false;
    }
  }

  lemma PumpUnfold(c: Config, s: State, limit: nat)
    ensures Pump(c, s, limit) ==
            if s.inflight >= limit || s.pending == [] then s
            else
              var n := |s.pending| - 1;
              var s1 := s.(pending := s.pending[..n]);
              if IsCloser(c, s.closest, s.pending[n].id)
              then Pump(c, Emit(s1.(inflight := s.inflight + 1), QueryRequest(s.pending[n].peer)), limit)
              else Pump(c, s1, limit)
  {
    hide IsCloser;
  }

  lemma {:induction false} PumpKeeps(c: Config, s: State, limit: nat)
    ensures var t := Pump(c, s, limit);
            && t.fromTable == s.fromTable && t.committing == s.committing && t.finished == s.finished
            && t.closest == s.closest && t.successes == s.successes && t.errors == s.errors
    decreases |s.pending|
  {
    hide IsCloser;
    if s.inflight < limit && s.pending != [] {
      var n := |s.pending| - 1;
      var s1 := s.(pending := s.pending[..n]);
      if IsCloser(c, s.closest, s.pending[n].id) {
        PumpKeeps(c, Emit(s1.(inflight := s.inflight + 1), QueryRequest(s.pending[n].peer)), limit);
      } else {
        PumpKeeps(c, s1, limit);
      }
    }
  }

  lemma {:induction false} AddAllKeeps(c: Config, s: State, nodes: seq<QueryNode>)
    ensures var t := AddAll(c, s, nodes);
            t.fromTable == s.fromTable && t.committing == s.committing && t.finished == s.finished &&
              t.closest == s.closest
    decreases |nodes|
  {
    hide IsCloser;
    if nodes != [] {
      AddAllKeeps(c, AddPending(c, s, nodes[0], None).0, nodes[1..]);
    }
  }

  /** The driver falls back to the routing table at most once. */
  lemma FallbackOnce(c: Config, s: State, view: seq<Node>)
    requires c.k >= 1 && !s.committing && !s.finished
    requires PumpAndSlow(c, s).pending == [] && PumpAndSlow(c, s).inflight == 0
    requires !PumpAndSlow(c, s).fromTable && PumpAndSlow(c, s).successes < c.k / 4
    requires AddFromTable(c, PumpAndSlow(c, s), view).pending != []
    ensures AddFromTable(c, PumpAndSlow(c, s), view).fromTable && !s.fromTable
    ensures ReadMore(c, s, view) == ReadMore(c, AddFromTable(c, PumpAndSlow(c, s), view), view)
  {
    hide Pump, Flush, AddAll;
    PumpKeeps(c, s, EffectiveConcurrency(c, s));
    var s1 := PumpAndSlow(c, s);
    var s2 := AddFromTable(c, s1, view);
    AddAllKeeps(c, s1.(fromTable := true), AsQueryNodes(Take(view, c.k)));
    PumpKeeps(c, s2, EffectiveConcurrency(c, s2));
  }

  ghost function Explicit(c: Config, peers: seq<Peer>): seq<QueryNode>
    decreases |peers|
  {
    if peers == [] then []
    else if c.idOf(peers[0]) == c.ownId then Explicit(c, peers[1..])
    else [QueryNode(c.idOf(peers[0]), peers[0])] + Explicit(c, peers[1..])
  }

  function OptionSeq<T>(o: Option<T>): seq<T> {
    match o case Some(x) => [x] case None => []
  }

  lemma {:induction false} InsertLength(c: Config, s: seq<Reply>, r: Reply)
    ensures |s| <= |InsertReply(c, s, r)| <= |s| + 1
  {
    hide D;
    if s != [] {
      InsertLength(c, s[..|s| - 1], r);
    }
  }

  /** Where a bubbling reply goes at index `i + 1`: swapped with its left neighbour, or removed. */
  lemma SwapUp(orig: seq<Reply>, i: nat, r: Reply)
    requires i < |orig|
    ensures var c := orig[..i + 1] + [r] + orig[i + 1..];
            && c[i] == orig[i]
            && c[i := c[i + 1]][i + 1 := c[i]] == orig[..i] + [r] + orig[i..]
            && c[..i + 1] + c[i + 2..] == orig == orig[..i + 1] + orig[i + 1..]
            && orig[i..] == [orig[i]] + orig[i + 1..]
  {
  }

  /** One comparison of the insertion, seen from the back. */
  lemma InsertUnfold(c: Config, s: seq<Reply>, i: nat, r: Reply)
    requires i < |s|
    ensures InsertReply(c, s[..i + 1], r) ==
            if D(c, s[i].id) < D(c, r.id) then s[..i + 1] + [r]
            else if s[i].id == r.id then s[..i + 1]
            else InsertReply(c, s[..i], r) + [s[i]]
  {
    hide D;
    assert s[..i + 1][..i] == s[..i];
  }

  lemma InsertEmpty(c: Config, s: seq<Reply>, r: Reply)
    ensures InsertReply(c, s[..0], r) == [r]
  {
  }
}
