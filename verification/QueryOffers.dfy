/** What offering nodes to a query does: which of the table's nodes, the explicit nodes and a
    reply's suggestions are known and queued afterwards. */
module QueryOffers {
  import opened Options
  import opened RoutingTable
  import opened QuerySpec
  import opened QueryClosest
  import opened QueryRuns

  // ---------------------------------------------------------------- queueing without a referrer

  ghost predicate Queued(enqueued: seq<QueryNode>, p: Peer) {
    exists n :: n in enqueued && n.peer == p
  }

  /** From `s` to `t` nodes are queued out of `offered` only, and nothing else is learnt. */
  ghost predicate Grows(s: State, t: State, offered: seq<QueryNode>) {
    && (forall p :: p in s.seen ==> p in t.seen && t.seen[p] == s.seen[p])
    && (forall p :: p in t.seen && p !in s.seen ==> t.seen[p].Pending? && Queued(t.enqueued, p))
    && (forall n :: n in s.enqueued ==> n in t.enqueued)
    && (forall n :: n in t.enqueued ==> n in s.enqueued || n in offered)
    && t.suggested == s.suggested && t.closest == s.closest
    && t.successes == s.successes && t.errors == s.errors
  }

  lemma GrowsTransitive(s: State, t: State, u: State, offered: seq<QueryNode>)
    requires Grows(s, t, offered) && Grows(t, u, offered)
    ensures Grows(s, u, offered)
  {
    forall p | p in u.seen && p !in s.seen
      ensures u.seen[p].Pending? && Queued(u.enqueued, p)
    {
      if p in t.seen {
        var n :| n in t.enqueued && n.peer == p;
        assert n in u.enqueued;
      }
    }
  }

  /** A node without a referrer ends up known, unless it is not nearer than the k-th kept reply. */
  lemma AddOne(c: Config, s: State, node: QueryNode, offered: seq<QueryNode>)
    requires node in offered
    ensures var t := AddPending(c, s, node, None).0;
            && Grows(s, t, offered) && Offered(s, t)
            && (node.peer in t.seen || !IsCloser(c, s.closest, node.id))
  {
    hide IsCloser;
    var t := AddPending(c, s, node, None).0;
    if node.peer in s.seen {
      if s.seen[node.peer].Pending? {
        assert s.seen[node.peer].refs + [] == s.seen[node.peer].refs;
      }
    } else if t != s {
      assert node in t.enqueued;
    }
  }

  lemma {:induction false} AddAllGrows(c: Config, s: State, nodes: seq<QueryNode>, offered: seq<QueryNode>)
    requires forall n :: n in nodes ==> n in offered
    ensures var t := AddAll(c, s, nodes);
            && Grows(s, t, offered) && Offered(s, t)
            && forall i :: 0 <= i < |nodes| ==> nodes[i].peer in t.seen || !IsCloser(c, s.closest, nodes[i].id)
    decreases |nodes|
  {
    hide IsCloser, AddPending;
    if nodes != [] {
      var s1 := AddPending(c, s, nodes[0], None).0;
      AddOne(c, s, nodes[0], offered);
      AddAllGrows(c, s1, nodes[1..], offered);
      var t := AddAll(c, s, nodes);
      GrowsTransitive(s, s1, t, offered);
      forall i | 0 <= i < |nodes|
        ensures nodes[i].peer in t.seen || !IsCloser(c, s.closest, nodes[i].id)
      {
        assert i > 0 ==> nodes[i] == nodes[1..][i - 1];
      }
    }
  }

  /** The first k nodes of a table's view are known, or not nearer than the k-th kept reply. */
  ghost predicate TableOffered(c: Config, closest: seq<Reply>, seen: set<Peer>, view: seq<Node>) {
    forall i :: 0 <= i < |view| && i < c.k ==> view[i].peer in seen || !IsCloser(c, closest, view[i].id)
  }

  lemma AddFromTableGrows(c: Config, s: State, view: seq<Node>)
    requires s.pending == [] && c.k >= 1
    ensures var t := AddFromTable(c, s, view);
            && Grows(s, t, AsQueryNodes(view)) && t.fromTable && t.committing == s.committing
            && TableOffered(c, t.closest, t.seen.Keys, view)
  {
    hide IsCloser, AddAll;
    var v := AsQueryNodes(view);
    var nodes := AsQueryNodes(Take(view, c.k));
    forall n | n in nodes
      ensures n in v
    {
      var i :| 0 <= i < |nodes| && nodes[i] == n;
      assert v[i] == n;
    }
    AddAllGrows(c, s.(fromTable := true), nodes, v);
    var t := AddFromTable(c, s, view);
    forall i | 0 <= i < |view| && i < c.k
      ensures view[i].peer in t.seen || !IsCloser(c, t.closest, view[i].id)
    {
      assert nodes[i] == QueryNode(view[i].id, view[i].peer);
    }
  }

  /** Equal in everything the origin of nodes is read from. */
  ghost predicate SameOrigins(s: State, t: State) {
    && t.seen == s.seen && t.enqueued == s.enqueued && t.suggested == s.suggested && t.closest == s.closest
    && t.successes == s.successes && t.errors == s.errors && t.fromTable == s.fromTable
  }

  lemma {:induction false} PumpSame(c: Config, s: State, limit: nat)
    ensures var t := Pump(c, s, limit);
            SameOrigins(s, t) && t.committing == s.committing && t.finished == s.finished
    decreases |s.pending|
  {
    hide IsCloser;
    if s.inflight < limit && s.pending != [] {
      PumpSame(c, PopOne(c, s), limit);
    }
  }

  lemma FlushSame(c: Config, s: State)
    ensures SameOrigins(s, Flush(c, s))
  {
    hide Commits;
  }

  /** Sending what is queued, and ending phase 1 when nothing is left. */
  ghost function Drive(c: Config, s: State): State {
    var s1 := PumpAndSlow(c, s);
    if s1.pending != [] || s1.inflight > 0 then s1 else Flush(c, s1)
  }

  lemma DriveSame(c: Config, s: State)
    ensures SameOrigins(s, Drive(c, s)) && SameOrigins(s, PumpAndSlow(c, s))
    ensures PumpAndSlow(c, s).committing == s.committing
  {
    hide IsCloser, Pump, Flush;
    PumpSame(c, s, EffectiveConcurrency(c, s));
    FlushSame(c, PumpAndSlow(c, s));
  }

  lemma GrowsSame(s: State, t: State, u: State, offered: seq<QueryNode>)
    requires Grows(s, t, offered) && SameOrigins(t, u)
    ensures Grows(s, u, offered)
  {
  }

  lemma SameGrows(s: State, t: State, offered: seq<QueryNode>)
    requires SameOrigins(s, t)
    ensures Grows(s, t, offered)
  {
  }

  /** Driving the query: nodes come from the table only, the fallback takes its first k, and
      phase 1 ends only with the table used or a quarter of k answers in. */
  lemma ReadMoreGrows(c: Config, s: State, view: seq<Node>)
    requires c.k >= 1 && !s.committing
    ensures var t := ReadMore(c, s, view);
            && Grows(s, t, AsQueryNodes(view))
            && (s.fromTable ==> t.fromTable)
            && (t.fromTable ==> s.fromTable || TableOffered(c, t.closest, t.seen.Keys, view))
            && (t.committing ==> t.fromTable || t.successes >= c.k / 4)
  {
    var offered := AsQueryNodes(view);
    var s1, t := PumpAndSlow(c, s), ReadMore(c, s, view);
    DriveSame(c, s);
    SameGrows(s, s1, offered);
    SameGrows(s, Drive(c, s), offered);
    SameGrows(s, s, offered);
    hide IsCloser, PumpAndSlow, AddFromTable, TableOffered, Flush, Grows, AsQueryNodes;
    if !s.finished && s1.pending == [] && s1.inflight == 0 && !s1.fromTable && s1.successes < c.k / 4 {
      var s2 := AddFromTable(c, s1, view);
      AddFromTableGrows(c, s1, view);
      GrowsTransitive(s, s1, s2, offered);
      DriveSame(c, s2);
      FlushSame(c, s2);
      GrowsSame(s, s2, t, offered);
    }
  }

  // ---------------------------------------------------------------- following suggestions

  /** The suggestions a reply makes, without this node itself. */
  ghost function Suggestions(c: Config, peers: seq<Peer>, from: Peer): seq<Suggestion> {
    if peers == [] then []
    else
      var n := |peers| - 1;
      Suggestions(c, peers[..n], from) +
      (if c.idOf(peers[n]) == c.ownId then [] else [Suggestion(from, peers[n])])
  }

  /** The suggestion at i is not this node and not nearer than the k-th kept reply. */
  ghost predicate Beyond(c: Config, closest: seq<Reply>, peers: seq<Peer>, i: nat) {
    i < |peers| && c.idOf(peers[i]) != c.ownId && !IsCloser(c, closest, c.idOf(peers[i]))
  }

  /** The first `cut` suggestions of a list are known or are this node; it is left early only
      at one that is not nearer than the k-th kept reply. */
  ghost predicate Offers(c: Config, closest: seq<Reply>, seen: set<Peer>, peers: seq<Peer>, cut: nat) {
    && cut <= |peers|
    && (forall j :: 0 <= j < cut ==> c.idOf(peers[j]) == c.ownId || peers[j] in seen)
    && (cut < |peers| ==> Beyond(c, closest, peers, cut) || (cut >= 1 && Beyond(c, closest, peers, cut - 1)))
  }

  ghost predicate SuggestedNode(c: Config, peers: seq<Peer>, n: QueryNode) {
    n.peer in peers && n.id == c.idOf(n.peer) && n.id != c.ownId
  }

  ghost predicate SameKind(a: Seen, b: Seen) {
    a.Pending? == b.Pending? && a.Done? == b.Done?
  }

  /** From `s` to `t` nodes are queued out of the suggestions `peers` only. */
  ghost predicate GrowsBy(c: Config, s: State, t: State, peers: seq<Peer>) {
    && (forall p :: p in s.seen ==> p in t.seen && SameKind(s.seen[p], t.seen[p]))
    && (forall p :: p in t.seen && p !in s.seen ==> t.seen[p].Pending? && Queued(t.enqueued, p))
    && (forall n :: n in s.enqueued ==> n in t.enqueued)
    && (forall n :: n in t.enqueued ==> n in s.enqueued || SuggestedNode(c, peers, n))
  }

  ghost predicate SameCounts(s: State, t: State) {
    t.successes == s.successes && t.errors == s.errors
  }

  lemma GrowsByTransitive(c: Config, s: State, t: State, u: State, peers: seq<Peer>, rest: seq<Peer>)
    requires GrowsBy(c, s, t, peers) && GrowsBy(c, t, u, rest) && forall p :: p in rest ==> p in peers
    ensures GrowsBy(c, s, u, peers)
  {
    forall p | p in u.seen && p !in s.seen
      ensures u.seen[p].Pending? && Queued(u.enqueued, p)
    {
      if p in t.seen {
        var n :| n in t.enqueued && n.peer == p;
        assert n in u.enqueued;
      }
    }
  }

  lemma GrowsByMarks(c: Config, s: State, t: State, peers: seq<Peer>)
    requires t.enqueued == s.enqueued && t.seen.Keys == s.seen.Keys
    requires forall p :: p in s.seen ==> SameKind(s.seen[p], t.seen[p])
    ensures GrowsBy(c, s, t, peers)
  {
    hide SuggestedNode, Queued;
  }

  lemma SuggestedAgain(c: Config, s: State, peers: seq<Peer>, from: Peer)
    requires peers != [] && peers[0] in s.seen
    ensures var t := Again(s, peers[0], Some(from));
            && GrowsBy(c, s, t, peers) && Offered(s, t) && SameCounts(s, t) && t.seen.Keys == s.seen.Keys
            && t.suggested == s.suggested + [Suggestion(from, peers[0])]
  {
    hide GrowsBy;
    var t := Again(s, peers[0], Some(from));
    assert t.seen.Keys == s.seen.Keys;
    GrowsByMarks(c, s, t, peers);
  }

  lemma SuggestedNew(c: Config, s: State, peers: seq<Peer>, from: Peer)
    requires peers != [] && c.idOf(peers[0]) != c.ownId && peers[0] !in s.seen
    requires IsCloser(c, s.closest, c.idOf(peers[0]))
    ensures var t := AddPending(c, s, QueryNode(c.idOf(peers[0]), peers[0]), Some(from)).0;
            && GrowsBy(c, s, t, peers) && Offered(s, t) && SameCounts(s, t) && peers[0] in t.seen
            && t.suggested == s.suggested + [Suggestion(from, peers[0])]
  {
    hide IsCloser;
    var node := QueryNode(c.idOf(peers[0]), peers[0]);
    var t := AddPending(c, s, node, Some(from)).0;
    assert node in t.enqueued && Queued(t.enqueued, peers[0]);
  }

  /** One suggestion: recorded and known afterwards, unless it is new and not nearer. */
  lemma SuggestedOne(c: Config, s: State, peers: seq<Peer>, from: Peer)
    requires peers != [] && c.idOf(peers[0]) != c.ownId
    ensures var (t, stop) := AddPending(c, s, QueryNode(c.idOf(peers[0]), peers[0]), Some(from));
            && GrowsBy(c, s, t, peers) && Offered(s, t) && SameCounts(s, t)
            && stop == Beyond(c, s.closest, peers, 0)
            && (if stop && peers[0] !in s.seen then t == s
                else peers[0] in t.seen && t.suggested == s.suggested + [Suggestion(from, peers[0])])
  {
    if peers[0] in s.seen {
      SuggestedAgain(c, s, peers, from);
    } else if IsCloser(c, s.closest, c.idOf(peers[0])) {
      SuggestedNew(c, s, peers, from);
    }
    hide IsCloser, Again, Offered;
  }

  lemma {:induction false} SuggestionsCons(c: Config, peers: seq<Peer>, from: Peer)
    requires peers != []
    ensures Suggestions(c, peers, from) ==
            (if c.idOf(peers[0]) == c.ownId then [] else [Suggestion(from, peers[0])]) +
            Suggestions(c, peers[1..], from)
    decreases |peers|
  {
    var n := |peers| - 1;
    if n == 0 {
      assert peers[..0] == [] && peers[1..] == [];
    } else {
      SuggestionsCons(c, peers[..n], from);
      assert peers[..n][1..] == peers[1..][..n - 1];
      assert peers[1..][n - 1] == peers[n];
    }
  }

  lemma OffersCons(c: Config, closest: seq<Reply>, seen: set<Peer>, peers: seq<Peer>, cut: nat)
    requires peers != [] && Offers(c, closest, seen, peers[1..], cut)
    requires c.idOf(peers[0]) == c.ownId || peers[0] in seen
    ensures Offers(c, closest, seen, peers, cut + 1)
  {
    hide IsCloser;
    forall j | 0 <= j < cut + 1
      ensures c.idOf(peers[j]) == c.ownId || peers[j] in seen
    {
      assert j > 0 ==> peers[j] == peers[1..][j - 1];
    }
    if cut < |peers[1..]| {
      if Beyond(c, closest, peers[1..], cut) {
        assert Beyond(c, closest, peers, cut + 1);
      } else {
        assert peers[1..][cut - 1] == peers[cut];
        assert Beyond(c, closest, peers, cut);
      }
    }
  }

  /** A list left at its first suggestion, which was either recorded or new. */
  lemma OffersLeft(c: Config, closest: seq<Reply>, seen: set<Peer>, peers: seq<Peer>, from: Peer)
    requires Beyond(c, closest, peers, 0)
    ensures Offers(c, closest, seen, peers, 0) && Suggestions(c, peers[..0], from) == []
    ensures peers[0] in seen ==>
              Offers(c, closest, seen, peers, 1) && Suggestions(c, peers[..1], from) == [Suggestion(from, peers[0])]
  {
    hide IsCloser;
    assert peers[..1][..0] == [];
  }

  lemma SuggestionsTail(c: Config, peers: seq<Peer>, from: Peer, cut: nat)
    requires cut < |peers|
    ensures Suggestions(c, peers[..cut + 1], from) ==
            (if c.idOf(peers[0]) == c.ownId then [] else [Suggestion(from, peers[0])]) +
            Suggestions(c, peers[1..][..cut], from)
  {
    SuggestionsCons(c, peers[..cut + 1], from);
    assert peers[..cut + 1][1..] == peers[1..][..cut];
  }

  lemma OffersBounded(c: Config, closest: seq<Reply>, seen: set<Peer>, peers: seq<Peer>, cut: nat)
    requires Offers(c, closest, seen, peers, cut)
    ensures cut <= |peers|
  {
  }

  lemma GrowsBySelf(c: Config, s: State, peers: seq<Peer>)
    ensures GrowsBy(c, s, s, peers) && Offered(s, s) && SameCounts(s, s)
  {
  }

  lemma GrowsByKeys(c: Config, s: State, t: State, peers: seq<Peer>)
    requires GrowsBy(c, s, t, peers)
    ensures s.seen.Keys <= t.seen.Keys
  {
  }

  /** From `s` to `t` the first `cut` suggestions of a reply were taken. */
  ghost predicate Took(c: Config, s: State, t: State, peers: seq<Peer>, from: Peer, cut: nat) {
    && GrowsBy(c, s, t, peers) && Offered(s, t) && SameCounts(s, t)
    && Offers(c, s.closest, t.seen.Keys, peers, cut)
    && t.suggested == s.suggested + Suggestions(c, peers[..cut], from)
  }

  lemma TookCons(c: Config, s: State, s1: State, t: State, peers: seq<Peer>, from: Peer, cut: nat)
    requires peers != [] && Took(c, s1, t, peers[1..], from, cut)
    requires GrowsBy(c, s, s1, peers) && Offered(s, s1) && SameCounts(s, s1)
    requires if c.idOf(peers[0]) == c.ownId then s1 == s
             else peers[0] in s1.seen && s1.suggested == s.suggested + [Suggestion(from, peers[0])]
    ensures Took(c, s, t, peers, from, cut + 1)
  {
    hide IsCloser, GrowsBy, Offers, Suggestions;
    OffersBounded(c, s1.closest, t.seen.Keys, peers[1..], cut);
    SuggestionsTail(c, peers, from, cut);
    GrowsByKeys(c, s1, t, peers[1..]);
    GrowsByTransitive(c, s, s1, t, peers, peers[1..]);
    OffersCons(c, s.closest, t.seen.Keys, peers, cut);
  }

  lemma TookNothing(c: Config, s: State, from: Peer)
    ensures Took(c, s, s, [], from, 0)
  {
    hide IsCloser;
  }

  /** A reply's suggestions are taken in order, each known afterwards, up to the first that is
      not nearer than the k-th kept reply. */
  lemma {:induction false} AddCloserTakes(c: Config, s: State, peers: seq<Peer>, from: Peer) returns (cut: nat)
    ensures Took(c, s, AddCloser(c, s, peers, from), peers, from, cut)
    decreases |peers|
  {
    hide IsCloser, AddPending, GrowsBy, Offers, Offered, Beyond, Suggestions;
    cut := 0;
    if peers == [] {
      TookNothing(c, s, from);
    } else if c.idOf(peers[0]) == c.ownId {
      hide Took;
      cut := AddCloserTakes(c, s, peers[1..], from);
      GrowsBySelf(c, s, peers);
      TookCons(c, s, s, AddCloser(c, s, peers, from), peers, from, cut);
      cut := cut + 1;
    } else {
      cut := TakeFirst(c, s, peers, from);
    }
  }

  lemma {:induction false} TakeFirst(c: Config, s: State, peers: seq<Peer>, from: Peer) returns (cut: nat)
    requires peers != [] && c.idOf(peers[0]) != c.ownId
    ensures Took(c, s, AddCloser(c, s, peers, from), peers, from, cut)
    decreases |peers|, 0
  {
    hide IsCloser, AddPending, GrowsBy, Offers, Offered, Beyond, Suggestions;
    var (s1, stop) := AddPending(c, s, QueryNode(c.idOf(peers[0]), peers[0]), Some(from));
    SuggestedOne(c, s, peers, from);
    if stop {
      OffersLeft(c, s.closest, s1.seen.Keys, peers, from);
      cut := if peers[0] in s1.seen then 1 else 0;
    } else {
      hide Took;
      cut := AddCloserTakes(c, s1, peers[1..], from);
      TookCons(c, s, s1, AddCloser(c, s, peers, from), peers, from, cut);
      cut := cut + 1;
    }
  }
}
