/** Every run of a query read from its inputs alone: which nodes it queues, which suggestions
    it follows, what it counts and whom it tells that a node is down. */
module QueryOrigins {
  import opened Options
  import opened RoutingTable
  import opened QuerySpec
  import opened QueryClosest
  import opened QueryRuns
  import opened QueryOffers

  type Event = QueryRuns.Event

  // ---------------------------------------------------------------- one event

  /** What was not nearer than the k-th kept reply stays so. */
  ghost predicate Tightens(c: Config, closest: seq<Reply>, closest': seq<Reply>) {
    forall id :: !IsCloser(c, closest, id) ==> !IsCloser(c, closest', id)
  }

  ghost predicate Resolves(e: Event, p: Peer) {
    (e.Respond? && e.data.from == p) || (e.Timeout? && e.asked == p)
  }

  ghost predicate SourcedBy(c: Config, e: Event, n: QueryNode) {
    || (e.Respond? && SuggestedNode(c, e.data.closer, n))
    || (!e.CommitDone? && n in AsQueryNodes(e.view))
  }

  /** What an event does to the known and queued nodes. */
  ghost predicate Learns(c: Config, s: State, t: State, e: Event) {
    && (forall p :: p in s.seen && !Resolves(e, p) ==> p in t.seen && SameKind(s.seen[p], t.seen[p]))
    && (forall p :: p in t.seen && p !in s.seen && !Resolves(e, p) ==> t.seen[p].Pending? && Queued(t.enqueued, p))
    && (e.Respond? ==> e.data.from in t.seen && t.seen[e.data.from].Done?)
    && (e.Timeout? ==> e.asked in t.seen && t.seen[e.asked].Down?)
    && (forall n :: n in s.enqueued ==> n in t.enqueued)
    && (forall n :: n in t.enqueued ==> n in s.enqueued || SourcedBy(c, e, n))
  }

  ghost predicate Answered(e: Event) {
    e.Respond? && e.data.error == 0
  }

  ghost predicate Failed(e: Event) {
    (e.Respond? && e.data.error != 0) || e.Timeout?
  }

  /** What an event counts and records. */
  ghost predicate Records(c: Config, s: State, t: State, e: Event, cut: nat) {
    && t.successes == s.successes + (if Answered(e) then 1 else 0)
    && t.errors == s.errors + (if Failed(e) then 1 else 0)
    && (e.Respond? ==> Offers(c, t.closest, t.seen.Keys, e.data.closer, cut))
    && t.suggested == s.suggested + TakenBy(c, e, cut)
  }

  ghost function TakenBy(c: Config, e: Event, cut: nat): seq<Suggestion> {
    if e.Respond? && cut <= |e.data.closer| then Suggestions(c, e.data.closer[..cut], e.data.from) else []
  }

  /** When an event turns to the routing table, and when it may end phase 1. */
  ghost predicate Turns(c: Config, s: State, t: State, e: Event) {
    && (s.fromTable ==> t.fromTable)
    && (t.fromTable && !s.fromTable ==> !e.CommitDone? && TableOffered(c, t.closest, t.seen.Keys, e.view))
    && (t.committing ==> s.committing || t.fromTable || t.successes >= c.k / 4)
  }

  lemma LearnTightens(c: Config, s: State, data: Response)
    requires ConfigOk(c) && IsTopK(c, s.closest, s.heard)
    ensures Tightens(c, s.closest, Learn(c, s, data).closest)
  {
    hide IsCloser, PushClosest;
    if data.error == 0 && data.fromId.Some? {
      var r := Reply(data.from, data.fromId.value, data.token, data.closer);
      forall id | !IsCloser(c, s.closest, id)
        ensures !IsCloser(c, Hear(c, s, r).closest, id)
      {
        if IsCloser(c, s.closest, r.id) {
          NotCloserStays(c, s.closest, r, id);
        }
      }
    }
  }

  /** The part of a response before the query is driven on. */
  ghost function TakenIn(c: Config, s: State, data: Response): State {
    Unslow(c, AddCloser(c, Learn(c, Accept(Resolve(s, data.from, Done), data), data), data.closer, data.from))
  }

  lemma GrowsByLike(c: Config, s: State, s': State, t: State, t': State, peers: seq<Peer>)
    requires GrowsBy(c, s, t, peers)
    requires s'.seen == s.seen && s'.enqueued == s.enqueued && t'.seen == t.seen && t'.enqueued == t.enqueued
    ensures GrowsBy(c, s', t', peers)
  {
  }

  /** A response counted and kept, before its suggestions are followed. */
  ghost function Heeded(c: Config, s: State, data: Response): State {
    Learn(c, Accept(Resolve(s, data.from, Done), data), data)
  }

  lemma LearnKeeps(c: Config, s: State, data: Response)
    ensures var t := Learn(c, s, data);
            && t.seen == s.seen && t.enqueued == s.enqueued && t.suggested == s.suggested
            && t.successes == s.successes && t.errors == s.errors
            && t.fromTable == s.fromTable && t.committing == s.committing
  {
    hide IsCloser, PushClosest;
  }

  lemma HeededCounts(c: Config, s: State, data: Response)
    requires ConfigOk(c) && IsTopK(c, s.closest, s.heard)
    ensures var t := Heeded(c, s, data);
            && t.seen == s.seen[data.from := Done] && t.enqueued == s.enqueued && t.suggested == s.suggested
            && Tightens(c, s.closest, t.closest)
            && t.successes == s.successes + (if data.error == 0 then 1 else 0)
            && t.errors == s.errors + (if data.error != 0 then 1 else 0)
            && t.fromTable == s.fromTable && t.committing == s.committing
  {
    hide IsTopK, Tightens, Learn;
    LearnTightens(c, Accept(Resolve(s, data.from, Done), data), data);
    LearnKeeps(c, Accept(Resolve(s, data.from, Done), data), data);
  }

  lemma TakenInTakes(c: Config, s: State, data: Response) returns (cut: nat)
    requires ConfigOk(c) && IsTopK(c, s.closest, s.heard)
    ensures cut <= |data.closer|
    ensures var t := TakenIn(c, s, data);
            && GrowsBy(c, Resolve(s, data.from, Done), t, data.closer)
            && Tightens(c, s.closest, t.closest)
            && Offers(c, t.closest, t.seen.Keys, data.closer, cut)
            && t.suggested == s.suggested + Suggestions(c, data.closer[..cut], data.from)
            && t.successes == s.successes + (if data.error == 0 then 1 else 0)
            && t.errors == s.errors + (if data.error != 0 then 1 else 0)
            && t.fromTable == s.fromTable && t.committing == s.committing
  {
    hide IsCloser, IsTopK, Tightens, Learn, Accept, Offers, Suggestions, AddCloser, GrowsBy;
    HeededCounts(c, s, data);
    var s2 := Heeded(c, s, data);
    cut := AddCloserTakes(c, s2, data.closer, data.from);
    var s3 := AddCloser(c, s2, data.closer, data.from);
    OffersBounded(c, s2.closest, s3.seen.Keys, data.closer, cut);
    GrowsByLike(c, s2, Resolve(s, data.from, Done), s3, TakenIn(c, s, data), data.closer);
  }

  lemma RespondLearns(c: Config, s: State, s1: State, t: State, e: Event)
    requires e.Respond? && GrowsBy(c, Resolve(s, e.data.from, Done), s1, e.data.closer)
    requires Grows(s1, t, AsQueryNodes(e.view))
    ensures Learns(c, s, t, e)
  {
    hide SuggestedNode, AsQueryNodes;
    var s0 := Resolve(s, e.data.from, Done);
    assert e.data.from in s0.seen;
    forall p | p in t.seen && p !in s.seen && !Resolves(e, p)
      ensures t.seen[p].Pending? && Queued(t.enqueued, p)
    {
      if p in s1.seen {
        assert p !in s0.seen;
        var n :| n in s1.enqueued && n.peer == p;
        assert n in t.enqueued;
      }
    }
  }

  lemma OffersKept(c: Config, closest: seq<Reply>, closest': seq<Reply>, seen: set<Peer>, seen': set<Peer>,
                   peers: seq<Peer>, cut: nat)
    requires Offers(c, closest, seen, peers, cut) && Tightens(c, closest, closest') && seen <= seen'
    ensures Offers(c, closest', seen', peers, cut)
  {
    hide IsCloser;
  }

  lemma GrowsKeys(s: State, t: State, offered: seq<QueryNode>)
    requires Grows(s, t, offered)
    ensures s.seen.Keys <= t.seen.Keys && t.suggested == s.suggested && t.closest == s.closest
    ensures t.successes == s.successes && t.errors == s.errors
  {
  }

  lemma TightensSame(c: Config, closest: seq<Reply>)
    ensures Tightens(c, closest, closest)
  {
  }

  /** A reply in phase 1. */
  lemma RespondTracks(c: Config, s: State, asked: Peer, data: Response, view: seq<Node>) returns (cut: nat)
    requires ConfigOk(c) && IsTopK(c, s.closest, s.heard) && !s.committing
    ensures var t, e := OnResponse(c, s, data, view), Respond(asked, data, view);
            Tightens(c, s.closest, t.closest) && Learns(c, s, t, e) && Records(c, s, t, e, cut) && Turns(c, s, t, e)
  {
    hide IsCloser, IsTopK, Tightens, Offers, Suggestions, TableOffered, Resolve, Learn, Accept, Unslow, AddCloser,
         ReadMore, Grows, GrowsBy, Learns;
    var e := Respond(asked, data, view);
    var s1, t := TakenIn(c, s, data), OnResponse(c, s, data, view);
    cut := TakenInTakes(c, s, data);
    ReadMoreGrows(c, s1, view);
    GrowsKeys(s1, t, AsQueryNodes(view));
    RespondLearns(c, s, s1, t, e);
    TightensSame(c, s1.closest);
    OffersKept(c, s1.closest, t.closest, s1.seen.Keys, t.seen.Keys, data.closer, cut);
  }

  lemma TimeoutLearns(c: Config, s: State, s1: State, t: State, e: Event)
    requires e.Timeout? && s1.seen == s.seen[e.asked := Down] && s1.enqueued == s.enqueued
    requires Grows(s1, t, AsQueryNodes(e.view))
    ensures Learns(c, s, t, e)
  {
    hide AsQueryNodes, Queued, SuggestedNode;
  }

  /** A timeout in phase 1. */
  lemma TimeoutTracks(c: Config, s: State, asked: Peer, view: seq<Node>)
    requires ConfigOk(c) && !s.committing
    ensures var t, e := OnTimeout(c, s, asked, view), Timeout(asked, view);
            Tightens(c, s.closest, t.closest) && Learns(c, s, t, e) && Records(c, s, t, e, 0) && Turns(c, s, t, e)
  {
    hide IsCloser, Tightens, Offers, TableOffered, ReadMore, Grows, Learns, Hints;
    var e := Timeout(asked, view);
    var s1, t := TimedOut(s, asked), OnTimeout(c, s, asked, view);
    ReadMoreGrows(c, s1, view);
    GrowsKeys(s1, t, AsQueryNodes(view));
    TimeoutLearns(c, s, s1, t, e);
    TightensSame(c, s.closest);
  }

  /** The end of a commit request. */
  lemma CommitTracks(c: Config, s: State)
    requires s.committing
    ensures var t, e := OnCommitDone(s), CommitDone;
            Tightens(c, s.closest, t.closest) && Learns(c, s, t, e) && Records(c, s, t, e, 0) && Turns(c, s, t, e)
  {
    TightensSame(c, s.closest);
    hide IsCloser, Tightens;
  }

  /** Every event of a run: what it learns, counts, records and turns to. */
  lemma StepTracks(c: Config, w: World, e: Event) returns (cut: nat)
    requires ConfigOk(c) && Inv(c, w, false) && Enabled(w, e)
    ensures var s, t := w.s, Step(c, w, e).s;
            Tightens(c, s.closest, t.closest) && Learns(c, s, t, e) && Records(c, s, t, e, cut) && Turns(c, s, t, e)
  {
    hide IsCloser, IsTopK, Once, Complete, Phases, Queries, OnResponse, OnTimeout, OnCommitDone, Tightens, Learns,
         Records, Turns, NotStuck;
    cut := 0;
    match e
    case Respond(asked, data, view) =>
      OutstandingCounts(c, w, false, asked);
      cut := RespondTracks(c, w.s, asked, data, view);
    case Timeout(asked, view) =>
      OutstandingCounts(c, w, false, asked);
      TimeoutTracks(c, w.s, asked, view);
    case CommitDone =>
      CommitTracks(c, w.s);
  }

  // ---------------------------------------------------------------- whole runs

  ghost function AnswersIn(es: seq<Event>): nat {
    if es == [] then 0 else AnswersIn(es[..|es| - 1]) + if Answered(es[|es| - 1]) then 1 else 0
  }

  ghost function FailuresIn(es: seq<Event>): nat {
    if es == [] then 0 else FailuresIn(es[..|es| - 1]) + if Failed(es[|es| - 1]) then 1 else 0
  }

  /** The suggestions taken in a run: the first `cuts[k]` of the reply at k. */
  ghost function Taken(c: Config, es: seq<Event>, cuts: seq<nat>): seq<Suggestion>
    requires |cuts| == |es|
  {
    if es == [] then []
    else
      var n := |es| - 1;
      Taken(c, es[..n], cuts[..n]) + TakenBy(c, es[n], cuts[n])
  }

  ghost predicate RepliedIn(es: seq<Event>, p: Peer) {
    exists k :: 0 <= k < |es| && es[k].Respond? && es[k].data.from == p
  }

  ghost predicate TimedOutIn(es: seq<Event>, p: Peer) {
    exists k :: 0 <= k < |es| && es[k].Timeout? && es[k].asked == p
  }

  ghost predicate AllOffered(c: Config, closest: seq<Reply>, seen: set<Peer>, es: seq<Event>, cuts: seq<nat>) {
    && |cuts| == |es|
    && forall k :: 0 <= k < |es| && es[k].Respond? ==> Offers(c, closest, seen, es[k].data.closer, cuts[k])
  }

  /** A queued node was given at the start, suggested by a reply or read from the table. */
  ghost predicate Sourced(c: Config, given: seq<QueryNode>, es: seq<Event>, n: QueryNode) {
    n in given || exists k :: 0 <= k < |es| && SourcedBy(c, es[k], n)
  }

  /** A known address was queued, or answered without being asked. */
  ghost predicate KnownFrom(enqueued: seq<QueryNode>, es: seq<Event>, p: Peer) {
    Queued(enqueued, p) || RepliedIn(es, p)
  }

  ghost predicate Counted(s: State, es: seq<Event>) {
    s.successes == AnswersIn(es) && s.errors == FailuresIn(es)
  }

  ghost predicate AllSourced(c: Config, given: seq<QueryNode>, s: State, es: seq<Event>) {
    && (forall n :: n in s.enqueued ==> Sourced(c, given, es, n))
    && (forall p :: p in s.seen ==> KnownFrom(s.enqueued, es, p))
  }

  ghost predicate Turned(c: Config, tables: seq<seq<Node>>, s: State, es: seq<Event>) {
    && (s.fromTable ==>
          || (exists i :: 0 <= i < |tables| && TableOffered(c, s.closest, s.seen.Keys, tables[i]))
          || (exists k :: 0 <= k < |es| && !es[k].CommitDone? &&
                TableOffered(c, s.closest, s.seen.Keys, es[k].view)))
    && (s.committing ==> s.fromTable || s.successes >= c.k / 4)
  }

  ghost predicate Tracked(c: Config, given: seq<QueryNode>, tables: seq<seq<Node>>, s: State, es: seq<Event>,
                          cuts: seq<nat>) {
    && AllOffered(c, s.closest, s.seen.Keys, es, cuts)
    && s.suggested == Taken(c, es, cuts)
    && Counted(s, es) && AllSourced(c, given, s, es) && Turned(c, tables, s, es)
  }

  lemma OfferedSnoc(c: Config, s: State, t: State, es: seq<Event>, cuts: seq<nat>, e: Event, cut: nat)
    requires AllOffered(c, s.closest, s.seen.Keys, es, cuts) && s.suggested == Taken(c, es, cuts)
    requires Tightens(c, s.closest, t.closest) && Records(c, s, t, e, cut) && s.seen.Keys <= t.seen.Keys
    ensures AllOffered(c, t.closest, t.seen.Keys, es + [e], cuts + [cut])
    ensures t.suggested == Taken(c, es + [e], cuts + [cut])
  {
    hide IsCloser, Tightens, Offers, TakenBy;
    var es', cuts' := es + [e], cuts + [cut];
    forall k | 0 <= k < |es'| && es'[k].Respond?
      ensures Offers(c, t.closest, t.seen.Keys, es'[k].data.closer, cuts'[k])
    {
      if k < |es| {
        OffersKept(c, s.closest, t.closest, s.seen.Keys, t.seen.Keys, es[k].data.closer, cuts[k]);
      }
    }
    assert es'[..|es|] == es && cuts'[..|es|] == cuts;
  }

  lemma CountedSnoc(c: Config, s: State, t: State, es: seq<Event>, e: Event, cut: nat)
    requires Counted(s, es) && Records(c, s, t, e, cut)
    ensures Counted(t, es + [e])
  {
    hide Offers, TakenBy;
    assert (es + [e])[..|es|] == es;
  }

  lemma SourcedSnoc(c: Config, given: seq<QueryNode>, s: State, t: State, es: seq<Event>, e: Event)
    requires AllSourced(c, given, s, es) && Learns(c, s, t, e)
    requires e.Timeout? ==> e.asked in s.seen
    ensures AllSourced(c, given, t, es + [e])
  {
    hide SourcedBy;
    var es' := es + [e];
    forall n | n in t.enqueued
      ensures Sourced(c, given, es', n)
    {
      if n in s.enqueued && n !in given {
        var k :| 0 <= k < |es| && SourcedBy(c, es[k], n);
        assert SourcedBy(c, es'[k], n);
      } else if n !in s.enqueued {
        assert SourcedBy(c, es'[|es|], n);
      }
    }
    forall p | p in t.seen
      ensures KnownFrom(t.enqueued, es', p)
    {
      KnownSnoc(c, given, s, t, es, e, p);
    }
  }

  lemma KnownSnoc(c: Config, given: seq<QueryNode>, s: State, t: State, es: seq<Event>, e: Event, p: Peer)
    requires AllSourced(c, given, s, es) && Learns(c, s, t, e) && p in t.seen
    requires e.Timeout? ==> e.asked in s.seen
    ensures KnownFrom(t.enqueued, es + [e], p)
  {
    hide SourcedBy, Sourced;
    var es' := es + [e];
    if p in s.seen {
      assert KnownFrom(s.enqueued, es, p);
      if Queued(s.enqueued, p) {
        var n :| n in s.enqueued && n.peer == p;
        assert n in t.enqueued;
      } else {
        var k :| 0 <= k < |es| && es[k].Respond? && es[k].data.from == p;
        assert es'[k].Respond? && es'[k].data.from == p;
      }
    } else if Resolves(e, p) {
      assert es'[|es|].Respond? && es'[|es|].data.from == p;
    }
  }

  lemma TableKept(c: Config, closest: seq<Reply>, closest': seq<Reply>, seen: set<Peer>, seen': set<Peer>,
                  view: seq<Node>)
    requires TableOffered(c, closest, seen, view) && Tightens(c, closest, closest') && seen <= seen'
    ensures TableOffered(c, closest', seen', view)
  {
    hide IsCloser;
  }

  lemma TurnedSnoc(c: Config, tables: seq<seq<Node>>, s: State, t: State, es: seq<Event>, e: Event, cut: nat)
    requires Turned(c, tables, s, es) && Turns(c, s, t, e) && Records(c, s, t, e, cut)
    requires Tightens(c, s.closest, t.closest) && s.seen.Keys <= t.seen.Keys
    ensures Turned(c, tables, t, es + [e])
  {
    hide TableOffered, Tightens, Offers, TakenBy;
    var es' := es + [e];
    if t.fromTable {
      if !s.fromTable {
        assert es'[|es|] == e;
      } else if i :| 0 <= i < |tables| && TableOffered(c, s.closest, s.seen.Keys, tables[i]) {
        TableKept(c, s.closest, t.closest, s.seen.Keys, t.seen.Keys, tables[i]);
      } else {
        var k :| 0 <= k < |es| && !es[k].CommitDone? && TableOffered(c, s.closest, s.seen.Keys, es[k].view);
        TableKept(c, s.closest, t.closest, s.seen.Keys, t.seen.Keys, es[k].view);
        assert es'[k] == es[k];
      }
    }
  }

  lemma AskedIsSeen(c: Config, w: World, e: Event)
    requires Inv(c, w, false) && Enabled(w, e) && !e.CommitDone?
    ensures e.asked in w.s.seen
  {
    hide IsTopK, Complete, Phases, Queries;
  }

  /** One more event. */
  lemma TrackedSnoc(c: Config, given: seq<QueryNode>, tables: seq<seq<Node>>, w: World, es: seq<Event>,
                    cuts: seq<nat>, e: Event) returns (cut: nat)
    requires ConfigOk(c) && Inv(c, w, false) && Enabled(w, e) && Tracked(c, given, tables, w.s, es, cuts)
    ensures Tracked(c, given, tables, Step(c, w, e).s, es + [e], cuts + [cut])
    ensures Tightens(c, w.s.closest, Step(c, w, e).s.closest)
  {
    hide Inv, Enabled, Step, Tightens, AllOffered, Counted, AllSourced, Turned, Learns, Records, Turns, Taken;
    var s, t := w.s, Step(c, w, e).s;
    cut := StepTracks(c, w, e);
    StepInv(c, w, false, e);
    if e.Timeout? {
      AskedIsSeen(c, w, e);
    }
    OfferedSnoc(c, s, t, es, cuts, e, cut);
    CountedSnoc(c, s, t, es, e, cut);
    SourcedSnoc(c, given, s, t, es, e);
    TurnedSnoc(c, tables, s, t, es, e, cut);
  }

  lemma {:induction false} RunTracked(c: Config, given: seq<QueryNode>, tables: seq<seq<Node>>, w: World,
                                      done: seq<Event>, cuts: seq<nat>, es: seq<Event>) returns (cuts': seq<nat>)
    requires ConfigOk(c) && Inv(c, w, false) && ValidRun(c, w, es) && Tracked(c, given, tables, w.s, done, cuts)
    ensures Tracked(c, given, tables, Run(c, w, es).s, done + es, cuts')
    ensures Tightens(c, w.s.closest, Run(c, w, es).s.closest)
    decreases |es|
  {
    hide IsCloser, Inv, Enabled, Step, Tracked;
    if es == [] {
      cuts' := cuts;
      assert done + es == done;
    } else {
      var cut := TrackedSnoc(c, given, tables, w, done, cuts, es[0]);
      StepInv(c, w, false, es[0]);
      cuts' := RunTracked(c, given, tables, Step(c, w, es[0]), done + [es[0]], cuts + [cut], es[1..]);
      assert done + [es[0]] + es[1..] == done + es;
    }
  }

  // ---------------------------------------------------------------- the start

  /** The nodes and tables a query is given to begin with. */
  ghost function Given(view: Option<seq<Node>>, nodes: seq<QueryNode>, view': seq<Node>): seq<QueryNode> {
    (if view.Some? then AsQueryNodes(view.value) else []) + nodes + AsQueryNodes(view')
  }

  ghost function Tables(view: Option<seq<Node>>, view': seq<Node>): seq<seq<Node>> {
    [if view.Some? then view.value else view']
  }

  /** The first k nodes of the table and all explicit nodes are known. */
  ghost predicate SeedsKnown(c: Config, seen: set<Peer>, view: Option<seq<Node>>, nodes: seq<QueryNode>) {
    && (view.Some? ==> forall i :: 0 <= i < |view.value| && i < c.k ==> view.value[i].peer in seen)
    && (forall i :: 0 <= i < |nodes| ==> nodes[i].peer in seen)
  }

  lemma GrowsWider(s: State, t: State, offered: seq<QueryNode>, offered': seq<QueryNode>)
    requires Grows(s, t, offered) && forall n :: n in offered ==> n in offered'
    ensures Grows(s, t, offered')
  {
  }

  lemma TableSeeds(c: Config, view: seq<Node>)
    requires ConfigOk(c)
    ensures var t := AddFromTable(c, INITIAL, view);
            && Grows(INITIAL, t, AsQueryNodes(view)) && t.fromTable && !t.committing
            && forall i :: 0 <= i < |view| && i < c.k ==> view[i].peer in t.seen
  {
    AddFromTableGrows(c, INITIAL, view);
    hide AddFromTable, AsQueryNodes;
  }

  lemma NodeSeeds(c: Config, s: State, nodes: seq<QueryNode>)
    requires ConfigOk(c) && s.closest == []
    ensures var t := AddAll(c, s, nodes);
            Grows(s, t, nodes) && Offered(s, t) && forall i :: 0 <= i < |nodes| ==> nodes[i].peer in t.seen
  {
    AddAllGrows(c, s, nodes, nodes);
    hide AddAll;
  }

  lemma SeededGrows(c: Config, view: Option<seq<Node>>, nodes: seq<QueryNode>, view': seq<Node>)
    requires ConfigOk(c)
    ensures var t := Seeded(c, view, nodes);
            && Grows(INITIAL, t, Given(view, nodes, view')) && SeedsKnown(c, t.seen.Keys, view, nodes)
            && t.fromTable == view.Some? && !t.committing
  {
    hide IsCloser, AddFromTable, AddAll, AsQueryNodes, Grows;
    var given := Given(view, nodes, view');
    var s1, t := if view.Some? then AddFromTable(c, INITIAL, view.value) else INITIAL, Seeded(c, view, nodes);
    if view.Some? {
      TableSeeds(c, view.value);
      GrowsWider(INITIAL, s1, AsQueryNodes(view.value), given);
    } else {
      SameGrows(INITIAL, INITIAL, given);
    }
    GrowsKeys(INITIAL, s1, given);
    NodeSeeds(c, s1, nodes);
    GrowsWider(s1, t, nodes, given);
    GrowsTransitive(INITIAL, s1, t, given);
    GrowsKeys(s1, t, given);
  }

  lemma GrowsFromNothing(c: Config, s: State, given: seq<QueryNode>)
    requires Grows(INITIAL, s, given)
    ensures AllSourced(c, given, s, []) && Counted(s, []) && s.suggested == [] && s.closest == []
  {
  }

  lemma StartTracked(c: Config, view: Option<seq<Node>>, nodes: seq<QueryNode>, view': seq<Node>)
    requires ConfigOk(c)
    ensures var s := Start(c, view, nodes, view').s;
            && Tracked(c, Given(view, nodes, view'), Tables(view, view'), s, [], [])
            && SeedsKnown(c, s.seen.Keys, view, nodes)
  {
    hide IsCloser, Seeded, ReadMore, AsQueryNodes, Grows, AllSourced, Counted;
    var given, tables := Given(view, nodes, view'), Tables(view, view');
    var s1, s := Seeded(c, view, nodes), Start(c, view, nodes, view').s;
    SeededGrows(c, view, nodes, view');
    ReadMoreGrows(c, s1, view');
    GrowsWider(s1, s, AsQueryNodes(view'), given);
    GrowsTransitive(INITIAL, s1, s, given);
    GrowsKeys(s1, s, given);
    GrowsFromNothing(c, s, given);
    if view.Some? {
      assert TableOffered(c, s.closest, s.seen.Keys, tables[0]);
    } else if s.fromTable {
      assert TableOffered(c, s.closest, s.seen.Keys, tables[0]);
    }
  }

  // ---------------------------------------------------------------- main theorems

  /** Every run, from its inputs alone. The first k nodes of the table and the explicit nodes are
      known. Each reply's suggestions are taken in order: each one up to the cut is known or is
      this node, and the list is left early only at one that is not nearer than the k-th reply
      kept at the end. Nothing else is queued or known, every answer and failure is counted, and
      phase 1 ends only with a table's first k nodes offered or a quarter of k answers in. */
  lemma QueryTracked(c: Config, view: Option<seq<Node>>, nodes: seq<QueryNode>, view': seq<Node>, es: seq<Event>)
    returns (cuts: seq<nat>)
    requires ConfigOk(c) && ValidRun(c, Start(c, view, nodes, view'), es)
    ensures var s := Run(c, Start(c, view, nodes, view'), es).s;
            && Tracked(c, Given(view, nodes, view'), Tables(view, view'), s, es, cuts)
            && SeedsKnown(c, s.seen.Keys, view, nodes)
  {
    hide Start, Run, ValidRun, Inv, Tracked, Given, Tables;
    var w := Start(c, view, nodes, view');
    StartInv(c, view, nodes, view', false);
    StartTracked(c, view, nodes, view');
    cuts := RunTracked(c, Given(view, nodes, view'), Tables(view, view'), w, [], [], es);
    RunInv(c, w, es, false);
    assert [] + es == es;
  }

  /** The suggestion at j was not reached: one at or before it is not nearer than the k-th kept reply. */
  ghost predicate CutBefore(c: Config, closest: seq<Reply>, peers: seq<Peer>, j: nat) {
    exists i: nat :: i <= j && Beyond(c, closest, peers, i)
  }

  /** Every suggestion of every reply is followed: it is this node itself, or it is known at the
      end, or one at or before it in the same reply is not nearer than the k-th kept reply. */
  lemma SuggestionsFollowed(c: Config, view: Option<seq<Node>>, nodes: seq<QueryNode>, view': seq<Node>,
                            es: seq<Event>, k: nat, j: nat)
    requires ConfigOk(c) && ValidRun(c, Start(c, view, nodes, view'), es)
    requires k < |es| && es[k].Respond? && j < |es[k].data.closer|
    ensures var s, p := Run(c, Start(c, view, nodes, view'), es).s, es[k].data.closer[j];
            c.idOf(p) == c.ownId || p in s.seen || CutBefore(c, s.closest, es[k].data.closer, j)
  {
    hide IsCloser, Start, Run, ValidRun, Given, Tables, Taken;
    var cuts := QueryTracked(c, view, nodes, view', es);
    var s, peers := Run(c, Start(c, view, nodes, view'), es).s, es[k].data.closer;
    assert Offers(c, s.closest, s.seen.Keys, peers, cuts[k]);
    if j >= cuts[k] {
      if Beyond(c, s.closest, peers, cuts[k]) {
        assert CutBefore(c, s.closest, peers, j);
      } else {
        assert Beyond(c, s.closest, peers, cuts[k] - 1);
      }
    }
  }

  /** What became of a known address once phase 1 is over: its request was resolved, it answered
      in another's place, or it was queued under an id not nearer than the k-th kept reply. */
  ghost predicate Settled(c: Config, w: World, es: seq<Event>, p: Peer) {
    || p in w.resolved || RepliedIn(es, p)
    || exists n :: n in w.s.enqueued && n.peer == p && !IsCloser(c, w.s.closest, n.id)
  }

  /** Completeness from the inputs: once phase 1 is over, the first k nodes of the table, the
      explicit nodes and every suggestion are settled, but for those cut off. */
  lemma QueryExhausts(c: Config, view: Option<seq<Node>>, nodes: seq<QueryNode>, view': seq<Node>, es: seq<Event>)
    requires ConfigOk(c) && ValidRun(c, Start(c, view, nodes, view'), es)
    requires Run(c, Start(c, view, nodes, view'), es).s.committing
    ensures var w := Run(c, Start(c, view, nodes, view'), es);
            && (view.Some? ==> forall i :: 0 <= i < |view.value| && i < c.k ==> Settled(c, w, es, view.value[i].peer))
            && (forall i :: 0 <= i < |nodes| ==> Settled(c, w, es, nodes[i].peer))
            && forall k, j: nat :: 0 <= k < |es| && es[k].Respond? && j < |es[k].data.closer| ==>
                 || c.idOf(es[k].data.closer[j]) == c.ownId
                 || Settled(c, w, es, es[k].data.closer[j])
                 || CutBefore(c, w.s.closest, es[k].data.closer, j)
  {
    hide Start, Run, ValidRun, Settled, CutBefore, Tracked;
    var w := Run(c, Start(c, view, nodes, view'), es);
    var cuts := QueryTracked(c, view, nodes, view', es);
    KnownSettled(c, view, nodes, view', es, cuts);
    forall k, j: nat | 0 <= k < |es| && es[k].Respond? && j < |es[k].data.closer|
      ensures || c.idOf(es[k].data.closer[j]) == c.ownId
              || Settled(c, w, es, es[k].data.closer[j])
              || CutBefore(c, w.s.closest, es[k].data.closer, j)
    {
      SuggestionsFollowed(c, view, nodes, view', es, k, j);
    }
  }

  lemma KnownSettled(c: Config, view: Option<seq<Node>>, nodes: seq<QueryNode>, view': seq<Node>, es: seq<Event>,
                     cuts: seq<nat>)
    requires ConfigOk(c) && ValidRun(c, Start(c, view, nodes, view'), es)
    requires var s := Run(c, Start(c, view, nodes, view'), es).s;
             s.committing && Tracked(c, Given(view, nodes, view'), Tables(view, view'), s, es, cuts)
    ensures var w := Run(c, Start(c, view, nodes, view'), es);
            forall p :: p in w.s.seen ==> Settled(c, w, es, p)
  {
    hide Start, Run, ValidRun, AllOffered, Taken, Counted, Turned, Sourced, Inv;
    var w := Run(c, Start(c, view, nodes, view'), es);
    StartInv(c, view, nodes, view', false);
    RunInv(c, Start(c, view, nodes, view'), es, false);
    CompleteAtEnd(c, w);
    forall p | p in w.s.seen
      ensures Settled(c, w, es, p)
    {
      assert KnownFrom(w.s.enqueued, es, p);
      if Queued(w.s.enqueued, p) {
        var n :| n in w.s.enqueued && n.peer == p;
      }
    }
  }

  ghost predicate TrueIds(c: Config, nodes: seq<QueryNode>) {
    forall n :: n in nodes ==> n.id == c.idOf(n.peer)
  }

  /** Every id a run is given is the hash of its address, as the engine checks of replies. */
  ghost predicate TrueInputs(c: Config, view: Option<seq<Node>>, nodes: seq<QueryNode>, view': seq<Node>,
                             es: seq<Event>) {
    && TrueIds(c, Given(view, nodes, view'))
    && forall k :: 0 <= k < |es| && !es[k].CommitDone? ==> TrueIds(c, AsQueryNodes(es[k].view))
  }

  ghost predicate AskedResolved(w: World, es: seq<Event>) {
    forall k :: 0 <= k < |es| && !es[k].CommitDone? ==> es[k].asked in w.resolved
  }

  lemma {:induction false} RunResolves(c: Config, w: World, es: seq<Event>)
    ensures w.resolved <= Run(c, w, es).resolved && AskedResolved(Run(c, w, es), es)
    decreases |es|
  {
    hide OnResponse, OnTimeout, OnCommitDone;
    if es != [] {
      var w1 := Step(c, w, es[0]);
      RunResolves(c, w1, es[1..]);
      forall k | 0 <= k < |es| && !es[k].CommitDone?
        ensures es[k].asked in Run(c, w, es).resolved
      {
        assert k > 0 ==> es[k] == es[1..][k - 1];
      }
    }
  }

  /** Asked and resolved, or not nearer than the k-th kept reply. */
  ghost predicate Exhausted(c: Config, w: World, p: Peer) {
    p in w.resolved || !IsCloser(c, w.s.closest, c.idOf(p))
  }

  lemma SettledExhausted(c: Config, w: World, es: seq<Event>, p: Peer)
    requires Settled(c, w, es, p) && AllHonest(es) && AskedResolved(w, es) && TrueIds(c, w.s.enqueued)
    ensures Exhausted(c, w, p)
  {
    hide IsCloser;
  }

  lemma QueuedTrue(c: Config, view: Option<seq<Node>>, nodes: seq<QueryNode>, view': seq<Node>, s: State,
                   es: seq<Event>)
    requires TrueInputs(c, view, nodes, view', es) && AllSourced(c, Given(view, nodes, view'), s, es)
    ensures TrueIds(c, s.enqueued)
  {
    hide Given, AsQueryNodes;
    var given := Given(view, nodes, view');
    forall n | n in s.enqueued
      ensures n.id == c.idOf(n.peer)
    {
      assert Sourced(c, given, es, n);
      if n !in given {
        var k :| 0 <= k < |es| && SourcedBy(c, es[k], n);
      }
    }
  }

  /** With true ids and replies from the addresses asked, completeness is as one expects it: once
      phase 1 is over, the first k nodes of the table, the explicit nodes and every suggestion
      reached were asked and resolved, or are not nearer than the k-th kept reply. */
  lemma QueryExhaustsAll(c: Config, view: Option<seq<Node>>, nodes: seq<QueryNode>, view': seq<Node>, es: seq<Event>)
    requires ConfigOk(c) && ValidRun(c, Start(c, view, nodes, view'), es)
    requires Run(c, Start(c, view, nodes, view'), es).s.committing
    requires AllHonest(es) && TrueInputs(c, view, nodes, view', es)
    ensures var w := Run(c, Start(c, view, nodes, view'), es);
            && (view.Some? ==> forall i :: 0 <= i < |view.value| && i < c.k ==> Exhausted(c, w, view.value[i].peer))
            && (forall i :: 0 <= i < |nodes| ==> Exhausted(c, w, nodes[i].peer))
            && forall k, j: nat :: 0 <= k < |es| && es[k].Respond? && j < |es[k].data.closer| ==>
                 || c.idOf(es[k].data.closer[j]) == c.ownId
                 || es[k].data.closer[j] in w.resolved
                 || CutBefore(c, w.s.closest, es[k].data.closer, j)
  {
    var w := Run(c, Start(c, view, nodes, view'), es);
    var cuts := QueryTracked(c, view, nodes, view', es);
    QueuedTrue(c, view, nodes, view', w.s, es);
    RunResolves(c, Start(c, view, nodes, view'), es);
    QueryExhausts(c, view, nodes, view', es);
    hide IsCloser, Start, Run, ValidRun, Settled, CutBefore, Beyond, Tracked, TrueInputs, TrueIds, AskedResolved,
         AllHonest, Exhausted;
    forall p | Settled(c, w, es, p)
      ensures Exhausted(c, w, p)
    {
      SettledExhausted(c, w, es, p);
    }
    forall k, j: nat | 0 <= k < |es| && es[k].Respond? && j < |es[k].data.closer|
      ensures || c.idOf(es[k].data.closer[j]) == c.ownId
              || es[k].data.closer[j] in w.resolved
              || CutBefore(c, w.s.closest, es[k].data.closer, j)
    {
      ExhaustedOrCut(c, w, es[k].data.closer, j);
    }
  }

  lemma ExhaustedOrCut(c: Config, w: World, peers: seq<Peer>, j: nat)
    requires j < |peers|
    ensures Exhausted(c, w, peers[j]) ==>
              c.idOf(peers[j]) == c.ownId || peers[j] in w.resolved || CutBefore(c, w.s.closest, peers, j)
  {
    hide IsCloser;
    if Exhausted(c, w, peers[j]) && c.idOf(peers[j]) != c.ownId && peers[j] !in w.resolved {
      assert Beyond(c, w.s.closest, peers, j);
    }
  }

  // ---------------------------------------------------------------- down hints

  /** Exactly the addresses that timed out are marked as down. */
  ghost predicate DownMarked(w: World, es: seq<Event>) {
    && (forall p :: (p in w.s.seen && w.s.seen[p].Down?) <==> TimedOutIn(es, p))
    && (forall p :: TimedOutIn(es, p) ==> p in w.resolved)
  }

  lemma TimedOutSnoc(es: seq<Event>, e: Event, p: Peer)
    ensures TimedOutIn(es + [e], p) <==> TimedOutIn(es, p) || (e.Timeout? && e.asked == p)
  {
    var es' := es + [e];
    assert es'[|es|] == e;
    if k :| 0 <= k < |es| && es[k].Timeout? && es[k].asked == p {
      assert es'[k].Timeout? && es'[k].asked == p;
    }
  }

  lemma DownSnoc(c: Config, w: World, es: seq<Event>, e: Event)
    requires DownMarked(w, es) && Learns(c, w.s, Step(c, w, e).s, e) && Enabled(w, e) && Honest(e)
    ensures DownMarked(Step(c, w, e), es + [e])
  {
    hide OnResponse, OnTimeout, OnCommitDone, TimedOutIn, Queries, SourcedBy, Queued;
    var w' := Step(c, w, e);
    forall p
      ensures (p in w'.s.seen && w'.s.seen[p].Down?) <==> TimedOutIn(es + [e], p)
      ensures TimedOutIn(es + [e], p) ==> p in w'.resolved
    {
      TimedOutSnoc(es, e, p);
    }
  }

  lemma {:induction false} RunDown(c: Config, w: World, done: seq<Event>, es: seq<Event>)
    requires ConfigOk(c) && Inv(c, w, false) && ValidRun(c, w, es) && AllHonest(es) && DownMarked(w, done)
    ensures DownMarked(Run(c, w, es), done + es)
    decreases |es|
  {
    hide Inv, Enabled, Step, DownMarked, Learns, Records, Turns, Tightens, Honest;
    if es == [] {
      assert done + es == done;
    } else {
      var cut := StepTracks(c, w, es[0]);
      StepInv(c, w, false, es[0]);
      DownSnoc(c, w, done, es[0]);
      RunDown(c, Step(c, w, es[0]), done + [es[0]], es[1..]);
      assert done + [es[0]] + es[1..] == done + es;
    }
  }

  lemma StartDown(c: Config, view: Option<seq<Node>>, nodes: seq<QueryNode>, view': seq<Node>)
    requires ConfigOk(c)
    ensures DownMarked(Start(c, view, nodes, view'), [])
  {
    hide IsCloser, Seeded, ReadMore, AsQueryNodes, SeedsKnown, TableOffered;
    SeededGrows(c, view, nodes, view');
    ReadMoreGrows(c, Seeded(c, view, nodes), view');
  }

  /** Down hints from the replies alone: when replies come from the addresses asked, those told
      that p is down are exactly the senders of the suggestions of p that were taken, in order,
      and only if p timed out. */
  lemma DownHintsFromReplies(c: Config, view: Option<seq<Node>>, nodes: seq<QueryNode>, view': seq<Node>,
                             es: seq<Event>) returns (cuts: seq<nat>)
    requires ConfigOk(c) && ValidRun(c, Start(c, view, nodes, view'), es) && AllHonest(es)
    ensures var s := Run(c, Start(c, view, nodes, view'), es).s;
            && AllOffered(c, s.closest, s.seen.Keys, es, cuts)
            && forall p :: HintsFor(s.sent, p) ==
                           if TimedOutIn(es, p) then SuggestersOf(Taken(c, es, cuts), p) else []
  {
    hide IsCloser, Start, Run, ValidRun, Given, Tables, Offers, Taken, Inv, HintsFor, SuggestersOf, TimedOutIn;
    cuts := QueryTracked(c, view, nodes, view', es);
    var w := Start(c, view, nodes, view');
    StartInv(c, view, nodes, view', false);
    StartDown(c, view, nodes, view');
    RunDown(c, w, [], es);
    assert [] + es == es;
    var s := Run(c, w, es).s;
    forall p
      ensures HintsFor(s.sent, p) == if TimedOutIn(es, p) then SuggestersOf(Taken(c, es, cuts), p) else []
    {
      DownHintsExact(c, view, nodes, view', es, p);
    }
  }

  // ---------------------------------------------------------------- commits

  /** `places` lists, in order, exactly the kept replies that hold a token. */
  ghost predicate Holders(closest: seq<Reply>, places: seq<nat>) {
    && (forall i :: 0 <= i < |places| ==> places[i] < |closest| && closest[places[i]].token.Some?)
    && (forall i, j :: 0 <= i < j < |places| ==> places[i] < places[j])
    && (forall n: nat :: n < |closest| && closest[n].token.Some? ==> n in places)
  }

  /** One commit to each of them, with its own token, nearest first. */
  ghost predicate CommitsTo(commits: seq<Request>, closest: seq<Reply>, places: seq<nat>) {
    && Holders(closest, places) && |commits| == |places|
    && forall i :: 0 <= i < |places| ==>
         commits[i] == CommitRequest(closest[places[i]].from, closest[places[i]].token.value)
  }

  lemma HoldersNext(closest: seq<Reply>, r: Reply, places: seq<nat>)
    requires Holders(closest, places)
    ensures Holders(closest + [r], if r.token.Some? then places + [|closest|] else places)
  {
    var all, places' := closest + [r], if r.token.Some? then places + [|closest|] else places;
    forall n: nat | n < |all| && all[n].token.Some?
      ensures n in places'
    {
      if n < |closest| {
        assert closest[n] == all[n] && n in places;
      } else {
        assert places'[|places|] == n;
      }
    }
  }

  lemma CommitsNext(commits: seq<Request>, closest: seq<Reply>, r: Reply, places: seq<nat>)
    requires CommitsTo(commits, closest, places)
    ensures r.token.Some? ==>
              CommitsTo(commits + [CommitRequest(r.from, r.token.value)], closest + [r], places + [|closest|])
    ensures r.token.None? ==> CommitsTo(commits, closest + [r], places)
  {
    HoldersNext(closest, r, places);
    assert forall i :: 0 <= i < |places| ==> places[i] < |closest|;
    hide Holders;
  }

  lemma {:induction false} CommitsAre(closest: seq<Reply>) returns (places: seq<nat>)
    ensures CommitsTo(Commits(closest), closest, places)
  {
    places := [];
    if closest != [] {
      hide CommitsTo;
      var n := |closest| - 1;
      places := CommitsAre(closest[..n]);
      CommitsNext(Commits(closest[..n]), closest[..n], closest[n], places);
      assert closest == closest[..n] + [closest[n]];
      if closest[n].token.Some? {
        places := places + [n];
      } else {
        assert Commits(closest) == Commits(closest[..n]);
      }
    }
  }

  /** In every run of a committing query, once phase 1 is over, the commits sent are one to each
      kept reply that holds a token, with that token, nearest first, and no others; and in every
      other run there are none. */
  lemma CommitsExact(c: Config, view: Option<seq<Node>>, nodes: seq<QueryNode>, view': seq<Node>, es: seq<Event>)
    returns (places: seq<nat>)
    requires ConfigOk(c) && ValidRun(c, Start(c, view, nodes, view'), es)
    ensures var s := Run(c, Start(c, view, nodes, view'), es).s;
            if s.committing && c.commit then CommitsTo(CommitsOf(s.sent), s.closest, places)
            else CommitsOf(s.sent) == []
  {
    hide Start, Run, ValidRun, IsTopK, Once, Complete, Commits, CommitsOf, CommitsTo, NotStuck;
    StartInv(c, view, nodes, view', false);
    RunInv(c, Start(c, view, nodes, view'), es, false);
    places := CommitsAre(Run(c, Start(c, view, nodes, view'), es).s.closest);
  }
}
