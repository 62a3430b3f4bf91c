/** The iterative Kademlia query as a state machine on values: one function for
    each operation of the engine, with the history of what it heard, queued and
    sent. The imperative engine in module Query is proved equal to these. */
module QuerySpec {
  import opened Options
  import opened XorMetric
  import opened RoutingTable

  type Token = seq<bv8>

  /** What a query is created with; `idOf` is the id hash of a network address. */
  datatype Config = Config(target: NodeId, k: nat, concurrency: nat, commit: bool, ownId: NodeId, idOf: Peer -> NodeId)

  ghost predicate ConfigOk(c: Config) {
    c.k >= 1 && c.concurrency >= 1
  }

  datatype QueryNode = QueryNode(id: NodeId, peer: Peer)

  datatype Response = Response(from: Peer, fromId: Option<NodeId>, token: Option<Token>, closer: seq<Peer>, error: nat)

  /** A reply kept in the closest set; only validated ids are ever kept. */
  datatype Reply = Reply(from: Peer, id: NodeId, token: Option<Token>, closer: seq<Peer>)

  datatype Request =
    | QueryRequest(to: Peer)
    | CommitRequest(to: Peer, token: Token)
    | DownHint(to: Peer, down: Peer)

  datatype Seen = Pending(refs: seq<Peer>) | Done | Down

  datatype Result = Result(closest: seq<Reply>, successes: nat, errors: nat)

  datatype Suggestion = Suggestion(referrer: Peer, node: Peer)

  /** `heard`, `enqueued`, `suggested` and `sent` are history: every error-free validated
      reply, every node ever put on the pending list, every suggestion that was not
      dropped, every request handed out, each in order. */
  datatype State = State(
    inflight: nat, slowdown: bool, successes: nat, errors: nat, fromTable: bool,
    committing: bool, commitInflight: nat, seen: map<Peer, Seen>, pending: seq<QueryNode>,
    closest: seq<Reply>, finished: bool, results: seq<Result>,
    heard: seq<Reply>, enqueued: seq<QueryNode>, suggested: seq<Suggestion>, sent: seq<Request>)

  const INITIAL: State :=
    State(0, false, 0, 0, false, false, 0, map[], [], [], false, [], [], [], [], [])

  ghost function D(c: Config, id: NodeId): nat {
    Distance(c.target, id)
  }

  // ---------------------------------------------------------------- closest replies

  ghost predicate IsCloser(c: Config, closest: seq<Reply>, id: NodeId) {
    |closest| < c.k || (closest != [] && D(c, id) < D(c, closest[|closest| - 1].id))
  }

  ghost function InsertReply(c: Config, s: seq<Reply>, r: Reply): seq<Reply> {
    if s == [] then [r]
    else
      var n := |s| - 1;
      if D(c, s[n].id) < D(c, r.id) then s + [r]
      else if s[n].id == r.id then s
      else InsertReply(c, s[..n], r) + [s[n]]
  }

  ghost function PushClosest(c: Config, s: seq<Reply>, r: Reply): seq<Reply> {
    var t := InsertReply(c, s, r);
    if |t| > c.k then t[..|t| - 1] else t
  }

  ghost function Hear(c: Config, s: State, r: Reply): State {
    s.(heard := s.heard + [r],
       closest := if IsCloser(c, s.closest, r.id) then PushClosest(c, s.closest, r) else s.closest)
  }

  // ---------------------------------------------------------------- pending nodes

  function Emit(s: State, r: Request): State {
    s.(sent := s.sent + [r])
  }

  function Suggest(s: State, referrer: Option<Peer>, node: Peer): State {
    match referrer
    case Some(r) => s.(suggested := s.suggested + [Suggestion(r, node)])
    case None => s
  }

  function RefsOf(referrer: Option<Peer>): seq<Peer> {
    match referrer
    case Some(r) => [r]
    case None => []
  }

  /** A known node is suggested again: remember the referrer, or hint that it is down. */
  ghost function Again(s: State, peer: Peer, referrer: Option<Peer>): State
    requires peer in s.seen
  {
    var s1 := Suggest(s, referrer, peer);
    match s.seen[peer]
    case Done => s1
    case Down => if referrer.Some? then Emit(s1, DownHint(referrer.value, peer)) else s1
    case Pending(refs) => s1.(seen := s.seen[peer := Pending(refs + RefsOf(referrer))])
  }

  /** The state after offering `node`, and whether the offering list is to be abandoned. */
  ghost function AddPending(c: Config, s: State, node: QueryNode, referrer: Option<Peer>): (State, bool) {
    var closer := IsCloser(c, s.closest, node.id);
    if node.peer in s.seen then (Again(s, node.peer, referrer), !closer)
    else if !closer then (s, true)
    else
      (Suggest(s, referrer, node.peer).(
         seen := s.seen[node.peer := Pending(RefsOf(referrer))],
         pending := s.pending + [node],
         enqueued := s.enqueued + [node]), false)
  }

  /** Offer a reply's suggestions in order, stopping at the first that is not closer. */
  ghost function AddCloser(c: Config, s: State, peers: seq<Peer>, from: Peer): State
    decreases |peers|
  {
    if peers == [] then s
    else if c.idOf(peers[0]) == c.ownId then AddCloser(c, s, peers[1..], from)
    else
      var (s1, stop) := AddPending(c, s, QueryNode(c.idOf(peers[0]), peers[0]), Some(from));
      if stop then s1 else AddCloser(c, s1, peers[1..], from)
  }

  ghost function AddAll(c: Config, s: State, nodes: seq<QueryNode>): State
    decreases |nodes|
  {
    if nodes == [] then s else AddAll(c, AddPending(c, s, nodes[0], None).0, nodes[1..])
  }

  function AsQueryNodes(nodes: seq<Node>): (r: seq<QueryNode>) {
    seq(|nodes|, i requires 0 <= i < |nodes| => QueryNode(nodes[i].id, nodes[i].peer))
  }

  /** Fill up the pending list from a routing table whose lookup order is `view`. */
  ghost function AddFromTable(c: Config, s: State, view: seq<Node>): State {
    if |s.pending| >= c.k then s
    else AddAll(c, s.(fromTable := true), AsQueryNodes(Take(view, c.k - |s.pending|)))
  }

  // ---------------------------------------------------------------- driving the query

  function EffectiveConcurrency(c: Config, s: State): nat {
    if s.slowdown && c.concurrency > 3 then 3 else c.concurrency
  }

  /** Pop pending nodes until the limit is reached, skipping those no longer closer. */
  ghost function Pump(c: Config, s: State, limit: nat): State
    decreases |s.pending|
  {
    if s.inflight >= limit || s.pending == [] then s
    else
      var n := |s.pending| - 1;
      var s1 := s.(pending := s.pending[..n]);
      if IsCloser(c, s.closest, s.pending[n].id)
      then Pump(c, Emit(s1.(inflight := s.inflight + 1), QueryRequest(s.pending[n].peer)), limit)
      else Pump(c, s1, limit)
  }

  ghost function PumpAndSlow(c: Config, s: State): State {
    var s1 := Pump(c, s, EffectiveConcurrency(c, s));
    if !s1.fromTable && s1.successes == 0 && s1.errors == 0 then s1.(slowdown := true) else s1
  }

  ghost function ReadMore(c: Config, s: State, view: seq<Node>): State {
    if s.finished || s.committing then s
    else
      var s1 := PumpAndSlow(c, s);
      if s1.pending != [] || s1.inflight > 0 then s1
      else if !s1.fromTable && s1.successes < c.k / 4 then
        var s2 := AddFromTable(c, s1, view);
        if s2.pending == [] then Flush(c, s2)
        else
          var s3 := PumpAndSlow(c, s2);
          if s3.pending != [] || s3.inflight > 0 then s3 else Flush(c, s3)
      else Flush(c, s1)
  }

  function Commits(closest: seq<Reply>): seq<Request> {
    if closest == [] then []
    else
      var n := |closest| - 1;
      Commits(closest[..n]) +
      (match closest[n].token case Some(t) => [CommitRequest(closest[n].from, t)] case None => [])
  }

  ghost function Finish(s: State): State {
    if s.finished then s
    else s.(finished := true, results := s.results + [Result(s.closest, s.successes, s.errors)])
  }

  ghost function Flush(c: Config, s: State): State {
    if s.committing then s
    else
      var s1 := s.(committing := true);
      if !c.commit then Finish(s1)
      else
        var commits := Commits(s.closest);
        var s2 := s1.(commitInflight := |commits|);
        if commits == [] then Finish(s2) else s2.(sent := s.sent + commits)
  }

  ghost function Accept(s: State, data: Response): State {
    if data.error == 0 then s.(successes := s.successes + 1) else s.(errors := s.errors + 1)
  }

  ghost function Learn(c: Config, s: State, data: Response): State {
    if data.error == 0 && data.fromId.Some?
    then Hear(c, s, Reply(data.from, data.fromId.value, data.token, data.closer))
    else s
  }

  ghost function Unslow(c: Config, s: State): State {
    if !s.fromTable && s.successes + s.errors >= c.concurrency then s.(slowdown := false) else s
  }

  ghost function Resolve(s: State, from: Peer, outcome: Seen): State {
    s.(inflight := if s.inflight > 0 then s.inflight - 1 else 0, seen := s.seen[from := outcome])
  }

  ghost function OnResponse(c: Config, s: State, data: Response, view: seq<Node>): State {
    var s1 := Resolve(s, data.from, Done);
    if s.committing then s1
    else
      var s2 := Learn(c, Accept(s1, data), data);
      var s3 := AddCloser(c, s2, data.closer, data.from);
      ReadMore(c, Unslow(c, s3), view)
  }

  function Hints(refs: seq<Peer>, down: Peer): seq<Request> {
    seq(|refs|, i requires 0 <= i < |refs| => DownHint(refs[i], down))
  }

  function RefsFor(s: State, to: Peer): seq<Peer> {
    if to in s.seen && s.seen[to].Pending? then s.seen[to].refs else []
  }

  ghost function OnTimeout(c: Config, s: State, to: Peer, view: seq<Node>): State {
    var s1 := Resolve(s, to, Down);
    var s2 := s1.(errors := s.errors + 1, sent := s.sent + Hints(RefsFor(s, to), to));
    if s.committing then s2 else ReadMore(c, s2, view)
  }

  ghost function OnCommitDone(s: State): State {
    var s1 := s.(commitInflight := if s.commitInflight > 0 then s.commitInflight - 1 else 0);
    if s1.commitInflight == 0 then Finish(s1) else s1
  }
}
