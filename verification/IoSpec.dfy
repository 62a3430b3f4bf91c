/** The request bookkeeping of the IO layer as a state machine: the requests in flight, the
    congestion window, the queue of requests that wait for it, and the statistics. */
module IoSpec {
  import opened Options

  // ---------------------------------------------------------------- congestion window

  /** Four quarters, the current one at `at`; `retried` records, as history, the retries sent
      in each quarter. */
  datatype Window = Window(at: nat, total: int, quarters: seq<int>, retried: seq<nat>)

  const EMPTY_WINDOW := Window(0, 0, [0, 0, 0, 0], [0, 0, 0, 0])

  predicate Shaped(w: Window) {
    w.at < 4 && |w.quarters| == 4 && |w.retried| == 4
  }

  predicate IsFull(w: Window, max: nat)
    requires Shaped(w)
  {
    w.total >= 2 * max || w.quarters[w.at] >= max
  }

  function Received(w: Window): (r: Window)
    requires Shaped(w)
    ensures Shaped(r)
  {
    if w.quarters[w.at] > 0 then
      w.(quarters := w.quarters[w.at := w.quarters[w.at] - 1], total := w.total - 1)
    else w
  }

  function Sent(w: Window, retry: bool): (r: Window)
    requires Shaped(w)
    ensures Shaped(r)
  {
    w.(quarters := w.quarters[w.at := w.quarters[w.at] + 1], total := w.total + 1,
       retried := if retry then w.retried[w.at := w.retried[w.at] + 1] else w.retried)
  }

  function Drained(w: Window): (r: Window)
    requires Shaped(w)
    ensures Shaped(r)
  {
    var at := (w.at + 1) % 4;
    Window(at, w.total - w.quarters[at], w.quarters[at := 0], w.retried[at := 0])
  }

  // ---------------------------------------------------------------- requests

  datatype Ask = Ask(host: string, port: nat, command: nat, internal: bool, target: Option<seq<bv8>>)

  /** A request in flight. As history, `queued` says that it had to wait for the window at first,
      and `late` counts the times it was sent when it had been sent often enough already. */
  datatype Entry = Entry(
    tid: nat, ask: Ask, sent: nat, retries: nat, deadline: nat, timeout: nat, queued: bool, late: nat)

  datatype Stats = Stats(active: nat, total: nat, responses: nat, retries: nat, timeouts: nat)

  datatype State = State(inflight: seq<Entry>, window: Window, pending: seq<nat>, tid: nat, stats: Stats)

  const TIDS: nat := 65536

  function Initial(tid: nat): State {
    State([], EMPTY_WINDOW, [], tid % TIDS, Stats(0, 0, 0, 0, 0))
  }

  /** The first entry with a transaction id. */
  function Position(es: seq<Entry>, tid: nat): (r: Option<nat>)
    ensures r.Some? ==> r.value < |es| && es[r.value].tid == tid && forall i :: 0 <= i < r.value ==> es[i].tid != tid
    ensures r.None? ==> forall i :: 0 <= i < |es| ==> es[i].tid != tid
  {
    PositionFrom(es, tid, 0)
  }

  function PositionFrom(es: seq<Entry>, tid: nat, k: nat): (r: Option<nat>)
    requires k <= |es| && forall i :: 0 <= i < k ==> es[i].tid != tid
    ensures r.Some? ==> r.value < |es| && es[r.value].tid == tid && forall i :: 0 <= i < r.value ==> es[i].tid != tid
    ensures r.None? ==> forall i :: 0 <= i < |es| ==> es[i].tid != tid
    decreases |es| - k
  {
    if k == |es| then None else if es[k].tid == tid then Some(k) else PositionFrom(es, tid, k + 1)
  }

  /** Send an entry, again or for the first time. */
  function Resent(e: Entry, now: nat): Entry {
    e.(sent := e.sent + 1, deadline := now + e.timeout, late := if Exhausted(e) then e.late + 1 else e.late)
  }

  function SendAt(s: State, i: nat, now: nat, retry: bool): (r: State)
    requires i < |s.inflight| && Shaped(s.window)
    ensures Shaped(r.window) && |r.inflight| == |s.inflight|
  {
    s.(inflight := s.inflight[i := Resent(s.inflight[i], now)], window := Sent(s.window, retry))
  }

  function NextTid(s: State): nat {
    (s.tid + 1) % TIDS
  }

  /** Nothing happens for a bad address; a request that cannot be encoded uses up an id. */
  function Create(max: nat, s: State, ask: Ask, retries: nat, timeout: nat, now: nat, valid: bool,
                  encodes: bool): (r: State)
    requires Shaped(s.window)
    ensures Shaped(r.window)
  {
    if !valid then s
    else if !encodes then s.(tid := NextTid(s))
    else
      var full := IsFull(s.window, max);
      var entry := Entry(s.tid, ask, 0, retries, now + timeout, timeout, full, 0);
      var s1 := s.(tid := NextTid(s), inflight := s.inflight + [entry],
                   stats := s.stats.(active := s.stats.active + 1, total := s.stats.total + 1));
      if full then s1.(pending := s1.pending + [s.tid])
      else SendAt(s1, |s.inflight|, now, false)
  }

  /** A request sent once on another socket: in flight, but never in the window. */
  function CreateVia(s: State, ask: Ask, timeout: nat, now: nat, valid: bool, sends: bool): State {
    if !valid then s
    else if !sends then s.(tid := NextTid(s))
    else s.(tid := NextTid(s), inflight := s.inflight + [Entry(s.tid, ask, 1, 0, now + timeout, timeout, false, 0)],
            stats := s.stats.(active := s.stats.active + 1, total := s.stats.total + 1))
  }

  /** Move the last element into the place of the removed one. */
  function SwapRemove<T>(es: seq<T>, i: nat): (r: seq<T>)
    requires i < |es|
    ensures |r| == |es| - 1
    ensures r[..i] == es[..i]
  {
    es[i := es[|es| - 1]][..|es| - 1]
  }

  function Lowered(n: nat): nat {
    if n > 0 then n - 1 else 0
  }

  function Respond(s: State, tid: nat): (r: State)
    requires Shaped(s.window)
    ensures Shaped(r.window)
  {
    match Position(s.inflight, tid)
    case None => s
    case Some(i) =>
      s.(inflight := SwapRemove(s.inflight, i), window := Received(s.window),
         stats := s.stats.(active := Lowered(s.stats.active), responses := s.stats.responses + 1))
  }

  // ---------------------------------------------------------------- timeouts

  predicate Expired(e: Entry, now: nat) {
    e.deadline <= now
  }

  predicate Exhausted(e: Entry) {
    e.sent > e.retries
  }

  /** Ascending positions. */
  predicate Ascending(ixs: seq<nat>, n: nat) {
    && (forall k :: 0 <= k < |ixs| ==> ixs[k] < n)
    && (forall j, k :: 0 <= j < k < |ixs| ==> ixs[j] < ixs[k])
  }

  /** The expired entries that are out of retries, by ascending index below `n`. */
  function TimedOut(es: seq<Entry>, now: nat, n: nat): (r: seq<nat>)
    requires n <= |es|
    ensures Ascending(r, n)
  {
    if n == 0 then []
    else
      var before := TimedOut(es, now, n - 1);
      if Expired(es[n - 1], now) && Exhausted(es[n - 1]) then before + [n - 1] else before
  }

  function ToRetry(es: seq<Entry>, now: nat, n: nat): (r: seq<nat>)
    requires n <= |es|
    ensures Ascending(r, n)
  {
    if n == 0 then []
    else
      var before := ToRetry(es, now, n - 1);
      if Expired(es[n - 1], now) && !Exhausted(es[n - 1]) then before + [n - 1] else before
  }

  function RetryAt(s: State, i: nat, now: nat): (r: State)
    requires i < |s.inflight| && Shaped(s.window)
    ensures Shaped(r.window) && |r.inflight| == |s.inflight|
  {
    SendAt(s.(stats := s.stats.(retries := s.stats.retries + 1)), i, now, true)
  }

  function RetryAll(s: State, ixs: seq<nat>, now: nat): (r: State)
    requires Shaped(s.window) && forall k :: 0 <= k < |ixs| ==> ixs[k] < |s.inflight|
    ensures Shaped(r.window) && |r.inflight| == |s.inflight|
    decreases |ixs|
  {
    if ixs == [] then s else RetryAt(RetryAll(s, ixs[..|ixs| - 1], now), ixs[|ixs| - 1], now)
  }

  function DropAt(s: State, i: nat): (r: State)
    requires i < |s.inflight| && Shaped(s.window)
    ensures Shaped(r.window)
  {
    s.(inflight := SwapRemove(s.inflight, i), window := Received(s.window),
       stats := s.stats.(active := Lowered(s.stats.active), timeouts := s.stats.timeouts + 1))
  }

  /** Drop the entries at ascending positions, the highest first; also gives what was dropped. */
  function DropAll(s: State, ixs: seq<nat>): (r: (State, seq<Entry>))
    requires Shaped(s.window) && Ascending(ixs, |s.inflight|)
    ensures Shaped(r.0.window)
    decreases |ixs|
  {
    if ixs == [] then (s, [])
    else
      var i := ixs[|ixs| - 1];
      var (t, more) := DropAll(DropAt(s, i), ixs[..|ixs| - 1]);
      (t, [s.inflight[i]] + more)
  }

  function CheckTimeouts(s: State, now: nat, later: nat): (r: (State, seq<Entry>))
    requires Shaped(s.window)
    ensures Shaped(r.0.window)
  {
    var n := |s.inflight|;
    DropAll(RetryAll(s, ToRetry(s.inflight, now, n), later), TimedOut(s.inflight, now, n))
  }

  // ---------------------------------------------------------------- drain

  /** Send waiting requests that are still in flight while the window has room. */
  function Flush(max: nat, s: State, now: nat): (r: State)
    requires Shaped(s.window)
    ensures Shaped(r.window)
    decreases |s.pending|
  {
    if IsFull(s.window, max) || s.pending == [] then s
    else
      var s1 := s.(pending := s.pending[1..]);
      match Position(s.inflight, s.pending[0])
      case None => Flush(max, s1, now)
      case Some(i) => Flush(max, SendAt(s1, i, now, false), now)
  }

  function Drain(max: nat, s: State, now: nat): (r: State)
    requires Shaped(s.window)
    ensures Shaped(r.window)
  {
    Flush(max, s.(window := Drained(s.window)), now)
  }

  datatype Event =
    | DoCreate(ask: Ask, retries: nat, timeout: nat, now: nat, valid: bool, encodes: bool)
    | DoCreateVia(ask: Ask, timeout: nat, now: nat, valid: bool, sends: bool)
    | DoRespond(tid: nat)
    | DoCheckTimeouts(now: nat, later: nat)
    | DoDrain(now: nat)

  function Step(max: nat, s: State, e: Event): (r: State)
    requires Shaped(s.window)
    ensures Shaped(r.window)
  {
    match e
    case DoCreate(ask, retries, timeout, now, valid, encodes) =>
      Create(max, s, ask, retries, timeout, now, valid, encodes)
    case DoCreateVia(ask, timeout, now, valid, sends) => CreateVia(s, ask, timeout, now, valid, sends)
    case DoRespond(tid) => Respond(s, tid)
    case DoCheckTimeouts(now, later) => CheckTimeouts(s, now, later).0
    case DoDrain(now) => Drain(max, s, now)
  }
}
