/** Every request in flight, traced to the call that created it. */
module IoOrigins {
  import opened Options
  import opened IoSpec
  import opened IoRuns

  // ---------------------------------------------------------------- one step

  ghost predicate Same(a: Entry, b: Entry) {
    b.tid == a.tid && b.ask == a.ask && b.retries == a.retries && b.timeout == a.timeout
  }

  /** The entry was there before, and its deadline stayed or was counted anew from `time`. */
  ghost predicate Descends(before: seq<Entry>, e: Entry, time: nat) {
    exists i :: 0 <= i < |before| && Same(before[i], e) &&
      (e.deadline == before[i].deadline || e.deadline == time + e.timeout)
  }

  ghost predicate AllDescend(before: seq<Entry>, es: seq<Entry>, time: nat) {
    forall i :: 0 <= i < |es| ==> Descends(before, es[i], time)
  }

  lemma SelfDescend(es: seq<Entry>, time: nat)
    ensures AllDescend(es, es, time)
  {
    forall i | 0 <= i < |es|
      ensures Descends(es, es[i], time)
    {
      assert Same(es[i], es[i]);
    }
  }

  lemma ResentDescends(before: seq<Entry>, es: seq<Entry>, i: nat, time: nat)
    requires AllDescend(before, es, time) && i < |es|
    ensures AllDescend(before, es[i := Resent(es[i], time)], time)
  {
    assert Descends(before, es[i], time);
    var j :| 0 <= j < |before| && Same(before[j], es[i]) &&
      (es[i].deadline == before[j].deadline || es[i].deadline == time + es[i].timeout);
    assert Same(before[j], Resent(es[i], time));
    assert Descends(before, Resent(es[i], time), time);
    hide Descends;
  }

  lemma RemovedDescend(before: seq<Entry>, es: seq<Entry>, i: nat, time: nat)
    requires AllDescend(before, es, time) && i < |es|
    ensures AllDescend(before, SwapRemove(es, i), time)
  {
    hide Descends;
  }

  lemma {:induction false} RetriesDescend(before: seq<Entry>, s: State, ixs: seq<nat>, time: nat)
    requires Shaped(s.window) && AllDescend(before, s.inflight, time)
    requires forall k :: 0 <= k < |ixs| ==> ixs[k] < |s.inflight|
    ensures AllDescend(before, RetryAll(s, ixs, time).inflight, time)
    decreases |ixs|
  {
    if ixs != [] {
      hide Sent, AllDescend;
      RetriesDescend(before, s, ixs[..|ixs| - 1], time);
      ResentDescends(before, RetryAll(s, ixs[..|ixs| - 1], time).inflight, ixs[|ixs| - 1], time);
    }
  }

  lemma {:induction false} DropsDescend(before: seq<Entry>, s: State, ixs: seq<nat>, time: nat)
    requires Shaped(s.window) && AllDescend(before, s.inflight, time) && Ascending(ixs, |s.inflight|)
    ensures AllDescend(before, DropAll(s, ixs).0.inflight, time)
    decreases |ixs|
  {
    if ixs != [] {
      var i := ixs[|ixs| - 1];
      RemovedDescend(before, s.inflight, i, time);
      hide Received, AllDescend;
      DropsDescend(before, DropAt(s, i), ixs[..|ixs| - 1], time);
    }
  }

  lemma {:induction false} FlushDescends(before: seq<Entry>, max: nat, s: State, time: nat)
    requires Shaped(s.window) && AllDescend(before, s.inflight, time)
    ensures AllDescend(before, Flush(max, s, time).inflight, time) && Flush(max, s, time).tid == s.tid
    decreases |s.pending|
  {
    if !IsFull(s.window, max) && s.pending != [] {
      hide Sent, IsFull, PositionFrom, AllDescend;
      var s1 := s.(pending := s.pending[1..]);
      match Position(s.inflight, s.pending[0])
      case None =>
        FlushDescends(before, max, s1, time);
      case Some(i) =>
        ResentDescends(before, s.inflight, i, time);
        FlushDescends(before, max, SendAt(s1, i, time, false), time);
    }
  }

  /** The time a step sends at. */
  ghost function TimeOf(e: Event): nat {
    match e
    case DoCreate(_, _, _, now, _, _) => now
    case DoCreateVia(_, _, now, _, _) => now
    case DoRespond(_) => 0
    case DoCheckTimeouts(_, later) => later
    case DoDrain(now) => now
  }

  /** The step creates a request. */
  ghost predicate Creates(e: Event) {
    (e.DoCreate? && e.valid && e.encodes) || (e.DoCreateVia? && e.valid && e.sends)
  }

  /** The step uses up a transaction id, whether or not it creates a request. */
  ghost predicate TakesId(e: Event) {
    (e.DoCreate? || e.DoCreateVia?) && e.valid
  }

  /** The request that the step creates: what was asked, its retries and its timeout. */
  ghost predicate MadeBy(e: Event, tid: nat, n: Entry) {
    && Creates(e) && n.tid == tid && n.ask == e.ask && n.timeout == e.timeout
    && n.retries == (if e.DoCreate? then e.retries else 0)
  }

  lemma RestDescends(max: nat, s: State, e: Event)
    requires Shaped(s.window) && !e.DoCreate? && !e.DoCreateVia?
    ensures AllDescend(s.inflight, Step(max, s, e).inflight, TimeOf(e))
  {
    hide RetryAll, DropAll, ToRetry, TimedOut, Flush, Drained, Received, PositionFrom, Sent, IsFull, AllDescend;
    SelfDescend(s.inflight, TimeOf(e));
    match e
    case DoRespond(tid) =>
      var p := Position(s.inflight, tid);
      if p.Some? {
        RemovedDescend(s.inflight, s.inflight, p.value, 0);
      }
    case DoCheckTimeouts(now, later) =>
      var n := |s.inflight|;
      RetriesDescend(s.inflight, s, ToRetry(s.inflight, now, n), later);
      DropsDescend(s.inflight, RetryAll(s, ToRetry(s.inflight, now, n), later), TimedOut(s.inflight, now, n), later);
    case DoDrain(now) =>
      FlushDescends(s.inflight, max, s.(window := Drained(s.window)), now);
  }

  /** A call adds its request, due a timeout later, and changes no other. */
  lemma CreateAdds(max: nat, s: State, e: Event)
    requires Shaped(s.window) && (e.DoCreate? || e.DoCreateVia?)
    ensures var t := Step(max, s, e);
            if Creates(e) then
              && |t.inflight| == |s.inflight| + 1 && t.inflight[..|s.inflight|] == s.inflight
              && MadeBy(e, s.tid, t.inflight[|s.inflight|])
              && t.inflight[|s.inflight|].deadline == e.now + e.timeout
            else t.inflight == s.inflight
  {
    hide Sent, IsFull;
  }

  lemma {:induction false} DropsKeepTid(s: State, ixs: seq<nat>)
    requires Shaped(s.window) && Ascending(ixs, |s.inflight|)
    ensures DropAll(s, ixs).0.tid == s.tid
    decreases |ixs|
  {
    if ixs != [] {
      hide Received;
      DropsKeepTid(DropAt(s, ixs[|ixs| - 1]), ixs[..|ixs| - 1]);
    }
  }

  lemma {:induction false} RetriesKeepTid(s: State, ixs: seq<nat>, now: nat)
    requires Shaped(s.window) && forall k :: 0 <= k < |ixs| ==> ixs[k] < |s.inflight|
    ensures RetryAll(s, ixs, now).tid == s.tid
    decreases |ixs|
  {
    if ixs != [] {
      hide Sent;
      RetriesKeepTid(s, ixs[..|ixs| - 1], now);
    }
  }

  lemma StepTid(max: nat, s: State, e: Event)
    requires Shaped(s.window)
    ensures Step(max, s, e).tid == if TakesId(e) then (s.tid + 1) % TIDS else s.tid
  {
    hide RetryAll, DropAll, ToRetry, TimedOut, Flush, Drained, Received, PositionFrom, Sent, IsFull;
    match e
    case DoCheckTimeouts(now, later) =>
      var n := |s.inflight|;
      RetriesKeepTid(s, ToRetry(s.inflight, now, n), later);
      DropsKeepTid(RetryAll(s, ToRetry(s.inflight, now, n), later), TimedOut(s.inflight, now, n));
    case DoDrain(now) =>
      SelfDescend(s.inflight, now);
      FlushDescends(s.inflight, max, s.(window := Drained(s.window)), now);
    case _ =>
  }

  // ---------------------------------------------------------------- runs

  lemma {:induction false} RunSnoc(max: nat, s: State, es: seq<Event>, e: Event)
    requires Shaped(s.window)
    ensures Run(max, s, es + [e]) == Step(max, Run(max, s, es), e)
    decreases |es|
  {
    hide Step;
    if es == [] {
      assert es + [e] == [e] && [e][1..] == [];
    } else {
      assert (es + [e])[0] == es[0] && (es + [e])[1..] == es[1..] + [e];
      RunSnoc(max, Step(max, s, es[0]), es[1..], e);
    }
  }

  ghost function IdsTaken(es: seq<Event>): nat {
    if es == [] then 0 else IdsTaken(es[..|es| - 1]) + if TakesId(es[|es| - 1]) then 1 else 0
  }

  /** Transaction ids are handed out one after the other, modulo 65536. */
  lemma {:induction false} TidAt(max: nat, tid: nat, es: seq<Event>)
    ensures Run(max, Initial(tid), es).tid == (tid + IdsTaken(es)) % TIDS
    decreases |es|
  {
    if es != [] {
      var n := |es| - 1;
      assert es == es[..n] + [es[n]];
      RunSnoc(max, Initial(tid), es[..n], es[n]);
      TidAt(max, tid, es[..n]);
      hide Run;
      StepTid(max, Run(max, Initial(tid), es[..n]), es[n]);
    }
  }

  /** The entry was created by step j with the id next in turn, and its deadline is its timeout
      after step k, which created it or may have sent it again. */
  ghost predicate Traced(tid: nat, es: seq<Event>, n: Entry, j: nat, k: nat) {
    && j <= k < |es| && MadeBy(es[j], (tid + IdsTaken(es[..j])) % TIDS, n)
    && (k == j || es[k].DoCheckTimeouts? || es[k].DoDrain?) && n.deadline == TimeOf(es[k]) + n.timeout
  }

  lemma TracedKept(tid: nat, es: seq<Event>, e: Event, b: Entry, n: Entry, j: nat, k: nat)
    requires Traced(tid, es, b, j, k) && Same(b, n) && n.deadline == b.deadline
    ensures Traced(tid, es + [e], n, j, k)
  {
    var es' := es + [e];
    assert es'[..j] == es[..j] && es'[j] == es[j] && es'[k] == es[k];
  }

  lemma TracedAnew(tid: nat, es: seq<Event>, e: Event, b: Entry, n: Entry, j: nat, k: nat)
    requires Traced(tid, es, b, j, k) && Same(b, n) && (e.DoCheckTimeouts? || e.DoDrain?)
    requires n.deadline == TimeOf(e) + n.timeout
    ensures Traced(tid, es + [e], n, j, |es|)
  {
    var es' := es + [e];
    assert es'[..j] == es[..j] && es'[j] == es[j] && es'[|es|] == e;
  }

  ghost predicate SomeTrace(tid: nat, es: seq<Event>, n: Entry) {
    exists j: nat, k: nat :: Traced(tid, es, n, j, k)
  }

  lemma RemovedMember<T>(es: seq<T>, i: nat, x: T)
    requires i < |es| && x in SwapRemove(es, i)
    ensures x in es
  {
  }

  /** In every run each request in flight goes back to one call: it asks what that call asked, with
      its retries and timeout and the transaction id that was next, and it is due its timeout
      after that call, or after a later step that sends again. */
  lemma {:induction false} EntryOrigins(max: nat, tid: nat, es: seq<Event>, n: Entry)
    requires n in Run(max, Initial(tid), es).inflight
    ensures SomeTrace(tid, es, n)
    decreases |es|
  {
    if es != [] {
      var m := |es| - 1;
      var e := es[m];
      assert es == es[..m] + [e];
      RunSnoc(max, Initial(tid), es[..m], e);
      TidAt(max, tid, es[..m]);
      hide Run, IdsTaken, Step, Traced;
      var s := Run(max, Initial(tid), es[..m]);
      if !e.DoCheckTimeouts? && !e.DoDrain? {
        StayedOrMade(max, s, e, n);
        if n in s.inflight {
          EntryOrigins(max, tid, es[..m], n);
          var j: nat, k: nat :| Traced(tid, es[..m], n, j, k);
          TracedKept(tid, es[..m], e, n, n, j, k);
        } else {
          MadeTraced(tid, es[..m], e, s.tid, n);
        }
      } else {
        StepMember(max, s, e, n);
        var b :| b in s.inflight && Same(b, n) && (n.deadline == b.deadline || n.deadline == TimeOf(e) + n.timeout);
        EntryOrigins(max, tid, es[..m], b);
        var j: nat, k: nat :| Traced(tid, es[..m], b, j, k);
        if n.deadline == b.deadline {
          TracedKept(tid, es[..m], e, b, n, j, k);
        } else {
          TracedAnew(tid, es[..m], e, b, n, j, k);
        }
      }
    }
  }

  lemma StayedOrMade(max: nat, s: State, e: Event, n: Entry)
    requires Shaped(s.window) && n in Step(max, s, e).inflight && !e.DoCheckTimeouts? && !e.DoDrain?
    ensures n in s.inflight || (MadeBy(e, s.tid, n) && n.deadline == e.now + e.timeout)
  {
    if e.DoRespond? {
      var p := Position(s.inflight, e.tid);
      if p.Some? {
        RemovedMember(s.inflight, p.value, n);
      }
    } else {
      CreateAdds(max, s, e);
      hide Step;
      var t := Step(max, s, e);
      assert Creates(e) ==> t.inflight == s.inflight + [t.inflight[|s.inflight|]];
    }
  }

  lemma MadeTraced(tid: nat, es: seq<Event>, e: Event, id: nat, n: Entry)
    requires id == (tid + IdsTaken(es)) % TIDS && MadeBy(e, id, n) && n.deadline == e.now + e.timeout
    ensures SomeTrace(tid, es + [e], n)
  {
    hide IdsTaken;
    assert (es + [e])[..|es|] == es && (es + [e])[|es|] == e;
    assert Traced(tid, es + [e], n, |es|, |es|);
  }

  lemma StepMember(max: nat, s: State, e: Event, n: Entry)
    requires Shaped(s.window) && n in Step(max, s, e).inflight && (e.DoCheckTimeouts? || e.DoDrain?)
    ensures exists b :: b in s.inflight && Same(b, n) &&
              (n.deadline == b.deadline || n.deadline == TimeOf(e) + n.timeout)
  {
    RestDescends(max, s, e);
    hide Step;
    var t := Step(max, s, e);
    var i :| 0 <= i < |t.inflight| && t.inflight[i] == n;
    assert Descends(s.inflight, t.inflight[i], TimeOf(e));
  }

  // ---------------------------------------------------------------- responses

  /** One place of the current quarter is free again, if any was taken. */
  ghost predicate Frees(w: Window, w': Window)
    requires Shaped(w)
  {
    var n := w.quarters[w.at];
    && w'.at == w.at
    && w'.total == (if n > 0 then w.total - 1 else w.total)
    && w'.quarters == (if n > 0 then w.quarters[w.at := n - 1] else w.quarters)
  }

  /** A response takes exactly one request with its transaction id out of the table, if there is
      one, counts it and frees a place in the window; any other response changes nothing. */
  lemma RespondExact(s: State, tid: nat)
    requires Shaped(s.window)
    ensures var t := Respond(s, tid);
            if exists i :: 0 <= i < |s.inflight| && s.inflight[i].tid == tid then
              && t.stats == s.stats.(active := Lowered(s.stats.active), responses := s.stats.responses + 1)
              && Frees(s.window, t.window) && t.pending == s.pending && t.tid == s.tid
              && exists i :: 0 <= i < |s.inflight| && s.inflight[i].tid == tid &&
                   multiset(t.inflight) == multiset(s.inflight) - multiset{s.inflight[i]}
            else t == s
  {
    var p := Position(s.inflight, tid);
    if p.Some? {
      SwapRemoved(s.inflight, p.value);
      hide SwapRemove;
    }
  }

  // ---------------------------------------------------------------- the window at a timeout check

  /** The current quarter, and with it the total, has changed by `n`, and nothing else. */
  ghost predicate Moved(w: Window, w': Window, n: int) {
    && Shaped(w) && Shaped(w') && w'.at == w.at && w'.total == w.total + n
    && w'.quarters == w.quarters[w.at := w.quarters[w.at] + n]
  }

  lemma MovedTwice(w: Window, w': Window, w'': Window, m: int, n: int)
    requires Moved(w, w', m) && Moved(w', w'', n)
    ensures Moved(w, w'', m + n)
  {
  }

  lemma {:induction false} RetriesMove(s: State, ixs: seq<nat>, now: nat)
    requires Shaped(s.window) && forall k :: 0 <= k < |ixs| ==> ixs[k] < |s.inflight|
    ensures Moved(s.window, RetryAll(s, ixs, now).window, |ixs|)
    decreases |ixs|
  {
    if ixs != [] {
      var r := RetryAll(s, ixs[..|ixs| - 1], now);
      RetriesMove(s, ixs[..|ixs| - 1], now);
      MovedTwice(s.window, r.window, RetryAll(s, ixs, now).window, |ixs| - 1, 1);
    }
  }

  /** How many places `n` received requests free in the current quarter. */
  ghost function Freed(q: int, n: nat): int {
    if q <= 0 then 0 else if q < n then q else n
  }

  lemma {:induction false} DropsMove(s: State, ixs: seq<nat>)
    requires Shaped(s.window) && Ascending(ixs, |s.inflight|)
    ensures Moved(s.window, DropAll(s, ixs).0.window, -Freed(s.window.quarters[s.window.at], |ixs|))
    decreases |ixs|
  {
    if ixs != [] {
      var s1 := DropAt(s, ixs[|ixs| - 1]);
      var q := s.window.quarters[s.window.at];
      DropsMove(s1, ixs[..|ixs| - 1]);
      var t := DropAll(s, ixs).0;
      assert Moved(s.window, s1.window, if q > 0 then -1 else 0);
      MovedTwice(s.window, s1.window, t.window, if q > 0 then -1 else 0,
                 -Freed(s1.window.quarters[s1.window.at], |ixs| - 1));
    }
  }

  /** A timeout check takes a place in the current quarter for each retry, and then frees one for
      each request it drops, as long as there are any. */
  lemma TimeoutsMove(s: State, now: nat, later: nat)
    requires Shaped(s.window)
    ensures var n := |s.inflight|;
            var r, d := |ToRetry(s.inflight, now, n)|, |TimedOut(s.inflight, now, n)|;
            Moved(s.window, CheckTimeouts(s, now, later).0.window,
                  r - Freed(s.window.quarters[s.window.at] + r, d))
  {
    hide RetryAll, DropAll, ToRetry, TimedOut;
    var n := |s.inflight|;
    var retries, out := ToRetry(s.inflight, now, n), TimedOut(s.inflight, now, n);
    var s1 := RetryAll(s, retries, later);
    RetriesMove(s, retries, later);
    DropsMove(s1, out);
    MovedTwice(s.window, s1.window, DropAll(s1, out).0.window, |retries|,
               -Freed(s1.window.quarters[s1.window.at], |out|));
  }

  // ---------------------------------------------------------------- the queue at a drain

  ghost predicate DistinctIds(es: seq<Entry>) {
    forall i, j :: 0 <= i < j < |es| ==> es[i].tid != es[j].tid
  }

  ghost predicate DistinctTids(ts: seq<nat>) {
    forall i, j :: 0 <= i < j < |ts| ==> ts[i] != ts[j]
  }

  /** From `s` to `t` the first m places of the queue came up, and exactly the requests in flight
      among them were sent. */
  ghost predicate CameUp(s: State, t: State, now: nat, m: nat) {
    && m <= |s.pending| && t.pending == s.pending[m..] && |t.inflight| == |s.inflight|
    && t.tid == s.tid && t.stats == s.stats
    && forall i :: 0 <= i < |s.inflight| ==>
         t.inflight[i] == if s.inflight[i].tid in s.pending[..m] then Resent(s.inflight[i], now) else s.inflight[i]
  }

  lemma OneCameUp(s: State, s1: State, t: State, now: nat, m: nat)
    requires s.pending != [] && DistinctTids(s.pending) && s1.pending == s.pending[1..] && CameUp(s1, t, now, m)
    requires |s1.inflight| == |s.inflight| && s1.tid == s.tid && s1.stats == s.stats
    requires forall i :: 0 <= i < |s.inflight| ==>
               s1.inflight[i] == if s.inflight[i].tid == s.pending[0] then Resent(s.inflight[i], now) else s.inflight[i]
    ensures CameUp(s, t, now, m + 1)
  {
    assert s.pending[..m + 1] == [s.pending[0]] + s1.pending[..m];
    assert s.pending[0] !in s1.pending[..m];
  }

  /** A drain takes the queue in order, until the window is full or the queue is empty, and sends
      exactly the requests it takes that are still in flight. */
  lemma {:induction false} FlushInOrder(max: nat, s: State, now: nat) returns (m: nat)
    requires Shaped(s.window) && DistinctIds(s.inflight) && DistinctTids(s.pending)
    ensures var t := Flush(max, s, now);
            CameUp(s, t, now, m) && (IsFull(t.window, max) || t.pending == [])
    decreases |s.pending|
  {
    m := 0;
    if !IsFull(s.window, max) && s.pending != [] {
      hide Sent, IsFull, PositionFrom, CameUp;
      var s1 := s.(pending := s.pending[1..]);
      var p := Position(s.inflight, s.pending[0]);
      var s2 := if p.Some? then SendAt(s1, p.value, now, false) else s1;
      m := FlushInOrder(max, s2, now);
      OneCameUp(s, s2, Flush(max, s, now), now, m);
      m := m + 1;
    }
  }

  /** A request that finds the window full waits at the end of the queue; another is sent at once. */
  lemma CreateQueues(max: nat, s: State, e: Event)
    requires Shaped(s.window) && e.DoCreate? && Creates(e)
    ensures var t := Step(max, s, e);
            && |t.inflight| == |s.inflight| + 1
            && if IsFull(s.window, max) then
                 t.pending == s.pending + [s.tid] && t.inflight[|s.inflight|].sent == 0 && t.window == s.window
               else t.pending == s.pending && t.inflight[|s.inflight|].sent == 1 && Moved(s.window, t.window, 1)
  {
    hide IsFull;
  }
}
