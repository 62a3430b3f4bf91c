/** What the IO layer keeps in every run: the window's bound, and that every request is in
    flight, answered or timed out. */
module IoRuns {
  import opened Options
  import opened IoSpec

  // ---------------------------------------------------------------- the window

  ghost function Sum(q: seq<int>): int
    requires |q| == 4
  {
    q[0] + q[1] + q[2] + q[3]
  }

  ghost function Min(a: int, b: int): int {
    if a <= b then a else b
  }

  /** The part of a quarter that retries account for. */
  ghost function Excess(w: Window, j: nat): int
    requires Shaped(w) && j < 4
  {
    Min(w.retried[j], w.quarters[j])
  }

  ghost function AllExcess(w: Window): int
    requires Shaped(w)
  {
    Excess(w, 0) + Excess(w, 1) + Excess(w, 2) + Excess(w, 3)
  }

  ghost predicate WindowOk(w: Window, max: nat) {
    && Shaped(w)
    && w.total == Sum(w.quarters)
    && (forall j :: 0 <= j < 4 ==> 0 <= w.quarters[j] <= max + Excess(w, j))
    && w.total <= 2 * max + AllExcess(w)
  }

  lemma ReceivedOk(w: Window, max: nat)
    requires WindowOk(w, max)
    ensures WindowOk(Received(w), max)
  {
  }

  lemma RetrySentOk(w: Window, max: nat)
    requires WindowOk(w, max)
    ensures WindowOk(Sent(w, true), max)
  {
  }

  lemma FirstSentOk(w: Window, max: nat)
    requires WindowOk(w, max) && !IsFull(w, max)
    ensures WindowOk(Sent(w, false), max)
  {
    var t := Sent(w, false);
    assert 0 <= w.quarters[0] && 0 <= w.quarters[1] && 0 <= w.quarters[2] && 0 <= w.quarters[3];
    assert t.total <= 2 * max && AllExcess(t) >= 0;
    assert t.quarters[w.at] <= max && Excess(t, w.at) >= 0;
    assert forall j :: 0 <= j < 4 && j != w.at ==> t.quarters[j] == w.quarters[j] && Excess(t, j) == Excess(w, j);
  }

  lemma DrainedOk(w: Window, max: nat)
    requires WindowOk(w, max)
    ensures WindowOk(Drained(w), max)
  {
  }

  // ---------------------------------------------------------------- accounting

  ghost predicate StatsOk(s: Stats, n: nat) {
    s.active == n && s.total == s.active + s.responses + s.timeouts
  }

  ghost predicate Inv(max: nat, s: State) {
    WindowOk(s.window, max) && StatsOk(s.stats, |s.inflight|)
  }

  lemma RetryOk(max: nat, s: State, i: nat, now: nat)
    requires Inv(max, s) && i < |s.inflight|
    ensures Inv(max, RetryAt(s, i, now))
  {
    hide WindowOk, Sent;
    RetrySentOk(s.window, max);
  }

  lemma {:induction false} RetryAllOk(max: nat, s: State, ixs: seq<nat>, now: nat)
    requires Inv(max, s) && forall k :: 0 <= k < |ixs| ==> ixs[k] < |s.inflight|
    ensures Inv(max, RetryAll(s, ixs, now))
    decreases |ixs|
  {
    assert Shaped(s.window);
    hide Inv, RetryAt;
    if ixs != [] {
      RetryAllOk(max, s, ixs[..|ixs| - 1], now);
      RetryOk(max, RetryAll(s, ixs[..|ixs| - 1], now), ixs[|ixs| - 1], now);
    }
  }

  lemma {:induction false} DropAllOk(max: nat, s: State, ixs: seq<nat>)
    requires Inv(max, s) && Ascending(ixs, |s.inflight|)
    ensures Inv(max, DropAll(s, ixs).0)
    decreases |ixs|
  {
    if ixs != [] {
      var i := ixs[|ixs| - 1];
      ReceivedOk(s.window, max);
      hide WindowOk, Received;
      DropAllOk(max, DropAt(s, i), ixs[..|ixs| - 1]);
    }
  }

  lemma {:induction false} FlushOk(max: nat, s: State, now: nat)
    requires Inv(max, s)
    ensures Inv(max, Flush(max, s, now))
    decreases |s.pending|
  {
    if !IsFull(s.window, max) && s.pending != [] {
      FirstSentOk(s.window, max);
      hide WindowOk, Sent, Position, IsFull;
      var s1 := s.(pending := s.pending[1..]);
      match Position(s.inflight, s.pending[0])
      case None => FlushOk(max, s1, now);
      case Some(i) => FlushOk(max, SendAt(s1, i, now, false), now);
    }
  }

  lemma CreateOk(max: nat, s: State, e: Event)
    requires Inv(max, s) && e.DoCreate?
    ensures Inv(max, Step(max, s, e))
  {
    if !IsFull(s.window, max) {
      FirstSentOk(s.window, max);
    }
    hide WindowOk, Sent, IsFull;
  }

  lemma StepOk(max: nat, s: State, e: Event)
    requires Inv(max, s)
    ensures Inv(max, Step(max, s, e))
  {
    assert Shaped(s.window);
    hide WindowOk, Create, RetryAll, DropAll, ToRetry, TimedOut, Flush, Drained, Received, Position;
    match e
    case DoCreate(_, _, _, _, _, _) => CreateOk(max, s, e);
    case DoCreateVia(_, _, _, _, _) =>
    case DoRespond(tid) => ReceivedOk(s.window, max);
    case DoCheckTimeouts(now, later) =>
      var n := |s.inflight|;
      RetryAllOk(max, s, ToRetry(s.inflight, now, n), later);
      DropAllOk(max, RetryAll(s, ToRetry(s.inflight, now, n), later), TimedOut(s.inflight, now, n));
    case DoDrain(now) =>
      DrainedOk(s.window, max);
      FlushOk(max, s.(window := Drained(s.window)), now);
  }

  ghost function Run(max: nat, s: State, es: seq<Event>): (r: State)
    requires Shaped(s.window)
    ensures Shaped(r.window)
    decreases |es|
  {
    if es == [] then s else Run(max, Step(max, s, es[0]), es[1..])
  }

  lemma {:induction false} RunOk(max: nat, s: State, es: seq<Event>)
    requires Inv(max, s)
    ensures Inv(max, Run(max, s, es))
    decreases |es|
  {
    assert Shaped(s.window);
    hide Inv, Step;
    if es != [] {
      StepOk(max, s, es[0]);
      RunOk(max, Step(max, s, es[0]), es[1..]);
    }
  }

  /** In every run the window's total is the sum of its quarters and exceeds twice the maximum
      by at most what retries of the last four drain periods still account for. */
  lemma WindowBound(max: nat, tid: nat, es: seq<Event>)
    ensures var w := Run(max, Initial(tid), es).window;
            && w.total == Sum(w.quarters)
            && (forall j :: 0 <= j < 4 ==> 0 <= w.quarters[j] <= max + Min(w.retried[j], w.quarters[j]))
            && w.total <= 2 * max + AllExcess(w)
            && w.total <= 2 * max + Sum(w.retried)
  {
    InitialOk(max, tid);
    hide Run, Initial;
    RunOk(max, Initial(tid), es);
  }

  /** In every run each request is in flight, answered or timed out. */
  lemma Accounting(max: nat, tid: nat, es: seq<Event>)
    ensures var s := Run(max, Initial(tid), es);
            s.stats.active == |s.inflight| && s.stats.total == s.stats.active + s.stats.responses + s.stats.timeouts
  {
    InitialOk(max, tid);
    hide Run, WindowOk, Initial;
    RunOk(max, Initial(tid), es);
  }

  lemma InitialOk(max: nat, tid: nat)
    ensures Inv(max, Initial(tid))
  {
  }

  // ---------------------------------------------------------------- exactly the timed-out entries

  /** The elements below `n`, in order, whose flag is `flag`. */
  ghost function Picked<T>(es: seq<T>, flags: seq<bool>, n: nat, flag: bool): seq<T>
    requires n <= |es| == |flags|
  {
    if n == 0 then []
    else if flags[n - 1] == flag then Picked(es, flags, n - 1, flag) + [es[n - 1]]
    else Picked(es, flags, n - 1, flag)
  }

  lemma {:induction false} PickedAll<T>(es: seq<T>, flags: seq<bool>, n: nat)
    requires n <= |es| == |flags|
    ensures multiset(Picked(es, flags, n, true)) + multiset(Picked(es, flags, n, false)) == multiset(es[..n])
  {
    if n > 0 {
      PickedAll(es, flags, n - 1);
      assert es[..n] == es[..n - 1] + [es[n - 1]];
    }
  }

  lemma SwapRemoved<T>(es: seq<T>, i: nat)
    requires i < |es|
    ensures multiset(SwapRemove(es, i)) + multiset{es[i]} == multiset(es)
  {
    var last := es[|es| - 1];
    assert es == es[..|es| - 1] + [last];
    if i < |es| - 1 {
      var init := es[..|es| - 1];
      assert SwapRemove(es, i) == init[i := last];
      assert init == init[..i] + [init[i]] + init[i + 1..];
      assert init[i := last] == init[..i] + [last] + init[i + 1..];
    } else {
      assert SwapRemove(es, i) == es[..|es| - 1];
    }
  }

  ghost function ReverseOf<T>(es: seq<T>): seq<T> {
    if es == [] then [] else [es[|es| - 1]] + ReverseOf(es[..|es| - 1])
  }

  lemma ReverseSnoc<T>(es: seq<T>, e: T)
    ensures ReverseOf(es + [e]) == [e] + ReverseOf(es)
  {
    assert (es + [e])[..|es|] == es;
  }

  ghost function At<T>(es: seq<T>, ixs: seq<nat>): seq<T>
    requires forall k :: 0 <= k < |ixs| ==> ixs[k] < |es|
  {
    if ixs == [] then [] else At(es, ixs[..|ixs| - 1]) + [es[ixs[|ixs| - 1]]]
  }

  lemma {:induction false} AtPrefix<T>(es: seq<T>, fs: seq<T>, ixs: seq<nat>, n: nat)
    requires n <= |es| && n <= |fs| && es[..n] == fs[..n] && forall k :: 0 <= k < |ixs| ==> ixs[k] < n
    ensures At(es, ixs) == At(fs, ixs)
  {
    if ixs != [] {
      AtPrefix(es, fs, ixs[..|ixs| - 1], n);
      var i := ixs[|ixs| - 1];
      assert es[i] == es[..n][i] && fs[i] == fs[..n][i];
    }
  }

  lemma AtSnoc<T>(es: seq<T>, ixs: seq<nat>, i: nat)
    requires i < |es| && forall k :: 0 <= k < |ixs| ==> ixs[k] < |es|
    ensures At(es, ixs + [i]) == At(es, ixs) + [es[i]]
  {
    assert (ixs + [i])[..|ixs|] == ixs;
  }

  /** Remove at ascending positions, the highest first. */
  ghost function RemoveAll<T>(es: seq<T>, ixs: seq<nat>): seq<T>
    requires Ascending(ixs, |es|)
    decreases |ixs|
  {
    if ixs == [] then es else RemoveAll(SwapRemove(es, ixs[|ixs| - 1]), ixs[..|ixs| - 1])
  }

  /** This takes out exactly the elements that were at the given positions, although each
      removal moves another element. */
  lemma {:induction false} RemovesExactly<T>(es: seq<T>, ixs: seq<nat>)
    requires Ascending(ixs, |es|)
    ensures multiset(RemoveAll(es, ixs)) + multiset(At(es, ixs)) == multiset(es)
    decreases |ixs|
  {
    if ixs != [] {
      var i, rest := ixs[|ixs| - 1], ixs[..|ixs| - 1];
      RemovesExactly(SwapRemove(es, i), rest);
      AtPrefix(SwapRemove(es, i), es, rest, i);
      SwapRemoved(es, i);
    }
  }

  lemma {:induction false} DropsThose(s: State, ixs: seq<nat>)
    requires Shaped(s.window) && Ascending(ixs, |s.inflight|)
    ensures DropAll(s, ixs).0.inflight == RemoveAll(s.inflight, ixs)
    ensures DropAll(s, ixs).1 == ReverseOf(At(s.inflight, ixs))
    decreases |ixs|
  {
    if ixs != [] {
      var i, rest := ixs[|ixs| - 1], ixs[..|ixs| - 1];
      DropsThose(DropAt(s, i), rest);
      AtPrefix(DropAt(s, i).inflight, s.inflight, rest, i);
      AtSnoc(s.inflight, rest, i);
      assert ixs == rest + [i];
      ReverseSnoc(At(s.inflight, rest), s.inflight[i]);
      hide At, ReverseOf, SwapRemove, Received;
    }
  }

  /** Which entries have expired with no retries left. */
  ghost function Out(es: seq<Entry>, now: nat): (flags: seq<bool>)
    ensures |flags| == |es| && forall i :: 0 <= i < |es| ==> flags[i] == (Expired(es[i], now) && Exhausted(es[i]))
  {
    seq(|es|, i requires 0 <= i < |es| => Expired(es[i], now) && Exhausted(es[i]))
  }

  lemma {:induction false} AtTimedOut<T>(before: seq<Entry>, after: seq<T>, now: nat, n: nat)
    requires n <= |before| == |after|
    ensures At(after, TimedOut(before, now, n)) == Picked(after, Out(before, now), n, true)
  {
    if n > 0 {
      hide At, TimedOut, Picked, Out, Expired, Exhausted;
      AtTimedOut(before, after, now, n - 1);
      TimedOutStep(before, now, n);
      PickedStep(after, Out(before, now), n);
      if Expired(before[n - 1], now) && Exhausted(before[n - 1]) {
        AtSnoc(after, TimedOut(before, now, n - 1), n - 1);
      }
    } else {
      assert TimedOut(before, now, n) == [];
    }
  }

  lemma TimedOutStep(es: seq<Entry>, now: nat, n: nat)
    requires 0 < n <= |es|
    ensures TimedOut(es, now, n) == if Expired(es[n - 1], now) && Exhausted(es[n - 1])
            then TimedOut(es, now, n - 1) + [n - 1]
                                    else TimedOut(es, now, n - 1)
  {
  }

  lemma PickedStep<T>(es: seq<T>, flags: seq<bool>, n: nat)
    requires 0 < n <= |es| == |flags|
    ensures Picked(es, flags, n, true) == if flags[n - 1] then Picked(es, flags, n - 1, true) + [es[n - 1]]
                                          else Picked(es, flags, n - 1, true)
  {
  }

  /** The state of each entry after the retries: resent if it was due for one. */
  ghost predicate Retried(before: seq<Entry>, after: seq<Entry>, now: nat, later: nat) {
    && |after| == |before|
    && forall i :: 0 <= i < |before| ==>
         after[i] == if Expired(before[i], now) && !Exhausted(before[i]) then Resent(before[i], later) else before[i]
  }

  lemma {:induction false} RetriesEach(s: State, ixs: seq<nat>, later: nat)
    requires Shaped(s.window) && Ascending(ixs, |s.inflight|)
    ensures var t := RetryAll(s, ixs, later);
            forall i :: 0 <= i < |s.inflight| ==>
              t.inflight[i] == if i in ixs then Resent(s.inflight[i], later) else s.inflight[i]
    decreases |ixs|
  {
    if ixs != [] {
      var rest, last := ixs[..|ixs| - 1], ixs[|ixs| - 1];
      RetriesEach(s, rest, later);
      assert last !in rest;
      assert ixs == rest + [last];
    }
  }

  lemma {:induction false} DueForRetry(es: seq<Entry>, now: nat, n: nat)
    requires n <= |es|
    ensures forall i :: 0 <= i < |es| ==>
            (i in ToRetry(es, now, n) <==> i < n && Expired(es[i], now) && !Exhausted(es[i]))
  {
    if n > 0 {
      DueForRetry(es, now, n - 1);
    }
  }

  /** A timeout check drops exactly the expired entries without retries left, reporting them
      from the last to the first, and leaves every other entry, resent if it had expired. */
  lemma TimeoutsExact(s: State, now: nat, later: nat) returns (after: seq<Entry>)
    requires Shaped(s.window)
    ensures Retried(s.inflight, after, now, later)
    ensures var (t, dropped) := CheckTimeouts(s, now, later);
            var n, out := |s.inflight|, Out(s.inflight, now);
            && multiset(t.inflight) == multiset(Picked(after, out, n, false))
            && dropped == ReverseOf(Picked(s.inflight, out, n, true))
  {
    hide RetryAll, DropAll, ToRetry, TimedOut, Picked, At, ReverseOf, Out, RemoveAll;
    var n := |s.inflight|;
    var r := RetryAll(s, ToRetry(s.inflight, now, n), later);
    after := r.inflight;
    RetriesEach(s, ToRetry(s.inflight, now, n), later);
    DueForRetry(s.inflight, now, n);
    assert Retried(s.inflight, after, now, later);
    KeptAndDropped(s.inflight, r, now, later);
  }

  lemma KeptAndDropped(before: seq<Entry>, r: State, now: nat, later: nat)
    requires Shaped(r.window) && Retried(before, r.inflight, now, later)
    ensures var n, out := |before|, Out(before, now);
            var (t, dropped) := DropAll(r, TimedOut(before, now, n));
            && multiset(t.inflight) == multiset(Picked(r.inflight, out, n, false))
            && dropped == ReverseOf(Picked(before, out, n, true))
  {
    var n, out := |before|, Out(before, now);
    var ixs := TimedOut(before, now, n);
    SamePicked(before, r.inflight, now, later, n);
    hide DropAll, TimedOut, Picked, At, ReverseOf, Out, RemoveAll, Retried;
    DropsThose(r, ixs);
    RemovesExactly(r.inflight, ixs);
    AtTimedOut(before, r.inflight, now, n);
    PickedAll(r.inflight, out, n);
    assert r.inflight[..n] == r.inflight;
    Cancel(multiset(RemoveAll(r.inflight, ixs)), multiset(Picked(r.inflight, out, n, false)),
           multiset(At(r.inflight, ixs)));
  }

  lemma Cancel<T>(a: multiset<T>, b: multiset<T>, c: multiset<T>)
    requires a + c == c + b
    ensures a == b
  {
    assert a == (a + c) - c && b == (c + b) - c;
  }

  /** The dropped entries were not resent. */
  lemma {:induction false} SamePicked(before: seq<Entry>, after: seq<Entry>, now: nat, later: nat, n: nat)
    requires Retried(before, after, now, later) && n <= |before|
    ensures Picked(after, Out(before, now), n, true) == Picked(before, Out(before, now), n, true)
  {
    if n > 0 {
      SamePicked(before, after, now, later, n - 1);
    }
  }
}
