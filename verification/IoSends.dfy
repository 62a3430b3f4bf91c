/** How often one request is sent: once more than its retries, except when its place in the queue
    comes up after it has been retried as often as that. */
module IoSends {
  import opened Options
  import opened IoSpec
  import opened IoRuns

  // ---------------------------------------------------------------- the number of sends

  /** An entry that may be retried has not been sent too often; one that may not has been sent
      once more than its retries, and once more for each late send. */
  ghost predicate EntryOk(e: Entry) {
    if Exhausted(e) then e.sent == e.retries + 1 + e.late else e.late == 0
  }

  ghost predicate AllOk(es: seq<Entry>) {
    forall i :: 0 <= i < |es| ==> EntryOk(es[i])
  }

  lemma RemoveOk(es: seq<Entry>, i: nat)
    requires AllOk(es) && i < |es|
    ensures AllOk(SwapRemove(es, i))
  {
  }

  lemma {:induction false} RetriesOk(s: State, ixs: seq<nat>, now: nat)
    requires Shaped(s.window) && AllOk(s.inflight) && forall k :: 0 <= k < |ixs| ==> ixs[k] < |s.inflight|
    ensures AllOk(RetryAll(s, ixs, now).inflight)
    decreases |ixs|
  {
    if ixs != [] {
      RetriesOk(s, ixs[..|ixs| - 1], now);
      hide Sent, RetryAll;
    }
  }

  lemma {:induction false} DropsOk(s: State, ixs: seq<nat>)
    requires Shaped(s.window) && AllOk(s.inflight) && Ascending(ixs, |s.inflight|)
    ensures AllOk(DropAll(s, ixs).0.inflight)
    decreases |ixs|
  {
    if ixs != [] {
      var i := ixs[|ixs| - 1];
      RemoveOk(s.inflight, i);
      hide Received, AllOk;
      DropsOk(DropAt(s, i), ixs[..|ixs| - 1]);
    }
  }

  lemma {:induction false} FlushedOk(max: nat, s: State, now: nat)
    requires Shaped(s.window) && AllOk(s.inflight)
    ensures AllOk(Flush(max, s, now).inflight)
    decreases |s.pending|
  {
    if !IsFull(s.window, max) && s.pending != [] {
      hide Sent, IsFull, PositionFrom;
      var s1 := s.(pending := s.pending[1..]);
      match Position(s.inflight, s.pending[0])
      case None => FlushedOk(max, s1, now);
      case Some(i) => FlushedOk(max, SendAt(s1, i, now, false), now);
    }
  }

  lemma StepSends(max: nat, s: State, e: Event)
    requires Shaped(s.window) && AllOk(s.inflight)
    ensures AllOk(Step(max, s, e).inflight)
  {
    hide RetryAll, DropAll, ToRetry, TimedOut, Flush, Drained, Received, PositionFrom, Sent, IsFull;
    match e
    case DoCreate(_, _, _, _, _, _) =>
    case DoCreateVia(_, _, _, _, _) =>
    case DoRespond(tid) =>
      var p := Position(s.inflight, tid);
      if p.Some? {
        RemoveOk(s.inflight, p.value);
      }
    case DoCheckTimeouts(now, later) =>
      var n := |s.inflight|;
      RetriesOk(s, ToRetry(s.inflight, now, n), later);
      DropsOk(RetryAll(s, ToRetry(s.inflight, now, n), later), TimedOut(s.inflight, now, n));
    case DoDrain(now) => FlushedOk(max, s.(window := Drained(s.window)), now);
  }

  lemma {:induction false} RunSends(max: nat, s: State, es: seq<Event>)
    requires Shaped(s.window) && AllOk(s.inflight)
    ensures AllOk(Run(max, s, es).inflight)
    decreases |es|
  {
    hide AllOk, Step;
    if es != [] {
      StepSends(max, s, es[0]);
      RunSends(max, Step(max, s, es[0]), es[1..]);
    }
  }

  /** In every run a request in flight has been sent at most once more than its retries, unless
      it was sent late, and then exactly that often and once more for each late send. */
  lemma SendsExact(max: nat, tid: nat, es: seq<Event>, i: nat)
    ensures var s := Run(max, Initial(tid), es);
            i < |s.inflight| ==>
              var e := s.inflight[i];
              && e.sent <= e.retries + 1 + e.late
              && (e.late > 0 ==> e.sent == e.retries + 1 + e.late)
              && (e.sent > e.retries + 1 <==> e.late > 0)
  {
    hide Run;
    RunSends(max, Initial(tid), es);
  }

  lemma {:induction false} PickedFlags<T>(es: seq<T>, flags: seq<bool>, n: nat)
    requires n <= |es| == |flags|
    ensures forall x :: x in Picked(es, flags, n, true) ==> exists i :: 0 <= i < |es| && flags[i] && es[i] == x
  {
    if n > 0 {
      PickedFlags(es, flags, n - 1);
    }
  }

  lemma {:induction false} ReverseMembers<T>(es: seq<T>, x: T)
    ensures x in ReverseOf(es) <==> x in es
  {
    if es != [] {
      ReverseMembers(es[..|es| - 1], x);
      assert es == es[..|es| - 1] + [es[|es| - 1]];
    }
  }

  /** In every run a request that times out has been sent exactly once more than its retries, and
      once more for each late send. */
  lemma TimedOutSends(max: nat, tid: nat, es: seq<Event>, now: nat, later: nat, e: Entry)
    ensures var s := Run(max, Initial(tid), es);
            e in CheckTimeouts(s, now, later).1 ==> e.sent == e.retries + 1 + e.late
  {
    hide Run, CheckTimeouts;
    var s := Run(max, Initial(tid), es);
    RunSends(max, Initial(tid), es);
    var _ := TimeoutsExact(s, now, later);
    var n, out := |s.inflight|, Out(s.inflight, now);
    if e in CheckTimeouts(s, now, later).1 {
      ReverseMembers(Picked(s.inflight, out, n, true), e);
      PickedFlags(s.inflight, out, n);
    }
  }

  // ---------------------------------------------------------------- where late sends come from

  /** The entry was not sent late, or it was already and as often. */
  ghost predicate From(before: seq<Entry>, e: Entry) {
    e.late == 0 || exists i :: 0 <= i < |before| && before[i].tid == e.tid && before[i].late == e.late
  }

  ghost predicate AllFrom(before: seq<Entry>, es: seq<Entry>) {
    forall i :: 0 <= i < |es| ==> From(before, es[i])
  }

  lemma {:induction false} DropsFrom(before: seq<Entry>, s: State, ixs: seq<nat>)
    requires Shaped(s.window) && AllFrom(before, s.inflight) && Ascending(ixs, |s.inflight|)
    ensures AllFrom(before, DropAll(s, ixs).0.inflight)
    decreases |ixs|
  {
    if ixs != [] {
      var i := ixs[|ixs| - 1];
      assert AllFrom(before, SwapRemove(s.inflight, i));
      hide Received, AllFrom;
      DropsFrom(before, DropAt(s, i), ixs[..|ixs| - 1]);
    }
  }

  lemma RetriedFrom(s: State, now: nat, later: nat)
    requires Shaped(s.window)
    ensures AllFrom(s.inflight, RetryAll(s, ToRetry(s.inflight, now, |s.inflight|), later).inflight)
  {
    var n := |s.inflight|;
    RetriesEach(s, ToRetry(s.inflight, now, n), later);
    DueForRetry(s.inflight, now, n);
    hide RetryAll, ToRetry;
    var after := RetryAll(s, ToRetry(s.inflight, now, n), later).inflight;
    forall i | 0 <= i < |after|
      ensures From(s.inflight, after[i])
    {
      assert s.inflight[i].tid == after[i].tid && s.inflight[i].late == after[i].late;
    }
  }

  /** No step but a drain sends a request late: a retry is of one that was not sent too often. */
  lemma LateOnlyByDrain(max: nat, s: State, e: Event)
    requires Shaped(s.window) && !e.DoDrain?
    ensures AllFrom(s.inflight, Step(max, s, e).inflight)
  {
    hide RetryAll, DropAll, ToRetry, TimedOut, Received, PositionFrom, Sent, IsFull;
    assert AllFrom(s.inflight, s.inflight);
    match e
    case DoCreate(_, _, _, _, _, _) =>
    case DoCreateVia(_, _, _, _, _) =>
    case DoRespond(tid) =>
    case DoCheckTimeouts(now, later) =>
      var n := |s.inflight|;
      RetriedFrom(s, now, later);
      DropsFrom(s.inflight, RetryAll(s, ToRetry(s.inflight, now, n), later), TimedOut(s.inflight, now, n));
  }

  // ---------------------------------------------------------------- at most one late send

  /** Transaction ids in flight and in the queue are used once; what is still in the queue was
      put there and not sent late; and what was sent late was in the queue, and late once. */
  ghost predicate Unique(es: seq<Entry>, pending: seq<nat>) {
    && (forall i, j :: 0 <= i < j < |es| ==> es[i].tid != es[j].tid)
    && (forall i, j :: 0 <= i < j < |pending| ==> pending[i] != pending[j])
    && (forall i :: 0 <= i < |es| ==> PlaceOk(es[i], pending))
  }

  ghost predicate PlaceOk(e: Entry, pending: seq<nat>) {
    && (e.tid in pending ==> e.queued && e.late == 0)
    && e.late <= 1
    && (e.late == 1 ==> e.queued)
  }

  lemma UniqueRemove(es: seq<Entry>, pending: seq<nat>, i: nat)
    requires Unique(es, pending) && i < |es|
    ensures Unique(SwapRemove(es, i), pending)
  {
    var r := SwapRemove(es, i);
    assert forall k :: 0 <= k < |r| ==> r[k] == es[if k == i then |es| - 1 else k];
  }

  lemma UniqueAppend(es: seq<Entry>, pending: seq<nat>, e: Entry)
    requires Unique(es, pending) && e.late == 0
    requires e.tid !in pending && forall i :: 0 <= i < |es| ==> es[i].tid != e.tid
    ensures Unique(es + [e], pending)
    ensures e.queued ==> Unique(es + [e], pending + [e.tid])
  {
    var fs := es + [e];
    assert forall i :: 0 <= i < |es| ==> PlaceOk(es[i], pending);
    assert forall i :: 0 <= i < |fs| ==> PlaceOk(fs[i], pending);
    if e.queued {
      assert forall i :: 0 <= i < |fs| ==> PlaceOk(fs[i], pending + [e.tid]);
    }
  }

  lemma UniqueResend(es: seq<Entry>, pending: seq<nat>, i: nat, now: nat)
    requires Unique(es, pending) && i < |es| && !Exhausted(es[i])
    ensures Unique(es[i := Resent(es[i], now)], pending)
  {
    assert PlaceOk(es[i], pending);
  }

  /** The first place of the queue comes up. */
  lemma UniquePop(es: seq<Entry>, pending: seq<nat>, now: nat)
    requires Unique(es, pending) && pending != []
    ensures Unique(es, pending[1..])
    ensures forall i :: 0 <= i < |es| && es[i].tid == pending[0] ==> Unique(es[i := Resent(es[i], now)], pending[1..])
  {
    var rest := pending[1..];
    forall i | 0 <= i < |es|
      ensures PlaceOk(es[i], rest)
    {
      assert PlaceOk(es[i], pending);
    }
    forall i | 0 <= i < |es| && es[i].tid == pending[0]
      ensures Unique(es[i := Resent(es[i], now)], rest)
    {
      assert pending[0] in pending && pending[0] !in rest;
      assert PlaceOk(es[i], pending);
    }
  }

  lemma {:induction false} RetriesUnique(s: State, ixs: seq<nat>, now: nat)
    requires Shaped(s.window) && Unique(s.inflight, s.pending) && Ascending(ixs, |s.inflight|)
    requires forall k :: 0 <= k < |ixs| ==> !Exhausted(s.inflight[ixs[k]])
    ensures Unique(RetryAll(s, ixs, now).inflight, s.pending) && RetryAll(s, ixs, now).pending == s.pending
    decreases |ixs|
  {
    if ixs != [] {
      var rest, last := ixs[..|ixs| - 1], ixs[|ixs| - 1];
      RetriesUnique(s, rest, now);
      RetriesEach(s, rest, now);
      hide Unique, Sent, RetryAll;
      var t := RetryAll(s, rest, now);
      assert last !in rest;
      UniqueResend(t.inflight, s.pending, last, now);
    }
  }

  lemma {:induction false} DropsUnique(s: State, ixs: seq<nat>)
    requires Shaped(s.window) && Unique(s.inflight, s.pending) && Ascending(ixs, |s.inflight|)
    ensures Unique(DropAll(s, ixs).0.inflight, s.pending) && DropAll(s, ixs).0.pending == s.pending
    decreases |ixs|
  {
    if ixs != [] {
      var i := ixs[|ixs| - 1];
      UniqueRemove(s.inflight, s.pending, i);
      hide Received, Unique;
      DropsUnique(DropAt(s, i), ixs[..|ixs| - 1]);
    }
  }

  lemma {:induction false} FlushedUnique(max: nat, s: State, now: nat)
    requires Shaped(s.window) && Unique(s.inflight, s.pending)
    ensures Unique(Flush(max, s, now).inflight, Flush(max, s, now).pending)
    decreases |s.pending|
  {
    if !IsFull(s.window, max) && s.pending != [] {
      UniquePop(s.inflight, s.pending, now);
      hide Sent, IsFull, PositionFrom, Unique;
      var s1 := s.(pending := s.pending[1..]);
      match Position(s.inflight, s.pending[0])
      case None => FlushedUnique(max, s1, now);
      case Some(i) => FlushedUnique(max, SendAt(s1, i, now, false), now);
    }
  }

  /** A new request does not get an id that is still in flight or in the queue. */
  ghost predicate FreshId(s: State, e: Event) {
    e.DoCreate? || e.DoCreateVia? ==>
      s.tid !in s.pending && forall i :: 0 <= i < |s.inflight| ==> s.inflight[i].tid != s.tid
  }

  lemma StepUnique(max: nat, s: State, e: Event)
    requires Shaped(s.window) && Unique(s.inflight, s.pending) && FreshId(s, e)
    ensures var t := Step(max, s, e); Unique(t.inflight, t.pending)
  {
    match e
    case DoCreate(ask, retries, timeout, now, valid, encodes) => CreateUnique(max, s, e);
    case DoCreateVia(ask, timeout, now, valid, sends) =>
      UniqueAppend(s.inflight, s.pending, Entry(s.tid, ask, 1, 0, now + timeout, timeout, false, 0));
    case DoRespond(tid) =>
      var p := Position(s.inflight, tid);
      if p.Some? {
        UniqueRemove(s.inflight, s.pending, p.value);
      }
    case DoCheckTimeouts(now, later) =>
      hide RetryAll, DropAll, ToRetry, TimedOut, Unique;
      var ixs := ToRetry(s.inflight, now, |s.inflight|);
      DueForRetry(s.inflight, now, |s.inflight|);
      assert forall k :: 0 <= k < |ixs| ==> ixs[k] in ixs;
      RetriesUnique(s, ixs, later);
      DropsUnique(RetryAll(s, ixs, later), TimedOut(s.inflight, now, |s.inflight|));
    case DoDrain(now) =>
      hide Flush, Unique, Drained;
      FlushedUnique(max, s.(window := Drained(s.window)), now);
  }

  lemma CreateUnique(max: nat, s: State, e: Event)
    requires e.DoCreate? && Shaped(s.window) && Unique(s.inflight, s.pending) && FreshId(s, e)
    ensures var t := Step(max, s, e); Unique(t.inflight, t.pending)
  {
    hide IsFull, Sent, Unique;
    var entry := Entry(s.tid, e.ask, 0, e.retries, e.now + e.timeout, e.timeout, IsFull(s.window, max), 0);
    UniqueAppend(s.inflight, s.pending, entry);
    UniqueResend(s.inflight + [entry], s.pending, |s.inflight|, e.now);
  }

  ghost predicate FreshRun(max: nat, s: State, es: seq<Event>)
    requires Shaped(s.window)
    decreases |es|
  {
    es != [] ==> FreshId(s, es[0]) && FreshRun(max, Step(max, s, es[0]), es[1..])
  }

  lemma {:induction false} RunUnique(max: nat, s: State, es: seq<Event>)
    requires Shaped(s.window) && Unique(s.inflight, s.pending) && FreshRun(max, s, es)
    ensures Unique(Run(max, s, es).inflight, Run(max, s, es).pending)
    decreases |es|
  {
    hide Unique, Step, FreshId;
    if es != [] {
      StepUnique(max, s, es[0]);
      RunUnique(max, Step(max, s, es[0]), es[1..]);
    }
  }

  /** As long as no id comes round again while it is in use, a request is sent at most twice more
      than its retries: exactly that often if it had to wait in the queue and its place came up
      when it had been retried once more than its retries already, and less otherwise. */
  lemma AtMostOneLate(max: nat, tid: nat, es: seq<Event>, i: nat)
    requires FreshRun(max, Initial(tid), es)
    ensures var s := Run(max, Initial(tid), es);
            i < |s.inflight| ==>
              var e := s.inflight[i];
              && e.sent <= e.retries + 2 && e.late <= 1
              && (e.sent == e.retries + 2 <==> e.late == 1)
              && (e.late == 1 ==> e.queued)
  {
    hide Run, FreshRun;
    RunUnique(max, Initial(tid), es);
    SendsExact(max, tid, es, i);
    var s := Run(max, Initial(tid), es);
    if i < |s.inflight| {
      assert PlaceOk(s.inflight[i], s.pending);
    }
  }

  // ---------------------------------------------------------------- it happens

  ghost function Asked(ask: Ask): Event {
    DoCreate(ask, 0, 10, 0, true, true)
  }

  /** With a window of one, the second of two requests without retries waits; it is retried when it
      expires, and sent once more when the window has room. */
  lemma SentTwice(ask: Ask)
    ensures var es := [Asked(ask), Asked(ask), DoCheckTimeouts(10, 10), DoDrain(10)];
            var s := Run(1, Initial(0), es);
            s.inflight == [Entry(1, ask, 2, 0, 20, 10, true, 1)]
  {
    TwoAsked(ask);
    OneDropped(ask);
    OneMore(ask);
    hide Step, Both, Left;
    RunFour(1, Initial(0), Asked(ask), Asked(ask), DoCheckTimeouts(10, 10), DoDrain(10));
  }

  /** The first request is sent and the second waits. */
  ghost function Both(ask: Ask): State {
    State([Entry(0, ask, 1, 0, 10, 10, false, 0), Entry(1, ask, 0, 0, 10, 10, true, 0)],
          Window(0, 1, [1, 0, 0, 0], [0, 0, 0, 0]), [1], 2, Stats(2, 2, 0, 0, 0))
  }

  /** The first has timed out and the second was retried. */
  ghost function Left(ask: Ask): State {
    State([Entry(1, ask, 1, 0, 20, 10, true, 0)],
          Window(0, 1, [1, 0, 0, 0], [1, 0, 0, 0]), [1], 2, Stats(1, 2, 0, 1, 1))
  }

  lemma TwoAsked(ask: Ask)
    ensures Step(1, Step(1, Initial(0), Asked(ask)), Asked(ask)) == Both(ask)
  {
    var a := Entry(0, ask, 1, 0, 10, 10, false, 0);
    var s1 := State([a], Window(0, 1, [1, 0, 0, 0], [0, 0, 0, 0]), [], 1, Stats(1, 1, 0, 0, 0));
    assert Step(1, Initial(0), Asked(ask)) == s1;
  }

  lemma OneDropped(ask: Ask)
    ensures Step(1, Both(ask), DoCheckTimeouts(10, 10)) == Left(ask)
  {
    var s := Both(ask);
    Retried1(s, s.inflight[0], s.inflight[1], Entry(1, ask, 1, 0, 20, 10, true, 0));
    hide CheckTimeouts;
  }

  lemma OneMore(ask: Ask)
    ensures Step(1, Left(ask), DoDrain(10)).inflight == [Entry(1, ask, 2, 0, 20, 10, true, 1)]
  {
    var s := Left(ask);
    var w := Window(1, 1, [1, 0, 0, 0], [1, 0, 0, 0]);
    assert Drained(s.window) == w;
    var s1 := s.(window := w, pending := []);
    assert Position(s.inflight, 1) == Some(0);
    assert s.pending[1..] == [];
    var t := SendAt(s1, 0, 10, false);
    assert Flush(1, s.(window := w), 10) == Flush(1, t, 10) == t;
  }

  lemma RunFour(max: nat, s: State, e1: Event, e2: Event, e3: Event, e4: Event)
    requires Shaped(s.window)
    ensures Run(max, s, [e1, e2, e3, e4]) == Step(max, Step(max, Step(max, Step(max, s, e1), e2), e3), e4)
  {
    hide Step;
    assert [e1, e2, e3, e4][1..] == [e2, e3, e4] && [e2, e3, e4][1..] == [e3, e4];
    assert [e3, e4][1..] == [e4] && [e4][1..] == [];
    var s1 := Step(max, s, e1);
    var s2 := Step(max, s1, e2);
    var s3 := Step(max, s2, e3);
    assert Run(max, s3, [e4]) == Step(max, s3, e4);
    assert Run(max, s2, [e3, e4]) == Run(max, s3, [e4]);
    assert Run(max, s1, [e2, e3, e4]) == Run(max, s2, [e3, e4]);
  }

  lemma Retried1(s: State, a: Entry, b: Entry, b1: Entry)
    requires Shaped(s.window) && s.inflight == [a, b]
    requires Expired(a, 10) && Exhausted(a) && Expired(b, 10) && !Exhausted(b) && b1 == Resent(b, 10)
    ensures CheckTimeouts(s, 10, 10).0 == DropAt(RetryAt(s, 1, 10), 0)
    ensures DropAt(RetryAt(s, 1, 10), 0).inflight == [b1]
  {
    Chosen(s.inflight);
    hide ToRetry, TimedOut, Received, Sent, Resent, Expired, Exhausted;
    RetryOne(s);
    var t := RetryAt(s, 1, 10);
    DropOne(t);
    assert t.inflight == [a, b1];
    assert SwapRemove([a, b1], 0) == [b1];
  }

  lemma Chosen(es: seq<Entry>)
    requires |es| == 2 && Expired(es[0], 10) && Exhausted(es[0]) && Expired(es[1], 10) && !Exhausted(es[1])
    ensures ToRetry(es, 10, 2) == [1] && TimedOut(es, 10, 2) == [0]
  {
    assert ToRetry(es, 10, 1) == [] && TimedOut(es, 10, 1) == [0];
  }

  lemma RetryOne(s: State)
    requires Shaped(s.window) && |s.inflight| == 2
    ensures RetryAll(s, [1], 10) == RetryAt(s, 1, 10)
  {
    hide Sent, Resent;
    assert [1][..0] == [];
    assert RetryAll(s, [], 10) == s;
  }

  lemma DropOne(s: State)
    requires Shaped(s.window) && |s.inflight| == 2
    ensures DropAll(s, [0]).0 == DropAt(s, 0)
  {
    hide Received;
    assert [0][..0] == [];
    assert DropAll(DropAt(s, 0), []) == (DropAt(s, 0), []);
  }
}
