/** The congestion window and the IO layer, updated in place; every method takes the step that
    `IoSpec` gives for it. */
module Io {
  import opened Options
  import opened IoSpec

  class CongestionWindow {
    const maxWindow: nat
    var at: nat
    var total: int
    const window: array<int>
    ghost var retried: seq<nat>

    ghost predicate Valid()
      reads this
    {
      at < 4 && window.Length == 4 && |retried| == 4
    }

    ghost function Model(): (w: Window)
      requires Valid()
      reads this, window
      ensures Shaped(w)
    {
      Window(at, total, window[..], retried)
    }

    constructor (maxWindow: nat)
      ensures Valid() && fresh(window) && this.maxWindow == maxWindow && Model() == EMPTY_WINDOW
    {
      this.maxWindow := maxWindow;
      at, total, retried := 0, 0, [0, 0, 0, 0];
      window := new int[4](_ => 0);
      new;
      assert window[..] == [0, 0, 0, 0];
    }

    method Full() returns (full: bool)
      requires Valid()
      ensures full <==> IsFull(Model(), maxWindow)
    {
      full := total >= 2 * maxWindow || window[at] >= maxWindow;
    }

    method Recv()
      requires Valid()
      modifies this`total, window
      ensures Valid() && Model() == Received(old(Model()))
    {
      if window[at] > 0 {
        window[at] := window[at] - 1;
        total := total - 1;
      }
    }

    method Send(ghost retry: bool)
      requires Valid()
      modifies this`total, this`retried, window
      ensures Valid() && Model() == Sent(old(Model()), retry)
    {
      total := total + 1;
      window[at] := window[at] + 1;
      retried := if retry then retried[at := retried[at] + 1] else retried;
    }

    method Drain()
      requires Valid()
      modifies this, window
      ensures Valid() && Model() == Drained(old(Model()))
    {
      at := (at + 1) % 4;
      total := total - window[at];
      window[at] := 0;
      retried := retried[at := 0];
    }
  }

  class IoLayer {
    var inflight: seq<Entry>
    const congestion: CongestionWindow
    var pending: seq<nat>
    var tid: nat
    var stats: Stats

    ghost predicate Valid()
      reads this, congestion
    {
      congestion.Valid()
    }

    ghost function Model(): (s: State)
      requires Valid()
      reads this, congestion, congestion.window
      ensures Shaped(s.window)
    {
      State(inflight, congestion.Model(), pending, tid, stats)
    }

    constructor (maxWindow: nat, random: nat)
      ensures Valid() && fresh(congestion) && fresh(congestion.window)
      ensures congestion.maxWindow == maxWindow && Model() == Initial(random)
    {
      inflight, pending, tid, stats := [], [], random % TIDS, Stats(0, 0, 0, 0, 0);
      congestion := new CongestionWindow(maxWindow);
    }

    method SendInflightAt(i: nat, now: nat, ghost retry: bool)
      requires Valid() && i < |inflight|
      modifies this`inflight, congestion`total, congestion`retried, congestion.window
      ensures Valid() && Model() == SendAt(old(Model()), i, now, retry)
    {
      hide Sent;
      var e := inflight[i];
      var late := if e.sent > e.retries then e.late + 1 else e.late;
      inflight := inflight[i := e.(sent := e.sent + 1, deadline := now + e.timeout, late := late)];
      congestion.Send(retry);
    }

    method CreateRequest(ask: Ask, retries: nat, timeout: nat, now: nat, valid: bool, encodes: bool)
      returns (r: Option<nat>)
      requires Valid()
      modifies this, congestion, congestion.window
      ensures Valid() && Model() == Create(congestion.maxWindow, old(Model()), ask, retries, timeout, now, valid,
                                           encodes)
      ensures r == if valid && encodes then Some(old(tid)) else None
    {
      hide IsFull, Sent;
      r := None;
      if valid {
        var id := tid;
        tid := (tid + 1) % TIDS;
        if encodes {
          stats := stats.(active := stats.active + 1, total := stats.total + 1);
          var full := congestion.Full();
          inflight := inflight + [Entry(id, ask, 0, retries, now + timeout, timeout, full, 0)];
          if full {
            pending := pending + [id];
          } else {
            SendInflightAt(|inflight| - 1, now, false);
          }
          r := Some(id);
        }
      }
    }

    method SendRequestVia(ask: Ask, timeout: nat, now: nat, valid: bool, sends: bool) returns (r: Option<nat>)
      requires Valid()
      modifies this
      ensures Valid() && Model() == CreateVia(old(Model()), ask, timeout, now, valid, sends)
      ensures r == if valid && sends then Some(old(tid)) else None
    {
      r := None;
      if valid {
        var id := tid;
        tid := (tid + 1) % TIDS;
        if sends {
          stats := stats.(active := stats.active + 1, total := stats.total + 1);
          inflight := inflight + [Entry(id, ask, 1, 0, now + timeout, timeout, false, 0)];
          r := Some(id);
        }
      }
    }

    /** The index of the first request with this id. */
    method FindInflight(id: nat) returns (r: Option<nat>)
      ensures r == Position(inflight, id)
    {
      r := None;
      var i := 0;
      while i < |inflight|
        invariant 0 <= i <= |inflight| && r == None
        invariant forall j :: 0 <= j < i ==> inflight[j].tid != id
        invariant Position(inflight, id) == PositionFrom(inflight, id, i)
      {
        if inflight[i].tid == id {
          return Some(i);
        }
        i := i + 1;
      }
    }

    /** Match a response; gives the request it answers. */
    method OnResponse(id: nat) returns (r: Option<Entry>)
      requires Valid()
      modifies this, congestion`total, congestion.window
      ensures Valid() && Model() == Respond(old(Model()), id)
      ensures r.Some? <==> exists i :: 0 <= i < |old(inflight)| && old(inflight)[i].tid == id
      ensures r.Some? ==> r.value.tid == id && r.value in old(inflight)
    {
      hide Received, PositionFrom;
      var pos := FindInflight(id);
      match pos
      case None => r := None;
      case Some(i) =>
        r := Some(inflight[i]);
        inflight := inflight[i := inflight[|inflight| - 1]][..|inflight| - 1];
        congestion.Recv();
        stats := stats.(active := Lowered(stats.active), responses := stats.responses + 1);
    }

    method CheckForTimeouts(now: nat, later: nat) returns (events: seq<Entry>)
      requires Valid()
      modifies this, congestion`total, congestion`retried, congestion.window
      ensures Valid() && (Model(), events) == CheckTimeouts(old(Model()), now, later)
    {
      hide RetryAll, DropAll, ToRetry, TimedOut;
      var timeouts, retries := Sort(now);
      RetryEach(retries, later);
      events := DropEach(timeouts);
    }

    /** The expired requests, split by whether they have retries left. */
    method Sort(now: nat) returns (timeouts: seq<nat>, retries: seq<nat>)
      ensures timeouts == TimedOut(inflight, now, |inflight|)
      ensures retries == ToRetry(inflight, now, |inflight|)
    {
      timeouts, retries := [], [];
      for i := 0 to |inflight|
        invariant timeouts == TimedOut(inflight, now, i)
        invariant retries == ToRetry(inflight, now, i)
      {
        if inflight[i].deadline <= now {
          if inflight[i].sent > inflight[i].retries {
            timeouts := timeouts + [i];
          } else {
            retries := retries + [i];
          }
        }
      }
    }

    method RetryEach(ixs: seq<nat>, later: nat)
      requires Valid() && forall k :: 0 <= k < |ixs| ==> ixs[k] < |inflight|
      modifies this`inflight, this`stats, congestion`total, congestion`retried, congestion.window
      ensures Valid() && Model() == RetryAll(old(Model()), ixs, later)
    {
      hide Sent;
      assert ixs[..0] == [];
      for k := 0 to |ixs|
        invariant Valid() && |inflight| == |old(inflight)|
        invariant Model() == RetryAll(old(Model()), ixs[..k], later)
      {
        assert ixs[..k + 1][..k] == ixs[..k];
        stats := stats.(retries := stats.retries + 1);
        SendInflightAt(ixs[k], later, true);
      }
      assert ixs[..|ixs|] == ixs;
    }

    /** From the highest position to the lowest, so that the others stay where they are. */
    method DropEach(ixs: seq<nat>) returns (events: seq<Entry>)
      requires Valid() && Ascending(ixs, |inflight|)
      modifies this`inflight, this`stats, congestion`total, congestion.window
      ensures Valid() && (Model(), events) == DropAll(old(Model()), ixs)
    {
      hide DropAll, DropAt;
      events := [];
      var k := |ixs|;
      assert ixs[..k] == ixs;
      while k > 0
        invariant 0 <= k <= |ixs| && Valid() && Ascending(ixs[..k], |inflight|)
        invariant DropAll(old(Model()), ixs).0 == DropAll(Model(), ixs[..k]).0
        invariant DropAll(old(Model()), ixs).1 == events + DropAll(Model(), ixs[..k]).1
      {
        DropsLast(Model(), ixs[..k]);
        assert ixs[..k][..k - 1] == ixs[..k - 1];
        k := k - 1;
        var e := DropOne(ixs[k]);
        events := events + [e];
      }
      assert ixs[..0] == [];
      DropsNone(Model());
      assert events + [] == events;
    }

    method DropOne(i: nat) returns (e: Entry)
      requires Valid() && i < |inflight|
      modifies this`inflight, this`stats, congestion`total, congestion.window
      ensures Valid() && Model() == DropAt(old(Model()), i) && e == old(inflight)[i]
    {
      hide Received;
      e := inflight[i];
      inflight := inflight[i := inflight[|inflight| - 1]][..|inflight| - 1];
      congestion.Recv();
      stats := stats.(active := Lowered(stats.active), timeouts := stats.timeouts + 1);
    }

    /** Start a new quarter and send what waits, while there is room. */
    method DrainWindow(now: nat)
      requires Valid()
      modifies this, congestion, congestion.window
      ensures Valid() && Model() == Drain(congestion.maxWindow, old(Model()), now)
    {
      hide IsFull, Sent, Drained, PositionFrom;
      congestion.Drain();
      ghost var start := Model();
      var full := congestion.Full();
      while !full && pending != []
        invariant Valid()
        invariant full <==> IsFull(Model().window, congestion.maxWindow)
        invariant Flush(congestion.maxWindow, Model(), now) == Flush(congestion.maxWindow, start, now)
        decreases |pending|
      {
        var id := pending[0];
        pending := pending[1..];
        var pos := FindInflight(id);
        if pos.Some? {
          SendInflightAt(pos.value, now, false);
        }
        full := congestion.Full();
      }
    }
  }

  lemma DropsLast(s: State, ixs: seq<nat>)
    requires Shaped(s.window) && Ascending(ixs, |s.inflight|) && ixs != []
    ensures var i, rest := ixs[|ixs| - 1], ixs[..|ixs| - 1];
            var t := DropAt(s, i);
            && |t.inflight| == |s.inflight| - 1 && Ascending(rest, |t.inflight|)
            && DropAll(s, ixs).0 == DropAll(t, rest).0
            && DropAll(s, ixs).1 == [s.inflight[i]] + DropAll(t, rest).1
  {
  }

  lemma DropsNone(s: State)
    requires Shaped(s.window)
    ensures DropAll(s, []) == (s, [])
  {
  }
}
