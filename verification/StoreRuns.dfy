/** What the record stores keep over whole runs. */
module StoreRuns {
  import opened Options
  import opened Codec
  import opened StoreSpec

  // ---------------------------------------------------------------- invariants

  /** The bytes are a record signed by a key that hashes to the target. */
  ghost predicate SignedBy(c: Crypto, target: Bytes, b: Bytes, key: Bytes) {
    && DecodeRecord(b).Got?
    && var r := DecodeRecord(b).value;
       c.hash(key) == target && c.verify(r.signature, c.signable(r.seqNumber, r.value), key)
  }

  ghost predicate Authentic(c: Crypto, target: Bytes, b: Bytes) {
    exists key :: SignedBy(c, target, b, key)
  }

  ghost predicate MutablesOk(c: Crypto, l: Limits, m: Cache) {
    |m| <= l.Room() && forall k :: k in m ==> Authentic(c, k, m[k].value)
  }

  ghost predicate ImmutablesOk(c: Crypto, l: Limits, m: Cache) {
    |m| <= l.Room() && forall k :: k in m ==> c.hash(m[k].value) == k
  }

  lemma SetSize(l: Limits, m: Cache, key: Bytes, value: Bytes, now: nat, victim: Bytes)
    requires |m| <= l.Room() && CanSet(l, m, victim)
    ensures |Set(l, m, key, value, now, victim)| <= l.Room()
  {
    if m == map[] {
      assert Set(l, m, key, value, now, victim).Keys == {key};
    } else if |m| >= l.maxSize {
      assert (m - {victim}).Keys == m.Keys - {victim};
      assert Set(l, m, key, value, now, victim).Keys == m.Keys - {victim} + {key};
    } else {
      assert Set(l, m, key, value, now, victim).Keys == m.Keys + {key};
    }
  }

  lemma AcceptedAuthentic(c: Crypto, req: Request)
    ensures var p := Accepted(c, req);
            p.Some? ==>
              req.target.Some? && p.value.record.Ok() && Authentic(c, req.target.value, EncodeRecord(p.value.record))
  {
    AcceptedReads(c, req);
    var p := Accepted(c, req);
    if p.Some? {
      assert SignedBy(c, req.target.value, EncodeRecord(p.value.record), p.value.publicKey);
    }
  }

  lemma MutablePutOk(c: Crypto, l: Limits, m: Cache, req: Request, now: nat, victim: Bytes)
    requires MutablesOk(c, l, m) && CanSet(l, m, victim)
    ensures MutablesOk(c, l, MutablePut(c, l, m, req, now, victim).0)
  {
    hide Authentic, EncodeRecord, Accepted, LiveSeq;
    AcceptedAuthentic(c, req);
    if Accepted(c, req).Some? {
      SetSize(l, m, req.target.value, EncodeRecord(Accepted(c, req).value.record), now, victim);
    }
  }

  lemma ImmutablePutOk(c: Crypto, l: Limits, m: Cache, req: Request, now: nat, victim: Bytes)
    requires ImmutablesOk(c, l, m) && CanSet(l, m, victim)
    ensures ImmutablesOk(c, l, ImmutablePut(c, l, m, req, now, victim).0)
  {
    if req.target.Some? && req.value.Some? {
      SetSize(l, m, req.target.value, req.value.value, now, victim);
    }
  }

  // ---------------------------------------------------------------- runs

  datatype Stores = Stores(mutables: Cache, immutables: Cache)

  const EMPTY := Stores(map[], map[])

  datatype Event =
    | PutMutable(req: Request, now: nat, victim: Bytes)
    | PutImmutable(req: Request, now: nat, victim: Bytes)

  ghost predicate Enabled(l: Limits, s: Stores, e: Event) {
    match e
    case PutMutable(_, _, v) => CanSet(l, s.mutables, v)
    case PutImmutable(_, _, v) => CanSet(l, s.immutables, v)
  }

  ghost function Step(c: Crypto, l: Limits, s: Stores, e: Event): Stores {
    match e
    case PutMutable(req, now, v) => s.(mutables := MutablePut(c, l, s.mutables, req, now, v).0)
    case PutImmutable(req, now, v) => s.(immutables := ImmutablePut(c, l, s.immutables, req, now, v).0)
  }

  ghost predicate ValidRun(c: Crypto, l: Limits, s: Stores, es: seq<Event>)
    decreases |es|
  {
    es != [] ==> Enabled(l, s, es[0]) && ValidRun(c, l, Step(c, l, s, es[0]), es[1..])
  }

  ghost function Run(c: Crypto, l: Limits, s: Stores, es: seq<Event>): Stores
    decreases |es|
  {
    if es == [] then s else Run(c, l, Step(c, l, s, es[0]), es[1..])
  }

  ghost predicate Inv(c: Crypto, l: Limits, s: Stores) {
    MutablesOk(c, l, s.mutables) && ImmutablesOk(c, l, s.immutables)
  }

  lemma StepInv(c: Crypto, l: Limits, s: Stores, e: Event)
    requires Inv(c, l, s) && Enabled(l, s, e)
    ensures Inv(c, l, Step(c, l, s, e))
  {
    hide MutablesOk, ImmutablesOk, MutablePut, ImmutablePut, CanSet;
    match e
    case PutMutable(req, now, v) => MutablePutOk(c, l, s.mutables, req, now, v);
    case PutImmutable(req, now, v) => ImmutablePutOk(c, l, s.immutables, req, now, v);
  }

  lemma {:induction false} RunInv(c: Crypto, l: Limits, s: Stores, es: seq<Event>)
    requires Inv(c, l, s) && ValidRun(c, l, s, es)
    ensures Inv(c, l, Run(c, l, s, es))
    decreases |es|
  {
    hide Inv, Step, Enabled;
    if es != [] {
      StepInv(c, l, s, es[0]);
      RunInv(c, l, Step(c, l, s, es[0]), es[1..]);
    }
  }

  /** In every run: the stores stay within their size; whatever a mutable get returns is a
      record signed by a key hashing to the target, at least as recent as was asked for; and
      whatever an immutable get returns hashes to the target. */
  lemma GetsAuthentic(c: Crypto, l: Limits, es: seq<Event>, req: Request, now: nat)
    requires ValidRun(c, l, EMPTY, es)
    ensures var s := Run(c, l, EMPTY, es);
            && |s.mutables| <= l.Room() && |s.immutables| <= l.Room()
            && (var r := MutableGet(l, s.mutables, req, now);
                r.Value? && r.value.Some? ==>
                  && req.target.Some? && req.value.Some? && Authentic(c, req.target.value, r.value.value)
                  && DecodeRecord(r.value.value).Got?
                  && DecodeRecord(r.value.value).value.seqNumber >= RequestedSeq(req.value.value))
            && (var r := ImmutableGet(l, s.immutables, req, now);
                r.Value? && r.value.Some? ==> req.target.Some? && c.hash(r.value.value) == req.target.value)
  {
    hide Run, ValidRun, Authentic, DecodeRecord, RequestedSeq;
    RunInv(c, l, EMPTY, es);
  }

  // ---------------------------------------------------------------- limits

  ghost predicate MutablesWithin(c: Crypto, l: Limits) {
    forall es :: ValidRun(c, l, EMPTY, es) ==> |Run(c, l, EMPTY, es).mutables| <= l.maxSize
  }

  ghost predicate ImmutablesWithin(c: Crypto, l: Limits) {
    forall es :: ValidRun(c, l, EMPTY, es) ==> |Run(c, l, EMPTY, es).immutables| <= l.maxSize
  }

  /** A single event. */
  lemma OneStep(c: Crypto, l: Limits, e: Event)
    requires e.PutMutable? || e.PutImmutable?
    ensures ValidRun(c, l, EMPTY, [e]) && Run(c, l, EMPTY, [e]) == Step(c, l, EMPTY, e)
  {
    assert [e][1..] == [];
    assert Enabled(l, EMPTY, e);
    assert ValidRun(c, l, Step(c, l, EMPTY, e), []);
  }

  /** Every run keeps a store within its size exactly when that is not zero, since what was put
      last stays; or, for signed records, when no put is ever accepted. */
  lemma SizesKeptIff(c: Crypto, l: Limits)
    ensures ImmutablesWithin(c, l) <==> l.maxSize >= 1
    ensures MutablesWithin(c, l) <==> l.maxSize >= 1 || forall req :: Accepted(c, req).None?
  {
    hide Run, ValidRun, Accepted;
    var e := PutImmutable(Request(Some(c.hash([])), Some([]), Some([])), 0, []);
    OneStep(c, l, e);
    assert Step(c, l, EMPTY, e).immutables == map[c.hash([]) := Cached([], 0)];
    forall req: Request | Accepted(c, req).Some?
      ensures l.maxSize == 0 ==> !MutablesWithin(c, l)
    {
      FirstPut(c, l, req);
    }
    forall es | ValidRun(c, l, EMPTY, es)
      ensures |Run(c, l, EMPTY, es).mutables| <= l.Room() && |Run(c, l, EMPTY, es).immutables| <= l.Room()
    {
      GetsAuthentic(c, l, es, Request(None, None, None), 0);
    }
    if forall req :: Accepted(c, req).None? {
      forall es | ValidRun(c, l, EMPTY, es)
        ensures Run(c, l, EMPTY, es).mutables == map[]
      {
        NothingPut(c, l, EMPTY, es);
      }
    }
  }

  lemma FirstPut(c: Crypto, l: Limits, req: Request)
    requires Accepted(c, req).Some?
    ensures l.maxSize == 0 ==> !MutablesWithin(c, l)
  {
    var e := PutMutable(req, 0, []);
    OneStep(c, l, e);
    AcceptedReads(c, req);
    hide Run, ValidRun, Accepted, EncodeRecord;
    assert Step(c, l, EMPTY, e).mutables ==
           map[req.target.value := Cached(EncodeRecord(Accepted(c, req).value.record), 0)];
    assert |Run(c, l, EMPTY, [e]).mutables| == 1;
  }

  lemma {:induction false} NothingPut(c: Crypto, l: Limits, s: Stores, es: seq<Event>)
    requires s.mutables == map[] && forall req :: Accepted(c, req).None?
    ensures Run(c, l, s, es).mutables == map[]
    decreases |es|
  {
    hide Accepted;
    if es != [] {
      NothingPut(c, l, Step(c, l, s, es[0]), es[1..]);
    }
  }

  // ---------------------------------------------------------------- sequence numbers

  /** A put changes the record of a target only if there was no live one, or to a strictly
      larger sequence number, or by dropping it as the oldest of a full store. */
  lemma PutReplaces(c: Crypto, l: Limits, m: Cache, req: Request, now: nat, victim: Bytes, target: Bytes)
    ensures var m' := MutablePut(c, l, m, req, now, victim).0;
            LiveSeq(l, m, target, now).Some? && target in m' && m'[target] != m[target] ==>
              DecodeRecord(m'[target].value).Got? &&
                DecodeRecord(m'[target].value).value.seqNumber > LiveSeq(l, m, target, now).value
  {
    hide Accepted, EncodeRecord, DecodeRecord, MutablesOk, CanSet, LiveSeq;
    AcceptedReads(c, req);
    HasLive(l, m, target, now);
  }

  lemma HasLive(l: Limits, m: Cache, target: Bytes, now: nat)
    ensures LiveSeq(l, m, target, now).Some? ==> target in m
  {
  }

  lemma AcceptedReads(c: Crypto, req: Request)
    ensures var p := Accepted(c, req);
            p.Some? ==>
              && req.target.Some? && p.value.record.Ok()
              && DecodeRecord(EncodeRecord(p.value.record)) == Got(p.value.record, [])
  {
    var p := Accepted(c, req);
    if p.Some? {
      RecordRoundTrip(p.value.record, []);
      assert EncodeRecord(p.value.record) + [] == EncodeRecord(p.value.record);
    }
  }

  ghost function SeqOf(m: Cache, target: Bytes): nat {
    if target in m && DecodeRecord(m[target].value).Got? then DecodeRecord(m[target].value).value.seqNumber else 0
  }

  /** Before every step of the run the target's record is live, and it is there at the end. */
  ghost predicate StaysLive(c: Crypto, l: Limits, s: Stores, es: seq<Event>, target: Bytes)
    decreases |es|
  {
    && target in s.mutables
    && (es != [] ==>
          && LiveSeq(l, s.mutables, target, es[0].now).Some?
          && StaysLive(c, l, Step(c, l, s, es[0]), es[1..], target))
  }

  /** As long as a record stays live, its sequence number never goes down. */
  lemma {:induction false} SeqNeverDrops(c: Crypto, l: Limits, s: Stores, es: seq<Event>, target: Bytes)
    requires Inv(c, l, s) && ValidRun(c, l, s, es) && StaysLive(c, l, s, es, target)
    ensures SeqOf(Run(c, l, s, es).mutables, target) >= SeqOf(s.mutables, target)
    decreases |es|
  {
    if es != [] {
      StepInv(c, l, s, es[0]);
      var s' := Step(c, l, s, es[0]);
      if es[0].PutMutable? {
        PutReplaces(c, l, s.mutables, es[0].req, es[0].now, es[0].victim, target);
      }
      hide Inv, MutablePut, ImmutablePut, DecodeRecord;
      assert target in s'.mutables;
      SeqNeverDrops(c, l, s', es[1..], target);
    }
  }
}
