/** What the record stores hold and give back, read from the puts of a run. */
module StoreOrigins {
  import opened Options
  import opened Codec
  import opened StoreSpec
  import opened StoreRuns

  /** What an accepted put writes. */
  datatype Write = Write(key: Bytes, value: Bytes)

  ghost function CacheOf(s: Stores, mutable: bool): Cache {
    if mutable then s.mutables else s.immutables
  }

  /** A signed record is written unless a live one has the same or a larger sequence number. */
  ghost function MutableWrite(c: Crypto, l: Limits, m: Cache, req: Request, now: nat): Option<Write> {
    match Accepted(c, req)
    case None => None
    case Some(put) =>
      var live := LiveSeq(l, m, req.target.value, now);
      if live.Some? && live.value >= put.record.seqNumber then None
      else Some(Write(req.target.value, EncodeRecord(put.record)))
  }

  /** A value is written under its hash, for a request that carries a token. */
  ghost function ImmutableWrite(c: Crypto, req: Request): Option<Write> {
    if req.target.Some? && req.token.Some? && req.value.Some? && c.hash(req.value.value) == req.target.value then
      Some(Write(req.target.value, req.value.value))
    else None
  }

  ghost function Written(c: Crypto, l: Limits, s: Stores, e: Event, mutable: bool): Option<Write> {
    match e
    case PutMutable(req, now, _) => if mutable then MutableWrite(c, l, s.mutables, req, now) else None
    case PutImmutable(req, _, _) => if mutable then None else ImmutableWrite(c, req)
  }

  /** The event writes the key anew, or another while the store is full and the key the victim. */
  ghost predicate Touches(c: Crypto, l: Limits, s: Stores, e: Event, mutable: bool, key: Bytes) {
    var w := Written(c, l, s, e, mutable);
    w.Some? && (w.value.key == key || (|CacheOf(s, mutable)| >= l.maxSize && e.victim == key))
  }

  /** The k-th event put this value under the key, and nothing has touched it since. */
  ghost predicate Kept(c: Crypto, l: Limits, es: seq<Event>, mutable: bool, key: Bytes, value: Bytes, k: nat) {
    && k < |es| && Written(c, l, Run(c, l, EMPTY, es[..k]), es[k], mutable) == Some(Write(key, value))
    && forall j :: k < j < |es| ==> !Touches(c, l, Run(c, l, EMPTY, es[..j]), es[j], mutable, key)
  }

  ghost predicate SomeKept(c: Crypto, l: Limits, es: seq<Event>, mutable: bool, key: Bytes, entry: Cached) {
    exists k: nat :: Kept(c, l, es, mutable, key, entry.value, k) && entry.insertedAt == es[k].now
  }

  // ---------------------------------------------------------------- steps

  lemma StepCache(c: Crypto, l: Limits, s: Stores, e: Event, mutable: bool)
    ensures var w := Written(c, l, s, e, mutable);
            CacheOf(Step(c, l, s, e), mutable) ==
            if w.Some? then Set(l, CacheOf(s, mutable), w.value.key, w.value.value, e.now, e.victim)
            else CacheOf(s, mutable)
  {
    hide Accepted, LiveSeq, EncodeRecord, Set;
  }

  lemma {:induction false} RunSnoc(c: Crypto, l: Limits, s: Stores, es: seq<Event>, e: Event)
    ensures Run(c, l, s, es + [e]) == Step(c, l, Run(c, l, s, es), e)
    decreases |es|
  {
    hide Step;
    if es == [] {
      assert es + [e] == [e] && [e][1..] == [];
    } else {
      assert (es + [e])[0] == es[0] && (es + [e])[1..] == es[1..] + [e];
      RunSnoc(c, l, Step(c, l, s, es[0]), es[1..], e);
    }
  }

  lemma KeptOn(c: Crypto, l: Limits, es: seq<Event>, e: Event, mutable: bool, key: Bytes, value: Bytes, k: nat)
    requires k < |es|
    ensures Kept(c, l, es + [e], mutable, key, value, k) <==>
            Kept(c, l, es, mutable, key, value, k) && !Touches(c, l, Run(c, l, EMPTY, es), e, mutable, key)
  {
    hide Run, Written, Touches;
    var es' := es + [e];
    assert es'[|es|] == e && es'[..|es|] == es;
    assert forall j :: 0 <= j < |es| ==> es'[j] == es[j] && es'[..j] == es[..j];
  }

  lemma KeptNew(c: Crypto, l: Limits, es: seq<Event>, e: Event, mutable: bool, key: Bytes, value: Bytes)
    ensures Kept(c, l, es + [e], mutable, key, value, |es|) <==>
            Written(c, l, Run(c, l, EMPTY, es), e, mutable) == Some(Write(key, value))
  {
    hide Run, Written, Touches;
    var es' := es + [e];
    assert es'[|es|] == e && es'[..|es|] == es;
  }

  lemma KeptBounds(c: Crypto, l: Limits, es: seq<Event>, mutable: bool, key: Bytes, value: Bytes, k: nat)
    requires Kept(c, l, es, mutable, key, value, k)
    ensures k < |es|
  {
  }

  // ---------------------------------------------------------------- runs

  /** A store after every run: an entry is the value and time of the last put under its key that
      wrote it, and was not the victim of a full store since. */
  lemma {:induction false} EntryFrom(c: Crypto, l: Limits, es: seq<Event>, mutable: bool, key: Bytes)
    ensures var m := CacheOf(Run(c, l, EMPTY, es), mutable);
            key in m ==> SomeKept(c, l, es, mutable, key, m[key])
    decreases |es|
  {
    if es != [] {
      var n := |es| - 1;
      var e := es[n];
      assert es == es[..n] + [e];
      var s := Run(c, l, EMPTY, es[..n]);
      var m := CacheOf(Run(c, l, EMPTY, es), mutable);
      RunSnoc(c, l, EMPTY, es[..n], e);
      StepCache(c, l, s, e, mutable);
      EntryFrom(c, l, es[..n], mutable, key);
      hide Run, Step, Written, Kept;
      if key in m {
        if Touches(c, l, s, e, mutable, key) {
          KeptNew(c, l, es[..n], e, mutable, key, m[key].value);
          assert Kept(c, l, es, mutable, key, m[key].value, n) && es[n] == e;
        } else {
          var k: nat :| Kept(c, l, es[..n], mutable, key, m[key].value, k) && m[key].insertedAt == es[..n][k].now;
          KeptBounds(c, l, es[..n], mutable, key, m[key].value, k);
          KeptOn(c, l, es[..n], e, mutable, key, m[key].value, k);
          assert es[k] == es[..n][k];
        }
      }
    }
  }

  lemma {:induction false} KeptIsThere(c: Crypto, l: Limits, es: seq<Event>, mutable: bool, key: Bytes, value: Bytes,
                                       k: nat)
    requires Kept(c, l, es, mutable, key, value, k)
    ensures var m := CacheOf(Run(c, l, EMPTY, es), mutable);
            key in m && m[key] == Cached(value, es[k].now)
    decreases |es|
  {
    var n := |es| - 1;
    var e := es[n];
    assert es == es[..n] + [e];
    var s := Run(c, l, EMPTY, es[..n]);
    RunSnoc(c, l, EMPTY, es[..n], e);
    StepCache(c, l, s, e, mutable);
    if k == n {
      hide Run, Step, Touches;
      KeptNew(c, l, es[..n], e, mutable, key, value);
    } else {
      KeptOn(c, l, es[..n], e, mutable, key, value, k);
      KeptIsThere(c, l, es[..n], mutable, key, value, k);
      hide Run, Step, Written, Kept;
      assert es[..n][k] == es[k];
    }
  }

  /** The value was put under the key, is still there, and no older than the store keeps it. */
  ghost predicate LiveValue(c: Crypto, l: Limits, es: seq<Event>, mutable: bool, key: Bytes, value: Bytes, now: nat) {
    exists k: nat :: Kept(c, l, es, mutable, key, value, k) && now < es[k].now + l.maxAge
  }

  lemma GetIs(c: Crypto, l: Limits, es: seq<Event>, mutable: bool, key: Bytes, value: Bytes, now: nat)
    ensures Get(l, CacheOf(Run(c, l, EMPTY, es), mutable), key, now) == Some(value) <==>
            LiveValue(c, l, es, mutable, key, value, now)
  {
    hide Run, CacheOf, Written, Touches;
    var m := CacheOf(Run(c, l, EMPTY, es), mutable);
    EntryFrom(c, l, es, mutable, key);
    if LiveValue(c, l, es, mutable, key, value, now) {
      var k: nat :| Kept(c, l, es, mutable, key, value, k) && now < es[k].now + l.maxAge;
      KeptIsThere(c, l, es, mutable, key, value, k);
    }
  }

  /** In every run an immutable get returns a value exactly if that was put, is still there and has
      not expired; and a mutable get returns a record exactly if, in addition, its sequence number
      is at least the one asked for. */
  lemma GetsExact(c: Crypto, l: Limits, es: seq<Event>, req: Request, value: Bytes, now: nat)
    requires ValidRun(c, l, EMPTY, es) && req.target.Some?
    ensures ImmutableGet(l, Run(c, l, EMPTY, es).immutables, req, now) == Value(Some(value)) <==>
            LiveValue(c, l, es, false, req.target.value, value, now)
    ensures MutableGet(l, Run(c, l, EMPTY, es).mutables, req, now) == Value(Some(value)) <==>
            && req.value.Some? && LiveValue(c, l, es, true, req.target.value, value, now)
            && DecodeRecord(value).Got? && DecodeRecord(value).value.seqNumber >= RequestedSeq(req.value.value)
  {
    hide Run, ValidRun, Kept, DecodeRecord, RequestedSeq, Get, LiveValue;
    GetIs(c, l, es, false, req.target.value, value, now);
    GetIs(c, l, es, true, req.target.value, value, now);
  }

  /** What is answered, whatever a store holds. A mutable put is passed over in silence unless it is
      signed by the owner of the target and carries a token; it is refused with code 16 if the
      live record has its sequence number, and with code 17 if that is larger; and it is confirmed
      exactly if the record is in the store afterwards. An immutable put is confirmed exactly if
      its value is. A get that names its target is always answered. */
  lemma RepliesExact(c: Crypto, l: Limits, m: Cache, req: Request, now: nat, victim: Bytes)
    ensures var (m', r) := MutablePut(c, l, m, req, now, victim);
            match Accepted(c, req)
            case None => r == Silent && m' == m
            case Some(put) =>
              var live := LiveSeq(l, m, req.target.value, now);
              if live.Some? && live.value >= put.record.seqNumber then
                m' == m && r == Refused(if live.value == put.record.seqNumber then 16 else 17)
              else
                && r == Value(None) && req.target.value in m'
                && m'[req.target.value] == Cached(EncodeRecord(put.record), now)
    ensures var (m', r) := ImmutablePut(c, l, m, req, now, victim);
            match ImmutableWrite(c, req)
            case None => r == Silent && m' == m
            case Some(w) => r == Value(None) && w.key in m' && m'[w.key] == Cached(w.value, now)
    ensures req.target.Some? ==> ImmutableGet(l, m, req, now).Value?
    ensures req.target.Some? && req.value.Some? ==> MutableGet(l, m, req, now).Value?
  {
    hide Accepted, LiveSeq, EncodeRecord;
  }
}
