/** The record stores, changed in place. */
module Store {
  import opened Options
  import opened Codec
  import opened StoreSpec

  class LruCache {
    var entries: Cache
    const limits: Limits

    constructor (limits: Limits)
      ensures this.limits == limits && entries == map[]
    {
      this.limits := limits;
      entries := map[];
    }

    method Lookup(key: Bytes, now: nat) returns (r: Option<Bytes>)
      ensures r == Get(limits, entries, key, now)
    {
      r := None;
      if key in entries && now < entries[key].insertedAt + limits.maxAge {
        r := Some(entries[key].value);
      }
    }

    /** Insert or replace; at capacity the oldest entry makes room first. */
    method Insert(key: Bytes, value: Bytes, now: nat) returns (ghost victim: Bytes)
      modifies this
      ensures CanSet(limits, old(entries), victim)
      ensures entries == Set(limits, old(entries), key, value, now, victim)
    {
      victim := [];
      if |entries| >= limits.maxSize {
        var found := OldestKey();
        if found.Some? {
          victim := found.value;
          entries := entries - {found.value};
        }
      }
      entries := entries[key := Cached(value, now)];
    }

    method OldestKey() returns (found: Option<Bytes>)
      ensures found.None? <==> entries == map[]
      ensures found.Some? ==> IsOldest(entries, found.value)
    {
      found := None;
      var rest := entries.Keys;
      while rest != {}
        invariant rest <= entries.Keys
        invariant found.None? ==> rest == entries.Keys
        invariant found.Some? ==> found.value in entries &&
                                  forall k :: k in entries && k !in rest ==>
                                    entries[found.value].insertedAt <= entries[k].insertedAt
      {
        var k :| k in rest;
        rest := rest - {k};
        if found.None? || entries[k].insertedAt < entries[found.value].insertedAt {
          found := Some(k);
        }
      }
    }
  }

  class Persistent {
    const crypto: Crypto
    const mutables: LruCache
    const immutables: LruCache

    constructor (crypto: Crypto, limits: Limits)
      ensures this.crypto == crypto && fresh(mutables) && fresh(immutables) && mutables != immutables
      ensures mutables.limits == limits == immutables.limits && mutables.entries == map[] == immutables.entries
    {
      this.crypto := crypto;
      mutables := new LruCache(limits);
      immutables := new LruCache(limits);
    }

    method OnMutablePut(req: Request, now: nat) returns (reply: Reply, ghost victim: Bytes)
      modifies mutables
      ensures CanSet(mutables.limits, old(mutables.entries), victim)
      ensures (mutables.entries, reply) == MutablePut(crypto, mutables.limits, old(mutables.entries), req, now, victim)
    {
      hide Accepted, DecodeRecord, EncodeRecord, CanSet;
      var put := Accepted(crypto, req);
      AcceptedFits(crypto, req);
      victim := SomeVictim(mutables.limits, mutables.entries);
      if put.None? {
        reply := Silent;
      } else {
        var existing := mutables.Lookup(req.target.value, now);
        var live: Option<u64> := None;
        if existing.Some? {
          var record := DecodeRecord(existing.value);
          if record.Got? {
            live := Some(record.value.seqNumber);
          }
        }
        if live == Some(put.value.record.seqNumber) {
          reply := Refused(SEQ_REUSED);
        } else if live.Some? && live.value > put.value.record.seqNumber {
          reply := Refused(SEQ_TOO_LOW);
        } else {
          victim := mutables.Insert(req.target.value, EncodeRecord(put.value.record), now);
          reply := Value(None);
        }
      }
    }

    method OnMutableGet(req: Request, now: nat) returns (reply: Reply)
      ensures reply == MutableGet(mutables.limits, mutables.entries, req, now)
    {
      if req.target.None? || req.value.None? {
        reply := Silent;
      } else {
        var requested := DecodeUint(req.value.value);
        var stored := mutables.Lookup(req.target.value, now);
        reply := Value(None);
        if stored.Some? {
          var record := DecodeRecord(stored.value);
          if record.Got? && record.value.seqNumber >= (if requested.Got? then requested.value else 0) {
            reply := Value(stored);
          }
        }
      }
    }

    method OnImmutablePut(req: Request, now: nat) returns (reply: Reply, ghost victim: Bytes)
      modifies immutables
      ensures CanSet(immutables.limits, old(immutables.entries), victim)
      ensures (immutables.entries, reply) == ImmutablePut(crypto, immutables.limits, old(immutables.entries), req, now,
                                                          victim)
    {
      hide CanSet;
      if req.target.None? || req.token.None? || req.value.None? || crypto.hash(req.value.value) != req.target.value {
        victim := SomeVictim(immutables.limits, immutables.entries);
        reply := Silent;
      } else {
        victim := immutables.Insert(req.target.value, req.value.value, now);
        reply := Value(None);
      }
    }

    method OnImmutableGet(req: Request, now: nat) returns (reply: Reply)
      ensures reply == ImmutableGet(immutables.limits, immutables.entries, req, now)
    {
      if req.target.None? {
        reply := Silent;
      } else {
        var value := immutables.Lookup(req.target.value, now);
        reply := Value(value);
      }
    }
  }

  lemma AcceptedFits(c: Crypto, req: Request)
    ensures Accepted(c, req).Some? ==> req.target.Some? && Accepted(c, req).value.record.Ok()
  {
  }

  /** A cache that is not empty has an oldest entry. */
  lemma SomeVictim(l: Limits, m: Cache) returns (victim: Bytes)
    ensures CanSet(l, m, victim)
  {
    victim := [];
    if m != map[] {
      assert m.Keys != {} by { assert m.Keys == {} ==> m == map[]; }
      victim := SomeOldest(m, m.Keys);
    }
  }

  lemma {:induction false} SomeOldest(m: Cache, ks: set<Bytes>) returns (victim: Bytes)
    requires ks != {} && ks <= m.Keys
    ensures victim in ks && forall k :: k in ks ==> m[victim].insertedAt <= m[k].insertedAt
    decreases |ks|
  {
    victim :| victim in ks;
    var rest := ks - {victim};
    if rest != {} {
      var other := SomeOldest(m, rest);
      if m[other].insertedAt < m[victim].insertedAt {
        victim := other;
      }
    }
  }
}
