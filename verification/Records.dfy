/** The announcement cache, changed in place. */
module Records {
  import opened Options
  import opened RecordSpec

  class RecordCache {
    var entries: Entries
    var total: nat
    const limits: Limits

    ghost function Model(): Cache
      reads this
    {
      Cache(entries, total)
    }

    constructor (limits: Limits)
      ensures this.limits == limits && Model() == Cache(map[], 0)
    {
      this.limits := limits;
      entries, total := map[], 0;
    }

    /** Replace the record of a known key; otherwise evict as needed and append. `victim` is the
        topic that gave way, if the whole cache was full. */
    method AddRecord(topic: Topic, key: PublicKey, record: seq<bv8>, now: nat) returns (ghost victim: Topic)
      modifies this
      ensures CanAdd(limits, old(Model()), topic, victim)
      ensures Model() == Add(limits, old(Model()), topic, key, record, now, victim)
    {
      hide Oldest, Evict, HasOldest, NonEmpty;
      var b := if topic in entries then entries[topic] else [];
      var i := FindKey(b, key);
      ghost var c1 := MakeRoom(limits, Model(), topic);
      if i < |b| {
        victim := SomeVictim(limits, Model(), topic);
        entries := entries[topic := b[i := Entry(key, record, now)]];
      } else {
        if |b| >= limits.maxPerKey && b != [] {
          var oldest := FindOldest(b);
          entries := entries[topic := b[..oldest] + b[oldest + 1..]];
          total := if total >= 1 then total - 1 else 0;
        }
        victim := "";
        if total >= limits.maxSize {
          victim := EvictOldest();
        }
        var rest := if topic in entries then entries[topic] else [];
        entries := entries[topic := rest + [Entry(key, record, now)]];
        total := total + 1;
      }
    }

    method FindKey(b: seq<Entry>, key: PublicKey) returns (i: nat)
      ensures i == IndexOf(b, key, 0)
    {
      i := 0;
      while i < |b| && b[i].publicKey != key
        invariant 0 <= i <= |b| && IndexOf(b, key, 0) == IndexOf(b, key, i)
      {
        i := i + 1;
      }
    }

    method FindOldest(b: seq<Entry>) returns (best: nat)
      requires b != []
      ensures best == Oldest(b)
    {
      best := 0;
      for i := 0 to |b|
        invariant best < |b| && Oldest(b) == OldestFrom(b, i, best)
      {
        if b[i].insertedAt < b[best].insertedAt {
          best := i;
        }
      }
    }

    /** Find the topic with the oldest entry, and drop that entry. */
    method EvictOldest() returns (ghost victim: Topic)
      modifies this
      ensures if NonEmpty(old(entries)) then HasOldest(old(entries), victim) && Model() == Evict(old(Model()), victim)
              else Model() == old(Model())
    {
      hide Oldest;
      var found := OldestTopic();
      victim := "";
      if found.Some? {
        victim := found.value;
        var b := entries[found.value];
        var oldest := FindOldest(b);
        b := b[..oldest] + b[oldest + 1..];
        total := if total >= 1 then total - 1 else 0;
        entries := if b == [] then entries - {found.value} else entries[found.value := b];
      }
    }

    method OldestTopic() returns (found: Option<Topic>)
      ensures found.Some? <==> NonEmpty(entries)
      ensures found.Some? ==> HasOldest(entries, found.value)
    {
      hide Oldest;
      found := None;
      var when_ := 0;
      var rest := entries.Keys;
      while rest != {}
        invariant rest <= entries.Keys
        invariant found.None? ==> forall t :: t in entries && t !in rest ==> entries[t] == []
        invariant found.Some? ==> found.value in entries && entries[found.value] != [] &&
                                  when_ == entries[found.value][Oldest(entries[found.value])].insertedAt
        invariant found.Some? ==> forall t :: t in entries && t !in rest && entries[t] != [] ==>
                                    when_ <= entries[t][Oldest(entries[t])].insertedAt
      {
        var t :| t in rest;
        rest := rest - {t};
        if entries[t] != [] {
          var i := FindOldest(entries[t]);
          if found.None? || entries[t][i].insertedAt < when_ {
            found, when_ := Some(t), entries[t][i].insertedAt;
          }
        }
      }
    }

    method RemoveRecord(topic: Topic, key: PublicKey)
      modifies this
      ensures Model() == Remove(old(Model()), topic, key)
    {
      if topic in entries {
        var before := entries[topic];
        var b: seq<Entry> := [];
        assert before[..0] == [];
        for i := 0 to |before|
          invariant b == Others(before[..i], key) && Model() == old(Model())
        {
          assert before[..i + 1][..i] == before[..i];
          if before[i].publicKey != key {
            b := b + [before[i]];
          }
        }
        assert before[..|before|] == before;
        var removed := |before| - |b|;
        total := if total >= removed then total - removed else 0;
        entries := if b == [] then entries - {topic} else entries[topic := b];
      }
    }

    /** Up to `max` live records of a topic, the earliest stored first. */
    method GetRecords(topic: Topic, max: nat, now: nat) returns (records: seq<seq<bv8>>)
      modifies this
      ensures Model() == Expire(limits, old(Model()), topic, now)
      ensures var b := Bucket(entries, topic);
              && |records| == (if |b| <= max then |b| else max)
              && forall i :: 0 <= i < |records| ==> records[i] == b[i].record
    {
      records := [];
      if topic in entries {
        var before := entries[topic];
        var b: seq<Entry> := [];
        assert before[..0] == [];
        for i := 0 to |before|
          invariant b == Fresh(before[..i], limits.maxAge, now) && Model() == old(Model()) && records == []
        {
          assert before[..i + 1][..i] == before[..i];
          if now < before[i].insertedAt + limits.maxAge {
            b := b + [before[i]];
          }
        }
        assert before[..|before|] == before;
        var removed := |before| - |b|;
        total := if total >= removed then total - removed else 0;
        entries := entries[topic := b];
        var n := if |b| <= max then |b| else max;
        for i := 0 to n
          invariant |records| == i && forall k :: 0 <= k < i ==> records[k] == b[k].record
        {
          records := records + [b[i].record];
        }
      }
    }
  }

  /** Some topic has the oldest entry of all. */
  lemma SomeVictim(l: Limits, c: Cache, topic: Topic) returns (victim: Topic)
    ensures CanAdd(l, c, topic, victim)
  {
    victim := "";
    var m := MakeRoom(l, c, topic).entries;
    if NonEmpty(m) {
      var some :| some in m && m[some] != [];
      var ts := set t | t in m && m[t] != [];
      assert some in ts;
      victim := SomeOldest(m, ts);
    }
  }

  lemma {:induction false} SomeOldest(m: Entries, ts: set<Topic>) returns (victim: Topic)
    requires ts != {} && forall t :: t in ts ==> t in m && m[t] != []
    ensures victim in ts && forall t :: t in ts ==>
            m[victim][Oldest(m[victim])].insertedAt <= m[t][Oldest(m[t])].insertedAt
    decreases |ts|
  {
    hide Oldest;
    victim :| victim in ts;
    var rest := ts - {victim};
    assert forall t :: t in ts ==> t == victim || t in rest;
    if rest != {} {
      var other := SomeOldest(m, rest);
      if m[other][Oldest(m[other])].insertedAt < m[victim][Oldest(m[victim])].insertedAt {
        victim := other;
      }
    }
  }
}
