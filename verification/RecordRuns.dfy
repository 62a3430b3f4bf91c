/** What the announcement cache keeps in every run. */
module RecordRuns {
  import opened RecordSpec

  /** The places of all entries. */
  ghost function Slots(m: Entries): set<(Topic, nat)> {
    set t, i | t in m && 0 <= i < |m[t]| :: (t, i)
  }

  ghost predicate Unique(b: seq<Entry>) {
    forall i, j :: 0 <= i < j < |b| ==> b[i].publicKey != b[j].publicKey
  }

  ghost predicate BucketOk(l: Limits, b: seq<Entry>) {
    |b| <= l.RoomPerKey() && Unique(b)
  }

  ghost predicate BucketsOk(l: Limits, m: Entries) {
    forall t :: t in m ==> BucketOk(l, m[t])
  }

  ghost predicate Inv(l: Limits, c: Cache) {
    c.total == |Slots(c.entries)| <= l.Room() && BucketsOk(l, c.entries)
  }

  // ---------------------------------------------------------------- counting slots

  ghost function Tail(topic: Topic, low: nat, high: nat): set<(Topic, nat)> {
    set i | low <= i < high :: (topic, i)
  }

  lemma {:induction false} TailSize(topic: Topic, low: nat, high: nat)
    requires low <= high
    ensures |Tail(topic, low, high)| == high - low
    decreases high - low
  {
    if low == high {
      assert Tail(topic, low, high) == {};
    } else {
      TailSize(topic, low, high - 1);
      assert Tail(topic, low, high) == Tail(topic, low, high - 1) + {(topic, high - 1)};
    }
  }

  /** The bucket of a topic gets shorter or goes away. */
  lemma SlotsShrink(m: Entries, m': Entries, topic: Topic, n: nat)
    requires topic in m && n <= |m[topic]|
    requires forall t :: t != topic ==> Bucket(m', t) == Bucket(m, t)
    requires |Bucket(m', topic)| == n
    ensures |Slots(m')| == |Slots(m)| - (|m[topic]| - n)
  {
    var gone := Tail(topic, n, |m[topic]|);
    TailSize(topic, n, |m[topic]|);
    SlotMembers(m);
    SlotMembers(m');
    assert Slots(m') == Slots(m) - gone;
    assert gone <= Slots(m);
    assert Slots(m) == Slots(m') + gone;
  }

  lemma SlotMembers(m: Entries)
    ensures forall t, i: nat :: (t, i) in Slots(m) <==> i < |Bucket(m, t)|
  {
  }

  lemma SlotsGrow(m: Entries, m': Entries, topic: Topic)
    requires forall t :: t != topic ==> Bucket(m', t) == Bucket(m, t)
    requires |Bucket(m', topic)| == |Bucket(m, topic)| + 1
    ensures |Slots(m')| == |Slots(m)| + 1
  {
    SlotMembers(m);
    SlotMembers(m');
    assert Slots(m') == Slots(m) + {(topic, |Bucket(m, topic)|)};
  }

  lemma SlotsSame(m: Entries, m': Entries)
    requires forall t :: |Bucket(m', t)| == |Bucket(m, t)|
    ensures Slots(m') == Slots(m)
  {
    SlotMembers(m);
    SlotMembers(m');
  }

  lemma NoSlots(m: Entries)
    requires !NonEmpty(m)
    ensures |Slots(m)| == 0
  {
    assert Slots(m) == {};
  }

  // ---------------------------------------------------------------- buckets

  lemma RemoveAtUnique(b: seq<Entry>, i: nat)
    requires Unique(b) && i < |b|
    ensures Unique(RemoveAt(b, i))
  {
  }

  lemma {:induction false} OthersUnique(b: seq<Entry>, key: PublicKey)
    requires Unique(b)
    ensures Unique(Others(b, key)) && forall e :: e in Others(b, key) <==> e in b && e.publicKey != key
  {
    if b != [] {
      OthersUnique(b[..|b| - 1], key);
      assert b == b[..|b| - 1] + [b[|b| - 1]];
    }
  }

  lemma {:induction false} FreshUnique(b: seq<Entry>, maxAge: nat, now: nat)
    requires Unique(b)
    ensures Unique(Fresh(b, maxAge, now)) &&
            forall e :: e in Fresh(b, maxAge, now) <==> e in b && now < e.insertedAt + maxAge
  {
    if b != [] {
      FreshUnique(b[..|b| - 1], maxAge, now);
      assert b == b[..|b| - 1] + [b[|b| - 1]];
    }
  }

  // ---------------------------------------------------------------- steps

  lemma MakeRoomOk(l: Limits, c: Cache, topic: Topic)
    requires Inv(l, c)
    ensures Inv(l, MakeRoom(l, c, topic)) && |Bucket(MakeRoom(l, c, topic).entries, topic)| < l.RoomPerKey()
    ensures forall e :: e in Bucket(MakeRoom(l, c, topic).entries, topic) ==> e in Bucket(c.entries, topic)
  {
    var b := Bucket(c.entries, topic);
    if |b| >= l.maxPerKey && b != [] {
      assert topic in c.entries && BucketOk(l, b);
      var r := RemoveAt(b, Oldest(b));
      RemoveAtUnique(b, Oldest(b));
      SlotsShrink(c.entries, c.entries[topic := r], topic, |b| - 1);
    } else {
      assert topic in c.entries ==> BucketOk(l, c.entries[topic]);
    }
  }

  lemma EvictOk(l: Limits, c: Cache, victim: Topic)
    requires Inv(l, c) && HasOldest(c.entries, victim)
    ensures Inv(l, Evict(c, victim)) && Evict(c, victim).total == c.total - 1
    ensures forall t :: |Bucket(Evict(c, victim).entries, t)| <= |Bucket(c.entries, t)|
    ensures forall t, e :: e in Bucket(Evict(c, victim).entries, t) ==> e in Bucket(c.entries, t)
  {
    var b := c.entries[victim];
    var r := RemoveAt(b, Oldest(b));
    var c' := Evict(c, victim);
    assert BucketOk(l, b);
    RemoveAtUnique(b, Oldest(b));
    assert forall t :: t != victim ==> Bucket(c'.entries, t) == Bucket(c.entries, t);
    assert Bucket(c'.entries, victim) == r;
    SlotsShrink(c.entries, c'.entries, victim, |r|);
    SlotMembers(c.entries);
    assert (victim, 0) in Slots(c.entries);
  }

  lemma AppendOk(l: Limits, c: Cache, topic: Topic, e: Entry)
    requires Inv(l, c) && c.total < l.Room() && |Bucket(c.entries, topic)| < l.RoomPerKey()
    requires forall x :: x in Bucket(c.entries, topic) ==> x.publicKey != e.publicKey
    ensures Inv(l, Cache(c.entries[topic := Bucket(c.entries, topic) + [e]], c.total + 1))
  {
    var b := Bucket(c.entries, topic);
    var m := c.entries[topic := b + [e]];
    assert topic in c.entries ==> BucketOk(l, c.entries[topic]);
    assert forall i :: 0 <= i < |b| ==> b[i] in b;
    SlotsGrow(c.entries, m, topic);
  }

  lemma AddOk(l: Limits, c: Cache, e: Event)
    requires Inv(l, c) && e.DoAdd? && CanAdd(l, c, e.topic, e.victim)
    ensures Inv(l, Step(l, c, e))
  {
    var b := Bucket(c.entries, e.topic);
    var i := IndexOf(b, e.key, 0);
    if i < |b| {
      ReplaceOk(l, c, e.topic, i, Entry(e.key, e.record, e.now));
    } else {
      MakeRoomOk(l, c, e.topic);
      var c1 := MakeRoom(l, c, e.topic);
      if !NonEmpty(c1.entries) {
        NoSlots(c1.entries);
      } else if c1.total >= l.maxSize {
        EvictOk(l, c1, e.victim);
      }
      hide Inv, MakeRoom, Evict, IndexOf;
      var c2 := if c1.total >= l.maxSize && NonEmpty(c1.entries) then Evict(c1, e.victim) else c1;
      Totals(l, c1);
      AppendOk(l, c2, e.topic, Entry(e.key, e.record, e.now));
    }
  }

  lemma Totals(l: Limits, c: Cache)
    requires Inv(l, c)
    ensures c.total <= l.Room()
  {
  }

  lemma ReplaceOk(l: Limits, c: Cache, topic: Topic, i: nat, e: Entry)
    requires Inv(l, c) && i < |Bucket(c.entries, topic)| && Bucket(c.entries, topic)[i].publicKey == e.publicKey
    ensures Inv(l, c.(entries := c.entries[topic := Bucket(c.entries, topic)[i := e]]))
  {
    var b := Bucket(c.entries, topic);
    assert BucketOk(l, b);
    SlotsSame(c.entries, c.entries[topic := b[i := e]]);
  }

  lemma RemoveOk(l: Limits, c: Cache, topic: Topic, key: PublicKey)
    requires Inv(l, c)
    ensures Inv(l, Remove(c, topic, key))
  {
    if topic in c.entries {
      var b := Others(c.entries[topic], key);
      assert BucketOk(l, c.entries[topic]);
      OthersUnique(c.entries[topic], key);
      ShrinkOk(l, c, Remove(c, topic, key).entries, topic, b);
    }
  }

  lemma ShrinkOk(l: Limits, c: Cache, m: Entries, topic: Topic, b: seq<Entry>)
    requires Inv(l, c) && topic in c.entries && |b| <= |c.entries[topic]| && Unique(b)
    requires m == c.entries[topic := b] || (b == [] && m == c.entries - {topic})
    ensures Inv(l, Cache(m, Lowered(c.total, |c.entries[topic]| - |b|)))
  {
    assert BucketOk(l, c.entries[topic]);
    SlotsShrink(c.entries, m, topic, |b|);
  }

  lemma ExpireOk(l: Limits, c: Cache, topic: Topic, now: nat)
    requires Inv(l, c)
    ensures Inv(l, Expire(l, c, topic, now))
  {
    if topic in c.entries {
      assert BucketOk(l, c.entries[topic]);
      FreshUnique(c.entries[topic], l.maxAge, now);
      ShrinkOk(l, c, Expire(l, c, topic, now).entries, topic, Fresh(c.entries[topic], l.maxAge, now));
    }
  }

  // ---------------------------------------------------------------- runs

  ghost predicate ValidRun(l: Limits, c: Cache, es: seq<Event>)
    decreases |es|
  {
    es != [] ==> Enabled(l, c, es[0]) && ValidRun(l, Step(l, c, es[0]), es[1..])
  }

  ghost function Run(l: Limits, c: Cache, es: seq<Event>): Cache
    requires ValidRun(l, c, es)
    decreases |es|
  {
    if es == [] then c else Run(l, Step(l, c, es[0]), es[1..])
  }

  lemma {:induction false} RunOk(l: Limits, c: Cache, es: seq<Event>)
    requires Inv(l, c) && ValidRun(l, c, es)
    ensures Inv(l, Run(l, c, es))
    decreases |es|
  {
    hide Inv, Add, Remove, Expire, CanAdd;
    if es != [] {
      match es[0] {
        case DoAdd(_, _, _, _, _) => AddOk(l, c, es[0]);
        case DoRemove(topic, key) => RemoveOk(l, c, topic, key);
        case DoGet(topic, now) => ExpireOk(l, c, topic, now);
      }
      RunOk(l, Step(l, c, es[0]), es[1..]);
    }
  }

  const EMPTY := Cache(map[], 0)

  /** In every run the total is the number of entries, which stays within the limit, and each
      topic holds at most its limit of entries, all of different keys. */
  lemma CacheBounds(l: Limits, es: seq<Event>)
    requires ValidRun(l, EMPTY, es)
    ensures var c := Run(l, EMPTY, es);
            && c.total == |Slots(c.entries)| <= l.Room()
            && (forall t :: t in c.entries ==> |c.entries[t]| <= l.RoomPerKey() && Unique(c.entries[t]))
  {
    assert Slots(map[]) == {};
    hide Run, ValidRun;
    RunOk(l, EMPTY, es);
    var c := Run(l, EMPTY, es);
    assert forall t :: t in c.entries ==> BucketOk(l, c.entries[t]);
  }

  /** The first record ever added stays, whatever the limits. */
  lemma FirstAdd(l: Limits, topic: Topic, key: PublicKey, record: seq<bv8>, now: nat, victim: Topic)
    ensures var es := [DoAdd(topic, key, record, now, victim)];
            ValidRun(l, EMPTY, es) &&
            var c := Run(l, EMPTY, es);
            c.total == 1 && topic in c.entries && |c.entries[topic]| == 1
  {
    var e := DoAdd(topic, key, record, now, victim);
    assert MakeRoom(l, EMPTY, topic) == EMPTY && !NonEmpty(EMPTY.entries);
    assert Enabled(l, EMPTY, e);
    assert [e][1..] == [];
    assert Bucket(EMPTY.entries, topic) == [] && IndexOf([], key, 0) == 0;
    assert [] + [Entry(key, record, now)] == [Entry(key, record, now)];
    assert ValidRun(l, Step(l, EMPTY, e), []);
  }

  ghost predicate WithinSize(l: Limits) {
    forall es :: ValidRun(l, EMPTY, es) ==> Run(l, EMPTY, es).total <= l.maxSize
  }

  ghost predicate WithinPerKey(l: Limits) {
    forall es :: ValidRun(l, EMPTY, es) ==>
      forall t :: t in Run(l, EMPTY, es).entries ==> |Run(l, EMPTY, es).entries[t]| <= l.maxPerKey
  }

  /** Every run keeps to a limit exactly when it is not zero: a limit of zero still lets one
      entry stay. */
  lemma LimitsKeptIff(l: Limits)
    ensures WithinSize(l) <==> l.maxSize >= 1
    ensures WithinPerKey(l) <==> l.maxPerKey >= 1
  {
    hide Run, ValidRun;
    FirstAdd(l, "", [], [], 0, "");
    forall es | ValidRun(l, EMPTY, es)
      ensures Run(l, EMPTY, es).total <= l.Room()
      ensures forall t :: t in Run(l, EMPTY, es).entries ==> |Run(l, EMPTY, es).entries[t]| <= l.RoomPerKey()
    {
      CacheBounds(l, es);
    }
  }
}
