/** Where the cached announcements come from, and exactly why one is lost. */
module RecordOrigins {
  import opened RecordSpec
  import opened RecordRuns

  ghost predicate Has(c: Cache, topic: Topic, x: Entry) {
    x in Bucket(c.entries, topic)
  }

  // ---------------------------------------------------------------- one step

  lemma RemovedOne(b: seq<Entry>, i: nat, x: Entry)
    requires Unique(b) && i < |b|
    ensures x in RemoveAt(b, i) <==> x in b && x != b[i]
  {
    if x in b && x != b[i] {
      var j :| 0 <= j < |b| && b[j] == x;
      assert j < i ==> RemoveAt(b, i)[j] == x;
      assert j > i ==> RemoveAt(b, i)[j - 1] == x;
    }
  }

  /** The oldest entry of a full topic. */
  ghost predicate OldestOf(b: seq<Entry>, x: Entry) {
    x in b && forall y :: y in b ==> x.insertedAt <= y.insertedAt
  }

  ghost predicate OldestOfAll(m: Entries, x: Entry) {
    forall t, y :: y in Bucket(m, t) ==> x.insertedAt <= y.insertedAt
  }

  lemma RoomMade(l: Limits, c: Cache, topic: Topic, t: Topic, x: Entry)
    requires Inv(l, c)
    ensures var c1 := MakeRoom(l, c, topic);
            && (Has(c1, t, x) ==> Has(c, t, x))
            && (Has(c, t, x) && !Has(c1, t, x) ==>
                  t == topic && |Bucket(c.entries, topic)| >= l.maxPerKey && OldestOf(Bucket(c.entries, topic), x))
  {
    var b := Bucket(c.entries, topic);
    if |b| >= l.maxPerKey && b != [] {
      assert Unique(b);
      RemovedOne(b, Oldest(b), x);
      hide OldestFrom;
    }
  }

  lemma Evicted(l: Limits, c: Cache, victim: Topic, t: Topic, x: Entry)
    requires Inv(l, c) && HasOldest(c.entries, victim)
    ensures var c1 := Evict(c, victim);
            && (Has(c1, t, x) ==> Has(c, t, x))
            && (Has(c, t, x) && !Has(c1, t, x) ==> t == victim && OldestOfAll(c.entries, x))
  {
    var b := c.entries[victim];
    assert Unique(b);
    RemovedOne(b, Oldest(b), x);
    if t == victim && x == b[Oldest(b)] {
      forall u, y | y in Bucket(c.entries, u)
        ensures x.insertedAt <= y.insertedAt
      {
        assert c.entries[u][Oldest(c.entries[u])].insertedAt <= y.insertedAt;
      }
    }
    hide OldestFrom;
  }

  /** Adding a key that the topic does not have yet. */
  ghost predicate NewKey(c: Cache, e: Event) {
    e.DoAdd? && IndexOf(Bucket(c.entries, e.topic), e.key, 0) == |Bucket(c.entries, e.topic)|
  }

  /** The cache is full even after room was made in the topic. */
  ghost predicate Full(l: Limits, c: Cache, e: Event)
    requires e.DoAdd?
  {
    MakeRoom(l, c, e.topic).total >= l.maxSize
  }

  /** The event names the entry: its key is added again or removed, or it is found expired. */
  ghost predicate Clears(l: Limits, e: Event, topic: Topic, x: Entry) {
    && e.topic == topic
    && match e
       case DoAdd(_, key, _, _, _) => key == x.publicKey
       case DoRemove(_, key) => key == x.publicKey
       case DoGet(_, now) => x.insertedAt + l.maxAge <= now
  }

  /** The entry makes way for a new one: it is the oldest of the full topic that is added to, or
      the oldest of all in a full cache. */
  ghost predicate MakesWay(l: Limits, c: Cache, e: Event, topic: Topic, x: Entry) {
    NewKey(c, e) &&
    (|| (topic == e.topic && |Bucket(c.entries, topic)| >= l.maxPerKey && OldestOf(Bucket(c.entries, topic), x))
     || (topic == e.victim && Full(l, c, e) && OldestOfAll(MakeRoom(l, c, e.topic).entries, x)))
  }

  ghost predicate Adds(e: Event, topic: Topic, x: Entry) {
    e.DoAdd? && e.topic == topic && x == Entry(e.key, e.record, e.now)
  }

  lemma ReplacedStep(l: Limits, c: Cache, e: Event, t: Topic, x: Entry)
    requires Inv(l, c) && Enabled(l, c, e) && e.DoAdd? && !NewKey(c, e)
    ensures Has(Step(l, c, e), t, x) <==> Adds(e, t, x) || (Has(c, t, x) && !Clears(l, e, t, x))
  {
    var b := Bucket(c.entries, e.topic);
    var i := IndexOf(b, e.key, 0);
    assert Unique(b);
    var b' := b[i := Entry(e.key, e.record, e.now)];
    assert b'[i] in b';
    if x in b && x.publicKey != e.key {
      var j :| 0 <= j < |b| && b[j] == x;
      assert b'[j] == x;
    }
    if x in b' && x != b'[i] {
      var j :| 0 <= j < |b'| && b'[j] == x;
      assert b[j] == x;
    }
    hide IndexOf, MakeRoom;
  }

  ghost function AfterRoom(l: Limits, c: Cache, e: Event): Cache
    requires e.DoAdd? && CanAdd(l, c, e.topic, e.victim)
  {
    var c1 := MakeRoom(l, c, e.topic);
    if c1.total >= l.maxSize && NonEmpty(c1.entries) then Evict(c1, e.victim) else c1
  }

  lemma AfterRoomHas(l: Limits, c: Cache, e: Event, t: Topic, x: Entry)
    requires Inv(l, c) && NewKey(c, e) && CanAdd(l, c, e.topic, e.victim)
    ensures Has(AfterRoom(l, c, e), t, x) ==> Has(c, t, x)
    ensures Has(c, t, x) && !Has(AfterRoom(l, c, e), t, x) ==> MakesWay(l, c, e, t, x)
  {
    hide Inv, Has, OldestOf, OldestOfAll, MakeRoom, Evict, HasOldest, IndexOf;
    var c1 := MakeRoom(l, c, e.topic);
    RoomMade(l, c, e.topic, t, x);
    MakeRoomOk(l, c, e.topic);
    if c1.total >= l.maxSize && NonEmpty(c1.entries) {
      Evicted(l, c1, e.victim, t, x);
    }
  }

  lemma NewStep(l: Limits, c: Cache, e: Event, t: Topic, x: Entry)
    requires Inv(l, c) && Enabled(l, c, e) && NewKey(c, e)
    ensures Adds(e, t, x) ==> Has(Step(l, c, e), t, x)
    ensures Has(Step(l, c, e), t, x) ==> Adds(e, t, x) || (Has(c, t, x) && !Clears(l, e, t, x))
    ensures Has(c, t, x) && !Has(Step(l, c, e), t, x) ==> MakesWay(l, c, e, t, x)
  {
    AfterRoomHas(l, c, e, t, x);
    NoSuchKey(c, e, x);
    hide MakeRoom, Evict, IndexOf, MakesWay;
    var c2 := AfterRoom(l, c, e);
    assert Step(l, c, e).entries ==
           c2.entries[e.topic := Bucket(c2.entries, e.topic) + [Entry(e.key, e.record, e.now)]];
  }

  lemma NoSuchKey(c: Cache, e: Event, x: Entry)
    requires NewKey(c, e)
    ensures Has(c, e.topic, x) ==> x.publicKey != e.key
  {
  }

  lemma RestStep(l: Limits, c: Cache, e: Event, t: Topic, x: Entry)
    requires Inv(l, c) && !e.DoAdd?
    ensures Has(Step(l, c, e), t, x) <==> Has(c, t, x) && !Clears(l, e, t, x)
  {
    if e.topic in c.entries {
      assert Unique(c.entries[e.topic]);
      if e.DoRemove? {
        OthersUnique(c.entries[e.topic], e.key);
      } else {
        FreshUnique(c.entries[e.topic], l.maxAge, e.now);
      }
    }
    hide Others, Fresh;
  }

  lemma StepEntries(l: Limits, c: Cache, e: Event, t: Topic, x: Entry)
    requires Inv(l, c) && Enabled(l, c, e)
    ensures Adds(e, t, x) ==> Has(Step(l, c, e), t, x)
    ensures Has(Step(l, c, e), t, x) ==> Adds(e, t, x) || (Has(c, t, x) && !Clears(l, e, t, x))
    ensures Has(c, t, x) && !Has(Step(l, c, e), t, x) ==> Clears(l, e, t, x) || MakesWay(l, c, e, t, x)
  {
    hide Step, Has, Inv, MakesWay;
    if NewKey(c, e) {
      NewStep(l, c, e, t, x);
    } else if e.DoAdd? {
      ReplacedStep(l, c, e, t, x);
    } else {
      RestStep(l, c, e, t, x);
    }
  }

  // ---------------------------------------------------------------- runs

  lemma {:induction false} RunSnoc(l: Limits, c: Cache, es: seq<Event>, e: Event)
    requires ValidRun(l, c, es + [e])
    ensures ValidRun(l, c, es) && Enabled(l, Run(l, c, es), e) && Run(l, c, es + [e]) == Step(l, Run(l, c, es), e)
    decreases |es|
  {
    hide Step, Enabled;
    if es == [] {
      assert es + [e] == [e] && [e][1..] == [];
    } else {
      assert (es + [e])[0] == es[0] && (es + [e])[1..] == es[1..] + [e];
      RunSnoc(l, Step(l, c, es[0]), es[1..], e);
    }
  }

  lemma RunInv(l: Limits, es: seq<Event>)
    requires ValidRun(l, EMPTY, es)
    ensures Inv(l, Run(l, EMPTY, es))
  {
    assert Slots(map[]) == {};
    hide Run, ValidRun;
    RunOk(l, EMPTY, es);
  }

  /** In every run a step leaves an added record in its topic with the key, content and time it
      was added with, puts in nothing else, and loses an entry only if it is added again, removed
      or expired, or is the oldest of a full topic or of a full cache. */
  lemma EntriesExact(l: Limits, es: seq<Event>, e: Event, t: Topic, x: Entry)
    requires ValidRun(l, EMPTY, es) && Enabled(l, Run(l, EMPTY, es), e)
    ensures var c := Run(l, EMPTY, es);
            && (Adds(e, t, x) ==> Has(Step(l, c, e), t, x))
            && (Has(Step(l, c, e), t, x) ==> Adds(e, t, x) || (Has(c, t, x) && !Clears(l, e, t, x)))
            && (Has(c, t, x) && !Has(Step(l, c, e), t, x) ==> Clears(l, e, t, x) || MakesWay(l, c, e, t, x))
  {
    hide Run, ValidRun, Inv, Step, Enabled, Has, MakesWay;
    RunInv(l, es);
    StepEntries(l, Run(l, EMPTY, es), e, t, x);
  }

  /** The k-th event added the entry, and none since has named it. */
  ghost predicate AddedAt(l: Limits, es: seq<Event>, t: Topic, x: Entry, k: nat) {
    k < |es| && Adds(es[k], t, x) && forall j :: k < j < |es| ==> !Clears(l, es[j], t, x)
  }

  /** In every run each cached entry goes back to an add of its topic, key, record and time, since
      when the key was neither added again nor removed from the topic, nor the entry expired when
      the topic was read. */
  lemma {:induction false} EntryOrigin(l: Limits, es: seq<Event>, t: Topic, x: Entry)
    requires ValidRun(l, EMPTY, es) && Has(Run(l, EMPTY, es), t, x)
    ensures exists k: nat :: AddedAt(l, es, t, x, k)
    decreases |es|
  {
    if es != [] {
      var n := |es| - 1;
      var e := es[n];
      assert es == es[..n] + [e];
      RunSnoc(l, EMPTY, es[..n], e);
      hide Run, ValidRun, Step, Enabled, Has, MakesWay;
      EntriesExact(l, es[..n], e, t, x);
      if Adds(e, t, x) {
        assert AddedAt(l, es, t, x, n);
      } else {
        EntryOrigin(l, es[..n], t, x);
        var k: nat :| AddedAt(l, es[..n], t, x, k);
        assert AddedAt(l, es, t, x, k);
      }
    }
  }
}
