/** The cache of peer announcements: a bounded list of records per topic, bounded in all. */
module RecordSpec {

  type Topic = string
  type PublicKey = seq<bv8>

  datatype Entry = Entry(publicKey: PublicKey, record: seq<bv8>, insertedAt: nat)

  type Entries = map<Topic, seq<Entry>>

  datatype Limits = Limits(maxSize: nat, maxAge: nat, maxPerKey: nat) {
    /** With a limit of zero the entry that was added last still stays. */
    function Room(): nat { if maxSize == 0 then 1 else maxSize }

    function RoomPerKey(): nat { if maxPerKey == 0 then 1 else maxPerKey }
  }

  datatype Cache = Cache(entries: Entries, total: nat)

  function Bucket(m: Entries, topic: Topic): seq<Entry> {
    if topic in m then m[topic] else []
  }

  function Lowered(n: nat, k: nat): nat {
    if n >= k then n - k else 0
  }

  /** The index of the entry of a public key, or the length. */
  function IndexOf(b: seq<Entry>, key: PublicKey, i: nat): (r: nat)
    requires i <= |b|
    ensures i <= r <= |b|
    ensures r < |b| ==> b[r].publicKey == key
    ensures forall k :: i <= k < r ==> b[k].publicKey != key
    decreases |b| - i
  {
    if i == |b| || b[i].publicKey == key then i else IndexOf(b, key, i + 1)
  }

  /** The first of the oldest among `best` and the entries from `i` on. */
  function OldestFrom(b: seq<Entry>, i: nat, best: nat): (r: nat)
    requires best < |b| && i <= |b|
    ensures r < |b| && b[r].insertedAt <= b[best].insertedAt
    ensures forall k :: i <= k < |b| ==> b[r].insertedAt <= b[k].insertedAt
    decreases |b| - i
  {
    if i == |b| then best
    else if b[i].insertedAt < b[best].insertedAt then OldestFrom(b, i + 1, i)
    else OldestFrom(b, i + 1, best)
  }

  function Oldest(b: seq<Entry>): (r: nat)
    requires b != []
    ensures r < |b| && forall k :: 0 <= k < |b| ==> b[r].insertedAt <= b[k].insertedAt
  {
    OldestFrom(b, 0, 0)
  }

  function RemoveAt<T>(b: seq<T>, i: nat): (r: seq<T>)
    requires i < |b|
    ensures |r| == |b| - 1
  {
    b[..i] + b[i + 1..]
  }

  /** A topic whose oldest entry is no newer than any entry. */
  predicate HasOldest(m: Entries, topic: Topic) {
    && topic in m && m[topic] != []
    && forall t :: t in m && m[t] != [] ==> m[topic][Oldest(m[topic])].insertedAt <= m[t][Oldest(m[t])].insertedAt
  }

  function Evict(c: Cache, victim: Topic): Cache
    requires HasOldest(c.entries, victim)
  {
    var b := RemoveAt(c.entries[victim], Oldest(c.entries[victim]));
    Cache(if b == [] then c.entries - {victim} else c.entries[victim := b], Lowered(c.total, 1))
  }

  /** The first step of adding to a topic that is full: drop its oldest entry. */
  function MakeRoom(l: Limits, c: Cache, topic: Topic): Cache {
    var b := Bucket(c.entries, topic);
    if |b| >= l.maxPerKey && b != [] then
      Cache(c.entries[topic := RemoveAt(b, Oldest(b))], Lowered(c.total, 1))
    else c
  }

  predicate NonEmpty(m: Entries) {
    exists t :: t in m && m[t] != []
  }

  predicate CanAdd(l: Limits, c: Cache, topic: Topic, victim: Topic) {
    var c1 := MakeRoom(l, c, topic);
    c1.total >= l.maxSize && NonEmpty(c1.entries) ==> HasOldest(c1.entries, victim)
  }

  /** Replace the record of a known key in place; otherwise make room in the topic, then in the
      whole cache, and append. `victim` says which of equally old topics gives way. */
  function Add(l: Limits, c: Cache, topic: Topic, key: PublicKey, record: seq<bv8>, now: nat, victim: Topic): Cache
    requires CanAdd(l, c, topic, victim)
  {
    var b := Bucket(c.entries, topic);
    var i := IndexOf(b, key, 0);
    if i < |b| then c.(entries := c.entries[topic := b[i := Entry(key, record, now)]])
    else
      var c1 := MakeRoom(l, c, topic);
      var c2 := if c1.total >= l.maxSize && NonEmpty(c1.entries) then Evict(c1, victim) else c1;
      Cache(c2.entries[topic := Bucket(c2.entries, topic) + [Entry(key, record, now)]], c2.total + 1)
  }

  function Others(b: seq<Entry>, key: PublicKey): (r: seq<Entry>)
    ensures |r| <= |b|
  {
    if b == [] then []
    else if b[|b| - 1].publicKey != key then Others(b[..|b| - 1], key) + [b[|b| - 1]]
    else Others(b[..|b| - 1], key)
  }

  function Remove(c: Cache, topic: Topic, key: PublicKey): Cache {
    if topic !in c.entries then c
    else
      var b := Others(c.entries[topic], key);
      Cache(if b == [] then c.entries - {topic} else c.entries[topic := b], Lowered(c.total, |c.entries[topic]| - |b|))
  }

  function Fresh(b: seq<Entry>, maxAge: nat, now: nat): (r: seq<Entry>)
    ensures |r| <= |b|
  {
    if b == [] then []
    else if now < b[|b| - 1].insertedAt + maxAge then Fresh(b[..|b| - 1], maxAge, now) + [b[|b| - 1]]
    else Fresh(b[..|b| - 1], maxAge, now)
  }

  /** Reading a topic drops its expired entries. */
  function Expire(l: Limits, c: Cache, topic: Topic, now: nat): Cache {
    if topic !in c.entries then c
    else
      var b := Fresh(c.entries[topic], l.maxAge, now);
      Cache(c.entries[topic := b], Lowered(c.total, |c.entries[topic]| - |b|))
  }

  datatype Event =
    | DoAdd(topic: Topic, key: PublicKey, record: seq<bv8>, now: nat, victim: Topic)
    | DoRemove(topic: Topic, key: PublicKey)
    | DoGet(topic: Topic, now: nat)

  predicate Enabled(l: Limits, c: Cache, e: Event) {
    e.DoAdd? ==> CanAdd(l, c, e.topic, e.victim)
  }

  function Step(l: Limits, c: Cache, e: Event): Cache
    requires Enabled(l, c, e)
  {
    match e
    case DoAdd(topic, key, record, now, victim) => Add(l, c, topic, key, record, now, victim)
    case DoRemove(topic, key) => Remove(c, topic, key)
    case DoGet(topic, now) => Expire(l, c, topic, now)
  }
}
