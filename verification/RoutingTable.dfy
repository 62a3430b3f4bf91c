/** The Kademlia routing table: 256 buckets by common-prefix length with the
    local id, each sorted by id and holding at most `k` nodes. */
module RoutingTable {
  import opened Options
  import opened XorMetric

  const NUM_BUCKETS := 256

  datatype Peer = Peer(host: string, port: nat)

  datatype Node = Node(id: NodeId, peer: Peer, addedTick: nat, seenTick: nat, pingedTick: nat, downHints: nat)

  datatype Event = BucketFull(node: Node, bucketIndex: nat)

  type Buckets = b: seq<seq<Node>> | |b| == 256 witness seq(256, _ => [])

  // ---------------------------------------------------------------- abstract view

  /** The bucket an id belongs to: its common-prefix length, capped at the last bucket. */
  ghost function Index(local: NodeId, id: NodeId): (i: nat)
    ensures i < 256
  {
    if PrefixLength(local, id) < 256 then PrefixLength(local, id) else 255
  }

  /** Rank of an id in the lexicographic byte order used inside a bucket. */
  ghost function Rank(id: NodeId): nat {
    Distance(Zero(), id)
  }

  ghost predicate Sorted(s: seq<Node>) {
    forall i, j :: 0 <= i < j < |s| ==> Rank(s[i].id) < Rank(s[j].id)
  }

  ghost predicate WellFormed(local: NodeId, k: nat, b: Buckets) {
    forall i :: 0 <= i < 256 ==> BucketOk(local, k, b[i], i)
  }

  ghost predicate BucketOk(local: NodeId, k: nat, s: seq<Node>, i: nat) {
    && Sorted(s)
    && |s| <= k
    && forall j :: 0 <= j < |s| ==> Index(local, s[j].id) == i
  }

  /** The buckets hold exactly the nodes of the finite map `m`. */
  ghost predicate Represents(local: NodeId, b: Buckets, m: map<NodeId, Node>) {
    && (forall i, j :: 0 <= i < 256 && 0 <= j < |b[i]| ==> Stores(m, b[i][j]))
    && (forall id :: id in m ==> m[id].id == id && m[id] in b[Index(local, id)])
  }

  ghost predicate Stores(m: map<NodeId, Node>, n: Node) {
    n.id in m && m[n.id] == n
  }

  ghost function SumLengths(b: seq<seq<Node>>): nat {
    if b == [] then 0 else SumLengths(b[..|b| - 1]) + |b[|b| - 1]|
  }

  lemma {:induction false} SumLengthsUpdate(b: seq<seq<Node>>, i: nat, s: seq<Node>)
    requires i < |b|
    ensures SumLengths(b[i := s]) == SumLengths(b) - |b[i]| + |s|
  {
    var n := |b| - 1;
    if i < n {
      assert b[i := s][..n] == b[..n][i := s];
      SumLengthsUpdate(b[..n], i, s);
    } else {
      assert b[i := s][..n] == b[..n];
    }
  }

  /** The ids of `m` that belong to bucket `i`. */
  ghost function InBucket(local: NodeId, m: map<NodeId, Node>, i: nat): set<NodeId> {
    set id | id in m && Index(local, id) == i
  }

  ghost function IdsOf(s: seq<Node>): set<NodeId> {
    set j | 0 <= j < |s| :: s[j].id
  }

  lemma SortedDistinct(s: seq<Node>, i: int, j: int)
    requires Sorted(s) && 0 <= i < |s| && 0 <= j < |s| && s[i].id == s[j].id
    ensures i == j
  {
  }

  lemma {:induction false} SortedCardinality(s: seq<Node>)
    requires Sorted(s)
    ensures |IdsOf(s)| == |s|
  {
    hide Rank;
    if s != [] {
      var n := |s| - 1;
      SortedCardinality(s[..n]);
      assert IdsOf(s) == IdsOf(s[..n]) + {s[n].id};
      forall j | 0 <= j < n
        ensures s[j].id != s[n].id
      {
        assert Rank(s[j].id) < Rank(s[n].id);
      }
    }
  }

  /** A bucket is as long as the number of stored ids that belong to it. */
  lemma BucketSize(local: NodeId, k: nat, b: Buckets, m: map<NodeId, Node>, i: nat)
    requires WellFormed(local, k, b) && Represents(local, b, m) && i < 256
    ensures |b[i]| == |InBucket(local, m, i)|
  {
    hide Index, Rank;
    assert BucketOk(local, k, b[i], i);
    SortedCardinality(b[i]);
    forall id | id in IdsOf(b[i])
      ensures id in InBucket(local, m, i)
    {
      var j :| 0 <= j < |b[i]| && b[i][j].id == id;
      assert Stores(m, b[i][j]);
    }
    assert IdsOf(b[i]) == InBucket(local, m, i);
  }

  ghost function Insert(s: seq<Node>, pos: nat, n: Node): seq<Node>
    requires pos <= |s|
  {
    s[..pos] + [n] + s[pos..]
  }

  /** Replacing one bucket by a well-formed one that holds that bucket's part of `m'`. */
  lemma ReplaceBucket(local: NodeId, k: nat, b: Buckets, m: map<NodeId, Node>, i: nat, s: seq<Node>,
                      m': map<NodeId, Node>)
    requires WellFormed(local, k, b) && Represents(local, b, m)
    requires i < 256 && BucketOk(local, k, s, i)
    requires forall j :: 0 <= j < |s| ==> Stores(m', s[j])
    requires forall id :: id in m' && Index(local, id) == i ==> m'[id].id == id && m'[id] in s
    requires forall id :: Index(local, id) != i ==> (id in m' <==> id in m)
    requires forall id :: Index(local, id) != i && id in m ==> m'[id] == m[id]
    ensures WellFormed(local, k, b[i := s]) && Represents(local, b[i := s], m')
  {
    hide Index, Rank;
    var b' := b[i := s];
    forall x | 0 <= x < 256
      ensures BucketOk(local, k, b'[x], x)
    {
      assert BucketOk(local, k, b[x], x);
    }
    forall x, j | 0 <= x < 256 && 0 <= j < |b'[x]|
      ensures Stores(m', b'[x][j])
    {
      if x != i {
        assert BucketOk(local, k, b[x], x) && Stores(m, b[x][j]);
      }
    }
  }

  lemma InsertBucket(local: NodeId, k: nat, b: Buckets, m: map<NodeId, Node>, i: nat, pos: nat, n: Node)
    requires WellFormed(local, k, b) && Represents(local, b, m)
    requires i == Index(local, n.id) && |b[i]| < k && pos <= |b[i]| && n.id !in m
    requires forall j :: 0 <= j < pos ==> Rank(b[i][j].id) < Rank(n.id)
    requires forall j :: pos <= j < |b[i]| ==> Rank(n.id) < Rank(b[i][j].id)
    ensures var b' := b[i := Insert(b[i], pos, n)];
            WellFormed(local, k, b') && Represents(local, b', m[n.id := n])
  {
    hide Index, Rank;
    var s, s', m' := b[i], Insert(b[i], pos, n), m[n.id := n];
    assert BucketOk(local, k, s, i);
    InsertOk(local, k, s, i, pos, n);
    forall j | 0 <= j < |s'|
      ensures Stores(m', s'[j])
    {
      assert j < pos ==> s'[j] == s[j] && Stores(m, b[i][j]);
      assert j > pos ==> s'[j] == s[j - 1] && Stores(m, b[i][j - 1]);
    }
    forall id | id in m' && Index(local, id) == i
      ensures m'[id].id == id && m'[id] in s'
    {
      if id == n.id {
        assert s'[pos] == n;
      } else {
        assert m[id] in s[..pos] + s[pos..];
      }
    }
    ReplaceBucket(local, k, b, m, i, s', m');
  }

  lemma InsertOk(local: NodeId, k: nat, s: seq<Node>, i: nat, pos: nat, n: Node)
    requires BucketOk(local, k, s, i)
    requires i == Index(local, n.id) && |s| < k && pos <= |s|
    requires forall j :: 0 <= j < pos ==> Rank(s[j].id) < Rank(n.id)
    requires forall j :: pos <= j < |s| ==> Rank(n.id) < Rank(s[j].id)
    ensures BucketOk(local, k, Insert(s, pos, n), i)
  {
    hide Index, Rank;
    var s' := Insert(s, pos, n);
    assert forall j :: 0 <= j < pos ==> s'[j] == s[j];
    assert forall j :: pos < j < |s'| ==> s'[j] == s[j - 1];
  }

  lemma ReplaceInBucket(local: NodeId, k: nat, b: Buckets, m: map<NodeId, Node>, i: nat, pos: nat, n: Node)
    requires WellFormed(local, k, b) && Represents(local, b, m)
    requires i == Index(local, n.id) && pos < |b[i]| && b[i][pos].id == n.id
    ensures var b' := b[i := b[i][pos := n]];
            WellFormed(local, k, b') && Represents(local, b', m[n.id := n])
  {
    hide Index, Rank;
    var s, s', m' := b[i], b[i][pos := n], m[n.id := n];
    assert BucketOk(local, k, s, i);
    assert BucketOk(local, k, s', i);
    forall j | 0 <= j < |s'|
      ensures Stores(m', s'[j])
    {
      assert Stores(m, b[i][j]);
      if j != pos && s[j].id == n.id {
        SortedDistinct(s, j, pos);
      }
    }
    forall id | id in m' && Index(local, id) == i
      ensures m'[id].id == id && m'[id] in s'
    {
      if id == n.id {
        assert s'[pos] == n;
      } else {
        var j :| 0 <= j < |s| && s[j] == m[id];
        assert s'[j] == m'[id];
      }
    }
    ReplaceBucket(local, k, b, m, i, s', m');
  }

  lemma RemoveFromBucket(local: NodeId, k: nat, b: Buckets, m: map<NodeId, Node>, i: nat, pos: nat, id: NodeId)
    requires WellFormed(local, k, b) && Represents(local, b, m)
    requires i == Index(local, id) && pos < |b[i]| && b[i][pos].id == id
    ensures var b' := b[i := b[i][..pos] + b[i][pos + 1..]];
            WellFormed(local, k, b') && Represents(local, b', m - {id})
  {
    hide Index, Rank;
    var s, s', m' := b[i], b[i][..pos] + b[i][pos + 1..], m - {id};
    assert BucketOk(local, k, s, i);
    RemoveOk(local, k, s, i, pos);
    forall j | 0 <= j < |s'|
      ensures Stores(m', s'[j])
    {
      assert Stores(m, b[i][if j >= pos then j + 1 else j]);
    }
    forall d | d in m' && Index(local, d) == i
      ensures m'[d].id == d && m'[d] in s'
    {
      StillThere(s, pos, m[d]);
    }
    ReplaceBucket(local, k, b, m, i, s', m');
  }

  lemma StillThere(s: seq<Node>, pos: nat, n: Node)
    requires pos < |s| && n in s && n.id != s[pos].id
    ensures n in s[..pos] + s[pos + 1..]
  {
    assert s == s[..pos] + [s[pos]] + s[pos + 1..];
  }

  lemma RemoveOk(local: NodeId, k: nat, s: seq<Node>, i: nat, pos: nat)
    requires BucketOk(local, k, s, i) && pos < |s|
    ensures BucketOk(local, k, s[..pos] + s[pos + 1..], i)
    ensures forall j :: 0 <= j < |s| && j != pos ==> s[j].id != s[pos].id
  {
    hide Index, Rank;
    var s' := s[..pos] + s[pos + 1..];
    assert forall j :: 0 <= j < |s'| ==> s'[j] == s[if j >= pos then j + 1 else j];
    forall j | 0 <= j < |s| && j != pos
      ensures s[j].id != s[pos].id
    {
      assert if j < pos then Rank(s[j].id) < Rank(s[pos].id) else Rank(s[pos].id) < Rank(s[j].id);
    }
  }

  // ---------------------------------------------------------------- scan order

  ghost function Down(b: Buckets, i: int): seq<Node>
    requires -1 <= i < 256
    decreases i + 1
  {
    if i < 0 then [] else b[i] + Down(b, i - 1)
  }

  ghost function Up(b: Buckets, j: nat): seq<Node>
    requires j <= 256
    decreases 256 - j
  {
    if j == 256 then [] else b[j] + Up(b, j + 1)
  }

  /** All nodes in the order `closest` visits them for a target in bucket `d`. */
  ghost function ScanOrder(b: Buckets, d: nat): seq<Node>
    requires d < 256
  {
    Down(b, d) + Up(b, d + 1)
  }

  ghost function Take(s: seq<Node>, k: nat): (r: seq<Node>)
    ensures |r| == if |s| < k then |s| else k
    ensures r <= s
  {
    if |s| <= k then s else s[..k]
  }

  lemma {:induction false} DownLength(b: Buckets, i: int)
    requires -1 <= i < 256
    ensures |Down(b, i)| == SumLengths(b[..i + 1])
    decreases i + 1
  {
    if i >= 0 {
      DownLength(b, i - 1);
      assert b[..i + 1][..i] == b[..i];
    }
  }

  lemma {:induction false} UpLength(b: Buckets, j: nat)
    requires j <= 256
    ensures SumLengths(b[..j]) + |Up(b, j)| == SumLengths(b)
    decreases 256 - j
  {
    if j < 256 {
      UpLength(b, j + 1);
      assert b[..j + 1][..j] == b[..j];
    } else {
      assert b[..256] == b;
    }
  }

  lemma ScanLength(b: Buckets, d: nat)
    requires d < 256
    ensures |ScanOrder(b, d)| == SumLengths(b)
  {
    DownLength(b, d);
    UpLength(b, d + 1);
  }

  /** Which bucket the node at each scan position comes from. */
  lemma {:induction false} DownBuckets(local: NodeId, k: nat, b: Buckets, i: int)
    requires -1 <= i < 256 && WellFormed(local, k, b)
    ensures forall p :: 0 <= p < |Down(b, i)| ==> Index(local, Down(b, i)[p].id) <= i
    ensures forall p, q :: 0 <= p < q < |Down(b, i)| ==> ScanBefore(local, Down(b, i)[p], Down(b, i)[q])
    decreases i + 1
  {
    if i >= 0 {
      DownBuckets(local, k, b, i - 1);
      var h, t := b[i], Down(b, i - 1);
      assert BucketOk(local, k, b[i], i);
      forall p, q | 0 <= p < q < |h + t|
        ensures ScanBefore(local, (h + t)[p], (h + t)[q])
      {
        if q >= |h| {
          assert (h + t)[q] == t[q - |h|];
          if p >= |h| {
            assert (h + t)[p] == t[p - |h|];
          }
        }
      }
    }
  }

  /** In the downward scan a later node lies in a lower bucket, or later in the same one. */
  ghost predicate ScanBefore(local: NodeId, x: Node, y: Node) {
    || Index(local, y.id) < Index(local, x.id)
    || (Index(local, y.id) == Index(local, x.id) && Rank(x.id) < Rank(y.id))
  }

  lemma {:induction false} UpBuckets(local: NodeId, k: nat, b: Buckets, j: nat)
    requires j <= 256 && WellFormed(local, k, b)
    ensures forall p :: 0 <= p < |Up(b, j)| ==> Index(local, Up(b, j)[p].id) >= j
    ensures forall p, q :: 0 <= p < q < |Up(b, j)| ==> Up(b, j)[p].id != Up(b, j)[q].id
    decreases 256 - j
  {
    if j < 256 {
      UpBuckets(local, k, b, j + 1);
      var h, t := b[j], Up(b, j + 1);
      assert BucketOk(local, k, b[j], j);
      var s: seq<Node> := h + t;
      forall p, q | 0 <= p < q < |s|
        ensures s[p].id != s[q].id
      {
        if q >= |h| {
          assert s[q] == t[q - |h|];
          if p >= |h| {
            assert s[p] == t[p - |h|];
          }
        } else {
          assert Rank(h[p].id) < Rank(h[q].id);
        }
      }
    }
  }

  lemma ScanDistinct(local: NodeId, k: nat, b: Buckets, d: nat)
    requires d < 256 && WellFormed(local, k, b)
    ensures forall p, q :: 0 <= p < q < |ScanOrder(b, d)| ==> ScanOrder(b, d)[p].id != ScanOrder(b, d)[q].id
  {
    DownBuckets(local, k, b, d);
    UpBuckets(local, k, b, d + 1);
    var s := ScanOrder(b, d);
    forall p, q | 0 <= p < q < |s|
      ensures s[p].id != s[q].id
    {
      if q < |Down(b, d)| {
        assert ScanBefore(local, Down(b, d)[p], Down(b, d)[q]);
      }
    }
  }

  lemma {:induction false} DownContains(b: Buckets, i: int, x: nat, j: nat)
    requires x <= i < 256 && j < |b[x]|
    ensures b[x][j] in Down(b, i)
    decreases i + 1
  {
    if x < i {
      DownContains(b, i - 1, x, j);
    } else {
      assert b[x][j] == Down(b, i)[j];
    }
  }

  lemma {:induction false} UpContains(b: Buckets, i: nat, x: nat, j: nat)
    requires i <= x < 256 && j < |b[x]|
    ensures b[x][j] in Up(b, i)
    decreases 256 - i
  {
    if i < x {
      UpContains(b, i + 1, x, j);
    } else {
      assert b[x][j] == Up(b, i)[j];
    }
  }

  lemma {:induction false} DownOnlyNodes(b: Buckets, i: int, n: Node)
    requires -1 <= i < 256 && n in Down(b, i)
    ensures exists x, j :: 0 <= x <= i && 0 <= j < |b[x]| && b[x][j] == n
    decreases i + 1
  {
    if n in b[i] {
      var j :| 0 <= j < |b[i]| && b[i][j] == n;
    } else {
      DownOnlyNodes(b, i - 1, n);
    }
  }

  lemma {:induction false} UpOnlyNodes(b: Buckets, i: nat, n: Node)
    requires i <= 256 && n in Up(b, i)
    ensures exists x, j :: i <= x < 256 && 0 <= j < |b[x]| && b[x][j] == n
    decreases 256 - i
  {
    if n in b[i] {
      var j :| 0 <= j < |b[i]| && b[i][j] == n;
    } else {
      UpOnlyNodes(b, i + 1, n);
    }
  }

  /** The scan visits exactly the stored nodes. */
  lemma ScanMembers(local: NodeId, k: nat, b: Buckets, m: map<NodeId, Node>, d: nat, n: Node)
    requires d < 256 && WellFormed(local, k, b) && Represents(local, b, m)
    ensures n in ScanOrder(b, d) <==> Stores(m, n)
  {
    hide Index, Rank;
    if Stores(m, n) {
      var x := Index(local, n.id);
      var j :| 0 <= j < |b[x]| && b[x][j] == n;
      if x <= d {
        DownContains(b, d, x, j);
      } else {
        UpContains(b, d + 1, x, j);
      }
    }
    if n in ScanOrder(b, d) {
      if n in Down(b, d) {
        DownOnlyNodes(b, d, n);
      } else {
        UpOnlyNodes(b, d + 1, n);
      }
    }
  }

  // ---------------------------------------------------------------- the structure of `closest`

  /** Prefix shared with the target by the nodes of a bucket, seen from the local id. */
  lemma PrefixByBucket(local: NodeId, target: NodeId, n: NodeId)
    ensures Index(local, n) == Index(local, target) ==>
              PrefixLength(target, n) >= 255 || PrefixLength(target, n) > Index(local, target)
    ensures Index(local, n) < Index(local, target) ==> PrefixLength(target, n) == Index(local, n)
    ensures Index(local, n) > Index(local, target) ==> PrefixLength(target, n) == Index(local, target)
  {
    var p, q := PrefixLength(local, target), PrefixLength(local, n);
    if q < p {
      EarlierPrefix(local, target, n);
    } else if p < q {
      EarlierPrefix(local, n, target);
    } else if p < 256 {
      SamePrefix(local, target, n);
    } else {
      PrefixLengthMeaning(local, target);
      PrefixLengthMeaning(local, n);
      PrefixLengthMeaning(target, n);
      forall j: nat | j < 256
        ensures Bit(target, j) == Bit(n, j)
      {
        assert Bit(local, j) == Bit(target, j) && Bit(local, j) == Bit(n, j);
      }
    }
  }

  /** How near a bucket lies to the target: larger is nearer. */
  ghost function Nearness(local: NodeId, target: NodeId, n: NodeId): nat {
    var d, i := Index(local, target), Index(local, n);
    if i == d then 256 else if i < d then i else d
  }

  /** Nodes of a nearer bucket are strictly nearer in XOR distance. */
  lemma NearerBucketIsNearer(local: NodeId, target: NodeId, x: NodeId, y: NodeId)
    requires Nearness(local, target, x) > Nearness(local, target, y)
    ensures Distance(target, x) < Distance(target, y)
  {
    PrefixByBucket(local, target, x);
    PrefixByBucket(local, target, y);
    LongerPrefixIsNearer(target, x, y);
  }

  /** The target's own bucket comes first and is strictly nearer than every other node;
      below it the scan moves strictly away from the target. */
  lemma ScanStructure(local: NodeId, k: nat, b: Buckets, target: NodeId, p: nat, q: nat)
    requires WellFormed(local, k, b)
    requires p < q < |ScanOrder(b, Index(local, target))|
    ensures var s, d := ScanOrder(b, Index(local, target)), Index(local, target);
            && (Index(local, s[q].id) == d ==> Index(local, s[p].id) == d)
            && (Index(local, s[p].id) == d != Index(local, s[q].id)
                ==> Distance(target, s[p].id) < Distance(target, s[q].id))
            && (Index(local, s[q].id) < Index(local, s[p].id) <= d
                ==> Distance(target, s[p].id) < Distance(target, s[q].id))
            && (Index(local, s[p].id) > d ==> Index(local, s[q].id) > d)
            && (Index(local, s[p].id) <= d
                ==> Index(local, s[q].id) <= Index(local, s[p].id) || Index(local, s[q].id) > d)
  {
    var d := Index(local, target);
    var s := ScanOrder(b, d);
    DownBuckets(local, k, b, d);
    UpBuckets(local, k, b, d + 1);
    if q < |Down(b, d)| {
      assert ScanBefore(local, Down(b, d)[p], Down(b, d)[q]);
    }
    if Nearness(local, target, s[p].id) > Nearness(local, target, s[q].id) {
      NearerBucketIsNearer(local, target, s[p].id, s[q].id);
    }
  }

  /** The first `n` scanned nodes are a nearest set, bucket for bucket. */
  ghost predicate NearestBuckets(local: NodeId, target: NodeId, b: Buckets, n: nat) {
    NearestPrefix(local, target, ScanOrder(b, Index(local, target)), n)
  }

  ghost predicate NearestPrefix(local: NodeId, target: NodeId, s: seq<Node>, n: nat) {
    forall p, q :: 0 <= p < n <= q < |s| ==> Nearness(local, target, s[p].id) >= Nearness(local, target, s[q].id)
  }

  /** `closest` returns a bucket-wise nearest set exactly unless it takes a node from
      below the target's bucket while it leaves one out from above. */
  lemma NearestBucketsIff(local: NodeId, k: nat, b: Buckets, target: NodeId, n: nat)
    requires WellFormed(local, k, b)
    ensures var d: int := Index(local, target);
            NearestBuckets(local, target, b, n) <==>
            !(|b[d]| < n < SumLengths(b) && Down(b, d - 1) != [] && Up(b, d + 1) != [])
  {
    var d: int := Index(local, target);
    ScanLength(b, d);
    if |b[d]| < n < SumLengths(b) && Down(b, d - 1) != [] && Up(b, d + 1) != [] {
      BelowBeforeAbove(local, k, b, target, n);
    } else {
      forall p, q | 0 <= p < n <= q < |ScanOrder(b, d)|
        ensures Nearness(local, target, ScanOrder(b, d)[p].id) >= Nearness(local, target, ScanOrder(b, d)[q].id)
      {
        NearestPair(local, k, b, target, n, p, q);
      }
    }
  }

  lemma BelowBeforeAbove(local: NodeId, k: nat, b: Buckets, target: NodeId, n: nat)
    requires WellFormed(local, k, b)
    requires var d: int := Index(local, target);
             |b[d]| < n < SumLengths(b) && Down(b, d - 1) != [] && Up(b, d + 1) != []
    ensures !NearestBuckets(local, target, b, n)
  {
    hide Index, Rank;
    var d: int := Index(local, target);
    var s := ScanOrder(b, d);
    ScanLength(b, d);
    var p, q := |b[d]|, |s| - 1;
    assert s[p] == Down(b, d)[p] == Down(b, d - 1)[0];
    assert s[q] == Up(b, d + 1)[|Up(b, d + 1)| - 1];
    DownBuckets(local, k, b, d - 1);
    UpBuckets(local, k, b, d + 1);
    assert Nearness(local, target, s[p].id) < Nearness(local, target, s[q].id);
  }

  lemma NearestPair(local: NodeId, k: nat, b: Buckets, target: NodeId, n: nat, p: nat, q: nat)
    requires WellFormed(local, k, b)
    requires p < n <= q < |ScanOrder(b, Index(local, target))|
    requires var d: int := Index(local, target);
             n <= |b[d]| || Down(b, d - 1) == [] || Up(b, d + 1) == []
    ensures var s := ScanOrder(b, Index(local, target));
            Nearness(local, target, s[p].id) >= Nearness(local, target, s[q].id)
  {
    hide Index, Rank;
    var d: int := Index(local, target);
    var s := ScanOrder(b, d);
    assert BucketOk(local, k, b[d], d);
    ScanStructure(local, k, b, target, p, q);
    DownBuckets(local, k, b, d);
    UpBuckets(local, k, b, d + 1);
    if p < |b[d]| {
      assert s[p] == b[d][p];
    } else if Down(b, d - 1) == [] {
      assert s[p] == Up(b, d + 1)[p - |b[d]|] && s[q] == Up(b, d + 1)[q - |b[d]|];
    } else {
      assert s == Down(b, d);
    }
  }

  /** Looking up the local id itself always gives a bucket-wise nearest set. */
  lemma LocalTargetNearest(local: NodeId, k: nat, b: Buckets, n: nat)
    requires WellFormed(local, k, b)
    ensures NearestBuckets(local, local, b, n)
  {
    PrefixLengthMeaning(local, local);
    assert Index(local, local) == 255;
    NearestBucketsIff(local, k, b, local, n);
  }

  /** The id whose first byte is `x` and whose other bytes are zero. */
  ghost function Leading(x: bv8): NodeId {
    Zero()[0 := x]
  }

  ghost function TwoNodes(far: Node, near: Node): Buckets {
    seq(256, i => if i == 0 then [far] else if i == 2 then [near] else [])
  }

  lemma LeadingIndex(x: bv8)
    requires x != 0
    ensures Index(Zero(), Leading(x)) == LeadingZeros(x)
  {
    assert Zero()[0] ^ Leading(x)[0] == x;
  }

  /** The condition can fail: with the local id zero and nodes with first byte 0x80 and 0x20, the
      one node that `closest` returns for the target 0x40 is the farther of the two. */
  lemma ClosestMissesNearer(k: nat, peer: Peer)
    requires k >= 1
    ensures var far, near := Node(Leading(0x80), peer, 0, 0, 0, 0), Node(Leading(0x20), peer, 0, 0, 0, 0);
            var b, target := TwoNodes(far, near), Leading(0x40);
            && WellFormed(Zero(), k, b) && !NearestBuckets(Zero(), target, b, 1)
            && Take(ScanOrder(b, Index(Zero(), target)), 1) == [far]
            && near in ScanOrder(b, Index(Zero(), target))
            && Distance(target, near.id) < Distance(target, far.id)
  {
    var far, near := Node(Leading(0x80), peer, 0, 0, 0, 0), Node(Leading(0x20), peer, 0, 0, 0, 0);
    var b, target := TwoNodes(far, near), Leading(0x40);
    LeadingIndex(0x80);
    LeadingIndex(0x40);
    LeadingIndex(0x20);
    hide Index, Leading, WellFormed, NearestBuckets, ScanOrder, Take, Distance;
    MissesNearer(Zero(), k, target, far, near);
  }

  lemma MissesNearer(local: NodeId, k: nat, target: NodeId, far: Node, near: Node)
    requires k >= 1 && Index(local, far.id) == 0 && Index(local, target) == 1 && Index(local, near.id) == 2
    ensures var b := TwoNodes(far, near);
            && WellFormed(local, k, b) && !NearestBuckets(local, target, b, 1)
            && Take(ScanOrder(b, 1), 1) == [far] && near in ScanOrder(b, 1)
            && Distance(target, near.id) < Distance(target, far.id)
  {
    hide Index, Down, Up, Rank, Distance;
    var b := TwoNodes(far, near);
    TwoScanned(far, near);
    var s := ScanOrder(b, 1);
    assert s[0] == far && s[1] == near;
    assert Nearness(local, target, s[0].id) < Nearness(local, target, s[1].id);
    NearerBucketIsNearer(local, target, near.id, far.id);
  }

  lemma TwoScanned(far: Node, near: Node)
    ensures ScanOrder(TwoNodes(far, near), 1) == [far, near]
  {
    var b := TwoNodes(far, near);
    assert Down(b, 1) == b[1] + (b[0] + Down(b, -1)) == [far];
    UpEmpty(b, 3);
    assert Up(b, 2) == b[2] + Up(b, 3) == [near];
  }

  lemma {:induction false} UpEmpty(b: Buckets, j: nat)
    requires j <= 256 && forall i :: j <= i < 256 ==> b[i] == []
    ensures Up(b, j) == []
    decreases 256 - j
  {
    if j < 256 {
      UpEmpty(b, j + 1);
    }
  }

  // ---------------------------------------------------------------- the table

  class RoutingTable {
    var id: NodeId
    const k: nat
    var buckets: Buckets
    var size: nat
    var events: seq<Event>
    ghost var contents: map<NodeId, Node>

    ghost predicate Valid()
      reads this
    {
      && WellFormed(id, k, buckets)
      && Represents(id, buckets, contents)
      && size == SumLengths(buckets) == |contents|
    }

    /** Every stored node, in the order a lookup of `target` visits them. */
    ghost function View(target: NodeId): seq<Node>
      reads this
    {
      ScanOrder(buckets, Index(id, target))
    }

    constructor (id: NodeId, k: nat)
      ensures Valid() && this.id == id && this.k == k && contents == map[] && events == []
    {
      this.id, this.k := id, k;
      buckets := seq(256, _ => []);
      size, events, contents := 0, [], map[];
      new;
      EmptySum(256);
    }

    method BucketIndex(target: NodeId) returns (i: nat)
      ensures i == Index(id, target)
    {
      for j := 0 to 32
        invariant PrefixFrom(id, target, 0) == PrefixFrom(id, target, j)
      {
        var a, b := target[j], id[j];
        if a != b {
          return j * 8 + LeadingZeros(a ^ b);
        }
      }
      return NUM_BUCKETS - 1;
    }

    /** Find the bucket of an id and its position in that bucket. */
    method Locate(target: NodeId) returns (idx: nat, found: bool, pos: nat)
      requires Valid()
      ensures idx == Index(id, target) && pos <= |buckets[idx]|
      ensures found <==> target in contents
      ensures found ==> pos < |buckets[idx]| && buckets[idx][pos] == contents[target] && contents[target].id == target
      ensures !found ==> forall i :: 0 <= i < pos ==> Rank(buckets[idx][i].id) < Rank(target)
      ensures !found ==> forall i :: pos <= i < |buckets[idx]| ==> Rank(target) < Rank(buckets[idx][i].id)
      ensures |buckets[idx]| == |InBucket(id, contents, idx)|
    {
      hide Index, Rank;
      idx := BucketIndex(target);
      BucketSize(id, k, buckets, contents, idx);
      assert BucketOk(id, k, buckets[idx], idx);
      found, pos := Search(buckets[idx], target);
      SearchFinds(id, k, buckets, contents, target, found, pos);
    }

    method Add(node: Node) returns (added: bool)
      requires Valid()
      modifies this
      ensures Valid() && id == old(id)
      ensures added <==> node.id in old(contents) || |InBucket(id, old(contents), Index(id, node.id))| < k
      ensures contents == if added then old(contents)[node.id := node] else old(contents)
      ensures events == if added then old(events) else old(events) + [BucketFull(node, Index(id, node.id))]
    {
      hide Index, Rank, WellFormed, Represents, InBucket;
      var idx, found, pos := Locate(node.id);
      var bucket := buckets[idx];
      if found {
        ReplaceInBucket(id, k, buckets, contents, idx, pos, node);
        SumLengthsUpdate(buckets, idx, bucket[pos := node]);
        buckets := buckets[idx := bucket[pos := node]];
        contents := contents[node.id := node];
        added := true;
      } else if |bucket| < k {
        InsertBucket(id, k, buckets, contents, idx, pos, node);
        SumLengthsUpdate(buckets, idx, Insert(bucket, pos, node));
        buckets := buckets[idx := bucket[..pos] + [node] + bucket[pos..]];
        contents := contents[node.id := node];
        size := size + 1;
        added := true;
      } else {
        events := events + [BucketFull(node, idx)];
        added := false;
      }
    }

    method Remove(target: NodeId) returns (removed: Option<Node>)
      requires Valid()
      modifies this
      ensures Valid() && id == old(id) && events == old(events)
      ensures removed == if target in old(contents) then Some(old(contents)[target]) else None
      ensures contents == old(contents) - {target}
    {
      hide Index, Rank, WellFormed, Represents, InBucket;
      var idx, found, pos := Locate(target);
      if !found {
        return None;
      }
      var bucket := buckets[idx];
      removed := Some(bucket[pos]);
      RemoveFromBucket(id, k, buckets, contents, idx, pos, target);
      SumLengthsUpdate(buckets, idx, bucket[..pos] + bucket[pos + 1..]);
      buckets := buckets[idx := bucket[..pos] + bucket[pos + 1..]];
      assert (contents - {target}).Keys == contents.Keys - {target};
      contents := contents - {target};
      size := size - 1;
    }

    method Get(target: NodeId) returns (node: Option<Node>)
      requires Valid()
      ensures node == if target in contents then Some(contents[target]) else None
    {
      var idx, found, pos := Locate(target);
      return if found then Some(buckets[idx][pos]) else None;
    }

    /** The nodes `closest` returns: the first `n` of the scan. */
    method Closest(target: NodeId, n: nat) returns (result: seq<Node>)
      requires Valid()
      ensures result == Take(View(target), n)
      ensures |result| == if size < n then size else n
      ensures forall p, q :: 0 <= p < q < |result| ==> result[p].id != result[q].id
      ensures forall x :: x in result ==> Stores(contents, x)
    {
      hide Index, Rank;
      var d := BucketIndex(target);
      result := ScanDown(d, n);
      result := ScanUp(result, d + 1, n);
      ScanLength(buckets, d);
      ScanDistinct(id, k, buckets, d);
      forall x | x in result
        ensures Stores(contents, x)
      {
        ScanMembers(id, k, buckets, contents, d, x);
      }
    }

    method ScanDown(d: nat, n: nat) returns (result: seq<Node>)
      requires d < 256
      ensures result == Take(Down(buckets, d), n)
    {
      ghost var seen: seq<Node> := [];
      result := [];
      var i: int := d;
      while i >= 0 && |result| < n
        invariant -1 <= i <= d
        invariant seen + Down(buckets, i) == Down(buckets, d)
        invariant result == Take(seen, n)
      {
        result := PushUpTo(result, buckets[i], n);
        assert seen + buckets[i] + Down(buckets, i - 1) == seen + Down(buckets, i);
        seen := seen + buckets[i];
        i := i - 1;
      }
    }

    method ScanUp(start: seq<Node>, from: nat, n: nat) returns (result: seq<Node>)
      requires from <= 256 && |start| <= n
      ensures result == Take(start + Up(buckets, from), n)
    {
      ghost var seen := start;
      result := start;
      var j := from;
      while j < NUM_BUCKETS && |result| < n
        invariant from <= j <= 256
        invariant seen + Up(buckets, j) == start + Up(buckets, from)
        invariant result == Take(seen, n)
      {
        result := PushUpTo(result, buckets[j], n);
        assert seen + buckets[j] + Up(buckets, j + 1) == seen + Up(buckets, j);
        seen := seen + buckets[j];
        j := j + 1;
      }
    }

    /** Moving to a new local id splits the old nodes other than the new id
        exactly into kept nodes and rejected ones. */
    method RebuildWithId(newId: NodeId)
      requires Valid()
      modifies this
      ensures Valid() && id == newId
      ensures newId == old(id) ==> unchanged(this)
      ensures newId != old(id) ==> Split(old(contents), newId, k, contents, events)
    {
      hide Index, Rank, WellFormed, Represents, SplitOf, InBucket;
      if id == newId {
        return;
      }
      var nodes := Drain();
      DrainedNodes(id, k, buckets, contents);
      Reset(newId);
      Reinsert(nodes, old(contents));
    }

    method Reinsert(nodes: seq<Node>, ghost was: map<NodeId, Node>)
      requires Valid() && contents == map[] && events == []
      requires forall p :: 0 <= p < |nodes| ==> Stores(was, nodes[p])
      requires forall p, q :: 0 <= p < q < |nodes| ==> nodes[p].id != nodes[q].id
      modifies this
      ensures Valid() && id == old(id)
      ensures SplitOf(was, id, k, contents, events, IdsOf(nodes) - {id})
    {
      hide Index, Rank, WellFormed, Represents, SplitOf, InBucket;
      ghost var taken: set<NodeId> := {};
      SplitNothing(was, id, k);
      for i := 0 to |nodes|
        invariant Valid() && id == old(id)
        invariant taken == IdsOf(nodes[..i]) - {id}
        invariant SplitOf(was, id, k, contents, events, taken)
      {
        IdsOfNext(nodes, i, id);
        if nodes[i].id == id {
          continue;
        }
        label before:
        var added := Add(nodes[i]);
        SplitStep(was, id, k, old@before(contents), old@before(events), taken, nodes[i], contents, events, added);
        taken := taken + {nodes[i].id};
      }
      assert nodes[..|nodes|] == nodes;
    }

    method Reset(newId: NodeId)
      modifies this
      ensures Valid() && id == newId && contents == map[] && events == []
    {
      id, size, buckets, events := newId, 0, seq(256, _ => []), [];
      contents := map[];
      EmptySum(256);
    }

    /** Extract all nodes in bucket order. */
    method Drain() returns (nodes: seq<Node>)
      ensures nodes == Up(buckets, 0)
    {
      nodes := [];
      for i := 0 to 256
        invariant nodes + Up(buckets, i) == Up(buckets, 0)
      {
        assert nodes + buckets[i] + Up(buckets, i + 1) == nodes + Up(buckets, i);
        nodes := nodes + buckets[i];
      }
    }
  }

  lemma EmptySum(n: nat)
    ensures SumLengths(seq(n, _ => [])) == 0
  {
    if n > 0 {
      EmptySum(n - 1);
      var e: seq<seq<Node>> := seq(n, _ => []);
      assert e[..n - 1] == seq(n - 1, _ => []);
    }
  }

  method PushUpTo(result: seq<Node>, bucket: seq<Node>, n: nat) returns (r: seq<Node>)
    requires |result| <= n
    ensures r == Take(result + bucket, n)
  {
    r := result;
    for i := 0 to |bucket|
      invariant r == Take(result + bucket[..i], n)
    {
      if |r| >= n {
        assert result + bucket == (result + bucket[..i]) + bucket[i..];
        return;
      }
      r := r + [bucket[i]];
      assert bucket[..i + 1] == bucket[..i] + [bucket[i]];
    }
    assert bucket[..|bucket|] == bucket;
  }

  /** Binary search by id in a sorted bucket. */
  method Search(s: seq<Node>, id: NodeId) returns (found: bool, pos: nat)
    requires Sorted(s)
    ensures found ==> pos < |s| && s[pos].id == id
    ensures !found ==> pos <= |s|
    ensures !found ==> forall i :: 0 <= i < pos ==> Rank(s[i].id) < Rank(id)
    ensures !found ==> forall i :: pos <= i < |s| ==> Rank(id) < Rank(s[i].id)
  {
    var lo, hi := 0, |s|;
    while lo < hi
      invariant 0 <= lo <= hi <= |s|
      invariant forall i :: 0 <= i < lo ==> Rank(s[i].id) < Rank(id)
      invariant forall i :: hi <= i < |s| ==> Rank(id) < Rank(s[i].id)
    {
      var mid := lo + (hi - lo) / 2;
      var c := Compare(Zero(), s[mid].id, id);
      if c == 0 {
        return true, mid;
      } else if c < 0 {
        lo := mid + 1;
      } else {
        hi := mid;
      }
    }
    return false, lo;
  }

  /** The search result decides membership in the represented map. */
  lemma SearchFinds(local: NodeId, k: nat, b: Buckets, m: map<NodeId, Node>, id: NodeId, found: bool, pos: nat)
    requires WellFormed(local, k, b) && Represents(local, b, m)
    requires found ==> pos < |b[Index(local, id)]| && b[Index(local, id)][pos].id == id
    requires !found ==> pos <= |b[Index(local, id)]|
    requires !found ==> forall i :: 0 <= i < pos ==> Rank(b[Index(local, id)][i].id) < Rank(id)
    requires !found ==> forall i :: pos <= i < |b[Index(local, id)]| ==> Rank(id) < Rank(b[Index(local, id)][i].id)
    ensures found <==> id in m
    ensures found ==> m[id] == b[Index(local, id)][pos]
  {
    hide Index, Rank;
    var i := Index(local, id);
    if found {
      assert Stores(m, b[i][pos]);
    } else {
      assert forall j :: 0 <= j < |b[i]| ==> b[i][j].id != id;
    }
  }

  /** Draining yields every stored node once. */
  lemma DrainedNodes(local: NodeId, k: nat, b: Buckets, m: map<NodeId, Node>)
    requires WellFormed(local, k, b) && Represents(local, b, m)
    ensures forall p :: 0 <= p < |Up(b, 0)| ==> Stores(m, Up(b, 0)[p])
    ensures forall p, q :: 0 <= p < q < |Up(b, 0)| ==> Up(b, 0)[p].id != Up(b, 0)[q].id
    ensures IdsOf(Up(b, 0)) == m.Keys
  {
    hide Index, Rank;
    var nodes := Up(b, 0);
    UpBuckets(local, k, b, 0);
    forall p | 0 <= p < |nodes|
      ensures Stores(m, nodes[p])
    {
      UpOnlyNodes(b, 0, nodes[p]);
    }
    forall x | x in m
      ensures x in IdsOf(nodes)
    {
      var i := Index(local, x);
      var j :| 0 <= j < |b[i]| && b[i][j] == m[x];
      UpContains(b, 0, i, j);
    }
  }

  ghost function RejectedIds(events: seq<Event>): set<NodeId> {
    set i | 0 <= i < |events| :: events[i].node.id
  }

  /** The old nodes in `taken` have been split into kept and rejected ones. */
  ghost predicate SplitOf(was: map<NodeId, Node>, newId: NodeId, k: nat, kept: map<NodeId, Node>,
                          events: seq<Event>, taken: set<NodeId>) {
    && taken <= was.Keys - {newId}
    && kept.Keys + RejectedIds(events) == taken
    && kept.Keys !! RejectedIds(events)
    && |RejectedIds(events)| == |events|
    && (forall x :: x in kept ==> kept[x] == was[x])
    && (forall i :: 0 <= i < |events| ==> Rejected(was, newId, k, kept, events[i]))
  }

  ghost predicate Rejected(was: map<NodeId, Node>, newId: NodeId, k: nat, kept: map<NodeId, Node>, e: Event) {
    && Stores(was, e.node)
    && e.bucketIndex == Index(newId, e.node.id)
    && |InBucket(newId, kept, e.bucketIndex)| >= k
  }

  ghost predicate Split(was: map<NodeId, Node>, newId: NodeId, k: nat, kept: map<NodeId, Node>, events: seq<Event>) {
    SplitOf(was, newId, k, kept, events, was.Keys - {newId})
  }

  lemma IdsOfNext(nodes: seq<Node>, i: nat, newId: NodeId)
    requires i < |nodes|
    requires forall p, q :: 0 <= p < q < |nodes| ==> nodes[p].id != nodes[q].id
    ensures nodes[i].id !in IdsOf(nodes[..i])
    ensures IdsOf(nodes[..i + 1]) - {newId} == IdsOf(nodes[..i]) - {newId} + ({nodes[i].id} - {newId})
  {
    assert nodes[..i + 1] == nodes[..i] + [nodes[i]];
    assert IdsOf(nodes[..i + 1]) == IdsOf(nodes[..i]) + {nodes[i].id};
  }

  lemma SplitNothing(was: map<NodeId, Node>, newId: NodeId, k: nat)
    ensures SplitOf(was, newId, k, map[], [], {})
  {
  }

  lemma SplitStep(was: map<NodeId, Node>, newId: NodeId, k: nat, kept: map<NodeId, Node>, events: seq<Event>,
                  taken: set<NodeId>, node: Node, kept': map<NodeId, Node>, events': seq<Event>, added: bool)
    requires SplitOf(was, newId, k, kept, events, taken)
    requires Stores(was, node) && node.id !in taken && node.id != newId
    requires kept' == if added then kept[node.id := node] else kept
    requires events' == if added then events else events + [BucketFull(node, Index(newId, node.id))]
    requires added <==> node.id in kept || |InBucket(newId, kept, Index(newId, node.id))| < k
    ensures SplitOf(was, newId, k, kept', events', taken + {node.id})
  {
    hide Index, Rank, InBucket, RejectedIds;
    if added {
      SplitKept(was, newId, k, kept, events, taken, node);
    } else {
      var e := BucketFull(node, Index(newId, node.id));
      RejectedIdsAppend(events, e);
      assert Rejected(was, newId, k, kept, e);
      hide Rejected;
    }
  }

  lemma SplitKept(was: map<NodeId, Node>, newId: NodeId, k: nat, kept: map<NodeId, Node>, events: seq<Event>,
                  taken: set<NodeId>, node: Node)
    requires SplitOf(was, newId, k, kept, events, taken)
    requires Stores(was, node) && node.id !in taken && node.id != newId
    ensures SplitOf(was, newId, k, kept[node.id := node], events, taken + {node.id})
  {
    hide Rejected, RejectedIds, Index, InBucket, Rank;
    var kept' := kept[node.id := node];
    KeptApart(kept.Keys, RejectedIds(events), taken, node.id);
    assert kept'.Keys == kept.Keys + {node.id};
    forall i | 0 <= i < |events|
      ensures Rejected(was, newId, k, kept', events[i])
    {
      RejectedStays(was, newId, k, kept, events[i], kept');
    }
  }

  lemma KeptApart<T>(kept: set<T>, rejected: set<T>, taken: set<T>, x: T)
    requires kept + rejected == taken && kept !! rejected && x !in taken
    ensures kept + {x} + rejected == taken + {x} && kept + {x} !! rejected
  {
  }

  lemma RejectedStays(was: map<NodeId, Node>, newId: NodeId, k: nat, kept: map<NodeId, Node>, e: Event,
                      kept': map<NodeId, Node>)
    requires Rejected(was, newId, k, kept, e) && kept.Keys <= kept'.Keys
    ensures Rejected(was, newId, k, kept', e)
  {
    hide Index, Rank;
    SubsetCardinality(InBucket(newId, kept, e.bucketIndex), InBucket(newId, kept', e.bucketIndex));
  }

  lemma RejectedIdsAppend(events: seq<Event>, e: Event)
    ensures RejectedIds(events + [e]) == RejectedIds(events) + {e.node.id}
  {
    var events' := events + [e];
    assert events'[|events|] == e;
    assert forall i :: 0 <= i < |events| ==> events'[i] == events[i];
  }

  lemma {:induction false} SubsetCardinality<T>(a: set<T>, b: set<T>)
    requires a <= b
    ensures |a| <= |b|
  {
    assert b == a + (b - a);
  }
}
