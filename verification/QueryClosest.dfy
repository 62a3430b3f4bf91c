/** The closest set is exactly the k nearest distinct ids heard so far. */
module QueryClosest {
  import opened XorMetric
  import opened RoutingTable
  import opened QuerySpec

  ghost predicate Ascending(c: Config, s: seq<Reply>) {
    forall i, j :: 0 <= i < j < |s| ==> D(c, s[i].id) < D(c, s[j].id)
  }

  ghost predicate HasId(s: seq<Reply>, id: NodeId) {
    exists i :: 0 <= i < |s| && s[i].id == id
  }

  /** `r` is the first reply that carried its id. */
  ghost predicate FirstHeard(heard: seq<Reply>, r: Reply) {
    exists i :: 0 <= i < |heard| && heard[i] == r && !HasId(heard[..i], r.id)
  }

  ghost predicate Beaten(c: Config, kept: seq<Reply>, id: NodeId) {
    |kept| >= c.k && kept != [] && D(c, kept[|kept| - 1].id) < D(c, id)
  }

  /** `kept` is the k nearest distinct ids of `heard`, nearest first, each with its first reply. */
  ghost predicate IsTopK(c: Config, kept: seq<Reply>, heard: seq<Reply>) {
    && Ascending(c, kept)
    && |kept| <= c.k
    && (forall i :: 0 <= i < |kept| ==> FirstHeard(heard, kept[i]))
    && (forall i :: 0 <= i < |heard| ==> HasId(kept, heard[i].id) || Beaten(c, kept, heard[i].id))
  }

  lemma DInjective(c: Config, a: NodeId, b: NodeId)
    requires D(c, a) == D(c, b)
    ensures a == b
  {
    DistanceInjective(c.target, a, b);
  }

  /** Insertion keeps the order, drops nothing and adds only the new reply. */
  lemma {:induction false} InsertReplyProperties(c: Config, s: seq<Reply>, r: Reply)
    requires Ascending(c, s)
    ensures Ascending(c, InsertReply(c, s, r))
    ensures HasId(s, r.id) ==> InsertReply(c, s, r) == s
    ensures !HasId(s, r.id) ==> |InsertReply(c, s, r)| == |s| + 1
    ensures !HasId(s, r.id) ==> forall x :: x in InsertReply(c, s, r) <==> x in s || x == r
    ensures s != [] && D(c, r.id) < D(c, s[|s| - 1].id) ==>
              |InsertReply(c, s, r)| > 0 && InsertReply(c, s, r)[|InsertReply(c, s, r)| - 1] == s[|s| - 1]
  {
    hide D;
    var t := InsertReply(c, s, r);
    if s == [] {
    } else {
      var n := |s| - 1;
      if D(c, s[n].id) < D(c, r.id) {
        assert t == s + [r];
        assert forall i :: 0 <= i < |s| ==> s[i].id != r.id;
      } else if s[n].id == r.id {
        assert HasId(s, r.id);
      } else {
        InsertReplyProperties(c, s[..n], r);
        InsertBelowLast(c, s, r);
      }
    }
  }

  lemma InsertBelowLast(c: Config, s: seq<Reply>, r: Reply)
    requires Ascending(c, s) && s != []
    requires var n := |s| - 1;
             && D(c, s[n].id) >= D(c, r.id) && s[n].id != r.id
             && Ascending(c, InsertReply(c, s[..n], r))
             && (HasId(s[..n], r.id) ==> InsertReply(c, s[..n], r) == s[..n])
             && (!HasId(s[..n], r.id) ==> |InsertReply(c, s[..n], r)| == n + 1)
             && (!HasId(s[..n], r.id) ==> forall x :: x in InsertReply(c, s[..n], r) <==> x in s[..n] || x == r)
    ensures var t := InsertReply(c, s, r);
            && Ascending(c, t)
            && (HasId(s, r.id) ==> t == s)
            && (!HasId(s, r.id) ==> |t| == |s| + 1)
            && (!HasId(s, r.id) ==> forall x :: x in t <==> x in s || x == r)
            && t != [] && t[|t| - 1] == s[|s| - 1]
  {
    hide D;
    var n := |s| - 1;
    var u := InsertReply(c, s[..n], r);
    var t := InsertReply(c, s, r);
    assert t == u + [s[n]];
    if D(c, s[n].id) == D(c, r.id) {
      DInjective(c, s[n].id, r.id);
    }
    assert HasId(s, r.id) <==> HasId(s[..n], r.id) by {
      if HasId(s, r.id) {
        var i :| 0 <= i < |s| && s[i].id == r.id;
        assert s[..n][i].id == r.id;
      }
      if HasId(s[..n], r.id) {
        var i :| 0 <= i < n && s[..n][i].id == r.id;
        assert s[i].id == r.id;
      }
    }
    assert s == s[..n] + [s[n]];
    forall i | 0 <= i < |u|
      ensures D(c, u[i].id) < D(c, s[n].id)
    {
      assert u[i] in u;
      if u[i] in s[..n] {
        var j :| 0 <= j < n && s[j] == u[i];
      }
    }
  }

  /** The k-th distance never grows and the set stays full: what was not closer stays so. */
  lemma NotCloserStays(c: Config, s: seq<Reply>, r: Reply, id: NodeId)
    requires ConfigOk(c) && Ascending(c, s) && |s| <= c.k
    requires IsCloser(c, s, r.id) && !IsCloser(c, s, id)
    ensures !IsCloser(c, PushClosest(c, s, r), id)
  {
    hide D;
    InsertReplyProperties(c, s, r);
    var t := InsertReply(c, s, r);
    if !HasId(s, r.id) {
      assert |t| == c.k + 1;
      assert D(c, t[|t| - 2].id) < D(c, t[|t| - 1].id);
    }
  }

  lemma HeardPrefix(heard: seq<Reply>, r: Reply, x: Reply)
    requires FirstHeard(heard, x)
    ensures FirstHeard(heard + [r], x)
  {
    var i :| 0 <= i < |heard| && heard[i] == x && !HasId(heard[..i], x.id);
    assert (heard + [r])[..i] == heard[..i];
    assert (heard + [r])[i] == x;
  }

  /** One more reply keeps the top-k characterisation. */
  lemma HearTopK(c: Config, kept: seq<Reply>, heard: seq<Reply>, r: Reply)
    requires ConfigOk(c) && IsTopK(c, kept, heard)
    ensures IsTopK(c, if IsCloser(c, kept, r.id) then PushClosest(c, kept, r) else kept, heard + [r])
  {
    hide D;
    var heard' := heard + [r];
    forall i | 0 <= i < |kept|
      ensures FirstHeard(heard', kept[i])
    {
      HeardPrefix(heard, r, kept[i]);
    }
    if !IsCloser(c, kept, r.id) {
      var last := kept[|kept| - 1];
      if D(c, last.id) == D(c, r.id) {
        DInjective(c, last.id, r.id);
        assert HasId(kept, r.id);
      }
    } else {
      InsertReplyProperties(c, kept, r);
      if HasId(kept, r.id) {
        assert PushClosest(c, kept, r) == kept;
      } else {
        HearNew(c, kept, heard, r);
      }
    }
  }

  lemma HearNew(c: Config, kept: seq<Reply>, heard: seq<Reply>, r: Reply)
    requires ConfigOk(c) && IsTopK(c, kept, heard)
    requires IsCloser(c, kept, r.id) && !HasId(kept, r.id)
    ensures IsTopK(c, PushClosest(c, kept, r), heard + [r])
  {
    hide D;
    InsertReplyProperties(c, kept, r);
    var heard', t, kept' := heard + [r], InsertReply(c, kept, r), PushClosest(c, kept, r);
    forall i | 0 <= i < |kept'|
      ensures FirstHeard(heard', kept'[i])
    {
      assert t[i] == kept'[i] && t[i] in t;
      if kept'[i] == r {
        NewlyHeard(c, kept, heard, r);
      } else {
        assert kept'[i] in kept;
        HeardPrefix(heard, r, kept'[i]);
      }
    }
    forall i | 0 <= i < |heard'|
      ensures HasId(kept', heard'[i].id) || Beaten(c, kept', heard'[i].id)
    {
      PushCovers(c, kept, r, heard'[i].id);
    }
  }

  lemma NewlyHeard(c: Config, kept: seq<Reply>, heard: seq<Reply>, r: Reply)
    requires IsTopK(c, kept, heard) && IsCloser(c, kept, r.id) && !HasId(kept, r.id)
    ensures FirstHeard(heard + [r], r)
  {
    hide D;
    var heard' := heard + [r];
    assert heard'[..|heard|] == heard && heard'[|heard|] == r;
    assert !HasId(heard, r.id) by {
      forall i | 0 <= i < |heard|
        ensures heard[i].id != r.id
      {
        assert HasId(kept, heard[i].id) || Beaten(c, kept, heard[i].id);
      }
    }
  }

  lemma PushCovers(c: Config, kept: seq<Reply>, r: Reply, id: NodeId)
    requires ConfigOk(c) && Ascending(c, kept) && |kept| <= c.k
    requires IsCloser(c, kept, r.id) && !HasId(kept, r.id)
    requires id == r.id || HasId(kept, id) || Beaten(c, kept, id)
    ensures HasId(PushClosest(c, kept, r), id) || Beaten(c, PushClosest(c, kept, r), id)
  {
    hide D;
    InsertReplyProperties(c, kept, r);
    var t, kept' := InsertReply(c, kept, r), PushClosest(c, kept, r);
    if id == r.id || HasId(kept, id) {
      var x: Reply := r;
      if id != r.id {
        var i :| 0 <= i < |kept| && kept[i].id == id;
        x := kept[i];
      }
      assert x in t;
      var j :| 0 <= j < |t| && t[j] == x;
      if j < |kept'| {
        assert kept'[j].id == id;
      } else {
        assert D(c, t[j - 1].id) < D(c, t[j].id);
      }
    } else {
      assert D(c, t[|t| - 2].id) < D(c, t[|t| - 1].id);
    }
  }

  /** The characterisation has only one solution. */
  lemma {:induction false} TopKUnique(c: Config, a: seq<Reply>, b: seq<Reply>, heard: seq<Reply>)
    requires ConfigOk(c) && IsTopK(c, a, heard) && IsTopK(c, b, heard)
    ensures a == b
  {
    hide D;
    forall i | 0 <= i < |a| && i < |b|
      ensures a[i] == b[i]
    {
      TopKPrefix(c, a, b, heard, i + 1);
    }
    if |a| < |b| {
      TopKNotShorter(c, a, b, heard);
    }
    if |b| < |a| {
      TopKNotShorter(c, b, a, heard);
    }
  }

  lemma TopKNotShorter(c: Config, a: seq<Reply>, b: seq<Reply>, heard: seq<Reply>)
    requires ConfigOk(c) && IsTopK(c, a, heard) && IsTopK(c, b, heard)
    ensures |a| >= |b|
  {
    hide D;
    if |a| < |b| {
      TopKPrefix(c, a, b, heard, |a|);
      FirstHeardIsHeard(heard, b[|a|]);
    }
  }

  lemma FirstHeardIsHeard(heard: seq<Reply>, x: Reply)
    requires FirstHeard(heard, x)
    ensures exists i :: 0 <= i < |heard| && heard[i].id == x.id
  {
  }

  lemma FirstHeardUnique(heard: seq<Reply>, x: Reply, y: Reply)
    requires FirstHeard(heard, x) && FirstHeard(heard, y) && x.id == y.id
    ensures x == y
  {
    var i :| 0 <= i < |heard| && heard[i] == x && !HasId(heard[..i], x.id);
    var j :| 0 <= j < |heard| && heard[j] == y && !HasId(heard[..j], y.id);
    assert forall p :: 0 <= p < i ==> heard[..i][p] == heard[p];
    assert forall p :: 0 <= p < j ==> heard[..j][p] == heard[p];
  }

  lemma {:induction false} TopKPrefix(c: Config, a: seq<Reply>, b: seq<Reply>, heard: seq<Reply>, n: nat)
    requires ConfigOk(c) && IsTopK(c, a, heard) && IsTopK(c, b, heard)
    requires n <= |a| && n <= |b|
    ensures a[..n] == b[..n]
  {
    hide D;
    if n > 0 {
      TopKPrefix(c, a, b, heard, n - 1);
      TopKNext(c, a, b, heard, n - 1);
      TopKNext(c, b, a, heard, n - 1);
      if D(c, a[n - 1].id) == D(c, b[n - 1].id) {
        DInjective(c, a[n - 1].id, b[n - 1].id);
      }
      FirstHeardUnique(heard, a[n - 1], b[n - 1]);
      assert a[..n] == a[..n - 1] + [a[n - 1]] && b[..n] == b[..n - 1] + [b[n - 1]];
    }
  }

  /** Behind equal prefixes, the next entry of one is not farther than that of the other. */
  lemma TopKNext(c: Config, a: seq<Reply>, b: seq<Reply>, heard: seq<Reply>, n: nat)
    requires ConfigOk(c) && IsTopK(c, a, heard) && IsTopK(c, b, heard)
    requires n < |a| && n < |b| && a[..n] == b[..n]
    ensures D(c, b[n].id) <= D(c, a[n].id)
  {
    hide D;
    FirstHeardIsHeard(heard, a[n]);
    assert HasId(b, a[n].id) || Beaten(c, b, a[n].id);
    if HasId(b, a[n].id) {
      assert forall i :: 0 <= i < n ==> a[i] == a[..n][i] == b[..n][i] == b[i];
    } else {
      assert n < |b| - 1 ==> D(c, b[n].id) < D(c, b[|b| - 1].id);
    }
  }
}
