// The bounded frame-id deduper (fairyclaw/bridge/user_gateway.py, _RecentFrameSet) and its
// simple specification: the most recently added distinct ids.
module RecentFrames {
  type FrameId = nat

  function Without(ids: seq<FrameId>, x: FrameId): seq<FrameId> {
    if ids == [] then []
    else Without(ids[..|ids| - 1], x) + if ids[|ids| - 1] == x then [] else [ids[|ids| - 1]]
  }

  function Suffix<T>(s: seq<T>, n: nat): seq<T> {
    if |s| <= n then s else s[|s| - n..]
  }

  // One add to the ordered dictionary: move to the end, then evict from the front.
  function Added(data: seq<FrameId>, limit: nat, x: FrameId): seq<FrameId> {
    Suffix(Without(data, x) + [x], limit)
  }

  function AddedAll(limit: nat, log: seq<FrameId>): seq<FrameId> {
    if log == [] then [] else Added(AddedAll(limit, log[..|log| - 1]), limit, log[|log| - 1])
  }

  // The distinct ids of a log, ordered by their last occurrence.
  function Distinct(log: seq<FrameId>): seq<FrameId> {
    if log == [] then [] else Without(Distinct(log[..|log| - 1]), log[|log| - 1]) + [log[|log| - 1]]
  }

  function Ids(log: seq<FrameId>): set<FrameId> {
    set x | x in log
  }

  // What was added after the last occurrence of x.
  function AfterLast(log: seq<FrameId>, x: FrameId): seq<FrameId>
    requires x in log
  {
    if log[|log| - 1] == x then [] else AfterLast(log[..|log| - 1], x) + [log[|log| - 1]]
  }

  class RecentFrameSet {
    const limit: nat
    var data: seq<FrameId>

    constructor (bound: int)
      ensures data == [] && limit >= 1 && (bound >= 1 ==> limit == bound)
    {
      limit := if bound < 1 then 1 else bound;
      data := [];
    }

    method Add(x: FrameId)
      modifies this
      ensures data == Added(old(data), limit, x)
    {
      data := Without(data, x);
      data := data + [x];
      ghost var full := data;
      while |data| > limit
        invariant data == Suffix(full, |data|) && |data| <= |full|
        invariant |data| >= limit || data == full
      {
        data := data[1..];
      }
    }

    predicate Contains(x: FrameId)
      reads this
    {
      x in data
    }
  }

  // ---------- properties of the pieces ----------

  lemma {:induction false} WithoutMember(ids: seq<FrameId>, x: FrameId)
    ensures forall y :: y in Without(ids, x) <==> y in ids && y != x
    ensures |Without(ids, x)| <= |ids|
  {
    if ids != [] {
      WithoutMember(ids[..|ids| - 1], x);
      assert ids == ids[..|ids| - 1] + [ids[|ids| - 1]];
    }
  }

  lemma {:induction false} WithoutAbsent(ids: seq<FrameId>, x: FrameId)
    requires x !in ids
    ensures Without(ids, x) == ids
  {
    if ids != [] {
      WithoutAbsent(ids[..|ids| - 1], x);
    }
  }

  lemma {:induction false} WithoutConcat(a: seq<FrameId>, b: seq<FrameId>, x: FrameId)
    ensures Without(a + b, x) == Without(a, x) + Without(b, x)
    decreases |b|
  {
    if b == [] {
      assert a + b == a;
    } else {
      assert (a + b)[..|a + b| - 1] == a + b[..|b| - 1];
      WithoutConcat(a, b[..|b| - 1], x);
    }
  }

  ghost predicate NoDuplicates(s: seq<FrameId>) {
    forall i, j :: 0 <= i < j < |s| ==> s[i] != s[j]
  }

  lemma {:induction false} WithoutDistinct(ids: seq<FrameId>, x: FrameId)
    requires NoDuplicates(ids)
    ensures NoDuplicates(Without(ids, x))
    ensures x in ids ==> |Without(ids, x)| == |ids| - 1
  {
    if ids != [] {
      var front := ids[..|ids| - 1];
      WithoutDistinct(front, x);
      WithoutMember(front, x);
      assert ids[|ids| - 1] !in front;
      if ids[|ids| - 1] == x {
        WithoutAbsent(front, x);
      }
    }
  }

  lemma SnocDistinct(s: seq<FrameId>, x: FrameId)
    requires NoDuplicates(s) && x !in s
    ensures NoDuplicates(s + [x]) && Ids(s + [x]) == Ids(s) + {x}
  {
  }

  lemma {:induction false} DistinctMembers(log: seq<FrameId>)
    ensures NoDuplicates(Distinct(log)) && Ids(Distinct(log)) == Ids(log)
  {
    if log != [] {
      var front, x := log[..|log| - 1], log[|log| - 1];
      DistinctMembers(front);
      var rest := Without(Distinct(front), x);
      WithoutMember(Distinct(front), x);
      WithoutDistinct(Distinct(front), x);
      SnocDistinct(rest, x);
      SnocIds(front, x);
      assert log == front + [x];
      assert Ids(rest) == Ids(front) - {x};
    }
  }

  lemma SnocIds(s: seq<FrameId>, x: FrameId)
    ensures Ids(s + [x]) == Ids(s) + {x}
  {
  }

  lemma DistinctIds(log: seq<FrameId>)
    ensures NoDuplicates(Distinct(log)) && Ids(Distinct(log)) == Ids(log)
    ensures |Distinct(log)| == |Ids(log)|
  {
    DistinctMembers(log);
    DistinctCardinality(Distinct(log));
  }

  lemma {:induction false} DistinctCardinality(s: seq<FrameId>)
    requires NoDuplicates(s)
    ensures |Ids(s)| == |s|
  {
    if s != [] {
      var front, x := s[..|s| - 1], s[|s| - 1];
      DistinctCardinality(front);
      assert Ids(s) == Ids(front) + {x} && x !in front;
    }
  }

  // ---------- refinement ----------

  // Dropping an id commutes with keeping a suffix, up to one more element.
  lemma SuffixWithout(s: seq<FrameId>, n: nat, x: FrameId)
    requires NoDuplicates(s)
    ensures Suffix(Without(Suffix(s, n), x) + [x], n) == Suffix(Without(s, x) + [x], n)
  {
    if |s| > n {
      var head, tail := s[..|s| - n], s[|s| - n..];
      var kept := Without(tail, x) + [x];
      assert s == head + tail;
      WithoutConcat(head, tail, x);
      assert Without(s, x) + [x] == Without(head, x) + kept;
      WithoutAtMostOne(tail, x);
      SuffixConcat(Without(head, x), kept, n);
    }
  }

  lemma WithoutAtMostOne(ids: seq<FrameId>, x: FrameId)
    requires NoDuplicates(ids)
    ensures |Without(ids, x)| + 1 >= |ids|
  {
    if x in ids {
      WithoutDistinct(ids, x);
    } else {
      WithoutAbsent(ids, x);
    }
  }

  lemma SuffixConcat(a: seq<FrameId>, b: seq<FrameId>, n: nat)
    requires n <= |b|
    ensures Suffix(a + b, n) == Suffix(b, n)
  {
  }

  // After any sequence of adds the deduper holds exactly the limit most recently added
  // distinct ids, ordered by last add.
  lemma {:induction false} RecentRefinement(limit: nat, log: seq<FrameId>)
    ensures AddedAll(limit, log) == Suffix(Distinct(log), limit)
  {
    if log != [] {
      var front := log[..|log| - 1];
      RecentRefinement(limit, front);
      DistinctIds(front);
      SuffixWithout(Distinct(front), limit, log[|log| - 1]);
    }
  }

  // Behind the last occurrence of x, the distinct ids are those added since.
  lemma {:induction false} DistinctSplit(log: seq<FrameId>, x: FrameId)
    requires x in log
    ensures x !in AfterLast(log, x)
    ensures |Distinct(AfterLast(log, x))| < |Distinct(log)|
    ensures Distinct(log)[|Distinct(log)| - |Distinct(AfterLast(log, x))| - 1..] == [x] + Distinct(AfterLast(log, x))
  {
    var front, y := log[..|log| - 1], log[|log| - 1];
    if y != x {
      assert x in front;
      DistinctSplit(front, x);
      var since, all := AfterLast(front, x), Distinct(front);
      var head := all[..|all| - |Distinct(since)| - 1];
      assert all == head + ([x] + Distinct(since));
      assert AfterLast(log, x)[..|since|] == since;
      WithoutConcat(head, [x] + Distinct(since), y);
      WithoutConcat([x], Distinct(since), y);
      WithoutAbsent([x], y);
      assert Distinct(log) == Without(head, y) + ([x] + Distinct(AfterLast(log, x)));
    }
  }

  // An id is a member exactly when it was added and fewer than limit distinct other ids were
  // added after it.
  lemma RecentMember(limit: nat, log: seq<FrameId>, x: FrameId)
    requires limit >= 1
    ensures x in AddedAll(limit, log) <==> x in log && |Ids(AfterLast(log, x))| < limit
  {
    RecentRefinement(limit, log);
    DistinctIds(log);
    var all := Distinct(log);
    assert x in log <==> x in Ids(log);
    assert x in all <==> x in Ids(all);
    if x in log {
      DistinctSplit(log, x);
      DistinctIds(AfterLast(log, x));
      var p := |all| - |Distinct(AfterLast(log, x))| - 1;
      assert all[p] == all[p..][0] == x;
      if |all| > limit {
        assert p >= |all| - limit ==> Suffix(all, limit)[p - (|all| - limit)] == x;
        if x in Suffix(all, limit) {
          var i :| 0 <= i < limit && Suffix(all, limit)[i] == x;
          assert all[|all| - limit + i] == x;
        }
      }
    }
  }
}
