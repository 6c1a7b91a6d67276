// When two lists of images share a shortened digest: which histories and stores are safe from it,
// before the hook runs.
module UnloadCollisions {
  import opened Wrappers
  import opened History
  import opened UnloadStore
  import opened Compression
  import opened CompressionTheorems

  // ---------- what a run can come to unload ----------

  // The unloads until there is nothing left to unload.
  function Chain(env: Env, guard: int, prefix: nat, records: seq<Record>, items: seq<Item>): seq<Unload>
    decreases ImageCount(items)
  {
    match UnloadedOldest(env, records, items, prefix, guard)
    case None => []
    case Some((patched, u)) =>
      UnloadDropsImages(env, records, items, prefix, guard);
      [u] + Chain(env, guard, prefix, Appended(records, UnloadRecord(u)), patched)
  }

  // The unloads of a run that never gets within its budget; this depends on the store and the
  // history, not on token counts.
  function Planned(env: Env, cfg: Config, isSub: bool, records: seq<Record>, items: seq<Item>): seq<Unload> {
    var recent := AfterRecency(env, cfg, isSub, items);
    Chain(env, cfg.guardMessages, SubPrefix(isSub, recent), records, recent)
  }

  // A run's unloads are the first of them, and all of them if it stays over its budget.
  lemma {:induction false} LoopFollowsChain(env: Env, cfg: Config, budget: int, prefix: nat, records: seq<Record>,
                                            items: seq<Item>)
    ensures var unloads := UnloadLoop(env, cfg, budget, prefix, records, items).2;
            && unloads <= Chain(env, cfg.guardMessages, prefix, records, items)
            && ((forall any :: env.tokens(any) > budget) ==> unloads == Chain(env, cfg.guardMessages, prefix, records, items))
    decreases ImageCount(items)
  {
    if env.tokens(items) > budget && UnloadedOldest(env, records, items, prefix, cfg.guardMessages).Some? {
      var (patched, u) := UnloadedOldest(env, records, items, prefix, cfg.guardMessages).value;
      UnloadDropsImages(env, records, items, prefix, cfg.guardMessages);
      LoopFollowsChain(env, cfg, budget, prefix, Appended(records, UnloadRecord(u)), patched);
    }
  }

  lemma RunFollowsPlan(env: Env, cfg: Config, isSub: bool, budget: int, promptTokens: int,
                       records: seq<Record>, items: seq<Item>)
    ensures var unloads := HookResult(env, cfg, isSub, budget, promptTokens, records, items).2;
            && unloads <= Planned(env, cfg, isSub, records, items)
            && (promptTokens > budget > 0 && (forall any :: env.tokens(any) > budget) ==>
                  unloads == Planned(env, cfg, isSub, records, items))
  {
    var recent := AfterRecency(env, cfg, isSub, items);
    LoopFollowsChain(env, cfg, budget, SubPrefix(isSub, recent), records, recent);
  }

  // ---------- token counts decide nothing else ----------

  lemma {:induction false} SameParts(env: Env, other: Env, recent: set<string>, segments: seq<Segment>, close: bool)
    requires other == env.(tokens := other.tokens)
    ensures ToUnload(other, recent, segments, close) == ToUnload(env, recent, segments, close)
    ensures ToKeep(other, recent, segments, close) == ToKeep(env, recent, segments, close)
  {
    if segments != [] {
      SameParts(env, other, recent, segments[..|segments| - 1], close);
    }
  }

  lemma SameUnloaded(env: Env, other: Env, recent: set<string>, items: seq<Item>, k: nat, guard: int)
    requires other == env.(tokens := other.tokens) && k < |items|
    ensures Unloaded(other, recent, items, k, guard) == Unloaded(env, recent, items, k, guard)
  {
    if items[k].Message? && items[k].body.SegmentsBody? {
      SameParts(env, other, recent, items[k].body.segments, CloseToEnd(items, k, guard));
    }
  }

  lemma {:induction false} SameFirst(env: Env, other: Env, recent: set<string>, items: seq<Item>, k: nat, end: nat, guard: int)
    requires other == env.(tokens := other.tokens) && end <= |items|
    ensures FirstUnload(other, recent, items, k, end, guard) == FirstUnload(env, recent, items, k, end, guard)
    decreases end - k
  {
    if k < end {
      SameUnloaded(env, other, recent, items, k, guard);
      SameFirst(env, other, recent, items, k + 1, end, guard);
    }
  }

  lemma SameOldest(env: Env, other: Env, records: seq<Record>, items: seq<Item>, prefix: nat, guard: int)
    requires other == env.(tokens := other.tokens)
    ensures UnloadedOldest(other, records, items, prefix, guard) == UnloadedOldest(env, records, items, prefix, guard)
  {
    TrailingBound(items);
    var recent, end := RestoredFingerprints(env.fingerprint, records), |items| - SuffixLength(items);
    SameFirst(env, other, recent, items, prefix, end, guard);
    FirstUnloadFits(env, recent, items, prefix, end, guard);
    var at := FirstUnload(env, recent, items, prefix, end, guard);
    if at.Some? {
      SameUnloaded(env, other, recent, items, at.value, guard);
    }
  }

  lemma {:induction false} SameChain(env: Env, other: Env, guard: int, prefix: nat, records: seq<Record>, items: seq<Item>)
    requires other == env.(tokens := other.tokens)
    ensures Chain(other, guard, prefix, records, items) == Chain(env, guard, prefix, records, items)
    decreases ImageCount(items)
  {
    SameOldest(env, other, records, items, prefix, guard);
    var step := UnloadedOldest(env, records, items, prefix, guard);
    if step.Some? {
      UnloadDropsImages(env, records, items, prefix, guard);
      SameChain(env, other, guard, prefix, Appended(records, UnloadRecord(step.value.1)), step.value.0);
    }
  }

  lemma SameTruncated(env: Env, other: Env, cfg: Config, isSub: bool, items: seq<Item>)
    requires other == env.(tokens := other.tokens)
    ensures AfterTruncation(other, cfg, isSub, items) == AfterTruncation(env, cfg, isSub, items)
  {
    forall k | 0 <= k < |items| ensures Recompress(other, items[k]) == Recompress(env, items[k]) {
      if items[k].Message? && items[k].body.SegmentsBody? {
        var segments := items[k].body.segments;
        assert RecompressAll(other, segments) == RecompressAll(env, segments);
      }
    }
  }

  lemma SamePlan(env: Env, other: Env, cfg: Config, isSub: bool, records: seq<Record>, items: seq<Item>)
    requires other == env.(tokens := other.tokens)
    ensures Planned(other, cfg, isSub, records, items) == Planned(env, cfg, isSub, records, items)
  {
    SameTruncated(env, other, cfg, isSub, items);
    var recent := AfterRecency(env, cfg, isSub, items);
    SameChain(env, other, cfg.guardMessages, SubPrefix(isSub, recent), records, recent);
  }

  // ---------- safe whatever the token counts ----------

  ghost predicate AllRecoverable(env: Env, cfg: Config, isSub: bool, budget: int, promptTokens: int,
                                 records: seq<Record>, items: seq<Item>)
  {
    var (_, store, unloads) := HookResult(env, cfg, isSub, budget, promptTokens, records, items);
    forall u :: u in unloads ==> Recoverable(store, u)
  }

  lemma StartAvoids(records: seq<Record>, start: seq<Unload>, all: seq<Unload>)
    requires start <= all && NoCollision(records, all)
    ensures NoCollision(records, start)
  {
    forall u | u in start ensures u in all {
      assert all[..|start|] == start;
    }
  }

  lemma PlanCovers(env: Env, cfg: Config, isSub: bool, budget: int, promptTokens: int, records: seq<Record>,
                   items: seq<Item>)
    requires UniqueIds(records) && NoCollision(records, Planned(env, cfg, isSub, records, items))
    ensures AllRecoverable(env, cfg, isSub, budget, promptTokens, records, items)
  {
    RunFollowsPlan(env, cfg, isSub, budget, promptTokens, records, items);
    StartAvoids(records, HookResult(env, cfg, isSub, budget, promptTokens, records, items).2,
                Planned(env, cfg, isSub, records, items));
    RecoverableIff(env, cfg, isSub, budget, promptTokens, records, items);
  }

  // For a store and a history, every run unloads recoverably, whatever the token counts and the
  // budget, exactly if the unloads planned for them meet no other images under their ids.
  lemma RecoverableAlwaysIff(env: Env, cfg: Config, isSub: bool, records: seq<Record>, items: seq<Item>)
    requires UniqueIds(records)
    ensures (forall tokens, budget, promptTokens ::
               AllRecoverable(env.(tokens := tokens), cfg, isSub, budget, promptTokens, records, items))
       <==> NoCollision(records, Planned(env, cfg, isSub, records, items))
  {
    forall tokens, budget, promptTokens | NoCollision(records, Planned(env, cfg, isSub, records, items))
      ensures AllRecoverable(env.(tokens := tokens), cfg, isSub, budget, promptTokens, records, items)
    {
      SamePlan(env, env.(tokens := tokens), cfg, isSub, records, items);
      PlanCovers(env.(tokens := tokens), cfg, isSub, budget, promptTokens, records, items);
    }
    var over: seq<Item> -> int := _ => 2;
    if AllRecoverable(env.(tokens := over), cfg, isSub, 1, 2, records, items) {
      SamePlan(env, env.(tokens := over), cfg, isSub, records, items);
      RunFollowsPlan(env.(tokens := over), cfg, isSub, 1, 2, records, items);
      RecoverableIff(env.(tokens := over), cfg, isSub, 1, 2, records, items);
    }
  }

  // ---------- the plan, message by message ----------

  // No image counts as recently restored.
  ghost predicate Unguarded(guard: int, records: seq<Record>) {
    guard <= 0 || forall r :: r in records ==> !r.restored
  }

  // What unloading all images of position k does.
  function Whole(env: Env, items: seq<Item>, k: nat): Option<(Item, Unload)>
    requires k < |items|
  {
    Unloaded(env, {}, items, k, 0)
  }

  // One unload for each position from k on that has images, of all its images.
  function EachWhole(env: Env, items: seq<Item>, k: nat, end: nat): seq<Unload>
    requires end <= |items|
    decreases end - k
  {
    if k >= end then []
    else (if Whole(env, items, k).Some? then [Whole(env, items, k).value.1] else []) + EachWhole(env, items, k + 1, end)
  }

  lemma {:induction false} UnguardedParts(env: Env, recent: set<string>, segments: seq<Segment>, close: bool)
    requires !close || recent == {}
    ensures ToUnload(env, recent, segments, close) == ToUnload(env, {}, segments, false)
    ensures ToKeep(env, recent, segments, close) == ToKeep(env, {}, segments, false)
  {
    if segments != [] {
      UnguardedParts(env, recent, segments[..|segments| - 1], close);
    }
  }

  lemma UnguardedIsWhole(env: Env, records: seq<Record>, items: seq<Item>, k: nat, guard: int)
    requires k < |items| && Unguarded(guard, records)
    ensures Unloaded(env, RestoredFingerprints(env.fingerprint, records), items, k, guard) == Whole(env, items, k)
  {
    var recent := RestoredFingerprints(env.fingerprint, records);
    if items[k].Message? && items[k].body.SegmentsBody? {
      if guard > 0 {
        assert recent == {};
      }
      UnguardedParts(env, recent, items[k].body.segments, CloseToEnd(items, k, guard));
      assert !CloseToEnd(items, k, 0);
    }
  }

  lemma {:induction false} FirstIsWhole(env: Env, records: seq<Record>, items: seq<Item>, j: nat, k: nat, end: nat, guard: int)
    requires Unguarded(guard, records) && j <= k <= end <= |items|
    requires forall i :: j <= i < k ==> Whole(env, items, i).None?
    requires k < end ==> Whole(env, items, k).Some?
    ensures var recent := RestoredFingerprints(env.fingerprint, records);
            FirstUnload(env, recent, items, j, end, guard) == if k < end then Some(k) else None
    decreases end - j
  {
    if j < end {
      UnguardedIsWhole(env, records, items, j, guard);
      if j < k {
        FirstIsWhole(env, records, items, j + 1, k, end, guard);
      }
    }
  }

  lemma {:induction false} NoneToUnload(env: Env, segments: seq<Segment>)
    ensures ToUnload(env, {}, ToKeep(env, {}, segments, false), false) == []
  {
    if segments != [] {
      var front, last := segments[..|segments| - 1], segments[|segments| - 1];
      var kept := ToKeep(env, {}, front, false);
      NoneToUnload(env, front);
      if !last.Image? {
        assert (kept + [last])[..|kept|] == kept;
      } else {
        assert kept + [] == kept;
      }
    }
  }

  lemma WholeLeavesNone(env: Env, items: seq<Item>, k: nat)
    requires k < |items| && Whole(env, items, k).Some?
    ensures Whole(env, items[k := Whole(env, items, k).value.0], k).None?
    ensures forall j :: 0 <= j < |items| && j != k ==>
              Whole(env, items[k := Whole(env, items, k).value.0], j) == Whole(env, items, j)
  {
    var (item, u) := Whole(env, items, k).value;
    var segments := items[k].body.segments;
    var kept := ToKeep(env, {}, segments, false);
    assert !CloseToEnd(items, k, 0);
    NoneToUnload(env, segments);
    assert (kept + [Text(u.placeholder)])[..|kept|] == kept;
    assert ToUnload(env, {}, kept + [Text(u.placeholder)], false) == [];
    forall j | 0 <= j < |items| && j != k ensures Whole(env, items[k := item], j) == Whole(env, items, j) {
      assert !CloseToEnd(items, j, 0) && !CloseToEnd(items[k := item], j, 0);
    }
    assert !CloseToEnd(items[k := item], k, 0);
  }

  lemma {:induction false} SameWhole(env: Env, a: seq<Item>, b: seq<Item>, k: nat, end: nat)
    requires end <= |a| && |b| == |a| && forall j :: k <= j < end ==> Whole(env, a, j) == Whole(env, b, j)
    ensures EachWhole(env, a, k, end) == EachWhole(env, b, k, end)
    decreases end - k
  {
    if k < end {
      SameWhole(env, a, b, k + 1, end);
    }
  }

  lemma AppendUnguarded(guard: int, records: seq<Record>, u: Unload)
    requires Unguarded(guard, records)
    ensures Unguarded(guard, Appended(records, UnloadRecord(u)))
  {
    FindFirst(records, u.id);
    var after := Appended(records, UnloadRecord(u));
    if guard > 0 {
      forall r | r in after ensures !r.restored {
        var i :| 0 <= i < |after| && after[i] == r;
        if i < |records| {
          assert records[i] in records;
        }
      }
    }
  }

  ghost predicate NoneBetween(env: Env, items: seq<Item>, from: nat, to: nat)
    requires to <= |items|
  {
    forall i :: from <= i < to ==> Whole(env, items, i).None?
  }

  // The history after the whole of position k is unloaded.
  function WithoutWhole(env: Env, items: seq<Item>, k: nat): seq<Item>
    requires k < |items| && Whole(env, items, k).Some?
  {
    items[k := Whole(env, items, k).value.0]
  }

  lemma ChainUnfolds(env: Env, guard: int, prefix: nat, records: seq<Record>, items: seq<Item>)
    ensures var step := UnloadedOldest(env, records, items, prefix, guard);
            Chain(env, guard, prefix, records, items)
            == if step.None? then []
               else [step.value.1] + Chain(env, guard, prefix, Appended(records, UnloadRecord(step.value.1)), step.value.0)
  {
  }

  // The next step of the chain takes the first position with images whole.
  lemma OldestIsWhole(env: Env, guard: int, prefix: nat, records: seq<Record>, items: seq<Item>, k: nat)
    requires SuffixLength(items) <= |items| && prefix <= k <= |items| - SuffixLength(items) && Unguarded(guard, records)
    requires NoneBetween(env, items, prefix, k)
    requires k < |items| - SuffixLength(items) ==> Whole(env, items, k).Some?
    ensures UnloadedOldest(env, records, items, prefix, guard)
         == if k == |items| - SuffixLength(items) then None
            else Some((WithoutWhole(env, items, k), Whole(env, items, k).value.1))
  {
    var end := |items| - SuffixLength(items);
    FirstIsWhole(env, records, items, prefix, k, end, guard);
    if k < end {
      UnguardedIsWhole(env, records, items, k, guard);
    }
  }

  lemma WholeKeepsTail(env: Env, items: seq<Item>, k: nat)
    requires k + SuffixLength(items) < |items| && Whole(env, items, k).Some?
    ensures SuffixLength(WithoutWhole(env, items, k)) == SuffixLength(items)
  {
    UnloadedShows(env, {}, items, k, 0);
    UpdateKeepsTail(items, k, Whole(env, items, k).value.0);
  }

  lemma WholeStep(env: Env, items: seq<Item>, from: nat, k: nat, end: nat)
    requires k < |items| && end <= |items| && Whole(env, items, k).Some? && NoneBetween(env, items, from, k)
    ensures NoneBetween(env, WithoutWhole(env, items, k), from, k + 1)
    ensures EachWhole(env, WithoutWhole(env, items, k), k + 1, end) == EachWhole(env, items, k + 1, end)
  {
    WholeLeavesNone(env, items, k);
    SameWhole(env, items, WithoutWhole(env, items, k), k + 1, end);
  }

  // The chain, once position k is unloaded whole.
  lemma ChainTakes(env: Env, guard: int, prefix: nat, records: seq<Record>, items: seq<Item>, k: nat, rest: seq<Unload>)
    requires prefix <= k && k + SuffixLength(items) < |items| && Unguarded(guard, records)
    requires NoneBetween(env, items, prefix, k) && Whole(env, items, k).Some?
    requires rest == Chain(env, guard, prefix, Appended(records, UnloadRecord(Whole(env, items, k).value.1)),
                           WithoutWhole(env, items, k))
    ensures Chain(env, guard, prefix, records, items) == [Whole(env, items, k).value.1] + rest
  {
    OldestIsWhole(env, guard, prefix, records, items, k);
    ChainUnfolds(env, guard, prefix, records, items);
  }

  // Past the last message with images there is nothing to unload.
  lemma ChainStops(env: Env, guard: int, prefix: nat, records: seq<Record>, items: seq<Item>)
    requires SuffixLength(items) <= |items| && Unguarded(guard, records)
    requires NoneBetween(env, items, prefix, |items| - SuffixLength(items))
    ensures Chain(env, guard, prefix, records, items) == []
  {
    ChainUnfolds(env, guard, prefix, records, items);
    if prefix <= |items| - SuffixLength(items) {
      OldestIsWhole(env, guard, prefix, records, items, |items| - SuffixLength(items));
    }
  }

  lemma {:induction false} ChainIsEachWhole(env: Env, guard: int, prefix: nat, records: seq<Record>, items: seq<Item>,
                                            k: nat, end: nat)
    requires end + SuffixLength(items) == |items| && prefix <= k && (k == prefix || k <= end) && Unguarded(guard, records)
    requires k <= |items| && NoneBetween(env, items, prefix, k)
    ensures Chain(env, guard, prefix, records, items) == EachWhole(env, items, k, end)
    decreases end - k
  {
    if k >= end {
      ChainStops(env, guard, prefix, records, items);
    } else if Whole(env, items, k).None? {
      ChainIsEachWhole(env, guard, prefix, records, items, k + 1, end);
    } else {
      var u, patched := Whole(env, items, k).value.1, WithoutWhole(env, items, k);
      var after := Appended(records, UnloadRecord(u));
      assert Unguarded(guard, after) by {
        AppendUnguarded(guard, records, u);
      }
      assert SuffixLength(patched) == SuffixLength(items) by {
        WholeKeepsTail(env, items, k);
      }
      WholeStep(env, items, prefix, k, end);
      ChainIsEachWhole(env, guard, prefix, after, patched, k + 1, end);
      ChainTakes(env, guard, prefix, records, items, k, EachWhole(env, items, k + 1, end));
    }
  }

  // With no image recently restored, the plan has one unload for each message with images
  // between the kept head and the last block, in their order, of all its images.
  lemma PlanIsEachMessage(env: Env, cfg: Config, isSub: bool, records: seq<Record>, items: seq<Item>)
    requires Unguarded(cfg.guardMessages, records)
    ensures var recent := AfterRecency(env, cfg, isSub, items);
            && SuffixLength(recent) <= |recent|
            && Planned(env, cfg, isSub, records, items)
               == EachWhole(env, recent, SubPrefix(isSub, recent), |recent| - SuffixLength(recent))
  {
    var recent := AfterRecency(env, cfg, isSub, items);
    TrailingBound(recent);
    FirstUserBound(recent);
    var prefix := SubPrefix(isSub, recent);
    ChainIsEachWhole(env, cfg.guardMessages, prefix, records, recent, prefix, |recent| - SuffixLength(recent));
  }

  // ---------- a condition on the images alone ----------

  // Some of the images of one message, under the digest of its position.
  predicate Candidate(env: Env, items: seq<Item>, u: Unload) {
    && u.index < |items| && items[u.index].Message? && u.role == items[u.index].role
    && u.segments != [] && (forall s :: s in u.segments ==> s.Image?)
    && multiset(u.segments) <= multiset(Parts(items[u.index]))
    && u.id == "imgu_" + env.unloadDigest(u.role, u.index, u.segments)
  }

  // No two candidates share an id, and none shares one with a record of other images.
  ghost predicate Separated(env: Env, records: seq<Record>, items: seq<Item>) {
    && (forall u, v :: Candidate(env, items, u) && Candidate(env, items, v) && u.id == v.id ==>
          u.role == v.role && u.segments == v.segments)
    && (forall r, u :: r in records && Candidate(env, items, u) && r.unloadId == u.id ==> SameImages(r, u))
  }

  lemma ImagesBefore(a: seq<Segment>, b: seq<Segment>, us: seq<Unload>, images: seq<Segment>)
    requires Exchanges(a, b, us) && multiset(images) <= multiset(b) && forall s :: s in images ==> s.Image?
    ensures multiset(images) <= multiset(a)
  {
    var kept := b[..|b| - |us|];
    forall s | s in multiset(images) ensures multiset(images)[s] <= multiset(a)[s] {
      assert s in images && s !in Marks(us);
      assert multiset(b)[s] == multiset(kept)[s] + multiset(Marks(us))[s];
    }
  }

  lemma {:induction false} ToUnloadImages(env: Env, recent: set<string>, segments: seq<Segment>, close: bool)
    ensures forall s :: s in ToUnload(env, recent, segments, close) ==> s.Image?
  {
    if segments != [] {
      ToUnloadImages(env, recent, segments[..|segments| - 1], close);
    }
  }

  lemma OldestIsCandidate(env: Env, guard: int, prefix: nat, records: seq<Record>, items: seq<Item>)
    requires UnloadedOldest(env, records, items, prefix, guard).Some?
    ensures var (patched, u) := UnloadedOldest(env, records, items, prefix, guard).value;
            && Candidate(env, items, u) && |patched| == |items|
            && patched == items[u.index := patched[u.index]] && StripsTo(items[u.index], patched[u.index], [u])
  {
    var recent := RestoredFingerprints(env.fingerprint, records);
    TrailingBound(items);
    FirstUnloadFits(env, recent, items, prefix, |items| - SuffixLength(items), guard);
    var k := FirstUnload(env, recent, items, prefix, |items| - SuffixLength(items), guard).value;
    var segments, close := items[k].body.segments, CloseToEnd(items, k, guard);
    UnloadedShows(env, recent, items, k, guard);
    ToUnloadImages(env, recent, segments, close);
    KeptAndGone(env, recent, segments, close);
  }

  // What can be unloaded later could be before.
  lemma CandidateBefore(env: Env, items: seq<Item>, k: nat, item: Item, u: Unload, v: Unload)
    requires k < |items| && StripsTo(items[k], item, [u]) && Candidate(env, items[k := item], v)
    ensures Candidate(env, items, v)
  {
    if v.index == k {
      ImagesBefore(Parts(items[k]), Parts(item), [u], v.segments);
    }
  }

  lemma {:induction false} ChainCandidates(env: Env, guard: int, prefix: nat, records: seq<Record>, items: seq<Item>)
    ensures forall u :: u in Chain(env, guard, prefix, records, items) ==> Candidate(env, items, u)
    decreases ImageCount(items)
  {
    ChainUnfolds(env, guard, prefix, records, items);
    var step := UnloadedOldest(env, records, items, prefix, guard);
    if step.Some? {
      var (patched, u) := step.value;
      var rest := Chain(env, guard, prefix, Appended(records, UnloadRecord(u)), patched);
      UnloadDropsImages(env, records, items, prefix, guard);
      OldestIsCandidate(env, guard, prefix, records, items);
      ChainCandidates(env, guard, prefix, Appended(records, UnloadRecord(u)), patched);
      forall v | v in rest ensures Candidate(env, items, v) {
        CandidateBefore(env, items, u.index, patched[u.index], u, v);
      }
    }
  }

  // Recently restored images or not: if the digests of what the history could lose are all
  // different, and differ from the store's, every unload of every run is recoverable.
  lemma SeparatedRecovers(env: Env, cfg: Config, isSub: bool, budget: int, promptTokens: int, records: seq<Record>,
                          items: seq<Item>)
    requires UniqueIds(records) && Separated(env, records, AfterRecency(env, cfg, isSub, items))
    ensures AllRecoverable(env, cfg, isSub, budget, promptTokens, records, items)
  {
    var recent := AfterRecency(env, cfg, isSub, items);
    ChainCandidates(env, cfg.guardMessages, SubPrefix(isSub, recent), records, recent);
    PlanCovers(env, cfg, isSub, budget, promptTokens, records, items);
  }

  // ---------- two images under one digest ----------

  function TwoImages(a: string, b: string): seq<Item> {
    [Message(UserRole, SegmentsBody([Image(a)])), Message(UserRole, SegmentsBody([Image(b)])), Message(UserRole, TextBody("end"))]
  }

  lemma TwoImagesRecent(env: Env, cfg: Config, a: string, b: string)
    requires env.recompress(a) == a && env.recompress(b) == b && cfg.recencyWindow >= 3
    ensures AfterRecency(env, cfg, false, TwoImages(a, b)) == TwoImages(a, b) && SuffixLength(TwoImages(a, b)) == 1
  {
    var items := TwoImages(a, b);
    forall k | 0 <= k < 3 ensures TruncatedAt(env, cfg, items, 0, k) == items[k] {
      if items[k].body.SegmentsBody? {
        assert RecompressAll(env, items[k].body.segments) == items[k].body.segments;
      }
    }
    assert AfterTruncation(env, cfg, false, items) == items;
    assert TailStart(items, 1, 2, cfg.recencyWindow) == 0;
    assert TailStart(items, 2, 1, cfg.recencyWindow) == 0;
    assert TailStart(items, 3, 0, cfg.recencyWindow) == 0;
    assert items[0..] == items;
  }

  lemma OneImageWhole(env: Env, items: seq<Item>, k: nat, image: string)
    requires k < |items| && items[k] == Message(UserRole, SegmentsBody([Image(image)]))
    ensures Whole(env, items, k).Some?
    ensures var u := Whole(env, items, k).value.1;
            u.segments == [Image(image)] && u.role == UserRole && u.id == "imgu_" + env.unloadDigest(UserRole, k, u.segments)
  {
    assert [Image(image)][..0] == [];
    assert !CloseToEnd(items, k, 0);
    assert ToUnload(env, {}, [], false) == [];
    assert ToUnload(env, {}, [Image(image)], false) == [Image(image)];
  }

  // Two messages with one image each, of the same digest: a run that unloads both loses one.
  lemma SharedDigestLosesImage(env: Env, cfg: Config, budget: int, promptTokens: int, a: string, b: string)
    requires env.unloadDigest(UserRole, 0, [Image(a)]) == env.unloadDigest(UserRole, 1, [Image(b)]) && a != b
    requires env.recompress(a) == a && env.recompress(b) == b && cfg.recencyWindow >= 3
    requires promptTokens > budget > 0 && forall items :: env.tokens(items) > budget
    ensures !AllRecoverable(env, cfg, false, budget, promptTokens, [], TwoImages(a, b))
  {
    var items := TwoImages(a, b);
    TwoImagesRecent(env, cfg, a, b);
    PlanIsEachMessage(env, cfg, false, [], items);
    RunFollowsPlan(env, cfg, false, budget, promptTokens, [], items);
    RecoverableIff(env, cfg, false, budget, promptTokens, [], items);
    OneImageWhole(env, items, 0, a);
    OneImageWhole(env, items, 1, b);
    var u, v := Whole(env, items, 0).value.1, Whole(env, items, 1).value.1;
    assert EachWhole(env, items, 1, 2) == [v];
    assert EachWhole(env, items, 0, 2) == [u, v];
    assert u in [u, v] && v in [u, v] && u.segments[0] != v.segments[0];
  }

  function ConstantDigest(): Env {
    Env(_ => 2, url => url, (id, hint) => hint, _ => "", (role, index, segments) => "0")
  }

  // There are such runs: take a digest that is the same for everything.
  lemma ConstantDigestLosesImage(env: Env, cfg: Config, a: string, b: string)
    requires env == ConstantDigest() && cfg.recencyWindow >= 3 && a != b
    ensures !AllRecoverable(env, cfg, false, 1, 2, [], TwoImages(a, b))
  {
    SharedDigestLosesImage(env, cfg, 1, 2, a, b);
  }
}
