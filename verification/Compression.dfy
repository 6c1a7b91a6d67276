// The context compression hook (fairyclaw/capabilities/compression_hooks/scripts/
// context_compression.py): what each phase computes, and the hook run in place on the
// session's unload store.
module Compression {
  import opened Wrappers
  import opened History
  import opened UnloadStore

  // The parts of the system the hook calls and this model leaves open: the token count of the
  // prompt rebuilt from a history, image recompression, the rendering of a file reference, and
  // the two digests.
  datatype Env = Env(
    tokens: seq<Item> -> int,
    recompress: string -> string,
    fileText: (string, string) -> string,
    fingerprint: Segment -> string,
    unloadDigest: (Role, nat, seq<Segment>) -> string)

  datatype Config = Config(
    recencyWindow: int,
    toolResultMaxChars: int,
    assistantMaxChars: int,
    guardMessages: int)

  const MARKER := "image context unloaded:"

  // One image message unloaded in a run.
  datatype Unload = Unload(id: string, role: Role, index: nat, segments: seq<Segment>, placeholder: string)

  // ---------- protected regions ----------

  // Past the first user message; 0 if there is none.
  function FirstUserEnd(items: seq<Item>): nat {
    if items == [] then 0
    else if items[0].Message? && items[0].role.UserRole? then 1
    else
      var rest := FirstUserEnd(items[1..]);
      if rest == 0 then 0 else rest + 1
  }

  function TrailingTools(items: seq<Item>): nat {
    if items == [] || items[|items| - 1].Message? then 0 else 1 + TrailingTools(items[..|items| - 1])
  }

  // The last message with its trailing tool rounds, or everything if there is no message.
  function SuffixLength(items: seq<Item>): nat {
    var tools := TrailingTools(items);
    if tools < |items| then tools + 1 else tools
  }

  method LatestTurnSuffixLength(items: seq<Item>) returns (length: nat)
    ensures length == SuffixLength(items)
  {
    var n := |items|;
    if n == 0 {
      return 0;
    }
    TrailingBound(items);
    var start := n - 1;
    assert items[..n] == items;
    while start >= 0 && items[start].ToolRound?
      invariant -1 <= start < n
      invariant TrailingTools(items) == n - 1 - start + TrailingTools(items[..start + 1])
    {
      assert items[..start + 1][..start] == items[..start];
      start := start - 1;
    }
    if start >= 0 && items[start].Message? {
      return n - start;
    }
    return n - start - 1;
  }

  lemma {:induction false} TrailingBound(items: seq<Item>)
    ensures TrailingTools(items) <= |items|
    ensures forall k :: |items| - TrailingTools(items) <= k < |items| ==> items[k].ToolRound?
    ensures TrailingTools(items) < |items| ==> items[|items| - 1 - TrailingTools(items)].Message?
  {
    if items != [] && items[|items| - 1].ToolRound? {
      TrailingBound(items[..|items| - 1]);
    }
  }

  // ---------- truncation ----------

  function TruncateText(text: string, maxChars: int): string {
    if maxChars <= 0 || |text| <= maxChars then text
    else RStrip(text[..maxChars]) + "\n...[truncated]"
  }

  function RecompressSegment(env: Env, s: Segment): Segment {
    if s.Image? then Image(env.recompress(s.url)) else s
  }

  function RecompressAll(env: Env, segments: seq<Segment>): seq<Segment> {
    seq(|segments|, k requires 0 <= k < |segments| => RecompressSegment(env, segments[k]))
  }

  function Recompress(env: Env, item: Item): Item {
    if item.Message? && item.body.SegmentsBody? then
      item.(body := SegmentsBody(RecompressAll(env, item.body.segments)))
    else item
  }

  function TruncateItem(env: Env, cfg: Config, item: Item): Item {
    match item
    case ToolRound(_, _, args, result, _) =>
      item.(toolResult := TruncateText(result, cfg.toolResultMaxChars),
            argumentsJson := TruncateText(args, cfg.toolResultMaxChars))
    case Message(role, body) =>
      var plain := PlainText(env.fileText, body);
      var truncated := TruncateText(plain, cfg.assistantMaxChars);
      if role.AssistantRole? && truncated != plain then Message(role, TextBody(truncated)) else item
  }

  // Position k of the history as _truncate_large_items leaves it.
  function TruncatedAt(env: Env, cfg: Config, items: seq<Item>, headKeep: nat, k: nat): Item
    requires k < |items|
  {
    var item := Recompress(env, items[k]);
    if k >= |items| - SuffixLength(items) || k < headKeep then item else TruncateItem(env, cfg, item)
  }

  function Truncated(env: Env, cfg: Config, items: seq<Item>, headKeep: nat): seq<Item> {
    seq(|items|, k requires 0 <= k < |items| => TruncatedAt(env, cfg, items, headKeep, k))
  }

  method TruncateLargeItems(env: Env, cfg: Config, items: seq<Item>, headKeep: nat) returns (truncated: seq<Item>)
    ensures truncated == Truncated(env, cfg, items, headKeep)
  {
    if items == [] {
      return [];
    }
    var protect := LatestTurnSuffixLength(items);
    var firstProtected := |items| - protect;
    truncated := [];
    var k := 0;
    while k < |items|
      invariant k == |truncated| <= |items|
      invariant forall i :: 0 <= i < k ==> truncated[i] == TruncatedAt(env, cfg, items, headKeep, i)
    {
      var item := Recompress(env, items[k]);
      if k >= firstProtected || k < headKeep {
        truncated := truncated + [item];
      } else {
        truncated := truncated + [TruncateItem(env, cfg, item)];
      }
      k := k + 1;
    }
  }

  // ---------- recency ----------

  // Where the kept tail starts when the first n items are still to be visited and seen
  // messages have been.
  function TailStart(items: seq<Item>, n: nat, seen: nat, limit: int): nat
    requires n <= |items|
  {
    if n == 0 then 0
    else if items[n - 1].Message? then
      if seen + 1 >= limit then n - 1 else TailStart(items, n - 1, seen + 1, limit)
    else TailStart(items, n - 1, seen, limit)
  }

  method KeepRecentHistory(items: seq<Item>, limit: int) returns (kept: seq<Item>, tailStart: nat)
    ensures tailStart == TailStart(items, |items|, 0, limit) <= |items| && kept == items[tailStart..]
  {
    kept := [];
    var seen := 0;
    var n := |items|;
    while n > 0
      invariant 0 <= n <= |items| && seen >= 0 && kept == items[n..]
      invariant TailStart(items, |items|, 0, limit) == TailStart(items, n, seen, limit)
    {
      var item := items[n - 1];
      kept := [item] + kept;
      n := n - 1;
      if item.Message? {
        seen := seen + 1;
        if seen >= limit {
          break;
        }
      }
    }
    tailStart := |items| - |kept|;
  }

  // The history after the recency phase.
  function Recent(cfg: Config, isSub: bool, items: seq<Item>): seq<Item> {
    var tail := TailStart(items, |items|, 0, cfg.recencyWindow);
    var pe := FirstUserEnd(items);
    TailBound(items, |items|, 0, cfg.recencyWindow);
    FirstUserBound(items);
    if isSub && pe > 0 then items[..pe] + items[(if pe > tail then pe else tail)..] else items[tail..]
  }

  lemma {:induction false} TailBound(items: seq<Item>, n: nat, seen: nat, limit: int)
    requires n <= |items|
    ensures TailStart(items, n, seen, limit) <= n
    decreases n
  {
    if n > 0 {
      TailBound(items, n - 1, seen + 1, limit);
      TailBound(items, n - 1, seen, limit);
    }
  }

  lemma {:induction false} FirstUserBound(items: seq<Item>)
    ensures FirstUserEnd(items) <= |items|
    ensures FirstUserEnd(items) > 0 ==>
      items[FirstUserEnd(items) - 1].Message? && items[FirstUserEnd(items) - 1].role.UserRole?
    ensures forall k :: 0 <= k < FirstUserEnd(items) - 1 ==> !(items[k].Message? && items[k].role.UserRole?)
    ensures FirstUserEnd(items) == 0 ==> forall k :: 0 <= k < |items| ==> !(items[k].Message? && items[k].role.UserRole?)
  {
    if items != [] && !(items[0].Message? && items[0].role.UserRole?) {
      FirstUserBound(items[1..]);
      assert forall k :: 0 < k < |items| ==> items[k] == items[1..][k - 1];
    }
  }

  // ---------- unloading images ----------

  function Decimal(n: nat): string {
    if n < 10 then [('0' as int + n) as char] else Decimal(n / 10) + [('0' as int + n % 10) as char]
  }

  function Placeholder(id: string, images: nat): string {
    "[" + MARKER + " unload_id=" + id + "; images=" + Decimal(images) + "; use reload_unloaded_segments to restore]"
  }

  function MessagesAfter(items: seq<Item>, index: nat): nat
    requires index < |items|
    decreases |items| - index
  {
    if index + 1 == |items| then 0
    else (if items[index + 1].Message? then 1 else 0) + MessagesAfter(items, index + 1)
  }

  // A recently restored image close to the end of the history is left alone.
  predicate Guarded(env: Env, recent: set<string>, s: Segment, close: bool) {
    env.fingerprint(s) in recent && close
  }

  predicate Unloads(env: Env, recent: set<string>, s: Segment, close: bool) {
    s.Image? && !Guarded(env, recent, s, close)
  }

  function ToUnload(env: Env, recent: set<string>, segments: seq<Segment>, close: bool): seq<Segment> {
    if segments == [] then []
    else
      var last := segments[|segments| - 1];
      ToUnload(env, recent, segments[..|segments| - 1], close)
      + if Unloads(env, recent, last, close) then [last] else []
  }

  function ToKeep(env: Env, recent: set<string>, segments: seq<Segment>, close: bool): seq<Segment> {
    if segments == [] then []
    else
      var last := segments[|segments| - 1];
      ToKeep(env, recent, segments[..|segments| - 1], close)
      + if Unloads(env, recent, last, close) then [] else [last]
  }

  predicate CloseToEnd(items: seq<Item>, index: nat, guard: int)
    requires index < |items|
  {
    MessagesAfter(items, index) < if guard < 0 then 0 else guard
  }

  // What unloading position index does: the replacement item and the record written.
  function Unloaded(env: Env, recent: set<string>, items: seq<Item>, index: nat, guard: int): Option<(Item, Unload)>
    requires index < |items|
  {
    var item := items[index];
    if !item.Message? || !item.body.SegmentsBody? then None
    else
      var close := CloseToEnd(items, index, guard);
      var gone := ToUnload(env, recent, item.body.segments, close);
      if gone == [] then None
      else
        var id := "imgu_" + env.unloadDigest(item.role, index, gone);
        var placeholder := Placeholder(id, |gone|);
        var rebuilt := FromSegments(item.role, ToKeep(env, recent, item.body.segments, close) + [Text(placeholder)]);
        Some((rebuilt.value, Unload(id, item.role, index, gone, placeholder)))
  }

  function UnloadRecord(u: Unload): Record {
    Record(u.id, u.role, u.segments, u.placeholder, u.index, false)
  }

  method PartitionImages(env: Env, recent: set<string>, segments: seq<Segment>, close: bool)
    returns (kept: seq<Segment>, gone: seq<Segment>)
    ensures kept == ToKeep(env, recent, segments, close)
    ensures gone == ToUnload(env, recent, segments, close)
  {
    kept, gone := [], [];
    var k := 0;
    while k < |segments|
      invariant k <= |segments|
      invariant gone == ToUnload(env, recent, segments[..k], close)
      invariant kept == ToKeep(env, recent, segments[..k], close)
    {
      assert segments[..k + 1][..k] == segments[..k];
      if segments[k].Image? && !Guarded(env, recent, segments[k], close) {
        gone := gone + [segments[k]];
      } else {
        kept := kept + [segments[k]];
      }
      k := k + 1;
    }
    assert segments[..|segments|] == segments;
  }

  // _replace_images_with_unload_placeholder
  method ReplaceImages(store: UnloadedSegmentsState, env: Env, recent: set<string>, items: seq<Item>, index: nat,
                       guard: int)
    returns (rebuilt: Option<(Item, Unload)>)
    requires index < |items|
    modifies store
    ensures rebuilt == Unloaded(env, recent, items, index, guard)
    ensures store.records ==
      if rebuilt.Some? then Appended(old(store.records), UnloadRecord(rebuilt.value.1)) else old(store.records)
  {
    var item := items[index];
    if !item.Message? || !item.body.SegmentsBody? {
      return None;
    }
    var kept, gone := PartitionImages(env, recent, item.body.segments, CloseToEnd(items, index, guard));
    if gone == [] {
      return None;
    }
    var id := "imgu_" + env.unloadDigest(item.role, index, gone);
    var placeholder := Placeholder(id, |gone|);
    store.AppendRecord(Record(id, item.role, gone, placeholder, index, false));
    var block := FromSegments(item.role, kept + [Text(placeholder)]);
    rebuilt := Some((block.value, Unload(id, item.role, index, gone, placeholder)));
  }

  // The first position from k on that can be unloaded.
  function FirstUnload(env: Env, recent: set<string>, items: seq<Item>, k: nat, end: nat, guard: int): Option<nat>
    requires end <= |items|
    decreases end - k
  {
    if k >= end then None
    else if Unloaded(env, recent, items, k, guard).Some? then Some(k)
    else FirstUnload(env, recent, items, k + 1, end, guard)
  }

  lemma {:induction false} FirstUnloadFits(env: Env, recent: set<string>, items: seq<Item>, k: nat, end: nat, guard: int)
    requires end <= |items|
    ensures var at := FirstUnload(env, recent, items, k, end, guard);
            at.Some? ==> k <= at.value < end && Unloaded(env, recent, items, at.value, guard).Some?
    decreases end - k
  {
    if k < end {
      FirstUnloadFits(env, recent, items, k + 1, end, guard);
    }
  }

  // _unload_oldest_image_message
  function UnloadedOldest(env: Env, records: seq<Record>, items: seq<Item>, prefix: nat, guard: int)
    : Option<(seq<Item>, Unload)>
  {
    TrailingBound(items);
    var recent := RestoredFingerprints(env.fingerprint, records);
    var end := |items| - SuffixLength(items);
    FirstUnloadFits(env, recent, items, prefix, end, guard);
    match FirstUnload(env, recent, items, prefix, end, guard)
    case None => None
    case Some(k) =>
      var (item, u) := Unloaded(env, recent, items, k, guard).value;
      Some((items[k := item], u))
  }

  method UnloadOldestImageMessage(store: UnloadedSegmentsState, env: Env, items: seq<Item>, prefix: nat, guard: int)
    returns (patched: Option<(seq<Item>, Unload)>)
    modifies store
    ensures patched == UnloadedOldest(env, old(store.records), items, prefix, guard)
    ensures store.records ==
      if patched.Some? then Appended(old(store.records), UnloadRecord(patched.value.1)) else old(store.records)
  {
    if items == [] {
      return None;
    }
    TrailingBound(items);
    var protect := LatestTurnSuffixLength(items);
    var end := |items| - protect;
    var recent := RestoredFingerprints(env.fingerprint, store.records);
    var k := prefix;
    while k < end
      invariant store.records == old(store.records)
      invariant FirstUnload(env, recent, items, prefix, end, guard) == FirstUnload(env, recent, items, k, end, guard)
      decreases end - k
    {
      var rebuilt := ReplaceImages(store, env, recent, items, k, guard);
      if rebuilt.Some? {
        return Some((items[k := rebuilt.value.0], rebuilt.value.1));
      }
      k := k + 1;
    }
    return None;
  }

  // ---------- the two budget loops ----------

  function ImagesIn(segments: seq<Segment>): nat {
    if segments == [] then 0 else (if segments[0].Image? then 1 else 0) + ImagesIn(segments[1..])
  }

  function ItemImages(item: Item): nat {
    if item.Message? && item.body.SegmentsBody? then ImagesIn(item.body.segments) else 0
  }

  function ImageCount(items: seq<Item>): nat {
    if items == [] then 0 else ItemImages(items[0]) + ImageCount(items[1..])
  }

  lemma {:induction false} ImagesConcat(a: seq<Segment>, b: seq<Segment>)
    ensures ImagesIn(a + b) == ImagesIn(a) + ImagesIn(b)
  {
    if a == [] {
      assert a + b == b;
    } else {
      assert (a + b)[1..] == a[1..] + b;
      ImagesConcat(a[1..], b);
    }
  }

  lemma {:induction false} ImagesSplit(env: Env, recent: set<string>, segments: seq<Segment>, close: bool)
    ensures ImagesIn(ToKeep(env, recent, segments, close)) + |ToUnload(env, recent, segments, close)| == ImagesIn(segments)
  {
    if segments != [] {
      var front, last := segments[..|segments| - 1], segments[|segments| - 1];
      ImagesSplit(env, recent, front, close);
      ImagesConcat(front, [last]);
      assert front + [last] == segments;
      ImagesConcat(ToKeep(env, recent, front, close), [last]);
      assert ToKeep(env, recent, front, close) + [] == ToKeep(env, recent, front, close);
    }
  }

  lemma {:induction false} ImageCountUpdate(items: seq<Item>, k: nat, item: Item)
    requires k < |items|
    ensures ImageCount(items[k := item]) + ItemImages(items[k]) == ImageCount(items) + ItemImages(item)
  {
    if k == 0 {
      assert items[0 := item][1..] == items[1..];
    } else {
      assert items[k := item][1..] == items[1..][k - 1 := item];
      ImageCountUpdate(items[1..], k - 1, item);
    }
  }

  // Every unload removes at least one image.
  lemma UnloadDropsImages(env: Env, records: seq<Record>, items: seq<Item>, prefix: nat, guard: int)
    requires UnloadedOldest(env, records, items, prefix, guard).Some?
    ensures ImageCount(UnloadedOldest(env, records, items, prefix, guard).value.0) < ImageCount(items)
  {
    var recent := RestoredFingerprints(env.fingerprint, records);
    TrailingBound(items);
    FirstUnloadFits(env, recent, items, prefix, |items| - SuffixLength(items), guard);
    var k := FirstUnload(env, recent, items, prefix, |items| - SuffixLength(items), guard).value;
    var close, segments := CloseToEnd(items, k, guard), items[k].body.segments;
    var (item, u) := Unloaded(env, recent, items, k, guard).value;
    ImagesSplit(env, recent, segments, close);
    ImagesConcat(ToKeep(env, recent, segments, close), [Text(u.placeholder)]);
    ImageCountUpdate(items, k, item);
  }

  // The history, the store and the unloads when the first loop is over.
  function UnloadLoop(env: Env, cfg: Config, budget: int, prefix: nat, records: seq<Record>, items: seq<Item>)
    : (seq<Item>, seq<Record>, seq<Unload>)
    decreases ImageCount(items)
  {
    if env.tokens(items) <= budget then (items, records, [])
    else
      match UnloadedOldest(env, records, items, prefix, cfg.guardMessages)
      case None => (items, records, [])
      case Some((patched, u)) =>
        UnloadDropsImages(env, records, items, prefix, cfg.guardMessages);
        var (rest, store, unloads) :=
          UnloadLoop(env, cfg, budget, prefix, Appended(records, UnloadRecord(u)), patched);
        (rest, store, [u] + unloads)
  }

  predicate Droppable(env: Env, item: Item) {
    item.Message? ==> !Contains(PlainText(env.fileText, item.body), MARKER)
  }

  function FirstDroppable(env: Env, items: seq<Item>, k: nat, end: nat): Option<nat>
    requires end <= |items|
    decreases end - k
  {
    if k >= end then None
    else if Droppable(env, items[k]) then Some(k)
    else FirstDroppable(env, items, k + 1, end)
  }

  lemma {:induction false} FirstDroppableFits(env: Env, items: seq<Item>, k: nat, end: nat)
    requires end <= |items|
    ensures var at := FirstDroppable(env, items, k, end);
            && (at.Some? ==> k <= at.value < end && Droppable(env, items[at.value]))
            && (at.None? ==> forall i :: k <= i < end ==> !Droppable(env, items[i]))
    decreases end - k
  {
    if k < end {
      FirstDroppableFits(env, items, k + 1, end);
    }
  }

  // _find_droppable_index
  method FindDroppableIndex(env: Env, items: seq<Item>, start: nat) returns (at: Option<nat>)
    ensures SuffixLength(items) <= |items| && at == FirstDroppable(env, items, start, |items| - SuffixLength(items))
  {
    TrailingBound(items);
    var protect := LatestTurnSuffixLength(items);
    var firstProtected := |items| - protect;
    var k := start;
    while k < firstProtected
      invariant FirstDroppable(env, items, start, firstProtected) == FirstDroppable(env, items, k, firstProtected)
      decreases firstProtected - k
    {
      if !items[k].Message? {
        return Some(k);
      }
      if !Contains(PlainText(env.fileText, items[k].body), MARKER) {
        return Some(k);
      }
      k := k + 1;
    }
    return None;
  }

  function Without(items: seq<Item>, k: nat): seq<Item>
    requires k < |items|
  {
    items[..k] + items[k + 1..]
  }

  function DropLoop(env: Env, budget: int, prefix: nat, items: seq<Item>): seq<Item>
    decreases |items|
  {
    TrailingBound(items);
    if |items| <= prefix + SuffixLength(items) || env.tokens(items) <= budget then items
    else
      FirstDroppableFits(env, items, prefix, |items| - SuffixLength(items));
      match FirstDroppable(env, items, prefix, |items| - SuffixLength(items))
      case None => items
      case Some(k) => DropLoop(env, budget, prefix, Without(items, k))
  }

  // ---------- the hook ----------

  datatype Outcome = Skip | Compressed(history: seq<Item>)

  function AfterTruncation(env: Env, cfg: Config, isSub: bool, items: seq<Item>): seq<Item> {
    Truncated(env, cfg, items, if isSub then FirstUserEnd(items) else 0)
  }

  function AfterRecency(env: Env, cfg: Config, isSub: bool, items: seq<Item>): seq<Item> {
    Recent(cfg, isSub, AfterTruncation(env, cfg, isSub, items))
  }

  function SubPrefix(isSub: bool, items: seq<Item>): nat {
    if isSub then FirstUserEnd(items) else 0
  }

  // The outcome, the store afterwards and the unloads of one run of the hook; promptTokens is
  // the token count of the prompt as it came in.
  function HookResult(env: Env, cfg: Config, isSub: bool, budget: int, promptTokens: int,
                      records: seq<Record>, items: seq<Item>): (Outcome, seq<Record>, seq<Unload>)
  {
    if budget <= 0 || promptTokens <= budget then (Skip, records, [])
    else
      var truncated := AfterTruncation(env, cfg, isSub, items);
      if env.tokens(truncated) <= budget then (Compressed(truncated), records, [])
      else
        var recent := AfterRecency(env, cfg, isSub, items);
        if env.tokens(recent) <= budget then (Compressed(recent), records, [])
        else
          var prefix := SubPrefix(isSub, recent);
          var (unloaded, store, unloads) := UnloadLoop(env, cfg, budget, prefix, records, recent);
          (Compressed(DropLoop(env, budget, prefix, unloaded)), store, unloads)
  }

  method RunUnloadLoop(store: UnloadedSegmentsState, env: Env, cfg: Config, budget: int, prefix: nat, items: seq<Item>)
    returns (history: seq<Item>)
    modifies store
    ensures history == UnloadLoop(env, cfg, budget, prefix, old(store.records), items).0
    ensures store.records == UnloadLoop(env, cfg, budget, prefix, old(store.records), items).1
  {
    history := items;
    while env.tokens(history) > budget
      invariant UnloadLoop(env, cfg, budget, prefix, old(store.records), items).0
             == UnloadLoop(env, cfg, budget, prefix, store.records, history).0
      invariant UnloadLoop(env, cfg, budget, prefix, old(store.records), items).1
             == UnloadLoop(env, cfg, budget, prefix, store.records, history).1
      decreases ImageCount(history)
    {
      ghost var was := store.records;
      var patched := UnloadOldestImageMessage(store, env, history, prefix, cfg.guardMessages);
      if patched.None? {
        break;
      }
      UnloadDropsImages(env, was, history, prefix, cfg.guardMessages);
      history := patched.value.0;
    }
  }

  method RunDropLoop(env: Env, budget: int, prefix: nat, items: seq<Item>) returns (history: seq<Item>)
    ensures history == DropLoop(env, budget, prefix, items)
  {
    history := items;
    while true
      invariant DropLoop(env, budget, prefix, items) == DropLoop(env, budget, prefix, history)
      decreases |history|
    {
      var suffix := LatestTurnSuffixLength(history);
      if |history| <= prefix + suffix || env.tokens(history) <= budget {
        break;
      }
      var at := FindDroppableIndex(env, history, prefix);
      if at.None? {
        break;
      }
      FirstDroppableFits(env, history, prefix, |history| - suffix);
      history := history[..at.value] + history[at.value + 1..];
    }
  }

  method KeepRecent(cfg: Config, isSub: bool, items: seq<Item>) returns (history: seq<Item>)
    ensures history == Recent(cfg, isSub, items)
  {
    var tailStart;
    history, tailStart := KeepRecentHistory(items, cfg.recencyWindow);
    if isSub {
      var pe := FirstUserEnd(items);
      FirstUserBound(items);
      if pe > 0 {
        history := items[..pe] + items[(if pe > tailStart then pe else tailStart)..];
      }
    }
  }

  method ExecuteHook(store: UnloadedSegmentsState, env: Env, cfg: Config, isSub: bool, budget: int,
                     promptTokens: int, items: seq<Item>)
    returns (outcome: Outcome)
    modifies store
    ensures outcome == HookResult(env, cfg, isSub, budget, promptTokens, old(store.records), items).0
    ensures store.records == HookResult(env, cfg, isSub, budget, promptTokens, old(store.records), items).1
  {
    if budget <= 0 {
      return Skip;
    }
    if promptTokens <= budget {
      return Skip;
    }
    var history := TruncateLargeItems(env, cfg, items, if isSub then FirstUserEnd(items) else 0);
    if env.tokens(history) <= budget {
      return Compressed(history);
    }
    history := KeepRecent(cfg, isSub, history);
    if env.tokens(history) <= budget {
      return Compressed(history);
    }
    var prefix := if isSub then FirstUserEnd(history) else 0;
    history := RunUnloadLoop(store, env, cfg, budget, prefix, history);
    history := RunDropLoop(env, budget, prefix, history);
    return Compressed(history);
  }
}
