// Exactly what each phase of the compression hook does: how much is cut, which images go, how many
// items are dropped, and that no phase does more than the budget asks for.
module CompressionPhases {
  import opened Wrappers
  import opened History
  import opened UnloadStore
  import opened Compression
  import opened CompressionTheorems
  import opened UnloadCollisions

  // ---------- truncation ----------

  // A text longer than a positive limit is cut there, and further to where its last visible
  // character ends, and marked; any other stays.
  ghost predicate CutTo(text: string, maxChars: int, out: string) {
    if 0 < maxChars < |text| then exists n: nat :: EndsVisible(text, maxChars, n) && out == text[..n] + CUT_MARK
    else out == text
  }

  predicate EndsVisible(text: string, end: nat, n: nat) {
    && n <= end <= |text| && (n > 0 ==> !IsSpace(text[n - 1]))
    && forall i :: n <= i < end ==> IsSpace(text[i])
  }

  lemma TruncateCuts(text: string, maxChars: int)
    ensures CutTo(text, maxChars, TruncateText(text, maxChars))
  {
    if 0 < maxChars < |text| {
      var n := RStripIs(text[..maxChars]);
      assert text[..maxChars][..n] == text[..n];
      assert EndsVisible(text, maxChars, n);
    }
  }

  // Recompression replaces the images of a message, each in its place, and nothing else.
  lemma RecompressReplacesImages(env: Env, item: Item)
    ensures var out := Recompress(env, item);
            && (!item.Message? || item.body.TextBody? ==> out == item)
            && (item.Message? && item.body.SegmentsBody? ==>
                  && out.Message? && out.role == item.role && out.body.SegmentsBody?
                  && |Parts(out)| == |Parts(item)|
                  && forall k :: 0 <= k < |Parts(item)| ==>
                       Parts(out)[k] == if Parts(item)[k].Image? then Image(env.recompress(Parts(item)[k].url))
                                        else Parts(item)[k])
  {
  }

  // What truncation makes of an item outside head and tail, images already recompressed.
  ghost predicate TruncatesTo(env: Env, cfg: Config, a: Item, b: Item) {
    match a
    case ToolRound(name, call, args, result, success) =>
      && b.ToolRound? && b.toolName == name && b.callId == call && b.success == success
      && CutTo(args, cfg.toolResultMaxChars, b.argumentsJson) && CutTo(result, cfg.toolResultMaxChars, b.toolResult)
    case Message(role, body) =>
      if role.AssistantRole? && b != a then
        b.Message? && b.role == role && b.body.TextBody? && b.body.text != PlainText(env.fileText, body)
        && CutTo(PlainText(env.fileText, body), cfg.assistantMaxChars, b.body.text)
      else
        b == a && (role.AssistantRole? ==>
          CutTo(PlainText(env.fileText, body), cfg.assistantMaxChars, PlainText(env.fileText, body)))
  }

  // Truncation leaves head and tail, recompressed, and cuts every other item to its limit.
  lemma TruncationCuts(env: Env, cfg: Config, items: seq<Item>, headKeep: nat, k: nat)
    requires k < |items|
    ensures var a, b := Recompress(env, items[k]), Truncated(env, cfg, items, headKeep)[k];
            if k < headKeep || k >= |items| - SuffixLength(items) then b == a else TruncatesTo(env, cfg, a, b)
  {
    match Recompress(env, items[k])
    case ToolRound(_, _, args, result, _) =>
      TruncateCuts(args, cfg.toolResultMaxChars);
      TruncateCuts(result, cfg.toolResultMaxChars);
    case Message(_, body) =>
      TruncateCuts(PlainText(env.fileText, body), cfg.assistantMaxChars);
  }

  // ---------- which images are unloaded ----------

  // The image was handed out again, and fewer than guard messages came after position k.
  ghost predicate RecentlyRestored(env: Env, records: seq<Record>, items: seq<Item>, k: nat, guard: int, s: Segment)
    requires k < |items|
  {
    && (exists r, t :: r in records && r.restored && t in r.segments && env.fingerprint(t) == env.fingerprint(s))
    && Messages(items[k + 1..]) < guard
  }

  lemma {:induction false} MessagesAfterCounts(items: seq<Item>, k: nat)
    requires k < |items|
    ensures MessagesAfter(items, k) == Messages(items[k + 1..])
    decreases |items| - k
  {
    if k + 1 < |items| {
      MessagesAfterCounts(items, k + 1);
      assert items[k + 1..][1..] == items[k + 2..];
    }
  }

  lemma {:induction false} ToUnloadMember(env: Env, recent: set<string>, segments: seq<Segment>, close: bool, s: Segment)
    ensures s in ToUnload(env, recent, segments, close) <==> s in segments && Unloads(env, recent, s, close)
  {
    if segments != [] {
      var front, last := segments[..|segments| - 1], segments[|segments| - 1];
      ToUnloadMember(env, recent, front, close, s);
      assert segments == front + [last];
    }
  }

  // Unloading a message takes out exactly its images but those restored a short while ago, and
  // does nothing if there is none.
  lemma UnloadedImagesIff(env: Env, records: seq<Record>, items: seq<Item>, k: nat, guard: int, s: Segment)
    requires k < |items| && items[k].Message? && items[k].body.SegmentsBody? && s in Parts(items[k])
    ensures var step := Unloaded(env, RestoredFingerprints(env.fingerprint, records), items, k, guard);
            (step.Some? && s in step.value.1.segments) <==>
            s.Image? && !RecentlyRestored(env, records, items, k, guard, s)
  {
    var recent := RestoredFingerprints(env.fingerprint, records);
    MessagesAfterCounts(items, k);
    ToUnloadMember(env, recent, items[k].body.segments, CloseToEnd(items, k, guard), s);
    assert env.fingerprint(s) in recent <==>
           exists r, t :: r in records && r.restored && t in r.segments && env.fingerprint(t) == env.fingerprint(s);
  }

  // ---------- placeholders ----------

  function DigitValue(c: char): int {
    c as int - '0' as int
  }

  function Reading(digits: string): int {
    if digits == "" then 0 else 10 * Reading(digits[..|digits| - 1]) + DigitValue(digits[|digits| - 1])
  }

  // A number written is read back, in digits only.
  lemma {:induction false} DecimalReads(n: nat)
    ensures Reading(Decimal(n)) == n && Decimal(n) != "" && forall k :: 0 <= k < |Decimal(n)| ==> '0' <= Decimal(n)[k] <= '9'
  {
    if n >= 10 {
      DecimalReads(n / 10);
      assert Decimal(n)[..|Decimal(n)| - 1] == Decimal(n / 10);
    } else {
      assert Decimal(n)[..0] == "";
    }
  }

  // A placeholder names its unload and the number of images that went: no two look alike.
  lemma PlaceholderTells(id: string, images: nat, other: string, count: nat)
    requires |id| == |other| && Placeholder(id, images) == Placeholder(other, count)
    ensures id == other && images == count
  {
    var head := "[" + MARKER + " unload_id=";
    var tail := "; use reload_unloaded_segments to restore]";
    var p, q := Placeholder(id, images), Placeholder(other, count);
    assert p == head + id + "; images=" + Decimal(images) + tail && q == head + other + "; images=" + Decimal(count) + tail;
    assert p[|head|..|head| + |id|] == id && q[|head|..|head| + |id|] == other;
    var i := |head| + |id| + |"; images="|;
    assert p[i..|p| - |tail|] == Decimal(images) && q[i..|q| - |tail|] == Decimal(count);
    DecimalReads(images);
    DecimalReads(count);
  }

  // ---------- how many items are dropped ----------

  function DroppableCount(env: Env, items: seq<Item>): nat {
    if items == [] then 0 else (if Droppable(env, items[0]) then 1 else 0) + DroppableCount(env, items[1..])
  }

  // The items without the first d of the droppable ones.
  function WithoutFirst(env: Env, items: seq<Item>, d: nat): seq<Item> {
    if items == [] || d == 0 then items
    else if Droppable(env, items[0]) then WithoutFirst(env, items[1..], d - 1)
    else [items[0]] + WithoutFirst(env, items[1..], d)
  }

  // The history without the first d droppable items between prefix and end.
  function DroppedFirst(env: Env, items: seq<Item>, prefix: nat, end: nat, d: nat): seq<Item>
    requires prefix <= end <= |items|
  {
    items[..prefix] + WithoutFirst(env, items[prefix..end], d) + items[end..]
  }

  lemma {:induction false} OneMoreWithout(env: Env, items: seq<Item>, d: nat)
    ensures WithoutFirst(env, WithoutFirst(env, items, 1), d) == WithoutFirst(env, items, d + 1)
    ensures DroppableCount(env, items) == DroppableCount(env, WithoutFirst(env, items, 1))
                                          + if DroppableCount(env, items) > 0 then 1 else 0
  {
    if items != [] {
      if Droppable(env, items[0]) {
        assert WithoutFirst(env, items, 1) == items[1..];
      } else {
        OneMoreWithout(env, items[1..], d);
        var rest := WithoutFirst(env, items[1..], 1);
        assert ([items[0]] + rest)[1..] == rest;
      }
    }
  }

  lemma {:induction false} FirstWithout(env: Env, items: seq<Item>, j: nat)
    requires j < |items| && Droppable(env, items[j]) && forall i :: 0 <= i < j ==> !Droppable(env, items[i])
    ensures WithoutFirst(env, items, 1) == items[..j] + items[j + 1..] && DroppableCount(env, items) > 0
  {
    if j > 0 {
      FirstWithout(env, items[1..], j - 1);
      assert items[..j] == [items[0]] + items[1..][..j - 1] && items[1..][j..] == items[j + 1..];
    }
  }

  lemma {:induction false} NoneWithout(env: Env, items: seq<Item>)
    requires forall i :: 0 <= i < |items| ==> !Droppable(env, items[i])
    ensures DroppableCount(env, items) == 0
  {
    if items != [] {
      NoneWithout(env, items[1..]);
    }
  }

  lemma {:induction false} FirstDroppableIs(env: Env, items: seq<Item>, k: nat, end: nat)
    requires end <= |items|
    ensures var at := FirstDroppable(env, items, k, end);
            && (at.Some? ==> k <= at.value < end && Droppable(env, items[at.value])
                             && forall i :: k <= i < at.value ==> !Droppable(env, items[i]))
            && (at.None? ==> forall i :: k <= i < end ==> !Droppable(env, items[i]))
    decreases end - k
  {
    if k < end && !Droppable(env, items[k]) {
      FirstDroppableIs(env, items, k + 1, end);
    }
  }

  // One drop takes out the first droppable item.
  lemma DropTakesFirst(env: Env, items: seq<Item>, prefix: nat, end: nat, k: nat)
    requires prefix <= end <= |items| && FirstDroppable(env, items, prefix, end) == Some(k)
    ensures prefix <= k < end && Without(items, k) == DroppedFirst(env, items, prefix, end, 1)
    ensures Without(items, k)[..prefix] == items[..prefix] && Without(items, k)[end - 1..] == items[end..]
    ensures Without(items, k)[prefix..end - 1] == WithoutFirst(env, items[prefix..end], 1)
    ensures DroppableCount(env, items[prefix..end]) > 0
  {
    FirstDroppableIs(env, items, prefix, end);
    var mid, j := items[prefix..end], k - prefix;
    FirstWithout(env, mid, j);
    assert mid[..j] == items[prefix..k] && mid[j + 1..] == items[k + 1..end];
    assert Without(items, k) == items[..prefix] + (mid[..j] + mid[j + 1..]) + items[end..];
  }

  lemma NothingDropped(env: Env, items: seq<Item>, prefix: nat, end: nat)
    requires prefix <= end <= |items|
    ensures DroppedFirst(env, items, prefix, end, 0) == items
  {
  }

  // out is the history without the first d droppable items, and no smaller number would do.
  ghost predicate IsLeastDrop(env: Env, budget: int, items: seq<Item>, prefix: nat, end: nat, d: nat, out: seq<Item>)
    requires prefix <= end <= |items|
  {
    && d <= DroppableCount(env, items[prefix..end]) && out == DroppedFirst(env, items, prefix, end, d)
    && (env.tokens(out) <= budget || d == DroppableCount(env, items[prefix..end]))
    && forall e: nat :: e < d ==> env.tokens(DroppedFirst(env, items, prefix, end, e)) > budget
  }

  lemma DropsAfter(env: Env, items: seq<Item>, prefix: nat, end: nat, k: nat, e: nat)
    requires prefix <= end <= |items| && FirstDroppable(env, items, prefix, end) == Some(k)
    ensures prefix <= k < end
    ensures DroppedFirst(env, Without(items, k), prefix, end - 1, e) == DroppedFirst(env, items, prefix, end, e + 1)
    ensures DroppableCount(env, items[prefix..end]) == DroppableCount(env, Without(items, k)[prefix..end - 1]) + 1
  {
    DropTakesFirst(env, items, prefix, end, k);
    OneMoreWithout(env, items[prefix..end], e);
  }

  lemma LeastDropMore(env: Env, budget: int, items: seq<Item>, prefix: nat, end: nat, k: nat, d: nat, out: seq<Item>)
    requires prefix <= end <= |items| && FirstDroppable(env, items, prefix, end) == Some(k) && env.tokens(items) > budget
    requires prefix <= k < end && IsLeastDrop(env, budget, Without(items, k), prefix, end - 1, d, out)
    ensures IsLeastDrop(env, budget, items, prefix, end, d + 1, out)
  {
    DropsAfter(env, items, prefix, end, k, d);
    forall e: nat | e < d + 1 ensures env.tokens(DroppedFirst(env, items, prefix, end, e)) > budget {
      if e > 0 {
        DropsAfter(env, items, prefix, end, k, e - 1);
      } else {
        NothingDropped(env, items, prefix, end);
      }
    }
  }

  lemma NextDropShape(env: Env, budget: int, items: seq<Item>, prefix: nat, end: nat, k: nat)
    requires prefix <= end && end + SuffixLength(items) == |items| && NextDrop(env, budget, prefix, items) == Some(k)
    ensures FirstDroppable(env, items, prefix, end) == Some(k) && prefix <= k < end && env.tokens(items) > budget
    ensures end - 1 + SuffixLength(Without(items, k)) == |Without(items, k)| == |items| - 1
  {
    DropStep(env, budget, items, prefix);
    FirstDroppableFits(env, items, prefix, end);
  }

  lemma NoneIsLeast(env: Env, budget: int, items: seq<Item>, prefix: nat, end: nat)
    requires prefix <= end && end + SuffixLength(items) == |items| && NextDrop(env, budget, prefix, items).None?
    ensures IsLeastDrop(env, budget, items, prefix, end, 0, items)
  {
    NothingDropped(env, items, prefix, end);
    FirstDroppableIs(env, items, prefix, end);
    if env.tokens(items) > budget {
      NoneWithout(env, items[prefix..end]);
    }
  }

  // The loop drops the least number of items that brings the history within the budget, the oldest
  // first, or all that may be dropped.
  lemma {:induction false} DropsLeast(env: Env, budget: int, prefix: nat, items: seq<Item>, end: nat) returns (d: nat)
    requires prefix <= end && end + SuffixLength(items) == |items|
    ensures IsLeastDrop(env, budget, items, prefix, end, d, DropLoop(env, budget, prefix, items))
    decreases |items|
  {
    var next := NextDrop(env, budget, prefix, items);
    DropLoopUnfolds(env, budget, prefix, items);
    if next.Some? {
      var k := next.value;
      NextDropShape(env, budget, items, prefix, end, k);
      var rest := DropsLeast(env, budget, prefix, Without(items, k), end - 1);
      LeastDropMore(env, budget, items, prefix, end, k, rest, DropLoop(env, budget, prefix, items));
      d := rest + 1;
    } else {
      d := 0;
      NoneIsLeast(env, budget, items, prefix, end);
    }
  }

  // ---------- how many messages are unloaded ----------

  // The history after the first e unloads of the chain.
  function UnloadedFirst(env: Env, guard: int, prefix: nat, records: seq<Record>, items: seq<Item>, e: nat): seq<Item>
    decreases e
  {
    var step := UnloadedOldest(env, records, items, prefix, guard);
    if e == 0 || step.None? then items
    else UnloadedFirst(env, guard, prefix, Appended(records, UnloadRecord(step.value.1)), step.value.0, e - 1)
  }

  // The loop unloads the least number of messages that brings the history within the budget, the
  // oldest first, or all that can be unloaded.
  lemma {:induction false} UnloadsLeast(env: Env, cfg: Config, budget: int, prefix: nat, records: seq<Record>, items: seq<Item>)
    ensures var (out, store, unloads) := UnloadLoop(env, cfg, budget, prefix, records, items);
            && out == UnloadedFirst(env, cfg.guardMessages, prefix, records, items, |unloads|)
            && (env.tokens(out) <= budget || unloads == Chain(env, cfg.guardMessages, prefix, records, items))
            && forall e: nat :: e < |unloads| ==>
                 env.tokens(UnloadedFirst(env, cfg.guardMessages, prefix, records, items, e)) > budget
    decreases ImageCount(items)
  {
    var step := UnloadedOldest(env, records, items, prefix, cfg.guardMessages);
    ChainUnfolds(env, cfg.guardMessages, prefix, records, items);
    if env.tokens(items) > budget && step.Some? {
      var (patched, u) := step.value;
      var after := Appended(records, UnloadRecord(u));
      UnloadDropsImages(env, records, items, prefix, cfg.guardMessages);
      UnloadsLeast(env, cfg, budget, prefix, after, patched);
      var rest := UnloadLoop(env, cfg, budget, prefix, after, patched).2;
      forall e: nat | e < |rest| + 1
        ensures env.tokens(UnloadedFirst(env, cfg.guardMessages, prefix, records, items, e)) > budget
      {
        if e > 0 {
          assert UnloadedFirst(env, cfg.guardMessages, prefix, records, items, e)
              == UnloadedFirst(env, cfg.guardMessages, prefix, after, patched, e - 1);
        }
      }
    }
  }

  // ---------- no phase too many ----------

  // The hook leaves a prompt alone exactly if there is no budget or the prompt is within it; it
  // stops after the first phase that brings the history within the budget, and unloads nothing
  // before the last two.
  lemma StopsInTime(env: Env, cfg: Config, isSub: bool, budget: int, promptTokens: int, records: seq<Record>, items: seq<Item>)
    ensures var (outcome, store, unloads) := HookResult(env, cfg, isSub, budget, promptTokens, records, items);
            var truncated, recent := AfterTruncation(env, cfg, isSub, items), AfterRecency(env, cfg, isSub, items);
            && (outcome.Skip? <==> budget <= 0 || promptTokens <= budget)
            && (outcome.Compressed? && env.tokens(truncated) <= budget ==> outcome.history == truncated)
            && (outcome.Compressed? && env.tokens(truncated) > budget && env.tokens(recent) <= budget ==> outcome.history == recent)
            && (outcome.Skip? || env.tokens(truncated) <= budget || env.tokens(recent) <= budget ==> store == records && unloads == [])
  {
  }
}
