// What the compression hook guarantees about the history it returns and the store it leaves.
module CompressionTheorems {
  import opened Wrappers
  import opened History
  import opened UnloadStore
  import opened Compression

  // ---------- selections ----------

  // Tool rounds are of one kind, messages of one kind per role.
  predicate SameKind(a: Item, b: Item) {
    a.Message? == b.Message? && (a.Message? ==> a.role == b.role)
  }

  predicate Increasing(at: seq<nat>) {
    forall j, k :: 0 <= j < k < |at| ==> at[j] < at[k]
  }

  ghost predicate PickedAt(at: seq<nat>, source: seq<Item>, result: seq<Item>) {
    && |at| == |result| && Increasing(at)
    && (forall k :: 0 <= k < |at| ==> at[k] < |source| && result[k] == source[at[k]])
  }

  // result is some of the items of source, in their order.
  ghost predicate IsSelection(source: seq<Item>, result: seq<Item>) {
    exists at :: PickedAt(at, source, result)
  }

  lemma SelectionTrans(a: seq<Item>, b: seq<Item>, c: seq<Item>)
    requires IsSelection(a, b) && IsSelection(b, c)
    ensures IsSelection(a, c)
  {
    var first :| PickedAt(first, a, b);
    var second :| PickedAt(second, b, c);
    var at := seq(|second|, k requires 0 <= k < |second| => first[second[k]]);
    assert PickedAt(at, a, c);
  }

  // Cutting out the items from i to j.
  lemma CutSelection(a: seq<Item>, i: nat, j: nat)
    requires i <= j <= |a|
    ensures IsSelection(a, a[..i] + a[j..])
  {
    var n := i + |a| - j;
    var at: seq<nat> := seq(n, k requires 0 <= k < n => if k < i then k else k - i + j);
    assert PickedAt(at, a, a[..i] + a[j..]);
  }

  // ---------- images exchanged for placeholders ----------

  // b is a with some of its images taken out.
  predicate LosesImages(a: seq<Segment>, b: seq<Segment>) {
    if a == [] then b == []
    else
      || (b != [] && b[|b| - 1] == a[|a| - 1] && LosesImages(a[..|a| - 1], b[..|b| - 1]))
      || (a[|a| - 1].Image? && LosesImages(a[..|a| - 1], b))
  }

  function Marks(us: seq<Unload>): seq<Segment> {
    seq(|us|, k requires 0 <= k < |us| => Text(us[k].placeholder))
  }

  function Gone(us: seq<Unload>): multiset<Segment> {
    if us == [] then multiset{} else Gone(us[..|us| - 1]) + multiset(us[|us| - 1].segments)
  }

  // a loses the segments of the unloads us, all images, and gains their placeholders at its end.
  predicate Exchanges(a: seq<Segment>, b: seq<Segment>, us: seq<Unload>) {
    |us| <= |b| &&
    var kept := b[..|b| - |us|];
    && b == kept + Marks(us) && LosesImages(a, kept) && multiset(a) == multiset(kept) + Gone(us)
  }

  // b is a itself, or a message that exchanged images for the placeholders of us.
  predicate StripsTo(a: Item, b: Item, us: seq<Unload>) {
    if us == [] then b == a
    else a.Message? && b.Message? && b.role == a.role && Exchanges(Parts(a), Parts(b), us)
  }

  ghost predicate AllIn(us: seq<Unload>, unloads: seq<Unload>) {
    forall u :: u in us ==> u in unloads
  }

  // b is a but for some of the unloads of the run.
  ghost predicate Derives(a: Item, b: Item, unloads: seq<Unload>) {
    exists us :: StripsTo(a, b, us) && AllIn(us, unloads)
  }

  ghost predicate DerivesAt(at: seq<nat>, source: seq<Item>, result: seq<Item>, unloads: seq<Unload>) {
    && |at| == |result| && Increasing(at)
    && (forall k :: 0 <= k < |at| ==> at[k] < |source| && Derives(source[at[k]], result[k], unloads))
  }

  // result is some of the items of source, in their order, each but for some unloads.
  ghost predicate IsDerived(source: seq<Item>, result: seq<Item>, unloads: seq<Unload>) {
    exists at :: DerivesAt(at, source, result, unloads)
  }

  lemma {:induction false} LosesImagesTrans(a: seq<Segment>, b: seq<Segment>, c: seq<Segment>)
    requires LosesImages(a, b) && LosesImages(b, c)
    ensures LosesImages(a, c)
  {
    if a != [] {
      var front, last := a[..|a| - 1], a[|a| - 1];
      if b != [] && b[|b| - 1] == last && LosesImages(front, b[..|b| - 1]) {
        if c != [] && c[|c| - 1] == last && LosesImages(b[..|b| - 1], c[..|c| - 1]) {
          LosesImagesTrans(front, b[..|b| - 1], c[..|c| - 1]);
        } else {
          LosesImagesTrans(front, b[..|b| - 1], c);
        }
      } else {
        LosesImagesTrans(front, b, c);
      }
    }
  }

  // Texts at the end stay.
  lemma {:induction false} TextsStay(a: seq<Segment>, marks: seq<Segment>, b: seq<Segment>)
    requires LosesImages(a + marks, b) && forall k :: 0 <= k < |marks| ==> marks[k].Text?
    ensures |marks| <= |b| && b[|b| - |marks|..] == marks && LosesImages(a, b[..|b| - |marks|])
  {
    if marks == [] {
      assert a + marks == a && b[..|b|] == b;
    } else {
      var n := |marks| - 1;
      assert (a + marks)[..|a| + n] == a + marks[..n];
      TextsStay(a, marks[..n], b[..|b| - 1]);
      assert b[..|b| - 1][..|b| - |marks|] == b[..|b| - |marks|];
      assert b == b[..|b| - 1] + [marks[n]];
    }
  }

  lemma {:induction false} GoneConcat(us: seq<Unload>, vs: seq<Unload>)
    ensures Gone(us + vs) == Gone(us) + Gone(vs)
  {
    if vs == [] {
      assert us + vs == us;
    } else {
      assert (us + vs)[..|us| + |vs| - 1] == us + vs[..|vs| - 1];
      GoneConcat(us, vs[..|vs| - 1]);
    }
  }

  lemma Cancel(x: multiset<Segment>, y: multiset<Segment>, marks: multiset<Segment>, gone: multiset<Segment>)
    requires x + marks == y + marks + gone
    ensures x == y + gone
  {
    forall e ensures x[e] == (y + gone)[e] {
      assert (x + marks)[e] == (y + marks + gone)[e];
    }
  }

  lemma MarksConcat(us: seq<Unload>, vs: seq<Unload>)
    ensures Marks(us + vs) == Marks(us) + Marks(vs)
  {
  }

  lemma ExchangesFrom(a: seq<Segment>, kept: seq<Segment>, us: seq<Unload>)
    requires LosesImages(a, kept) && multiset(a) == multiset(kept) + Gone(us)
    ensures Exchanges(a, kept + Marks(us), us)
  {
    assert (kept + Marks(us))[..|kept|] == kept;
  }

  lemma ExchangesTrans(a: seq<Segment>, b: seq<Segment>, c: seq<Segment>, us: seq<Unload>, vs: seq<Unload>)
    requires Exchanges(a, b, us) && Exchanges(b, c, vs)
    ensures Exchanges(a, c, us + vs)
  {
    var first, second := b[..|b| - |us|], c[..|c| - |vs|];
    TextsStay(first, Marks(us), second);
    var kept := second[..|second| - |us|];
    assert second == kept + Marks(us);
    MarksConcat(us, vs);
    assert c == kept + Marks(us + vs);
    LosesImagesTrans(a, first, kept);
    GoneConcat(us, vs);
    Cancel(multiset(first), multiset(kept), multiset(Marks(us)), Gone(vs));
    ExchangesFrom(a, kept, us + vs);
  }

  lemma StripsTrans(a: Item, b: Item, c: Item, us: seq<Unload>, vs: seq<Unload>)
    requires StripsTo(a, b, us) && StripsTo(b, c, vs)
    ensures StripsTo(a, c, us + vs)
  {
    if us == [] {
      assert us + vs == vs;
    } else if vs == [] {
      assert us + vs == us;
    } else {
      ExchangesTrans(Parts(a), Parts(b), Parts(c), us, vs);
    }
  }

  lemma DerivesTrans(a: Item, b: Item, c: Item, unloads: seq<Unload>)
    requires Derives(a, b, unloads) && Derives(b, c, unloads)
    ensures Derives(a, c, unloads)
  {
    var us :| StripsTo(a, b, us) && AllIn(us, unloads);
    var vs :| StripsTo(b, c, vs) && AllIn(vs, unloads);
    StripsTrans(a, b, c, us, vs);
    assert AllIn(us + vs, unloads);
  }

  lemma DerivesSelf(a: Item, unloads: seq<Unload>)
    ensures Derives(a, a, unloads)
  {
    assert StripsTo(a, a, []) && AllIn([], unloads);
  }

  lemma DerivesMore(a: Item, b: Item, unloads: seq<Unload>, more: seq<Unload>)
    requires Derives(a, b, unloads) && AllIn(unloads, more)
    ensures Derives(a, b, more)
  {
    var us :| StripsTo(a, b, us) && AllIn(us, unloads);
    assert AllIn(us, more);
  }

  // A selection, then some unloads, then a selection again.
  lemma DerivedBySelections(a: seq<Item>, b: seq<Item>, c: seq<Item>, d: seq<Item>, unloads: seq<Unload>)
    requires IsSelection(a, b) && IsSelection(c, d)
    requires |b| == |c| && forall k :: 0 <= k < |b| ==> Derives(b[k], c[k], unloads)
    ensures IsDerived(a, d, unloads)
  {
    var first :| PickedAt(first, a, b);
    var second :| PickedAt(second, c, d);
    var at := seq(|second|, k requires 0 <= k < |second| => first[second[k]]);
    assert DerivesAt(at, a, d, unloads);
  }

  lemma SelectionDerives(a: seq<Item>, b: seq<Item>, unloads: seq<Unload>)
    requires IsSelection(a, b)
    ensures IsDerived(a, b, unloads)
  {
    var at :| PickedAt(at, a, b);
    forall k | 0 <= k < |at| ensures Derives(a[at[k]], b[k], unloads) {
      DerivesSelf(b[k], unloads);
    }
    assert DerivesAt(at, a, b, unloads);
  }

  lemma SameSelection(a: seq<Item>)
    ensures IsSelection(a, a)
  {
    CutSelection(a, 0, 0);
    assert a[..0] + a[0..] == a;
  }

  // ---------- the protected tail ----------

  function Tail(items: seq<Item>, n: nat): seq<Item>
    requires n <= |items|
  {
    items[|items| - n..]
  }

  function RecompressItems(env: Env, items: seq<Item>): seq<Item> {
    seq(|items|, k requires 0 <= k < |items| => Recompress(env, items[k]))
  }

  lemma {:induction false} TrailingIs(items: seq<Item>, n: nat)
    requires n <= |items| && forall k :: |items| - n <= k < |items| ==> items[k].ToolRound?
    requires n < |items| ==> items[|items| - n - 1].Message?
    ensures TrailingTools(items) == n
    decreases n
  {
    if n > 0 {
      TrailingIs(items[..|items| - 1], n - 1);
    }
  }

  // A message followed by tool rounds only.
  ghost predicate IsBlock(tail: seq<Item>) {
    tail != [] && tail[0].Message? && forall k :: 0 < k < |tail| ==> tail[k].ToolRound?
  }

  // The protected suffix is a block, or the whole history if that has no message.
  lemma SuffixIsBlock(items: seq<Item>)
    ensures SuffixLength(items) <= |items|
    ensures TrailingTools(items) < |items| ==> IsBlock(Tail(items, SuffixLength(items)))
    ensures TrailingTools(items) == |items| ==> forall k :: 0 <= k < |items| ==> items[k].ToolRound?
  {
    TrailingBound(items);
  }

  lemma BlockIsSuffix(items: seq<Item>, n: nat)
    requires n <= |items| && IsBlock(Tail(items, n))
    ensures SuffixLength(items) == n
  {
    forall k | |items| - (n - 1) <= k < |items| ensures items[k].ToolRound? {
      assert items[k] == Tail(items, n)[k - (|items| - n)];
    }
    assert items[|items| - n] == Tail(items, n)[0];
    TrailingIs(items, n - 1);
  }

  // The kinds of the tail alone decide how long the protected suffix is, unless the history
  // has no message at all.
  lemma SuffixFromTail(a: seq<Item>, b: seq<Item>)
    requires SuffixLength(a) <= |a| && SuffixLength(a) <= |b|
    requires forall k :: 0 <= k < SuffixLength(a) ==>
      Tail(b, SuffixLength(a))[k].Message? == Tail(a, SuffixLength(a))[k].Message?
    requires TrailingTools(a) == |a| ==> |b| == |a|
    ensures SuffixLength(b) == SuffixLength(a)
  {
    SuffixIsBlock(a);
    if TrailingTools(a) < |a| {
      BlockIsSuffix(b, SuffixLength(a));
    } else {
      assert Tail(a, |a|) == a && Tail(b, |b|) == b;
      TrailingIs(b, |b|);
    }
  }

  // b ends as a does, and its protected suffix is as long.
  ghost predicate KeepsTail(a: seq<Item>, b: seq<Item>) {
    && SuffixLength(b) == SuffixLength(a) <= |a| && SuffixLength(a) <= |b|
    && Tail(b, SuffixLength(a)) == Tail(a, SuffixLength(a))
  }

  lemma SameTailKeeps(a: seq<Item>, b: seq<Item>)
    requires SuffixLength(a) <= |a| && SuffixLength(a) <= |b| && Tail(b, SuffixLength(a)) == Tail(a, SuffixLength(a))
    requires TrailingTools(a) == |a| ==> |b| == |a|
    ensures KeepsTail(a, b)
  {
    SuffixFromTail(a, b);
  }

  // ---------- phase by phase ----------

  const CUT_MARK := "\n...[truncated]"

  // b is a, or the start of a with a note that the rest is cut.
  ghost predicate Shortens(a: string, b: string) {
    b == a || exists n :: 0 <= n <= |a| && b == a[..n] + CUT_MARK
  }

  // b keeps who speaks, and which tool was called with what success; texts may be shortened, of
  // messages only an assistant's.
  ghost predicate Shortened(env: Env, a: Item, b: Item) {
    match a
    case ToolRound(name, call, args, result, success) =>
      && b.ToolRound? && b.toolName == name && b.callId == call && b.success == success
      && Shortens(args, b.argumentsJson) && Shortens(result, b.toolResult)
    case Message(role, body) =>
      || b == a
      || (role.AssistantRole? && b.Message? && b.role == role && b.body.TextBody?
          && Shortens(PlainText(env.fileText, body), b.body.text))
  }

  lemma TruncateShortens(text: string, maxChars: int)
    ensures Shortens(text, TruncateText(text, maxChars))
  {
    if 0 < maxChars < |text| {
      var n := RStripIs(text[..maxChars]);
      assert text[..maxChars][..n] == text[..n];
    }
  }

  // Truncation changes no item but as Shortened allows, once its images are recompressed.
  lemma TruncationShortens(env: Env, cfg: Config, items: seq<Item>, headKeep: nat)
    ensures var out := Truncated(env, cfg, items, headKeep);
            && |out| == |items|
            && forall k :: 0 <= k < |items| ==> Shortened(env, Recompress(env, items[k]), out[k]) && SameKind(items[k], out[k])
  {
    var out := Truncated(env, cfg, items, headKeep);
    forall k | 0 <= k < |items|
      ensures Shortened(env, Recompress(env, items[k]), out[k]) && SameKind(items[k], out[k])
    {
      var item := Recompress(env, items[k]);
      match item
      case ToolRound(_, _, args, result, _) =>
        TruncateShortens(args, cfg.toolResultMaxChars);
        TruncateShortens(result, cfg.toolResultMaxChars);
      case Message(_, body) =>
        TruncateShortens(PlainText(env.fileText, body), cfg.assistantMaxChars);
    }
  }

  lemma TruncationKeepsHead(env: Env, cfg: Config, items: seq<Item>, headKeep: nat)
    ensures FirstUserEnd(Truncated(env, cfg, items, headKeep)) == FirstUserEnd(items)
  {
    TruncationShortens(env, cfg, items, headKeep);
    SameFirstUser(items, Truncated(env, cfg, items, headKeep));
  }

  // Truncation leaves the protected tail and the kept head as they are, images recompressed.
  lemma TruncationProtects(env: Env, cfg: Config, items: seq<Item>, headKeep: nat)
    ensures var out := Truncated(env, cfg, items, headKeep);
            && SuffixLength(items) <= |items| && SuffixLength(out) == SuffixLength(items)
            && Tail(out, SuffixLength(items)) == RecompressItems(env, Tail(items, SuffixLength(items)))
            && (headKeep <= |items| ==> out[..headKeep] == RecompressItems(env, items[..headKeep]))
  {
    TruncationKeepsTail(env, cfg, items, headKeep);
    SuffixFromTail(items, Truncated(env, cfg, items, headKeep));
  }

  lemma TailUntruncated(env: Env, cfg: Config, items: seq<Item>, headKeep: nat, k: nat)
    requires k < |items| && k >= |items| - SuffixLength(items)
    ensures Truncated(env, cfg, items, headKeep)[k] == Recompress(env, items[k])
    ensures Recompress(env, items[k]).Message? == items[k].Message?
  {
  }

  // Two sequences agree, up to recompression, from position i on.
  lemma SameTail(env: Env, items: seq<Item>, out: seq<Item>, i: nat)
    requires i <= |items| == |out| && forall k :: i <= k < |items| ==> out[k] == Recompress(env, items[k])
    ensures out[i..] == RecompressItems(env, items[i..])
  {
  }

  lemma TruncationKeepsTail(env: Env, cfg: Config, items: seq<Item>, headKeep: nat)
    ensures SuffixLength(items) <= |items|
    ensures var out := Truncated(env, cfg, items, headKeep);
            Tail(out, SuffixLength(items)) == RecompressItems(env, Tail(items, SuffixLength(items)))
            && forall k :: |items| - SuffixLength(items) <= k < |items| ==> out[k].Message? == items[k].Message?
  {
    TrailingBound(items);
    var out, i := Truncated(env, cfg, items, headKeep), |items| - SuffixLength(items);
    forall k | i <= k < |items| ensures out[k] == Recompress(env, items[k]) && out[k].Message? == items[k].Message? {
      TailUntruncated(env, cfg, items, headKeep, k);
    }
    SameTail(env, items, out, i);
  }

  lemma {:induction false} SameFirstUser(a: seq<Item>, b: seq<Item>)
    requires |a| == |b| && forall k :: 0 <= k < |a| ==> SameKind(a[k], b[k])
    ensures FirstUserEnd(a) == FirstUserEnd(b)
  {
    if a != [] {
      assert SameKind(a[0], b[0]);
      forall k | 0 <= k < |a| - 1 ensures SameKind(a[1..][k], b[1..][k]) {
        assert SameKind(a[k + 1], b[k + 1]);
      }
      SameFirstUser(a[1..], b[1..]);
    }
  }

  lemma {:induction false} FirstUserOfPrefix(items: seq<Item>, rest: seq<Item>)
    requires FirstUserEnd(items) > 0
    ensures FirstUserEnd(items) <= |items|
    ensures FirstUserEnd(items[..FirstUserEnd(items)] + rest) == FirstUserEnd(items)
  {
    FirstUserBound(items);
    var pe := FirstUserEnd(items);
    var kept := items[..pe] + rest;
    assert kept[0] == items[0];
    if pe > 1 {
      FirstUserOfPrefix(items[1..], rest);
      assert kept[1..] == items[1..][..pe - 1] + rest;
    }
  }

  lemma {:induction false} TailStartKeepsSuffix(items: seq<Item>, n: nat, limit: int)
    requires n <= |items| && forall k :: n <= k < |items| ==> items[k].ToolRound?
    ensures TailStart(items, n, 0, limit) + SuffixLength(items) <= |items|
    decreases n
  {
    TrailingBound(items);
    if n == 0 {
      TrailingIs(items, |items|);
    } else if items[n - 1].ToolRound? {
      TailStartKeepsSuffix(items, n - 1, limit);
    } else {
      TrailingIs(items, |items| - n);
      TailBound(items, n - 1, 1, limit);
    }
  }

  // Cutting items out before the protected suffix keeps the tail.
  lemma CutKeepsTail(items: seq<Item>, i: nat, j: nat)
    requires i <= j <= |items| && (i == j || j + SuffixLength(items) <= |items|)
    ensures KeepsTail(items, items[..i] + items[j..])
  {
    TrailingBound(items);
    var out := items[..i] + items[j..];
    if i == j {
      assert out == items;
    } else {
      assert Tail(out, SuffixLength(items)) == Tail(items, SuffixLength(items));
      SameTailKeeps(items, out);
    }
  }

  lemma RecentTail(cfg: Config, isSub: bool, items: seq<Item>)
    ensures var out := Recent(cfg, isSub, items); IsSelection(items, out) && KeepsTail(items, out)
  {
    var out := Recent(cfg, isSub, items);
    var tail, pe := TailStart(items, |items|, 0, cfg.recencyWindow), FirstUserEnd(items);
    TailStartKeepsSuffix(items, |items|, cfg.recencyWindow);
    FirstUserBound(items);
    var first, next := if isSub then pe else 0, if isSub && pe > tail then pe else tail;
    assert out == items[..first] + items[next..];
    CutSelection(items, first, next);
    CutKeepsTail(items, first, next);
  }

  // ---------- how much the recency phase keeps ----------

  function Messages(items: seq<Item>): nat {
    if items == [] then 0 else (if items[0].Message? then 1 else 0) + Messages(items[1..])
  }

  function AtLeastOne(limit: int): nat {
    if limit < 1 then 1 else limit
  }

  lemma {:induction false} MessagesConcat(a: seq<Item>, b: seq<Item>)
    ensures Messages(a + b) == Messages(a) + Messages(b)
  {
    if a == [] {
      assert a + b == b;
    } else {
      assert (a + b)[1..] == a[1..] + b;
      MessagesConcat(a[1..], b);
    }
  }

  // The tail from start on has limit messages, its first item among them; or there are fewer, and
  // it is everything.
  predicate IsRecentTail(items: seq<Item>, start: nat, limit: int) {
    && start <= |items|
    && if Messages(items) < AtLeastOne(limit) then start == 0
       else start < |items| && items[start].Message? && Messages(items[start..]) == AtLeastOne(limit)
  }

  lemma {:induction false} TailCounts(items: seq<Item>, n: nat, seen: nat, limit: int)
    requires n <= |items| && Messages(items[n..]) == seen < AtLeastOne(limit)
    ensures IsRecentTail(items, TailStart(items, n, seen, limit), limit)
    decreases n
  {
    if n == 0 {
      assert items[0..] == items;
    } else {
      assert items[n - 1..][1..] == items[n..];
      assert items == items[..n - 1] + items[n - 1..];
      MessagesConcat(items[..n - 1], items[n - 1..]);
      if !items[n - 1].Message? {
        TailCounts(items, n - 1, seen, limit);
      } else if seen + 1 < limit {
        TailCounts(items, n - 1, seen + 1, limit);
      }
    }
  }

  lemma ShorterTailHasFewer(items: seq<Item>, i: nat, j: nat)
    requires i < j <= |items| && items[i].Message?
    ensures Messages(items[j..]) < Messages(items[i..])
  {
    assert items[i..] == items[i..j] + items[j..] && items[i..j][0] == items[i];
    MessagesConcat(items[i..j], items[j..]);
  }

  // There is only one such tail.
  lemma RecentTailUnique(items: seq<Item>, i: nat, j: nat, limit: int)
    requires IsRecentTail(items, i, limit) && IsRecentTail(items, j, limit)
    ensures i == j
  {
    if i < j {
      ShorterTailHasFewer(items, i, j);
    } else if j < i {
      ShorterTailHasFewer(items, j, i);
    }
  }

  // The recency phase keeps the tail with the configured number of messages, and in a sub-session
  // also everything up to the first user message.
  lemma RecentCounts(cfg: Config, isSub: bool, items: seq<Item>, start: nat)
    requires IsRecentTail(items, start, cfg.recencyWindow)
    ensures var out, pe := Recent(cfg, isSub, items), SubPrefix(isSub, items);
            && pe <= |items| && out == items[..pe] + items[(if pe > start then pe else start)..]
            && (!isSub ==> Messages(out) == if Messages(items) < AtLeastOne(cfg.recencyWindow) then Messages(items)
                                            else AtLeastOne(cfg.recencyWindow))
  {
    assert items[|items|..] == [];
    TailCounts(items, |items|, 0, cfg.recencyWindow);
    RecentTailUnique(items, start, TailStart(items, |items|, 0, cfg.recencyWindow), cfg.recencyWindow);
    FirstUserBound(items);
    assert items[..0] + items[start..] == items[start..] && items[0..] == items;
  }

  // Such a tail exists for every history and every limit.
  lemma RecentTailExists(items: seq<Item>, limit: int) returns (start: nat)
    ensures IsRecentTail(items, start, limit)
  {
    assert items[|items|..] == [];
    TailCounts(items, |items|, 0, limit);
    start := TailStart(items, |items|, 0, limit);
  }

  lemma RecentHead(cfg: Config, isSub: bool, items: seq<Item>)
    ensures var out, pe := Recent(cfg, isSub, items), SubPrefix(isSub, items);
            pe <= |items| && pe <= |out| && SubPrefix(isSub, out) == pe && out[..pe] == items[..pe]
  {
    var tail, pe := TailStart(items, |items|, 0, cfg.recencyWindow), FirstUserEnd(items);
    TailBound(items, |items|, 0, cfg.recencyWindow);
    FirstUserBound(items);
    if isSub && pe > 0 {
      FirstUserOfPrefix(items, items[(if pe > tail then pe else tail)..]);
    } else {
      NoUserInTail(items, tail);
    }
  }

  lemma NoUserInTail(items: seq<Item>, tail: nat)
    requires tail <= |items|
    ensures FirstUserEnd(items) == 0 ==> FirstUserEnd(items[tail..]) == 0
  {
    FirstUserBound(items);
    FirstUserBound(items[tail..]);
  }

  // ---------- placeholders ----------

  predicate Shows(item: Item, placeholder: string) {
    item.Message? &&
    match item.body
    case TextBody(text) => text == placeholder
    case SegmentsBody(segments) => Text(placeholder) in segments
  }

  ghost predicate ShownIn(items: seq<Item>, placeholder: string) {
    exists k :: 0 <= k < |items| && Shows(items[k], placeholder)
  }

  predicate Marked(u: Unload) {
    u.placeholder == Placeholder(u.id, |u.segments|)
  }

  lemma PlaceholderHasMarker(id: string, images: nat)
    ensures Contains(Placeholder(id, images), MARKER)
  {
    var p := Placeholder(id, images);
    assert p[1..1 + |MARKER|] == MARKER;
    assert OccursAt(p, MARKER, 1);
  }

  // A message that shows a placeholder is never dropped.
  lemma ShownNotDroppable(env: Env, item: Item, u: Unload)
    requires Marked(u) && Shows(item, u.placeholder)
    ensures !Droppable(env, item)
  {
    PlaceholderHasMarker(u.id, |u.segments|);
    if item.body.SegmentsBody? {
      PlainTextShows(env.fileText, item.body.segments, u.placeholder, MARKER);
    }
  }

  lemma {:induction false} KeepRetainsText(env: Env, recent: set<string>, segments: seq<Segment>, close: bool, text: string)
    requires Text(text) in segments
    ensures Text(text) in ToKeep(env, recent, segments, close)
  {
    var front, last := segments[..|segments| - 1], segments[|segments| - 1];
    assert segments == front + [last];
    if last != Text(text) {
      KeepRetainsText(env, recent, front, close, text);
    }
  }

  lemma {:induction false} KeepLosesImages(env: Env, recent: set<string>, segments: seq<Segment>, close: bool)
    ensures LosesImages(segments, ToKeep(env, recent, segments, close))
  {
    if segments != [] {
      var kept := ToKeep(env, recent, segments[..|segments| - 1], close);
      KeepLosesImages(env, recent, segments[..|segments| - 1], close);
      assert (kept + [segments[|segments| - 1]])[..|kept|] == kept && kept + [] == kept;
    }
  }

  lemma OneMore(front: seq<Segment>, last: Segment, kept: seq<Segment>, gone: seq<Segment>)
    requires multiset(front) == multiset(kept) + multiset(gone)
    ensures multiset(front + [last]) == multiset(kept + [last]) + multiset(gone + [])
    ensures multiset(front + [last]) == multiset(kept + []) + multiset(gone + [last])
  {
    assert kept + [] == kept && gone + [] == gone;
  }

  lemma {:induction false} KeptAndGone(env: Env, recent: set<string>, segments: seq<Segment>, close: bool)
    ensures multiset(segments)
         == multiset(ToKeep(env, recent, segments, close)) + multiset(ToUnload(env, recent, segments, close))
  {
    if segments != [] {
      var front, last := segments[..|segments| - 1], segments[|segments| - 1];
      KeptAndGone(env, recent, front, close);
      OneMore(front, last, ToKeep(env, recent, front, close), ToUnload(env, recent, front, close));
      assert segments == front + [last];
    }
  }

  lemma UnloadExchanges(env: Env, recent: set<string>, segments: seq<Segment>, close: bool, u: Unload)
    requires u.segments == ToUnload(env, recent, segments, close)
    ensures Exchanges(segments, ToKeep(env, recent, segments, close) + [Text(u.placeholder)], [u])
  {
    KeepLosesImages(env, recent, segments, close);
    KeptAndGone(env, recent, segments, close);
    assert [u][..0] == [] && Marks([u]) == [Text(u.placeholder)];
    ExchangesFrom(segments, ToKeep(env, recent, segments, close), [u]);
  }

  // Unloading one message: it shows the new placeholder, and still every earlier one.
  lemma UnloadedShows(env: Env, recent: set<string>, items: seq<Item>, k: nat, guard: int)
    requires k < |items| && Unloaded(env, recent, items, k, guard).Some?
    ensures var (item, u) := Unloaded(env, recent, items, k, guard).value;
            && StripsTo(items[k], item, [u]) && Marked(u) && Shows(item, u.placeholder)
            && u.segments != [] && u.id == "imgu_" + env.unloadDigest(u.role, u.index, u.segments)
    ensures forall p :: Shows(items[k], p) ==> Shows(Unloaded(env, recent, items, k, guard).value.0, p)
  {
    var (item, u) := Unloaded(env, recent, items, k, guard).value;
    var segments, close := items[k].body.segments, CloseToEnd(items, k, guard);
    var kept := ToKeep(env, recent, segments, close) + [Text(u.placeholder)];
    assert kept[|kept| - 1] == Text(u.placeholder);
    UnloadExchanges(env, recent, segments, close, u);
    assert Parts(item) == kept;
    forall p | Shows(items[k], p) ensures Shows(item, p) {
      KeepRetainsText(env, recent, segments, close, p);
      assert Text(p) in kept && |kept| >= 2;
    }
  }

  lemma UpdateKeepsTail(items: seq<Item>, k: nat, item: Item)
    requires k + SuffixLength(items) < |items| && SameKind(items[k], item)
    ensures KeepsTail(items, items[k := item])
  {
    assert Tail(items[k := item], SuffixLength(items)) == Tail(items, SuffixLength(items));
    TrailingBound(items);
    SameTailKeeps(items, items[k := item]);
  }

  // b is a with some messages unloaded past the prefix and before the tail.
  ghost predicate UnloadsInto(a: seq<Item>, b: seq<Item>, prefix: nat, unloads: seq<Unload>) {
    && |b| == |a| && prefix <= |a| && b[..prefix] == a[..prefix] && KeepsTail(a, b)
    && (forall k :: 0 <= k < |a| ==> Derives(a[k], b[k], unloads))
    && (forall p, k :: 0 <= k < |a| && Shows(a[k], p) ==> Shows(b[k], p))
  }

  lemma UnloadsIntoTrans(a: seq<Item>, b: seq<Item>, c: seq<Item>, prefix: nat, u: Unload, unloads: seq<Unload>)
    requires UnloadsInto(a, b, prefix, [u]) && UnloadsInto(b, c, prefix, unloads)
    ensures UnloadsInto(a, c, prefix, [u] + unloads)
  {
    forall k | 0 <= k < |a| ensures Derives(a[k], c[k], [u] + unloads) {
      DerivesMore(a[k], b[k], [u], [u] + unloads);
      DerivesMore(b[k], c[k], unloads, [u] + unloads);
      DerivesTrans(a[k], b[k], c[k], [u] + unloads);
    }
  }

  lemma ShownOn(a: seq<Item>, b: seq<Item>, prefix: nat, unloads: seq<Unload>, placeholder: string)
    requires UnloadsInto(a, b, prefix, unloads) && ShownIn(a, placeholder)
    ensures ShownIn(b, placeholder)
  {
    var k :| 0 <= k < |a| && Shows(a[k], placeholder);
    assert Shows(b[k], placeholder);
  }

  lemma UnloadsNothing(items: seq<Item>, prefix: nat)
    requires prefix <= |items|
    ensures UnloadsInto(items, items, prefix, [])
  {
    TrailingBound(items);
    forall k | 0 <= k < |items| ensures Derives(items[k], items[k], []) {
      DerivesSelf(items[k], []);
    }
  }

  lemma UnloadedInto(items: seq<Item>, prefix: nat, k: nat, item: Item, u: Unload)
    requires prefix <= k && k + SuffixLength(items) < |items| && StripsTo(items[k], item, [u])
    requires forall p :: Shows(items[k], p) ==> Shows(item, p)
    ensures UnloadsInto(items, items[k := item], prefix, [u])
  {
    UpdateKeepsTail(items, k, item);
    forall i | 0 <= i < |items| ensures Derives(items[i], items[k := item][i], [u]) {
      if i == k {
        assert AllIn([u], [u]);
      } else {
        DerivesSelf(items[i], [u]);
      }
    }
    assert items[k := item][..prefix] == items[..prefix];
  }

  lemma UnloadStep(env: Env, records: seq<Record>, items: seq<Item>, prefix: nat, guard: int)
    requires prefix <= |items| && UnloadedOldest(env, records, items, prefix, guard).Some?
    ensures var (patched, u) := UnloadedOldest(env, records, items, prefix, guard).value;
            && UnloadsInto(items, patched, prefix, [u]) && Marked(u) && ShownIn(patched, u.placeholder)
            && u.segments != [] && u.id == "imgu_" + env.unloadDigest(u.role, u.index, u.segments)
  {
    var recent := RestoredFingerprints(env.fingerprint, records);
    TrailingBound(items);
    FirstUnloadFits(env, recent, items, prefix, |items| - SuffixLength(items), guard);
    var k := FirstUnload(env, recent, items, prefix, |items| - SuffixLength(items), guard).value;
    UnloadedShows(env, recent, items, k, guard);
    var (item, u) := Unloaded(env, recent, items, k, guard).value;
    UnloadedInto(items, prefix, k, item, u);
    assert Shows(items[k := item][k], u.placeholder);
  }

  // ---------- the store keeps step ----------

  ghost predicate InjectiveDigest(env: Env) {
    forall r, i, s, r', i', s' {:trigger env.unloadDigest(r, i, s), env.unloadDigest(r', i', s')} ::
      env.unloadDigest(r, i, s) == env.unloadDigest(r', i', s') ==> r == r' && i == i' && s == s'
  }

  // Ids are unique and each record's id is the digest of what it holds.
  ghost predicate StoreOk(env: Env, records: seq<Record>) {
    && UniqueIds(records)
    && (forall r :: r in records ==> r.unloadId == "imgu_" + env.unloadDigest(r.role, r.historyIndex, r.segments))
  }

  // The store holds, not restored, a record with the unload's id and exactly its segments.
  ghost predicate Recoverable(records: seq<Record>, u: Unload) {
    exists k :: 0 <= k < |records| && records[k].unloadId == u.id && records[k].segments == u.segments
      && records[k].role == u.role && !records[k].restored
  }

  // Appending a record keeps the store in order, whether or not the digest collides.
  lemma AppendKeepsStore(env: Env, records: seq<Record>, u: Unload)
    requires StoreOk(env, records)
    requires u.segments != [] && u.id == "imgu_" + env.unloadDigest(u.role, u.index, u.segments)
    ensures StoreOk(env, Appended(records, UnloadRecord(u)))
  {
    var after := Appended(records, UnloadRecord(u));
    AppendFacts(records, UnloadRecord(u));
    forall s | s in after ensures s.unloadId == "imgu_" + env.unloadDigest(s.role, s.historyIndex, s.segments) {
      var i :| 0 <= i < |after| && after[i] == s;
      if i < |records| {
        assert records[i] in records;
      }
    }
  }

  predicate SameImages(r: Record, u: Unload) {
    r.unloadId == u.id && r.role == u.role && r.segments == u.segments
  }

  // The record tells all about the unload.
  predicate RecordTells(r: Record, u: Unload) {
    SameImages(r, u) && r.placeholder == u.placeholder && r.historyIndex == u.index
  }

  ghost predicate FromUnload(r: Record, unloads: seq<Unload>) {
    exists u :: u in unloads && RecordTells(r, u)
  }

  // The records of the store are the ones before, maybe made active again, and then one for each
  // of some unloads; every unload finds its id there, active.
  ghost predicate Grown(records: seq<Record>, store: seq<Record>, unloads: seq<Unload>) {
    && UniqueIds(store) && |records| <= |store|
    && (forall k :: 0 <= k < |records| ==> store[k] == records[k].(restored := store[k].restored))
    && (forall k :: 0 <= k < |records| && !records[k].restored ==> !store[k].restored)
    && (forall k :: |records| <= k < |store| ==> FromUnload(store[k], unloads))
    && (forall u :: u in unloads ==> ActiveIn(store, u.id))
  }

  ghost predicate ActiveIn(store: seq<Record>, id: string) {
    exists k :: 0 <= k < |store| && store[k].unloadId == id && !store[k].restored
  }

  lemma AppendGrows(records: seq<Record>, u: Unload)
    requires UniqueIds(records) && u.id != "" && u.segments != []
    ensures Grown(records, Appended(records, UnloadRecord(u)), [u])
  {
    var after := Appended(records, UnloadRecord(u));
    AppendFacts(records, UnloadRecord(u));
    forall k | |records| <= k < |after| ensures FromUnload(after[k], [u]) {
      assert u in [u] && RecordTells(after[k], u);
    }
    assert ActiveIn(after, u.id);
  }

  lemma GrownTrans(records: seq<Record>, mid: seq<Record>, store: seq<Record>, u: Unload, unloads: seq<Unload>)
    requires Grown(records, mid, [u]) && Grown(mid, store, unloads)
    ensures Grown(records, store, [u] + unloads)
  {
    forall k | |records| <= k < |store| ensures FromUnload(store[k], [u] + unloads) {
      if k < |mid| {
        assert FromUnload(mid[k], [u]);
        var v :| v in [u] && RecordTells(mid[k], v);
        assert v in [u] + unloads && RecordTells(store[k], v);
      } else {
        assert FromUnload(store[k], unloads);
        var v :| v in unloads && RecordTells(store[k], v);
        assert v in [u] + unloads;
      }
    }
    forall v | v in [u] + unloads ensures ActiveIn(store, v.id) {
      if v !in unloads {
        var k :| 0 <= k < |mid| && mid[k].unloadId == u.id && !mid[k].restored;
        assert store[k].unloadId == u.id && !store[k].restored;
      }
    }
  }

  // What the unload loop does to the history.
  lemma {:induction false} UnloadLoopShape(env: Env, cfg: Config, budget: int, prefix: nat, records: seq<Record>,
                                           items: seq<Item>)
    requires prefix <= |items|
    ensures var (out, store, unloads) := UnloadLoop(env, cfg, budget, prefix, records, items);
            && UnloadsInto(items, out, prefix, unloads)
            && (forall u :: u in unloads ==> Marked(u) && ShownIn(out, u.placeholder))
    decreases ImageCount(items)
  {
    UnloadsNothing(items, prefix);
    if env.tokens(items) > budget {
      var step := UnloadedOldest(env, records, items, prefix, cfg.guardMessages);
      if step.Some? {
        var (patched, u) := step.value;
        UnloadStep(env, records, items, prefix, cfg.guardMessages);
        UnloadDropsImages(env, records, items, prefix, cfg.guardMessages);
        var after := Appended(records, UnloadRecord(u));
        UnloadLoopShape(env, cfg, budget, prefix, after, patched);
        var (out, store, unloads) := UnloadLoop(env, cfg, budget, prefix, after, patched);
        UnloadsIntoTrans(items, patched, out, prefix, u, unloads);
        ShownOn(patched, out, prefix, unloads, u.placeholder);
      }
    }
  }

  // What it does to the store.
  lemma {:induction false} UnloadLoopStore(env: Env, cfg: Config, budget: int, prefix: nat, records: seq<Record>,
                                           items: seq<Item>)
    requires UniqueIds(records) && prefix <= |items|
    ensures var (out, store, unloads) := UnloadLoop(env, cfg, budget, prefix, records, items);
            Grown(records, store, unloads) && (StoreOk(env, records) ==> StoreOk(env, store))
    decreases ImageCount(items)
  {
    if env.tokens(items) > budget && UnloadedOldest(env, records, items, prefix, cfg.guardMessages).Some? {
      var (patched, u) := UnloadedOldest(env, records, items, prefix, cfg.guardMessages).value;
      UnloadStep(env, records, items, prefix, cfg.guardMessages);
      UnloadDropsImages(env, records, items, prefix, cfg.guardMessages);
      var after := Appended(records, UnloadRecord(u));
      AppendGrows(records, u);
      if StoreOk(env, records) {
        AppendKeepsStore(env, records, u);
      }
      UnloadLoopStore(env, cfg, budget, prefix, after, patched);
      var (out, store, unloads) := UnloadLoop(env, cfg, budget, prefix, after, patched);
      GrownTrans(records, after, store, u, unloads);
    }
  }

  // No unload met another list of segments under its id, in the store or among the unloads.
  ghost predicate NoCollision(records: seq<Record>, unloads: seq<Unload>) {
    && (forall r, u :: r in records && u in unloads && r.unloadId == u.id ==> SameImages(r, u))
    && (forall u, v :: u in unloads && v in unloads && u.id == v.id ==> u.role == v.role && u.segments == v.segments)
  }

  lemma CollisionFreeRecovers(records: seq<Record>, store: seq<Record>, unloads: seq<Unload>, u: Unload)
    requires Grown(records, store, unloads) && NoCollision(records, unloads) && u in unloads
    ensures Recoverable(store, u)
  {
    assert ActiveIn(store, u.id);
    var k :| 0 <= k < |store| && store[k].unloadId == u.id && !store[k].restored;
    if k < |records| {
      assert records[k] in records && records[k].unloadId == u.id;
    } else {
      assert FromUnload(store[k], unloads);
      var v :| v in unloads && RecordTells(store[k], v);
    }
  }

  lemma RecoveredMeansSame(records: seq<Record>, store: seq<Record>, unloads: seq<Unload>)
    requires Grown(records, store, unloads) && forall u :: u in unloads ==> Recoverable(store, u)
    ensures NoCollision(records, unloads)
  {
    forall r, u | r in records && u in unloads && r.unloadId == u.id ensures SameImages(r, u) {
      var j :| 0 <= j < |records| && records[j] == r;
      assert Recoverable(store, u);
      var k :| 0 <= k < |store| && store[k].unloadId == u.id && store[k].segments == u.segments
        && store[k].role == u.role && !store[k].restored;
      assert store[j].unloadId == store[k].unloadId;
    }
    forall u, v | u in unloads && v in unloads && u.id == v.id ensures u.role == v.role && u.segments == v.segments {
      assert Recoverable(store, u) && Recoverable(store, v);
      var j :| 0 <= j < |store| && store[j].unloadId == u.id && store[j].segments == u.segments
        && store[j].role == u.role && !store[j].restored;
      var k :| 0 <= k < |store| && store[k].unloadId == v.id && store[k].segments == v.segments
        && store[k].role == v.role && !store[k].restored;
      assert j == k;
    }
  }

  // ---------- dropping ----------

  // b is a with some items dropped past the prefix and before the tail.
  ghost predicate DropsInto(a: seq<Item>, b: seq<Item>, prefix: nat) {
    && prefix <= |a| && prefix <= |b| && b[..prefix] == a[..prefix]
    && IsSelection(a, b) && KeepsTail(a, b)
  }

  lemma DropsIntoTrans(a: seq<Item>, b: seq<Item>, c: seq<Item>, prefix: nat)
    requires DropsInto(a, b, prefix) && DropsInto(b, c, prefix)
    ensures DropsInto(a, c, prefix)
  {
    SelectionTrans(a, b, c);
  }

  lemma DropStep(env: Env, budget: int, items: seq<Item>, prefix: nat)
    requires NextDrop(env, budget, prefix, items).Some?
    ensures var k := NextDrop(env, budget, prefix, items).value;
            k < |items| && DropsInto(items, Without(items, k), prefix)
  {
    TrailingBound(items);
    FirstDroppableFits(env, items, prefix, |items| - SuffixLength(items));
    var k := NextDrop(env, budget, prefix, items).value;
    CutSelection(items, k, k + 1);
    CutKeepsTail(items, k, k + 1);
    assert Without(items, k)[..prefix] == items[..prefix];
  }

  // Nothing that may be dropped is left between the prefix and the tail.
  ghost predicate NothingDroppable(env: Env, items: seq<Item>, prefix: nat) {
    forall k :: prefix <= k < |items| - SuffixLength(items) ==> !Droppable(env, items[k])
  }

  lemma DropsNothing(items: seq<Item>, prefix: nat)
    requires prefix <= |items|
    ensures DropsInto(items, items, prefix)
  {
    TrailingBound(items);
    SameSelection(items);
  }

  // The next item the drop loop takes out, if it goes on.
  ghost function NextDrop(env: Env, budget: int, prefix: nat, items: seq<Item>): Option<nat> {
    TrailingBound(items);
    if |items| <= prefix + SuffixLength(items) || env.tokens(items) <= budget then None
    else FirstDroppable(env, items, prefix, |items| - SuffixLength(items))
  }

  lemma DropLoopUnfolds(env: Env, budget: int, prefix: nat, items: seq<Item>)
    ensures var next, out := NextDrop(env, budget, prefix, items), DropLoop(env, budget, prefix, items);
            && (next.None? ==> out == items)
            && (next.Some? ==> next.value < |items| && out == DropLoop(env, budget, prefix, Without(items, next.value)))
  {
    TrailingBound(items);
    FirstDroppableFits(env, items, prefix, |items| - SuffixLength(items));
  }

  lemma {:induction false} DropLoopDrops(env: Env, budget: int, prefix: nat, items: seq<Item>)
    requires prefix <= |items|
    ensures DropsInto(items, DropLoop(env, budget, prefix, items), prefix)
    decreases |items|
  {
    var next := NextDrop(env, budget, prefix, items);
    DropLoopUnfolds(env, budget, prefix, items);
    if next.Some? {
      var rest := Without(items, next.value);
      var out := DropLoop(env, budget, prefix, rest);
      DropStep(env, budget, items, prefix);
      DropLoopDrops(env, budget, prefix, rest);
      DropsIntoTrans(items, rest, out, prefix);
    } else {
      DropsNothing(items, prefix);
    }
  }

  lemma {:induction false} DropLoopExhausts(env: Env, budget: int, prefix: nat, items: seq<Item>)
    ensures var out := DropLoop(env, budget, prefix, items);
            env.tokens(out) <= budget || NothingDroppable(env, out, prefix)
    decreases |items|
  {
    TrailingBound(items);
    var end := |items| - SuffixLength(items);
    if prefix < end && env.tokens(items) > budget {
      FirstDroppableFits(env, items, prefix, end);
      var at := FirstDroppable(env, items, prefix, end);
      if at.Some? {
        DropLoopExhausts(env, budget, prefix, Without(items, at.value));
      }
    }
  }

  // What cannot be dropped before the loop is still there after it.
  lemma {:induction false} DropLoopKeeps(env: Env, budget: int, prefix: nat, items: seq<Item>, u: Unload)
    requires Marked(u) && ShownIn(items, u.placeholder)
    ensures ShownIn(DropLoop(env, budget, prefix, items), u.placeholder)
    decreases |items|
  {
    TrailingBound(items);
    if |items| > prefix + SuffixLength(items) && env.tokens(items) > budget {
      FirstDroppableFits(env, items, prefix, |items| - SuffixLength(items));
      var at := FirstDroppable(env, items, prefix, |items| - SuffixLength(items));
      if at.Some? {
        var k, shown := at.value, 0;
        shown :| 0 <= shown < |items| && Shows(items[shown], u.placeholder);
        ShownNotDroppable(env, items[shown], u);
        var rest := Without(items, k);
        assert rest[if shown < k then shown else shown - 1] == items[shown];
        DropLoopKeeps(env, budget, prefix, rest, u);
      }
    }
  }

  // ---------- the hook ----------

  // The regions the hook protects: the last message block, and in a sub-session everything up
  // to the first user message; images in them may only have been recompressed.
  ghost predicate Protects(env: Env, isSub: bool, items: seq<Item>, out: seq<Item>) {
    var n, pe := SuffixLength(items), SubPrefix(isSub, items);
    && n <= |items| && n <= |out| && Tail(out, n) == RecompressItems(env, Tail(items, n))
    && pe <= |items| && pe <= |out| && out[..pe] == RecompressItems(env, items[..pe])
  }

  lemma TruncationResult(env: Env, cfg: Config, isSub: bool, items: seq<Item>)
    ensures var out := AfterTruncation(env, cfg, isSub, items);
            && Protects(env, isSub, items, out)
            && SuffixLength(out) == SuffixLength(items) && SubPrefix(isSub, out) == SubPrefix(isSub, items)
  {
    FirstUserBound(items);
    TruncationKeepsHead(env, cfg, items, SubPrefix(isSub, items));
    TruncationProtects(env, cfg, items, SubPrefix(isSub, items));
  }

  lemma ProtectsOn(env: Env, isSub: bool, items: seq<Item>, mid: seq<Item>, out: seq<Item>)
    requires Protects(env, isSub, items, mid) && SuffixLength(mid) == SuffixLength(items)
    requires KeepsTail(mid, out)
    requires SubPrefix(isSub, items) <= |out| && out[..SubPrefix(isSub, items)] == mid[..SubPrefix(isSub, items)]
    ensures Protects(env, isSub, items, out)
  {
  }

  lemma RecencyResult(env: Env, cfg: Config, isSub: bool, items: seq<Item>)
    ensures var out := AfterRecency(env, cfg, isSub, items);
            && IsSelection(AfterTruncation(env, cfg, isSub, items), out) && Protects(env, isSub, items, out)
            && SuffixLength(out) == SuffixLength(items) && SubPrefix(isSub, out) == SubPrefix(isSub, items)
  {
    var truncated := AfterTruncation(env, cfg, isSub, items);
    TruncationResult(env, cfg, isSub, items);
    RecentTail(cfg, isSub, truncated);
    RecentHead(cfg, isSub, truncated);
    ProtectsOn(env, isSub, items, truncated, Recent(cfg, isSub, truncated));
  }

  // The last two phases, from the history after the recency phase.
  lemma LoopsResult(env: Env, cfg: Config, budget: int, prefix: nat, records: seq<Record>, recent: seq<Item>)
    requires prefix <= |recent|
    ensures var (unloaded, store, unloads) := UnloadLoop(env, cfg, budget, prefix, records, recent);
            var out := DropLoop(env, budget, prefix, unloaded);
            && (forall source :: IsSelection(source, recent) ==> IsDerived(source, out, unloads))
            && KeepsTail(recent, out) && prefix <= |out| && out[..prefix] == recent[..prefix]
            && (forall u :: u in unloads ==> Marked(u) && ShownIn(out, u.placeholder))
  {
    var (unloaded, store, unloads) := UnloadLoop(env, cfg, budget, prefix, records, recent);
    UnloadLoopShape(env, cfg, budget, prefix, records, recent);
    DropLoopDrops(env, budget, prefix, unloaded);
    forall source | IsSelection(source, recent) ensures IsDerived(source, DropLoop(env, budget, prefix, unloaded), unloads) {
      DerivedBySelections(source, recent, unloaded, DropLoop(env, budget, prefix, unloaded), unloads);
    }
    forall u | u in unloads ensures ShownIn(DropLoop(env, budget, prefix, unloaded), u.placeholder) {
      DropLoopKeeps(env, budget, prefix, unloaded, u);
    }
  }

  // The compressed history is some of the items of the truncated one, in their order: each the
  // same item, or the same message with images exchanged, in the run, for placeholders at its
  // end. And the protected regions survive.
  lemma CompressionPreserves(env: Env, cfg: Config, isSub: bool, budget: int, promptTokens: int,
                             records: seq<Record>, items: seq<Item>)
    ensures var (outcome, store, unloads) := HookResult(env, cfg, isSub, budget, promptTokens, records, items);
            outcome.Compressed? ==>
              && IsDerived(AfterTruncation(env, cfg, isSub, items), outcome.history, unloads)
              && Protects(env, isSub, items, outcome.history)
  {
    var (outcome, store, unloads) := HookResult(env, cfg, isSub, budget, promptTokens, records, items);
    if outcome.Compressed? {
      var truncated, recent := AfterTruncation(env, cfg, isSub, items), AfterRecency(env, cfg, isSub, items);
      TruncationResult(env, cfg, isSub, items);
      RecencyResult(env, cfg, isSub, items);
      if env.tokens(truncated) <= budget {
        SameSelection(truncated);
        SelectionDerives(truncated, truncated, unloads);
      } else if env.tokens(recent) <= budget {
        SelectionDerives(truncated, recent, unloads);
      } else {
        LoopsResult(env, cfg, budget, SubPrefix(isSub, recent), records, recent);
        ProtectsOn(env, isSub, items, recent, outcome.history);
      }
    }
  }

  // A message whose text shows the unload marker.
  predicate ShowsMarker(env: Env, item: Item) {
    item.Message? && Contains(PlainText(env.fileText, item.body), MARKER)
  }

  lemma LeftoversShowMarker(env: Env, items: seq<Item>, prefix: nat, suffix: nat)
    requires NothingDroppable(env, items, prefix) && SuffixLength(items) == suffix
    ensures forall k :: prefix <= k < |items| - suffix ==> ShowsMarker(env, items[k])
  {
    forall k | prefix <= k < |items| - suffix ensures ShowsMarker(env, items[k]) {
      assert !Droppable(env, items[k]);
    }
  }

  // The hook stops only within the budget, or with nothing unprotected left but messages
  // whose text shows the unload marker.
  lemma CompressionExhausts(env: Env, cfg: Config, isSub: bool, budget: int, promptTokens: int,
                            records: seq<Record>, items: seq<Item>)
    ensures var outcome := HookResult(env, cfg, isSub, budget, promptTokens, records, items).0;
            outcome.Compressed? && env.tokens(outcome.history) > budget ==>
              forall k :: SubPrefix(isSub, items) <= k < |outcome.history| - SuffixLength(items) ==>
                ShowsMarker(env, outcome.history[k])
  {
    var outcome := HookResult(env, cfg, isSub, budget, promptTokens, records, items).0;
    if outcome.Compressed? && env.tokens(outcome.history) > budget {
      var recent := AfterRecency(env, cfg, isSub, items);
      RecencyResult(env, cfg, isSub, items);
      OverBudgetRanLoops(env, cfg, isSub, budget, promptTokens, records, items);
      LoopsExhaust(env, cfg, budget, SubPrefix(isSub, recent), records, recent);
      LeftoversShowMarker(env, outcome.history, SubPrefix(isSub, recent), SuffixLength(recent));
    }
  }

  function AfterLoops(env: Env, cfg: Config, budget: int, prefix: nat, records: seq<Record>, recent: seq<Item>): seq<Item> {
    DropLoop(env, budget, prefix, UnloadLoop(env, cfg, budget, prefix, records, recent).0)
  }

  lemma OverBudgetRanLoops(env: Env, cfg: Config, isSub: bool, budget: int, promptTokens: int,
                           records: seq<Record>, items: seq<Item>)
    ensures var outcome, recent := HookResult(env, cfg, isSub, budget, promptTokens, records, items).0,
                                   AfterRecency(env, cfg, isSub, items);
            outcome.Compressed? && env.tokens(outcome.history) > budget ==>
              outcome.history == AfterLoops(env, cfg, budget, SubPrefix(isSub, recent), records, recent)
  {
  }

  lemma LoopsExhaust(env: Env, cfg: Config, budget: int, prefix: nat, records: seq<Record>, recent: seq<Item>)
    requires prefix <= |recent|
    ensures var out := AfterLoops(env, cfg, budget, prefix, records, recent);
            && SuffixLength(out) == SuffixLength(recent)
            && (env.tokens(out) <= budget || NothingDroppable(env, out, prefix))
  {
    var unloaded := UnloadLoop(env, cfg, budget, prefix, records, recent).0;
    UnloadLoopShape(env, cfg, budget, prefix, records, recent);
    DropLoopDrops(env, budget, prefix, unloaded);
    DropLoopExhausts(env, budget, prefix, unloaded);
  }

  // A recoverable unload is handed out on request, exactly its segments, and only once.
  lemma RecoverableConsumes(records: seq<Record>, u: Unload)
    requires UniqueIds(records) && Recoverable(records, u)
    ensures var (after, handed) := Consumed(records, {u.id});
            && |handed| == 1 && handed[0].unloadId == u.id && handed[0].segments == u.segments
            && handed[0].role == u.role && Consumed(after, {u.id}) == (after, [])
  {
    var k :| 0 <= k < |records| && records[k].unloadId == u.id && records[k].segments == u.segments
      && records[k].role == u.role && !records[k].restored;
    ConsumeOnce(records, k);
  }

  // Where the store and the unloads of a run come from.
  lemma RunStore(env: Env, cfg: Config, isSub: bool, budget: int, promptTokens: int,
                 records: seq<Record>, items: seq<Item>)
    requires UniqueIds(records)
    ensures var (outcome, store, unloads) := HookResult(env, cfg, isSub, budget, promptTokens, records, items);
            Grown(records, store, unloads) && (StoreOk(env, records) ==> StoreOk(env, store))
  {
    var recent := AfterRecency(env, cfg, isSub, items);
    RecencyResult(env, cfg, isSub, items);
    UnloadLoopStore(env, cfg, budget, SubPrefix(isSub, recent), records, recent);
  }

  // A run that unloads anything went through both loops.
  lemma UnloadsRanLoops(env: Env, cfg: Config, isSub: bool, budget: int, promptTokens: int,
                        records: seq<Record>, items: seq<Item>)
    ensures var (outcome, store, unloads) := HookResult(env, cfg, isSub, budget, promptTokens, records, items);
            var recent := AfterRecency(env, cfg, isSub, items);
            unloads != [] ==>
              && outcome == Compressed(AfterLoops(env, cfg, budget, SubPrefix(isSub, recent), records, recent))
              && unloads == UnloadLoop(env, cfg, budget, SubPrefix(isSub, recent), records, recent).2
  {
  }

  // Every image message unloaded in a run shows its placeholder in the output.
  lemma UnloadedIsShown(env: Env, cfg: Config, isSub: bool, budget: int, promptTokens: int,
                        records: seq<Record>, items: seq<Item>)
    ensures var (outcome, store, unloads) := HookResult(env, cfg, isSub, budget, promptTokens, records, items);
            forall u :: u in unloads ==> outcome.Compressed? && ShownIn(outcome.history, u.placeholder)
  {
    var recent := AfterRecency(env, cfg, isSub, items);
    UnloadsRanLoops(env, cfg, isSub, budget, promptTokens, records, items);
    RecencyResult(env, cfg, isSub, items);
    LoopsResult(env, cfg, budget, SubPrefix(isSub, recent), records, recent);
  }

  // The unloads of a run are all recoverable (see RecoverableConsumes) exactly if none met other
  // segments under the same shortened digest, in the store or in the run.
  lemma RecoverableIff(env: Env, cfg: Config, isSub: bool, budget: int, promptTokens: int,
                       records: seq<Record>, items: seq<Item>)
    requires UniqueIds(records)
    ensures var (outcome, store, unloads) := HookResult(env, cfg, isSub, budget, promptTokens, records, items);
            UniqueIds(store) && ((forall u :: u in unloads ==> Recoverable(store, u)) <==> NoCollision(records, unloads))
  {
    var (outcome, store, unloads) := HookResult(env, cfg, isSub, budget, promptTokens, records, items);
    RunStore(env, cfg, isSub, budget, promptTokens, records, items);
    if NoCollision(records, unloads) {
      forall u | u in unloads ensures Recoverable(store, u) {
        CollisionFreeRecovers(records, store, unloads, u);
      }
    }
    if forall u :: u in unloads ==> Recoverable(store, u) {
      RecoveredMeansSame(records, store, unloads);
    }
  }

  // The ids of a run's unloads are digests of what they hold.
  lemma {:induction false} UnloadLoopIds(env: Env, cfg: Config, budget: int, prefix: nat, records: seq<Record>,
                                         items: seq<Item>)
    requires prefix <= |items|
    ensures forall u :: u in UnloadLoop(env, cfg, budget, prefix, records, items).2 ==>
              u.id == "imgu_" + env.unloadDigest(u.role, u.index, u.segments)
    decreases ImageCount(items)
  {
    if env.tokens(items) > budget && UnloadedOldest(env, records, items, prefix, cfg.guardMessages).Some? {
      var (patched, u) := UnloadedOldest(env, records, items, prefix, cfg.guardMessages).value;
      UnloadStep(env, records, items, prefix, cfg.guardMessages);
      UnloadDropsImages(env, records, items, prefix, cfg.guardMessages);
      UnloadLoopIds(env, cfg, budget, prefix, Appended(records, UnloadRecord(u)), patched);
    }
  }

  lemma SameDigest(a: string, b: string)
    requires "imgu_" + a == "imgu_" + b
    ensures a == b
  {
    assert ("imgu_" + a)[5..] == a && ("imgu_" + b)[5..] == b;
  }

  // With an injective digest nothing collides.
  lemma InjectiveNeverCollides(env: Env, records: seq<Record>, unloads: seq<Unload>)
    requires InjectiveDigest(env) && StoreOk(env, records)
    requires forall u :: u in unloads ==> u.id == "imgu_" + env.unloadDigest(u.role, u.index, u.segments)
    ensures NoCollision(records, unloads)
  {
    forall r, u | r in records && u in unloads && r.unloadId == u.id ensures SameImages(r, u) {
      SameDigest(env.unloadDigest(r.role, r.historyIndex, r.segments), env.unloadDigest(u.role, u.index, u.segments));
    }
    forall u, v | u in unloads && v in unloads && u.id == v.id ensures u.role == v.role && u.segments == v.segments {
      SameDigest(env.unloadDigest(u.role, u.index, u.segments), env.unloadDigest(v.role, v.index, v.segments));
    }
  }

  // So with an injective digest every image message unloaded in the run is recoverable, and its
  // placeholder is in the output.
  lemma UnloadedIsRecoverable(env: Env, cfg: Config, isSub: bool, budget: int, promptTokens: int,
                              records: seq<Record>, items: seq<Item>)
    requires InjectiveDigest(env) && StoreOk(env, records)
    ensures var (outcome, store, unloads) := HookResult(env, cfg, isSub, budget, promptTokens, records, items);
            && StoreOk(env, store)
            && forall u :: u in unloads ==>
                 outcome.Compressed? && ShownIn(outcome.history, u.placeholder) && Recoverable(store, u)
  {
    var (outcome, store, unloads) := HookResult(env, cfg, isSub, budget, promptTokens, records, items);
    var recent := AfterRecency(env, cfg, isSub, items);
    RecencyResult(env, cfg, isSub, items);
    UnloadLoopIds(env, cfg, budget, SubPrefix(isSub, recent), records, recent);
    InjectiveNeverCollides(env, records, unloads);
    RunStore(env, cfg, isSub, budget, promptTokens, records, items);
    RecoverableIff(env, cfg, isSub, budget, promptTokens, records, items);
    UnloadedIsShown(env, cfg, isSub, budget, promptTokens, records, items);
  }

  // ---------- over the life of a session ----------

  // What touches the store: a run of the hook, or a reload of some ids.
  datatype StoreStep =
    | Compress(cfg: Config, isSub: bool, budget: int, promptTokens: int, items: seq<Item>)
    | Reload(wanted: set<string>)

  function StoreAfter(env: Env, records: seq<Record>, step: StoreStep): seq<Record> {
    match step
    case Compress(cfg, isSub, budget, promptTokens, items) =>
      HookResult(env, cfg, isSub, budget, promptTokens, records, items).1
    case Reload(wanted) => Consumed(records, wanted).0
  }

  // The store after a session's steps, from an empty one.
  function StoreOf(env: Env, steps: seq<StoreStep>): seq<Record> {
    if steps == [] then [] else StoreAfter(env, StoreOf(env, steps[..|steps| - 1]), steps[|steps| - 1])
  }

  lemma ReloadKeepsStore(env: Env, records: seq<Record>, wanted: set<string>)
    requires StoreOk(env, records)
    ensures StoreOk(env, Consumed(records, wanted).0)
  {
    var after := Consumed(records, wanted).0;
    RestoredAt(records, IdsOf(Selected(records, wanted)));
    forall r | r in after ensures r.unloadId == "imgu_" + env.unloadDigest(r.role, r.historyIndex, r.segments) {
      var k :| 0 <= k < |after| && after[k] == r;
      assert records[k] in records;
    }
  }

  // Over any sequence of runs and reloads ids stay unique and digests true, so every run finds
  // the store as the theorems above ask.
  lemma {:induction false} StoreStaysOk(env: Env, steps: seq<StoreStep>)
    ensures StoreOk(env, StoreOf(env, steps))
  {
    if steps != [] {
      var records, step := StoreOf(env, steps[..|steps| - 1]), steps[|steps| - 1];
      StoreStaysOk(env, steps[..|steps| - 1]);
      if step.Compress? {
        RunStore(env, step.cfg, step.isSub, step.budget, step.promptTokens, records, step.items);
      } else {
        ReloadKeepsStore(env, records, step.wanted);
      }
    }
  }
}
