// Applying a unified patch: fairyclaw/capabilities/code_repair_ops/scripts/
// repair_apply_unified_patch.py. A file is its lines without their newlines; every line ends
// in one.
module Patch {
  import opened Wrappers

  predicate StartsWith(line: string, prefix: string) {
    |prefix| <= |line| && line[..|prefix|] == prefix
  }

  // ---------- hunks ----------

  function Closed(hunks: seq<seq<string>>, current: seq<string>): seq<seq<string>> {
    if current == [] then hunks else hunks + [current]
  }

  // The hunks once the lines still to come are read: current is the hunk being collected.
  function Collect(hunks: seq<seq<string>>, current: seq<string>, lines: seq<string>): seq<seq<string>>
    decreases |lines|
  {
    if lines == [] then Closed(hunks, current)
    else if StartsWith(lines[0], "@@") then Collect(Closed(hunks, current), [lines[0]], lines[1..])
    else Collect(hunks, if current == [] then [] else current + [lines[0]], lines[1..])
  }

  method SplitHunks(patch: seq<string>) returns (hunks: seq<seq<string>>)
    ensures hunks == Collect([], [], patch)
  {
    hunks := [];
    var current: seq<string> := [];
    for k := 0 to |patch|
      invariant Collect([], [], patch) == Collect(hunks, current, patch[k..])
    {
      var line := patch[k];
      assert patch[k..][0] == line && patch[k..][1..] == patch[k + 1..];
      if StartsWith(line, "@@") {
        if current != [] {
          hunks := hunks + [current];
        }
        current := [line];
      } else if current != [] {
        current := current + [line];
      }
    }
    if current != [] {
      hunks := hunks + [current];
    }
  }

  predicate IsHeader(line: string) {
    StartsWith(line, "@@")
  }

  // A header and lines that are not headers.
  predicate IsHunk(hunk: seq<string>) {
    hunk != [] && IsHeader(hunk[0]) && forall k :: 0 < k < |hunk| ==> !IsHeader(hunk[k])
  }

  function Flatten(hunks: seq<seq<string>>): seq<string> {
    if hunks == [] then [] else hunks[0] + Flatten(hunks[1..])
  }

  lemma {:induction false} CollectBody(hunks: seq<seq<string>>, current: seq<string>, body: seq<string>, rest: seq<string>)
    requires forall k :: 0 <= k < |body| ==> !IsHeader(body[k])
    ensures Collect(hunks, current, body + rest) == Collect(hunks, if current == [] then [] else current + body, rest)
    decreases |body|
  {
    if body != [] {
      assert (body + rest)[0] == body[0] && (body + rest)[1..] == body[1..] + rest;
      CollectBody(hunks, if current == [] then [] else current + [body[0]], body[1..], rest);
      assert current + [body[0]] + body[1..] == current + body;
    } else {
      assert body + rest == rest && current + body == current;
    }
  }

  lemma {:induction false} CollectHunks(done: seq<seq<string>>, current: seq<string>, hunks: seq<seq<string>>)
    requires forall k :: 0 <= k < |hunks| ==> IsHunk(hunks[k])
    ensures Collect(done, current, Flatten(hunks)) == Closed(done, current) + hunks
    decreases |hunks|
  {
    if hunks != [] {
      var hunk, rest := hunks[0], Flatten(hunks[1..]);
      assert (hunk + rest)[0] == hunk[0] && (hunk + rest)[1..] == hunk[1..] + rest;
      CollectBody(Closed(done, current), [hunk[0]], hunk[1..], rest);
      assert [hunk[0]] + hunk[1..] == hunk;
      CollectHunks(Closed(done, current), hunk, hunks[1..]);
      assert Closed(done, current) + [hunk] + hunks[1..] == Closed(done, current) + hunks;
    }
  }

  // Reading a written patch gives its hunks back; lines before the first header are dropped.
  lemma HunksRoundTrip(preamble: seq<string>, hunks: seq<seq<string>>)
    requires forall k :: 0 <= k < |preamble| ==> !IsHeader(preamble[k])
    requires forall k :: 0 <= k < |hunks| ==> IsHunk(hunks[k])
    ensures Collect([], [], preamble + Flatten(hunks)) == hunks
  {
    CollectBody([], [], preamble, Flatten(hunks));
    CollectHunks([], [], hunks);
  }

  // ---------- one hunk ----------

  datatype Kind = Context | Removal | Addition | Ignored

  // A line without a marker counts as context, an empty one as nothing.
  function KindOf(line: string): Kind {
    if line == "" || IsHeader(line) then Ignored
    else if line[0] == '-' then Removal
    else if line[0] == '+' then Addition
    else Context
  }

  function TextOf(line: string): string {
    if line != "" && line[0] in " -+" then line[1..] else line
  }

  // The texts of the lines of some kinds, in order.
  function Texts(body: seq<string>, kinds: set<Kind>): seq<string> {
    if body == [] then []
    else
      var last := body[|body| - 1];
      Texts(body[..|body| - 1], kinds) + if KindOf(last) in kinds then [TextOf(last)] else []
  }

  function OldOf(body: seq<string>): seq<string> {
    Texts(body, {Context, Removal})
  }

  function NewOf(body: seq<string>): seq<string> {
    Texts(body, {Context, Addition})
  }

  function AddedBy(body: seq<string>): seq<string> {
    Texts(body, {Addition})
  }

  function RemovedBy(body: seq<string>): seq<string> {
    Texts(body, {Removal})
  }

  predicate Has(body: seq<string>, kind: Kind) {
    exists k :: 0 <= k < |body| && KindOf(body[k]) == kind
  }

  method SplitBody(body: seq<string>) returns (old_: seq<string>, new_: seq<string>, added: seq<string>)
    requires forall k :: 0 <= k < |body| ==> !IsHeader(body[k])
    ensures old_ == OldOf(body) && new_ == NewOf(body) && added == AddedBy(body)
  {
    old_, new_, added := [], [], [];
    for k := 0 to |body|
      invariant old_ == OldOf(body[..k]) && new_ == NewOf(body[..k]) && added == AddedBy(body[..k])
    {
      assert body[..k + 1][..k] == body[..k];
      var line := body[k];
      if StartsWith(line, " ") {
        old_ := old_ + [line[1..]];
        new_ := new_ + [line[1..]];
      } else if StartsWith(line, "-") {
        old_ := old_ + [line[1..]];
      } else if StartsWith(line, "+") {
        new_ := new_ + [line[1..]];
        added := added + [line[1..]];
      } else if line != "" && !StartsWith(line, "@@") {
        old_ := old_ + [line];
        new_ := new_ + [line];
      }
    }
    assert body[..|body|] == body;
  }

  // What a line says about the old and the new file: a marked line its text without the marker, an
  // unmarked one itself; an empty line or a header nothing.
  lemma {:induction false} SidesByLine(before: seq<string>, line: string)
    ensures OldOf([]) == NewOf([]) == AddedBy([]) == []
    ensures var text := if line == "" then "" else line[1..];
            var (o, n, a) :=
              if line == "" || IsHeader(line) then ([], [], [])
              else if line[0] == ' ' then ([text], [text], [])
              else if line[0] == '-' then ([text], [], [])
              else if line[0] == '+' then ([], [text], [text])
              else ([line], [line], []);
            && OldOf(before + [line]) == OldOf(before) + o
            && NewOf(before + [line]) == NewOf(before) + n
            && AddedBy(before + [line]) == AddedBy(before) + a
  {
    assert (before + [line])[..|before|] == before;
  }

  // ---------- searching ----------

  predicate OccursAt(lines: seq<string>, needle: seq<string>, i: nat) {
    i + |needle| <= |lines| && lines[i..i + |needle|] == needle
  }

  // The first occurrence from start on.
  function FindFrom(lines: seq<string>, needle: seq<string>, start: nat): Option<nat>
    decreases |lines| - start
  {
    if start + |needle| > |lines| then None
    else if OccursAt(lines, needle, start) then Some(start)
    else FindFrom(lines, needle, start + 1)
  }

  // _find_sequence: an empty needle is found where the search starts.
  method FindSequence(lines: seq<string>, needle: seq<string>, start: nat) returns (at: Option<nat>)
    requires start <= |lines|
    ensures at == FindFrom(lines, needle, start)
  {
    if needle == [] {
      assert lines[start..start] == needle;
      return Some(start);
    }
    var i := start;
    while i <= |lines| - |needle|
      invariant FindFrom(lines, needle, start) == FindFrom(lines, needle, i)
      decreases |lines| - i
    {
      if lines[i..i + |needle|] == needle {
        return Some(i);
      }
      i := i + 1;
    }
    return None;
  }

  lemma {:induction false} FindsFirst(lines: seq<string>, needle: seq<string>, start: nat)
    ensures var at := FindFrom(lines, needle, start);
            && (at.Some? ==> start <= at.value && OccursAt(lines, needle, at.value))
            && (at.Some? ==> forall i :: start <= i < at.value ==> !OccursAt(lines, needle, i))
            && (at.None? ==> forall i :: start <= i ==> !OccursAt(lines, needle, i))
    decreases |lines| - start
  {
    if start + |needle| <= |lines| && !OccursAt(lines, needle, start) {
      FindsFirst(lines, needle, start + 1);
    }
  }

  // What is found fits.
  lemma FindFits(lines: seq<string>, needle: seq<string>, start: nat)
    ensures FindFrom(lines, needle, start).Some? ==>
              start <= FindFrom(lines, needle, start).value <= |lines| - |needle|
              && OccursAt(lines, needle, FindFrom(lines, needle, start).value)
  {
    FindsFirst(lines, needle, start);
  }

  // ---------- applying ----------

  datatype Progress = Progress(lines: seq<string>, cursor: nat)

  function Spliced(lines: seq<string>, i: nat, removed: nat, inserted: seq<string>): seq<string>
    requires i + removed <= |lines|
  {
    lines[..i] + inserted + lines[i + removed..]
  }

  // Where a hunk with removals goes: from the cursor on, else anywhere.
  function BlockAt(p: Progress, body: seq<string>): Option<nat> {
    var ahead := FindFrom(p.lines, OldOf(body), p.cursor);
    if ahead.Some? then ahead else FindFrom(p.lines, OldOf(body), 0)
  }

  // Where an insertion goes: before its context, else at the cursor.
  function AnchorAt(p: Progress, body: seq<string>): nat {
    FindFrom(p.lines, OldOf(body), p.cursor).GetOr(p.cursor)
  }

  function ApplyHunk(p: Progress, body: seq<string>): Option<Progress>
    requires p.cursor <= |p.lines|
  {
    if !Has(body, Removal) && !Has(body, Addition) then Some(p)
    else if Has(body, Removal) then
      FindFits(p.lines, OldOf(body), p.cursor);
      FindFits(p.lines, OldOf(body), 0);
      match BlockAt(p, body)
      case None => None
      case Some(i) => Some(Progress(Spliced(p.lines, i, |OldOf(body)|, NewOf(body)), i + |NewOf(body)|))
    else
      FindFits(p.lines, OldOf(body), p.cursor);
      var i := AnchorAt(p, body);
      Some(Progress(Spliced(p.lines, i, 0, AddedBy(body)), i + |AddedBy(body)|))
  }

  lemma ApplyHunkFits(p: Progress, body: seq<string>)
    requires p.cursor <= |p.lines|
    ensures ApplyHunk(p, body).Some? ==> ApplyHunk(p, body).value.cursor <= |ApplyHunk(p, body).value.lines|
  {
    FindFits(p.lines, OldOf(body), p.cursor);
    FindFits(p.lines, OldOf(body), 0);
  }

  function ApplyBodies(p: Progress, bodies: seq<seq<string>>): Option<Progress>
    requires p.cursor <= |p.lines|
    decreases |bodies|
  {
    ApplyHunkFits(p, if bodies == [] then [] else bodies[0]);
    if bodies == [] then Some(p)
    else
      match ApplyHunk(p, bodies[0])
      case None => None
      case Some(q) => ApplyBodies(q, bodies[1..])
  }

  datatype PatchResult = NoHunks | NoMatch | Patched(lines: seq<string>)

  function Bodies(hunks: seq<seq<string>>): seq<seq<string>> {
    seq(|hunks|, k requires 0 <= k < |hunks| => if hunks[k] == [] then [] else hunks[k][1..])
  }

  lemma {:induction false} CollectedAreHunks(hunks: seq<seq<string>>, current: seq<string>, lines: seq<string>)
    requires forall k :: 0 <= k < |hunks| ==> IsHunk(hunks[k])
    requires current == [] || IsHunk(current)
    ensures forall k :: 0 <= k < |Collect(hunks, current, lines)| ==> IsHunk(Collect(hunks, current, lines)[k])
    decreases |lines|
  {
    if lines != [] {
      if StartsWith(lines[0], "@@") {
        CollectedAreHunks(Closed(hunks, current), [lines[0]], lines[1..]);
      } else {
        CollectedAreHunks(hunks, if current == [] then [] else current + [lines[0]], lines[1..]);
      }
    }
  }

  function Applied(lines: seq<string>, patch: seq<string>): PatchResult {
    var hunks := Collect([], [], patch);
    CollectedAreHunks([], [], patch);
    if hunks == [] then NoHunks
    else
      match ApplyBodies(Progress(lines, 0), Bodies(hunks))
      case None => NoMatch
      case Some(p) => Patched(p.lines)
  }

  method ApplyPatch(source: seq<string>, patch: seq<string>) returns (result: PatchResult)
    ensures result == Applied(source, patch)
  {
    var hunks := SplitHunks(patch);
    CollectedAreHunks([], [], patch);
    if hunks == [] {
      return NoHunks;
    }
    var lines := source;
    var cursor: nat := 0;
    for k := 0 to |hunks|
      invariant cursor <= |lines|
      invariant ApplyBodies(Progress(source, 0), Bodies(hunks)) == ApplyBodies(Progress(lines, cursor), Bodies(hunks)[k..])
    {
      assert IsHunk(hunks[k]);
      ghost var p := Progress(lines, cursor);
      assert Bodies(hunks)[k..][0] == hunks[k][1..] && Bodies(hunks)[k..][1..] == Bodies(hunks)[k + 1..];
      var moved := ApplyBody(lines, cursor, hunks[k][1..]);
      ApplyHunkFits(p, hunks[k][1..]);
      if moved.None? {
        return NoMatch;
      }
      lines, cursor := moved.value.lines, moved.value.cursor;
    }
    return Patched(lines);
  }

  // One round of the loop over the hunks.
  method ApplyBody(lines: seq<string>, cursor: nat, body: seq<string>) returns (moved: Option<Progress>)
    requires cursor <= |lines| && forall k :: 0 <= k < |body| ==> !IsHeader(body[k])
    ensures moved == ApplyHunk(Progress(lines, cursor), body)
  {
    var expected, replacement, added := SplitBody(body);
    var hasRemovals := exists k :: 0 <= k < |body| && KindOf(body[k]) == Removal;
    var hasAdditions := exists k :: 0 <= k < |body| && KindOf(body[k]) == Addition;
    if !hasRemovals && !hasAdditions {
      return Some(Progress(lines, cursor));
    }
    FindFits(lines, expected, cursor);
    FindFits(lines, expected, 0);
    if hasRemovals {
      var block := FindSequence(lines, expected, cursor);
      if block.None? {
        block := FindSequence(lines, expected, 0);
      }
      if block.None? {
        return None;
      }
      var i := block.value;
      return Some(Progress(lines[..i] + replacement + lines[i + |expected|..], i + |replacement|));
    }
    var anchor := FindSequence(lines, expected, cursor);
    var i := anchor.GetOr(cursor);
    return Some(Progress(lines[..i] + added + lines[i..], i + |added|));
  }

  // ---------- the file the patch means ----------

  // A hunk and how many unchanged lines lie between it and the one before.
  datatype Edit = Edit(gap: nat, body: seq<string>)

  // The edits, in file order, replace these blocks of the file.
  predicate Fits(file: seq<string>, edits: seq<Edit>)
    decreases |edits|
  {
    edits == [] ||
    (OccursAt(file, OldOf(edits[0].body), edits[0].gap) && Fits(file[edits[0].gap + |OldOf(edits[0].body)|..], edits[1..]))
  }

  function NewFile(file: seq<string>, edits: seq<Edit>): seq<string>
    requires Fits(file, edits)
    decreases |edits|
  {
    if edits == [] then file
    else
      var e := edits[0];
      file[..e.gap] + NewOf(e.body) + NewFile(file[e.gap + |OldOf(e.body)|..], edits[1..])
  }

  // Each old block occurs after the block before first at its true place.
  predicate FirstOccurs(file: seq<string>, edits: seq<Edit>)
    requires Fits(file, edits)
    decreases |edits|
  {
    edits == [] ||
    ((forall i :: 0 <= i < edits[0].gap ==> !OccursAt(file, OldOf(edits[0].body), i))
     && FirstOccurs(file[edits[0].gap + |OldOf(edits[0].body)|..], edits[1..]))
  }

  function BodiesOf(edits: seq<Edit>): seq<seq<string>> {
    if edits == [] then [] else [edits[0].body] + BodiesOf(edits[1..])
  }

  lemma OccursPastPrefix(prefix: seq<string>, file: seq<string>, needle: seq<string>, i: nat)
    ensures OccursAt(prefix + file, needle, |prefix| + i) <==> OccursAt(file, needle, i)
  {
    if i + |needle| <= |file| {
      assert (prefix + file)[|prefix| + i..|prefix| + i + |needle|] == file[i..i + |needle|];
    }
  }

  // Searching past a prefix is searching what comes after it.
  lemma {:induction false} FindPastPrefix(prefix: seq<string>, file: seq<string>, needle: seq<string>, i: nat, gap: nat)
    requires i <= gap && OccursAt(file, needle, gap) && forall k :: i <= k < gap ==> !OccursAt(file, needle, k)
    ensures FindFrom(prefix + file, needle, |prefix| + i) == Some(|prefix| + gap)
    decreases gap - i
  {
    OccursPastPrefix(prefix, file, needle, i);
    if i < gap {
      FindPastPrefix(prefix, file, needle, i + 1, gap);
    }
  }

  lemma RemovalApplies(p: Progress, body: seq<string>, i: nat)
    requires p.cursor <= |p.lines| && Has(body, Removal) && FindFrom(p.lines, OldOf(body), p.cursor) == Some(i)
    ensures i + |OldOf(body)| <= |p.lines|
    ensures ApplyHunk(p, body) == Some(Progress(Spliced(p.lines, i, |OldOf(body)|, NewOf(body)), i + |NewOf(body)|))
  {
    FindFits(p.lines, OldOf(body), p.cursor);
  }

  lemma SplicedPastPrefix(prefix: seq<string>, file: seq<string>, gap: nat, n: nat, inserted: seq<string>)
    requires gap + n <= |file|
    ensures Spliced(prefix + file, |prefix| + gap, n, inserted) == prefix + file[..gap] + inserted + file[gap + n..]
  {
    assert (prefix + file)[..|prefix| + gap] == prefix + file[..gap];
    assert (prefix + file)[|prefix| + gap + n..] == file[gap + n..];
  }

  lemma EditApplies(prefix: seq<string>, file: seq<string>, e: Edit)
    requires OccursAt(file, OldOf(e.body), e.gap) && Has(e.body, Removal)
    requires forall i :: 0 <= i < e.gap ==> !OccursAt(file, OldOf(e.body), i)
    ensures var done := prefix + file[..e.gap] + NewOf(e.body);
            ApplyHunk(Progress(prefix + file, |prefix|), e.body)
            == Some(Progress(done + file[e.gap + |OldOf(e.body)|..], |done|))
  {
    FindPastPrefix(prefix, file, OldOf(e.body), 0, e.gap);
    RemovalApplies(Progress(prefix + file, |prefix|), e.body, |prefix| + e.gap);
    SplicedPastPrefix(prefix, file, e.gap, |OldOf(e.body)|, NewOf(e.body));
  }

  // The lines left once the hunks are applied, if all of them are.
  predicate Yields(p: Progress, bodies: seq<seq<string>>, lines: seq<string>)
    requires p.cursor <= |p.lines|
  {
    ApplyBodies(p, bodies).Some? && ApplyBodies(p, bodies).value.lines == lines
  }

  lemma YieldsStep(p: Progress, q: Progress, body: seq<string>, bodies: seq<seq<string>>, lines: seq<string>)
    requires p.cursor <= |p.lines| && q.cursor <= |q.lines|
    requires ApplyHunk(p, body) == Some(q) && Yields(q, bodies, lines)
    ensures Yields(p, [body] + bodies, lines)
  {
    assert ([body] + bodies)[1..] == bodies;
  }

  lemma {:induction false} EditsApply(prefix: seq<string>, file: seq<string>, edits: seq<Edit>)
    requires Fits(file, edits) && FirstOccurs(file, edits)
    requires forall k :: 0 <= k < |edits| ==> Has(edits[k].body, Removal)
    ensures Yields(Progress(prefix + file, |prefix|), BodiesOf(edits), prefix + NewFile(file, edits))
    decreases |edits|
  {
    if edits != [] {
      var e := edits[0];
      var done, rest := prefix + file[..e.gap] + NewOf(e.body), file[e.gap + |OldOf(e.body)|..];
      var p, q := Progress(prefix + file, |prefix|), Progress(done + rest, |done|);
      EditApplies(prefix, file, e);
      EditsApply(done, rest, edits[1..]);
      NewFileParts(prefix, file, edits);
      YieldsStep(p, q, e.body, BodiesOf(edits[1..]), prefix + NewFile(file, edits));
    } else {
      assert Yields(Progress(prefix + file, |prefix|), [], prefix + file);
    }
  }

  lemma NewFileParts(prefix: seq<string>, file: seq<string>, edits: seq<Edit>)
    requires Fits(file, edits) && edits != []
    ensures var e := edits[0];
            prefix + file[..e.gap] + NewOf(e.body) + NewFile(file[e.gap + |OldOf(e.body)|..], edits[1..])
            == prefix + NewFile(file, edits)
  {
  }

  function Written(edits: seq<Edit>): seq<seq<string>> {
    if edits == [] then [] else [["@@"] + edits[0].body] + Written(edits[1..])
  }

  lemma {:induction false} WrittenHunks(edits: seq<Edit>)
    requires forall k :: 0 <= k < |edits| ==> forall i :: 0 <= i < |edits[k].body| ==> !IsHeader(edits[k].body[i])
    ensures forall k :: 0 <= k < |Written(edits)| ==> IsHunk(Written(edits)[k])
    ensures |Written(edits)| == |edits| && Bodies(Written(edits)) == BodiesOf(edits)
  {
    if edits != [] {
      WrittenHunks(edits[1..]);
      var first, rest := ["@@"] + edits[0].body, Written(edits[1..]);
      assert first[1..] == edits[0].body && Written(edits) == [first] + rest;
      assert forall k :: 0 < k < |Written(edits)| ==> Written(edits)[k] == rest[k - 1];
      assert Bodies(Written(edits)) == [edits[0].body] + Bodies(rest);
    }
  }

  ghost predicate IsPatch(edits: seq<Edit>) {
    && edits != []
    && forall k :: 0 <= k < |edits| ==>
         Has(edits[k].body, Removal) && forall i :: 0 <= i < |edits[k].body| ==> !IsHeader(edits[k].body[i])
  }

  predicate EachAdds(edits: seq<Edit>) {
    forall k :: 0 <= k < |edits| ==> Has(edits[k].body, Addition)
  }

  // A patch whose hunks each remove lines, come in file order, and whose old blocks
  // first occur at their true place gives the new file, line for line.
  lemma PatchGivesNewFile(file: seq<string>, edits: seq<Edit>)
    requires IsPatch(edits) && Fits(file, edits) && FirstOccurs(file, edits)
    ensures Applied(file, Flatten(Written(edits))) == Patched(NewFile(file, edits))
  {
    WrittenHunks(edits);
    HunksRoundTrip([], Written(edits));
    assert [] + Flatten(Written(edits)) == Flatten(Written(edits));
    EditsApply([], file, edits);
    assert [] + file == file && [] + NewFile(file, edits) == NewFile(file, edits);
  }

  // ---------- the reversed patch ----------

  function ReversedLine(line: string): string {
    if line != "" && line[0] == '-' then ['+'] + line[1..]
    else if line != "" && line[0] == '+' then ['-'] + line[1..]
    else line
  }

  function ReversedBody(body: seq<string>): seq<string> {
    seq(|body|, k requires 0 <= k < |body| => ReversedLine(body[k]))
  }

  function Reversed(edits: seq<Edit>): seq<Edit> {
    seq(|edits|, k requires 0 <= k < |edits| => Edit(edits[k].gap, ReversedBody(edits[k].body)))
  }

  lemma {:induction false} ReversedSides(body: seq<string>)
    ensures OldOf(ReversedBody(body)) == NewOf(body) && NewOf(ReversedBody(body)) == OldOf(body)
  {
    if body != [] {
      var front, last := body[..|body| - 1], body[|body| - 1];
      ReversedSides(front);
      assert ReversedBody(body)[..|body| - 1] == ReversedBody(front);
      LineReversed(last);
    }
  }

  lemma LineReversed(line: string)
    ensures TextOf(ReversedLine(line)) == TextOf(line)
    ensures KindOf(ReversedLine(line)) ==
            if KindOf(line).Removal? then Addition else if KindOf(line).Addition? then Removal else KindOf(line)
  {
  }

  lemma {:induction false} ReversedFits(file: seq<string>, edits: seq<Edit>)
    requires Fits(file, edits)
    ensures Fits(NewFile(file, edits), Reversed(edits))
    ensures NewFile(NewFile(file, edits), Reversed(edits)) == file
    decreases |edits|
  {
    if edits != [] {
      var e := edits[0];
      var gap, n, m := e.gap, |OldOf(e.body)|, |NewOf(e.body)|;
      var rest := file[gap + n..];
      ReversedFits(rest, edits[1..]);
      ReversedSides(e.body);
      var out := NewFile(file, edits);
      assert out[..gap] == file[..gap] && out[gap..gap + m] == NewOf(e.body) && out[gap + m..] == NewFile(rest, edits[1..]);
      assert Reversed(edits)[1..] == Reversed(edits[1..]);
      assert file == file[..gap] + OldOf(e.body) + rest;
    }
  }

  lemma ReversedMarks(body: seq<string>, kind: Kind, reversed: Kind)
    requires (kind.Removal? && reversed.Addition?) || (kind.Addition? && reversed.Removal?)
    requires Has(body, kind)
    ensures Has(ReversedBody(body), reversed)
  {
    var k :| 0 <= k < |body| && KindOf(body[k]) == kind;
    LineReversed(body[k]);
    assert KindOf(ReversedBody(body)[k]) == reversed;
  }

  lemma ReversedNotHeader(line: string)
    requires !IsHeader(line)
    ensures !IsHeader(ReversedLine(line))
  {
  }

  lemma ReversedIsPatch(edits: seq<Edit>)
    requires IsPatch(edits) && EachAdds(edits)
    ensures IsPatch(Reversed(edits))
  {
    forall k | 0 <= k < |edits|
      ensures Has(Reversed(edits)[k].body, Removal)
      ensures forall i :: 0 <= i < |edits[k].body| ==> !IsHeader(Reversed(edits)[k].body[i])
    {
      ReversedMarks(edits[k].body, Addition, Removal);
      forall i | 0 <= i < |edits[k].body| ensures !IsHeader(ReversedBody(edits[k].body)[i]) {
        ReversedNotHeader(edits[k].body[i]);
      }
    }
  }

  // Applying the patch and then the reversed patch gives the original file back, if each hunk adds
  // lines as well and the new blocks too first occur at their true place.
  lemma ReversedPatchRestores(file: seq<string>, edits: seq<Edit>)
    requires IsPatch(edits) && EachAdds(edits) && Fits(file, edits) && FirstOccurs(file, edits)
    requires Fits(NewFile(file, edits), Reversed(edits)) ==> FirstOccurs(NewFile(file, edits), Reversed(edits))
    ensures Applied(file, Flatten(Written(edits))).Patched?
    ensures Applied(Applied(file, Flatten(Written(edits))).lines, Flatten(Written(Reversed(edits)))) == Patched(file)
  {
    PatchGivesNewFile(file, edits);
    ReversedFits(file, edits);
    ReversedIsPatch(edits);
    PatchGivesNewFile(NewFile(file, edits), Reversed(edits));
  }

  // ---------- conservation ----------

  function Gathered(bodies: seq<seq<string>>, kind: Kind): multiset<string> {
    if bodies == [] then multiset{} else multiset(Texts(bodies[0], {kind})) + Gathered(bodies[1..], kind)
  }

  lemma {:induction false} SidesBalance(body: seq<string>)
    ensures multiset(OldOf(body)) == multiset(Texts(body, {Context})) + multiset(RemovedBy(body))
    ensures multiset(NewOf(body)) == multiset(Texts(body, {Context})) + multiset(AddedBy(body))
  {
    if body != [] {
      SidesBalance(body[..|body| - 1]);
    }
  }

  lemma {:induction false} NoneOfKind(body: seq<string>, kind: Kind)
    requires !Has(body, kind)
    ensures Texts(body, {kind}) == []
  {
    if body != [] {
      var front := body[..|body| - 1];
      assert KindOf(body[|body| - 1]) != kind;
      assert forall k :: 0 <= k < |front| ==> front[k] == body[k];
      NoneOfKind(front, kind);
    }
  }

  lemma SpliceBalances(lines: seq<string>, i: nat, removed: nat, inserted: seq<string>)
    requires i + removed <= |lines|
    ensures multiset(Spliced(lines, i, removed, inserted)) + multiset(lines[i..i + removed])
         == multiset(lines) + multiset(inserted)
  {
    assert lines == lines[..i] + lines[i..i + removed] + lines[i + removed..];
  }

  lemma CancelContext(a: multiset<string>, b: multiset<string>, context: multiset<string>, r: multiset<string>,
                      s: multiset<string>)
    requires a + (context + r) == b + (context + s)
    ensures a + r == b + s
  {
    forall x ensures (a + r)[x] == (b + s)[x] {
      assert (a + (context + r))[x] == (b + (context + s))[x];
    }
  }

  lemma BlockFits(p: Progress, body: seq<string>)
    requires p.cursor <= |p.lines| && Has(body, Removal) && ApplyHunk(p, body).Some?
    ensures BlockAt(p, body).Some? && OccursAt(p.lines, OldOf(body), BlockAt(p, body).value)
    ensures ApplyHunk(p, body).value.lines == Spliced(p.lines, BlockAt(p, body).value, |OldOf(body)|, NewOf(body))
  {
    FindFits(p.lines, OldOf(body), p.cursor);
    FindFits(p.lines, OldOf(body), 0);
  }

  lemma BlockBalances(lines: seq<string>, i: nat, body: seq<string>)
    requires OccursAt(lines, OldOf(body), i)
    ensures Balances(lines, Spliced(lines, i, |OldOf(body)|, NewOf(body)), multiset(RemovedBy(body)), multiset(AddedBy(body)))
  {
    var out := Spliced(lines, i, |OldOf(body)|, NewOf(body));
    SpliceBalances(lines, i, |OldOf(body)|, NewOf(body));
    assert multiset(out) + multiset(OldOf(body)) == multiset(lines) + multiset(NewOf(body));
    SidesBalance(body);
    CancelContext(multiset(out), multiset(lines), multiset(Texts(body, {Context})),
                  multiset(RemovedBy(body)), multiset(AddedBy(body)));
  }

  lemma RemovalBalances(p: Progress, body: seq<string>)
    requires p.cursor <= |p.lines| && Has(body, Removal) && ApplyHunk(p, body).Some?
    ensures Balances(p.lines, ApplyHunk(p, body).value.lines, multiset(RemovedBy(body)), multiset(AddedBy(body)))
  {
    BlockFits(p, body);
    BlockBalances(p.lines, BlockAt(p, body).value, body);
  }

  lemma HunkBalances(p: Progress, body: seq<string>)
    requires p.cursor <= |p.lines| && ApplyHunk(p, body).Some?
    ensures Balances(p.lines, ApplyHunk(p, body).value.lines, multiset(RemovedBy(body)), multiset(AddedBy(body)))
  {
    if Has(body, Removal) {
      RemovalBalances(p, body);
    } else {
      NoneOfKind(body, Removal);
      if Has(body, Addition) {
        FindFits(p.lines, OldOf(body), p.cursor);
        SpliceBalances(p.lines, AnchorAt(p, body), 0, AddedBy(body));
      } else {
        NoneOfKind(body, Addition);
      }
    }
  }

  // b is a without the removed lines and with the added ones, wherever they are.
  ghost predicate Balances(a: seq<string>, b: seq<string>, removed: multiset<string>, added: multiset<string>) {
    multiset(b) + removed == multiset(a) + added
  }

  lemma BalancesTrans(a: seq<string>, b: seq<string>, c: seq<string>, r: multiset<string>, s: multiset<string>,
                      x: multiset<string>, y: multiset<string>)
    requires Balances(a, b, r, x) && Balances(b, c, s, y)
    ensures Balances(a, c, r + s, x + y)
  {
    assert multiset(c) + (r + s) == (multiset(c) + s) + r == (multiset(b) + r) + y;
  }

  // On every success the file loses exactly the removed lines and gains exactly the added ones.
  lemma {:induction false} PatchBalances(p: Progress, bodies: seq<seq<string>>)
    requires p.cursor <= |p.lines| && ApplyBodies(p, bodies).Some?
    ensures Balances(p.lines, ApplyBodies(p, bodies).value.lines, Gathered(bodies, Removal), Gathered(bodies, Addition))
    decreases |bodies|
  {
    if bodies != [] {
      HunkBalances(p, bodies[0]);
      ApplyHunkFits(p, bodies[0]);
      var q := ApplyHunk(p, bodies[0]).value;
      PatchBalances(q, bodies[1..]);
      BalancesTrans(p.lines, q.lines, ApplyBodies(q, bodies[1..]).value.lines,
                    multiset(RemovedBy(bodies[0])), Gathered(bodies[1..], Removal),
                    multiset(AddedBy(bodies[0])), Gathered(bodies[1..], Addition));
    }
  }

  // So its length changes by exactly additions minus removals.
  lemma PatchLength(lines: seq<string>, patch: seq<string>)
    requires Applied(lines, patch).Patched?
    ensures var hunks := Collect([], [], patch);
            && (forall k :: 0 <= k < |hunks| ==> IsHunk(hunks[k]))
            && |Applied(lines, patch).lines| + |Gathered(Bodies(hunks), Removal)|
               == |lines| + |Gathered(Bodies(hunks), Addition)|
  {
    var hunks := Collect([], [], patch);
    CollectedAreHunks([], [], patch);
    PatchBalances(Progress(lines, 0), Bodies(hunks));
    var out := Applied(lines, patch).lines;
    assert |multiset(out) + Gathered(Bodies(hunks), Removal)| == |multiset(lines) + Gathered(Bodies(hunks), Addition)|;
  }

  // ---------- where a hunk goes ----------

  // The first place from start on where the block occurs.
  predicate FirstAt(lines: seq<string>, block: seq<string>, start: nat, i: nat) {
    start <= i && OccursAt(lines, block, i) && forall j :: start <= j < i ==> !OccursAt(lines, block, j)
  }

  ghost predicate Occurs(lines: seq<string>, block: seq<string>, start: nat) {
    exists i :: start <= i && OccursAt(lines, block, i)
  }

  // Where the search for an old block starts: at the cursor if it occurs from there on.
  ghost function SearchFrom(p: Progress, block: seq<string>): nat {
    if Occurs(p.lines, block, p.cursor) then p.cursor else 0
  }

  lemma FoundFirst(lines: seq<string>, block: seq<string>, start: nat, i: nat)
    requires FirstAt(lines, block, start, i)
    ensures FindFrom(lines, block, start) == Some(i)
  {
    FindsFirst(lines, block, start);
  }

  lemma BlockFirst(p: Progress, body: seq<string>, i: nat)
    requires FirstAt(p.lines, OldOf(body), SearchFrom(p, OldOf(body)), i)
    ensures BlockAt(p, body) == Some(i)
  {
    FoundFirst(p.lines, OldOf(body), SearchFrom(p, OldOf(body)), i);
    FindsFirst(p.lines, OldOf(body), p.cursor);
  }

  lemma BlockNowhere(p: Progress, body: seq<string>)
    ensures BlockAt(p, body).None? <==> !Occurs(p.lines, OldOf(body), 0)
  {
    FindsFirst(p.lines, OldOf(body), p.cursor);
    FindsFirst(p.lines, OldOf(body), 0);
  }

  // A hunk that removes lines fails exactly if its old block is nowhere in the file.
  lemma HunkFailsIff(p: Progress, body: seq<string>)
    requires p.cursor <= |p.lines|
    ensures ApplyHunk(p, body).None? <==> Has(body, Removal) && !Occurs(p.lines, OldOf(body), 0)
  {
    BlockNowhere(p, body);
  }

  // Otherwise the new block takes the place of the first one from the cursor on, or, with none
  // there, of the first in the file; and the cursor moves behind it.
  lemma HunkGoesFirst(p: Progress, body: seq<string>, i: nat)
    requires p.cursor <= |p.lines| && Has(body, Removal) && FirstAt(p.lines, OldOf(body), SearchFrom(p, OldOf(body)), i)
    ensures ApplyHunk(p, body) == Some(Progress(p.lines[..i] + NewOf(body) + p.lines[i + |OldOf(body)|..], i + |NewOf(body)|))
  {
    BlockFirst(p, body, i);
    assert Spliced(p.lines, i, |OldOf(body)|, NewOf(body)) == p.lines[..i] + NewOf(body) + p.lines[i + |OldOf(body)|..];
  }

  // Wherever the old block occurs there is such a first place.
  lemma FirstPlaceExists(p: Progress, body: seq<string>) returns (i: nat)
    requires Occurs(p.lines, OldOf(body), 0)
    ensures FirstAt(p.lines, OldOf(body), SearchFrom(p, OldOf(body)), i)
  {
    var start := SearchFrom(p, OldOf(body));
    FindsFirst(p.lines, OldOf(body), start);
    i := FindFrom(p.lines, OldOf(body), start).value;
  }

  // A hunk without additions and removals changes nothing and moves nothing.
  lemma ContextOnlyKeeps(p: Progress, body: seq<string>)
    requires p.cursor <= |p.lines| && forall k :: 0 <= k < |body| ==> body[k] == "" || body[k][0] !in "-+"
    ensures ApplyHunk(p, body) == Some(p)
  {
  }

  // ---------- when a patch is refused ----------

  // Hunk k removes lines that are nowhere in the file once the hunks before it were applied.
  ghost predicate FailsAt(p: Progress, bodies: seq<seq<string>>, k: nat)
    requires p.cursor <= |p.lines|
  {
    && k < |bodies| && ApplyBodies(p, bodies[..k]).Some? && Has(bodies[k], Removal)
    && !Occurs(ApplyBodies(p, bodies[..k]).value.lines, OldOf(bodies[k]), 0)
  }

  lemma FailsFirst(p: Progress, bodies: seq<seq<string>>)
    requires p.cursor <= |p.lines| && bodies != []
    ensures FailsAt(p, bodies, 0) <==> ApplyHunk(p, bodies[0]).None?
  {
    HunkFailsIff(p, bodies[0]);
    assert bodies[..0] == [];
  }

  lemma FailsLater(p: Progress, bodies: seq<seq<string>>, k: nat)
    requires p.cursor <= |p.lines| && bodies != [] && ApplyHunk(p, bodies[0]).Some?
    ensures ApplyHunk(p, bodies[0]).value.cursor <= |ApplyHunk(p, bodies[0]).value.lines|
    ensures FailsAt(p, bodies, k + 1) <==> FailsAt(ApplyHunk(p, bodies[0]).value, bodies[1..], k)
  {
    ApplyHunkFits(p, bodies[0]);
    if k + 1 < |bodies| {
      assert bodies[..k + 1][0] == bodies[0] && bodies[..k + 1][1..] == bodies[1..][..k];
    }
  }

  lemma {:induction false} BodiesFailIff(p: Progress, bodies: seq<seq<string>>)
    requires p.cursor <= |p.lines|
    ensures ApplyBodies(p, bodies).None? <==> exists k: nat :: FailsAt(p, bodies, k)
    decreases |bodies|
  {
    if bodies != [] {
      FailsFirst(p, bodies);
      if ApplyHunk(p, bodies[0]).Some? {
        var q := ApplyHunk(p, bodies[0]).value;
        FailsLater(p, bodies, 0);
        BodiesFailIff(q, bodies[1..]);
        if k: nat :| FailsAt(q, bodies[1..], k) {
          FailsLater(p, bodies, k);
        }
        if k: nat :| FailsAt(p, bodies, k) {
          FailsLater(p, bodies, k - 1);
        }
      }
    }
  }

  lemma {:induction false} NoHeaderNoHunks(hunks: seq<seq<string>>, current: seq<string>, lines: seq<string>)
    ensures Collect(hunks, current, lines) == [] <==>
            hunks == [] && current == [] && forall k :: 0 <= k < |lines| ==> !IsHeader(lines[k])
    decreases |lines|
  {
    if lines != [] {
      if IsHeader(lines[0]) {
        NoHeaderNoHunks(Closed(hunks, current), [lines[0]], lines[1..]);
      } else {
        NoHeaderNoHunks(hunks, if current == [] then [] else current + [lines[0]], lines[1..]);
        assert forall k :: 0 < k < |lines| ==> lines[k] == lines[1..][k - 1];
      }
    }
  }

  // A patch is refused as empty exactly if it has no hunk header, and as not matching exactly if
  // some hunk removes lines that are not there when its turn comes.
  lemma RefusedIff(lines: seq<string>, patch: seq<string>)
    ensures Applied(lines, patch).NoHunks? <==> forall k :: 0 <= k < |patch| ==> !IsHeader(patch[k])
    ensures Applied(lines, patch).NoMatch? <==>
            exists k: nat :: FailsAt(Progress(lines, 0), Bodies(Collect([], [], patch)), k)
  {
    CollectedAreHunks([], [], patch);
    NoHeaderNoHunks([], [], patch);
    BodiesFailIff(Progress(lines, 0), Bodies(Collect([], [], patch)));
  }

  // ---------- insertions ----------

  // A hunk that only adds, with its context found at i, puts the added lines before the whole
  // context. That is what the hunk means exactly if moving its additions to the front changes
  // nothing.
  lemma InsertionIff(p: Progress, body: seq<string>, i: nat)
    requires p.cursor <= |p.lines| && !Has(body, Removal) && Has(body, Addition)
    requires FindFrom(p.lines, OldOf(body), p.cursor) == Some(i)
    ensures i + |OldOf(body)| <= |p.lines|
    ensures ApplyHunk(p, body).Some?
    ensures ApplyHunk(p, body).value.lines == Spliced(p.lines, i, |OldOf(body)|, NewOf(body))
       <==> AddedBy(body) + OldOf(body) == NewOf(body)
  {
    FindFits(p.lines, OldOf(body), p.cursor);
    NewIsAsLong(body);
    var head, tail := p.lines[..i], p.lines[i + |OldOf(body)|..];
    assert p.lines[i..] == OldOf(body) + tail;
    assert ApplyHunk(p, body).value.lines == head + (AddedBy(body) + OldOf(body)) + tail;
    SameMiddle(head, AddedBy(body) + OldOf(body), NewOf(body), tail);
  }

  // If its context is nowhere from the cursor on, the added lines go in at the cursor.
  lemma InsertionAtCursor(p: Progress, body: seq<string>)
    requires p.cursor <= |p.lines| && !Has(body, Removal) && Has(body, Addition)
    requires forall i :: p.cursor <= i ==> !OccursAt(p.lines, OldOf(body), i)
    ensures ApplyHunk(p, body) ==
            Some(Progress(p.lines[..p.cursor] + AddedBy(body) + p.lines[p.cursor..], p.cursor + |AddedBy(body)|))
  {
    FindFits(p.lines, OldOf(body), p.cursor);
  }

  lemma NewIsAsLong(body: seq<string>)
    requires !Has(body, Removal)
    ensures |NewOf(body)| == |AddedBy(body) + OldOf(body)|
  {
    SidesBalance(body);
    NoneOfKind(body, Removal);
    assert |multiset(NewOf(body))| == |multiset(OldOf(body)) + multiset(AddedBy(body))|;
  }

  lemma SameMiddle(head: seq<string>, x: seq<string>, y: seq<string>, tail: seq<string>)
    requires |x| == |y|
    ensures head + x + tail == head + y + tail <==> x == y
  {
    assert (head + x + tail)[|head|..|head| + |x|] == x && (head + y + tail)[|head|..|head| + |x|] == y;
  }

  lemma AfterA(body: seq<string>)
    requires body == [" a", "+b"]
    ensures OldOf(body) == ["a"] && AddedBy(body) == ["b"] && !Has(body, Removal) && Has(body, Addition)
    ensures IsHunk(["@@"] + body)
  {
    assert body[..1] == [" a"] && body[..1][..0] == [];
    assert KindOf(body[..1][0]) == Context && TextOf(" a") == "a" && TextOf("+b") == "b";
    assert Texts(body[..1], {Context, Removal}) == ["a"];
    NoneOfKind(body[..1], Addition);
    assert KindOf(body[1]) == Addition;
    assert " a"[..2][0] == ' ' && "+b"[..2][0] == '+';
  }

  // What the tool asks of a patch before it applies it.
  predicate Admitted(file: seq<string>, patch: seq<string>) {
    file == [] || exists k :: 0 <= k < |patch| && StartsWith(patch[k], "-")
  }

  // A patch with the usual file header that adds "b" after "a": the line ends up before it.
  lemma InsertionMisplaced(preamble: seq<string>, body: seq<string>)
    requires preamble == ["--- a/f", "+++ b/f"] && body == [" a", "+b"]
    ensures Admitted(["a"], preamble + (["@@"] + body))
    ensures Applied(["a"], preamble + (["@@"] + body)) == Patched(["b", "a"])
  {
    AfterA(body);
    var hunks: seq<seq<string>> := [["@@"] + body];
    assert Flatten(hunks) == ["@@"] + body by {
      assert Flatten(hunks[1..]) == [];
    }
    assert preamble[0][..2][0] == '-' && preamble[1][..2][0] == '+';
    HunksRoundTrip(preamble, hunks);
    assert (preamble + (["@@"] + body))[0] == "--- a/f" && "--- a/f"[..1] == "-";
    assert Bodies(hunks) == [body];
    InsertsBefore(body);
    YieldsStep(Progress(["a"], 0), Progress(["b", "a"], 1), body, [], ["b", "a"]);
    assert [body] + [] == [body];
  }

  lemma InsertsBefore(body: seq<string>)
    requires OldOf(body) == ["a"] && AddedBy(body) == ["b"] && !Has(body, Removal) && Has(body, Addition)
    ensures ApplyHunk(Progress(["a"], 0), body) == Some(Progress(["b", "a"], 1))
  {
    assert OccursAt(["a"], ["a"], 0);
    assert Spliced(["a"], 0, 0, ["b"]) == ["b", "a"];
  }
}
