// Chat history items and their plain-text projection (fairyclaw/core/agent/context/
// history_ir.py, fairyclaw/core/domain.py).
module History {
  import opened Wrappers

  datatype Segment =
    | Text(text: string)
    | Image(url: string)
    | File(fileId: string, hint: string)
    | CodeBlock(text: string)

  datatype Role = SystemRole | UserRole | AssistantRole

  datatype Body = TextBody(text: string) | SegmentsBody(segments: seq<Segment>)

  datatype Item =
    | Message(role: Role, body: Body)
    | ToolRound(toolName: string, callId: string, argumentsJson: string, toolResult: string, success: bool)

  // SessionMessageBlock.from_segments: one text segment becomes a text body.
  function FromSegments(role: Role, segments: seq<Segment>): Option<Item> {
    if segments == [] then None
    else if |segments| == 1 && segments[0].Text? then Some(Message(role, TextBody(segments[0].text)))
    else Some(Message(role, SegmentsBody(segments)))
  }

  function Parts(item: Item): seq<Segment>
    requires item.Message?
  {
    match item.body
    case TextBody(text) => [Text(text)]
    case SegmentsBody(segments) => segments
  }

  // A message is built from any segments but none, and holds exactly these; a text alone is held
  // as such.
  lemma MessageOfSegments(role: Role, segments: seq<Segment>)
    ensures var built := FromSegments(role, segments);
            && (built.Some? <==> segments != [])
            && (built.Some? ==> built.value.Message? && built.value.role == role && Parts(built.value) == segments)
            && (built.Some? ==> (built.value.body.TextBody? <==> |segments| == 1 && segments[0].Text?))
  {
  }

  // ---------- strings ----------

  // The characters str.strip() takes off.
  predicate IsSpace(c: char) {
    || '\t' <= c <= '\r' || '\U{1C}' <= c <= ' '
    || c in {'\U{85}', '\U{A0}', '\U{1680}', '\U{2028}', '\U{2029}', '\U{202F}', '\U{205F}', '\U{3000}'}
    || '\U{2000}' <= c <= '\U{200A}'
  }

  function LStrip(s: string): string {
    if s != "" && IsSpace(s[0]) then LStrip(s[1..]) else s
  }

  function RStrip(s: string): string {
    if s != "" && IsSpace(s[|s| - 1]) then RStrip(s[..|s| - 1]) else s
  }

  function Strip(s: string): string {
    RStrip(LStrip(s))
  }

  function JoinLines(chunks: seq<string>): string {
    if chunks == [] then ""
    else if |chunks| == 1 then chunks[0]
    else chunks[0] + "\n" + JoinLines(chunks[1..])
  }

  predicate OccursAt(s: string, part: string, i: nat) {
    i + |part| <= |s| && s[i..i + |part|] == part
  }

  predicate Contains(s: string, part: string) {
    exists i :: 0 <= i <= |s| && OccursAt(s, part, i)
  }

  // fileText renders a file reference; it is not part of this model.
  function TextChunks(fileText: (string, string) -> string, segments: seq<Segment>): seq<string> {
    if segments == [] then []
    else
      var first := segments[0];
      var chunk :=
        if first.Text? && first.text != "" then [first.text]
        else if first.File? && first.fileId != "" then [fileText(first.fileId, first.hint)]
        else [];
      chunk + TextChunks(fileText, segments[1..])
  }

  function PlainText(fileText: (string, string) -> string, body: Body): string {
    match body
    case TextBody(text) => text
    case SegmentsBody(segments) => Strip(JoinLines(TextChunks(fileText, segments)))
  }

  // What a segment shows: its text, or its rendered file reference.
  function Shown(fileText: (string, string) -> string, s: Segment): string {
    if s.Text? then s.text else if s.File? then fileText(s.fileId, s.hint) else ""
  }

  predicate IsShown(s: Segment) {
    (s.Text? && s.text != "") || (s.File? && s.fileId != "")
  }

  // The plain text is made of the texts and file references, in their order, and nothing else: a
  // segment adds what it shows, if anything, behind what the ones before it show.
  lemma {:induction false} ChunksInOrder(fileText: (string, string) -> string, before: seq<Segment>, s: Segment)
    ensures TextChunks(fileText, []) == []
    ensures TextChunks(fileText, before + [s])
         == TextChunks(fileText, before) + if IsShown(s) then [Shown(fileText, s)] else []
  {
    if before == [] {
      assert [] + [s] == [s] && [s][1..] == [];
    } else {
      assert (before + [s])[1..] == before[1..] + [s];
      ChunksInOrder(fileText, before[1..], s);
    }
  }

  lemma {:induction false} RStripIs(s: string) returns (n: nat)
    ensures n <= |s| && RStrip(s) == s[..n] && (n > 0 ==> !IsSpace(s[n - 1]))
    ensures forall i :: n <= i < |s| ==> IsSpace(s[i])
  {
    n := |s|;
    if s != "" && IsSpace(s[|s| - 1]) {
      n := RStripIs(s[..|s| - 1]);
    }
  }

  lemma {:induction false} LStripIs(s: string) returns (n: nat)
    ensures n <= |s| && LStrip(s) == s[n..] && (n < |s| ==> !IsSpace(s[n]))
    ensures forall i :: 0 <= i < n ==> IsSpace(s[i])
  {
    n := 0;
    if s != "" && IsSpace(s[0]) {
      var rest := LStripIs(s[1..]);
      n := rest + 1;
      assert forall i :: 0 < i < n ==> s[i] == s[1..][i - 1];
    }
  }

  // Stripping takes off white space at both ends and leaves none there.
  lemma StripIs(s: string) returns (i: nat, j: nat)
    ensures i <= j <= |s| && Strip(s) == s[i..j]
    ensures forall k :: (0 <= k < i || j <= k < |s|) ==> IsSpace(s[k])
    ensures i < j ==> !IsSpace(s[i]) && !IsSpace(s[j - 1])
  {
    i := LStripIs(s);
    var n := RStripIs(s[i..]);
    j := i + n;
    assert s[i..][..n] == s[i..j];
    forall k | 0 <= k < i || j <= k < |s| ensures IsSpace(s[k]) {
      if k >= j {
        assert IsSpace(s[i..][k - i]);
      }
    }
  }

  // A text is its own plain text. Segments show their chunks, a line each, without the white space
  // at both ends.
  lemma PlainTextIs(fileText: (string, string) -> string, body: Body) returns (i: nat, j: nat)
    ensures body.TextBody? ==> PlainText(fileText, body) == body.text
    ensures body.SegmentsBody? ==>
              var joined := JoinLines(TextChunks(fileText, body.segments));
              && i <= j <= |joined| && PlainText(fileText, body) == joined[i..j]
              && (forall k :: (0 <= k < i || j <= k < |joined|) ==> IsSpace(joined[k]))
              && (i < j ==> !IsSpace(joined[i]) && !IsSpace(joined[j - 1]))
  {
    if body.SegmentsBody? {
      i, j := StripIs(JoinLines(TextChunks(fileText, body.segments)));
    } else {
      i, j := 0, 0;
    }
  }

  // Below 128 these are the tab, four line ends, four separators and the blank.
  lemma AsciiSpaces(c: char)
    requires c < '\U{80}'
    ensures IsSpace(c) <==> c in "\t\n\U{0B}\U{0C}\r\U{1C}\U{1D}\U{1E}\U{1F} "
  {
    var spaces := "\t\n\U{0B}\U{0C}\r\U{1C}\U{1D}\U{1E}\U{1F} ";
    assert spaces[0] == '\t' && spaces[1] == '\n' && spaces[2] == '\U{0B}' && spaces[3] == '\U{0C}' && spaces[4] == '\r';
    assert spaces[5] == '\U{1C}' && spaces[6] == '\U{1D}' && spaces[7] == '\U{1E}' && spaces[8] == '\U{1F}' && spaces[9] == ' ';
  }

  // ---------- a visible part of a chunk is visible in the plain text ----------

  predicate Trimmed(part: string) {
    part != "" && !IsSpace(part[0]) && !IsSpace(part[|part| - 1])
  }

  lemma {:induction false} LStripKeeps(s: string, part: string)
    requires Trimmed(part) && Contains(s, part)
    ensures Contains(LStrip(s), part)
  {
    if s != "" && IsSpace(s[0]) {
      var i :| 0 <= i <= |s| && OccursAt(s, part, i);
      assert s[i] == part[0];
      assert s[1..][i - 1..i - 1 + |part|] == part;
      assert OccursAt(s[1..], part, i - 1);
      LStripKeeps(s[1..], part);
    }
  }

  lemma {:induction false} RStripKeeps(s: string, part: string)
    requires Trimmed(part) && Contains(s, part)
    ensures Contains(RStrip(s), part)
  {
    if s != "" && IsSpace(s[|s| - 1]) {
      var i :| 0 <= i <= |s| && OccursAt(s, part, i);
      assert s[i..i + |part|][|part| - 1] == part[|part| - 1];
      assert i + |part| != |s|;
      assert s[..|s| - 1][i..i + |part|] == part;
      assert OccursAt(s[..|s| - 1], part, i);
      RStripKeeps(s[..|s| - 1], part);
    }
  }

  lemma ContainsPadded(left: string, s: string, right: string, part: string)
    requires Contains(s, part)
    ensures Contains(left + s + right, part)
  {
    var i :| 0 <= i <= |s| && OccursAt(s, part, i);
    assert (left + s + right)[|left| + i..|left| + i + |part|] == part;
    assert OccursAt(left + s + right, part, |left| + i);
  }

  lemma {:induction false} JoinKeeps(chunks: seq<string>, k: nat, part: string)
    requires k < |chunks| && Contains(chunks[k], part)
    ensures Contains(JoinLines(chunks), part)
  {
    if |chunks| > 1 {
      if k == 0 {
        ContainsPadded("", chunks[0], "\n" + JoinLines(chunks[1..]), part);
        assert "" + chunks[0] + ("\n" + JoinLines(chunks[1..])) == JoinLines(chunks);
      } else {
        JoinKeeps(chunks[1..], k - 1, part);
        ContainsPadded(chunks[0] + "\n", JoinLines(chunks[1..]), "", part);
        assert chunks[0] + "\n" + JoinLines(chunks[1..]) + "" == JoinLines(chunks);
      }
    }
  }

  lemma {:induction false} ChunkOf(fileText: (string, string) -> string, segments: seq<Segment>, text: string) returns (k: nat)
    requires Text(text) in segments && text != ""
    ensures k < |TextChunks(fileText, segments)| && TextChunks(fileText, segments)[k] == text
  {
    if segments[0] == Text(text) {
      k := 0;
    } else {
      var rest := ChunkOf(fileText, segments[1..], text);
      k := |TextChunks(fileText, segments)| - |TextChunks(fileText, segments[1..])| + rest;
    }
  }

  // Whatever a text segment shows, apart from white space at its ends, the message shows.
  lemma PlainTextShows(fileText: (string, string) -> string, segments: seq<Segment>, text: string, part: string)
    requires Text(text) in segments && Trimmed(part) && Contains(text, part)
    ensures Contains(PlainText(fileText, SegmentsBody(segments)), part)
  {
    var chunks := TextChunks(fileText, segments);
    var k := ChunkOf(fileText, segments, text);
    JoinKeeps(chunks, k, part);
    LStripKeeps(JoinLines(chunks), part);
    RStripKeeps(LStrip(JoinLines(chunks)), part);
  }
}
