// Chunked file transfer: the business side (fairyclaw/core/gateway_protocol/files.py) and the
// gateway's side (fairyclaw/gateway/bridge/ws_client.py).
module FileTransfer {
  import opened Wrappers

  type Byte = b: int | 0 <= b < 256

  type Bytes = seq<Byte>

  // base64 and SHA-256.
  datatype Codec = Codec(encode: Bytes -> string, decode: string -> Bytes, digest: Bytes -> string)

  ghost predicate InversePair(codec: Codec) {
    forall b :: codec.decode(codec.encode(b)) == b
  }

  // ---------- splitting ----------

  datatype Chunk = Chunk(seqNo: nat, data: string, chunkBytes: int, isLast: bool)

  function Pieces(content: Bytes, size: nat): seq<Bytes>
    requires size >= 1
    decreases |content|
  {
    if content == [] then []
    else if |content| <= size then [content]
    else [content[..size]] + Pieces(content[size..], size)
  }

  function Join(pieces: seq<Bytes>): Bytes {
    if pieces == [] then [] else pieces[0] + Join(pieces[1..])
  }

  // The chunk frames of some content, in order.
  function ChunksOf(codec: Codec, content: Bytes, size: nat): seq<Chunk>
    requires size >= 1
  {
    var pieces := Pieces(content, size);
    seq(|pieces|, k requires 0 <= k < |pieces| => Chunk(k, codec.encode(pieces[k]), |pieces[k]|, k == |pieces| - 1))
  }

  // The loop over range(0, len(content), size) of upload_file and of get_chunks.
  method SplitContent(codec: Codec, content: Bytes, size: nat) returns (chunks: seq<Chunk>)
    requires size >= 1
    ensures chunks == ChunksOf(codec, content, size)
  {
    chunks := [];
    var offset, seqNo := 0, 0;
    ghost var pieces := Pieces(content, size);
    ghost var rest := content;
    while offset < |content|
      invariant 0 <= offset && seqNo == |chunks| <= |pieces|
      invariant rest == if offset <= |content| then content[offset..] else []
      invariant pieces[seqNo..] == Pieces(rest, size)
      invariant forall k :: 0 <= k < seqNo ==> chunks[k] == Chunk(k, codec.encode(pieces[k]), |pieces[k]|, k == |pieces| - 1)
      decreases |content| - offset
    {
      var end := if offset + size < |content| then offset + size else |content|;
      var piece := content[offset..end];
      ghost var next := if offset + size <= |content| then content[offset + size..] else [];
      NextPiece(rest, size, pieces, seqNo);
      assert piece == rest[..end - offset] && next == rest[end - offset..];
      chunks := chunks + [Chunk(seqNo, codec.encode(piece), |piece|, offset + size >= |content|)];
      seqNo := seqNo + 1;
      offset := offset + size;
      rest := next;
    }
  }

  lemma TakesPiece(rest: Bytes, size: nat)
    requires size >= 1 && rest != []
    ensures var n := if size < |rest| then size else |rest|;
            && |Pieces(rest, size)| > 0 && Pieces(rest, size)[0] == rest[..n]
            && Pieces(rest, size)[1..] == Pieces(rest[n..], size)
            && (|Pieces(rest, size)| == 1 <==> size >= |rest|)
  {
  }

  // The piece after the first k.
  lemma NextPiece(rest: Bytes, size: nat, pieces: seq<Bytes>, k: nat)
    requires size >= 1 && rest != [] && k <= |pieces| && pieces[k..] == Pieces(rest, size)
    ensures var n := if size < |rest| then size else |rest|;
            && k < |pieces| && pieces[k] == rest[..n] && pieces[k + 1..] == Pieces(rest[n..], size)
            && (k == |pieces| - 1 <==> size >= |rest|)
  {
    TakesPiece(rest, size);
    assert pieces[k..][0] == pieces[k] && pieces[k..][1..] == pieces[k + 1..];
  }

  // The pieces are nonempty and join up to the content.
  lemma {:induction false} PiecesJoin(content: Bytes, size: nat)
    requires size >= 1
    ensures Join(Pieces(content, size)) == content
    ensures forall k :: 0 <= k < |Pieces(content, size)| ==> Pieces(content, size)[k] != []
    decreases |content|
  {
    if |content| > size {
      PiecesJoin(content[size..], size);
      var rest := Pieces(content[size..], size);
      assert Pieces(content, size) == [content[..size]] + rest;
      assert Pieces(content, size)[1..] == rest && content[..size] + content[size..] == content;
    } else if content != [] {
      assert [content][1..] == [] && Join([content]) == content + Join([]);
    }
  }

  // ---------- uploads ----------

  datatype PendingUpload = PendingUpload(sessionId: string, sizeBytes: int, sha256: string, chunks: map<nat, Bytes>)

  datatype StoredFile = StoredFile(sessionId: string, content: Bytes)

  datatype ErrorCode = UploadNotFound | ChunkSizeMismatch | ChunkCountMismatch | FileSizeMismatch | ShaMismatch | FileNotFound

  datatype PutAck = Accepted | Duplicate | Invalid(code: ErrorCode)

  datatype CommitAck = Committed(fileId: string) | Rejected(code: ErrorCode) | MissingChunk

  function PutChunk(codec: Codec, u: PendingUpload, c: Chunk): (PendingUpload, PutAck) {
    if c.seqNo in u.chunks then (u, Duplicate)
    else if |codec.decode(c.data)| != c.chunkBytes then (u, Invalid(ChunkSizeMismatch))
    else (u.(chunks := u.chunks[c.seqNo := codec.decode(c.data)]), Accepted)
  }

  function JoinRange(chunks: map<nat, Bytes>, n: nat): Bytes
    requires forall k :: 0 <= k < n ==> k in chunks
  {
    if n == 0 then [] else JoinRange(chunks, n - 1) + chunks[n - 1]
  }

  datatype Commit = Content(content: Bytes) | Refuse(code: ErrorCode) | KeyError

  // What a commit of the upload finds; looking up a missing chunk raises.
  function CommitOf(codec: Codec, u: PendingUpload, totalChunks: int): Commit {
    if |u.chunks| != totalChunks then Refuse(ChunkCountMismatch)
    else if exists k :: 0 <= k < totalChunks && k !in u.chunks then KeyError
    else
      var content := JoinRange(u.chunks, totalChunks);
      if |content| != u.sizeBytes then Refuse(FileSizeMismatch)
      else if codec.digest(content) != u.sha256 then Refuse(ShaMismatch)
      else Content(content)
  }

  class GatewayFileService {
    var uploads: map<string, PendingUpload>
    var files: map<string, StoredFile>
    const codec: Codec

    constructor (codec: Codec)
      ensures this.codec == codec && uploads == map[] && files == map[]
    {
      this.codec := codec;
      uploads, files := map[], map[];
    }

    method PutInit(uploadId: string, sessionId: string, sizeBytes: int, sha256: string)
      modifies this
      ensures uploads == old(uploads)[uploadId := PendingUpload(sessionId, sizeBytes, sha256, map[])]
      ensures files == old(files)
    {
      uploads := uploads[uploadId := PendingUpload(sessionId, sizeBytes, sha256, map[])];
    }

    method ReceiveChunk(uploadId: string, c: Chunk) returns (ack: PutAck)
      modifies this
      ensures files == old(files)
      ensures uploadId !in old(uploads) ==> uploads == old(uploads) && ack == Invalid(UploadNotFound)
      ensures uploadId in old(uploads) ==>
        var (after, answer) := PutChunk(codec, old(uploads)[uploadId], c);
        uploads == old(uploads)[uploadId := after] && ack == answer
    {
      if uploadId !in uploads {
        return Invalid(UploadNotFound);
      }
      var upload := uploads[uploadId];
      if c.seqNo in upload.chunks {
        return Duplicate;
      }
      var data := codec.decode(c.data);
      if |data| != c.chunkBytes {
        return Invalid(ChunkSizeMismatch);
      }
      uploads := uploads[uploadId := upload.(chunks := upload.chunks[c.seqNo := data])];
      return Accepted;
    }

    // Joins the chunks; None if one is missing.
    method JoinChunks(chunks: map<nat, Bytes>, total: nat) returns (content: Option<Bytes>)
      ensures content.None? <==> exists k :: 0 <= k < total && k !in chunks
      ensures content.Some? ==> content.value == JoinRange(chunks, total)
    {
      var joined: Bytes := [];
      for index := 0 to total
        invariant forall k :: 0 <= k < index ==> k in chunks
        invariant joined == JoinRange(chunks, index)
      {
        if index !in chunks {
          return None;
        }
        joined := joined + chunks[index];
      }
      return Some(joined);
    }

    // fileId is the id the database gives a new file.
    method PutCommit(uploadId: string, totalChunks: int, fileId: string) returns (ack: CommitAck)
      modifies this
      ensures uploadId !in old(uploads) ==>
        ack == Rejected(UploadNotFound) && uploads == old(uploads) && files == old(files)
      ensures uploadId in old(uploads) ==>
        match CommitOf(codec, old(uploads)[uploadId], totalChunks)
        case Refuse(code) => ack == Rejected(code) && uploads == old(uploads) && files == old(files)
        case KeyError => ack == MissingChunk && uploads == old(uploads) && files == old(files)
        case Content(content) =>
          && ack == Committed(fileId) && uploads == old(uploads) - {uploadId}
          && files == old(files)[fileId := StoredFile(old(uploads)[uploadId].sessionId, content)]
    {
      if uploadId !in uploads {
        return Rejected(UploadNotFound);
      }
      var upload := uploads[uploadId];
      if |upload.chunks| != totalChunks {
        return Rejected(ChunkCountMismatch);
      }
      var content := JoinChunks(upload.chunks, totalChunks);
      if content.None? {
        return MissingChunk;
      }
      if |content.value| != upload.sizeBytes {
        return Rejected(FileSizeMismatch);
      }
      if codec.digest(content.value) != upload.sha256 {
        return Rejected(ShaMismatch);
      }
      files := files[fileId := StoredFile(upload.sessionId, content.value)];
      uploads := uploads - {uploadId};
      return Committed(fileId);
    }

    method GetChunks(sessionId: string, fileId: string, size: nat) returns (chunks: seq<Chunk>, found: bool)
      requires size >= 1
      ensures found <==> fileId in files && files[fileId].sessionId == sessionId
      ensures chunks == if found then ChunksOf(codec, files[fileId].content, size) else []
    {
      if fileId !in files || files[fileId].sessionId != sessionId {
        return [], false;
      }
      chunks := SplitContent(codec, files[fileId].content, size);
      found := true;
    }
  }

  // A chunk is taken exactly if its number is new and its data as long as it says; then it is held
  // under its number, and in every other case the upload stays as it is.
  lemma ChunkTakenIff(codec: Codec, u: PendingUpload, c: Chunk)
    ensures var (after, ack) := PutChunk(codec, u, c);
            var data := codec.decode(c.data);
            && (ack == Accepted <==> c.seqNo !in u.chunks && |data| == c.chunkBytes)
            && (ack == Duplicate <==> c.seqNo in u.chunks)
            && (ack == Invalid(ChunkSizeMismatch) <==> c.seqNo !in u.chunks && |data| != c.chunkBytes)
            && (ack == Accepted ==> c.seqNo in after.chunks && after.chunks[c.seqNo] == data)
            && (ack != Accepted ==> after == u)
            && (forall k :: k != c.seqNo ==> (k in after.chunks <==> k in u.chunks))
            && (forall k :: k in u.chunks ==> after.chunks[k] == u.chunks[k])
            && after.sessionId == u.sessionId && after.sizeBytes == u.sizeBytes && after.sha256 == u.sha256
  {
  }

  // ---------- any delivery of the upload ----------

  // The upload after some chunk frames arrived.
  function Delivered(codec: Codec, u: PendingUpload, frames: seq<Chunk>): PendingUpload {
    if frames == [] then u
    else PutChunk(codec, Delivered(codec, u, frames[..|frames| - 1]), frames[|frames| - 1]).0
  }

  // One of the client's chunks, or a frame whose data is not as long as it says.
  ghost predicate FromClient(codec: Codec, sent: seq<Chunk>, c: Chunk) {
    c in sent || |codec.decode(c.data)| != c.chunkBytes
  }

  // The seq numbers of the client's chunks among the frames.
  function SeqsOf(sent: seq<Chunk>, frames: seq<Chunk>): set<nat> {
    set c | c in frames && c in sent :: c.seqNo
  }

  lemma {:induction false} DeliveredHolds(codec: Codec, content: Bytes, size: nat, u: PendingUpload, frames: seq<Chunk>)
    requires InversePair(codec) && size >= 1 && u.chunks == map[]
    requires forall c :: c in frames ==> FromClient(codec, ChunksOf(codec, content, size), c)
    ensures var after := Delivered(codec, u, frames);
            && after == u.(chunks := after.chunks)
            && after.chunks.Keys == SeqsOf(ChunksOf(codec, content, size), frames)
            && forall k :: k in after.chunks ==>
                 0 <= k < |Pieces(content, size)| && after.chunks[k] == Pieces(content, size)[k]
  {
    var sent := ChunksOf(codec, content, size);
    if frames != [] {
      var front, c := frames[..|frames| - 1], frames[|frames| - 1];
      SeqsSnoc(sent, front, c);
      assert frames == front + [c] && FromClient(codec, sent, c);
      DeliveredHolds(codec, content, size, u, front);
      if c in sent {
        assert codec.decode(c.data) == Pieces(content, size)[c.seqNo];
      }
    }
  }

  lemma SeqsSnoc(sent: seq<Chunk>, frames: seq<Chunk>, c: Chunk)
    ensures SeqsOf(sent, frames + [c]) == SeqsOf(sent, frames) + if c in sent then {c.seqNo} else {}
  {
  }

  lemma {:induction false} FullRange(s: set<nat>, n: nat)
    requires forall k :: k in s ==> k < n
    ensures |s| <= n && (|s| == n <==> forall k :: 0 <= k < n ==> k in s)
  {
    if n > 0 {
      var front := s - {n - 1};
      FullRange(front, n - 1);
      assert n - 1 in s ==> s == front + {n - 1};
      assert n - 1 !in s ==> s == front;
    }
  }

  lemma {:induction false} JoinSnoc(pieces: seq<Bytes>, n: nat)
    requires n < |pieces|
    ensures Join(pieces[..n + 1]) == Join(pieces[..n]) + pieces[n]
    decreases n
  {
    if n == 0 {
      assert pieces[..1] == [pieces[0]] && pieces[..1][1..] == [] && pieces[..0] == [];
    } else {
      JoinSnoc(pieces[1..], n - 1);
      assert pieces[..n + 1][1..] == pieces[1..][..n] && pieces[..n][1..] == pieces[1..][..n - 1];
    }
  }

  lemma {:induction false} JoinsPieces(chunks: map<nat, Bytes>, pieces: seq<Bytes>, n: nat)
    requires n <= |pieces| && forall k :: 0 <= k < n ==> k in chunks && chunks[k] == pieces[k]
    ensures JoinRange(chunks, n) == Join(pieces[..n])
  {
    if n > 0 {
      JoinsPieces(chunks, pieces, n - 1);
      JoinSnoc(pieces, n - 1);
    }
  }

  // However the client's chunks arrive, in any order, repeated or mixed with damaged frames:
  // the commit stores exactly the content if every chunk arrived at least once, and otherwise
  // is refused for its count.
  lemma UploadCommitsIff(codec: Codec, content: Bytes, size: nat, sessionId: string, frames: seq<Chunk>)
    requires InversePair(codec) && size >= 1
    requires forall c :: c in frames ==> FromClient(codec, ChunksOf(codec, content, size), c)
    ensures var sent := ChunksOf(codec, content, size);
            var upload := Delivered(codec, PendingUpload(sessionId, |content|, codec.digest(content), map[]), frames);
            if (forall c :: c in sent ==> c in frames)
            then (forall k: nat :: k in upload.chunks <==> k < |sent|) && CommitOf(codec, upload, |sent|) == Content(content)
            else CommitOf(codec, upload, |sent|) == Refuse(ChunkCountMismatch)
  {
    var sent := ChunksOf(codec, content, size);
    var upload := Delivered(codec, PendingUpload(sessionId, |content|, codec.digest(content), map[]), frames);
    DeliveredHolds(codec, content, size, PendingUpload(sessionId, |content|, codec.digest(content), map[]), frames);
    FullRange(upload.chunks.Keys, |sent|);
    assert |upload.chunks| == |upload.chunks.Keys|;
    AllArrived(sent, frames);
    if forall c :: c in sent ==> c in frames {
      JoinsPieces(upload.chunks, Pieces(content, size), |sent|);
      assert Pieces(content, size)[..|sent|] == Pieces(content, size);
      PiecesJoin(content, size);
    }
  }

  // Chunks numbered by their place have all arrived exactly if all their numbers have.
  lemma AllArrived(sent: seq<Chunk>, frames: seq<Chunk>)
    requires forall k :: 0 <= k < |sent| ==> sent[k].seqNo == k
    ensures (forall c :: c in sent ==> c in frames) <==> (forall k: nat :: k < |sent| ==> k in SeqsOf(sent, frames))
  {
    if forall c :: c in sent ==> c in frames {
      forall k: nat | k < |sent| ensures k in SeqsOf(sent, frames) {
        assert sent[k] in frames;
      }
    }
    if forall k: nat :: k < |sent| ==> k in SeqsOf(sent, frames) {
      forall c | c in sent ensures c in frames {
        assert c.seqNo in SeqsOf(sent, frames);
      }
    }
  }

  // ---------- what a commit checks ----------

  // The chunks are numbered 0 to n - 1, and these are they.
  ghost predicate HoldsAll(chunks: map<nat, Bytes>, pieces: seq<Bytes>) {
    forall k: nat :: (k in chunks <==> k < |pieces|) && (k in chunks ==> chunks[k] == pieces[k])
  }

  // Some content is stored exactly if the upload holds the announced number of chunks, without a
  // gap, and their join has the announced size and digest.
  lemma CommitStoresIff(codec: Codec, u: PendingUpload, totalChunks: int, content: Bytes)
    ensures CommitOf(codec, u, totalChunks) == Content(content) <==>
            && (exists pieces :: |pieces| == totalChunks && HoldsAll(u.chunks, pieces) && Join(pieces) == content)
            && |content| == u.sizeBytes && codec.digest(content) == u.sha256
  {
    if CommitOf(codec, u, totalChunks) == Content(content) {
      var pieces := seq(totalChunks, k requires 0 <= k < totalChunks && k in u.chunks => u.chunks[k]);
      OnlyInRange(u.chunks, totalChunks);
      JoinsPieces(u.chunks, pieces, totalChunks);
      assert pieces[..totalChunks] == pieces;
      assert HoldsAll(u.chunks, pieces);
    }
    if pieces :| |pieces| == totalChunks && HoldsAll(u.chunks, pieces) && Join(pieces) == content {
      FullRange(u.chunks.Keys, totalChunks);
      assert |u.chunks| == |u.chunks.Keys|;
      JoinsPieces(u.chunks, pieces, totalChunks);
      assert pieces[..totalChunks] == pieces;
    }
  }

  lemma ExtraKey(keys: set<nat>, n: nat, k: nat)
    requires k in keys && k >= n && forall j: nat :: j < n ==> j in keys
    ensures |keys| > n
  {
    var below := set j: nat | j in keys && j < n;
    FullRange(below, n);
    SubsetCount(below + {k}, keys);
  }

  // As many chunks as numbers below n, and all of those: no other number.
  lemma OnlyInRange(chunks: map<nat, Bytes>, n: nat)
    requires |chunks| == n && forall k :: 0 <= k < n ==> k in chunks
    ensures forall k :: k in chunks ==> k < n
  {
    assert |chunks.Keys| == |chunks|;
    forall k | k in chunks ensures k < n {
      if k >= n {
        ExtraKey(chunks.Keys, n, k);
      }
    }
  }

  lemma {:induction false} SubsetCount(a: set<nat>, b: set<nat>)
    requires a <= b
    ensures |a| <= |b|
    decreases |a|
  {
    if a != {} {
      var x :| x in a;
      SubsetCount(a - {x}, b - {x});
    }
  }

  lemma NoGapIff(chunks: map<nat, Bytes>, n: nat)
    requires |chunks| == n
    ensures (forall k :: 0 <= k < n ==> k in chunks) <==> (forall k :: k in chunks ==> k < n)
  {
    assert |chunks.Keys| == |chunks|;
    if forall k :: k in chunks ==> k < n {
      FullRange(chunks.Keys, n);
    }
    if forall k :: 0 <= k < n ==> k in chunks {
      OnlyInRange(chunks, n);
    }
  }

  // Why a commit is refused: the count first, then a gap, then the size, then the digest.
  lemma CommitRefusals(codec: Codec, u: PendingUpload, totalChunks: int)
    ensures var commit := CommitOf(codec, u, totalChunks);
            && (commit == Refuse(ChunkCountMismatch) <==> |u.chunks| != totalChunks)
            && (commit == KeyError <==> |u.chunks| == totalChunks && exists k :: k in u.chunks && k >= totalChunks)
            && (commit.Refuse? ==> commit.code in {ChunkCountMismatch, FileSizeMismatch, ShaMismatch})
            && (forall pieces :: |pieces| == totalChunks && HoldsAll(u.chunks, pieces) ==>
                  && (commit == Refuse(FileSizeMismatch) <==> |Join(pieces)| != u.sizeBytes)
                  && (commit == Refuse(ShaMismatch) <==> |Join(pieces)| == u.sizeBytes && codec.digest(Join(pieces)) != u.sha256))
  {
    if |u.chunks| == totalChunks {
      NoGapIff(u.chunks, totalChunks);
    }
    forall pieces | |pieces| == totalChunks && HoldsAll(u.chunks, pieces)
      ensures |u.chunks| == totalChunks && JoinRange(u.chunks, totalChunks) == Join(pieces)
    {
      FullRange(u.chunks.Keys, totalChunks);
      assert |u.chunks| == |u.chunks.Keys|;
      JoinsPieces(u.chunks, pieces, totalChunks);
      assert pieces[..totalChunks] == pieces;
    }
  }

  // ---------- downloads ----------

  predicate IsLeast(k: nat, s: set<nat>) {
    k in s && forall j :: j in s ==> k <= j
  }

  ghost function Least(s: set<nat>): (k: nat)
    requires s != {}
    ensures IsLeast(k, s)
  {
    LeastExists(s);
    var k :| IsLeast(k, s);
    k
  }

  lemma {:induction false} LeastExists(s: set<nat>)
    requires s != {}
    ensures exists k :: IsLeast(k, s)
    decreases |s|
  {
    var x :| x in s;
    var rest := s - {x};
    if rest == {} {
      assert s == {x};
      assert IsLeast(x, s);
    } else {
      LeastExists(rest);
      var y :| IsLeast(y, rest);
      var least := if y < x then y else x;
      forall j | j in s ensures least <= j {
        assert j == x || j in rest;
      }
      assert IsLeast(least, s);
    }
  }

  ghost function SortedKeys(s: set<nat>): seq<nat>
    decreases |s|
  {
    if s == {} then [] else [Least(s)] + SortedKeys(s - {Least(s)})
  }

  function JoinKeys(chunks: map<nat, Bytes>, keys: seq<nat>): Bytes
    requires forall k :: k in keys ==> k in chunks
  {
    if keys == [] then []
    else
      assert keys[0] in keys;
      chunks[keys[0]] + JoinKeys(chunks, keys[1..])
  }

  lemma {:induction false} SortedIs(s: set<nat>)
    ensures forall k :: k in SortedKeys(s) <==> k in s
    ensures forall i, j :: 0 <= i < j < |SortedKeys(s)| ==> SortedKeys(s)[i] < SortedKeys(s)[j]
    decreases |s|
  {
    if s != {} {
      var least := Least(s);
      SortedIs(s - {least});
      var rest := SortedKeys(s - {least});
      assert SortedKeys(s) == [least] + rest;
      assert forall j :: 0 <= j < |rest| ==> rest[j] in s - {least};
    }
  }

  // The chunks received, in the order of their numbers.
  ghost function Assembled(chunks: map<nat, Bytes>): Bytes {
    SortedIs(chunks.Keys);
    JoinKeys(chunks, SortedKeys(chunks.Keys))
  }

  // The chunks left over complete what is joined so far.
  ghost predicate Partway(chunks: map<nat, Bytes>, left: set<nat>, content: Bytes) {
    && left <= chunks.Keys
    && (forall k :: k in SortedKeys(left) ==> k in chunks)
    && content + JoinKeys(chunks, SortedKeys(left)) == Assembled(chunks)
  }

  lemma JoinsLeast(chunks: map<nat, Bytes>, left: set<nat>, k: nat, content: Bytes)
    requires Partway(chunks, left, content) && IsLeast(k, left)
    ensures Partway(chunks, left - {k}, content + chunks[k])
  {
    var rest := SortedKeys(left - {k});
    SortedIs(left - {k});
    assert Least(left) == k;
    assert SortedKeys(left) == [k] + rest && ([k] + rest)[1..] == rest;
    assert JoinKeys(chunks, SortedKeys(left)) == chunks[k] + JoinKeys(chunks, rest);
    assert content + (chunks[k] + JoinKeys(chunks, rest)) == (content + chunks[k]) + JoinKeys(chunks, rest);
  }

  lemma JoinStarts(chunks: map<nat, Bytes>)
    ensures Partway(chunks, chunks.Keys, [])
  {
    SortedIs(chunks.Keys);
  }

  lemma JoinEnds(chunks: map<nat, Bytes>, content: Bytes)
    requires Partway(chunks, {}, content)
    ensures content == Assembled(chunks)
  {
  }

  // The join over the sorted keys in download_file.
  method Assemble(chunks: map<nat, Bytes>) returns (content: Bytes)
    ensures content == Assembled(chunks)
  {
    content := [];
    var left := chunks.Keys;
    JoinStarts(chunks);
    while left != {}
      invariant left <= chunks.Keys && Partway(chunks, left, content)
      decreases |left|
    {
      LeastExists(left);
      var k :| k in left && IsLeast(k, left);
      JoinsLeast(chunks, left, k, content);
      content := content + chunks[k];
      left := left - {k};
    }
    JoinEnds(chunks, content);
  }

  // The download's chunks after some frames arrived; a later one replaces an earlier.
  function Received(codec: Codec, frames: seq<Chunk>): map<nat, Bytes> {
    if frames == [] then map[]
    else Received(codec, frames[..|frames| - 1])[frames[|frames| - 1].seqNo := codec.decode(frames[|frames| - 1].data)]
  }

  // Of two frames with one number the later one counts.
  lemma LaterFrameCounts(codec: Codec, frames: seq<Chunk>, c: Chunk)
    ensures var before, after := Received(codec, frames), Received(codec, frames + [c]);
            after.Keys == before.Keys + {c.seqNo} && after[c.seqNo] == codec.decode(c.data)
            && forall k :: k in before && k != c.seqNo ==> after[k] == before[k]
  {
    assert (frames + [c])[..|frames|] == frames;
  }

  lemma {:induction false} ReceivedHolds(codec: Codec, content: Bytes, size: nat, frames: seq<Chunk>)
    requires InversePair(codec) && size >= 1 && forall c :: c in frames ==> c in ChunksOf(codec, content, size)
    ensures Received(codec, frames).Keys == SeqsOf(ChunksOf(codec, content, size), frames)
    ensures forall k :: k in Received(codec, frames) ==>
              0 <= k < |Pieces(content, size)| && Received(codec, frames)[k] == Pieces(content, size)[k]
  {
    if frames != [] {
      var front, c := frames[..|frames| - 1], frames[|frames| - 1];
      assert frames == front + [c] && c in frames;
      ReceivedHolds(codec, content, size, front);
      var sent := ChunksOf(codec, content, size);
      assert SeqsOf(sent, frames) == SeqsOf(sent, front) + {c.seqNo};
    }
  }

  ghost predicate Ascending(keys: seq<nat>, lo: nat, n: nat) {
    && (forall i :: 0 <= i < |keys| ==> lo <= keys[i] < n)
    && (forall i, j :: 0 <= i < j < |keys| ==> keys[i] < keys[j])
  }

  lemma AscendingAt(keys: seq<nat>, lo: nat, n: nat, i: nat)
    requires Ascending(keys, lo, n) && i < |keys|
    ensures lo <= keys[0] <= keys[i] < n
  {
  }

  lemma FirstKey(keys: seq<nat>, lo: nat, n: nat)
    requires Ascending(keys, lo, n) && keys != []
    ensures lo <= keys[0] < n
  {
  }

  lemma NoKeys(keys: seq<nat>, n: nat)
    requires Ascending(keys, n, n)
    ensures keys == []
  {
    if keys != [] {
      FirstKey(keys, n, n);
    }
  }

  ghost predicate HasAll(keys: seq<nat>, lo: nat, n: nat) {
    forall k :: lo <= k < n ==> k in keys
  }

  ghost predicate Holds(chunks: map<nat, Bytes>, pieces: seq<Bytes>, keys: seq<nat>) {
    forall k :: k in keys ==> k < |pieces| && k in chunks && chunks[k] == pieces[k]
  }

  // keys without its first key lo, or with no key lo at all.
  lemma SkipsTo(keys: seq<nat>, lo: nat, n: nat)
    requires lo < n && Ascending(keys, lo, n)
    ensures if keys != [] && keys[0] == lo
            then Ascending(keys[1..], lo + 1, n) && (HasAll(keys, lo, n) <==> HasAll(keys[1..], lo + 1, n))
            else Ascending(keys, lo + 1, n) && lo !in keys
  {
    if keys != [] && keys[0] == lo {
      assert keys == [lo] + keys[1..];
      assert forall k: nat :: k in keys <==> k == lo || k in keys[1..];
    } else if keys != [] {
      forall i | 0 <= i < |keys| ensures lo < keys[i] {
        AscendingAt(keys, lo, n, i);
      }
    }
  }

  // Joining only some of the pieces from lo on gives fewer bytes.
  lemma {:induction false} SomePieces(chunks: map<nat, Bytes>, pieces: seq<Bytes>, keys: seq<nat>, lo: nat)
    requires lo <= |pieces| && Ascending(keys, lo, |pieces|) && forall k :: 0 <= k < |pieces| ==> pieces[k] != []
    requires Holds(chunks, pieces, keys)
    ensures if HasAll(keys, lo, |pieces|) then JoinKeys(chunks, keys) == Join(pieces[lo..])
            else |JoinKeys(chunks, keys)| < |Join(pieces[lo..])|
    decreases |pieces| - lo
  {
    if lo == |pieces| {
      NoKeys(keys, lo);
    } else {
      SkipsTo(keys, lo, |pieces|);
      assert Join(pieces[lo..]) == pieces[lo] + Join(pieces[lo + 1..]) by {
        assert pieces[lo..][1..] == pieces[lo + 1..];
      }
      if keys != [] && keys[0] == lo {
        assert keys == [lo] + keys[1..] && lo in keys;
        assert Holds(chunks, pieces, keys[1..]);
        SomePieces(chunks, pieces, keys[1..], lo + 1);
      } else {
        SomePieces(chunks, pieces, keys, lo + 1);
      }
    }
  }

  // A download reassembled from any order and repetition of the chunks is the stored content
  // exactly if every chunk arrived.
  lemma DownloadRestoresIff(codec: Codec, content: Bytes, size: nat, frames: seq<Chunk>)
    requires InversePair(codec) && size >= 1 && forall c :: c in frames ==> c in ChunksOf(codec, content, size)
    ensures Assembled(Received(codec, frames)) == content <==>
            forall c :: c in ChunksOf(codec, content, size) ==> c in frames
  {
    var sent, pieces, chunks := ChunksOf(codec, content, size), Pieces(content, size), Received(codec, frames);
    ReceivedHolds(codec, content, size, frames);
    PiecesJoin(content, size);
    AssembledIs(chunks, pieces);
    AllArrived(sent, frames);
  }

  lemma AssembledIs(chunks: map<nat, Bytes>, pieces: seq<Bytes>)
    requires forall k :: 0 <= k < |pieces| ==> pieces[k] != []
    requires forall k :: k in chunks ==> k < |pieces| && chunks[k] == pieces[k]
    ensures if forall k :: 0 <= k < |pieces| ==> k in chunks then Assembled(chunks) == Join(pieces)
            else |Assembled(chunks)| < |Join(pieces)|
  {
    var keys := SortedKeys(chunks.Keys);
    SortedIs(chunks.Keys);
    forall i | 0 <= i < |keys| ensures 0 <= keys[i] < |pieces| {
      assert keys[i] in keys;
    }
    SomePieces(chunks, pieces, keys, 0);
    assert pieces[0..] == pieces;
  }

  // The last chunk alone says it is the last; an empty file has no chunks, and comes back empty.
  lemma LastChunk(codec: Codec, content: Bytes, size: nat)
    requires size >= 1
    ensures var chunks := ChunksOf(codec, content, size);
            && (forall k :: 0 <= k < |chunks| ==> (chunks[k].isLast <==> k == |chunks| - 1))
            && (content == [] <==> chunks == [])
            && Assembled(Received(codec, [])) == []
  {
    SortedIs({});
  }
}
