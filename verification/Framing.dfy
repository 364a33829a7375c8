/**
 Bytes on the wire. Files are read through a reused 4096-byte buffer, travel as one message per
 block, and are put together again by appending. The methods are the source's loops; EndToEnd is
 the law they serve: an upload followed by a download is the identity.
 */
module Framing {
  import opened Types
  import opened Chunking

  const BLOCK := 4096

  datatype PutFileRequest = PutFileRequest(filename: Name, data: Bytes)
  datatype PutChunkRequest = PutChunkRequest(chunkId: ChunkId, data: Bytes)

  /** An input file stream: the content, the read position and the count of the last read. */
  class InputFile {
    const content: Bytes
    var pos: nat
    var gcount: nat

    ghost predicate Valid()
      reads this
    {
      pos <= |content|
    }

    constructor (content: Bytes)
      ensures Valid() && this.content == content && pos == 0 && gcount == 0
    {
      this.content := content;
      pos, gcount := 0, 0;
    }

    /** Fills as much of `buffer` as the rest of the file allows; true when it was filled whole. */
    method Read(buffer: array<byte>) returns (full: bool)
      requires Valid() && buffer.Length == BLOCK
      modifies this, buffer
      ensures Valid() && pos == old(pos) + gcount
      ensures gcount == Min(BLOCK, |content| - old(pos))
      ensures full <==> gcount == BLOCK
      ensures buffer[..gcount] == content[old(pos)..pos]
      ensures buffer[gcount..] == old(buffer[..])[gcount..]
    {
      var n := Min(BLOCK, |content| - pos);
      for i := 0 to n
        modifies buffer
        invariant forall j :: 0 <= j < i ==> buffer[j] == content[pos + j]
        invariant forall j :: i <= j < BLOCK ==> buffer[j] == old(buffer[j])
      {
        buffer[i] := content[pos + i];
      }
      pos, gcount := pos + n, n;
      full := n == BLOCK;
    }
  }

  /** The blocks a file is sent in: full ones, and a shorter last one if bytes remain. */
  function Frames(content: Bytes): seq<Bytes> {
    if |content| >= BLOCK then [content[..BLOCK]] + Frames(content[BLOCK..])
    else if |content| > 0 then [content]
    else []
  }

  lemma FramesFrom(content: Bytes, from: nat)
    requires from + BLOCK <= |content|
    ensures Frames(content[from..]) == [content[from..from + BLOCK]] + Frames(content[from + BLOCK..])
  {
    assert content[from..][..BLOCK] == content[from..from + BLOCK] && content[from..][BLOCK..] == content[from + BLOCK..];
  }

  lemma {:induction false} FramesFlatten(content: Bytes)
    ensures Flatten(Frames(content)) == content
  {
    if |content| >= BLOCK {
      FramesFlatten(content[BLOCK..]);
      assert Frames(content)[1..] == Frames(content[BLOCK..]);
    } else if |content| > 0 {
      assert Frames(content)[1..] == [];
    }
  }

  /** No message is empty or longer than the buffer, and an empty file sends none. */
  lemma {:induction false} FramesShape(content: Bytes)
    ensures forall k :: 0 <= k < |Frames(content)| ==> 0 < |Frames(content)[k]| <= 4096
    ensures forall k :: 0 <= k < |Frames(content)| - 1 ==> |Frames(content)[k]| == 4096
    ensures |Frames(content)| == (|content| + 4095) / 4096
  {
    if |content| >= BLOCK {
      FramesShape(content[BLOCK..]);
    }
  }

  function Requests(filename: Name, frames: seq<Bytes>): seq<PutFileRequest> {
    seq(|frames|, i requires 0 <= i < |frames| => PutFileRequest(filename, frames[i]))
  }

  /** What the client streams for one file: the name alone, then the blocks under the same name. */
  function UploadStream(filename: Name, content: Bytes): seq<PutFileRequest> {
    [PutFileRequest(filename, [])] + Requests(filename, Frames(content))
  }

  /** Every message carries the name; the first has no bytes, and the others have the file's blocks. */
  lemma UploadStreamShape(filename: Name, content: Bytes)
    ensures var stream := UploadStream(filename, content);
            && |stream| == 1 + (|content| + 4095) / 4096 && stream[0].data == []
            && (forall k :: 0 <= k < |stream| ==> stream[k].filename == filename)
            && (forall k :: 1 <= k < |stream| ==> 0 < |stream[k].data| <= 4096)
            && (forall k :: 1 <= k < |stream| - 1 ==> |stream[k].data| == 4096)
  {
    FramesShape(content);
  }

  /** The client's upload loop. The request object and the buffer are reused for every message. */
  method SendFile(filename: Name, content: Bytes) returns (sent: seq<PutFileRequest>)
    ensures sent == UploadStream(filename, content)
  {
    var file := new InputFile(content);
    var request := PutFileRequest(filename, []);
    sent := [request];
    var buffer := new byte[BLOCK](_ => 0);
    var full := file.Read(buffer);
    ghost var from := 0;
    while full
      invariant file.Valid() && file.content == content && from + file.gcount == file.pos
      invariant file.gcount == Min(BLOCK, |content| - from) && (full <==> file.gcount == BLOCK)
      invariant buffer.Length == BLOCK && buffer[..file.gcount] == content[from..file.pos]
      invariant request.filename == filename
      invariant sent + Requests(filename, Frames(content[from..])) == UploadStream(filename, content)
      decreases |content| - from
    {
      request := request.(data := buffer[..file.gcount]);
      sent := sent + [request];
      FramesFrom(content, from);
      assert Requests(filename, Frames(content[from..])) == [request] + Requests(filename, Frames(content[file.pos..]));
      from := file.pos;
      full := file.Read(buffer);
    }
    assert content[from..] == content[from..file.pos];
    if file.gcount > 0 {
      request := request.(data := buffer[..file.gcount]);
      sent := sent + [request];
    }
  }

  /** The data node's reply loop for one chunk file. */
  method SendChunk(content: Bytes) returns (sent: seq<Bytes>)
    ensures sent == Frames(content)
  {
    var file := new InputFile(content);
    sent := [];
    var buffer := new byte[BLOCK](_ => 0);
    var full := file.Read(buffer);
    ghost var from := 0;
    while full
      invariant file.Valid() && file.content == content && from + file.gcount == file.pos
      invariant file.gcount == Min(BLOCK, |content| - from) && (full <==> file.gcount == BLOCK)
      invariant buffer.Length == BLOCK && buffer[..file.gcount] == content[from..file.pos]
      invariant sent + Frames(content[from..]) == Frames(content)
      decreases |content| - from
    {
      FramesFrom(content, from);
      sent := sent + [buffer[..file.gcount]];
      from := file.pos;
      full := file.Read(buffer);
    }
    assert content[from..] == content[from..file.pos];
    if file.gcount > 0 {
      sent := sent + [buffer[..file.gcount]];
    }
  }

  /** The receiving loops: append every message to what has arrived so far. */
  method Append(messages: seq<Bytes>) returns (data: Bytes, received: bool)
    ensures data == Flatten(messages)
    ensures received <==> messages != []
  {
    data, received := [], false;
    for i := 0 to |messages|
      invariant data == Flatten(messages[..i])
      invariant received <==> i > 0
    {
      assert messages[..i + 1] == messages[..i] + [messages[i]];
      FlattenAppend(messages[..i], messages[i]);
      data := data + messages[i];
      received := true;
    }
    assert messages[..|messages|] == messages;
  }

  /**
   The coordinator's stub for one chunk read. The caller's vector is assigned only when the call
   ended well and at least one message came; a file without bytes sends none, and the caller then
   keeps its fresh, empty vector.
   */
  method ReadReply(messages: seq<Bytes>, statusOk: bool, callers: Bytes) returns (ok: bool, data: Bytes)
    ensures ok <==> statusOk
    ensures data == if statusOk && messages != [] then Flatten(messages) else callers
  {
    var temp, success := Append(messages);
    if statusOk && success {
      return true, temp;
    }
    return statusOk, callers;
  }

  /** The data node's write loop: the first message opens and truncates the file, all are appended. */
  method StoreChunk(requests: seq<PutChunkRequest>, before: Option<Bytes>) returns (file: Option<Bytes>)
    ensures requests == [] ==> file == before
    ensures requests != [] ==> file == Some(Flatten(seq(|requests|, i requires 0 <= i < |requests| => requests[i].data)))
  {
    file := before;
    ghost var parts := seq(|requests|, i requires 0 <= i < |requests| => requests[i].data);
    for i := 0 to |requests|
      invariant i == 0 ==> file == before
      invariant i > 0 ==> file == Some(Flatten(parts[..i]))
    {
      if i == 0 {
        file := Some([]);
        assert parts[..0] == [];
      }
      assert parts[..i + 1] == parts[..i] + [parts[i]];
      FlattenAppend(parts[..i], parts[i]);
      file := Some(file.value + requests[i].data);
    }
    assert parts[..|parts|] == parts;
  }

  /** The bytes an upload stream carries. */
  function Carried(requests: seq<PutFileRequest>): Bytes {
    Flatten(seq(|requests|, i requires 0 <= i < |requests| => requests[i].data))
  }

  /** A stream carries the bytes of all its messages, the first one's included, in order. */
  lemma CarriedNext(requests: seq<PutFileRequest>, request: PutFileRequest)
    ensures Carried([]) == [] && Carried(requests + [request]) == Carried(requests) + request.data
  {
    var parts := seq(|requests|, i requires 0 <= i < |requests| => requests[i].data);
    FlattenAppend(parts, request.data);
    assert seq(|requests + [request]|, i requires 0 <= i < |requests + [request]| => (requests + [request])[i].data) == parts + [request.data];
  }

  lemma CarriedUpTo(requests: seq<PutFileRequest>, i: nat, i': nat)
    requires i' == i + 1 && i < |requests|
    ensures Carried(requests[..i']) == Carried(requests[..i]) + requests[i].data
  {
    CarriedNext(requests[..i], requests[i]);
    assert requests[..i'] == requests[..i] + [requests[i]];
  }

  lemma UploadCarries(filename: Name, content: Bytes)
    ensures Carried(UploadStream(filename, content)) == content
  {
    var stream, frames := UploadStream(filename, content), Frames(content);
    var parts := seq(|stream|, i requires 0 <= i < |stream| => stream[i].data);
    assert parts == [[]] + frames;
    assert parts[1..] == frames;
    FramesFlatten(content);
  }

  /** The download's replies: each chunk as a node sends it in blocks and the stub collects it. */
  function Replies(data: Bytes): seq<Bytes> {
    seq(NumChunks(|data|), k requires 0 <= k < NumChunks(|data|) => Flatten(Frames(Slice(data, k))))
  }

  /**
   Upload, chunking, storage, block transfer and download compose to the identity on every file,
   the empty one and exact multiples of the block and chunk sizes included.
   */
  lemma EndToEnd(filename: Name, content: Bytes)
    ensures Flatten(Replies(Carried(UploadStream(filename, content)))) == content
  {
    UploadCarries(filename, content);
    var n := NumChunks(|content|);
    forall k | 0 <= k < n
      ensures Replies(content)[k] == Slice(content, k)
    {
      FramesFlatten(Slice(content, k));
    }
    assert Replies(content) == Slices(content, n);
    ChunksCover(content);
  }
}
