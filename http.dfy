/** Streaming a file download to disk while hashing it. */
module Http {
  import opened Common
  import opened Host

  /** Why loading a file failed. */
  datatype FileLoadError =
    | Reqwest(detail: string)  // building or sending the request failed
    | Server(status: nat)      // the server answered with a non-success status
    | Read(detail: string)     // reading a chunk of the body failed
    | Write(error: IoError)    // writing to the destination failed

  /** One read of the response body: a chunk of bytes, or a failed read. */
  datatype ChunkRead = Data(bytes: seq<byte>) | ReadFailed(detail: string)

  /** An HTTP response: its status and the successive reads of its body; the
      body ends after the last read. */
  datatype Response = Response(status: nat, chunks: seq<ChunkRead>)

  /** The HTTP client: a GET request, failing before any response when the
      request cannot be built or sent. */
  datatype Client = Client(get: string -> Result<Response, string>)

  /** Whether the status is in the 2xx success class. */
  predicate IsSuccess(status: nat)
  {
    200 <= status < 300
  }

  /** The bytes of a body, all reads concatenated. */
  function Received(chunks: seq<ChunkRead>): seq<byte>
  {
    if chunks == [] then []
    else (match chunks[0] case Data(b) => b case ReadFailed(_) => []) + Received(chunks[1..])
  }

  /** No read of the body fails. */
  predicate Complete(chunks: seq<ChunkRead>)
  {
    forall k :: 0 <= k < |chunks| ==> chunks[k].Data?
  }

  /** The outcome of streaming a body into a file: the error that stopped it,
      if any, the new filesystem, and the bytes written (and hashed). */
  datatype Pumped = Pumped(error: Option<FileLoadError>, view: FsView, written: seq<byte>)

  /** Write every non-empty chunk to `dest`, stopping at the first failed read
      or failed write. */
  function Pump(faults: Faults, v: FsView, dest: string, chunks: seq<ChunkRead>): Pumped
    requires dest in v.files
    decreases |chunks|
  {
    if chunks == [] then Pumped(None, v, [])
    else match chunks[0]
      case ReadFailed(d) => Pumped(Some(Read(d)), v, [])
      case Data(b) =>
        if b == [] then Pump(faults, v, dest, chunks[1..])
        else
          var w := WriteStep(faults, v, dest, b);
          match w.error
          case Some(e) => Pumped(Some(Write(e)), v, [])
          case None =>
            var rest := Pump(faults, w.view, dest, chunks[1..]);
            Pumped(rest.error, rest.view, b + rest.written)
  }

  /** Streaming only ever appends to `dest`, and appends a prefix of the body;
      it ends without error exactly when it has written the whole body, which
      requires every read to succeed; it fails only on a read or a write, and a
      read failure means some read failed. */
  lemma {:induction false} PumpOutcome(faults: Faults, v: FsView, dest: string, chunks: seq<ChunkRead>)
    requires dest in v.files
    ensures var p := Pump(faults, v, dest, chunks);
      && p.view == v.(files := v.files[dest := v.files[dest] + p.written])
      && p.written <= Received(chunks)
      && (p.error.None? ==> Complete(chunks) && p.written == Received(chunks))
      && (p.error.Some? ==> p.error.value.Read? || p.error.value.Write?)
      && (p.error.Some? && p.error.value.Read? ==> !Complete(chunks))
    decreases |chunks|
  {
    var p := Pump(faults, v, dest, chunks);
    if chunks == [] {
      assert v.files[dest] + [] == v.files[dest];
    } else {
      match chunks[0]
      case ReadFailed(d) =>
        assert v.files[dest] + [] == v.files[dest];
      case Data(b) =>
        assert Received(chunks) == b + Received(chunks[1..]);
        if b == [] {
          PumpOutcome(faults, v, dest, chunks[1..]);
          assert p.error.None? ==> Complete(chunks);
        } else {
          var w := WriteStep(faults, v, dest, b);
          if w.error.Some? {
            assert v.files[dest] + [] == v.files[dest];
          } else {
            var rest := Pump(faults, w.view, dest, chunks[1..]);
            PumpOutcome(faults, w.view, dest, chunks[1..]);
            assert v.files[dest] + b + rest.written == v.files[dest] + (b + rest.written);
            assert rest.error.None? ==> Complete(chunks);
          }
        }
    }
  }

  /** The detail of the first failed read of the body, if any read fails. */
  function FirstFailedRead(chunks: seq<ChunkRead>): Option<string>
    decreases |chunks|
  {
    if chunks == [] then None
    else match chunks[0]
      case ReadFailed(d) => Some(d)
      case Data(_) => FirstFailedRead(chunks[1..])
  }

  /** A failed read ends the stream: with that read's `Read` error, unless a
      write failed before it; a `Read` error always carries the first failed
      read's detail; and when no write fails, the stream stops exactly at the
      first failed read, or ends without error when there is none. */
  lemma {:induction false} PumpReadFailure(faults: Faults, v: FsView, dest: string, chunks: seq<ChunkRead>)
    requires dest in v.files
    ensures var p := Pump(faults, v, dest, chunks);
      && (FirstFailedRead(chunks).Some? ==>
            p.error == Some(Read(FirstFailedRead(chunks).value)) || (p.error.Some? && p.error.value.Write?))
      && (p.error.Some? && p.error.value.Read? ==> FirstFailedRead(chunks) == Some(p.error.value.detail))
      && ((forall q, n :: faults.write(q, n).None?) ==>
            p.error == match FirstFailedRead(chunks) case None => None case Some(d) => Some(Read(d)))
    decreases |chunks|
  {
    if chunks != [] && chunks[0].Data? {
      var b := chunks[0].bytes;
      if b == [] {
        PumpReadFailure(faults, v, dest, chunks[1..]);
      } else {
        var w := WriteStep(faults, v, dest, b);
        if w.error.None? {
          PumpReadFailure(faults, w.view, dest, chunks[1..]);
        }
      }
    }
  }

  /** The outcome of loading a file: the hash or the error, and the new filesystem. */
  datatype Loaded = Loaded(result: Result<seq<byte>, FileLoadError>, view: FsView)

  /** What `load_file` does: request, check the status, stream the body to
      `dest`, and hash what was written. */
  function LoadFileSpec(client: Client, hash: seq<byte> -> seq<byte>, faults: Faults, v: FsView, url: string, dest: string): Loaded
    requires dest in v.files
  {
    match client.get(url)
    case Err(d) => Loaded(Err(Reqwest(d)), v)
    case Ok(res) =>
      if !IsSuccess(res.status) then Loaded(Err(Server(res.status)), v)
      else
        var p := Pump(faults, v, dest, res.chunks);
        match p.error
        case Some(e) => Loaded(Err(e), p.view)
        case None => Loaded(Ok(hash(p.written)), p.view)
  }

  /** The outcome of `Pump` once `written` has already been written. */
  function After(written: seq<byte>, p: Pumped): Pumped
  {
    Pumped(p.error, p.view, written + p.written)
  }

  lemma PumpSkipsEmpty(faults: Faults, v: FsView, dest: string, rest: seq<ChunkRead>)
    requires dest in v.files
    ensures Pump(faults, v, dest, [Data([])] + rest) == Pump(faults, v, dest, rest)
  {
    assert ([Data([])] + rest)[1..] == rest;
  }

  lemma PumpWrites(faults: Faults, v: FsView, dest: string, b: seq<byte>, rest: seq<ChunkRead>)
    requires dest in v.files && b != []
    ensures var w := WriteStep(faults, v, dest, b);
      Pump(faults, v, dest, [Data(b)] + rest)
        == if w.error.Some? then Pumped(Some(Write(w.error.value)), v, [])
           else After(b, Pump(faults, w.view, dest, rest))
  {
    assert ([Data(b)] + rest)[1..] == rest;
    var w := WriteStep(faults, v, dest, b);
    if w.error.None? {
      PumpSkipsEmpty(faults, w.view, dest, rest);
    }
  }

  /** Helper: `After` composes by concatenating what was already written. */
  lemma AfterAfter(a: seq<byte>, b: seq<byte>, p: Pumped)
    ensures After(a, After(b, p)) == After(a + b, p)
  {
    assert a + (b + p.written) == (a + b) + p.written;
  }

  /** How the outcome of streaming the whole body relates to the outcome of
      the rest of it, across one received empty buffer ... */
  lemma EmptyStep(faults: Faults, v0: FsView, dest: string, chunks: seq<ChunkRead>, i: nat, fed: seq<byte>, before: FsView)
    requires dest in v0.files && dest in before.files && i < |chunks| && chunks[i] == Data([])
    requires Pump(faults, v0, dest, chunks) == After(fed, Pump(faults, before, dest, chunks[i..]))
    ensures Pump(faults, v0, dest, chunks) == After(fed, Pump(faults, before, dest, chunks[i + 1..]))
  {
    assert chunks[i..] == [Data([])] + chunks[i + 1..];
    PumpSkipsEmpty(faults, before, dest, chunks[i + 1..]);
  }

  /** ... across a non-empty buffer whose write fails ... */
  lemma FailedWriteStep(faults: Faults, v0: FsView, dest: string, chunks: seq<ChunkRead>, i: nat, fed: seq<byte>, before: FsView)
    requires dest in v0.files && dest in before.files && i < |chunks| && chunks[i].Data? && chunks[i].bytes != []
    requires WriteStep(faults, before, dest, chunks[i].bytes).error.Some?
    requires Pump(faults, v0, dest, chunks) == After(fed, Pump(faults, before, dest, chunks[i..]))
    ensures Pump(faults, v0, dest, chunks)
      == Pumped(Some(Write(WriteStep(faults, before, dest, chunks[i].bytes).error.value)), before, fed)
  {
    assert chunks[i..] == [chunks[i]] + chunks[i + 1..];
    PumpWrites(faults, before, dest, chunks[i].bytes, chunks[i + 1..]);
    assert fed + [] == fed;
  }

  /** ... and across a non-empty buffer that is written. */
  lemma WrittenStep(faults: Faults, v0: FsView, dest: string, chunks: seq<ChunkRead>, i: nat, fed: seq<byte>, before: FsView)
    requires dest in v0.files && dest in before.files && i < |chunks| && chunks[i].Data? && chunks[i].bytes != []
    requires WriteStep(faults, before, dest, chunks[i].bytes).error.None?
    requires Pump(faults, v0, dest, chunks) == After(fed, Pump(faults, before, dest, chunks[i..]))
    ensures var w := WriteStep(faults, before, dest, chunks[i].bytes);
      Pump(faults, v0, dest, chunks) == After(fed + chunks[i].bytes, Pump(faults, w.view, dest, chunks[i + 1..]))
  {
    var b, rest := chunks[i].bytes, chunks[i + 1..];
    assert chunks[i..] == [Data(b)] + rest;
    PumpWrites(faults, before, dest, b, rest);
    AfterAfter(fed, b, Pump(faults, WriteStep(faults, before, dest, b).view, dest, rest));
  }

  /** Write one received buffer to `dest`, slice by slice, feeding each slice
      to `digest` right after it is written. */
  method WriteBuffer(fs: FileSystem, dest: string, digest: Digest, bytes: seq<byte>) returns (error: Option<IoError>)
    requires dest in fs.files
    modifies fs, digest
    ensures dest in fs.files
    ensures bytes == [] ==> error.None? && fs.View() == old(fs.View())
    ensures bytes != [] ==> Step(error, fs.View()) == WriteStep(fs.faults, old(fs.View()), dest, bytes)
    ensures digest.fed == old(digest.fed) + (if bytes != [] && error.None? then bytes else [])
  {
    var buf := bytes;
    while true
      invariant dest in fs.files
      invariant buf == bytes ==> fs.View() == old(fs.View()) && digest.fed == old(digest.fed)
      invariant buf != bytes ==> buf == [] && digest.fed == old(digest.fed) + bytes
                                 && Step(None, fs.View()) == WriteStep(fs.faults, old(fs.View()), dest, bytes)
      decreases |buf|
    {
      // The contiguous slice at the front of a `Bytes` buffer is all of it.
      var chunk := buf;
      if chunk == [] {
        break;
      }
      error := fs.WriteAll(dest, chunk);
      if error.Some? {
        return;
      }
      digest.Update(chunk);
      buf := buf[|chunk|..];
    }
    assert digest.fed + [] == digest.fed;
    error := None;
  }

  /** Stream the body into `dest`: read chunk after chunk until the body
      ends, stopping at the first failed read or failed write. */
  method StreamBody(chunks: seq<ChunkRead>, fs: FileSystem, dest: string, digest: Digest) returns (error: Option<FileLoadError>)
    requires dest in fs.files && digest.fed == []
    modifies fs, digest
    ensures Pump(fs.faults, old(fs.View()), dest, chunks) == Pumped(error, fs.View(), digest.fed)
  {
    ghost var v0 := fs.View();
    var i := 0;
    while i < |chunks|
      invariant 0 <= i <= |chunks|
      invariant dest in fs.files
      invariant Pump(fs.faults, v0, dest, chunks) == After(digest.fed, Pump(fs.faults, fs.View(), dest, chunks[i..]))
    {
      match chunks[i] {
        case ReadFailed(d) =>
          assert chunks[i..] == [ReadFailed(d)] + chunks[i + 1..];
          return Some(Read(d));
        case Data(bytes) =>
          ghost var before, fed := fs.View(), digest.fed;
          var err := WriteBuffer(fs, dest, digest, bytes);
          if err.Some? {
            FailedWriteStep(fs.faults, v0, dest, chunks, i, fed, before);
            return Some(Write(err.value));
          }
          ghost var after := fs.View();
          if bytes == [] {
            assert after == before && digest.fed == fed;
            EmptyStep(fs.faults, v0, dest, chunks, i, fed, before);
          } else {
            assert after == WriteStep(fs.faults, before, dest, bytes).view && digest.fed == fed + bytes;
            WrittenStep(fs.faults, v0, dest, chunks, i, fed, before);
          }
      }
      i := i + 1;
    }
    assert chunks[i..] == [];
    return None;
  }

  /** Download `url` into the open file `dest`, feeding every chunk to `digest`
      right after it is written, and return the digest of what was written. */
  method LoadFile(client: Client, url: string, fs: FileSystem, dest: string, digest: Digest) returns (r: Result<seq<byte>, FileLoadError>)
    requires dest in fs.files && digest.fed == []
    modifies fs, digest
    ensures Loaded(r, fs.View()) == LoadFileSpec(client, digest.hash, fs.faults, old(fs.View()), url, dest)
    ensures dest in fs.files && fs.files[dest] == old(fs.files[dest]) + digest.fed
  {
    var sent := client.get(url);
    if sent.Err? {
      return Err(Reqwest(sent.error));
    }
    var res := sent.value;
    if !IsSuccess(res.status) {
      return Err(Server(res.status));
    }
    var error := StreamBody(res.chunks, fs, dest, digest);
    if error.Some? {
      PumpOutcome(fs.faults, old(fs.View()), dest, res.chunks);
      return Err(error.value);
    }
    var hash := digest.Finalize();
    PumpOutcome(fs.faults, old(fs.View()), dest, res.chunks);
    return Ok(hash);
  }

  /** A non-success status fails with `Server` before anything is written;
      on success the hash is that of the whole body, which is what was
      appended to the destination. */
  lemma LoadFileOutcome(client: Client, hash: seq<byte> -> seq<byte>, faults: Faults, v: FsView, url: string, dest: string)
    requires dest in v.files
    ensures var l := LoadFileSpec(client, hash, faults, v, url, dest);
      && (client.get(url).Err? ==> l == Loaded(Err(Reqwest(client.get(url).error)), v))
      && (client.get(url).Ok? && !IsSuccess(client.get(url).value.status) ==>
            l == Loaded(Err(Server(client.get(url).value.status)), v))
      && (l.result.Ok? <==>
            client.get(url).Ok? && IsSuccess(client.get(url).value.status)
            && Pump(faults, v, dest, client.get(url).value.chunks).error.None?)
      && (l.result.Ok? ==>
            var body := Received(client.get(url).value.chunks);
            && Complete(client.get(url).value.chunks)
            && l.result.value == hash(body)
            && l.view == v.(files := v.files[dest := v.files[dest] + body]))
  {
    if client.get(url).Ok? {
      PumpOutcome(faults, v, dest, client.get(url).value.chunks);
    }
  }
}
