/**
 * The CLI copy loops `put` and `cat` (crates/diaspor-cli/src/main.rs) over one backend.
 *
 * Standard input is the sequence of chunks the successive reads return; an empty read ends it.
 */
module CopyLoops {
  import opened Common
  import opened VfsPaths
  import opened MemoryFs

  const BUFFER: nat := 16 * 1024

  const PUT_FLAGS := Flags(true, false, true)
  const CAT_FLAGS := Flags(false, false, false)

  predicate InputChunk(chunk: seq<Byte>) { 0 < |chunk| <= BUFFER }

  function PutChunks(nodes: Tree, path: string, offset: nat, chunks: seq<seq<Byte>>): Outcome<Unit>
    decreases |chunks|
  {
    if chunks == [] then Outcome(nodes, Ok(Unit))
    else
      var w := WriteStep(nodes, path, offset, chunks[0]);
      if w.result.Err? then Outcome(w.nodes, Err(w.result.error))
      else PutChunks(w.nodes, path, offset + |chunks[0]|, chunks[1..])
  }

  function PutStep(nodes: Tree, text: string, chunks: seq<seq<Byte>>): Outcome<Unit>
  {
    match Normalize(text)
    case None => Outcome(nodes, Err(InvalidPath(text)))
    case Some(path) =>
      var o := OpenStep(nodes, path, PUT_FLAGS);
      if o.result.Err? then o else PutChunks(o.nodes, path, 0, chunks)
  }

  function CatFrom(nodes: Tree, path: string, offset: nat): Result<seq<Byte>, VfsError>
    decreases if path in nodes && offset < |nodes[path].data| then |nodes[path].data| - offset else 0
  {
    match ReadStep(nodes, path, offset, BUFFER)
    case Err(e) => Err(e)
    case Ok(chunk) =>
      if chunk == [] then Ok([])
      else match CatFrom(nodes, path, offset + |chunk|)
        case Err(e) => Err(e)
        case Ok(rest) => Ok(chunk + rest)
  }

  function CatStep(nodes: Tree, text: string): Result<seq<Byte>, VfsError>
  {
    match Normalize(text)
    case None => Err(InvalidPath(text))
    case Some(path) =>
      match OpenStep(nodes, path, CAT_FLAGS).result
      case Err(e) => Err(e)
      case Ok(_) => CatFrom(nodes, path, 0)
  }

  method RunPut(backend: MemoryBackend, text: string, chunks: seq<seq<Byte>>) returns (r: Result<Unit, VfsError>)
    requires forall i :: 0 <= i < |chunks| ==> InputChunk(chunks[i])
    modifies backend
    ensures Outcome(backend.nodes, r) == PutStep(old(backend.nodes), text, chunks)
  {
    var parsed := New(text);
    if parsed.None? {
      return Err(InvalidPath(text));
    }
    var path := parsed.value;
    var opened_ := backend.Open(path, PUT_FLAGS);
    if opened_.Err? {
      return Err(opened_.error);
    }
    r := CopyIn(opened_.value, chunks);
  }

  /** The copy loop of `put`. */
  method CopyIn(handle: MemoryHandle, chunks: seq<seq<Byte>>) returns (r: Result<Unit, VfsError>)
    modifies handle.backend
    ensures Outcome(handle.backend.nodes, r) == PutChunks(old(handle.backend.nodes), handle.path, 0, chunks)
  {
    ghost var target := PutChunks(handle.backend.nodes, handle.path, 0, chunks);
    assert chunks[0..] == chunks;
    var offset: nat := 0;
    var i := 0;
    while i < |chunks|
      invariant 0 <= i <= |chunks|
      invariant PutChunks(handle.backend.nodes, handle.path, offset, chunks[i..]) == target
    {
      PutOne(handle.backend.nodes, handle.path, offset, chunks, i);
      var written := handle.Write(offset, chunks[i]);
      if written.Err? {
        return Err(written.error);
      }
      offset := offset + |chunks[i]|;
      i := i + 1;
    }
    r := Ok(Unit);
  }

  lemma {:induction false} PutOne(nodes: Tree, path: string, offset: nat, chunks: seq<seq<Byte>>, i: nat)
    requires i < |chunks|
    ensures var w := WriteStep(nodes, path, offset, chunks[i]);
            PutChunks(nodes, path, offset, chunks[i..]) ==
            if w.result.Err? then Outcome(w.nodes, Err(w.result.error))
            else PutChunks(w.nodes, path, offset + |chunks[i]|, chunks[i + 1..])
  {
    assert chunks[i..][0] == chunks[i] && chunks[i..][1..] == chunks[i + 1..];
  }

  lemma {:induction false} WriteAtEnd(data: seq<Byte>, chunk: seq<Byte>)
    ensures WriteBytes(data, |data|, chunk) == data + chunk
  {
    WriteBytesAt(data, |data|, chunk);
  }

  method RunCat(backend: MemoryBackend, text: string) returns (r: Result<seq<Byte>, VfsError>)
    modifies backend
    ensures backend.nodes == old(backend.nodes)
    ensures r == CatStep(backend.nodes, text)
  {
    var parsed := New(text);
    if parsed.None? {
      return Err(InvalidPath(text));
    }
    var path := parsed.value;
    var opened_ := backend.Open(path, CAT_FLAGS);
    if opened_.Err? {
      return Err(opened_.error);
    }
    r := CopyOut(opened_.value);
  }

  /** The read loop of `cat`. */
  method CopyOut(handle: MemoryHandle) returns (r: Result<seq<Byte>, VfsError>)
    ensures r == CatFrom(handle.backend.nodes, handle.path, 0)
  {
    ghost var nodes, path := handle.backend.nodes, handle.path;
    var offset: nat := 0;
    var out: seq<Byte> := [];
    PrefixNothing(CatFrom(nodes, path, 0));
    while true
      invariant CatFrom(nodes, path, 0) == Prefixed(out, CatFrom(nodes, path, offset))
      decreases if path in nodes && offset < |nodes[path].data| then |nodes[path].data| - offset else 0
    {
      var chunk := handle.Read(offset, BUFFER);
      if chunk.Err? {
        return Err(chunk.error);
      }
      if chunk.value == [] {
        break;
      }
      offset := offset + |chunk.value|;
      PrefixMore(out, chunk.value, CatFrom(nodes, path, offset));
      out := out + chunk.value;
    }
    r := Ok(out);
  }

  /** A result with the output printed so far in front of it. */
  ghost function Prefixed(out: seq<Byte>, r: Result<seq<Byte>, VfsError>): Result<seq<Byte>, VfsError>
  {
    match r
    case Err(e) => Err(e)
    case Ok(rest) => Ok(out + rest)
  }

  lemma {:induction false} PrefixNothing(r: Result<seq<Byte>, VfsError>)
    ensures Prefixed([], r) == r
    ensures forall out :: Prefixed(out, Ok([])) == Ok(out)
  {
    assert r.Ok? ==> [] + r.value == r.value;
    forall out: seq<Byte>
      ensures Prefixed(out, Ok([])) == Ok(out)
    {
      assert out + [] == out;
    }
  }

  lemma {:induction false} PrefixMore(out: seq<Byte>, chunk: seq<Byte>, r: Result<seq<Byte>, VfsError>)
    ensures Prefixed(out, Prefixed(chunk, r)) == Prefixed(out + chunk, r)
  {
    if r.Ok? {
      assert out + (chunk + r.value) == (out + chunk) + r.value;
    }
  }

  /** Writing each chunk at the running offset appends it. */
  lemma {:induction false} PutAppends(nodes: Tree, path: string, chunks: seq<seq<Byte>>)
    requires path in nodes && nodes[path].kind == File
    ensures PutChunks(nodes, path, |nodes[path].data|, chunks) ==
            Outcome(nodes[path := Node(File, nodes[path].data + Flatten(chunks))], Ok(Unit))
    decreases |chunks|
  {
    var data := nodes[path].data;
    if chunks == [] {
      assert data + Flatten(chunks) == data;
      assert nodes[path := Node(File, data)] == nodes;
    } else {
      var longer := data + chunks[0];
      WriteAtEnd(data, chunks[0]);
      var next := nodes[path := Node(File, longer)];
      PutAppends(next, path, chunks[1..]);
      assert chunks == [chunks[0]] + chunks[1..];
      FlattenConcat([chunks[0]], chunks[1..]);
      assert Front([chunks[0]]) == [] && Flatten([chunks[0]]) == chunks[0];
      assert longer + Flatten(chunks[1..]) == data + Flatten(chunks);
      assert next[path := Node(File, data + Flatten(chunks))] == nodes[path := Node(File, data + Flatten(chunks))];
    }
  }

  /** Reading in buffer-sized pieces from `offset` returns the rest of the file. */
  lemma {:induction false} CatReadsRest(nodes: Tree, path: string, offset: nat)
    requires path in nodes && nodes[path].kind == File && offset <= |nodes[path].data|
    ensures CatFrom(nodes, path, offset) == Ok(nodes[path].data[offset..])
    decreases |nodes[path].data| - offset
  {
    var data := nodes[path].data;
    if offset < |data| {
      var chunk := ReadBytes(data, offset, BUFFER);
      assert 0 < |chunk| && offset + |chunk| <= |data| && chunk == data[offset..offset + |chunk|];
      CatReadsRest(nodes, path, offset + |chunk|);
      assert chunk + data[offset + |chunk|..] == data[offset..];
    } else {
      assert data[offset..] == [];
    }
  }

  /**
   * Whatever was stored before and however the input is chunked, `put` replaces the file by
   * the whole input, and `cat` of the same path then prints exactly that input.
   */
  lemma {:induction false} PutThenCat(nodes: Tree, text: string, chunks: seq<seq<Byte>>)
    requires Normalize(text).Some? && OpenStep(nodes, Normalize(text).value, PUT_FLAGS).result.Ok?
    ensures PutStep(nodes, text, chunks) ==
            Outcome(nodes[Normalize(text).value := Node(File, Flatten(chunks))], Ok(Unit))
    ensures CatStep(PutStep(nodes, text, chunks).nodes, text) == Ok(Flatten(chunks))
  {
    var path := Normalize(text).value;
    var opened_ := OpenStep(nodes, path, PUT_FLAGS).nodes;
    assert opened_ == nodes[path := EMPTY_FILE];
    PutAppends(opened_, path, chunks);
    assert [] + Flatten(chunks) == Flatten(chunks);
    var done := PutStep(nodes, text, chunks).nodes;
    assert done == nodes[path := Node(File, Flatten(chunks))];
    CatReadsRest(done, path, 0);
    assert Flatten(chunks)[0..] == Flatten(chunks);
  }

  /** A put that cannot open its file, or whose path is invalid, changes nothing. */
  lemma {:induction false} PutFailsCleanly(nodes: Tree, text: string, chunks: seq<seq<Byte>>)
    ensures PutStep(nodes, text, chunks).result.Err? <==>
            Normalize(text).None? || OpenStep(nodes, Normalize(text).value, PUT_FLAGS).result.Err?
    ensures PutStep(nodes, text, chunks).result.Err? ==> PutStep(nodes, text, chunks).nodes == nodes
  {
    if Normalize(text).Some? && OpenStep(nodes, Normalize(text).value, PUT_FLAGS).result.Ok? {
      PutThenCat(nodes, text, chunks);
    }
  }

  /** `cat` prints the whole content exactly when the text names a file; otherwise it says what it found. */
  lemma {:induction false} CatIff(nodes: Tree, text: string)
    requires WellFormed(nodes)
    ensures CatStep(nodes, text).Ok? <==> Normalize(text).Some? && IsFile(nodes, Normalize(text).value)
    ensures CatStep(nodes, text).Ok? ==> CatStep(nodes, text) == Ok(nodes[Normalize(text).value].data)
    ensures Normalize(text).None? ==> CatStep(nodes, text) == Err(InvalidPath(text))
    ensures Normalize(text).Some? && Normalize(text).value !in nodes ==>
              CatStep(nodes, text) == Err(NotFound(Normalize(text).value))
    ensures Normalize(text).Some? && IsDirectory(nodes, Normalize(text).value) ==>
              CatStep(nodes, text) == Err(KindMismatch(Normalize(text).value, File, Directory))
  {
    if Normalize(text).Some? && IsFile(nodes, Normalize(text).value) {
      CatReadsRest(nodes, Normalize(text).value, 0);
      assert nodes[Normalize(text).value].data[0..] == nodes[Normalize(text).value].data;
    }
  }

  /** `put` succeeds exactly when the text names a file or a free place below a directory. */
  lemma {:induction false} PutIff(nodes: Tree, text: string, chunks: seq<seq<Byte>>)
    requires WellFormed(nodes)
    ensures PutStep(nodes, text, chunks).result.Ok? <==>
            && Normalize(text).Some?
            && (IsFile(nodes, Normalize(text).value) ||
                (Normalize(text).value !in nodes && HasDirectoryParent(nodes, Normalize(text).value)))
    ensures Normalize(text).None? ==> PutStep(nodes, text, chunks).result == Err(InvalidPath(text))
  {
    PutFailsCleanly(nodes, text, chunks);
    if Normalize(text).Some? {
      NormalizeLaws(text);
      OpenIff(nodes, Normalize(text).value, PUT_FLAGS);
    }
  }
}
