/**
 * `VfsEventSink` (crates/diaspor-events/src/sink.rs) on top of the in-memory backend: the
 * sidecar files under `.streams` are a keyed store of the last payload per key.
 */
module EventSink {
  import opened Common
  import opened VfsPaths
  import opened MemoryFs

  datatype EventKind = Windows | Events

  /** What identifies a sidecar file. */
  datatype Key = Key(stream: string, kind: EventKind, time: nat)

  datatype Event =
    | Window(streamId: string, tStartMs: nat, payload: seq<Byte>)
    | Threshold(streamId: string, timestampMs: nat, payload: seq<Byte>)

  function KeyOf(event: Event): Key
  {
    match event
    case Window(stream, t, _) => Key(stream, Windows, t)
    case Threshold(stream, t, _) => Key(stream, Events, t)
  }

  // ---------------------------------------------------------------- file names

  function Decimal(n: nat): (s: string)
    ensures s != "" && forall i :: 0 <= i < |s| ==> '0' <= s[i] <= '9'
  {
    var digit := ['0' + (n % 10) as char];
    if n < 10 then digit else Decimal(n / 10) + digit
  }

  function DecimalValue(s: string): int
  {
    if s == "" then 0 else 10 * DecimalValue(Front(s)) + (Last(s) as int - '0' as int)
  }

  /** Reading a printed time gives it back, so distinct times print differently. */
  lemma {:induction false} DecimalRoundTrip(n: nat)
    ensures DecimalValue(Decimal(n)) == n
  {
    var digit := '0' + (n % 10) as char;
    if n < 10 {
      assert Front([digit]) == "";
    } else {
      DecimalRoundTrip(n / 10);
      assert Front(Decimal(n)) == Decimal(n / 10) && Last(Decimal(n)) == digit;
    }
  }

  function KindDir(kind: EventKind): string
  {
    match kind case Windows => "windows" case Events => "events"
  }

  function Suffix(kind: EventKind): string
  {
    match kind case Windows => ".score.json" case Events => ".event.json"
  }

  function FileName(kind: EventKind, time: nat): string { Decimal(time) + Suffix(kind) }

  function StreamsRoot(root: string): string { Join(root, ".streams") }

  function SessionDir(root: string, stream: string): string { Join(StreamsRoot(root), stream) }

  function KindPath(root: string, stream: string, kind: EventKind): string { Join(SessionDir(root, stream), KindDir(kind)) }

  function SidecarPath(root: string, key: Key): string
  {
    Join(KindPath(root, key.stream, key.kind), FileName(key.kind, key.time))
  }

  // ---------------------------------------------------------------- the sink's steps

  function EnsureDirStep(nodes: Tree, path: string): Outcome<Unit>
  {
    var o := CreateDirStep(nodes, path);
    if o.result.Err? && o.result.error.AlreadyExists? then Outcome(o.nodes, Ok(Unit)) else o
  }

  /** The three `ensure_dir` calls, each abandoning the emit when it fails. */
  function EnsureThree(nodes: Tree, d1: string, d2: string, d3: string): Outcome<Unit>
  {
    var a := EnsureDirStep(nodes, d1);
    if a.result.Err? then a else
    var b := EnsureDirStep(a.nodes, d2);
    if b.result.Err? then b else EnsureDirStep(b.nodes, d3)
  }

  function PrepareStep(nodes: Tree, rootText: string, key: Key): Outcome<string>
  {
    match Normalize(rootText)
    case None => Outcome(nodes, Err(InvalidPath(rootText)))
    case Some(root) =>
      var o := EnsureThree(nodes, StreamsRoot(root), SessionDir(root, key.stream), KindPath(root, key.stream, key.kind));
      match o.result
      case Err(e) => Outcome(o.nodes, Err(e))
      case Ok(_) => Outcome(o.nodes, Ok(SidecarPath(root, key)))
  }

  const SINK_FLAGS := Flags(true, false, true)

  /** Open with create and truncate, then write the payload at offset zero. */
  function ReplaceFile(nodes: Tree, path: string, payload: seq<Byte>): Outcome<Unit>
  {
    var o := OpenStep(nodes, path, SINK_FLAGS);
    if o.result.Err? then o else
    var w := WriteStep(o.nodes, path, 0, payload);
    if w.result.Err? then Outcome(w.nodes, Err(w.result.error)) else Outcome(w.nodes, Ok(Unit))
  }

  function EmitStep(nodes: Tree, rootText: string, event: Event): Outcome<Unit>
  {
    var p := PrepareStep(nodes, rootText, KeyOf(event));
    match p.result
    case Err(e) => Outcome(p.nodes, Err(e))
    case Ok(path) => ReplaceFile(p.nodes, path, event.payload)
  }

  /** An emit whose root text is valid, in terms of the four paths it touches. */
  lemma {:induction false} EmitStepUnfolds(nodes: Tree, rootText: string, root: string, event: Event, made: Tree)
    requires Normalize(rootText) == Some(root)
    requires var key := KeyOf(event);
             EnsureThree(nodes, StreamsRoot(root), SessionDir(root, key.stream), KindPath(root, key.stream, key.kind)) ==
             Outcome(made, Ok(Unit))
    ensures EmitStep(nodes, rootText, event) == ReplaceFile(made, SidecarPath(root, KeyOf(event)), event.payload)
  {
    assert PrepareStep(nodes, rootText, KeyOf(event)) == Outcome(made, Ok(SidecarPath(root, KeyOf(event))));
  }

  class VfsEventSink {
    const vfs: MemoryBackend
    const rootPath: string

    constructor (vfs: MemoryBackend, rootPath: string)
      ensures this.vfs == vfs && this.rootPath == rootPath
    {
      this.vfs := vfs;
      this.rootPath := rootPath;
    }

    method EnsureDir(path: string) returns (r: Result<Unit, VfsError>)
      modifies vfs
      ensures Outcome(vfs.nodes, r) == EnsureDirStep(old(vfs.nodes), path)
    {
      r := vfs.CreateDir(path);
      if r.Err? && r.error.AlreadyExists? {
        r := Ok(Unit);
      }
    }

    method PreparePath(key: Key) returns (r: Result<string, VfsError>)
      modifies vfs
      ensures Outcome(vfs.nodes, r) == PrepareStep(old(vfs.nodes), rootPath, key)
    {
      var root := New(rootPath);
      if root.None? {
        return Err(InvalidPath(rootPath));
      }
      var streamsRoot := Join(root.value, ".streams");
      var a := EnsureDir(streamsRoot);
      if a.Err? {
        return Err(a.error);
      }
      var sessionRoot := Join(streamsRoot, key.stream);
      var b := EnsureDir(sessionRoot);
      if b.Err? {
        return Err(b.error);
      }
      var kindPath := Join(sessionRoot, KindDir(key.kind));
      var c := EnsureDir(kindPath);
      if c.Err? {
        return Err(c.error);
      }
      r := Ok(Join(kindPath, FileName(key.kind, key.time)));
    }

    method Emit(event: Event) returns (r: Result<Unit, VfsError>)
      modifies vfs
      ensures Outcome(vfs.nodes, r) == EmitStep(old(vfs.nodes), rootPath, event)
    {
      var path := PreparePath(KeyOf(event));
      if path.Err? {
        return Err(path.error);
      }
      var handle := vfs.Open(path.value, SINK_FLAGS);
      if handle.Err? {
        return Err(handle.error);
      }
      var written := handle.value.Write(0, event.payload);
      if written.Err? {
        return Err(written.error);
      }
      r := Ok(Unit);
    }
  }

  // ---------------------------------------------------------------- paths as segments

  // The segments of the sink's three directories and of its file, below those of the root.

  function StreamsSegments(base: seq<string>): seq<string> { base + [".streams"] }

  function SessionSegments(base: seq<string>, stream: string): seq<string> { StreamsSegments(base) + [stream] }

  function KindSegments(base: seq<string>, stream: string, kind: EventKind): seq<string>
  {
    SessionSegments(base, stream) + [KindDir(kind)]
  }

  function FileSegments(base: seq<string>, key: Key): seq<string>
  {
    KindSegments(base, key.stream, key.kind) + [FileName(key.kind, key.time)]
  }

  lemma {:induction false} FileNamePlain(kind: EventKind, time: nat)
    ensures Plain(FileName(kind, time)) && Plain(KindDir(kind)) && Plain(".streams")
  {
    var name := FileName(kind, time);
    forall i | 0 <= i < |name|
      ensures !IsSeparator(name[i]) && name[i] != '\0'
    {
      if i < |Decimal(time)| {
        assert name[i] == Decimal(time)[i];
      } else {
        assert name[i] == Suffix(kind)[i - |Decimal(time)|];
      }
    }
  }

  lemma {:induction false} PlainSnoc(segments: seq<string>, segment: string)
    requires PlainAll(segments) && Plain(segment)
    ensures PlainAll(segments + [segment])
  {
  }

  /** The four joins of `prepare_path` append four segments to those of the root. */
  lemma {:induction false} SidecarSegments(base: seq<string>, key: Key)
    requires PlainAll(base) && Plain(key.stream)
    ensures PlainAll(StreamsSegments(base)) && StreamsRoot(Render(base)) == Render(StreamsSegments(base))
    ensures PlainAll(SessionSegments(base, key.stream))
    ensures SessionDir(Render(base), key.stream) == Render(SessionSegments(base, key.stream))
    ensures PlainAll(KindSegments(base, key.stream, key.kind))
    ensures KindPath(Render(base), key.stream, key.kind) == Render(KindSegments(base, key.stream, key.kind))
    ensures PlainAll(FileSegments(base, key)) && SidecarPath(Render(base), key) == Render(FileSegments(base, key))
  {
    var name := FileName(key.kind, key.time);
    FileNamePlain(key.kind, key.time);
    var s1, s2, s3 := StreamsSegments(base), SessionSegments(base, key.stream), KindSegments(base, key.stream, key.kind);
    PlainSnoc(base, ".streams");
    PlainSnoc(s1, key.stream);
    PlainSnoc(s2, KindDir(key.kind));
    PlainSnoc(s3, name);
    JoinAppends(base, ".streams");
    JoinAppends(s1, key.stream);
    JoinAppends(s2, KindDir(key.kind));
    JoinAppends(s3, name);
  }

  /** What joining a segment adds: nothing for one made of slashes only. */
  function Below(segment: string): string
  {
    if TrimSlashes(segment) == "" then "" else "/" + TrimSlashes(segment)
  }

  lemma {:induction false} JoinSpelled(p: string, segment: string)
    ensures Plain(segment) ==> Join(p, segment) == (if p == ROOT then "" else p) + "/" + segment && |Join(p, segment)| > 1
    ensures Plain(segment) ==> Below(segment) == "/" + segment
    ensures p != ROOT ==> Join(p, segment) == p + Below(segment)
  {
    if Plain(segment) {
      TrimPlain(segment);
    }
    assert p + ("/" + TrimSlashes(segment)) == p + "/" + TrimSlashes(segment);
  }

  /** The documented layout, spelled out for both kinds; outer slashes of a stream id disappear. */
  lemma {:induction false} DocumentedLayout(root: string, stream: string, kind: EventKind, time: nat)
    ensures SidecarPath(root, Key(stream, kind, time)) ==
            (if root == ROOT then "" else root) + "/" + ".streams" + Below(stream) + "/" +
            (if kind == Windows then "windows" else "events") + "/" +
            (Decimal(time) + (if kind == Windows then ".score.json" else ".event.json"))
    ensures Plain(stream) ==> Below(stream) == "/" + stream
  {
    FileNamePlain(kind, time);
    JoinSpelled(root, ".streams");
    assert |StreamsRoot(root)| > 1;
    JoinSpelled(StreamsRoot(root), stream);
    assert |SessionDir(root, stream)| > 1;
    JoinSpelled(SessionDir(root, stream), KindDir(kind));
    JoinSpelled(KindPath(root, stream, kind), FileName(kind, time));
  }

  lemma {:induction false} BelowInjective(a: string, x: string, y: string)
    requires a + Below(x) == a + Below(y)
    ensures TrimSlashes(x) == TrimSlashes(y)
  {
    assert Below(x) == (a + Below(x))[|a|..] && Below(y) == (a + Below(y))[|a|..];
    assert TrimSlashes(x) == if Below(x) == "" then "" else Below(x)[1..];
    assert TrimSlashes(y) == if Below(y) == "" then "" else Below(y)[1..];
  }

  /**
   * Exactly which keys share a file, for every root and every pair of stream ids: those of one
   * kind and time whose ids differ in outer slashes only.
   */
  lemma {:induction false} SharedFileIff(root: string, k: Key, other: Key)
    ensures SidecarPath(root, k) == SidecarPath(root, other) <==>
            k.kind == other.kind && k.time == other.time && TrimSlashes(k.stream) == TrimSlashes(other.stream)
  {
    DocumentedLayout(root, k.stream, k.kind, k.time);
    DocumentedLayout(root, other.stream, other.kind, other.time);
    if SidecarPath(root, k) == SidecarPath(root, other) {
      var top := (if root == ROOT then "" else root) + "/" + ".streams";
      var a, b := top + Below(k.stream), top + Below(other.stream);
      FileNamePlain(k.kind, k.time);
      FileNamePlain(other.kind, other.time);
      CutAtLastUnique(a + "/" + KindDir(k.kind), FileName(k.kind, k.time),
                      b + "/" + KindDir(other.kind), FileName(other.kind, other.time), '/');
      CutAtLastUnique(a, KindDir(k.kind), b, KindDir(other.kind), '/');
      assert k.kind == other.kind by { assert "windows"[0] != "events"[0]; }
      FileNameInjective(k.kind, k.time, other.time);
      BelowInjective(top, k.stream, other.stream);
    }
  }

  /** So every stream id shares all its files with another id. */
  lemma {:induction false} SlashedIdsShareFiles(root: string, k: Key)
    ensures var slashed := k.(stream := "/" + k.stream);
            slashed != k && SidecarPath(root, slashed) == SidecarPath(root, k)
  {
    var slashed := "/" + k.stream;
    assert |slashed| > |k.stream| && slashed[1..] == k.stream;
    SharedFileIff(root, k.(stream := slashed), k);
  }

  lemma {:induction false} RenderInjective(a: seq<string>, b: seq<string>)
    requires PlainAll(a) && PlainAll(b) && Render(a) == Render(b)
    ensures a == b
  {
    SegmentsOfRender(a);
    SegmentsOfRender(b);
  }

  lemma {:induction false} FileNameInjective(kind: EventKind, time: nat, other: nat)
    requires FileName(kind, time) == FileName(kind, other)
    ensures time == other
  {
    var a, b, suffix := Decimal(time), Decimal(other), Suffix(kind);
    assert a == (a + suffix)[..|a + suffix| - |suffix|] && b == (b + suffix)[..|b + suffix| - |suffix|];
    DecimalRoundTrip(time);
    DecimalRoundTrip(other);
  }

  lemma {:induction false} DifferentDepth(a: seq<string>, b: seq<string>)
    requires PlainAll(a) && PlainAll(b) && |a| != |b|
    ensures Render(a) != Render(b)
  {
    if Render(a) == Render(b) {
      RenderInjective(a, b);
    }
  }

  /** With plain ids distinct keys never share a path, and no sidecar file path is one of the directories. */
  lemma {:induction false} PathsDistinct(root: string, k: Key, other: Key)
    requires Canonical(root) && Plain(k.stream) && Plain(other.stream)
    ensures SidecarPath(root, k) == SidecarPath(root, other) ==> k == other
    ensures SidecarPath(root, k) != StreamsRoot(root)
    ensures SidecarPath(root, k) != SessionDir(root, other.stream)
    ensures SidecarPath(root, k) != KindPath(root, other.stream, other.kind)
  {
    CanonicalSegments(root);
    FileIsNoDirectory(Segments(root), k, other);
    SharedFileIff(root, k, other);
    TrimPlain(k.stream);
    TrimPlain(other.stream);
  }

  lemma {:induction false} FileIsNoDirectory(base: seq<string>, k: Key, other: Key)
    requires PlainAll(base) && Plain(k.stream) && Plain(other.stream)
    ensures SidecarPath(Render(base), k) != StreamsRoot(Render(base))
    ensures SidecarPath(Render(base), k) != SessionDir(Render(base), other.stream)
    ensures SidecarPath(Render(base), k) != KindPath(Render(base), other.stream, other.kind)
  {
    SidecarSegments(base, k);
    SidecarSegments(base, other);
    var file := FileSegments(base, k);
    DifferentDepth(file, StreamsSegments(base));
    DifferentDepth(file, SessionSegments(base, other.stream));
    DifferentDepth(file, KindSegments(base, other.stream, other.kind));
  }

  lemma {:induction false} SidecarParents(root: string, key: Key)
    requires Canonical(root) && Plain(key.stream)
    ensures Canonical(StreamsRoot(root)) && Parent(StreamsRoot(root)) == Some(root)
    ensures Parent(SessionDir(root, key.stream)) == Some(StreamsRoot(root))
    ensures Parent(KindPath(root, key.stream, key.kind)) == Some(SessionDir(root, key.stream))
    ensures Parent(SidecarPath(root, key)) == Some(KindPath(root, key.stream, key.kind))
  {
    FileNamePlain(key.kind, key.time);
    JoinThenParent(root, ".streams");
    JoinThenParent(StreamsRoot(root), key.stream);
    JoinThenParent(SessionDir(root, key.stream), KindDir(key.kind));
    JoinThenParent(KindPath(root, key.stream, key.kind), FileName(key.kind, key.time));
  }

  // ---------------------------------------------------------------- the keyed store

  type Store = map<Key, seq<Byte>>

  /** Where the directories and the file of a key live. */
  datatype Layout = Layout(dirs: Key -> set<string>, file: Key -> string)

  function LayoutAt(root: string): Layout
  {
    Layout(
      (k: Key) => {StreamsRoot(root), SessionDir(root, k.stream), KindPath(root, k.stream, k.kind)},
      (k: Key) => SidecarPath(root, k))
  }

  function Dirs(layout: Layout, keys: set<Key>): set<string>
  {
    set k, d | k in keys && d in layout.dirs(k) :: d
  }

  function Files(layout: Layout, keys: set<Key>): set<string>
  {
    set k | k in keys :: layout.file(k)
  }

  predicate Keeps(nodes: Tree, base: Tree)
  {
    forall p :: p in base ==> p in nodes && nodes[p] == base[p]
  }

  predicate EmptyDirs(nodes: Tree, dirs: set<string>)
  {
    forall p :: p in dirs ==> p in nodes && nodes[p] == EMPTY_DIR
  }

  predicate HoldsFiles(nodes: Tree, layout: Layout, store: Store)
  {
    forall k :: k in store ==> layout.file(k) in nodes && nodes[layout.file(k)] == Node(File, store[k])
  }

  /** `nodes` is `base` plus exactly the directories and files that `store` calls for. */
  predicate Mirrors(nodes: Tree, base: Tree, layout: Layout, store: Store)
  {
    && nodes.Keys == base.Keys + Dirs(layout, store.Keys) + Files(layout, store.Keys)
    && Keeps(nodes, base)
    && EmptyDirs(nodes, Dirs(layout, store.Keys))
    && HoldsFiles(nodes, layout, store)
  }

  /** The places of these keys are new to `base` and do not clash with each other. */
  predicate Separated(layout: Layout, base: Tree, keys: set<Key>)
  {
    && (forall k :: k in keys ==> layout.file(k) !in base && layout.dirs(k) !! base.Keys)
    && (forall k, j :: k in keys && j in keys ==> layout.file(k) !in layout.dirs(j))
    && (forall k, j :: k in keys && j in keys && layout.file(k) == layout.file(j) ==> k == j)
  }

  /** One emit, seen as an update of the node map. */
  function AfterEmit(nodes: Tree, layout: Layout, key: Key, payload: seq<Byte>): Tree
  {
    WithDirs(nodes, layout.dirs(key))[layout.file(key) := Node(File, payload)]
  }

  function WithDirs(nodes: Tree, dirs: set<string>): Tree
  {
    nodes + map d | d in dirs :: EMPTY_DIR
  }

  /** The parts of `Mirrors` after an emit, over arbitrary sets of places. */
  lemma {:induction false} AfterEmitParts(
    nodes: Tree, base: Tree, layout: Layout, store: Store, key: Key, payload: seq<Byte>, dirs: set<string>)
    requires Keeps(nodes, base) && EmptyDirs(nodes, dirs) && HoldsFiles(nodes, layout, store)
    requires layout.dirs(key) !! base.Keys && layout.file(key) !in base
    requires layout.file(key) !in dirs + layout.dirs(key)
    requires forall k :: k in store ==> layout.file(k) !in layout.dirs(key)
    requires forall k :: k in store && layout.file(k) == layout.file(key) ==> k == key
    ensures Keeps(AfterEmit(nodes, layout, key, payload), base)
    ensures EmptyDirs(AfterEmit(nodes, layout, key, payload), dirs + layout.dirs(key))
    ensures HoldsFiles(AfterEmit(nodes, layout, key, payload), layout, store[key := payload])
  {
  }

  lemma {:induction false} AfterEmitKeys(
    nodes: Tree, layout: Layout, key: Key, payload: seq<Byte>, base: set<string>, dirs: set<string>, files: set<string>)
    requires nodes.Keys == base + dirs + files
    ensures AfterEmit(nodes, layout, key, payload).Keys ==
            base + (dirs + layout.dirs(key)) + (files + {layout.file(key)})
  {
  }

  lemma {:induction false} PlacesGrow(layout: Layout, keys: set<Key>, key: Key)
    ensures Dirs(layout, keys + {key}) == Dirs(layout, keys) + layout.dirs(key)
    ensures Files(layout, keys + {key}) == Files(layout, keys) + {layout.file(key)}
  {
    forall d | d in layout.dirs(key)
      ensures d in Dirs(layout, keys + {key})
    {
      assert key in keys + {key};
    }
    forall d | d in Dirs(layout, keys)
      ensures d in Dirs(layout, keys + {key})
    {
      var k :| k in keys && d in layout.dirs(k);
      assert k in keys + {key};
    }
  }

  /** Adding the key's directories and replacing its file is one map update, whatever was stored before. */
  lemma {:induction false} UpdateMirrors(
    nodes: Tree, base: Tree, layout: Layout, store: Store, key: Key, payload: seq<Byte>)
    requires Separated(layout, base, store.Keys + {key}) && Mirrors(nodes, base, layout, store)
    ensures Mirrors(AfterEmit(nodes, layout, key, payload), base, layout, store[key := payload])
  {
    var keys := store.Keys + {key};
    assert store[key := payload].Keys == keys && key in keys;
    PlacesGrow(layout, store.Keys, key);
    AfterEmitKeys(nodes, layout, key, payload, base.Keys, Dirs(layout, store.Keys), Files(layout, store.Keys));
    assert layout.file(key) !in Dirs(layout, store.Keys);
    AfterEmitParts(nodes, base, layout, store, key, payload, Dirs(layout, store.Keys));
  }

  /** In a mirrored state the key's directories are missing or empty directories, its file missing or a file. */
  lemma {:induction false} NothingInTheWay(nodes: Tree, base: Tree, layout: Layout, store: Store, key: Key)
    requires Separated(layout, base, store.Keys + {key}) && Mirrors(nodes, base, layout, store)
    ensures forall d :: d in layout.dirs(key) && d in nodes ==> nodes[d] == EMPTY_DIR
    ensures layout.file(key) in nodes ==> nodes[layout.file(key)].kind == File
    ensures layout.file(key) !in layout.dirs(key)
  {
    assert layout.file(key) in nodes ==> layout.file(key) in Files(layout, store.Keys);
  }

  lemma {:induction false} EnsureDirWorks(nodes: Tree, path: string, parent: string)
    requires Parent(path) == Some(parent) && parent in nodes && nodes[parent].kind == Directory
    requires path in nodes ==> nodes[path] == EMPTY_DIR
    ensures EnsureDirStep(nodes, path) == Outcome(nodes[path := EMPTY_DIR], Ok(Unit))
  {
    if path in nodes {
      assert nodes[path := EMPTY_DIR] == nodes;
    }
  }

  lemma {:induction false} EnsureThreeWorks(nodes: Tree, root: string, d1: string, d2: string, d3: string)
    requires root in nodes && nodes[root].kind == Directory
    requires Parent(d1) == Some(root) && Parent(d2) == Some(d1) && Parent(d3) == Some(d2)
    requires forall d :: d in {d1, d2, d3} && d in nodes ==> nodes[d] == EMPTY_DIR
    ensures EnsureThree(nodes, d1, d2, d3) ==
            Outcome(nodes[d1 := EMPTY_DIR][d2 := EMPTY_DIR][d3 := EMPTY_DIR], Ok(Unit))
  {
    EnsureDirWorks(nodes, d1, root);
    EnsureDirWorks(nodes[d1 := EMPTY_DIR], d2, d1);
    EnsureDirWorks(nodes[d1 := EMPTY_DIR][d2 := EMPTY_DIR], d3, d2);
  }

  lemma {:induction false} ReplaceFileWorks(nodes: Tree, path: string, parent: string, payload: seq<Byte>)
    requires Parent(path) == Some(parent) && parent in nodes && nodes[parent].kind == Directory
    requires path in nodes ==> nodes[path].kind == File
    ensures ReplaceFile(nodes, path, payload) == Outcome(nodes[path := Node(File, payload)], Ok(Unit))
  {
    var opened_ := nodes[path := EMPTY_FILE];
    assert OpenStep(nodes, path, SINK_FLAGS) == Outcome(opened_, Ok(Unit));
    WriteBytesAt([], 0, payload);
    assert WriteBytes([], 0, payload) == payload;
    assert opened_[path := Node(File, payload)] == nodes[path := Node(File, payload)];
  }

  /** A backend in which the sink's root is a directory without a `.streams` entry yet. */
  predicate Unused(base: Tree, root: string)
  {
    && WellFormed(base) && Canonical(root)
    && root in base && base[root].kind == Directory
    && StreamsRoot(root) !in base
  }

  predicate PlainKeys(keys: set<Key>)
  {
    forall k :: k in keys ==> Plain(k.stream)
  }

  lemma {:induction false} SidecarsNotInBase(base: Tree, root: string, key: Key)
    requires Unused(base, root) && Plain(key.stream)
    ensures SessionDir(root, key.stream) !in base
    ensures KindPath(root, key.stream, key.kind) !in base
    ensures SidecarPath(root, key) !in base
  {
    SidecarParents(root, key);
    forall p | p in base && p != ROOT
      ensures Parent(p).Some? && Parent(p).value in base
    {
      assert HasDirectoryParent(base, p);
    }
  }

  lemma {:induction false} PlacesNew(base: Tree, root: string, k: Key)
    requires Unused(base, root) && Plain(k.stream)
    ensures LayoutAt(root).file(k) !in base && LayoutAt(root).dirs(k) !! base.Keys
  {
    SidecarsNotInBase(base, root, k);
  }

  lemma {:induction false} PlacesApart(root: string, k: Key, j: Key)
    requires Canonical(root) && Plain(k.stream) && Plain(j.stream)
    ensures LayoutAt(root).file(k) !in LayoutAt(root).dirs(j)
    ensures LayoutAt(root).file(k) == LayoutAt(root).file(j) ==> k == j
  {
    PathsDistinct(root, k, j);
  }

  lemma {:induction false} LayoutSeparated(base: Tree, root: string, keys: set<Key>)
    requires Unused(base, root) && PlainKeys(keys)
    ensures Separated(LayoutAt(root), base, keys)
  {
    forall k | k in keys
      ensures LayoutAt(root).file(k) !in base && LayoutAt(root).dirs(k) !! base.Keys
    {
      PlacesNew(base, root, k);
    }
    forall k, j | k in keys && j in keys
      ensures LayoutAt(root).file(k) !in LayoutAt(root).dirs(j)
      ensures LayoutAt(root).file(k) == LayoutAt(root).file(j) ==> k == j
    {
      PlacesApart(root, k, j);
    }
  }

  /** The three directories and the file, named; `made` is the map after the directories exist. */
  lemma {:induction false} EmitPathsWork(
    nodes: Tree, root: string, d1: string, d2: string, d3: string, f: string, payload: seq<Byte>)
    requires root in nodes && nodes[root].kind == Directory
    requires Parent(d1) == Some(root) && Parent(d2) == Some(d1) && Parent(d3) == Some(d2) && Parent(f) == Some(d3)
    requires forall d :: d in {d1, d2, d3} && d in nodes ==> nodes[d] == EMPTY_DIR
    requires f in nodes ==> nodes[f].kind == File
    requires f !in {d1, d2, d3}
    ensures var made := WithDirs(nodes, {d1, d2, d3});
            && EnsureThree(nodes, d1, d2, d3) == Outcome(made, Ok(Unit))
            && ReplaceFile(made, f, payload) == Outcome(made[f := Node(File, payload)], Ok(Unit))
  {
    var made := WithDirs(nodes, {d1, d2, d3});
    EnsureThreeWorks(nodes, root, d1, d2, d3);
    assert made == nodes[d1 := EMPTY_DIR][d2 := EMPTY_DIR][d3 := EMPTY_DIR];
    ReplaceFileWorks(made, f, d3, payload);
  }

  lemma {:induction false} EmitWorks(nodes: Tree, base: Tree, rootText: string, root: string, store: Store, event: Event)
    requires Normalize(rootText) == Some(root) && Unused(base, root)
    requires PlainKeys(store.Keys) && Plain(event.streamId)
    requires Mirrors(nodes, base, LayoutAt(root), store)
    ensures EmitStep(nodes, rootText, event) ==
            Outcome(AfterEmit(nodes, LayoutAt(root), KeyOf(event), event.payload), Ok(Unit))
  {
    var key := KeyOf(event);
    var layout := LayoutAt(root);
    var d1, d2, d3 := StreamsRoot(root), SessionDir(root, key.stream), KindPath(root, key.stream, key.kind);
    var f := SidecarPath(root, key);
    assert layout.dirs(key) == {d1, d2, d3} && layout.file(key) == f;
    LayoutSeparated(base, root, store.Keys + {key});
    NothingInTheWay(nodes, base, layout, store, key);
    SidecarParents(root, key);
    EmitPathsWork(nodes, root, d1, d2, d3, f, event.payload);
    EmitStepUnfolds(nodes, rootText, root, event, WithDirs(nodes, {d1, d2, d3}));
  }

  /** One emit succeeds and refines one map update, whatever was stored under the key before. */
  lemma {:induction false} EmitRefinesUpdate(nodes: Tree, base: Tree, rootText: string, root: string, store: Store, event: Event)
    requires Normalize(rootText) == Some(root) && Unused(base, root)
    requires PlainKeys(store.Keys) && Plain(event.streamId)
    requires Mirrors(nodes, base, LayoutAt(root), store)
    ensures EmitStep(nodes, rootText, event).result.Ok?
    ensures Mirrors(EmitStep(nodes, rootText, event).nodes, base, LayoutAt(root), store[KeyOf(event) := event.payload])
  {
    EmitWorks(nodes, base, rootText, root, store, event);
    LayoutSeparated(base, root, store.Keys + {KeyOf(event)});
    UpdateMirrors(nodes, base, LayoutAt(root), store, KeyOf(event), event.payload);
  }

  function EmitAll(nodes: Tree, rootText: string, events: seq<Event>): Tree
  {
    if events == [] then nodes else EmitStep(EmitAll(nodes, rootText, Front(events)), rootText, Last(events)).nodes
  }

  /** The last payload emitted for each key. */
  function StoreOf(events: seq<Event>): Store
  {
    if events == [] then map[] else StoreOf(Front(events))[KeyOf(Last(events)) := Last(events).payload]
  }

  /**
   * After any sequence of emits the backend holds what it held before plus exactly the last
   * payload per (stream, kind, time).
   */
  lemma {:induction false} EmitsRefineStore(base: Tree, rootText: string, events: seq<Event>)
    requires Normalize(rootText).Some? && Unused(base, Normalize(rootText).value)
    requires forall i :: 0 <= i < |events| ==> Plain(events[i].streamId)
    ensures PlainKeys(StoreOf(events).Keys)
    ensures Mirrors(EmitAll(base, rootText, events), base, LayoutAt(Normalize(rootText).value), StoreOf(events))
    decreases |events|
  {
    var layout := LayoutAt(Normalize(rootText).value);
    if events == [] {
      assert Dirs(layout, {}) == {} && Files(layout, {}) == {};
    } else {
      var earlier, e := Front(events), Last(events);
      var store := StoreOf(earlier);
      EmitsRefineStore(base, rootText, earlier);
      EmitRefinesUpdate(EmitAll(base, rootText, earlier), base, rootText, Normalize(rootText).value, store, e);
    }
  }

  /** Every emit in every such sequence succeeds, and the file of its key then reads back the payload. */
  lemma {:induction false} EmitSucceeds(base: Tree, rootText: string, events: seq<Event>, event: Event)
    requires Normalize(rootText).Some? && Unused(base, Normalize(rootText).value)
    requires forall i :: 0 <= i < |events| ==> Plain(events[i].streamId)
    requires Plain(event.streamId)
    ensures var after := EmitStep(EmitAll(base, rootText, events), rootText, event);
            && after.result.Ok?
            && ReadStep(after.nodes, SidecarPath(Normalize(rootText).value, KeyOf(event)), 0, |event.payload|) ==
               Ok(event.payload)
  {
    EmitsRefineStore(base, rootText, events);
    EmitWorks(EmitAll(base, rootText, events), base, rootText, Normalize(rootText).value, StoreOf(events), event);
    assert event.payload[0..|event.payload|] == event.payload;
  }

  /** A sink whose root is not in the backend fails at its first directory: the root is never created. */
  lemma {:induction false} MissingRootFails(nodes: Tree, rootText: string, root: string, event: Event)
    requires Normalize(rootText) == Some(root) && Canonical(root) && Plain(event.streamId) && root !in nodes
    ensures EmitStep(nodes, rootText, event) == Outcome(nodes, Err(NotFound(root)))
  {
    SidecarParents(root, KeyOf(event));
    assert EnsureDirStep(nodes, StreamsRoot(root)) == Outcome(nodes, Err(NotFound(root)));
    assert PrepareStep(nodes, rootText, KeyOf(event)) == Outcome(nodes, Err(NotFound(root)));
  }

  lemma {:induction false} FreshIsUnused()
    ensures Unused(FRESH, ROOT)
  {
    JoinThenParent(ROOT, ".streams");
  }

  /** On a fresh backend an emit succeeds exactly when the sink's root is the root directory. */
  lemma {:induction false} FreshEmitIff(rootText: string, event: Event)
    requires Plain(event.streamId)
    ensures EmitStep(FRESH, rootText, event).result.Ok? <==> Normalize(rootText) == Some(ROOT)
  {
    if Normalize(rootText) == Some(ROOT) {
      FreshIsUnused();
      EmitSucceeds(FRESH, rootText, [], event);
    } else if Normalize(rootText).Some? {
      NormalizeLaws(rootText);
      MissingRootFails(FRESH, rootText, Normalize(rootText).value, event);
    }
  }

  // ---------------------------------------------------------------- the files, spelled out from the events

  /** Where an event belongs, by the documented layout and its constructor alone. */
  function Spelled(root: string, event: Event): string
  {
    var top := (if root == ROOT then "" else root) + "/" + ".streams" + "/";
    match event
    case Window(stream, tStartMs, _) => top + stream + "/" + "windows" + "/" + (Decimal(tStartMs) + ".score.json")
    case Threshold(stream, timestampMs, _) => top + stream + "/" + "events" + "/" + (Decimal(timestampMs) + ".event.json")
  }

  lemma {:induction false} SpelledIsSidecar(root: string, event: Event)
    requires Plain(event.streamId)
    ensures SidecarPath(root, KeyOf(event)) == Spelled(root, event)
  {
    var key := KeyOf(event);
    DocumentedLayout(root, key.stream, key.kind, key.time);
    var top := (if root == ROOT then "" else root) + "/" + ".streams";
    assert top + Below(key.stream) == top + "/" + key.stream;
  }

  lemma {:induction false} LastPayloadStored(events: seq<Event>, i: nat)
    requires i < |events| && forall j :: i < j < |events| ==> KeyOf(events[j]) != KeyOf(events[i])
    ensures KeyOf(events[i]) in StoreOf(events) && StoreOf(events)[KeyOf(events[i])] == events[i].payload
    decreases |events|
  {
    if i < |events| - 1 {
      assert Front(events)[i] == events[i];
      LastPayloadStored(Front(events), i);
    }
  }

  lemma {:induction false} StoredWasEmitted(events: seq<Event>, k: Key) returns (i: nat)
    requires k in StoreOf(events)
    ensures i < |events| && KeyOf(events[i]) == k
    decreases |events|
  {
    if KeyOf(Last(events)) == k {
      i := |events| - 1;
    } else {
      i := StoredWasEmitted(Front(events), k);
    }
  }

  /**
   * The whole store through the documented paths: after any sequence of emits, the path of every
   * event holds its payload unless a later event has the same path, and every file that was not
   * there before is at the path of some event.
   */
  lemma {:induction false} EmitsLandWhereDocumented(base: Tree, rootText: string, events: seq<Event>, i: nat)
    requires Normalize(rootText).Some? && Unused(base, Normalize(rootText).value)
    requires forall j :: 0 <= j < |events| ==> Plain(events[j].streamId)
    requires i < |events|
    requires forall j :: i < j < |events| ==>
               Spelled(Normalize(rootText).value, events[j]) != Spelled(Normalize(rootText).value, events[i])
    ensures var nodes, path := EmitAll(base, rootText, events), Spelled(Normalize(rootText).value, events[i]);
            path in nodes && nodes[path] == Node(File, events[i].payload)
  {
    var root := Normalize(rootText).value;
    forall j | i < j < |events|
      ensures KeyOf(events[j]) != KeyOf(events[i])
    {
      SpelledIsSidecar(root, events[j]);
      SpelledIsSidecar(root, events[i]);
    }
    SpelledIsSidecar(root, events[i]);
    EmitsRefineStore(base, rootText, events);
    LastPayloadStored(events, i);
    assert LayoutAt(root).file(KeyOf(events[i])) == SidecarPath(root, KeyOf(events[i]));
  }

  lemma {:induction false} NothingElseIsEmitted(base: Tree, rootText: string, events: seq<Event>, p: string) returns (i: nat)
    requires Normalize(rootText).Some? && Unused(base, Normalize(rootText).value)
    requires forall j :: 0 <= j < |events| ==> Plain(events[j].streamId)
    requires IsFile(EmitAll(base, rootText, events), p) && p !in base
    ensures i < |events| && p == Spelled(Normalize(rootText).value, events[i])
  {
    var root := Normalize(rootText).value;
    var layout, store := LayoutAt(root), StoreOf(events);
    EmitsRefineStore(base, rootText, events);
    assert p in Files(layout, store.Keys);
    var k :| k in store.Keys && p == layout.file(k);
    i := StoredWasEmitted(events, k);
    SpelledIsSidecar(root, events[i]);
  }

  // ---------------------------------------------------------------- exactly when an emit succeeds

  /** Nothing, or a directory, stands at the path. */
  predicate FreeForDirectory(nodes: Tree, p: string) { p !in nodes || IsDirectory(nodes, p) }

  lemma {:induction false} EnsureDirIs(nodes: Tree, path: string, parent: string)
    requires WellFormed(nodes) && Parent(path) == Some(parent)
    ensures var o := EnsureDirStep(nodes, path);
            && (o.result.Ok? <==> IsDirectory(nodes, parent))
            && o.nodes == (if o.result.Ok? && path !in nodes then nodes[path := EMPTY_DIR] else nodes)
  {
    if path in nodes {
      assert path != ROOT;
      assert HasDirectoryParent(nodes, path);
    }
  }

  lemma {:induction false} EnsureDirKeepsTree(nodes: Tree, path: string)
    requires WellFormed(nodes) && Absolute(path)
    ensures WellFormed(EnsureDirStep(nodes, path).nodes)
  {
    StepKeepsTree(Sys(nodes, []), CreateDirCall(path));
  }

  /** The three directories can be ensured exactly if the root is a directory and no file stands at the first two. */
  lemma {:induction false} EnsureThreeIff(nodes: Tree, root: string, d1: string, d2: string, d3: string)
    requires WellFormed(nodes) && Absolute(d1) && Absolute(d2) && Absolute(d3)
    requires Parent(d1) == Some(root) && Parent(d2) == Some(d1) && Parent(d3) == Some(d2)
    requires root != d1 && root != d2 && root != d3 && d1 != d2 && d1 != d3 && d2 != d3
    ensures EnsureThree(nodes, d1, d2, d3).result.Ok? <==>
            IsDirectory(nodes, root) && FreeForDirectory(nodes, d1) && FreeForDirectory(nodes, d2)
    ensures WellFormed(EnsureThree(nodes, d1, d2, d3).nodes)
    ensures forall p :: p !in {d1, d2, d3} ==>
              var made := EnsureThree(nodes, d1, d2, d3).nodes;
              (p in made <==> p in nodes) && (p in nodes ==> made[p] == nodes[p])
    ensures EnsureThree(nodes, d1, d2, d3).result.Ok? ==>
              var made := EnsureThree(nodes, d1, d2, d3).nodes;
              d3 in made && made[d3] == if d3 in nodes then nodes[d3] else EMPTY_DIR
  {
    EnsureDirIs(nodes, d1, root);
    EnsureDirKeepsTree(nodes, d1);
    var a := EnsureDirStep(nodes, d1);
    if a.result.Ok? {
      EnsureDirIs(a.nodes, d2, d1);
      EnsureDirKeepsTree(a.nodes, d2);
      var b := EnsureDirStep(a.nodes, d2);
      if b.result.Ok? {
        EnsureDirIs(b.nodes, d3, d2);
        EnsureDirKeepsTree(b.nodes, d3);
      }
    }
  }

  lemma {:induction false} ReplaceFileIff(nodes: Tree, path: string, parent: string, payload: seq<Byte>)
    requires WellFormed(nodes) && Absolute(path) && Parent(path) == Some(parent)
    ensures ReplaceFile(nodes, path, payload).result.Ok? <==>
            IsFile(nodes, path) || (path !in nodes && IsDirectory(nodes, parent))
    ensures ReplaceFile(nodes, path, payload).result.Ok? ==>
              ReplaceFile(nodes, path, payload).nodes == nodes[path := Node(File, payload)]
  {
    OpenIff(nodes, path, SINK_FLAGS);
    if path in nodes && path != ROOT {
      assert HasDirectoryParent(nodes, path);
    }
    if IsFile(nodes, path) || (path !in nodes && IsDirectory(nodes, parent)) {
      ReplaceFileWorks(nodes, path, parent, payload);
    }
  }

  lemma {:induction false} SidecarPlaces(root: string, key: Key)
    requires Canonical(root) && Plain(key.stream)
    ensures var d1, d2, d3, f := StreamsRoot(root), SessionDir(root, key.stream), KindPath(root, key.stream, key.kind), SidecarPath(root, key);
            && Absolute(d1) && Absolute(d2) && Absolute(d3) && Absolute(f)
            && |root| < |d1| < |d2| < |d3| < |f|
  {
    SidecarParents(root, key);
    FileNamePlain(key.kind, key.time);
    JoinGrows(root, ".streams");
    JoinGrows(StreamsRoot(root), key.stream);
    JoinGrows(SessionDir(root, key.stream), KindDir(key.kind));
    JoinGrows(KindPath(root, key.stream, key.kind), FileName(key.kind, key.time));
  }

  lemma {:induction false} JoinGrows(p: string, segment: string)
    requires Absolute(p) && Plain(segment)
    ensures |p| < |Join(p, segment)| && Absolute(Join(p, segment))
  {
    TrimPlain(segment);
  }

  /** The emit over its four places: three directories, then the file. */
  function EmitAt(nodes: Tree, d1: string, d2: string, d3: string, f: string, payload: seq<Byte>): Outcome<Unit>
  {
    var o := EnsureThree(nodes, d1, d2, d3);
    if o.result.Err? then o else ReplaceFile(o.nodes, f, payload)
  }

  lemma {:induction false} EmitIsAt(nodes: Tree, rootText: string, root: string, event: Event)
    requires Normalize(rootText) == Some(root)
    ensures var key := KeyOf(event);
            EmitStep(nodes, rootText, event) ==
            EmitAt(nodes, StreamsRoot(root), SessionDir(root, key.stream), KindPath(root, key.stream, key.kind),
                   SidecarPath(root, key), event.payload)
  {
  }

  lemma {:induction false} EmitAtIff(nodes: Tree, root: string, d1: string, d2: string, d3: string, f: string, payload: seq<Byte>)
    requires WellFormed(nodes) && Absolute(d1) && Absolute(d2) && Absolute(d3) && Absolute(f)
    requires Parent(d1) == Some(root) && Parent(d2) == Some(d1) && Parent(d3) == Some(d2) && Parent(f) == Some(d3)
    requires 0 < |root| < |d1| < |d2| < |d3| < |f|
    ensures var after := EmitAt(nodes, d1, d2, d3, f, payload);
            && (after.result.Ok? <==>
                  && IsDirectory(nodes, root)
                  && FreeForDirectory(nodes, d1) && FreeForDirectory(nodes, d2) && FreeForDirectory(nodes, d3)
                  && !IsDirectory(nodes, f))
            && (after.result.Ok? ==>
                  && f in after.nodes && after.nodes[f] == Node(File, payload)
                  && forall p :: p !in {d1, d2, d3, f} ==>
                       (p in after.nodes <==> p in nodes) && (p in nodes ==> after.nodes[p] == nodes[p]))
  {
    EnsureThreeIff(nodes, root, d1, d2, d3);
    var made := EnsureThree(nodes, d1, d2, d3);
    if made.result.Ok? {
      ReplaceFileIff(made.nodes, f, d3, payload);
      if f in nodes {
        assert f != ROOT;
        assert HasDirectoryParent(nodes, f);
      }
    }
  }

  /**
   * On every tree, an emit with a plain stream id succeeds exactly if the root is a directory, no
   * file stands where a directory is needed and no directory where the file goes; then the file
   * holds exactly the payload and nothing but the missing directories and that file is new.
   */
  lemma {:induction false} EmitIff(nodes: Tree, rootText: string, root: string, event: Event)
    requires WellFormed(nodes) && Normalize(rootText) == Some(root) && Plain(event.streamId)
    ensures var key, after := KeyOf(event), EmitStep(nodes, rootText, event);
            var d1, d2, d3 := StreamsRoot(root), SessionDir(root, key.stream), KindPath(root, key.stream, key.kind);
            && (after.result.Ok? <==>
                  && IsDirectory(nodes, root)
                  && FreeForDirectory(nodes, d1) && FreeForDirectory(nodes, d2) && FreeForDirectory(nodes, d3)
                  && !IsDirectory(nodes, Spelled(root, event)))
            && (after.result.Ok? ==>
                  && Spelled(root, event) in after.nodes && after.nodes[Spelled(root, event)] == Node(File, event.payload)
                  && forall p :: p !in {d1, d2, d3, Spelled(root, event)} ==>
                       (p in after.nodes <==> p in nodes) && (p in nodes ==> after.nodes[p] == nodes[p]))
  {
    var key := KeyOf(event);
    NormalizeLaws(rootText);
    SidecarParents(root, key);
    SidecarPlaces(root, key);
    SpelledIsSidecar(root, event);
    EmitIsAt(nodes, rootText, root, event);
    EmitAtIff(nodes, root, StreamsRoot(root), SessionDir(root, key.stream), KindPath(root, key.stream, key.kind),
              SidecarPath(root, key), event.payload);
  }

  /** A sink root that is no path fails with that root and changes nothing. */
  lemma {:induction false} InvalidRootFails(nodes: Tree, rootText: string, event: Event)
    requires rootText == "" || '\0' in rootText
    ensures EmitStep(nodes, rootText, event) == Outcome(nodes, Err(InvalidPath(rootText)))
  {
  }
}
