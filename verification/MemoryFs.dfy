/**
 * `MemoryBackend` and `MemoryHandle` (crates/diaspor-backend-memory/src/lib.rs).
 *
 * The backend keeps a tree as one flat map from path to node and decides parenthood by
 * string prefixes. Each method body runs under one lock, so it is one atomic step. Steps
 * are specified by functions on the map; the classes are proved to compute them.
 */
module MemoryFs {
  import opened Common
  import opened VfsPaths

  datatype Kind = File | Directory

  datatype Node = Node(kind: Kind, data: seq<Byte>)

  type Tree = map<string, Node>

  datatype VfsError =
    | NotFound(path: string)
    | AlreadyExists(path: string)
    | PermissionDenied(path: string)
    | InvalidPath(path: string)
    | KindMismatch(path: string, expected: Kind, found: Kind)
    | DirectoryNotEmpty

  /** The open flags that matter to this backend; the access-mode bits are ignored by it. */
  datatype Flags = Flags(create: bool, excl: bool, trunc: bool)

  const EMPTY_FILE := Node(File, [])
  const EMPTY_DIR := Node(Directory, [])
  const FRESH: Tree := map[ROOT := EMPTY_DIR]

  datatype Outcome<+T> = Outcome(nodes: Tree, result: Result<T, VfsError>)

  // ---------------------------------------------------------------- byte-level operations

  function Zeros(n: nat): (z: seq<Byte>)
    ensures |z| == n && forall i :: 0 <= i < n ==> z[i] == 0
  {
    seq(n, _ => 0)
  }

  /** `resize` with zeros when the write ends past the end, then overwrite in place. */
  function WriteBytes(data: seq<Byte>, offset: nat, chunk: seq<Byte>): seq<Byte>
  {
    var needed := offset + |chunk|;
    var padded := if needed > |data| then data + Zeros(needed - |data|) else data;
    padded[..offset] + chunk + padded[needed..]
  }

  function ReadBytes(data: seq<Byte>, offset: nat, len: nat): seq<Byte>
  {
    if offset >= |data| then []
    else data[offset..if offset + len < |data| then offset + len else |data|]
  }

  // ---------------------------------------------------------------- backend steps

  function ParentError(nodes: Tree, path: string): Option<VfsError>
  {
    match Parent(path)
    case None => Some(InvalidPath(path))
    case Some(parent) =>
      if parent !in nodes then Some(NotFound(parent))
      else if nodes[parent].kind != Directory then Some(KindMismatch(parent, Directory, nodes[parent].kind))
      else None
  }

  function OpenStep(nodes: Tree, path: string, flags: Flags): Outcome<Unit>
  {
    if path == ROOT then Outcome(nodes, Err(KindMismatch(path, File, Directory)))
    else if path in nodes then
      if flags.create && flags.excl then Outcome(nodes, Err(AlreadyExists(path)))
      else if nodes[path].kind != File then Outcome(nodes, Err(KindMismatch(path, File, nodes[path].kind)))
      else Outcome(if flags.trunc then nodes[path := EMPTY_FILE] else nodes, Ok(Unit))
    else if !flags.create then Outcome(nodes, Err(NotFound(path)))
    else match ParentError(nodes, path)
      case Some(e) => Outcome(nodes, Err(e))
      case None => Outcome(nodes[path := EMPTY_FILE], Ok(Unit))
  }

  function CreateDirStep(nodes: Tree, path: string): Outcome<Unit>
  {
    match ParentError(nodes, path)
    case Some(e) => Outcome(nodes, Err(e))
    case None =>
      if path in nodes then Outcome(nodes, Err(AlreadyExists(path)))
      else Outcome(nodes[path := EMPTY_DIR], Ok(Unit))
  }

  /** The prefix scan `remove` uses to decide that a directory is not empty. */
  predicate HasDescendant(nodes: Tree, path: string)
  {
    exists k :: k in nodes && StartsWith(k, path + "/")
  }

  function RemoveStep(nodes: Tree, path: string): Outcome<Unit>
  {
    if path == ROOT then Outcome(nodes, Err(PermissionDenied(path)))
    else if path !in nodes then Outcome(nodes, Err(NotFound(path)))
    else if nodes[path].kind == Directory && HasDescendant(nodes, path) then Outcome(nodes, Err(DirectoryNotEmpty))
    else Outcome(nodes - {path}, Ok(Unit))
  }

  function FileError(nodes: Tree, path: string): Option<VfsError>
  {
    if path !in nodes then Some(NotFound(path))
    else if nodes[path].kind != File then Some(KindMismatch(path, File, nodes[path].kind))
    else None
  }

  function ReadStep(nodes: Tree, path: string, offset: nat, len: nat): Result<seq<Byte>, VfsError>
  {
    match FileError(nodes, path)
    case Some(e) => Err(e)
    case None => Ok(ReadBytes(nodes[path].data, offset, len))
  }

  function WriteStep(nodes: Tree, path: string, offset: nat, chunk: seq<Byte>): Outcome<nat>
  {
    match FileError(nodes, path)
    case Some(e) => Outcome(nodes, Err(e))
    case None =>
      Outcome(nodes[path := Node(File, WriteBytes(nodes[path].data, offset, chunk))], Ok(|chunk|))
  }

  /** The prefix `list` filters by. */
  function ChildPrefix(path: string): string
  {
    if path == ROOT then "/" else path + "/"
  }

  /** The filter `list` applies to each key. */
  predicate IsListed(key: string, path: string)
  {
    var prefix := ChildPrefix(path);
    && key != ROOT
    && StartsWith(key, prefix)
    && key[|prefix|..] != ""
    && '/' !in key[|prefix|..]
  }

  function Listed(nodes: Tree, path: string): set<string>
  {
    set k | k in nodes && IsListed(k, path)
  }

  // ---------------------------------------------------------------- the stateful backend

  class MemoryBackend {
    var nodes: Tree

    constructor ()
      ensures nodes == FRESH
    {
      nodes := FRESH;
    }

    method List(path: string) returns (r: Result<seq<string>, VfsError>)
      ensures path !in nodes ==> r == Err(NotFound(path))
      ensures path in nodes && nodes[path].kind != Directory ==>
                r == Err(KindMismatch(path, Directory, nodes[path].kind))
      ensures path in nodes && nodes[path].kind == Directory ==>
                && r.Ok?
                && (set k | k in r.value) == Listed(nodes, path)
                && (forall i, j :: 0 <= i < j < |r.value| ==> r.value[i] != r.value[j])
    {
      if path !in nodes {
        return Err(NotFound(path));
      }
      if nodes[path].kind != Directory {
        return Err(KindMismatch(path, Directory, nodes[path].kind));
      }
      var prefix := ChildPrefix(path);
      var children: seq<string> := [];
      var rest := nodes.Keys;
      while rest != {}
        invariant rest <= nodes.Keys
        invariant forall k :: k in children <==> k in nodes && k !in rest && IsListed(k, path)
        invariant forall i, j :: 0 <= i < j < |children| ==> children[i] != children[j]
      {
        var s :| s in rest;
        rest := rest - {s};
        if s == "/" || !StartsWith(s, prefix) {
          continue;
        }
        var tail := s[|prefix|..];
        if tail != "" && '/' !in tail {
          children := children + [s];
        }
      }
      r := Ok(children);
    }

    method Open(path: string, flags: Flags) returns (r: Result<MemoryHandle, VfsError>)
      modifies this
      ensures nodes == OpenStep(old(nodes), path, flags).nodes
      ensures OpenStep(old(nodes), path, flags).result.Ok? ==> r.Ok? && r.value.path == path && r.value.backend == this
      ensures OpenStep(old(nodes), path, flags).result.Err? ==>
                r == Err(OpenStep(old(nodes), path, flags).result.error) && nodes == old(nodes)
    {
      if path == ROOT {
        return Err(KindMismatch(path, File, Directory));
      }
      var exists_ := path in nodes;
      if exists_ {
        if flags.create && flags.excl {
          return Err(AlreadyExists(path));
        }
        if nodes[path].kind != File {
          return Err(KindMismatch(path, File, nodes[path].kind));
        }
      } else {
        if !flags.create {
          return Err(NotFound(path));
        }
        var parent := Parent(path);
        if parent.None? {
          return Err(InvalidPath(path));
        }
        if parent.value !in nodes {
          return Err(NotFound(parent.value));
        }
        if nodes[parent.value].kind != Directory {
          return Err(KindMismatch(parent.value, Directory, nodes[parent.value].kind));
        }
        nodes := nodes[path := EMPTY_FILE];
      }
      if flags.trunc {
        nodes := nodes[path := nodes[path].(data := [])];
      }
      var handle := new MemoryHandle(path, this);
      r := Ok(handle);
    }

    method CreateDir(path: string) returns (r: Result<Unit, VfsError>)
      modifies this
      ensures Outcome(nodes, r) == CreateDirStep(old(nodes), path)
      ensures r.Err? ==> nodes == old(nodes)
    {
      var parent := Parent(path);
      if parent.None? {
        return Err(InvalidPath(path));
      }
      if parent.value !in nodes {
        return Err(NotFound(parent.value));
      }
      if nodes[parent.value].kind != Directory {
        return Err(KindMismatch(parent.value, Directory, nodes[parent.value].kind));
      }
      if path in nodes {
        return Err(AlreadyExists(path));
      }
      nodes := nodes[path := EMPTY_DIR];
      r := Ok(Unit);
    }

    method Remove(path: string) returns (r: Result<Unit, VfsError>)
      modifies this
      ensures Outcome(nodes, r) == RemoveStep(old(nodes), path)
      ensures r.Err? ==> nodes == old(nodes)
    {
      if path == ROOT {
        return Err(PermissionDenied(path));
      }
      if path !in nodes {
        return Err(NotFound(path));
      }
      if nodes[path].kind == Directory {
        var prefix := path + "/";
        if exists k :: k in nodes && StartsWith(k, prefix) {
          return Err(DirectoryNotEmpty);
        }
      }
      nodes := nodes - {path};
      r := Ok(Unit);
    }
  }

  /** A handle holds only a path: every read and write looks the node up again. */
  class MemoryHandle {
    const path: string
    const backend: MemoryBackend

    constructor (path: string, backend: MemoryBackend)
      ensures this.path == path && this.backend == backend
    {
      this.path := path;
      this.backend := backend;
    }

    method Read(offset: nat, len: nat) returns (r: Result<seq<Byte>, VfsError>)
      ensures r == ReadStep(backend.nodes, path, offset, len)
    {
      if path !in backend.nodes {
        return Err(NotFound(path));
      }
      var node := backend.nodes[path];
      if node.kind != File {
        return Err(KindMismatch(path, File, node.kind));
      }
      if offset >= |node.data| {
        return Ok([]);
      }
      var end := if offset + len < |node.data| then offset + len else |node.data|;
      r := Ok(node.data[offset..end]);
    }

    method Write(offset: nat, chunk: seq<Byte>) returns (r: Result<nat, VfsError>)
      modifies backend
      ensures Outcome(backend.nodes, r) == WriteStep(old(backend.nodes), path, offset, chunk)
      ensures r.Err? ==> backend.nodes == old(backend.nodes)
    {
      if path !in backend.nodes {
        return Err(NotFound(path));
      }
      var node := backend.nodes[path];
      if node.kind != File {
        return Err(KindMismatch(path, File, node.kind));
      }
      var data := node.data;
      var needed := offset + |chunk|;
      if needed > |data| {
        data := data + Zeros(needed - |data|);
      }
      data := data[..offset] + chunk + data[needed..];
      backend.nodes := backend.nodes[path := node.(data := data)];
      r := Ok(|chunk|);
    }
  }

  // ---------------------------------------------------------------- the tree invariant

  predicate HasDirectoryParent(nodes: Tree, key: string)
  {
    match Parent(key)
    case None => false
    case Some(parent) => parent in nodes && nodes[parent].kind == Directory
  }

  /** The flat map is a tree: rooted, closed under parents, directories carry no bytes. */
  predicate WellFormed(nodes: Tree)
  {
    && ROOT in nodes && nodes[ROOT].kind == Directory
    && (forall k :: k in nodes ==> Absolute(k))
    && (forall k :: k in nodes && k != ROOT ==> HasDirectoryParent(nodes, k))
    && (forall k :: k in nodes && nodes[k].kind == Directory ==> nodes[k].data == [])
  }

  predicate CanonicalKeys(nodes: Tree)
  {
    forall k :: k in nodes ==> Canonical(k)
  }

  /** One atomic step of a client; `handle` indexes the handles opened so far. */
  datatype Call =
    | OpenCall(path: string, flags: Flags)
    | CreateDirCall(path: string)
    | RemoveCall(path: string)
    | WriteCall(handle: nat, offset: nat, chunk: seq<Byte>)

  datatype Sys = Sys(nodes: Tree, handles: seq<string>)

  function Step(sys: Sys, call: Call): Sys
  {
    match call
    case OpenCall(path, flags) =>
      var o := OpenStep(sys.nodes, path, flags);
      Sys(o.nodes, if o.result.Ok? then sys.handles + [path] else sys.handles)
    case CreateDirCall(path) => sys.(nodes := CreateDirStep(sys.nodes, path).nodes)
    case RemoveCall(path) => sys.(nodes := RemoveStep(sys.nodes, path).nodes)
    case WriteCall(handle, offset, chunk) =>
      if handle < |sys.handles| then sys.(nodes := WriteStep(sys.nodes, sys.handles[handle], offset, chunk).nodes)
      else sys
  }

  function Run(sys: Sys, calls: seq<Call>): Sys
  {
    if calls == [] then sys else Step(Run(sys, Front(calls)), Last(calls))
  }

  const START := Sys(FRESH, [])

  /** Every path argument is a `VfsPath`, hence absolute. */
  predicate AbsoluteCall(call: Call)
  {
    !call.WriteCall? ==> Absolute(call.path)
  }

  predicate CanonicalCall(call: Call)
  {
    !call.WriteCall? ==> Canonical(call.path)
  }

  /** The one path a call may change. */
  function Target(sys: Sys, call: Call): string
  {
    if !call.WriteCall? then call.path
    else if call.handle < |sys.handles| then sys.handles[call.handle]
    else ROOT
  }

  /** The call is answered with an error (or uses a handle that was never opened). */
  predicate Fails(sys: Sys, call: Call)
  {
    match call
    case OpenCall(path, flags) => OpenStep(sys.nodes, path, flags).result.Err?
    case CreateDirCall(path) => CreateDirStep(sys.nodes, path).result.Err?
    case RemoveCall(path) => RemoveStep(sys.nodes, path).result.Err?
    case WriteCall(handle, offset, chunk) =>
      handle >= |sys.handles| || WriteStep(sys.nodes, sys.handles[handle], offset, chunk).result.Err?
  }

  /** A failing call changes nothing; a successful one changes at most the node at its own path. */
  lemma {:induction false} StepFrame(sys: Sys, call: Call, p: string)
    ensures Fails(sys, call) ==> Step(sys, call) == sys
    ensures p != Target(sys, call) ==>
              && (p in Step(sys, call).nodes <==> p in sys.nodes)
              && (p in sys.nodes ==> Step(sys, call).nodes[p] == sys.nodes[p])
    ensures call.WriteCall? ==> Step(sys, call).nodes.Keys == sys.nodes.Keys
  {
    if call.WriteCall? && !Fails(sys, call) {
      assert Step(sys, call).nodes.Keys == sys.nodes.Keys + {Target(sys, call)};
    }
  }

  /** A non-root directory is the parent of a key only if that key extends it by a slash. */
  lemma {:induction false} ChildExtends(key: string, parent: string)
    requires Absolute(key) && Parent(key) == Some(parent) && parent != ROOT
    ensures StartsWith(key, parent + "/") && |parent| == LastSlash(key)
  {
    assert key[..|parent| + 1] == parent + "/";
  }

  lemma {:induction false} RemoveKeepsTree(nodes: Tree, path: string)
    requires WellFormed(nodes) && Absolute(path)
    ensures WellFormed(RemoveStep(nodes, path).nodes)
  {
    var o := RemoveStep(nodes, path);
    if o.result.Ok? {
      forall k | k in o.nodes && k != ROOT
        ensures HasDirectoryParent(o.nodes, k)
      {
        assert HasDirectoryParent(nodes, k);
        if Parent(k).value == path {
          ChildExtends(k, path);
        }
      }
    }
  }

  /** Inserting under an existing directory, or overwriting a file by a file, keeps the tree. */
  lemma {:induction false} InsertKeepsTree(nodes: Tree, path: string, node: Node)
    requires WellFormed(nodes) && Absolute(path) && path != ROOT
    requires HasDirectoryParent(nodes, path)
    requires path in nodes ==> nodes[path].kind == node.kind
    requires node.kind == Directory ==> node.data == []
    ensures WellFormed(nodes[path := node])
  {
    var next := nodes[path := node];
    forall k | k in next && k != ROOT
      ensures HasDirectoryParent(next, k)
    {
      assert HasDirectoryParent(nodes, k);
    }
  }

  lemma {:induction false} StepKeepsTree(sys: Sys, call: Call)
    requires WellFormed(sys.nodes) && AbsoluteCall(call)
    ensures WellFormed(Step(sys, call).nodes)
  {
    var nodes := sys.nodes;
    match call
    case OpenCall(path, flags) =>
      if OpenStep(nodes, path, flags).result.Ok? {
        assert HasDirectoryParent(nodes, path);
        InsertKeepsTree(nodes, path, EMPTY_FILE);
      }
    case CreateDirCall(path) =>
      if CreateDirStep(nodes, path).result.Ok? {
        InsertKeepsTree(nodes, path, EMPTY_DIR);
      }
    case RemoveCall(path) => RemoveKeepsTree(nodes, path);
    case WriteCall(handle, offset, chunk) =>
      if handle < |sys.handles| && FileError(nodes, sys.handles[handle]).None? {
        var path := sys.handles[handle];
        assert HasDirectoryParent(nodes, path);
        InsertKeepsTree(nodes, path, Node(File, WriteBytes(nodes[path].data, offset, chunk)));
      }
  }

  /** Every run of opens, creates, removes and handle writes, in any interleaving, keeps the tree. */
  lemma {:induction false} RunKeepsTree(calls: seq<Call>)
    requires forall i :: 0 <= i < |calls| ==> AbsoluteCall(calls[i])
    ensures WellFormed(Run(START, calls).nodes)
    decreases |calls|
  {
    if calls != [] {
      RunKeepsTree(Front(calls));
      StepKeepsTree(Run(START, Front(calls)), Last(calls));
    }
  }

  lemma {:induction false} RunKeepsCanonical(calls: seq<Call>)
    requires forall i :: 0 <= i < |calls| ==> CanonicalCall(calls[i])
    ensures CanonicalKeys(Run(START, calls).nodes)
    decreases |calls|
  {
    if calls != [] {
      RunKeepsCanonical(Front(calls));
    }
  }

  // ---------------------------------------------------------------- prefix scans versus parenthood

  function Children(nodes: Tree, path: string): set<string>
  {
    set k | k in nodes && Parent(k) == Some(path)
  }

  /** When a key has an empty name, or is `//x`, `list` skips it although its parent is `path`. */
  predicate Hidden(key: string, path: string)
  {
    Name(key) == Some("") || (path == ROOT && LastSlash(key) != 0)
  }

  lemma {:induction false} ListedIff(key: string, path: string)
    requires Absolute(key) && Absolute(path) && key != ROOT
    ensures IsListed(key, path) <==> Parent(key) == Some(path) && !Hidden(key, path)
  {
    var prefix := ChildPrefix(path);
    if IsListed(key, path) {
      var dir := prefix[..|prefix| - 1];
      var tail := key[|prefix|..];
      assert key == dir + "/" + tail;
      LastSlashOf(dir, tail);
      assert key[..|dir|] == dir;
      assert path != ROOT ==> dir == path;
    }
    if Parent(key) == Some(path) && !Hidden(key, path) {
      if path != ROOT {
        ChildExtends(key, path);
      }
      assert |prefix| == LastSlash(key) + 1;
      assert key[..|prefix|] == prefix;
    }
  }

  lemma {:induction false} CanonicalNeverHidden(key: string, path: string)
    requires Canonical(key) && key != ROOT && Parent(key) == Some(path)
    ensures !Hidden(key, path)
  {
    CanonicalSplit(key);
    ParentThenJoin(key);
  }

  /** `list(p)` is the set of keys whose `parent()` is `p`, exactly when no such key is hidden. */
  lemma {:induction false} ListIsChildrenIff(nodes: Tree, path: string)
    requires WellFormed(nodes) && path in nodes
    ensures Listed(nodes, path) <= Children(nodes, path)
    ensures Listed(nodes, path) == Children(nodes, path) <==>
            forall k :: k in Children(nodes, path) ==> !Hidden(k, path)
  {
    forall k | k in nodes && k != ROOT
      ensures k in Listed(nodes, path) <==> k in Children(nodes, path) && !Hidden(k, path)
    {
      ListedIff(k, path);
    }
    assert ROOT !in Listed(nodes, path) && ROOT !in Children(nodes, path);
  }

  lemma {:induction false} CanonicalListing(nodes: Tree, path: string)
    requires WellFormed(nodes) && CanonicalKeys(nodes) && path in nodes
    ensures Listed(nodes, path) == Children(nodes, path)
  {
    ListIsChildrenIff(nodes, path);
    forall k | k in Children(nodes, path)
      ensures !Hidden(k, path)
    {
      CanonicalNeverHidden(k, path);
    }
  }

  /** A descendant found by prefix has an ancestor that is a direct child. */
  lemma {:induction false} DescendantGivesChild(nodes: Tree, path: string, key: string) returns (child: string)
    requires WellFormed(nodes) && path in nodes && path != ROOT
    requires key in nodes && StartsWith(key, path + "/")
    ensures child in Children(nodes, path)
    decreases |key|
  {
    var j := LastSlash(key);
    assert key[|path|] == (path + "/")[|path|] == '/';
    assert HasDirectoryParent(nodes, key);
    assert key[..|path|] == (path + "/")[..|path|] == path;
    if j == |path| {
      child := key;
    } else {
      var up := key[..j];
      assert up[..|path| + 1] == key[..|path| + 1];
      child := DescendantGivesChild(nodes, path, up);
    }
  }

  /** The scan in `remove` fires exactly when the directory has a child. */
  lemma {:induction false} ScanIffChildren(nodes: Tree, path: string)
    requires WellFormed(nodes) && path in nodes && path != ROOT
    ensures HasDescendant(nodes, path) <==> Children(nodes, path) != {}
  {
    if HasDescendant(nodes, path) {
      var k :| k in nodes && StartsWith(k, path + "/");
      var child := DescendantGivesChild(nodes, path, k);
    }
    if k :| k in Children(nodes, path) {
      ChildExtends(k, path);
    }
  }

  /** The paths reached by listing `rounds` levels down from root. */
  function Reached(nodes: Tree, rounds: nat): (reached: set<string>)
    ensures reached <= nodes.Keys + {ROOT}
  {
    if rounds == 0 then {ROOT} else NextRound(nodes, Reached(nodes, rounds - 1))
  }

  function NextRound(nodes: Tree, above: set<string>): (next: set<string>)
    ensures next <= nodes.Keys + above
  {
    above + set k | k in nodes && ListedUnder(k, above)
  }

  predicate ListedUnder(key: string, directories: set<string>)
  {
    exists d :: d in directories && IsListed(key, d)
  }

  lemma {:induction false} ReachedGrows(nodes: Tree, m: nat, n: nat)
    requires m <= n
    ensures Reached(nodes, m) <= Reached(nodes, n)
    decreases n
  {
    if m < n {
      ReachedGrows(nodes, m, n - 1);
    }
  }

  lemma {:induction false} ListedByParent(nodes: Tree, key: string)
    requires WellFormed(nodes) && CanonicalKeys(nodes) && key in nodes && key != ROOT
    ensures Parent(key).Some? && Parent(key).value in nodes && |Parent(key).value| < |key|
    ensures IsListed(key, Parent(key).value)
  {
    assert HasDirectoryParent(nodes, key);
    ParentThenJoin(key);
    JoinThenParent(Parent(key).value, Name(key).value);
    CanonicalNeverHidden(key, Parent(key).value);
    ListedIff(key, Parent(key).value);
  }

  lemma {:induction false} JoinsNextRound(nodes: Tree, key: string, directory: string, above: set<string>, next: set<string>)
    requires key in nodes && directory in above && IsListed(key, directory) && next == NextRound(nodes, above)
    ensures key in next
  {
    assert ListedUnder(key, above);
  }

  lemma {:induction false} RootIsReached(nodes: Tree, n: nat)
    ensures ROOT in Reached(nodes, n)
  {
    ReachedGrows(nodes, 0, n);
  }

  /** Every key but root is listed under a shorter one. */
  predicate Linked(nodes: Tree, up: map<string, string>)
  {
    && up.Keys == nodes.Keys - {ROOT}
    && forall k {:trigger up[k]} :: k in up ==> up[k] in nodes && |up[k]| < |k| && IsListed(k, up[k])
  }

  lemma {:induction false} TreeIsLinked(nodes: Tree) returns (up: map<string, string>)
    requires WellFormed(nodes) && CanonicalKeys(nodes)
    ensures Linked(nodes, up)
  {
    up := map k | k in nodes && k != ROOT :: if Parent(k).Some? then Parent(k).value else ROOT;
    forall k | k in up
      ensures up[k] in nodes && |up[k]| < |k| && IsListed(k, up[k])
    {
      ListedByParent(nodes, k);
    }
  }

  lemma {:induction false} LinkedIsReached(nodes: Tree, up: map<string, string>, key: string, n: nat)
    requires Linked(nodes, up) && key in nodes && |key| <= n
    ensures key in Reached(nodes, n)
    decreases n
  {
    if key == ROOT {
      RootIsReached(nodes, n);
    } else {
      var parent := up[key];
      LinkedIsReached(nodes, up, parent, n - 1);
      JoinsNextRound(nodes, key, parent, Reached(nodes, n - 1), Reached(nodes, n));
    }
  }

  /** Listing level by level from root reaches each node within its path length. */
  lemma {:induction false} NodeIsReached(nodes: Tree, key: string, n: nat)
    requires WellFormed(nodes) && CanonicalKeys(nodes) && key in nodes && |key| <= n
    ensures key in Reached(nodes, n)
  {
    var up := TreeIsLinked(nodes);
    LinkedIsReached(nodes, up, key, n);
  }

  /** Listing from root deep enough reaches every node and nothing else. */
  lemma {:induction false} TreeIsReached(nodes: Tree, depth: nat)
    requires WellFormed(nodes) && CanonicalKeys(nodes) && forall k :: k in nodes ==> |k| <= depth
    ensures Reached(nodes, depth) == nodes.Keys
  {
    forall k | k in nodes
      ensures k in Reached(nodes, depth)
    {
      NodeIsReached(nodes, k, depth);
    }
    assert Reached(nodes, depth) <= nodes.Keys + {ROOT} == nodes.Keys;
  }

  /**
   * The whole picture for every run over canonical paths: in the reached state, listing a
   * directory gives its children by `parent()`, the scan in `remove` agrees with `list`,
   * and repeated listing from root reaches every node and nothing else.
   */
  lemma {:induction false} RunListsTheTree(calls: seq<Call>, path: string, depth: nat)
    requires forall i :: 0 <= i < |calls| ==> CanonicalCall(calls[i])
    requires path in Run(START, calls).nodes
    requires forall k :: k in Run(START, calls).nodes ==> |k| <= depth
    ensures Listed(Run(START, calls).nodes, path) == Children(Run(START, calls).nodes, path)
    ensures path != ROOT ==>
              (HasDescendant(Run(START, calls).nodes, path) <==> Listed(Run(START, calls).nodes, path) != {})
    ensures Reached(Run(START, calls).nodes, depth) == Run(START, calls).nodes.Keys
  {
    RunKeepsTree(calls);
    RunKeepsCanonical(calls);
    CanonicalListing(Run(START, calls).nodes, path);
    if path != ROOT {
      ScanIffChildren(Run(START, calls).nodes, path);
    }
    TreeIsReached(Run(START, calls).nodes, depth);
  }

  /**
   * Outside canonical paths the claim fails: `join` does not normalise, so `/a/` is the
   * parent of a value `join` returns. Once created it blocks `remove("/a")` but is not listed.
   */
  lemma {:induction false} HiddenChildWitness()
    ensures Parent(Join(ROOT, "a//b")) == Some("/a/")
    ensures var nodes := Run(START, [CreateDirCall("/a"), CreateDirCall("/a/")]).nodes;
            && "/a/" in Children(nodes, "/a")
            && Listed(nodes, "/a") == {}
            && RemoveStep(nodes, "/a").result == Err(DirectoryNotEmpty)
  {
    assert TrimSlashes("a//b") == "a//b";
    assert Join(ROOT, "a//b") == "/a//b";
    LastSlashOf("/a/", "b");
    assert "/a/" + "/" + "b" == "/a//b" && "/a//b"[..3] == "/a/";
    LastSlashOf("", "a");
    assert "" + "/" + "a" == "/a";
    LastSlashOf("/a", "");
    assert "/a" + "/" + "" == "/a/" && "/a/"[..2] == "/a";
    assert Parent("/a") == Some(ROOT) && Parent("/a/") == Some("/a");
    var c0, c1 := CreateDirCall("/a"), CreateDirCall("/a/");
    var one := Step(START, c0);
    assert one.nodes == FRESH["/a" := EMPTY_DIR];
    var two := Step(one, c1);
    assert two.nodes == one.nodes["/a/" := EMPTY_DIR];
    assert Front([c0, c1]) == [c0] && Front([c0]) == [];
    assert Run(START, [c0]) == Step(Run(START, []), c0);
    assert Run(START, [c0, c1]) == two;
    assert StartsWith("/a/", "/a" + "/");
  }

  /** `remove` undoes a successful `create_dir` exactly. */
  lemma {:induction false} CreateThenRemove(nodes: Tree, path: string)
    requires WellFormed(nodes) && Absolute(path)
    requires CreateDirStep(nodes, path).result.Ok?
    ensures RemoveStep(CreateDirStep(nodes, path).nodes, path) == Outcome(nodes, Ok(Unit))
  {
    var made := CreateDirStep(nodes, path).nodes;
    StepKeepsTree(Sys(nodes, []), CreateDirCall(path));
    ScanIffChildren(made, path);
    forall k | k in made
      ensures Parent(k) != Some(path)
    {
      assert k in nodes && k != ROOT ==> HasDirectoryParent(nodes, k);
    }
    assert Children(made, path) == {};
    assert made - {path} == nodes;
  }

  // ---------------------------------------------------------------- when calls succeed

  predicate IsFile(nodes: Tree, p: string) { p in nodes && nodes[p].kind == File }

  predicate IsDirectory(nodes: Tree, p: string) { p in nodes && nodes[p].kind == Directory }

  /**
   * A removal succeeds exactly for a file or a directory without children, other than root, and
   * then takes exactly that node; every refusal changes nothing and says why.
   */
  lemma {:induction false} RemoveIff(nodes: Tree, path: string)
    requires WellFormed(nodes) && Absolute(path)
    ensures var o := RemoveStep(nodes, path);
            && (o.result.Ok? <==> path != ROOT && (IsFile(nodes, path) || (IsDirectory(nodes, path) && Children(nodes, path) == {})))
            && o.nodes == (if o.result.Ok? then nodes - {path} else nodes)
            && (path == ROOT ==> o.result == Err(PermissionDenied(ROOT)))
            && (path !in nodes ==> o.result == Err(NotFound(path)))
            && (path != ROOT && IsDirectory(nodes, path) && Children(nodes, path) != {} ==> o.result == Err(DirectoryNotEmpty))
  {
    if path != ROOT && path in nodes {
      ScanIffChildren(nodes, path);
    }
  }

  /**
   * An open succeeds exactly for an existing file not asked to be new, or for a missing path
   * asked to be created below a directory; afterwards the path holds a file whose old bytes are
   * kept exactly if it existed and truncation was not asked for.
   */
  lemma {:induction false} OpenIff(nodes: Tree, path: string, flags: Flags)
    requires WellFormed(nodes) && Absolute(path)
    ensures var o := OpenStep(nodes, path, flags);
            && (o.result.Ok? <==>
                  || (IsFile(nodes, path) && !(flags.create && flags.excl))
                  || (path !in nodes && flags.create && HasDirectoryParent(nodes, path)))
            && (o.result.Ok? ==>
                  o.nodes == nodes[path := Node(File, if path in nodes && !flags.trunc then nodes[path].data else [])])
            && (o.result.Err? ==> o.nodes == nodes)
  {
    if IsFile(nodes, path) {
      assert nodes[path := nodes[path]] == nodes;
    }
  }

  /** Why an open is refused. */
  lemma {:induction false} OpenErrors(nodes: Tree, path: string, flags: Flags)
    requires WellFormed(nodes) && Absolute(path)
    ensures var r := OpenStep(nodes, path, flags).result;
            && (path == ROOT ==> r == Err(KindMismatch(ROOT, File, Directory)))
            && (path != ROOT && path in nodes && flags.create && flags.excl ==> r == Err(AlreadyExists(path)))
            && (path != ROOT && IsDirectory(nodes, path) && !(flags.create && flags.excl) ==>
                  r == Err(KindMismatch(path, File, Directory)))
            && (path !in nodes && !flags.create ==> r == Err(NotFound(path)))
            && (path !in nodes && flags.create && Parent(path).Some? ==>
                  && (Parent(path).value !in nodes ==> r == Err(NotFound(Parent(path).value)))
                  && (IsFile(nodes, Parent(path).value) ==> r == Err(KindMismatch(Parent(path).value, Directory, File))))
  {
  }

  /** A directory is made exactly at a missing path below a directory, and is empty; every refusal says why. */
  lemma {:induction false} CreateDirIff(nodes: Tree, path: string)
    requires WellFormed(nodes) && Absolute(path)
    ensures var o := CreateDirStep(nodes, path);
            && (o.result.Ok? <==> path !in nodes && HasDirectoryParent(nodes, path))
            && o.nodes == (if o.result.Ok? then nodes[path := EMPTY_DIR] else nodes)
            && (path == ROOT ==> o.result == Err(InvalidPath(ROOT)))
            && (path != ROOT && path in nodes ==> o.result == Err(AlreadyExists(path)))
            && (path !in nodes && Parent(path).Some? ==>
                  && (Parent(path).value !in nodes ==> o.result == Err(NotFound(Parent(path).value)))
                  && (IsFile(nodes, Parent(path).value) ==> o.result == Err(KindMismatch(Parent(path).value, Directory, File))))
  {
    if path != ROOT && path in nodes {
      assert HasDirectoryParent(nodes, path);
    }
  }

  /** A handle works exactly while a file stands at its path; reads and writes of anything else say what they found. */
  lemma {:induction false} HandleIff(nodes: Tree, path: string, offset: nat, len: nat, chunk: seq<Byte>)
    ensures var r, w := ReadStep(nodes, path, offset, len), WriteStep(nodes, path, offset, chunk);
            && (r.Ok? <==> IsFile(nodes, path))
            && (w.result.Ok? <==> IsFile(nodes, path))
            && (w.result.Ok? ==> w.result.value == |chunk|)
            && (path !in nodes ==> r == Err(NotFound(path)) && w.result == Err(NotFound(path)))
            && (IsDirectory(nodes, path) ==>
                  r == Err(KindMismatch(path, File, Directory)) && w.result == Err(KindMismatch(path, File, Directory)))
  {
  }

  /** A read returns the bytes of the range that exist, in order. */
  lemma {:induction false} ReadBytesAt(data: seq<Byte>, offset: nat, len: nat)
    ensures var r := ReadBytes(data, offset, len);
            && |r| == (if offset + len <= |data| then len else if offset <= |data| then |data| - offset else 0)
            && forall i :: 0 <= i < |r| ==> r[i] == data[offset + i]
  {
  }

  /** The call is a successful exclusive create of `p`. */
  predicate CreatesNew(sys: Sys, call: Call, p: string)
  {
    call.OpenCall? && call.path == p && call.flags.create && call.flags.excl && !Fails(sys, call)
  }

  predicate Removes(sys: Sys, call: Call, p: string)
  {
    call == RemoveCall(p) && !Fails(sys, call)
  }

  lemma {:induction false} StaysUnlessRemoved(sys: Sys, calls: seq<Call>, p: string)
    requires p in sys.nodes
    requires forall k :: 0 <= k < |calls| ==> !Removes(Run(sys, calls[..k]), calls[k], p)
    ensures p in Run(sys, calls).nodes
    decreases |calls|
  {
    if calls != [] {
      var init := Front(calls);
      forall k | 0 <= k < |init|
        ensures !Removes(Run(sys, init[..k]), init[k], p)
      {
        assert init[..k] == calls[..k];
      }
      StaysUnlessRemoved(sys, init, p);
      assert calls[..|init|] == init;
      StepFrame(Run(sys, init), Last(calls), p);
    }
  }

  /** In every run, between two successful exclusive creates of one path the path was removed. */
  lemma {:induction false} ExclusiveCreateIsExclusive(sys: Sys, first: Call, between: seq<Call>, second: Call, p: string)
    requires CreatesNew(sys, first, p) && CreatesNew(Run(Step(sys, first), between), second, p)
    ensures exists k :: 0 <= k < |between| && Removes(Run(Step(sys, first), between[..k]), between[k], p)
  {
    if forall k :: 0 <= k < |between| ==> !Removes(Run(Step(sys, first), between[..k]), between[k], p) {
      StaysUnlessRemoved(Step(sys, first), between, p);
    }
  }

  // ---------------------------------------------------------------- file contents

  datatype Write = Write(offset: nat, chunk: seq<Byte>)

  function ApplyWrites(data: seq<Byte>, writes: seq<Write>): seq<Byte>
  {
    if writes == [] then data
    else WriteBytes(ApplyWrites(data, Front(writes)), Last(writes).offset, Last(writes).chunk)
  }

  /** The byte a reader expects at `i`: from the last write covering it, else zero. */
  function LastWritten(writes: seq<Write>, i: nat): Byte
  {
    if writes == [] then 0
    else
      var w := Last(writes);
      if w.offset <= i < w.offset + |w.chunk| then w.chunk[i - w.offset] else LastWritten(Front(writes), i)
  }

  /** The furthest end of any write, empty ones included. */
  function FurthestEnd(writes: seq<Write>): nat
  {
    if writes == [] then 0
    else
      var end := Last(writes).offset + |Last(writes).chunk|;
      if end > FurthestEnd(Front(writes)) then end else FurthestEnd(Front(writes))
  }

  lemma {:induction false} WriteBytesAt(data: seq<Byte>, offset: nat, chunk: seq<Byte>)
    ensures |WriteBytes(data, offset, chunk)| == if offset + |chunk| > |data| then offset + |chunk| else |data|
    ensures forall i :: 0 <= i < |WriteBytes(data, offset, chunk)| ==>
              WriteBytes(data, offset, chunk)[i] ==
                if offset <= i < offset + |chunk| then chunk[i - offset]
                else if i < |data| then data[i]
                else 0
  {
    var needed := offset + |chunk|;
    var padded := if needed > |data| then data + Zeros(needed - |data|) else data;
    assert WriteBytes(data, offset, chunk) == padded[..offset] + chunk + padded[needed..];
  }

  /** Reading back the written range returns the chunk; ranges the write does not meet read as before. */
  lemma {:induction false} WriteThenRead(data: seq<Byte>, offset: nat, chunk: seq<Byte>, from: nat, len: nat)
    ensures ReadBytes(WriteBytes(data, offset, chunk), offset, |chunk|) == chunk
    ensures from + len <= offset && from + len <= |data| ==>
              ReadBytes(WriteBytes(data, offset, chunk), from, len) == ReadBytes(data, from, len)
    ensures offset + |chunk| <= from && from + len <= |data| ==>
              ReadBytes(WriteBytes(data, offset, chunk), from, len) == ReadBytes(data, from, len)
  {
    WriteBytesAt(data, offset, chunk);
  }

  /** For any sequence of writes to a new file, the last writer of each byte wins and gaps are zero. */
  lemma {:induction false} LastWriterWins(writes: seq<Write>)
    ensures |ApplyWrites([], writes)| == FurthestEnd(writes)
    ensures forall i :: 0 <= i < |ApplyWrites([], writes)| ==> ApplyWrites([], writes)[i] == LastWritten(writes, i)
    ensures forall i: nat :: i >= FurthestEnd(writes) ==> LastWritten(writes, i) == 0
    decreases |writes|
  {
    if writes != [] {
      LastWriterWins(Front(writes));
      WriteBytesAt(ApplyWrites([], Front(writes)), Last(writes).offset, Last(writes).chunk);
    }
  }

  /** The call creates the file at `p` or truncates it. */
  predicate Empties(sys: Sys, call: Call, p: string)
  {
    call.OpenCall? && call.path == p && !Fails(sys, call) && (call.flags.trunc || p !in sys.nodes)
  }

  /** The writes through any handle that have met the file at `p` since it was last created or truncated. */
  function WritesSince(calls: seq<Call>, p: string): seq<Write>
  {
    if calls == [] then []
    else
      var sys, call, earlier := Run(START, Front(calls)), Last(calls), WritesSince(Front(calls), p);
      if Empties(sys, call, p) then []
      else if call.WriteCall? && Target(sys, call) == p && !Fails(sys, call) then earlier + [Write(call.offset, call.chunk)]
      else earlier
  }

  /** What a call does to a file that is there afterwards. */
  lemma {:induction false} StepContent(sys: Sys, call: Call, p: string)
    requires p in Step(sys, call).nodes && Step(sys, call).nodes[p].kind == File
    ensures Empties(sys, call, p) ==> Step(sys, call).nodes[p].data == []
    ensures !Empties(sys, call, p) ==> p in sys.nodes && sys.nodes[p].kind == File
    ensures !Empties(sys, call, p) ==>
              Step(sys, call).nodes[p].data ==
              if call.WriteCall? && Target(sys, call) == p && !Fails(sys, call) then WriteBytes(sys.nodes[p].data, call.offset, call.chunk)
              else sys.nodes[p].data
  {
    StepFrame(sys, call, p);
  }

  lemma {:induction false} ContentIsWrites(calls: seq<Call>, p: string)
    requires p in Run(START, calls).nodes && Run(START, calls).nodes[p].kind == File
    ensures Run(START, calls).nodes[p].data == ApplyWrites([], WritesSince(calls, p))
    decreases |calls|
  {
    assert p == ROOT ==> FRESH[p].kind == Directory;
    if calls != [] {
      var sys, call, earlier := Run(START, Front(calls)), Last(calls), WritesSince(Front(calls), p);
      StepContent(sys, call, p);
      if !Empties(sys, call, p) {
        ContentIsWrites(Front(calls), p);
        if call.WriteCall? && Target(sys, call) == p && !Fails(sys, call) {
          var w := Write(call.offset, call.chunk);
          assert Front(earlier + [w]) == earlier && Last(earlier + [w]) == w;
        }
      }
    }
  }

  /**
   * In every run, whatever else happens in the tree and however many handles interleave: each
   * byte of a file is that of the last write covering it since the file was created or
   * truncated, zero if none does, and the file ends at the furthest end of those writes.
   */
  lemma {:induction false} RunLastWriterWins(calls: seq<Call>, p: string)
    requires p in Run(START, calls).nodes && Run(START, calls).nodes[p].kind == File
    ensures var data, writes := Run(START, calls).nodes[p].data, WritesSince(calls, p);
            |data| == FurthestEnd(writes) && forall i :: 0 <= i < |data| ==> data[i] == LastWritten(writes, i)
  {
    ContentIsWrites(calls, p);
    LastWriterWins(WritesSince(calls, p));
  }
}
