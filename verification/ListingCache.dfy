/**
 * `FileListingCache` (apps/vfs-desktop/src/utils/file-cache.ts): a bounded cache of directory
 * listings with a time to live, over a JavaScript `Map`, which iterates in insertion order.
 */
module ListingCache {
  import opened Common

  const MAX_CACHE_SIZE: nat := 100

  type Listing = seq<string>

  datatype Entry = Entry(files: Listing, timestamp: int)

  /** Insertion order of the keys, and their entries. */
  datatype Cache = Cache(order: seq<string>, entries: map<string, Entry>)

  const EMPTY := Cache([], map[])

  function KeyOf(sourceId: string, path: string): string { sourceId + ":" + path }

  function Without(order: seq<string>, key: string): seq<string>
  {
    if order == [] then []
    else if Last(order) == key then Without(Front(order), key)
    else Without(Front(order), key) + [Last(order)]
  }

  function Delete(c: Cache, key: string): Cache
  {
    Cache(Without(c.order, key), c.entries - {key})
  }

  /** `Map.set`: an existing key keeps its place in the order. */
  function Put(c: Cache, key: string, e: Entry): Cache
  {
    Cache(if key in c.entries then c.order else c.order + [key], c.entries[key := e])
  }

  function GetStep(c: Cache, ttl: int, sourceId: string, path: string, now: int): (Cache, Option<Listing>)
  {
    var key := KeyOf(sourceId, path);
    if key !in c.entries then (c, None)
    else if now - c.entries[key].timestamp > ttl then (Delete(c, key), None)
    else (c, Some(c.entries[key].files))
  }

  function SetStep(c: Cache, sourceId: string, path: string, files: Listing, now: int): Cache
  {
    var key := KeyOf(sourceId, path);
    var room := if |c.entries| >= MAX_CACHE_SIZE && key !in c.entries && c.order != [] then Delete(c, c.order[0]) else c;
    Put(room, key, Entry(files, now))
  }

  function DeleteAll(c: Cache, keys: seq<string>): Cache
  {
    if keys == [] then c else Delete(DeleteAll(c, Front(keys)), Last(keys))
  }

  function KeysOfSource(order: seq<string>, sourceId: string): seq<string>
  {
    if order == [] then []
    else KeysOfSource(Front(order), sourceId) + if StartsWith(Last(order), sourceId + ":") then [Last(order)] else []
  }

  function InvalidateSourceStep(c: Cache, sourceId: string): Cache
  {
    DeleteAll(c, KeysOfSource(c.order, sourceId))
  }

  class FileListingCache {
    const ttl: int
    var order: seq<string>
    var entries: map<string, Entry>

    ghost function View(): Cache
      reads this
    {
      Cache(order, entries)
    }

    constructor (ttl: int)
      ensures View() == EMPTY && this.ttl == ttl
    {
      this.ttl := ttl;
      order, entries := [], map[];
    }

    method Get(sourceId: string, path: string, now: int) returns (r: Option<Listing>)
      modifies this
      ensures (View(), r) == GetStep(old(View()), ttl, sourceId, path, now)
    {
      var key := KeyOf(sourceId, path);
      if key !in entries {
        return None;
      }
      if now - entries[key].timestamp > ttl {
        order := Without(order, key);
        entries := entries - {key};
        return None;
      }
      r := Some(entries[key].files);
    }

    method Set(sourceId: string, path: string, files: Listing, now: int)
      modifies this
      ensures View() == SetStep(old(View()), sourceId, path, files, now)
    {
      var key := KeyOf(sourceId, path);
      if |entries| >= MAX_CACHE_SIZE && key !in entries {
        if order != [] {
          var first := order[0];
          order := Without(order, first);
          entries := entries - {first};
        }
      }
      if key !in entries {
        order := order + [key];
      }
      entries := entries[key := Entry(files, now)];
    }

    method Invalidate(sourceId: string, path: string)
      modifies this
      ensures View() == Delete(old(View()), KeyOf(sourceId, path))
    {
      var key := KeyOf(sourceId, path);
      order := Without(order, key);
      entries := entries - {key};
    }

    method InvalidateSource(sourceId: string)
      modifies this
      ensures View() == InvalidateSourceStep(old(View()), sourceId)
    {
      var keysToDelete: seq<string> := [];
      for i := 0 to |order|
        invariant keysToDelete == KeysOfSource(order[..i], sourceId)
        invariant View() == old(View())
      {
        assert Front(order[..i + 1]) == order[..i];
        if StartsWith(order[i], sourceId + ":") {
          keysToDelete := keysToDelete + [order[i]];
        }
      }
      assert order[..|order|] == order;
      for i := 0 to |keysToDelete|
        invariant View() == DeleteAll(old(View()), keysToDelete[..i])
      {
        assert Front(keysToDelete[..i + 1]) == keysToDelete[..i];
        order := Without(order, keysToDelete[i]);
        entries := entries - {keysToDelete[i]};
      }
      assert keysToDelete[..|keysToDelete|] == keysToDelete;
    }
  }

  // ---------------------------------------------------------------- runs and the reference

  datatype Command =
    | Get(sourceId: string, path: string, now: int)
    | Set(sourceId: string, path: string, files: Listing, now: int)
    | Invalidate(sourceId: string, path: string)
    | InvalidateSource(sourceId: string)

  function Step(c: Cache, ttl: int, cmd: Command): Cache
  {
    match cmd
    case Get(s, p, now) => GetStep(c, ttl, s, p, now).0
    case Set(s, p, files, now) => SetStep(c, s, p, files, now)
    case Invalidate(s, p) => Delete(c, KeyOf(s, p))
    case InvalidateSource(s) => InvalidateSourceStep(c, s)
  }

  function Run(ttl: int, cmds: seq<Command>): Cache
  {
    if cmds == [] then EMPTY else Step(Run(ttl, Front(cmds)), ttl, Last(cmds))
  }

  /** The latest set for this very pair that nothing has invalidated since. */
  function Latest(cmds: seq<Command>, sourceId: string, path: string): Option<Entry>
  {
    if cmds == [] then None
    else match Last(cmds)
      case Set(s, p, files, now) =>
        if s == sourceId && p == path then Some(Entry(files, now)) else Latest(Front(cmds), sourceId, path)
      case Invalidate(s, p) =>
        if s == sourceId && p == path then None else Latest(Front(cmds), sourceId, path)
      case InvalidateSource(s) =>
        if s == sourceId then None else Latest(Front(cmds), sourceId, path)
      case Get(_, _, _) => Latest(Front(cmds), sourceId, path)
  }

  predicate ColonFree(s: string) { ':' !in s }

  predicate ColonFreeAll(cmds: seq<Command>)
  {
    forall i :: 0 <= i < |cmds| ==> ColonFree(cmds[i].sourceId)
  }

  /** For colon-free sources a key belongs to one pair and starts with one source prefix. */
  lemma {:induction false} KeysAreUnambiguous(a: string, p: string, b: string, q: string)
    requires ColonFree(a) && ColonFree(b)
    ensures KeyOf(a, p) == KeyOf(b, q) <==> a == b && p == q
    ensures StartsWith(KeyOf(a, p), b + ":") <==> a == b
  {
    var k, prefix := KeyOf(a, p), b + ":";
    forall n | 0 <= n < |a|
      ensures k[n] != ':'
    {
      assert k[n] == a[n] && a[n] in a;
    }
    forall n | 0 <= n < |b|
      ensures prefix[n] != ':'
    {
      assert prefix[n] == b[n] && b[n] in b;
    }
    if StartsWith(k, prefix) {
      assert forall n :: 0 <= n < |prefix| ==> k[n] == prefix[n];
      assert k[|a|] == ':' && k[|b|] == ':';
      assert |a| == |b|;
      assert a == k[..|a|] && b == prefix[..|b|];
    }
    if k == KeyOf(b, q) {
      assert k[..|b| + 1] == prefix;
      assert p == k[|a| + 1..] && q == k[|b| + 1..];
    }
    if a == b {
      assert k[..|b| + 1] == prefix;
    }
  }

  /** Some other pair has the key of this one. */
  ghost predicate KeyIsShared(sourceId: string, path: string)
  {
    exists s, p :: (s != sourceId || p != path) && KeyOf(s, p) == KeyOf(sourceId, path)
  }

  lemma {:induction false} ColonMoves(a: string, b: string, p: string)
    ensures KeyOf(a + ":" + b, p) == KeyOf(a, b + ":" + p)
    ensures a != a + ":" + b
  {
    assert a + ":" + b + ":" + p == a + ":" + (b + ":" + p);
    assert |a + ":" + b| > |a|;
  }

  /** Two pairs share a key exactly when a colon stands in the source id or in the path. */
  lemma {:induction false} ColonsCollide(sourceId: string, path: string)
    ensures KeyIsShared(sourceId, path) <==> ':' in sourceId || ':' in path
  {
    if ':' in sourceId {
      var i :| 0 <= i < |sourceId| && sourceId[i] == ':';
      assert sourceId == sourceId[..i] + ":" + sourceId[i + 1..];
      ColonMoves(sourceId[..i], sourceId[i + 1..], path);
    } else if ':' in path {
      var i :| 0 <= i < |path| && path[i] == ':';
      assert path == path[..i] + ":" + path[i + 1..];
      ColonMoves(sourceId, path[..i], path[i + 1..]);
    } else {
      forall s, p | KeyOf(s, p) == KeyOf(sourceId, path)
        ensures s == sourceId && p == path
      {
        ColonFreeTail(s, p, sourceId, path);
      }
    }
  }

  lemma {:induction false} ColonFreeTail(s: string, p: string, sourceId: string, path: string)
    requires KeyOf(s, p) == KeyOf(sourceId, path) && ':' !in sourceId && ':' !in path
    ensures s == sourceId && p == path
  {
    var k := KeyOf(sourceId, path);
    assert k[|s|] == ':' by { assert KeyOf(s, p)[|s|] == ':'; }
    assert forall n :: 0 <= n < |sourceId| ==> k[n] == sourceId[n];
    assert forall n :: |sourceId| < n < |k| ==> k[n] == path[n - |sourceId| - 1];
    assert |s| == |sourceId|;
    assert s == k[..|s|] && p == k[|s| + 1..];
    assert sourceId == k[..|s|] && path == k[|s| + 1..];
  }

  predicate Distinct(order: seq<string>)
  {
    forall i, j :: 0 <= i < j < |order| ==> order[i] != order[j]
  }

  /** The order lists exactly the stored keys, each once, and there are at most 100. */
  predicate Ordered(c: Cache)
  {
    Distinct(c.order) && (set k | k in c.order) == c.entries.Keys && |c.entries| == |c.order| <= MAX_CACHE_SIZE
  }

  lemma {:induction false} WithoutMembers(order: seq<string>, key: string, k: string)
    ensures k in Without(order, key) <==> k in order && k != key
    decreases |order|
  {
    if order != [] {
      WithoutMembers(Front(order), key, k);
      assert order == Front(order) + [Last(order)];
    }
  }

  lemma {:induction false} WithoutShape(order: seq<string>, key: string)
    requires Distinct(order)
    ensures Distinct(Without(order, key))
    ensures |Without(order, key)| == if key in order then |order| - 1 else |order|
    decreases |order|
  {
    if order != [] {
      var init, last := Front(order), Last(order);
      WithoutShape(init, key);
      WithoutMembers(init, key, last);
      assert order == init + [last];
      assert last !in init;
    }
  }

  lemma {:induction false} WithoutIs(order: seq<string>, key: string)
    requires Distinct(order)
    ensures Distinct(Without(order, key))
    ensures (set k | k in Without(order, key)) == (set k | k in order) - {key}
    ensures |Without(order, key)| == if key in order then |order| - 1 else |order|
  {
    WithoutShape(order, key);
    forall k
      ensures k in Without(order, key) <==> k in order && k != key
    {
      WithoutMembers(order, key, k);
    }
  }

  lemma {:induction false} DeleteIsOrdered(c: Cache, key: string)
    requires Ordered(c)
    ensures Ordered(Delete(c, key))
  {
    WithoutIs(c.order, key);
    var d := Delete(c, key);
    assert key in c.entries <==> key in c.order by { assert key in c.entries.Keys <==> key in set k | k in c.order; }
    assert d.entries.Keys == c.entries.Keys - {key};
    assert |d.entries.Keys| == |d.entries| && |c.entries.Keys| == |c.entries|;
  }

  lemma {:induction false} DeleteAllIsOrdered(c: Cache, keys: seq<string>)
    requires Ordered(c)
    ensures Ordered(DeleteAll(c, keys))
    decreases |keys|
  {
    if keys != [] {
      DeleteAllIsOrdered(c, Front(keys));
      DeleteIsOrdered(DeleteAll(c, Front(keys)), Last(keys));
    }
  }

  lemma {:induction false} DeleteAllEntries(c: Cache, keys: seq<string>, k: string)
    ensures k in DeleteAll(c, keys).entries <==> k in c.entries && k !in keys
    ensures k in DeleteAll(c, keys).entries ==> DeleteAll(c, keys).entries[k] == c.entries[k]
    decreases |keys|
  {
    if keys != [] {
      DeleteAllEntries(c, Front(keys), k);
      assert keys == Front(keys) + [Last(keys)];
    }
  }

  lemma {:induction false} OrderSnoc(order: seq<string>, key: string)
    requires Distinct(order) && key !in order
    ensures Distinct(order + [key]) && (set k | k in order + [key]) == (set k | k in order) + {key}
  {
  }

  lemma {:induction false} PutIsOrdered(c: Cache, key: string, e: Entry)
    requires Ordered(c) && (key in c.entries || |c.entries| < MAX_CACHE_SIZE)
    ensures Ordered(Put(c, key, e))
  {
    var d := Put(c, key, e);
    assert d.entries.Keys == c.entries.Keys + {key};
    assert |d.entries.Keys| == |d.entries| && |c.entries.Keys| == |c.entries|;
    if key in c.entries {
      assert c.entries.Keys + {key} == c.entries.Keys;
    } else {
      assert key in c.order ==> key in set k | k in c.order;
      OrderSnoc(c.order, key);
    }
  }

  lemma {:induction false} SetIsOrdered(c: Cache, sourceId: string, path: string, files: Listing, now: int)
    requires Ordered(c)
    ensures Ordered(SetStep(c, sourceId, path, files, now))
  {
    var key := KeyOf(sourceId, path);
    if |c.entries| >= MAX_CACHE_SIZE && key !in c.entries {
      var room := Delete(c, c.order[0]);
      DeleteIsOrdered(c, c.order[0]);
      WithoutIs(c.order, c.order[0]);
      PutIsOrdered(room, key, Entry(files, now));
    } else {
      PutIsOrdered(c, key, Entry(files, now));
    }
  }

  /** In every run the cache holds at most 100 listings and its order is exact. */
  lemma {:induction false} RunIsOrdered(ttl: int, cmds: seq<Command>)
    ensures Ordered(Run(ttl, cmds)) && |Run(ttl, cmds).entries| <= 100
    decreases |cmds|
  {
    if cmds != [] {
      RunIsOrdered(ttl, Front(cmds));
      var c, cmd := Run(ttl, Front(cmds)), Last(cmds);
      match cmd
      case Get(s, p, _) => DeleteIsOrdered(c, KeyOf(s, p));
      case Set(s, p, files, now) => SetIsOrdered(c, s, p, files, now);
      case Invalidate(s, p) => DeleteIsOrdered(c, KeyOf(s, p));
      case InvalidateSource(s) => DeleteAllIsOrdered(c, KeysOfSource(c.order, s));
    }
  }

  lemma {:induction false} KeysOfSourceIs(order: seq<string>, sourceId: string, k: string)
    ensures k in KeysOfSource(order, sourceId) <==> k in order && StartsWith(k, sourceId + ":")
    decreases |order|
  {
    if order != [] {
      KeysOfSourceIs(Front(order), sourceId, k);
      assert order == Front(order) + [Last(order)];
    }
  }

  /** Whatever is stored under a pair's key is the latest set for that pair not invalidated since. */
  lemma {:induction false} StoredIsLatest(ttl: int, cmds: seq<Command>, sourceId: string, path: string)
    requires ColonFreeAll(cmds) && ColonFree(sourceId)
    ensures var c := Run(ttl, cmds);
            KeyOf(sourceId, path) in c.entries ==> Latest(cmds, sourceId, path) == Some(c.entries[KeyOf(sourceId, path)])
    decreases |cmds|
  {
    if cmds != [] {
      var before, cmd := Front(cmds), Last(cmds);
      var c, key := Run(ttl, before), KeyOf(sourceId, path);
      StoredIsLatest(ttl, before, sourceId, path);
      match cmd
      case Get(s, p, now) => assert GetStep(c, ttl, s, p, now).0 in {c, Delete(c, KeyOf(s, p))};
      case Set(s, p, files, now) => KeysAreUnambiguous(s, p, sourceId, path);
      case Invalidate(s, p) => KeysAreUnambiguous(s, p, sourceId, path);
      case InvalidateSource(s) =>
        RunIsOrdered(ttl, before);
        DeleteAllEntries(c, KeysOfSource(c.order, s), key);
        KeysOfSourceIs(c.order, s, key);
        assert key in c.entries.Keys <==> key in set k | k in c.order;
        KeysAreUnambiguous(sourceId, path, s, "");
    }
  }

  /** Every hit is the latest uninvalidated set for that very pair and no older than the time to live. */
  lemma {:induction false} HitIsFreshAndLatest(ttl: int, cmds: seq<Command>, sourceId: string, path: string, now: int)
    requires ColonFreeAll(cmds) && ColonFree(sourceId)
    requires GetStep(Run(ttl, cmds), ttl, sourceId, path, now).1.Some?
    ensures var latest := Latest(cmds, sourceId, path);
            && latest.Some? && now - latest.value.timestamp <= ttl
            && GetStep(Run(ttl, cmds), ttl, sourceId, path, now).1 == Some(latest.value.files)
  {
    StoredIsLatest(ttl, cmds, sourceId, path);
  }

  /** After a lookup the key is stored exactly if it was a hit, so an expired listing is gone; other keys are untouched. */
  lemma {:induction false} MissLeavesNothing(c: Cache, ttl: int, sourceId: string, path: string, now: int, other: string)
    requires other != KeyOf(sourceId, path)
    ensures var (d, hit) := GetStep(c, ttl, sourceId, path, now);
            && (KeyOf(sourceId, path) in d.entries <==> hit.Some?)
            && (other in d.entries <==> other in c.entries)
            && (other in c.entries ==> d.entries[other] == c.entries[other])
  {
  }

  // ---------------------------------------------------------------- which key an insertion drops

  /** For every stored key, the position of the set that inserted it. */
  function Births(ttl: int, cmds: seq<Command>): (born: map<string, int>)
    ensures born.Keys == Run(ttl, cmds).entries.Keys
  {
    if cmds == [] then map[]
    else
      var earlier := Births(ttl, Front(cmds));
      map k | k in Run(ttl, cmds).entries :: if k in earlier then earlier[k] else |cmds| - 1
  }

  predicate SortedBy(order: seq<string>, born: map<string, int>)
  {
    && (forall i :: 0 <= i < |order| ==> order[i] in born)
    && (forall i, j :: 0 <= i < j < |order| ==> born[order[i]] < born[order[j]])
  }

  lemma {:induction false} WithoutSorted(order: seq<string>, born: map<string, int>, key: string)
    requires SortedBy(order, born)
    ensures SortedBy(Without(order, key), born)
    decreases |order|
  {
    if order != [] {
      var init, last := Front(order), Last(order);
      WithoutSorted(init, born, key);
      forall k | k in Without(init, key)
        ensures born[k] < born[last]
      {
        WithoutMembers(init, key, k);
      }
    }
  }

  lemma {:induction false} DeleteAllSorted(c: Cache, born: map<string, int>, keys: seq<string>)
    requires SortedBy(c.order, born)
    ensures SortedBy(DeleteAll(c, keys).order, born)
    decreases |keys|
  {
    if keys != [] {
      DeleteAllSorted(c, born, Front(keys));
      WithoutSorted(DeleteAll(c, Front(keys)).order, born, Last(keys));
    }
  }

  /** A command keeps the places of the keys it leaves and appends a key it inserts. */
  lemma {:induction false} StepOrder(c: Cache, born: map<string, int>, ttl: int, cmd: Command) returns (kept: seq<string>)
    requires Ordered(c) && SortedBy(c.order, born)
    ensures SortedBy(kept, born)
    ensures var d := Step(c, ttl, cmd);
            || d.order == kept
            || (cmd.Set? && KeyOf(cmd.sourceId, cmd.path) !in c.entries && d.order == kept + [KeyOf(cmd.sourceId, cmd.path)])
  {
    kept := c.order;
    match cmd
    case Get(s, p, now) =>
      WithoutSorted(c.order, born, KeyOf(s, p));
      kept := Step(c, ttl, cmd).order;
    case Invalidate(s, p) =>
      WithoutSorted(c.order, born, KeyOf(s, p));
      kept := Step(c, ttl, cmd).order;
    case InvalidateSource(s) =>
      DeleteAllSorted(c, born, KeysOfSource(c.order, s));
      kept := Step(c, ttl, cmd).order;
    case Set(s, p, _, _) =>
      if |c.entries| >= MAX_CACHE_SIZE && KeyOf(s, p) !in c.entries {
        WithoutSorted(c.order, born, c.order[0]);
        kept := Without(c.order, c.order[0]);
      }
  }

  lemma {:induction false} StoredIsListed(c: Cache, key: string)
    requires Ordered(c)
    ensures key in c.entries <==> key in c.order
  {
    assert key in c.entries.Keys <==> key in set k | k in c.order;
  }

  /** In every run the order of the map is the order in which the stored keys were inserted. */
  lemma {:induction false} OrderIsInsertionOrder(ttl: int, cmds: seq<Command>)
    ensures SortedBy(Run(ttl, cmds).order, Births(ttl, cmds))
    ensures forall k :: k in Births(ttl, cmds) ==> 0 <= Births(ttl, cmds)[k] < |cmds|
    decreases |cmds|
  {
    if cmds != [] {
      var before, cmd := Front(cmds), Last(cmds);
      var c, d := Run(ttl, before), Run(ttl, cmds);
      var earlier, born := Births(ttl, before), Births(ttl, cmds);
      OrderIsInsertionOrder(ttl, before);
      RunIsOrdered(ttl, before);
      RunIsOrdered(ttl, cmds);
      var kept := StepOrder(c, earlier, ttl, cmd);
      forall i | 0 <= i < |d.order|
        ensures d.order[i] in born
        ensures i < |kept| ==> born[d.order[i]] == earlier[kept[i]]
      {
        StoredIsListed(d, d.order[i]);
      }
    }
  }

  /** The command sets the key, or looks it up and hits. */
  predicate Uses(c: Cache, ttl: int, cmd: Command, key: string)
  {
    (cmd.Set? || (cmd.Get? && GetStep(c, ttl, cmd.sourceId, cmd.path, cmd.now).1.Some?)) &&
    KeyOf(cmd.sourceId, cmd.path) == key
  }

  /** The position of the last command that used the key, -1 if none did. */
  function LastUse(ttl: int, cmds: seq<Command>, key: string): int
  {
    if cmds == [] then -1
    else if Uses(Run(ttl, Front(cmds)), ttl, Last(cmds), key) then |cmds| - 1
    else LastUse(ttl, Front(cmds), key)
  }

  predicate LeastRecentlyUsed(ttl: int, cmds: seq<Command>, key: string)
  {
    forall k :: k in Run(ttl, cmds).entries && k != key ==> LastUse(ttl, cmds, key) < LastUse(ttl, cmds, k)
  }

  predicate UsesAt(ttl: int, cmds: seq<Command>, key: string, n: nat)
    requires n < |cmds|
  {
    Uses(Run(ttl, cmds[..n]), ttl, cmds[n], key)
  }

  /** Command `n` is a set or hit of `key` after its insertion. */
  predicate ReusedAt(ttl: int, cmds: seq<Command>, key: string, n: nat)
    requires n < |cmds| && key in Births(ttl, cmds)
  {
    Births(ttl, cmds)[key] < n && UsesAt(ttl, cmds, key, n)
  }

  /** `key` was set again or hit after the last use of another stored key. */
  predicate ReusedAfterAnother(ttl: int, cmds: seq<Command>, key: string)
    requires key in Births(ttl, cmds)
  {
    exists n, k :: 0 <= n < |cmds| && k in Run(ttl, cmds).entries && k != key &&
                   ReusedAt(ttl, cmds, key, n) && LastUse(ttl, cmds, k) < n
  }

  lemma {:induction false} StepDrops(c: Cache, ttl: int, cmd: Command, key: string)
    requires key in Step(c, ttl, cmd).entries && key !in c.entries
    ensures cmd.Set? && KeyOf(cmd.sourceId, cmd.path) == key
  {
    if cmd.InvalidateSource? {
      DeleteAllEntries(c, KeysOfSource(c.order, cmd.sourceId), key);
    }
  }

  lemma {:induction false} UsesAtFront(ttl: int, cmds: seq<Command>, key: string, n: nat)
    requires n < |cmds|
    ensures n < |cmds| - 1 ==> (UsesAt(ttl, cmds, key, n) <==> UsesAt(ttl, Front(cmds), key, n))
    ensures n == |cmds| - 1 ==> (UsesAt(ttl, cmds, key, n) <==> Uses(Run(ttl, Front(cmds)), ttl, Last(cmds), key))
  {
    assert n < |cmds| - 1 ==> Front(cmds)[..n] == cmds[..n];
  }

  lemma {:induction false} LastUseIs(ttl: int, cmds: seq<Command>, key: string)
    ensures var m := LastUse(ttl, cmds, key);
            && -1 <= m < |cmds|
            && (m >= 0 ==> UsesAt(ttl, cmds, key, m))
            && (forall n :: m < n < |cmds| ==> !UsesAt(ttl, cmds, key, n))
    decreases |cmds|
  {
    if cmds != [] {
      LastUseIs(ttl, Front(cmds), key);
      forall n | 0 <= n < |cmds|
        ensures n < |cmds| - 1 ==> (UsesAt(ttl, cmds, key, n) <==> UsesAt(ttl, Front(cmds), key, n))
        ensures n == |cmds| - 1 ==> (UsesAt(ttl, cmds, key, n) <==> Uses(Run(ttl, Front(cmds)), ttl, Last(cmds), key))
      {
        UsesAtFront(ttl, cmds, key, n);
      }
    }
  }

  /** The insertion itself is a use. */
  lemma {:induction false} UsedSinceBirth(ttl: int, cmds: seq<Command>, key: string)
    requires key in Births(ttl, cmds)
    ensures Births(ttl, cmds)[key] <= LastUse(ttl, cmds, key)
    decreases |cmds|
  {
    if key in Births(ttl, Front(cmds)) {
      UsedSinceBirth(ttl, Front(cmds), key);
      LastUseIs(ttl, Front(cmds), key);
    } else {
      StepDrops(Run(ttl, Front(cmds)), ttl, Last(cmds), key);
    }
  }

  /** Every other stored key was inserted later. */
  predicate Eldest(born: map<string, int>, key: string)
  {
    key in born && forall k :: k in born && k != key ==> born[key] < born[k]
  }

  lemma {:induction false} FirstIsEldest(ttl: int, cmds: seq<Command>, key: string)
    requires Run(ttl, cmds).order != []
    ensures Eldest(Births(ttl, cmds), key) <==> key == Run(ttl, cmds).order[0]
  {
    var c, born := Run(ttl, cmds), Births(ttl, cmds);
    RunIsOrdered(ttl, cmds);
    OrderIsInsertionOrder(ttl, cmds);
    forall k | k in born && k != c.order[0]
      ensures born[c.order[0]] < born[k]
    {
      StoredIsListed(c, k);
      var i :| 0 <= i < |c.order| && c.order[i] == k;
    }
  }

  /** Of two stored keys, the elder was used last only if it was used again after the younger's last use. */
  lemma {:induction false} ElderUsedLast(ttl: int, cmds: seq<Command>, elder: string, younger: string)
    requires elder in Births(ttl, cmds) && younger in Births(ttl, cmds)
    requires Births(ttl, cmds)[elder] < Births(ttl, cmds)[younger]
    ensures var m := LastUse(ttl, cmds, elder);
            && 0 <= m < |cmds| && m != LastUse(ttl, cmds, younger)
            && (LastUse(ttl, cmds, younger) < m ==> ReusedAt(ttl, cmds, elder, m))
            && (forall n :: 0 <= n < |cmds| && ReusedAt(ttl, cmds, elder, n) ==> n <= m)
  {
    LastUseIs(ttl, cmds, elder);
    LastUseIs(ttl, cmds, younger);
    UsedSinceBirth(ttl, cmds, younger);
    UsedSinceBirth(ttl, cmds, elder);
    OrderIsInsertionOrder(ttl, cmds);
  }

  lemma {:induction false} EldestIsLruIff(ttl: int, cmds: seq<Command>, key: string)
    requires Eldest(Births(ttl, cmds), key)
    ensures LeastRecentlyUsed(ttl, cmds, key) <==> !ReusedAfterAnother(ttl, cmds, key)
  {
    forall k | k in Run(ttl, cmds).entries && k != key
      ensures LastUse(ttl, cmds, key) < LastUse(ttl, cmds, k) <==>
              !exists n :: 0 <= n < |cmds| && ReusedAt(ttl, cmds, key, n) && LastUse(ttl, cmds, k) < n
    {
      ElderUsedLast(ttl, cmds, key, k);
    }
  }

  /**
   * The key an insertion drops when the cache is full is the first inserted one. It is the least
   * recently used one if and only if it was not set again or hit after another stored key's last use.
   */
  lemma {:induction false} VictimIsLruIff(ttl: int, cmds: seq<Command>, sourceId: string, path: string, files: Listing, now: int)
    requires |Run(ttl, cmds).entries| >= MAX_CACHE_SIZE && KeyOf(sourceId, path) !in Run(ttl, cmds).entries
    ensures var c := Run(ttl, cmds);
            && c.order != [] && Eldest(Births(ttl, cmds), c.order[0])
            && SetStep(c, sourceId, path, files, now).entries.Keys == c.entries.Keys - {c.order[0]} + {KeyOf(sourceId, path)}
            && (LeastRecentlyUsed(ttl, cmds, c.order[0]) <==> !ReusedAfterAnother(ttl, cmds, c.order[0]))
  {
    RunIsOrdered(ttl, cmds);
    FirstIsEldest(ttl, cmds, Run(ttl, cmds).order[0]);
    EldestIsLruIff(ttl, cmds, Run(ttl, cmds).order[0]);
  }

  // ---------------------------------------------------------------- the eviction is not least-recently-used

  function PathOf(i: nat): string { seq(i, _ => 'x') }

  function Sets(n: nat): seq<Command>
  {
    if n == 0 then [] else Sets(n - 1) + [Set("s", PathOf(n - 1), [], 0)]
  }

  function KeyAt(i: nat): string { KeyOf("s", PathOf(i)) }

  lemma {:induction false} KeysAtDiffer(i: nat, j: nat)
    requires i != j
    ensures KeyAt(i) != KeyAt(j)
  {
    assert |KeyAt(i)| == i + 2 && |KeyAt(j)| == j + 2;
  }

  predicate FilledTo(c: Cache, n: nat)
  {
    && Ordered(c) && |c.order| == n
    && (forall i :: 0 <= i < n ==> c.order[i] == KeyAt(i))
    && (forall k :: k in c.entries ==> c.entries[k] == Entry([], 0))
  }

  lemma {:induction false} NextKeyIsNew(c: Cache, n: nat)
    requires FilledTo(c, n)
    ensures KeyAt(n) !in c.entries
  {
    StoredIsListed(c, KeyAt(n));
    forall i | 0 <= i < |c.order|
      ensures c.order[i] != KeyAt(n)
    {
      KeysAtDiffer(i, n);
    }
  }

  lemma {:induction false} FillOneMore(c: Cache, n: nat)
    requires FilledTo(c, n) && n < MAX_CACHE_SIZE
    ensures FilledTo(SetStep(c, "s", PathOf(n), [], 0), n + 1)
  {
    NextKeyIsNew(c, n);
    PutIsOrdered(c, KeyAt(n), Entry([], 0));
    assert SetStep(c, "s", PathOf(n), [], 0) == Put(c, KeyAt(n), Entry([], 0));
  }

  lemma {:induction false} RunSnoc(ttl: int, cmds: seq<Command>, cmd: Command)
    ensures Run(ttl, cmds + [cmd]) == Step(Run(ttl, cmds), ttl, cmd)
  {
    assert Front(cmds + [cmd]) == cmds;
  }

  lemma {:induction false} EmptyIsFilled()
    ensures FilledTo(EMPTY, 0)
  {
  }

  lemma {:induction false} RunNext(ttl: int, n: nat)
    requires n > 0
    ensures Run(ttl, Sets(n)) == SetStep(Run(ttl, Sets(n - 1)), "s", PathOf(n - 1), [], 0)
  {
    RunSnoc(ttl, Sets(n - 1), Set("s", PathOf(n - 1), [], 0));
  }

  lemma {:induction false} FillFrom(c: Cache, d: Cache, n: nat)
    requires 0 < n <= MAX_CACHE_SIZE && FilledTo(c, n - 1) && d == SetStep(c, "s", PathOf(n - 1), [], 0)
    ensures FilledTo(d, n)
  {
    FillOneMore(c, n - 1);
  }

  lemma {:induction false} SetsFill(ttl: int, n: nat)
    requires n <= MAX_CACHE_SIZE
    ensures FilledTo(Run(ttl, Sets(n)), n)
    decreases n
  {
    if n == 0 {
      EmptyIsFilled();
      assert Run(ttl, Sets(n)) == EMPTY;
    } else {
      SetsFill(ttl, n - 1);
      RunNext(ttl, n);
      FillFrom(Run(ttl, Sets(n - 1)), Run(ttl, Sets(n)), n);
    }
  }

  /** A run whose last lookup hit the first inserted key, which the next insertion then drops. */
  lemma {:induction false} HitKeyIsDropped(ttl: int)
    requires ttl >= 0
    ensures var full := Sets(MAX_CACHE_SIZE);
            var cmds := full + [Get("s", PathOf(0), 0)];
            var c, d := Run(ttl, cmds), SetStep(Run(ttl, cmds), "s", PathOf(MAX_CACHE_SIZE), [], 0);
            && GetStep(Run(ttl, full), ttl, "s", PathOf(0), 0).1 == Some([])
            && LastUse(ttl, cmds, KeyAt(0)) == |cmds| - 1
            && d.entries.Keys == c.entries.Keys - {KeyAt(0)} + {KeyAt(MAX_CACHE_SIZE)}
            && !LeastRecentlyUsed(ttl, cmds, KeyAt(0))
  {
    var full := Sets(MAX_CACHE_SIZE);
    var cmds := full + [Get("s", PathOf(0), 0)];
    SetsFill(ttl, MAX_CACHE_SIZE);
    assert Front(cmds) == full;
    var c := Run(ttl, full);
    assert c.order[0] == KeyAt(0) && c.order[1] == KeyAt(1);
    StoredIsListed(c, KeyAt(0));
    StoredIsListed(c, KeyAt(1));
    assert Run(ttl, cmds) == c;
    NextKeyIsNew(c, MAX_CACHE_SIZE);
    VictimIsLruIff(ttl, cmds, "s", PathOf(MAX_CACHE_SIZE), [], 0);
    HitIsNotLeastRecent(ttl, cmds, KeyAt(0), KeyAt(1));
  }

  lemma {:induction false} HitIsNotLeastRecent(ttl: int, cmds: seq<Command>, key: string, other: string)
    requires cmds != [] && Uses(Run(ttl, Front(cmds)), ttl, Last(cmds), key)
    requires key != other && other in Run(ttl, cmds).entries
    ensures LastUse(ttl, cmds, key) == |cmds| - 1 && !LeastRecentlyUsed(ttl, cmds, key)
  {
    LastUseIs(ttl, cmds, other);
  }

  // ---------------------------------------------------------------- agreement with a plain map

  /** No lookup so far happened later than `now`. */
  predicate ReadBefore(cmds: seq<Command>, now: int)
  {
    forall i :: 0 <= i < |cmds| && cmds[i].Get? ==> cmds[i].now <= now
  }

  /** After `cmds`, the command inserts a key into a full cache all of whose other keys are younger than `key`. */
  predicate Crowds(ttl: int, cmds: seq<Command>, cmd: Command, key: string)
  {
    var born := Births(ttl, cmds);
    && cmd.Set? && KeyOf(cmd.sourceId, cmd.path) !in born && |born| == MAX_CACHE_SIZE
    && Eldest(born, key)
  }

  /** The key was crowded out and has not been set since. */
  predicate Evicted(ttl: int, cmds: seq<Command>, key: string)
  {
    cmds != [] && !(Last(cmds).Set? && KeyOf(Last(cmds).sourceId, Last(cmds).path) == key) &&
    (Crowds(ttl, Front(cmds), Last(cmds), key) || Evicted(ttl, Front(cmds), key))
  }

  /** A set of another key removes a stored key exactly when it crowds it out. */
  lemma {:induction false} SetDropsIff(ttl: int, cmds: seq<Command>, cmd: Command, key: string)
    requires cmd.Set? && KeyOf(cmd.sourceId, cmd.path) != key && key in Run(ttl, cmds).entries
    ensures key !in Step(Run(ttl, cmds), ttl, cmd).entries <==> Crowds(ttl, cmds, cmd, key)
  {
    var c, born := Run(ttl, cmds), Births(ttl, cmds);
    RunIsOrdered(ttl, cmds);
    assert |born| == |born.Keys| == |c.entries.Keys| == |c.entries|;
    StoredIsListed(c, key);
    FirstIsEldest(ttl, cmds, key);
  }

  lemma {:induction false} StoredIsNotEvicted(ttl: int, cmds: seq<Command>, key: string)
    requires key in Run(ttl, cmds).entries
    ensures !Evicted(ttl, cmds, key)
    decreases |cmds|
  {
    if cmds != [] && !(Last(cmds).Set? && KeyOf(Last(cmds).sourceId, Last(cmds).path) == key) {
      var before, cmd := Front(cmds), Last(cmds);
      if key !in Run(ttl, before).entries {
        StepDrops(Run(ttl, before), ttl, cmd, key);
      } else {
        StoredIsNotEvicted(ttl, before, key);
        if cmd.Set? {
          SetDropsIff(ttl, before, cmd, key);
        }
      }
    }
  }

  lemma {:induction false} FreshIsStored(ttl: int, cmds: seq<Command>, sourceId: string, path: string, now: int)
    requires ColonFreeAll(cmds) && ColonFree(sourceId) && ReadBefore(cmds, now) && !Evicted(ttl, cmds, KeyOf(sourceId, path))
    requires Latest(cmds, sourceId, path).Some? && now - Latest(cmds, sourceId, path).value.timestamp <= ttl
    ensures KeyOf(sourceId, path) in Run(ttl, cmds).entries
    decreases |cmds|
  {
    var before, cmd := Front(cmds), Last(cmds);
    var c, key := Run(ttl, before), KeyOf(sourceId, path);
    KeysAreUnambiguous(cmd.sourceId, if cmd.InvalidateSource? then "" else cmd.path, sourceId, path);
    if !(cmd.Set? && cmd.sourceId == sourceId && cmd.path == path) {
      FreshIsStored(ttl, before, sourceId, path, now);
      StoredIsLatest(ttl, before, sourceId, path);
      match cmd
      case Get(_, _, _) =>
      case Set(_, _, _, _) => SetDropsIff(ttl, before, cmd, key);
      case Invalidate(_, _) =>
      case InvalidateSource(s) =>
        DeleteAllEntries(c, KeysOfSource(c.order, s), key);
        KeysOfSourceIs(c.order, s, key);
        KeysAreUnambiguous(sourceId, path, s, "");
    }
  }

  /**
   * While the clock has not gone back, the cache is a plain map with expiry up to eviction: a
   * lookup hits if and only if the latest set is still fresh and has not been crowded out.
   */
  lemma {:induction false} HitIff(ttl: int, cmds: seq<Command>, sourceId: string, path: string, now: int)
    requires ColonFreeAll(cmds) && ColonFree(sourceId) && ReadBefore(cmds, now)
    ensures GetStep(Run(ttl, cmds), ttl, sourceId, path, now).1.Some? <==>
            && Latest(cmds, sourceId, path).Some? && now - Latest(cmds, sourceId, path).value.timestamp <= ttl
            && !Evicted(ttl, cmds, KeyOf(sourceId, path))
  {
    StoredIsLatest(ttl, cmds, sourceId, path);
    if KeyOf(sourceId, path) in Run(ttl, cmds).entries {
      StoredIsNotEvicted(ttl, cmds, KeyOf(sourceId, path));
    } else if Latest(cmds, sourceId, path).Some? && now - Latest(cmds, sourceId, path).value.timestamp <= ttl &&
              !Evicted(ttl, cmds, KeyOf(sourceId, path)) {
      FreshIsStored(ttl, cmds, sourceId, path, now);
    }
  }

  /** Every key that was ever set. */
  function SetKeys(cmds: seq<Command>): set<string>
  {
    if cmds == [] then {}
    else SetKeys(Front(cmds)) + if Last(cmds).Set? then {KeyOf(Last(cmds).sourceId, Last(cmds).path)} else {}
  }

  lemma {:induction false} SubsetIsSmaller(a: set<string>, b: set<string>)
    requires a <= b
    ensures |a| <= |b|
  {
    if a != {} {
      var x :| x in a;
      SubsetIsSmaller(a - {x}, b - {x});
    }
  }

  lemma {:induction false} EntriesWereSet(ttl: int, cmds: seq<Command>)
    ensures Run(ttl, cmds).entries.Keys <= SetKeys(cmds)
    decreases |cmds|
  {
    if cmds != [] {
      EntriesWereSet(ttl, Front(cmds));
      forall k | k in Run(ttl, cmds).entries && k !in Run(ttl, Front(cmds)).entries
        ensures k in SetKeys(cmds)
      {
        StepDrops(Run(ttl, Front(cmds)), ttl, Last(cmds), k);
      }
    }
  }

  /** Nothing is crowded out while at most 100 different listings were ever set. */
  lemma {:induction false} FewKeysStay(ttl: int, cmds: seq<Command>, key: string)
    requires |SetKeys(cmds)| <= 100
    ensures !Evicted(ttl, cmds, key)
    decreases |cmds|
  {
    if cmds != [] {
      var before, cmd := Front(cmds), Last(cmds);
      SubsetIsSmaller(SetKeys(before), SetKeys(cmds));
      FewKeysStay(ttl, before, key);
      if cmd.Set? {
        EntriesWereSet(ttl, before);
        var born, added := Births(ttl, before), KeyOf(cmd.sourceId, cmd.path);
        SubsetIsSmaller(born.Keys + {added}, SetKeys(cmds));
        assert added !in born ==> |born.Keys + {added}| == |born| + 1;
      }
    }
  }
}
