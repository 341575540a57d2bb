/**
 * The model catalog (crates/diaspor-infer/src/catalog.rs) and the verified download cache
 * (crates/diaspor-infer/src/hub.rs).
 *
 * The cache is a map from path to file content. The digest is an arbitrary function, the
 * server answers each request arbitrarily, and removing a file may fail.
 */
module ModelHub {
  import opened Common

  const UNPINNED_SHA256 := "PENDING_FIRST_PULL"

  datatype ModelRef = ModelRef(id: string, url: string, sha256: string, bytes: nat, license: string, nonfree: bool)

  predicate IsHexDigit(c: char)
  {
    '0' <= c <= '9' || 'a' <= c <= 'f' || 'A' <= c <= 'F'
  }

  predicate IsPinned(e: ModelRef)
  {
    |e.sha256| == 64 && (forall i :: 0 <= i < |e.sha256| ==> IsHexDigit(e.sha256[i])) && e.bytes > 0
  }

  /** A pin is 64 hexadecimal digits of either case together with a known size. */
  lemma {:induction false} PinnedIff(e: ModelRef)
    ensures IsPinned(e) <==>
            |e.sha256| == 64 && e.bytes != 0 && forall i :: 0 <= i < 64 ==> e.sha256[i] in "0123456789abcdefABCDEF"
  {
    forall c: char
      ensures IsHexDigit(c) <==> c in "0123456789abcdefABCDEF"
    {
      HexDigitIs(c);
    }
  }

  lemma {:induction false} HexDigitIs(c: char)
    ensures IsHexDigit(c) <==> c in "0123456789abcdefABCDEF"
  {
    var digits := "0123456789abcdefABCDEF";
    if '0' <= c <= '9' {
      assert digits[c as int - '0' as int] == c;
    } else if 'a' <= c <= 'f' {
      assert digits[10 + (c as int - 'a' as int)] == c;
    } else if 'A' <= c <= 'F' {
      assert digits[16 + (c as int - 'A' as int)] == c;
    }
  }

  // ---------------------------------------------------------------- catalog

  datatype Catalog = Catalog(byId: map<string, ModelRef>, order: seq<string>)

  datatype CatalogError = UnsupportedSchemaVersion(found: nat) | DuplicateId(id: string)

  predicate DistinctIds(models: seq<ModelRef>)
  {
    forall i, j :: 0 <= i < j < |models| ==> models[i].id != models[j].id
  }

  /** `iter`: the entries in declaration order. */
  function Iter(c: Catalog): seq<ModelRef>
  {
    IterIds(c, c.order)
  }

  function IterIds(c: Catalog, ids: seq<string>): seq<ModelRef>
  {
    if ids == [] then []
    else IterIds(c, Front(ids)) + if Last(ids) in c.byId then [c.byId[Last(ids)]] else []
  }

  predicate LoadedFrom(c: Catalog, models: seq<ModelRef>)
  {
    && |c.order| == |models|
    && (forall i :: 0 <= i < |models| ==>
          c.order[i] == models[i].id && models[i].id in c.byId && c.byId[models[i].id] == models[i])
    && (forall id :: id in c.byId ==> id in c.order)
  }

  method FromModels(schemaVersion: nat, models: seq<ModelRef>) returns (r: Result<Catalog, CatalogError>)
    ensures r.Ok? <==> schemaVersion == 1 && DistinctIds(models)
    ensures r.Ok? ==> LoadedFrom(r.value, models)
    ensures schemaVersion != 1 ==> r == Err(UnsupportedSchemaVersion(schemaVersion))
    ensures r.Err? && schemaVersion == 1 ==>
              && r.error.DuplicateId?
              && exists i, j :: 0 <= i < j < |models| && models[i].id == models[j].id == r.error.id
  {
    if schemaVersion != 1 {
      return Err(UnsupportedSchemaVersion(schemaVersion));
    }
    var byId: map<string, ModelRef> := map[];
    var order: seq<string> := [];
    for n := 0 to |models|
      invariant LoadedFrom(Catalog(byId, order), models[..n])
      invariant DistinctIds(models[..n])
    {
      var entry := models[n];
      assert models[..n + 1] == models[..n] + [entry];
      if entry.id in byId {
        var i :| 0 <= i < n && order[i] == entry.id;
        assert models[..n][i] == models[i];
        return Err(DuplicateId(entry.id));
      }
      LoadedSnoc(byId, order, models[..n], entry);
      order := order + [entry.id];
      byId := byId[entry.id := entry];
    }
    assert models[..|models|] == models;
    r := Ok(Catalog(byId, order));
  }

  lemma {:induction false} LoadedSnoc(byId: map<string, ModelRef>, order: seq<string>, models: seq<ModelRef>, entry: ModelRef)
    requires LoadedFrom(Catalog(byId, order), models) && DistinctIds(models) && entry.id !in byId
    ensures LoadedFrom(Catalog(byId[entry.id := entry], order + [entry.id]), models + [entry])
    ensures DistinctIds(models + [entry])
  {
    forall i | 0 <= i < |models|
      ensures models[i].id != entry.id
    {
      assert models[i].id in byId;
    }
  }

  lemma {:induction false} IterPrefix(c: Catalog, models: seq<ModelRef>, n: nat)
    requires LoadedFrom(c, models) && n <= |models|
    ensures IterIds(c, c.order[..n]) == models[..n]
    decreases n
  {
    if n > 0 {
      IterPrefix(c, models, n - 1);
      assert Front(c.order[..n]) == c.order[..n - 1];
      assert models[..n] == models[..n - 1] + [models[n - 1]];
    }
  }

  /** A loaded catalog iterates over exactly the declared entries, in order. */
  lemma {:induction false} IterIsDeclarationOrder(c: Catalog, models: seq<ModelRef>)
    requires LoadedFrom(c, models)
    ensures Iter(c) == models && InCatalog(c, models)
  {
    IterPrefix(c, models, |models|);
    assert c.order[..|models|] == c.order && models[..|models|] == models;
  }

  // ---------------------------------------------------------------- cache paths

  predicate SlugKeeps(c: char)
  {
    'a' <= c <= 'z' || 'A' <= c <= 'Z' || '0' <= c <= '9' || c == '-' || c == '.'
  }

  function Slug(id: string): string
  {
    seq(|id|, i requires 0 <= i < |id| => if SlugKeeps(id[i]) then id[i] else '-')
  }

  function AfterLastSlash(url: string): Option<string>
  {
    if url == "" then None
    else if Last(url) == '/' then Some("")
    else match AfterLastSlash(Front(url))
      case None => None
      case Some(base) => Some(base + [Last(url)])
  }

  function UrlBasename(url: string): string
  {
    match AfterLastSlash(url)
    case None => "model.bin"
    case Some(base) => if base == "" then "model.bin" else base
  }

  function CacheDir(root: string, e: ModelRef): string
  {
    var prefix := if |e.sha256| < 12 then e.sha256 else e.sha256[..12];
    root + "/" + Slug(e.id) + "@" + prefix + "/"
  }

  function CachePath(root: string, e: ModelRef): string { CacheDir(root, e) + UrlBasename(e.url) }

  function PartialPath(target: string): string { target + ".partial" }

  // ---------------------------------------------------------------- resolve

  type Files = map<string, seq<Byte>>

  type Digest = seq<Byte> -> string

  datatype HubConfig = HubConfig(root: string, offline: bool, trustUnpinned: bool, allowNonfree: bool)

  datatype HubError =
    | UnknownId(id: string)
    | NonfreeBlocked(id: string, license: string)
    | Unpinned(id: string)
    | ChecksumMismatch(id: string, expected: string, actual: string)
    | NetworkBlocked(id: string)
    | UnsupportedScheme(id: string, url: string)
    | Io
    | Download(id: string)

  /** What the source of a download does this time. */
  datatype Answer =
    | Unreachable
    | Broken(received: seq<Byte>)
    | Served(content: seq<Byte>)

  /** The environment of one resolve call. */
  datatype Env = Env(answer: Answer, removeWorks: bool)

  datatype Resolved = Resolved(files: Files, result: Result<string, HubError>, fetched: bool)

  predicate IsLocal(url: string) { StartsWith(url, "file://") }

  predicate IsHttp(url: string) { StartsWith(url, "https://") || StartsWith(url, "http://") }

  /** `download_to`: stream into the partial file, then rename it onto the target. */
  function DownloadTo(files: Files, h: Digest, e: ModelRef, target: string, answer: Answer): (Files, Result<string, HubError>)
  {
    if !IsLocal(e.url) && !IsHttp(e.url) then (files, Err(UnsupportedScheme(e.id, e.url)))
    else
      var failure := if IsLocal(e.url) then Io else Download(e.id);
      match answer
      case Unreachable => (files, Err(failure))
      case Broken(received) => (files[PartialPath(target) := received], Err(failure))
      case Served(content) => ((files - {PartialPath(target)})[target := content], Ok(h(content)))
  }

  function Fetch(files: Files, h: Digest, cfg: HubConfig, e: ModelRef, env: Env): Resolved
  {
    var target := CachePath(cfg.root, e);
    if cfg.offline then Resolved(files, Err(NetworkBlocked(e.id)), false)
    else
      var (after, outcome) := DownloadTo(files, h, e, target, env.answer);
      match outcome
      case Err(error) => Resolved(after, Err(error), true)
      case Ok(actual) =>
        if IsPinned(e) && actual != e.sha256 then
          Resolved(if env.removeWorks then after - {target} else after,
                   Err(ChecksumMismatch(e.id, e.sha256, actual)), true)
        else Resolved(after, Ok(target), true)
  }

  /** Both gates: the licence gate and the pin gate. */
  function GateError(cfg: HubConfig, e: ModelRef): Option<HubError>
  {
    if e.nonfree && !cfg.allowNonfree then Some(NonfreeBlocked(e.id, e.license))
    else if (e.sha256 == UNPINNED_SHA256 || !IsPinned(e)) && !cfg.trustUnpinned then Some(Unpinned(e.id))
    else None
  }

  function ResolveEntry(files: Files, h: Digest, cfg: HubConfig, e: ModelRef, env: Env): Resolved
  {
    var target := CachePath(cfg.root, e);
    match GateError(cfg, e)
    case Some(error) => Resolved(files, Err(error), false)
    case None =>
      if target !in files then Fetch(files, h, cfg, e, env)
      else if !IsPinned(e) || h(files[target]) == e.sha256 then Resolved(files, Ok(target), false)
      else if !env.removeWorks then Resolved(files, Err(Io), false)
      else Fetch(files - {target}, h, cfg, e, env)
  }

  function ResolveStep(files: Files, h: Digest, cfg: HubConfig, c: Catalog, id: string, env: Env): Resolved
  {
    if id !in c.byId then Resolved(files, Err(UnknownId(id)), false)
    else ResolveEntry(files, h, cfg, c.byId[id], env)
  }

  /** Entries `ensure_all` does not skip. */
  predicate Selected(cfg: HubConfig, e: ModelRef)
  {
    !(e.nonfree && !cfg.allowNonfree) && !(e.sha256 == UNPINNED_SHA256 && !cfg.trustUnpinned)
  }

  datatype Ensured = Ensured(files: Files, result: Result<nat, HubError>)

  function EnsureAllStep(files: Files, h: Digest, cfg: HubConfig, c: Catalog, entries: seq<ModelRef>, envs: seq<Env>): Ensured
    requires |entries| == |envs|
  {
    if entries == [] then Ensured(files, Ok(0))
    else
      var before := EnsureAllStep(files, h, cfg, c, Front(entries), Front(envs));
      if before.result.Err? || !Selected(cfg, Last(entries)) then before
      else
        var r := ResolveStep(before.files, h, cfg, c, Last(entries).id, Last(envs));
        match r.result
        case Err(error) => Ensured(r.files, Err(error))
        case Ok(_) => Ensured(r.files, Ok(before.result.value + 1))
  }

  class Hub {
    const config: HubConfig
    const catalog: Catalog
    const digest: Digest
    var files: Files

    constructor (config: HubConfig, catalog: Catalog, digest: Digest, files: Files)
      ensures this.config == config && this.catalog == catalog && this.digest == digest && this.files == files
    {
      this.config := config;
      this.catalog := catalog;
      this.digest := digest;
      this.files := files;
    }

    method Download(entry: ModelRef, target: string, answer: Answer) returns (r: Result<string, HubError>)
      modifies this
      ensures (files, r) == DownloadTo(old(files), digest, entry, target, answer)
    {
      if !IsLocal(entry.url) && !IsHttp(entry.url) {
        return Err(UnsupportedScheme(entry.id, entry.url));
      }
      var tmp := PartialPath(target);
      var failure := if IsLocal(entry.url) then Io else HubError.Download(entry.id);
      match answer
      case Unreachable => r := Err(failure);
      case Broken(received) =>
        files := files[tmp := received];
        r := Err(failure);
      case Served(content) =>
        files := files[tmp := content];
        assert files - {tmp} == old(files) - {tmp};
        files := (files - {tmp})[target := files[tmp]];
        r := Ok(digest(content));
    }

    method Resolve(id: string, env: Env) returns (r: Result<string, HubError>, fetched: bool)
      modifies this
      ensures Resolved(files, r, fetched) == ResolveStep(old(files), digest, config, catalog, id, env)
    {
      fetched := false;
      if id !in catalog.byId {
        return Err(UnknownId(id)), false;
      }
      var entry := catalog.byId[id];
      if entry.nonfree && !config.allowNonfree {
        return Err(NonfreeBlocked(entry.id, entry.license)), false;
      }
      var unpinned := entry.sha256 == UNPINNED_SHA256 || !IsPinned(entry);
      if unpinned && !config.trustUnpinned {
        return Err(Unpinned(entry.id)), false;
      }
      var target := CachePath(config.root, entry);
      if target in files {
        if IsPinned(entry) {
          var actual := digest(files[target]);
          if actual == entry.sha256 {
            return Ok(target), false;
          }
          if !env.removeWorks {
            return Err(Io), false;
          }
          files := files - {target};
        } else {
          return Ok(target), false;
        }
      }
      if config.offline {
        return Err(NetworkBlocked(entry.id)), false;
      }
      fetched := true;
      var downloaded := Download(entry, target, env.answer);
      if downloaded.Err? {
        return Err(downloaded.error), true;
      }
      var actual := downloaded.value;
      if IsPinned(entry) && actual != entry.sha256 {
        if env.removeWorks {
          files := files - {target};
        }
        return Err(ChecksumMismatch(entry.id, entry.sha256, actual)), true;
      }
      r := Ok(target);
    }

    /** `envs` holds the environment of the resolve call of each entry. */
    method EnsureAll(envs: seq<Env>) returns (r: Result<nat, HubError>)
      requires |envs| == |Iter(catalog)|
      modifies this
      ensures Ensured(files, r) == EnsureAllStep(old(files), digest, config, catalog, Iter(catalog), envs)
    {
      var entries := Iter(catalog);
      var count: nat := 0;
      var i := 0;
      while i < |entries|
        invariant 0 <= i <= |entries|
        invariant Ensured(files, Ok(count)) ==
                  EnsureAllStep(old(files), digest, config, catalog, entries[..i], envs[..i])
      {
        EnsureOne(old(files), digest, config, catalog, entries, envs, i, files, count);
        var entry := entries[i];
        i := i + 1;
        if entry.nonfree && !config.allowNonfree {
          continue;
        }
        if entry.sha256 == UNPINNED_SHA256 && !config.trustUnpinned {
          continue;
        }
        var one, _ := Resolve(entry.id, envs[i - 1]);
        if one.Err? {
          EnsureAllStops(old(files), digest, config, catalog, entries, envs, i);
          return Err(one.error);
        }
        count := count + 1;
      }
      assert entries[..i] == entries && envs[..i] == envs;
      r := Ok(count);
    }
  }

  lemma {:induction false} EnsureAllPrefix(entries: seq<ModelRef>, envs: seq<Env>, i: nat)
    requires |entries| == |envs| && i < |entries|
    ensures Front(entries[..i + 1]) == entries[..i] && Front(envs[..i + 1]) == envs[..i]
    ensures Last(entries[..i + 1]) == entries[i] && Last(envs[..i + 1]) == envs[i]
  {
  }

  /** What one more entry does to a run that has succeeded so far. */
  lemma {:induction false} EnsureOne(
    files: Files, h: Digest, cfg: HubConfig, c: Catalog, entries: seq<ModelRef>, envs: seq<Env>, i: nat, now: Files, count: nat)
    requires |entries| == |envs| && i < |entries|
    requires EnsureAllStep(files, h, cfg, c, entries[..i], envs[..i]) == Ensured(now, Ok(count))
    ensures var r := ResolveStep(now, h, cfg, c, entries[i].id, envs[i]);
            EnsureAllStep(files, h, cfg, c, entries[..i + 1], envs[..i + 1]) ==
            if !Selected(cfg, entries[i]) then Ensured(now, Ok(count))
            else if r.result.Err? then Ensured(r.files, Err(r.result.error))
            else Ensured(r.files, Ok(count + 1))
  {
    EnsureAllPrefix(entries, envs, i);
  }

  /** The first failure is the outcome of the whole call. */
  lemma {:induction false} EnsureAllStops(
    files: Files, h: Digest, cfg: HubConfig, c: Catalog, entries: seq<ModelRef>, envs: seq<Env>, i: nat)
    requires |entries| == |envs| && i <= |entries|
    requires EnsureAllStep(files, h, cfg, c, entries[..i], envs[..i]).result.Err?
    ensures EnsureAllStep(files, h, cfg, c, entries, envs) == EnsureAllStep(files, h, cfg, c, entries[..i], envs[..i])
    decreases |entries| - i
  {
    if i == |entries| {
      assert entries[..i] == entries && envs[..i] == envs;
    } else {
      EnsureAllPrefix(entries, envs, i);
      EnsureAllStops(files, h, cfg, c, entries, envs, i + 1);
    }
  }

  // ---------------------------------------------------------------- properties of resolve

  /** The entry's file is present and, if pinned, has the pinned digest. */
  predicate Cached(files: Files, h: Digest, root: string, e: ModelRef)
  {
    CachePath(root, e) in files && (IsPinned(e) ==> h(files[CachePath(root, e)]) == e.sha256)
  }

  /**
   * For every cache content, server answer and failing removal: Ok is returned only for the
   * entry's own path holding a file of the pinned digest, and a gated call touches nothing.
   */
  lemma {:induction false} OkIsVerified(files: Files, h: Digest, cfg: HubConfig, e: ModelRef, env: Env)
    ensures var r := ResolveEntry(files, h, cfg, e, env);
            && (r.result.Ok? ==> r.result == Ok(CachePath(cfg.root, e)) && Cached(r.files, h, cfg.root, e))
            && (GateError(cfg, e).Some? ==> r.result == Err(GateError(cfg, e).value) && r.files == files && !r.fetched)
            && (cfg.offline ==> !r.fetched)
  {
  }

  /** This call has to delete a bad file: one already cached, or one a server just delivered. */
  predicate NeedsRemoval(files: Files, h: Digest, cfg: HubConfig, e: ModelRef, answer: Answer)
  {
    var target := CachePath(cfg.root, e);
    if target in files then h(files[target]) != e.sha256
    else !cfg.offline && (IsLocal(e.url) || IsHttp(e.url)) && answer.Served? && h(answer.content) != e.sha256
  }

  /**
   * Past the gates a pinned target is afterwards absent or correct, whatever the cache held and
   * the server answered, exactly unless a needed removal fails.
   */
  lemma {:induction false} AbsentOrCorrect(files: Files, h: Digest, cfg: HubConfig, e: ModelRef, env: Env)
    requires IsPinned(e) && GateError(cfg, e).None?
    ensures var r := ResolveEntry(files, h, cfg, e, env);
            (CachePath(cfg.root, e) !in r.files || Cached(r.files, h, cfg.root, e)) <==>
            env.removeWorks || !NeedsRemoval(files, h, cfg, e, env.answer)
  {
    var target := CachePath(cfg.root, e);
    assert |PartialPath(target)| > |target|;
  }

  /** Once resolved, the entry resolves again to the same path without a download, even offline. */
  lemma {:induction false} RepeatIsFree(
    files: Files, h: Digest, cfg: HubConfig, e: ModelRef, env: Env, again: Env, offline: bool)
    requires ResolveEntry(files, h, cfg, e, env).result.Ok?
    ensures var r := ResolveEntry(files, h, cfg, e, env);
            ResolveEntry(r.files, h, cfg.(offline := offline), e, again) == Resolved(r.files, r.result, false)
  {
    OkIsVerified(files, h, cfg, e, env);
    assert GateError(cfg.(offline := offline), e) == GateError(cfg, e);
    assert CachePath(cfg.(offline := offline).root, e) == CachePath(cfg.root, e);
  }

  /** Whatever is in the cache, an honest server and a supported URL make an online resolve succeed. */
  lemma {:induction false} HonestServerHeals(files: Files, h: Digest, cfg: HubConfig, e: ModelRef, content: seq<Byte>)
    requires IsPinned(e) && GateError(cfg, e).None? && !cfg.offline && (IsLocal(e.url) || IsHttp(e.url))
    requires h(content) == e.sha256
    ensures ResolveEntry(files, h, cfg, e, Env(Served(content), true)).result == Ok(CachePath(cfg.root, e))
  {
  }

  /** Both gates pass exactly for an allowed licence and a pin, or trust in its absence. */
  lemma {:induction false} GatePassIff(cfg: HubConfig, e: ModelRef)
    ensures GateError(cfg, e).None? <==> (e.nonfree ==> cfg.allowNonfree) && (IsPinned(e) || cfg.trustUnpinned)
    ensures e.nonfree && !cfg.allowNonfree ==> GateError(cfg, e) == Some(NonfreeBlocked(e.id, e.license))
    ensures (e.nonfree ==> cfg.allowNonfree) && !IsPinned(e) && !cfg.trustUnpinned ==> GateError(cfg, e) == Some(Unpinned(e.id))
  {
    assert |UNPINNED_SHA256| != 64;
  }

  /** A file that is there but wrong can be taken away. */
  predicate CanClear(files: Files, cfg: HubConfig, e: ModelRef, env: Env)
  {
    CachePath(cfg.root, e) in files ==> env.removeWorks
  }

  /** The source delivers the whole file over a supported scheme, with the pinned digest if there is one. */
  predicate Delivers(h: Digest, e: ModelRef, answer: Answer)
  {
    && (IsLocal(e.url) || IsHttp(e.url))
    && answer.Served? && (IsPinned(e) ==> h(answer.content) == e.sha256)
  }

  /**
   * For every cache content and environment: a resolve succeeds exactly past the gates with the
   * entry cached already, or online with any bad file removable and the source delivering; it
   * goes to the network exactly past the gates, online, for an entry that is not cached.
   */
  lemma {:induction false} ResolveOkIff(files: Files, h: Digest, cfg: HubConfig, e: ModelRef, env: Env)
    ensures var r := ResolveEntry(files, h, cfg, e, env);
            && (r.result.Ok? <==>
                  && GateError(cfg, e).None?
                  && (Cached(files, h, cfg.root, e) ||
                      (!cfg.offline && CanClear(files, cfg, e, env) && Delivers(h, e, env.answer))))
            && (r.fetched <==>
                  && GateError(cfg, e).None? && !cfg.offline
                  && !Cached(files, h, cfg.root, e) && CanClear(files, cfg, e, env))
  {
  }

  /** A broken download leaves what it received in the partial file, never at the target. */
  lemma {:induction false} BrokenLeavesPartial(files: Files, h: Digest, cfg: HubConfig, e: ModelRef, received: seq<Byte>, removeWorks: bool)
    requires ResolveEntry(files, h, cfg, e, Env(Broken(received), removeWorks)).fetched && (IsLocal(e.url) || IsHttp(e.url))
    ensures var after, target := ResolveEntry(files, h, cfg, e, Env(Broken(received), removeWorks)).files, CachePath(cfg.root, e);
            target !in after && PartialPath(target) in after && after[PartialPath(target)] == received
  {
    assert |PartialPath(CachePath(cfg.root, e))| > |CachePath(cfg.root, e)|;
  }

  /** An id is unknown exactly if no entry declares it; then nothing changes. */
  lemma {:induction false} UnknownIff(files: Files, h: Digest, cfg: HubConfig, c: Catalog, models: seq<ModelRef>, id: string, env: Env)
    requires LoadedFrom(c, models)
    ensures (exists i :: 0 <= i < |models| && models[i].id == id) <==> id in c.byId
    ensures id !in c.byId ==> ResolveStep(files, h, cfg, c, id, env) == Resolved(files, Err(UnknownId(id)), false)
    ensures forall i :: 0 <= i < |models| ==> ResolveStep(files, h, cfg, c, models[i].id, env) == ResolveEntry(files, h, cfg, models[i], env)
  {
    if id in c.byId {
      assert id in c.order;
    }
  }

  /** Past the gates, which error a failing resolve gives, in the order in which things can go wrong. */
  lemma {:induction false} ResolveErrors(files: Files, h: Digest, cfg: HubConfig, e: ModelRef, env: Env)
    requires GateError(cfg, e).None? && !Cached(files, h, cfg.root, e)
    ensures var r, supported := ResolveEntry(files, h, cfg, e, env).result, IsLocal(e.url) || IsHttp(e.url);
            && (!CanClear(files, cfg, e, env) ==> r == Err(Io))
            && (CanClear(files, cfg, e, env) && cfg.offline ==> r == Err(NetworkBlocked(e.id)))
            && (CanClear(files, cfg, e, env) && !cfg.offline ==>
                  && (!supported ==> r == Err(UnsupportedScheme(e.id, e.url)))
                  && (IsLocal(e.url) && !env.answer.Served? ==> r == Err(Io))
                  && (IsHttp(e.url) && !IsLocal(e.url) && !env.answer.Served? ==> r == Err(Download(e.id)))
                  && (supported && env.answer.Served? && !Delivers(h, e, env.answer) ==>
                        r == Err(ChecksumMismatch(e.id, e.sha256, h(env.answer.content)))))
  {
  }

  /** A resolve touches only its own target and partial file; a successful one leaves no partial file of its own making. */
  lemma {:induction false} ResolveFrame(files: Files, h: Digest, cfg: HubConfig, e: ModelRef, env: Env, p: string)
    requires p != CachePath(cfg.root, e)
    ensures var r := ResolveEntry(files, h, cfg, e, env);
            && (p != PartialPath(CachePath(cfg.root, e)) ==> (p in r.files <==> p in files) && (p in files ==> r.files[p] == files[p]))
            && (r.result.Ok? && p !in files ==> p !in r.files)
            && (r.result.Ok? && r.fetched && p == PartialPath(CachePath(cfg.root, e)) ==> p !in r.files)
  {
  }

  lemma {:induction false} BasenameHasNoSlash(url: string)
    ensures '/' !in UrlBasename(url) && UrlBasename(url) != ""
    ensures AfterLastSlash(url).Some? ==> '/' !in AfterLastSlash(url).value
    decreases |url|
  {
    if url != "" && Last(url) != '/' {
      BasenameHasNoSlash(Front(url));
    }
  }

  predicate EndsWith(s: string, suffix: string) { |suffix| <= |s| && s[|s| - |suffix|..] == suffix }

  lemma {:induction false} AfterLastSlashIs(url: string, base: string)
    requires '/' !in base
    ensures AfterLastSlash(url) == Some(base) <==> EndsWith(url, "/" + base)
  {
    var suffix := "/" + base;
    if EndsWith(url, suffix) {
      var prefix := url[..|url| - |suffix|];
      assert url == prefix + suffix == prefix + "/" + base;
      AfterLastSlashOf(prefix, base);
    } else if AfterLastSlash(url) == Some(base) {
      SplitAtLastSlash(url);
    }
  }

  lemma {:induction false} SplitAtLastSlash(url: string)
    ensures AfterLastSlash(url).Some? ==> EndsWith(url, "/" + AfterLastSlash(url).value)
    decreases |url|
  {
    if url != "" && Last(url) != '/' && AfterLastSlash(url).Some? {
      SplitAtLastSlash(Front(url));
      var base := AfterLastSlash(Front(url)).value;
      var k := |Front(url)| - |"/" + base|;
      assert Front(url) + [Last(url)] == url;
      assert url[k..] == Front(url)[k..] + [Last(url)];
      assert ("/" + base) + [Last(url)] == "/" + (base + [Last(url)]);
    }
  }

  /**
   * A well-formed entry is named by exactly two components below the root. The directory never
   * is a dot component; the file name is one exactly for a URL that ends in `/.` or `/..`.
   */
  lemma {:induction false} CachePathTwoLevels(root: string, e: ModelRef) returns (dir: string, base: string)
    requires WellFormedEntry(e)
    ensures dir == Slug(e.id) + "@" + e.sha256[..12] && base == UrlBasename(e.url)
    ensures CachePath(root, e) == root + "/" + dir + "/" + base
    ensures '/' !in dir && '/' !in base && dir != "" && base != "" && dir != "." && dir != ".."
    ensures base == "." || base == ".." <==> EndsWith(e.url, "/.") || EndsWith(e.url, "/..")
  {
    dir, base := Slug(e.id) + "@" + e.sha256[..12], UrlBasename(e.url);
    BasenameHasNoSlash(e.url);
    AfterLastSlashIs(e.url, ".");
    AfterLastSlashIs(e.url, "..");
    assert "/" + "." == "/." && "/" + ".." == "/..";
    assert e.sha256 == UNPINNED_SHA256 ==> '/' !in e.sha256;
    assert '/' !in e.sha256;
    assert '/' !in Slug(e.id);
    assert |dir| > 2;
    assert root + "/" + Slug(e.id) + "@" + e.sha256[..12] + "/" + base == root + "/" + dir + "/" + base;
  }

  /** Letters, digits, `-` and `.` stay in place, every other character becomes `-`. */
  lemma {:induction false} SlugIs(id: string)
    ensures |Slug(id)| == |id|
    ensures forall i :: 0 <= i < |id| ==>
              var safe := 'a' <= id[i] <= 'z' || 'A' <= id[i] <= 'Z' || '0' <= id[i] <= '9' || id[i] in "-.";
              Slug(id)[i] == if safe then id[i] else '-'
    ensures Slug(Slug(id)) == Slug(id) && '@' !in Slug(id) && '/' !in Slug(id)
  {
  }

  /** The file name is what follows the last slash of the URL; without any it is `model.bin`. */
  lemma {:induction false} UrlBasenameIs(url: string, base: string)
    requires '/' !in base
    ensures EndsWith(url, "/" + base) ==> UrlBasename(url) == if base == "" then "model.bin" else base
    ensures '/' !in url ==> UrlBasename(url) == "model.bin"
  {
    AfterLastSlashIs(url, base);
    if '/' !in url {
      NoSlashNoBase(url);
    }
  }

  lemma {:induction false} NoSlashNoBase(url: string)
    requires '/' !in url
    ensures AfterLastSlash(url).None?
    decreases |url|
  {
    if url != "" {
      assert Last(url) in url;
      NoSlashNoBase(Front(url));
    }
  }

  /** The path of any entry, well-formed or not: slug, the first twelve characters of the digest, file name. */
  lemma {:induction false} CachePathIs(root: string, e: ModelRef) returns (prefix: string)
    ensures StartsWith(e.sha256, prefix) && |prefix| == if |e.sha256| < 12 then |e.sha256| else 12
    ensures CachePath(root, e) == root + "/" + Slug(e.id) + "@" + prefix + "/" + UrlBasename(e.url)
  {
    prefix := if |e.sha256| < 12 then e.sha256 else e.sha256[..12];
  }

  /** Two well-formed entries share a cache path exactly if slug, digest prefix and file name agree. */
  lemma {:induction false} SameCachePathIff(root: string, a: ModelRef, b: ModelRef)
    requires WellFormedEntry(a) && WellFormedEntry(b)
    ensures CachePath(root, a) == CachePath(root, b) <==>
            Slug(a.id) == Slug(b.id) && a.sha256[..12] == b.sha256[..12] && UrlBasename(a.url) == UrlBasename(b.url)
  {
    var da, na := CachePathTwoLevels(root, a);
    var db, nb := CachePathTwoLevels(root, b);
    if CachePath(root, a) == CachePath(root, b) {
      CutAtLastUnique(root + "/" + da, na, root + "/" + db, nb, '/');
      CutAtLastUnique(root, da, root, db, '/');
      SlugIs(a.id);
      SlugIs(b.id);
      NoAt(a);
      NoAt(b);
      CutAtLastUnique(Slug(a.id), a.sha256[..12], Slug(b.id), b.sha256[..12], '@');
    }
  }

  lemma {:induction false} NoAt(e: ModelRef)
    requires WellFormedEntry(e)
    ensures '@' !in e.sha256[..12]
  {
    assert e.sha256 == UNPINNED_SHA256 ==> '@' !in e.sha256;
    assert '@' !in e.sha256;
  }

  // ---------------------------------------------------------------- ensure_all

  predicate WellFormedEntry(e: ModelRef) { IsPinned(e) || e.sha256 == UNPINNED_SHA256 }

  function CountSelected(cfg: HubConfig, entries: seq<ModelRef>): nat
  {
    if entries == [] then 0 else CountSelected(cfg, Front(entries)) + if Selected(cfg, Last(entries)) then 1 else 0
  }

  predicate InCatalog(c: Catalog, entries: seq<ModelRef>)
  {
    forall i :: 0 <= i < |entries| ==> entries[i].id in c.byId && c.byId[entries[i].id] == entries[i]
  }

  predicate DistinctTargets(cfg: HubConfig, entries: seq<ModelRef>)
  {
    forall i, j :: 0 <= i < j < |entries| && Selected(cfg, entries[i]) && Selected(cfg, entries[j]) ==>
      CachePath(cfg.root, entries[i]) != CachePath(cfg.root, entries[j])
  }

  /** Downloading entry `k` uses the target of entry `i` as its partial file, and so takes it away. */
  predicate Takes(cfg: HubConfig, entries: seq<ModelRef>, k: nat, i: nat)
    requires k < |entries| && i < |entries|
  {
    PartialPath(CachePath(cfg.root, entries[k])) == CachePath(cfg.root, entries[i])
  }

  /** From the initial cache alone: entry `j` is not cached at first, or an earlier download takes its file. */
  predicate Refetched(files: Files, h: Digest, cfg: HubConfig, entries: seq<ModelRef>, j: nat)
    requires j < |entries|
    decreases j, 1
  {
    Selected(cfg, entries[j]) &&
    (!Cached(files, h, cfg.root, entries[j]) || TakenBetween(files, h, cfg, entries, 0, j, j))
  }

  /** Some entry of `from..limit` is downloaded and takes the file of entry `i`. */
  predicate TakenBetween(files: Files, h: Digest, cfg: HubConfig, entries: seq<ModelRef>, from: nat, limit: nat, i: nat)
    requires from <= limit <= |entries| && i < |entries|
    decreases limit, 0
  {
    exists k :: from <= k < limit && Takes(cfg, entries, k, i) && Refetched(files, h, cfg, entries, k)
  }

  /** No entry's partial file is the target of an earlier entry. */
  predicate NoClobber(cfg: HubConfig, entries: seq<ModelRef>)
  {
    forall i, j :: 0 <= i < j < |entries| && Selected(cfg, entries[i]) && Selected(cfg, entries[j]) ==> !Takes(cfg, entries, j, i)
  }

  /** The gates of `ensure_all` and `resolve` agree on well-formed entries. */
  lemma {:induction false} GatesAgree(cfg: HubConfig, e: ModelRef)
    requires WellFormedEntry(e)
    ensures Selected(cfg, e) <==> GateError(cfg, e).None?
  {
  }

  /** A successful `ensure_all` counts exactly the entries that pass the gates. */
  lemma {:induction false} EnsureAllCounts(
    files: Files, h: Digest, cfg: HubConfig, c: Catalog, entries: seq<ModelRef>, envs: seq<Env>)
    requires |entries| == |envs|
    ensures var r := EnsureAllStep(files, h, cfg, c, entries, envs);
            r.result.Ok? ==> r.result.value == CountSelected(cfg, entries)
    decreases |entries|
  {
    if entries != [] {
      EnsureAllCounts(files, h, cfg, c, Front(entries), Front(envs));
    }
  }

  /** A successful resolve downloads exactly when the entry was not cached, and then only its partial file goes. */
  lemma {:induction false} ResolveOthers(files: Files, h: Digest, cfg: HubConfig, e: ModelRef, env: Env, other: ModelRef)
    requires ResolveEntry(files, h, cfg, e, env).result.Ok?
    requires CachePath(cfg.root, other) != CachePath(cfg.root, e)
    ensures var after, p := ResolveEntry(files, h, cfg, e, env).files, CachePath(cfg.root, other);
            var taken := !Cached(files, h, cfg.root, e) && p == PartialPath(CachePath(cfg.root, e));
            && (p in after <==> p in files && !taken)
            && (Cached(after, h, cfg.root, other) <==> Cached(files, h, cfg.root, other) && !taken)
  {
    ResolveFrame(files, h, cfg, e, env, CachePath(cfg.root, other));
  }

  /** The last step of a successful `ensure_all`: skipped, or a successful resolve of that very entry. */
  lemma {:induction false} EnsureLast(
    files: Files, h: Digest, cfg: HubConfig, c: Catalog, entries: seq<ModelRef>, envs: seq<Env>)
    requires |entries| == |envs| && InCatalog(c, entries) && entries != []
    requires EnsureAllStep(files, h, cfg, c, entries, envs).result.Ok?
    ensures var before := EnsureAllStep(files, h, cfg, c, Front(entries), Front(envs));
            var r := ResolveEntry(before.files, h, cfg, Last(entries), Last(envs));
            && before.result.Ok?
            && (Selected(cfg, Last(entries)) ==> r.result.Ok?)
            && EnsureAllStep(files, h, cfg, c, entries, envs).files ==
               (if Selected(cfg, Last(entries)) then r.files else before.files)
  {
  }

  lemma {:induction false} TakenSnoc(
    files: Files, h: Digest, cfg: HubConfig, entries: seq<ModelRef>, from: nat, n: nat, i: nat)
    requires from <= n < |entries| && i < |entries|
    ensures TakenBetween(files, h, cfg, entries, from, n + 1, i) <==>
            TakenBetween(files, h, cfg, entries, from, n, i) ||
            (Takes(cfg, entries, n, i) && Refetched(files, h, cfg, entries, n))
  {
  }

  /**
   * After the first `n` entries of a successful run, from any cache: an entry already handled is
   * cached unless a later download took its file, and then the file is gone; an entry still to
   * come is cached exactly if it was at first and no download took its file.
   */
  lemma {:induction false} CachedAfter(
    files: Files, h: Digest, cfg: HubConfig, c: Catalog, entries: seq<ModelRef>, envs: seq<Env>, n: nat, i: nat)
    requires |entries| == |envs| && InCatalog(c, entries) && DistinctTargets(cfg, entries)
    requires n <= |entries| && i < |entries| && Selected(cfg, entries[i])
    requires EnsureAllStep(files, h, cfg, c, entries[..n], envs[..n]).result.Ok?
    ensures var now := EnsureAllStep(files, h, cfg, c, entries[..n], envs[..n]).files;
            && (Cached(now, h, cfg.root, entries[i]) <==>
                if i < n then !TakenBetween(files, h, cfg, entries, i + 1, n, i)
                else Cached(files, h, cfg.root, entries[i]) && !TakenBetween(files, h, cfg, entries, 0, n, i))
            && (i < n && CachePath(cfg.root, entries[i]) in now ==> Cached(now, h, cfg.root, entries[i]))
    decreases n
  {
    if n > 0 {
      var m := n - 1;
      EnsureAllPrefix(entries, envs, m);
      EnsureLast(files, h, cfg, c, entries[..n], envs[..n]);
      var before := EnsureAllStep(files, h, cfg, c, entries[..m], envs[..m]).files;
      CachedAfter(files, h, cfg, c, entries, envs, m, i);
      if i == m {
        OkIsVerified(before, h, cfg, entries[m], envs[m]);
      } else {
        TakenSnoc(files, h, cfg, entries, if i < m then i + 1 else 0, m, i);
        if Selected(cfg, entries[m]) {
          CachedAfter(files, h, cfg, c, entries, envs, m, m);
          ResolveOthers(before, h, cfg, entries[m], envs[m], entries[i]);
        }
      }
    }
  }

  /**
   * From any cache with distinct targets: after a successful `ensure_all` a selected entry is
   * cached if and only if no later entry was downloaded with that entry's target as its partial
   * file; otherwise the file is gone although the call succeeded and counted it.
   */
  lemma {:induction false} EntryCachedIff(
    files: Files, h: Digest, cfg: HubConfig, c: Catalog, entries: seq<ModelRef>, envs: seq<Env>, i: nat)
    requires |entries| == |envs| && InCatalog(c, entries) && DistinctTargets(cfg, entries)
    requires EnsureAllStep(files, h, cfg, c, entries, envs).result.Ok?
    requires i < |entries| && Selected(cfg, entries[i])
    ensures var final := EnsureAllStep(files, h, cfg, c, entries, envs).files;
            && (Cached(final, h, cfg.root, entries[i]) <==> !TakenBetween(files, h, cfg, entries, i + 1, |entries|, i))
            && (CachePath(cfg.root, entries[i]) in final <==> Cached(final, h, cfg.root, entries[i]))
  {
    assert entries[..|entries|] == entries && envs[..|envs|] == envs;
    CachedAfter(files, h, cfg, c, entries, envs, |entries|, i);
  }

  /** Some selected entry's file is taken by the download of a later entry. */
  predicate SomeLost(files: Files, h: Digest, cfg: HubConfig, entries: seq<ModelRef>)
  {
    exists i :: 0 <= i < |entries| && Selected(cfg, entries[i]) && TakenBetween(files, h, cfg, entries, i + 1, |entries|, i)
  }

  /**
   * From any cache with distinct targets, a successful `ensure_all` leaves every selected entry
   * cached if and only if no selected entry's file is taken by a later download.
   */
  lemma {:induction false} EnsureAllCachesIff(
    files: Files, h: Digest, cfg: HubConfig, c: Catalog, entries: seq<ModelRef>, envs: seq<Env>)
    requires |entries| == |envs| && InCatalog(c, entries) && DistinctTargets(cfg, entries)
    requires EnsureAllStep(files, h, cfg, c, entries, envs).result.Ok?
    ensures (forall i :: 0 <= i < |entries| && Selected(cfg, entries[i]) ==>
               Cached(EnsureAllStep(files, h, cfg, c, entries, envs).files, h, cfg.root, entries[i])) <==>
            !SomeLost(files, h, cfg, entries)
  {
    forall i | 0 <= i < |entries| && Selected(cfg, entries[i])
      ensures Cached(EnsureAllStep(files, h, cfg, c, entries, envs).files, h, cfg.root, entries[i]) <==>
              !TakenBetween(files, h, cfg, entries, i + 1, |entries|, i)
    {
      EntryCachedIff(files, h, cfg, c, entries, envs, i);
    }
  }

  /** In particular nothing is lost, from any cache, when no partial file is an earlier target. */
  lemma {:induction false} EnsureAllCaches(
    files: Files, h: Digest, cfg: HubConfig, c: Catalog, entries: seq<ModelRef>, envs: seq<Env>, i: nat)
    requires |entries| == |envs| && InCatalog(c, entries)
    requires DistinctTargets(cfg, entries) && NoClobber(cfg, entries)
    requires EnsureAllStep(files, h, cfg, c, entries, envs).result.Ok?
    requires i < |entries| && Selected(cfg, entries[i])
    ensures Cached(EnsureAllStep(files, h, cfg, c, entries, envs).files, h, cfg.root, entries[i])
  {
    EntryCachedIff(files, h, cfg, c, entries, envs, i);
  }

  lemma {:induction false} AfterLastSlashOf(prefix: string, base: string)
    requires '/' !in base
    ensures AfterLastSlash(prefix + "/" + base) == Some(base)
  {
    var url := prefix + "/" + base;
    if base == "" {
      assert Last(url) == '/';
    } else {
      assert Last(url) == Last(base) && Front(url) == prefix + "/" + Front(base);
      assert Last(base) in base;
      AfterLastSlashOf(prefix, Front(base));
      assert Front(base) + [Last(base)] == base;
    }
  }

  lemma {:induction false} WitnessSlugs()
    ensures Slug("m@1") == "m-1" && Slug("m-1") == "m-1"
  {
  }

  lemma {:induction false} WitnessNames()
    ensures UrlBasename("https://x/w.partial") == "w.partial" && UrlBasename("https://x/w") == "w"
  {
    AfterLastSlashOf("https://x", "w.partial");
    AfterLastSlashOf("https://x", "w");
    assert "https://x" + "/" + "w.partial" == "https://x/w.partial" && "https://x" + "/" + "w" == "https://x/w";
  }

  lemma {:induction false} SameDirectory(root: string, a: ModelRef, b: ModelRef)
    requires Slug(a.id) == Slug(b.id) && a.sha256 == b.sha256
    ensures CacheDir(root, a) == CacheDir(root, b)
  {
  }

  const DIGEST: string := seq(64, _ => '0')

  const SHADOWED := ModelRef("m@1", "https://x/w.partial", DIGEST, 1, "MIT", false)

  const SHADOWING := ModelRef("m-1", "https://x/w", DIGEST, 1, "MIT", false)

  /** Slugs collide, so two ids can share a directory, and a URL may end in `.partial`. */
  lemma {:induction false} WitnessPaths(cfg: HubConfig)
    ensures CachePath(cfg.root, SHADOWED) == PartialPath(CachePath(cfg.root, SHADOWING)) != CachePath(cfg.root, SHADOWING)
    ensures SHADOWED.id != SHADOWING.id && IsPinned(SHADOWED) && IsPinned(SHADOWING)
    ensures Selected(cfg, SHADOWED) && Selected(cfg, SHADOWING)
  {
    WitnessNames();
    WitnessSlugs();
    assert SHADOWED.id[1] != SHADOWING.id[1];
    SameDirectory(cfg.root, SHADOWED, SHADOWING);
    var dir := CacheDir(cfg.root, SHADOWED);
    assert |dir + "w"| != |dir + "w.partial"|;
    assert PartialPath(dir + "w") == dir + "w.partial" by { assert "w" + ".partial" == "w.partial"; }
    assert |UNPINNED_SHA256| != 64;
  }

  /** `ensure_all` over two entries that are both selected and both resolved. */
  lemma {:induction false} EnsureTwo(files: Files, h: Digest, cfg: HubConfig, c: Catalog, a: ModelRef, b: ModelRef, env: Env)
    requires InCatalog(c, [a, b]) && Selected(cfg, a) && Selected(cfg, b)
    requires ResolveEntry(files, h, cfg, a, env).result.Ok?
    requires ResolveEntry(ResolveEntry(files, h, cfg, a, env).files, h, cfg, b, env).result.Ok?
    ensures EnsureAllStep(files, h, cfg, c, [a, b], [env, env]) ==
            Ensured(ResolveEntry(ResolveEntry(files, h, cfg, a, env).files, h, cfg, b, env).files, Ok(2))
  {
    assert [a, b][0] == a && [a, b][1] == b;
    assert Front([a, b]) == [a] && Front([env, env]) == [env];
    assert EnsureAllStep(files, h, cfg, c, [], []) == Ensured(files, Ok(0));
    assert EnsureAllStep(files, h, cfg, c, [a], [env]) == Ensured(ResolveEntry(files, h, cfg, a, env).files, Ok(1));
  }

  const WITNESS := Catalog(map[SHADOWED.id := SHADOWED, SHADOWING.id := SHADOWING], [SHADOWED.id, SHADOWING.id])

  lemma {:induction false} WitnessCatalog(cfg: HubConfig)
    ensures LoadedFrom(WITNESS, [SHADOWED, SHADOWING]) && InCatalog(WITNESS, [SHADOWED, SHADOWING])
    ensures DistinctTargets(cfg, [SHADOWED, SHADOWING])
  {
    WitnessPaths(cfg);
  }

  /** A whole run from an empty cache, served what it asks for: two counted, one file left. */
  lemma {:induction false} ClobberWitness(cfg: HubConfig, served: seq<Byte>)
    requires !cfg.offline
    ensures LoadedFrom(WITNESS, [SHADOWED, SHADOWING]) && DistinctTargets(cfg, [SHADOWED, SHADOWING])
    ensures var env := Env(Served(served), true);
            var r := EnsureAllStep(map[], _ => DIGEST, cfg, WITNESS, [SHADOWED, SHADOWING], [env, env]);
            r.result == Ok(2) && CachePath(cfg.root, SHADOWED) !in r.files
  {
    var h: Digest, env := _ => DIGEST, Env(Served(served), true);
    WitnessCatalog(cfg);
    WitnessPaths(cfg);
    var first := ResolveEntry(map[], h, cfg, SHADOWED, env).files;
    HonestServerHeals(map[], h, cfg, SHADOWED, served);
    HonestServerHeals(first, h, cfg, SHADOWING, served);
    EnsureTwo(map[], h, cfg, WITNESS, SHADOWED, SHADOWING, env);
    StillMissing(map[], h, cfg, SHADOWED, SHADOWING, env);
  }

  /** An entry not in the cache is fetched, and its partial file is gone afterwards. */
  lemma {:induction false} StillMissing(files: Files, h: Digest, cfg: HubConfig, a: ModelRef, b: ModelRef, env: Env)
    requires CachePath(cfg.root, a) == PartialPath(CachePath(cfg.root, b)) != CachePath(cfg.root, b)
    requires CachePath(cfg.root, b) !in files && PartialPath(CachePath(cfg.root, a)) != CachePath(cfg.root, b)
    requires ResolveEntry(files, h, cfg, a, env).result.Ok?
    requires ResolveEntry(ResolveEntry(files, h, cfg, a, env).files, h, cfg, b, env).result.Ok?
    ensures CachePath(cfg.root, a) !in ResolveEntry(ResolveEntry(files, h, cfg, a, env).files, h, cfg, b, env).files
  {
    ResolveFrame(files, h, cfg, a, env, CachePath(cfg.root, b));
    ResolveOthers(ResolveEntry(files, h, cfg, a, env).files, h, cfg, b, env, a);
  }
}
