/**
 * The rotating log writer and reader (apps/vfs-desktop/src-tauri/src/logging.rs).
 *
 * The directory maps a file index to a file identity, so that renaming moves a file and an
 * open handle keeps pointing at it. A record carries the bytes of its serialised line; each line
 * takes one more byte for the newline. One `write_log` call is one atomic step, and a writer may
 * be reopened over the files an earlier one left.
 */
module LogRotation {
  import opened Common

  datatype Record = Record(timestamp: int, level: string, line: seq<Byte>)

  type Inode = nat

  function Size(records: seq<Record>): nat
  {
    if records == [] then 0 else Size(Front(records)) + |Last(records).line| + 1
  }

  /** Directory entries, file contents, the cached handle and the next unused identity. */
  datatype Disk = Disk(names: map<nat, Inode>, data: map<Inode, seq<Record>>, handle: Option<Inode>, next: Inode)

  // ---------------------------------------------------------------- rotation

  /** Which file name `j` refers to once the renames for indices `i` and above are done. */
  function ShiftSource(names: map<nat, Inode>, maxFiles: nat, i: nat, j: nat): Option<Inode>
  {
    if i < j <= maxFiles && j - 1 in names then Some(names[j - 1])
    else if j in names && (j < i || j >= maxFiles) then Some(names[j])
    else None
  }

  /** The directory once the renames for indices `i` and above are done. */
  function Shifted(names: map<nat, Inode>, maxFiles: nat, i: nat): map<nat, Inode>
  {
    map j | j in names.Keys + (set k | k in names.Keys :: k + 1) && ShiftSource(names, maxFiles, i, j).Some?
      :: ShiftSource(names, maxFiles, i, j).value
  }

  lemma {:induction false} ShiftedAt(names: map<nat, Inode>, maxFiles: nat, i: nat, j: nat)
    ensures j in Shifted(names, maxFiles, i) <==> ShiftSource(names, maxFiles, i, j).Some?
    ensures j in Shifted(names, maxFiles, i) ==>
              Shifted(names, maxFiles, i)[j] == ShiftSource(names, maxFiles, i, j).value
  {
    if j > 0 && j - 1 in names {
      assert j - 1 + 1 in set k | k in names.Keys :: k + 1;
    }
  }

  /** One iteration of the rename loop. */
  function RenameUp(names: map<nat, Inode>, i: nat): map<nat, Inode>
  {
    if i in names then (names - {i + 1})[i + 1 := names[i]] - {i} else names
  }

  lemma {:induction false} RenameUpShifts(names: map<nat, Inode>, maxFiles: nat, i: nat)
    requires i < maxFiles
    ensures RenameUp(Shifted(names, maxFiles, i + 1), i) == Shifted(names, maxFiles, i)
  {
    var before, after := Shifted(names, maxFiles, i + 1), Shifted(names, maxFiles, i);
    forall j: nat
      ensures j in RenameUp(before, i) <==> j in after
      ensures j in after ==> RenameUp(before, i)[j] == after[j]
    {
      ShiftedAt(names, maxFiles, i + 1, j);
      ShiftedAt(names, maxFiles, i + 1, i);
      ShiftedAt(names, maxFiles, i, j);
    }
  }

  lemma {:induction false} RemoveMissing(names: map<nat, Inode>, j: nat)
    ensures j !in names ==> names - {j} == names
  {
  }

  lemma {:induction false} NothingShifted(names: map<nat, Inode>, maxFiles: nat)
    ensures Shifted(names, maxFiles, maxFiles) == names
  {
    forall j: nat
      ensures j in Shifted(names, maxFiles, maxFiles) <==> j in names
      ensures j in names ==> Shifted(names, maxFiles, maxFiles)[j] == names[j]
    {
      ShiftedAt(names, maxFiles, maxFiles, j);
    }
  }

  predicate NeedsRotation(d: Disk, maxFileSize: nat)
  {
    0 in d.names && d.names[0] in d.data && Size(d.data[d.names[0]]) >= maxFileSize
  }

  function Rotate(d: Disk, maxFileSize: nat, maxFiles: nat): Disk
  {
    if NeedsRotation(d, maxFileSize) then d.(names := Shifted(d.names, maxFiles, 0), handle := None) else d
  }

  function OpenCurrent(d: Disk): Disk
  {
    if d.handle.Some? then d
    else if 0 in d.names then d.(handle := Some(d.names[0]))
    else Disk(d.names[0 := d.next], d.data[d.next := []], Some(d.next), d.next + 1)
  }

  function Append(d: Disk, r: Record): Disk
    requires d.handle.Some? && d.handle.value in d.data
  {
    d.(data := d.data[d.handle.value := d.data[d.handle.value] + [r]])
  }

  /** The handle points at the current file and every name at a file. */
  predicate Sound(d: Disk)
  {
    && (forall j :: j in d.names ==> d.names[j] in d.data && d.names[j] < d.next)
    && (forall j, k :: j in d.names && k in d.names && d.names[j] == d.names[k] ==> j == k)
    && (d.handle.Some? ==> 0 in d.names && d.names[0] == d.handle.value)
  }

  /** Renaming never gives two names to one file. */
  lemma {:induction false} ShiftKeepsApart(d: Disk, maxFiles: nat, j: nat, k: nat)
    requires Sound(d) && j in Shifted(d.names, maxFiles, 0) && k in Shifted(d.names, maxFiles, 0)
    ensures Shifted(d.names, maxFiles, 0)[j] in d.data && Shifted(d.names, maxFiles, 0)[j] < d.next
    ensures Shifted(d.names, maxFiles, 0)[j] == Shifted(d.names, maxFiles, 0)[k] ==> j == k
  {
    ShiftedAt(d.names, maxFiles, 0, j);
    ShiftedAt(d.names, maxFiles, 0, k);
  }

  lemma {:induction false} RotateIsSound(d: Disk, maxFileSize: nat, maxFiles: nat)
    requires Sound(d)
    ensures Sound(Rotate(d, maxFileSize, maxFiles))
  {
    var s := Shifted(d.names, maxFiles, 0);
    forall j, k | j in s && k in s
      ensures s[j] in d.data && s[j] < d.next && (s[j] == s[k] ==> j == k)
    {
      ShiftKeepsApart(d, maxFiles, j, k);
    }
  }

  function WriteLogStep(d: Disk, r: Record, maxFileSize: nat, maxFiles: nat): (e: Disk)
    requires Sound(d)
    ensures Sound(e)
  {
    RotateIsSound(d, maxFileSize, maxFiles);
    Append(OpenCurrent(Rotate(d, maxFileSize, maxFiles)), r)
  }

  /** A new writer over the same files: only the open handle is lost. */
  function Reopened(d: Disk): Disk { d.(handle := None) }

  class FileLogWriter {
    const maxFileSize: nat
    const maxFiles: nat
    var names: map<nat, Inode>
    var data: map<Inode, seq<Record>>
    var currentFile: Option<Inode>
    var next: Inode

    ghost function View(): Disk
      reads this
    {
      Disk(names, data, currentFile, next)
    }

    /** A writer over the files already in the directory, with no file open. */
    constructor (found: Disk, maxFileSize: nat, maxFiles: nat)
      ensures View() == Reopened(found) && this.maxFileSize == maxFileSize && this.maxFiles == maxFiles
    {
      this.maxFileSize := maxFileSize;
      this.maxFiles := maxFiles;
      names, data, currentFile, next := found.names, found.data, None, found.next;
    }

    /** The rename loop, from the highest index down. */
    method RenameFiles()
      modifies this`names
      ensures names == Shifted(old(names), maxFiles, 0)
    {
      var i := maxFiles;
      NothingShifted(names, maxFiles);
      while i > 0
        invariant 0 <= i <= maxFiles
        invariant names == Shifted(old(names), maxFiles, i)
      {
        i := i - 1;
        RenameUpShifts(old(names), maxFiles, i);
        ghost var before := names;
        if i in names {
          var moved := names[i];
          RemoveMissing(names, i + 1);
          if i + 1 in names {
            names := names - {i + 1};
          }
          names := names[i + 1 := moved];
          names := names - {i};
        }
        assert names == RenameUp(before, i);
      }
    }

    method RotateIfNeeded()
      requires Sound(View())
      modifies this
      ensures View() == Rotate(old(View()), maxFileSize, maxFiles)
    {
      if 0 in names {
        if Size(data[names[0]]) >= maxFileSize {
          RenameFiles();
          currentFile := None;
        }
      }
    }

    method GetOrCreateFile() returns (file: Inode)
      requires Sound(View())
      modifies this
      ensures View() == OpenCurrent(Rotate(old(View()), maxFileSize, maxFiles))
      ensures Sound(View()) && currentFile == Some(file) && file in data
    {
      RotateIsSound(View(), maxFileSize, maxFiles);
      RotateIfNeeded();
      if currentFile.Some? {
        return currentFile.value;
      }
      if 0 !in names {
        names := names[0 := next];
        data := data[next := []];
        next := next + 1;
      }
      file := names[0];
      currentFile := Some(file);
    }

    method WriteLog(r: Record)
      requires Sound(View())
      modifies this
      ensures View() == WriteLogStep(old(View()), r, maxFileSize, maxFiles)
      ensures Sound(View())
    {
      var file := GetOrCreateFile();
      data := data[file := data[file] + [r]];
    }

    /** `read_logs`: files 0..5, filtered by level, newest first, cut to the limit. */
    method ReadLogs(limit: Option<nat>, level: Option<string>) returns (entries: seq<Record>)
      requires Sound(View())
      ensures entries == Truncate(SortNewestFirst(Gather(View(), READ_FILES, level)), limit)
    {
      entries := [];
      for i := 0 to READ_FILES
        invariant entries == Gather(View(), i, level)
      {
        if i !in names {
          assert entries + [] == entries;
          continue;
        }
        entries := PushLines(entries, data[names[i]], level);
      }
      entries := SortNewestFirst(entries);
      if limit.Some? && limit.value < |entries| {
        entries := entries[..limit.value];
      }
    }
  }

  // ---------------------------------------------------------------- reading

  /** The inner loop of `read_logs` over the lines of one file. */
  method PushLines(entries: seq<Record>, content: seq<Record>, level: Option<string>) returns (more: seq<Record>)
    ensures more == entries + WithLevel(content, level)
  {
    more := entries;
    for n := 0 to |content|
      invariant more == entries + WithLevel(content[..n], level)
    {
      assert Front(content[..n + 1]) == content[..n];
      if level.Some? && content[n].level != level.value {
        continue;
      }
      more := more + [content[n]];
    }
    assert content[..|content|] == content;
  }

  function WithLevel(records: seq<Record>, level: Option<string>): seq<Record>
  {
    if records == [] then []
    else
      WithLevel(Front(records), level) +
      if level.Some? && Last(records).level != level.value then [] else [Last(records)]
  }

  /** How many file names the reader tries, whatever the writer's `maxFiles` is. */
  const READ_FILES: nat := 6

  /** What the reader pushes for the first `n` file names. */
  function Gather(d: Disk, n: nat, level: Option<string>): seq<Record>
  {
    if n == 0 then []
    else
      Gather(d, n - 1, level) +
      if n - 1 in d.names && d.names[n - 1] in d.data then WithLevel(d.data[d.names[n - 1]], level) else []
  }

  function InsertNewestFirst(sorted: seq<Record>, r: Record): seq<Record>
  {
    if sorted == [] then [r]
    else if Last(sorted).timestamp >= r.timestamp then sorted + [r]
    else InsertNewestFirst(Front(sorted), r) + [Last(sorted)]
  }

  /** A stable sort by descending timestamp. */
  function SortNewestFirst(records: seq<Record>): seq<Record>
  {
    if records == [] then [] else InsertNewestFirst(SortNewestFirst(Front(records)), Last(records))
  }

  function Truncate(records: seq<Record>, limit: Option<nat>): seq<Record>
  {
    if limit.Some? && limit.value < |records| then records[..limit.value] else records
  }

  predicate NewestFirst(records: seq<Record>)
  {
    forall i, j :: 0 <= i < j < |records| ==> records[i].timestamp >= records[j].timestamp
  }

  lemma {:induction false} MembersSnoc(s: seq<Record>, r: Record)
    ensures multiset(s + [r]) == multiset(s) + multiset{r}
  {
  }

  lemma {:induction false} InsertMembers(sorted: seq<Record>, r: Record)
    ensures multiset(InsertNewestFirst(sorted, r)) == multiset(sorted) + multiset{r}
  {
    if sorted != [] && Last(sorted).timestamp < r.timestamp {
      var last := Last(sorted);
      InsertMembers(Front(sorted), r);
      assert sorted == Front(sorted) + [last];
      MembersSnoc(Front(sorted), last);
      MembersSnoc(InsertNewestFirst(Front(sorted), r), last);
    } else {
      MembersSnoc(sorted, r);
    }
  }

  /** What is inserted or was there is at least as new as the old last record. */
  lemma {:induction false} InsertAbove(sorted: seq<Record>, r: Record, floor: int)
    requires r.timestamp >= floor && forall i :: 0 <= i < |sorted| ==> sorted[i].timestamp >= floor
    ensures forall i :: 0 <= i < |InsertNewestFirst(sorted, r)| ==> InsertNewestFirst(sorted, r)[i].timestamp >= floor
  {
    if sorted != [] && Last(sorted).timestamp < r.timestamp {
      InsertAbove(Front(sorted), r, floor);
    }
  }

  lemma {:induction false} InsertIsSorted(sorted: seq<Record>, r: Record)
    requires NewestFirst(sorted)
    ensures NewestFirst(InsertNewestFirst(sorted, r))
  {
    if sorted != [] && Last(sorted).timestamp < r.timestamp {
      InsertIsSorted(Front(sorted), r);
      InsertAbove(Front(sorted), r, Last(sorted).timestamp);
    }
  }

  /** The reader's sort is a sort: ordered, and a permutation of what was gathered. */
  lemma {:induction false} SortIsSorted(records: seq<Record>)
    ensures NewestFirst(SortNewestFirst(records))
    ensures multiset(SortNewestFirst(records)) == multiset(records)
    decreases |records|
  {
    if records != [] {
      SortIsSorted(Front(records));
      InsertIsSorted(SortNewestFirst(Front(records)), Last(records));
      InsertMembers(SortNewestFirst(Front(records)), Last(records));
      assert records == Front(records) + [Last(records)];
    }
  }

  predicate StrictlyNewestFirst(records: seq<Record>)
  {
    forall i, j :: 0 <= i < j < |records| ==> records[i].timestamp > records[j].timestamp
  }

  lemma {:induction false} SameNewest(a: seq<Record>, b: seq<Record>)
    requires StrictlyNewestFirst(a) && NewestFirst(b) && multiset(a) == multiset(b) && a != []
    ensures b != [] && a[0] == b[0] && multiset(a[1..]) == multiset(b[1..])
  {
    assert a[0] in multiset(b);
    assert b[0] in multiset(a);
    var i :| 0 <= i < |b| && b[i] == a[0];
    var j :| 0 <= j < |a| && a[j] == b[0];
    TailMembers(a);
    TailMembers(b);
  }

  lemma {:induction false} TailMembers(s: seq<Record>)
    requires s != []
    ensures multiset(s[1..]) == multiset(s) - multiset{s[0]}
  {
    assert s == [s[0]] + s[1..];
  }

  /** With distinct timestamps the sorted order is unique. */
  lemma {:induction false} SortedIsUnique(a: seq<Record>, b: seq<Record>)
    requires StrictlyNewestFirst(a) && NewestFirst(b) && multiset(a) == multiset(b)
    ensures a == b
    decreases |a|
  {
    assert |multiset(a)| == |a| && |multiset(b)| == |b|;
    if a != [] {
      SameNewest(a, b);
      SortedIsUnique(a[1..], b[1..]);
      assert a == [a[0]] + a[1..] && b == [b[0]] + b[1..];
    }
  }

  // ---------------------------------------------------------------- the files as a list

  /** Files newest first; the effect of one `write_log` on that list. */
  function WriteFiles(files: seq<seq<Record>>, r: Record, maxFileSize: nat, maxFiles: nat): seq<seq<Record>>
  {
    if files == [] then [[r]]
    else if Size(files[0]) >= maxFileSize && maxFiles > 0 then
      [[r]] + files[..if |files| < maxFiles then |files| else maxFiles]
    else [files[0] + [r]] + files[1..]
  }

  /** The directory holds exactly names 0..k-1. */
  ghost predicate Holds(d: Disk, k: nat)
  {
    Sound(d) && forall j :: j in d.names <==> 0 <= j < k
  }

  ghost function FilesOf(d: Disk, k: nat): seq<seq<Record>>
    requires Holds(d, k)
  {
    seq(k, i requires 0 <= i < k => d.data[d.names[i]])
  }

  lemma {:induction false} RotateHolds(d: Disk, k: nat, maxFileSize: nat, maxFiles: nat)
    requires Holds(d, k) && k <= maxFiles + 1 && NeedsRotation(d, maxFileSize) && maxFiles > 0
    ensures var e, m := Rotate(d, maxFileSize, maxFiles), if k < maxFiles then k else maxFiles;
            && Sound(e) && e.handle.None? && e.data == d.data && e.next == d.next
            && (forall j :: j in e.names <==> 1 <= j <= m)
            && (forall j :: 1 <= j <= m ==> e.names[j] == d.names[j - 1])
  {
    RotateIsSound(d, maxFileSize, maxFiles);
    var e := Rotate(d, maxFileSize, maxFiles);
    forall j: nat
      ensures j in e.names <==> ShiftSource(d.names, maxFiles, 0, j).Some?
      ensures j in e.names ==> e.names[j] == ShiftSource(d.names, maxFiles, 0, j).value
    {
      ShiftedAt(d.names, maxFiles, 0, j);
    }
  }

  lemma {:induction false} NoRenames(d: Disk, maxFileSize: nat)
    ensures Rotate(d, maxFileSize, 0) == if NeedsRotation(d, maxFileSize) then d.(handle := None) else d
  {
    NothingShifted(d.names, 0);
  }

  /** Appending to the current file of a sound directory changes only the first file of the list. */
  lemma {:induction false} AppendHolds(d: Disk, k: nat, r: Record)
    requires Holds(d, k) && k > 0
    ensures Holds(Append(OpenCurrent(d), r), k)
    ensures FilesOf(Append(OpenCurrent(d), r), k) == [FilesOf(d, k)[0] + [r]] + FilesOf(d, k)[1..]
  {
  }

  /** Starting the current file afresh shifts nothing further. */
  lemma {:induction false} CreateHolds(e: Disk, m: nat, r: Record)
    requires Sound(e) && e.handle.None? && forall j :: j in e.names <==> 1 <= j <= m
    ensures Holds(Append(OpenCurrent(e), r), m + 1)
    ensures FilesOf(Append(OpenCurrent(e), r), m + 1) == [[r]] + seq(m, i requires 0 <= i < m => e.data[e.names[i + 1]])
  {
    var d := Append(OpenCurrent(e), r);
    assert d.data[e.next] == [] + [r] == [r];
    var older := seq(m, i requires 0 <= i < m => e.data[e.names[i + 1]]);
    forall i | 0 <= i < m + 1
      ensures FilesOf(d, m + 1)[i] == ([[r]] + older)[i]
    {
      if i > 0 {
        assert d.names[i] == e.names[i] && e.names[i] != e.next;
        assert older[i - 1] == e.data[e.names[i - 1 + 1]];
      }
    }
  }

  /** A rotating write: a new first file, the others one index up, at most `maxFiles` of them kept. */
  lemma {:induction false} RotatingWrite(d: Disk, k: nat, m: nat, r: Record, maxFileSize: nat, maxFiles: nat)
    requires Holds(d, k) && k <= maxFiles + 1 && maxFiles > 0 && NeedsRotation(d, maxFileSize)
    requires m == if k < maxFiles then k else maxFiles
    ensures Holds(WriteLogStep(d, r, maxFileSize, maxFiles), m + 1)
    ensures FilesOf(WriteLogStep(d, r, maxFileSize, maxFiles), m + 1) == [[r]] + FilesOf(d, k)[..m]
  {
    var e := Rotate(d, maxFileSize, maxFiles);
    RotateHolds(d, k, maxFileSize, maxFiles);
    CreateHolds(e, m, r);
    assert seq(m, i requires 0 <= i < m => e.data[e.names[i + 1]]) == FilesOf(d, k)[..m];
  }

  /** A write that renames nothing: the record joins the first file. */
  lemma {:induction false} PlainWrite(d: Disk, k: nat, r: Record, maxFileSize: nat, maxFiles: nat)
    requires Holds(d, k) && k > 0 && (maxFiles == 0 || !NeedsRotation(d, maxFileSize))
    ensures Holds(WriteLogStep(d, r, maxFileSize, maxFiles), k)
    ensures FilesOf(WriteLogStep(d, r, maxFileSize, maxFiles), k) == [FilesOf(d, k)[0] + [r]] + FilesOf(d, k)[1..]
  {
    NoRenames(d, maxFileSize);
    var e := Rotate(d, maxFileSize, maxFiles);
    assert Holds(e, k) && FilesOf(e, k) == FilesOf(d, k);
    AppendHolds(e, k, r);
  }

  /** The renames, handles and appends on disk refine the list step. */
  lemma {:induction false} WriteRefines(d: Disk, k: nat, r: Record, maxFileSize: nat, maxFiles: nat)
    requires Holds(d, k) && k <= maxFiles + 1
    ensures var files := WriteFiles(FilesOf(d, k), r, maxFileSize, maxFiles);
            && |files| <= maxFiles + 1
            && Holds(WriteLogStep(d, r, maxFileSize, maxFiles), |files|)
            && FilesOf(WriteLogStep(d, r, maxFileSize, maxFiles), |files|) == files
  {
    assert k > 0 ==> (NeedsRotation(d, maxFileSize) <==> Size(FilesOf(d, k)[0]) >= maxFileSize);
    if k == 0 {
      CreateHolds(d, 0, r);
    } else if maxFiles > 0 && NeedsRotation(d, maxFileSize) {
      RotatingWrite(d, k, if k < maxFiles then k else maxFiles, r, maxFileSize, maxFiles);
    } else {
      PlainWrite(d, k, r, maxFileSize, maxFiles);
    }
  }

  /** The list after writing `records` over the files `start`. */
  function RunFiles(start: seq<seq<Record>>, records: seq<Record>, maxFileSize: nat, maxFiles: nat): seq<seq<Record>>
  {
    if records == [] then start
    else WriteFiles(RunFiles(start, Front(records), maxFileSize, maxFiles), Last(records), maxFileSize, maxFiles)
  }

  datatype Event = Write(record: Record) | Reopen

  function Written(events: seq<Event>): seq<Record>
  {
    if events == [] then []
    else Written(Front(events)) + if Last(events).Write? then [Last(events).record] else []
  }

  /** Any run of writes and reopenings over a directory. */
  function RunDisk(d: Disk, events: seq<Event>, maxFileSize: nat, maxFiles: nat): (e: Disk)
    requires Sound(d)
    ensures Sound(e)
  {
    if events == [] then d
    else
      var before := RunDisk(d, Front(events), maxFileSize, maxFiles);
      match Last(events)
      case Write(r) => WriteLogStep(before, r, maxFileSize, maxFiles)
      case Reopen => Reopened(before)
  }

  /** Every run over any directory of files 0..k-1 leaves on disk exactly the list run over those files. */
  lemma {:induction false} RunRefines(d: Disk, k: nat, events: seq<Event>, maxFileSize: nat, maxFiles: nat)
    requires Holds(d, k) && k <= maxFiles + 1
    ensures var files := RunFiles(FilesOf(d, k), Written(events), maxFileSize, maxFiles);
            var e := RunDisk(d, events, maxFileSize, maxFiles);
            |files| <= maxFiles + 1 && Holds(e, |files|) && FilesOf(e, |files|) == files
    decreases |events|
  {
    if events != [] {
      var before, earlier := RunDisk(d, Front(events), maxFileSize, maxFiles), Written(Front(events));
      var files := RunFiles(FilesOf(d, k), earlier, maxFileSize, maxFiles);
      RunRefines(d, k, Front(events), maxFileSize, maxFiles);
      match Last(events)
      case Write(r) =>
        assert Front(earlier + [r]) == earlier && Last(earlier + [r]) == r;
        WriteRefines(before, |files|, r, maxFileSize, maxFiles);
      case Reopen =>
        assert earlier + [] == earlier;
        assert FilesOf(Reopened(before), |files|) == FilesOf(before, |files|);
    }
  }

  // ---------------------------------------------------------------- what is retained

  /** The records on disk, from the oldest file to the newest. */
  function Retained(files: seq<seq<Record>>): seq<Record>
  {
    if files == [] then [] else Retained(files[1..]) + files[0]
  }

  lemma {:induction false} RetainedSplit(files: seq<seq<Record>>, m: nat)
    requires m <= |files|
    ensures Retained(files) == Retained(files[m..]) + Retained(files[..m])
    decreases m
  {
    if m == 0 {
      assert files[0..] == files && Retained(files[..0]) == [];
    } else {
      RetainedSplit(files[1..], m - 1);
      assert files[1..][m - 1..] == files[m..] && files[1..][..m - 1] == files[..m][1..];
    }
  }

  /** One write adds its record at the end and may lose a prefix, only when all files exist. */
  lemma {:induction false} WriteRetains(files: seq<seq<Record>>, r: Record, maxFileSize: nat, maxFiles: nat) returns (lost: nat)
    requires |files| <= maxFiles + 1
    ensures lost <= |Retained(files)|
    ensures Retained(WriteFiles(files, r, maxFileSize, maxFiles)) == Retained(files)[lost..] + [r]
    ensures lost > 0 ==> |WriteFiles(files, r, maxFileSize, maxFiles)| == maxFiles + 1
    ensures |files| <= |WriteFiles(files, r, maxFileSize, maxFiles)| <= maxFiles + 1
  {
    lost := 0;
    var after := WriteFiles(files, r, maxFileSize, maxFiles);
    if files == [] {
      assert after[1..] == [];
    } else if Size(files[0]) >= maxFileSize && maxFiles > 0 {
      var m := if |files| < maxFiles then |files| else maxFiles;
      RetainedSplit(files, m);
      assert after[1..] == files[..m];
      lost := |Retained(files[m..])|;
      assert files[m..] == [] ==> lost == 0;
      assert Retained(files)[lost..] == Retained(files[..m]);
    } else {
      assert after[1..] == files[1..];
      assert Retained(files[1..]) + (files[0] + [r]) == Retained(files) + [r];
    }
  }

  /**
   * The files concatenate, oldest to newest, to a suffix of what was there at first followed by
   * all records written; records are dropped only once all `maxFiles + 1` files exist.
   */
  lemma {:induction false} RetainedIsSuffix(start: seq<seq<Record>>, records: seq<Record>, maxFileSize: nat, maxFiles: nat)
    returns (dropped: nat)
    requires |start| <= maxFiles + 1
    ensures dropped <= |Retained(start) + records|
    ensures Retained(RunFiles(start, records, maxFileSize, maxFiles)) == (Retained(start) + records)[dropped..]
    ensures dropped > 0 ==> |RunFiles(start, records, maxFileSize, maxFiles)| == maxFiles + 1
    ensures |RunFiles(start, records, maxFileSize, maxFiles)| <= maxFiles + 1
    decreases |records|
  {
    dropped := 0;
    var all := Retained(start) + records;
    if records == [] {
      assert all == Retained(start);
    } else {
      var earlier := RetainedIsSuffix(start, Front(records), maxFileSize, maxFiles);
      var lost := WriteRetains(RunFiles(start, Front(records), maxFileSize, maxFiles), Last(records), maxFileSize, maxFiles);
      dropped := earlier + lost;
      assert Front(all) == Retained(start) + Front(records) && Last(all) == Last(records);
      SuffixOfSuffix(all, earlier, lost);
    }
  }

  lemma {:induction false} SuffixOfSuffix(records: seq<Record>, a: nat, b: nat)
    requires records != [] && a + b < |records|
    ensures Front(records)[a..][b..] + [Last(records)] == records[a + b..]
  {
  }

  /** A file that was within the limit before its last record was added. */
  predicate WithinLimit(file: seq<Record>, maxFileSize: nat)
  {
    file != [] && (Front(file) == [] || Size(Front(file)) < maxFileSize)
  }

  predicate AllWithinLimit(files: seq<seq<Record>>, maxFileSize: nat)
  {
    forall i :: 0 <= i < |files| ==> WithinLimit(files[i], maxFileSize)
  }

  lemma {:induction false} WriteWithinLimit(files: seq<seq<Record>>, r: Record, maxFileSize: nat, maxFiles: nat)
    requires maxFiles > 0 && AllWithinLimit(files, maxFileSize)
    ensures AllWithinLimit(WriteFiles(files, r, maxFileSize, maxFiles), maxFileSize)
  {
    assert Front([r]) == [];
    if files != [] {
      assert Front(files[0] + [r]) == files[0];
    }
  }

  /** With at least one rotated file, every file exceeds the limit by less than its last record. */
  lemma {:induction false} FilesWithinLimit(start: seq<seq<Record>>, records: seq<Record>, maxFileSize: nat, maxFiles: nat)
    requires maxFiles > 0 && AllWithinLimit(start, maxFileSize)
    ensures AllWithinLimit(RunFiles(start, records, maxFileSize, maxFiles), maxFileSize)
    decreases |records|
  {
    if records != [] {
      FilesWithinLimit(start, Front(records), maxFileSize, maxFiles);
      WriteWithinLimit(RunFiles(start, Front(records), maxFileSize, maxFiles), Last(records), maxFileSize, maxFiles);
    }
  }

  predicate RotatedAreFull(files: seq<seq<Record>>, maxFileSize: nat)
  {
    forall i :: 1 <= i < |files| ==> Size(files[i]) >= maxFileSize
  }

  lemma {:induction false} WriteRotatesFull(files: seq<seq<Record>>, r: Record, maxFileSize: nat, maxFiles: nat)
    requires RotatedAreFull(files, maxFileSize)
    ensures RotatedAreFull(WriteFiles(files, r, maxFileSize, maxFiles), maxFileSize)
  {
    var after := WriteFiles(files, r, maxFileSize, maxFiles);
    forall i | 1 <= i < |after|
      ensures Size(after[i]) >= maxFileSize
    {
      if Size(files[0]) >= maxFileSize && maxFiles > 0 {
        assert after[i] == files[i - 1];
      } else {
        assert after[i] == files[i];
      }
    }
  }

  /** And no file is rotated early: every file but the current one has reached the limit. */
  lemma {:induction false} RotatedFilesAreFull(start: seq<seq<Record>>, records: seq<Record>, maxFileSize: nat, maxFiles: nat)
    requires RotatedAreFull(start, maxFileSize)
    ensures RotatedAreFull(RunFiles(start, records, maxFileSize, maxFiles), maxFileSize)
    decreases |records|
  {
    if records != [] {
      RotatedFilesAreFull(start, Front(records), maxFileSize, maxFiles);
      WriteRotatesFull(RunFiles(start, Front(records), maxFileSize, maxFiles), Last(records), maxFileSize, maxFiles);
    }
  }

  /** With no rotated file the limit is never enforced: one file keeps every record. */
  lemma {:induction false} ZeroRotatedKeepsOneFile(start: seq<seq<Record>>, records: seq<Record>, maxFileSize: nat)
    requires |start| <= 1
    ensures RunFiles(start, records, maxFileSize, 0) ==
            if records == [] then start else [(if start == [] then [] else start[0]) + records]
    decreases |records|
  {
    if records != [] {
      var first := if start == [] then [] else start[0];
      ZeroRotatedKeepsOneFile(start, Front(records), maxFileSize);
      assert Front(records) + [Last(records)] == records;
      assert first + records == (first + Front(records)) + [Last(records)];
      assert Front(records) == [] ==> first + Front(records) == first;
      assert start != [] ==> start == [start[0]];
    }
  }

  /** In bytes: below the limit plus the last line, for every limit but zero. */
  lemma {:induction false} ExcessBelowOneRecord(file: seq<Record>, maxFileSize: nat)
    requires WithinLimit(file, maxFileSize)
    ensures Size(file) < maxFileSize + |Last(file).line| + 1 <==> maxFileSize > 0
  {
  }

  // ---------------------------------------------------------------- reading back

  function Reverse(s: seq<Record>): (r: seq<Record>)
    ensures |r| == |s| && forall i :: 0 <= i < |s| ==> r[i] == s[|s| - 1 - i]
  {
    seq(|s|, i requires 0 <= i < |s| => s[|s| - 1 - i])
  }

  /** The first `n` files, or all of them. */
  function Newest(files: seq<seq<Record>>, n: nat): seq<seq<Record>>
  {
    files[..if |files| < n then |files| else n]
  }

  lemma {:induction false} WithLevelConcat(a: seq<Record>, b: seq<Record>, level: Option<string>)
    ensures WithLevel(a + b, level) == WithLevel(a, level) + WithLevel(b, level)
    decreases |b|
  {
    if b == [] {
      assert a + b == a;
    } else {
      assert Front(a + b) == a + Front(b) && Last(a + b) == Last(b);
      WithLevelConcat(a, Front(b), level);
    }
  }

  lemma {:induction false} RetainedSnoc(files: seq<seq<Record>>, f: seq<Record>)
    ensures Retained(files + [f]) == f + Retained(files)
  {
    RetainedSplit(files + [f], |files|);
    assert (files + [f])[|files|..] == [f] && (files + [f])[..|files|] == files;
    assert [f][1..] == [] && Retained([f]) == [] + f == f;
  }

  /** `Gather` over a list of files. */
  function GatherList(files: seq<seq<Record>>, level: Option<string>): seq<Record>
  {
    if files == [] then [] else GatherList(Front(files), level) + WithLevel(Last(files), level)
  }

  lemma {:induction false} NewestSnoc(files: seq<seq<Record>>, n: nat)
    requires n > 0
    ensures n <= |files| ==>
              Newest(files, n) != [] && Front(Newest(files, n)) == Newest(files, n - 1) && Last(Newest(files, n)) == files[n - 1]
    ensures n > |files| ==> Newest(files, n) == Newest(files, n - 1)
  {
  }

  lemma {:induction false} GatherReadsList(d: Disk, k: nat, n: nat, level: Option<string>)
    requires Holds(d, k)
    ensures Gather(d, n, level) == GatherList(Newest(FilesOf(d, k), n), level)
    decreases n
  {
    var files := FilesOf(d, k);
    if n > 0 {
      GatherReadsList(d, k, n - 1, level);
      NewestSnoc(files, n);
      assert n <= k ==> files[n - 1] == d.data[d.names[n - 1]];
    }
  }

  lemma {:induction false} ListIsPermutation(files: seq<seq<Record>>, level: Option<string>)
    ensures multiset(GatherList(files, level)) == multiset(WithLevel(Retained(files), level))
    decreases |files|
  {
    if files != [] {
      ListIsPermutation(Front(files), level);
      assert files == Front(files) + [Last(files)];
      RetainedSnoc(Front(files), Last(files));
      WithLevelConcat(Last(files), Retained(Front(files)), level);
      Commute(GatherList(Front(files), level), WithLevel(Retained(Front(files)), level), WithLevel(Last(files), level));
    }
  }

  lemma {:induction false} Commute(a: seq<Record>, b: seq<Record>, c: seq<Record>)
    requires multiset(a) == multiset(b)
    ensures multiset(a + c) == multiset(c + b)
  {
  }

  /** The reader gathers newest file first what the files hold oldest first: a permutation. */
  lemma {:induction false} GatherIsPermutation(d: Disk, k: nat, n: nat, level: Option<string>)
    requires Holds(d, k)
    ensures multiset(Gather(d, n, level)) == multiset(WithLevel(Retained(Newest(FilesOf(d, k), n)), level))
  {
    GatherReadsList(d, k, n, level);
    ListIsPermutation(Newest(FilesOf(d, k), n), level);
  }

  predicate StrictlyIncreasing(records: seq<Record>)
  {
    forall i, j :: 0 <= i < j < |records| ==> records[i].timestamp < records[j].timestamp
  }

  predicate HasLevel(r: Record, level: Option<string>) { level.Some? ==> r.level == level.value }

  /** The filter keeps every record of the wanted level as often as it occurs, and no other. */
  lemma {:induction false} WithLevelKeeps(records: seq<Record>, level: Option<string>, r: Record)
    ensures multiset(WithLevel(records, level))[r] == if HasLevel(r, level) then multiset(records)[r] else 0
    decreases |records|
  {
    if records != [] {
      WithLevelKeeps(Front(records), level, r);
      MembersSnoc(Front(records), Last(records));
      MembersSnoc(WithLevel(Front(records), level), Last(records));
      assert Front(records) + [Last(records)] == records;
      assert WithLevel(Front(records), level) + [] == WithLevel(Front(records), level);
    }
  }

  lemma {:induction false} WithLevelMembers(records: seq<Record>, level: Option<string>, r: Record)
    requires r in WithLevel(records, level)
    ensures r in records
    decreases |records|
  {
    assert records == Front(records) + [Last(records)];
    if r != Last(records) {
      WithLevelMembers(Front(records), level, r);
    }
  }

  lemma {:induction false} IncreasingSnoc(records: seq<Record>, r: Record)
    requires StrictlyIncreasing(records) && forall x :: x in records ==> x.timestamp < r.timestamp
    ensures StrictlyIncreasing(records + [r])
  {
  }

  lemma {:induction false} LastIsNewest(records: seq<Record>, r: Record)
    requires records != [] && StrictlyIncreasing(records) && r in Front(records)
    ensures r.timestamp < Last(records).timestamp
  {
  }

  lemma {:induction false} WithLevelKeepsOrder(records: seq<Record>, level: Option<string>)
    requires StrictlyIncreasing(records)
    ensures StrictlyIncreasing(WithLevel(records, level))
    decreases |records|
  {
    if records != [] {
      var kept := WithLevel(Front(records), level);
      WithLevelKeepsOrder(Front(records), level);
      forall x | x in kept
        ensures x.timestamp < Last(records).timestamp
      {
        WithLevelMembers(Front(records), level, x);
        LastIsNewest(records, x);
      }
      IncreasingSnoc(kept, Last(records));
    }
  }

  lemma {:induction false} ReverseIsPermutation(s: seq<Record>)
    ensures multiset(Reverse(s)) == multiset(s)
    decreases |s|
  {
    if s != [] {
      ReverseIsPermutation(Front(s));
      assert Reverse(s) == [Last(s)] + Reverse(Front(s));
      assert s == Front(s) + [Last(s)];
    }
  }

  /** Sorting any permutation of strictly increasing records gives their reversal. */
  lemma {:induction false} SortReverses(gathered: seq<Record>, ordered: seq<Record>)
    requires StrictlyIncreasing(ordered) && multiset(gathered) == multiset(ordered)
    ensures SortNewestFirst(gathered) == Reverse(ordered)
  {
    SortIsSorted(gathered);
    ReverseIsPermutation(ordered);
    SortedIsUnique(Reverse(ordered), SortNewestFirst(gathered));
  }

  lemma {:induction false} SuffixIncreasing(records: seq<Record>, n: nat)
    requires StrictlyIncreasing(records) && n <= |records|
    ensures StrictlyIncreasing(records[n..])
  {
  }

  /** Reading a directory whose visible files hold `ordered` gives the wanted part of it reversed. */
  lemma {:induction false} ReadsBack(d: Disk, k: nat, ordered: seq<Record>, level: Option<string>)
    requires Holds(d, k) && Retained(Newest(FilesOf(d, k), READ_FILES)) == ordered && StrictlyIncreasing(ordered)
    ensures SortNewestFirst(Gather(d, READ_FILES, level)) == Reverse(WithLevel(ordered, level))
  {
    WithLevelKeepsOrder(ordered, level);
    GatherIsPermutation(d, k, READ_FILES, level);
    SortReverses(Gather(d, READ_FILES, level), WithLevel(ordered, level));
  }

  /** The newest `n` files hold a suffix of what all files hold, and everything if there are no more. */
  lemma {:induction false} NewestIsSuffix(files: seq<seq<Record>>, n: nat) returns (older: nat)
    ensures older <= |Retained(files)|
    ensures Retained(Newest(files, n)) == Retained(files)[older..]
    ensures |files| <= n ==> older == 0
  {
    var m := |Newest(files, n)|;
    RetainedSplit(files, m);
    older := |Retained(files[m..])|;
  }

  lemma {:induction false} SuffixAgain(records: seq<Record>, a: nat, b: nat)
    requires a <= |records| && b <= |records[a..]|
    ensures a + b <= |records| && records[a..][b..] == records[a + b..]
  {
  }

  /** Reading a directory whose files hold the end of `all`: the visible part of it, newest first. */
  lemma {:induction false} ReadsSuffix(d: Disk, k: nat, all: seq<Record>, dropped: nat, level: Option<string>)
    returns (invisible: nat)
    requires Holds(d, k) && StrictlyIncreasing(all) && dropped <= |all| && Retained(FilesOf(d, k)) == all[dropped..]
    ensures dropped <= invisible <= |all|
    ensures SortNewestFirst(Gather(d, READ_FILES, level)) == Reverse(WithLevel(all[invisible..], level))
    ensures all[invisible..] == Retained(Newest(FilesOf(d, k), 6))
    ensures k <= 6 ==> invisible == dropped
  {
    var older := NewestIsSuffix(FilesOf(d, k), READ_FILES);
    SuffixAgain(all, dropped, older);
    invisible := dropped + older;
    SuffixIncreasing(all, invisible);
    ReadsBack(d, k, all[invisible..], level);
  }

  /** All records ever, those found at first included. */
  ghost function AllRecords(d: Disk, k: nat, events: seq<Event>): seq<Record>
    requires Holds(d, k)
  {
    Retained(FilesOf(d, k)) + Written(events)
  }

  /** The same for the disk after a run: its files hold the end of all records ever. */
  lemma {:induction false} RunRetains(d: Disk, k: nat, events: seq<Event>, maxFileSize: nat, maxFiles: nat)
    returns (n: nat, dropped: nat)
    requires Holds(d, k) && k <= maxFiles + 1
    ensures n <= maxFiles + 1 && Holds(RunDisk(d, events, maxFileSize, maxFiles), n)
    ensures dropped <= |AllRecords(d, k, events)|
    ensures Retained(FilesOf(RunDisk(d, events, maxFileSize, maxFiles), n)) == AllRecords(d, k, events)[dropped..]
    ensures dropped > 0 ==> n == maxFiles + 1
  {
    RunRefines(d, k, events, maxFileSize, maxFiles);
    dropped := RetainedIsSuffix(FilesOf(d, k), Written(events), maxFileSize, maxFiles);
    n := |RunFiles(FilesOf(d, k), Written(events), maxFileSize, maxFiles)|;
  }

  /** How many records have the wanted level. */
  function LevelCount(records: seq<Record>, level: Option<string>): nat
  {
    if records == [] then 0 else LevelCount(Front(records), level) + if HasLevel(Last(records), level) then 1 else 0
  }

  /** `entries` are the newest visible records of the wanted level, as many as the limit allows, newest first. */
  predicate Answers(entries: seq<Record>, visible: seq<Record>, limit: Option<nat>, level: Option<string>)
  {
    && StrictlyNewestFirst(entries)
    && (forall i :: 0 <= i < |entries| ==> entries[i] in visible && HasLevel(entries[i], level))
    && |entries| == (if limit.Some? && limit.value < LevelCount(visible, level) then limit.value else LevelCount(visible, level))
    && (forall r :: r in visible && HasLevel(r, level) && r !in entries ==>
          forall i :: 0 <= i < |entries| ==> entries[i].timestamp > r.timestamp)
  }

  lemma {:induction false} WithLevelLength(records: seq<Record>, level: Option<string>)
    ensures |WithLevel(records, level)| == LevelCount(records, level)
    decreases |records|
  {
    if records != [] {
      WithLevelLength(Front(records), level);
    }
  }

  lemma {:induction false} WithLevelHas(records: seq<Record>, level: Option<string>, r: Record)
    ensures r in WithLevel(records, level) <==> r in records && HasLevel(r, level)
  {
    WithLevelKeeps(records, level, r);
    assert r in records <==> multiset(records)[r] > 0;
    assert r in WithLevel(records, level) <==> multiset(WithLevel(records, level))[r] > 0;
  }

  /** The newest of an increasing list, cut to the limit: what is left out is older than all that is kept. */
  lemma {:induction false} NewestOf(kept: seq<Record>, limit: Option<nat>, r: Record)
    requires StrictlyIncreasing(kept)
    ensures var entries := Truncate(Reverse(kept), limit);
            && StrictlyNewestFirst(entries)
            && |entries| == (if limit.Some? && limit.value < |kept| then limit.value else |kept|)
            && (r in entries ==> r in kept)
            && (r in kept && r !in entries ==> forall i :: 0 <= i < |entries| ==> entries[i].timestamp > r.timestamp)
  {
    var entries := Truncate(Reverse(kept), limit);
    forall n | |kept| - |entries| <= n < |kept|
      ensures kept[n] in entries
    {
      assert entries[|kept| - 1 - n] == kept[n];
    }
    if r in kept && r !in entries {
      var n :| 0 <= n < |kept| && kept[n] == r;
      assert n < |kept| - |entries|;
    }
  }

  lemma {:induction false} ReverseAnswers(visible: seq<Record>, limit: Option<nat>, level: Option<string>)
    requires StrictlyIncreasing(visible)
    ensures Answers(Truncate(Reverse(WithLevel(visible, level)), limit), visible, limit, level)
  {
    var kept := WithLevel(visible, level);
    var entries := Truncate(Reverse(kept), limit);
    WithLevelKeepsOrder(visible, level);
    WithLevelLength(visible, level);
    forall r: Record
      ensures r in entries ==> r in visible && HasLevel(r, level)
      ensures r in visible && HasLevel(r, level) && r !in entries ==>
                forall i :: 0 <= i < |entries| ==> entries[i].timestamp > r.timestamp
    {
      WithLevelHas(visible, level, r);
      NewestOf(kept, limit, r);
    }
    if visible != [] {
      NewestOf(kept, limit, visible[0]);
    } else {
      assert kept == [] && entries == [];
    }
  }

  /**
   * After any run over any directory, with strictly increasing timestamps, the reader returns the
   * newest visible records of the wanted level, as many as the limit allows, newest first; the
   * visible records are those of the six newest files, a suffix of all records ever, and with at
   * most five rotated files everything still on disk.
   */
  lemma {:induction false} ReadsNewestFirst(
    d: Disk, k: nat, events: seq<Event>, maxFileSize: nat, maxFiles: nat, limit: Option<nat>, level: Option<string>)
    returns (n: nat, invisible: nat)
    requires Holds(d, k) && k <= maxFiles + 1 && StrictlyIncreasing(AllRecords(d, k, events))
    ensures invisible <= |AllRecords(d, k, events)| && Holds(RunDisk(d, events, maxFileSize, maxFiles), n)
    ensures Answers(Truncate(SortNewestFirst(Gather(RunDisk(d, events, maxFileSize, maxFiles), READ_FILES, level)), limit),
                    AllRecords(d, k, events)[invisible..], limit, level)
    ensures AllRecords(d, k, events)[invisible..] == Retained(Newest(FilesOf(RunDisk(d, events, maxFileSize, maxFiles), n), 6))
    ensures maxFiles <= 5 ==>
              AllRecords(d, k, events)[invisible..] == Retained(FilesOf(RunDisk(d, events, maxFileSize, maxFiles), n))
  {
    var dropped;
    n, dropped := RunRetains(d, k, events, maxFileSize, maxFiles);
    invisible := ReadsSuffix(RunDisk(d, events, maxFileSize, maxFiles), n, AllRecords(d, k, events), dropped, level);
    SuffixIncreasing(AllRecords(d, k, events), invisible);
    ReverseAnswers(AllRecords(d, k, events)[invisible..], limit, level);
  }
}
