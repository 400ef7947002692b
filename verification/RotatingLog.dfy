/** The rotating log writer, over a directory that maps file names to contents. */
module RotatingLog {
  import opened Bytes
  import opened RotatedName
  import opened LogHistory
  import opened LogRotation
  import opened RotationRefinement
  import opened RotationSurvival

  /** A directory of regular files, with the operations of package os that the writer uses. */
  class Directory {
    var files: Files

    method ReadDir() returns (names: seq<string>)
      ensures forall n :: n in names <==> n in files
      ensures forall i, j | 0 <= i < j < |names| :: names[i] != names[j]
    {
      names := [];
      var rest := files.Keys;
      while rest != {}
        invariant rest <= files.Keys
        invariant forall n :: n in names <==> n in files && n !in rest
        invariant forall i, j | 0 <= i < j < |names| :: names[i] != names[j]
        decreases |rest|
      {
        var n :| n in rest;
        names, rest := names + [n], rest - {n};
      }
    }

    method Remove(name: string) returns (ok: bool)
      modifies this
      ensures ok <==> name in old(files)
      ensures files == old(files) - {name}
    {
      ok := name in files;
      files := files - {name};
    }

    method Rename(from: string, to: string) returns (ok: bool)
      modifies this
      ensures ok <==> from in old(files)
      ensures files == if ok then LogRotation.Rename(old(files), from, to) else old(files)
    {
      ok := from in files;
      if ok {
        files := (files - {from})[to := files[from]];
      }
    }

    method OpenFile(name: string)
      modifies this
      ensures files == Open(old(files), name)
    {
      if name !in files {
        files := files[name := []];
      }
    }
  }

  /** The entries for the names that the pattern recognises, in the given order. */
  function EntriesOf(names: seq<string>): seq<RotatedLogFile> {
    if names == [] then []
    else
      var n := names[|names| - 1];
      var r := Parse(n);
      EntriesOf(names[..|names| - 1]) + if r.Some? then [RotatedLogFile(r.value.base, r.value.id, n)] else []
  }

  lemma {:induction false} EntriesOfMembers(names: seq<string>)
    ensures forall e <- EntriesOf(names) :: IsEntry(e) && e.fullName in names
    ensures forall n <- names | Parse(n).Some? :: exists e :: e in EntriesOf(names) && e.fullName == n
  {
    if names != [] {
      var init, n := names[..|names| - 1], names[|names| - 1];
      EntriesOfMembers(init);
      hide Parse;
      assert forall e <- EntriesOf(init) :: e in EntriesOf(names);
      if Parse(n).Some? {
        assert RotatedLogFile(Parse(n).value.base, Parse(n).value.id, n) in EntriesOf(names);
      }
      assert forall x <- names :: x in init || x == n;
    }
  }

  lemma {:induction false} EntriesOfDistinct(names: seq<string>)
    requires forall i, j | 0 <= i < j < |names| :: names[i] != names[j]
    ensures DistinctNames(EntriesOf(names))
  {
    if names != [] {
      var init := names[..|names| - 1];
      EntriesOfDistinct(init);
      EntriesOfMembers(init);
      hide Parse, IsEntry;
      var es := EntriesOf(init);
      forall i | 0 <= i < |es| ensures es[i].fullName != names[|names| - 1] {
        assert es[i] in es;
      }
    }
  }

  ghost predicate SortedById(es: seq<RotatedLogFile>) {
    forall i, j | 0 <= i < j < |es| :: es[i].logId <= es[j].logId
  }

  lemma InsertKeepsDistinct(es: seq<RotatedLogFile>, i: nat, r: seq<RotatedLogFile>, k: nat)
    requires DistinctNames(es) && i < |es| && DistinctNames(r) && k <= |r| && multiset(r) == multiset(es[..i])
    ensures DistinctNames(r[..k] + [es[i]] + r[k..])
    ensures multiset(r[..k] + [es[i]] + r[k..]) == multiset(es[..i + 1])
  {
    forall j | 0 <= j < |r| ensures r[j].fullName != es[i].fullName {
      assert r[j] in multiset(r);
      var l :| 0 <= l < i && es[..i][l] == r[j];
    }
    assert r == r[..k] + r[k..];
    assert es[..i + 1] == es[..i] + [es[i]];
  }

  lemma EmptyIsSorted()
    ensures DistinctNames([]) && SortedById([])
  {}

  lemma InsertKeepsSorted(e: RotatedLogFile, r: seq<RotatedLogFile>, k: nat)
    requires SortedById(r) && k <= |r| && (forall j | 0 <= j < k :: r[j].logId <= e.logId)
    requires k < |r| ==> r[k].logId > e.logId
    ensures SortedById(r[..k] + [e] + r[k..])
  {}

  /** sort.Slice by id, with distinct names: some permutation that is sorted. */
  method SortById(es: seq<RotatedLogFile>) returns (r: seq<RotatedLogFile>)
    requires DistinctNames(es)
    ensures multiset(r) == multiset(es) && DistinctNames(r) && SortedById(r)
  {
    r := [];
    hide DistinctNames, SortedById;
    assert DistinctNames([]) && SortedById([]) by { EmptyIsSorted(); }
    for i := 0 to |es|
      invariant multiset(r) == multiset(es[..i]) && DistinctNames(r) && SortedById(r)
    {
      var k := 0;
      while k < |r| && r[k].logId <= es[i].logId
        invariant 0 <= k <= |r|
        invariant forall j | 0 <= j < k :: r[j].logId <= es[i].logId
      {
        k := k + 1;
      }
      InsertKeepsDistinct(es, i, r, k);
      InsertKeepsSorted(es[i], r, k);
      r := r[..k] + [es[i]] + r[k..];
    }
    assert es[..|es|] == es;
  }

  lemma SortedIsListing(files: Files, names: seq<string>, es: seq<RotatedLogFile>)
    requires forall n :: n in names <==> n in files
    requires multiset(es) == multiset(EntriesOf(names)) && DistinctNames(es) && SortedById(es)
    ensures Listing(files, es)
  {
    EntriesOfMembers(names);
    hide Parse, EntriesOf;
    forall i | 0 <= i < |es| ensures es[i].fullName in files && IsEntry(es[i]) {
      assert es[i] in multiset(es);
    }
    forall n <- files | Parse(n).Some? ensures exists i :: 0 <= i < |es| && es[i].fullName == n {
      var e :| e in EntriesOf(names) && e.fullName == n;
      assert e in multiset(EntriesOf(names));
      var i :| 0 <= i < |es| && es[i] == e;
    }
  }

  lemma ShiftUpStep(files: Files, es: seq<RotatedLogFile>, i: nat)
    requires 0 < i <= |es| && es[i - 1].fullName in files
    ensures ShiftUp(files, es[..i]) == ShiftUp(LogRotation.Rename(files, es[i - 1].fullName, NewName(es[i - 1])), es[..i - 1])
  {
    hide Format, LogRotation.Rename;
    assert es[..i][..i - 1] == es[..i - 1];
  }

  datatype RotateOutcome = RotateOk | CurrentMissing | IndexPanic
  datatype WriteOutcome = Written(n: nat) | WriterClosed | FileNotOpen | RotateFailed | Panicked

  /** What a write makes of the directory if it can rotate; `es` is the listing it saw. */
  function AfterWrite(files: Files, es: seq<RotatedLogFile>, current: string, p: Bytes, maxSize: int, max: nat): Files
    requires max >= 1 && current in files
  {
    var r := if |files[current]| + |p| > maxSize then Rotated(files, es, current, max) else files;
    if current in r then r[current := r[current] + p] else r
  }

  /** `after` is what a write may make of the directory, whatever order it was read in. */
  ghost predicate IsWrite(before: Files, after: Files, current: string, p: Bytes, maxSize: int, max: nat)
    requires max >= 1
  {
    current in before && exists es ::
      (|before[current]| + |p| > maxSize ==> Listing(before, es)) && after == AfterWrite(before, es, current, p, maxSize, max)
  }

  lemma WriteIsAStep(before: Files, after: Files, es: seq<RotatedLogFile>, current: string, p: Bytes, maxSize: int, max: nat)
    requires max >= 1 && current in before && (|before[current]| + |p| > maxSize ==> Listing(before, es))
    requires after == AfterWrite(before, es, current, p, maxSize, max)
    ensures IsWrite(before, after, current, p, maxSize, max)
  {}

  class LogWriter {
    const dir: Directory
    const fileName: string
    const maxSize: int
    const maxHistoricalLogs: int
    var fileOpen: bool   // the handle `file` has not been closed
    var closed: bool

    /** Nobody else removes the current file while the writer has it open. */
    ghost predicate Valid()
      reads this, dir
    {
      (fileOpen ==> fileName in dir.files) && (closed ==> !fileOpen)
    }

    constructor (dir: Directory, fileName: string, maxSize: int, maxHistoricalLogs: int)
      modifies dir
      ensures this.dir == dir && this.fileName == fileName
      ensures this.maxSize == maxSize && this.maxHistoricalLogs == maxHistoricalLogs
      ensures Valid() && fileOpen && !closed && dir.files == Open(old(dir.files), fileName)
      ensures fileName in dir.files && dir.files[fileName] == if fileName in old(dir.files) then old(dir.files)[fileName] else []
      ensures forall n | n != fileName :: n in dir.files <==> n in old(dir.files)
      ensures forall n <- old(dir.files) :: n in dir.files && dir.files[n] == old(dir.files)[n]
    {
      this.dir, this.fileName, this.maxSize, this.maxHistoricalLogs := dir, fileName, maxSize, maxHistoricalLogs;
      fileOpen, closed := true, false;
      new;
      dir.OpenFile(fileName);
    }

    /** The rotated log files of the directory, by ascending id. */
    method ListLogs() returns (es: seq<RotatedLogFile>)
      ensures Listing(dir.files, es)
    {
      var names := dir.ReadDir();
      var collected := [];
      for i := 0 to |names|
        invariant collected == EntriesOf(names[..i])
      {
        assert names[..i + 1][..i] == names[..i];
        var r := Parse(names[i]);
        if r.Some? {
          collected := collected + [RotatedLogFile(r.value.base, r.value.id, names[i])];
        }
      }
      assert names[..|names|] == names;
      EntriesOfDistinct(names);
      es := SortById(collected);
      SortedIsListing(dir.files, names, es);
    }

    /** The deleting loop: the files listed from index `k` on. */
    method DeleteFrom(es: seq<RotatedLogFile>, k: nat)
      requires k <= |es| && DistinctNames(es) && forall i | 0 <= i < |es| :: es[i].fullName in dir.files
      modifies dir
      ensures dir.files == RemoveAll(old(dir.files), es[k..])
      ensures forall i | 0 <= i < k :: es[i].fullName in dir.files
    {
      var i := k;
      while i < |es|
        invariant k <= i <= |es|
        invariant RemoveAll(dir.files, es[i..]) == RemoveAll(old(dir.files), es[k..])
        invariant forall j | 0 <= j < |es| && !(k <= j < i) :: es[j].fullName in dir.files
      {
        assert es[i..][1..] == es[i + 1..];
        var ok := dir.Remove(es[i].fullName);
        assert ok;
        i := i + 1;
      }
    }

    /** The renaming loop, from the highest id down. */
    method RenameAll(es: seq<RotatedLogFile>)
      requires DistinctNames(es) && forall i | 0 <= i < |es| :: es[i].fullName in dir.files
      modifies dir
      ensures dir.files == ShiftUp(old(dir.files), es)
    {
      var i := |es|;
      assert es[..|es|] == es;
      assert forall f :: ShiftUp(f, []) == f;
      hide ShiftUp, Format, LogRotation.Rename;
      while i > 0
        invariant 0 <= i <= |es|
        invariant ShiftUp(dir.files, es[..i]) == ShiftUp(old(dir.files), es)
        invariant forall j | 0 <= j < i :: es[j].fullName in dir.files
      {
        ShiftUpStep(dir.files, es, i);
        var ok := dir.Rename(es[i - 1].fullName, Format(es[i - 1].baseName, es[i - 1].logId + 1));
        assert ok;
        i := i - 1;
      }
    }

    /** Rotation. Deleting and renaming the history cannot fail. The last rename fails if and only if
        the current file was among the listed ones and nothing was renamed to its name; and with
        maxHistoricalLogs <= 0 the deleting loop would start at a negative index. */
    method RotateLogs() returns (o: RotateOutcome, ghost es: seq<RotatedLogFile>)
      requires Valid() && fileOpen
      modifies this`fileOpen, dir
      ensures Valid() && Listing(old(dir.files), es)
      ensures o == IndexPanic <==> maxHistoricalLogs <= 0
      ensures o == IndexPanic ==> dir.files == old(dir.files)
      ensures o != IndexPanic ==> dir.files == Rotated(old(dir.files), es, fileName, maxHistoricalLogs)
      ensures o == RotateOk <==> fileOpen
      ensures o == CurrentMissing <==>
                maxHistoricalLogs > 0 && !CurrentSurvives(old(dir.files), es, fileName, maxHistoricalLogs)
      ensures o == CurrentMissing ==> Parse(fileName).Some? && fileName !in dir.files
      ensures o == RotateOk ==> fileName in dir.files && dir.files[fileName] == []
    {
      hide CurrentSurvives, Format, Parse, BaseNameWithoutExt, ShiftUp, IsEntry;
      fileOpen := false;
      var logs := ListLogs();
      es := logs;
      assert forall i | 0 <= i < |es| :: es[i].fullName in dir.files;
      var n := |logs|;
      if n >= maxHistoricalLogs {
        var overflow := n + 1 - maxHistoricalLogs;
        if n - overflow < 0 {
          return IndexPanic, es;
        }
        DeleteFrom(logs, n - overflow);
        logs := logs[..n - overflow];
      }
      assert logs == es[..KeptCount(|es|, maxHistoricalLogs)];
      assert es[n..] == [];
      assert RemoveAll(old(dir.files), []) == old(dir.files);
      RenameAll(logs);
      CurrentSurvivesExactly(old(dir.files), es, fileName, maxHistoricalLogs);
      if Parse(fileName).None? {
        PlainCurrentSurvives(old(dir.files), es, fileName, maxHistoricalLogs);
      }
      var ok := dir.Rename(fileName, Format(BaseNameWithoutExt(fileName), 1));
      if !ok {
        return CurrentMissing, es;
      }
      CurrentIsNotRotated(fileName, 1);
      dir.OpenFile(fileName);
      fileOpen := true;
      o := RotateOk;
    }

    method Write(p: Bytes) returns (o: WriteOutcome, ghost es: seq<RotatedLogFile>)
      requires Valid()
      modifies this`fileOpen, dir
      ensures Valid()
      ensures o == WriterClosed <==> closed
      ensures o == FileNotOpen <==> !closed && !old(fileOpen)
      ensures closed || !old(fileOpen) ==> fileOpen == old(fileOpen) && dir.files == old(dir.files)
      ensures !closed && old(fileOpen) ==>
        var rotates := |old(dir.files)[fileName]| + |p| > maxSize;
        && (rotates ==> Listing(old(dir.files), es))
        && (o == Panicked <==> rotates && maxHistoricalLogs <= 0)
        && (o == Panicked ==> dir.files == old(dir.files))
        && (o != Panicked && rotates ==>
              dir.files == AfterWrite(old(dir.files), es, fileName, p, maxSize, maxHistoricalLogs))
        && (!rotates ==> dir.files == old(dir.files)[fileName := old(dir.files)[fileName] + p])
        && (o.Written? ==> o.n == |p| && fileOpen)
        && (o == RotateFailed <==>
              rotates && maxHistoricalLogs > 0 && !CurrentSurvives(old(dir.files), es, fileName, maxHistoricalLogs))
        && (o == RotateFailed ==> Parse(fileName).Some? && fileName !in dir.files && !fileOpen)
      ensures o.Written? && maxHistoricalLogs >= 1 ==> IsWrite(old(dir.files), dir.files, fileName, p, maxSize, maxHistoricalLogs)
    {
      es := [];
      if closed {
        return WriterClosed, es;
      }
      if !fileOpen {
        return FileNotOpen, es;
      }
      if |dir.files[fileName]| + |p| > maxSize {
        var r;
        r, es := RotateLogs();
        if r == IndexPanic {
          return Panicked, es;
        }
        if r == CurrentMissing {
          return RotateFailed, es;
        }
      }
      dir.files := dir.files[fileName := dir.files[fileName] + p];
      o := Written(|p|);
      if maxHistoricalLogs >= 1 {
        WriteIsAStep(old(dir.files), dir.files, es, fileName, p, maxSize, maxHistoricalLogs);
      }
    }

    method Close() returns (ok: bool)
      requires Valid()
      modifies this
      ensures Valid() && (ok <==> old(closed || fileOpen))
      ensures closed <==> ok
      ensures fileOpen <==> old(fileOpen) && !ok
    {
      if closed {
        return true;
      }
      if !fileOpen {
        return false;
      }
      fileOpen, closed := false, true;
      ok := true;
    }
  }

  // ---------- whole runs ----------

  /** The ids stay within 31 bits over the next `n` writes: no history reaches beyond `max` files
      without gaps, or the ids are small enough to begin with. */
  ghost predicate Fits(s: Log, n: nat, max: nat) {
    || (Contiguous(s.history) && |s.history| <= max <= MAX_LOG_ID)
    || (n <= MAX_LOG_ID && forall i | 0 <= i < |s.history| :: s.history[i].id + n <= MAX_LOG_ID)
  }

  /** One write to a directory that holds a log is one write to that log. */
  lemma WriteRefines(files: Files, es: seq<RotatedLogFile>, current: string, s: Log, p: Bytes, maxSize: int, max: nat, n: nat)
    requires Represents(files, current, s) && max >= 1 && n >= 1 && Fits(s, n, max)
    requires NeedsRotation(s, p, maxSize) ==> Listing(files, es)
    ensures Represents(AfterWrite(files, es, current, p, maxSize, max), current, Write(s, p, maxSize, max))
    ensures Fits(Write(s, p, maxSize, max), n - 1, max)
  {
    assert files[current] == s.current;
    WriteFits(s, p, maxSize, max, n);
    hide Represents, Listing, Rotated, Fits, Rotate;
    if NeedsRotation(s, p, maxSize) {
      RotationRefines(files, es, current, s, max);
      assert current in Rotated(files, es, current, max) by { CurrentIsHeld(Rotated(files, es, current, max), current, Rotate(s, max)); }
      AppendRefines(Rotated(files, es, current, max), current, Rotate(s, max), p);
    } else {
      AppendRefines(files, current, s, p);
    }
  }

  lemma CurrentIsHeld(files: Files, current: string, s: Log)
    requires Represents(files, current, s)
    ensures current in files && files[current] == s.current
  {
    hide Holds, BaseNameWithoutExt, NewlineFree;
  }

  lemma RotationFits(s: Log, k: nat, n: nat, max: nat)
    requires k <= |s.history| && k < max && n >= 1 && Fits(s, n, max)
    ensures Fits(RotateTo(s, k), n - 1, max)
    ensures forall i | 0 <= i < k :: s.history[i].id < MAX_LOG_ID
  {}

  lemma WriteFits(s: Log, p: Bytes, maxSize: int, max: nat, n: nat)
    requires max >= 1 && n >= 1 && Fits(s, n, max)
    ensures Fits(Write(s, p, maxSize, max), n - 1, max)
    ensures forall i | 0 <= i < KeptCount(|s.history|, max) :: s.history[i].id < MAX_LOG_ID
  {
    RotationFits(s, KeptCount(|s.history|, max), n, max);
  }

  lemma AppendRefines(files: Files, current: string, s: Log, p: Bytes)
    requires Represents(files, current, s)
    ensures Represents(files[current := files[current] + p], current, s.(current := s.current + p))
  {
    forall id ensures Format(BaseNameWithoutExt(current), id) != current {
      CurrentIsNotRotated(current, id);
    }
    CurrentIsPlain(files, current, s);
    hide Format, Parse, Named, IdsOf, Ascending, BaseNameWithoutExt, NewlineFree;
  }

  /** `dirs` are the successive contents of the directory as the writes `ps` are made. */
  ghost predicate IsRun(dirs: seq<Files>, current: string, ps: seq<Bytes>, maxSize: int, max: nat)
    requires max >= 1
  {
    && |dirs| == |ps| + 1
    && forall i | 0 <= i < |ps| :: IsWrite(dirs[i], dirs[i + 1], current, ps[i], maxSize, max)
  }

  /** Over a whole run the directory holds the log that LogHistory.WriteAll computes; so what
      LogHistory proves of that log holds of the files. */
  lemma {:induction false} RunRefines(dirs: seq<Files>, current: string, s: Log, ps: seq<Bytes>, maxSize: int, max: nat)
    requires max >= 1 && IsRun(dirs, current, ps, maxSize, max) && Represents(dirs[0], current, s) && Fits(s, |ps|, max)
    ensures Represents(dirs[|ps|], current, WriteAll(s, ps, maxSize, max))
    decreases |ps|
  {
    if ps != [] {
      assert IsWrite(dirs[0], dirs[1], current, ps[0], maxSize, max);
      var es :| (|dirs[0][current]| + |ps[0]| > maxSize ==> Listing(dirs[0], es))
        && dirs[1] == AfterWrite(dirs[0], es, current, ps[0], maxSize, max);
      WriteRefines(dirs[0], es, current, s, ps[0], maxSize, max, |ps|);
      hide Represents, Listing, AfterWrite, Fits, IsWrite, LogHistory.Write;
      RunRefines(dirs[1..], current, Write(s, ps[0], maxSize, max), ps[1..], maxSize, max);
    }
  }

  /** Reading the retained files of the directory from the highest id down to 1 and then the current
      one yields a suffix of everything that was there and was written since: only `dropped`, from the
      oldest end, is missing. */
  lemma RetainedFilesAreSuffix(dirs: seq<Files>, current: string, s: Log, ps: seq<Bytes>, maxSize: int, max: nat, r: Log)
    requires max >= 1 && IsRun(dirs, current, ps, maxSize, max) && Represents(dirs[0], current, s) && Fits(s, |ps|, max)
    requires Represents(dirs[|ps|], current, r)
    ensures exists dropped :: Retained(s) + Concat(ps) == dropped + Retained(r)
  {
    RunRefines(dirs, current, s, ps, maxSize, max);
    LogIsSuffixOfHistory(s, ps, maxSize, max);
    RepresentsUnique(dirs[|ps|], current, r, WriteAll(s, ps, maxSize, max));
    assert Retained(s) + Concat(ps) == DroppedByAll(s, ps, maxSize, max) + Retained(r);
  }
}
