/** Rotation of the files of a log directory: what the delete and rename loops do to any directory,
    and that on the log's own files they shift the history by one. */
module LogRotation {
  import opened Wrappers
  import opened Bytes
  import opened Sequences
  import opened RotatedName
  import opened LogHistory

  type Files = map<string, Bytes>

  /** entities.RotatedLogFileName. */
  datatype RotatedLogFile = RotatedLogFile(baseName: string, logId: nat, fullName: string)

  /** filepath.Base(path) without filepath.Ext, for a name without separators: the extension starts
      at the last dot. */
  function StemLength(name: string, i: nat): (r: nat)
    requires i <= |name|
    ensures r <= |name|
  {
    if i == 0 then |name| else if name[i - 1] == '.' then i - 1 else StemLength(name, i - 1)
  }

  function BaseNameWithoutExt(name: string): string {
    name[..StemLength(name, |name|)]
  }

  /** os.Rename replaces an existing destination. */
  function Rename(files: Files, from: string, to: string): Files
    requires from in files
  {
    (files - {from})[to := files[from]]
  }

  function NewName(e: RotatedLogFile): string {
    Format(e.baseName, e.logId + 1)
  }

  function RemoveAll(files: Files, es: seq<RotatedLogFile>): Files {
    if es == [] then files else RemoveAll(files - {es[0].fullName}, es[1..])
  }

  /** The renaming loop, from the highest id down. */
  function ShiftUp(files: Files, es: seq<RotatedLogFile>): Files
    decreases |es|
  {
    if es == [] then files
    else
      var e := es[|es| - 1];
      if e.fullName in files then ShiftUp(Rename(files, e.fullName, NewName(e)), es[..|es| - 1]) else files
  }

  /** os.OpenFile with O_APPEND|O_CREATE. */
  function Open(files: Files, name: string): Files {
    if name in files then files else files[name := []]
  }

  /** The directory after a rotation that listed `es`. */
  function Rotated(files: Files, es: seq<RotatedLogFile>, current: string, max: nat): Files
    requires max >= 1
  {
    var kept := KeptCount(|es|, max);
    var shifted := ShiftUp(RemoveAll(files, es[kept..]), es[..kept]);
    if current !in shifted then shifted
    else Open(Rename(shifted, current, Format(BaseNameWithoutExt(current), 1)), current)
  }

  ghost predicate IsEntry(e: RotatedLogFile) {
    Parse(e.fullName) == Some(NameId(e.baseName, e.logId))
  }

  ghost predicate DistinctNames(es: seq<RotatedLogFile>) {
    forall i, j | 0 <= i < j < |es| :: es[i].fullName != es[j].fullName
  }

  /** `es` lists the rotated log files of the directory by ascending id. */
  ghost predicate Listing(files: Files, es: seq<RotatedLogFile>) {
    && DistinctNames(es)
    && (forall i | 0 <= i < |es| :: es[i].fullName in files && IsEntry(es[i]))
    && (forall n <- files | Parse(n).Some? :: exists i :: 0 <= i < |es| && es[i].fullName == n)
    && (forall i, j | 0 <= i < j < |es| :: es[i].logId <= es[j].logId)
  }

  // ---------- the log's own files ----------

  ghost predicate Ascending(history: seq<Segment>) {
    forall i, j | 0 <= i < j < |history| :: history[i].id < history[j].id
  }

  /** `n` is the canonical name of one of the numbered files. */
  ghost predicate Named(base: string, ids: seq<nat>, n: string) {
    exists i :: 0 <= i < |ids| && n == Format(base, ids[i])
  }

  function IdsOf(history: seq<Segment>): (r: seq<nat>)
    ensures |r| == |history| && forall i | 0 <= i < |r| :: r[i] == history[i].id
  {
    if history == [] then [] else [history[0].id] + IdsOf(history[1..])
  }

  /** Under canonical names with stem `base` the directory holds exactly the segments `history`; no
      other file looks like a rotated log. */
  ghost predicate Holds(files: Files, base: string, history: seq<Segment>) {
    && Ascending(history)
    && (forall i | 0 <= i < |history| :: 1 <= history[i].id <= MAX_LOG_ID)
    && (forall i | 0 <= i < |history| ::
          Format(base, history[i].id) in files && files[Format(base, history[i].id)] == history[i].data)
    && (forall n <- files | Parse(n).Some? :: Named(base, IdsOf(history), n))
  }

  /** The directory holds the log `s`: the current file and its history. */
  ghost predicate Represents(files: Files, current: string, s: Log) {
    var base := BaseNameWithoutExt(current);
    && base != "" && NewlineFree(base)
    && current in files && files[current] == s.current
    && Holds(files, base, s.history)
  }

  ghost predicate Entries(base: string, ids: seq<nat>, es: seq<RotatedLogFile>) {
    |es| == |ids| && forall i | 0 <= i < |es| :: es[i] == RotatedLogFile(base, ids[i], Format(base, ids[i]))
  }

  ghost predicate Increasing(ids: seq<nat>) {
    forall i, j | 0 <= i < j < |ids| :: ids[i] < ids[j]
  }

  lemma LastIsGreatest(a: seq<nat>, x: nat)
    requires Increasing(a) && x in a
    ensures x <= a[|a| - 1]
  {}

  /** Two increasing sequences with the same elements are the same. */
  lemma {:induction false} IncreasingUnique(a: seq<nat>, b: seq<nat>)
    requires Increasing(a) && Increasing(b) && Elements(a) == Elements(b)
    ensures a == b
  {
    DistinctCardinality(a);
    DistinctCardinality(b);
    if a != [] {
      var m := |a| - 1;
      assert a[m] in Elements(b) && b[m] in Elements(a);
      LastIsGreatest(a, b[m]);
      LastIsGreatest(b, a[m]);
      assert Elements(a[..m]) == Elements(a) - {a[m]};
      assert Elements(b[..m]) == Elements(b) - {b[m]};
      IncreasingUnique(a[..m], b[..m]);
    }
  }

  lemma {:induction false} StemLengthExact(name: string, i: nat)
    requires i <= |name|
    ensures var r := StemLength(name, i);
      if exists k :: 0 <= k < i && name[k] == '.'
      then r < i && name[r] == '.' && forall k | r < k < i :: name[k] != '.'
      else r == |name|
  {
    if i > 0 && name[i - 1] != '.' {
      StemLengthExact(name, i - 1);
    }
  }

  /** The stem is what precedes the last dot, or the whole name if there is none. */
  lemma StemIsBeforeLastDot(name: string)
    ensures '.' !in name ==> BaseNameWithoutExt(name) == name
    ensures '.' in name ==> exists ext :: '.' !in ext && name == BaseNameWithoutExt(name) + "." + ext
  {
    StemLengthExact(name, |name|);
    var r := StemLength(name, |name|);
    if '.' in name {
      var ext := name[r + 1..];
      assert name == BaseNameWithoutExt(name) + "." + ext;
    }
  }

  lemma StemOfPlainName(base: string)
    ensures BaseNameWithoutExt(base + ".log") == base
  {
    var name, n := base + ".log", |base|;
    assert name[n + 3] == 'g' && name[n + 2] == 'o' && name[n + 1] == 'l' && name[n] == '.';
    assert StemLength(name, n + 4) == StemLength(name, n + 3) == StemLength(name, n + 2) == StemLength(name, n + 1) == n;
  }

  /** The current file is never taken for one of its own rotated files. */
  lemma CurrentIsNotRotated(current: string, id: nat)
    ensures current != Format(BaseNameWithoutExt(current), id)
  {
    StemLengthExact(current, |current|);
    var base := BaseNameWithoutExt(current);
    assert Format(base, id)[|base|] == '_';
  }

  function LogIds(es: seq<RotatedLogFile>): (r: seq<nat>)
    ensures |r| == |es| && forall i | 0 <= i < |r| :: r[i] == es[i].logId
  {
    if es == [] then [] else [es[0].logId] + LogIds(es[1..])
  }

  lemma EntryOfOwnFile(base: string, id: nat, e: RotatedLogFile)
    requires base != "" && NewlineFree(base) && id <= MAX_LOG_ID && IsEntry(e) && e.fullName == Format(base, id)
    ensures e == RotatedLogFile(base, id, Format(base, id))
  {
    FormatRoundTrip(base, id);
  }

  lemma ListedIsHistorical(files: Files, current: string, s: Log, es: seq<RotatedLogFile>, i: nat)
    requires Represents(files, current, s) && Listing(files, es) && i < |es|
    ensures var base := BaseNameWithoutExt(current);
      es[i].logId in IdsOf(s.history) && es[i] == RotatedLogFile(base, es[i].logId, Format(base, es[i].logId))
  {
    var base := BaseNameWithoutExt(current);
    assert Parse(es[i].fullName).Some?;
    assert Named(base, IdsOf(s.history), es[i].fullName);
    var h :| 0 <= h < |s.history| && es[i].fullName == Format(base, IdsOf(s.history)[h]);
    EntryOfOwnFile(base, s.history[h].id, es[i]);
    assert IdsOf(s.history)[h] == es[i].logId;
  }

  lemma HistoricalIsListed(files: Files, current: string, s: Log, es: seq<RotatedLogFile>, h: nat)
    requires Represents(files, current, s) && Listing(files, es) && h < |s.history|
    ensures s.history[h].id in LogIds(es)
  {
    var base := BaseNameWithoutExt(current);
    FormatRoundTrip(base, s.history[h].id);
    var i :| 0 <= i < |es| && es[i].fullName == Format(base, s.history[h].id);
    EntryOfOwnFile(base, s.history[h].id, es[i]);
    assert LogIds(es)[i] == s.history[h].id;
  }

  lemma EntriesIncrease(base: string, es: seq<RotatedLogFile>)
    requires OwnEntries(base, es)
    requires DistinctNames(es) && forall i, j | 0 <= i < j < |es| :: es[i].logId <= es[j].logId
    ensures Increasing(LogIds(es))
  {
    hide Format;
    forall i, j | 0 <= i < j < |es| ensures es[i].logId < es[j].logId {
      assert es[i].fullName != es[j].fullName;
    }
  }

  ghost predicate OwnEntries(base: string, es: seq<RotatedLogFile>) {
    forall i | 0 <= i < |es| :: es[i] == RotatedLogFile(base, es[i].logId, Format(base, es[i].logId))
  }

  lemma SameIncreasing(a: seq<nat>, b: seq<nat>)
    requires Increasing(a) && Increasing(b)
    requires forall i | 0 <= i < |a| :: a[i] in b
    requires forall x <- b :: x in a
    ensures a == b
  {
    forall x <- Elements(a) ensures x in Elements(b) {
      var i :| 0 <= i < |a| && a[i] == x;
    }
    IncreasingUnique(a, b);
  }

  lemma ListedAreOwn(files: Files, current: string, s: Log, es: seq<RotatedLogFile>)
    requires Represents(files, current, s) && Listing(files, es)
    ensures OwnEntries(BaseNameWithoutExt(current), es)
    ensures forall i | 0 <= i < |es| :: es[i].logId in IdsOf(s.history)
  {
    forall i | 0 <= i < |es|
      ensures es[i].logId in IdsOf(s.history)
      ensures var base := BaseNameWithoutExt(current); es[i] == RotatedLogFile(base, es[i].logId, Format(base, es[i].logId))
    {
      ListedIsHistorical(files, current, s, es, i);
    }
  }

  lemma HistoryIsListed(files: Files, current: string, s: Log, es: seq<RotatedLogFile>)
    requires Represents(files, current, s) && Listing(files, es)
    ensures forall x <- IdsOf(s.history) :: x in LogIds(es)
  {
    forall x <- IdsOf(s.history) ensures x in LogIds(es) {
      var h :| 0 <= h < |s.history| && IdsOf(s.history)[h] == x;
      HistoricalIsListed(files, current, s, es, h);
    }
  }

  /** Whatever order the directory was read in, the sorted listing is the history. */
  lemma ListingIsHistory(files: Files, current: string, s: Log, es: seq<RotatedLogFile>)
    requires Represents(files, current, s) && Listing(files, es)
    ensures Entries(BaseNameWithoutExt(current), IdsOf(s.history), es)
  {
    ListedAreOwn(files, current, s, es);
    HistoryIsListed(files, current, s, es);
    EntriesIncrease(BaseNameWithoutExt(current), es);
    assert Increasing(IdsOf(s.history));
    hide Represents, Listing, Format, BaseNameWithoutExt, Increasing, Parse;
    SameIncreasing(LogIds(es), IdsOf(s.history));
  }

  lemma {:induction false} RemoveAllExact(files: Files, base: string, ids: seq<nat>, es: seq<RotatedLogFile>)
    requires Entries(base, ids, es)
    ensures forall n :: n in RemoveAll(files, es) <==> n in files && !Named(base, ids, n)
    ensures forall n <- RemoveAll(files, es) :: RemoveAll(files, es)[n] == files[n]
  {
    if es != [] {
      RemoveAllExact(files - {es[0].fullName}, base, ids[1..], es[1..]);
      forall n ensures Named(base, ids, n) <==> n == es[0].fullName || Named(base, ids[1..], n) {
        NamedSplitsFirst(base, ids, n);
      }
    }
  }

  lemma NamedSplitsFirst(base: string, ids: seq<nat>, n: string)
    requires ids != []
    ensures Named(base, ids, n) <==> n == Format(base, ids[0]) || Named(base, ids[1..], n)
  {
    if Named(base, ids[1..], n) {
      var i :| 0 <= i < |ids[1..]| && n == Format(base, ids[1..][i]);
      assert n == Format(base, ids[i + 1]);
    }
    if Named(base, ids, n) && n != Format(base, ids[0]) {
      var i :| 0 <= i < |ids| && n == Format(base, ids[i]);
      assert n == Format(base, ids[1..][i - 1]);
    }
  }

  lemma NamedSplitsLast(base: string, ids: seq<nat>, n: string)
    requires ids != []
    ensures var m := |ids| - 1; Named(base, ids, n) <==> n == Format(base, ids[m]) || Named(base, ids[..m], n)
  {
    var m := |ids| - 1;
    if Named(base, ids[..m], n) {
      var i :| 0 <= i < |ids[..m]| && n == Format(base, ids[..m][i]);
      assert n == Format(base, ids[i]);
    }
    if Named(base, ids, n) && n != Format(base, ids[m]) {
      var i :| 0 <= i < |ids| && n == Format(base, ids[i]);
      assert n == Format(base, ids[..m][i]);
    }
  }

  /** `r` is `files` with every file number k of `ids` now numbered k + 1, and all else in place. */
  ghost predicate IsShift(files: Files, base: string, ids: seq<nat>, r: Files) {
    && (forall n :: n in r <==> (n in files && !Named(base, ids, n)) || NewlyNamed(base, ids, n))
    && (forall i | 0 <= i < |ids| ::
          var from, to := Format(base, ids[i]), Format(base, ids[i] + 1); from in files && to in r && r[to] == files[from])
    && (forall n | n in files && n in r && !NewlyNamed(base, ids, n) :: r[n] == files[n])
  }

  ghost predicate NewlyNamed(base: string, ids: seq<nat>, n: string) {
    exists i :: 0 <= i < |ids| && n == Format(base, ids[i] + 1)
  }

  /** Every rename of the loop finds its destination free. */
  ghost predicate NeverClobbers(files: Files, es: seq<RotatedLogFile>)
    decreases |es|
  {
    es == [] ||
    var e := es[|es| - 1];
    && e.fullName in files && NewName(e) !in files
    && NeverClobbers(Rename(files, e.fullName, NewName(e)), es[..|es| - 1])
  }

  ghost predicate Shiftable(files: Files, base: string, ids: seq<nat>) {
    && Increasing(ids)
    && (forall i | 0 <= i < |ids| :: Format(base, ids[i]) in files)
    && (forall i | 0 <= i < |ids| :: FreeOrListed(files, base, ids, ids[i] + 1))
  }

  ghost predicate FreeOrListed(files: Files, base: string, ids: seq<nat>, id: nat) {
    Format(base, id) in files ==> id in ids
  }

  lemma ShiftableStep(files: Files, base: string, ids: seq<nat>)
    requires Shiftable(files, base, ids) && ids != []
    ensures var m := |ids| - 1; var from, to := Format(base, ids[m]), Format(base, ids[m] + 1);
      to !in files && Shiftable(Rename(files, from, to), base, ids[..m])
  {
    hide Format;
    var m := |ids| - 1;
    var from, to := Format(base, ids[m]), Format(base, ids[m] + 1);
    var files1 := Rename(files, from, to);
    assert FreeOrListed(files, base, ids, ids[m] + 1);
    forall i | 0 <= i < m ensures Format(base, ids[i]) in files1 {
      if Format(base, ids[i]) == from { FormatIsInjective(base, ids[i], ids[m]); }
    }
    forall i | 0 <= i < m ensures FreeOrListed(files1, base, ids[..m], ids[i] + 1) {
      if Format(base, ids[i] + 1) in files1 {
        if Format(base, ids[i] + 1) == to { FormatIsInjective(base, ids[i] + 1, ids[m] + 1); }
        assert FreeOrListed(files, base, ids, ids[i] + 1);
        var j :| 0 <= j < |ids| && ids[j] == ids[i] + 1;
        assert j != m;
        assert ids[..m][j] == ids[i] + 1;
      }
    }
  }

  lemma {:induction false} ShiftUpExact(files: Files, base: string, ids: seq<nat>, es: seq<RotatedLogFile>)
    requires Entries(base, ids, es) && Shiftable(files, base, ids)
    ensures IsShift(files, base, ids, ShiftUp(files, es)) && NeverClobbers(files, es)
    decreases |es|
  {
    if es != [] {
      var m := |es| - 1;
      var from, to := Format(base, ids[m]), Format(base, ids[m] + 1);
      ShiftableStep(files, base, ids);
      ShiftUpExact(Rename(files, from, to), base, ids[..m], es[..m]);
      ShiftCompose(files, base, ids, ShiftUp(files, es));
    }
  }

  lemma NewlyNamedSplitsLast(base: string, ids: seq<nat>, n: string)
    requires ids != []
    ensures var m := |ids| - 1; NewlyNamed(base, ids, n) <==> n == Format(base, ids[m] + 1) || NewlyNamed(base, ids[..m], n)
  {
    var m := |ids| - 1;
    if NewlyNamed(base, ids[..m], n) {
      var i :| 0 <= i < |ids[..m]| && n == Format(base, ids[..m][i] + 1);
      assert n == Format(base, ids[i] + 1);
    }
    if NewlyNamed(base, ids, n) && n != Format(base, ids[m] + 1) {
      var i :| 0 <= i < |ids| && n == Format(base, ids[i] + 1);
      assert n == Format(base, ids[..m][i] + 1);
    }
  }

  /** The names that the last rename involves are none of the earlier ones'. */
  lemma LastNamesApart(base: string, ids: seq<nat>)
    requires Increasing(ids) && ids != []
    ensures var m := |ids| - 1; var from, to := Format(base, ids[m]), Format(base, ids[m] + 1);
      && from != to && !Named(base, ids[..m], from) && !Named(base, ids[..m], to) && !NewlyNamed(base, ids[..m], to)
  {
    var m := |ids| - 1;
    forall k, l | Format(base, k) == Format(base, l) ensures k == l {
      FormatIsInjective(base, k, l);
    }
    hide Format;
    assert forall i | 0 <= i < m :: ids[..m][i] < ids[m];
  }

  lemma ShiftNames(files: Files, base: string, ids: seq<nat>, r: Files, n: string)
    requires IsShift(files, base, ids, r)
    ensures n in r <==> (n in files && !Named(base, ids, n)) || NewlyNamed(base, ids, n)
    ensures n in files && n in r && !NewlyNamed(base, ids, n) ==> r[n] == files[n]
  {
    hide Format, Named, NewlyNamed;
  }

  lemma ShiftFromParts(files: Files, base: string, ids: seq<nat>, r: Files)
    requires forall n :: n in r <==> (n in files && !Named(base, ids, n)) || NewlyNamed(base, ids, n)
    requires forall n | n in files && n in r && !NewlyNamed(base, ids, n) :: r[n] == files[n]
    requires forall i | 0 <= i < |ids| ::
               var from, to := Format(base, ids[i]), Format(base, ids[i] + 1); from in files && to in r && r[to] == files[from]
    ensures IsShift(files, base, ids, r)
  {
    hide Format, Named, NewlyNamed;
  }

  lemma ShiftComposeNames(files: Files, base: string, ids: seq<nat>, r: Files, n: string)
    requires Increasing(ids) && ids != [] && Format(base, ids[|ids| - 1]) in files
    requires var m := |ids| - 1; IsShift(Rename(files, Format(base, ids[m]), Format(base, ids[m] + 1)), base, ids[..m], r)
    ensures n in r <==> (n in files && !Named(base, ids, n)) || NewlyNamed(base, ids, n)
    ensures n in files && n in r && !NewlyNamed(base, ids, n) ==> r[n] == files[n]
  {
    hide Format, Named, NewlyNamed, IsShift, Increasing;
    var m := |ids| - 1;
    LastNamesApart(base, ids);
    NamedSplitsLast(base, ids, n);
    NewlyNamedSplitsLast(base, ids, n);
    ShiftNames(Rename(files, Format(base, ids[m]), Format(base, ids[m] + 1)), base, ids[..m], r, n);
  }

  lemma ShiftComposeLast(files: Files, base: string, ids: seq<nat>, r: Files)
    requires Increasing(ids) && ids != [] && Format(base, ids[|ids| - 1]) in files
    requires var m := |ids| - 1; IsShift(Rename(files, Format(base, ids[m]), Format(base, ids[m] + 1)), base, ids[..m], r)
    ensures var m := |ids| - 1; var from, to := Format(base, ids[m]), Format(base, ids[m] + 1); to in r && r[to] == files[from]
  {
    hide Format, Named, NewlyNamed, IsShift, Increasing;
    var m := |ids| - 1;
    LastNamesApart(base, ids);
    ShiftNames(Rename(files, Format(base, ids[m]), Format(base, ids[m] + 1)), base, ids[..m], r, Format(base, ids[m] + 1));
  }

  lemma ShiftAt(files: Files, base: string, ids: seq<nat>, r: Files, i: nat)
    requires IsShift(files, base, ids, r) && i < |ids|
    ensures var from, to := Format(base, ids[i]), Format(base, ids[i] + 1); from in files && to in r && r[to] == files[from]
  {
    hide Format, Named, NewlyNamed;
  }

  lemma ShiftComposeContents(files: Files, base: string, ids: seq<nat>, r: Files, i: nat)
    requires Increasing(ids) && i < |ids| - 1 && Format(base, ids[i]) in files && Format(base, ids[|ids| - 1]) in files
    requires var m := |ids| - 1; IsShift(Rename(files, Format(base, ids[m]), Format(base, ids[m] + 1)), base, ids[..m], r)
    ensures var from, to := Format(base, ids[i]), Format(base, ids[i] + 1); to in r && r[to] == files[from]
  {
    hide IsShift, Format, NewlyNamed, Increasing;
    var m := |ids| - 1;
    assert ids[..m][i] == ids[i];
    assert Named(base, ids[..m], Format(base, ids[i]));
    hide Named;
    LastNamesApart(base, ids);
    ShiftAt(Rename(files, Format(base, ids[m]), Format(base, ids[m] + 1)), base, ids[..m], r, i);
  }

  lemma ShiftCompose(files: Files, base: string, ids: seq<nat>, r: Files)
    requires Shiftable(files, base, ids) && ids != []
    requires var m := |ids| - 1; IsShift(Rename(files, Format(base, ids[m]), Format(base, ids[m] + 1)), base, ids[..m], r)
    ensures IsShift(files, base, ids, r)
  {
    hide Format, Named, NewlyNamed, Rename, IsShift, FreeOrListed, Increasing;
    assert Increasing(ids) && forall i | 0 <= i < |ids| :: Format(base, ids[i]) in files;
    hide Shiftable;
    forall n
      ensures n in r <==> (n in files && !Named(base, ids, n)) || NewlyNamed(base, ids, n)
      ensures n in files && n in r && !NewlyNamed(base, ids, n) ==> r[n] == files[n]
    {
      ShiftComposeNames(files, base, ids, r, n);
    }
    forall i | 0 <= i < |ids|
      ensures Format(base, ids[i] + 1) in r && r[Format(base, ids[i] + 1)] == files[Format(base, ids[i])]
    {
      if i < |ids| - 1 { ShiftComposeContents(files, base, ids, r, i); } else { ShiftComposeLast(files, base, ids, r); }
    }
    ShiftFromParts(files, base, ids, r);
  }
}
