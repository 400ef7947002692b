/** A rotation of the directory is exactly a rotation of the log it holds. */
module RotationRefinement {
  import opened Bytes
  import opened RotatedName
  import opened LogHistory
  import opened LogRotation

  /** Files that do not look like rotated logs are the same in both directories. */
  ghost predicate SameOthers(f: Files, g: Files) {
    forall n | Parse(n).None? :: (n in f <==> n in g) && (n in f ==> f[n] == g[n])
  }

  lemma HeldNames(files: Files, base: string, history: seq<Segment>, n: string)
    requires Holds(files, base, history) && base != "" && NewlineFree(base)
    ensures Named(base, IdsOf(history), n) <==> n in files && Parse(n).Some?
  {
    if Named(base, IdsOf(history), n) {
      var i :| 0 <= i < |history| && n == Format(base, IdsOf(history)[i]);
      FormatRoundTrip(base, history[i].id);
    }
  }

  lemma NamedParses(base: string, ids: seq<nat>, n: string)
    requires base != "" && NewlineFree(base) && Named(base, ids, n) && forall i | 0 <= i < |ids| :: ids[i] <= MAX_LOG_ID
    ensures Parse(n).Some?
  {
    var i :| 0 <= i < |ids| && n == Format(base, ids[i]);
    FormatRoundTrip(base, ids[i]);
  }

  lemma KeptIsNotDeleted(base: string, ids: seq<nat>, k: nat, i: nat)
    requires Increasing(ids) && i < k <= |ids|
    ensures !Named(base, ids[k..], Format(base, ids[i]))
  {
    if Named(base, ids[k..], Format(base, ids[i])) {
      var j :| 0 <= j < |ids[k..]| && Format(base, ids[i]) == Format(base, ids[k..][j]);
      FormatIsInjective(base, ids[i], ids[k + j]);
    }
  }

  lemma NamedSplits(base: string, ids: seq<nat>, k: nat, n: string)
    requires k <= |ids|
    ensures Named(base, ids, n) <==> Named(base, ids[..k], n) || Named(base, ids[k..], n)
  {
    if Named(base, ids, n) {
      var i :| 0 <= i < |ids| && n == Format(base, ids[i]);
      if i < k { assert n == Format(base, ids[..k][i]); } else { assert n == Format(base, ids[k..][i - k]); }
    }
    if Named(base, ids[..k], n) {
      var i :| 0 <= i < k && n == Format(base, ids[..k][i]);
      assert n == Format(base, ids[i]);
    }
    if Named(base, ids[k..], n) {
      var i :| 0 <= i < |ids| - k && n == Format(base, ids[k..][i]);
      assert n == Format(base, ids[k + i]);
    }
  }

  /** Deleting the tail of the listing deletes exactly the tail of the history. */
  lemma RemovalKeeps(files: Files, base: string, h: seq<Segment>, es: seq<RotatedLogFile>, k: nat)
    requires Holds(files, base, h) && base != "" && NewlineFree(base) && Entries(base, IdsOf(h), es) && k <= |h|
    ensures Holds(RemoveAll(files, es[k..]), base, h[..k]) && SameOthers(files, RemoveAll(files, es[k..]))
  {
    hide Format, Parse, IdsOf, RemoveAll, Named;
    var ids := IdsOf(h);
    var r := RemoveAll(files, es[k..]);
    assert Increasing(ids);
    RemoveAllExact(files, base, ids[k..], es[k..]);
    forall i | 0 <= i < k ensures Format(base, h[i].id) in r && r[Format(base, h[i].id)] == h[i].data {
      KeptIsNotDeleted(base, ids, k, i);
    }
    assert ids[..k] == IdsOf(h[..k]);
    forall n <- r | Parse(n).Some? ensures Named(base, IdsOf(h[..k]), n) {
      NamedSplits(base, ids, k, n);
    }
    forall n | Parse(n).None? ensures !Named(base, ids[k..], n) {
      if Named(base, ids[k..], n) { NamedParses(base, ids[k..], n); }
    }
  }

  lemma NewlyNamedIsNamed(base: string, h: seq<Segment>, n: string)
    ensures NewlyNamed(base, IdsOf(h), n) <==> Named(base, IdsOf(ShiftIds(h)), n)
  {
    hide Format, IdsOf, ShiftIds;
    if NewlyNamed(base, IdsOf(h), n) {
      var i :| 0 <= i < |h| && n == Format(base, IdsOf(h)[i] + 1);
      assert n == Format(base, IdsOf(ShiftIds(h))[i]);
    }
    if Named(base, IdsOf(ShiftIds(h)), n) {
      var i :| 0 <= i < |h| && n == Format(base, IdsOf(ShiftIds(h))[i]);
      assert n == Format(base, IdsOf(h)[i] + 1);
    }
  }

  lemma SuccessorIsListed(files: Files, base: string, h: seq<Segment>, i: nat)
    requires Holds(files, base, h) && base != "" && NewlineFree(base) && i < |h| && h[i].id < MAX_LOG_ID
    ensures FreeOrListed(files, base, IdsOf(h), h[i].id + 1)
  {
    hide Format, IdsOf, Parse;
    var id := h[i].id + 1;
    if Format(base, id) in files {
      FormatRoundTrip(base, id);
      assert Named(base, IdsOf(h), Format(base, id));
      var j :| 0 <= j < |h| && Format(base, id) == Format(base, IdsOf(h)[j]);
      FormatIsInjective(base, id, h[j].id);
      assert IdsOf(h)[j] == id;
    }
  }

  lemma SuccessorsAreListed(files: Files, base: string, h: seq<Segment>)
    requires Holds(files, base, h) && base != "" && NewlineFree(base)
    requires forall i | 0 <= i < |h| :: h[i].id < MAX_LOG_ID
    ensures forall i | 0 <= i < |h| :: FreeOrListed(files, base, IdsOf(h), IdsOf(h)[i] + 1)
  {
    hide *;
    var ids := IdsOf(h);
    forall i | 0 <= i < |ids| ensures FreeOrListed(files, base, ids, ids[i] + 1) {
      SuccessorIsListed(files, base, h, i);
      assert ids[i] == h[i].id;
    }
  }

  lemma HeldAscend(files: Files, base: string, h: seq<Segment>)
    requires Holds(files, base, h)
    ensures Increasing(IdsOf(h)) && forall i | 0 <= i < |h| :: Format(base, IdsOf(h)[i]) in files
  {
    hide Format, IdsOf, Parse, Named;
  }

  lemma HistoryIsShiftable(files: Files, base: string, h: seq<Segment>)
    requires Holds(files, base, h) && base != "" && NewlineFree(base)
    requires forall i | 0 <= i < |h| :: h[i].id < MAX_LOG_ID
    ensures Shiftable(files, base, IdsOf(h))
  {
    hide Format, IdsOf, Parse, FreeOrListed, Named, Holds, Ascending, Increasing, NewlineFree;
    HeldAscend(files, base, h);
    SuccessorsAreListed(files, base, h);
  }

  /** The renaming loop renumbers the history: no rename meets an existing file, every segment keeps
      its contents, and number 1 is left free. */
  lemma ShiftRenumbers(files: Files, base: string, h: seq<Segment>, es: seq<RotatedLogFile>)
    requires Holds(files, base, h) && base != "" && NewlineFree(base) && Entries(base, IdsOf(h), es)
    requires forall i | 0 <= i < |h| :: h[i].id < MAX_LOG_ID
    ensures NeverClobbers(files, es)
    ensures var r := ShiftUp(files, es);
      Holds(r, base, ShiftIds(h)) && SameOthers(files, r) && Format(base, 1) !in r
  {
    hide Format, Parse, IdsOf, ShiftIds, ShiftUp, IsShift, NeverClobbers, Named, NewlyNamed, Shiftable;
    HistoryIsShiftable(files, base, h);
    ShiftUpExact(files, base, IdsOf(h), es);
    ShiftHolds(files, base, h, ShiftUp(files, es));
  }

  lemma ShiftHolds(files: Files, base: string, h: seq<Segment>, r: Files)
    requires Holds(files, base, h) && base != "" && NewlineFree(base) && IsShift(files, base, IdsOf(h), r)
    requires forall i | 0 <= i < |h| :: h[i].id < MAX_LOG_ID
    ensures Holds(r, base, ShiftIds(h)) && SameOthers(files, r) && Format(base, 1) !in r
  {
    hide *;
    RenumberedContents(files, base, h, r);
    AllShiftedNames(files, base, h, r);
    RenumberedIds(files, base, h);
    HoldsFromParts(r, base, ShiftIds(h));
    FirstIsNotHeld(r, base, ShiftIds(h));
  }

  lemma HoldsFromParts(files: Files, base: string, h: seq<Segment>)
    requires Ascending(h) && forall i | 0 <= i < |h| :: 1 <= h[i].id <= MAX_LOG_ID
    requires forall i | 0 <= i < |h| :: Format(base, h[i].id) in files && files[Format(base, h[i].id)] == h[i].data
    requires forall n <- files | Parse(n).Some? :: Named(base, IdsOf(h), n)
    ensures Holds(files, base, h)
  {
    hide Format, Parse, IdsOf, Named, Ascending;
  }

  lemma FirstIsNotHeld(files: Files, base: string, h: seq<Segment>)
    requires Holds(files, base, h) && base != "" && NewlineFree(base) && forall i | 0 <= i < |h| :: 1 < h[i].id
    ensures Format(base, 1) !in files
  {
    hide Format, Parse, IdsOf, Named;
    FirstIsNotNamed(base, IdsOf(h));
    FormatRoundTrip(base, 1);
  }

  lemma AllShiftedNames(files: Files, base: string, h: seq<Segment>, r: Files)
    requires Holds(files, base, h) && base != "" && NewlineFree(base) && IsShift(files, base, IdsOf(h), r)
    requires forall i | 0 <= i < |h| :: h[i].id < MAX_LOG_ID
    ensures (forall n <- r | Parse(n).Some? :: Named(base, IdsOf(ShiftIds(h)), n)) && SameOthers(files, r)
  {
    hide Format, Parse, IdsOf, ShiftIds, Named, IsShift, Holds;
    forall n
      ensures n in r && Parse(n).Some? ==> Named(base, IdsOf(ShiftIds(h)), n)
      ensures Parse(n).None? ==> (n in files <==> n in r) && (n in files ==> files[n] == r[n])
    {
      ShiftedNames(files, base, h, r, n);
    }
  }

  lemma RenumberedIds(files: Files, base: string, h: seq<Segment>)
    requires Holds(files, base, h)
    requires forall i | 0 <= i < |h| :: h[i].id < MAX_LOG_ID
    ensures Ascending(ShiftIds(h)) && forall i | 0 <= i < |h| :: 1 < ShiftIds(h)[i].id <= MAX_LOG_ID
  {
    hide Format, Parse, IdsOf, Named;
  }

  lemma RenumberedContents(files: Files, base: string, h: seq<Segment>, r: Files)
    requires Holds(files, base, h) && IsShift(files, base, IdsOf(h), r)
    ensures forall i | 0 <= i < |h| :: Format(base, ShiftIds(h)[i].id) in r && r[Format(base, ShiftIds(h)[i].id)] == ShiftIds(h)[i].data
  {
    hide *;
    forall i | 0 <= i < |h|
      ensures Format(base, ShiftIds(h)[i].id) in r && r[Format(base, ShiftIds(h)[i].id)] == ShiftIds(h)[i].data
    {
      HeldAt(files, base, h, i);
      ShiftAt(files, base, IdsOf(h), r, i);
      assert IdsOf(h)[i] == h[i].id && ShiftIds(h)[i] == Segment(h[i].id + 1, h[i].data);
    }
  }

  lemma HeldAt(files: Files, base: string, h: seq<Segment>, i: nat)
    requires Holds(files, base, h) && i < |h|
    ensures Format(base, h[i].id) in files && files[Format(base, h[i].id)] == h[i].data
  {
    hide Format, IdsOf, Parse, Named;
  }

  lemma FirstIsNotNamed(base: string, ids: seq<nat>)
    requires forall i | 0 <= i < |ids| :: ids[i] != 1
    ensures !Named(base, ids, Format(base, 1))
  {
    forall i | 0 <= i < |ids| ensures Format(base, 1) != Format(base, ids[i]) {
      if Format(base, 1) == Format(base, ids[i]) { FormatIsInjective(base, 1, ids[i]); }
    }
  }

  lemma ShiftedNames(files: Files, base: string, h: seq<Segment>, r: Files, n: string)
    requires Holds(files, base, h) && base != "" && NewlineFree(base) && IsShift(files, base, IdsOf(h), r)
    requires forall i | 0 <= i < |h| :: h[i].id < MAX_LOG_ID
    ensures n in r && Parse(n).Some? <==> Named(base, IdsOf(ShiftIds(h)), n)
    ensures Parse(n).None? ==> (n in files <==> n in r) && (n in files ==> files[n] == r[n])
  {
    hide Format, IdsOf, ShiftIds, Parse, Named, NewlyNamed, Holds;
    HeldNames(files, base, h, n);
    NewlyNamedIsNamed(base, h, n);
    if Named(base, IdsOf(ShiftIds(h)), n) { NamedParses(base, IdsOf(ShiftIds(h)), n); }
  }

  lemma CurrentIsPlain(files: Files, current: string, s: Log)
    requires Represents(files, current, s)
    ensures Parse(current).None?
  {
    var base := BaseNameWithoutExt(current);
    if Parse(current).Some? {
      HeldNames(files, base, s.history, current);
      var i :| 0 <= i < |s.history| && current == Format(base, IdsOf(s.history)[i]);
      CurrentIsNotRotated(current, IdsOf(s.history)[i]);
    }
  }

  lemma NamedPrepend(base: string, id: nat, h: seq<Segment>, data: Bytes, n: string)
    ensures Named(base, IdsOf([Segment(id, data)] + h), n) <==> n == Format(base, id) || Named(base, IdsOf(h), n)
  {
    hide Format;
    var g := [Segment(id, data)] + h;
    assert g[1..] == h;
    NamedSplitsFirst(base, IdsOf(g), n);
    assert IdsOf(g)[1..] == IdsOf(h);
  }

  /** Renaming the current file to number 1 and opening a new one. */
  lemma CurrentBecomesFirst(files: Files, base: string, h: seq<Segment>, current: string, r: Files)
    requires Holds(files, base, h) && base != "" && NewlineFree(base) && forall i | 0 <= i < |h| :: h[i].id > 1
    requires current in files && Parse(current).None? && Format(base, 1) !in files
    requires r == Open(Rename(files, current, Format(base, 1)), current)
    ensures Holds(r, base, [Segment(1, files[current])] + h) && current in r && r[current] == []
    ensures forall n | Parse(n).None? && n != current :: (n in files <==> n in r) && (n in files ==> files[n] == r[n])
  {
    hide Format, IdsOf, Parse, Named;
    FormatRoundTrip(base, 1);
    var first, g := Format(base, 1), [Segment(1, files[current])] + h;
    assert forall n :: n in r <==> n in files || n == first;
    assert forall n | n in files && n != current :: r[n] == files[n];
    forall i | 0 <= i < |g| ensures Format(base, g[i].id) in r && r[Format(base, g[i].id)] == g[i].data {
      if i > 0 {
        HeldAt(files, base, h, i - 1);
        FormatRoundTrip(base, h[i - 1].id);
      }
    }
    hide Open, Rename;
    forall n <- r | Parse(n).Some? ensures Named(base, IdsOf(g), n) {
      NamedPrepend(base, 1, h, files[current], n);
    }
  }

  lemma EntriesPrefix(base: string, h: seq<Segment>, es: seq<RotatedLogFile>, k: nat)
    requires Entries(base, IdsOf(h), es) && k <= |h|
    ensures Entries(base, IdsOf(h[..k]), es[..k])
  {
    hide Format, IdsOf;
  }

  /** What a rotation does to a directory that holds the log `s`: it then holds the rotated log, all
      other files are untouched, and no rename met an existing file. */
  lemma RotationRefines(files: Files, es: seq<RotatedLogFile>, current: string, s: Log, max: nat)
    requires Represents(files, current, s) && Listing(files, es) && max >= 1
    requires forall i | 0 <= i < KeptCount(|s.history|, max) :: s.history[i].id < MAX_LOG_ID
    ensures Represents(Rotated(files, es, current, max), current, Rotate(s, max))
    ensures forall n | Parse(n).None? && n != current ::
              var r := Rotated(files, es, current, max); (n in files <==> n in r) && (n in files ==> files[n] == r[n])
    ensures |es| == |s.history|
    ensures var k := KeptCount(|es|, max); var trimmed := RemoveAll(files, es[k..]);
      NeverClobbers(trimmed, es[..k]) && Format(BaseNameWithoutExt(current), 1) !in ShiftUp(trimmed, es[..k])
  {
    hide Format, IdsOf, Parse, Named, Open, Rename, Holds, Listing, NeverClobbers, BaseNameWithoutExt, NewlineFree, ShiftIds, RemoveAll, ShiftUp;
    var base := BaseNameWithoutExt(current);
    ListingIsHistory(files, current, s, es);
    var k := KeptCount(|es|, max);
    var h, trimmed := s.history[..k], RemoveAll(files, es[k..]);
    RemovalKeeps(files, base, s.history, es, k);
    EntriesPrefix(base, s.history, es, k);
    var shifted := ShiftUp(trimmed, es[..k]);
    ShiftRenumbers(trimmed, base, h, es[..k]);
    CurrentIsPlain(files, current, s);
    HeldIdsPositive(trimmed, base, h);
    hide Entries;
    CurrentBecomesFirst(shifted, base, ShiftIds(h), current, Rotated(files, es, current, max));
  }

  lemma HeldIdsPositive(files: Files, base: string, h: seq<Segment>)
    requires Holds(files, base, h)
    ensures forall i | 0 <= i < |h| :: h[i].id > 0
  {
    hide Format, IdsOf, Parse, Named;
  }

  // ---------- the directory determines the log ----------

  lemma HeldIdsAgree(files: Files, base: string, g: seq<Segment>, h: seq<Segment>, i: nat)
    requires Holds(files, base, g) && Holds(files, base, h) && base != "" && NewlineFree(base) && i < |g|
    ensures g[i].id in IdsOf(h)
  {
    var id := g[i].id;
    HeldAt(files, base, g, i);
    FormatRoundTrip(base, id);
    HeldNames(files, base, h, Format(base, id));
    var j :| 0 <= j < |h| && Format(base, id) == Format(base, IdsOf(h)[j]);
    FormatIsInjective(base, id, IdsOf(h)[j]);
  }

  /** A directory holds at most one log. */
  lemma RepresentsUnique(files: Files, current: string, r: Log, s: Log)
    requires Represents(files, current, r) && Represents(files, current, s)
    ensures r == s
  {
    var base, g, h := BaseNameWithoutExt(current), r.history, s.history;
    HeldAscend(files, base, g);
    HeldAscend(files, base, h);
    forall i | 0 <= i < |g| ensures IdsOf(g)[i] in IdsOf(h) { HeldIdsAgree(files, base, g, h, i); }
    forall x <- IdsOf(h) ensures x in IdsOf(g) {
      var i :| 0 <= i < |h| && IdsOf(h)[i] == x;
      HeldIdsAgree(files, base, h, g, i);
    }
    hide Holds, Format, IdsOf, Increasing, BaseNameWithoutExt, NewlineFree;
    SameIncreasing(IdsOf(g), IdsOf(h));
    forall i | 0 <= i < |g| ensures g[i] == h[i] {
      HeldAt(files, base, g, i);
      HeldAt(files, base, h, i);
      assert IdsOf(g)[i] == g[i].id && IdsOf(h)[i] == h[i].id;
    }
  }

  // ---------- a directory for every log ----------

  /** The files of a log with this base. */
  function FilesOfHistory(base: string, h: seq<Segment>): Files {
    if h == [] then map[] else FilesOfHistory(base, h[..|h| - 1])[Format(base, h[|h| - 1].id) := h[|h| - 1].data]
  }

  lemma {:induction false} FilesOfHistoryExactly(base: string, h: seq<Segment>)
    requires Ascending(h)
    ensures forall i | 0 <= i < |h| ::
              Format(base, h[i].id) in FilesOfHistory(base, h) && FilesOfHistory(base, h)[Format(base, h[i].id)] == h[i].data
    ensures forall n <- FilesOfHistory(base, h) :: exists i :: 0 <= i < |h| && n == Format(base, h[i].id)
  {
    hide Format;
    if h != [] {
      var m := |h| - 1;
      FilesOfHistoryExactly(base, h[..m]);
      LastNameIsNew(base, h);
      assert forall i | 0 <= i < m :: h[..m][i] == h[i];
    }
  }

  lemma LastNameIsNew(base: string, h: seq<Segment>)
    requires Ascending(h) && h != []
    ensures forall i | 0 <= i < |h| - 1 :: Format(base, h[i].id) != Format(base, h[|h| - 1].id)
  {
    hide Format;
    forall i | 0 <= i < |h| - 1 ensures Format(base, h[i].id) != Format(base, h[|h| - 1].id) {
      if Format(base, h[i].id) == Format(base, h[|h| - 1].id) { FormatIsInjective(base, h[i].id, h[|h| - 1].id); }
    }
  }

  /** Every log with ascending ids of 31 bits from 1 on is held by some directory, under any current name
      that is not itself named like a rotated log and has a proper stem. */
  lemma EveryLogIsHeld(current: string, s: Log) returns (files: Files)
    requires Ascending(s.history) && forall i | 0 <= i < |s.history| :: 1 <= s.history[i].id <= 2147483647
    requires BaseNameWithoutExt(current) != "" && NewlineFree(BaseNameWithoutExt(current)) && Parse(current).None?
    ensures Represents(files, current, s)
  {
    hide Format, Parse, BaseNameWithoutExt, IdsOf, NewlineFree;
    var base, h := BaseNameWithoutExt(current), s.history;
    FilesOfHistoryExactly(base, h);
    files := FilesOfHistory(base, h)[current := s.current];
    forall i | 0 <= i < |h| ensures Format(base, h[i].id) != current {
      CurrentIsNotRotated(current, h[i].id);
    }
    forall n <- files | Parse(n).Some? ensures Named(base, IdsOf(h), n) {
      var i :| 0 <= i < |h| && n == Format(base, h[i].id);
      assert n == Format(base, IdsOf(h)[i]);
    }
  }
}
