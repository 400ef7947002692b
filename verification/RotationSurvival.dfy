/** What a rotation does to directories that do not hold just one log: which names survive it, and
    the cases in which a log is lost. */
module RotationSurvival {
  import opened Bytes
  import opened RotatedName
  import opened LogHistory
  import opened LogRotation
  import opened RotationRefinement

  /** `n` is one of the listed files. */
  ghost predicate Listed(es: seq<RotatedLogFile>, n: string) {
    exists i :: 0 <= i < |es| && es[i].fullName == n
  }

  /** One of the listed files is to be renamed to `n`. */
  ghost predicate Target(es: seq<RotatedLogFile>, n: string) {
    exists i :: 0 <= i < |es| && NewName(es[i]) == n
  }

  // ---------- the two loops on any listing ----------

  lemma ListedSplits(es: seq<RotatedLogFile>, k: nat, n: string)
    requires k <= |es|
    ensures Listed(es, n) <==> Listed(es[..k], n) || Listed(es[k..], n)
  {
    if i :| 0 <= i < |es| && es[i].fullName == n {
      if i < k { assert es[..k][i].fullName == n; } else { assert es[k..][i - k].fullName == n; }
    }
    if i :| 0 <= i < |es[..k]| && es[..k][i].fullName == n { assert es[i].fullName == n; }
    if i :| 0 <= i < |es[k..]| && es[k..][i].fullName == n { assert es[k + i].fullName == n; }
  }

  lemma {:induction false} RemoveAllNames(files: Files, es: seq<RotatedLogFile>, n: string)
    ensures n in RemoveAll(files, es) <==> n in files && !Listed(es, n)
    ensures n in RemoveAll(files, es) ==> RemoveAll(files, es)[n] == files[n]
  {
    if es != [] {
      RemoveAllNames(files - {es[0].fullName}, es[1..], n);
      ListedSplits(es, 1, n);
      assert Listed(es[..1], n) <==> es[0].fullName == n by { assert es[..1][0] == es[0]; }
    }
  }

  /** Whatever is renamed to `n` is renamed after the listed file `n` itself. */
  ghost predicate RenamedAfter(es: seq<RotatedLogFile>, n: string) {
    forall i, c | 0 <= i < |es| && 0 <= c < |es| && NewName(es[i]) == n && es[c].fullName == n :: i < c
  }

  lemma TargetSplitsLast(es: seq<RotatedLogFile>, n: string)
    requires es != []
    ensures var m := |es| - 1; Target(es, n) <==> NewName(es[m]) == n || Target(es[..m], n)
  {
    hide NewName;
    var m := |es| - 1;
    if i :| 0 <= i < |es| && NewName(es[i]) == n {
      if i < m { assert NewName(es[..m][i]) == n; }
    }
    if i :| 0 <= i < |es[..m]| && NewName(es[..m][i]) == n { assert NewName(es[i]) == n; }
  }

  lemma ListedSplitsLast(es: seq<RotatedLogFile>, n: string)
    requires es != []
    ensures var m := |es| - 1; Listed(es, n) <==> es[m].fullName == n || Listed(es[..m], n)
  {
    var m := |es| - 1;
    ListedSplits(es, m, n);
    assert Listed(es[m..], n) <==> es[m].fullName == n by { assert es[m..][0] == es[m]; }
  }

  lemma RenamedAfterInit(es: seq<RotatedLogFile>, n: string)
    requires es != [] && RenamedAfter(es, n) && DistinctNames(es)
    ensures var m := |es| - 1;
      && RenamedAfter(es[..m], n) && DistinctNames(es[..m])
      && (es[m].fullName == n ==> NewName(es[m]) != n && !Listed(es[..m], n))
      && (NewName(es[m]) == n ==> !Listed(es[..m], n))
  {
    hide NewName;
    var m := |es| - 1;
    if i :| 0 <= i < |es[..m]| && es[..m][i].fullName == n { assert es[i].fullName == n; }
  }

  /** After the renaming loop a name is in use if something was renamed to it, or if it was in use and
      is not listed; in the second case, without the first, its contents are untouched. */
  lemma {:induction false} ShiftUpNames(files: Files, es: seq<RotatedLogFile>, n: string)
    requires DistinctNames(es) && RenamedAfter(es, n) && forall i | 0 <= i < |es| :: es[i].fullName in files
    ensures n in ShiftUp(files, es) <==> (n in files && !Listed(es, n)) || Target(es, n)
    ensures n in files && !Listed(es, n) && !Target(es, n) ==> ShiftUp(files, es)[n] == files[n]
    decreases |es|
  {
    if es != [] {
      var m := |es| - 1;
      var files1 := Rename(files, es[m].fullName, NewName(es[m]));
      RenamedAfterInit(es, n);
      TargetSplitsLast(es, n);
      ListedSplitsLast(es, n);
      hide NewName, Listed, Target, RenamedAfter;
      ShiftUpNames(files1, es[..m], n);
    }
  }

  lemma NewNameIsNext(e: RotatedLogFile, d: RotatedLogFile)
    requires IsEntry(e) && IsEntry(d) && NewName(e) == d.fullName
    ensures d.logId == e.logId + 1
  {
    hide Format, Parse, NewlineFree;
    ParseIsSound(e.fullName);
    RoundTripExactly(e.baseName, e.logId + 1);
    FormatRoundTrip(e.baseName, e.logId + 1);
  }

  /** In a listing by id, nothing is renamed to a listed name but what comes before it. */
  lemma ListingRenamesAfter(files: Files, es: seq<RotatedLogFile>, n: string)
    requires Listing(files, es)
    ensures RenamedAfter(es, n)
  {
    forall i, c | 0 <= i < |es| && 0 <= c < |es| && NewName(es[i]) == n && es[c].fullName == n ensures i < c {
      assert IsEntry(es[i]) && IsEntry(es[c]);
      NewNameIsNext(es[i], es[c]);
    }
  }

  lemma PrefixRenamesAfter(es: seq<RotatedLogFile>, k: nat, n: string)
    requires RenamedAfter(es, n) && DistinctNames(es) && k <= |es|
    ensures RenamedAfter(es[..k], n) && DistinctNames(es[..k])
  {
    hide NewName;
  }

  /** The names after both loops. */
  lemma LoopsOnNames(files: Files, es: seq<RotatedLogFile>, k: nat, n: string)
    requires Listing(files, es) && k <= |es|
    ensures var r := ShiftUp(RemoveAll(files, es[k..]), es[..k]);
      && (n in r <==> (n in files && !Listed(es, n)) || Target(es[..k], n))
      && (n in files && !Listed(es, n) && !Target(es[..k], n) ==> r[n] == files[n])
  {
    var trimmed := RemoveAll(files, es[k..]);
    ListingRenamesAfter(files, es, n);
    PrefixRenamesAfter(es, k, n);
    forall i | 0 <= i < k ensures es[i].fullName in trimmed {
      RemoveAllNames(files, es[k..], es[i].fullName);
      assert forall j | 0 <= j < |es[k..]| :: es[k..][j] == es[k + j];
    }
    RemoveAllNames(files, es[k..], n);
    ListedSplits(es, k, n);
    hide NewName, Listed, Target, RenamedAfter, Listing, RemoveAll, ShiftUp;
    ShiftUpNames(trimmed, es[..k], n);
  }

  // ---------- the current file ----------

  /** A name that does not look like a rotated log is not listed; one that does, is. */
  lemma ListedExactly(files: Files, es: seq<RotatedLogFile>, n: string)
    requires Listing(files, es) && n in files
    ensures Listed(es, n) <==> Parse(n).Some?
  {
    hide Parse;
    if i :| 0 <= i < |es| && es[i].fullName == n { assert IsEntry(es[i]); }
  }

  /** The current file is there to be renamed: it does not look like a rotated log, or another file
      that is kept is renamed to its name. */
  ghost predicate CurrentSurvives(files: Files, es: seq<RotatedLogFile>, current: string, max: nat)
    requires max >= 1
  {
    (current in files && Parse(current).None?) || Target(es[..KeptCount(|es|, max)], current)
  }

  /** When a rotation ends with a current file, told from the directory before it. */
  lemma CurrentSurvivesExactly(files: Files, es: seq<RotatedLogFile>, current: string, max: nat)
    requires Listing(files, es) && max >= 1
    ensures current in Rotated(files, es, current, max) <==> CurrentSurvives(files, es, current, max)
  {
    var k := KeptCount(|es|, max);
    LoopsOnNames(files, es, k, current);
    if current in files { ListedExactly(files, es, current); }
    hide Listing, Listed, Target, Parse, Format, BaseNameWithoutExt, RemoveAll, ShiftUp;
  }

  /** In particular a log file whose own name does not look like a rotated log never goes missing. */
  lemma PlainCurrentSurvives(files: Files, es: seq<RotatedLogFile>, current: string, max: nat)
    requires Listing(files, es) && max >= 1 && current in files && Parse(current).None?
    ensures current in Rotated(files, es, current, max)
  {
    CurrentSurvivesExactly(files, es, current, max);
  }

  lemma ListingOfOne(files: Files, e: RotatedLogFile)
    requires e.fullName in files && IsEntry(e) && forall n <- files | Parse(n).Some? :: n == e.fullName
    ensures Listing(files, [e])
  {
    hide Parse;
    assert [e][0].fullName == e.fullName;
  }

  /** A log file that is itself named like a rotated log is lost: with one historical file allowed,
      the rotation deletes it and ends with nothing. */
  lemma RotatedCurrentIsLost(base: string, id: nat, data: Bytes)
    requires base != "" && NewlineFree(base) && id <= MAX_LOG_ID
    ensures var current := Format(base, id); var files: Files := map[current := data];
      exists es :: Listing(files, es) && Rotated(files, es, current, 1) == map[]
  {
    var current := Format(base, id);
    var files: Files := map[current := data];
    var e := RotatedLogFile(base, id, current);
    FormatRoundTrip(base, id);
    ListingOfOne(files, e);
    hide Format, Parse, Listing, BaseNameWithoutExt;
    assert [e][0..] == [e] && [e][..0] == [] && [e][1..] == [];
    assert RemoveAll(files, [e]) == RemoveAll(files - {current}, []);
    assert files - {current} == map[];
    assert Rotated(files, [e], current, 1) == map[];
  }

  // ---------- a log file named ".log" ----------

  lemma LastRename(files: Files, current: string, first: string)
    requires current in files && first != current
    ensures var r := Open(Rename(files, current, first), current);
      && current in r && r[current] == [] && first in r && r[first] == files[current]
      && forall n | n in r && n != current && n != first :: n in files && r[n] == files[n]
  {}

  lemma RotatedParts(files: Files, es: seq<RotatedLogFile>, current: string, max: nat)
    requires max >= 1
    ensures var k := KeptCount(|es|, max);
      var shifted := ShiftUp(RemoveAll(files, es[k..]), es[..k]);
      current in shifted ==>
        Rotated(files, es, current, max) == Open(Rename(shifted, current, Format(BaseNameWithoutExt(current), 1)), current)
  {
    hide Format, BaseNameWithoutExt, ShiftUp, RemoveAll, Open, Rename;
  }

  lemma EntryHasBase(e: RotatedLogFile, id: nat)
    requires IsEntry(e)
    ensures e.fullName != Format("", id) && NewName(e) != Format("", id)
  {
    EmptyBaseIsLost(id);
    ParseIsSound(e.fullName);
    if NewName(e) == Format("", id) { FormatDetermines(e.baseName, e.logId + 1, "", id); }
  }

  lemma EmptyBaseUntouched(files: Files, es: seq<RotatedLogFile>, k: nat, id: nat)
    requires Listing(files, es) && k <= |es|
    ensures var n := Format("", id); !Listed(es, n) && !Target(es[..k], n)
  {
    forall i | 0 <= i < |es| ensures es[i].fullName != Format("", id) && NewName(es[i]) != Format("", id) {
      EntryHasBase(es[i], id);
    }
  }

  lemma DotLogIsPlain(es: seq<RotatedLogFile>)
    ensures Parse(".log").None? && !Target(es, ".log") && BaseNameWithoutExt(".log") == "" && forall id: nat :: Format("", id) != ".log"
  {
    forall k | 1 <= k <= 4 ensures !IsTail(".log"[k..]) {}
    NothingMatches(".log", 1);
    StemOfPlainName("");
    assert "" + ".log" == ".log";
    forall base, id ensures |Format(base, id)| > 4 {}
    hide Format;
  }

  /** With an empty stem every rotation overwrites the one rotated file and numbers no other: one
      historical file is kept, whatever the limit. */
  lemma EmptyBaseKeepsOne(files: Files, es: seq<RotatedLogFile>, max: nat)
    requires Listing(files, es) && max >= 1 && ".log" in files
    ensures var r := Rotated(files, es, ".log", max);
      && ".log" in r && r[".log"] == []
      && Format("", 1) in r && r[Format("", 1)] == files[".log"]
      && forall id: nat | id != 1 ::
           var n := Format("", id); (n in r <==> n in files) && (n in files ==> r[n] == files[n])
  {
    hide Listing, Listed, Target, Parse, Format, BaseNameWithoutExt, RemoveAll, ShiftUp, Rotated;
    var k, first := KeptCount(|es|, max), Format("", 1);
    var shifted := ShiftUp(RemoveAll(files, es[k..]), es[..k]);
    DotLogIsPlain(es[..k]);
    LoopsOnNames(files, es, k, ".log");
    ListedExactly(files, es, ".log");
    RotatedParts(files, es, ".log", max);
    LastRename(shifted, ".log", first);
    forall id: nat | id != 1
      ensures var n := Format("", id); n != first && (n in shifted <==> n in files) && (n in files ==> shifted[n] == files[n])
    {
      EmptyBaseUntouched(files, es, k, id);
      LoopsOnNames(files, es, k, Format("", id));
      if Format("", id) == first { FormatIsInjective("", id, 1); }
    }
  }

  // ---------- other logs in the directory ----------

  /** The deleting loop does not compare base names: whatever is listed at or after the number of
      files to keep is gone, whichever log it belongs to. */
  lemma DeletionIgnoresBase(files: Files, es: seq<RotatedLogFile>, k: nat, i: nat)
    requires k <= i < |es|
    ensures es[i].fullName !in RemoveAll(files, es[k..])
  {
    RemoveAllNames(files, es[k..], es[i].fullName);
    assert es[k..][i - k].fullName == es[i].fullName;
  }

  /** A rotation with limit 1 that deletes the one listed file. */
  lemma DeletesTheOne(files: Files, e: RotatedLogFile, current: string, c: Bytes)
    requires e.fullName != current && e.fullName in files && files == map[e.fullName := files[e.fullName], current := c]
    requires Format(BaseNameWithoutExt(current), 1) != current
    ensures Rotated(files, [e], current, 1) == map[Format(BaseNameWithoutExt(current), 1) := c, current := []]
  {
    hide Format, BaseNameWithoutExt;
    assert [e][0..] == [e] && [e][..0] == [] && [e][1..] == [];
    assert RemoveAll(files, [e]) == RemoveAll(files - {e.fullName}, []);
    assert files - {e.fullName} == map[current := c];
  }

  /** So a rotation can delete the only rotated file of another log. */
  lemma OtherLogIsDeleted(base: string, other: string, id: nat, theirs: Bytes, current: Bytes)
    requires other != "" && NewlineFree(other) && id <= MAX_LOG_ID && Parse(base + ".log").None?
    requires other != base
    ensures var name := base + ".log"; var files: Files := map[Format(other, id) := theirs, name := current];
      exists es :: Listing(files, es) && Rotated(files, es, name, 1) == map[Format(base, 1) := current, name := []]
  {
    hide Format, Parse, Listing, BaseNameWithoutExt, RemoveAll, ShiftUp, Rotated, NewlineFree;
    var name := base + ".log";
    var files: Files := map[Format(other, id) := theirs, name := current];
    var e := RotatedLogFile(other, id, Format(other, id));
    StemOfPlainName(base);
    FormatRoundTrip(other, id);
    CurrentIsNotRotated(name, 1);
    ListingOfOne(files, e);
    DeletesTheOne(files, e, name, current);
  }

  // ---------- a file with id 0 ----------

  /** `m` is where the contents of `n` come from when the files numbered `ids` move up by one and the
      current file becomes number 1. */
  ghost predicate ComesFrom(base: string, ids: seq<nat>, current: string, n: string, m: string) {
    || (n == Format(base, 1) && m == current)
    || (m == n && n != current && !Named(base, ids, n))
    || (exists i :: 0 <= i < |ids| && ids[i] != 0 && n == Format(base, ids[i] + 1) && m == Format(base, ids[i]))
  }

  lemma ShiftedComesFrom(files: Files, base: string, ids: seq<nat>, current: string, shifted: Files, n: string) returns (m: string)
    requires IsShift(files, base, ids, shifted) && n in shifted && n != Format(base, 1) && n != current
    ensures ComesFrom(base, ids, current, n, m) && m in files && shifted[n] == files[m]
  {
    hide Format;
    if i :| 0 <= i < |ids| && n == Format(base, ids[i] + 1) {
      m := Format(base, ids[i]);
      ShiftAt(files, base, ids, shifted, i);
    } else {
      m := n;
    }
  }

  lemma ListedIncrease(files: Files, base: string, ids: seq<nat>, es: seq<RotatedLogFile>)
    requires Listing(files, es) && Entries(base, ids, es)
    ensures Increasing(ids)
  {
    EntriesIncrease(base, es);
    assert ids == LogIds(es);
  }

  lemma EntryIsThere(files: Files, base: string, ids: seq<nat>, es: seq<RotatedLogFile>, i: nat)
    requires Listing(files, es) && Entries(base, ids, es) && i < |es|
    ensures Format(base, ids[i]) in files
  {
    hide Format, Parse;
  }

  lemma TrimmedIsShiftable(files: Files, base: string, ids: seq<nat>, es: seq<RotatedLogFile>, k: nat)
    requires Listing(files, es) && Entries(base, ids, es) && k <= |es| && base != "" && NewlineFree(base)
    requires forall i | 0 <= i < k :: ids[i] < MAX_LOG_ID
    ensures Shiftable(RemoveAll(files, es[k..]), base, ids[..k])
  {
    hide Format, Parse, RemoveAll, Named, Increasing, FreeOrListed, NewlineFree, Listing;
    var trimmed := RemoveAll(files, es[k..]);
    ListedIncrease(files, base, ids, es);
    RemoveAllExact(files, base, ids[k..], es[k..]);
    hide Entries;
    IncreasingPrefix(ids, k);
    forall i | 0 <= i < k ensures Format(base, ids[i]) in trimmed && FreeOrListed(trimmed, base, ids[..k], ids[i] + 1) {
      KeptIsNotDeleted(base, ids, k, i);
      EntryIsThere(files, base, ids, es, i);
      NextIsFreeOrListed(files, trimmed, base, ids, es, k, i);
    }
  }

  lemma NextIsFreeOrListed(files: Files, trimmed: Files, base: string, ids: seq<nat>, es: seq<RotatedLogFile>, k: nat, i: nat)
    requires Listing(files, es) && Entries(base, ids, es) && i < k <= |es| && base != "" && NewlineFree(base) && ids[i] < MAX_LOG_ID
    requires forall n :: n in trimmed <==> n in files && !Named(base, ids[k..], n)
    ensures FreeOrListed(trimmed, base, ids[..k], ids[i] + 1)
  {
    hide Format, Parse, Named, NewlineFree, Listing;
    if Format(base, ids[i] + 1) in trimmed { NextIsListed(files, base, ids, es, k, i); }
  }

  lemma IncreasingPrefix(ids: seq<nat>, k: nat)
    requires Increasing(ids) && k <= |ids|
    ensures Increasing(ids[..k])
  {}

  lemma NextIsListed(files: Files, base: string, ids: seq<nat>, es: seq<RotatedLogFile>, k: nat, i: nat)
    requires Listing(files, es) && Entries(base, ids, es) && i < k <= |es| && base != "" && NewlineFree(base) && ids[i] < MAX_LOG_ID
    requires Format(base, ids[i] + 1) in files && !Named(base, ids[k..], Format(base, ids[i] + 1))
    ensures ids[i] + 1 in ids[..k]
  {
    hide Format, Parse;
    var n := Format(base, ids[i] + 1);
    FormatRoundTrip(base, ids[i] + 1);
    var j :| 0 <= j < |es| && es[j].fullName == n;
    assert Named(base, ids, n);
    NamedSplits(base, ids, k, n);
    var l :| 0 <= l < k && n == Format(base, ids[..k][l]);
    FormatIsInjective(base, ids[..k][l], ids[i] + 1);
    assert ids[..k][l] in ids[..k];
  }

  lemma SourceIsNotZero(base: string, ids: seq<nat>, current: string, n: string, m: string)
    requires ComesFrom(base, ids, current, n, m) && 0 in ids && base == BaseNameWithoutExt(current)
    ensures m != Format(base, 0)
  {
    CurrentIsNotRotated(current, 0);
    forall id: nat | Format(base, id) == Format(base, 0) ensures id == 0 { FormatIsInjective(base, id, 0); }
    hide Format, BaseNameWithoutExt;
    var z :| 0 <= z < |ids| && ids[z] == 0;
    assert Named(base, ids, Format(base, ids[z]));
  }

  lemma CurrentIsNoTarget(base: string, ids: seq<nat>, es: seq<RotatedLogFile>, k: nat, current: string)
    requires Entries(base, ids, es) && k <= |es| && base == BaseNameWithoutExt(current)
    ensures !Target(es[..k], current)
  {
    forall id { CurrentIsNotRotated(current, id); }
    hide Format, BaseNameWithoutExt;
  }

  lemma FirstComesFromCurrent(base: string, ids: seq<nat>, current: string)
    ensures ComesFrom(base, ids, current, Format(base, 1), current)
  {}

  /** If a kept file of a log has id 0, the rotation loses it: afterwards every file of the directory
      is the new current file or has the contents of some other file, shifted as it should be. */
  lemma IdZeroIsLost(files: Files, base: string, ids: seq<nat>, es: seq<RotatedLogFile>, current: string, max: nat)
    requires Listing(files, es) && Entries(base, ids, es) && base != "" && NewlineFree(base) && max >= 1
    requires base == BaseNameWithoutExt(current) && current in files && Parse(current).None?
    requires var k := KeptCount(|es|, max); 0 in ids[..k] && forall i | 0 <= i < k :: ids[i] < MAX_LOG_ID
    ensures var k, r := KeptCount(|es|, max), Rotated(files, es, current, max);
      && current in r && r[current] == []
      && forall n | n in r && n != current ::
           exists m :: ComesFrom(base, ids[..k], current, n, m) && m in files && m != Format(base, 0) && r[n] == files[m]
  {
    hide Listing, Listed, Target, Parse, Format, BaseNameWithoutExt, RemoveAll, ShiftUp, IsShift, Shiftable, Named, NewlineFree, Rotated;
    hide ComesFrom, Rename, Open;
    var k, r, first := KeptCount(|es|, max), Rotated(files, es, current, max), Format(base, 1);
    var trimmed := RemoveAll(files, es[k..]);
    var shifted := ShiftUp(trimmed, es[..k]);
    LoopsOnNames(files, es, k, current);
    ListedExactly(files, es, current);
    CurrentIsNoTarget(base, ids, es, k, current);
    CurrentIsNotRotated(current, 1);
    RotatedParts(files, es, current, max);
    LastRename(shifted, current, first);
    EntriesSplit(base, ids, es, k);
    assert |ids| == |es|;
    hide Entries;
    TrimmedIsShiftable(files, base, ids, es, k);
    ShiftUpExact(trimmed, base, ids[..k], es[..k]);
    RemoveAllExact(files, base, ids[k..], es[k..]);
    forall n | n in r && n != current
      ensures exists m :: ComesFrom(base, ids[..k], current, n, m) && m in files && m != Format(base, 0) && r[n] == files[m]
    {
      var m := current;
      if n == first { FirstComesFromCurrent(base, ids[..k], current); }
      else { m := ShiftedComesFrom(trimmed, base, ids[..k], current, shifted, n); }
      SourceIsNotZero(base, ids[..k], current, n, m);
    }
  }

  lemma EntriesSplit(base: string, ids: seq<nat>, es: seq<RotatedLogFile>, k: nat)
    requires Entries(base, ids, es) && k <= |es|
    ensures Entries(base, ids[..k], es[..k]) && Entries(base, ids[k..], es[k..])
  {
    hide Format;
  }
}
