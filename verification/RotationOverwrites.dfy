/** Which rotations overwrite a file: the exact condition, for every directory. */
module RotationOverwrites {
  import opened Bytes
  import opened RotatedName
  import opened LogHistory
  import opened LogRotation
  import opened RotationSurvival
  import Decimal

  // ---------- the renaming loop ----------

  /** No two files are renamed to the same name. */
  ghost predicate DistinctTargets(es: seq<RotatedLogFile>) {
    forall i, j | 0 <= i < j < |es| :: NewName(es[i]) != NewName(es[j])
  }

  /** A file that has the new name of another one is itself to be renamed. */
  ghost predicate TargetsListed(files: Files, es: seq<RotatedLogFile>) {
    forall i | 0 <= i < |es| && NewName(es[i]) in files :: Listed(es, NewName(es[i]))
  }

  ghost predicate AllThere(files: Files, es: seq<RotatedLogFile>) {
    forall i | 0 <= i < |es| :: es[i].fullName in files
  }

  /** Whatever is renamed to a listed name is renamed after it. */
  ghost predicate Ordered(es: seq<RotatedLogFile>) {
    DistinctNames(es) && forall n :: RenamedAfter(es, n)
  }

  lemma OrderedPrefix(es: seq<RotatedLogFile>, k: nat)
    requires Ordered(es) && k <= |es|
    ensures Ordered(es[..k])
  {
    forall n ensures RenamedAfter(es[..k], n) { PrefixRenamesAfter(es, k, n); }
    assert DistinctNames(es[..k]);
  }

  lemma ListingIsOrdered(files: Files, es: seq<RotatedLogFile>)
    requires Listing(files, es)
    ensures Ordered(es)
  {
    forall n { ListingRenamesAfter(files, es, n); }
  }

  lemma ListedAreThere(files: Files, es: seq<RotatedLogFile>)
    requires Listing(files, es)
    ensures AllThere(files, es)
  {
    hide Parse;
  }

  /** After the last file is renamed the others are still there. */
  lemma RestIsThere(files: Files, es: seq<RotatedLogFile>)
    requires AllThere(files, es) && DistinctNames(es) && es != []
    ensures var m := |es| - 1; AllThere(Rename(files, es[m].fullName, NewName(es[m])), es[..m])
  {
    hide NewName;
  }

  lemma TargetIsFreeAfter(files: Files, es: seq<RotatedLogFile>)
    requires Ordered(es) && AllThere(files, es) && es != []
    ensures var m := |es| - 1; !Listed(es, NewName(es[m]))
  {
    var m := |es| - 1;
    assert RenamedAfter(es, NewName(es[m]));
    hide NewName;
  }

  lemma TargetsListedStep(files: Files, es: seq<RotatedLogFile>, i: nat)
    requires Ordered(es) && AllThere(files, es) && i < |es| - 1
    requires var m := |es| - 1; NewName(es[m]) !in files
    ensures var m := |es| - 1; var files1 := Rename(files, es[m].fullName, NewName(es[m])); var n := NewName(es[i]);
      (n in files1 ==> Listed(es[..m], n)) <==> n != NewName(es[m]) && (n in files ==> Listed(es, n))
  {
    var m, n := |es| - 1, NewName(es[i]);
    TargetIsFreeAfter(files, es);
    ListedSplitsLast(es, n);
    assert RenamedAfter(es, n);
    hide NewName, Listed, Ordered;
  }

  lemma DistinctTargetsStep(es: seq<RotatedLogFile>)
    requires es != []
    ensures var m := |es| - 1;
      DistinctTargets(es) <==> DistinctTargets(es[..m]) && forall i | 0 <= i < m :: NewName(es[i]) != NewName(es[m])
  {
    hide NewName;
    assert forall i | 0 <= i < |es| - 1 :: es[..|es| - 1][i] == es[i];
  }

  /** No rename of the loop meets an existing file if and only if the new names are distinct and each
      of them that is in use belongs to a file to be renamed itself. */
  lemma {:induction false} NeverClobbersExactly(files: Files, es: seq<RotatedLogFile>)
    requires Ordered(es) && AllThere(files, es)
    ensures NeverClobbers(files, es) <==> DistinctTargets(es) && TargetsListed(files, es)
    decreases |es|
  {
    if es != [] {
      var m := |es| - 1;
      var files1 := Rename(files, es[m].fullName, NewName(es[m]));
      OrderedPrefix(es, m);
      RestIsThere(files, es);
      TargetIsFreeAfter(files, es);
      NeverClobbersExactly(files1, es[..m]);
      DistinctTargetsStep(es);
      if NewName(es[m]) !in files {
        forall i | 0 <= i < m
          ensures (NewName(es[i]) in files1 ==> Listed(es[..m], NewName(es[i])))
            <==> NewName(es[i]) != NewName(es[m]) && (NewName(es[i]) in files ==> Listed(es, NewName(es[i])))
        {
          TargetsListedStep(files, es, i);
        }
        TargetsListedInit(files, files1, es);
      }
    }
  }

  lemma TargetsListedInit(files: Files, files1: Files, es: seq<RotatedLogFile>)
    requires es != [] && NewName(es[|es| - 1]) !in files
    requires forall i | 0 <= i < |es| - 1 ::
      (NewName(es[i]) in files1 ==> Listed(es[..|es| - 1], NewName(es[i])))
        <==> NewName(es[i]) != NewName(es[|es| - 1]) && (NewName(es[i]) in files ==> Listed(es, NewName(es[i])))
    ensures var m := |es| - 1;
      TargetsListed(files1, es[..m]) <==>
        TargetsListed(files, es) && forall i | 0 <= i < m :: NewName(es[i]) != NewName(es[m])
  {
    hide NewName, Listed;
    assert forall i | 0 <= i < |es| - 1 :: es[..|es| - 1][i] == es[i];
  }

  /** Where the contents of a renamed file end up: of several files renamed to one name, the one of
      lowest index is what that name holds after the loop. */
  lemma {:induction false} LowestWins(files: Files, es: seq<RotatedLogFile>, i: nat)
    requires Ordered(es) && AllThere(files, es) && i < |es|
    requires forall j | 0 <= j < i :: NewName(es[j]) != NewName(es[i])
    ensures var r := ShiftUp(files, es); NewName(es[i]) in r && r[NewName(es[i])] == files[es[i].fullName]
    decreases |es|
  {
    var m := |es| - 1;
    var n, files1 := NewName(es[i]), Rename(files, es[m].fullName, NewName(es[m]));
    OrderedPrefix(es, m);
    RestIsThere(files, es);
    TargetIsFreeAfter(files, es);
    if i < m {
      LowestWins(files1, es[..m], i);
      assert Listed(es, es[i].fullName);
    } else {
      ListedSplitsLast(es, n);
      NotATarget(es[..m], n);
      ShiftUpNames(files1, es[..m], n);
    }
  }

  lemma NotATarget(es: seq<RotatedLogFile>, n: string)
    requires forall j | 0 <= j < |es| :: NewName(es[j]) != n
    ensures !Target(es, n)
  {}

  // ---------- the two loops ----------

  function Kept(es: seq<RotatedLogFile>, max: nat): seq<RotatedLogFile>
    requires max >= 1
  {
    es[..KeptCount(|es|, max)]
  }

  ghost predicate Holding(r: Files, n: string, files: Files) {
    n in r && n in files && r[n] == files[n]
  }

  lemma KeptAreThere(files: Files, es: seq<RotatedLogFile>, k: nat)
    requires Listing(files, es) && k <= |es|
    ensures Ordered(es[..k]) && AllThere(files, es) && AllThere(RemoveAll(files, es[k..]), es[..k])
    ensures forall i | 0 <= i < k :: Holding(RemoveAll(files, es[k..]), es[i].fullName, files)
  {
    ListingIsOrdered(files, es);
    ListedAreThere(files, es);
    OrderedPrefix(es, k);
    forall i | 0 <= i < k ensures Holding(RemoveAll(files, es[k..]), es[i].fullName, files) {
      RemoveAllNames(files, es[k..], es[i].fullName);
      assert forall j | 0 <= j < |es[k..]| :: es[k..][j] == es[k + j];
    }
  }

  lemma NextParses(e: RotatedLogFile)
    requires IsEntry(e)
    ensures e.logId <= MAX_LOG_ID && (Parse(NewName(e)).Some? <==> e.logId < MAX_LOG_ID)
  {
    hide Parse, Format, NewlineFree, Spells;
    ParseIsSound(e.fullName);
    RoundTripExactly(e.baseName, e.logId + 1);
  }

  /** A new name in use belongs to a listed file, unless its id no longer fits. */
  lemma NextIsListedExactly(files: Files, es: seq<RotatedLogFile>, e: RotatedLogFile)
    requires Listing(files, es) && IsEntry(e) && NewName(e) in files
    ensures Listed(es, NewName(e)) <==> e.logId < MAX_LOG_ID
  {
    hide *;
    NextParses(e);
    ListedExactly(files, es, NewName(e));
  }

  lemma TargetListedExactly(files: Files, es: seq<RotatedLogFile>, k: nat, i: nat)
    requires Listing(files, es) && i < k <= |es|
    ensures var n := NewName(es[i]);
      (n in RemoveAll(files, es[k..]) ==> Listed(es[..k], n)) <==> (es[i].logId == MAX_LOG_ID ==> n !in files)
  {
    assert IsEntry(es[i]);
    hide *;
    var n := NewName(es[i]);
    RemoveAllNames(files, es[k..], n);
    ListedSplits(es, k, n);
    NextParses(es[i]);
    if n in files { NextIsListedExactly(files, es, es[i]); }
  }

  /** None of the files with the greatest id has a successor. */
  ghost predicate NoneAboveGreatest(files: Files, es: seq<RotatedLogFile>) {
    forall i | 0 <= i < |es| && es[i].logId == MAX_LOG_ID :: NewName(es[i]) !in files
  }

  lemma TargetsListedExactly(files: Files, es: seq<RotatedLogFile>, k: nat)
    requires Listing(files, es) && k <= |es|
    ensures TargetsListed(RemoveAll(files, es[k..]), es[..k]) <==> NoneAboveGreatest(files, es[..k])
  {
    hide NewName, RemoveAll, Listed, Listing;
    forall i | 0 <= i < k { TargetListedExactly(files, es, k, i); }
    assert forall i | 0 <= i < k :: es[..k][i] == es[i];
  }

  lemma SameTargetExactly(e: RotatedLogFile, d: RotatedLogFile)
    ensures NewName(e) == NewName(d) <==> e.baseName == d.baseName && e.logId == d.logId
  {
    if NewName(e) == NewName(d) { FormatDetermines(e.baseName, e.logId + 1, d.baseName, d.logId + 1); }
  }

  /** No two of the files have the same base and id, in different spellings. */
  ghost predicate SpelledOnce(es: seq<RotatedLogFile>) {
    forall i, j | 0 <= i < j < |es| :: es[i].baseName != es[j].baseName || es[i].logId != es[j].logId
  }

  /** For every directory: the renaming loop, run after the deleting one, overwrites no file if and
      only if no two of the kept files have one id in two spellings and none with the greatest id has a
      successor. */
  lemma LoopOverwritesNothingExactly(files: Files, es: seq<RotatedLogFile>, k: nat)
    requires Listing(files, es) && k <= |es|
    ensures NeverClobbers(RemoveAll(files, es[k..]), es[..k]) <==> SpelledOnce(es[..k]) && NoneAboveGreatest(files, es[..k])
  {
    KeptAreThere(files, es, k);
    NeverClobbersExactly(RemoveAll(files, es[k..]), es[..k]);
    TargetsListedExactly(files, es, k);
    forall i, j | 0 <= i < j < k
      ensures NewName(es[i]) != NewName(es[j]) <==> es[i].baseName != es[j].baseName || es[i].logId != es[j].logId
    {
      SameTargetExactly(es[i], es[j]);
    }
    hide NewName, RemoveAll, Listing, Ordered, AllThere, NeverClobbers, TargetsListed;
    assert forall i | 0 <= i < k :: es[..k][i] == es[i];
  }

  /** For every directory: what a kept file holds is found under its new name, unless another file of
      the same base and id precedes it in the listing. */
  lemma KeptContents(files: Files, es: seq<RotatedLogFile>, k: nat, i: nat)
    requires Listing(files, es) && i < k <= |es|
    requires forall j | 0 <= j < i :: es[j].baseName != es[i].baseName || es[j].logId != es[i].logId
    ensures var r := ShiftUp(RemoveAll(files, es[k..]), es[..k]);
      NewName(es[i]) in r && r[NewName(es[i])] == files[es[i].fullName]
  {
    KeptAreThere(files, es, k);
    forall j | 0 <= j < i ensures NewName(es[..k][j]) != NewName(es[..k][i]) {
      SameTargetExactly(es[j], es[i]);
    }
    hide NewName, RemoveAll, Listing, Ordered, AllThere;
    LowestWins(RemoveAll(files, es[k..]), es[..k], i);
  }

  // ---------- the last rename ----------

  ghost predicate HasId(es: seq<RotatedLogFile>, base: string, id: nat) {
    exists i :: 0 <= i < |es| && es[i].baseName == base && es[i].logId == id
  }

  lemma FirstIsTargetExactly(es: seq<RotatedLogFile>, base: string)
    ensures Target(es, Format(base, 1)) <==> HasId(es, base, 0)
  {
    hide Format;
    forall i | 0 <= i < |es| ensures NewName(es[i]) == Format(base, 1) <==> es[i].baseName == base && es[i].logId == 0 {
      if NewName(es[i]) == Format(base, 1) { FormatDetermines(es[i].baseName, es[i].logId + 1, base, 1); }
    }
  }

  /** A base whose rotated files the pattern recognises. */
  predicate Recognised(base: string) {
    base != "" && NewlineFree(base)
  }

  /** For every directory: the target of the last rename is occupied if and only if a kept file of
      this base has id 0, or it existed before and the pattern does not recognise it. */
  lemma FirstIsFreeExactly(files: Files, es: seq<RotatedLogFile>, k: nat, base: string)
    requires Listing(files, es) && k <= |es|
    ensures Format(base, 1) in ShiftUp(RemoveAll(files, es[k..]), es[..k]) <==>
      HasId(es[..k], base, 0) || (Format(base, 1) in files && !Recognised(base))
  {
    var first := Format(base, 1);
    LoopsOnNames(files, es, k, first);
    FirstIsTargetExactly(es[..k], base);
    if first in files { ListedExactly(files, es, first); }
    RoundTripExactly(base, 1);
    hide Listing, Listed, Target, Parse, Format, RemoveAll, ShiftUp, NewlineFree, HasId;
  }

  // ---------- the whole rotation ----------

  /** No rename of the rotation, neither of a historical file nor of the current one, meets an existing
      file. */
  ghost predicate OverwritesNothing(files: Files, es: seq<RotatedLogFile>, current: string, max: nat)
    requires max >= 1
  {
    var k := KeptCount(|es|, max);
    var trimmed := RemoveAll(files, es[k..]);
    var shifted := ShiftUp(trimmed, es[..k]);
    NeverClobbers(trimmed, es[..k]) && (current in shifted ==> Format(BaseNameWithoutExt(current), 1) !in shifted)
  }

  /** The exact condition, told from the directory before the rotation. */
  lemma OverwritesNothingExactly(files: Files, es: seq<RotatedLogFile>, current: string, max: nat)
    requires Listing(files, es) && max >= 1
    ensures var kept, base := Kept(es, max), BaseNameWithoutExt(current);
      OverwritesNothing(files, es, current, max) <==>
        && SpelledOnce(kept) && NoneAboveGreatest(files, kept)
        && (CurrentSurvives(files, es, current, max) ==>
              !HasId(kept, base, 0) && (Format(base, 1) in files ==> Recognised(base)))
  {
    var k, base := KeptCount(|es|, max), BaseNameWithoutExt(current);
    LoopOverwritesNothingExactly(files, es, k);
    FirstIsFreeExactly(files, es, k, base);
    LoopsOnNames(files, es, k, current);
    if current in files { ListedExactly(files, es, current); }
    hide Listing, Listed, Target, Parse, Format, RemoveAll, ShiftUp, HasId, NeverClobbers, SpelledOnce, NoneAboveGreatest, BaseNameWithoutExt, Recognised;
  }

  /** No kept file is renamed to a file that is not listed. */
  lemma UnlistedIsNoTarget(files: Files, es: seq<RotatedLogFile>, k: nat, n: string)
    requires Listing(files, es) && k <= |es| && n in files && !Listed(es, n)
    requires NeverClobbers(RemoveAll(files, es[k..]), es[..k])
    ensures !Target(es[..k], n)
  {
    hide Listing, NeverClobbers, RemoveAll, NewName, Ordered, AllThere;
    var trimmed := RemoveAll(files, es[k..]);
    KeptAreThere(files, es, k);
    NeverClobbersExactly(trimmed, es[..k]);
    RemoveAllNames(files, es[k..], n);
    ListedSplits(es, k, n);
    assert n in trimmed && !Listed(es[..k], n);
  }

  /** Then nothing is lost but what is deleted: every kept file is found under its next number, the
      current file as number 1, and every other file where it was. */
  lemma NothingElseIsLost(files: Files, es: seq<RotatedLogFile>, current: string, max: nat)
    requires Listing(files, es) && max >= 1 && current in files && Parse(current).None?
    requires OverwritesNothing(files, es, current, max)
    ensures var r, kept, first := Rotated(files, es, current, max), Kept(es, max), Format(BaseNameWithoutExt(current), 1);
      && current in r && r[current] == [] && first in r && r[first] == files[current]
      && (forall i | 0 <= i < |kept| :: NewName(kept[i]) in r && r[NewName(kept[i])] == files[kept[i].fullName])
      && (forall n <- files | Parse(n).None? && n != current :: n in r && r[n] == files[n])
  {
    hide Listing, NeverClobbers, RemoveAll, NewName, ShiftUp, Parse, Format, BaseNameWithoutExt, Listed, Target, Rotated;
    ListedAreThere(files, es);
    var k, first := KeptCount(|es|, max), Format(BaseNameWithoutExt(current), 1);
    var shifted := ShiftUp(RemoveAll(files, es[k..]), es[..k]);
    ListedExactly(files, es, current);
    UnlistedIsNoTarget(files, es, k, current);
    LoopsOnNames(files, es, k, current);
    CurrentIsNotRotated(current, 1);
    RotatedParts(files, es, current, max);
    LastRename(shifted, current, first);
    forall i | 0 <= i < k
      ensures NewName(es[i]) in shifted && NewName(es[i]) != current && shifted[NewName(es[i])] == files[es[i].fullName]
    {
      LoopKeeps(files, es, k, i);
      TargetAt(es[..k], i);
    }
    forall n <- files | Parse(n).None? && n != current ensures n in shifted && shifted[n] == files[n] {
      ListedExactly(files, es, n);
      UnlistedIsNoTarget(files, es, k, n);
      LoopsOnNames(files, es, k, n);
    }
    hide Open, Rename;
    assert forall i | 0 <= i < k :: es[..k][i] == es[i];
  }

  lemma TargetAt(es: seq<RotatedLogFile>, i: nat)
    requires i < |es|
    ensures Target(es, NewName(es[i]))
  {}

  lemma LoopKeeps(files: Files, es: seq<RotatedLogFile>, k: nat, i: nat)
    requires Listing(files, es) && i < k <= |es| && NeverClobbers(RemoveAll(files, es[k..]), es[..k])
    ensures var r := ShiftUp(RemoveAll(files, es[k..]), es[..k]);
      NewName(es[i]) in r && r[NewName(es[i])] == files[es[i].fullName]
  {
    LoopOverwritesNothingExactly(files, es, k);
    assert forall j | 0 <= j < k :: es[..k][j] == es[j];
    hide Listing, NeverClobbers, RemoveAll, NewName, ShiftUp;
    KeptContents(files, es, k, i);
  }

  // ---------- inputs on which a file is overwritten ----------

  lemma ListingOfTwo(files: Files, e: RotatedLogFile, d: RotatedLogFile)
    requires e.fullName in files && d.fullName in files && IsEntry(e) && IsEntry(d) && e.fullName != d.fullName && e.logId <= d.logId
    requires forall n <- files | Parse(n).Some? :: n == e.fullName || n == d.fullName
    ensures Listing(files, [e, d])
  {
    hide Parse;
    assert [e, d][0].fullName == e.fullName && [e, d][1].fullName == d.fullName;
  }

  lemma RenameTwo(files: Files, e: RotatedLogFile, d: RotatedLogFile)
    requires e.fullName in files && d.fullName in files && e.fullName != d.fullName
    requires NewName(e) == NewName(d) && NewName(e) != e.fullName && NewName(e) != d.fullName
    ensures ShiftUp(files, [e, d]) == (files - {e.fullName, d.fullName})[NewName(e) := files[e.fullName]]
  {
    hide NewName;
    var files1 := Rename(files, d.fullName, NewName(d));
    assert [e, d][..1] == [e] && [e][..0] == [];
    assert ShiftUp(files, [e, d]) == ShiftUp(files1, [e]);
    assert ShiftUp(files1, [e]) == Rename(files1, e.fullName, NewName(e));
  }

  lemma TwoSpellingsApart(base: string)
    ensures Spelled(base, "1") == Format(base, 1) && Decimal.Value("1") == 1 && Decimal.Value("01") == 1
    ensures Spelled(base, "01") != base + ".log" && Spelled(base, "1") != base + ".log" && Decimal.AllDigits("1") && Decimal.AllDigits("01")
    ensures Spelled(base, "01") != Spelled(base, "1") && Spelled(base, "01") != Format(base, 2) && Spelled(base, "1") != Format(base, 2)
  {
    assert Decimal.Value("1") == 10 * Decimal.Value("") + 1;
    assert "01"[..1] == "0" && "0"[..0] == "" && Decimal.Value("0") == 10 * Decimal.Value("");
    assert |Spelled(base, "01")| == |base| + 15 && |Spelled(base, "1")| == |base| + 14 && |Format(base, 2)| == |base| + 14;
    if Spelled(base, "1") == Format(base, 2) { FormatIsInjective(base, 1, 2); }
  }

  lemma PlainNameApart(base: string, id: nat)
    ensures BaseNameWithoutExt(base + ".log") == base && base + ".log" != Format(base, id)
  {
    StemOfPlainName(base);
    CurrentIsNotRotated(base + ".log", id);
  }

  /** One id in two spellings: both files are renamed to number 2, and of the two, whichever was read
      first from the directory, one is gone. */
  lemma SpellingIsLost(base: string, a: Bytes, b: Bytes, c: Bytes, max: nat)
    requires Recognised(base) && Parse(base + ".log").None? && max >= 3
    ensures var name := base + ".log";
      var files: Files := map[Spelled(base, "1") := a, Spelled(base, "01") := b, name := c];
      exists es, ds ::
        && Listing(files, es) && Rotated(files, es, name, max) == map[Format(base, 2) := a, Format(base, 1) := c, name := []]
        && Listing(files, ds) && Rotated(files, ds, name, max) == map[Format(base, 2) := b, Format(base, 1) := c, name := []]
  {
    hide Format, Parse, Listing, Spelled, Rotated, NewlineFree, Decimal.Value, Decimal.AllDigits;
    var name := base + ".log";
    var one, zero := Spelled(base, "1"), Spelled(base, "01");
    var files: Files := map[one := a, zero := b, name := c];
    var e, d := RotatedLogFile(base, 1, one), RotatedLogFile(base, 1, zero);
    TwoSpellingsApart(base);
    SpellingRoundTrip(base, "1");
    SpellingRoundTrip(base, "01");
    assert files == map[zero := b, one := a, name := c];
    TwoOfOneId(files, e, d, base, a, b, c, max);
    TwoOfOneId(files, d, e, base, b, a, c, max);
  }

  /** A rotation that deletes nothing and renames its two remaining files apart. */
  lemma RotatesTo(files: Files, es: seq<RotatedLogFile>, current: string, max: nat, n: string, a: Bytes, c: Bytes)
    requires |es| < max && n != current && Format(BaseNameWithoutExt(current), 1) != n && Format(BaseNameWithoutExt(current), 1) != current
    requires ShiftUp(files, es) == map[n := a, current := c]
    ensures Rotated(files, es, current, max) == map[n := a, Format(BaseNameWithoutExt(current), 1) := c, current := []]
  {
    hide Format, BaseNameWithoutExt, ShiftUp;
    assert es[|es|..] == [] && es[..|es|] == es;
    assert RemoveAll(files, []) == files;
  }

  lemma FormatsApart(base: string)
    ensures forall i: nat, j: nat | i != j :: Format(base, i) != Format(base, j)
  {
    forall i: nat, j: nat | Format(base, i) == Format(base, j) ensures i == j { FormatIsInjective(base, i, j); }
  }

  lemma TwoOfOneId(files: Files, e: RotatedLogFile, d: RotatedLogFile, base: string, a: Bytes, b: Bytes, c: Bytes, max: nat)
    requires max >= 3 && Parse(base + ".log").None?
    requires IsEntry(e) && IsEntry(d) && e.baseName == d.baseName == base && e.logId == d.logId == 1
    requires e.fullName != d.fullName && e.fullName != Format(base, 2) && d.fullName != Format(base, 2)
    requires files == map[e.fullName := a, d.fullName := b, base + ".log" := c]
    ensures Listing(files, [e, d])
    ensures Rotated(files, [e, d], base + ".log", max) == map[Format(base, 2) := a, Format(base, 1) := c, base + ".log" := []]
  {
    hide Format, Parse, Listing, BaseNameWithoutExt, RemoveAll, ShiftUp, Rotated;
    var name := base + ".log";
    PlainNameApart(base, 1);
    PlainNameApart(base, 2);
    FormatsApart(base);
    ListingOfTwo(files, e, d);
    RenameTwo(files, e, d);
    MoveOfTwo(files, e.fullName, d.fullName, name, Format(base, 2), a, b, c);
    RotatesTo(files, [e, d], name, max, Format(base, 2), a, c);
  }

  lemma MoveOfTwo(files: Files, x: string, y: string, name: string, n: string, a: Bytes, b: Bytes, c: Bytes)
    requires x != y && x != name && y != name && n != x && n != y && n != name && files == map[x := a, y := b, name := c]
    ensures (files - {x, y})[n := files[x]] == map[n := a, name := c]
  {}

  /** The greatest id: the pattern does not recognise its successor, so a file of that name is not
      moved out of the way, and is overwritten. */
  lemma AboveGreatestIsLost(base: string, a: Bytes, b: Bytes, c: Bytes, max: nat)
    requires Recognised(base) && Parse(base + ".log").None? && max >= 2
    ensures var name, last, next := base + ".log", Format(base, MAX_LOG_ID), Format(base, MAX_LOG_ID + 1);
      var files: Files := map[last := a, next := b, name := c];
      exists es :: Listing(files, es) && Rotated(files, es, name, max) == map[next := a, Format(base, 1) := c, name := []]
  {
    hide Format, Parse, Listing, BaseNameWithoutExt, NewlineFree, ShiftUp, RemoveAll, Rotated;
    var name, last, next := base + ".log", Format(base, MAX_LOG_ID), Format(base, MAX_LOG_ID + 1);
    var files: Files := map[last := a, next := b, name := c];
    var e := RotatedLogFile(base, MAX_LOG_ID, last);
    FormatRoundTrip(base, MAX_LOG_ID);
    RoundTripExactly(base, MAX_LOG_ID + 1);
    forall id { PlainNameApart(base, id); }
    FormatsApart(base);
    ListingOfOne(files, e);
    RenameOne(files, e, next, name, a, b, c);
    RotatesTo(files, [e], name, max, next, a, c);
  }

  lemma RenameOne(files: Files, e: RotatedLogFile, n: string, name: string, a: Bytes, b: Bytes, c: Bytes)
    requires NewName(e) == n && n != e.fullName && n != name && e.fullName != name && files == map[e.fullName := a, n := b, name := c]
    ensures ShiftUp(files, [e]) == map[n := a, name := c]
  {
    hide NewName;
    assert [e][..0] == [];
    assert ShiftUp(files, [e]) == Rename(files, e.fullName, n);
  }
}
