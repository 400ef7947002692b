/** A log among others: what a rotation does to the files of this log in a directory that holds other
    logs as well, and what that comes to over whole runs. */
module RotationAmong {
  import opened Wrappers
  import opened Bytes
  import opened RotatedName
  import opened LogHistory
  import opened LogRotation
  import opened RotationRefinement
  import opened RotationSurvival
  import opened RotationOverwrites
  import opened RotatingLog

  /** The current file, or one that the pattern takes for a rotated file of its base. */
  predicate IsOwn(current: string, n: string) {
    n == current || (Parse(n).Some? && Parse(n).value.base == BaseNameWithoutExt(current))
  }

  function Own(files: Files, current: string): Files {
    map n | n in files && IsOwn(current, n) :: files[n]
  }

  /** What a rotated file of the greatest id is renamed to. */
  function AboveGreatest(base: string): string {
    Format(base, MAX_LOG_ID + 1)
  }

  /** No rotated file of any log can be renamed to this name. */
  ghost predicate NoSuccessor(current: string) {
    forall base :: current != AboveGreatest(base)
  }

  /** The directory holds the log `s`, and may hold any other files. */
  ghost predicate HoldsAmong(files: Files, current: string, s: Log) {
    Represents(Own(files, current), current, s) && NoSuccessor(current)
  }

  lemma OwnBase(files: Files, current: string, s: Log)
    requires HoldsAmong(files, current, s)
    ensures Recognised(BaseNameWithoutExt(current)) && current in files && files[current] == s.current && Parse(current).None?
    ensures Holds(Own(files, current), BaseNameWithoutExt(current), s.history)
  {
    CurrentIsPlain(Own(files, current), current, s);
    hide Holds, Parse, BaseNameWithoutExt, NewlineFree, NoSuccessor;
  }

  /** A file that the pattern takes for one of this log is one of its history. */
  lemma OwnName(files: Files, current: string, s: Log, n: string, id: nat)
    requires HoldsAmong(files, current, s) && n in files && Parse(n) == Some(NameId(BaseNameWithoutExt(current), id))
    ensures n == Format(BaseNameWithoutExt(current), id) && id in IdsOf(s.history)
  {
    hide *;
    var base := BaseNameWithoutExt(current);
    OwnBase(files, current, s);
    OwnIs(current, n);
    OwnMember(files, current, n);
    var x := HeldName(Own(files, current), base, s.history, n);
    assert IdsOf(s.history)[x] == id;
  }

  lemma OwnIs(current: string, n: string)
    requires Parse(n).Some? && Parse(n).value.base == BaseNameWithoutExt(current)
    ensures IsOwn(current, n)
  {
    hide Parse, BaseNameWithoutExt;
  }

  lemma OwnMember(files: Files, current: string, n: string)
    requires n in files && IsOwn(current, n)
    ensures n in Own(files, current) && Own(files, current)[n] == files[n]
  {
    hide IsOwn;
  }

  lemma HeldName(files: Files, base: string, h: seq<Segment>, n: string) returns (x: nat)
    requires Holds(files, base, h) && Recognised(base) && n in files && Parse(n).Some?
    ensures x < |h| && n == Format(base, h[x].id) && Parse(n) == Some(NameId(base, h[x].id))
  {
    hide Parse, Format, NewlineFree, IdsOf;
    x :| 0 <= x < |h| && n == Format(base, IdsOf(h)[x]);
    FormatRoundTrip(base, h[x].id);
  }

  lemma OwnEntry(files: Files, es: seq<RotatedLogFile>, current: string, s: Log, i: nat)
    requires HoldsAmong(files, current, s) && Listing(files, es) && i < |es| && es[i].baseName == BaseNameWithoutExt(current)
    ensures es[i].fullName == Format(es[i].baseName, es[i].logId) && es[i].logId in IdsOf(s.history)
  {
    hide *;
    ListedAt(files, es, i);
    OwnName(files, current, s, es[i].fullName, es[i].logId);
  }

  lemma ListedAt(files: Files, es: seq<RotatedLogFile>, i: nat)
    requires Listing(files, es) && i < |es|
    ensures es[i].fullName in files && IsEntry(es[i]) && Parse(es[i].fullName) == Some(NameId(es[i].baseName, es[i].logId))
  {
    hide Parse;
  }

  lemma ListedApart(files: Files, es: seq<RotatedLogFile>, i: nat, l: nat)
    requires Listing(files, es) && i < |es| && l < |es|
    ensures es[i].logId < es[l].logId ==> i < l
    ensures es[i].fullName == es[l].fullName ==> i == l
  {
    hide Parse;
  }

  lemma OwnIsListed(files: Files, es: seq<RotatedLogFile>, current: string, s: Log, x: nat) returns (i: nat)
    requires HoldsAmong(files, current, s) && Listing(files, es) && x < |s.history|
    ensures i < |es| && es[i].baseName == BaseNameWithoutExt(current) && es[i].logId == s.history[x].id
    ensures es[i].fullName in files && files[es[i].fullName] == s.history[x].data
    ensures es[i].fullName == Format(BaseNameWithoutExt(current), s.history[x].id)
  {
    hide *;
    var base, id := BaseNameWithoutExt(current), s.history[x].id;
    OwnBase(files, current, s);
    HeldAt(Own(files, current), base, s.history, x);
    HeldIdsFit(Own(files, current), base, s.history, x);
    OwnHas(files, current, Format(base, id));
    i := OwnFileIsListed(files, es, base, id);
  }

  lemma OwnHas(files: Files, current: string, n: string)
    requires n in Own(files, current)
    ensures n in files && Own(files, current)[n] == files[n]
  {
    hide IsOwn;
  }

  lemma OwnFileIsListed(files: Files, es: seq<RotatedLogFile>, base: string, id: nat) returns (i: nat)
    requires Listing(files, es) && Recognised(base) && id <= MAX_LOG_ID && Format(base, id) in files
    ensures i < |es| && es[i].baseName == base && es[i].logId == id && es[i].fullName == Format(base, id)
  {
    FormatRoundTrip(base, id);
    hide Format, Parse, NewlineFree;
    i :| 0 <= i < |es| && es[i].fullName == Format(base, id);
  }

  lemma HeldIdsFit(files: Files, base: string, h: seq<Segment>, x: nat)
    requires Holds(files, base, h) && x < |h|
    ensures 1 <= h[x].id <= MAX_LOG_ID && Increasing(IdsOf(h))
  {
    hide Format, Parse, Named;
  }

  /** A directory that holds just this log holds it among others. */
  lemma AloneIsAmong(files: Files, current: string, s: Log)
    requires Represents(files, current, s) && NoSuccessor(current)
    ensures HoldsAmong(files, current, s)
  {
    hide Format, Parse, BaseNameWithoutExt, NewlineFree, NoSuccessor, IdsOf, Ascending, Own, Named;
    var base, h := BaseNameWithoutExt(current), s.history;
    OwnMember(files, current, current);
    forall i | 0 <= i < |h|
      ensures Format(base, h[i].id) in Own(files, current) && Own(files, current)[Format(base, h[i].id)] == h[i].data
    {
      HeldIdsFit(files, base, h, i);
      FormatIsOwn(current, h[i].id);
      OwnMember(files, current, Format(base, h[i].id));
    }
    forall n <- Own(files, current) ensures n in files { OwnHas(files, current, n); }
  }

  // ---------- how much of the history a rotation keeps ----------

  /** How many of the ids, from the first on, are found among the kept files. */
  ghost function CountKept(ids: seq<nat>, kept: seq<RotatedLogFile>, base: string): (j: nat)
    ensures j <= |ids|
  {
    if ids == [] then 0
    else if HasId(kept, base, ids[|ids| - 1]) then |ids|
    else CountKept(ids[..|ids| - 1], kept, base)
  }

  ghost predicate KeptDownward(ids: seq<nat>, kept: seq<RotatedLogFile>, base: string) {
    forall x, y | 0 <= x < y < |ids| && HasId(kept, base, ids[y]) :: HasId(kept, base, ids[x])
  }

  lemma {:induction false} CountKeptExact(ids: seq<nat>, kept: seq<RotatedLogFile>, base: string, x: nat)
    requires KeptDownward(ids, kept, base) && x < |ids|
    ensures HasId(kept, base, ids[x]) <==> x < CountKept(ids, kept, base)
  {
    hide HasId;
    var m := |ids| - 1;
    if !HasId(kept, base, ids[m]) && x < m {
      CountKeptExact(ids[..m], kept, base, x);
    }
  }

  ghost function KeptAmong(es: seq<RotatedLogFile>, current: string, s: Log, max: nat): (j: nat)
    requires max >= 1
    ensures j <= |s.history|
  {
    CountKept(IdsOf(s.history), Kept(es, max), BaseNameWithoutExt(current))
  }

  /** Since deletion takes the greatest ids, what is kept of this log is the newest of it. */
  lemma KeptIsDownward(files: Files, es: seq<RotatedLogFile>, current: string, s: Log, k: nat)
    requires HoldsAmong(files, current, s) && Listing(files, es) && k <= |es|
    ensures KeptDownward(IdsOf(s.history), es[..k], BaseNameWithoutExt(current))
  {
    hide Listing, HoldsAmong, BaseNameWithoutExt, IdsOf, Format;
    var ids, base := IdsOf(s.history), BaseNameWithoutExt(current);
    forall x, y | 0 <= x < y < |ids| && HasId(es[..k], base, ids[y]) ensures HasId(es[..k], base, ids[x]) {
      HistoryIncreases(files, current, s, x, y);
      var i := OwnIsListed(files, es, current, s, x);
      var l :| 0 <= l < k && es[..k][l].baseName == base && es[..k][l].logId == ids[y];
      ListedApart(files, es, i, l);
      assert es[..k][i] == es[i];
    }
  }

  lemma HistoryIncreases(files: Files, current: string, s: Log, x: nat, y: nat)
    requires HoldsAmong(files, current, s) && x < y < |s.history|
    ensures s.history[x].id < s.history[y].id
  {
    OwnBase(files, current, s);
    hide Format, Parse, Named, Recognised, Represents, NoSuccessor, BaseNameWithoutExt, Own;
  }

  lemma KeptAmongExactly(files: Files, es: seq<RotatedLogFile>, current: string, s: Log, max: nat, x: nat)
    requires HoldsAmong(files, current, s) && Listing(files, es) && max >= 1 && x < |s.history|
    ensures HasId(Kept(es, max), BaseNameWithoutExt(current), s.history[x].id) <==> x < KeptAmong(es, current, s, max)
  {
    hide Listing, HoldsAmong, BaseNameWithoutExt, HasId, CountKept, KeptDownward;
    KeptIsDownward(files, es, current, s, KeptCount(|es|, max));
    CountKeptExact(IdsOf(s.history), Kept(es, max), BaseNameWithoutExt(current), x);
  }

  /** The files of a history are listed in its order. */
  lemma {:induction false} ListedInOrder(files: Files, es: seq<RotatedLogFile>, current: string, s: Log, x: nat) returns (i: nat)
    requires HoldsAmong(files, current, s) && Listing(files, es) && x < |s.history|
    ensures x <= i < |es| && es[i].baseName == BaseNameWithoutExt(current) && es[i].logId == s.history[x].id
    decreases x
  {
    hide *;
    i := OwnIsListed(files, es, current, s, x);
    if x > 0 {
      var l := ListedInOrder(files, es, current, s, x - 1);
      HistoryIncreases(files, current, s, x - 1, x);
      ListedApart(files, es, l, i);
    }
  }

  /** A rotation keeps no more of this log than it keeps of all. */
  lemma KeptAmongFits(files: Files, es: seq<RotatedLogFile>, current: string, s: Log, max: nat)
    requires HoldsAmong(files, current, s) && Listing(files, es) && max >= 1
    ensures KeptAmong(es, current, s, max) <= KeptCount(|es|, max) < max
  {
    hide Listing, HoldsAmong, BaseNameWithoutExt, HasId, KeptAmong, Format;
    var j := KeptAmong(es, current, s, max);
    if j > 0 {
      KeptAmongExactly(files, es, current, s, max, j - 1);
      var i := KeptAt(files, es, current, s, KeptCount(|es|, max), j - 1);
      var l := ListedInOrder(files, es, current, s, j - 1);
      SameEntry(files, es, current, s, i, l);
    }
  }

  lemma KeptAt(files: Files, es: seq<RotatedLogFile>, current: string, s: Log, k: nat, x: nat) returns (i: nat)
    requires HoldsAmong(files, current, s) && Listing(files, es) && k <= |es| && x < |s.history|
    requires HasId(es[..k], BaseNameWithoutExt(current), s.history[x].id)
    ensures i < k && es[i].baseName == BaseNameWithoutExt(current) && es[i].logId == s.history[x].id
    ensures es[i].fullName in files && files[es[i].fullName] == s.history[x].data
  {
    hide Listing, HoldsAmong, BaseNameWithoutExt, Format;
    i :| 0 <= i < k && es[..k][i].baseName == BaseNameWithoutExt(current) && es[..k][i].logId == s.history[x].id;
    var l := OwnIsListed(files, es, current, s, x);
    SameEntry(files, es, current, s, i, l);
  }

  /** No two files of this log have the same id. */
  lemma SameEntry(files: Files, es: seq<RotatedLogFile>, current: string, s: Log, i: nat, l: nat)
    requires HoldsAmong(files, current, s) && Listing(files, es) && i < |es| && l < |es|
    requires es[i].baseName == es[l].baseName == BaseNameWithoutExt(current) && es[i].logId == es[l].logId
    ensures i == l
  {
    hide *;
    OwnEntry(files, es, current, s, i);
    OwnEntry(files, es, current, s, l);
    ListedApart(files, es, i, l);
  }

  // ---------- one rotation ----------

  /** A kept segment has its contents under the next number. */
  lemma KeptSegment(files: Files, es: seq<RotatedLogFile>, current: string, s: Log, k: nat, x: nat)
    requires HoldsAmong(files, current, s) && Listing(files, es) && k <= |es| && x < |s.history|
    requires HasId(es[..k], BaseNameWithoutExt(current), s.history[x].id)
    ensures var r, n := ShiftUp(RemoveAll(files, es[k..]), es[..k]), Format(BaseNameWithoutExt(current), s.history[x].id + 1);
      n in r && r[n] == s.history[x].data
  {
    hide Format, BaseNameWithoutExt, HoldsAmong, Listing, RemoveAll, ShiftUp, HasId;
    var i := KeptAt(files, es, current, s, k, x);
    forall j | 0 <= j < i ensures es[j].baseName != es[i].baseName || es[j].logId != es[i].logId {
      if es[j].baseName == es[i].baseName && es[j].logId == es[i].logId { SameEntry(files, es, current, s, j, i); }
    }
    KeptContents(files, es, k, i);
  }

  /** After the renaming loop the files of this log are those of kept segments. */
  lemma ShiftedOwnName(files: Files, es: seq<RotatedLogFile>, current: string, s: Log, k: nat, n: string) returns (x: nat)
    requires HoldsAmong(files, current, s) && Listing(files, es) && k <= |es|
    requires n in ShiftUp(RemoveAll(files, es[k..]), es[..k]) && Parse(n).Some? && Parse(n).value.base == BaseNameWithoutExt(current)
    ensures x < |s.history| && HasId(es[..k], BaseNameWithoutExt(current), s.history[x].id)
    ensures n == Format(BaseNameWithoutExt(current), s.history[x].id + 1)
  {
    hide Format, BaseNameWithoutExt, HoldsAmong, Listing, RemoveAll, ShiftUp, Parse, IsEntry, Listed, IdsOf;
    LoopsOnNames(files, es, k, n);
    if n in files { ListedExactly(files, es, n); }
    var i :| 0 <= i < |es[..k]| && NewName(es[..k][i]) == n;
    ListedAt(files, es, i);
    NextHasBase(es[i]);
    OwnEntry(files, es, current, s, i);
    x :| 0 <= x < |s.history| && IdsOf(s.history)[x] == es[i].logId;
    assert es[..k][i].logId == s.history[x].id;
  }

  lemma NextHasBase(e: RotatedLogFile)
    requires IsEntry(e) && Parse(NewName(e)).Some?
    ensures Parse(NewName(e)) == Some(NameId(e.baseName, e.logId + 1))
  {
    hide Parse, Format, NewlineFree, Spells;
    ParseIsSound(e.fullName);
    NextParses(e);
    FormatRoundTrip(e.baseName, e.logId + 1);
  }

  /** The current file is there after the renaming loop, as it was. */
  lemma CurrentIsLeft(files: Files, es: seq<RotatedLogFile>, current: string, s: Log, k: nat)
    requires HoldsAmong(files, current, s) && Listing(files, es) && k <= |es|
    ensures var r := ShiftUp(RemoveAll(files, es[k..]), es[..k]); current in r && r[current] == s.current
  {
    hide Format, BaseNameWithoutExt, Represents, Listing, RemoveAll, ShiftUp, Parse, Listed, Target, Own, NewName, Recognised, Holds, NoSuccessor;
    OwnBase(files, current, s);
    LoopsOnNames(files, es, k, current);
    ListedExactly(files, es, current);
    forall i | 0 <= i < k ensures NewName(es[i]) != current {
      ListedAt(files, es, i);
      PlainIsNotNext(es[i], current);
    }
    NotATarget(es[..k], current);
  }

  lemma PlainIsNotNext(e: RotatedLogFile, current: string)
    requires IsEntry(e) && Parse(current).None? && NoSuccessor(current)
    ensures NewName(e) != current
  {
    hide Parse, Format;
    NextParses(e);
    assert AboveGreatest(e.baseName) != current;
  }

  lemma FirstIsFree(files: Files, es: seq<RotatedLogFile>, current: string, s: Log, k: nat)
    requires HoldsAmong(files, current, s) && Listing(files, es) && k <= |es|
    ensures Format(BaseNameWithoutExt(current), 1) !in ShiftUp(RemoveAll(files, es[k..]), es[..k])
  {
    hide Format, BaseNameWithoutExt, Listing, RemoveAll, ShiftUp, Recognised, Holds, HoldsAmong, Own;
    var base := BaseNameWithoutExt(current);
    OwnBase(files, current, s);
    FirstIsFreeExactly(files, es, k, base);
    forall i | 0 <= i < k && es[i].baseName == base ensures es[i].logId != 0 {
      OwnIdPositive(files, es, current, s, i);
    }
    assert forall i | 0 <= i < k :: es[..k][i] == es[i];
  }

  lemma OwnIdPositive(files: Files, es: seq<RotatedLogFile>, current: string, s: Log, i: nat)
    requires HoldsAmong(files, current, s) && Listing(files, es) && i < |es| && es[i].baseName == BaseNameWithoutExt(current)
    ensures es[i].logId >= 1
  {
    hide *;
    OwnBase(files, current, s);
    OwnEntry(files, es, current, s, i);
    var x :| 0 <= x < |s.history| && IdsOf(s.history)[x] == es[i].logId;
    HeldIdsFit(Own(files, current), BaseNameWithoutExt(current), s.history, x);
  }

  /** A file other than the current one and the new first one is as the renaming loop left it. */
  lemma AfterLoop(files: Files, es: seq<RotatedLogFile>, current: string, s: Log, max: nat, n: string)
    requires HoldsAmong(files, current, s) && Listing(files, es) && max >= 1 && n != current
    ensures var k, first := KeptCount(|es|, max), Format(BaseNameWithoutExt(current), 1);
      var shifted, r := ShiftUp(RemoveAll(files, es[k..]), es[..k]), Rotated(files, es, current, max);
      && current in r && r[current] == [] && first in r && r[first] == s.current
      && (n in shifted ==> n != first && n in r && r[n] == shifted[n])
      && (n in r && n != first ==> n in shifted)
  {
    hide Format, BaseNameWithoutExt, HoldsAmong, Listing, RemoveAll, ShiftUp, Rotated;
    var k, first := KeptCount(|es|, max), Format(BaseNameWithoutExt(current), 1);
    var shifted := ShiftUp(RemoveAll(files, es[k..]), es[..k]);
    CurrentIsLeft(files, es, current, s, k);
    FirstIsFree(files, es, current, s, k);
    RotatedParts(files, es, current, max);
    CurrentIsNotRotated(current, 1);
  }

  lemma RotateToAt(s: Log, k: nat, x: nat)
    requires x <= k <= |s.history|
    ensures var g := RotateTo(s, k).history;
      && |g| == k + 1 && RotateTo(s, k).current == []
      && g[x] == if x == 0 then Segment(1, s.current) else Segment(s.history[x - 1].id + 1, s.history[x - 1].data)
  {}

  /** What a rotation makes of the history: contents, then names. */
  lemma AmongContents(files: Files, es: seq<RotatedLogFile>, current: string, s: Log, max: nat, x: nat)
    requires HoldsAmong(files, current, s) && Listing(files, es) && max >= 1 && x <= KeptAmong(es, current, s, max)
    ensures var r, g, base := Rotated(files, es, current, max), RotateTo(s, KeptAmong(es, current, s, max)).history, BaseNameWithoutExt(current);
      |g| > x && Format(base, g[x].id) in r && r[Format(base, g[x].id)] == g[x].data
  {
    hide *;
    RotateToAt(s, KeptAmong(es, current, s, max), x);
    if x == 0 {
      CurrentIsNotRotated(current, 1);
      AfterLoop(files, es, current, s, max, Format(BaseNameWithoutExt(current), 1));
    } else {
      var n := Format(BaseNameWithoutExt(current), s.history[x - 1].id + 1);
      KeptIn(files, es, current, s, max, x - 1);
      KeptSegment(files, es, current, s, KeptCount(|es|, max), x - 1);
      CurrentIsNotRotated(current, s.history[x - 1].id + 1);
      AfterLoop(files, es, current, s, max, n);
    }
  }

  lemma KeptIn(files: Files, es: seq<RotatedLogFile>, current: string, s: Log, max: nat, x: nat)
    requires HoldsAmong(files, current, s) && Listing(files, es) && max >= 1 && x < |s.history|
    ensures KeptCount(|es|, max) <= |es|
    ensures HasId(es[..KeptCount(|es|, max)], BaseNameWithoutExt(current), s.history[x].id) <==> x < KeptAmong(es, current, s, max)
  {
    hide HoldsAmong, Listing, HasId, KeptAmong, BaseNameWithoutExt;
    KeptAmongExactly(files, es, current, s, max, x);
  }

  lemma AmongNames(files: Files, es: seq<RotatedLogFile>, current: string, s: Log, max: nat, n: string)
    requires HoldsAmong(files, current, s) && Listing(files, es) && max >= 1 && n != current
    requires n in Rotated(files, es, current, max) && Parse(n).Some? && Parse(n).value.base == BaseNameWithoutExt(current)
    ensures Named(BaseNameWithoutExt(current), IdsOf(RotateTo(s, KeptAmong(es, current, s, max)).history), n)
  {
    hide Format, BaseNameWithoutExt, HoldsAmong, Listing, RemoveAll, ShiftUp, HasId, KeptAmong, Rotated, IdsOf, Parse, RotateTo;
    var k, j, base := KeptCount(|es|, max), KeptAmong(es, current, s, max), BaseNameWithoutExt(current);
    var g := RotateTo(s, j).history;
    AfterLoop(files, es, current, s, max, n);
    RotateToAt(s, j, 0);
    if n == Format(base, 1) {
      assert n == Format(base, IdsOf(g)[0]);
    } else {
      var x := ShiftedOwnName(files, es, current, s, k, n);
      KeptIn(files, es, current, s, max, x);
      RotateToAt(s, j, x + 1);
      assert n == Format(base, IdsOf(g)[x + 1]);
    }
  }

  lemma AmongIds(files: Files, es: seq<RotatedLogFile>, current: string, s: Log, max: nat)
    requires HoldsAmong(files, current, s) && Listing(files, es) && max >= 1
    requires forall x | 0 <= x < KeptAmong(es, current, s, max) :: s.history[x].id < MAX_LOG_ID
    ensures var g := RotateTo(s, KeptAmong(es, current, s, max)).history;
      Ascending(g) && forall x | 0 <= x < |g| :: 1 <= g[x].id <= MAX_LOG_ID
  {
    hide Format, BaseNameWithoutExt, HoldsAmong, Listing, Holds, KeptAmong, IdsOf, Own, Represents, Recognised;
    OwnBase(files, current, s);
    forall x | 0 <= x < |s.history| ensures 1 <= s.history[x].id { HeldIdsFit(Own(files, current), BaseNameWithoutExt(current), s.history, x); }
    forall x, y | 0 <= x < y < |s.history| ensures s.history[x].id < s.history[y].id { HistoryIncreases(files, current, s, x, y); }
  }

  /** A rotation of a directory with any other files in it is a rotation of the log among them: it
      keeps the newest part of the history, in order and byte for byte, and deletes the rest. How much
      it keeps depends on the other logs, since the limit counts their files too. */
  lemma RotationAmongOthers(files: Files, es: seq<RotatedLogFile>, current: string, s: Log, max: nat)
    requires HoldsAmong(files, current, s) && Listing(files, es) && max >= 1
    requires forall x | 0 <= x < KeptAmong(es, current, s, max) :: s.history[x].id < MAX_LOG_ID
    ensures HoldsAmong(Rotated(files, es, current, max), current, RotateTo(s, KeptAmong(es, current, s, max)))
    ensures KeptAmong(es, current, s, max) < max
  {
    hide Format, BaseNameWithoutExt, Listing, RemoveAll, ShiftUp, KeptAmong, Rotated, IdsOf, Parse, Own, Represents, Holds, Recognised, NoSuccessor, RotateTo, HoldsAmong, Named;
    var r, g, base := Rotated(files, es, current, max), RotateTo(s, KeptAmong(es, current, s, max)), BaseNameWithoutExt(current);
    OwnBase(files, current, s);
    KeptAmongFits(files, es, current, s, max);
    CurrentIsNotRotated(current, 1);
    AfterLoop(files, es, current, s, max, Format(base, 1));
    AmongIds(files, es, current, s, max);
    RotateToAt(s, KeptAmong(es, current, s, max), 0);
    forall x | 0 <= x < |g.history|
      ensures Format(base, g.history[x].id) in Own(r, current) && Own(r, current)[Format(base, g.history[x].id)] == g.history[x].data
    {
      AmongContents(files, es, current, s, max, x);
      FormatIsOwn(current, g.history[x].id);
      OwnMember(r, current, Format(base, g.history[x].id));
    }
    forall n <- Own(r, current) | Parse(n).Some? ensures Named(base, IdsOf(g.history), n) {
      OwnNames(r, current, n);
      AmongNames(files, es, current, s, max, n);
    }
    HoldsFromParts(Own(r, current), base, g.history);
    HoldsAmongFromParts(files, r, current, s, g);
  }





  lemma FormatIsOwn(current: string, id: nat)
    requires Recognised(BaseNameWithoutExt(current)) && id <= MAX_LOG_ID
    ensures IsOwn(current, Format(BaseNameWithoutExt(current), id))
  {
    FormatRoundTrip(BaseNameWithoutExt(current), id);
    hide Format, Parse, BaseNameWithoutExt;
  }

  lemma OwnNames(files: Files, current: string, n: string)
    requires n in Own(files, current) && Parse(n).Some? && Parse(current).None?
    ensures n in files && Parse(n).value.base == BaseNameWithoutExt(current)
  {
    hide Parse, BaseNameWithoutExt;
  }

  lemma HoldsAmongFromParts(files: Files, r: Files, current: string, s: Log, g: Log)
    requires HoldsAmong(files, current, s) && current in r && r[current] == g.current
    requires Holds(Own(r, current), BaseNameWithoutExt(current), g.history)
    ensures HoldsAmong(r, current, g)
  {
    hide Parse, BaseNameWithoutExt, Holds, NewlineFree, NoSuccessor;
    OwnBase(files, current, s);
  }

  // ---------- whole runs ----------

  /** One write, with what it finds and what it leaves. */
  datatype Change = Change(before: Files, after: Files)

  /** The writes `ps`; between two of them anything may happen to files that are not of this log. */
  ghost predicate IsSharedRun(run: seq<Change>, current: string, ps: seq<Bytes>, maxSize: int, max: nat)
    requires max >= 1
  {
    && |run| == |ps|
    && (forall i | 0 <= i < |ps| :: IsWrite(run[i].before, run[i].after, current, ps[i], maxSize, max))
    && (forall i | 0 < i < |ps| :: Own(run[i].before, current) == Own(run[i - 1].after, current))
  }

  lemma AppendAmong(files: Files, current: string, s: Log, p: Bytes)
    requires HoldsAmong(files, current, s)
    ensures current in files && HoldsAmong(files[current := files[current] + p], current, s.(current := s.current + p))
  {
    OwnBase(files, current, s);
    OwnAppend(files, current, p);
    hide Parse, BaseNameWithoutExt, Represents, Recognised, Own, Holds;
    AppendRefines(Own(files, current), current, s, p);
  }

  lemma OwnAppend(files: Files, current: string, p: Bytes)
    requires current in files
    ensures current in Own(files, current) && Own(files, current)[current] == files[current]
    ensures Own(files[current := files[current] + p], current) == Own(files, current)[current := files[current] + p]
  {
    hide Parse, BaseNameWithoutExt;
  }

  lemma AppendConserves(s: Log, dropped: Bytes, r: Log, p: Bytes)
    requires Retained(s) == dropped + Retained(r)
    ensures Retained(s) + p == dropped + Retained(r.(current := r.current + p))
  {
    hide OldestFirst;
    assert OldestFirst(r.history) + (r.current + p) == (OldestFirst(r.history) + r.current) + p;
  }

  lemma RotateAmong(before: Files, es: seq<RotatedLogFile>, current: string, s: Log, max: nat, n: nat) returns (r: Log, dropped: Bytes)
    requires max >= 1 && n >= 1 && Fits(s, n, max) && HoldsAmong(before, current, s) && Listing(before, es)
    ensures HoldsAmong(Rotated(before, es, current, max), current, r) && Fits(r, n - 1, max)
    ensures Retained(s) == dropped + Retained(r)
  {
    hide HoldsAmong, Listing, Rotated, Fits, Retained, RotateTo, KeptAmong, KeptCount;
    var k := KeptAmong(es, current, s, max);
    KeptAmongFits(before, es, current, s, max);
    RotationFits(s, k, n, max);
    RotationAmongOthers(before, es, current, s, max);
    RotationConserves(s, k);
    r, dropped := RotateTo(s, k), OldestFirst(s.history[k..]);
  }

  /** One write among other logs: the log it leaves, and what it deletes of the old one. */
  lemma WriteAmong(before: Files, after: Files, current: string, s: Log, p: Bytes, maxSize: int, max: nat, n: nat)
    returns (r: Log, dropped: Bytes)
    requires max >= 1 && n >= 1 && Fits(s, n, max)
    requires HoldsAmong(before, current, s) && IsWrite(before, after, current, p, maxSize, max)
    ensures HoldsAmong(after, current, r) && Fits(r, n - 1, max) && Retained(s) + p == dropped + Retained(r)
  {
    hide HoldsAmong, Listing, Rotated, Fits, Retained;
    var es :| (|before[current]| + |p| > maxSize ==> Listing(before, es)) && after == AfterWrite(before, es, current, p, maxSize, max);
    var rotates := |before[current]| + |p| > maxSize;
    var files, q := before, s;
    if rotates {
      q, dropped := RotateAmong(before, es, current, s, max, n);
      files := Rotated(before, es, current, max);
    } else {
      dropped := [];
      FitsLess(s, n, max);
      assert Retained(s) == [] + Retained(s);
    }
    AppendAmong(files, current, q, p);
    r := q.(current := q.current + p);
    AppendConserves(s, dropped, q, p);
    AppendFits(q, p, n - 1, max);
  }

  lemma FitsLess(s: Log, n: nat, max: nat)
    requires n >= 1 && Fits(s, n, max)
    ensures Fits(s, n - 1, max)
  {}

  lemma AppendFits(s: Log, p: Bytes, n: nat, max: nat)
    requires Fits(s, n, max)
    ensures Fits(s.(current := s.current + p), n, max)
  {}

  lemma SameOwn(f: Files, g: Files, current: string, s: Log)
    requires HoldsAmong(f, current, s) && Own(f, current) == Own(g, current)
    ensures HoldsAmong(g, current, s)
  {
    hide Represents, NoSuccessor, Own;
  }

  /** Over whole runs, whatever other files there are and whatever becomes of them between the writes:
      the directory goes on holding this log, and what its retained files hold, read from the highest id
      down to 1 and then the current one, is a suffix of everything that was there and was written. */
  lemma {:induction false} RunAmong(run: seq<Change>, current: string, s: Log, ps: seq<Bytes>, maxSize: int, max: nat)
    returns (r: Log, dropped: Bytes)
    requires max >= 1 && ps != [] && IsSharedRun(run, current, ps, maxSize, max)
    requires HoldsAmong(run[0].before, current, s) && Fits(s, |ps|, max)
    ensures HoldsAmong(run[|ps| - 1].after, current, r) && Retained(s) + Concat(ps) == dropped + Retained(r)
    decreases |ps|
  {
    hide HoldsAmong, Fits, Retained, Own, IsWrite;
    var r1, d1 := WriteAmong(run[0].before, run[0].after, current, s, ps[0], maxSize, max, |ps|);
    if |ps| == 1 {
      assert Concat(ps[1..]) == [] && Concat(ps) == ps[0] + [];
      r, dropped := r1, d1;
    } else {
      SameOwn(run[0].after, run[1].before, current, r1);
      var ds;
      r, ds := RunAmong(run[1..], current, r1, ps[1..], maxSize, max);
      Chain(Retained(s), ps[0], d1, Retained(r1), Concat(ps[1..]), ds, Retained(r));
      dropped := d1 + ds;
    }
  }

  /** In particular this holds of the log that the directory is found to hold in the end. */
  lemma OwnFilesAreSuffix(run: seq<Change>, current: string, s: Log, ps: seq<Bytes>, maxSize: int, max: nat, r: Log)
    requires max >= 1 && ps != [] && IsSharedRun(run, current, ps, maxSize, max)
    requires HoldsAmong(run[0].before, current, s) && Fits(s, |ps|, max) && HoldsAmong(run[|ps| - 1].after, current, r)
    ensures exists dropped :: Retained(s) + Concat(ps) == dropped + Retained(r)
  {
    hide Represents, Fits, Retained, Own, Concat, NoSuccessor;
    var q, dropped := RunAmong(run, current, s, ps, maxSize, max);
    RepresentsUnique(Own(run[|ps| - 1].after, current), current, r, q);
  }
}
