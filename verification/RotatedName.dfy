/** Names of rotated log files: how they are written and what the pattern makes of them. */
module RotatedName {
  import opened Wrappers
  import Decimal

  const MIDDLE := "_rotated."
  const EXTENSION := ".log"
  const MAX_LOG_ID: nat := 0x7FFF_FFFF   // ParseInt(..., 10, 32)

  datatype NameId = NameId(base: string, id: nat)

  /** A name with any digits for an id. */
  function Spelled(base: string, digits: string): string {
    base + MIDDLE + digits + EXTENSION
  }

  /** Spelled without leading zeros. */
  function Format(base: string, id: nat): string {
    Spelled(base, Decimal.Format(id))
  }

  /** `\d+` between the fixed parts, anchored at both ends: `_rotated\.(\d+)\.log$`. */
  predicate IsTail(s: string) {
    && |s| > |MIDDLE| + |EXTENSION|
    && s[..|MIDDLE|] == MIDDLE && s[|s| - |EXTENSION|..] == EXTENSION
    && Decimal.AllDigits(s[|MIDDLE|..|s| - |EXTENSION|])
  }

  function TailDigits(s: string): string
    requires IsTail(s)
  {
    s[|MIDDLE|..|s| - |EXTENSION|]
  }

  /** The lazy `^(.+?)`: the shortest prefix of length at least `i` that lets the rest match; `.` does
      not match a newline. */
  function ShortestBase(name: string, i: nat): (r: Option<nat>)
    requires i > 0
    decreases |name| - i
  {
    if i > |name| || name[i - 1] == '\n' then None
    else if IsTail(name[i..]) then Some(i)
    else ShortestBase(name, i + 1)
  }

  /** The base name and id of a rotated log file, if the name matches and the id fits 32 bits. */
  function Parse(name: string): Option<NameId> {
    var i := ShortestBase(name, 1);
    if i.Some? && i.value <= |name| && IsTail(name[i.value..]) && Decimal.Value(TailDigits(name[i.value..])) <= MAX_LOG_ID
    then Some(NameId(name[..i.value], Decimal.Value(TailDigits(name[i.value..]))))
    else None
  }

  predicate NewlineFree(s: string) {
    forall i | 0 <= i < |s| :: s[i] != '\n'
  }

  /** What the scan returns is the first prefix length at which the rest matches. */
  lemma {:induction false} ShortestBaseIsShortest(name: string, i: nat, k: nat)
    requires 0 < i <= k <= |name| && NewlineFree(name[..k]) && IsTail(name[k..])
    requires forall j | i <= j < k :: !IsTail(name[j..])
    ensures ShortestBase(name, i) == Some(k)
    decreases k - i
  {
    assert name[..k][i - 1] == name[i - 1];
    if i < k {
      ShortestBaseIsShortest(name, i + 1, k);
    }
  }

  lemma {:induction false} ShortestBaseMatches(name: string, i: nat)
    requires i > 0 && ShortestBase(name, i).Some? && NewlineFree(name[..i - 1])
    ensures var k := ShortestBase(name, i).value; i <= k <= |name| && IsTail(name[k..]) && NewlineFree(name[..k])
    decreases |name| - i
  {
    assert forall j | 0 <= j < i :: name[..i][j] == if j < i - 1 then name[..i - 1][j] else name[i - 1];
    if !IsTail(name[i..]) {
      ShortestBaseMatches(name, i + 1);
    }
  }

  /** No match can begin inside the base: it would put the underscore of the true middle part either
      among the digits or inside another copy of the middle part. */
  lemma NoEarlierTail(base: string, digits: string, j: nat)
    requires j < |base|
    ensures !IsTail((base + MIDDLE + digits + EXTENSION)[j..])
  {
    var name := base + MIDDLE + digits + EXTENSION;
    var s := name[j..];
    var d := |base| - j;
    assert s[d] == name[|base|] == '_';
    assert d < |MIDDLE| ==> MIDDLE[d] != '_';
  }

  lemma {:induction false} NewlineStops(name: string, i: nat, k: nat)
    requires 0 < i <= k + 1 <= |name| && name[k] == '\n'
    requires forall j | i <= j <= k :: !IsTail(name[j..])
    ensures ShortestBase(name, i).None?
    decreases k + 1 - i
  {
    if i <= k {
      NewlineStops(name, i + 1, k);
    }
  }

  /** Where the rest of a spelled name first matches, and what is read there. */
  lemma SpelledTail(base: string, digits: string)
    requires Decimal.AllDigits(digits) && digits != ""
    ensures var name := Spelled(base, digits);
      && (forall j | 0 <= j < |base| :: !IsTail(name[j..]))
      && name[..|base|] == base && IsTail(name[|base|..]) && TailDigits(name[|base|..]) == digits
  {
    var name := Spelled(base, digits);
    assert name[|base|..] == MIDDLE + digits + EXTENSION;
    forall j | 0 <= j < |base| ensures !IsTail(name[j..]) {
      NoEarlierTail(base, digits, j);
    }
  }

  lemma FormattedTail(base: string, id: nat)
    ensures var name := Format(base, id);
      && (forall j | 0 <= j < |base| :: !IsTail(name[j..]))
      && name[..|base|] == base && IsTail(name[|base|..]) && Decimal.Value(TailDigits(name[|base|..])) == id
  {
    Decimal.FormatRoundTrip(id);
    SpelledTail(base, Decimal.Format(id));
  }

  /** However the id is spelled, leading zeros included, the pattern recovers base and id. */
  lemma SpellingRoundTrip(base: string, digits: string)
    requires base != "" && NewlineFree(base)
    requires Decimal.AllDigits(digits) && digits != "" && Decimal.Value(digits) <= MAX_LOG_ID
    ensures Parse(Spelled(base, digits)) == Some(NameId(base, Decimal.Value(digits)))
  {
    SpelledTail(base, digits);
    ShortestBaseIsShortest(Spelled(base, digits), 1, |base|);
  }

  /** Round trip: for every non-empty newline-free base, even one that itself looks like a rotated
      name, and every id of 31 bits, the pattern recovers base and id from the formatted name. */
  lemma FormatRoundTrip(base: string, id: nat)
    requires base != "" && NewlineFree(base) && id <= MAX_LOG_ID
    ensures Parse(Format(base, id)) == Some(NameId(base, id))
  {
    Decimal.FormatRoundTrip(id);
    SpellingRoundTrip(base, Decimal.Format(id));
  }

  /** And in no other case: a formatted name is recognised if and only if its base is non-empty and
      newline-free and its id fits 32 bits. */
  lemma RoundTripExactly(base: string, id: nat)
    ensures Parse(Format(base, id)).Some? <==> base != "" && NewlineFree(base) && id <= 2147483647
  {
    var name := Format(base, id);
    if base == "" {
      EmptyBaseIsLost(id);
    } else if !NewlineFree(base) {
      FormattedTail(base, id);
      var k :| 0 <= k < |base| && base[k] == '\n';
      NewlineStops(name, 1, k);
    } else if id <= MAX_LOG_ID {
      FormatRoundTrip(base, id);
    } else {
      FormattedTail(base, id);
      ShortestBaseIsShortest(name, 1, |base|);
    }
  }

  lemma TailSplits(s: string)
    requires IsTail(s)
    ensures s == MIDDLE + TailDigits(s) + EXTENSION && TailDigits(s) != "" && Decimal.AllDigits(TailDigits(s))
  {
    assert s == s[..|MIDDLE|] + TailDigits(s) + s[|s| - |EXTENSION|..];
  }

  lemma SpelledFromTail(name: string, k: nat, digits: string)
    requires k <= |name| && name[k..] == MIDDLE + digits + EXTENSION
    ensures name == Spelled(name[..k], digits)
  {
    assert name == name[..k] + name[k..];
  }

  /** `name` has this base, and an id of this value in some spelling. */
  ghost predicate Spells(name: string, base: string, id: nat) {
    exists digits :: Decimal.AllDigits(digits) && digits != "" && Decimal.Value(digits) == id
                     && name == base + "_rotated." + digits + ".log"
  }

  /** Conversely the pattern only recognises names of that form, up to leading zeros of the id; and
      it recognises none whose base is empty. */
  lemma ParseIsSound(name: string)
    requires Parse(name).Some?
    ensures var r := Parse(name).value;
      r.base != "" && NewlineFree(r.base) && r.id <= 2147483647 && Spells(name, r.base, r.id)
  {
    ShortestBaseMatches(name, 1);
    var k := ShortestBase(name, 1).value;
    var digits := TailDigits(name[k..]);
    TailSplits(name[k..]);
    SpelledFromTail(name, k, digits);
    hide IsTail, ShortestBase;
    assert name == name[..k] + "_rotated." + digits + ".log";
  }

  /** What the pattern makes of any name. */
  lemma ParseExactly(name: string, base: string, id: nat)
    ensures Parse(name) == Some(NameId(base, id)) <==>
      base != "" && NewlineFree(base) && id <= 2147483647 && Spells(name, base, id)
  {
    hide Parse, NewlineFree;
    if Parse(name).Some? { ParseIsSound(name); }
    if base != "" && NewlineFree(base) && id <= MAX_LOG_ID && Spells(name, base, id) {
      var digits :| Decimal.AllDigits(digits) && digits != "" && Decimal.Value(digits) == id
                    && name == base + "_rotated." + digits + ".log";
      SpellingRoundTrip(base, digits);
    }
  }

  /** How a rotated file is named: the base, the middle part, the digits of the id without leading
      zeros, the extension. */
  lemma FormatExactly(base: string, id: nat, digits: string)
    ensures Format(base, id) == base + "_rotated." + digits + ".log" <==>
      Decimal.AllDigits(digits) && digits != "" && Decimal.Value(digits) == id && (digits[0] == '0' ==> |digits| == 1)
  {
    Decimal.FormatExactly(id, digits);
    var n, prefix := Decimal.Format(id), base + "_rotated.";
    if prefix + n + ".log" == prefix + digits + ".log" {
      assert |n| == |digits|;
      assert n == (prefix + n + ".log")[|prefix|..|prefix| + |n|] == digits;
    }
  }

  lemma FormatIsInjective(base: string, i: nat, j: nat)
    requires Format(base, i) == Format(base, j)
    ensures i == j
  {
    var n := |Format(base, i)|;
    assert Decimal.Format(i) == Format(base, i)[|base| + |MIDDLE|..n - |EXTENSION|] == Decimal.Format(j);
    Decimal.FormatIsInjective(i, j);
  }

  lemma {:induction false} NothingMatches(name: string, i: nat)
    requires i > 0 && forall k | i <= k <= |name| :: !IsTail(name[k..])
    ensures ShortestBase(name, i).None?
    decreases |name| - i
  {
    if i <= |name| {
      NothingMatches(name, i + 1);
    }
  }

  /** No name formatted with an empty base has an inner position from which the rest matches. */
  lemma NoLaterTail(id: nat, k: nat)
    requires 1 <= k <= |Format("", id)|
    ensures !IsTail(Format("", id)[k..])
  {
    var name, digits := Format("", id), Decimal.Format(id);
    Decimal.FormatRoundTrip(id);
    assert forall i | 0 <= i < |digits| :: Decimal.IsDigit(digits[i]);
    assert forall i | |MIDDLE| <= i < |MIDDLE| + |digits| :: name[i] == digits[i - |MIDDLE|];
    assert k < |name| ==> name[k] != '_';
    assert MIDDLE[0] == '_';
    assert |name[k..]| > |MIDDLE| ==> name[k..][..|MIDDLE|][0] == name[k];
  }

  /** A log file whose stem is empty (".log") rotates to a name that the pattern does not recognise. */
  lemma EmptyBaseIsLost(id: nat)
    ensures Parse(Format("", id)).None?
  {
    forall k | 1 <= k <= |Format("", id)| ensures !IsTail(Format("", id)[k..]) {
      NoLaterTail(id, k);
    }
    NothingMatches(Format("", id), 1);
  }

  /** Formatted names are equal only if base and id are, whatever the bases look like. */
  lemma FormatDetermines(base: string, i: nat, other: string, j: nat)
    requires Format(base, i) == Format(other, j)
    ensures base == other && i == j
  {
    FormattedTail(base, i);
    FormattedTail(other, j);
    assert |base| == |other|;
  }
}
