/** The log as a reader sees it: numbered historical segments, newest first, and the current file.
    Whole-run properties of writing with rotation. */
module LogHistory {
  import opened Bytes

  datatype Segment = Segment(id: nat, data: Bytes)

  /** `history` has ascending ids: the first segment is the most recently rotated one. */
  datatype Log = Log(history: seq<Segment>, current: Bytes)

  /** How many historical segments survive a rotation, next to the one it adds. */
  function KeptCount(n: nat, max: nat): nat
    requires max >= 1
  {
    if n >= max then max - 1 else n
  }

  function ShiftIds(history: seq<Segment>): (r: seq<Segment>)
    ensures |r| == |history|
    ensures forall i | 0 <= i < |r| :: r[i] == Segment(history[i].id + 1, history[i].data)
  {
    if history == [] then []
    else [Segment(history[0].id + 1, history[0].data)] + ShiftIds(history[1..])
  }

  /** A rotation that keeps the first `k` segments. */
  function RotateTo(s: Log, k: nat): Log
    requires k <= |s.history|
  {
    Log([Segment(1, s.current)] + ShiftIds(s.history[..k]), [])
  }

  function Rotate(s: Log, max: nat): Log
    requires max >= 1
  {
    RotateTo(s, KeptCount(|s.history|, max))
  }

  predicate NeedsRotation(s: Log, p: Bytes, maxSize: int) {
    |s.current| + |p| > maxSize
  }

  function Write(s: Log, p: Bytes, maxSize: int, max: nat): Log
    requires max >= 1
  {
    var r := if NeedsRotation(s, p, maxSize) then Rotate(s, max) else s;
    r.(current := r.current + p)
  }

  function WriteAll(s: Log, ps: seq<Bytes>, maxSize: int, max: nat): Log
    requires max >= 1
    decreases |ps|
  {
    if ps == [] then s else WriteAll(Write(s, ps[0], maxSize, max), ps[1..], maxSize, max)
  }

  function Concat(ps: seq<Bytes>): Bytes {
    if ps == [] then [] else ps[0] + Concat(ps[1..])
  }

  /** The historical bytes in the order in which they were written: highest id first. */
  function OldestFirst(history: seq<Segment>): Bytes {
    if history == [] then [] else OldestFirst(history[1..]) + history[0].data
  }

  function Retained(s: Log): Bytes {
    OldestFirst(s.history) + s.current
  }

  /** The bytes that one write deletes. */
  function Dropped(s: Log, p: Bytes, maxSize: int, max: nat): Bytes
    requires max >= 1
  {
    if NeedsRotation(s, p, maxSize) then OldestFirst(s.history[KeptCount(|s.history|, max)..]) else []
  }

  function DroppedByAll(s: Log, ps: seq<Bytes>, maxSize: int, max: nat): Bytes
    requires max >= 1
    decreases |ps|
  {
    if ps == [] then []
    else Dropped(s, ps[0], maxSize, max) + DroppedByAll(Write(s, ps[0], maxSize, max), ps[1..], maxSize, max)
  }

  lemma {:induction false} OldestFirstSplits(history: seq<Segment>, k: nat)
    requires k <= |history|
    ensures OldestFirst(history) == OldestFirst(history[k..]) + OldestFirst(history[..k])
  {
    if k == 0 {
      assert history[0..] == history;
    } else {
      OldestFirstSplits(history[1..], k - 1);
      assert history[..k][1..] == history[1..][..k - 1];
      assert history[k..] == history[1..][k - 1..];
    }
  }

  lemma {:induction false} ShiftKeepsBytes(history: seq<Segment>)
    ensures OldestFirst(ShiftIds(history)) == OldestFirst(history)
  {
    if history != [] {
      ShiftKeepsBytes(history[1..]);
    }
  }

  lemma RotationConserves(s: Log, k: nat)
    requires k <= |s.history|
    ensures Retained(s) == OldestFirst(s.history[k..]) + Retained(RotateTo(s, k))
  {
    OldestFirstSplits(s.history, k);
    ShiftKeepsBytes(s.history[..k]);
    var shifted := ShiftIds(s.history[..k]);
    assert ([Segment(1, s.current)] + shifted)[1..] == shifted;
  }

  /** A write deletes a prefix of the retained bytes and appends: nothing is reordered or lost in
      between. */
  lemma WriteConserves(s: Log, p: Bytes, maxSize: int, max: nat)
    requires max >= 1
    ensures Retained(s) + p == Dropped(s, p, maxSize, max) + Retained(Write(s, p, maxSize, max))
  {
    hide OldestFirst, ShiftIds;
    if NeedsRotation(s, p, maxSize) {
      RotationConserves(s, KeptCount(|s.history|, max));
    }
  }

  lemma Chain(a: Bytes, p: Bytes, d: Bytes, r1: Bytes, rest: Bytes, ds: Bytes, r: Bytes)
    requires a + p == d + r1 && r1 + rest == ds + r
    ensures a + (p + rest) == (d + ds) + r
  {
    assert a + (p + rest) == (a + p) + rest;
    assert (d + r1) + rest == d + (r1 + rest);
  }

  /** Conservation over whole runs: what was there and everything written is, byte for byte and in
      order, what was deleted followed by what is retained. In particular the retained log is a
      suffix of the history. */
  lemma {:induction false} LogIsSuffixOfHistory(s: Log, ps: seq<Bytes>, maxSize: int, max: nat)
    requires max >= 1
    ensures Retained(s) + Concat(ps) == DroppedByAll(s, ps, maxSize, max) + Retained(WriteAll(s, ps, maxSize, max))
    decreases |ps|
  {
    if ps == [] {
      assert Concat(ps) == [];
    } else {
      var s1 := Write(s, ps[0], maxSize, max);
      WriteConserves(s, ps[0], maxSize, max);
      LogIsSuffixOfHistory(s1, ps[1..], maxSize, max);
      hide Retained, Dropped, Write;
      var rest := ps[1..];
      Chain(Retained(s), ps[0], Dropped(s, ps[0], maxSize, max), Retained(s1), Concat(rest),
            DroppedByAll(s1, rest, maxSize, max), Retained(WriteAll(s1, rest, maxSize, max)));
    }
  }

  /** Ids run from 1 without gaps. */
  predicate Contiguous(history: seq<Segment>) {
    forall i | 0 <= i < |history| :: history[i].id == i + 1
  }

  /** Files are within the size limit, unless they are a single oversized write or among `others`. */
  ghost predicate Sized(data: Bytes, maxSize: int, ps: seq<Bytes>, others: set<Bytes>) {
    |data| <= maxSize || data in ps || data in others
  }

  ghost predicate AllSized(s: Log, maxSize: int, ps: seq<Bytes>, others: set<Bytes>) {
    Sized(s.current, maxSize, ps, others) && forall g <- s.history :: Sized(g.data, maxSize, ps, others)
  }

  /** The files of a log. */
  ghost function FilesOf(s: Log): set<Bytes> {
    {s.current} + set g | g in s.history :: g.data
  }

  /** From `s` on the history is what it was, or has at most `max` files; and gaps in its ids do not
      arise. */
  ghost predicate Limited(s: Log, r: Log, max: nat) {
    && (r.history == s.history || |r.history| <= max)
    && (Contiguous(s.history) ==> Contiguous(r.history))
  }

  lemma WriteKeepsLimits(s: Log, p: Bytes, maxSize: int, max: nat, ps: seq<Bytes>, others: set<Bytes>)
    requires max >= 1 && AllSized(s, maxSize, ps, others) && p in ps
    ensures var r := Write(s, p, maxSize, max);
      && Limited(s, r, max) && AllSized(r, maxSize, ps, others)
      && (NeedsRotation(s, p, maxSize) ==> |r.history| <= max)
  {
    if NeedsRotation(s, p, maxSize) {
      assert [] + p == p;
    }
  }

  lemma {:induction false} WritesKeepLimits(s: Log, ps: seq<Bytes>, maxSize: int, max: nat, all: seq<Bytes>, others: set<Bytes>)
    requires max >= 1 && AllSized(s, maxSize, all, others) && forall p <- ps :: p in all
    ensures var r := WriteAll(s, ps, maxSize, max); Limited(s, r, max) && AllSized(r, maxSize, all, others)
    decreases |ps|
  {
    if ps != [] {
      WriteKeepsLimits(s, ps[0], maxSize, max, all, others);
      hide AllSized;
      WritesKeepLimits(Write(s, ps[0], maxSize, max), ps[1..], maxSize, max, all, others);
    }
  }

  /** Space over whole runs, from any log: as soon as it has rotated, at most `max` historical files
      are kept, and every file that was not there to begin with is within the limit or is one oversized
      write. Ids that run from 1 without gaps go on doing so. */
  lemma LogStaysBounded(s: Log, ps: seq<Bytes>, maxSize: int, max: nat)
    requires max >= 1
    ensures var r := WriteAll(s, ps, maxSize, max);
      && (r.history == s.history || |r.history| <= max)
      && (Contiguous(s.history) ==> Contiguous(r.history))
      && forall f <- FilesOf(r) :: |f| <= maxSize || f in ps || f in FilesOf(s)
  {
    WritesKeepLimits(s, ps, maxSize, max, ps, FilesOf(s));
  }

  /** After a rotation exactly min(n + 1, max) historical files exist. */
  lemma RotateCount(s: Log, max: nat)
    requires max >= 1
    ensures |Rotate(s, max).history| == if |s.history| + 1 <= max then |s.history| + 1 else max
  {}

  lemma MoreFilesMoreSpace(m: nat, n: nat, size: nat)
    requires m <= n
    ensures m * size <= n * size && (n + 1) * size == n * size + size
  {}

  lemma {:induction false} TotalSize(history: seq<Segment>, maxSize: nat)
    requires forall g <- history :: |g.data| <= maxSize
    ensures |OldestFirst(history)| <= |history| * maxSize
  {
    if history != [] {
      TotalSize(history[1..], maxSize);
      MoreFilesMoreSpace(|history[1..]|, |history[1..]|, maxSize);
    }
  }

  /** If no file to begin with, no write and no limit exceeds `size`, then the log never takes more
      than that for the current file and each of `max` historical ones, or as many as there were. */
  lemma LogSpace(s: Log, ps: seq<Bytes>, maxSize: int, max: nat, size: nat)
    requires max >= 1 && maxSize <= size && (forall p <- ps :: |p| <= size) && (forall f <- FilesOf(s) :: |f| <= size)
    ensures var n := if |s.history| <= max then max else |s.history|;
      |Retained(WriteAll(s, ps, maxSize, max))| <= (n + 1) * size
  {
    hide WriteAll, OldestFirst, FilesOf, Contiguous;
    var r := WriteAll(s, ps, maxSize, max);
    LogStaysBounded(s, ps, maxSize, max);
    FilesWithin(s, r, ps, maxSize, size);
    TotalSize(r.history, size);
    RetainedLength(r);
    hide Retained;
    SpaceBound(|Retained(r)|, |r.history|, |r.current|, if |s.history| <= max then max else |s.history|, size);
  }

  lemma RetainedLength(s: Log)
    ensures |Retained(s)| == |OldestFirst(s.history)| + |s.current|
  {}

  lemma SpaceBound(total: nat, files: nat, current: nat, n: nat, size: nat)
    requires total <= files * size + current && files <= n && current <= size
    ensures total <= (n + 1) * size
  {
    MoreFilesMoreSpace(files, n, size);
  }

  lemma FilesWithin(s: Log, r: Log, ps: seq<Bytes>, maxSize: int, size: nat)
    requires maxSize <= size && (forall p <- ps :: |p| <= size) && (forall f <- FilesOf(s) :: |f| <= size)
    requires forall f <- FilesOf(r) :: |f| <= maxSize || f in ps || f in FilesOf(s)
    ensures |r.current| <= size && forall g <- r.history :: |g.data| <= size
  {
    assert forall g <- r.history :: g.data in FilesOf(r);
    assert r.current in FilesOf(r);
  }
}
