/** The switch lounge as an insertion-ordered list of (id, expiry) pairs and a bounded queue: what
    each operation may do, without saying how the oldest entry is found. */
module LoungeSpec {
  import opened Sequences

  datatype Entry<K> = Entry(id: K, expireAt: int)

  /** Limits of a lounge; `lifetime` is in the unit of the clock. */
  datatype Config = Config(maxEntries: nat, loungeSize: nat, lifetime: int)

  datatype Lounge<K, M> = Lounge(entries: seq<Entry<K>>, queue: seq<M>, closed: bool)

  datatype Outcome = Accepted | Duplicate | ErrClosed | ErrInconsistent | ErrFull

  function Ids<K>(entries: seq<Entry<K>>): set<K> {
    set e | e in entries :: e.id
  }

  ghost predicate DistinctIds<K>(entries: seq<Entry<K>>) {
    forall i, j :: 0 <= i < j < |entries| ==> entries[i].id != entries[j].id
  }

  /** `entries[k]` expires no later than any other entry. */
  ghost predicate Oldest<K>(entries: seq<Entry<K>>, k: nat) {
    k < |entries| && forall i | 0 <= i < |entries| :: entries[k].expireAt <= entries[i].expireAt
  }

  /** At the size cap one oldest entry goes; among entries that expire together any may be chosen. */
  ghost predicate MakesRoom<K>(c: Config, entries: seq<Entry<K>>, kept: seq<Entry<K>>) {
    if |entries| < c.maxEntries then kept == entries
    else exists k :: Oldest(entries, k) && kept == RemoveAt(entries, k)
  }

  /** The entries that have not expired at time `now`, in order. */
  function Unexpired<K>(entries: seq<Entry<K>>, now: int): seq<Entry<K>> {
    if entries == [] then []
    else
      var last := entries[|entries| - 1];
      Unexpired(entries[..|entries| - 1], now) + if last.expireAt > now then [last] else []
  }

  /** The write once room was made among the entries: a full queue still rejects the message. */
  ghost predicate Stores<K(!new), M>(c: Config, kept: seq<Entry<K>>, s: Lounge<K, M>, id: K, msg: M, now: int, s': Lounge<K, M>, r: Outcome) {
    if |s.queue| < c.loungeSize
    then r == Accepted && s' == Lounge(kept + [Entry(id, now + c.lifetime)], s.queue + [msg], false)
    else r == ErrFull && s' == Lounge(kept, s.queue, false)
  }

  ghost predicate WriteStep<K(!new), M>(c: Config, s: Lounge<K, M>, id: K, msg: M, now: int, s': Lounge<K, M>, r: Outcome) {
    if s.closed then r == ErrClosed && s' == s
    else if id in Ids(s.entries) then r == Duplicate && s' == s
    else if c.maxEntries == 0 && s.entries == [] then r == ErrInconsistent && s' == s
    else exists kept :: MakesRoom(c, s.entries, kept) && Stores(c, kept, s, id, msg, now, s', r)
  }

  /** What happens to a lounge, in the order in which its mutex is taken. */
  datatype Event<K, M> =
    | Write(id: K, msg: M, now: int, outcome: Outcome)
    | Cleanup(now: int)
    | Read
    | Close

  ghost predicate Step<K(!new), M>(c: Config, s: Lounge<K, M>, e: Event<K, M>, s': Lounge<K, M>) {
    match e
    case Write(id, msg, now, outcome) => WriteStep(c, s, id, msg, now, s', outcome)
    case Cleanup(now) => s' == s.(entries := Unexpired(s.entries, now))
    case Read => s.queue != [] && s' == s.(queue := s.queue[1..])
    case Close => s' == s.(closed := true)
  }

  /** A run of a lounge from its creation: `states[i]` is the state before `events[i]`. */
  ghost predicate IsRun<K(!new), M>(c: Config, events: seq<Event<K, M>>, states: seq<Lounge<K, M>>) {
    && |states| == |events| + 1
    && states[0] == Lounge([], [], false)
    && (forall i | 0 <= i < |events| :: Step(c, states[i], events[i], states[i + 1]))
  }

  // ---------- facts about the list ----------

  lemma {:induction false} UnexpiredMembers<K>(entries: seq<Entry<K>>, now: int)
    ensures forall e :: e in Unexpired(entries, now) <==> e in entries && e.expireAt > now
    ensures |Unexpired(entries, now)| <= |entries|
  {
    if entries != [] {
      UnexpiredMembers(entries[..|entries| - 1], now);
      assert entries == entries[..|entries| - 1] + [entries[|entries| - 1]];
    }
  }

  lemma {:induction false} UnexpiredKeepsDistinct<K>(entries: seq<Entry<K>>, now: int)
    requires DistinctIds(entries)
    ensures DistinctIds(Unexpired(entries, now))
  {
    if entries != [] {
      var init := entries[..|entries| - 1];
      UnexpiredKeepsDistinct(init, now);
      UnexpiredMembers(init, now);
    }
  }

  lemma {:induction false} UnexpiredIsIdentity<K>(entries: seq<Entry<K>>, now: int)
    requires forall i | 0 <= i < |entries| :: entries[i].expireAt > now
    ensures Unexpired(entries, now) == entries
  {
    if entries != [] {
      UnexpiredIsIdentity(entries[..|entries| - 1], now);
    }
  }

  /** Removing an expired entry does not change what remains after a cleanup. */
  lemma {:induction false} UnexpiredWithout<K>(entries: seq<Entry<K>>, now: int, k: nat)
    requires k < |entries| && entries[k].expireAt <= now
    ensures Unexpired(RemoveAt(entries, k), now) == Unexpired(entries, now)
  {
    var n := |entries| - 1;
    if k < n {
      UnexpiredWithout(entries[..n], now, k);
      assert RemoveAt(entries, k) == RemoveAt(entries[..n], k) + [entries[n]];
    } else {
      assert RemoveAt(entries, k) == entries[..n];
    }
  }

  lemma RemoveAtKeepsDistinct<K>(entries: seq<Entry<K>>, k: nat)
    requires DistinctIds(entries) && k < |entries|
    ensures DistinctIds(RemoveAt(entries, k))
    ensures Ids(RemoveAt(entries, k)) == Ids(entries) - {entries[k].id}
  {
    var r := RemoveAt(entries, k);
    RemoveAtMembers(entries, k);
    forall id ensures id in Ids(r) <==> id in Ids(entries) - {entries[k].id} {
      if id in Ids(r) {
        var j :| 0 <= j < |r| && r[j].id == id;
        assert entries[if j < k then j else j + 1].id == id;
      }
    }
  }

  lemma AppendKeepsDistinct<K>(entries: seq<Entry<K>>, e: Entry<K>)
    requires DistinctIds(entries) && e.id !in Ids(entries)
    ensures DistinctIds(entries + [e])
    ensures Ids(entries + [e]) == Ids(entries) + {e.id}
  {
    assert forall i | 0 <= i < |entries| :: entries[i].id in Ids(entries);
  }

  lemma {:induction false} DistinctIdsCount<K>(entries: seq<Entry<K>>)
    requires DistinctIds(entries)
    ensures |Ids(entries)| == |entries|
  {
    if entries != [] {
      var n := |entries| - 1;
      DistinctIdsCount(entries[..n]);
      assert entries == entries[..n] + [entries[n]];
      assert Ids(entries) == Ids(entries[..n]) + {entries[n].id};
    }
  }

  /** Making room leaves a shorter list of the same entries, without duplicates. */
  lemma RoomIsMade<K>(c: Config, entries: seq<Entry<K>>, kept: seq<Entry<K>>)
    requires MakesRoom(c, entries, kept) && DistinctIds(entries) && |entries| <= c.maxEntries && c.maxEntries > 0
    ensures DistinctIds(kept) && |kept| < c.maxEntries && Ids(kept) <= Ids(entries)
    ensures forall e :: e in kept ==> e in entries
  {
    if |entries| >= c.maxEntries {
      var k: nat :| Oldest(entries, k) && kept == RemoveAt(entries, k);
      RemoveAtKeepsDistinct(entries, k);
      RemoveAtMembers(entries, k);
    }
  }

  // ---------- what a write comes to ----------

  /** `x` is an entry that goes, and expires no later than any other. */
  ghost predicate Evicts<K>(entries: seq<Entry<K>>, kept: seq<Entry<K>>, x: Entry<K>) {
    && x in entries && x !in kept && (forall y <- entries :: x.expireAt <= y.expireAt)
    && (forall y <- entries :: y != x ==> y in kept) && (forall y <- kept :: y in entries)
  }

  lemma RoomCostsOne<K>(c: Config, entries: seq<Entry<K>>, kept: seq<Entry<K>>)
    requires MakesRoom(c, entries, kept) && DistinctIds(entries)
    ensures |entries| < c.maxEntries ==> kept == entries
    ensures |entries| >= c.maxEntries ==> exists x :: Evicts(entries, kept, x)
  {
    if |entries| >= c.maxEntries {
      var k: nat :| Oldest(entries, k) && kept == RemoveAt(entries, k);
      RemoveAtMembers(entries, k);
      RemoveAtKeepsDistinct(entries, k);
      assert Evicts(entries, kept, entries[k]);
    }
  }

  /** The outcome of a write, told from the lounge before it: with a cap above 0 an open lounge accepts
      exactly the ids that are not recorded, as long as its queue has room, be its table full or not. */
  lemma WriteOutcomes<K(!new), M>(c: Config, s: Lounge<K, M>, id: K, msg: M, now: int, s': Lounge<K, M>, r: Outcome)
    requires WriteStep(c, s, id, msg, now, s', r) && c.maxEntries > 0
    ensures r == ErrClosed <==> s.closed
    ensures r == Duplicate <==> !s.closed && id in Ids(s.entries)
    ensures r == Accepted <==> !s.closed && id !in Ids(s.entries) && |s.queue| < c.loungeSize
    ensures r == ErrFull <==> !s.closed && id !in Ids(s.entries) && |s.queue| >= c.loungeSize
  {
    hide MakesRoom;
  }

  /** What a write does: only an accepted message is recorded and queued; and only at the cap does an
      accepted or rejected one cost an entry, one that expires no later than any other. */
  lemma WriteEffects<K(!new), M>(c: Config, s: Lounge<K, M>, id: K, msg: M, now: int, s': Lounge<K, M>, r: Outcome)
    requires WriteStep(c, s, id, msg, now, s', r) && DistinctIds(s.entries)
    ensures r != Accepted && r != ErrFull ==> s' == s
    ensures r == Accepted ==> s'.queue == s.queue + [msg] && !s'.closed && s'.entries != []
                              && s'.entries[|s'.entries| - 1] == Entry(id, now + c.lifetime)
    ensures r == ErrFull ==> s'.queue == s.queue && !s'.closed
    ensures r == Accepted || r == ErrFull ==>
      var kept := if r == Accepted then s'.entries[..|s'.entries| - 1] else s'.entries;
      if |s.entries| < c.maxEntries then kept == s.entries else exists x :: Evicts(s.entries, kept, x)
  {
    hide Evicts, MakesRoom, DistinctIds;
    if r == Accepted || r == ErrFull {
      var kept: seq<Entry<K>> :| MakesRoom(c, s.entries, kept) && Stores(c, kept, s, id, msg, now, s', r);
      RoomCostsOne(c, s.entries, kept);
      assert r == Accepted ==> s'.entries[..|s'.entries| - 1] == kept;
    }
  }
}
