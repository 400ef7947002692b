/** How soon an id can be accepted twice, over whole runs of a lounge. */
module DedupWindow {
  import opened Sequences
  import opened LoungeSpec

  /** The lounge reads the clock under its mutex, so write times never decrease; a cleanup reads it
      before taking the mutex, so its time may lag behind earlier writes but not lead later ones. */
  ghost predicate ClockAdvances<K, M>(events: seq<Event<K, M>>) {
    forall i, j | 0 <= i < j < |events| && (events[i].Write? || events[i].Cleanup?) && events[j].Write? ::
      events[i].now <= events[j].now
  }

  predicate Accepts<K, M>(e: Event<K, M>) {
    e.Write? && e.outcome == Accepted
  }

  /** `e` was written by an acceptance among `events`. */
  ghost predicate Recorded<K(!new), M>(c: Config, events: seq<Event<K, M>>, e: Entry<K>) {
    exists i :: 0 <= i < |events| && Accepts(events[i]) && e == Entry(events[i].id, events[i].now + c.lifetime)
  }

  /** Ids are never duplicated, the cap is never exceeded, every entry stems from an acceptance. */
  ghost predicate Consistent<K(!new), M>(c: Config, events: seq<Event<K, M>>, s: Lounge<K, M>) {
    && DistinctIds(s.entries) && |s.entries| <= c.maxEntries && |s.queue| <= c.loungeSize
    && (forall e <- s.entries :: Recorded(c, events, e))
  }

  lemma RecordedStays<K(!new), M>(c: Config, events: seq<Event<K, M>>, e: Event<K, M>, x: Entry<K>)
    requires Recorded(c, events, x)
    ensures Recorded(c, events + [e], x)
  {
    var i :| 0 <= i < |events| && Accepts(events[i]) && x == Entry(events[i].id, events[i].now + c.lifetime);
    assert (events + [e])[i] == events[i];
  }

  lemma WriteRecords<K(!new), M>(c: Config, events: seq<Event<K, M>>, kept: seq<Entry<K>>, e: Event<K, M>)
    requires e.Write? && forall x <- kept :: Recorded(c, events, x)
    ensures forall x <- kept :: Recorded(c, events + [e], x)
    ensures Accepts(e) ==> Recorded(c, events + [e], Entry(e.id, e.now + c.lifetime))
  {
    forall x <- kept ensures Recorded(c, events + [e], x) {
      RecordedStays(c, events, e, x);
    }
    assert (events + [e])[|events|] == e;
  }

  lemma WriteKeepsConsistent<K(!new), M>(c: Config, events: seq<Event<K, M>>, s: Lounge<K, M>, e: Event<K, M>, s': Lounge<K, M>)
    requires Consistent(c, events, s) && Step(c, s, e, s') && e.Write? && (e.outcome == Accepted || e.outcome == ErrFull)
    ensures Consistent(c, events + [e], s')
  {
    hide Recorded, MakesRoom, Ids, DistinctIds;
    var kept: seq<Entry<K>> :| MakesRoom(c, s.entries, kept) && Stores(c, kept, s, e.id, e.msg, e.now, s', e.outcome);
    RoomIsMade(c, s.entries, kept);
    WriteRecords(c, events, kept, e);
    if e.outcome == Accepted {
      AppendKeepsDistinct(kept, Entry(e.id, e.now + c.lifetime));
    }
  }

  lemma StepKeepsConsistent<K(!new), M>(c: Config, events: seq<Event<K, M>>, s: Lounge<K, M>, e: Event<K, M>, s': Lounge<K, M>)
    requires Consistent(c, events, s) && Step(c, s, e, s')
    ensures Consistent(c, events + [e], s')
  {
    if e.Write? && (e.outcome == Accepted || e.outcome == ErrFull) {
      WriteKeepsConsistent(c, events, s, e, s');
    } else {
      if e.Cleanup? {
        UnexpiredMembers(s.entries, e.now);
        UnexpiredKeepsDistinct(s.entries, e.now);
      }
      forall x <- s'.entries ensures Recorded(c, events + [e], x) {
        RecordedStays(c, events, e, x);
      }
    }
  }

  lemma {:induction false} RunIsConsistent<K(!new), M>(c: Config, events: seq<Event<K, M>>, states: seq<Lounge<K, M>>, n: nat)
    requires IsRun(c, events, states) && n <= |events|
    ensures Consistent(c, events[..n], states[n])
  {
    if n > 0 {
      RunIsConsistent(c, events, states, n - 1);
      StepKeepsConsistent(c, events[..n - 1], states[n - 1], events[n - 1], states[n]);
      assert events[..n] == events[..n - 1] + [events[n - 1]];
    }
  }

  /** An entry present at `lo` and gone at `hi` is dropped by some step in between. */
  lemma {:induction false} DropPoint<K(!new), M>(states: seq<Lounge<K, M>>, e: Entry<K>, lo: nat, hi: nat) returns (m: nat)
    requires lo <= hi < |states| && e in states[lo].entries && e !in states[hi].entries
    ensures lo <= m < hi && e in states[m].entries && e !in states[m + 1].entries
    decreases hi - lo
  {
    if e in states[lo + 1].entries {
      m := DropPoint(states, e, lo + 1, hi);
    } else {
      m := lo;
    }
  }

  /** The ids other than `id` accepted before event `j` at time `from` or later. */
  ghost function OtherIds<K, M>(events: seq<Event<K, M>>, j: nat, from: int, id: K): set<K>
    requires j <= |events|
  {
    (set k | 0 <= k < j && Accepts(events[k]) && events[k].now >= from :: events[k].id) - {id}
  }

  /** A step drops an entry only because its time is up, or because the table is full of entries
      that expire no earlier. */
  lemma WhyDropped<K(!new), M>(c: Config, s: Lounge<K, M>, e: Event<K, M>, s': Lounge<K, M>, x: Entry<K>)
    requires Step(c, s, e, s') && x in s.entries && x !in s'.entries
    ensures e.Write? || e.Cleanup?
    ensures e.Cleanup? ==> x.expireAt <= e.now
    ensures e.Write? ==> |s.entries| >= c.maxEntries && forall y <- s.entries :: x.expireAt <= y.expireAt
  {
    if e.Cleanup? {
      UnexpiredMembers(s.entries, e.now);
    } else if e.Write? {
      var kept: seq<Entry<K>> :| MakesRoom(c, s.entries, kept) && Stores(c, kept, s, e.id, e.msg, e.now, s', e.outcome);
      assert kept == s'.entries[..|kept|];
      var k: nat :| Oldest(s.entries, k) && kept == RemoveAt(s.entries, k);
      RemoveAtMembers(s.entries, k);
      assert x == s.entries[k];
    }
  }

  /** An accepted id stays recorded until a cleanup finds its lifetime over, or until at least
      maxEntries - 1 other ids have been accepted at the time of its acceptance or later. */
  lemma StaysRecorded<K(!new), M>(c: Config, events: seq<Event<K, M>>, states: seq<Lounge<K, M>>, i: nat, j: nat)
    requires IsRun(c, events, states) && ClockAdvances(events)
    requires i < j < |events| && Accepts(events[i]) && events[j].Write?
    ensures Entry(events[i].id, events[i].now + c.lifetime) in states[j].entries
            || events[j].now - events[i].now >= c.lifetime
            || |OtherIds(events, j, events[i].now, events[i].id)| >= c.maxEntries - 1
  {
    var x := Entry(events[i].id, events[i].now + c.lifetime);
    assert Step(c, states[i], events[i], states[i + 1]);
    AcceptedIsRecorded(c, states[i], events[i], states[i + 1]);
    if x !in states[j].entries {
      var m := DropPoint(states, x, i + 1, j);
      assert Step(c, states[m], events[m], states[m + 1]);
      WhyDropped(c, states[m], events[m], states[m + 1], x);
      if events[m].Write? {
        RunIsConsistent(c, events, states, m);
        FullTableHasOthers(c, events, states[m].entries, m, j, x, events[i].now);
      }
    }
  }

  /** Dedup window: an id accepted at events `i` and `j` was accepted again either a full lifetime
      later, or only after at least maxEntries - 1 other ids had been accepted at the time of the
      first acceptance or later. */
  lemma AcceptedTwice<K(!new), M>(c: Config, events: seq<Event<K, M>>, states: seq<Lounge<K, M>>, i: nat, j: nat)
    requires IsRun(c, events, states) && ClockAdvances(events)
    requires i < j < |events| && Accepts(events[i]) && Accepts(events[j]) && events[i].id == events[j].id
    ensures events[j].now - events[i].now >= c.lifetime
            || |OtherIds(events, j, events[i].now, events[i].id)| >= c.maxEntries - 1
  {
    StaysRecorded(c, events, states, i, j);
    assert Step(c, states[j], events[j], states[j + 1]);
    AcceptedIsRecorded(c, states[j], events[j], states[j + 1]);
  }

  /** Within the window a repeated write is recognised as a duplicate, as long as the lounge is open. */
  lemma RepeatIsDuplicate<K(!new), M>(c: Config, events: seq<Event<K, M>>, states: seq<Lounge<K, M>>, i: nat, j: nat)
    requires IsRun(c, events, states) && ClockAdvances(events)
    requires i < j < |events| && Accepts(events[i]) && events[j].Write? && events[j].id == events[i].id
    requires events[j].now - events[i].now < c.lifetime
    requires |OtherIds(events, j, events[i].now, events[i].id)| < c.maxEntries - 1
    ensures events[j].outcome == if states[j].closed then ErrClosed else Duplicate
  {
    StaysRecorded(c, events, states, i, j);
    assert Step(c, states[j], events[j], states[j + 1]);
    assert events[i].id in Ids(states[j].entries);
  }

  lemma AcceptedIsRecorded<K(!new), M>(c: Config, s: Lounge<K, M>, e: Event<K, M>, s': Lounge<K, M>)
    requires Step(c, s, e, s') && Accepts(e)
    ensures Entry(e.id, e.now + c.lifetime) in s'.entries && e.id !in Ids(s.entries)
  {}

  lemma FullTableHasOthers<K(!new), M>(c: Config, events: seq<Event<K, M>>, entries: seq<Entry<K>>, m: nat, j: nat, x: Entry<K>, from: int)
    requires m <= j <= |events| && DistinctIds(entries) && |entries| >= c.maxEntries
    requires forall e <- entries :: Recorded(c, events[..m], e) && x.expireAt <= e.expireAt
    requires x in entries && x.expireAt == from + c.lifetime
    ensures |OtherIds(events, j, from, x.id)| >= c.maxEntries - 1
  {
    var others := OtherIds(events, j, from, x.id);
    forall id | id in Ids(entries) - {x.id} ensures id in others {
      var e :| e in entries && e.id == id;
      assert Recorded(c, events[..m], e);
      var k :| 0 <= k < m && Accepts(events[..m][k]) && e == Entry(events[..m][k].id, events[..m][k].now + c.lifetime);
      assert events[..m][k] == events[k];
    }
    DistinctIdsCount(entries);
    SubsetCardinality(Ids(entries) - {x.id}, others);
    assert |Ids(entries) - {x.id}| == |Ids(entries)| - 1;
  }

  lemma OthersLieBetween<K, M>(events: seq<Event<K, M>>, i: nat, j: nat)
    requires forall k, l | 0 <= k < l < |events| && events[k].Write? && events[l].Write? :: events[k].now < events[l].now
    requires i < j < |events| && events[i].Write?
    ensures OtherIds(events, j, events[i].now, events[i].id)
              <= (set k | i < k < j && Accepts(events[k]) :: events[k].id) - {events[i].id}
  {}

  /** With strictly increasing write times the other acceptances lie strictly between the two. */
  lemma AcceptedTwiceStrict<K(!new), M>(c: Config, events: seq<Event<K, M>>, states: seq<Lounge<K, M>>, i: nat, j: nat)
    requires IsRun(c, events, states) && ClockAdvances(events)
    requires forall k, l | 0 <= k < l < |events| && events[k].Write? && events[l].Write? :: events[k].now < events[l].now
    requires i < j < |events| && Accepts(events[i]) && Accepts(events[j]) && events[i].id == events[j].id
    ensures events[j].now - events[i].now >= c.lifetime
            || |(set k | i < k < j && Accepts(events[k]) :: events[k].id) - {events[i].id}| >= c.maxEntries - 1
  {
    hide IsRun, ClockAdvances, OtherIds;
    AcceptedTwice(c, events, states, i, j);
    OthersLieBetween(events, i, j);
    SubsetCardinality(OtherIds(events, j, events[i].now, events[i].id),
                      (set k | i < k < j && Accepts(events[k]) :: events[k].id) - {events[i].id});
  }

  // ---------- the other way round ----------

  /** A write is ignored as a duplicate only if its id was accepted before. */
  lemma DuplicateWasAccepted<K(!new), M>(c: Config, events: seq<Event<K, M>>, states: seq<Lounge<K, M>>, j: nat) returns (i: nat)
    requires IsRun(c, events, states) && j < |events| && events[j].Write? && events[j].outcome == Duplicate
    ensures i < j && Accepts(events[i]) && events[i].id == events[j].id
  {
    RunIsConsistent(c, events, states, j);
    assert Step(c, states[j], events[j], states[j + 1]);
    assert events[j].id in Ids(states[j].entries);
    var e :| e in states[j].entries && e.id == events[j].id;
    assert Recorded(c, events[..j], e);
    i :| 0 <= i < j && Accepts(events[..j][i]) && e == Entry(events[..j][i].id, events[..j][i].now + c.lifetime);
  }

  /** Only an acceptance adds an id. */
  lemma OnlyAcceptanceAdds<K(!new), M>(c: Config, s: Lounge<K, M>, e: Event<K, M>, s': Lounge<K, M>, id: K)
    requires Step(c, s, e, s') && DistinctIds(s.entries) && id !in Ids(s.entries) && !(Accepts(e) && e.id == id)
    ensures id !in Ids(s'.entries)
  {
    if e.Cleanup? {
      UnexpiredMembers(s.entries, e.now);
    } else if e.Write? {
      WriteEffects(c, s, e.id, e.msg, e.now, s', e.outcome);
      hide WriteStep, DistinctIds;
      if e.outcome == Accepted {
        assert s'.entries == s'.entries[..|s'.entries| - 1] + [s'.entries[|s'.entries| - 1]];
      }
    }
  }

  lemma {:induction false} StaysForgotten<K(!new), M>(c: Config, events: seq<Event<K, M>>, states: seq<Lounge<K, M>>, id: K, k: nat, j: nat)
    requires IsRun(c, events, states) && k <= j <= |events| && id !in Ids(states[k].entries)
    requires forall i | k <= i < j && Accepts(events[i]) :: events[i].id != id
    ensures id !in Ids(states[j].entries)
  {
    if k < j {
      StaysForgotten(c, events, states, id, k, j - 1);
      RunIsConsistent(c, events, states, j - 1);
      assert Step(c, states[j - 1], events[j - 1], states[j]);
      OnlyAcceptanceAdds(c, states[j - 1], events[j - 1], states[j], id);
    }
  }

  /** An id is forgotten at the first cleanup after its lifetime: an open lounge with room in its queue
      then accepts it again. */
  lemma ForgottenIsAccepted<K(!new), M>(c: Config, events: seq<Event<K, M>>, states: seq<Lounge<K, M>>, id: K, k: nat, j: nat)
    requires IsRun(c, events, states) && c.maxEntries > 0
    requires k < j < |events| && events[k].Cleanup? && events[j].Write? && events[j].id == id
    requires forall i | 0 <= i < k && Accepts(events[i]) && events[i].id == id :: events[i].now + c.lifetime <= events[k].now
    requires forall i | k < i < j && Accepts(events[i]) :: events[i].id != id
    requires !states[j].closed && |states[j].queue| < c.loungeSize
    ensures events[j].outcome == Accepted
  {
    RunIsConsistent(c, events, states, k);
    assert Step(c, states[k], events[k], states[k + 1]);
    UnexpiredMembers(states[k].entries, events[k].now);
    forall e <- states[k + 1].entries ensures e.id != id {
      assert Recorded(c, events[..k], e);
      var i :| 0 <= i < k && Accepts(events[..k][i]) && e == Entry(events[..k][i].id, events[..k][i].now + c.lifetime);
      assert events[..k][i] == events[i];
    }
    StaysForgotten(c, events, states, id, k + 1, j);
    assert Step(c, states[j], events[j], states[j + 1]);
    WriteOutcomes(c, states[j], id, events[j].msg, events[j].now, states[j + 1], events[j].outcome);
  }
}
