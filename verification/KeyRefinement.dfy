/** Deduplicating by the string id is deduplicating by the pair (switch id, sequence number): a run
    of the string-keyed lounge is, outcome for outcome, a run of the pair-keyed one. */
module KeyRefinement {
  import opened Sequences
  import opened LoungeSpec
  import opened Messages

  function StringEntry(e: Entry<PairId>): Entry<string> {
    Entry(DiscoveryId(e.id), e.expireAt)
  }

  function StringEntries(es: seq<Entry<PairId>>): (r: seq<Entry<string>>)
    ensures |r| == |es| && forall i | 0 <= i < |es| :: r[i] == StringEntry(es[i])
  {
    if es == [] then [] else StringEntries(es[..|es| - 1]) + [StringEntry(es[|es| - 1])]
  }

  function StringLounge<M>(s: Lounge<PairId, M>): Lounge<string, M> {
    Lounge(StringEntries(s.entries), s.queue, s.closed)
  }

  function StringEvent<M>(e: Event<PairId, M>): Event<string, M> {
    match e
    case Write(id, msg, now, outcome) => Write(DiscoveryId(id), msg, now, outcome)
    case Cleanup(now) => Cleanup(now)
    case Read => Read
    case Close => Close
  }

  function StringEvents<M>(es: seq<Event<PairId, M>>): (r: seq<Event<string, M>>)
    ensures |r| == |es| && forall i | 0 <= i < |es| :: r[i] == StringEvent(es[i])
  {
    if es == [] then [] else StringEvents(es[..|es| - 1]) + [StringEvent(es[|es| - 1])]
  }

  lemma SameMembership(es: seq<Entry<PairId>>, id: PairId)
    ensures DiscoveryId(id) in Ids(StringEntries(es)) <==> id in Ids(es)
  {
    if DiscoveryId(id) in Ids(StringEntries(es)) {
      var i :| 0 <= i < |es| && StringEntries(es)[i].id == DiscoveryId(id);
      DiscoveryIdIsInjective(es[i].id, id);
      assert es[i] in es;
    }
    if id in Ids(es) {
      var i :| 0 <= i < |es| && es[i].id == id;
      assert StringEntries(es)[i] in StringEntries(es);
    }
  }

  lemma {:induction false} SameUnexpired(es: seq<Entry<PairId>>, now: int)
    ensures Unexpired(StringEntries(es), now) == StringEntries(Unexpired(es, now))
  {
    if es != [] {
      var init, last := es[..|es| - 1], es[|es| - 1];
      SameUnexpired(init, now);
      assert StringEntries(es)[..|es| - 1] == StringEntries(init);
      assert StringEntries(Unexpired(init, now) + [last]) == StringEntries(Unexpired(init, now)) + [StringEntry(last)];
    }
  }

  lemma SameOldest(es: seq<Entry<PairId>>, k: nat)
    requires Oldest(StringEntries(es), k)
    ensures Oldest(es, k) && StringEntries(RemoveAt(es, k)) == RemoveAt(StringEntries(es), k)
  {
    hide StringEntries, DiscoveryId;
    assert forall i | 0 <= i < |es| :: StringEntries(es)[i].expireAt == es[i].expireAt;
  }

  /** Whatever entry the string-keyed lounge evicts, the pair-keyed one may evict its counterpart. */
  lemma SameRoom(c: Config, es: seq<Entry<PairId>>, kept: seq<Entry<string>>) returns (kept': seq<Entry<PairId>>)
    requires MakesRoom(c, StringEntries(es), kept)
    ensures MakesRoom(c, es, kept') && StringEntries(kept') == kept
  {
    if |es| < c.maxEntries {
      kept' := es;
    } else {
      hide StringEntries, DiscoveryId, Oldest;
      var k: nat :| Oldest(StringEntries(es), k) && kept == RemoveAt(StringEntries(es), k);
      SameOldest(es, k);
      kept' := RemoveAt(es, k);
    }
  }

  lemma StringEntriesAppend(es: seq<Entry<PairId>>, e: Entry<PairId>)
    ensures StringEntries(es + [e]) == StringEntries(es) + [StringEntry(e)]
  {
    hide DiscoveryId;
    assert (es + [e])[..|es|] == es;
  }

  lemma StoreRefines<M>(c: Config, s: Lounge<PairId, M>, id: PairId, msg: M, now: int, t': Lounge<string, M>, r: Outcome)
    returns (s': Lounge<PairId, M>, kept': seq<Entry<PairId>>)
    requires exists kept :: MakesRoom(c, StringEntries(s.entries), kept) && Stores(c, kept, StringLounge(s), DiscoveryId(id), msg, now, t', r)
    ensures MakesRoom(c, s.entries, kept') && Stores(c, kept', s, id, msg, now, s', r) && StringLounge(s') == t'
  {
    hide MakesRoom, StringEntries, DiscoveryId;
    var kept :| MakesRoom(c, StringEntries(s.entries), kept) && Stores(c, kept, StringLounge(s), DiscoveryId(id), msg, now, t', r);
    kept' := SameRoom(c, s.entries, kept);
    var x := Entry(id, now + c.lifetime);
    StringEntriesAppend(kept', x);
    s' := if r == Accepted then Lounge(kept' + [x], s.queue + [msg], false) else Lounge(kept', s.queue, false);
  }

  lemma StepRefines<M>(c: Config, s: Lounge<PairId, M>, e: Event<PairId, M>, t': Lounge<string, M>) returns (s': Lounge<PairId, M>)
    requires Step(c, StringLounge(s), StringEvent(e), t')
    ensures Step(c, s, e, s') && StringLounge(s') == t'
  {
    match e
    case Write(id, msg, now, r) =>
      SameMembership(s.entries, id);
      hide MakesRoom, Stores, Ids;
      if r == Accepted || r == ErrFull {
        var kept';
        s', kept' := StoreRefines(c, s, id, msg, now, t', r);
      } else {
        s' := s;
      }
    case Cleanup(now) =>
      SameUnexpired(s.entries, now);
      s' := s.(entries := Unexpired(s.entries, now));
    case Read => s' := s.(queue := s.queue[1..]);
    case Close => s' := s.(closed := true);
  }

  lemma StepAt<K(!new), M>(c: Config, events: seq<Event<K, M>>, states: seq<Lounge<K, M>>, i: nat)
    requires IsRun(c, events, states) && i < |events|
    ensures Step(c, states[i], events[i], states[i + 1])
  {
    hide Step;
  }

  lemma RunTake<K(!new), M>(c: Config, events: seq<Event<K, M>>, states: seq<Lounge<K, M>>, n: nat)
    requires IsRun(c, events, states) && n <= |events|
    ensures IsRun(c, events[..n], states[..n + 1])
  {
    hide Step;
    forall i | 0 <= i < n ensures Step(c, states[..n + 1][i], events[..n][i], states[..n + 1][i + 1]) {
      StepAt(c, events, states, i);
    }
  }

  lemma RunPrefix<M>(c: Config, events: seq<Event<PairId, M>>, states: seq<Lounge<string, M>>)
    requires events != [] && |states| == |events| + 1 && IsRun(c, StringEvents(events), states)
    ensures var n := |events| - 1;
      IsRun(c, StringEvents(events[..n]), states[..n + 1]) && Step(c, states[n], StringEvent(events[n]), states[n + 1])
  {
    hide Step, StringEvent, IsRun, StringEvents;
    var n := |events| - 1;
    assert StringEvents(events[..n]) == StringEvents(events)[..n];
    RunTake(c, StringEvents(events), states, n);
    StepAt(c, StringEvents(events), states, n);
  }

  lemma RunLength<K(!new), M>(c: Config, events: seq<Event<K, M>>, states: seq<Lounge<K, M>>)
    requires IsRun(c, events, states)
    ensures |states| == |events| + 1
  {
    hide Step;
  }

  lemma EmptyRunRefines<M>(c: Config, states: seq<Lounge<string, M>>)
    requires IsRun(c, StringEvents<M>([]), states)
    ensures var start := Lounge<PairId, M>.Lounge([], [], false);
      states == [StringLounge(start)] && IsRun(c, [], [start])
  {
    hide Step;
  }

  lemma RunExtended<K(!new), M>(c: Config, events: seq<Event<K, M>>, states: seq<Lounge<K, M>>, s': Lounge<K, M>)
    requires events != [] && IsRun(c, events[..|events| - 1], states)
    requires Step(c, states[|events| - 1], events[|events| - 1], s')
    ensures IsRun(c, events, states + [s'])
  {
    hide Step;
    var n := |events| - 1;
    forall i | 0 <= i < |events| ensures Step(c, (states + [s'])[i], events[i], (states + [s'])[i + 1]) {
      if i < n {
        assert Step(c, states[i], events[..n][i], states[i + 1]);
      }
    }
  }

  /** Every run of the string-keyed lounge on the ids of `events` is the image of a run of the
      pair-keyed lounge with the same outcomes and the same queues. */
  lemma {:induction false} RunRefines<M>(c: Config, events: seq<Event<PairId, M>>, states: seq<Lounge<string, M>>)
    returns (pairStates: seq<Lounge<PairId, M>>)
    requires IsRun(c, StringEvents(events), states)
    ensures IsRun(c, events, pairStates) && |pairStates| == |states|
    ensures forall i | 0 <= i < |states| :: states[i] == StringLounge(pairStates[i])
  {
    hide Step, StringEntries, StringEvent, StringEvents, IsRun, StringLounge;
    RunLength(c, StringEvents(events), states);
    if events == [] {
      EmptyRunRefines<M>(c, states);
      pairStates := [Lounge([], [], false)];
    } else {
      var n := |events| - 1;
      RunPrefix(c, events, states);
      var before := RunRefines(c, events[..n], states[..n + 1]);
      assert states[..n + 1][n] == StringLounge(before[n]);
      var s' := StepRefines(c, before[n], events[n], states[n + 1]);
      RunExtended(c, events, before, s');
      pairStates := before + [s'];
      forall i | 0 <= i < |states| ensures states[i] == StringLounge(pairStates[i]) {
        if i <= n {
          assert states[..n + 1][i] == StringLounge(before[i]);
        }
      }
    }
  }
}
