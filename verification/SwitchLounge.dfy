/** The switch lounge: a dedup table, an expiry heap and a bounded queue kept in agreement. */
module SwitchLounge {
  import opened Sequences
  import opened LoungeSpec
  import opened DedupWindow
  import opened Messages
  import opened TtlHeap
  import opened Configs

  /** The table has the ids of the entries, each recorded for a message with that key. */
  ghost predicate Agree(entries: seq<Entry<string>>, keys: set<string>, sources: map<string, SwitchMessage>) {
    && DistinctIds(entries) && keys == Ids(entries) == sources.Keys
    && (forall id <- sources :: GetDiscoveryId(sources[id]) == id)
  }

  lemma AgreeWith(entries: seq<Entry<string>>, keys: set<string>, sources: map<string, SwitchMessage>, e: Entry<string>, msg: SwitchMessage)
    requires Agree(entries, keys, sources) && e.id !in Ids(entries) && e.id == GetDiscoveryId(msg)
    ensures Agree(entries + [e], keys + {e.id}, sources[e.id := msg])
  {
    hide GetDiscoveryId, Ids, DistinctIds;
    AppendKeepsDistinct(entries, e);
  }

  lemma AgreeWithout(entries: seq<Entry<string>>, keys: set<string>, sources: map<string, SwitchMessage>, k: nat)
    requires Agree(entries, keys, sources) && k < |entries|
    ensures Agree(RemoveAt(entries, k), keys - {entries[k].id}, sources - {entries[k].id})
  {
    hide GetDiscoveryId, Ids, DistinctIds;
    RemoveAtKeepsDistinct(entries, k);
  }

  class SwitchLounge {
    const config: Config
    const ttlHeap: TTLHeap
    var forwardedIds: map<string, bool>
    var lounge: seq<SwitchMessage>
    var closed: bool
    ghost var entries: seq<Entry<string>>   // what the heap holds, in the order of insertion
    ghost var sources: map<string, SwitchMessage>   // the message for which each id was recorded

    ghost predicate Valid()
      reads this, ttlHeap
    {
      && ttlHeap.Valid()
      && multiset(ttlHeap.items) == multiset(entries)
      && Agree(entries, forwardedIds.Keys, sources)
      && |entries| <= config.maxEntries
      && |lounge| <= config.loungeSize
    }

    ghost function View(): Lounge<string, SwitchMessage>
      reads this
    {
      Lounge(entries, lounge, closed)
    }

    constructor (config: Config)
      ensures Valid() && this.config == config && View() == Lounge([], [], false)
      ensures fresh(ttlHeap)
    {
      this.config := config;
      ttlHeap := new TTLHeap();
      forwardedIds := map[];
      lounge := [];
      closed := false;
      entries := [];
      sources := map[];
    }

    /** Removes the root of the heap, and its id from the table. */
    method RemoveOldest() returns (ghost k: nat)
      requires Valid() && ttlHeap.items != []
      modifies this`forwardedIds, this`entries, this`sources, ttlHeap
      ensures Valid() && Oldest(old(entries), k) && entries == RemoveAt(old(entries), k)
      ensures old(entries)[k] == old(ttlHeap.items)[0] && sources == old(sources) - {old(entries)[k].id}
    {
      hide Agree, Ids;
      ghost var items := ttlHeap.items;
      var oldest := ttlHeap.Pop();
      forwardedIds := forwardedIds - {oldest.id};
      assert oldest in multiset(items);
      k :| k < |entries| && entries[k] == oldest;
      forall e <- entries ensures oldest.expireAt <= e.expireAt {
        assert e in multiset(entries);
      }
      RemoveAtMultiset(entries, k);
      AgreeWithout(entries, old(forwardedIds.Keys), sources, k);
      assert forwardedIds.Keys == old(forwardedIds.Keys) - {oldest.id};
      entries := RemoveAt(entries, k);
      sources := sources - {oldest.id};
    }

    /** The send on the lounge channel, with the bookkeeping of its successful case. */
    method Store(discoveryId: string, msg: SwitchMessage, now: int) returns (r: Outcome)
      requires Valid() && discoveryId !in Ids(entries) && |entries| < config.maxEntries && !closed
      requires discoveryId == GetDiscoveryId(msg)
      modifies this`forwardedIds, this`entries, this`sources, this`lounge, ttlHeap
      ensures Valid() && Stores(config, old(entries), old(View()), discoveryId, msg, now, View(), r)
      ensures r == if |old(lounge)| < config.loungeSize then Accepted else ErrFull
      ensures sources == if r == Accepted then old(sources)[discoveryId := msg] else old(sources)
    {
      hide Ids, Agree, ttlHeap.Valid, GetDiscoveryId;
      if |lounge| < config.loungeSize {
        lounge := lounge + [msg];
        forwardedIds := forwardedIds[discoveryId := true];
        var item := Entry(discoveryId, now + config.lifetime);
        ttlHeap.Push(item);
        AgreeWith(entries, old(forwardedIds.Keys), sources, item, msg);
        assert forwardedIds.Keys == old(forwardedIds.Keys) + {discoveryId};
        entries := entries + [item];
        sources := sources[discoveryId := msg];
        r := Accepted;
      } else {
        r := ErrFull;
      }
    }

    lemma RoomIsThere(c: Config, es: seq<Entry<string>>)
      requires |es| < c.maxEntries
      ensures MakesRoom(c, es, es)
    {}

    lemma RemovalMakesRoom(c: Config, es: seq<Entry<string>>, k: nat)
      requires Oldest(es, k) && DistinctIds(es) && |es| >= c.maxEntries
      ensures MakesRoom(c, es, RemoveAt(es, k)) && Ids(RemoveAt(es, k)) <= Ids(es)
    {
      RemoveAtKeepsDistinct(es, k);
    }

    /** At the size cap one oldest entry goes. */
    method MakeRoom() returns (ok: bool)
      requires Valid()
      modifies this`forwardedIds, this`entries, this`sources, ttlHeap
      ensures Valid() && (ok <==> config.maxEntries > 0)
      ensures ok ==> MakesRoom(config, old(entries), entries) && |entries| < config.maxEntries && Ids(entries) <= Ids(old(entries))
      ensures !ok ==> old(entries) == entries == [] && sources == old(sources)
      ensures forall id <- sources :: id in old(sources) && sources[id] == old(sources)[id]
    {
      CountsAgree();
      if |forwardedIds| >= config.maxEntries {
        if ttlHeap.Len() == 0 {
          return false;
        }
        ghost var k := RemoveOldest();
        RemovalMakesRoom(config, old(entries), k);
      } else {
        RoomIsThere(config, entries);
      }
      ok := true;
    }

    /** A message with the same switch id and sequence number is on record. */
    ghost predicate Knows(msg: SwitchMessage)
      reads this
    {
      exists id :: id in sources && SameOrigin(sources[id], msg)
    }

    lemma TableHasIds()
      requires Valid()
      ensures forwardedIds.Keys == Ids(entries)
      ensures forall id <- forwardedIds :: config.maxEntries > 0
    {}

    lemma KnownExactly(msg: SwitchMessage)
      requires Valid()
      ensures Knows(msg) <==> GetDiscoveryId(msg) in Ids(entries)
    {
      forall id <- sources ensures SameOrigin(sources[id], msg) <==> id == GetDiscoveryId(msg) {
        KeyIdentifies(sources[id], msg);
      }
      hide GetDiscoveryId, SameOrigin, Ids;
    }

    /** `now` is the clock read under the mutex. In terms of the messages: one is a duplicate exactly if
        a message with the same switch id and sequence number is on record, and otherwise accepted
        exactly if the queue has room. */
    method Write(msg: SwitchMessage, now: int) returns (r: Outcome)
      requires Valid()
      modifies this`forwardedIds, this`entries, this`sources, this`lounge, ttlHeap
      ensures Valid() && WriteStep(config, old(View()), GetDiscoveryId(msg), msg, now, View(), r)
      ensures r == ErrInconsistent <==> config.maxEntries == 0 && !closed
      ensures r == ErrClosed <==> closed
      ensures r == Duplicate <==> !closed && old(Knows(msg))
      ensures r == Accepted <==> !closed && !old(Knows(msg)) && |old(lounge)| < config.loungeSize && config.maxEntries > 0
      ensures r == Accepted ==> GetDiscoveryId(msg) in sources && sources[GetDiscoveryId(msg)] == msg
      ensures forall id <- sources :: (r == Accepted && sources[id] == msg) || (id in old(sources) && sources[id] == old(sources)[id])
    {
      hide GetDiscoveryId, Knows, MakesRoom, Valid;
      KnownExactly(msg);
      TableHasIds();
      var discoveryId := GetDiscoveryId(msg);
      if closed {
        return ErrClosed;
      }
      if discoveryId in forwardedIds {
        return Duplicate;
      }
      var ok := MakeRoom();
      if !ok {
        return ErrInconsistent;
      }
      ghost var kept := entries;
      r := Store(discoveryId, msg, now);
    }

    /** The body of the cleanup loop: removes the root if its time is up. */
    method RemoveExpired(now: int) returns (removed: bool)
      requires Valid()
      modifies this`forwardedIds, this`entries, this`sources, ttlHeap
      ensures Valid() && Unexpired(entries, now) == Unexpired(old(entries), now)
      ensures sources.Keys <= old(sources).Keys && forall id <- sources :: sources[id] == old(sources)[id]
      ensures removed ==> |entries| < |old(entries)|
      ensures !removed ==> entries == old(entries) == Unexpired(entries, now)
    {
      CountsAgree();
      if ttlHeap.Len() == 0 {
        return false;
      }
      if ttlHeap.items[0].expireAt > now {
        forall i | 0 <= i < |entries| ensures entries[i].expireAt > now {
          assert entries[i] in multiset(ttlHeap.items);
          var j :| 0 <= j < |ttlHeap.items| && ttlHeap.items[j] == entries[i];
          RootIsOldest(ttlHeap.items, j);
        }
        UnexpiredIsIdentity(entries, now);
        return false;
      }
      ghost var k := RemoveOldest();
      UnexpiredWithout(old(entries), now, k);
      return true;
    }

    /** One tick of the cleanup loop, at the time it read before taking the mutex. */
    method Cleanup(now: int)
      requires Valid()
      modifies this`forwardedIds, this`entries, this`sources, ttlHeap
      ensures Valid() && Step(config, old(View()), Event<string, SwitchMessage>.Cleanup(now), View())
      ensures sources.Keys <= old(sources).Keys && forall id <- sources :: sources[id] == old(sources)[id]
    {
      hide Valid;
      var removed := true;
      while removed
        invariant Valid() && Unexpired(entries, now) == Unexpired(old(entries), now)
        invariant sources.Keys <= old(sources).Keys && forall id <- sources :: sources[id] == old(sources)[id]
        invariant !removed ==> entries == Unexpired(entries, now)
        decreases |entries|, removed
      {
        removed := RemoveExpired(now);
      }
    }

    /** Receives from the channel that `Read` returns. */
    method Receive() returns (msg: SwitchMessage)
      requires Valid() && lounge != []
      modifies this`lounge
      ensures Valid() && msg == old(lounge)[0]
      ensures Step(config, old(View()), Event<string, SwitchMessage>.Read, View())
    {
      msg := lounge[0];
      lounge := lounge[1..];
    }

    method Close()
      requires Valid()
      modifies this`closed
      ensures Valid() && Step(config, old(View()), Event<string, SwitchMessage>.Close, View())
    {
      if closed {
        return;
      }
      closed := true;
    }

    lemma CountsAgree()
      requires Valid()
      ensures |forwardedIds| == |entries| == |ttlHeap.items|
    {
      DistinctIdsCount(entries);
      assert |ttlHeap.items| == |multiset(ttlHeap.items)| == |multiset(entries)| == |entries|;
    }

    /** Agreement: every recorded id has exactly one heap item, and no heap item is without record. */
    lemma TableAndHeapAgree()
      requires Valid()
      ensures Ids(ttlHeap.items) == forwardedIds.Keys
      ensures |forwardedIds| == |ttlHeap.items| <= config.maxEntries
      ensures DistinctIds(ttlHeap.items)
    {
      CountsAgree();
      forall id ensures id in Ids(ttlHeap.items) <==> id in Ids(entries) {
        assert forall e :: e in ttlHeap.items <==> e in multiset(ttlHeap.items);
        assert forall e :: e in entries <==> e in multiset(entries);
      }
      FullIdsAreDistinct(ttlHeap.items);
    }
  }

  /** As many ids as items: no id occurs twice. */
  lemma {:induction false} FullIdsAreDistinct(items: seq<Entry<string>>)
    ensures |Ids(items)| <= |items|
    ensures |Ids(items)| == |items| ==> DistinctIds(items)
  {
    if items != [] {
      var init, last := items[..|items| - 1], items[|items| - 1];
      FullIdsAreDistinct(init);
      assert items == init + [last];
      assert Ids(items) == Ids(init) + {last.id};
      assert last.id in Ids(init) ==> Ids(items) == Ids(init);
      assert forall i | 0 <= i < |init| :: init[i].id in Ids(init);
    }
  }

  /** The lounge as NewSwitchLounge sets it up. */
  method NewSwitchLounge() returns (sl: SwitchLounge)
    ensures sl.Valid() && fresh(sl) && fresh(sl.ttlHeap) && sl.View() == Lounge([], [], false)
    ensures sl.config == Config(65536, 65025, 300)
  {
    sl := new SwitchLounge(Config(SWITCH_ID_CACHE_MAX_ENTRIES, SWITCH_LOUNGE_SIZE, SWITCH_ID_CACHE_LIFETIME));
  }

  /** The dedup window with the configured constants, on messages: of two accepted ones with the same
      switch id and sequence number the second came at least 300 seconds later, or after 65535 other
      discoveries. */
  lemma SameMessageTwice(events: seq<Event<string, SwitchMessage>>, states: seq<Lounge<string, SwitchMessage>>, i: nat, j: nat)
    requires IsRun(Config(65536, 65025, 300), events, states) && ClockAdvances(events)
    requires forall k | 0 <= k < |events| && events[k].Write? :: events[k].id == GetDiscoveryId(events[k].msg)
    requires i < j < |events| && Accepts(events[i]) && Accepts(events[j])
    requires events[i].msg.payload.switchId == events[j].msg.payload.switchId
    requires events[i].msg.payload.discoverySeq == events[j].msg.payload.discoverySeq
    ensures events[j].now - events[i].now >= 300 || |OtherIds(events, j, events[i].now, events[i].id)| >= 65535
  {
    KeyIdentifies(events[i].msg, events[j].msg);
    hide IsRun, ClockAdvances, GetDiscoveryId, OtherIds;
    AcceptedTwice(Config(65536, 65025, 300), events, states, i, j);
  }

  /** And only a repetition is ever ignored: for every message that was a duplicate, one with the same
      switch id and sequence number was accepted before. */
  lemma OnlyRepeatsAreIgnored(c: Config, events: seq<Event<string, SwitchMessage>>, states: seq<Lounge<string, SwitchMessage>>, j: nat)
    returns (i: nat)
    requires IsRun(c, events, states) && j < |events| && events[j].Write? && events[j].outcome == Duplicate
    requires forall k | 0 <= k < |events| && events[k].Write? :: events[k].id == GetDiscoveryId(events[k].msg)
    ensures i < j && Accepts(events[i])
    ensures events[i].msg.payload.switchId == events[j].msg.payload.switchId
    ensures events[i].msg.payload.discoverySeq == events[j].msg.payload.discoverySeq
  {
    hide IsRun, GetDiscoveryId;
    i := DuplicateWasAccepted(c, events, states, j);
    KeyIdentifies(events[i].msg, events[j].msg);
  }
}
