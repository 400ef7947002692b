/** The 32-bit hop counter of a discovery message and the passes that decrement it. */
module Ttl {
  type uint32 = x: int | 0 <= x < 0x1_0000_0000

  const MAX_DISCOVERY_MESSAGE_TTL: uint32 := 255

  /** `DiscoveryTtl--` on an unsigned 32-bit field: 0 wraps to 2^32 - 1. */
  function Decrement(ttl: uint32): uint32 {
    if ttl == 0 then 0xFFFF_FFFF else ttl - 1
  }

  /** The field after `n` decrements. */
  function DecrementBy(ttl: uint32, n: nat): uint32 {
    if n == 0 then ttl else Decrement(DecrementBy(ttl, n - 1))
  }

  /** How many of the first `n` iterations of the forwarding loop send:
      the test `DiscoveryTtl <= 0` skips exactly the iterations that reach 0. */
  function Sends(ttl: uint32, n: nat): nat {
    if n == 0 then 0
    else Sends(ttl, n - 1) + if DecrementBy(ttl, n) == 0 then 0 else 1
  }

  lemma {:induction false} DecrementByIsModular(ttl: uint32, n: nat)
    ensures DecrementBy(ttl, n) == (ttl - n) % 0x1_0000_0000
  {
    if n > 0 {
      DecrementByIsModular(ttl, n - 1);
    }
  }

  /** Exact outcome of a forwarding pass over fewer than 2^32 connections: every target is
      served when the counter exceeds the number of targets or has already reached 0 (it wraps),
      and otherwise exactly one target, the one at which the counter hits 0, is passed over. */
  lemma {:induction false} PassOutcome(ttl: uint32, n: nat)
    requires n < 0x1_0000_0000
    ensures DecrementBy(ttl, n) == (ttl - n) % 0x1_0000_0000
    ensures Sends(ttl, n) == if ttl > n || ttl == 0 then n else n - 1
  {
    DecrementByIsModular(ttl, n);
    if n > 0 {
      PassOutcome(ttl, n - 1);
    }
  }

  /** A pass over `n` connections costs a message one hop, as a TTL is documented to work, if and only
      if there is exactly one connection to serve. */
  lemma PassCostsOneHop(ttl: uint32, n: nat)
    requires n < 0x1_0000_0000
    ensures DecrementBy(ttl, n) == Decrement(ttl) <==> n == 1
  {
    DecrementByIsModular(ttl, n);
  }

  /** Which iteration is passed over: the `ttl`-th, and no other. */
  lemma SkippedIteration(ttl: uint32, i: nat)
    requires 0 < i < 0x1_0000_0000
    ensures DecrementBy(ttl, i) == 0 <==> i == ttl
  {
    DecrementByIsModular(ttl, i);
  }

  /** The message is shared by all send channels, so the `i`-th target's copy is serialised after
      some number `j` of decrements with `i <= j <= n`; that this is so is proved of the network in
      FloodHops.ForwardedTtl. With `ttl > n` it then carries a value in [ttl - n, ttl - i]: never 0,
      never wrapped, and below the value that arrived. */
  lemma SerialisedTtl(ttl: uint32, n: nat, i: nat, j: nat)
    requires ttl > n && 1 <= i <= j <= n
    ensures ttl - n <= DecrementBy(ttl, j) <= ttl - i
    ensures 0 < DecrementBy(ttl, j) < ttl
  {
    DecrementByIsModular(ttl, j);
  }
}
