/** The message objects that the switch passes between its loops, and their dedup key. */
module Messages {
  import opened Wrappers
  import opened Ttl
  import Decimal

  /** What net.ParseIP and IP.IsPrivate make of the address a message says it comes from. */
  datatype OriginalAddr = Unparsable | Public | Private

  /** The payload of a message. Every reference to it sees its TTL go down. */
  class DiscoveryMessage {
    const switchId: string
    const discoverySeq: nat
    const originalAddr: OriginalAddr
    var discoveryTtl: uint32

    constructor (switchId: string, discoverySeq: nat, ttl: uint32, originalAddr: OriginalAddr)
      ensures this.switchId == switchId && this.discoverySeq == discoverySeq
      ensures this.originalAddr == originalAddr && this.discoveryTtl == ttl
    {
      this.switchId := switchId;
      this.discoverySeq := discoverySeq;
      this.originalAddr := originalAddr;
      this.discoveryTtl := ttl;
    }
  }

  /** `sourceAddr` is nil for messages that did not come from a connection. */
  datatype SwitchMessage = SwitchMessage(sourceAddr: Option<string>, payload: DiscoveryMessage)

  /** The pair that identifies a message. */
  datatype PairId = PairId(switchId: string, seqNo: nat)

  function DiscoveryId(id: PairId): string {
    id.switchId + "_" + Decimal.Format(id.seqNo)
  }

  function PairOf(msg: SwitchMessage): PairId {
    PairId(msg.payload.switchId, msg.payload.discoverySeq)
  }

  function GetDiscoveryId(msg: SwitchMessage): string {
    DiscoveryId(PairOf(msg))
  }

  /** If the two sides split at different underscores, the longer tail contains one. */
  lemma LongerTailHasUnderscore(a: string, m: string, b: string, n: string)
    requires a + "_" + m == b + "_" + n && |n| > |m|
    ensures !Decimal.AllDigits(n)
  {
    var s := b + "_" + n;
    assert n[|a| - |b| - 1] == s[|a|] == (a + "_" + m)[|a|] == '_';
  }

  /** Distinct pairs have distinct ids, underscores in the switch id notwithstanding. */
  lemma DiscoveryIdIsInjective(x: PairId, y: PairId)
    requires DiscoveryId(x) == DiscoveryId(y)
    ensures x == y
  {
    var m, n := Decimal.Format(x.seqNo), Decimal.Format(y.seqNo);
    Decimal.FormatRoundTrip(x.seqNo);
    Decimal.FormatRoundTrip(y.seqNo);
    if |n| > |m| {
      LongerTailHasUnderscore(x.switchId, m, y.switchId, n);
    } else if |m| > |n| {
      LongerTailHasUnderscore(y.switchId, n, x.switchId, m);
    }
    var s := DiscoveryId(x);
    assert x.switchId == s[..|s| - |m| - 1] == y.switchId;
    assert m == s[|s| - |m|..] == n;
    Decimal.FormatIsInjective(x.seqNo, y.seqNo);
  }

  /** Issued by the same switch as the same discovery. */
  predicate SameOrigin(x: SwitchMessage, y: SwitchMessage) {
    x.payload.switchId == y.payload.switchId && x.payload.discoverySeq == y.payload.discoverySeq
  }

  /** The dedup key on the fields of messages: two messages have the same key if and only if they have
      the same switch id and the same sequence number, whatever else they carry. */
  lemma KeyIdentifies(x: SwitchMessage, y: SwitchMessage)
    ensures GetDiscoveryId(x) == GetDiscoveryId(y) <==>
      x.payload.switchId == y.payload.switchId && x.payload.discoverySeq == y.payload.discoverySeq
  {
    if GetDiscoveryId(x) == GetDiscoveryId(y) { DiscoveryIdIsInjective(PairOf(x), PairOf(y)); }
  }

  /** How the key is spelled: the switch id, an underscore, and the digits of the sequence number
      without leading zeros. */
  lemma KeyIsSpelled(msg: SwitchMessage, digits: string)
    ensures GetDiscoveryId(msg) == msg.payload.switchId + "_" + digits <==>
      && digits != "" && Decimal.AllDigits(digits) && (digits[0] == '0' ==> |digits| == 1)
      && Decimal.Value(digits) == msg.payload.discoverySeq
  {
    var prefix, n := msg.payload.switchId + "_", Decimal.Format(msg.payload.discoverySeq);
    Decimal.FormatExactly(msg.payload.discoverySeq, digits);
    if prefix + n == prefix + digits {
      assert n == (prefix + n)[|prefix|..] == digits;
    }
  }
}
