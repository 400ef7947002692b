/** The table of TCP connections and their send channels. */
module ConnectionHub {
  import opened Wrappers
  import opened Sequences
  import opened Messages
  import opened Configs

  class TcpConn {
    const remoteAddr: string
    var open: bool

    constructor (remoteAddr: string)
      ensures this.remoteAddr == remoteAddr && open
    {
      this.remoteAddr := remoteAddr;
      open := true;
    }

    method Close()
      modifies this
      ensures !open
    {
      open := false;
    }
  }

  /** A Go channel of messages; closing it twice, or sending on it once closed, would panic. */
  class SendChan {
    var queue: seq<SwitchMessage>
    var closed: bool

    constructor ()
      ensures queue == [] && !closed
    {
      queue := [];
      closed := false;
    }

    method Send(msg: SwitchMessage)
      requires !closed
      modifies this`queue
      ensures queue == old(queue) + [msg]
    {
      queue := queue + [msg];
    }

    method Close()
      requires !closed
      modifies this`closed
      ensures closed
    {
      closed := true;
    }
  }

  datatype ConnWithChan = ConnWithChan(conn: TcpConn, sendChan: SendChan)

  datatype AddResult = Added(sendChan: SendChan) | ErrExists | ErrTooMany

  type Conns = map<string, ConnWithChan>

  function Excluded(remoteAddr: Option<string>): set<string> {
    if remoteAddr.Some? then {remoteAddr.value} else {}
  }

  /** `r` lists the connections filed under `keys`, each once. */
  ghost predicate Lists(conns: Conns, keys: seq<string>, r: seq<ConnWithChan>) {
    Distinct(keys) && |r| == |keys| && forall i | 0 <= i < |r| :: keys[i] in conns && r[i] == conns[keys[i]]
  }

  lemma ListsNothing(conns: Conns)
    ensures Lists(conns, [], [])
  {}

  lemma ListsOneMore(conns: Conns, keys: seq<string>, r: seq<ConnWithChan>, a: string)
    requires Lists(conns, keys, r) && a in conns && a !in Elements(keys)
    ensures Lists(conns, keys + [a], r + [conns[a]]) && Elements(keys + [a]) == Elements(keys) + {a}
  {}

  /** `c` is the send channel of a connection in the table. */
  ghost predicate InTable(conns: Conns, c: SendChan) {
    exists a :: a in conns && conns[a].sendChan == c
  }

  lemma TableWith(conns: Conns, a: string, cwc: ConnWithChan, c: SendChan)
    requires a !in conns
    ensures InTable(conns[a := cwc], c) <==> InTable(conns, c) || c == cwc.sendChan
  {
    var conns' := conns[a := cwc];
    assert conns'[a] == cwc;
    if b :| b in conns && conns[b].sendChan == c { assert conns'[b].sendChan == c; }
  }

  lemma TableWithout(conns: Conns, a: string, c: SendChan)
    requires a in conns && OwnChannels(conns)
    ensures InTable(conns - {a}, c) <==> InTable(conns, c) && c != conns[a].sendChan
  {
    if b :| b in conns && conns[b].sendChan == c && b != a { assert (conns - {a})[b].sendChan == c; }
  }

  lemma OwnChannelsWith(conns: Conns, a: string, cwc: ConnWithChan)
    requires a !in conns && OwnChannels(conns) && !InTable(conns, cwc.sendChan)
    ensures OwnChannels(conns[a := cwc])
  {}

  ghost predicate OwnChannels(conns: Conns) {
    forall a, b | a in conns && b in conns && a != b :: conns[a].sendChan != conns[b].sendChan
  }

  lemma ListsAll(conns: Conns, keys: seq<string>, r: seq<ConnWithChan>, remoteAddr: Option<string>)
    requires Lists(conns, keys, r) && Elements(keys) == conns.Keys - Excluded(remoteAddr) && OwnChannels(conns)
    ensures forall x :: x in r <==> exists a :: a in conns && Some(a) != remoteAddr && conns[a] == x
    ensures forall i, j | 0 <= i < j < |r| :: r[i].sendChan != r[j].sendChan
    ensures |r| == |conns| - if remoteAddr.Some? && remoteAddr.value in conns then 1 else 0
  {
    DistinctCardinality(keys);
    assert |r| == |conns.Keys - Excluded(remoteAddr)|;
    forall a | a in conns && Some(a) != remoteAddr ensures conns[a] in r {
      assert a in Elements(keys);
      var i :| 0 <= i < |keys| && keys[i] == a;
      assert r[i] == conns[a];
    }
    forall x <- r ensures exists a :: a in conns && Some(a) != remoteAddr && conns[a] == x {
      var i :| 0 <= i < |r| && r[i] == x;
      assert keys[i] in Elements(keys);
    }
  }

  class TCPConnectionHub {
    var conns: map<string, ConnWithChan>
    ghost var issued: set<SendChan>   // every channel ever created

    /** Connections are filed under their own address, at most 2550 of them, each with a channel of
        its own; and a channel is open exactly while its connection is in the table. */
    ghost predicate Valid()
      reads this, issued`closed
    {
      && |conns| <= MAX_TCP_CONNECTIONS
      && (forall a <- conns :: conns[a].conn.remoteAddr == a && conns[a].sendChan in issued)
      && OwnChannels(conns)
      && (forall c <- issued :: !c.closed <==> InTable(conns, c))
    }

    constructor ()
      ensures Valid() && conns == map[] && issued == {}
    {
      conns := map[];
      issued := {};
    }

    method AddConnection(conn: TcpConn) returns (r: AddResult)
      requires Valid()
      modifies this
      ensures Valid()
      ensures r.ErrExists? <==> conn.remoteAddr in old(conns)
      ensures r.ErrTooMany? <==> conn.remoteAddr !in old(conns) && |old(conns)| == 2550
      ensures !r.Added? ==> conns == old(conns) && issued == old(issued)
      ensures r.Added? ==> fresh(r.sendChan) && r.sendChan.queue == [] && issued == old(issued) + {r.sendChan}
                           && conns == old(conns)[conn.remoteAddr := ConnWithChan(conn, r.sendChan)]
    {
      var remoteAddr := conn.remoteAddr;
      if remoteAddr in conns {
        return ErrExists;
      }
      if |conns| >= MAX_TCP_CONNECTIONS {
        return ErrTooMany;
      }
      var sendChan := new SendChan();
      var cwc := ConnWithChan(conn, sendChan);
      forall c { TableWith(conns, remoteAddr, cwc, c); }
      OwnChannelsWith(conns, remoteAddr, cwc);
      hide InTable, OwnChannels;
      conns := conns[remoteAddr := cwc];
      issued := issued + {sendChan};
      return Added(sendChan);
    }

    /** Removal goes by address: the channel closed is the one filed under it. */
    method RemoveConnection(conn: TcpConn)
      requires Valid()
      modifies this`conns
      modifies set a | a in conns && a == conn.remoteAddr :: conns[a].conn
      modifies (set a | a in conns && a == conn.remoteAddr :: conns[a].sendChan)`closed
      ensures Valid() && issued == old(issued)
      ensures conns == old(conns) - {conn.remoteAddr}
      ensures conn.remoteAddr in old(conns) ==>
                old(conns)[conn.remoteAddr].sendChan.closed && !old(conns)[conn.remoteAddr].conn.open
    {
      var remoteAddr := conn.remoteAddr;
      if remoteAddr in conns {
        var cwc := conns[remoteAddr];
        assert InTable(conns, cwc.sendChan);
        forall c { TableWithout(conns, remoteAddr, c); }
        assert OwnChannels(conns - {remoteAddr});
        hide InTable, OwnChannels;
        cwc.sendChan.Close();
        cwc.conn.Close();
        conns := conns - {remoteAddr};
      }
    }

    /** A snapshot of the table without the connection from `remoteAddr`, in no particular order. */
    method GetConnectionsExcept(remoteAddr: Option<string>) returns (r: seq<ConnWithChan>)
      requires Valid()
      ensures forall x :: x in r <==> exists a :: a in conns && Some(a) != remoteAddr && conns[a] == x
      ensures forall i, j | 0 <= i < j < |r| :: r[i].sendChan != r[j].sendChan
      ensures |r| == |conns| - if remoteAddr.Some? && remoteAddr.value in conns then 1 else 0
      ensures forall i | 0 <= i < |r| :: !r[i].sendChan.closed && r[i].sendChan in issued
    {
      r := [];
      var rest := conns.Keys;
      ghost var keys: seq<string> := [];
      ListsNothing(conns);
      hide Lists;
      while rest != {}
        invariant rest <= conns.Keys
        invariant Lists(conns, keys, r) && Elements(keys) == conns.Keys - rest - Excluded(remoteAddr)
        decreases rest
      {
        var addr :| addr in rest;
        if remoteAddr == None || addr != remoteAddr.value {
          ListsOneMore(conns, keys, r, addr);
          r := r + [conns[addr]];
          keys := keys + [addr];
        }
        rest := rest - {addr};
      }
      ListsAll(conns, keys, r, remoteAddr);
      forall i | 0 <= i < |r| ensures !r[i].sendChan.closed && r[i].sendChan in issued {
        assert r[i] in r;
        var a :| a in conns && conns[a] == r[i];
        assert InTable(conns, r[i].sendChan);
      }
    }
  }
}
