/** A fixed multigraph of switch nodes. */
module Topology {
  type Node = nat

  /** A TCP connection between two switches; `serial` tells parallel connections apart, and a node
      may be connected to itself. */
  datatype Link = Link(dialer: Node, acceptor: Node, serial: nat)

  /** One end of a connection. */
  datatype Port = Port(link: Link, dialing: bool) {
    function Owner(): Node {
      if dialing then link.dialer else link.acceptor
    }

    function Peer(): Port {
      Port(link, !dialing)
    }

    /** The node at the other end. */
    function Far(): Node {
      Peer().Owner()
    }
  }

  /** `window` is how many messages each direction of a link takes before its sender has to wait. */
  datatype Net = Net(nodes: set<Node>, links: set<Link>, window: nat) {
    ghost predicate Valid() {
      window >= 1 && forall l <- links :: l.dialer in nodes && l.acceptor in nodes
    }

    ghost function Ports(): set<Port> {
      set l, b | l in links && b in {false, true} :: Port(l, b)
    }

    /** The connections of node `v`, each named by its own end; their number is the degree of `v`. */
    ghost function PortsOf(v: Node): set<Port> {
      set p | p in Ports() && p.Owner() == v
    }

    /** `path` leads from `a` to `b`, each port leaving the node reached so far. */
    ghost predicate IsPath(a: Node, path: seq<Port>, b: Node)
      decreases |path|
    {
      if path == [] then a == b
      else path[0] in Ports() && path[0].Owner() == a && IsPath(path[0].Far(), path[1..], b)
    }

    ghost predicate Connected(a: Node, b: Node) {
      exists path :: IsPath(a, path, b)
    }
  }
}
