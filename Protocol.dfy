/**
 * One peer of the ring as a value: its identity, its two neighbour pointers,
 * and the reaction to each inbound message and each local action.  This is
 * the specification that the `Peer` class is proved against and that the
 * ring-level reasoning in module `Ring` is built on.
 */
module Protocol {
  import opened Codec

  /** Every outbound connection goes to this host, so only ports route. */
  const Localhost: string := "localhost"

  datatype PeerState = PeerState(
    alias: string,
    myPort: int,
    ipSuccessor: string,
    portSuccessor: int,
    ipPredecessor: string,
    portPredecessor: int)

  /** One outbound connection carrying one message to a port. */
  datatype Send = Send(port: int, msg: Msg)

  /** What a peer reports to its user: nothing, a message addressed to it,
      a message of its own that came back unclaimed, or an object it could
      not read. */
  datatype Outcome =
    | Silent
    | Delivered(sender: string, body: string)
    | FullCircle
    | Unreadable

  datatype Reaction = Reaction(state: PeerState, sends: seq<Send>, outcome: Outcome)

  /** The local actions of the interactive front end that touch the ring. */
  datatype Action =
    | JoinVia(target: int)
    | SendTo(receiver: string, body: string)
    | LeaveRing

  /** A freshly started peer: its own successor and predecessor. */
  function Init(alias: string, myPort: int): PeerState
  {
    PeerState(alias, myPort, Localhost, myPort, Localhost, myPort)
  }

  /** The handler of one inbound message. */
  function Receive(s: PeerState, m: Msg): (r: Reaction)
    ensures r.state.alias == s.alias && r.state.myPort == s.myPort
    ensures r.outcome != Unreadable && (r.outcome != Silent ==> m.Put? && r.sends == [])
    ensures m.Put? ==> r.state == s
    ensures !m.NewSuccessor? ==> r.state.ipSuccessor == s.ipSuccessor && r.state.portSuccessor == s.portSuccessor
    ensures m.NewSuccessor? || m.Put? ==>
      r.state.ipPredecessor == s.ipPredecessor && r.state.portPredecessor == s.portPredecessor
    ensures m.Accept? || m.NewSuccessor? ==> r.sends == []
  {
    match m
    case Join(_, port) =>
      // Both replies are built from the predecessor before it is replaced.
      Reaction(s.(ipPredecessor := Localhost, portPredecessor := port),
               [Send(port, Accept(s.ipPredecessor, s.portPredecessor)),
                Send(s.portPredecessor, NewSuccessor(Localhost, port))],
               Silent)
    case Accept(ip, port) =>
      Reaction(s.(ipPredecessor := ip, portPredecessor := port), [], Silent)
    case NewSuccessor(ip, port) =>
      Reaction(s.(ipSuccessor := ip, portSuccessor := port), [], Silent)
    case Leave(ip, port) =>
      Reaction(s.(ipPredecessor := ip, portPredecessor := port),
               [Send(port, NewSuccessor(Localhost, s.myPort))],
               Silent)
    case Put(sender, receiver, body) =>
      if sender == s.alias then Reaction(s, [], FullCircle)
      else if receiver == s.alias then Reaction(s, [], Delivered(sender, body))
      else Reaction(s, [Send(s.portSuccessor, m)], Silent)
  }

  /** A local action: each sends exactly one message to a neighbour or to
      the join target; only joining changes the peer (its successor). */
  function Act(s: PeerState, a: Action): (r: Reaction)
    ensures r.outcome == Silent && |r.sends| == 1
    ensures r.state.alias == s.alias && r.state.myPort == s.myPort
    ensures r.state.ipPredecessor == s.ipPredecessor && r.state.portPredecessor == s.portPredecessor
    ensures !a.JoinVia? ==> r.state == s && r.sends[0].port == s.portSuccessor
  {
    match a
    case JoinVia(target) =>
      Reaction(s.(ipSuccessor := Localhost, portSuccessor := target),
               [Send(target, Join(s.alias, s.myPort))], Silent)
    case SendTo(receiver, body) =>
      Reaction(s, [Send(s.portSuccessor, Put(s.alias, receiver, body))], Silent)
    case LeaveRing =>
      Reaction(s, [Send(s.portSuccessor, Leave(s.ipPredecessor, s.portPredecessor))], Silent)
  }
}
