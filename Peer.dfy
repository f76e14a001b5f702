/**
 * A running peer: the six fields of the chat process, the listener's
 * handling of one accepted connection, and the local actions of the menu.
 * Each method returns the outbound connections it opens, in order, as
 * (destination port, message) pairs instead of writing to sockets.
 */
module Peers {
  import opened Codec
  import opened Protocol

  class Peer {
    const alias: string
    const myPort: int
    var ipSuccessor: string
    var portSuccessor: int
    var ipPredecessor: string
    var portPredecessor: int

    /** The peer's fields as a value. */
    function State(): PeerState
      reads this
    {
      PeerState(alias, myPort, ipSuccessor, portSuccessor, ipPredecessor, portPredecessor)
    }

    /** Process start: the peer forms a ring of its own. */
    constructor (alias: string, myPort: int)
      ensures this.alias == alias && this.myPort == myPort
      ensures ipSuccessor == Localhost && portSuccessor == myPort
      ensures ipPredecessor == Localhost && portPredecessor == myPort
      ensures State() == Init(alias, myPort)
    {
      this.alias := alias;
      this.myPort := myPort;
      ipSuccessor := Localhost;
      portSuccessor := myPort;
      ipPredecessor := Localhost;
      portPredecessor := myPort;
    }

    // -------------------------------------------------------------------
    // Inbound messages, one method per branch of the listener.

    /** A candidate asks to be inserted just before this peer.  The joiner's
        alias is read but not used. */
    method OnJoin(joinerAlias: string, port: int) returns (sends: seq<Send>)
      modifies this
      ensures sends == [Send(port, Accept(old(ipPredecessor), old(portPredecessor))),
                        Send(old(portPredecessor), NewSuccessor(Localhost, port))]
      ensures ipPredecessor == Localhost && portPredecessor == port
      ensures ipSuccessor == old(ipSuccessor) && portSuccessor == old(portSuccessor)
    {
      var accept := Accept(ipPredecessor, portPredecessor);
      var newSuccessor := NewSuccessor(Localhost, port);
      sends := [Send(port, accept), Send(portPredecessor, newSuccessor)];
      ipPredecessor := Localhost;
      portPredecessor := port;
    }

    /** The join target tells this (joining) peer who its predecessor is. */
    method OnAccept(ip: string, port: int)
      modifies this
      ensures ipPredecessor == ip && portPredecessor == port
      ensures ipSuccessor == old(ipSuccessor) && portSuccessor == old(portSuccessor)
    {
      ipPredecessor := ip;
      portPredecessor := port;
    }

    method OnNewSuccessor(ip: string, port: int)
      modifies this
      ensures ipSuccessor == ip && portSuccessor == port
      ensures ipPredecessor == old(ipPredecessor) && portPredecessor == old(portPredecessor)
    {
      ipSuccessor := ip;
      portSuccessor := port;
    }

    /** The peer before this one leaves; `ipPred`/`portPred` are its own
        predecessor, which now becomes this peer's. */
    method OnLeave(ipPred: string, portPred: int) returns (sends: seq<Send>)
      modifies this
      ensures ipPredecessor == ipPred && portPredecessor == portPred
      ensures ipSuccessor == old(ipSuccessor) && portSuccessor == old(portSuccessor)
      ensures sends == [Send(portPred, NewSuccessor(Localhost, myPort))]
    {
      ipPredecessor := ipPred;
      portPredecessor := portPred;
      sends := [Send(portPred, NewSuccessor(Localhost, myPort))];
    }

    /** Flooding: a message of this peer's own alias has gone round the ring
        unclaimed, which is checked before whether it is addressed here;
        anything else is passed on unchanged to the successor. */
    method OnPut(aliasSender: string, aliasReceiver: string, message: string)
      returns (sends: seq<Send>, outcome: Outcome)
      ensures aliasSender == alias ==> outcome == FullCircle && sends == []
      ensures aliasSender != alias && aliasReceiver == alias ==>
        outcome == Delivered(aliasSender, message) && sends == []
      ensures aliasSender != alias && aliasReceiver != alias ==>
        outcome == Silent && sends == [Send(portSuccessor, Put(aliasSender, aliasReceiver, message))]
    {
      if aliasSender == alias {
        sends, outcome := [], FullCircle;
      } else if aliasReceiver == alias {
        sends, outcome := [], Delivered(aliasSender, message);
      } else {
        sends, outcome := [Send(portSuccessor, Put(aliasSender, aliasReceiver, message))], Silent;
      }
    }

    /** One iteration of the accept loop: read the object, then run the
        branch whose type it names.  The branches are independent tests of
        the one type, so at most one runs; a type without a branch is
        ignored. */
    method Serve(v: Json) returns (sends: seq<Send>, outcome: Outcome)
      modifies this
      ensures match Decode(v)
        case Decoded(m) =>
          var r := Receive(old(State()), m);
          State() == r.state && sends == r.sends && outcome == r.outcome
        case Unrecognised(_) => State() == old(State()) && sends == [] && outcome == Silent
        case Malformed => State() == old(State()) && sends == [] && outcome == Unreadable
    {
      sends, outcome := [], Silent;
      var d := Decode(v);
      if d.Malformed? {
        outcome := Unreadable;
        return;
      }
      if d.Unrecognised? {
        return;
      }
      var m := d.msg;
      if m.Join? {
        sends := OnJoin(m.alias, m.port);
      }
      if m.Accept? {
        OnAccept(m.ipPred, m.portPred);
      }
      if m.NewSuccessor? {
        OnNewSuccessor(m.ip, m.port);
      }
      if m.Put? {
        sends, outcome := OnPut(m.sender, m.receiver, m.body);
      }
      if m.Leave? {
        sends := OnLeave(m.ipPred, m.portPred);
      }
    }

    // -------------------------------------------------------------------
    // Local actions of the menu.

    /** Ask `port` to let this peer in, and take it as successor at once,
        without waiting for the ACCEPT. */
    method InitiateJoin(port: int) returns (sends: seq<Send>)
      modifies this
      ensures sends == [Send(port, Join(alias, myPort))]
      ensures ipSuccessor == Localhost && portSuccessor == port
      ensures ipPredecessor == old(ipPredecessor) && portPredecessor == old(portPredecessor)
    {
      sends := [Send(port, Join(alias, myPort))];
      portSuccessor := port;
      ipSuccessor := Localhost;
    }

    /** Report the alias and both neighbours' ports. */
    method Query() returns (a: string, successor: int, predecessor: int)
      ensures a == alias && successor == portSuccessor && predecessor == portPredecessor
    {
      a, successor, predecessor := alias, portSuccessor, portPredecessor;
    }

    /** Start a flood: a PUT from this peer's alias to its successor. */
    method InitiateSend(receiver: string, message: string) returns (sends: seq<Send>)
      ensures sends == [Send(portSuccessor, Put(alias, receiver, message))]
    {
      sends := [Send(portSuccessor, Put(alias, receiver, message))];
    }

    /** Hand this peer's predecessor to its successor; nothing local changes. */
    method InitiateLeave() returns (sends: seq<Send>)
      ensures sends == [Send(portSuccessor, Leave(ipPredecessor, portPredecessor))]
    {
      sends := [Send(portSuccessor, Leave(ipPredecessor, portPredecessor))];
    }
  }
}
