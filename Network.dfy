/**
 * The running peers of one host and the connections between them: each
 * peer object is reached through the port it listens on, every message
 * travels as the JSON object its builder writes, and the receiving peer's
 * listener reads it back.  Every operation is proved to act on the peers'
 * states exactly as module `Ring` says.
 */
module Network {
  import opened Codec
  import opened Protocol
  import opened Peers
  import Ring

  class Network {
    var peers: map<int, Peer>
    var queue: seq<Send>
    var log: seq<Ring.Event>

    /** Each peer is filed under its own port, so no object is filed twice. */
    ghost predicate Valid()
      reads this
    {
      forall p :: p in peers ==> peers[p].myPort == p
    }

    /** The host as a value. */
    function Snapshot(): Ring.Net
      reads this, peers.Values
    {
      Ring.Net(map p | p in peers :: peers[p].State(), queue, log)
    }

    constructor ()
      ensures Valid() && Snapshot() == Ring.Net(map[], [], [])
    {
      peers, queue, log := map[], [], [];
    }

    /** A new process starts listening on `port`, alone in its ring. */
    method Start(alias: string, port: int)
      requires Valid() && port !in peers
      modifies this
      ensures Valid() && port in peers && fresh(peers[port]) && peers == old(peers)[port := peers[port]]
      ensures Snapshot() == Ring.Start(old(Snapshot()), alias, port)
    {
      var peer := new Peer(alias, port);
      peers := peers[port := peer];
      assert forall p :: p in old(peers) ==> peers[p] == old(peers[p]) && peers[p].State() == old(peers[p].State());
    }

    /** The peer on `port` performs a local action of its menu. */
    method Perform(port: int, a: Action)
      requires Valid() && port in peers
      modifies this, peers[port]
      ensures Valid() && peers == old(peers)
      ensures Snapshot() == Ring.Perform(old(Snapshot()), port, a)
    {
      var peer := peers[port];
      var sends: seq<Send>;
      match a {
        case JoinVia(target) =>
          sends := peer.InitiateJoin(target);
        case SendTo(receiver, body) =>
          sends := peer.InitiateSend(receiver, body);
        case LeaveRing =>
          sends := peer.InitiateLeave();
      }
      queue := queue + sends;
      assert forall p :: p in peers && p != port ==> peers[p] != peer;
    }

    /** The oldest pending connection is accepted by the peer on its port,
        which reads the object and runs its handler. */
    method DeliverNext()
      requires Valid()
      modifies this, peers.Values
      ensures Valid() && peers == old(peers)
      ensures Snapshot() == Ring.DeliverNext(old(Snapshot()))
    {
      if queue == [] {
        return;
      }
      var s := queue[0];
      queue := queue[1..];
      if s.port !in peers {
        return;
      }
      var peer := peers[s.port];
      var sends, outcome := peer.Serve(Encode(s.msg));
      queue := queue + sends;
      log := Ring.Record(log, s.port, outcome);
      assert forall p :: p in peers && p != s.port ==> peers[p] != peer;
    }

    /** The listeners' loops, run for `steps` deliveries. */
    method Deliver(steps: nat)
      requires Valid()
      modifies this, peers.Values
      ensures Valid() && peers == old(peers)
      ensures Snapshot() == Ring.Run(old(Snapshot()), steps)
    {
      for i := 0 to steps
        invariant Valid() && peers == old(peers)
        invariant Snapshot() == Ring.Run(old(Snapshot()), i)
      {
        DeliverNext();
      }
    }
  }
}
