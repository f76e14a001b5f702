# Distributed chat ring — a Dafny model

`Chat.java` is a peer of a self-organising ring overlay: peers join and leave
through one another, and chat messages addressed by alias are flooded from
successor to successor until the addressee or the originator is reached.
Every peer runs a listener that accepts one connection per message and a
menu loop for local actions; all connections go to `localhost`, so a peer
is identified by its listening port.

This project models the protocol core underneath the sockets:

- `Codec.dfy` — the five message builders, which write a JSON object
  `{"type": tag, "parameters": {...}}` (an object in the sense of RFC 8259,
  section 4, modelled as a map from member name to value), and the listener's
  reading of such an object with fixed key names. Reading what a builder wrote
  gives back the same message, and the reader accepts exactly the objects that
  carry the builder's members (`DecodeExactlyCarries`). The key names are kept
  as written, including LEAVE's `portPredecessor` where ACCEPT has `portPred`.
- `Protocol.dfy` — a peer as a value (`PeerState`: alias, own port, successor
  and predecessor as ip and port), the reaction to each inbound message
  (`Receive`) and to each local action (`Act`), each returning the new state,
  the outbound (port, message) sends in order, and what the peer reports.
- `Peer.dfy` — the peer object itself (`Peers.Peer`): the six fields, the
  start-up state (a ring of one), one method per branch of the listener, the
  listener's handling of one received object (`Serve`), and the menu's join,
  query, send and leave.
- `Ring.dfy` — several peers on one host as a value: a map from port to peer,
  a FIFO queue of pending sends and a log of what peers reported. Delivering
  queued sends one at a time gives the ring-level effects: joining inserts the
  newcomer before its target, leaving removes the leaver with nobody pointing
  at it, and a chat message stops at the first peer with the sender's or the
  receiver's alias, within N hops on a ring of N peers.
- `Network.dfy` — the same host with real peer objects (`map<int, Peer>`);
  each delivery encodes the message with its builder and has the receiving
  peer's `Serve` read it back. Its operations are proved to act exactly as the
  value model in `Ring.dfy`.

## Model

| member | source | states |
|---|---|---|
| `Codec.CreateJoinMsg` | Chat.java:45-55 | the JOIN object is read back by the listener as JOIN with the same alias and port |
| `Codec.CreateAcceptMsg` | Chat.java:64-74 | the ACCEPT object is read back as ACCEPT with the same predecessor ip and port |
| `Codec.CreateNewSuccessorMsg` | Chat.java:83-93 | the NEWSUCCESSOR object is read back as NEWSUCCESSOR with the same ip and port |
| `Codec.CreateLeaveMsg` | Chat.java:102-113 | the LEAVE object, whose port key is "portPredecessor", is read back as LEAVE with the same ip and port |
| `Codec.CreatePutMsg` | Chat.java:124-134 | the PUT object is read back as PUT with the same sender, receiver and text |
| `Codec.Encode` | Chat.java:45-134 | every message's object is read back as that message, and has a string "type" holding its tag and an object "parameters" |
| `Codec.GetString` | Chat.java:171 | a string member is read when present with a string value, and fails otherwise |
| `Codec.GetInt` | Chat.java:172 | a number member is read when present with a number value, and fails otherwise |
| `Codec.GetObject` | Chat.java:171 | the "parameters" object is read when present as an object, and fails otherwise |
| `Codec.Decode` | Chat.java:162-301 | a handled message comes from an object whose "type" is its tag; an object is ignored exactly when its "type" is a string outside the five tags, whatever its "parameters" |
| `Codec.DecodeParameters` | Chat.java:171-301 | for one of the five tags, the branch yields a message of that tag's own type or fails as unreadable, never an ignored type (which keys each branch reads is stated for `Decode` by `DecodeExactlyCarries`) |
| `Codec.DecodeExactlyCarries` | Chat.java:45-301 | the listener reads message m out of an object if and only if the object holds the type and every parameter the builder writes for m, under the same keys |
| `Codec.LeaveAndAcceptKeysDiffer` | Chat.java:102-113 | ACCEPT's parameters under the LEAVE tag, and LEAVE's under the ACCEPT tag, cannot be read: the port keys differ |
| `Protocol.Receive` | Chat.java:165-322 | alias and port never change; only PUT reports anything, and then sends nothing; PUT changes nothing; only NEWSUCCESSOR changes the successor and it keeps the predecessor; ACCEPT and NEWSUCCESSOR send nothing |
| `Protocol.Act` | Chat.java:369-459 | each local action sends exactly one message and never changes the predecessor; send and leave change nothing and go to the successor |
| `Peers.Peer.constructor` | Chat.java:474-483 | a new peer has successor and predecessor both ("localhost", own port), that is, the state `Protocol.Init` of the value model |
| `Peers.Peer.OnJoin` | Chat.java:165-203 | sends ACCEPT(old predecessor) to the joiner's port, then NEWSUCCESSOR("localhost", joiner's port) to the old predecessor's port, both from the predecessor before it is replaced; sets the predecessor to ("localhost", joiner's port); keeps the successor |
| `Peers.Peer.OnAccept` | Chat.java:207-225 | sets the predecessor to the message's ip and port, keeps the successor, sends nothing |
| `Peers.Peer.OnNewSuccessor` | Chat.java:226-241 | sets the successor to the message's ip and port, keeps the predecessor, sends nothing |
| `Peers.Peer.OnPut` | Chat.java:245-289 | own alias as sender: full circle, no send (even when also the receiver); else own alias as receiver: delivered, no send; else the same sender, receiver and text forwarded to the successor's port |
| `Peers.Peer.OnLeave` | Chat.java:294-322 | sets the predecessor to the message's ip and port, keeps the successor, sends NEWSUCCESSOR("localhost", own port) to that port |
| `Peers.Peer.Serve` | Chat.java:152-324 | one accepted object: a message of one of the five types has exactly the effect of `Protocol.Receive`; another type changes and sends nothing; an unreadable object changes and sends nothing |
| `Peers.Peer.InitiateJoin` | Chat.java:369-397 | sends JOIN(alias, own port) to the target and takes ("localhost", target) as successor before any ACCEPT; keeps the predecessor |
| `Peers.Peer.Query` | Chat.java:399-405 | reports the alias, the successor's port and the predecessor's port |
| `Peers.Peer.InitiateSend` | Chat.java:407-431 | sends PUT(own alias, receiver, text) to the successor's port and changes nothing |
| `Peers.Peer.InitiateLeave` | Chat.java:433-459 | sends LEAVE(predecessor ip, predecessor port) to the successor's port and changes nothing |
| `Ring.DeliverNext` | Chat.java:152-162 | one delivery keeps the set of ports, keeps every peer filed under its own port, changes no peer but the addressee, and does nothing on an empty queue |
| `Ring.Run` | Chat.java:152-324 | any number of deliveries keeps the set of ports and the filing by port, and does nothing on an empty queue |
| `Ring.Perform` | Chat.java:369-459 | a local action changes only the acting peer, appends exactly one send to the queue and logs nothing |
| `Ring.Start` | Chat.java:474-483 | a peer that starts up is a consistent ring of one and leaves every other peer as it was |
| `Ring.RingRotation` | Chat.java:7-9 | a consistent ring listed from any member is still a consistent ring |
| `Ring.RingAfter` | Chat.java:7-9 | a consistent ring listed from the successor of any member on is a consistent ring ending with that member |
| `Ring.FollowAround` | Chat.java:7-9 | on a consistent ring of N peers, following successors N times from any member returns to it |
| `Ring.AfterJoin` | Chat.java:171-240 | the four pointer writes of a join of C via T change only C's two pointers, T's predecessor (to C) and the successor of T's old predecessor (to C); C's predecessor becomes T's old one |
| `Ring.JoinDelivers` | Chat.java:378-390 | on a consistent ring, a join via a member followed by three deliveries ends with exactly the pointers of `AfterJoin`, nothing pending and nothing logged |
| `Ring.JoinInserts` | Chat.java:171-240 | a peer C outside a consistent ring joins via member P; after JOIN, ACCEPT and NEWSUCCESSOR are delivered, old predecessor of P → C → P is a consistent ring with matching predecessors, nothing is pending and no other peer changed |
| `Ring.JoinInsertsAt` | Chat.java:171-240 | the same for a join via any member of the ring: the newcomer ends up in the consistent ring just before that member, with nothing pending and nothing logged |
| `Ring.AfterLeave` | Chat.java:300-320 | the two messages of a leave rewire only the leaver's successor's predecessor and the leaver's predecessor's successor, to each other |
| `Ring.LeaveDelivers` | Chat.java:439-450 | on a consistent ring of two or more, a leave followed by two deliveries ends with exactly the rewiring of `AfterLeave` and nothing pending |
| `Ring.LeaveRemoves` | Chat.java:310-313 | after a member leaves a consistent ring of two or more, the others form a consistent ring in the same order, none points at the leaver, and the leaver itself is unchanged |
| `Ring.LeaveRemovesAt` | Chat.java:300-320 | the same for any member leaving a consistent ring of two or more: the others, listed from its successor on, form a consistent ring in which nobody points at it |
| `Ring.RingAvoids` | Chat.java:310-313 | no member of a consistent ring has a successor or predecessor outside the ring |
| `Ring.StopIndex` | Chat.java:255-268 | the first position at which a peer has the sender's or the receiver's alias: every earlier peer has neither |
| `Ring.Forward` | Chat.java:272-287 | a peer that neither sent nor is addressed by a PUT passes the identical PUT to its successor's port and changes nothing |
| `Ring.FloodTravels` | Chat.java:269-288 | until a peer stops it, the PUT is the only pending send and moves one member along the ring per delivery, changing nothing else |
| `Ring.FloodStops` | Chat.java:255-288 | a PUT started by a ring member is consumed by the first member having the sender's or receiver's alias, within N deliveries on a ring of N peers, which logs full circle (sender's alias) or delivery; nothing else changes and nothing stays pending |
| `Ring.FloodStopsAt` | Chat.java:255-288 | the same for a PUT started by any member: the ring is walked from its successor on and the PUT is consumed, within N deliveries, by the first member having the sender's or receiver's alias |
| `Ring.FloodDelivers` | Chat.java:262-268 | with distinct aliases, a PUT to another member's alias is delivered there, once, with the originator's alias and the text |
| `Ring.FloodReportsNotFound` | Chat.java:255-261 | with distinct aliases, a PUT to an alias no member has travels N hops and the originator reports full circle |
| `Network.Network.Start` | Chat.java:500-505 | a new peer object is filed under its port and the host changes exactly as `Ring.Start` |
| `Network.Network.Perform` | Chat.java:369-459 | a local action on the peer objects has exactly the effect of `Ring.Perform` |
| `Network.Network.DeliverNext` | Chat.java:152-162 | accepting the oldest pending connection, with the message encoded by its builder and read back by `Serve`, has exactly the effect of `Ring.DeliverNext` |
| `Network.Network.Deliver` | Chat.java:152-324 | running the listeners for k deliveries has exactly the effect of `Ring.Run` for k |

## Left out

- Sockets, object streams and the javax.json byte-level reading and writing: a connection is modelled as one queued (port, message) pair, and the wire object as a map of members.
- The two threads per peer and the semaphore guarding the pointers: deliveries and local actions are applied one at a time, so the lock has no effect and the race of two concurrent JOINs at one peer is not modelled.
- The menu's input loop, console output and exit: "delivered" and "full circle" are outcome values in a log, and the query is a method returning the three values it prints.
- Connection failures: every send is modelled as succeeding on the sender's side, and a message to a port on which nobody listens is dropped on arrival. In the source a failed connection skips the writes that follow it:
  - `Protocol.Act` / `Peers.Peer.InitiateJoin`: when the JOIN cannot be sent (Chat.java:378), the successor is not set to the target (Chat.java:389-390); the model always sets it.
  - `Protocol.Receive` (JOIN): when the ACCEPT cannot be sent (Chat.java:181), the NEWSUCCESSOR is not sent and the predecessor is not replaced (Chat.java:191, 200-201), and the listener ends, since its `IOException` handler is outside the accept loop; the model sends both and replaces the predecessor.
  - `Protocol.Receive` (LEAVE): the predecessor is replaced (Chat.java:305-307) before the NEWSUCCESSOR is sent (Chat.java:315), so a failed send keeps that write but ends the listener; the model keeps the write and the listener.
  - A port outside 0..65535 makes the socket constructors throw an unchecked exception that ends the thread; ports in the model are unbounded and never fail.
  - Errors of the menu's connections are printed (Chat.java:392-395), which the model does not capture.
- `Peers.Peer.Serve`: an object that cannot be read (a missing member or one of the wrong kind) changes nothing and sends nothing, as in the source, where every read precedes every change; the source's listener thread would also end on the uncaught exception, which the model does not capture.
- JSON arrays, booleans and null cannot be represented by `Codec.Json`; the source's reads throw on a "type" or parameter of those kinds as on any member of the wrong kind, so such objects would be read as unreadable (`Malformed`), like the wrong-kind objects the model does represent.
- Ports are unbounded integers: Java's 32-bit `int`, and the library's conversion of fractional or out-of-range JSON numbers by `getInt`, are not modelled; the protocol does no arithmetic on ports.
- The ip fields are carried in messages and stored, as in the source, but never used to route: every send goes to a port.
- The argument check in `main` is not modelled.
