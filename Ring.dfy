/**
 * Several peers on one host, as values: a map from listening port to peer,
 * the FIFO queue of connections opened but not yet handled, and the log of
 * what peers reported.  Delivering queued messages one at a time gives the
 * ring-level effect of joining, leaving and flooding.
 */
module Ring {
  import opened Codec
  import opened Protocol

  datatype Event = Event(port: int, outcome: Outcome)

  datatype Net = Net(peers: map<int, PeerState>, queue: seq<Send>, log: seq<Event>)

  /** Every peer is filed under its own listening port. */
  ghost predicate WellKeyed(peers: map<int, PeerState>)
  {
    forall p :: p in peers ==> peers[p].myPort == p
  }

  function Record(log: seq<Event>, port: int, o: Outcome): seq<Event>
  {
    if o == Silent then log else log + [Event(port, o)]
  }

  /** Hand the oldest queued message to the peer listening on its port; a
      message to a port nobody listens on is lost. */
  function DeliverNext(n: Net): (n': Net)
    ensures n'.peers.Keys == n.peers.Keys
    ensures WellKeyed(n.peers) ==> WellKeyed(n'.peers)
    ensures n.queue == [] ==> n' == n
    ensures forall p :: p in n.peers && (n.queue == [] || p != n.queue[0].port) ==> n'.peers[p] == n.peers[p]
  {
    if n.queue == [] then n
    else
      var s := n.queue[0];
      if s.port !in n.peers then n.(queue := n.queue[1..])
      else
        var r := Receive(n.peers[s.port], s.msg);
        Net(n.peers[s.port := r.state], n.queue[1..] + r.sends, Record(n.log, s.port, r.outcome))
  }

  /** `k` deliveries in a row. */
  function Run(n: Net, k: nat): (n': Net)
    ensures n'.peers.Keys == n.peers.Keys
    ensures WellKeyed(n.peers) ==> WellKeyed(n'.peers)
    ensures n.queue == [] ==> n' == n
  {
    if k == 0 then n else DeliverNext(Run(n, k - 1))
  }

  /** The peer on `port` performs a local action; what it sends is queued. */
  function Perform(n: Net, port: int, a: Action): (n': Net)
    requires port in n.peers
    ensures n'.peers.Keys == n.peers.Keys && n'.log == n.log
    ensures WellKeyed(n.peers) ==> WellKeyed(n'.peers)
    ensures forall p :: p in n.peers && p != port ==> n'.peers[p] == n.peers[p]
    ensures |n'.queue| == |n.queue| + 1 && n'.queue[..|n.queue|] == n.queue
  {
    var r := Act(n.peers[port], a);
    Net(n.peers[port := r.state], n.queue + r.sends, n.log)
  }

  // ---------------------------------------------------------------------
  // Rings.

  function Next(i: nat, len: nat): nat
    requires i < len
  {
    if i + 1 == len then 0 else i + 1
  }

  /** `a`'s successor is `b` and `b`'s predecessor is `a`. */
  ghost predicate Linked(peers: map<int, PeerState>, a: int, b: int)
  {
    a in peers && b in peers && peers[a].myPort == a &&
    peers[a].portSuccessor == b && peers[b].portPredecessor == a
  }

  /** The peers on the ports in `order` form one consistent ring, in that
      order: each one's successor is the next, whose predecessor it is. */
  ghost predicate IsRing(peers: map<int, PeerState>, order: seq<int>)
  {
    |order| > 0 &&
    (forall i :: 0 <= i < |order| ==> order[i] in peers) &&
    (forall i, j :: 0 <= i < j < |order| ==> order[i] != order[j]) &&
    (forall i :: 0 <= i < |order| ==> Linked(peers, order[i], order[Next(i, |order|)]))
  }

  /** A peer that starts up forms a ring of its own. */
  function Start(n: Net, alias: string, port: int): (n': Net)
    requires port !in n.peers
    ensures IsRing(n'.peers, [port])
    ensures n'.peers.Keys == n.peers.Keys + {port}
    ensures forall p :: p in n.peers ==> n'.peers[p] == n.peers[p]
    ensures n'.queue == n.queue && n'.log == n.log
  {
    n.(peers := n.peers[port := Init(alias, port)])
  }

  /** A ring can be listed starting from any of its members. */
  lemma {:induction false} RingRotation(peers: map<int, PeerState>, order: seq<int>, k: nat)
    requires IsRing(peers, order) && k < |order|
    ensures IsRing(peers, order[k..] + order[..k])
  {
    var len := |order|;
    var r := order[k..] + order[..k];
    assert |r| == len;
    forall i | 0 <= i < len
      ensures r[i] == order[if i < len - k then i + k else i + k - len]
    {
    }
    forall i, j | 0 <= i < j < len
      ensures r[i] != r[j]
    {
    }
    forall i | 0 <= i < len
      ensures Linked(peers, r[i], r[Next(i, len)])
    {
      var a := if i < len - k then i + k else i + k - len;
      assert r[Next(i, len)] == order[Next(a, len)];
      assert Linked(peers, order[a], order[Next(a, len)]);
    }
  }

  /** Following successors `k` times. */
  function Follow(peers: map<int, PeerState>, p: int, k: nat): int
    decreases k
  {
    if k == 0 || p !in peers then p else Follow(peers, peers[p].portSuccessor, k - 1)
  }

  lemma {:induction false} FollowAlong(peers: map<int, PeerState>, order: seq<int>, i: nat, k: nat)
    requires IsRing(peers, order) && i < |order| && i + k < |order|
    ensures Follow(peers, order[i], k) == order[i + k]
    decreases k
  {
    if k > 0 {
      assert Linked(peers, order[i], order[Next(i, |order|)]);
      FollowAlong(peers, order, i + 1, k - 1);
    }
  }

  /** On a consistent ring of N peers, following successors N times from
      any member comes back to it. */
  lemma {:induction false} FollowAround(peers: map<int, PeerState>, order: seq<int>, i: nat)
    requires IsRing(peers, order) && i < |order|
    ensures Follow(peers, order[i], |order|) == order[i]
  {
    var len := |order|;
    RingRotation(peers, order, i);
    var r := order[i..] + order[..i];
    assert r[0] == order[i];
    // Walk the rotated ring to its last member, then one more step.
    FollowLast(peers, r, len);
  }

  lemma {:induction false} FollowLast(peers: map<int, PeerState>, r: seq<int>, len: nat)
    requires IsRing(peers, r) && len == |r|
    ensures Follow(peers, r[0], len) == r[0]
  {
    FollowAppend(peers, r[0], len - 1);
    FollowAlong(peers, r, 0, len - 1);
    assert Linked(peers, r[len - 1], r[Next(len - 1, len)]);
  }

  /** One more step after `k` steps. */
  lemma {:induction false} FollowAppend(peers: map<int, PeerState>, p: int, k: nat)
    ensures Follow(peers, p, k + 1) ==
      var q := Follow(peers, p, k); if q in peers then peers[q].portSuccessor else q
    decreases k
  {
    if k > 0 && p in peers {
      FollowAppend(peers, peers[p].portSuccessor, k - 1);
    }
  }

  // ---------------------------------------------------------------------
  // Joining.

  /** The four steps of a join of `c` via `t`: `c` takes `t` as successor,
      `t` takes `c` as predecessor, `c` takes `t`'s old predecessor `a` as
      predecessor, and `a` takes `c` as successor. */
  function AfterJoin(peers: map<int, PeerState>, c: int, t: int): (r: map<int, PeerState>)
    requires c in peers && t in peers && c != t
    ensures r.Keys == peers.Keys
    ensures forall p :: p in peers ==> r[p].myPort == peers[p].myPort && r[p].alias == peers[p].alias
    ensures forall p :: p in peers && p != c && p != t && p != peers[t].portPredecessor ==> r[p] == peers[p]
    ensures forall p :: p in peers && p != c && p != peers[t].portPredecessor ==>
      r[p].portSuccessor == peers[p].portSuccessor
    ensures forall p :: p in peers && p != c && p != t ==> r[p].portPredecessor == peers[p].portPredecessor
    ensures r[t].portPredecessor == c && r[c].portPredecessor == peers[t].portPredecessor
    ensures r[c].portSuccessor == if c == peers[t].portPredecessor then c else t
    ensures peers[t].portPredecessor in peers ==> r[peers[t].portPredecessor].portSuccessor == c
  {
    var a := peers[t].portPredecessor;
    var p1 := peers[c := peers[c].(ipSuccessor := Localhost, portSuccessor := t)];
    var p2 := p1[t := p1[t].(ipPredecessor := Localhost, portPredecessor := c)];
    var p3 := p2[c := p2[c].(ipPredecessor := peers[t].ipPredecessor, portPredecessor := a)];
    if a in p3 then p3[a := p3[a].(ipSuccessor := Localhost, portSuccessor := c)] else p3
  }

  lemma {:induction false} JoinDelivers(n: Net, order: seq<int>, c: int)
    requires n.queue == [] && IsRing(n.peers, order)
    requires c in n.peers && n.peers[c].myPort == c && c !in order
    ensures Run(Perform(n, c, JoinVia(order[0])), 3) == Net(AfterJoin(n.peers, c, order[0]), [], n.log)
  {
    var len := |order|;
    var t, a := order[0], order[len - 1];
    assert Linked(n.peers, a, t) by { assert Next(len - 1, len) == 0; }
    var n1 := Perform(n, c, JoinVia(t));
    assert n1.queue == [Send(t, Join(n.peers[c].alias, c))];
    var n2 := DeliverNext(n1);
    assert n2.queue == [Send(c, Accept(n.peers[t].ipPredecessor, a)), Send(a, NewSuccessor(Localhost, c))];
    var n3 := DeliverNext(n2);
    assert n3.queue == [Send(a, NewSuccessor(Localhost, c))];
    var n4 := DeliverNext(n3);
    assert Run(n1, 1) == n2;
    assert Run(n1, 2) == n3;
    assert Run(n1, 3) == n4;
  }

  /** A peer `c` outside a consistent ring joins via the member listed
      first; once the JOIN, the ACCEPT and the NEWSUCCESSOR have been
      delivered, `c` sits between the last member and the target, and no
      pending message remains. */
  lemma {:induction false} JoinInserts(n: Net, order: seq<int>, c: int)
    requires n.queue == [] && IsRing(n.peers, order)
    requires c in n.peers && n.peers[c].myPort == c && c !in order
    ensures var n' := Run(Perform(n, c, JoinVia(order[0])), 3);
      IsRing(n'.peers, order + [c]) && n'.queue == [] && n'.log == n.log &&
      forall p :: p in n.peers && p != c && p != order[0] && p != order[|order| - 1] ==>
        n'.peers[p] == n.peers[p]
  {
    var len := |order|;
    var t, a := order[0], order[len - 1];
    assert Linked(n.peers, a, t) by { assert Next(len - 1, len) == 0; }
    JoinDelivers(n, order, c);
    var peers := AfterJoin(n.peers, c, t);
    var o := order + [c];
    forall i | 0 <= i < len + 1
      ensures Linked(peers, o[i], o[Next(i, len + 1)])
    {
      if i + 1 < len {
        JoinKeepsLink(n.peers, order, c, i);
      }
    }
  }

  /** The same for a join via any member `order[k]`: `c` ends up just
      before it. */
  lemma {:induction false} JoinInsertsAt(n: Net, order: seq<int>, k: nat, c: int)
    requires n.queue == [] && IsRing(n.peers, order) && k < |order|
    requires c in n.peers && n.peers[c].myPort == c && c !in order
    ensures var n' := Run(Perform(n, c, JoinVia(order[k])), 3);
      IsRing(n'.peers, order[k..] + order[..k] + [c]) && n'.queue == [] && n'.log == n.log
  {
    RingRotation(n.peers, order, k);
    var r := order[k..] + order[..k];
    assert r[0] == order[k];
    assert c !in r by {
      assert forall x :: x in r ==> x in order;
    }
    JoinInserts(n, r, c);
  }

  /** A link between two ring members other than the target's incoming one
      survives a join. */
  lemma JoinKeepsLink(peers: map<int, PeerState>, order: seq<int>, c: int, i: nat)
    requires IsRing(peers, order) && c in peers && c !in order && i + 1 < |order|
    ensures Linked(AfterJoin(peers, c, order[0]), order[i], order[i + 1])
  {
    var len := |order|;
    assert Linked(peers, order[len - 1], order[Next(len - 1, len)]);
    assert Linked(peers, order[i], order[Next(i, len)]);
    assert order[i + 1] != order[0] && order[i] != order[len - 1];
  }

  // ---------------------------------------------------------------------
  // Leaving.

  /** The messages of a leave: the successor `q` of the leaving peer takes
      its predecessor `a`, then `a` takes `q` as successor. */
  function AfterLeave(peers: map<int, PeerState>, l: int): (r: map<int, PeerState>)
    requires l in peers
    ensures r.Keys == peers.Keys
    ensures forall p :: p in peers ==> r[p].myPort == peers[p].myPort && r[p].alias == peers[p].alias
    ensures forall p :: p in peers && p != peers[l].portSuccessor ==> r[p].portPredecessor == peers[p].portPredecessor
    ensures forall p :: p in peers && p != peers[l].portPredecessor ==> r[p].portSuccessor == peers[p].portSuccessor
    ensures peers[l].portSuccessor in peers ==> r[peers[l].portSuccessor].portPredecessor == peers[l].portPredecessor
    ensures peers[l].portPredecessor in peers ==> r[peers[l].portPredecessor].portSuccessor == peers[l].portSuccessor
  {
    var q, a := peers[l].portSuccessor, peers[l].portPredecessor;
    var p1 := if q in peers then peers[q := peers[q].(ipPredecessor := peers[l].ipPredecessor, portPredecessor := a)] else peers;
    if a in p1 then p1[a := p1[a].(ipSuccessor := Localhost, portSuccessor := q)] else p1
  }

  lemma {:induction false} LeaveDelivers(n: Net, order: seq<int>)
    requires n.queue == [] && IsRing(n.peers, order) && |order| >= 2
    ensures var l := order[|order| - 1];
      Run(Perform(n, l, LeaveRing), 2) == Net(AfterLeave(n.peers, l), [], n.log)
  {
    var len := |order|;
    var l, q, a := order[len - 1], order[0], order[len - 2];
    assert Linked(n.peers, l, q) by { assert Next(len - 1, len) == 0; }
    assert Linked(n.peers, a, order[Next(len - 2, len)]);
    assert Linked(n.peers, q, order[Next(0, len)]);
    var n1 := Perform(n, l, LeaveRing);
    assert n1.queue == [Send(q, Leave(n.peers[l].ipPredecessor, a))];
    var n2 := DeliverNext(n1);
    assert n2.queue == [Send(a, NewSuccessor(Localhost, q))];
    assert n2.peers == n.peers[q := n.peers[q].(ipPredecessor := n.peers[l].ipPredecessor, portPredecessor := a)];
    var n3 := DeliverNext(n2);
    assert Run(n1, 1) == n2;
    assert Run(n1, 2) == n3;
  }

  /** The last-listed member of a consistent ring of two or more leaves;
      once the LEAVE and the NEWSUCCESSOR have been delivered, the others
      form a consistent ring without it, none of them pointing at it. */
  lemma {:induction false} LeaveRemoves(n: Net, order: seq<int>)
    requires n.queue == [] && IsRing(n.peers, order) && |order| >= 2
    ensures var l := order[|order| - 1];
      var n' := Run(Perform(n, l, LeaveRing), 2);
      var rest := order[..|order| - 1];
      IsRing(n'.peers, rest) && n'.queue == [] && n'.log == n.log &&
      (forall p :: p in rest ==> n'.peers[p].portSuccessor != l && n'.peers[p].portPredecessor != l) &&
      n'.peers[l] == n.peers[l]
  {
    var len := |order|;
    var l, q, a := order[len - 1], order[0], order[len - 2];
    assert Linked(n.peers, l, q) by { assert Next(len - 1, len) == 0; }
    assert Linked(n.peers, a, order[Next(len - 2, len)]);
    LeaveDelivers(n, order);
    var peers := AfterLeave(n.peers, l);
    var rest := order[..len - 1];
    forall i | 0 <= i < len - 1
      ensures Linked(peers, rest[i], rest[Next(i, len - 1)])
    {
      if i + 1 < len - 1 {
        LeaveKeepsLink(n.peers, order, i);
      }
    }
    RingAvoids(peers, rest, l);
  }

  /** A consistent ring listed from the member after `order[k]` on, so
      that `order[k]` comes last. */
  lemma RingAfter(peers: map<int, PeerState>, order: seq<int>, k: nat)
    requires IsRing(peers, order) && k < |order|
    ensures var r := order[k + 1..] + order[..k + 1];
      IsRing(peers, r) && |r| == |order| && r[|order| - 1] == order[k] &&
      r[..|order| - 1] == order[k + 1..] + order[..k]
  {
    var r := order[k + 1..] + order[..k + 1];
    if k + 1 < |order| {
      RingRotation(peers, order, k + 1);
    } else {
      assert r == order;
    }
  }

  /** The same for any member `order[k]` of a ring of two or more: the
      others, listed from its successor on, form a consistent ring that
      does not point at it. */
  lemma {:induction false} LeaveRemovesAt(n: Net, order: seq<int>, k: nat)
    requires n.queue == [] && IsRing(n.peers, order) && |order| >= 2 && k < |order|
    ensures var l := order[k];
      var n' := Run(Perform(n, l, LeaveRing), 2);
      var rest := order[k + 1..] + order[..k];
      IsRing(n'.peers, rest) && n'.queue == [] && n'.log == n.log &&
      (forall p :: p in rest ==> n'.peers[p].portSuccessor != l && n'.peers[p].portPredecessor != l)
  {
    RingAfter(n.peers, order, k);
    LeaveRemoves(n, order[k + 1..] + order[..k + 1]);
  }

  /** A link between two members other than the leaver and its neighbours'
      facing pointers survives a leave. */
  lemma LeaveKeepsLink(peers: map<int, PeerState>, order: seq<int>, i: nat)
    requires IsRing(peers, order) && i + 2 < |order|
    ensures Linked(AfterLeave(peers, order[|order| - 1]), order[i], order[i + 1])
  {
    var len := |order|;
    assert Linked(peers, order[len - 1], order[Next(len - 1, len)]);
    assert Linked(peers, order[len - 2], order[Next(len - 2, len)]);
    assert Linked(peers, order[i], order[Next(i, len)]);
    assert order[i + 1] != order[0] && order[i] != order[len - 2];
  }

  /** No member of a consistent ring points at a port outside it. */
  lemma {:induction false} RingAvoids(peers: map<int, PeerState>, order: seq<int>, x: int)
    requires IsRing(peers, order) && x !in order
    ensures forall p :: p in order ==> peers[p].portSuccessor != x && peers[p].portPredecessor != x
  {
    var len := |order|;
    forall p | p in order
      ensures peers[p].portSuccessor != x && peers[p].portPredecessor != x
    {
      var i :| 0 <= i < len && order[i] == p;
      assert Linked(peers, order[i], order[Next(i, len)]);
      var h := if i == 0 then len - 1 else i - 1;
      assert Next(h, len) == i;
      assert Linked(peers, order[h], order[Next(h, len)]);
    }
  }

  // ---------------------------------------------------------------------
  // Flooding.

  /** Whether a peer ends a flood from `sender` to `receiver`. */
  predicate Stops(s: PeerState, sender: string, receiver: string)
  {
    s.alias == sender || s.alias == receiver
  }

  /** What the peer that ends the flood reports: the sender check comes
      first. */
  function Ending(s: PeerState, sender: string, body: string): Outcome
  {
    if s.alias == sender then FullCircle else Delivered(sender, body)
  }

  /** The position in `order`, from `from` on, of the first peer that ends a
      flood; |order| if none does. */
  function StopIndex(peers: map<int, PeerState>, order: seq<int>, sender: string, receiver: string, from: nat): (j: nat)
    requires forall i :: 0 <= i < |order| ==> order[i] in peers
    requires from <= |order|
    ensures from <= j <= |order|
    ensures j < |order| ==> Stops(peers[order[j]], sender, receiver)
    ensures forall i :: from <= i < j ==> !Stops(peers[order[i]], sender, receiver)
    decreases |order| - from
  {
    if from == |order| then from
    else if Stops(peers[order[from]], sender, receiver) then from
    else StopIndex(peers, order, sender, receiver, from + 1)
  }

  /** While no peer has stopped it, the PUT is the only pending message and
      sits at the `j`-th member; nothing else has changed. */
  lemma {:induction false} FloodTravels(n: Net, order: seq<int>, put: Msg, j: nat)
    requires IsRing(n.peers, order) && put.Put? && j < |order|
    requires n.queue == [Send(order[0], put)]
    requires forall i :: 0 <= i < j ==> !Stops(n.peers[order[i]], put.sender, put.receiver)
    ensures Run(n, j) == n.(queue := [Send(order[j], put)])
    decreases j
  {
    if j > 0 {
      FloodTravels(n, order, put, j - 1);
      assert Linked(n.peers, order[j - 1], order[Next(j - 1, |order|)]);
      Forward(n.(queue := [Send(order[j - 1], put)]), put);
    }
  }

  /** One hop of a flood through a peer that does not stop it. */
  lemma Forward(n: Net, put: Msg)
    requires put.Put? && |n.queue| == 1 && n.queue[0].msg == put && n.queue[0].port in n.peers
    requires !Stops(n.peers[n.queue[0].port], put.sender, put.receiver)
    ensures DeliverNext(n) == n.(queue := [Send(n.peers[n.queue[0].port].portSuccessor, put)])
  {
  }

  /** A PUT started by the last-listed member of a consistent ring is
      consumed by the first member that has the sender's or the receiver's
      alias, at most N hops later, which reports it; nothing else changes
      and nothing is left pending. */
  lemma {:induction false} FloodStops(n: Net, order: seq<int>, receiver: string, body: string)
    requires n.queue == [] && IsRing(n.peers, order)
    ensures var origin := n.peers[order[|order| - 1]];
      var j := StopIndex(n.peers, order, origin.alias, receiver, 0);
      j < |order| &&
      Run(Perform(n, order[|order| - 1], SendTo(receiver, body)), j + 1) ==
        Net(n.peers, [], n.log + [Event(order[j], Ending(n.peers[order[j]], origin.alias, body))])
  {
    var len := |order|;
    var o := order[len - 1];
    assert Linked(n.peers, o, order[0]) by { assert Next(len - 1, len) == 0; }
    var origin := n.peers[o];
    var put := Put(origin.alias, receiver, body);
    var j := StopIndex(n.peers, order, origin.alias, receiver, 0);
    assert Stops(n.peers[order[len - 1]], origin.alias, receiver);
    assert j < len;
    var n1 := Perform(n, o, SendTo(receiver, body));
    assert n1 == n.(queue := [Send(order[0], put)]);
    FloodTravels(n1, order, put, j);
    assert Run(n1, j + 1) == DeliverNext(n1.(queue := [Send(order[j], put)]));
  }

  /** The same for a PUT started by any member `order[k]`: the ring is
      walked from its successor on. */
  lemma {:induction false} FloodStopsAt(n: Net, order: seq<int>, k: nat, receiver: string, body: string)
    requires n.queue == [] && IsRing(n.peers, order) && k < |order|
    ensures var origin := n.peers[order[k]];
      var r := order[k + 1..] + order[..k + 1];
      var j := StopIndex(n.peers, r, origin.alias, receiver, 0);
      j < |order| &&
      Run(Perform(n, order[k], SendTo(receiver, body)), j + 1) ==
        Net(n.peers, [], n.log + [Event(r[j], Ending(n.peers[r[j]], origin.alias, body))])
  {
    var r := order[k + 1..] + order[..k + 1];
    RingAfter(n.peers, order, k);
    FloodStops(n, r, receiver, body);
    assert r[|r| - 1] == order[k];
  }

  /** Every member of the ring has its own alias. */
  ghost predicate DistinctAliases(peers: map<int, PeerState>, order: seq<int>)
    requires forall i :: 0 <= i < |order| ==> order[i] in peers
  {
    forall i, j :: 0 <= i < j < |order| ==> peers[order[i]].alias != peers[order[j]].alias
  }

  /** With distinct aliases, a PUT addressed to another member reaches it
      and is delivered there exactly once. */
  lemma {:induction false} FloodDelivers(n: Net, order: seq<int>, k: nat, body: string)
    requires n.queue == [] && IsRing(n.peers, order) && k < |order| - 1
    requires DistinctAliases(n.peers, order)
    ensures var origin := n.peers[order[|order| - 1]];
      Run(Perform(n, order[|order| - 1], SendTo(n.peers[order[k]].alias, body)), k + 1) ==
        Net(n.peers, [], n.log + [Event(order[k], Delivered(origin.alias, body))])
  {
    var len := |order|;
    var origin := n.peers[order[len - 1]];
    var receiver := n.peers[order[k]].alias;
    FloodStops(n, order, receiver, body);
    var j := StopIndex(n.peers, order, origin.alias, receiver, 0);
    assert j == k;
  }

  /** With distinct aliases, a PUT to an alias no member has goes all the
      way round, N hops, and its originator reports it as not found. */
  lemma {:induction false} FloodReportsNotFound(n: Net, order: seq<int>, receiver: string, body: string)
    requires n.queue == [] && IsRing(n.peers, order)
    requires DistinctAliases(n.peers, order)
    requires forall i :: 0 <= i < |order| ==> n.peers[order[i]].alias != receiver
    ensures var o := order[|order| - 1];
      Run(Perform(n, o, SendTo(receiver, body)), |order|) ==
        Net(n.peers, [], n.log + [Event(o, FullCircle)])
  {
    var len := |order|;
    var origin := n.peers[order[len - 1]];
    FloodStops(n, order, receiver, body);
    var j := StopIndex(n.peers, order, origin.alias, receiver, 0);
    assert j == len - 1;
  }
}
