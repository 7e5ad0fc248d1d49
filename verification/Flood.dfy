/**
  The flood of one gossip message (core/p2p/gossip.go:69-135) over a static peer graph.

  One step delivers one copy in flight. A node that has not seen the message marks it, runs its
  handler and, unless the handler fails, forwards to every peer but the one the copy came from.
  The originator sends to all its peers and does not mark the message, so it may handle its own
  message once. A run delivers copies in any order; no copy is lost and no node forgets.
 */
module Flood {
  import opened Collections

  type Node = string

  /** Who is connected to whom; each list is what `Peers()` returns on that node. */
  type Graph = map<Node, seq<Node>>

  datatype Hop = Hop(src: Node, dst: Node)

  ghost predicate ValidGraph(g: Graph) {
    forall u :: u in g ==> Distinct(g[u]) && u !in g[u] && forall v :: v in g[u] ==> v in g
  }

  ghost predicate Symmetric(g: Graph) {
    forall u, v :: u in g && v in g && v in g[u] ==> u in g[v]
  }

  /** `Peers()` of a node, without the node itself and the node a copy came from. */
  function Targets(peers: seq<Node>, self: Node, from: Node): (r: seq<Node>)
    ensures forall v :: v in r <==> v in peers && v != self && v != from
  {
    if peers == [] then []
    else
      var last := peers[|peers| - 1];
      var front := Targets(peers[..|peers| - 1], self, from);
      if last != from && last != self then front + [last] else front
  }

  /** The copies put in flight by sending to each target in turn. */
  function Copies(src: Node, targets: seq<Node>): (r: multiset<Hop>)
    ensures |r| == |targets|
    ensures forall h :: h in r <==> h.src == src && h.dst in targets
  {
    if targets == [] then multiset{}
    else Copies(src, targets[..|targets| - 1]) + multiset{Hop(src, targets[|targets| - 1])}
  }

  /**
    `seen`: nodes that have marked the message. `failed`: those of them whose handler failed.
    `sends` and `deliveries` count the copies sent and delivered so far.
   */
  datatype State = State(seen: set<Node>, failed: set<Node>, flight: multiset<Hop>, sends: nat, deliveries: nat)

  function Broadcast(g: Graph, origin: Node): State
    requires origin in g
  {
    State({}, {}, Copies(origin, g[origin]), |g[origin]|, 0)
  }

  function Deliver(g: Graph, s: State, h: Hop, handlerOk: bool): State
    requires h.dst in g
  {
    var rest := s.flight - multiset{h};
    if h.dst in s.seen then
      s.(flight := rest, deliveries := s.deliveries + 1)
    else if !handlerOk then
      s.(seen := s.seen + {h.dst}, failed := s.failed + {h.dst}, flight := rest, deliveries := s.deliveries + 1)
    else
      var targets := Targets(g[h.dst], h.dst, h.src);
      s.(seen := s.seen + {h.dst}, flight := rest + Copies(h.dst, targets),
         sends := s.sends + |targets|, deliveries := s.deliveries + 1)
  }

  ghost predicate Step(g: Graph, s: State, t: State) {
    exists h, ok :: DeliveryStep(g, s, t, h, ok)
  }

  ghost predicate DeliveryStep(g: Graph, s: State, t: State, h: Hop, ok: bool) {
    h in s.flight && h.dst in g && t == Deliver(g, s, h, ok)
  }

  /** The states of a run, from the broadcast on. */
  ghost predicate Run(g: Graph, origin: Node, run: seq<State>) {
    && origin in g
    && |run| > 0
    && run[0] == Broadcast(g, origin)
    && forall i :: 0 <= i < |run| - 1 ==> Step(g, run[i], run[i + 1])
  }

  // ---------- reachability ----------

  /** A path of peers from the originator whose inner nodes all forward. */
  ghost predicate Path(g: Graph, origin: Node, forwarding: set<Node>, p: seq<Node>) {
    && |p| > 0 && p[0] == origin
    && (forall i :: 0 <= i < |p| ==> p[i] in g)
    && (forall i :: 0 <= i < |p| - 1 ==> p[i + 1] in g[p[i]])
    && (forall i :: 0 < i < |p| - 1 ==> p[i] in forwarding)
  }

  ghost predicate Reachable(g: Graph, origin: Node, forwarding: set<Node>, v: Node) {
    exists p :: Path(g, origin, forwarding, p) && p[|p| - 1] == v
  }

  /** The nodes that have the message: the originator and those that have seen it. */
  function Informed(origin: Node, s: State): set<Node> {
    s.seen + {origin}
  }

  // ---------- the invariant of a run ----------

  /** The sum of degree - 1 over a set of nodes. */
  ghost function Forwards(g: Graph, nodes: set<Node>): int
    requires nodes <= g.Keys
  {
    if nodes == {} then 0
    else
      var v :| v in nodes;
      |g[v]| - 1 + Forwards(g, nodes - {v})
  }

  /** The nodes that forward: they have seen the message and their handler did not fail. */
  function Forwarding(s: State): set<Node> {
    s.seen - s.failed
  }

  ghost predicate Wellplaced(g: Graph, s: State) {
    s.seen <= g.Keys && s.failed <= s.seen
  }

  /** Every copy in flight was sent by the originator or a forwarding node, to one of its peers. */
  ghost predicate SentByForwarders(g: Graph, origin: Node, s: State) {
    forall h :: h in s.flight ==>
      h.src in g && h.dst in g[h.src] && (h.src == origin || h.src in Forwarding(s))
  }

  /** Every peer of the originator or a forwarding node has the message or will be sent it. */
  ghost predicate Covering(g: Graph, origin: Node, s: State) {
    forall u, v :: u in g && v in g[u] && (u == origin || u in Forwarding(s)) ==>
      v in Informed(origin, s) || Hop(u, v) in s.flight
  }

  /** Only nodes the originator reaches through forwarding nodes have seen the message. */
  ghost predicate Grounded(g: Graph, origin: Node, s: State) {
    forall v :: v in s.seen ==> Reachable(g, origin, Forwarding(s), v) && HasSender(g, v)
  }

  ghost predicate HasSender(g: Graph, v: Node) {
    exists u :: u in g && v in g[u]
  }

  /** No copy is lost or made up, and each forwarding node has sent one copy less than its degree. */
  ghost predicate Balanced(g: Graph, origin: Node, s: State) {
    && Wellplaced(g, s) && origin in g
    && s.sends == s.deliveries + |s.flight|
    && s.sends == |g[origin]| + Forwards(g, Forwarding(s))
  }

  ghost predicate Inv(g: Graph, origin: Node, s: State) {
    && origin in g
    && Wellplaced(g, s)
    && SentByForwarders(g, origin, s)
    && Covering(g, origin, s)
    && Grounded(g, origin, s)
    && (Symmetric(g) ==> Balanced(g, origin, s))
  }

  lemma {:induction false} ForwardsAdd(g: Graph, nodes: set<Node>, v: Node)
    requires nodes <= g.Keys && v in g && v !in nodes
    ensures Forwards(g, nodes + {v}) == |g[v]| - 1 + Forwards(g, nodes)
  {
    var all := nodes + {v};
    var w :| w in all && Forwards(g, all) == |g[w]| - 1 + Forwards(g, all - {w});
    if w == v {
      assert all - {w} == nodes;
    } else {
      ForwardsAdd(g, nodes - {w}, v);
      assert all - {w} == nodes - {w} + {v};
      ForwardsAdd(g, nodes - {w}, w);
      assert nodes - {w} + {w} == nodes;
    }
  }

  lemma {:induction false} TargetsSize(peers: seq<Node>, self: Node, from: Node)
    requires Distinct(peers) && self !in peers
    ensures |Targets(peers, self, from)| == |peers| - if from in peers then 1 else 0
  {
    if peers != [] {
      var n := |peers| - 1;
      TargetsSize(peers[..n], self, from);
      assert from in peers <==> from in peers[..n] || from == peers[n];
    }
  }

  lemma PathGrows(g: Graph, origin: Node, small: set<Node>, large: set<Node>, v: Node)
    requires small <= large && Reachable(g, origin, small, v)
    ensures Reachable(g, origin, large, v)
  {
    var p :| Path(g, origin, small, p) && p[|p| - 1] == v;
    assert Path(g, origin, large, p);
  }

  lemma PathExtends(g: Graph, origin: Node, forwarding: set<Node>, u: Node, v: Node)
    requires origin in g && u in g && v in g && v in g[u]
    requires u == origin || (u in forwarding && Reachable(g, origin, forwarding, u))
    ensures Reachable(g, origin, forwarding, v)
  {
    if u == origin {
      assert Path(g, origin, forwarding, [origin, v]);
    } else {
      var p :| Path(g, origin, forwarding, p) && p[|p| - 1] == u;
      var extended := p + [v];
      assert extended[|p| - 1] == u;
      assert Path(g, origin, forwarding, extended);
    }
  }

  lemma BroadcastInv(g: Graph, origin: Node)
    requires ValidGraph(g) && origin in g
    ensures Inv(g, origin, Broadcast(g, origin))
  {
    assert Forwarding(Broadcast(g, origin)) == {};
  }

  lemma DeliverPlaces(g: Graph, origin: Node, s: State, h: Hop, ok: bool)
    requires ValidGraph(g) && Wellplaced(g, s) && SentByForwarders(g, origin, s) && h in s.flight && h.dst in g
    ensures Wellplaced(g, Deliver(g, s, h, ok))
    ensures SentByForwarders(g, origin, Deliver(g, s, h, ok))
  {
    var t := Deliver(g, s, h, ok);
    forall k | k in t.flight
      ensures k.src in g && k.dst in g[k.src] && (k.src == origin || k.src in Forwarding(t))
    {
      if k in s.flight {
        assert k.src == origin || k.src in Forwarding(s);
      } else {
        assert k in Copies(h.dst, Targets(g[h.dst], h.dst, h.src));
      }
    }
  }

  lemma DeliverCovers(g: Graph, origin: Node, s: State, h: Hop, ok: bool)
    requires Wellplaced(g, s) && SentByForwarders(g, origin, s) && Covering(g, origin, s) && h in s.flight && h.dst in g
    requires ValidGraph(g)
    ensures Covering(g, origin, Deliver(g, s, h, ok))
  {
    var t := Deliver(g, s, h, ok);
    forall u, v | u in g && v in g[u] && (u == origin || u in Forwarding(t))
      ensures v in Informed(origin, t) || Hop(u, v) in t.flight
    {
      if u == origin || u in Forwarding(s) {
        StillCovered(g, origin, s, h, ok, u, v);
      } else {
        NewlyCovered(g, origin, s, h, u, v);
      }
    }
  }

  lemma StillCovered(g: Graph, origin: Node, s: State, h: Hop, ok: bool, u: Node, v: Node)
    requires h in s.flight && h.dst in g
    requires v in Informed(origin, s) || Hop(u, v) in s.flight
    ensures v in Informed(origin, Deliver(g, s, h, ok)) || Hop(u, v) in Deliver(g, s, h, ok).flight
  {
    if Hop(u, v) != h && Hop(u, v) in s.flight {
      assert Hop(u, v) in s.flight - multiset{h};
    }
  }

  /** The node that starts to forward covers its peers: the sender has the message and the others are sent it. */
  lemma NewlyCovered(g: Graph, origin: Node, s: State, h: Hop, u: Node, v: Node)
    requires ValidGraph(g) && h in s.flight && h.dst in g && u == h.dst && u !in s.seen && v in g[u]
    requires h.src == origin || h.src in Forwarding(s)
    ensures v in Informed(origin, Deliver(g, s, h, true)) || Hop(u, v) in Deliver(g, s, h, true).flight
  {
    if v != h.src {
      assert Hop(u, v) in Copies(u, Targets(g[u], u, h.src));
    }
  }

  lemma DeliverGrounded(g: Graph, origin: Node, s: State, h: Hop, ok: bool)
    requires ValidGraph(g) && Inv(g, origin, s) && h in s.flight && h.dst in g
    ensures Grounded(g, origin, Deliver(g, s, h, ok))
  {
    var t := Deliver(g, s, h, ok);
    assert Forwarding(s) <= Forwarding(t);
    forall v | v in t.seen ensures Reachable(g, origin, Forwarding(t), v) && HasSender(g, v) {
      if v in s.seen {
        PathGrows(g, origin, Forwarding(s), Forwarding(t), v);
      } else {
        assert v in g[h.src];
        if h.src != origin {
          PathGrows(g, origin, Forwarding(s), Forwarding(t), h.src);
        }
        PathExtends(g, origin, Forwarding(t), h.src, v);
      }
    }
  }

  lemma DeliverBalances(g: Graph, origin: Node, s: State, h: Hop, ok: bool)
    requires ValidGraph(g) && Symmetric(g) && Balanced(g, origin, s) && SentByForwarders(g, origin, s)
    requires h in s.flight && h.dst in g
    ensures Balanced(g, origin, Deliver(g, s, h, ok))
  {
    var t := Deliver(g, s, h, ok);
    OneCopyLess(s.flight, h);
    if h.dst in s.seen || !ok {
      assert Forwarding(t) == Forwarding(s);
    } else {
      FirstDeliveryBalances(g, origin, s, h);
    }
  }

  lemma FirstDeliveryBalances(g: Graph, origin: Node, s: State, h: Hop)
    requires ValidGraph(g) && Wellplaced(g, s) && h.dst in g && h.dst !in s.seen
    requires h.src in g[h.dst]
    ensures Wellplaced(g, Deliver(g, s, h, true))
    ensures Deliver(g, s, h, true).sends == s.sends + |g[h.dst]| - 1
    ensures Forwards(g, Forwarding(Deliver(g, s, h, true))) == Forwards(g, Forwarding(s)) + |g[h.dst]| - 1
  {
    assert Forwarding(Deliver(g, s, h, true)) == Forwarding(s) + {h.dst};
    ForwardsAdd(g, Forwarding(s), h.dst);
    TargetsSize(g[h.dst], h.dst, h.src);
  }

  lemma DeliverKeeps(g: Graph, origin: Node, s: State, h: Hop, ok: bool)
    requires ValidGraph(g) && Inv(g, origin, s) && h in s.flight && h.dst in g
    ensures Inv(g, origin, Deliver(g, s, h, ok))
  {
    DeliverPlaces(g, origin, s, h, ok);
    DeliverCovers(g, origin, s, h, ok);
    DeliverGrounded(g, origin, s, h, ok);
    if Symmetric(g) {
      DeliverBalances(g, origin, s, h, ok);
    }
  }

  lemma {:induction false} RunInv(g: Graph, origin: Node, run: seq<State>, i: nat)
    requires ValidGraph(g) && Run(g, origin, run) && i < |run|
    ensures Inv(g, origin, run[i])
  {
    if i == 0 {
      BroadcastInv(g, origin);
    } else {
      RunInv(g, origin, run, i - 1);
      assert Step(g, run[i - 1], run[i - 1 + 1]);
      var h, ok :| DeliveryStep(g, run[i - 1], run[i], h, ok);
      DeliverKeeps(g, origin, run[i - 1], h, ok);
    }
  }

  // ---------- coverage ----------

  /**
    When nothing is in flight, a node has the message exactly when the originator reaches it
    through nodes whose handlers did not fail. Without failures that is every node connected to
    the originator.
   */
  lemma QuietCoverage(g: Graph, origin: Node, s: State, v: Node)
    requires Inv(g, origin, s) && s.flight == multiset{}
    ensures v in Informed(origin, s) <==> Reachable(g, origin, g.Keys - s.failed, v)
  {
    if v in s.seen {
      PathGrows(g, origin, Forwarding(s), g.Keys - s.failed, v);
    } else if v == origin {
      assert Path(g, origin, g.Keys - s.failed, [origin]);
    }
    if Reachable(g, origin, g.Keys - s.failed, v) {
      var p :| Path(g, origin, g.Keys - s.failed, p) && p[|p| - 1] == v;
      PathInformed(g, origin, s, p, |p| - 1);
    }
  }

  /** The same in any run, whatever the order of the deliveries. */
  lemma Coverage(g: Graph, origin: Node, run: seq<State>, i: nat, v: Node)
    requires ValidGraph(g) && Run(g, origin, run) && i < |run|
    requires run[i].flight == multiset{}
    ensures v in Informed(origin, run[i]) <==> Reachable(g, origin, g.Keys - run[i].failed, v)
  {
    RunInv(g, origin, run, i);
    QuietCoverage(g, origin, run[i], v);
  }

  lemma {:induction false} PathInformed(g: Graph, origin: Node, s: State, p: seq<Node>, k: nat)
    requires Inv(g, origin, s) && s.flight == multiset{}
    requires Path(g, origin, g.Keys - s.failed, p) && k < |p|
    ensures p[k] in Informed(origin, s)
  {
    if k > 0 {
      PathInformed(g, origin, s, p, k - 1);
      var u := p[k - 1];
      assert p[k - 1 + 1] in g[u];
      assert u == origin || u in Forwarding(s);
    }
  }

  // ---------- termination and cost ----------

  /** Every delivery either informs a new node or leaves those unchanged and one copy fewer in flight. */
  lemma DeliveryDecreases(g: Graph, s: State, t: State)
    requires Wellplaced(g, s) && Step(g, s, t)
    ensures |g.Keys - t.seen| < |g.Keys - s.seen|
         || (|g.Keys - t.seen| == |g.Keys - s.seen| && |t.flight| < |s.flight|)
  {
    var h, ok :| DeliveryStep(g, s, t, h, ok);
    if h.dst !in s.seen {
      FewerUninformed(g, s.seen, h.dst);
    } else {
      OneCopyLess(s.flight, h);
    }
  }

  lemma FewerUninformed(g: Graph, seen: set<Node>, v: Node)
    requires v in g && v !in seen
    ensures |g.Keys - (seen + {v})| < |g.Keys - seen|
  {
    assert g.Keys - (seen + {v}) == (g.Keys - seen) - {v};
  }

  lemma OneCopyLess(flight: multiset<Hop>, h: Hop)
    requires h in flight
    ensures |flight - multiset{h}| == |flight| - 1
  {
  }

  lemma {:induction false} SeenGrows(g: Graph, origin: Node, run: seq<State>, i: nat, j: nat)
    requires Run(g, origin, run) && i <= j < |run|
    ensures run[i].seen <= run[j].seen
    ensures run[j].deliveries == run[i].deliveries + (j - i)
  {
    if i < j {
      SeenGrows(g, origin, run, i, j - 1);
      assert Step(g, run[j - 1], run[j - 1 + 1]);
    }
  }

  /** As long as a copy is in flight a delivery is possible, so a run that cannot go on is quiet. */
  lemma NotStuck(g: Graph, origin: Node, s: State) returns (t: State)
    requires ValidGraph(g) && Inv(g, origin, s) && s.flight != multiset{}
    ensures Step(g, s, t)
  {
    var h :| h in s.flight;
    t := Deliver(g, s, h, true);
    assert DeliveryStep(g, s, t, h, true);
  }

  /** A node whose handler a delivery runs is one whose handler no later delivery runs. */
  lemma HandledOnce(g: Graph, origin: Node, run: seq<State>, i: nat, j: nat, first: Hop, later: Hop, ok: bool, okLater: bool)
    requires Run(g, origin, run) && i < j && j + 1 < |run|
    requires DeliveryStep(g, run[i], run[i + 1], first, ok) && first.dst !in run[i].seen
    requires DeliveryStep(g, run[j], run[j + 1], later, okLater) && later.dst !in run[j].seen
    ensures first.dst != later.dst
  {
    SeenGrows(g, origin, run, i + 1, j);
  }

  /**
    The exact cost at every point of every run: the originator's degree and, for each forwarding
    node, one less than its degree. What was sent was delivered or is in flight, so a run is no
    longer than that.
   */
  lemma FloodCost(g: Graph, origin: Node, run: seq<State>, i: nat)
    requires ValidGraph(g) && Symmetric(g) && Run(g, origin, run) && i < |run|
    ensures Wellplaced(g, run[i])
    ensures run[i].sends == |g[origin]| + Forwards(g, Forwarding(run[i]))
    ensures i == run[i].deliveries <= run[i].sends
  {
    RunInv(g, origin, run, i);
    SeenGrows(g, origin, run, 0, i);
  }

  /** The nodes with at least one peer. */
  function Connected(g: Graph): set<Node> {
    set v | v in g && g[v] != []
  }

  /** The bound for the whole graph; nodes without peers neither receive nor forward and are not counted. */
  lemma FloodBound(g: Graph, origin: Node, run: seq<State>, i: nat)
    requires ValidGraph(g) && Symmetric(g) && Run(g, origin, run) && i < |run|
    ensures run[i].sends <= |g[origin]| + Forwards(g, Connected(g))
    ensures i <= |g[origin]| + Forwards(g, Connected(g))
  {
    FloodCost(g, origin, run, i);
    RunInv(g, origin, run, i);
    var f := Forwarding(run[i]);
    forall v | v in f ensures v in Connected(g) {
      var u :| u in g && v in g[u];
      assert u in g[v];
    }
    ForwardsMonotone(g, f, Connected(g));
  }

  /** Summed over all nodes the bound fails: two peers and a node without any, which counts as -1. */
  lemma IsolatedNodeCounts() returns (g: Graph, run: seq<State>)
    ensures ValidGraph(g) && Symmetric(g) && "a" in g && Run(g, "a", run)
    ensures run[0].sends > |g["a"]| + Forwards(g, g.Keys)
  {
    g := map["a" := ["b"], "b" := ["a"], "c" := []];
    run := [Broadcast(g, "a")];
    ForwardsAdd(g, {}, "a");
    ForwardsAdd(g, {"a"}, "b");
    ForwardsAdd(g, {"a", "b"}, "c");
    assert {} + {"a"} == {"a"} && {"a"} + {"b"} == {"a", "b"};
    assert g.Keys == {"a", "b"} + {"c"};
  }

  lemma {:induction false} ForwardsMonotone(g: Graph, small: set<Node>, large: set<Node>)
    requires small <= large <= g.Keys
    requires forall v :: v in large ==> g[v] != []
    ensures Forwards(g, small) <= Forwards(g, large)
    decreases large
  {
    if small != large {
      var v :| v in large && v !in small;
      ForwardsMonotone(g, small, large - {v});
      ForwardsAdd(g, large - {v}, v);
      assert large - {v} + {v} == large;
    }
  }
}
