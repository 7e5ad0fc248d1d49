/**
  One node of the gossip protocol (core/p2p/gossip.go), the identifiers it deduplicates by, and
  a network of such nodes carrying any number of messages at once.
 */
module GossipProtocol {
  import opened Wrappers
  import opened Collections
  import opened Flood
  import opened TimeTypes

  datatype GossipMessage = GossipMessage(kind: string, from: Node, data: Bytes, timestamp: int)

  // ---------- message identifiers ----------

  function Digits(n: nat): (r: string)
    ensures |r| > 0 && forall i :: 0 <= i < |r| ==> '0' <= r[i] <= '9'
  {
    if n < 10 then [Digit(n)] else Digits(n / 10) + [Digit(n % 10)]
  }

  function Digit(n: nat): (c: char)
    requires n < 10
    ensures '0' <= c <= '9' && c as int - '0' as int == n
  {
    '0' + n as char
  }

  /** Go's %d. */
  function Decimal(n: int): string {
    if n < 0 then "-" + Digits(-n) else Digits(n)
  }

  /** fmt.Sprintf("%s-%s-%d", Type, From, Timestamp.UnixNano()) */
  function MessageId(m: GossipMessage): string {
    m.kind + "-" + m.from + "-" + Decimal(m.timestamp)
  }

  /** The number a text of decimal digits stands for. */
  function ValueOf(s: string): int {
    if s == "" then 0 else 10 * ValueOf(s[..|s| - 1]) + (s[|s| - 1] as int - '0' as int)
  }

  /** The digits are those of the number, most significant first and none to spare. */
  lemma {:induction false} DigitsValue(n: nat)
    ensures ValueOf(Digits(n)) == n
    ensures |Digits(n)| > 1 ==> Digits(n)[0] != '0'
  {
    if n >= 10 {
      DigitsValue(n / 10);
      assert Digits(n)[..|Digits(n)| - 1] == Digits(n / 10);
      if |Digits(n / 10)| == 1 {
        assert Digits(n / 10)[0] == Digit(n / 10);
      }
    } else {
      assert [Digit(n)][..0] == "";
    }
  }

  predicate NoDash(s: string) {
    forall i :: 0 <= i < |s| ==> s[i] != '-'
  }

  lemma {:induction false} DigitsInjective(a: nat, b: nat)
    requires Digits(a) == Digits(b)
    ensures a == b
  {
    if a < 10 || b < 10 {
      assert |Digits(a)| == 1 <==> a < 10;
      assert |Digits(b)| == 1 <==> b < 10;
      assert Digits(a)[0] == Digits(b)[0];
    } else {
      var x, y := Digits(a), Digits(b);
      assert x[..|x| - 1] == Digits(a / 10) && y[..|y| - 1] == Digits(b / 10);
      assert x[|x| - 1] == Digit(a % 10) && y[|y| - 1] == Digit(b % 10);
      DigitsInjective(a / 10, b / 10);
    }
  }

  /** The text after the last dash is determined. */
  lemma LastDash(a: string, b: string, c: string, d: string)
    requires NoDash(b) && NoDash(d) && a + "-" + b == c + "-" + d
    ensures a == c && b == d
  {
    var s := a + "-" + b;
    var t := c + "-" + d;
    assert s[|a|] == '-' && t[|c|] == '-';
    assert forall k :: |a| < k < |s| ==> s[k] == b[k - |a| - 1];
    assert forall k :: |c| < k < |t| ==> t[k] == d[k - |c| - 1];
    assert |a| == |c|;
    assert s[..|a|] == a && t[..|c|] == c;
    assert s[|a| + 1..] == b && t[|c| + 1..] == d;
  }

  lemma DigitsNoDash(n: nat)
    ensures NoDash(Digits(n))
  {
  }

  /** Kind, sender and timestamp agree. */
  predicate SameHeader(m: GossipMessage, n: GossipMessage) {
    m.kind == n.kind && m.from == n.from && m.timestamp == n.timestamp
  }

  /** The minus sign of m's timestamp reads as the separator before n's, which then has no sender. */
  predicate Shadows(m: GossipMessage, n: GossipMessage) {
    m.timestamp < 0 && n.timestamp == -m.timestamp && n.from == "" && n.kind == m.kind + "-" + m.from
  }

  /** The identifier without the digits of its timestamp and the dash before them. */
  function Prefix(m: GossipMessage): string {
    m.kind + "-" + m.from + if m.timestamp < 0 then "-" else ""
  }

  function Magnitude(n: int): nat {
    if n < 0 then -n else n
  }

  lemma IdParts(m: GossipMessage)
    ensures MessageId(m) == Prefix(m) + "-" + Digits(Magnitude(m.timestamp))
  {
  }

  /** Prefixes of messages with timestamps of the same sign determine kind and sender. */
  lemma PrefixDetermines(m: GossipMessage, n: GossipMessage)
    requires NoDash(m.from) && NoDash(n.from) && Prefix(m) == Prefix(n)
    requires m.timestamp < 0 <==> n.timestamp < 0
    ensures m.kind == n.kind && m.from == n.from
  {
    var p, q := m.kind + "-" + m.from, n.kind + "-" + n.from;
    assert p == Prefix(m)[..|p|] && q == Prefix(n)[..|q|];
    assert |p| == |q|;
    LastDash(m.kind, m.from, n.kind, n.from);
  }

  /** A prefix that ends in a dash without a minus sign has no sender before it. */
  lemma PrefixShadows(m: GossipMessage, n: GossipMessage)
    requires NoDash(n.from) && Prefix(m) == Prefix(n) && m.timestamp < 0 <= n.timestamp
    ensures n.from == "" && n.kind == m.kind + "-" + m.from
  {
    var p := Prefix(m);
    assert p[|p| - 1] == '-';
    EndsWithSender(n);
    assert p[..|p| - 1] == m.kind + "-" + m.from;
    assert p[..|p| - 1] == n.kind;
  }

  lemma EndsWithSender(n: GossipMessage)
    requires NoDash(n.from) && n.timestamp >= 0
    ensures Prefix(n)[|Prefix(n)| - 1] == '-' <==> n.from == ""
  {
    if n.from != "" {
      assert Prefix(n)[|Prefix(n)| - 1] == n.from[|n.from| - 1];
    }
  }

  /**
    Two messages have the same identifier exactly when they agree on kind, sender and timestamp,
    whatever their data, or the identifier of one is read with another split: a missing sender and
    opposite timestamps. Peer identifiers print as base58 text, which has no dash.
   */
  lemma IdentifiersExactly(m: GossipMessage, n: GossipMessage)
    requires NoDash(m.from) && NoDash(n.from)
    ensures MessageId(m) == MessageId(n) <==> SameHeader(m, n) || Shadows(m, n) || Shadows(n, m)
  {
    IdParts(m);
    IdParts(n);
    if MessageId(m) == MessageId(n) {
      DigitsNoDash(Magnitude(m.timestamp));
      DigitsNoDash(Magnitude(n.timestamp));
      LastDash(Prefix(m), Digits(Magnitude(m.timestamp)), Prefix(n), Digits(Magnitude(n.timestamp)));
      DigitsInjective(Magnitude(m.timestamp), Magnitude(n.timestamp));
      if m.timestamp < 0 <= n.timestamp {
        PrefixShadows(m, n);
      } else if n.timestamp < 0 <= m.timestamp {
        PrefixShadows(n, m);
      } else {
        PrefixDetermines(m, n);
      }
    } else {
      ShadowsCollide(m, n);
      ShadowsCollide(n, m);
    }
  }

  lemma ShadowsCollide(m: GossipMessage, n: GossipMessage)
    ensures Shadows(m, n) ==> MessageId(m) == MessageId(n)
  {
    IdParts(m);
    IdParts(n);
    if Shadows(m, n) {
      assert Prefix(n) == Prefix(m);
    }
  }

  /** Such a pair: times five nanoseconds before and after the epoch. */
  lemma IdentifiersCollide() returns (m: GossipMessage, n: GossipMessage)
    ensures NoDash(m.from) && NoDash(n.from) && m.from != n.from && m.kind != n.kind
    ensures MessageId(m) == MessageId(n)
  {
    m := GossipMessage("a", "X", [], -5);
    n := GossipMessage("a-X", "", [], 5);
    ShadowsCollide(m, n);
  }

  /** Senders that are there and times from the epoch on exclude such pairs. */
  lemma IdentifiersDistinct(m: GossipMessage, n: GossipMessage)
    requires NoDash(m.from) && NoDash(n.from)
    requires (m.from != "" && n.from != "") || (m.timestamp >= 0 && n.timestamp >= 0)
    ensures MessageId(m) == MessageId(n) <==> SameHeader(m, n)
  {
    IdentifiersExactly(m, n);
  }

  // ---------- one node ----------

  datatype HandleResult = Handled | Duplicate | DecodeFailed | HandlerFailed

  /** What a node does with a copy: what it has seen then, whether it ran the handler, whom it forwards to. */
  datatype Reaction = Reaction(seen: set<string>, first: bool, forwardTo: seq<Node>)

  function React(self: Node, seen: set<string>, from: Node, id: string, handlerOk: bool, peers: seq<Node>): Reaction {
    if id in seen then Reaction(seen, false, [])
    else Reaction(seen + {id}, true, if handlerOk then Targets(peers, self, from) else [])
  }

  /** Of the nodes sent to, those the send reaches. */
  function Reached(targets: seq<Node>, up: set<Node>): seq<Node> {
    if targets == [] then []
    else
      var front := Reached(targets[..|targets| - 1], up);
      var last := targets[|targets| - 1];
      if last in up then front + [last] else front
  }

  /** A send that fails stops no other: exactly the targets that are up are reached, each once if listed once. */
  lemma {:induction false} ReachedExactly(targets: seq<Node>, up: set<Node>)
    ensures forall v :: v in Reached(targets, up) <==> v in targets && v in up
    ensures Distinct(targets) ==> Distinct(Reached(targets, up))
  {
    if targets != [] {
      var n := |targets| - 1;
      ReachedExactly(targets[..n], up);
      assert targets == targets[..n] + [targets[n]];
    }
  }

  lemma {:induction false} AllReached(targets: seq<Node>, up: set<Node>)
    requires forall v :: v in targets ==> v in up
    ensures Reached(targets, up) == targets
  {
    if targets != [] {
      AllReached(targets[..|targets| - 1], up);
    }
  }

  lemma ReachedOneMore(targets: seq<Node>, p: Node, up: set<Node>)
    ensures Reached(targets + [p], up) == Reached(targets, up) + if p in up then [p] else []
  {
    assert (targets + [p])[..|targets|] == targets;
  }

  lemma TargetsOneMore(peers: seq<Node>, p: Node, self: Node, from: Node)
    ensures Targets(peers + [p], self, from) == Targets(peers, self, from) + if p != from && p != self then [p] else []
  {
    assert (peers + [p])[..|peers|] == peers;
  }

  class Gossip {
    const self: Node
    var handlers: set<string>
    var seenMsgs: map<string, bool>

    /** The identifiers whose handler step was run since the last cleanup, in order. */
    ghost var handled: seq<string>

    ghost function Seen(): set<string>
      reads this
    {
      set id | id in seenMsgs && seenMsgs[id]
    }

    /** Since the last cleanup no message was handled twice, and what was handled is what is marked. */
    ghost predicate Valid()
      reads this
    {
      && Distinct(handled)
      && (forall id :: id in handled <==> id in Seen())
    }

    constructor (self: Node)
      ensures Valid() && this.self == self && handlers == {} && Seen() == {}
    {
      this.self := self;
      handlers := {};
      seenMsgs := map[];
      handled := [];
    }

    method RegisterHandler(msgType: string)
      requires Valid()
      modifies this`handlers
      ensures Valid() && handlers == old(handlers) + {msgType}
    {
      handlers := handlers + {msgType};
    }

    /**
      Sends to the peers in turn and stops at the first that cannot be reached. The message is
      not marked as seen here.
     */
    method Broadcast(peers: seq<Node>, up: set<Node>) returns (sent: seq<Node>, ok: bool)
      requires Valid()
      ensures ok <==> forall v :: v in peers ==> v in up
      ensures |sent| <= |peers| && sent == peers[..|sent|] && (forall v :: v in sent ==> v in up)
      ensures ok ==> sent == peers
      ensures !ok ==> |sent| < |peers| && peers[|sent|] !in up
    {
      sent := [];
      for k := 0 to |peers|
        invariant sent == peers[..k] && forall v :: v in sent ==> v in up
      {
        if peers[k] !in up {
          return sent, false;
        }
        sent := sent + [peers[k]];
      }
      return sent, true;
    }

    /**
      `message` is None if the bytes do not decode; `handlerOk` is the outcome of the registered
      handler, if there is one. The state and the forwards are those of `React`.
     */
    method HandleMessage(from: Node, message: Option<GossipMessage>, handlerOk: bool, peers: seq<Node>, up: set<Node>)
      returns (sent: seq<Node>, r: HandleResult)
      requires Valid()
      modifies this`seenMsgs, this`handled
      ensures Valid()
      ensures r.DecodeFailed? <==> message.None?
      ensures message.None? ==> seenMsgs == old(seenMsgs) && handled == old(handled) && sent == []
      ensures message.Some? ==>
                var ok := message.value.kind !in handlers || handlerOk;
                var reaction := React(self, old(Seen()), from, MessageId(message.value), ok, peers);
                && Seen() == reaction.seen
                && sent == Reached(reaction.forwardTo, up)
                && handled == (if reaction.first then old(handled) + [MessageId(message.value)] else old(handled))
                && r == (if !reaction.first then Duplicate else if ok then Handled else HandlerFailed)
    {
      sent := [];
      if message.None? {
        return sent, DecodeFailed;
      }
      var msg := message.value;
      var first := MarkSeen(MessageId(msg));
      if !first {
        return sent, Duplicate;
      }
      if msg.kind in handlers && !handlerOk {
        return sent, HandlerFailed;
      }
      sent := Forward(from, peers, up);
      return sent, Handled;
    }

    /** The region under the lock: checks and marks an identifier. */
    method MarkSeen(msgId: string) returns (first: bool)
      requires Valid()
      modifies this`seenMsgs, this`handled
      ensures Valid() && Seen() == old(Seen()) + {msgId}
      ensures first <==> msgId !in old(Seen())
      ensures handled == if first then old(handled) + [msgId] else old(handled)
    {
      if msgId in seenMsgs && seenMsgs[msgId] {
        assert Seen() + {msgId} == Seen();
        return false;
      }
      seenMsgs := seenMsgs[msgId := true];
      handled := handled + [msgId];
      assert Seen() == old(Seen()) + {msgId};
      return true;
    }

    /** Sends to every peer but the node itself and the sender; a send that fails is logged and the loop goes on. */
    method Forward(from: Node, peers: seq<Node>, up: set<Node>) returns (sent: seq<Node>)
      ensures sent == Reached(Targets(peers, self, from), up)
    {
      sent := [];
      for k := 0 to |peers|
        invariant sent == Reached(Targets(peers[..k], self, from), up)
      {
        var p := peers[k];
        TargetsOneMore(peers[..k], p, self, from);
        assert peers[..k + 1] == peers[..k] + [p];
        if p != from && p != self {
          ReachedOneMore(Targets(peers[..k], self, from), p, up);
          if p in up {
            sent := sent + [p];
          }
        }
      }
      assert peers[..|peers|] == peers;
    }

    /** The cleanup tick replaces the map. */
    method CleanupSeenMessages()
      requires Valid()
      modifies this`seenMsgs, this`handled
      ensures Valid() && Seen() == {}
    {
      seenMsgs := map[];
      handled := [];
    }
  }

  // ---------- a network of nodes ----------

  /** One message's copies in flight, and its history. */
  datatype Traffic = Traffic(origin: Node, failed: set<Node>, flight: multiset<Hop>, sends: nat, deliveries: nat)

  /** What each node has seen, and the traffic of each message broadcast so far. */
  datatype Net = Net(seen: map<Node, set<string>>, traffic: map<string, Traffic>)

  function NetStart(g: Graph): Net {
    Net(map v | v in g :: {}, map[])
  }

  function NetBroadcast(g: Graph, net: Net, origin: Node, id: string): Net
    requires origin in g
  {
    net.(traffic := net.traffic[id := Traffic(origin, {}, Copies(origin, g[origin]), |g[origin]|, 0)])
  }

  function NetDeliver(g: Graph, net: Net, id: string, h: Hop, handlerOk: bool): Net
    requires id in net.traffic && h.dst in g && h.dst in net.seen
  {
    var t := net.traffic[id];
    var r := React(h.dst, net.seen[h.dst], h.src, id, handlerOk, g[h.dst]);
    Net(net.seen[h.dst := r.seen],
        net.traffic[id := t.(failed := if r.first && !handlerOk then t.failed + {h.dst} else t.failed,
                             flight := t.flight - multiset{h} + Copies(h.dst, r.forwardTo),
                             sends := t.sends + |r.forwardTo|,
                             deliveries := t.deliveries + 1)])
  }

  /** A broadcast of a message with a new identifier, or the delivery of some copy of some message. */
  datatype Event = NewMessage(origin: Node, id: string) | Delivery(id: string, hop: Hop, handlerOk: bool)

  ghost predicate Possible(g: Graph, net: Net, e: Event) {
    match e
    case NewMessage(origin, id) => origin in g && id !in net.traffic
    case Delivery(id, hop, _) =>
      id in net.traffic && hop in net.traffic[id].flight && hop.dst in g && hop.dst in net.seen
  }

  function Apply(g: Graph, net: Net, e: Event): Net
    requires Possible(g, net, e)
  {
    match e
    case NewMessage(origin, id) => NetBroadcast(g, net, origin, id)
    case Delivery(id, hop, ok) => NetDeliver(g, net, id, hop, ok)
  }

  ghost predicate NetRun(g: Graph, events: seq<Event>, nets: seq<Net>) {
    && |nets| == |events| + 1
    && nets[0] == NetStart(g)
    && forall i :: 0 <= i < |events| ==> Possible(g, nets[i], events[i]) && nets[i + 1] == Apply(g, nets[i], events[i])
  }

  /** The nodes that have marked a message. */
  function Holders(seen: map<Node, set<string>>, id: string): set<Node> {
    set v | v in seen && id in seen[v]
  }

  /** One message's share of the network, as the flood of a single message. */
  function FloodOf(net: Net, id: string): State
    requires id in net.traffic
  {
    var t := net.traffic[id];
    State(Holders(net.seen, id), t.failed, t.flight, t.sends, t.deliveries)
  }

  // ---------- the objects make up such a network ----------

  /** Every node of the network is an object of its own, and has seen what the network says. */
  ghost predicate Represents(nodes: map<Node, Gossip>, g: Graph, net: Net)
    reads nodes.Values
  {
    && nodes.Keys == g.Keys == net.seen.Keys
    && (forall v :: v in nodes ==> nodes[v].self == v && nodes[v].Valid() && nodes[v].Seen() == net.seen[v])
  }

  /** The outcome of a node's handler for a message: a missing handler does not fail. */
  predicate HandlerSucceeds(node: Gossip, message: GossipMessage, handlerOk: bool)
    reads node
  {
    message.kind !in node.handlers || handlerOk
  }

  /** When all peers are up, a node that handles a copy takes the network's delivery step; the copies it sends are those put in flight. */
  method DeliverCopy(nodes: map<Node, Gossip>, g: Graph, ghost net: Net, h: Hop, message: GossipMessage, handlerOk: bool, up: set<Node>)
    returns (sent: seq<Node>)
    requires Represents(nodes, g, net) && h.dst in g
    requires MessageId(message) in net.traffic
    requires forall v :: v in g[h.dst] ==> v in up
    modifies nodes[h.dst]
    ensures var id, ok := MessageId(message), old(HandlerSucceeds(nodes[h.dst], message, handlerOk));
            var next := NetDeliver(g, net, id, h, ok);
            && Represents(nodes, g, next)
            && next.traffic[id].flight == net.traffic[id].flight - multiset{h} + Copies(h.dst, sent)
  {
    ghost var ok := HandlerSucceeds(nodes[h.dst], message, handlerOk);
    var r;
    sent, r := nodes[h.dst].HandleMessage(h.src, Some(message), handlerOk, g[h.dst], up);
    AllReached(React(h.dst, net.seen[h.dst], h.src, MessageId(message), ok, g[h.dst]).forwardTo, up);
  }

  /** When all peers are up, a broadcast sends the copies the network puts in flight, and no node sees anything yet. */
  method BroadcastCopies(nodes: map<Node, Gossip>, g: Graph, ghost net: Net, origin: Node, id: string, up: set<Node>)
    returns (sent: seq<Node>)
    requires Represents(nodes, g, net) && origin in g
    requires forall v :: v in g[origin] ==> v in up
    ensures sent == g[origin]
    ensures Represents(nodes, g, NetBroadcast(g, net, origin, id))
    ensures NetBroadcast(g, net, origin, id).traffic[id].flight == Copies(origin, sent)
  {
    var ok;
    sent, ok := nodes[origin].Broadcast(g[origin], up);
  }

  /** Delivering a copy is a step of that message's flood. */
  lemma DeliveryRefines(g: Graph, net: Net, id: string, h: Hop, ok: bool)
    requires id in net.traffic && h.dst in g && h.dst in net.seen
    ensures FloodOf(NetDeliver(g, net, id, h, ok), id) == Deliver(g, FloodOf(net, id), h, ok)
  {
    var r := React(h.dst, net.seen[h.dst], h.src, id, ok, g[h.dst]);
    HoldersAfter(net.seen, h.dst, id, r.seen);
    ReactionDelivers(g, FloodOf(net, id), h, ok, r.forwardTo);
  }

  /** What a reaction does to a flood. */
  lemma ReactionDelivers(g: Graph, s: State, h: Hop, ok: bool, forwardTo: seq<Node>)
    requires h.dst in g
    requires forwardTo == if h.dst !in s.seen && ok then Targets(g[h.dst], h.dst, h.src) else []
    ensures Deliver(g, s, h, ok) ==
            State(s.seen + {h.dst},
                  if h.dst !in s.seen && !ok then s.failed + {h.dst} else s.failed,
                  s.flight - multiset{h} + Copies(h.dst, forwardTo),
                  s.sends + |forwardTo|,
                  s.deliveries + 1)
  {
    if h.dst in s.seen || !ok {
      NoCopies(s.flight - multiset{h}, h.dst);
    }
    if h.dst in s.seen {
      assert s.seen + {h.dst} == s.seen;
    }
  }

  lemma NoCopies(flight: multiset<Hop>, src: Node)
    ensures flight + Copies(src, []) == flight
  {
  }

  lemma HoldersAfter(seen: map<Node, set<string>>, dst: Node, id: string, now: set<string>)
    requires dst in seen && now == seen[dst] + {id}
    ensures Holders(seen[dst := now], id) == Holders(seen, id) + {dst}
  {
  }

  /** It leaves the flood of every other message alone. */
  lemma DeliveryFrames(g: Graph, net: Net, id: string, h: Hop, ok: bool, other: string)
    requires id in net.traffic && h.dst in g && h.dst in net.seen && other in net.traffic && other != id
    ensures FloodOf(NetDeliver(g, net, id, h, ok), other) == FloodOf(net, other)
  {
    assert FloodOf(NetDeliver(g, net, id, h, ok), other).seen == FloodOf(net, other).seen;
  }

  ghost predicate NetInv(g: Graph, net: Net) {
    && net.seen.Keys == g.Keys
    && (forall v, id :: v in net.seen && id in net.seen[v] ==> id in net.traffic)
    && (forall id :: id in net.traffic ==> Inv(g, net.traffic[id].origin, FloodOf(net, id)))
  }

  lemma StepKeepsFloods(g: Graph, net: Net, e: Event)
    requires ValidGraph(g) && NetInv(g, net) && Possible(g, net, e)
    ensures NetInv(g, Apply(g, net, e))
  {
    forall id | id in Apply(g, net, e).traffic
      ensures Inv(g, Apply(g, net, e).traffic[id].origin, FloodOf(Apply(g, net, e), id))
    {
      match e
      case NewMessage(origin, sent) => NewFloodKept(g, net, origin, sent, id);
      case Delivery(sent, h, ok) => DeliveredFloodKept(g, net, sent, h, ok, id);
    }
  }

  lemma NewFloodKept(g: Graph, net: Net, origin: Node, sent: string, id: string)
    requires ValidGraph(g) && NetInv(g, net) && origin in g && sent !in net.traffic
    requires id == sent || id in net.traffic
    ensures var next := NetBroadcast(g, net, origin, sent); Inv(g, next.traffic[id].origin, FloodOf(next, id))
  {
    var next := NetBroadcast(g, net, origin, sent);
    if id == sent {
      assert Holders(net.seen, sent) == {};
      assert FloodOf(next, id) == Flood.Broadcast(g, origin);
      BroadcastInv(g, origin);
    } else {
      assert FloodOf(next, id) == FloodOf(net, id);
    }
  }

  lemma DeliveredFloodKept(g: Graph, net: Net, sent: string, h: Hop, ok: bool, id: string)
    requires ValidGraph(g) && NetInv(g, net) && id in net.traffic
    requires sent in net.traffic && h in net.traffic[sent].flight && h.dst in g && h.dst in net.seen
    ensures var next := NetDeliver(g, net, sent, h, ok); Inv(g, next.traffic[id].origin, FloodOf(next, id))
  {
    if id != sent {
      DeliveryFrames(g, net, sent, h, ok, id);
    } else {
      DeliveryRefines(g, net, sent, h, ok);
      DeliverKeeps(g, net.traffic[id].origin, FloodOf(net, id), h, ok);
    }
  }

  lemma {:induction false} NetRunInv(g: Graph, events: seq<Event>, nets: seq<Net>, i: nat)
    requires ValidGraph(g) && NetRun(g, events, nets) && i < |nets|
    ensures NetInv(g, nets[i])
  {
    if i > 0 {
      NetRunInv(g, events, nets, i - 1);
      StepKeepsFloods(g, nets[i - 1], events[i - 1]);
      assert nets[i - 1 + 1] == Apply(g, nets[i - 1], events[i - 1]);
    }
  }

  /**
    In every run of the network, with any number of messages interleaved: once no copy of a
    message is in flight, the nodes that have it are exactly those its originator reaches through
    nodes whose handler did not fail on it.
   */
  lemma NetworkCoverage(g: Graph, events: seq<Event>, nets: seq<Net>, i: nat, id: string, v: Node)
    requires ValidGraph(g) && NetRun(g, events, nets) && i < |nets|
    requires id in nets[i].traffic && nets[i].traffic[id].flight == multiset{} && v in g
    ensures (v == nets[i].traffic[id].origin || (v in nets[i].seen && id in nets[i].seen[v])) <==>
            Reachable(g, nets[i].traffic[id].origin, g.Keys - nets[i].traffic[id].failed, v)
  {
    NetRunInv(g, events, nets, i);
    QuietCoverage(g, nets[i].traffic[id].origin, FloodOf(nets[i], id), v);
  }

  /** And at every moment each message has cost what its own flood costs, however many others there are. */
  lemma NetworkCost(g: Graph, events: seq<Event>, nets: seq<Net>, i: nat, id: string)
    requires ValidGraph(g) && Symmetric(g) && NetRun(g, events, nets) && i < |nets|
    requires id in nets[i].traffic
    ensures Balanced(g, nets[i].traffic[id].origin, FloodOf(nets[i], id))
  {
    NetRunInv(g, events, nets, i);
  }
}
