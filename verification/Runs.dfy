/**
 What holds in every run, in whatever order blocks are delivered: heads only rise, subscribers see the
 canonical chain, and exactly which steps end a process.
 */
module Runs {
  import opened Wrappers
  import opened Blocks
  import opened Resolver
  import opened Walks
  import opened Mempool
  import opened Nodes
  import opened Network

  ghost predicate BuiltDelivery(d: Delivery) {
    WellBuilt(d.block) && (d.Both? ==> WellBuilt(d.parent))
  }

  ghost predicate GroundedPeer(p: Peer) {
    Grounded(p.node) && forall d :: d in p.inbox ==> BuiltDelivery(d)
  }

  ghost predicate GroundedNet(net: Net) {
    forall i :: 0 <= i < |net.peers| ==> GroundedPeer(net.peers[i])
  }

  /** Between two states of one node: same identity, blocks are kept, the head is kept or higher. */
  ghost predicate Rises(s: NodeState, s': NodeState) {
    && s'.id == s.id
    && s.store <= s'.store
    && (s'.head == s.head || s'.head.number > s.head.number)
  }

  ghost predicate NetRises(net: Net, net': Net) {
    |net'.peers| == |net.peers| &&
    forall i :: 0 <= i < |net.peers| ==> Rises(net.peers[i].node, net'.peers[i].node)
  }

  lemma {:induction false} RisesTransitive(x: Net, y: Net, z: Net)
    requires NetRises(x, y) && NetRises(y, z)
    ensures NetRises(x, z)
  {
  }

  lemma {:induction false} ReplaceIsGrounded(net: Net, i: nat, p: Peer)
    requires GroundedNet(net) && i < |net.peers| && GroundedPeer(p) && Rises(net.peers[i].node, p.node)
    ensures var net' := net.(peers := net.peers[i := p]); GroundedNet(net') && NetRises(net, net')
  {
  }

  /* ---- Every step keeps nodes grounded ---- */

  lemma {:induction false} ReceiveIsGrounded(p: Peer, b: Block, inbox: multiset<Delivery>)
    requires GroundedPeer(p) && WellBuilt(b) && ReceiveAt(p, b, inbox).Running?
    requires forall d :: d in inbox ==> BuiltDelivery(d)
    ensures var p' := ReceiveAt(p, b, inbox).value; GroundedPeer(p') && Rises(p.node, p'.node)
  {
    ReceiveKeepsGrounded(p.node, b);
  }

  lemma {:induction false} TakeIsGrounded(p: Peer)
    requires GroundedPeer(p) && |p.node.canonical| > 0
    ensures TakeAt(p).Running? && GroundedPeer(TakeAt(p).value) && Rises(p.node, TakeAt(p).value.node)
  {
    TakeKeepsGrounded(p.node);
  }

  lemma {:induction false} FireIsGrounded(p: Peer, c: Block)
    requires GroundedPeer(p) && c in p.node.rounds
    ensures FireAt(p, c).Running? && GroundedPeer(FireAt(p, c).value) && Rises(p.node, FireAt(p, c).value.node)
  {
    var b := FireKeepsGrounded(p.node, c);
  }

  lemma {:induction false} GossipIsGrounded(p: Peer, t: Tx)
    requires GroundedPeer(p)
    ensures GroundedPeer(GossipAt(p, t)) && Rises(p.node, GossipAt(p, t).node)
  {
    AcceptKeepsGrounded(p.node, t);
  }

  lemma {:induction false} PostIsGrounded(net: Net, sender: NodeId, a: Announcement, sent: set<Block>)
    requires GroundedNet(net) && WellBuilt(a.block) && WellBuilt(a.parent)
    ensures var net' := net.(peers := Posted(net.peers, sender, a), sent := sent);
            GroundedNet(net') && NetRises(net, net')
  {
  }

  lemma {:induction false} SendIsGrounded(net: Net, i: nat, t: Tx)
    requires GroundedNet(net) && i < |net.peers|
    ensures var net' := Apply(net, SendTx(i, t)).value; GroundedNet(net') && NetRises(net, net')
  {
  }

  /** A mined block never crashes its own node, is then stored there, and is announced exactly when it is the head. */
  lemma {:induction false} AdoptIsGroundedAtPeer(p: Peer, b: Block)
    requires GroundedPeer(p) && b in p.node.mined
    ensures AdoptMined(p.node, b).Running?
    ensures var (n, sent) := AdoptMined(p.node, b).value;
            && GroundedPeer(p.(node := n)) && Rises(p.node, n)
            && WellBuilt(b) && HasParent(b) && WellBuilt(Parent(b)) && Parent(b) in p.node.store
            && sent == if Sends(p.node, b) then Some(Announcement(Parent(b), b)) else None
  {
    AdoptKeepsGrounded(p.node, b);
  }

  /** Adopting the mined block `b` broadcasts it: it is higher than the head, or the head itself mined again. */
  predicate Sends(s: NodeState, b: Block) {
    b.number > s.head.number || b == s.head
  }

  lemma {:induction false} AdoptIsGrounded(net: Net, i: nat, b: Block)
    requires GroundedNet(net) && i < |net.peers| && b in net.peers[i].node.mined && AdoptAt(net, i, b).Running?
    ensures GroundedNet(AdoptAt(net, i, b).value) && NetRises(net, AdoptAt(net, i, b).value)
  {
    hide GroundedPeer, Rises, AdoptMined, PrintedAtAll, Posted;
    var p := net.peers[i];
    assert GroundedPeer(p);
    AdoptIsGroundedAtPeer(p, b);
    var (n, sent) := AdoptMined(p.node, b).value;
    ReplaceIsGrounded(net, i, p.(node := n));
    if sent.Some? {
      var net1, net' := net.(peers := net.peers[i := p.(node := n)]), AdoptAt(net, i, b).value;
      PostIsGrounded(net1, n.id, sent.value, net.sent + {b});
      RisesTransitive(net, net1, net');
    }
  }

  /** The block a delivery step hands to the main loop. */
  function Taken(step: Step): Block
    requires (step.DeliverParent? && step.pair.Both?) || step.DeliverBlock?
  {
    if step.DeliverParent? then step.pair.parent else step.block
  }

  lemma {:induction false} DeliverIsGrounded(net: Net, step: Step)
    requires GroundedNet(net) && Enabled(net, step) && (step.DeliverParent? || step.DeliverBlock?)
    ensures GroundedPeer(net.peers[step.i]) && WellBuilt(Taken(step))
    ensures Apply(net, step).Running? ==>
              GroundedNet(Apply(net, step).value) && NetRises(net, Apply(net, step).value)
  {
    var i, p, b := step.i, net.peers[step.i], Taken(step);
    assert GroundedPeer(p);
    var inbox := if step.DeliverParent? then p.inbox - multiset{step.pair} + multiset{Rest(step.pair.block)}
                 else p.inbox - multiset{Rest(b)};
    assert forall d :: d in inbox ==> BuiltDelivery(d) by {
      assert step.DeliverParent? ==> BuiltDelivery(step.pair);
    }
    assert WellBuilt(b) by {
      assert step.DeliverBlock? ==> BuiltDelivery(Rest(b));
    }
    hide Grounded, ReceiveBlock;
    if Apply(net, step).Running? {
      ReceiveIsGrounded(p, b, inbox);
      ReplaceIsGrounded(net, i, ReceiveAt(p, b, inbox).value);
    }
  }

  /** Every step that does not end the process keeps every node grounded, and no head is lowered. */
  lemma {:induction false} StepKeepsGrounded(net: Net, step: Step)
    requires GroundedNet(net) && Enabled(net, step) && Apply(net, step).Running?
    ensures GroundedNet(Apply(net, step).value) && NetRises(net, Apply(net, step).value)
  {
    hide GroundedPeer, Rises, AdoptAt;
    var i, p := step.i, net.peers[step.i];
    assert GroundedPeer(p);
    match step {
      case SendTx(_, t) => SendIsGrounded(net, i, t);
      case Adopt(_, b) => AdoptIsGrounded(net, i, b);
      case Gossip(_, t) =>
        GossipIsGrounded(p, t);
        ReplaceIsGrounded(net, i, GossipAt(p, t));
      case Take(_) =>
        TakeIsGrounded(p);
        ReplaceIsGrounded(net, i, TakeAt(p).value);
      case Fire(_, c) =>
        FireIsGrounded(p, c);
        ReplaceIsGrounded(net, i, FireAt(p, c).value);
      case DeliverParent(_, _) => DeliverIsGrounded(net, step);
      case DeliverBlock(_, _) => DeliverIsGrounded(net, step);
    }
  }

  lemma {:induction false} RunIsGrounded(nets: seq<Net>, steps: seq<Step>, k: nat)
    requires IsRun(nets, steps) && k < |nets|
    ensures GroundedNet(nets[k])
    decreases k
  {
    hide Apply, Grounded;
    if k == 0 {
      forall i | 0 <= i < |nets[0].peers| ensures GroundedPeer(nets[0].peers[i]) {
        StartedGrounded(nets[0].peers[i].node.id);
        assert nets[0].peers[i].inbox == multiset{};
      }
    } else {
      RunIsGrounded(nets, steps, k - 1);
      assert StepAt(nets, steps, k - 1);
      StepKeepsGrounded(nets[k - 1], steps[k - 1]);
    }
  }

  /** Heads only rise: between any two states of any run a head is kept or replaced by a higher block. */
  lemma {:induction false} HeadsOnlyRise(nets: seq<Net>, steps: seq<Step>, k: nat, l: nat)
    requires IsRun(nets, steps) && k <= l < |nets|
    ensures NetRises(nets[k], nets[l])
    decreases l
  {
    hide Apply, GroundedNet;
    if k == l {
      assert NetRises(nets[k], nets[k]);
    } else {
      HeadsOnlyRise(nets, steps, k, l - 1);
      RunIsGrounded(nets, steps, l - 1);
      assert StepAt(nets, steps, l - 1);
      StepKeepsGrounded(nets[l - 1], steps[l - 1]);
      RisesTransitive(nets[k], nets[l - 1], nets[l]);
    }
  }

  /**
   Announcements refine the canonical chain: in every state of every run a subscriber that has consumed
   the published headers in order holds exactly the path from the genesis block to the head, one block
   per height, through every reorg; and all of it is stored.
   */
  lemma {:induction false} SubscribersSeeCanonicalChain(nets: seq<Net>, steps: seq<Step>, k: nat, i: nat)
    requires IsRun(nets, steps) && k < |nets| && i < |nets[k].peers|
    ensures var s := nets[k].peers[i].node;
            var view := ConsumeAll([], s.headers);
            && |view| == s.head.number + 1 && view[0] == GENESIS && view[s.head.number] == s.head
            && (forall j :: 0 <= j < |view| ==> view[j].number == j)
            && (forall b :: b in view <==> Ancestor(b, s.head))
            && (forall b :: b in view ==> b in s.store)
  {
    RunIsGrounded(nets, steps, k);
    var s := nets[k].peers[i].node;
    assert GroundedPeer(nets[k].peers[i]);
    ChainShape(s.head);
    forall b | Ancestor(b, s.head) ensures b in s.store {
      AncestorIsLower(b, s.head);
      GenesisIsAncestor(b);
      LinkedBetween(s.store, GENESIS, b, s.head);
      LinkedIsAncestor(s.store, b, s.head);
    }
  }

  /* ---- What a round offers ---- */

  lemma {:induction false} RoundGoesThrough(nets: seq<Net>, steps: seq<Step>, k: nat, i: nat, c: Block)
    requires IsRun(nets, steps) && k < |nets| && i < |nets[k].peers| && c in nets[k].peers[i].node.rounds
    ensures FireAt(nets[k].peers[i], c).Running? && PeerInv(nets[k].peers[i], false, nets[k].txs) && WellBuilt(c)
  {
    RunKeepsNetInv(nets, steps, false, k);
    RunIsGrounded(nets, steps, k);
    assert GroundedPeer(nets[k].peers[i]);
    FireIsGrounded(nets[k].peers[i], c);
  }

  /**
   The miner refines a naive one.  In every run every scheduled round goes through, and while the chain of the
   round's block still contains every block pruned at, it offers exactly the transactions ever received that
   are not on that chain, in the order received: neither the cache nor the pruning shows.
   */
  lemma {:induction false} RoundRefinesNaiveMiner(nets: seq<Net>, steps: seq<Step>, k: nat, i: nat, c: Block)
    requires IsRun(nets, steps) && k < |nets| && i < |nets[k].peers| && c in nets[k].peers[i].node.rounds
    requires forall a :: a in nets[k].peers[i].log.pruned ==> Ancestor(a, c)
    ensures FireAt(nets[k].peers[i], c).Running?
    ensures var p := nets[k].peers[i];
            FireAt(p, c).value.node.mined ==
            p.node.mined + multiset{NewBlock(Some(c), p.node.id, RemoveExisting(p.log.accepted, Included(c)))}
  {
    var p := nets[k].peers[i];
    RoundGoesThrough(nets, steps, k, i, c);
    FireOffers(p, c, false, nets[k].txs);
    forall a | a in p.log.pruned ensures Included(a) <= Included(c) {
      IncludedGrows(a, c);
    }
  }

  /** In every run, once a round has fired, its block and all its ancestors above the genesis block are cached. */
  lemma {:induction false} RoundFillsCache(nets: seq<Net>, steps: seq<Step>, k: nat, i: nat, c: Block, a: Block)
    requires IsRun(nets, steps) && k < |nets| && i < |nets[k].peers| && c in nets[k].peers[i].node.rounds
    requires Ancestor(a, c) && a != GENESIS
    ensures FireAt(nets[k].peers[i], c).Running?
    ensures var cache := FireAt(nets[k].peers[i], c).value.node.cache;
            Digest(a) in cache && cache[Digest(a)] == Included(a)
  {
    var p := nets[k].peers[i];
    RoundGoesThrough(nets, steps, k, i, c);
    FireOffers(p, c, false, nets[k].txs);
    AskedIsCached(p.node.store, p.node.cache, c);
  }

  /* ---- Exactly which steps end a process ---- */

  /** The block would become the head, but its chain down to the head's is not stored. */
  ghost predicate Unreached(s: NodeState, b: Block)
    requires WellBuilt(s.head) && WellBuilt(b)
  {
    b !in s.store && !Ignored(s, b) && !Linked(s.store + {b}, Meet(s.head, b), b)
  }

  /** The block extends the head by more than one. */
  ghost predicate SkipsHeight(s: NodeState, b: Block) {
    b !in s.store && !Ignored(s, b) && Linked(s.store + {b}, s.head, b) && b.number > s.head.number + 1
  }

  lemma {:induction false} ReceiveCrashesIff(s: NodeState, b: Block)
    requires Grounded(s) && WellBuilt(b)
    ensures ReceiveBlock(s, b).Panic? <==> Unreached(s, b)
    ensures ReceiveBlock(s, b).Crit? <==> SkipsHeight(s, b)
  {
    ProcessOutcome(s, b);
    MeetOfAncestor(s.head, b);
    if Linked(s.store + {b}, s.head, b) {
      LinkedIsAncestor(s.store + {b}, s.head, b);
    }
  }

  lemma {:induction false} SameLack(peers: seq<Peer>, i: nat, p: Peer, b: Block)
    requires i < |peers| && p.node.id == peers[i].node.id
    requires Fetch(peers[i].node.store, b.parentHash).Some? && Fetch(p.node.store, b.parentHash).Some?
    ensures HasId(peers[i := p], p.node.id)
    ensures LacksParent(peers[i := p], p.node.id, b) <==> LacksParent(peers, p.node.id, b)
  {
    assert peers[i := p][i].node.id == p.node.id;
    forall j | 0 <= j < |peers| && j != i ensures peers[i := p][j] == peers[j] {
    }
  }

  /** A step that adopts the mined block `b` panics: it broadcasts the block, and printing it panics. */
  ghost predicate PrintPanics(s: NodeState, b: Block) {
    Sends(s, b) && PrintTxs(b.txs).Panic?
  }

  /**
   A step that adopts the mined block `b` exits: it broadcasts the block, and a rollup in it does not decode
   or a node with the same id lacks its parent.
   */
  ghost predicate PrintExits(peers: seq<Peer>, s: NodeState, b: Block) {
    Sends(s, b) && (PrintTxs(b.txs).Crit? || (PrintTxs(b.txs).Running? && LacksParent(peers, s.id, b)))
  }

  lemma {:induction false} AdoptCrashesIff(net: Net, i: nat, b: Block)
    requires GroundedNet(net) && i < |net.peers| && b in net.peers[i].node.mined
    ensures AdoptAt(net, i, b).Panic? <==> PrintPanics(net.peers[i].node, b)
    ensures AdoptAt(net, i, b).Crit? <==> PrintExits(net.peers, net.peers[i].node, b)
  {
    hide GroundedPeer, AdoptMined, PrintTxs, PrintedAtAll, LacksParent, HasId, Posted;
    var p := net.peers[i];
    assert GroundedPeer(p);
    AdoptIsGroundedAtPeer(p, b);
    var (n, sent) := AdoptMined(p.node, b).value;
    if sent.Some? {
      SameLack(net.peers, i, p.(node := n), b);
      PrintedAtAllIff(net.peers[i := p.(node := n)], n.id, b);
    }
  }

  /** Which of the two ways of ending the process the outcome of the step is, told from the state before. */
  ghost predicate CrashCondition(net: Net, step: Step, r: Outcome<Net>)
    requires Enabled(net, step)
  {
    var s := net.peers[step.i].node;
    match step
    case SendTx(_, _) => r.Running?
    case Gossip(_, _) => r.Running?
    case Take(_) => r.Running?
    case Fire(_, _) => r.Running?
    case Adopt(_, b) => (r.Panic? <==> PrintPanics(s, b)) && (r.Crit? <==> PrintExits(net.peers, s, b))
    case DeliverParent(_, d) => DeliveryCrashes(s, d.parent, r)
    case DeliverBlock(_, b) => DeliveryCrashes(s, b, r)
  }

  ghost predicate DeliveryCrashes(s: NodeState, b: Block, r: Outcome<Net>) {
    && WellBuilt(s.head) && WellBuilt(b)
    && (r.Panic? <==> Unreached(s, b))
    && (r.Crit? <==> SkipsHeight(s, b))
  }

  lemma {:induction false} StepCrashesIff(net: Net, step: Step)
    requires GroundedNet(net) && Enabled(net, step)
    ensures CrashCondition(net, step, Apply(net, step))
  {
    var i, p := step.i, net.peers[step.i];
    assert GroundedPeer(p);
    match step {
      case SendTx(_, _) =>
      case Gossip(_, _) =>
      case Take(_) => TakeIsGrounded(p);
      case Fire(_, c) => FireIsGrounded(p, c);
      case Adopt(_, b) => AdoptCrashesIff(net, i, b);
      case DeliverParent(_, _) =>
        DeliverIsGrounded(net, step);
        ReceiveCrashesIff(p.node, Taken(step));
      case DeliverBlock(_, _) =>
        DeliverIsGrounded(net, step);
        ReceiveCrashesIff(p.node, Taken(step));
    }
  }

  /**
   In every state of every run, whatever was delivered before: broadcasting or receiving a transaction,
   taking a canonical block and firing a round never end the process, nor does processing a mined block;
   announcing it does exactly when printing it fails.  A delivered block ends it exactly when it is new,
   higher than the head and cut off from the head's chain, or extends the head by more than one.
   */
  lemma {:induction false} CrashesExactlyWhen(nets: seq<Net>, steps: seq<Step>, k: nat, step: Step)
    requires IsRun(nets, steps) && k < |nets| && Enabled(nets[k], step)
    ensures CrashCondition(nets[k], step, Apply(nets[k], step))
  {
    RunIsGrounded(nets, steps, k);
    StepCrashesIff(nets[k], step);
  }
}
