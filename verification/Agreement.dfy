/**
 What holds in the runs in which a delivered parent arrives after its own parent: no delivery crashes a
 node, heads are highest blocks, and with distinct ids nothing crashes and nodes with nothing left to
 receive agree on the height.
 */
module Agreement {
  import opened Wrappers
  import opened Blocks
  import opened Resolver
  import opened Walks
  import opened Mempool
  import opened Nodes
  import opened Network
  import opened Runs

  /**
   Causal delivery: when the parent of a delivered pair reaches the main loop, it or its own parent
   is already stored.  The sender's handing over the parent before the block covers the second half
   of every pair, not the first.
   */
  predicate Causal(net: Net, step: Step)
    requires Enabled(net, step)
  {
    step.DeliverParent? ==>
      var s, p := net.peers[step.i].node.store, step.pair.parent;
      p in s || Fetch(s, p.parentHash).Some?
  }

  ghost predicate IsCausalRun(nets: seq<Net>, steps: seq<Step>) {
    IsRun(nets, steps) && forall k :: 0 <= k < |steps| ==> CausalAt(nets, steps, k)
  }

  ghost predicate CausalAt(nets: seq<Net>, steps: seq<Step>, k: nat)
    requires |nets| == |steps| + 1 && k < |steps|
  {
    Enabled(nets[k], steps[k]) && Causal(nets[k], steps[k])
  }

  /** A pair holds a block and its parent; once the parent is handed over it is stored. */
  ghost predicate Deliverable(s: Store, d: Delivery) {
    && WellBuilt(d.block) && HasParent(d.block)
    && match d
       case Both(p, b) => Parent(b) == p
       case Rest(b) => Parent(b) in s
  }

  ghost predicate SafePeer(p: Peer) {
    NodeInv(p.node) && forall d :: d in p.inbox ==> Deliverable(p.node.store, d)
  }

  ghost predicate SafeNet(net: Net) {
    forall i :: 0 <= i < |net.peers| ==> SafePeer(net.peers[i])
  }

  lemma {:induction false} ReplaceIsSafe(net: Net, i: nat, p: Peer)
    requires SafeNet(net) && i < |net.peers| && SafePeer(p)
    ensures SafeNet(net.(peers := net.peers[i := p]))
  {
  }

  lemma {:induction false} ReceiveIsSafe(p: Peer, b: Block, inbox: multiset<Delivery>)
    requires SafePeer(p) && Arrivable(p.node, b)
    requires forall d :: d in inbox ==> Deliverable(p.node.store + {b}, d)
    ensures ReceiveAt(p, b, inbox).Running?
    ensures SafePeer(ReceiveAt(p, b, inbox).value)
    ensures Advanced(p.node, ReceiveAt(p, b, inbox).value.node, b)
  {
    ReceiveKeepsInv(p.node, b);
  }

  function AfterParent(p: Peer, d: Delivery): multiset<Delivery> {
    p.inbox - multiset{d} + multiset{Rest(d.block)}
  }

  lemma {:induction false} ParentIsSafe(p: Peer, d: Delivery)
    requires SafePeer(p) && d in p.inbox && d.Both?
    requires d.parent in p.node.store || Fetch(p.node.store, d.parent.parentHash).Some?
    ensures Arrivable(p.node, d.parent)
    ensures ReceiveAt(p, d.parent, AfterParent(p, d)).Running?
    ensures var p' := ReceiveAt(p, d.parent, AfterParent(p, d)).value;
            SafePeer(p') && Advanced(p.node, p'.node, d.parent)
  {
    assert Deliverable(p.node.store, d);
    var inbox := AfterParent(p, d);
    forall x | x in inbox ensures Deliverable(p.node.store + {d.parent}, x) {
      assert x == Rest(d.block) || x in p.inbox;
    }
    ReceiveIsSafe(p, d.parent, inbox);
  }

  lemma {:induction false} BlockIsSafe(p: Peer, b: Block)
    requires SafePeer(p) && Rest(b) in p.inbox
    ensures Arrivable(p.node, b)
    ensures ReceiveAt(p, b, p.inbox - multiset{Rest(b)}).Running?
    ensures var p' := ReceiveAt(p, b, p.inbox - multiset{Rest(b)}).value;
            SafePeer(p') && Advanced(p.node, p'.node, b)
  {
    assert Deliverable(p.node.store, Rest(b));
    ReceiveIsSafe(p, b, p.inbox - multiset{Rest(b)});
  }

  lemma {:induction false} TakeIsSafe(p: Peer)
    requires SafePeer(p) && |p.node.canonical| > 0
    ensures TakeAt(p).Running? && SafePeer(TakeAt(p).value)
  {
    TakeKeepsGrounded(p.node);
  }

  lemma {:induction false} FireIsSafe(p: Peer, c: Block)
    requires SafePeer(p) && c in p.node.rounds
    ensures FireAt(p, c).Running? && SafePeer(FireAt(p, c).value)
  {
    var b := FireKeepsGrounded(p.node, c);
  }

  lemma {:induction false} GossipIsSafe(p: Peer, t: Tx)
    requires SafePeer(p)
    ensures SafePeer(GossipAt(p, t))
  {
    AcceptKeepsGrounded(p.node, t);
  }

  lemma {:induction false} PostIsSafe(net: Net, sender: NodeId, a: Announcement, sent: set<Block>)
    requires SafeNet(net) && WellBuilt(a.block) && HasParent(a.block) && Parent(a.block) == a.parent
    ensures SafeNet(net.(peers := Posted(net.peers, sender, a), sent := sent))
  {
    hide NodeInv;
  }

  lemma {:induction false} AdoptIsSafeAtPeer(p: Peer, b: Block)
    requires SafePeer(p) && b in p.node.mined
    ensures AdoptMined(p.node, b).Running?
    ensures var (n, sent) := AdoptMined(p.node, b).value;
            && SafePeer(p.(node := n))
            && WellBuilt(b) && HasParent(b) && Parent(b) in p.node.store
            && Advanced(p.node.(mined := p.node.mined - multiset{b}), n, b)
            && (Ignored(p.node, b) <==> b.number <= p.node.head.number)
            && sent == if n.head == b then Some(Announcement(Parent(b), b)) else None
  {
    AdoptKeepsInv(p.node, b);
    AdoptKeepsGrounded(p.node, b);
  }

  lemma {:induction false} AdoptIsSafe(net: Net, i: nat, b: Block)
    requires SafeNet(net) && i < |net.peers| && b in net.peers[i].node.mined && AdoptAt(net, i, b).Running?
    ensures SafeNet(AdoptAt(net, i, b).value)
  {
    hide SafePeer, AdoptMined, PrintedAtAll, Posted;
    var p := net.peers[i];
    assert SafePeer(p);
    AdoptIsSafeAtPeer(p, b);
    var (n, sent) := AdoptMined(p.node, b).value;
    ReplaceIsSafe(net, i, p.(node := n));
    if sent.Some? {
      PostIsSafe(net.(peers := net.peers[i := p.(node := n)]), n.id, sent.value, net.sent + {b});
    }
  }

  lemma {:induction false} SendIsSafe(net: Net, i: nat, t: Tx)
    requires SafeNet(net) && i < |net.peers|
    ensures SafeNet(Apply(net, SendTx(i, t)).value)
  {
    hide NodeInv;
  }

  /**
   From a safe state a causal step ends the process only by printing a broadcast block (see
   `StepCrashesIff`), and the state after any other is safe.
   */
  lemma {:induction false} StepIsSafe(net: Net, step: Step)
    requires SafeNet(net) && Enabled(net, step) && Causal(net, step)
    ensures !step.Adopt? ==> Apply(net, step).Running?
    ensures Apply(net, step).Running? ==> SafeNet(Apply(net, step).value)
  {
    hide SafePeer, AdoptAt;
    var i, p := step.i, net.peers[step.i];
    assert SafePeer(p);
    match step {
      case SendTx(_, t) => SendIsSafe(net, i, t);
      case Adopt(_, b) =>
        if AdoptAt(net, i, b).Running? {
          AdoptIsSafe(net, i, b);
        }
      case Gossip(_, t) =>
        GossipIsSafe(p, t);
        ReplaceIsSafe(net, i, GossipAt(p, t));
      case Take(_) =>
        TakeIsSafe(p);
        ReplaceIsSafe(net, i, TakeAt(p).value);
      case Fire(_, c) =>
        FireIsSafe(p, c);
        ReplaceIsSafe(net, i, FireAt(p, c).value);
      case DeliverParent(_, d) =>
        ParentIsSafe(p, d);
        ReplaceIsSafe(net, i, ReceiveAt(p, d.parent, AfterParent(p, d)).value);
      case DeliverBlock(_, b) =>
        BlockIsSafe(p, b);
        ReplaceIsSafe(net, i, ReceiveAt(p, b, p.inbox - multiset{Rest(b)}).value);
    }
  }

  lemma {:induction false} RunIsSafe(nets: seq<Net>, steps: seq<Step>, k: nat)
    requires IsCausalRun(nets, steps) && k < |nets|
    ensures SafeNet(nets[k])
    decreases k
  {
    hide Apply, NodeInv;
    if k == 0 {
      forall i | 0 <= i < |nets[0].peers| ensures SafePeer(nets[0].peers[i]) {
        StartedInv(nets[0].peers[i].node.id);
        assert nets[0].peers[i].inbox == multiset{};
      }
    } else {
      RunIsSafe(nets, steps, k - 1);
      assert StepAt(nets, steps, k - 1) && CausalAt(nets, steps, k - 1);
      StepIsSafe(nets[k - 1], steps[k - 1]);
    }
  }

  /**
   Head maximality: in every state of a causal run each head is a stored block of the greatest
   stored height, so its height is the one the store's scan for the head finds.
   */
  lemma {:induction false} HeadIsHighest(nets: seq<Net>, steps: seq<Step>, k: nat, i: nat)
    requires IsCausalRun(nets, steps) && k < |nets| && i < |nets[k].peers|
    ensures var s := nets[k].peers[i].node;
            IsHighest(s.store, s.head) && forall b :: IsHighest(s.store, b) ==> b.number == s.head.number
  {
    RunIsSafe(nets, steps, k);
  }

  /* ---- No crash ---- */

  ghost predicate DistinctIds(net: Net) {
    forall i, j :: 0 <= i < j < |net.peers| ==> net.peers[i].node.id != net.peers[j].node.id
  }

  lemma {:induction false} IdsStay(net: Net, net': Net)
    requires NetRises(net, net')
    ensures DistinctIds(net) <==> DistinctIds(net')
  {
    forall i | 0 <= i < |net.peers| ensures net'.peers[i].node.id == net.peers[i].node.id {
      assert Rises(net.peers[i].node, net'.peers[i].node);
    }
  }

  ghost predicate AllPrintable(txs: set<Tx>) {
    forall t :: t in txs ==> Printable(t)
  }

  /** With distinct ids only the sender prints its block, and it has the parent. */
  lemma {:induction false} SenderHasParent(net: Net, i: nat, b: Block)
    requires SafeNet(net) && DistinctIds(net) && i < |net.peers| && b in net.peers[i].node.mined
    ensures !LacksParent(net.peers, net.peers[i].node.id, b)
  {
    hide SafePeer, AdoptMined, Advanced;
    assert SafePeer(net.peers[i]);
    AdoptIsSafeAtPeer(net.peers[i], b);
  }

  lemma {:induction false} MinedIsPrintable(net: Net, i: nat, b: Block)
    requires NetInv(net, false) && AllPrintable(net.txs) && i < |net.peers| && b in net.peers[i].node.mined
    ensures PrintTxs(b.txs).Running?
  {
    assert PeerInv(net.peers[i], false, net.txs);
    assert Good(b, false, net.txs);
    forall t | t in b.txs ensures Printable(t) {
      assert t in ChainTxs(b);
    }
    PrintTxsIff(b.txs);
  }

  /**
   No crash: in every state of a causal run with distinct ids, as long as every transaction broadcast can
   be printed, every enabled causal step goes through; neither a "Should not happen" exit nor a panic is
   reachable.
   */
  lemma {:induction false} NoCrash(nets: seq<Net>, steps: seq<Step>, k: nat, step: Step)
    requires IsCausalRun(nets, steps) && DistinctIds(nets[0]) && k < |nets| && AllPrintable(nets[k].txs)
    requires Enabled(nets[k], step) && Causal(nets[k], step)
    ensures Apply(nets[k], step).Running?
  {
    hide Apply, NetInv, SafeNet, GroundedNet, PrintTxs, LacksParent;
    RunIsSafe(nets, steps, k);
    StepIsSafe(nets[k], step);
    if step.Adopt? {
      RunKeepsNetInv(nets, steps, false, k);
      MinedIsPrintable(nets[k], step.i, step.mined);
      HeadsOnlyRise(nets, steps, 0, k);
      IdsStay(nets[0], nets[k]);
      SenderHasParent(nets[k], step.i, step.mined);
      CrashesExactlyWhen(nets, steps, k, step);
    }
  }

  /* ---- Agreement ---- */

  ghost predicate Known(sent: set<Block>, b: Block) {
    b == GENESIS || b in sent
  }

  ghost predicate Coming(inbox: multiset<Delivery>, b: Block) {
    exists d :: d in inbox && d.block == b
  }

  /** Whatever is, was or can become a head was broadcast. */
  ghost predicate OnlyKnown(sent: set<Block>, s: NodeState, inbox: multiset<Delivery>) {
    && Known(sent, s.head)
    && (forall c :: c in s.canonical ==> Known(sent, c))
    && (forall c :: c in s.rounds ==> Known(sent, c))
    && (forall m :: m in s.mined ==> HasParent(m) && Known(sent, Parent(m)))
    && (forall d :: d in inbox ==> d.block in sent && (d.Both? ==> Known(sent, d.parent)))
  }

  /** Whatever was broadcast is stored or on its way. */
  ghost predicate Reaches(sent: set<Block>, store: Store, inbox: multiset<Delivery>) {
    forall b :: b in sent ==> b in store || Coming(inbox, b)
  }

  ghost predicate SpreadPeer(sent: set<Block>, p: Peer) {
    OnlyKnown(sent, p.node, p.inbox) && Reaches(sent, p.node.store, p.inbox)
  }

  ghost predicate SpreadNet(net: Net) {
    forall i :: 0 <= i < |net.peers| ==> SpreadPeer(net.sent, net.peers[i])
  }

  lemma {:induction false} ReplaceSpreads(net: Net, i: nat, p: Peer)
    requires SpreadNet(net) && i < |net.peers| && SpreadPeer(net.sent, p)
    ensures SpreadNet(net.(peers := net.peers[i := p]))
  {
  }

  lemma {:induction false} AdvanceIsKnown(
    sent: set<Block>, s: NodeState, s': NodeState, b: Block, inbox: multiset<Delivery>)
    requires OnlyKnown(sent, s, inbox) && Advanced(s, s', b) && Known(sent, b)
    ensures OnlyKnown(sent, s', inbox)
  {
    hide WellBuilt, Announced, Ignored;
  }

  /** Handing over the parent leaves the block on its way. */
  lemma {:induction false} ParentInbox(sent: set<Block>, s: NodeState, p: Peer, d: Delivery)
    requires d in p.inbox && p.node.store <= s.store
    requires OnlyKnown(sent, s, p.inbox) && Reaches(sent, p.node.store, p.inbox)
    ensures OnlyKnown(sent, s, AfterParent(p, d)) && Reaches(sent, s.store, AfterParent(p, d))
  {
  }

  lemma {:induction false} BlockInbox(sent: set<Block>, s: NodeState, p: Peer, b: Block)
    requires OnlyKnown(sent, s, p.inbox) && Reaches(sent, p.node.store, p.inbox) && p.node.store + {b} <= s.store
    ensures var inbox := p.inbox - multiset{Rest(b)};
            OnlyKnown(sent, s, inbox) && Reaches(sent, s.store, inbox)
  {
  }

  lemma {:induction false} ParentSpreads(sent: set<Block>, p: Peer, d: Delivery)
    requires SafePeer(p) && SpreadPeer(sent, p) && d in p.inbox && d.Both?
    requires d.parent in p.node.store || Fetch(p.node.store, d.parent.parentHash).Some?
    ensures ReceiveAt(p, d.parent, AfterParent(p, d)).Running?
    ensures SpreadPeer(sent, ReceiveAt(p, d.parent, AfterParent(p, d)).value)
  {
    assert Known(sent, d.parent);
    hide NodeInv, OnlyKnown, Reaches;
    ParentIsSafe(p, d);
    var s := ReceiveAt(p, d.parent, AfterParent(p, d)).value.node;
    AdvanceIsKnown(sent, p.node, s, d.parent, p.inbox);
    ParentInbox(sent, s, p, d);
  }

  lemma {:induction false} BlockSpreads(sent: set<Block>, p: Peer, b: Block)
    requires SafePeer(p) && SpreadPeer(sent, p) && Rest(b) in p.inbox
    ensures ReceiveAt(p, b, p.inbox - multiset{Rest(b)}).Running?
    ensures SpreadPeer(sent, ReceiveAt(p, b, p.inbox - multiset{Rest(b)}).value)
  {
    BlockIsSafe(p, b);
    var s := ReceiveAt(p, b, p.inbox - multiset{Rest(b)}).value.node;
    AdvanceIsKnown(sent, p.node, s, b, p.inbox);
    BlockInbox(sent, s, p, b);
  }

  lemma {:induction false} GossipSpreads(sent: set<Block>, p: Peer, t: Tx)
    requires SpreadPeer(sent, p)
    ensures SpreadPeer(sent, GossipAt(p, t))
  {
  }

  lemma {:induction false} TakeSpreads(sent: set<Block>, p: Peer)
    requires SafePeer(p) && SpreadPeer(sent, p) && |p.node.canonical| > 0 && TakeAt(p).Running?
    ensures SpreadPeer(sent, TakeAt(p).value)
  {
  }

  lemma {:induction false} FireSpreads(sent: set<Block>, p: Peer, c: Block)
    requires SafePeer(p) && SpreadPeer(sent, p) && c in p.node.rounds && FireAt(p, c).Running?
    ensures SpreadPeer(sent, FireAt(p, c).value)
  {
  }

  lemma {:induction false} SentGrows(sent: set<Block>, p: Peer, a: Announcement)
    requires SpreadPeer(sent, p) && Known(sent, a.parent)
    ensures SpreadPeer(sent + {a.block}, p.(inbox := p.inbox + multiset{Both(a.parent, a.block)}))
  {
  }

  /** A node that adopts its own block has stored it; if it did not become the head nothing is announced. */
  lemma {:induction false} OwnBlockIsKnown(
    sent: set<Block>, s: NodeState, s': NodeState, b: Block, inbox: multiset<Delivery>)
    requires OnlyKnown(sent, s, inbox) && Reaches(sent, s.store, inbox)
    requires Advanced(s.(mined := s.mined - multiset{b}), s', b)
    ensures var sent' := if s'.head == b then sent + {b} else sent;
            OnlyKnown(sent', s', inbox) && Reaches(sent', s'.store, inbox)
  {
    hide WellBuilt, Announced, Ignored;
  }

  lemma {:induction false} AdopterSpreads(sent: set<Block>, p: Peer, b: Block)
    requires SafePeer(p) && SpreadPeer(sent, p) && b in p.node.mined && AdoptMined(p.node, b).Running?
    ensures var (n, a) := AdoptMined(p.node, b).value;
            && SpreadPeer(if a.Some? then sent + {b} else sent, p.(node := n))
            && n.id == p.node.id && (a.Some? ==> a.value.block == b && Known(sent, a.value.parent))
  {
    AdoptIsSafeAtPeer(p, b);
    OwnBlockIsKnown(sent, p.node, AdoptMined(p.node, b).value.0, b, p.inbox);
  }

  lemma {:induction false} AdoptSpreads(net: Net, i: nat, b: Block)
    requires SafeNet(net) && SpreadNet(net) && DistinctIds(net) && i < |net.peers| && b in net.peers[i].node.mined
    requires AdoptAt(net, i, b).Running?
    ensures SpreadNet(AdoptAt(net, i, b).value)
  {
    hide SafePeer, SpreadPeer, AdoptMined, PrintedAtAll;
    var p := net.peers[i];
    assert SafePeer(p) && SpreadPeer(net.sent, p);
    AdopterSpreads(net.sent, p, b);
    var (n, a) := AdoptMined(p.node, b).value;
    if a.Some? {
      var peers := Posted(net.peers[i := p.(node := n)], n.id, a.value);
      forall j | 0 <= j < |peers| ensures SpreadPeer(net.sent + {b}, peers[j]) {
        if j != i {
          SentGrows(net.sent, net.peers[j], a.value);
        }
      }
    } else {
      ReplaceSpreads(net, i, p.(node := n));
    }
  }

  lemma {:induction false} SendSpreads(net: Net, i: nat, t: Tx)
    requires SpreadNet(net) && i < |net.peers|
    ensures SpreadNet(Apply(net, SendTx(i, t)).value)
  {
  }

  lemma {:induction false} StepSpreads(net: Net, step: Step)
    requires SafeNet(net) && SpreadNet(net) && DistinctIds(net)
    requires Enabled(net, step) && Causal(net, step) && Apply(net, step).Running?
    ensures SpreadNet(Apply(net, step).value)
  {
    hide SafePeer, SpreadPeer;
    var i, p := step.i, net.peers[step.i];
    assert SafePeer(p) && SpreadPeer(net.sent, p);
    match step {
      case SendTx(_, t) => SendSpreads(net, i, t);
      case Adopt(_, b) => AdoptSpreads(net, i, b);
      case Gossip(_, t) =>
        GossipSpreads(net.sent, p, t);
        ReplaceSpreads(net, i, GossipAt(p, t));
      case Take(_) =>
        TakeSpreads(net.sent, p);
        ReplaceSpreads(net, i, TakeAt(p).value);
      case Fire(_, c) =>
        FireSpreads(net.sent, p, c);
        ReplaceSpreads(net, i, FireAt(p, c).value);
      case DeliverParent(_, d) =>
        ParentSpreads(net.sent, p, d);
        ReplaceSpreads(net, i, ReceiveAt(p, d.parent, AfterParent(p, d)).value);
      case DeliverBlock(_, b) =>
        BlockSpreads(net.sent, p, b);
        ReplaceSpreads(net, i, ReceiveAt(p, b, p.inbox - multiset{Rest(b)}).value);
    }
  }

  lemma {:induction false} RunSpreads(nets: seq<Net>, steps: seq<Step>, k: nat)
    requires IsCausalRun(nets, steps) && DistinctIds(nets[0]) && k < |nets|
    ensures SpreadNet(nets[k])
    decreases k
  {
    hide Apply, SafeNet;
    if k == 0 {
    } else {
      RunSpreads(nets, steps, k - 1);
      RunIsSafe(nets, steps, k - 1);
      HeadsOnlyRise(nets, steps, 0, k - 1);
      IdsStay(nets[0], nets[k - 1]);
      assert StepAt(nets, steps, k - 1) && CausalAt(nets, steps, k - 1);
      StepSpreads(nets[k - 1], steps[k - 1]);
    }
  }

  /** A node with nothing left to receive has stored every block that is a head anywhere, and is as high as any. */
  lemma {:induction false} DrainedNodeLeads(nets: seq<Net>, steps: seq<Step>, k: nat, i: nat, j: nat)
    requires IsCausalRun(nets, steps) && DistinctIds(nets[0])
    requires k < |nets| && i < |nets[k].peers| && j < |nets[k].peers|
    requires nets[k].peers[i].inbox == multiset{}
    ensures nets[k].peers[j].node.head in nets[k].peers[i].node.store
    ensures nets[k].peers[j].node.head.number <= nets[k].peers[i].node.head.number
  {
    RunSpreads(nets, steps, k);
    RunIsSafe(nets, steps, k);
    assert SpreadPeer(nets[k].sent, nets[k].peers[i]) && SpreadPeer(nets[k].sent, nets[k].peers[j]);
    assert SafePeer(nets[k].peers[i]);
  }

  /** Agreement at quiescence: once no pair is on its way, all heads have the same height. */
  lemma {:induction false} AgreementAtQuiescence(nets: seq<Net>, steps: seq<Step>, k: nat, i: nat, j: nat)
    requires IsCausalRun(nets, steps) && DistinctIds(nets[0])
    requires k < |nets| && i < |nets[k].peers| && j < |nets[k].peers|
    requires forall n :: 0 <= n < |nets[k].peers| ==> nets[k].peers[n].inbox == multiset{}
    ensures nets[k].peers[i].node.head.number == nets[k].peers[j].node.head.number
  {
    DrainedNodeLeads(nets, steps, k, i, j);
    DrainedNodeLeads(nets, steps, k, j, i);
  }
}
