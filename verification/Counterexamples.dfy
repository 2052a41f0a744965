/** Runs showing that the hypotheses of the run theorems cannot be dropped, and the exact forms they give. */
module Counterexamples {
  import opened Wrappers
  import opened Blocks
  import opened Resolver
  import opened Walks
  import opened Mempool
  import opened Nodes
  import opened Network
  import opened Runs
  import opened Agreement
  import opened Reachability

  /* ---- One node mining ---- */

  ghost predicate Queues(s: NodeState, canonical: seq<Block>, rounds: multiset<Block>, mined: multiset<Block>) {
    s.canonical == canonical && s.rounds == rounds && s.mined == mined
  }

  ghost predicate SameButQueues(p: Peer, p': Peer) {
    && p'.node.id == p.node.id && p'.node.mempool == p.node.mempool && p'.inbox == p.inbox && p'.gossip == p.gossip
    && p'.node.head == p.node.head && p'.node.store == p.node.store
  }

  /** Ready to mine: the head is announced, nothing else is under way at node `i`, and nothing is pruned yet. */
  ghost predicate Ready(net: Net, i: nat) {
    && i < |net.peers|
    && var s := net.peers[i].node;
       Queues(s, [s.head], multiset{}, multiset{}) && s.head.number <= HEIGHT_COMMITTED
  }

  lemma {:induction false} TakeHead(p: Peer)
    requires SafePeer(p) && Queues(p.node, [p.node.head], multiset{}, multiset{})
    requires p.node.head.number <= HEIGHT_COMMITTED
    ensures TakeAt(p).Running?
    ensures var p' := TakeAt(p).value;
            SameButQueues(p, p') && Queues(p'.node, [], multiset{p.node.head}, multiset{})
  {
  }

  /** The block node `s` mines on its head. */
  ghost function Next(s: NodeState): Block {
    NewBlock(Some(s.head), s.id, RemoveExisting(s.mempool, Included(s.head)))
  }

  lemma {:induction false} FireHead(p: Peer)
    requires SafePeer(p) && Queues(p.node, [], multiset{p.node.head}, multiset{})
    ensures FireAt(p, p.node.head).Running?
    ensures var p' := FireAt(p, p.node.head).value;
            SameButQueues(p, p') && Queues(p'.node, [], multiset{}, multiset{Next(p.node)})
  {
    var b := FireKeepsGrounded(p.node, p.node.head);
    assert b == Next(p.node);
  }

  /** Node `i` takes its head and fires the round on it: the next block is mined but not yet adopted. */
  lemma {:induction false} MineRound(start: Net, net: Net, i: nat) returns (net': Net)
    requires Reached(start, net, true) && Ready(net, i)
    ensures Reached(start, net', true) && OthersSame(net, net', i)
    ensures SameButQueues(net.peers[i], net'.peers[i])
    ensures Queues(net'.peers[i].node, [], multiset{}, multiset{Next(net.peers[i].node)})
  {
    hide Reached, SafePeer, TakeAt, FireAt;
    var p := net.peers[i];
    ReachedIsSafeAt(start, net, i);
    TakeHead(p);
    var net1 := StepAtPeer(start, net, Take(i), TakeAt(p).value);
    var p1 := net1.peers[i];
    ReachedIsSafeAt(start, net1, i);
    FireHead(p1);
    net' := StepAtPeer(start, net1, Fire(i, p.node.head), FireAt(p1, p.node.head).value);
  }

  /** Another node after a node with the id `sender` has broadcast `b`. */
  ghost function Told(other: Peer, sender: NodeId, b: Block): Peer
    requires HasParent(b)
  {
    if other.node.id != sender then other.(inbox := other.inbox + multiset{Both(Parent(b), b)}) else other
  }

  ghost predicate Adopted(p: Peer, p': Peer, b: Block) {
    && p'.node.id == p.node.id && p'.node.mempool == p.node.mempool && p'.inbox == p.inbox && p'.gossip == p.gossip
    && p'.node.head == b && p'.node.store == p.node.store + {b} && Queues(p'.node, [b], multiset{}, multiset{})
  }

  lemma {:induction false} AdoptsAtPeer(p: Peer, b: Block)
    requires SafePeer(p) && Queues(p.node, [], multiset{}, multiset{b}) && b.number == p.node.head.number + 1
    ensures HasParent(b) && AdoptMined(p.node, b).Running?
    ensures var (n, sent) := AdoptMined(p.node, b).value;
            Adopted(p, p.(node := n), b) && sent == Some(Announcement(Parent(b), b))
  {
    AdoptIsSafeAtPeer(p, b);
  }

  /** Node `i` adopts and broadcasts the block it has mined, given that printing it goes through. */
  lemma {:induction false} AdoptNext(start: Net, net: Net, i: nat, b: Block) returns (net': Net)
    requires Reached(start, net, true) && i < |net.peers| && Queues(net.peers[i].node, [], multiset{}, multiset{b})
    requires b.number == net.peers[i].node.head.number + 1
    requires PrintTxs(b.txs).Running? && !LacksParent(net.peers, net.peers[i].node.id, b)
    ensures Reached(start, net', true) && |net'.peers| == |net.peers| && net'.txs == net.txs
    ensures HasParent(b) && Adopted(net.peers[i], net'.peers[i], b)
    ensures forall j :: 0 <= j < |net.peers| && j != i ==> net'.peers[j] == Told(net.peers[j], net.peers[i].node.id, b)
  {
    hide Reached, SafePeer, AdoptMined, PrintedAtAll, LacksParent, GroundedNet;
    var p := net.peers[i];
    ReachedIsSafeAt(start, net, i);
    ReachedIsSafe(start, net);
    AdoptsAtPeer(p, b);
    AdoptCrashesIff(net, i, b);
    Reach(start, net, Adopt(i, b), true);
    net' := Apply(net, Adopt(i, b)).value;
    var (n, sent) := AdoptMined(p.node, b).value;
    assert net'.peers == Posted(net.peers[i := p.(node := n)], n.id, sent.value);
  }

  ghost predicate MinedOnce(net: Net, net': Net, i: nat, b: Block)
    requires HasParent(b) && i < |net.peers|
  {
    && |net'.peers| == |net.peers| && net'.txs == net.txs && Adopted(net.peers[i], net'.peers[i], b)
    && forall j :: 0 <= j < |net.peers| && j != i ==> net'.peers[j] == Told(net.peers[j], net.peers[i].node.id, b)
  }

  /** One round of node `i`: taking its head, firing, and adopting the mined block. */
  lemma {:induction false} MineOnce(start: Net, net: Net, i: nat, b: Block) returns (net': Net)
    requires Reached(start, net, true) && Ready(net, i) && b == Next(net.peers[i].node)
    requires PrintTxs(b.txs).Running? && !LacksParent(net.peers, net.peers[i].node.id, b)
    ensures Reached(start, net', true) && HasParent(b) && MinedOnce(net, net', i, b)
  {
    hide Reached;
    var net1 := MineRound(start, net, i);
    LackStays(net, net1, i, b);
    net' := AdoptNext(start, net1, i, b);
  }

  lemma {:induction false} LackStays(net: Net, net': Net, i: nat, b: Block)
    requires i < |net.peers| && OthersSame(net, net', i) && SameButQueues(net.peers[i], net'.peers[i])
    ensures LacksParent(net.peers, net.peers[i].node.id, b) <==> LacksParent(net'.peers, net'.peers[i].node.id, b)
  {
    forall j | 0 <= j < |net.peers|
      ensures net'.peers[j].node.id == net.peers[j].node.id && net'.peers[j].node.store == net.peers[j].node.store
    {
    }
  }

  /** The first block a fresh node mines. */
  ghost function FirstBlock(id: NodeId): (b: Block)
    ensures b.txs == [] && HasParent(b) && Parent(b) == GENESIS && b.number == 1
  {
    NewBlock(Some(GENESIS), id, [])
  }

  /** From any start, node `i` can mine its first block, whatever the ids. */
  lemma {:induction false} MineFirst(start: Net, i: nat) returns (net: Net)
    requires Initial(start) && i < |start.peers|
    ensures Reached(start, net, true)
    ensures MinedOnce(start, net, i, FirstBlock(start.peers[i].node.id))
  {
    StartIsReached(start);
    var b := FirstBlock(start.peers[i].node.id);
    assert forall j :: 0 <= j < |start.peers| ==> start.peers[j].node == Started(start.peers[j].node.id);
    assert Next(start.peers[i].node) == b;
    net := MineOnce(start, start, i, b);
  }

  /* ---- Equal ids: the exact conditions of the no-crash and agreement theorems ---- */

  /** In no causal run from `start` with printable transactions does a causal step end a process. */
  ghost predicate NeverCrashes(start: Net) {
    forall net, step ::
      Reached(start, net, true) && AllPrintable(net.txs) && Enabled(net, step) && Causal(net, step) ==>
        Apply(net, step).Running?
  }

  /** A node whose twin mines two blocks lacks the first when the second is printed: the process ends. */
  lemma {:induction false} TwinsCrash(start: Net, i: nat, j: nat) returns (net: Net, step: Step)
    requires Initial(start) && i < j < |start.peers| && start.peers[i].node.id == start.peers[j].node.id
    ensures Reached(start, net, true) && net.txs == {} && Enabled(net, step) && Causal(net, step)
    ensures step.Adopt? && Apply(net, step) == Crit
  {
    hide Reached, LacksParent;
    var id := start.peers[i].node.id;
    var b1 := FirstBlock(id);
    var net1 := MineFirst(start, i);
    var b2 := Next(net1.peers[i].node);
    net := MineRound(start, net1, i);
    step := Adopt(i, b2);
    assert net.peers[j] == start.peers[j];
    ReachedIsSafe(start, net);
    EmptyNext(net1.peers[i].node);
    hide GroundedNet, Next, FirstBlock, Adopted;
    TwinExits(net, i, j, b2);
  }

  lemma {:induction false} TwinExits(net: Net, i: nat, j: nat, b: Block)
    requires GroundedNet(net) && i < |net.peers| && j < |net.peers| && net.peers[j].node.id == net.peers[i].node.id
    requires b in net.peers[i].node.mined && b.number > net.peers[i].node.head.number && PrintTxs(b.txs).Running?
    requires Fetch(net.peers[j].node.store, b.parentHash).None?
    ensures Enabled(net, Adopt(i, b)) && Apply(net, Adopt(i, b)) == Crit
  {
    hide GroundedNet, LacksParent, AdoptAt, PrintTxs;
    TwinLacks(net.peers, j, b);
    AdoptCrashesIff(net, i, b);
  }

  lemma {:induction false} EmptyNext(s: NodeState)
    requires s.mempool == []
    ensures Next(s).txs == [] && PrintTxs(Next(s).txs).Running?
  {
  }

  lemma {:induction false} TwinLacks(peers: seq<Peer>, j: nat, b: Block)
    requires j < |peers| && Fetch(peers[j].node.store, b.parentHash).None?
    ensures LacksParent(peers, peers[j].node.id, b)
  {
  }

  /** No causal run with printable transactions crashes if and only if no two nodes have the same id. */
  lemma {:induction false} NeverCrashesIff(start: Net)
    requires Initial(start)
    ensures NeverCrashes(start) <==> DistinctIds(start)
  {
    if DistinctIds(start) {
      forall net, step | Reached(start, net, true) && AllPrintable(net.txs) && Enabled(net, step) && Causal(net, step)
        ensures Apply(net, step).Running?
      {
        var nets, steps :| IsRun(nets, steps) && nets[0] == start && nets[|steps|] == net && IsCausalRun(nets, steps);
        NoCrash(nets, steps, |steps|, step);
      }
    } else {
      var i, j :| 0 <= i < j < |start.peers| && start.peers[i].node.id == start.peers[j].node.id;
      var net, step := TwinsCrash(start, i, j);
    }
  }

  /** Once no pair is on its way, all nodes are at the same height, in every causal run from `start`. */
  ghost predicate AgreesWhenQuiet(start: Net) {
    forall net :: Reached(start, net, true) && Quiet(net) ==> SameHeights(net)
  }

  /** Node `m` takes both halves of its only pair. */
  lemma {:induction false} DrainOne(start: Net, net: Net, m: nat, b: Block) returns (net': Net)
    requires Reached(start, net, true) && m < |net.peers| && net.peers[m].inbox == multiset{Both(GENESIS, b)}
    ensures Reached(start, net', true) && OthersSame(net, net', m) && net'.peers[m].inbox == multiset{}
  {
    hide Reached, NodeInv, ReceiveBlock;
    var p, d := net.peers[m], Both(GENESIS, b);
    ReachedIsSafeAt(start, net, m);
    GenesisIsStored(p);
    ParentIsSafe(p, d);
    var p1 := ReceiveAt(p, GENESIS, AfterParent(p, d)).value;
    var net1 := StepAtPeer(start, net, DeliverParent(m, d), p1);
    assert p1.inbox == multiset{Rest(b)};
    ReachedIsSafeAt(start, net1, m);
    BlockIsSafe(p1, b);
    var p2 := ReceiveAt(p1, b, p1.inbox - multiset{Rest(b)}).value;
    net' := StepAtPeer(start, net1, DeliverBlock(m, b), p2);
    assert p2.inbox == multiset{};
  }

  /** Node `i` mines its first block and everyone it reaches takes it, while a twin hears nothing. */
  lemma {:induction false} TwinsDisagree(start: Net, i: nat, j: nat) returns (net: Net)
    requires Initial(start) && i < j < |start.peers| && start.peers[i].node.id == start.peers[j].node.id
    ensures Reached(start, net, true) && |net.peers| == |start.peers| && Quiet(net)
    ensures net.peers[i].node.head.number == 1 && net.peers[j].node.head.number == 0
  {
    hide Reached;
    var id := start.peers[i].node.id;
    var b := FirstBlock(id);
    net := MineFirst(start, i);
    var mined := net;
    assert forall x :: 0 <= x < |mined.peers| ==>
             mined.peers[x].inbox == if start.peers[x].node.id == id then multiset{} else multiset{Both(GENESIS, b)};
    assert mined.peers[j] == start.peers[j];
    for m := 0 to |start.peers|
      invariant Reached(start, net, true) && |net.peers| == |start.peers|
      invariant forall x :: 0 <= x < m ==> net.peers[x].inbox == multiset{}
      invariant forall x :: m <= x < |start.peers| ==> net.peers[x] == mined.peers[x]
      invariant net.peers[i] == mined.peers[i] && net.peers[j] == mined.peers[j]
    {
      if start.peers[m].node.id != id {
        net := DrainOne(start, net, m, b);
      }
    }
  }

  /** All causal runs from `start` agree on the height once quiet if and only if no two nodes have the same id. */
  lemma {:induction false} AgreesWhenQuietIff(start: Net)
    requires Initial(start)
    ensures AgreesWhenQuiet(start) <==> DistinctIds(start)
  {
    if DistinctIds(start) {
      forall net | Reached(start, net, true) && Quiet(net) ensures SameHeights(net) {
        var nets, steps :| IsRun(nets, steps) && nets[0] == start && nets[|steps|] == net && IsCausalRun(nets, steps);
        forall i, j | 0 <= i < |net.peers| && 0 <= j < |net.peers|
          ensures net.peers[i].node.head.number == net.peers[j].node.head.number
        {
          AgreementAtQuiescence(nets, steps, |steps|, i, j);
        }
      }
    } else {
      var i, j :| 0 <= i < j < |start.peers| && start.peers[i].node.id == start.peers[j].node.id;
      var net := TwinsDisagree(start, i, j);
      assert !SameHeights(net);
    }
  }

  /* ---- Two nodes ---- */

  ghost function Fresh(id: NodeId): Peer {
    Peer(Started(id), multiset{}, multiset{}, Log([], {}, {}))
  }

  ghost function TwoNodes(a: NodeId, b: NodeId): (net: Net)
    ensures Initial(net)
  {
    Net([Fresh(a), Fresh(b)], {}, {})
  }

  /** Node 0 mines again on its last block, with another id at node 1. */
  lemma {:induction false} MineEmpty(start: Net, net: Net, b: Block) returns (net': Net)
    requires Reached(start, net, true) && Ready(net, 0) && |net.peers| == 2 && net.peers[0].node.mempool == []
    requires net.peers[0].node.id != net.peers[1].node.id
    requires b == NewBlock(Some(net.peers[0].node.head), net.peers[0].node.id, [])
    ensures Reached(start, net', true) && MinedOnce(net, net', 0, b)
  {
    hide Reached, NodeInv;
    ReachedIsSafeAt(start, net, 0);
    HeadIsStored(net.peers[0]);
    EmptyNext(net.peers[0].node);
    assert Next(net.peers[0].node) == b;
    net' := MineOnce(start, net, 0, b);
  }

  lemma {:induction false} HeadIsStored(p: Peer)
    requires SafePeer(p)
    ensures p.node.head in p.node.store
  {
  }

  /** Node 0 mines three blocks before node 1 receives any. */
  lemma {:induction false} MineThree(a: NodeId, b: NodeId, b1: Block, b2: Block, b3: Block) returns (net: Net)
    requires a != b
    requires b1 == NewBlock(Some(GENESIS), a, []) && b2 == NewBlock(Some(b1), a, []) && b3 == NewBlock(Some(b2), a, [])
    ensures Reached(TwoNodes(a, b), net, true) && |net.peers| == 2
    ensures net.peers[1] == Fresh(b).(inbox := multiset{Both(GENESIS, b1), Both(b1, b2), Both(b2, b3)})
  {
    hide Reached;
    var start := TwoNodes(a, b);
    StartIsReached(start);
    var net1 := MineEmpty(start, start, b1);
    var net2 := MineEmpty(start, net1, b2);
    net := MineEmpty(start, net2, b3);
  }

  lemma {:induction false} ReceiveStep(start: Net, net: Net, step: Step, n: NodeState)
    requires Reached(start, net, false) && |net.peers| == 2 && step.i == 1 && Enabled(net, step)
    requires step.DeliverParent? || step.DeliverBlock?
    requires ReceiveBlock(net.peers[1].node, if step.DeliverParent? then step.pair.parent else step.block) == Running(n)
    ensures Apply(net, step).Running? && Reached(start, Apply(net, step).value, false)
    ensures var net', p := Apply(net, step).value, net.peers[1];
            && |net'.peers| == 2
            && net'.peers[1] == p.(node := n, inbox := if step.DeliverParent? then AfterParent(p, step.pair)
                                                       else p.inbox - multiset{Rest(step.block)})
  {
    Reach(start, net, step, false);
  }

  /**
   Without causal delivery a run can end a node's process: node 1 takes the second block as an orphan,
   then the first, then the third, two heights above its head.
   */
  lemma {:induction false} OutOfOrderRunExits(a: NodeId, b: NodeId) returns (net: Net, step: Step)
    requires a != b
    ensures Reached(TwoNodes(a, b), net, false)
    ensures Enabled(net, step) && Apply(net, step) == Crit
  {
    hide Reached, ReceiveBlock, Apply;
    var b1 := NewBlock(Some(GENESIS), a, []);
    var b2 := NewBlock(Some(b1), a, []);
    var b3 := NewBlock(Some(b2), a, []);
    var start := TwoNodes(a, b);
    net := MineThree(a, b, b1, b2, b3);
    Weaken(start, net);
    var s2, s1 := OrphanThenGapCrashes(Started(b), a, b1, b2, b3);
    ReceiveStep(start, net, DeliverParent(1, Both(b2, b3)), s2);
    net := Apply(net, DeliverParent(1, Both(b2, b3))).value;
    ReceiveStep(start, net, DeliverParent(1, Both(GENESIS, b1)), s2);
    net := Apply(net, DeliverParent(1, Both(GENESIS, b1))).value;
    ReceiveStep(start, net, DeliverBlock(1, b1), s1);
    net := Apply(net, DeliverBlock(1, b1)).value;
    step := DeliverBlock(1, b3);
    ExitStep(net, b3);
  }

  lemma {:induction false} ExitStep(net: Net, b: Block)
    requires |net.peers| == 2 && Rest(b) in net.peers[1].inbox && ReceiveBlock(net.peers[1].node, b) == Crit
    ensures Enabled(net, DeliverBlock(1, b)) && Apply(net, DeliverBlock(1, b)) == Crit
  {
  }

  /* ---- What transactions can do ---- */

  /** Node 1 broadcasts `t` and node 0 receives it. */
  lemma {:induction false} SendAndReceive(start: Net, net: Net, t: Tx) returns (net': Net)
    requires Reached(start, net, true) && |net.peers| == 2 && net.peers[0].node.id != net.peers[1].node.id
    ensures Reached(start, net', true) && |net'.peers| == 2
    ensures net'.peers[0].node == AcceptTx(net.peers[0].node, t) && net'.peers[1] == net.peers[1]
  {
    Reach(start, net, SendTx(1, t), true);
    var sent := Apply(net, SendTx(1, t)).value;
    assert t in sent.peers[0].gossip && sent.peers[1] == net.peers[1] && sent.peers[0].node == net.peers[0].node;
    Reach(start, sent, Gossip(0, t), true);
    net' := Apply(sent, Gossip(0, t)).value;
  }

  /** The next block of a node whose head is the genesis block carries its whole mempool. */
  lemma {:induction false} NextOnGenesis(s: NodeState)
    requires s.head == GENESIS
    ensures Next(s).txs == s.mempool && ChainTxs(Next(s)) == s.mempool
    ensures Next(s).number == 1 && Parent(Next(s)) == GENESIS
  {
    assert Included(GENESIS) == {};
    RemoveNothing(s.mempool);
  }

  /** A transaction received twice can be included twice: the no-duplicates theorem needs each to be received once. */
  lemma {:induction false} ResentTxIsIncludedTwice(a: NodeId, b: NodeId, t: Tx) returns (net: Net)
    requires a != b && Printable(t)
    ensures Reached(TwoNodes(a, b), net, true) && |net.peers| == 2
    ensures !NoDups(ChainTxs(net.peers[0].node.head))
  {
    hide Reached;
    var start := TwoNodes(a, b);
    StartIsReached(start);
    var net1 := SendAndReceive(start, start, t);
    var net2 := SendAndReceive(start, net1, t);
    var s := net2.peers[0].node;
    assert s.mempool == [t, t];
    NextOnGenesis(s);
    PrintTxsIff([t, t]);
    net := MineOnce(start, net2, 0, Next(s));
    assert ChainTxs(net.peers[0].node.head) == [t, t];
  }

  /** One transaction that cannot be printed ends the process of the node that mines and broadcasts it. */
  lemma {:induction false} UnprintableTxCrashes(a: NodeId, b: NodeId, t: Tx) returns (net: Net, step: Step)
    requires a != b && !Printable(t)
    ensures Reached(TwoNodes(a, b), net, true) && Enabled(net, step) && Causal(net, step)
    ensures step.Adopt? && !Apply(net, step).Running?
  {
    hide Reached;
    var start := TwoNodes(a, b);
    StartIsReached(start);
    var net1 := SendAndReceive(start, start, t);
    var s := net1.peers[0].node;
    assert s.mempool == [t];
    NextOnGenesis(s);
    net := MineRound(start, net1, 0);
    step := Adopt(0, Next(s));
    PrintTxsIff([t]);
    assert t in [t];
    ReachedIsSafe(start, net);
    hide GroundedNet, AdoptAt, Next;
    AdoptCrashesIff(net, 0, Next(s));
  }
}
