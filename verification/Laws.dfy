/**
 What one step of a run changes, field by field, and what follows for whole runs: no scheduled round is
 cancelled, no mined block is dropped, announcements are taken in order and nothing is forgotten.
 */
module Laws {
  import opened Wrappers
  import opened Blocks
  import opened Resolver
  import opened Walks
  import opened Mempool
  import opened Nodes
  import opened Network
  import opened Runs

  /* ---- The law of one step ---- */

  /** What taking `cb` prunes: the transactions on the chain of the block at the committed depth, if that is cached. */
  ghost function PrunedTxs(c: Cache, cb: Block): set<Tx>
    requires WellBuilt(cb)
  {
    if cb.number > HEIGHT_COMMITTED && Digest(CommittedBlock(cb)) in c then Included(CommittedBlock(cb)) else {}
  }

  ghost predicate Pruned(s: NodeState, pool: seq<Tx>) {
    && |s.canonical| > 0 && WellBuilt(s.canonical[0])
    && pool == RemoveExisting(s.mempool, PrunedTxs(s.cache, s.canonical[0]))
  }

  /** The block a delivery hands over: nothing changes if it is stored. */
  ghost predicate Received(s: NodeState, s': NodeState, b: Block) {
    if b in s.store then s' == s else Advanced(s, s', b)
  }

  /** How a step changes the state of node `i`. */
  ghost predicate NodeLaw(step: Step, i: nat, s: NodeState, s': NodeState) {
    if step.i != i then s' == s
    else
      match step
      case SendTx(_, _) => s' == s
      case Gossip(_, t) => s' == s.(mempool := s.mempool + [t])
      case Take(_) =>
        && Pruned(s, s'.mempool) && |s.canonical| > 0
        && s' == s.(mempool := s'.mempool, canonical := s.canonical[1..], rounds := s.rounds + multiset{s.canonical[0]})
      case Fire(_, c) =>
        && CacheGrows(s.cache, s'.cache)
        && exists b :: MinedOn(s, c, b) &&
             s' == s.(cache := s'.cache, rounds := s.rounds - multiset{c}, mined := s.mined + multiset{b})
      case Adopt(_, b) => Advanced(s.(mined := s.mined - multiset{b}), s', b)
      case DeliverParent(_, d) => d.Both? && Received(s, s', d.parent)
      case DeliverBlock(_, b) => Received(s, s', b)
  }

  /** How a step changes the pairs on their way to the peer at `i`. */
  ghost predicate InboxLaw(net: Net, step: Step, i: nat, p: Peer, p': Peer)
    requires step.i < |net.peers|
  {
    match step
    case Adopt(k, b) =>
      var s := net.peers[k].node;
      p'.inbox == if Sends(s, b) && p.node.id != s.id && HasParent(b)
                  then p.inbox + multiset{Both(Parent(b), b)} else p.inbox
    case DeliverParent(k, d) =>
      p'.inbox == if i == k then p.inbox - multiset{d} + multiset{Rest(d.block)} else p.inbox
    case DeliverBlock(k, b) => p'.inbox == if i == k then p.inbox - multiset{Rest(b)} else p.inbox
    case _ => p'.inbox == p.inbox
  }

  lemma {:induction false} PruningPointIs(s: Store, c: Cache, cb: Block)
    requires WellBuilt(cb) && Linked(s, GENESIS, cb)
    ensures PruningPoint(s, c, cb) ==
            if cb.number > HEIGHT_COMMITTED && Digest(CommittedBlock(cb)) in c then Some(CommittedBlock(cb)) else None
  {
    if cb.number > HEIGHT_COMMITTED {
      BelowIsOnChain(s, cb, HEIGHT_COMMITTED);
    }
  }

  lemma {:induction false} TakeLaw(p: Peer, i: nat)
    requires GroundedPeer(p) && |p.node.canonical| > 0
    ensures TakeAt(p).Running?
    ensures NodeLaw(Take(i), i, p.node, TakeAt(p).value.node) && TakeAt(p).value.inbox == p.inbox
  {
    var s, cb := p.node, p.node.canonical[0];
    TakeKeepsGrounded(s);
    assert WellBuilt(cb) && Linked(s.store, GENESIS, cb) by {
      assert Rooted(s, cb);
    }
    PruningPointIs(s.store, s.cache, cb);
    RemoveNothing(s.mempool);
    hide Grounded, Rooted, TakeCanonical, Included, RemoveExisting, PruningPoint;
  }

  lemma {:induction false} FireLaw(p: Peer, i: nat, c: Block)
    requires GroundedPeer(p) && c in p.node.rounds
    ensures FireAt(p, c).Running?
    ensures NodeLaw(Fire(i, c), i, p.node, FireAt(p, c).value.node) && FireAt(p, c).value.inbox == p.inbox
  {
    var b := FireKeepsGrounded(p.node, c);
    hide FireRound, Grounded;
  }

  lemma {:induction false} ReceiveLaw(p: Peer, b: Block, inbox: multiset<Delivery>)
    requires GroundedPeer(p) && WellBuilt(b) && ReceiveAt(p, b, inbox).Running?
    ensures Received(p.node, ReceiveAt(p, b, inbox).value.node, b) && ReceiveAt(p, b, inbox).value.inbox == inbox
  {
    ReceiveKeepsGrounded(p.node, b);
  }

  lemma {:induction false} AdoptNodeLaw(p: Peer, k: nat, b: Block)
    requires GroundedPeer(p) && b in p.node.mined
    ensures AdoptMined(p.node, b).Running?
    ensures var (n, sent) := AdoptMined(p.node, b).value;
            && NodeLaw(Adopt(k, b), k, p.node, n) && n.id == p.node.id && HasParent(b)
            && sent == if Sends(p.node, b) then Some(Announcement(Parent(b), b)) else None
  {
    AdoptKeepsGrounded(p.node, b);
    AdoptIsGroundedAtPeer(p, b);
  }

  lemma {:induction false} AdoptLaw(net: Net, k: nat, b: Block, i: nat)
    requires GroundedNet(net) && k < |net.peers| && b in net.peers[k].node.mined && i < |net.peers|
    requires AdoptAt(net, k, b).Running?
    ensures var net' := AdoptAt(net, k, b).value;
            && |net'.peers| == |net.peers|
            && NodeLaw(Adopt(k, b), i, net.peers[i].node, net'.peers[i].node)
            && InboxLaw(net, Adopt(k, b), i, net.peers[i], net'.peers[i])
  {
    hide GroundedPeer, AdoptMined, PrintedAtAll, Advanced;
    assert GroundedPeer(net.peers[k]);
    AdoptNodeLaw(net.peers[k], k, b);
  }

  /** Every step obeys both laws at every node. */
  lemma {:induction false} StepLaw(net: Net, step: Step, i: nat)
    requires GroundedNet(net) && Enabled(net, step) && Apply(net, step).Running? && i < |net.peers|
    ensures var net' := Apply(net, step).value;
            && |net'.peers| == |net.peers|
            && NodeLaw(step, i, net.peers[i].node, net'.peers[i].node)
            && InboxLaw(net, step, i, net.peers[i], net'.peers[i])
  {
    hide GroundedPeer, TakeAt, FireAt, ReceiveAt, AdoptAt, Advanced, MinedOn, Pruned;
    var k, p := step.i, net.peers[step.i];
    assert GroundedPeer(p);
    match step {
      case SendTx(_, _) =>
      case Gossip(_, _) =>
      case Take(_) => TakeLaw(p, k);
      case Fire(_, c) => FireLaw(p, k, c);
      case Adopt(_, b) => AdoptLaw(net, k, b, i);
      case DeliverParent(_, d) =>
        DeliverIsGrounded(net, step);
        ReceiveLaw(p, d.parent, p.inbox - multiset{d} + multiset{Rest(d.block)});
      case DeliverBlock(_, b) =>
        DeliverIsGrounded(net, step);
        ReceiveLaw(p, b, p.inbox - multiset{Rest(b)});
    }
  }

  lemma {:induction false} RunLaw(nets: seq<Net>, steps: seq<Step>, k: nat, i: nat)
    requires IsRun(nets, steps) && k < |steps| && i < |nets[k].peers|
    ensures |nets[k + 1].peers| == |nets[k].peers| && steps[k].i < |nets[k].peers|
    ensures NodeLaw(steps[k], i, nets[k].peers[i].node, nets[k + 1].peers[i].node)
    ensures InboxLaw(nets[k], steps[k], i, nets[k].peers[i], nets[k + 1].peers[i])
    ensures Hears(nets[k], steps[k], i, nets[k].peers[i], nets[k + 1].peers[i])
  {
    hide Apply, NodeLaw, InboxLaw, Hears;
    assert StepAt(nets, steps, k);
    RunIsGrounded(nets, steps, k);
    StepLaw(nets[k], steps[k], i);
    StepHears(nets[k], steps[k], i);
  }

  /* ---- The queues over a run ---- */

  /**
   A node's rounds lose only the one that fires and gain only the block taken; its queue of canonical blocks loses
   only its first, when it is taken; its mined blocks lose only the one adopted; cached entries stay, and published
   headers are only added to.
   */
  ghost predicate QueueLaw(step: Step, i: nat, s: NodeState, s': NodeState) {
    && (step == Take(i) ==> |s.canonical| > 0)
    && s'.rounds == (match step
                     case Take(j) => if j == i then s.rounds + multiset{s.canonical[0]} else s.rounds
                     case Fire(j, c) => if j == i then s.rounds - multiset{c} else s.rounds
                     case _ => s.rounds)
    && (if step == Take(i) then s'.canonical == s.canonical[1..] else s.canonical <= s'.canonical)
    && (match step
        case Adopt(j, b) => s'.mined == if j == i then s.mined - multiset{b} else s.mined
        case Fire(j, _) => s.mined <= s'.mined && (j != i ==> s'.mined == s.mined)
        case _ => s'.mined == s.mined)
    && CacheGrows(s.cache, s'.cache) && s.headers <= s'.headers && s.store <= s'.store
  }

  lemma {:induction false} NodeLawQueues(step: Step, i: nat, s: NodeState, s': NodeState)
    requires NodeLaw(step, i, s, s')
    ensures QueueLaw(step, i, s, s')
  {
    hide MinedOn, Pruned, Advanced;
    if step.i == i {
      match step {
        case SendTx(_, _) =>
        case Gossip(_, _) =>
        case Take(_) =>
        case Fire(_, c) => FireQueues(i, s, s', c);
        case Adopt(_, b) => AdvancedQueues(s.(mined := s.mined - multiset{b}), s', b);
        case DeliverParent(_, d) => ReceivedQueues(s, s', d.parent);
        case DeliverBlock(_, b) => ReceivedQueues(s, s', b);
      }
    }
  }

  lemma {:induction false} FireQueues(i: nat, s: NodeState, s': NodeState, c: Block)
    requires NodeLaw(Fire(i, c), i, s, s')
    ensures QueueLaw(Fire(i, c), i, s, s')
  {
    hide MinedOn, CacheGrows;
  }

  lemma {:induction false} AdvancedQueues(s: NodeState, s': NodeState, b: Block)
    requires Advanced(s, s', b)
    ensures s.canonical <= s'.canonical && s.headers <= s'.headers && s.store <= s'.store
    ensures s'.rounds == s.rounds && s'.mined == s.mined && s'.cache == s.cache
  {
    hide WellBuilt, Announced, Ignored;
  }

  lemma {:induction false} ReceivedQueues(s: NodeState, s': NodeState, b: Block)
    requires Received(s, s', b)
    ensures s.canonical <= s'.canonical && s.headers <= s'.headers && s.store <= s'.store
    ensures s'.rounds == s.rounds && s'.mined == s.mined && s'.cache == s.cache
  {
    hide Advanced;
    if b !in s.store {
      AdvancedQueues(s, s', b);
    }
  }

  /** Between consecutive states of any run the queues of every node obey their law. */
  lemma {:induction false} QueueLaws(nets: seq<Net>, steps: seq<Step>, k: nat, i: nat)
    requires IsRun(nets, steps) && k < |steps| && i < |nets[k].peers|
    ensures |nets[k + 1].peers| == |nets[k].peers|
    ensures QueueLaw(steps[k], i, nets[k].peers[i].node, nets[k + 1].peers[i].node)
  {
    hide NodeLaw, QueueLaw;
    RunLaw(nets, steps, k, i);
    NodeLawQueues(steps[k], i, nets[k].peers[i].node, nets[k + 1].peers[i].node);
  }

  lemma {:induction false} PeersStayInRun(nets: seq<Net>, steps: seq<Step>, k: nat)
    requires IsRun(nets, steps) && k < |nets|
    ensures |nets[k].peers| == |nets[0].peers|
  {
    HeadsOnlyRise(nets, steps, 0, k);
  }

  lemma {:induction false} RoundLeaves(step: Step, i: nat, s: NodeState, s': NodeState, c: Block)
    requires QueueLaw(step, i, s, s')
    ensures c in s.rounds && c !in s'.rounds ==> step == Fire(i, c)
  {
    hide CacheGrows;
  }

  lemma {:induction false} MinedLeaves(step: Step, i: nat, s: NodeState, s': NodeState, b: Block)
    requires QueueLaw(step, i, s, s')
    ensures b in s.mined && b !in s'.mined ==> step == Adopt(i, b)
  {
    hide CacheGrows;
  }

  /** A scheduled round is never cancelled: it is gone only once it has fired. */
  lemma {:induction false} RoundsAreNeverCancelled(nets: seq<Net>, steps: seq<Step>, k: nat, l: nat, i: nat, c: Block)
    requires IsRun(nets, steps) && k <= l < |nets| && i < |nets[0].peers|
    ensures |nets[k].peers| == |nets[l].peers| == |nets[0].peers|
    ensures c in nets[k].peers[i].node.rounds && c !in nets[l].peers[i].node.rounds ==>
              exists m :: k <= m < l && steps[m] == Fire(i, c)
    decreases l - k
  {
    PeersStayInRun(nets, steps, k);
    PeersStayInRun(nets, steps, l);
    if k == l {
    } else {
      hide IsRun, QueueLaw;
      QueueLaws(nets, steps, k, i);
      RoundsAreNeverCancelled(nets, steps, k + 1, l, i, c);
      RoundLeaves(steps[k], i, nets[k].peers[i].node, nets[k + 1].peers[i].node, c);
    }
  }

  /** A mined block is never dropped: it is gone only once the main loop has taken it. */
  lemma {:induction false} MinedBlocksAreNeverDropped(nets: seq<Net>, steps: seq<Step>, k: nat, l: nat, i: nat, b: Block)
    requires IsRun(nets, steps) && k <= l < |nets| && i < |nets[0].peers|
    ensures |nets[k].peers| == |nets[l].peers| == |nets[0].peers|
    ensures b in nets[k].peers[i].node.mined && b !in nets[l].peers[i].node.mined ==>
              exists m :: k <= m < l && steps[m] == Adopt(i, b)
    decreases l - k
  {
    PeersStayInRun(nets, steps, k);
    PeersStayInRun(nets, steps, l);
    if k == l {
    } else {
      hide IsRun, QueueLaw;
      QueueLaws(nets, steps, k, i);
      MinedBlocksAreNeverDropped(nets, steps, k + 1, l, i, b);
      MinedLeaves(steps[k], i, nets[k].peers[i].node, nets[k + 1].peers[i].node, b);
    }
  }
}
