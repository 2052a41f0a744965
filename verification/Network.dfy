/**
 The network of mock L1 nodes as a state machine, and what holds in all of its runs.

 A step is one atomic action of one node: a transaction is broadcast or arrives, the miner takes a
 canonical block, a round fires, the main loop takes a mined block, or it takes the parent or the
 block of a delivered pair.  Any enabled step may happen next, so a run covers every latency, every
 interleaving of deliveries and every late mining round.
 */
module Network {
  import opened Wrappers
  import opened Blocks
  import opened Resolver
  import opened Walks
  import opened Mempool
  import opened Nodes

  // A call of P2PReceiveBlock under way: nothing handed to the main loop yet, or the parent handed over.
  datatype Delivery = Both(parent: Block, block: Block) | Rest(block: Block)

  // What happened at a node so far; no step reads it.
  datatype Log = Log(
    accepted: seq<Tx>,     // transactions received, in order
    taken: set<Block>,     // canonical blocks the miner has taken
    pruned: set<Block>)    // blocks whose transactions were removed from the mempool

  datatype Peer = Peer(node: NodeState, inbox: multiset<Delivery>, gossip: multiset<Tx>, log: Log)

  // `sent` and `txs` record every block and transaction ever broadcast.
  datatype Net = Net(peers: seq<Peer>, sent: set<Block>, txs: set<Tx>)

  datatype Step =
    | SendTx(i: nat, tx: Tx)
    | Gossip(i: nat, tx: Tx)
    | Take(i: nat)
    | Fire(i: nat, round: Block)
    | Adopt(i: nat, mined: Block)
    | DeliverParent(i: nat, pair: Delivery)
    | DeliverBlock(i: nat, block: Block)

  ghost predicate Initial(net: Net) {
    && net.sent == {} && net.txs == {}
    && forall i :: 0 <= i < |net.peers| ==>
         net.peers[i] == Peer(Started(net.peers[i].node.id), multiset{}, multiset{}, Log([], {}, {}))
  }

  predicate Enabled(net: Net, step: Step) {
    && step.i < |net.peers|
    && var p := net.peers[step.i];
       match step
       case SendTx(_, _) => true
       case Gossip(_, t) => t in p.gossip
       case Take(_) => |p.node.canonical| > 0
       case Fire(_, c) => c in p.node.rounds
       case Adopt(_, b) => b in p.node.mined
       case DeliverParent(_, d) => d in p.inbox && d.Both?
       case DeliverBlock(_, b) => Rest(b) in p.inbox
  }

  /* ---- Broadcasting ---- */

  /** Reading the transactions for the log, as printBlock does: the first one it cannot print ends the process. */
  function PrintTxs(txs: seq<Tx>): (r: Outcome<()>) {
    if txs == [] then Running(())
    else
      match txs[0].payload
      case Unreadable(_) => Panic
      case RollupTx(None) => Crit
      case _ => PrintTxs(txs[1..])
  }

  /** printBlock at a node with the given store: it also looks the parent up. */
  function PrintedAt(b: Block, store: Store): (r: Outcome<()>) {
    match PrintTxs(b.txs)
    case Crit => Crit
    case Panic => Panic
    case Running(_) => if Fetch(store, b.parentHash).None? then Crit else Running(())
  }

  predicate Printable(t: Tx) {
    t.payload.OtherTx? || (t.payload.RollupTx? && t.payload.seqNo.Some?)
  }

  /** `i` is the position of the first transaction that cannot be printed. */
  ghost predicate FirstUnprintable(txs: seq<Tx>, i: int) {
    0 <= i < |txs| && !Printable(txs[i]) && forall j :: 0 <= j < i ==> Printable(txs[j])
  }

  /** A transaction whose data cannot be decoded makes it panic, a rollup that does not decode makes it exit. */
  lemma {:induction false} PrintTxsIff(txs: seq<Tx>)
    ensures PrintTxs(txs).Running? <==> forall t :: t in txs ==> Printable(t)
    ensures forall i :: FirstUnprintable(txs, i) ==>
              PrintTxs(txs) == if txs[i].payload.Unreadable? then Panic else Crit
    ensures PrintTxs(txs).Running? || exists i :: FirstUnprintable(txs, i)
    decreases |txs|
  {
    if txs == [] {
    } else if !Printable(txs[0]) {
      assert FirstUnprintable(txs, 0);
      assert txs[0] in txs;
      forall i | FirstUnprintable(txs, i) ensures i == 0 {
      }
    } else {
      var rest := txs[1..];
      PrintTxsIff(rest);
      assert txs == [txs[0]] + rest;
      forall i | FirstUnprintable(txs, i) ensures FirstUnprintable(rest, i - 1) {
      }
      if i :| FirstUnprintable(rest, i) {
        assert FirstUnprintable(txs, i + 1);
      }
    }
  }

  /** integration/ethereummock/mock_l1_network.go, printBlock. */
  method PrintBlock(b: Block, store: Store) returns (r: Outcome<()>)
    ensures r == PrintedAt(b, store)
    ensures r.Running? <==> (forall t :: t in b.txs ==> Printable(t)) && Fetch(store, b.parentHash).Some?
    ensures forall i :: FirstUnprintable(b.txs, i) ==> r == if b.txs[i].payload.Unreadable? then Panic else Crit
    ensures (forall t :: t in b.txs ==> Printable(t)) && Fetch(store, b.parentHash).None? ==> r == Crit
  {
    PrintTxsIff(b.txs);
    for i := 0 to |b.txs|
      invariant PrintTxs(b.txs) == PrintTxs(b.txs[i..])
    {
      assert b.txs[i..][1..] == b.txs[i + 1..];
      match b.txs[i].payload {
        case Unreadable(_) => return Panic;
        case RollupTx(seqNo) =>
          if seqNo.None? {
            return Crit;
          }
        case OtherTx =>
      }
    }
    if Fetch(store, b.parentHash).None? {
      return Crit;
    }
    r := Running(());
  }

  /** Printing at every node with the sender's id, in order, until one ends the process. */
  function PrintedAtAll(peers: seq<Peer>, sender: NodeId, b: Block): (r: Outcome<()>)
    decreases |peers|
  {
    if peers == [] then Running(())
    else if peers[0].node.id == sender && !PrintedAt(b, peers[0].node.store).Running? then
      PrintedAt(b, peers[0].node.store)
    else PrintedAtAll(peers[1..], sender, b)
  }

  /** The broadcast prints the block at some node that has the sender's id and lacks the parent. */
  ghost predicate LacksParent(peers: seq<Peer>, sender: NodeId, b: Block) {
    exists j :: 0 <= j < |peers| && peers[j].node.id == sender && Fetch(peers[j].node.store, b.parentHash).None?
  }

  ghost predicate HasId(peers: seq<Peer>, sender: NodeId) {
    exists j :: 0 <= j < |peers| && peers[j].node.id == sender
  }

  /** When a broadcast ends the process: at a transaction that cannot be printed, or at a missing parent. */
  lemma {:induction false} PrintedAtAllIff(peers: seq<Peer>, sender: NodeId, b: Block)
    requires HasId(peers, sender)
    ensures PrintedAtAll(peers, sender, b) ==
            if !PrintTxs(b.txs).Running? then PrintTxs(b.txs)
            else if LacksParent(peers, sender, b) then Crit
            else Running(())
    decreases |peers|
  {
    var rest := peers[1..];
    assert forall j :: 0 <= j < |rest| ==> rest[j] == peers[j + 1];
    assert forall j :: 1 <= j < |peers| ==> peers[j] == rest[j - 1];
    if peers[0].node.id == sender && !PrintedAt(b, peers[0].node.store).Running? {
    } else if HasId(rest, sender) {
      PrintedAtAllIff(rest, sender, b);
      assert LacksParent(rest, sender, b) <==> LacksParent(peers, sender, b);
    } else {
      NothingPrinted(rest, sender, b);
    }
  }

  lemma {:induction false} NothingPrinted(peers: seq<Peer>, sender: NodeId, b: Block)
    requires !HasId(peers, sender)
    ensures PrintedAtAll(peers, sender, b) == Running(())
    decreases |peers|
  {
    if peers == [] {
    } else {
      assert forall j :: 0 <= j < |peers[1..]| ==> peers[1..][j] == peers[j + 1];
      NothingPrinted(peers[1..], sender, b);
    }
  }

  /** The pair put on its way to every node whose id is not the sender's. */
  function Posted(peers: seq<Peer>, sender: NodeId, a: Announcement): (r: seq<Peer>)
    ensures |r| == |peers|
  {
    seq(|peers|, j requires 0 <= j < |peers| =>
      if peers[j].node.id != sender
      then peers[j].(inbox := peers[j].inbox + multiset{Both(a.parent, a.block)})
      else peers[j])
  }

  /** A broadcast: the pair is on its way to the nodes with another id, unless printing elsewhere ends the process. */
  function Broadcast(peers: seq<Peer>, sender: NodeId, a: Announcement): (r: Outcome<seq<Peer>>) {
    match PrintedAtAll(peers, sender, a.block)
    case Crit => Crit
    case Panic => Panic
    case Running(_) => Running(Posted(peers, sender, a))
  }

  /** A transaction is on its way to every node whose id is not the sender's. */
  function BroadcastTx(peers: seq<Peer>, sender: NodeId, t: Tx): (r: seq<Peer>)
    ensures |r| == |peers|
  {
    seq(|peers|, j requires 0 <= j < |peers| =>
      if peers[j].node.id != sender then peers[j].(gossip := peers[j].gossip + multiset{t}) else peers[j])
  }

  /** integration/ethereummock/mock_l1_network.go, BroadcastBlock. */
  method ScheduleBlock(peers: seq<Peer>, sender: NodeId, a: Announcement) returns (r: Outcome<seq<Peer>>)
    ensures r == Broadcast(peers, sender, a)
    ensures HasId(peers, sender) ==>
              (r.Running? <==> (forall t :: t in a.block.txs ==> Printable(t)) && !LacksParent(peers, sender, a.block))
  {
    if HasId(peers, sender) {
      PrintedAtAllIff(peers, sender, a.block);
      PrintTxsIff(a.block.txs);
    }
    var posted := peers;
    for j := 0 to |peers|
      invariant |posted| == |peers|
      invariant PrintedAtAll(peers, sender, a.block) == PrintedAtAll(peers[j..], sender, a.block)
      invariant forall i :: 0 <= i < j ==> posted[i] == Posted(peers, sender, a)[i]
      invariant forall i :: j <= i < |peers| ==> posted[i] == peers[i]
    {
      assert peers[j..][1..] == peers[j + 1..];
      if peers[j].node.id != sender {
        posted := posted[j := posted[j].(inbox := posted[j].inbox + multiset{Both(a.parent, a.block)})];
      } else {
        var printed := PrintBlock(a.block, peers[j].node.store);
        match printed {
          case Crit => return Crit;
          case Panic => return Panic;
          case Running(_) =>
        }
      }
    }
    assert posted == Posted(peers, sender, a);
    r := Running(posted);
  }

  /** integration/ethereummock/mock_l1_network.go, BroadcastTx. */
  method ScheduleTx(peers: seq<Peer>, sender: NodeId, t: Tx) returns (r: seq<Peer>)
    ensures r == BroadcastTx(peers, sender, t)
  {
    r := peers;
    for j := 0 to |peers|
      invariant |r| == |peers|
      invariant forall i :: 0 <= i < j ==> r[i] == BroadcastTx(peers, sender, t)[i]
      invariant forall i :: j <= i < |peers| ==> r[i] == peers[i]
    {
      if peers[j].node.id != sender {
        r := r[j := r[j].(gossip := r[j].gossip + multiset{t})];
      }
    }
  }

  function TakeAt(p: Peer): Outcome<Peer>
    requires |p.node.canonical| > 0
  {
    var cb := p.node.canonical[0];
    var at := match PruningPoint(p.node.store, p.node.cache, cb) case None => {} case Some(a) => {a};
    match TakeCanonical(p.node)
    case Crit => Crit
    case Panic => Panic
    case Running(n) =>
      Running(p.(node := n, log := p.log.(taken := p.log.taken + {cb}, pruned := p.log.pruned + at)))
  }

  function GossipAt(p: Peer, t: Tx): Peer {
    p.(node := AcceptTx(p.node, t), gossip := p.gossip - multiset{t},
       log := p.log.(accepted := p.log.accepted + [t]))
  }

  function ReceiveAt(p: Peer, b: Block, inbox: multiset<Delivery>): Outcome<Peer> {
    match ReceiveBlock(p.node, b)
    case Crit => Crit
    case Panic => Panic
    case Running(n) => Running(p.(node := n, inbox := inbox))
  }

  function FireAt(p: Peer, c: Block): Outcome<Peer> {
    match FireRound(p.node, c)
    case Crit => Crit
    case Panic => Panic
    case Running(n) => Running(p.(node := n))
  }

  function Replace(net: Net, i: nat, r: Outcome<Peer>): Outcome<Net>
    requires i < |net.peers|
  {
    match r
    case Crit => Crit
    case Panic => Panic
    case Running(p) => Running(net.(peers := net.peers[i := p]))
  }

  function AdoptAt(net: Net, i: nat, b: Block): Outcome<Net>
    requires i < |net.peers|
  {
    var p := net.peers[i];
    match AdoptMined(p.node, b)
    case Crit => Crit
    case Panic => Panic
    case Running((n, sent)) =>
      var net' := net.(peers := net.peers[i := p.(node := n)]);
      match sent
      case None => Running(net')
      case Some(a) =>
        match Broadcast(net'.peers, n.id, a)
        case Crit => Crit
        case Panic => Panic
        case Running(peers) => Running(net'.(peers := peers, sent := net.sent + {b}))
  }

  function Apply(net: Net, step: Step): Outcome<Net>
    requires Enabled(net, step)
  {
    var i, p := step.i, net.peers[step.i];
    match step
    case SendTx(_, t) =>
      Running(net.(peers := BroadcastTx(net.peers, p.node.id, t), txs := net.txs + {t}))
    case Gossip(_, t) => Replace(net, i, Running(GossipAt(p, t)))
    case Take(_) => Replace(net, i, TakeAt(p))
    case Fire(_, c) => Replace(net, i, FireAt(p, c))
    case DeliverParent(_, d) =>
      Replace(net, i, ReceiveAt(p, d.parent, p.inbox - multiset{d} + multiset{Rest(d.block)}))
    case DeliverBlock(_, b) => Replace(net, i, ReceiveAt(p, b, p.inbox - multiset{Rest(b)}))
    case Adopt(_, b) => AdoptAt(net, i, b)
  }

  /** A run: the states it passes through, each obtained from the one before by an enabled step. */
  ghost predicate IsRun(nets: seq<Net>, steps: seq<Step>) {
    && |nets| == |steps| + 1
    && Initial(nets[0])
    && forall k :: 0 <= k < |steps| ==> StepAt(nets, steps, k)
  }

  ghost predicate StepAt(nets: seq<Net>, steps: seq<Step>, k: nat)
    requires |nets| == |steps| + 1 && k < |steps|
  {
    Enabled(nets[k], steps[k]) && Apply(nets[k], steps[k]) == Running(nets[k + 1])
  }

  /* ---- All runs: sound caches, conserved transactions, none from nowhere, none twice ---- */

  ghost predicate AllIn(list: seq<Tx>, txs: set<Tx>) {
    forall t :: t in list ==> t in txs
  }

  /** A block built by NewBlock from broadcast transactions; with `once`, with none twice on its chain. */
  ghost predicate Good(b: Block, once: bool, txs: set<Tx>) {
    WellBuilt(b) && AllIn(ChainTxs(b), txs) && (once ==> NoDups(ChainTxs(b)))
  }

  /** Every transaction received is in the mempool or on the chain of a block pruned at. */
  ghost predicate Conserved(p: Peer) {
    forall t :: t in p.log.accepted ==> t in p.node.mempool || exists a :: a in p.log.pruned && t in Included(a)
  }

  /** Blocks are pruned at only when they are the committed depth below a canonical block. */
  ghost predicate PrunedDeep(p: Peer) {
    forall a :: a in p.log.pruned ==>
      exists c :: c in p.log.taken && Ancestor(a, c) && c.number == a.number + HEIGHT_COMMITTED
  }

  /** For any set holding what was pruned, filtering the mempool is filtering everything received. */
  ghost predicate SelectsAll(p: Peer) {
    forall x: set<Tx> :: (forall a :: a in p.log.pruned ==> Included(a) <= x) ==>
      RemoveExisting(p.node.mempool, x) == RemoveExisting(p.log.accepted, x)
  }

  ghost predicate BlocksGood(p: Peer, once: bool, txs: set<Tx>) {
    && (forall b :: b in p.node.store ==> Good(b, once, txs))
    && (forall b :: b in p.node.canonical ==> Good(b, once, txs))
    && (forall b :: b in p.node.rounds ==> Good(b, once, txs))
    && (forall b :: b in p.node.mined ==> Good(b, once, txs))
    && (forall b :: b in p.log.taken ==> Good(b, once, txs))
    && (forall d :: d in p.inbox ==> DeliveryGood(d, once, txs))
  }

  ghost predicate DeliveryGood(d: Delivery, once: bool, txs: set<Tx>) {
    Good(d.block, once, txs) && (d.Both? ==> Good(d.parent, once, txs))
  }

  ghost predicate PeerInv(p: Peer, once: bool, txs: set<Tx>) {
    && BlocksGood(p, once, txs)
    && CacheSound(p.node.cache) && CacheClosed(p.node.cache)
    && Conserved(p) && PrunedDeep(p) && SelectsAll(p)
    && multiset(p.node.mempool) <= multiset(p.log.accepted)
    && AllIn(p.log.accepted, txs) && (forall t :: t in p.gossip ==> t in txs)
    && (once ==> NoDups(p.log.accepted))
  }

  ghost predicate NetInv(net: Net, once: bool) {
    forall i :: 0 <= i < |net.peers| ==> PeerInv(net.peers[i], once, net.txs)
  }

  /** What processing a block can change, in any state. */
  lemma {:induction false} ProcessFrame(s: NodeState, b: Block)
    requires ProcessBlock(s, b).Running?
    ensures var s' := ProcessBlock(s, b).value;
            && s'.store == s.store + {b}
            && (s'.canonical == s.canonical || s'.canonical == s.canonical + [b])
            && s' == s.(store := s'.store, head := s'.head, canonical := s'.canonical, headers := s'.headers)
  {
  }

  lemma {:induction false} AdoptFrame(s: NodeState, b: Block)
    requires AdoptMined(s, b).Running?
    ensures var (s', sent) := AdoptMined(s, b).value;
            && s'.store == s.store + {b} && s'.mined == s.mined - multiset{b}
            && (s'.canonical == s.canonical || s'.canonical == s.canonical + [b])
            && s'.cache == s.cache && s'.mempool == s.mempool && s'.rounds == s.rounds
            && (sent.Some? ==> sent.value.block == b && sent.value.parent in s'.store)
  {
    ProcessFrame(s.(mined := s.mined - multiset{b}), b);
    hide ProcessBlock;
  }

  lemma {:induction false} ReceiveKeepsPeerInv(p: Peer, b: Block, inbox: multiset<Delivery>, once: bool, txs: set<Tx>)
    requires PeerInv(p, once, txs) && Good(b, once, txs) && ReceiveAt(p, b, inbox).Running?
    requires forall d :: d in inbox ==> DeliveryGood(d, once, txs)
    ensures PeerInv(ReceiveAt(p, b, inbox).value, once, txs)
  {
    if b !in p.node.store {
      ProcessFrame(p.node, b);
    }
  }

  lemma {:induction false} GossipKeepsPeerInv(p: Peer, t: Tx, once: bool, txs: set<Tx>)
    requires PeerInv(p, once, txs) && t in p.gossip && (once ==> NoDups(GossipAt(p, t).log.accepted))
    ensures PeerInv(GossipAt(p, t), once, txs)
  {
    var p' := GossipAt(p, t);
    assert SelectsAll(p') by {
      forall x: set<Tx> | forall a :: a in p.log.pruned ==> Included(a) <= x
        ensures RemoveExisting(p'.node.mempool, x) == RemoveExisting(p'.log.accepted, x)
      {
        RemoveConcat(p.node.mempool, [t], x);
        RemoveConcat(p.log.accepted, [t], x);
      }
    }
  }

  lemma {:induction false} TakeKeepsPeerInv(p: Peer, once: bool, txs: set<Tx>)
    requires PeerInv(p, once, txs) && |p.node.canonical| > 0 && TakeAt(p).Running?
    ensures PeerInv(TakeAt(p).value, once, txs)
  {
    var p', cb := TakeAt(p).value, p.node.canonical[0];
    assert BlocksGood(p', once, txs);
    match PruningPoint(p.node.store, p.node.cache, cb) {
      case None =>
        SameLogKeepsLog(p, p');
      case Some(a) =>
        BelowIsAncestor(p.node.store, cb, HEIGHT_COMMITTED);
        PruneKeepsLog(p, p', a, cb);
    }
  }

  lemma {:induction false} SameLogKeepsLog(p: Peer, p': Peer)
    requires Conserved(p) && SelectsAll(p) && PrunedDeep(p)
    requires p'.log.accepted == p.log.accepted && p'.log.pruned == p.log.pruned
    requires p.log.taken <= p'.log.taken && p'.node.mempool == p.node.mempool
    ensures Conserved(p') && SelectsAll(p') && PrunedDeep(p')
  {
  }

  lemma {:induction false} PruneKeepsLog(p: Peer, p': Peer, a: Block, cb: Block)
    requires Conserved(p) && SelectsAll(p) && PrunedDeep(p)
    requires Ancestor(a, cb) && cb.number == a.number + HEIGHT_COMMITTED
    requires p'.log.taken == p.log.taken + {cb}
    requires p'.log.accepted == p.log.accepted && p'.log.pruned == p.log.pruned + {a}
    requires p'.node.mempool == RemoveExisting(p.node.mempool, Included(a))
    requires multiset(p.node.mempool) <= multiset(p.log.accepted)
    ensures Conserved(p') && SelectsAll(p') && PrunedDeep(p')
    ensures multiset(p'.node.mempool) <= multiset(p'.log.accepted)
  {
    forall t ensures multiset(p'.node.mempool)[t] <= multiset(p'.log.accepted)[t] {
      RemoveKeeps(p.node.mempool, Included(a), t);
    }
    forall t | t in p'.log.accepted
      ensures t in p'.node.mempool || exists c :: c in p'.log.pruned && t in Included(c)
    {
      RemoveKeeps(p.node.mempool, Included(a), t);
    }
    forall x: set<Tx> | forall c :: c in p'.log.pruned ==> Included(c) <= x
      ensures RemoveExisting(p'.node.mempool, x) == RemoveExisting(p'.log.accepted, x)
    {
      RemoveTwice(p.node.mempool, Included(a), x);
      assert a in p'.log.pruned;
      assert Included(a) + x == x;
    }
  }

  /** The block a round offers: the mempool transactions not yet on the chain, each once. */
  lemma {:induction false} FireOffers(p: Peer, c: Block, once: bool, txs: set<Tx>)
    requires PeerInv(p, once, txs) && c in p.node.rounds && FireAt(p, c).Running?
    ensures var b := NewBlock(Some(c), p.node.id, RemoveExisting(p.node.mempool, Included(c)));
            && Good(b, once, txs)
            && FireAt(p, c).value.node.mined == p.node.mined + multiset{b}
            && CacheSound(FireAt(p, c).value.node.cache) && CacheClosed(FireAt(p, c).value.node.cache)
  {
    CacheIsTransparent(p.node.store, p.node.cache, c);
    AskedIsCached(p.node.store, p.node.cache, c);
    var chosen := RemoveExisting(p.node.mempool, Included(c));
    forall t | t in chosen ensures t in txs {
      RemoveKeeps(p.node.mempool, Included(c), t);
      assert t in multiset(p.node.mempool);
    }
    if once {
      NoDupsIffOnce(p.log.accepted);
      forall t ensures multiset(chosen)[t] <= 1 {
        RemoveKeeps(p.node.mempool, Included(c), t);
      }
      NoDupsIffOnce(chosen);
      RoundAddsNoDupsIff(c, p.node.mempool, p.node.id);
    }
  }

  lemma {:induction false} FireKeepsPeerInv(p: Peer, c: Block, once: bool, txs: set<Tx>)
    requires PeerInv(p, once, txs) && c in p.node.rounds && FireAt(p, c).Running?
    ensures PeerInv(FireAt(p, c).value, once, txs)
  {
    FireOffers(p, c, once, txs);
    var p' := FireAt(p, c).value;
    assert BlocksGood(p', once, txs);
    SameLogKeepsLog(p, p');
  }

  lemma {:induction false} AdoptKeepsPeerInv(p: Peer, b: Block, once: bool, txs: set<Tx>)
    requires PeerInv(p, once, txs) && b in p.node.mined && AdoptMined(p.node, b).Running?
    ensures var (n, sent) := AdoptMined(p.node, b).value;
            && PeerInv(p.(node := n), once, txs)
            && (sent.Some? ==> sent.value.block == b && Good(b, once, txs) && Good(sent.value.parent, once, txs))
  {
    hide AdoptMined, Good;
    AdoptFrame(p.node, b);
    var p' := p.(node := AdoptMined(p.node, b).value.0);
    assert BlocksGood(p', once, txs);
    SameLogKeepsLog(p, p');
  }

  lemma {:induction false} PostKeepsPeerInv(p: Peer, d: Delivery, once: bool, txs: set<Tx>)
    requires PeerInv(p, once, txs) && DeliveryGood(d, once, txs)
    ensures PeerInv(p.(inbox := p.inbox + multiset{d}), once, txs)
  {
  }

  lemma {:induction false} BroadcastKeepsNetInv(net: Net, sender: NodeId, a: Announcement, sent: set<Block>, once: bool)
    requires NetInv(net, once) && Good(a.parent, once, net.txs) && Good(a.block, once, net.txs)
    ensures NetInv(net.(peers := Posted(net.peers, sender, a), sent := sent), once)
  {
    var d := Both(a.parent, a.block);
    var peers := Posted(net.peers, sender, a);
    forall j | 0 <= j < |peers| ensures PeerInv(peers[j], once, net.txs) {
      PostKeepsPeerInv(net.peers[j], d, once, net.txs);
    }
  }

  lemma {:induction false} PeerOfNet(net: Net, i: nat, once: bool)
    requires NetInv(net, once) && i < |net.peers|
    ensures PeerInv(net.peers[i], once, net.txs)
  {
  }

  lemma {:induction false} AdoptKeepsNetInv(net: Net, i: nat, b: Block, once: bool)
    requires NetInv(net, once) && i < |net.peers| && b in net.peers[i].node.mined && AdoptAt(net, i, b).Running?
    ensures NetInv(AdoptAt(net, i, b).value, once)
  {
    hide NetInv, PeerInv, Good, AdoptMined, PrintedAtAll, Posted;
    var p := net.peers[i];
    PeerOfNet(net, i, once);
    AdoptKeepsPeerInv(p, b, once, net.txs);
    var (n, sent) := AdoptMined(p.node, b).value;
    ReplaceKeepsNetInv(net, i, p.(node := n), once);
    if sent.Some? {
      BroadcastKeepsNetInv(net.(peers := net.peers[i := p.(node := n)]), n.id, sent.value, net.sent + {b}, once);
    }
  }

  lemma {:induction false} SendKeepsPeerInv(p: Peer, t: Tx, once: bool, txs: set<Tx>)
    requires PeerInv(p, once, txs)
    ensures PeerInv(p.(gossip := p.gossip + multiset{t}), once, txs + {t}) && PeerInv(p, once, txs + {t})
  {
    hide WellBuilt, ChainTxs, NoDups, Included, RemoveExisting, Ancestor;
  }

  lemma {:induction false} SendKeepsNetInv(net: Net, i: nat, t: Tx, once: bool)
    requires NetInv(net, once) && Enabled(net, SendTx(i, t))
    ensures NetInv(Apply(net, SendTx(i, t)).value, once)
  {
    var id := net.peers[i].node.id;
    forall j | 0 <= j < |net.peers| ensures PeerInv(BroadcastTx(net.peers, id, t)[j], once, net.txs + {t}) {
      SendKeepsPeerInv(net.peers[j], t, once, net.txs);
    }
  }

  lemma {:induction false} ReplaceKeepsNetInv(net: Net, i: nat, p: Peer, once: bool)
    requires NetInv(net, once) && i < |net.peers| && PeerInv(p, once, net.txs)
    ensures NetInv(net.(peers := net.peers[i := p]), once)
  {
  }

  lemma {:induction false} DeliverKeepsNetInv(net: Net, step: Step, once: bool)
    requires NetInv(net, once) && Enabled(net, step) && Apply(net, step).Running?
    requires step.DeliverParent? || step.DeliverBlock?
    ensures NetInv(Apply(net, step).value, once)
  {
    var p := net.peers[step.i];
    if step.DeliverParent? {
      var d := step.pair;
      assert DeliveryGood(d, once, net.txs);
      ReceiveKeepsPeerInv(p, d.parent, p.inbox - multiset{d} + multiset{Rest(d.block)}, once, net.txs);
    } else {
      assert DeliveryGood(Rest(step.block), once, net.txs);
      ReceiveKeepsPeerInv(p, step.block, p.inbox - multiset{Rest(step.block)}, once, net.txs);
    }
  }

  /** No node has received a transaction twice. */
  ghost predicate ReceivedOnce(net: Net) {
    forall i :: 0 <= i < |net.peers| ==> NoDups(net.peers[i].log.accepted)
  }

  /** Every step keeps the invariant; with `once`, provided no node has then received a transaction twice. */
  lemma {:induction false} StepKeepsNetInv(net: Net, step: Step, once: bool)
    requires NetInv(net, once) && Enabled(net, step) && Apply(net, step).Running?
    requires once ==> ReceivedOnce(Apply(net, step).value)
    ensures NetInv(Apply(net, step).value, once)
  {
    hide PeerInv;
    var p := net.peers[step.i];
    match step {
      case SendTx(i, t) => SendKeepsNetInv(net, i, t, once);
      case Adopt(i, b) => AdoptKeepsNetInv(net, i, b, once);
      case Gossip(i, t) =>
        assert Apply(net, step).value.peers[i] == GossipAt(p, t);
        GossipKeepsPeerInv(p, t, once, net.txs);
        ReplaceKeepsNetInv(net, i, GossipAt(p, t), once);
      case Take(i) =>
        TakeKeepsPeerInv(p, once, net.txs);
        ReplaceKeepsNetInv(net, i, TakeAt(p).value, once);
      case Fire(i, c) =>
        FireKeepsPeerInv(p, c, once, net.txs);
        ReplaceKeepsNetInv(net, i, FireAt(p, c).value, once);
      case DeliverParent(_, _) => DeliverKeepsNetInv(net, step, once);
      case DeliverBlock(_, _) => DeliverKeepsNetInv(net, step, once);
    }
  }

  /** What a step changes of the transactions received by and under way to the peer `p` at `i`. */
  ghost predicate Hears(net: Net, step: Step, i: nat, p: Peer, p': Peer)
    requires step.i < |net.peers|
  {
    match step
    case SendTx(k, t) =>
      p'.log.accepted == p.log.accepted &&
      p'.gossip == if p.node.id != net.peers[k].node.id then p.gossip + multiset{t} else p.gossip
    case Gossip(k, t) =>
      if i == k then p'.log.accepted == p.log.accepted + [t] && p'.gossip == p.gossip - multiset{t}
      else p'.log.accepted == p.log.accepted && p'.gossip == p.gossip
    case _ => p'.log.accepted == p.log.accepted && p'.gossip == p.gossip
  }

  lemma {:induction false} StepHears(net: Net, step: Step, i: nat)
    requires Enabled(net, step) && Apply(net, step).Running? && i < |net.peers|
    ensures var net' := Apply(net, step).value;
            && |net'.peers| == |net.peers|
            && net'.txs == net.txs + (if step.SendTx? then {step.tx} else {})
            && Hears(net, step, i, net.peers[i], net'.peers[i])
  {
    hide TakeAt, FireAt, ReceiveAt, AdoptAt;
    var p := net.peers[step.i];
    match step {
      case SendTx(_, _) =>
      case Gossip(_, _) =>
      case Take(_) => TakeHears(p);
      case Fire(_, c) => FireHears(p, c);
      case Adopt(k, b) => AdoptHears(net, k, b, i);
      case DeliverParent(_, d) =>
        ReceiveHears(p, d.parent, p.inbox - multiset{d} + multiset{Rest(d.block)});
      case DeliverBlock(_, b) => ReceiveHears(p, b, p.inbox - multiset{Rest(b)});
    }
  }

  ghost predicate HearsNothing(p: Peer, r: Outcome<Peer>) {
    r.Running? ==> r.value.log.accepted == p.log.accepted && r.value.gossip == p.gossip
  }

  lemma {:induction false} TakeHears(p: Peer)
    requires |p.node.canonical| > 0
    ensures HearsNothing(p, TakeAt(p))
  {
  }

  lemma {:induction false} FireHears(p: Peer, c: Block)
    ensures HearsNothing(p, FireAt(p, c))
  {
  }

  lemma {:induction false} ReceiveHears(p: Peer, b: Block, inbox: multiset<Delivery>)
    ensures HearsNothing(p, ReceiveAt(p, b, inbox))
  {
  }

  lemma {:induction false} AdoptHears(net: Net, k: nat, b: Block, i: nat)
    requires k < |net.peers| && AdoptAt(net, k, b).Running? && i < |net.peers|
    ensures var net' := AdoptAt(net, k, b).value;
            && |net'.peers| == |net.peers| && net'.txs == net.txs
            && net'.peers[i].log == net.peers[i].log && net'.peers[i].gossip == net.peers[i].gossip
  {
    hide AdoptMined, PrintedAtAll;
  }

  lemma {:induction false} ReceivedOnceBefore(net: Net, step: Step)
    requires Enabled(net, step) && Apply(net, step).Running? && ReceivedOnce(Apply(net, step).value)
    ensures ReceivedOnce(net)
  {
    var net' := Apply(net, step).value;
    forall i | 0 <= i < |net.peers| ensures NoDups(net.peers[i].log.accepted) {
      StepHears(net, step, i);
      assert net.peers[i].log.accepted <= net'.peers[i].log.accepted;
    }
  }

  lemma {:induction false} InitialNetInv(net: Net, once: bool)
    requires Initial(net)
    ensures NetInv(net, once)
  {
  }

  lemma {:induction false} RunKeepsNetInv(nets: seq<Net>, steps: seq<Step>, once: bool, k: nat)
    requires IsRun(nets, steps) && k < |nets|
    requires once ==> ReceivedOnce(nets[k])
    ensures NetInv(nets[k], once)
    decreases k
  {
    hide Apply, NetInv, ReceivedOnce;
    if k == 0 {
      InitialNetInv(nets[0], once);
    } else {
      assert StepAt(nets, steps, k - 1);
      if once {
        ReceivedOnceBefore(nets[k - 1], steps[k - 1]);
      }
      RunKeepsNetInv(nets, steps, once, k - 1);
      StepKeepsNetInv(nets[k - 1], steps[k - 1], once);
    }
  }

  /**
   No double inclusion.  As long as no node has received the same transaction twice, no transaction
   occurs twice on the chain of any block any node has stored, whatever the order of deliveries, the
   forks and the late mining rounds.
   */
  lemma {:induction false} NoDoubleInclusion(nets: seq<Net>, steps: seq<Step>, k: nat, i: nat, b: Block)
    requires IsRun(nets, steps) && k < |nets| && ReceivedOnce(nets[k])
    requires i < |nets[k].peers| && b in nets[k].peers[i].node.store
    ensures NoDups(ChainTxs(b)) && HashDups(ChainTxs(b)) == map[]
  {
    RunKeepsNetInv(nets, steps, true, k);
    HashDupsEmptyIff(ChainTxs(b));
  }

  /** No transaction is broadcast twice in the run. */
  ghost predicate EachTxOnce(nets: seq<Net>, steps: seq<Step>)
    requires |nets| == |steps| + 1
  {
    forall k :: 0 <= k < |steps| && steps[k].SendTx? ==> steps[k].tx !in nets[k].txs
  }

  /** What a node has received and what is under way to it was broadcast, and is there once. */
  ghost predicate HeardOnce(p: Peer, txs: set<Tx>) {
    forall t :: multiset(p.log.accepted)[t] + p.gossip[t] <= (if t in txs then 1 else 0)
  }

  lemma {:induction false} RunHearsOnce(nets: seq<Net>, steps: seq<Step>, k: nat, i: nat)
    requires IsRun(nets, steps) && EachTxOnce(nets, steps) && k < |nets| && i < |nets[k].peers|
    ensures HeardOnce(nets[k].peers[i], nets[k].txs)
    decreases k
  {
    hide Apply;
    if k == 0 {
      assert nets[0].peers[i].gossip == multiset{};
    } else {
      assert StepAt(nets, steps, k - 1);
      PeersStay(nets[k - 1], steps[k - 1]);
      RunHearsOnce(nets, steps, k - 1, i);
      StepHears(nets[k - 1], steps[k - 1], i);
    }
  }

  lemma {:induction false} PeersStay(net: Net, step: Step)
    requires Enabled(net, step) && Apply(net, step).Running?
    ensures |Apply(net, step).value.peers| == |net.peers|
  {
    StepHears(net, step, step.i);
  }

  /** A transaction broadcast once is received at most once by each node, so it is included at most once. */
  lemma {:induction false} BroadcastOnceIncludedOnce(nets: seq<Net>, steps: seq<Step>, k: nat, i: nat, b: Block)
    requires IsRun(nets, steps) && EachTxOnce(nets, steps)
    requires k < |nets| && i < |nets[k].peers| && b in nets[k].peers[i].node.store
    ensures NoDups(ChainTxs(b)) && HashDups(ChainTxs(b)) == map[]
  {
    forall j | 0 <= j < |nets[k].peers| ensures NoDups(nets[k].peers[j].log.accepted) {
      RunHearsOnce(nets, steps, k, j);
      NoDupsIffOnce(nets[k].peers[j].log.accepted);
    }
    NoDoubleInclusion(nets, steps, k, i, b);
  }

  /** No transaction from nowhere: in every run whatever is on the chain of a stored or mined block was broadcast. */
  lemma {:induction false} OnlyBroadcastTxs(nets: seq<Net>, steps: seq<Step>, k: nat, i: nat, b: Block, t: Tx)
    requires IsRun(nets, steps) && k < |nets| && i < |nets[k].peers|
    requires b in nets[k].peers[i].node.store || b in nets[k].peers[i].node.mined
    requires t in Included(b)
    ensures exists l :: 0 <= l < k && steps[l].SendTx? && steps[l].tx == t
  {
    RunKeepsNetInv(nets, steps, false, k);
    assert Good(b, false, nets[k].txs);
    TxsWereSent(nets, steps, k, t);
  }

  lemma {:induction false} TxsWereSent(nets: seq<Net>, steps: seq<Step>, k: nat, t: Tx)
    requires IsRun(nets, steps) && k < |nets| && t in nets[k].txs
    ensures exists l :: 0 <= l < k && steps[l].SendTx? && steps[l].tx == t
    decreases k
  {
    hide Apply;
    if k == 0 {
      assert false;
    } else {
      assert StepAt(nets, steps, k - 1);
      StepHears(nets[k - 1], steps[k - 1], steps[k - 1].i);
      if t in nets[k - 1].txs {
        TxsWereSent(nets, steps, k - 1, t);
        var l :| 0 <= l < k - 1 && steps[l].SendTx? && steps[l].tx == t;
      }
    }
  }

  /**
   Conservation.  In every run each transaction a node received is still in its mempool, or lies at
   least the committed depth below a canonical block its miner has taken.
   */
  lemma {:induction false} TransactionsAreConserved(nets: seq<Net>, steps: seq<Step>, k: nat, i: nat, t: Tx)
    requires IsRun(nets, steps) && k < |nets| && i < |nets[k].peers|
    requires t in nets[k].peers[i].log.accepted
    ensures var p := nets[k].peers[i];
            || t in p.node.mempool
            || exists a, c :: c in p.log.taken && Ancestor(a, c) && t in a.txs && a.number + HEIGHT_COMMITTED <= c.number
  {
    RunKeepsNetInv(nets, steps, false, k);
    var p := nets[k].peers[i];
    if t !in p.node.mempool {
      var d :| d in p.log.pruned && t in Included(d);
      var c :| c in p.log.taken && Ancestor(d, c) && c.number == d.number + HEIGHT_COMMITTED;
      BelowPruned(d, c, t);
      var a :| Ancestor(a, c) && t in a.txs && a.number + HEIGHT_COMMITTED <= c.number;
    }
  }

  lemma {:induction false} BelowPruned(d: Block, c: Block, t: Tx)
    requires WellBuilt(c) && Ancestor(d, c) && c.number == d.number + HEIGHT_COMMITTED && t in Included(d)
    ensures exists a :: Ancestor(a, c) && t in a.txs && a.number + HEIGHT_COMMITTED <= c.number
  {
    IncludedIff(d, t);
    var a :| Ancestor(a, d) && t in a.txs;
    AncestorTransitive(a, d, c);
    AncestorIsLower(d, c);
    AncestorIsLower(a, d);
  }
}
