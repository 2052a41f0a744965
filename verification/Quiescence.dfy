/**
 Quiet states are always within reach: from every state of a causal run with distinct ids, delivering what is
 on its way leads to one, so all nodes can come to the same height without further mining.
 */
module Quiescence {
  import opened Wrappers
  import opened Blocks
  import opened Resolver
  import opened Walks
  import opened Mempool
  import opened Nodes
  import opened Network
  import opened Runs
  import opened Agreement
  import opened Reachability

  /** A causal sequence of deliveries. */
  ghost predicate IsDelivery(nets: seq<Net>, steps: seq<Step>) {
    |nets| == |steps| + 1 && forall k :: 0 <= k < |steps| ==> DeliveryAt(nets, steps, k)
  }

  ghost predicate DeliveryAt(nets: seq<Net>, steps: seq<Step>, k: nat)
    requires |nets| == |steps| + 1 && k < |steps|
  {
    StepAt(nets, steps, k) && CausalAt(nets, steps, k) && (steps[k].DeliverParent? || steps[k].DeliverBlock?)
  }

  /** Causal deliveries alone lead from `net` to `net'`. */
  ghost predicate Delivers(net: Net, net': Net) {
    exists nets, steps :: IsDelivery(nets, steps) && nets[0] == net && nets[|steps|] == net'
  }

  lemma {:induction false} DeliversNothing(net: Net)
    ensures Delivers(net, net)
  {
    assert IsDelivery([net], []);
    assert [net][0] == net;
  }

  lemma {:induction false} DeliversMore(net: Net, net1: Net, step: Step, net2: Net)
    requires Delivers(net, net1) && Enabled(net1, step) && Causal(net1, step)
    requires (step.DeliverParent? || step.DeliverBlock?) && Apply(net1, step) == Running(net2)
    ensures Delivers(net, net2)
  {
    var nets, steps :| IsDelivery(nets, steps) && nets[0] == net && nets[|steps|] == net1;
    var nets', steps' := nets + [net2], steps + [step];
    forall k: nat | k < |steps'| ensures DeliveryAt(nets', steps', k) {
      if k < |steps| {
        assert DeliveryAt(nets, steps, k);
      }
    }
    assert IsDelivery(nets', steps') && nets'[0] == net && nets'[|steps'|] == net2;
  }

  /* ---- How much is on its way ---- */

  ghost function UnderWay(peers: seq<Peer>): nat {
    if peers == [] then 0 else |peers[0].inbox| + UnderWay(peers[1..])
  }

  lemma {:induction false} UnderWayAt(peers: seq<Peer>, i: nat, p: Peer)
    requires i < |peers|
    ensures UnderWay(peers[i := p]) + |peers[i].inbox| == UnderWay(peers) + |p.inbox|
    decreases |peers|
  {
    if i == 0 {
      assert peers[0 := p][1..] == peers[1..];
    } else {
      assert peers[i := p][1..] == peers[1..][i - 1 := p];
      UnderWayAt(peers[1..], i - 1, p);
    }
  }

  /** The pair whose block is lowest. */
  lemma {:induction false} LowestPair(inbox: multiset<Delivery>, d: Delivery) returns (low: Delivery)
    requires d in inbox
    ensures low in inbox && forall x :: x in inbox ==> low.block.number <= x.block.number
    decreases d.block.number
  {
    if forall x :: x in inbox ==> d.block.number <= x.block.number {
      low := d;
    } else {
      var x :| x in inbox && x.block.number < d.block.number;
      low := LowestPair(inbox, x);
    }
  }

  /** The parent of the lowest pair is stored: it was broadcast, and its own pair would be lower. */
  lemma {:induction false} LowestHasParent(sent: set<Block>, p: Peer, d: Delivery)
    requires SafePeer(p) && SpreadPeer(sent, p) && d in p.inbox && d.Both?
    requires forall x :: x in p.inbox ==> d.block.number <= x.block.number
    ensures d.parent in p.node.store
  {
    assert Deliverable(p.node.store, d);
    assert Known(sent, d.parent);
    GenesisIsStored(p);
    hide NodeInv;
  }

  lemma {:induction false} ReachedSpreads(start: Net, net: Net)
    requires Reached(start, net, true) && DistinctIds(start)
    ensures SpreadNet(net)
  {
    var nets, steps :| IsRun(nets, steps) && nets[0] == start && nets[|steps|] == net && IsCausalRun(nets, steps);
    RunSpreads(nets, steps, |steps|);
  }

  /* ---- One delivery ---- */

  /** Node `i` takes the block of a pair whose parent it was handed: always causal, and one less is under way. */
  lemma {:induction false} TakeRest(start: Net, from: Net, net: Net, i: nat, b: Block) returns (net': Net)
    requires Reached(start, net, true) && Delivers(from, net) && i < |net.peers| && Rest(b) in net.peers[i].inbox
    ensures Reached(start, net', true) && Delivers(from, net') && UnderWay(net'.peers) + 1 == UnderWay(net.peers)
  {
    hide Reached, Delivers, SafePeer, ReceiveBlock;
    var p, step := net.peers[i], DeliverBlock(i, b);
    ReachedIsSafeAt(start, net, i);
    BlockIsSafe(p, b);
    var p' := ReceiveAt(p, b, p.inbox - multiset{Rest(b)}).value;
    net' := StepAtPeer(start, net, step, p');
    assert net'.peers == net.peers[i := p'];
    DeliversMore(from, net, step, net');
    UnderWayAt(net.peers, i, p');
  }

  /** Node `i` takes the parent of a pair that it has stored, which changes nothing but the pair. */
  lemma {:induction false} TakeParent(start: Net, from: Net, net: Net, i: nat, d: Delivery) returns (net': Net)
    requires Reached(start, net, true) && Delivers(from, net) && i < |net.peers|
    requires d in net.peers[i].inbox && d.Both? && d.parent in net.peers[i].node.store
    ensures Reached(start, net', true) && Delivers(from, net') && UnderWay(net'.peers) == UnderWay(net.peers)
    ensures |net'.peers| == |net.peers| && Rest(d.block) in net'.peers[i].inbox
  {
    hide Reached, Delivers, SafePeer, ReceiveBlock;
    var p, step := net.peers[i], DeliverParent(i, d);
    ReachedIsSafeAt(start, net, i);
    ParentIsSafe(p, d);
    var p' := ReceiveAt(p, d.parent, AfterParent(p, d)).value;
    net' := StepAtPeer(start, net, step, p');
    assert net'.peers == net.peers[i := p'];
    DeliversMore(from, net, step, net');
    UnderWayAt(net.peers, i, p');
  }

  /** Whenever something is under way, some node can take a block, and less is under way. */
  lemma {:induction false} TakeOne(start: Net, from: Net, net: Net, i: nat) returns (net': Net)
    requires Reached(start, net, true) && DistinctIds(start) && Delivers(from, net)
    requires i < |net.peers| && net.peers[i].inbox != multiset{}
    ensures Reached(start, net', true) && Delivers(from, net') && UnderWay(net'.peers) < UnderWay(net.peers)
  {
    hide Reached, Delivers, SafePeer, SpreadPeer;
    var p := net.peers[i];
    var any :| any in p.inbox;
    var d := LowestPair(p.inbox, any);
    if d.Rest? {
      net' := TakeRest(start, from, net, i, d.block);
    } else {
      ReachedIsSafeAt(start, net, i);
      ReachedSpreads(start, net);
      assert SpreadPeer(net.sent, p);
      LowestHasParent(net.sent, p, d);
      var net1 := TakeParent(start, from, net, i, d);
      net' := TakeRest(start, from, net1, i, d.block);
    }
  }

  lemma {:induction false} DeliverAll(start: Net, from: Net, net: Net) returns (net': Net)
    requires Reached(start, net, true) && DistinctIds(start) && Delivers(from, net)
    ensures Reached(start, net', true) && Delivers(from, net') && Quiet(net')
    decreases UnderWay(net.peers)
  {
    hide Reached, Delivers;
    if Quiet(net) {
      net' := net;
    } else {
      var i :| 0 <= i < |net.peers| && net.peers[i].inbox != multiset{};
      var net1 := TakeOne(start, from, net, i);
      net' := DeliverAll(start, from, net1);
    }
  }

  /**
   Agreement is always within reach: with distinct ids, every state a causal run reaches is followed, by causal
   deliveries alone, by a quiet state in which all heads have the same height.
   */
  lemma {:induction false} AgreementWithinReach(start: Net, net: Net) returns (net': Net)
    requires Reached(start, net, true) && DistinctIds(start)
    ensures Delivers(net, net') && Reached(start, net', true)
    ensures Quiet(net') && SameHeights(net')
  {
    DeliversNothing(net);
    net' := DeliverAll(start, net, net);
    var nets, steps :| IsRun(nets, steps) && nets[0] == start && nets[|steps|] == net' && IsCausalRun(nets, steps);
    forall i, j | 0 <= i < |net'.peers| && 0 <= j < |net'.peers|
      ensures net'.peers[i].node.head.number == net'.peers[j].node.head.number
    {
      AgreementAtQuiescence(nets, steps, |steps|, i, j);
    }
  }
}
