/** Which states the runs from a start reach, and how a run is extended. */
module Reachability {
  import opened Wrappers
  import opened Blocks
  import opened Resolver
  import opened Walks
  import opened Mempool
  import opened Nodes
  import opened Network
  import opened Runs
  import opened Agreement

  /** Some run from `start` ends in `net`; with `causal`, a causal one. */
  ghost predicate Reached(start: Net, net: Net, causal: bool) {
    exists nets, steps :: IsRun(nets, steps) && nets[0] == start && nets[|steps|] == net &&
                          (causal ==> IsCausalRun(nets, steps))
  }

  lemma {:induction false} Weaken(start: Net, net: Net)
    requires Reached(start, net, true)
    ensures Reached(start, net, false)
  {
  }

  lemma {:induction false} ExtendRun(nets: seq<Net>, steps: seq<Step>, step: Step)
    requires IsRun(nets, steps) && Enabled(nets[|steps|], step) && Apply(nets[|steps|], step).Running?
    ensures IsRun(nets + [Apply(nets[|steps|], step).value], steps + [step])
  {
    var nets', steps' := nets + [Apply(nets[|steps|], step).value], steps + [step];
    forall k: nat | k < |steps'| ensures StepAt(nets', steps', k) {
      if k < |steps| {
        assert StepAt(nets, steps, k);
      }
    }
  }

  lemma {:induction false} ExtendCausalRun(nets: seq<Net>, steps: seq<Step>, step: Step)
    requires IsCausalRun(nets, steps) && Enabled(nets[|steps|], step) && Apply(nets[|steps|], step).Running?
    requires Causal(nets[|steps|], step)
    ensures IsCausalRun(nets + [Apply(nets[|steps|], step).value], steps + [step])
  {
    ExtendRun(nets, steps, step);
    var nets', steps' := nets + [Apply(nets[|steps|], step).value], steps + [step];
    forall k: nat | k < |steps'| ensures CausalAt(nets', steps', k) {
      if k < |steps| {
        assert CausalAt(nets, steps, k);
      }
    }
  }

  lemma {:induction false} Reach(start: Net, net: Net, step: Step, causal: bool)
    requires Reached(start, net, causal) && Enabled(net, step) && Apply(net, step).Running?
    requires causal ==> Causal(net, step)
    ensures Reached(start, Apply(net, step).value, causal)
  {
    var nets, steps :| IsRun(nets, steps) && nets[0] == start && nets[|steps|] == net &&
                       (causal ==> IsCausalRun(nets, steps));
    ExtendRun(nets, steps, step);
    if causal {
      ExtendCausalRun(nets, steps, step);
    }
    assert (nets + [Apply(net, step).value])[|steps + [step]|] == Apply(net, step).value;
  }

  lemma {:induction false} ReachedIsSafe(start: Net, net: Net)
    requires Reached(start, net, true)
    ensures SafeNet(net) && GroundedNet(net) && NetRises(start, net)
  {
    var nets, steps :| IsRun(nets, steps) && nets[0] == start && nets[|steps|] == net && IsCausalRun(nets, steps);
    RunIsSafe(nets, steps, |steps|);
    RunIsGrounded(nets, steps, |steps|);
    HeadsOnlyRise(nets, steps, 0, |steps|);
  }

  lemma {:induction false} ReachedIsSafeAt(start: Net, net: Net, i: nat)
    requires Reached(start, net, true) && i < |net.peers|
    ensures SafePeer(net.peers[i])
  {
    ReachedIsSafe(start, net);
  }

  lemma {:induction false} StartIsReached(start: Net)
    requires Initial(start)
    ensures Reached(start, start, true)
  {
    assert IsRun([start], []) && IsCausalRun([start], []);
    assert [start][0] == start;
  }

  /** Only node `i` may have changed. */
  ghost predicate OthersSame(net: Net, net': Net, i: nat) {
    && |net'.peers| == |net.peers| && net'.txs == net.txs
    && forall j :: 0 <= j < |net.peers| && j != i ==> net'.peers[j] == net.peers[j]
  }

  lemma {:induction false} StepAtPeer(start: Net, net: Net, step: Step, p': Peer) returns (net': Net)
    requires Reached(start, net, true) && Enabled(net, step) && Causal(net, step)
    requires Apply(net, step) == Replace(net, step.i, Running(p'))
    ensures Reached(start, net', true) && Apply(net, step) == Running(net')
    ensures OthersSame(net, net', step.i) && net'.peers[step.i] == p'
  {
    Reach(start, net, step, true);
    net' := Apply(net, step).value;
  }

  ghost predicate Quiet(net: Net) {
    forall n :: 0 <= n < |net.peers| ==> net.peers[n].inbox == multiset{}
  }

  ghost predicate SameHeights(net: Net) {
    forall i, j :: 0 <= i < |net.peers| && 0 <= j < |net.peers| ==>
      net.peers[i].node.head.number == net.peers[j].node.head.number
  }

  lemma {:induction false} GenesisIsStored(p: Peer)
    requires SafePeer(p)
    ensures GENESIS in p.node.store
  {
  }
}
