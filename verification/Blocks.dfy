/**
 L1 blocks and the tree they form.

 A block hash is a free constructor over the block it was computed from: equal hashes mean equal
 blocks, which is what the protocol assumes of Keccak.  The tree is therefore determined by the
 blocks alone; what a node has to look up is which of them it has stored.
 */
module Blocks {
  import opened Wrappers

  type NodeId = nat

  // What the mock's contract libraries find in a transaction.
  datatype Payload =
    | Unreadable(deposit: bool)        // decoding it panics; addressed to the bridge or not
    | RollupTx(seqNo: Option<nat>)     // the last batch number of the rollup, None if it does not decode
    | OtherTx

  // A transaction, identified with its hash.
  datatype Tx = Tx(id: nat, payload: Payload)

  datatype Hash = Zero | Digest(block: Block)

  datatype Block = Block(parentHash: Hash, miner: NodeId, number: nat, txs: seq<Tx>)

  function NewBlock(parent: Option<Block>, miner: NodeId, txs: seq<Tx>): (b: Block) {
    match parent
    case None => Block(Zero, miner, 0, txs)
    case Some(p) => Block(Digest(p), miner, p.number + 1, txs)
  }

  const GENESIS: Block := NewBlock(None, 0, [])

  predicate HasParent(b: Block) {
    b.parentHash.Digest?
  }

  function Parent(b: Block): Block
    requires HasParent(b)
  {
    b.parentHash.block
  }

  /** A block names its miner and carries the transactions; it is one above its parent, or at height 0 without one. */
  lemma {:induction false} NewBlockIs(parent: Option<Block>, miner: NodeId, txs: seq<Tx>)
    ensures var b := NewBlock(parent, miner, txs);
            && b.miner == miner && b.txs == txs
            && (parent.None? ==> !HasParent(b) && b.number == 0)
            && (parent.Some? ==> HasParent(b) && Parent(b) == parent.value && b.number == parent.value.number + 1)
  {
  }

  /** Blocks obtained from the genesis block by repeated use of NewBlock. */
  predicate WellBuilt(b: Block) {
    b == GENESIS || (HasParent(b) && b.number == Parent(b).number + 1 && WellBuilt(Parent(b)))
  }

  /** `a` is `b` or is reached from `b` by parent links. */
  predicate Ancestor(a: Block, b: Block) {
    a == b || (HasParent(b) && Ancestor(a, Parent(b)))
  }

  /** The path from the root of `b`'s tree to `b`. */
  function Chain(b: Block): seq<Block> {
    if HasParent(b) then Chain(Parent(b)) + [b] else [b]
  }

  /** All transactions on the path to `b`, in order. */
  function ChainTxs(b: Block): seq<Tx> {
    if HasParent(b) then ChainTxs(Parent(b)) + b.txs else b.txs
  }

  function TxSet(txs: seq<Tx>): set<Tx> {
    set t | t in txs
  }

  /** The transactions included in `b` or in one of its ancestors. */
  function Included(b: Block): set<Tx> {
    TxSet(ChainTxs(b))
  }

  /** The path from `a` up to `b`, both included. */
  function Segment(a: Block, b: Block): seq<Block>
    requires Ancestor(a, b)
  {
    if a == b then [a] else Segment(a, Parent(b)) + [b]
  }

  lemma {:induction false} AncestorTransitive(a: Block, b: Block, c: Block)
    requires Ancestor(a, b) && Ancestor(b, c)
    ensures Ancestor(a, c)
    decreases c
  {
    if b == c {
    } else {
      AncestorTransitive(a, b, Parent(c));
    }
  }

  lemma {:induction false} AncestorIsLower(a: Block, b: Block)
    requires WellBuilt(b) && Ancestor(a, b)
    ensures WellBuilt(a) && a.number <= b.number
    ensures a.number == b.number ==> a == b
    decreases b
  {
    if a == b {
    } else {
      AncestorIsLower(a, Parent(b));
    }
  }

  lemma {:induction false} GenesisIsAncestor(b: Block)
    requires WellBuilt(b)
    ensures Ancestor(GENESIS, b)
    ensures b.number == 0 <==> b == GENESIS
    decreases b
  {
    if b == GENESIS {
    } else {
      GenesisIsAncestor(Parent(b));
    }
  }

  /** The ancestors of one block are linearly ordered by height. */
  lemma {:induction false} AncestorsAreOrdered(a: Block, b: Block, c: Block)
    requires WellBuilt(c) && Ancestor(a, c) && Ancestor(b, c) && a.number <= b.number
    ensures Ancestor(a, b)
    decreases c
  {
    AncestorIsLower(a, c);
    if b == c {
    } else {
      AncestorIsLower(b, Parent(c));
      if a != c {
        AncestorsAreOrdered(a, b, Parent(c));
      }
    }
  }

  /** Ancestry is the prefix order on paths. */
  lemma {:induction false} AncestorIffPrefix(a: Block, b: Block)
    requires WellBuilt(a) && WellBuilt(b)
    ensures Ancestor(a, b) <==> Chain(a) <= Chain(b)
    decreases b
  {
    ChainShape(a);
    ChainShape(b);
    if a == b || b == GENESIS {
    } else {
      AncestorIffPrefix(a, Parent(b));
      ChainShape(Parent(b));
      if Chain(a) <= Chain(b) && |Chain(a)| < |Chain(b)| {
        assert Chain(a) <= Chain(Parent(b));
      }
    }
  }

  /** The path to `b` lists exactly one ancestor per height, from the genesis block to `b`. */
  lemma {:induction false} ChainShape(b: Block)
    requires WellBuilt(b)
    ensures |Chain(b)| == b.number + 1 && Chain(b)[b.number] == b && Chain(b)[0] == GENESIS
    ensures forall i :: 0 <= i < |Chain(b)| ==> Chain(b)[i].number == i && Ancestor(Chain(b)[i], b)
    ensures forall a :: Ancestor(a, b) ==> a in Chain(b)
    decreases b
  {
    if b == GENESIS {
    } else {
      ChainShape(Parent(b));
    }
  }

  lemma {:induction false} ChainAt(a: Block, b: Block)
    requires WellBuilt(b) && Ancestor(a, b)
    ensures a.number < |Chain(b)| && Chain(b)[a.number] == a
    ensures Chain(b)[..a.number + 1] == Chain(a)
    decreases b
  {
    ChainShape(b);
    if a == b {
    } else {
      ChainAt(a, Parent(b));
      ChainShape(Parent(b));
    }
  }

  /** A transaction is included in `b` exactly when some ancestor of `b` carries it. */
  lemma {:induction false} IncludedIff(b: Block, t: Tx)
    ensures t in Included(b) <==> exists a :: Ancestor(a, b) && t in a.txs
    decreases b
  {
    if HasParent(b) {
      IncludedIff(Parent(b), t);
      if t in b.txs {
        assert Ancestor(b, b);
      } else if t in Included(Parent(b)) {
        var a :| Ancestor(a, Parent(b)) && t in a.txs;
        assert Ancestor(a, b);
      }
    } else if t in Included(b) {
      assert Ancestor(b, b);
    }
  }

  lemma {:induction false} IncludedGrows(a: Block, b: Block)
    requires Ancestor(a, b)
    ensures Included(a) <= Included(b)
    decreases b
  {
    if a == b {
    } else {
      IncludedGrows(a, Parent(b));
    }
  }

  lemma {:induction false} IncludedStep(b: Block)
    requires HasParent(b)
    ensures Included(b) == Included(Parent(b)) + TxSet(b.txs)
  {
  }

  /** The segment from `a` to `b` is what `b`'s path has above `a`'s path, with `a` in front. */
  lemma {:induction false} SegmentShape(a: Block, b: Block)
    requires WellBuilt(b) && Ancestor(a, b)
    ensures a.number <= b.number
    ensures |Segment(a, b)| == b.number - a.number + 1
    ensures Segment(a, b)[0] == a && Segment(a, b)[b.number - a.number] == b
    ensures |Chain(b)| == b.number + 1 && Segment(a, b) == Chain(b)[a.number..]
    decreases b
  {
    ChainShape(b);
    if a == b {
      assert Chain(b)[b.number..] == [b];
    } else {
      var p := Parent(b);
      AncestorIsLower(a, p);
      SegmentShape(a, p);
      hide Ancestor, WellBuilt;
      assert Chain(b)[a.number..] == Chain(p)[a.number..] + [b];
    }
  }

  /** The highest block that is an ancestor of both arguments. */
  function Meet(x: Block, y: Block): (m: Block)
    requires WellBuilt(x) && WellBuilt(y)
    ensures Ancestor(m, x) && Ancestor(m, y)
    decreases x, y
  {
    if x == y then x
    else if x.number > y.number then Meet(Parent(x), y)
    else if y.number > x.number then Meet(x, Parent(y))
    else
      GenesisIsAncestor(x); GenesisIsAncestor(y);
      Meet(Parent(x), Parent(y))
  }

  lemma {:induction false} MeetIsHighest(x: Block, y: Block, a: Block)
    requires WellBuilt(x) && WellBuilt(y) && Ancestor(a, x) && Ancestor(a, y)
    ensures Ancestor(a, Meet(x, y))
    decreases x, y
  {
    AncestorIsLower(a, x);
    AncestorIsLower(a, y);
    if x == y {
    } else if x.number > y.number {
      MeetIsHighest(Parent(x), y, a);
    } else if y.number > x.number {
      MeetIsHighest(x, Parent(y), a);
    } else {
      GenesisIsAncestor(x);
      GenesisIsAncestor(y);
      MeetIsHighest(Parent(x), Parent(y), a);
    }
  }

  lemma {:induction false} MeetOfAncestor(x: Block, y: Block)
    requires WellBuilt(x) && WellBuilt(y)
    ensures Ancestor(x, y) <==> Meet(x, y) == x
  {
    if Ancestor(x, y) {
      MeetIsHighest(x, y, x);
      AncestorIsLower(Meet(x, y), x);
      AncestorIsLower(x, Meet(x, y));
    }
  }
}
