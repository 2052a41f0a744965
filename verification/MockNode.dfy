/** The mock L1 node as an object: each method does in place what the node functions describe. */
module MockNode {
  import opened Wrappers
  import opened Blocks
  import opened Resolver
  import opened Walks
  import opened Mempool
  import opened Nodes

  /** integration/ethereummock/node.go, Node. */
  class Node {
    const id: NodeId
    const resolver: BlockResolver
    const db: TxDB
    var head: Block
    var mempool: seq<Tx>
    var canonicalCh: seq<Block>
    var headers: seq<Block>
    var rounds: multiset<Block>
    var miningCh: multiset<Block>

    ghost predicate Valid()
      reads this, resolver
    {
      resolver.Valid()
    }

    ghost function View(): NodeState
      reads this, resolver, db
    {
      NodeState(id, resolver.Stored(), head, db.transactionsPerBlock, mempool, canonicalCh, headers, rounds, miningCh)
    }

    /** NewMiner followed by the part of Start before its loop. */
    constructor (id: NodeId)
      ensures Valid() && fresh(resolver) && fresh(db)
      ensures View() == Started(id)
      ensures this.id == id && resolver.Stored() == {GENESIS} && db.transactionsPerBlock == map[] && head == GENESIS
      ensures mempool == [] && canonicalCh == headers == [GENESIS] && rounds == miningCh == multiset{}
    {
      this.id := id;
      var r := new BlockResolver();
      var d := new TxDB();
      r.StoreBlock(GENESIS);
      resolver, db := r, d;
      mempool, rounds, miningCh := [], multiset{}, multiset{};
      head, headers, canonicalCh := GENESIS, [GENESIS], [GENESIS];
    }

    method SetHead(b: Block)
      requires Valid()
      modifies this
      ensures Valid() && View() == Nodes.SetHead(old(View()), b)
    {
      headers := headers + [b];
      canonicalCh := canonicalCh + [b];
      head := b;
    }

    method SetFork(blocks: seq<Block>)
      requires Valid() && |blocks| > 0
      modifies this
      ensures Valid() && View() == Nodes.SetFork(old(View()), blocks)
    {
      head := blocks[|blocks| - 1];
      for i := 0 to |blocks|
        invariant headers == old(headers) + blocks[..i]
        invariant head == blocks[|blocks| - 1] && mempool == old(mempool) && canonicalCh == old(canonicalCh)
        invariant rounds == old(rounds) && miningCh == old(miningCh)
      {
        assert blocks[..i + 1] == blocks[..i] + [blocks[i]];
        headers := headers + [blocks[i]];
      }
      assert blocks[..|blocks|] == blocks;
      canonicalCh := canonicalCh + [head];
    }

    method ProcessBlock(b: Block) returns (status: Outcome<()>)
      requires Valid()
      modifies this, resolver
      ensures Valid()
      ensures match Nodes.ProcessBlock(old(View()), b)
              case Running(s) => status == Running(()) && View() == s
              case Crit => status == Crit
              case Panic => status == Panic
    {
      resolver.StoreBlock(b);
      var p := resolver.FetchBlock(b.parentHash);
      if p.None? || b.number <= head.number {
        return Running(());
      }
      var onHead := resolver.HasAncestor(b, head);
      if !onHead {
        var fork := FindLCA(resolver, head, b);
        if fork.None? {
          return Panic;
        }
        var blocks := BlocksBetween(resolver, fork.value.commonAncestor, b);
        if blocks.None? {
          return Panic;
        }
        SetFork(blocks.value);
        return Running(());
      }
      if b.number > head.number + 1 {
        return Crit;
      }
      SetHead(b);
      status := Running(());
    }

    /** The p2pCh case of Start. */
    method ReceiveBlock(b: Block) returns (status: Outcome<()>)
      requires Valid()
      modifies this, resolver
      ensures Valid()
      ensures match Nodes.ReceiveBlock(old(View()), b)
              case Running(s) => status == Running(()) && View() == s
              case Crit => status == Crit
              case Panic => status == Panic
    {
      var stored := resolver.FetchBlock(Digest(b));
      if stored.None? {
        status := ProcessBlock(b);
      } else {
        status := Running(());
      }
    }

    /** The miningCh case of Start; returns what it broadcasts. */
    method AdoptMined(b: Block) returns (status: Outcome<Option<Announcement>>)
      requires Valid()
      modifies this, resolver
      ensures Valid()
      ensures match Nodes.AdoptMined(old(View()), b)
              case Running((s, sent)) => status == Running(sent) && View() == s
              case Crit => status == Crit
              case Panic => status == Panic
    {
      miningCh := miningCh - multiset{b};
      var r := ProcessBlock(b);
      match r {
        case Crit => return Crit;
        case Panic => return Panic;
        case Running(_) =>
          if head != b {
            return Running(None);
          }
          var p := resolver.FetchBlock(b.parentHash);
          if p.None? {
            return Panic;
          }
          status := Running(Some(Announcement(p.value, b)));
      }
    }

    /** The canonicalCh case of startMining. */
    method TakeCanonical() returns (status: Outcome<()>)
      requires Valid() && |canonicalCh| > 0
      modifies this
      ensures Valid()
      ensures match Nodes.TakeCanonical(old(View()))
              case Running(s) => status == Running(()) && View() == s
              case Crit => status == Crit
              case Panic => false
    {
      var canonicalBlock := canonicalCh[0];
      var pool := RemoveCommittedTransactions(canonicalBlock, mempool, resolver, db);
      if pool.None? {
        return Crit;
      }
      mempool := pool.value;
      canonicalCh := canonicalCh[1..];
      rounds := rounds + multiset{canonicalBlock};
      status := Running(());
    }

    /** The function startMining schedules for `canonicalBlock`. */
    method FireRound(canonicalBlock: Block) returns (status: Outcome<()>)
      requires Valid() && canonicalBlock in rounds
      modifies this, db
      ensures Valid()
      ensures match Nodes.FireRound(old(View()), canonicalBlock)
              case Running(s) => status == Running(()) && View() == s
              case Crit => false
              case Panic => status == Panic
    {
      hide AllIncluded, RemoveExisting, NewBlock;
      ghost var s := View();
      var included := AllIncludedTransactions(canonicalBlock, resolver, db);
      if included.None? {
        return Panic;
      }
      var toInclude := RemoveExistingTxs(mempool, included.value);
      assert AllIncluded(s.store, s.cache, canonicalBlock) == Some((included.value, db.transactionsPerBlock));
      rounds := rounds - multiset{canonicalBlock};
      miningCh := miningCh + multiset{NewBlock(Some(canonicalBlock), id, toInclude)};
      status := Running(());
    }

    /** The mempoolCh case of startMining. */
    method AcceptTx(t: Tx)
      requires Valid()
      modifies this
      ensures Valid() && View() == Nodes.AcceptTx(old(View()), t)
    {
      mempool := mempool + [t];
    }
  }
}
