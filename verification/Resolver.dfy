/**
 The block store of a node, the ancestor tests over it, and the real L1 client's version of the
 hash-based test.

 Blocks are stored under their own hash, so the contents of a store are a set of blocks and a
 lookup by hash finds the block the hash was computed from.
 */
module Resolver {
  import opened Wrappers
  import opened Blocks

  type Store = set<Block>

  function Fetch(s: Store, h: Hash): (r: Option<Block>)
    ensures r.Some? ==> r.value in s && Digest(r.value) == h
    ensures r.None? ==> forall b :: b in s ==> Digest(b) != h
  {
    if h.Digest? && h.block in s then Some(h.block) else None
  }

  /** Every stored block stems from the genesis block and has its parent stored. */
  ghost predicate Closed(s: Store) {
    GENESIS in s && forall b :: b in s ==> WellBuilt(b) && (HasParent(b) ==> Parent(b) in s)
  }

  /** `a` is reached from `b` by looking up parents in the store; `b` itself need not be stored. */
  predicate Linked(s: Store, a: Block, b: Block) {
    a == b || (HasParent(b) && Parent(b) in s && Linked(s, a, Parent(b)))
  }

  /** integration/ethereummock/db.go, IsAncestor. */
  predicate IsAncestor(s: Store, block: Block, maybeAncestor: Block)
    decreases block
  {
    if maybeAncestor == block then true
    else if maybeAncestor.number >= block.number then false
    else
      match Fetch(s, block.parentHash)
      case None => false
      case Some(p) => IsAncestor(s, p, maybeAncestor)
  }

  /** integration/ethereummock/db.go, IsBlockAncestor. */
  predicate IsBlockAncestor(s: Store, block: Block, maybeAncestor: Hash)
    decreases block
  {
    if maybeAncestor == Digest(block) then true
    else if maybeAncestor == Digest(GENESIS) then true
    else if block.number == 0 then false
    else
      var resolved := Fetch(s, maybeAncestor);
      if resolved.Some? && resolved.value.number >= block.number then false
      else
        match Fetch(s, block.parentHash)
        case None => false
        case Some(p) => IsBlockAncestor(s, p, maybeAncestor)
  }

  datatype Answer = Answered(yes: bool) | Exited

  /**
   go/ethadapter/geth_rpc_client.go, IsBlockAncestor, for a client whose node holds the blocks `s`.
   The height comparison there is guarded by a nil test that the preceding lookup rules out, so it
   never runs; a failed lookup ends the process.
   */
  function ClientIsBlockAncestor(s: Store, block: Block, maybeAncestor: Hash): (r: Answer)
    decreases block
  {
    if maybeAncestor == Digest(block) || maybeAncestor == Zero then Answered(true)
    else if block.number == 0 then Answered(false)
    else if Fetch(s, maybeAncestor).None? then Exited
    else
      match Fetch(s, block.parentHash)
      case None => Exited
      case Some(p) => ClientIsBlockAncestor(s, p, maybeAncestor)
  }

  lemma {:induction false} LinkedIsAncestor(s: Store, a: Block, b: Block)
    requires Linked(s, a, b)
    ensures Ancestor(a, b)
    ensures a == b || a in s
    decreases b
  {
    if a == b {
    } else {
      LinkedIsAncestor(s, a, Parent(b));
    }
  }

  /** In a closed store reachability by lookups is ancestry. */
  lemma {:induction false} LinkedInClosed(s: Store, a: Block, b: Block)
    requires Closed(s) && (b in s || (HasParent(b) && Parent(b) in s))
    ensures Linked(s, a, b) <==> Ancestor(a, b)
    ensures Ancestor(a, b) && a != b ==> a in s
    decreases b
  {
    if a == b || !HasParent(b) {
    } else {
      LinkedInClosed(s, a, Parent(b));
    }
  }

  lemma {:induction false} LinkedGrows(s: Store, s': Store, a: Block, b: Block)
    requires s <= s' && Linked(s, a, b)
    ensures Linked(s', a, b)
    decreases b
  {
    if a == b {
    } else {
      LinkedGrows(s, s', a, Parent(b));
    }
  }

  lemma {:induction false} LinkedTrans(s: Store, a: Block, m: Block, b: Block)
    requires Linked(s, a, m) && Linked(s, m, b)
    ensures Linked(s, a, b)
    decreases b
  {
    if m == b {
    } else {
      LinkedTrans(s, a, m, Parent(b));
    }
  }

  /** If `a` is reached from `b`, so is every ancestor of `b` above `a`. */
  lemma {:induction false} LinkedBetween(s: Store, a: Block, m: Block, b: Block)
    requires WellBuilt(b) && Linked(s, a, b) && Ancestor(a, m) && Ancestor(m, b)
    ensures Linked(s, m, b) && Linked(s, a, m)
    decreases b
  {
    if m == b {
    } else {
      AncestorIsLower(m, Parent(b));
      AncestorIsLower(a, m);
      LinkedBetween(s, a, m, Parent(b));
    }
  }

  /** The height cut-off never changes the answer, whatever is stored. */
  lemma {:induction false} IsAncestorIsExact(s: Store, block: Block, a: Block)
    requires WellBuilt(block)
    ensures IsAncestor(s, block, a) <==> Linked(s, a, block)
    decreases block
  {
    if a == block {
    } else {
      if HasParent(block) && Parent(block) in s {
        IsAncestorIsExact(s, Parent(block), a);
      }
      if Linked(s, a, block) {
        LinkedIsAncestor(s, a, block);
        AncestorIsLower(a, block);
      }
    }
  }

  /** Neither the height cut-off nor the genesis shortcut changes the answer, whatever is stored. */
  lemma {:induction false} IsBlockAncestorIsExact(s: Store, block: Block, h: Hash)
    requires WellBuilt(block)
    ensures IsBlockAncestor(s, block, h)
       <==> h == Digest(GENESIS) || (h.Digest? && Linked(s, h.block, block))
    decreases block
  {
    if h == Digest(block) || h == Digest(GENESIS) {
    } else {
      GenesisIsAncestor(block);
      if HasParent(block) && Parent(block) in s {
        IsBlockAncestorIsExact(s, Parent(block), h);
      }
      if h.Digest? && Linked(s, h.block, block) {
        LinkedIsAncestor(s, h.block, block);
        AncestorIsLower(h.block, block);
      }
    }
  }

  /** On a closed store both tests decide ancestry. */
  lemma {:induction false} AncestorTestsDecideAncestry(s: Store, b: Block, a: Block)
    requires Closed(s) && b in s
    ensures IsAncestor(s, b, a) <==> Ancestor(a, b)
    ensures IsBlockAncestor(s, b, Digest(a)) <==> Ancestor(a, b)
  {
    IsAncestorIsExact(s, b, a);
    IsBlockAncestorIsExact(s, b, Digest(a));
    LinkedInClosed(s, a, b);
    GenesisIsAncestor(b);
  }

  /**
   The real client's test on any store: yes for the block's own hash and the zero hash; else no at the genesis
   block; else it exits for a hash it does not know, answers yes for a block reached by lookups, and otherwise no
   if the lookups reach the genesis block and an exit if they do not.
   */
  lemma {:induction false} ClientAnswers(s: Store, b: Block, h: Hash)
    requires WellBuilt(b)
    ensures ClientIsBlockAncestor(s, b, h) ==
            if h == Digest(b) || h == Zero then Answered(true)
            else if b == GENESIS then Answered(false)
            else if h.block !in s then Exited
            else if Linked(s, h.block, b) then Answered(true)
            else if Linked(s, GENESIS, b) then Answered(false)
            else Exited
    decreases b
  {
    GenesisIsAncestor(b);
    if h == Digest(b) || h == Zero || b == GENESIS {
    } else {
      ClientAnswers(s, Parent(b), h);
    }
  }

  lemma {:induction false} ClientAnswersForStored(s: Store, b: Block, a: Block)
    requires Closed(s) && b in s && a in s
    ensures ClientIsBlockAncestor(s, b, Digest(a)) == Answered(Ancestor(a, b))
  {
    ClientAnswers(s, b, Digest(a));
    LinkedInClosed(s, a, b);
    GenesisIsAncestor(b);
    LinkedInClosed(s, GENESIS, b);
  }

  /**
   The two clients on one closed tree: they agree on every stored hash; on the zero hash the real
   client answers yes and the mock no; on any other hash the mock answers no and the real client
   ends the process, except at the genesis block where it answers no.
   */
  lemma {:induction false} ClientsCompared(s: Store, b: Block, h: Hash)
    requires Closed(s) && b in s
    ensures Fetch(s, h).Some? ==>
              ClientIsBlockAncestor(s, b, h) == Answered(IsBlockAncestor(s, b, h))
    ensures h == Zero ==>
              ClientIsBlockAncestor(s, b, h) == Answered(true) && !IsBlockAncestor(s, b, h)
    ensures h != Zero && Fetch(s, h).None? ==>
              && ClientIsBlockAncestor(s, b, h) == (if b == GENESIS then Answered(false) else Exited)
              && !IsBlockAncestor(s, b, h)
  {
    IsBlockAncestorIsExact(s, b, h);
    GenesisIsAncestor(b);
    if h.Digest? {
      LinkedInClosed(s, h.block, b);
      if h.block in s {
        ClientAnswersForStored(s, b, h.block);
      }
    }
  }

  lemma {:induction false} ClosedUnderStore(s: Store, b: Block)
    requires Closed(s) && WellBuilt(b) && (HasParent(b) ==> Parent(b) in s)
    ensures Closed(s + {b})
  {
  }

  /** integration/ethereummock/db.go, blockResolverInMem. */
  class BlockResolver {
    var blockCache: map<Hash, Block>

    ghost predicate Valid()
      reads this
    {
      forall h :: h in blockCache ==> Digest(blockCache[h]) == h
    }

    function Stored(): (s: Store)
      reads this
    {
      blockCache.Values
    }

    constructor ()
      ensures Valid() && Stored() == {}
    {
      blockCache := map[];
    }

    method StoreBlock(b: Block)
      requires Valid()
      modifies this
      ensures Valid() && Stored() == old(Stored()) + {b}
    {
      ghost var before := blockCache;
      blockCache := blockCache[Digest(b) := b];
      assert Digest(b) in blockCache;
      forall x | x in before.Values ensures x in blockCache.Values {
        var h :| h in before && before[h] == x;
        assert h in blockCache && blockCache[h] == x;
      }
    }

    method FetchBlock(h: Hash) returns (r: Option<Block>)
      requires Valid()
      ensures r == Fetch(Stored(), h)
    {
      if h in blockCache {
        assert blockCache[h] in blockCache.Values;
        r := Some(blockCache[h]);
      } else {
        r := None;
      }
    }

    /** IsAncestor, looking parents up in the cache. */
    method HasAncestor(block: Block, maybeAncestor: Block) returns (yes: bool)
      requires Valid()
      ensures yes == IsAncestor(Stored(), block, maybeAncestor)
      ensures WellBuilt(block) ==> (yes <==> Linked(Stored(), maybeAncestor, block))
      decreases block
    {
      if WellBuilt(block) {
        IsAncestorIsExact(Stored(), block, maybeAncestor);
      }
      if maybeAncestor == block {
        return true;
      }
      if maybeAncestor.number >= block.number {
        return false;
      }
      var p := FetchBlock(block.parentHash);
      if p.None? {
        return false;
      }
      yes := HasAncestor(p.value, maybeAncestor);
    }

    /** Ties between blocks of the greatest height are broken by the iteration order of the map. */
    method FetchHeadBlock() returns (r: Option<Block>)
      requires Valid()
      ensures r.None? <==> Stored() == {}
      ensures r.Some? ==> r.value in Stored() && forall b :: b in Stored() ==> b.number <= r.value.number
    {
      var max: Option<Block> := None;
      var keys := blockCache.Keys;
      while keys != {}
        invariant keys <= blockCache.Keys
        invariant max.None? ==> keys == blockCache.Keys
        invariant max.Some? ==> max.value in blockCache.Values
        invariant max.Some? ==> forall h :: h in blockCache && h !in keys ==> blockCache[h].number <= max.value.number
        decreases keys
      {
        var k :| k in keys;
        var bh := blockCache[k];
        if max.None? || max.value.number < bh.number {
          max := Some(bh);
        }
        keys := keys - {k};
      }
      r := max;
      if r.Some? {
        forall b | b in Stored() ensures b.number <= r.value.number {
          var h :| h in blockCache && blockCache[h] == b;
        }
      } else {
        assert blockCache == map[];
      }
    }
  }
}
