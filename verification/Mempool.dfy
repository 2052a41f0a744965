/**
 Which transactions a mining round includes: the memoised set of transactions already on a chain,
 the filter over the mempool, and the pruning of the mempool at the committed depth.
 */
module Mempool {
  import opened Wrappers
  import opened Blocks
  import opened Resolver

  type Cache = map<Hash, set<Tx>>

  /** common.HeightCommittedBlocks */
  const HEIGHT_COMMITTED: nat := 15

  /* ---- The memoised set of included transactions ---- */

  /** Every entry is the set of transactions of all ancestors of its block. */
  ghost predicate CacheSound(c: Cache) {
    forall h :: h in c ==> h.Digest? && c[h] == Included(h.block)
  }

  /** The result of allIncludedTransactions and the cache it leaves; None stands for its panic. */
  function AllIncluded(s: Store, c: Cache, b: Block): (r: Option<(set<Tx>, Cache)>)
    decreases b
  {
    if Digest(b) in c then Some((c[Digest(b)], c))
    else if b.number == 0 then Some((TxSet(b.txs), c))
    else
      match Fetch(s, b.parentHash)
      case None => None
      case Some(p) =>
        match AllIncluded(s, c, p)
        case None => None
        case Some((above, c')) =>
          var all := above + TxSet(b.txs);
          Some((all, c'[Digest(b) := all]))
  }

  /**
   Memoisation is transparent: from any sound cache the answer is the set of transactions of all
   ancestors, and the cache only gains sound entries, for ancestors of the block asked about.
   */
  lemma {:induction false} CacheIsTransparent(s: Store, c: Cache, b: Block)
    requires CacheSound(c) && WellBuilt(b)
    ensures Linked(s, GENESIS, b) ==> AllIncluded(s, c, b).Some?
    ensures AllIncluded(s, c, b).Some? ==>
              var (all, c') := AllIncluded(s, c, b).value;
              && all == Included(b)
              && CacheSound(c')
              && (forall h :: h in c ==> h in c' && c'[h] == c[h])
              && (forall h :: h in c' && h !in c ==> h.Digest? && Ancestor(h.block, b))
    decreases b
  {
    GenesisIsAncestor(b);
    if Digest(b) in c || b.number == 0 {
    } else {
      if Parent(b) in s {
        CacheIsTransparent(s, c, Parent(b));
        IncludedStep(b);
      }
    }
  }

  /** Lookups reach the genesis block or a block that is cached. */
  ghost predicate Answerable(s: Store, c: Cache, b: Block) {
    exists a :: Linked(s, a, b) && (a == GENESIS || Digest(a) in c)
  }

  /** The recursion panics exactly when a lookup fails before the genesis block or a cached block is reached. */
  lemma {:induction false} AnsweredIff(s: Store, c: Cache, b: Block)
    requires WellBuilt(b)
    ensures AllIncluded(s, c, b).Some? <==> Answerable(s, c, b)
    decreases b
  {
    GenesisIsAncestor(b);
    if Digest(b) in c || b == GENESIS {
      assert Linked(s, b, b);
    } else {
      AnsweredIff(s, c, Parent(b));
      if Parent(b) in s && Answerable(s, c, Parent(b)) {
        var a :| Linked(s, a, Parent(b)) && (a == GENESIS || Digest(a) in c);
        assert Linked(s, a, b);
      }
      if Answerable(s, c, b) {
        var a :| Linked(s, a, b) && (a == GENESIS || Digest(a) in c);
        assert Linked(s, a, Parent(b));
      }
    }
  }

  /** With a block, all its ancestors above the genesis block are cached. */
  ghost predicate CacheClosed(c: Cache) {
    forall h :: h in c && h.Digest? && HasParent(h.block) && Parent(h.block) != GENESIS ==> h.block.parentHash in c
  }

  lemma {:induction false} AncestorsAreCached(c: Cache, a: Block, b: Block)
    requires CacheClosed(c) && WellBuilt(b) && Ancestor(a, b) && a != GENESIS && Digest(b) in c
    ensures Digest(a) in c
    decreases b
  {
    if a == b {
    } else {
      AncestorIsLower(a, Parent(b));
      GenesisIsAncestor(a);
      AncestorsAreCached(c, a, Parent(b));
    }
  }

  /**
   Asking about a block fills the cache down to the genesis block: afterwards the block and each of its
   ancestors above the genesis block is answered without any lookup.
   */
  lemma {:induction false} AskedIsCached(s: Store, c: Cache, b: Block)
    requires WellBuilt(b) && CacheClosed(c) && AllIncluded(s, c, b).Some?
    ensures var c' := AllIncluded(s, c, b).value.1;
            && CacheClosed(c')
            && forall a :: Ancestor(a, b) && a != GENESIS ==>
                 Digest(a) in c' && AllIncluded({}, c', a) == Some((c'[Digest(a)], c'))
    decreases b
  {
    GenesisIsAncestor(b);
    var c' := AllIncluded(s, c, b).value.1;
    if b == GENESIS || Digest(b) in c {
    } else {
      AskedIsCached(s, c, Parent(b));
      assert Parent(b) != GENESIS ==> b.parentHash in c';
    }
    forall a | Ancestor(a, b) && a != GENESIS ensures Digest(a) in c' {
      if b == GENESIS {
        AncestorIsLower(a, b);
        GenesisIsAncestor(a);
      } else {
        AncestorsAreCached(c', a, b);
      }
    }
  }

  /** The cached answer is the answer computed with nothing cached. */
  lemma {:induction false} CachedEqualsUncached(s: Store, c: Cache, b: Block)
    requires WellBuilt(b) && Linked(s, GENESIS, b) && CacheSound(c)
    ensures AllIncluded(s, c, b).Some? && AllIncluded(s, map[], b).Some?
    ensures AllIncluded(s, c, b).value.0 == AllIncluded(s, map[], b).value.0 == Included(b)
  {
    CacheIsTransparent(s, c, b);
    CacheIsTransparent(s, map[], b);
  }

  /** integration/ethereummock/db.go, txDBInMem. */
  class TxDB {
    var transactionsPerBlock: Cache

    constructor ()
      ensures transactionsPerBlock == map[]
    {
      transactionsPerBlock := map[];
    }

    method Txs(b: Block) returns (val: set<Tx>, found: bool)
      ensures found <==> Digest(b) in transactionsPerBlock
      ensures val == if found then transactionsPerBlock[Digest(b)] else {}
    {
      found := Digest(b) in transactionsPerBlock;
      val := if found then transactionsPerBlock[Digest(b)] else {};
    }

    method AddTxs(b: Block, newMap: set<Tx>)
      modifies this
      ensures transactionsPerBlock == old(transactionsPerBlock)[Digest(b) := newMap]
    {
      transactionsPerBlock := transactionsPerBlock[Digest(b) := newMap];
    }
  }

  /** Adds the transactions to the map, one by one. */
  method AddAll(base: set<Tx>, txs: seq<Tx>) returns (m: set<Tx>)
    ensures m == base + TxSet(txs)
  {
    m := base;
    for i := 0 to |txs|
      invariant m == base + TxSet(txs[..i])
    {
      m := m + {txs[i]};
      assert txs[..i + 1] == txs[..i] + [txs[i]];
    }
    assert txs[..|txs|] == txs;
  }

  /** integration/ethereummock/utils.go, allIncludedTransactions; None stands for its panic. */
  method AllIncludedTransactions(b: Block, r: BlockResolver, db: TxDB) returns (res: Option<set<Tx>>)
    requires r.Valid()
    modifies db
    ensures match AllIncluded(r.Stored(), old(db.transactionsPerBlock), b)
            case None => res == None && db.transactionsPerBlock == old(db.transactionsPerBlock)
            case Some((all, c)) => res == Some(all) && db.transactionsPerBlock == c
    decreases b
  {
    var val, found := db.Txs(b);
    if found {
      return Some(val);
    }
    if b.number == 0 {
      var m := AddAll({}, b.txs);
      assert m == TxSet(b.txs);
      return Some(m);
    }
    var p := r.FetchBlock(b.parentHash);
    if p.None? {
      return None;
    }
    var above := AllIncludedTransactions(p.value, r, db);
    if above.None? {
      return None;
    }
    var newMap := AddAll(above.value, b.txs);
    db.AddTxs(b, newMap);
    res := Some(newMap);
  }

  /* ---- Filtering the mempool ---- */

  function RemoveExisting(base: seq<Tx>, toRemove: set<Tx>): seq<Tx> {
    if base == [] then []
    else if base[0] in toRemove then RemoveExisting(base[1..], toRemove)
    else [base[0]] + RemoveExisting(base[1..], toRemove)
  }

  /** integration/ethereummock/utils.go, removeExisting. */
  method RemoveExistingTxs(base: seq<Tx>, toRemove: set<Tx>) returns (r: seq<Tx>)
    ensures r == RemoveExisting(base, toRemove)
  {
    r := [];
    for i := 0 to |base|
      invariant r == RemoveExisting(base[..i], toRemove)
    {
      assert base[..i + 1] == base[..i] + [base[i]];
      RemoveConcat(base[..i], [base[i]], toRemove);
      if base[i] !in toRemove {
        r := r + [base[i]];
      }
    }
    assert base[..|base|] == base;
  }

  lemma {:induction false} RemoveConcat(p: seq<Tx>, q: seq<Tx>, x: set<Tx>)
    ensures RemoveExisting(p + q, x) == RemoveExisting(p, x) + RemoveExisting(q, x)
    decreases |p|
  {
    if p == [] {
      assert p + q == q;
    } else {
      assert (p + q)[1..] == p[1..] + q;
      RemoveConcat(p[1..], q, x);
    }
  }

  /** Exactly the members outside the set stay, with the number of times they occur. */
  lemma {:induction false} RemoveKeeps(p: seq<Tx>, x: set<Tx>, t: Tx)
    ensures multiset(RemoveExisting(p, x))[t] == if t in x then 0 else multiset(p)[t]
    ensures t in RemoveExisting(p, x) <==> t in p && t !in x
    decreases |p|
  {
    if p == [] {
    } else {
      assert p == [p[0]] + p[1..];
      RemoveKeeps(p[1..], x, t);
    }
  }

  lemma {:induction false} RemoveTwice(p: seq<Tx>, x: set<Tx>, y: set<Tx>)
    ensures RemoveExisting(RemoveExisting(p, x), y) == RemoveExisting(p, x + y)
    decreases |p|
  {
    if p == [] {
    } else {
      RemoveTwice(p[1..], x, y);
    }
  }

  lemma {:induction false} RemoveSameMembers(p: seq<Tx>, x: set<Tx>, y: set<Tx>)
    requires forall t :: t in p ==> (t in x <==> t in y)
    ensures RemoveExisting(p, x) == RemoveExisting(p, y)
    decreases |p|
  {
    if p == [] {
    } else {
      RemoveSameMembers(p[1..], x, y);
    }
  }

  /* ---- No transaction twice on a chain ---- */

  ghost predicate NoDups<T>(s: seq<T>) {
    forall i, j :: 0 <= i < j < |s| ==> s[i] != s[j]
  }

  lemma {:induction false} NoDupsIffOnce<T>(s: seq<T>)
    ensures NoDups(s) <==> forall x :: multiset(s)[x] <= 1
    decreases |s|
  {
    if s == [] {
    } else {
      var rest := s[1..];
      assert s == [s[0]] + rest;
      assert multiset(s) == multiset{s[0]} + multiset(rest);
      NoDupsIffOnce(rest);
      if NoDups(s) {
        assert forall i :: 0 <= i < |rest| ==> rest[i] == s[i + 1];
        assert s[0] !in rest;
      }
      if forall x :: multiset(s)[x] <= 1 {
        assert forall x :: multiset(rest)[x] <= multiset(s)[x] <= 1;
        assert multiset(s)[s[0]] == 1 + multiset(rest)[s[0]];
        assert s[0] !in multiset(rest);
        assert forall i :: 0 < i < |s| ==> s[i] == rest[i - 1];
      }
    }
  }

  /**
   The block a round builds on `c` from the mempool `pool` leaves its chain free of duplicates
   exactly when `c`'s chain is and the transactions it adds are.
   */
  lemma {:induction false} RoundAddsNoDupsIff(c: Block, pool: seq<Tx>, miner: NodeId)
    ensures var txs := RemoveExisting(pool, Included(c));
            NoDups(ChainTxs(NewBlock(Some(c), miner, txs))) <==> NoDups(ChainTxs(c)) && NoDups(txs)
  {
    var before, txs := ChainTxs(c), RemoveExisting(pool, Included(c));
    forall t | t in txs ensures t !in before {
      RemoveKeeps(pool, Included(c), t);
    }
    NoDupsConcat(before, txs);
  }

  lemma {:induction false} NoDupsConcat<T>(p: seq<T>, q: seq<T>)
    requires forall t :: t in q ==> t !in p
    ensures NoDups(p + q) <==> NoDups(p) && NoDups(q)
  {
    NoDupsIffOnce(p);
    NoDupsIffOnce(q);
    NoDupsIffOnce(p + q);
    forall x ensures multiset(p + q)[x] == multiset(p)[x] + multiset(q)[x] {
    }
    forall x ensures multiset(p)[x] == 0 || multiset(q)[x] == 0 {
      assert x in multiset(p) <==> x in p;
      assert x in multiset(q) <==> x in q;
    }
  }

  function HashDups<T(==)>(list: seq<T>): map<T, nat> {
    map x | x in list && multiset(list)[x] > 1 :: multiset(list)[x]
  }

  lemma {:induction false} HashDupsEmptyIff<T>(list: seq<T>)
    ensures HashDups(list) == map[] <==> NoDups(list)
  {
    NoDupsIffOnce(list);
    if HashDups(list) == map[] {
      forall x ensures multiset(list)[x] <= 1 {
        assert x !in HashDups(list);
      }
    }
  }

  /** integration/simulation/utils.go, findHashDups. */
  method FindHashDups<T(==)>(list: seq<T>) returns (dups: map<T, nat>)
    ensures dups == HashDups(list)
    ensures forall x :: x in dups <==> multiset(list)[x] > 1
    ensures forall x :: x in dups ==> dups[x] == multiset(list)[x]
  {
    var elementCount: map<T, nat> := map[];
    for i := 0 to |list|
      invariant forall x :: x in elementCount <==> x in list[..i]
      invariant forall x :: x in elementCount ==> elementCount[x] == multiset(list[..i])[x]
    {
      var item := list[i];
      assert list[..i + 1] == list[..i] + [item];
      if item in elementCount {
        elementCount := elementCount[item := elementCount[item] + 1];
      } else {
        elementCount := elementCount[item := 1];
      }
    }
    assert list[..|list|] == list;
    dups := map[];
    var keys := elementCount.Keys;
    while keys != {}
      invariant keys <= elementCount.Keys
      invariant forall x :: x in dups <==> x in elementCount && x !in keys && elementCount[x] > 1
      invariant forall x :: x in dups ==> dups[x] == elementCount[x]
      decreases keys
    {
      var u :| u in keys;
      if elementCount[u] > 1 {
        dups := dups[u := elementCount[u]];
      }
      keys := keys - {u};
    }
  }

  /* ---- Pruning at the committed depth ---- */

  /** The block `k` parents below `b`, looked up in the store. */
  function Below(s: Store, b: Block, k: nat): (r: Option<Block>)
    decreases k
  {
    if k == 0 then Some(b)
    else
      match Fetch(s, b.parentHash)
      case None => None
      case Some(p) => Below(s, p, k - 1)
  }

  /** The walk that finds the pruning point ends at an ancestor, in any store. */
  lemma {:induction false} BelowIsAncestor(s: Store, b: Block, k: nat)
    requires WellBuilt(b) && Below(s, b, k).Some?
    ensures Ancestor(Below(s, b, k).value, b) && b.number == Below(s, b, k).value.number + k
    decreases k
  {
    if k == 0 {
    } else {
      BelowIsAncestor(s, Parent(b), k - 1);
    }
  }

  lemma {:induction false} BelowIsFound(s: Store, b: Block, k: nat)
    requires WellBuilt(b) && Linked(s, GENESIS, b) && k <= b.number
    ensures Below(s, b, k).Some?
    decreases k
  {
    if k == 0 {
    } else {
      BelowIsFound(s, Parent(b), k - 1);
    }
  }

  /** Where the chain of a block is stored, the walk never runs off it and ends at the ancestor `k` lower. */
  lemma {:induction false} BelowIsOnChain(s: Store, b: Block, k: nat)
    requires WellBuilt(b) && Linked(s, GENESIS, b) && k <= b.number
    ensures |Chain(b)| == b.number + 1 && Below(s, b, k) == Some(Chain(b)[b.number - k])
    ensures Ancestor(Chain(b)[b.number - k], b) && Chain(b)[b.number - k].number == b.number - k
  {
    BelowIsFound(s, b, k);
    BelowIsAncestor(s, b, k);
    ChainShape(b);
    ChainAt(Below(s, b, k).value, b);
  }

  /** In any store the walk succeeds exactly when it reaches the ancestor `k` lower. */
  lemma {:induction false} BelowIff(s: Store, b: Block, k: nat)
    requires WellBuilt(b) && k <= b.number
    ensures |Chain(b)| == b.number + 1
    ensures Below(s, b, k) == if Linked(s, Chain(b)[b.number - k], b) then Some(Chain(b)[b.number - k]) else None
    decreases k
  {
    ChainShape(b);
    if k == 0 {
    } else {
      var p := Parent(b);
      BelowIff(s, p, k - 1);
      assert Chain(p)[p.number - (k - 1)] == Chain(b)[b.number - k];
      assert Chain(b)[b.number - k] != b;
    }
  }

  /** The block whose cached transactions are removed from the mempool, if any. */
  function PruningPoint(s: Store, c: Cache, cb: Block): Option<Block> {
    if cb.number <= HEIGHT_COMMITTED then None
    else
      match Below(s, cb, HEIGHT_COMMITTED)
      case None => None
      case Some(a) => if Digest(a) in c then Some(a) else None
  }

  /** The mempool after removeCommittedTransactions; None stands for the process ending. */
  function RemoveCommitted(s: Store, c: Cache, cb: Block, pool: seq<Tx>): (r: Option<seq<Tx>>) {
    if cb.number > HEIGHT_COMMITTED && Below(s, cb, HEIGHT_COMMITTED).None? then None
    else
      match PruningPoint(s, c, cb)
      case None => Some(pool)
      case Some(a) => Some(RemoveExisting(pool, c[Digest(a)]))
  }

  /** integration/ethereummock/db.go, removeCommittedTransactions; None stands for the process ending. */
  method RemoveCommittedTransactions(cb: Block, mempool: seq<Tx>, r: BlockResolver, db: TxDB)
    returns (res: Option<seq<Tx>>)
    requires r.Valid()
    ensures res == RemoveCommitted(r.Stored(), db.transactionsPerBlock, cb, mempool)
  {
    if cb.number <= HEIGHT_COMMITTED {
      return Some(mempool);
    }
    var b := cb;
    var i := 0;
    while i != HEIGHT_COMMITTED
      invariant 0 <= i <= HEIGHT_COMMITTED
      invariant Below(r.Stored(), cb, HEIGHT_COMMITTED) == Below(r.Stored(), b, HEIGHT_COMMITTED - i)
      decreases HEIGHT_COMMITTED - i
    {
      var p := r.FetchBlock(b.parentHash);
      if p.None? {
        return None;
      }
      b := p.value;
      i := i + 1;
    }
    var val, found := db.Txs(b);
    var kept := RemoveExistingTxs(mempool, val);
    if !found {
      RemoveNothing(mempool);
    }
    res := Some(kept);
  }

  lemma {:induction false} RemoveNothing(p: seq<Tx>)
    ensures RemoveExisting(p, {}) == p
    decreases |p|
  {
    if p == [] {
    } else {
      RemoveNothing(p[1..]);
    }
  }

  /** The ancestor of `cb` at the committed depth. */
  function CommittedBlock(cb: Block): (a: Block)
    requires WellBuilt(cb) && cb.number > HEIGHT_COMMITTED
  {
    ChainShape(cb);
    Chain(cb)[cb.number - HEIGHT_COMMITTED]
  }

  /**
   What pruning removes, exactly and for any store: nothing up to height 15; above it the process ends if the block
   at the committed depth is not reached; if that block is cached, every mempool transaction on its chain goes; and
   nothing does if it is not cached.
   */
  lemma {:induction false} RemovedIff(s: Store, c: Cache, cb: Block, pool: seq<Tx>)
    requires WellBuilt(cb) && CacheSound(c)
    ensures RemoveCommitted(s, c, cb, pool).None? <==>
              cb.number > HEIGHT_COMMITTED && !Linked(s, CommittedBlock(cb), cb)
    ensures RemoveCommitted(s, c, cb, pool).Some? ==>
              forall t :: t in pool ==>
                (t !in RemoveCommitted(s, c, cb, pool).value <==>
                   && cb.number > HEIGHT_COMMITTED
                   && Digest(CommittedBlock(cb)) in c
                   && t in Included(CommittedBlock(cb)))
  {
    if cb.number > HEIGHT_COMMITTED {
      BelowIff(s, cb, HEIGHT_COMMITTED);
      forall t {
        RemoveKeeps(pool, Included(CommittedBlock(cb)), t);
      }
    }
  }

  /** The documented effect: exactly the transactions of the block at the committed depth are removed. */
  ghost predicate PrunesAsDocumented(s: Store, c: Cache, cb: Block, pool: seq<Tx>)
    requires WellBuilt(cb) && cb.number > HEIGHT_COMMITTED && RemoveCommitted(s, c, cb, pool).Some?
  {
    forall t :: t in pool ==> (t !in RemoveCommitted(s, c, cb, pool).value <==> t in CommittedBlock(cb).txs)
  }

  /**
   The code does what is documented exactly when the mempool holds no transaction from further down, if
   the block at the committed depth is cached, and none of that block's, if it is not.
   */
  lemma {:induction false} PrunesAsDocumentedIff(s: Store, c: Cache, cb: Block, pool: seq<Tx>)
    requires WellBuilt(cb) && CacheSound(c) && cb.number > HEIGHT_COMMITTED && Linked(s, CommittedBlock(cb), cb)
    ensures RemoveCommitted(s, c, cb, pool).Some?
    ensures var a := CommittedBlock(cb);
            PrunesAsDocumented(s, c, cb, pool) <==>
              if Digest(a) in c then forall t :: t in pool && t in Included(a) ==> t in a.txs
              else forall t :: t in pool ==> t !in a.txs
  {
    var a := CommittedBlock(cb);
    RemovedIff(s, c, cb, pool);
    forall t | t in a.txs ensures t in Included(a) {
      IncludedIff(a, t);
      assert Ancestor(a, a);
    }
  }

  /** A chain of `n` blocks whose first carries `t` and whose others are empty. */
  function Tower(t: Tx, n: nat): (b: Block)
    ensures WellBuilt(b) && b.number == n
    ensures t in Included(b) <==> n > 0
  {
    if n == 0 then GENESIS
    else
      var b := NewBlock(Some(Tower(t, n - 1)), 0, if n == 1 then [t] else []);
      assert Included(b) == Included(Tower(t, n - 1)) + TxSet(b.txs);
      b
  }

  lemma {:induction false} TowerIsLinked(t: Tx, k: nat, n: nat)
    requires k <= n
    ensures Linked(TowerStore(t, n), Tower(t, k), Tower(t, n))
    decreases n - k
  {
    if k == n {
    } else {
      TowerIsLinked(t, k + 1, n);
      assert Tower(t, k) in TowerStore(t, n);
      LinkedTrans(TowerStore(t, n), Tower(t, k), Tower(t, k + 1), Tower(t, n));
    }
  }

  function TowerStore(t: Tx, n: nat): Store {
    set k | 0 <= k <= n :: Tower(t, k)
  }

  lemma {:induction false} TowerDepth(t: Tx, k: nat, n: nat)
    requires k <= n
    ensures Ancestor(Tower(t, k), Tower(t, n)) && |Chain(Tower(t, n))| == n + 1
    ensures Chain(Tower(t, n))[k] == Tower(t, k)
  {
    TowerIsLinked(t, k, n);
    LinkedIsAncestor(TowerStore(t, n), Tower(t, k), Tower(t, n));
    ChainAt(Tower(t, k), Tower(t, n));
    ChainShape(Tower(t, n));
  }

  /** Against the documentation: a transaction more than 15 deep is removed once the block 15 deep was asked about. */
  lemma {:induction false} DeeperIsRemoved(t: Tx, n: nat) returns (s: Store, c: Cache, cb: Block)
    requires n > HEIGHT_COMMITTED + 1
    ensures cb == Tower(t, n) && Linked(s, GENESIS, cb)
    ensures AllIncluded(s, map[], CommittedBlock(cb)).Some? && c == AllIncluded(s, map[], CommittedBlock(cb)).value.1
    ensures t !in CommittedBlock(cb).txs && RemoveCommitted(s, c, cb, [t]) == Some([])
  {
    cb, s := Tower(t, n), TowerStore(t, n);
    var a := Tower(t, n - HEIGHT_COMMITTED);
    TowerIsLinked(t, 0, n);
    TowerDepth(t, n - HEIGHT_COMMITTED, n);
    assert t !in a.txs;
    hide Tower, Linked, AllIncluded, Included;
    c := RemovedOnceAsked(s, cb, a, t);
  }

  /** Asking about the block at the committed depth makes the transactions on its chain removable. */
  lemma {:induction false} RemovedOnceAsked(s: Store, cb: Block, a: Block, t: Tx) returns (c: Cache)
    requires WellBuilt(cb) && Linked(s, GENESIS, cb) && cb.number > HEIGHT_COMMITTED
    requires a == CommittedBlock(cb) && t in Included(a)
    ensures AllIncluded(s, map[], a).Some? && c == AllIncluded(s, map[], a).value.1
    ensures RemoveCommitted(s, c, cb, [t]) == Some([])
  {
    hide AllIncluded, Included;
    BelowIsOnChain(s, cb, HEIGHT_COMMITTED);
    AncestorIsLower(a, cb);
    GenesisIsAncestor(a);
    LinkedBetween(s, GENESIS, a, cb);
    CacheIsTransparent(s, map[], a);
    c := AllIncluded(s, map[], a).value.1;
    AskedIsCached(s, map[], a);
    assert Ancestor(a, a);
    RemovedIfCached(s, c, cb, t);
  }

  lemma {:induction false} RemovedIfCached(s: Store, c: Cache, cb: Block, t: Tx)
    requires WellBuilt(cb) && Linked(s, GENESIS, cb) && CacheSound(c) && cb.number > HEIGHT_COMMITTED
    requires Digest(CommittedBlock(cb)) in c && t in Included(CommittedBlock(cb))
    ensures RemoveCommitted(s, c, cb, [t]) == Some([])
  {
    BelowIsOnChain(s, cb, HEIGHT_COMMITTED);
    var r := RemoveExisting([t], Included(CommittedBlock(cb)));
    assert r == [] || r[0] in r;
    forall x ensures x !in r {
      RemoveKeeps([t], Included(CommittedBlock(cb)), x);
    }
  }

  /** Against the documentation: a transaction 15 deep stays when its block was never asked about. */
  lemma {:induction false} UncachedIsKept(t: Tx) returns (s: Store, c: Cache, cb: Block)
    ensures WellBuilt(cb) && Linked(s, GENESIS, cb) && CacheSound(c) && cb.number > HEIGHT_COMMITTED
    ensures t in CommittedBlock(cb).txs && RemoveCommitted(s, c, cb, [t]) == Some([t])
  {
    cb := Tower(t, 16);
    s, c := TowerStore(t, 16), map[];
    TowerIsLinked(t, 0, 16);
    TowerDepth(t, 1, 16);
    BelowIsOnChain(s, cb, HEIGHT_COMMITTED);
  }

  /**
   Pruning at `a` changes nothing for a round on `c` exactly when every mempool transaction
   included by `a` is included by `c`; so it never does while `a` is an ancestor of `c`.
   */
  lemma {:induction false} PruningIsInvisibleIff(pool: seq<Tx>, a: Block, c: Block)
    ensures RemoveExisting(RemoveExisting(pool, Included(a)), Included(c)) == RemoveExisting(pool, Included(c))
       <==> forall t :: t in pool && t in Included(a) ==> t in Included(c)
    ensures Ancestor(a, c) ==>
              RemoveExisting(RemoveExisting(pool, Included(a)), Included(c)) == RemoveExisting(pool, Included(c))
  {
    var x, y := Included(a), Included(c);
    RemoveTwice(pool, x, y);
    if forall t :: t in pool && t in x ==> t in y {
      RemoveSameMembers(pool, x + y, y);
    } else {
      var t :| t in pool && t in x && t !in y;
      RemoveKeeps(pool, x + y, t);
      RemoveKeeps(pool, y, t);
    }
    if Ancestor(a, c) {
      IncludedGrows(a, c);
      RemoveSameMembers(pool, x + y, y);
    }
  }
}
