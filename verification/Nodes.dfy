/**
 A mock L1 node: the main loop that processes blocks under the longest-chain rule, and the miner
 that prunes the mempool and schedules a round for every canonical block.

 The behaviour is given by functions over node states; the class `Node` carries it out in place.
 */
module Nodes {
  import opened Wrappers
  import opened Blocks
  import opened Resolver
  import opened Walks
  import opened Mempool

  datatype NodeState = NodeState(
    id: NodeId,
    store: Store,
    head: Block,                // `head` in Start
    cache: Cache,
    mempool: seq<Tx>,           // `mempool` in startMining
    canonical: seq<Block>,      // sent on canonicalCh, not yet taken by the miner
    headers: seq<Block>,        // published to a subscription opened before Start
    rounds: multiset<Block>,    // scheduled mining rounds that have not fired
    mined: multiset<Block>)     // sent on miningCh, not yet taken by the main loop

  datatype Announcement = Announcement(parent: Block, block: Block)

  /** The state once Start has stored the genesis block and made it the head. */
  function Started(id: NodeId): NodeState {
    NodeState(id, {GENESIS}, GENESIS, map[], [], [GENESIS], [GENESIS], multiset{}, multiset{})
  }

  function SetHead(s: NodeState, b: Block): NodeState {
    s.(head := b, headers := s.headers + [b], canonical := s.canonical + [b])
  }

  function SetFork(s: NodeState, blocks: seq<Block>): NodeState
    requires |blocks| > 0
  {
    var head := blocks[|blocks| - 1];
    s.(head := head, headers := s.headers + blocks, canonical := s.canonical + [head])
  }

  function ProcessBlock(s: NodeState, b: Block): (r: Outcome<NodeState>) {
    var s1 := s.(store := s.store + {b});
    if Fetch(s1.store, b.parentHash).None? then Running(s1)
    else if b.number <= s.head.number then Running(s1)
    else if !IsAncestor(s1.store, b, s.head) then
      match LCA(s1.store, s.head, b)
      case None => Panic
      case Some(fork) =>
        match PathBetween(s1.store, fork.commonAncestor, b)
        case None => Panic
        case Some(blocks) => Running(SetFork(s1, blocks))
    else if b.number > s.head.number + 1 then Crit
    else Running(SetHead(s1, b))
  }

  /** A block taken from p2pCh. */
  function ReceiveBlock(s: NodeState, b: Block): Outcome<NodeState> {
    if Fetch(s.store, Digest(b)).Some? then Running(s) else ProcessBlock(s, b)
  }

  /** A block taken from miningCh, and what is broadcast when it became the head. */
  function AdoptMined(s: NodeState, b: Block): Outcome<(NodeState, Option<Announcement>)> {
    match ProcessBlock(s.(mined := s.mined - multiset{b}), b)
    case Crit => Crit
    case Panic => Panic
    case Running(s') =>
      if s'.head != b then Running((s', None))
      else
        match Fetch(s'.store, b.parentHash)
        case None => Panic
        case Some(p) => Running((s', Some(Announcement(p, b))))
  }

  /** The miner takes the next canonical block: prunes the mempool and schedules a round. */
  function TakeCanonical(s: NodeState): Outcome<NodeState>
    requires |s.canonical| > 0
  {
    var cb := s.canonical[0];
    match RemoveCommitted(s.store, s.cache, cb, s.mempool)
    case None => Crit
    case Some(pool) =>
      Running(s.(mempool := pool, canonical := s.canonical[1..], rounds := s.rounds + multiset{cb}))
  }

  /** A scheduled round on `c` fires: it reads the mempool of that moment and offers a block. */
  function FireRound(s: NodeState, c: Block): Outcome<NodeState> {
    match AllIncluded(s.store, s.cache, c)
    case None => Panic
    case Some((included, cache)) =>
      var b := NewBlock(Some(c), s.id, RemoveExisting(s.mempool, included));
      Running(s.(cache := cache, rounds := s.rounds - multiset{c}, mined := s.mined + multiset{b}))
  }

  function AcceptTx(s: NodeState, t: Tx): NodeState {
    s.(mempool := s.mempool + [t])
  }

  /* ---- What processing a block does, whatever has been stored ---- */

  /** The block changes nothing but the store. */
  predicate Ignored(s: NodeState, b: Block) {
    Fetch(s.store + {b}, b.parentHash).None? || b.number <= s.head.number
  }

  /**
   The outcome of processBlock for every store that holds the head's own chain, as every node's does in
   every run (`Grounded`).  A block that is not ignored makes the node panic exactly when its chain down to
   the head's chain is not stored, ends the process exactly when it is stored and skips a height above the
   head, and becomes the head otherwise, announcing the path from the latest common ancestor.
   */
  lemma {:induction false} ProcessOutcome(s: NodeState, b: Block)
    requires WellBuilt(b) && WellBuilt(s.head) && Linked(s.store, GENESIS, s.head)
    ensures Ignored(s, b) ==> ProcessBlock(s, b) == Running(s.(store := s.store + {b}))
    ensures !Ignored(s, b) ==>
              var m := Meet(s.head, b);
              var reached := Linked(s.store + {b}, m, b);
              && (ProcessBlock(s, b).Panic? <==> !reached)
              && (ProcessBlock(s, b).Crit? <==> reached && m == s.head && b.number > s.head.number + 1)
              && (ProcessBlock(s, b).Running? ==>
                    ProcessBlock(s, b).value == s.(
                      store := s.store + {b}, head := b, canonical := s.canonical + [b],
                      headers := s.headers + if m == s.head then [b] else Segment(m, b)))
  {
    if !Ignored(s, b) {
      var st, m := s.store + {b}, Meet(s.head, b);
      IsAncestorIsExact(st, b, s.head);
      MeetOfAncestor(s.head, b);
      if Linked(st, s.head, b) {
        LinkedIsAncestor(st, s.head, b);
      } else {
        LinkedGrows(s.store, st, GENESIS, s.head);
        GenesisIsAncestor(s.head);
        AncestorIsLower(m, s.head);
        GenesisIsAncestor(m);
        LinkedBetween(st, GENESIS, m, s.head);
        LCAIsMeetIff(st, s.head, b);
        if Linked(st, m, b) {
          SegmentShape(m, b);
        }
      }
    }
  }

  /**
   Out of order, a node can panic or exit: it stores the second block of a chain as an orphan; the third
   then makes it panic, and after the first has become its head the third makes it exit.
   */
  lemma {:induction false} OrphanThenGapCrashes(s: NodeState, miner: NodeId, b1: Block, b2: Block, b3: Block)
    returns (s2: NodeState, s1: NodeState)
    requires s.store == {GENESIS} && s.head == GENESIS
    requires b1 == NewBlock(Some(GENESIS), miner, []) && b2 == NewBlock(Some(b1), miner, [])
    requires b3 == NewBlock(Some(b2), miner, [])
    ensures ReceiveBlock(s, b2) == Running(s2) && ReceiveBlock(s2, b3) == Panic && s2.store == {GENESIS, b2}
    ensures ReceiveBlock(s2, GENESIS) == Running(s2) && ReceiveBlock(s2, b1) == Running(s1)
    ensures ReceiveBlock(s1, b3) == Crit
  {
    assert Ignored(s, b2);
    ProcessOutcome(s, b2);
    s2 := s.(store := s.store + {b2});
    assert b1 !in s2.store;
    ProcessOutcome(s2, b3);
    MeetOfAncestor(GENESIS, b3);
    assert Ancestor(GENESIS, b1);
    assert !Linked(s2.store + {b3}, GENESIS, b2);
    ProcessOutcome(s2, b1);
    MeetOfAncestor(GENESIS, b1);
    s1 := ReceiveBlock(s2, b1).value;
    assert s1.head == b1 && b3 !in s1.store;
    ProcessOutcome(s1, b3);
    MeetOfAncestor(b1, b3);
    assert b1 in s1.store && b2 in s1.store && !Ignored(s1, b3);
    assert Linked(s1.store + {b3}, b1, b2);
    assert Ancestor(b1, b2);
  }

  /* ---- A consumer of the announced headers ---- */

  function Position(view: seq<Block>, b: Block): (i: nat)
    requires b in view
    ensures i < |view| && view[i] == b
  {
    if view[0] == b then 0 else 1 + Position(view[1..], b)
  }

  /** Cuts the view back to a known header, or to the header's known parent before appending it. */
  function Consume(view: seq<Block>, h: Block): seq<Block> {
    if h in view then view[..Position(view, h) + 1]
    else if HasParent(h) && Parent(h) in view then view[..Position(view, Parent(h)) + 1] + [h]
    else view + [h]
  }

  function ConsumeAll(view: seq<Block>, headers: seq<Block>): seq<Block> {
    if headers == [] then view
    else Consume(ConsumeAll(view, headers[..|headers| - 1]), headers[|headers| - 1])
  }

  lemma {:induction false} ConsumeConcat(view: seq<Block>, p: seq<Block>, q: seq<Block>)
    ensures ConsumeAll(view, p + q) == ConsumeAll(ConsumeAll(view, p), q)
    decreases |q|
  {
    if q == [] {
      assert p + q == p;
    } else {
      assert (p + q)[..|p + q| - 1] == p + q[..|q| - 1];
      ConsumeConcat(view, p, q[..|q| - 1]);
    }
  }

  /** A view that is the path to `x` becomes the path to `h` on hearing an ancestor of `x` or a child of one. */
  lemma {:induction false} ConsumeMovesChain(x: Block, h: Block)
    requires WellBuilt(x) && WellBuilt(h)
    requires Ancestor(h, x) || (HasParent(h) && Ancestor(Parent(h), x))
    ensures Consume(Chain(x), h) == Chain(h)
  {
    ChainShape(x);
    if h in Chain(x) {
      var i := Position(Chain(x), h);
      ChainAt(h, x);
    } else {
      var p := Parent(h);
      ChainAt(p, x);
      assert Chain(x)[Position(Chain(x), p)].number == p.number;
    }
  }

  /** Announcing the path from an ancestor of the old head moves the view to the new head. */
  lemma {:induction false} ConsumeSegment(x: Block, a: Block, b: Block)
    requires WellBuilt(x) && WellBuilt(b) && Ancestor(a, x) && Ancestor(a, b)
    ensures ConsumeAll(Chain(x), Segment(a, b)) == Chain(b)
    decreases b
  {
    AncestorIsLower(a, b);
    if a == b {
      ConsumeMovesChain(x, b);
      assert [a][..0] == [];
    } else {
      ConsumeSegment(x, a, Parent(b));
      assert Segment(a, b)[..|Segment(a, b)| - 1] == Segment(a, Parent(b));
      ConsumeMovesChain(Parent(b), b);
    }
  }

  /* ---- The invariant of a node, in whatever order blocks arrive ---- */

  /** Stored with its whole chain, and no higher than the head. */
  ghost predicate Rooted(s: NodeState, b: Block) {
    b in s.store && WellBuilt(b) && Linked(s.store, GENESIS, b) && b.number <= s.head.number
  }

  ghost predicate MinedOnRooted(s: NodeState, m: Block) {
    WellBuilt(m) && HasParent(m) && Rooted(s, Parent(m))
  }

  /**
   Kept by every action, orphans or not: the head and whatever was announced are rooted, mined blocks
   hang on rooted ones, and the headers published so far lead a subscriber to the head's chain.
   */
  ghost predicate Grounded(s: NodeState) {
    && Rooted(s, s.head)
    && (forall c :: c in s.canonical ==> Rooted(s, c))
    && (forall c :: c in s.rounds ==> Rooted(s, c))
    && (forall m :: m in s.mined ==> MinedOnRooted(s, m))
    && CacheSound(s.cache)
    && ConsumeAll([], s.headers) == Chain(s.head)
  }

  lemma {:induction false} StartedGrounded(id: NodeId)
    ensures Grounded(Started(id))
  {
  }

  lemma {:induction false} RootedGrows(s: NodeState, s': NodeState, b: Block)
    requires Rooted(s, b) && s.store <= s'.store && s.head.number <= s'.head.number
    ensures Rooted(s', b)
  {
    LinkedGrows(s.store, s'.store, GENESIS, b);
  }

  /** The headers published when `b` is taken: its path from the latest common ancestor, or just `b` above the head. */
  ghost function Announced(s: NodeState, b: Block): seq<Block>
    requires WellBuilt(s.head) && WellBuilt(b)
  {
    if Ignored(s, b) then [] else if Meet(s.head, b) == s.head then [b] else Segment(Meet(s.head, b), b)
  }

  /** The state after `b` was taken: the head is unchanged, or `b`, which is then announced. */
  ghost predicate Advanced(s: NodeState, s': NodeState, b: Block) {
    && WellBuilt(s.head) && WellBuilt(b)
    && s'.headers == s.headers + Announced(s, b)
    && s'.store == s.store + {b}
    && s'.head == (if Ignored(s, b) then s.head else b)
    && s'.canonical == s.canonical + (if Ignored(s, b) then [] else [b])
    && s'.id == s.id && s'.cache == s.cache && s'.mempool == s.mempool
    && s'.rounds == s.rounds && s'.mined == s.mined
  }

  lemma {:induction false} AdvancedGrounded(s: NodeState, s': NodeState, b: Block)
    requires Grounded(s) && Advanced(s, s', b) && (!Ignored(s, b) ==> Rooted(s', b))
    requires ConsumeAll([], s'.headers) == Chain(s'.head)
    ensures Grounded(s')
  {
    forall c | Rooted(s, c) ensures Rooted(s', c) {
      RootedGrows(s, s', c);
    }
    forall m | m in s'.mined ensures MinedOnRooted(s', m) {
      assert MinedOnRooted(s, m);
    }
  }

  /** The announced headers move a subscriber from the chain of the old head to that of the new one. */
  lemma {:induction false} AnnouncedHeaders(s: NodeState, b: Block, m: Block)
    requires WellBuilt(s.head) && WellBuilt(b) && m == Meet(s.head, b) && b.number > s.head.number
    requires m == s.head ==> b.number == s.head.number + 1
    requires ConsumeAll([], s.headers) == Chain(s.head)
    ensures ConsumeAll([], s.headers + if m == s.head then [b] else Segment(m, b)) == Chain(b)
  {
    if m == s.head {
      SegmentIsStep(s.head, b);
      ConsumeMovesChain(s.head, b);
      assert [b][..0] == [];
      ConsumeConcat([], s.headers, [b]);
    } else {
      ConsumeSegment(s.head, m, b);
      ConsumeConcat([], s.headers, Segment(m, b));
    }
  }

  lemma {:induction false} SegmentIsStep(a: Block, b: Block)
    requires WellBuilt(b) && Ancestor(a, b) && b.number <= a.number + 1 && a != b
    ensures HasParent(b) && Parent(b) == a
  {
    AncestorIsLower(a, Parent(b));
  }

  /** Where the latest common ancestor with the head is reached, a block's own chain is stored. */
  lemma {:induction false} ReachedIsRooted(s: NodeState, b: Block)
    requires Rooted(s, s.head) && WellBuilt(b)
    requires Linked(s.store + {b}, Meet(s.head, b), b)
    ensures Linked(s.store + {b}, GENESIS, b)
  {
    var st, m := s.store + {b}, Meet(s.head, b);
    LinkedGrows(s.store, st, GENESIS, s.head);
    AncestorIsLower(m, s.head);
    GenesisIsAncestor(m);
    LinkedBetween(st, GENESIS, m, s.head);
    LinkedTrans(st, GENESIS, m, b);
  }

  /** In whatever order blocks arrive: a block that does not crash the node keeps it grounded. */
  lemma {:induction false} ProcessKeepsGrounded(s: NodeState, b: Block)
    requires Grounded(s) && WellBuilt(b) && ProcessBlock(s, b).Running?
    ensures Grounded(ProcessBlock(s, b).value)
    ensures Advanced(s, ProcessBlock(s, b).value, b)
  {
    ProcessOutcome(s, b);
    var s' := ProcessBlock(s, b).value;
    if Ignored(s, b) {
      assert s.canonical + [] == s.canonical && s.headers + [] == s.headers;
    } else {
      ReachedIsRooted(s, b);
      AnnouncedHeaders(s, b, Meet(s.head, b));
    }
    hide Linked, Meet;
    AdvancedGrounded(s, s', b);
  }

  lemma {:induction false} ReceiveKeepsGrounded(s: NodeState, b: Block)
    requires Grounded(s) && WellBuilt(b) && ReceiveBlock(s, b).Running?
    ensures var s' := ReceiveBlock(s, b).value;
            && Grounded(s')
            && if b in s.store then s' == s else Advanced(s, s', b)
  {
    if b !in s.store {
      ProcessKeepsGrounded(s, b);
    }
  }

  /** A block whose parent is rooted never crashes the node. */
  lemma {:induction false} ChildNeverCrashes(s: NodeState, b: Block)
    requires Grounded(s) && MinedOnRooted(s, b)
    ensures ProcessBlock(s, b).Running?
  {
    ProcessOutcome(s, b);
    if !Ignored(s, b) {
      var st, m := s.store + {b}, Meet(s.head, b);
      LinkedGrows(s.store, st, GENESIS, Parent(b));
      AncestorIsLower(m, b);
      GenesisIsAncestor(m);
      LinkedBetween(st, GENESIS, m, b);
    }
  }

  /** A mined block never crashes the node that mined it; it is broadcast exactly when it is then the head. */
  lemma {:induction false} AdoptKeepsGrounded(s: NodeState, b: Block)
    requires Grounded(s) && b in s.mined
    ensures AdoptMined(s, b).Running?
    ensures var (s', sent) := AdoptMined(s, b).value;
            && Grounded(s') && MinedOnRooted(s, b) && Advanced(s.(mined := s.mined - multiset{b}), s', b)
            && (Ignored(s, b) <==> b.number <= s.head.number)
            && sent == if s'.head == b then Some(Announcement(Parent(b), b)) else None
  {
    var s0 := s.(mined := s.mined - multiset{b});
    assert MinedOnRooted(s, b);
    assert Grounded(s0) && MinedOnRooted(s0, b) by {
      forall c | Rooted(s, c) ensures Rooted(s0, c) {
      }
      forall m | m in s0.mined ensures MinedOnRooted(s0, m) {
        assert MinedOnRooted(s, m);
      }
    }
    ChildNeverCrashes(s0, b);
    ProcessKeepsGrounded(s0, b);
  }

  lemma {:induction false} SameChainGrounded(s: NodeState, s': NodeState)
    requires Grounded(s) && s'.store == s.store && s'.head == s.head && s'.headers == s.headers
    requires CacheSound(s'.cache) && (forall c :: c in s'.canonical ==> Rooted(s, c))
    requires (forall c :: c in s'.rounds ==> Rooted(s, c)) && (forall m :: m in s'.mined ==> MinedOnRooted(s, m))
    ensures Grounded(s')
  {
    forall c | Rooted(s, c) ensures Rooted(s', c) {
    }
    forall m | MinedOnRooted(s, m) ensures MinedOnRooted(s', m) {
    }
  }

  /** Taking a canonical block never ends the process and prunes by the ancestor at the committed depth. */
  lemma {:induction false} TakeKeepsGrounded(s: NodeState)
    requires Grounded(s) && |s.canonical| > 0
    ensures TakeCanonical(s).Running?
    ensures var s', cb := TakeCanonical(s).value, s.canonical[0];
            && Grounded(s')
            && s' == s.(mempool := s'.mempool, canonical := s.canonical[1..], rounds := s.rounds + multiset{cb})
            && s'.mempool == match PruningPoint(s.store, s.cache, cb)
                             case None => s.mempool
                             case Some(a) => RemoveExisting(s.mempool, Included(a))
    ensures PruningPoint(s.store, s.cache, s.canonical[0]).Some? ==>
              var a := PruningPoint(s.store, s.cache, s.canonical[0]).value;
              Ancestor(a, s.canonical[0]) && s.canonical[0].number == a.number + HEIGHT_COMMITTED
  {
    var cb := s.canonical[0];
    assert Rooted(s, cb);
    if cb.number > HEIGHT_COMMITTED {
      BelowIsOnChain(s.store, cb, HEIGHT_COMMITTED);
    }
    var s' := TakeCanonical(s).value;
    SameChainGrounded(s, s');
  }

  /** Entries of a cache are never dropped or changed. */
  ghost predicate CacheGrows(c: Cache, c': Cache) {
    forall h :: h in c ==> h in c' && c'[h] == c[h]
  }

  /** `b` is a child of `c` mined by the node, with the mempool transactions not on the chain of `c`, in order. */
  ghost predicate MinedOn(s: NodeState, c: Block, b: Block) {
    && b.parentHash == Digest(c) && b.number == c.number + 1 && b.miner == s.id
    && b.txs == RemoveExisting(s.mempool, Included(c))
  }

  /** A round never panics, offers one such block, and changes nothing else but to fill the cache. */
  lemma {:induction false} FireKeepsGrounded(s: NodeState, c: Block) returns (b: Block)
    requires Grounded(s) && c in s.rounds
    ensures FireRound(s, c).Running? && MinedOn(s, c, b)
    ensures var s' := FireRound(s, c).value;
            && Grounded(s') && CacheGrows(s.cache, s'.cache)
            && s' == s.(cache := s'.cache, rounds := s.rounds - multiset{c}, mined := s.mined + multiset{b})
  {
    assert Rooted(s, c);
    CacheIsTransparent(s.store, s.cache, c);
    var s' := FireRound(s, c).value;
    b := NewBlock(Some(c), s.id, RemoveExisting(s.mempool, Included(c)));
    assert MinedOnRooted(s, b);
    assert s'.mined == s.mined + multiset{b};
    hide RemoveExisting, AllIncluded;
    SameChainGrounded(s, s');
  }

  lemma {:induction false} AcceptKeepsGrounded(s: NodeState, t: Tx)
    requires Grounded(s)
    ensures Grounded(AcceptTx(s, t))
  {
    SameChainGrounded(s, AcceptTx(s, t));
  }

  /* ---- The invariant of a node whose blocks arrive after their parents ---- */

  ghost predicate NodeInv(s: NodeState) {
    Grounded(s) && Closed(s.store) && IsHighest(s.store, s.head)
  }

  lemma {:induction false} StartedInv(id: NodeId)
    ensures NodeInv(Started(id))
  {
    StartedGrounded(id);
  }

  ghost predicate Arrivable(s: NodeState, b: Block) {
    WellBuilt(b) && (b in s.store || (HasParent(b) && Parent(b) in s.store))
  }

  /** With its parent stored, a block never crashes the node, and the head stays a highest block. */
  lemma {:induction false} ProcessKeepsInv(s: NodeState, b: Block)
    requires NodeInv(s) && Arrivable(s, b)
    ensures ProcessBlock(s, b).Running?
    ensures NodeInv(ProcessBlock(s, b).value)
    ensures Advanced(s, ProcessBlock(s, b).value, b)
  {
    ProcessOutcome(s, b);
    if !Ignored(s, b) {
      GenesisIsAncestor(Parent(b));
      LinkedInClosed(s.store, GENESIS, Parent(b));
      ChildNeverCrashes(s, b);
    }
    ProcessKeepsGrounded(s, b);
    ClosedUnderStore(s.store, b);
  }

  lemma {:induction false} ReceiveKeepsInv(s: NodeState, b: Block)
    requires NodeInv(s) && Arrivable(s, b)
    ensures ReceiveBlock(s, b).Running?
    ensures NodeInv(ReceiveBlock(s, b).value)
    ensures Advanced(s, ReceiveBlock(s, b).value, b)
  {
    if b in s.store {
      assert s.store + {b} == s.store;
      assert s.canonical + [] == s.canonical && s.headers + [] == s.headers;
    } else {
      ProcessKeepsInv(s, b);
    }
  }

  lemma {:induction false} AdoptKeepsInv(s: NodeState, b: Block)
    requires NodeInv(s) && b in s.mined
    ensures AdoptMined(s, b).Running? && NodeInv(AdoptMined(s, b).value.0)
  {
    AdoptKeepsGrounded(s, b);
    ClosedUnderStore(s.store, b);
  }
}
