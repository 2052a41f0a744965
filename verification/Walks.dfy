/**
 Walks over the block tree: the latest common ancestor of two blocks, the path between two blocks
 in both clients, and the lookups that walk down from the head.
 */
module Walks {
  import opened Wrappers
  import opened Blocks
  import opened Resolver

  /* ---- go/common/gethutil/gethutil.go ---- */

  datatype ChainFork = ChainFork(
    newCanonical: Block, oldCanonical: Block, commonAncestor: Block,
    canonicalPath: seq<Hash>, nonCanonicalPath: seq<Hash>)
  {
    predicate IsFork() {
      |nonCanonicalPath| > 0
    }
  }

  function InternalLCA(s: Store, x: Block, y: Block, xPath: seq<Hash>, yPath: seq<Hash>)
    : (r: Option<(Block, seq<Hash>, seq<Hash>)>)
    decreases x, y
  {
    if x.number == 0 || y.number == 0 then Some((x, xPath, yPath))
    else if x == y then Some((x, xPath, yPath))
    else if x.number > y.number then
      match Fetch(s, x.parentHash)
      case None => None
      case Some(p) => InternalLCA(s, p, y, xPath + [Digest(p)], yPath)
    else if y.number > x.number then
      match Fetch(s, y.parentHash)
      case None => None
      case Some(p) => InternalLCA(s, x, p, xPath, yPath + [Digest(p)])
    else
      match Fetch(s, x.parentHash)
      case None => None
      case Some(p) =>
        match Fetch(s, y.parentHash)
        case None => None
        case Some(q) => InternalLCA(s, p, q, xPath + [Digest(p)], yPath + [Digest(q)])
  }

  function DropLast(path: seq<Hash>): seq<Hash> {
    if |path| > 0 then path[..|path| - 1] else path
  }

  function LCA(s: Store, newCanonical: Block, oldCanonical: Block): (r: Option<ChainFork>) {
    match InternalLCA(s, newCanonical, oldCanonical, [], [Digest(oldCanonical)])
    case None => None
    case Some((b, cp, ncp)) =>
      Some(ChainFork(newCanonical, oldCanonical, b, DropLast(cp), DropLast(ncp)))
  }

  /** go/common/gethutil/gethutil.go, internalLCA: the walk itself, looking parents up. */
  method WalkToLCA(r: BlockResolver, x: Block, y: Block, xPath: seq<Hash>, yPath: seq<Hash>)
    returns (res: Option<(Block, seq<Hash>, seq<Hash>)>)
    requires r.Valid()
    ensures res == InternalLCA(r.Stored(), x, y, xPath, yPath)
    decreases x, y
  {
    if x.number == 0 || y.number == 0 || x == y {
      return Some((x, xPath, yPath));
    }
    var newX, newY, newXPath, newYPath := x, y, xPath, yPath;
    if x.number >= y.number {
      var p := r.FetchBlock(x.parentHash);
      if p.None? {
        return None;
      }
      newX, newXPath := p.value, xPath + [Digest(p.value)];
    }
    if y.number >= x.number {
      var p := r.FetchBlock(y.parentHash);
      if p.None? {
        return None;
      }
      newY, newYPath := p.value, yPath + [Digest(p.value)];
    }
    res := WalkToLCA(r, newX, newY, newXPath, newYPath);
  }

  /** The hashes from `b` down to, but not including, its ancestor `m`. */
  function HashesAbove(b: Block, m: Block): seq<Hash>
    requires Ancestor(m, b)
  {
    if b == m then [] else [Digest(b)] + HashesAbove(Parent(b), m)
  }

  /** The hashes of the proper ancestors of `b` down to and including `m`. */
  function HashesBelow(b: Block, m: Block): seq<Hash>
    requires Ancestor(m, b)
  {
    if b == m then [] else [Digest(Parent(b))] + HashesBelow(Parent(b), m)
  }

  lemma {:induction false} HashesShift(b: Block, m: Block)
    requires Ancestor(m, b)
    ensures [Digest(b)] + HashesBelow(b, m) == HashesAbove(b, m) + [Digest(m)]
    decreases b
  {
    if b == m {
    } else {
      HashesShift(Parent(b), m);
    }
  }

  /** These are the hashes of the ancestors of `b` above `m`, one per height, downwards from `b`. */
  lemma {:induction false} HashesAboveAre(b: Block, m: Block)
    requires WellBuilt(b) && Ancestor(m, b)
    ensures var path := HashesAbove(b, m);
            && m.number <= b.number && |path| == b.number - m.number
            && (forall i :: 0 <= i < |path| ==> path[i].Digest? && path[i].block.number == b.number - i)
            && (forall h :: h in path <==>
                  h.Digest? && Ancestor(h.block, b) && Ancestor(m, h.block) && h.block != m)
    decreases b
  {
    AncestorIsLower(m, b);
    if b == m {
      forall x | Ancestor(x, b) && Ancestor(m, x) ensures x == m {
        AncestorIsLower(x, b);
        AncestorIsLower(m, x);
      }
    } else {
      var p := Parent(b);
      HashesAboveAre(p, m);
      AncestorIsLower(m, p);
    }
  }

  /** The walk meets at the latest common ancestor, or fails because a block in between is missing. */
  lemma {:induction false} InternalLCAWalk(s: Store, x: Block, y: Block, xPath: seq<Hash>, yPath: seq<Hash>)
    requires WellBuilt(x) && WellBuilt(y) && (x.number == 0 <==> y.number == 0)
    ensures var m := Meet(x, y);
            InternalLCA(s, x, y, xPath, yPath) ==
            if Linked(s, m, x) && Linked(s, m, y)
            then Some((m, xPath + HashesBelow(x, m), yPath + HashesBelow(y, m)))
            else None
    decreases x, y
  {
    var m := Meet(x, y);
    GenesisIsAncestor(x);
    GenesisIsAncestor(y);
    AncestorIsLower(m, x);
    AncestorIsLower(m, y);
    if x == y {
      assert xPath + HashesBelow(x, m) == xPath && yPath + HashesBelow(y, m) == yPath;
    } else if x.number > y.number {
      var p := Parent(x);
      InternalLCAWalk(s, p, y, xPath + [Digest(p)], yPath);
      assert xPath + [Digest(p)] + HashesBelow(p, m) == xPath + HashesBelow(x, m);
    } else if y.number > x.number {
      var q := Parent(y);
      InternalLCAWalk(s, x, q, xPath, yPath + [Digest(q)]);
      assert yPath + [Digest(q)] + HashesBelow(q, m) == yPath + HashesBelow(y, m);
    } else {
      var p, q := Parent(x), Parent(y);
      AncestorIsLower(Meet(p, q), p);
      InternalLCAWalk(s, p, q, xPath + [Digest(p)], yPath + [Digest(q)]);
      assert xPath + [Digest(p)] + HashesBelow(p, m) == xPath + HashesBelow(x, m);
      assert yPath + [Digest(q)] + HashesBelow(q, m) == yPath + HashesBelow(y, m);
    }
  }

  /**
   A fork between the given blocks that meets at `m`: the paths hold exactly the ancestors above `m`, of the old
   block with its own hash, of the new one without.
   */
  ghost predicate IsForkAt(f: ChainFork, x: Block, y: Block, m: Block) {
    && f.newCanonical == x && f.oldCanonical == y && f.commonAncestor == m
    && (forall h :: h in f.nonCanonicalPath <==>
          h.Digest? && Ancestor(h.block, y) && Ancestor(m, h.block) && h.block != m)
    && (forall h :: h in f.canonicalPath <==>
          h.Digest? && Ancestor(h.block, x) && Ancestor(m, h.block) && h.block != m && h.block != x)
    && |f.nonCanonicalPath| == y.number - m.number
    && |f.canonicalPath| == (if x == m then 0 else x.number - m.number - 1)
    && (forall i :: 0 <= i < |f.nonCanonicalPath| ==>
          f.nonCanonicalPath[i].Digest? && f.nonCanonicalPath[i].block.number == y.number - i)
    && (forall i :: 0 <= i < |f.canonicalPath| ==>
          f.canonicalPath[i].Digest? && f.canonicalPath[i].block.number == x.number - 1 - i)
  }

  /**
   LCA on all inputs.  Its answer is the latest common ancestor except when the second block is the
   genesis block and the first is not: then it answers with the first block.  With neither block at
   height 0 it fails exactly when a block below one of the arguments is missing, and the two paths
   are the blocks strictly above the common ancestor, the canonical one without its own tip.
   */
  lemma {:induction false} LCAIsMeetIff(s: Store, x: Block, y: Block)
    requires WellBuilt(x) && WellBuilt(y)
    ensures LCA(s, x, y).Some? <==>
              x.number == 0 || y.number == 0 || (Linked(s, Meet(x, y), x) && Linked(s, Meet(x, y), y))
    ensures LCA(s, x, y).Some? ==>
              (LCA(s, x, y).value.commonAncestor == Meet(x, y) <==> !(y.number == 0 && x.number > 0))
    ensures LCA(s, x, y).Some? && x.number > 0 && y.number > 0 ==> IsForkAt(LCA(s, x, y).value, x, y, Meet(x, y))
    ensures x.number == 0 || y.number == 0 ==> LCA(s, x, y) == Some(ChainFork(x, y, x, [], []))
  {
    var m := Meet(x, y);
    GenesisIsAncestor(x);
    GenesisIsAncestor(y);
    AncestorIsLower(m, x);
    AncestorIsLower(m, y);
    if x.number == 0 || y.number == 0 {
      assert x.number != y.number ==> m == GENESIS;
    } else if Linked(s, m, x) && Linked(s, m, y) {
      LCAPaths(s, x, y);
      HashesAboveAre(y, m);
      NewPath(x, m);
    } else {
      InternalLCAWalk(s, x, y, [], [Digest(y)]);
    }
  }

  lemma {:induction false} LCAPaths(s: Store, x: Block, y: Block)
    requires WellBuilt(x) && WellBuilt(y) && x.number > 0 && y.number > 0
    requires Linked(s, Meet(x, y), x) && Linked(s, Meet(x, y), y)
    ensures var m := Meet(x, y);
            LCA(s, x, y) == Some(ChainFork(x, y, m, BelowTip(x, m), HashesAbove(y, m)))
  {
    var m := Meet(x, y);
    InternalLCAWalk(s, x, y, [], [Digest(y)]);
    HashesShift(y, m);
    assert DropLast([Digest(y)] + HashesBelow(y, m)) == HashesAbove(y, m);
    if x != m {
      HashesShift(Parent(x), m);
      assert DropLast(HashesBelow(x, m)) == HashesAbove(Parent(x), m);
    }
    assert [] + HashesBelow(x, m) == HashesBelow(x, m);
  }

  /** The hashes between `x` and its ancestor `m`, without both. */
  function BelowTip(x: Block, m: Block): seq<Hash>
    requires Ancestor(m, x)
  {
    if x == m then [] else HashesAbove(Parent(x), m)
  }

  lemma {:induction false} NewPath(x: Block, m: Block)
    requires WellBuilt(x) && Ancestor(m, x)
    ensures var path := BelowTip(x, m);
            && m.number <= x.number && |path| == (if x == m then 0 else x.number - m.number - 1)
            && (forall h :: h in path <==>
                  h.Digest? && Ancestor(h.block, x) && Ancestor(m, h.block) && h.block != m && h.block != x)
            && (forall i :: 0 <= i < |path| ==> path[i].Digest? && path[i].block.number == x.number - 1 - i)
  {
    AncestorIsLower(m, x);
    if x == m {
      forall a | Ancestor(a, x) && Ancestor(m, a) ensures a == m {
        AncestorIsLower(a, x);
        AncestorIsLower(m, a);
      }
    } else {
      var p := Parent(x);
      AncestorIsLower(m, p);
      HashesAboveAre(p, m);
      forall a | Ancestor(a, p) ensures a != x {
        AncestorIsLower(a, p);
      }
    }
  }

  /** go/common/gethutil/gethutil.go, LCA. */
  method FindLCA(r: BlockResolver, newCanonical: Block, oldCanonical: Block) returns (res: Option<ChainFork>)
    requires r.Valid()
    ensures res == LCA(r.Stored(), newCanonical, oldCanonical)
    ensures WellBuilt(newCanonical) && WellBuilt(oldCanonical) && newCanonical.number > 0 && oldCanonical.number > 0 ==>
              var m := Meet(newCanonical, oldCanonical);
              && (res.Some? <==> Linked(r.Stored(), m, newCanonical) && Linked(r.Stored(), m, oldCanonical))
              && (res.Some? ==> IsForkAt(res.value, newCanonical, oldCanonical, m))
    ensures newCanonical.number == 0 || oldCanonical.number == 0 ==>
              res == Some(ChainFork(newCanonical, oldCanonical, newCanonical, [], []))
  {
    if WellBuilt(newCanonical) && WellBuilt(oldCanonical) {
      LCAIsMeetIff(r.Stored(), newCanonical, oldCanonical);
    }
    var walked := WalkToLCA(r, newCanonical, oldCanonical, [], [Digest(oldCanonical)]);
    if walked.None? {
      return None;
    }
    var (b, cp, ncp) := walked.value;
    res := Some(ChainFork(newCanonical, oldCanonical, b, DropLast(cp), DropLast(ncp)));
  }

  /** IsFork reports that the old head was abandoned, except when the first block is the genesis block. */
  lemma {:induction false} IsForkIff(s: Store, x: Block, y: Block)
    requires WellBuilt(x) && WellBuilt(y) && LCA(s, x, y).Some?
    ensures (LCA(s, x, y).value.IsFork() <==> !Ancestor(y, x)) <==> !(x.number == 0 && y.number > 0)
  {
    LCAIsMeetIff(s, x, y);
    GenesisIsAncestor(x);
    GenesisIsAncestor(y);
    if x.number > 0 && y.number > 0 {
      if Ancestor(y, x) {
        MeetIsHighest(x, y, y);
        AncestorIsLower(Meet(x, y), y);
        AncestorIsLower(y, Meet(x, y));
      }
    } else if x.number == 0 && y.number > 0 {
      if Ancestor(y, x) {
        AncestorIsLower(y, x);
      }
    }
  }

  /* ---- Paths between two blocks ---- */

  /** The ascending path when it can be walked in the store. */
  function PathBetween(s: Store, a: Block, b: Block): (r: Option<seq<Block>>) {
    if Linked(s, a, b) then
      LinkedIsAncestor(s, a, b);
      Some(Segment(a, b))
    else None
  }

  function Reversed<T>(s: seq<T>): (r: seq<T>)
    ensures |r| == |s| && forall i :: 0 <= i < |s| ==> r[i] == s[|s| - 1 - i]
  {
    seq(|s|, i requires 0 <= i < |s| => s[|s| - 1 - i])
  }

  /** integration/ethereummock/node.go, BlocksBetween; None stands for its panic. */
  method BlocksBetween(r: BlockResolver, blockA: Block, blockB: Block) returns (path: Option<seq<Block>>)
    requires r.Valid()
    ensures path == PathBetween(r.Stored(), blockA, blockB)
  {
    ghost var s := r.Stored();
    if blockA == blockB {
      return Some([blockA]);
    }
    var blocks := [];
    var tempBlock := blockB;
    while true
      invariant Linked(s, tempBlock, blockB) && Ancestor(tempBlock, blockB)
      invariant Linked(s, blockA, blockB) <==> Linked(s, blockA, tempBlock)
      invariant blocks + [tempBlock] == Reversed(Segment(tempBlock, blockB))
      decreases tempBlock
    {
      blocks := blocks + [tempBlock];
      if tempBlock == blockA {
        break;
      }
      var p := r.FetchBlock(tempBlock.parentHash);
      if p.None? {
        return None;
      }
      SegmentPrepend(p.value, tempBlock, blockB);
      LinkedStep(s, tempBlock, blockB);
      tempBlock := p.value;
    }
    var n := |blocks|;
    var result := seq(n, _ => blockA);
    for i := 0 to n
      invariant |result| == n
      invariant forall j :: 0 <= j < i ==> result[n - j - 1] == blocks[j]
    {
      result := result[n - i - 1 := blocks[i]];
    }
    forall k | 0 <= k < n ensures result[k] == blocks[n - k - 1] {
      var j := n - k - 1;
      assert result[n - j - 1] == blocks[j];
    }
    assert result == Segment(blockA, blockB);
    path := Some(result);
  }

  lemma {:induction false} SegmentPrepend(p: Block, a: Block, b: Block)
    requires Ancestor(a, b) && HasParent(a) && Parent(a) == p
    ensures Ancestor(p, b) && Segment(p, b) == [p] + Segment(a, b)
    decreases b
  {
    StrictlySmaller(p, a, b);
    if a == b {
    } else {
      SegmentPrepend(p, a, Parent(b));
    }
  }

  /** A proper ancestor is a different block. */
  lemma {:induction false} StrictlySmaller(p: Block, a: Block, b: Block)
    requires Ancestor(a, b) && HasParent(a) && Parent(a) == p
    ensures Ancestor(p, b) && p != b && Size(p) < Size(b)
    decreases b
  {
    if a == b {
    } else {
      StrictlySmaller(p, a, Parent(b));
    }
  }

  ghost function Size(b: Block): nat {
    if HasParent(b) then Size(Parent(b)) + 1 else 0
  }

  lemma {:induction false} LinkedStep(s: Store, t: Block, b: Block)
    requires Linked(s, t, b) && HasParent(t) && Parent(t) in s
    ensures Linked(s, Parent(t), b)
  {
    LinkedTrans(s, Parent(t), t, b);
  }

  /** Where the real client's walk from `last` towards `start` ends when every lookup succeeds. */
  function WalkEnd(start: Block, last: Block): (e: Block) {
    if start == last || !HasParent(last) then last else WalkEnd(start, Parent(last))
  }

  lemma {:induction false} WalkEndCases(start: Block, last: Block)
    requires WellBuilt(last)
    ensures Ancestor(WalkEnd(start, last), last)
    ensures WalkEnd(start, last) == if Ancestor(start, last) then start else GENESIS
    decreases last
  {
    if start == last || !HasParent(last) {
    } else {
      WalkEndCases(start, Parent(last));
    }
  }

  /**
   go/ethadapter/geth_rpc_client.go, BlocksBetween, against a node holding the blocks in `r`; None
   stands for the process ending on a failed lookup.  The result descends from the parent of
   `lastBlock` and contains `startingBlock` but not `lastBlock`.
   */
  method ClientBlocksBetween(r: BlockResolver, startingBlock: Block, lastBlock: Block)
    returns (path: Option<seq<Block>>)
    requires r.Valid()
    ensures var e := WalkEnd(startingBlock, lastBlock);
            path.Some? <==> Linked(r.Stored(), e, lastBlock)
    ensures var e := WalkEnd(startingBlock, lastBlock);
            path.Some? ==> Ancestor(e, lastBlock) && Reversed(path.value) + [lastBlock] == Segment(e, lastBlock)
  {
    ghost var s := r.Stored();
    ghost var e := WalkEnd(startingBlock, lastBlock);
    var blocksBetween := [];
    var currentBlk := lastBlock;
    while currentBlk != startingBlock && currentBlk.parentHash != Zero
      invariant Linked(s, currentBlk, lastBlock) && Ancestor(currentBlk, lastBlock)
      invariant WalkEnd(startingBlock, currentBlk) == e
      invariant Linked(s, e, lastBlock) <==> Linked(s, e, currentBlk)
      invariant Reversed(blocksBetween) + [lastBlock] == Segment(currentBlk, lastBlock)
      decreases currentBlk
    {
      var p := r.FetchBlock(currentBlk.parentHash);
      WalkEndSmaller(startingBlock, currentBlk);
      if p.None? {
        return None;
      }
      SegmentPrepend(p.value, currentBlk, lastBlock);
      LinkedStep(s, currentBlk, lastBlock);
      if Linked(s, e, p.value) {
        LinkedTrans(s, e, p.value, lastBlock);
      }
      currentBlk := p.value;
      assert Reversed(blocksBetween + [currentBlk]) == [currentBlk] + Reversed(blocksBetween);
      blocksBetween := blocksBetween + [currentBlk];
    }
    path := Some(blocksBetween);
  }

  lemma {:induction false} WalkEndSmaller(start: Block, b: Block)
    requires start != b && HasParent(b)
    ensures WalkEnd(start, b) != b
  {
    WalkEndSize(start, Parent(b));
  }

  lemma {:induction false} WalkEndSize(start: Block, b: Block)
    ensures Size(WalkEnd(start, b)) <= Size(b)
    decreases b
  {
    if start == b || !HasParent(b) {
    } else {
      WalkEndSize(start, Parent(b));
    }
  }

  /** One path in both clients: on a closed tree the real client's answer is the mock's, reversed, without its tip. */
  lemma {:induction false} ClientPathIsMockPath(s: Store, a: Block, b: Block, clientPath: seq<Block>)
    requires Closed(s) && b in s && Ancestor(a, b)
    requires Reversed(clientPath) + [b] == Segment(a, b)
    ensures WalkEnd(a, b) == a && PathBetween(s, a, b).Some?
    ensures var mockPath := PathBetween(s, a, b).value;
            |mockPath| == b.number - a.number + 1 && clientPath == Reversed(mockPath[..b.number - a.number])
  {
    WalkEndCases(a, b);
    LinkedInClosed(s, a, b);
    SegmentShape(a, b);
    var mockPath := PathBetween(s, a, b).value;
    assert Reversed(clientPath) == mockPath[..b.number - a.number];
    assert Reversed(Reversed(clientPath)) == clientPath;
  }

  /* ---- Lookups by walking down from the head ---- */

  datatype LookupError = NotFound | MissingParent

  ghost predicate IsHighest(s: Store, b: Block) {
    b in s && forall x :: x in s ==> x.number <= b.number
  }

  ghost predicate AllWellBuilt(s: Store) {
    forall b :: b in s ==> WellBuilt(b)
  }

  /**
   integration/ethereummock/node.go, BlockByNumber; `head` is the block its head scan picked.  Whatever
   is stored, the answer is the ancestor of `head` at that height if it is reached by lookups; not found
   if `head` is lower and its whole chain is stored; and a failed lookup otherwise.
   */
  method BlockByNumber(r: BlockResolver, n: nat) returns (res: Result<Block, LookupError>, ghost head: Block)
    requires r.Valid()
    ensures n == 0 ==> res == Ok(GENESIS)
    ensures n > 0 && r.Stored() == {} ==> res == Err(NotFound)
    ensures n > 0 && r.Stored() != {} && AllWellBuilt(r.Stored()) ==>
              && IsHighest(r.Stored(), head)
              && |Chain(head)| == head.number + 1
              && res == if n <= head.number && Linked(r.Stored(), Chain(head)[n], head) then Ok(Chain(head)[n])
                        else if n > head.number && Linked(r.Stored(), GENESIS, head) then Err(NotFound)
                        else Err(MissingParent)
  {
    head := GENESIS;
    if n == 0 {
      return Ok(GENESIS), head;
    }
    var h := r.FetchHeadBlock();
    if h.None? {
      return Err(NotFound), head;
    }
    head := h.value;
    ghost var s, built := r.Stored(), AllWellBuilt(r.Stored());
    if built {
      ChainShape(head);
    }
    var blk := h.value;
    while blk.parentHash != Zero
      invariant built ==> WellBuilt(blk) && Linked(s, blk, head) && (n <= head.number ==> n <= blk.number)
      decreases blk
    {
      if built {
        LinkedIsAncestor(s, blk, head);
        ChainAt(blk, head);
      }
      if blk.number == n {
        return Ok(blk), head;
      }
      var p := r.FetchBlock(blk.parentHash);
      if p.None? {
        if built {
          NotLinkedBelow(s, blk, head);
        }
        return Err(MissingParent), head;
      }
      if built {
        LinkedStep(s, blk, head);
      }
      blk := p.value;
    }
    res := Err(NotFound);
  }

  /** A walk that stops because a parent is missing has not reached any lower ancestor. */
  lemma {:induction false} NotLinkedBelow(s: Store, x: Block, head: Block)
    requires WellBuilt(head) && Linked(s, x, head) && HasParent(x) && Parent(x) !in s
    ensures forall a :: Linked(s, a, head) ==> x.number <= a.number <= head.number
    ensures |Chain(head)| == head.number + 1 && forall n :: 0 <= n < x.number ==> !Linked(s, Chain(head)[n], head)
  {
    ChainShape(head);
    LinkedIsAncestor(s, x, head);
    forall a | Linked(s, a, head) ensures x.number <= a.number <= head.number {
      LinkedIsAncestor(s, a, head);
      AncestorIsLower(a, head);
      AncestorIsLower(x, head);
      if a.number < x.number {
        AncestorsAreOrdered(a, x, head);
        LinkedBetween(s, a, x, head);
      }
    }
  }

  /**
   What getRollupFromBlock finds in the transactions: the first rollup that decodes, or a panic at a
   transaction before it that the management contract library cannot read.
   */
  function FirstRollup(txs: seq<Tx>): (r: Outcome<Option<nat>>) {
    if txs == [] then Running(None)
    else
      match txs[0].payload
      case Unreadable(false) => Panic
      case RollupTx(Some(n)) => Running(Some(n))
      case _ => FirstRollup(txs[1..])
  }

  /** The scan of a block ends at this transaction: it cannot be read, or holds a rollup that decodes. */
  predicate StopsScan(t: Tx) {
    t.payload == Unreadable(false) || (t.payload.RollupTx? && t.payload.seqNo.Some?)
  }

  /** `i` is the position of the first transaction that ends the scan. */
  ghost predicate FirstStop(txs: seq<Tx>, i: int) {
    0 <= i < |txs| && StopsScan(txs[i]) && forall j :: 0 <= j < i ==> !StopsScan(txs[j])
  }

  /** What that transaction gives: its rollup's number, or the panic of the decoder. */
  function AtStop(t: Tx): Outcome<Option<nat>> {
    if t.payload.RollupTx? then Running(t.payload.seqNo) else Panic
  }

  ghost predicate NoStop(txs: seq<Tx>) {
    forall t :: t in txs ==> !StopsScan(t)
  }

  lemma {:induction false} FirstRollupIs(txs: seq<Tx>)
    ensures FirstRollup(txs) == Running(None) <==> NoStop(txs)
    ensures forall i :: FirstStop(txs, i) ==> FirstRollup(txs) == AtStop(txs[i])
    ensures NoStop(txs) || exists i :: FirstStop(txs, i)
    decreases |txs|
  {
    if txs == [] {
    } else if StopsScan(txs[0]) {
      assert FirstStop(txs, 0);
      forall i | FirstStop(txs, i) ensures i == 0 {
      }
    } else {
      var rest := txs[1..];
      FirstRollupIs(rest);
      assert txs == [txs[0]] + rest;
      forall i | FirstStop(txs, i) ensures FirstStop(rest, i - 1) {
      }
      if !NoStop(rest) {
        var i :| FirstStop(rest, i);
        assert FirstStop(txs, i + 1);
      }
    }
  }

  /** integration/ethereummock/node.go, getRollupFromBlock. */
  method GetRollupFromBlock(b: Block) returns (r: Outcome<Option<nat>>)
    ensures r == FirstRollup(b.txs)
    ensures r == Running(None) <==> NoStop(b.txs)
    ensures forall i :: FirstStop(b.txs, i) ==> r == AtStop(b.txs[i])
  {
    FirstRollupIs(b.txs);
    for i := 0 to |b.txs|
      invariant forall j :: 0 <= j < i ==> !StopsScan(b.txs[j])
    {
      match b.txs[i].payload {
        case Unreadable(deposit) =>
          if !deposit {
            assert FirstStop(b.txs, i);
            return Panic;
          }
        case RollupTx(seqNo) =>
          if seqNo.Some? {
            assert FirstStop(b.txs, i);
            return Running(seqNo);
          }
        case OtherTx =>
      }
    }
    r := Running(None);
  }

  const L2_GENESIS_SEQ_NO: nat := 1

  /** `a` is reached from `head`, a transaction in it ends the scan, and none in a higher block does. */
  ghost predicate Decides(s: Store, head: Block, a: Block) {
    && Linked(s, a, head) && a.number > 0 && !NoStop(a.txs)
    && forall c :: Linked(s, c, head) && c.number > a.number ==> NoStop(c.txs)
  }

  ghost predicate NoneDecides(s: Store, head: Block) {
    forall c :: Linked(s, c, head) && c.number > 0 ==> NoStop(c.txs)
  }

  /**
   The answer on any store: what the highest deciding block on the stored part of `head`'s chain holds;
   without one, 1 if that part goes down to the genesis block and a panic if it does not.
   */
  ghost predicate IsLastSeqNo(s: Store, head: Block, r: Outcome<Option<nat>>) {
    || (exists a, i :: Decides(s, head, a) && FirstStop(a.txs, i) && r == AtStop(a.txs[i]))
    || (NoneDecides(s, head) && r == if Linked(s, GENESIS, head) then Running(Some(L2_GENESIS_SEQ_NO)) else Panic)
  }

  /** integration/ethereummock/node.go, FetchLastBatchSeqNo; Running(None) stands for its error. */
  method FetchLastBatchSeqNo(r: BlockResolver) returns (n: Outcome<Option<nat>>)
    requires r.Valid()
    ensures r.Stored() == {} ==> n == Running(None)
    ensures r.Stored() != {} && AllWellBuilt(r.Stored()) ==>
              exists head :: IsHighest(r.Stored(), head) && IsLastSeqNo(r.Stored(), head, n)
  {
    var startingBlock := r.FetchHeadBlock();
    if startingBlock.None? {
      return Running(None);
    }
    ghost var s, head, built := r.Stored(), startingBlock.value, AllWellBuilt(r.Stored());
    assert IsHighest(s, head);
    if built {
      LinkedIsLower(s, head);
    }
    var currentBlock := startingBlock.value;
    while currentBlock.number != 0
      invariant built ==> WellBuilt(currentBlock) && Linked(s, currentBlock, head)
      invariant built ==> forall c :: Linked(s, c, head) && c.number > currentBlock.number ==> NoStop(c.txs)
      decreases currentBlock
    {
      var rollup := GetRollupFromBlock(currentBlock);
      if rollup != Running(None) {
        FirstRollupIs(currentBlock.txs);
        ghost var i :| FirstStop(currentBlock.txs, i);
        assert built ==> Decides(s, head, currentBlock) && FirstStop(currentBlock.txs, i);
        return rollup;
      }
      var p := r.FetchBlock(currentBlock.parentHash);
      if p.None? {
        if built {
          GenesisIsAncestor(currentBlock);
          NotLinkedBelow(s, currentBlock, head);
          OnlyLinkedAtHeight(s, currentBlock, head);
        }
        return Panic;
      }
      if built {
        LinkedStep(s, currentBlock, head);
        OnlyLinkedAtHeight(s, currentBlock, head);
      }
      currentBlock := p.value;
    }
    if built {
      GenesisIsAncestor(currentBlock);
    }
    n := Running(Some(L2_GENESIS_SEQ_NO));
  }

  lemma {:induction false} LinkedIsLower(s: Store, head: Block)
    requires WellBuilt(head)
    ensures forall c :: Linked(s, c, head) ==> WellBuilt(c) && c.number <= head.number
  {
    forall c | Linked(s, c, head) ensures WellBuilt(c) && c.number <= head.number {
      LinkedIsAncestor(s, c, head);
      AncestorIsLower(c, head);
    }
  }

  lemma {:induction false} OnlyLinkedAtHeight(s: Store, x: Block, head: Block)
    requires WellBuilt(head) && Linked(s, x, head)
    ensures forall c :: Linked(s, c, head) && c.number == x.number ==> c == x
  {
    LinkedIsAncestor(s, x, head);
    forall c | Linked(s, c, head) && c.number == x.number ensures c == x {
      LinkedIsAncestor(s, c, head);
      AncestorsAreOrdered(c, x, head);
      AncestorIsLower(x, head);
      AncestorIsLower(c, x);
    }
  }
}
