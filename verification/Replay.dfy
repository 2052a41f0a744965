/**
 Recovery of the enclave's state after a restart: walk back from the head batch to one whose state is
 available, then replay the batches in between.

 A batch names the state it produces by its root, and a state is available when that root has been
 committed, so batches with equal roots become available together.  As for L1 blocks, a batch hash is
 a free constructor over the batch.
 */
module Replay {
  import opened Wrappers

  // A state, identified with its root.
  datatype State = State(root: nat)

  datatype BatchHash = NoBatch | BatchDigest(batch: Batch)

  datatype Batch = Batch(parentHash: BatchHash, number: nat, root: State, payload: seq<nat>)

  // Recomputing a batch from its context on a state: the batch that results, naming the state it leads to,
  // or None for any error of the executor.
  type Executor = (State, Batch) -> Option<Batch>

  // What the storage holds and what the executor does: batches, the committed states, the genesis state
  // (None when committing it fails).
  datatype Env = Env(batches: set<Batch>, exec: Executor, genesis: Option<State>)

  datatype ReplayError = MissingBatch | GenesisFailed | ExecutionFailed | IndexOutOfRange | HeadUnreadable

  function LookUp(env: Env, h: BatchHash): (r: Option<Batch>)
    ensures r.Some? ==> r.value in env.batches && BatchDigest(r.value) == h
    ensures r.None? ==> forall b :: b in env.batches ==> BatchDigest(b) != h
  {
    if h.BatchDigest? && h.batch in env.batches then Some(h.batch) else None
  }

  /** stateDBAvailableForBatch on a stored batch. */
  predicate Available(env: Env, states: set<State>, b: Batch) {
    b in env.batches && b.root in states
  }

  /** ExecuteBatch: on the parent's state, and accepted only if the recomputed batch has the hash of the given one. */
  function Executed(env: Env, states: set<State>, b: Batch): Option<set<State>> {
    match LookUp(env, b.parentHash)
    case None => None
    case Some(p) =>
      if p.root !in states then None
      else
        match env.exec(p.root, b)
        case None => None
        case Some(cb) => if BatchDigest(cb) != BatchDigest(b) then None else Some(states + {cb.root})
  }

  /** The first loop: the batches without available state from `b` downwards, newest first. */
  function ToReplay(env: Env, states: set<State>, b: Batch): (r: Option<seq<Batch>>)
    decreases b
  {
    if Available(env, states, b) then Some([])
    else if b.number == 0 then Some([b])
    else
      match LookUp(env, b.parentHash)
      case None => None
      case Some(p) =>
        match ToReplay(env, states, p)
        case None => None
        case Some(rest) => Some([b] + rest)
  }

  /** The second loop: the states committed when the batches are replayed from the last to the first. */
  function ReplayAll(env: Env, states: set<State>, list: seq<Batch>): (r: Result<set<State>, ReplayError>)
    decreases |list|
  {
    if list == [] then Ok(states)
    else
      match ReplayAll(env, states, list[1..])
      case Err(e) => Err(e)
      case Ok(s) => ReplayOne(env, s, list[0])
  }

  function ReplayOne(env: Env, states: set<State>, b: Batch): (r: Result<set<State>, ReplayError>) {
    if b.number == 0 then
      match env.genesis
      case None => Err(GenesisFailed)
      case Some(g) => Ok(states + {g})
    else
      match Executed(env, states, b)
      case None => Err(ExecutionFailed)
      case Some(s) => Ok(s)
  }

  /** replayBatchesToValidState from the head batch `b`. */
  function ReplayFrom(env: Env, states: set<State>, b: Batch): (r: Result<set<State>, ReplayError>) {
    match ToReplay(env, states, b)
    case None => Err(MissingBatch)
    case Some(list) => if list == [] then Err(IndexOutOfRange) else ReplayAll(env, states, list)
  }

  /* ---- What a state should be: the fold of execution from the genesis state ---- */

  function Fold(env: Env, b: Batch): (r: Option<State>)
    decreases b
  {
    if b.number == 0 then env.genesis
    else if b.parentHash.NoBatch? then None
    else
      match Fold(env, b.parentHash.batch)
      case None => None
      case Some(s) =>
        match env.exec(s, b)
        case None => None
        case Some(cb) => Some(cb.root)
  }

  /** The batch and all its ancestors are what recomputing them from the genesis state upwards gives. */
  ghost predicate Genuine(env: Env, b: Batch)
    decreases b
  {
    if b.number == 0 then env.genesis == Some(b.root)
    else
      && b.parentHash.BatchDigest? && Genuine(env, b.parentHash.batch)
      && Fold(env, b.parentHash.batch).Some? && env.exec(Fold(env, b.parentHash.batch).value, b) == Some(b)
  }

  /** The oldest batch to replay hangs on a batch whose state is available, or is a genesis batch. */
  ghost predicate Anchored(env: Env, states: set<State>, b: Batch) {
    b.number == 0 || (b.parentHash.BatchDigest? && Available(env, states, b.parentHash.batch))
  }

  /**
   The replay list is a contiguous parent chain of stored batches without available state, from the
   head down to a genesis batch or to a child of a batch with available state; it is empty exactly when
   the head's state is available.
   */
  lemma {:induction false} ReplayListShape(env: Env, states: set<State>, b: Batch)
    requires ToReplay(env, states, b).Some?
    ensures var list := ToReplay(env, states, b).value;
            && (list == [] <==> Available(env, states, b))
            && (list != [] ==> list[0] == b && Anchored(env, states, list[|list| - 1]))
            && (forall i :: 0 <= i < |list| ==> !Available(env, states, list[i]))
            && (forall i :: 0 <= i < |list| - 1 ==> list[i].parentHash == BatchDigest(list[i + 1]) && list[i].number > 0)
            && (forall i :: 0 < i < |list| ==> list[i] in env.batches)
    decreases b
  {
    if Available(env, states, b) || b.number == 0 {
    } else {
      ReplayListShape(env, states, b.parentHash.batch);
    }
  }

  /* ---- When the walk back succeeds ---- */

  predicate BatchAncestor(a: Batch, b: Batch) {
    a == b || (b.number > 0 && b.parentHash.BatchDigest? && BatchAncestor(a, b.parentHash.batch))
  }

  ghost function Depth(b: Batch): nat {
    if b.number > 0 && b.parentHash.BatchDigest? then Depth(b.parentHash.batch) + 1 else 0
  }

  lemma {:induction false} BatchAncestorIsLower(a: Batch, b: Batch)
    requires BatchAncestor(a, b)
    ensures Depth(a) <= Depth(b)
    decreases b
  {
    if a == b {
    } else {
      BatchAncestorIsLower(a, b.parentHash.batch);
    }
  }

  /** `a` is a genesis batch or has its state, and everything from it up to, but without, `b` is stored. */
  ghost predicate ReadsBackTo(env: Env, states: set<State>, a: Batch, b: Batch) {
    && BatchAncestor(a, b)
    && (a.number == 0 || (a in env.batches && a.root in states))
    && forall c :: BatchAncestor(c, b) && BatchAncestor(a, c) && c != b ==> c in env.batches
  }

  /** The batches below `b` can be read back far enough to replay from there. */
  ghost predicate ReadsBack(env: Env, states: set<State>, b: Batch) {
    exists a :: ReadsBackTo(env, states, a, b)
  }

  /** The walk back succeeds if and only if it finds every batch down to a genesis batch or an available state. */
  lemma {:induction false} WalkBackSucceedsIff(env: Env, states: set<State>, b: Batch)
    ensures ToReplay(env, states, b).Some? <==> ReadsBack(env, states, b)
    decreases b
  {
    if (b in env.batches && b.root in states) || b.number == 0 {
      OnlyItself(b);
      assert ReadsBackTo(env, states, b, b);
    } else if b.parentHash.BatchDigest? {
      var p := b.parentHash.batch;
      WalkBackSucceedsIff(env, states, p);
      if p in env.batches && ReadsBack(env, states, p) {
        var a :| ReadsBackTo(env, states, a, p);
        assert ReadsBackTo(env, states, a, b);
      }
      if ReadsBack(env, states, b) {
        var a :| ReadsBackTo(env, states, a, b);
        ParentReadsBack(env, states, a, b);
      }
    }
  }

  lemma {:induction false} OnlyItself(b: Batch)
    ensures forall c :: BatchAncestor(c, b) && BatchAncestor(b, c) ==> c == b
  {
    forall c | BatchAncestor(c, b) && BatchAncestor(b, c) ensures c == b {
      BatchAncestorIsLower(b, c);
      if c != b {
        BatchAncestorIsLower(c, b.parentHash.batch);
      }
    }
  }

  lemma {:induction false} ParentReadsBack(env: Env, states: set<State>, a: Batch, b: Batch)
    requires ReadsBackTo(env, states, a, b) && a != b
    ensures b.parentHash.batch in env.batches && ReadsBackTo(env, states, a, b.parentHash.batch)
  {
    var p := b.parentHash.batch;
    forall c | BatchAncestor(c, p) && BatchAncestor(a, c) ensures c in env.batches {
      BatchAncestorIsLower(c, p);
      assert BatchAncestor(c, b) && c != b;
    }
  }

  /** What replaying one batch commits, when it succeeds. */
  function RootOf(env: Env, b: Batch): set<State> {
    if b.number == 0 then (if env.genesis.Some? then {env.genesis.value} else {}) else {b.root}
  }

  /** A batch can be replayed: the genesis state can be committed, or recomputing it on its parent gives it back. */
  predicate Replayable(env: Env, b: Batch) {
    if b.number == 0 then env.genesis.Some?
    else b.parentHash.BatchDigest? && env.exec(b.parentHash.batch.root, b) == Some(b)
  }

  ghost function Roots(env: Env, list: seq<Batch>): set<State> {
    if list == [] then {} else Roots(env, list[1..]) + RootOf(env, list[0])
  }

  /** Every batch can be replayed, and a genesis batch below others names the genesis state. */
  ghost predicate AllReplayable(env: Env, list: seq<Batch>) {
    && (forall i :: 0 <= i < |list| ==> Replayable(env, list[i]))
    && (forall i :: 1 <= i < |list| && list[i].number == 0 ==> env.genesis == Some(list[i].root))
  }

  lemma {:induction false} AllReplayableStep(env: Env, b: Batch, rest: seq<Batch>)
    ensures AllReplayable(env, [b] + rest) <==>
              && Replayable(env, b) && AllReplayable(env, rest)
              && (rest != [] && rest[0].number == 0 ==> env.genesis == Some(rest[0].root))
  {
    var list := [b] + rest;
    assert forall i :: 0 <= i < |rest| ==> rest[i] == list[i + 1];
    assert forall i :: 1 <= i < |list| ==> list[i] == rest[i - 1];
    assert list[0] == b;
    if AllReplayable(env, list) {
      forall i | 0 <= i < |rest| ensures Replayable(env, rest[i]) {
        assert Replayable(env, list[i + 1]);
      }
      forall i | 0 <= i < |rest| && rest[i].number == 0 ensures env.genesis == Some(rest[i].root) {
        assert list[i + 1].number == 0;
      }
    }
  }

  /**
   Success of the replay, exactly: every batch of the list leads from its parent's root to its own root,
   and if a genesis batch is replayed below others, it names the genesis state.  On success precisely
   the states of the list have been added.
   */
  lemma {:induction false} ReplaySucceedsIff(env: Env, states: set<State>, b: Batch)
    requires b in env.batches && ToReplay(env, states, b).Some?
    ensures var list := ToReplay(env, states, b).value;
            && (ReplayAll(env, states, list).Ok? <==> AllReplayable(env, list))
            && (ReplayAll(env, states, list).Ok? ==> ReplayAll(env, states, list).value == states + Roots(env, list))
    decreases b
  {
    if Available(env, states, b) || b.number == 0 {
    } else {
      var p := b.parentHash.batch;
      var list, rest := ToReplay(env, states, b).value, ToReplay(env, states, p).value;
      assert list == [b] + rest && list[1..] == rest;
      ReplaySucceedsIff(env, states, p);
      ReplayListShape(env, states, p);
      AllReplayableStep(env, b, rest);
      assert AllReplayable(env, rest) && rest != [] ==> Replayable(env, rest[0]);
      hide AllReplayable;
      if ReplayAll(env, states, rest).Ok? {
        ParentHasState(env, states, p, rest);
      }
    }
  }

  /** After the older batches the parent's root is committed, unless it is a genesis batch naming another state. */
  lemma {:induction false} ParentHasState(env: Env, states: set<State>, p: Batch, rest: seq<Batch>)
    requires rest == [] ==> p.root in states
    requires rest != [] ==> rest[0] == p && p.root !in states && (|rest| > 1 ==> p.number > 0)
    requires rest != [] && p.number == 0 ==> env.genesis.Some?
    ensures p.root in states + Roots(env, rest) <==>
              !(rest != [] && p.number == 0 && env.genesis != Some(p.root))
  {
  }

  /**
   Success makes the head's state available, except when the head is a genesis batch that does not name
   the genesis state: the genesis state is then committed unchecked.
   */
  lemma {:induction false} HeadBecomesAvailableIff(env: Env, states: set<State>, b: Batch)
    requires b in env.batches && ReplayFrom(env, states, b).Ok?
    ensures var s := ReplayFrom(env, states, b).value;
            && states <= s
            && (Available(env, s, b) <==> b.number > 0 || env.genesis == Some(b.root))
  {
    ReplayListShape(env, states, b);
    ReplaySucceedsIff(env, states, b);
  }

  /** The error of a replay that fails: the genesis state comes first, and only the oldest batch can need it. */
  ghost function FailureOf(env: Env, list: seq<Batch>): ReplayError
    requires list != []
  {
    if list[|list| - 1].number == 0 && env.genesis.None? then GenesisFailed else ExecutionFailed
  }

  lemma {:induction false} ReplayErrorIs(env: Env, states: set<State>, b: Batch)
    requires ToReplay(env, states, b).Some? && ToReplay(env, states, b).value != []
    ensures var list := ToReplay(env, states, b).value;
            ReplayAll(env, states, list).Err? ==> ReplayAll(env, states, list).error == FailureOf(env, list)
    decreases b
  {
    var list := ToReplay(env, states, b).value;
    if b.number == 0 {
      assert list == [b];
    } else {
      var p := b.parentHash.batch;
      assert list[1..] == ToReplay(env, states, p).value;
      if list[1..] != [] {
        assert list[1..][|list[1..]| - 1] == list[|list| - 1];
        ReplayErrorIs(env, states, p);
        OlderFirst(env, states, p);
      }
    }
  }

  /** If the genesis state is needed and cannot be committed, the replay fails there. */
  lemma {:induction false} OlderFirst(env: Env, states: set<State>, b: Batch)
    requires ToReplay(env, states, b).Some? && ToReplay(env, states, b).value != []
    ensures var list := ToReplay(env, states, b).value;
            FailureOf(env, list) == GenesisFailed ==> ReplayAll(env, states, list).Err?
    decreases b
  {
    var list := ToReplay(env, states, b).value;
    if b.number == 0 {
      assert list == [b] && list[1..] == [];
    } else {
      var p := b.parentHash.batch;
      assert list[1..] == ToReplay(env, states, p).value;
      if list[1..] != [] {
        assert list[1..][|list[1..]| - 1] == list[|list| - 1];
        OlderFirst(env, states, p);
      }
    }
  }

  /**
   Every outcome of replayBatchesToValidState, told from what is stored: a missing batch, an empty list, success
   with exactly the states of the list added, or which of the two replay errors.
   */
  ghost predicate ReplayOutcome(env: Env, states: set<State>, b: Batch, r: Result<set<State>, ReplayError>) {
    if !ReadsBack(env, states, b) then r == Err(MissingBatch)
    else if b in env.batches && b.root in states then r == Err(IndexOutOfRange)
    else
      WalkBackSucceedsIff(env, states, b);
      ReplayListShape(env, states, b);
      var list := ToReplay(env, states, b).value;
      r == if AllReplayable(env, list) then Ok(states + Roots(env, list)) else Err(FailureOf(env, list))
  }

  /** On success the new states are the old ones and those the batches from the head down to the anchor name. */
  lemma {:induction false} SuccessAddsStates(env: Env, states: set<State>, b: Batch)
    requires b in env.batches && ReplayFrom(env, states, b).Ok?
    ensures var list := ToReplay(env, states, b).value;
            forall s :: s in ReplayFrom(env, states, b).value <==>
                          s in states || exists c :: c in list && Adds(env, c, s)
  {
    ReplaySucceedsIff(env, states, b);
    RootsAreAdded(env, ToReplay(env, states, b).value);
  }

  lemma {:induction false} ReplayFromOutcome(env: Env, states: set<State>, b: Batch)
    requires b in env.batches
    ensures ReplayOutcome(env, states, b, ReplayFrom(env, states, b))
  {
    WalkBackSucceedsIff(env, states, b);
    if ReadsBack(env, states, b) {
      ReplayListShape(env, states, b);
      ReplaySucceedsIff(env, states, b);
      if ToReplay(env, states, b).value != [] {
        ReplayErrorIs(env, states, b);
      }
    }
  }

  /** The state the replay starts from is genuine, or the replay starts at a genesis batch. */
  ghost predicate GenuineBase(env: Env, list: seq<Batch>)
    requires list != []
  {
    var last := list[|list| - 1];
    last.number > 0 ==> last.parentHash.BatchDigest? && Genuine(env, last.parentHash.batch)
  }

  /**
   Recovery is correct and complete.  For a head above genesis whose chain can be read back to a genuine
   available state or to genesis, the replay succeeds exactly when the head is genuine: then every state
   on its chain is the fold of execution from the genesis state.
   */
  lemma {:induction false} ReplaySucceedsIffGenuine(env: Env, states: set<State>, b: Batch)
    requires b in env.batches && b.number > 0 && ToReplay(env, states, b).Some?
    requires ToReplay(env, states, b).value != []
    requires GenuineBase(env, ToReplay(env, states, b).value)
    ensures ReplayFrom(env, states, b).Ok? <==> Genuine(env, b)
  {
    ReplaySucceedsIff(env, states, b);
    ListIsGenuineIff(env, states, b);
  }

  /**
   What a restart promises for a head without available state whose chain can be read back to a genuine base:
   it succeeds exactly when the head is genuine, and then every ancestor's state is the fold of execution.
   */
  ghost predicate RecoversIffGenuine(env: Env, states: set<State>, b: Batch, r: Result<(), ReplayError>) {
    var list := ToReplay(env, states, b);
    b.number > 0 && list.Some? && list.value != [] && GenuineBase(env, list.value) ==>
      && (r.Ok? <==> Genuine(env, b))
      && (r.Ok? ==> forall a :: BatchAncestor(a, b) ==> Fold(env, a) == Some(a.root))
  }

  lemma {:induction false} ReplayRecoversIffGenuine(env: Env, states: set<State>, b: Batch)
    requires b in env.batches
    ensures RecoversIffGenuine(env, states, b, Done(ReplayFrom(env, states, b)))
  {
    var list := ToReplay(env, states, b);
    if b.number > 0 && list.Some? && list.value != [] && GenuineBase(env, list.value) {
      ReplaySucceedsIffGenuine(env, states, b);
      forall a | Genuine(env, b) && BatchAncestor(a, b) ensures Fold(env, a) == Some(a.root) {
        GenuineChainIsFold(env, a, b);
      }
    }
  }

  function Done(r: Result<set<State>, ReplayError>): Result<(), ReplayError> {
    match r
    case Ok(_) => Ok(())
    case Err(e) => Err(e)
  }

  lemma {:induction false} ListIsGenuineIff(env: Env, states: set<State>, b: Batch)
    requires b.number > 0 && ToReplay(env, states, b).Some? && ToReplay(env, states, b).value != []
    requires GenuineBase(env, ToReplay(env, states, b).value)
    ensures AllReplayable(env, ToReplay(env, states, b).value) <==> Genuine(env, b)
    decreases b
  {
    var p := b.parentHash.batch;
    var list, rest := ToReplay(env, states, b).value, ToReplay(env, states, p).value;
    assert list == [b] + rest;
    ReplayListShape(env, states, p);
    AllReplayableStep(env, b, rest);
    if rest == [] {
    } else {
      assert rest[|rest| - 1] == list[|list| - 1];
      if p.number == 0 {
        assert rest == [p];
      } else {
        ListIsGenuineIff(env, states, p);
      }
    }
    if Genuine(env, p) {
      GenuineChainIsFold(env, p, p);
    }
  }

  lemma {:induction false} GenuineChainIsFold(env: Env, a: Batch, b: Batch)
    requires Genuine(env, b) && BatchAncestor(a, b)
    ensures Genuine(env, a) && Fold(env, a) == Some(a.root)
    decreases b
  {
    if a != b {
      GenuineChainIsFold(env, a, b.parentHash.batch);
    } else if b.number == 0 {
    } else {
      GenuineChainIsFold(env, b.parentHash.batch, b.parentHash.batch);
    }
  }

  /* ---- How far a replay gets ---- */

  /** The part of the list from position `k` on was replayed, and the batch before it could not be. */
  ghost predicate ReplayedDownTo(env: Env, states: set<State>, list: seq<Batch>, k: nat, states': set<State>) {
    && k <= |list|
    && AllReplayable(env, list[k..]) && states' == states + Roots(env, list[k..])
    && (k > 0 ==> !AllReplayable(env, list[k - 1..]))
  }

  lemma {:induction false} SuffixIsReplayList(env: Env, states: set<State>, b: Batch, k: nat)
    requires ToReplay(env, states, b).Some? && k < |ToReplay(env, states, b).value|
    ensures var list := ToReplay(env, states, b).value; ToReplay(env, states, list[k]) == Some(list[k..])
    decreases b
  {
    var list := ToReplay(env, states, b).value;
    if k == 0 {
      ReplayListShape(env, states, b);
      assert list[0..] == list;
    } else {
      var p := b.parentHash.batch;
      assert list[1..] == ToReplay(env, states, p).value;
      SuffixIsReplayList(env, states, p, k - 1);
      assert list[1..][k - 1..] == list[k..];
    }
  }

  /** The states after replaying the list from position `k` on, or that it cannot be replayed from there. */
  lemma {:induction false} SuffixReplay(env: Env, states: set<State>, b: Batch, k: nat)
    requires b in env.batches && ToReplay(env, states, b).Some? && k <= |ToReplay(env, states, b).value|
    ensures var rest := ToReplay(env, states, b).value[k..];
            && (ReplayAll(env, states, rest).Ok? <==> AllReplayable(env, rest))
            && (ReplayAll(env, states, rest).Ok? ==> ReplayAll(env, states, rest).value == states + Roots(env, rest))
  {
    var list := ToReplay(env, states, b).value;
    if k == |list| {
      assert list[k..] == [];
    } else {
      ReplayListShape(env, states, b);
      SuffixIsReplayList(env, states, b, k);
      ReplaySucceedsIff(env, states, list[k]);
    }
  }

  /** The states committed just before the batch at position `i` of the list is replayed. */
  ghost function StatesBefore(env: Env, states: set<State>, list: seq<Batch>, i: nat): set<State>
    requires i < |list|
  {
    states + Roots(env, list[i + 1..])
  }

  lemma {:induction false} RootsHold(env: Env, list: seq<Batch>, s: State)
    ensures s in Roots(env, list) <==> exists i :: 0 <= i < |list| && s in RootOf(env, list[i])
    decreases |list|
  {
    if list == [] {
    } else {
      RootsHold(env, list[1..], s);
      if s in RootOf(env, list[0]) {
        assert s in RootOf(env, list[0]);
      } else if s in Roots(env, list[1..]) {
        var i :| 0 <= i < |list[1..]| && s in RootOf(env, list[1..][i]);
        assert s in RootOf(env, list[i + 1]);
      } else {
        forall i | 0 <= i < |list| ensures s !in RootOf(env, list[i]) {
          if i > 0 {
            assert list[1..][i - 1] == list[i];
          }
        }
      }
    }
  }

  /** The state a replayed batch adds: the genesis state for a genesis batch, else the one it names. */
  ghost predicate Adds(env: Env, b: Batch, s: State) {
    if b.number == 0 then env.genesis == Some(s) else b.root == s
  }

  /** Only the states of replayed batches are added, and all of them. */
  lemma {:induction false} RootsAreAdded(env: Env, list: seq<Batch>)
    ensures forall s :: s in Roots(env, list) <==> exists b :: b in list && Adds(env, b, s)
  {
    forall s ensures s in Roots(env, list) <==> exists b :: b in list && Adds(env, b, s) {
      RootsHold(env, list, s);
      if s in Roots(env, list) {
        var i :| 0 <= i < |list| && s in RootOf(env, list[i]);
        assert list[i] in list && Adds(env, list[i], s);
      }
    }
  }

  /**
   Replaying only what is missing.  None of the batches had its state available at the start; during a
   successful replay none is replayed whose state is available by then exactly when their roots differ.
   */
  lemma {:induction false} ReplaysOnlyMissingIff(env: Env, states: set<State>, b: Batch)
    requires b in env.batches && ReplayFrom(env, states, b).Ok?
    ensures var list := ToReplay(env, states, b).value;
            && (forall i :: 0 <= i < |list| ==> list[i].root !in states)
            && ((forall i :: 0 <= i < |list| ==> list[i].root !in StatesBefore(env, states, list, i)) <==>
                (forall i, j :: 0 <= i < j < |list| ==> list[i].root != list[j].root))
  {
    var list := ToReplay(env, states, b).value;
    ReplayListShape(env, states, b);
    ReplaySucceedsIff(env, states, b);
    NamesItsRoot(env, list);
    hide Roots, StatesBefore, ToReplay, ReplayAll, AllReplayable, LookUp, RootOf;
    forall i | 0 <= i < |list|
      ensures list[i].root in StatesBefore(env, states, list, i) <==> Repeated(list, i)
    {
      RepeatedIff(env, states, list, i);
    }
    if forall i :: 0 <= i < |list| ==> list[i].root !in StatesBefore(env, states, list, i) {
      forall i, j | 0 <= i < j < |list| ensures list[i].root != list[j].root {
        assert !Repeated(list, i);
      }
    }
  }

  lemma {:induction false} NamesItsRoot(env: Env, list: seq<Batch>)
    requires AllReplayable(env, list)
    ensures forall j :: 1 <= j < |list| ==> RootOf(env, list[j]) == {list[j].root}
  {
  }

  ghost predicate Repeated(list: seq<Batch>, i: nat)
    requires i < |list|
  {
    exists j :: i < j < |list| && list[i].root == list[j].root
  }

  lemma {:induction false} RepeatedIff(env: Env, states: set<State>, list: seq<Batch>, i: nat)
    requires i < |list| && list[i].root !in states
    requires forall j :: 1 <= j < |list| ==> RootOf(env, list[j]) == {list[j].root}
    ensures list[i].root in StatesBefore(env, states, list, i) <==> Repeated(list, i)
  {
    hide Roots;
    var older := list[i + 1..];
    RootsHold(env, older, list[i].root);
    if list[i].root in Roots(env, older) {
      var k :| 0 <= k < |older| && list[i].root in RootOf(env, older[k]);
      assert older[k] == list[i + 1 + k];
    }
    if Repeated(list, i) {
      var j :| i < j < |list| && list[i].root == list[j].root;
      assert older[j - i - 1] == list[j];
    }
  }

  lemma {:induction false} GrowsStates(env: Env, states: set<State>, b: Batch)
    ensures Executed(env, states, b).Some? ==> states <= Executed(env, states, b).value
  {
  }

  lemma {:induction false} StopsAt(
    env: Env, states: set<State>, b: Batch, list: seq<Batch>, i: nat, states': set<State>)
    requires b in env.batches && ToReplay(env, states, b) == Some(list) && i < |list|
    requires ReplayAll(env, states, list[i..]).Err? && ReplayAll(env, states, list[i + 1..]) == Ok(states')
    ensures ReplayedDownTo(env, states, list, i + 1, states')
  {
    SuffixReplay(env, states, b, i);
    SuffixReplay(env, states, b, i + 1);
  }

  lemma {:induction false} Finishes(env: Env, states: set<State>, b: Batch, list: seq<Batch>, states': set<State>)
    requires b in env.batches && ToReplay(env, states, b) == Some(list) && ReplayAll(env, states, list) == Ok(states')
    ensures ReplayedDownTo(env, states, list, 0, states')
  {
    assert list[0..] == list;
    SuffixReplay(env, states, b, 0);
  }

  lemma {:induction false} EmptyReplay(env: Env, states: set<State>)
    ensures ReplayedDownTo(env, states, [], 0, states)
  {
  }

  /** An executor under which no batch changes the state. */
  function KeepState(s: State, b: Batch): Option<Batch> {
    Some(b.(root := s))
  }

  /** An empty batch keeps its parent's root: both are listed, and the second is executed though its state is there. */
  lemma {:induction false} EmptyBatchIsReplayedNeedlessly()
    ensures var g := Batch(NoBatch, 0, State(0), []);
            var b1 := Batch(BatchDigest(g), 1, State(0), []);
            var env := Env({g, b1}, KeepState, Some(State(0)));
            && ReplayFrom(env, {}, b1).Ok? && ToReplay(env, {}, b1) == Some([b1, g])
            && b1.root in StatesBefore(env, {}, [b1, g], 0)
  {
    var g := Batch(NoBatch, 0, State(0), []);
    var b1 := Batch(BatchDigest(g), 1, State(0), []);
    var env := Env({g, b1}, KeepState, Some(State(0)));
    assert [b1, g][1..] == [g] && [g][1..] == [] && [b1] + [g] == [b1, g];
    assert ToReplay(env, {}, g) == Some([g]);
    assert ToReplay(env, {}, b1) == Some([b1, g]);
    var none: set<State> := {};
    assert none + {State(0)} == {State(0)};
    assert ReplayAll(env, none, [g]) == ReplayOne(env, none, g);
    assert ReplayAll(env, {}, [b1, g]) == ReplayOne(env, {State(0)}, b1);
    assert Roots(env, [g]) == {State(0)};
  }

  /* ---- The storage and the two functions ---- */

  function Onto(done: seq<Batch>, rest: Option<seq<Batch>>): (r: Option<seq<Batch>>)
    ensures done == [] ==> r == rest
    ensures rest == Some([]) ==> r == Some(done)
  {
    if rest.Some? then
      assert [] + rest.value == rest.value && done + [] == done;
      Some(done + rest.value)
    else None
  }

  lemma {:induction false} OntoStep(done: seq<Batch>, b: Batch, rest: Option<seq<Batch>>)
    ensures Onto(done + [b], rest) == Onto(done, Onto([b], rest))
  {
    if rest.Some? {
      assert done + [b] + rest.value == done + ([b] + rest.value);
    }
  }

  /** A method's result together with the states it leaves on success. */
  function Reported(r: Result<(), ReplayError>, states: set<State>): Result<set<State>, ReplayError> {
    match r
    case Ok(_) => Ok(states)
    case Err(e) => Err(e)
  }

  datatype HeadRead = HeadBatch(batch: Batch) | NoHead | ReadError

  /** The part of the enclave's storage used at restart. */
  class Storage {
    var batchTable: map<BatchHash, Batch>
    var head: HeadRead
    var states: set<State>

    ghost predicate Valid()
      reads this
    {
      && (forall h :: h in batchTable ==> BatchDigest(batchTable[h]) == h)
      && (head.HeadBatch? ==> BatchDigest(head.batch) in batchTable)
    }

    ghost function EnvWith(exec: Executor, genesis: Option<State>): Env
      reads this
    {
      Env(batchTable.Values, exec, genesis)
    }

    method FetchBatch(h: BatchHash, ghost env: Env) returns (r: Option<Batch>)
      requires Valid() && env.batches == batchTable.Values
      ensures r == LookUp(env, h)
    {
      if h in batchTable {
        assert batchTable[h] in batchTable.Values;
        r := Some(batchTable[h]);
      } else {
        r := None;
      }
    }

    /** CreateStateDB succeeds: the batch is stored and its root has been committed. */
    method StateDBAvailableForBatch(b: Batch, ghost env: Env) returns (yes: bool)
      requires Valid() && env.batches == batchTable.Values
      ensures yes == Available(env, states, b)
      ensures yes <==> BatchDigest(b) in batchTable && b.root in states
    {
      var stored := FetchBatch(BatchDigest(b), env);
      yes := stored.Some? && b.root in states;
    }

    method ExecuteBatch(b: Batch, exec: Executor, ghost env: Env) returns (ok: bool)
      requires Valid() && env.batches == batchTable.Values && env.exec == exec
      modifies this`states
      ensures match Executed(env, old(states), b)
              case None => !ok && states == old(states)
              case Some(s) => ok && states == s
    {
      var parent := FetchBatch(b.parentHash, env);
      if parent.None? || parent.value.root !in states {
        return false;
      }
      var computed := exec(parent.value.root, b);
      if computed.None? || BatchDigest(computed.value) != BatchDigest(b) {
        return false;
      }
      states := states + {computed.value.root};
      ok := true;
    }

    /** The loop of replayBatchesToValidState that walks back from the head. */
    method CollectBatches(start: Batch, ghost env: Env) returns (list: Option<seq<Batch>>)
      requires Valid() && env.batches == batchTable.Values
      ensures list == ToReplay(env, states, start)
      ensures list.Some? <==> ReadsBack(env, states, start)
    {
      WalkBackSucceedsIff(env, states, start);
      var batchesToReplay := [];
      var from := start;
      while true
        invariant ToReplay(env, states, start) == Onto(batchesToReplay, ToReplay(env, states, from))
        decreases from
      {
        var available := StateDBAvailableForBatch(from, env);
        if available {
          break;
        }
        if from.number == 0 {
          batchesToReplay := batchesToReplay + [from];
          break;
        }
        var parent := FetchBatch(from.parentHash, env);
        if parent.None? {
          return None;
        }
        OntoStep(batchesToReplay, from, ToReplay(env, states, parent.value));
        batchesToReplay := batchesToReplay + [from];
        from := parent.value;
      }
      list := Some(batchesToReplay);
    }

    /** The loop of replayBatchesToValidState that replays the batches collected from the head `b` down. */
    method ReplayCollected(batchesToReplay: seq<Batch>, exec: Executor, genesis: Option<State>, ghost b: Batch)
      returns (r: Result<(), ReplayError>)
      requires Valid() && b in batchTable.Values
      requires ToReplay(EnvWith(exec, genesis), states, b) == Some(batchesToReplay)
      modifies this`states
      ensures Valid() && old(states) <= states
      ensures match ReplayAll(EnvWith(exec, genesis), old(states), batchesToReplay)
              case Ok(s) => r == Ok(()) && states == s
              case Err(e) => r == Err(e)
      ensures exists k :: ReplayedDownTo(EnvWith(exec, genesis), old(states), batchesToReplay, k, states)
    {
      hide ReplayedDownTo, ToReplay, Executed;
      ghost var env := EnvWith(exec, genesis);
      var i := |batchesToReplay|;
      while i > 0
        invariant 0 <= i <= |batchesToReplay|
        invariant ReplayAll(env, old(states), batchesToReplay[i..]) == Ok(states)
        invariant old(states) <= states
      {
        i := i - 1;
        var batch := batchesToReplay[i];
        assert batchesToReplay[i..][1..] == batchesToReplay[i + 1..];
        if ReplayAll(env, old(states), batchesToReplay[i..]).Err? {
          FailureSpreads(env, old(states), batchesToReplay, i);
          StopsAt(env, old(states), b, batchesToReplay, i, states);
        }
        if batch.number == 0 {
          if genesis.None? {
            return Err(GenesisFailed);
          }
          states := states + {genesis.value};
        } else {
          GrowsStates(env, states, batch);
          var ok := ExecuteBatch(batch, exec, env);
          if !ok {
            return Err(ExecutionFailed);
          }
        }
      }
      assert batchesToReplay[0..] == batchesToReplay;
      Finishes(env, old(states), b, batchesToReplay, states);
      r := Ok(());
    }

    /** go/enclave/enclave.go, replayBatchesToValidState. */
    method ReplayBatchesToValidState(exec: Executor, genesis: Option<State>) returns (r: Result<(), ReplayError>)
      requires Valid()
      modifies this`states
      ensures Valid() && old(states) <= states
      ensures !head.HeadBatch? ==> r == Err(HeadUnreadable) && states == old(states)
      ensures head.HeadBatch? ==>
                match ReplayFrom(EnvWith(exec, genesis), old(states), head.batch)
                case Ok(s) => r == Ok(()) && states == s
                case Err(e) => r == Err(e)
      ensures head.HeadBatch? ==>
                ReplayOutcome(EnvWith(exec, genesis), old(states), head.batch, Reported(r, states))
      ensures head.HeadBatch? ==>
                match ToReplay(EnvWith(exec, genesis), old(states), head.batch)
                case None => states == old(states)
                case Some(list) => exists k :: ReplayedDownTo(EnvWith(exec, genesis), old(states), list, k, states)
    {
      if !head.HeadBatch? {
        return Err(HeadUnreadable);
      }
      hide ReplayOutcome, ReplayedDownTo, ToReplay, ReplayAll;
      ghost var env := EnvWith(exec, genesis);
      assert head.batch in env.batches;
      ReplayFromOutcome(env, states, head.batch);
      var collected := CollectBatches(head.batch, env);
      if collected.None? {
        return Err(MissingBatch);
      }
      if |collected.value| == 0 {
        EmptyReplay(env, states);
        return Err(IndexOutOfRange);
      }
      r := ReplayCollected(collected.value, exec, genesis, head.batch);
      assert EnvWith(exec, genesis) == env;
      assert ReplayFrom(env, old(states), head.batch) == Reported(r, states);
    }

    /** go/enclave/enclave.go, restoreStateDBCache: its guard keeps the replay list from being empty. */
    method RestoreStateDBCache(exec: Executor, genesis: Option<State>) returns (r: Result<(), ReplayError>)
      requires Valid()
      modifies this`states
      ensures Valid() && old(states) <= states
      ensures r != Err(IndexOutOfRange)
      ensures head.NoHead? ==> r == Ok(()) && states == old(states)
      ensures head.ReadError? ==> r == Err(HeadUnreadable) && states == old(states)
      ensures head.HeadBatch? && Available(EnvWith(exec, genesis), old(states), head.batch) ==>
                r == Ok(()) && states == old(states)
      ensures head.HeadBatch? && !Available(EnvWith(exec, genesis), old(states), head.batch) ==>
                match ReplayFrom(EnvWith(exec, genesis), old(states), head.batch)
                case Ok(s) => r == Ok(()) && states == s
                case Err(e) => r == Err(e)
      ensures r == Err(MissingBatch) <==>
                head.HeadBatch? && !ReadsBack(EnvWith(exec, genesis), old(states), head.batch)
      ensures head.HeadBatch? && !Available(EnvWith(exec, genesis), old(states), head.batch) ==>
                ReplayOutcome(EnvWith(exec, genesis), old(states), head.batch, Reported(r, states))
      ensures head.HeadBatch? && r == Ok(()) && head.batch.number > 0 ==>
                Available(EnvWith(exec, genesis), states, head.batch)
      ensures head.HeadBatch? && !Available(EnvWith(exec, genesis), old(states), head.batch) ==>
                RecoversIffGenuine(EnvWith(exec, genesis), old(states), head.batch, r) &&
                match ToReplay(EnvWith(exec, genesis), old(states), head.batch)
                case None => states == old(states)
                case Some(list) => exists k :: ReplayedDownTo(EnvWith(exec, genesis), old(states), list, k, states)
    {
      if head.NoHead? {
        return Ok(());
      }
      if head.ReadError? {
        return Err(HeadUnreadable);
      }
      ghost var env := EnvWith(exec, genesis);
      assert head.batch in env.batches;
      WalkBackSucceedsIff(env, states, head.batch);
      var available := StateDBAvailableForBatch(head.batch, env);
      if available {
        return Ok(());
      }
      if ToReplay(env, states, head.batch).Some? {
        ReplayListShape(env, states, head.batch);
        ReplayRecoversIffGenuine(env, states, head.batch);
      }
      r := ReplayBatchesToValidState(exec, genesis);
      if r.Ok? {
        HeadBecomesAvailableIff(env, old(states), head.batch);
      } else {
        ReplayNeverIndexes(env, old(states), ToReplay(env, old(states), head.batch));
      }
    }
  }

  /** A failure while replaying an older batch is the failure of the whole replay. */
  lemma {:induction false} FailureSpreads(env: Env, states: set<State>, list: seq<Batch>, i: nat)
    requires i < |list| && ReplayAll(env, states, list[i..]).Err?
    ensures ReplayAll(env, states, list) == ReplayAll(env, states, list[i..])
    decreases i
  {
    if i > 0 {
      assert list[i - 1..][1..] == list[i..];
      FailureSpreads(env, states, list, i - 1);
    } else {
      assert list[0..] == list;
    }
  }

  lemma {:induction false} ReplayNeverIndexes(env: Env, states: set<State>, list: Option<seq<Batch>>)
    ensures list.Some? ==> ReplayAll(env, states, list.value) != Err(IndexOutOfRange)
    decreases if list.Some? then |list.value| else 0
  {
    if list.None? || list.value == [] {
    } else {
      ReplayNeverIndexes(env, states, Some(list.value[1..]));
    }
  }
}
