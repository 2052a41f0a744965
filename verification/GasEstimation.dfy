/** Gas estimation in the enclave: the caps on the gas limit, and the binary search below them. */
module GasEstimation {
  import opened Wrappers

  const TX_GAS: nat := 21000                        // params.TxGas
  const LOW_START: nat := TX_GAS - 1                // where the search starts, one below the least gas
  const UINT64: nat := 0x1_0000_0000_0000_0000
  const GLOBAL_GAS_CAP: nat := 5_000_000_000

  /* ---- The call the search probes ---- */

  datatype VmError = OutOfGas | OtherVmError(code: nat)

  // core.ExecutionResult: the EVM error if any, and the revert data if the EVM reverted.
  datatype ExecutionResult = ExecutionResult(err: Option<VmError>, revert: seq<nat>)

  datatype CallOutcome =
    | Executed(result: ExecutionResult)
    | IntrinsicGas             // ErrIntrinsicGas
    | Rejected(error: nat)     // any other error: never accepted, however much gas

  // ObsCallAtBlock on the given arguments, as a function of the gas limit.
  type Oracle = nat -> CallOutcome

  datatype GasError =
    | BothFeeKinds
    | NoBalance
    | InsufficientFunds
    | ConsensusError(error: nat)
    | Reverted(data: seq<nat>)
    | Failed(err: VmError)
    | ExceedsAllowance(cap: nat)

  datatype Probe = Probe(failed: bool, result: Option<ExecutionResult>, error: Option<nat>)

  /** isGasEnough */
  function IsGasEnough(call: Oracle, gas: nat): Probe {
    match call(gas)
    case Rejected(e) => Probe(true, None, Some(e))
    case IntrinsicGas => Probe(true, None, None)
    case Executed(r) => Probe(r.err.Some?, Some(r), None)
  }

  predicate Succeeds(call: Oracle, gas: nat) {
    call(gas).Executed? && call(gas).result.err.None?
  }

  predicate FailsAt(call: Oracle, gas: nat) {
    !Succeeds(call, gas) && !call(gas).Rejected?
  }

  /* ---- The caps ---- */

  datatype Args = Args(
    gas: Option<nat>, gasPrice: Option<nat>, maxFeePerGas: Option<nat>, maxPriorityFeePerGas: Option<nat>,
    value: Option<nat>)

  /** The limits uint64 puts on the arguments. */
  predicate ValidArgs(args: Args) {
    args.gas.Some? ==> args.gas.value < UINT64
  }

  function ValueOf(args: Args): nat {
    if args.value.Some? then args.value.value else 0
  }

  function FeeCap(args: Args): Result<nat, GasError> {
    if args.gasPrice.Some? && (args.maxFeePerGas.Some? || args.maxPriorityFeePerGas.Some?) then Err(BothFeeKinds)
    else if args.gasPrice.Some? then Ok(args.gasPrice.value)
    else if args.maxFeePerGas.Some? then Ok(args.maxFeePerGas.value)
    else Ok(0)
  }

  function Requested(args: Args): nat {
    if args.gas.Some? && args.gas.value >= TX_GAS then args.gas.value else GLOBAL_GAS_CAP
  }

  function Allowance(available: nat, feeCap: nat): nat
    requires feeCap > 0
  {
    available / feeCap
  }

  /** `hi` lowered to what the balance can pay for; `balance` is None when it cannot be fetched. */
  function Funded(args: Args, feeCap: nat, balance: Option<nat>, hi: nat): Result<nat, GasError> {
    if feeCap == 0 then Ok(hi)
    else if balance.None? then Err(NoBalance)
    else if args.value.Some? && args.value.value >= balance.value then Err(InsufficientFunds)
    else
      var allowance := Allowance(balance.value - ValueOf(args), feeCap);
      Ok(if allowance < UINT64 && hi > allowance then allowance else hi)
  }

  /** The highest gas limit of the search. */
  function Ceiling(args: Args, balance: Option<nat>, gasCap: nat): (r: Result<nat, GasError>) {
    match FeeCap(args)
    case Err(e) => Err(e)
    case Ok(feeCap) =>
      match Funded(args, feeCap, balance, Requested(args))
      case Err(e) => Err(e)
      case Ok(hi) => Ok(if gasCap != 0 && hi > gasCap then gasCap else hi)
  }

  lemma {:induction false} DivisionBound(x: nat, d: nat, q: nat)
    requires d > 0
    ensures q <= x / d <==> q * d <= x
  {
    assert x == (x / d) * d + x % d;
    if q <= x / d {
      assert q * d <= (x / d) * d;
    } else {
      assert q * d >= (x / d + 1) * d == (x / d) * d + d;
    }
  }

  /** `p` is the price per unit of gas the arguments offer. */
  ghost predicate Price(args: Args, p: nat) {
    args.gasPrice == Some(p) || (args.gasPrice.None? && args.maxFeePerGas == Some(p))
  }

  /** At a price above zero, `gas` can be paid for together with the value sent. */
  ghost predicate Affordable(args: Args, balance: Option<nat>, gas: nat) {
    forall p: nat :: Price(args, p) && p > 0 ==>
      balance.Some? && gas * p + (if args.value.Some? then args.value.value else 0) <= balance.value
  }

  /** The request counts only from 21000 up; otherwise the global cap does. */
  ghost predicate WithinRequest(args: Args, gas: nat) {
    if args.gas.Some? && args.gas.value >= TX_GAS then gas <= args.gas.value else gas <= GLOBAL_GAS_CAP
  }

  /**
   The ceiling, exactly: the gas limits up to it are those within the request, within the gas cap if there is
   one, and affordable, also when the allowance exceeds uint64 and is not compared.
   */
  lemma {:induction false} CeilingIsExact(args: Args, balance: Option<nat>, gasCap: nat, g: nat)
    requires ValidArgs(args) && Ceiling(args, balance, gasCap).Ok?
    ensures g <= Ceiling(args, balance, gasCap).value <==>
              WithinRequest(args, g) && (gasCap != 0 ==> g <= gasCap) && Affordable(args, balance, g)
  {
    var feeCap := FeeCap(args).value;
    assert forall p: nat :: Price(args, p) && p > 0 ==> p == feeCap;
    if feeCap > 0 {
      assert Price(args, feeCap);
      var available: nat := balance.value - ValueOf(args);
      DivisionBound(available, feeCap, g);
      assert g <= Allowance(available, feeCap) <==> Affordable(args, balance, g);
    }
  }

  ghost predicate HasPrice(args: Args) {
    exists p: nat :: Price(args, p) && p > 0
  }

  ghost predicate BothKinds(args: Args) {
    args.gasPrice.Some? && (args.maxFeePerGas.Some? || args.maxPriorityFeePerGas.Some?)
  }

  /** Exactly when there is no ceiling, and with which error, told from the arguments and the balance. */
  lemma {:induction false} CeilingFailsIff(args: Args, balance: Option<nat>, gasCap: nat)
    ensures var r := Ceiling(args, balance, gasCap);
            && (r == Err(BothFeeKinds) <==> BothKinds(args))
            && (r == Err(NoBalance) <==> !BothKinds(args) && HasPrice(args) && balance.None?)
            && (r == Err(InsufficientFunds) <==>
                  && !BothKinds(args) && HasPrice(args) && balance.Some?
                  && args.value.Some? && args.value.value >= balance.value)
            && (r.Err? ==> r.error in {BothFeeKinds, NoBalance, InsufficientFunds})
  {
    if !BothKinds(args) {
      var feeCap := FeeCap(args).value;
      assert forall p: nat :: Price(args, p) && p > 0 ==> p == feeCap;
      assert feeCap > 0 ==> Price(args, feeCap);
    }
  }

  /* ---- The search ---- */

  /** The midpoint in uint64 arithmetic. */
  function Mid(lo: nat, hi: nat): nat {
    ((hi + lo) % UINT64) / 2
  }

  const NO_WRAP: nat := UINT64 / 2

  lemma {:induction false} MidIsBetween(lo: nat, hi: nat)
    requires lo + 1 < hi <= NO_WRAP
    ensures lo < Mid(lo, hi) < hi && hi + lo < UINT64
    ensures Mid(lo, hi) == (hi + lo) / 2
  {
  }

  /** The value of `hi` the loop of DoEstimateGas ends with, if it ends within `n` probes. */
  function SearchIn(call: Oracle, lo: nat, hi: nat, n: nat): (r: Option<Result<nat, GasError>>)
    decreases n
  {
    if lo + 1 >= hi then Some(Ok(hi))
    else if n == 0 then None
    else
      var mid := Mid(lo, hi);
      var probe := IsGasEnough(call, mid);
      if probe.error.Some? then Some(Err(ConsensusError(probe.error.value)))
      else if probe.failed then SearchIn(call, mid, hi, n - 1)
      else SearchIn(call, lo, mid, n - 1)
  }

  ghost predicate SearchEnds(call: Oracle, lo: nat, hi: nat) {
    exists n: nat :: SearchIn(call, lo, hi, n).Some?
  }

  /** The number of probes allowed does not change the answer. */
  lemma {:induction false} SameAnswer(call: Oracle, lo: nat, hi: nat, n: nat, m: nat)
    requires SearchIn(call, lo, hi, n).Some? && n <= m
    ensures SearchIn(call, lo, hi, m) == SearchIn(call, lo, hi, n)
    decreases n
  {
    if lo + 1 >= hi {
    } else {
      var mid := Mid(lo, hi);
      if !call(mid).Rejected? {
        if IsGasEnough(call, mid).failed {
          SameAnswer(call, mid, hi, n - 1, m - 1);
        } else {
          SameAnswer(call, lo, mid, n - 1, m - 1);
        }
      }
    }
  }

  function FinalProbe(call: Oracle, cap: nat): Result<nat, GasError> {
    var probe := IsGasEnough(call, cap);
    if probe.error.Some? then Err(ConsensusError(probe.error.value))
    else if probe.failed then
      if probe.result.Some? && probe.result.value.err != Some(OutOfGas) then
        if |probe.result.value.revert| > 0 then Err(Reverted(probe.result.value.revert))
        else Err(Failed(probe.result.value.err.value))
      else Err(ExceedsAllowance(cap))
    else Ok(cap)
  }

  /** The answer after the loop has ended with `found`. */
  function Concluded(call: Oracle, cap: nat, found: Result<nat, GasError>): Result<nat, GasError> {
    match found
    case Err(e) => Err(e)
    case Ok(hi) => if hi == cap then FinalProbe(call, cap) else Ok(hi)
  }

  /** The loop ends within `n` probes, and `r` is the answer after it. */
  ghost predicate Answers(call: Oracle, cap: nat, n: nat, r: Result<nat, GasError>) {
    SearchIn(call, LOW_START, cap, n).Some? && r == Concluded(call, cap, SearchIn(call, LOW_START, cap, n).value)
  }

  lemma {:induction false} MidIsBelow(lo: nat, hi: nat)
    requires lo + 1 < hi
    ensures Mid(lo, hi) < hi
  {
    assert (hi + lo) % UINT64 <= hi + lo;
    assert hi >= UINT64 ==> (hi + lo) % UINT64 < hi;
  }

  /**
   Where the search ends: at its upper end or at a success, also when the midpoint has wrapped around; and
   from an upper end up to half of uint64, right above a failure or its lower end.
   */
  lemma {:induction false} SearchBrackets(call: Oracle, lo: nat, hi: nat, n: nat, r: nat)
    requires SearchIn(call, lo, hi, n) == Some(Ok(r))
    ensures r <= hi && (r == hi || Succeeds(call, r))
    ensures lo + 1 >= hi ==> r == hi
    ensures lo + 1 < hi <= NO_WRAP ==> lo < r && (r == lo + 1 || FailsAt(call, r - 1))
    decreases n
  {
    if lo + 1 >= hi {
    } else {
      MidIsBelow(lo, hi);
      if hi <= NO_WRAP {
        MidIsBetween(lo, hi);
      }
      var mid := Mid(lo, hi);
      if IsGasEnough(call, mid).failed {
        SearchBrackets(call, mid, hi, n - 1, r);
      } else {
        SearchBrackets(call, lo, mid, n - 1, r);
      }
    }
  }

  /** Up to half of uint64 this is what an estimate is: in range, and one unit less fails unless it is 21000. */
  ghost predicate LocallyMinimal(call: Oracle, cap: nat, r: nat) {
    TX_GAS <= r <= cap && (r == TX_GAS || FailsAt(call, r - 1))
  }

  /**
   Any oracle, any ceiling: a returned estimate succeeds and is at most the ceiling.  From a ceiling between
   21000 and half of uint64 it is locally minimal; from a ceiling under 21000 it is the ceiling.
   */
  lemma {:induction false} EstimateIsLocallyMinimal(call: Oracle, cap: nat, n: nat, r: nat)
    requires Answers(call, cap, n, Ok(r))
    ensures r <= cap && Succeeds(call, r)
    ensures TX_GAS <= cap <= NO_WRAP ==> LocallyMinimal(call, cap, r)
    ensures cap < TX_GAS ==> r == cap
  {
    SearchBrackets(call, LOW_START, cap, n, r);
  }

  /** `g` is the midpoint of an interval from the start or a failure up to the ceiling or a success. */
  ghost predicate Bisects(call: Oracle, cap: nat, lo: nat, hi: nat, g: nat) {
    && lo + 1 < hi && g == Mid(lo, hi)
    && (lo == LOW_START || FailsAt(call, lo))
    && (hi == cap || Succeeds(call, hi))
  }

  /** The search fails only at a probe that is rejected. */
  lemma {:induction false} SearchErrorIsRejection(call: Oracle, cap: nat, lo: nat, hi: nat, n: nat, e: GasError)
    returns (low: nat, high: nat, g: nat)
    requires (lo == LOW_START || FailsAt(call, lo)) && (hi == cap || Succeeds(call, hi)) && hi <= cap
    requires SearchIn(call, lo, hi, n) == Some(Err(e))
    ensures Bisects(call, cap, low, high, g) && g < cap && call(g).Rejected? && e == ConsensusError(call(g).error)
    decreases n
  {
    MidIsBelow(lo, hi);
    var mid := Mid(lo, hi);
    if call(mid).Rejected? {
      low, high, g := lo, hi, mid;
    } else if IsGasEnough(call, mid).failed {
      low, high, g := SearchErrorIsRejection(call, cap, mid, hi, n - 1, e);
    } else {
      low, high, g := SearchErrorIsRejection(call, cap, lo, mid, n - 1, e);
    }
  }

  /** A rejection is that of a midpoint the search can come to, or of the ceiling. */
  ghost predicate RejectedProbe(call: Oracle, cap: nat, e: nat) {
    || call(cap) == Rejected(e)
    || exists lo, hi, g :: Bisects(call, cap, lo, hi, g) && call(g) == Rejected(e)
  }

  /** What `call` does at the ceiling, for each kind of error but a rejection. */
  ghost predicate FailsWith(call: Oracle, cap: nat, e: GasError) {
    match e
    case Reverted(data) =>
      && call(cap).Executed? && call(cap).result.err.Some? && call(cap).result.err != Some(OutOfGas)
      && call(cap).result.revert == data != []
    case Failed(v) =>
      call(cap).Executed? && call(cap).result.err == Some(v) && v != OutOfGas && call(cap).result.revert == []
    case ExceedsAllowance(c) =>
      c == cap && (call(cap).IntrinsicGas? || (call(cap).Executed? && call(cap).result.err == Some(OutOfGas)))
    case _ => false
  }

  /**
   An estimate succeeds; a rejection is that of a probe; and any other error is the one that what the call does
   at the ceiling stands for, and no other.
   */
  ghost predicate Explained(call: Oracle, cap: nat, r: Result<nat, GasError>) {
    match r
    case Ok(g) => g <= cap && Succeeds(call, g)
    case Err(ConsensusError(e)) => RejectedProbe(call, cap, e)
    case Err(e) => FailsAt(call, cap) && forall x :: x == e <==> FailsWith(call, cap, x)
  }

  /** Every answer is explained, whatever the ceiling. */
  lemma {:induction false} AnswerIsExplained(call: Oracle, cap: nat, n: nat, r: Result<nat, GasError>)
    requires Answers(call, cap, n, r)
    ensures Explained(call, cap, r)
  {
    var found := SearchIn(call, LOW_START, cap, n).value;
    if found.Err? {
      var lo, hi, g := SearchErrorIsRejection(call, cap, LOW_START, cap, n, found.error);
      assert Bisects(call, cap, lo, hi, g) && call(g) == Rejected(call(g).error);
    } else {
      SearchBrackets(call, LOW_START, cap, n, found.value);
      if found.value == cap && call(cap).Rejected? {
        assert call(cap) == Rejected(call(cap).error);
      }
    }
  }

  /** Whatever is returned can be paid for, together with the value sent, whatever the ceiling. */
  lemma {:induction false} EstimateIsAffordable(
    args: Args, balance: Option<nat>, gasCap: nat, call: Oracle, n: nat, r: nat)
    requires ValidArgs(args) && Ceiling(args, balance, gasCap).Ok?
    requires Answers(call, Ceiling(args, balance, gasCap).value, n, Ok(r))
    ensures Affordable(args, balance, r)
  {
    var cap := Ceiling(args, balance, gasCap).value;
    EstimateIsLocallyMinimal(call, cap, n, r);
    CeilingIsExact(args, balance, gasCap, r);
  }

  /* ---- When success is monotone in gas ---- */

  /** More gas never turns success into failure. */
  ghost predicate Monotone(call: Oracle, cap: nat) {
    forall g: nat, h: nat :: g <= h <= cap && Succeeds(call, g) ==> Succeeds(call, h)
  }

  ghost predicate NoneUpTo(call: Oracle, g: nat) {
    forall h: nat :: h <= g ==> !Succeeds(call, h)
  }

  /** Above a failure the search finds the least success, whether or not the midpoint wraps around. */
  lemma {:induction false} SearchFindsLeast(call: Oracle, cap: nat, lo: nat, hi: nat, n: nat, r: nat)
    requires Monotone(call, cap) && lo < hi <= cap && NoneUpTo(call, lo)
    requires SearchIn(call, lo, hi, n) == Some(Ok(r))
    ensures forall g: nat :: g < r ==> !Succeeds(call, g)
    decreases n
  {
    if lo + 1 >= hi {
    } else {
      MidIsBelow(lo, hi);
      var mid := Mid(lo, hi);
      if IsGasEnough(call, mid).failed {
        assert NoneUpTo(call, mid) by {
          assert !Succeeds(call, mid);
        }
        SearchFindsLeast(call, cap, mid, hi, n - 1, r);
      } else {
        assert Succeeds(call, mid);
        SearchFindsLeast(call, cap, lo, mid, n - 1, r);
      }
    }
  }

  /** The least sufficient gas from 21000 up to the ceiling. */
  ghost predicate IsLeast(call: Oracle, cap: nat, r: nat) {
    TX_GAS <= r <= cap && Succeeds(call, r) && forall g: nat :: TX_GAS <= g < r ==> !Succeeds(call, g)
  }

  /** The first midpoint does not wrap around, or no gas under 21000 suffices. */
  ghost predicate StartsInRange(call: Oracle, cap: nat) {
    cap + LOW_START < UINT64 || NoneUpTo(call, LOW_START)
  }

  /**
   Minimality, exactly.  When success is monotone in gas, a returned estimate is the least sufficient gas from
   21000 up to the ceiling if and only if the ceiling plus 20999 does not wrap around or no gas under 21000
   suffices.  Gas limits that no probe tries may be rejected.
   */
  lemma {:induction false} EstimateIsLeastIff(call: Oracle, cap: nat, n: nat, r: nat)
    requires TX_GAS <= cap < UINT64 && Monotone(call, cap) && Answers(call, cap, n, Ok(r))
    ensures IsLeast(call, cap, r) <==> StartsInRange(call, cap)
  {
    SearchBrackets(call, LOW_START, cap, n, r);
    EstimateIsLocallyMinimal(call, cap, n, r);
    if NoneUpTo(call, LOW_START) {
      SearchFindsLeast(call, cap, LOW_START, cap, n, r);
    } else {
      var low: nat :| low <= LOW_START && Succeeds(call, low);
      if cap + LOW_START < UINT64 {
        AllSufficient(call, cap, n, r, low);
      } else {
        WrapsBelowRange(call, cap, n, r, low);
      }
    }
  }

  lemma {:induction false} AllSufficient(call: Oracle, cap: nat, n: nat, r: nat, low: nat)
    requires TX_GAS <= cap && cap + LOW_START < UINT64 && Monotone(call, cap) && Answers(call, cap, n, Ok(r))
    requires low <= LOW_START && Succeeds(call, low)
    ensures r == TX_GAS
  {
    forall g: nat | low <= g <= cap ensures Succeeds(call, g) {
    }
    if cap == TX_GAS {
    } else {
      var mid := Mid(LOW_START, cap);
      assert mid == (cap + LOW_START) / 2 && TX_GAS <= mid < cap && mid <= NO_WRAP;
      assert Succeeds(call, mid);
      assert SearchIn(call, LOW_START, mid, n - 1) == Some(Ok(r));
      SearchBrackets(call, LOW_START, mid, n - 1, r);
    }
  }

  lemma {:induction false} WrapsBelowRange(call: Oracle, cap: nat, n: nat, r: nat, low: nat)
    requires TX_GAS <= cap < UINT64 <= cap + LOW_START && Monotone(call, cap) && Answers(call, cap, n, Ok(r))
    requires low <= LOW_START && Succeeds(call, low)
    ensures r < TX_GAS
  {
    var mid := Mid(LOW_START, cap);
    assert mid == (cap + LOW_START - UINT64) / 2 && mid < LOW_START;
    if Succeeds(call, mid) {
      assert SearchIn(call, LOW_START, mid, n - 1) == Some(Ok(mid));
    } else {
      assert NoneUpTo(call, mid);
      assert SearchIn(call, mid, cap, n - 1) == SearchIn(call, LOW_START, cap, n);
      var found := SearchIn(call, mid, cap, n - 1).value.value;
      SearchFindsLeast(call, cap, mid, cap, n - 1, found);
    }
  }

  /**
   When success is monotone in gas, an answer that is not the rejection of a probe is an error if and only if no
   gas from 21000 up to the ceiling suffices, whatever the ceiling.  From a ceiling under 21000 only the ceiling
   is tried, by any oracle.
   */
  lemma {:induction false} EstimateFailsIff(call: Oracle, cap: nat, n: nat, r: Result<nat, GasError>)
    requires Answers(call, cap, n, r)
    ensures cap >= TX_GAS && Monotone(call, cap) && !(r.Err? && r.error.ConsensusError?) ==>
              (r.Err? <==> forall g: nat :: TX_GAS <= g <= cap ==> !Succeeds(call, g))
    ensures cap < TX_GAS ==> (r.Err? <==> !Succeeds(call, cap))
  {
    AnswerIsExplained(call, cap, n, r);
    if r.Ok? && Monotone(call, cap) {
      assert Succeeds(call, cap);
    }
  }

  /* ---- When local minimality fails ---- */

  /** The gas limits probed by the loop. */
  function Probes(call: Oracle, lo: nat, hi: nat, n: nat): set<nat>
    decreases n
  {
    if lo + 1 >= hi || n == 0 then {}
    else
      var mid := Mid(lo, hi);
      var probe := IsGasEnough(call, mid);
      if probe.error.Some? then {mid}
      else if probe.failed then {mid} + Probes(call, mid, hi, n - 1)
      else {mid} + Probes(call, lo, mid, n - 1)
  }

  /** `r` separates the probes that failed from those that succeeded, and is tight between them. */
  ghost predicate Separates(call: Oracle, lo: nat, hi: nat, n: nat, r: nat) {
    var probes := Probes(call, lo, hi, n);
    && lo < r <= hi
    && (r == hi || r in probes)
    && (r == lo + 1 || r - 1 in probes)
    && forall g :: g in probes ==> if Succeeds(call, g) then r <= g else g < r
  }

  /** Whatever the call, the value the search from 21000 ends with separates its probes. */
  ghost predicate AlwaysSeparates(cap: nat) {
    forall call: Oracle, n: nat ::
      SearchIn(call, LOW_START, cap, n).Some? && SearchIn(call, LOW_START, cap, n).value.Ok? ==>
        Separates(call, LOW_START, cap, n, SearchIn(call, LOW_START, cap, n).value.value)
  }

  lemma {:induction false} SearchSeparates(call: Oracle, lo: nat, hi: nat, n: nat, r: nat)
    requires lo < hi <= NO_WRAP && SearchIn(call, lo, hi, n) == Some(Ok(r))
    ensures Separates(call, lo, hi, n, r)
    decreases n
  {
    if lo + 1 >= hi {
    } else {
      MidIsBetween(lo, hi);
      var mid := Mid(lo, hi);
      if IsGasEnough(call, mid).failed {
        SearchSeparates(call, mid, hi, n - 1, r);
      } else {
        SearchSeparates(call, lo, mid, n - 1, r);
      }
    }
  }

  /** The first midpoint that wraps around while every probe fails. */
  function FirstWrapped(lo: nat, hi: nat): (m: nat)
    requires NO_WRAP < hi < UINT64 && lo + 1 < hi
    ensures m < hi - NO_WRAP
    decreases hi - lo
  {
    if hi + lo >= UINT64 then Mid(lo, hi) else FirstWrapped(Mid(lo, hi), hi)
  }

  /** A call that succeeds with little gas only. */
  function UpTo(m: nat): Oracle {
    (gas: nat) => if gas <= m then Executed(ExecutionResult(None, [])) else IntrinsicGas
  }

  /** The search for such a call ends at the first wrapped midpoint, below a probe that failed or at once. */
  lemma {:induction false} EndsAtWrap(lo: nat, hi: nat) returns (n: nat)
    requires NO_WRAP < hi < UINT64 && lo + 1 < hi
    ensures var m := FirstWrapped(lo, hi);
            && SearchIn(UpTo(m), lo, hi, n) == Some(Ok(m))
            && (hi + lo < UINT64 ==> Mid(lo, hi) in Probes(UpTo(m), lo, hi, n) && m < Mid(lo, hi))
    decreases hi - lo
  {
    var m, mid := FirstWrapped(lo, hi), Mid(lo, hi);
    if hi + lo >= UINT64 {
      n := 1;
    } else {
      n := EndsAtWrap(mid, hi);
      n := n + 1;
    }
  }

  /**
   The loop separates its probes for every call exactly for ceilings up to half of uint64.  Above that some call
   makes it return less than 21000, or less than a gas limit that failed.
   */
  lemma {:induction false} AlwaysSeparatesIff(cap: nat)
    requires TX_GAS <= cap < UINT64
    ensures AlwaysSeparates(cap) <==> cap <= NO_WRAP
  {
    if cap <= NO_WRAP {
      forall call: Oracle, n: nat |
        SearchIn(call, LOW_START, cap, n).Some? && SearchIn(call, LOW_START, cap, n).value.Ok?
        ensures Separates(call, LOW_START, cap, n, SearchIn(call, LOW_START, cap, n).value.value)
      {
        SearchSeparates(call, LOW_START, cap, n, SearchIn(call, LOW_START, cap, n).value.value);
      }
    } else {
      var m := FirstWrapped(LOW_START, cap);
      var n := EndsAtWrap(LOW_START, cap);
      assert !Separates(UpTo(m), LOW_START, cap, n, m);
    }
  }

  /**
   Above half of uint64 local minimality fails for some call, unless the first wrapped midpoint happens to be
   21000: the estimate is below 21000, or one unit less succeeds as well.
   */
  lemma {:induction false} LocalMinimalityFails(cap: nat) returns (n: nat)
    requires NO_WRAP < cap < UINT64 && FirstWrapped(LOW_START, cap) != TX_GAS
    ensures var m := FirstWrapped(LOW_START, cap);
            Answers(UpTo(m), cap, n, Ok(m)) && !LocallyMinimal(UpTo(m), cap, m)
  {
    n := EndsAtWrap(LOW_START, cap);
  }

  /** From the highest ceiling, a call that succeeds up to 10499 only is estimated at 10499, by one probe. */
  lemma {:induction false} EstimateUnderIntrinsicGas()
    ensures Answers(UpTo(10499), UINT64 - 1, 1, Ok(10499))
    ensures !LocallyMinimal(UpTo(10499), UINT64 - 1, 10499)
  {
    assert Mid(LOW_START, UINT64 - 1) == 10499;
    assert SearchIn(UpTo(10499), LOW_START, 10499, 0) == Some(Ok(10499));
  }

  /** A ceiling above half of uint64 whose first wrapped midpoint is 21000. */
  const COINCIDENCE: nat := (2 * UINT64 + 63001) / 3

  /** While both probes fail the search alternates between them for ever. */
  lemma {:induction false} Alternates(call: Oracle, n: nat)
    requires FailsAt(call, Mid(LOW_START, COINCIDENCE)) && FailsAt(call, TX_GAS)
    ensures SearchIn(call, TX_GAS, COINCIDENCE, n).None?
    ensures SearchIn(call, Mid(LOW_START, COINCIDENCE), COINCIDENCE, n).None?
    decreases n
  {
    var mid := Mid(LOW_START, COINCIDENCE);
    assert Mid(TX_GAS, COINCIDENCE) == mid && Mid(mid, COINCIDENCE) == TX_GAS;
    if n == 0 {
    } else {
      Alternates(call, n - 1);
    }
  }

  lemma {:induction false} NeverEnds(call: Oracle, n: nat)
    requires !Succeeds(call, Mid(LOW_START, COINCIDENCE)) && !Succeeds(call, TX_GAS)
    ensures var found := SearchIn(call, LOW_START, COINCIDENCE, n); found.None? || found.value.Err?
  {
    var mid := Mid(LOW_START, COINCIDENCE);
    if n > 0 && !call(mid).Rejected? {
      assert SearchIn(call, LOW_START, COINCIDENCE, n) == SearchIn(call, mid, COINCIDENCE, n - 1);
      if call(TX_GAS).Rejected? {
        assert Mid(mid, COINCIDENCE) == TX_GAS;
      } else {
        Alternates(call, n - 1);
      }
    }
  }

  /** So no bound on the ceiling alone is exact for local minimality: here it holds for every call. */
  lemma {:induction false} CoincidenceIsLocallyMinimal(call: Oracle, n: nat, r: nat)
    requires Answers(call, COINCIDENCE, n, Ok(r))
    ensures COINCIDENCE > NO_WRAP && FirstWrapped(LOW_START, COINCIDENCE) == TX_GAS
    ensures LocallyMinimal(call, COINCIDENCE, r)
  {
    var mid := Mid(LOW_START, COINCIDENCE);
    assert LOW_START + 1 < mid <= NO_WRAP && Mid(mid, COINCIDENCE) == TX_GAS;
    if Succeeds(call, mid) {
      assert SearchIn(call, LOW_START, mid, n - 1) == SearchIn(call, LOW_START, COINCIDENCE, n);
      SearchBrackets(call, LOW_START, mid, n - 1, SearchIn(call, LOW_START, mid, n - 1).value.value);
    } else if Succeeds(call, TX_GAS) {
      assert SearchIn(call, LOW_START, COINCIDENCE, n) == SearchIn(call, mid, COINCIDENCE, n - 1);
      assert SearchIn(call, mid, COINCIDENCE, n - 1) == SearchIn(call, mid, TX_GAS, n - 2);
    } else {
      NeverEnds(call, n);
    }
  }

  /* ---- Bounds on the search ---- */

  function Pow2(k: nat): nat {
    if k == 0 then 1 else 2 * Pow2(k - 1)
  }

  lemma {:induction false} GapHalves(lo: nat, hi: nat, k: nat)
    requires lo + 1 < hi <= NO_WRAP && hi <= lo + Pow2(k)
    ensures k > 0 && hi <= Mid(lo, hi) + Pow2(k - 1) && Mid(lo, hi) <= lo + Pow2(k - 1)
  {
  }

  /** An interval of at most `2^k` takes at most `k` probes. */
  lemma {:induction false} SearchIsFast(call: Oracle, lo: nat, hi: nat, k: nat)
    requires hi <= NO_WRAP && hi <= lo + Pow2(k)
    ensures SearchIn(call, lo, hi, k).Some?
    decreases k
  {
    if lo + 1 >= hi {
    } else {
      GapHalves(lo, hi, k);
      SearchIsFast(call, Mid(lo, hi), hi, k - 1);
      SearchIsFast(call, lo, Mid(lo, hi), k - 1);
    }
  }

  lemma {:induction false} Pow2Grows(k: nat)
    ensures k < Pow2(k)
    decreases k
  {
    if k == 0 {
    } else {
      Pow2Grows(k - 1);
    }
  }

  /** While the midpoint cannot wrap around the loop ends, whatever the probes answer. */
  lemma {:induction false} CappedSearchEnds(call: Oracle, cap: nat)
    requires cap <= NO_WRAP
    ensures SearchEnds(call, LOW_START, cap)
  {
    Pow2Grows(cap);
    SearchIsFast(call, LOW_START, cap, cap);
  }

  /** Above half of uint64 the midpoint stays more than one below the upper end, by wrap-around or not. */
  lemma {:induction false} WrappedSearchGoesOn(call: Oracle, lo: nat, hi: nat, n: nat)
    requires NO_WRAP < hi < UINT64 && lo + 1 < hi && forall g: nat :: FailsAt(call, g)
    ensures SearchIn(call, lo, hi, n).None?
    decreases n
  {
    if n == 0 {
    } else {
      assert FailsAt(call, Mid(lo, hi));
      WrappedSearchGoesOn(call, Mid(lo, hi), hi, n - 1);
    }
  }

  /**
   When every probe fails, the search from 21000 ends exactly for ceilings up to half of uint64: above
   that the sum in the midpoint wraps around and the loop runs for ever.
   */
  lemma {:induction false} FailingSearchEndsIff(call: Oracle, cap: nat)
    requires TX_GAS <= cap < UINT64 && forall g: nat :: FailsAt(call, g)
    ensures SearchEnds(call, LOW_START, cap) <==> cap <= NO_WRAP
  {
    if cap <= NO_WRAP {
      CappedSearchEnds(call, cap);
    } else {
      forall n: nat ensures SearchIn(call, LOW_START, cap, n).None? {
        WrappedSearchGoesOn(call, LOW_START, cap, n);
      }
    }
  }

  function NeverEnough(gas: nat): CallOutcome {
    IntrinsicGas
  }

  /** The search ends for every call exactly for ceilings up to half of uint64. */
  lemma {:induction false} SearchAlwaysEndsIff(cap: nat)
    requires cap < UINT64
    ensures (forall call: Oracle :: SearchEnds(call, LOW_START, cap)) <==> cap <= NO_WRAP
  {
    if cap <= NO_WRAP {
      forall call: Oracle ensures SearchEnds(call, LOW_START, cap) {
        CappedSearchEnds(call, cap);
      }
    } else {
      FailingSearchEndsIff(NeverEnough, cap);
    }
  }

  /** gethapi.TransactionArgs: the estimation fills in the sender and overwrites the gas limit. */
  class TransactionArgs {
    var from: Option<nat>
    var gas: Option<nat>
    const gasPrice: Option<nat>
    const maxFeePerGas: Option<nat>
    const maxPriorityFeePerGas: Option<nat>
    const value: Option<nat>

    constructor (args: Args, from: Option<nat>)
      ensures Fields() == args && this.from == from
    {
      this.from := from;
      gas, gasPrice, value := args.gas, args.gasPrice, args.value;
      maxFeePerGas, maxPriorityFeePerGas := args.maxFeePerGas, args.maxPriorityFeePerGas;
    }

    function Fields(): Args
      reads this
    {
      Args(gas, gasPrice, maxFeePerGas, maxPriorityFeePerGas, value)
    }
  }

  /** The part of DoEstimateGas before the search. */
  method HighestGas(args: TransactionArgs, balance: Option<nat>, gasCap: nat) returns (r: Result<nat, GasError>)
    ensures r == Ceiling(args.Fields(), balance, gasCap)
    ensures r.Ok? && ValidArgs(args.Fields()) ==>
              forall g: nat :: g <= r.value <==>
                WithinRequest(args.Fields(), g) && (gasCap != 0 ==> g <= gasCap) && Affordable(args.Fields(), balance, g)
  {
    if Ceiling(args.Fields(), balance, gasCap).Ok? && ValidArgs(args.Fields()) {
      forall g: nat
        ensures g <= Ceiling(args.Fields(), balance, gasCap).value <==>
                  && WithinRequest(args.Fields(), g) && (gasCap != 0 ==> g <= gasCap)
                  && Affordable(args.Fields(), balance, g)
      {
        CeilingIsExact(args.Fields(), balance, gasCap, g);
      }
    }
    hide Affordable, WithinRequest;
    var hi: nat := GLOBAL_GAS_CAP;
    if args.gas.Some? && args.gas.value >= TX_GAS {
      hi := args.gas.value;
    }
    var feeCap := 0;
    if args.gasPrice.Some? && (args.maxFeePerGas.Some? || args.maxPriorityFeePerGas.Some?) {
      return Err(BothFeeKinds);
    } else if args.gasPrice.Some? {
      feeCap := args.gasPrice.value;
    } else if args.maxFeePerGas.Some? {
      feeCap := args.maxFeePerGas.value;
    }
    assert FeeCap(args.Fields()) == Ok(feeCap) && Requested(args.Fields()) == hi;
    if feeCap != 0 {
      if balance.None? {
        return Err(NoBalance);
      }
      var available := balance.value;
      if args.value.Some? {
        if args.value.value >= available {
          return Err(InsufficientFunds);
        }
        available := available - args.value.value;
      }
      var allowance := Allowance(available, feeCap);
      if allowance < UINT64 && hi > allowance {
        hi := allowance;
      }
    }
    if gasCap != 0 && hi > gasCap {
      hi := gasCap;
    }
    r := Ok(hi);
  }

  /**
   The loop of DoEstimateGas, wherever it ends.  Under the global cap it makes at most 33 probes, whatever
   they answer; up to half of uint64 the arguments are left with the gas limit of the last probe, one end
   of the final interval.
   */
  method BinarySearch(args: TransactionArgs, cap: nat, call: Oracle)
    returns (r: Result<nat, GasError>, probes: nat)
    requires SearchEnds(call, LOW_START, cap)
    modifies args`gas
    ensures SearchIn(call, LOW_START, cap, probes) == Some(r)
    ensures probes > 0 ==> SearchIn(call, LOW_START, cap, probes - 1).None?
    ensures cap <= GLOBAL_GAS_CAP ==> probes <= 33
    ensures r.Ok? && r.value != cap ==> args.gas.Some? && args.gas.value + 1 >= r.value
    ensures cap <= NO_WRAP && r.Ok? && r.value != cap ==>
              args.gas == Some(r.value) || (r.value > 0 && args.gas == Some(r.value - 1))
    ensures r.Err? ==> RejectedAt(call, args.gas, r.error)
  {
    hide Continues, IsGasEnough, Mid, SearchIn;
    probes := 0;
    var lo: nat, hi: nat := LOW_START, cap;
    ghost var n := ProbeBound(call, cap);
    ghost var most := n;
    Continued(call, cap);
    while lo + 1 < hi
      invariant probes + n == most
      invariant probes > 0 ==> SearchIn(call, LOW_START, cap, probes - 1).None?
      invariant SearchIn(call, lo, hi, n).Some?
      invariant Continues(call, cap, probes, lo, hi)
      invariant cap <= NO_WRAP ==> hi <= cap && (lo < hi || hi == cap)
      invariant hi == cap || args.gas == Some(hi) || args.gas == Some(lo)
      decreases n
    {
      if cap <= NO_WRAP {
        MidIsBetween(lo, hi);
      }
      var mid := Mid(lo, hi);
      ProbeContinues(call, cap, probes, lo, hi);
      ProbeIsOneOf(call, lo, hi, n);
      args.gas := Some(mid);
      probes := probes + 1;
      n := n - 1;
      var probe := IsGasEnough(call, mid);
      if probe.error.Some? {
        ErrorIsRejection(call, mid);
        return Err(ConsensusError(probe.error.value)), probes;
      }
      if probe.failed {
        lo := mid;
      } else {
        hi := mid;
      }
    }
    r := Ok(hi);
    EndsHere(call, cap, probes, lo, hi);
  }

  /** After `k` probes the search goes on as one between `lo` and `hi`. */
  ghost predicate Continues(call: Oracle, cap: nat, k: nat, lo: nat, hi: nat) {
    forall m: nat :: SearchIn(call, LOW_START, cap, k + m) == SearchIn(call, lo, hi, m)
  }

  /** The gas limit left in the arguments is the one that was rejected. */
  predicate RejectedAt(call: Oracle, gas: Option<nat>, e: GasError) {
    gas.Some? && call(gas.value).Rejected? && e == ConsensusError(call(gas.value).error)
  }

  lemma {:induction false} ErrorIsRejection(call: Oracle, g: nat)
    ensures IsGasEnough(call, g).error.Some? ==>
              RejectedAt(call, Some(g), ConsensusError(IsGasEnough(call, g).error.value))
  {
  }

  lemma {:induction false} ProbeBound(call: Oracle, cap: nat) returns (n: nat)
    requires SearchEnds(call, LOW_START, cap)
    ensures SearchIn(call, LOW_START, cap, n).Some? && (cap <= GLOBAL_GAS_CAP ==> n <= 33)
  {
    if cap <= GLOBAL_GAS_CAP {
      Pow2Of33();
      SearchIsFast(call, LOW_START, cap, 33);
      n := 33;
    } else {
      n :| SearchIn(call, LOW_START, cap, n).Some?;
    }
  }

  lemma {:induction false} Continued(call: Oracle, cap: nat)
    ensures Continues(call, cap, 0, LOW_START, cap)
  {
  }

  lemma {:induction false} ProbeIsOneOf(call: Oracle, lo: nat, hi: nat, n: nat)
    requires lo + 1 < hi && SearchIn(call, lo, hi, n).Some?
    ensures n > 0
    ensures var mid := Mid(lo, hi);
            var probe := IsGasEnough(call, mid);
            && (probe.error.None? && probe.failed ==> SearchIn(call, mid, hi, n - 1).Some?)
            && (probe.error.None? && !probe.failed ==> SearchIn(call, lo, mid, n - 1).Some?)
  {
  }

  lemma {:induction false} EndsHere(call: Oracle, cap: nat, k: nat, lo: nat, hi: nat)
    requires Continues(call, cap, k, lo, hi) && lo + 1 >= hi
    ensures SearchIn(call, LOW_START, cap, k) == Some(Ok(hi))
  {
    assert SearchIn(call, LOW_START, cap, k + 0) == SearchIn(call, lo, hi, 0);
  }

  lemma {:induction false} ProbeContinues(call: Oracle, cap: nat, k: nat, lo: nat, hi: nat)
    requires Continues(call, cap, k, lo, hi) && lo + 1 < hi
    ensures SearchIn(call, LOW_START, cap, k).None?
    ensures var mid := Mid(lo, hi);
            var probe := IsGasEnough(call, mid);
            if probe.error.Some? then SearchIn(call, LOW_START, cap, k + 1) == Some(Err(ConsensusError(probe.error.value)))
            else if probe.failed then Continues(call, cap, k + 1, mid, hi)
            else Continues(call, cap, k + 1, lo, mid)
  {
    assert SearchIn(call, LOW_START, cap, k + 0) == SearchIn(call, lo, hi, 0);
    assert SearchIn(call, LOW_START, cap, k + 1) == SearchIn(call, lo, hi, 1);
    var mid := Mid(lo, hi);
    var (lo', hi') := if IsGasEnough(call, mid).failed then (mid, hi) else (lo, mid);
    if IsGasEnough(call, mid).error.None? {
      forall m: nat ensures SearchIn(call, LOW_START, cap, k + 1 + m) == SearchIn(call, lo', hi', m) {
        assert SearchIn(call, LOW_START, cap, k + (m + 1)) == SearchIn(call, lo, hi, m + 1);
      }
    }
  }

  /** What a caller learns about the call from the answer below the ceiling `cap`. */
  ghost predicate SoundEstimate(call: Oracle, cap: nat, r: Result<nat, GasError>) {
    && Explained(call, cap, r)
    && (r.Ok? && TX_GAS <= cap <= NO_WRAP ==> LocallyMinimal(call, cap, r.value))
    && (r.Ok? && TX_GAS <= cap < UINT64 && Monotone(call, cap) ==>
          (IsLeast(call, cap, r.value) <==> StartsInRange(call, cap)))
    && (cap >= TX_GAS && Monotone(call, cap) && !(r.Err? && r.error.ConsensusError?) ==>
          (r.Err? <==> forall g: nat :: TX_GAS <= g <= cap ==> !Succeeds(call, g)))
  }

  lemma {:induction false} CapsCeiling(args: Args, balance: Option<nat>, gasCap: nat)
    ensures gasCap != 0 && Ceiling(args, balance, gasCap).Ok? ==> Ceiling(args, balance, gasCap).value <= gasCap
  {
  }

  lemma {:induction false} AnswerIsSound(call: Oracle, cap: nat, n: nat, r: Result<nat, GasError>)
    requires Answers(call, cap, n, r)
    ensures SoundEstimate(call, cap, r)
  {
    AnswerIsExplained(call, cap, n, r);
    EstimateFailsIff(call, cap, n, r);
    if r.Ok? {
      EstimateIsLocallyMinimal(call, cap, n, r.value);
      if TX_GAS <= cap < UINT64 && Monotone(call, cap) {
        EstimateIsLeastIff(call, cap, n, r.value);
      }
    }
  }

  /**
   go/enclave/enclave.go, DoEstimateGas, wherever its loop ends.  `balance` is the sender's balance, None
   if it cannot be fetched.  The result is sound for the ceiling and can be paid for, whatever the ceiling;
   from a ceiling up to the global cap at most 33 probes of the loop and one final probe are made; and up to
   half of uint64 the arguments are left with a gas limit that is the estimate or one less.
   */
  method DoEstimateGas(args: TransactionArgs, balance: Option<nat>, gasCap: nat, call: Oracle)
    returns (r: Result<nat, GasError>, probes: nat)
    requires Ceiling(args.Fields(), balance, gasCap).Ok? ==>
               SearchEnds(call, LOW_START, Ceiling(args.Fields(), balance, gasCap).value)
    modifies args
    ensures args.from == if old(args.from).Some? then old(args.from) else Some(0)
    ensures match Ceiling(old(args.Fields()), balance, gasCap)
            case Err(e) => r == Err(e) && probes == 0 && args.gas == old(args.gas)
            case Ok(cap) =>
              && (gasCap != 0 ==> cap <= gasCap)
              && (exists n :: Answers(call, cap, n, r))
              && SoundEstimate(call, cap, r)
              && (ValidArgs(old(args.Fields())) && r.Ok? ==> Affordable(old(args.Fields()), balance, r.value))
              && (cap <= GLOBAL_GAS_CAP ==> probes <= 33 + 1)
              && (r.Ok? ==> args.gas.Some? && args.gas.value + 1 >= r.value)
              && (cap <= NO_WRAP && r.Ok? ==>
                    args.gas == Some(r.value) || (r.value > 0 && args.gas == Some(r.value - 1)))
              && (r.Err? ==> args.gas == Some(cap) || RejectedAt(call, args.gas, r.error))
  {
    hide SoundEstimate, Affordable, Ceiling, SearchIn, IsGasEnough;
    if args.from.None? {
      args.from := Some(0);
    }
    CapsCeiling(args.Fields(), balance, gasCap);
    var ceiling := HighestGas(args, balance, gasCap);
    if ceiling.Err? {
      return Err(ceiling.error), 0;
    }
    var cap := ceiling.value;
    ghost var fields := args.Fields();
    r, probes := BinarySearch(args, cap, call);
    ghost var loops := probes;
    if r.Ok? && r.value == cap {
      args.gas := Some(cap);
      probes := probes + 1;
      r := FinalProbe(call, cap);
    }
    assert Answers(call, cap, loops, r);
    AnswerIsSound(call, cap, loops, r);
    if r.Ok? && ValidArgs(fields) {
      EstimateIsAffordable(fields, balance, gasCap, call, loops, r.value);
    }
  }

  lemma {:induction false} Pow2Of33()
    ensures Pow2(33) == 0x2_0000_0000
  {
    assert Pow2(11) == 2048;
    assert Pow2(22) == 0x40_0000 by {
      assert Pow2(16) == 0x1_0000;
    }
  }
}
