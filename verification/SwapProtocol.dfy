/**
  The asynchronous swap protocol: a user's swap job and the rebalance job that
  serves it, advanced by one worker. Every function is one stretch of code with
  no `await` in it, so requests may run between any two of them.
 */
module SwapProtocol {
  import opened AppState
  import opened Ledger
  import opened Outcome
  import opened Sums

  // ----- Inventory service -----

  datatype SwapInput = SwapInput(
    user: Address, marketId: string, fromToken: Address, toToken: Address,
    fromSymbol: string, toSymbol: string, amountIn: int, quotedOut: nat, minOut: nat)

  /** Locks the input amount, of whatever sign, and queues a swap job with its rebalance job. */
  function CreateAsyncSwapJob(s: State, input: SwapInput, swapId: string, rebalanceId: string): Result<State> {
    var k := Key(input.user, input.fromToken);
    var amount := input.amountIn;
    if s.Available(k) < amount then Err("Insufficient available balance for async router swap")
    else
      Ok(s.(balances := Add(s.balances, k, -amount),
            locked := Add(s.locked, k, amount),
            swaps := s.swaps + [NewSwapJob(input, swapId)],
            rebalances := s.rebalances + [NewRebalanceJob(input, swapId, rebalanceId)]))
  }

  function NewSwapJob(input: SwapInput, id: string): SwapJob {
    SwapJob(id, input.user, input.marketId, input.fromToken, input.toToken, input.fromSymbol, input.toSymbol,
            input.amountIn, input.quotedOut, input.minOut, Queued)
  }

  function NewRebalanceJob(input: SwapInput, swapId: string, id: string): RebalanceJob {
    RebalanceJob(id, input.marketId, input.fromSymbol, input.toSymbol, input.amountIn, input.minOut,
                 Some(swapId), None, Queued)
  }

  /** A drift rebalance belongs to no swap; its amount is whatever the caller computed. */
  function EnqueueDriftJob(s: State, job: RebalanceJob): State {
    s.(rebalances := s.rebalances + [job.(linked := None, actualOut := None, state := Queued)])
  }

  function UpdateRebalanceJob(s: State, jobId: string, state: JobState, actualOut: Option<nat>): (after: State)
    ensures SameBook(s, after) && SameLedger(s, after) && after.worker == s.worker
  {
    var found := FindId(RebalanceIds(s.rebalances), jobId);
    if found.None? then s
    else
      var job := s.rebalances[found.value];
      s.(rebalances := s.rebalances[found.value :=
           job.(state := state, actualOut := if actualOut.Some? then actualOut else job.actualOut)])
  }

  function MarkSwapState(s: State, jobId: string, state: JobState): (after: State)
    ensures SameBook(s, after) && SameLedger(s, after) && after.worker == s.worker
  {
    var found := FindId(SwapIds(s.swaps), jobId);
    if found.None? then s
    else s.(swaps := s.swaps[found.value := s.swaps[found.value].(state := state)])
  }

  function SettleAsyncSwap(s: State, jobId: string, amountOut: nat): (after: State)
    ensures SameBook(s, after) && after.worker == s.worker
  {
    var found := FindId(SwapIds(s.swaps), jobId);
    if found.None? then s
    else
      var job := s.swaps[found.value];
      var amount := job.amountIn;
      s.(locked := Add(s.locked, job.LockKey(), -amount),
         balances := Add(s.balances, Key(job.user, job.toToken), amountOut),
         swaps := s.swaps[found.value := job.(state := Completed, quotedOut := amountOut)],
         events := s.events + [Payout(job.id, job.user, job.fromToken, job.amountIn, job.toToken, amountOut)])
  }

  function FailSwap(s: State, jobId: string): (after: State)
    ensures SameBook(s, after) && after.worker == s.worker
  {
    var found := FindId(SwapIds(s.swaps), jobId);
    if found.None? then s
    else
      var job := s.swaps[found.value];
      var amount := job.amountIn;
      s.(locked := Add(s.locked, job.LockKey(), -amount),
         balances := Add(s.balances, job.LockKey(), amount),
         swaps := s.swaps[found.value := job.(state := Failed)],
         events := s.events + [Refund(job.id, job.user, job.fromToken, job.amountIn)])
  }

  function AddInventory(inventory: map<string, int>, symbol: string, delta: int): map<string, int> {
    inventory[symbol := (if symbol in inventory then inventory[symbol] else 0) + delta]
  }

  function SettledOut(job: RebalanceJob): nat {
    if job.actualOut.Some? then job.actualOut.value else job.minOut
  }

  function SettleRebalanceInventory(s: State, jobId: string): (after: State)
    ensures SameBook(s, after) && SameLedger(s, after) && after.worker == s.worker
  {
    var found := FindId(RebalanceIds(s.rebalances), jobId);
    if found.None? then s
    else
      var job := s.rebalances[found.value];
      var amount := job.amountIn;
      s.(inventory := AddInventory(AddInventory(s.inventory, job.inputSymbol, -amount), job.outputSymbol,
                                   SettledOut(job)),
         rebalances := s.rebalances[found.value := job.(state := Completed)])
  }

  // ----- Rebalance worker -----

  /** The first job that is neither completed nor failed. */
  function NextJob(jobs: seq<RebalanceJob>): (r: Option<nat>)
    ensures r.None? <==> forall i :: 0 <= i < |jobs| ==> jobs[i].state.Terminal()
    ensures r.Some? ==> r.value < |jobs| && !jobs[r.value].state.Terminal()
                        && forall i :: 0 <= i < r.value ==> jobs[i].state.Terminal()
  {
    if |jobs| == 0 then None
    else
      var front := NextJob(jobs[..|jobs| - 1]);
      if front.Some? then front
      else if jobs[|jobs| - 1].state.Terminal() then None
      else Some(|jobs| - 1)
  }

  /** The start of a tick, up to the health request. */
  function BeginTick(s: State): State
    requires s.worker.Idle?
  {
    var next := NextJob(s.rebalances);
    if next.None? then s else s.(worker := AwaitingHealth(next.value))
  }

  function Advance(s: State, jobId: string, state: JobState, linked: Option<string>): (after: State)
    ensures SameBook(s, after) && SameLedger(s, after) && after.worker == s.worker
  {
    var s1 := UpdateRebalanceJob(s, jobId, state, None);
    if linked.Some? then MarkSwapState(s1, linked.value, state) else s1
  }

  function Fail(s: State, jobId: string, linked: Option<string>): (after: State)
    ensures SameBook(s, after) && after.worker == s.worker
  {
    var s1 := UpdateRebalanceJob(s, jobId, Failed, None);
    if linked.Some? then FailSwap(s1, linked.value) else s1
  }

  function Settle(s: State, job: RebalanceJob): (after: State)
    ensures SameBook(s, after) && after.worker == s.worker
  {
    var settled := SettleRebalanceInventory(s, job.id);
    if job.linked.Some? then SettleAsyncSwap(settled, job.linked.value, SettledOut(job)) else settled
  }

  /** Writes the rebalance job's state onto its swap job again. */
  function Remark(s: State, job: RebalanceJob): (after: State)
    ensures SameBook(s, after) && SameLedger(s, after) && after.worker == s.worker
  {
    if job.linked.Some? then MarkSwapState(s, job.linked.value, job.state) else s
  }

  /** What a tick does with its job when the bridge is healthy. */
  function Proceed(s: State, index: nat, next: RebalanceJob, canSubmit: bool, routeable: bool): (after: State)
    requires s.worker.Idle?
    ensures SameBook(s, after)
    ensures after.worker == if next.state == L1Swap && canSubmit && routeable then AwaitingSwap(index) else Idle
  {
    match next.state
    case Queued => Advance(s, next.id, BridgingOut, next.linked)
    case BridgingOut => Advance(s, next.id, L1Swap, next.linked)
    case L1Swap => if !canSubmit || !routeable then Fail(s, next.id, next.linked) else s.(worker := AwaitingSwap(index))
    case SettlingBack => Settle(s, next)
    case _ => s
  }

  /** From the health answer to the end of the tick, or to the swap request on the L1 exchange. */
  function AfterHealth(s: State, ready: bool, canSubmit: bool, routeable: bool): (after: State)
    requires s.worker.AwaitingHealth? && s.worker.next < |s.rebalances|
    ensures SameBook(s, after)
    ensures after.worker == if ready && s.rebalances[s.worker.next].state == L1Swap && canSubmit && routeable
                            then AwaitingSwap(s.worker.next) else Idle
  {
    var next := s.rebalances[s.worker.next];
    var idle := s.(worker := Idle);
    if !ready then Fail(idle, next.id, next.linked)
    else Proceed(Remark(idle, next), s.worker.next, next, canSubmit, routeable)
  }

  /** `amount` rescaled between two decimal counts, rounded down. */
  function ScaleAtomic(amount: nat, fromDecimals: nat, toDecimals: nat): nat {
    if fromDecimals == toDecimals then amount
    else if fromDecimals > toDecimals then Quotient(amount, Pow10(fromDecimals - toDecimals))
    else amount * Pow10(toDecimals - fromDecimals)
  }

  /** The answer of the L1 exchange: an error, or a returned amount that may be missing. */
  datatype SwapAnswer = Threw | Returned(amount: Option<nat>, l1Decimals: nat, tokenDecimals: nat)

  /** A missing or zero amount counts as the minimum. */
  function ExchangedOut(job: RebalanceJob, answer: SwapAnswer): nat
    requires answer.Returned?
  {
    if answer.amount.Some? && answer.amount.value != 0 then
      ScaleAtomic(answer.amount.value, answer.l1Decimals, answer.tokenDecimals)
    else job.minOut
  }

  /** From the exchange's answer to the end of the tick. */
  function AfterSwap(s: State, answer: SwapAnswer): (after: State)
    requires s.worker.AwaitingSwap? && s.worker.next < |s.rebalances|
    ensures SameBook(s, after) && after.worker.Idle?
  {
    var next := s.rebalances[s.worker.next];
    var idle := s.(worker := Idle);
    match answer
    case Threw => Fail(idle, next.id, next.linked)
    case Returned(_, _, _) =>
      var updated := UpdateRebalanceJob(idle, next.id, SettlingBack, Some(ExchangedOut(next, answer)));
      if next.linked.Some? then MarkSwapState(updated, next.linked.value, SettlingBack) else updated
  }

  // ----- The protocol's invariant -----

  /** The swap job a rebalance job is linked to. */
  function PartnerOf(swaps: seq<SwapJob>, linked: Option<string>): (r: Option<nat>)
    ensures r.Some? ==> linked.Some? && r.value < |swaps| && swaps[r.value].id == linked.value
  {
    if linked.None? then None else FindId(SwapIds(swaps), linked.value)
  }

  /** The two jobs of one swap are in the same state, on the same terms, and finish with the same amount. */
  predicate Agree(swap: SwapJob, rebalance: RebalanceJob) {
    && swap.state == rebalance.state
    && swap.marketId == rebalance.marketId
    && swap.fromSymbol == rebalance.inputSymbol && swap.toSymbol == rebalance.outputSymbol
    && swap.amountIn == rebalance.amountIn && swap.minOut == rebalance.minOut
    && (swap.state == Completed ==> swap.quotedOut == SettledOut(rebalance))
  }

  /** Linked jobs exist on both sides, one to one, and agree. */
  ghost predicate LinkedInStep(swaps: seq<SwapJob>, rebalances: seq<RebalanceJob>) {
    && (forall j :: 0 <= j < |rebalances| && rebalances[j].linked.Some? ==>
          var partner := PartnerOf(swaps, rebalances[j].linked);
          partner.Some? && Agree(swaps[partner.value], rebalances[j]))
    && (forall i, j :: 0 <= i < j < |rebalances| && rebalances[i].linked.Some? ==>
          rebalances[i].linked != rebalances[j].linked)
    && (forall i :: 0 <= i < |swaps| ==> HasRebalance(rebalances, swaps[i].id))
  }

  ghost predicate HasRebalance(rebalances: seq<RebalanceJob>, swapId: string) {
    exists j :: 0 <= j < |rebalances| && rebalances[j].linked == Some(swapId)
  }

  /** Jobs are served in order of arrival, and never bridge in. */
  ghost predicate FirstComeFirstServed(jobs: seq<RebalanceJob>) {
    && (forall i, j :: 0 <= i < j < |jobs| && jobs[j].state != Queued ==> jobs[i].state.Terminal())
    && (forall i :: 0 <= i < |jobs| ==> jobs[i].state != BridgingIn)
  }

  /** A suspended worker still holds the first unfinished job. */
  ghost predicate WorkerInStep(worker: Worker, rebalances: seq<RebalanceJob>) {
    match worker
    case Idle => true
    case AwaitingHealth(next) => NextJob(rebalances) == Some(next)
    case AwaitingSwap(next) => NextJob(rebalances) == Some(next) && rebalances[next].state == L1Swap
  }

  function ReleasesOf(id: string): Event -> int {
    (e: Event) => if (e.Payout? || e.Refund?) && e.swapId == id then 1 else 0
  }

  function PayoutsOf(id: string): Event -> int {
    (e: Event) => if e.Payout? && e.swapId == id then 1 else 0
  }

  /** A swap's lock has been released once if it is finished and never before; by a payout if it completed. */
  ghost predicate ReleasedOnce(swaps: seq<SwapJob>, events: seq<Event>) {
    && (forall i :: 0 <= i < |swaps| ==>
          && Sum(events, ReleasesOf(swaps[i].id)) == (if swaps[i].state.Terminal() then 1 else 0)
          && Sum(events, PayoutsOf(swaps[i].id)) == (if swaps[i].state == Completed then 1 else 0))
    && (forall e :: e in events && !e.Instant? ==> e.swapId in SwapIds(swaps))
  }

  ghost predicate JobsInv(s: State) {
    && Distinct(SwapIds(s.swaps))
    && Distinct(RebalanceIds(s.rebalances))
    && LinkedInStep(s.swaps, s.rebalances)
    && FirstComeFirstServed(s.rebalances)
    && WorkerInStep(s.worker, s.rebalances)
    && ReleasedOnce(s.swaps, s.events)
  }

  /** The transitions the protocol allows. */
  predicate Follows(before: JobState, after: JobState) {
    || before == after
    || (before == Queued && after == BridgingOut)
    || (before == BridgingOut && after == L1Swap)
    || (before == L1Swap && after == SettlingBack)
    || (before == SettlingBack && after == Completed)
    || (!before.Terminal() && after == Failed)
  }

  /** Existing jobs keep their place and terms, change state only as allowed, and stay as they are once finished. */
  ghost predicate JobsFollow(before: State, after: State) {
    && |before.swaps| <= |after.swaps| && |before.rebalances| <= |after.rebalances|
    && (forall i :: 0 <= i < |before.swaps| ==>
          && Follows(before.swaps[i].state, after.swaps[i].state)
          && (before.swaps[i].state.Terminal() ==> after.swaps[i] == before.swaps[i])
          && after.swaps[i] == before.swaps[i].(state := after.swaps[i].state, quotedOut := after.swaps[i].quotedOut)
          && (after.swaps[i].state != Completed ==> after.swaps[i].quotedOut == before.swaps[i].quotedOut))
    && (forall i :: 0 <= i < |before.rebalances| ==>
          && Follows(before.rebalances[i].state, after.rebalances[i].state)
          && (before.rebalances[i].state.Terminal() ==> after.rebalances[i] == before.rebalances[i])
          && after.rebalances[i] == before.rebalances[i].(state := after.rebalances[i].state,
                                                          actualOut := after.rebalances[i].actualOut)
          && (after.rebalances[i].actualOut == before.rebalances[i].actualOut
              || (before.rebalances[i].state == L1Swap && after.rebalances[i].state == SettlingBack)))
  }
}
