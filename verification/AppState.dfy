/** The persisted records of the matcher, as one value. */
module AppState {
  import opened Ledger
  import opened Outcome

  datatype Side = Buy | Sell

  datatype OrderStatus = Open | Partial | Filled | Cancelled

  datatype Order = Order(
    id: string,
    user: Address,
    marketId: string,
    side: Side,
    limitPrice: nat,
    quantity: nat,
    remaining: nat,
    reservedToken: Address,
    reserved: nat,
    status: OrderStatus,
    createdAt: int)
  {
    predicate Live() { status == Open || status == Partial }

    function ReserveKey(): Key { Key(user, reservedToken) }
  }

  /** One pass of the match loop, as reported to `anchorBatch`. */
  datatype Fill = Fill(
    buyId: string,
    sellId: string,
    buyer: Address,
    seller: Address,
    baseToken: Address,
    quoteToken: Address,
    base: nat,
    price: nat,
    cost: nat)

  datatype JobState = Queued | BridgingOut | BridgingIn | L1Swap | SettlingBack | Completed | Failed
  {
    predicate Terminal() { this == Completed || this == Failed }
  }

  datatype SwapJob = SwapJob(
    id: string,
    user: Address,
    marketId: string,
    fromToken: Address,
    toToken: Address,
    fromSymbol: string,
    toSymbol: string,
    amountIn: int,
    quotedOut: nat,
    minOut: nat,
    state: JobState)
  {
    function LockKey(): Key { Key(user, fromToken) }
  }

  datatype RebalanceJob = RebalanceJob(
    id: string,
    marketId: string,
    inputSymbol: string,
    outputSymbol: string,
    amountIn: int,
    minOut: nat,
    linked: Option<string>,
    actualOut: Option<nat>,
    state: JobState)

  /** An instant fill whose on-chain settlement is still awaited by `router.execute`. */
  datatype Intent = Intent(
    user: Address,
    fromToken: Address,
    toToken: Address,
    fromSymbol: string,
    toSymbol: string,
    amountIn: int,
    minOut: nat)

  /** Everything that ever moved value across the boundary of the user ledger or released a swap's lock. */
  datatype Event =
    | Payout(swapId: string, user: Address, fromToken: Address, amountIn: int, toToken: Address, amountOut: nat)
    | Refund(swapId: string, user: Address, fromToken: Address, amountIn: int)
    | Instant(intent: Intent)

  /** Where the rebalance worker is suspended; the index is its `next` job. */
  datatype Worker = Idle | AwaitingHealth(next: nat) | AwaitingSwap(next: nat)

  datatype State = State(
    balances: Bucket,
    locked: Bucket,
    orders: seq<Order>,
    fills: seq<Fill>,
    swaps: seq<SwapJob>,
    rebalances: seq<RebalanceJob>,
    inventory: map<string, int>,
    intents: seq<Intent>,
    worker: Worker,
    events: seq<Event>)
  {
    function Available(k: Key): int { Get(balances, k) }

    function Locked(k: Key): int { Get(locked, k) }
  }

  datatype Market = Market(baseToken: Address, quoteToken: Address, baseDecimals: nat)

  type Markets = map<string, Market>

  /** Available plus locked, over all users. */
  ghost function UserTotal(s: State, token: Address): int {
    Total(s.balances, token) + Total(s.locked, token)
  }

  function Inventory(s: State, symbol: string): int {
    if symbol in s.inventory then s.inventory[symbol] else 0
  }

  /** The order book and the awaited fills are untouched. */
  ghost predicate SameBook(s: State, t: State) {
    t.orders == s.orders && t.fills == s.fills && t.intents == s.intents
  }

  /** So are the ledger and the log. */
  ghost predicate SameLedger(s: State, t: State) {
    t.balances == s.balances && t.locked == s.locked && t.events == s.events
  }

  /** The first position holding the id, as `find` reports it. */
  function FindId(ids: seq<string>, id: string): (r: Option<nat>)
    ensures r.Some? ==> r.value < |ids| && ids[r.value] == id && id !in ids[..r.value]
    ensures r.None? <==> id !in ids
  {
    if |ids| == 0 then None
    else
      var front := FindId(ids[..|ids| - 1], id);
      if front.Some? then front
      else if ids[|ids| - 1] == id then Some(|ids| - 1)
      else None
  }

  function OrderIds(orders: seq<Order>): seq<string> { seq(|orders|, i requires 0 <= i < |orders| => orders[i].id) }

  function SwapIds(jobs: seq<SwapJob>): seq<string> { seq(|jobs|, i requires 0 <= i < |jobs| => jobs[i].id) }

  function RebalanceIds(jobs: seq<RebalanceJob>): seq<string> {
    seq(|jobs|, i requires 0 <= i < |jobs| => jobs[i].id)
  }

  ghost predicate Distinct<T>(s: seq<T>) {
    forall i, j :: 0 <= i < j < |s| ==> s[i] != s[j]
  }
}
