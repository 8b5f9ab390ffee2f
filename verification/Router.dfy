/**
  The liquidity router: whether a swap is filled from local inventory at once,
  handed to the asynchronous protocol, or refused.
 */
module Router {
  import opened AppState
  import opened Ledger
  import opened Outcome
  import opened SwapProtocol

  datatype RoutePreference = Auto | Local | Dex

  datatype ExecuteInput = ExecuteInput(
    swap: SwapInput,            // amountIn parsed; quotedOut and minOut are set by the quote
    preference: RoutePreference,
    routeable: bool,
    bridgeReady: bool,
    l1Out: nat,                 // what the L1 exchange simulation returned
    spreadBps: nat,
    configured: int,            // the router's inventory as the quote read it, before awaiting the wallet balance
    vaultBalance: nat,          // the matcher wallet's on-chain balance of the output token
    withinNotional: bool)

  datatype RouteMode = InstantLocal | AsyncRebalance | UnsupportedAsset

  datatype Quote = Quote(mode: RouteMode, unavailable: bool, quotedOut: nat, minOut: nat)

  /** BigInt division truncates; a spread above 100% quotes a negative amount, which no inventory check refuses. */
  predicate SpreadWithinBounds(input: ExecuteInput) {
    input.spreadBps <= 10_000
  }

  function LocalInventory(input: ExecuteInput): int {
    if input.configured < input.vaultBalance then input.configured else input.vaultBalance
  }

  function MakeQuote(input: ExecuteInput): Quote
    requires SpreadWithinBounds(input)
  {
    if !input.routeable then Quote(UnsupportedAsset, true, 0, 0)
    else
      var minOut := input.l1Out * (10_000 - input.spreadBps) / 10_000;
      var canInstantLocal := input.bridgeReady && LocalInventory(input) >= minOut && input.withinNotional;
      match input.preference
      case Local =>
        Quote(if canInstantLocal then InstantLocal else AsyncRebalance, !canInstantLocal, input.l1Out, minOut)
      case Dex => Quote(AsyncRebalance, false, input.l1Out, minOut)
      case Auto => Quote(if canInstantLocal then InstantLocal else AsyncRebalance, false, input.l1Out, minOut)
  }

  function IntentOf(input: ExecuteInput, quote: Quote): Intent {
    Intent(input.swap.user, input.swap.fromToken, input.swap.toToken, input.swap.fromSymbol, input.swap.toSymbol,
           input.swap.amountIn, quote.minOut)
  }

  /** The stretch of `execute` from the quote to its first later `await`, or to its end. */
  function BeginExecute(s: State, input: ExecuteInput, swapId: string, rebalanceId: string): Result<State>
    requires SpreadWithinBounds(input)
  {
    var quote := MakeQuote(input);
    if s.Available(Key(input.swap.user, input.swap.fromToken)) < input.swap.amountIn then
      Err("Insufficient available balance for router swap")
    else if quote.mode == UnsupportedAsset then Err("This market is dark-pool only")
    else if input.preference == Local && quote.unavailable then
      Err("Local liquidity is unavailable for this trade size")
    else if quote.mode == InstantLocal then Ok(s.(intents := s.intents + [IntentOf(input, quote)]))
    else
      CreateAsyncSwapJob(s, input.swap.(quotedOut := quote.quotedOut, minOut := quote.minOut), swapId, rebalanceId)
  }

  function ApplyInstantSwap(s: State, intent: Intent): State {
    var out: int := intent.minOut;
    s.(inventory := AddInventory(AddInventory(s.inventory, intent.fromSymbol, intent.amountIn), intent.toSymbol, -out))
  }

  /** What follows the awaited vault settlement: the debit, the credit and the inventory, with no new balance check. */
  function FinishInstant(s: State, index: nat): State
    requires index < |s.intents|
  {
    var intent := s.intents[index];
    var amount := intent.amountIn;
    var debited := Add(s.balances, Key(intent.user, intent.fromToken), -amount);
    var credited := Add(debited, Key(intent.user, intent.toToken), intent.minOut);
    ApplyInstantSwap(s.(balances := credited,
                        intents := s.intents[..index] + s.intents[index + 1..],
                        events := s.events + [Instant(intent)]),
                     intent)
  }

  /**
    An instant fill is only promised when the route allows it, and the balance, the
    wallet and the inventory that the quote read cover it; the present inventory
    does too, unless it has fallen since.
   */
  lemma InstantOnlyWhenCovered(s: State, input: ExecuteInput, swapId: string, rebalanceId: string)
    requires SpreadWithinBounds(input)
    requires BeginExecute(s, input, swapId, rebalanceId).Ok?
    ensures var after := BeginExecute(s, input, swapId, rebalanceId).value;
            after.intents != s.intents <==>
              && input.preference != Dex && input.routeable && input.bridgeReady && input.withinNotional
              && input.l1Out * (10_000 - input.spreadBps) / 10_000 <= LocalInventory(input)
    ensures var after := BeginExecute(s, input, swapId, rebalanceId).value;
            after.intents != s.intents ==>
              && after == s.(intents := after.intents)
              && var intent := after.intents[|s.intents|];
                 && after.intents == s.intents + [intent]
                 && intent.minOut <= input.configured
                 && (input.configured <= Inventory(s, intent.toSymbol) ==>
                       intent.minOut <= Inventory(s, intent.toSymbol))
                 && intent.minOut <= input.vaultBalance
                 && intent.minOut <= input.l1Out
                 && intent.amountIn <= s.Available(Key(intent.user, intent.fromToken))
  {
    SpreadLowers(input.l1Out, input.spreadBps);
  }

  lemma SpreadLowers(l1Out: nat, spreadBps: nat)
    requires spreadBps <= 10_000
    ensures 0 <= l1Out * (10_000 - spreadBps) / 10_000 <= l1Out
  {
  }
}
