/**
  Claims and redemptions of one address and denomination that overlap: each is
  checked, sent and recorded in three steps, with any others in between.
 */
module BridgeOverlaps {
  import opened BridgeClaims
  import opened Outcome
  import opened Sums

  datatype Book = Book(account: Account, pending: seq<Pending>)

  datatype Action =
    | BeginClaim(observed: nat)
    | BeginRedeem(observed: nat, wallet: nat, amount: int)
    | Submit(index: nat, accepted: bool)
    | Finish(index: nat)

  predicate Enabled(b: Book, a: Action) {
    match a
    case Submit(index, _) => index < |b.pending| && !b.pending[index].onChain
    case Finish(index) => index < |b.pending| && b.pending[index].onChain
    case _ => true
  }

  function Without(pending: seq<Pending>, index: nat): seq<Pending>
    requires index < |pending|
  {
    pending[..index] + pending[index + 1..]
  }

  function Begun(b: Book, terms: Result<Pending>): Book {
    if terms.Err? then b else b.(pending := b.pending + [terms.value])
  }

  function Step(token: Token, b: Book, a: Action): Book
    requires Enabled(b, a)
  {
    match a
    case BeginClaim(observed) => Begun(b, ClaimTerms(token, b.account, observed))
    case BeginRedeem(observed, wallet, amount) => Begun(b, RedeemTerms(token, b.account, observed, wallet, amount))
    case Submit(index, accepted) =>
      if accepted then
        Book(OnChain(b.account, b.pending[index]), b.pending[index := b.pending[index].(onChain := true)])
      else b.(pending := Without(b.pending, index))
    case Finish(index) => Book(Recorded(b.account, b.pending[index]), Without(b.pending, index))
  }

  predicate ValidRun(token: Token, b: Book, actions: seq<Action>)
    decreases |actions|
  {
    |actions| == 0 || (Enabled(b, actions[0]) && ValidRun(token, Step(token, b, actions[0]), actions[1..]))
  }

  function Run(token: Token, b: Book, actions: seq<Action>): Book
    requires ValidRun(token, b, actions)
    decreases |actions|
  {
    if |actions| == 0 then b else Run(token, Step(token, b, actions[0]), actions[1..])
  }

  function Empty(): Book {
    Book(Account(0, 0, 0), [])
  }

  // ----- Backing, with what is not yet recorded -----

  /** What recording a pending operation will add to the claimed amount, once its transaction is confirmed. */
  function Unrecorded(): Pending -> int {
    (p: Pending) => if !p.onChain then 0 else if p.mint then p.source else 0 - p.source
  }

  /** Tokens in circulation are worth the claims on record and those still to be recorded. */
  ghost predicate BackedWithPending(token: Token, b: Book)
    requires token.decimals >= token.sourceDecimals
  {
    var factor := Pow10(token.decimals - token.sourceDecimals);
    && b.account.minted - b.account.burned == (b.account.claimed + Sum(b.pending, Unrecorded())) * factor
    && forall p :: p in b.pending ==> p.token == p.source * factor
  }

  lemma TermsAreAligned(token: Token, a: Account, observed: nat, wallet: nat, amount: int)
    requires token.decimals >= token.sourceDecimals
    ensures var factor := Pow10(token.decimals - token.sourceDecimals);
            var claim, redeem := ClaimTerms(token, a, observed), RedeemTerms(token, a, observed, wallet, amount);
            && (claim.Ok? ==> !claim.value.onChain && claim.value.token == claim.value.source * factor)
            && (redeem.Ok? ==> !redeem.value.onChain && redeem.value.token == redeem.value.source * factor)
  {
    hide Pow10;
    if ClaimTerms(token, a, observed).Ok? {
      ScaleUp(ClaimTerms(token, a, observed).value.source, token);
    }
    if RedeemTerms(token, a, observed, wallet, amount).Ok? {
      ScaleDownAligned(amount, token);
    }
  }

  lemma BeginKeepsBacking(token: Token, b: Book, terms: Result<Pending>)
    requires token.decimals >= token.sourceDecimals && BackedWithPending(token, b)
    requires terms.Ok? ==> !terms.value.onChain
    requires terms.Ok? ==> terms.value.token == terms.value.source * Pow10(token.decimals - token.sourceDecimals)
    ensures BackedWithPending(token, Begun(b, terms))
  {
    hide Pow10;
    if terms.Ok? { SumAppend(b.pending, terms.value, Unrecorded()); }
  }

  lemma SubmitKeepsBacking(token: Token, b: Book, index: nat, accepted: bool)
    requires token.decimals >= token.sourceDecimals && BackedWithPending(token, b)
    requires Enabled(b, Submit(index, accepted))
    ensures BackedWithPending(token, Step(token, b, Submit(index, accepted)))
  {
    hide Pow10, Sum;
    var p, factor := b.pending[index], Pow10(token.decimals - token.sourceDecimals);
    var sent := p.(onChain := true);
    assert p in b.pending;
    SumUpdate(b.pending, index, sent, Unrecorded());
    SumRemove(b.pending, index, Unrecorded());
    MulDistributes(b.account.claimed + Sum(b.pending, Unrecorded()), Unrecorded()(sent), factor);
    MulDistributes(p.source, 0 - p.source, factor);
  }

  lemma FinishKeepsBacking(token: Token, b: Book, index: nat)
    requires token.decimals >= token.sourceDecimals && BackedWithPending(token, b) && Enabled(b, Finish(index))
    ensures BackedWithPending(token, Step(token, b, Finish(index)))
  {
    hide Pow10, Sum;
    SumRemove(b.pending, index, Unrecorded());
  }

  lemma StepKeepsBacking(token: Token, b: Book, a: Action)
    requires token.decimals >= token.sourceDecimals && BackedWithPending(token, b) && Enabled(b, a)
    ensures BackedWithPending(token, Step(token, b, a))
  {
    hide BackedWithPending, ClaimTerms, RedeemTerms, Begun;
    match a
    case BeginClaim(observed) =>
      TermsAreAligned(token, b.account, observed, 0, 0);
      BeginKeepsBacking(token, b, ClaimTerms(token, b.account, observed));
    case BeginRedeem(observed, wallet, amount) =>
      TermsAreAligned(token, b.account, observed, wallet, amount);
      BeginKeepsBacking(token, b, RedeemTerms(token, b.account, observed, wallet, amount));
    case Submit(index, accepted) => SubmitKeepsBacking(token, b, index, accepted);
    case Finish(index) => FinishKeepsBacking(token, b, index);
  }

  lemma {:induction false} RunKeepsBacking(token: Token, b: Book, actions: seq<Action>)
    requires token.decimals >= token.sourceDecimals && BackedWithPending(token, b) && ValidRun(token, b, actions)
    ensures BackedWithPending(token, Run(token, b, actions))
    decreases |actions|
  {
    hide BackedWithPending, Step;
    if |actions| > 0 {
      StepKeepsBacking(token, b, actions[0]);
      RunKeepsBacking(token, Step(token, b, actions[0]), actions[1..]);
    }
  }

  /**
    However claims and redemptions overlap, the tokens minted and not burned are
    worth what is recorded as claimed together with what is still to be recorded.
   */
  lemma {:induction false} OverlapsStayBacked(token: Token, actions: seq<Action>)
    requires token.decimals >= token.sourceDecimals && ValidRun(token, Empty(), actions)
    ensures var b := Run(token, Empty(), actions);
            b.account.minted - b.account.burned ==
              (b.account.claimed + Sum(b.pending, Unrecorded())) * Pow10(token.decimals - token.sourceDecimals)
  {
    hide Run, Pow10;
    RunKeepsBacking(token, Empty(), actions);
  }

  // ----- The claimed amount -----

  /**
    The recording of a claim finds no more claimed than its check did, and that of
    a redemption finds what it releases still claimed. The service does not look.
   */
  predicate Timely(b: Book, a: Action)
    requires Enabled(b, a)
  {
    a.Finish? ==>
      var p := b.pending[a.index];
      if p.mint then b.account.claimed <= p.before else p.source <= b.account.claimed
  }

  /** Recording keeps the claimed amount between 0 and the balance its check observed exactly when it is timely. */
  lemma TimelyMeansWithin(token: Token, b: Book, index: nat)
    requires Enabled(b, Finish(index)) && b.account.claimed >= 0
    ensures var p, claimed := b.pending[index], Step(token, b, Finish(index)).account.claimed;
            Timely(b, Finish(index)) <==> if p.mint then 0 <= claimed <= p.before + p.source else 0 <= claimed
  {
  }

  predicate TimelyRun(token: Token, b: Book, actions: seq<Action>)
    requires ValidRun(token, b, actions)
    decreases |actions|
  {
    |actions| == 0 || (Timely(b, actions[0]) && TimelyRun(token, Step(token, b, actions[0]), actions[1..]))
  }

  ghost predicate ObservedAtMost(actions: seq<Action>, largest: nat) {
    forall a :: a in actions && (a.BeginClaim? || a.BeginRedeem?) ==> a.observed <= largest
  }

  /** Everything claimed, and everything that pending claims would make claimed, was once observed. */
  ghost predicate Within(b: Book, largest: nat) {
    0 <= b.account.claimed <= largest && forall p :: p in b.pending && p.mint ==> p.before + p.source <= largest
  }

  lemma StepStaysWithin(token: Token, b: Book, a: Action, largest: nat)
    requires Enabled(b, a) && Timely(b, a) && Within(b, largest)
    requires a.BeginClaim? || a.BeginRedeem? ==> a.observed <= largest
    ensures Within(Step(token, b, a), largest)
  {
    hide Pow10, Scale;
    if a.Submit? || a.Finish? {
      assert b.pending[a.index] in b.pending;
    }
  }

  lemma {:induction false} RunStaysWithin(token: Token, b: Book, actions: seq<Action>, largest: nat)
    requires ValidRun(token, b, actions) && TimelyRun(token, b, actions) && Within(b, largest)
    requires ObservedAtMost(actions, largest)
    ensures Within(Run(token, b, actions), largest)
    decreases |actions|
  {
    hide Within, Step;
    if |actions| > 0 {
      StepStaysWithin(token, b, actions[0], largest);
      RunStaysWithin(token, Step(token, b, actions[0]), actions[1..], largest);
    }
  }

  /** When every recording is timely, the claimed amount stays between 0 and the largest balance observed. */
  lemma {:induction false} TimelyRunsStayWithin(token: Token, actions: seq<Action>, largest: nat)
    requires ValidRun(token, Empty(), actions) && TimelyRun(token, Empty(), actions)
    requires ObservedAtMost(actions, largest)
    ensures 0 <= Run(token, Empty(), actions).account.claimed <= largest
  {
    hide Run, TimelyRun, ObservedAtMost;
    RunStaysWithin(token, Empty(), actions, largest);
  }

  // ----- Two at once -----

  /** Two operations with the same terms, checked before either is recorded. */
  function Twice(begin: Action): seq<Action> {
    [begin, begin, Submit(0, true), Submit(1, true), Finish(0), Finish(0)]
  }

  lemma {:induction false} RunOfSix(token: Token, b: seq<Book>, actions: seq<Action>)
    requires |b| == 7 && |actions| == 6
    requires forall i :: 0 <= i < 6 ==> Enabled(b[i], actions[i]) && Step(token, b[i], actions[i]) == b[i + 1]
    ensures ValidRun(token, b[0], actions) && Run(token, b[0], actions) == b[6]
  {
    hide Step;
    assert forall i :: 0 <= i < 6 ==> actions[i..] == [actions[i]] + actions[i + 1..];
    assert ValidRun(token, b[6], actions[6..]) && Run(token, b[6], actions[6..]) == b[6];
    assert ValidRun(token, b[5], actions[5..]) && Run(token, b[5], actions[5..]) == b[6];
    assert ValidRun(token, b[4], actions[4..]) && Run(token, b[4], actions[4..]) == b[6];
    assert ValidRun(token, b[3], actions[3..]) && Run(token, b[3], actions[3..]) == b[6];
    assert ValidRun(token, b[2], actions[2..]) && Run(token, b[2], actions[2..]) == b[6];
    assert ValidRun(token, b[1], actions[1..]) && Run(token, b[1], actions[1..]) == b[6];
    assert actions[0..] == actions;
  }

  lemma {:induction false} TwiceRuns(token: Token, a: Account, begin: Action, p: Pending)
    requires (begin.BeginClaim? || begin.BeginRedeem?) && !p.onChain
    requires Begun(Book(a, []), Ok(p)) == Step(token, Book(a, []), begin)
    requires Begun(Book(a, [p]), Ok(p)) == Step(token, Book(a, [p]), begin)
    ensures ValidRun(token, Book(a, []), Twice(begin))
    ensures Run(token, Book(a, []), Twice(begin)) == Book(Recorded(Recorded(OnChain(OnChain(a, p), p), p), p), [])
  {
    hide ClaimTerms, RedeemTerms, Recorded, OnChain;
    var sent, once := p.(onChain := true), OnChain(a, p);
    SameEffects(a, p);
    SameEffects(once, p);
    var both := OnChain(once, p);
    SameEffects(both, p);
    SameEffects(Recorded(both, p), p);
    var books := [Book(a, []), Book(a, [p]), Book(a, [p, p]), Book(once, [sent, p]), Book(both, [sent, sent]),
                  Book(Recorded(both, p), [sent]), Book(Recorded(Recorded(both, p), p), [])];
    assert [] + [p] == [p] && [p] + [p] == [p, p];
    assert Step(token, books[0], begin) == books[1] && Step(token, books[1], begin) == books[2];
    assert Step(token, books[2], Submit(0, true)) == books[3];
    assert Step(token, books[3], Submit(1, true)) == books[4];
    assert Step(token, books[4], Finish(0)) == books[5];
    assert Step(token, books[5], Finish(0)) == books[6];
    RunOfSix(token, books, Twice(begin));
  }

  lemma SameEffects(a: Account, p: Pending)
    ensures Recorded(a, p.(onChain := true)) == Recorded(a, p)
  {
  }

  /**
    Two overlapping claims of the same balance mint it twice and record it twice,
    which is always more than was observed.
   */
  lemma {:induction false} OverlappingClaimsCountTwice(token: Token, a: Account, observed: nat)
    requires ClaimTerms(token, a, observed).Ok?
    ensures ValidRun(token, Book(a, []), Twice(BeginClaim(observed)))
    ensures var b := Run(token, Book(a, []), Twice(BeginClaim(observed)));
            && b.account.claimed == a.claimed + 2 * (observed - a.claimed) > observed
            && b.account.minted == a.minted + 2 * ClaimTerms(token, a, observed).value.token
  {
    hide Run, ValidRun, Twice;
    TwiceRuns(token, a, BeginClaim(observed), ClaimTerms(token, a, observed).value);
  }

  /** Two overlapping redemptions release the same amount twice, and over half of it leaves less than nothing. */
  lemma {:induction false} OverlappingRedemptionsCountTwice(token: Token, a: Account, observed: nat, wallet: nat,
                                                           amount: int)
    requires RedeemTerms(token, a, observed, wallet, amount).Ok?
    ensures ValidRun(token, Book(a, []), Twice(BeginRedeem(observed, wallet, amount)))
    ensures var b := Run(token, Book(a, []), Twice(BeginRedeem(observed, wallet, amount)));
            var release := RedeemTerms(token, a, observed, wallet, amount).value.source;
            && b.account.claimed == a.claimed - 2 * release
            && (b.account.claimed < 0 <==> 2 * release > a.claimed)
  {
    hide Run, ValidRun, Twice;
    TwiceRuns(token, a, BeginRedeem(observed, wallet, amount), RedeemTerms(token, a, observed, wallet, amount).value);
  }
}
