/**
  Claiming bridged balances as minted tokens and redeeming them, for one address
  and denomination: the check, the transaction and the update of the store, and
  what holds when nothing comes between the three. The observed bridge balance, the
  wallet's token balance and whether the chain call goes through are inputs.
 */
module BridgeClaims {
  import opened Ledger
  import opened Outcome
  import opened Sums
  import opened SwapProtocol

  datatype Token = Token(decimals: nat, sourceDecimals: nat)

  /** What the store keeps (`claimed`) and what the chain has done (`minted`, `burned`). */
  datatype Account = Account(claimed: int, minted: int, burned: int)

  datatype Preview = Preview(claimable: nat, mintable: nat, redeemable: int)

  /** BigInt division truncates toward zero, so a negative amount scales as its opposite does. */
  function Scale(amount: int, fromDecimals: nat, toDecimals: nat): int {
    if amount >= 0 then ScaleAtomic(amount, fromDecimals, toDecimals)
    else 0 - ScaleAtomic(0 - amount, fromDecimals, toDecimals)
  }

  function MakePreview(token: Token, a: Account, observed: nat, wallet: nat): Preview {
    var claimable := if observed > a.claimed then observed - a.claimed else 0;
    var claimedMinted := Scale(a.claimed, token.sourceDecimals, token.decimals);
    Preview(claimable, ScaleAtomic(claimable, token.sourceDecimals, token.decimals),
            if wallet < claimedMinted then wallet else claimedMinted)
  }

  /**
    A claim or redemption that has been checked and not yet recorded: what was
    claimed when it was checked, and its amount in source and in token units.
   */
  datatype Pending = Pending(mint: bool, before: int, source: nat, token: nat, onChain: bool)

  function ClaimTerms(token: Token, a: Account, observed: nat): Result<Pending> {
    var preview := MakePreview(token, a, observed, 0);
    if preview.claimable <= 0 then Err("Nothing is available to claim")
    else if preview.mintable <= 0 then Err("Claimable amount rounds down to zero")
    else Ok(Pending(true, a.claimed, preview.claimable, preview.mintable, false))
  }

  function RedeemTerms(token: Token, a: Account, observed: nat, wallet: nat, amount: int): Result<Pending> {
    if amount <= 0 then Err("Redeem amount must be positive")
    else if token.decimals < token.sourceDecimals then Err("Exponent must be non-negative")
    else if amount % Pow10(token.decimals - token.sourceDecimals) != 0 then Err("Redeem amount must align")
    else
      var release := ScaleAtomic(amount, token.decimals, token.sourceDecimals);
      if amount > MakePreview(token, a, observed, wallet).redeemable then
        Err("Redeem amount exceeds the wallet-backed claim")
      else if release > a.claimed then Err("Redeem amount exceeds the tracked claim")
      else Ok(Pending(false, a.claimed, release, amount, false))
  }

  /** The confirmed transaction. */
  function OnChain(a: Account, p: Pending): Account {
    if p.mint then a.(minted := a.minted + p.token) else a.(burned := a.burned + p.token)
  }

  /** The update of the store, from what it holds at that moment. */
  function Recorded(a: Account, p: Pending): Account {
    a.(claimed := if p.mint then a.claimed + p.source else a.claimed - p.source)
  }

  /** All of a claim or a redemption, with nothing in between. */
  function Complete(a: Account, terms: Result<Pending>, chainAccepts: bool): Result<Account> {
    if terms.Err? then Err(terms.message)
    else if !chainAccepts then Err("Transaction failed")
    else Ok(Recorded(OnChain(a, terms.value), terms.value))
  }

  function Claim(token: Token, a: Account, observed: nat, chainAccepts: bool): Result<Account> {
    Complete(a, ClaimTerms(token, a, observed), chainAccepts)
  }

  function Redeem(token: Token, a: Account, observed: nat, wallet: nat, amount: int,
                  chainAccepts: bool): Result<Account> {
    Complete(a, RedeemTerms(token, a, observed, wallet, amount), chainAccepts)
  }

  // ----- Every sequence of claims and redemptions -----

  datatype Operation =
    | ClaimOp(observed: nat, chainAccepts: bool)
    | RedeemOp(observed: nat, wallet: nat, amount: int, chainAccepts: bool)

  function Apply(token: Token, a: Account, op: Operation): Account {
    var r := match op
             case ClaimOp(observed, accepts) => Claim(token, a, observed, accepts)
             case RedeemOp(observed, wallet, amount, accepts) => Redeem(token, a, observed, wallet, amount, accepts);
    if r.Ok? then r.value else a
  }

  function ApplyAll(token: Token, ops: seq<Operation>): Account {
    if |ops| == 0 then Account(0, 0, 0) else Apply(token, ApplyAll(token, ops[..|ops| - 1]), ops[|ops| - 1])
  }

  function LargestObserved(ops: seq<Operation>): nat {
    if |ops| == 0 then 0
    else
      var front, last := LargestObserved(ops[..|ops| - 1]), ops[|ops| - 1].observed;
      if front < last then last else front
  }

  /** Tokens in circulation are worth exactly the claims on record. */
  predicate Backed(token: Token, a: Account)
    requires token.decimals >= token.sourceDecimals
  {
    a.minted - a.burned == a.claimed * Pow10(token.decimals - token.sourceDecimals)
  }

  lemma ScaleUp(amount: nat, token: Token)
    requires token.decimals >= token.sourceDecimals
    ensures ScaleAtomic(amount, token.sourceDecimals, token.decimals) ==
            amount * Pow10(token.decimals - token.sourceDecimals)
  {
  }

  /** An aligned amount scales down to a number of source units that scales back up to it. */
  lemma ScaleDownAligned(amount: nat, token: Token)
    requires token.decimals >= token.sourceDecimals
    requires amount % Pow10(token.decimals - token.sourceDecimals) == 0
    ensures ScaleAtomic(amount, token.decimals, token.sourceDecimals) * Pow10(token.decimals - token.sourceDecimals)
            == amount
  {
  }

  lemma ClaimKeepsBacking(token: Token, a: Account, observed: nat, accepts: bool)
    requires token.decimals >= token.sourceDecimals && Backed(token, a) && a.claimed >= 0
    ensures var r := Claim(token, a, observed, accepts);
            r.Ok? ==> Backed(token, r.value) && a.claimed < r.value.claimed == observed
  {
  }

  lemma RedeemKeepsBacking(token: Token, a: Account, observed: nat, wallet: nat, amount: int, accepts: bool)
    requires token.decimals >= token.sourceDecimals && Backed(token, a) && a.claimed >= 0
    ensures var r := Redeem(token, a, observed, wallet, amount, accepts);
            r.Ok? ==> Backed(token, r.value) && 0 <= r.value.claimed <= a.claimed && amount <= wallet
  {
    if Redeem(token, a, observed, wallet, amount, accepts).Ok? {
      ScaleDownAligned(amount, token);
      var release: int := ScaleAtomic(amount, token.decimals, token.sourceDecimals);
      MulDistributes(a.claimed, 0 - release, Pow10(token.decimals - token.sourceDecimals));
      MulDistributes(release, 0 - release, Pow10(token.decimals - token.sourceDecimals));
    }
  }

  /**
    With at least as many token decimals as source decimals, after any sequence of
    claims and redemptions the tokens minted and not burned are worth exactly what
    is recorded as claimed, which is never negative nor above the largest balance
    ever observed.
   */
  lemma {:induction false} TokensAreBacked(token: Token, ops: seq<Operation>)
    requires token.decimals >= token.sourceDecimals
    ensures var a := ApplyAll(token, ops);
            Backed(token, a) && 0 <= a.claimed <= LargestObserved(ops)
  {
    if |ops| > 0 {
      var front, op := ops[..|ops| - 1], ops[|ops| - 1];
      TokensAreBacked(token, front);
      var a := ApplyAll(token, front);
      match op
      case ClaimOp(observed, accepts) => ClaimKeepsBacking(token, a, observed, accepts);
      case RedeemOp(observed, wallet, amount, accepts) =>
        RedeemKeepsBacking(token, a, observed, wallet, amount, accepts);
    }
  }

  /**
    With fewer token decimals nothing can be redeemed, and a claim is minted in
    full exactly when the claimable amount has no digits below the token's unit.
   */
  lemma CoarserTokenRounds(token: Token, a: Account, observed: nat, wallet: nat, amount: int, accepts: bool)
    requires token.decimals < token.sourceDecimals
    ensures Redeem(token, a, observed, wallet, amount, accepts).Err?
    ensures var r := Claim(token, a, observed, accepts);
            var unit := Pow10(token.sourceDecimals - token.decimals);
            var claimable := MakePreview(token, a, observed, 0).claimable;
            r.Ok? ==> ((r.value.minted - a.minted) * unit == r.value.claimed - a.claimed <==> claimable % unit == 0)
  {
    DivMod(MakePreview(token, a, observed, 0).claimable, Pow10(token.sourceDecimals - token.decimals));
  }

  /**
    A claim is accepted exactly when more has been observed than claimed, by at
    least one unit of the token; it is for all of that, rounded down.
   */
  lemma ClaimAcceptedWhen(token: Token, a: Account, observed: nat)
    ensures var r, more := ClaimTerms(token, a, observed), observed - a.claimed;
            if token.decimals >= token.sourceDecimals then
              var factor := Pow10(token.decimals - token.sourceDecimals);
              (r.Ok? <==> more > 0) && (r.Ok? ==> r.value.source == more && r.value.token == more * factor)
            else
              var unit := Pow10(token.sourceDecimals - token.decimals);
              && (r.Ok? <==> more >= unit)
              && (r.Ok? ==> r.value.source == more && r.value.token * unit <= more < (r.value.token + 1) * unit)
  {
    hide Pow10;
    var more := observed - a.claimed;
    if token.decimals < token.sourceDecimals {
      var unit := Pow10(token.sourceDecimals - token.decimals);
      if more > 0 {
        DivMod(more, unit);
        MulDistributes(more / unit, 1, unit);
        if more / unit <= 0 { MulMonotone(unit, more / unit, 0); } else { MulMonotone(unit, 1, more / unit); }
      }
    } else if more > 0 {
      ScaleUp(more, token);
      MulMonotone(more, 1, Pow10(token.decimals - token.sourceDecimals));
    }
  }

  /**
    Where the token has at least as many decimals, a redemption is accepted exactly
    when its amount is positive, a whole number of source units, held by the wallet
    and within what is claimed.
   */
  lemma RedeemAcceptedWhen(token: Token, a: Account, observed: nat, wallet: nat, amount: int)
    requires token.decimals >= token.sourceDecimals
    ensures var r, factor := RedeemTerms(token, a, observed, wallet, amount),
                             Pow10(token.decimals - token.sourceDecimals);
            && (r.Ok? <==> amount > 0 && amount % factor == 0 && amount <= wallet && amount <= a.claimed * factor)
            && (r.Ok? ==> r.value.token == amount && r.value.source * factor == amount)
  {
    hide Pow10, ScaleAtomic;
    var factor := Pow10(token.decimals - token.sourceDecimals);
    if a.claimed >= 0 { ScaleUp(a.claimed, token); } else { ScaleUp(0 - a.claimed, token); }
    MulDistributes(a.claimed, 0 - a.claimed, factor);
    if amount > 0 && amount % factor == 0 {
      ScaleDownAligned(amount, token);
      var release: int := ScaleAtomic(amount, token.decimals, token.sourceDecimals);
      if release > a.claimed { MulMonotone(factor, a.claimed + 1, release); }
      MulDistributes(a.claimed, 1, factor);
    }
  }

  // ----- The store -----

  class ClaimStore {
    var bridgeClaims: Bucket
    ghost var minted: Bucket
    ghost var burned: Bucket

    ghost function At(k: Key): Account
      reads this
    {
      Account(Get(bridgeClaims, k), Get(minted, k), Get(burned, k))
    }

    constructor ()
      ensures forall k :: At(k) == Account(0, 0, 0)
    {
      bridgeClaims, minted, burned := map[], map[], map[];
    }

    method CheckClaim(token: Token, k: Key, observed: nat) returns (r: Result<Pending>)
      ensures r == ClaimTerms(token, At(k), observed)
    {
      var claimed := Get(bridgeClaims, k);
      var claimable: nat := if observed > claimed then observed - claimed else 0;
      if claimable <= 0 {
        return Err("Nothing is available to claim");
      }
      var mintable := ScaleAtomic(claimable, token.sourceDecimals, token.decimals);
      if mintable <= 0 {
        return Err("Claimable amount rounds down to zero");
      }
      r := Ok(Pending(true, claimed, claimable, mintable, false));
    }

    method CheckRedeem(token: Token, k: Key, observed: nat, wallet: nat, amount: int) returns (r: Result<Pending>)
      ensures r == RedeemTerms(token, At(k), observed, wallet, amount)
    {
      if amount <= 0 {
        return Err("Redeem amount must be positive");
      }
      if token.decimals < token.sourceDecimals {
        return Err("Exponent must be non-negative");
      }
      var claimed := Get(bridgeClaims, k);
      var precisionFactor := Pow10(token.decimals - token.sourceDecimals);
      if amount % precisionFactor != 0 {
        return Err("Redeem amount must align");
      }
      var claimedMinted := Scale(claimed, token.sourceDecimals, token.decimals);
      var redeemable := if wallet < claimedMinted then wallet else claimedMinted;
      if amount > redeemable {
        return Err("Redeem amount exceeds the wallet-backed claim");
      }
      var release := ScaleAtomic(amount, token.decimals, token.sourceDecimals);
      if release > claimed {
        return Err("Redeem amount exceeds the tracked claim");
      }
      r := Ok(Pending(false, claimed, release, amount, false));
    }

    /** The receipt is in: the chain has minted or burned. */
    ghost method Confirm(k: Key, p: Pending)
      modifies this`minted, this`burned
      ensures At(k) == OnChain(old(At(k)), p)
      ensures forall other :: other != k ==> At(other) == old(At(other))
    {
      if p.mint {
        minted := Add(minted, k, p.token);
      } else {
        burned := Add(burned, k, p.token);
      }
    }

    /** The final `mutate`, which reads the claimed amount again. */
    method Record(k: Key, p: Pending)
      modifies this`bridgeClaims
      ensures At(k) == Recorded(old(At(k)), p)
      ensures forall other :: other != k ==> At(other) == old(At(other))
    {
      var source: int := p.source;
      bridgeClaims := Add(bridgeClaims, k, if p.mint then source else -source);
    }

    /** A claim that nothing overlaps. */
    method ClaimBridged(token: Token, k: Key, observed: nat, chainAccepts: bool) returns (ok: bool)
      modifies this
      ensures var r := Claim(token, old(At(k)), observed, chainAccepts);
              ok == r.Ok? && At(k) == if r.Ok? then r.value else old(At(k))
      ensures forall other :: other != k ==> At(other) == old(At(other))
    {
      var terms := CheckClaim(token, k, observed);
      if terms.Err? || !chainAccepts {
        return false;
      }
      Confirm(k, terms.value);
      Record(k, terms.value);
      ok := true;
    }

    /** A redemption that nothing overlaps. */
    method RedeemBridged(token: Token, k: Key, observed: nat, wallet: nat, amount: int, chainAccepts: bool)
      returns (ok: bool)
      modifies this
      ensures var r := Redeem(token, old(At(k)), observed, wallet, amount, chainAccepts);
              ok == r.Ok? && At(k) == if r.Ok? then r.value else old(At(k))
      ensures forall other :: other != k ==> At(other) == old(At(other))
    {
      var terms := CheckRedeem(token, k, observed, wallet, amount);
      if terms.Err? || !chainAccepts {
        return false;
      }
      Confirm(k, terms.value);
      Record(k, terms.value);
      ok := true;
    }
  }
}
