/**
 * The books of one market: what its tokens, its escrow balance and its history have to do with
 * each other, and what every kind of event does to them.
 */
module Accounts {
  import opened Words
  import opened Storage
  import opened Vectors
  import opened Addresses
  import opened TokenModel
  import opened MarketModel
  import opened Trading
  import opened Protocol

  /** Every outcome's supply is the sets minted, less the sets burned, less the shares claimed. */
  ghost predicate SuppliesAgree(p: Pool) {
    && |p.market.shares| == p.market.terms.numOutcomes == |p.ledger.claimed|
    && forall i | 0 <= i < |p.market.shares| ::
         && Conserved(p.market.shares[i])
         && p.market.shares[i].supply + p.ledger.claimed[i] + p.ledger.sold == p.ledger.bought
  }

  /** The market is resolved exactly when it has a payout vector that was verified; before that nothing was claimed. */
  ghost predicate PhasesAgree(p: Pool)
    requires p.market.terms.numOutcomes > 0
  {
    if Resolved(p.market) then Acceptable(p.market.payouts, p.market.invalid, p.market.terms)
    else p.market.payouts == [] && forall i | 0 <= i < |p.ledger.claimed| :: p.ledger.claimed[i] == 0
  }

  /** What the shares burned by claims were worth. */
  function ClaimsRedeemed(p: Pool): nat {
    if Resolved(p.market) && |p.ledger.claimed| == |p.market.payouts| then Dot(p.ledger.claimed, p.market.payouts) else 0
  }

  /** The exact escrow ledger, payments that are still under way included. */
  predicate EscrowAgrees(p: Pool, balance: nat, owed: nat, unminted: nat) {
    && p.ledger.sold <= p.ledger.bought
    && balance + ClaimsRedeemed(p)
       == p.market.terms.numTicks * (p.ledger.bought - p.ledger.sold) + p.ledger.donated
        + owed + p.market.terms.numTicks * unminted
  }

  /** Everything redeemed went to the mailbox or to holders, and the fees are the divisor's share up to rounding. */
  predicate FeesAgree(p: Pool, net: nat, fee: nat) {
    var f := p.market.terms.feeDivisor;
    && p.ledger.gross == p.ledger.fees + fee + p.ledger.paid + net
    && (f == 0 ==> p.ledger.fees + fee == 0)
    && (f != 0 ==> FeeShare(f, p.ledger.fees + fee, p.ledger.gross, p.ledger.feeCount))
  }

  predicate FeeShare(f: nat, fees: nat, gross: nat, count: nat)
    requires f > 0
  {
    f * fees <= gross <= f * fees + (f - 1) * count
  }

  ghost predicate Balanced(p: Pool, balance: nat, net: nat, fee: nat, unminted: nat) {
    && WellFormedTerms(p.market.terms)
    && SuppliesAgree(p)
    && PhasesAgree(p)
    && EscrowAgrees(p, balance, net + fee, unminted)
    && FeesAgree(p, net, fee)
  }

  // ---- What each event does to the books ----

  lemma Donate(p: Pool, balance: nat, net: nat, fee: nat, unminted: nat, v: nat)
    requires Balanced(p, balance, net, fee, unminted)
    ensures Balanced(p.(ledger := p.ledger.(donated := p.ledger.donated + v)), balance + v, net, fee, unminted)
  {
  }

  lemma ReceivePrice(p: Pool, balance: nat, net: nat, fee: nat, unminted: nat, sets: nat)
    requires Balanced(p, balance, net, fee, unminted)
    ensures Balanced(p, balance + sets * p.market.terms.numTicks, net, fee, unminted + sets)
  {
    var t := p.market.terms.numTicks;
    assert t * (unminted + sets) == t * unminted + sets * t;
  }

  lemma PayHolder(p: Pool, balance: nat, net: nat, fee: nat, unminted: nat, v: nat)
    requires Balanced(p, balance, net, fee, unminted) && v <= net
    ensures v <= balance
    ensures Balanced(p.(ledger := p.ledger.(paid := p.ledger.paid + v)), balance - v, net - v, fee, unminted)
  {
    SolventBeyondDebts(p, balance, net, fee, unminted);
  }

  lemma PayMailbox(p: Pool, balance: nat, net: nat, fee: nat, unminted: nat, v: nat)
    requires Balanced(p, balance, net, fee, unminted) && v <= fee
    ensures v <= balance
    ensures Balanced(p.(ledger := p.ledger.(fees := p.ledger.fees + v)), balance - v, net, fee - v, unminted)
  {
    SolventBeyondDebts(p, balance, net, fee, unminted);
  }

  lemma MintSets(p: Pool, balance: nat, net: nat, fee: nat, unminted: nat, who: Address, sets: uint256)
    requires Balanced(p, balance, net, fee, unminted) && sets <= unminted
    requires MintAll(p.market.shares, who, sets).Commit?
    ensures var shares := MintAll(p.market.shares, who, sets).value;
            Balanced(p.(market := p.market.(shares := shares), ledger := p.ledger.(bought := p.ledger.bought + sets)),
                     balance, net, fee, unminted - sets)
  {
    hide Total, Acceptable, DotTo;
    var shares := MintAll(p.market.shares, who, sets).value;
    var p' := p.(market := p.market.(shares := shares), ledger := p.ledger.(bought := p.ledger.bought + sets));
    forall i | 0 <= i < |shares|
      ensures Conserved(shares[i]) && shares[i].supply == p.market.shares[i].supply + sets
    {
      MintExact(p.market.shares[i], who, sets);
    }
    var t := p.market.terms.numTicks;
    var sold := p.ledger.sold;
    assert t * (p.ledger.bought + sets - sold) == t * (p.ledger.bought - sold) + t * sets;
    assert t * (unminted - sets) == t * unminted - t * sets;
    assert SuppliesAgree(p');
    assert PhasesAgree(p');
  }

  lemma FeeShareGrows(terms: Terms, fees: nat, gross: nat, count: nat, amount: uint256)
    requires WellFormedTerms(terms) && terms.feeDivisor != 0
    requires FeeShare(terms.feeDivisor, fees, gross, count)
    ensures FeeShare(terms.feeDivisor, fees + Fee(terms, amount), gross + amount, count + 1)
  {
    FeeBounds(terms, amount);
    var f := terms.feeDivisor;
    var x := Fee(terms, amount);
    assert f * (fees + x) == f * fees + f * x;
    assert (f - 1) * (count + 1) == (f - 1) * count + (f - 1);
  }

  lemma BookFeeShare(p: Pool, net: nat, fee: nat, amount: uint256, p': Pool)
    requires WellFormedTerms(p.market.terms) && FeesAgree(p, net, fee)
    requires p'.market.terms == p.market.terms
    requires p'.ledger.gross == p.ledger.gross + amount && p'.ledger.feeCount == p.ledger.feeCount + 1
    requires p'.ledger.fees == p.ledger.fees && p'.ledger.paid == p.ledger.paid
    ensures Fee(p.market.terms, amount) <= amount
    ensures FeesAgree(p', net + (amount - Fee(p.market.terms, amount)), fee + Fee(p.market.terms, amount))
  {
    FeeBounds(p.market.terms, amount);
    if p.market.terms.feeDivisor != 0 {
      FeeShareGrows(p.market.terms, p.ledger.fees + fee, p.ledger.gross, p.ledger.feeCount, amount);
    }
  }

  lemma BurnSets(p: Pool, balance: nat, net: nat, fee: nat, unminted: nat, who: Address, sets: uint256, payout: uint256)
    requires Balanced(p, balance, net, fee, unminted)
    requires payout == sets * p.market.terms.numTicks
    requires BurnAll(p.market.shares, who, sets).Commit?
    ensures var shares := BurnAll(p.market.shares, who, sets).value;
            var l := p.ledger.(sold := p.ledger.sold + sets, gross := p.ledger.gross + payout, feeCount := p.ledger.feeCount + 1);
            var x := Fee(p.market.terms, payout);
            && x <= payout
            && Balanced(p.(market := p.market.(shares := shares), ledger := l), balance, net + (payout - x), fee + x, unminted)
  {
    hide Total, Acceptable, DotTo, FeeShare;
    var shares := BurnAll(p.market.shares, who, sets).value;
    var l := p.ledger.(sold := p.ledger.sold + sets, gross := p.ledger.gross + payout, feeCount := p.ledger.feeCount + 1);
    var p' := p.(market := p.market.(shares := shares), ledger := l);
    BookFeeShare(p, net, fee, payout, p');
    BurnKeepsSuppliesAgreeing(p, who, sets, p');
    assert PhasesAgree(p');
    var t := p.market.terms.numTicks;
    var open := p.ledger.bought - p.ledger.sold;
    assert t * (open - sets) == t * open - sets * t;
    assert ClaimsRedeemed(p') == ClaimsRedeemed(p);
    assert EscrowAgrees(p', balance, net + payout + fee, unminted);
  }

  lemma BurnKeepsSuppliesAgreeing(p: Pool, who: Address, sets: uint256, p': Pool)
    requires p.market.terms.numOutcomes > 0 && SuppliesAgree(p) && BurnAll(p.market.shares, who, sets).Commit?
    requires p'.market == p.market.(shares := BurnAll(p.market.shares, who, sets).value)
    requires p'.ledger.claimed == p.ledger.claimed && p'.ledger.bought == p.ledger.bought
    requires p'.ledger.sold == p.ledger.sold + sets
    ensures SuppliesAgree(p')
    ensures p'.ledger.sold <= p'.ledger.bought
  {
    hide Total;
    var shares := p'.market.shares;
    forall i | 0 <= i < |shares|
      ensures Conserved(shares[i]) && shares[i].supply == p.market.shares[i].supply - sets
    {
      BurnExact(p.market.shares[i], who, sets);
      BalancesWithinSupply(p.market.shares[i], who, who);
    }
    assert shares[0].supply >= 0;
  }

  lemma SettleShares(d: Token, p: Pool, balance: nat, net: nat, fee: nat, unminted: nat, holder: Address, i: nat)
    requires Balanced(p, balance, net, fee, unminted)
    requires i < |p.market.shares| && Settle(d, p.market, holder, i).Commit?
    ensures var s := Settle(d, p.market, holder, i).value;
            var l := p.ledger.(claimed := p.ledger.claimed[i := p.ledger.claimed[i] + Bal(p.market.shares[i], holder)],
                               gross := p.ledger.gross + (s.net + s.fee), feeCount := p.ledger.feeCount + 1);
            Balanced(p.(market := s.market, ledger := l), balance, net + s.net, fee + s.fee, unminted)
  {
    hide Total, Acceptable, DotTo;
    var s := Settle(d, p.market, holder, i).value;
    var n := Bal(p.market.shares[i], holder);
    var claimed := p.ledger.claimed[i := p.ledger.claimed[i] + n];
    var proceeds := n * p.market.payouts[i];
    assert s.net + s.fee == proceeds && s.fee == Fee(p.market.terms, proceeds);
    var l := p.ledger.(claimed := claimed, gross := p.ledger.gross + proceeds, feeCount := p.ledger.feeCount + 1);
    var p' := p.(market := s.market, ledger := l);
    if n > 0 {
      BurnExact(p.market.shares[i], holder, n);
    }
    assert SuppliesAgree(p');
    assert PhasesAgree(p');
    assert |p.market.payouts| == |p.ledger.claimed| by {
      OnePayoutPerOutcome(p);
    }
    DotUpdate(p.ledger.claimed, claimed, p.market.payouts, i, n, |claimed|);
    assert ClaimsRedeemed(p') == ClaimsRedeemed(p) + proceeds;
    BookFeeShare(p, net, fee, proceeds, p');
  }

  lemma OnePayoutPerOutcome(p: Pool)
    requires p.market.terms.numOutcomes > 0 && SuppliesAgree(p) && PhasesAgree(p) && Resolved(p.market)
    ensures |p.market.payouts| == |p.ledger.claimed|
  {
  }

  lemma ResolveBooks(p: Pool, balance: nat, net: nat, fee: nat, unminted: nat,
                     now: uint256, sender: Address, payouts: seq<uint256>, invalid: bool)
    requires Balanced(p, balance, net, fee, unminted)
    requires Resolve(p.market, now, sender, payouts, invalid).Commit?
    ensures Balanced(p.(market := Resolve(p.market, now, sender, payouts, invalid).value), balance, net, fee, unminted)
  {
    hide Total;
    DotZero(p.ledger.claimed, payouts, |payouts|);
  }

  // ---- What balanced books mean ----

  /** The sets outstanding, at the price of a set, split between the shares left and the shares claimed. */
  lemma SupplyPlusRedeemed(p: Pool)
    requires p.market.terms.numOutcomes > 0 && SuppliesAgree(p) && PhasesAgree(p) && Resolved(p.market)
    requires p.ledger.sold <= p.ledger.bought
    ensures |p.market.shares| == |p.market.payouts|
    ensures Dot(Supplies(p.market.shares), p.market.payouts) + ClaimsRedeemed(p)
         == (p.ledger.bought - p.ledger.sold) * Sum(p.market.payouts)
  {
    hide Total;
    DotComplement(Supplies(p.market.shares), p.ledger.claimed, p.market.payouts, p.ledger.bought - p.ledger.sold,
                  |p.market.payouts|);
  }

  /** The obligation form of the ledger: what the escrow holds is what the shares left can claim, plus
      the shortfall of every set outstanding, plus donations, plus payments under way. */
  lemma EscrowCoversShares(p: Pool, balance: nat, net: nat, fee: nat, unminted: nat)
    requires Balanced(p, balance, net, fee, unminted) && Resolved(p.market)
    ensures |p.market.shares| == |p.market.payouts| && 0 <= Shortfall(p.market) < p.market.terms.numOutcomes
    ensures balance == Dot(Supplies(p.market.shares), p.market.payouts)
                     + Shortfall(p.market) * (p.ledger.bought - p.ledger.sold)
                     + p.ledger.donated + net + fee + p.market.terms.numTicks * unminted
  {
    hide Total, DotTo, SumTo;
    SupplyPlusRedeemed(p);
    AcceptedShortfall(p.market.payouts, p.market.invalid, p.market.terms);
    var open := p.ledger.bought - p.ledger.sold;
    var sum := Sum(p.market.payouts);
    var t := p.market.terms.numTicks;
    assert (t - sum) * open == t * open - open * sum;
  }

  /** Before resolution all supplies are the number of sets outstanding, each backed by its full price. */
  lemma EscrowBeforeResolution(p: Pool, balance: nat, net: nat, fee: nat, unminted: nat)
    requires Balanced(p, balance, net, fee, unminted) && !Resolved(p.market)
    ensures forall i | 0 <= i < |p.market.shares| :: p.market.shares[i].supply == p.ledger.bought - p.ledger.sold
    ensures balance == p.market.terms.numTicks * (p.ledger.bought - p.ledger.sold)
                     + p.ledger.donated + net + fee + p.market.terms.numTicks * unminted
  {
    hide Total;
  }

  /** The market can pay all it owes, and what is left covers what `assertBalances` asks for. */
  lemma SolventBeyondDebts(p: Pool, balance: nat, net: nat, fee: nat, unminted: nat)
    requires Balanced(p, balance, net, fee, unminted)
    ensures net + fee <= balance
    ensures Covered(p.market, balance - net - fee)
  {
    hide Total, Dot, Sum, FeesAgree, Acceptable, Conserved;
    var t := p.market.terms.numTicks;
    var open := p.ledger.bought - p.ledger.sold;
    ProductNonNegative(t, unminted);
    if Resolved(p.market) {
      EscrowCoversShares(p, balance, net, fee, unminted);
      ProductNonNegative(Shortfall(p.market), open);
    } else {
      EscrowBeforeResolution(p, balance, net, fee, unminted);
      ProductNonNegative(t, open);
    }
  }

  lemma ProductNonNegative(a: int, b: int)
    requires a >= 0 && b >= 0
    ensures 0 <= a * b == b * a
  {
  }

  /** The escrow is worth a full set for every set the scarcest outcome could make up. */
  lemma EscrowCoversSets(p: Pool, balance: nat, net: nat, fee: nat, unminted: nat, sets: nat)
    requires Balanced(p, balance, net, fee, unminted)
    requires forall i | 0 <= i < |p.market.shares| :: sets <= p.market.shares[i].supply
    ensures sets * p.market.terms.numTicks + net + fee <= balance
  {
    hide Total, DotTo, SumTo;
    var t := p.market.terms.numTicks;
    var open := p.ledger.bought - p.ledger.sold;
    assert p.market.shares[0].supply <= open;
    ProductNonNegative(t, unminted);
    if Resolved(p.market) {
      EscrowCoversShares(p, balance, net, fee, unminted);
      DotAtLeast(Supplies(p.market.shares), p.market.payouts, sets, |p.market.payouts|);
      SetsWithinSharesAndShortfall(t, Sum(p.market.payouts), open, sets);
    } else {
      EscrowBeforeResolution(p, balance, net, fee, unminted);
      SetsWithinSharesAndShortfall(t, 0, open, sets);
    }
  }

  lemma SetsWithinSharesAndShortfall(t: int, sum: int, open: int, sets: int)
    requires 0 <= sum <= t && 0 <= sets <= open
    ensures sets * t <= sets * sum + (t - sum) * open
  {
    assert (t - sum) * open == (t - sum) * sets + (t - sum) * (open - sets);
    assert (t - sum) * (open - sets) >= 0;
    assert sets * sum + (t - sum) * sets == sets * t;
  }
}
