/**
 * Buying and selling complete sets: exactly when it succeeds, that selling undoes buying, and how
 * far a sale and a claim of the same shares are apart.
 */
module SetTrading {
  import opened Transactions
  import opened Words
  import opened SafeMathUint256
  import opened Storage
  import opened Vectors
  import opened Addresses
  import opened TokenModel
  import opened MarketModel
  import opened Trading
  import opened Protocol
  import opened Accounts
  import opened Invariant
  import opened Redemption

  /** A market in a consistent world: its books balance with what is pending, and only the traders may spend its escrow. */
  ghost predicate InBalance(env: Deployment, d: Token, p: Pool, net: nat, fee: nat, unminted: nat) {
    && DistinctDeployment(env)
    && Conserved(d)
    && OnlyTradersApproved(env, d, p.market.self)
    && p.market.mailbox != p.market.self
    && Balanced(p, Bal(d, p.market.self), net, fee, unminted)
  }

  lemma InBalanceAt(env: Deployment, w: World, s: Stack, m: Address)
    requires Consistent(env, w, s) && m in w.pools
    ensures w.pools[m].market.self == m
    ensures InBalance(env, w.denom, w.pools[m], OwedNet(s, m), OwedFee(s, m), Unminted(s, m))
  {
    hide Balanced, Conserved, OnlyTradersApproved;
    assert PoolBalanced(w, s, m);
  }

  lemma InBalanceRedeemable(env: Deployment, d: Token, p: Pool, net: nat, fee: nat, unminted: nat)
    requires InBalance(env, d, p, net, fee, unminted) && Resolved(p.market)
    ensures Redeemable(env, d, p.market)
  {
    hide Total, Dot, OnlyTradersApproved;
    SolventBeyondDebts(p, Bal(d, p.market.self), net, fee, unminted);
  }

  lemma CoveredMonotone(mk: Market, low: nat, high: nat)
    requires Covered(mk, low) && low <= high
    ensures Covered(mk, high)
  {
  }

  // ---- Selling ----

  predicate HasSets(mk: Market, who: Address, sets: uint256) {
    forall i | 0 <= i < |mk.shares| :: sets <= Bal(mk.shares[i], who)
  }

  lemma BurnAllExact(mk: Market, who: Address, sets: uint256)
    requires forall i | 0 <= i < |mk.shares| :: Conserved(mk.shares[i])
    ensures BurnAll(mk.shares, who, sets).Commit? <==> HasSets(mk, who, sets)
    ensures HasSets(mk, who, sets) ==> forall i | 0 <= i < |mk.shares| :: sets <= mk.shares[i].supply
  {
    hide Total, Burn;
    forall i | 0 <= i < |mk.shares|
      ensures Burn(mk.shares[i], who, sets).Commit? <==> sets <= Bal(mk.shares[i], who)
      ensures Bal(mk.shares[i], who) <= mk.shares[i].supply
    {
      BurnExact(mk.shares[i], who, sets);
      BalancesWithinSupply(mk.shares[i], who, who);
    }
  }

  /** The two payments of a sale. */
  lemma PaySale(env: Deployment, d: Token, mk: Market, seller: Address, net: uint256, fee: uint256)
    requires Conserved(d) && OnlyTradersApproved(env, d, mk.self) && net + fee <= Bal(d, mk.self) && mk.mailbox != mk.self
    ensures var d1 := Pay(env.completeSets, d, mk.self, mk.mailbox, fee);
            && d1.Commit?
            && var d2 := TransferFrom(d1.value, env.completeSets, mk.self, seller, net);
            && d2.Commit? && Conserved(d2.value) && Redeems(d, d2.value, mk, seller, net + fee, fee)
            && Bal(d2.value, mk.self) >= Bal(d, mk.self) - net - fee
  {
    hide Total, Transfer, TransferFrom;
    assert Allowance(d, mk.self, env.completeSets) == ETERNAL_APPROVAL_VALUE;
    TransferFromExact(d, env.completeSets, mk.self, mk.mailbox, fee);
    var d1 := Pay(env.completeSets, d, mk.self, mk.mailbox, fee).value;
    assert Allowance(d1, mk.self, env.completeSets) == ETERNAL_APPROVAL_VALUE;
    TransferFromExact(d1, env.completeSets, mk.self, seller, net);
  }

  /** A sale goes through exactly for those who have the sets; neither the product nor the payments can fail. */
  lemma SellExact(env: Deployment, d: Token, p: Pool, net: nat, fee: nat, unminted: nat, seller: Address, sets: uint256)
    requires InBalance(env, d, p, net, fee, unminted)
    ensures Sell(env, d, p.market, seller, sets).Commit? <==> seller != NULL_ADDRESS && HasSets(p.market, seller, sets)
    ensures Sell(env, d, p.market, seller, sets).Commit? ==>
              var (d', mk') := Sell(env, d, p.market, seller, sets).value;
              var payout := Price(p.market, sets);
              && payout < TWO_256
              && BurnAll(p.market.shares, seller, sets).Commit?
              && mk' == p.market.(shares := BurnAll(p.market.shares, seller, sets).value)
              && Conserved(d')
              && Redeems(d, d', p.market, seller, payout, Fee(p.market.terms, payout))
  {
    hide InBalance, Pay, TransferFrom, Redeems, Conserved, Covered, Fee, HasSets;
    SharesInBalance(env, d, p, net, fee, unminted);
    BurnAllExact(p.market, seller, sets);
    if seller != NULL_ADDRESS && HasSets(p.market, seller, sets) {
      SaleGoesThrough(env, d, p, net, fee, unminted, seller, sets);
    }
  }

  lemma SaleGoesThrough(env: Deployment, d: Token, p: Pool, net: nat, fee: nat, unminted: nat, seller: Address, sets: uint256)
    requires InBalance(env, d, p, net, fee, unminted)
    requires seller != NULL_ADDRESS && BurnAll(p.market.shares, seller, sets).Commit?
    requires forall i | 0 <= i < |p.market.shares| :: sets <= p.market.shares[i].supply
    ensures var r := Sell(env, d, p.market, seller, sets);
            var payout := Price(p.market, sets);
            && r.Commit?
            && payout < TWO_256
            && r.value.1 == p.market.(shares := BurnAll(p.market.shares, seller, sets).value)
            && Conserved(r.value.0)
            && Redeems(d, r.value.0, p.market, seller, payout, Fee(p.market.terms, payout))
  {
    hide Balanced, Conserved, Pay, TransferFrom, Redeems, OnlyTradersApproved, Covered, Fee, BurnAll;
    var mk := p.market;
    var balance := Bal(d, mk.self);
    EscrowCoversSets(p, balance, net, fee, unminted, sets);
    var payout: uint256 := Price(mk, sets);
    assert Mul(sets, mk.terms.numTicks) == Commit(payout);
    BurnSets(p, balance, net, fee, unminted, seller, sets, payout);
    var x := Fee(mk.terms, payout);
    var rest: uint256 := payout - x;
    assert Sub(payout, x) == Commit(rest);
    PaySale(env, d, mk, seller, rest, x);
    var d1 := Pay(env.completeSets, d, mk.self, mk.mailbox, x).value;
    var d2 := TransferFrom(d1, env.completeSets, mk.self, seller, rest).value;
    CoveredAfterSale(p, balance, net, fee, unminted, seller, sets, payout, Bal(d2, mk.self));
  }

  lemma SharesInBalance(env: Deployment, d: Token, p: Pool, net: nat, fee: nat, unminted: nat)
    requires InBalance(env, d, p, net, fee, unminted)
    ensures WellFormedTerms(p.market.terms)
    ensures |p.market.shares| == p.market.terms.numOutcomes
    ensures forall i | 0 <= i < |p.market.shares| :: Conserved(p.market.shares[i])
  {
  }

  lemma CoveredAfterSale(p: Pool, balance: nat, net: nat, fee: nat, unminted: nat, seller: Address, sets: uint256, payout: uint256, left: nat)
    requires Balanced(p, balance, net, fee, unminted) && payout == Price(p.market, sets)
    requires BurnAll(p.market.shares, seller, sets).Commit? && left >= balance - payout
    ensures Covered(p.market.(shares := BurnAll(p.market.shares, seller, sets).value), left)
  {
    hide Balanced, Covered, Fee;
    BurnSets(p, balance, net, fee, unminted, seller, sets, payout);
    var shares := BurnAll(p.market.shares, seller, sets).value;
    var l := p.ledger.(sold := p.ledger.sold + sets, gross := p.ledger.gross + payout, feeCount := p.ledger.feeCount + 1);
    var x := Fee(p.market.terms, payout);
    var p' := p.(market := p.market.(shares := shares), ledger := l);
    SolventBeyondDebts(p', balance, net + (payout - x), fee + x, unminted);
    CoveredMonotone(p'.market, balance - (net + (payout - x)) - (fee + x), left);
  }

  // ---- Buying ----

  predicate SetsFit(mk: Market, sets: uint256) {
    forall i | 0 <= i < |mk.shares| :: mk.shares[i].supply + sets < TWO_256
  }

  lemma MintAllExact(mk: Market, who: Address, sets: uint256)
    requires forall i | 0 <= i < |mk.shares| :: Conserved(mk.shares[i])
    ensures MintAll(mk.shares, who, sets).Commit? <==> SetsFit(mk, sets)
  {
    hide Total, Mint;
    forall i | 0 <= i < |mk.shares|
      ensures Mint(mk.shares[i], who, sets).Commit? <==> mk.shares[i].supply + sets < TWO_256
    {
      MintExact(mk.shares[i], who, sets);
    }
  }

  predicate CanPay(env: Deployment, d: Token, buyer: Address, cost: nat) {
    0 < cost < TWO_256 && cost <= Bal(d, buyer) && MaySpend(d, env.augurLite, buyer, cost)
  }

  function Bought(p: Pool, sets: nat, shares: seq<Token>): Pool {
    p.(market := p.market.(shares := shares), ledger := p.ledger.(bought := p.ledger.bought + sets))
  }

  /** A purchase goes through exactly when the buyer can pay and no supply overflows; a market can never buy. */
  lemma BuyExact(env: Deployment, d: Token, p: Pool, net: nat, fee: nat, unminted: nat, buyer: Address, sets: uint256)
    requires InBalance(env, d, p, net, fee, unminted)
    ensures Buy(env, d, p.market, buyer, sets).Commit? <==>
              && buyer != NULL_ADDRESS
              && CanPay(env, d, buyer, Price(p.market, sets))
              && SetsFit(p.market, sets)
    ensures Buy(env, d, p.market, buyer, sets).Commit? ==>
              var (d', mk') := Buy(env, d, p.market, buyer, sets).value;
              && buyer != p.market.self
              && MintAll(p.market.shares, buyer, sets).Commit?
              && mk' == p.market.(shares := MintAll(p.market.shares, buyer, sets).value)
              && d'.supply == d.supply
              && (forall a :: Bal(d', a) == Bal(d, a) + Moved(a, buyer, p.market.self, Price(p.market, sets)))
              && InBalance(env, d', Bought(p, sets, mk'.shares), net, fee, unminted)
  {
    hide InBalance, Buy, Conserved, Moved, SetsFit, CanPay, Price;
    SharesInBalance(env, d, p, net, fee, unminted);
    assert Conserved(d) by { TokenInBalance(env, d, p, net, fee, unminted); }
    if Buy(env, d, p.market, buyer, sets).Commit? {
      PurchaseNeeds(env, d, p.market, buyer, sets);
    }
    MintAllExact(p.market, buyer, sets);
    if buyer != NULL_ADDRESS && CanPay(env, d, buyer, Price(p.market, sets)) && SetsFit(p.market, sets) {
      PurchaseGoesThrough(env, d, p, net, fee, unminted, buyer, sets);
    }
  }

  lemma PurchaseNeeds(env: Deployment, d: Token, mk: Market, buyer: Address, sets: uint256)
    requires Conserved(d) && forall i | 0 <= i < |mk.shares| :: Conserved(mk.shares[i])
    requires Buy(env, d, mk, buyer, sets).Commit?
    ensures buyer != NULL_ADDRESS && CanPay(env, d, buyer, Price(mk, sets)) && SetsFit(mk, sets)
  {
    hide Conserved, TransferFrom, Covered, MaySpend, SetsFit;
    MintAllExact(mk, buyer, sets);
    TransferFromExact(d, env.augurLite, buyer, mk.self, Mul(sets, mk.terms.numTicks).value);
  }

  lemma TokenInBalance(env: Deployment, d: Token, p: Pool, net: nat, fee: nat, unminted: nat)
    requires InBalance(env, d, p, net, fee, unminted)
    ensures Conserved(d)
  {
  }

  lemma PurchaseGoesThrough(env: Deployment, d: Token, p: Pool, net: nat, fee: nat, unminted: nat, buyer: Address, sets: uint256)
    requires InBalance(env, d, p, net, fee, unminted)
    requires buyer != NULL_ADDRESS && CanPay(env, d, buyer, Price(p.market, sets))
    requires MintAll(p.market.shares, buyer, sets).Commit?
    ensures var r := Buy(env, d, p.market, buyer, sets);
            && r.Commit?
            && buyer != p.market.self
            && r.value.1 == p.market.(shares := MintAll(p.market.shares, buyer, sets).value)
            && r.value.0.supply == d.supply
            && (forall a :: Bal(r.value.0, a) == Bal(d, a) + Moved(a, buyer, p.market.self, Price(p.market, sets)))
            && InBalance(env, r.value.0, Bought(p, sets, r.value.1.shares), net, fee, unminted)
  {
    hide Balanced, Conserved, TransferFrom, OnlyTradersApproved, Covered, Moved, MintAll, MaySpend;
    var mk := p.market;
    var cost: uint256 := Price(mk, sets);
    TransferFromExact(d, env.augurLite, buyer, mk.self, cost);
    PricePaid(env, d, p, net, fee, unminted, buyer, sets, cost);
    var d1 := TransferFrom(d, env.augurLite, buyer, mk.self, cost).value;
    MintSets(p, Bal(d1, mk.self), net, fee, unminted + sets, buyer, sets);
    var p' := Bought(p, sets, MintAll(mk.shares, buyer, sets).value);
    SolventBeyondDebts(p', Bal(d1, mk.self), net, fee, unminted);
    CoveredMonotone(p'.market, Bal(d1, mk.self) - net - fee, Bal(d1, mk.self));
    assert Mul(sets, mk.terms.numTicks) == Commit(cost);
  }

  lemma PricePaid(env: Deployment, d: Token, p: Pool, net: nat, fee: nat, unminted: nat, buyer: Address, sets: uint256, cost: uint256)
    requires InBalance(env, d, p, net, fee, unminted)
    requires cost == Price(p.market, sets) && CanPay(env, d, buyer, cost)
    ensures buyer != p.market.self
    ensures var d1 := TransferFrom(d, env.augurLite, buyer, p.market.self, cost);
            && d1.Commit? && Conserved(d1.value) && OnlyTradersApproved(env, d1.value, p.market.self)
            && Balanced(p, Bal(d1.value, p.market.self), net, fee, unminted + sets)
  {
    hide Balanced, Total, TransferFrom;
    assert Allowance(d, p.market.self, env.augurLite) == 0;
    TransferFromExact(d, env.augurLite, buyer, p.market.self, cost);
    var d1 := TransferFrom(d, env.augurLite, buyer, p.market.self, cost).value;
    assert forall s :: Allowance(d1, p.market.self, s) == Allowance(d, p.market.self, s);
    ReceivePrice(p, Bal(d, p.market.self), net, fee, unminted, sets);
  }

  /** Before resolution no supply can overflow: all the sets there are were paid for. */
  lemma SetsFitBeforeResolution(env: Deployment, d: Token, p: Pool, net: nat, fee: nat, unminted: nat, buyer: Address, sets: uint256)
    requires InBalance(env, d, p, net, fee, unminted) && !Resolved(p.market)
    requires CanPay(env, d, buyer, Price(p.market, sets))
    ensures SetsFit(p.market, sets)
  {
    hide Conserved, Balanced, OnlyTradersApproved;
    var t := p.market.terms.numTicks;
    SharesInBalance(env, d, p, net, fee, unminted);
    PricePaid(env, d, p, net, fee, unminted, buyer, sets, sets * t);
    EscrowBeforeResolution(p, Bal(d, p.market.self), net, fee, unminted);
    BalancesWithinSupply(d, buyer, p.market.self);
    ProductNonNegative(t, unminted);
    SetsBelowPrice(t, p.market.shares[0].supply, sets);
  }

  lemma SetsBelowPrice(t: int, open: nat, sets: nat)
    requires t >= 1
    ensures open + sets <= t * open + sets * t
  {
    ProductNonNegative(t - 1, open + sets);
    assert t * open + sets * t == (t - 1) * (open + sets) + (open + sets);
  }

  /** Selling the sets just bought restores every share token and the escrow; the fee has moved from the buyer to the mailbox. */
  lemma SellUndoesBuy(env: Deployment, d: Token, p: Pool, net: nat, fee: nat, unminted: nat, buyer: Address, sets: uint256)
    requires InBalance(env, d, p, net, fee, unminted) && Buy(env, d, p.market, buyer, sets).Commit?
    ensures var (d1, mk1) := Buy(env, d, p.market, buyer, sets).value;
            var r := Sell(env, d1, mk1, buyer, sets);
            var cost := Price(p.market, sets);
            && cost < TWO_256
            && r.Commit?
            && r.value.1 == p.market
            && r.value.0.supply == d.supply
            && forall a :: Bal(r.value.0, a) == Bal(d, a) + Moved(a, buyer, p.market.mailbox, Fee(p.market.terms, cost))
  {
    hide Balanced, Total, Buy, Sell, Fee, Conserved, OnlyTradersApproved;
    BuyExact(env, d, p, net, fee, unminted, buyer, sets);
    var (d1, mk1) := Buy(env, d, p.market, buyer, sets).value;
    var p1 := Bought(p, sets, mk1.shares);
    assert forall i | 0 <= i < |p.market.shares| :: Conserved(p.market.shares[i]) by { SharesInBalance(env, d, p, net, fee, unminted); }
    BurningUndoesMinting(p.market.shares, buyer, sets);
    SharesInBalance(env, d1, p1, net, fee, unminted);
    BurnAllExact(mk1, buyer, sets);
    SellExact(env, d1, p1, net, fee, unminted, buyer, sets);
    assert mk1.(shares := p.market.shares) == p.market;
  }

  lemma BurningUndoesMinting(shares: seq<Token>, who: Address, sets: uint256)
    requires MintAll(shares, who, sets).Commit? && forall i | 0 <= i < |shares| :: Conserved(shares[i])
    ensures BurnAll(MintAll(shares, who, sets).value, who, sets) == Commit(shares)
  {
    hide Total, Mint, Burn;
    var minted := MintAll(shares, who, sets).value;
    forall i | 0 <= i < |shares|
      ensures Burn(minted[i], who, sets) == Commit(shares[i])
    {
      BurnUndoesMint(shares[i], who, sets);
    }
    var burned := BurnAll(minted, who, sets);
    assert burned.Commit?;
    assert burned.value == shares;
  }

  // ---- A claim against a sale ----

  lemma FeeSplit(terms: Terms, a: nat, b: nat)
    requires WellFormedTerms(terms) && a + b < TWO_256
    ensures Fee(terms, a) + Fee(terms, b) <= Fee(terms, a + b) <= Fee(terms, a) + Fee(terms, b) + 1
  {
    if terms.feeDivisor != 0 {
      QuotientSplit(a, b, terms.feeDivisor);
    }
  }

  lemma QuotientSplit(a: nat, b: nat, f: nat)
    requires f > 0
    ensures a / f + b / f <= (a + b) / f <= a / f + b / f + 1
  {
    QuotientBounds(a, f);
    QuotientBounds(b, f);
    QuotientBounds(a + b, f);
    var q, r, x := a / f, b / f, (a + b) / f;
    Distribute(f, x, q, r);
    SmallMultiple(x - q - r, f);
  }

  lemma Distribute(f: int, x: int, q: int, r: int)
    ensures f * (x - q - r) == f * x - f * q - f * r
  {
  }

  lemma SmallMultiple(x: int, f: int)
    requires f > 0 && -f < f * x < 2 * f
    ensures 0 <= x <= 1
  {
    if x < 0 {
      ScaleUp(x, f);
    } else if x > 1 {
      assert f * x == f * (x - 2) + 2 * f;
      ScaleUp(x - 2, f);
    }
  }

  /** One fee on the whole is no less than the fees on the parts, and by at most one for each part after the first. */
  lemma {:induction false} FeesAddUp(mk: Market, h: Address, i: nat)
    requires WellFormedTerms(mk.terms) && i <= |mk.shares| == |mk.payouts| && GrossFrom(mk, h, i) < TWO_256
    ensures FeesFrom(mk, h, i) <= Fee(mk.terms, GrossFrom(mk, h, i))
    ensures Fee(mk.terms, GrossFrom(mk, h, i)) <= FeesFrom(mk, h, i) + if i == |mk.shares| then 0 else |mk.shares| - i - 1
    decreases |mk.shares| - i
  {
    if i < |mk.shares| {
      FeesAddUp(mk, h, i + 1);
      FeeSplit(mk.terms, Gross(mk, h, i), GrossFrom(mk, h, i + 1));
    } else {
      FeeBounds(mk.terms, 0);
    }
  }

  lemma {:induction false} GrossOfSets(mk: Market, h: Address, s: uint256, i: nat)
    requires i <= |mk.shares| == |mk.payouts|
    requires forall k | 0 <= k < |mk.shares| :: Bal(mk.shares[k], h) == s
    ensures GrossFrom(mk, h, i) + s * SumTo(mk.payouts, i) == s * Sum(mk.payouts)
    decreases |mk.shares| - i
  {
    if i < |mk.shares| {
      GrossOfSets(mk, h, s, i + 1);
      assert SumTo(mk.payouts, i + 1) == SumTo(mk.payouts, i) + mk.payouts[i];
      hide SumTo, Sum;
      Distribute(s, SumTo(mk.payouts, i + 1), SumTo(mk.payouts, i), mk.payouts[i]);
    }
  }

  /** What `s` complete sets gross less in a claim than in a sale. */
  function Unpaid(mk: Market, s: nat): nat {
    if mk.invalid && mk.terms.numOutcomes > 0 then s * (mk.terms.numTicks % mk.terms.numOutcomes) else 0
  }

  /** The token after a claim of `s` of every outcome beside the token after a sale of the same sets. The claim leaves
      the unpaid part in escrow. Net of fees it pays the holder less by that part after its fee, and up to a tick an
      outcome more, for its fees are rounded down one by one. The mailbox, as the holder, gets the fees itself, and the
      market gets everything else back. */
  predicate ClaimedAgainstSold(mk: Market, claimed: Token, sold: Token, h: Address, s: nat) {
    var unpaid := Unpaid(mk, s);
    var gain := Bal(claimed, h) - Bal(sold, h);
    && (h != mk.self ==> Bal(claimed, mk.self) - Bal(sold, mk.self) == unpaid)
    && (h == mk.mailbox ==> gain + unpaid == 0)
    && (h != mk.mailbox ==>
          var offset := (if h == mk.self then 0 else unpaid) - FeeOn(mk, unpaid);
          0 <= gain + offset <= mk.terms.numOutcomes - if mk.invalid then 0 else 1)
  }

  /** For any holder of `s` of every outcome: a sale succeeds, a claim does unless the log of a claim for the market
      itself overflows, and a claim grosses less than a sale by exactly what the floored payouts of an invalid market
      fall short. */
  lemma ClaimAgainstSale(env: Deployment, d: Token, p: Pool, net: nat, fee: nat, unminted: nat, now: uint256, h: Address, s: uint256)
    requires InBalance(env, d, p, net, fee, unminted) && Resolved(p.market) && h != NULL_ADDRESS
    requires forall k | 0 <= k < |p.market.shares| :: Bal(p.market.shares[k], h) == s
    ensures |p.market.shares| == |p.market.payouts| == p.market.terms.numOutcomes
    ensures GrossFrom(p.market, h, 0) + Unpaid(p.market, s) == Price(p.market, s) < TWO_256
    ensures Sell(env, d, p.market, h, s).Commit?
    ensures Claim(env, d, p.market, now, h).Commit? <==>
              now > p.market.resolutionTime && (h == p.market.self ==> LogFits(p.market, h, Bal(d, h), 0))
    ensures Claim(env, d, p.market, now, h).Commit? ==>
              ClaimedAgainstSold(p.market, Claim(env, d, p.market, now, h).value.0, Sell(env, d, p.market, h, s).value.0, h, s)
  {
    hide Redeems, Balanced, Conserved, Claim, Sell, OnlyTradersApproved, Redeemable, Fee, FeeOn, LogFits, GrossFrom, FeesFrom, BurnAll,
         ClearedFrom, Unpaid, WellFormedTerms, HasSets;
    var mk := p.market;
    InBalanceRedeemable(env, d, p, net, fee, unminted);
    TermsAndShortfall(p, Bal(d, mk.self), net, fee, unminted);
    TermsPositive(mk.terms);
    ClaimExact(env, d, mk, now, h);
    HasEnough(mk, h, s);
    SellExact(env, d, p, net, fee, unminted, h, s);
    DueForSets(p, Bal(d, mk.self), net, fee, unminted, h, s);
    if Claim(env, d, mk, now, h).Commit? {
      var payout := Price(mk, s);
      PaidApart(d, Claim(env, d, mk, now, h).value.0, Sell(env, d, mk, h, s).value.0, mk, h,
                GrossFrom(mk, h, 0), FeesFrom(mk, h, 0), payout, Fee(mk.terms, payout));
      assert FeeOn(mk, Unpaid(mk, s)) == Fee(mk.terms, Unpaid(mk, s)) by { FeeOnFits(mk, Unpaid(mk, s)); }
    }
  }

  lemma FeeOnFits(mk: Market, amount: uint256)
    ensures FeeOn(mk, amount) == Fee(mk.terms, amount)
  {
  }

  lemma HasEnough(mk: Market, h: Address, s: uint256)
    requires forall k | 0 <= k < |mk.shares| :: Bal(mk.shares[k], h) == s
    ensures HasSets(mk, h, s)
  {
  }

  lemma PaidApart(d: Token, claimed: Token, sold: Token, mk: Market, h: Address, gross: int, fees: int, payout: int, fee: int)
    requires mk.self != mk.mailbox
    requires Redeems(d, claimed, mk, h, gross, fees) && Redeems(d, sold, mk, h, payout, fee)
    ensures h != mk.self ==> Bal(claimed, mk.self) - Bal(sold, mk.self) == payout - gross
    ensures Bal(claimed, h) - Bal(sold, h) ==
              if h == mk.mailbox then gross - payout
              else (fee - fees) - if h == mk.self then 0 else payout - gross
  {
  }

  /** What `s` of every outcome are worth to a claim, beside what they sell for. */
  lemma DueForSets(p: Pool, balance: nat, net: nat, fee: nat, unminted: nat, h: Address, s: uint256)
    requires Balanced(p, balance, net, fee, unminted) && Resolved(p.market)
    requires |p.market.shares| == |p.market.payouts| && forall k | 0 <= k < |p.market.shares| :: Bal(p.market.shares[k], h) == s
    requires Price(p.market, s) < TWO_256
    ensures p.market.terms.numOutcomes > 0
    ensures var mk := p.market;
            var unpaid := Unpaid(mk, s);
            && GrossFrom(mk, h, 0) + unpaid == Price(mk, s)
            && FeesFrom(mk, h, 0) + Fee(mk.terms, unpaid) <= Fee(mk.terms, Price(mk, s))
            && Fee(mk.terms, Price(mk, s))
               <= FeesFrom(mk, h, 0) + Fee(mk.terms, unpaid) + mk.terms.numOutcomes - if mk.invalid then 0 else 1
  {
    hide Balanced, Fee, WellFormedTerms, GrossFrom, FeesFrom, SumTo, Sum;
    var mk := p.market;
    TermsAndShortfall(p, balance, net, fee, unminted);
    assert mk.terms.numOutcomes > 0 by { TermsPositive(mk.terms); }
    assert GrossFrom(mk, h, 0) == s * Sum(mk.payouts) by {
      GrossOfSets(mk, h, s, 0);
      EmptySum(mk.payouts);
    }
    Distribute(s, mk.terms.numTicks, Sum(mk.payouts), 0);
    assert s * (mk.terms.numTicks - Sum(mk.payouts)) == Unpaid(mk, s);
    FeesOfSets(mk, h, s);
  }

  lemma FeesOfSets(mk: Market, h: Address, s: uint256)
    requires WellFormedTerms(mk.terms) && |mk.shares| == |mk.payouts| == mk.terms.numOutcomes
    requires GrossFrom(mk, h, 0) + Unpaid(mk, s) == Price(mk, s) < TWO_256
    ensures FeesFrom(mk, h, 0) + Fee(mk.terms, Unpaid(mk, s)) <= Fee(mk.terms, Price(mk, s))
    ensures Fee(mk.terms, Price(mk, s))
            <= FeesFrom(mk, h, 0) + Fee(mk.terms, Unpaid(mk, s)) + mk.terms.numOutcomes - if mk.invalid then 0 else 1
  {
    hide Fee, GrossFrom, FeesFrom, Price;
    FeesAddUp(mk, h, 0);
    FeeSplit(mk.terms, GrossFrom(mk, h, 0), Unpaid(mk, s));
    assert Fee(mk.terms, 0) == 0 by { FeeBounds(mk.terms, 0); }
  }

  lemma EmptySum(v: seq<nat>)
    ensures SumTo(v, 0) == 0
  {
  }

  lemma TermsPositive(terms: Terms)
    requires WellFormedTerms(terms)
    ensures terms.numOutcomes > 0
  {
  }

  lemma TermsAndShortfall(p: Pool, balance: nat, net: nat, fee: nat, unminted: nat)
    requires Balanced(p, balance, net, fee, unminted) && Resolved(p.market)
    ensures WellFormedTerms(p.market.terms) && |p.market.payouts| == |p.market.shares| == p.market.terms.numOutcomes
    ensures p.market.terms.numTicks - Sum(p.market.payouts)
         == if p.market.invalid then p.market.terms.numTicks % p.market.terms.numOutcomes else 0
    ensures Sum(p.market.payouts) <= p.market.terms.numTicks
  {
    AcceptedShortfall(p.market.payouts, p.market.invalid, p.market.terms);
  }
}
