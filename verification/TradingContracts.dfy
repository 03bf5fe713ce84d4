/** CompleteSets and ClaimTradingProceeds, proved against module Trading. */
module TradingContracts {
  import opened Transactions
  import opened Words
  import opened SafeMathUint256
  import opened Vectors
  import opened Addresses
  import opened TokenModel
  import opened Controllers
  import opened MarketModel
  import opened Trading
  import opened Redemption
  import opened Contracts

  /** The state a trading call works on. */
  ghost function Books(m: Contracts.Market): (Token, MarketModel.Market)
    reads m, m.denominationToken, Bases(m.shareTokens)
  {
    (m.denominationToken.State(), m.View())
  }

  /** The log hooks of all the market's tokens pass exactly when the market is legit. */
  lemma HooksPassForLegitMarkets(m: Contracts.Market, i: nat)
    requires m.Valid() && i < |m.shareTokens|
    ensures m.shareTokens[i].HookPasses() <==> m.universe.augurLite.IsLegit(m)
  {
  }

  /** A registered market is legit, belongs to this deployment, and no log hook of its tokens ever reverts. */
  lemma RegisteredMarketsAreLegit(a: AugurLite, u: Universe, m: Contracts.Market)
    requires a.Valid() && u in a.universes && m in u.markets
    ensures a.IsLegit(m)
    ensures m.Valid() && m.controller == a.controller && m.universe.augurLite == a
    ensures forall i | 0 <= i < |m.shareTokens| :: m.shareTokens[i].HookPasses()
  {
    assert u.Valid();
    forall i | 0 <= i < |m.shareTokens|
      ensures m.shareTokens[i].HookPasses()
    {
      HooksPassForLegitMarkets(m, i);
    }
  }

  /** marketIsLegit lets just those through. */
  lemma OnlyRegisteredMarketsAreLegit(a: AugurLite, m: Contracts.Market)
    ensures a.IsLegit(m) <==> m.universe in a.universes && m in m.universe.markets
  {
  }

  /** And the other way about: a token whose hook AugurLite accepts, whatever market, universe and outcome it names,
      is one a registered market lists under that outcome. */
  lemma OnlyGenuineTokensPassTheHook(a: AugurLite, t: ShareToken)
    requires a.Valid() && t.market.universe.augurLite == a
    ensures t.HookPasses() <==>
              && t.market.universe in a.universes && t.market in t.market.universe.markets
              && t.outcome < |t.market.shareTokens| && t.market.shareTokens[t.outcome] == t
  {
    if t.market.universe in a.universes {
      assert t.market.universe.Valid();
    }
  }

  lemma BaseListed(m: Contracts.Market, i: nat)
    requires i < |m.shareTokens|
    ensures m.shareTokens[i].base in Bases(m.shareTokens)
  {
  }

  class CompleteSets {
    const controller: Controller
    const augurLite: AugurLite
    const deployment: Deployment
    var rentrancyLock: bool

    /** The contracts know themselves and each other by their entries in the registry. */
    constructor (controller: Controller, augurLite: AugurLite)
      ensures this.controller == controller && this.augurLite == augurLite && !rentrancyLock
      ensures deployment.augurLite == augurLite.self
      ensures deployment.completeSets == controller.ContractAt("CompleteSets")
      ensures deployment.claims == controller.ContractAt("ClaimTradingProceeds")
    {
      this.controller, this.augurLite := controller, augurLite;
      deployment := Deployment(augurLite.self, controller.ContractAt("CompleteSets"), controller.ContractAt("ClaimTradingProceeds"));
      rentrancyLock := false;
    }

    /** A market of this deployment. */
    ghost predicate Serves(m: Contracts.Market)
      reads m
    {
      && m.Valid()
      && m.controller == controller && augurLite.controller == controller
      && m.universe.augurLite == augurLite && augurLite.self == deployment.augurLite
    }

    method PublicBuyCompleteSets(sender: Address, m: Contracts.Market, amount: uint256) returns (ok: bool)
      requires Serves(m)
      modifies this, m.denominationToken, Bases(m.shareTokens)
      ensures !ok ==> rentrancyLock == old(rentrancyLock)
      ensures ok ==> !rentrancyLock
      ensures ok ==> Covered(m.View(), m.denominationToken.BalanceOf(m.self))
      ensures ok <==> !controller.stopped && augurLite.IsLegit(m) && deployment.completeSets in controller.whitelist
                      && !old(rentrancyLock)
                      && Buy(deployment, old(m.denominationToken.State()), old(m.View()), sender, amount).Commit?
      ensures Books(m) == if ok then Buy(deployment, old(m.denominationToken.State()), old(m.View()), sender, amount).value
                          else old(Books(m))
    {
      if controller.stopped || !augurLite.IsLegit(m) {
        return false;
      }
      var d, shares := m.Snapshot();
      ok := BuyCompleteSets(deployment.completeSets, sender, m, amount);
      if ok {
        ok := m.AssertBalances();
        if !ok {
          m.Rollback(d, shares);
        }
      }
    }

    method BuyCompleteSets(caller: Address, sender: Address, m: Contracts.Market, amount: uint256) returns (ok: bool)
      requires Serves(m)
      modifies this, m.denominationToken, Bases(m.shareTokens)
      ensures rentrancyLock == old(rentrancyLock)
      ensures ok <==> caller in controller.whitelist && !old(rentrancyLock)
                      && deployment.completeSets in controller.whitelist && augurLite.IsLegit(m)
                      && BuySets(deployment, old(m.denominationToken.State()), old(m.View()), sender, amount).Commit?
      ensures Books(m) == if ok then BuySets(deployment, old(m.denominationToken.State()), old(m.View()), sender, amount).value
                          else old(Books(m))
    {
      if !controller.IsWhitelisted(caller) || rentrancyLock {
        return false;
      }
      rentrancyLock := true;
      var d, shares := m.Snapshot();
      ok := PayAndMint(sender, m, amount);
      if !ok {
        m.Rollback(d, shares);
      }
      rentrancyLock := false;
    }

    /** Mint every outcome's shares, outcome by outcome, up to wherever it reverts. */
    method MintOutcomes(sender: Address, m: Contracts.Market, amount: uint256) returns (ok: bool)
      requires Serves(m)
      modifies Bases(m.shareTokens)
      ensures ok <==> deployment.completeSets in controller.whitelist && augurLite.IsLegit(m)
                      && MintAll(old(m.View()).shares, sender, amount).Commit?
      ensures ok ==> m.View().shares == MintAll(old(m.View()).shares, sender, amount).value
    {
      hide Mint, Minted;
      var i: nat := 0;
      while i < m.terms.numOutcomes
        modifies Bases(m.shareTokens)
        invariant i <= |m.shareTokens|
        invariant forall k | 0 <= k < i :: Mint(old(m.shareTokens[k].base.State()), sender, amount) == Commit(m.shareTokens[k].base.State())
        invariant forall k | i <= k < |m.shareTokens| :: m.shareTokens[k].base.State() == old(m.shareTokens[k].base.State())
        invariant i > 0 ==> augurLite.IsLegit(m) && controller.IsWhitelisted(deployment.completeSets)
      {
        HooksPassForLegitMarkets(m, i);
        BaseListed(m, i);
        ok := m.shareTokens[i].CreateShares(deployment.completeSets, sender, amount);
        if !ok {
          return;
        }
        i := i + 1;
      }
      ok := true;
    }

    /** The body of buyCompleteSets, up to wherever it reverts. */
    method PayAndMint(sender: Address, m: Contracts.Market, amount: uint256) returns (ok: bool)
      requires Serves(m)
      modifies m.denominationToken, Bases(m.shareTokens)
      ensures ok <==> deployment.completeSets in controller.whitelist && augurLite.IsLegit(m)
                      && BuySets(deployment, old(m.denominationToken.State()), old(m.View()), sender, amount).Commit?
      ensures ok ==> Books(m) == BuySets(deployment, old(m.denominationToken.State()), old(m.View()), sender, amount).value
    {
      hide TransferFrom, Mint, Mul, Minted;
      if sender == NULL_ADDRESS {
        return false;
      }
      var cost := Mul(amount, m.terms.numTicks);
      if cost.Revert? {
        return false;
      }
      ok := augurLite.TrustedTransfer(deployment.completeSets, m.denominationToken, sender, m.self, cost.value);
      if !ok {
        return;
      }
      ok := MintOutcomes(sender, m, amount);
    }

    method PublicSellCompleteSets(sender: Address, m: Contracts.Market, amount: uint256) returns (ok: bool)
      requires Serves(m)
      modifies this, m.denominationToken, Bases(m.shareTokens)
      ensures !ok ==> rentrancyLock == old(rentrancyLock)
      ensures ok ==> !rentrancyLock
      ensures ok ==> Covered(m.View(), m.denominationToken.BalanceOf(m.self))
      ensures ok <==> !controller.stopped && augurLite.IsLegit(m) && deployment.completeSets in controller.whitelist
                      && !old(rentrancyLock)
                      && Sell(deployment, old(m.denominationToken.State()), old(m.View()), sender, amount).Commit?
      ensures Books(m) == if ok then Sell(deployment, old(m.denominationToken.State()), old(m.View()), sender, amount).value
                          else old(Books(m))
    {
      if controller.stopped || !augurLite.IsLegit(m) {
        return false;
      }
      var d, shares := m.Snapshot();
      ok := SellCompleteSets(deployment.completeSets, sender, m, amount);
      if ok {
        ok := m.AssertBalances();
        if !ok {
          m.Rollback(d, shares);
        }
      }
    }

    method SellCompleteSets(caller: Address, sender: Address, m: Contracts.Market, amount: uint256) returns (ok: bool)
      requires Serves(m)
      modifies this, m.denominationToken, Bases(m.shareTokens)
      ensures rentrancyLock == old(rentrancyLock)
      ensures ok <==> caller in controller.whitelist && !old(rentrancyLock)
                      && deployment.completeSets in controller.whitelist && augurLite.IsLegit(m)
                      && SellSets(deployment, old(m.denominationToken.State()), old(m.View()), sender, amount).Commit?
      ensures Books(m) == if ok then SellSets(deployment, old(m.denominationToken.State()), old(m.View()), sender, amount).value
                          else old(Books(m))
    {
      if !controller.IsWhitelisted(caller) || rentrancyLock {
        return false;
      }
      rentrancyLock := true;
      var d, shares := m.Snapshot();
      ok := BurnAndPay(sender, m, amount);
      if !ok {
        m.Rollback(d, shares);
      }
      rentrancyLock := false;
    }

    /** Burn every outcome's shares, outcome by outcome, up to wherever it reverts. */
    method BurnOutcomes(sender: Address, m: Contracts.Market, amount: uint256) returns (ok: bool)
      requires Serves(m)
      modifies Bases(m.shareTokens)
      ensures ok <==> deployment.completeSets in controller.whitelist && augurLite.IsLegit(m)
                      && BurnAll(old(m.View()).shares, sender, amount).Commit?
      ensures ok ==> m.View().shares == BurnAll(old(m.View()).shares, sender, amount).value
    {
      hide Burn, Burned;
      var i: nat := 0;
      while i < m.terms.numOutcomes
        modifies Bases(m.shareTokens)
        invariant i <= |m.shareTokens|
        invariant forall k | 0 <= k < i :: Burn(old(m.shareTokens[k].base.State()), sender, amount) == Commit(m.shareTokens[k].base.State())
        invariant forall k | i <= k < |m.shareTokens| :: m.shareTokens[k].base.State() == old(m.shareTokens[k].base.State())
        invariant i > 0 ==> augurLite.IsLegit(m) && controller.IsWhitelisted(deployment.completeSets)
      {
        HooksPassForLegitMarkets(m, i);
        BaseListed(m, i);
        ok := m.shareTokens[i].DestroyShares(deployment.completeSets, sender, amount);
        if !ok {
          return;
        }
        i := i + 1;
      }
      ok := true;
    }

    /** The body of sellCompleteSets, up to wherever it reverts. */
    method BurnAndPay(sender: Address, m: Contracts.Market, amount: uint256) returns (ok: bool)
      requires Serves(m)
      modifies m.denominationToken, Bases(m.shareTokens)
      ensures ok <==> deployment.completeSets in controller.whitelist && augurLite.IsLegit(m)
                      && SellSets(deployment, old(m.denominationToken.State()), old(m.View()), sender, amount).Commit?
      ensures ok ==> Books(m) == SellSets(deployment, old(m.denominationToken.State()), old(m.View()), sender, amount).value
    {
      hide TransferFrom, Burn, Mul, Sub, Burned, Fee;
      if sender == NULL_ADDRESS {
        return false;
      }
      var payout := Mul(amount, m.terms.numTicks);
      if payout.Revert? {
        return false;
      }
      var creatorFee := m.DeriveMarketCreatorFeeAmount(payout.value);
      var rest := Sub(payout.value, creatorFee);
      if rest.Revert? {
        return false;
      }
      ok := BurnOutcomes(sender, m, amount);
      if !ok {
        return;
      }
      if creatorFee != 0 {
        ok := m.denominationToken.TransferFrom(deployment.completeSets, m.self, m.mailbox, creatorFee);
        if !ok {
          return;
        }
      }
      ok := m.denominationToken.TransferFrom(deployment.completeSets, m.self, sender, rest.value);
    }
  }

  class ClaimTradingProceeds {
    const controller: Controller
    const augurLite: AugurLite
    const deployment: Deployment
    var rentrancyLock: bool

    /** The contracts know themselves and each other by their entries in the registry. */
    constructor (controller: Controller, augurLite: AugurLite)
      ensures this.controller == controller && this.augurLite == augurLite && !rentrancyLock
      ensures deployment.augurLite == augurLite.self
      ensures deployment.completeSets == controller.ContractAt("CompleteSets")
      ensures deployment.claims == controller.ContractAt("ClaimTradingProceeds")
    {
      this.controller, this.augurLite := controller, augurLite;
      deployment := Deployment(augurLite.self, controller.ContractAt("CompleteSets"), controller.ContractAt("ClaimTradingProceeds"));
      rentrancyLock := false;
    }

    ghost predicate Serves(m: Contracts.Market)
      reads m
    {
      m.Valid() && m.controller == controller && m.universe.augurLite == augurLite
    }

    /** With the approvals a market has given since its creation, and its books in order, a claim can fail for nobody
        but the market, and for nothing but its time. */
    lemma ApprovedEscrowPays(m: Contracts.Market, shareHolder: Address, now: uint256)
      requires Serves(m) && m.IsResolved() && m.mailbox != m.self
      requires deployment.completeSets == controller.ContractAt("CompleteSets")
      requires deployment.claims == controller.ContractAt("ClaimTradingProceeds")
      requires forall s :: Allowance(m.denominationToken.State(), m.self, s) ==
                 if s == controller.ContractAt("CompleteSets") || s == controller.ContractAt("ClaimTradingProceeds")
                 then MAX_UINT256 else 0
      requires Conserved(m.denominationToken.State())
      requires forall i | 0 <= i < |m.shareTokens| :: Conserved(m.shareTokens[i].base.State())
      requires |m.payoutNumerators| == |m.shareTokens|
      requires Dot(Supplies(States(m.shareTokens)), m.payoutNumerators) <= Bal(m.denominationToken.State(), m.self)
      ensures shareHolder != m.self ==>
                (Trading.Claim(deployment, m.denominationToken.State(), m.View(), now, shareHolder).Commit? <==> now > m.resolutionTime)
    {
      hide Conserved, Dot, LogFits, Trading.Claim;
      ClaimExact(deployment, m.denominationToken.State(), m.View(), now, shareHolder);
    }

    function CalculateProceeds(m: Contracts.Market, outcome: nat, numberOfShares: uint256): Tx<uint256>
      reads m
    {
      var payoutNumerator :- m.PayoutNumerator(outcome);
      Mul(numberOfShares, payoutNumerator)
    }

    /** Proceeds, the holder's share and the creator's: the two always add up. */
    function DivideUpWinnings(m: Contracts.Market, outcome: nat, numberOfShares: uint256): (r: Tx<(uint256, uint256, uint256)>)
      reads m
      ensures r.Commit? ==> r.value.0 == r.value.1 + r.value.2
    {
      var proceeds :- CalculateProceeds(m, outcome, numberOfShares);
      var creatorShare := m.DeriveMarketCreatorFeeAmount(proceeds);
      var shareHolderShare :- Sub(proceeds, creatorShare);
      Commit((proceeds, shareHolderShare, creatorShare))
    }

    /** Nothing but the phase, the outcome and the size of the product can make it revert: the fee never exceeds the
        proceeds. The creator's share is the fee divisor's part of the proceeds, rounded down. */
    lemma WinningsExact(m: Contracts.Market, outcome: nat, numberOfShares: uint256)
      requires m.Valid()
      ensures var r := DivideUpWinnings(m, outcome, numberOfShares);
              && (r.Commit? <==> m.IsResolved() && outcome < m.terms.numOutcomes
                                 && numberOfShares * m.payoutNumerators[outcome] < TWO_256)
              && (r.Commit? ==>
                    var (proceeds, shareHolderShare, creatorShare) := r.value;
                    && proceeds == numberOfShares * m.payoutNumerators[outcome] == shareHolderShare + creatorShare
                    && creatorShare == (if m.terms.feeDivisor == 0 then 0 else proceeds / m.terms.feeDivisor))
    {
      hide Mul, Sub;
      if m.IsResolved() && outcome < m.terms.numOutcomes {
        var proceeds := Mul(numberOfShares, m.payoutNumerators[outcome]);
        if proceeds.Commit? {
          FeeBounds(m.terms, proceeds.value);
        }
      }
    }

    method Claim(m: Contracts.Market, shareHolder: Address, now: uint256) returns (ok: bool)
      requires Serves(m)
      modifies this, m.denominationToken, Bases(m.shareTokens)
      ensures !ok ==> rentrancyLock == old(rentrancyLock)
      ensures ok ==> !rentrancyLock
      ensures now <= m.resolutionTime ==> !ok
      ensures deployment.claims in controller.whitelist ==>
                (ok <==> !controller.stopped && augurLite.IsLegit(m) && !old(rentrancyLock) && now > m.resolutionTime
                         && Trading.Claim(deployment, old(m.denominationToken.State()), old(m.View()), now, shareHolder).Commit?)
      ensures ok ==> Trading.Claim(deployment, old(m.denominationToken.State()), old(m.View()), now, shareHolder) == Commit(Books(m))
      ensures !ok ==> Books(m) == old(Books(m))
    {
      hide ClaimFrom;
      if controller.stopped || !augurLite.IsLegit(m) || rentrancyLock || now <= m.resolutionTime {
        return false;
      }
      rentrancyLock := true;
      var d, shares := m.Snapshot();
      ok := RedeemOutcomes(m, shareHolder);
      if !ok {
        m.Rollback(d, shares);
      }
      rentrancyLock := false;
    }

    /** The loop of claimTradingProceeds and the assertion after it, up to wherever they revert. */
    method RedeemOutcomes(m: Contracts.Market, shareHolder: Address) returns (ok: bool)
      requires Serves(m) && augurLite.IsLegit(m)
      modifies m.denominationToken, Bases(m.shareTokens)
      ensures deployment.claims in controller.whitelist ==>
                (ok <==> ClaimFrom(deployment, old(m.denominationToken.State()), old(m.View()), shareHolder, 0).Commit?)
      ensures ok ==> ClaimFrom(deployment, old(m.denominationToken.State()), old(m.View()), shareHolder, 0) == Commit(Books(m))
    {
      hide Pay, Burn, Settle, Covered;
      var i: nat := 0;
      while i < m.terms.numOutcomes
        modifies m.denominationToken, Bases(m.shareTokens)
        invariant i <= |m.shareTokens|
        invariant ClaimFrom(deployment, old(m.denominationToken.State()), old(m.View()), shareHolder, 0)
               == ClaimFrom(deployment, m.denominationToken.State(), m.View(), shareHolder, i)
      {
        ok := RedeemOutcome(m, shareHolder, i);
        if !ok {
          return;
        }
        i := i + 1;
      }
      assert i == |m.View().shares|;
      ok := m.AssertBalances();
    }

    /** Divide up the winnings of one outcome, burn its shares and log the claim. */
    method BurnAndLog(m: Contracts.Market, shareHolder: Address, i: nat) returns (r: Tx<(uint256, uint256)>)
      requires Serves(m) && augurLite.IsLegit(m) && i < |m.shareTokens|
      modifies Bases(m.shareTokens)
      ensures deployment.claims in controller.whitelist && r.Revert? ==>
                Settle(old(m.denominationToken.State()), old(m.View()), shareHolder, i).Revert?
      ensures r.Commit? ==>
                Settle(old(m.denominationToken.State()), old(m.View()), shareHolder, i)
                == Commit(Settlement(m.View(), r.value.0, r.value.1))
    {
      hide Burn, Mul, Sub, Add, Fee;
      HooksPassForLegitMarkets(m, i);
      BaseListed(m, i);
      var shareToken := m.shareTokens[i];
      var numberOfShares := shareToken.base.BalanceOf(shareHolder);
      assert numberOfShares == Bal(m.View().shares[i], shareHolder);
      var winnings := DivideUpWinnings(m, i, numberOfShares);
      if winnings.Revert? {
        return Revert;
      }
      var (_, shareHolderShare, creatorShare) := winnings.value;
      if numberOfShares > 0 {
        var ok := shareToken.DestroyShares(deployment.claims, shareHolder, numberOfShares);
        if !ok {
          return Revert;
        }
        // the final balance in the log of the claim
        var final := Add(m.denominationToken.BalanceOf(shareHolder), shareHolderShare);
        if final.Revert? || !controller.IsWhitelisted(deployment.claims) {
          return Revert;
        }
      }
      assert m.View().shares == old(m.View()).shares[i := m.shareTokens[i].base.State()];
      return Commit((shareHolderShare, creatorShare));
    }

    /** One outcome: burn, log and pay. */
    method RedeemOutcome(m: Contracts.Market, shareHolder: Address, i: nat) returns (ok: bool)
      requires Serves(m) && augurLite.IsLegit(m) && i < |m.shareTokens|
      modifies m.denominationToken, Bases(m.shareTokens)
      ensures deployment.claims in controller.whitelist && !ok ==>
                ClaimFrom(deployment, old(m.denominationToken.State()), old(m.View()), shareHolder, i).Revert?
      ensures ok ==> (ClaimFrom(deployment, old(m.denominationToken.State()), old(m.View()), shareHolder, i)
                      == ClaimFrom(deployment, m.denominationToken.State(), m.View(), shareHolder, i + 1))
    {
      hide TransferFrom, Settle, Covered;
      var shares := BurnAndLog(m, shareHolder, i);
      if shares.Revert? {
        return false;
      }
      var (shareHolderShare, creatorShare) := shares.value;
      ghost var settled := m.View();
      if shareHolderShare > 0 {
        ok := m.denominationToken.TransferFrom(deployment.claims, m.self, shareHolder, shareHolderShare);
        if !ok {
          return;
        }
      }
      if creatorShare > 0 {
        ok := m.denominationToken.TransferFrom(deployment.claims, m.self, m.mailbox, creatorShare);
        if !ok {
          return;
        }
      }
      assert m.View() == settled;
      ok := true;
    }
  }
}
