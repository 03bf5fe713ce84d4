/**
 * What holds in every state any sequence of calls can lead to, with calls of the denomination
 * token nested to any depth and reverted at any point.
 */
module Solvency {
  import opened Transactions
  import opened Words
  import opened Vectors
  import opened Addresses
  import opened TokenModel
  import opened MarketModel
  import opened Trading
  import opened Protocol
  import opened Accounts
  import opened Invariant
  import opened Redemption
  import opened Confluence
  import opened SetTrading
  import opened Uninterrupted
  import opened Completion

  /** The state after the given actions, from a denomination token and no markets. */
  function Reached(env: Deployment, denom: Token, now: uint256, acts: seq<Action>): State {
    Run(env, Genesis(denom, now), acts)
  }

  lemma ReachedConsistent(env: Deployment, denom: Token, now: uint256, acts: seq<Action>)
    requires DistinctDeployment(env) && Conserved(denom)
    ensures var st := Reached(env, denom, now, acts);
            Inv(env, st.world, st.stack) && Consistent(env, st.world, st.stack)
  {
    hide Consistent, Run;
    GenesisInv(env, denom, now);
    ReachableInv(env, Genesis(denom, now), acts);
  }

  // ---- Solvency ----

  /** The escrow of every market, to the token, in every reachable state: suspended payments and sets
      that are paid for but not minted included. */
  lemma EscrowLedger(env: Deployment, denom: Token, now: uint256, acts: seq<Action>, m: Address)
    requires DistinctDeployment(env) && Conserved(denom) && m in Reached(env, denom, now, acts).world.pools
    ensures var st := Reached(env, denom, now, acts);
            var p := st.world.pools[m];
            var l := p.ledger;
            var t := p.market.terms.numTicks;
            var pending := OwedNet(st.stack, m) + OwedFee(st.stack, m) + t * Unminted(st.stack, m);
            && |p.market.shares| == p.market.terms.numOutcomes == |l.claimed|
            && (forall i | 0 <= i < |p.market.shares| :: p.market.shares[i].supply == l.bought - l.sold - l.claimed[i])
            && Bal(st.world.denom, m) == t * (l.bought - l.sold) - ClaimsRedeemed(p) + l.donated + pending
            && (Resolved(p.market) ==>
                  && |p.market.payouts| == |p.market.shares|
                  && 0 <= Shortfall(p.market) < p.market.terms.numOutcomes
                  && ClaimsRedeemed(p) == Dot(l.claimed, p.market.payouts)
                  && Bal(st.world.denom, m) == Dot(Supplies(p.market.shares), p.market.payouts)
                                             + Shortfall(p.market) * (l.bought - l.sold) + l.donated + pending)
            && (!Resolved(p.market) ==>
                  && ClaimsRedeemed(p) == 0
                  && forall i | 0 <= i < |p.market.shares| :: p.market.shares[i].supply == l.bought - l.sold)
  {
    hide Reached, Inv, Conserved, Dot, Shortfall;
    ReachedConsistent(env, denom, now, acts);
    var st := Reached(env, denom, now, acts);
    assert PoolBalanced(st.world, st.stack, m);
    var p := st.world.pools[m];
    var b := Bal(st.world.denom, m);
    if Resolved(p.market) {
      EscrowCoversShares(p, b, OwedNet(st.stack, m), OwedFee(st.stack, m), Unminted(st.stack, m));
    }
  }

  /** assertBalances holds in every reachable state, with everything still to be paid set aside, and
      none of its sums and products overflows. */
  lemma AssertBalancesNeverFails(env: Deployment, denom: Token, now: uint256, acts: seq<Action>, m: Address)
    requires DistinctDeployment(env) && Conserved(denom) && m in Reached(env, denom, now, acts).world.pools
    ensures var st := Reached(env, denom, now, acts);
            var mk := st.world.pools[m].market;
            var free := Bal(st.world.denom, m) - OwedNet(st.stack, m) - OwedFee(st.stack, m);
            && free >= 0
            && BalancesAssertable(st.world, m)
            && (Resolved(mk) ==>
                  && |mk.payouts| == |mk.shares|
                  && Dot(Supplies(mk.shares), mk.payouts) <= free < TWO_256)
            && (!Resolved(mk) ==>
                  && |mk.shares| > 0
                  && mk.shares[0].supply * mk.terms.numTicks <= free < TWO_256)
  {
    hide Reached, Inv, Balanced, Dot;
    ReachedConsistent(env, denom, now, acts);
    var st := Reached(env, denom, now, acts);
    assert PoolBalanced(st.world, st.stack, m);
    SolventBeyondDebts(st.world.pools[m], Bal(st.world.denom, m), OwedNet(st.stack, m), OwedFee(st.stack, m), Unminted(st.stack, m));
    AlwaysAssertable(env, st.world, st.stack, m);
  }

  /** Once the token stops calling back, an interrupted sale or claim runs to its end: a sale always, a claim on a
      resolved market for anybody but the market always, and for the market exactly when the balances it has yet to
      log fit. It then has paid all it owed and burned all it had to, and the calls below it are as they were. Where
      it cannot complete the world is again the one it was entered in. */
  lemma InterruptedRedemptionCompletes(env: Deployment, denom: Token, now: uint256, acts: seq<Action>, h: Address) returns (k: nat)
    requires DistinctDeployment(env) && Conserved(denom)
    requires var st := Reached(env, denom, now, acts); st.stack.Push? && RedeemsFor(st.stack.frame, h)
    ensures var st := Reached(env, denom, now, acts);
            var f := st.stack.frame;
            var end := Run(env, st, Continues(k));
            && FrameFits(st.world, f) && !f.Outside?
            && end.stack == st.stack.rest
            && (!CanComplete(st.world, f) ==> end.world == st.stack.saved)
            && (CanComplete(st.world, f) ==>
                  var mk := st.world.pools[f.market].market;
                  && Sized(mk, f)
                  && PaysOut(st.world, end.world, f.market, h, GrossLeft(mk, f), FeesLeft(mk, f), WhenDone(mk, f)))
  {
    hide Reached, Inv, Consistent, Drive, Rank, Run, CanComplete, PaysOut, GrossLeft, FeesLeft, WhenDone;
    ReachedConsistent(env, denom, now, acts);
    var st := Reached(env, denom, now, acts);
    RedemptionExact(env, st.world, st.stack, h);
    if CanComplete(st.world, st.stack.frame) {
      k := DriveIsRun(env, st, Rank(st.world, st.stack.frame));
    } else {
      k := DriveFailsInRun(env, st);
    }
  }

  /** An interrupted purchase runs to its end exactly when the price, if it is not paid yet, can be paid and no supply
      overflows; before resolution none can, so that a purchase that is paid for always gets its sets. */
  lemma InterruptedPurchaseCompletes(env: Deployment, denom: Token, now: uint256, acts: seq<Action>) returns (k: nat)
    requires DistinctDeployment(env) && Conserved(denom)
    requires var st := Reached(env, denom, now, acts); st.stack.Push? && Purchases(st.stack.frame)
    ensures var st := Reached(env, denom, now, acts);
            var f := st.stack.frame;
            var end := Run(env, st, Continues(k));
            && FrameFits(st.world, f)
            && var mk := st.world.pools[f.market].market;
            var payable := f.BuyUnpaid? ==> CanPay(env, st.world.denom, f.buyer, f.cost);
            && end.stack == st.stack.rest
            && (!Resolved(mk) && payable ==> SetsFit(mk, f.amount))
            && (!(payable && SetsFit(mk, f.amount)) ==> end.world == st.stack.saved)
            && (payable && SetsFit(mk, f.amount) ==>
                  && MintAll(mk.shares, f.buyer, f.amount).Commit?
                  && MintedFor(st.world, end.world, f.market, MintAll(mk.shares, f.buyer, f.amount).value)
                  && forall a :: Bal(end.world.denom, a)
                              == Bal(st.world.denom, a) + if f.BuyUnpaid? then Moved(a, f.buyer, f.market, f.cost) else 0)
  {
    hide Reached, Inv, Consistent, Drive, Rank, Run, MintAll, SetsFit, CanPay, Moved;
    ReachedConsistent(env, denom, now, acts);
    var st := Reached(env, denom, now, acts);
    PurchaseExact(env, st.world, st.stack);
    if Drive(env, st.world, st.stack.frame, Rank(st.world, st.stack.frame)).Commit? {
      k := DriveIsRun(env, st, Rank(st.world, st.stack.frame));
    } else {
      k := DriveFailsInRun(env, st);
    }
  }

  /** Exactly what a suspended call of any kind still depends on, wherever it was suspended. */
  lemma SuspendedCallGoesOn(env: Deployment, denom: Token, now: uint256, acts: seq<Action>)
    requires DistinctDeployment(env) && Conserved(denom) && Reached(env, denom, now, acts).stack.Push?
    ensures var st := Reached(env, denom, now, acts);
            Resume(env, st.world, st.stack.frame).Commit? <==> CanGoOn(env, st.world, st.stack.frame)
  {
    hide Reached, Inv, Consistent, Resume, CanGoOn;
    ReachedConsistent(env, denom, now, acts);
    var st := Reached(env, denom, now, acts);
    ResumeExact(env, st.world, st.stack);
  }

  // ---- Liveness ----

  /** What is said below of a call on its own is said of a run: begun in any reachable state, and handed control back
      until it returns, the call leads to the world it leads to on its own, or changes nothing at all. */
  lemma CallsAreRuns(env: Deployment, denom: Token, now: uint256, acts: seq<Action>, act: Action) returns (k: nat)
    requires DistinctDeployment(env) && Conserved(denom) && IsTradingCall(act)
    ensures var st := Reached(env, denom, now, acts);
            var r := Alone(env, st.world, act);
            Reached(env, denom, now, acts + ([act] + Continues(k))) == if r.Commit? then State(r.value, st.stack) else st
  {
    hide Inv, Consistent, Alone, Run, Begin;
    ReachedConsistent(env, denom, now, acts);
    k := AloneIsRun(env, Reached(env, denom, now, acts), act);
    RunAppend(env, Genesis(denom, now), acts, [act] + Continues(k));
  }

  /** Exactly who can sell sets, in every reachable state: whoever has them, before and after resolution, whatever was
      claimed, and from within a callback unless CompleteSets itself is suspended or there was an emergency stop. */
  lemma SetsCanAlwaysBeSold(env: Deployment, denom: Token, now: uint256, acts: seq<Action>, m: Address, h: Address, sets: uint256)
    requires DistinctDeployment(env) && Conserved(denom) && m in Reached(env, denom, now, acts).world.pools
    ensures var w := Reached(env, denom, now, acts).world;
            var mk := w.pools[m].market;
            var r := Alone(env, w, CallSell(h, m, sets));
            && (r.Commit? <==>
                  && !w.stopped && !w.setsLocked && h != NULL_ADDRESS
                  && forall i | 0 <= i < |mk.shares| :: sets <= Bal(mk.shares[i], h))
            && (r.Commit? ==>
                  && m in r.value.pools
                  && BurnAll(mk.shares, h, sets).Commit?
                  && r.value.pools[m].market == mk.(shares := BurnAll(mk.shares, h, sets).value)
                  && sets * mk.terms.numTicks < TWO_256
                  && Redeems(w.denom, r.value.denom, mk, h, sets * mk.terms.numTicks, Fee(mk.terms, sets * mk.terms.numTicks))
                  && (h != m && h != mk.mailbox ==>
                        var fee := Fee(mk.terms, sets * mk.terms.numTicks);
                        && Bal(r.value.denom, h) == Bal(w.denom, h) + sets * mk.terms.numTicks - fee
                        && Bal(r.value.denom, mk.mailbox) == Bal(w.denom, mk.mailbox) + fee
                        && Bal(r.value.denom, m) == Bal(w.denom, m) - sets * mk.terms.numTicks))
  {
    hide Reached, Inv, Consistent, Alone, Sell, Redeems, Fee, InBalance;
    ReachedConsistent(env, denom, now, acts);
    var st := Reached(env, denom, now, acts);
    var w := st.world;
    InBalanceAt(env, w, st.stack, m);
    SellExact(env, w.denom, w.pools[m], OwedNet(st.stack, m), OwedFee(st.stack, m), Unminted(st.stack, m), h, sets);
    SellAlone(env, w, st.stack, h, m, sets);
    var r := Alone(env, w, CallSell(h, m, sets));
    if r.Commit? {
      var mk := w.pools[m].market;
      assert mk.mailbox != mk.self by { InBalanceApart(env, w.denom, w.pools[m], OwedNet(st.stack, m), OwedFee(st.stack, m), Unminted(st.stack, m)); }
      RedeemsFromMarket(w.denom, r.value.denom, mk, h, sets * mk.terms.numTicks, Fee(mk.terms, sets * mk.terms.numTicks));
    }
  }

  lemma InBalanceApart(env: Deployment, d: Token, p: Pool, net: nat, fee: nat, unminted: nat)
    requires InBalance(env, d, p, net, fee, unminted)
    ensures p.market.mailbox != p.market.self
  {
  }

  /** Exactly who can buy sets, in every reachable state: whoever can pay and has let AugurLite move the price, as long
      as no supply overflows. */
  lemma WhoCanBuySets(env: Deployment, denom: Token, now: uint256, acts: seq<Action>, m: Address, h: Address, sets: uint256)
    requires DistinctDeployment(env) && Conserved(denom) && m in Reached(env, denom, now, acts).world.pools
    ensures var w := Reached(env, denom, now, acts).world;
            var mk := w.pools[m].market;
            var r := Alone(env, w, CallBuy(h, m, sets));
            var cost := sets * mk.terms.numTicks;
            var allowance := Allowance(w.denom, h, env.augurLite);
            && (r.Commit? <==>
                  && !w.stopped && !w.setsLocked && h != NULL_ADDRESS
                  && 0 < cost <= Bal(w.denom, h) && (allowance == MAX_UINT256 || cost <= allowance)
                  && forall i | 0 <= i < |mk.shares| :: mk.shares[i].supply + sets < TWO_256)
            && (r.Commit? ==>
                  && m in r.value.pools
                  && MintAll(mk.shares, h, sets).Commit?
                  && r.value.pools[m].market == mk.(shares := MintAll(mk.shares, h, sets).value)
                  && forall a :: Bal(r.value.denom, a) == Bal(w.denom, a) - (if a == h then cost else 0) + if a == m then cost else 0)
  {
    hide Reached, Inv, Consistent, Alone, Buy, InBalance, MintAll;
    ReachedConsistent(env, denom, now, acts);
    var st := Reached(env, denom, now, acts);
    var w := st.world;
    InBalanceAt(env, w, st.stack, m);
    BuyExact(env, w.denom, w.pools[m], OwedNet(st.stack, m), OwedFee(st.stack, m), Unminted(st.stack, m), h, sets);
    BuyAlone(env, w, st.stack, h, m, sets);
  }

  /** Exactly when a claim succeeds in a reachable state in which the market is resolved: after the time of the
      resolution, for any holder but the market itself; for the market as far as the balances it logs do not overflow.
      It burns all the holder's shares and pays what they are worth, less the fees. */
  lemma SharesCanAlwaysBeClaimed(env: Deployment, denom: Token, now: uint256, acts: seq<Action>, m: Address, h: Address)
    requires DistinctDeployment(env) && Conserved(denom)
    requires var w := Reached(env, denom, now, acts).world; m in w.pools && Resolved(w.pools[m].market)
    ensures var w := Reached(env, denom, now, acts).world;
            var mk := w.pools[m].market;
            var r := Alone(env, w, CallClaim(m, h));
            && |mk.payouts| == |mk.shares|
            && (r.Commit? <==>
                  && !w.stopped && !w.claimsLocked && w.now > mk.resolutionTime
                  && (h == m ==> LogFits(mk, m, Bal(w.denom, m), 0)))
            && (r.Commit? ==>
                  && m in r.value.pools
                  && r.value.pools[m].market == mk.(shares := ClearedFrom(mk.shares, h, 0))
                  && (forall i | 0 <= i < |mk.shares| :: Bal(r.value.pools[m].market.shares[i], h) == 0)
                  && Redeems(w.denom, r.value.denom, mk, h, GrossFrom(mk, h, 0), FeesFrom(mk, h, 0))
                  && (h != m && h != mk.mailbox ==>
                        && Bal(r.value.denom, h) == Bal(w.denom, h) + GrossFrom(mk, h, 0) - FeesFrom(mk, h, 0)
                        && Bal(r.value.denom, mk.mailbox) == Bal(w.denom, mk.mailbox) + FeesFrom(mk, h, 0)
                        && Bal(r.value.denom, m) == Bal(w.denom, m) - GrossFrom(mk, h, 0)))
  {
    hide Reached, Inv, Consistent, Alone, Claim, Redeems, InBalance, LogFits, GrossFrom, FeesFrom, Redeemable;
    ReachedConsistent(env, denom, now, acts);
    var st := Reached(env, denom, now, acts);
    var w := st.world;
    var mk := w.pools[m].market;
    var net, fee, unminted := OwedNet(st.stack, m), OwedFee(st.stack, m), Unminted(st.stack, m);
    InBalanceAt(env, w, st.stack, m);
    InBalanceRedeemable(env, w.denom, w.pools[m], net, fee, unminted);
    ClaimExact(env, w.denom, mk, w.now, h);
    ClaimAlone(env, w, st.stack, m, h);
    SharesInBalance(env, w.denom, w.pools[m], net, fee, unminted);
    forall i | 0 <= i < |mk.shares|
      ensures Bal(Cleared(mk.shares[i], h), h) == 0
    {
      ClearedIsBurned(mk.shares[i], h);
    }
    var r := Alone(env, w, CallClaim(m, h));
    if r.Commit? {
      assert mk.mailbox != mk.self by { RedeemableIsAccounted(env, w.denom, mk); }
      RedeemsFromMarket(w.denom, r.value.denom, mk, h, GrossFrom(mk, h, 0), FeesFrom(mk, h, 0));
    }
  }

  lemma RedeemsFromMarket(d: Token, d': Token, mk: Market, h: Address, gross: int, fees: int)
    requires Redeems(d, d', mk, h, gross, fees) && mk.mailbox != mk.self
    ensures h != mk.self && h != mk.mailbox ==>
              && Bal(d', h) == Bal(d, h) + gross - fees
              && Bal(d', mk.mailbox) == Bal(d, mk.mailbox) + fees
              && Bal(d', mk.self) == Bal(d, mk.self) - gross
  {
  }

  /** A claim on a market that is not resolved fails in every reachable state. */
  lemma UnresolvedClaimsRevert(env: Deployment, denom: Token, now: uint256, acts: seq<Action>, m: Address, h: Address)
    requires DistinctDeployment(env) && Conserved(denom)
    requires var w := Reached(env, denom, now, acts).world; m in w.pools && !Resolved(w.pools[m].market)
    ensures Alone(env, Reached(env, denom, now, acts).world, CallClaim(m, h)).Revert?
  {
    hide Reached, Inv, Consistent, Alone, Claim;
    ReachedConsistent(env, denom, now, acts);
    var st := Reached(env, denom, now, acts);
    var w := st.world;
    ClaimAlone(env, w, st.stack, m, h);
    CountedInConsistent(env, w, st.stack, m);
    InBalanceAt(env, w, st.stack, m);
    SharesInBalance(env, w.denom, w.pools[m], OwedNet(st.stack, m), OwedFee(st.stack, m), Unminted(st.stack, m));
    ClaimNeedsResolution(env, w.denom, w.pools[m].market, w.now, h);
  }

  /** Buying sets and selling them again takes nothing but the fee, in every reachable state. */
  lemma BuyThenSell(env: Deployment, denom: Token, now: uint256, acts: seq<Action>, m: Address, h: Address, sets: uint256)
    requires DistinctDeployment(env) && Conserved(denom)
    requires var w := Reached(env, denom, now, acts).world;
             m in w.pools && Buy(env, w.denom, w.pools[m].market, h, sets).Commit?
    ensures var w := Reached(env, denom, now, acts).world;
            var mk := w.pools[m].market;
            var (d1, mk1) := Buy(env, w.denom, mk, h, sets).value;
            var r := Sell(env, d1, mk1, h, sets);
            && Price(mk, sets) < TWO_256
            && r.Commit? && r.value.1 == mk && Bal(r.value.0, m) == Bal(w.denom, m)
            && forall a :: Bal(r.value.0, a) == Bal(w.denom, a) + Moved(a, h, mk.mailbox, Fee(mk.terms, Price(mk, sets)))
  {
    hide Reached, Inv, Balanced, Buy, Sell, Fee, Price, Conserved;
    ReachedConsistent(env, denom, now, acts);
    var st := Reached(env, denom, now, acts);
    var w := st.world;
    InBalanceAt(env, w, st.stack, m);
    SellUndoesBuy(env, w.denom, w.pools[m], OwedNet(st.stack, m), OwedFee(st.stack, m), Unminted(st.stack, m), h, sets);
    BuyExact(env, w.denom, w.pools[m], OwedNet(st.stack, m), OwedFee(st.stack, m), Unminted(st.stack, m), h, sets);
  }

  /** If every holder claims, in whatever order, what stays in escrow is the shortfall of the sets outstanding, the
      donations and whatever is pending: the shortfall only if the market is invalid and its ticks do not divide by its
      outcomes. What the market's own shares pay, if anybody sent it any, stays there as well. All the claims go
      through exactly when the market's own, at its turn, does; without one they always do. */
  lemma ClaimsDrainTheMarket(env: Deployment, denom: Token, now: uint256, acts: seq<Action>, m: Address, hs: seq<Address>, gs: seq<Address>)
    requires DistinctDeployment(env) && Conserved(denom)
    requires var w := Reached(env, denom, now, acts).world;
             && m in w.pools && Resolved(w.pools[m].market) && w.now > w.pools[m].market.resolutionTime
             && HeldBy(w.pools[m].market.shares, hs) && multiset(gs) == multiset(hs)
    ensures var st := Reached(env, denom, now, acts);
            var p := st.world.pools[m];
            var mk := p.market;
            var pending := OwedNet(st.stack, m) + OwedFee(st.stack, m) + mk.terms.numTicks * Unminted(st.stack, m);
            var r := ClaimAll(env, st.world.denom, mk, st.world.now, hs);
            && |mk.payouts| == |mk.shares| && mk.terms.numOutcomes > 0
            && (r.Commit? <==> MarketTurnFits(mk, hs, Bal(st.world.denom, m)))
            && (m !in hs ==> r.Commit?)
            && (r.Commit? && ClaimAll(env, st.world.denom, mk, st.world.now, gs).Commit? ==>
                  ClaimAll(env, st.world.denom, mk, st.world.now, gs) == r)
            && (r.Commit? ==>
                  && (forall i | 0 <= i < |r.value.1.shares| :: r.value.1.shares[i].supply == 0)
                  && Bal(r.value.0, m) == Shortfall(mk) * (p.ledger.bought - p.ledger.sold) + p.ledger.donated + pending + OwnNet(mk, hs)
                  && (!mk.invalid || mk.terms.numTicks % mk.terms.numOutcomes == 0 ==>
                        Bal(r.value.0, m) == p.ledger.donated + pending + OwnNet(mk, hs)))
  {
    hide Reached, Inv, Conserved, OnlyTradersApproved, ClaimAll, HeldBy, Redeemable, Balanced, Dot, Shortfall, Wired, AllBalanced,
         OwnNet, Payments, AfterClaims, InBalance;
    ReachedConsistent(env, denom, now, acts);
    var st := Reached(env, denom, now, acts);
    var w := st.world;
    var p := w.pools[m];
    var net, fee, unminted := OwedNet(st.stack, m), OwedFee(st.stack, m), Unminted(st.stack, m);
    InBalanceAt(env, w, st.stack, m);
    InBalanceRedeemable(env, w.denom, p, net, fee, unminted);
    RedeemableShape(env, w.denom, p.market);
    ClaimAllExact(env, w.denom, p.market, w.now, hs);
    ClaimOrderIrrelevant(env, w.denom, p.market, w.now, hs, gs);
    assert PoolBalanced(w, st.stack, m) by { BalancedAt(w, st.stack, m); }
    EscrowCoversShares(p, Bal(w.denom, m), net, fee, unminted);
    TermsAndShortfall(p, Bal(w.denom, m), net, fee, unminted);
    ShortfallVanishes(p);
    if ClaimAll(env, w.denom, p.market, w.now, hs).Commit? {
      ClaimsDrain(env, w.denom, p.market, w.now, hs);
    }
  }

  /** Claims that go through one after another are a run of the machine. */
  lemma {:induction false} ClaimsAreRuns(env: Deployment, denom: Token, now: uint256, acts: seq<Action>, m: Address, hs: seq<Address>)
    returns (more: seq<Action>)
    requires DistinctDeployment(env) && Conserved(denom)
    requires var st := Reached(env, denom, now, acts);
             && st.stack.Empty? && Callable(st.world, m)
             && ClaimAll(env, st.world.denom, st.world.pools[m].market, st.world.now, hs).Commit?
    ensures var w := Reached(env, denom, now, acts).world;
            var end := Reached(env, denom, now, acts + more);
            var (d, mk) := ClaimAll(env, w.denom, w.pools[m].market, w.now, hs).value;
            end.stack.Empty? && Becomes(w, end.world, m, d, mk)
    decreases |hs|
  {
    hide Reached, Inv, Consistent, Alone, Claim;
    var w := Reached(env, denom, now, acts).world;
    if hs == [] {
      more := [];
      assert acts + [] == acts;
    } else {
      ReachedConsistent(env, denom, now, acts);
      assert !w.claimsLocked by { LocksOpenWhenIdle(env, denom, now, acts); }
      ClaimAlone(env, w, Empty, m, hs[0]);
      var k := CallsAreRuns(env, denom, now, acts, CallClaim(m, hs[0]));
      var first := [CallClaim(m, hs[0])] + Continues(k);
      var rest := ClaimsAreRuns(env, denom, now, acts + first, m, hs[1..]);
      more := first + rest;
      assert acts + more == (acts + first) + rest;
    }
  }

  lemma ShortfallVanishes(p: Pool)
    requires p.market.terms.numOutcomes > 0
    requires p.market.terms.numTicks - Sum(p.market.payouts)
          == if p.market.invalid then p.market.terms.numTicks % p.market.terms.numOutcomes else 0
    ensures !p.market.invalid || p.market.terms.numTicks % p.market.terms.numOutcomes == 0 ==>
              Shortfall(p.market) * (p.ledger.bought - p.ledger.sold) == 0
  {
  }

  // ---- Fees ----

  /** Over any run, with what suspended calls have yet to pay included: all that was redeemed goes to holders or the
      mailbox, and the fees are the divisor's share of it, but for less than one divisor of rounding each time a fee
      was computed. */
  lemma FeesOverAnyRun(env: Deployment, denom: Token, now: uint256, acts: seq<Action>, m: Address)
    requires DistinctDeployment(env) && Conserved(denom) && m in Reached(env, denom, now, acts).world.pools
    ensures var st := Reached(env, denom, now, acts);
            var p := st.world.pools[m];
            var fees := p.ledger.fees + OwedFee(st.stack, m);
            var paid := p.ledger.paid + OwedNet(st.stack, m);
            var f := p.market.terms.feeDivisor;
            && (st.stack.Empty? ==> fees == p.ledger.fees && paid == p.ledger.paid)
            && p.ledger.gross == fees + paid
            && (f == 0 ==> fees == 0)
            && (f != 0 ==> f >= 2 && f * fees <= p.ledger.gross <= f * fees + (f - 1) * p.ledger.feeCount)
  {
    hide Reached, Inv, SuppliesAgree, PhasesAgree, EscrowAgrees, Conserved, Wired;
    ReachedConsistent(env, denom, now, acts);
    var st := Reached(env, denom, now, acts);
    assert PoolBalanced(st.world, st.stack, m);
  }

  // ---- Locks, allowances, resolution ----

  /** With nothing suspended both locks are open; at no time are two calls inside the same contract. */
  lemma LocksOpenWhenIdle(env: Deployment, denom: Token, now: uint256, acts: seq<Action>)
    requires DistinctDeployment(env) && Conserved(denom)
    ensures var st := Reached(env, denom, now, acts);
            && (st.stack.Empty? ==> !st.world.setsLocked && !st.world.claimsLocked)
            && SetsFrames(st.stack) <= 1 && ClaimsFrames(st.stack) <= 1
            && (st.world.setsLocked <==> SetsFrames(st.stack) == 1)
            && (st.world.claimsLocked <==> ClaimsFrames(st.stack) == 1)
  {
    hide Reached, Inv, Wired, AllBalanced, Conserved, FramesFit;
    ReachedConsistent(env, denom, now, acts);
  }

  /** In every reachable state the traders' allowances on an escrow are everlasting and the only ones. */
  lemma OnlyTradersMaySpendEscrow(env: Deployment, denom: Token, now: uint256, acts: seq<Action>, m: Address, spender: Address)
    requires DistinctDeployment(env) && Conserved(denom) && m in Reached(env, denom, now, acts).world.pools
    ensures Allowance(Reached(env, denom, now, acts).world.denom, m, spender)
         == if spender == env.completeSets || spender == env.claims then MAX_UINT256 else 0
  {
    hide Reached, Inv, AllBalanced, Conserved, FramesFit, LocksAgree;
    ReachedConsistent(env, denom, now, acts);
    assert OnlyTradersApproved(env, Reached(env, denom, now, acts).world.denom, m);
  }

  /** A market is resolved exactly when it carries a payout vector that passed verification. */
  lemma PhaseEncodingsAgree(env: Deployment, denom: Token, now: uint256, acts: seq<Action>, m: Address)
    requires DistinctDeployment(env) && Conserved(denom) && m in Reached(env, denom, now, acts).world.pools
    ensures var mk := Reached(env, denom, now, acts).world.pools[m].market;
            && mk.terms.numOutcomes >= MIN_OUTCOMES
            && (Resolved(mk) <==> mk.payouts != [])
            && (Resolved(mk) ==> Acceptable(mk.payouts, mk.invalid, mk.terms))
  {
    hide Reached, Inv, Conserved, EscrowAgrees, FeesAgree, SuppliesAgree, Wired, FramesFit, LocksAgree;
    ReachedConsistent(env, denom, now, acts);
    var st := Reached(env, denom, now, acts);
    assert PoolBalanced(st.world, st.stack, m);
  }

  lemma ExtendsTransitive(u: World, v: World, w: World)
    requires Extends(u, v) && Extends(v, w)
    ensures Extends(u, w)
  {
  }

  /** The current world and every world a suspended call may fall back to come after `base`. */
  predicate AllExtend(base: World, w: World, s: Stack)
    decreases s
  {
    Extends(base, w) && (s.Push? ==> AllExtend(base, s.saved, s.rest))
  }

  lemma StepExtends(env: Deployment, base: World, st: State, act: Action)
    requires Inv(env, st.world, st.stack) && AllExtend(base, st.world, st.stack)
    ensures AllExtend(base, Step(env, st, act).world, Step(env, st, act).stack)
  {
    hide Consistent, Extends, Resume, Begin, Elsewhere;
    match act
    case Throw =>
    case Continue =>
      if st.stack.Push? && Resume(env, st.world, st.stack.frame).Commit? {
        ResumeKeepsConsistent(env, st.world, st.stack);
        ExtendsTransitive(base, st.world, Resume(env, st.world, st.stack.frame).value.world);
      }
    case _ =>
      if Begin(st.world, act).Commit? && Begin(st.world, act).value.Running? {
        BeginKeepsConsistent(env, st.world, st.stack, act);
        ExtendsTransitive(base, st.world, Begin(st.world, act).value.world);
      } else {
        ElsewhereKeepsConsistent(env, st.world, st.stack, act);
        ExtendsTransitive(base, st.world, Elsewhere(env, st.world, act));
      }
  }

  lemma {:induction false} RunExtends(env: Deployment, st: State, acts: seq<Action>)
    requires Inv(env, st.world, st.stack) && st.stack.Empty?
    ensures AllExtend(st.world, Run(env, st, acts).world, Run(env, st, acts).stack)
    decreases |acts|
  {
    hide Step, Inv;
    if acts != [] {
      var before := acts[..|acts| - 1];
      RunExtends(env, st, before);
      ReachableInv(env, st, before);
      StepExtends(env, st.world, Run(env, st, before), acts[|acts| - 1]);
    }
  }

  /** What a transaction has left behind is final: no later call changes a market's terms, resolves it again
      or lifts an emergency stop. */
  lemma ResolutionIsFinal(env: Deployment, denom: Token, now: uint256, before: seq<Action>, after: seq<Action>)
    requires DistinctDeployment(env) && Conserved(denom) && Reached(env, denom, now, before).stack.Empty?
    ensures Extends(Reached(env, denom, now, before).world, Run(env, Reached(env, denom, now, before), after).world)
  {
    hide Reached, Inv, Extends;
    ReachedConsistent(env, denom, now, before);
    RunExtends(env, Reached(env, denom, now, before), after);
  }

  /** Each world a suspended call may fall back to comes before the ones above it. */
  predicate Chained(w: World, s: Stack)
    decreases s
  {
    s.Push? ==> Extends(s.saved, w) && Chained(s.saved, s.rest)
  }

  lemma ChainedHigher(w: World, v: World, s: Stack)
    requires Chained(w, s) && Extends(w, v)
    ensures Chained(v, s)
  {
    hide Extends;
    if s.Push? {
      ExtendsTransitive(s.saved, w, v);
    }
  }

  lemma StepChains(env: Deployment, st: State, act: Action)
    requires Inv(env, st.world, st.stack) && Chained(st.world, st.stack)
    ensures Chained(Step(env, st, act).world, Step(env, st, act).stack)
  {
    hide Consistent, Extends, Resume, Begin, Elsewhere;
    match act
    case Throw =>
    case Continue =>
      if st.stack.Push? && Resume(env, st.world, st.stack.frame).Commit? {
        ResumeKeepsConsistent(env, st.world, st.stack);
        ChainedHigher(st.world, Resume(env, st.world, st.stack.frame).value.world, st.stack);
        BelowChained(Resume(env, st.world, st.stack.frame).value.world, st.stack);
      }
    case _ =>
      if Begin(st.world, act).Commit? && Begin(st.world, act).value.Running? {
        BeginKeepsConsistent(env, st.world, st.stack, act);
      } else {
        ElsewhereKeepsConsistent(env, st.world, st.stack, act);
        ChainedHigher(st.world, Elsewhere(env, st.world, act), st.stack);
      }
  }

  lemma BelowChained(w: World, s: Stack)
    requires s.Push? && Chained(w, s)
    ensures Chained(w, s.rest)
  {
    hide Extends;
    ChainedHigher(s.saved, w, s.rest);
  }

  lemma {:induction false} RunChains(env: Deployment, st: State, acts: seq<Action>)
    requires Inv(env, st.world, st.stack) && Chained(st.world, st.stack)
    ensures Chained(Run(env, st, acts).world, Run(env, st, acts).stack)
    decreases |acts|
  {
    hide Step, Inv, Chained;
    if acts != [] {
      var before := acts[..|acts| - 1];
      RunChains(env, st, before);
      ReachableInv(env, st, before);
      StepChains(env, Run(env, st, before), acts[|acts| - 1]);
    }
  }

  /** No step but the oracle's own, after the market has ended, resolves a market. */
  lemma OnlyTheOracleResolves(env: Deployment, denom: Token, now: uint256, acts: seq<Action>, act: Action, m: Address)
    requires DistinctDeployment(env) && Conserved(denom)
    requires var st := Reached(env, denom, now, acts);
             && m in st.world.pools && !Resolved(st.world.pools[m].market)
             && m in Step(env, st, act).world.pools && Resolved(Step(env, st, act).world.pools[m].market)
    ensures var w := Reached(env, denom, now, acts).world;
            var mk := w.pools[m].market;
            && act.ResolveMarket? && act.market == m && act.sender == mk.terms.oracle
            && w.now > mk.terms.endTime && !w.stopped
            && Step(env, Reached(env, denom, now, acts), act).world.pools[m].market
               == mk.(resolutionTime := w.now, payouts := act.payouts, invalid := act.invalid)
  {
    hide Reached, Inv, Chained;
    GenesisInv(env, denom, now);
    ReachedConsistent(env, denom, now, acts);
    var st := Reached(env, denom, now, acts);
    assert Chained(st.world, st.stack) by {
      StartsChained(env, denom, now);
      RunChains(env, Genesis(denom, now), acts);
      ReachedIs(env, denom, now, acts);
    }
    StepResolves(env, st, act, m);
  }

  lemma StartsChained(env: Deployment, denom: Token, now: uint256)
    ensures Chained(Genesis(denom, now).world, Genesis(denom, now).stack)
  {
  }

  lemma ReachedIs(env: Deployment, denom: Token, now: uint256, acts: seq<Action>)
    ensures Reached(env, denom, now, acts) == Run(env, Genesis(denom, now), acts)
  {
  }

  /** A resolution happens outside the trading contracts, and no revert brings one about. */
  lemma StepResolves(env: Deployment, st: State, act: Action, m: Address)
    requires Inv(env, st.world, st.stack) && Chained(st.world, st.stack)
    requires m in st.world.pools && !Resolved(st.world.pools[m].market)
    requires var v := Step(env, st, act).world; m in v.pools && Resolved(v.pools[m].market)
    ensures var mk := st.world.pools[m].market;
            && act.ResolveMarket? && act.market == m
            && Resolve(mk, st.world.now, act.sender, act.payouts, act.invalid) == Commit(Step(env, st, act).world.pools[m].market)
            && !st.world.stopped
  {
    hide Consistent, Resume, Begin, Elsewhere, Inv;
    if st.stack.Push? {
      FallbackUnresolved(st, m);
    }
    match act
    case Throw =>
    case Continue =>
      if st.stack.Push? && Resume(env, st.world, st.stack.frame).Commit? {
        TradingResolvesNothing(env, st.world, st.stack.frame, m);
      }
    case _ =>
      if Begin(st.world, act).Commit? && Begin(st.world, act).value.Running? {
        EnteringResolvesNothing(st.world, act, m);
      } else {
        OtherStepResolves(env, st.world, act, m);
      }
  }

  lemma FallbackUnresolved(st: State, m: Address)
    requires Chained(st.world, st.stack) && st.stack.Push? && m in st.world.pools && !Resolved(st.world.pools[m].market)
    ensures m in st.stack.saved.pools ==> !Resolved(st.stack.saved.pools[m].market)
  {
  }

  lemma TradingResolvesNothing(env: Deployment, w: World, f: Frame, m: Address)
    requires m in w.pools && Resume(env, w, f).Commit?
    ensures var v := Resume(env, w, f).value.world;
            m in v.pools && v.pools[m].market.resolutionTime == w.pools[m].market.resolutionTime
  {
    hide TransferFrom, MintAll, BalancesAssertable, PayOut, Settle;
    match f
    case SellFee(k, seller, net, fee) => PayOutBecomes(w, env.completeSets, k, w.pools[k].market.mailbox, fee, true);
    case SellNet(k, seller, net) => PayOutKeepsMarkets(w, env.completeSets, k, seller, net);
    case ClaimNet(k, holder, _, net, _) => PayOutKeepsMarkets(w, env.claims, k, holder, net);
    case ClaimFee(k, _, _, fee) => PayOutBecomes(w, env.claims, k, w.pools[k].market.mailbox, fee, true);
    case ClaimNext(k, holder, next) =>
      if next < |w.pools[k].market.shares| {
        SettleTouchesShares(w.denom, w.pools[k].market, holder, next);
        SettleKeepsTime(w.denom, w.pools[k].market, holder, next);
      }
    case _ =>
  }

  lemma PayOutKeepsMarkets(w: World, spender: Address, k: Address, to: Address, v: uint256)
    requires PayOut(w, spender, k, to, v).Commit?
    ensures var w' := BookPaid(PayOut(w, spender, k, to, v).value, k, v);
            w'.pools.Keys == w.pools.Keys && forall m | m in w.pools :: w'.pools[m].market == w.pools[m].market
  {
    hide TransferFrom;
  }

  lemma SettleKeepsTime(d: Token, mk: Market, holder: Address, i: nat)
    requires i < |mk.shares| && Settle(d, mk, holder, i).Commit?
    ensures Settle(d, mk, holder, i).value.market.resolutionTime == mk.resolutionTime
  {
  }

  lemma EnteringResolvesNothing(w: World, act: Action, m: Address)
    requires m in w.pools && Begin(w, act).Commit?
    ensures var v := Begin(w, act).value.world;
            m in v.pools && v.pools[m].market.resolutionTime == w.pools[m].market.resolutionTime
  {
    hide BurnAll;
  }

  lemma OtherStepResolves(env: Deployment, w: World, act: Action, m: Address)
    requires m in w.pools && !Resolved(w.pools[m].market)
    requires var v := Elsewhere(env, w, act); m in v.pools && Resolved(v.pools[m].market)
    ensures act.ResolveMarket? && act.market == m && !w.stopped && w.pools[m].market.terms.numOutcomes > 0
    ensures Resolve(w.pools[m].market, w.now, act.sender, act.payouts, act.invalid) == Commit(Elsewhere(env, w, act).pools[m].market)
  {
    hide Perform, Inflow, ApproveTraders, Fresh, AcceptableTerms, Acceptable;
  }
}
