/**
 * What becomes of the calls that are suspended in a consistent world: on what each of them depends,
 * and what it has done by the time it returns.
 */
module Completion {
  import opened Words
  import opened Vectors
  import opened Addresses
  import opened TokenModel
  import opened MarketModel
  import opened Trading
  import opened Protocol
  import opened Accounts
  import opened Invariant
  import opened Redemption
  import opened SetTrading
  import opened Uninterrupted

  // ---- The next stretch ----

  /** A claim's next outcome can be settled: the market is resolved, and for the market itself the log fits. */
  predicate OutcomeDue(w: World, m: Address, holder: Address, i: nat)
    requires m in w.pools && i < |w.pools[m].market.shares|
  {
    var mk := w.pools[m].market;
    && Resolved(mk)
    && |mk.payouts| == |mk.shares|
    && (holder == m ==>
          Bal(mk.shares[i], m) == 0 || Bal(w.denom, m) + (Gross(mk, m, i) - FeeOn(mk, Gross(mk, m, i))) < TWO_256)
  }

  /** All that the innermost call still depends on. */
  predicate CanGoOn(env: Deployment, w: World, f: Frame) {
    match f
    case BuyUnpaid(_, buyer, _, cost) => CanPay(env, w.denom, buyer, cost)
    case BuyPaid(m, _, amount) => m in w.pools && SetsFit(w.pools[m].market, amount)
    case ClaimNext(m, holder, next) =>
      m in w.pools && (next < |w.pools[m].market.shares| ==> OutcomeDue(w, m, holder, next))
    case _ => true
  }

  /** A suspended call goes on exactly when that holds. In particular every payment out of a market
      that was interrupted goes through, and the final assertion of the balances never fails. */
  lemma ResumeExact(env: Deployment, w: World, s: Stack)
    requires Consistent(env, w, s) && s.Push?
    ensures Resume(env, w, s.frame).Commit? <==> CanGoOn(env, w, s.frame)
  {
    hide Balanced, Conserved, Wired, AllBalanced, PayOut, BalancesAssertable, SettleOutcome, FramesFit, LocksAgree,
         TransferFrom, CanPay, OutcomeDue, SetsFit, MintAll;
    FramesFitTop(w, s);
    match s.frame
    case BuyUnpaid(m, buyer, amount, cost) =>
      TransferFromExact(w.denom, env.augurLite, buyer, m, cost);
      PaymentPossible(env, w, buyer, cost);
    case BuyPaid(m, buyer, amount) => MintingPossible(env, w, s);
    case SellFee(m, seller, net, fee) =>
      PayFromTop(env, w, s, env.completeSets, m, w.pools[m].market.mailbox, fee, true, SellNet(m, seller, net));
    case SellNet(m, seller, net) => PayFromTop(env, w, s, env.completeSets, m, seller, net, false, SellDone(m));
    case SellDone(m) => AlwaysAssertable(env, w, s, m);
    case ClaimNet(m, holder, next, net, fee) =>
      PayFromTop(env, w, s, env.claims, m, holder, net, false, AfterSettling(m, holder, next, 0, fee));
    case ClaimFee(m, holder, next, fee) =>
      PayFromTop(env, w, s, env.claims, m, w.pools[m].market.mailbox, fee, true, ClaimNext(m, holder, next));
    case ClaimNext(m, holder, next) =>
      if next < |w.pools[m].market.shares| {
        SettlingPossible(env, w, s, m, holder, next);
      } else {
        AlwaysAssertable(env, w, s, m);
      }
    case Outside =>
  }

  lemma PaymentPossible(env: Deployment, w: World, buyer: Address, cost: uint256)
    requires cost > 0
    ensures CanPay(env, w.denom, buyer, cost) <==> cost <= Bal(w.denom, buyer) && MaySpend(w.denom, env.augurLite, buyer, cost)
  {
  }

  lemma AlwaysAssertable(env: Deployment, w: World, s: Stack, m: Address)
    requires Consistent(env, w, s) && m in w.pools
    ensures BalancesAssertable(w, m)
  {
    hide Balanced, Covered;
    assert PoolBalanced(w, s, m);
    var b := Bal(w.denom, m);
    SolventBeyondDebts(w.pools[m], b, OwedNet(s, m), OwedFee(s, m), Unminted(s, m));
    CoveredMonotone(w.pools[m].market, b - OwedNet(s, m) - OwedFee(s, m), b);
  }

  lemma MintingPossible(env: Deployment, w: World, s: Stack)
    requires Consistent(env, w, s) && s.Push? && s.frame.BuyPaid? && s.frame.market in w.pools
    ensures Resume(env, w, s.frame).Commit? <==> SetsFit(w.pools[s.frame.market].market, s.frame.amount)
  {
    hide Balanced, Conserved, OnlyTradersApproved, FramesFit, LocksAgree, Covered, SetsFit, MintAll;
    var BuyPaid(m, buyer, amount) := s.frame;
    var p := w.pools[m];
    InBalanceAt(env, w, s, m);
    SharesInBalance(env, w.denom, p, OwedNet(s, m), OwedFee(s, m), Unminted(s, m));
    MintAllExact(p.market, buyer, amount);
    if SetsFit(p.market, amount) {
      var b := Bal(w.denom, m);
      assert Unminted(s, m) >= amount;
      MintSets(p, b, OwedNet(s, m), OwedFee(s, m), Unminted(s, m), buyer, amount);
      var p' := Bought(p, amount, MintAll(p.market.shares, buyer, amount).value);
      SolventBeyondDebts(p', b, OwedNet(s, m), OwedFee(s, m), Unminted(s, m) - amount);
      CoveredMonotone(p'.market, b - OwedNet(s, m) - OwedFee(s, m), b);
    }
  }

  lemma SettlingPossible(env: Deployment, w: World, s: Stack, m: Address, holder: Address, i: nat)
    requires Consistent(env, w, s) && m in w.pools && i < |w.pools[m].market.shares|
    ensures SettleOutcome(w, m, holder, i).Commit? <==> OutcomeDue(w, m, holder, i)
  {
    hide Balanced, Conserved, OnlyTradersApproved, FramesFit, LocksAgree, Settle, Gross, FeeOn, Redeemable;
    var p := w.pools[m];
    InBalanceAt(env, w, s, m);
    assert |p.ledger.claimed| == |p.market.shares| by { CountedInConsistent(env, w, s, m); }
    if Resolved(p.market) {
      InBalanceRedeemable(env, w.denom, p, OwedNet(s, m), OwedFee(s, m), Unminted(s, m));
      RedeemableShape(env, w.denom, p.market);
      SettleExact(env, w.denom, p.market, holder, i);
    } else {
      SettleNeedsResolution(w.denom, p.market, holder, i);
    }
  }

  lemma SettleNeedsResolution(d: Token, mk: Market, holder: Address, i: nat)
    requires i < |mk.shares| && !Resolved(mk)
    ensures Settle(d, mk, holder, i).Revert?
  {
  }

  // ---- The rest of an interrupted sale or claim ----

  /** A sale after its shares were burned, or a claim, that pays `h`. */
  predicate RedeemsFor(f: Frame, h: Address) {
    match f
    case SellFee(_, seller, _, _) => seller == h
    case SellNet(_, seller, _) => seller == h
    case SellDone(_) => true
    case _ => InClaims(f) && f.holder == h
  }

  predicate Sized(mk: Market, f: Frame) {
    InClaims(f) ==> f.next <= |mk.shares| == |mk.payouts|
  }

  /** What it has yet to take out of the market, fees included. */
  function GrossLeft(mk: Market, f: Frame): nat
    requires Sized(mk, f)
  {
    match f
    case SellFee(_, _, net, fee) => net + fee
    case SellNet(_, _, net) => net
    case ClaimNet(_, h, next, net, fee) => net + fee + GrossFrom(mk, h, next)
    case ClaimFee(_, h, next, fee) => fee + GrossFrom(mk, h, next)
    case ClaimNext(_, h, next) => GrossFrom(mk, h, next)
    case _ => 0
  }

  /** What of that goes to the mailbox. */
  function FeesLeft(mk: Market, f: Frame): nat
    requires Sized(mk, f)
  {
    match f
    case SellFee(_, _, _, fee) => fee
    case ClaimNet(_, h, next, _, fee) => fee + FeesFrom(mk, h, next)
    case ClaimFee(_, h, next, fee) => fee + FeesFrom(mk, h, next)
    case ClaimNext(_, h, next) => FeesFrom(mk, h, next)
    case _ => 0
  }

  /** The market when the call has returned. */
  function WhenDone(mk: Market, f: Frame): Market {
    if InClaims(f) then mk.(shares := ClearedFrom(mk.shares, f.holder, f.next)) else mk
  }

  /** All that an interrupted redemption still depends on: a sale on nothing; a claim on the market being resolved
      and, if the market itself is the holder, on the balances it has yet to log. */
  predicate CanComplete(w: World, f: Frame)
    requires FrameFits(w, f) && !f.Outside?
  {
    var mk := w.pools[f.market].market;
    InClaims(f) ==>
      && Resolved(mk)
      && Sized(mk, f)
      && (f.holder == f.market ==> LogFits(mk, f.market, Bal(w.denom, f.market) - FeeOf(f, f.market), f.next))
  }

  /** `v` is `w` after the rest of the call paid `gross` out of market `m` for `h`, `fees` of it to the mailbox,
      and left the market as `mk'`. */
  ghost predicate PaysOut(w: World, v: World, m: Address, h: Address, gross: int, fees: int, mk': Market)
    requires m in w.pools
  {
    && v.pools.Keys == w.pools.Keys
    && (forall k | k in w.pools :: v.pools[k].market == if k == m then mk' else w.pools[k].market)
    && Redeems(w.denom, v.denom, w.pools[m].market, h, gross, fees)
  }

  lemma PaysOutInTurn(w: World, u: World, v: World, m: Address, h: Address, g: int, f: int, g': int, f': int, mk1: Market, mk2: Market)
    requires m in w.pools && PaysOut(w, u, m, h, g, f, mk1) && PaysOut(u, v, m, h, g', f', mk2)
    requires mk1.self == w.pools[m].market.self && mk1.mailbox == w.pools[m].market.mailbox
    ensures PaysOut(w, v, m, h, g + g', f + f', mk2)
  {
    hide Redeems;
    RedeemsCompose(w.denom, u.denom, v.denom, w.pools[m].market, mk1, h, g, f, g', f');
  }

  /** A trader's payment out of a market, to the holder or, as a fee, to the mailbox. */
  lemma OnePayment(env: Deployment, w: World, s: Stack, spender: Address, m: Address, h: Address, v: uint256, isFee: bool)
    requires Consistent(env, w, s) && m in w.pools && (spender == env.completeSets || spender == env.claims)
    requires var to := if isFee then w.pools[m].market.mailbox else h; PayOut(w, spender, m, to, v).Commit?
    ensures var to := if isFee then w.pools[m].market.mailbox else h;
            var fee := if isFee then v else 0;
            var u := BookOutflow(PayOut(w, spender, m, to, v).value, m, v, isFee);
            && PaysOut(w, u, m, h, v, fee, w.pools[m].market)
            && (h == m ==> Bal(u.denom, m) == Bal(w.denom, m) - fee)
  {
    hide AllBalanced, FramesFit, LocksAgree, Conserved, TransferFrom, PayOut, BookOutflow;
    var mk := w.pools[m].market;
    var to := if isFee then mk.mailbox else h;
    PayOutBecomes(w, spender, m, to, v, isFee);
    TransferFromExact(w.denom, spender, m, to, v);
    assert mk.self == m && OnlyTradersApproved(env, w.denom, m);
    assert Allowance(w.denom, m, spender) == ETERNAL_APPROVAL_VALUE;
  }

  /** One stretch of a redemption: what it pays now and what is left for later add up. */
  ghost predicate GoesOn(w: World, f: Frame, h: Address, u: World, g: Frame)
    requires FrameFits(w, f) && !f.Outside? && Sized(w.pools[f.market].market, f)
  {
    var mk := w.pools[f.market].market;
    && FrameFits(u, g) && !g.Outside? && g.market == f.market && RedeemsFor(g, h) && InClaims(g) == InClaims(f)
    && var mk1 := u.pools[f.market].market;
    && Sized(mk1, g)
    && mk1.self == mk.self && mk1.mailbox == mk.mailbox
    && PaysOut(w, u, f.market, h, GrossLeft(mk, f) - GrossLeft(mk1, g), FeesLeft(mk, f) - FeesLeft(mk1, g), mk1)
    && WhenDone(mk1, g) == WhenDone(mk, f)
    && (CanComplete(u, g) <==> CanComplete(w, f))
  }

  /** A stretch that pays `v`, of which `fee` to the mailbox, and leaves the shares alone. */
  lemma PaymentDone(w: World, f: Frame, h: Address, u: World, g: Frame, v: nat, fee: nat)
    requires FrameFits(w, f) && RedeemsFor(f, h) && !f.ClaimNext? && Sized(w.pools[f.market].market, f)
    requires RedeemsFor(g, h) && g.market == f.market && InClaims(g) == InClaims(f) && (InClaims(f) ==> g.next == f.next)
    requires var mk := w.pools[f.market].market;
             && GrossLeft(mk, f) == v + GrossLeft(mk, g) && FeesLeft(mk, f) == fee + FeesLeft(mk, g)
             && FeeOf(f, f.market) == fee + FeeOf(g, f.market)
             && PaysOut(w, u, f.market, h, v, fee, mk)
    requires h == f.market ==> Bal(u.denom, h) == Bal(w.denom, h) - fee
    ensures GoesOn(w, f, h, u, g)
  {
    hide Redeems, LogFits, GrossFrom, FeesFrom, ClearedFrom, GrossLeft, FeesLeft;
  }

  lemma PaymentGoesOn(env: Deployment, w: World, s: Stack, h: Address)
    requires Consistent(env, w, s) && s.Push? && RedeemsFor(s.frame, h) && !s.frame.SellDone? && !s.frame.ClaimNext?
    requires Resume(env, w, s.frame).Commit?
    ensures FrameFits(w, s.frame)
    ensures Sized(w.pools[s.frame.market].market, s.frame) ==>
              var p := Resume(env, w, s.frame).value;
              p.Running? && GoesOn(w, s.frame, h, p.world, p.frame)
  {
    hide Consistent, PayOut, GoesOn, PaysOut, GrossFrom, FeesFrom;
    assert FrameFits(w, s.frame) by { TopFits(env, w, s); }
    if Sized(w.pools[s.frame.market].market, s.frame) {
      var m := s.frame.market;
      var p := Resume(env, w, s.frame).value;
      match s.frame
      case SellFee(_, _, _, fee) =>
        OnePayment(env, w, s, env.completeSets, m, h, fee, true);
        PaymentDone(w, s.frame, h, p.world, p.frame, fee, fee);
      case SellNet(_, _, net) =>
        OnePayment(env, w, s, env.completeSets, m, h, net, false);
        PaymentDone(w, s.frame, h, p.world, p.frame, net, 0);
      case ClaimNet(_, _, _, net, _) =>
        OnePayment(env, w, s, env.claims, m, h, net, false);
        PaymentDone(w, s.frame, h, p.world, p.frame, net, 0);
      case ClaimFee(_, _, _, fee) =>
        OnePayment(env, w, s, env.claims, m, h, fee, true);
        PaymentDone(w, s.frame, h, p.world, p.frame, fee, fee);
    }
  }

  lemma TopFits(env: Deployment, w: World, s: Stack)
    requires Consistent(env, w, s) && s.Push?
    ensures FrameFits(w, s.frame)
  {
  }

  lemma SettlementGoesOn(env: Deployment, w: World, s: Stack, h: Address)
    requires Consistent(env, w, s) && s.Push? && s.frame.ClaimNext? && s.frame.holder == h
    requires FrameFits(w, s.frame) && s.frame.next < |w.pools[s.frame.market].market.shares|
    requires Resume(env, w, s.frame).Commit?
    ensures Sized(w.pools[s.frame.market].market, s.frame)
    ensures var p := Resume(env, w, s.frame).value;
            p.Running? && GoesOn(w, s.frame, h, p.world, p.frame)
  {
    hide Consistent, Settle, SettleOutcome, LogFits, GrossFrom, FeesFrom, Redeemable, InBalance, Gross, FeeOn, GoesOn, ClaimsCounted;
    var m, i := s.frame.market, s.frame.next;
    var mk := w.pools[m].market;
    CountedInConsistent(env, w, s, m);
    SettleBecomes(env, w, m, h, i);
    InBalanceAt(env, w, s, m);
    if !Resolved(mk) {
      SettleNeedsResolution(w.denom, mk, h, i);
    }
    InBalanceRedeemable(env, w.denom, w.pools[m], OwedNet(s, m), OwedFee(s, m), Unminted(s, m));
    RedeemableShape(env, w.denom, mk);
    SettleExact(env, w.denom, mk, h, i);
    var st := Settle(w.denom, mk, h, i).value;
    SharesSettled(env, w.denom, mk, h, i);
    SettlementDone(w, m, h, i, st.net, st.fee, SettleOutcome(w, m, h, i).value.world, st.market);
  }

  lemma SharesSettled(env: Deployment, d: Token, mk: Market, h: Address, i: nat)
    requires Redeemable(env, d, mk) && i < |mk.shares|
    ensures var mk1 := WithCleared(mk, h, i);
            && |mk.payouts| == |mk.shares|
            && (forall k | i < k < |mk.shares| :: Bal(mk1.shares[k], h) == Bal(mk.shares[k], h))
            && ClearedFrom(mk1.shares, h, i + 1) == ClearedFrom(mk.shares, h, i)
  {
  }

  /** Settling an outcome pays nothing yet, and adds to what is left to pay what it takes off what is left to settle. */
  lemma SettlementDone(w: World, m: Address, h: Address, i: nat, net: uint256, fee: uint256, u: World, mk1: Market)
    requires m in w.pools && w.pools[m].market.self == m
    requires var mk := w.pools[m].market;
             && Resolved(mk) && i < |mk.shares| == |mk.payouts|
             && mk1 == WithCleared(mk, h, i)
             && net + fee == Gross(mk, h, i) && fee == FeeOn(mk, Gross(mk, h, i))
             && (h == m ==> Bal(mk.shares[i], m) == 0 || Bal(w.denom, m) + net < TWO_256)
             && (forall k | i < k < |mk.shares| :: Bal(mk1.shares[k], h) == Bal(mk.shares[k], h))
             && ClearedFrom(mk1.shares, h, i + 1) == ClearedFrom(mk.shares, h, i)
    requires Becomes(w, u, m, w.denom, mk1)
    ensures GoesOn(w, ClaimNext(m, h, i), h, u, AfterSettling(m, h, i + 1, net, fee))
  {
    hide LogFits, Gross, FeeOn, ClearedFrom, CanComplete, Redeems;
    var mk := w.pools[m].market;
    var g := AfterSettling(m, h, i + 1, net, fee);
    DueUnchanged(mk, mk1, h, i + 1);
    assert Redeems(w.denom, w.denom, mk, h, 0, 0) by { NothingRedeemed(w.denom, mk, h); }
    assert PaysOut(w, u, m, h, 0, 0, mk1);
    assert CanComplete(u, g) <==> CanComplete(w, ClaimNext(m, h, i)) by {
      LogFitsStep(mk, h, Bal(w.denom, m), i);
      SameLog(w, m, h, i, i + 1, fee, u, g, mk1);
    }
  }

  lemma NothingRedeemed(d: Token, mk: Market, h: Address)
    ensures Redeems(d, d, mk, h, 0, 0)
  {
  }

  lemma SameLog(w: World, m: Address, h: Address, i: nat, j: nat, fee: uint256, u: World, g: Frame, mk1: Market)
    requires j == i + 1 && m in w.pools && m in u.pools && u.pools[m].market == mk1 && u.denom == w.denom
    requires var mk := w.pools[m].market;
             && Resolved(mk) && i < |mk.shares| == |mk.payouts| && mk1 == WithCleared(mk, h, i)
             && (h == m ==> (LogFits(mk, m, Bal(w.denom, m), i) <==> LogFits(mk, m, Bal(w.denom, m) - fee, j)))
             && (forall b :: LogFits(mk1, h, b, j) == LogFits(mk, h, b, j))
    requires InClaims(g) && g.market == m && g.holder == h && g.next == j && FeeOf(g, m) == fee
    ensures CanComplete(u, g) <==> CanComplete(w, ClaimNext(m, h, i))
  {
    hide LogFits;
  }

  /** Once the token stops calling back, an interrupted sale or claim runs to its end exactly when `CanComplete` says
      so; it then has paid all it owed the holder and the mailbox, to the token, and has burned the shares it was about to. */
  lemma {:induction false} RedemptionExact(env: Deployment, w: World, s: Stack, h: Address)
    requires Consistent(env, w, s) && s.Push? && RedeemsFor(s.frame, h)
    ensures FrameFits(w, s.frame) && !s.frame.Outside?
    ensures var r := Drive(env, w, s.frame, Rank(w, s.frame));
            var mk := w.pools[s.frame.market].market;
            && (r.Commit? <==> CanComplete(w, s.frame))
            && (r.Commit? ==>
                  && Consistent(env, r.value, s.rest)
                  && Sized(mk, s.frame)
                  && PaysOut(w, r.value, s.frame.market, h, GrossLeft(mk, s.frame), FeesLeft(mk, s.frame), WhenDone(mk, s.frame)))
    decreases Rank(w, s.frame)
  {
    hide Consistent, Resume, Rank, CanComplete, PaysOut, GrossLeft, FeesLeft, WhenDone;
    var f := s.frame;
    TopFits(env, w, s);
    RankPositive(w, f);
    StretchExact(env, w, s, h);
    if Resume(env, w, f).Commit? {
      ResumeKeepsConsistent(env, w, s);
      RankFalls(env, w, s);
      var p := Resume(env, w, f).value;
      if p.Running? {
        RedemptionExact(env, p.world, s.(frame := p.frame), h);
        EnoughFuel(env, p.world, s.(frame := p.frame), Rank(w, f) - 1);
        var r := Drive(env, p.world, p.frame, Rank(p.world, p.frame));
        if r.Commit? {
          GoneOn(w, f, h, p.world, p.frame, r.value);
        }
        assert CanComplete(p.world, p.frame) <==> CanComplete(w, f) by { SameCondition(w, f, h, p.world, p.frame); }
      }
    }
  }

  lemma SameCondition(w: World, f: Frame, h: Address, u: World, g: Frame)
    requires FrameFits(w, f) && !f.Outside? && Sized(w.pools[f.market].market, f) && GoesOn(w, f, h, u, g)
    ensures FrameFits(u, g) && !g.Outside? && RedeemsFor(g, h) && (CanComplete(u, g) <==> CanComplete(w, f))
  {
  }

  lemma GoneOn(w: World, f: Frame, h: Address, u: World, g: Frame, v: World)
    requires FrameFits(w, f) && !f.Outside? && Sized(w.pools[f.market].market, f) && GoesOn(w, f, h, u, g)
    requires FrameFits(u, g) && !g.Outside?
    requires var mk1 := u.pools[g.market].market;
             Sized(mk1, g) && PaysOut(u, v, g.market, h, GrossLeft(mk1, g), FeesLeft(mk1, g), WhenDone(mk1, g))
    ensures var mk := w.pools[f.market].market;
            PaysOut(w, v, f.market, h, GrossLeft(mk, f), FeesLeft(mk, f), WhenDone(mk, f))
  {
    hide Redeems, CanComplete, GrossLeft, FeesLeft, PaysOut, WhenDone;
    var mk, mk1 := w.pools[f.market].market, u.pools[f.market].market;
    PaysOutInTurn(w, u, v, f.market, h, GrossLeft(mk, f) - GrossLeft(mk1, g), FeesLeft(mk, f) - FeesLeft(mk1, g),
                  GrossLeft(mk1, g), FeesLeft(mk1, g), mk1, WhenDone(mk1, g));
  }

  /** One stretch: it reverts only if the call cannot complete, and the last one pays nothing. */
  lemma StretchExact(env: Deployment, w: World, s: Stack, h: Address)
    requires Consistent(env, w, s) && s.Push? && RedeemsFor(s.frame, h) && FrameFits(w, s.frame) && !s.frame.Outside?
    ensures Resume(env, w, s.frame).Revert? ==> !CanComplete(w, s.frame)
    ensures Resume(env, w, s.frame).Commit? ==>
              var p := Resume(env, w, s.frame).value;
              var mk := w.pools[s.frame.market].market;
              && Sized(mk, s.frame)
              && (p.Running? ==> GoesOn(w, s.frame, h, p.world, p.frame))
              && (p.Finished? ==> CanComplete(w, s.frame)
                                  && PaysOut(w, p.world, s.frame.market, h,
                                             GrossLeft(mk, s.frame), FeesLeft(mk, s.frame), WhenDone(mk, s.frame)))
  {
    hide Consistent, Resume, GoesOn, CanComplete, PaysOut, GrossLeft, FeesLeft, WhenDone;
    ResumeExact(env, w, s);
    if Resume(env, w, s.frame).Revert? {
      CannotComplete(env, w, s);
    } else if s.frame.SellDone? || (s.frame.ClaimNext? && s.frame.next == |w.pools[s.frame.market].market.shares|) {
      ReturnsExact(env, w, s, h);
    } else if s.frame.ClaimNext? {
      SettlementGoesOn(env, w, s, h);
    } else {
      if InClaims(s.frame) {
        ClaimSized(env, w, s);
      }
      PaymentGoesOn(env, w, s, h);
    }
  }

  lemma CannotComplete(env: Deployment, w: World, s: Stack)
    requires Consistent(env, w, s) && s.Push? && FrameFits(w, s.frame) && !CanGoOn(env, w, s.frame)
    requires !s.frame.BuyUnpaid? && !s.frame.BuyPaid? && !s.frame.Outside?
    ensures !CanComplete(w, s.frame)
  {
    hide Consistent, Gross, FeeOn;
  }

  /** Once a claim has settled an outcome the market is resolved, and has a payout for every outcome. */
  lemma ClaimSized(env: Deployment, w: World, s: Stack)
    requires Consistent(env, w, s) && s.Push? && InClaims(s.frame) && FrameFits(w, s.frame)
    requires s.frame.ClaimNext? ==> s.frame.next == |w.pools[s.frame.market].market.shares|
    ensures Resolved(w.pools[s.frame.market].market) && Sized(w.pools[s.frame.market].market, s.frame)
  {
    hide Consistent, InBalance, Redeemable;
    var m := s.frame.market;
    var p := w.pools[m];
    CountedInConsistent(env, w, s, m);
    InBalanceAt(env, w, s, m);
    assert |p.market.shares| >= MIN_OUTCOMES by { SharesInBalance(env, w.denom, p, OwedNet(s, m), OwedFee(s, m), Unminted(s, m)); }
    InBalanceRedeemable(env, w.denom, p, OwedNet(s, m), OwedFee(s, m), Unminted(s, m));
    RedeemableShape(env, w.denom, p.market);
  }

  lemma ReturnsExact(env: Deployment, w: World, s: Stack, h: Address)
    requires Consistent(env, w, s) && s.Push? && RedeemsFor(s.frame, h) && FrameFits(w, s.frame)
    requires s.frame.SellDone? || (s.frame.ClaimNext? && s.frame.next == |w.pools[s.frame.market].market.shares|)
    requires Resume(env, w, s.frame).Commit?
    ensures var p := Resume(env, w, s.frame).value;
            var mk := w.pools[s.frame.market].market;
            && p.Finished? && Sized(mk, s.frame) && CanComplete(w, s.frame)
            && PaysOut(w, p.world, s.frame.market, h, GrossLeft(mk, s.frame), FeesLeft(mk, s.frame), WhenDone(mk, s.frame))
  {
    hide Consistent, BalancesAssertable;
    var mk := w.pools[s.frame.market].market;
    if s.frame.ClaimNext? {
      ClaimSized(env, w, s);
      assert ClearedFrom(mk.shares, h, |mk.shares|) == mk.shares;
    }
  }

  // ---- The rest of an interrupted purchase ----

  /** A purchase, paid for or not yet. */
  predicate Purchases(f: Frame) {
    f.BuyUnpaid? || f.BuyPaid?
  }

  /** It runs to its end exactly when the price, if it is not paid yet, can be paid and no supply overflows; it then
      has moved the price into the market and minted the sets. On a market that is not resolved no supply can
      overflow, so a purchase that is paid for always completes. */
  lemma PurchaseExact(env: Deployment, w: World, s: Stack)
    requires Consistent(env, w, s) && s.Push? && Purchases(s.frame)
    ensures FrameFits(w, s.frame)
    ensures var f := s.frame;
            var mk := w.pools[f.market].market;
            var r := Drive(env, w, f, Rank(w, f));
            && (r.Commit? <==> (f.BuyUnpaid? ==> CanPay(env, w.denom, f.buyer, f.cost)) && SetsFit(mk, f.amount))
            && (!Resolved(mk) ==> (r.Commit? <==> (f.BuyUnpaid? ==> CanPay(env, w.denom, f.buyer, f.cost))))
            && (r.Commit? ==>
                  && Consistent(env, r.value, s.rest)
                  && MintAll(mk.shares, f.buyer, f.amount).Commit?
                  && MintedFor(w, r.value, f.market, MintAll(mk.shares, f.buyer, f.amount).value)
                  && forall a :: Bal(r.value.denom, a) == Bal(w.denom, a) + if f.BuyUnpaid? then Moved(a, f.buyer, f.market, f.cost) else 0)
  {
    hide Consistent, Resume, CanPay, SetsFit, MintAll, Moved;
    TopFits(env, w, s);
    if s.frame.BuyPaid? {
      PaidPurchaseExact(env, w, s);
    } else {
      PriceExact(env, w, s);
      if Resume(env, w, s.frame).Commit? {
        ResumeKeepsConsistent(env, w, s);
        var p := Resume(env, w, s.frame).value;
        PaidPurchaseExact(env, p.world, s.(frame := p.frame));
      }
    }
  }

  predicate MintedFor(w: World, v: World, m: Address, shares: seq<Token>)
    requires m in w.pools
  {
    && v.pools.Keys == w.pools.Keys
    && v.denom.supply == w.denom.supply
    && forall k | k in w.pools :: v.pools[k].market == if k == m then w.pools[m].market.(shares := shares) else w.pools[k].market
  }

  lemma PaidPurchaseExact(env: Deployment, w: World, s: Stack)
    requires Consistent(env, w, s) && s.Push? && s.frame.BuyPaid? && FrameFits(w, s.frame)
    ensures var BuyPaid(m, buyer, amount) := s.frame;
            var mk := w.pools[m].market;
            var r := Drive(env, w, s.frame, 1);
            && (r.Commit? <==> SetsFit(mk, amount))
            && (!Resolved(mk) ==> r.Commit?)
            && (r.Commit? ==>
                  && Consistent(env, r.value, s.rest)
                  && MintAll(mk.shares, buyer, amount).Commit?
                  && r.value.denom == w.denom
                  && MintedFor(w, r.value, m, MintAll(mk.shares, buyer, amount).value))
  {
    hide Consistent, SetsFit, MintAll, BalancesAssertable;
    MintingPossible(env, w, s);
    if !Resolved(w.pools[s.frame.market].market) {
      PaidSetsFit(env, w, s);
    }
    if Resume(env, w, s.frame).Commit? {
      ResumeKeepsConsistent(env, w, s);
    }
  }

  /** The escrow already holds the price of the sets there are and of those that are paid for. */
  lemma PaidSetsFit(env: Deployment, w: World, s: Stack)
    requires Consistent(env, w, s) && s.Push? && s.frame.BuyPaid? && FrameFits(w, s.frame)
    requires !Resolved(w.pools[s.frame.market].market)
    ensures SetsFit(w.pools[s.frame.market].market, s.frame.amount)
  {
    hide Consistent, Conserved, Balanced, OnlyTradersApproved;
    var m := s.frame.market;
    var p := w.pools[m];
    var t := p.market.terms.numTicks;
    InBalanceAt(env, w, s, m);
    SharesInBalance(env, w.denom, p, OwedNet(s, m), OwedFee(s, m), Unminted(s, m));
    EscrowBeforeResolution(p, Bal(w.denom, m), OwedNet(s, m), OwedFee(s, m), Unminted(s, m));
    var open := p.ledger.bought - p.ledger.sold;
    assert p.market.shares[0].supply == open;
    ProductMonotone(s.frame.amount, Unminted(s, m), t);
    SetsBelowPrice(t, open, s.frame.amount);
  }

  lemma PriceExact(env: Deployment, w: World, s: Stack)
    requires Consistent(env, w, s) && s.Push? && s.frame.BuyUnpaid? && FrameFits(w, s.frame)
    ensures var BuyUnpaid(m, buyer, amount, cost) := s.frame;
            var r := Resume(env, w, s.frame);
            && (r.Commit? <==> CanPay(env, w.denom, buyer, cost))
            && (r.Commit? ==>
                  && r.value == Running(w.(denom := r.value.world.denom), BuyPaid(m, buyer, amount))
                  && r.value.world.denom.supply == w.denom.supply
                  && forall a :: Bal(r.value.world.denom, a) == Bal(w.denom, a) + Moved(a, buyer, m, cost))
  {
    hide Wired, AllBalanced, FramesFit, LocksAgree, Conserved, TransferFrom;
    var BuyUnpaid(m, buyer, amount, cost) := s.frame;
    PaymentPossible(env, w, buyer, cost);
    TransferFromExact(w.denom, env.augurLite, buyer, m, cost);
  }
}
