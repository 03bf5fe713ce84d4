/**
 * What every action of the machine does to the state it is taken in, field by field: which calls are
 * let in at all, what the calls from outside the trading contracts change, and where control changes hands.
 */
module EntryPoints {
  import opened Words
  import opened Vectors
  import opened Addresses
  import opened TokenModel
  import opened MarketModel
  import opened Trading
  import opened Protocol
  import opened Invariant
  import opened SetTrading
  import opened Solvency

  // ---- Calls to the trading contracts ----

  /** A trading call for what is no market, after an emergency stop, or into a contract that is busy changes nothing;
      neither does a claim that comes too early. */
  lemma ShutGatesChangeNothing(env: Deployment, st: State, act: Action)
    requires act.CallBuy? || act.CallSell? || act.CallClaim?
    requires var w := st.world;
             || act.market !in w.pools
             || w.stopped
             || (act.CallClaim? && (w.claimsLocked || w.now <= w.pools[act.market].market.resolutionTime))
             || (!act.CallClaim? && w.setsLocked)
    ensures Step(env, st, act) == st
  {
  }

  /** An emergency stop is for good: once a transaction has ended with one, no trading call in any later state, with
      whatever is suspended there, does anything. */
  lemma NothingTradesAfterAStop(env: Deployment, denom: Token, now: uint256, before: seq<Action>, after: seq<Action>, act: Action)
    requires DistinctDeployment(env) && Conserved(denom)
    requires Reached(env, denom, now, before).stack.Empty? && (act.CallBuy? || act.CallSell? || act.CallClaim?)
    ensures var st := Run(env, Step(env, Reached(env, denom, now, before), EmergencyStop), after);
            st.world.stopped && Step(env, st, act) == st
  {
    hide Reached, Run, Step;
    var stopping := before + [EmergencyStop];
    var st0 := Reached(env, denom, now, before);
    assert Reached(env, denom, now, stopping) == Step(env, st0, EmergencyStop) by { ReachedNext(env, denom, now, before, EmergencyStop); }
    StopTakesEffect(env, st0);
    ResolutionIsFinal(env, denom, now, stopping, after);
    ShutGatesChangeNothing(env, Run(env, Step(env, st0, EmergencyStop), after), act);
  }

  lemma ReachedNext(env: Deployment, denom: Token, now: uint256, acts: seq<Action>, act: Action)
    ensures Reached(env, denom, now, acts + [act]) == Step(env, Reached(env, denom, now, acts), act)
  {
    hide Step;
    assert (acts + [act])[..|acts|] == acts;
  }

  /** The stop itself, and the clock. */
  lemma StopTakesEffect(env: Deployment, st: State)
    ensures Step(env, st, EmergencyStop) == State(st.world.(stopped := true), st.stack)
    ensures forall t: uint256 :: Step(env, st, SetTime(t)) == State(st.world.(now := t), st.stack)
  {
  }

  // ---- Where control changes hands ----

  /** Whatever is called is suspended before it has moved a token, remembers the world it was called in, and is
      suspended again after every transfer; in between anybody may call anything. */
  lemma ControlIsHandedOver(env: Deployment, st: State, act: Action)
    ensures Begin(st.world, act).Commit? ==>
              var p := Begin(st.world, act).value;
              && p.Running? && p.world.denom == st.world.denom
              && Step(env, st, act) == State(p.world, Push(st.stack, p.frame, st.world))
    ensures act.CallOutside? ==> Step(env, st, act) == State(st.world, Push(st.stack, Outside, st.world))
    ensures st.stack.Push? && Resume(env, st.world, st.stack.frame).Commit? ==>
              var p := Resume(env, st.world, st.stack.frame).value;
              && (p.world.denom != st.world.denom ==> p.Running?)
              && Step(env, st, Continue) == if p.Running? then State(p.world, st.stack.(frame := p.frame)) else State(p.world, st.stack.rest)
  {
    hide TransferFrom, MintAll, BurnAll, Settle, BalancesAssertable, Covered;
  }

  /** A revert, of the call's own making or not, restores the world the innermost call was entered in and ends only
      that call. */
  lemma RevertsRestore(env: Deployment, st: State)
    requires st.stack.Push?
    ensures Step(env, st, Throw) == State(st.stack.saved, st.stack.rest)
    ensures Resume(env, st.world, st.stack.frame).Revert? ==> Step(env, st, Continue) == State(st.stack.saved, st.stack.rest)
  {
    hide Resume;
  }

  // ---- Other calls ----

  /** The oracle, and nobody else, resolves a market after its end, once, to any vector that verifies; nothing else changes. */
  lemma ResolveMarketExact(env: Deployment, st: State, sender: Address, m: Address, payouts: seq<uint256>, invalid: bool)
    requires Consistent(env, st.world, st.stack)
    ensures var w := st.world;
            var st' := Step(env, st, ResolveMarket(sender, m, payouts, invalid));
            if m !in w.pools then st' == st
            else
              var p := w.pools[m];
              var t := p.market.terms;
              && t.numOutcomes > 0
              && if (&& !w.stopped && p.market.resolutionTime == 0 && w.now > t.endTime && sender == t.oracle
                     && |payouts| == t.numOutcomes
                     && if invalid then forall i | 0 <= i < |payouts| :: payouts[i] == t.numTicks / t.numOutcomes
                        else Sum(payouts) == t.numTicks)
                 then
                   var mk' := p.market.(resolutionTime := w.now, payouts := payouts, invalid := invalid);
                   st' == State(w.(pools := w.pools[m := p.(market := mk')]), st.stack)
                 else st' == st
  {
    hide Consistent, Resolve, InBalance;
    if m in st.world.pools {
      var p := st.world.pools[m];
      InBalanceAt(env, st.world, st.stack, m);
      SharesInBalance(env, st.world.denom, p, OwedNet(st.stack, m), OwedFee(st.stack, m), Unminted(st.stack, m));
      ResolveExact(p.market, st.world.now, sender, payouts, invalid);
    }
  }

  /** A new market, for anybody, on terms `initialize` accepts and at addresses nobody has used: no shares, no
      resolution, the traders approved, all else as before. */
  lemma CreateMarketExact(env: Deployment, st: State, t: Terms, m: Address, mailbox: Address)
    ensures var w := st.world;
            var st' := Step(env, st, CreateMarket(t, m, mailbox));
            if (&& !w.stopped && w.now < t.endTime
                && 2 <= t.numOutcomes <= 8 && t.numOutcomes <= t.numTicks
                && (t.feeDivisor == 0 || t.feeDivisor >= 2)
                && t.oracle != Address(0) && t.creator != Address(0)
                && m != mailbox && Unused(env, w, m) && Unused(env, w, mailbox))
            then
              && st'.stack == st.stack
              && st'.world == w.(denom := st'.world.denom, pools := st'.world.pools)
              && st'.world.denom.balances == w.denom.balances && st'.world.denom.supply == w.denom.supply
              && (forall o, s :: Allowance(st'.world.denom, o, s) ==
                    if o == m && (s == env.completeSets || s == env.claims) then MAX_UINT256 else Allowance(w.denom, o, s))
              && st'.world.pools.Keys == w.pools.Keys + {m}
              && (forall k | k in w.pools :: st'.world.pools[k] == w.pools[k])
              && var mk := st'.world.pools[m].market;
              && mk.self == m && mk.mailbox == mailbox && mk.terms == t
              && mk.resolutionTime == 0 && !mk.invalid && mk.payouts == []
              && |mk.shares| == t.numOutcomes && forall i | 0 <= i < |mk.shares| :: mk.shares[i] == Token(map[], 0, map[])
            else st' == st
  {
    hide Fresh, Unused, AcceptableTerms, ApproveTraders;
    TermsExact(t, st.world.now);
    FreshIsUnused(env, st.world, m);
    FreshIsUnused(env, st.world, mailbox);
    ApproveTradersExact(env, st.world.denom, m);
  }

  /** Neither a market, nor a mailbox, nor one of the deployed contracts, and it has approved nobody. */
  ghost predicate Unused(env: Deployment, w: World, a: Address) {
    && a != Address(0) && a !in w.pools
    && a != env.augurLite && a != env.completeSets && a != env.claims
    && (forall m | m in w.pools :: w.pools[m].market.mailbox != a)
    && (forall s :: Allowance(w.denom, a, s) == 0)
  }

  lemma FreshIsUnused(env: Deployment, w: World, a: Address)
    ensures Fresh(env, w, a) <==> Unused(env, w, a)
    ensures Unused(env, w, a) ==> a !in w.pools
  {
    if Unused(env, w, a) {
      forall k | k in w.denom.allowed
        ensures k.0 != a
      {
        assert Allowance(w.denom, k.0, k.1) != 0;
      }
    }
  }

  lemma ApproveTradersExact(env: Deployment, t: Token, m: Address)
    ensures var t' := ApproveTraders(env, t, m);
            && t'.balances == t.balances && t'.supply == t.supply
            && forall o, s :: Allowance(t', o, s) ==
                 if o == m && (s == env.completeSets || s == env.claims) then MAX_UINT256 else Allowance(t, o, s)
  {
    hide Approve;
    var t1 := Approve(t, m, env.completeSets, MAX_UINT256);
    ApproveExact(t, m, env.completeSets, MAX_UINT256);
    ApproveExact(t1, m, env.claims, MAX_UINT256);
    ApproveKeepsBalances(t, m, env.completeSets);
    ApproveKeepsBalances(t1, m, env.claims);
  }

  lemma ApproveKeepsBalances(t: Token, owner: Address, spender: Address)
    ensures var t' := Approve(t, owner, spender, MAX_UINT256); t'.balances == t.balances && t'.supply == t.supply
  {
  }

  /** Anybody may renew a market's approvals in good times. */
  lemma ApproveSpendersExact(env: Deployment, st: State, m: Address)
    ensures var w := st.world;
            var st' := Step(env, st, ApproveSpenders(m));
            if m in w.pools && !w.stopped then
              && st' == State(w.(denom := st'.world.denom), st.stack)
              && st'.world.denom.balances == w.denom.balances && st'.world.denom.supply == w.denom.supply
              && forall o, s :: Allowance(st'.world.denom, o, s) ==
                   if o == m && (s == env.completeSets || s == env.claims) then MAX_UINT256 else Allowance(w.denom, o, s)
            else st' == st
  {
    hide ApproveTraders;
    ApproveTradersExact(env, st.world.denom, m);
  }

  /** Anybody but a market and the traders may call the token; what the call does, `PerformExact` says. Of the markets
      only the record of what they were sent changes. */
  lemma DenominationCallExact(env: Deployment, st: State, c: Call)
    requires match c
             case CallTransfer(from, _, _) => from !in st.world.pools
             case CallTransferFrom(spender, _, _, _) => spender != env.augurLite && spender != env.completeSets && spender != env.claims
             case CallApprove(owner, _, _) => owner !in st.world.pools
             case CallIncrease(owner, _, _) => owner !in st.world.pools
             case CallDecrease(owner, _, _) => owner !in st.world.pools
             case CallMint(_, _) => true
             case CallBurn(target, _) => target !in st.world.pools
    ensures var w := st.world;
            var st' := Step(env, st, DenominationCall(c));
            && st' == State(w.(denom := Perform(w.denom, c), pools := st'.world.pools), st.stack)
            && st'.world.pools.Keys == w.pools.Keys
            && forall k | k in w.pools ::
                 st'.world.pools[k] == w.pools[k].(ledger := w.pools[k].ledger.(donated := st'.world.pools[k].ledger.donated))
  {
    hide Perform, Inflow;
  }

  /** Anybody may transfer and approve shares; the call changes one outcome's token and nothing else. */
  lemma ShareCallExact(env: Deployment, st: State, m: Address, i: nat, c: Call)
    ensures var w := st.world;
            var st' := Step(env, st, ShareCall(m, i, c));
            if m in w.pools && i < |w.pools[m].market.shares| && !c.CallMint? && !c.CallBurn? then
              var p := w.pools[m];
              var mk' := p.market.(shares := p.market.shares[i := Perform(p.market.shares[i], c)]);
              st' == State(w.(pools := w.pools[m := p.(market := mk')]), st.stack)
            else st' == st
  {
    hide Perform;
  }

  // ---- What is recorded ----

  /** A new market's history starts with what its address was sent before; a sale records its sets, their price and one
      fee computation as it burns them; no other call records anything as it enters. */
  lemma EntryRecorded(env: Deployment, st: State, act: Action, k: Address)
    requires k in st.world.pools && Begin(st.world, act).Commit?
    ensures var l := st.world.pools[k].ledger;
            k in Begin(st.world, act).value.world.pools
            && Begin(st.world, act).value.world.pools[k].ledger ==
                 if act.CallSell? && act.market == k then
                   l.(sold := l.sold + act.amount,
                      gross := l.gross + act.amount * st.world.pools[k].market.terms.numTicks,
                      feeCount := l.feeCount + 1)
                 else l
  {
    hide BurnAll, Fee;
  }

  lemma CreationRecorded(env: Deployment, st: State, t: Terms, m: Address, mailbox: Address)
    requires m !in st.world.pools && m in Step(env, st, CreateMarket(t, m, mailbox)).world.pools
    ensures Step(env, st, CreateMarket(t, m, mailbox)).world.pools[m].ledger
         == Ledger(0, 0, seq(t.numOutcomes, _ => 0), Bal(st.world.denom, m), 0, 0, 0, 0)
  {
    hide ApproveTraders, Fresh, AcceptableTerms;
  }

  /** Sets are recorded as bought when they are minted, shares as claimed, at their worth, when they are burned, and
      payments as they are made; what reaches a market in that way was donated to it. */
  lemma StretchRecorded(env: Deployment, w: World, f: Frame, k: Address)
    requires k in w.pools && Resume(env, w, f).Commit? && (!f.BuyUnpaid? && !f.Outside? ==> f.market in w.pools)
    ensures var l := w.pools[k].ledger;
            var w' := Resume(env, w, f).value.world;
            && k in w'.pools
            && w'.pools[k].ledger ==
                 match f
                 case BuyPaid(m, _, amount) => if k == m then l.(bought := l.bought + amount) else l
                 case SellFee(m, _, _, fee) => FeeRecorded(l, k, m, w.pools[m].market.mailbox, fee)
                 case ClaimFee(m, _, _, fee) => FeeRecorded(l, k, m, w.pools[m].market.mailbox, fee)
                 case SellNet(m, seller, net) => PaymentRecorded(l, k, m, seller, net)
                 case ClaimNet(m, holder, _, net, _) => PaymentRecorded(l, k, m, holder, net)
                 case ClaimNext(m, holder, i) =>
                   var mk := w.pools[m].market;
                   if k == m && i < |mk.shares| && i < |mk.payouts| && i < |l.claimed| then
                     var n := Bal(mk.shares[i], holder);
                     l.(claimed := l.claimed[i := l.claimed[i] + n], gross := l.gross + n * mk.payouts[i], feeCount := l.feeCount + 1)
                   else l
                 case _ => l
  {
    hide MintAll, BalancesAssertable, PayOut, SettleOutcome, FeeRecorded, PaymentRecorded, TransferFrom;
    match f
    case SellFee(m, _, _, fee) => OutflowRecorded(w, env.completeSets, m, w.pools[m].market.mailbox, fee, k);
    case SellNet(m, seller, net) => OutflowRecorded(w, env.completeSets, m, seller, net, k);
    case ClaimNet(m, holder, _, net, _) => OutflowRecorded(w, env.claims, m, holder, net, k);
    case ClaimFee(m, _, _, fee) => OutflowRecorded(w, env.claims, m, w.pools[m].market.mailbox, fee, k);
    case ClaimNext(m, holder, i) =>
      if i < |w.pools[m].market.shares| {
        SettlementRecorded(w, m, holder, i, k);
      }
    case _ =>
  }

  lemma OutflowRecorded(w: World, spender: Address, m: Address, to: Address, v: uint256, k: Address)
    requires m in w.pools && k in w.pools && PayOut(w, spender, m, to, v).Commit?
    ensures var u := PayOut(w, spender, m, to, v).value;
            && k in BookFee(u, m, v).pools && BookFee(u, m, v).pools[k].ledger == FeeRecorded(w.pools[k].ledger, k, m, to, v)
            && k in BookPaid(u, m, v).pools && BookPaid(u, m, v).pools[k].ledger == PaymentRecorded(w.pools[k].ledger, k, m, to, v)
  {
    hide TransferFrom;
  }

  lemma SettlementRecorded(w: World, m: Address, holder: Address, i: nat, k: Address)
    requires m in w.pools && k in w.pools && i < |w.pools[m].market.shares| && SettleOutcome(w, m, holder, i).Commit?
    ensures var w' := SettleOutcome(w, m, holder, i).value.world;
            var mk := w.pools[m].market;
            var l := w.pools[k].ledger;
            && k in w'.pools && i < |mk.payouts| && i < |w.pools[m].ledger.claimed|
            && w'.pools[k].ledger ==
                 if k == m then
                   var n := Bal(mk.shares[i], holder);
                   l.(claimed := l.claimed[i := l.claimed[i] + n], gross := l.gross + n * mk.payouts[i], feeCount := l.feeCount + 1)
                 else l
  {
    SettlementSplits(w.denom, w.pools[m].market, holder, i);
    hide Settle;
  }

  lemma SettlementSplits(d: Token, mk: Market, holder: Address, i: nat)
    requires i < |mk.shares| && Settle(d, mk, holder, i).Commit?
    ensures i < |mk.payouts|
    ensures var s := Settle(d, mk, holder, i).value; s.net + s.fee == Bal(mk.shares[i], holder) * mk.payouts[i]
  {
    hide Burn, Fee;
  }

  function FeeRecorded(l: Ledger, k: Address, m: Address, mailbox: Address, v: nat): Ledger {
    l.(fees := l.fees + (if k == m then v else 0), donated := l.donated + if k == mailbox then v else 0)
  }

  function PaymentRecorded(l: Ledger, k: Address, m: Address, to: Address, v: nat): Ledger {
    l.(paid := l.paid + (if k == m then v else 0), donated := l.donated + if k == to then v else 0)
  }

  /** And so is whatever the token's own calls bring it. */
  lemma InflowRecorded(env: Deployment, w: World, c: Call, k: Address)
    requires Conserved(w.denom) && k in w.pools && Issuable(env, w, c)
    ensures k in Elsewhere(env, w, DenominationCall(c)).pools
    ensures Elsewhere(env, w, DenominationCall(c)).pools[k].ledger.donated == w.pools[k].ledger.donated +
              match c
              case CallTransfer(from, to, v) => if to == k && v <= Bal(w.denom, from) then v else 0
              case CallTransferFrom(s, from, to, v) =>
                var left := Allowance(w.denom, from, s);
                if to == k && v <= Bal(w.denom, from) && (left == MAX_UINT256 || v <= left) then v else 0
              case CallMint(target, v) => if target == k && w.denom.supply + v < TWO_256 then v else 0
              case _ => 0
  {
    hide Conserved, Transfer, TransferFrom, Mint, Perform, Issuable, MaySpend;
    match c
    case CallTransfer(from, to, v) => TransferExact(w.denom, from, to, v);
    case CallTransferFrom(s, from, to, v) => TransferFromExact(w.denom, s, from, to, v);
    case CallMint(target, v) => MintExact(w.denom, target, v);
    case _ =>
  }
}
