/**
 * The whole system as a machine in which the denomination token may call back.
 *
 * Any number of markets share one denomination token. A call to CompleteSets or
 * ClaimTradingProceeds becomes a frame that stops wherever it hands control to the token; until it
 * is resumed anybody may call anything, nested to any depth. Every frame remembers the world it
 * was entered in, to which a revert returns.
 */
module Protocol {
  import opened Transactions
  import opened Words
  import opened SafeMathUint256
  import opened Addresses
  import opened TokenModel
  import opened MarketModel
  import opened Trading

  /**
   * What has happened to a market so far. The contracts do not keep these counters: they say
   * what the balances the contracts do keep are the result of.
   */
  datatype Ledger = Ledger(
    bought: nat,         // complete sets minted
    sold: nat,           // complete sets burned
    claimed: seq<nat>,   // shares burned by claims, by outcome
    donated: nat,        // everything that came in other than the price of sets
    gross: nat,          // redeemed through sales and claims, before fees
    fees: nat,           // paid to the mailbox
    paid: nat,           // paid to holders
    feeCount: nat)       // how often a fee was computed

  datatype Pool = Pool(market: Market, ledger: Ledger)

  datatype World = World(
    denom: Token,
    pools: map<Address, Pool>,
    setsLocked: bool,
    claimsLocked: bool,
    stopped: bool,
    now: uint256)

  /** Where a suspended call goes on. */
  datatype Frame =
    | BuyUnpaid(market: Address, buyer: Address, amount: uint256, cost: uint256)
    | BuyPaid(market: Address, buyer: Address, amount: uint256)
    | SellFee(market: Address, seller: Address, net: uint256, fee: uint256)
    | SellNet(market: Address, seller: Address, net: uint256)
    | SellDone(market: Address)
    | ClaimNet(market: Address, holder: Address, next: nat, net: uint256, fee: uint256)
    | ClaimFee(market: Address, holder: Address, next: nat, fee: uint256)
    | ClaimNext(market: Address, holder: Address, next: nat)
    | Outside  // a call to a contract that is not part of the protocol

  datatype Stack = Empty | Push(rest: Stack, frame: Frame, saved: World)

  datatype State = State(world: World, stack: Stack)

  datatype Progress = Running(world: World, frame: Frame) | Finished(world: World)

  datatype Action =
    | CallBuy(buyer: Address, market: Address, amount: uint256)
    | CallSell(seller: Address, market: Address, amount: uint256)
    | CallClaim(market: Address, holder: Address)
    | CallOutside
    | Continue  // the token hands control back to the innermost call, or that call returns
    | Throw     // the innermost call reverts
    | DenominationCall(call: Call)
    | ShareCall(market: Address, outcome: nat, call: Call)
    | CreateMarket(terms: Terms, market: Address, mailbox: Address)
    | ApproveSpenders(market: Address)
    | ResolveMarket(sender: Address, market: Address, payouts: seq<uint256>, invalid: bool)
    | SetTime(now: uint256)
    | EmergencyStop

  // ---- Trading calls ----

  function Update(w: World, m: Address, market: Market, ledger: Ledger): World {
    w.(pools := w.pools[m := Pool(market, ledger)])
  }

  /** Tokens that reach a market other than as the price of sets are booked as donated. */
  function Credit(pools: map<Address, Pool>, to: Address, v: nat): map<Address, Pool> {
    if to in pools then
      var p := pools[to];
      pools[to := p.(ledger := p.ledger.(donated := p.ledger.donated + v))]
    else pools
  }

  function PayOut(w: World, spender: Address, m: Address, to: Address, v: uint256): Tx<World> {
    var denom :- TransferFrom(w.denom, spender, m, to, v);
    Commit(w.(denom := denom, pools := Credit(w.pools, to, v)))
  }

  function BookFee(w: World, m: Address, v: nat): World {
    if m in w.pools then
      var p := w.pools[m];
      Update(w, m, p.market, p.ledger.(fees := p.ledger.fees + v))
    else w
  }

  function BookPaid(w: World, m: Address, v: nat): World {
    if m in w.pools then
      var p := w.pools[m];
      Update(w, m, p.market, p.ledger.(paid := p.ledger.paid + v))
    else w
  }

  /** marketIsLegit and onlyInGoodTimes. */
  predicate Callable(w: World, m: Address) {
    m in w.pools && !w.stopped
  }

  function StartBuy(w: World, buyer: Address, m: Address, amount: uint256): Tx<Progress> {
    var _ :- Require(Callable(w, m) && !w.setsLocked && buyer != NULL_ADDRESS);
    var cost :- Mul(amount, w.pools[m].market.terms.numTicks);
    var _ :- Require(cost > 0);
    Commit(Running(w.(setsLocked := true), BuyUnpaid(m, buyer, amount, cost)))
  }

  function StartSell(w: World, seller: Address, m: Address, amount: uint256): Tx<Progress> {
    var _ :- Require(Callable(w, m) && !w.setsLocked && seller != NULL_ADDRESS);
    var p := w.pools[m];
    var payout :- Mul(amount, p.market.terms.numTicks);
    var fee := Fee(p.market.terms, payout);
    var net :- Sub(payout, fee);
    var shares :- BurnAll(p.market.shares, seller, amount);
    var l := p.ledger.(sold := p.ledger.sold + amount, gross := p.ledger.gross + payout, feeCount := p.ledger.feeCount + 1);
    Commit(Running(Update(w, m, p.market.(shares := shares), l).(setsLocked := true),
                   if fee != 0 then SellFee(m, seller, net, fee) else SellNet(m, seller, net)))
  }

  function StartClaim(w: World, m: Address, holder: Address): Tx<Progress> {
    var _ :- Require(Callable(w, m) && !w.claimsLocked && w.now > w.pools[m].market.resolutionTime);
    Commit(Running(w.(claimsLocked := true), ClaimNext(m, holder, 0)))
  }

  function AfterSettling(m: Address, holder: Address, next: nat, net: uint256, fee: uint256): Frame {
    if net > 0 then ClaimNet(m, holder, next, net, fee)
    else if fee > 0 then ClaimFee(m, holder, next, fee)
    else ClaimNext(m, holder, next)
  }

  /** Burn the holder's shares of one outcome and divide the winnings up. */
  function SettleOutcome(w: World, m: Address, holder: Address, i: nat): Tx<Progress>
    requires m in w.pools && i < |w.pools[m].market.shares|
  {
    var p := w.pools[m];
    var s :- Settle(w.denom, p.market, holder, i);
    var _ :- Require(i < |p.ledger.claimed|);
    var l := p.ledger.(claimed := p.ledger.claimed[i := p.ledger.claimed[i] + Bal(p.market.shares[i], holder)],
                       gross := p.ledger.gross + (s.net + s.fee),
                       feeCount := p.ledger.feeCount + 1);
    Commit(Running(Update(w, m, s.market, l), AfterSettling(m, holder, i + 1, s.net, s.fee)))
  }

  predicate BalancesAssertable(w: World, m: Address)
    requires m in w.pools
  {
    Covered(w.pools[m].market, Bal(w.denom, m))
  }

  /** The code of a suspended call from one hand-over of control to the next. */
  function Resume(env: Deployment, w: World, f: Frame): Tx<Progress> {
    match f
    case BuyUnpaid(m, buyer, amount, cost) =>
      var denom :- TransferFrom(w.denom, env.augurLite, buyer, m, cost);
      Commit(Running(w.(denom := denom), BuyPaid(m, buyer, amount)))
    case BuyPaid(m, buyer, amount) =>
      var _ :- Require(m in w.pools);
      var p := w.pools[m];
      var shares :- MintAll(p.market.shares, buyer, amount);
      var w' := Update(w, m, p.market.(shares := shares), p.ledger.(bought := p.ledger.bought + amount));
      var _ :- Require(BalancesAssertable(w', m));
      Commit(Finished(w'.(setsLocked := false)))
    case SellFee(m, seller, net, fee) =>
      var _ :- Require(m in w.pools);
      var w' :- PayOut(w, env.completeSets, m, w.pools[m].market.mailbox, fee);
      Commit(Running(BookFee(w', m, fee), SellNet(m, seller, net)))
    case SellNet(m, seller, net) =>
      var w' :- PayOut(w, env.completeSets, m, seller, net);
      Commit(Running(BookPaid(w', m, net), SellDone(m)))
    case SellDone(m) =>
      var _ :- Require(m in w.pools);
      var _ :- Require(BalancesAssertable(w, m));
      Commit(Finished(w.(setsLocked := false)))
    case ClaimNet(m, holder, next, net, fee) =>
      var w' :- PayOut(w, env.claims, m, holder, net);
      Commit(Running(BookPaid(w', m, net), AfterSettling(m, holder, next, 0, fee)))
    case ClaimFee(m, holder, next, fee) =>
      var _ :- Require(m in w.pools);
      var w' :- PayOut(w, env.claims, m, w.pools[m].market.mailbox, fee);
      Commit(Running(BookFee(w', m, fee), ClaimNext(m, holder, next)))
    case ClaimNext(m, holder, next) =>
      var _ :- Require(m in w.pools);
      if next < |w.pools[m].market.shares| then SettleOutcome(w, m, holder, next)
      else
        var _ :- Require(BalancesAssertable(w, m));
        Commit(Finished(w.(claimsLocked := false)))
    case Outside => Commit(Finished(w))
  }

  // ---- Everybody else ----

  predicate Trusted(env: Deployment, a: Address) {
    a == env.augurLite || a == env.completeSets || a == env.claims
  }

  /** Who may be the caller: a market has no code that moves or approves its tokens in any other way. */
  predicate Issuable(env: Deployment, w: World, c: Call) {
    match c
    case CallTransfer(from, _, _) => from !in w.pools
    case CallTransferFrom(spender, _, _, _) => !Trusted(env, spender)
    case CallApprove(owner, _, _) => owner !in w.pools
    case CallIncrease(owner, _, _) => owner !in w.pools
    case CallDecrease(owner, _, _) => owner !in w.pools
    case CallMint(_, _) => true
    case CallBurn(target, _) => target !in w.pools
  }

  /** Where a call to the denomination token brings tokens in, and how many. */
  function Inflow(t: Token, c: Call): (Address, nat) {
    match c
    case CallTransfer(from, to, v) => (to, if Transfer(t, from, to, v).Commit? then v else 0)
    case CallTransferFrom(spender, from, to, v) => (to, if TransferFrom(t, spender, from, to, v).Commit? then v else 0)
    case CallMint(target, v) => (target, if Mint(t, target, v).Commit? then v else 0)
    case _ => (NULL_ADDRESS, 0)
  }

  /** An address nobody has used: what a factory's new contract gets. */
  predicate Fresh(env: Deployment, w: World, a: Address) {
    && a != NULL_ADDRESS
    && a !in w.pools
    && !Trusted(env, a)
    && (forall m | m in w.pools :: w.pools[m].market.mailbox != a)
    && (forall k | k in w.denom.allowed :: k.0 != a)
  }

  function ApproveTraders(env: Deployment, t: Token, m: Address): Token {
    Approve(Approve(t, m, env.completeSets, ETERNAL_APPROVAL_VALUE), m, env.claims, ETERNAL_APPROVAL_VALUE)
  }

  function NewLedger(t: Token, m: Address, outcomes: nat): Ledger {
    Ledger(0, 0, seq(outcomes, _ => 0), Bal(t, m), 0, 0, 0, 0)
  }

  /** A call that moves no frame; one that reverts changes nothing. */
  function Elsewhere(env: Deployment, w: World, act: Action): World {
    match act
    case DenominationCall(c) =>
      if Issuable(env, w, c) then
        var (to, v) := Inflow(w.denom, c);
        w.(denom := Perform(w.denom, c), pools := Credit(w.pools, to, v))
      else w
    case ShareCall(m, i, c) =>
      if m in w.pools && i < |w.pools[m].market.shares| && !c.CallMint? && !c.CallBurn? then
        var p := w.pools[m];
        Update(w, m, p.market.(shares := p.market.shares[i := Perform(p.market.shares[i], c)]), p.ledger)
      else w
    case CreateMarket(terms, m, mailbox) =>
      if !w.stopped && AcceptableTerms(terms, w.now) && Fresh(env, w, m) && Fresh(env, w, mailbox) && m != mailbox then
        Update(w, m, NewMarket(m, mailbox, terms), NewLedger(w.denom, m, terms.numOutcomes))
          .(denom := ApproveTraders(env, w.denom, m))
      else w
    case ApproveSpenders(m) =>
      if Callable(w, m) then w.(denom := ApproveTraders(env, w.denom, m)) else w
    case ResolveMarket(sender, m, payouts, invalid) =>
      if Callable(w, m) && w.pools[m].market.terms.numOutcomes > 0 then
        var r := Resolve(w.pools[m].market, w.now, sender, payouts, invalid);
        if r.Commit? then Update(w, m, r.value, w.pools[m].ledger) else w
      else w
    case SetTime(now) => w.(now := now)
    case EmergencyStop => w.(stopped := true)
    case _ => w
  }

  // ---- Steps and runs ----

  function Begin(w: World, act: Action): Tx<Progress> {
    match act
    case CallBuy(buyer, m, amount) => StartBuy(w, buyer, m, amount)
    case CallSell(seller, m, amount) => StartSell(w, seller, m, amount)
    case CallClaim(m, holder) => StartClaim(w, m, holder)
    case CallOutside => Commit(Running(w, Outside))
    case _ => Revert
  }

  function Step(env: Deployment, st: State, act: Action): State {
    match act
    case Throw =>
      if st.stack.Push? then State(st.stack.saved, st.stack.rest) else st
    case Continue =>
      if st.stack.Empty? then st
      else
        var r := Resume(env, st.world, st.stack.frame);
        if r.Revert? then State(st.stack.saved, st.stack.rest)
        else if r.value.Running? then State(r.value.world, st.stack.(frame := r.value.frame))
        else State(r.value.world, st.stack.rest)
    case _ =>
      var r := Begin(st.world, act);
      if r.Commit? && r.value.Running? then State(r.value.world, Push(st.stack, r.value.frame, st.world))
      else State(Elsewhere(env, st.world, act), st.stack)
  }

  function Run(env: Deployment, st: State, acts: seq<Action>): State
    decreases |acts|
  {
    if acts == [] then st
    else Step(env, Run(env, st, acts[..|acts| - 1]), acts[|acts| - 1])
  }

  /** Before the first market: some denomination token, nothing locked, nothing pending. */
  function Genesis(denom: Token, now: uint256): State {
    State(World(denom, map[], false, false, false, now), Empty)
  }
}
