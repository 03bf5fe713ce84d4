/**
 * The invariant of the machine. It is about a world together with everything suspended in it, and
 * it holds, too, of every world a suspended call would revert to with what is suspended below it.
 */
module Invariant {
  import opened Words
  import opened Storage
  import opened SafeMathUint256
  import opened Vectors
  import opened Addresses
  import opened TokenModel
  import opened MarketModel
  import opened Trading
  import opened Protocol
  import opened Accounts

  // ---- What is pending ----

  /** What a frame still has to pay the holder it redeems for, out of `m`. */
  function NetOf(f: Frame, m: Address): nat {
    match f
    case SellFee(k, _, net, _) => if k == m then net else 0
    case SellNet(k, _, net) => if k == m then net else 0
    case ClaimNet(k, _, _, net, _) => if k == m then net else 0
    case _ => 0
  }

  function FeeOf(f: Frame, m: Address): nat {
    match f
    case SellFee(k, _, _, fee) => if k == m then fee else 0
    case ClaimNet(k, _, _, _, fee) => if k == m then fee else 0
    case ClaimFee(k, _, _, fee) => if k == m then fee else 0
    case _ => 0
  }

  /** Sets of `m` that a frame has been paid for and has yet to mint. */
  function UnmintedOf(f: Frame, m: Address): nat {
    match f
    case BuyPaid(k, _, amount) => if k == m then amount else 0
    case _ => 0
  }

  function OwedNet(s: Stack, m: Address): nat {
    if s.Empty? then 0 else OwedNet(s.rest, m) + NetOf(s.frame, m)
  }

  function OwedFee(s: Stack, m: Address): nat {
    if s.Empty? then 0 else OwedFee(s.rest, m) + FeeOf(s.frame, m)
  }

  function Unminted(s: Stack, m: Address): nat {
    if s.Empty? then 0 else Unminted(s.rest, m) + UnmintedOf(s.frame, m)
  }

  /** How many suspended calls are in CompleteSets, and how many in ClaimTradingProceeds. */
  function SetsFrames(s: Stack): nat {
    if s.Empty? then 0 else SetsFrames(s.rest) + if InSets(s.frame) then 1 else 0
  }

  function ClaimsFrames(s: Stack): nat {
    if s.Empty? then 0 else ClaimsFrames(s.rest) + if InClaims(s.frame) then 1 else 0
  }

  predicate InSets(f: Frame) {
    f.BuyUnpaid? || f.BuyPaid? || f.SellFee? || f.SellNet? || f.SellDone?
  }

  predicate InClaims(f: Frame) {
    f.ClaimNet? || f.ClaimFee? || f.ClaimNext?
  }

  // ---- The invariant ----

  predicate DistinctDeployment(env: Deployment) {
    env.augurLite != env.completeSets && env.augurLite != env.claims
  }

  /** The traders have the everlasting allowance on the escrow of `m` and nobody else has any. */
  ghost predicate OnlyTradersApproved(env: Deployment, t: Token, m: Address) {
    forall s :: Allowance(t, m, s) == if s == env.completeSets || s == env.claims then ETERNAL_APPROVAL_VALUE else 0
  }

  ghost predicate Wired(env: Deployment, w: World) {
    forall m | m in w.pools ::
      && w.pools[m].market.self == m
      && w.pools[m].market.mailbox !in w.pools
      && !Trusted(env, m)
      && OnlyTradersApproved(env, w.denom, m)
  }

  ghost predicate PoolBalanced(w: World, s: Stack, m: Address)
    requires m in w.pools
  {
    Balanced(w.pools[m], Bal(w.denom, m), OwedNet(s, m), OwedFee(s, m), Unminted(s, m))
  }

  ghost predicate AllBalanced(w: World, s: Stack) {
    forall m | m in w.pools :: PoolBalanced(w, s, m)
  }

  predicate FrameFits(w: World, f: Frame) {
    f.Outside? ||
    (f.market in w.pools &&
     var mk := w.pools[f.market].market;
     && (f.BuyUnpaid? ==> f.cost == f.amount * mk.terms.numTicks && f.cost > 0)
     && (InClaims(f) ==> f.next <= |mk.shares| && (f.next > 0 || !f.ClaimNext? ==> Resolved(mk))))
  }

  predicate FramesFit(w: World, s: Stack) {
    s.Push? ==> FrameFits(w, s.frame) && FramesFit(w, s.rest)
  }

  /** A lock is held exactly while one call to its contract is suspended, and two never are. */
  predicate LocksAgree(w: World, s: Stack) {
    && SetsFrames(s) == (if w.setsLocked then 1 else 0)
    && ClaimsFrames(s) == (if w.claimsLocked then 1 else 0)
  }

  ghost predicate Consistent(env: Deployment, w: World, s: Stack) {
    && DistinctDeployment(env)
    && Conserved(w.denom)
    && Wired(env, w)
    && AllBalanced(w, s)
    && FramesFit(w, s)
    && LocksAgree(w, s)
  }

  ghost predicate Inv(env: Deployment, w: World, s: Stack)
    decreases s
  {
    && Consistent(env, w, s)
    && (s.Push? ==> Inv(env, s.saved, s.rest))
  }

  // ---- What never changes in a market ----

  predicate SameMarket(a: Market, b: Market) {
    && a.self == b.self && a.mailbox == b.mailbox && a.terms == b.terms && |a.shares| == |b.shares|
    && (Resolved(a) ==> b.resolutionTime == a.resolutionTime && b.payouts == a.payouts && b.invalid == a.invalid)
  }

  /** `v` comes after `w`: markets stay, resolutions are final, and a stop is for good. */
  predicate Extends(w: World, v: World) {
    && (forall m | m in w.pools :: m in v.pools && SameMarket(w.pools[m].market, v.pools[m].market))
    && (w.stopped ==> v.stopped)
  }

  lemma {:induction false} FramesStillFit(w: World, v: World, s: Stack)
    requires Extends(w, v) && FramesFit(w, s)
    ensures FramesFit(v, s)
  {
    if s.Push? {
      FramesStillFit(w, v, s.rest);
    }
  }

  /** Nothing is pending on an address that is not a market yet. */
  lemma {:induction false} NothingPendingElsewhere(w: World, s: Stack, m: Address)
    requires FramesFit(w, s) && m !in w.pools
    ensures OwedNet(s, m) == 0 && OwedFee(s, m) == 0 && Unminted(s, m) == 0
  {
    if s.Push? {
      NothingPendingElsewhere(w, s.rest, m);
    }
  }

  // ---- Payments out of a market ----

  predicate SamePoolsBut(w: World, v: World, m: Address) {
    && v.pools.Keys == w.pools.Keys
    && forall k | k in w.pools && k != m :: v.pools[k] == w.pools[k]
  }

  function Donated(p: Pool, v: nat): Pool {
    p.(ledger := p.ledger.(donated := p.ledger.donated + v))
  }

  /** A trader's payment of what the escrow covers always goes through. */
  lemma PayOutGoesThrough(env: Deployment, w: World, spender: Address, m: Address, to: Address, v: uint256)
    requires Conserved(w.denom) && OnlyTradersApproved(env, w.denom, m)
    requires spender == env.completeSets || spender == env.claims
    requires v <= Bal(w.denom, m)
    ensures PayOut(w, spender, m, to, v).Commit?
    ensures var w' := PayOut(w, spender, m, to, v).value;
            && Conserved(w'.denom)
            && w'.denom.allowed == w.denom.allowed
            && (forall k :: Bal(w'.denom, k) == Bal(w.denom, k) + Moved(k, m, to, v))
            && w'.pools.Keys == w.pools.Keys
            && (forall k | k in w.pools :: w'.pools[k] == Donated(w.pools[k], if k == to then v else 0))
            && w' == w.(denom := w'.denom, pools := w'.pools)
  {
    hide Total, Transfer, TransferFrom;
    assert Allowance(w.denom, m, spender) == ETERNAL_APPROVAL_VALUE;
    TransferFromExact(w.denom, spender, m, to, v);
    forall k | k in w.pools
      ensures w.pools[k] == Donated(w.pools[k], 0)
    {
    }
  }

  /** `w'` is `w` after `v` left the escrow of `m` for `to`, booked as a fee or as paid to a holder. */
  ghost predicate Paid(w: World, w': World, m: Address, to: Address, v: nat, isFee: bool) {
    && w'.pools.Keys == w.pools.Keys
    && forall k | k in w.pools :: PaidAt(w, w', m, to, v, isFee, k)
  }

  predicate PaidAt(w: World, w': World, m: Address, to: Address, v: nat, isFee: bool, k: Address)
    requires k in w.pools && k in w'.pools
  {
    var out := if k == m then v else 0;
    var back := if k == to then v else 0;
    && Bal(w'.denom, k) == Bal(w.denom, k) - out + back
    && w'.pools[k] == Booked(Donated(w.pools[k], back), out, isFee)
  }

  function Booked(p: Pool, v: nat, isFee: bool): Pool {
    p.(ledger := if isFee then p.ledger.(fees := p.ledger.fees + v) else p.ledger.(paid := p.ledger.paid + v))
  }

  /** `s'` owes `v` less than `s` out of `m`. */
  ghost predicate Discharged(s: Stack, s': Stack, m: Address, v: nat, isFee: bool) {
    forall k :: DischargedAt(s, s', m, v, isFee, k)
  }

  predicate DischargedAt(s: Stack, s': Stack, m: Address, v: nat, isFee: bool, k: Address) {
    var out := if k == m then v else 0;
    && Unminted(s', k) == Unminted(s, k)
    && OwedNet(s', k) + (if isFee then 0 else out) == OwedNet(s, k)
    && OwedFee(s', k) + (if isFee then out else 0) == OwedFee(s, k)
  }

  lemma PaymentKeepsBalanced(w: World, s: Stack, m: Address, to: Address, v: nat, isFee: bool, w': World, s': Stack)
    requires AllBalanced(w, s) && m in w.pools
    requires v <= if isFee then OwedFee(s, m) else OwedNet(s, m)
    requires Paid(w, w', m, to, v, isFee) && Discharged(s, s', m, v, isFee)
    ensures AllBalanced(w', s')
  {
    hide Balanced, OwedNet, OwedFee, Unminted, Booked, Donated;
    forall k | k in w'.pools
      ensures PoolBalanced(w', s', k)
    {
      assert PoolBalanced(w, s, k) && PaidAt(w, w', m, to, v, isFee, k) && DischargedAt(s, s', m, v, isFee, k);
      PaymentOnBooks(w.pools[k], Bal(w.denom, k), OwedNet(s, k), OwedFee(s, k), Unminted(s, k),
                     if k == m then v else 0, if k == to then v else 0, isFee,
                     w'.pools[k], Bal(w'.denom, k), OwedNet(s', k), OwedFee(s', k));
    }
  }

  lemma BookNothing(p: Pool, isFee: bool)
    ensures Booked(p, 0, isFee) == p
  {
  }

  lemma PaymentOnBooks(p: Pool, balance: nat, net: nat, fee: nat, unminted: nat, out: nat, back: nat, isFee: bool,
                       p': Pool, balance': nat, net': nat, fee': nat)
    requires Balanced(p, balance, net, fee, unminted)
    requires out <= if isFee then fee else net
    requires p' == Booked(Donated(p, back), out, isFee)
    requires balance' == balance - out + back
    requires net' == net - (if isFee then 0 else out) && fee' == fee - (if isFee then out else 0)
    ensures Balanced(p', balance', net', fee', unminted)
  {
    hide Balanced;
    if isFee {
      PayMailbox(p, balance, net, fee, unminted, out);
      Donate(p.(ledger := p.ledger.(fees := p.ledger.fees + out)), balance - out, net, fee - out, unminted, back);
    } else {
      PayHolder(p, balance, net, fee, unminted, out);
      Donate(p.(ledger := p.ledger.(paid := p.ledger.paid + out)), balance - out, net - out, fee, unminted, back);
    }
  }

  function BookOutflow(w: World, m: Address, v: nat, isFee: bool): World {
    if isFee then BookFee(w, m, v) else BookPaid(w, m, v)
  }

  lemma PaidOut(env: Deployment, w: World, spender: Address, m: Address, to: Address, v: uint256, isFee: bool)
    requires Conserved(w.denom) && Wired(env, w) && m in w.pools
    requires spender == env.completeSets || spender == env.claims
    requires v <= Bal(w.denom, m)
    ensures PayOut(w, spender, m, to, v).Commit?
    ensures var w' := BookOutflow(PayOut(w, spender, m, to, v).value, m, v, isFee);
            && Paid(w, w', m, to, v, isFee)
            && Conserved(w'.denom)
            && Extends(w, w')
            && Wired(env, w')
            && w'.setsLocked == w.setsLocked && w'.claimsLocked == w.claimsLocked
  {
    hide PayOut, Conserved, OnlyTradersApproved, Wired, Extends, BookOutflow, Booked, Donated;
    assert OnlyTradersApproved(env, w.denom, m) by { WiredAt(env, w, m); }
    PayOutGoesThrough(env, w, spender, m, to, v);
    var w1 := PayOut(w, spender, m, to, v).value;
    var w' := BookOutflow(w1, m, v, isFee);
    OutflowBooked(w1, m, v, isFee);
    forall k | k in w.pools
      ensures w'.pools[k].market == w.pools[k].market
      ensures PaidAt(w, w', m, to, v, isFee, k)
    {
      var back := if k == to then v else 0;
      BookingKeepsMarket(w.pools[k], back);
      BookNothing(Donated(w.pools[k], back), isFee);
      assert Moved(k, m, to, v) == back - if k == m then v else 0;
    }
    MarketsUntouched(env, w, w');
  }

  lemma OutflowBooked(w: World, m: Address, v: nat, isFee: bool)
    requires m in w.pools
    ensures BookOutflow(w, m, v, isFee) == w.(pools := w.pools[m := Booked(w.pools[m], v, isFee)])
    ensures Booked(w.pools[m], v, isFee).market == w.pools[m].market
  {
  }

  lemma BookingKeepsMarket(p: Pool, v: nat)
    ensures Donated(p, v).market == p.market
  {
  }

  lemma WiredAt(env: Deployment, w: World, m: Address)
    requires Wired(env, w) && m in w.pools
    ensures OnlyTradersApproved(env, w.denom, m)
  {
  }

  /** As long as the markets and the allowances stay what they are. */
  lemma MarketsUntouched(env: Deployment, w: World, w': World)
    requires Wired(env, w) && w'.denom.allowed == w.denom.allowed && w'.pools.Keys == w.pools.Keys
    requires w'.stopped == w.stopped
    requires forall m | m in w.pools :: w'.pools[m].market == w.pools[m].market
    ensures Extends(w, w') && Wired(env, w')
  {
    StillWired(env, w, w');
  }

  lemma StackStillFits(w: World, w': World, s: Stack)
    requires FramesFit(w, s) && LocksAgree(w, s) && Extends(w, w')
    requires w'.setsLocked == w.setsLocked && w'.claimsLocked == w.claimsLocked
    ensures FramesFit(w', s) && LocksAgree(w', s)
  {
    FramesStillFit(w, w', s);
  }

  lemma TopReplaced(w: World, s: Stack, w': World, f: Frame)
    requires FramesFit(w, s) && LocksAgree(w, s) && s.Push? && Extends(w, w')
    requires FrameFits(w', f) && InSets(f) == InSets(s.frame) && InClaims(f) == InClaims(s.frame)
    requires w'.setsLocked == w.setsLocked && w'.claimsLocked == w.claimsLocked
    ensures FramesFit(w', s.(frame := f)) && LocksAgree(w', s.(frame := f))
  {
    FramesStillFit(w, w', s.rest);
  }

  lemma TopPopped(w: World, s: Stack, w': World)
    requires FramesFit(w, s) && LocksAgree(w, s) && s.Push? && Extends(w, w')
    requires w'.setsLocked == (w.setsLocked && !InSets(s.frame)) && w'.claimsLocked == (w.claimsLocked && !InClaims(s.frame))
    ensures FramesFit(w', s.rest) && LocksAgree(w', s.rest)
  {
    FramesStillFit(w, w', s.rest);
  }

  lemma TopPushed(w: World, s: Stack, w': World, f: Frame)
    requires FramesFit(w, s) && LocksAgree(w, s) && Extends(w, w')
    requires FrameFits(w', f) && !(InSets(f) && w.setsLocked) && !(InClaims(f) && w.claimsLocked)
    requires w'.setsLocked == (w.setsLocked || InSets(f)) && w'.claimsLocked == (w.claimsLocked || InClaims(f))
    ensures FramesFit(w', Push(s, f, w)) && LocksAgree(w', Push(s, f, w))
  {
    FramesStillFit(w, w', s);
  }

  /** Debts on the stack are covered, so the innermost call's payments go through and keep the books. */
  lemma PayFromTop(env: Deployment, w: World, s: Stack, spender: Address, m: Address, to: Address, v: uint256, isFee: bool, f: Frame)
    requires Consistent(env, w, s) && s.Push? && m in w.pools
    requires spender == env.completeSets || spender == env.claims
    requires v <= if isFee then FeeOf(s.frame, m) else NetOf(s.frame, m)
    requires forall k ::
               && UnmintedOf(f, k) == UnmintedOf(s.frame, k)
               && NetOf(f, k) == NetOf(s.frame, k) - (if k == m && !isFee then v else 0)
               && FeeOf(f, k) == FeeOf(s.frame, k) - (if k == m && isFee then v else 0)
    requires InSets(f) == InSets(s.frame) && InClaims(f) == InClaims(s.frame)
    requires !f.BuyUnpaid? && !f.Outside? && f.market == m
    requires f.ClaimNext? || f.ClaimFee? ==> s.frame.next == f.next && s.frame.market == m && !s.frame.ClaimNext?
    requires !f.ClaimNet?
    ensures PayOut(w, spender, m, to, v).Commit?
    ensures var w' := BookOutflow(PayOut(w, spender, m, to, v).value, m, v, isFee);
            Consistent(env, w', s.(frame := f)) && Extends(w, w')
  {
    hide Balanced, PayOut, Conserved, BookOutflow, Wired, Paid;
    assert PoolBalanced(w, s, m);
    SolventBeyondDebts(w.pools[m], Bal(w.denom, m), OwedNet(s, m), OwedFee(s, m), Unminted(s, m));
    PaidOut(env, w, spender, m, to, v, isFee);
    var w' := BookOutflow(PayOut(w, spender, m, to, v).value, m, v, isFee);
    var s' := s.(frame := f);
    forall k
      ensures DischargedAt(s, s', m, v, isFee, k)
    {
    }
    PaymentKeepsBalanced(w, s, m, to, v, isFee, w', s');
    TopReplaced(w, s, w', f);
  }

  lemma StillWired(env: Deployment, w: World, w': World)
    requires Wired(env, w) && w'.denom.allowed == w.denom.allowed && w'.pools.Keys == w.pools.Keys
    requires forall m | m in w.pools ::
               && w'.pools[m].market.self == w.pools[m].market.self
               && w'.pools[m].market.mailbox == w.pools[m].market.mailbox
    ensures Wired(env, w')
  {
    forall m | m in w.pools
      ensures OnlyTradersApproved(env, w'.denom, m)
    {
      assert OnlyTradersApproved(env, w.denom, m);
      assert forall s :: Allowance(w'.denom, m, s) == Allowance(w.denom, m, s);
    }
  }

  // ---- Steps of the trading contracts ----

  lemma OneMarketChanges(w: World, s: Stack, w': World, s': Stack, m: Address)
    requires AllBalanced(w, s) && m in w.pools && SamePoolsBut(w, w', m)
    requires forall k | k in w.pools && k != m ::
               && Bal(w'.denom, k) == Bal(w.denom, k)
               && OwedNet(s', k) == OwedNet(s, k) && OwedFee(s', k) == OwedFee(s, k) && Unminted(s', k) == Unminted(s, k)
    requires PoolBalanced(w', s', m)
    ensures AllBalanced(w', s')
  {
    hide Balanced;
    forall k | k in w'.pools
      ensures PoolBalanced(w', s', k)
    {
      if k != m {
        assert PoolBalanced(w, s, k);
      }
    }
  }

  /** One market moves on, nothing else does. */
  lemma MarketReplaced(env: Deployment, w: World, s: Stack, w': World, s': Stack, m: Address)
    requires AllBalanced(w, s) && Wired(env, w) && m in w.pools && m in w'.pools
    requires w'.denom == w.denom && w'.stopped == w.stopped && w'.pools == w.pools[m := w'.pools[m]]
    requires SameMarket(w.pools[m].market, w'.pools[m].market)
    requires forall k | k in w.pools && k != m ::
               OwedNet(s', k) == OwedNet(s, k) && OwedFee(s', k) == OwedFee(s, k) && Unminted(s', k) == Unminted(s, k)
    requires PoolBalanced(w', s', m)
    ensures AllBalanced(w', s') && Wired(env, w') && Extends(w, w')
  {
    hide Balanced, OnlyTradersApproved, Wired, OwedNet, OwedFee, Unminted;
    OneMarketChanges(w, s, w', s', m);
    StillWired(env, w, w');
  }

  lemma BeginKeepsConsistent(env: Deployment, w: World, s: Stack, act: Action)
    requires Consistent(env, w, s) && Begin(w, act).Commit? && Begin(w, act).value.Running?
    ensures var p := Begin(w, act).value;
            Consistent(env, p.world, Push(s, p.frame, w)) && Extends(w, p.world)
  {
    hide Consistent, Extends, StartSell;
    var p := Begin(w, act).value;
    match act
    case CallSell(seller, m, amount) =>
      SellStarted(env, w, s, seller, m, amount);
    case CallBuy(_, _, _) => OnlyLocked(env, w, s, p.world, p.frame);
    case CallClaim(_, _) => OnlyLocked(env, w, s, p.world, p.frame);
    case CallOutside => OnlyLocked(env, w, s, p.world, p.frame);
    case _ =>
  }

  /** Entering a contract takes its lock and nothing else. */
  lemma OnlyLocked(env: Deployment, w: World, s: Stack, w': World, f: Frame)
    requires Consistent(env, w, s)
    requires w' == w.(setsLocked := w.setsLocked || InSets(f), claimsLocked := w.claimsLocked || InClaims(f))
    requires !(InSets(f) && w.setsLocked) && !(InClaims(f) && w.claimsLocked) && FrameFits(w, f)
    requires f.BuyUnpaid? || f.ClaimNext? || f.Outside?
    ensures Consistent(env, w', Push(s, f, w)) && Extends(w, w')
  {
    hide Balanced, Conserved, OnlyTradersApproved, FramesFit, LocksAgree;
    BooksUntouched(w, s, w', Push(s, f, w));
    StillWired(env, w, w');
    TopPushed(w, s, w', f);
  }

  lemma BooksUntouched(w: World, s: Stack, w': World, s': Stack)
    requires AllBalanced(w, s) && w'.pools == w.pools && w'.denom.balances == w.denom.balances
    requires forall k :: OwedNet(s', k) == OwedNet(s, k) && OwedFee(s', k) == OwedFee(s, k) && Unminted(s', k) == Unminted(s, k)
    ensures AllBalanced(w', s')
  {
    hide Balanced, OwedNet, OwedFee, Unminted;
    forall k | k in w'.pools
      ensures PoolBalanced(w', s', k)
    {
      assert PoolBalanced(w, s, k);
    }
  }

  lemma SellStarted(env: Deployment, w: World, s: Stack, seller: Address, m: Address, amount: uint256)
    requires Consistent(env, w, s) && StartSell(w, seller, m, amount).Commit?
    ensures var p := StartSell(w, seller, m, amount).value;
            Consistent(env, p.world, Push(s, p.frame, w)) && Extends(w, p.world)
  {
    hide Balanced, Conserved, OnlyTradersApproved, FramesFit, LocksAgree, Wired, AllBalanced, Extends;
    var p := StartSell(w, seller, m, amount).value;
    assert PoolBalanced(w, s, m) by { BalancedAt(w, s, m); }
    var payout := Mul(amount, w.pools[m].market.terms.numTicks).value;
    BurnSets(w.pools[m], Bal(w.denom, m), OwedNet(s, m), OwedFee(s, m), Unminted(s, m), seller, amount, payout);
    MarketReplaced(env, w, s, p.world, Push(s, p.frame, w), m);
    TopPushed(w, s, p.world, p.frame);
  }

  lemma BalancedAt(w: World, s: Stack, m: Address)
    requires AllBalanced(w, s) && m in w.pools
    ensures PoolBalanced(w, s, m)
  {
  }

  lemma BuyPaidIn(env: Deployment, w: World, s: Stack)
    requires Consistent(env, w, s) && s.Push? && s.frame.BuyUnpaid? && Resume(env, w, s.frame).Commit?
    ensures var p := Resume(env, w, s.frame).value;
            p.Running? && Consistent(env, p.world, s.(frame := p.frame)) && Extends(w, p.world)
  {
    hide Balanced, Total, Transfer, TransferFrom;
    var BuyUnpaid(m, buyer, amount, cost) := s.frame;
    var p := Resume(env, w, s.frame).value;
    TransferFromExact(w.denom, env.augurLite, buyer, m, cost);
    // a market itself has given AugurLite no allowance
    assert buyer !in w.pools by {
      assert buyer in w.pools ==> Allowance(w.denom, buyer, env.augurLite) == 0;
    }
    assert PoolBalanced(w, s, m);
    ReceivePrice(w.pools[m], Bal(w.denom, m), OwedNet(s, m), OwedFee(s, m), Unminted(s, m), amount);
    OneMarketChanges(w, s, p.world, s.(frame := p.frame), m);
    FramesStillFit(w, p.world, s.rest);
    forall k | k in w.pools
      ensures OnlyTradersApproved(env, p.world.denom, k)
    {
      assert k != buyer;
      assert OnlyTradersApproved(env, w.denom, k);
    }
  }

  lemma SetsMinted(env: Deployment, w: World, s: Stack)
    requires Consistent(env, w, s) && s.Push? && s.frame.BuyPaid? && s.frame.market in w.pools && Resume(env, w, s.frame).Commit?
    ensures var p := Resume(env, w, s.frame).value;
            p.Finished? && Consistent(env, p.world, s.rest) && Extends(w, p.world)
  {
    hide Balanced, Conserved, Covered, OnlyTradersApproved, FramesFit, LocksAgree, Wired, AllBalanced, Extends;
    var BuyPaid(m, buyer, amount) := s.frame;
    var w' := Resume(env, w, s.frame).value.world;
    assert PoolBalanced(w, s, m) by { BalancedAt(w, s, m); }
    MintSets(w.pools[m], Bal(w.denom, m), OwedNet(s, m), OwedFee(s, m), Unminted(s, m), buyer, amount);
    MarketReplaced(env, w, s, w', s.rest, m);
    TopPopped(w, s, w');
  }

  lemma OutcomeSettled(env: Deployment, w: World, s: Stack)
    requires Consistent(env, w, s) && s.Push? && s.frame.ClaimNext? && s.frame.market in w.pools
    requires s.frame.next < |w.pools[s.frame.market].market.shares|
    requires Resume(env, w, s.frame).Commit?
    ensures var p := Resume(env, w, s.frame).value;
            p.Running? && Consistent(env, p.world, s.(frame := p.frame)) && Extends(w, p.world)
  {
    hide Balanced, Conserved, Covered, OnlyTradersApproved, FramesFit, LocksAgree, Wired, AllBalanced, Extends, Settle;
    var ClaimNext(m, holder, i) := s.frame;
    var p := Resume(env, w, s.frame).value;
    assert PoolBalanced(w, s, m) by { BalancedAt(w, s, m); }
    SettleShares(w.denom, w.pools[m], Bal(w.denom, m), OwedNet(s, m), OwedFee(s, m), Unminted(s, m), holder, i);
    SettleTouchesShares(w.denom, w.pools[m].market, holder, i);
    MarketReplaced(env, w, s, p.world, s.(frame := p.frame), m);
    TopReplaced(w, s, p.world, p.frame);
  }

  lemma SettleTouchesShares(d: Token, mk: Market, holder: Address, i: nat)
    requires i < |mk.shares| && Settle(d, mk, holder, i).Commit?
    ensures Resolved(mk)
    ensures SameMarket(mk, Settle(d, mk, holder, i).value.market)
  {
  }

  lemma CallReturns(env: Deployment, w: World, s: Stack, w': World)
    requires Consistent(env, w, s) && s.Push?
    requires s.frame.SellDone? || s.frame.ClaimNext? || s.frame.Outside?
    requires w' == w.(setsLocked := w.setsLocked && !InSets(s.frame), claimsLocked := w.claimsLocked && !InClaims(s.frame))
    ensures Consistent(env, w', s.rest) && Extends(w, w')
  {
    hide Balanced, Conserved, OnlyTradersApproved, FramesFit, LocksAgree;
    BooksUntouched(w, s, w', s.rest);
    StillWired(env, w, w');
    TopPopped(w, s, w');
  }

  predicate IsPayment(f: Frame) {
    f.SellFee? || f.SellNet? || f.ClaimNet? || f.ClaimFee?
  }

  lemma PaymentKeepsConsistent(env: Deployment, w: World, s: Stack)
    requires Consistent(env, w, s) && s.Push? && IsPayment(s.frame) && Resume(env, w, s.frame).Commit?
    ensures var p := Resume(env, w, s.frame).value;
            p.Running? && Consistent(env, p.world, s.(frame := p.frame)) && Extends(w, p.world)
  {
    hide Balanced, Conserved, Wired, AllBalanced, PayOut, FramesFit, LocksAgree, Extends;
    FramesFitTop(w, s);
    match s.frame
    case SellFee(m, seller, net, fee) =>
      PayFromTop(env, w, s, env.completeSets, m, w.pools[m].market.mailbox, fee, true, SellNet(m, seller, net));
    case SellNet(m, seller, net) => PayFromTop(env, w, s, env.completeSets, m, seller, net, false, SellDone(m));
    case ClaimNet(m, holder, next, net, fee) =>
      PayFromTop(env, w, s, env.claims, m, holder, net, false, AfterSettling(m, holder, next, 0, fee));
    case ClaimFee(m, holder, next, fee) =>
      PayFromTop(env, w, s, env.claims, m, w.pools[m].market.mailbox, fee, true, ClaimNext(m, holder, next));
  }

  lemma ResumeKeepsConsistent(env: Deployment, w: World, s: Stack)
    requires Consistent(env, w, s) && s.Push? && Resume(env, w, s.frame).Commit?
    ensures var p := Resume(env, w, s.frame).value;
            && Consistent(env, p.world, if p.Running? then s.(frame := p.frame) else s.rest)
            && Extends(w, p.world)
  {
    hide Balanced, Conserved, Wired, AllBalanced, PayOut, Covered, SettleOutcome, FramesFit, LocksAgree, MintAll, TransferFrom, Extends;
    match s.frame
    case BuyUnpaid(_, _, _, _) => BuyPaidIn(env, w, s);
    case BuyPaid(_, _, _) =>
      FramesFitTop(w, s);
      SetsMinted(env, w, s);
    case SellDone(m) => CallReturns(env, w, s, Resume(env, w, s.frame).value.world);
    case ClaimNext(m, holder, next) =>
      FramesFitTop(w, s);
      if next < |w.pools[m].market.shares| {
        OutcomeSettled(env, w, s);
      } else {
        CallReturns(env, w, s, Resume(env, w, s.frame).value.world);
      }
    case Outside => CallReturns(env, w, s, w);
    case _ => PaymentKeepsConsistent(env, w, s);
  }

  lemma FramesFitTop(w: World, s: Stack)
    requires FramesFit(w, s) && s.Push?
    ensures FrameFits(w, s.frame)
  {
  }

  // ---- Everybody else's steps ----

  lemma DenominationCallKeepsConsistent(env: Deployment, w: World, s: Stack, c: Call)
    requires Consistent(env, w, s) && Issuable(env, w, c)
    ensures var w' := Elsewhere(env, w, DenominationCall(c));
            Consistent(env, w', s) && Extends(w, w')
  {
    hide Balanced, Conserved, OnlyTradersApproved, FramesFit, LocksAgree, Perform, Inflow, Issuable;
    var w' := Elsewhere(env, w, DenominationCall(c));
    var (to, v) := Inflow(w.denom, c);
    CallOnEscrow(env, w, c);
    CreditedAsDonated(w.pools, to, v);
    hide Donated, Credit, Conserved;
    InflowKeepsBalanced(w, w', s, to, v);
    StackStillFits(w, w', s);
  }

  lemma CreditedAsDonated(pools: map<Address, Pool>, to: Address, v: nat)
    ensures Credit(pools, to, v).Keys == pools.Keys
    ensures forall k | k in pools :: Credit(pools, to, v)[k] == Donated(pools[k], if k == to then v else 0)
    ensures forall k | k in pools :: Credit(pools, to, v)[k].market == pools[k].market
  {
  }

  lemma InflowKeepsBalanced(w: World, w': World, s: Stack, to: Address, v: nat)
    requires AllBalanced(w, s) && w'.pools.Keys == w.pools.Keys
    requires forall k | k in w.pools :: w'.pools[k] == Donated(w.pools[k], if k == to then v else 0)
    requires forall k | k in w.pools :: Bal(w'.denom, k) == Bal(w.denom, k) + (if k == to then v else 0)
    ensures AllBalanced(w', s)
  {
    hide Balanced, OwedNet, OwedFee, Unminted;
    forall k | k in w'.pools
      ensures PoolBalanced(w', s, k)
    {
      assert PoolBalanced(w, s, k);
      Donate(w.pools[k], Bal(w.denom, k), OwedNet(s, k), OwedFee(s, k), Unminted(s, k), if k == to then v else 0);
    }
  }

  /** From outside, tokens can be brought into a market but neither taken out nor approved. */
  lemma CallOnEscrow(env: Deployment, w: World, c: Call)
    requires Conserved(w.denom) && Wired(env, w) && Issuable(env, w, c)
    ensures var (to, v) := Inflow(w.denom, c);
            var t' := Perform(w.denom, c);
            && Conserved(t')
            && forall k | k in w.pools ::
                 && Bal(t', k) == Bal(w.denom, k) + (if k == to then v else 0)
                 && OnlyTradersApproved(env, t', k)
  {
    hide Conserved, Transfer, TransferFrom, Mint, Burn, OnlyTradersApproved;
    var t := w.denom;
    var t' := Perform(t, c);
    PerformConserves(t, c);
    forall k | k in w.pools
      ensures Bal(t', k) == Bal(t, k) + (var (to, v) := Inflow(t, c); if k == to then v else 0)
      ensures OnlyTradersApproved(env, t', k)
    {
      CallOnOneEscrow(env, t, k, c);
    }
  }

  lemma CallOnOneEscrow(env: Deployment, t: Token, m: Address, c: Call)
    requires Conserved(t) && OnlyTradersApproved(env, t, m)
    requires match c
             case CallTransfer(from, _, _) => from != m
             case CallTransferFrom(spender, _, _, _) => !Trusted(env, spender)
             case CallApprove(owner, _, _) => owner != m
             case CallIncrease(owner, _, _) => owner != m
             case CallDecrease(owner, _, _) => owner != m
             case CallMint(_, _) => true
             case CallBurn(target, _) => target != m
    ensures var (to, v) := Inflow(t, c);
            Bal(Perform(t, c), m) == Bal(t, m) + (if m == to then v else 0)
    ensures OnlyTradersApproved(env, Perform(t, c), m)
  {
    hide Total, Transfer, TransferFrom, Mint, Burn;
    var t' := Perform(t, c);
    match c
    case CallTransfer(from, to, v) =>
      TransferExact(t, from, to, v);
      assert forall s :: Allowance(t', m, s) == Allowance(t, m, s);
    case CallTransferFrom(spender, from, to, v) =>
      TransferFromExact(t, spender, from, to, v);
      assert from == m ==> Allowance(t, from, spender) == 0;
    case CallApprove(owner, spender, v) => ApproveExact(t, owner, spender, v);
    case CallIncrease(owner, spender, v) =>
      if IncreaseApproval(t, owner, spender, v).Commit? {
        ApproveExact(t, owner, spender, Allowance(t, owner, spender) + v);
      }
    case CallDecrease(owner, spender, v) =>
      ApproveExact(t, owner, spender, if v > Allowance(t, owner, spender) then 0 else Allowance(t, owner, spender) - v);
    case CallMint(target, v) =>
      MintExact(t, target, v);
      assert forall s :: Allowance(t', m, s) == Allowance(t, m, s);
    case CallBurn(target, v) =>
      BurnExact(t, target, v);
      assert forall s :: Allowance(t', m, s) == Allowance(t, m, s);
  }

  lemma TradersApproved(env: Deployment, t: Token, m: Address)
    requires Conserved(t)
    ensures var t' := ApproveTraders(env, t, m);
            && Conserved(t') && t'.balances == t.balances
            && forall o, s :: Allowance(t', o, s) ==
                 if o == m && (s == env.completeSets || s == env.claims) then ETERNAL_APPROVAL_VALUE else Allowance(t, o, s)
  {
    hide Total;
    ApproveExact(t, m, env.completeSets, ETERNAL_APPROVAL_VALUE);
    ApproveExact(Approve(t, m, env.completeSets, ETERNAL_APPROVAL_VALUE), m, env.claims, ETERNAL_APPROVAL_VALUE);
  }

  lemma ReapprovalKeepsConsistent(env: Deployment, w: World, s: Stack, m: Address)
    requires Consistent(env, w, s) && m in w.pools
    ensures var w' := w.(denom := ApproveTraders(env, w.denom, m));
            Consistent(env, w', s) && Extends(w, w')
  {
    hide Balanced, Conserved, ApproveTraders, FramesFit, LocksAgree;
    var w' := w.(denom := ApproveTraders(env, w.denom, m));
    BooksUntouched(w, s, w', s) by { TradersApproved(env, w.denom, m); }
    StackStillFits(w, w', s);
    TradersApproved(env, w.denom, m);
    forall k | k in w.pools
      ensures OnlyTradersApproved(env, ApproveTraders(env, w.denom, m), k)
    {
      assert OnlyTradersApproved(env, w.denom, k);
    }
  }

  lemma NewMarketKeepsConsistent(env: Deployment, w: World, s: Stack, terms: Terms, m: Address, mailbox: Address)
    requires Consistent(env, w, s) && AcceptableTerms(terms, w.now)
    requires Fresh(env, w, m) && Fresh(env, w, mailbox) && m != mailbox
    ensures var w' := Update(w, m, NewMarket(m, mailbox, terms), NewLedger(w.denom, m, terms.numOutcomes))
                        .(denom := ApproveTraders(env, w.denom, m));
            Consistent(env, w', s) && Extends(w, w')
  {
    hide Balanced, Total, ApproveTraders;
    var w' := Update(w, m, NewMarket(m, mailbox, terms), NewLedger(w.denom, m, terms.numOutcomes))
                .(denom := ApproveTraders(env, w.denom, m));
    TradersApproved(env, w.denom, m);
    NothingPendingElsewhere(w, s, m);
    NewBooks(m, mailbox, terms, NewLedger(w.denom, m, terms.numOutcomes));
    forall k | k in w'.pools
      ensures PoolBalanced(w', s, k)
    {
      if k != m {
        assert PoolBalanced(w, s, k);
      }
    }
    forall k | k in w'.pools
      ensures OnlyTradersApproved(env, w'.denom, k)
    {
      if k == m {
        forall spender
          ensures Allowance(w.denom, m, spender) == 0
        {
          assert (m, spender) !in w.denom.allowed;
        }
      } else {
        assert OnlyTradersApproved(env, w.denom, k);
      }
    }
    StackStillFits(w, w', s);
  }

  lemma NewBooks(m: Address, mailbox: Address, terms: Terms, l: Ledger)
    requires WellFormedTerms(terms)
    requires l == Ledger(0, 0, seq(terms.numOutcomes, _ => 0), l.donated, 0, 0, 0, 0)
    ensures Balanced(Pool(NewMarket(m, mailbox, terms), l), l.donated, 0, 0, 0)
  {
    var p := Pool(NewMarket(m, mailbox, terms), l);
    assert Conserved(EMPTY_TOKEN);
    assert SuppliesAgree(p);
    assert PhasesAgree(p);
    assert FeesAgree(p, 0, 0);
  }

  lemma ShareCallKeepsBalanced(p: Pool, balance: nat, net: nat, fee: nat, unminted: nat, i: nat, c: Call)
    requires Balanced(p, balance, net, fee, unminted) && i < |p.market.shares| && !c.CallMint? && !c.CallBurn?
    ensures Balanced(p.(market := p.market.(shares := p.market.shares[i := Perform(p.market.shares[i], c)])), balance, net, fee, unminted)
  {
    hide Total, Perform, Acceptable, DotTo;
    var t := p.market.shares[i];
    PerformConserves(t, c);
    MovesKeepSupply(t, c);
    var p' := p.(market := p.market.(shares := p.market.shares[i := Perform(t, c)]));
    assert SuppliesAgree(p');
    assert PhasesAgree(p');
  }

  lemma MovesKeepSupply(t: Token, c: Call)
    requires !c.CallMint? && !c.CallBurn?
    ensures Perform(t, c).supply == t.supply
  {
  }

  lemma ResolveOnce(mk: Market, now: uint256, sender: Address, payouts: seq<uint256>, invalid: bool)
    requires mk.terms.numOutcomes > 0 && Resolve(mk, now, sender, payouts, invalid).Commit?
    ensures SameMarket(mk, Resolve(mk, now, sender, payouts, invalid).value)
  {
  }

  lemma ElsewhereKeepsConsistent(env: Deployment, w: World, s: Stack, act: Action)
    requires Consistent(env, w, s)
    ensures var w' := Elsewhere(env, w, act);
            Consistent(env, w', s) && Extends(w, w')
  {
    hide Balanced, Conserved, Wired, AllBalanced, Extends, FramesFit, LocksAgree, Perform, ApproveTraders, Fresh, AcceptableTerms, Resolve, Inflow;
    var w' := Elsewhere(env, w, act);
    match act
    case DenominationCall(c) =>
      if Issuable(env, w, c) { DenominationCallKeepsConsistent(env, w, s, c); } else { NothingMoves(env, w, w, s); }
    case ShareCall(m, i, c) =>
      if m in w.pools && i < |w.pools[m].market.shares| && !c.CallMint? && !c.CallBurn? {
        assert PoolBalanced(w, s, m) by { BalancedAt(w, s, m); }
        ShareCallKeepsBalanced(w.pools[m], Bal(w.denom, m), OwedNet(s, m), OwedFee(s, m), Unminted(s, m), i, c);
        MarketReplaced(env, w, s, w', s, m);
        StackStillFits(w, w', s);
      } else {
        NothingMoves(env, w, w, s);
      }
    case CreateMarket(terms, m, mailbox) =>
      if !w.stopped && AcceptableTerms(terms, w.now) && Fresh(env, w, m) && Fresh(env, w, mailbox) && m != mailbox {
        NewMarketKeepsConsistent(env, w, s, terms, m, mailbox);
      } else {
        NothingMoves(env, w, w, s);
      }
    case ApproveSpenders(m) =>
      if Callable(w, m) {
        ReapprovalKeepsConsistent(env, w, s, m);
      } else {
        NothingMoves(env, w, w, s);
      }
    case ResolveMarket(sender, m, payouts, invalid) =>
      if Callable(w, m) && w.pools[m].market.terms.numOutcomes > 0
         && Resolve(w.pools[m].market, w.now, sender, payouts, invalid).Commit? {
        assert PoolBalanced(w, s, m) by { BalancedAt(w, s, m); }
        ResolveBooks(w.pools[m], Bal(w.denom, m), OwedNet(s, m), OwedFee(s, m), Unminted(s, m), w.now, sender, payouts, invalid);
        ResolveOnce(w.pools[m].market, w.now, sender, payouts, invalid);
        MarketReplaced(env, w, s, w', s, m);
        StackStillFits(w, w', s);
      } else {
        NothingMoves(env, w, w, s);
      }
    case _ =>
      NothingMoves(env, w, w', s);
  }

  lemma NothingMoves(env: Deployment, w: World, w': World, s: Stack)
    requires Consistent(env, w, s) && w' == w.(now := w'.now, stopped := w'.stopped) && (w.stopped ==> w'.stopped)
    ensures Consistent(env, w', s) && Extends(w, w')
  {
    hide Balanced, Conserved, OnlyTradersApproved, FramesFit, LocksAgree;
    BooksUntouched(w, s, w', s);
    StillWired(env, w, w');
    StackStillFits(w, w', s);
  }

  // ---- Runs ----

  lemma StepKeepsInv(env: Deployment, st: State, act: Action)
    requires Inv(env, st.world, st.stack)
    ensures Inv(env, Step(env, st, act).world, Step(env, st, act).stack)
  {
    hide Consistent, Elsewhere, Resume, Begin;
    match act
    case Throw =>
    case Continue =>
      if st.stack.Push? && Resume(env, st.world, st.stack.frame).Commit? {
        ResumeKeepsConsistent(env, st.world, st.stack);
      }
    case _ =>
      if Begin(st.world, act).Commit? && Begin(st.world, act).value.Running? {
        BeginKeepsConsistent(env, st.world, st.stack, act);
      } else {
        ElsewhereKeepsConsistent(env, st.world, st.stack, act);
      }
  }

  /** Every reachable world, and every world a suspended call may fall back to, is consistent. */
  lemma {:induction false} ReachableInv(env: Deployment, st: State, acts: seq<Action>)
    requires Inv(env, st.world, st.stack)
    ensures Inv(env, Run(env, st, acts).world, Run(env, st, acts).stack)
    decreases |acts|
  {
    hide Inv, Step;
    if acts != [] {
      var before := acts[..|acts| - 1];
      ReachableInv(env, st, before);
      StepKeepsInv(env, Run(env, st, before), acts[|acts| - 1]);
    }
  }

  lemma GenesisInv(env: Deployment, denom: Token, now: uint256)
    requires DistinctDeployment(env) && Conserved(denom)
    ensures Inv(env, Genesis(denom, now).world, Genesis(denom, now).stack)
  {
  }
}
