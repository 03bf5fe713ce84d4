/**
 * Runs from a market's creation on that end where the code is not what one might expect. They are
 * built from a few kinds of episodes, each of which is said to do what the general theorems say.
 */
module Witnesses {
  import opened Transactions
  import opened Words
  import opened Storage
  import opened Vectors
  import opened Addresses
  import opened TokenModel
  import opened MarketModel
  import opened Trading
  import opened Protocol
  import opened Invariant
  import opened Redemption
  import opened Confluence
  import opened SetTrading
  import opened Uninterrupted
  import opened Solvency

  const ENV := Deployment(Address(1), Address(2), Address(3))
  const MARKET := Address(4)
  const MAILBOX := Address(5)
  const ALICE := Address(6)
  const BOB := Address(7)
  const ORACLE := Address(8)

  /** Alice has all the tokens, and lets AugurLite move them. */
  function Funded(v: uint256): Token
    requires v > 0
  {
    Token(map[ALICE := v], v, map[(ALICE, ENV.augurLite) := MAX_UINT256])
  }

  /** A market without fees that ends at time 1. */
  function FreeTerms(outcomes: uint256, ticks: uint256): Terms {
    Terms(outcomes, ticks, 0, 1, ORACLE, ALICE)
  }

  // ---- Episodes ----

  function Creating(terms: Terms): seq<Action> {
    [CreateMarket(terms, MARKET, MAILBOX)]
  }

  function Buying(sets: uint256): seq<Action> {
    [CallBuy(ALICE, MARKET, sets)] + Continues(2)
  }

  function Giving(outcome: nat, to: Address, v: uint256): seq<Action> {
    [ShareCall(MARKET, outcome, CallTransfer(ALICE, to, v))]
  }

  function Resolving(payouts: seq<uint256>, invalid: bool): seq<Action> {
    [SetTime(2), ResolveMarket(ORACLE, MARKET, payouts, invalid), SetTime(3)]
  }

  /** Alice's claim on a market of two outcomes. */
  function Claiming(): seq<Action> {
    [CallClaim(MARKET, ALICE)] + Continues(7)
  }

  /** The market between two transactions. */
  ghost predicate Idle(st: State, now: uint256, terms: Terms) {
    && st.stack.Empty? && Consistent(ENV, st.world, Empty) && Callable(st.world, MARKET) && st.world.now == now
    && !st.world.setsLocked && !st.world.claimsLocked
    && var mk := st.world.pools[MARKET].market;
    && mk.self == MARKET && mk.mailbox == MAILBOX && mk.terms == terms && |mk.shares| == terms.numOutcomes
    && Allowance(st.world.denom, ALICE, ENV.augurLite) == ETERNAL_APPROVAL_VALUE
  }

  lemma SingleHolder(a: Address, v: uint256)
    requires v > 0
    ensures Total(map[a := v]) == v
  {
    var m: Mapping<Address> := map[a := v];
    TotalSplit(m, a);
    assert m - {a} == map[];
  }

  lemma FundedConserved(v: uint256)
    requires v > 0
    ensures Conserved(Funded(v))
  {
    SingleHolder(ALICE, v);
  }

  lemma Created(v: uint256, terms: Terms)
    requires v > 0 && AcceptableTerms(terms, 0)
    ensures var st := Run(ENV, Genesis(Funded(v), 0), Creating(terms));
            && Idle(st, 0, terms)
            && Bal(st.world.denom, ALICE) == v && Bal(st.world.denom, MARKET) == 0
            && var mk := st.world.pools[MARKET].market;
            !Resolved(mk) && forall i | 0 <= i < |mk.shares| :: mk.shares[i] == EMPTY_TOKEN
  {
    hide Consistent, Inv, Conserved;
    var d := Funded(v);
    FundedConserved(v);
    GenesisInv(ENV, d, 0);
    ReachableInv(ENV, Genesis(d, 0), Creating(terms));
    InvIsConsistent(Run(ENV, Genesis(d, 0), Creating(terms)));
    assert Creating(terms)[..0] == [];
    assert Run(ENV, Genesis(d, 0), Creating(terms)[..0]) == Genesis(d, 0);
    ApproveExact(d, MARKET, ENV.completeSets, ETERNAL_APPROVAL_VALUE);
    ApproveExact(Approve(d, MARKET, ENV.completeSets, ETERNAL_APPROVAL_VALUE), MARKET, ENV.claims, ETERNAL_APPROVAL_VALUE);
    assert Allowance(d, ALICE, ENV.augurLite) == MAX_UINT256;
  }

  lemma InvIsConsistent(st: State)
    requires Inv(ENV, st.world, st.stack)
    ensures Consistent(ENV, st.world, st.stack)
  {
  }

  lemma StaysConsistent(st: State, acts: seq<Action>)
    requires st.stack.Empty? && Consistent(ENV, st.world, Empty)
    ensures Consistent(ENV, Run(ENV, st, acts).world, Run(ENV, st, acts).stack)
  {
    hide Consistent, Run;
    assert Inv(ENV, st.world, st.stack);
    ReachableInv(ENV, st, acts);
    InvIsConsistent(Run(ENV, st, acts));
  }

  lemma Bought(st: State, now: uint256, terms: Terms, sets: uint256)
    requires Idle(st, now, terms)
    requires var mk := st.world.pools[MARKET].market;
             0 < Price(mk, sets) <= Bal(st.world.denom, ALICE) && SetsFit(mk, sets)
    ensures var mk := st.world.pools[MARKET].market;
            var st' := Run(ENV, st, Buying(sets));
            && Idle(st', now, terms)
            && var mk' := st'.world.pools[MARKET].market;
            && mk' == mk.(shares := mk'.shares)
            && MintAll(mk.shares, ALICE, sets) == Commit(mk'.shares)
            && forall a :: Bal(st'.world.denom, a) == Bal(st.world.denom, a) + Moved(a, ALICE, MARKET, Price(mk, sets))
  {
    hide Consistent, Run, Alone, Buy, SetsFit, MintAll, Price, Rank, Begin, InBalance, Moved;
    var w := st.world;
    var p := w.pools[MARKET];
    InBalanceAt(ENV, w, Empty, MARKET);
    assert CanPay(ENV, w.denom, ALICE, Price(p.market, sets));
    BuyExact(ENV, w.denom, p, 0, 0, 0, ALICE, sets);
    BuyAlone(ENV, w, Empty, ALICE, MARKET, sets);
    PurchaseBegins(w, sets);
    AloneFromIdle(ENV, w, CallBuy(ALICE, MARKET, sets), 2);
    StaysConsistent(st, Buying(sets));
    PurchaseKeepsAllowances(w.denom, p.market, sets);
  }

  lemma PurchaseBegins(w: World, sets: uint256)
    ensures var r := Begin(w, CallBuy(ALICE, MARKET, sets));
            r.Commit? ==> r.value.Running? && Rank(r.value.world, r.value.frame) <= 2
  {
  }

  lemma PurchaseKeepsAllowances(d: Token, mk: Market, sets: uint256)
    requires Buy(ENV, d, mk, ALICE, sets).Commit? && Allowance(d, ALICE, ENV.augurLite) == ETERNAL_APPROVAL_VALUE
    ensures Buy(ENV, d, mk, ALICE, sets).value.0.allowed == d.allowed
  {
    hide MintAll, Covered;
  }

  lemma OneStep(st: State, act: Action)
    ensures Run(ENV, st, [act]) == Step(ENV, st, act)
  {
    assert [act][..0] == [];
    assert Run(ENV, st, [act][..0]) == st;
  }

  lemma Given(st: State, now: uint256, terms: Terms, i: nat, to: Address, v: uint256)
    requires Idle(st, now, terms) && i < terms.numOutcomes && v <= Bal(st.world.pools[MARKET].market.shares[i], ALICE)
    ensures var mk := st.world.pools[MARKET].market;
            var st' := Run(ENV, st, Giving(i, to, v));
            && Idle(st', now, terms) && st'.world.denom == st.world.denom
            && var t := Transfer(mk.shares[i], ALICE, to, v);
            && t.Commit? && st'.world.pools[MARKET].market == mk.(shares := mk.shares[i := t.value])
  {
    hide Consistent, Inv, Transfer, Conserved;
    OneStep(st, ShareCall(MARKET, i, CallTransfer(ALICE, to, v)));
    StaysConsistent(st, Giving(i, to, v));
    assert Conserved(st.world.pools[MARKET].market.shares[i]) by { SharesConserved(st.world, i); }
    TransferExact(st.world.pools[MARKET].market.shares[i], ALICE, to, v);
  }

  lemma SharesConserved(w: World, i: nat)
    requires Consistent(ENV, w, Empty) && MARKET in w.pools && i < |w.pools[MARKET].market.shares|
    ensures Conserved(w.pools[MARKET].market.shares[i])
  {
    hide Consistent, Conserved, InBalance;
    InBalanceAt(ENV, w, Empty, MARKET);
    SharesInBalance(ENV, w.denom, w.pools[MARKET], 0, 0, 0);
  }

  lemma Ended(st: State, now: uint256, outcomes: uint256, ticks: uint256, payouts: seq<uint256>, invalid: bool)
    requires outcomes > 0 && Idle(st, now, FreeTerms(outcomes, ticks)) && !Resolved(st.world.pools[MARKET].market)
    requires Acceptable(payouts, invalid, FreeTerms(outcomes, ticks))
    ensures var mk := st.world.pools[MARKET].market;
            var st' := Run(ENV, st, Resolving(payouts, invalid));
            && Idle(st', 3, FreeTerms(outcomes, ticks)) && st'.world.denom == st.world.denom
            && st'.world.pools[MARKET].market == mk.(resolutionTime := 2, payouts := payouts, invalid := invalid)
  {
    hide Consistent, Inv, Acceptable;
    StaysConsistent(st, Resolving(payouts, invalid));
    assert Resolving(payouts, invalid)
        == [SetTime(2)] + ([ResolveMarket(ORACLE, MARKET, payouts, invalid)] + [SetTime(3)]);
    RunAppend(ENV, st, [SetTime(2)], [ResolveMarket(ORACLE, MARKET, payouts, invalid)] + [SetTime(3)]);
    OneStep(st, SetTime(2));
    var st1 := Step(ENV, st, SetTime(2));
    RunAppend(ENV, st1, [ResolveMarket(ORACLE, MARKET, payouts, invalid)], [SetTime(3)]);
    OneStep(st1, ResolveMarket(ORACLE, MARKET, payouts, invalid));
    var st2 := Step(ENV, st1, ResolveMarket(ORACLE, MARKET, payouts, invalid));
    OneStep(st2, SetTime(3));
  }

  lemma Claimed(st: State, now: uint256, ticks: uint256)
    requires Idle(st, now, FreeTerms(2, ticks))
    requires Resolved(st.world.pools[MARKET].market) && now > st.world.pools[MARKET].market.resolutionTime
    ensures var mk := st.world.pools[MARKET].market;
            var st' := Run(ENV, st, Claiming());
            && |mk.payouts| == |mk.shares|
            && Idle(st', now, FreeTerms(2, ticks))
            && st'.world.pools[MARKET].market == AfterClaim(mk, ALICE)
            && Redeems(st.world.denom, st'.world.denom, mk, ALICE, GrossFrom(mk, ALICE, 0), FeesFrom(mk, ALICE, 0))
  {
    hide Consistent, Run, Alone, Claim, InBalance, Redeemable, Rank, Begin, GrossFrom, FeesFrom, ClearedFrom, LogFits;
    var w := st.world;
    var mk := w.pools[MARKET].market;
    InBalanceAt(ENV, w, Empty, MARKET);
    InBalanceRedeemable(ENV, w.denom, w.pools[MARKET], 0, 0, 0);
    RedeemableShape(ENV, w.denom, mk);
    ClaimExact(ENV, w.denom, mk, now, ALICE);
    ClaimAlone(ENV, w, Empty, MARKET, ALICE);
    ClaimBegins(w);
    AloneFromIdle(ENV, w, CallClaim(MARKET, ALICE), 7);
    StaysConsistent(st, Claiming());
  }

  lemma ClaimBegins(w: World)
    requires MARKET in w.pools && |w.pools[MARKET].market.shares| == 2
    ensures var r := Begin(w, CallClaim(MARKET, ALICE));
            r.Commit? ==> r.value.Running? && Rank(r.value.world, r.value.frame) <= 7
  {
  }

  // ---- Runs ----

  /** Alice buys sets of a new market, gives the market some of her shares of the first outcome, and it is resolved. */
  function Story(terms: Terms, sets: uint256, gift: uint256, payouts: seq<uint256>, invalid: bool): seq<Action> {
    Creating(terms) + (Buying(sets) + (Giving(0, MARKET, gift) + Resolving(payouts, invalid)))
  }

  /** The state such a story ends in. */
  ghost predicate Settled(st: State, outcomes: uint256, ticks: uint256, sets: uint256, gift: uint256,
                          payouts: seq<uint256>, invalid: bool) {
    && Idle(st, 3, FreeTerms(outcomes, ticks))
    && Bal(st.world.denom, ALICE) == 0 && Bal(st.world.denom, MARKET) == sets * ticks
    && var mk := st.world.pools[MARKET].market;
    && mk.resolutionTime == 2 && mk.payouts == payouts && mk.invalid == invalid
    && forall i | 0 <= i < outcomes ::
         && mk.shares[i].supply == sets
         && Bal(mk.shares[i], ALICE) == (if i == 0 then sets - gift else sets)
         && Bal(mk.shares[i], MARKET) == (if i == 0 then gift else 0)
  }

  lemma FirstMint(t: Token, v: uint256)
    requires Mint(EMPTY_TOKEN, ALICE, v) == Commit(t)
    ensures Conserved(t) && t.supply == v && forall a :: Bal(t, a) == if a == ALICE then v else 0
  {
    assert Conserved(EMPTY_TOKEN);
    MintExact(EMPTY_TOKEN, ALICE, v);
  }

  lemma FirstMints(shares: seq<Token>, minted: seq<Token>, v: uint256)
    requires MintAll(shares, ALICE, v) == Commit(minted) && forall i | 0 <= i < |shares| :: shares[i] == EMPTY_TOKEN
    ensures |minted| == |shares|
    ensures forall i | 0 <= i < |minted| ::
              Conserved(minted[i]) && minted[i].supply == v && forall a :: Bal(minted[i], a) == if a == ALICE then v else 0
  {
    hide Conserved, Mint;
    forall i | 0 <= i < |minted|
      ensures Conserved(minted[i]) && minted[i].supply == v && forall a :: Bal(minted[i], a) == if a == ALICE then v else 0
    {
      FirstMint(minted[i], v);
    }
  }

  lemma StoryEndsSettled(outcomes: uint256, ticks: uint256, sets: uint256, gift: uint256, payouts: seq<uint256>, invalid: bool)
    requires AcceptableTerms(FreeTerms(outcomes, ticks), 0) && Acceptable(payouts, invalid, FreeTerms(outcomes, ticks))
    requires 0 < sets && 0 < sets * ticks < TWO_256 && gift <= sets
    ensures Conserved(Funded(sets * ticks))
    ensures Settled(Reached(ENV, Funded(sets * ticks), 0, Story(FreeTerms(outcomes, ticks), sets, gift, payouts, invalid)),
                    outcomes, ticks, sets, gift, payouts, invalid)
  {
    hide Run, Idle, Transfer, Conserved, MintAll, Acceptable;
    var terms := FreeTerms(outcomes, ticks);
    var st0 := Genesis(Funded(sets * ticks), 0);
    FundedConserved(sets * ticks);
    Created(sets * ticks, terms);
    var st1 := Run(ENV, st0, Creating(terms));
    Idles(st1, 0, terms);
    Bought(st1, 0, terms, sets);
    var st2 := Run(ENV, st1, Buying(sets));
    Idles(st2, 0, terms);
    var shares := st2.world.pools[MARKET].market.shares;
    FirstMints(st1.world.pools[MARKET].market.shares, shares, sets);
    Given(st2, 0, terms, 0, MARKET, gift);
    TransferExact(shares[0], ALICE, MARKET, gift);
    var st3 := Run(ENV, st2, Giving(0, MARKET, gift));
    Idles(st3, 0, terms);
    Ended(st3, 0, outcomes, ticks, payouts, invalid);
    RunAppend(ENV, st0, Creating(terms), Buying(sets) + (Giving(0, MARKET, gift) + Resolving(payouts, invalid)));
    RunAppend(ENV, st1, Buying(sets), Giving(0, MARKET, gift) + Resolving(payouts, invalid));
    RunAppend(ENV, st2, Giving(0, MARKET, gift), Resolving(payouts, invalid));
    Idles(Run(ENV, st3, Resolving(payouts, invalid)), 3, terms);
  }

  lemma Idles(st: State, now: uint256, terms: Terms)
    requires Idle(st, now, terms)
    ensures MARKET in st.world.pools && |st.world.pools[MARKET].market.shares| == terms.numOutcomes
    ensures st.world.pools[MARKET].market.terms == terms
  {
  }

  lemma GrossOfTwo(mk: Market, h: Address)
    requires |mk.shares| == |mk.payouts| == 2
    ensures GrossFrom(mk, h, 0) == Bal(mk.shares[0], h) * mk.payouts[0] + Bal(mk.shares[1], h) * mk.payouts[1]
    ensures mk.terms.feeDivisor == 0 ==> FeesFrom(mk, h, 0) == 0
  {
    assert GrossFrom(mk, h, 2) == 0 && FeesFrom(mk, h, 2) == 0;
    assert GrossFrom(mk, h, 1) == Gross(mk, h, 1);
  }

  /** What it takes to log a claim for all of the first outcome's shares when only that outcome pays, and no fees. */
  lemma LogOfFirst(mk: Market, h: Address, balance: int)
    requires |mk.shares| == |mk.payouts| == 2 && mk.payouts == [2, 0] && mk.terms.feeDivisor == 0
    requires 0 < Bal(mk.shares[0], h) && Bal(mk.shares[1], h) == 0
    ensures LogFits(mk, h, balance, 0) <==> balance + Bal(mk.shares[0], h) * 2 < TWO_256
  {
    assert FeeOn(mk, Gross(mk, h, 0)) == 0;
    assert LogFits(mk, h, balance, 1) by {
      assert Bal(mk.shares[1], h) == 0;
      assert LogFits(mk, h, balance - FeeOn(mk, Gross(mk, h, 1)), 2);
    }
  }

  lemma TwoOutcomes(sets: uint256, gift: uint256)
    requires 0 < gift <= sets && sets * 2 < TWO_256
    ensures Conserved(Funded(sets * 2))
    ensures Settled(Reached(ENV, Funded(sets * 2), 0, Story(FreeTerms(2, 2), sets, gift, [2, 0], false)), 2, 2, sets, gift, [2, 0], false)
  {
    assert SumTo([2, 0], 1) == 2;
    assert Sum([2, 0]) == 2;
    StoryEndsSettled(2, 2, sets, gift, [2, 0], false);
  }

  /** The one holder a claim can fail for: a market that was sent shares of itself that are worth too much to be added
      to what is in its escrow. */
  lemma MarketClaimCanFail()
    ensures var half: uint256 := TWO_255 / 2;
            var w := Reached(ENV, Funded(TWO_255), 0, Story(FreeTerms(2, 2), half, half, [2, 0], false)).world;
            && Callable(w, MARKET) && !w.claimsLocked
            && Resolved(w.pools[MARKET].market) && w.now > w.pools[MARKET].market.resolutionTime
            && Alone(ENV, w, CallClaim(MARKET, MARKET)).Revert?
  {
    hide Reached, Alone, LogFits, Redeems, Conserved, Consistent;
    var half: uint256 := TWO_255 / 2;
    TwoOutcomes(half, half);
    var acts := Story(FreeTerms(2, 2), half, half, [2, 0], false);
    var w := Reached(ENV, Funded(TWO_255), 0, acts).world;
    LogOfFirst(w.pools[MARKET].market, MARKET, Bal(w.denom, MARKET));
    SharesCanAlwaysBeClaimed(ENV, Funded(TWO_255), 0, acts, MARKET, MARKET);
  }

  /** The order of claims can matter when the market is a holder: here its claim fails if it is the first, and goes
      through after Alice's. */
  lemma MarketCanClaimTooEarly()
    ensures var v: uint256 := TWO_256 / 32;
            var w := Reached(ENV, Funded(24 * v), 0, Story(FreeTerms(2, 2), 12 * v, 7 * v, [2, 0], false)).world;
            && Callable(w, MARKET)
            && ClaimAll(ENV, w.denom, w.pools[MARKET].market, w.now, [MARKET, ALICE]).Revert?
            && ClaimAll(ENV, w.denom, w.pools[MARKET].market, w.now, [ALICE, MARKET]).Commit?
  {
    hide Reached, ClaimAll, LogFits, Redeemable, Conserved, Consistent, InBalance, MarketTurnFits, GrossFrom, AfterClaims, Payments;
    var v: uint256 := TWO_256 / 32;
    TwoOutcomes(12 * v, 7 * v);
    var st := Reached(ENV, Funded(24 * v), 0, Story(FreeTerms(2, 2), 12 * v, 7 * v, [2, 0], false));
    var w := st.world;
    var mk := w.pools[MARKET].market;
    InBalanceAt(ENV, w, Empty, MARKET);
    InBalanceRedeemable(ENV, w.denom, w.pools[MARKET], 0, 0, 0);
    ClaimAllExact(ENV, w.denom, mk, w.now, [MARKET, ALICE]);
    ClaimAllExact(ENV, w.denom, mk, w.now, [ALICE, MARKET]);
    var b := Bal(w.denom, MARKET);
    MarketTurn(mk, [], [ALICE], b);
    MarketTurn(mk, [ALICE], [], b);
    assert [] + [MARKET] + [ALICE] == [MARKET, ALICE] && [ALICE] + [MARKET] + [] == [ALICE, MARKET];
    GrossOfTwo(mk, ALICE);
    assert Released(mk, []) == 0 && Released(mk, [ALICE]) == GrossFrom(mk, ALICE, 0);
    LogOfFirst(mk, MARKET, b);
    LogOfFirst(mk, MARKET, b - 10 * v);
  }

  /** A complete set of an invalid market of three outcomes and 10000 ticks costs and sells for 10000, and claims 9999. */
  lemma InvalidSetClaimsLess()
    ensures var w := Reached(ENV, Funded(10000), 0, Story(FreeTerms(3, 10000), 1, 0, [3333, 3333, 3333], true)).world;
            var claimed := Alone(ENV, w, CallClaim(MARKET, ALICE));
            var sold := Alone(ENV, w, CallSell(ALICE, MARKET, 1));
            && MARKET in w.pools && Price(w.pools[MARKET].market, 1) == 10000 && Bal(w.denom, ALICE) == 0
            && claimed.Commit? && Bal(claimed.value.denom, ALICE) == 9999
            && sold.Commit? && Bal(sold.value.denom, ALICE) == 10000
  {
    hide Reached, Alone, LogFits, Conserved, Consistent, GrossFrom, FeesFrom, ClearedFrom, BurnAll;
    var acts := Story(FreeTerms(3, 10000), 1, 0, [3333, 3333, 3333], true);
    StoryEndsSettled(3, 10000, 1, 0, [3333, 3333, 3333], true);
    var w := Reached(ENV, Funded(10000), 0, acts).world;
    var mk := w.pools[MARKET].market;
    SharesCanAlwaysBeClaimed(ENV, Funded(10000), 0, acts, MARKET, ALICE);
    SetsCanAlwaysBeSold(ENV, Funded(10000), 0, acts, MARKET, ALICE, 1);
    GrossOfThree(mk, ALICE);
  }

  lemma GrossOfThree(mk: Market, h: Address)
    requires |mk.shares| == |mk.payouts| == 3 && mk.terms.feeDivisor == 0
    ensures GrossFrom(mk, h, 0) == Gross(mk, h, 0) + (Gross(mk, h, 1) + Gross(mk, h, 2))
    ensures FeesFrom(mk, h, 0) == 0
  {
    assert GrossFrom(mk, h, 3) == 0 && FeesFrom(mk, h, 3) == 0;
    assert GrossFrom(mk, h, 2) == Gross(mk, h, 2) && FeesFrom(mk, h, 2) == 0;
    assert GrossFrom(mk, h, 1) == Gross(mk, h, 1) + Gross(mk, h, 2) && FeesFrom(mk, h, 1) == 0;
  }

  // ---- A purchase that overflows ----

  /** Alice gives her shares of the losing outcome away and claims for those of the winning one. */
  function Recycling(sets: uint256): seq<Action> {
    Giving(1, BOB, sets) + Claiming()
  }

  /** In a market that pays all to the first outcome Alice holds `mine` shares of each and has `tokens`, all there are of
      the first; of the second there are `losers`. */
  ghost predicate Holding(st: State, tokens: nat, mine: nat, losers: nat) {
    && Idle(st, 3, FreeTerms(2, 2)) && Bal(st.world.denom, ALICE) == tokens
    && var mk := st.world.pools[MARKET].market;
    && mk.resolutionTime == 2 && mk.payouts == [2, 0]
    && mk.shares[0].supply == mine == Bal(mk.shares[0], ALICE)
    && mk.shares[1].supply == losers && Bal(mk.shares[1], ALICE) == mine
  }

  lemma Recycled(st: State, sets: uint256, losers: nat)
    requires Holding(st, 0, sets, losers)
    ensures Holding(Run(ENV, st, Recycling(sets)), sets * 2, 0, losers)
  {
    hide Run, Idle, Transfer, Conserved, LogFits, GrossFrom, FeesFrom;
    var terms := FreeTerms(2, 2);
    Idles(st, 3, terms);
    var shares := st.world.pools[MARKET].market.shares;
    assert st.stack.Empty? && Consistent(ENV, st.world, Empty) by { IdleIsConsistent(st, 3, terms); }
    forall i | 0 <= i < 2
      ensures Conserved(shares[i])
    {
      SharesConserved(st.world, i);
    }
    Given(st, 3, terms, 1, BOB, sets);
    TransferExact(shares[1], ALICE, BOB, sets);
    var st1 := Run(ENV, st, Giving(1, BOB, sets));
    Idles(st1, 3, terms);
    Claimed(st1, 3, 2);
    var mk1 := st1.world.pools[MARKET].market;
    GrossOfTwo(mk1, ALICE);
    ClearedIsBurned(mk1.shares[0], ALICE);
    ClearedIsBurned(mk1.shares[1], ALICE);
    Idles(Run(ENV, st1, Claiming()), 3, terms);
    MailboxApart(st1, 3, terms);
    RunAppend(ENV, st, Giving(1, BOB, sets), Claiming());
  }

  lemma IdleIsConsistent(st: State, now: uint256, terms: Terms)
    requires Idle(st, now, terms)
    ensures st.stack.Empty? && Consistent(ENV, st.world, Empty)
  {
  }

  lemma MailboxApart(st: State, now: uint256, terms: Terms)
    requires Idle(st, now, terms)
    ensures st.world.pools[MARKET].market.mailbox == MAILBOX && st.world.pools[MARKET].market.self == MARKET
  {
  }

  lemma BoughtAgain(st: State, sets: uint256, losers: nat)
    requires 0 < sets && sets * 2 < TWO_256 && losers + sets < TWO_256
    requires Holding(st, sets * 2, 0, losers)
    ensures Holding(Run(ENV, st, Buying(sets)), 0, sets, losers + sets)
  {
    hide Run, Idle, Conserved, Mint;
    var terms := FreeTerms(2, 2);
    Idles(st, 3, terms);
    IdleIsConsistent(st, 3, terms);
    var shares := st.world.pools[MARKET].market.shares;
    Bought(st, 3, terms, sets);
    Idles(Run(ENV, st, Buying(sets)), 3, terms);
    forall i | 0 <= i < 2
      ensures Conserved(shares[i])
    {
      SharesConserved(st.world, i);
    }
    MintExact(shares[0], ALICE, sets);
    MintExact(shares[1], ALICE, sets);
  }

  /** Almost half of the sets there can be: they cost all the tokens there can be but one. */
  const MANY: uint256 := TWO_255 - 1

  function Overflowing(): seq<Action> {
    Story(FreeTerms(2, 2), MANY, 0, [2, 0], false) + (Recycling(MANY) + (Buying(MANY) + Recycling(MANY)))
  }

  /** After resolution a purchase that is paid for can fail: the shares of an outcome that pays nothing need not be
      redeemed, and add up. */
  lemma PurchaseCanFail()
    ensures var w := Reached(ENV, Funded(MANY * 2), 0, Overflowing()).world;
            && Callable(w, MARKET) && !w.setsLocked && Resolved(w.pools[MARKET].market)
            && CanPay(ENV, w.denom, ALICE, Price(w.pools[MARKET].market, MANY))
            && Alone(ENV, w, CallBuy(ALICE, MARKET, MANY)).Revert?
  {
    hide Run, Conserved, Consistent, Buy, Alone, InBalance;
    var acts := Story(FreeTerms(2, 2), MANY, 0, [2, 0], false);
    assert SumTo([2, 0], 1) == 2;
    assert Sum([2, 0]) == 2;
    StoryEndsSettled(2, 2, MANY, 0, [2, 0], false);
    var st0 := Genesis(Funded(MANY * 2), 0);
    var st1 := Run(ENV, st0, acts);
    Recycled(st1, MANY, MANY);
    var st2 := Run(ENV, st1, Recycling(MANY));
    BoughtAgain(st2, MANY, MANY);
    var st3 := Run(ENV, st2, Buying(MANY));
    Recycled(st3, MANY, MANY + MANY);
    var st4 := Run(ENV, st3, Recycling(MANY));
    RunAppend(ENV, st0, acts, Recycling(MANY) + (Buying(MANY) + Recycling(MANY)));
    RunAppend(ENV, st1, Recycling(MANY), Buying(MANY) + Recycling(MANY));
    RunAppend(ENV, st2, Buying(MANY), Recycling(MANY));
    assert !SetsFit(st4.world.pools[MARKET].market, MANY);
    InBalanceAt(ENV, st4.world, Empty, MARKET);
    BuyExact(ENV, st4.world.denom, st4.world.pools[MARKET], 0, 0, 0, ALICE, MANY);
    BuyAlone(ENV, st4.world, Empty, ALICE, MARKET, MANY);
  }
}
