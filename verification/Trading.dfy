/**
 * What one uninterrupted call to CompleteSets or ClaimTradingProceeds does to the denomination
 * token and the market it is called for: their new states, or a revert.
 */
module Trading {
  import opened Transactions
  import opened Words
  import opened SafeMathUint256
  import opened Addresses
  import opened TokenModel
  import opened MarketModel

  /** The addresses of the deployed contracts that move denomination tokens. */
  datatype Deployment = Deployment(augurLite: Address, completeSets: Address, claims: Address)

  function Minted(t: Token, who: Address, v: uint256): Token {
    var r := Mint(t, who, v);
    if r.Commit? then r.value else t
  }

  function Burned(t: Token, who: Address, v: uint256): Token {
    var r := Burn(t, who, v);
    if r.Commit? then r.value else t
  }

  function MintAll(shares: seq<Token>, who: Address, v: uint256): (r: Tx<seq<Token>>)
    ensures r.Commit? <==> forall i | 0 <= i < |shares| :: Mint(shares[i], who, v).Commit?
    ensures r.Commit? ==> |r.value| == |shares|
    ensures r.Commit? ==> forall i | 0 <= i < |shares| :: Mint(shares[i], who, v) == Commit(r.value[i])
  {
    if forall i | 0 <= i < |shares| :: Mint(shares[i], who, v).Commit?
    then Commit(seq(|shares|, i requires 0 <= i < |shares| => Minted(shares[i], who, v)))
    else Revert
  }

  function BurnAll(shares: seq<Token>, who: Address, v: uint256): (r: Tx<seq<Token>>)
    ensures r.Commit? <==> forall i | 0 <= i < |shares| :: Burn(shares[i], who, v).Commit?
    ensures r.Commit? ==> |r.value| == |shares|
    ensures r.Commit? ==> forall i | 0 <= i < |shares| :: Burn(shares[i], who, v) == Commit(r.value[i])
  {
    if forall i | 0 <= i < |shares| :: Burn(shares[i], who, v).Commit?
    then Commit(seq(|shares|, i requires 0 <= i < |shares| => Burned(shares[i], who, v)))
    else Revert
  }

  /** The assertion each call ends with. */
  function AssertBalances(d: Token, mk: Market): Tx<(Token, Market)> {
    if Covered(mk, Bal(d, mk.self)) then Commit((d, mk)) else Revert
  }

  /** buyCompleteSets: pay numTicks a set into the market, then mint every outcome. */
  function BuySets(env: Deployment, d: Token, mk: Market, buyer: Address, amount: uint256): Tx<(Token, Market)> {
    var _ :- Require(buyer != NULL_ADDRESS);
    var cost :- Mul(amount, mk.terms.numTicks);
    var _ :- Require(cost > 0);
    var d1 :- TransferFrom(d, env.augurLite, buyer, mk.self, cost);
    var shares :- MintAll(mk.shares, buyer, amount);
    Commit((d1, mk.(shares := shares)))
  }

  /** publicBuyCompleteSets */
  function Buy(env: Deployment, d: Token, mk: Market, buyer: Address, amount: uint256): Tx<(Token, Market)> {
    var r :- BuySets(env, d, mk, buyer, amount);
    AssertBalances(r.0, r.1)
  }

  /** sellCompleteSets: burn every outcome, then pay the fee and the rest out of the market. */
  function SellSets(env: Deployment, d: Token, mk: Market, seller: Address, amount: uint256): Tx<(Token, Market)> {
    var _ :- Require(seller != NULL_ADDRESS);
    var payout :- Mul(amount, mk.terms.numTicks);
    var fee := Fee(mk.terms, payout);
    var net :- Sub(payout, fee);
    var shares :- BurnAll(mk.shares, seller, amount);
    var d1 :- Pay(env.completeSets, d, mk.self, mk.mailbox, fee);
    var d2 :- TransferFrom(d1, env.completeSets, mk.self, seller, net);
    Commit((d2, mk.(shares := shares)))
  }

  /** publicSellCompleteSets */
  function Sell(env: Deployment, d: Token, mk: Market, seller: Address, amount: uint256): Tx<(Token, Market)> {
    var r :- SellSets(env, d, mk, seller, amount);
    AssertBalances(r.0, r.1)
  }

  /** A payment out of the market; nothing is sent when there is nothing to pay. */
  function Pay(spender: Address, d: Token, from: Address, to: Address, v: uint256): Tx<Token> {
    if v != 0 then TransferFrom(d, spender, from, to, v) else Commit(d)
  }

  /** One outcome of a claim, burned and divided up but not yet paid. */
  datatype Settlement = Settlement(market: Market, net: uint256, fee: uint256)

  function Settle(d: Token, mk: Market, holder: Address, i: nat): Tx<Settlement>
    requires i < |mk.shares|
  {
    var _ :- Require(Resolved(mk) && i < |mk.payouts|);
    var n := Bal(mk.shares[i], holder);
    var proceeds :- Mul(n, mk.payouts[i]);
    var fee := Fee(mk.terms, proceeds);
    var net :- Sub(proceeds, fee);
    if n > 0 then
      var share :- Burn(mk.shares[i], holder, n);
      // the final balance reported to the log
      var _ :- Add(Bal(d, holder), net);
      Commit(Settlement(mk.(shares := mk.shares[i := share]), net, fee))
    else Commit(Settlement(mk, net, fee))
  }

  /** The loop of claimTradingProceeds from outcome `i` on. */
  function ClaimFrom(env: Deployment, d: Token, mk: Market, holder: Address, i: nat): Tx<(Token, Market)>
    requires i <= |mk.shares|
    decreases |mk.shares| - i
  {
    if i == |mk.shares| then AssertBalances(d, mk)
    else
      var s :- Settle(d, mk, holder, i);
      var d1 :- Pay(env.claims, d, mk.self, holder, s.net);
      var d2 :- Pay(env.claims, d1, mk.self, mk.mailbox, s.fee);
      ClaimFrom(env, d2, s.market, holder, i + 1)
  }

  /** claimTradingProceeds: redeem all of `holder`'s shares, outcome by outcome. */
  function Claim(env: Deployment, d: Token, mk: Market, now: uint256, holder: Address): Tx<(Token, Market)> {
    var _ :- Require(now > mk.resolutionTime);
    ClaimFrom(env, d, mk, holder, 0)
  }

  /** Nothing is committed that leaves a market short of what its shares may still be worth. */
  lemma {:induction false} TradesEndCovered(env: Deployment, d: Token, mk: Market, now: uint256, who: Address, amount: uint256)
    ensures Buy(env, d, mk, who, amount).Commit? ==>
              var (d', mk') := Buy(env, d, mk, who, amount).value; Covered(mk', Bal(d', mk'.self))
    ensures Sell(env, d, mk, who, amount).Commit? ==>
              var (d', mk') := Sell(env, d, mk, who, amount).value; Covered(mk', Bal(d', mk'.self))
    ensures Claim(env, d, mk, now, who).Commit? ==>
              var (d', mk') := Claim(env, d, mk, now, who).value; Covered(mk', Bal(d', mk'.self))
  {
    hide Covered, BuySets, SellSets, ClaimFrom;
    if Claim(env, d, mk, now, who).Commit? {
      ClaimEndsCovered(env, d, mk, who, 0);
    }
  }

  lemma {:induction false} ClaimEndsCovered(env: Deployment, d: Token, mk: Market, holder: Address, i: nat)
    requires i <= |mk.shares| && ClaimFrom(env, d, mk, holder, i).Commit?
    ensures var (d', mk') := ClaimFrom(env, d, mk, holder, i).value; Covered(mk', Bal(d', mk'.self))
    decreases |mk.shares| - i
  {
    hide Covered, Pay;
    if i < |mk.shares| {
      var s := Settle(d, mk, holder, i).value;
      assert |s.market.shares| == |mk.shares|;
      hide Settle;
      var d1 := Pay(env.claims, d, mk.self, holder, s.net).value;
      var d2 := Pay(env.claims, d1, mk.self, mk.mailbox, s.fee).value;
      ClaimEndsCovered(env, d2, s.market, holder, i + 1);
    }
  }
}
