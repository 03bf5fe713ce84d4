/**
 * What claims pay, why they cannot get stuck, and why their order does not matter.
 */
module Redemption {
  import opened Transactions
  import opened Words
  import opened SafeMathUint256
  import opened Storage
  import opened Vectors
  import opened Addresses
  import opened TokenModel
  import opened MarketModel
  import opened Trading
  import opened Invariant

  /** A resolved market whose escrow covers every share there is. */
  ghost predicate Redeemable(env: Deployment, d: Token, mk: Market) {
    && Conserved(d)
    && OnlyTradersApproved(env, d, mk.self)
    && WellFormedTerms(mk.terms)
    && mk.mailbox != mk.self
    && Resolved(mk)
    && |mk.payouts| == |mk.shares|
    && (forall i | 0 <= i < |mk.shares| :: Conserved(mk.shares[i]))
    && Dot(Supplies(mk.shares), mk.payouts) <= Bal(d, mk.self)
  }

  // ---- What a holder is due ----

  function Gross(mk: Market, h: Address, i: nat): nat
    requires i < |mk.shares| == |mk.payouts|
  {
    Bal(mk.shares[i], h) * mk.payouts[i]
  }

  function FeeOn(mk: Market, gross: nat): nat {
    if gross < TWO_256 then Fee(mk.terms, gross) else 0
  }

  function GrossFrom(mk: Market, h: Address, i: nat): nat
    requires i <= |mk.shares| == |mk.payouts|
    decreases |mk.shares| - i
  {
    if i == |mk.shares| then 0 else Gross(mk, h, i) + GrossFrom(mk, h, i + 1)
  }

  function FeesFrom(mk: Market, h: Address, i: nat): nat
    requires i <= |mk.shares| == |mk.payouts|
    decreases |mk.shares| - i
  {
    if i == |mk.shares| then 0 else FeeOn(mk, Gross(mk, h, i)) + FeesFrom(mk, h, i + 1)
  }

  /** A share token after all of `h`'s shares were burned. */
  function Cleared(t: Token, h: Address): Token {
    if Bal(t, h) <= t.supply then t.(balances := Put(t.balances, h, 0), supply := t.supply - Bal(t, h)) else t
  }

  function ClearedFrom(shares: seq<Token>, h: Address, i: nat): (r: seq<Token>)
    ensures |r| == |shares|
    ensures forall k | 0 <= k < |r| :: r[k] == if k < i then shares[k] else Cleared(shares[k], h)
  {
    seq(|shares|, k requires 0 <= k < |shares| => if k < i then shares[k] else Cleared(shares[k], h))
  }

  /** The claim event reports the holder's balance with the payout added on top. For the market itself
      the payout is still part of that balance, and the addition may overflow. */
  predicate LogFits(mk: Market, h: Address, balance: int, i: nat)
    requires i <= |mk.shares| == |mk.payouts|
    decreases |mk.shares| - i
  {
    i == |mk.shares| ||
    (var gross := Gross(mk, h, i);
     var fee := FeeOn(mk, gross);
     && (Bal(mk.shares[i], h) == 0 || balance + (gross - fee) < TWO_256)
     && LogFits(mk, h, balance - fee, i + 1))
  }

  // ---- One outcome ----

  lemma ClearedIsBurned(t: Token, h: Address)
    requires Conserved(t)
    ensures Bal(t, h) <= t.supply
    ensures Conserved(Cleared(t, h)) && Bal(Cleared(t, h), h) == 0
    ensures forall a | a != h :: Bal(Cleared(t, h), a) == Bal(t, a)
    ensures Burn(t, h, Bal(t, h)) == Commit(Cleared(t, h))
    ensures Bal(t, h) == 0 ==> Cleared(t, h) == t
  {
    hide Total;
    BalancesWithinSupply(t, h, h);
    PutGet(t.balances, h, 0);
    PutTotal(t.balances, h, 0);
    assert Sub(Bal(t, h), Bal(t, h)) == Commit(0) && Sub(t.supply, Bal(t, h)) == Commit(t.supply - Bal(t, h));
    if Bal(t, h) == 0 {
      assert Put(t.balances, h, 0) == t.balances;
    }
  }

  lemma GrossWithinEscrow(env: Deployment, d: Token, mk: Market, h: Address, i: nat)
    requires Redeemable(env, d, mk) && i < |mk.shares|
    ensures Gross(mk, h, i) <= mk.shares[i].supply * mk.payouts[i] <= Dot(Supplies(mk.shares), mk.payouts)
    ensures FeeOn(mk, Gross(mk, h, i)) <= Gross(mk, h, i) <= Bal(d, mk.self)
  {
    hide Total, DotTo, OnlyTradersApproved;
    BalancesWithinSupply(mk.shares[i], h, h);
    ProductMonotone(Bal(mk.shares[i], h), mk.shares[i].supply, mk.payouts[i]);
    DotTerm(Supplies(mk.shares), mk.payouts, i, |mk.shares|);
    FeeBounds(mk.terms, Gross(mk, h, i));
  }

  function WithCleared(mk: Market, h: Address, i: nat): Market
    requires i < |mk.shares|
  {
    mk.(shares := mk.shares[i := Cleared(mk.shares[i], h)])
  }

  lemma SettleExact(env: Deployment, d: Token, mk: Market, h: Address, i: nat)
    requires Redeemable(env, d, mk) && i < |mk.shares|
    ensures var gross := Gross(mk, h, i);
            var fee := FeeOn(mk, gross);
            && fee <= gross < TWO_256
            && (Settle(d, mk, h, i).Commit? <==> Bal(mk.shares[i], h) == 0 || Bal(d, h) + (gross - fee) < TWO_256)
            && (Settle(d, mk, h, i).Commit? ==>
                  Settle(d, mk, h, i).value == Settlement(WithCleared(mk, h, i), gross - fee, fee))
    ensures h != mk.self ==> Settle(d, mk, h, i).Commit?
  {
    hide Total, DotTo, OnlyTradersApproved;
    GrossWithinEscrow(env, d, mk, h, i);
    ClearedIsBurned(mk.shares[i], h);
    BalancesWithinSupply(d, h, mk.self);
    assert mk.shares[i := mk.shares[i]] == mk.shares;
  }

  /** A payment of at most the escrow, to anybody. */
  lemma PayExact(env: Deployment, d: Token, mk: Market, to: Address, v: uint256)
    requires Conserved(d) && OnlyTradersApproved(env, d, mk.self) && v <= Bal(d, mk.self)
    ensures Pay(env.claims, d, mk.self, to, v).Commit?
    ensures var d' := Pay(env.claims, d, mk.self, to, v).value;
            && Conserved(d') && d'.supply == d.supply && d'.allowed == d.allowed
            && OnlyTradersApproved(env, d', mk.self)
            && forall a :: Bal(d', a) == Bal(d, a) + Moved(a, mk.self, to, v)
  {
    hide Total, Transfer, TransferFrom;
    TransferFromExact(d, env.claims, mk.self, to, v);
    assert Allowance(d, mk.self, env.claims) == ETERNAL_APPROVAL_VALUE;
    var d' := Pay(env.claims, d, mk.self, to, v).value;
    assert forall s :: Allowance(d', mk.self, s) == Allowance(d, mk.self, s);
  }

  /** What a claim changes in the balance of `a`: gross out of the market, fees to its mailbox, the rest to the holder. */
  function ClaimDelta(mk: Market, h: Address, a: Address, gross: int, fees: int): int {
    (if a == h then gross - fees else 0) + (if a == mk.mailbox then fees else 0) - (if a == mk.self then gross else 0)
  }

  /** The denomination token after `gross` was redeemed for `h`, `fees` of it for the mailbox. */
  ghost predicate Redeems(d: Token, d': Token, mk: Market, h: Address, gross: int, fees: int) {
    && d'.supply == d.supply && d'.allowed == d.allowed
    && forall a :: Bal(d', a) == Bal(d, a) + ClaimDelta(mk, h, a, gross, fees)
  }

  lemma PaySettlement(env: Deployment, d: Token, mk: Market, h: Address, net: uint256, fee: uint256)
    requires Conserved(d) && OnlyTradersApproved(env, d, mk.self) && net + fee <= Bal(d, mk.self)
    ensures var d1 := Pay(env.claims, d, mk.self, h, net);
            && d1.Commit?
            && var d2 := Pay(env.claims, d1.value, mk.self, mk.mailbox, fee);
            && d2.Commit? && Conserved(d2.value) && OnlyTradersApproved(env, d2.value, mk.self)
            && Redeems(d, d2.value, mk, h, net + fee, fee)
  {
    hide Total, Pay, OnlyTradersApproved;
    PayExact(env, d, mk, h, net);
    var d1 := Pay(env.claims, d, mk.self, h, net).value;
    PayExact(env, d1, mk, mk.mailbox, fee);
  }

  lemma ClearedDot(mk: Market, h: Address, i: nat)
    requires i < |mk.shares| == |mk.payouts| && forall k | 0 <= k < |mk.shares| :: Conserved(mk.shares[k])
    ensures Dot(Supplies(WithCleared(mk, h, i).shares), mk.payouts) == Dot(Supplies(mk.shares), mk.payouts) - Gross(mk, h, i)
  {
    hide Total, DotTo;
    var a := Supplies(mk.shares);
    var c := Supplies(WithCleared(mk, h, i).shares);
    BalancesWithinSupply(mk.shares[i], h, h);
    DotUpdate(a, c, mk.payouts, i, -(Bal(mk.shares[i], h) as int), |a|);
    assert -(Bal(mk.shares[i], h) as int) * mk.payouts[i] == -(Bal(mk.shares[i], h) * mk.payouts[i]);
  }

  lemma OutcomeKeepsRedeemable(env: Deployment, d: Token, mk: Market, h: Address, i: nat, d': Token)
    requires Redeemable(env, d, mk) && i < |mk.shares|
    requires Conserved(d') && OnlyTradersApproved(env, d', mk.self)
    requires var gross := Gross(mk, h, i); Redeems(d, d', mk, h, gross, FeeOn(mk, gross))
    ensures Redeemable(env, d', WithCleared(mk, h, i))
  {
    hide Total, DotTo, OnlyTradersApproved, Dot;
    GrossWithinEscrow(env, d, mk, h, i);
    ClearedDot(mk, h, i);
    ClearedIsBurned(mk.shares[i], h);
    assert Bal(d', mk.self) >= Bal(d, mk.self) - Gross(mk, h, i);
  }

  // ---- A whole claim ----

  lemma {:induction false} DueUnchanged(mk: Market, mk1: Market, h: Address, i: nat)
    requires i <= |mk.shares| == |mk.payouts| == |mk1.shares| && mk1.payouts == mk.payouts && mk1.terms == mk.terms
    requires forall k | i <= k < |mk.shares| :: Bal(mk1.shares[k], h) == Bal(mk.shares[k], h)
    ensures GrossFrom(mk1, h, i) == GrossFrom(mk, h, i)
    ensures FeesFrom(mk1, h, i) == FeesFrom(mk, h, i)
    ensures forall b :: LogFits(mk1, h, b, i) == LogFits(mk, h, b, i)
    decreases |mk.shares| - i
  {
    if i < |mk.shares| {
      DueUnchanged(mk, mk1, h, i + 1);
    }
  }

  /** The result of a claim from outcome `i` on. */
  ghost predicate Redeemed(env: Deployment, d: Token, mk: Market, h: Address, i: nat, d': Token, mk': Market)
    requires i <= |mk.shares| == |mk.payouts|
  {
    && mk' == mk.(shares := ClearedFrom(mk.shares, h, i))
    && Redeems(d, d', mk, h, GrossFrom(mk, h, i), FeesFrom(mk, h, i))
    && Redeemable(env, d', mk')
  }

  /** From outcome `i` on, a claim succeeds for everybody but the market, for which the log has to fit; it burns all
      the holder's shares and pays what they are worth, less the fee on each outcome. */
  lemma {:induction false} ClaimFromExact(env: Deployment, d: Token, mk: Market, h: Address, i: nat)
    requires Redeemable(env, d, mk) && i <= |mk.shares|
    ensures ClaimFrom(env, d, mk, h, i).Commit? <==> (h == mk.self ==> LogFits(mk, h, Bal(d, mk.self), i))
    ensures ClaimFrom(env, d, mk, h, i).Commit? ==>
              var (d', mk') := ClaimFrom(env, d, mk, h, i).value;
              Redeemed(env, d, mk, h, i, d', mk')
    decreases |mk.shares| - i
  {
    hide Redeemable, Settle, Pay, Redeems, LogFits, Redeemed, Gross, FeeOn;
    assert |mk.payouts| == |mk.shares| by { RedeemableShape(env, d, mk); }
    if i == |mk.shares| {
      ClaimEnds(env, d, mk, h);
    } else {
      SettleExact(env, d, mk, h, i);
      LogFitsStep(mk, h, Bal(d, mk.self), i);
      if Settle(d, mk, h, i).Commit? {
        var d2, mk1 := OutcomePaid(env, d, mk, h, i);
        ClaimFromExact(env, d2, mk1, h, i + 1);
        DueUnchanged(mk, mk1, h, i + 1);
        SelfBalance(d, d2, mk, h, i);
        if ClaimFrom(env, d2, mk1, h, i + 1).Commit? {
          var (d', mk') := ClaimFrom(env, d2, mk1, h, i + 1).value;
          RestRedeemed(env, d, mk, h, i, d2, mk1, d', mk');
        }
      }
    }
  }

  lemma RestRedeemed(env: Deployment, d: Token, mk: Market, h: Address, i: nat, d2: Token, mk1: Market, d': Token, mk': Market)
    requires i < |mk.shares| == |mk.payouts| && mk1 == WithCleared(mk, h, i)
    requires Redeems(d, d2, mk, h, Gross(mk, h, i), FeeOn(mk, Gross(mk, h, i)))
    requires Redeemed(env, d2, mk1, h, i + 1, d', mk')
    ensures Redeemed(env, d, mk, h, i, d', mk')
  {
    hide Redeemable, Redeems, LogFits, Gross, FeeOn;
    DueUnchanged(mk, mk1, h, i + 1);
    RedeemsCompose(d, d2, d', mk, mk1, h, Gross(mk, h, i), FeeOn(mk, Gross(mk, h, i)), GrossFrom(mk1, h, i + 1), FeesFrom(mk1, h, i + 1));
    assert ClearedFrom(mk1.shares, h, i + 1) == ClearedFrom(mk.shares, h, i);
  }

  lemma RedeemableShape(env: Deployment, d: Token, mk: Market)
    requires Redeemable(env, d, mk)
    ensures |mk.payouts| == |mk.shares|
  {
  }

  lemma LogFitsStep(mk: Market, h: Address, balance: int, i: nat)
    requires i < |mk.shares| == |mk.payouts|
    ensures var gross := Gross(mk, h, i);
            var fee := FeeOn(mk, gross);
            LogFits(mk, h, balance, i) <==>
              (Bal(mk.shares[i], h) == 0 || balance + (gross - fee) < TWO_256) && LogFits(mk, h, balance - fee, i + 1)
  {
  }

  lemma SelfBalance(d: Token, d2: Token, mk: Market, h: Address, i: nat)
    requires i < |mk.shares| == |mk.payouts| && mk.mailbox != mk.self
    requires var gross := Gross(mk, h, i); Redeems(d, d2, mk, h, gross, FeeOn(mk, gross))
    ensures h == mk.self ==> Bal(d2, mk.self) == Bal(d, mk.self) - FeeOn(mk, Gross(mk, h, i))
  {
  }

  lemma ClaimEnds(env: Deployment, d: Token, mk: Market, h: Address)
    requires Redeemable(env, d, mk)
    ensures ClaimFrom(env, d, mk, h, |mk.shares|) == Commit((d, mk))
    ensures LogFits(mk, h, Bal(d, mk.self), |mk.shares|)
    ensures Redeemed(env, d, mk, h, |mk.shares|, d, mk)
  {
    hide Total, DotTo;
    assert ClearedFrom(mk.shares, h, |mk.shares|) == mk.shares;
  }

  lemma OutcomePaid(env: Deployment, d: Token, mk: Market, h: Address, i: nat) returns (d2: Token, mk1: Market)
    requires Redeemable(env, d, mk) && i < |mk.shares| && Settle(d, mk, h, i).Commit?
    ensures |mk.payouts| == |mk.shares| && mk.mailbox != mk.self
    ensures mk1 == WithCleared(mk, h, i) && mk1 == Settle(d, mk, h, i).value.market
    ensures var s := Settle(d, mk, h, i).value;
            var d1 := Pay(env.claims, d, mk.self, h, s.net);
            && s.net + s.fee == Gross(mk, h, i) && s.fee == FeeOn(mk, Gross(mk, h, i))
            && d1.Commit? && Pay(env.claims, d1.value, mk.self, mk.mailbox, s.fee) == Commit(d2)
            && Redeems(d, d2, mk, h, s.net + s.fee, s.fee)
    ensures Redeemable(env, d2, mk1)
    ensures forall k | 0 <= k < |mk.shares| && k != i :: mk1.shares[k] == mk.shares[k]
  {
    hide Total, Dot, OnlyTradersApproved, Settle, Pay, Redeems;
    SettleExact(env, d, mk, h, i);
    GrossWithinEscrow(env, d, mk, h, i);
    var s := Settle(d, mk, h, i).value;
    PaySettlement(env, d, mk, h, s.net, s.fee);
    var d1 := Pay(env.claims, d, mk.self, h, s.net).value;
    d2 := Pay(env.claims, d1, mk.self, mk.mailbox, s.fee).value;
    mk1 := s.market;
    OutcomeKeepsRedeemable(env, d, mk, h, i, d2);
  }

  lemma RedeemsCompose(d: Token, d1: Token, d2: Token, mk: Market, mk1: Market, h: Address, g: int, f: int, g': int, f': int)
    requires mk1.self == mk.self && mk1.mailbox == mk.mailbox
    requires Redeems(d, d1, mk, h, g, f) && Redeems(d1, d2, mk1, h, g', f')
    ensures Redeems(d, d2, mk, h, g + g', f + f')
  {
  }

  /** A claim succeeds exactly when the time of the resolution is past and, for the market, the log fits. */
  lemma ClaimExact(env: Deployment, d: Token, mk: Market, now: uint256, h: Address)
    requires Redeemable(env, d, mk)
    ensures |mk.payouts| == |mk.shares|
    ensures Claim(env, d, mk, now, h).Commit? <==>
              now > mk.resolutionTime && (h == mk.self ==> LogFits(mk, h, Bal(d, mk.self), 0))
    ensures Claim(env, d, mk, now, h).Commit? ==>
              var (d', mk') := Claim(env, d, mk, now, h).value;
              Redeemed(env, d, mk, h, 0, d', mk')
  {
    hide Redeemed, LogFits, ClaimFrom;
    RedeemableShape(env, d, mk);
    ClaimFromExact(env, d, mk, h, 0);
  }

  /** At the very time of the resolution nobody can claim yet, whatever state the market is in. */
  lemma ClaimTooEarly(env: Deployment, d: Token, mk: Market, now: uint256, h: Address)
    requires now <= mk.resolutionTime
    ensures Claim(env, d, mk, now, h).Revert?
  {
  }

  /** A claim on a market that is not resolved reverts, although the time check lets it pass. */
  lemma ClaimNeedsResolution(env: Deployment, d: Token, mk: Market, now: uint256, h: Address)
    requires !Resolved(mk) && |mk.shares| > 0
    ensures Claim(env, d, mk, now, h).Revert?
    ensures now > 0 ==> now > mk.resolutionTime
  {
  }
}
