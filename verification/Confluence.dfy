/** The order of claims does not matter, and together they drain the market. */
module Confluence {
  import opened Transactions
  import opened Words
  import opened Storage
  import opened Vectors
  import opened Addresses
  import opened TokenModel
  import opened MarketModel
  import opened Trading
  import opened Invariant
  import opened Redemption

  /** Claims for one holder after the other. */
  function ClaimAll(env: Deployment, d: Token, mk: Market, now: uint256, hs: seq<Address>): Tx<(Token, Market)>
    decreases |hs|
  {
    if hs == [] then Commit((d, mk))
    else
      var r :- Claim(env, d, mk, now, hs[0]);
      ClaimAll(env, r.0, r.1, now, hs[1..])
  }

  // ---- What claims come to, if they go through ----

  ghost predicate Accounted(mk: Market) {
    |mk.shares| == |mk.payouts| && forall k | 0 <= k < |mk.shares| :: Conserved(mk.shares[k])
  }

  function AfterClaim(mk: Market, h: Address): Market {
    mk.(shares := ClearedFrom(mk.shares, h, 0))
  }

  function AfterClaims(mk: Market, hs: seq<Address>): Market
    decreases |hs|
  {
    if hs == [] then mk else AfterClaims(AfterClaim(mk, hs[0]), hs[1..])
  }

  /** What claims for `hs` add to the balance of `a`. */
  function Payments(mk: Market, hs: seq<Address>, a: Address): int
    requires |mk.shares| == |mk.payouts|
    decreases |hs|
  {
    if hs == [] then 0
    else
      ClaimDelta(mk, hs[0], a, GrossFrom(mk, hs[0], 0), FeesFrom(mk, hs[0], 0))
      + Payments(AfterClaim(mk, hs[0]), hs[1..], a)
  }

  /** What claims for `hs` are worth before fees. */
  function Released(mk: Market, hs: seq<Address>): nat
    requires |mk.shares| == |mk.payouts|
    decreases |hs|
  {
    if hs == [] then 0 else GrossFrom(mk, hs[0], 0) + Released(AfterClaim(mk, hs[0]), hs[1..])
  }

  /** When it is the market's turn, if it ever is, its claim can be logged: with `balance` in escrow at the start. */
  predicate MarketTurnFits(mk: Market, hs: seq<Address>, balance: int)
    requires |mk.shares| == |mk.payouts|
    decreases |hs|
  {
    hs == [] ||
    (if hs[0] == mk.self then LogFits(mk, mk.self, balance, 0)
     else MarketTurnFits(AfterClaim(mk, hs[0]), hs[1..], balance - GrossFrom(mk, hs[0], 0)))
  }

  lemma ClearingCommutes(t: Token, g: Address, h: Address)
    requires Conserved(t)
    ensures Cleared(Cleared(t, g), h) == Cleared(Cleared(t, h), g)
    ensures g == h ==> Cleared(Cleared(t, g), h) == Cleared(t, g)
  {
    hide Total;
    ClearedIsBurned(t, g);
    ClearedIsBurned(t, h);
    ClearedIsBurned(Cleared(t, g), h);
    ClearedIsBurned(Cleared(t, h), g);
    if g != h {
      assert (t.balances - {g}) - {h} == (t.balances - {h}) - {g};
    }
  }

  lemma AccountedAfterClaim(mk: Market, h: Address)
    requires Accounted(mk)
    ensures Accounted(AfterClaim(mk, h))
  {
    hide Conserved;
    forall k | 0 <= k < |mk.shares|
      ensures Conserved(Cleared(mk.shares[k], h))
    {
      ClearedIsBurned(mk.shares[k], h);
    }
  }

  lemma SharesAfterClaim(mk: Market, g: Address, h: Address)
    requires Accounted(mk)
    ensures forall k | 0 <= k < |mk.shares| :: Bal(AfterClaim(mk, g).shares[k], h) == if h == g then 0 else Bal(mk.shares[k], h)
  {
    hide Conserved, Cleared;
    forall k | 0 <= k < |mk.shares|
      ensures Bal(Cleared(mk.shares[k], g), h) == if h == g then 0 else Bal(mk.shares[k], h)
    {
      ClearedIsBurned(mk.shares[k], g);
    }
  }

  /** A claim does not change what anybody else is due. */
  lemma OthersDueUnchanged(mk: Market, g: Address, h: Address)
    requires Accounted(mk)
    ensures var mk1 := AfterClaim(mk, g);
            && |mk1.shares| == |mk1.payouts|
            && GrossFrom(mk1, h, 0) == (if h == g then 0 else GrossFrom(mk, h, 0))
            && FeesFrom(mk1, h, 0) == (if h == g then 0 else FeesFrom(mk, h, 0))
            && (h != g ==> forall b :: LogFits(mk1, h, b, 0) == LogFits(mk, h, b, 0))
  {
    hide Conserved, ClearedFrom;
    var mk1 := AfterClaim(mk, g);
    SharesAfterClaim(mk, g, h);
    if h != g {
      DueUnchanged(mk, mk1, h, 0);
    } else {
      NothingDue(mk1, h, 0);
    }
  }

  lemma {:induction false} NothingDue(mk: Market, h: Address, i: nat)
    requires i <= |mk.shares| == |mk.payouts|
    requires forall k | i <= k < |mk.shares| :: Bal(mk.shares[k], h) == 0
    ensures GrossFrom(mk, h, i) == 0 && FeesFrom(mk, h, i) == 0
    decreases |mk.shares| - i
  {
    if i < |mk.shares| {
      NothingDue(mk, h, i + 1);
      assert 0 * mk.payouts[i] == 0;
    }
  }

  lemma SameToken(d: Token, e: Token)
    requires d.supply == e.supply && d.allowed == e.allowed && forall a :: Bal(d, a) == Bal(e, a)
    ensures d == e
  {
    forall a
      ensures Get(d.balances, a) == Get(e.balances, a)
    {
      assert Bal(d, a) == Bal(e, a);
    }
    Extensional(d.balances, e.balances);
  }

  lemma RedeemableIsAccounted(env: Deployment, d: Token, mk: Market)
    requires Redeemable(env, d, mk)
    ensures Accounted(mk) && mk.mailbox != mk.self
  {
  }

  // ---- Exactly when claims go through ----

  /** Claims for any list of holders go through exactly when the market, at its first turn, can log its own; they then
      lead to a state that has nothing to do with reverts. */
  lemma {:induction false} ClaimAllExact(env: Deployment, d: Token, mk: Market, now: uint256, hs: seq<Address>)
    requires Redeemable(env, d, mk)
    ensures Accounted(mk)
    ensures ClaimAll(env, d, mk, now, hs).Commit? <==>
              hs == [] || (now > mk.resolutionTime && MarketTurnFits(mk, hs, Bal(d, mk.self)))
    ensures ClaimAll(env, d, mk, now, hs).Commit? ==>
              var (d', mk') := ClaimAll(env, d, mk, now, hs).value;
              && mk' == AfterClaims(mk, hs)
              && d'.supply == d.supply && d'.allowed == d.allowed
              && (forall a :: Bal(d', a) == Bal(d, a) + Payments(mk, hs, a))
              && Redeemable(env, d', mk')
    decreases |hs|
  {
    hide Redeemable, Claim, Redeems, Conserved, GrossFrom, FeesFrom, LogFits, ClearedFrom;
    RedeemableIsAccounted(env, d, mk);
    if hs != [] {
      var h := hs[0];
      ClaimExact(env, d, mk, now, h);
      if Claim(env, d, mk, now, h).Commit? {
        var (d1, mk1) := Claim(env, d, mk, now, h).value;
        assert mk1 == AfterClaim(mk, h);
        ClaimAllExact(env, d1, mk1, now, hs[1..]);
        BalanceAfter(d, d1, mk, h, GrossFrom(mk, h, 0), FeesFrom(mk, h, 0));
        if h == mk.self {
          AccountedAfterClaim(mk, h);
          SharesAfterClaim(mk, h, h);
          NothingToLogInTurn(mk1, hs[1..], Bal(d1, mk.self));
        }
      }
    }
  }

  lemma BalanceAfter(d: Token, d1: Token, mk: Market, h: Address, gross: int, fees: int)
    requires Redeems(d, d1, mk, h, gross, fees) && mk.mailbox != mk.self
    ensures d1.supply == d.supply && d1.allowed == d.allowed
    ensures h != mk.self ==> Bal(d1, mk.self) == Bal(d, mk.self) - gross
    ensures forall a :: Bal(d1, a) == Bal(d, a) + ClaimDelta(mk, h, a, gross, fees)
  {
  }

  lemma {:induction false} NothingToLog(mk: Market, h: Address, balance: int, i: nat)
    requires i <= |mk.shares| == |mk.payouts| && forall k | i <= k < |mk.shares| :: Bal(mk.shares[k], h) == 0
    ensures LogFits(mk, h, balance, i)
    decreases |mk.shares| - i
  {
    if i < |mk.shares| {
      NothingToLog(mk, h, balance - FeeOn(mk, Gross(mk, h, i)), i + 1);
    }
  }

  /** A market without shares of itself has nothing to log. */
  lemma {:induction false} NothingToLogInTurn(mk: Market, hs: seq<Address>, balance: int)
    requires Accounted(mk) && forall k | 0 <= k < |mk.shares| :: Bal(mk.shares[k], mk.self) == 0
    ensures MarketTurnFits(mk, hs, balance)
    decreases |hs|
  {
    hide Conserved, ClearedFrom, LogFits;
    if hs != [] {
      if hs[0] == mk.self {
        NothingToLog(mk, mk.self, balance, 0);
      } else {
        AccountedAfterClaim(mk, hs[0]);
        SharesAfterClaim(mk, hs[0], mk.self);
        NothingToLogInTurn(AfterClaim(mk, hs[0]), hs[1..], balance - GrossFrom(mk, hs[0], 0));
      }
    }
  }

  /** A list without the market always goes through. */
  lemma {:induction false} OthersNeverWait(mk: Market, hs: seq<Address>, balance: int)
    requires Accounted(mk) && mk.self !in hs
    ensures MarketTurnFits(mk, hs, balance)
    decreases |hs|
  {
    hide Conserved, ClearedFrom, GrossFrom;
    if hs != [] {
      AccountedAfterClaim(mk, hs[0]);
      OthersNeverWait(AfterClaim(mk, hs[0]), hs[1..], balance - GrossFrom(mk, hs[0], 0));
    }
  }

  /** In any other list only what was redeemed before the market's first turn matters: that much less is in escrow,
      and in the balance the market's claim adds its own payout to. */
  lemma {:induction false} MarketTurn(mk: Market, before: seq<Address>, after: seq<Address>, balance: int)
    requires Accounted(mk) && mk.self !in before
    ensures MarketTurnFits(mk, before + [mk.self] + after, balance) <==> LogFits(mk, mk.self, balance - Released(mk, before), 0)
    decreases |before|
  {
    hide Conserved, ClearedFrom, GrossFrom, FeesFrom, LogFits;
    var all := before + [mk.self] + after;
    if before == [] {
      assert all[0] == mk.self;
    } else {
      var mk1 := AfterClaim(mk, before[0]);
      assert all[0] == before[0] && all[1..] == before[1..] + [mk.self] + after;
      AccountedAfterClaim(mk, before[0]);
      OthersDueUnchanged(mk, before[0], mk.self);
      MarketTurn(mk1, before[1..], after, balance - GrossFrom(mk, before[0], 0));
    }
  }

  lemma {:induction false} LogFitsMonotone(mk: Market, h: Address, low: int, high: int, i: nat)
    requires i <= |mk.shares| == |mk.payouts| && low <= high && LogFits(mk, h, high, i)
    ensures LogFits(mk, h, low, i)
    decreases |mk.shares| - i
  {
    if i < |mk.shares| {
      var fee := FeeOn(mk, Gross(mk, h, i));
      LogFitsMonotone(mk, h, low - fee, high - fee, i + 1);
    }
  }

  lemma {:induction false} ReleasedGrows(mk: Market, before: seq<Address>, more: seq<Address>)
    requires |mk.shares| == |mk.payouts|
    ensures Released(mk, before) <= Released(mk, before + more)
    decreases |before|
  {
    hide GrossFrom, ClearedFrom;
    if before != [] {
      assert (before + more)[1..] == before[1..] + more;
      ReleasedGrows(AfterClaim(mk, before[0]), before[1..], more);
    }
  }

  // ---- The order of claims ----

  lemma SameShares(shares: seq<Token>, g: Address, h: Address)
    requires forall k | 0 <= k < |shares| :: Conserved(shares[k])
    ensures ClearedFrom(ClearedFrom(shares, g, 0), h, 0) == ClearedFrom(ClearedFrom(shares, h, 0), g, 0)
    ensures g == h ==> ClearedFrom(ClearedFrom(shares, g, 0), h, 0) == ClearedFrom(shares, g, 0)
  {
    hide Conserved, Cleared;
    forall k | 0 <= k < |shares|
      ensures Cleared(Cleared(shares[k], g), h) == Cleared(Cleared(shares[k], h), g)
      ensures g == h ==> Cleared(Cleared(shares[k], g), h) == Cleared(shares[k], g)
    {
      ClearingCommutes(shares[k], g, h);
    }
  }

  /** Two claims come to the same in either order. */
  lemma ClaimsSwap(mk: Market, g: Address, h: Address, rest: seq<Address>)
    requires Accounted(mk)
    ensures AfterClaims(mk, [g, h] + rest) == AfterClaims(mk, [h, g] + rest)
    ensures forall a :: Payments(mk, [g, h] + rest, a) == Payments(mk, [h, g] + rest, a)
  {
    hide Conserved, ClearedFrom, GrossFrom, FeesFrom;
    SameShares(mk.shares, g, h);
    OthersDueUnchanged(mk, g, h);
    OthersDueUnchanged(mk, h, g);
    TwoFirst(mk, g, h, rest);
    TwoFirst(mk, h, g, rest);
  }

  lemma TwoFirst(mk: Market, g: Address, h: Address, rest: seq<Address>)
    requires |mk.shares| == |mk.payouts|
    ensures var m1 := AfterClaim(mk, g);
            var m2 := AfterClaim(m1, h);
            && AfterClaims(mk, [g, h] + rest) == AfterClaims(m2, rest)
            && forall a :: Payments(mk, [g, h] + rest, a)
                        == ClaimDelta(mk, g, a, GrossFrom(mk, g, 0), FeesFrom(mk, g, 0))
                         + ClaimDelta(m1, h, a, GrossFrom(m1, h, 0), FeesFrom(m1, h, 0))
                         + Payments(m2, rest, a)
  {
    hide GrossFrom, FeesFrom, ClearedFrom, ClaimDelta;
    assert ([g, h] + rest)[1..] == [h] + rest;
    assert ([h] + rest)[1..] == rest;
  }

  function MoveToFront(hs: seq<Address>, k: nat): seq<Address>
    requires k < |hs|
  {
    [hs[k]] + (hs[..k] + hs[k + 1..])
  }

  lemma {:induction false} AnyHolderMayGoFirst(mk: Market, hs: seq<Address>, k: nat)
    requires Accounted(mk) && k < |hs|
    ensures AfterClaims(mk, hs) == AfterClaims(mk, MoveToFront(hs, k))
    ensures forall a :: Payments(mk, hs, a) == Payments(mk, MoveToFront(hs, k), a)
    decreases k
  {
    hide Conserved, AfterClaim, GrossFrom, FeesFrom, ClaimDelta, MoveToFront;
    if k == 0 {
      NobodyMoves(hs);
    } else {
      var a, x := hs[0], hs[k];
      var others := MoveBehindFirst(hs, k);
      AccountedAfterClaim(mk, a);
      AnyHolderMayGoFirst(AfterClaim(mk, a), hs[1..], k - 1);
      FirstClaim(mk, hs);
      FirstClaim(mk, [a, x] + others);
      ClaimsSwap(mk, a, x, others);
    }
  }

  lemma FirstClaim(mk: Market, hs: seq<Address>)
    requires |mk.shares| == |mk.payouts| && hs != []
    ensures AfterClaims(mk, hs) == AfterClaims(AfterClaim(mk, hs[0]), hs[1..])
    ensures forall a :: Payments(mk, hs, a)
                     == ClaimDelta(mk, hs[0], a, GrossFrom(mk, hs[0], 0), FeesFrom(mk, hs[0], 0))
                      + Payments(AfterClaim(mk, hs[0]), hs[1..], a)
  {
  }

  lemma NobodyMoves(hs: seq<Address>)
    requires hs != []
    ensures MoveToFront(hs, 0) == hs
  {
  }

  lemma MoveBehindFirst(hs: seq<Address>, k: nat) returns (others: seq<Address>)
    requires 0 < k < |hs|
    ensures MoveToFront(hs[1..], k - 1) == [hs[k]] + others
    ensures MoveToFront(hs, k) == [hs[k], hs[0]] + others
    ensures ([hs[0], hs[k]] + others)[1..] == [hs[k]] + others
  {
    others := hs[1..][..k - 1] + hs[1..][k..];
  }

  lemma SameWithoutFirst(hs: seq<Address>, gs: seq<Address>, k: nat)
    requires multiset(hs) == multiset(gs) && hs != [] && k < |gs| && gs[k] == hs[0]
    ensures multiset(hs[1..]) == multiset(gs[..k] + gs[k + 1..])
  {
    assert hs == [hs[0]] + hs[1..];
    assert multiset(hs) == multiset([hs[0]]) + multiset(hs[1..]);
    assert gs == gs[..k] + [gs[k]] + gs[k + 1..];
    assert multiset(gs) == multiset(gs[..k]) + multiset([gs[k]]) + multiset(gs[k + 1..]);
    assert multiset(gs[..k] + gs[k + 1..]) == multiset(gs) - multiset([gs[k]]);
    assert multiset(hs[1..]) == multiset(hs) - multiset([hs[0]]);
  }

  /** What claims come to depends on who claims, not on the order. */
  lemma {:induction false} OrderIrrelevant(mk: Market, hs: seq<Address>, gs: seq<Address>)
    requires Accounted(mk) && multiset(hs) == multiset(gs)
    ensures AfterClaims(mk, hs) == AfterClaims(mk, gs)
    ensures forall a :: Payments(mk, hs, a) == Payments(mk, gs, a)
    decreases |hs|
  {
    hide Conserved, ClearedFrom, GrossFrom, FeesFrom, ClaimDelta;
    if hs == [] {
      assert |multiset(gs)| == 0;
      assert gs == [];
    } else {
      assert hs[0] in multiset(gs);
      var k :| 0 <= k < |gs| && gs[k] == hs[0];
      AnyHolderMayGoFirst(mk, gs, k);
      var others := gs[..k] + gs[k + 1..];
      SameWithoutFirst(hs, gs, k);
      AccountedAfterClaim(mk, hs[0]);
      OrderIrrelevant(AfterClaim(mk, hs[0]), hs[1..], others);
      assert MoveToFront(gs, k)[1..] == others;
    }
  }

  /** In whatever order holders claim, the market among them or not, if the claims go through the market and the token
      end up the very same; and without the market they do go through. */
  lemma ClaimOrderIrrelevant(env: Deployment, d: Token, mk: Market, now: uint256, hs: seq<Address>, gs: seq<Address>)
    requires Redeemable(env, d, mk) && now > mk.resolutionTime && multiset(hs) == multiset(gs)
    ensures ClaimAll(env, d, mk, now, hs).Commit? && ClaimAll(env, d, mk, now, gs).Commit? ==>
              ClaimAll(env, d, mk, now, hs) == ClaimAll(env, d, mk, now, gs)
    ensures mk.self !in hs ==> ClaimAll(env, d, mk, now, hs).Commit? && ClaimAll(env, d, mk, now, gs).Commit?
  {
    hide Redeemable, ClaimAll, Conserved, Payments, AfterClaims, MarketTurnFits;
    ClaimAllExact(env, d, mk, now, hs);
    ClaimAllExact(env, d, mk, now, gs);
    OrderIrrelevant(mk, hs, gs);
    if ClaimAll(env, d, mk, now, hs).Commit? && ClaimAll(env, d, mk, now, gs).Commit? {
      SameToken(ClaimAll(env, d, mk, now, hs).value.0, ClaimAll(env, d, mk, now, gs).value.0);
    }
    if mk.self !in hs {
      assert mk.self !in multiset(hs);
      assert mk.self !in gs;
      OthersNeverWait(mk, hs, Bal(d, mk.self));
      OthersNeverWait(mk, gs, Bal(d, mk.self));
    }
  }

  /** Two claims, for anybody: if both orders go through they lead to the very same state, whatever is claimed after
      them. */
  lemma ClaimsCommute(env: Deployment, d: Token, mk: Market, now: uint256, g: Address, h: Address, rest: seq<Address>)
    requires Redeemable(env, d, mk) && now > mk.resolutionTime
    ensures g != mk.self && h != mk.self ==>
              ClaimAll(env, d, mk, now, [g, h]).Commit? && ClaimAll(env, d, mk, now, [h, g]).Commit?
    ensures ClaimAll(env, d, mk, now, [g, h]).Commit? && ClaimAll(env, d, mk, now, [h, g]).Commit? ==>
              ClaimAll(env, d, mk, now, [g, h] + rest) == ClaimAll(env, d, mk, now, [h, g] + rest)
  {
    hide Redeemable, ClaimAll;
    assert [g, h] == [g] + [h] && [h, g] == [h] + [g];
    assert multiset([g, h]) == multiset([h, g]);
    ClaimOrderIrrelevant(env, d, mk, now, [g, h], [h, g]);
    ClaimAllInTwo(env, d, mk, now, [g, h], rest);
    ClaimAllInTwo(env, d, mk, now, [h, g], rest);
  }

  lemma {:induction false} ClaimAllInTwo(env: Deployment, d: Token, mk: Market, now: uint256, hs: seq<Address>, rest: seq<Address>)
    ensures ClaimAll(env, d, mk, now, hs + rest) ==
              var r := ClaimAll(env, d, mk, now, hs);
              if r.Revert? then Revert else ClaimAll(env, r.value.0, r.value.1, now, rest)
    decreases |hs|
  {
    hide Claim;
    if hs == [] {
      assert hs + rest == rest;
    } else {
      assert (hs + rest)[1..] == hs[1..] + rest;
      var r := Claim(env, d, mk, now, hs[0]);
      if r.Commit? {
        ClaimAllInTwo(env, r.value.0, r.value.1, now, hs[1..], rest);
      }
    }
  }

  /** The market had better wait: if claims go through in some order they do so, too, with the market's own last. */
  lemma MarketMayWait(env: Deployment, d: Token, mk: Market, now: uint256, before: seq<Address>, after: seq<Address>)
    requires Redeemable(env, d, mk) && now > mk.resolutionTime && mk.self !in before && mk.self !in after
    ensures var early := ClaimAll(env, d, mk, now, before + [mk.self] + after);
            var late := ClaimAll(env, d, mk, now, before + after + [mk.self]);
            early.Commit? ==> late == early
  {
    hide Redeemable, ClaimAll, Conserved, LogFits, MarketTurnFits, Released;
    var early, late := before + [mk.self] + after, before + after + [mk.self];
    ClaimAllExact(env, d, mk, now, early);
    ClaimAllExact(env, d, mk, now, late);
    if ClaimAll(env, d, mk, now, early).Commit? {
      var b := Bal(d, mk.self);
      MarketTurn(mk, before, after, b);
      MarketTurn(mk, before + after, [], b);
      assert late + [] == late;
      ReleasedGrows(mk, before, after);
      LogFitsMonotone(mk, mk.self, b - Released(mk, before + after), b - Released(mk, before), 0);
      assert multiset(early) == multiset(late);
      ClaimOrderIrrelevant(env, d, mk, now, early, late);
    }
  }

  /** A second claim for the same holder, the market or not, succeeds and changes nothing. */
  lemma SecondClaimChangesNothing(env: Deployment, d: Token, mk: Market, now: uint256, h: Address)
    requires Redeemable(env, d, mk) && now > mk.resolutionTime && Claim(env, d, mk, now, h).Commit?
    ensures var (d', mk') := Claim(env, d, mk, now, h).value;
            Claim(env, d', mk', now, h) == Commit((d', mk'))
  {
    hide Redeemable, Claim, Conserved, GrossFrom, FeesFrom, LogFits, ClearedFrom, Redeems;
    RedeemableIsAccounted(env, d, mk);
    ClaimExact(env, d, mk, now, h);
    var (d1, mk1) := Claim(env, d, mk, now, h).value;
    assert mk1 == AfterClaim(mk, h);
    ClaimExact(env, d1, mk1, now, h);
    SharesAfterClaim(mk, h, h);
    NothingToLog(mk1, h, Bal(d1, h), 0);
    OthersDueUnchanged(mk, h, h);
    SameShares(mk.shares, h, h);
    NoRedemption(d1, Claim(env, d1, mk1, now, h).value.0, mk1, h);
  }

  lemma NoRedemption(d: Token, d': Token, mk: Market, h: Address)
    requires Redeems(d, d', mk, h, 0, 0)
    ensures d' == d
  {
    SameToken(d', d);
  }

  // ---- Draining ----

  /** What all of `h`'s shares are worth is what clearing them takes off the obligation. */
  lemma {:induction false} ClearingReleasesGross(mk: Market, h: Address, i: nat)
    requires i <= |mk.shares| == |mk.payouts| && forall k | 0 <= k < |mk.shares| :: Conserved(mk.shares[k])
    ensures Dot(Supplies(ClearedFrom(mk.shares, h, i)), mk.payouts) + GrossFrom(mk, h, i) == Dot(Supplies(mk.shares), mk.payouts)
    decreases |mk.shares| - i
  {
    hide Total, DotTo;
    if i == |mk.shares| {
      assert ClearedFrom(mk.shares, h, i) == mk.shares;
    } else {
      ClearingReleasesGross(mk, h, i + 1);
      var a := Supplies(ClearedFrom(mk.shares, h, i + 1));
      var c := Supplies(ClearedFrom(mk.shares, h, i));
      var n: int := Bal(mk.shares[i], h);
      BalancesWithinSupply(mk.shares[i], h, h);
      DotUpdate(a, c, mk.payouts, i, -n, |a|);
      assert (-n) * mk.payouts[i] == -(n * mk.payouts[i]);
    }
  }

  /** Nobody outside `hs` holds shares. */
  predicate HeldBy(shares: seq<Token>, hs: seq<Address>) {
    forall k | 0 <= k < |shares| :: forall a | a in shares[k].balances :: a in hs
  }

  lemma HoldersLeft(shares: seq<Token>, h: Address, hs: seq<Address>)
    requires hs != [] && hs[0] == h && HeldBy(shares, hs)
    requires forall k | 0 <= k < |shares| :: Conserved(shares[k])
    ensures HeldBy(ClearedFrom(shares, h, 0), hs[1..])
  {
    hide Total;
    forall k, a | 0 <= k < |shares| && a in Cleared(shares[k], h).balances
      ensures a in hs[1..]
    {
      BalancesWithinSupply(shares[k], h, h);
      assert a in shares[k].balances && a != h;
      assert a in hs;
    }
  }

  /** What a claim takes off the obligation leaves the escrow, but for what the market pays itself. */
  lemma ClaimReleasesWhatItPays(env: Deployment, d: Token, mk: Market, h: Address, d': Token, mk': Market)
    requires Accounted(mk) && mk.mailbox != mk.self && Redeemed(env, d, mk, h, 0, d', mk')
    ensures mk' == AfterClaim(mk, h) && |mk'.payouts| == |mk'.shares|
    ensures Bal(d', mk.self) - Dot(Supplies(mk'.shares), mk'.payouts)
         == Bal(d, mk.self) - Dot(Supplies(mk.shares), mk.payouts) + OwnNet(mk, [h])
  {
    hide Total, DotTo, OnlyTradersApproved, GrossFrom, FeesFrom;
    ClearingReleasesGross(mk, h, 0);
  }

  /** What the market's own shares pay it, net of fees, if it is among those who claim. */
  function OwnNet(mk: Market, hs: seq<Address>): int
    requires |mk.shares| == |mk.payouts|
  {
    if mk.self in hs then GrossFrom(mk, mk.self, 0) - FeesFrom(mk, mk.self, 0) else 0
  }

  lemma OwnNetInTurn(mk: Market, hs: seq<Address>)
    requires Accounted(mk) && hs != []
    ensures |mk.shares| == |AfterClaim(mk, hs[0]).shares| == |AfterClaim(mk, hs[0]).payouts|
    ensures OwnNet(mk, hs) == OwnNet(mk, [hs[0]]) + OwnNet(AfterClaim(mk, hs[0]), hs[1..])
  {
    hide Conserved, ClearedFrom, GrossFrom, FeesFrom;
    OthersDueUnchanged(mk, hs[0], mk.self);
  }

  /** After every holder has claimed no share is left, and what was not owed to anybody but the market is still there. */
  lemma {:induction false} ClaimsDrain(env: Deployment, d: Token, mk: Market, now: uint256, hs: seq<Address>)
    requires Redeemable(env, d, mk) && |mk.payouts| == |mk.shares| && now > mk.resolutionTime
    requires HeldBy(mk.shares, hs) && ClaimAll(env, d, mk, now, hs).Commit?
    ensures var (d', mk') := ClaimAll(env, d, mk, now, hs).value;
            && Redeemable(env, d', mk')
            && (forall k | 0 <= k < |mk'.shares| :: mk'.shares[k].supply == 0)
            && Bal(d', mk.self) == Bal(d, mk.self) - Dot(Supplies(mk.shares), mk.payouts) + OwnNet(mk, hs)
    decreases |hs|
  {
    hide Claim, HeldBy, Redeemable, Dot, OwnNet, Conserved, Redeems, ClearedFrom;
    RedeemableIsAccounted(env, d, mk);
    if hs == [] {
      NothingLeft(mk);
    } else {
      ClaimExact(env, d, mk, now, hs[0]);
      var (d1, m1) := Claim(env, d, mk, now, hs[0]).value;
      HoldersLeft(mk.shares, hs[0], hs);
      ClaimReleasesWhatItPays(env, d, mk, hs[0], d1, m1);
      OwnNetInTurn(mk, hs);
      ClaimsDrain(env, d1, m1, now, hs[1..]);
    }
  }

  lemma NothingLeft(mk: Market)
    requires Accounted(mk) && HeldBy(mk.shares, [])
    ensures forall k | 0 <= k < |mk.shares| :: mk.shares[k].supply == 0
    ensures Dot(Supplies(mk.shares), mk.payouts) == 0 && OwnNet(mk, []) == 0
  {
    hide HeldBy, Conserved, DotTo;
    forall k | 0 <= k < |mk.shares|
      ensures mk.shares[k].supply == 0
    {
      Unheld(mk.shares, k);
    }
    DotZero(Supplies(mk.shares), mk.payouts, |mk.shares|);
  }

  lemma Unheld(shares: seq<Token>, k: nat)
    requires k < |shares| && HeldBy(shares, []) && Conserved(shares[k])
    ensures shares[k].supply == 0
  {
    assert forall a :: a !in shares[k].balances;
    EmptyWhenUnheld(shares[k]);
  }
}
