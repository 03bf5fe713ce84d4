/**
 * AugurLite, its universes, their markets and the markets' share tokens, as objects that refer to
 * each other, and which of them vouches for which.
 */
module Contracts {
  import opened Transactions
  import opened Words
  import opened Storage
  import opened SafeMathUint256
  import opened Vectors
  import opened Addresses
  import opened TokenModel
  import opened Tokens
  import opened Controllers
  import opened MarketModel

  /** The master contract: it knows the universes and moves denomination tokens for the traders. */
  class AugurLite {
    const self: Address
    const controller: Controller
    var universes: set<Universe>

    ghost predicate Valid()
      reads this, universes, set u: Universe, m: Market | u in universes && m in u.markets :: m
    {
      forall u | u in universes :: u.augurLite == this && u.controller == controller && u.Valid()
    }

    constructor (self: Address, controller: Controller)
      ensures this.self == self && this.controller == controller && universes == {} && Valid()
    {
      this.self, this.controller, universes := self, controller, {};
    }

    /** A universe's `initialize` is onlyInGoodTimes. */
    method CreateUniverse(denominationToken: VariableSupplyToken) returns (u: Universe?)
      requires Valid()
      modifies this
      ensures Valid() && (u != null <==> !controller.stopped)
      ensures u == null ==> universes == old(universes)
      ensures u != null ==> fresh(u) && universes == old(universes) + {u}
      ensures u != null ==> u.markets == {} && u.denominationToken == denominationToken && u.augurLite == this
    {
      if controller.stopped {
        return null;
      }
      u := new Universe(this, controller, denominationToken);
      universes := universes + {u};
    }

    predicate IsKnownUniverse(u: Universe)
      reads this
    {
      u in universes
    }

    method TrustedTransfer(caller: Address, token: VariableSupplyToken, from: Address, to: Address, amount: uint256) returns (ok: bool)
      modifies token
      ensures ok <==> caller in controller.whitelist && amount > 0
                      && TransferFrom(old(token.State()), self, from, to, amount).Commit?
      ensures token.State() == if ok then TransferFrom(old(token.State()), self, from, to, amount).value else old(token.State())
    {
      if !controller.IsWhitelisted(caller) || amount == 0 {
        return false;
      }
      ok := token.TransferFrom(self, from, to, amount);
    }

    /** What the mint, burn and transfer logs require of the token that calls them. */
    predicate AcceptsLogOf(universe: Universe, shareToken: object, claimedMarket: Market?, claimedOutcome: nat)
      reads this, universe, universe.markets
    {
      IsKnownUniverse(universe) && universe.IsContainerForShareToken(shareToken, claimedMarket, claimedOutcome) == Commit(true)
    }

    /** What logMarketResolved requires of the market that calls it. */
    predicate AcceptsResolutionOf(universe: Universe, market: Market)
      reads this, universe
    {
      IsKnownUniverse(universe) && universe.IsContainerForMarket(market)
    }

    /** marketIsLegit: the market's own universe is known here and vouches for it. */
    predicate IsLegit(market: Market)
      reads this, market.universe
    {
      IsKnownUniverse(market.universe) && market.universe.IsContainerForMarket(market)
    }
  }

  /** All markets of one denomination token. */
  class Universe {
    const augurLite: AugurLite
    const controller: Controller
    const denominationToken: VariableSupplyToken
    var markets: set<Market>

    ghost predicate Valid()
      reads this, markets
    {
      forall m | m in markets ::
        m.universe == this && m.controller == controller && m.denominationToken == denominationToken && m.Valid()
    }

    constructor (augurLite: AugurLite, controller: Controller, denominationToken: VariableSupplyToken)
      ensures this.augurLite == augurLite && this.controller == controller && this.denominationToken == denominationToken
      ensures markets == {} && Valid()
    {
      this.augurLite, this.controller, this.denominationToken := augurLite, controller, denominationToken;
      markets := {};
    }

    predicate IsContainerForMarket(shady: Market?)
      reads this
    {
      shady in markets
    }

    /** Asks a foreign contract `shady` for its market and outcome, and believes neither: only a token that the
        market itself lists at that outcome passes, and in that array there are only genuine ones. */
    function IsContainerForShareToken(shady: object, claimedMarket: Market?, claimedOutcome: nat): (r: Tx<bool>)
      reads this, markets
      ensures Valid() ==>
                (r == Commit(true) <==> claimedMarket in markets && IsGenuine(shady, claimedMarket, claimedOutcome))
    {
      if claimedMarket == null then Commit(false)
      else if claimedMarket !in markets then Commit(false)
      else claimedMarket.IsContainerForShareToken(shady, claimedOutcome)
    }

    /** createYesNoMarket */
    method CreateYesNoMarket(feeDivisor: uint256, endTime: uint256, token: VariableSupplyToken, oracle: Address, sender: Address,
                             description: string, now: uint256, self: Address, mailbox: Address) returns (m: Market?)
      requires Valid()
      modifies this, denominationToken
      ensures Valid() && (old(augurLite.Valid()) ==> augurLite.Valid())
      ensures m != null <==>
                && description != "" && this in augurLite.universes && !controller.stopped && token == denominationToken
                && (feeDivisor == 0 || feeDivisor >= 2) && oracle != NULL_ADDRESS && sender != NULL_ADDRESS && now < endTime
      ensures Registers(old(markets), m, Terms(2, 10000, feeDivisor, endTime, oracle, sender), self, mailbox)
      ensures m != null ==> m.terms.numTicks % m.terms.numOutcomes == 0
      ensures TokenAfter(old(denominationToken.State()), m != null, self)
    {
      if description == "" || !IsKnown() { return null; }
      m := CreateMarketInternal(token, Terms(2, 10000, feeDivisor, endTime, oracle, sender), now, self, mailbox);
    }

    /** createCategoricalMarket, for a list of outcome names */
    method CreateCategoricalMarket(outcomes: seq<string>, feeDivisor: uint256, endTime: uint256, token: VariableSupplyToken, oracle: Address,
                                   sender: Address, description: string, now: uint256, self: Address, mailbox: Address) returns (m: Market?)
      requires Valid() && |outcomes| < TWO_256
      modifies this, denominationToken
      ensures Valid() && (old(augurLite.Valid()) ==> augurLite.Valid())
      ensures m != null <==>
                && description != "" && this in augurLite.universes && !controller.stopped && token == denominationToken
                && 2 <= |outcomes| <= 8
                && (feeDivisor == 0 || feeDivisor >= 2) && oracle != NULL_ADDRESS && sender != NULL_ADDRESS && now < endTime
      ensures Registers(old(markets), m, Terms(|outcomes|, 10000, feeDivisor, endTime, oracle, sender), self, mailbox)
      ensures TokenAfter(old(denominationToken.State()), m != null, self)
    {
      if description == "" || !IsKnown() { return null; }
      m := CreateMarketInternal(token, Terms(|outcomes|, 10000, feeDivisor, endTime, oracle, sender), now, self, mailbox);
    }

    /** createScalarMarket: an even number of ticks, so that an invalid market can split them in two */
    method CreateScalarMarket(minPrice: int256, maxPrice: int256, numTicks: uint256, feeDivisor: uint256, endTime: uint256,
                              token: VariableSupplyToken, oracle: Address, sender: Address, description: string, now: uint256,
                              self: Address, mailbox: Address) returns (m: Market?)
      requires Valid()
      modifies this, denominationToken
      ensures Valid() && (old(augurLite.Valid()) ==> augurLite.Valid())
      ensures m != null <==>
                && description != "" && this in augurLite.universes && !controller.stopped && token == denominationToken
                && minPrice < maxPrice && numTicks >= 2 && numTicks % 2 == 0
                && (feeDivisor == 0 || feeDivisor >= 2) && oracle != NULL_ADDRESS && sender != NULL_ADDRESS && now < endTime
      ensures Registers(old(markets), m, Terms(2, numTicks, feeDivisor, endTime, oracle, sender), self, mailbox)
      ensures m != null ==> m.terms.numTicks % m.terms.numOutcomes == 0
      ensures TokenAfter(old(denominationToken.State()), m != null, self)
    {
      if description == "" || minPrice >= maxPrice || !IsMultipleOf(numTicks, 2) || !IsKnown() { return null; }
      m := CreateMarketInternal(token, Terms(2, numTicks, feeDivisor, endTime, oracle, sender), now, self, mailbox);
    }

    /** logMarketCreated reverts for a universe that AugurLite did not create. */
    predicate IsKnown()
      reads augurLite
    {
      augurLite.IsKnownUniverse(this)
    }

    /** The new market, if there is one, is registered, new and as agreed; no other changes. */
    twostate predicate Registers(before: set<Market>, new m: Market?, terms: Terms, self: Address, mailbox: Address)
      reads this, m
    {
      if m == null then markets == before
      else
        && markets == before + {m}
        && fresh(m)
        && m.universe == this && m.controller == controller && m.self == self && m.mailbox == mailbox && m.terms == terms
        && m.resolutionTime == 0 && m.payoutNumerators == []
    }

    /** The token with the traders approved for a new market at `self`, if it was created. */
    ghost predicate TokenAfter(before: Token, created: bool, self: Address)
      reads controller, denominationToken
    {
      && denominationToken.balances == before.balances && denominationToken.supply == before.supply
      && forall o, s :: Allowance(denominationToken.State(), o, s) ==
           if created && o == self
              && (s == controller.ContractAt("CompleteSets") || s == controller.ContractAt("ClaimTradingProceeds"))
           then MAX_UINT256 else Allowance(before, o, s)
    }

    method CreateMarketInternal(token: VariableSupplyToken, terms: Terms, now: uint256, self: Address, mailbox: Address) returns (m: Market?)
      requires Valid()
      modifies this, denominationToken
      ensures Valid() && (old(augurLite.Valid()) ==> augurLite.Valid())
      ensures m != null <==>
                && !controller.stopped && token == denominationToken
                && 2 <= terms.numOutcomes <= 8 && terms.numTicks > 0 && terms.numTicks >= terms.numOutcomes
                && (terms.feeDivisor == 0 || terms.feeDivisor >= 2)
                && terms.oracle != NULL_ADDRESS && terms.creator != NULL_ADDRESS && now < terms.endTime
      ensures markets == old(markets) + (if m == null then {} else {m})
      ensures m != null ==> fresh(m) && m.universe == this && m.self == self && m.mailbox == mailbox && m.terms == terms
      ensures m != null ==> m.resolutionTime == 0 && m.payoutNumerators == []
      ensures Registers(old(markets), m, terms, self, mailbox)
      ensures TokenAfter(old(denominationToken.State()), m != null, self)
    {
      if controller.stopped || token != denominationToken || !AcceptableTerms(terms, now) {
        return null;
      }
      m := new Market(this, terms, self, mailbox);
      markets := markets + {m};
    }
  }

  /** The share token at `outcome` in the array of `m`, or anything that pretends to be it. */
  predicate IsGenuine(shady: object, m: Market?, outcome: nat)
    reads m
  {
    && m != null
    && shady is ShareToken
    && (shady as ShareToken).market == m
    && (shady as ShareToken).outcome == outcome
    && (shady as ShareToken) in m.shareTokens
  }

  /** One outcome's token. */
  class ShareToken {
    const market: Market
    const outcome: nat
    const base: VariableSupplyToken

    constructor (market: Market, outcome: nat)
      ensures this.market == market && this.outcome == outcome
      ensures fresh(base) && base.State() == EMPTY_TOKEN
    {
      this.market, this.outcome := market, outcome;
      base := new VariableSupplyToken();
    }

    /** The log hook of a mint, burn or transfer: AugurLite has to accept this token. */
    predicate HookPasses()
      reads market.universe.augurLite, market.universe, market.universe.markets
    {
      market.universe.augurLite.AcceptsLogOf(market.universe, this, market, outcome)
    }

    method CreateShares(caller: Address, owner: Address, v: uint256) returns (ok: bool)
      modifies base
      ensures ok <==> caller in market.controller.whitelist && HookPasses() && Mint(old(base.State()), owner, v).Commit?
      ensures base.State() == if ok then Mint(old(base.State()), owner, v).value else old(base.State())
    {
      if !market.controller.IsWhitelisted(caller) {
        return false;
      }
      var before := base.Snapshot();
      ok := base.Mint(owner, v);
      if ok && !HookPasses() {
        base.Restore(before);
        ok := false;
      }
    }

    method DestroyShares(caller: Address, owner: Address, v: uint256) returns (ok: bool)
      modifies base
      ensures ok <==> caller in market.controller.whitelist && HookPasses() && Burn(old(base.State()), owner, v).Commit?
      ensures base.State() == if ok then Burn(old(base.State()), owner, v).value else old(base.State())
    {
      if !market.controller.IsWhitelisted(caller) {
        return false;
      }
      var before := base.Snapshot();
      ok := base.Burn(owner, v);
      if ok && !HookPasses() {
        base.Restore(before);
        ok := false;
      }
    }

    method TransferShares(sender: Address, to: Address, v: uint256) returns (ok: bool)
      modifies base
      ensures ok <==> HookPasses() && Transfer(old(base.State()), sender, to, v).Commit?
      ensures base.State() == if ok then Transfer(old(base.State()), sender, to, v).value else old(base.State())
    {
      var before := base.Snapshot();
      ok := base.Transfer(sender, to, v);
      if ok && !HookPasses() {
        base.Restore(before);
        ok := false;
      }
    }
  }

  function Bases(ts: seq<ShareToken>): set<VariableSupplyToken> {
    set t | t in ts :: t.base
  }

  ghost function States(ts: seq<ShareToken>): (r: seq<Token>)
    reads Bases(ts)
    ensures |r| == |ts| && forall i | 0 <= i < |r| :: r[i] == ts[i].base.State()
  {
    seq(|ts|, i requires 0 <= i < |ts| reads Bases(ts) => assert ts[i].base in Bases(ts); ts[i].base.State())
  }

  class Market {
    const universe: Universe
    const controller: Controller
    const denominationToken: VariableSupplyToken
    const self: Address
    const mailbox: Address
    const terms: Terms
    var resolutionTime: uint256
    var invalid: bool
    var payoutNumerators: seq<uint256>
    var shareTokens: seq<ShareToken>

    /** Every outcome has its own token, which names this market and that outcome; the market is resolved
        exactly when it has a verified payout vector. */
    ghost predicate Valid()
      reads this
    {
      && WellFormedTerms(terms)
      && |shareTokens| == terms.numOutcomes
      && (forall i | 0 <= i < |shareTokens| ::
            && shareTokens[i].market == this && shareTokens[i].outcome == i
            && shareTokens[i].base != denominationToken)
      && (if resolutionTime != 0 then Acceptable(payoutNumerators, invalid, terms) else payoutNumerators == [])
      && (forall i, j | 0 <= i < j < |shareTokens| :: shareTokens[i].base != shareTokens[j].base)
    }

    ghost function View(): MarketModel.Market
      reads this, Bases(shareTokens)
    {
      MarketModel.Market(self, mailbox, terms, resolutionTime, invalid, payoutNumerators, States(shareTokens))
    }

    /** `initialize`, once its requirements have been checked */
    constructor (universe: Universe, terms: Terms, self: Address, mailbox: Address)
      requires WellFormedTerms(terms) && !universe.controller.stopped
      modifies universe.denominationToken
      ensures this.universe == universe && this.controller == universe.controller
      ensures this.denominationToken == universe.denominationToken
      ensures this.self == self && this.mailbox == mailbox && this.terms == terms
      ensures Valid() && fresh(Bases(shareTokens)) && resolutionTime == 0 && payoutNumerators == []
      ensures !invalid && forall i | 0 <= i < |shareTokens| :: shareTokens[i].base.State() == Token(map[], 0, map[])
      ensures View() == NewMarket(self, mailbox, terms)
      ensures denominationToken.balances == old(universe.denominationToken.balances)
      ensures denominationToken.supply == old(universe.denominationToken.supply)
      ensures forall o, s :: Allowance(denominationToken.State(), o, s) ==
                if o == self
                   && (s == controller.ContractAt("CompleteSets") || s == controller.ContractAt("ClaimTradingProceeds"))
                then MAX_UINT256 else Allowance(old(universe.denominationToken.State()), o, s)
    {
      this.universe, controller, denominationToken := universe, universe.controller, universe.denominationToken;
      this.self, this.mailbox, this.terms := self, mailbox, terms;
      resolutionTime, invalid, payoutNumerators := 0, false, [];
      shareTokens := [];
      new;
      var i: nat := 0;
      while i < terms.numOutcomes
        modifies this
        invariant i <= terms.numOutcomes && |shareTokens| == i
        invariant forall k | 0 <= k < i ::
                    shareTokens[k].market == this && shareTokens[k].outcome == k
                    && fresh(shareTokens[k].base) && shareTokens[k].base.State() == EMPTY_TOKEN
        invariant forall k, j | 0 <= k < j < i :: shareTokens[k].base != shareTokens[j].base
        invariant resolutionTime == 0 && !invalid && payoutNumerators == []
        invariant denominationToken.State() == old(universe.denominationToken.State())
      {
        var t := new ShareToken(this, i);
        shareTokens := shareTokens + [t];
        i := i + 1;
      }
      assert States(shareTokens) == NewMarket(self, mailbox, terms).shares;
      var approved := ApproveSpenders();
    }

    /** Anybody may renew the approvals, in good times. */
    method ApproveSpenders() returns (ok: bool)
      modifies denominationToken
      ensures ok <==> !controller.stopped
      ensures denominationToken.balances == old(denominationToken.balances) && denominationToken.supply == old(denominationToken.supply)
      ensures forall o, s :: Allowance(denominationToken.State(), o, s) ==
                if ok && o == self
                   && (s == controller.ContractAt("CompleteSets") || s == controller.ContractAt("ClaimTradingProceeds"))
                then MAX_UINT256 else Allowance(old(denominationToken.State()), o, s)
    {
      if controller.stopped {
        return false;
      }
      ghost var before := denominationToken.State();
      denominationToken.Approve(self, controller.ContractAt("CompleteSets"), ETERNAL_APPROVAL_VALUE);
      ApproveExact(before, self, controller.ContractAt("CompleteSets"), ETERNAL_APPROVAL_VALUE);
      ghost var between := denominationToken.State();
      denominationToken.Approve(self, controller.ContractAt("ClaimTradingProceeds"), ETERNAL_APPROVAL_VALUE);
      ApproveExact(between, self, controller.ContractAt("ClaimTradingProceeds"), ETERNAL_APPROVAL_VALUE);
      return true;
    }

    predicate IsResolved()
      reads this
    {
      resolutionTime != 0
    }

    /** Reverts for an index outside the array, as the array access does. */
    function ShareTokenAt(outcome: nat): Tx<ShareToken>
      reads this
    {
      if outcome < |shareTokens| then Commit(shareTokens[outcome]) else Revert
    }

    function IsContainerForShareToken(shady: object, claimedOutcome: nat): (r: Tx<bool>)
      reads this
      ensures Valid() ==> (r == Commit(true) <==> IsGenuine(shady, this, claimedOutcome))
    {
      var t :- ShareTokenAt(claimedOutcome);
      Commit(shady == t)
    }

    function PayoutNumerator(outcome: nat): Tx<uint256>
      reads this
    {
      if IsResolved() && outcome < |payoutNumerators| then Commit(payoutNumerators[outcome]) else Revert
    }

    /** deriveMarketCreatorFeeAmount */
    function DeriveMarketCreatorFeeAmount(amount: uint256): uint256 {
      Fee(terms, amount)
    }

    /** Accepts exactly the vectors whose true sum is right; a sum that wraps around is never taken for one. */
    method VerifyResolutionInformation(payouts: seq<uint256>, isInvalid: bool) returns (ok: bool)
      requires Valid()
      ensures ok <==> |payouts| == terms.numOutcomes
                      && if isInvalid then forall i | 0 <= i < |payouts| :: payouts[i] == terms.numTicks / terms.numOutcomes
                         else Sum(payouts) == terms.numTicks
    {
      if payouts == [] {
        return false;
      }
      var sum: uint256 := 0;
      var previous := payouts[0];
      if |payouts| != terms.numOutcomes {
        return false;
      }
      var i: nat := 0;
      while i < |payouts|
        invariant i <= |payouts| && sum == SumTo(payouts, i)
        invariant isInvalid ==> forall k | 0 <= k < i :: payouts[k] == payouts[0]
        invariant isInvalid ==> previous == payouts[0]
      {
        var value := payouts[i];
        var next := Add(sum, value);
        if next.Revert? {
          AcceptableExact(payouts, terms);
          if Acceptable(payouts, isInvalid, terms) {
            AcceptedShortfall(payouts, isInvalid, terms);
            SumMonotone(payouts, i + 1, |payouts|);
          }
          return false;
        }
        sum := next.value;
        if isInvalid && value != previous {
          return false;
        }
        previous := value;
        i := i + 1;
      }
      if isInvalid {
        return previous == terms.numTicks / terms.numOutcomes;
      } else {
        return sum == terms.numTicks;
      }
    }

    /** The oracle resolves the market, once. */
    method Resolve(sender: Address, now: uint256, payouts: seq<uint256>, isInvalid: bool) returns (ok: bool)
      requires Valid()
      modifies this`resolutionTime, this`payoutNumerators, this`invalid
      ensures Valid()
      ensures ok <==>
                && !controller.stopped && universe in universe.augurLite.universes && this in universe.markets
                && old(resolutionTime) == 0 && now > terms.endTime && sender == terms.oracle
                && |payouts| == terms.numOutcomes
                && if isInvalid then forall i | 0 <= i < |payouts| :: payouts[i] == terms.numTicks / terms.numOutcomes
                   else Sum(payouts) == terms.numTicks
      ensures resolutionTime == (if ok then now else old(resolutionTime))
      ensures payoutNumerators == if ok then payouts else old(payoutNumerators)
      ensures invalid == if ok then isInvalid else old(invalid)
      ensures ok ==> MarketModel.Resolve(old(View()), now, sender, payouts, isInvalid) == Commit(View())
    {
      if controller.stopped || IsResolved() || now <= terms.endTime || sender != terms.oracle {
        return false;
      }
      ResolveExact(View(), now, sender, payouts, isInvalid);
      AcceptableExact(payouts, terms);
      ok := VerifyResolutionInformation(payouts, isInvalid);
      if ok {
        var before := (resolutionTime, payoutNumerators, invalid);
        resolutionTime, payoutNumerators, invalid := now, payouts, isInvalid;
        if !universe.augurLite.AcceptsResolutionOf(universe, this) {
          resolutionTime, payoutNumerators, invalid := before.0, before.1, before.2;
          ok := false;
        }
      }
      assert States(shareTokens) == old(States(shareTokens));
    }

    /** What the shares left can claim; reverts exactly when that is no 256-bit number. */
    method OutstandingPayout() returns (r: Tx<uint256>)
      requires Valid() && IsResolved()
      ensures |payoutNumerators| == |shareTokens|
      ensures var due := Dot(Supplies(States(shareTokens)), payoutNumerators);
              r == if due < TWO_256 then Commit(due) else Revert
    {
      hide Mul, Add, DotTo;
      ghost var supplies := Supplies(States(shareTokens));
      var expected: uint256 := 0;
      DotStart(supplies, payoutNumerators);
      assert Dot(supplies, payoutNumerators) == DotTo(supplies, payoutNumerators, |supplies|);
      var i: nat := 0;
      while i < terms.numOutcomes
        invariant i <= |shareTokens| && expected == DotTo(supplies, payoutNumerators, i)
        invariant supplies == Supplies(States(shareTokens))
      {
        var supply := shareTokens[i].base.TotalSupply();
        DotStep(supplies, payoutNumerators, i, supply);
        DotMonotone(supplies, payoutNumerators, i + 1, |supplies|);
        assert DotTo(supplies, payoutNumerators, i + 1) <= Dot(supplies, payoutNumerators);
        var product := Mul(supply, payoutNumerators[i]);
        if product.Revert? {
          assert Dot(supplies, payoutNumerators) >= TWO_256;
          return Revert;
        }
        var sum := Add(expected, product.value);
        if sum.Revert? {
          return Revert;
        }
        expected := sum.value;
        i := i + 1;
      }
      assert i == |supplies|;
      return Commit(expected);
    }

    /** Holds exactly when the escrow covers the obligation in exact arithmetic: a sum or product that
        overflows is one the escrow cannot cover. */
    method AssertBalances() returns (ok: bool)
      requires Valid()
      ensures |payoutNumerators| == if resolutionTime != 0 then |shareTokens| else 0
      ensures ok <==>
                if resolutionTime != 0 then Dot(Supplies(States(shareTokens)), payoutNumerators) <= Get(denominationToken.balances, self)
                else shareTokens[0].base.supply * terms.numTicks <= Get(denominationToken.balances, self)
      ensures ok <==> Covered(View(), denominationToken.BalanceOf(self))
    {
      hide Mul, DotTo, Dot;
      var expected: Tx<uint256>;
      if IsResolved() {
        expected := OutstandingPayout();
      } else {
        assert View().shares[0].supply == shareTokens[0].base.TotalSupply();
        expected := Mul(shareTokens[0].base.TotalSupply(), terms.numTicks);
      }
      return expected.Commit? && denominationToken.BalanceOf(self) >= expected.value;
    }

    /** The tokens a trading call is about to change, to return to should it revert. */
    method Snapshot() returns (d: Token, shares: seq<Token>)
      requires Valid()
      ensures d == denominationToken.State() && shares == States(shareTokens)
    {
      d := denominationToken.Snapshot();
      shares := [];
      var i: nat := 0;
      while i < |shareTokens|
        invariant i <= |shareTokens| && |shares| == i && forall k | 0 <= k < i :: shares[k] == shareTokens[k].base.State()
      {
        var t := shareTokens[i].base.Snapshot();
        shares := shares + [t];
        i := i + 1;
      }
    }

    method Rollback(d: Token, shares: seq<Token>)
      requires Valid() && |shares| == |shareTokens|
      modifies denominationToken, Bases(shareTokens)
      ensures denominationToken.State() == d && States(shareTokens) == shares
    {
      denominationToken.Restore(d);
      var i: nat := 0;
      while i < |shareTokens|
        invariant i <= |shareTokens| && denominationToken.State() == d
        invariant forall k | 0 <= k < i :: shareTokens[k].base.State() == shares[k]
      {
        shareTokens[i].base.Restore(shares[i]);
        i := i + 1;
      }
    }
  }

  /** Where a market creator's fees arrive. */
  class Mailbox {
    const self: Address
    var owner: Address

    constructor (self: Address, owner: Address)
      ensures this.self == self && this.owner == owner
    {
      this.self, this.owner := self, owner;
    }

    /** The owner takes all there is; nobody else takes anything, and with balances that add up it cannot fail. */
    method WithdrawTokens(sender: Address, token: VariableSupplyToken) returns (ok: bool)
      modifies token
      ensures sender != owner ==> !ok
      ensures !ok ==> token.State() == old(token.State())
      ensures ok ==> Transfer(old(token.State()), self, owner, Bal(old(token.State()), self)) == Commit(token.State())
      ensures Conserved(old(token.State())) ==> (ok <==> sender == owner)
      ensures Conserved(old(token.State())) && ok && owner != self ==>
                && Bal(token.State(), self) == 0
                && Bal(token.State(), owner) == Bal(old(token.State()), owner) + Bal(old(token.State()), self)
    {
      if sender != owner {
        return false;
      }
      var balance := token.BalanceOf(self);
      ghost var before := token.State();
      if Conserved(before) {
        TransferExact(before, self, owner, balance);
      }
      ok := token.Transfer(self, owner, balance);
    }
  }
}
