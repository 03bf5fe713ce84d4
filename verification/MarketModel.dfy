/** The state of a market: its terms, its resolution and its share tokens, one per outcome. */
module MarketModel {
  import opened Transactions
  import opened Words
  import opened Vectors
  import opened Addresses
  import opened TokenModel

  const MIN_FEE_DIVISOR := 2
  const MIN_OUTCOMES := 2
  const MAX_OUTCOMES := 8

  datatype Terms = Terms(
    numOutcomes: uint256,
    numTicks: uint256,
    feeDivisor: uint256,
    endTime: uint256,
    oracle: Address,
    creator: Address)

  datatype Market = Market(
    self: Address,
    mailbox: Address,
    terms: Terms,
    resolutionTime: uint256,
    invalid: bool,
    payouts: seq<uint256>,
    shares: seq<Token>)

  /** What `initialize` requires of a new market's terms at the time of its creation. */
  predicate AcceptableTerms(t: Terms, now: uint256) {
    && WellFormedTerms(t)
    && t.oracle != NULL_ADDRESS
    && t.creator != NULL_ADDRESS
    && now < t.endTime
  }

  predicate WellFormedTerms(t: Terms) {
    && MIN_OUTCOMES <= t.numOutcomes <= MAX_OUTCOMES
    && t.numTicks > 0
    && t.numTicks >= t.numOutcomes
    && (t.feeDivisor == 0 || t.feeDivisor >= MIN_FEE_DIVISOR)
  }

  function NewMarket(self: Address, mailbox: Address, terms: Terms): Market {
    Market(self, mailbox, terms, 0, false, [], seq(terms.numOutcomes, _ => EMPTY_TOKEN))
  }

  predicate Resolved(mk: Market) {
    mk.resolutionTime != 0
  }

  /** The payout vectors an oracle may report: exactly numTicks in all, or the same floored share each. */
  predicate Acceptable(payouts: seq<nat>, invalid: bool, terms: Terms)
    requires terms.numOutcomes > 0
  {
    && |payouts| == terms.numOutcomes
    && if invalid then forall i | 0 <= i < |payouts| :: payouts[i] == terms.numTicks / terms.numOutcomes
       else Sum(payouts) == terms.numTicks
  }

  function Resolve(mk: Market, now: uint256, sender: Address, payouts: seq<uint256>, invalid: bool): Tx<Market>
    requires mk.terms.numOutcomes > 0
  {
    if Resolved(mk) || now <= mk.terms.endTime || sender != mk.terms.oracle || !Acceptable(payouts, invalid, mk.terms)
    then Revert
    else Commit(mk.(resolutionTime := now, payouts := payouts, invalid := invalid))
  }

  /** A market is created on two to eight outcomes, at least a tick for each, a fee of at most half, and parties that
      exist, with its end still to come. */
  lemma TermsExact(t: Terms, now: uint256)
    ensures AcceptableTerms(t, now) <==>
              && 2 <= t.numOutcomes <= 8
              && t.numOutcomes <= t.numTicks
              && (t.feeDivisor == 0 || t.feeDivisor >= 2)
              && t.oracle != Address(0) && t.creator != Address(0)
              && now < t.endTime
  {
  }

  /** Any split of the ticks between the outcomes resolves a market, whoever gets nothing; none but the even one
      declares it invalid. */
  lemma AcceptableExact(payouts: seq<nat>, terms: Terms)
    requires terms.numOutcomes > 0
    ensures Acceptable(payouts, false, terms) <==> |payouts| == terms.numOutcomes && Sum(payouts) == terms.numTicks
    ensures Acceptable(payouts, true, terms) <==>
              |payouts| == terms.numOutcomes && forall i | 0 <= i < |payouts| :: payouts[i] == terms.numTicks / terms.numOutcomes
  {
  }

  function WinnerTakesAll(terms: Terms, winner: nat): seq<uint256> {
    seq(terms.numOutcomes, i => if i == winner then terms.numTicks else 0)
  }

  /** Every outcome of every market can win all of it, and every market can be declared invalid. */
  lemma EveryOutcomeCanWin(terms: Terms, winner: nat)
    requires winner < terms.numOutcomes
    ensures Acceptable(WinnerTakesAll(terms, winner), false, terms)
    ensures Acceptable(seq(terms.numOutcomes, _ => terms.numTicks / terms.numOutcomes), true, terms)
  {
    SumOfWinner(terms, winner, terms.numOutcomes);
  }

  lemma {:induction false} SumOfWinner(terms: Terms, winner: nat, n: nat)
    requires n <= terms.numOutcomes
    ensures SumTo(WinnerTakesAll(terms, winner), n) == if winner < n then terms.numTicks else 0
  {
    if n > 0 {
      SumOfWinner(terms, winner, n - 1);
    }
  }

  /** Exactly who can resolve a market, when and to what; it then carries just that. */
  lemma ResolveExact(mk: Market, now: uint256, sender: Address, payouts: seq<uint256>, invalid: bool)
    requires mk.terms.numOutcomes > 0
    ensures Resolve(mk, now, sender, payouts, invalid).Commit? <==>
              && mk.resolutionTime == 0 && now > mk.terms.endTime && sender == mk.terms.oracle
              && |payouts| == mk.terms.numOutcomes
              && if invalid then forall i | 0 <= i < |payouts| :: payouts[i] == mk.terms.numTicks / mk.terms.numOutcomes
                 else Sum(payouts) == mk.terms.numTicks
    ensures Resolve(mk, now, sender, payouts, invalid).Commit? ==>
              Resolve(mk, now, sender, payouts, invalid).value
              == Market(mk.self, mk.mailbox, mk.terms, now, invalid, payouts, mk.shares)
  {
    AcceptableExact(payouts, mk.terms);
  }

  /** The market creator's fee on a redemption of `amount`. */
  function Fee(terms: Terms, amount: uint256): uint256 {
    if terms.feeDivisor == 0 then 0 else amount / terms.feeDivisor
  }

  /** What `sets` complete sets cost, and sell for before the fee. */
  function Price(mk: Market, sets: nat): nat {
    sets * mk.terms.numTicks
  }

  function Supplies(shares: seq<Token>): (r: seq<uint256>)
    ensures |r| == |shares| && forall i | 0 <= i < |r| :: r[i] == shares[i].supply
  {
    seq(|shares|, i requires 0 <= i < |shares| => shares[i].supply)
  }

  /** What `assertBalances` asserts of the market's escrow `balance`, in exact arithmetic. */
  predicate Covered(mk: Market, balance: nat) {
    if Resolved(mk) then |mk.payouts| == |mk.shares| && Dot(Supplies(mk.shares), mk.payouts) <= balance
    else |mk.shares| > 0 && mk.shares[0].supply * mk.terms.numTicks <= balance
  }

  /** The part of a complete set's price that an accepted payout vector does not pay back. */
  function Shortfall(mk: Market): int {
    mk.terms.numTicks - Sum(mk.payouts)
  }

  /** An accepted payout vector never exceeds the price of a set, and falls short by less than one tick an outcome. */
  lemma AcceptedShortfall(payouts: seq<uint256>, invalid: bool, terms: Terms)
    requires terms.numOutcomes > 0 && Acceptable(payouts, invalid, terms)
    ensures 0 <= terms.numTicks - Sum(payouts) < terms.numOutcomes
    ensures terms.numTicks - Sum(payouts) == if invalid then terms.numTicks % terms.numOutcomes else 0
  {
    if invalid {
      SumUniform(payouts, terms.numTicks / terms.numOutcomes, |payouts|);
    }
  }

  lemma FeeBounds(terms: Terms, amount: uint256)
    requires WellFormedTerms(terms)
    ensures Fee(terms, amount) <= amount
    ensures terms.feeDivisor == 0 ==> Fee(terms, amount) == 0
    ensures terms.feeDivisor != 0 ==>
              terms.feeDivisor * Fee(terms, amount) <= amount <= terms.feeDivisor * Fee(terms, amount) + (terms.feeDivisor - 1)
  {
    if terms.feeDivisor != 0 {
      QuotientBounds(amount, terms.feeDivisor);
    }
  }

  lemma QuotientBounds(x: nat, f: nat)
    requires f > 0
    ensures 0 <= x / f <= x
    ensures f * (x / f) <= x <= f * (x / f) + (f - 1)
  {
    var q := x / f;
    assert x == f * q + x % f;
    ScaleUp(q, f);
  }

  lemma ScaleUp(q: int, f: int)
    requires f > 0
    ensures q >= 0 ==> q <= f * q
    ensures q < 0 ==> f * q <= -f
  {
    if q >= 0 {
      assert f * q == q + (f - 1) * q;
    } else {
      assert f * q == -f + f * (q + 1);
    }
  }
}
