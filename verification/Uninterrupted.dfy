/**
 * Resuming a call to its end is a run of the machine, and a call during which the token makes no
 * calls of its own does just what module Trading says.
 */
module Uninterrupted {
  import opened Transactions
  import opened Words
  import opened SafeMathUint256
  import opened Addresses
  import opened TokenModel
  import opened MarketModel
  import opened Trading
  import opened Protocol
  import opened Accounts
  import opened Invariant
  import opened SetTrading

  // ---- Running a call to its end ----

  /** A bound on how often a call still hands control over. */
  function Rank(w: World, f: Frame): nat {
    match f
    case BuyUnpaid(_, _, _, _) => 2
    case SellFee(_, _, _, _) => 3
    case SellNet(_, _, _) => 2
    case ClaimNet(m, _, next, _, _) => RankFrom(w, m, next) + 2
    case ClaimFee(m, _, next, _) => RankFrom(w, m, next) + 1
    case ClaimNext(m, _, next) => RankFrom(w, m, next)
    case _ => 1
  }

  function RankFrom(w: World, m: Address, next: nat): nat {
    if m in w.pools && next <= |w.pools[m].market.shares| then 3 * (|w.pools[m].market.shares| - next) + 1 else 1
  }

  /** Resume a call until it returns. */
  function Drive(env: Deployment, w: World, f: Frame, fuel: nat): Tx<World>
    decreases fuel
  {
    if fuel == 0 then Revert
    else
      var p :- Resume(env, w, f);
      if p.Finished? then Commit(p.world) else Drive(env, p.world, p.frame, fuel - 1)
  }

  /** A whole call during which nothing else happens. */
  function Alone(env: Deployment, w: World, act: Action): Tx<World> {
    var p :- Begin(w, act);
    Drive(env, p.world, if p.Running? then p.frame else Outside, Rank(p.world, if p.Running? then p.frame else Outside))
  }

  function Continues(k: nat): (r: seq<Action>)
    ensures |r| == k && forall i | 0 <= i < k :: r[i] == Continue
  {
    seq(k, _ => Continue)
  }

  lemma {:induction false} RunAppend(env: Deployment, st: State, acts: seq<Action>, more: seq<Action>)
    ensures Run(env, st, acts + more) == Run(env, Run(env, st, acts), more)
    decreases |more|
  {
    hide Step;
    var all := acts + more;
    if more == [] {
      assert all == acts;
    } else {
      RunAppend(env, st, acts, more[..|more| - 1]);
      assert all[..|all| - 1] == acts + more[..|more| - 1];
    }
  }

  lemma RunFirst(env: Deployment, st: State, a: Action, acts: seq<Action>)
    ensures Run(env, st, [a] + acts) == Run(env, Step(env, st, a), acts)
  {
    hide Step;
    RunAppend(env, st, [a], acts);
    assert Run(env, st, [a]) == Step(env, st, a) by {
      assert [a][..0] == [];
      assert Run(env, st, [a][..0]) == st;
    }
  }

  /** Driving a call is a run of the machine: its frame is gone afterwards and those below are untouched. */
  lemma {:induction false} DriveIsRun(env: Deployment, st: State, fuel: nat) returns (k: nat)
    requires st.stack.Push? && Drive(env, st.world, st.stack.frame, fuel).Commit?
    ensures k <= fuel
    ensures Run(env, st, Continues(k)) == State(Drive(env, st.world, st.stack.frame, fuel).value, st.stack.rest)
    decreases fuel
  {
    hide Resume;
    var p := Resume(env, st.world, st.stack.frame).value;
    var st1 := Step(env, st, Continue);
    if p.Finished? {
      k := 1;
      assert Continues(1) == [Continue] + [];
      RunFirst(env, st, Continue, []);
    } else {
      var j := DriveIsRun(env, st1, fuel - 1);
      k := j + 1;
      assert Continues(k) == [Continue] + Continues(j);
      RunFirst(env, st, Continue, Continues(j));
    }
  }

  /** Each time a call hands control over it has less to do. */
  lemma RankFalls(env: Deployment, w: World, s: Stack)
    requires Consistent(env, w, s) && s.Push? && Resume(env, w, s.frame).Commit?
    ensures var p := Resume(env, w, s.frame).value; p.Running? ==> Rank(p.world, p.frame) < Rank(w, s.frame)
  {
    hide Resume, Rank, Balanced, Conserved, Wired, AllBalanced, LocksAgree;
    ResumeKeepsConsistent(env, w, s);
    FramesFitTop(w, s);
    NextRank(env, w, s.frame);
  }

  lemma NextRank(env: Deployment, w: World, f: Frame)
    requires FrameFits(w, f) && Resume(env, w, f).Commit? && Extends(w, Resume(env, w, f).value.world)
    ensures var p := Resume(env, w, f).value; p.Running? ==> Rank(p.world, p.frame) < Rank(w, f)
  {
    hide PayOut, BalancesAssertable, Settle, TransferFrom, MintAll;
    if !f.Outside? {
      assert f.market in w.pools;
    }
  }

  lemma RankPositive(w: World, f: Frame)
    ensures Rank(w, f) > 0
  {
  }

  /** As much fuel as the rank is enough; more makes no difference. */
  lemma {:induction false} EnoughFuel(env: Deployment, w: World, s: Stack, n: nat)
    requires Consistent(env, w, s) && s.Push? && n >= Rank(w, s.frame)
    ensures Drive(env, w, s.frame, n) == Drive(env, w, s.frame, Rank(w, s.frame))
    decreases Rank(w, s.frame)
  {
    hide Resume, Consistent, Rank;
    RankPositive(w, s.frame);
    if Resume(env, w, s.frame).Commit? && Resume(env, w, s.frame).value.Running? {
      var p := Resume(env, w, s.frame).value;
      ResumeKeepsConsistent(env, w, s);
      RankFalls(env, w, s);
      EnoughFuel(env, p.world, s.(frame := p.frame), n - 1);
      EnoughFuel(env, p.world, s.(frame := p.frame), Rank(w, s.frame) - 1);
    }
  }

  /** A call that cannot be driven to its end reverts, and the world is the one it was entered in. */
  lemma {:induction false} DriveFailsInRun(env: Deployment, st: State) returns (k: nat)
    requires Consistent(env, st.world, st.stack) && st.stack.Push?
    requires Drive(env, st.world, st.stack.frame, Rank(st.world, st.stack.frame)).Revert?
    ensures k <= Rank(st.world, st.stack.frame)
    ensures Run(env, st, Continues(k)) == State(st.stack.saved, st.stack.rest)
    decreases Rank(st.world, st.stack.frame)
  {
    hide Resume, Consistent, Rank;
    var w, f := st.world, st.stack.frame;
    RankPositive(w, f);
    if Resume(env, w, f).Revert? {
      k := 1;
      assert Continues(1) == [Continue] + [];
      RunFirst(env, st, Continue, []);
    } else {
      ResumeKeepsConsistent(env, w, st.stack);
      RankFalls(env, w, st.stack);
      var p := Resume(env, w, f).value;
      assert p.Running?;
      EnoughFuel(env, p.world, st.stack.(frame := p.frame), Rank(w, f) - 1);
      var j := DriveFailsInRun(env, Step(env, st, Continue));
      k := j + 1;
      assert Continues(k) == [Continue] + Continues(j);
      RunFirst(env, st, Continue, Continues(j));
    }
  }

  predicate IsTradingCall(act: Action) {
    act.CallBuy? || act.CallSell? || act.CallClaim? || act.CallOutside?
  }

  /** A whole call, as a run of the machine: it ends as `Alone` says, or with everything as before. */
  lemma AloneIsRun(env: Deployment, st: State, act: Action) returns (k: nat)
    requires Consistent(env, st.world, st.stack) && IsTradingCall(act)
    ensures var r := Alone(env, st.world, act);
            Run(env, st, [act] + Continues(k)) == if r.Commit? then State(r.value, st.stack) else st
    ensures Begin(st.world, act).Commit? ==>
              Begin(st.world, act).value.Running? && k <= Rank(Begin(st.world, act).value.world, Begin(st.world, act).value.frame)
  {
    hide Begin, Consistent, Drive, Rank;
    BeginRuns(st.world, act);
    if Begin(st.world, act).Commit? {
      var p := Begin(st.world, act).value;
      BeginKeepsConsistent(env, st.world, st.stack, act);
      var st1 := Step(env, st, act);
      if Drive(env, p.world, p.frame, Rank(p.world, p.frame)).Commit? {
        k := DriveIsRun(env, st1, Rank(p.world, p.frame));
      } else {
        k := DriveFailsInRun(env, st1);
      }
    } else {
      k := 0;
    }
    RunFirst(env, st, act, Continues(k));
  }

  lemma BeginRuns(w: World, act: Action)
    requires IsTradingCall(act)
    ensures Begin(w, act).Commit? ==> Begin(w, act).value.Running?
  {
  }

  lemma {:induction false} NothingToContinue(env: Deployment, w: World, k: nat)
    ensures Run(env, State(w, Empty), Continues(k)) == State(w, Empty)
  {
    if k > 0 {
      NothingToContinue(env, w, k - 1);
      assert Continues(k)[..k - 1] == Continues(k - 1);
    }
  }

  /** With nothing else suspended it does not matter how often the token hands control back once the call is over. */
  lemma AloneFromIdle(env: Deployment, w: World, act: Action, n: nat)
    requires Consistent(env, w, Empty) && IsTradingCall(act)
    requires Begin(w, act).Commit? ==> Begin(w, act).value.Running? && Rank(Begin(w, act).value.world, Begin(w, act).value.frame) <= n
    ensures var r := Alone(env, w, act);
            Run(env, State(w, Empty), [act] + Continues(n)) == State(if r.Commit? then r.value else w, Empty)
  {
    hide Begin, Consistent, Alone, Rank;
    var k := AloneIsRun(env, State(w, Empty), act);
    if k <= n {
      assert [act] + Continues(n) == ([act] + Continues(k)) + Continues(n - k);
      RunAppend(env, State(w, Empty), [act] + Continues(k), Continues(n - k));
      NothingToContinue(env, Run(env, State(w, Empty), [act] + Continues(k)).world, n - k);
    } else {
      assert Begin(w, act).Revert?;
      NotBegun(env, w, act, n);
    }
  }

  lemma NotBegun(env: Deployment, w: World, act: Action, n: nat)
    requires IsTradingCall(act) && Begin(w, act).Revert?
    ensures Alone(env, w, act).Revert? && Run(env, State(w, Empty), [act] + Continues(n)) == State(w, Empty)
  {
    RunFirst(env, State(w, Empty), act, Continues(n));
    NothingToContinue(env, w, n);
  }

  // ---- A call on its own does what module Trading says ----

  /** `v` is `w` with the given token and the given state of market `m`, history aside. */
  ghost predicate Becomes(w: World, v: World, m: Address, d: Token, mk: Market) {
    && v.denom == d
    && v.pools.Keys == w.pools.Keys
    && (forall k | k in w.pools :: v.pools[k].market == if k == m then mk else w.pools[k].market)
    && (forall k | k in w.pools :: |v.pools[k].ledger.claimed| == |w.pools[k].ledger.claimed|)
    && v.setsLocked == w.setsLocked && v.claimsLocked == w.claimsLocked && v.stopped == w.stopped && v.now == w.now
  }

  predicate ClaimsCounted(w: World, m: Address) {
    m in w.pools && w.pools[m].market.self == m && |w.pools[m].ledger.claimed| == |w.pools[m].market.shares|
  }

  lemma ClaimedPerOutcome(p: Pool, balance: nat, net: nat, fee: nat, unminted: nat)
    requires Balanced(p, balance, net, fee, unminted)
    ensures |p.ledger.claimed| == |p.market.shares| && |p.market.shares| >= 2
  {
  }

  lemma CountedInConsistent(env: Deployment, w: World, s: Stack, m: Address)
    requires Consistent(env, w, s) && m in w.pools
    ensures ClaimsCounted(w, m)
  {
    hide Balanced;
    assert PoolBalanced(w, s, m);
    ClaimedPerOutcome(w.pools[m], Bal(w.denom, m), OwedNet(s, m), OwedFee(s, m), Unminted(s, m));
  }

  lemma PayOutBecomes(w: World, spender: Address, m: Address, to: Address, v: uint256, isFee: bool)
    requires m in w.pools
    ensures PayOut(w, spender, m, to, v).Commit? <==> TransferFrom(w.denom, spender, m, to, v).Commit?
    ensures PayOut(w, spender, m, to, v).Commit? ==>
              Becomes(w, BookOutflow(PayOut(w, spender, m, to, v).value, m, v, isFee), m,
                      TransferFrom(w.denom, spender, m, to, v).value, w.pools[m].market)
  {
    hide TransferFrom, Booked, BookOutflow;
    if PayOut(w, spender, m, to, v).Commit? {
      var w1 := PayOut(w, spender, m, to, v).value;
      OutflowBooked(w1, m, v, isFee);
      SameClaimsBooked(w1.pools[m], v, isFee);
    }
  }

  lemma SameClaimsBooked(p: Pool, v: nat, isFee: bool)
    ensures Booked(p, v, isFee).ledger.claimed == p.ledger.claimed
  {
  }

  /** Whether a trading call may enter its contract at all: the market is there, no stop, and the contract not busy. */
  predicate MayEnter(w: World, act: Action) {
    match act
    case CallBuy(_, m, _) => m in w.pools && !w.stopped && !w.setsLocked
    case CallSell(_, m, _) => m in w.pools && !w.stopped && !w.setsLocked
    case CallClaim(m, _) => m in w.pools && !w.stopped && !w.claimsLocked
    case _ => true
  }

  lemma NoEntry(env: Deployment, w: World, act: Action)
    requires !MayEnter(w, act)
    ensures Begin(w, act).Revert? && Alone(env, w, act).Revert?
  {
  }

  lemma BuyInGoodTimes(env: Deployment, w: World, s: Stack, buyer: Address, m: Address, sets: uint256)
    requires Consistent(env, w, s) && Callable(w, m) && !w.setsLocked
    ensures var r := Alone(env, w, CallBuy(buyer, m, sets));
            var a := Buy(env, w.denom, w.pools[m].market, buyer, sets);
            && (r.Commit? <==> a.Commit?)
            && (r.Commit? ==> Becomes(w, r.value, m, a.value.0, a.value.1))
  {
    hide Consistent, TransferFrom, MintAll, Covered, Rank;
    assert w.pools[m].market.self == m by { InBalanceAt(env, w, s, m); }
    if StartBuy(w, buyer, m, sets).Commit? {
      var p := StartBuy(w, buyer, m, sets).value;
      assert Rank(p.world, p.frame) == 2 by { BuyRank(p.world, p.frame); }
      if Resume(env, p.world, p.frame).Commit? {
        var q := Resume(env, p.world, p.frame).value;
        assert Drive(env, p.world, p.frame, 2) == Drive(env, q.world, q.frame, 1);
      }
    }
  }

  /** A purchase on its own succeeds exactly when its gates are open and module Trading says so, and ends as that says. */
  lemma BuyAlone(env: Deployment, w: World, s: Stack, buyer: Address, m: Address, sets: uint256)
    requires Consistent(env, w, s)
    ensures var r := Alone(env, w, CallBuy(buyer, m, sets));
            && (r.Commit? <==> m in w.pools && !w.stopped && !w.setsLocked && Buy(env, w.denom, w.pools[m].market, buyer, sets).Commit?)
            && (r.Commit? ==> var a := Buy(env, w.denom, w.pools[m].market, buyer, sets).value; Becomes(w, r.value, m, a.0, a.1))
  {
    hide Consistent, Alone, Buy, Becomes;
    if MayEnter(w, CallBuy(buyer, m, sets)) {
      BuyInGoodTimes(env, w, s, buyer, m, sets);
    } else {
      NoEntry(env, w, CallBuy(buyer, m, sets));
    }
  }

  lemma BuyRank(w: World, f: Frame)
    ensures f.BuyUnpaid? ==> Rank(w, f) == 2
    ensures f.SellFee? ==> Rank(w, f) == 3
    ensures f.SellNet? ==> Rank(w, f) == 2
  {
  }

  lemma BecomesUnlocked(w: World, v: World, m: Address, d: Token, mk: Market)
    requires m in w.pools && Becomes(w, v, m, d, mk)
    ensures m in v.pools && v.denom == d && v.pools[m].market == mk
    ensures Becomes(w.(setsLocked := false), v.(setsLocked := false), m, d, mk)
  {
  }

  /** The rest of a sale after its shares were burned. */
  lemma SaleRest(env: Deployment, w: World, m: Address, seller: Address, net: uint256)
    requires m in w.pools && w.pools[m].market.self == m
    ensures var r := Drive(env, w, SellNet(m, seller, net), 2);
            var d := TransferFrom(w.denom, env.completeSets, m, seller, net);
            && (r.Commit? <==> d.Commit? && Covered(w.pools[m].market, Bal(d.value, m)))
            && (r.Commit? ==> Becomes(w.(setsLocked := false), r.value, m, d.value, w.pools[m].market))
  {
    hide TransferFrom, Covered, PayOut, BookPaid, Becomes;
    PayOutBecomes(w, env.completeSets, m, seller, net, false);
    if PayOut(w, env.completeSets, m, seller, net).Commit? {
      var d := TransferFrom(w.denom, env.completeSets, m, seller, net).value;
      var v := BookPaid(PayOut(w, env.completeSets, m, seller, net).value, m, net);
      assert Drive(env, w, SellNet(m, seller, net), 2) == Drive(env, v, SellDone(m), 1);
      BecomesUnlocked(w, v, m, d, w.pools[m].market);
    }
  }

  lemma SaleWithFee(env: Deployment, w: World, m: Address, seller: Address, net: uint256, fee: uint256)
    requires m in w.pools && w.pools[m].market.self == m
    ensures var r := Drive(env, w, SellFee(m, seller, net, fee), 3);
            var d := TransferFrom(w.denom, env.completeSets, m, w.pools[m].market.mailbox, fee);
            && (r.Commit? <==>
                  d.Commit? &&
                  var d2 := TransferFrom(d.value, env.completeSets, m, seller, net);
                  d2.Commit? && Covered(w.pools[m].market, Bal(d2.value, m)))
            && (r.Commit? ==> Becomes(w.(setsLocked := false), r.value, m,
                                      TransferFrom(d.value, env.completeSets, m, seller, net).value, w.pools[m].market))
  {
    hide TransferFrom, Covered, PayOut, BookFee, Becomes;
    var mailbox := w.pools[m].market.mailbox;
    PayOutBecomes(w, env.completeSets, m, mailbox, fee, true);
    if PayOut(w, env.completeSets, m, mailbox, fee).Commit? {
      var v := BookFee(PayOut(w, env.completeSets, m, mailbox, fee).value, m, fee);
      assert Drive(env, w, SellFee(m, seller, net, fee), 3) == Drive(env, v, SellNet(m, seller, net), 2);
      BecomesUnlocked(w, v, m, TransferFrom(w.denom, env.completeSets, m, mailbox, fee).value, w.pools[m].market);
      SaleRest(env, v, m, seller, net);
      var r := Drive(env, v, SellNet(m, seller, net), 2);
      if r.Commit? {
        BecomesInTurn(w.(setsLocked := false), v.(setsLocked := false), r.value, m, v.denom, w.pools[m].market,
                      TransferFrom(v.denom, env.completeSets, m, seller, net).value, w.pools[m].market);
      }
    }
  }

  /** A sale up to its first payment. */
  lemma SaleBegins(w: World, seller: Address, m: Address, sets: uint256)
    requires Callable(w, m) && !w.setsLocked
    ensures var mk := w.pools[m].market;
            var payout := Mul(sets, mk.terms.numTicks);
            var r := StartSell(w, seller, m, sets);
            && (r.Commit? <==> seller != NULL_ADDRESS && payout.Commit? && Sub(payout.value, Fee(mk.terms, payout.value)).Commit?
                               && BurnAll(mk.shares, seller, sets).Commit?)
            && (r.Commit? ==>
                  var fee := Fee(mk.terms, payout.value);
                  var net := Sub(payout.value, fee).value;
                  && r.value.Running?
                  && r.value.frame == (if fee != 0 then SellFee(m, seller, net, fee) else SellNet(m, seller, net))
                  && Becomes(w.(setsLocked := true), r.value.world, m, w.denom, mk.(shares := BurnAll(mk.shares, seller, sets).value)))
  {
    hide BurnAll, Fee, Mul, Sub;
  }

  lemma SellInGoodTimes(env: Deployment, w: World, s: Stack, seller: Address, m: Address, sets: uint256)
    requires Consistent(env, w, s) && Callable(w, m) && !w.setsLocked
    ensures var r := Alone(env, w, CallSell(seller, m, sets));
            var a := Sell(env, w.denom, w.pools[m].market, seller, sets);
            && (r.Commit? <==> a.Commit?)
            && (r.Commit? ==> Becomes(w, r.value, m, a.value.0, a.value.1))
  {
    hide Consistent, TransferFrom, BurnAll, Covered, Rank, Drive, Fee, Mul, Sub, StartSell;
    assert w.pools[m].market.self == m by { InBalanceAt(env, w, s, m); }
    SaleBegins(w, seller, m, sets);
    if StartSell(w, seller, m, sets).Commit? {
      var p := StartSell(w, seller, m, sets).value;
      BuyRank(p.world, p.frame);
      if p.frame.SellFee? {
        SaleWithFee(env, p.world, m, seller, p.frame.net, p.frame.fee);
      } else {
        SaleRest(env, p.world, m, seller, p.frame.net);
      }
    }
  }

  /** A sale on its own succeeds exactly when its gates are open and module Trading says so, and ends as that says. */
  lemma SellAlone(env: Deployment, w: World, s: Stack, seller: Address, m: Address, sets: uint256)
    requires Consistent(env, w, s)
    ensures var r := Alone(env, w, CallSell(seller, m, sets));
            && (r.Commit? <==> m in w.pools && !w.stopped && !w.setsLocked && Sell(env, w.denom, w.pools[m].market, seller, sets).Commit?)
            && (r.Commit? ==> var a := Sell(env, w.denom, w.pools[m].market, seller, sets).value; Becomes(w, r.value, m, a.0, a.1))
  {
    hide Consistent, Alone, Sell, Becomes;
    if MayEnter(w, CallSell(seller, m, sets)) {
      SellInGoodTimes(env, w, s, seller, m, sets);
    } else {
      NoEntry(env, w, CallSell(seller, m, sets));
    }
  }

  /** The holder's part of an outcome's payments. */
  lemma NetPaid(env: Deployment, w: World, m: Address, h: Address, next: nat, net: uint256, fee: uint256, fuel: nat) returns (v: World)
    requires m in w.pools && net > 0 && fuel > 0
    ensures var d := Pay(env.claims, w.denom, m, h, net);
            if d.Revert? then Drive(env, w, AfterSettling(m, h, next, net, fee), fuel).Revert?
            else
              && Drive(env, w, AfterSettling(m, h, next, net, fee), fuel) == Drive(env, v, AfterSettling(m, h, next, 0, fee), fuel - 1)
              && Becomes(w, v, m, d.value, w.pools[m].market)
  {
    hide TransferFrom, PayOut, BookPaid, Becomes;
    v := w;
    PayOutBecomes(w, env.claims, m, h, net, false);
    if PayOut(w, env.claims, m, h, net).Commit? {
      v := BookPaid(PayOut(w, env.claims, m, h, net).value, m, net);
    }
  }

  /** The mailbox's part. */
  lemma FeePaid(env: Deployment, w: World, m: Address, h: Address, next: nat, fee: uint256, fuel: nat) returns (v: World)
    requires m in w.pools && fee > 0 && fuel > 0
    ensures var d := Pay(env.claims, w.denom, m, w.pools[m].market.mailbox, fee);
            if d.Revert? then Drive(env, w, ClaimFee(m, h, next, fee), fuel).Revert?
            else
              && Drive(env, w, ClaimFee(m, h, next, fee), fuel) == Drive(env, v, ClaimNext(m, h, next), fuel - 1)
              && Becomes(w, v, m, d.value, w.pools[m].market)
  {
    hide TransferFrom, PayOut, BookFee, Becomes;
    v := w;
    var mailbox := w.pools[m].market.mailbox;
    PayOutBecomes(w, env.claims, m, mailbox, fee, true);
    if PayOut(w, env.claims, m, mailbox, fee).Commit? {
      v := BookFee(PayOut(w, env.claims, m, mailbox, fee).value, m, fee);
    }
  }

  /** The payments for one outcome of a claim, after its shares were burned: where they lead, if they go through. */
  lemma OutcomePayments(env: Deployment, w: World, m: Address, h: Address, next: nat, net: uint256, fee: uint256, fuel: nat)
    returns (v: World, k: nat)
    requires ClaimsCounted(w, m) && fuel >= 2
    ensures var d1 := Pay(env.claims, w.denom, m, h, net);
            if d1.Revert? || Pay(env.claims, d1.value, m, w.pools[m].market.mailbox, fee).Revert?
            then Drive(env, w, AfterSettling(m, h, next, net, fee), fuel).Revert?
            else
              && fuel - 2 <= k <= fuel
              && Drive(env, w, AfterSettling(m, h, next, net, fee), fuel) == Drive(env, v, ClaimNext(m, h, next), k)
              && Becomes(w, v, m, Pay(env.claims, d1.value, m, w.pools[m].market.mailbox, fee).value, w.pools[m].market)
  {
    hide TransferFrom, Drive;
    v, k := w, fuel;
    if net > 0 {
      v := NetPaid(env, w, m, h, next, net, fee, fuel);
      if Pay(env.claims, w.denom, m, h, net).Revert? { return; }
      k := k - 1;
    }
    if fee > 0 {
      var u := FeePaid(env, v, m, h, next, fee, k);
      v, k := u, k - 1;
    }
  }

  /** One outcome of a claim, burned and paid: both sides fail or get to the next one in the same state. */
  lemma OutcomeDriven(env: Deployment, w: World, m: Address, h: Address, i: nat, fuel: nat) returns (v: World, k: nat)
    requires ClaimsCounted(w, m) && i < |w.pools[m].market.shares| && fuel >= 4
    ensures var r := Drive(env, w, ClaimNext(m, h, i), fuel);
            var a := ClaimFrom(env, w.denom, w.pools[m].market, h, i);
            || (r.Revert? && a.Revert?)
            || (&& fuel - 3 <= k < fuel
                && ClaimsCounted(v, m) && |v.pools[m].market.shares| == |w.pools[m].market.shares|
                && r == Drive(env, v, ClaimNext(m, h, i + 1), k)
                && a == ClaimFrom(env, v.denom, v.pools[m].market, h, i + 1)
                && Becomes(w, v, m, v.denom, v.pools[m].market))
  {
    hide Settle, Pay, Covered, Becomes, SettleOutcome;
    v, k := w, 0;
    var mk := w.pools[m].market;
    SettleBecomes(env, w, m, h, i);
    if Settle(w.denom, mk, h, i).Commit? {
      var s := Settle(w.denom, mk, h, i).value;
      var u := SettleOutcome(w, m, h, i).value.world;
      assert Drive(env, w, ClaimNext(m, h, i), fuel) == Drive(env, u, AfterSettling(m, h, i + 1, s.net, s.fee), fuel - 1);
      v, k := OutcomePayments(env, u, m, h, i + 1, s.net, s.fee, fuel - 1);
      var d1 := Pay(env.claims, u.denom, m, h, s.net);
      if d1.Commit? && Pay(env.claims, d1.value, m, mk.mailbox, s.fee).Commit? {
        var d2 := Pay(env.claims, d1.value, m, mk.mailbox, s.fee).value;
        BecomesCounted(u, v, m, d2, s.market);
        BecomesInTurn(w, u, v, m, w.denom, s.market, d2, s.market);
      }
    }
  }

  lemma BecomesInTurn(w: World, u: World, v: World, m: Address, d: Token, mk: Market, d': Token, mk': Market)
    requires Becomes(w, u, m, d, mk) && Becomes(u, v, m, d', mk')
    ensures Becomes(w, v, m, d', mk')
  {
  }

  lemma {:induction false} ClaimDriven(env: Deployment, w: World, m: Address, h: Address, i: nat, fuel: nat)
    requires ClaimsCounted(w, m) && i <= |w.pools[m].market.shares| && fuel >= 3 * (|w.pools[m].market.shares| - i) + 1
    ensures var r := Drive(env, w, ClaimNext(m, h, i), fuel);
            var a := ClaimFrom(env, w.denom, w.pools[m].market, h, i);
            && (r.Commit? <==> a.Commit?)
            && (r.Commit? ==> Becomes(w.(claimsLocked := false), r.value, m, a.value.0, a.value.1))
    decreases |w.pools[m].market.shares| - i
  {
    hide Settle, Pay, Covered, Becomes, SettleOutcome;
    if i == |w.pools[m].market.shares| {
      BecomesItself(w.(claimsLocked := false), m);
    } else {
      hide Drive, ClaimFrom;
      var v, k := OutcomeDriven(env, w, m, h, i, fuel);
      if !(Drive(env, w, ClaimNext(m, h, i), fuel).Revert? && ClaimFrom(env, w.denom, w.pools[m].market, h, i).Revert?) {
        ClaimDriven(env, v, m, h, i + 1, k);
        var r := Drive(env, v, ClaimNext(m, h, i + 1), k);
        if r.Commit? {
          var a := ClaimFrom(env, v.denom, v.pools[m].market, h, i + 1).value;
          BecomesReleased(w, v, r.value, m, a.0, a.1);
        }
      }
    }
  }

  lemma BecomesReleased(w: World, v: World, x: World, m: Address, d: Token, mk: Market)
    requires m in v.pools && Becomes(w, v, m, v.denom, v.pools[m].market) && Becomes(v.(claimsLocked := false), x, m, d, mk)
    ensures Becomes(w.(claimsLocked := false), x, m, d, mk)
  {
  }

  lemma SettleBecomes(env: Deployment, w: World, m: Address, h: Address, i: nat)
    requires ClaimsCounted(w, m) && i < |w.pools[m].market.shares|
    ensures SettleOutcome(w, m, h, i).Commit? <==> Settle(w.denom, w.pools[m].market, h, i).Commit?
    ensures SettleOutcome(w, m, h, i).Commit? ==>
              var s := Settle(w.denom, w.pools[m].market, h, i).value;
              var p := SettleOutcome(w, m, h, i).value;
              && p.Running? && p.frame == AfterSettling(m, h, i + 1, s.net, s.fee)
              && Becomes(w, p.world, m, w.denom, s.market)
              && ClaimsCounted(p.world, m)
              && s.market.mailbox == w.pools[m].market.mailbox && s.market.self == m
              && |s.market.shares| == |w.pools[m].market.shares|
              && p.world.denom == w.denom && p.world.pools[m].market == s.market
  {
    if Settle(w.denom, w.pools[m].market, h, i).Commit? {
      SettleTouchesShares(w.denom, w.pools[m].market, h, i);
      hide Settle;
    }
  }

  lemma BecomesItself(w: World, m: Address)
    requires m in w.pools
    ensures Becomes(w, w, m, w.denom, w.pools[m].market)
  {
  }

  lemma BecomesCounted(w: World, v: World, m: Address, d: Token, mk: Market)
    requires ClaimsCounted(w, m) && Becomes(w, v, m, d, mk) && mk.self == m && |mk.shares| == |w.pools[m].market.shares|
    ensures ClaimsCounted(v, m) && v.denom == d && v.pools[m].market == mk
  {
  }

  lemma ClaimInGoodTimes(env: Deployment, w: World, s: Stack, m: Address, h: Address)
    requires Consistent(env, w, s) && Callable(w, m) && !w.claimsLocked
    ensures var r := Alone(env, w, CallClaim(m, h));
            var a := Claim(env, w.denom, w.pools[m].market, w.now, h);
            && (r.Commit? <==> a.Commit?)
            && (r.Commit? ==> Becomes(w, r.value, m, a.value.0, a.value.1))
  {
    hide Consistent, ClaimFrom, Drive, Becomes;
    CountedInConsistent(env, w, s, m);
    if w.now > w.pools[m].market.resolutionTime {
      var p := StartClaim(w, m, h).value;
      ClaimDriven(env, p.world, m, h, 0, Rank(p.world, p.frame));
      assert p.world.(claimsLocked := false) == w;
    }
  }

  /** A claim on its own succeeds exactly when its gates are open and module Trading says so, and ends as that says. */
  lemma ClaimAlone(env: Deployment, w: World, s: Stack, m: Address, h: Address)
    requires Consistent(env, w, s)
    ensures var r := Alone(env, w, CallClaim(m, h));
            && (r.Commit? <==> m in w.pools && !w.stopped && !w.claimsLocked && Claim(env, w.denom, w.pools[m].market, w.now, h).Commit?)
            && (r.Commit? ==> var a := Claim(env, w.denom, w.pools[m].market, w.now, h).value; Becomes(w, r.value, m, a.0, a.1))
  {
    hide Consistent, Alone, Claim, Becomes;
    if MayEnter(w, CallClaim(m, h)) {
      ClaimInGoodTimes(env, w, s, m, h);
    } else {
      NoEntry(env, w, CallClaim(m, h));
    }
  }
}
