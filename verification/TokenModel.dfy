module Addresses {
  datatype Address = Address(id: nat)

  const NULL_ADDRESS := Address(0)
}

/**
 * The state of one ERC-20 token and what each entry point of BasicToken, StandardToken and
 * VariableSupplyToken does to it: the new state, or a revert.
 */
module TokenModel {
  import opened Transactions
  import opened Words
  import opened SafeMathUint256
  import opened Storage
  import opened Addresses

  /** An approval of this amount is everlasting: transferFrom does not decrement it. */
  const ETERNAL_APPROVAL_VALUE := MAX_UINT256

  datatype Token = Token(balances: Mapping<Address>, supply: uint256, allowed: Mapping<(Address, Address)>)

  const EMPTY_TOKEN := Token(map[], 0, map[])

  function Bal(t: Token, a: Address): uint256 {
    Get(t.balances, a)
  }

  function Allowance(t: Token, owner: Address, spender: Address): uint256 {
    Get(t.allowed, (owner, spender))
  }

  /** Debit first, then credit what the debit left: the order matters when from == to. */
  function Transfer(t: Token, from: Address, to: Address, v: uint256): Tx<Token> {
    var debited :- Sub(Bal(t, from), v);
    var balances := Put(t.balances, from, debited);
    var credited :- Add(Get(balances, to), v);
    Commit(t.(balances := Put(balances, to, credited)))
  }

  function TransferFrom(t: Token, spender: Address, from: Address, to: Address, v: uint256): Tx<Token> {
    var allowance := Allowance(t, from, spender);
    var allowed :- if allowance != ETERNAL_APPROVAL_VALUE then
                     var left :- Sub(allowance, v);
                     Commit(Put(t.allowed, (from, spender), left))
                   else Commit(t.allowed);
    Transfer(t.(allowed := allowed), from, to, v)
  }

  function Approve(t: Token, owner: Address, spender: Address, v: uint256): Token {
    t.(allowed := Put(t.allowed, (owner, spender), v))
  }

  function IncreaseApproval(t: Token, owner: Address, spender: Address, v: uint256): Tx<Token> {
    var sum :- Add(Allowance(t, owner, spender), v);
    Commit(Approve(t, owner, spender, sum))
  }

  function DecreaseApproval(t: Token, owner: Address, spender: Address, v: uint256): Token {
    var allowance := Allowance(t, owner, spender);
    Approve(t, owner, spender, if v > allowance then 0 else allowance - v)
  }

  function Mint(t: Token, target: Address, v: uint256): Tx<Token> {
    var balance :- Add(Bal(t, target), v);
    var supply :- Add(t.supply, v);
    Commit(t.(balances := Put(t.balances, target, balance), supply := supply))
  }

  function Burn(t: Token, target: Address, v: uint256): Tx<Token> {
    var balance :- Sub(Bal(t, target), v);
    var supply :- Sub(t.supply, v);
    Commit(t.(balances := Put(t.balances, target, balance), supply := supply))
  }

  /** The balances add up to the supply. */
  ghost predicate Conserved(t: Token) {
    Total(t.balances) == t.supply
  }

  /** What `v` moving from `from` to `to` adds to the balance of `a`; nothing when from == to. */
  function Moved(a: Address, from: Address, to: Address, v: int): int {
    (if a == to then v else 0) - (if a == from then v else 0)
  }

  lemma BalancesWithinSupply(t: Token, a: Address, b: Address)
    requires Conserved(t)
    ensures Bal(t, a) <= t.supply
    ensures a != b ==> Bal(t, a) + Bal(t, b) <= t.supply
  {
    TwoEntriesWithinTotal(t.balances, a, b);
  }

  /** Once the balance covers it a transfer cannot fail, self-transfers included. */
  lemma TransferExact(t: Token, from: Address, to: Address, v: uint256)
    requires Conserved(t)
    ensures Transfer(t, from, to, v).Commit? <==> v <= Bal(t, from)
    ensures Transfer(t, from, to, v).Commit? ==>
              var t' := Transfer(t, from, to, v).value;
              && Conserved(t')
              && t'.supply == t.supply && t'.allowed == t.allowed
              && forall a :: Bal(t', a) == Bal(t, a) + Moved(a, from, to, v)
  {
    hide Total;
    if v <= Bal(t, from) {
      var left: uint256 := Bal(t, from) - v;
      var debited := Put(t.balances, from, left);
      DebitThenCredit(t.balances, from, to, v);
      var sum: uint256 := Get(debited, to) + v;
      assert Sub(Bal(t, from), v) == Commit(left) && Add(Get(debited, to), v) == Commit(sum);
      assert Transfer(t, from, to, v) == Commit(t.(balances := Put(debited, to, sum)));
    }
  }

  lemma DebitThenCredit(m: Mapping<Address>, from: Address, to: Address, v: uint256)
    requires v <= Get(m, from) && Total(m) < TWO_256
    ensures var debited := Put(m, from, Get(m, from) - v);
            && Get(debited, to) + v < TWO_256
            && var credited := Put(debited, to, Get(debited, to) + v);
            && Total(credited) == Total(m)
            && forall a :: Get(credited, a) == Get(m, a) + Moved(a, from, to, v)
  {
    hide Total;
    var left: uint256 := Get(m, from) - v;
    var debited := Put(m, from, left);
    PutGet(m, from, left);
    PutTotal(m, from, left);
    TwoEntriesWithinTotal(debited, to, to);
    var sum: uint256 := Get(debited, to) + v;
    PutGet(debited, to, sum);
    PutTotal(debited, to, sum);
  }

  predicate MaySpend(t: Token, spender: Address, from: Address, v: uint256) {
    Allowance(t, from, spender) == ETERNAL_APPROVAL_VALUE || v <= Allowance(t, from, spender)
  }

  /** transferFrom needs a balance and an allowance and nothing else, and leaves every other allowance alone. */
  lemma TransferFromExact(t: Token, spender: Address, from: Address, to: Address, v: uint256)
    requires Conserved(t)
    ensures MaySpend(t, spender, from, v) <==> Allowance(t, from, spender) == MAX_UINT256 || v <= Allowance(t, from, spender)
    ensures TransferFrom(t, spender, from, to, v).Commit? <==> v <= Bal(t, from) && MaySpend(t, spender, from, v)
    ensures TransferFrom(t, spender, from, to, v).Commit? ==>
              var t' := TransferFrom(t, spender, from, to, v).value;
              && Conserved(t')
              && t'.supply == t.supply
              && (forall a :: Bal(t', a) == Bal(t, a) + Moved(a, from, to, v))
              && (forall o, s :: Allowance(t', o, s) ==
                    if (o, s) != (from, spender) || Allowance(t, o, s) == ETERNAL_APPROVAL_VALUE then Allowance(t, o, s)
                    else Allowance(t, o, s) - v)
              && (Allowance(t, from, spender) == ETERNAL_APPROVAL_VALUE ==> t'.allowed == t.allowed)
  {
    hide Total;
    if MaySpend(t, spender, from, v) {
      var allowance := Allowance(t, from, spender);
      var allowed := if allowance == ETERNAL_APPROVAL_VALUE then t.allowed else Put(t.allowed, (from, spender), allowance - v);
      if allowance != ETERNAL_APPROVAL_VALUE {
        PutGet(t.allowed, (from, spender), allowance - v);
      }
      TransferExact(t.(allowed := allowed), from, to, v);
    }
  }

  lemma ApproveExact(t: Token, owner: Address, spender: Address, v: uint256)
    ensures forall o, s :: Allowance(Approve(t, owner, spender, v), o, s) ==
                           if o == owner && s == spender then v else Allowance(t, o, s)
  {
    PutGet(t.allowed, (owner, spender), v);
  }

  /** An increase that fits is exactly undone by a decrease; a decrease by more than there is leaves nothing. */
  lemma DecreaseUndoesIncrease(t: Token, owner: Address, spender: Address, v: uint256)
    ensures IncreaseApproval(t, owner, spender, v).Commit? <==> Allowance(t, owner, spender) + v < TWO_256
    ensures IncreaseApproval(t, owner, spender, v).Commit? ==>
              var t' := IncreaseApproval(t, owner, spender, v).value;
              Allowance(t', owner, spender) == Allowance(t, owner, spender) + v && DecreaseApproval(t', owner, spender, v) == t
    ensures Allowance(DecreaseApproval(t, owner, spender, v), owner, spender)
         == if v > Allowance(t, owner, spender) then 0 else Allowance(t, owner, spender) - v
  {
    var a := Allowance(t, owner, spender);
    ApproveExact(t, owner, spender, if v > a then 0 else a - v);
    if a + v < TWO_256 {
      ApproveExact(t, owner, spender, a + v);
      var t' := IncreaseApproval(t, owner, spender, v).value;
      var t'' := DecreaseApproval(t', owner, spender, v);
      ApproveExact(t', owner, spender, a);
      forall k
        ensures Get(t''.allowed, k) == Get(t.allowed, k)
      {
        assert Allowance(t'', k.0, k.1) == Allowance(t, k.0, k.1);
      }
      Extensional(t''.allowed, t.allowed);
    }
  }

  /** The balance overflow check of mint is subsumed by the supply's. */
  lemma MintExact(t: Token, target: Address, v: uint256)
    requires Conserved(t)
    ensures Mint(t, target, v).Commit? <==> t.supply + v < TWO_256
    ensures Mint(t, target, v).Commit? ==>
              var t' := Mint(t, target, v).value;
              && Conserved(t')
              && t'.supply == t.supply + v && t'.allowed == t.allowed
              && forall a :: Bal(t', a) == Bal(t, a) + if a == target then v else 0
  {
    hide Total;
    BalancesWithinSupply(t, target, target);
    if t.supply + v < TWO_256 {
      var sum: uint256 := Bal(t, target) + v;
      assert Add(Bal(t, target), v) == Commit(sum) && Add(t.supply, v) == Commit(t.supply + v);
      PutGet(t.balances, target, sum);
      PutTotal(t.balances, target, sum);
    }
  }

  /** The supply never runs out before the balance does. */
  lemma BurnExact(t: Token, target: Address, v: uint256)
    requires Conserved(t)
    ensures Burn(t, target, v).Commit? <==> v <= Bal(t, target)
    ensures Burn(t, target, v).Commit? ==>
              var t' := Burn(t, target, v).value;
              && Conserved(t')
              && t'.supply == t.supply - v && t'.allowed == t.allowed
              && forall a :: Bal(t', a) == Bal(t, a) - if a == target then v else 0
  {
    hide Total;
    BalancesWithinSupply(t, target, target);
    if v <= Bal(t, target) {
      var left: uint256 := Bal(t, target) - v;
      assert Sub(Bal(t, target), v) == Commit(left) && Sub(t.supply, v) == Commit(t.supply - v);
      PutGet(t.balances, target, left);
      PutTotal(t.balances, target, left);
    }
  }

  /** Burning what was just minted gives back the very same token. */
  lemma BurnUndoesMint(t: Token, target: Address, v: uint256)
    requires Conserved(t) && Mint(t, target, v).Commit?
    ensures Burn(Mint(t, target, v).value, target, v) == Commit(t)
  {
    MintExact(t, target, v);
    var t1 := Mint(t, target, v).value;
    BurnExact(t1, target, v);
    var t2 := Burn(t1, target, v).value;
    forall a
      ensures Get(t2.balances, a) == Get(t.balances, a)
    {
      assert Bal(t2, a) == Bal(t, a);
    }
    Extensional(t2.balances, t.balances);
  }

  /** A token with no supply is in nobody's hands. */
  lemma EmptyWhenUnheld(t: Token)
    requires Conserved(t) && t.balances == map[]
    ensures t.supply == 0
  {}

  // ---- Any sequence of token calls ----

  datatype Call =
    | CallTransfer(from: Address, to: Address, v: uint256)
    | CallTransferFrom(spender: Address, from: Address, to: Address, v: uint256)
    | CallApprove(owner: Address, spender: Address, v: uint256)
    | CallIncrease(owner: Address, spender: Address, v: uint256)
    | CallDecrease(owner: Address, spender: Address, v: uint256)
    | CallMint(target: Address, v: uint256)
    | CallBurn(target: Address, v: uint256)

  /** A reverted call leaves the token as it was. */
  function Perform(t: Token, c: Call): Token {
    var r := match c
      case CallTransfer(from, to, v) => Transfer(t, from, to, v)
      case CallTransferFrom(spender, from, to, v) => TransferFrom(t, spender, from, to, v)
      case CallApprove(owner, spender, v) => Commit(Approve(t, owner, spender, v))
      case CallIncrease(owner, spender, v) => IncreaseApproval(t, owner, spender, v)
      case CallDecrease(owner, spender, v) => Commit(DecreaseApproval(t, owner, spender, v))
      case CallMint(target, v) => Mint(t, target, v)
      case CallBurn(target, v) => Burn(t, target, v);
    if r.Commit? then r.value else t
  }

  function PerformAll(t: Token, calls: seq<Call>): Token
    decreases |calls|
  {
    if calls == [] then t else Perform(PerformAll(t, calls[..|calls| - 1]), calls[|calls| - 1])
  }

  /** What each call comes to for every balance and every allowance; one that is not covered comes to nothing. */
  lemma PerformExact(t: Token, c: Call)
    requires Conserved(t)
    ensures var t' := Perform(t, c);
            match c
            case CallTransfer(from, to, v) =>
              if v <= Bal(t, from) then
                && t'.supply == t.supply && t'.allowed == t.allowed
                && forall a :: Bal(t', a) == Bal(t, a) - (if a == from then v else 0) + (if a == to then v else 0)
              else t' == t
            case CallTransferFrom(spender, from, to, v) =>
              var left := Allowance(t, from, spender);
              if v <= Bal(t, from) && (left == MAX_UINT256 || v <= left) then
                && t'.supply == t.supply
                && (forall a :: Bal(t', a) == Bal(t, a) - (if a == from then v else 0) + (if a == to then v else 0))
                && forall o, s :: Allowance(t', o, s) ==
                     if o == from && s == spender && left != MAX_UINT256 then left - v else Allowance(t, o, s)
              else t' == t
            case CallApprove(owner, spender, v) =>
              && t'.balances == t.balances && t'.supply == t.supply
              && forall o, s :: Allowance(t', o, s) == if o == owner && s == spender then v else Allowance(t, o, s)
            case CallIncrease(owner, spender, v) =>
              var sum := Allowance(t, owner, spender) + v;
              if sum < TWO_256 then
                && t'.balances == t.balances && t'.supply == t.supply
                && forall o, s :: Allowance(t', o, s) == if o == owner && s == spender then sum else Allowance(t, o, s)
              else t' == t
            case CallDecrease(owner, spender, v) =>
              var left := Allowance(t, owner, spender);
              && t'.balances == t.balances && t'.supply == t.supply
              && forall o, s :: Allowance(t', o, s) ==
                   if o == owner && s == spender then (if v > left then 0 else left - v) else Allowance(t, o, s)
            case CallMint(target, v) =>
              if t.supply + v < TWO_256 then
                && t'.supply == t.supply + v && t'.allowed == t.allowed
                && forall a :: Bal(t', a) == Bal(t, a) + if a == target then v else 0
              else t' == t
            case CallBurn(target, v) =>
              if v <= Bal(t, target) then
                && t'.supply == t.supply - v && t'.allowed == t.allowed
                && forall a :: Bal(t', a) == Bal(t, a) - if a == target then v else 0
              else t' == t
  {
    hide Conserved, Transfer, TransferFrom, Mint, Burn;
    match c
    case CallTransfer(from, to, v) => TransferExact(t, from, to, v);
    case CallTransferFrom(spender, from, to, v) => TransferFromExact(t, spender, from, to, v);
    case CallApprove(owner, spender, v) => ApproveExact(t, owner, spender, v);
    case CallIncrease(owner, spender, v) =>
      if Allowance(t, owner, spender) + v < TWO_256 {
        ApproveExact(t, owner, spender, Allowance(t, owner, spender) + v);
      }
    case CallDecrease(owner, spender, v) =>
      var left := Allowance(t, owner, spender);
      ApproveExact(t, owner, spender, if v > left then 0 else left - v);
    case CallMint(target, v) => MintExact(t, target, v);
    case CallBurn(target, v) => BurnExact(t, target, v);
  }

  lemma PerformConserves(t: Token, c: Call)
    requires Conserved(t)
    ensures Conserved(Perform(t, c))
  {
    hide Total;
    match c
    case CallTransfer(from, to, v) => TransferExact(t, from, to, v);
    case CallTransferFrom(spender, from, to, v) => TransferFromExact(t, spender, from, to, v);
    case CallApprove(_, _, _) =>
    case CallIncrease(_, _, _) =>
    case CallDecrease(_, _, _) =>
    case CallMint(target, v) => MintExact(t, target, v);
    case CallBurn(target, v) => BurnExact(t, target, v);
  }

  /** Over any run of calls the balances keep adding up to the supply. */
  lemma {:induction false} SupplyIsSumOfBalances(calls: seq<Call>)
    ensures Conserved(PerformAll(EMPTY_TOKEN, calls))
    decreases |calls|
  {
    if calls != [] {
      SupplyIsSumOfBalances(calls[..|calls| - 1]);
      PerformConserves(PerformAll(EMPTY_TOKEN, calls[..|calls| - 1]), calls[|calls| - 1]);
    }
  }

  /** What a call adds to what `spender` has been granted over `owner`'s tokens. */
  function Granted(t: Token, c: Call, owner: Address, spender: Address): nat {
    match c
    case CallApprove(o, s, v) => if o == owner && s == spender then v else 0
    case CallIncrease(o, s, v) =>
      if o == owner && s == spender && IncreaseApproval(t, o, s, v).Commit? then v else 0
    case _ => 0
  }

  /** What a call lets `spender` move out of `owner`'s account. */
  function Spent(t: Token, c: Call, owner: Address, spender: Address): nat {
    match c
    case CallTransferFrom(s, from, to, v) =>
      if from == owner && s == spender && TransferFrom(t, s, from, to, v).Commit? then v else 0
    case _ => 0
  }

  function TotalGranted(t: Token, calls: seq<Call>, owner: Address, spender: Address): nat
    decreases |calls|
  {
    if calls == [] then 0
    else
      TotalGranted(t, calls[..|calls| - 1], owner, spender)
      + Granted(PerformAll(t, calls[..|calls| - 1]), calls[|calls| - 1], owner, spender)
  }

  function TotalSpent(t: Token, calls: seq<Call>, owner: Address, spender: Address): nat
    decreases |calls|
  {
    if calls == [] then 0
    else
      TotalSpent(t, calls[..|calls| - 1], owner, spender)
      + Spent(PerformAll(t, calls[..|calls| - 1]), calls[|calls| - 1], owner, spender)
  }

  /** The allowance never becomes the everlasting one on the way. */
  predicate NeverEternal(t: Token, calls: seq<Call>, owner: Address, spender: Address)
    decreases |calls|
  {
    && Allowance(PerformAll(t, calls), owner, spender) != ETERNAL_APPROVAL_VALUE
    && (calls != [] ==> NeverEternal(t, calls[..|calls| - 1], owner, spender))
  }

  /** A spender with finite allowances never moves more than it was granted in all. */
  lemma {:induction false} FiniteAllowanceBoundsSpending(t: Token, calls: seq<Call>, owner: Address, spender: Address)
    requires Conserved(t) && NeverEternal(t, calls, owner, spender)
    ensures Conserved(PerformAll(t, calls))
    ensures TotalSpent(t, calls, owner, spender) + Allowance(PerformAll(t, calls), owner, spender)
         <= Allowance(t, owner, spender) + TotalGranted(t, calls, owner, spender)
    decreases |calls|
  {
    hide Total;
    if calls != [] {
      var before := calls[..|calls| - 1];
      FiniteAllowanceBoundsSpending(t, before, owner, spender);
      var u := PerformAll(t, before);
      var c := calls[|calls| - 1];
      PerformConserves(u, c);
      match c
      case CallTransfer(from, to, v) => TransferExact(u, from, to, v);
      case CallTransferFrom(s, from, to, v) => TransferFromExact(u, s, from, to, v);
      case CallApprove(o, s, v) => ApproveExact(u, o, s, v);
      case CallIncrease(o, s, v) =>
        if IncreaseApproval(u, o, s, v).Commit? {
          ApproveExact(u, o, s, Allowance(u, o, s) + v);
        }
      case CallDecrease(o, s, v) =>
        ApproveExact(u, o, s, if v > Allowance(u, o, s) then 0 else Allowance(u, o, s) - v);
      case CallMint(_, _) =>
      case CallBurn(_, _) =>
    }
  }
}
