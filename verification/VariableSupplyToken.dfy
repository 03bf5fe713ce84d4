/** The token contract, proved against its model. */
module Tokens {
  import opened Words
  import opened SafeMathUint256
  import opened Storage
  import opened Addresses
  import opened TokenModel

  /**
   * BasicToken, StandardToken and VariableSupplyToken. Every method is one external call: when it
   * returns false the EVM has undone whatever it had written.
   */
  class VariableSupplyToken {
    var balances: Mapping<Address>
    var supply: uint256
    var allowed: Mapping<(Address, Address)>

    ghost function State(): Token
      reads this
    {
      Token(balances, supply, allowed)
    }

    constructor ()
      ensures State() == EMPTY_TOKEN
    {
      balances, supply, allowed := map[], 0, map[];
    }

    function BalanceOf(owner: Address): uint256
      reads this
    {
      Get(balances, owner)
    }

    function TotalSupply(): uint256
      reads this
    {
      supply
    }

    method InternalTransfer(from: Address, to: Address, v: uint256) returns (ok: bool)
      modifies this
      ensures ok <==> TokenModel.Transfer(old(State()), from, to, v).Commit?
      ensures State() == if ok then TokenModel.Transfer(old(State()), from, to, v).value else old(State())
    {
      var before := balances;
      var debited := Sub(Get(balances, from), v);
      if debited.Revert? {
        return false;
      }
      balances := Put(balances, from, debited.value);
      var credited := Add(Get(balances, to), v);
      if credited.Revert? {
        balances := before;
        return false;
      }
      balances := Put(balances, to, credited.value);
      return true;
    }

    method Transfer(sender: Address, to: Address, v: uint256) returns (ok: bool)
      modifies this
      ensures ok <==> TokenModel.Transfer(old(State()), sender, to, v).Commit?
      ensures State() == if ok then TokenModel.Transfer(old(State()), sender, to, v).value else old(State())
    {
      ok := InternalTransfer(sender, to, v);
    }

    method TransferFrom(spender: Address, from: Address, to: Address, v: uint256) returns (ok: bool)
      modifies this
      ensures ok <==> TokenModel.TransferFrom(old(State()), spender, from, to, v).Commit?
      ensures State() == if ok then TokenModel.TransferFrom(old(State()), spender, from, to, v).value else old(State())
    {
      var before := allowed;
      var allowance := Get(allowed, (from, spender));
      if allowance != ETERNAL_APPROVAL_VALUE {
        var left := Sub(allowance, v);
        if left.Revert? {
          return false;
        }
        allowed := Put(allowed, (from, spender), left.value);
      }
      ok := InternalTransfer(from, to, v);
      if !ok {
        allowed := before;
      }
    }

    method Approve(owner: Address, spender: Address, v: uint256)
      modifies this
      ensures State() == TokenModel.Approve(old(State()), owner, spender, v)
    {
      allowed := Put(allowed, (owner, spender), v);
    }

    method IncreaseApproval(owner: Address, spender: Address, v: uint256) returns (ok: bool)
      modifies this
      ensures ok <==> TokenModel.IncreaseApproval(old(State()), owner, spender, v).Commit?
      ensures State() == if ok then TokenModel.IncreaseApproval(old(State()), owner, spender, v).value else old(State())
    {
      var sum := Add(Get(allowed, (owner, spender)), v);
      if sum.Revert? {
        return false;
      }
      Approve(owner, spender, sum.value);
      return true;
    }

    method DecreaseApproval(owner: Address, spender: Address, v: uint256)
      modifies this
      ensures State() == TokenModel.DecreaseApproval(old(State()), owner, spender, v)
    {
      var allowance := Get(allowed, (owner, spender));
      if v > allowance {
        Approve(owner, spender, 0);
      } else {
        Approve(owner, spender, allowance - v);
      }
    }

    method Mint(target: Address, v: uint256) returns (ok: bool)
      modifies this
      ensures ok <==> TokenModel.Mint(old(State()), target, v).Commit?
      ensures State() == if ok then TokenModel.Mint(old(State()), target, v).value else old(State())
    {
      var before := balances;
      var balance := Add(Get(balances, target), v);
      if balance.Revert? {
        return false;
      }
      balances := Put(balances, target, balance.value);
      var total := Add(supply, v);
      if total.Revert? {
        balances := before;
        return false;
      }
      supply := total.value;
      return true;
    }

    method Burn(target: Address, v: uint256) returns (ok: bool)
      modifies this
      ensures ok <==> TokenModel.Burn(old(State()), target, v).Commit?
      ensures State() == if ok then TokenModel.Burn(old(State()), target, v).value else old(State())
    {
      var before := balances;
      var balance := Sub(Get(balances, target), v);
      if balance.Revert? {
        return false;
      }
      balances := Put(balances, target, balance.value);
      var total := Sub(supply, v);
      if total.Revert? {
        balances := before;
        return false;
      }
      supply := total.value;
      return true;
    }

    /** What the EVM does to a token when the call it was changed in reverts. */
    method Restore(t: Token)
      modifies this
      ensures State() == t
    {
      balances, supply, allowed := t.balances, t.supply, t.allowed;
    }

    /** The token as it is now. */
    method Snapshot() returns (t: Token)
      ensures t == State()
    {
      t := Token(balances, supply, allowed);
    }
  }
}
