/** The registry of deployed contracts, the whitelist and the emergency stop. */
module Controllers {
  import opened Transactions
  import opened Addresses

  datatype Registry = Registry(owner: Address, whitelist: set<Address>, contracts: map<string, Address>, stopped: bool)

  datatype Administration =
    | AddToWhitelist(target: Address)
    | RemoveFromWhitelist(target: Address)
    | RegisterContract(key: string, contract: Address)
    | TransferOwnership(newOwner: Address)
    | EmergencyStop

  function Lookup(r: Registry, key: string): Address {
    if key in r.contracts then r.contracts[key] else NULL_ADDRESS
  }

  /** What an administrative call by `sender` does; one that reverts changes nothing. */
  function Administer(r: Registry, sender: Address, a: Administration): Tx<Registry> {
    var _ :- Require(sender == r.owner);
    match a
    case AddToWhitelist(target) => Commit(r.(whitelist := r.whitelist + {target}))
    case RemoveFromWhitelist(target) => Commit(r.(whitelist := r.whitelist - {target}))
    case RegisterContract(key, contract) =>
      var _ :- Require(Lookup(r, key) == NULL_ADDRESS);
      Commit(r.(contracts := r.contracts[key := contract]))
    case TransferOwnership(newOwner) => Commit(r.(owner := newOwner))
    case EmergencyStop =>
      // the stop is announced through AugurLite, which has to be there
      var _ :- Require(!r.stopped && Lookup(r, "AugurLite") != NULL_ADDRESS);
      Commit(r.(stopped := true))
  }

  /** Each administrative call succeeds exactly for the owner and, where that matters, a free key or a first stop that
      can be announced; it then changes the field it is for, and no other. */
  lemma AdministerExact(r: Registry, sender: Address, a: Administration)
    ensures Administer(r, sender, a).Commit? <==>
              && sender == r.owner
              && (a.RegisterContract? ==> a.key !in r.contracts || r.contracts[a.key] == NULL_ADDRESS)
              && (a.EmergencyStop? ==>
                    !r.stopped && "AugurLite" in r.contracts && r.contracts["AugurLite"] != NULL_ADDRESS)
    ensures Administer(r, sender, a).Commit? ==>
              var r' := Administer(r, sender, a).value;
              && (r'.stopped <==> r.stopped || a.EmergencyStop?)
              && r'.owner == (if a.TransferOwnership? then a.newOwner else r.owner)
              && (forall t :: t in r'.whitelist <==>
                    if a.AddToWhitelist? && t == a.target then true
                    else if a.RemoveFromWhitelist? && t == a.target then false
                    else t in r.whitelist)
              && r'.contracts.Keys == (if a.RegisterContract? then r.contracts.Keys + {a.key} else r.contracts.Keys)
              && (forall k | k in r'.contracts ::
                    r'.contracts[k] == if a.RegisterContract? && k == a.key then a.contract else r.contracts[k])
  {
  }

  function AdministerAll(r: Registry, calls: seq<(Address, Administration)>): Registry
    decreases |calls|
  {
    if calls == [] then r
    else
      var s := AdministerAll(r, calls[..|calls| - 1]);
      var t := Administer(s, calls[|calls| - 1].0, calls[|calls| - 1].1);
      if t.Commit? then t.value else s
  }

  /** Over any run of calls by anybody: a registered contract stays registered at its address, a stop
      stays, and unless the owner calls nothing happens at all. */
  lemma {:induction false} RegistryIsWriteOnce(r: Registry, calls: seq<(Address, Administration)>, key: string)
    ensures Lookup(r, key) != NULL_ADDRESS ==> Lookup(AdministerAll(r, calls), key) == Lookup(r, key)
    ensures r.stopped ==> AdministerAll(r, calls).stopped
    ensures (forall c | c in calls :: c.0 != r.owner) ==> AdministerAll(r, calls) == r
    decreases |calls|
  {
    if calls != [] {
      RegistryIsWriteOnce(r, calls[..|calls| - 1], key);
      assert forall c | c in calls[..|calls| - 1] :: c in calls;
      assert calls[|calls| - 1] in calls;
    }
  }

  class Controller {
    var owner: Address
    var whitelist: set<Address>
    var registry: map<string, Address>
    var stopped: bool

    ghost function State(): Registry
      reads this
    {
      Registry(owner, whitelist, registry, stopped)
    }

    constructor (sender: Address)
      ensures State() == Registry(sender, {sender}, map[], false)
    {
      owner, whitelist, registry, stopped := sender, {sender}, map[], false;
    }

    predicate IsWhitelisted(target: Address)
      reads this
    {
      target in whitelist
    }

    function ContractAt(key: string): (a: Address)
      reads this
      ensures a == Lookup(State(), key) == if key in registry then registry[key] else NULL_ADDRESS
    {
      if key in registry then registry[key] else NULL_ADDRESS
    }

    method AddToWhitelist(sender: Address, target: Address) returns (ok: bool)
      modifies this
      ensures var r := Administer(old(State()), sender, Administration.AddToWhitelist(target));
              ok == r.Commit? && State() == if ok then r.value else old(State())
      ensures ok <==> sender == old(owner)
      ensures whitelist == old(whitelist) + (if ok then {target} else {})
      ensures owner == old(owner) && registry == old(registry) && stopped == old(stopped)
    {
      if sender != owner { return false; }
      whitelist := whitelist + {target};
      return true;
    }

    method RemoveFromWhitelist(sender: Address, target: Address) returns (ok: bool)
      modifies this
      ensures var r := Administer(old(State()), sender, Administration.RemoveFromWhitelist(target));
              ok == r.Commit? && State() == if ok then r.value else old(State())
      ensures ok <==> sender == old(owner)
      ensures whitelist == old(whitelist) - (if ok then {target} else {})
      ensures owner == old(owner) && registry == old(registry) && stopped == old(stopped)
    {
      if sender != owner { return false; }
      whitelist := whitelist - {target};
      return true;
    }

    method RegisterContract(sender: Address, key: string, contract: Address) returns (ok: bool)
      modifies this
      ensures var r := Administer(old(State()), sender, Administration.RegisterContract(key, contract));
              ok == r.Commit? && State() == if ok then r.value else old(State())
      ensures ok <==> sender == old(owner) && (key !in old(registry) || old(registry)[key] == NULL_ADDRESS)
      ensures registry == if ok then old(registry)[key := contract] else old(registry)
      ensures owner == old(owner) && whitelist == old(whitelist) && stopped == old(stopped)
    {
      if sender != owner { return false; }
      if ContractAt(key) != NULL_ADDRESS { return false; }
      registry := registry[key := contract];
      return true;
    }

    method TransferOwnership(sender: Address, newOwner: Address) returns (ok: bool)
      modifies this
      ensures var r := Administer(old(State()), sender, Administration.TransferOwnership(newOwner));
              ok == r.Commit? && State() == if ok then r.value else old(State())
      ensures ok <==> sender == old(owner)
      ensures owner == if ok then newOwner else old(owner)
      ensures whitelist == old(whitelist) && registry == old(registry) && stopped == old(stopped)
    {
      if sender != owner { return false; }
      owner := newOwner;
      return true;
    }

    method EmergencyStop(sender: Address) returns (ok: bool)
      modifies this
      ensures var r := Administer(old(State()), sender, Administration.EmergencyStop);
              ok == r.Commit? && State() == if ok then r.value else old(State())
      ensures ok <==> sender == old(owner) && !old(stopped) && "AugurLite" in old(registry) && old(registry)["AugurLite"] != NULL_ADDRESS
      ensures stopped <==> old(stopped) || ok
      ensures owner == old(owner) && whitelist == old(whitelist) && registry == old(registry)
    {
      if sender != owner || stopped { return false; }
      if ContractAt("AugurLite") == NULL_ADDRESS { return false; }
      stopped := true;
      return true;
    }
  }
}
