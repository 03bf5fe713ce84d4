/**
 * The nonce allocator of the account manager: an asynchronous method that other calls may overtake
 * while it waits for the node.
 */
module AccountManagers {
  /** What a call to getNonce has come to when it hands control back. */
  datatype Progress =
    | Issued(nonce: int)  // it returned
    | Waiting             // it awaits the transaction count
    | Unmanaged           // it threw

  class AccountManager {
    const accounts: set<string>
    var nonces: map<string, int>

    constructor (accounts: set<string>)
      ensures this.accounts == accounts && nonces == map[]
    {
      this.accounts, nonces := accounts, map[];
    }

    /** getNonce up to its `await`, or to its end if it never gets there */
    method BeginGetNonce(address: string) returns (p: Progress)
      modifies this
      ensures address !in accounts ==> p == Unmanaged && nonces == old(nonces)
      ensures address in accounts && address !in old(nonces) ==> p == Waiting && nonces == old(nonces)
      ensures address in accounts && address in old(nonces) ==>
                p == Issued(old(nonces)[address] + 1) && nonces == old(nonces)[address := old(nonces)[address] + 1]
      ensures (nonces, p) == Begun(accounts, old(nonces), address)
    {
      if address !in accounts {
        return Unmanaged;
      }
      if address in nonces {
        var nonce := nonces[address] + 1;
        nonces := nonces[address := nonce];
        return Issued(nonce);
      } else {
        return Waiting;
      }
    }

    /** getNonce from its `await` on, once the node has answered `transactionCount` */
    method ResumeGetNonce(address: string, transactionCount: int) returns (nonce: int)
      modifies this
      ensures nonce == if address in old(nonces) then old(nonces)[address] + 1 else transactionCount
      ensures nonces == old(nonces)[address := nonce]
      ensures (nonces, nonce) == Resumed(old(nonces), address, transactionCount)
    {
      nonce := transactionCount;
      // somebody else may have got hold of a nonce in the meantime
      if address in nonces {
        nonce := nonces[address] + 1;
      }
      nonces := nonces[address := nonce];
    }
  }

  function Begun(accounts: set<string>, nonces: map<string, int>, address: string): (map<string, int>, Progress) {
    if address !in accounts then (nonces, Unmanaged)
    else if address in nonces then (nonces[address := nonces[address] + 1], Issued(nonces[address] + 1))
    else (nonces, Waiting)
  }

  function Resumed(nonces: map<string, int>, address: string, transactionCount: int): (map<string, int>, int) {
    var nonce := if address in nonces then nonces[address] + 1 else transactionCount;
    (nonces[address := nonce], nonce)
  }

  /** One turn of the event loop: a new call for an address, or the answer to one of the calls that wait. */
  datatype Event =
    | Call(address: string)
    | Answer(waiter: nat, transactionCount: int)

  /** `waiting` are the addresses of the calls at their `await`, `issued` the nonces returned for each address, in order. */
  datatype Loop = Loop(nonces: map<string, int>, waiting: seq<string>, issued: map<string, seq<int>>)

  const START := Loop(map[], [], map[])

  function IssuedFor(l: Loop, address: string): seq<int> {
    if address in l.issued then l.issued[address] else []
  }

  function Issue(l: Loop, address: string, nonce: int): map<string, seq<int>> {
    l.issued[address := IssuedFor(l, address) + [nonce]]
  }

  /** Answers may come back in any order, and each may report a different count. */
  function Turn(accounts: set<string>, l: Loop, e: Event): Loop {
    match e
    case Call(address) =>
      var (nonces, p) := Begun(accounts, l.nonces, address);
      (match p
       case Issued(nonce) => Loop(nonces, l.waiting, Issue(l, address, nonce))
       case Waiting => Loop(nonces, l.waiting + [address], l.issued)
       case Unmanaged => l)
    case Answer(waiter, transactionCount) =>
      if waiter < |l.waiting| then
        var address := l.waiting[waiter];
        var (nonces, nonce) := Resumed(l.nonces, address, transactionCount);
        Loop(nonces, l.waiting[..waiter] + l.waiting[waiter + 1..], Issue(l, address, nonce))
      else l
  }

  function Turns(accounts: set<string>, es: seq<Event>): Loop
    decreases |es|
  {
    if es == [] then START else Turn(accounts, Turns(accounts, es[..|es| - 1]), es[|es| - 1])
  }

  /** The count that the first answered call for `address` was given. */
  function FirstCount(accounts: set<string>, es: seq<Event>, address: string): int
    decreases |es|
  {
    if es == [] then 0
    else
      var before := es[..|es| - 1];
      var l := Turns(accounts, before);
      var e := es[|es| - 1];
      if IssuedFor(l, address) == [] && e.Answer? && e.waiter < |l.waiting| && l.waiting[e.waiter] == address
      then e.transactionCount
      else FirstCount(accounts, before, address)
  }

  /** Under every interleaving the nonces issued for an address are a gap-free run, in the order they were
      issued, from the count the first call to resume was given; so no two are the same. */
  lemma {:induction false} NoncesAreConsecutive(accounts: set<string>, es: seq<Event>, address: string)
    ensures var l := Turns(accounts, es);
            var issued := IssuedFor(l, address);
            && (forall k | 0 <= k < |issued| :: issued[k] == FirstCount(accounts, es, address) + k)
            && (address in l.nonces <==> issued != [])
            && (issued != [] ==> l.nonces[address] == issued[|issued| - 1])
            && (forall i, j | 0 <= i < j < |issued| :: issued[i] != issued[j])
    decreases |es|
  {
    if es != [] {
      NoncesAreConsecutive(accounts, es[..|es| - 1], address);
    }
  }

  /** The first call to be answered for an address is given the very count the node reported. */
  lemma FirstNonceIsTheCount(accounts: set<string>, es: seq<Event>, waiter: nat, transactionCount: int)
    requires waiter < |Turns(accounts, es).waiting|
    ensures var l := Turns(accounts, es);
            var address := l.waiting[waiter];
            IssuedFor(l, address) == [] ==>
              && IssuedFor(Turns(accounts, es + [Answer(waiter, transactionCount)]), address) == [transactionCount]
              && FirstCount(accounts, es + [Answer(waiter, transactionCount)], address) == transactionCount
  {
    var all := es + [Answer(waiter, transactionCount)];
    assert all[..|all| - 1] == es;
    NoncesAreConsecutive(accounts, es, Turns(accounts, es).waiting[waiter]);
  }

  /** An address that is not managed is never given a nonce, and no call for it ever waits for one. */
  lemma {:induction false} UnmanagedAddressesGetNothing(accounts: set<string>, es: seq<Event>, address: string)
    requires address !in accounts
    ensures var l := Turns(accounts, es);
            IssuedFor(l, address) == [] && address !in l.nonces && address !in l.waiting
    decreases |es|
  {
    if es != [] {
      UnmanagedAddressesGetNothing(accounts, es[..|es| - 1], address);
    }
  }

  /** How often getNonce was called for `address`. */
  function Calls(es: seq<Event>, address: string): nat
    decreases |es|
  {
    if es == [] then 0
    else Calls(es[..|es| - 1], address) + if es[|es| - 1] == Call(address) then 1 else 0
  }

  /** Every call for a managed account has its own nonce or still waits for one. */
  lemma {:induction false} EveryCallHasANonceOrWaits(accounts: set<string>, es: seq<Event>, address: string)
    requires address in accounts
    ensures var l := Turns(accounts, es);
            Calls(es, address) == |IssuedFor(l, address)| + multiset(l.waiting)[address]
    decreases |es|
  {
    hide Turn;
    if es != [] {
      EveryCallHasANonceOrWaits(accounts, es[..|es| - 1], address);
      TurnAccountsForCall(accounts, Turns(accounts, es[..|es| - 1]), es[|es| - 1], address);
    }
  }

  lemma TurnAccountsForCall(accounts: set<string>, l: Loop, e: Event, address: string)
    requires address in accounts
    ensures var l' := Turn(accounts, l, e);
            |IssuedFor(l', address)| + multiset(l'.waiting)[address]
            == |IssuedFor(l, address)| + multiset(l.waiting)[address] + if e == Call(address) then 1 else 0
  {
    hide Resumed, Issue, IssuedFor;
    match e
    case Call(a) =>
      OneJoins(l.waiting, a, address);
      if Begun(accounts, l.nonces, a).1.Issued? {
        OneIssued(l, Turn(accounts, l, e), a, Begun(accounts, l.nonces, a).1.nonce, address);
      } else {
        NoneIssued(l, Turn(accounts, l, e), address);
      }
    case Answer(k, count) =>
      if k < |l.waiting| {
        OneLeaves(l.waiting, k, address);
        OneIssued(l, Turn(accounts, l, e), l.waiting[k], Resumed(l.nonces, l.waiting[k], count).1, address);
      }
  }

  lemma OneIssued(l: Loop, l': Loop, a: string, nonce: int, address: string)
    requires l'.issued == Issue(l, a, nonce)
    ensures |IssuedFor(l', address)| == |IssuedFor(l, address)| + if a == address then 1 else 0
  {
  }

  lemma NoneIssued(l: Loop, l': Loop, address: string)
    requires l'.issued == l.issued
    ensures IssuedFor(l', address) == IssuedFor(l, address)
  {
  }

  lemma OneJoins(waiting: seq<string>, a: string, address: string)
    ensures multiset(waiting + [a])[address] == multiset(waiting)[address] + if a == address then 1 else 0
  {
    assert multiset(waiting + [a]) == multiset(waiting) + multiset([a]);
  }

  lemma OneLeaves(waiting: seq<string>, k: nat, address: string)
    requires k < |waiting|
    ensures multiset(waiting[..k] + waiting[k + 1..])[address] + (if waiting[k] == address then 1 else 0)
         == multiset(waiting)[address]
  {
    assert waiting == waiting[..k] + ([waiting[k]] + waiting[k + 1..]);
    assert multiset(waiting) == multiset(waiting[..k]) + (multiset([waiting[k]]) + multiset(waiting[k + 1..]));
  }
}
