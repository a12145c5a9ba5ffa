/** The top-up loop of the distribute command over a chain's ledger. */
module Distribution {
  import opened Wrappers

  datatype ChainKind = Cosmos | Ethereum

  datatype Wallet = Wallet(id: string, address: string)

  /** The balances of one denomination, what was paid in fees, and how many sends went through. */
  datatype Accounts = Accounts(balances: map<string, nat>, fees: nat, sends: nat)

  /** The command's arguments: fee is what the sender pays per send in the same denomination. */
  datatype Order = Order(kind: ChainKind, fee: nat, minimum: int, senderId: string, sender: string)

  const TwoTo64: int := 0x1_0000_0000_0000_0000
  const MaxInt64: int := 0x7FFF_FFFF_FFFF_FFFF

  function Balance(acc: Accounts, address: string): nat {
    if address in acc.balances then acc.balances[address] else 0
  }

  /** big.Int.Int64 of a positive number: its low 64 bits, read as a signed number. */
  function ToInt64(n: nat): int {
    var low := n % TwoTo64;
    if low > MaxInt64 then low - TwoTo64 else low
  }

  /** What a send of this amount moves: on Cosmos the amount goes through an int64. */
  function Delivered(kind: ChainKind, amount: nat): int {
    if kind.Cosmos? then ToInt64(amount) else amount
  }

  /** A balance query; on Cosmos a balance beyond int64 cannot be read. */
  function Query(kind: ChainKind, acc: Accounts, address: string): Option<nat> {
    if kind.Cosmos? && Balance(acc, address) > MaxInt64 then None else Some(Balance(acc, address))
  }

  /** One send, atomically: refused if nothing positive would move or the sender cannot pay it and the fee. */
  function Transfer(o: Order, acc: Accounts, amount: nat, to: string): Option<Accounts> {
    var moved := Delivered(o.kind, amount);
    if moved <= 0 || Balance(acc, o.sender) < moved + o.fee then None
    else
      var debited := acc.(balances := acc.balances[o.sender := Balance(acc, o.sender) - moved - o.fee],
                          fees := acc.fees + o.fee, sends := acc.sends + 1);
      Some(debited.(balances := debited.balances[to := Balance(debited, to) + moved]))
  }

  /** One round of the loop; None is an early return with an error. */
  function Serve(o: Order, acc: Accounts, wallet: Wallet): Option<Accounts> {
    if wallet.id == o.senderId then Some(acc)
    else
      match Query(o.kind, acc, wallet.address)
      case None => None
      case Some(balance) =>
        if balance >= o.minimum then Some(acc) else Transfer(o, acc, o.minimum - balance, wallet.address)
  }

  function ServeAll(o: Order, acc: Accounts, wallets: seq<Wallet>): Option<Accounts> {
    if wallets == [] then Some(acc)
    else
      match ServeAll(o, acc, wallets[..|wallets| - 1])
      case None => None
      case Some(before) => Serve(o, before, wallets[|wallets| - 1])
  }

  /** The addresses that the loop looks after. */
  function Recipients(o: Order, wallets: seq<Wallet>): set<string> {
    set w | w in wallets && w.id != o.senderId :: w.address
  }

  // Sums over sets of addresses.

  ghost function Total(s: set<string>, f: string -> int): int {
    if s == {} then 0
    else
      var x :| x in s;
      f(x) + Total(s - {x}, f)
  }

  lemma {:induction false} TotalRemove(s: set<string>, x: string, f: string -> int)
    requires x in s
    ensures Total(s, f) == f(x) + Total(s - {x}, f)
    decreases |s|
  {
    var y :| y in s && Total(s, f) == f(y) + Total(s - {y}, f);
    if y != x {
      TotalRemove(s - {y}, x, f);
      TotalRemove(s - {x}, y, f);
      assert s - {y} - {x} == s - {x} - {y};
    }
  }

  lemma TotalAdd(s: set<string>, x: string, f: string -> int)
    requires x !in s
    ensures Total(s + {x}, f) == f(x) + Total(s, f)
  {
    TotalRemove(s + {x}, x, f);
    assert s + {x} - {x} == s;
  }

  lemma {:induction false} TotalSame(s: set<string>, f: string -> int, g: string -> int)
    requires forall x :: x in s ==> f(x) == g(x)
    ensures Total(s, f) == Total(s, g)
    decreases |s|
  {
    if s != {} {
      var x :| x in s;
      TotalRemove(s, x, f);
      TotalRemove(s, x, g);
      TotalSame(s - {x}, f, g);
    }
  }

  // What one send does.

  function Holdings(acc: Accounts): string -> int {
    (a: string) => Balance(acc, a)
  }

  /** One send: the sender pays what moves and the fee, the recipient gets what moves, and nobody else is touched. */
  ghost predicate Moved(o: Order, before: Accounts, after: Accounts, moved: int, to: string) {
    && moved > 0
    && after.fees == before.fees + o.fee && after.sends == before.sends + 1
    && forall a: string ::
         Balance(after, a) + (if a == o.sender then moved + o.fee else 0) ==
         Balance(before, a) + (if a == to then moved else 0)
  }

  /** Tokens are neither made nor lost, whichever addresses are looked at, as long as both ends are among them. */
  ghost predicate Conserved(before: Accounts, after: Accounts, from: string, to: string) {
    forall all: set<string> :: from in all && to in all ==>
      Total(all, Holdings(after)) + after.fees == Total(all, Holdings(before)) + before.fees
  }

  lemma TransferConserves(o: Order, acc: Accounts, amount: nat, to: string, all: set<string>)
    requires Transfer(o, acc, amount, to).Some? && o.sender in all && to in all
    ensures var after := Transfer(o, acc, amount, to).value;
            Total(all, Holdings(after)) + after.fees == Total(all, Holdings(acc)) + acc.fees
  {
    var after := Transfer(o, acc, amount, to).value;
    TotalRemove(all, o.sender, Holdings(acc));
    TotalRemove(all, o.sender, Holdings(after));
    if to == o.sender {
      TotalSame(all - {to}, Holdings(acc), Holdings(after));
    } else {
      TotalRemove(all - {o.sender}, to, Holdings(acc));
      TotalRemove(all - {o.sender}, to, Holdings(after));
      TotalSame(all - {o.sender} - {to}, Holdings(acc), Holdings(after));
    }
  }

  lemma TransferMoves(o: Order, acc: Accounts, amount: nat, to: string)
    ensures Transfer(o, acc, amount, to).Some? <==> 0 < Delivered(o.kind, amount) <= Balance(acc, o.sender) - o.fee
    ensures Transfer(o, acc, amount, to).Some? ==>
              var after := Transfer(o, acc, amount, to).value;
              Moved(o, acc, after, Delivered(o.kind, amount), to) && Conserved(acc, after, o.sender, to)
  {
    if Transfer(o, acc, amount, to).Some? {
      forall all: set<string> | o.sender in all && to in all
        ensures var after := Transfer(o, acc, amount, to).value;
                Total(all, Holdings(after)) + after.fees == Total(all, Holdings(acc)) + acc.fees
      {
        TransferConserves(o, acc, amount, to, all);
      }
    }
  }

  /** A balance that is read again after a send has grown by exactly what was delivered to the address; on Cosmos it
      may have grown beyond what can be read. */
  lemma QueryAfterSend(o: Order, acc: Accounts, amount: nat, to: string, a: string)
    requires Transfer(o, acc, amount, to).Some? && a != o.sender && Query(o.kind, acc, a).Some?
    ensures var due := Query(o.kind, acc, a).value + if a == to then Delivered(o.kind, amount) else 0;
            Query(o.kind, Transfer(o, acc, amount, to).value, a) ==
            if o.kind.Cosmos? && due > MaxInt64 then None else Some(due)
  {
    TransferMoves(o, acc, amount, to);
  }

  class Ledger {
    const kind: ChainKind
    const fee: nat
    var accounts: Accounts

    constructor (kind: ChainKind, fee: nat, accounts: Accounts)
      ensures this.kind == kind && this.fee == fee && this.accounts == accounts
    {
      this.kind, this.fee, this.accounts := kind, fee, accounts;
    }

    /** The node may fail to answer. What it answers is the balance in full, never a part of it. */
    method GetBalance(address: string, fails: bool) returns (r: Option<nat>)
      ensures r.Some? ==> r.value == Balance(accounts, address)
      ensures r.None? <==> fails || (kind.Cosmos? && Balance(accounts, address) > MaxInt64)
    {
      if fails {
        return None;
      }
      return Query(kind, accounts, address);
    }

    /** A send is refused by the node, or if nothing positive would move, or if the sender cannot pay for it. */
    method Send(o: Order, amount: nat, to: string, fails: bool) returns (ok: bool)
      requires o.kind == kind && o.fee == fee
      modifies this
      ensures ok <==> !fails && 0 < Delivered(kind, amount) <= Balance(old(accounts), o.sender) - fee
      ensures ok ==> Moved(o, old(accounts), accounts, Delivered(kind, amount), to)
      ensures ok ==> Conserved(old(accounts), accounts, o.sender, to)
      ensures accounts == if ok then Transfer(o, old(accounts), amount, to).value else old(accounts)
    {
      TransferMoves(o, accounts, amount, to);
      var after := Transfer(o, accounts, amount, to);
      if fails || after.None? {
        return false;
      }
      accounts := after.value;
      return true;
    }
  }

  /** Why a round ends the run: the node does not answer the query, the node does not take the send that is due, or
      the ledger refuses. */
  predicate Fails(o: Order, acc: Accounts, wallet: Wallet, queryFails: bool, sendFails: bool) {
    && wallet.id != o.senderId
    && (queryFails
        || Serve(o, acc, wallet).None?
        || (sendFails && Query(o.kind, acc, wallet.address).value < o.minimum))
  }

  /** All wallets before k were served, none of them failing. */
  ghost predicate ServedBefore(o: Order, before: Accounts, wallets: seq<Wallet>, k: nat, after: Accounts,
                               queryFails: nat -> bool, sendFails: nat -> bool)
    requires k <= |wallets|
  {
    && ServeAll(o, before, wallets[..k]) == Some(after)
    && forall j: nat :: j < k ==>
         && ServeAll(o, before, wallets[..j]).Some?
         && !Fails(o, ServeAll(o, before, wallets[..j]).value, wallets[j], queryFails(j), sendFails(j))
  }

  /** The run ended at a wallet that failed, and exactly those before it were served. */
  ghost predicate EndedEarly(o: Order, before: Accounts, wallets: seq<Wallet>, after: Accounts,
                             queryFails: nat -> bool, sendFails: nat -> bool) {
    exists k: nat ::
      && k < |wallets|
      && ServedBefore(o, before, wallets, k, after, queryFails, sendFails)
      && Fails(o, after, wallets[k], queryFails(k), sendFails(k))
  }

  /** The command's loop. `queryFails` and `sendFails` say at which wallets the node lets it down. It returns nil if
      no wallet fails, and all were served; it returns an error at the first wallet that fails, and exactly those
      before it were served. */
  method Distribute(ledger: Ledger, wallets: seq<Wallet>, senderId: string, sender: string, minimum: int,
                    queryFails: nat -> bool, sendFails: nat -> bool)
    returns (ok: bool)
    modifies ledger
    ensures var o := Order(ledger.kind, ledger.fee, minimum, senderId, sender);
            if ok
            then ServedBefore(o, old(ledger.accounts), wallets, |wallets|, ledger.accounts, queryFails, sendFails)
                 && ServeAll(o, old(ledger.accounts), wallets) == Some(ledger.accounts)
            else EndedEarly(o, old(ledger.accounts), wallets, ledger.accounts, queryFails, sendFails)
  {
    var o := Order(ledger.kind, ledger.fee, minimum, senderId, sender);
    ghost var before := ledger.accounts;
    var k := 0;
    while k < |wallets|
      invariant 0 <= k <= |wallets|
      invariant ServedBefore(o, before, wallets, k, ledger.accounts, queryFails, sendFails)
    {
      ghost var sofar := ledger.accounts;
      ok := ServeWallet(ledger, o, wallets[k], queryFails(k), sendFails(k));
      if !ok {
        return;
      }
      OneMoreServed(o, before, wallets, k, sofar, queryFails, sendFails);
      k := k + 1;
    }
    assert wallets[..k] == wallets;
    return true;
  }

  lemma OneMoreServed(o: Order, before: Accounts, wallets: seq<Wallet>, k: nat, acc: Accounts,
                      queryFails: nat -> bool, sendFails: nat -> bool)
    requires k < |wallets| && ServedBefore(o, before, wallets, k, acc, queryFails, sendFails)
    requires !Fails(o, acc, wallets[k], queryFails(k), sendFails(k)) && Serve(o, acc, wallets[k]).Some?
    ensures ServedBefore(o, before, wallets, k + 1, Serve(o, acc, wallets[k]).value, queryFails, sendFails)
  {
    assert wallets[..k + 1][..k] == wallets[..k];
  }

  /** The body of the loop. */
  method ServeWallet(ledger: Ledger, o: Order, wallet: Wallet, queryFails: bool, sendFails: bool) returns (ok: bool)
    requires o.kind == ledger.kind && o.fee == ledger.fee
    modifies ledger
    ensures ok <==> !Fails(o, old(ledger.accounts), wallet, queryFails, sendFails)
    ensures ok ==> Serve(o, old(ledger.accounts), wallet) == Some(ledger.accounts)
    ensures !ok ==> ledger.accounts == old(ledger.accounts)
  {
    if wallet.id == o.senderId {
      return true;
    }
    var balance := ledger.GetBalance(wallet.address, queryFails);
    if balance.None? {
      return false;
    }
    if balance.value >= o.minimum {
      return true;
    }
    var amountToSend := o.minimum - balance.value;
    ok := ledger.Send(o, amountToSend, wallet.address, sendFails);
  }

  /** A refusal at one wallet is the end of the run. */
  lemma {:induction false} RefusedAt(o: Order, acc: Accounts, wallets: seq<Wallet>, k: nat)
    requires k < |wallets| && ServeAll(o, acc, wallets[..k]).Some?
    ensures Serve(o, ServeAll(o, acc, wallets[..k]).value, wallets[k]).None? ==> ServeAll(o, acc, wallets).None?
  {
    var n := |wallets| - 1;
    if k < n {
      assert wallets[..n][..k] == wallets[..k];
      RefusedAt(o, acc, wallets[..n], k);
    }
  }

  /** Without failures of the node, only the ledger ends a run early. */
  lemma EndsOnlyByRefusal(o: Order, before: Accounts, wallets: seq<Wallet>, after: Accounts,
                          queryFails: nat -> bool, sendFails: nat -> bool)
    requires forall k :: !queryFails(k) && !sendFails(k)
    requires EndedEarly(o, before, wallets, after, queryFails, sendFails)
    ensures ServeAll(o, before, wallets).None?
  {
    var k: nat :|
      && k < |wallets|
      && ServedBefore(o, before, wallets, k, after, queryFails, sendFails)
      && Fails(o, after, wallets[k], queryFails(k), sendFails(k));
    RefusedAt(o, before, wallets, k);
  }

  // One address.

  /** The balance of a recipient other than the sender, once served. */
  function Topped(o: Order, balance: nat): int {
    if balance >= o.minimum then balance else balance + Delivered(o.kind, o.minimum - balance)
  }

  /** Can a deficit be sent as it is? On Cosmos it must fit into an int64. */
  predicate Sendable(o: Order, balance: nat) {
    o.kind.Cosmos? ==> o.minimum - balance <= MaxInt64
  }

  lemma WrapFacts(n: nat)
    ensures n <= MaxInt64 ==> ToInt64(n) == n
    ensures n > MaxInt64 ==> ToInt64(n) < n
    ensures ToInt64(n) > 0 && ToInt64(n) < n ==> ToInt64(n - ToInt64(n)) == 0
  {
    if ToInt64(n) > 0 {
      assert n == n / TwoTo64 * TwoTo64 + ToInt64(n);
      MultipleOf(n / TwoTo64);
    }
  }

  lemma MultipleOf(k: nat)
    ensures k * TwoTo64 % TwoTo64 == 0
  {
  }

  /** Go's Int64 of a large number: the same modulo 2^64, between -2^63 and 2^63 - 1. */
  lemma Int64Law(n: nat)
    ensures -0x8000_0000_0000_0000 <= ToInt64(n) <= 0x7FFF_FFFF_FFFF_FFFF
    ensures exists k: nat :: n == ToInt64(n) + k * 0x1_0000_0000_0000_0000
  {
    var k := n / TwoTo64 + if n % TwoTo64 > MaxInt64 then 1 else 0;
    assert n == ToInt64(n) + k * 0x1_0000_0000_0000_0000;
  }

  lemma AfterServe(o: Order, acc: Accounts, wallet: Wallet, a: string)
    requires a != o.sender && Serve(o, acc, wallet).Some?
    ensures Balance(Serve(o, acc, wallet).value, a) ==
            if wallet.id != o.senderId && wallet.address == a then Topped(o, Balance(acc, a)) else Balance(acc, a)
  {
  }

  /** A recipient that was short-changed once cannot be served again: what is left to send wraps to zero. */
  lemma ToppedOnce(o: Order, acc: Accounts, wallet: Wallet, balance: nat)
    requires wallet.id != o.senderId && Served(o, balance) && Balance(acc, wallet.address) == Topped(o, balance)
    requires Serve(o, acc, wallet).Some?
    ensures Topped(o, Topped(o, balance)) == Topped(o, balance) >= o.minimum
  {
    if balance < o.minimum {
      WrapFacts(o.minimum - balance);
    }
  }

  /** A balance that a send could raise (or that needed none). */
  predicate Served(o: Order, balance: nat) {
    balance < o.minimum ==> Delivered(o.kind, o.minimum - balance) > 0
  }

  lemma ServeFacts(o: Order, acc: Accounts, wallet: Wallet)
    requires Serve(o, acc, wallet).Some? && wallet.id != o.senderId
    ensures Served(o, Balance(acc, wallet.address))
  {
  }

  lemma SplitRecipients(o: Order, wallets: seq<Wallet>)
    requires wallets != []
    ensures var last := wallets[|wallets| - 1];
            Recipients(o, wallets) ==
            Recipients(o, wallets[..|wallets| - 1]) + if last.id == o.senderId then {} else {last.address}
  {
    var n := |wallets| - 1;
    assert forall w :: w in wallets <==> w in wallets[..n] || w == wallets[n];
  }

  /** After a successful run every recipient other than the sender has been topped once, however often its address
      occurs, and no other address but the sender's has changed. */
  lemma {:induction false} AddressAfterRun(o: Order, acc: Accounts, wallets: seq<Wallet>, a: string)
    requires a != o.sender && ServeAll(o, acc, wallets).Some?
    ensures var after := ServeAll(o, acc, wallets).value;
            if a in Recipients(o, wallets)
            then Served(o, Balance(acc, a)) && Balance(after, a) == Topped(o, Balance(acc, a))
            else Balance(after, a) == Balance(acc, a)
  {
    if wallets != [] {
      var n := |wallets| - 1;
      AddressAfterRun(o, acc, wallets[..n], a);
      SplitRecipients(o, wallets);
      var before := ServeAll(o, acc, wallets[..n]).value;
      AfterServe(o, before, wallets[n], a);
      if wallets[n].id != o.senderId && wallets[n].address == a {
        ServeFacts(o, before, wallets[n]);
        if a in Recipients(o, wallets[..n]) {
          ToppedOnce(o, before, wallets[n], Balance(acc, a));
        }
      }
    }
  }

  // The sender.

  /** What topping one address takes from the sender. */
  function Cost(o: Order, acc: Accounts): string -> int {
    (a: string) =>
      if Balance(acc, a) >= o.minimum then 0 else Delivered(o.kind, o.minimum - Balance(acc, a)) + o.fee
  }

  function Sends(o: Order, acc: Accounts): string -> int {
    (a: string) => if Balance(acc, a) >= o.minimum then 0 else 1
  }

  /** What one round takes from a sender that it does not serve. */
  lemma ServeSender(o: Order, acc: Accounts, w: Wallet)
    requires Serve(o, acc, w).Some? && w.id != o.senderId && w.address != o.sender
    ensures var after := Serve(o, acc, w).value;
            && Balance(after, o.sender) == Balance(acc, o.sender) - Cost(o, acc)(w.address)
            && after.sends == acc.sends + Sends(o, acc)(w.address)
  {
  }

  /** What the round of a wallet costs, in terms of the balances before the run. */
  lemma CostOfRound(o: Order, acc: Accounts, before: Accounts, wallets: seq<Wallet>, w: Wallet)
    requires ServeAll(o, acc, wallets) == Some(before) && Serve(o, before, w).Some?
    requires w.id != o.senderId && w.address != o.sender
    ensures var again := w.address in Recipients(o, wallets);
            && Cost(o, before)(w.address) == (if again then 0 else Cost(o, acc)(w.address))
            && Sends(o, before)(w.address) == (if again then 0 else Sends(o, acc)(w.address))
  {
    AddressAfterRun(o, acc, wallets, w.address);
    if w.address in Recipients(o, wallets) {
      ToppedOnce(o, before, w, Balance(acc, w.address));
    }
  }

  lemma TotalGrows(s: set<string>, x: string, f: string -> int)
    ensures Total(s + {x}, f) == Total(s, f) + if x in s then 0 else f(x)
  {
    if x in s {
      assert s + {x} == s;
    } else {
      TotalAdd(s, x, f);
    }
  }

  ghost predicate SenderPaid(o: Order, acc: Accounts, to: set<string>, after: Accounts) {
    && Balance(after, o.sender) == Balance(acc, o.sender) - Total(to, Cost(o, acc))
    && after.sends == acc.sends + Total(to, Sends(o, acc))
  }

  lemma SenderPaysRound(o: Order, acc: Accounts, before: Accounts, wallets: seq<Wallet>, w: Wallet)
    requires ServeAll(o, acc, wallets) == Some(before) && Serve(o, before, w).Some?
    requires w.id != o.senderId && w.address != o.sender
    requires SenderPaid(o, acc, Recipients(o, wallets), before)
    ensures SenderPaid(o, acc, Recipients(o, wallets) + {w.address}, Serve(o, before, w).value)
  {
    ServeSender(o, before, w);
    CostOfRound(o, acc, before, wallets, w);
    TotalGrows(Recipients(o, wallets), w.address, Cost(o, acc));
    TotalGrows(Recipients(o, wallets), w.address, Sends(o, acc));
  }

  /** The sender pays for each distinct recipient address once: its deficit and one fee. */
  lemma {:induction false} SenderAfterRun(o: Order, acc: Accounts, wallets: seq<Wallet>)
    requires ServeAll(o, acc, wallets).Some? && o.sender !in Recipients(o, wallets)
    ensures SenderPaid(o, acc, Recipients(o, wallets), ServeAll(o, acc, wallets).value)
  {
    if wallets != [] {
      var n := |wallets| - 1;
      SplitRecipients(o, wallets);
      SenderAfterRun(o, acc, wallets[..n]);
      if wallets[n].id != o.senderId {
        SenderPaysRound(o, acc, ServeAll(o, acc, wallets[..n]).value, wallets[..n], wallets[n]);
      } else {
        assert Recipients(o, wallets) == Recipients(o, wallets[..n]);
      }
    } else {
      assert Recipients(o, wallets) == {};
    }
  }

  lemma ServeFee(o: Order, acc: Accounts, w: Wallet)
    requires Serve(o, acc, w).Some?
    ensures var after := Serve(o, acc, w).value;
            (after.sends == acc.sends && after.fees == acc.fees)
            || (after.sends == acc.sends + 1 && after.fees == acc.fees + o.fee)
  {
  }

  /** One fee per send. */
  lemma {:induction false} FeesAfterRun(o: Order, acc: Accounts, wallets: seq<Wallet>)
    requires ServeAll(o, acc, wallets).Some?
    ensures var after := ServeAll(o, acc, wallets).value;
            after.sends >= acc.sends && after.fees == acc.fees + o.fee * (after.sends - acc.sends)
  {
    if wallets != [] {
      var n := |wallets| - 1;
      FeesAfterRun(o, acc, wallets[..n]);
      var before := ServeAll(o, acc, wallets[..n]).value;
      ServeFee(o, before, wallets[n]);
      assert o.fee * (before.sends + 1 - acc.sends) == o.fee * (before.sends - acc.sends) + o.fee;
    }
  }

  // Conservation.

  /** A round is no send at all or one send. */
  lemma RoundIsSend(o: Order, acc: Accounts, w: Wallet)
    requires Serve(o, acc, w).Some?
    ensures var due := o.minimum - Balance(acc, w.address);
            if w.id == o.senderId || due <= 0 then Serve(o, acc, w) == Some(acc)
            else Serve(o, acc, w) == Transfer(o, acc, due, w.address)
  {
  }

  lemma RoundConserves(o: Order, acc: Accounts, w: Wallet, all: set<string>)
    requires Serve(o, acc, w).Some? && o.sender in all && (w.id != o.senderId ==> w.address in all)
    ensures var after := Serve(o, acc, w).value;
            Total(all, Holdings(after)) + after.fees == Total(all, Holdings(acc)) + acc.fees
  {
    var due := o.minimum - Balance(acc, w.address);
    RoundIsSend(o, acc, w);
    if w.id != o.senderId && due > 0 {
      TransferConserves(o, acc, due, w.address, all);
    }
  }

  /** A run neither makes nor loses tokens: balances and fees together stay the same, whoever shares an address
      with whom. */
  lemma {:induction false} RunConserves(o: Order, acc: Accounts, wallets: seq<Wallet>, all: set<string>)
    requires ServeAll(o, acc, wallets).Some? && o.sender in all && Recipients(o, wallets) <= all
    ensures var after := ServeAll(o, acc, wallets).value;
            Total(all, Holdings(after)) + after.fees == Total(all, Holdings(acc)) + acc.fees
  {
    if wallets != [] {
      var n := |wallets| - 1;
      SplitRecipients(o, wallets);
      RunConserves(o, acc, wallets[..n], all);
      RoundConserves(o, ServeAll(o, acc, wallets[..n]).value, wallets[n], all);
    }
  }

  // A sender that is itself a recipient.

  lemma ServeSenderLoses(o: Order, acc: Accounts, w: Wallet)
    requires Serve(o, acc, w).Some?
    ensures var after := Serve(o, acc, w).value;
            && Balance(after, o.sender) <= Balance(acc, o.sender)
            && (w.id != o.senderId && w.address != o.sender && Balance(acc, w.address) < o.minimum ==>
                  Balance(after, o.sender) < Balance(acc, o.sender))
  {
  }

  /** The sender never gains, and loses if any other recipient was below the minimum. */
  lemma {:induction false} SenderNeverGains(o: Order, acc: Accounts, wallets: seq<Wallet>)
    requires ServeAll(o, acc, wallets).Some?
    ensures var after := ServeAll(o, acc, wallets).value;
            && Balance(after, o.sender) <= Balance(acc, o.sender)
            && ((exists a :: a in Recipients(o, wallets) && a != o.sender && Balance(acc, a) < o.minimum) ==>
                  Balance(after, o.sender) < Balance(acc, o.sender))
  {
    if wallets != [] {
      var n := |wallets| - 1;
      SplitRecipients(o, wallets);
      SenderNeverGains(o, acc, wallets[..n]);
      var before := ServeAll(o, acc, wallets[..n]).value;
      ServeSenderLoses(o, before, wallets[n]);
      if wallets[n].address != o.sender {
        AddressAfterRun(o, acc, wallets[..n], wallets[n].address);
      }
    }
  }

  /** If nobody is below the minimum, and the balances can be read, nothing is sent. */
  lemma {:induction false} NothingToSend(o: Order, acc: Accounts, wallets: seq<Wallet>)
    requires forall a :: a in Recipients(o, wallets) ==> Balance(acc, a) >= o.minimum
    ensures ServeAll(o, acc, wallets).Some? ==> ServeAll(o, acc, wallets).value == acc
    ensures (forall a :: a in Recipients(o, wallets) ==> Query(o.kind, acc, a).Some?) ==>
              ServeAll(o, acc, wallets).Some?
  {
    if wallets != [] {
      SplitRecipients(o, wallets);
      NothingToSend(o, acc, wallets[..|wallets| - 1]);
    }
  }

  // When the run succeeds.

  /** On Cosmos, the minimum and the recipients' balances fit into an int64. */
  predicate Readable(o: Order, acc: Accounts, to: set<string>) {
    o.kind.Cosmos? ==> o.minimum <= MaxInt64 && forall a :: a in to ==> Balance(acc, a) <= MaxInt64
  }

  lemma DeliveredAsItIs(o: Order, acc: Accounts, a: string)
    requires Readable(o, acc, {a}) && Balance(acc, a) < o.minimum
    ensures Delivered(o.kind, o.minimum - Balance(acc, a)) == o.minimum - Balance(acc, a)
  {
    WrapFacts(o.minimum - Balance(acc, a));
  }

  lemma ServeSucceedsIff(o: Order, acc: Accounts, w: Wallet)
    requires w.id != o.senderId && w.address != o.sender && Readable(o, acc, {w.address})
    ensures Serve(o, acc, w).Some? <==> Balance(acc, o.sender) >= Cost(o, acc)(w.address)
  {
    if Balance(acc, w.address) < o.minimum {
      DeliveredAsItIs(o, acc, w.address);
    }
  }

  /** What a recipient holds before a round: the minimum at least, if it was served already. */
  lemma HeldBefore(o: Order, acc: Accounts, before: Accounts, wallets: seq<Wallet>, a: string)
    requires ServeAll(o, acc, wallets) == Some(before) && a != o.sender && Readable(o, acc, {a})
    ensures Readable(o, before, {a})
    ensures if a in Recipients(o, wallets)
            then Balance(before, a) >= o.minimum
            else Balance(before, a) == Balance(acc, a)
  {
    AddressAfterRun(o, acc, wallets, a);
    if Balance(acc, a) < o.minimum {
      DeliveredAsItIs(o, acc, a);
    }
  }

  /** With amounts that can be read, a round fails exactly if the sender cannot pay for it. */
  lemma RoundSucceedsIff(o: Order, acc: Accounts, before: Accounts, wallets: seq<Wallet>, w: Wallet)
    requires ServeAll(o, acc, wallets) == Some(before)
    requires w.id != o.senderId && w.address != o.sender && Readable(o, acc, {w.address})
    ensures Serve(o, before, w).Some? <==>
            Balance(before, o.sender) >= if w.address in Recipients(o, wallets) then 0 else Cost(o, acc)(w.address)
  {
    HeldBefore(o, acc, before, wallets, w.address);
    ServeSucceedsIff(o, before, w);
  }

  lemma {:induction false} CostsAreNotNegative(o: Order, acc: Accounts, s: set<string>)
    requires Readable(o, acc, s)
    ensures Total(s, Cost(o, acc)) >= 0
    decreases |s|
  {
    if s != {} {
      var x :| x in s;
      TotalRemove(s, x, Cost(o, acc));
      CostsAreNotNegative(o, acc, s - {x});
      if Balance(acc, x) < o.minimum {
        DeliveredAsItIs(o, acc, x);
      }
    }
  }

  /** The run succeeds, whatever the order of the wallets, exactly if the sender can pay for all distinct recipients
      together. That success needs the money rests on sends taking effect when they return: a Cosmos node answers
      before it executes the transfer. */
  lemma {:induction false} SucceedsIff(o: Order, acc: Accounts, wallets: seq<Wallet>)
    requires o.sender !in Recipients(o, wallets) && Readable(o, acc, Recipients(o, wallets))
    ensures ServeAll(o, acc, wallets).Some? <==>
            Balance(acc, o.sender) >= Total(Recipients(o, wallets), Cost(o, acc))
  {
    if wallets == [] {
      assert Recipients(o, wallets) == {};
    } else {
      var n := |wallets| - 1;
      var w, to := wallets[n], Recipients(o, wallets[..n]);
      SplitRecipients(o, wallets);
      SucceedsIff(o, acc, wallets[..n]);
      if w.id == o.senderId {
        assert Recipients(o, wallets) == to;
      } else {
        TotalGrows(to, w.address, Cost(o, acc));
        CostsAreNotNegative(o, acc, {w.address});
        TotalAdd({}, w.address, Cost(o, acc));
        assert {} + {w.address} == {w.address};
        if ServeAll(o, acc, wallets[..n]).Some? {
          SenderAfterRun(o, acc, wallets[..n]);
          RoundSucceedsIff(o, acc, ServeAll(o, acc, wallets[..n]).value, wallets[..n], w);
        }
      }
    }
  }

  // The theorems.

  ghost predicate Exact(o: Order, acc: Accounts, wallets: seq<Wallet>) {
    exists after ::
      ServeAll(o, acc, wallets) == Some(after) &&
      forall a :: a in Recipients(o, wallets) ==>
        Balance(after, a) == if Balance(acc, a) >= o.minimum then Balance(acc, a) else o.minimum
  }

  /** A successful run leaves every recipient address at exactly the larger of its old balance and the minimum
      if and only if every deficit could be sent as it is, and no recipient shares the sender's address unless
      there was nothing to do. */
  lemma ExactIff(o: Order, acc: Accounts, wallets: seq<Wallet>)
    requires ServeAll(o, acc, wallets).Some?
    ensures Exact(o, acc, wallets) <==>
            && (forall a :: a in Recipients(o, wallets) ==> Sendable(o, Balance(acc, a)))
            && (o.sender in Recipients(o, wallets) ==>
                  forall a :: a in Recipients(o, wallets) ==> Balance(acc, a) >= o.minimum)
  {
    var after := ServeAll(o, acc, wallets).value;
    forall a | a in Recipients(o, wallets) && a != o.sender
      ensures Balance(after, a) == (if Balance(acc, a) >= o.minimum then Balance(acc, a) else o.minimum) <==>
              Sendable(o, Balance(acc, a))
    {
      AddressAfterRun(o, acc, wallets, a);
      if Balance(acc, a) < o.minimum {
        WrapFacts(o.minimum - Balance(acc, a));
      }
    }
    SenderNeverGains(o, acc, wallets);
    if forall a :: a in Recipients(o, wallets) ==> Balance(acc, a) >= o.minimum {
      NothingToSend(o, acc, wallets);
    }
  }

  /** The amount is cut to its low 64 bits: a run can succeed and leave a recipient far below the minimum. */
  lemma OversizedAmount()
    ensures var o := Order(Cosmos, 0, TwoTo64 + 5, "faucet", "A");
            var acc, wallets := Accounts(map["A" := 10], 0, 0), [Wallet("user", "B")];
            ServeAll(o, acc, wallets).Some? && !Exact(o, acc, wallets)
  {
    var o := Order(Cosmos, 0, TwoTo64 + 5, "faucet", "A");
    var acc, wallets := Accounts(map["A" := 10], 0, 0), [Wallet("user", "B")];
    ServeOne(o, acc, wallets[0]);
    assert Recipients(o, wallets) == {"B"};
    ExactIff(o, acc, wallets);
  }

  /** Topping up the sender's own address succeeds and moves nothing. */
  lemma SharedAddress()
    ensures var o := Order(Ethereum, 0, 15, "faucet", "A");
            var acc, wallets := Accounts(map["A" := 10], 0, 0), [Wallet("user", "A")];
            ServeAll(o, acc, wallets).Some? && !Exact(o, acc, wallets)
  {
    var o := Order(Ethereum, 0, 15, "faucet", "A");
    var acc, wallets := Accounts(map["A" := 10], 0, 0), [Wallet("user", "A")];
    ServeOne(o, acc, wallets[0]);
    assert Recipients(o, wallets) == {"A"};
    ExactIff(o, acc, wallets);
  }

  lemma ServeOne(o: Order, acc: Accounts, w: Wallet)
    ensures ServeAll(o, acc, [w]) == Serve(o, acc, w)
  {
    assert [w][..0] == [];
  }

  lemma ServeTwo(o: Order, acc: Accounts, v: Wallet, w: Wallet)
    ensures ServeAll(o, acc, [v, w]) ==
            if Serve(o, acc, v).Some? then Serve(o, Serve(o, acc, v).value, w) else None
  {
    assert [v, w][..1] == [v];
    ServeOne(o, acc, v);
  }

  lemma SameBalance(o: Order, acc: Accounts, wallets: seq<Wallet>, wallets': seq<Wallet>, a: string)
    requires Recipients(o, wallets) == Recipients(o, wallets') && o.sender !in Recipients(o, wallets)
    requires ServeAll(o, acc, wallets).Some? && ServeAll(o, acc, wallets').Some?
    ensures Balance(ServeAll(o, acc, wallets).value, a) == Balance(ServeAll(o, acc, wallets').value, a)
  {
    if a == o.sender {
      SenderAfterRun(o, acc, wallets);
      SenderAfterRun(o, acc, wallets');
    } else {
      AddressAfterRun(o, acc, wallets, a);
      AddressAfterRun(o, acc, wallets', a);
    }
  }

  lemma SameSends(o: Order, acc: Accounts, wallets: seq<Wallet>, wallets': seq<Wallet>)
    requires Recipients(o, wallets) == Recipients(o, wallets') && o.sender !in Recipients(o, wallets)
    requires ServeAll(o, acc, wallets).Some? && ServeAll(o, acc, wallets').Some?
    ensures var after, after' := ServeAll(o, acc, wallets).value, ServeAll(o, acc, wallets').value;
            after.sends == after'.sends && after.fees == after'.fees
  {
    FeesAfterRun(o, acc, wallets);
    FeesAfterRun(o, acc, wallets');
    SenderAfterRun(o, acc, wallets);
    SenderAfterRun(o, acc, wallets');
  }

  /** Whether and with what result the run succeeds depends on the set of recipient addresses only: not on the order
      of the wallets, nor on how often an address occurs. */
  lemma OrderIrrelevant(o: Order, acc: Accounts, wallets: seq<Wallet>, wallets': seq<Wallet>)
    requires Recipients(o, wallets) == Recipients(o, wallets') && o.sender !in Recipients(o, wallets)
    ensures Readable(o, acc, Recipients(o, wallets)) ==>
              (ServeAll(o, acc, wallets).Some? <==> ServeAll(o, acc, wallets').Some?)
    ensures ServeAll(o, acc, wallets).Some? && ServeAll(o, acc, wallets').Some? ==>
              var after, after' := ServeAll(o, acc, wallets).value, ServeAll(o, acc, wallets').value;
              && (forall a: string :: Balance(after, a) == Balance(after', a))
              && after.sends == after'.sends && after.fees == after'.fees
  {
    if Readable(o, acc, Recipients(o, wallets)) {
      SucceedsIff(o, acc, wallets);
      SucceedsIff(o, acc, wallets');
    }
    if ServeAll(o, acc, wallets).Some? && ServeAll(o, acc, wallets').Some? {
      SameSends(o, acc, wallets, wallets');
      forall a: string
        ensures Balance(ServeAll(o, acc, wallets).value, a) == Balance(ServeAll(o, acc, wallets').value, a)
      {
        SameBalance(o, acc, wallets, wallets', a);
      }
    }
  }

  /** With the sender's address among the recipients, the order decides even whether the run succeeds: served first
      it needs nothing, served last it has too little left to send to itself. */
  lemma OrderMattersToSender()
    ensures var o := Order(Ethereum, 0, 10, "faucet", "A");
            var acc, own, user := Accounts(map["A" := 12], 0, 0), Wallet("own", "A"), Wallet("user", "B");
            ServeAll(o, acc, [own, user]).Some? && ServeAll(o, acc, [user, own]).None?
  {
    var o := Order(Ethereum, 0, 10, "faucet", "A");
    var acc, own, user := Accounts(map["A" := 12], 0, 0), Wallet("own", "A"), Wallet("user", "B");
    var spent := Accounts(map["A" := 2, "B" := 10], 0, 1);
    assert Serve(o, acc, own) == Some(acc);
    assert Serve(o, acc, user) == Some(spent) by {
      assert acc.balances["A" := 2]["B" := 10] == spent.balances;
    }
    assert Serve(o, spent, own).None?;
    ServeTwo(o, acc, own, user);
    ServeTwo(o, acc, user, own);
  }

  /** After an exact run with a minimum that can be read back, a second run sends nothing. */
  lemma SecondRunSendsNothing(o: Order, acc: Accounts, wallets: seq<Wallet>)
    requires Exact(o, acc, wallets)
    requires o.kind.Cosmos? ==> o.minimum <= MaxInt64
    requires forall a :: a in Recipients(o, wallets) ==> Query(o.kind, acc, a).Some?
    ensures var after := ServeAll(o, acc, wallets).value; ServeAll(o, after, wallets) == Some(after)
  {
    NothingToSend(o, ServeAll(o, acc, wallets).value, wallets);
  }
}
