/**
 The ledger under the contracts: addresses, token balances, the close time, and the
 events the escrow publishes. Tokens are honest: a move takes exactly the amount from
 one balance to another, or traps.
 */
module Chain {
  import opened Prelude
  import opened Totals

  /** A classic account, which signs, or a contract, which never does. */
  datatype Address = Account(id: nat) | Contract(id: nat)

  type Symbol = string

  /** 32 bytes: claim codes, their digests and attestation hashes. */
  datatype Bytes32 = Bytes32(bytes: seq<bv8>)

  const REGISTRY := Contract(1)
  const HOOK := Contract(2)
  const ESCROW := Contract(3)
  const POOL := Contract(4)

  datatype Holding = Holding(token: Address, holder: Address)

  type Book = map<Holding, int>

  function Balance(book: Book, token: Address, holder: Address): int {
    LookupOr(book, Holding(token, holder), 0)
  }

  function OfToken(token: Address): (Holding, int) -> int {
    (h: Holding, amount: int) => if h.token == token then amount else 0
  }

  ghost function Supply(book: Book, token: Address): int {
    Total(book, OfToken(token))
  }

  /** Balances are never negative, and the supply of a token fits the i128 it is counted in. */
  ghost predicate Sound(book: Book) {
    && (forall h :: h in book ==> 0 <= book[h])
    && (forall token :: Supply(book, token) <= I128_MAX)
  }

  datatype TransferEvent =
    | TransferCreated(id: nat, sender: Address, corridor: Symbol, amount: int, token: Address, claimHash: Bytes32, expiry: nat)
    | TransferClaimed(id: nat, agent: Address, corridor: Symbol, gross: int, fee: int, payout: int)
    | TransferRefunded(id: nat, sender: Address, corridor: Symbol, amount: int)
    | TransferCancelled(id: nat, sender: Address, corridor: Symbol, amount: int)

  /** An event as the RPC node reports it, stamped with the ledger that closed over it. */
  datatype LoggedEvent = LoggedEvent(ledger: nat, closedAt: nat, txHash: string, event: TransferEvent)

  datatype LedgerState = LedgerState(now: nat, sequence: nat, txHash: string, book: Book, events: seq<LoggedEvent>) {
    function Publish(event: TransferEvent): LedgerState {
      this.(events := events + [LoggedEvent(sequence, now, txHash, event)])
    }

    /** `transfer` of a token, on the ledger as a whole: what the token refuses traps. */
    function Move<E>(token: Address, from: Address, to: Address, amount: int): Result<LedgerState, E> {
      match Moved(book, token, from, to, amount)
      case Some(after) => Ok(this.(book := after))
      case None => Trap
    }
  }

  /** `transfer` of an honest token: refused for a negative amount, a short balance or an overflow. */
  function Moved(book: Book, token: Address, from: Address, to: Address, amount: int): Option<Book> {
    if amount < 0 || Balance(book, token, from) < amount then None
    else
      var taken := book[Holding(token, from) := Balance(book, token, from) - amount];
      if I128_MAX < Balance(taken, token, to) + amount then None
      else Some(taken[Holding(token, to) := Balance(taken, token, to) + amount])
  }

  /** What a move of `amount` from `from` to `to` does to the balance of `holder`. */
  function Delta(holder: Address, from: Address, to: Address, amount: int): int {
    (if holder == to then amount else 0) - (if holder == from then amount else 0)
  }

  /** Every balance changes by exactly its share of the move. */
  lemma MovedBalances(book: Book, token: Address, from: Address, to: Address, amount: int)
    requires Moved(book, token, from, to, amount).Some?
    ensures var book' := Moved(book, token, from, to, amount).value;
            forall t, holder :: Balance(book', t, holder)
              == Balance(book, t, holder) + (if t == token then Delta(holder, from, to, amount) else 0)
  {
  }

  lemma SupplyAfter(book: Book, h: Holding, amount: int, t: Address)
    ensures Supply(book[h := amount], t)
         == Supply(book, t) + (if h.token == t then amount - LookupOr(book, h, 0) else 0)
  {
    TotalPut(book, OfToken(t), h, amount);
  }

  lemma BalanceWithinSupply(book: Book, token: Address, holder: Address)
    requires forall h :: h in book ==> 0 <= book[h]
    ensures 0 <= Balance(book, token, holder) <= Supply(book, token)
  {
    if Holding(token, holder) in book {
      TotalCovers(book, OfToken(token), Holding(token, holder));
    } else {
      TotalNonNegative(book, OfToken(token));
    }
  }

  /**
   A move between sound balances conserves the supply of every token, and it goes through
   exactly when the payer has the amount: the receiving side can never be what stops it.
   */
  lemma MovedIsSound(book: Book, token: Address, from: Address, to: Address, amount: int)
    requires Sound(book)
    ensures Moved(book, token, from, to, amount).Some? <==> 0 <= amount <= Balance(book, token, from)
    ensures Moved(book, token, from, to, amount).Some? ==>
              var book' := Moved(book, token, from, to, amount).value;
              Sound(book') && forall t :: Supply(book', t) == Supply(book, t)
  {
    if 0 <= amount <= Balance(book, token, from) {
      var taken := book[Holding(token, from) := Balance(book, token, from) - amount];
      SupplyAfter(book, Holding(token, from), Balance(book, token, from) - amount, token);
      BalanceWithinSupply(taken, token, to);
      assert Supply(book, token) <= I128_MAX;
      var book' := taken[Holding(token, to) := Balance(taken, token, to) + amount];
      assert Moved(book, token, from, to, amount) == Some(book');
      forall t ensures Supply(book', t) == Supply(book, t) {
        SupplyAfter(book, Holding(token, from), Balance(book, token, from) - amount, t);
        SupplyAfter(taken, Holding(token, to), Balance(taken, token, to) + amount, t);
      }
    }
  }

  /** The ledger as the contracts reach it through their environment. */
  class Ledger {
    var now: nat
    var sequence: nat
    var txHash: string
    var book: Book
    var events: seq<LoggedEvent>

    constructor (start: LedgerState)
      ensures State() == start
    {
      now, sequence, txHash := start.now, start.sequence, start.txHash;
      book, events := start.book, start.events;
    }

    function State(): LedgerState
      reads this
    {
      LedgerState(now, sequence, txHash, book, events)
    }

    method Restore(start: LedgerState)
      modifies this
      ensures State() == start
    {
      now, sequence, txHash := start.now, start.sequence, start.txHash;
      book, events := start.book, start.events;
    }

    /** Takes the amount from one balance, then adds it to the other. */
    method Transfer<E>(token: Address, from: Address, to: Address, amount: int) returns (r: Result<(), E>)
      modifies this`book
      ensures var want := old(State()).Move<E>(token, from, to, amount);
              && r == (match want case Ok(_) => Ok(()) case Err(e) => Err(e) case Trap => Trap)
              && (r.Ok? ==> State() == want.value)
    {
      if amount < 0 || Balance(book, token, from) < amount {
        return Trap;
      }
      book := book[Holding(token, from) := Balance(book, token, from) - amount];
      if I128_MAX < Balance(book, token, to) + amount {
        return Trap;
      }
      book := book[Holding(token, to) := Balance(book, token, to) + amount];
      return Ok(());
    }

    method Publish(event: TransferEvent)
      modifies this`events
      ensures State() == old(State()).Publish(event)
    {
      events := events + [LoggedEvent(sequence, now, txHash, event)];
    }
  }

  /** What a contract call yields on success: its new state, the new ledger, and its answer. */
  datatype Done<+S, +T> = Done(state: S, ledger: LedgerState, value: T)

  /**
   A contract method ran as its rule says: it gives the rule's answer, and after a success the
   rule's state. After a failure nothing is promised, because the host restores everything.
   */
  ghost predicate Ran<S, T, E>(rule: Result<Done<S, T>, E>, answer: Result<T, E>, state: S, ledger: LedgerState) {
    match rule
    case Ok(done) => answer == Ok(done.value) && state == done.state && ledger == done.ledger
    case Err(e) => answer == Err(e)
    case Trap => answer == Trap
  }
}
