/** Wallets and their ledger.  Amounts are whole kopecks. */
module Wallets {
  import opened Prelude

  datatype TransactionType = DEPOSIT | WITHDRAWAL | BOOKING_PAYMENT | BOOKING_PAYOUT | REFUND

  datatype Transaction = Transaction(userId: int, kind: TransactionType, amount: nat, bookingId: Option<int>)
  {
    predicate IsDebit() { kind.WITHDRAWAL? || kind.BOOKING_PAYMENT? }

    /** The effect on the wallet of `userId`. */
    function Signed(): int { if IsDebit() then -(amount as int) else amount }
  }

  datatype Bank = Bank(balances: map<int, int>, ledger: seq<Transaction>)
  {
    /** A user without a wallet has the balance a new wallet starts with. */
    function Balance(userId: int): int {
      if userId in balances then balances[userId] else 0
    }

    /** One committed database transaction: the wallet is written and a ledger row appended. */
    function Post(t: Transaction): Bank {
      Bank(balances[t.userId := Balance(t.userId) + t.Signed()], ledger + [t])
    }

    /** A debit the balance does not cover is refused, and rolled back as a whole. */
    function Try(t: Transaction): Option<Bank> {
      if t.IsDebit() && Balance(t.userId) < t.amount then None else Some(Post(t))
    }
  }

  /** One wallet is `delta` richer, every other one is as it was, and the ledger has one row more. */
  ghost predicate Moves(bank: Bank, bank': Bank, userId: int, delta: int, row: Transaction) {
    && bank'.Balance(userId) == bank.Balance(userId) + delta
    && (forall u | u != userId :: bank'.Balance(u) == bank.Balance(u))
    && bank'.ledger == bank.ledger + [row]
  }

  /** The five kinds of movement, one by one: a withdrawal and a payment go through if and only if the wallet covers
      them, and lower it by their amount; a deposit, a payout and a refund always go through, and raise it. */
  lemma MovementsAreExact(bank: Bank, userId: int, amount: nat, bookingId: Option<int>)
    ensures forall kind | kind == WITHDRAWAL || kind == BOOKING_PAYMENT ::
              var t := Transaction(userId, kind, amount, bookingId);
              && (bank.Try(t).Some? <==> amount <= bank.Balance(userId))
              && (bank.Try(t).Some? ==> Moves(bank, bank.Try(t).value, userId, -(amount as int), t))
    ensures forall kind | kind == DEPOSIT || kind == BOOKING_PAYOUT || kind == REFUND ::
              var t := Transaction(userId, kind, amount, bookingId);
              bank.Try(t).Some? && Moves(bank, bank.Try(t).value, userId, amount, t)
  {
  }

  // ---------------------------------------------------------------- the service

  class WalletsService {
    var balances: map<int, int>
    var ledger: seq<Transaction>

    function View(): Bank
      reads this
    {
      Bank(balances, ledger)
    }

    constructor ()
      ensures View() == Bank(map[], [])
    {
      balances, ledger := map[], [];
    }

    /** Reads the wallet row under a lock and creates it when it is missing. */
    method GetLockedWallet(userId: int) returns (balance: int)
      modifies this`balances
      ensures balance == old(View()).Balance(userId)
      ensures balances == old(balances)[userId := balance]
    {
      if userId !in balances {
        balances := balances[userId := 0];
      }
      balance := balances[userId];
    }

    method Deposit(userId: int, amount: nat)
      modifies this
      ensures View() == old(View()).Post(Transaction(userId, DEPOSIT, amount, None))
      ensures Moves(old(View()), View(), userId, amount, Transaction(userId, DEPOSIT, amount, None))
    {
      var balance := GetLockedWallet(userId);
      balances := balances[userId := balance + amount];
      ledger := ledger + [Transaction(userId, DEPOSIT, amount, None)];
    }

    method Withdraw(userId: int, amount: nat) returns (ok: bool)
      modifies this
      ensures match old(View()).Try(Transaction(userId, WITHDRAWAL, amount, None))
              case Some(bank) => ok && View() == bank
              case None => !ok && View() == old(View())
      ensures ok <==> amount <= old(View()).Balance(userId)
      ensures ok ==> Moves(old(View()), View(), userId, -(amount as int),
                           Transaction(userId, WITHDRAWAL, amount, None))
    {
      var atStart := balances;
      var balance := GetLockedWallet(userId);
      if balance < amount {
        balances := atStart;
        return false;
      }
      balances := balances[userId := balance - amount];
      ledger := ledger + [Transaction(userId, WITHDRAWAL, amount, None)];
      ok := true;
    }

    method ProcessBookingPayment(userId: int, bookingId: int, amount: nat) returns (ok: bool)
      modifies this
      ensures match old(View()).Try(Transaction(userId, BOOKING_PAYMENT, amount, Some(bookingId)))
              case Some(bank) => ok && View() == bank
              case None => !ok && View() == old(View())
      ensures ok <==> amount <= old(View()).Balance(userId)
      ensures ok ==> Moves(old(View()), View(), userId, -(amount as int),
                           Transaction(userId, BOOKING_PAYMENT, amount, Some(bookingId)))
    {
      var atStart := balances;
      var balance := GetLockedWallet(userId);
      if balance < amount {
        balances := atStart;
        return false;
      }
      balances := balances[userId := balance - amount];
      ledger := ledger + [Transaction(userId, BOOKING_PAYMENT, amount, Some(bookingId))];
      ok := true;
    }

    method ProcessBookingPayout(userId: int, bookingId: int, amount: nat)
      modifies this
      ensures View() == old(View()).Post(Transaction(userId, BOOKING_PAYOUT, amount, Some(bookingId)))
      ensures Moves(old(View()), View(), userId, amount, Transaction(userId, BOOKING_PAYOUT, amount, Some(bookingId)))
    {
      var balance := GetLockedWallet(userId);
      balances := balances[userId := balance + amount];
      ledger := ledger + [Transaction(userId, BOOKING_PAYOUT, amount, Some(bookingId))];
    }

    method ProcessRefund(userId: int, bookingId: int, amount: nat)
      modifies this
      ensures View() == old(View()).Post(Transaction(userId, REFUND, amount, Some(bookingId)))
      ensures Moves(old(View()), View(), userId, amount, Transaction(userId, REFUND, amount, Some(bookingId)))
    {
      var balance := GetLockedWallet(userId);
      balances := balances[userId := balance + amount];
      ledger := ledger + [Transaction(userId, REFUND, amount, Some(bookingId))];
    }
  }

  // ---------------------------------------------------------------- what the ledger says

  function Sum(rows: seq<Transaction>, weight: Transaction -> int): int {
    if rows == [] then 0 else Sum(rows[..|rows| - 1], weight) + weight(rows[|rows| - 1])
  }

  /** What a row adds to the wallet of one user. */
  function OnWallet(userId: int): Transaction -> int {
    (t: Transaction) =>
      if t.userId != userId then 0
      else match t.kind
           case WITHDRAWAL | BOOKING_PAYMENT => -(t.amount as int)
           case DEPOSIT | BOOKING_PAYOUT | REFUND => t.amount
  }

  /** The amounts of all rows of one kind. */
  function AmountOf(kind: TransactionType): Transaction -> int {
    (t: Transaction) => if t.kind == kind then t.amount else 0
  }

  /** Payments for one booking minus its refunds and payouts. */
  function HeldFor(bookingId: int): Transaction -> int {
    (t: Transaction) =>
      if t.bookingId != Some(bookingId) then 0
      else match t.kind
           case BOOKING_PAYMENT => t.amount
           case REFUND | BOOKING_PAYOUT => -(t.amount as int)
           case DEPOSIT | WITHDRAWAL => 0
  }

  /** One for each payout of the booking. */
  function PayoutOf(bookingId: int): Transaction -> int {
    (t: Transaction) => if t.bookingId == Some(bookingId) && t.kind.BOOKING_PAYOUT? then 1 else 0
  }

  lemma SumAppend(rows: seq<Transaction>, t: Transaction, weight: Transaction -> int)
    ensures Sum(rows + [t], weight) == Sum(rows, weight) + weight(t)
  {
    assert (rows + [t])[..|rows|] == rows;
  }

  /** Every wallet holds the sum of its ledger rows, and never less than nothing. */
  ghost predicate WellKept(bank: Bank) {
    forall u :: bank.Balance(u) == Sum(bank.ledger, OnWallet(u)) && 0 <= bank.Balance(u)
  }

  /** No transaction that goes through breaks the agreement between wallets and ledger or overdraws a
      wallet; the refused ones change nothing. */
  lemma TryKeepsBooks(bank: Bank, t: Transaction)
    requires WellKept(bank)
    ensures bank.Try(t).Some? ==> WellKept(bank.Try(t).value)
  {
    forall u ensures bank.Post(t).Balance(u) == Sum(bank.Post(t).ledger, OnWallet(u)) {
      SumAppend(bank.ledger, t, OnWallet(u));
      assert bank.Balance(u) == Sum(bank.ledger, OnWallet(u));
    }
    assert forall u :: 0 <= bank.Balance(u);
  }

  /** A posted row moves the total of all wallets by its signed amount. */
  lemma PostMovesTotal(bank: Bank, t: Transaction)
    ensures Total(bank.Post(t).balances) == Total(bank.balances) + t.Signed()
  {
    TotalUpdate(bank.balances, t.userId, bank.Balance(t.userId) + t.Signed());
  }
}
