/**
 * The demo bank's ledger: a balance in hundredths and the last 500 entries. Debits reserve,
 * settlements and refunds close reservations, credits pay out at most once per anchor
 * transaction while their entry is still in the log.
 *
 * An operation updates one entry in place at most and appends one at most; `Outcome` says
 * which. `BankRuns` keeps the whole log over runs, pruned entries included.
 */
module Bank {
  import opened Basics
  import opened Decimal
  import opened Money

  const INITIAL_BALANCE: int := 10_000_000
  const MAX_ENTRIES: nat := 500

  datatype TxKind = DepositToAnchor | WithdrawalPayout | Topup

  datatype TxStatus = Pending | Completed | Refunded | Failed

  datatype Transaction = Transaction(
    id: string,
    kind: TxKind,
    amountTry: string,
    currency: string,
    status: TxStatus,
    anchorTxId: Option<string>,
    reference: string,
    ts: nat)

  datatype Account = Account(currency: string, balanceTry: string)

  datatype Mutation = Mutation(tx: Transaction, account: Account)

  datatype BankError = Amount(error: AmountError) | Insufficient | Overflowed | NoReservation | NotRefundable

  type Reply = Result<Mutation, BankError>

  datatype State = State(currency: string, balance: int, nextSeq: nat, transactions: seq<Transaction>)

  /** What an operation does: the entries after the update in place, and the entry it appends. */
  datatype Outcome = Outcome(balance: int, updated: seq<Transaction>, pushed: Option<Transaction>, reply: Reply)

  function Fresh(): State {
    State("TRY", INITIAL_BALANCE, 1, [])
  }

  ghost predicate InRange(balance: int) {
    0 <= balance <= I64_MAX
  }

  function AccountOf(currency: string, balance: int): Account
    requires 0 <= balance <= I64_MAX
  {
    Account(currency, FormatMinor(balance))
  }

  function NewTx(s: State, kind: TxKind, minor: int, status: TxStatus, anchor: Option<string>, reference: string,
      ts: nat): Transaction
    requires 0 < minor <= I64_MAX
  {
    Transaction("bank-" + ToDecimal(s.nextSeq), kind, FormatMinor(minor), s.currency, status, anchor, reference, ts)
  }

  // ---------- searching the log ----------

  /** The first entry with a reference, or the length. */
  function FirstWithReference(txs: seq<Transaction>, reference: string): (i: nat)
    ensures i <= |txs| && (i < |txs| ==> txs[i].reference == reference)
    ensures forall k :: 0 <= k < i ==> txs[k].reference != reference
  {
    if txs == [] || txs[0].reference == reference then 0 else 1 + FirstWithReference(txs[1..], reference)
  }

  /** The first reservation with a reference, or the length. */
  function FirstReservation(txs: seq<Transaction>, reference: string): (i: nat)
    ensures i <= |txs| && (i < |txs| ==> txs[i].reference == reference && txs[i].kind.DepositToAnchor?)
    ensures forall k :: 0 <= k < i ==> !(txs[k].reference == reference && txs[k].kind.DepositToAnchor?)
  {
    if txs == [] || (txs[0].reference == reference && txs[0].kind.DepositToAnchor?) then 0
    else 1 + FirstReservation(txs[1..], reference)
  }

  /** The first entry credited for an anchor transaction, or the length. */
  function FirstWithAnchor(txs: seq<Transaction>, anchor: string): (i: nat)
    ensures i <= |txs| && (i < |txs| ==> txs[i].anchorTxId == Some(anchor))
    ensures forall k :: 0 <= k < i ==> txs[k].anchorTxId != Some(anchor)
  {
    if txs == [] || txs[0].anchorTxId == Some(anchor) then 0 else 1 + FirstWithAnchor(txs[1..], anchor)
  }

  // ---------- the operations as functions ----------

  function Refused(s: State, error: BankError): Outcome {
    Outcome(s.balance, s.transactions, None, Err(error))
  }

  function Unchanged(s: State, tx: Transaction): Outcome
    requires 0 <= s.balance <= I64_MAX
  {
    Outcome(s.balance, s.transactions, None, Ok(Mutation(tx, AccountOf(s.currency, s.balance))))
  }

  function Appending(s: State, balance: int, updated: seq<Transaction>, tx: Transaction): Outcome
    requires 0 <= balance <= I64_MAX
  {
    Outcome(balance, updated, Some(tx), Ok(Mutation(tx, AccountOf(s.currency, balance))))
  }

  function DebitOf(s: State, amount: string, reference: string, ts: nat): Outcome
    requires 0 <= s.balance <= I64_MAX
  {
    match ParseMinor(amount)
    case Err(e) => Refused(s, Amount(e))
    case Ok(minor) =>
      if s.balance < minor then Refused(s, Insufficient) else
      Appending(s, s.balance - minor, s.transactions, NewTx(s, DepositToAnchor, minor, Pending, None, reference, ts))
  }

  function CreditOf(s: State, amount: string, reference: string, anchor: Option<string>, ts: nat): Outcome
    requires 0 <= s.balance <= I64_MAX
  {
    match ParseMinor(amount)
    case Err(e) => Refused(s, Amount(e))
    case Ok(minor) =>
      var i := if anchor.Some? then FirstWithAnchor(s.transactions, anchor.value) else |s.transactions|;
      if i < |s.transactions| then Unchanged(s, s.transactions[i])
      else if s.balance + minor > I64_MAX then Refused(s, Overflowed)
      else Appending(s, s.balance + minor, s.transactions,
                     NewTx(s, WithdrawalPayout, minor, Completed, anchor, reference, ts))
  }

  function SettleOf(s: State, reference: string): Outcome
    requires 0 <= s.balance <= I64_MAX
  {
    var i := FirstReservation(s.transactions, reference);
    if i == |s.transactions| then Refused(s, NoReservation) else
    var tx := s.transactions[i];
    var settled := if tx.status.Pending? then tx.(status := Completed) else tx;
    Outcome(s.balance, s.transactions[i := settled], None, Ok(Mutation(settled, AccountOf(s.currency, s.balance))))
  }

  function RefundReference(reference: string): string {
    "refund:" + reference
  }

  /** The status changes before the addition is checked, so an overflow keeps the change. */
  function RefundOf(s: State, reference: string, ts: nat): Outcome
    requires 0 <= s.balance <= I64_MAX
  {
    var e := FirstWithReference(s.transactions, RefundReference(reference));
    if e < |s.transactions| then Unchanged(s, s.transactions[e]) else
    var i := FirstReservation(s.transactions, reference);
    if i == |s.transactions| then Refused(s, NoReservation)
    else if !s.transactions[i].status.Pending? then Refused(s, NotRefundable) else
    match ParseMinor(s.transactions[i].amountTry)
    case Err(e) => Refused(s, Amount(e))
    case Ok(minor) =>
      var updated := s.transactions[i := s.transactions[i].(status := Refunded)];
      if s.balance + minor > I64_MAX then Outcome(s.balance, updated, None, Err(Overflowed))
      else Appending(s, s.balance + minor, updated,
                     NewTx(s, Topup, minor, Completed, None, RefundReference(reference), ts))
  }

  /** The log keeps its newest 500 entries. */
  function Pushed(txs: seq<Transaction>, tx: Transaction): seq<Transaction> {
    var grown := txs + [tx];
    if |grown| > MAX_ENTRIES then grown[|grown| - MAX_ENTRIES..] else grown
  }

  function Commit(s: State, o: Outcome): State {
    State(s.currency, o.balance, if o.pushed.Some? then s.nextSeq + 1 else s.nextSeq,
          if o.pushed.Some? then Pushed(o.updated, o.pushed.value) else o.updated)
  }

  // ---------- the store ----------

  class BankStore {
    var currency: string
    var balanceMinor: int
    var nextSeq: nat
    var transactions: seq<Transaction>

    ghost function Value(): State
      reads this
    {
      State(currency, balanceMinor, nextSeq, transactions)
    }

    ghost predicate Valid()
      reads this
    {
      InRange(balanceMinor)
    }

    constructor ()
      ensures Valid() && Value() == Fresh()
    {
      currency, balanceMinor, nextSeq, transactions := "TRY", INITIAL_BALANCE, 1, [];
    }

    method Push(tx: Transaction)
      modifies this`transactions
      ensures transactions == Pushed(old(transactions), tx)
    {
      transactions := transactions + [tx];
      if |transactions| > MAX_ENTRIES {
        var excess := |transactions| - MAX_ENTRIES;
        transactions := transactions[excess..];
      }
    }

    method Debit(amount: string, reference: string, ts: nat) returns (r: Reply)
      requires Valid()
      modifies this
      ensures Valid()
      ensures var o := DebitOf(old(Value()), amount, reference, ts); Value() == Commit(old(Value()), o) && r == o.reply
    {
      hide ParseMinor, FormatMinor, ToDecimal;
      var parsed := ParseMinor(amount);
      if parsed.Err? {
        return Err(Amount(parsed.error));
      }
      if balanceMinor < parsed.value {
        return Err(Insufficient);
      }
      balanceMinor := balanceMinor - parsed.value;
      var tx := Transaction("bank-" + ToDecimal(nextSeq), DepositToAnchor,
                            FormatMinor(parsed.value), currency, Pending, None, reference, ts);
      nextSeq := nextSeq + 1;
      Push(tx);
      return Ok(Mutation(tx, AccountOf(currency, balanceMinor)));
    }

    method Credit(amount: string, reference: string, anchor: Option<string>, ts: nat) returns (r: Reply)
      requires Valid()
      modifies this
      ensures Valid()
      ensures var o := CreditOf(old(Value()), amount, reference, anchor, ts);
              Value() == Commit(old(Value()), o) && r == o.reply
    {
      hide ParseMinor, FormatMinor, ToDecimal, FirstWithAnchor;
      var parsed := ParseMinor(amount);
      if parsed.Err? {
        return Err(Amount(parsed.error));
      }
      if anchor.Some? {
        var i := FirstWithAnchor(transactions, anchor.value);
        if i < |transactions| {
          return Ok(Mutation(transactions[i], AccountOf(currency, balanceMinor)));
        }
      }
      if balanceMinor + parsed.value > I64_MAX {
        return Err(Overflowed);
      }
      balanceMinor := balanceMinor + parsed.value;
      var tx := Transaction("bank-" + ToDecimal(nextSeq), WithdrawalPayout,
                            FormatMinor(parsed.value), currency, Completed, anchor, reference, ts);
      nextSeq := nextSeq + 1;
      Push(tx);
      return Ok(Mutation(tx, AccountOf(currency, balanceMinor)));
    }

    method Settle(reference: string) returns (r: Reply)
      requires Valid()
      modifies this`transactions
      ensures Valid()
      ensures var o := SettleOf(old(Value()), reference); Value() == Commit(old(Value()), o) && r == o.reply
    {
      hide FormatMinor, FirstReservation;
      var i := FirstReservation(transactions, reference);
      if i == |transactions| {
        return Err(NoReservation);
      }
      if transactions[i].status.Pending? {
        transactions := transactions[i := transactions[i].(status := Completed)];
      }
      return Ok(Mutation(transactions[i], AccountOf(currency, balanceMinor)));
    }

    method Refund(reference: string, ts: nat) returns (r: Reply)
      requires Valid()
      modifies this
      ensures Valid()
      ensures var o := RefundOf(old(Value()), reference, ts); Value() == Commit(old(Value()), o) && r == o.reply
    {
      hide ParseMinor, FormatMinor, ToDecimal, FirstReservation, FirstWithReference, RefundReference;
      var refundReference := RefundReference(reference);
      var existing := FirstWithReference(transactions, refundReference);
      if existing < |transactions| {
        return Ok(Mutation(transactions[existing], AccountOf(currency, balanceMinor)));
      }
      var i := FirstReservation(transactions, reference);
      if i == |transactions| {
        return Err(NoReservation);
      }
      if !transactions[i].status.Pending? {
        return Err(NotRefundable);
      }
      var parsed := ParseMinor(transactions[i].amountTry);
      if parsed.Err? {
        return Err(Amount(parsed.error));
      }
      transactions := transactions[i := transactions[i].(status := Refunded)];
      if balanceMinor + parsed.value > I64_MAX {
        return Err(Overflowed);
      }
      balanceMinor := balanceMinor + parsed.value;
      var tx := Transaction("bank-" + ToDecimal(nextSeq), Topup, FormatMinor(parsed.value),
                            currency, Completed, None, refundReference, ts);
      nextSeq := nextSeq + 1;
      Push(tx);
      return Ok(Mutation(tx, AccountOf(currency, balanceMinor)));
    }

    method Reset() returns (account: Account)
      modifies this
      ensures Valid() && Value() == Fresh() && account == AccountOf("TRY", INITIAL_BALANCE)
    {
      currency, balanceMinor, nextSeq, transactions := "TRY", INITIAL_BALANCE, 1, [];
      return AccountOf(currency, balanceMinor);
    }
  }
}
