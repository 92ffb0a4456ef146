/**
 * What every call of the demo bank answers and what it leaves behind: which refusal under which
 * condition, which entry and which account an accepted call names, and what the log then holds.
 */
module BankAnswers {
  import opened Basics
  import opened Decimal
  import opened Money
  import opened Bank
  import Runs = BankRuns

  /** `i` is the first entry of the log with this property. */
  ghost predicate First(txs: seq<Transaction>, i: int, p: Transaction -> bool) {
    0 <= i < |txs| && p(txs[i]) && forall k :: 0 <= k < i ==> !p(txs[k])
  }

  ghost predicate NoneIs(txs: seq<Transaction>, p: Transaction -> bool) {
    forall k :: 0 <= k < |txs| ==> !p(txs[k])
  }

  /** The log holds what it held and then `tx`, but at most 500 entries, the newest. */
  ghost predicate Logs(before: seq<Transaction>, tx: Transaction, after: seq<Transaction>) {
    && |after| == (if |before| + 1 <= 500 then |before| + 1 else 500)
    && after[|after| - 1] == tx
    && forall k :: 0 <= k < |after| - 1 && |before| + 1 - |after| + k < |before| ==>
                     after[k] == before[|before| + 1 - |after| + k]
  }

  /** An accepted call that writes an entry: the log ends in it, and the reply names it and the new balance. */
  ghost predicate Writes(s: State, o: Outcome, before: seq<Transaction>, balance: int, tx: Transaction) {
    && InRange(balance)
    && Commit(s, o) == State(s.currency, balance, s.nextSeq + 1, Commit(s, o).transactions)
    && Logs(before, tx, Commit(s, o).transactions)
    && o.reply == Ok(Mutation(tx, Account(s.currency, FormatMinor(balance))))
  }

  /** An accepted call that writes none: the reply names an entry of the log and the balance as it is. */
  ghost predicate Names(s: State, o: Outcome, tx: Transaction) {
    InRange(s.balance) && o.reply == Ok(Mutation(tx, Account(s.currency, FormatMinor(s.balance))))
  }

  function Written(s: State, kind: TxKind, minor: int, status: TxStatus, anchor: Option<string>, reference: string,
      ts: nat): Transaction
    requires 0 < minor <= I64_MAX
  {
    Transaction("bank-" + ToDecimal(s.nextSeq), kind, FormatMinor(minor), s.currency, status, anchor, reference, ts)
  }

  lemma PushedIsLogged(before: seq<Transaction>, tx: Transaction)
    ensures Logs(before, tx, Pushed(before, tx))
  {
  }

  // ---------- debit and credit ----------

  /** A debit is refused for its amount, or for what it would take below zero, and else reserves it. */
  lemma DebitAnswers(s: State, amount: string, reference: string, ts: nat)
    requires InRange(s.balance)
    ensures var o, m := DebitOf(s, amount, reference, ts), ParseMinor(amount);
            && (m.Err? ==> o.reply == Err(Amount(m.error)))
            && (m.Ok? && s.balance < m.value ==> o.reply == Err(Insufficient))
            && (o.reply.Err? ==> Commit(s, o) == s)
            && (m.Ok? && m.value <= s.balance ==>
                  Writes(s, o, s.transactions, s.balance - m.value,
                         Written(s, DepositToAnchor, m.value, Pending, None, reference, ts)))
  {
    hide ParseMinor, FormatMinor, ToDecimal, Pushed, Logs;
    if ParseMinor(amount).Ok? {
      var m := ParseMinor(amount).value;
      PushedIsLogged(s.transactions, Written(s, DepositToAnchor, m, Pending, None, reference, ts));
    }
  }

  /**
   * A credit for a known anchor transaction names the entry it was first credited with; any other is
   * refused for its amount or because the balance would not fit, and else paid.
   */
  lemma CreditAnswers(s: State, amount: string, reference: string, anchor: Option<string>, ts: nat)
    requires InRange(s.balance)
    ensures var o, m := CreditOf(s, amount, reference, anchor, ts), ParseMinor(amount);
            var known := (tx: Transaction) => anchor.Some? && tx.anchorTxId == anchor;
            && (m.Err? ==> o.reply == Err(Amount(m.error)))
            && (m.Ok? ==> forall i :: First(s.transactions, i, known) ==>
                                        Names(s, o, s.transactions[i]) && Commit(s, o) == s)
            && (m.Ok? && NoneIs(s.transactions, known) && s.balance + m.value > 0x7FFF_FFFF_FFFF_FFFF ==>
                  o.reply == Err(Overflowed))
            && (o.reply.Err? ==> Commit(s, o) == s)
            && (m.Ok? && NoneIs(s.transactions, known) && s.balance + m.value <= 0x7FFF_FFFF_FFFF_FFFF ==>
                  Writes(s, o, s.transactions, s.balance + m.value,
                         Written(s, WithdrawalPayout, m.value, Completed, anchor, reference, ts)))
  {
    hide ParseMinor, FormatMinor, ToDecimal, Pushed, Logs;
    if ParseMinor(amount).Ok? {
      var m := ParseMinor(amount).value;
      PushedIsLogged(s.transactions, Written(s, WithdrawalPayout, m, Completed, anchor, reference, ts));
    }
    if anchor.Some? {
      FirstWithAnchorIs(s.transactions, anchor);
    }
    hide FirstWithAnchor;
  }

  lemma FirstWithAnchorIs(txs: seq<Transaction>, anchor: Option<string>)
    requires anchor.Some?
    ensures var known := (tx: Transaction) => anchor.Some? && tx.anchorTxId == anchor;
            var f := FirstWithAnchor(txs, anchor.value);
            && (forall i :: First(txs, i, known) <==> i == f && f < |txs|)
            && (NoneIs(txs, known) <==> f == |txs|)
  {
    hide FirstWithAnchor;
  }

  // ---------- settle and refund ----------

  /** Settling names the oldest reservation under the reference, completed if it was pending, or is refused. */
  lemma SettleAnswers(s: State, reference: string)
    requires InRange(s.balance)
    ensures var o := SettleOf(s, reference);
            var reserves := (tx: Transaction) => tx.kind.DepositToAnchor? && tx.reference == reference;
            && (NoneIs(s.transactions, reserves) <==> o.reply == Err(NoReservation))
            && (o.reply.Err? ==> o.reply == Err(NoReservation) && Commit(s, o) == s)
            && (forall i :: First(s.transactions, i, reserves) ==>
                              var tx := s.transactions[i];
                              var done := if tx.status.Pending? then tx.(status := Completed) else tx;
                              Names(s, o, done) && Commit(s, o) == s.(transactions := s.transactions[i := done]))
  {
    hide FormatMinor;
    FirstReservationIs(s.transactions, reference);
    hide FirstReservation;
  }

  lemma FirstReservationIs(txs: seq<Transaction>, reference: string)
    ensures var reserves := (tx: Transaction) => tx.kind.DepositToAnchor? && tx.reference == reference;
            var f := FirstReservation(txs, reference);
            && (forall i :: First(txs, i, reserves) <==> i == f && f < |txs|)
            && (NoneIs(txs, reserves) <==> f == |txs|)
  {
    hide FirstReservation;
  }

  lemma FirstWithReferenceIs(txs: seq<Transaction>, reference: string)
    ensures var returns_ := (tx: Transaction) => tx.reference == reference;
            var f := FirstWithReference(txs, reference);
            && (forall i :: First(txs, i, returns_) <==> i == f && f < |txs|)
            && (NoneIs(txs, returns_) <==> f == |txs|)
  {
    hide FirstWithReference;
  }

  /**
   * A refund that was made before is named again. Otherwise the oldest reservation under the
   * reference is marked refunded and paid back if it is pending, refused if it is not or if there is
   * none; when the balance would not fit the call is refused with the mark left behind.
   */
  lemma RefundAnswers(s: State, reference: string, ts: nat)
    requires InRange(s.balance)
    ensures var o := RefundOf(s, reference, ts);
            var returns_ := (tx: Transaction) => tx.reference == "refund:" + reference;
            forall i :: First(s.transactions, i, returns_) ==> Names(s, o, s.transactions[i]) && Commit(s, o) == s
    ensures var o := RefundOf(s, reference, ts);
            var returns_ := (tx: Transaction) => tx.reference == "refund:" + reference;
            var reserves := (tx: Transaction) => tx.kind.DepositToAnchor? && tx.reference == reference;
            NoneIs(s.transactions, returns_) ==>
              && (NoneIs(s.transactions, reserves) ==> o.reply == Err(NoReservation) && Commit(s, o) == s)
              && forall i :: First(s.transactions, i, reserves) ==> RefundsEntry(s, o, i, reference, ts)
  {
    hide ParseMinor, FormatMinor, ToDecimal, RefundsEntry;
    FirstReservationIs(s.transactions, reference);
    FirstWithReferenceIs(s.transactions, "refund:" + reference);
    var f := FirstReservation(s.transactions, reference);
    if f < |s.transactions| && FirstWithReference(s.transactions, "refund:" + reference) == |s.transactions| {
      RefundOfEntry(s, reference, ts);
    }
    hide FirstReservation, FirstWithReference;
  }

  /** What a refund of entry `i` answers and leaves. */
  ghost predicate RefundsEntry(s: State, o: Outcome, i: int, reference: string, ts: nat)
    requires 0 <= i < |s.transactions|
  {
    var tx := s.transactions[i];
    var m := ParseMinor(tx.amountTry);
    var marked := s.transactions[i := tx.(status := Refunded)];
    && (!tx.status.Pending? ==> o.reply == Err(NotRefundable) && Commit(s, o) == s)
    && (tx.status.Pending? && m.Err? ==> o.reply == Err(Amount(m.error)) && Commit(s, o) == s)
    && (tx.status.Pending? && m.Ok? && s.balance + m.value > 0x7FFF_FFFF_FFFF_FFFF ==>
          o.reply == Err(Overflowed) && Commit(s, o) == s.(transactions := marked))
    && (tx.status.Pending? && m.Ok? && s.balance + m.value <= 0x7FFF_FFFF_FFFF_FFFF ==>
          Writes(s, o, marked, s.balance + m.value,
                 Written(s, Topup, m.value, Completed, None, "refund:" + reference, ts)))
  }

  lemma RefundOfEntry(s: State, reference: string, ts: nat)
    requires InRange(s.balance) && FirstReservation(s.transactions, reference) < |s.transactions|
    requires FirstWithReference(s.transactions, "refund:" + reference) == |s.transactions|
    ensures RefundsEntry(s, RefundOf(s, reference, ts), FirstReservation(s.transactions, reference), reference, ts)
  {
    hide ParseMinor, FormatMinor, ToDecimal, Pushed, Logs, FirstReservation, FirstWithReference;
    var i := FirstReservation(s.transactions, reference);
    var tx := s.transactions[i];
    var m := ParseMinor(tx.amountTry);
    if m.Ok? {
      PushedIsLogged(s.transactions[i := tx.(status := Refunded)],
                     Written(s, Topup, m.value, Completed, None, "refund:" + reference, ts));
    }
  }

  // ---------- over runs ----------

  /** A run begins with an empty log and 10,000,000 hundredths of a lira. */
  lemma BeginsWith()
    ensures Runs.Begin().bank == State("TRY", 10_000_000, 1, [])
  {
  }

  /** Over every run the log is the newest 500 entries, the next number follows them, and the currency stands. */
  lemma {:induction false} RunKeepsBooks(ops: seq<Runs.Op>)
    ensures var l := Runs.Run(ops);
            && l.bank.currency == "TRY" && l.bank.nextSeq == |l.full| + 1
            && l.bank.transactions == (if |l.full| <= 500 then l.full else l.full[|l.full| - 500..])
    decreases |ops|
  {
    hide Runs.Inv, Runs.Next;
    var l := Runs.Run(ops);
    Runs.InvTail(l);
    if ops == [] {
      assert l == Runs.Begin();
    } else {
      var front := ops[..|ops| - 1];
      RunKeepsBooks(front);
      CurrencyStands(Runs.Run(front), ops[|ops| - 1]);
    }
  }

  lemma CurrencyStands(l: Runs.Ledger, op: Runs.Op)
    requires InRange(l.bank.balance) && |l.bank.transactions| <= |l.full|
    ensures Runs.Next(l, op).bank.currency == l.bank.currency
  {
    hide Runs.OutcomeOf, Runs.Overflows, Runs.PaysBack, Pushed;
  }

  /** In every run an accepted call's reply shows the account as it is after the call. */
  lemma ReplyShowsTheAccount(ops: seq<Runs.Op>, op: Runs.Op)
    ensures var s, n := Runs.Run(ops).bank, Runs.Next(Runs.Run(ops), op).bank;
            var reply := Runs.OutcomeOf(s, op).reply;
            InRange(n.balance) && (reply.Ok? ==> reply.value.account == Account("TRY", FormatMinor(n.balance)))
  {
    hide Runs.Run, FormatMinor, ParseMinor, ToDecimal, Runs.Inv, FirstReservation, FirstWithReference,
        FirstWithAnchor, RefundReference;
    RunKeepsBooks(ops);
    NextInRange(Runs.Run(ops), op);
    Runs.NextBalance(Runs.Run(ops), op);
    hide Runs.Next;
  }

  lemma NextInRange(l: Runs.Ledger, op: Runs.Op)
    requires Runs.Inv(l) && InRange(l.bank.balance) && |l.bank.transactions| <= |l.full|
    ensures InRange(Runs.Next(l, op).bank.balance)
  {
    hide Runs.Inv, Runs.Next;
    Runs.StepKeepsInv(l, op);
    Runs.InvFits(Runs.Next(l, op));
  }
}
