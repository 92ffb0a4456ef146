/**
 * The demo bank over whole runs. A ledger pairs the store with the full log, including the entries
 * the store has dropped, and with which top-up returned which deposit.
 */
module BankRuns {
  import opened Basics
  import opened Decimal
  import opened Money
  import opened Bank

  datatype Op =
    | Debit(amount: string, reference: string, ts: nat)
    | Credit(amount: string, reference: string, anchor: Option<string>, ts: nat)
    | Settle(reference: string)
    | Refund(reference: string, ts: nat)

  /**
   * `full` is every entry since the reset, `returned` maps a refunded deposit to its top-up, and
   * `lost` sums the deposits marked refunded whose money did not fit back into the balance.
   */
  datatype Ledger = Ledger(bank: State, full: seq<Transaction>, returned: map<nat, nat>, orphans: set<nat>, lost: int)

  function Begin(): Ledger {
    Ledger(Fresh(), [], map[], {}, 0)
  }

  function OutcomeOf(s: State, op: Op): Outcome
    requires InRange(s.balance)
  {
    match op
    case Debit(amount, reference, ts) => DebitOf(s, amount, reference, ts)
    case Credit(amount, reference, anchor, ts) => CreditOf(s, amount, reference, anchor, ts)
    case Settle(reference) => SettleOf(s, reference)
    case Refund(reference, ts) => RefundOf(s, reference, ts)
  }

  function Dropped(l: Ledger): int {
    |l.full| - |l.bank.transactions|
  }

  /** The refund marks its deposit and pays it back. */
  predicate PaysBack(s: State, op: Op)
    requires InRange(s.balance)
  {
    op.Refund? && OutcomeOf(s, op).pushed.Some?
  }

  /** The reservation a refund would return: pending, found first under its reference, not refunded yet. */
  predicate Refundable(s: State, reference: string) {
    && FirstWithReference(s.transactions, RefundReference(reference)) == |s.transactions|
    && var i := FirstReservation(s.transactions, reference);
       i < |s.transactions| && s.transactions[i].status.Pending? && ParseMinor(s.transactions[i].amountTry).Ok?
  }

  /** A caller can tell beforehand: the deposit to return does not fit into the balance. */
  predicate Overflows(s: State, op: Op) {
    && op.Refund? && Refundable(s, op.reference)
    && s.balance + ParseMinor(s.transactions[FirstReservation(s.transactions, op.reference)].amountTry).value > I64_MAX
  }

  function Next(l: Ledger, op: Op): Ledger
    requires InRange(l.bank.balance) && |l.bank.transactions| <= |l.full|
  {
    var o := OutcomeOf(l.bank, op);
    var at := Dropped(l) + if op.Refund? then FirstReservation(l.bank.transactions, op.reference) else 0;
    Ledger(
      Commit(l.bank, o),
      l.full[..Dropped(l)] + o.updated + (if o.pushed.Some? then [o.pushed.value] else []),
      if PaysBack(l.bank, op) then l.returned[at := |l.full|] else l.returned,
      if Overflows(l.bank, op) then l.orphans + {at} else l.orphans,
      if Overflows(l.bank, op) then l.lost + MinorOf(l.full[at]) else l.lost)
  }

  // ---------- sums ----------

  function MinorOf(tx: Transaction): int {
    match ParseMinor(tx.amountTry) case Ok(m) => m case Err(_) => 0
  }

  /** What an entry did to the balance when it was written. */
  function Effect(tx: Transaction): int {
    if tx.kind.DepositToAnchor? then -MinorOf(tx) else MinorOf(tx)
  }

  /** What an entry should weigh: a deposit that was not refunded, and a payout. */
  function Weight(tx: Transaction): int {
    if tx.kind.DepositToAnchor? then (if tx.status.Refunded? then 0 else -MinorOf(tx))
    else if tx.kind.WithdrawalPayout? then MinorOf(tx) else 0
  }

  function Sum(txs: seq<Transaction>, f: Transaction -> int): int {
    if txs == [] then 0 else Sum(txs[..|txs| - 1], f) + f(txs[|txs| - 1])
  }

  lemma SumSnoc(txs: seq<Transaction>, tx: Transaction, f: Transaction -> int)
    ensures Sum(txs + [tx], f) == Sum(txs, f) + f(tx)
  {
    assert (txs + [tx])[..|txs|] == txs;
  }

  lemma {:induction false} SumUpdate(txs: seq<Transaction>, i: nat, tx: Transaction, f: Transaction -> int)
    requires i < |txs|
    ensures Sum(txs[i := tx], f) == Sum(txs, f) - f(txs[i]) + f(tx)
    decreases |txs|
  {
    var front := txs[..|txs| - 1];
    if i == |txs| - 1 {
      assert txs[i := tx][..i] == front;
    } else {
      SumUpdate(front, i, tx, f);
      assert txs[i := tx][..|txs| - 1] == front[i := tx];
    }
  }

  // ---------- one operation on the full log ----------

  /** One operation changes the status of one entry at most, then appends one entry at most. */
  datatype Change = Change(at: Option<nat>, status: TxStatus, pushed: Option<Transaction>)

  function ChangeOf(l: Ledger, op: Op): Change
    requires InRange(l.bank.balance) && |l.bank.transactions| <= |l.full|
  {
    var o := OutcomeOf(l.bank, op);
    match op
    case Debit(_, _, _) => Change(None, Pending, o.pushed)
    case Credit(_, _, _, _) => Change(None, Pending, o.pushed)
    case Settle(reference) =>
      var i := FirstReservation(l.bank.transactions, reference);
      if i < |l.bank.transactions| && l.bank.transactions[i].status.Pending? then
        Change(Some(Dropped(l) + i), Completed, None)
      else Change(None, Completed, None)
    case Refund(reference, _) =>
      if Refundable(l.bank, reference) then
        Change(Some(Dropped(l) + FirstReservation(l.bank.transactions, reference)), Refunded, o.pushed)
      else Change(None, Refunded, None)
  }

  function Marked(full: seq<Transaction>, c: Change): seq<Transaction> {
    if c.at.Some? && c.at.value < |full| then full[c.at.value := full[c.at.value].(status := c.status)] else full
  }

  function Grown(full: seq<Transaction>, c: Change): seq<Transaction> {
    Marked(full, c) + if c.pushed.Some? then [c.pushed.value] else []
  }

  /** The store holds the newest entries of the full log, as many as it may. */
  ghost predicate Tail(l: Ledger) {
    && |l.bank.transactions| == (if |l.full| < MAX_ENTRIES then |l.full| else MAX_ENTRIES)
    && l.bank.transactions == l.full[Dropped(l)..]
    && l.bank.nextSeq == |l.full| + 1
  }

  ghost predicate Agrees(l: Ledger, o: Outcome, c: Change)
    requires Tail(l)
  {
    && |o.updated| == |l.bank.transactions|
    && l.full[..Dropped(l)] + o.updated == Marked(l.full, c)
    && o.pushed == c.pushed
  }

  lemma UpdateInTail(l: Ledger, i: nat, status: TxStatus)
    requires Tail(l) && i < |l.bank.transactions|
    ensures l.bank.transactions[i] == l.full[Dropped(l) + i]
    ensures l.full[..Dropped(l)] + l.bank.transactions[i := l.bank.transactions[i].(status := status)] ==
            Marked(l.full, Change(Some(Dropped(l) + i), status, None))
  {
  }

  lemma NothingMarked(l: Ledger)
    requires Tail(l)
    ensures l.full[..Dropped(l)] + l.bank.transactions == l.full
  {
  }

  lemma SettleIsChange(l: Ledger, reference: string)
    requires InRange(l.bank.balance) && Tail(l)
    ensures Agrees(l, SettleOf(l.bank, reference), ChangeOf(l, Settle(reference)))
  {
    hide ParseMinor, FormatMinor, ToDecimal, FirstReservation, Tail;
    NothingMarked(l);
    var txs := l.bank.transactions;
    var i := FirstReservation(txs, reference);
    if i < |txs| {
      UpdateInTail(l, i, Completed);
      assert txs[i := txs[i]] == txs;
    }
  }

  lemma RefundIsChange(l: Ledger, reference: string, ts: nat)
    requires InRange(l.bank.balance) && Tail(l)
    ensures Agrees(l, RefundOf(l.bank, reference, ts), ChangeOf(l, Refund(reference, ts)))
  {
    hide ParseMinor, FormatMinor, ToDecimal, FirstReservation, FirstWithReference, RefundReference, Tail;
    NothingMarked(l);
    var i := FirstReservation(l.bank.transactions, reference);
    if i < |l.bank.transactions| {
      UpdateInTail(l, i, Refunded);
    }
  }

  lemma OutcomeIsChange(l: Ledger, op: Op)
    requires InRange(l.bank.balance) && Tail(l)
    ensures Agrees(l, OutcomeOf(l.bank, op), ChangeOf(l, op))
  {
    match op
    case Debit(_, _, _) =>
      hide ParseMinor, FormatMinor, ToDecimal, Tail;
      NothingMarked(l);
    case Credit(_, _, _, _) =>
      hide ParseMinor, FormatMinor, ToDecimal, Tail;
      NothingMarked(l);
    case Settle(reference) => SettleIsChange(l, reference);
    case Refund(reference, ts) => RefundIsChange(l, reference, ts);
  }

  /** Pushing keeps the newest entries of the whole log. */
  lemma PushedIsTail(before: seq<Transaction>, updated: seq<Transaction>, tx: Transaction)
    requires |updated| == (if |before + updated| < MAX_ENTRIES then |before + updated| else MAX_ENTRIES)
    ensures var whole, kept := before + updated + [tx], Pushed(updated, tx);
            |kept| == (if |whole| < MAX_ENTRIES then |whole| else MAX_ENTRIES) && kept == whole[|whole| - |kept|..]
  {
    var grown := updated + [tx];
    assert before + updated + [tx] == before + grown;
    if |grown| > MAX_ENTRIES {
      assert (before + grown)[|before| + 1..] == grown[1..];
    }
  }

  lemma NextGrows(l: Ledger, op: Op)
    requires InRange(l.bank.balance) && Tail(l)
    ensures Next(l, op).full == Grown(l.full, ChangeOf(l, op))
    ensures Tail(Next(l, op))
  {
    hide OutcomeOf, ChangeOf, Marked, Pushed;
    var o, c := OutcomeOf(l.bank, op), ChangeOf(l, op);
    OutcomeIsChange(l, op);
    var before := l.full[..Dropped(l)];
    if o.pushed.Some? {
      PushedIsTail(before, o.updated, o.pushed.value);
    } else {
      assert (before + o.updated)[|before|..] == o.updated;
    }
  }

  // ---------- what every run keeps ----------

  ghost predicate GoodEntry(tx: Transaction) {
    && ParseMinor(tx.amountTry).Ok?
    && (if tx.kind.DepositToAnchor? then !tx.status.Failed? else tx.status.Completed?)
  }

  ghost predicate GoodEntries(full: seq<Transaction>) {
    forall i :: 0 <= i < |full| ==> GoodEntry(full[i])
  }

  /** The top-up at `j` returns the deposit at `i`. */
  ghost predicate Returns(full: seq<Transaction>, i: int, j: int): (returns_: bool)
    ensures returns_ ==> 0 <= i < j < |full| && full[i].status.Refunded? && full[j].kind.Topup?
  {
    && 0 <= i < j < |full|
    && full[i].kind.DepositToAnchor? && full[i].status.Refunded?
    && full[j].kind.Topup? && full[j].reference == RefundReference(full[i].reference)
    && MinorOf(full[j]) == MinorOf(full[i])
  }

  /** Refunded deposits and top-ups pair up one to one, save the orphans. */
  ghost predicate Paired(full: seq<Transaction>, returned: map<nat, nat>, orphans: set<nat>) {
    && (forall i :: i in returned ==> Returns(full, i, returned[i]))
    && (forall i, k :: i in returned && k in returned && i != k ==> returned[i] != returned[k])
    && (forall i :: 0 <= i < |full| && full[i].status.Refunded? ==> i in returned || i in orphans)
    && (forall i ::
          i in orphans ==> i < |full| && full[i].kind.DepositToAnchor? && full[i].status.Refunded? && i !in returned)
    && (forall j :: 0 <= j < |full| && full[j].kind.Topup? ==> exists i :: i in returned && returned[i] == j)
  }

  /** Two credits of one anchor transaction are further apart than the log is long. */
  ghost predicate FarApart(full: seq<Transaction>) {
    forall i, j :: 0 <= i < j < |full| && full[i].anchorTxId.Some? && full[i].anchorTxId == full[j].anchorTxId ==>
                     j - i > MAX_ENTRIES
  }

  ghost predicate Numbered(full: seq<Transaction>) {
    forall i :: 0 <= i < |full| ==> full[i].id == "bank-" + ToDecimal(i + 1)
  }

  ghost predicate Balanced(l: Ledger) {
    && InRange(l.bank.balance)
    && l.bank.balance == INITIAL_BALANCE + Sum(l.full, Effect)
    && l.bank.balance + l.lost == INITIAL_BALANCE + Sum(l.full, Weight)
  }

  ghost predicate Inv(l: Ledger) {
    && Tail(l)
    && GoodEntries(l.full)
    && Balanced(l)
    && Paired(l.full, l.returned, l.orphans)
    && FarApart(l.full)
    && Numbered(l.full)
  }

  /** What an operation may append, and by how much it moves the balance. */
  ghost predicate GoodPush(l: Ledger, op: Op, tx: Transaction) {
    && GoodEntry(tx) && tx.id == "bank-" + ToDecimal(|l.full| + 1) && !tx.status.Refunded?
    && (tx.anchorTxId.Some? ==>
          forall i :: 0 <= i < |l.bank.transactions| ==> l.bank.transactions[i].anchorTxId != tx.anchorTxId)
    && (tx.kind.Topup? <==> op.Refund?)
  }

  lemma NewTxIsGood(s: State, kind: TxKind, minor: int, status: TxStatus, anchor: Option<string>,
      reference: string, ts: nat)
    requires 0 < minor <= I64_MAX && (if kind.DepositToAnchor? then status.Pending? else status.Completed?)
    ensures var tx := NewTx(s, kind, minor, status, anchor, reference, ts);
            GoodEntry(tx) && Effect(tx) == if kind.DepositToAnchor? then -minor else minor
  {
    ParseOfFormat(minor);
    hide ParseMinor, FormatMinor, ToDecimal;
  }

  lemma RefundPushIsGood(l: Ledger, reference: string, ts: nat)
    requires Tail(l) && InRange(l.bank.balance) && RefundOf(l.bank, reference, ts).pushed.Some?
    ensures var o := RefundOf(l.bank, reference, ts);
            GoodPush(l, Refund(reference, ts), o.pushed.value) && InRange(o.balance)
            && o.balance == l.bank.balance + Effect(o.pushed.value)
  {
    hide RefundOf, FormatMinor, ToDecimal, RefundReference, GoodEntry, Effect;
    var minor := RefundAppends(l.bank, reference, ts);
    NewTxIsGood(l.bank, Topup, minor, Completed, None, RefundReference(reference), ts);
  }

  lemma RefundAppends(s: State, reference: string, ts: nat) returns (minor: nat)
    requires InRange(s.balance) && RefundOf(s, reference, ts).pushed.Some?
    ensures 0 < minor && s.balance + minor <= I64_MAX && RefundOf(s, reference, ts).balance == s.balance + minor
    ensures RefundOf(s, reference, ts).pushed.value ==
              NewTx(s, Topup, minor, Completed, None, RefundReference(reference), ts)
  {
    hide ParseMinor, FirstReservation, FirstWithReference, RefundReference, NewTx;
    minor := ParseMinor(s.transactions[FirstReservation(s.transactions, reference)].amountTry).value;
  }

  lemma CreditPushIsGood(l: Ledger, amount: string, reference: string, anchor: Option<string>, ts: nat)
    requires Tail(l) && InRange(l.bank.balance) && CreditOf(l.bank, amount, reference, anchor, ts).pushed.Some?
    ensures var o := CreditOf(l.bank, amount, reference, anchor, ts);
            GoodPush(l, Credit(amount, reference, anchor, ts), o.pushed.value) && InRange(o.balance)
            && o.balance == l.bank.balance + Effect(o.pushed.value)
  {
    hide CreditOf, FormatMinor, ToDecimal, GoodEntry, Effect;
    var minor := CreditPushes(l.bank, amount, reference, anchor, ts);
    NewTxIsGood(l.bank, WithdrawalPayout, minor, Completed, anchor, reference, ts);
  }

  lemma CreditPushes(s: State, amount: string, reference: string, anchor: Option<string>, ts: nat) returns (minor: nat)
    requires InRange(s.balance) && CreditOf(s, amount, reference, anchor, ts).pushed.Some?
    ensures 0 < minor && s.balance + minor <= I64_MAX
    ensures var o := CreditOf(s, amount, reference, anchor, ts);
            && o.balance == s.balance + minor
            && o.pushed.value == NewTx(s, WithdrawalPayout, minor, Completed, anchor, reference, ts)
    ensures anchor.Some? ==> forall i :: 0 <= i < |s.transactions| ==> s.transactions[i].anchorTxId != anchor
  {
    hide ParseMinor, NewTx;
    minor := ParseMinor(amount).value;
  }

  lemma DebitPushIsGood(l: Ledger, amount: string, reference: string, ts: nat)
    requires Tail(l) && InRange(l.bank.balance) && DebitOf(l.bank, amount, reference, ts).pushed.Some?
    ensures var o := DebitOf(l.bank, amount, reference, ts);
            GoodPush(l, Debit(amount, reference, ts), o.pushed.value) && InRange(o.balance)
            && o.balance == l.bank.balance + Effect(o.pushed.value)
  {
    hide DebitOf, FormatMinor, ToDecimal, GoodEntry, Effect;
    var minor := DebitPushes(l.bank, amount, reference, ts);
    NewTxIsGood(l.bank, DepositToAnchor, minor, Pending, None, reference, ts);
  }

  lemma DebitPushes(s: State, amount: string, reference: string, ts: nat) returns (minor: nat)
    requires InRange(s.balance) && DebitOf(s, amount, reference, ts).pushed.Some?
    ensures 0 < minor <= s.balance && DebitOf(s, amount, reference, ts).balance == s.balance - minor
    ensures DebitOf(s, amount, reference, ts).pushed.value ==
              NewTx(s, DepositToAnchor, minor, Pending, None, reference, ts)
  {
    hide ParseMinor, NewTx;
    minor := ParseMinor(amount).value;
  }

  lemma PushIsGood(l: Ledger, op: Op)
    requires Tail(l) && InRange(l.bank.balance) && OutcomeOf(l.bank, op).pushed.Some?
    ensures GoodPush(l, op, OutcomeOf(l.bank, op).pushed.value)
    ensures OutcomeOf(l.bank, op).balance == l.bank.balance + Effect(OutcomeOf(l.bank, op).pushed.value)
    ensures InRange(OutcomeOf(l.bank, op).balance)
  {
    hide DebitOf, CreditOf, RefundOf, GoodPush, Effect;
    match op
    case Debit(amount, reference, ts) => DebitPushIsGood(l, amount, reference, ts);
    case Credit(amount, reference, anchor, ts) => CreditPushIsGood(l, amount, reference, anchor, ts);
    case Refund(reference, ts) => RefundPushIsGood(l, reference, ts);
    case Settle(_) =>
  }

  /** Without an appended entry the balance stands. */
  lemma NoPushKeepsBalance(s: State, op: Op)
    requires InRange(s.balance) && OutcomeOf(s, op).pushed.None?
    ensures OutcomeOf(s, op).balance == s.balance
  {
    hide ParseMinor, FormatMinor, ToDecimal, FirstReservation, FirstWithReference, RefundReference, FirstWithAnchor;
  }

  /** What is marked is a pending deposit; a refund that marks one either pays it back or overflows. */
  lemma MarkIsGood(l: Ledger, op: Op)
    requires Tail(l) && InRange(l.bank.balance)
    ensures var c := ChangeOf(l, op);
            c.at.Some? ==>
              && c.at.value < |l.full|
              && l.full[c.at.value].kind.DepositToAnchor? && l.full[c.at.value].status.Pending?
              && c.status == (if op.Refund? then Refunded else Completed)
    ensures var c := ChangeOf(l, op);
            op.Refund? ==>
              && (c.pushed.Some? ==> c.at.Some?)
              && (Overflows(l.bank, op) <==> c.at.Some? && c.pushed.None?)
              && (c.at.Some? ==> c.at.value == Dropped(l) + FirstReservation(l.bank.transactions, op.reference))
    ensures var c := ChangeOf(l, op);
            op.Refund? && c.pushed.Some? ==>
              && MinorOf(c.pushed.value) == MinorOf(l.full[c.at.value])
              && c.pushed.value.reference == RefundReference(l.full[c.at.value].reference)
  {
    hide ParseMinor, FormatMinor, ToDecimal, FirstReservation, FirstWithReference, RefundReference, FirstWithAnchor;
    if op.Refund? && PaysBack(l.bank, op) {
      var i := FirstReservation(l.bank.transactions, op.reference);
      ParseOfFormat(ParseMinor(l.bank.transactions[i].amountTry).value);
    }
  }

  // ---------- the shape of one step ----------

  /** What is marked, in terms of the full log. */
  ghost predicate GoodMark(full: seq<Transaction>, c: Change, refund: bool) {
    && (c.at.Some? ==>
          && c.at.value < |full|
          && full[c.at.value].kind.DepositToAnchor? && full[c.at.value].status.Pending?
          && c.status == (if refund then Refunded else Completed))
    && (refund && c.pushed.Some? ==>
          && c.at.Some?
          && MinorOf(c.pushed.value) == MinorOf(full[c.at.value])
          && c.pushed.value.reference == RefundReference(full[c.at.value].reference))
  }

  /** What is appended, in terms of the full log; an anchor transaction is not in the last entries. */
  ghost predicate GoodAppend(full: seq<Transaction>, tx: Transaction, refund: bool) {
    && GoodEntry(tx) && tx.id == "bank-" + ToDecimal(|full| + 1) && !tx.status.Refunded?
    && (tx.anchorTxId.Some? ==>
          forall i :: 0 <= i < |full| && |full| - i <= MAX_ENTRIES ==> full[i].anchorTxId != tx.anchorTxId)
    && (tx.kind.Topup? <==> refund)
  }

  ghost predicate Steps(l: Ledger, n: Ledger, c: Change, refund: bool) {
    && n.full == Grown(l.full, c)
    && GoodMark(l.full, c, refund)
    && (c.pushed.Some? ==> GoodAppend(l.full, c.pushed.value, refund))
    && InRange(n.bank.balance)
    && n.bank.balance == l.bank.balance + (if c.pushed.Some? then Effect(c.pushed.value) else 0)
    && (if refund && c.pushed.Some? then n.returned == l.returned[c.at.value := |l.full|] else n.returned == l.returned)
    && (if refund && c.at.Some? && c.pushed.None?
        then n.orphans == l.orphans + {c.at.value} && n.lost == l.lost + MinorOf(l.full[c.at.value])
        else n.orphans == l.orphans && n.lost == l.lost)
  }

  lemma AppendIsGood(l: Ledger, op: Op, tx: Transaction)
    requires Tail(l) && GoodPush(l, op, tx)
    ensures GoodAppend(l.full, tx, op.Refund?)
  {
    hide GoodEntry, ToDecimal;
    if tx.anchorTxId.Some? {
      forall i | 0 <= i < |l.full| && |l.full| - i <= MAX_ENTRIES ensures l.full[i].anchorTxId != tx.anchorTxId {
        assert l.full[i] == l.bank.transactions[i - Dropped(l)];
      }
    }
  }

  lemma NextMarks(l: Ledger, op: Op)
    requires Tail(l) && InRange(l.bank.balance)
    ensures GoodMark(l.full, ChangeOf(l, op), op.Refund?)
    ensures ChangeOf(l, op).pushed.Some? ==> GoodAppend(l.full, ChangeOf(l, op).pushed.value, op.Refund?)
  {
    hide Tail, OutcomeOf, ChangeOf, RefundReference, MinorOf, GoodAppend, GoodPush, Marked, Overflows, FirstReservation;
    TailFits(l);
    OutcomeIsChange(l, op);
    MarkIsGood(l, op);
    if ChangeOf(l, op).pushed.Some? {
      PushIsGood(l, op);
      AppendIsGood(l, op, ChangeOf(l, op).pushed.value);
    }
  }

  /** The books of a step, read off what it marks and appends. */
  lemma NextBooks(l: Ledger, op: Op, c: Change)
    requires |l.bank.transactions| <= |l.full| && InRange(l.bank.balance)
    requires c.pushed == OutcomeOf(l.bank, op).pushed && (c.at.Some? ==> c.at.value < |l.full|)
    requires op.Refund? ==>
               && (c.pushed.Some? ==> c.at.Some?)
               && (Overflows(l.bank, op) <==> c.at.Some? && c.pushed.None?)
               && (c.at.Some? ==> c.at.value == Dropped(l) + FirstReservation(l.bank.transactions, op.reference))
    ensures var n := Next(l, op);
            && n.bank.balance == OutcomeOf(l.bank, op).balance
            && (if op.Refund? && c.pushed.Some? then n.returned == l.returned[c.at.value := |l.full|]
                else n.returned == l.returned)
            && (if op.Refund? && c.at.Some? && c.pushed.None?
                then n.orphans == l.orphans + {c.at.value} && n.lost == l.lost + MinorOf(l.full[c.at.value])
                else n.orphans == l.orphans && n.lost == l.lost)
  {
    hide OutcomeOf, Overflows, MinorOf, FirstReservation, Pushed;
    if !op.Refund? {
      NoRefundNoLoss(l.bank, op);
    }
  }

  lemma NextSteps(l: Ledger, op: Op)
    requires Tail(l) && InRange(l.bank.balance)
    ensures Steps(l, Next(l, op), ChangeOf(l, op), op.Refund?)
  {
    hide Tail, OutcomeOf, ChangeOf, RefundReference, MinorOf, GoodAppend, GoodMark, GoodPush, Marked, Grown,
        Effect, Overflows, Next, FirstReservation;
    TailFits(l);
    NextGrows(l, op);
    NextMarks(l, op);
    OutcomeIsChange(l, op);
    MarkIsGood(l, op);
    MarkedInRange(l.full, ChangeOf(l, op), op.Refund?);
    NextBooks(l, op, ChangeOf(l, op));
    if ChangeOf(l, op).pushed.Some? {
      PushIsGood(l, op);
    } else {
      NoPushKeepsBalance(l.bank, op);
    }
  }

  lemma MarkedInRange(full: seq<Transaction>, c: Change, refund: bool)
    requires GoodMark(full, c, refund)
    ensures c.at.Some? ==> c.at.value < |full|
  {
    hide MinorOf, RefundReference;
  }

  lemma TailFits(l: Ledger)
    requires Tail(l)
    ensures |l.bank.transactions| <= |l.full|
  {
  }

  lemma NoRefundNoLoss(s: State, op: Op)
    requires !op.Refund?
    ensures !Overflows(s, op)
  {
  }

  // ---------- the invariant holds in every run ----------

  lemma BalanceStep(l: Ledger, n: Ledger, c: Change, refund: bool)
    requires Balanced(l) && Steps(l, n, c, refund)
    ensures Balanced(n)
  {
    hide ParseMinor, ToDecimal, GoodEntry, MinorOf, Sum, RefundReference;
    var marked := Marked(l.full, c);
    if c.at.Some? {
      var tx := l.full[c.at.value].(status := c.status);
      SameMinor(l.full[c.at.value], c.status);
      SumUpdate(l.full, c.at.value, tx, Effect);
      SumUpdate(l.full, c.at.value, tx, Weight);
    }
    if c.pushed.Some? {
      SumSnoc(marked, c.pushed.value, Effect);
      SumSnoc(marked, c.pushed.value, Weight);
    } else {
      assert marked + [] == marked;
    }
  }

  lemma SameMinor(tx: Transaction, status: TxStatus)
    ensures MinorOf(tx.(status := status)) == MinorOf(tx)
  {
  }

  lemma EntriesStep(full: seq<Transaction>, c: Change, refund: bool)
    requires GoodEntries(full) && Numbered(full) && GoodMark(full, c, refund)
    requires c.pushed.Some? ==> GoodAppend(full, c.pushed.value, refund)
    ensures GoodEntries(Grown(full, c)) && Numbered(Grown(full, c))
  {
    hide ParseMinor, ToDecimal, MinorOf, RefundReference;
  }

  lemma FarApartStep(full: seq<Transaction>, c: Change, refund: bool)
    requires FarApart(full) && GoodMark(full, c, refund)
    requires c.pushed.Some? ==> GoodAppend(full, c.pushed.value, refund)
    ensures FarApart(Grown(full, c))
  {
    hide ParseMinor, ToDecimal, MinorOf, RefundReference, GoodEntry;
    var n := Grown(full, c);
    assert forall i :: 0 <= i < |full| ==> n[i].anchorTxId == full[i].anchorTxId;
    if c.pushed.Some? {
      assert n[|full|] == c.pushed.value;
    }
  }

  /** A pair stays a pair when other entries are marked or appended. */
  lemma ReturnsStays(full: seq<Transaction>, c: Change, refund: bool, i: int, j: int)
    requires Returns(full, i, j) && GoodMark(full, c, refund)
    ensures Returns(Grown(full, c), i, j)
  {
    hide ParseMinor, RefundReference;
    var n := Grown(full, c);
    assert n[i] == full[i] && n[j] == full[j];
  }

  /** What a step does to the entries that were there: only the marked one changes, in its status. */
  lemma MarkedEntries(full: seq<Transaction>, c: Change, refund: bool)
    requires GoodMark(full, c, refund)
    ensures var n := Grown(full, c);
            && |n| == |full| + (if c.pushed.Some? then 1 else 0)
            && (c.pushed.Some? ==> n[|full|] == c.pushed.value)
            && forall i :: 0 <= i < |full| ==> n[i] == if c.at == Some(i) then full[i].(status := c.status) else full[i]
  {
    hide ParseMinor, RefundReference, MinorOf;
  }

  lemma PairedStep(l: Ledger, n: Ledger, c: Change, refund: bool)
    requires Paired(l.full, l.returned, l.orphans) && Steps(l, n, c, refund)
    ensures Paired(n.full, n.returned, n.orphans)
  {
    hide ParseMinor, ToDecimal, RefundReference, GoodEntry, Effect, Returns;
    MarkedEntries(l.full, c, refund);
    forall i | i in l.returned
      ensures Returns(n.full, i, l.returned[i]) && l.returned[i] < |l.full| && l.full[i].status.Refunded?
    {
      assert Returns(l.full, i, l.returned[i]);
      ReturnsStays(l.full, c, refund, i, l.returned[i]);
    }
    if refund && c.pushed.Some? {
      NewReturn(l.full, c);
      hide MinorOf, Grown;
      AddPair(n.full, l.returned, l.orphans, c.at.value, |l.full|);
    } else {
      hide MinorOf, Grown, Marked;
      KeepPairs(l.full, n.full, l.returned, l.orphans, if refund then c.at else None);
    }
  }

  /** Pairs stay when nothing is paid back; a refund that pays nothing back orphans its deposit. */
  lemma KeepPairs(full: seq<Transaction>, grown: seq<Transaction>, returned: map<nat, nat>, orphans: set<nat>,
      at: Option<nat>)
    requires Paired(full, returned, orphans) && |full| <= |grown| <= |full| + 1
    requires forall i :: i in returned ==> Returns(grown, i, returned[i])
    requires forall i :: 0 <= i < |full| ==>
               && grown[i].kind == full[i].kind
               && (grown[i].status.Refunded? <==> full[i].status.Refunded? || at == Some(i))
    requires forall i :: |full| <= i < |grown| ==> !grown[i].kind.Topup? && !grown[i].status.Refunded?
    requires at.Some? ==> at.value < |full| && full[at.value].kind.DepositToAnchor? && full[at.value].status.Pending?
    requires at.Some? ==> at.value !in returned
    ensures Paired(grown, returned, if at.Some? then orphans + {at.value} else orphans)
  {
    hide Returns;
  }

  lemma NewReturn(full: seq<Transaction>, c: Change)
    requires GoodMark(full, c, true) && c.pushed.Some? && GoodAppend(full, c.pushed.value, true)
    ensures Returns(Grown(full, c), c.at.value, |full|)
  {
    hide ParseMinor, RefundReference, ToDecimal;
    MarkedEntries(full, c, true);
    SameMinor(full[c.at.value], c.status);
  }

  lemma AddPair(full: seq<Transaction>, returned: map<nat, nat>, orphans: set<nat>, at: nat, j: nat)
    requires forall i :: i in returned ==> Returns(full, i, returned[i]) && returned[i] < j
    requires forall i, k :: i in returned && k in returned && i != k ==> returned[i] != returned[k]
    requires at !in returned && at !in orphans && Returns(full, at, j)
    requires forall i :: 0 <= i < |full| && full[i].status.Refunded? ==> i in returned || i in orphans || i == at
    requires forall i :: i in orphans ==>
                           i < |full| && full[i].kind.DepositToAnchor? && full[i].status.Refunded? && i !in returned
    requires forall k ::
               0 <= k < |full| && k != j && full[k].kind.Topup? ==> exists i :: i in returned && returned[i] == k
    ensures Paired(full, returned[at := j], orphans)
  {
    hide Returns;
    var more := returned[at := j];
    forall k | 0 <= k < |full| && full[k].kind.Topup? ensures exists i :: i in more && more[i] == k {
      if k == j {
        assert at in more && more[at] == k;
      } else {
        var i :| i in returned && returned[i] == k;
        assert i in more && more[i] == k;
      }
    }
  }

  lemma StepKeepsInv(l: Ledger, op: Op)
    requires Inv(l)
    ensures Inv(Next(l, op))
  {
    var n, c := Next(l, op), ChangeOf(l, op);
    NextGrows(l, op);
    NextSteps(l, op);
    hide Next, ChangeOf, Grown, GoodEntries, Paired, FarApart, Numbered, Tail, GoodMark, GoodAppend;
    BalanceStep(l, n, c, op.Refund?);
    EntriesStep(l.full, c, op.Refund?);
    FarApartStep(l.full, c, op.Refund?);
    PairedStep(l, n, c, op.Refund?);
  }

  lemma BeginHolds()
    ensures Inv(Begin())
  {
    hide GoodEntries, Paired, FarApart, Numbered, Sum, Effect, Weight;
    SumOfNone(Effect);
    SumOfNone(Weight);
    NothingIsGood();
    NothingIsPaired();
  }

  lemma SumOfNone(f: Transaction -> int)
    ensures Sum([], f) == 0
  {
  }

  lemma NothingIsGood()
    ensures GoodEntries([]) && FarApart([]) && Numbered([])
  {
    hide GoodEntry, ToDecimal;
  }

  lemma NothingIsPaired()
    ensures Paired([], map[], {})
  {
    hide Returns;
  }

  lemma InvFits(l: Ledger)
    requires Inv(l)
    ensures InRange(l.bank.balance) && |l.bank.transactions| <= |l.full|
  {
    hide GoodEntries, Paired, FarApart, Numbered, Sum;
  }

  /** The ledger after a run of operations since the reset. */
  ghost function Run(ops: seq<Op>): (l: Ledger)
    ensures Inv(l)
    ensures InRange(l.bank.balance) && |l.bank.transactions| <= |l.full|
  {
    hide Inv, Next;
    BeginHolds();
    if ops == [] then InvFits(Begin()); Begin() else
    var before := Run(ops[..|ops| - 1]);
    StepKeepsInv(before, ops[|ops| - 1]);
    InvFits(Next(before, ops[|ops| - 1]));
    Next(before, ops[|ops| - 1])
  }

  // ---------- conservation ----------

  /** The operation at `k` is a refund whose deposit does not fit back. */
  ghost predicate OverflowsAt(ops: seq<Op>, k: nat)
    requires k < |ops|
  {
    Overflows(Run(ops[..k]).bank, ops[k])
  }

  ghost predicate NeverOverflows(ops: seq<Op>) {
    forall k :: 0 <= k < |ops| ==> !OverflowsAt(ops, k)
  }

  /** A refund that overflows loses a positive amount; nothing else loses or orphans anything. */
  lemma OverflowLoses(l: Ledger, op: Op)
    requires Inv(l) && InRange(l.bank.balance) && |l.bank.transactions| <= |l.full|
    ensures var n := Next(l, op);
            if Overflows(l.bank, op) then n.lost > l.lost && n.orphans != {}
            else n.lost == l.lost && n.orphans == l.orphans
  {
    hide ChangeOf, OutcomeOf, Balanced, Paired, FarApart, Numbered, Next, Overflows, Tail, Grown, GoodAppend,
        GoodEntry, MinorOf, GoodMark, FirstReservation;
    var c := ChangeOf(l, op);
    NextSteps(l, op);
    MarkIsGood(l, op);
    if c.at.Some? {
      GoodIsPositive(l.full[c.at.value]);
      if op.Refund? && c.pushed.None? {
        assert c.at.value in Next(l, op).orphans;
      }
    }
    if !op.Refund? {
      NoRefundNoLoss(l.bank, op);
    }
  }

  lemma GoodIsPositive(tx: Transaction)
    requires GoodEntry(tx)
    ensures MinorOf(tx) > 0
  {
  }

  lemma {:induction false} LossIsOverflow(ops: seq<Op>)
    ensures var l := Run(ops);
            l.lost >= 0 && (l.lost == 0 <==> NeverOverflows(ops)) && (l.orphans == {} <==> NeverOverflows(ops))
    decreases |ops|
  {
    hide Inv, Overflows, Next;
    if ops == [] {
    } else {
      var front, op := ops[..|ops| - 1], ops[|ops| - 1];
      LossIsOverflow(front);
      OverflowLoses(Run(front), op);
      NeverOverflowsSnoc(ops);
    }
  }

  lemma NeverOverflowsSnoc(ops: seq<Op>)
    requires ops != []
    ensures var front := ops[..|ops| - 1];
            NeverOverflows(ops) <==> NeverOverflows(front) && !Overflows(Run(front).bank, ops[|ops| - 1])
  {
    hide Run, Overflows, OverflowsAt, NeverOverflows;
    var front := ops[..|ops| - 1];
    forall k | 0 <= k < |front| ensures OverflowsAt(ops, k) == OverflowsAt(front, k) {
      OverflowsInFront(ops, k);
    }
    NeverOverflowsOneMore(ops, front);
    OverflowsLast(ops);
  }

  lemma NeverOverflowsOneMore(ops: seq<Op>, front: seq<Op>)
    requires |ops| == |front| + 1
    requires forall k :: 0 <= k < |front| ==> OverflowsAt(ops, k) == OverflowsAt(front, k)
    ensures NeverOverflows(ops) <==> NeverOverflows(front) && !OverflowsAt(ops, |front|)
  {
    hide OverflowsAt;
  }

  lemma OverflowsInFront(ops: seq<Op>, k: nat)
    requires k < |ops| - 1
    ensures OverflowsAt(ops, k) == OverflowsAt(ops[..|ops| - 1], k)
  {
    hide Run, Overflows;
    assert ops[..|ops| - 1][..k] == ops[..k];
  }

  lemma OverflowsLast(ops: seq<Op>)
    requires ops != []
    ensures OverflowsAt(ops, |ops| - 1) == Overflows(Run(ops[..|ops| - 1]).bank, ops[|ops| - 1])
  {
    hide Run, Overflows;
  }

  /**
   * The balance is never negative, and it is the initial amount less the deposits not refunded plus
   * the payouts, over the whole log and not only what the store still holds, exactly when no refund
   * of the run found its deposit too large for the balance.
   */
  lemma BalanceIsConserved(ops: seq<Op>)
    ensures var l := Run(ops);
            && 0 <= l.bank.balance <= I64_MAX
            && (l.bank.balance == INITIAL_BALANCE + Sum(l.full, Weight) <==> NeverOverflows(ops))
            && l.bank.balance <= INITIAL_BALANCE + Sum(l.full, Weight)
  {
    hide Run, Tail, GoodEntries, Paired, FarApart, Numbered, Sum, NeverOverflows;
    LossIsOverflow(ops);
    assert Balanced(Run(ops));
  }

  /**
   * In every run, refunded deposits and top-ups pair up one to one, with equal amounts and matching
   * references, save the orphans: refunded deposits without a top-up, of which there are none
   * exactly when no refund overflowed.
   */
  lemma RefundsMatchTopups(ops: seq<Op>)
    ensures var l := Run(ops);
            && (forall i :: 0 <= i < |l.full| && l.full[i].status.Refunded? <==> i in l.returned || i in l.orphans)
            && l.returned.Keys !! l.orphans
            && (forall i :: i in l.returned ==> Returns(l.full, i, l.returned[i]))
            && (forall i, k :: i in l.returned && k in l.returned && i != k ==> l.returned[i] != l.returned[k])
            && (forall j ::
                  0 <= j < |l.full| && l.full[j].kind.Topup? ==> exists i :: i in l.returned && l.returned[i] == j)
            && (l.orphans == {} <==> NeverOverflows(ops))
  {
    hide Run, Tail, GoodEntries, Balanced, FarApart, Numbered, NeverOverflows, Returns;
    LossIsOverflow(ops);
    var l := Run(ops);
    assert Paired(l.full, l.returned, l.orphans);
    forall i | i in l.returned ensures 0 <= i < |l.full| && l.full[i].status.Refunded? {
      assert Returns(l.full, i, l.returned[i]);
    }
  }

  // ---------- the run in which a refund overflows ----------

  const TOO_MUCH: int := I64_MAX - INITIAL_BALANCE + 1

  function OverflowingRun(): seq<Op> {
    [Debit(FormatMinor(1), "a", 0), Credit(FormatMinor(TOO_MUCH), "b", None, 0), Refund("a", 0)]
  }

  lemma FirstReservationHere(tx: Transaction, other: Transaction)
    requires tx.kind.DepositToAnchor? && tx.reference == "a" && other.reference == "b"
    ensures FirstReservation([tx, other], "a") == 0
    ensures FirstWithReference([tx, other], RefundReference("a")) == 2
  {
    assert RefundReference("a") == "refund:a";
    assert RefundReference("a")[0] == 'r';
    assert [tx, other][1..] == [other];
    assert [other][1..] == [];
  }

  lemma AfterDebit(d: Transaction)
    requires d == NewTx(Fresh(), DepositToAnchor, 1, Pending, None, "a", 0)
    ensures Next(Begin(), Debit(FormatMinor(1), "a", 0)) ==
              Ledger(State("TRY", INITIAL_BALANCE - 1, 2, [d]), [d], map[], {}, 0)
  {
    hide ParseMinor, FormatMinor, ToDecimal;
    ParseOfFormat(1);
  }

  lemma AfterCredit(d: Transaction, c: Transaction)
    requires c == NewTx(State("TRY", INITIAL_BALANCE - 1, 2, [d]), WithdrawalPayout, TOO_MUCH, Completed, None, "b", 0)
    ensures Next(Ledger(State("TRY", INITIAL_BALANCE - 1, 2, [d]), [d], map[], {}, 0),
                 Credit(FormatMinor(TOO_MUCH), "b", None, 0)) ==
            Ledger(State("TRY", I64_MAX, 3, [d, c]), [d, c], map[], {}, 0)
  {
    hide ParseMinor, FormatMinor, ToDecimal;
    ParseOfFormat(TOO_MUCH);
    assert [d] + [c] == [d, c];
  }

  lemma AfterRefund(d: Transaction, c: Transaction)
    requires d.kind.DepositToAnchor? && d.reference == "a" && d.status.Pending?
             && d.amountTry == FormatMinor(1) && c.reference == "b"
    ensures var n := Next(Ledger(State("TRY", I64_MAX, 3, [d, c]), [d, c], map[], {}, 0), Refund("a", 0));
            n.bank.balance == I64_MAX && n.lost == 1 && n.full == [d.(status := Refunded), c]
  {
    hide ParseMinor, FormatMinor, ToDecimal, FirstReservation, FirstWithReference, RefundReference;
    ParseOfFormat(1);
    FirstReservationHere(d, c);
    var l := Ledger(State("TRY", I64_MAX, 3, [d, c]), [d, c], map[], {}, 0);
    assert Dropped(l) == 0 && l.full[..0] == [] && l.full[0] == d;
    assert [d, c][0 := d.(status := Refunded)] == [d.(status := Refunded), c];
  }

  /** A refund can overflow: the deposit is then marked refunded, and its money is in neither place. */
  lemma OverflowingRefund()
    ensures var l := Run(OverflowingRun());
            l.bank.balance == I64_MAX && l.lost == 1 && |l.full| == 2 && l.full[0].status.Refunded?
    ensures !NeverOverflows(OverflowingRun())
  {
    hide FormatMinor, ToDecimal, Next, Inv;
    var ops := OverflowingRun();
    var d := NewTx(Fresh(), DepositToAnchor, 1, Pending, None, "a", 0);
    var c := NewTx(State("TRY", INITIAL_BALANCE - 1, 2, [d]), WithdrawalPayout, TOO_MUCH, Completed, None, "b", 0);
    AfterDebit(d);
    AfterCredit(d, c);
    AfterRefund(d, c);
    assert ops[..2][..1] == ops[..1] && ops[..1][..0] == [];
    assert Run([]) == Begin();
    assert Run(ops[..1]) == Next(Begin(), ops[0]);
    assert Run(ops[..2]) == Next(Run(ops[..1]), ops[1]);
    assert Run(ops) == Next(Run(ops[..2]), ops[2]);
    LossIsOverflow(ops);
  }

  // ---------- idempotence and history ----------

  /** The reservation the store finds for a reference: the oldest one among the newest 500 entries. */
  ghost predicate Reservation(full: seq<Transaction>, reference: string, i: int) {
    && 0 <= i < |full| && |full| - i <= MAX_ENTRIES
    && full[i].kind.DepositToAnchor? && full[i].reference == reference
    && forall k :: 0 <= k < i && |full| - k <= MAX_ENTRIES ==>
                     !(full[k].kind.DepositToAnchor? && full[k].reference == reference)
  }

  lemma ReservationIsFirst(l: Ledger, reference: string, i: int)
    requires Tail(l)
    ensures Reservation(l.full, reference, i) <==>
            FirstReservation(l.bank.transactions, reference) < |l.bank.transactions|
            && i == Dropped(l) + FirstReservation(l.bank.transactions, reference)
  {
    hide FirstReservation, Tail;
    var txs := l.bank.transactions;
    TailFacts(l);
    var f := FirstReservation(txs, reference);
    assert f < |txs| ==> txs[f] == l.full[Dropped(l) + f];
    if Reservation(l.full, reference, i) {
      assert txs[i - Dropped(l)] == l.full[i];
    }
    if f < |txs| && i == Dropped(l) + f {
      forall k | 0 <= k < i && |l.full| - k <= MAX_ENTRIES
        ensures !(l.full[k].kind.DepositToAnchor? && l.full[k].reference == reference)
      {
        assert txs[k - Dropped(l)] == l.full[k];
      }
    }
  }

  /** What the store holds is the end of the full log, at most the newest 500 entries of it. */
  lemma TailFacts(l: Ledger)
    requires Tail(l)
    ensures 0 <= Dropped(l) && |l.full| == Dropped(l) + |l.bank.transactions|
    ensures Dropped(l) == if |l.full| < MAX_ENTRIES then 0 else |l.full| - MAX_ENTRIES
    ensures forall k :: 0 <= k < |l.bank.transactions| ==> l.bank.transactions[k] == l.full[Dropped(l) + k]
  {
  }

  /** A debit reserves its amount exactly when the amount is one and the balance covers it. */
  lemma DebitReservesWhatIsCovered(ops: seq<Op>, amount: string, reference: string, ts: nat)
    ensures var l := Run(ops); var n := Next(l, Debit(amount, reference, ts));
            if ParseMinor(amount).Ok? && ParseMinor(amount).value <= l.bank.balance then
              && |n.full| == |l.full| + 1 && n.full[..|l.full|] == l.full
              && n.full[|l.full|].kind.DepositToAnchor? && n.full[|l.full|].status.Pending?
              && n.full[|l.full|].reference == reference
              && n.bank.balance == l.bank.balance - ParseMinor(amount).value
            else n == l
  {
    hide Run, ParseMinor, FormatMinor, ToDecimal, Inv;
    var l := Run(ops);
    InvTail(l);
    NothingMarked(l);
    assert l.full + [] == l.full;
  }

  lemma InvTail(l: Ledger)
    requires Inv(l)
    ensures Tail(l) && GoodEntries(l.full)
  {
  }

  /** Settling completes the reservation it finds if that is still pending, and changes nothing else. */
  lemma SettleCompletesThePending(ops: seq<Op>, reference: string, i: int)
    requires Reservation(Run(ops).full, reference, i)
    ensures var l := Run(ops);
            Next(l, Settle(reference)).full ==
              (if l.full[i].status.Pending? then l.full[i := l.full[i].(status := Completed)] else l.full)
    ensures Next(Run(ops), Settle(reference)).bank.balance == Run(ops).bank.balance
  {
    hide Run, ParseMinor, FormatMinor, ToDecimal, Inv, Next, FirstReservation, Tail, Reservation, GoodEntries;
    var l := Run(ops);
    InvTail(l);
    ReservationIsFirst(l, reference, i);
    SettleBooks(l, reference);
  }

  lemma SettleBooks(l: Ledger, reference: string)
    requires Tail(l) && InRange(l.bank.balance) && |l.bank.transactions| <= |l.full|
    requires FirstReservation(l.bank.transactions, reference) < |l.bank.transactions|
    ensures var i := Dropped(l) + FirstReservation(l.bank.transactions, reference);
            && Next(l, Settle(reference)).full ==
                 (if l.full[i].status.Pending? then l.full[i := l.full[i].(status := Completed)] else l.full)
            && Next(l, Settle(reference)).bank.balance == l.bank.balance
  {
    hide OutcomeOf, FirstReservation, Overflows, Next, Tail;
    NextGrows(l, Settle(reference));
    var f := FirstReservation(l.bank.transactions, reference);
    UpdateInTail(l, f, Completed);
    SettlePushesNothing(l.bank, reference);
    NextBalance(l, Settle(reference));
    NoPushKeepsBalance(l.bank, Settle(reference));
    var c := ChangeOf(l, Settle(reference));
    assert Marked(l.full, c) + [] == Marked(l.full, c);
  }

  lemma SettlePushesNothing(s: State, reference: string)
    requires InRange(s.balance)
    ensures OutcomeOf(s, Settle(reference)).pushed.None?
  {
    hide FormatMinor, FirstReservation;
  }

  lemma NextBalance(l: Ledger, op: Op)
    requires InRange(l.bank.balance) && |l.bank.transactions| <= |l.full|
    ensures Next(l, op).bank.balance == OutcomeOf(l.bank, op).balance
  {
    hide OutcomeOf, Overflows, FirstReservation, Pushed;
  }

  /** A refund pays the reservation back exactly when it is pending, was not refunded under its reference, and fits. */
  lemma RefundPaysThePending(ops: seq<Op>, reference: string, ts: nat, i: int)
    requires Reservation(Run(ops).full, reference, i)
    ensures var l := Run(ops);
            PaysBack(l.bank, Refund(reference, ts)) <==>
            && l.full[i].status.Pending? && l.bank.balance + MinorOf(l.full[i]) <= I64_MAX
            && forall k :: 0 <= k < |l.full| && |l.full| - k <= MAX_ENTRIES ==>
                             l.full[k].reference != RefundReference(reference)
  {
    hide Run, ParseMinor, FormatMinor, ToDecimal, Inv, FirstReservation, Tail, Reservation, GoodEntries, PaysBack,
        RefundReference;
    var l := Run(ops);
    InvTail(l);
    ReservationIsFirst(l, reference, i);
    RefundBooks(l, reference, ts);
    ReferencesInWindow(l, RefundReference(reference));
  }

  lemma RefundBooks(l: Ledger, reference: string, ts: nat)
    requires Tail(l) && GoodEntries(l.full) && InRange(l.bank.balance)
    requires FirstReservation(l.bank.transactions, reference) < |l.bank.transactions|
    ensures var tx := l.full[Dropped(l) + FirstReservation(l.bank.transactions, reference)];
            PaysBack(l.bank, Refund(reference, ts)) <==>
            && tx.status.Pending? && l.bank.balance + MinorOf(tx) <= I64_MAX
            && FirstWithReference(l.bank.transactions, RefundReference(reference)) == |l.bank.transactions|
  {
    hide ParseMinor, FormatMinor, ToDecimal, FirstReservation, FirstWithReference, RefundReference;
    var f := FirstReservation(l.bank.transactions, reference);
    assert l.bank.transactions[f] == l.full[Dropped(l) + f];
    assert GoodEntry(l.full[Dropped(l) + f]);
  }

  lemma ReferencesInWindow(l: Ledger, reference: string)
    requires Tail(l)
    ensures FirstWithReference(l.bank.transactions, reference) == |l.bank.transactions| <==>
            forall k :: 0 <= k < |l.full| && |l.full| - k <= MAX_ENTRIES ==> l.full[k].reference != reference
  {
    hide FirstWithReference;
    var txs := l.bank.transactions;
    var first := FirstWithReference(txs, reference);
    forall k | 0 <= k < |txs| ensures txs[k] == l.full[Dropped(l) + k] {
    }
    forall k | 0 <= k < |l.full| && |l.full| - k <= MAX_ENTRIES
      ensures 0 <= k - Dropped(l) < |txs| && l.full[k] == txs[k - Dropped(l)] {
    }
    if first < |txs| {
      assert l.full[Dropped(l) + first].reference == reference;
    }
  }

  /** A payout is credited exactly when it fits and no entry among the newest 500 is for its anchor transaction. */
  lemma CreditPaysOncePerWindow(ops: seq<Op>, amount: string, reference: string, anchor: string, ts: nat)
    ensures var l := Run(ops);
            OutcomeOf(l.bank, Credit(amount, reference, Some(anchor), ts)).pushed.Some? <==>
            && ParseMinor(amount).Ok? && l.bank.balance + ParseMinor(amount).value <= I64_MAX
            && forall i :: 0 <= i < |l.full| && |l.full| - i <= MAX_ENTRIES ==> l.full[i].anchorTxId != Some(anchor)
  {
    hide Run, ParseMinor, GoodEntries, Balanced, Paired, FarApart, Numbered, CreditOf, Tail;
    var l := Run(ops);
    CreditPays(l.bank, amount, reference, anchor, ts);
    WindowIsTail(l, anchor);
  }

  lemma CreditPays(s: State, amount: string, reference: string, anchor: string, ts: nat)
    requires InRange(s.balance)
    ensures CreditOf(s, amount, reference, Some(anchor), ts).pushed.Some? <==>
            && ParseMinor(amount).Ok? && s.balance + ParseMinor(amount).value <= I64_MAX
            && forall i :: 0 <= i < |s.transactions| ==> s.transactions[i].anchorTxId != Some(anchor)
  {
    hide ParseMinor, FormatMinor, ToDecimal, FirstWithAnchor;
  }

  lemma WindowIsTail(l: Ledger, anchor: string)
    requires Tail(l)
    ensures (forall i :: 0 <= i < |l.bank.transactions| ==> l.bank.transactions[i].anchorTxId != Some(anchor)) <==>
            (forall i :: 0 <= i < |l.full| && |l.full| - i <= MAX_ENTRIES ==> l.full[i].anchorTxId != Some(anchor))
  {
    var txs := l.bank.transactions;
    forall k | 0 <= k < |txs| ensures txs[k] == l.full[Dropped(l) + k] {
    }
    forall j | 0 <= j < |l.full| && |l.full| - j <= MAX_ENTRIES
      ensures 0 <= j - Dropped(l) < |txs| && l.full[j] == txs[j - Dropped(l)] {
    }
  }

  /** While its top-up is among the newest 500 entries, asking again for a refund changes nothing. */
  lemma RefundIsIdempotent(ops: seq<Op>, reference: string, ts: nat, i: nat)
    requires i < |Run(ops).full| && |Run(ops).full| - i <= MAX_ENTRIES
             && Run(ops).full[i].reference == RefundReference(reference)
    ensures Next(Run(ops), Refund(reference, ts)) == Run(ops)
    ensures OutcomeOf(Run(ops).bank, Refund(reference, ts)).reply.Ok?
  {
    hide Run, GoodEntries, Balanced, Paired, FarApart, Numbered, RefundReference, RefundOf, Refundable, Next;
    var l := Run(ops);
    assert l.bank.transactions[i - Dropped(l)] == l.full[i];
    RefundAgain(l.bank, reference, ts, i - Dropped(l));
    hide Tail;
    NothingHappens(l, Refund(reference, ts));
  }

  lemma NothingHappens(l: Ledger, op: Op)
    requires Tail(l) && InRange(l.bank.balance) && |l.bank.transactions| <= |l.full|
    requires var o := OutcomeOf(l.bank, op);
             o.balance == l.bank.balance && o.updated == l.bank.transactions && o.pushed.None?
    requires op.Refund? ==> !Refundable(l.bank, op.reference)
    ensures Next(l, op) == l
  {
    hide OutcomeOf, FirstReservation, MinorOf, Refundable;
    NothingMarked(l);
    assert l.full + [] == l.full;
  }

  lemma RefundAgain(s: State, reference: string, ts: nat, i: nat)
    requires InRange(s.balance) && i < |s.transactions| && s.transactions[i].reference == RefundReference(reference)
    ensures var o := RefundOf(s, reference, ts);
            o.balance == s.balance && o.updated == s.transactions && o.pushed.None? && o.reply.Ok?
    ensures !Refundable(s, reference)
  {
    hide ParseMinor, FormatMinor, RefundReference, FirstReservation;
  }

  /** Over the whole run, two credits of one anchor transaction lie more than 500 entries apart. */
  lemma DoubleCreditsAreFarApart(ops: seq<Op>)
    ensures FarApart(Run(ops).full)
  {
    hide Run, Tail, GoodEntries, Balanced, Paired, FarApart, Numbered;
    assert Inv(Run(ops));
  }

  /**
   * An entry keeps everything but the status of a pending deposit, which is settled once: completed or
   * refunded, for good.
   */
  ghost predicate SettledOnce(x: Transaction, y: Transaction) {
    y == x || (x.kind.DepositToAnchor? && x.status.Pending?
               && (y == x.(status := Completed) || y == x.(status := Refunded)))
  }

  lemma {:induction false} EntriesSettleOnce(ops: seq<Op>, k: nat, i: nat)
    requires k <= |ops| && i < |Run(ops[..k]).full|
    ensures i < |Run(ops).full| && SettledOnce(Run(ops[..k]).full[i], Run(ops).full[i])
    decreases |ops|
  {
    hide Inv, Next;
    if k < |ops| {
      var front := ops[..|ops| - 1];
      assert front[..k] == ops[..k];
      EntriesSettleOnce(front, k, i);
      StepSettlesOnce(Run(front), ops[|ops| - 1], i);
    } else {
      assert ops[..k] == ops;
    }
  }

  lemma StepSettlesOnce(l: Ledger, op: Op, i: nat)
    requires Inv(l) && InRange(l.bank.balance) && |l.bank.transactions| <= |l.full| && i < |l.full|
    ensures i < |Next(l, op).full| && SettledOnce(l.full[i], Next(l, op).full[i])
  {
    hide Next, ChangeOf, Tail, GoodEntries, Balanced, Paired, FarApart, Numbered, Grown, GoodAppend, MinorOf,
        RefundReference;
    NextSteps(l, op);
    MarkedEntries(l.full, ChangeOf(l, op), op.Refund?);
  }

  /** Entries are numbered in order of the whole run, so no two share an identifier. */
  lemma IdsAreUnique(ops: seq<Op>, i: nat, j: nat)
    requires i < j < |Run(ops).full|
    ensures Run(ops).full[i].id != Run(ops).full[j].id
  {
    hide Run, Tail, GoodEntries, Balanced, Paired, FarApart, ToDecimal;
    var l := Run(ops);
    assert Numbered(l.full);
    assert ("bank-" + ToDecimal(i + 1))[5..] == ToDecimal(i + 1)
           && ("bank-" + ToDecimal(j + 1))[5..] == ToDecimal(j + 1);
  }

  // ---------- the run in which one anchor transaction is credited twice ----------

  /** A credit that fits, for an anchor transaction the store no longer holds or for none, appends its payout. */
  lemma CreditAppends(l: Ledger, minor: int, reference: string, anchor: Option<string>, ts: nat)
    requires Tail(l) && InRange(l.bank.balance) && |l.bank.transactions| <= |l.full|
    requires 0 < minor && l.bank.balance + minor <= I64_MAX
    requires anchor.Some? ==> forall i :: 0 <= i < |l.bank.transactions| ==> l.bank.transactions[i].anchorTxId != anchor
    ensures var n := Next(l, Credit(FormatMinor(minor), reference, anchor, ts));
            n.bank.balance == l.bank.balance + minor
            && |n.full| == |l.full| + 1 && n.full[..|l.full|] == l.full
            && n.full[|l.full|].anchorTxId == anchor && n.full[|l.full|].kind.WithdrawalPayout?
  {
    ParseOfFormat(minor);
    NothingMarked(l);
    hide ParseMinor, FormatMinor, ToDecimal, FirstWithAnchor, Tail, Pushed;
  }

  function FillerRun(anchor: string, n: nat): seq<Op> {
    if n == 0 then [Credit(FormatMinor(1), "first", Some(anchor), 0)]
    else FillerRun(anchor, n - 1) + [Credit(FormatMinor(1), "filler", None, 0)]
  }

  lemma RunSnoc(ops: seq<Op>, op: Op)
    ensures Run(ops + [op]) == Next(Run(ops), op)
  {
    hide Inv, Next;
    assert (ops + [op])[..|ops|] == ops;
  }

  /** One credit for the anchor transaction and `n` for none: the log has them all, the first of them for the anchor. */
  lemma {:induction false} AfterFillers(anchor: string, n: nat)
    requires n <= MAX_ENTRIES
    ensures var l := Run(FillerRun(anchor, n));
            && |l.full| == n + 1 && l.bank.balance == INITIAL_BALANCE + 1 + n
            && l.full[0].anchorTxId == Some(anchor) && l.full[0].kind.WithdrawalPayout?
            && forall k :: 1 <= k <= n ==> l.full[k].anchorTxId.None?
  {
    hide Inv, Next, FormatMinor, Run, Tail;
    if n == 0 {
      RunOfNothing();
      RunSnoc([], Credit(FormatMinor(1), "first", Some(anchor), 0));
      assert [] + FillerRun(anchor, 0) == FillerRun(anchor, 0);
      InvTail(Begin());
      CreditAppends(Begin(), 1, "first", Some(anchor), 0);
    } else {
      AfterFillers(anchor, n - 1);
      var l := Run(FillerRun(anchor, n - 1));
      RunSnoc(FillerRun(anchor, n - 1), Credit(FormatMinor(1), "filler", None, 0));
      InvTail(l);
      CreditAppends(l, 1, "filler", None, 0);
      var m := Next(l, Credit(FormatMinor(1), "filler", None, 0));
      forall k | 0 <= k < n ensures m.full[k] == l.full[k] {
        assert m.full[..|l.full|][k] == l.full[k];
      }
    }
  }

  lemma RunOfNothing()
    ensures Run([]) == Begin() && Inv(Begin())
  {
    BeginHolds();
  }

  /**
   * The window is all that makes a credit idempotent: after 500 further entries the same anchor
   * transaction is credited, and paid, a second time.
   */
  lemma CreditedTwice(anchor: string)
    ensures var l := Run(FillerRun(anchor, MAX_ENTRIES) + [Credit(FormatMinor(1), "again", Some(anchor), 0)]);
            && |l.full| == MAX_ENTRIES + 2 && l.bank.balance == INITIAL_BALANCE + MAX_ENTRIES + 2
            && l.full[0].anchorTxId == Some(anchor) && l.full[MAX_ENTRIES + 1].anchorTxId == Some(anchor)
            && l.full[0].kind.WithdrawalPayout? && l.full[MAX_ENTRIES + 1].kind.WithdrawalPayout?
  {
    hide Inv, Next, FormatMinor, Run, FillerRun;
    var ops := FillerRun(anchor, MAX_ENTRIES);
    var l := Run(ops);
    AfterFillers(anchor, MAX_ENTRIES);
    RunSnoc(ops, Credit(FormatMinor(1), "again", Some(anchor), 0));
    InvTail(l);
    assert forall i :: 0 <= i < |l.bank.transactions| ==> l.bank.transactions[i] == l.full[1 + i];
    CreditAppends(l, 1, "again", Some(anchor), 0);
  }
}
