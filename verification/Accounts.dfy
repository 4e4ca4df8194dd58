/**
  One billing account: balance, transaction rows and concurrent-slot counter. The class
  performs the endpoints; the ledger functions say what each does to balance and rows.
 */
module Accounts {
  import opened Sequences
  import opened Numbers
  import opened Costs

  datatype Kind = PreDeducted | Finalized | Refunded | ToppedUp | Deducted

  /** A row of transactions; reference is the call it belongs to, if any. */
  datatype Transaction = Transaction(kind: Kind, amount: int, balanceAfter: int, reference: Option<int>)

  /** Top-ups and refunds credit the account, every other row debits it. */
  function Signed(t: Transaction): int {
    if t.kind.ToppedUp? || t.kind.Refunded? then t.amount else -t.amount
  }

  /** What the rows of one call add up to. */
  function NetOf(rows: seq<Transaction>, call: int): int {
    if rows == [] then 0
    else
      var last := rows[|rows| - 1];
      NetOf(rows[..|rows| - 1], call) + if last.reference == Some(call) then Signed(last) else 0
  }

  lemma NetOfAppend(rows: seq<Transaction>, last: Transaction, call: int)
    ensures NetOf(rows + [last], call) == NetOf(rows, call) + if last.reference == Some(call) then Signed(last) else 0
  {
    assert (rows + [last])[..|rows|] == rows;
  }

  datatype Ledger = Ledger(balance: int, creditLimit: int, rows: seq<Transaction>)

  datatype LedgerOp =
    | PreDeduct(call: int, aRate: int, bRate: int)
    | Finalize(call: int, aSec: int, bSec: int, aRate: int, bRate: int, preDeduct: int)
    | Topup(amount: int)
    | Deduct(amount: int)

  function Post(l: Ledger, kind: Kind, amount: int, delta: int, reference: Option<int>): Ledger {
    l.(balance := l.balance + delta,
       rows := l.rows + [Transaction(kind, amount, l.balance + delta, reference)])
  }

  predicate Admits(l: Ledger, op: LedgerOp) {
    match op
    case PreDeduct(_, aRate, bRate) => l.balance + l.creditLimit >= PreDeductAmount(aRate, bRate)
    case Finalize(_, _, _, _, _, _) => true
    case Topup(amount) => amount > 0
    case Deduct(amount) => amount > 0
  }

  /** An endpoint's effect; a refused request leaves the ledger as it was. */
  function Book(l: Ledger, op: LedgerOp): Ledger {
    if !Admits(l, op) then l
    else
      match op
      case PreDeduct(call, aRate, bRate) =>
        var amount := PreDeductAmount(aRate, bRate);
        Post(l, PreDeducted, amount, -amount, Some(call))
      case Finalize(call, aSec, bSec, aRate, bRate, preDeduct) =>
        var diff := preDeduct - CallCost(aSec, bSec, aRate, bRate);
        if diff > 0 then Post(l, Refunded, diff, diff, Some(call))
        else Post(l, Finalized, -diff, diff, Some(call))
      case Topup(amount) => Post(l, ToppedUp, amount, amount, None)
      case Deduct(amount) => Post(l, Deducted, amount, -amount, None)
  }

  function BookAll(l: Ledger, ops: seq<LedgerOp>): Ledger {
    if ops == [] then l else Book(BookAll(l, ops[..|ops| - 1]), ops[|ops| - 1])
  }

  // ---- Replaying the rows ----

  /** Replaying the rows up to and including i gives that row's balance_after. */
  predicate RowReplays(opening: int, rows: seq<Transaction>, i: nat)
    requires i < |rows|
  {
    rows[i].balanceAfter == opening + Sum(rows[..i + 1], Signed)
  }

  /** Replay from an opening balance reproduces every balance_after and the balance itself. */
  ghost predicate Replays(opening: int, l: Ledger) {
    && l.balance == opening + Sum(l.rows, Signed)
    && forall i :: 0 <= i < |l.rows| ==> RowReplays(opening, l.rows, i)
  }

  lemma EarlierRowReplays(opening: int, rows: seq<Transaction>, row: Transaction, i: nat)
    requires i < |rows| && RowReplays(opening, rows, i)
    ensures RowReplays(opening, rows + [row], i)
  {
    assert (rows + [row])[..i + 1] == rows[..i + 1];
  }

  lemma LastRowReplays(opening: int, rows: seq<Transaction>, row: Transaction)
    requires row.balanceAfter == opening + Sum(rows, Signed) + Signed(row)
    ensures RowReplays(opening, rows + [row], |rows|)
  {
    SumAppend(rows, row, Signed);
    assert (rows + [row])[..|rows| + 1] == rows + [row];
  }

  lemma PostReplays(opening: int, l: Ledger, kind: Kind, amount: int, delta: int, reference: Option<int>)
    requires Replays(opening, l)
    requires delta == if kind.ToppedUp? || kind.Refunded? then amount else -amount
    ensures Replays(opening, Post(l, kind, amount, delta, reference))
  {
    hide Sum, RowReplays;
    var row := Transaction(kind, amount, l.balance + delta, reference);
    SumAppend(l.rows, row, Signed);
    LastRowReplays(opening, l.rows, row);
    forall i | 0 <= i < |l.rows| ensures RowReplays(opening, l.rows + [row], i) {
      EarlierRowReplays(opening, l.rows, row, i);
    }
  }

  lemma BookReplays(opening: int, l: Ledger, op: LedgerOp)
    requires Replays(opening, l)
    ensures Replays(opening, Book(l, op))
  {
    hide Replays;
    if Admits(l, op) {
      match op
      case PreDeduct(call, aRate, bRate) =>
        var amount := PreDeductAmount(aRate, bRate);
        PostReplays(opening, l, PreDeducted, amount, -amount, Some(call));
      case Finalize(call, aSec, bSec, aRate, bRate, preDeduct) =>
        var diff := preDeduct - CallCost(aSec, bSec, aRate, bRate);
        if diff > 0 {
          PostReplays(opening, l, Refunded, diff, diff, Some(call));
        } else {
          PostReplays(opening, l, Finalized, -diff, diff, Some(call));
        }
      case Topup(amount) => PostReplays(opening, l, ToppedUp, amount, amount, None);
      case Deduct(amount) => PostReplays(opening, l, Deducted, amount, -amount, None);
    }
  }

  /** The ledger is complete: for every history the rows alone determine every balance. */
  lemma {:induction false} HistoryReplays(opening: int, creditLimit: int, ops: seq<LedgerOp>)
    ensures Replays(opening, BookAll(Ledger(opening, creditLimit, []), ops))
  {
    hide Book;
    if ops != [] {
      HistoryReplays(opening, creditLimit, ops[..|ops| - 1]);
      BookReplays(opening, BookAll(Ledger(opening, creditLimit, []), ops[..|ops| - 1]), ops[|ops| - 1]);
    }
  }

  /** The operations of a history that concern one call. */
  predicate Concerns(op: LedgerOp, call: int) {
    (op.PreDeduct? || op.Finalize?) && op.call == call
  }

  /** What one endpoint adds to a call's rows. */
  function Contribution(l: Ledger, op: LedgerOp, call: int): int {
    if !Admits(l, op) then 0
    else
      match op
      case PreDeduct(c, aRate, bRate) => if c == call then -PreDeductAmount(aRate, bRate) else 0
      case Finalize(c, aSec, bSec, aRate, bRate, preDeduct) =>
        if c == call then preDeduct - CallCost(aSec, bSec, aRate, bRate) else 0
      case Topup(_) => 0
      case Deduct(_) => 0
  }

  lemma BookNets(l: Ledger, op: LedgerOp, call: int)
    ensures NetOf(Book(l, op).rows, call) == NetOf(l.rows, call) + Contribution(l, op, call)
  {
    hide NetOf, CallCost, PreDeductAmount;
    if Admits(l, op) {
      var row := Book(l, op).rows[|l.rows|];
      assert Book(l, op).rows == l.rows + [row];
      NetOfAppend(l.rows, row, call);
    }
  }

  lemma {:induction false} UnrelatedRows(l: Ledger, ops: seq<LedgerOp>, call: int)
    requires forall op :: op in ops ==> !Concerns(op, call)
    ensures NetOf(BookAll(l, ops).rows, call) == NetOf(l.rows, call)
  {
    hide Book, NetOf, CallCost;
    if ops != [] {
      var front, op := ops[..|ops| - 1], ops[|ops| - 1];
      assert op in ops;
      UnrelatedRows(l, front, call);
      BookNets(BookAll(l, front), op, call);
    }
  }

  /**
    A call that was pre-deducted once and finalized once with that amount, whatever else
    happened in between, has been charged exactly its cost.
   */
  lemma CallNetsToItsCost(l: Ledger, call: int, aRate: int, bRate: int, between: seq<LedgerOp>, aSec: int, bSec: int)
    requires NetOf(l.rows, call) == 0
    requires Admits(l, PreDeduct(call, aRate, bRate))
    requires forall op :: op in between ==> !Concerns(op, call)
    ensures var held := BookAll(Book(l, PreDeduct(call, aRate, bRate)), between);
            var settled := Book(held, Finalize(call, aSec, bSec, aRate, bRate, PreDeductAmount(aRate, bRate)));
            NetOf(settled.rows, call) == -CallCost(aSec, bSec, aRate, bRate)
  {
    hide Book, BookAll, NetOf, CallCost, PreDeductAmount;
    var booked := Book(l, PreDeduct(call, aRate, bRate));
    var held := BookAll(booked, between);
    BookNets(l, PreDeduct(call, aRate, bRate), call);
    UnrelatedRows(booked, between, call);
    BookNets(held, Finalize(call, aSec, bSec, aRate, bRate, PreDeductAmount(aRate, bRate)), call);
  }

  // ---- Competing pre-deductions ----

  /** k requests of the same amount, one after another. */
  function Requests(k: nat, aRate: int, bRate: int): seq<LedgerOp> {
    seq(k, i => PreDeduct(i, aRate, bRate))
  }

  /** Under the row lock exactly as many of k equal requests pass as the funds cover. */
  lemma {:induction false} FundsAdmitExactly(l: Ledger, k: nat, aRate: int, bRate: int)
    requires PreDeductAmount(aRate, bRate) > 0
    ensures var amount := PreDeductAmount(aRate, bRate);
            var passed := Min(k, Max(0, (l.balance + l.creditLimit) / amount));
            var after := BookAll(l, Requests(k, aRate, bRate));
            && after.balance == l.balance - passed * amount
            && |after.rows| == |l.rows| + passed
            && after.creditLimit == l.creditLimit
  {
    var amount := PreDeductAmount(aRate, bRate);
    var funds := l.balance + l.creditLimit;
    hide PreDeductAmount;
    if k > 0 {
      FundsAdmitExactly(l, k - 1, aRate, bRate);
      assert Requests(k, aRate, bRate)[..k - 1] == Requests(k - 1, aRate, bRate);
      var passed := Min(k - 1, Max(0, funds / amount));
      QuotientTest(funds, amount, passed);
      OneMore(passed, amount);
    }
  }

  lemma OneMore(n: int, amount: int)
    ensures (n + 1) * amount == n * amount + amount
  {
  }

  lemma QuotientTest(funds: int, amount: int, passed: int)
    requires amount > 0
    ensures passed < funds / amount <==> funds - passed * amount >= amount
  {
    var q := funds / amount;
    assert funds == amount * q + funds % amount;
    if passed < q {
      MulMonotone(amount, passed + 1, q);
    } else {
      MulMonotone(amount, q, passed);
    }
  }

  // ---- The account as the service updates it ----

  datatype FinalizeResponse = FinalizeResponse(aLegCost: int, bLegCost: int, totalCost: int, refund: int)

  class Account {
    var balance: int
    const creditLimit: int
    var transactions: seq<Transaction>
    var concurrentSlots: int

    constructor (creditLimit: int, opening: int)
      ensures View() == Ledger(opening, creditLimit, []) && concurrentSlots == 0
    {
      this.creditLimit := creditLimit;
      balance, transactions, concurrentSlots := opening, [], 0;
    }

    function View(): Ledger
      reads this
    {
      Ledger(balance, creditLimit, transactions)
    }

    /** Hold thirty minutes at the combined rate, or refuse. */
    method PreDeduct(call: int, aRate: int, bRate: int) returns (r: Option<int>)
      modifies this`balance, this`transactions
      ensures View() == Book(old(View()), LedgerOp.PreDeduct(call, aRate, bRate))
      ensures r.Some? <==> Admits(old(View()), LedgerOp.PreDeduct(call, aRate, bRate))
      ensures r.Some? ==> r.value == PreDeductAmount(aRate, bRate) && balance >= -creditLimit
      ensures r.Some? <==> old(balance) + creditLimit >= 30 * (aRate + bRate)
      ensures r.Some? ==>
                && balance == old(balance) - 30 * (aRate + bRate)
                && transactions
                   == old(transactions) + [Transaction(PreDeducted, 30 * (aRate + bRate), balance, Some(call))]
      ensures r.None? ==> balance == old(balance) && transactions == old(transactions)
    {
      var preDeductAmount := (aRate + bRate) * PRE_DEDUCT_MINUTES;
      if balance + creditLimit < preDeductAmount {
        return None;
      }
      var newBalance := balance - preDeductAmount;
      balance := newBalance;
      transactions := transactions + [Transaction(PreDeducted, preDeductAmount, newBalance, Some(call))];
      return Some(preDeductAmount);
    }

    /** Take a slot optimistically and give it back when that went past the limit. */
    method AcquireSlot(maxConcurrent: int) returns (r: Option<int>)
      modifies this`concurrentSlots
      ensures r.Some? <==> old(concurrentSlots) < maxConcurrent
      ensures concurrentSlots == old(concurrentSlots) + if r.Some? then 1 else 0
      ensures r.Some? ==> r.value == concurrentSlots
    {
      concurrentSlots := concurrentSlots + 1;
      var newVal := concurrentSlots;
      if newVal > maxConcurrent {
        concurrentSlots := concurrentSlots - 1;
        return None;
      }
      return Some(newVal);
    }

    method ReleaseSlot()
      modifies this`concurrentSlots
      ensures concurrentSlots == Max(0, old(concurrentSlots) - 1)
    {
      concurrentSlots := concurrentSlots - 1;
      if concurrentSlots < 0 {
        concurrentSlots := 0;
      }
    }

    /** Charge the actual cost against what was held: refund, top up the charge, or neither. */
    method Finalize(call: int, aSec: int, bSec: int, aRate: int, bRate: int, preDeduct: int)
      returns (r: FinalizeResponse)
      modifies this`balance, this`transactions
      ensures View() == Book(old(View()), LedgerOp.Finalize(call, aSec, bSec, aRate, bRate, preDeduct))
      ensures r.totalCost == r.aLegCost + r.bLegCost == CallCost(aSec, bSec, aRate, bRate)
      ensures r.aLegCost == LegCost(aSec, aRate, A_BLOCK) && r.bLegCost == LegCost(bSec, bRate, B_BLOCK)
      ensures balance == old(balance) + preDeduct - r.totalCost
      ensures r.refund == Max(0, preDeduct - r.totalCost)
      ensures BilledByBlock(r.aLegCost, aSec, aRate, 6) && BilledByBlock(r.bLegCost, bSec, bRate, 60)
      ensures transactions == old(transactions) +
                [if preDeduct > r.totalCost then Transaction(Refunded, preDeduct - r.totalCost, balance, Some(call))
                 else Transaction(Finalized, r.totalCost - preDeduct, balance, Some(call))]
    {
      LegCostByBlock(aSec, aRate, 6);
      LegCostByBlock(bSec, bRate, 60);
      hide BilledByBlock;
      var aLegCost := 0;
      if aSec > 0 {
        aLegCost := TruncDiv(CeilDiv(aSec, 6) * 6 * aRate, 60);
      }
      var bLegCost := 0;
      if bSec > 0 {
        bLegCost := TruncDiv(CeilDiv(bSec, 60) * 60 * bRate, 60);
      }
      var actualCost := aLegCost + bLegCost;
      var diff := preDeduct - actualCost;
      var refund, kind, amount := 0, Finalized, 0;
      if diff > 0 {
        refund, kind, amount := diff, Refunded, diff;
        balance := balance + diff;
      } else if diff < 0 {
        amount := -diff;
        balance := balance - -diff;
      }
      transactions := transactions + [Transaction(kind, amount, balance, Some(call))];
      r := FinalizeResponse(aLegCost, bLegCost, actualCost, refund);
    }

    method Topup(amount: int) returns (ok: bool)
      modifies this`balance, this`transactions
      ensures ok <==> amount > 0
      ensures View() == Book(old(View()), LedgerOp.Topup(amount))
      ensures ok ==>
                && balance == old(balance) + amount
                && transactions == old(transactions) + [Transaction(ToppedUp, amount, balance, None)]
      ensures !ok ==> balance == old(balance) && transactions == old(transactions)
    {
      if amount <= 0 {
        return false;
      }
      var newBalance := balance + amount;
      balance := newBalance;
      transactions := transactions + [Transaction(ToppedUp, amount, newBalance, None)];
      return true;
    }

    method Deduct(amount: int) returns (ok: bool)
      modifies this`balance, this`transactions
      ensures ok <==> amount > 0
      ensures View() == Book(old(View()), LedgerOp.Deduct(amount))
      ensures ok ==>
                && balance == old(balance) - amount
                && transactions == old(transactions) + [Transaction(Deducted, amount, balance, None)]
      ensures !ok ==> balance == old(balance) && transactions == old(transactions)
    {
      if amount <= 0 {
        return false;
      }
      var newBalance := balance - amount;
      balance := newBalance;
      transactions := transactions + [Transaction(Deducted, amount, newBalance, None)];
      return true;
    }
  }
}
