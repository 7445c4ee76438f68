/** Netting of a counterparty's receivable against its payable: `NettingService`. */
module Netting {
  import opened Wrappers
  import opened Money
  import opened Ledger
  import opened LedgerLaws

  datatype Status = Draft | Sent | Paid | Cancelled | PartiallyPaid | LockedBySignature

  /** A row of `invoice_payments`; `tx` is the transaction it is linked to. */
  datatype Payment = Payment(amount: int, tx: Option<nat>)

  /** The invoice table is kept in the order of the query: by due date, then id. */
  datatype Invoice = Invoice(
    counterparty: string, recognized: bool, total: int, payments: seq<Payment>,
    status: Status, paymentReceived: bool)

  datatype Error =
    | AmountNotPositive
    | CounterpartyNotFound
    | ExceedsMaximum
    | AccountsNotFound
    | JournalRejected(error: Ledger.Error)
    | Leftover(left: real)

  datatype State = State(books: Books, invoices: seq<Invoice>, counterparties: map<string, bool>, orgIsVatPayer: bool)

  const PAYABLE := "531"
  const RECEIVABLE := "211"
  const VAT_INPUT := "241"
  const VAT_OUTPUT := "541"

  // ----- Balances

  function PaidSum(payments: seq<Payment>): int {
    if payments == [] then 0 else PaidSum(payments[..|payments| - 1]) + payments[|payments| - 1].amount
  }

  predicate IsOpen(inv: Invoice, cp: string) {
    inv.counterparty == cp && inv.recognized && inv.status != Cancelled
  }

  /** What the counterparty still owes on an invoice. */
  function Due(inv: Invoice, cp: string): nat {
    var rem := inv.total - PaidSum(inv.payments);
    if IsOpen(inv, cp) && rem > 0 then rem else 0
  }

  function Receivable(invoices: seq<Invoice>, cp: string): nat {
    if invoices == [] then 0 else Due(invoices[0], cp) + Receivable(invoices[1..], cp)
  }

  /** Credits minus debits of account 531 in transactions with the counterparty. */
  function PayableNet(b: Books, cp: string, ledger: LedgerType): int {
    -Turnover(b, Selection(ledger, Some({PAYABLE}), WithCounterparty(cp)))
  }

  function Payable(b: Books, cp: string, ledger: LedgerType): nat {
    if PAYABLE in b.Codes(ledger) && PayableNet(b, cp, ledger) > 0 then PayableNet(b, cp, ledger) else 0
  }

  // ----- Allocation

  function DerivePaymentState(total: int, paidSum: int, current: Status): (Status, bool) {
    if current == LockedBySignature then (LockedBySignature, paidSum >= total)
    else if paidSum >= total then (Paid, true)
    else if paidSum > 0 then (PartiallyPaid, false)
    else if current == Draft then (Draft, false)
    else (Sent, false)
  }

  /** One payment row is added, then status and flag are recomputed from the stored payments. */
  function Settle(inv: Invoice, amount: int, tx: nat): Invoice {
    var payments := inv.payments + [Payment(amount, Some(tx))];
    var (status, received) := DerivePaymentState(inv.total, PaidSum(payments), inv.status);
    inv.(payments := payments, status := status, paymentReceived := received)
  }

  function MinReal(a: real, b: real): real {
    if a <= b then a else b
  }

  /** One pass of the allocation loop: the invoice after it and the amount left. */
  function PayInvoice(inv: Invoice, cp: string, tx: nat, left: real): (Invoice, real) {
    var due := Due(inv, cp);
    if left <= 0.0 || due == 0 then (inv, left)
    else
      var alloc := MinReal(due as real, left);
      (Settle(inv, HalfUp(alloc), tx), left - alloc)
  }

  /** The allocation loop: the invoices after it and the amount left. */
  function Allocate(invoices: seq<Invoice>, cp: string, tx: nat, left: real): (r: (seq<Invoice>, real))
    ensures |r.0| == |invoices|
  {
    if invoices == [] then ([], left)
    else
      var head := PayInvoice(invoices[0], cp, tx, left);
      var rest := Allocate(invoices[1..], cp, tx, head.1);
      ([head.0] + rest.0, rest.1)
  }

  lemma {:induction false} AllocateNothing(invoices: seq<Invoice>, cp: string, tx: nat, left: real)
    requires left <= 0.0
    ensures Allocate(invoices, cp, tx, left) == (invoices, left)
  {
    if invoices != [] {
      AllocateNothing(invoices[1..], cp, tx, left);
      assert [invoices[0]] + invoices[1..] == invoices;
    }
  }

  /** The table and the amount left when the loop, having made `done`, still has `rest` to pass over. */
  function Resumed(done: seq<Invoice>, rest: seq<Invoice>, cp: string, tx: nat, left: real): (seq<Invoice>, real) {
    (done + Allocate(rest, cp, tx, left).0, Allocate(rest, cp, tx, left).1)
  }

  lemma ResumedStep(done: seq<Invoice>, rest: seq<Invoice>, cp: string, tx: nat, left: real)
    requires rest != []
    ensures var head := PayInvoice(rest[0], cp, tx, left);
            Resumed(done, rest, cp, tx, left) == Resumed(done + [head.0], rest[1..], cp, tx, head.1)
  {
    var head := PayInvoice(rest[0], cp, tx, left);
    var tail := Allocate(rest[1..], cp, tx, head.1).0;
    assert done + ([head.0] + tail) == done + [head.0] + tail;
  }

  // ----- Netting

  /** The input VAT included in the amount: 18/118 of it, rounded to four decimals. */
  function VatPortion(amount: real): int {
    HalfUp(amount * 18.0 / 118.0)
  }

  function NettingJournal(cp: string, amount: real, postVat: bool, date: Date): Journal {
    var vat := VatPortion(amount) as real;
    Journal(date, NettingRef(cp), true, Some(cp), None, NAS,
            [Line(PAYABLE, amount, 0.0), Line(RECEIVABLE, 0.0, amount)] +
            if postVat then [Line(VAT_INPUT, vat, 0.0), Line(VAT_OUTPUT, 0.0, vat)] else [])
  }

  /** What is checked before the transaction is opened; the result says whether VAT lines are posted. */
  function Check(s: State, cp: string, amount: real, ledger: LedgerType): Result<bool, Error> {
    var codes := s.books.Codes(ledger);
    if amount <= 0.0 then Failure(AmountNotPositive)
    else if cp !in s.counterparties then Failure(CounterpartyNotFound)
    else if amount > Min(Receivable(s.invoices, cp), Payable(s.books, cp, ledger)) as real then Failure(ExceedsMaximum)
    else if RECEIVABLE !in codes || PAYABLE !in codes then Failure(AccountsNotFound)
    else Success(s.orgIsVatPayer && s.counterparties[cp] && VAT_INPUT in codes && VAT_OUTPUT in codes)
  }

  /** The transaction: the journal, then the allocation; a throw rolls both back. */
  function Commit(s: State, cp: string, amount: real, postVat: bool, date: Date): Result<State, Error> {
    match Post(s.books, NettingJournal(cp, amount, postVat, date))
    case Failure(e) => Failure(JournalRejected(e))
    case Success(b) =>
      var (invoices, left) := Allocate(s.invoices, cp, |s.books.txs|, amount);
      if left > 1.0 then Failure(Leftover(left))
      else Success(s.(books := b, invoices := invoices))
  }

  /** `createNetting` */
  function Create(s: State, cp: string, amount: real, ledger: LedgerType, date: Date): Result<State, Error> {
    match Check(s, cp, amount, ledger)
    case Failure(e) => Failure(e)
    case Success(postVat) => Commit(s, cp, amount, postVat, date)
  }

  // ----- The service

  class NettingService {
    const accounting: AccountingService
    var invoices: seq<Invoice>
    var counterparties: map<string, bool>
    var orgIsVatPayer: bool

    ghost function Abstract(): State
      reads this, accounting
    {
      State(accounting.State(), invoices, counterparties, orgIsVatPayer)
    }

    constructor (accounting: AccountingService, invoices: seq<Invoice>, counterparties: map<string, bool>,
      orgIsVatPayer: bool)
      ensures this.accounting == accounting
      ensures Abstract() == State(accounting.State(), invoices, counterparties, orgIsVatPayer)
    {
      this.accounting, this.invoices := accounting, invoices;
      this.counterparties, this.orgIsVatPayer := counterparties, orgIsVatPayer;
    }

    static method SumPayments(payments: seq<Payment>) returns (sum: int)
      ensures sum == PaidSum(payments)
    {
      sum := 0;
      for i := 0 to |payments|
        invariant sum == PaidSum(payments[..i])
      {
        assert payments[..i + 1][..i] == payments[..i];
        sum := sum + payments[i].amount;
      }
      assert payments[..|payments|] == payments;
    }

    method ReceivableForCounterparty(cp: string) returns (sum: nat)
      ensures sum == Receivable(invoices, cp)
    {
      sum := 0;
      for i := 0 to |invoices|
        invariant sum + Receivable(invoices[i..], cp) == Receivable(invoices, cp)
      {
        assert invoices[i..][1..] == invoices[i + 1..];
        if IsOpen(invoices[i], cp) {
          var paid := SumPayments(invoices[i].payments);
          var bal := invoices[i].total - paid;
          if bal > 0 {
            sum := sum + bal;
          }
        }
      }
    }

    method Payable531ForCounterparty(cp: string, ledger: LedgerType) returns (payable: nat)
      ensures payable == Payable(accounting.State(), cp, ledger)
    {
      if PAYABLE !in (if ledger == NAS then accounting.nas else accounting.ifrs) {
        return 0;
      }
      var txs, es := accounting.txs, accounting.entries;
      ghost var sel := Selection(ledger, Some({PAYABLE}), WithCounterparty(cp));
      var net := 0;
      for i := 0 to |es|
        invariant net == -Net(txs, es[..i], sel)
      {
        var e := es[i];
        assert es[..i + 1][..i] == es[..i];
        if e.ledger == ledger && e.code == PAYABLE && e.tx < |txs| && txs[e.tx].counterparty == Some(cp) {
          net := net + (e.credit - e.debit);
        }
      }
      assert es[..|es|] == es;
      return if net > 0 then net else 0;
    }

    /** The body of the allocation loop: one payment row and the update of the invoice. */
    method PayRow(i: nat, cp: string, tx: nat, left: real) returns (left': real)
      requires i < |invoices| && left > 0.0
      modifies this`invoices
      ensures var (inv, rest) := PayInvoice(old(invoices)[i], cp, tx, left);
              invoices == old(invoices)[i := inv] && left' == rest
    {
      left' := left;
      var inv := invoices[i];
      var paid := SumPayments(inv.payments);
      var rem := inv.total - paid;
      if IsOpen(inv, cp) && rem > 0 {
        var alloc := MinReal(rem as real, left);
        left' := left - alloc;
        var payments := inv.payments + [Payment(HalfUp(alloc), Some(tx))];
        var paidSum := SumPayments(payments);
        var (status, received) := DerivePaymentState(inv.total, paidSum, inv.status);
        invoices := invoices[i := inv.(payments := payments, status := status, paymentReceived := received)];
      }
    }

    method AllocateNettingToInvoicePayments(cp: string, tx: nat, totalAmount: real) returns (left: real)
      modifies this`invoices
      ensures (invoices, left) == Allocate(old(invoices), cp, tx, totalAmount)
    {
      hide PayInvoice, Due, Receivable, Settle;
      left := totalAmount;
      ghost var rows := invoices;
      var i := 0;
      assert rows[0..] == rows && [] + Allocate(rows, cp, tx, left).0 == Allocate(rows, cp, tx, left).0;
      while i < |invoices| && left > 0.0
        invariant 0 <= i <= |invoices| == |rows|
        invariant invoices[i..] == rows[i..]
        invariant Allocate(rows, cp, tx, totalAmount) == Resumed(invoices[..i], rows[i..], cp, tx, left)
      {
        ResumedStep(invoices[..i], rows[i..], cp, tx, left);
        assert rows[i..][1..] == rows[i + 1..];
        ghost var done := invoices[..i];
        left := PayRow(i, cp, tx, left);
        assert done + [invoices[i]] == invoices[..i + 1];
        i := i + 1;
      }
      AllocateNothing(rows[i..], cp, tx, if i < |rows| then left else 0.0);
      assert invoices[..i] + invoices[i..] == invoices;
    }

    method CreateNetting(cp: string, amount: real, ledger: LedgerType, date: Date) returns (r: Result<nat, Error>)
      modifies this`invoices, accounting
      ensures r.Success? ==> Create(old(Abstract()), cp, amount, ledger, date) == Success(Abstract())
      ensures r.Success? ==> r.value == |old(accounting.txs)|
      ensures r.Failure? ==>
              Create(old(Abstract()), cp, amount, ledger, date) == Failure(r.error) && Abstract() == old(Abstract())
    {
      hide Receivable, Payable, Allocate, NettingJournal, Post;
      if amount <= 0.0 {
        return Failure(AmountNotPositive);
      }
      if cp !in counterparties {
        return Failure(CounterpartyNotFound);
      }
      var receivable := ReceivableForCounterparty(cp);
      var payable := Payable531ForCounterparty(cp, ledger);
      if amount > Min(receivable, payable) as real {
        return Failure(ExceedsMaximum);
      }
      var codes := if ledger == NAS then accounting.nas else accounting.ifrs;
      if RECEIVABLE !in codes || PAYABLE !in codes {
        return Failure(AccountsNotFound);
      }
      var postVat := orgIsVatPayer && counterparties[cp] && VAT_INPUT in codes && VAT_OUTPUT in codes;
      var before, rows := accounting.State(), invoices;
      var posted := accounting.PostJournal(NettingJournal(cp, amount, postVat, date));
      if posted.Failure? {
        return Failure(JournalRejected(posted.error));
      }
      var left := AllocateNettingToInvoicePayments(cp, posted.value, amount);
      if left > 1.0 {
        accounting.Restore(before);
        invoices := rows;
        return Failure(Leftover(left));
      }
      return Success(posted.value);
    }
  }
}
