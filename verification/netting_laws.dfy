/** What netting guarantees: the closed form of the allocation, split invariance, exactness and
    conservation over sequences of nettings, and what survives when checks and commits interleave. */
module NettingLaws {
  import opened Wrappers
  import opened Money
  import opened Ledger
  import opened LedgerLaws
  import opened Netting

  // ----- Closed form

  /** The part of `amount` that falls on an invoice with `due` owed when `before` is owed on the earlier ones. */
  function Share(amount: int, before: nat, due: nat): nat {
    if amount <= before then 0 else Min(amount - before, due)
  }

  lemma {:induction false} PaidSumAdd(payments: seq<Payment>, p: Payment)
    ensures PaidSum([]) == 0 && PaidSum(payments + [p]) == PaidSum(payments) + p.amount
  {
    assert (payments + [p])[..|payments + [p]| - 1] == payments;
  }

  /** Only payments, status and the received flag of an invoice change. */
  predicate SameTerms(inv: Invoice, inv': Invoice) {
    inv'.counterparty == inv.counterparty && inv'.recognized == inv.recognized && inv'.total == inv.total
  }

  /** `inv'` is `inv` after one pass with `left` to allocate, and `left'` carries over. */
  predicate PassedOver(inv: Invoice, cp: string, left: real, inv': Invoice, left': real) {
    var share := Min(Due(inv, cp), HalfUp(left));
    && SameTerms(inv, inv') && left' >= 0.0
    && PaidSum(inv'.payments) == PaidSum(inv.payments) + share
    && Due(inv', cp) == Due(inv, cp) - share
    && left' == (if Due(inv, cp) as real <= left then left - Due(inv, cp) as real else 0.0)
    && HalfUp(left') == HalfUp(left) - share
    && (if left == 0.0 || Due(inv, cp) == 0 then inv' == inv else
          (inv'.status, inv'.paymentReceived) == DerivePaymentState(inv.total, PaidSum(inv'.payments), inv.status))
  }

  /** What carries over to the next invoice. */
  function Carry(left: real, due: nat): real {
    if due as real <= left then left - due as real else 0.0
  }

  /** Rounding the part that is allocated and rounding the rest lose nothing: what is owed is whole units. */
  lemma RoundingSplits(due: nat, left: real)
    requires left >= 0.0
    ensures var alloc := MinReal(due as real, left);
            && HalfUp(alloc) == Min(due, HalfUp(left)) && HalfUp(left) >= 0
            && left - alloc == Carry(left, due) >= 0.0
            && HalfUp(left - alloc) == HalfUp(left) - HalfUp(alloc)
  {
    HalfUpOfInt(0);
    HalfUpOfInt(due);
    HalfUpMonotone(0.0, left);
    if due as real <= left {
      HalfUpMonotone(due as real, left);
      HalfUpShift(due, left - due as real);
      hide HalfUp;
    } else {
      HalfUpMonotone(left, due as real);
      hide HalfUp;
    }
  }

  lemma DerivedIsOpen(total: int, paid: int, current: Status)
    requires current != Cancelled
    ensures DerivePaymentState(total, paid, current).0 != Cancelled
  {
  }

  lemma SettleFields(inv: Invoice, amount: int, tx: nat)
    ensures var inv' := Settle(inv, amount, tx);
            && SameTerms(inv, inv') && inv'.payments == inv.payments + [Payment(amount, Some(tx))]
            && inv'.status == DerivePaymentState(inv.total, PaidSum(inv'.payments), inv.status).0
            && inv'.paymentReceived == DerivePaymentState(inv.total, PaidSum(inv'.payments), inv.status).1
  {
    hide PaidSum, DerivePaymentState;
  }

  lemma DueOf(inv: Invoice, inv': Invoice, cp: string, amount: nat)
    requires Due(inv, cp) > 0 && amount <= Due(inv, cp)
    requires SameTerms(inv, inv') && inv'.status != Cancelled
    requires PaidSum(inv'.payments) == PaidSum(inv.payments) + amount
    ensures inv.status != Cancelled && Due(inv', cp) == Due(inv, cp) - amount
  {
    hide PaidSum;
  }

  lemma IsNotCancelled(inv: Invoice, cp: string)
    requires Due(inv, cp) > 0
    ensures inv.status != Cancelled
  {
    hide PaidSum;
  }

  lemma SettleLaws(inv: Invoice, cp: string, amount: nat, tx: nat)
    requires Due(inv, cp) > 0 && amount <= Due(inv, cp)
    ensures var inv' := Settle(inv, amount, tx);
            && SameTerms(inv, inv') && PaidSum(inv'.payments) == PaidSum(inv.payments) + amount
            && Due(inv', cp) == Due(inv, cp) - amount
            && inv'.status == DerivePaymentState(inv.total, PaidSum(inv'.payments), inv.status).0
            && inv'.paymentReceived == DerivePaymentState(inv.total, PaidSum(inv'.payments), inv.status).1
  {
    hide *;
    var inv' := Settle(inv, amount, tx);
    SettleFields(inv, amount, tx);
    PaidSumAdd(inv.payments, Payment(amount, Some(tx)));
    IsNotCancelled(inv, cp);
    DerivedIsOpen(inv.total, PaidSum(inv'.payments), inv.status);
    DueOf(inv, inv', cp, amount);
  }

  /** One pass: the invoice receives as much of the stored amount as it owes, and the rest carries over exactly. */
  lemma PayInvoiceLaws(inv: Invoice, cp: string, tx: nat, left: real)
    requires left >= 0.0
    ensures PassedOver(inv, cp, left, PayInvoice(inv, cp, tx, left).0, PayInvoice(inv, cp, tx, left).1)
  {
    hide HalfUp, Due, PaidSum, DerivePaymentState, Settle;
    var due := Due(inv, cp);
    HalfUpOfInt(0);
    RoundingSplits(due, left);
    if left > 0.0 && due > 0 {
      SettleLaws(inv, cp, HalfUp(MinReal(due as real, left)), tx);
    }
  }

  /** `out` is the table after the loop has passed over it with `left` to allocate, and `left'` is never allocated. */
  predicate PassedOverAll(invoices: seq<Invoice>, cp: string, left: real, out: seq<Invoice>, left': real) {
    if invoices == [] then out == [] && left' == left
    else
      && out != []
      && PassedOver(invoices[0], cp, left, out[0], Carry(left, Due(invoices[0], cp)))
      && PassedOverAll(invoices[1..], cp, Carry(left, Due(invoices[0], cp)), out[1..], left')
  }

  lemma {:induction false} AllocateLaws(invoices: seq<Invoice>, cp: string, tx: nat, left: real)
    requires left >= 0.0
    ensures PassedOverAll(invoices, cp, left, Allocate(invoices, cp, tx, left).0, Allocate(invoices, cp, tx, left).1)
  {
    if invoices != [] {
      PayInvoiceLaws(invoices[0], cp, tx, left);
      AllocateLaws(invoices[1..], cp, tx, PayInvoice(invoices[0], cp, tx, left).1);
    }
  }

  /** What the closed form says of one invoice, `before` being owed on the earlier ones. */
  predicate ClosedForm(inv: Invoice, cp: string, amount: real, before: nat, inv': Invoice) {
    && SameTerms(inv, inv')
    && PaidSum(inv'.payments) == PaidSum(inv.payments) + Share(HalfUp(amount), before, Due(inv, cp))
    && (if amount <= before as real || Due(inv, cp) == 0 then inv' == inv else
          (inv'.status, inv'.paymentReceived) == DerivePaymentState(inv.total, PaidSum(inv'.payments), inv.status))
  }

  lemma CarriedForm(inv: Invoice, cp: string, amount: real, due: nat, before: nat, inv': Invoice)
    requires amount >= 0.0 && ClosedForm(inv, cp, Carry(amount, due), before, inv')
    ensures ClosedForm(inv, cp, amount, due + before, inv')
  {
    HalfUpOfInt(0);
    HalfUpOfInt(due);
    if due as real <= amount {
      HalfUpShift(due, amount - due as real);
      HalfUpMonotone(0.0, amount - due as real);
    } else {
      HalfUpMonotone(amount, due as real);
    }
  }

  lemma {:induction false} ClosedFormOfPasses(
    invoices: seq<Invoice>, cp: string, amount: real, out: seq<Invoice>, left: real, i: nat)
    requires amount >= 0.0 && PassedOverAll(invoices, cp, amount, out, left) && i < |invoices|
    ensures i < |out| && ClosedForm(invoices[i], cp, amount, Receivable(invoices[..i], cp), out[i])
  {
    hide HalfUp, DerivePaymentState, Due, PaidSum;
    if i == 0 {
      HalfUpMonotone(0.0, amount);
      HalfUpOfInt(0);
    } else {
      hide PassedOver, ClosedForm;
      var due := Due(invoices[0], cp);
      ClosedFormOfPasses(invoices[1..], cp, Carry(amount, due), out[1..], left, i - 1);
      assert invoices[..i][1..] == invoices[1..][..i - 1];
      CarriedForm(invoices[i], cp, amount, due, Receivable(invoices[1..][..i - 1], cp), out[i]);
    }
  }

  /** The loop computes a closed form: each invoice receives the part of the stored amount that the
      earlier invoices leave over, no more than it owes; an invoice the amount does not reach is untouched. */
  lemma AllocationClosedForm(invoices: seq<Invoice>, cp: string, tx: nat, amount: real, i: nat)
    requires amount >= 0.0 && i < |invoices|
    ensures ClosedForm(invoices[i], cp, amount, Receivable(invoices[..i], cp), Allocate(invoices, cp, tx, amount).0[i])
  {
    AllocateLaws(invoices, cp, tx, amount);
    ClosedFormOfPasses(invoices, cp, amount, Allocate(invoices, cp, tx, amount).0, Allocate(invoices, cp, tx, amount).1,
      i);
  }

  lemma {:induction false} ReceivableOfPasses(
    invoices: seq<Invoice>, cp: string, amount: real, out: seq<Invoice>, left: real)
    requires amount >= 0.0 && PassedOverAll(invoices, cp, amount, out, left)
    ensures Receivable(out, cp) == Receivable(invoices, cp) - Min(HalfUp(amount), Receivable(invoices, cp))
    ensures left == Carry(amount, Receivable(invoices, cp))
    ensures HalfUp(amount) >= 0
  {
    hide HalfUp, DerivePaymentState, Due, PaidSum;
    HalfUpMonotone(0.0, amount);
    HalfUpOfInt(0);
    if invoices != [] {
      ReceivableOfPasses(invoices[1..], cp, Carry(amount, Due(invoices[0], cp)), out[1..], left);
    }
  }

  /** An allocation lowers the receivable by the stored amount, down to zero, and leaves over exactly the excess. */
  lemma ReceivableAfter(invoices: seq<Invoice>, cp: string, tx: nat, amount: real)
    requires amount >= 0.0
    ensures var (out, left) := Allocate(invoices, cp, tx, amount);
            && Receivable(out, cp) == Receivable(invoices, cp) - Min(HalfUp(amount), Receivable(invoices, cp))
            && left == Carry(amount, Receivable(invoices, cp))
  {
    AllocateLaws(invoices, cp, tx, amount);
    ReceivableOfPasses(invoices, cp, amount, Allocate(invoices, cp, tx, amount).0,
      Allocate(invoices, cp, tx, amount).1);
  }

  /** What other counterparties owe does not change. */
  lemma {:induction false} ReceivableOfOthers(invoices: seq<Invoice>, cp: string, other: string, tx: nat, amount: real)
    requires other != cp
    ensures Receivable(Allocate(invoices, cp, tx, amount).0, other) == Receivable(invoices, other)
  {
    if invoices != [] {
      ReceivableOfOthers(invoices[1..], cp, other, tx, PayInvoice(invoices[0], cp, tx, amount).1);
    }
  }

  /** No allocation pays more on an invoice than its total, whatever amount was approved. */
  lemma AllocationNeverOverpays(invoices: seq<Invoice>, cp: string, tx: nat, amount: real, i: nat)
    requires amount >= 0.0 && i < |invoices|
    ensures var out := Allocate(invoices, cp, tx, amount).0;
            PaidSum(out[i].payments) > PaidSum(invoices[i].payments) ==> PaidSum(out[i].payments) <= out[i].total
  {
    AllocationClosedForm(invoices, cp, tx, amount, i);
  }

  /** Status and flag tell how far the invoice is paid; an invoice locked by signature keeps its status. */
  predicate StateFits(inv: Invoice) {
    var paid := PaidSum(inv.payments);
    && (inv.paymentReceived <==> paid >= inv.total)
    && (inv.status !in {LockedBySignature, Cancelled} ==>
          (inv.status == Paid <==> paid >= inv.total) && (inv.status == PartiallyPaid <==> 0 < paid < inv.total))
  }

  lemma DerivedStateFits(total: int, paid: int, current: Status)
    ensures var (status, received) := DerivePaymentState(total, paid, current);
            && (received <==> paid >= total)
            && (current == LockedBySignature <==> status == LockedBySignature)
            && (status != LockedBySignature ==>
                  && (status == Paid <==> paid >= total) && (status == PartiallyPaid <==> 0 < paid < total)
                  && (paid <= 0 && paid < total ==> status == if current == Draft then Draft else Sent))
  {
  }

  lemma FormFits(inv: Invoice, cp: string, amount: real, before: nat, inv': Invoice)
    requires ClosedForm(inv, cp, amount, before, inv')
    ensures StateFits(inv) || inv' != inv ==> StateFits(inv')
    ensures inv.status in {LockedBySignature, Cancelled} ==> inv'.status == inv.status
  {
    DerivedStateFits(inv.total, PaidSum(inv'.payments), inv.status);
    hide HalfUp, PaidSum, DerivePaymentState, Share;
  }

  /** Allocation keeps it so on every invoice, and brings every invoice it pays on into such a state. */
  lemma StatesFitAfterAllocation(invoices: seq<Invoice>, cp: string, tx: nat, amount: real, i: nat)
    requires amount >= 0.0 && i < |invoices|
    ensures var inv := Allocate(invoices, cp, tx, amount).0[i];
            (StateFits(invoices[i]) || inv != invoices[i] ==> StateFits(inv)) &&
            (invoices[i].status in {LockedBySignature, Cancelled} ==> inv.status == invoices[i].status)
  {
    hide *;
    AllocationClosedForm(invoices, cp, tx, amount, i);
    FormFits(invoices[i], cp, amount, Receivable(invoices[..i], cp), Allocate(invoices, cp, tx, amount).0[i]);
  }

  /** The loop pays on recognised invoices of the counterparty that are not cancelled and not paid yet, and on no
      others; and if the amount covers the receivable, each of them is paid in full. */
  lemma AllocationPaysOpenInvoices(invoices: seq<Invoice>, cp: string, tx: nat, amount: real, i: nat)
    requires amount >= 0.0 && i < |invoices|
    ensures var inv, inv' := invoices[i], Allocate(invoices, cp, tx, amount).0[i];
            var open := inv.counterparty == cp && inv.recognized && inv.status != Cancelled &&
                        PaidSum(inv.payments) < inv.total;
            && (inv' != inv ==> open)
            && (open && amount >= Receivable(invoices, cp) as real ==> PaidSum(inv'.payments) == inv.total)
  {
    hide HalfUp;
    AllocationClosedForm(invoices, cp, tx, amount, i);
    ReceivableOfPart(invoices, cp, i);
    if amount >= Receivable(invoices, cp) as real {
      HalfUpMonotone(Receivable(invoices, cp) as real, amount);
      HalfUpOfInt(Receivable(invoices, cp));
    }
  }

  lemma {:induction false} ReceivableOfPart(invoices: seq<Invoice>, cp: string, i: nat)
    requires i < |invoices|
    ensures Receivable(invoices[..i], cp) + Due(invoices[i], cp) <= Receivable(invoices, cp)
  {
    hide Due;
    if i > 0 {
      assert invoices[..i][1..] == invoices[1..][..i - 1];
      ReceivableOfPart(invoices[1..], cp, i - 1);
    }
  }

  /** An invoice that is paid on gets one payment row, linked to the transaction of the netting. */
  lemma {:induction false} AllocationAddsOneRow(invoices: seq<Invoice>, cp: string, tx: nat, amount: real, i: nat)
    requires i < |invoices|
    ensures var inv, inv' := invoices[i], Allocate(invoices, cp, tx, amount).0[i];
            inv' == inv ||
              exists p: Payment :: p.tx == Some(tx) && inv'.payments == inv.payments + [p]
  {
    hide HalfUp, Due, PaidSum, DerivePaymentState;
    var head := PayInvoice(invoices[0], cp, tx, amount);
    if i > 0 {
      AllocationAddsOneRow(invoices[1..], cp, tx, head.1, i - 1);
    } else if head.0 != invoices[0] {
      var p := Payment(HalfUp(MinReal(Due(invoices[0], cp) as real, amount)), Some(tx));
      assert head.0.payments == invoices[0].payments + [p];
    }
  }

  // ----- Split invariance

  /** The same invoice, paid by the same sum, in the same state; the payment rows may differ. */
  predicate SameAccount(a: Invoice, b: Invoice) {
    SameTerms(a, b) && PaidSum(a.payments) == PaidSum(b.payments) && a.status == b.status &&
      a.paymentReceived == b.paymentReceived
  }

  predicate SameAccounts(a: seq<Invoice>, b: seq<Invoice>) {
    |a| == |b| && forall i :: 0 <= i < |a| ==> SameAccount(a[i], b[i])
  }

  /** Recomputing the state after a further payment forgets the state in between. */
  lemma DeriveTwice(total: int, paid: int, paid': int, current: Status)
    requires paid <= paid'
    ensures DerivePaymentState(total, paid', DerivePaymentState(total, paid, current).0) ==
            DerivePaymentState(total, paid', current)
  {
  }

  lemma PassTwice(
    inv: Invoice, cp: string, a: nat, b: real, first: Invoice, rest: real, second: Invoice, left: real,
    once: Invoice, left': real)
    requires b >= 0.0
    requires PassedOver(inv, cp, a as real, first, rest)
    requires PassedOver(first, cp, b, second, left)
    requires PassedOver(inv, cp, a as real + b, once, left')
    ensures SameAccount(second, once) && left' == left + rest
  {
    HalfUpOfInt(a);
    HalfUpShift(a, b);
    DeriveTwice(inv.total, PaidSum(first.payments), PaidSum(second.payments), inv.status);
  }

  lemma {:induction false} SplitOfPasses(
    invoices: seq<Invoice>, cp: string, a: nat, b: real, first: seq<Invoice>, rest: real,
    second: seq<Invoice>, left: real, once: seq<Invoice>, left': real)
    requires b >= 0.0
    requires PassedOverAll(invoices, cp, a as real, first, rest)
    requires PassedOverAll(first, cp, b, second, left)
    requires PassedOverAll(invoices, cp, a as real + b, once, left')
    ensures SameAccounts(second, once) && left' == left + rest
  {
    hide PassedOver, SameAccount, HalfUp;
    if invoices != [] {
      var due, due' := Due(invoices[0], cp), Due(first[0], cp);
      var a' := if due <= a then a - due else 0;
      var b' := Carry(b, due');
      PassTwice(invoices[0], cp, a, b, first[0], Carry(a as real, due), second[0], b', once[0],
        Carry(a as real + b, due));
      assert Carry(a as real, due) == a' as real;
      SplitOfPasses(invoices[1..], cp, a', b', first[1..], rest, second[1..], left, once[1..], left');
      assert forall i :: 1 <= i < |second| ==> second[i] == second[1..][i - 1] && once[i] == once[1..][i - 1];
    }
  }

  /** Allocating `a` and then `b` leaves every invoice as allocating `a + b` at once does, if `a` has
      no more than four decimals. */
  lemma AllocationIsSplitInvariant(invoices: seq<Invoice>, cp: string, tx: nat, tx': nat, a: nat, b: real)
    requires b >= 0.0
    ensures var (first, rest) := Allocate(invoices, cp, tx, a as real);
            var (second, left) := Allocate(first, cp, tx', b);
            var (once, left') := Allocate(invoices, cp, tx', a as real + b);
            SameAccounts(second, once) && left' == left + rest
  {
    hide PassedOverAll, SameAccount, Allocate;
    var (first, rest) := Allocate(invoices, cp, tx, a as real);
    var (second, left) := Allocate(first, cp, tx', b);
    var (once, left') := Allocate(invoices, cp, tx', a as real + b);
    AllocateLaws(invoices, cp, tx, a as real);
    AllocateLaws(first, cp, tx', b);
    AllocateLaws(invoices, cp, tx', a as real + b);
    SplitOfPasses(invoices, cp, a, b, first, rest, second, left, once, left');
  }

  ghost predicate SamePaid(a: seq<Invoice>, b: seq<Invoice>) {
    |a| == |b| && forall i :: 0 <= i < |a| ==> PaidSum(a[i].payments) == PaidSum(b[i].payments)
  }

  lemma SamePaidHeadTail(a: seq<Invoice>, b: seq<Invoice>)
    requires a != [] && b != []
    ensures SamePaid(a, b) <==> PaidSum(a[0].payments) == PaidSum(b[0].payments) && SamePaid(a[1..], b[1..])
  {
    hide PaidSum;
    if SamePaid(a, b) {
      assert forall i :: 0 <= i < |a| - 1 ==> a[1..][i] == a[i + 1] && b[1..][i] == b[i + 1];
    }
    if PaidSum(a[0].payments) == PaidSum(b[0].payments) && SamePaid(a[1..], b[1..]) {
      assert forall i :: 1 <= i < |a| ==> a[i] == a[1..][i - 1] && b[i] == b[1..][i - 1];
    }
  }

  lemma PaidTwice(
    inv: Invoice, cp: string, a: real, b: real, c: real, first: Invoice, rest: real, second: Invoice, left: real,
    once: Invoice, left': real)
    requires PassedOver(inv, cp, a, first, rest) && PassedOver(first, cp, b, second, left) &&
             PassedOver(inv, cp, c, once, left')
    ensures PaidSum(second.payments) ==
            PaidSum(inv.payments) + Min(Due(inv, cp), HalfUp(a)) +
            Min(Due(inv, cp) - Min(Due(inv, cp), HalfUp(a)), HalfUp(b))
    ensures PaidSum(once.payments) == PaidSum(inv.payments) + Min(Due(inv, cp), HalfUp(c))
    ensures HalfUp(rest) == HalfUp(a) - Min(Due(inv, cp), HalfUp(a)) &&
            HalfUp(left') == HalfUp(c) - Min(Due(inv, cp), HalfUp(c))
    ensures HalfUp(left) == HalfUp(b) - Min(Due(inv, cp) - Min(Due(inv, cp), HalfUp(a)), HalfUp(b))
    ensures rest >= 0.0 && left >= 0.0 && left' >= 0.0
  {
    hide HalfUp, Due, PaidSum, DerivePaymentState;
  }

  /** Equal below what is owed. */
  predicate SameUpTo(owed: int, x: int, y: int) {
    Min(x, owed) == Min(y, owed)
  }

  lemma SplitArithmetic(due: nat, rest: nat, a: nat, b: nat, c: nat)
    ensures var sa := Min(due, a);
            var sb, sc := Min(due - sa, b), Min(due, c);
            SameUpTo(due + rest, a + b, c) <==> sa + sb == sc && SameUpTo(rest, (a - sa) + (b - sb), c - sc)
  {
  }

  lemma SplitStep(
    due: nat, rest: nat, a: nat, b: nat, c: nat, a': int, b': int, c': int, paid: int, twice: int, once: int,
    tail: bool)
    requires a' == a - Min(due, a) && b' == b - Min(due - Min(due, a), b) && c' == c - Min(due, c)
    requires twice == paid + Min(due, a) + Min(due - Min(due, a), b) && once == paid + Min(due, c)
    requires tail <==> SameUpTo(rest, a' + b', c')
    ensures twice == once && tail <==> SameUpTo(due + rest, a + b, c)
  {
    SplitArithmetic(due, rest, a, b, c);
    hide SameUpTo;
  }

  lemma ReceivableStep(invoices: seq<Invoice>, cp: string)
    ensures Receivable(invoices, cp) ==
            if invoices == [] then 0 else Due(invoices[0], cp) + Receivable(invoices[1..], cp)
  {
  }

  lemma PassedStep(invoices: seq<Invoice>, cp: string, left: real, out: seq<Invoice>, left': real)
    requires PassedOverAll(invoices, cp, left, out, left')
    ensures |out| == |invoices|
    ensures invoices != [] ==>
              && PassedOver(invoices[0], cp, left, out[0], Carry(left, Due(invoices[0], cp)))
              && PassedOverAll(invoices[1..], cp, Carry(left, Due(invoices[0], cp)), out[1..], left')
  {
    hide PassedOver, Carry;
  }

  lemma MinOfNone(a: int, b: int)
    requires a >= 0 && b >= 0
    ensures SameUpTo(0, a, b)
  {
  }

  lemma NotNegative(x: real)
    requires x >= 0.0
    ensures HalfUp(x) >= 0
  {
    HalfUpOfInt(0);
    HalfUpMonotone(0.0, x);
  }

  /** One invoice of a split, given what is said of the invoices after it. */
  lemma HeadOfSplit(
    inv: Invoice, cp: string, a: real, b: real, c: real, first: Invoice, rest: real, second: Invoice, left: real,
    once: Invoice, left': real, owed: nat, tail: bool)
    requires a >= 0.0 && b >= 0.0 && c >= 0.0
    requires PassedOver(inv, cp, a, first, rest) && PassedOver(first, cp, b, second, left) &&
             PassedOver(inv, cp, c, once, left')
    requires tail <==> SameUpTo(owed, HalfUp(rest) + HalfUp(left), HalfUp(left'))
    ensures PaidSum(second.payments) == PaidSum(once.payments) && tail <==>
            SameUpTo(Due(inv, cp) + owed, HalfUp(a) + HalfUp(b), HalfUp(c))
  {
    hide *;
    NotNegative(a);
    NotNegative(b);
    NotNegative(c);
    PaidTwice(inv, cp, a, b, c, first, rest, second, left, once, left');
    SplitStep(Due(inv, cp), owed, HalfUp(a), HalfUp(b), HalfUp(c), HalfUp(rest), HalfUp(left), HalfUp(left'),
              PaidSum(inv.payments), PaidSum(second.payments), PaidSum(once.payments), tail);
  }

  lemma {:induction false} PaidOfSplit(
    invoices: seq<Invoice>, cp: string, a: real, b: real, c: real, first: seq<Invoice>, rest: real,
    second: seq<Invoice>, left: real, once: seq<Invoice>, left': real)
    requires a >= 0.0 && b >= 0.0 && c >= 0.0
    requires PassedOverAll(invoices, cp, a, first, rest) && PassedOverAll(first, cp, b, second, left)
    requires PassedOverAll(invoices, cp, c, once, left')
    ensures SamePaid(second, once) <==> SameUpTo(Receivable(invoices, cp), HalfUp(a) + HalfUp(b), HalfUp(c))
  {
    hide *;
    PassedStep(invoices, cp, a, first, rest);
    PassedStep(first, cp, b, second, left);
    PassedStep(invoices, cp, c, once, left');
    ReceivableStep(invoices, cp);
    if invoices == [] {
      NothingToPay(second, once);
      NotNegative(a);
      NotNegative(b);
      NotNegative(c);
      MinOfNone(HalfUp(a) + HalfUp(b), HalfUp(c));
    } else {
      var inv, tail := invoices[0], invoices[1..];
      var due, due' := Due(inv, cp), Due(first[0], cp);
      var a', b', c' := Carry(a, due), Carry(b, due'), Carry(c, due);
      CarryIsPositive(a, due);
      CarryIsPositive(b, due');
      CarryIsPositive(c, due);
      PaidOfSplit(tail, cp, a', b', c', first[1..], rest, second[1..], left, once[1..], left');
      HeadOfSplit(inv, cp, a, b, c, first[0], a', second[0], b', once[0], c', Receivable(tail, cp),
        SamePaid(second[1..], once[1..]));
      SamePaidHeadTail(second, once);
    }
  }

  lemma CarryIsPositive(left: real, due: nat)
    requires left >= 0.0
    ensures Carry(left, due) >= 0.0
  {
  }

  lemma NothingToPay(a: seq<Invoice>, b: seq<Invoice>)
    requires a == [] && b == []
    ensures SamePaid(a, b)
  {
  }

  /** For amounts of any precision: allocating `a` and then `b` pays every invoice what `a + b` at once pays,
      exactly when rounding the two amounts separately makes no difference below what is owed. */
  lemma SplitPaysTheSameIff(invoices: seq<Invoice>, cp: string, tx: nat, tx': nat, a: real, b: real)
    requires a >= 0.0 && b >= 0.0
    ensures SamePaid(Allocate(Allocate(invoices, cp, tx, a).0, cp, tx', b).0, Allocate(invoices, cp, tx', a + b).0) <==>
            SameUpTo(Receivable(invoices, cp), HalfUp(a) + HalfUp(b), HalfUp(a + b))
  {
    hide PassedOverAll, SamePaid, Allocate;
    var (first, rest) := Allocate(invoices, cp, tx, a);
    var (second, left) := Allocate(first, cp, tx', b);
    var (once, left') := Allocate(invoices, cp, tx', a + b);
    AllocateLaws(invoices, cp, tx, a);
    AllocateLaws(first, cp, tx', b);
    AllocateLaws(invoices, cp, tx', a + b);
    PaidOfSplit(invoices, cp, a, b, a + b, first, rest, second, left, once, left');
  }

  /** With a finer amount first, rounding twice shows: one and a half units twice pay four units, three units pay
      three. */
  lemma SplitOfFineAmounts(inv: Invoice, cp: string, tx: nat, tx': nat)
    requires Due(inv, cp) >= 4
    ensures var twice := Allocate(Allocate([inv], cp, tx, 1.5).0, cp, tx', 1.5).0[0];
            var once := Allocate([inv], cp, tx', 3.0).0[0];
            PaidSum(twice.payments) == PaidSum(inv.payments) + 4 && PaidSum(once.payments) == PaidSum(inv.payments) + 3
  {
    assert HalfUp(1.5) == 2 && HalfUp(3.0) == 3;
    hide HalfUp, DerivePaymentState, PaidSum, Due;
    var first := Allocate([inv], cp, tx, 1.5).0;
    AllocateLaws([inv], cp, tx, 1.5);
    AllocateLaws(first, cp, tx', 1.5);
    AllocateLaws([inv], cp, tx', 3.0);
  }
}
