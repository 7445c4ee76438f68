/** Netting against the ledger: exactness of one netting, conservation over sequences of nettings, and
    what holds when checks and commits of concurrent requests interleave. */
module NettingRuns {
  import opened Wrappers
  import opened Money
  import opened Ledger
  import opened LedgerLaws
  import opened Netting
  import opened NettingLaws

  // ----- The journal

  function NettingLines(amount: real, postVat: bool): seq<Line> {
    NettingJournal("", amount, postVat, Date(0, 0)).lines
  }

  /** The journal is accepted by `validateBalance` and stays balanced when stored, with and without VAT lines. */
  lemma NettingJournalBalances(amount: real, postVat: bool)
    requires amount > 0.0
    ensures BalanceError(NettingLines(amount, postVat)).None? && Skew(NettingLines(amount, postVat)) == 0
  {
    var vat := VatPortion(amount) as real;
    VatIsPositive(amount);
    HalfUpOfInt(0);
    HalfUpOfInt(VatPortion(amount));
    hide VatPortion;
    var a, b, c, d := Line(PAYABLE, amount, 0.0), Line(RECEIVABLE, 0.0, amount), Line(VAT_INPUT, vat, 0.0),
      Line(VAT_OUTPUT, 0.0, vat);
    var lines := NettingLines(amount, postVat);
    SumsOfTwo(a, b);
    if postVat {
      assert lines == [a, b, c, d];
      SumsOfFour(a, b, c, d);
    } else {
      assert lines == [a, b];
    }
  }

  lemma VatIsPositive(amount: real)
    requires amount > 0.0
    ensures VatPortion(amount) >= 0
  {
    HalfUpMonotone(0.0, amount * 18.0 / 118.0);
    HalfUpOfInt(0);
  }

  lemma SumsOfTwo(a: Line, b: Line)
    ensures SumDebit([a, b]) == a.debit + b.debit && SumCredit([a, b]) == a.credit + b.credit
    ensures Skew([a, b]) == HalfUp(a.debit) - HalfUp(a.credit) + HalfUp(b.debit) - HalfUp(b.credit)
  {
    assert [a, b][..1] == [a] && [a][..0] == [];
    assert SumDebit([a]) == a.debit && SumCredit([a]) == a.credit && Skew([a]) == HalfUp(a.debit) - HalfUp(a.credit);
  }

  lemma SumsOfFour(a: Line, b: Line, c: Line, d: Line)
    ensures SumDebit([a, b, c, d]) == a.debit + b.debit + c.debit + d.debit
    ensures SumCredit([a, b, c, d]) == a.credit + b.credit + c.credit + d.credit
    ensures Skew([a, b, c, d]) == Skew([a, b]) + HalfUp(c.debit) - HalfUp(c.credit) + HalfUp(d.debit) - HalfUp(d.credit)
  {
    hide HalfUp;
    assert [a, b, c, d][..3] == [a, b, c] && [a, b, c][..2] == [a, b];
    SumsOfTwo(a, b);
  }

  /** The tax included in an amount with 18 percent of tax: 18/118 of it, to the nearest unit, half a unit upwards. */
  predicate IsTaxIn(amount: real, tax: int) {
    -59.0 < 118.0 * tax as real - 18.0 * amount <= 59.0
  }

  lemma VatPortionIsTheTax(amount: real, tax: int)
    requires amount > 0.0
    ensures tax == VatPortion(amount) <==> IsTaxIn(amount, tax)
  {
    var exact := amount * 18.0 / 118.0;
    assert 118.0 * exact == 18.0 * amount;
    HalfUpIsNearest(exact, tax);
    HalfUpMonotone(0.0, exact);
    HalfUpOfInt(0);
  }

  /** What a netting with a given tax moves on an account. */
  function Moves(amount: real, postVat: bool, tax: int, code: string): int {
    if code == "531" then HalfUp(amount)
    else if code == "211" then -HalfUp(amount)
    else if postVat && code == "241" then tax
    else if postVat && code == "541" then -tax
    else 0
  }

  /** The stored journal debits 531 and credits 211 by the stored amount; with VAT it debits 241 and credits 541 by the
      tax included. It moves nothing else in NAS, and it counts for the counterparty and as a netting. */
  lemma NetOfNetting(
    b: Books, cp: string, amount: real, postVat: bool, date: Date, tax: int, code: string, f: TxFilter)
    requires b.WellFormed() && Post(b, NettingJournal(cp, amount, postVat, date)).Success?
    requires amount > 0.0 && IsTaxIn(amount, tax)
    ensures var b' := Post(b, NettingJournal(cp, amount, postVat, date)).value;
            var sel := Selection(NAS, Some({code}), f);
            && b'.WellFormed()
            && Turnover(b', sel) == Turnover(b, sel) +
                 (if PicksTx(b'.txs, f, |b.txs|) then Moves(amount, postVat, tax, code) else 0)
            && b'.txs[|b.txs|] == TxRow(date, NettingRef(cp), true, Some(cp))
  {
    VatPortionIsTheTax(amount, tax);
    hide HalfUp, JournalError, VatPortion, IsTaxIn, Net;
    var j := NettingJournal(cp, amount, postVat, date);
    TurnoverOfPost(b, j, Selection(NAS, Some({code}), f));
    NetOfNettingEntries(Post(b, j).value.txs, j.lines, Mirror(b.rules, b.ifrs, j.lines, |b.txs|), |b.txs|, amount,
      postVat, code, f);
  }

  lemma NetOfNettingEntries(
    txs: seq<TxRow>, lines: seq<Line>, shadow: seq<Entry>, tx: nat, amount: real, postVat: bool, code: string,
    f: TxFilter)
    requires lines == NettingJournal("", amount, postVat, Date(0, 0)).lines
    requires forall i :: 0 <= i < |shadow| ==> shadow[i].ledger == IFRS
    ensures Net(txs, StoreAll(lines, tx, NAS) + shadow, Selection(NAS, Some({code}), f)) ==
            if PicksTx(txs, f, tx) then Moves(amount, postVat, VatPortion(amount), code) else 0
  {
    hide HalfUp, Net, VatPortion;
    var own, sel := StoreAll(lines, tx, NAS), Selection(NAS, Some({code}), f);
    NetAppend(txs, own, shadow, sel);
    NetNone(txs, shadow, sel);
    HalfUpOfInt(0);
    HalfUpOfInt(VatPortion(amount));
    NetOfPair(txs, own[0], own[1], sel);
    if postVat {
      assert own == [own[0], own[1]] + [own[2], own[3]];
      NetAppend(txs, [own[0], own[1]], [own[2], own[3]], sel);
      NetOfPair(txs, own[2], own[3], sel);
    } else {
      assert own == [own[0], own[1]];
    }
  }

  lemma NetOfPair(txs: seq<TxRow>, e: Entry, f: Entry, sel: Selection)
    ensures Net(txs, [e, f], sel) ==
            (if Picks(txs, sel, e) then e.debit - e.credit else 0) +
              if Picks(txs, sel, f) then f.debit - f.credit else 0
  {
    assert [e, f][..1] == [e];
    NetOfEntry(txs, e, sel);
  }

  // ----- One netting

  /** What a committed netting does, whatever was checked before: the receivable falls by the stored
      amount as far as it goes, the national payable by the whole of it. */
  lemma CommitEffect(s: State, cp: string, amount: real, postVat: bool, date: Date)
    requires s.books.WellFormed() && amount > 0.0 && Commit(s, cp, amount, postVat, date).Success?
    ensures var s' := Commit(s, cp, amount, postVat, date).value;
            && s'.books.WellFormed()
            && s' == s.(books := s'.books, invoices := s'.invoices)
            && s'.books.nas == s.books.nas && s'.books.ifrs == s.books.ifrs && s'.books.lock == s.books.lock &&
              s'.books.closed == s.books.closed
            && Receivable(s'.invoices, cp) ==
              Receivable(s.invoices, cp) - Min(HalfUp(amount), Receivable(s.invoices, cp))
            && HalfUp(amount) <= Receivable(s.invoices, cp) + 1
            && PayableNet(s'.books, cp, NAS) == PayableNet(s.books, cp, NAS) - HalfUp(amount)
            && forall other :: other != cp ==>
                 && Receivable(s'.invoices, other) == Receivable(s.invoices, other)
                 && PayableNet(s'.books, other, NAS) == PayableNet(s.books, other, NAS)
  {
    hide Allocate, Receivable, HalfUp, PayableNet, Post, NettingJournal, Carry;
    var j, t := NettingJournal(cp, amount, postVat, date), |s.books.txs|;
    PostKeepsSettings(s.books, j);
    PayableAfter(s.books, cp, amount, postVat, date, cp);
    ReceivableAfter(s.invoices, cp, t, amount);
    LeftoverBound(amount, Receivable(s.invoices, cp));
    forall other | other != cp
      ensures Receivable(Allocate(s.invoices, cp, t, amount).0, other) == Receivable(s.invoices, other)
      ensures PayableNet(Post(s.books, j).value, other, NAS) == PayableNet(s.books, other, NAS)
    {
      ReceivableOfOthers(s.invoices, cp, other, t, amount);
      PayableAfter(s.books, cp, amount, postVat, date, other);
    }
  }

  /** A commit goes through exactly when its journal is accepted and the invoices take the amount but for one unit. */
  lemma CommitSucceedsIff(s: State, cp: string, amount: real, postVat: bool, date: Date)
    requires amount > 0.0
    ensures Commit(s, cp, amount, postVat, date).Success? <==>
            && Post(s.books, NettingJournal(cp, amount, postVat, date)).Success?
            && amount <= Receivable(s.invoices, cp) as real + 1.0
  {
    hide Allocate, Receivable, Post, NettingJournal;
    ReceivableAfter(s.invoices, cp, |s.books.txs|, amount);
  }

  lemma PostKeepsSettings(b: Books, j: Journal)
    requires Post(b, j).Success?
    ensures var b' := Post(b, j).value;
            b'.nas == b.nas && b'.ifrs == b.ifrs && b'.lock == b.lock && b'.closed == b.closed
  {
    hide JournalError, EntriesOf;
  }

  lemma LeftoverBound(amount: real, owed: nat)
    requires Carry(amount, owed) <= 1.0
    ensures HalfUp(amount) <= owed + 1
  {
    HalfUpMonotone(amount, (owed + 1) as real);
    HalfUpOfInt(owed + 1);
  }

  lemma PayableAfter(b: Books, cp: string, amount: real, postVat: bool, date: Date, of: string)
    requires amount > 0.0 && b.WellFormed() && Post(b, NettingJournal(cp, amount, postVat, date)).Success?
    ensures var b' := Post(b, NettingJournal(cp, amount, postVat, date)).value;
            b'.WellFormed() && PayableNet(b', of, NAS) == PayableNet(b, of, NAS) -
              if of == cp then HalfUp(amount) else 0
  {
    hide HalfUp, VatPortion, Net, JournalError;
    VatPortionIsTheTax(amount, VatPortion(amount));
    NetOfNetting(b, cp, amount, postVat, date, VatPortion(amount), PAYABLE, WithCounterparty(of));
  }

  /** A netting checked against NAS lowers receivable and payable by exactly the stored amount. */
  lemma NettingIsExact(s: State, cp: string, amount: real, date: Date)
    requires s.books.WellFormed() && Create(s, cp, amount, NAS, date).Success?
    ensures var s' := Create(s, cp, amount, NAS, date).value;
            && Receivable(s'.invoices, cp) == Receivable(s.invoices, cp) - HalfUp(amount)
            && Payable(s'.books, cp, NAS) == Payable(s.books, cp, NAS) - HalfUp(amount)
  {
    hide Receivable, PayableNet, HalfUp;
    var max := Min(Receivable(s.invoices, cp), Payable(s.books, cp, NAS));
    HalfUpMonotone(amount, max as real);
    HalfUpOfInt(max);
    CommitEffect(s, cp, amount, Check(s, cp, amount, NAS).value, date);
  }

  /** Both sides pay VAT, and the two VAT accounts are in the chart that was checked. */
  predicate PostsVat(s: State, cp: string, ledger: LedgerType) {
    && s.orgIsVatPayer && cp in s.counterparties && s.counterparties[cp]
    && {"241", "541"} <= if ledger.IFRS? then s.books.ifrs else s.books.nas
  }

  /** What `createNetting` moves on each national account. */
  lemma CreateMoves(s: State, cp: string, amount: real, ledger: LedgerType, date: Date, tax: int, code: string)
    requires s.books.WellFormed() && Create(s, cp, amount, ledger, date).Success? && IsTaxIn(amount, tax)
    ensures var sel := Selection(NAS, Some({code}), AnyTx);
            Turnover(Create(s, cp, amount, ledger, date).value.books, sel) ==
            Turnover(s.books, sel) + Moves(amount, PostsVat(s, cp, ledger), tax, code)
  {
    hide Receivable, Payable, HalfUp, Allocate, NettingJournal, Net, Post;
    NetOfNetting(s.books, cp, amount, PostsVat(s, cp, ledger), date, tax, code, AnyTx);
  }

  /** What a rejected netting is rejected for. */
  lemma NettingFailsFor(s: State, cp: string, amount: real, ledger: LedgerType, date: Date)
    requires Create(s, cp, amount, ledger, date).Failure?
    ensures var known := cp in s.counterparties;
            var enough :=
              amount <= Receivable(s.invoices, cp) as real && amount <= Payable(s.books, cp, ledger) as real;
            var accounts := {"211", "531"} <= if ledger.IFRS? then s.books.ifrs else s.books.nas;
            match Create(s, cp, amount, ledger, date).error
            case AmountNotPositive => amount <= 0.0
            case CounterpartyNotFound => amount > 0.0 && !known
            case ExceedsMaximum => amount > 0.0 && known && !enough
            case AccountsNotFound => amount > 0.0 && known && enough && !accounts
            case JournalRejected(e) =>
              && amount > 0.0 && known && enough && accounts
              && Post(s.books, NettingJournal(cp, amount, PostsVat(s, cp, ledger), date)) == Failure(e)
            case Leftover(_) => false
  {
    hide Receivable, Payable, HalfUp, Allocate, NettingJournal, Post;
    NettingSucceedsWhen(s, cp, amount, ledger, date);
  }

  /** Run without interference, `createNetting` never throws for an unallocated rest, and it succeeds exactly under
      these conditions. */
  lemma NettingSucceedsWhen(s: State, cp: string, amount: real, ledger: LedgerType, date: Date)
    ensures !(Create(s, cp, amount, ledger, date).Failure? && Create(s, cp, amount, ledger, date).error.Leftover?)
    ensures Create(s, cp, amount, ledger, date).Success? <==>
            && 0.0 < amount <= Min(Receivable(s.invoices, cp), Payable(s.books, cp, ledger)) as real
            && cp in s.counterparties
            && {RECEIVABLE, PAYABLE} <= s.books.Codes(ledger) && {RECEIVABLE, PAYABLE} <= s.books.nas
            && !IsFrozen(s.books, date)
            && (PostsVat(s, cp, ledger) ==> {VAT_INPUT, VAT_OUTPUT} <= s.books.nas)
  {
    hide Receivable, Payable, HalfUp, Allocate, BalanceError;
    if Check(s, cp, amount, ledger).Success? {
      var postVat := Check(s, cp, amount, ledger).value;
      var lines := NettingJournal(cp, amount, postVat, date).lines;
      assert lines == NettingLines(amount, postVat);
      NettingJournalBalances(amount, postVat);
      ReceivableAfter(s.invoices, cp, |s.books.txs|, amount);
      assert lines[0].code == PAYABLE && lines[1].code == RECEIVABLE;
      assert postVat ==> lines[2].code == VAT_INPUT && lines[3].code == VAT_OUTPUT;
    }
  }

  /** The journal is posted to NAS even when the check was made against IFRS: nothing is owed on the
      national 531, an IFRS payable of `a` lets the netting through, and the national payable goes negative. */
  lemma NettingCheckedAgainstIfrsOverdraws(s: State, cp: string, a: nat, date: Date)
    requires s.books.WellFormed() && a > 0 && Create(s, cp, a as real, IFRS, date).Success?
    requires PayableNet(s.books, cp, NAS) == 0
    ensures PayableNet(Create(s, cp, a as real, IFRS, date).value.books, cp, NAS) + a == 0
  {
    hide Receivable, PayableNet, HalfUp;
    HalfUpOfInt(a);
    CommitEffect(s, cp, a as real, Check(s, cp, a as real, IFRS).value, date);
  }

  /** The national payable is not overdrawn by a commit exactly when it covers the stored amount at that time,
      whatever was checked before and in whichever ledger; a netting checked against NAS in the same step always is. */
  lemma NettingIsCoveredIff(s: State, cp: string, amount: real, date: Date)
    requires s.books.WellFormed() && amount > 0.0
    ensures forall postVat :: Commit(s, cp, amount, postVat, date).Success? ==>
              (PayableNet(Commit(s, cp, amount, postVat, date).value.books, cp, NAS) >= 0 <==>
               HalfUp(amount) <= PayableNet(s.books, cp, NAS))
    ensures forall ledger :: Create(s, cp, amount, ledger, date).Success? ==>
              (PayableNet(Create(s, cp, amount, ledger, date).value.books, cp, NAS) >= 0 <==>
               HalfUp(amount) <= PayableNet(s.books, cp, NAS))
    ensures Create(s, cp, amount, NAS, date).Success? ==> HalfUp(amount) <= PayableNet(s.books, cp, NAS)
  {
    hide Receivable, PayableNet, HalfUp, Commit;
    forall postVat | Commit(s, cp, amount, postVat, date).Success?
      ensures PayableNet(Commit(s, cp, amount, postVat, date).value.books, cp, NAS) ==
              PayableNet(s.books, cp, NAS) - HalfUp(amount)
    {
      CommitEffect(s, cp, amount, postVat, date);
    }
    if Create(s, cp, amount, NAS, date).Success? {
      var payable := Payable(s.books, cp, NAS);
      HalfUpMonotone(amount, payable as real);
      HalfUpOfInt(payable);
    }
  }

  /** Such a state exists. */
  lemma IfrsOnlyPayableExists()
    ensures var b := Books({PAYABLE, RECEIVABLE}, {PAYABLE, RECEIVABLE}, {}, [], {}, None,
                           [TxRow(Date(0, 0), Text(""), true, Some("cp"))],
                           [Entry(0, IFRS, PAYABLE, 0, 5)]);
            var s := State(b, [Invoice("cp", true, 5, [], Sent, false)], map["cp" := false], false);
            && s.books.WellFormed() && PayableNet(b, "cp", NAS) == 0
            && Create(s, "cp", 5.0, IFRS, Date(1, 1)).Success?
  {
    var b := Books({PAYABLE, RECEIVABLE}, {PAYABLE, RECEIVABLE}, {}, [], {}, None,
                   [TxRow(Date(0, 0), Text(""), true, Some("cp"))],
                   [Entry(0, IFRS, PAYABLE, 0, 5)]);
    var s := State(b, [Invoice("cp", true, 5, [], Sent, false)], map["cp" := false], false);
    NetOfEntry(b.txs, b.entries[0], Selection(NAS, Some({PAYABLE}), WithCounterparty("cp")));
    NetOfEntry(b.txs, b.entries[0], Selection(IFRS, Some({PAYABLE}), WithCounterparty("cp")));
    assert Payable(b, "cp", IFRS) == 5;
    assert Receivable(s.invoices, "cp") == 5;
    NettingSucceedsWhen(s, "cp", 5.0, IFRS, Date(1, 1));
  }

  // ----- Sequences of nettings

  datatype Request = Request(cp: string, amount: real, date: Date)

  function CreateOrKeep(s: State, r: Request): State {
    match Create(s, r.cp, r.amount, NAS, r.date)
    case Success(s') => s'
    case Failure(_) => s
  }

  function CreateAll(s: State, rs: seq<Request>): State
    decreases |rs|
  {
    if rs == [] then s else CreateAll(CreateOrKeep(s, rs[0]), rs[1..])
  }

  /** The stored amounts of the accepted nettings of one counterparty. */
  function Netted(s: State, rs: seq<Request>, cp: string): int
    decreases |rs|
  {
    if rs == [] then 0
    else
      var accepted := Create(s, rs[0].cp, rs[0].amount, NAS, rs[0].date).Success? && rs[0].cp == cp;
      (if accepted then HalfUp(rs[0].amount) else 0) + Netted(CreateOrKeep(s, rs[0]), rs[1..], cp)
  }

  /** Netting conserves: over any sequence of requests, what was netted is exactly what receivable and
      payable lost, so it never exceeds the smaller of the two initial balances. */
  lemma {:induction false} NettingConserves(s: State, rs: seq<Request>, cp: string)
    requires s.books.WellFormed()
    ensures Receivable(CreateAll(s, rs).invoices, cp) == Receivable(s.invoices, cp) - Netted(s, rs, cp)
    ensures Payable(CreateAll(s, rs).books, cp, NAS) == Payable(s.books, cp, NAS) - Netted(s, rs, cp)
    ensures Netted(s, rs, cp) <= Min(Receivable(s.invoices, cp), Payable(s.books, cp, NAS))
    decreases |rs|
  {
    hide Receivable, PayableNet, HalfUp, Commit;
    if rs != [] {
      var r := rs[0];
      if Create(s, r.cp, r.amount, NAS, r.date).Success? {
        CommitEffect(s, r.cp, r.amount, Check(s, r.cp, r.amount, NAS).value, r.date);
        NettingIsExact(s, r.cp, r.amount, r.date);
      }
      NettingConserves(CreateOrKeep(s, r), rs[1..], cp);
    }
  }

  // ----- Interleaved requests

  /** A request that has passed its checks and has not opened its transaction yet. */
  datatype Approval = Approval(cp: string, amount: real, postVat: bool)

  datatype Session = Session(state: State, approvals: seq<Approval>)

  /** Requests run in two steps; payments and other journals come in between. */
  datatype Op =
    | Approve(cp: string, amount: real, ledger: LedgerType)
    | Complete(k: nat, date: Date)
    | Pay(i: nat, paid: int)
    | PostOther(journal: Journal)

  predicate Allowed(op: Op) {
    op.PostOther? ==> !op.journal.reference.NettingRef?
  }

  predicate Commits(x: Session, op: Op) {
    && op.Complete? && op.k < |x.approvals|
    && Commit(x.state, x.approvals[op.k].cp, x.approvals[op.k].amount, x.approvals[op.k].postVat, op.date).Success?
  }

  function Step(x: Session, op: Op): Session {
    match op
    case Approve(cp, amount, ledger) =>
      (match Check(x.state, cp, amount, ledger)
       case Failure(_) => x
       case Success(postVat) => x.(approvals := x.approvals + [Approval(cp, amount, postVat)]))
    case Complete(k, date) =>
      if k >= |x.approvals| then x
      else
        var a := x.approvals[k];
        var rest := x.approvals[..k] + x.approvals[k + 1..];
        (match Commit(x.state, a.cp, a.amount, a.postVat, date)
         case Failure(_) => x.(approvals := rest)
         case Success(s') => Session(s', rest))
    case Pay(i, amount) =>
      if i >= |x.state.invoices| then x
      else
        var inv := x.state.invoices[i];
        x.(state := x.state.(invoices := x.state.invoices[i := inv.(payments := inv.payments +
          [Payment(amount, None)])]))
    case PostOther(j) => x.(state := x.state.(books := PostOrKeep(x.state.books, j)))
  }

  function Run(x: Session, ops: seq<Op>): Session {
    if ops == [] then x else Step(Run(x, ops[..|ops| - 1]), ops[|ops| - 1])
  }

  function CommitCount(x: Session, ops: seq<Op>): nat {
    if ops == [] then 0
    else CommitCount(x, ops[..|ops| - 1]) + if Commits(Run(x, ops[..|ops| - 1]), ops[|ops| - 1]) then 1 else 0
  }

  predicate IsNettingLink(txs: seq<TxRow>, p: Payment) {
    p.tx.Some? && p.tx.value < |txs| && txs[p.tx.value].reference.NettingRef?
  }

  function LinkedPaid(txs: seq<TxRow>, payments: seq<Payment>): int {
    if payments == [] then 0
    else
      var p := payments[|payments| - 1];
      LinkedPaid(txs, payments[..|payments| - 1]) + if IsNettingLink(txs, p) then p.amount else 0
  }

  /** The invoice payments linked to netting transactions. */
  function Linked(txs: seq<TxRow>, invoices: seq<Invoice>): int {
    if invoices == [] then 0 else LinkedPaid(txs, invoices[0].payments) + Linked(txs, invoices[1..])
  }

  /** Credits of 211 in netting transactions beyond the invoice payments linked to them. */
  function Gap(s: State): int {
    -Turnover(s.books, Selection(NAS, Some({RECEIVABLE}), NettingTx)) - Linked(s.books.txs, s.invoices)
  }

  predicate PaymentsKnown(txs: seq<TxRow>, payments: seq<Payment>) {
    forall i :: 0 <= i < |payments| && payments[i].tx.Some? ==> payments[i].tx.value < |txs|
  }

  predicate LinksKnown(s: State) {
    s.books.WellFormed() && forall i :: 0 <= i < |s.invoices| ==> PaymentsKnown(s.books.txs, s.invoices[i].payments)
  }

  predicate ApprovalsPositive(x: Session) {
    forall i :: 0 <= i < |x.approvals| ==> x.approvals[i].amount > 0.0
  }

  lemma {:induction false} LinkedPaidGrows(txs: seq<TxRow>, row: TxRow, payments: seq<Payment>)
    requires PaymentsKnown(txs, payments)
    ensures LinkedPaid(txs + [row], payments) == LinkedPaid(txs, payments)
  {
    if payments != [] {
      LinkedPaidGrows(txs, row, payments[..|payments| - 1]);
    }
  }

  lemma {:induction false} LinkedGrows(txs: seq<TxRow>, row: TxRow, invoices: seq<Invoice>)
    requires forall i :: 0 <= i < |invoices| ==> PaymentsKnown(txs, invoices[i].payments)
    ensures Linked(txs + [row], invoices) == Linked(txs, invoices)
  {
    if invoices != [] {
      LinkedPaidGrows(txs, row, invoices[0].payments);
      LinkedGrows(txs, row, invoices[1..]);
    }
  }

  lemma LinkedPaidAdd(txs: seq<TxRow>, payments: seq<Payment>, p: Payment)
    ensures LinkedPaid(txs, payments + [p]) == LinkedPaid(txs, payments) + if IsNettingLink(txs, p) then p.amount else 0
  {
    assert (payments + [p])[..|payments + [p]| - 1] == payments;
  }

  /** The rows an allocation creates are linked to its transaction and carry what the receivable lost. */
  lemma {:induction false} LinkedByAllocation(
    txs: seq<TxRow>, invoices: seq<Invoice>, cp: string, tx: nat, amount: real)
    requires amount >= 0.0 && tx < |txs| && txs[tx].reference.NettingRef?
    ensures var out := Allocate(invoices, cp, tx, amount).0;
            Linked(txs, out) - Linked(txs, invoices) == Receivable(invoices, cp) - Receivable(out, cp)
  {
    if invoices != [] {
      var inv, pass := invoices[0], PayInvoice(invoices[0], cp, tx, amount);
      PayInvoiceLaws(inv, cp, tx, amount);
      LinkedByAllocation(txs, invoices[1..], cp, tx, pass.1);
      if pass.0 != inv {
        var p := pass.0.payments[|inv.payments|];
        LinkedPaidAdd(txs, inv.payments, p);
        PaidSumAdd(inv.payments, p);
        assert pass.0.payments == inv.payments + [p];
      }
      AllocateStep(invoices, cp, tx, amount);
    }
  }

  lemma AllocateStep(invoices: seq<Invoice>, cp: string, tx: nat, left: real)
    requires invoices != []
    ensures var r, head := Allocate(invoices, cp, tx, left), PayInvoice(invoices[0], cp, tx, left);
            r.0[0] == head.0 && (r.0[1..], r.1) == Allocate(invoices[1..], cp, tx, head.1)
  {
  }

  lemma {:induction false} LinksKnownAfter(txs: seq<TxRow>, invoices: seq<Invoice>, cp: string, tx: nat, amount: real)
    requires forall i :: 0 <= i < |invoices| ==> PaymentsKnown(txs, invoices[i].payments)
    requires tx < |txs|
    ensures var out := Allocate(invoices, cp, tx, amount).0;
            forall i :: 0 <= i < |out| ==> PaymentsKnown(txs, out[i].payments)
  {
    if invoices != [] {
      var head := PayInvoice(invoices[0], cp, tx, amount);
      LinksKnownAfter(txs, invoices[1..], cp, tx, head.1);
      AllocateStep(invoices, cp, tx, amount);
      var out := Allocate(invoices, cp, tx, amount).0;
      assert PaymentsKnown(txs, head.0.payments);
      assert forall i :: 1 <= i < |out| ==> out[i] == out[1..][i - 1];
    }
  }

  /** One commit opens a gap of at most one unit, 0.0001 AZN, however stale its checks are. */
  lemma GapOfCommit(s: State, cp: string, amount: real, postVat: bool, date: Date)
    requires LinksKnown(s) && amount > 0.0 && Commit(s, cp, amount, postVat, date).Success?
    ensures var s' := Commit(s, cp, amount, postVat, date).value;
            LinksKnown(s') && Gap(s) <= Gap(s') <= Gap(s) + 1
  {
    hide Allocate, Receivable, HalfUp, Linked, PaymentsKnown;
    var s' := Commit(s, cp, amount, postVat, date).value;
    var t, j := |s.books.txs|, NettingJournal(cp, amount, postVat, date);
    var row := TxRow(j.date, j.reference, j.isFinal, j.counterparty);
    assert s'.books.txs == s.books.txs + [row];
    VatPortionIsTheTax(amount, VatPortion(amount));
    NetOfNetting(s.books, cp, amount, postVat, date, VatPortion(amount), RECEIVABLE, NettingTx);
    CommitEffect(s, cp, amount, postVat, date);
    LinkedGrows(s.books.txs, row, s.invoices);
    LinkedByAllocation(s'.books.txs, s.invoices, cp, t, amount);
    KnownGrows(s.books.txs, row, s.invoices);
    LinksKnownAfter(s'.books.txs, s.invoices, cp, t, amount);
  }

  lemma KnownGrows(txs: seq<TxRow>, row: TxRow, invoices: seq<Invoice>)
    requires forall i :: 0 <= i < |invoices| ==> PaymentsKnown(txs, invoices[i].payments)
    ensures forall i :: 0 <= i < |invoices| ==> PaymentsKnown(txs + [row], invoices[i].payments)
  {
  }

  lemma {:induction false} LinkedOfPay(txs: seq<TxRow>, invoices: seq<Invoice>, i: nat, amount: int)
    requires i < |invoices|
    ensures var inv := invoices[i].(payments := invoices[i].payments + [Payment(amount, None)]);
            Linked(txs, invoices[i := inv]) == Linked(txs, invoices)
  {
    var inv := invoices[i].(payments := invoices[i].payments + [Payment(amount, None)]);
    if i == 0 {
      LinkedPaidAdd(txs, invoices[0].payments, Payment(amount, None));
      assert invoices[0 := inv][1..] == invoices[1..];
    } else {
      LinkedOfPay(txs, invoices[1..], i - 1, amount);
      assert invoices[i := inv][1..] == invoices[1..][i - 1 := inv];
    }
  }

  lemma GapOfOther(s: State, j: Journal)
    requires LinksKnown(s) && !j.reference.NettingRef?
    ensures var s' := s.(books := PostOrKeep(s.books, j)); LinksKnown(s') && Gap(s') == Gap(s)
  {
    hide BalanceError, Net, EntriesOf, Linked;
    if Post(s.books, j).Success? {
      var sel := Selection(NAS, Some({RECEIVABLE}), NettingTx);
      TurnoverOfPost(s.books, j, sel);
      PostedEntries(s.books, j);
      NetNone(Post(s.books, j).value.txs, EntriesOf(s.books, j), sel);
      LinkedGrows(s.books.txs, TxRow(j.date, j.reference, j.isFinal, j.counterparty), s.invoices);
    }
  }

  lemma GapOfStep(x: Session, op: Op)
    requires LinksKnown(x.state) && ApprovalsPositive(x) && Allowed(op)
    ensures var x' := Step(x, op);
            && LinksKnown(x'.state) && ApprovalsPositive(x')
            && Gap(x.state) <= Gap(x'.state) <= Gap(x.state) + if Commits(x, op) then 1 else 0
  {
    hide Commit, Gap, PostOrKeep, Linked;
    match op
    case Approve(_, _, _) =>
    case Complete(k, date) =>
      if Commits(x, op) {
        var a := x.approvals[k];
        GapOfCommit(x.state, a.cp, a.amount, a.postVat, date);
      }
    case Pay(i, amount) =>
      if i < |x.state.invoices| {
        LinkedOfPay(x.state.books.txs, x.state.invoices, i, amount);
        GapByLinks(x.state, Step(x, op).state);
      }
    case PostOther(j) => GapOfOther(x.state, j);
  }

  lemma GapByLinks(s: State, s': State)
    requires s'.books == s.books && Linked(s.books.txs, s'.invoices) == Linked(s.books.txs, s.invoices)
    ensures Gap(s') == Gap(s)
  {
  }

  /** Under any interleaving of checks, commits, payments and other journals, the credits of 211 by n
      committed nettings exceed the invoice payments linked to them by between 0 and n units. */
  lemma {:induction false} GapOverInterleavings(x: Session, ops: seq<Op>)
    requires LinksKnown(x.state) && ApprovalsPositive(x)
    requires forall i :: 0 <= i < |ops| ==> Allowed(ops[i])
    ensures LinksKnown(Run(x, ops).state) && ApprovalsPositive(Run(x, ops))
    ensures Gap(x.state) <= Gap(Run(x, ops).state) <= Gap(x.state) + CommitCount(x, ops)
  {
    hide Gap, Step, Commits;
    if ops != [] {
      GapOverInterleavings(x, ops[..|ops| - 1]);
      GapOfStep(Run(x, ops[..|ops| - 1]), ops[|ops| - 1]);
    }
  }

  // ----- The payable over interleavings

  /** Credits minus debits of 531 as they are stored. */
  function PayableLines(lines: seq<Line>): int {
    if lines == [] then 0
    else
      var line := lines[|lines| - 1];
      PayableLines(lines[..|lines| - 1]) + if line.code == PAYABLE then HalfUp(line.credit) - HalfUp(line.debit) else 0
  }

  /** What another journal adds to the national payable of a counterparty, if it is accepted. */
  function PayableMoved(b: Books, j: Journal, cp: string): int {
    if Post(b, j).Success? && j.ledger == NAS && j.counterparty == Some(cp) then PayableLines(j.lines) else 0
  }

  lemma {:induction false} NetOfPayableLines(txs: seq<TxRow>, lines: seq<Line>, tx: nat, cp: string)
    ensures Net(txs, StoreAll(lines, tx, NAS), Selection(NAS, Some({PAYABLE}), WithCounterparty(cp))) ==
            if PicksTx(txs, WithCounterparty(cp), tx) then -PayableLines(lines) else 0
  {
    if lines != [] {
      var n := |lines| - 1;
      NetOfPayableLines(txs, lines[..n], tx, cp);
      assert StoreAll(lines, tx, NAS)[..n] == StoreAll(lines[..n], tx, NAS);
    }
  }

  lemma PayableOfOther(b: Books, j: Journal, cp: string)
    requires b.WellFormed()
    ensures PostOrKeep(b, j).WellFormed()
    ensures PayableNet(PostOrKeep(b, j), cp, NAS) == PayableNet(b, cp, NAS) + PayableMoved(b, j, cp)
  {
    hide JournalError, Net, PayableLines, Mirror;
    if Post(b, j).Success? {
      var b', t := Post(b, j).value, |b.txs|;
      var sel := Selection(NAS, Some({PAYABLE}), WithCounterparty(cp));
      var own := StoreAll(j.lines, t, j.ledger);
      var shadow := if j.ledger == NAS then Mirror(b.rules, b.ifrs, j.lines, t) else [];
      TurnoverOfPost(b, j, sel);
      NetAppend(b'.txs, own, shadow, sel);
      MirrorIsIfrs(b.rules, b.ifrs, j.lines, t);
      NetNone(b'.txs, shadow, sel);
      if j.ledger == NAS {
        NetOfPayableLines(b'.txs, j.lines, t, cp);
      } else {
        NetNone(b'.txs, own, sel);
      }
    }
  }

  lemma MirrorIsIfrs(rules: seq<Rule>, ifrs: set<string>, lines: seq<Line>, tx: nat)
    ensures forall i :: 0 <= i < |Mirror(rules, ifrs, lines, tx)| ==> Mirror(rules, ifrs, lines, tx)[i].ledger == IFRS
  {
  }

  /** The stored amounts of the nettings of a counterparty that were committed. */
  function Committed(x: Session, ops: seq<Op>, cp: string): int {
    if ops == [] then 0
    else
      var x', op := Run(x, ops[..|ops| - 1]), ops[|ops| - 1];
      Committed(x, ops[..|ops| - 1], cp) +
      if Commits(x', op) && x'.approvals[op.k].cp == cp then HalfUp(x'.approvals[op.k].amount) else 0
  }

  /** What other journals added to the payable of a counterparty. */
  function MovedByOthers(x: Session, ops: seq<Op>, cp: string): int {
    if ops == [] then 0
    else
      var x', op := Run(x, ops[..|ops| - 1]), ops[|ops| - 1];
      MovedByOthers(x, ops[..|ops| - 1], cp) + if op.PostOther? then PayableMoved(x'.state.books, op.journal, cp) else 0
  }

  lemma PayableOfStep(x: Session, op: Op, cp: string)
    requires x.state.books.WellFormed() && ApprovalsPositive(x)
    ensures var x' := Step(x, op);
            && x'.state.books.WellFormed() && ApprovalsPositive(x')
            && PayableNet(x'.state.books, cp, NAS) ==
               PayableNet(x.state.books, cp, NAS)
               - (if Commits(x, op) && x.approvals[op.k].cp == cp then HalfUp(x.approvals[op.k].amount) else 0)
               + (if op.PostOther? then PayableMoved(x.state.books, op.journal, cp) else 0)
  {
    hide Commit, PayableNet, PostOrKeep, PayableMoved, Receivable, HalfUp;
    match op
    case Approve(_, _, _) =>
    case Complete(k, date) =>
      if Commits(x, op) {
        var a := x.approvals[k];
        CommitEffect(x.state, a.cp, a.amount, a.postVat, date);
      }
    case Pay(_, _) =>
    case PostOther(j) => PayableOfOther(x.state.books, j, cp);
  }

  /** Under any interleaving of checks, commits, payments and other journals, the national payable of a counterparty
      is what it was, less its committed nettings, plus what other journals put on 531; so it is not overdrawn
      exactly when the committed nettings do not exceed the rest. */
  lemma {:induction false} PayableOverInterleavings(x: Session, ops: seq<Op>, cp: string)
    requires x.state.books.WellFormed() && ApprovalsPositive(x)
    ensures Run(x, ops).state.books.WellFormed() && ApprovalsPositive(Run(x, ops))
    ensures PayableNet(Run(x, ops).state.books, cp, NAS) ==
            PayableNet(x.state.books, cp, NAS) - Committed(x, ops, cp) + MovedByOthers(x, ops, cp)
    ensures PayableNet(Run(x, ops).state.books, cp, NAS) >= 0 <==>
            Committed(x, ops, cp) <= PayableNet(x.state.books, cp, NAS) + MovedByOthers(x, ops, cp)
  {
    hide Step, Commits, PayableNet, PayableMoved, HalfUp;
    if ops != [] {
      PayableOverInterleavings(x, ops[..|ops| - 1], cp);
      PayableOfStep(Run(x, ops[..|ops| - 1]), ops[|ops| - 1], cp);
    }
  }

  /** The payable is not protected: two requests for the whole payable that are both checked before
      either commits are both committed whenever the receivable covers them, and overdraw it. */
  lemma InterleavedNettingsOverdraw(s: State, cp: string, a: nat, date: Date)
    requires s.books.WellFormed() && Create(s, cp, a as real, NAS, date).Success?
    requires Payable(s.books, cp, NAS) == a && Receivable(s.invoices, cp) >= 2 * a
    ensures var ops := [Approve(cp, a as real, NAS), Approve(cp, a as real, NAS), Complete(0, date), Complete(0, date)];
            PayableNet(Run(Session(s, []), ops).state.books, cp, NAS) + a == 0
  {
    hide Receivable, PayableNet, HalfUp, Commit, Run, Step, Check;
    var op, commit := Approve(cp, a as real, NAS), Complete(0, date);
    ApprovedIsPositive(s, cp, a, date);
    var postVat := Check(s, cp, a as real, NAS).value;
    var approval := Approval(cp, a as real, postVat);
    var s1 := Commit(s, cp, a as real, postVat, date).value;
    HalfUpOfInt(a);
    CommitEffect(s, cp, a as real, postVat, date);
    CommitSucceedsAgain(s, s1, cp, a, postVat, date);
    CommitEffect(s1, cp, a as real, postVat, date);
    RunOfFour(Session(s, []), op, op, commit, commit);
    StepOfApprove(Session(s, []), op, postVat);
    StepOfApprove(Session(s, [approval]), op, postVat);
    assert [] + [approval] == [approval] && [approval] + [approval] == [approval, approval];
    StepOfComplete(s, [approval, approval], date);
    assert [approval, approval][1..] == [approval] && [approval][1..] == [];
    StepOfComplete(s1, [approval], date);
  }

  lemma ApprovedIsPositive(s: State, cp: string, a: nat, date: Date)
    requires Create(s, cp, a as real, NAS, date).Success?
    ensures Check(s, cp, a as real, NAS).Success? && a > 0
    ensures Commit(s, cp, a as real, Check(s, cp, a as real, NAS).value, date).Success?
  {
    hide Receivable, Payable, Commit;
  }

  lemma RunOfFour(x: Session, a: Op, b: Op, c: Op, d: Op)
    ensures Run(x, [a, b, c, d]) == Step(Step(Step(Step(x, a), b), c), d)
  {
    hide Step;
    assert [a, b, c, d][..3] == [a, b, c] && [a, b, c][..2] == [a, b] && [a, b][..1] == [a] && [a][..0] == [];
    assert Run(x, []) == x;
    assert Run(x, [a]) == Step(x, a);
    assert Run(x, [a, b]) == Step(Step(x, a), b);
    assert Run(x, [a, b, c]) == Step(Step(Step(x, a), b), c);
  }

  lemma StepOfApprove(x: Session, op: Op, postVat: bool)
    requires op.Approve? && Check(x.state, op.cp, op.amount, op.ledger) == Success(postVat)
    ensures Step(x, op) == x.(approvals := x.approvals + [Approval(op.cp, op.amount, postVat)])
  {
    hide Check;
  }

  lemma StepOfComplete(s: State, approvals: seq<Approval>, date: Date)
    requires approvals != [] && Commit(s, approvals[0].cp, approvals[0].amount, approvals[0].postVat, date).Success?
    ensures var a := approvals[0];
            Step(Session(s, approvals), Complete(0, date)) ==
            Session(Commit(s, a.cp, a.amount, a.postVat, date).value, approvals[1..])
  {
    hide Commit;
    assert approvals[..0] + approvals[1..] == approvals[1..];
  }

  /** Such a state exists. */
  lemma OverdrawableStateExists()
    ensures var b := Books({PAYABLE, RECEIVABLE}, {}, {}, [], {}, None,
                           [TxRow(Date(0, 0), Text(""), true, Some("cp"))],
                           [Entry(0, NAS, PAYABLE, 0, 5)]);
            var s := State(b, [Invoice("cp", true, 10, [], Sent, false)], map["cp" := false], false);
            && s.books.WellFormed() && Create(s, "cp", 5.0, NAS, Date(1, 1)).Success?
            && Payable(b, "cp", NAS) == 5 && Receivable(s.invoices, "cp") >= 2 * 5
  {
    var b := Books({PAYABLE, RECEIVABLE}, {}, {}, [], {}, None,
                   [TxRow(Date(0, 0), Text(""), true, Some("cp"))],
                   [Entry(0, NAS, PAYABLE, 0, 5)]);
    var s := State(b, [Invoice("cp", true, 10, [], Sent, false)], map["cp" := false], false);
    NetOfEntry(b.txs, b.entries[0], Selection(NAS, Some({PAYABLE}), WithCounterparty("cp")));
    assert Payable(b, "cp", NAS) == 5;
    assert Receivable(s.invoices, "cp") == 10;
    NettingSucceedsWhen(s, "cp", 5.0, NAS, Date(1, 1));
  }

  lemma CommitSucceedsAgain(s: State, s1: State, cp: string, a: nat, postVat: bool, date: Date)
    requires a > 0 && Commit(s, cp, a as real, postVat, date) == Success(s1)
    requires Receivable(s1.invoices, cp) >= a
    ensures Commit(s1, cp, a as real, postVat, date).Success?
  {
    hide BalanceError, Receivable;
    ReceivableAfter(s1.invoices, cp, |s1.books.txs|, a as real);
  }
}
