/** One organization: all the services that post to the ledger, over whole runs. Every operation acts on
    the ledger as a run of ledger events, so the laws of `LedgerRuns` hold of the organization. */
module Organization {
  import opened Wrappers
  import opened Money
  import opened Ledger
  import opened LedgerLaws
  import opened LedgerRuns
  import Netting
  import NettingRuns
  import Depreciation
  import DepreciationLaws
  import FxRevaluation

  /** A revaluation in flight: settings read, journal made out from the balances, journal posted. */
  datatype FxRun =
    | Reading(base: FxRevaluation.Settings)
    | Prepared(base: FxRevaluation.Settings, journal: Journal, newRates: map<string, real>, month: int)
    | Posted(base: FxRevaluation.Settings, newRates: map<string, real>, month: int)

  datatype Org = Org(
    books: Books,
    invoices: seq<Netting.Invoice>, counterparties: map<string, bool>, orgIsVatPayer: bool,
    assets: seq<Depreciation.Asset>, months: seq<Depreciation.MonthRow>,
    lastPostedMonth: Option<int>, rates: map<string, real>, fx: map<nat, FxRun>)
  {
    function ForNetting(): Netting.State {
      Netting.State(books, invoices, counterparties, orgIsVatPayer)
    }

    function ForDepreciation(): Depreciation.State {
      Depreciation.State(books, assets, months)
    }

    function ForFx(): FxRevaluation.State {
      FxRevaluation.State(books, orgIsVatPayer, lastPostedMonth, rates)
    }
  }

  /** `Commit` is the second half of a netting whose checks were made in an earlier state, of an amount that is
      positive. A revaluation reads the settings, makes out the journal, posts it and writes the settings, and
      anything can come between. The last three operations stand for the rest of the application: it may change the
      other tables in any way. */
  datatype Op =
    | Manual(journal: Journal)
    | Net(cp: string, amount: real, checkedIn: LedgerType, date: Date)
    | Commit(cp: string, amount: real, postVat: bool, date: Date)
    | Depreciate(end: Date)
    | ClosePeriod(end: Date)
    | FxRead(run: nat)
    | FxPrepare(run: nat, accounts: seq<FxRevaluation.Account>, asOf: Date, final: map<string, real>)
    | FxPost(run: nat)
    | FxPersist(run: nat)
    | SetLock(until: Option<int>)
    | Configure(nas: set<string>, ifrs: set<string>, departments: set<string>, rules: seq<Rule>)
    | EditInvoices(invoices: seq<Netting.Invoice>, counterparties: map<string, bool>, orgIsVatPayer: bool)
    | EditAssets(assets: seq<Depreciation.Asset>, months: seq<Depreciation.MonthRow>)

  function AfterNetting(o: Org, r: Result<Netting.State, Netting.Error>): Org {
    match r
    case Success(s) => o.(books := s.books, invoices := s.invoices)
    case Failure(_) => o
  }

  function AfterDepreciation(o: Org, r: Result<Depreciation.State, Ledger.Error>): Org {
    match r
    case Success(s) => o.(books := s.books, assets := s.assets, months := s.months)
    case Failure(_) => o
  }

  function PrepareFx(o: Org, r: nat, accounts: seq<FxRevaluation.Account>, asOf: Date, final: map<string, real>): Org {
    if r !in o.fx || !o.fx[r].Reading? then o
    else
      var base := o.fx[r].base;
      if base.lastPostedMonth == Some(asOf.month) then o.(fx := o.fx - {r})
      else
        var journal := FxRevaluation.RevaluationJournal(o.books, base.rates, accounts, asOf, final);
        var rates := FxRevaluation.NewRates(o.books, base.rates, final, accounts);
        o.(fx := o.fx[r := Prepared(base, journal, rates, asOf.month)])
  }

  function PostFx(o: Org, r: nat): Org {
    if r !in o.fx || !o.fx[r].Prepared? then o
    else
      var Prepared(base, journal, rates, month) := o.fx[r];
      if journal.lines == [] then o.(fx := o.fx[r := Posted(base, rates, month)])
      else
        match Post(o.books, journal)
        case Success(b) => o.(books := b, fx := o.fx[r := Posted(base, rates, month)])
        case Failure(_) => o.(fx := o.fx - {r})
  }

  function PersistFx(o: Org, r: nat): Org {
    if r !in o.fx || !o.fx[r].Posted? then o
    else
      var Posted(base, rates, month) := o.fx[r];
      var s := FxRevaluation.Persist(o.ForFx(), base, month, rates);
      o.(books := s.books, orgIsVatPayer := s.isVatPayer, lastPostedMonth := s.lastPostedMonth, rates := s.rates,
        fx := o.fx - {r})
  }

  function Step(o: Org, op: Op): Org {
    match op
    case Manual(j) => o.(books := PostOrKeep(o.books, j))
    case Net(cp, amount, checkedIn, date) =>
      AfterNetting(o, Netting.Create(o.ForNetting(), cp, amount, checkedIn, date))
    case Commit(cp, amount, postVat, date) =>
      if amount <= 0.0 then o else AfterNetting(o, Netting.Commit(o.ForNetting(), cp, amount, postVat, date))
    case Depreciate(end) => AfterDepreciation(o, Depreciation.Apply(o.ForDepreciation(), end))
    case ClosePeriod(end) =>
      var r := Depreciation.Apply(o.ForDepreciation(), end);
      var o' := AfterDepreciation(o, r);
      if r.Success? then o'.(books := o'.books.(closed := o'.books.closed + {end.month})) else o
    case FxRead(r) => o.(fx := o.fx[r := Reading(o.ForFx().Read())])
    case FxPrepare(r, accounts, asOf, final) => PrepareFx(o, r, accounts, asOf, final)
    case FxPost(r) => PostFx(o, r)
    case FxPersist(r) => PersistFx(o, r)
    case SetLock(until) => o.(books := o.books.(lock := until))
    case Configure(nas, ifrs, departments, rules) =>
      o.(books := o.books.(nas := nas, ifrs := ifrs, departments := departments, rules := rules))
    case EditInvoices(invoices, counterparties, vat) =>
      o.(invoices := invoices, counterparties := counterparties, orgIsVatPayer := vat)
    case EditAssets(assets, months) => o.(assets := assets, months := months)
  }

  function RunAll(o: Org, ops: seq<Op>): Org
    decreases |ops|
  {
    if ops == [] then o else RunAll(Step(o, ops[0]), ops[1..])
  }

  // ----- Operations as ledger events

  function NettingEvents(o: Org, cp: string, amount: real, postVat: bool, date: Date): seq<Event> {
    if Netting.Commit(o.ForNetting(), cp, amount, postVat, date).Success?
    then [Posting(Netting.NettingJournal(cp, amount, postVat, date))] else []
  }

  function DepreciationEvents(o: Org, end: Date): seq<Event> {
    var rows := Depreciation.Rows(o.assets, o.months, end);
    if rows == [] then [] else [Posting(Depreciation.DepreciationJournal(rows, end))]
  }

  function Events(o: Org, op: Op): seq<Event> {
    match op
    case Manual(j) => [Posting(j)]
    case Net(cp, amount, checkedIn, date) =>
      (match Netting.Check(o.ForNetting(), cp, amount, checkedIn)
       case Success(postVat) => NettingEvents(o, cp, amount, postVat, date)
       case Failure(_) => [])
    case Commit(cp, amount, postVat, date) => if amount <= 0.0 then [] else NettingEvents(o, cp, amount, postVat, date)
    case Depreciate(end) => DepreciationEvents(o, end)
    case ClosePeriod(end) =>
      if Depreciation.Apply(o.ForDepreciation(), end).Success?
      then DepreciationEvents(o, end) + [LedgerRuns.CloseMonth(end.month)] else []
    case FxRead(_) => []
    case FxPrepare(_, _, _, _) => []
    case FxPost(r) => if r in o.fx && o.fx[r].Prepared? && o.fx[r].journal.lines != [] then [Posting(o.fx[r].journal)]
      else []
    case FxPersist(r) =>
      if r in o.fx && o.fx[r].Posted? then [LedgerRuns.WriteSettings(o.fx[r].base.closed, o.fx[r].base.lock)] else []
    case SetLock(until) => [LedgerRuns.SetLock(until)]
    case Configure(nas, ifrs, departments, rules) => [LedgerRuns.Configure(nas, ifrs, departments, rules)]
    case EditInvoices(_, _, _) => []
    case EditAssets(_, _) => []
  }

  function AllEvents(o: Org, ops: seq<Op>): seq<Event>
    decreases |ops|
  {
    if ops == [] then [] else Events(o, ops[0]) + AllEvents(Step(o, ops[0]), ops[1..])
  }

  lemma RunOfOne(b: Books, e: Event)
    ensures LedgerRuns.Run(b, []) == b && LedgerRuns.Run(b, [e]) == Apply(b, e)
  {
    assert [e][..0] == [];
  }

  lemma RunOfTwo(b: Books, e: Event, f: Event)
    ensures LedgerRuns.Run(b, [e, f]) == Apply(Apply(b, e), f)
  {
    assert [e, f][..1] == [e];
    RunOfOne(b, e);
  }

  lemma NettingIsEvents(o: Org, cp: string, amount: real, postVat: bool, date: Date)
    ensures AfterNetting(o, Netting.Commit(o.ForNetting(), cp, amount, postVat, date)).books ==
            LedgerRuns.Run(o.books, NettingEvents(o, cp, amount, postVat, date))
  {
    hide Netting.Allocate, Netting.NettingJournal, JournalError;
    RunOfOne(o.books, Posting(Netting.NettingJournal(cp, amount, postVat, date)));
  }

  lemma DepreciationIsEvents(o: Org, end: Date)
    ensures AfterDepreciation(o, Depreciation.Apply(o.ForDepreciation(), end)).books ==
            LedgerRuns.Run(o.books, DepreciationEvents(o, end))
    ensures Depreciation.Apply(o.ForDepreciation(), end).Success? ==>
              LedgerRuns.Run(o.books, DepreciationEvents(o, end) + [LedgerRuns.CloseMonth(end.month)]) ==
              Apply(LedgerRuns.Run(o.books, DepreciationEvents(o, end)), LedgerRuns.CloseMonth(end.month))
  {
    hide Depreciation.Rows, Depreciation.DepreciationJournal, JournalError;
    var rows := Depreciation.Rows(o.assets, o.months, end);
    RunOfOne(o.books, Posting(Depreciation.DepreciationJournal(rows, end)));
    RunOfOne(o.books, LedgerRuns.CloseMonth(end.month));
    RunOfTwo(o.books, Posting(Depreciation.DepreciationJournal(rows, end)), LedgerRuns.CloseMonth(end.month));
  }

  lemma RunOfNone(b: Books)
    ensures LedgerRuns.Run(b, []) == b
  {
  }

  lemma FxIsEvents(o: Org, op: Op)
    requires op.FxRead? || op.FxPrepare? || op.FxPost? || op.FxPersist?
    ensures Step(o, op).books == LedgerRuns.Run(o.books, Events(o, op))
  {
    hide Post, FxRevaluation.RevaluationJournal, FxRevaluation.NewRates, LedgerRuns.Run;
    RunOfNone(o.books);
    if op.FxPost? && op.run in o.fx && o.fx[op.run].Prepared? {
      RunOfOne(o.books, Posting(o.fx[op.run].journal));
    }
    if op.FxPersist? && op.run in o.fx && o.fx[op.run].Posted? {
      RunOfOne(o.books, LedgerRuns.WriteSettings(o.fx[op.run].base.closed, o.fx[op.run].base.lock));
    }
  }

  lemma StepIsEvents(o: Org, op: Op)
    ensures Step(o, op).books == LedgerRuns.Run(o.books, Events(o, op))
  {
    hide Netting.Commit, Netting.Check, NettingEvents, DepreciationEvents, Depreciation.Apply, JournalError,
      LedgerRuns.Run;
    hide PrepareFx, PostFx, PersistFx;
    RunOfNone(o.books);
    match op
    case Manual(j) => RunOfOne(o.books, Posting(j));
    case Net(cp, amount, checkedIn, date) =>
      if Netting.Check(o.ForNetting(), cp, amount, checkedIn).Success? {
        NettingIsEvents(o, cp, amount, Netting.Check(o.ForNetting(), cp, amount, checkedIn).value, date);
      }
    case Commit(cp, amount, postVat, date) => NettingIsEvents(o, cp, amount, postVat, date);
    case Depreciate(end) => DepreciationIsEvents(o, end);
    case ClosePeriod(end) =>
      RunOfOne(o.books, LedgerRuns.CloseMonth(end.month));
      DepreciationIsEvents(o, end);
    case FxRead(_) => FxIsEvents(o, op);
    case FxPrepare(_, _, _, _) => FxIsEvents(o, op);
    case FxPost(_) => FxIsEvents(o, op);
    case FxPersist(_) => FxIsEvents(o, op);
    case SetLock(until) => RunOfOne(o.books, LedgerRuns.SetLock(until));
    case Configure(nas, ifrs, departments, rules) =>
      RunOfOne(o.books, LedgerRuns.Configure(nas, ifrs, departments, rules));
    case EditInvoices(_, _, _) =>
    case EditAssets(_, _) =>
  }

  /** A revaluation that nothing comes between does what `Revalue` says. */
  lemma RevaluationInOneGo(o: Org, r: nat, accounts: seq<FxRevaluation.Account>, asOf: Date, final: map<string, real>)
    requires r in o.fx && o.fx[r].Reading?
    ensures var o' := PersistFx(PostFx(PrepareFx(o, r, accounts, asOf, final), r), r);
            o'.ForFx() == match FxRevaluation.Revalue(o.ForFx(), o.fx[r].base, accounts, asOf, final)
                          case Success(s) => s
                          case Failure(_) => o.ForFx()
  {
    hide Post, FxRevaluation.RevaluationJournal, FxRevaluation.NewRates;
  }

  /** The ledger of an organization after any operations is the ledger after their events. */
  lemma {:induction false} RunIsEvents(o: Org, ops: seq<Op>)
    ensures RunAll(o, ops).books == LedgerRuns.Run(o.books, AllEvents(o, ops))
    decreases |ops|
  {
    hide Step, Events;
    if ops != [] {
      StepIsEvents(o, ops[0]);
      RunIsEvents(Step(o, ops[0]), ops[1..]);
      RunOfConcat(o.books, Events(o, ops[0]), AllEvents(Step(o, ops[0]), ops[1..]));
    }
  }

  // ----- The ledger stays in balance

  predicate AllStoredInBalance(es: seq<Event>) {
    forall i :: 0 <= i < |es| ==> StoredInBalance(es[i])
  }

  lemma NettingEventsBalance(o: Org, cp: string, amount: real, postVat: bool, date: Date)
    requires amount > 0.0
    ensures AllStoredInBalance(NettingEvents(o, cp, amount, postVat, date))
  {
    hide Netting.Commit, BalanceError, Skew;
    NettingRuns.NettingJournalBalances(amount, postVat);
    assert Netting.NettingJournal(cp, amount, postVat, date).lines == NettingRuns.NettingLines(amount, postVat);
  }

  lemma DepreciationEventsBalance(o: Org, end: Date)
    ensures AllStoredInBalance(DepreciationEvents(o, end))
  {
    hide Depreciation.Charge, BalanceError, Skew;
    var rows := Depreciation.Rows(o.assets, o.months, end);
    DepreciationLaws.RowsPositive(o.assets, o.months, end);
    if rows != [] {
      DepreciationLaws.DepreciationJournalBalances(rows, end);
    }
  }

  /** The journals made out and not yet posted. */
  ghost predicate PreparedInBalance(o: Org) {
    forall r :: r in o.fx && o.fx[r].Prepared? ==> StoredInBalance(Posting(o.fx[r].journal))
  }

  lemma StepKeepsPrepared(o: Org, op: Op)
    requires PreparedInBalance(o)
    ensures PreparedInBalance(Step(o, op))
  {
    hide Netting.Commit, Netting.Check, Depreciation.Apply, Post, StoredInBalance;
    if op.FxPrepare? && op.run in o.fx && o.fx[op.run].Reading? {
      PreparedIsStored(o.books, o.fx[op.run].base.rates, op.accounts, op.asOf, op.final);
    }
    hide FxRevaluation.RevaluationJournal, FxRevaluation.NewRates;
  }

  lemma PreparedIsStored(
    b: Books, rates: map<string, real>, accounts: seq<FxRevaluation.Account>, asOf: Date, final: map<string, real>)
    ensures StoredInBalance(Posting(FxRevaluation.RevaluationJournal(b, rates, accounts, asOf, final)))
  {
    hide FxRevaluation.RevaluationJournal, Skew;
    if FxRevaluation.RevaluationJournal(b, rates, accounts, asOf, final).lines != [] {
      FxRevaluation.RevaluationJournalBalances(b, rates, accounts, asOf, final);
    }
  }

  /** The three producers post journals that are stored in balance. */
  lemma EventsBalance(o: Org, op: Op)
    requires PreparedInBalance(o) && !op.Manual?
    ensures AllStoredInBalance(Events(o, op))
  {
    hide NettingEvents, DepreciationEvents, BalanceError, Skew, Depreciation.Apply;
    match op
    case Net(cp, amount, checkedIn, date) =>
      if Netting.Check(o.ForNetting(), cp, amount, checkedIn).Success? {
        NettingEventsBalance(o, cp, amount, Netting.Check(o.ForNetting(), cp, amount, checkedIn).value, date);
      }
    case Commit(cp, amount, postVat, date) => if amount > 0.0 { NettingEventsBalance(o, cp, amount, postVat, date); }
    case Depreciate(end) => DepreciationEventsBalance(o, end);
    case ClosePeriod(end) => DepreciationEventsBalance(o, end);
    case _ =>
  }

  lemma {:induction false} StoredKeepsBalance(b: Books, es: seq<Event>)
    requires b.WellFormed() && AllStoredInBalance(es)
    ensures LedgerRuns.Run(b, es).WellFormed() && (InBalance(LedgerRuns.Run(b, es)) <==> InBalance(b))
  {
    hide InBalance, Apply, Skew, BalanceError;
    if es != [] {
      var n := |es| - 1;
      StoredKeepsBalance(b, es[..n]);
      RunKeepsWellFormed(b, es);
      ApplyKeepsBalance(LedgerRuns.Run(b, es[..n]), es[n]);
      AcceptedIsBalanced(LedgerRuns.Run(b, es[..n]), es[n]);
    }
  }

  lemma AcceptedIsBalanced(b: Books, e: Event)
    requires StoredInBalance(e)
    ensures KeptInBalance(b, e)
  {
    hide BalanceError, Skew;
  }

  /** A manual journal that is accepted is stored in balance. */
  predicate ManualKept(o: Org, op: Op) {
    op.Manual? && Post(o.books, op.journal).Success? ==> Skew(op.journal.lines) == 0
  }

  predicate ManualsKept(o: Org, ops: seq<Op>)
    decreases |ops|
  {
    ops == [] || (ManualKept(o, ops[0]) && ManualsKept(Step(o, ops[0]), ops[1..]))
  }

  lemma StepBalance(o: Org, op: Op)
    requires o.books.WellFormed() && PreparedInBalance(o)
    ensures Step(o, op).books.WellFormed()
    ensures InBalance(Step(o, op).books) <==> InBalance(o.books) && ManualKept(o, op)
  {
    hide InBalance, Events, Skew, Apply, Post;
    StepIsEvents(o, op);
    if op.Manual? {
      ManualIsOne(o, op);
      RunOfOne(o.books, Posting(op.journal));
      RunKeepsWellFormed(o.books, Events(o, op));
      ApplyKeepsBalance(o.books, Posting(op.journal));
    } else {
      hide Step;
      EventsBalance(o, op);
      StoredKeepsBalance(o.books, Events(o, op));
    }
  }

  lemma ManualIsOne(o: Org, op: Op)
    requires op.Manual?
    ensures Events(o, op) == [Posting(op.journal)]
  {
  }

  /** In every state an organization reaches by netting, depreciation, revaluation, closing and manual journals,
      accepted or rejected, every transaction balances in NAS and in IFRS, and so do both trial balances, exactly
      when every manual journal accepted on the way is stored in balance: the producers' always are. */
  lemma {:induction false} OrganizationStaysInBalance(o: Org, ops: seq<Op>)
    requires o.books.WellFormed() && PreparedInBalance(o)
    ensures InBalance(RunAll(o, ops).books) <==> InBalance(o.books) && ManualsKept(o, ops)
    decreases |ops|
  {
    hide InBalance, Step, ManualKept, PreparedInBalance;
    if ops != [] {
      StepBalance(o, ops[0]);
      StepKeepsPrepared(o, ops[0]);
      OrganizationStaysInBalance(Step(o, ops[0]), ops[1..]);
    }
  }

  predicate OnGridIfManual(op: Op) {
    op.Manual? ==> OffGrid(op.journal.lines) == 0
  }

  /** In particular when no manual journal has an amount finer than 0.0001 AZN. */
  lemma {:induction false} OnGridIsKept(o: Org, ops: seq<Op>)
    requires forall i :: 0 <= i < |ops| ==> OnGridIfManual(ops[i])
    ensures ManualsKept(o, ops)
    decreases |ops|
  {
    hide Step, Skew, OffGrid;
    if ops != [] {
      if ops[0].Manual? && Post(o.books, ops[0].journal).Success? {
        SkewBound(ops[0].journal.lines);
      }
      OnGridIsKept(Step(o, ops[0]), ops[1..]);
    }
  }

  // ----- Closed periods

  /** The lock is not moved back, and the settings written back by a revaluation are not older than the last closed
      month or lock. */
  predicate OpTightens(o: Org, op: Op) {
    match op
    case SetLock(until) => LaterLock(o.books.lock, until)
    case FxPersist(r) =>
      r in o.fx && o.fx[r].Posted? ==>
        o.books.closed <= o.fx[r].base.closed && LaterLock(o.books.lock, o.fx[r].base.lock)
    case _ => true
  }

  predicate SettingsTighten(o: Org, ops: seq<Op>)
    decreases |ops|
  {
    ops == [] || (OpTightens(o, ops[0]) && SettingsTighten(Step(o, ops[0]), ops[1..]))
  }

  lemma {:induction false} OnlyTightensConcat(b: Books, es: seq<Event>, fs: seq<Event>)
    requires OnlyTightens(b, es) && OnlyTightens(LedgerRuns.Run(b, es), fs)
    ensures OnlyTightens(b, es + fs)
  {
    if fs == [] {
      assert es + fs == es;
    } else {
      var n := |fs| - 1;
      OnlyTightensConcat(b, es, fs[..n]);
      assert (es + fs)[..|es + fs| - 1] == es + fs[..n];
      RunOfConcat(b, es, fs[..n]);
    }
  }

  lemma EventsTighten(o: Org, op: Op)
    requires OpTightens(o, op)
    ensures OnlyTightens(o.books, Events(o, op))
  {
    hide Depreciation.Apply, Depreciation.Rows, Netting.Commit, Netting.Check, LedgerRuns.Run, LaterLock;
    var es := Events(o, op);
    assert |es| <= 2;
    assert op.SetLock? || op.FxPersist? || forall i :: 0 <= i < |es| ==> !es[i].SetLock? && !es[i].WriteSettings?;
    RunOfNone(o.books);
    if |es| > 0 {
      var init := es[..|es| - 1];
      assert |init| > 0 ==> init[..|init| - 1] == [];
      assert OnlyTightens(o.books, []);
      assert OnlyTightens(o.books, init);
    }
  }

  lemma {:induction false} AllEventsTighten(o: Org, ops: seq<Op>)
    requires SettingsTighten(o, ops)
    ensures OnlyTightens(o.books, AllEvents(o, ops))
    decreases |ops|
  {
    hide Step, Events, OpTightens;
    if ops != [] {
      EventsTighten(o, ops[0]);
      StepIsEvents(o, ops[0]);
      AllEventsTighten(Step(o, ops[0]), ops[1..]);
      OnlyTightensConcat(o.books, Events(o, ops[0]), AllEvents(Step(o, ops[0]), ops[1..]));
    }
  }

  /** Nothing an organization does afterwards changes the entries, mirrored ones included, dated in a period that is
      closed or locked now, as long as the lock is not moved back and no revaluation writes back settings from before
      a period was closed or locked. */
  lemma OrganizationFreezesPeriods(o: Org, ops: seq<Op>)
    requires o.books.WellFormed() && SettingsTighten(o, ops)
    ensures var b := RunAll(o, ops).books;
            o.books.txs <= b.txs &&
            FrozenEntries(o.books, b.txs, b.entries) == FrozenEntries(o.books, o.books.txs, o.books.entries)
  {
    RunIsEvents(o, ops);
    AllEventsTighten(o, ops);
    ClosedPeriodsAreFrozen(o.books, AllEvents(o, ops));
  }

  // ----- Settings that are written back

  /** The months closed by the events. */
  function ClosedIn(es: seq<Event>): set<int> {
    if es == [] then {}
    else
      var e := es[|es| - 1];
      ClosedIn(es[..|es| - 1]) + if e.CloseMonth? then {e.month} else {}
  }

  predicate NoneWritesSettings(es: seq<Event>) {
    forall i :: 0 <= i < |es| ==> !es[i].WriteSettings?
  }

  lemma {:induction false} ClosedOnlyGrows(b: Books, es: seq<Event>)
    requires NoneWritesSettings(es)
    ensures LedgerRuns.Run(b, es).closed == b.closed + ClosedIn(es)
  {
    hide JournalError, EntriesOf;
    if es != [] {
      ClosedOnlyGrows(b, es[..|es| - 1]);
    }
  }

  lemma {:induction false} NoneWrites(o: Org, ops: seq<Op>)
    requires forall i :: 0 <= i < |ops| ==> !ops[i].FxPersist?
    ensures NoneWritesSettings(AllEvents(o, ops))
    decreases |ops|
  {
    hide Step, Depreciation.Apply, Depreciation.Rows, Netting.Commit, Netting.Check;
    if ops != [] {
      NoneWrites(Step(o, ops[0]), ops[1..]);
    }
  }

  /** A revaluation keeps the settings it has read. */
  lemma {:induction false} BaseStays(o: Org, ops: seq<Op>, r: nat)
    requires r in o.fx && forall i :: 0 <= i < |ops| ==> ops[i] != FxRead(r)
    ensures r in RunAll(o, ops).fx ==> RunAll(o, ops).fx[r].base == o.fx[r].base
    decreases |ops|
  {
    hide Depreciation.Apply, Netting.Commit, Netting.Check, FxRevaluation.RevaluationJournal, FxRevaluation.NewRates,
      Post;
    if ops != [] {
      if r in Step(o, ops[0]).fx {
        BaseStays(Step(o, ops[0]), ops[1..], r);
      } else {
        GoneStays(Step(o, ops[0]), ops[1..], r);
      }
    }
  }

  lemma {:induction false} GoneStays(o: Org, ops: seq<Op>, r: nat)
    requires r !in o.fx && forall i :: 0 <= i < |ops| ==> ops[i] != FxRead(r)
    ensures r !in RunAll(o, ops).fx
    decreases |ops|
  {
    hide Depreciation.Apply, Netting.Commit, Netting.Check, FxRevaluation.RevaluationJournal, FxRevaluation.NewRates,
      Post;
    if ops != [] {
      GoneStays(Step(o, ops[0]), ops[1..], r);
    }
  }

  /** A revaluation leaves the closed months and the lock as it read them. So the months closed when it writes stay
      closed exactly when none was closed since it read, but for months that were closed already. */
  lemma ClosedMonthsSurviveIff(o: Org, ops: seq<Op>, r: nat)
    requires forall i :: 0 <= i < |ops| ==> ops[i] != FxRead(r) && !ops[i].FxPersist?
    requires var before := RunAll(Step(o, FxRead(r)), ops); r in before.fx && before.fx[r].Posted?
    ensures var before := RunAll(Step(o, FxRead(r)), ops);
            var after := Step(before, FxPersist(r));
            && after.books.closed == o.books.closed && after.books.lock == o.books.lock
            && (before.books.closed <= after.books.closed <==>
                ClosedIn(AllEvents(Step(o, FxRead(r)), ops)) <= o.books.closed)
  {
    hide *;
    var read := Step(o, FxRead(r));
    ReadKeeps(o, r);
    BaseStays(read, ops, r);
    RunIsEvents(read, ops);
    NoneWrites(read, ops);
    ClosedOnlyGrows(read.books, AllEvents(read, ops));
    PersistWrites(RunAll(read, ops), r);
  }

  lemma ReadKeeps(o: Org, r: nat)
    ensures var read := Step(o, FxRead(r));
            read.books == o.books && r in read.fx && read.fx[r].base.closed == o.books.closed &&
              read.fx[r].base.lock == o.books.lock
  {
  }

  lemma PersistWrites(o: Org, r: nat)
    requires r in o.fx && o.fx[r].Posted?
    ensures var after := Step(o, FxPersist(r));
            after.books.closed == o.fx[r].base.closed && after.books.lock == o.fx[r].base.lock
  {
  }

  /** The run on which a month is reopened: it is closed after the revaluation has read the settings of an
      organization without accounts in foreign currency. Journals that were accepted before the month was closed, and
      rejected after, are accepted again. */
  lemma RevaluationReopensMonth(o: Org, r: nat, end: Date, asOf: Date)
    requires end.month !in o.books.closed && Depreciation.Apply(o.ForDepreciation(), end).Success?
    requires o.lastPostedMonth != Some(asOf.month)
    ensures var closed := Step(Step(o, FxRead(r)), ClosePeriod(end));
            var after := Step(Step(Step(closed, FxPrepare(r, [], asOf, map[])), FxPost(r)), FxPersist(r));
            && end.month in closed.books.closed && end.month !in after.books.closed
            && after.books == closed.books.(closed := o.books.closed)
            && forall j: Journal :: j.date.month == end.month && Post(o.books, j).Success? ==>
                 Post(closed.books, j).Failure? && Post(after.books, j).Success?
  {
    hide EntriesOf, Depreciation.Rows, Depreciation.BookAll, BalanceError, MissingAccount,
      Depreciation.DepreciationJournal;
    var closed := Step(Step(o, FxRead(r)), ClosePeriod(end));
    var after := Step(Step(Step(closed, FxPrepare(r, [], asOf, map[])), FxPost(r)), FxPersist(r));
    EmptyRunRestoresSettings(closed, r, asOf);
    forall j: Journal | j.date.month == end.month && Post(o.books, j).Success?
      ensures Post(closed.books, j).Failure? && Post(after.books, j).Success?
    {
      SameButClosed(o.books, closed.books, j);
    }
  }

  /** A revaluation without accounts in foreign currency changes nothing but the settings, which are put back. */
  lemma EmptyRunRestoresSettings(o: Org, r: nat, asOf: Date)
    requires r in o.fx && o.fx[r].Reading? && o.fx[r].base.lastPostedMonth != Some(asOf.month)
    ensures var after := Step(Step(Step(o, FxPrepare(r, [], asOf, map[])), FxPost(r)), FxPersist(r));
            after.books == o.books.(closed := o.fx[r].base.closed, lock := o.fx[r].base.lock)
  {
    hide EntriesOf, BalanceError, MissingAccount;
    var prepared := Step(o, FxPrepare(r, [], asOf, map[]));
    assert prepared.fx[r].journal.lines == [];
    var posted := Step(prepared, FxPost(r));
    assert posted.books == o.books && posted.fx[r].Posted?;
  }

  lemma SameButClosed(b: Books, b': Books, j: Journal)
    requires b'.nas == b.nas && b'.ifrs == b.ifrs && b'.departments == b.departments && b'.lock == b.lock
    ensures JournalError(b'.(closed := b.closed), j) == JournalError(b, j)
  {
    hide BalanceError, MissingAccount;
  }

  // ----- The IFRS shadow

  lemma {:induction false} EventsKeepMapping(o: Org, ops: seq<Op>)
    requires forall i :: 0 <= i < |ops| && ops[i].Configure? ==>
             ops[i].rules == o.books.rules && ops[i].ifrs == o.books.ifrs
    ensures KeepsMapping(o.books, AllEvents(o, ops))
    decreases |ops|
  {
    hide Depreciation.Apply, Depreciation.Rows, Netting.Commit, Netting.Check, Step;
    if ops != [] {
      var es, o' := Events(o, ops[0]), Step(o, ops[0]);
      assert forall i :: 0 <= i < |es| && es[i].Configure? ==>
             es[i].rules == o.books.rules && es[i].ifrs == o.books.ifrs;
      StepIsEvents(o, ops[0]);
      MappingKept(o.books, es);
      EventsKeepMapping(o', ops[1..]);
    }
  }

  lemma {:induction false} MappingKept(b: Books, es: seq<Event>)
    requires KeepsMapping(b, es)
    ensures LedgerRuns.Run(b, es).rules == b.rules && LedgerRuns.Run(b, es).ifrs == b.ifrs
  {
    if es != [] {
      MappingKept(b, es[..|es| - 1]);
    }
  }

  /** Whatever the organization does with fixed rules, in IFRS each account holds exactly what the mirrored
      transactions moved on the national accounts mapped to it. */
  lemma OrganizationShadowsNas(o: Org, ops: seq<Op>, target: string)
    requires o.books.WellFormed() && forall t: nat :: Shadowed(o.books, t)
    requires forall i :: 0 <= i < |ops| && ops[i].Configure? ==>
             ops[i].rules == o.books.rules && ops[i].ifrs == o.books.ifrs
    ensures var b := RunAll(o, ops).books;
            Turnover(b, Selection(IFRS, Some({target}), Among(MirroredTxs(b)))) ==
            SumOfNets(b, NAS, Sources(o.books.rules, o.books.ifrs, target), Among(MirroredTxs(b)))
  {
    RunIsEvents(o, ops);
    EventsKeepMapping(o, ops);
    IfrsIsThePushforwardOfNas(o.books, AllEvents(o, ops), target);
  }
}
