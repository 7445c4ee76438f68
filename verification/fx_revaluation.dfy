/** Month-end revaluation of the foreign-currency accounts: `FxRevaluationService.runForOrganization`. */
module FxRevaluation {
  import opened Wrappers
  import opened Money
  import opened Ledger
  import opened LedgerLaws

  /** An asset account of the national chart kept in a foreign currency, with its normalised currency code. */
  datatype Account = Account(code: string, currency: string)

  /** The settings of an organization, one JSON column: closed months, lock and tax status beside the state of the
      revaluation itself, the last month posted and the rates, AZN per unit, of the last closing. */
  datatype Settings = Settings(
    closed: set<int>, lock: Option<int>, isVatPayer: bool, lastPostedMonth: Option<int>, rates: map<string, real>)

  datatype State = State(books: Books, isVatPayer: bool, lastPostedMonth: Option<int>, rates: map<string, real>)
  {
    function Read(): Settings {
      Settings(books.closed, books.lock, isVatPayer, lastPostedMonth, rates)
    }
  }

  const GAIN := "662"
  const LOSS := "562"

  function Balance(b: Books, code: string): int {
    Turnover(b, Selection(NAS, Some({code}), AnyTx))
  }

  /** The account has a balance beyond 0.01, a foreign currency and a FINAL rate. */
  predicate IsRevalued(b: Books, final: map<string, real>, acc: Account) {
    && acc.currency !in {"", "AZN", "AZM"}
    && Abs(Balance(b, acc.code) as real) > 100.0
    && acc.currency in final
  }

  function Product(balance: int, newRate: real, oldRate: real): (r: real)
    ensures newRate == oldRate ==> r == 0.0
  {
    balance as real * (newRate - oldRate)
  }

  /** The exact difference the account is revalued by; the first closing of a currency has none. */
  function Difference(b: Books, rates: map<string, real>, final: map<string, real>, acc: Account): real {
    if !IsRevalued(b, final, acc) || acc.currency !in rates then 0.0
    else Product(Balance(b, acc.code), final[acc.currency], rates[acc.currency])
  }

  function LinesOf(code: string, diff: real): seq<Line> {
    if Abs(diff) <= 100.0 then []
    else if diff > 0.0 then [Line(code, diff, 0.0), Line(GAIN, 0.0, diff)]
    else [Line(LOSS, -diff, 0.0), Line(code, 0.0, -diff)]
  }

  function AllLines(b: Books, rates: map<string, real>, final: map<string, real>, accounts: seq<Account>): seq<Line> {
    if accounts == [] then []
    else
      var acc := accounts[|accounts| - 1];
      AllLines(b, rates, final, accounts[..|accounts| - 1]) + LinesOf(acc.code, Difference(b, rates, final, acc))
  }

  function NewRates(
    b: Books, rates: map<string, real>, final: map<string, real>, accounts: seq<Account>): map<string, real> {
    if accounts == [] then rates
    else
      var acc := accounts[|accounts| - 1];
      var before := NewRates(b, rates, final, accounts[..|accounts| - 1]);
      if IsRevalued(b, final, acc) then before[acc.currency := final[acc.currency]] else before
  }

  function RevaluationJournal(
    b: Books, rates: map<string, real>, accounts: seq<Account>, asOf: Date, final: map<string, real>): Journal {
    Journal(asOf, FxRef(asOf.month), false, None, None, NAS, AllLines(b, rates, final, accounts))
  }

  /** `persistFxState` writes the whole column: the settings as they were read, with the new state of the
      revaluation. */
  function Persist(s: State, base: Settings, month: int, rates: map<string, real>): State {
    State(s.books.(closed := base.closed, lock := base.lock), base.isVatPayer, Some(month), rates)
  }

  /** The run for one organization with the settings `base`, which were read before the run of the first one. The
      journal is a transaction of its own; when it is rejected nothing is written. */
  function Revalue(
    s: State, base: Settings, accounts: seq<Account>, asOf: Date, final: map<string, real>): Result<State, Error> {
    if base.lastPostedMonth == Some(asOf.month) then Success(s)
    else
      var j := RevaluationJournal(s.books, base.rates, accounts, asOf, final);
      var rates := NewRates(s.books, base.rates, final, accounts);
      if j.lines == [] then Success(Persist(s, base, asOf.month, rates))
      else
        match Post(s.books, j)
        case Failure(e) => Failure(e)
        case Success(b) => Success(Persist(s.(books := b), base, asOf.month, rates))
  }

  /** The lines of one account: nothing, unless it is in a foreign currency with a balance beyond 0.01, a rate of the
      last closing and a FINAL rate; then the balance times the change of the rate, beyond 0.01 again, is debited to the
      account against 662 if it is a gain, and credited to it against 562 if it is a loss. */
  predicate IsPair(b: Books, rates: map<string, real>, final: map<string, real>, acc: Account, lines: seq<Line>) {
    var balance, c := Balance(b, acc.code), acc.currency;
    if c !in {"", "AZN", "AZM"} && c in final && c in rates && (balance > 100 || balance < -100) then
      var gain := balance as real * (final[c] - rates[c]);
      && (gain > 100.0 ==> lines == [Line(acc.code, gain, 0.0), Line("662", 0.0, gain)])
      && (gain < -100.0 ==> lines == [Line("562", -gain, 0.0), Line(acc.code, 0.0, -gain)])
      && (-100.0 <= gain <= 100.0 ==> lines == [])
    else lines == []
  }

  lemma LinesAreThePair(b: Books, rates: map<string, real>, final: map<string, real>, acc: Account)
    ensures IsPair(b, rates, final, acc, LinesOf(acc.code, Difference(b, rates, final, acc)))
  {
    hide Turnover;
  }

  class FxRevaluationService {
    const accounting: AccountingService
    var isVatPayer: bool
    var lastPostedMonth: Option<int>
    var rates: map<string, real>

    ghost function Abstract(): State
      reads this, accounting
    {
      State(accounting.State(), isVatPayer, lastPostedMonth, rates)
    }

    constructor (accounting: AccountingService, isVatPayer: bool)
      ensures this.accounting == accounting && Abstract() == State(accounting.State(), isVatPayer, None, map[])
    {
      this.accounting, this.isVatPayer, lastPostedMonth, rates := accounting, isVatPayer, None, map[];
    }

    /** The settings of an organization, as the run for all organizations reads them up front. */
    method ReadSettings() returns (base: Settings)
      ensures base == Abstract().Read()
    {
      base := Settings(accounting.closed, accounting.lock, isVatPayer, lastPostedMonth, rates);
    }

    /** One pass of the loop: the lines of an account, and its new rate unless it is passed over. */
    static method RevalueAccount(b: Books, rates: map<string, real>, acc: Account, final: map<string, real>)
      returns (lines: seq<Line>, rate: Option<real>)
      ensures lines == LinesOf(acc.code, Difference(b, rates, final, acc))
      ensures rate == if IsRevalued(b, final, acc) then Some(final[acc.currency]) else None
      ensures IsPair(b, rates, final, acc, lines)
    {
      LinesAreThePair(b, rates, final, acc);
      hide Turnover, Product, IsPair;
      if acc.currency in {"", "AZN", "AZM"} {
        return [], None;
      }
      var balance := Balance(b, acc.code);
      if Abs(balance as real) <= 100.0 || acc.currency !in final {
        return [], None;
      }
      var newRate := final[acc.currency];
      var oldRate := if acc.currency in rates then rates[acc.currency] else newRate;
      var diff := Product(balance, newRate, oldRate);
      if Abs(diff) <= 100.0 {
        return [], Some(newRate);
      }
      if diff > 0.0 {
        return [Line(acc.code, diff, 0.0), Line(GAIN, 0.0, diff)], Some(newRate);
      } else {
        return [Line(LOSS, -diff, 0.0), Line(acc.code, 0.0, -diff)], Some(newRate);
      }
    }

    /** The loop over the accounts. */
    static method BuildLines(b: Books, rates: map<string, real>, accounts: seq<Account>, final: map<string, real>)
      returns (lines: seq<Line>, newRates: map<string, real>)
      ensures lines == AllLines(b, rates, final, accounts)
      ensures newRates == NewRates(b, rates, final, accounts)
    {
      hide LinesOf, Difference;
      lines, newRates := [], rates;
      for i := 0 to |accounts|
        invariant lines == AllLines(b, rates, final, accounts[..i])
        invariant newRates == NewRates(b, rates, final, accounts[..i])
      {
        assert accounts[..i + 1][..i] == accounts[..i];
        var more, rate := RevalueAccount(b, rates, accounts[i], final);
        lines := lines + more;
        if rate.Some? {
          newRates := newRates[accounts[i].currency := rate.value];
        }
      }
      assert accounts[..|accounts|] == accounts;
    }

    method RunForOrganization(base: Settings, accounts: seq<Account>, asOf: Date, final: map<string, real>)
      returns (r: Result<(), Error>)
      modifies this, accounting
      ensures r.Success? ==> Revalue(old(Abstract()), base, accounts, asOf, final) == Success(Abstract())
      ensures r.Failure? ==>
                Revalue(old(Abstract()), base, accounts, asOf, final) == Failure(r.error) &&
                  Abstract() == old(Abstract())
    {
      if base.lastPostedMonth == Some(asOf.month) {
        return Success(());
      }
      var lines, newRates := BuildLines(accounting.State(), base.rates, accounts, final);
      if |lines| > 0 {
        var posted := accounting.PostJournal(Journal(asOf, FxRef(asOf.month), false, None, None, NAS, lines));
        if posted.Failure? {
          return Failure(posted.error);
        }
      }
      PersistFxState(base, asOf.month, newRates);
      return Success(());
    }

    method PersistFxState(base: Settings, month: int, newRates: map<string, real>)
      modifies this, accounting
      ensures Abstract() == Persist(old(Abstract()), base, month, newRates)
      ensures accounting.closed == base.closed && accounting.lock == base.lock && isVatPayer == base.isVatPayer
      ensures lastPostedMonth == Some(month) && rates == newRates
      ensures accounting.State() == old(accounting.State()).(closed := base.closed, lock := base.lock)
    {
      accounting.closed, accounting.lock := base.closed, base.lock;
      isVatPayer, lastPostedMonth, rates := base.isVatPayer, Some(month), newRates;
    }
  }

  // ----- Laws

  lemma PairSums(code: string, diff: real)
    ensures var lines := LinesOf(code, diff);
            && SumDebit(lines) == SumCredit(lines) >= 0.0 && (lines != [] ==> SumDebit(lines) > 0.0)
            && Skew(lines) == 0
            && forall i :: 0 <= i < |lines| ==> !BothSides(lines[i])
  {
    var lines := LinesOf(code, diff);
    if lines != [] {
      var first := [lines[0]];
      assert lines[..1] == first && first[..0] == [];
      assert SumDebit(first) == lines[0].debit;
      assert SumCredit(first) == lines[0].credit;
      assert Skew(first) == HalfUp(lines[0].debit) - HalfUp(lines[0].credit);
      HalfUpOfInt(0);
    }
  }

  lemma {:induction false} AllLinesSums(
    b: Books, rates: map<string, real>, final: map<string, real>, accounts: seq<Account>)
    ensures var lines := AllLines(b, rates, final, accounts);
            && SumDebit(lines) == SumCredit(lines) >= 0.0 && (lines != [] ==> SumDebit(lines) > 0.0)
            && Skew(lines) == 0
            && forall i :: 0 <= i < |lines| ==> !BothSides(lines[i])
  {
    hide LinesOf, Difference, HalfUp;
    if accounts != [] {
      var acc := accounts[|accounts| - 1];
      var before, pair := AllLines(b, rates, final, accounts[..|accounts| - 1]),
        LinesOf(acc.code, Difference(b, rates, final, acc));
      AllLinesSums(b, rates, final, accounts[..|accounts| - 1]);
      PairSums(acc.code, Difference(b, rates, final, acc));
      LineSumsAdd(before, pair);
    }
  }

  /** Whatever accounts and rates, the journal is accepted by `validateBalance` and stored in balance,
      although its amounts are products of balances and rates with more than four decimals. */
  lemma RevaluationJournalBalances(
    b: Books, rates: map<string, real>, accounts: seq<Account>, asOf: Date, final: map<string, real>)
    requires RevaluationJournal(b, rates, accounts, asOf, final).lines != []
    ensures var lines := RevaluationJournal(b, rates, accounts, asOf, final).lines;
            BalanceError(lines).None? && Skew(lines) == 0
  {
    AllLinesSums(b, rates, final, accounts);
  }

  /** A gain is credited to 662, a loss debited to 562. */
  function Counterpart(diff: real): string {
    if diff > 0.0 then GAIN else LOSS
  }

  /** What one difference moves on a code: the account by the stored difference, the counterpart against it. */
  function MovedBy(acc: string, diff: real, code: string): int {
    if Abs(diff) <= 100.0 then 0
    else (if acc == code then HalfUp(diff) else 0) - (if Counterpart(diff) == code then HalfUp(diff) else 0)
  }

  function StoredDifference(
    b: Books, rates: map<string, real>, final: map<string, real>, accounts: seq<Account>, code: string): int {
    if accounts == [] then 0
    else
      var acc := accounts[|accounts| - 1];
      StoredDifference(b, rates, final, accounts[..|accounts| - 1], code) +
        MovedBy(acc.code, Difference(b, rates, final, acc), code)
  }

  /** The rates kept for the next closing: the new rate of every currency of a revalued account, the old rate of
      all others. */
  lemma {:induction false} RatesAreOfTheClosing(
    b: Books, rates: map<string, real>, final: map<string, real>, accounts: seq<Account>, c: string)
    ensures var kept := NewRates(b, rates, final, accounts);
            if c !in {"", "AZN", "AZM"} && c in final && exists i ::
                 0 <= i < |accounts| && accounts[i].currency == c && Abs(Balance(b, accounts[i].code) as real) > 100.0
            then c in kept && c in final && kept[c] == final[c]
            else (c in kept <==> c in rates) && (c in kept ==> kept[c] == rates[c])
  {
    hide Turnover;
    if accounts != [] {
      var n := |accounts| - 1;
      RatesAreOfTheClosing(b, rates, final, accounts[..n], c);
      assert forall i :: 0 <= i < n ==> accounts[..n][i] == accounts[i];
    }
  }

  lemma StoreAllAdd(xs: seq<Line>, ys: seq<Line>, tx: nat)
    ensures StoreAll(xs + ys, tx, NAS) == StoreAll(xs, tx, NAS) + StoreAll(ys, tx, NAS)
  {
  }

  lemma NetOfPair(txs: seq<TxRow>, tx: nat, acc: string, diff: real, code: string)
    ensures Net(txs, StoreAll(LinesOf(acc, diff), tx, NAS), Selection(NAS, Some({code}), AnyTx)) ==
            MovedBy(acc, diff, code)
  {
    var es := StoreAll(LinesOf(acc, diff), tx, NAS);
    if es != [] {
      assert es == [es[0], es[1]] && [es[0], es[1]][..1] == [es[0]] && [es[0]][..0] == [];
      assert Net(txs, [es[0]], Selection(NAS, Some({code}), AnyTx)) ==
             if es[0].code == code then es[0].debit - es[0].credit else 0;
      HalfUpOfInt(0);
    }
  }

  lemma {:induction false} NetOfLines(
    txs: seq<TxRow>, tx: nat, b: Books, rates: map<string, real>, final: map<string, real>, accounts: seq<Account>,
    code: string)
    ensures Net(txs, StoreAll(AllLines(b, rates, final, accounts), tx, NAS), Selection(NAS, Some({code}), AnyTx)) ==
            StoredDifference(b, rates, final, accounts, code)
  {
    hide LinesOf, Difference, HalfUp, MovedBy;
    if accounts != [] {
      var acc := accounts[|accounts| - 1];
      var before, pair := AllLines(b, rates, final, accounts[..|accounts| - 1]),
        LinesOf(acc.code, Difference(b, rates, final, acc));
      NetOfLines(txs, tx, b, rates, final, accounts[..|accounts| - 1], code);
      StoreAllAdd(before, pair, tx);
      NetAppend(txs, StoreAll(before, tx, NAS), StoreAll(pair, tx, NAS), Selection(NAS, Some({code}), AnyTx));
      NetOfPair(txs, tx, acc.code, Difference(b, rates, final, acc), code);
    }
  }

  /** A run with settings that do not show the month as posted moves each account by its stored difference, credits
      662 by the gains, debits 562 by the losses, and leaves every other account alone. */
  lemma RevaluationMovesAccounts(
    s: State, base: Settings, accounts: seq<Account>, asOf: Date, final: map<string, real>, code: string)
    requires s.books.WellFormed() && base.lastPostedMonth != Some(asOf.month)
    requires Revalue(s, base, accounts, asOf, final).Success?
    ensures Balance(Revalue(s, base, accounts, asOf, final).value.books, code) ==
            Balance(s.books, code) + StoredDifference(s.books, base.rates, final, accounts, code)
  {
    hide JournalError, AllLines, StoredDifference, Net, NewRates;
    var j := RevaluationJournal(s.books, base.rates, accounts, asOf, final);
    var sel := Selection(NAS, Some({code}), AnyTx);
    if j.lines != [] {
      var b' := Post(s.books, j).value;
      var own, shadow := StoreAll(j.lines, |s.books.txs|, NAS),
        Mirror(s.books.rules, s.books.ifrs, j.lines, |s.books.txs|);
      TurnoverOfPost(s.books, j, sel);
      NetAppend(b'.txs, own, shadow, sel);
      NetNone(b'.txs, shadow, sel);
      NetOfLines(b'.txs, |s.books.txs|, s.books, base.rates, final, accounts, code);
    } else {
      NetOfLines(s.books.txs, 0, s.books, base.rates, final, accounts, code);
      NetNone(s.books.txs, StoreAll(j.lines, 0, NAS), sel);
    }
  }

  /** What a run writes to the settings, besides the rates: those that were read, whatever they are by then, and the
      month. A month that they show as posted is not revalued again. */
  lemma RevaluationWritesBack(
    s: State, base: Settings, accounts: seq<Account>, asOf: Date, final: map<string, real>)
    requires Revalue(s, base, accounts, asOf, final).Success?
    ensures var s' := Revalue(s, base, accounts, asOf, final).value;
            if base.lastPostedMonth == Some(asOf.month) then s' == s
            else
              && s'.books.closed == base.closed && s'.books.lock == base.lock && s'.isVatPayer == base.isVatPayer
              && s'.lastPostedMonth == Some(asOf.month)
              && (s'.books.txs == s.books.txs ||
                  s'.books.txs == s.books.txs + [TxRow(asOf, FxRef(asOf.month), false, None)])
              && s.books.entries <= s'.books.entries
              && s'.books.nas == s.books.nas && s'.books.ifrs == s.books.ifrs && s'.books.rules == s.books.rules
  {
    hide JournalError, EntriesOf, AllLines, NewRates;
  }

  /** A run goes through exactly when the month is posted already, or no account moves, or the last day of the month is
      open and 662, 562 and the accounts that move, as far as they are used, exist. */
  lemma RevaluationSucceedsIff(
    s: State, base: Settings, accounts: seq<Account>, asOf: Date, final: map<string, real>)
    ensures var lines := AllLines(s.books, base.rates, final, accounts);
            Revalue(s, base, accounts, asOf, final).Success? <==>
              || base.lastPostedMonth == Some(asOf.month) || lines == []
              || (asOf.month !in s.books.closed && (s.books.lock.Some? ==> s.books.lock.value < asOf.time) &&
                  forall i :: 0 <= i < |lines| ==> lines[i].code in s.books.nas)
  {
    hide AllLines, NewRates;
    var j := RevaluationJournal(s.books, base.rates, accounts, asOf, final);
    if j.lines != [] {
      RevaluationJournalBalances(s.books, base.rates, accounts, asOf, final);
      PostSucceedsIff(s.books, j);
      hide Post, SumDebit, SumCredit, FirstBothSides;
    }
  }

  /** Accounts of the national chart have different codes, and none of them is 662 or 562. */
  predicate OrdinaryAccounts(accounts: seq<Account>) {
    && (forall i, j :: 0 <= i < j < |accounts| ==> accounts[i].code != accounts[j].code)
    && (forall i :: 0 <= i < |accounts| ==> accounts[i].code !in {"662", "562"})
  }

  lemma {:induction false} MovedOnce(
    b: Books, rates: map<string, real>, final: map<string, real>, accounts: seq<Account>, code: string)
    requires OrdinaryAccounts(accounts) && code !in {"662", "562"}
    ensures (forall i :: 0 <= i < |accounts| ==> accounts[i].code != code) ==>
              StoredDifference(b, rates, final, accounts, code) == 0
    ensures forall i :: 0 <= i < |accounts| && accounts[i].code == code ==>
              var diff := Difference(b, rates, final, accounts[i]);
              StoredDifference(b, rates, final, accounts, code) == if Abs(diff) > 100.0 then HalfUp(diff) else 0
  {
    hide Difference, HalfUp;
    if accounts != [] {
      var n := |accounts| - 1;
      var before := accounts[..n];
      assert forall i :: 0 <= i < n ==> before[i] == accounts[i];
      MovedOnce(b, rates, final, before, code);
    }
  }

  /** What a run does to an account: in a foreign currency, with a balance beyond 0.01, a rate of the last closing and
      a FINAL rate, it moves by the stored balance times the change of the rate, if that is beyond 0.01. Otherwise it
      does not move; so it does at the first closing of its currency. */
  lemma RevaluationOfAccount(
    s: State, base: Settings, accounts: seq<Account>, asOf: Date, final: map<string, real>, i: nat)
    requires s.books.WellFormed() && base.lastPostedMonth != Some(asOf.month)
    requires Revalue(s, base, accounts, asOf, final).Success? && OrdinaryAccounts(accounts) && i < |accounts|
    ensures var Account(code, c) := accounts[i];
            var before, after := Balance(s.books, code),
              Balance(Revalue(s, base, accounts, asOf, final).value.books, code);
            if c !in {"", "AZN", "AZM"} && c in base.rates && c in final && (before > 100 || before < -100) then
              var exact := before as real * (final[c] - base.rates[c]);
              after == before + if exact > 100.0 || exact < -100.0 then HalfUp(exact) else 0
            else after == before
  {
    hide Turnover, HalfUp, Revalue, StoredDifference;
    RevaluationMovesAccounts(s, base, accounts, asOf, final, accounts[i].code);
    MovedOnce(s.books, base.rates, final, accounts, accounts[i].code);
    assert accounts[i] == accounts[i];
  }

  /** How much the accounts rose, and how much they fell, added up. */
  function Rises(b: Books, b': Books, accounts: seq<Account>): int {
    if accounts == [] then 0
    else
      var n := |accounts| - 1;
      var up := Balance(b', accounts[n].code) - Balance(b, accounts[n].code);
      Rises(b, b', accounts[..n]) + if up > 0 then up else 0
  }

  function Falls(b: Books, b': Books, accounts: seq<Account>): int {
    if accounts == [] then 0
    else
      var n := |accounts| - 1;
      var down := Balance(b, accounts[n].code) - Balance(b', accounts[n].code);
      Falls(b, b', accounts[..n]) + if down > 0 then down else 0
  }

  lemma {:induction false} CounterpartsOf(
    b: Books, b': Books, rates: map<string, real>, final: map<string, real>, accounts: seq<Account>)
    requires OrdinaryAccounts(accounts)
    requires forall i :: 0 <= i < |accounts| ==>
               var diff := Difference(b, rates, final, accounts[i]);
               Balance(b', accounts[i].code) ==
               Balance(b, accounts[i].code) + if Abs(diff) > 100.0 then HalfUp(diff) else 0
    ensures StoredDifference(b, rates, final, accounts, "662") == -Rises(b, b', accounts)
    ensures StoredDifference(b, rates, final, accounts, "562") == Falls(b, b', accounts)
  {
    hide Difference, HalfUp, Balance;
    if accounts != [] {
      var n := |accounts| - 1;
      var before, diff := accounts[..n], Difference(b, rates, final, accounts[n]);
      assert forall i :: 0 <= i < n ==> before[i] == accounts[i];
      CounterpartsOf(b, b', rates, final, before);
      SignOfHalfUp(diff);
      assert accounts[n].code !in {"662", "562"};
    }
  }

  lemma SignOfHalfUp(x: real)
    ensures x > 100.0 ==> HalfUp(x) > 0
    ensures x < -100.0 ==> HalfUp(x) < 0
  {
    HalfUpIsNearest(x, HalfUp(x));
  }

  /** 662 is credited by what the accounts rose, 562 debited by what they fell, and no other account moves. */
  lemma RevaluationCounterparts(
    s: State, base: Settings, accounts: seq<Account>, asOf: Date, final: map<string, real>)
    requires s.books.WellFormed() && base.lastPostedMonth != Some(asOf.month)
    requires Revalue(s, base, accounts, asOf, final).Success? && OrdinaryAccounts(accounts)
    ensures var b, b' := s.books, Revalue(s, base, accounts, asOf, final).value.books;
            && Balance(b', "662") == Balance(b, "662") - Rises(b, b', accounts)
            && Balance(b', "562") == Balance(b, "562") + Falls(b, b', accounts)
            && forall code ::
                 code !in {"662", "562"} && (forall i :: 0 <= i < |accounts| ==> accounts[i].code != code) ==>
                   Balance(b', code) == Balance(b, code)
  {
    hide Turnover, HalfUp, Revalue, StoredDifference, Difference, Rises, Falls;
    var b, b' := s.books, Revalue(s, base, accounts, asOf, final).value.books;
    forall code
      ensures Balance(b', code) == Balance(b, code) + StoredDifference(b, base.rates, final, accounts, code)
    {
      RevaluationMovesAccounts(s, base, accounts, asOf, final, code);
    }
    forall code | code !in {"662", "562"}
      ensures (forall i :: 0 <= i < |accounts| ==> accounts[i].code != code) ==>
                StoredDifference(b, base.rates, final, accounts, code) == 0
      ensures forall i :: 0 <= i < |accounts| && accounts[i].code == code ==>
                var diff := Difference(b, base.rates, final, accounts[i]);
                StoredDifference(b, base.rates, final, accounts, code) == if Abs(diff) > 100.0 then HalfUp(diff) else 0
    {
      MovedOnce(b, base.rates, final, accounts, code);
    }
    CounterpartsOf(b, b', base.rates, final, accounts);
  }

  /** A month is revalued once by runs that read the settings after the one before had written them: the second
      moves no account, whatever accounts and rates there are by then. With settings read before that, it moves them
      again, by the differences of the balances as they are by then from the same old rates. */
  lemma RevaluationIsOncePerMonth(
    s: State, base: Settings, accounts: seq<Account>, asOf: Date, final: map<string, real>,
    accounts': seq<Account>, asOf': Date, final': map<string, real>, code: string)
    requires s.books.WellFormed() && asOf'.month == asOf.month
    requires base.lastPostedMonth != Some(asOf.month) && Revalue(s, base, accounts, asOf, final).Success?
    ensures var once := Revalue(s, base, accounts, asOf, final).value;
            && once.books.WellFormed()
            && Revalue(once, once.Read(), accounts', asOf', final') == Success(once)
            && (Revalue(once, base, accounts', asOf', final').Success? ==>
                  Balance(Revalue(once, base, accounts', asOf', final').value.books, code) ==
                  Balance(once.books, code) + StoredDifference(once.books, base.rates, final', accounts', code))
  {
    hide JournalError, AllLines, StoredDifference, Net, NewRates, Balance;
    var once := Revalue(s, base, accounts, asOf, final).value;
    var j := RevaluationJournal(s.books, base.rates, accounts, asOf, final);
    if j.lines != [] {
      TurnoverOfPost(s.books, j, Selection(NAS, None, AnyTx));
    }
    if Revalue(once, base, accounts', asOf', final').Success? {
      RevaluationMovesAccounts(once, base, accounts', asOf', final', code);
    }
  }
}
