/** Depreciation over whole runs: the closed form of what is booked on an asset, and the reconciliation
    of the asset table with account 112. */
module DepreciationLaws {
  import opened Wrappers
  import opened Money
  import opened Ledger
  import opened LedgerLaws
  import opened Depreciation

  // ----- One charge

  lemma RoundOfMultiple(k: int)
    ensures RoundMoney2((100 * k) as real) == 100 * k
  {
    HalfUpOfInt(k);
    assert (100 * k) as real / 100.0 == k as real;
  }

  lemma ChargeIsWholeCents(a: Asset, months: seq<MonthRow>, end: Date)
    ensures Charge(a, months, end) % 100 == 0
  {
    var maxDep, remaining := a.price - a.salvage, a.price - a.salvage - a.booked;
    RoundMoney2IsNearest(remaining as real);
    if a.life != 0 {
      RoundMoney2IsNearest(maxDep as real / a.life as real);
    }
  }

  /** The monthly amount and the amount booked in the end. */
  function Monthly(a: Asset): int
    requires a.life > 0
  {
    RoundMoney2((a.price - a.salvage) as real / a.life as real)
  }

  function Full(a: Asset): int {
    RoundMoney2((a.price - a.salvage) as real)
  }

  predicate Depreciable(a: Asset) {
    a.active && a.straightLine && a.price > a.salvage && a.life > 0
  }

  lemma MonthlyLaws(a: Asset)
    requires a.price > a.salvage && a.life > 0
    ensures Monthly(a) >= 0 && Monthly(a) % 100 == 0
    ensures Full(a) >= 0 && Full(a) % 100 == 0 && a.price - a.salvage - 50 < Full(a) <= a.price - a.salvage + 50
  {
    var d := a.price - a.salvage;
    RoundMoney2IsNearest(d as real);
    RoundMoney2IsNearest(d as real / a.life as real);
    assert d as real / a.life as real > 0.0;
  }

  /** `roundMoney2` of what remains after whole cents. */
  lemma RoundOfRest(d: nat, booked: nat)
    requires booked % 100 == 0 && booked <= d
    ensures RoundMoney2((d - booked) as real) == RoundMoney2(d as real) - booked
  {
    var k := booked / 100;
    assert booked == 100 * k;
    RoundMoney2Shift(k, (d - booked) as real);
    assert (100 * k) as real + (d - booked) as real == d as real;
  }

  /** The charge of an eligible month, in terms of the monthly and the full amount. */
  lemma ChargeValue(a: Asset, months: seq<MonthRow>, end: Date)
    requires Depreciable(a) && !HasMonth(months, a.id, end.month) && a.purchaseTime <= end.time
    requires a.booked % 100 == 0 && a.booked >= 0
    ensures var remaining := a.price - a.salvage - a.booked;
            var amount := if Monthly(a) > remaining then Full(a) - a.booked else Monthly(a);
            Charge(a, months, end) == if remaining <= 0 || amount <= 0 then 0 else amount
  {
    var d := a.price - a.salvage;
    if a.booked < d {
      RoundOfRest(d, a.booked);
    }
    hide RoundMoney2, HasMonth;
  }

  lemma ChargeArithmetic(d: nat, monthly: nat, full: nat, done: nat, booked: nat)
    requires monthly % 100 == 0 && full % 100 == 0 && done % 100 == 0
    requires d - 50 < full <= d + 50 && booked == Min(done, full)
    ensures var amount := if monthly > d - booked then full - booked else monthly;
            var charge := if d - booked <= 0 || amount <= 0 then 0 else amount;
            booked + charge == Min(done + monthly, full) && (charge == 0 ==> booked == full || monthly == 0)
  {
  }

  /** From `min(done, full)` booked, where `done` is a multiple of the monthly amount, a new eligible
      month brings the booked amount to `min(done + monthly, full)`; nothing is charged only at the end. */
  lemma ChargeStep(a: Asset, months: seq<MonthRow>, end: Date, done: nat)
    requires Depreciable(a) && !HasMonth(months, a.id, end.month) && a.purchaseTime <= end.time
    requires done % 100 == 0 && a.booked == Min(done, Full(a))
    ensures a.booked + Charge(a, months, end) == Min(done + Monthly(a), Full(a))
    ensures Charge(a, months, end) == 0 ==> a.booked == Full(a) || Monthly(a) == 0
  {
    hide Charge, Monthly, Full, HasMonth;
    MonthlyLaws(a);
    ChargeValue(a, months, end);
    ChargeArithmetic(a.price - a.salvage, Monthly(a), Full(a), done, a.booked);
  }

  lemma SkippedWhenRecorded(a: Asset, months: seq<MonthRow>, end: Date)
    ensures HasMonth(months, a.id, end.month) || a.purchaseTime > end.time ==> Charge(a, months, end) == 0
  {
  }

  /** Once everything is booked, or if the monthly amount rounds to nothing, no month charges anything. */
  lemma SkippedWhenFull(a: Asset, months: seq<MonthRow>, end: Date)
    requires a.price > a.salvage && a.life > 0
    requires a.booked == Full(a) || (Monthly(a) == 0 && a.booked == 0)
    ensures Charge(a, months, end) == 0
  {
    var d := a.price - a.salvage;
    MonthlyLaws(a);
    if a.booked == Full(a) && a.booked < d {
      RoundOfRest(d, a.booked);
    }
    hide RoundMoney2;
  }

  /** Only an active straight-line asset, bought by the end of the month, without a row for the month and with something
      left to book is charged; what is left is exceeded by half a cent at most. With a life of zero months all that is
      left is charged at once. */
  lemma OnlyTheseAreCharged(a: Asset, months: seq<MonthRow>, end: Date)
    ensures var rest, charge := a.price - a.salvage - a.booked, Charge(a, months, end);
            var eligible := a.active && a.straightLine && a.purchaseTime <= end.time && a.price > a.salvage &&
                            rest > 0 && !HasMonth(months, a.id, end.month);
            && (charge > 0 ==> eligible && charge <= rest + 50)
            && (eligible && a.life == 0 ==> -50 < charge - rest <= 50 || (charge == 0 && rest < 50))
  {
    var rest := a.price - a.salvage - a.booked;
    RoundMoney2IsNearest(rest as real);
    hide RoundMoney2, HasMonth;
  }

  // ----- Booking

  predicate UniqueIds(assets: seq<Asset>) {
    forall i, j :: 0 <= i < j < |assets| ==> assets[i].id != assets[j].id
  }

  /** The amounts of the rows for one asset. */
  function RowSum(rows: seq<Row>, assetId: nat): int {
    if rows == [] then 0
    else
      var r := rows[|rows| - 1];
      RowSum(rows[..|rows| - 1], assetId) + if r.assetId == assetId then r.amount else 0
  }

  lemma {:induction false} BookAllAdds(assets: seq<Asset>, rows: seq<Row>, i: nat)
    requires i < |assets|
    ensures BookAll(assets, rows)[i] == assets[i].(booked := assets[i].booked + RowSum(rows, assets[i].id))
  {
    if rows != [] {
      BookAllAdds(assets, rows[..|rows| - 1], i);
    }
  }

  lemma {:induction false} RowSumPrepend(r: Row, rows: seq<Row>, assetId: nat)
    ensures RowSum([r] + rows, assetId) == (if r.assetId == assetId then r.amount else 0) + RowSum(rows, assetId)
  {
    if rows == [] {
      assert [r] + rows == [r] && [r][..0] == [];
    } else {
      assert ([r] + rows)[..|[r] + rows| - 1] == [r] + rows[..|rows| - 1];
      RowSumPrepend(r, rows[..|rows| - 1], assetId);
    }
  }

  lemma RowsStep(assets: seq<Asset>, months: seq<MonthRow>, end: Date)
    requires assets != []
    ensures var charge := Charge(assets[0], months, end);
            Rows(assets, months, end) ==
            if charge == 0 then Rows(assets[1..], months, end)
            else [Row(assets[0].id, charge)] + Rows(assets[1..], months, end)
  {
    hide Charge;
    assert [] + Rows(assets[1..], months, end) == Rows(assets[1..], months, end);
  }

  /** The rows collected for an asset sum to its charge. */
  lemma {:induction false} RowsOfAsset(assets: seq<Asset>, months: seq<MonthRow>, end: Date, i: nat)
    requires UniqueIds(assets) && i < |assets|
    ensures RowSum(Rows(assets, months, end), assets[i].id) == Charge(assets[i], months, end)
  {
    hide Charge, RowSum, Rows;
    RowsStep(assets, months, end);
    RowSumPrepend(Row(assets[0].id, Charge(assets[0], months, end)), Rows(assets[1..], months, end), assets[i].id);
    if i > 0 {
      RowsOfAsset(assets[1..], months, end, i - 1);
    } else {
      RowsOfNone(assets[1..], months, end, assets[0].id);
    }
  }

  lemma {:induction false} RowsOfNone(assets: seq<Asset>, months: seq<MonthRow>, end: Date, assetId: nat)
    requires forall i :: 0 <= i < |assets| ==> assets[i].id != assetId
    ensures RowSum(Rows(assets, months, end), assetId) == 0
    ensures forall i :: 0 <= i < |Rows(assets, months, end)| ==> Rows(assets, months, end)[i].assetId != assetId
  {
    if assets != [] {
      var charge := Charge(assets[0], months, end);
      RowsOfNone(assets[1..], months, end, assetId);
      RowSumPrepend(Row(assets[0].id, charge), Rows(assets[1..], months, end), assetId);
      assert [] + Rows(assets[1..], months, end) == Rows(assets[1..], months, end);
    }
  }

  predicate HasRow(rows: seq<Row>, assetId: nat) {
    exists k :: 0 <= k < |rows| && rows[k].assetId == assetId
  }

  lemma HasRowPrepend(r: Row, rows: seq<Row>, assetId: nat)
    ensures HasRow([r] + rows, assetId) <==> r.assetId == assetId || HasRow(rows, assetId)
  {
    var all := [r] + rows;
    assert all[0] == r;
    assert forall k :: 0 <= k < |rows| ==> all[k + 1] == rows[k];
    assert forall k :: 0 < k < |all| ==> all[k] == rows[k - 1];
  }

  /** A row is collected for an asset exactly when it is charged. */
  lemma {:induction false} RowExists(assets: seq<Asset>, months: seq<MonthRow>, end: Date, i: nat)
    requires UniqueIds(assets) && i < |assets|
    ensures HasRow(Rows(assets, months, end), assets[i].id) <==> Charge(assets[i], months, end) > 0
  {
    hide Charge, Rows, HasRow;
    var tail, charge := Rows(assets[1..], months, end), Charge(assets[0], months, end);
    RowsStep(assets, months, end);
    HasRowPrepend(Row(assets[0].id, charge), tail, assets[i].id);
    if i == 0 {
      NoRow(assets[1..], months, end, assets[0].id);
    } else {
      RowExists(assets[1..], months, end, i - 1);
    }
  }

  lemma NoRow(assets: seq<Asset>, months: seq<MonthRow>, end: Date, assetId: nat)
    requires forall i :: 0 <= i < |assets| ==> assets[i].id != assetId
    ensures !HasRow(Rows(assets, months, end), assetId)
  {
    hide Rows;
    RowsOfNone(assets, months, end, assetId);
  }

  lemma {:induction false} RowsPositive(assets: seq<Asset>, months: seq<MonthRow>, end: Date)
    ensures forall i :: 0 <= i < |Rows(assets, months, end)| ==>
              Rows(assets, months, end)[i].amount > 0 && Rows(assets, months, end)[i].amount % 100 == 0
  {
    if assets != [] {
      RowsPositive(assets[1..], months, end);
      ChargeIsWholeCents(assets[0], months, end);
    }
  }

  // ----- The journal

  predicate WholeCents(rows: seq<Row>) {
    forall i :: 0 <= i < |rows| ==> rows[i].amount > 0 && rows[i].amount % 100 == 0
  }

  lemma {:induction false} TotalLaws(rows: seq<Row>)
    requires WholeCents(rows)
    ensures Total(rows) % 100 == 0 && Total(rows) >= 0 && (rows != [] ==> Total(rows) > 0)
    ensures RoundMoney2(Total(rows) as real) == Total(rows)
  {
    if rows != [] {
      TotalLaws(rows[..|rows| - 1]);
    }
    RoundOfMultiple(Total(rows) / 100);
  }

  lemma {:induction false} ExpenseSums(rows: seq<Row>)
    ensures SumDebit(ExpenseLines(rows)) == Total(rows) as real && SumCredit(ExpenseLines(rows)) == 0.0
    ensures Skew(ExpenseLines(rows)) == Total(rows)
  {
    if rows != [] {
      var n := |rows| - 1;
      ExpenseSums(rows[..n]);
      assert ExpenseLines(rows)[..n] == ExpenseLines(rows[..n]);
      HalfUpOfInt(rows[n].amount);
      HalfUpOfInt(0);
    }
  }

  /** The journal of a month is accepted by `validateBalance`, and stored in balance. */
  lemma DepreciationJournalBalances(rows: seq<Row>, end: Date)
    requires rows != [] && WholeCents(rows)
    ensures BalanceError(DepreciationJournal(rows, end).lines).None? && Skew(DepreciationJournal(rows, end).lines) == 0
  {
    hide RoundMoney2, HalfUp;
    var lines := DepreciationJournal(rows, end).lines;
    TotalLaws(rows);
    ExpenseSums(rows);
    HalfUpOfInt(Total(rows));
    HalfUpOfInt(0);
    assert lines[..|lines| - 1] == ExpenseLines(rows);
  }

  /** The journal credits 112 by the total of its rows. */
  lemma NetOfDepreciation(b: Books, rows: seq<Row>, end: Date)
    requires b.WellFormed() && WholeCents(rows) && Post(b, DepreciationJournal(rows, end)).Success?
    ensures var b' := Post(b, DepreciationJournal(rows, end)).value;
            b'.WellFormed() && Credited(b') == Credited(b) + Total(rows)
  {
    hide RoundMoney2, HalfUp, JournalError, Net;
    var j := DepreciationJournal(rows, end);
    var b' := Post(b, j).value;
    var sel := Selection(NAS, Some({ACCUMULATED}), DepreciationTx);
    TurnoverOfPost(b, j, sel);
    TotalLaws(rows);
    var own, shadow := StoreAll(j.lines, |b.txs|, NAS), Mirror(b.rules, b.ifrs, j.lines, |b.txs|);
    NetAppend(b'.txs, own, shadow, sel);
    NetNone(b'.txs, shadow, sel);
    var expense, last := own[..|rows|], own[|rows|];
    assert own == expense + [last];
    NetAppend(b'.txs, expense, [last], sel);
    NetNone(b'.txs, expense, sel);
    NetOfEntry(b'.txs, last, sel);
    HalfUpOfInt(Total(rows));
    HalfUpOfInt(0);
  }

  // ----- Runs

  /** Credits of 112 in depreciation transactions. */
  function Credited(b: Books): int {
    -Turnover(b, Selection(NAS, Some({ACCUMULATED}), DepreciationTx))
  }

  function MonthSum(months: seq<MonthRow>, assetId: nat): int {
    if months == [] then 0
    else
      var r := months[|months| - 1];
      MonthSum(months[..|months| - 1], assetId) + if r.assetId == assetId then r.amount else 0
  }

  function Booked(assets: seq<Asset>): int {
    if assets == [] then 0 else assets[0].booked + Booked(assets[1..])
  }

  /** Editing does not touch id and booked amount. Removing an asset cascades to its month rows. */
  datatype Op =
    | Month(end: Date)
    | Edit(id: nat, terms: Asset)
    | Add(asset: Asset)
    | Remove(id: nat)
    | PostOther(journal: Journal)

  function Without(assets: seq<Asset>, id: nat): seq<Asset> {
    if assets == [] then []
    else (if assets[0].id == id then [] else [assets[0]]) + Without(assets[1..], id)
  }

  function WithoutMonths(months: seq<MonthRow>, id: nat): seq<MonthRow> {
    if months == [] then []
    else
      var r := months[|months| - 1];
      WithoutMonths(months[..|months| - 1], id) + if r.assetId == id then [] else [r]
  }

  function Edited(assets: seq<Asset>, id: nat, terms: Asset): seq<Asset> {
    seq(|assets|, i requires 0 <= i < |assets| =>
          if assets[i].id == id then terms.(id := id, booked := assets[i].booked) else assets[i])
  }

  predicate IsNew(s: State, id: nat) {
    && (forall i :: 0 <= i < |s.assets| ==> s.assets[i].id != id)
    && (forall i :: 0 <= i < |s.months| ==> s.months[i].assetId != id)
  }

  function Step(s: State, op: Op): State {
    match op
    case Month(end) => (match Apply(s, end) case Success(s') => s' case Failure(_) => s)
    case Edit(id, terms) => s.(assets := Edited(s.assets, id, terms))
    case Add(asset) => if IsNew(s, asset.id) then s.(assets := [asset.(booked := 0)] + s.assets) else s
    case Remove(id) => s.(assets := Without(s.assets, id), months := WithoutMonths(s.months, id))
    case PostOther(j) => if j.reference.DepreciationRef? then s else s.(books := PostOrKeep(s.books, j))
  }

  function Run(s: State, ops: seq<Op>): State {
    if ops == [] then s else Step(Run(s, ops[..|ops| - 1]), ops[|ops| - 1])
  }

  /** The depreciation that assets carried when they were removed. */
  function Lost(s: State, ops: seq<Op>): int {
    if ops == [] then 0
    else
      var s', op := Run(s, ops[..|ops| - 1]), ops[|ops| - 1];
      Lost(s, ops[..|ops| - 1]) + if op.Remove? then Booked(s'.assets) - Booked(Without(s'.assets, op.id)) else 0
  }

  /** Every asset carries the sum of its month rows, and every month row belongs to an asset. */
  predicate Consistent(s: State) {
    && s.books.WellFormed() && UniqueIds(s.assets)
    && forall i :: 0 <= i < |s.assets| ==> s.assets[i].booked == MonthSum(s.months, s.assets[i].id)
  }

  lemma {:induction false} MonthSumOfRows(months: seq<MonthRow>, rows: seq<Row>, month: int, tx: nat, assetId: nat)
    ensures MonthSum(months + MonthRows(rows, month, tx), assetId) == MonthSum(months, assetId) + RowSum(rows, assetId)
  {
    var added := MonthRows(rows, month, tx);
    if rows == [] {
      assert months + added == months;
    } else {
      var n := |rows| - 1;
      MonthSumOfRows(months, rows[..n], month, tx, assetId);
      assert (months + added)[..|months + added| - 1] == months + MonthRows(rows[..n], month, tx);
    }
  }

  lemma {:induction false} MonthSumWithout(months: seq<MonthRow>, id: nat, assetId: nat)
    ensures MonthSum(WithoutMonths(months, id), assetId) == if assetId == id then 0 else MonthSum(months, assetId)
  {
    if months != [] {
      var n := |months| - 1;
      MonthSumWithout(months[..n], id, assetId);
      var kept, last := WithoutMonths(months[..n], id), months[n];
      assert kept + [] == kept && (kept + [last])[..|kept|] == kept;
    }
  }

  lemma {:induction false} MonthSumOfNew(months: seq<MonthRow>, assetId: nat)
    requires forall i :: 0 <= i < |months| ==> months[i].assetId != assetId
    ensures MonthSum(months, assetId) == 0
  {
    if months != [] {
      MonthSumOfNew(months[..|months| - 1], assetId);
    }
  }

  lemma {:induction false} WithoutMembers(assets: seq<Asset>, id: nat)
    ensures forall a :: a in Without(assets, id) ==> a in assets && a.id != id
  {
    if assets != [] {
      WithoutMembers(assets[1..], id);
      var rest := Without(assets[1..], id);
      assert Without(assets, id) == if assets[0].id == id then rest else [assets[0]] + rest;
    }
  }

  lemma {:induction false} WithoutLaws(assets: seq<Asset>, id: nat)
    requires UniqueIds(assets)
    ensures UniqueIds(Without(assets, id))
    ensures forall i :: 0 <= i < |Without(assets, id)| ==>
            Without(assets, id)[i] in assets && Without(assets, id)[i].id != id
  {
    WithoutMembers(assets, id);
    if assets != [] {
      WithoutLaws(assets[1..], id);
      WithoutMembers(assets[1..], id);
      var rest := Without(assets[1..], id);
      assert Without(assets, id) == if assets[0].id == id then rest else [assets[0]] + rest;
      hide Without;
      forall i | 0 <= i < |rest| ensures rest[i].id != assets[0].id {
        assert rest[i] in assets[1..];
      }
    }
  }

  lemma {:induction false} BookedOfBookAll(assets: seq<Asset>, assets': seq<Asset>, months: seq<MonthRow>, end: Date)
    requires UniqueIds(assets) && |assets'| == |assets|
    requires forall i :: 0 <= i < |assets| ==> assets'[i].booked == assets[i].booked + Charge(assets[i], months, end)
    ensures Booked(assets') == Booked(assets) + Total(Rows(assets, months, end))
  {
    if assets != [] {
      BookedOfBookAll(assets[1..], assets'[1..], months, end);
      TotalPrepend(Row(assets[0].id, Charge(assets[0], months, end)), Rows(assets[1..], months, end));
      assert [] + Rows(assets[1..], months, end) == Rows(assets[1..], months, end);
    }
  }

  lemma {:induction false} TotalPrepend(r: Row, rows: seq<Row>)
    ensures Total([r] + rows) == r.amount + Total(rows)
  {
    if rows == [] {
      assert [r] + rows == [r] && [r][..0] == [];
    } else {
      assert ([r] + rows)[..|[r] + rows| - 1] == [r] + rows[..|rows| - 1];
      TotalPrepend(r, rows[..|rows| - 1]);
    }
  }

  lemma {:induction false} BookedSame(assets: seq<Asset>, assets': seq<Asset>)
    requires |assets'| == |assets| && forall i :: 0 <= i < |assets| ==> assets'[i].booked == assets[i].booked
    ensures Booked(assets') == Booked(assets)
  {
    if assets != [] {
      BookedSame(assets[1..], assets'[1..]);
    }
  }

  /** An accepted month books on every asset its charge, on both sides of the reconciliation. */
  lemma ApplyEffect(s: State, end: Date)
    requires UniqueIds(s.assets) && Apply(s, end).Success?
    ensures var s' := Apply(s, end).value;
            && |s'.assets| == |s.assets|
            && (forall i :: 0 <= i < |s.assets| ==>
                  s'.assets[i] == s.assets[i].(booked := s.assets[i].booked + Charge(s.assets[i], s.months, end)))
            && (forall assetId :: MonthSum(s'.months, assetId) ==
                                  MonthSum(s.months, assetId) + RowSum(Rows(s.assets, s.months, end), assetId))
  {
    hide Post, Charge;
    var rows := Rows(s.assets, s.months, end);
    var s' := Apply(s, end).value;
    forall i | 0 <= i < |s.assets|
      ensures s'.assets[i] == s.assets[i].(booked := s.assets[i].booked + Charge(s.assets[i], s.months, end))
    {
      RowsOfAsset(s.assets, s.months, end, i);
      BookAllAdds(s.assets, rows, i);
    }
    forall assetId
      ensures MonthSum(s'.months, assetId) == MonthSum(s.months, assetId) + RowSum(rows, assetId)
    {
      MonthSumOfRows(s.months, rows, end.month, |s.books.txs|, assetId);
    }
  }

  lemma {:induction false} RowsOfCharges(assets: seq<Asset>, months: seq<MonthRow>, end: Date)
    ensures Rows(assets, months, end) == [] <==>
            forall i :: 0 <= i < |assets| ==> Charge(assets[i], months, end) == 0
  {
    hide Charge;
    if assets != [] {
      RowsOfCharges(assets[1..], months, end);
      assert forall i :: 1 <= i < |assets| ==> assets[i] == assets[1..][i - 1];
    }
  }

  /** A month goes through exactly when nothing is charged, or the month is open on its last day and the accounts 713
      and 112 exist. */
  lemma ApplySucceedsIff(s: State, end: Date)
    ensures Apply(s, end).Success? <==>
            || (forall i :: 0 <= i < |s.assets| ==> Charge(s.assets[i], s.months, end) == 0)
            || (end.month !in s.books.closed && (s.books.lock.Some? ==> s.books.lock.value < end.time) &&
                {"713", "112"} <= s.books.nas)
  {
    hide Charge;
    var rows := Rows(s.assets, s.months, end);
    RowsOfCharges(s.assets, s.months, end);
    if rows != [] {
      hide Rows;
      var j := DepreciationJournal(rows, end);
      RowsPositive(s.assets, s.months, end);
      DepreciationJournalBalances(rows, end);
      PostSucceedsIff(s.books, j);
      AccountsOfDepreciation(s.books, rows, end);
      hide Post, SumDebit, SumCredit, BalanceError;
    }
  }

  lemma AccountsOfDepreciation(b: Books, rows: seq<Row>, end: Date)
    requires rows != []
    ensures AccountsExist(b, DepreciationJournal(rows, end)) <==> {"713", "112"} <= b.nas
  {
    hide RoundMoney2;
    var lines := DepreciationJournal(rows, end).lines;
    assert lines[0].code == "713" && lines[|rows|].code == "112";
    assert forall i :: 0 <= i < |rows| ==> lines[i].code == "713";
  }

  /** What an accepted month writes: 713 is debited and 112 credited by what the assets come to carry more, no other
      national account moves, the transaction is final and of the last day, and every new month row is of this month,
      of the posted transaction, and over the charge of its asset. */
  lemma ApplyWrites(s: State, end: Date, code: string)
    requires s.books.WellFormed() && UniqueIds(s.assets) && Apply(s, end).Success?
    ensures var s' := Apply(s, end).value;
            var sel, more := Selection(NAS, Some({code}), AnyTx), Booked(s'.assets) - Booked(s.assets);
            && Turnover(s'.books, sel) ==
               Turnover(s.books, sel) + (if code == "713" then more else if code == "112" then -more else 0)
            && (if forall i :: 0 <= i < |s.assets| ==> Charge(s.assets[i], s.months, end) == 0 then s' == s
                else s'.books.txs == s.books.txs + [TxRow(end, DepreciationRef(end.month), true, None)])
            && s.months <= s'.months
            && forall k :: |s.months| <= k < |s'.months| ==>
                 && s'.months[k].month == end.month && s'.months[k].tx == |s.books.txs|
                 && exists i :: 0 <= i < |s.assets| && s.assets[i].id == s'.months[k].assetId &&
                                s'.months[k].amount == Charge(s.assets[i], s.months, end)
  {
    hide Post, Charge, DepreciationJournal;
    var rows := Rows(s.assets, s.months, end);
    var s' := Apply(s, end).value;
    ApplyEffect(s, end);
    RowsOfCharges(s.assets, s.months, end);
    BookedOfBookAll(s.assets, s'.assets, s.months, end);
    RowsPositive(s.assets, s.months, end);
    if rows != [] {
      PostWrites(s.books, DepreciationJournal(rows, end));
      TermsOfJournal(rows, end);
      MovedByDepreciation(s.books, rows, end, code);
    }
    forall k | |s.months| <= k < |s'.months|
      ensures exists i :: 0 <= i < |s.assets| && s.assets[i].id == s'.months[k].assetId &&
                          s'.months[k].amount == Charge(s.assets[i], s.months, end)
    {
      RowsAreCharges(s.assets, s.months, end, k - |s.months|);
    }
  }

  lemma TermsOfJournal(rows: seq<Row>, end: Date)
    ensures var j := DepreciationJournal(rows, end);
            TxRow(j.date, j.reference, j.isFinal, j.counterparty) ==
            TxRow(end, DepreciationRef(end.month), true, None)
  {
  }

  lemma {:induction false} RowsAreCharges(assets: seq<Asset>, months: seq<MonthRow>, end: Date, k: nat)
    requires k < |Rows(assets, months, end)|
    ensures exists i :: 0 <= i < |assets| && assets[i].id == Rows(assets, months, end)[k].assetId &&
                        Rows(assets, months, end)[k].amount == Charge(assets[i], months, end)
  {
    hide Charge;
    RowsStep(assets, months, end);
    var first := if Charge(assets[0], months, end) == 0 then 0 else 1;
    if k >= first {
      RowsAreCharges(assets[1..], months, end, k - first);
      var i :| 0 <= i < |assets[1..]| && assets[1..][i].id == Rows(assets[1..], months, end)[k - first].assetId &&
        Rows(assets[1..], months, end)[k - first].amount == Charge(assets[1..][i], months, end);
      assert assets[1..][i] == assets[i + 1];
    }
  }

  lemma {:induction false} NetOfExpenses(txs: seq<TxRow>, rows: seq<Row>, tx: nat, code: string)
    ensures Net(txs, StoreAll(ExpenseLines(rows), tx, NAS), Selection(NAS, Some({code}), AnyTx)) ==
            if code == "713" then Total(rows) else 0
  {
    if rows != [] {
      var n := |rows| - 1;
      NetOfExpenses(txs, rows[..n], tx, code);
      assert StoreAll(ExpenseLines(rows), tx, NAS)[..n] == StoreAll(ExpenseLines(rows[..n]), tx, NAS);
      HalfUpOfInt(rows[n].amount);
      HalfUpOfInt(0);
    }
  }

  lemma MovedByDepreciation(b: Books, rows: seq<Row>, end: Date, code: string)
    requires b.WellFormed() && WholeCents(rows) && Post(b, DepreciationJournal(rows, end)).Success?
    ensures var b' := Post(b, DepreciationJournal(rows, end)).value;
            var sel := Selection(NAS, Some({code}), AnyTx);
            Turnover(b', sel) == Turnover(b, sel) +
              if code == "713" then Total(rows) else if code == "112" then -Total(rows) else 0
  {
    hide RoundMoney2, HalfUp, JournalError, Net, ExpenseLines;
    var j := DepreciationJournal(rows, end);
    var b', t := Post(b, j).value, |b.txs|;
    var sel := Selection(NAS, Some({code}), AnyTx);
    TurnoverOfPost(b, j, sel);
    TotalLaws(rows);
    var own, shadow := StoreAll(j.lines, t, NAS), Mirror(b.rules, b.ifrs, j.lines, t);
    NetAppend(b'.txs, own, shadow, sel);
    NetNone(b'.txs, shadow, sel);
    var expense, last := StoreAll(ExpenseLines(rows), t, NAS), own[|rows|];
    assert own == expense + [last];
    NetAppend(b'.txs, expense, [last], sel);
    NetOfExpenses(b'.txs, rows, t, code);
    NetOfEntry(b'.txs, last, sel);
    HalfUpOfInt(Total(rows));
    HalfUpOfInt(0);
  }

  lemma ApplyReconciles(s: State, end: Date)
    requires Consistent(s) && Apply(s, end).Success?
    ensures var s' := Apply(s, end).value;
            Consistent(s') && Credited(s'.books) - Booked(s'.assets) == Credited(s.books) - Booked(s.assets)
  {
    hide Post, Charge, Credited, DepreciationJournal, MonthSum;
    var rows := Rows(s.assets, s.months, end);
    var s' := Apply(s, end).value;
    ApplyEffect(s, end);
    RowsPositive(s.assets, s.months, end);
    if rows != [] {
      NetOfDepreciation(s.books, rows, end);
      BookedOfBookAll(s.assets, s'.assets, s.months, end);
      forall i | 0 <= i < |s.assets| ensures s'.assets[i].booked == MonthSum(s'.months, s'.assets[i].id) {
        RowsOfAsset(s.assets, s.months, end, i);
      }
    }
  }

  lemma OtherJournal(b: Books, j: Journal)
    requires b.WellFormed() && !j.reference.DepreciationRef?
    ensures PostOrKeep(b, j).WellFormed() && Credited(PostOrKeep(b, j)) == Credited(b)
  {
    hide BalanceError, Net, EntriesOf;
    if Post(b, j).Success? {
      var sel := Selection(NAS, Some({ACCUMULATED}), DepreciationTx);
      PostedEntries(b, j);
      TurnoverOfPost(b, j, sel);
      NetNone(Post(b, j).value.txs, EntriesOf(b, j), sel);
    }
  }

  lemma StepReconciles(s: State, op: Op)
    requires Consistent(s)
    ensures var s' := Step(s, op);
            && Consistent(s')
            && Credited(s'.books) - Booked(s'.assets) ==
               Credited(s.books) - Booked(s.assets) +
               if op.Remove? then Booked(s.assets) - Booked(Without(s.assets, op.id)) else 0
  {
    hide Credited, Apply, PostOrKeep, MonthSum, Without, WithoutMonths;
    match op
    case Month(end) => if Apply(s, end).Success? { ApplyReconciles(s, end); }
    case Edit(id, terms) => BookedSame(s.assets, Edited(s.assets, id, terms));
    case Add(asset) => if IsNew(s, asset.id) { MonthSumOfNew(s.months, asset.id); } AddReconciles(s, asset);
    case Remove(id) =>
      WithoutLaws(s.assets, id);
      forall a | a in Without(s.assets, id) ensures a.booked == MonthSum(WithoutMonths(s.months, id), a.id) {
        MonthSumWithout(s.months, id, a.id);
      }
    case PostOther(j) => if !j.reference.DepreciationRef? { OtherJournal(s.books, j); }
  }

  lemma AddReconciles(s: State, asset: Asset)
    requires Consistent(s) && (IsNew(s, asset.id) ==> MonthSum(s.months, asset.id) == 0)
    ensures Consistent(Step(s, Add(asset))) && Booked(Step(s, Add(asset)).assets) == Booked(s.assets)
  {
    hide MonthSum;
    if IsNew(s, asset.id) {
      var assets := [asset.(booked := 0)] + s.assets;
      assert assets[1..] == s.assets;
    }
  }

  /** Over every run of months (accepted or rejected), edits, additions and removals, each asset carries
      the sum of its month rows; the credits of 112 equal what the assets carry plus what removed assets carried. */
  lemma {:induction false} DepreciationReconciles(s: State, ops: seq<Op>)
    requires Consistent(s)
    ensures Consistent(Run(s, ops))
    ensures Credited(Run(s, ops).books) - Booked(Run(s, ops).assets) ==
            Credited(s.books) - Booked(s.assets) + Lost(s, ops)
  {
    hide Credited, Step, Consistent, Without;
    if ops != [] {
      DepreciationReconciles(s, ops[..|ops| - 1]);
      StepReconciles(Run(s, ops[..|ops| - 1]), ops[|ops| - 1]);
    }
  }

  lemma {:induction false} WithoutNone(assets: seq<Asset>, id: nat)
    requires forall i :: 0 <= i < |assets| ==> assets[i].id != id
    ensures Without(assets, id) == assets
  {
    if assets != [] {
      WithoutNone(assets[1..], id);
    }
  }

  lemma {:induction false} BookedWithout(assets: seq<Asset>, i: nat)
    requires UniqueIds(assets) && i < |assets|
    ensures Booked(Without(assets, assets[i].id)) == Booked(assets) - assets[i].booked
  {
    var rest := assets[1..];
    if i == 0 {
      WithoutNone(rest, assets[0].id);
      assert Without(assets, assets[0].id) == rest;
    } else {
      BookedWithout(rest, i - 1);
      var others := Without(rest, assets[i].id);
      assert Without(assets, assets[i].id) == [assets[0]] + others && ([assets[0]] + others)[1..] == others;
    }
  }

  /** Removal is what breaks the reconciliation: it leaves the credits of 112 and the assets in agreement exactly
      when nothing was booked on the asset removed. */
  lemma RemovalBreaksReconciliation(s: State, i: nat)
    requires Consistent(s) && i < |s.assets| && Credited(s.books) == Booked(s.assets)
    ensures var s' := Step(s, Remove(s.assets[i].id));
            Credited(s'.books) == Booked(s'.assets) <==> s.assets[i].booked == 0
  {
    hide Credited, Booked, Without;
    BookedWithout(s.assets, i);
  }

  // ----- The closed form

  predicate Accepted(s: State, end: Date) {
    Apply(s, end).Success?
  }

  predicate CountsMonth(s: State, op: Op, purchaseTime: int) {
    op.Month? && Accepted(s, op.end) && op.end.time >= purchaseTime
  }

  /** The distinct months of the accepted runs that end on or after the purchase. */
  function EligibleMonths(s: State, ops: seq<Op>, purchaseTime: int): set<int> {
    if ops == [] then {}
    else
      var before, op := ops[..|ops| - 1], ops[|ops| - 1];
      EligibleMonths(s, before, purchaseTime) +
        if CountsMonth(Run(s, before), op, purchaseTime) then {op.end.month} else {}
  }

  /** Neither edits nor removes the asset. */
  predicate LeavesTerms(op: Op, id: nat) {
    match op
    case Edit(other, _) => other != id
    case Remove(other) => other != id
    case _ => true
  }

  /** What is known of asset `i` after a run in which `eligible` months were charged or skipped. */
  ghost predicate OnTrack(s: State, i: nat, a: Asset, eligible: set<int>)
    requires a.life > 0
  {
    && UniqueIds(s.assets) && i < |s.assets| && s.assets[i] == a.(booked := s.assets[i].booked)
    && s.assets[i].booked == Min(|eligible| * Monthly(a), Full(a))
    && Recorded(s.months, a, eligible, s.assets[i].booked)
  }

  /** Months with a row are eligible; an eligible month without one had nothing to charge. */
  ghost predicate Recorded(months: seq<MonthRow>, a: Asset, eligible: set<int>, booked: int)
    requires a.life > 0
  {
    && (forall m :: HasMonth(months, a.id, m) ==> m in eligible)
    && (forall m :: m in eligible && !HasMonth(months, a.id, m) ==> booked == Full(a) || Monthly(a) == 0)
  }

  /** After an accepted run, an asset has a row for the month iff it had one or was charged. */
  lemma MonthsAfter(s: State, end: Date, i: nat, m: int)
    requires UniqueIds(s.assets) && i < |s.assets| && Apply(s, end).Success?
    ensures HasMonth(Apply(s, end).value.months, s.assets[i].id, m) <==>
            HasMonth(s.months, s.assets[i].id, m) || (m == end.month && Charge(s.assets[i], s.months, end) > 0)
  {
    hide Charge, Post;
    var rows, s' := Rows(s.assets, s.months, end), Apply(s, end).value;
    RowExists(s.assets, s.months, end, i);
    if HasMonth(s.months, s.assets[i].id, m) {
      var k :| 0 <= k < |s.months| && s.months[k].assetId == s.assets[i].id && s.months[k].month == m;
      assert s'.months[k] == s.months[k];
    }
    if k :| 0 <= k < |rows| && rows[k].assetId == s.assets[i].id {
      assert s'.months[|s.months| + k] == MonthRow(rows[k].assetId, end.month, rows[k].amount, |s.books.txs|);
    }
    if HasMonth(s'.months, s.assets[i].id, m) && !HasMonth(s.months, s.assets[i].id, m) {
      var k :| 0 <= k < |s'.months| && s'.months[k].assetId == s.assets[i].id && s'.months[k].month == m;
      var r := rows[k - |s.months|];
      assert s'.months[k] == MonthRow(r.assetId, end.month, r.amount, |s.books.txs|);
    }
  }

  lemma HundredTimes(n: nat, m: nat)
    requires m % 100 == 0
    ensures (n * m) % 100 == 0 && n * m >= 0 && (n + 1) * m == n * m + m
  {
    assert n * m == n * (m / 100) * 100;
  }

  lemma TrackStep(s: State, end: Date, i: nat, a: Asset, eligible: set<int>)
    requires Depreciable(a) && OnTrack(s, i, a, eligible) && Apply(s, end).Success?
    ensures OnTrack(Apply(s, end).value, i, a, eligible + if end.time >= a.purchaseTime then {end.month} else {})
  {
    hide Apply, Charge, RoundMoney2, HasMonth;
    var s', cur := Apply(s, end).value, s.assets[i];
    var eligible' := eligible + if end.time >= a.purchaseTime then {end.month} else {};
    var done := |eligible| * Monthly(a);
    ApplyEffect(s, end);
    MonthlyLaws(a);
    HundredTimes(|eligible|, Monthly(a));
    SkippedWhenRecorded(cur, s.months, end);
    forall m ensures HasMonth(s'.months, a.id, m) <==>
                     HasMonth(s.months, a.id, m) || (m == end.month && Charge(cur, s.months, end) > 0) {
      MonthsAfter(s, end, i, m);
    }
    if end.time >= a.purchaseTime && end.month !in eligible {
      assert !HasMonth(s.months, a.id, end.month);
      assert |eligible'| == |eligible| + 1;
      ChargeStep(cur, s.months, end, done);
    } else {
      assert eligible' == eligible;
      if end.time >= a.purchaseTime && !HasMonth(s.months, a.id, end.month) {
        SkippedWhenFull(cur, s.months, end);
      }
      assert Charge(cur, s.months, end) == 0;
    }
  }

  lemma {:induction false} HasMonthWithout(months: seq<MonthRow>, id: nat, assetId: nat, month: int)
    requires assetId != id
    ensures HasMonth(WithoutMonths(months, id), assetId, month) <==> HasMonth(months, assetId, month)
  {
    if months != [] {
      var n := |months| - 1;
      HasMonthWithout(months[..n], id, assetId, month);
      HasMonthOfLast(months[..n], months[n], assetId, month);
      HasMonthOfLast(WithoutMonths(months[..n], id), months[n], assetId, month);
      assert months[..n] + [months[n]] == months;
      assert WithoutMonths(months[..n], id) + [] == WithoutMonths(months[..n], id);
    }
  }

  lemma HasMonthOfLast(months: seq<MonthRow>, row: MonthRow, assetId: nat, month: int)
    ensures HasMonth(months + [row], assetId, month) <==>
            HasMonth(months, assetId, month) || (row.assetId == assetId && row.month == month)
  {
    var all := months + [row];
    if HasMonth(months, assetId, month) {
      var k :| 0 <= k < |months| && months[k].assetId == assetId && months[k].month == month;
      assert all[k] == months[k];
    }
    if row.assetId == assetId && row.month == month {
      assert all[|months|] == row;
    }
  }

  lemma {:induction false} WithoutKeeps(assets: seq<Asset>, id: nat, a: Asset)
    requires a in assets && a.id != id
    ensures a in Without(assets, id)
  {
    if a != assets[0] {
      WithoutKeeps(assets[1..], id, a);
    }
  }

  /** The operations besides the months leave the asset, its booked amount and its rows as they are. */
  lemma OtherKeepsTrack(s: State, op: Op, i: nat, a: Asset, eligible: set<int>) returns (i': nat)
    requires Depreciable(a) && OnTrack(s, i, a, eligible) && !op.Month? && LeavesTerms(op, a.id)
    ensures OnTrack(Step(s, op), i', a, eligible)
  {
    hide HasMonth, Apply, PostOrKeep, RoundMoney2;
    var s', asset := Step(s, op), s.assets[i];
    match op
    case Edit(_, _) =>
      i' := i;
    case Add(added) =>
      i' := if IsNew(s, added.id) then i + 1 else i;
    case Remove(id) =>
      WithoutLaws(s.assets, id);
      WithoutKeeps(s.assets, id, asset);
      i' :| 0 <= i' < |s'.assets| && s'.assets[i'] == asset;
      forall m ensures HasMonth(s'.months, a.id, m) <==> HasMonth(s.months, a.id, m) {
        HasMonthWithout(s.months, id, a.id, m);
      }
    case PostOther(_) =>
      i' := i;
  }

  lemma {:induction false} TrackRuns(s: State, ops: seq<Op>, i: nat, a: Asset) returns (i': nat)
    requires Depreciable(a) && OnTrack(s, i, a, {})
    requires forall k :: 0 <= k < |ops| ==> LeavesTerms(ops[k], a.id)
    ensures OnTrack(Run(s, ops), i', a, EligibleMonths(s, ops, a.purchaseTime))
  {
    hide Apply, OnTrack, Depreciable, LeavesTerms;
    if ops == [] {
      i' := i;
    } else {
      var before, op := ops[..|ops| - 1], ops[|ops| - 1];
      i' := TrackRuns(s, before, i, a);
      var s', eligible := Run(s, before), EligibleMonths(s, before, a.purchaseTime);
      if !op.Month? {
        i' := OtherKeepsTrack(s', op, i', a, eligible);
      } else if Accepted(s', op.end) {
        TrackStep(s', op.end, i', a, eligible);
      }
      assert eligible + {} == eligible;
    }
  }

  /** After any operations that do not edit or remove the asset, with runs for any months, in any order, repeated and
      rejected, what is booked on it is the monthly amount times the number of distinct eligible months, capped at
      the rounded total. */
  lemma DepreciationClosedForm(s: State, ops: seq<Op>, i: nat)
    requires UniqueIds(s.assets) && i < |s.assets| && Depreciable(s.assets[i]) && s.assets[i].booked == 0
    requires forall k :: 0 <= k < |s.months| ==> s.months[k].assetId != s.assets[i].id
    requires forall k :: 0 <= k < |ops| ==> LeavesTerms(ops[k], s.assets[i].id)
    ensures var a := s.assets[i];
            a.(booked := Min(|EligibleMonths(s, ops, a.purchaseTime)| * Monthly(a), Full(a))) in Run(s, ops).assets
    ensures UniqueIds(Run(s, ops).assets)
  {
    MonthlyLaws(s.assets[i]);
    var i' := TrackRuns(s, ops, i, s.assets[i]);
  }

  /** So at most half a cent too much is ever booked, and after as many eligible months as the useful life
      at most half a cent per month is missing. */
  lemma DepreciationBounds(s: State, ops: seq<Op>, i: nat, asset: Asset)
    requires UniqueIds(s.assets) && i < |s.assets| && Depreciable(s.assets[i]) && s.assets[i].booked == 0
    requires forall k :: 0 <= k < |s.months| ==> s.months[k].assetId != s.assets[i].id
    requires forall k :: 0 <= k < |ops| ==> LeavesTerms(ops[k], s.assets[i].id)
    requires asset in Run(s, ops).assets && asset.id == s.assets[i].id
    ensures var a := s.assets[i];
            && asset == a.(booked := asset.booked) && asset.booked <= a.price - a.salvage + 50
            && (|EligibleMonths(s, ops, a.purchaseTime)| >= a.life ==>
              asset.booked >= a.price - a.salvage - 50 * a.life)
  {
    hide RoundMoney2, Run, EligibleMonths, LeavesTerms;
    var a := s.assets[i];
    var n := |EligibleMonths(s, ops, a.purchaseTime)|;
    DepreciationClosedForm(s, ops, i);
    assert asset == a.(booked := Min(n * Monthly(a), Full(a)));
    MonthlyLaws(a);
    if n >= a.life {
      MonthsCover(a.price - a.salvage, a.life, Monthly(a), n);
    }
  }

  lemma MonthsCover(d: nat, life: nat, monthly: nat, n: nat)
    requires life > 0 && n >= life && monthly == RoundMoney2(d as real / life as real)
    ensures n * monthly >= d - 50 * life
  {
    var q := d as real / life as real;
    RoundMoney2IsNearest(q);
    hide RoundMoney2;
    TimesLife(monthly + 50, q, life);
    assert q * life as real == d as real;
    Distribute(monthly, life);
    MoreMonths(n, life, monthly);
  }

  lemma Distribute(monthly: int, life: int)
    ensures (monthly + 50) * life == monthly * life + 50 * life
  {
  }

  lemma MoreMonths(n: nat, life: nat, monthly: nat)
    requires n >= life
    ensures n * monthly >= monthly * life
  {
  }

  lemma {:induction false} TimesLife(x: int, y: real, life: nat)
    requires x as real >= y
    ensures (x * life) as real >= y * life as real
  {
    if life > 0 {
      TimesLife(x, y, life - 1);
      var before := life - 1;
      assert x * life == x * before + x;
      assert y * life as real == y * (before as real + 1.0) == y * before as real + y;
    }
  }
}
