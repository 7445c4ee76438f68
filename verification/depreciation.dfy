/** Straight-line depreciation for a month: `DepreciationService.applyForClosedMonth`. */
module Depreciation {
  import opened Wrappers
  import opened Money
  import opened Ledger

  /** A row of `fixed_assets`; amounts are stored amounts. */
  datatype Asset = Asset(
    id: nat, active: bool, straightLine: bool, purchaseTime: int,
    price: int, salvage: int, life: int, booked: int)

  /** A row of `fixed_asset_depreciation_months`. */
  datatype MonthRow = MonthRow(assetId: nat, month: int, amount: int, tx: nat)

  datatype Row = Row(assetId: nat, amount: int)

  datatype State = State(books: Books, assets: seq<Asset>, months: seq<MonthRow>)

  const EXPENSE := "713"
  const ACCUMULATED := "112"

  predicate HasMonth(months: seq<MonthRow>, assetId: nat, month: int) {
    exists i :: 0 <= i < |months| && months[i].assetId == assetId && months[i].month == month
  }

  /** The monthly amount, cut down to what remains. Dividing by a life of zero months gives infinity,
      so everything that remains is charged at once. */
  function Amount(maxDep: int, remaining: int, life: int): int {
    if life == 0 then RoundMoney2(remaining as real)
    else
      var monthly := RoundMoney2(maxDep as real / life as real);
      if monthly > remaining then RoundMoney2(remaining as real) else monthly
  }

  /** What a month charges to an asset; zero if the asset is skipped. */
  function Charge(a: Asset, months: seq<MonthRow>, end: Date): nat {
    var maxDep := a.price - a.salvage;
    var remaining := maxDep - a.booked;
    if !a.active || !a.straightLine || HasMonth(months, a.id, end.month) || a.purchaseTime > end.time then 0
    else if maxDep <= 0 || remaining <= 0 || Amount(maxDep, remaining, a.life) <= 0 then 0
    else Amount(maxDep, remaining, a.life)
  }

  function Rows(assets: seq<Asset>, months: seq<MonthRow>, end: Date): seq<Row> {
    if assets == [] then []
    else
      var charge := Charge(assets[0], months, end);
      (if charge == 0 then [] else [Row(assets[0].id, charge)]) + Rows(assets[1..], months, end)
  }

  function Total(rows: seq<Row>): int {
    if rows == [] then 0 else Total(rows[..|rows| - 1]) + rows[|rows| - 1].amount
  }

  function ExpenseLines(rows: seq<Row>): (lines: seq<Line>)
    ensures |lines| == |rows|
  {
    seq(|rows|, i requires 0 <= i < |rows| => Line(EXPENSE, rows[i].amount as real, 0.0))
  }

  function DepreciationJournal(rows: seq<Row>, end: Date): Journal {
    Journal(end, DepreciationRef(end.month), true, None, None, NAS,
            ExpenseLines(rows) + [Line(ACCUMULATED, 0.0, RoundMoney2(Total(rows) as real) as real)])
  }

  /** `bookedDepreciation: { increment }` where the id matches. */
  function Increment(assets: seq<Asset>, assetId: nat, amount: int): (r: seq<Asset>)
    ensures |r| == |assets|
  {
    seq(|assets|, i requires 0 <= i < |assets| =>
          if assets[i].id == assetId then assets[i].(booked := assets[i].booked + amount) else assets[i])
  }

  function BookAll(assets: seq<Asset>, rows: seq<Row>): (r: seq<Asset>)
    ensures |r| == |assets|
  {
    if rows == [] then assets
    else Increment(BookAll(assets, rows[..|rows| - 1]), rows[|rows| - 1].assetId, rows[|rows| - 1].amount)
  }

  function MonthRows(rows: seq<Row>, month: int, tx: nat): seq<MonthRow> {
    seq(|rows|, i requires 0 <= i < |rows| => MonthRow(rows[i].assetId, month, rows[i].amount, tx))
  }

  /** One run for a month; the caller's transaction rolls a rejected journal back. */
  function Apply(s: State, end: Date): Result<State, Error> {
    var rows := Rows(s.assets, s.months, end);
    if rows == [] then Success(s)
    else
      match Post(s.books, DepreciationJournal(rows, end))
      case Failure(e) => Failure(e)
      case Success(b) =>
        Success(State(b, BookAll(s.assets, rows), s.months + MonthRows(rows, end.month, |s.books.txs|)))
  }

  class DepreciationService {
    const accounting: AccountingService
    var assets: seq<Asset>
    var months: seq<MonthRow>

    ghost function Abstract(): State
      reads this, accounting
    {
      State(accounting.State(), assets, months)
    }

    constructor (accounting: AccountingService, assets: seq<Asset>, months: seq<MonthRow>)
      ensures this.accounting == accounting && this.assets == assets && this.months == months
    {
      this.accounting, this.assets, this.months := accounting, assets, months;
    }

    method CollectRows(end: Date) returns (rows: seq<Row>)
      ensures rows == Rows(assets, months, end)
    {
      rows := [];
      for i := 0 to |assets|
        invariant rows + Rows(assets[i..], months, end) == Rows(assets, months, end)
      {
        var a := assets[i];
        assert assets[i..][1..] == assets[i + 1..];
        if !a.active || !a.straightLine || HasMonth(months, a.id, end.month) || a.purchaseTime > end.time {
          continue;
        }
        var maxDep := a.price - a.salvage;
        if maxDep <= 0 {
          continue;
        }
        var remaining := maxDep - a.booked;
        if remaining <= 0 {
          continue;
        }
        var amount := Amount(maxDep, remaining, a.life);
        if amount <= 0 {
          continue;
        }
        rows := rows + [Row(a.id, amount)];
      }
    }

    static method BuildJournal(rows: seq<Row>, end: Date) returns (j: Journal)
      ensures j == DepreciationJournal(rows, end)
    {
      var total := 0;
      var lines: seq<Line> := [];
      for i := 0 to |rows|
        invariant total == Total(rows[..i])
        invariant lines == ExpenseLines(rows)[..i]
      {
        assert rows[..i + 1][..i] == rows[..i];
        total := total + rows[i].amount;
        lines := lines + [Line(EXPENSE, rows[i].amount as real, 0.0)];
      }
      assert rows[..|rows|] == rows && ExpenseLines(rows)[..|rows|] == ExpenseLines(rows);
      lines := lines + [Line(ACCUMULATED, 0.0, RoundMoney2(total as real) as real)];
      j := Journal(end, DepreciationRef(end.month), true, None, None, NAS, lines);
    }

    method BookRows(rows: seq<Row>, month: int, tx: nat)
      modifies this
      ensures assets == BookAll(old(assets), rows)
      ensures months == old(months) + MonthRows(rows, month, tx)
    {
      for i := 0 to |rows|
        invariant assets == BookAll(old(assets), rows[..i])
        invariant months == old(months) + MonthRows(rows, month, tx)[..i]
      {
        assert rows[..i + 1][..i] == rows[..i];
        months := months + [MonthRow(rows[i].assetId, month, rows[i].amount, tx)];
        assets := Increment(assets, rows[i].assetId, rows[i].amount);
      }
      assert rows[..|rows|] == rows;
    }

    method ApplyForClosedMonth(end: Date) returns (r: Result<Option<nat>, Error>)
      modifies this, accounting
      ensures r.Success? ==> Apply(old(Abstract()), end) == Success(Abstract())
      ensures r.Success? ==>
              r.value == if Rows(old(assets), old(months), end) == [] then None else Some(|old(accounting.txs)|)
      ensures r.Failure? ==> Apply(old(Abstract()), end) == Failure(r.error) && Abstract() == old(Abstract())
    {
      hide Post, DepreciationJournal, Rows;
      var rows := CollectRows(end);
      if |rows| == 0 {
        return Success(None);
      }
      var j := BuildJournal(rows, end);
      var posted := accounting.PostJournal(j);
      if posted.Failure? {
        return Failure(posted.error);
      }
      BookRows(rows, end.month, posted.value);
      return Success(Some(posted.value));
    }
  }
}
