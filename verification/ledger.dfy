/** The double-entry ledger: `AccountingService` and `IfrsAutoMappingService`.

    The tables of one organization are a value `Books`; `Post` says what posting one journal
    does to them. The class `AccountingService` keeps the same tables in fields, works through
    them the way the services do, and is proved to do what `Post` says. */
module Ledger {
  import opened Wrappers
  import opened Money

  datatype LedgerType = NAS | IFRS

  /** A date: the calendar month it falls in and its time stamp. */
  datatype Date = Date(month: int, time: int)

  datatype Reference =
    | Text(text: string)
    | NettingRef(counterparty: string)
    | DepreciationRef(month: int)
    | FxRef(month: int)

  datatype Line = Line(code: string, debit: real, credit: real)

  datatype Journal = Journal(
    date: Date, reference: Reference, isFinal: bool, counterparty: Option<string>,
    department: Option<string>, ledger: LedgerType, lines: seq<Line>)

  /** A row of `transactions`; its id is its position in the table. */
  datatype TxRow = TxRow(date: Date, reference: Reference, isFinal: bool, counterparty: Option<string>)

  /** A row of `journal_entries`, with its stored amounts. */
  datatype Entry = Entry(tx: nat, ledger: LedgerType, code: string, debit: int, credit: int)

  datatype Rule = Rule(source: string, target: string, active: bool)

  datatype Books = Books(
    nas: set<string>, ifrs: set<string>, departments: set<string>, rules: seq<Rule>,
    closed: set<int>, lock: Option<int>, txs: seq<TxRow>, entries: seq<Entry>)
  {
    function Codes(ledger: LedgerType): set<string> {
      if ledger == NAS then nas else ifrs
    }

    predicate WellFormed() {
      forall i :: 0 <= i < |entries| ==> entries[i].tx < |txs|
    }
  }

  datatype Error =
    | LinesRequired
    | BothSidesSet(code: string)
    | Unbalanced
    | PeriodClosed
    | PeriodLocked
    | AccountNotFound(code: string)
    | DepartmentNotFound

  // ----- Posting, as a function of the tables

  function SumDebit(lines: seq<Line>): real {
    if lines == [] then 0.0 else SumDebit(lines[..|lines| - 1]) + lines[|lines| - 1].debit
  }

  function SumCredit(lines: seq<Line>): real {
    if lines == [] then 0.0 else SumCredit(lines[..|lines| - 1]) + lines[|lines| - 1].credit
  }

  predicate BothSides(line: Line) {
    line.debit > 0.0 && line.credit > 0.0
  }

  function FirstBothSides(lines: seq<Line>): (r: Option<Error>)
    ensures r.None? <==> forall i :: 0 <= i < |lines| ==> !(lines[i].debit > 0.0 && lines[i].credit > 0.0)
  {
    if lines == [] then None
    else if BothSides(lines[0]) then Some(BothSidesSet(lines[0].code))
    else FirstBothSides(lines[1..])
  }

  /** What `validateBalance` throws. */
  function BalanceError(lines: seq<Line>): Option<Error> {
    if lines == [] then Some(LinesRequired)
    else if FirstBothSides(lines).Some? then FirstBothSides(lines)
    else if SumDebit(lines) != SumCredit(lines) || SumDebit(lines) <= 0.0 then Some(Unbalanced)
    else None
  }

  predicate IsFrozen(b: Books, date: Date) {
    date.month in b.closed || (b.lock.Some? && date.time <= b.lock.value)
  }

  function PeriodError(b: Books, date: Date): Option<Error> {
    if date.month in b.closed then Some(PeriodClosed)
    else if b.lock.Some? && date.time <= b.lock.value then Some(PeriodLocked)
    else None
  }

  function MissingAccount(codes: set<string>, lines: seq<Line>): (r: Option<Error>)
    ensures r.None? <==> forall i :: 0 <= i < |lines| ==> lines[i].code in codes
  {
    if lines == [] then None
    else if lines[0].code !in codes then Some(AccountNotFound(lines[0].code))
    else MissingAccount(codes, lines[1..])
  }

  predicate DepartmentKnown(b: Books, department: Option<string>) {
    department.Some? && department.value != "" ==> department.value in b.departments
  }

  function JournalError(b: Books, j: Journal): Option<Error> {
    if BalanceError(j.lines).Some? then BalanceError(j.lines)
    else if PeriodError(b, j.date).Some? then PeriodError(b, j.date)
    else if MissingAccount(b.Codes(j.ledger), j.lines).Some? then MissingAccount(b.Codes(j.ledger), j.lines)
    else if !DepartmentKnown(b, j.department) then Some(DepartmentNotFound)
    else None
  }

  function Store(line: Line, tx: nat, ledger: LedgerType): Entry {
    Entry(tx, ledger, line.code, HalfUp(line.debit), HalfUp(line.credit))
  }

  function StoreAll(lines: seq<Line>, tx: nat, ledger: LedgerType): (es: seq<Entry>)
    ensures |es| == |lines|
    ensures forall i :: 0 <= i < |es| ==> es[i] == Store(lines[i], tx, ledger)
  {
    seq(|lines|, i requires 0 <= i < |lines| => Store(lines[i], tx, ledger))
  }

  /** The IFRS code of a NAS code: the target of its first active rule whose target exists. */
  function MapCode(rules: seq<Rule>, ifrs: set<string>, code: string): (r: Option<string>)
    ensures r.Some? ==> r.value in ifrs
    ensures r.Some? <==>
            exists i :: 0 <= i < |rules| && rules[i].active && rules[i].source == code && rules[i].target in ifrs
  {
    if rules == [] then None
    else if rules[0].active && rules[0].source == code && rules[0].target in ifrs then Some(rules[0].target)
    else
      assert forall i :: 0 <= i < |rules| - 1 ==> rules[1..][i] == rules[i + 1];
      MapCode(rules[1..], ifrs, code)
  }

  /** The rule that decides about a code: the first one that is active, is for the code, and has an IFRS account. */
  predicate Decides(rules: seq<Rule>, ifrs: set<string>, code: string, i: nat) {
    && i < |rules| && rules[i].active && rules[i].source == code && rules[i].target in ifrs
    && forall j :: 0 <= j < i ==> !(rules[j].active && rules[j].source == code && rules[j].target in ifrs)
  }

  /** The code is mapped to the target of the rule that decides. */
  predicate MapsTo(rules: seq<Rule>, ifrs: set<string>, code: string, target: string) {
    exists i :: 0 <= i < |rules| && Decides(rules, ifrs, code, i) && rules[i].target == target
  }

  predicate IsDecided(rules: seq<Rule>, ifrs: set<string>, code: string) {
    exists k :: 0 <= k < |rules| && Decides(rules, ifrs, code, k)
  }

  lemma {:induction false} MapCodeFollowsTheRules(rules: seq<Rule>, ifrs: set<string>, code: string, target: string)
    ensures MapCode(rules, ifrs, code) == Some(target) <==> MapsTo(rules, ifrs, code, target)
  {
    if rules != [] {
      var tail := rules[1..];
      MapCodeFollowsTheRules(tail, ifrs, code, target);
      assert forall j :: 0 <= j < |tail| ==> tail[j] == rules[j + 1];
      if MapsTo(rules, ifrs, code, target) {
        var i :| 0 <= i < |rules| && Decides(rules, ifrs, code, i) && rules[i].target == target;
        assert i > 0 ==> Decides(tail, ifrs, code, i - 1);
      }
      if MapCode(rules, ifrs, code) == Some(target) {
        if rules[0].active && rules[0].source == code && rules[0].target in ifrs {
          assert Decides(rules, ifrs, code, 0);
        } else {
          var i :| 0 <= i < |tail| && Decides(tail, ifrs, code, i) && tail[i].target == target;
          assert forall j :: 0 < j <= i ==> rules[j] == tail[j - 1];
          assert Decides(rules, ifrs, code, i + 1);
        }
      }
    }
  }

  lemma MapCodeFollowsAllRules(rules: seq<Rule>, ifrs: set<string>)
    ensures forall code, target :: MapCode(rules, ifrs, code) == Some(target) <==> MapsTo(rules, ifrs, code, target)
  {
    forall code, target ensures MapCode(rules, ifrs, code) == Some(target) <==> MapsTo(rules, ifrs, code, target) {
      MapCodeFollowsTheRules(rules, ifrs, code, target);
    }
  }

  lemma MappedWhenDecided(rules: seq<Rule>, ifrs: set<string>, code: string)
    ensures MapCode(rules, ifrs, code).Some? <==> IsDecided(rules, ifrs, code)
  {
    hide Decides;
    var r := MapCode(rules, ifrs, code);
    if r.Some? {
      MapCodeFollowsTheRules(rules, ifrs, code, r.value);
    }
    if k :| 0 <= k < |rules| && Decides(rules, ifrs, code, k) {
      MapCodeFollowsTheRules(rules, ifrs, code, rules[k].target);
    }
  }

  predicate AllMapped(rules: seq<Rule>, ifrs: set<string>, lines: seq<Line>) {
    forall i :: 0 <= i < |lines| ==> MapCode(rules, ifrs, lines[i].code).Some?
  }

  /** `moved` is `lines` line for line, on the accounts they are mapped to. */
  predicate MovedLines(rules: seq<Rule>, ifrs: set<string>, lines: seq<Line>, moved: seq<Line>) {
    && |moved| == |lines|
    && forall i :: 0 <= i < |lines| ==>
         && MapsTo(rules, ifrs, lines[i].code, moved[i].code)
         && moved[i].debit == lines[i].debit && moved[i].credit == lines[i].credit
  }

  function Remap(rules: seq<Rule>, ifrs: set<string>, lines: seq<Line>): (r: seq<Line>)
    requires AllMapped(rules, ifrs, lines)
    ensures |r| == |lines|
    ensures forall i :: 0 <= i < |r| ==> r[i] == lines[i].(code := MapCode(rules, ifrs, lines[i].code).value)
  {
    seq(|lines|, i requires 0 <= i < |lines| => lines[i].(code := MapCode(rules, ifrs, lines[i].code).value))
  }

  /** The entries `mirrorFromNas` writes: one per NAS line, or none. */
  function Mirror(rules: seq<Rule>, ifrs: set<string>, lines: seq<Line>, tx: nat): seq<Entry> {
    if !AllMapped(rules, ifrs, lines) then []
    else
      var staged := Remap(rules, ifrs, lines);
      if SumDebit(staged) != SumCredit(staged) then [] else StoreAll(staged, tx, IFRS)
  }

  function EntriesOf(b: Books, j: Journal): seq<Entry> {
    StoreAll(j.lines, |b.txs|, j.ledger) + (if j.ledger == NAS then Mirror(b.rules, b.ifrs, j.lines, |b.txs|) else [])
  }

  function Append(b: Books, j: Journal): Books {
    b.(txs := b.txs + [TxRow(j.date, j.reference, j.isFinal, j.counterparty)],
       entries := b.entries + EntriesOf(b, j))
  }

  /** `postJournalInTransaction` */
  function Post(b: Books, j: Journal): Result<Books, Error> {
    match JournalError(b, j)
    case Some(e) => Failure(e)
    case None => Success(Append(b, j))
  }

  /** `postTransaction`: the journal in a transaction of its own, which a throw rolls back. */
  function PostOrKeep(b: Books, j: Journal): Books {
    match Post(b, j)
    case Success(b') => b'
    case Failure(_) => b
  }

  // ----- The services

  lemma {:induction false} SumsOfRemap(rules: seq<Rule>, ifrs: set<string>, lines: seq<Line>)
    requires AllMapped(rules, ifrs, lines)
    ensures SumDebit(Remap(rules, ifrs, lines)) == SumDebit(lines)
    ensures SumCredit(Remap(rules, ifrs, lines)) == SumCredit(lines)
  {
    if lines != [] {
      var n := |lines| - 1;
      SumsOfRemap(rules, ifrs, lines[..n]);
      assert Remap(rules, ifrs, lines)[..n] == Remap(rules, ifrs, lines[..n]);
    }
  }

  /** The shadow of lines that balance: one entry per line on the target of the rule that decides about it, or none
      if no rule decides about some line. */
  predicate ShadowsLines(rules: seq<Rule>, ifrs: set<string>, lines: seq<Line>, tx: nat, shadow: seq<Entry>) {
    if forall i :: 0 <= i < |lines| ==> IsDecided(rules, ifrs, lines[i].code) then
      && |shadow| == |lines|
      && forall i :: 0 <= i < |lines| ==>
           && shadow[i] == Entry(tx, IFRS, shadow[i].code, HalfUp(lines[i].debit), HalfUp(lines[i].credit))
           && MapsTo(rules, ifrs, lines[i].code, shadow[i].code)
    else shadow == []
  }

  lemma MirrorShadowsLines(rules: seq<Rule>, ifrs: set<string>, lines: seq<Line>, tx: nat)
    requires SumDebit(lines) == SumCredit(lines)
    ensures ShadowsLines(rules, ifrs, lines, tx, Mirror(rules, ifrs, lines, tx))
  {
    hide MapCode, MapsTo, IsDecided, HalfUp;
    forall i | 0 <= i < |lines|
      ensures MapCode(rules, ifrs, lines[i].code).Some? <==> IsDecided(rules, ifrs, lines[i].code)
      ensures var r := MapCode(rules, ifrs, lines[i].code); r.Some? ==> MapsTo(rules, ifrs, lines[i].code, r.value)
    {
      var code := lines[i].code;
      MappedWhenDecided(rules, ifrs, code);
      if MapCode(rules, ifrs, code).Some? {
        MapCodeFollowsTheRules(rules, ifrs, code, MapCode(rules, ifrs, code).value);
      }
    }
    if AllMapped(rules, ifrs, lines) {
      SumsOfRemap(rules, ifrs, lines);
    } else {
      var i :| 0 <= i < |lines| && MapCode(rules, ifrs, lines[i].code).None?;
      assert !IsDecided(rules, ifrs, lines[i].code);
    }
  }

  class AccountingService {
    var nas: set<string>
    var ifrs: set<string>
    var departments: set<string>
    var rules: seq<Rule>
    var closed: set<int>
    var lock: Option<int>
    var txs: seq<TxRow>
    var entries: seq<Entry>

    function State(): Books
      reads this
    {
      Books(nas, ifrs, departments, rules, closed, lock, txs, entries)
    }

    constructor (b: Books)
      ensures State() == b
    {
      nas, ifrs, departments, rules := b.nas, b.ifrs, b.departments, b.rules;
      closed, lock, txs, entries := b.closed, b.lock, b.txs, b.entries;
    }

    /** Brings the tables back to an earlier state: the rollback of a transaction. */
    method Restore(b: Books)
      modifies this
      ensures State() == b
    {
      nas, ifrs, departments, rules := b.nas, b.ifrs, b.departments, b.rules;
      closed, lock, txs, entries := b.closed, b.lock, b.txs, b.entries;
    }

    static method ValidateBalance(lines: seq<Line>) returns (error: Option<Error>)
      ensures error == BalanceError(lines)
      ensures error.None? <==>
              && lines != []
              && (forall i :: 0 <= i < |lines| ==> !(lines[i].debit > 0.0 && lines[i].credit > 0.0))
              && SumDebit(lines) == SumCredit(lines) > 0.0
    {
      if |lines| == 0 {
        return Some(LinesRequired);
      }
      var sumDr, sumCr := 0.0, 0.0;
      for i := 0 to |lines|
        invariant sumDr == SumDebit(lines[..i]) && sumCr == SumCredit(lines[..i])
        invariant FirstBothSides(lines) == FirstBothSides(lines[i..])
      {
        if lines[i].debit > 0.0 && lines[i].credit > 0.0 {
          return Some(BothSidesSet(lines[i].code));
        }
        assert lines[..i + 1][..i] == lines[..i];
        assert lines[i..][1..] == lines[i + 1..];
        sumDr := sumDr + lines[i].debit;
        sumCr := sumCr + lines[i].credit;
      }
      assert lines[..|lines|] == lines;
      if sumDr != sumCr || sumDr <= 0.0 {
        return Some(Unbalanced);
      }
      return None;
    }

    /** The rules that apply to the source codes, first rule first; rules without an IFRS account are passed over. */
    method RuleBySource() returns (ruleBySource: map<string, string>)
      ensures forall c :: c in ruleBySource <==> MapCode(rules, ifrs, c).Some?
      ensures forall c :: c in ruleBySource ==> Some(ruleBySource[c]) == MapCode(rules, ifrs, c)
      ensures forall c, t :: (c, t) in ruleBySource.Items <==> MapsTo(rules, ifrs, c, t)
    {
      MapCodeFollowsAllRules(rules, ifrs);
      ruleBySource := map[];
      for i := 0 to |rules|
        invariant forall c :: MapCode(rules, ifrs, c) ==
                              if c in ruleBySource then Some(ruleBySource[c]) else MapCode(rules[i..], ifrs, c)
      {
        var r := rules[i];
        assert rules[i..][1..] == rules[i + 1..];
        if r.active && r.target in ifrs {
          if r.source !in ruleBySource {
            ruleBySource := ruleBySource[r.source := r.target];
          }
        }
      }
    }

    /** The staged lines, or None as soon as a line has no IFRS account. */
    method Stage(nasLines: seq<Line>) returns (staged: Option<seq<Line>>)
      ensures staged == if AllMapped(rules, ifrs, nasLines) then Some(Remap(rules, ifrs, nasLines)) else None
      ensures staged.None? ==> exists i :: 0 <= i < |nasLines| && forall t :: !MapsTo(rules, ifrs, nasLines[i].code, t)
      ensures staged.Some? ==> MovedLines(rules, ifrs, nasLines, staged.value)
    {
      MapCodeFollowsAllRules(rules, ifrs);
      hide MapsTo, MapCode;
      var ruleBySource := RuleBySource();
      var done: seq<Line> := [];
      for i := 0 to |nasLines|
        invariant AllMapped(rules, ifrs, nasLines[..i])
        invariant done == Remap(rules, ifrs, nasLines[..i])
      {
        var line := nasLines[i];
        if line.code !in ruleBySource {
          return None;
        }
        done := done + [line.(code := ruleBySource[line.code])];
      }
      assert nasLines[..|nasLines|] == nasLines;
      return Some(done);
    }

    static method SumLines(lines: seq<Line>) returns (sumDr: real, sumCr: real)
      ensures sumDr == SumDebit(lines) && sumCr == SumCredit(lines)
    {
      sumDr, sumCr := 0.0, 0.0;
      for i := 0 to |lines|
        invariant sumDr == SumDebit(lines[..i]) && sumCr == SumCredit(lines[..i])
      {
        assert lines[..i + 1][..i] == lines[..i];
        sumDr := sumDr + lines[i].debit;
        sumCr := sumCr + lines[i].credit;
      }
      assert lines[..|lines|] == lines;
    }

    method MirrorFromNas(tx: nat, nasLines: seq<Line>)
      modifies this`entries
      ensures entries == old(entries) + Mirror(rules, ifrs, nasLines, tx)
      ensures SumDebit(nasLines) == SumCredit(nasLines) ==>
              ShadowsLines(rules, ifrs, nasLines, tx, entries[|old(entries)|..])
    {
      hide ShadowsLines, MovedLines;
      if SumDebit(nasLines) == SumCredit(nasLines) {
        MirrorShadowsLines(rules, ifrs, nasLines, tx);
      }
      ghost var before := entries;
      var staged := Stage(nasLines);
      if staged.None? {
        assert entries[|before|..] == Mirror(rules, ifrs, nasLines, tx);
        return;
      }
      var sumDr, sumCr := SumLines(staged.value);
      if sumDr != sumCr {
        assert entries[|before|..] == Mirror(rules, ifrs, nasLines, tx);
        return;
      }
      WriteEntries(tx, IFRS, staged.value);
      assert entries[|before|..] == Mirror(rules, ifrs, nasLines, tx);
    }

    /** One `journalEntry.create` per line. */
    method WriteEntries(tx: nat, ledger: LedgerType, lines: seq<Line>)
      modifies this`entries
      ensures entries == old(entries) + StoreAll(lines, tx, ledger)
    {
      for i := 0 to |lines|
        invariant entries == old(entries) + StoreAll(lines, tx, ledger)[..i]
      {
        entries := entries + [Entry(tx, ledger, lines[i].code, HalfUp(lines[i].debit), HalfUp(lines[i].credit))];
      }
    }

    method FindMissingAccount(codes: set<string>, lines: seq<Line>) returns (error: Option<Error>)
      ensures error == MissingAccount(codes, lines)
    {
      for i := 0 to |lines|
        invariant MissingAccount(codes, lines) == MissingAccount(codes, lines[i..])
      {
        if lines[i].code !in codes {
          return Some(AccountNotFound(lines[i].code));
        }
        assert lines[i..][1..] == lines[i + 1..];
      }
      return None;
    }

    /** Writes the transaction row, its entries and, for the national ledger, the mirrored entries. */
    method Record(j: Journal) returns (id: nat)
      modifies this`txs, this`entries
      ensures id == |old(txs)| && txs == old(txs) + [TxRow(j.date, j.reference, j.isFinal, j.counterparty)]
      ensures entries == old(entries) + EntriesOf(old(State()), j)
    {
      hide Mirror, StoreAll;
      id := |txs|;
      txs := txs + [TxRow(j.date, j.reference, j.isFinal, j.counterparty)];
      WriteEntries(id, j.ledger, j.lines);
      if j.ledger == NAS {
        MirrorFromNas(id, j.lines);
      }
    }

    method PostJournal(j: Journal) returns (r: Result<nat, Error>)
      modifies this
      ensures r.Success? ==> Post(old(State()), j) == Success(State()) && r.value == |old(txs)|
      ensures r.Failure? ==> Post(old(State()), j) == Failure(r.error) && State() == old(State())
    {
      var unbalanced := ValidateBalance(j.lines);
      if unbalanced.Some? {
        return Failure(unbalanced.value);
      }
      if j.date.month in closed {
        return Failure(PeriodClosed);
      }
      if lock.Some? && j.date.time <= lock.value {
        return Failure(PeriodLocked);
      }
      var missing := FindMissingAccount(if j.ledger == NAS then nas else ifrs, j.lines);
      if missing.Some? {
        return Failure(missing.value);
      }
      if j.department.Some? && j.department.value != "" && j.department.value !in departments {
        return Failure(DepartmentNotFound);
      }
      var id := Record(j);
      return Success(id);
    }
  }
}
