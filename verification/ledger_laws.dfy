/** Net turnovers of the ledger, and what every accepted posting does to them. */
module LedgerLaws {
  import opened Wrappers
  import opened Money
  import opened Ledger

  datatype TxFilter =
    | AnyTx
    | OneTx(id: nat)
    | Among(ids: set<nat>)
    | WithCounterparty(counterparty: string)
    | NettingTx
    | DepreciationTx

  /** Which entries a turnover counts; `codes` is None for all accounts. */
  datatype Selection = Selection(ledger: LedgerType, codes: Option<set<string>>, txs: TxFilter)

  predicate PicksTx(txs: seq<TxRow>, f: TxFilter, id: nat) {
    match f
    case AnyTx => true
    case OneTx(i) => id == i
    case Among(ids) => id in ids
    case WithCounterparty(cp) => id < |txs| && txs[id].counterparty == Some(cp)
    case NettingTx => id < |txs| && txs[id].reference.NettingRef?
    case DepreciationTx => id < |txs| && txs[id].reference.DepreciationRef?
  }

  predicate Picks(txs: seq<TxRow>, sel: Selection, e: Entry) {
    e.ledger == sel.ledger && (sel.codes.Some? ==> e.code in sel.codes.value) && PicksTx(txs, sel.txs, e.tx)
  }

  /** Debits minus credits over the selected entries. */
  function Net(txs: seq<TxRow>, es: seq<Entry>, sel: Selection): int {
    if es == [] then 0
    else
      var e := es[|es| - 1];
      Net(txs, es[..|es| - 1], sel) + if Picks(txs, sel, e) then e.debit - e.credit else 0
  }

  function Turnover(b: Books, sel: Selection): int {
    Net(b.txs, b.entries, sel)
  }

  function Trial(b: Books, ledger: LedgerType): int {
    Turnover(b, Selection(ledger, None, AnyTx))
  }

  lemma {:induction false} NetAppend(txs: seq<TxRow>, es: seq<Entry>, fs: seq<Entry>, sel: Selection)
    ensures Net(txs, es + fs, sel) == Net(txs, es, sel) + Net(txs, fs, sel)
  {
    if fs == [] {
      assert es + fs == es;
    } else {
      var n := |fs| - 1;
      assert (es + fs)[..|es + fs| - 1] == es + fs[..n];
      NetAppend(txs, es, fs[..n], sel);
    }
  }

  /** Turnovers are decided by which entries are picked. */
  lemma {:induction false} NetSame(txs: seq<TxRow>, txs': seq<TxRow>, es: seq<Entry>, sel: Selection, sel': Selection)
    requires forall i :: 0 <= i < |es| ==> Picks(txs, sel, es[i]) == Picks(txs', sel', es[i])
    ensures Net(txs, es, sel) == Net(txs', es, sel')
  {
    if es != [] {
      NetSame(txs, txs', es[..|es| - 1], sel, sel');
    }
  }

  lemma {:induction false} NetNone(txs: seq<TxRow>, es: seq<Entry>, sel: Selection)
    requires forall i :: 0 <= i < |es| ==> !Picks(txs, sel, es[i])
    ensures Net(txs, es, sel) == 0
  {
    if es != [] {
      NetNone(txs, es[..|es| - 1], sel);
    }
  }

  lemma NetOfEntry(txs: seq<TxRow>, e: Entry, sel: Selection)
    ensures Net(txs, [e], sel) == if Picks(txs, sel, e) then e.debit - e.credit else 0
  {
    assert [e][..0] == [];
  }

  /** The turnover over two disjoint sets of accounts is the sum of the two turnovers. */
  lemma {:induction false} NetOfUnion(
    txs: seq<TxRow>, es: seq<Entry>, ledger: LedgerType, f: TxFilter, a: set<string>, b: set<string>)
    requires a !! b
    ensures Net(txs, es, Selection(ledger, Some(a + b), f)) ==
            Net(txs, es, Selection(ledger, Some(a), f)) + Net(txs, es, Selection(ledger, Some(b), f))
  {
    if es != [] {
      NetOfUnion(txs, es[..|es| - 1], ledger, f, a, b);
    }
  }

  // ----- What posting adds

  /** What is left of debits minus credits once every amount has been stored. */
  function Skew(lines: seq<Line>): int {
    if lines == [] then 0
    else
      var l := lines[|lines| - 1];
      Skew(lines[..|lines| - 1]) + HalfUp(l.debit) - HalfUp(l.credit)
  }

  function OffGridLine(l: Line): nat {
    (if OnGrid(l.debit) then 0 else 1) + (if OnGrid(l.credit) then 0 else 1)
  }

  /** How many amounts of a journal storing rounds. */
  function OffGrid(lines: seq<Line>): nat {
    if lines == [] then 0 else OffGrid(lines[..|lines| - 1]) + OffGridLine(lines[|lines| - 1])
  }

  lemma RoundingError(x: real)
    ensures Abs(HalfUp(x) as real - x) <= if OnGrid(x) then 0.0 else 0.5
  {
    HalfUpIsNearest(x, HalfUp(x));
    if OnGrid(x) {
      HalfUpOfInt(x.Floor);
    }
  }

  lemma {:induction false} SkewNearExact(lines: seq<Line>)
    ensures 2.0 * Abs(Skew(lines) as real - (SumDebit(lines) - SumCredit(lines))) <= OffGrid(lines) as real
  {
    hide HalfUp, OnGrid;
    if lines != [] {
      var l := lines[|lines| - 1];
      SkewNearExact(lines[..|lines| - 1]);
      RoundingError(l.debit);
      RoundingError(l.credit);
    }
  }

  /** Rounding moves an accepted journal off balance by at most half a unit per rounded amount;
      a journal with no amount finer than 0.0001 AZN is stored in balance. */
  lemma SkewBound(lines: seq<Line>)
    requires BalanceError(lines).None?
    ensures 2 * Skew(lines) <= OffGrid(lines) && -2 * Skew(lines) <= OffGrid(lines)
  {
    SkewNearExact(lines);
  }

  lemma {:induction false} NetOfStored(txs: seq<TxRow>, lines: seq<Line>, tx: nat, ledger: LedgerType, sel: Selection)
    requires sel.codes.None?
    ensures Net(txs, StoreAll(lines, tx, ledger), sel) ==
            if ledger == sel.ledger && PicksTx(txs, sel.txs, tx) then Skew(lines) else 0
  {
    if lines != [] {
      var n := |lines| - 1;
      NetOfStored(txs, lines[..n], tx, ledger, sel);
      assert StoreAll(lines, tx, ledger)[..n] == StoreAll(lines[..n], tx, ledger);
    }
  }

  lemma {:induction false} SkewOfRemap(rules: seq<Rule>, ifrs: set<string>, lines: seq<Line>)
    requires AllMapped(rules, ifrs, lines)
    ensures Skew(Remap(rules, ifrs, lines)) == Skew(lines)
  {
    if lines != [] {
      var n := |lines| - 1;
      SkewOfRemap(rules, ifrs, lines[..n]);
      assert Remap(rules, ifrs, lines)[..n] == Remap(rules, ifrs, lines[..n]);
    }
  }

  /** The guard of `mirrorFromNas` never fires: an accepted journal is mirrored line by line or not at all. */
  lemma MirrorIsAllOrNothing(b: Books, lines: seq<Line>, tx: nat)
    requires BalanceError(lines).None?
    ensures Mirror(b.rules, b.ifrs, lines, tx) ==
            if AllMapped(b.rules, b.ifrs, lines) then StoreAll(Remap(b.rules, b.ifrs, lines), tx, IFRS) else []
  {
    if AllMapped(b.rules, b.ifrs, lines) {
      SumsOfRemap(b.rules, b.ifrs, lines);
    }
  }

  /** What an accepted journal adds to a turnover over all accounts: its skew, wherever it is written. */
  function Added(b: Books, j: Journal, ledger: LedgerType): int {
    if ledger == j.ledger then Skew(j.lines)
    else if j.ledger == NAS && AllMapped(b.rules, b.ifrs, j.lines) then Skew(j.lines)
    else 0
  }

  lemma SumsOfOne(l: Line)
    ensures SumDebit([l]) == l.debit && SumCredit([l]) == l.credit && Skew([l]) == HalfUp(l.debit) - HalfUp(l.credit)
  {
    assert [l][..0] == [];
  }

  /** The sums are those of the lines, whichever way they are put together. */
  lemma {:induction false} LineSumsAdd(xs: seq<Line>, ys: seq<Line>)
    ensures SumDebit(xs + ys) == SumDebit(xs) + SumDebit(ys) && SumCredit(xs + ys) == SumCredit(xs) + SumCredit(ys)
    ensures Skew(xs + ys) == Skew(xs) + Skew(ys)
  {
    if ys == [] {
      assert xs + ys == xs;
    } else {
      assert (xs + ys)[..|xs + ys| - 1] == xs + ys[..|ys| - 1];
      LineSumsAdd(xs, ys[..|ys| - 1]);
    }
  }

  // ----- What is posted

  /** A journal for IFRS is checked against the IFRS chart, one for NAS against the national chart. */
  predicate AccountsExist(b: Books, j: Journal) {
    forall i :: 0 <= i < |j.lines| ==> j.lines[i].code in if j.ledger.IFRS? then b.ifrs else b.nas
  }

  predicate BalancedAsSent(lines: seq<Line>) {
    && lines != []
    && (forall i :: 0 <= i < |lines| ==> !(lines[i].debit > 0.0 && lines[i].credit > 0.0))
    && SumDebit(lines) == SumCredit(lines) > 0.0
  }

  /** Exactly these journals are accepted, and this is what a rejected one is rejected for: the balance is looked at
      first, then the period, then the accounts, then the department. */
  lemma PostSucceedsIff(b: Books, j: Journal)
    ensures var r := Post(b, j);
            var open := j.date.month !in b.closed && (b.lock.Some? ==> b.lock.value < j.date.time);
            var departmentKnown := j.department.None? || j.department.value in b.departments + {""};
            && (r.Success? <==> BalancedAsSent(j.lines) && open && AccountsExist(b, j) && departmentKnown)
            && (r.Failure? ==>
                  match r.error
                  case LinesRequired => j.lines == []
                  case BothSidesSet(_) => exists i :: 0 <= i < |j.lines| && BothSides(j.lines[i])
                  case Unbalanced => SumDebit(j.lines) != SumCredit(j.lines) || SumDebit(j.lines) <= 0.0
                  case PeriodClosed => BalancedAsSent(j.lines) && j.date.month in b.closed
                  case PeriodLocked => BalancedAsSent(j.lines) && j.date.month !in b.closed && !open
                  case AccountNotFound(_) => BalancedAsSent(j.lines) && open && !AccountsExist(b, j)
                  case DepartmentNotFound =>
                    BalancedAsSent(j.lines) && open && AccountsExist(b, j) && !departmentKnown)
  {
    hide FirstBothSides, MissingAccount, SumDebit, SumCredit, EntriesOf;
    var codes := if j.ledger.IFRS? then b.ifrs else b.nas;
    assert b.Codes(j.ledger) == codes;
    assert MissingAccount(codes, j.lines).None? <==> AccountsExist(b, j);
    assert BalanceError(j.lines).None? <==> BalancedAsSent(j.lines);
    ErrorKinds(codes, j.lines);
  }

  lemma {:induction false} ErrorKinds(codes: set<string>, lines: seq<Line>)
    ensures MissingAccount(codes, lines).Some? ==> MissingAccount(codes, lines).value.AccountNotFound?
    ensures FirstBothSides(lines).Some? ==> FirstBothSides(lines).value.BothSidesSet?
  {
    if lines != [] {
      ErrorKinds(codes, lines[1..]);
    }
  }

  /** The rows an accepted journal adds: the transaction, one entry per line with its amounts rounded, and for NAS
      the shadow. */
  lemma PostWrites(b: Books, j: Journal)
    requires Post(b, j).Success?
    ensures var b', n, at := Post(b, j).value, |j.lines|, |b.entries|;
            && b' == b.(txs := b.txs + [TxRow(j.date, j.reference, j.isFinal, j.counterparty)], entries := b'.entries)
            && b.entries <= b'.entries && |b'.entries| >= at + n
            && (forall i :: 0 <= i < n ==>
                  b'.entries[at + i] ==
                  Entry(|b.txs|, j.ledger, j.lines[i].code, HalfUp(j.lines[i].debit), HalfUp(j.lines[i].credit)))
            && (if j.ledger.NAS? then ShadowsLines(b.rules, b.ifrs, j.lines, |b.txs|, b'.entries[at + n..])
                else b'.entries[at + n..] == [])
  {
    if j.ledger.NAS? {
      MirrorShadowsLines(b.rules, b.ifrs, j.lines, |b.txs|);
    }
    hide JournalError, Mirror, ShadowsLines, HalfUp;
    var b', own := Post(b, j).value, StoreAll(j.lines, |b.txs|, j.ledger);
    assert b'.entries == b.entries + EntriesOf(b, j);
    assert b'.entries[|b.entries| + |j.lines|..] ==
           if j.ledger.NAS? then Mirror(b.rules, b.ifrs, j.lines, |b.txs|) else [];
    forall i | 0 <= i < |j.lines| ensures b'.entries[|b.entries| + i] == own[i] {
    }
  }

  /** A posting writes entries of its own transaction only, to its own ledger or as a shadow of NAS. */
  lemma PostedEntries(b: Books, j: Journal)
    requires BalanceError(j.lines).None?
    ensures forall i :: 0 <= i < |EntriesOf(b, j)| ==> EntriesOf(b, j)[i].tx == |b.txs|
  {
    MirrorIsAllOrNothing(b, j.lines, |b.txs|);
    hide Mirror, BalanceError;
  }

  /** Any turnover after a posting is the turnover before it plus that of the new entries. */
  lemma TurnoverOfPost(b: Books, j: Journal, sel: Selection)
    requires b.WellFormed() && Post(b, j).Success?
    ensures Post(b, j).value.WellFormed()
    ensures Turnover(Post(b, j).value, sel) == Turnover(b, sel) + Net(Post(b, j).value.txs, EntriesOf(b, j), sel)
  {
    hide Mirror, BalanceError, Net;
    var b' := Post(b, j).value;
    NetAppend(b'.txs, b.entries, EntriesOf(b, j), sel);
    NetSame(b.txs, b'.txs, b.entries, sel, sel);
    MirrorIsAllOrNothing(b, j.lines, |b.txs|);
  }

  lemma NetOfPosted(b: Books, j: Journal, ledger: LedgerType, f: TxFilter)
    requires Post(b, j).Success?
    ensures Net(Post(b, j).value.txs, EntriesOf(b, j), Selection(ledger, None, f)) ==
            if PicksTx(Post(b, j).value.txs, f, |b.txs|) then Added(b, j, ledger) else 0
  {
    var txs', t, sel := Post(b, j).value.txs, |b.txs|, Selection(ledger, None, f);
    MirrorIsAllOrNothing(b, j.lines, t);
    NetOfStored(txs', j.lines, t, j.ledger, sel);
    if j.ledger == NAS {
      NetAppend(txs', StoreAll(j.lines, t, NAS), Mirror(b.rules, b.ifrs, j.lines, t), sel);
      if AllMapped(b.rules, b.ifrs, j.lines) {
        NetOfStored(txs', Remap(b.rules, b.ifrs, j.lines), t, IFRS, sel);
        SkewOfRemap(b.rules, b.ifrs, j.lines);
      }
    } else {
      assert EntriesOf(b, j) == StoreAll(j.lines, t, IFRS);
    }
  }

  /** Every transaction balances in each ledger, and so do the two trial balances. */
  ghost predicate InBalance(b: Books) {
    && (forall l :: Trial(b, l) == 0)
    && (forall l, t: nat :: Turnover(b, Selection(l, None, OneTx(t))) == 0)
  }

  /** A posting keeps the books in balance exactly when its journal is stored in balance; books that are out of
      balance stay so. */
  lemma PostKeepsBalance(b: Books, j: Journal)
    requires b.WellFormed() && Post(b, j).Success?
    ensures InBalance(Post(b, j).value) <==> InBalance(b) && Skew(j.lines) == 0
  {
    hide Post, Net, Skew;
    var b', n := Post(b, j).value, |b.txs|;
    forall l, f ensures Turnover(b', Selection(l, None, f)) ==
                        Turnover(b, Selection(l, None, f)) + if PicksTx(b'.txs, f, n) then Added(b, j, l) else 0
    {
      TurnoverOfPost(b, j, Selection(l, None, f));
      NetOfPosted(b, j, l, f);
    }
    if InBalance(b) && Skew(j.lines) == 0 {
      forall l ensures Trial(b', l) == 0 {
        assert Trial(b, l) == 0;
      }
      forall l, t: nat ensures Turnover(b', Selection(l, None, OneTx(t))) == 0 {
        assert Turnover(b, Selection(l, None, OneTx(t))) == 0;
      }
    }
    if InBalance(b') {
      NetNone(b.txs, b.entries, Selection(j.ledger, None, OneTx(n)));
      assert Turnover(b', Selection(j.ledger, None, OneTx(n))) == 0;
      assert Skew(j.lines) == 0;
      forall l ensures Trial(b, l) == 0 {
        assert Trial(b', l) == 0;
      }
      forall l, t: nat ensures Turnover(b, Selection(l, None, OneTx(t))) == 0 {
        assert Turnover(b', Selection(l, None, OneTx(t))) == 0;
      }
    }
  }

  lemma SumsOfThree(a: Line, b: Line, c: Line)
    ensures SumDebit([a, b, c]) == a.debit + b.debit + c.debit
    ensures SumCredit([a, b, c]) == a.credit + b.credit + c.credit
    ensures Skew([a, b, c]) == HalfUp(a.debit) - HalfUp(a.credit) + HalfUp(b.debit) - HalfUp(b.credit)
                               + HalfUp(c.debit) - HalfUp(c.credit)
  {
    assert [a, b, c][..2] == [a, b] && [a, b][..1] == [a] && [a][..0] == [];
    assert SumDebit([a]) == a.debit && SumCredit([a]) == a.credit && Skew([a]) == HalfUp(a.debit) - HalfUp(a.credit);
    assert SumDebit([a, b]) == a.debit + b.debit && SumCredit([a, b]) == a.credit + b.credit;
  }

  /** `validateBalance` compares exact amounts, the table holds rounded ones: two debits of half a
      unit against a credit of one unit are accepted and stored two to one. */
  lemma AcceptedOffBalance(b: Books, date: Date)
    requires b.WellFormed() && !IsFrozen(b, date) && {"101", "601"} <= b.nas
    ensures var j := Journal(date, Text(""), true, None, None, NAS,
                             [Line("101", 0.5, 0.0), Line("101", 0.5, 0.0), Line("601", 0.0, 1.0)]);
            Post(b, j).Success? && Trial(Post(b, j).value, NAS) == Trial(b, NAS) + 1
  {
    var half, one := Line("101", 0.5, 0.0), Line("601", 0.0, 1.0);
    var lines := [half, half, one];
    var j := Journal(date, Text(""), true, None, None, NAS, lines);
    SumsOfThree(half, half, one);
    assert SumDebit(lines) == 1.0 && SumCredit(lines) == 1.0 && Skew(lines) == 1;
    assert BalanceError(lines).None?;
    TurnoverOfPost(b, j, Selection(NAS, None, AnyTx));
    NetOfPosted(b, j, NAS, AnyTx);
  }
}
