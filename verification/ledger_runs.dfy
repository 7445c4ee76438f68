/** Safety of the ledger over whole runs: any sequence of postings, accepted or rejected,
    interleaved with period closures, lock changes and changes of the chart and the mapping rules. */
module LedgerRuns {
  import opened Wrappers
  import opened Ledger
  import opened LedgerLaws

  /** `WriteSettings` puts back closed months and lock as they were read at some earlier time. */
  datatype Event =
    | Posting(journal: Journal)
    | WriteSettings(months: set<int>, until: Option<int>)
    | CloseMonth(month: int)
    | SetLock(until: Option<int>)
    | Configure(nas: set<string>, ifrs: set<string>, departments: set<string>, rules: seq<Rule>)

  function Apply(b: Books, e: Event): Books {
    match e
    case Posting(j) => PostOrKeep(b, j)
    case CloseMonth(m) => b.(closed := b.closed + {m})
    case SetLock(until) => b.(lock := until)
    case WriteSettings(months, until) => b.(closed := months, lock := until)
    case Configure(nas, ifrs, departments, rules) =>
      b.(nas := nas, ifrs := ifrs, departments := departments, rules := rules)
  }

  function Run(b: Books, es: seq<Event>): Books {
    if es == [] then b else Apply(Run(b, es[..|es| - 1]), es[|es| - 1])
  }

  lemma {:induction false} RunOfConcat(b: Books, es: seq<Event>, fs: seq<Event>)
    ensures Run(b, es + fs) == Run(Run(b, es), fs)
  {
    if fs == [] {
      assert es + fs == es;
    } else {
      var n := |fs| - 1;
      assert (es + fs)[..|es + fs| - 1] == es + fs[..n];
      RunOfConcat(b, es, fs[..n]);
    }
  }

  predicate Accepted(b: Books, e: Event) {
    e.Posting? && Post(b, e.journal).Success?
  }

  lemma {:induction false} RunKeepsWellFormed(b: Books, es: seq<Event>)
    requires b.WellFormed()
    ensures Run(b, es).WellFormed()
  {
    if es != [] {
      var b', e := Run(b, es[..|es| - 1]), es[|es| - 1];
      RunKeepsWellFormed(b, es[..|es| - 1]);
      if Accepted(b', e) {
        TurnoverOfPost(b', e.journal, Selection(NAS, None, AnyTx));
      }
    }
  }

  // ----- Trial balances

  /** How far the accepted journals of a run move a trial balance. */
  function Moved(b: Books, es: seq<Event>, ledger: LedgerType): int {
    if es == [] then 0
    else
      var b', e := Run(b, es[..|es| - 1]), es[|es| - 1];
      Moved(b, es[..|es| - 1], ledger) + if Accepted(b', e) then Added(b', e.journal, ledger) else 0
  }

  /** How many amounts finer than 0.0001 AZN the accepted journals of a run carry. */
  function RoundedAmounts(b: Books, es: seq<Event>): nat {
    if es == [] then 0
    else
      var b', e := Run(b, es[..|es| - 1]), es[|es| - 1];
      RoundedAmounts(b, es[..|es| - 1]) + if Accepted(b', e) then OffGrid(e.journal.lines) else 0
  }

  /** Over every run the trial balance of either ledger drifts by exactly the rounding the accepted
      journals suffered, and by at most half a unit for each of their amounts that had to be rounded. */
  lemma {:induction false} TrialBalanceOverRuns(b: Books, es: seq<Event>, ledger: LedgerType)
    requires b.WellFormed()
    ensures Trial(Run(b, es), ledger) == Trial(b, ledger) + Moved(b, es, ledger)
    ensures 2 * Moved(b, es, ledger) <= RoundedAmounts(b, es) && -2 * Moved(b, es, ledger) <= RoundedAmounts(b, es)
  {
    if es != [] {
      var b', e := Run(b, es[..|es| - 1]), es[|es| - 1];
      TrialBalanceOverRuns(b, es[..|es| - 1], ledger);
      RunKeepsWellFormed(b, es[..|es| - 1]);
      if Accepted(b', e) {
        TurnoverOfPost(b', e.journal, Selection(ledger, None, AnyTx));
        NetOfPosted(b', e.journal, ledger, AnyTx);
        SkewBound(e.journal.lines);
      }
    }
  }

  /** Storing does not unbalance the journal offered, if it is accepted. */
  predicate KeptInBalance(b: Books, e: Event) {
    Accepted(b, e) ==> Skew(e.journal.lines) == 0
  }

  predicate KeptInBalanceAt(b: Books, es: seq<Event>, k: nat)
    requires k < |es|
  {
    KeptInBalance(Run(b, es[..k]), es[k])
  }

  lemma ApplyKeepsBalance(b: Books, e: Event)
    requires b.WellFormed()
    ensures InBalance(Apply(b, e)) <==> InBalance(b) && KeptInBalance(b, e)
  {
    if Accepted(b, e) {
      PostKeepsBalance(b, e.journal);
    } else {
      SameTables(b, Apply(b, e));
    }
  }

  lemma SameTables(b: Books, b': Books)
    requires b'.txs == b.txs && b'.entries == b.entries
    ensures InBalance(b') <==> InBalance(b)
  {
    assert forall sel :: Turnover(b', sel) == Turnover(b, sel);
    if InBalance(b) {
      forall l ensures Trial(b', l) == 0 { assert Trial(b, l) == 0; }
      forall l, t: nat ensures Turnover(b', Selection(l, None, OneTx(t))) ==
        0 { assert Turnover(b, Selection(l, None, OneTx(t))) == 0; }
    }
    if InBalance(b') {
      forall l ensures Trial(b, l) == 0 { assert Trial(b', l) == 0; }
      forall l, t: nat ensures Turnover(b, Selection(l, None, OneTx(t))) ==
        0 { assert Turnover(b', Selection(l, None, OneTx(t))) == 0; }
    }
  }

  /** Every transaction balances in each ledger, and so do the trial balances, exactly as long as storing
      unbalances none of the journals accepted; once out of balance, the books stay out of balance. */
  lemma {:induction false} EveryTransactionBalances(b: Books, es: seq<Event>)
    requires b.WellFormed() && InBalance(b)
    ensures InBalance(Run(b, es)) <==> forall k :: 0 <= k < |es| ==> KeptInBalanceAt(b, es, k)
  {
    hide InBalance, KeptInBalance, Apply;
    if es != [] {
      var n := |es| - 1;
      var before := es[..n];
      EveryTransactionBalances(b, before);
      RunKeepsWellFormed(b, before);
      ApplyKeepsBalance(Run(b, before), es[n]);
      hide Run;
      assert KeptInBalanceAt(b, es, n) == KeptInBalance(Run(b, before), es[n]);
      forall k | 0 <= k < n ensures KeptInBalanceAt(b, before, k) == KeptInBalanceAt(b, es, k) {
        assert before[..k] == es[..k];
      }
    }
  }

  predicate StoredInBalance(e: Event) {
    e.Posting? && BalanceError(e.journal.lines).None? ==> Skew(e.journal.lines) == 0
  }

  /** In particular if storing unbalances none of the journals offered. */
  lemma BalancedJournalsKeepBalance(b: Books, es: seq<Event>)
    requires b.WellFormed() && InBalance(b)
    requires forall i :: 0 <= i < |es| ==> StoredInBalance(es[i])
    ensures InBalance(Run(b, es))
  {
    EveryTransactionBalances(b, es);
  }

  // ----- Closed periods

  /** The entries, of either ledger, dated in a period that `at` has frozen. */
  function FrozenEntries(at: Books, txs: seq<TxRow>, es: seq<Entry>): seq<Entry> {
    if es == [] then []
    else
      var e := es[|es| - 1];
      FrozenEntries(at, txs, es[..|es| - 1]) + if e.tx < |txs| && IsFrozen(at, txs[e.tx].date) then [e] else []
  }

  /** A lock that is moved is moved forward, and no closed month is reopened. */
  predicate Tightens(b: Books, e: Event) {
    && (e.SetLock? || e.WriteSettings? ==> LaterLock(b.lock, e.until))
    && (e.WriteSettings? ==> b.closed <= e.months)
  }

  predicate LaterLock(lock: Option<int>, until: Option<int>) {
    lock.Some? ==> until.Some? && lock.value <= until.value
  }

  predicate OnlyTightens(b: Books, es: seq<Event>) {
    es == [] || (OnlyTightens(b, es[..|es| - 1]) && Tightens(Run(b, es[..|es| - 1]), es[|es| - 1]))
  }

  lemma {:induction false} FrozenGrows(b: Books, es: seq<Event>, date: Date)
    requires OnlyTightens(b, es) && IsFrozen(b, date)
    ensures IsFrozen(Run(b, es), date)
  {
    if es != [] {
      FrozenGrows(b, es[..|es| - 1], date);
    }
  }

  lemma {:induction false} FrozenAppend(at: Books, txs: seq<TxRow>, row: TxRow, es: seq<Entry>, fs: seq<Entry>)
    requires forall i :: 0 <= i < |es| ==> es[i].tx < |txs|
    requires forall i :: 0 <= i < |fs| ==> fs[i].tx == |txs|
    requires !IsFrozen(at, row.date)
    ensures FrozenEntries(at, txs + [row], es + fs) == FrozenEntries(at, txs, es)
  {
    if fs != [] {
      assert (es + fs)[..|es + fs| - 1] == es + fs[..|fs| - 1];
      FrozenAppend(at, txs, row, es, fs[..|fs| - 1]);
    } else if es != [] {
      assert es + fs == es && es[..|es| - 1] + fs == es[..|es| - 1];
      FrozenAppend(at, txs, row, es[..|es| - 1], fs);
    }
  }

  /** Once a period is closed or locked, no run that does not move the lock back changes the entries dated in it. */
  lemma {:induction false} ClosedPeriodsAreFrozen(b: Books, es: seq<Event>)
    requires b.WellFormed() && OnlyTightens(b, es)
    ensures b.txs <= Run(b, es).txs
    ensures FrozenEntries(b, Run(b, es).txs, Run(b, es).entries) == FrozenEntries(b, b.txs, b.entries)
  {
    if es != [] {
      var b', e := Run(b, es[..|es| - 1]), es[|es| - 1];
      ClosedPeriodsAreFrozen(b, es[..|es| - 1]);
      RunKeepsWellFormed(b, es[..|es| - 1]);
      if Accepted(b', e) {
        var j := e.journal;
        if IsFrozen(b, j.date) {
          FrozenGrows(b, es[..|es| - 1], j.date);
          assert false;
        }
        PostedEntries(b', j);
        FrozenAppend(b, b'.txs, TxRow(j.date, j.reference, j.isFinal, j.counterparty), b'.entries, EntriesOf(b', j));
      }
    }
  }

  // ----- The IFRS shadow

  /** The entries of one transaction in one ledger, in the order they were written. */
  function OfTx(es: seq<Entry>, ledger: LedgerType, tx: nat): seq<Entry> {
    if es == [] then []
    else
      var e := es[|es| - 1];
      OfTx(es[..|es| - 1], ledger, tx) + if e.ledger == ledger && e.tx == tx then [e] else []
  }

  /** Some rule decides about every code. */
  predicate EntriesMapped(rules: seq<Rule>, ifrs: set<string>, es: seq<Entry>) {
    forall i :: 0 <= i < |es| ==> IsDecided(rules, ifrs, es[i].code)
  }

  /** `shadow` is `es` line for line, moved to the targets of the rules that decide. */
  predicate IsShadow(rules: seq<Rule>, ifrs: set<string>, es: seq<Entry>, shadow: seq<Entry>) {
    && |shadow| == |es|
    && forall i :: 0 <= i < |es| ==>
         shadow[i] == es[i].(ledger := IFRS, code := shadow[i].code) && MapsTo(rules, ifrs, es[i].code, shadow[i].code)
  }

  /** Each NAS transaction has a complete shadow if all its accounts are mapped, and no IFRS entry otherwise. */
  predicate Shadowed(b: Books, tx: nat) {
    ShadowedPair(b.rules, b.ifrs, OfTx(b.entries, NAS, tx), OfTx(b.entries, IFRS, tx))
  }

  predicate ShadowedPair(rules: seq<Rule>, ifrs: set<string>, es: seq<Entry>, shadow: seq<Entry>) {
    es == [] || (if EntriesMapped(rules, ifrs, es) then IsShadow(rules, ifrs, es, shadow) else shadow == [])
  }

  lemma {:induction false} OfTxAppend(es: seq<Entry>, fs: seq<Entry>, ledger: LedgerType, tx: nat)
    ensures OfTx(es + fs, ledger, tx) == OfTx(es, ledger, tx) + OfTx(fs, ledger, tx)
  {
    if fs == [] {
      assert es + fs == es;
    } else {
      assert (es + fs)[..|es + fs| - 1] == es + fs[..|fs| - 1];
      OfTxAppend(es, fs[..|fs| - 1], ledger, tx);
    }
  }

  lemma {:induction false} OfTxUniform(es: seq<Entry>, ledger: LedgerType, tx: nat)
    ensures (forall i :: 0 <= i < |es| ==> es[i].ledger == ledger && es[i].tx == tx) ==> OfTx(es, ledger, tx) == es
    ensures (forall i :: 0 <= i < |es| ==> es[i].ledger != ledger || es[i].tx != tx) ==> OfTx(es, ledger, tx) == []
  {
    if es != [] {
      OfTxUniform(es[..|es| - 1], ledger, tx);
    }
  }

  /** Fixed mapping rules and IFRS accounts. */
  predicate KeepsMapping(b: Books, es: seq<Event>) {
    forall i :: 0 <= i < |es| && es[i].Configure? ==> es[i].rules == b.rules && es[i].ifrs == b.ifrs
  }

  /** The entries a posting writes are those of its own transaction. */
  lemma OfTxOfPosted(b: Books, j: Journal, ledger: LedgerType, tx: nat)
    requires BalanceError(j.lines).None?
    ensures OfTx(EntriesOf(b, j), ledger, tx) ==
            if tx != |b.txs| then []
            else if ledger == j.ledger then StoreAll(j.lines, tx, ledger)
            else if ledger == IFRS then Mirror(b.rules, b.ifrs, j.lines, tx)
            else []
  {
    hide OfTx, BalanceError;
    MirrorIsAllOrNothing(b, j.lines, |b.txs|);
    var own, shadow := StoreAll(j.lines, |b.txs|, j.ledger),
      if j.ledger == NAS then Mirror(b.rules, b.ifrs, j.lines, |b.txs|) else [];
    OfTxAppend(own, shadow, ledger, tx);
    OfTxUniform(own, ledger, tx);
    OfTxUniform(shadow, ledger, tx);
  }

  lemma MappedEntries(b: Books, lines: seq<Line>, tx: nat)
    ensures EntriesMapped(b.rules, b.ifrs, StoreAll(lines, tx, NAS)) <==> AllMapped(b.rules, b.ifrs, lines)
  {
    hide MapCode, IsDecided;
    var own := StoreAll(lines, tx, NAS);
    forall i | 0 <= i < |own|
      ensures MapCode(b.rules, b.ifrs, lines[i].code).Some? <==> IsDecided(b.rules, b.ifrs, own[i].code)
    {
      MappedWhenDecided(b.rules, b.ifrs, lines[i].code);
    }
    if EntriesMapped(b.rules, b.ifrs, own) {
      forall i | 0 <= i < |lines| ensures MapCode(b.rules, b.ifrs, lines[i].code).Some? {
        assert IsDecided(b.rules, b.ifrs, own[i].code);
      }
    }
  }

  lemma ShadowOfStored(b: Books, lines: seq<Line>, tx: nat)
    requires BalanceError(lines).None?
    ensures ShadowedPair(b.rules, b.ifrs, StoreAll(lines, tx, NAS), Mirror(b.rules, b.ifrs, lines, tx))
  {
    MirrorIsAllOrNothing(b, lines, tx);
    MappedEntries(b, lines, tx);
    hide MapCode, MapsTo, BalanceError, EntriesMapped, Mirror;
    if AllMapped(b.rules, b.ifrs, lines) {
      forall i | 0 <= i < |lines|
        ensures MapsTo(b.rules, b.ifrs, lines[i].code, MapCode(b.rules, b.ifrs, lines[i].code).value)
      {
        MapCodeFollowsTheRules(b.rules, b.ifrs, lines[i].code, MapCode(b.rules, b.ifrs, lines[i].code).value);
      }
    }
  }

  lemma OfTxAfterPost(b: Books, j: Journal, ledger: LedgerType, tx: nat)
    requires b.WellFormed() && Post(b, j).Success?
    ensures OfTx(Post(b, j).value.entries, ledger, tx) ==
            if tx == |b.txs| then OfTx(EntriesOf(b, j), ledger, tx) else OfTx(b.entries, ledger, tx)
  {
    OfTxAppend(b.entries, EntriesOf(b, j), ledger, tx);
    OfTxOfPosted(b, j, ledger, tx);
    if tx == |b.txs| {
      OfTxUniform(b.entries, ledger, tx);
    }
  }

  lemma ShadowOfPost(b: Books, j: Journal, tx: nat)
    requires b.WellFormed() && Post(b, j).Success? && Shadowed(b, tx)
    ensures Shadowed(Post(b, j).value, tx)
  {
    OfTxAfterPost(b, j, NAS, tx);
    OfTxAfterPost(b, j, IFRS, tx);
    if tx == |b.txs| {
      OfTxOfPosted(b, j, NAS, tx);
      OfTxOfPosted(b, j, IFRS, tx);
      ShadowOfStored(b, j.lines, tx);
    }
  }

  /** Over every run with fixed rules, each NAS transaction is mirrored completely or not at all. */
  lemma {:induction false} ShadowOverRuns(b: Books, es: seq<Event>, tx: nat)
    requires b.WellFormed() && KeepsMapping(b, es) && Shadowed(b, tx)
    ensures Shadowed(Run(b, es), tx)
    ensures Run(b, es).rules == b.rules && Run(b, es).ifrs == b.ifrs
  {
    if es != [] {
      var b', e := Run(b, es[..|es| - 1]), es[|es| - 1];
      ShadowOverRuns(b, es[..|es| - 1], tx);
      RunKeepsWellFormed(b, es[..|es| - 1]);
      if Accepted(b', e) {
        ShadowOfPost(b', e.journal, tx);
      }
    }
  }

  /** The NAS codes that a rule to `target` decides about. */
  function Sources(rules: seq<Rule>, ifrs: set<string>, target: string): set<string> {
    set i | 0 <= i < |rules| && rules[i].target == target && Decides(rules, ifrs, rules[i].source, i) :: rules[i].source
  }

  lemma SourcesAreMapped(rules: seq<Rule>, ifrs: set<string>, code: string, target: string, other: string)
    requires MapsTo(rules, ifrs, code, other)
    ensures code in Sources(rules, ifrs, target) <==> other == target
  {
    var i :| 0 <= i < |rules| && Decides(rules, ifrs, code, i) && rules[i].target == other;
    if code in Sources(rules, ifrs, target) {
      var k :| 0 <= k < |rules| && rules[k].target == target && Decides(rules, ifrs, rules[k].source, k) &&
        rules[k].source == code;
      assert k == i;
    }
  }

  /** The transactions posted to NAS and mirrored. */
  function MirroredTxs(b: Books): set<nat> {
    set t: nat | t < |b.txs| && OfTx(b.entries, NAS, t) != [] && OfTx(b.entries, IFRS, t) != []
  }

  lemma {:induction false} NetOfOneTx(txs: seq<TxRow>, es: seq<Entry>, ledger: LedgerType, codes: set<string>, tx: nat)
    ensures Net(txs, es, Selection(ledger, Some(codes), OneTx(tx))) ==
            Net(txs, OfTx(es, ledger, tx), Selection(ledger, Some(codes), OneTx(tx)))
  {
    if es != [] {
      var e, init := es[|es| - 1], OfTx(es[..|es| - 1], ledger, tx);
      NetOfOneTx(txs, es[..|es| - 1], ledger, codes, tx);
      if e.ledger == ledger && e.tx == tx {
        assert OfTx(es, ledger, tx) == init + [e];
        assert (init + [e])[..|init + [e]| - 1] == init;
      } else {
        assert OfTx(es, ledger, tx) == init + [] == init;
      }
    }
  }

  lemma {:induction false} OfTxPicks(es: seq<Entry>, ledger: LedgerType, tx: nat)
    ensures forall i :: 0 <= i < |OfTx(es, ledger, tx)| ==>
            OfTx(es, ledger, tx)[i].ledger == ledger && OfTx(es, ledger, tx)[i].tx == tx
  {
    if es != [] {
      OfTxPicks(es[..|es| - 1], ledger, tx);
    }
  }

  lemma {:induction false} NetOfShadow(
    txs: seq<TxRow>, rules: seq<Rule>, ifrs: set<string>, es: seq<Entry>, shadow: seq<Entry>, target: string,
    tx: nat)
    requires IsShadow(rules, ifrs, es, shadow)
    requires forall i :: 0 <= i < |es| ==> es[i].ledger == NAS && es[i].tx == tx
    ensures Net(txs, shadow, Selection(IFRS, Some({target}), OneTx(tx))) ==
            Net(txs, es, Selection(NAS, Some(Sources(rules, ifrs, target)), OneTx(tx)))
  {
    if es != [] {
      var n := |es| - 1;
      NetOfShadow(txs, rules, ifrs, es[..n], shadow[..n], target, tx);
      var code := es[n].code;
      SourcesAreMapped(rules, ifrs, code, target, shadow[n].code);
    }
  }

  lemma {:induction false} NetAmong(
    txs: seq<TxRow>, es: seq<Entry>, ledger: LedgerType, codes: set<string>, ids: set<nat>, tx: nat)
    requires tx !in ids
    ensures Net(txs, es, Selection(ledger, Some(codes), Among(ids + {tx}))) ==
            Net(txs, es, Selection(ledger, Some(codes), Among(ids))) +
              Net(txs, es, Selection(ledger, Some(codes), OneTx(tx)))
  {
    if es != [] {
      NetAmong(txs, es[..|es| - 1], ledger, codes, ids, tx);
    }
  }

  lemma {:induction false} PushforwardAmong(b: Books, target: string, ids: set<nat>)
    requires ids <= MirroredTxs(b) && forall t :: t in ids ==> Shadowed(b, t)
    ensures Turnover(b, Selection(IFRS, Some({target}), Among(ids))) ==
            Turnover(b, Selection(NAS, Some(Sources(b.rules, b.ifrs, target)), Among(ids)))
    decreases ids
  {
    var sources := Sources(b.rules, b.ifrs, target);
    if ids == {} {
      NetNone(b.txs, b.entries, Selection(IFRS, Some({target}), Among(ids)));
      NetNone(b.txs, b.entries, Selection(NAS, Some(sources), Among(ids)));
    } else {
      var t :| t in ids;
      var rest := ids - {t};
      assert ids == rest + {t};
      PushforwardAmong(b, target, rest);
      NetAmong(b.txs, b.entries, IFRS, {target}, rest, t);
      NetAmong(b.txs, b.entries, NAS, sources, rest, t);
      NetOfOneTx(b.txs, b.entries, IFRS, {target}, t);
      NetOfOneTx(b.txs, b.entries, NAS, sources, t);
      OfTxPicks(b.entries, NAS, t);
      NetOfShadow(b.txs, b.rules, b.ifrs, OfTx(b.entries, NAS, t), OfTx(b.entries, IFRS, t), target, t);
    }
  }

  /** The nets of the given accounts, added up one account at a time. */
  ghost function SumOfNets(b: Books, ledger: LedgerType, codes: set<string>, f: TxFilter): int {
    if codes == {} then 0
    else
      var c :| c in codes;
      Turnover(b, Selection(ledger, Some({c}), f)) + SumOfNets(b, ledger, codes - {c}, f)
  }

  lemma {:induction false} NetIsSumOfNets(b: Books, ledger: LedgerType, codes: set<string>, f: TxFilter)
    ensures Turnover(b, Selection(ledger, Some(codes), f)) == SumOfNets(b, ledger, codes, f)
    decreases codes
  {
    if codes == {} {
      NetNone(b.txs, b.entries, Selection(ledger, Some(codes), f));
    } else {
      forall c | c in codes
        ensures Turnover(b, Selection(ledger, Some(codes), f)) ==
                Turnover(b, Selection(ledger, Some({c}), f)) + SumOfNets(b, ledger, codes - {c}, f)
      {
        NetIsSumOfNets(b, ledger, codes - {c}, f);
        NetOfUnion(b.txs, b.entries, ledger, f, {c}, codes - {c});
        assert {c} + (codes - {c}) == codes;
      }
    }
  }

  /** In every state reached with fixed rules, the net of an IFRS account over the mirrored
      transactions is the sum of the nets of the NAS accounts mapped to it. */
  lemma IfrsIsThePushforwardOfNas(b: Books, es: seq<Event>, target: string)
    requires b.WellFormed() && KeepsMapping(b, es) && forall t: nat :: Shadowed(b, t)
    ensures var b' := Run(b, es);
            Turnover(b', Selection(IFRS, Some({target}), Among(MirroredTxs(b')))) ==
            SumOfNets(b', NAS, Sources(b.rules, b.ifrs, target), Among(MirroredTxs(b')))
  {
    var b' := Run(b, es);
    ShadowOverRuns(b, es, 0);
    forall t | t in MirroredTxs(b') ensures Shadowed(b', t) {
      ShadowOverRuns(b, es, t);
    }
    PushforwardAmong(b', target, MirroredTxs(b'));
    NetIsSumOfNets(b', NAS, Sources(b.rules, b.ifrs, target), Among(MirroredTxs(b')));
  }
}
