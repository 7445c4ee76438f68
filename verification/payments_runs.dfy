/** Payment orders over whole runs of webhooks, confirmations and owner changes in any interleaving. */
module PaymentRuns {
  import opened Wrappers
  import opened Payments

  predicate IsPaid(s: State, o: nat) {
    o in s.orders && s.orders[o].status == PAID
  }

  predicate Matches(s: State, i: Invoice) {
    IsPaid(s, i.orderId) && s.orders[i.orderId].amount == i.amount && s.orders[i.orderId].org == i.org
  }

  predicate MatchesRow(s: State, r: AuditRow) {
    IsPaid(s, r.orderId) && s.orders[r.orderId].amount == r.amount && s.orders[r.orderId].org == r.org &&
    s.orders[r.orderId].months == r.months
  }

  ghost predicate OneInvoiceEach(s: State) {
    && (forall i :: 0 <= i < |s.invoices| ==> Matches(s, s.invoices[i]))
    && (forall i, j :: 0 <= i < j < |s.invoices| ==> s.invoices[i].orderId != s.invoices[j].orderId)
  }

  ghost predicate OneRowEach(s: State) {
    && (forall i :: 0 <= i < |s.audit| ==> MatchesRow(s, s.audit[i]))
    && (forall i, j :: 0 <= i < j < |s.audit| ==> s.audit[i].orderId != s.audit[j].orderId)
    && (forall o :: IsPaid(s, o) ==> HasAudit(s, o))
  }

  /** A marked order is still pending, and marked by one transaction only. */
  ghost predicate LocksHold(s: State) {
    && (forall k :: k in s.sessions && s.sessions[k].Marked? ==>
          s.sessions[k].orderId in s.orders && s.orders[s.sessions[k].orderId].status == PENDING)
    && (forall k, l ::
          k in s.sessions && l in s.sessions && k != l && s.sessions[k].Marked? && s.sessions[l].Marked? ==>
            s.sessions[k].orderId != s.sessions[l].orderId)
  }

  ghost predicate Consistent(s: State) {
    OneInvoiceEach(s) && OneRowEach(s) && LocksHold(s)
  }

  // ----- One step

  lemma RecordKeepsConsistent(s: State, o: nat)
    requires Consistent(s)
    ensures Consistent(RecordInvoice(s, o))
    ensures var s' := RecordInvoice(s, o);
            s' == s.(invoices := s'.invoices) &&
              (HasInvoice(s', o) <==> HasInvoice(s, o) || (IsPaid(s, o) && s.orders[o].org in s.owners))
  {
    var s' := RecordInvoice(s, o);
    if s' != s {
      assert forall i :: 0 <= i < |s.invoices| ==> s'.invoices[i] == s.invoices[i];
      assert s'.invoices[|s.invoices|].orderId == o;
      assert forall p :: IsPaid(s', p) ==> IsPaid(s, p);
      assert forall p :: HasAudit(s, p) ==> HasAudit(s', p);
    }
  }

  /** Invoices and rows of other orders are not touched. */
  lemma RecordOfOthers(s: State, o: nat, p: nat)
    requires o != p
    ensures HasInvoice(RecordInvoice(s, o), p) <==> HasInvoice(s, p)
  {
    var s' := RecordInvoice(s, o);
    if s' != s {
      assert forall i :: 0 <= i < |s.invoices| ==> s'.invoices[i] == s.invoices[i];
      if HasInvoice(s, p) {
        var i :| 0 <= i < |s.invoices| && s.invoices[i].orderId == p;
        assert s'.invoices[i].orderId == p;
      }
    }
  }

  /** The order and subscription once the transaction is done, before the row and the invoice are written. */
  function Paid(cal: Calendar, s: State, o: nat, read: Option<Sub>, now: int): State
    requires o in s.orders && Effect(cal, s.orders[o], read, SubOf(s, s.orders[o].org), now).Success?
  {
    var order := s.orders[o];
    WithSub(s, order.org, Effect(cal, order, read, SubOf(s, order.org), now).value)
      .(orders := s.orders[o := order.(status := PAID)])
  }

  lemma PaidAndLogged(cal: Calendar, s: State, o: nat, owner: nat, read: Option<Sub>, now: int)
    requires o in s.orders && Effect(cal, s.orders[o], read, SubOf(s, s.orders[o].org), now).Success?
    requires Consistent(s) && s.orders[o].status == PENDING
    ensures var t := LogApplied(Paid(cal, s, o, read, now), o, owner);
            && OneInvoiceEach(t) && OneRowEach(t) && IsPaid(t, o) && !HasInvoice(t, o)
            && t.owners == s.owners && t.sessions == s.sessions &&
              t.orders == s.orders[o := s.orders[o].(status := PAID)]
            && t.invoices == s.invoices
  {
    hide Effect;
    var p := Paid(cal, s, o, read, now);
    var t := LogApplied(p, o, owner);
    assert p.invoices == s.invoices && p.audit == s.audit;
    forall i | 0 <= i < |s.audit| ensures s.audit[i].orderId != o {
      assert MatchesRow(s, s.audit[i]);
    }
    assert t.audit == s.audit + [AuditRow(o, s.orders[o].org, s.orders[o].amount, s.orders[o].months, owner)];
    forall i | 0 <= i < |t.audit| ensures MatchesRow(t, t.audit[i]) {
      if i < |s.audit| { assert MatchesRow(s, s.audit[i]); }
    }
    forall i | 0 <= i < |s.invoices| ensures Matches(t, s.invoices[i]) && s.invoices[i].orderId != o {
      assert Matches(s, s.invoices[i]);
    }
    forall q | IsPaid(t, q) ensures HasAudit(t, q) {
      if q == o {
        assert t.audit[|s.audit|].orderId == o;
      } else {
        assert IsPaid(s, q);
        var i :| 0 <= i < |s.audit| && s.audit[i].orderId == q;
        assert t.audit[i].orderId == q;
      }
    }
  }

  predicate Commits(cal: Calendar, s: State, e: Event) {
    && e.Commit? && e.session in s.sessions && s.sessions[e.session].Marked?
    && var Marked(o, owner, read) := s.sessions[e.session];
       o in s.orders && Effect(cal, s.orders[o], read, SubOf(s, s.orders[o].org), e.now).Success?
  }

  lemma CommitStep(cal: Calendar, s: State, e: Event)
    requires Consistent(s) && Commits(cal, s, e)
    ensures var Marked(o, owner, read) := s.sessions[e.session];
            var s' := Step(cal, s, e);
            && s.orders[o].status == PENDING && Consistent(s')
            && s'.orders == s.orders[o := s.orders[o].(status := PAID)]
            && s'.subs == Paid(cal, s, o, read, e.now).subs
            && s'.owners == s.owners && s'.sessions == s.sessions - {e.session}
            && (HasInvoice(s', o) <==> s.orders[o].org in s.owners)
            && forall p :: p != o ==> (HasInvoice(s', p) <==> HasInvoice(s, p))
  {
    var Marked(o, owner, read) := s.sessions[e.session];
    PaidAndLogged(cal, s, o, owner, read, e.now);
    var t := EndSession(LogApplied(Paid(cal, s, o, read, e.now), o, owner), e.session);
    hide Effect, LogApplied;
    EndOfCommit(cal, s, e);
    forall p | p != o ensures HasInvoice(RecordInvoice(t, o), p) <==> HasInvoice(s, p) {
      RecordOfOthers(t, o, p);
    }
    ConsistentAfterMarked(s, t, e.session, o);
    RecordKeepsConsistent(t, o);
  }

  lemma EndOfCommit(cal: Calendar, s: State, e: Event)
    requires Commits(cal, s, e)
    ensures var Marked(o, owner, read) := s.sessions[e.session];
            Step(cal, s, e) == RecordInvoice(EndSession(LogApplied(Paid(cal, s, o, read, e.now), o, owner), e.session),
              o)
  {
    hide Effect, LogApplied;
    var Marked(o, owner, read) := s.sessions[e.session];
    var t := LogApplied(Paid(cal, s, o, read, e.now), o, owner);
    assert Complete(cal, s, o, owner, read, e.now) == Success(RecordInvoice(t, o));
    assert HasInvoice(EndSession(t, e.session), o) == HasInvoice(t, o);
    LoggedKeepsSessions(Paid(cal, s, o, read, e.now), o, owner);
  }

  lemma LoggedKeepsSessions(s: State, o: nat, owner: nat)
    requires o in s.orders
    ensures LogApplied(s, o, owner) == s.(audit := LogApplied(s, o, owner).audit)
  {
  }

  lemma ConsistentAfterMarked(s: State, t: State, k: nat, o: nat)
    requires LocksHold(s) && k in s.sessions && s.sessions[k].Marked? && s.sessions[k].orderId == o && o in s.orders
    requires OneInvoiceEach(t.(sessions := s.sessions)) && OneRowEach(t.(sessions := s.sessions))
    requires t.orders == s.orders[o := s.orders[o].(status := PAID)] && t.sessions == s.sessions - {k}
    ensures Consistent(t)
  {
    var u := t.(sessions := s.sessions);
    assert forall i :: 0 <= i < |t.invoices| ==> Matches(u, t.invoices[i]);
    assert forall i :: 0 <= i < |t.audit| ==> MatchesRow(u, t.audit[i]);
    assert forall p :: IsPaid(t, p) ==> IsPaid(u, p) && HasAudit(u, p);
    assert forall p :: HasAudit(u, p) ==> HasAudit(t, p);
  }

  /** Orders keep their terms, appear as pending, and change only from pending to failed. */
  ghost predicate NoneApplied(s: State, s': State) {
    && (forall o :: o in s.orders ==>
          o in s'.orders && (s'.orders[o] == s.orders[o] ||
            (s.orders[o].status == PENDING && s'.orders[o] == s.orders[o].(status := FAILED))))
    && (forall o :: o in s'.orders && o !in s.orders ==> s'.orders[o].status == PENDING)
  }

  lemma SamePaid(s: State, s': State)
    requires Consistent(s) && NoneApplied(s, s') && s'.invoices == s.invoices && s'.audit == s.audit && LocksHold(s')
    ensures Consistent(s') && forall o :: HasInvoice(s', o) <==> HasInvoice(s, o)
  {
    assert forall o :: IsPaid(s', o) <==> IsPaid(s, o);
    assert forall i :: 0 <= i < |s.invoices| ==> Matches(s, s.invoices[i]);
    assert forall i :: 0 <= i < |s.audit| ==> MatchesRow(s, s.audit[i]);
    assert forall o :: HasAudit(s', o) <==> HasAudit(s, o);
  }

  /** The order that a look-up or a failed marking writes the invoice for, if it is paid. */
  function Retried(s: State, e: Event): Option<nat> {
    match e
    case Look(k, o) => if k !in s.sessions && IsPaid(s, o) then Some(o) else None
    case Mark(k) =>
      if k in s.sessions && s.sessions[k].Looked? && IsPaid(s, s.sessions[k].orderId) &&
        !Locked(s, s.sessions[k].orderId)
      then Some(s.sessions[k].orderId) else None
    case _ => None
  }

  lemma RetryStep(cal: Calendar, s: State, e: Event)
    requires Consistent(s) && Retried(s, e).Some?
    ensures exists t: State ::
              && t.(sessions := s.sessions) == s && LocksHold(t)
              && Step(cal, s, e) == RecordInvoice(t, Retried(s, e).value)
  {
    if e.Look? {
      assert s.(sessions := s.sessions) == s;
    } else {
      assert EndSession(s, e.session).(sessions := s.sessions) == s;
    }
  }

  lemma QuietStep(cal: Calendar, s: State, e: Event)
    requires Consistent(s) && !Commits(cal, s, e) && Retried(s, e).None?
    ensures var s' := Step(cal, s, e);
            NoneApplied(s, s') && s'.invoices == s.invoices && s'.audit == s.audit && s'.subs == s.subs && LocksHold(s')
  {
    hide Effect, RecordInvoice, LogApplied, OneInvoiceEach, OneRowEach;
    match e
    case CreateOrder(_, _, _, _, _) =>
    case FailedWebhook(_) =>
    case Look(_, _) =>
    case Mark(k) => QuietMark(cal, s, k);
    case Commit(_, _) =>
    case SetOwner(_, _) =>
  }

  lemma QuietMark(cal: Calendar, s: State, k: nat)
    requires LocksHold(s) && Retried(s, Mark(k)).None?
    ensures var s' := Step(cal, s, Mark(k));
            s' == s.(sessions := s'.sessions) && LocksHold(s')
  {
    hide RecordInvoice;
    if k in s.sessions && s.sessions[k].Looked? && s.sessions[k].orderId in s.orders &&
      !Locked(s, s.sessions[k].orderId) {
      var o := s.sessions[k].orderId;
      if s.orders[o].status != PENDING {
        NothingToRecord(EndSession(s, k), o);
      } else {
        var s' := Step(cal, s, Mark(k));
        assert forall l :: l in s'.sessions && l != k ==> l in s.sessions && s'.sessions[l] == s.sessions[l];
      }
    }
  }

  lemma NothingToRecord(s: State, o: nat)
    requires !IsPaid(s, o)
    ensures RecordInvoice(s, o) == s
  {
  }

  /** Steps that are not commits leave orders as they were, but that pending ones can fail and new ones come,
      and write no invoice but that of a paid order that is confirmed again. */
  lemma OtherStep(cal: Calendar, s: State, e: Event)
    requires Consistent(s) && !Commits(cal, s, e)
    ensures var s' := Step(cal, s, e);
            && Consistent(s') && NoneApplied(s, s') && s'.subs == s.subs && s'.audit == s.audit
            && forall o :: HasInvoice(s', o) <==>
                 HasInvoice(s, o) || (Retried(s, e) == Some(o) && s.orders[o].org in s.owners)
  {
    hide Step, Commits;
    if Retried(s, e).Some? {
      var o := Retried(s, e).value;
      RetryStep(cal, s, e);
      var t: State :| t.(sessions := s.sessions) == s && LocksHold(t) && Step(cal, s, e) == RecordInvoice(t, o);
      SamePaid(s, t);
      RecordKeepsConsistent(t, o);
      forall p | p != o ensures HasInvoice(RecordInvoice(t, o), p) <==> HasInvoice(s, p) {
        RecordOfOthers(t, o, p);
      }
    } else {
      QuietStep(cal, s, e);
      SamePaid(s, Step(cal, s, e));
    }
  }

  lemma StepIsConsistent(cal: Calendar, s: State, e: Event)
    requires Consistent(s)
    ensures Consistent(Step(cal, s, e))
  {
    hide Step, Consistent, NoneApplied, HasInvoice, Paid;
    if Commits(cal, s, e) { CommitStep(cal, s, e); } else { OtherStep(cal, s, e); }
  }

  /** An order keeps its terms, and once it is not pending it stays as it is. */
  lemma StepOfOrder(cal: Calendar, s: State, e: Event, o: nat)
    requires Consistent(s) && o in s.orders
    ensures var s' := Step(cal, s, e);
            && o in s'.orders && s'.orders[o] == s.orders[o].(status := s'.orders[o].status)
            && (s.orders[o].status != PENDING ==> s'.orders[o] == s.orders[o])
  {
    hide Step, Consistent, HasInvoice, Paid;
    if Commits(cal, s, e) { CommitStep(cal, s, e); } else { OtherStep(cal, s, e); }
  }

  // ----- Runs

  /** No order is there at first. */
  function Start(owners: map<nat, nat>, subs: map<nat, Sub>): State {
    State(map[], owners, subs, [], [], map[])
  }

  lemma {:induction false} RunIsConsistent(cal: Calendar, s: State, events: seq<Event>)
    requires Consistent(s)
    ensures Consistent(Run(cal, s, events))
  {
    if events != [] {
      hide Step, Consistent;
      var before, e := events[..|events| - 1], events[|events| - 1];
      RunIsConsistent(cal, s, before);
      StepIsConsistent(cal, Run(cal, s, before), e);
    }
  }

  /** An order that took effect, with its terms and the time at which it did. */
  datatype Application = Application(orderId: nat, org: nat, terms: Order, now: int)

  function NewlyApplied(cal: Calendar, t: State, e: Event): seq<Application> {
    if Commits(cal, t, e) then
      var o := t.sessions[e.session].orderId;
      [Application(o, t.orders[o].org, t.orders[o].(status := PAID), e.now)]
    else []
  }

  function Applied(cal: Calendar, s: State, events: seq<Event>): seq<Application> {
    if events == [] then []
    else
      var before := events[..|events| - 1];
      Applied(cal, s, before) + NewlyApplied(cal, Run(cal, s, before), events[|events| - 1])
  }

  predicate Describes(s: State, a: Application) {
    IsPaid(s, a.orderId) && s.orders[a.orderId] == a.terms && a.terms.org == a.org
  }

  ghost predicate AppliedOnce(s: State, history: seq<Application>) {
    && (forall i :: 0 <= i < |history| ==> Describes(s, history[i]))
    && (forall i, j :: 0 <= i < j < |history| ==> history[i].orderId != history[j].orderId)
    && (forall o :: IsPaid(s, o) ==> exists i :: 0 <= i < |history| && history[i].orderId == o)
  }

  /** Over every run, the orders that took effect are exactly the paid ones, each once: a repeated confirmation
      adds nothing, and an order that failed never takes effect. */
  lemma {:induction false} OrdersAreAppliedOnce(
    cal: Calendar, owners: map<nat, nat>, subs: map<nat, Sub>, events: seq<Event>)
    ensures AppliedOnce(Run(cal, Start(owners, subs), events), Applied(cal, Start(owners, subs), events))
  {
    hide AppliedOnce, Consistent, Step, NewlyApplied;
    var s := Start(owners, subs);
    if events == [] {
      NoneAppliedAtStart(owners, subs);
    } else {
      var before := events[..|events| - 1];
      OrdersAreAppliedOnce(cal, owners, subs, before);
      StartIsConsistent(owners, subs);
      RunIsConsistent(cal, s, before);
      StepApplies(cal, Run(cal, s, before), events[|events| - 1], Applied(cal, s, before));
    }
  }

  lemma NoneAppliedAtStart(owners: map<nat, nat>, subs: map<nat, Sub>)
    ensures AppliedOnce(Start(owners, subs), [])
  {
  }

  lemma StepApplies(cal: Calendar, s: State, e: Event, history: seq<Application>)
    requires Consistent(s) && AppliedOnce(s, history)
    ensures AppliedOnce(Step(cal, s, e), history + NewlyApplied(cal, s, e))
  {
    hide Consistent, Step, AppliedOnce, NoneApplied, Effect, HasInvoice;
    if Commits(cal, s, e) {
      CommitStep(cal, s, e);
      AppendApplied(s, Step(cal, s, e), history, s.sessions[e.session].orderId, e.now);
    } else {
      OtherStep(cal, s, e);
      KeepApplied(s, Step(cal, s, e), history);
    }
  }

  lemma AppendApplied(s: State, s': State, history: seq<Application>, o: nat, now: int)
    requires AppliedOnce(s, history) && o in s.orders && s.orders[o].status == PENDING
    requires s'.orders == s.orders[o := s.orders[o].(status := PAID)]
    ensures AppliedOnce(s', history + [Application(o, s.orders[o].org, s.orders[o].(status := PAID), now)])
  {
    var history' := history + [Application(o, s.orders[o].org, s.orders[o].(status := PAID), now)];
    assert forall i :: 0 <= i < |history| ==> Describes(s, history[i]) && history[i].orderId != o;
    forall p | IsPaid(s', p) ensures exists i :: 0 <= i < |history'| && history'[i].orderId == p {
      if p == o {
        assert history'[|history|].orderId == p;
      } else {
        assert IsPaid(s, p);
        var i :| 0 <= i < |history| && history[i].orderId == p;
        assert history'[i].orderId == p;
      }
    }
  }

  lemma KeepApplied(s: State, s': State, history: seq<Application>)
    requires AppliedOnce(s, history) && NoneApplied(s, s')
    ensures AppliedOnce(s', history + [])
  {
    assert history + [] == history;
    assert forall i :: 0 <= i < |history| ==> Describes(s, history[i]);
    assert forall p :: IsPaid(s', p) ==> IsPaid(s, p);
  }

  /** An order leaves the pending state at most once and then never changes. */
  lemma {:induction false} StatusIsFinal(cal: Calendar, s: State, events: seq<Event>, k: nat, o: nat)
    requires Consistent(s) && k <= |events|
    requires o in Run(cal, s, events[..k]).orders
    ensures o in Run(cal, s, events).orders
    ensures var earlier, later := Run(cal, s, events[..k]).orders[o], Run(cal, s, events).orders[o];
            later == earlier.(status := later.status) && (earlier.status != PENDING ==> later == earlier)
    decreases |events|
  {
    hide Step, Consistent;
    if k < |events| {
      var n := |events| - 1;
      var before := events[..n];
      assert before[..k] == events[..k];
      StatusIsFinal(cal, s, before, k, o);
      RunIsConsistent(cal, s, before);
      StepOfOrder(cal, Run(cal, s, before), events[n], o);
    } else {
      assert events[..k] == events;
    }
  }

  // ----- Invoices

  /** The owner is known when an order is applied, or when it is confirmed again after it was. */
  predicate Bills(cal: Calendar, s: State, e: Event, o: nat) {
    o in s.orders && s.orders[o].org in s.owners &&
    (Retried(s, e) == Some(o) || (Commits(cal, s, e) && s.sessions[e.session].orderId == o))
  }

  predicate BillsAt(cal: Calendar, s: State, events: seq<Event>, k: nat, o: nat)
    requires k < |events|
  {
    Bills(cal, Run(cal, s, events[..k]), events[k], o)
  }

  /** An order has an invoice exactly when the owner of the organization was known at its commit or at a later
      confirmation of it. */
  lemma {:induction false} InvoicedIffBilled(cal: Calendar, s: State, events: seq<Event>, o: nat)
    requires Consistent(s) && !HasInvoice(s, o)
    ensures HasInvoice(Run(cal, s, events), o) <==> exists k :: 0 <= k < |events| && BillsAt(cal, s, events, k, o)
  {
    hide Step, Consistent, HasInvoice, Bills;
    if events != [] {
      var n := |events| - 1;
      var before := events[..n];
      InvoicedIffBilled(cal, s, before, o);
      RunIsConsistent(cal, s, before);
      StepBills(cal, Run(cal, s, before), events[n], o);
      hide Run;
      assert BillsAt(cal, s, events, n, o) == Bills(cal, Run(cal, s, before), events[n], o);
      hide BillsAt;
      forall k | 0 <= k < n ensures BillsAt(cal, s, events, k, o) == BillsAt(cal, s, before, k, o) {
        BillsBefore(cal, s, events, n, k, o);
      }
    }
  }

  lemma BillsBefore(cal: Calendar, s: State, events: seq<Event>, n: nat, k: nat, o: nat)
    requires k < n <= |events|
    ensures BillsAt(cal, s, events[..n], k, o) == BillsAt(cal, s, events, k, o)
  {
    hide Run, Bills;
    assert events[..n][..k] == events[..k];
  }

  lemma StepBills(cal: Calendar, s: State, e: Event, o: nat)
    requires Consistent(s)
    ensures HasInvoice(Step(cal, s, e), o) <==> HasInvoice(s, o) || Bills(cal, s, e, o)
  {
    if Commits(cal, s, e) { CommitStep(cal, s, e); } else { OtherStep(cal, s, e); }
    hide Step, Effect, Consistent;
  }

  predicate KeepsOwners(e: Event) {
    e.SetOwner? ==> e.owner.Some?
  }

  ghost predicate OwnersOfAll(s: State) {
    && (forall o :: IsPaid(s, o) ==> HasInvoice(s, o))
    && (forall k :: k in s.sessions && s.sessions[k].orderId in s.orders ==>
      s.orders[s.sessions[k].orderId].org in s.owners)
    && (forall k :: k in s.sessions ==> s.sessions[k].orderId in s.orders)
  }

  /** Every paid order has exactly one platform invoice, over its amount, and one audit row, as long as owners
      change but do not vanish. Invoices and rows are there for paid orders only. */
  lemma {:induction false} PaidIsInvoicedOnce(
    cal: Calendar, owners: map<nat, nat>, subs: map<nat, Sub>, events: seq<Event>)
    requires forall k :: 0 <= k < |events| ==> KeepsOwners(events[k])
    ensures var s := Run(cal, Start(owners, subs), events);
            OneInvoiceEach(s) && OneRowEach(s) && OwnersOfAll(s)
  {
    var s := Start(owners, subs);
    RunIsConsistent(cal, s, events);
    if events != [] {
      var n := |events| - 1;
      var before, e := events[..n], events[n];
      PaidIsInvoicedOnce(cal, owners, subs, before);
      RunIsConsistent(cal, s, before);
      StepInvoices(cal, Run(cal, s, before), e);
    }
  }

  lemma StepInvoices(cal: Calendar, s: State, e: Event)
    requires Consistent(s) && OwnersOfAll(s) && KeepsOwners(e)
    ensures OwnersOfAll(Step(cal, s, e))
  {
    var s' := Step(cal, s, e);
    hide Step, Effect, Consistent, HasInvoice;
    StepSessions(cal, s, e);
    if Commits(cal, s, e) { CommitStep(cal, s, e); } else { OtherStep(cal, s, e); }
    forall o | IsPaid(s', o) ensures HasInvoice(s', o) {
      if !IsPaid(s, o) {
        assert Commits(cal, s, e);
      }
    }
  }

  lemma StepSessions(cal: Calendar, s: State, e: Event)
    requires Consistent(s) && OwnersOfAll(s) && KeepsOwners(e)
    ensures var s' := Step(cal, s, e);
            && (forall org :: org in s.owners ==> org in s'.owners)
            && (forall k :: k in s'.sessions ==>
              s'.sessions[k].orderId in s.orders && s.orders[s'.sessions[k].orderId].org in s.owners)
  {
    hide Effect, Consistent, HasInvoice;
    if Commits(cal, s, e) { CommitStep(cal, s, e); }
  }

  lemma RecordsOnlyInvoices(s: State, o: nat)
    ensures RecordInvoice(s, o) == s.(invoices := RecordInvoice(s, o).invoices)
  {
  }

  lemma StartIsConsistent(owners: map<nat, nat>, subs: map<nat, Sub>)
    ensures Consistent(Start(owners, subs))
  {
  }
}
