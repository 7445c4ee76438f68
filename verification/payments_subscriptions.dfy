/** What paid orders do to a subscription, over whole runs: the months they add and the modules they grant. */
module PaymentSubscriptions {
  import opened Wrappers
  import opened Payments
  import opened PaymentRuns

  function OrderOf(cal: Calendar, s: State, e: Event): Order
    requires Commits(cal, s, e)
  {
    s.orders[s.sessions[e.session].orderId]
  }

  /** The subscription as the committing transaction has read it. */
  function ReadOf(cal: Calendar, s: State, e: Event): Option<Sub>
    requires Commits(cal, s, e)
  {
    s.sessions[e.session].sub
  }

  // ----- One commit

  /** What a commit writes: the end from the end it read, the modules from the modules it read. */
  lemma CommitWrites(cal: Calendar, s: State, e: Event)
    requires Consistent(s) && Commits(cal, s, e)
    ensures var order, read, s' := OrderOf(cal, s, e), ReadOf(cal, s, e), Step(cal, s, e);
            var org := order.org;
            && s'.subs.Keys == s.subs.Keys
            && (forall other :: other in s.subs && other != org ==> s'.subs[other] == s.subs[other])
            && (Prolongs(order) ==>
                  && org in s.subs && read.Some?
                  && s'.subs[org] == s.subs[org].(expiresAt := s'.subs[org].expiresAt, isTrial := false)
                  && CountsFromTheEnd(cal, read.value.expiresAt, e.now, order.months, s'.subs[org].expiresAt))
            && (Toggles(order) ==>
                  && org in s.subs && read.Some? && ModulePatch(order.toggle.value.key).Some?
                  && s'.subs[org] == s.subs[org].(modules := read.value.modules +
                    ModulePatch(order.toggle.value.key).value))
            && (!Prolongs(order) && !Toggles(order) && org in s.subs ==> s'.subs[org] == s.subs[org])
  {
    CommitStep(cal, s, e);
    hide Step, Consistent, ModulePatch;
  }

  /** A marked transaction takes effect exactly when the module it grants is known, and the subscription, if it needs
      one, was there when it read it and still is. */
  lemma CommitsIff(cal: Calendar, s: State, e: Event)
    requires e.Commit?
    ensures Commits(cal, s, e) <==>
            && e.session in s.sessions && s.sessions[e.session].Marked? && s.sessions[e.session].orderId in s.orders
            && var order := s.orders[s.sessions[e.session].orderId];
               && (!NeedsNoSubscription(order) ==>
                     s.sessions[e.session].sub.Some? && order.org in s.subs)
               && (order.months == 0 && !NeedsNoSubscription(order) ==>
                     order.toggle.value.key in
                     {"kassa_pro", "banking_pro", "inventory", "hr_full", "manufacturing", "ifrs_mapping"})
  {
  }

  lemma OthersWriteNothing(cal: Calendar, s: State, e: Event)
    requires Consistent(s) && !Commits(cal, s, e)
    ensures Step(cal, s, e).subs == s.subs
  {
    hide Step, Commits, Consistent, NoneApplied, HasInvoice;
    OtherStep(cal, s, e);
  }

  /** A calendar that takes later dates to later dates. `setUTCMonth` does so but at the end of a month. */
  ghost predicate Increasing(cal: Calendar) {
    forall x, y, m :: x < y ==> cal(x, m) < cal(y, m)
  }

  /** Two ends that differ at most in being over. */
  predicate SameFromNow(a: Option<int>, b: Option<int>, now: int) {
    (a.Some? && a.value > now) || (b.Some? && b.value > now) ==> a == b
  }

  /** The end that is prolonged is the stored one, as far as it matters at the time of the commit. */
  predicate ReadsTheEnd(cal: Calendar, s: State, e: Event) {
    Commits(cal, s, e) && Prolongs(OrderOf(cal, s, e)) ==>
      && ReadOf(cal, s, e).Some? && OrderOf(cal, s, e).org in s.subs
      && SameFromNow(ReadOf(cal, s, e).value.expiresAt, s.subs[OrderOf(cal, s, e).org].expiresAt, e.now)
  }

  /** A commit prolongs the stored end by its months exactly when the end it read and the stored end come to the same
      date; they do if they agree from now on and, for an increasing calendar, only then. */
  lemma CommitProlongsTheStoredEndIff(cal: Calendar, s: State, e: Event)
    requires Consistent(s) && Commits(cal, s, e) && Prolongs(OrderOf(cal, s, e))
    ensures var order, read, s' := OrderOf(cal, s, e), ReadOf(cal, s, e), Step(cal, s, e);
            && order.org in s.subs && order.org in s'.subs && read.Some?
            && var (end, end') := (s.subs[order.org].expiresAt, s'.subs[order.org].expiresAt);
               && (CountsFromTheEnd(cal, end, e.now, order.months, end') <==>
                   cal(Base(read.value.expiresAt, e.now), order.months) == cal(Base(end, e.now), order.months))
               && (SameFromNow(read.value.expiresAt, end, e.now) ==>
                     CountsFromTheEnd(cal, end, e.now, order.months, end'))
               && (Increasing(cal) && CountsFromTheEnd(cal, end, e.now, order.months, end') ==>
                     SameFromNow(read.value.expiresAt, end, e.now))
  {
    hide Step, Consistent, Commits, ModulePatch;
    CommitWrites(cal, s, e);
  }

  /** A commit that grants a module keeps all stored modules exactly when it had read them all, but for those it
      grants; and it always grants its own. */
  lemma CommitKeepsModulesIff(cal: Calendar, s: State, e: Event)
    requires Consistent(s) && Commits(cal, s, e) && Toggles(OrderOf(cal, s, e))
    ensures var order, read, s' := OrderOf(cal, s, e), ReadOf(cal, s, e), Step(cal, s, e);
            var patch := ModulePatch(order.toggle.value.key);
            && order.org in s.subs && order.org in s'.subs && read.Some? && patch.Some?
            && (s.subs[order.org].modules <= s'.subs[order.org].modules <==>
                s.subs[order.org].modules <= read.value.modules + patch.value)
            && patch.value <= s'.subs[order.org].modules
  {
    hide Step, Consistent, Commits, ModulePatch;
    CommitWrites(cal, s, e);
  }

  // ----- Runs

  /** The end of a subscription after the orders of a history, from where it was. */
  function Expiry(cal: Calendar, start: Option<int>, history: seq<Application>, org: nat): Option<int> {
    if history == [] then start
    else
      var before, a := Expiry(cal, start, history[..|history| - 1], org), history[|history| - 1];
      if a.org != org || !Prolongs(a.terms) then before
      else if before.Some? && before.value > a.now then Some(cal(before.value, a.terms.months))
      else Some(cal(a.now, a.terms.months))
  }

  function Grant(order: Order): set<string> {
    if Toggles(order) && ModulePatch(order.toggle.value.key).Some? then ModulePatch(order.toggle.value.key).value
      else {}
  }

  /** The modules that the orders of a history grant. */
  function Granted(history: seq<Application>, org: nat): set<string> {
    if history == [] then {}
    else
      var a := history[|history| - 1];
      Granted(history[..|history| - 1], org) + if a.org == org then Grant(a.terms) else {}
  }

  predicate ReadsTheModules(cal: Calendar, s: State, e: Event) {
    Commits(cal, s, e) && Toggles(OrderOf(cal, s, e)) ==>
      && ReadOf(cal, s, e).Some? && OrderOf(cal, s, e).org in s.subs
      && ReadOf(cal, s, e).value.modules + Grant(OrderOf(cal, s, e)) ==
        s.subs[OrderOf(cal, s, e).org].modules + Grant(OrderOf(cal, s, e))
  }

  predicate ReadsTheEndAt(cal: Calendar, s: State, events: seq<Event>, k: nat)
    requires k < |events|
  {
    ReadsTheEnd(cal, Run(cal, s, events[..k]), events[k])
  }

  predicate ReadsTheModulesAt(cal: Calendar, s: State, events: seq<Event>, k: nat)
    requires k < |events|
  {
    ReadsTheModules(cal, Run(cal, s, events[..k]), events[k])
  }

  lemma HistoryGrows(cal: Calendar, s: State, events: seq<Event>, start: Option<int>, org: nat)
    requires events != []
    ensures var before, e := events[..|events| - 1], events[|events| - 1];
            var t, history := Run(cal, s, before), Applied(cal, s, before);
            var history' := Applied(cal, s, events);
            if Commits(cal, t, e) && OrderOf(cal, t, e).org == org then
              && Granted(history', org) == Granted(history, org) + Grant(OrderOf(cal, t, e))
              && var (end, end') := (Expiry(cal, start, history, org), Expiry(cal, start, history', org));
                 if Prolongs(OrderOf(cal, t, e))
                 then CountsFromTheEnd(cal, end, e.now, OrderOf(cal, t, e).months, end')
                 else end' == end
            else
              && Granted(history', org) == Granted(history, org)
              && Expiry(cal, start, history', org) == Expiry(cal, start, history, org)
  {
    hide Effect, ModulePatch, Step;
    var before, e := events[..|events| - 1], events[|events| - 1];
    var t, history := Run(cal, s, before), Applied(cal, s, before);
    var more := NewlyApplied(cal, t, e);
    assert Applied(cal, s, events) == history + more;
    if more == [] {
      assert history + more == history;
    } else {
      assert (history + more)[..|history|] == history;
    }
  }

  lemma StepEnd(cal: Calendar, s: State, e: Event, org: nat)
    requires Consistent(s) && ReadsTheEnd(cal, s, e) && org in s.subs
    ensures org in Step(cal, s, e).subs
    ensures var (end, end') := (s.subs[org].expiresAt, Step(cal, s, e).subs[org].expiresAt);
            if Commits(cal, s, e) && OrderOf(cal, s, e).org == org && Prolongs(OrderOf(cal, s, e))
            then CountsFromTheEnd(cal, end, e.now, OrderOf(cal, s, e).months, end')
            else end' == end
  {
    hide Step, Consistent, Commits, ModulePatch;
    if Commits(cal, s, e) { CommitWrites(cal, s, e); } else { OthersWriteNothing(cal, s, e); }
  }

  lemma StepModules(cal: Calendar, s: State, e: Event, org: nat)
    requires Consistent(s) && ReadsTheModules(cal, s, e) && org in s.subs
    ensures org in Step(cal, s, e).subs
    ensures Step(cal, s, e).subs[org].modules ==
            s.subs[org].modules +
              if Commits(cal, s, e) && OrderOf(cal, s, e).org == org then Grant(OrderOf(cal, s, e)) else {}
  {
    hide Step, Consistent, Commits, ModulePatch;
    if Commits(cal, s, e) { CommitWrites(cal, s, e); } else { OthersWriteNothing(cal, s, e); }
  }

  /** As long as every commit prolongs the end that is stored, the subscription ends where the paid orders, each
      taken once in the order of their commits, take it; whatever else overlaps. */
  lemma {:induction false} EndIsThatOfPaidOrders(
    cal: Calendar, owners: map<nat, nat>, subs: map<nat, Sub>, events: seq<Event>, org: nat)
    requires org in subs && forall k :: 0 <= k < |events| ==> ReadsTheEndAt(cal, Start(owners, subs), events, k)
    ensures var s := Start(owners, subs);
            && org in Run(cal, s, events).subs
            && Run(cal, s, events).subs[org].expiresAt == Expiry(cal, subs[org].expiresAt, Applied(cal, s, events), org)
  {
    hide Consistent, Commits, ReadsTheEnd, Step, Applied;
    var s := Start(owners, subs);
    if events == [] {
      NoHistory(cal, s, subs[org].expiresAt, org);
    } else {
      var n := |events| - 1;
      var before, e := events[..n], events[n];
      forall k | 0 <= k < n ensures ReadsTheEndAt(cal, s, before, k) {
        assert before[..k] == events[..k] && ReadsTheEndAt(cal, s, events, k);
      }
      EndIsThatOfPaidOrders(cal, owners, subs, before, org);
      StartIsConsistent(owners, subs);
      RunIsConsistent(cal, s, before);
      assert ReadsTheEndAt(cal, s, events, n);
      StepEnd(cal, Run(cal, s, before), e, org);
      HistoryGrows(cal, s, events, subs[org].expiresAt, org);
    }
  }

  /** In particular no paid order moves the end back, if the calendar does not. */
  lemma {:induction false} EndNeverMovesBack(
    cal: Calendar, owners: map<nat, nat>, subs: map<nat, Sub>, events: seq<Event>, org: nat, n: nat)
    requires org in subs && n <= |events|
    requires forall k :: 0 <= k < |events| ==> ReadsTheEndAt(cal, Start(owners, subs), events, k)
    requires forall x, m :: m > 0 ==> cal(x, m) >= x
    ensures var s := Start(owners, subs);
            && org in Run(cal, s, events[..n]).subs && org in Run(cal, s, events).subs
            && var (sub, sub') := (Run(cal, s, events[..n]).subs[org], Run(cal, s, events).subs[org]);
               sub.expiresAt.Some? ==> sub'.expiresAt.Some? && sub.expiresAt.value <= sub'.expiresAt.value
    decreases |events|
  {
    hide Consistent, Commits, ReadsTheEnd, Step;
    var s := Start(owners, subs);
    EndIsThatOfPaidOrders(cal, owners, subs, events, org);
    if n == |events| {
      assert events[..n] == events;
    } else {
      var last := |events| - 1;
      var before := events[..last];
      forall k | 0 <= k < last ensures ReadsTheEndAt(cal, s, before, k) {
        assert before[..k] == events[..k] && ReadsTheEndAt(cal, s, events, k);
      }
      assert before[..n] == events[..n];
      EndNeverMovesBack(cal, owners, subs, before, org, n);
      StartIsConsistent(owners, subs);
      RunIsConsistent(cal, s, before);
      assert ReadsTheEndAt(cal, s, events, last);
      StepEnd(cal, Run(cal, s, before), events[last], org);
    }
  }

  lemma NoHistory(cal: Calendar, s: State, start: Option<int>, org: nat)
    ensures Applied(cal, s, []) == [] && Expiry(cal, start, [], org) == start && Granted([], org) == {}
  {
  }

  /** As long as every commit that grants a module has read the modules that are stored, the subscription has the
      modules it had and all that were paid for. */
  lemma {:induction false} ModulesAreThoseOfPaidOrders(
    cal: Calendar, owners: map<nat, nat>, subs: map<nat, Sub>, events: seq<Event>, org: nat)
    requires org in subs && forall k :: 0 <= k < |events| ==> ReadsTheModulesAt(cal, Start(owners, subs), events, k)
    ensures var s := Start(owners, subs);
            && org in Run(cal, s, events).subs
            && Run(cal, s, events).subs[org].modules == subs[org].modules + Granted(Applied(cal, s, events), org)
  {
    hide Consistent, Grant, Commits, ReadsTheModules, Step, Applied;
    var s := Start(owners, subs);
    if events == [] {
      NoHistory(cal, s, None, org);
    } else {
      var n := |events| - 1;
      var before, e := events[..n], events[n];
      forall k | 0 <= k < n ensures ReadsTheModulesAt(cal, s, before, k) {
        assert before[..k] == events[..k] && ReadsTheModulesAt(cal, s, events, k);
      }
      ModulesAreThoseOfPaidOrders(cal, owners, subs, before, org);
      StartIsConsistent(owners, subs);
      RunIsConsistent(cal, s, before);
      assert ReadsTheModulesAt(cal, s, events, n);
      StepModules(cal, Run(cal, s, before), e, org);
      HistoryGrows(cal, s, events, None, org);
    }
  }

  // ----- Transactions that do not overlap

  predicate MarkedToProlong(s: State, k: nat) {
    && k in s.sessions && s.sessions[k].Marked? && s.sessions[k].orderId in s.orders
    && Prolongs(s.orders[s.sessions[k].orderId])
  }

  /** No other transaction is about to prolong the subscription that this one is about to read to prolong it. */
  predicate MarksAlone(s: State, e: Event) {
    e.Mark? && e.session in s.sessions && s.sessions[e.session].orderId in s.orders &&
    Prolongs(s.orders[s.sessions[e.session].orderId]) ==>
      forall k :: k in s.sessions && MarkedToProlong(s, k) ==>
        s.orders[s.sessions[k].orderId].org != s.orders[s.sessions[e.session].orderId].org
  }

  predicate SameEnd(a: Option<Sub>, b: Option<Sub>) {
    a.Some? == b.Some? && (a.Some? ==> a.value.expiresAt == b.value.expiresAt)
  }

  /** The end that a transaction marked to prolong has read is still the stored one, and it is the only one to
      prolong it. */
  ghost predicate EndsAreFresh(s: State) {
    && (forall k :: k in s.sessions && MarkedToProlong(s, k) ==>
          SameEnd(s.sessions[k].sub, SubOf(s, s.orders[s.sessions[k].orderId].org)))
    && (forall k, l ::
          k in s.sessions && l in s.sessions && k != l && MarkedToProlong(s, k) && MarkedToProlong(s, l) ==>
            s.orders[s.sessions[k].orderId].org != s.orders[s.sessions[l].orderId].org)
  }

  ghost predicate SameOrders(s: State, s': State) {
    forall o :: o in s.orders ==> o in s'.orders && s'.orders[o] == s.orders[o].(status := s'.orders[o].status)
  }

  lemma KeepEnds(s: State, s': State)
    requires EndsAreFresh(s) && LocksHold(s) && SameOrders(s, s')
    requires forall k :: k in s'.sessions && s'.sessions[k].Marked? ==>
             k in s.sessions && s'.sessions[k] == s.sessions[k]
    requires forall k :: k in s'.sessions && MarkedToProlong(s, k) ==>
               SameEnd(SubOf(s, s.orders[s.sessions[k].orderId].org), SubOf(s', s.orders[s.sessions[k].orderId].org))
    ensures EndsAreFresh(s')
  {
    hide SubOf;
    forall k | k in s'.sessions && MarkedToProlong(s', k) ensures MarkedToProlong(s, k) {
    }
  }

  lemma StepKeepsOrders(cal: Calendar, s: State, e: Event)
    requires Consistent(s)
    ensures SameOrders(s, Step(cal, s, e))
  {
    hide Step, Consistent;
    forall o | o in s.orders ensures o in Step(cal, s, e).orders &&
      Step(cal, s, e).orders[o] == s.orders[o].(status := Step(cal, s, e).orders[o].status) {
      StepOfOrder(cal, s, e, o);
    }
  }

  lemma CommitKeepsEnds(cal: Calendar, s: State, e: Event)
    requires Consistent(s) && EndsAreFresh(s) && Commits(cal, s, e)
    ensures EndsAreFresh(Step(cal, s, e))
  {
    var s', c := Step(cal, s, e), e.session;
    CommitStep(cal, s, e);
    CommitWrites(cal, s, e);
    StepKeepsOrders(cal, s, e);
    hide Step, Effect, HasInvoice, ModulePatch, OneInvoiceEach, OneRowEach, Paid;
    forall k | k in s'.sessions && MarkedToProlong(s, k)
      ensures SameEnd(SubOf(s, s.orders[s.sessions[k].orderId].org), SubOf(s', s.orders[s.sessions[k].orderId].org))
    {
      if Prolongs(OrderOf(cal, s, e)) {
        assert MarkedToProlong(s, c);
      }
    }
    KeepEnds(s, s');
  }

  /** A marking that succeeds reads the subscription as it is stored. */
  lemma MarkKeepsEnds(cal: Calendar, s: State, e: Event)
    requires Consistent(s) && EndsAreFresh(s) && MarksAlone(s, e) && e.Mark?
    ensures EndsAreFresh(Step(cal, s, e))
  {
    var s', k := Step(cal, s, e), e.session;
    StepKeepsOrders(cal, s, e);
    MarkSessions(cal, s, k);
    hide Step, HasInvoice, OneInvoiceEach, OneRowEach;
    if k !in s'.sessions || !s'.sessions[k].Marked? || s'.sessions == s.sessions {
      KeepEnds(s, s');
    } else {
      forall l | l in s'.sessions && l != k && MarkedToProlong(s', l) ensures MarkedToProlong(s, l) &&
        s'.sessions[l] == s.sessions[l] {
      }
    }
  }

  lemma MarkSessions(cal: Calendar, s: State, k: nat)
    requires LocksHold(s)
    ensures var s' := Step(cal, s, Mark(k));
            && s'.subs == s.subs && s'.orders == s.orders
            && (s'.sessions == s.sessions || s'.sessions == s.sessions - {k} ||
                (k in s.sessions && s.sessions[k].orderId in s.orders && s'.sessions ==
                 s.sessions[k := Marked(s.sessions[k].orderId, s.sessions[k].owner,
                   SubOf(s, s.orders[s.sessions[k].orderId].org))]))
  {
    hide RecordInvoice, LocksHold;
    if k in s.sessions {
      RecordsOnlyInvoices(EndSession(s, k), s.sessions[k].orderId);
    }
  }

  lemma OtherKeepsEnds(cal: Calendar, s: State, e: Event)
    requires Consistent(s) && EndsAreFresh(s) && !Commits(cal, s, e) && !e.Mark?
    ensures EndsAreFresh(Step(cal, s, e))
  {
    hide EndsAreFresh, HasInvoice, OneInvoiceEach, OneRowEach, RecordInvoice, LogApplied, Effect;
    OthersWriteNothing(cal, s, e);
    StepKeepsOrders(cal, s, e);
    if e.Look? {
      RecordsOnlyInvoices(s, e.id);
    }
    var s' := Step(cal, s, e);
    assert forall k :: k in s'.sessions && s'.sessions[k].Marked? ==>
           k in s.sessions && s'.sessions[k] == s.sessions[k];
    hide Step;
    KeepEnds(s, s');
  }

  lemma StepKeepsEnds(cal: Calendar, s: State, e: Event)
    requires Consistent(s) && EndsAreFresh(s) && MarksAlone(s, e)
    ensures EndsAreFresh(Step(cal, s, e)) && ReadsTheEnd(cal, s, e)
  {
    hide Consistent, MarksAlone, Step;
    if Commits(cal, s, e) {
      CommitKeepsEnds(cal, s, e);
      CommitWrites(cal, s, e);
      if Prolongs(OrderOf(cal, s, e)) {
        assert MarkedToProlong(s, e.session);
      }
    } else if e.Mark? {
      MarkKeepsEnds(cal, s, e);
    } else {
      OtherKeepsEnds(cal, s, e);
    }
  }

  predicate MarksAloneAt(cal: Calendar, s: State, events: seq<Event>, k: nat)
    requires k < |events|
  {
    MarksAlone(Run(cal, s, events[..k]), events[k])
  }

  lemma {:induction false} NoneOverlapReadsTheEnd(cal: Calendar, s: State, events: seq<Event>)
    requires Consistent(s) && EndsAreFresh(s) && forall k :: 0 <= k < |events| ==> MarksAloneAt(cal, s, events, k)
    ensures EndsAreFresh(Run(cal, s, events)) && forall k :: 0 <= k < |events| ==> ReadsTheEndAt(cal, s, events, k)
  {
    hide Consistent, EndsAreFresh, MarksAlone, ReadsTheEnd, Step;
    if events != [] {
      var n := |events| - 1;
      var before := events[..n];
      forall k | 0 <= k < n ensures before[..k] == events[..k] && MarksAloneAt(cal, s, before, k) {
        assert before[..k] == events[..k] && MarksAloneAt(cal, s, events, k);
      }
      NoneOverlapReadsTheEnd(cal, s, before);
      RunIsConsistent(cal, s, before);
      assert MarksAloneAt(cal, s, events, n);
      StepKeepsEnds(cal, Run(cal, s, before), events[n]);
      forall k | 0 <= k < |events| ensures ReadsTheEndAt(cal, s, events, k) {
        if k < n {
          assert ReadsTheEndAt(cal, s, before, k);
        }
      }
    }
  }

  /** In particular, each paid order prolongs the subscription of its organization once, as long as no two
      transactions that prolong it overlap. */
  lemma SubscriptionIsProlongedOnce(
    cal: Calendar, owners: map<nat, nat>, subs: map<nat, Sub>, events: seq<Event>, org: nat)
    requires org in subs && forall k :: 0 <= k < |events| ==> MarksAloneAt(cal, Start(owners, subs), events, k)
    ensures var s := Start(owners, subs);
            && org in Run(cal, s, events).subs
            && Run(cal, s, events).subs[org].expiresAt == Expiry(cal, subs[org].expiresAt, Applied(cal, s, events), org)
  {
    hide Run, Applied, Expiry, MarksAloneAt, ReadsTheEndAt;
    StartIsConsistent(owners, subs);
    NoneOverlapReadsTheEnd(cal, Start(owners, subs), events);
    EndIsThatOfPaidOrders(cal, owners, subs, events, org);
  }

  // ----- Transactions that overlap

  /** The transaction has looked its order up and can mark it. */
  predicate Ready(s: State, k: nat) {
    && k in s.sessions && s.sessions[k].Looked? && s.sessions[k].orderId in s.orders
    && var order := s.orders[s.sessions[k].orderId];
       order.status == PENDING && order.org in s.subs && !Locked(s, s.sessions[k].orderId)
  }

  /** Two transactions for different orders of one organization. */
  predicate Overlap(s: State, k: nat, l: nat) {
    && Ready(s, k) && Ready(s, l) && s.sessions[k].orderId != s.sessions[l].orderId
    && s.orders[s.sessions[k].orderId].org == s.orders[s.sessions[l].orderId].org
  }

  function BothMarked(cal: Calendar, s: State, k: nat, l: nat): State {
    Step(cal, Step(cal, s, Mark(k)), Mark(l))
  }

  lemma MarkOfReady(cal: Calendar, s: State, k: nat)
    requires Ready(s, k)
    ensures var Looked(o, owner) := s.sessions[k];
            Step(cal, s, Mark(k)) == s.(sessions := s.sessions[k := Marked(o, owner, SubOf(s, s.orders[o].org))])
  {
  }

  lemma MarkBoth(cal: Calendar, s: State, k: nat, l: nat)
    requires Consistent(s) && Overlap(s, k, l)
    ensures var (Looked(o, w), Looked(p, v)) := (s.sessions[k], s.sessions[l]);
            var sub := SubOf(s, s.orders[o].org);
            var marked := BothMarked(cal, s, k, l);
            && marked == s.(sessions := s.sessions[k := Marked(o, w, sub)][l := Marked(p, v, sub)])
            && Consistent(marked)
  {
    MarkOfReady(cal, s, k);
    StepIsConsistent(cal, s, Mark(k));
    var s1 := Step(cal, s, Mark(k));
    assert Ready(s1, l);
    MarkOfReady(cal, s1, l);
    StepIsConsistent(cal, s1, Mark(l));
  }

  /** Both transactions commit, the first and then the second; each order can take effect. */
  lemma CommitBoth(cal: Calendar, s: State, k: nat, l: nat, now: int, later: int)
    requires Consistent(s) && k != l && k in s.sessions && l in s.sessions && s.sessions[k].Marked? &&
             s.sessions[l].Marked?
    requires Commits(cal, s, Commit(k, now)) && Commits(cal, s, Commit(l, later))
    ensures var s1 := Step(cal, s, Commit(k, now));
            && Consistent(s1) && IsPaid(s1, s.sessions[k].orderId)
            && Commits(cal, s1, Commit(l, later))
            && OrderOf(cal, s1, Commit(l, later)) == OrderOf(cal, s, Commit(l, later))
            && ReadOf(cal, s1, Commit(l, later)) == ReadOf(cal, s, Commit(l, later))
            && var s2 := Step(cal, s1, Commit(l, later));
               Consistent(s2) && IsPaid(s2, s.sessions[k].orderId) && IsPaid(s2, s.sessions[l].orderId)
  {
    var first, second := Commit(k, now), Commit(l, later);
    CommitStep(cal, s, first);
    CommitWrites(cal, s, first);
    var s1 := Step(cal, s, first);
    hide Step, HasInvoice, OneInvoiceEach, OneRowEach, Paid;
    EffectAgain(cal, s, s1, second);
    hide Effect;
    CommitStep(cal, s1, second);
  }

  lemma EffectAgain(cal: Calendar, s: State, s1: State, e: Event)
    requires Commits(cal, s, e) && s1.subs.Keys == s.subs.Keys
    requires e.session in s1.sessions && s1.sessions[e.session] == s.sessions[e.session]
    requires s.sessions[e.session].orderId in s1.orders
    requires s1.orders[s.sessions[e.session].orderId] == s.orders[s.sessions[e.session].orderId]
    ensures Commits(cal, s1, e)
  {
  }

  /** Two overlapping transactions that prolong: both orders are paid, and the subscription is prolonged by the
      second only. */
  lemma OverlapLosesMonths(cal: Calendar, s: State, k: nat, l: nat, now: int, later: int)
    requires Consistent(s) && Overlap(s, k, l)
    requires Prolongs(s.orders[s.sessions[k].orderId]) && Prolongs(s.orders[s.sessions[l].orderId])
    ensures var s' := Step(cal, Step(cal, BothMarked(cal, s, k, l), Commit(k, now)), Commit(l, later));
            var o, p := s.sessions[k].orderId, s.sessions[l].orderId;
            var org := s.orders[p].org;
            && IsPaid(s', o) && IsPaid(s', p) && org in s'.subs
            && CountsFromTheEnd(cal, s.subs[org].expiresAt, later, s.orders[p].months, s'.subs[org].expiresAt)
  {
    var marked := BothMarked(cal, s, k, l);
    MarkBoth(cal, s, k, l);
    hide Step, Consistent, BothMarked;
    CommitBoth(cal, marked, k, l, now, later);
    var s1 := Step(cal, marked, Commit(k, now));
    CommitWrites(cal, s1, Commit(l, later));
  }

  /** Two overlapping transactions that grant modules: both orders are paid, and the subscription has the modules
      it had and those of the second only. */
  lemma OverlapLosesModules(cal: Calendar, s: State, k: nat, l: nat, now: int, later: int)
    requires Consistent(s) && Overlap(s, k, l)
    requires var o, p := s.orders[s.sessions[k].orderId], s.orders[s.sessions[l].orderId];
             && Toggles(o) && ModulePatch(o.toggle.value.key).Some?
             && Toggles(p) && ModulePatch(p.toggle.value.key).Some?
    ensures var s' := Step(cal, Step(cal, BothMarked(cal, s, k, l), Commit(k, now)), Commit(l, later));
            var o, p := s.sessions[k].orderId, s.sessions[l].orderId;
            var org := s.orders[p].org;
            && IsPaid(s', o) && IsPaid(s', p) && org in s'.subs
            && s'.subs[org].modules == s.subs[org].modules + Grant(s.orders[p])
  {
    var marked := BothMarked(cal, s, k, l);
    MarkBoth(cal, s, k, l);
    hide Step, Consistent, ModulePatch, BothMarked;
    CommitBoth(cal, marked, k, l, now, later);
    var s1 := Step(cal, marked, Commit(k, now));
    CommitWrites(cal, s1, Commit(l, later));
  }

  // ----- Such states are reached

  const TRIAL := Sub(None, true, {})

  function TwoOrders(months: int, first: Option<Toggle>, second: Option<Toggle>, sessions: map<nat, Session>): State {
    State(map[1 := Order(7, 10, months, first, PENDING), 2 := Order(7, 10, months, second, PENDING)],
          map[7 := 1], map[7 := TRIAL], [], [], sessions)
  }

  lemma OneMore(cal: Calendar, s: State, done: seq<Event>, e: Event)
    ensures Run(cal, s, done + [e]) == Step(cal, Run(cal, s, done), e)
  {
    hide Step;
    assert (done + [e])[..|done|] == done;
  }

  lemma TwoCreated(cal: Calendar, months: int, first: Option<Toggle>, second: Option<Toggle>)
    ensures Step(cal, Step(cal, Start(map[7 := 1], map[7 := TRIAL]), CreateOrder(1, 7, 10, months, first)),
                 CreateOrder(2, 7, 10, months, second)) == TwoOrders(months, first, second, map[])
  {
    hide RecordInvoice, Complete;
  }

  lemma BothLooked(cal: Calendar, months: int, first: Option<Toggle>, second: Option<Toggle>)
    ensures var t := TwoOrders(months, first, second, map[0 := Looked(1, 1), 1 := Looked(2, 1)]);
            && Step(cal, Step(cal, TwoOrders(months, first, second, map[]), Look(0, 1)), Look(1, 2)) == t
            && Overlap(t, 0, 1)
  {
    hide RecordInvoice, Complete;
    assert Step(cal, TwoOrders(months, first, second, map[]), Look(0, 1)) ==
           TwoOrders(months, first, second, map[0 := Looked(1, 1)]);
  }

  /** Two orders of one organization are created and looked up. */
  lemma OverlapIsReached(
    cal: Calendar, months: int, first: Option<Toggle>, second: Option<Toggle>) returns (events: seq<Event>)
    ensures var t := Run(cal, Start(map[7 := 1], map[7 := TRIAL]), events);
            && t == TwoOrders(months, first, second, map[0 := Looked(1, 1), 1 := Looked(2, 1)])
            && Consistent(t) && Overlap(t, 0, 1)
  {
    hide *;
    var s := Start(map[7 := 1], map[7 := TRIAL]);
    var e1, e2 := CreateOrder(1, 7, 10, months, first), CreateOrder(2, 7, 10, months, second);
    RunOfNone(cal, s);
    OneMore(cal, s, [], e1);
    OneMore(cal, s, [] + [e1], e2);
    OneMore(cal, s, [] + [e1] + [e2], Look(0, 1));
    OneMore(cal, s, [] + [e1] + [e2] + [Look(0, 1)], Look(1, 2));
    events := [] + [e1] + [e2] + [Look(0, 1)] + [Look(1, 2)];
    TwoCreated(cal, months, first, second);
    BothLooked(cal, months, first, second);
    StartIsConsistent(map[7 := 1], map[7 := TRIAL]);
    RunIsConsistent(cal, s, events);
  }

  lemma RunOfNone(cal: Calendar, s: State)
    ensures Run(cal, s, []) == s
  {
  }

  /** From the start: two paid orders of one month each, of which the subscription got one. */
  lemma MonthIsLost(cal: Calendar, now: int)
    ensures exists events: seq<Event> ::
              var t := Run(cal, Start(map[7 := 1], map[7 := TRIAL]), events);
              && IsPaid(t, 1) && IsPaid(t, 2) && t.orders[1].months == 1 && t.orders[2].months == 1
              && 7 in t.subs && t.subs[7].expiresAt == Some(cal(now, 1))
  {
    hide Step, Consistent, Run, Overlap;
    var s := Start(map[7 := 1], map[7 := TRIAL]);
    var looked := OverlapIsReached(cal, 1, None, None);
    var t := Run(cal, s, looked);
    var events := FourMore(cal, s, looked, now);
    OverlapLosesMonths(cal, t, 0, 1, now, now);
    var t' := Run(cal, s, events);
    StartIsConsistent(map[7 := 1], map[7 := TRIAL]);
    TermsStay(cal, s, looked, events, 1);
    TermsStay(cal, s, looked, events, 2);
    assert IsPaid(t', 1) && IsPaid(t', 2);
  }

  lemma FourMore(cal: Calendar, s: State, done: seq<Event>, now: int) returns (events: seq<Event>)
    ensures done <= events
    ensures Run(cal, s, events) ==
            Step(cal, Step(cal, BothMarked(cal, Run(cal, s, done), 0, 1), Commit(0, now)), Commit(1, now))
  {
    hide Step, Run;
    OneMore(cal, s, done, Mark(0));
    OneMore(cal, s, done + [Mark(0)], Mark(1));
    OneMore(cal, s, done + [Mark(0)] + [Mark(1)], Commit(0, now));
    OneMore(cal, s, done + [Mark(0)] + [Mark(1)] + [Commit(0, now)], Commit(1, now));
    events := done + [Mark(0)] + [Mark(1)] + [Commit(0, now)] + [Commit(1, now)];
  }

  lemma TermsStay(cal: Calendar, s: State, done: seq<Event>, events: seq<Event>, o: nat)
    requires Consistent(s) && done <= events && o in Run(cal, s, done).orders
    ensures o in Run(cal, s, events).orders &&
            Run(cal, s, events).orders[o].months == Run(cal, s, done).orders[o].months
  {
    hide Step, Run, Consistent;
    assert events[..|done|] == done;
    StatusIsFinal(cal, s, events, |done|, o);
  }

  /** From the start: two paid modules, of which the subscription got one. */
  lemma ModuleIsLost(cal: Calendar, now: int)
    ensures exists events: seq<Event> ::
              var t := Run(cal, Start(map[7 := 1], map[7 := TRIAL]), events);
              && IsPaid(t, 1) && IsPaid(t, 2) && 7 in t.subs && t.subs[7].modules == {"inventory"}
              && t.orders[1].toggle == Some(Toggle("kassa_pro", true))
  {
    hide Step, Consistent, Run, Overlap;
    var s := Start(map[7 := 1], map[7 := TRIAL]);
    var looked := OverlapIsReached(cal, 0, Some(Toggle("kassa_pro", true)), Some(Toggle("inventory", true)));
    var t := Run(cal, s, looked);
    var events := FourMore(cal, s, looked, now);
    OverlapLosesModules(cal, t, 0, 1, now, now);
    var t' := Run(cal, s, events);
    StartIsConsistent(map[7 := 1], map[7 := TRIAL]);
    assert events[..|looked|] == looked;
    StatusIsFinal(cal, s, events, |looked|, 1);
    assert IsPaid(t', 1) && IsPaid(t', 2);
  }
}
