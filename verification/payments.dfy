/**
 * Payment orders: webhooks and mock confirmations that come repeatedly, in any order and at the same time.
 * An order is finalised in one transaction, which other requests can come between: it looks the order up,
 * marks it where it is still pending, reads the subscription, and commits.
 */
module Payments {
  import opened Wrappers

  datatype Status = PENDING | PAID | FAILED | CANCELLED

  datatype Toggle = Toggle(key: string, enabled: bool)

  datatype Order = Order(org: nat, amount: int, months: int, toggle: Option<Toggle>, status: Status)

  datatype Sub = Sub(expiresAt: Option<int>, isTrial: bool, modules: set<string>)

  /** The platform invoice of an order, issued to the owner of the organization. */
  datatype Invoice = Invoice(orderId: nat, userId: nat, org: nat, amount: int)

  datatype AuditRow = AuditRow(orderId: nat, org: nat, amount: int, months: int, owner: nat)

  /** A transaction in flight. Once the order is marked, its row is locked until the transaction ends. */
  datatype Session =
    | Looked(orderId: nat, owner: nat)
    | Marked(orderId: nat, owner: nat, sub: Option<Sub>)

  datatype State = State(
    orders: map<nat, Order>, owners: map<nat, nat>, subs: map<nat, Sub>,
    invoices: seq<Invoice>, audit: seq<AuditRow>, sessions: map<nat, Session>)

  datatype Error = Unauthorized | NotFound | CannotBeCompleted | OwnerRequired | SubscriptionNotFound | UnknownModule

  /** `setUTCMonth` on a date, whatever it does at the end of a month. */
  type Calendar = (int, int) -> int

  predicate HasInvoice(s: State, o: nat) {
    exists i :: 0 <= i < |s.invoices| && s.invoices[i].orderId == o
  }

  predicate HasAudit(s: State, o: nat) {
    exists i :: 0 <= i < |s.audit| && s.audit[i].orderId == o
  }

  function RecordInvoice(s: State, o: nat): State {
    if HasInvoice(s, o) || o !in s.orders || s.orders[o].status != PAID || s.orders[o].org !in s.owners then s
    else
      var order := s.orders[o];
      s.(invoices := s.invoices + [Invoice(o, s.owners[order.org], order.org, order.amount)])
  }

  function LogApplied(s: State, o: nat, owner: nat): State
    requires o in s.orders
  {
    if HasAudit(s, o) then s
    else
      var order := s.orders[o];
      s.(audit := s.audit + [AuditRow(o, order.org, order.amount, order.months, owner)])
  }

  /** The later of now and the current end. */
  function Base(expiresAt: Option<int>, now: int): int {
    if expiresAt.Some? && expiresAt.value > now then expiresAt.value else now
  }

  function Extend(cal: Calendar, expiresAt: Option<int>, now: int, months: int): int {
    cal(Base(expiresAt, now), months)
  }

  function ModulePatch(key: string): Option<set<string>> {
    if key in {"kassa_pro", "banking_pro", "inventory", "hr_full"} then Some({key})
    else if key == "manufacturing" then Some({key, "production"})
    else if key == "ifrs_mapping" then Some({key, "ifrs"})
    else None
  }

  predicate Toggles(order: Order) {
    order.toggle.Some? && order.toggle.value.enabled && order.months == 0 && order.toggle.value.key != ""
  }

  predicate Prolongs(order: Order) {
    !Toggles(order) && order.months > 0
  }

  /** What an order does to the subscription: `read` is the subscription as the transaction read it, `row` the
      stored one, of which only the changed columns are written. */
  function Effect(
    cal: Calendar, order: Order, read: Option<Sub>, row: Option<Sub>, now: int): Result<Option<Sub>, Error> {
    if Toggles(order) then
      var patch := ModulePatch(order.toggle.value.key);
      if patch.None? then Failure(UnknownModule)
      else if read.None? || row.None? then Failure(SubscriptionNotFound)
      else Success(Some(row.value.(modules := read.value.modules + patch.value)))
    else if order.months > 0 then
      if read.None? || row.None? then Failure(SubscriptionNotFound)
      else Success(Some(row.value.(expiresAt := Some(Extend(cal, read.value.expiresAt, now, order.months)),
        isTrial := false)))
    else Success(row)
  }

  function SubOf(s: State, org: nat): Option<Sub> {
    if org in s.subs then Some(s.subs[org]) else None
  }

  function WithSub(s: State, org: nat, sub: Option<Sub>): State {
    if sub.None? then s else s.(subs := s.subs[org := sub.value])
  }

  /** The rest of the transaction once the order is marked; a failure undoes all of it. */
  function Complete(cal: Calendar, s: State, o: nat, owner: nat, read: Option<Sub>, now: int): Result<State, Error>
    requires o in s.orders
  {
    var order := s.orders[o];
    match Effect(cal, order, read, SubOf(s, order.org), now)
    case Failure(e) => Failure(e)
    case Success(sub) =>
      var paid := WithSub(s, order.org, sub).(orders := s.orders[o := order.(status := PAID)]);
      Success(RecordInvoice(LogApplied(paid, o, owner), o))
  }

  datatype Event =
    | CreateOrder(id: nat, org: nat, amount: int, months: int, toggle: Option<Toggle>)
    | FailedWebhook(id: nat)
    | Look(session: nat, id: nat)
    | Mark(session: nat)
    | Commit(session: nat, now: int)
    | SetOwner(org: nat, owner: Option<nat>)

  /** The row is locked: a step on it that would have to wait does nothing, and comes again after the commit. */
  predicate Locked(s: State, o: nat) {
    exists k :: k in s.sessions && s.sessions[k].Marked? && s.sessions[k].orderId == o
  }

  function EndSession(s: State, k: nat): State {
    s.(sessions := s.sessions - {k})
  }

  function Step(cal: Calendar, s: State, e: Event): State {
    match e
    case CreateOrder(id, org, amount, months, toggle) =>
      if id in s.orders then s else s.(orders := s.orders[id := Order(org, amount, months, toggle, PENDING)])
    case FailedWebhook(id) =>
      if id !in s.orders || s.orders[id].status != PENDING || Locked(s, id) then s
      else s.(orders := s.orders[id := s.orders[id].(status := FAILED)])
    case Look(k, id) =>
      if k in s.sessions || id !in s.orders then s
      else if s.orders[id].status == PAID then RecordInvoice(s, id)
      else if s.orders[id].status != PENDING || s.orders[id].org !in s.owners then s
      else s.(sessions := s.sessions[k := Looked(id, s.owners[s.orders[id].org])])
    case Mark(k) =>
      if k !in s.sessions || s.sessions[k].Marked? || s.sessions[k].orderId !in s.orders ||
        Locked(s, s.sessions[k].orderId) then s
      else
        var Looked(o, owner) := s.sessions[k];
        if s.orders[o].status == PENDING then
          s.(sessions := s.sessions[k := Marked(o, owner, SubOf(s, s.orders[o].org))])
        else RecordInvoice(EndSession(s, k), o)
    case Commit(k, now) =>
      if k !in s.sessions || s.sessions[k].Looked? || s.sessions[k].orderId !in s.orders then s
      else
        var Marked(o, owner, read) := s.sessions[k];
        (match Complete(cal, s, o, owner, read, now)
         case Success(s') => EndSession(s', k)
         case Failure(_) => EndSession(s, k))
    case SetOwner(org, owner) =>
      s.(owners := if owner.Some? then s.owners[org := owner.value] else s.owners - {org})
  }

  function Run(cal: Calendar, s: State, events: seq<Event>): State {
    if events == [] then s else Step(cal, Run(cal, s, events[..|events| - 1]), events[|events| - 1])
  }

  /** One transaction that nothing comes between. */
  function Finalize(cal: Calendar, s: State, o: nat, now: int): State {
    Step(cal, Step(cal, Step(cal, s, Look(0, o)), Mark(0)), Commit(0, now))
  }

  lemma CompleteIgnoresSessions(
    cal: Calendar, s: State, o: nat, owner: nat, read: Option<Sub>, now: int, ss: map<nat, Session>)
    requires o in s.orders
    ensures var t := s.(sessions := ss);
            match Complete(cal, s, o, owner, read, now)
            case Failure(e) => Complete(cal, t, o, owner, read, now) == Failure(e)
            case Success(s') => Complete(cal, t, o, owner, read, now) == Success(s'.(sessions := ss))
  {
    var t, order := s.(sessions := ss), s.orders[o];
    hide Effect;
    match Effect(cal, order, read, SubOf(s, order.org), now)
    case Failure(_) =>
    case Success(sub) =>
      var paid := WithSub(s, order.org, sub).(orders := s.orders[o := order.(status := PAID)]);
      var paid' := paid.(sessions := ss);
      assert WithSub(t, order.org, sub).(orders := s.orders[o := order.(status := PAID)]) == paid';
      assert HasAudit(paid, o) == HasAudit(paid', o);
      var logged, logged' := LogApplied(paid, o, owner), LogApplied(paid', o, owner);
      assert logged' == logged.(sessions := ss);
      assert HasInvoice(logged, o) == HasInvoice(logged', o);
  }

  lemma FinalizeOfPending(cal: Calendar, s: State, o: nat, now: int)
    requires s.sessions == map[] && o in s.orders && s.orders[o].status == PENDING && s.orders[o].org in s.owners
    ensures var org := s.orders[o].org;
            Finalize(cal, s, o, now) ==
            match Complete(cal, s, o, s.owners[org], SubOf(s, org), now)
            case Success(s') => s'
            case Failure(_) => s
  {
    hide Complete;
    var org := s.orders[o].org;
    var owner := s.owners[org];
    var looked := map[0 := Looked(o, owner)];
    var s1 := s.(sessions := looked);
    assert Step(cal, s, Look(0, o)) == s1;
    var marked := looked[0 := Marked(o, owner, SubOf(s, org))];
    assert Step(cal, s1, Mark(0)) == s.(sessions := marked);
    CompleteIgnoresSessions(cal, s, o, owner, SubOf(s, org), now, marked);
    CompleteKeepsSessions(cal, s, o, owner, SubOf(s, org), now);
    assert marked - {0} == map[];
  }

  /** A stored end that is yet to come is prolonged; otherwise the months count from now. */
  predicate CountsFromTheEnd(cal: Calendar, end: Option<int>, now: int, months: int, end': Option<int>) {
    && (end.Some? && now < end.value ==> end' == Some(cal(end.value, months)))
    && (end.None? || end.value <= now ==> end' == Some(cal(now, months)))
  }

  /** What an order that takes effect leaves of a subscription: a module order grants its module, with its alias if it
      has one; any other order over months prolongs; and an order over no months changes nothing. */
  predicate TakesEffect(cal: Calendar, order: Order, now: int, sub: Sub, sub': Sub) {
    if order.months == 0 && order.toggle.Some? && order.toggle.value.enabled && order.toggle.value.key != "" then
      var key := order.toggle.value.key;
      var aliases := map["manufacturing" := "production", "ifrs_mapping" := "ifrs"];
      && key in {"kassa_pro", "banking_pro", "inventory", "hr_full", "manufacturing", "ifrs_mapping"}
      && sub' == sub.(modules := sub.modules + {key} + if key in aliases then {aliases[key]} else {})
    else if order.months > 0 then
      && sub' == sub.(expiresAt := sub'.expiresAt, isTrial := false)
      && CountsFromTheEnd(cal, sub.expiresAt, now, order.months, sub'.expiresAt)
    else sub' == sub
  }

  /** The order changes nothing that needs a subscription. */
  predicate NeedsNoSubscription(order: Order) {
    order.months <= 0 && (order.months < 0 || order.toggle.None? || !order.toggle.value.enabled ||
      order.toggle.value.key == "")
  }

  lemma EffectLaw(cal: Calendar, order: Order, row: Option<Sub>, now: int)
    ensures var r := Effect(cal, order, row, row, now);
            && (r.Success? <==>
                (row.Some? && exists sub' :: TakesEffect(cal, order, now, row.value, sub')) ||
                (row.None? && NeedsNoSubscription(order)))
            && (r.Success? && row.Some? ==>
                r.value.Some? && TakesEffect(cal, order, now, row.value, r.value.value))
            && (r.Success? && row.None? ==> r.value.None?)
  {
    if row.Some? && Effect(cal, order, row, row, now).Success? {
      assert TakesEffect(cal, order, now, row.value, Effect(cal, order, row, row, now).value.value);
    }
  }

  /** What finalising a pending order does when nothing comes between: either nothing at all, or the order is paid, its
      effect is on the subscription of its organization and on no other, and it has an invoice to the owner and one
      audit row. */
  lemma FinalizeLaw(cal: Calendar, s: State, o: nat, now: int)
    requires s.sessions == map[] && o in s.orders && s.orders[o].status == PENDING && s.orders[o].org in s.owners
    requires !HasInvoice(s, o) && !HasAudit(s, o)
    ensures var order, s' := s.orders[o], Finalize(cal, s, o, now);
            var org, owner := order.org, s.owners[order.org];
            if (org in s.subs && exists sub' :: TakesEffect(cal, order, now, s.subs[org], sub')) ||
               (org !in s.subs && NeedsNoSubscription(order)) then
              && s'.orders == s.orders[o := order.(status := PAID)] && s'.owners == s.owners && s'.sessions == map[]
              && s'.invoices == s.invoices + [Invoice(o, owner, org, order.amount)]
              && s'.audit == s.audit + [AuditRow(o, org, order.amount, order.months, owner)]
              && s'.subs.Keys == s.subs.Keys
              && (org in s.subs ==> TakesEffect(cal, order, now, s.subs[org], s'.subs[org]))
              && forall other :: other in s.subs && other != org ==> s'.subs[other] == s.subs[other]
            else s' == s
  {
    var order := s.orders[o];
    var row := SubOf(s, order.org);
    FinalizeOfPending(cal, s, o, now);
    EffectLaw(cal, order, row, now);
    hide Finalize, Effect, TakesEffect, NeedsNoSubscription;
    var r := Effect(cal, order, row, row, now);
    if r.Success? {
      var paid := WithSub(s, order.org, r.value).(orders := s.orders[o := order.(status := PAID)]);
      assert HasAudit(paid, o) == HasAudit(s, o);
      assert HasInvoice(LogApplied(paid, o, s.owners[order.org]), o) == HasInvoice(s, o);
    }
  }

  lemma CompleteKeepsSessions(cal: Calendar, s: State, o: nat, owner: nat, read: Option<Sub>, now: int)
    requires o in s.orders
    ensures var r := Complete(cal, s, o, owner, read, now); r.Success? ==> r.value.sessions == s.sessions
  {
    hide Effect;
  }

  // ----- The service

  class PaymentProviderService {
    const cal: Calendar
    var orders: map<nat, Order>
    var owners: map<nat, nat>
    var subs: map<nat, Sub>
    var invoices: seq<Invoice>
    var audit: seq<AuditRow>

    constructor (cal: Calendar, owners: map<nat, nat>, subs: map<nat, Sub>)
      ensures this.cal == cal && Abstract() == State(map[], owners, subs, [], [], map[])
    {
      this.cal := cal;
      this.owners := owners;
      this.subs := subs;
      orders := map[];
      invoices := [];
      audit := [];
    }

    ghost function Abstract(): State
      reads this
    {
      State(orders, owners, subs, invoices, audit, map[])
    }

    method RecordPaidOrderInvoice(o: nat)
      modifies this`invoices
      ensures Abstract() == RecordInvoice(old(Abstract()), o)
    {
      for i := 0 to |invoices|
        invariant invoices == old(invoices)
        invariant forall j :: 0 <= j < i ==> invoices[j].orderId != o
      {
        if invoices[i].orderId == o {
          assert HasInvoice(old(Abstract()), o);
          return;
        }
      }
      if o !in orders || orders[o].status != PAID {
        return;
      }
      if orders[o].org !in owners {
        return;
      }
      invoices := invoices + [Invoice(o, owners[orders[o].org], orders[o].org, orders[o].amount)];
    }

    method LogPlatformBillingPaymentApplied(o: nat, owner: nat)
      requires o in orders
      modifies this`audit
      ensures Abstract() == LogApplied(old(Abstract()), o, owner)
    {
      for i := 0 to |audit|
        invariant audit == old(audit)
        invariant forall j :: 0 <= j < i ==> audit[j].orderId != o
      {
        if audit[i].orderId == o {
          assert HasAudit(old(Abstract()), o);
          return;
        }
      }
      audit := audit + [AuditRow(o, orders[o].org, orders[o].amount, orders[o].months, owner)];
    }

    method ExtendSubscriptionByMonths(org: nat, months: int, now: int) returns (ok: bool)
      modifies this`subs
      ensures ok <==> org in old(subs)
      ensures subs == if ok then
                var sub := old(subs)[org];
                old(subs)[org := sub.(expiresAt := Some(Extend(cal, sub.expiresAt, now, months)), isTrial := false)]
              else old(subs)
      ensures ok ==> CountsFromTheEnd(cal, old(subs)[org].expiresAt, now, months, subs[org].expiresAt)
    {
      if org !in subs {
        return false;
      }
      var sub := subs[org];
      var base := if sub.expiresAt.Some? && sub.expiresAt.value > now then sub.expiresAt.value else now;
      subs := subs[org := sub.(expiresAt := Some(cal(base, months)), isTrial := false)];
      return true;
    }

    /** The transaction; on an error nothing of it is kept. */
    method FinalizePaidOrder(o: nat, now: int) returns (r: Result<(), Error>)
      modifies this
      ensures Abstract() == Finalize(cal, old(Abstract()), o, now)
      ensures r.Success? <==> o in orders && orders[o].status == PAID
    {
      hide RecordInvoice, LogApplied;
      if o !in orders {
        return Failure(NotFound);
      }
      var current := orders[o];
      if current.status == PAID {
        RecordPaidOrderInvoice(o);
        return Success(());
      }
      if current.status != PENDING {
        return Failure(CannotBeCompleted);
      }
      if current.org !in owners {
        return Failure(OwnerRequired);
      }
      var owner := owners[current.org];
      var before := orders;
      ghost var s := Abstract();
      FinalizeOfPending(cal, s, o, now);
      hide Finalize;
      orders := orders[o := current.(status := PAID)];
      if Toggles(current) {
        var patch := ModulePatch(current.toggle.value.key);
        if patch.None? || current.org !in subs {
          orders := before;
          return Failure(if patch.None? then UnknownModule else SubscriptionNotFound);
        }
        var sub := subs[current.org];
        subs := subs[current.org := sub.(modules := sub.modules + patch.value)];
      } else if current.months > 0 {
        var ok := ExtendSubscriptionByMonths(current.org, current.months, now);
        if !ok {
          orders := before;
          return Failure(SubscriptionNotFound);
        }
      } else {
        assert current.org in subs ==> subs[current.org := subs[current.org]] == subs;
      }
      assert exists sub :: Effect(cal, current, SubOf(s, current.org), SubOf(s, current.org), now) == Success(sub) &&
                           Abstract() == WithSub(s, current.org, sub).(orders := orders);
      LogPlatformBillingPaymentApplied(o, owner);
      RecordPaidOrderInvoice(o);
      return Success(());
    }

    method HandleWebhook(o: nat, failed: bool, signatureOk: bool, now: int) returns (r: Result<(), Error>)
      modifies this
      ensures Abstract() ==
              if !signatureOk then old(Abstract())
              else if failed then Step(cal, old(Abstract()), FailedWebhook(o))
              else Finalize(cal, old(Abstract()), o, now)
      ensures signatureOk && failed ==>
              && orders == old(if o in orders && orders[o].status == PENDING
                               then orders[o := orders[o].(status := FAILED)] else orders)
              && unchanged(`subs) && unchanged(`invoices) && unchanged(`audit) && unchanged(`owners)
      ensures r.Success? <==> signatureOk && (failed || (o in orders && orders[o].status == PAID))
    {
      if !signatureOk {
        return Failure(Unauthorized);
      }
      if failed {
        if o in orders && orders[o].status == PENDING {
          orders := orders[o := orders[o].(status := FAILED)];
        }
        return Success(());
      }
      r := FinalizePaidOrder(o, now);
    }

    method ConfirmPaymentOrder(o: nat, tokenOk: bool, now: int) returns (r: Result<(), Error>)
      modifies this
      ensures Abstract() == if tokenOk then Finalize(cal, old(Abstract()), o, now) else old(Abstract())
      ensures r.Success? <==> tokenOk && o in orders && orders[o].status == PAID
    {
      if !tokenOk {
        return Failure(Unauthorized);
      }
      r := FinalizePaidOrder(o, now);
    }
  }
}
