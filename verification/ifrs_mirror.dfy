/** Giving every national account an IFRS twin: `mirrorNasToIfrs`. */
module IfrsMirror {
  import opened Wrappers
  import opened Hierarchy
  import ChartSeed

  datatype NasData = NasData(code: string, names: ChartSeed.Names, currency: string)

  /** A national account: its id, the id of its parent and what the twin copies. */
  type NasAccount = Item<int, NasData>

  datatype IfrsAccount = IfrsAccount(id: nat, parentId: Option<nat>, names: ChartSeed.Names, currency: string)

  /** The national accounts in the order of the query, the IFRS accounts by code, and the next fresh id. */
  datatype Books = Books(nas: seq<NasAccount>, ifrs: map<string, IfrsAccount>, nextId: nat)

  /** Ids are primary keys, and codes are unique in a ledger. */
  predicate Distinct(nas: seq<NasAccount>) {
    forall i, j :: 0 <= i < j < |nas| ==> nas[i].key != nas[j].key && nas[i].data.code != nas[j].data.code
  }

  function Missing(nas: seq<NasAccount>, ifrs: map<string, IfrsAccount>): seq<NasAccount> {
    if nas == [] then []
    else Missing(nas[..|nas| - 1], ifrs) + if nas[|nas| - 1].data.code in ifrs then [] else [nas[|nas| - 1]]
  }

  /** The ids of the national accounts that have an IFRS account of the same code. */
  function Twinned(nas: seq<NasAccount>, ifrs: map<string, IfrsAccount>): set<int> {
    set i | 0 <= i < |nas| && nas[i].data.code in ifrs :: nas[i].key
  }

  /** The id of the twin of the national account with the given id. */
  function TwinId(nas: seq<NasAccount>, ifrs: map<string, IfrsAccount>, id: int): Option<nat> {
    if nas == [] then None
    else if nas[0].key == id then (if nas[0].data.code in ifrs then Some(ifrs[nas[0].data.code].id) else None)
    else TwinId(nas[1..], ifrs, id)
  }

  function ParentTwin(b: Books, n: NasAccount): Option<nat> {
    if n.parent.None? then None else TwinId(b.nas, b.ifrs, n.parent.value)
  }

  function Create(b: Books, n: NasAccount, parentId: Option<nat>): Books {
    b.(ifrs := b.ifrs[n.data.code := IfrsAccount(b.nextId, parentId, n.data.names, n.data.currency)],
      nextId := b.nextId + 1)
  }

  function CreateAll(b: Books, order: seq<NasAccount>): Books {
    if order == [] then b
    else
      var before := CreateAll(b, order[..|order| - 1]);
      Create(before, order[|order| - 1], ParentTwin(before, order[|order| - 1]))
  }

  /** The order in which twins are created, and the accounts that get none. */
  function Schedule(b: Books): (seq<NasAccount>, seq<NasAccount>) {
    Solve(Missing(b.nas, b.ifrs), Twinned(b.nas, b.ifrs))
  }

  function Mirror(b: Books): Books {
    CreateAll(b, Schedule(b).0)
  }

  lemma {:induction false} CreateAllConcat(b: Books, xs: seq<NasAccount>, ys: seq<NasAccount>)
    ensures CreateAll(b, xs + ys) == CreateAll(CreateAll(b, xs), ys)
  {
    if ys == [] {
      assert xs + ys == xs;
    } else {
      assert (xs + ys)[..|xs + ys| - 1] == xs + ys[..|ys| - 1];
      CreateAllConcat(b, xs, ys[..|ys| - 1]);
    }
  }

  lemma CreateAllStep(b: Books, order: seq<NasAccount>)
    ensures CreateAll(b, order) ==
            if order == [] then b
            else
              var before := CreateAll(b, order[..|order| - 1]);
              Create(before, order[|order| - 1], ParentTwin(before, order[|order| - 1]))
  {
  }

  lemma {:induction false} TwinOfMember(nas: seq<NasAccount>, ifrs: map<string, IfrsAccount>, i: nat)
    requires Distinct(nas) && i < |nas|
    ensures TwinId(nas, ifrs, nas[i].key) == if nas[i].data.code in ifrs then Some(ifrs[nas[i].data.code].id) else None
  {
    if i > 0 {
      TwinOfMember(nas[1..], ifrs, i - 1);
    }
  }

  lemma {:induction false} MissingLaws(nas: seq<NasAccount>, ifrs: map<string, IfrsAccount>)
    ensures |Missing(nas, ifrs)| <= |nas|
    ensures forall n: NasAccount :: n in Missing(nas, ifrs) <==> n in nas && n.data.code !in ifrs
    ensures Distinct(nas) ==> Distinct(Missing(nas, ifrs))
  {
    if nas != [] {
      var init, last := nas[..|nas| - 1], nas[|nas| - 1];
      MissingLaws(init, ifrs);
      assert nas == init + [last];
      var kept, all := Missing(init, ifrs), Missing(nas, ifrs);
      assert all == if last.data.code in ifrs then kept else kept + [last];
      forall n: NasAccount ensures n in all <==> n in nas && n.data.code !in ifrs {
        assert n in nas <==> n in init || n == last;
      }
      assert forall i :: 0 <= i < |kept| ==> kept[i] in init;
    }
  }

  /** `nasIdToIfrsId` holds the twins found or created so far. */
  predicate Recorded(ids: map<int, nat>, keys: set<int>, b: Books) {
    ids.Keys == keys && forall k :: k in ids ==> TwinId(b.nas, b.ifrs, k) == Some(ids[k])
  }

  lemma {:induction false} TwinsKept(
    nas: seq<NasAccount>, ifrs: map<string, IfrsAccount>, code: string, a: IfrsAccount, id: int)
    requires code !in ifrs && TwinId(nas, ifrs, id).Some?
    ensures TwinId(nas, ifrs[code := a], id) == TwinId(nas, ifrs, id)
  {
    if nas != [] && nas[0].key != id {
      TwinsKept(nas[1..], ifrs, code, a, id);
    }
  }

  class AccountsService {
    const nas: seq<NasAccount>
    var ifrs: map<string, IfrsAccount>
    var nextId: nat

    function State(): Books
      reads this
    {
      Books(nas, ifrs, nextId)
    }

    constructor (b: Books)
      ensures State() == b
    {
      nas, ifrs, nextId := b.nas, b.ifrs, b.nextId;
    }

    method CreateTwin(n: NasAccount, parentId: Option<nat>, ids: map<int, nat>) returns (ids': map<int, nat>)
      requires Distinct(nas) && n in nas && n.data.code !in ifrs
      requires Recorded(ids, ids.Keys, State())
      modifies this
      ensures State() == Create(old(State()), n, parentId)
      ensures Recorded(ids', ids.Keys + {n.key}, State())
    {
      forall k | k in ids ensures TwinId(nas, Create(State(), n, parentId).ifrs, k) == Some(ids[k]) {
        TwinsKept(nas, ifrs, n.data.code, IfrsAccount(nextId, parentId, n.data.names, n.data.currency), k);
      }
      var id := nextId;
      ifrs := ifrs[n.data.code := IfrsAccount(id, parentId, n.data.names, n.data.currency)];
      nextId := nextId + 1;
      ids' := ids[n.key := id];
      ghost var i :| 0 <= i < |nas| && nas[i] == n;
      TwinOfMember(nas, ifrs, i);
    }

    method FindTwins() returns (ids: map<int, nat>, pending: seq<NasAccount>)
      requires Distinct(nas)
      ensures Recorded(ids, Twinned(nas, ifrs), State())
      ensures pending == Missing(nas, ifrs)
    {
      ids, pending := map[], [];
      for i := 0 to |nas|
        invariant ids.Keys == Twinned(nas[..i], ifrs)
        invariant forall k :: k in ids ==> TwinId(nas, ifrs, k) == Some(ids[k])
        invariant pending == Missing(nas[..i], ifrs)
      {
        assert nas[..i + 1][..i] == nas[..i];
        assert forall j :: 0 <= j < i ==> nas[..i + 1][j] == nas[..i][j];
        TwinOfMember(nas, ifrs, i);
        assert Twinned(nas[..i + 1], ifrs) == Twinned(nas[..i], ifrs) +
               if nas[i].data.code in ifrs then {nas[i].key} else {};
        if nas[i].data.code in ifrs {
          ids := ids[nas[i].key := ifrs[nas[i].data.code].id];
        } else {
          pending := pending + [nas[i]];
        }
      }
      assert nas[..|nas|] == nas;
    }

    method OnePass(pending: seq<NasAccount>, ids: map<int, nat>) returns (still: seq<NasAccount>, ids': map<int, nat>)
      requires Distinct(nas) && Distinct(pending) && Recorded(ids, ids.Keys, State())
      requires forall n: NasAccount :: n in pending ==> n in nas && n.data.code !in ifrs
      modifies this
      ensures var (placed, left) := Pass(pending, ids.Keys);
              && still == left && State() == CreateAll(old(State()), placed)
              && Recorded(ids', ids.Keys + Keys(placed), State())
      ensures forall n: NasAccount :: n in still ==> n in pending && n.data.code !in ifrs
    {
      hide Pass, CreateAll, Passing, Create, TwinId, Keys;
      still, ids' := [], ids;
      KeysOfNone<int, NasData>();
      ghost var placed: seq<NasAccount> := [];
      ghost var start := State();
      PassingEnds([], [], pending, ids.Keys);
      assert pending[0..] == pending && ids.Keys + Keys<int, NasData>([]) == ids.Keys;
      CreateAllStep(start, []);
      for i := 0 to |pending|
        invariant State() == CreateAll(start, placed)
        invariant Recorded(ids', ids.Keys + Keys(placed), State())
        invariant Pass(pending, ids.Keys) == Passing(placed, still, pending[i..], ids'.Keys)
        invariant forall j :: i <= j < |pending| ==> pending[j].data.code !in ifrs
        invariant forall n: NasAccount :: n in still ==>
                  n in pending && n.data.code !in ifrs && forall j :: i <= j < |pending| ==>
                  pending[j].data.code != n.data.code
      {
        var n := pending[i];
        PassingStep(placed, still, pending[i..], ids'.Keys);
        assert pending[i..][1..] == pending[i + 1..];
        if n.parent.Some? && n.parent.value !in ids' {
          still := still + [n];
          continue;
        }
        var parentIfrs := if n.parent.None? then None else Some(ids'[n.parent.value]);
        CreateAllStep(start, placed + [n]);
        assert (placed + [n])[..|placed|] == placed;
        KeysOfConcat(placed, [n]);
        KeysOfOne(n);
        CreatedCode(State(), n, parentIfrs);
        ids' := CreateTwin(n, parentIfrs, ids');
        placed := placed + [n];
      }
      assert pending[|pending|..] == [];
      PassingEnds(placed, still, pending, ids'.Keys);
    }

    /** Returns how many twins were created, and the accounts left without one, for which the service
        throws. The guard counter never ends the loop. */
    method MirrorNasToIfrs() returns (created: nat, unresolved: seq<NasAccount>)
      requires Distinct(nas)
      modifies this
      ensures State() == Mirror(old(State()))
      ensures unresolved == Schedule(old(State())).1
      ensures created + |unresolved| == |Missing(nas, old(ifrs))|
    {
      hide Pass, Solve, CreateAll, TwinId, Missing, Keys, Twinned;
      ghost var start := State();
      var ids, pending := FindTwins();
      MissingLaws(nas, ifrs);
      created := 0;
      var guard := 0;
      ghost var done: seq<NasAccount>, base := [], ids.Keys;
      KeysOfNone<int, NasData>();
      assert base + Keys<int, NasData>([]) == base && [] + Solve(pending, base).0 == Solve(pending, base).0;
      CreateAllStep(start, []);
      while |pending| > 0 && guard < |nas| + 100
        invariant guard + |pending| <= |nas| && created + |pending| == |Missing(nas, start.ifrs)|
        invariant Distinct(pending) && forall n: NasAccount :: n in pending ==> n in nas && n.data.code !in ifrs
        invariant Recorded(ids, base + Keys(done), State())
        invariant State() == CreateAll(start, done)
        invariant Schedule(start) == (done + Solve(pending, base + Keys(done)).0, Solve(pending, base + Keys(done)).1)
        decreases |nas| - guard
      {
        guard := guard + 1;
        ghost var placed := Pass(pending, base + Keys(done)).0;
        var still;
        PassKeepsDistinct(pending, base + Keys(done));
        still, ids := OnePass(pending, ids);
        CreateAllConcat(start, done, placed);
        if |still| == |pending| {
          StuckPass(pending, base + Keys(done));
          assert done + placed == done && done + [] == done;
          return created, still;
        }
        SolveStep(pending, base + Keys(done), done);
        KeysOfConcat(done, placed);
        assert base + Keys(done) + Keys(placed) == base + (Keys(done) + Keys(placed));
        done := done + placed;
        created := created + (|pending| - |still|);
        pending := still;
      }
      SolveNothing(base + Keys(done));
      assert done + [] == done;
      return created, [];
    }
  }

  lemma SolveNothing(resolved: set<int>)
    ensures Solve<int, NasData>([], resolved) == ([], [])
  {
  }

  lemma StuckPass(items: seq<NasAccount>, resolved: set<int>)
    requires items != [] && |Pass(items, resolved).1| == |items|
    ensures Pass(items, resolved).0 == [] && Solve(items, resolved) == ([], Pass(items, resolved).1)
  {
  }

  lemma CreatedCode(b: Books, n: NasAccount, parentId: Option<nat>)
    ensures Create(b, n, parentId).ifrs.Keys == b.ifrs.Keys + {n.data.code}
  {
  }

  lemma {:induction false} PassKeepsDistinct(items: seq<NasAccount>, resolved: set<int>)
    requires Distinct(items)
    ensures Distinct(Pass(items, resolved).1)
    ensures forall n: NasAccount :: n in Pass(items, resolved).1 ==> n in items
  {
    if items != [] {
      var tail := items[1..];
      var left := Pass(tail, if Ready(items[0], resolved) then resolved + {items[0].key} else resolved).1;
      PassKeepsDistinct(tail, if Ready(items[0], resolved) then resolved + {items[0].key} else resolved);
      assert forall i :: 0 <= i < |left| ==> left[i] in tail;
      assert items == [items[0]] + tail;
    }
  }

  // ----- Laws

  /** The service throws exactly when some account without a twin has no ancestor chain, through accounts
      without twins, to a root or to an account that has one already. */
  lemma MirroringSucceedsIffGrounded(b: Books)
    ensures Schedule(b).1 == [] <==> AllGrounded(Missing(b.nas, b.ifrs), Twinned(b.nas, b.ifrs))
  {
    SolveSucceedsIffGrounded(Missing(b.nas, b.ifrs), Twinned(b.nas, b.ifrs));
  }

  /** Accounts without a twin, each below the next, up to a root or to one below an account that has a twin. */
  predicate LeadsToATwin(b: Books, chain: seq<NasAccount>) {
    && chain != []
    && (forall i :: 0 <= i < |chain| ==> chain[i] in b.nas && chain[i].data.code !in b.ifrs)
    && (forall i :: 0 <= i < |chain| - 1 ==> chain[i].parent == Some(chain[i + 1].key))
    && var top := chain[|chain| - 1];
       top.parent.None? ||
         exists p: NasAccount :: p in b.nas && p.key == top.parent.value && p.data.code in b.ifrs
  }

  lemma ChainLeads(b: Books, chain: seq<NasAccount>)
    ensures LeadsToATwin(b, chain) <==> IsChain(Missing(b.nas, b.ifrs), Twinned(b.nas, b.ifrs), chain)
  {
    MissingMembers(b.nas, b.ifrs);
    hide Missing;
    if chain != [] && chain[|chain| - 1].parent.Some? {
      TwinnedMembers(b, chain[|chain| - 1].parent.value);
    }
    hide Twinned;
  }

  lemma TwinnedMembers(b: Books, id: int)
    ensures id in Twinned(b.nas, b.ifrs) <==>
            exists p: NasAccount :: p in b.nas && p.key == id && p.data.code in b.ifrs
  {
    if p: NasAccount :| p in b.nas && p.key == id && p.data.code in b.ifrs {
      var i :| 0 <= i < |b.nas| && b.nas[i] == p;
      assert b.nas[i].key == id;
    }
  }

  lemma {:induction false} MissingMembers(nas: seq<NasAccount>, ifrs: map<string, IfrsAccount>)
    ensures forall n: NasAccount :: n in Missing(nas, ifrs) <==> n in nas && n.data.code !in ifrs
  {
    if nas != [] {
      var init, last := nas[..|nas| - 1], nas[|nas| - 1];
      MissingMembers(init, ifrs);
      assert nas == init + [last];
      assert forall n: NasAccount :: n in nas <==> n in init || n == last;
    }
  }

  /** In particular it throws exactly when some account without a twin has no such chain above it. */
  lemma MirroringSucceedsIff(b: Books)
    ensures Schedule(b).1 == [] <==>
            forall n: NasAccount :: n in b.nas && n.data.code !in b.ifrs ==>
              exists chain: seq<NasAccount> :: LeadsToATwin(b, chain) && chain[0] == n
  {
    MirroringSucceedsIffGrounded(b);
    MissingMembers(b.nas, b.ifrs);
    hide Missing, Twinned, Schedule, Grounded;
    var missing, twinned := Missing(b.nas, b.ifrs), Twinned(b.nas, b.ifrs);
    forall n: NasAccount
      ensures Grounded(missing, twinned, n) <==>
              exists chain: seq<NasAccount> :: LeadsToATwin(b, chain) && chain[0] == n
    {
      SameChains(b, n);
    }
    assert forall i :: 0 <= i < |missing| ==> missing[i] in missing;
  }

  lemma SameChains(b: Books, n: NasAccount)
    ensures Grounded(Missing(b.nas, b.ifrs), Twinned(b.nas, b.ifrs), n) <==>
            exists chain: seq<NasAccount> :: LeadsToATwin(b, chain) && chain[0] == n
  {
    hide Missing, Twinned;
    var missing, twinned := Missing(b.nas, b.ifrs), Twinned(b.nas, b.ifrs);
    if chain: seq<NasAccount> :| LeadsToATwin(b, chain) && chain[0] == n {
      ChainLeads(b, chain);
    }
    if Grounded(missing, twinned, n) {
      var chain: seq<NasAccount> :| IsChain(missing, twinned, chain) && chain[0] == n;
      ChainLeads(b, chain);
    }
  }

  lemma {:induction false} CreatedKeys(b: Books, order: seq<NasAccount>)
    ensures var b' := CreateAll(b, order);
            && b'.nas == b.nas
            && (forall c :: c in b'.ifrs <==> c in b.ifrs || exists i :: 0 <= i < |order| && order[i].data.code == c)
            && (forall c :: c in b.ifrs && (forall i :: 0 <= i < |order| ==> order[i].data.code != c) ==>
              b'.ifrs[c] == b.ifrs[c])
  {
    if order != [] {
      var init := order[..|order| - 1];
      CreatedKeys(b, init);
      assert forall i :: 0 <= i < |init| ==> init[i] == order[i];
    }
  }

  /** The twin carries the account's names and stands below the twin of the account's parent. */
  predicate IsTwin(n: NasAccount, b: Books) {
    && n.data.code in b.ifrs
    && b.ifrs[n.data.code].names == n.data.names && b.ifrs[n.data.code].currency == n.data.currency
    && (if n.parent.None? then b.ifrs[n.data.code].parentId == None
        else
          && TwinId(b.nas, b.ifrs, n.parent.value).Some?
          && b.ifrs[n.data.code].parentId == TwinId(b.nas, b.ifrs, n.parent.value))
  }

  lemma CreateTwinLaws(b: Books, n: NasAccount)
    requires n.data.code !in b.ifrs && (n.parent.Some? ==> TwinId(b.nas, b.ifrs, n.parent.value).Some?)
    ensures IsTwin(n, Create(b, n, ParentTwin(b, n)))
  {
    if n.parent.Some? {
      TwinsKept(b.nas, b.ifrs, n.data.code, Create(b, n, ParentTwin(b, n)).ifrs[n.data.code], n.parent.value);
    }
  }

  lemma CreateKeepsTwin(b: Books, n: NasAccount, other: NasAccount, parentId: Option<nat>)
    requires IsTwin(n, b) && other.data.code !in b.ifrs
    ensures IsTwin(n, Create(b, other, parentId))
  {
    if n.parent.Some? {
      TwinsKept(b.nas, b.ifrs, other.data.code, Create(b, other, parentId).ifrs[other.data.code], n.parent.value);
    }
  }

  /** After a prefix of the schedule, every account resolved so far has a twin. */
  lemma {:induction false} ResolvedHaveTwins(b: Books, order: seq<NasAccount>, id: int)
    requires Distinct(b.nas) && Distinct(order) && forall n: NasAccount :: n in order ==>
             n in b.nas && n.data.code !in b.ifrs
    requires id in Twinned(b.nas, b.ifrs) + Keys(order)
    ensures TwinId(b.nas, CreateAll(b, order).ifrs, id).Some?
  {
    CreatedKeys(b, order);
    if id in Keys(order) {
      var j :| 0 <= j < |order| && order[j].key == id;
      assert order[j] in b.nas;
      var i :| 0 <= i < |b.nas| && b.nas[i] == order[j];
      TwinOfMember(b.nas, CreateAll(b, order).ifrs, i);
    } else {
      var i :| 0 <= i < |b.nas| && b.nas[i].data.code in b.ifrs && b.nas[i].key == id;
      TwinOfMember(b.nas, CreateAll(b, order).ifrs, i);
    }
  }

  /** The order is one the schedule could have, over accounts without twins. */
  predicate IsOrder(b: Books, order: seq<NasAccount>) {
    && Distinct(b.nas) && Distinct(order) && ParentsFirst(order, Twinned(b.nas, b.ifrs))
    && forall n: NasAccount :: n in order ==> n in b.nas && n.data.code !in b.ifrs
  }

  lemma PrefixIsOrder(b: Books, order: seq<NasAccount>)
    requires IsOrder(b, order) && order != []
    ensures IsOrder(b, order[..|order| - 1])
  {
    hide Twinned, Keys;
    var n := |order| - 1;
    var init := order[..n];
    assert forall k :: 0 <= k < n ==> init[k] == order[k] && init[..k] == order[..k];
    assert forall x: NasAccount :: x in init ==> x in order;
  }

  lemma LastIsNew(b: Books, order: seq<NasAccount>)
    requires IsOrder(b, order) && order != []
    ensures order[|order| - 1].data.code !in CreateAll(b, order[..|order| - 1]).ifrs
  {
    hide CreateAll, ParentsFirst;
    var n, init := |order| - 1, order[..|order| - 1];
    assert forall k :: 0 <= k < n ==> init[k] == order[k];
    CreatedKeys(b, init);
    assert order[n] in order;
  }

  lemma LastIsTwin(b: Books, order: seq<NasAccount>)
    requires IsOrder(b, order) && order != []
    ensures IsTwin(order[|order| - 1], CreateAll(b, order))
  {
    hide IsTwin, Create, TwinId, Twinned;
    var n, init := |order| - 1, order[..|order| - 1];
    PrefixIsOrder(b, order);
    LastIsNew(b, order);
    CreatedKeys(b, init);
    assert Ready(order[n], Twinned(b.nas, b.ifrs) + Keys(init));
    if order[n].parent.Some? {
      ResolvedHaveTwins(b, init, order[n].parent.value);
    }
    CreateTwinLaws(CreateAll(b, init), order[n]);
  }

  lemma {:induction false} CreatedAreTwins(b: Books, order: seq<NasAccount>, i: nat)
    requires IsOrder(b, order) && i < |order|
    ensures IsTwin(order[i], CreateAll(b, order))
  {
    hide IsTwin, Create, IsOrder;
    var n := |order| - 1;
    if i < n {
      PrefixIsOrder(b, order);
      LastIsNew(b, order);
      CreatedAreTwins(b, order[..n], i);
      var before := CreateAll(b, order[..n]);
      CreateKeepsTwin(before, order[i], order[n], ParentTwin(before, order[n]));
    } else {
      LastIsTwin(b, order);
    }
  }

  lemma {:induction false} PlacedAreMissing(items: seq<NasAccount>, resolved: set<int>)
    requires Distinct(items)
    ensures Distinct(Solve(items, resolved).0) && forall n: NasAccount :: n in Solve(items, resolved).0 ==> n in items
    decreases |items|
  {
    var placed, stuck := Solve(items, resolved).0, Solve(items, resolved).1;
    SolveLaws(items, resolved);
    forall n: NasAccount | n in placed ensures n in items {
      MemberOfSplit(n, items, placed, stuck);
    }
    forall i, j | 0 <= i < j < |placed|
      ensures placed[i].key != placed[j].key && placed[i].data.code != placed[j].data.code
    {
      if placed[i] == placed[j] {
        assert placed == placed[..j] + [placed[j]] + placed[j + 1..];
        assert placed[..j][i] == placed[j];
        assert multiset(placed)[placed[j]] >= 2;
        OnlyOnce(items, placed[j]);
      } else {
        assert placed[i] in items && placed[j] in items;
      }
    }
  }

  lemma {:induction false} OnlyOnce(items: seq<NasAccount>, n: NasAccount)
    requires Distinct(items)
    ensures multiset(items)[n] <= 1
  {
    if items != [] {
      var k := |items| - 1;
      OnlyOnce(items[..k], n);
      assert items == items[..k] + [items[k]];
      assert forall i :: 0 <= i < k ==> items[..k][i].key != items[k].key;
      assert multiset(items[..k])[items[k]] == 0;
    }
  }

  /** After a successful call every national account has a twin of its code, created twins stand below
      the twins of their parents, existing IFRS accounts are untouched, and a second call creates nothing. */
  lemma MirrorLaws(b: Books)
    requires Distinct(b.nas) && Schedule(b).1 == []
    ensures var b' := Mirror(b);
            && (forall n: NasAccount :: n in b.nas ==> n.data.code in b'.ifrs)
            && (forall n: NasAccount :: n in Missing(b.nas, b.ifrs) ==> IsTwin(n, b'))
            && (forall c :: c in b.ifrs ==> c in b'.ifrs && b'.ifrs[c] == b.ifrs[c])
            && Missing(b'.nas, b'.ifrs) == [] && Mirror(b') == b'
  {
    hide IsTwin, CreateAll, Missing, Twinned;
    var missing, order, b' := Missing(b.nas, b.ifrs), Schedule(b).0, Mirror(b);
    MissingLaws(b.nas, b.ifrs);
    MissingAreCreated(b);
    CreatedKeys(b, order);
    forall n: NasAccount | n in missing ensures IsTwin(n, b') && n.data.code in b'.ifrs {
      var i :| 0 <= i < |order| && order[i] == n;
      CreatedAreTwins(b, order, i);
    }
    forall n: NasAccount | n in b.nas ensures n.data.code in b'.ifrs {
      assert n in missing || n.data.code in b.ifrs;
    }
    NothingMissing(b'.nas, b'.ifrs);
    SecondCall(b');
  }

  /** Ids of IFRS accounts are distinct and below the next fresh id. */
  predicate IdsDistinct(b: Books) {
    && (forall c :: c in b.ifrs ==> b.ifrs[c].id < b.nextId)
    && (forall c, d :: c in b.ifrs && d in b.ifrs && c != d ==> b.ifrs[c].id != b.ifrs[d].id)
  }

  /** The ids of twins are fresh, so a parent id names one account. */
  lemma {:induction false} MirrorKeepsIdsDistinct(b: Books, order: seq<NasAccount>)
    requires IdsDistinct(b)
    ensures IdsDistinct(CreateAll(b, order)) && CreateAll(b, order).nextId == b.nextId + |order|
  {
    if order != [] {
      MirrorKeepsIdsDistinct(b, order[..|order| - 1]);
    }
  }

  lemma SecondCall(b: Books)
    requires Missing(b.nas, b.ifrs) == []
    ensures Mirror(b) == b
  {
  }

  lemma MissingAreCreated(b: Books)
    requires Distinct(b.nas) && Schedule(b).1 == []
    ensures var order := Schedule(b).0;
            && Distinct(order) && ParentsFirst(order, Twinned(b.nas, b.ifrs))
            && forall n: NasAccount :: n in order <==> n in Missing(b.nas, b.ifrs)
  {
    hide Distinct, Missing, Twinned, ParentsFirst;
    var missing, order := Missing(b.nas, b.ifrs), Schedule(b).0;
    MissingLaws(b.nas, b.ifrs);
    SolveLaws(missing, Twinned(b.nas, b.ifrs));
    PlacedAreMissing(missing, Twinned(b.nas, b.ifrs));
    forall n: NasAccount ensures n in order <==> n in missing {
      MemberOfSplit(n, missing, order, []);
    }
  }

  lemma {:induction false} NothingMissing(nas: seq<NasAccount>, ifrs: map<string, IfrsAccount>)
    requires forall n: NasAccount :: n in nas ==> n.data.code in ifrs
    ensures Missing(nas, ifrs) == []
  {
    if nas != [] {
      NothingMissing(nas[..|nas| - 1], ifrs);
    }
  }
}
