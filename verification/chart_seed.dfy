/** Seeding the chart of accounts of an organization from a template: `seedChartOfAccountsForOrganization`
    and `seedOrganizationNasFromTemplateAccounts`, which differ only in where the rows come from and in
    the template id they record. */
module ChartSeed {
  import opened Wrappers
  import opened Hierarchy

  datatype AccountType = ASSET | LIABILITY | EQUITY | REVENUE | EXPENSE

  datatype Names = Names(az: string, ru: string, en: string, accountType: AccountType)

  /** `template` is the id of the template account, for rows that come from `template_accounts`. */
  datatype RowData = RowData(names: Names, template: Option<nat>)

  /** A template row: its code, its parent code (None for a root) and what it sets. */
  type Row = Item<string, RowData>

  datatype Account = Account(id: nat, parentId: Option<nat>, names: Names, chartEntry: Option<nat>,
    template: Option<nat>)

  /** The national accounts of one organization by code, the next fresh id, and the platform catalog. */
  datatype Tables = Tables(accounts: map<string, Account>, nextId: nat, catalog: map<string, nat>)

  function Upsert(t: Tables, row: Row, parentId: Option<nat>): Tables {
    var entry := if row.key in t.catalog then Some(t.catalog[row.key]) else None;
    if row.key in t.accounts then
      var a := t.accounts[row.key];
      t.(accounts := t.accounts[row.key := Account(
           a.id, parentId, row.data.names,
           if entry.Some? then entry else a.chartEntry,
           if row.data.template.Some? then row.data.template else a.template)])
    else
      t.(accounts := t.accounts[row.key := Account(t.nextId, parentId, row.data.names, entry, row.data.template)],
         nextId := t.nextId + 1)
  }

  function ParentId(accounts: map<string, Account>, row: Row): Option<nat> {
    if row.parent.Some? && row.parent.value in accounts then Some(accounts[row.parent.value].id) else None
  }

  /** Rows upserted one after the other, each below its parent's account. */
  function UpsertAll(t: Tables, order: seq<Row>): Tables {
    if order == [] then t
    else
      var before := UpsertAll(t, order[..|order| - 1]);
      Upsert(before, order[|order| - 1], ParentId(before.accounts, order[|order| - 1]))
  }

  function Roots(rows: seq<Row>): seq<Row> {
    if rows == [] then []
    else Roots(rows[..|rows| - 1]) + if rows[|rows| - 1].parent.None? then [rows[|rows| - 1]] else []
  }

  function Children(rows: seq<Row>): seq<Row> {
    if rows == [] then []
    else Children(rows[..|rows| - 1]) + if rows[|rows| - 1].parent.Some? then [rows[|rows| - 1]] else []
  }

  /** The order in which rows are upserted, roots first, and the rows never upserted. */
  function Schedule(rows: seq<Row>): (seq<Row>, seq<Row>) {
    var rest := Solve(Children(rows), Keys(Roots(rows)));
    (Roots(rows) + rest.0, rest.1)
  }

  function Seed(t: Tables, rows: seq<Row>): Tables {
    UpsertAll(t, Schedule(rows).0)
  }

  lemma UpsertAllStep(t: Tables, order: seq<Row>)
    ensures UpsertAll(t, order) ==
            if order == [] then t
            else
              var before := UpsertAll(t, order[..|order| - 1]);
              Upsert(before, order[|order| - 1], ParentId(before.accounts, order[|order| - 1]))
  {
  }

  lemma {:induction false} UpsertAllConcat(t: Tables, xs: seq<Row>, ys: seq<Row>)
    ensures UpsertAll(t, xs + ys) == UpsertAll(UpsertAll(t, xs), ys)
  {
    if ys == [] {
      assert xs + ys == xs;
    } else {
      assert (xs + ys)[..|xs + ys| - 1] == xs + ys[..|ys| - 1];
      UpsertAllConcat(t, xs, ys[..|ys| - 1]);
    }
  }

  lemma {:induction false} RootsAndChildren(rows: seq<Row>)
    ensures multiset(Roots(rows)) + multiset(Children(rows)) == multiset(rows)
    ensures |Children(rows)| <= |rows|
  {
    if rows != [] {
      var init, last := rows[..|rows| - 1], rows[|rows| - 1];
      RootsAndChildren(init);
      assert rows == init + [last];
      assert multiset(rows) == multiset(init) + multiset{last};
      if last.parent.None? {
        assert Roots(rows) == Roots(init) + [last] && Children(rows) == Children(init) + [] == Children(init);
        assert multiset(Roots(rows)) == multiset(Roots(init)) + multiset{last};
      } else {
        assert Children(rows) == Children(init) + [last] && Roots(rows) == Roots(init) + [] == Roots(init);
        assert multiset(Children(rows)) == multiset(Children(init)) + multiset{last};
      }
    }
  }

  lemma {:induction false} RootsHaveNoParent(rows: seq<Row>)
    ensures forall i :: 0 <= i < |Roots(rows)| ==> Roots(rows)[i].parent.None?
    ensures forall i :: 0 <= i < |Children(rows)| ==> Children(rows)[i].parent.Some?
  {
    if rows != [] {
      RootsHaveNoParent(rows[..|rows| - 1]);
    }
  }

  lemma RootsStep(rows: seq<Row>, i: nat)
    requires i <= |rows|
    ensures Roots([]) == []
    ensures i < |rows| ==>
              Roots(rows[..i + 1]) == if rows[i].parent.None? then Roots(rows[..i]) + [rows[i]] else Roots(rows[..i])
  {
    if i < |rows| {
      assert rows[..i + 1][..i] == rows[..i];
      assert Roots(rows[..i]) + [] == Roots(rows[..i]);
    }
  }

  /** The ids recorded for the codes upserted so far are the ids of their accounts. */
  predicate Recorded(ids: map<string, nat>, keys: set<string>, accounts: map<string, Account>) {
    ids.Keys == keys && forall c :: c in ids ==> c in accounts && accounts[c].id == ids[c]
  }

  class ChartSeeder {
    var accounts: map<string, Account>
    var nextId: nat
    const catalog: map<string, nat>

    function State(): Tables
      reads this
    {
      Tables(accounts, nextId, catalog)
    }

    constructor (t: Tables)
      ensures State() == t
    {
      accounts, nextId, catalog := t.accounts, t.nextId, t.catalog;
    }

    method UpsertOne(row: Row, parentId: Option<nat>) returns (id: nat)
      modifies this
      ensures State() == Upsert(old(State()), row, parentId)
      ensures row.key in accounts && id == accounts[row.key].id
      ensures forall c :: c in old(accounts) ==> c in accounts && accounts[c].id == old(accounts)[c].id
    {
      var entry := if row.key in catalog then Some(catalog[row.key]) else None;
      if row.key in accounts {
        var a := accounts[row.key];
        id := a.id;
        a := Account(id, parentId, row.data.names,
                     if entry.Some? then entry else a.chartEntry,
                     if row.data.template.Some? then row.data.template else a.template);
        accounts := accounts[row.key := a];
      } else {
        id := nextId;
        accounts := accounts[row.key := Account(id, parentId, row.data.names, entry, row.data.template)];
        nextId := nextId + 1;
      }
    }

    method UpsertRoots(rows: seq<Row>) returns (ids: map<string, nat>)
      modifies this
      ensures State() == UpsertAll(old(State()), Roots(rows))
      ensures Recorded(ids, Keys(Roots(rows)), accounts)
    {
      hide Roots, UpsertAll, Upsert, Keys;
      ids := map[];
      ghost var start := State();
      RootsStep(rows, 0);
      UpsertAllStep(start, []);
      KeysOfNone<string, RowData>();
      for i := 0 to |rows|
        invariant State() == UpsertAll(start, Roots(rows[..i]))
        invariant Recorded(ids, Keys(Roots(rows[..i])), accounts)
      {
        RootsStep(rows, i);
        if rows[i].parent.None? {
          ghost var roots := Roots(rows[..i]);
          UpsertAllStep(start, roots + [rows[i]]);
          assert (roots + [rows[i]])[..|roots|] == roots;
          KeysOfConcat(roots, [rows[i]]);
          KeysOfOne(rows[i]);
          var id := UpsertOne(rows[i], None);
          ids := ids[rows[i].key := id];
        }
      }
      assert rows[..|rows|] == rows;
    }

    /** One pass over the remaining rows. */
    method OnePass(remaining: seq<Row>, ids: map<string, nat>) returns (next: seq<Row>, ids': map<string, nat>)
      requires Recorded(ids, ids.Keys, accounts)
      modifies this
      ensures var (placed, left) := Pass(remaining, ids.Keys);
              next == left && State() == UpsertAll(old(State()), placed) &&
                Recorded(ids', ids.Keys + Keys(placed), accounts)
    {
      hide Pass, UpsertAll, Upsert, Passing;
      next, ids' := [], ids;
      ghost var placed: seq<Row> := [];
      ghost var start := State();
      PassingEnds([], [], remaining, ids.Keys);
      assert remaining[0..] == remaining && ids.Keys + Keys<string, RowData>([]) == ids.Keys;
      UpsertAllStep(start, []);
      for i := 0 to |remaining|
        invariant State() == UpsertAll(start, placed)
        invariant Recorded(ids', ids.Keys + Keys(placed), accounts)
        invariant Pass(remaining, ids.Keys) == Passing(placed, next, remaining[i..], ids'.Keys)
      {
        var row := remaining[i];
        PassingStep(placed, next, remaining[i..], ids'.Keys);
        assert remaining[i..][1..] == remaining[i + 1..];
        if row.parent.None? || row.parent.value in ids' {
          var parentId := if row.parent.None? then None else Some(ids'[row.parent.value]);
          UpsertAllStep(start, placed + [row]);
          assert (placed + [row])[..|placed|] == placed;
          KeysOfConcat(placed, [row]);
          KeysOfOne(row);
          var id := UpsertOne(row, parentId);
          assert ids'[row.key := id].Keys == ids'.Keys + {row.key};
          ids' := ids'[row.key := id];
          placed := placed + [row];
        } else {
          next := next + [row];
        }
      }
      assert remaining[|remaining|..] == [];
      PassingEnds(placed, next, remaining, ids'.Keys);
    }

    /** Returns the rows that could not be placed; the seeder throws when there are any, and what was
        upserted before stays. The guard counter never ends the loop. */
    method SeedChart(rows: seq<Row>) returns (unresolved: seq<Row>)
      modifies this
      ensures State() == Seed(old(State()), rows)
      ensures unresolved == Schedule(rows).1
    {
      ghost var start := State();
      var ids := UpsertRoots(rows);
      RootsAndChildren(rows);
      var remaining := ChildrenOf(rows);
      var guard := 0;
      ghost var done := Roots(rows);
      while |remaining| > 0 && guard < |rows| + 10
        invariant guard + |remaining| <= |rows|
        invariant Recorded(ids, Keys(done), accounts)
        invariant State() == UpsertAll(start, done)
        invariant Schedule(rows) == (done + Solve(remaining, Keys(done)).0, Solve(remaining, Keys(done)).1)
        decreases |rows| - guard
      {
        guard := guard + 1;
        ghost var placed := Pass(remaining, Keys(done)).0;
        var next;
        next, ids := OnePass(remaining, ids);
        UpsertAllConcat(start, done, placed);
        if |next| == |remaining| {
          assert placed == [] && done + placed == done && done + [] == done;
          return next;
        }
        SolveStep(remaining, Keys(done), done);
        KeysOfConcat(done, placed);
        done := done + placed;
        remaining := next;
      }
      assert done + [] == done;
      return [];
    }

    static method ChildrenOf(rows: seq<Row>) returns (children: seq<Row>)
      ensures children == Children(rows)
    {
      children := [];
      for i := 0 to |rows|
        invariant children == Children(rows[..i])
      {
        assert rows[..i + 1][..i] == rows[..i];
        if rows[i].parent.Some? {
          children := children + [rows[i]];
        }
      }
      assert rows[..|rows|] == rows;
    }
  }

  // ----- Laws

  lemma GroundedOutside(rows: seq<Row>, row: Row)
    requires Grounded(Children(rows), Keys(Roots(rows)), row)
    ensures Grounded(rows, {}, row)
  {
    hide Roots, Children;
    RootsAndChildren(rows);
    RootsHaveNoParent(rows);
    MembersOfSplit(rows, Roots(rows), Children(rows));
    var chain: seq<Row> :| IsChain(Children(rows), Keys(Roots(rows)), chain) && chain[0] == row;
    var last := chain[|chain| - 1];
    assert last in Children(rows);
    var i :| 0 <= i < |Roots(rows)| && Roots(rows)[i].key == last.parent.value;
    assert IsChain(rows, {}, chain + [Roots(rows)[i]]);
  }

  lemma GroundedInside(rows: seq<Row>, row: Row)
    requires row in Children(rows) && Grounded(rows, {}, row)
    ensures Grounded(Children(rows), Keys(Roots(rows)), row)
  {
    hide Roots, Children;
    RootsAndChildren(rows);
    RootsHaveNoParent(rows);
    MembersOfSplit(rows, Roots(rows), Children(rows));
    var chain: seq<Row> :| IsChain(rows, {}, chain) && chain[0] == row;
    var n := |chain| - 1;
    assert chain[n].parent.None? && chain[n] in Roots(rows);
    KeyOfMember(Roots(rows), chain[n]);
    forall i | 0 <= i < n ensures chain[i] in Children(rows) {
      assert chain[i].parent == Some(chain[i + 1].key);
    }
    assert IsChain(Children(rows), Keys(Roots(rows)), chain[..n]);
  }

  /** A row is left unresolved exactly when its parent chain does not reach a root inside the list. */
  lemma UnresolvedRows(rows: seq<Row>, row: Row)
    requires row in rows
    ensures row in Schedule(rows).1 <==> !Grounded(rows, {}, row)
    ensures row in Schedule(rows).0 <==> Grounded(rows, {}, row)
  {
    RootsAndChildren(rows);
    RootsHaveNoParent(rows);
    MembersOfSplit(rows, Roots(rows), Children(rows));
    var (placed, stuck) := Solve(Children(rows), Keys(Roots(rows)));
    SolveLaws(Children(rows), Keys(Roots(rows)));
    MembersOfSplit(Children(rows), placed, stuck);
    if row in Children(rows) {
      SolveDecidesGroundedness(Children(rows), Keys(Roots(rows)), row);
      if Grounded(rows, {}, row) { GroundedInside(rows, row); }
      if Grounded(Children(rows), Keys(Roots(rows)), row) { GroundedOutside(rows, row); }
      assert row !in Roots(rows);
    } else {
      assert IsChain(rows, {}, [row]);
    }
  }

  /** Seeding succeeds if and only if every row's parent chain reaches a root inside the list: no parent
      code is missing from the list, and there is no cycle. */
  lemma SeedingSucceedsIffGrounded(rows: seq<Row>)
    ensures Schedule(rows).1 == [] <==> AllGrounded(rows, {})
  {
    hide Schedule, Grounded;
    var stuck := Schedule(rows).1;
    ScheduleLaws(rows);
    forall i | 0 <= i < |rows| ensures rows[i] in stuck <==> !Grounded(rows, {}, rows[i]) {
      UnresolvedRows(rows, rows[i]);
    }
    if stuck != [] {
      MemberOfSplit(stuck[0], rows, Schedule(rows).0, stuck);
      var i :| 0 <= i < |rows| && rows[i] == stuck[0];
    }
  }

  predicate DistinctKeys(rows: seq<Row>) {
    forall i, j :: 0 <= i < j < |rows| ==> rows[i].key != rows[j].key
  }

  lemma {:induction false} DistinctCounts(rows: seq<Row>, row: Row)
    requires DistinctKeys(rows)
    ensures multiset(rows)[row] <= 1
  {
    if rows != [] {
      var n := |rows| - 1;
      DistinctCounts(rows[..n], row);
      assert rows == rows[..n] + [rows[n]];
      assert forall i :: 0 <= i < n ==> rows[..n][i].key != rows[n].key;
      assert multiset(rows[..n])[rows[n]] == 0;
    }
  }

  lemma DistinctKept(rows: seq<Row>, order: seq<Row>)
    requires DistinctKeys(rows) && multiset(order) <= multiset(rows)
    ensures DistinctKeys(order)
  {
    forall i, j | 0 <= i < j < |order| ensures order[i].key != order[j].key {
      assert order[i] in multiset(order) && order[j] in multiset(order);
      assert order[i] in multiset(rows) && order[j] in multiset(rows);
      if order[i] == order[j] {
        assert order == order[..j] + [order[j]] + order[j + 1..];
        assert order[..j][i] == order[j];
        assert multiset(order)[order[j]] >= 2;
        DistinctCounts(rows, order[j]);
      } else {
        assert order[i] in rows && order[j] in rows;
      }
    }
  }

  lemma ScheduleLaws(rows: seq<Row>)
    ensures multiset(Schedule(rows).0) + multiset(Schedule(rows).1) == multiset(rows)
    ensures ParentsFirst(Schedule(rows).0, {})
  {
    RootsAndChildren(rows);
    RootsHaveNoParent(rows);
    SolveLaws(Children(rows), Keys(Roots(rows)));
    assert {} + Keys(Roots(rows)) == Keys(Roots(rows));
    ParentsFirstConcat(Roots(rows), Solve(Children(rows), Keys(Roots(rows))).0, {});
  }

  /** The account carries what the row says, below the account of the row's parent. */
  predicate Follows(row: Row, accounts: map<string, Account>) {
    && row.key in accounts
    && accounts[row.key].names == row.data.names
    && (row.data.template.Some? ==> accounts[row.key].template == row.data.template)
    && (if row.parent.None? then accounts[row.key].parentId == None
        else row.parent.value in accounts && accounts[row.key].parentId == Some(accounts[row.parent.value].id))
  }

  lemma {:induction false} IdsKept(t: Tables, order: seq<Row>, code: string)
    requires code in t.accounts
    ensures code in UpsertAll(t, order).accounts && UpsertAll(t, order).accounts[code].id == t.accounts[code].id
  {
    if order != [] {
      IdsKept(t, order[..|order| - 1], code);
    }
  }

  lemma {:induction false} UpsertedKeys(t: Tables, order: seq<Row>)
    ensures UpsertAll(t, order).accounts.Keys == t.accounts.Keys + Keys(order)
    ensures forall code :: code in t.accounts && code !in Keys(order) ==>
            UpsertAll(t, order).accounts[code] == t.accounts[code]
    ensures UpsertAll(t, order).catalog == t.catalog
  {
    if order != [] {
      var n := |order| - 1;
      UpsertedKeys(t, order[..n]);
      assert order == order[..n] + [order[n]];
      KeysOfConcat(order[..n], [order[n]]);
      KeysOfOne(order[n]);
    }
  }

  lemma UpsertFollows(t: Tables, row: Row)
    requires row.parent.Some? ==> row.parent.value in t.accounts
    ensures Follows(row, Upsert(t, row, ParentId(t.accounts, row)).accounts)
  {
  }

  lemma UpsertKeepsFollowing(t: Tables, row: Row, other: Row, parentId: Option<nat>)
    requires Follows(row, t.accounts) && other.key != row.key
    ensures Follows(row, Upsert(t, other, parentId).accounts)
  {
  }

  lemma {:induction false} UpsertAllFollows(t: Tables, order: seq<Row>, i: nat)
    requires ParentsFirst(order, {}) && DistinctKeys(order) && i < |order|
    ensures Follows(order[i], UpsertAll(t, order).accounts)
  {
    hide Follows, Upsert;
    var n := |order| - 1;
    var before := UpsertAll(t, order[..n]);
    if i < n {
      assert forall k :: 0 <= k < n ==> order[..n][..k] == order[..k];
      UpsertAllFollows(t, order[..n], i);
      UpsertKeepsFollowing(before, order[i], order[n], ParentId(before.accounts, order[n]));
    } else {
      UpsertedKeys(t, order[..n]);
      assert Ready(order[n], {} + Keys(order[..n]));
      UpsertFollows(before, order[n]);
    }
  }

  /** After a successful seeding, whatever the organization had before, the accounts of the template
      codes form the template's tree with the template's names; existing accounts keep their ids, and
      accounts outside the template are untouched. */
  lemma SeededTreeIsTheTemplate(t: Tables, rows: seq<Row>)
    requires DistinctKeys(rows) && Schedule(rows).1 == []
    ensures var t' := Seed(t, rows);
            && (forall i :: 0 <= i < |rows| ==> Follows(rows[i], t'.accounts))
            && t'.accounts.Keys == t.accounts.Keys + Keys(rows)
            && (forall code :: code in t.accounts ==> t'.accounts[code].id == t.accounts[code].id)
            && (forall code :: code in t.accounts && code !in Keys(rows) ==> t'.accounts[code] == t.accounts[code])
  {
    hide Follows, Upsert, Schedule, ParentsFirst, DistinctKeys, UpsertAll;
    var order, t' := Schedule(rows).0, Seed(t, rows);
    ScheduleLaws(rows);
    DistinctKept(rows, order);
    UpsertedKeys(t, order);
    forall x ensures x in rows <==> x in order { MemberOfSplit(x, rows, order, []); }
    SameKeys(rows, order);
    forall i | 0 <= i < |rows| ensures Follows(rows[i], t'.accounts) {
      assert rows[i] in order;
      var k :| 0 <= k < |order| && order[k] == rows[i];
      UpsertAllFollows(t, order, k);
    }
    forall code | code in t.accounts ensures t'.accounts[code].id == t.accounts[code].id {
      IdsKept(t, order, code);
    }
  }

  /** The links to the two catalogs: those that the seeding has are recorded, and where it has none an account that
      was there keeps its own. */
  predicate Linked(t: Tables, row: Row, accounts: map<string, Account>) {
    && row.key in accounts
    && (row.key in t.catalog ==> accounts[row.key].chartEntry == Some(t.catalog[row.key]))
    && (row.key !in t.catalog && row.key in t.accounts ==>
          accounts[row.key].chartEntry == t.accounts[row.key].chartEntry)
    && (row.data.template.Some? ==> accounts[row.key].template == row.data.template)
    && (row.data.template.None? && row.key in t.accounts ==>
          accounts[row.key].template == t.accounts[row.key].template)
    && (row.key !in t.accounts && row.key !in t.catalog ==> accounts[row.key].chartEntry == None)
    && (row.key !in t.accounts ==> accounts[row.key].template == row.data.template)
  }

  lemma {:induction false} UpsertAllLinks(t: Tables, order: seq<Row>, i: nat)
    requires DistinctKeys(order) && i < |order|
    ensures Linked(t, order[i], UpsertAll(t, order).accounts)
  {
    hide DistinctKeys, UpsertAll;
    var n := |order| - 1;
    var before, row := order[..n], order[n];
    UpsertAllStep(t, order);
    UpsertedKeys(t, before);
    OthersBefore(order);
    if i < n {
      UpsertAllLinks(t, before, i);
    }
  }

  lemma OthersBefore(order: seq<Row>)
    requires DistinctKeys(order) && order != []
    ensures DistinctKeys(order[..|order| - 1]) && order[|order| - 1].key !in Keys(order[..|order| - 1])
    ensures forall i :: 0 <= i < |order| - 1 ==> order[i].key != order[|order| - 1].key
  {
  }

  /** So it is after a seeding, successful or not, for every row that it placed. */
  lemma SeedingLinks(t: Tables, rows: seq<Row>, row: Row)
    requires DistinctKeys(rows) && row in rows && Grounded(rows, {}, row)
    ensures Linked(t, row, Seed(t, rows).accounts) && Follows(row, Seed(t, rows).accounts)
  {
    hide Schedule, Linked, Follows, UpsertAll, Grounded, DistinctKeys, ParentsFirst;
    var order := Schedule(rows).0;
    ScheduleLaws(rows);
    DistinctKept(rows, order);
    UnresolvedRows(rows, row);
    var i :| 0 <= i < |order| && order[i] == row;
    UpsertAllLinks(t, order, i);
    UpsertAllFollows(t, order, i);
  }

  lemma SameKeys(xs: seq<Row>, ys: seq<Row>)
    requires forall x :: x in xs <==> x in ys
    ensures Keys(xs) == Keys(ys)
  {
    forall i | 0 <= i < |xs| ensures xs[i].key in Keys(ys) { KeyOfMember(ys, xs[i]); }
    forall i | 0 <= i < |ys| ensures ys[i].key in Keys(xs) { KeyOfMember(xs, ys[i]); }
  }

  /** Account ids are distinct and below the next fresh id. */
  predicate IdsDistinct(t: Tables) {
    && (forall c :: c in t.accounts ==> t.accounts[c].id < t.nextId)
    && (forall c, d :: c in t.accounts && d in t.accounts && c != d ==> t.accounts[c].id != t.accounts[d].id)
  }

  /** So a parent id names one code: the tree read off the accounts is the template's. */
  lemma {:induction false} SeedingKeepsIdsDistinct(t: Tables, order: seq<Row>)
    requires IdsDistinct(t)
    ensures IdsDistinct(UpsertAll(t, order))
  {
    if order != [] {
      SeedingKeepsIdsDistinct(t, order[..|order| - 1]);
    }
  }
}
