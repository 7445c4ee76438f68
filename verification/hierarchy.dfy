/** Placing items after their parents by repeated passes over a work list: the algorithm behind seeding a
    chart of accounts and mirroring it into IFRS. */
module Hierarchy {
  import opened Wrappers

  datatype Item<K, T> = Item(key: K, parent: Option<K>, data: T)

  predicate Ready<K(==), T>(item: Item<K, T>, resolved: set<K>) {
    item.parent.None? || item.parent.value in resolved
  }

  function Keys<K(==), T>(items: seq<Item<K, T>>): set<K> {
    set i | 0 <= i < |items| :: items[i].key
  }

  /** One pass: the items placed, in order, and the items left over. An item placed earlier in the pass counts. */
  function Pass<K(==), T>(items: seq<Item<K, T>>, resolved: set<K>): (r: (seq<Item<K, T>>, seq<Item<K, T>>))
    ensures |r.0| + |r.1| == |items|
  {
    if items == [] then ([], [])
    else if Ready(items[0], resolved) then
      var rest := Pass(items[1..], resolved + {items[0].key});
      ([items[0]] + rest.0, rest.1)
    else
      var rest := Pass(items[1..], resolved);
      (rest.0, [items[0]] + rest.1)
  }

  /** Passes until nothing is left, or until a pass places nothing: the items placed and the items stuck. */
  function Solve<K(==), T>(items: seq<Item<K, T>>, resolved: set<K>): (seq<Item<K, T>>, seq<Item<K, T>>)
    decreases |items|
  {
    if items == [] then ([], [])
    else
      var (placed, next) := Pass(items, resolved);
      if |next| == |items| then ([], next)
      else
        var rest := Solve(next, resolved + Keys(placed));
        (placed + rest.0, rest.1)
  }

  /** Each item follows the next one's key as its parent, up to a root or an item below a resolved key. */
  predicate IsChain<K(==), T(==)>(items: seq<Item<K, T>>, resolved: set<K>, chain: seq<Item<K, T>>) {
    && chain != []
    && (forall i :: 0 <= i < |chain| ==> chain[i] in items)
    && (forall i :: 0 <= i < |chain| - 1 ==> chain[i].parent == Some(chain[i + 1].key))
    && Ready(chain[|chain| - 1], resolved)
  }

  /** The parent chain of an item reaches a root, or a key resolved beforehand. */
  ghost predicate Grounded<K(!new), T(!new)>(items: seq<Item<K, T>>, resolved: set<K>, item: Item<K, T>) {
    exists chain: seq<Item<K, T>> :: IsChain(items, resolved, chain) && chain[0] == item
  }

  ghost predicate AllGrounded<K(!new), T(!new)>(items: seq<Item<K, T>>, resolved: set<K>) {
    forall i :: 0 <= i < |items| ==> Grounded(items, resolved, items[i])
  }

  /** Every item follows a root, a resolved key or an item placed before it. */
  predicate ParentsFirst<K(==), T>(placed: seq<Item<K, T>>, resolved: set<K>) {
    forall i :: 0 <= i < |placed| ==> Ready(placed[i], resolved + Keys(placed[..i]))
  }

  lemma KeysOfConcat<K, T>(xs: seq<Item<K, T>>, ys: seq<Item<K, T>>)
    ensures Keys(xs + ys) == Keys(xs) + Keys(ys)
  {
    assert forall i :: 0 <= i < |xs| ==> (xs + ys)[i] == xs[i];
    assert forall i :: 0 <= i < |ys| ==> (xs + ys)[|xs| + i] == ys[i];
  }

  lemma KeysOfOne<K, T>(item: Item<K, T>)
    ensures Keys([item]) == {item.key} && Keys<K, T>([]) == {}
  {
    assert [item][0] == item;
  }

  lemma KeysOfNone<K, T>()
    ensures Keys<K, T>([]) == {}
  {
  }

  lemma ParentsFirstConcat<K, T>(xs: seq<Item<K, T>>, ys: seq<Item<K, T>>, resolved: set<K>)
    requires ParentsFirst(xs, resolved) && ParentsFirst(ys, resolved + Keys(xs))
    ensures ParentsFirst(xs + ys, resolved)
  {
    var zs := xs + ys;
    forall i | 0 <= i < |zs| ensures Ready(zs[i], resolved + Keys(zs[..i])) {
      if i < |xs| {
        assert zs[..i] == xs[..i];
      } else {
        assert zs[..i] == xs + ys[..i - |xs|];
        KeysOfConcat(xs, ys[..i - |xs|]);
      }
    }
  }

  /** A pass in progress: `placed` and `next` so far, `items` to come. */
  function Passing<K(==), T>(
    placed: seq<Item<K, T>>, next: seq<Item<K, T>>, items: seq<Item<K, T>>, resolved: set<K>
  ): (seq<Item<K, T>>, seq<Item<K, T>>) {
    (placed + Pass(items, resolved).0, next + Pass(items, resolved).1)
  }

  lemma PassingStep<K, T>(placed: seq<Item<K, T>>, next: seq<Item<K, T>>, items: seq<Item<K, T>>, resolved: set<K>)
    requires items != []
    ensures Passing(placed, next, items, resolved) ==
            if Ready(items[0], resolved) then Passing(placed + [items[0]], next, items[1..], resolved + {items[0].key})
            else Passing(placed, next + [items[0]], items[1..], resolved)
  {
    var after := Pass(items[1..], if Ready(items[0], resolved) then resolved + {items[0].key} else resolved);
    assert placed + ([items[0]] + after.0) == placed + [items[0]] + after.0;
    assert next + ([items[0]] + after.1) == next + [items[0]] + after.1;
  }

  lemma PassingEnds<K, T>(placed: seq<Item<K, T>>, next: seq<Item<K, T>>, items: seq<Item<K, T>>, resolved: set<K>)
    ensures Passing([], [], items, resolved) == Pass(items, resolved)
    ensures Passing(placed, next, [], resolved) == (placed, next)
  {
    assert [] + Pass(items, resolved).0 == Pass(items, resolved).0 &&
           [] + Pass(items, resolved).1 == Pass(items, resolved).1;
    assert placed + [] == placed && next + [] == next;
  }

  lemma {:induction false} PassLaws<K, T>(items: seq<Item<K, T>>, resolved: set<K>)
    ensures var (placed, next) := Pass(items, resolved);
            && multiset(placed) + multiset(next) == multiset(items)
            && ParentsFirst(placed, resolved)
            && (placed == [] ==> next == items && forall i :: 0 <= i < |next| ==> !Ready(next[i], resolved))
  {
    if items != [] {
      var head, tail := items[0], items[1..];
      assert items == [head] + tail;
      if Ready(head, resolved) {
        var (placed, next) := Pass(tail, resolved + {head.key});
        PassLaws(tail, resolved + {head.key});
        assert Keys([head]) == {head.key} && [head][..0] == [] && Keys<K, T>([]) == {};
        ParentsFirstConcat([head], placed, resolved);
      } else {
        PassLaws(tail, resolved);
      }
    }
  }

  /** Nothing is lost or duplicated, and parents come first. */
  lemma {:induction false} SolveLaws<K, T>(items: seq<Item<K, T>>, resolved: set<K>)
    ensures var (placed, stuck) := Solve(items, resolved);
            && multiset(placed) + multiset(stuck) == multiset(items)
            && ParentsFirst(placed, resolved)
            && forall i :: 0 <= i < |stuck| ==> !Ready(stuck[i], resolved + Keys(placed))
    decreases |items|
  {
    if items != [] {
      var (placed, next) := Pass(items, resolved);
      PassLaws(items, resolved);
      if |next| < |items| {
        var rest := Solve(next, resolved + Keys(placed));
        SolveLaws(next, resolved + Keys(placed));
        ParentsFirstConcat(placed, rest.0, resolved);
        KeysOfConcat(placed, rest.0);
        assert resolved + Keys(placed + rest.0) == resolved + Keys(placed) + Keys(rest.0);
      }
    }
  }

  lemma ExtendChain<K(!new), T(!new)>(items: seq<Item<K, T>>, resolved: set<K>, item: Item<K, T>, parent: Item<K, T>)
    requires item in items && item.parent == Some(parent.key) && Grounded(items, resolved, parent)
    ensures Grounded(items, resolved, item)
  {
    var chain: seq<Item<K, T>> :| IsChain(items, resolved, chain) && chain[0] == parent;
    var longer := [item] + chain;
    assert forall i :: 1 <= i < |longer| ==> longer[i] == chain[i - 1];
    assert IsChain(items, resolved, longer);
  }

  lemma {:induction false} PlacedIsGrounded<K(!new), T(!new)>(
    items: seq<Item<K, T>>, resolved: set<K>, placed: seq<Item<K, T>>, i: nat)
    requires ParentsFirst(placed, resolved) && i < |placed|
    requires forall j :: 0 <= j < |placed| ==> placed[j] in items
    ensures Grounded(items, resolved, placed[i])
  {
    if Ready(placed[i], resolved) {
      assert IsChain(items, resolved, [placed[i]]);
    } else {
      var j :| 0 <= j < i && placed[..i][j].key == placed[i].parent.value;
      PlacedIsGrounded(items, resolved, placed, j);
      ExtendChain(items, resolved, placed[i], placed[j]);
    }
  }

  /** A chain that starts outside the placed items stays outside and cannot end. */
  lemma {:induction false} StuckHasNoChain<K, T>(
    items: seq<Item<K, T>>, resolved: set<K>, placed: seq<Item<K, T>>, stuck: seq<Item<K, T>>, chain: seq<Item<K, T>>)
    requires forall i :: 0 <= i < |items| ==> items[i] in placed || items[i] in stuck
    requires forall i :: 0 <= i < |stuck| ==> !Ready(stuck[i], resolved + Keys(placed))
    requires IsChain(items, resolved, chain) && chain[0] in stuck
    ensures false
    decreases |chain|
  {
    if |chain| > 1 {
      var parent := chain[1];
      KeyOfMember(placed, parent);
      assert forall i :: 0 <= i < |chain[1..]| ==> chain[1..][i] == chain[i + 1];
      StuckHasNoChain(items, resolved, placed, stuck, chain[1..]);
    }
  }

  lemma KeyOfMember<K, T>(items: seq<Item<K, T>>, item: Item<K, T>)
    ensures item in items ==> item.key in Keys(items)
  {
    if item in items {
      var i :| 0 <= i < |items| && items[i] == item;
    }
  }

  /** The passes place exactly the items whose parent chain reaches a root or a resolved key; the items
      stuck are exactly those with a dangling or a cyclic chain. */
  lemma SolveDecidesGroundedness<K(!new), T(!new)>(items: seq<Item<K, T>>, resolved: set<K>, item: Item<K, T>)
    requires item in items
    ensures var (placed, stuck) := Solve(items, resolved);
            (item in placed <==> Grounded(items, resolved, item)) &&
              (item in stuck <==> !Grounded(items, resolved, item))
  {
    var (placed, stuck) := Solve(items, resolved);
    SolveLaws(items, resolved);
    MembersOfSplit(items, placed, stuck);
    if item in placed {
      var i :| 0 <= i < |placed| && placed[i] == item;
      PlacedIsGrounded(items, resolved, placed, i);
    }
    if item in stuck && Grounded(items, resolved, item) {
      var chain: seq<Item<K, T>> :| IsChain(items, resolved, chain) && chain[0] == item;
      StuckHasNoChain(items, resolved, placed, stuck, chain);
    }
  }

  lemma MembersOfSplit<X>(xs: seq<X>, ys: seq<X>, zs: seq<X>)
    requires multiset(ys) + multiset(zs) == multiset(xs)
    ensures forall x :: x in xs <==> x in ys || x in zs
  {
    forall x ensures x in xs <==> x in ys || x in zs {
      assert x in xs <==> x in multiset(xs);
      assert x in ys <==> x in multiset(ys);
      assert x in zs <==> x in multiset(zs);
    }
  }

  lemma MemberOfSplit<X>(x: X, xs: seq<X>, ys: seq<X>, zs: seq<X>)
    requires multiset(ys) + multiset(zs) == multiset(xs)
    ensures x in xs <==> x in ys || x in zs
  {
    MembersOfSplit(xs, ys, zs);
  }

  /** All items are placed if and only if every parent chain is grounded. */
  lemma SolveSucceedsIffGrounded<K(!new), T(!new)>(items: seq<Item<K, T>>, resolved: set<K>)
    ensures Solve(items, resolved).1 == [] <==> AllGrounded(items, resolved)
  {
    var (placed, stuck) := Solve(items, resolved);
    SolveLaws(items, resolved);
    MembersOfSplit(items, placed, stuck);
    forall i | 0 <= i < |items| ensures items[i] in stuck <==> !Grounded(items, resolved, items[i]) {
      SolveDecidesGroundedness(items, resolved, items[i]);
    }
    if stuck != [] {
      assert stuck[0] in items;
      var i :| 0 <= i < |items| && items[i] == stuck[0];
    }
  }

  /** One pass does one round of `Solve`; the number of passes never exceeds the number of items, so a
      guard counter that allows more passes than there are items is never what ends the loop. */
  lemma SolveStep<K, T>(items: seq<Item<K, T>>, resolved: set<K>, done: seq<Item<K, T>>)
    requires items != [] && |Pass(items, resolved).1| < |items|
    ensures var (placed, next) := Pass(items, resolved);
            (done + Solve(items, resolved).0, Solve(items, resolved).1) ==
            (done + placed + Solve(next, resolved + Keys(placed)).0, Solve(next, resolved + Keys(placed)).1)
  {
    var (placed, next) := Pass(items, resolved);
    assert done + (placed + Solve(next, resolved + Keys(placed)).0) ==
           done + placed + Solve(next, resolved + Keys(placed)).0;
  }
}
