/**
 * The audit log of one organization: every logged mutation stores a hash of its payload together with the
 * hash of the row before it, and a verifier walks the log and names the rows whose hash does not fit.
 *
 * SHA-256 over the payload text is an abstract injective function; the older form of the hash, which does not
 * cover the row before, is another one with other values.
 */
module AuditChain {
  import opened Wrappers

  /** What is hashed: the time of the row, and the text of all other columns that are hashed. */
  datatype Payload = Payload(content: string, createdAt: int)

  /** Only the payload is hashed: the id is given by the database. */
  datatype Row = Row(id: nat, payload: Payload, hash: Option<string>)

  /** `stored` is what the database gives back for what was written: JSON columns are parsed and printed again. */
  datatype Hasher = Hasher(
    chain: (Payload, Option<string>) -> string,
    legacy: Payload -> string,
    stored: string -> string)

  ghost predicate Injective(h: Hasher) {
    && (forall p, q, a, b :: h.chain(p, a) == h.chain(q, b) ==> p == q && a == b)
    && (forall p, q, a :: h.chain(p, a) != h.legacy(q))
    && (forall p, a :: h.chain(p, a) != "")
  }

  predicate Present(hash: Option<string>) {
    hash.Some? && hash.value != ""
  }

  predicate VerifyAuditHash(h: Hasher, p: Payload, prev: Option<string>, hash: Option<string>) {
    Present(hash) && h.chain(p, prev) == hash.value
  }

  predicate VerifyAuditHashLegacy(h: Hasher, p: Payload, hash: Option<string>) {
    Present(hash) && h.legacy(p) == hash.value
  }

  predicate Good(h: Hasher, row: Row, prev: Option<string>) {
    VerifyAuditHash(h, row.payload, prev, row.hash) || VerifyAuditHashLegacy(h, row.payload, row.hash)
  }

  /** A row without a hash is passed over: the row after it is held against the row before it. */
  function Next(prev: Option<string>, row: Row): Option<string> {
    if Present(row.hash) then row.hash else prev
  }

  function Carried(prev: Option<string>, log: seq<Row>): Option<string>
    decreases |log|
  {
    if log == [] then prev else Carried(Next(prev, log[0]), log[1..])
  }

  function Flagged(h: Hasher, prev: Option<string>, log: seq<Row>): seq<nat>
    decreases |log|
  {
    if log == [] then [] else Mark(h, log[0], prev) + Flagged(h, Next(prev, log[0]), log[1..])
  }

  function Mark(h: Hasher, row: Row, prev: Option<string>): seq<nat> {
    if Good(h, row, prev) then [] else [row.id]
  }

  predicate Clean(h: Hasher, log: seq<Row>) {
    Flagged(h, None, log) == []
  }

  predicate Before(a: Row, b: Row) {
    a.payload.createdAt < b.payload.createdAt || (a.payload.createdAt == b.payload.createdAt && a.id < b.id)
  }

  predicate Sorted(log: seq<Row>) {
    forall i, j :: 0 <= i < j < |log| ==> Before(log[i], log[j])
  }

  /** Where a row comes in the order by time and id. */
  function Place(log: seq<Row>, row: Row): (k: nat)
    ensures k <= |log|
    ensures k == |log| <==> log == [] || Before(log[|log| - 1], row)
    ensures k == 0 || Before(log[k - 1], row)
    ensures k == |log| || !Before(log[k], row)
  {
    if log == [] || Before(log[|log| - 1], row) then |log| else Place(log[..|log| - 1], row)
  }

  function Insert(log: seq<Row>, row: Row): seq<Row> {
    var k := Place(log, row);
    log[..k] + [row] + log[k..]
  }

  /** The hash of the newest row, if it has one. */
  function Latest(log: seq<Row>): Option<string> {
    if log == [] then None else log[|log| - 1].hash
  }

  function Written(h: Hasher, id: nat, content: string, createdAt: int, prev: Option<string>): Row {
    Row(id, Payload(h.stored(content), createdAt), Some(h.chain(Payload(content, createdAt), prev)))
  }

  class AuditService {
    const h: Hasher
    var log: seq<Row>

    constructor (h: Hasher)
      ensures this.h == h && log == []
    {
      this.h := h;
      log := [];
    }

    /** The place of a row in the order by time and id. */
    method PlaceOf(row: Row) returns (k: nat)
      ensures k == Place(log, row)
    {
      k := |log|;
      assert log[..k] == log;
      while k > 0 && !Before(log[k - 1], row)
        invariant 0 <= k <= |log|
        invariant Place(log, row) == Place(log[..k], row)
      {
        assert log[..k][..k - 1] == log[..k - 1];
        k := k - 1;
      }
    }

    /** Read the newest row, hash the payload with its hash, store the new row. */
    method PersistAfterMutation(id: nat, content: string, createdAt: int)
      modifies this
      ensures log == Insert(old(log), Written(h, id, content, createdAt, Latest(old(log))))
      ensures FreshId(old(log), id) ==>
                log == Step(h, Step(h, State(old(log), map[]), Look(0)), Write(0, id, content, createdAt)).log
    {
      hide Before, Place;
      var previous := None;
      if |log| > 0 {
        previous := log[|log| - 1].hash;
      }
      var hash := h.chain(Payload(content, createdAt), previous);
      var row := Row(id, Payload(h.stored(content), createdAt), Some(hash));
      var k := PlaceOf(row);
      log := log[..k] + [row] + log[k..];
    }

    method VerifyOrganizationChain() returns (total: nat, compromisedIds: seq<nat>)
      ensures total == |log|
      ensures compromisedIds == Flagged(h, None, log)
      ensures NamesRowsThatFail(h, log, compromisedIds)
    {
      OnlyRowsThatFail(h, log);
      hide NamesRowsThatFail;
      compromisedIds := [];
      var prevHash := None;
      for i := 0 to |log|
        invariant compromisedIds == Flagged(h, None, log[..i])
        invariant prevHash == Carried(None, log[..i])
      {
        assert log[..i + 1] == log[..i] + [log[i]];
        FlaggedAppend(h, None, log[..i], log[i..i + 1]);
        if !Present(log[i].hash) {
          compromisedIds := compromisedIds + [log[i].id];
          continue;
        }
        var chainOk := VerifyAuditHash(h, log[i].payload, prevHash, log[i].hash);
        var legacyOk := VerifyAuditHashLegacy(h, log[i].payload, log[i].hash);
        if !chainOk && !legacyOk {
          compromisedIds := compromisedIds + [log[i].id];
        }
        prevHash := log[i].hash;
      }
      assert log[..|log|] == log;
      total := |log|;
    }
  }

  lemma {:induction false} FlaggedAppend(h: Hasher, prev: Option<string>, a: seq<Row>, b: seq<Row>)
    ensures Flagged(h, prev, a + b) == Flagged(h, prev, a) + Flagged(h, Carried(prev, a), b)
    ensures Carried(prev, a + b) == Carried(Carried(prev, a), b)
    decreases |a|
  {
    hide Mark, Next;
    if a == [] {
      assert a + b == b;
    } else {
      assert (a + b)[0] == a[0] && (a + b)[1..] == a[1..] + b;
      var prev' := Next(prev, a[0]);
      FlaggedAppend(h, prev', a[1..], b);
      assert Flagged(h, prev, a + b) == Mark(h, a[0], prev) + Flagged(h, prev', a[1..] + b);
    }
  }

  predicate HasHash(row: Row) {
    row.hash.Some? && row.hash.value != ""
  }

  /** The hash of the nearest row before the place that has one. */
  predicate IsPrevious(log: seq<Row>, i: nat, prev: Option<string>)
    requires i <= |log|
  {
    if prev.None? then forall j :: 0 <= j < i ==> !HasHash(log[j])
    else exists j :: 0 <= j < i && HasHash(log[j]) && log[j].hash == prev && forall k :: j < k < i ==> !HasHash(log[k])
  }

  /** The row has a hash, and it is the one of its payload chained to that hash, or the older form. */
  ghost predicate Passes(h: Hasher, log: seq<Row>, i: nat)
    requires i < |log|
  {
    && HasHash(log[i])
    && (log[i].hash.value == h.legacy(log[i].payload) ||
        exists prev :: IsPrevious(log, i, prev) && log[i].hash.value == h.chain(log[i].payload, prev))
  }

  lemma {:induction false} CarriedIsPrevious(log: seq<Row>, prev: Option<string>)
    ensures IsPrevious(log, |log|, prev) <==> prev == Carried(None, log)
  {
    if log != [] {
      var n := |log| - 1;
      var init := log[..n];
      CarriedIsPrevious(init, prev);
      CarriedIsPrevious(init, Carried(None, init));
      assert log == init + [log[n]] && forall j :: 0 <= j < n ==> init[j] == log[j];
      CarriedOfLast(init, log[n]);
      if HasHash(log[n]) {
        assert prev.Some? && log[n].hash == prev ==> IsPrevious(log, |log|, prev);
      }
    }
  }

  lemma CarriedOfLast(init: seq<Row>, last: Row)
    ensures Carried(None, init + [last]) == if HasHash(last) then last.hash else Carried(None, init)
  {
    CarriedAppend(None, init, [last]);
    assert [last][1..] == [];
  }

  lemma {:induction false} CarriedAppend(prev: Option<string>, a: seq<Row>, b: seq<Row>)
    ensures Carried(prev, a + b) == Carried(Carried(prev, a), b)
    decreases |a|
  {
    if a == [] {
      assert a + b == b;
    } else {
      assert (a + b)[0] == a[0] && (a + b)[1..] == a[1..] + b;
      CarriedAppend(Next(prev, a[0]), a[1..], b);
    }
  }

  /** The verifier names exactly the rows that do not pass. */
  lemma {:induction false} FlaggedIff(h: Hasher, log: seq<Row>, id: nat)
    ensures id in Flagged(h, None, log) <==> exists i :: 0 <= i < |log| && log[i].id == id && !Passes(h, log, i)
  {
    hide Passes;
    if log != [] {
      var n := |log| - 1;
      var init := log[..n];
      FlaggedIff(h, init, id);
      assert log == init + [log[n]];
      FlaggedAppend(h, None, init, [log[n]]);
      MarkedIff(h, log);
      forall i | 0 <= i < n ensures Passes(h, log, i) == Passes(h, init, i) {
        SamePasses(h, log, n, i);
      }
      assert forall i :: 0 <= i < n ==> init[i] == log[i];
    }
  }

  /** A row whose id no other row has is named exactly when it does not pass. */
  ghost predicate NamesRowsThatFail(h: Hasher, log: seq<Row>, ids: seq<nat>) {
    forall i :: 0 <= i < |log| && FreshId(log[..i] + log[i + 1..], log[i].id) ==>
      (log[i].id in ids <==> !Passes(h, log, i))
  }

  lemma OnlyRowsThatFail(h: Hasher, log: seq<Row>)
    ensures NamesRowsThatFail(h, log, Flagged(h, None, log))
  {
    hide Passes, Flagged;
    forall i | 0 <= i < |log| && FreshId(log[..i] + log[i + 1..], log[i].id)
      ensures log[i].id in Flagged(h, None, log) <==> !Passes(h, log, i)
    {
      FlaggedIff(h, log, log[i].id);
      var others := log[..i] + log[i + 1..];
      forall j | 0 <= j < |log| && j != i ensures log[j].id != log[i].id {
        assert others[if j < i then j else j - 1] == log[j];
      }
    }
  }

  lemma SamePasses(h: Hasher, log: seq<Row>, n: nat, i: nat)
    requires i < n <= |log|
    ensures Passes(h, log, i) == Passes(h, log[..n], i)
  {
    forall prev ensures IsPrevious(log, i, prev) == IsPrevious(log[..n], i, prev) {
      assert forall j :: 0 <= j < i ==> log[..n][j] == log[j];
    }
  }

  lemma MarkedIff(h: Hasher, log: seq<Row>)
    requires log != []
    ensures var n := |log| - 1;
            Flagged(h, Carried(None, log[..n]), [log[n]]) == if Passes(h, log, n) then [] else [log[n].id]
  {
    var n := |log| - 1;
    var init, row := log[..n], log[n];
    assert [row][1..] == [];
    forall prev ensures IsPrevious(log, n, prev) <==> prev == Carried(None, init) {
      CarriedIsPrevious(init, prev);
      assert forall j :: 0 <= j < n ==> init[j] == log[j];
    }
  }

  /** A row that is held against the row right before it and passes. */
  predicate GoodAt(h: Hasher, prev: Option<string>, log: seq<Row>, i: nat)
    requires i < |log|
  {
    Good(h, log[i], if i == 0 then prev else log[i - 1].hash)
  }

  ghost predicate Linked(h: Hasher, prev: Option<string>, log: seq<Row>) {
    forall i :: 0 <= i < |log| ==> GoodAt(h, prev, log, i)
  }

  lemma LinkedHeadTail(h: Hasher, prev: Option<string>, log: seq<Row>)
    requires log != []
    ensures Linked(h, prev, log) <==> Good(h, log[0], prev) && Linked(h, log[0].hash, log[1..])
  {
    if Linked(h, prev, log) {
      assert GoodAt(h, prev, log, 0);
      forall i | 0 <= i < |log[1..]| ensures GoodAt(h, log[0].hash, log[1..], i) {
        assert GoodAt(h, prev, log, i + 1);
      }
    }
    if Good(h, log[0], prev) && Linked(h, log[0].hash, log[1..]) {
      forall i | 0 <= i < |log| ensures GoodAt(h, prev, log, i) {
        if i > 0 {
          assert GoodAt(h, log[0].hash, log[1..], i - 1);
        }
      }
    }
  }

  lemma {:induction false} CleanIsLinked(h: Hasher, prev: Option<string>, log: seq<Row>)
    ensures Flagged(h, prev, log) == [] <==> Linked(h, prev, log)
    decreases |log|
  {
    if log != [] {
      LinkedHeadTail(h, prev, log);
      CleanIsLinked(h, log[0].hash, log[1..]);
    }
  }

  lemma LinkedAppend(h: Hasher, a: seq<Row>, b: seq<Row>)
    ensures Linked(h, None, a + b) <==> Linked(h, None, a) && Linked(h, Latest(a), b)
  {
    hide Good;
    var log := a + b;
    assert forall i :: 0 <= i < |a| ==> GoodAt(h, None, log, i) == GoodAt(h, None, a, i);
    assert forall j {:trigger GoodAt(h, Latest(a), b, j)} :: 0 <= j < |b| ==>
           GoodAt(h, None, log, |a| + j) == GoodAt(h, Latest(a), b, j);
    if Linked(h, None, log) {
      assert forall j :: 0 <= j < |b| ==> GoodAt(h, Latest(a), b, j);
    }
    if Linked(h, None, a) && Linked(h, Latest(a), b) {
      forall i | 0 <= i < |log| ensures GoodAt(h, None, log, i) {
        if i >= |a| {
          assert GoodAt(h, Latest(a), b, i - |a|);
        }
      }
    }
  }

  /** A row put anywhere into a clean log leaves it clean exactly when what the database gives back for it is
      what was hashed, the hash it was chained to is the one of the row right before its place, and no row
      that was chained to that hash comes after it. */
  lemma InsertKeepsClean(h: Hasher, log: seq<Row>, id: nat, content: string, createdAt: int, prev: Option<string>)
    requires Injective(h) && Clean(h, log)
    ensures var row := Written(h, id, content, createdAt, prev);
            var k := Place(log, row);
            Clean(h, Insert(log, row)) <==>
              && h.stored(content) == content
              && prev == (if k == 0 then None else log[k - 1].hash)
              && (k == |log| || VerifyAuditHashLegacy(h, log[k].payload, log[k].hash))
  {
    hide Injective, Clean, Flagged, Good, Linked, Insert, Place, VerifyAuditHashLegacy;
    var row := Written(h, id, content, createdAt, prev);
    var k := Place(log, row);
    CleanIsLinked(h, None, log);
    CleanIsLinked(h, None, Insert(log, row));
    CleanMeansUnflagged(h, log);
    CleanMeansUnflagged(h, Insert(log, row));
    LinkedInsert(h, log, row);
    GoodWritten(h, id, content, createdAt, prev, PrevOf(log, k));
    if k < |log| && prev == PrevOf(log, k) {
      AfterWritten(h, log, k, row, Payload(content, createdAt));
    }
  }

  function PrevOf(log: seq<Row>, k: nat): Option<string>
    requires k <= |log|
  {
    if k == 0 then None else log[k - 1].hash
  }

  lemma CleanMeansUnflagged(h: Hasher, log: seq<Row>)
    ensures Clean(h, log) <==> Flagged(h, None, log) == []
  {
  }

  lemma InsertParts(log: seq<Row>, row: Row)
    ensures var k := Place(log, row);
            log == log[..k] + log[k..] && Insert(log, row) == log[..k] + [row] + log[k..]
  {
  }

  lemma LinkedInsert(h: Hasher, log: seq<Row>, row: Row)
    requires Linked(h, None, log)
    ensures var k := Place(log, row);
            Linked(h, None, Insert(log, row)) <==>
            Good(h, row, PrevOf(log, k)) && (k == |log| || Good(h, log[k], row.hash))
  {
    hide Good, Linked, Place, Insert, Latest;
    var k := Place(log, row);
    InsertParts(log, row);
    LinkedBetween(h, log[..k], row, log[k..]);
    LatestBefore(log, k);
  }

  lemma LatestBefore(log: seq<Row>, k: nat)
    requires k <= |log|
    ensures Latest(log[..k]) == PrevOf(log, k)
  {
  }

  lemma LinkedBetween(h: Hasher, before: seq<Row>, row: Row, after: seq<Row>)
    requires Linked(h, None, before + after)
    ensures Linked(h, None, before + [row] + after) <==>
            Good(h, row, Latest(before)) && (after == [] || Good(h, after[0], row.hash))
  {
    hide Good, Linked;
    LinkedAppend(h, before, after);
    LinkedAppend(h, before + [row], after);
    LinkedAppend(h, before, [row]);
    LinkedOne(h, Latest(before), row);
    if after == [] {
      LinkedNone(h, row.hash);
    } else {
      LinkedHeadTail(h, Latest(before), after);
      LinkedHeadTail(h, row.hash, after);
    }
  }

  /** The row after a written one passes only with the older form of the hash: it is chained to the hash that
      the written row is chained to. */
  lemma AfterWritten(h: Hasher, log: seq<Row>, k: nat, row: Row, p: Payload)
    requires Injective(h) && Linked(h, None, log) && k < |log| && row.hash == Some(h.chain(p, PrevOf(log, k)))
    ensures Good(h, log[k], row.hash) <==> VerifyAuditHashLegacy(h, log[k].payload, log[k].hash)
  {
    assert GoodAt(h, None, log, k);
    if k > 0 {
      NoFixedPoint(h, log, k - 1, p);
    }
    GoodAfterOther(h, log[k], PrevOf(log, k), row.hash);
  }

  lemma LinkedNone(h: Hasher, prev: Option<string>)
    ensures Linked(h, prev, [])
  {
  }

  lemma GoodWritten(h: Hasher, id: nat, content: string, createdAt: int, prev: Option<string>, at: Option<string>)
    requires Injective(h)
    ensures Good(h, Written(h, id, content, createdAt, prev), at) <==> h.stored(content) == content && prev == at
  {
  }

  lemma GoodAfterOther(h: Hasher, row: Row, prev: Option<string>, other: Option<string>)
    requires Injective(h) && Good(h, row, prev) && other != prev
    ensures Good(h, row, other) <==> VerifyAuditHashLegacy(h, row.payload, row.hash)
  {
  }

  lemma LinkedOne(h: Hasher, prev: Option<string>, row: Row)
    ensures Linked(h, prev, [row]) <==> Good(h, row, prev)
  {
    LinkedHeadTail(h, prev, [row]);
  }

  /** No row of a clean log is chained to its own hash: the hash before it would be its own, and so on down
      to the first row. */
  lemma {:induction false} NoFixedPoint(h: Hasher, log: seq<Row>, i: nat, p: Payload)
    requires Injective(h) && Linked(h, None, log) && i < |log|
    ensures log[i].hash.Some? && log[i].hash.value != h.chain(p, log[i].hash)
  {
    assert GoodAt(h, None, log, i);
    if log[i].hash.value == h.chain(p, log[i].hash) && i > 0 {
      NoFixedPoint(h, log, i - 1, p);
    }
  }

  // ----- Tampering

  /** A log none of whose rows carries the older form of the hash. */
  ghost predicate Chained(h: Hasher, log: seq<Row>) {
    forall i :: 0 <= i < |log| ==> !VerifyAuditHashLegacy(h, log[i].payload, log[i].hash)
  }

  /** In a clean chained log no two rows have the same hash: the rows before them would have the same hash too,
      and the first row has none before it. */
  lemma {:induction false} HashesAreDistinct(h: Hasher, log: seq<Row>, i: nat, j: nat)
    requires Injective(h) && Chained(h, log) && Linked(h, None, log) && i < j < |log|
    ensures log[i].hash != log[j].hash
  {
    assert GoodAt(h, None, log, i);
    assert GoodAt(h, None, log, j);
    assert GoodAt(h, None, log, j - 1);
    if log[i].hash == log[j].hash && i > 0 {
      HashesAreDistinct(h, log, i - 1, j - 1);
    }
  }

  ghost predicate SamePayloads(a: seq<Row>, b: seq<Row>) {
    |a| == |b| && forall i :: 0 <= i < |a| ==> a[i].payload == b[i].payload && a[i].hash == b[i].hash
  }

  /** The last hash fixes the whole log: two clean chained logs that end in the same hash have the same number
      of rows, with the same payloads in the same order. */
  lemma {:induction false} LastHashFixesTheLog(h: Hasher, a: seq<Row>, b: seq<Row>)
    requires Injective(h) && Chained(h, a) && Chained(h, b) && Clean(h, a) && Clean(h, b)
    requires Latest(a) == Latest(b)
    ensures SamePayloads(a, b)
    decreases |a|
  {
    hide Injective, Good, Linked, Chained, Flagged;
    CleanIsLinked(h, None, a);
    CleanIsLinked(h, None, b);
    if a != [] { LinkedAt(h, a, |a| - 1); }
    if b != [] { LinkedAt(h, b, |b| - 1); }
    if a != [] && b != [] {
      var m, n := |a| - 1, |b| - 1;
      SameChain(h, a[m].payload, PrevOf(a, m), b[n].payload, PrevOf(b, n));
      ShorterIsClean(h, a);
      ShorterIsClean(h, b);
      if m > 0 { LinkedAt(h, a, m - 1); }
      if n > 0 { LinkedAt(h, b, n - 1); }
      LastHashFixesTheLog(h, a[..m], b[..n]);
    }
  }

  lemma ShorterIsClean(h: Hasher, log: seq<Row>)
    requires log != [] && Chained(h, log) && Linked(h, None, log)
    ensures var shorter := log[..|log| - 1]; Chained(h, shorter) && Linked(h, None, shorter) && Clean(h, shorter)
  {
    var n := |log| - 1;
    assert log == log[..n] + [log[n]];
    LinkedAppend(h, log[..n], [log[n]]);
    CleanIsLinked(h, None, log[..n]);
  }

  lemma {:induction false} CarriedIsLatest(h: Hasher, prev: Option<string>, log: seq<Row>)
    requires Linked(h, prev, log)
    ensures Carried(prev, log) == if log == [] then prev else Latest(log)
    decreases |log|
  {
    if log != [] {
      LinkedHeadTail(h, prev, log);
      CarriedIsLatest(h, log[0].hash, log[1..]);
    }
  }

  /** The parts of a clean log before and after a position. */
  lemma CleanParts(h: Hasher, log: seq<Row>, k: nat)
    requires Linked(h, None, log) && k <= |log|
    ensures Flagged(h, None, log[..k]) == [] && Carried(None, log[..k]) == PrevOf(log, k)
    ensures Flagged(h, PrevOf(log, k), log[k..]) == []
  {
    assert log == log[..k] + log[k..];
    LinkedAppend(h, log[..k], log[k..]);
    CleanIsLinked(h, None, log[..k]);
    CarriedIsLatest(h, None, log[..k]);
    CleanIsLinked(h, PrevOf(log, k), log[k..]);
  }

  /** A changed payload is flagged at the changed row, and only there. */
  lemma ChangeIsFlagged(h: Hasher, log: seq<Row>, k: nat, p: Payload)
    requires Injective(h) && Clean(h, log) && Chained(h, log) && k < |log| && p != log[k].payload
    ensures Flagged(h, None, log[k := log[k].(payload := p)]) == [log[k].id]
  {
    hide Injective, Linked, Chained, Good, Flagged;
    CleanIsLinked(h, None, log);
    CleanParts(h, log, k);
    CleanParts(h, log, k + 1);
    var changed := log[k].(payload := p);
    LinkedAt(h, log, k);
    BadAfter(h, changed, log[k].payload, PrevOf(log, k), PrevOf(log, k));
    FlaggedOnce(h, log[..k], changed, log[k + 1..]);
    assert log[k := changed] == log[..k] + ([changed] + log[k + 1..]);
  }

  /** A row whose hash covers another payload or another hash before it does not pass. */
  lemma BadAfter(h: Hasher, row: Row, p: Payload, prev: Option<string>, at: Option<string>)
    requires Injective(h) && row.hash == Some(h.chain(p, prev)) && (p != row.payload || prev != at)
    ensures !Good(h, row, at) && Present(row.hash)
  {
  }

  lemma FlaggedOnce(h: Hasher, before: seq<Row>, row: Row, after: seq<Row>)
    requires Flagged(h, None, before) == [] && !Good(h, row, Carried(None, before)) && Present(row.hash)
    requires Flagged(h, row.hash, after) == []
    ensures Flagged(h, None, before + ([row] + after)) == [row.id]
  {
    hide Good;
    FlaggedAppend(h, None, before, [row] + after);
    assert ([row] + after)[1..] == after;
  }

  /** Rows taken out are flagged at the first row after the gap, and only there; rows taken off the end are
      not noticed. */
  lemma RemovalFlagsTheNextRow(h: Hasher, log: seq<Row>, from: nat, to: nat)
    requires Injective(h) && Clean(h, log) && Chained(h, log) && from <= to <= |log|
    ensures Flagged(h, None, log[..from] + log[to..]) == if from == to || to == |log| then [] else [log[to].id]
  {
    hide Injective, Linked, Chained, Flagged;
    CleanIsLinked(h, None, log);
    CleanParts(h, log, from);
    if from == to {
      assert log[..from] + log[to..] == log;
    } else if to == |log| {
      assert log[..from] + log[to..] == log[..from];
    } else {
      GapIsFlagged(h, log, from, to);
      assert log[..from] + log[to..] == log[..from] + ([log[to]] + log[to + 1..]);
    }
  }

  lemma GapIsFlagged(h: Hasher, log: seq<Row>, from: nat, to: nat)
    requires Injective(h) && Linked(h, None, log) && Chained(h, log) && from < to < |log|
    ensures Flagged(h, None, log[..from] + ([log[to]] + log[to + 1..])) == [log[to].id]
  {
    hide Injective, Linked, Chained, Flagged, Good;
    CleanParts(h, log, from);
    CleanParts(h, log, to + 1);
    LinkedAt(h, log, to);
    LinkedAt(h, log, to - 1);
    if from > 0 {
      HashesAreDistinct(h, log, from - 1, to - 1);
    }
    BadAfter(h, log[to], log[to].payload, PrevOf(log, to), PrevOf(log, from));
    FlaggedOnce(h, log[..from], log[to], log[to + 1..]);
  }

  // ----- Runs

  /** A mutation is logged in two steps that other requests may come between: the newest row is read, and later
      the new row is stored. A system event is stored without a hash. */
  datatype Event =
    | Look(session: nat)
    | Write(session: nat, id: nat, content: string, createdAt: int)
    | System(id: nat, content: string, createdAt: int)

  datatype State = State(log: seq<Row>, seen: map<nat, Option<string>>)

  predicate FreshId(log: seq<Row>, id: nat) {
    forall i :: 0 <= i < |log| ==> log[i].id != id
  }

  function Step(h: Hasher, s: State, e: Event): State {
    match e
    case Look(session) => s.(seen := s.seen[session := Latest(s.log)])
    case Write(session, id, content, createdAt) =>
      if session in s.seen && FreshId(s.log, id)
      then State(Insert(s.log, Written(h, id, content, createdAt, s.seen[session])), s.seen - {session})
      else s
    case System(id, content, createdAt) =>
      if FreshId(s.log, id) then s.(log := Insert(s.log, Row(id, Payload(h.stored(content), createdAt), None))) else s
  }

  function Run(h: Hasher, events: seq<Event>): State {
    if events == [] then State([], map[])
    else Step(h, Run(h, events[..|events| - 1]), events[|events| - 1])
  }

  /** What the writer sees at the time of the write: nothing was stored since it looked, no stored row is newer,
      and the database gives back what was hashed. */
  predicate InOrder(h: Hasher, s: State, e: Event) {
    match e
    case Look(_) => true
    case Write(session, id, content, createdAt) =>
      session in s.seen && FreshId(s.log, id) ==>
        && h.stored(content) == content
        && s.seen[session] == Latest(s.log)
        && Place(s.log, Row(id, Payload(content, createdAt), None)) == |s.log|
    case System(id, _, _) => !FreshId(s.log, id)
  }

  /** What every request has read, and what every row is chained to, is a hash that is in the log. */
  ghost predicate ReadFromLog(log: seq<Row>, prev: Option<string>) {
    prev.None? || exists x: Row :: x in log && x.hash == prev
  }

  ghost predicate ChainedTo(h: Hasher, log: seq<Row>, row: Row, p: Payload, prev: Option<string>) {
    row.hash == Some(h.chain(p, prev)) && ReadFromLog(log, prev)
  }

  ghost predicate WrittenRow(h: Hasher, log: seq<Row>, row: Row) {
    row.hash.None? || exists p: Payload, prev: Option<string> :: ChainedTo(h, log, row, p, prev)
  }

  ghost predicate Closed(h: Hasher, s: State) {
    && (forall x: Row :: x in s.log ==> WrittenRow(h, s.log, x))
    && (forall k :: k in s.seen ==> ReadFromLog(s.log, s.seen[k]))
  }

  lemma InsertMembers(log: seq<Row>, row: Row)
    ensures forall x: Row :: x in Insert(log, row) <==> x in log || x == row
  {
    var k := Place(log, row);
    assert log == log[..k] + log[k..];
  }

  lemma WrittenInMore(h: Hasher, log: seq<Row>, log': seq<Row>, x: Row)
    requires WrittenRow(h, log, x) && forall y: Row :: y in log ==> y in log'
    ensures WrittenRow(h, log', x)
  {
    if x.hash.Some? {
      var p, prev :| ChainedTo(h, log, x, p, prev);
      assert ChainedTo(h, log', x, p, prev);
    }
  }

  lemma InsertStaysClosed(h: Hasher, s: State, row: Row, seen': map<nat, Option<string>>)
    requires Closed(h, s) && WrittenRow(h, s.log, row) && forall k :: k in seen' ==>
             k in s.seen && seen'[k] == s.seen[k]
    ensures Closed(h, State(Insert(s.log, row), seen'))
  {
    hide Insert;
    var log' := Insert(s.log, row);
    InsertMembers(s.log, row);
    forall x: Row | x in log' ensures WrittenRow(h, log', x) {
      WrittenInMore(h, s.log, log', x);
    }
  }

  lemma {:induction false} RunIsClosed(h: Hasher, events: seq<Event>)
    ensures Closed(h, Run(h, events))
  {
    if events != [] {
      RunIsClosed(h, events[..|events| - 1]);
      StepStaysClosed(h, Run(h, events[..|events| - 1]), events[|events| - 1]);
    }
  }

  lemma StepStaysClosed(h: Hasher, s: State, e: Event)
    requires Closed(h, s)
    ensures Closed(h, Step(h, s, e))
  {
    hide Insert;
    match e
    case Look(session) =>
      assert s.log != [] ==> s.log[|s.log| - 1] in s.log;
    case Write(session, id, content, createdAt) =>
      if session in s.seen && FreshId(s.log, id) {
        var row := Written(h, id, content, createdAt, s.seen[session]);
        assert ChainedTo(h, s.log, row, Payload(content, createdAt), s.seen[session]);
        InsertStaysClosed(h, s, row, s.seen - {session});
      }
    case System(id, content, createdAt) =>
      if FreshId(s.log, id) {
        InsertStaysClosed(h, s, Row(id, Payload(h.stored(content), createdAt), None), s.seen);
      }
  }

  lemma ClosedIsChained(h: Hasher, s: State)
    requires Injective(h) && Closed(h, s)
    ensures Chained(h, s.log)
  {
    forall i | 0 <= i < |s.log| ensures !VerifyAuditHashLegacy(h, s.log[i].payload, s.log[i].hash) {
      assert WrittenRow(h, s.log, s.log[i]);
    }
  }

  /** A row in the middle of a log, none of whose rows is chained to it, leaves the log flagged. */
  lemma MiddleIsFlagged(h: Hasher, s: State, row: Row)
    requires Injective(h) && Closed(h, s) && WrittenRow(h, s.log, row) && Place(s.log, row) < |s.log|
    ensures !Clean(h, Insert(s.log, row))
  {
    hide Injective, Flagged, Good, Linked, Chained, Closed, WrittenRow, Insert;
    var k, log := Place(s.log, row), Insert(s.log, row);
    if Clean(h, log) {
      CleanIsLinked(h, None, log);
      InsertStaysClosed(h, s, row, s.seen);
      ClosedIsChained(h, State(log, s.seen));
      var j := ChainedToNewRow(h, s, row);
      InsertAt(s.log, row, j);
      var i := if j < k then j else j + 1;
      if i < k { HashesAreDistinct(h, log, i, k); } else { HashesAreDistinct(h, log, k, i); }
      assert false;
    }
  }

  lemma InsertAt(log: seq<Row>, row: Row, j: nat)
    requires j < |log|
    ensures |Insert(log, row)| == |log| + 1
    ensures Insert(log, row)[Place(log, row)] == row
    ensures Insert(log, row)[if j < Place(log, row) then j else j + 1] == log[j]
  {
  }

  /** The row after a new row that passes is chained to the hash of the new row, which it had read before. */
  lemma ChainedToNewRow(h: Hasher, s: State, row: Row) returns (j: nat)
    requires Injective(h) && Closed(h, s) && Place(s.log, row) < |s.log|
    requires Linked(h, None, Insert(s.log, row)) && Chained(h, Insert(s.log, row))
    ensures j < |s.log| && s.log[j].hash == row.hash
  {
    hide Injective, Linked, Chained, Insert, Good;
    var k, log := Place(s.log, row), Insert(s.log, row);
    var next := s.log[k];
    InsertAt(s.log, row, k);
    LinkedAt(h, log, k);
    LinkedAt(h, log, k + 1);
    assert next in s.log;
    var p, prev :| ChainedTo(h, s.log, next, p, prev);
    SameChain(h, next.payload, row.hash, p, prev);
    var x: Row :| x in s.log && x.hash == prev;
    j :| 0 <= j < |s.log| && s.log[j] == x;
  }

  lemma SameChain(h: Hasher, p: Payload, a: Option<string>, q: Payload, b: Option<string>)
    requires Injective(h) && h.chain(p, a) == h.chain(q, b)
    ensures p == q && a == b
  {
  }

  /** Every row of a clean chained log has a hash, over its payload and the hash of the row before it. */
  lemma LinkedAt(h: Hasher, log: seq<Row>, i: nat)
    requires Linked(h, None, log) && Chained(h, log) && i < |log|
    ensures log[i].hash == Some(h.chain(log[i].payload, PrevOf(log, i)))
  {
    assert GoodAt(h, None, log, i);
  }

  lemma StepStaysClean(h: Hasher, s: State, e: Event)
    requires Injective(h) && Closed(h, s)
    ensures Clean(h, Step(h, s, e).log) <==> Clean(h, s.log) && InOrder(h, s, e)
  {
    match e
    case Look(_) =>
    case Write(session, id, content, createdAt) =>
      if session in s.seen && FreshId(s.log, id) {
        var row := Written(h, id, content, createdAt, s.seen[session]);
        assert ChainedTo(h, s.log, row, Payload(content, createdAt), s.seen[session]);
        LastIsClean(h, s, row);
      }
    case System(id, content, createdAt) =>
      if FreshId(s.log, id) {
        LastIsClean(h, s, Row(id, Payload(h.stored(content), createdAt), None));
      }
  }

  /** A new row leaves the log clean exactly when the log was clean, it comes last and it passes there. */
  lemma LastIsClean(h: Hasher, s: State, row: Row)
    requires Injective(h) && Closed(h, s) && WrittenRow(h, s.log, row)
    ensures Clean(h, Insert(s.log, row)) <==>
            Clean(h, s.log) && Place(s.log, row) == |s.log| && Good(h, row, Latest(s.log))
  {
    if Place(s.log, row) < |s.log| {
      MiddleIsFlagged(h, s, row);
    } else {
      AppendIsClean(h, s.log, row);
    }
  }

  lemma AppendIsClean(h: Hasher, log: seq<Row>, row: Row)
    requires Place(log, row) == |log|
    ensures Insert(log, row) == log + [row]
    ensures Clean(h, log + [row]) <==> Clean(h, log) && Good(h, row, Latest(log))
  {
    hide Good, Linked, Flagged;
    CleanIsLinked(h, None, log);
    CleanIsLinked(h, None, log + [row]);
    LinkedAppend(h, log, [row]);
    LinkedOne(h, Latest(log), row);
  }

  predicate InOrderAt(h: Hasher, events: seq<Event>, k: nat)
    requires k < |events|
  {
    InOrder(h, Run(h, events[..k]), events[k])
  }

  lemma InOrderBefore(h: Hasher, events: seq<Event>, n: nat, k: nat)
    requires k < n <= |events|
    ensures InOrderAt(h, events[..n], k) == InOrderAt(h, events, k)
  {
    hide Run, InOrder;
    assert events[..n][..k] == events[..k];
  }

  /** The log of a run verifies without a flagged row exactly when every write of the run was in order and no
      system event was stored. A write out of order leaves the log flagged for good. */
  lemma {:induction false} CleanIffEveryWriteInOrder(h: Hasher, events: seq<Event>)
    requires Injective(h)
    ensures Clean(h, Run(h, events).log) <==> forall k :: 0 <= k < |events| ==> InOrderAt(h, events, k)
  {
    hide Injective, Step, InOrder, Clean, Closed;
    if events == [] {
      EmptyIsClean(h);
    } else {
      var n := |events| - 1;
      var before := events[..n];
      CleanIffEveryWriteInOrder(h, before);
      RunIsClosed(h, before);
      StepStaysClean(h, Run(h, before), events[n]);
      hide Run;
      assert InOrderAt(h, events, n) == InOrder(h, Run(h, before), events[n]);
      hide InOrderAt;
      forall k | 0 <= k < n ensures InOrderAt(h, before, k) == InOrderAt(h, events, k) {
        InOrderBefore(h, events, n, k);
      }
    }
  }

  lemma EmptyIsClean(h: Hasher)
    ensures Clean(h, [])
  {
  }

  // ----- The order of the log

  lemma {:induction false} PlaceIsOrdered(log: seq<Row>, row: Row)
    requires Sorted(log) && forall i :: 0 <= i < |log| ==> log[i].id != row.id
    ensures var k := Place(log, row);
            (forall i :: 0 <= i < k ==> Before(log[i], row)) && (forall i :: k <= i < |log| ==> Before(row, log[i]))
  {
  }

  lemma InsertStaysSorted(log: seq<Row>, row: Row)
    requires Sorted(log) && FreshId(log, row.id)
    ensures Sorted(Insert(log, row))
  {
    hide Place, Before;
    PlaceIsOrdered(log, row);
  }

  /** The log is kept in the order of time and id, so the newest row is the last one, as the query has it. */
  lemma {:induction false} RunIsSorted(h: Hasher, events: seq<Event>)
    ensures Sorted(Run(h, events).log)
  {
    if events != [] {
      hide Insert, Sorted;
      var s, e := Run(h, events[..|events| - 1]), events[|events| - 1];
      RunIsSorted(h, events[..|events| - 1]);
      match e
      case Look(_) =>
      case Write(session, id, content, createdAt) =>
        if session in s.seen && FreshId(s.log, id) {
          InsertStaysSorted(s.log, Written(h, id, content, createdAt, s.seen[session]));
        }
      case System(id, content, createdAt) =>
        if FreshId(s.log, id) {
          InsertStaysSorted(s.log, Row(id, Payload(h.stored(content), createdAt), None));
        }
    } else {
      assert Run(h, []) == State([], map[]);
    }
  }

  // ----- One writer at a time

  datatype Mutation = Mutation(id: nat, content: string, createdAt: int)

  function Grow(h: Hasher, ms: seq<Mutation>): seq<Row> {
    if ms == [] then []
    else
      var log, m := Grow(h, ms[..|ms| - 1]), ms[|ms| - 1];
      Insert(log, Written(h, m.id, m.content, m.createdAt, Latest(log)))
  }

  predicate TimesGrow(ms: seq<Mutation>) {
    forall i, j :: 0 <= i < j < |ms| ==> ms[i].createdAt < ms[j].createdAt
  }

  predicate RowOf(row: Row, m: Mutation) {
    row.id == m.id && row.payload.createdAt == m.createdAt
  }

  /** Writes that do not overlap and whose times grow give a log with the rows in the order of the writes. */
  lemma {:induction false} SerialRows(h: Hasher, ms: seq<Mutation>)
    requires TimesGrow(ms)
    ensures |Grow(h, ms)| == |ms| && forall i :: 0 <= i < |ms| ==> RowOf(Grow(h, ms)[i], ms[i])
  {
    if ms != [] {
      var n := |ms| - 1;
      SerialRows(h, ms[..n]);
      SerialPlace(h, ms);
      hide Grow, Insert;
      var log := Grow(h, ms[..n]);
      assert forall i :: 0 <= i < n ==> RowOf(log[i], ms[..n][i]);
    }
  }

  lemma SerialPlace(h: Hasher, ms: seq<Mutation>)
    requires ms != [] && TimesGrow(ms)
    requires var log := Grow(h, ms[..|ms| - 1]);
             |log| == |ms| - 1 && forall i :: 0 <= i < |log| ==> RowOf(log[i], ms[i])
    ensures var m, log := ms[|ms| - 1], Grow(h, ms[..|ms| - 1]);
            var row := Written(h, m.id, m.content, m.createdAt, Latest(log));
            Place(log, row) == |log| && Grow(h, ms) == log + [row]
  {
    hide Clean;
    var m, log := ms[|ms| - 1], Grow(h, ms[..|ms| - 1]);
    var row := Written(h, m.id, m.content, m.createdAt, Latest(log));
    assert log == [] || Before(log[|log| - 1], row);
    AppendIsClean(h, log, row);
  }

  predicate Faithful(h: Hasher, m: Mutation) {
    h.stored(m.content) == m.content
  }

  /** Such a log is clean exactly when the database gives back every content as it was hashed. */
  lemma {:induction false} SerialLogIsClean(h: Hasher, ms: seq<Mutation>)
    requires Injective(h) && TimesGrow(ms)
    ensures Clean(h, Grow(h, ms)) <==> forall i :: 0 <= i < |ms| ==> Faithful(h, ms[i])
  {
    hide Injective, Clean, Good, Place, Insert;
    if ms == [] {
      EmptyIsClean(h);
    } else {
      var n := |ms| - 1;
      var m, before := ms[n], ms[..n];
      SerialRows(h, before);
      SerialPlace(h, ms);
      SerialLogIsClean(h, before);
      hide Grow;
      var log := Grow(h, before);
      var row := Written(h, m.id, m.content, m.createdAt, Latest(log));
      AppendIsClean(h, log, row);
      GoodWritten(h, m.id, m.content, m.createdAt, Latest(log), Latest(log));
    }
  }

  /** Two writes in the same millisecond, the second of which gets the smaller id: both rows are flagged. */
  lemma SameMillisecond(h: Hasher)
    requires Injective(h) && forall c :: h.stored(c) == c
    ensures Flagged(h, None, Grow(h, [Mutation(2, "first", 0), Mutation(1, "second", 0)])) == [1, 2]
  {
    var ms := [Mutation(2, "first", 0), Mutation(1, "second", 0)];
    var first := Written(h, 2, "first", 0, None);
    var second := Written(h, 1, "second", 0, first.hash);
    assert ms[..1] == [ms[0]] && [ms[0]][..0] == [];
    assert Grow(h, [ms[0]]) == [first];
    assert [first][..0] == [];
    assert Place([first], second) == 0;
    assert Grow(h, ms) == [second, first];
    assert [second, first][1..] == [first] && [first][1..] == [];
    hide Injective, Good, Insert, Place, Grow;
    GoodWritten(h, 1, "second", 0, first.hash, None);
    GoodWritten(h, 2, "first", 0, None, second.hash);
    NotEmpty(h, second.payload, first.hash);
    assert Flagged(h, second.hash, [first]) == [2];
  }

  /** The text of the column `changes` as it is hashed, between the other columns. */
  function Hashed(before: string, path: string, body: string, after: string): string {
    before + "{\"path\":" + path + ",\"body\":" + body + "}" + after
  }

  /** The same column read back from jsonb, which orders keys by length and then by bytes. */
  function ReadBack(before: string, path: string, body: string, after: string): string {
    before + "{\"body\":" + body + ",\"path\":" + path + "}" + after
  }

  /** A database that gives `changes` back in this order flags every row that has it, even the only row of a log. */
  lemma ReorderedKeysAreFlagged(h: Hasher, m: Mutation, before: string, path: string, body: string, after: string)
    requires Injective(h) && m.content == Hashed(before, path, body, after)
    requires h.stored(m.content) == ReadBack(before, path, body, after)
    ensures h.stored(m.content) != m.content && Flagged(h, None, Grow(h, [m])) == [m.id]
  {
    var n := |before| + 2;
    assert m.content[n] == 'p' && h.stored(m.content)[n] == 'b';
    var row := Written(h, m.id, m.content, m.createdAt, None);
    assert [m][..0] == [];
    assert Grow(h, [m]) == [row] && [row][1..] == [];
    hide Injective, Good;
    GoodWritten(h, m.id, m.content, m.createdAt, None, None);
  }

  lemma NotEmpty(h: Hasher, p: Payload, prev: Option<string>)
    requires Injective(h)
    ensures Present(Some(h.chain(p, prev)))
  {
  }
}
