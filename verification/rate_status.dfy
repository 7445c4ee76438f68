/**
 * The official rates of the central bank: the rates of a day are preliminary while USD and EUR are those of the
 * day before, and become final once a later document for the day changes them.
 *
 * Dates are day numbers. Values are counted in units of 0.0001 and rates in units of 0.00000001, which is what
 * their columns keep.
 */
module RateStatus {
  import opened Wrappers
  import opened Money

  datatype Status = PRELIMINARY | FINAL

  /** `key` is the code trimmed and in capitals, which is stored; `upper` is in capitals only, which is searched. */
  datatype DocRate = DocRate(key: string, upper: string, value: real, nominal: int, rate: real)

  datatype Doc = Doc(published: Option<int>, rates: seq<DocRate>)

  datatype RateRow = RateRow(value: int, nominal: int, rate: int, status: Status)

  type Table = map<(int, string), RateRow>

  /** Equal to four places; the first is a stored value. */
  predicate EqValue4(stored: int, given: real) {
    stored == HalfUp(given)
  }

  function RowOf(r: DocRate, status: Status): RateRow {
    RateRow(HalfUp(r.value), r.nominal, HalfUp(r.rate), status)
  }

  /** The first rate of a document for a code, as `find` gives it. */
  function Find(rates: seq<DocRate>, code: string): Option<DocRate> {
    if rates == [] then None
    else if rates[0].upper == code then Some(rates[0])
    else Find(rates[1..], code)
  }

  predicate Changed(rows: Table, date: int, rates: seq<DocRate>, code: string) {
    (date, code) in rows && Find(rates, code).Some? &&
      !EqValue4(rows[(date, code)].value, Find(rates, code).value.value)
  }

  predicate StoredMainChanged(rows: Table, date: int, rates: seq<DocRate>) {
    Changed(rows, date, rates, "USD") || Changed(rows, date, rates, "EUR")
  }

  /** A rate of the day before that the document repeats. */
  predicate Repeats(rows: Table, date: int, rates: seq<DocRate>, code: string) {
    (date - 1, code) in rows && Find(rates, code).Some? &&
      EqValue4(rows[(date - 1, code)].value, Find(rates, code).value.value)
  }

  /** `existing` is any row of the date that the database happens to give first. */
  function Resolve(rows: Table, date: int, rates: seq<DocRate>, existing: Option<RateRow>): Status {
    if existing.Some? && existing.value.status == FINAL then FINAL
    else if existing.Some? && StoredMainChanged(rows, date, rates) then FINAL
    else if Repeats(rows, date, rates, "USD") && Repeats(rows, date, rates, "EUR") then PRELIMINARY
    else FINAL
  }

  function Upsert(rows: Table, date: int, rates: seq<DocRate>, status: Status): Table {
    if rates == [] then rows
    else
      var before, r := Upsert(rows, date, rates[..|rates| - 1], status), rates[|rates| - 1];
      if r.key == "" then before else before[(date, r.key) := RowOf(r, status)]
  }

  ghost predicate ValidPick(rows: Table, date: int, pick: Option<string>) {
    if pick.Some? then (date, pick.value) in rows else forall k :: k in rows ==> k.0 != date
  }

  function Existing(rows: Table, date: int, pick: Option<string>): Option<RateRow> {
    if pick.Some? && (date, pick.value) in rows then Some(rows[(date, pick.value)]) else None
  }

  function Persist(rows: Table, doc: Doc, pick: Option<string>): Table {
    if doc.published.None? then rows
    else
      var date := doc.published.value;
      Upsert(rows, date, doc.rates, Resolve(rows, date, doc.rates, Existing(rows, date, pick)))
  }

  ghost predicate Picked(rows: Table, doc: Doc, pick: Option<string>) {
    doc.published.Some? ==> ValidPick(rows, doc.published.value, pick)
  }

  class CbarRateSyncService {
    var rows: Table

    constructor ()
      ensures rows == map[]
    {
      rows := map[];
    }

    method FindRate(rates: seq<DocRate>, code: string) returns (r: Option<DocRate>)
      ensures r == Find(rates, code)
    {
      for i := 0 to |rates|
        invariant Find(rates, code) == Find(rates[i..], code)
      {
        assert rates[i..][1..] == rates[i + 1..];
        if rates[i].upper == code {
          return Some(rates[i]);
        }
      }
      return None;
    }

    method StoredMainChangedVsDoc(date: int, rates: seq<DocRate>) returns (changed: bool)
      ensures changed == StoredMainChanged(rows, date, rates)
    {
      var codes := ["USD", "EUR"];
      for i := 0 to |codes|
        invariant forall j :: 0 <= j < i ==> !Changed(rows, date, rates, codes[j])
      {
        var found := FindRate(rates, codes[i]);
        if (date, codes[i]) in rows && found.Some? && !EqValue4(rows[(date, codes[i])].value, found.value.value) {
          assert Changed(rows, date, rates, codes[i]);
          return true;
        }
      }
      assert !Changed(rows, date, rates, codes[0]) && !Changed(rows, date, rates, codes[1]);
      return false;
    }

    method ResolveStatusForDay(date: int, rates: seq<DocRate>) returns (status: Status)
      ensures exists pick ::
                ValidPick(rows, date, pick) && status == Resolve(rows, date, rates, Existing(rows, date, pick))
    {
      ghost var pick := None;
      var ofDate := set k | k in rows && k.0 == date;
      if ofDate != {} {
        var k :| k in ofDate;
        pick := Some(k.1);
        assert ValidPick(rows, date, pick);
        if rows[k].status == FINAL {
          return FINAL;
        }
        var changed := StoredMainChangedVsDoc(date, rates);
        if changed {
          return FINAL;
        }
      } else {
        assert forall k :: k in rows && k.0 == date ==> k in ofDate;
        assert ValidPick(rows, date, pick);
      }
      var newUsd := FindRate(rates, "USD");
      var newEur := FindRate(rates, "EUR");
      if (date - 1, "USD") !in rows || (date - 1, "EUR") !in rows || newUsd.None? || newEur.None? {
        return FINAL;
      }
      var usdMatch := EqValue4(rows[(date - 1, "USD")].value, newUsd.value.value);
      var eurMatch := EqValue4(rows[(date - 1, "EUR")].value, newEur.value.value);
      return if usdMatch && eurMatch then PRELIMINARY else FINAL;
    }

    method PersistParsedDoc(doc: Doc)
      modifies this
      ensures exists pick :: Picked(old(rows), doc, pick) && rows == Persist(old(rows), doc, pick)
    {
      if doc.published.None? {
        assert Picked(rows, doc, None);
        return;
      }
      var date := doc.published.value;
      var status := ResolveStatusForDay(date, doc.rates);
      ghost var pick :| ValidPick(rows, date, pick) &&
        status == Resolve(rows, date, doc.rates, Existing(rows, date, pick));
      assert Picked(rows, doc, pick);
      for i := 0 to |doc.rates|
        invariant rows == Upsert(old(rows), date, doc.rates[..i], status)
      {
        assert doc.rates[..i + 1][..i] == doc.rates[..i];
        var r := doc.rates[i];
        if r.key == "" {
          continue;
        }
        rows := rows[(date, r.key) := RowOf(r, status)];
      }
      assert doc.rates[..|doc.rates|] == doc.rates;
    }
  }

  // ----- What a document leaves

  /** The last rate of a document for a code, which is the one that stays. */
  function LastOf(rates: seq<DocRate>, key: string): Option<DocRate> {
    if rates == [] then None
    else if rates[|rates| - 1].key == key then Some(rates[|rates| - 1])
    else LastOf(rates[..|rates| - 1], key)
  }

  predicate Writes(date: int, rates: seq<DocRate>, k: (int, string)) {
    k.0 == date && k.1 != "" && LastOf(rates, k.1).Some?
  }

  /** Rows of the date and of a code in the document are overwritten with its last rate for it, all with the same
      status; all other rows stay. */
  lemma {:induction false} UpsertAt(rows: Table, date: int, rates: seq<DocRate>, status: Status, k: (int, string))
    ensures var rows' := Upsert(rows, date, rates, status);
            && (k in rows' <==> k in rows || Writes(date, rates, k))
            && (k in rows' ==>
                  rows'[k] == if Writes(date, rates, k) then RowOf(LastOf(rates, k.1).value, status) else rows[k])
  {
    if rates != [] {
      UpsertAt(rows, date, rates[..|rates| - 1], status, k);
    }
  }

  /** `r` is the first rate of the document for the code. */
  predicate Gives(rates: seq<DocRate>, code: string, r: DocRate) {
    exists i ::
      && 0 <= i < |rates| && rates[i] == r && r.upper == code
      && forall j :: 0 <= j < i ==> rates[j].upper != code
  }

  lemma {:induction false} FindGives(rates: seq<DocRate>, code: string, r: DocRate)
    ensures Find(rates, code) == Some(r) <==> Gives(rates, code, r)
  {
    if rates != [] {
      var tail := rates[1..];
      FindGives(tail, code, r);
      if Gives(rates, code, r) {
        var i :|
          && 0 <= i < |rates| && rates[i] == r && r.upper == code
          && forall j :: 0 <= j < i ==> rates[j].upper != code;
        assert i > 0 ==> tail[i - 1] == r && forall j :: 0 <= j < i - 1 ==> tail[j] == rates[j + 1];
      }
      if rates[0].upper != code && Gives(tail, code, r) {
        var i :| 0 <= i < |tail| && tail[i] == r && forall j :: 0 <= j < i ==> tail[j].upper != code;
        assert rates[i + 1] == r && forall j :: 0 < j < i + 1 ==> rates[j] == tail[j - 1];
      }
    }
  }

  /** The value of the code stored for the date is the one that the document gives, to four places. */
  ghost predicate IsStored(rows: Table, date: int, rates: seq<DocRate>, code: string) {
    exists r :: Gives(rates, code, r) && (date, code) in rows && rows[(date, code)].value == HalfUp(r.value)
  }

  /** The document gives another value than is stored. */
  ghost predicate IsReplaced(rows: Table, date: int, rates: seq<DocRate>, code: string) {
    exists r :: Gives(rates, code, r) && (date, code) in rows && rows[(date, code)].value != HalfUp(r.value)
  }

  lemma StoredOrReplaced(rows: Table, date: int, rates: seq<DocRate>, code: string)
    ensures Repeats(rows, date + 1, rates, code) <==> IsStored(rows, date, rates, code)
    ensures Changed(rows, date, rates, code) <==> IsReplaced(rows, date, rates, code)
  {
    hide Find, Gives, HalfUp;
    forall r ensures Find(rates, code) == Some(r) <==> Gives(rates, code, r) {
      FindGives(rates, code, r);
    }
  }

  /** A date is preliminary exactly when its USD and EUR are those of the day before and, if it has rows already, the
      one that is found is preliminary and the document replaces neither USD nor EUR. */
  lemma PreliminaryIff(rows: Table, date: int, rates: seq<DocRate>, pick: Option<string>)
    requires ValidPick(rows, date, pick)
    ensures Resolve(rows, date, rates, Existing(rows, date, pick)) == PRELIMINARY <==>
            && IsStored(rows, date - 1, rates, "USD") && IsStored(rows, date - 1, rates, "EUR")
            && (pick.Some? ==>
                  && rows[(date, pick.value)].status == PRELIMINARY
                  && !IsReplaced(rows, date, rates, "USD") && !IsReplaced(rows, date, rates, "EUR"))
  {
    StoredOrReplaced(rows, date - 1, rates, "USD");
    StoredOrReplaced(rows, date - 1, rates, "EUR");
    StoredOrReplaced(rows, date, rates, "USD");
    StoredOrReplaced(rows, date, rates, "EUR");
    hide IsStored, IsReplaced, Repeats, Changed;
  }

  /** What a document leaves of each row: the last rate it has for the code, rounded, in the rows of its date; a
      document without a date leaves everything as it was. */
  lemma PersistWrites(rows: Table, doc: Doc, pick: Option<string>, k: (int, string), i: nat)
    requires i < |doc.rates| && doc.rates[i].key == k.1 != ""
    requires forall j :: i < j < |doc.rates| ==> doc.rates[j].key != k.1
    ensures doc.published.None? ==> Persist(rows, doc, pick) == rows
    ensures doc.published == Some(k.0) ==>
              var r, rows' := doc.rates[i], Persist(rows, doc, pick);
              && k in rows' && rows'[k].value == HalfUp(r.value) && rows'[k].nominal == r.nominal
              && rows'[k].rate == HalfUp(r.rate)
              && rows'[k].status == Resolve(rows, k.0, doc.rates, Existing(rows, k.0, pick))
  {
    hide Resolve, HalfUp;
    if doc.published == Some(k.0) {
      LastAt(doc.rates, k.1, i);
      UpsertAt(rows, k.0, doc.rates, Resolve(rows, k.0, doc.rates, Existing(rows, k.0, pick)), k);
    }
  }

  lemma {:induction false} LastAt(rates: seq<DocRate>, key: string, i: nat)
    requires i < |rates| && rates[i].key == key && forall j :: i < j < |rates| ==> rates[j].key != key
    ensures LastOf(rates, key) == Some(rates[i])
  {
    if i < |rates| - 1 {
      LastAt(rates[..|rates| - 1], key, i);
    }
  }

  lemma {:induction false} LastIsThere(rates: seq<DocRate>, key: string)
    ensures LastOf(rates, key).Some? <==> exists i :: 0 <= i < |rates| && rates[i].key == key
  {
    if rates != [] {
      LastIsThere(rates[..|rates| - 1], key);
    }
  }

  /** Rows of other dates, and of codes the document does not have, stay as they were. */
  lemma PersistKeeps(rows: Table, doc: Doc, pick: Option<string>, k: (int, string))
    requires doc.published != Some(k.0) || k.1 == "" || forall i :: 0 <= i < |doc.rates| ==> doc.rates[i].key != k.1
    ensures var rows' := Persist(rows, doc, pick); (k in rows' <==> k in rows) && (k in rows' ==> rows'[k] == rows[k])
  {
    hide Resolve;
    LastIsThere(doc.rates, k.1);
    if doc.published.Some? {
      var date := doc.published.value;
      UpsertAt(rows, date, doc.rates, Resolve(rows, date, doc.rates, Existing(rows, date, pick)), k);
    }
  }

  ghost predicate OneStatus(rows: Table, date: int, status: Status) {
    forall k :: k in rows && k.0 == date ==> rows[k].status == status
  }

  /** The rows of a date share one status. */
  ghost predicate Uniform(rows: Table, date: int) {
    OneStatus(rows, date, PRELIMINARY) || OneStatus(rows, date, FINAL)
  }

  /** Every row of the date is overwritten. */
  ghost predicate Covers(rows: Table, date: int, rates: seq<DocRate>) {
    forall k :: k in rows && k.0 == date ==> Writes(date, rates, k)
  }

  /** After a document, the rows of its date all have the status it resolved to exactly when the rows it does not
      overwrite already had it. */
  lemma StatusAfter(rows: Table, date: int, rates: seq<DocRate>, status: Status)
    ensures OneStatus(Upsert(rows, date, rates, status), date, status) <==>
            forall k :: k in rows && k.0 == date && !Writes(date, rates, k) ==> rows[k].status == status
  {
    var rows' := Upsert(rows, date, rates, status);
    forall k ensures
        && (k in rows' <==> k in rows || Writes(date, rates, k))
        && (k in rows' ==>
              rows'[k] == if Writes(date, rates, k) then RowOf(LastOf(rates, k.1).value, status) else rows[k])
    {
      UpsertAt(rows, date, rates, status, k);
    }
    if OneStatus(rows', date, status) {
      forall k | k in rows && k.0 == date && !Writes(date, rates, k) ensures rows[k].status == status {
        assert k in rows';
      }
    }
  }

  lemma OtherDates(rows: Table, date: int, rates: seq<DocRate>, status: Status, other: int)
    requires other != date
    ensures forall k: (int, string) :: k.0 == other ==> (k in Upsert(rows, date, rates, status) <==> k in rows)
    ensures forall k: (int, string) :: k.0 == other && k in rows ==>
            k in Upsert(rows, date, rates, status) && Upsert(rows, date, rates, status)[k] == rows[k]
  {
    forall k: (int, string) | k.0 == other
      ensures k in Upsert(rows, date, rates, status) <==> k in rows
      ensures k in rows ==> k in Upsert(rows, date, rates, status) && Upsert(rows, date, rates, status)[k] == rows[k]
    {
      UpsertAt(rows, date, rates, status, k);
    }
  }

  // ----- The same document again

  /** Under a code, the rate that is found first is not the one that stays. */
  predicate ContradictsItself(rates: seq<DocRate>, code: string) {
    LastOf(rates, code).Some? && Find(rates, code).Some? &&
      HalfUp(LastOf(rates, code).value.value) != HalfUp(Find(rates, code).value.value)
  }

  /** A document that overwrites all rows of its date, persisted a second time whichever row is found first, changes
      nothing exactly when the date was final or it has no second, other rate for USD or EUR. */
  lemma PersistTwice(rows: Table, doc: Doc, pick: Option<string>, again: Option<string>)
    requires doc.published.Some? && Covers(rows, doc.published.value, doc.rates) && Picked(rows, doc, pick)
    requires Picked(Persist(rows, doc, pick), doc, again)
    ensures var date := doc.published.value;
            var once := Persist(rows, doc, pick);
            Persist(once, doc, again) == once <==>
              || Resolve(rows, date, doc.rates, Existing(rows, date, pick)) == FINAL
              || (!ContradictsItself(doc.rates, "USD") && !ContradictsItself(doc.rates, "EUR"))
  {
    var date, rates := doc.published.value, doc.rates;
    var status := Resolve(rows, date, rates, Existing(rows, date, pick));
    var once := Upsert(rows, date, rates, status);
    StatusAfter(rows, date, rates, status);
    UpsertTwice(rows, date, rates, status);
    OtherDates(rows, date, rates, status, date - 1);
    ChangedAfter(rows, date, rates, status, "USD");
    ChangedAfter(rows, date, rates, status, "EUR");
    if again.None? {
      NothingWritten(rows, date, rates, status);
    } else {
      UpsertAt(rows, date, rates, status, (date, again.value));
      var status' := Resolve(once, date, rates, Existing(once, date, again));
      assert once[(date, again.value)].status == status;
      UpsertAt(once, date, rates, status', (date, again.value));
    }
  }

  /** Any document, persisted a second time, changes nothing exactly when it writes nothing or the second time
      resolves to the same status. */
  lemma PersistAgainIff(rows: Table, doc: Doc, pick: Option<string>, again: Option<string>)
    requires doc.published.Some?
    ensures var date, rates := doc.published.value, doc.rates;
            var once := Persist(rows, doc, pick);
            Persist(once, doc, again) == once <==>
              || (forall k: (int, string) :: !Writes(date, rates, k))
              || Resolve(once, date, rates, Existing(once, date, again)) ==
                Resolve(rows, date, rates, Existing(rows, date, pick))
  {
    hide LastOf, Upsert, Resolve, Existing, Writes;
    var date, rates := doc.published.value, doc.rates;
    var status := Resolve(rows, date, rates, Existing(rows, date, pick));
    var once := Upsert(rows, date, rates, status);
    var status' := Resolve(once, date, rates, Existing(once, date, again));
    var twice := Upsert(once, date, rates, status');
    UpsertTwice(rows, date, rates, status);
    if k: (int, string) :| Writes(date, rates, k) {
      UpsertAt(rows, date, rates, status, k);
      UpsertAt(once, date, rates, status', k);
    } else {
      forall k ensures (k in twice <==> k in once) && (k in twice ==> twice[k] == once[k]) {
        UpsertAt(once, date, rates, status', k);
      }
    }
  }

  lemma UpsertTwice(rows: Table, date: int, rates: seq<DocRate>, status: Status)
    ensures var once := Upsert(rows, date, rates, status); Upsert(once, date, rates, status) == once
  {
    hide Writes, LastOf, Upsert;
    var once := Upsert(rows, date, rates, status);
    var twice := Upsert(once, date, rates, status);
    forall k ensures (k in twice <==> k in once) && (k in twice ==> twice[k] == once[k]) {
      UpsertAt(rows, date, rates, status, k);
      UpsertAt(once, date, rates, status, k);
    }
  }

  lemma ChangedAfter(rows: Table, date: int, rates: seq<DocRate>, status: Status, code: string)
    requires Covers(rows, date, rates) && code != ""
    ensures Changed(Upsert(rows, date, rates, status), date, rates, code) <==> ContradictsItself(rates, code)
  {
    UpsertAt(rows, date, rates, status, (date, code));
  }

  lemma NothingWritten(rows: Table, date: int, rates: seq<DocRate>, status: Status)
    requires forall k :: k in Upsert(rows, date, rates, status) ==> k.0 != date
    ensures forall key :: key != "" ==> LastOf(rates, key).None?
    ensures forall status' ::
              Upsert(Upsert(rows, date, rates, status), date, rates, status') == Upsert(rows, date, rates, status)
  {
    var once := Upsert(rows, date, rates, status);
    forall key | key != "" ensures LastOf(rates, key).None? {
      UpsertAt(rows, date, rates, status, (date, key));
      assert (date, key) !in once;
    }
    forall status' ensures Upsert(once, date, rates, status') == once {
      var twice := Upsert(once, date, rates, status');
      forall k ensures (k in twice <==> k in once) && (k in twice ==> twice[k] == once[k]) {
        UpsertAt(once, date, rates, status', k);
      }
    }
  }

  // ----- Runs

  /** `codes` gives the codes of the documents of each date. */
  ghost predicate HasCodes(doc: Doc, codes: int -> set<string>) {
    doc.published.Some? ==>
      forall c :: c in codes(doc.published.value) <==> c != "" && LastOf(doc.rates, c).Some?
  }

  /** The rows of a date are those of its codes, or none. */
  ghost predicate Complete(rows: Table, date: int, codes: int -> set<string>) {
    (forall c :: (date, c) in rows <==> c in codes(date)) || (forall c :: (date, c) !in rows)
  }

  ghost predicate Tidy(rows: Table, codes: int -> set<string>) {
    forall date: int :: Complete(rows, date, codes) && Uniform(rows, date)
  }

  function Run(rows: Table, docs: seq<Doc>, picks: seq<Option<string>>): Table
    requires |docs| == |picks|
    decreases |docs|
  {
    if docs == [] then rows else Run(Persist(rows, docs[0], picks[0]), docs[1..], picks[1..])
  }

  ghost predicate PickedAll(rows: Table, docs: seq<Doc>, picks: seq<Option<string>>)
    requires |docs| == |picks|
    decreases |docs|
  {
    docs == [] ||
    (Picked(rows, docs[0], picks[0]) && PickedAll(Persist(rows, docs[0], picks[0]), docs[1..], picks[1..]))
  }

  lemma StepIsTidy(rows: Table, doc: Doc, pick: Option<string>, codes: int -> set<string>)
    requires Tidy(rows, codes) && HasCodes(doc, codes)
    ensures Tidy(Persist(rows, doc, pick), codes)
  {
    if doc.published.Some? {
      var date := doc.published.value;
      var status := Resolve(rows, date, doc.rates, Existing(rows, date, pick));
      forall other: int ensures Complete(Persist(rows, doc, pick), other, codes) &&
        Uniform(Persist(rows, doc, pick), other) {
        hide Resolve, Existing;
        if other == date {
          DateIsTidy(rows, date, doc.rates, status, codes);
        } else {
          OtherIsTidy(rows, date, doc.rates, status, codes, other);
        }
      }
    }
  }

  lemma DateIsTidy(rows: Table, date: int, rates: seq<DocRate>, status: Status, codes: int -> set<string>)
    requires Complete(rows, date, codes) && forall c :: c in codes(date) <==> c != "" && LastOf(rates, c).Some?
    ensures Complete(Upsert(rows, date, rates, status), date, codes) &&
            OneStatus(Upsert(rows, date, rates, status), date, status)
  {
    var rows' := Upsert(rows, date, rates, status);
    forall c ensures (date, c) in rows' <==> c in codes(date) {
      UpsertAt(rows, date, rates, status, (date, c));
    }
    forall k | k in rows' && k.0 == date ensures rows'[k].status == status {
      UpsertAt(rows, date, rates, status, k);
      assert (date, k.1) in rows';
    }
  }

  lemma OtherIsTidy(rows: Table, date: int, rates: seq<DocRate>, status: Status, codes: int -> set<string>, other: int)
    requires Complete(rows, other, codes) && Uniform(rows, other) && other != date
    ensures Complete(Upsert(rows, date, rates, status), other, codes) &&
            Uniform(Upsert(rows, date, rates, status), other)
  {
    hide Upsert;
    OtherDates(rows, date, rates, status, other);
    var rows' := Upsert(rows, date, rates, status);
    assert forall c :: (date, c).0 == date && ((other, c) in rows' <==> (other, c) in rows);
  }

  /** In a tidy table it does not matter which row of the date is found, and a final row stays final. */
  lemma PickDoesNotMatter(rows: Table, doc: Doc, pick: Option<string>, other: Option<string>, codes: int -> set<string>)
    requires Tidy(rows, codes) && HasCodes(doc, codes) && Picked(rows, doc, pick) && Picked(rows, doc, other)
    ensures Persist(rows, doc, pick) == Persist(rows, doc, other)
  {
    if doc.published.Some? {
      var date := doc.published.value;
      assert Complete(rows, date, codes) && Uniform(rows, date);
      hide Upsert, LastOf, Find;
      if pick.Some? && other.Some? {
        assert rows[(date, pick.value)].status == rows[(date, other.value)].status;
      }
    }
  }

  lemma FinalStays(rows: Table, doc: Doc, pick: Option<string>, codes: int -> set<string>, k: (int, string))
    requires Tidy(rows, codes) && HasCodes(doc, codes) && Picked(rows, doc, pick) && k in rows &&
             rows[k].status == FINAL
    ensures k in Persist(rows, doc, pick) && Persist(rows, doc, pick)[k].status == FINAL
  {
    if doc.published.Some? {
      var date := doc.published.value;
      assert Complete(rows, date, codes) && Uniform(rows, date);
      var status := Resolve(rows, date, doc.rates, Existing(rows, date, pick));
      UpsertAt(rows, date, doc.rates, status, k);
      if k.0 == date {
        assert pick.Some? && rows[(date, pick.value)].status == FINAL;
      }
    }
  }

  /** As long as all documents of a date have the same codes, in every state that can be reached all rows of a date
      share one status, and the run does not depend on which rows the database finds first. */
  lemma {:induction false} StatusIsShared(
    rows: Table, docs: seq<Doc>, picks: seq<Option<string>>, others: seq<Option<string>>, codes: int -> set<string>)
    requires |docs| == |picks| == |others| && Tidy(rows, codes) && forall i :: 0 <= i < |docs| ==>
             HasCodes(docs[i], codes)
    requires PickedAll(rows, docs, picks) && PickedAll(rows, docs, others)
    ensures Tidy(Run(rows, docs, picks), codes)
    ensures Run(rows, docs, picks) == Run(rows, docs, others)
    decreases |docs|
  {
    hide Tidy, HasCodes, Persist, Picked;
    if docs != [] {
      PickDoesNotMatter(rows, docs[0], picks[0], others[0], codes);
      StepIsTidy(rows, docs[0], picks[0], codes);
      StatusIsShared(Persist(rows, docs[0], picks[0]), docs[1..], picks[1..], others[1..], codes);
    }
  }

  /** And a rate that is final at some time is final ever after. */
  lemma {:induction false} FinalNeverReverts(
    rows: Table, docs: seq<Doc>, picks: seq<Option<string>>, codes: int -> set<string>, k: (int, string))
    requires |docs| == |picks| && Tidy(rows, codes) && forall i :: 0 <= i < |docs| ==> HasCodes(docs[i], codes)
    requires PickedAll(rows, docs, picks) && k in rows && rows[k].status == FINAL
    ensures k in Run(rows, docs, picks) && Run(rows, docs, picks)[k].status == FINAL
    decreases |docs|
  {
    hide Tidy, HasCodes, Persist, Picked;
    if docs != [] {
      FinalStays(rows, docs[0], picks[0], codes, k);
      StepIsTidy(rows, docs[0], picks[0], codes);
      FinalNeverReverts(Persist(rows, docs[0], picks[0]), docs[1..], picks[1..], codes, k);
    }
  }

  lemma EmptyIsTidy(codes: int -> set<string>)
    ensures Tidy(map[], codes)
  {
  }

  /** From the empty table: whatever rows are found first, the documents up to any point leave one status per date,
      and a rate that is final then is final at the end. */
  lemma RatesFromTheStart(
    docs: seq<Doc>, picks: seq<Option<string>>, others: seq<Option<string>>, codes: int -> set<string>,
    n: nat, k: (int, string))
    requires |docs| == |picks| == |others| && n <= |docs| && forall i :: 0 <= i < |docs| ==> HasCodes(docs[i], codes)
    requires PickedAll(map[], docs, picks) && PickedAll(map[], docs, others)
    ensures var some, all := Run(map[], docs[..n], picks[..n]), Run(map[], docs, picks);
            && Uniform(some, k.0) && Uniform(all, k.0) && all == Run(map[], docs, others)
            && (k in some && some[k].status == FINAL ==> k in all && all[k].status == FINAL)
  {
    EmptyIsTidy(codes);
    PicksSplit(map[], docs, picks, n);
    StatusIsShared(map[], docs, picks, others, codes);
    StatusIsShared(map[], docs[..n], picks[..n], picks[..n], codes);
    var some := Run(map[], docs[..n], picks[..n]);
    hide HasCodes, Persist, Picked, Uniform, PickedAll, Run;
    assert Complete(some, k.0, codes) && Uniform(some, k.0);
    if k in some && some[k].status == FINAL {
      FinalNeverReverts(some, docs[n..], picks[n..], codes, k);
    }
  }

  lemma {:induction false} PicksSplit(rows: Table, docs: seq<Doc>, picks: seq<Option<string>>, n: nat)
    requires |docs| == |picks| && n <= |docs| && PickedAll(rows, docs, picks)
    ensures PickedAll(rows, docs[..n], picks[..n])
    ensures PickedAll(Run(rows, docs[..n], picks[..n]), docs[n..], picks[n..])
    ensures Run(rows, docs, picks) == Run(Run(rows, docs[..n], picks[..n]), docs[n..], picks[n..])
    decreases |docs|
  {
    hide Persist, Picked;
    if n == 0 {
      assert docs[0..] == docs && picks[0..] == picks;
    } else {
      PicksSplit(Persist(rows, docs[0], picks[0]), docs[1..], picks[1..], n - 1);
      assert docs[1..][..n - 1] == docs[..n][1..] && picks[1..][..n - 1] == picks[..n][1..];
      assert docs[1..][n - 1..] == docs[n..] && picks[1..][n - 1..] == picks[n..];
    }
  }

  /** Without the same codes the rows of a date come to differ: a later document that changes USD and leaves a code
      out makes its own rows final and leaves the other preliminary. */
  lemma MixedStatus(rows: Table, date: int, usd: real, eur: real, left: string)
    requires left !in {"", "USD", "EUR"} && usd >= 0.0
    requires (date - 1, "USD") in rows && (date - 1, "EUR") in rows && ValidPick(rows, date, None)
    requires EqValue4(rows[(date - 1, "USD")].value, usd) && EqValue4(rows[(date - 1, "EUR")].value, eur)
    ensures var first := Doc(Some(date),
            [DocRate("USD", "USD", usd, 1, usd), DocRate("EUR", "EUR", eur, 1, eur), DocRate(left, left, 1.0, 1, 1.0)]);
            var second := Doc(Some(date),
              [DocRate("USD", "USD", usd + 1.0, 1, usd + 1.0), DocRate("EUR", "EUR", eur, 1, eur)]);
            var rows' := Persist(Persist(rows, first, None), second, Some("USD"));
            Picked(Persist(rows, first, None), second, Some("USD")) && !Uniform(rows', date)
  {
    var first := [DocRate("USD", "USD", usd, 1, usd), DocRate("EUR", "EUR", eur, 1, eur),
      DocRate(left, left, 1.0, 1, 1.0)];
    var second := [DocRate("USD", "USD", usd + 1.0, 1, usd + 1.0), DocRate("EUR", "EUR", eur, 1, eur)];
    assert Find(first, "USD") == Some(first[0]);
    assert first[1..][0] == first[1] && Find(first[1..], "EUR") == Some(first[1]);
    assert Find(first, "EUR") == Some(first[1]);
    assert Resolve(rows, date, first, None) == PRELIMINARY;
    var once := Upsert(rows, date, first, PRELIMINARY);
    assert LastOf(first, left) == Some(first[2]);
    assert first[..2] == [first[0], first[1]] && [first[0], first[1]][..1] == [first[0]];
    assert LastOf([first[0]], "USD") == Some(first[0]);
    assert LastOf(first[..2], "USD") == Some(first[0]);
    UpsertAt(rows, date, first, PRELIMINARY, (date, "USD"));
    UpsertAt(rows, date, first, PRELIMINARY, (date, left));
    assert Find(second, "USD") == Some(second[0]);
    assert Changed(once, date, second, "USD");
    assert second[..1] == [second[0]] && [second[0]][..0] == [];
    assert LastOf([second[0]], "USD") == Some(second[0]) && LastOf([second[0]], left) == None;
    var rows' := Upsert(once, date, second, FINAL);
    UpsertAt(once, date, second, FINAL, (date, "USD"));
    UpsertAt(once, date, second, FINAL, (date, left));
    assert rows'[(date, "USD")].status == FINAL && rows'[(date, left)].status == PRELIMINARY;
  }
}
