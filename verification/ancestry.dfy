/** Following parent codes upwards in a chart: the ancestor closure of the small-business chart
    (`getNasSmallBusinessAccounts`) and the import of one template account with its parents
    (`importNasAccountFromTemplate`). */
module Ancestry {
  import opened Wrappers

  /** The parent code of every code of the chart. */
  type Chart = map<string, Option<string>>

  /** Each code is followed by its parent. */
  predicate IsLine(chart: Chart, line: seq<string>) {
    && line != []
    && (forall i :: 0 <= i < |line| ==> line[i] in chart)
    && (forall i :: 0 <= i < |line| - 1 ==> chart[line[i]] == Some(line[i + 1]))
  }

  predicate EndsAtRoot(chart: Chart, line: seq<string>) {
    line != [] && line[|line| - 1] in chart && chart[line[|line| - 1]] == None
  }

  predicate EndsOutside(chart: Chart, line: seq<string>) {
    line != [] && line[|line| - 1] in chart && chart[line[|line| - 1]].Some? && chart[line[|line| - 1]].value !in chart
  }

  /** The whole line of a code: up to a root, or to a parent that is not in the chart. A chart with a cycle has
      codes without one. */
  predicate IsWhole(chart: Chart, line: seq<string>) {
    IsLine(chart, line) && (EndsAtRoot(chart, line) || EndsOutside(chart, line))
  }

  lemma TailIsWhole(chart: Chart, line: seq<string>)
    requires IsWhole(chart, line) && |line| > 1
    ensures IsWhole(chart, line[1..]) && chart[line[0]] == Some(line[1..][0])
  {
    var tail := line[1..];
    assert forall i :: 0 <= i < |tail| ==> tail[i] == line[i + 1];
  }

  /** There is only one whole line of a code, and every line of the code is a part of it. */
  lemma {:induction false} LineIsUnique(chart: Chart, line: seq<string>, part: seq<string>)
    requires IsWhole(chart, line) && IsLine(chart, part) && line[0] == part[0]
    ensures |part| <= |line| && part == line[..|part|]
    ensures IsWhole(chart, part) ==> part == line
  {
    assert |part| > 1 ==> chart[part[0]] == Some(part[1]) && part[1] in chart;
    assert |line| > 1 ==> chart[line[0]] == Some(line[1]) && line[1] in chart;
    if |part| > 1 {
      TailIsWhole(chart, line);
      assert IsLine(chart, part[1..]) by {
        assert forall i :: 0 <= i < |part[1..]| ==> part[1..][i] == part[i + 1];
      }
      LineIsUnique(chart, line[1..], part[1..]);
      assert part == [part[0]] + part[1..] && line == [line[0]] + line[1..];
      if IsWhole(chart, part) { TailIsWhole(chart, part); }
    }
  }

  // ----- The ancestor closure

  /** Parents before children, each once. */
  predicate Closed(chart: Chart, out: seq<string>) {
    && (forall i, j :: 0 <= i < j < |out| ==> out[i] != out[j])
    && (forall i :: 0 <= i < |out| ==> out[i] in chart)
    && (forall i :: 0 <= i < |out| && chart[out[i]].Some? && chart[out[i]].value in chart ==>
      chart[out[i]].value in out[..i])
  }

  function Add(out: seq<string>, line: seq<string>): seq<string> {
    if line == [] || line[0] in out then out else Add(out, line[1..]) + [line[0]]
  }

  class Collector {
    const byCode: Chart
    var out: seq<string>

    constructor (chart: Chart)
      ensures byCode == chart && out == []
    {
      byCode := chart;
      out := [];
    }

    /** The recursion ends because the line of the code does. */
    method AddWithAncestors(code: Option<string>, ghost line: seq<string>)
      requires if code.Some? && code.value in byCode then IsWhole(byCode, line) && line[0] == code.value else line == []
      modifies this`out
      ensures out == Add(old(out), line)
      decreases |line|
    {
      if code.None? || code.value in out || code.value !in byCode {
        return;
      }
      if |line| > 1 {
        TailIsWhole(byCode, line);
      }
      AddWithAncestors(byCode[code.value], line[1..]);
      out := out + [code.value];
    }

    method GetNasSmallBusinessAccounts(want: seq<string>, ghost lines: map<string, seq<string>>)
      requires out == [] && HasLines(byCode, want, lines)
      modifies this`out
      ensures out == Closure(byCode, want, lines)
    {
      for i := 0 to |want|
        invariant out == Closure(byCode, want[..i], lines)
      {
        assert want[..i + 1][..i] == want[..i];
        AddWithAncestors(Some(want[i]), LineOf(byCode, lines, want[i]));
      }
      assert want[..|want|] == want;
    }
  }

  /** No wanted code is on a cycle of the chart or below one. */
  ghost predicate HasLines(chart: Chart, want: seq<string>, lines: map<string, seq<string>>) {
    forall i :: 0 <= i < |want| ==> HasLine(chart, want[i], lines)
  }

  ghost predicate HasLine(chart: Chart, code: string, lines: map<string, seq<string>>) {
    code in chart ==> code in lines && IsWhole(chart, lines[code]) && lines[code][0] == code
  }

  ghost function LineOf(chart: Chart, lines: map<string, seq<string>>, code: string): seq<string>
    requires HasLine(chart, code, lines)
  {
    if code in chart then lines[code] else []
  }

  ghost function Closure(chart: Chart, want: seq<string>, lines: map<string, seq<string>>): seq<string>
    requires HasLines(chart, want, lines)
  {
    if want == [] then []
    else Add(Closure(chart, want[..|want| - 1], lines), LineOf(chart, lines, want[|want| - 1]))
  }

  lemma {:induction false} LineIsInside(chart: Chart, out: seq<string>, line: seq<string>)
    requires Closed(chart, out) && IsWhole(chart, line) && line[0] in out
    ensures forall c :: c in line ==> c in out
  {
    if |line| > 1 {
      TailIsWhole(chart, line);
      var i :| 0 <= i < |out| && out[i] == line[0];
      assert line[1..][0] in out[..i];
      LineIsInside(chart, out, line[1..]);
      assert line == [line[0]] + line[1..];
    }
  }

  lemma {:induction false} AddLaws(chart: Chart, out: seq<string>, line: seq<string>)
    requires Closed(chart, out) && IsWhole(chart, line)
    ensures Closed(chart, Add(out, line))
    ensures forall c :: c in Add(out, line) <==> c in out || c in line
  {
    if line[0] in out {
      LineIsInside(chart, out, line);
    } else if |line| == 1 {
      assert line[1..] == [] && Add(out, line) == out + [line[0]];
      AppendIsClosed(chart, out, line[0]);
    } else {
      TailIsWhole(chart, line);
      AddLaws(chart, out, line[1..]);
      var rest := Add(out, line[1..]);
      NotOwnAncestor(chart, line);
      assert line == [line[0]] + line[1..];
      AppendIsClosed(chart, rest, line[0]);
    }
  }

  lemma AppendIsClosed(chart: Chart, out: seq<string>, code: string)
    requires Closed(chart, out) && code in chart && code !in out
    requires chart[code].Some? && chart[code].value in chart ==> chart[code].value in out
    ensures Closed(chart, out + [code])
  {
    var more := out + [code];
    forall i | 0 <= i < |more| && chart[more[i]].Some? && chart[more[i]].value in chart
      ensures chart[more[i]].value in more[..i]
    {
      if i < |out| {
        assert more[..i] == out[..i];
      } else {
        assert more[..i] == out;
      }
    }
  }

  /** A code with a whole line is not above itself. */
  lemma NotOwnAncestor(chart: Chart, line: seq<string>)
    requires IsWhole(chart, line)
    ensures line[0] !in line[1..]
  {
    if line[0] in line[1..] {
      var i :| 0 <= i < |line[1..]| && line[1..][i] == line[0];
      var rest := line[i + 1..];
      assert IsWhole(chart, rest) by {
        assert forall j :: 0 <= j < |rest| ==> rest[j] == line[i + 1 + j];
      }
      LineIsUnique(chart, line, rest);
      assert false;
    }
  }

  ghost predicate IsAncestor(chart: Chart, c: string, code: string) {
    exists line: seq<string> :: IsLine(chart, line) && line[0] == code && line[|line| - 1] == c
  }

  /** A code is a wanted one or an ancestor of one. */
  ghost predicate IsAbove(chart: Chart, c: string, want: seq<string>) {
    exists i :: 0 <= i < |want| && IsAncestor(chart, c, want[i])
  }

  /** The result holds exactly the wanted codes of the chart and their ancestors, each once, parents first. */
  lemma {:induction false} ClosureIsAncestorsOfWanted(chart: Chart, want: seq<string>, lines: map<string, seq<string>>)
    requires HasLines(chart, want, lines)
    ensures Closed(chart, Closure(chart, want, lines))
    ensures forall c :: c in Closure(chart, want, lines) <==> IsAbove(chart, c, want)
  {
    hide IsAncestor, Add, Closed, HasLine, IsWhole;
    if want == [] {
      NoneIsClosed(chart);
    } else {
      var n := |want| - 1;
      var before, w := want[..n], want[n];
      ClosureIsAncestorsOfWanted(chart, before, lines);
      var out, line := Closure(chart, before, lines), LineOf(chart, lines, w);
      if w in chart {
        LineOfMember(chart, w, lines);
        AddLaws(chart, out, line);
      } else {
        AddNothing(out);
      }
      forall c ensures IsAncestor(chart, c, w) <==> c in line {
        AncestorsAreTheLine(chart, c, w, lines);
      }
      AboveOneMore(chart, want, line);
    }
  }

  lemma AboveOneMore(chart: Chart, want: seq<string>, line: seq<string>)
    requires want != [] && forall c :: IsAncestor(chart, c, want[|want| - 1]) <==> c in line
    ensures forall c :: IsAbove(chart, c, want) <==> IsAbove(chart, c, want[..|want| - 1]) || c in line
  {
    hide IsAncestor;
    var before := want[..|want| - 1];
    forall c ensures IsAbove(chart, c, want) <==> IsAbove(chart, c, before) || c in line {
      if IsAbove(chart, c, before) {
        var i :| 0 <= i < |before| && IsAncestor(chart, c, before[i]);
        assert IsAncestor(chart, c, want[i]);
      }
      if IsAbove(chart, c, want) && c !in line {
        var i :| 0 <= i < |want| && IsAncestor(chart, c, want[i]);
        assert IsAncestor(chart, c, before[i]);
      }
    }
  }

  lemma LineOfMember(chart: Chart, w: string, lines: map<string, seq<string>>)
    requires HasLine(chart, w, lines) && w in chart
    ensures var line := LineOf(chart, lines, w); IsWhole(chart, line) && line[0] == w
  {
    hide IsWhole;
  }

  lemma NoneIsClosed(chart: Chart)
    ensures Closed(chart, [])
  {
  }

  lemma AddNothing(out: seq<string>)
    ensures Add(out, []) == out
  {
  }

  lemma AncestorsAreTheLine(chart: Chart, c: string, w: string, lines: map<string, seq<string>>)
    requires HasLine(chart, w, lines)
    ensures IsAncestor(chart, c, w) <==> c in LineOf(chart, lines, w)
  {
    hide HasLine, IsWhole;
    var whole := LineOf(chart, lines, w);
    if w in chart {
      LineOfMember(chart, w, lines);
      if IsAncestor(chart, c, w) {
        var line: seq<string> :| IsLine(chart, line) && line[0] == w && line[|line| - 1] == c;
        LineIsUnique(chart, whole, line);
        assert c == whole[|line| - 1];
      }
      if c in whole {
        var i :| 0 <= i < |whole| && whole[i] == c;
        BeginningIsLine(chart, whole, i);
        assert whole[..i + 1][0] == w && whole[..i + 1][i] == c;
      }
    }
  }

  lemma BeginningIsLine(chart: Chart, line: seq<string>, i: nat)
    requires IsWhole(chart, line) && i < |line|
    ensures IsLine(chart, line[..i + 1])
  {
  }

  // ----- Importing one template account

  datatype Account = Account(id: nat, parentId: Option<nat>)

  datatype Books = Books(accounts: map<string, Account>, nextId: nat)

  datatype Error = TemplateNotFound | AlreadyExists | ParentNotFound

  function CreateOne(b: Books, chart: Chart, code: string): Books
    requires code in chart
  {
    if code in b.accounts then b
    else
      var parent := chart[code];
      var parentId := if parent.Some? && parent.value in b.accounts then Some(b.accounts[parent.value].id) else None;
      Books(b.accounts[code := Account(b.nextId, parentId)], b.nextId + 1)
  }

  /** From the top of the line down. */
  function CreateLine(b: Books, chart: Chart, line: seq<string>): Books
    requires forall i :: 0 <= i < |line| ==> line[i] in chart
  {
    if line == [] then b else CreateOne(CreateLine(b, chart, line[1..]), chart, line[0])
  }

  function Reversed(line: seq<string>): seq<string> {
    if line == [] then [] else Reversed(line[1..]) + [line[0]]
  }

  class TemplateImporter {
    const templates: Chart
    const deprecated: set<string>
    var accounts: map<string, Account>
    var nextId: nat

    constructor (templates: Chart, deprecated: set<string>, b: Books)
      ensures this.templates == templates && this.deprecated == deprecated && State() == b
    {
      this.templates, this.deprecated := templates, deprecated;
      accounts, nextId := b.accounts, b.nextId;
    }

    function State(): Books
      reads this
    {
      Books(accounts, nextId)
    }

    /** The line of a template up to its root, the root first. */
    method CollectChain(leaf: string, ghost line: seq<string>) returns (r: Result<seq<string>, Error>)
      requires IsWhole(templates, line) && line[0] == leaf
      ensures r == if EndsAtRoot(templates, line) then Success(Reversed(line)) else Failure(ParentNotFound)
    {
      var chain := [leaf];
      var cur := leaf;
      ghost var i := 0;
      ReversedStep(line, 0);
      while true
        invariant 0 <= i < |line| && cur == line[i] && chain == Reversed(line[..i + 1])
        decreases |line| - i
      {
        assert i < |line| - 1 ==> templates[line[i]] == Some(line[i + 1]) && line[i + 1] in templates;
        var parent := templates[cur];
        if parent.None? {
          assert i == |line| - 1;
          assert line[..i + 1] == line;
          return Success(chain);
        }
        if parent.value !in templates {
          assert i == |line| - 1;
          return Failure(ParentNotFound);
        }
        assert i < |line| - 1;
        cur := parent.value;
        i := i + 1;
        ReversedStep(line, i);
        chain := [cur] + chain;
      }
    }

    method ImportNasAccountFromTemplate(leaf: string, ghost line: seq<string>) returns (r: Result<(), Error>)
      requires if leaf in templates then IsWhole(templates, line) && line[0] == leaf else line == []
      modifies this`accounts, this`nextId
      ensures r.Success? <==>
              leaf in templates && leaf !in deprecated && leaf !in old(accounts) && EndsAtRoot(templates, line)
      ensures State() == if r.Success? then CreateLine(old(State()), templates, line) else old(State())
    {
      if leaf !in templates || leaf in deprecated {
        return Failure(TemplateNotFound);
      }
      if leaf in accounts {
        return Failure(AlreadyExists);
      }
      var chain := CollectChain(leaf, line);
      if chain.Failure? {
        return Failure(chain.error);
      }
      ReversedAt(line);
      var idByCode: map<string, nat> := map[];
      ghost var b := State();
      for i := 0 to |chain.value|
        invariant State() == CreateLine(b, templates, line[|line| - i..])
        invariant i > 0 ==> chain.value[i - 1] in idByCode
        invariant forall c :: c in idByCode ==> c in accounts && accounts[c].id == idByCode[c]
      {
        var code := chain.value[i];
        assert line[|line| - i - 1..][1..] == line[|line| - i..];
        if code in accounts {
          idByCode := idByCode[code := accounts[code].id];
        } else {
          assert i > 0 ==> templates[code] == Some(chain.value[i - 1]);
          assert i == 0 ==> templates[code] == None;
          var parent := templates[code];
          var parentId := if parent.Some? && parent.value in idByCode then Some(idByCode[parent.value]) else None;
          accounts := accounts[code := Account(nextId, parentId)];
          nextId := nextId + 1;
          idByCode := idByCode[code := nextId - 1];
        }
      }
      assert line[|line| - |chain.value|..] == line;
      return Success(());
    }
  }

  lemma ReversedStep(line: seq<string>, i: nat)
    requires i < |line|
    ensures Reversed(line[..i + 1]) == [line[i]] + Reversed(line[..i])
  {
    ReversedAppend(line[..i], line[i]);
    assert line[..i + 1] == line[..i] + [line[i]];
  }

  lemma {:induction false} ReversedAppend(line: seq<string>, c: string)
    ensures Reversed(line + [c]) == [c] + Reversed(line)
  {
    if line == [] {
      assert [c][1..] == [];
    } else {
      ReversedAppend(line[1..], c);
      assert (line + [c])[1..] == line[1..] + [c];
    }
  }

  lemma {:induction false} ReversedAt(line: seq<string>)
    ensures |Reversed(line)| == |line| && forall i :: 0 <= i < |line| ==> Reversed(line)[i] == line[|line| - 1 - i]
  {
    if line != [] {
      ReversedAt(line[1..]);
    }
  }

  /** An account below the account of its parent. */
  predicate Hangs(b: Books, chart: Chart, c: string)
    requires c in b.accounts
  {
    c in chart && b.accounts[c].parentId ==
      if chart[c].None? then None
      else if chart[c].value in b.accounts then Some(b.accounts[chart[c].value].id)
      else None
  }

  ghost predicate Imported(b: Books, b': Books, chart: Chart, line: seq<string>) {
    && (forall c :: c in b'.accounts <==> c in b.accounts || c in line)
    && (forall c :: c in b.accounts ==> b'.accounts[c] == b.accounts[c])
    && (forall c :: c in b'.accounts && c !in b.accounts ==>
          Hangs(b', chart, c) && (chart[c].Some? ==> chart[c].value in b'.accounts))
    && b.nextId <= b'.nextId
    && (forall c :: c in b'.accounts && c !in b.accounts ==> b.nextId <= b'.accounts[c].id < b'.nextId)
    && (forall c, d :: c in b'.accounts && d in b'.accounts && c != d && c !in b.accounts && d !in b.accounts ==>
          b'.accounts[c].id != b'.accounts[d].id)
  }

  lemma ImportOne(b: Books, b': Books, chart: Chart, line: seq<string>, code: string)
    requires Imported(b, b', chart, line) && code in chart && code !in line
    requires chart[code].Some? ==> chart[code].value in b'.accounts
    ensures Imported(b, CreateOne(b', chart, code), chart, [code] + line)
  {
    var b'' := CreateOne(b', chart, code);
    forall c | c in b''.accounts && c !in b.accounts
      ensures Hangs(b'', chart, c) && (chart[c].Some? ==> chart[c].value in b''.accounts)
    {
      if c in b'.accounts {
        assert Hangs(b', chart, c);
      }
    }
  }

  /** The imported account is there with all its ancestors, each new one below the account of its parent; accounts
      that were there are not touched, no other account is made, and the new ids are fresh. */
  lemma {:induction false} ImportLaws(b: Books, chart: Chart, line: seq<string>)
    requires IsWhole(chart, line) && EndsAtRoot(chart, line)
    ensures Imported(b, CreateLine(b, chart, line), chart, line)
  {
    if |line| > 1 {
      TailIsWhole(chart, line);
      ImportLaws(b, chart, line[1..]);
      NotOwnAncestor(chart, line);
      assert line == [line[0]] + line[1..];
      ImportOne(b, CreateLine(b, chart, line[1..]), chart, line[1..], line[0]);
    } else {
      assert line == [line[0]] + [] && line[1..] == [];
      ImportOne(b, b, chart, [], line[0]);
    }
  }
}
