/** The admission check that a stale source has left the decision path: the index of
    selections by cycle and asset, and the test of every stale row against it. */
module SelectionIndex {

  import opened Options

  /** A decoded JSON value; a missing key reads as `Null`. */
  datatype Json = Null | Bool(b: bool) | Int(i: int) | Text(s: string) | Other(tag: int)

  datatype Selection = Selection(
    cycle: Json, asset: Json, previous: Json, failClosed: Json, selected: Json,
    provider: Json, actual: Json, recomputed: Json, silent: Json)

  /** `stale` is the stale interval count, zero when absent. */
  datatype Row = Row(cycle: Json, stale: int)

  datatype Primary = Primary(source: string, asset: string, rows: seq<Row>)

  datatype Key = Key(cycle: int, asset: string)

  datatype Finding =
    | Duplicate(key: Key)
    | SelectionMissing(source: string, asset: string)
    | FailClosedIdentity(source: string, asset: string)
    | FailoverNotRecomputed(source: string, asset: string)

  /** An integer, where a boolean is one too and stands for zero or one. */
  function Cycle(j: Json): Option<int> {
    match j
    case Int(i) => Some(i)
    case Bool(b) => Some(if b then 1 else 0)
    case _ => None
  }

  function KeyOf(s: Selection): Option<Key> {
    if Cycle(s.cycle).Some? && s.asset.Text? then Some(Key(Cycle(s.cycle).value, s.asset.s)) else None
  }

  /** The first selection with a key, by linear scan. */
  function FirstWith(selections: seq<Selection>, key: Key): Option<Selection> {
    if selections == [] then None
    else
      var earlier, last := FirstWith(selections[..|selections| - 1], key), selections[|selections| - 1];
      if earlier.Some? then earlier else if KeyOf(last) == Some(key) then Some(last) else None
  }

  function Duplicates(selections: seq<Selection>): seq<Finding> {
    if selections == [] then []
    else
      var init, key := selections[..|selections| - 1], KeyOf(selections[|selections| - 1]);
      Duplicates(init) + if key.Some? && FirstWith(init, key.value).Some? then [Duplicate(key.value)] else []
  }

  function JudgeSelection(s: Selection, source: string, asset: string): seq<Finding> {
    if s.previous != Text(source) then []
    else if s.failClosed == Bool(true) then
      if s.selected != Null || s.provider != Null || s.actual != Null then [FailClosedIdentity(source, asset)] else []
    else if !s.selected.Text? || s.selected == Text(source) || s.selected != s.actual || s.provider != s.actual
            || s.recomputed != Bool(true) || s.silent == Bool(true)
    then [FailoverNotRecomputed(source, asset)]
    else []
  }

  function RowFindings(selections: seq<Selection>, p: Primary, row: Row): seq<Finding> {
    if row.stale == 0 then []
    else
      var cycle := Cycle(row.cycle);
      var found := if cycle.Some? then FirstWith(selections, Key(cycle.value, p.asset)) else None;
      if found.None? then [SelectionMissing(p.source, p.asset)] else JudgeSelection(found.value, p.source, p.asset)
  }

  function PairFindings(selections: seq<Selection>, p: Primary, rows: seq<Row>): seq<Finding> {
    if rows == [] then []
    else PairFindings(selections, p, rows[..|rows| - 1]) + RowFindings(selections, p, rows[|rows| - 1])
  }

  function StaleFindings(selections: seq<Selection>, primaries: seq<Primary>): seq<Finding> {
    if primaries == [] then []
    else
      var p := primaries[|primaries| - 1];
      StaleFindings(selections, primaries[..|primaries| - 1]) + PairFindings(selections, p, p.rows)
  }

  function StaleCount(rows: seq<Row>): int {
    if rows == [] then 0 else StaleCount(rows[..|rows| - 1]) + rows[|rows| - 1].stale
  }

  function TotalStale(primaries: seq<Primary>): int {
    if primaries == [] then 0
    else TotalStale(primaries[..|primaries| - 1]) + StaleCount(primaries[|primaries| - 1].rows)
  }

  /** The dictionary holds exactly what the linear scan finds. */
  method BuildIndex(selections: seq<Selection>) returns (index: map<Key, Selection>, findings: seq<Finding>)
    ensures forall key :: key in index <==> FirstWith(selections, key).Some?
    ensures forall key :: key in index ==> FirstWith(selections, key) == Some(index[key])
    ensures findings == Duplicates(selections)
  {
    index, findings := map[], [];
    var i := 0;
    while i < |selections|
      invariant 0 <= i <= |selections|
      invariant forall key :: FirstWith(selections[..i], key) == if key in index then Some(index[key]) else None
      invariant findings == Duplicates(selections[..i])
    {
      assert selections[..i + 1][..i] == selections[..i];
      var selection := selections[i];
      var key := KeyOf(selection);
      if key.Some? {
        if key.value in index {
          findings := findings + [Duplicate(key.value)];
        } else {
          index := index[key.value := selection];
        }
      }
      i := i + 1;
    }
    assert selections[..i] == selections;
  }

  /** A boolean cycle is a duplicate of the integer that it stands for. */
  lemma BooleanSharesKey(b: bool, x: Selection, y: Selection)
    requires x.cycle == Bool(b) && y.cycle == Int(if b then 1 else 0) && x.asset == y.asset && x.asset.Text?
    ensures KeyOf(x) == KeyOf(y) == Some(Key(if b then 1 else 0, x.asset.s))
    ensures Duplicates([x, y]) == [Duplicate(KeyOf(x).value)] == Duplicates([y, x])
  {
    var key := KeyOf(x).value;
    forall z | KeyOf(z) == Some(key) ensures Duplicates([z]) == [] && FirstWith([z], key) == Some(z) {
      assert [z][..0] == [];
    }
    assert [x, y][..1] == [x] && [y, x][..1] == [y];
  }

  lemma NoRows(selections: seq<Selection>, p: Primary, rows: seq<Row>)
    requires rows == []
    ensures PairFindings(selections, p, rows) == [] && StaleCount(rows) == 0
  {
  }

  lemma RowStep(selections: seq<Selection>, p: Primary, i: nat)
    requires i < |p.rows|
    ensures PairFindings(selections, p, p.rows[..i + 1])
         == PairFindings(selections, p, p.rows[..i]) + RowFindings(selections, p, p.rows[i])
    ensures StaleCount(p.rows[..i + 1]) == StaleCount(p.rows[..i]) + p.rows[i].stale
  {
    assert p.rows[..i + 1][..i] == p.rows[..i];
  }

  method CheckPair(p: Primary, index: map<Key, Selection>, ghost selections: seq<Selection>)
    returns (findings: seq<Finding>, stale: int)
    requires forall key :: FirstWith(selections, key) == if key in index then Some(index[key]) else None
    ensures findings == PairFindings(selections, p, p.rows) && stale == StaleCount(p.rows)
  {
    hide FirstWith, PairFindings, StaleCount;
    findings, stale := [], 0;
    var i := 0;
    NoRows(selections, p, p.rows[..0]);
    while i < |p.rows|
      invariant 0 <= i <= |p.rows|
      invariant findings == PairFindings(selections, p, p.rows[..i]) && stale == StaleCount(p.rows[..i])
    {
      RowStep(selections, p, i);
      var row := p.rows[i];
      i := i + 1;
      if row.stale == 0 { continue; }
      stale := stale + row.stale;
      var cycle := Cycle(row.cycle);
      if cycle.None? || Key(cycle.value, p.asset) !in index {
        findings := findings + [SelectionMissing(p.source, p.asset)];
        continue;
      }
      var selection := index[Key(cycle.value, p.asset)];
      if selection.previous != Text(p.source) { continue; }
      if selection.failClosed == Bool(true) {
        if selection.selected != Null || selection.provider != Null || selection.actual != Null {
          findings := findings + [FailClosedIdentity(p.source, p.asset)];
        }
        continue;
      }
      if !selection.selected.Text? || selection.selected == Text(p.source) || selection.selected != selection.actual
         || selection.provider != selection.actual || selection.recomputed != Bool(true)
         || selection.silent == Bool(true)
      {
        findings := findings + [FailoverNotRecomputed(p.source, p.asset)];
      }
    }
    assert p.rows[..i] == p.rows;
  }

  method CheckStaleIntervals(selections: seq<Selection>, primaries: seq<Primary>)
    returns (passed: bool, findings: seq<Finding>, stale: int)
    ensures findings == Duplicates(selections) + StaleFindings(selections, primaries)
    ensures passed <==> findings == []
    ensures stale == TotalStale(primaries)
  {
    hide FirstWith, Duplicates, PairFindings, StaleCount;
    var index, duplicates := BuildIndex(selections);
    findings, stale := duplicates, 0;
    var i := 0;
    while i < |primaries|
      invariant 0 <= i <= |primaries|
      invariant findings == duplicates + StaleFindings(selections, primaries[..i])
      invariant stale == TotalStale(primaries[..i])
    {
      assert primaries[..i + 1][..i] == primaries[..i];
      var more, count := CheckPair(primaries[i], index, selections);
      assert findings + more == duplicates + (StaleFindings(selections, primaries[..i]) + more);
      findings, stale := findings + more, stale + count;
      i := i + 1;
    }
    assert primaries[..i] == primaries;
    passed := findings == [];
  }

  // ---- when the check passes ----

  predicate OnePerKey(selections: seq<Selection>) {
    forall i, j :: 0 <= i < j < |selections| && KeyOf(selections[i]).Some? ==>
      KeyOf(selections[i]) != KeyOf(selections[j])
  }

  /** The stale source was not the selected one, or it has been removed: either nothing is
      selected and nothing is named, or another source is, with one consistent identity,
      quality recomputed and no silent substitution. */
  predicate Removed(s: Selection, source: string) {
    s.previous == Text(source) ==>
      if s.failClosed == Bool(true) then s.selected == s.provider == s.actual == Null
      else
        s.selected.Text? && s.selected.s != source && s.selected == s.provider == s.actual
        && s.recomputed == Bool(true) && s.silent != Bool(true)
  }

  /** Some selection of the row's own cycle and asset has removed the source. */
  predicate Handled(selections: seq<Selection>, p: Primary, row: Row) {
    && Cycle(row.cycle).Some?
    && exists i :: 0 <= i < |selections| && KeyOf(selections[i]) == Some(Key(Cycle(row.cycle).value, p.asset))
         && Removed(selections[i], p.source)
  }

  lemma {:induction false} FirstWithIs(selections: seq<Selection>, key: Key)
    ensures FirstWith(selections, key).None? <==>
            forall i :: 0 <= i < |selections| ==> KeyOf(selections[i]) != Some(key)
    ensures FirstWith(selections, key).Some? ==>
              exists i :: 0 <= i < |selections| && FirstWith(selections, key) == Some(selections[i])
                && KeyOf(selections[i]) == Some(key) && forall j :: 0 <= j < i ==> KeyOf(selections[j]) != Some(key)
  {
    if selections != [] {
      var init, last := selections[..|selections| - 1], selections[|selections| - 1];
      FirstWithIs(init, key);
      forall i | 0 <= i < |init| ensures selections[i] == init[i] {}
      if FirstWith(init, key).Some? {
        var i :| 0 <= i < |init| && FirstWith(init, key) == Some(init[i])
          && KeyOf(init[i]) == Some(key) && forall j :: 0 <= j < i ==> KeyOf(init[j]) != Some(key);
        assert selections[i] == init[i];
      } else {
        assert KeyOf(last) == Some(key) ==> selections[|init|] == last;
      }
    }
  }

  lemma OnePerKeyStep(init: seq<Selection>, last: Selection)
    ensures OnePerKey(init + [last]) <==>
            OnePerKey(init) && forall i :: 0 <= i < |init| && KeyOf(last).Some? ==> KeyOf(init[i]) != KeyOf(last)
  {
    var all := init + [last];
    assert all[|init|] == last;
    if OnePerKey(all) {
      forall i, j | 0 <= i < j < |init| && KeyOf(init[i]).Some? ensures KeyOf(init[i]) != KeyOf(init[j]) {
        assert all[i] == init[i] && all[j] == init[j];
      }
      forall i | 0 <= i < |init| && KeyOf(last).Some? ensures KeyOf(init[i]) != KeyOf(last) {
        assert all[i] == init[i];
      }
    }
  }

  /** The dictionary meets a key twice exactly when two selections share one. */
  lemma {:induction false} NoDuplicates(selections: seq<Selection>)
    ensures Duplicates(selections) == [] <==> OnePerKey(selections)
  {
    if selections != [] {
      hide OnePerKey, FirstWith;
      var init, last := selections[..|selections| - 1], selections[|selections| - 1];
      NoDuplicates(init);
      assert selections == init + [last];
      OnePerKeyStep(init, last);
      if KeyOf(last).Some? { FirstWithIs(init, KeyOf(last).value); }
    }
  }

  /** With one selection per key, the scan finds the one that a row must be handled by. */
  lemma RowJudged(selections: seq<Selection>, p: Primary, row: Row)
    requires OnePerKey(selections) && row.stale != 0
    ensures RowFindings(selections, p, row) == [] <==> Handled(selections, p, row)
  {
    if Cycle(row.cycle).Some? {
      var key := Key(Cycle(row.cycle).value, p.asset);
      FirstWithIs(selections, key);
      if FirstWith(selections, key).Some? {
        var i :| 0 <= i < |selections| && FirstWith(selections, key) == Some(selections[i])
          && KeyOf(selections[i]) == Some(key) && forall j :: 0 <= j < i ==> KeyOf(selections[j]) != Some(key);
        assert forall j :: i < j < |selections| ==> KeyOf(selections[j]) != KeyOf(selections[i]);
      }
    }
  }

  predicate RowsHandled(selections: seq<Selection>, p: Primary, rows: seq<Row>) {
    forall i :: 0 <= i < |rows| && rows[i].stale != 0 ==> Handled(selections, p, rows[i])
  }

  predicate StaleHandled(selections: seq<Selection>, primaries: seq<Primary>) {
    forall i :: 0 <= i < |primaries| ==> RowsHandled(selections, primaries[i], primaries[i].rows)
  }

  lemma {:induction false} RowsJudged(selections: seq<Selection>, p: Primary, rows: seq<Row>)
    requires OnePerKey(selections)
    ensures PairFindings(selections, p, rows) == [] <==> RowsHandled(selections, p, rows)
  {
    hide Handled, OnePerKey, RowFindings;
    if rows != [] {
      var init, last := rows[..|rows| - 1], rows[|rows| - 1];
      RowsJudged(selections, p, init);
      forall i | 0 <= i < |init| ensures rows[i] == init[i] {}
      if last.stale != 0 { RowJudged(selections, p, last); }
      assert last.stale == 0 ==> RowFindings(selections, p, last) == [] by { NotStale(selections, p, last); }
    }
  }

  lemma NotStale(selections: seq<Selection>, p: Primary, row: Row)
    ensures row.stale == 0 ==> RowFindings(selections, p, row) == []
  {
  }

  lemma {:induction false} AllJudged(selections: seq<Selection>, primaries: seq<Primary>)
    requires OnePerKey(selections)
    ensures StaleFindings(selections, primaries) == [] <==> StaleHandled(selections, primaries)
  {
    hide RowsHandled, OnePerKey, PairFindings;
    if primaries != [] {
      var init, last := primaries[..|primaries| - 1], primaries[|primaries| - 1];
      AllJudged(selections, init);
      RowsJudged(selections, last, last.rows);
      forall i | 0 <= i < |init| ensures primaries[i] == init[i] {}
    }
  }

  /** The check passes exactly when no two selections share a cycle and an asset and every
      stale row of every primary source is handled. */
  lemma PassesExactly(selections: seq<Selection>, primaries: seq<Primary>)
    ensures Duplicates(selections) + StaleFindings(selections, primaries) == [] <==>
            OnePerKey(selections) && StaleHandled(selections, primaries)
  {
    hide Duplicates, StaleFindings, OnePerKey, StaleHandled;
    NoDuplicates(selections);
    if OnePerKey(selections) { AllJudged(selections, primaries); }
    assert |Duplicates(selections) + StaleFindings(selections, primaries)|
        == |Duplicates(selections)| + |StaleFindings(selections, primaries)|;
  }

  // ---- what is found ----

  /** The key of a selection: a text asset, and an integer cycle or a boolean for 0 or 1. */
  predicate HasKey(s: Selection, cycle: int, asset: string) {
    && s.asset == Text(asset)
    && (|| s.cycle == Int(cycle) || (s.cycle == Bool(true) && cycle == 1) || (s.cycle == Bool(false) && cycle == 0))
  }

  /** The selection at `at` is the first of the row's own cycle and the source's asset. */
  predicate FirstFor(selections: seq<Selection>, p: Primary, row: Row, cycle: int, at: nat) {
    && (row.cycle == Int(cycle) || (row.cycle == Bool(true) && cycle == 1) || (row.cycle == Bool(false) && cycle == 0))
    && at < |selections| && HasKey(selections[at], cycle, p.asset)
    && forall j :: 0 <= j < at ==> !HasKey(selections[j], cycle, p.asset)
  }

  ghost predicate NoneFor(selections: seq<Selection>, p: Primary, row: Row) {
    forall cycle, i: nat :: !FirstFor(selections, p, row, cycle, i)
  }

  /** Nothing is selected, yet something is named. */
  predicate NamesAfterClosing(s: Selection, source: string) {
    && s.previous == Text(source) && s.failClosed == Bool(true)
    && !(s.selected.Null? && s.provider.Null? && s.actual.Null?)
  }

  /** Another source should have been selected, but it is none, the same, not one identity,
      not recomputed or a silent substitution. */
  predicate NotFailedOver(s: Selection, source: string) {
    && s.previous == Text(source) && s.failClosed != Bool(true)
    && !(&& s.selected.Text? && s.selected.s != source && s.provider == s.selected && s.actual == s.selected
         && s.recomputed == Bool(true) && s.silent != Bool(true))
  }

  ghost predicate Finds(selections: seq<Selection>, p: Primary, row: Row, f: Finding) {
    && row.stale != 0
    && match f
       case Duplicate(_) => false
       case SelectionMissing(source, asset) => source == p.source && asset == p.asset && NoneFor(selections, p, row)
       case FailClosedIdentity(source, asset) =>
         && source == p.source && asset == p.asset
         && exists cycle, at: nat ::
              FirstFor(selections, p, row, cycle, at) && NamesAfterClosing(selections[at], p.source)
       case FailoverNotRecomputed(source, asset) =>
         && source == p.source && asset == p.asset
         && exists cycle, at: nat :: FirstFor(selections, p, row, cycle, at) && NotFailedOver(selections[at], p.source)
  }

  lemma KeyIs(s: Selection, cycle: int, asset: string)
    ensures KeyOf(s) == Some(Key(cycle, asset)) <==> HasKey(s, cycle, asset)
  {
  }

  lemma JudgedExactly(s: Selection, source: string, asset: string, f: Finding)
    ensures f in JudgeSelection(s, source, asset) <==>
            || (f == FailClosedIdentity(source, asset) && NamesAfterClosing(s, source))
            || (f == FailoverNotRecomputed(source, asset) && NotFailedOver(s, source))
  {
  }

  lemma FirstForIs(selections: seq<Selection>, p: Primary, row: Row) returns (at: nat)
    ensures var cycle := Cycle(row.cycle);
            var found := if cycle.Some? then FirstWith(selections, Key(cycle.value, p.asset)) else None;
            if found.None? then NoneFor(selections, p, row)
            else at < |selections| && found.value == selections[at] && FirstFor(selections, p, row, cycle.value, at)
                 && forall c, i: nat :: FirstFor(selections, p, row, c, i) ==> i == at
  {
    at := 0;
    forall s, c, a ensures KeyOf(s) == Some(Key(c, a)) <==> HasKey(s, c, a) { KeyIs(s, c, a); }
    var cycle := Cycle(row.cycle);
    hide HasKey, KeyOf;
    if cycle.Some? {
      var key := Key(cycle.value, p.asset);
      FirstWithIs(selections, key);
      if FirstWith(selections, key).Some? {
        at :| 0 <= at < |selections| && FirstWith(selections, key) == Some(selections[at])
          && KeyOf(selections[at]) == Some(key) && forall j :: 0 <= j < at ==> KeyOf(selections[j]) != Some(key);
        forall c, i: nat | FirstFor(selections, p, row, c, i) ensures i == at {
          assert c == cycle.value && !(i < at) && !(at < i);
        }
      }
    }
  }

  /** What one row of a source finds, kind by kind. */
  lemma RowFinds(selections: seq<Selection>, p: Primary, row: Row, f: Finding)
    ensures f in RowFindings(selections, p, row) <==> Finds(selections, p, row, f)
  {
    var at := FirstForIs(selections, p, row);
    hide FirstFor, FirstWith, JudgeSelection, NamesAfterClosing, NotFailedOver;
    var cycle := Cycle(row.cycle);
    var found := if cycle.Some? then FirstWith(selections, Key(cycle.value, p.asset)) else None;
    if row.stale != 0 && found.Some? {
      JudgedExactly(selections[at], p.source, p.asset, f);
      assert FirstFor(selections, p, row, cycle.value, at);
    }
  }
}
