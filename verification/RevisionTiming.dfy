/** The revision timing analysis: for each market interval, when its first closed bar,
    its revisions and its confirmations were received. */
module RevisionTiming {

  import opened Options
  import Extremes
  import P = Percentile
  import opened Sorting
  import opened TextOrder

  /** One bar decoded from one raw response; `version` is the hash of its values. */
  datatype Observation =
    Observation(instrument: string, end: real, receipt: real, closed: bool, version: string, response: int)

  datatype Key = Key(instrument: string, end: real)

  datatype Row = Row(
    key: Key, raw: nat, closed: nat, versions: nat, firstClose: real, firstRevision: Option<real>,
    lastRevision: Option<real>, firstRepeated: Option<real>, secondTerminal: Option<real>, confirmations: nat)

  function Lag(observed: Option<real>, end: real): Option<real> {
    if observed.None? then None
    else Some(if observed.value - end > 0.0 then observed.value - end else 0.0)
  }

  function Closed(all: seq<Observation>): seq<Observation> {
    if all == [] then []
    else Closed(all[..|all| - 1]) + if all[|all| - 1].closed then [all[|all| - 1]] else []
  }

  function Versions(s: seq<Observation>): set<string> { set i | 0 <= i < |s| :: s[i].version }

  /** The responses that carried a version. */
  function Responses(s: seq<Observation>, version: string): set<int> {
    if s == [] then {}
    else
      var last := s[|s| - 1];
      Responses(s[..|s| - 1], version) + if last.version == version then {last.response} else {}
  }

  /** Where a version other than the given one first and last occurs. */
  function FirstOther(s: seq<Observation>, version: string): Option<nat> {
    if s == [] then None
    else
      var earlier := FirstOther(s[..|s| - 1], version);
      if earlier.Some? then earlier
      else if s[|s| - 1].version != version then Some(|s| - 1) else None
  }

  function LastOther(s: seq<Observation>, version: string): Option<nat> {
    if s == [] then None
    else if s[|s| - 1].version != version then Some(|s| - 1)
    else LastOther(s[..|s| - 1], version)
  }

  /** Where a version occurs in a response that had not carried it before. */
  function Occurrences(s: seq<Observation>, version: string): seq<nat> {
    if s == [] then []
    else
      var init, last := s[..|s| - 1], s[|s| - 1];
      Occurrences(init, version)
      + if last.version == version && last.response !in Responses(init, version) then [|init|] else []
  }

  /** The version at `i` was carried earlier by a different response. */
  predicate Repeats(s: seq<Observation>, i: nat)
    requires i < |s|
  {
    exists j :: 0 <= j < i && s[j].version == s[i].version && s[j].response != s[i].response
  }

  function FirstRepeat(s: seq<Observation>): Option<nat> {
    if s == [] then None
    else
      var earlier := FirstRepeat(s[..|s| - 1]);
      if earlier.Some? then earlier
      else if Repeats(s, |s| - 1) then Some(|s| - 1) else None
  }

  lemma {:induction false} OccurrencesBounded(s: seq<Observation>, version: string)
    ensures forall k :: 0 <= k < |Occurrences(s, version)| ==> 0 <= Occurrences(s, version)[k] < |s|
  {
    if s != [] {
      OccurrencesBounded(s[..|s| - 1], version);
    }
  }

  lemma {:induction false} OthersBounded(s: seq<Observation>, version: string)
    ensures FirstOther(s, version).Some? ==> FirstOther(s, version).value < |s|
    ensures LastOther(s, version).Some? ==> LastOther(s, version).value < |s|
    ensures FirstRepeat(s).Some? ==> FirstRepeat(s).value < |s|
  {
    if s != [] {
      OthersBounded(s[..|s| - 1], version);
    }
  }

  function ReceiptAt(s: seq<Observation>, at: Option<nat>): Option<real>
    requires at.Some? ==> at.value < |s|
  {
    if at.None? then None else Some(s[at.value].receipt)
  }

  function RowOf(key: Key, all: seq<Observation>): Row
    requires Closed(all) != []
  {
    var s := Closed(all);
    var first, terminal := s[0].version, s[|s| - 1].version;
    var seen := Occurrences(s, terminal);
    OccurrencesBounded(s, terminal);
    OthersBounded(s, first);
    Row(key, |all|, |s|, |Versions(s)|, Lag(Some(s[0].receipt), key.end).value,
        Lag(ReceiptAt(s, FirstOther(s, first)), key.end), Lag(ReceiptAt(s, LastOther(s, first)), key.end),
        Lag(ReceiptAt(s, FirstRepeat(s)), key.end),
        Lag(ReceiptAt(s, if |seen| >= 2 then Some(seen[1]) else None), key.end), |seen|)
  }

  lemma {:induction false} ResponsesAre(s: seq<Observation>, version: string, r: int)
    ensures r in Responses(s, version) <==> exists i :: 0 <= i < |s| && s[i].version == version && s[i].response == r
  {
    if s != [] {
      var init, last := s[..|s| - 1], s[|s| - 1];
      ResponsesAre(init, version, r);
      if r in Responses(init, version) {
        var i :| 0 <= i < |init| && init[i].version == version && init[i].response == r;
        assert s[i] == init[i];
      }
      assert forall i :: 0 <= i < |init| ==> s[i] == init[i];
    }
  }

  /** The occurrences of a version are as many as the different responses carrying it. */
  lemma {:induction false} OccurrencesCount(s: seq<Observation>, version: string)
    ensures |Occurrences(s, version)| == |Responses(s, version)|
  {
    if s != [] {
      var init, last := s[..|s| - 1], s[|s| - 1];
      OccurrencesCount(init, version);
      if last.version == version && last.response !in Responses(init, version) {
        assert |Responses(init, version) + {last.response}| == |Responses(init, version)| + 1;
      } else {
        assert Responses(s, version) == Responses(init, version);
      }
    }
  }

  method TerminalOccurrences(s: seq<Observation>, version: string) returns (occurrences: seq<nat>)
    ensures occurrences == Occurrences(s, version)
  {
    occurrences := [];
    var seen: set<int> := {};
    var i := 0;
    while i < |s|
      invariant 0 <= i <= |s|
      invariant seen == Responses(s[..i], version) && occurrences == Occurrences(s[..i], version)
    {
      assert s[..i + 1][..i] == s[..i];
      if s[i].version == version && s[i].response !in seen {
        seen := seen + {s[i].response};
        occurrences := occurrences + [i];
      }
      i := i + 1;
    }
    assert s[..i] == s;
  }

  lemma RepeatsByResponse(s: seq<Observation>, i: nat)
    requires i < |s|
    ensures Repeats(s, i) <==> exists y :: y in Responses(s[..i], s[i].version) && y != s[i].response
  {
    if Repeats(s, i) {
      var j :| 0 <= j < i && s[j].version == s[i].version && s[j].response != s[i].response;
      ResponsesAre(s[..i], s[i].version, s[j].response);
      assert s[..i][j] == s[j];
    }
    if y :| y in Responses(s[..i], s[i].version) && y != s[i].response {
      ResponsesAre(s[..i], s[i].version, y);
      var j :| 0 <= j < |s[..i]| && s[..i][j].version == s[i].version && s[..i][j].response == y;
      assert s[j] == s[..i][j];
    }
  }

  /** A set of at most one number reaches two exactly by a number it does not hold. */
  lemma ReachesTwo(before: set<int>, x: int)
    requires |before| <= 1
    ensures |before + {x}| >= 2 <==> exists y :: y in before && y != x
  {
    if y :| y in before && y != x {
      assert |before - {y}| == |before| - 1;
      assert before == {y};
      assert |{y, x}| == 2;
    } else {
      forall y | y in before + {x} ensures y == x {}
      assert before + {x} == {x};
    }
  }

  lemma RepeatsBySize(s: seq<Observation>, i: nat, before: set<int>)
    requires i < |s| && |before| <= 1 && before == Responses(s[..i], s[i].version)
    ensures |before + {s[i].response}| >= 2 <==> Repeats(s, i)
  {
    RepeatsByResponse(s, i);
    ReachesTwo(before, s[i].response);
  }

  ghost predicate SeenIs(seen: map<string, set<int>>, s: seq<Observation>) {
    forall v :: (if v in seen then seen[v] else {}) == Responses(s, v)
  }

  lemma SeenGrows(seen: map<string, set<int>>, s: seq<Observation>, i: nat)
    requires i < |s| && SeenIs(seen, s[..i])
    ensures var v := s[i].version;
            SeenIs(seen[v := (if v in seen then seen[v] else {}) + {s[i].response}], s[..i + 1])
  {
    assert s[..i + 1][..i] == s[..i];
  }

  lemma {:induction false} FirstRepeatStays(s: seq<Observation>, n: nat)
    requires n <= |s| && FirstRepeat(s[..n]).Some?
    ensures FirstRepeat(s) == FirstRepeat(s[..n])
  {
    if n < |s| {
      assert s[..|s| - 1][..n] == s[..n];
      FirstRepeatStays(s[..|s| - 1], n);
    } else {
      assert s[..n] == s;
    }
  }

  lemma FirstRepeatStep(s: seq<Observation>, i: nat)
    requires i < |s| && FirstRepeat(s[..i]).None?
    ensures FirstRepeat(s[..i + 1]) == if Repeats(s, i) then Some(i) else None
  {
    var prefix := s[..i + 1];
    assert prefix[..i] == s[..i];
    assert Repeats(prefix, i) <==> Repeats(s, i) by {
      if Repeats(s, i) {
        var j :| 0 <= j < i && s[j].version == s[i].version && s[j].response != s[i].response;
        assert prefix[j] == s[j];
      }
    }
  }

  /** The scan with one response set per version, left at the first set of two. */
  method FirstRepeated(s: seq<Observation>) returns (at: Option<nat>)
    ensures at == FirstRepeat(s)
  {
    hide Repeats, Responses, FirstRepeat;
    at := None;
    var seen: map<string, set<int>> := map[];
    var i := 0;
    assert SeenIs(seen, s[..0]) && FirstRepeat(s[..0]).None? by { NothingSeen(s[..0]); }
    while i < |s|
      invariant 0 <= i <= |s|
      invariant FirstRepeat(s[..i]).None? && SeenIs(seen, s[..i])
      invariant forall v :: v in seen ==> |seen[v]| <= 1
    {
      var version := s[i].version;
      var before := if version in seen then seen[version] else {};
      RepeatsBySize(s, i, before);
      FirstRepeatStep(s, i);
      SeenGrows(seen, s, i);
      seen := seen[version := before + {s[i].response}];
      if |seen[version]| >= 2 {
        FirstRepeatStays(s, i + 1);
        return Some(i);
      }
      i := i + 1;
    }
    assert s[..i] == s;
  }

  lemma NothingSeen(s: seq<Observation>)
    requires s == []
    ensures SeenIs(map[], s) && FirstRepeat(s).None?
  {
  }

  method ScanInterval(key: Key, all: seq<Observation>) returns (row: Option<Row>)
    ensures row == if Closed(all) == [] then None else Some(RowOf(key, all))
  {
    var s := Closed(all);
    if s == [] { return None; }
    var first, terminal := s[0].version, s[|s| - 1].version;
    var occurrences := TerminalOccurrences(s, terminal);
    var repeated := FirstRepeated(s);
    var second := if |occurrences| >= 2 then Some(occurrences[1]) else None;
    OccurrencesBounded(s, terminal);
    OthersBounded(s, first);
    row := Some(Row(key, |all|, |s|, |Versions(s)|, Lag(Some(s[0].receipt), key.end).value,
                    Lag(ReceiptAt(s, FirstOther(s, first)), key.end),
                    Lag(ReceiptAt(s, LastOther(s, first)), key.end),
                    Lag(ReceiptAt(s, repeated), key.end), Lag(ReceiptAt(s, second), key.end), |occurrences|));
  }

  /** The first and the last place of another version, when there is one. */
  lemma {:induction false} OthersFound(s: seq<Observation>, version: string)
    ensures FirstOther(s, version).Some? <==> exists i :: 0 <= i < |s| && s[i].version != version
    ensures LastOther(s, version).Some? <==> FirstOther(s, version).Some?
    ensures FirstOther(s, version).Some? ==>
              0 <= FirstOther(s, version).value <= LastOther(s, version).value < |s|
              && s[FirstOther(s, version).value].version != version
              && s[LastOther(s, version).value].version != version
              && forall i :: 0 <= i < |s| && s[i].version != version ==>
                   FirstOther(s, version).value <= i <= LastOther(s, version).value
  {
    if s != [] {
      var init := s[..|s| - 1];
      OthersFound(init, version);
      assert forall i :: 0 <= i < |init| ==> s[i] == init[i];
    }
  }

  lemma VersionsApart(s: seq<Observation>)
    requires s != []
    ensures |Versions(s)| > 1 <==> exists i :: 0 <= i < |s| && s[i].version != s[0].version
  {
    var first := s[0].version;
    assert first in Versions(s);
    if i :| 0 <= i < |s| && s[i].version != first {
      assert {first, s[i].version} <= Versions(s);
      assert |Versions(s) - {first, s[i].version}| == |Versions(s)| - 2;
    } else {
      assert Versions(s) == {first};
    }
  }

  /** A first and a last revision are reported exactly when more than one closed version
      was received. */
  lemma RevisionsExist(key: Key, all: seq<Observation>)
    requires Closed(all) != []
    ensures var row := RowOf(key, all);
            (row.firstRevision.Some? <==> row.versions > 1) && (row.lastRevision.Some? <==> row.versions > 1)
  {
    OthersFound(Closed(all), Closed(all)[0].version);
    VersionsApart(Closed(all));
  }

  predicate Nondecreasing(s: seq<Observation>) {
    forall i, j :: 0 <= i < j < |s| ==> s[i].receipt <= s[j].receipt
  }

  lemma {:induction false} ClosedKeepsOrder(all: seq<Observation>)
    requires Nondecreasing(all)
    ensures Nondecreasing(Closed(all))
    ensures forall o :: o in Closed(all) ==> o in all
  {
    if all != [] {
      var init, last := all[..|all| - 1], all[|all| - 1];
      ClosedKeepsOrder(init);
      assert forall o :: o in init ==> o in all;
      assert forall o :: o in init ==> o.receipt <= last.receipt;
    }
  }

  lemma {:induction false} OccurrencesCarry(s: seq<Observation>, version: string)
    ensures forall k :: 0 <= k < |Occurrences(s, version)| ==>
              0 <= Occurrences(s, version)[k] < |s| && s[Occurrences(s, version)[k]].version == version
    ensures forall j, k :: 0 <= j < k < |Occurrences(s, version)| ==>
              Occurrences(s, version)[j] < Occurrences(s, version)[k]
              && s[Occurrences(s, version)[j]].response != s[Occurrences(s, version)[k]].response
  {
    if s != [] {
      var init, last := s[..|s| - 1], s[|s| - 1];
      OccurrencesCarry(init, version);
      var before := Occurrences(init, version);
      forall k | 0 <= k < |before| ensures s[before[k]] == init[before[k]] {}
      if last.version == version && last.response !in Responses(init, version) {
        forall k | 0 <= k < |before| ensures s[before[k]].response != last.response {
          ResponsesAre(init, version, s[before[k]].response);
        }
      }
    }
  }

  lemma {:induction false} FirstRepeatIsFirst(s: seq<Observation>, i: nat)
    requires i < |s| && Repeats(s, i)
    ensures FirstRepeat(s).Some? && FirstRepeat(s).value <= i
  {
    var j :| 0 <= j < i && s[j].version == s[i].version && s[j].response != s[i].response;
    var init := s[..|s| - 1];
    if i < |init| {
      assert init[i] == s[i] && init[j] == s[j];
      FirstRepeatIsFirst(init, i);
    } else {
      OthersBounded(init, s[i].version);
    }
  }

  /** The first repeat is one, and nothing before it is. */
  lemma {:induction false} FirstRepeatIsRepeat(s: seq<Observation>)
    ensures FirstRepeat(s).Some? ==> FirstRepeat(s).value < |s| && Repeats(s, FirstRepeat(s).value)
    ensures forall i :: 0 <= i < |s| && Repeats(s, i) ==> FirstRepeat(s).Some? && FirstRepeat(s).value <= i
  {
    forall i | 0 <= i < |s| && Repeats(s, i) ensures FirstRepeat(s).Some? && FirstRepeat(s).value <= i {
      FirstRepeatIsFirst(s, i);
    }
    if s != [] {
      var init := s[..|s| - 1];
      FirstRepeatIsRepeat(init);
      if FirstRepeat(init).Some? {
        var i := FirstRepeat(init).value;
        var j :| 0 <= j < i && init[j].version == init[i].version && init[j].response != init[i].response;
        assert s[j] == init[j] && s[i] == init[i];
      }
    }
  }

  lemma SecondOccurrenceRepeats(s: seq<Observation>, version: string)
    requires |Occurrences(s, version)| >= 2
    ensures FirstRepeat(s).Some? && FirstRepeat(s).value <= Occurrences(s, version)[1] < |s|
  {
    OccurrencesCarry(s, version);
    var at := Occurrences(s, version);
    assert at[0] < at[1] && s[at[0]].version == s[at[1]].version && s[at[0]].response != s[at[1]].response;
    assert Repeats(s, at[1]);
    FirstRepeatIsFirst(s, at[1]);
  }

  /** The confirmation count is the number of different responses that carry the terminal
      version; a second confirmation exists exactly when there are two of them, and some
      version was then repeated at that point or before it. */
  lemma ConfirmationsCounted(key: Key, all: seq<Observation>)
    requires Closed(all) != []
    ensures var s, row := Closed(all), RowOf(key, all);
            && row.confirmations == |Responses(s, s[|s| - 1].version)| && row.confirmations >= 1
            && (row.secondTerminal.Some? <==> row.confirmations >= 2)
            && (row.secondTerminal.Some? ==>
                  row.firstRepeated.Some? && FirstRepeat(s).Some?
                  && FirstRepeat(s).value <= Occurrences(s, s[|s| - 1].version)[1])
  {
    var s := Closed(all);
    var terminal := s[|s| - 1].version;
    OccurrencesCount(s, terminal);
    ResponsesAre(s, terminal, s[|s| - 1].response);
    assert Responses(s, terminal) != {};
    if |Occurrences(s, terminal)| >= 2 { SecondOccurrenceRepeats(s, terminal); }
  }

  lemma LagsBetween(s: seq<Observation>, i: nat, j: nat, end: real)
    requires Nondecreasing(s) && i <= j < |s|
    ensures 0.0 <= Lag(Some(s[0].receipt), end).value <= Lag(Some(s[i].receipt), end).value
         <= Lag(Some(s[j].receipt), end).value
  {
    assert i > 0 ==> s[0].receipt <= s[i].receipt;
    assert i < j ==> s[i].receipt <= s[j].receipt;
  }

  /** With receipts in order, so are the lags. */
  lemma LagsOrdered(key: Key, all: seq<Observation>)
    requires Closed(all) != [] && Nondecreasing(all)
    ensures var row := RowOf(key, all);
            && 0.0 <= row.firstClose
            && (row.firstRevision.Some? ==>
                  row.lastRevision.Some?
                  && row.firstClose <= row.firstRevision.value <= row.lastRevision.value)
            && (row.secondTerminal.Some? ==>
                  row.firstRepeated.Some?
                  && row.firstClose <= row.firstRepeated.value <= row.secondTerminal.value)
  {
    var s := Closed(all);
    var first, terminal := s[0].version, s[|s| - 1].version;
    ClosedKeepsOrder(all);
    OthersFound(s, first);
    LagsBetween(s, 0, 0, key.end);
    if FirstOther(s, first).Some? {
      LagsBetween(s, FirstOther(s, first).value, LastOther(s, first).value, key.end);
    }
    if |Occurrences(s, terminal)| >= 2 {
      SecondOccurrenceRepeats(s, terminal);
      LagsBetween(s, FirstRepeat(s).value, Occurrences(s, terminal)[1], key.end);
    }
    hide Closed, Nondecreasing, FirstOther, LastOther, Occurrences, FirstRepeat;
  }

  // ---- the whole analysis: grouping, rows in key order, and the summary ----

  predicate KeyAtMost(a: Key, b: Key) {
    if a.instrument == b.instrument then a.end <= b.end else TextAtMost(a.instrument, b.instrument)
  }

  lemma KeysLinear()
    ensures TotalPreorder(KeyAtMost)
    ensures forall s :: NoTies(KeyAtMost, s)
  {
    TextLinear();
  }

  function KeyOf(o: Observation): Key { Key(o.instrument, o.end) }

  function Of(all: seq<Observation>, key: Key): seq<Observation> {
    if all == [] then []
    else Of(all[..|all| - 1], key) + if KeyOf(all[|all| - 1]) == key then [all[|all| - 1]] else []
  }

  /** The keys in the order in which they first occur. */
  function Keys(all: seq<Observation>): seq<Key> {
    if all == [] then []
    else
      var earlier, key := Keys(all[..|all| - 1]), KeyOf(all[|all| - 1]);
      if key in earlier then earlier else earlier + [key]
  }

  function RowsOf(keys: seq<Key>, all: seq<Observation>): seq<Row> {
    if keys == [] then []
    else
      var key := keys[|keys| - 1];
      RowsOf(keys[..|keys| - 1], all) + if Closed(Of(all, key)) == [] then [] else [RowOf(key, Of(all, key))]
  }

  function Intervals(all: seq<Observation>): seq<Row> { RowsOf(Sort(KeyAtMost, Keys(all)), all) }

  function Receipts(all: seq<Observation>): seq<real> { seq(|all|, i requires 0 <= i < |all| => all[i].receipt) }

  lemma {:induction false} KeysHaveObservations(all: seq<Observation>, key: Key)
    ensures key in Keys(all) <==> Of(all, key) != []
  {
    if all != [] {
      KeysHaveObservations(all[..|all| - 1], key);
    }
  }

  method GroupByKey(all: seq<Observation>) returns (groups: map<Key, seq<Observation>>, order: seq<Key>)
    ensures order == Keys(all) && forall key :: key in groups <==> key in order
    ensures forall key :: key in groups ==> groups[key] == Of(all, key)
  {
    groups, order := map[], [];
    var i := 0;
    while i < |all|
      invariant 0 <= i <= |all|
      invariant order == Keys(all[..i]) && forall key :: key in groups <==> key in order
      invariant forall key :: (if key in groups then groups[key] else []) == Of(all[..i], key)
    {
      assert all[..i + 1][..i] == all[..i];
      var key := KeyOf(all[i]);
      if key !in groups { order := order + [key]; }
      groups := groups[key := (if key in groups then groups[key] else []) + [all[i]]];
      i := i + 1;
    }
    assert all[..i] == all;
  }

  lemma SortedKeys(order: seq<Key>, key: Key)
    ensures key in Sort(KeyAtMost, order) <==> key in order
  {
    KeysLinear();
    SortSorts(KeyAtMost, order);
    SameElements(Sort(KeyAtMost, order), order, key);
  }

  lemma NoRows(keys: seq<Key>, all: seq<Observation>)
    requires keys == []
    ensures RowsOf(keys, all) == []
  {
  }

  lemma RowsStep(keys: seq<Key>, i: nat, all: seq<Observation>)
    requires i < |keys|
    ensures Closed(Of(all, keys[i])) == [] ==> RowsOf(keys[..i + 1], all) == RowsOf(keys[..i], all)
    ensures Closed(Of(all, keys[i])) != [] ==>
              RowsOf(keys[..i + 1], all) == RowsOf(keys[..i], all) + [RowOf(keys[i], Of(all, keys[i]))]
  {
    assert keys[..i + 1][..i] == keys[..i];
  }

  /** `None` when the terminal boundary precedes a receipt. */
  method Analyze(all: seq<Observation>, terminal: real) returns (rows: Option<seq<Row>>)
    ensures rows == if all != [] && terminal < Extremes.Largest(Receipts(all)) then None
                    else Some(RowsOf(Sort(KeyAtMost, Keys(all)), all))
  {
    if all != [] && terminal < Extremes.Largest(Receipts(all)) { return None; }
    hide *;
    var groups, order := GroupByKey(all);
    var keys := Sort(KeyAtMost, order);
    var intervals: seq<Row> := [];
    var i := 0;
    assert intervals == RowsOf(keys[..0], all) by { NoRows(keys[..0], all); }
    while i < |keys|
      invariant 0 <= i <= |keys|
      invariant intervals == RowsOf(keys[..i], all)
    {
      RowsStep(keys, i, all);
      SortedKeys(order, keys[i]);
      var row := ScanInterval(keys[i], groups[keys[i]]);
      if row.Some? { intervals := intervals + [row.value]; }
      i := i + 1;
    }
    assert keys[..i] == keys;
    rows := Some(intervals);
  }

  lemma {:induction false} KeysOnce(all: seq<Observation>)
    ensures forall key :: multiset(Keys(all))[key] <= 1
  {
    if all != [] {
      var earlier, key := Keys(all[..|all| - 1]), KeyOf(all[|all| - 1]);
      KeysOnce(all[..|all| - 1]);
      assert key in earlier <==> key in multiset(earlier);
    }
  }

  lemma {:induction false} SameGroupsSameRows(keys: seq<Key>, a: seq<Observation>, b: seq<Observation>)
    requires forall key :: Of(a, key) == Of(b, key)
    ensures RowsOf(keys, a) == RowsOf(keys, b)
  {
    hide Of, Closed, RowOf;
    if keys != [] {
      SameGroupsSameRows(keys[..|keys| - 1], a, b);
      assert Of(a, keys[|keys| - 1]) == Of(b, keys[|keys| - 1]);
    }
  }

  /** The rows do not depend on how the observations of different intervals interleave. */
  lemma InterleavingFree(a: seq<Observation>, b: seq<Observation>)
    requires forall key :: Of(a, key) == Of(b, key)
    ensures Intervals(a) == Intervals(b)
  {
    hide Of;
    forall key ensures key in Keys(a) <==> key in Keys(b) {
      KeysHaveObservations(a, key);
      KeysHaveObservations(b, key);
      assert Of(a, key) == Of(b, key);
    }
    KeysOnce(a);
    KeysOnce(b);
    SameMembers(Keys(a), Keys(b));
    KeysLinear();
    assert NoTies(KeyAtMost, Keys(a));
    SortIsCanonical(KeyAtMost, Keys(a), Keys(b));
    SameGroupsSameRows(Sort(KeyAtMost, Keys(a)), a, b);
  }

  function OfInstrument(rows: seq<Row>, instrument: string): seq<Row> {
    if rows == [] then []
    else
      OfInstrument(rows[..|rows| - 1], instrument)
      + if rows[|rows| - 1].key.instrument == instrument then [rows[|rows| - 1]] else []
  }

  function FirstRevisions(rows: seq<Row>): seq<real> {
    if rows == [] then []
    else
      var last := rows[|rows| - 1];
      FirstRevisions(rows[..|rows| - 1]) + if last.firstRevision.Some? then [last.firstRevision.value] else []
  }

  function LastRevisions(rows: seq<Row>): seq<real> {
    if rows == [] then []
    else
      var last := rows[|rows| - 1];
      LastRevisions(rows[..|rows| - 1]) + if last.lastRevision.Some? then [last.lastRevision.value] else []
  }

  predicate RevisionsOrdered(row: Row) {
    && (row.firstRevision.Some? <==> row.lastRevision.Some?)
    && (row.firstRevision.Some? ==> row.firstRevision.value <= row.lastRevision.value)
  }

  lemma {:induction false} GroupsKeepOrder(all: seq<Observation>, key: Key)
    requires Nondecreasing(all)
    ensures Nondecreasing(Of(all, key))
    ensures forall o :: o in Of(all, key) ==> o in all
  {
    if all != [] {
      var init, last := all[..|all| - 1], all[|all| - 1];
      GroupsKeepOrder(init, key);
      assert forall o :: o in init ==> o in all;
      assert forall o :: o in init ==> o.receipt <= last.receipt;
    }
  }

  lemma {:induction false} RowsOrdered(keys: seq<Key>, all: seq<Observation>)
    requires Nondecreasing(all)
    ensures forall row :: row in RowsOf(keys, all) ==> RevisionsOrdered(row)
  {
    if keys != [] {
      var key := keys[|keys| - 1];
      RowsOrdered(keys[..|keys| - 1], all);
      if Closed(Of(all, key)) != [] {
        GroupsKeepOrder(all, key);
        LagsOrdered(key, Of(all, key));
        RevisionsExist(key, Of(all, key));
      }
    }
  }

  lemma {:induction false} InstrumentRows(rows: seq<Row>, instrument: string)
    ensures forall row :: row in OfInstrument(rows, instrument) ==> row in rows
  {
    if rows != [] {
      InstrumentRows(rows[..|rows| - 1], instrument);
    }
  }

  lemma {:induction false} RevisionsPaired(rows: seq<Row>)
    requires forall row :: row in rows ==> RevisionsOrdered(row)
    ensures |FirstRevisions(rows)| == |LastRevisions(rows)|
    ensures forall i :: 0 <= i < |FirstRevisions(rows)| ==> FirstRevisions(rows)[i] <= LastRevisions(rows)[i]
  {
    if rows != [] {
      assert RevisionsOrdered(rows[|rows| - 1]);
      RevisionsPaired(rows[..|rows| - 1]);
    }
  }

  lemma LargestOrdered(a: seq<real>, b: seq<real>)
    requires |a| == |b| && a != [] && forall i :: 0 <= i < |a| ==> a[i] <= b[i]
    ensures Extremes.Largest(a) <= Extremes.Largest(b)
  {
    var i :| 0 <= i < |a| && a[i] == Extremes.Largest(a);
    assert a[i] <= b[i] <= Extremes.Largest(b);
  }

  /** The summary of an instrument counts as many first revisions as last ones, and every
      percentile that it reports of the first, and the maximum, is at most that of the last. */
  lemma SummaryOrdered(all: seq<Observation>, instrument: string, fraction: real)
    requires Nondecreasing(all) && 0.0 < fraction <= 1.0
    ensures var rows := OfInstrument(Intervals(all), instrument);
            var firsts, lasts := FirstRevisions(rows), LastRevisions(rows);
            var low, high := P.Percentile(firsts, fraction), P.Percentile(lasts, fraction);
            && |firsts| == |lasts|
            && (low.Some? <==> high.Some?) && (low.Some? ==> low.value <= high.value)
            && (firsts != [] ==> Extremes.Largest(firsts) <= Extremes.Largest(lasts))
  {
    var rows := OfInstrument(Intervals(all), instrument);
    RowsOrdered(Sort(KeyAtMost, Keys(all)), all);
    InstrumentRows(Intervals(all), instrument);
    RevisionsPaired(rows);
    if FirstRevisions(rows) != [] {
      P.Dominated(FirstRevisions(rows), LastRevisions(rows), fraction);
      LargestOrdered(FirstRevisions(rows), LastRevisions(rows));
    }
    hide OfInstrument, Intervals, FirstRevisions, LastRevisions;
  }
}
