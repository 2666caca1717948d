/** What the revision timing analysis reports, in the terms of the observations themselves. */
module RevisionRows {

  import opened Options
  import Extremes
  import opened Sorting
  import opened TextOrder
  import opened RevisionTiming

  // ------------------------------------------------------------------ one interval

  predicate Covers(o: Observation, key: Key) { o.instrument == key.instrument && o.end == key.end }

  /** The observations of an interval, and those of them that were closed, in order. */
  function Raw(all: seq<Observation>, key: Key): seq<Observation> {
    if all == [] then []
    else if Covers(all[0], key) then [all[0]] + Raw(all[1..], key)
    else Raw(all[1..], key)
  }

  function Bars(all: seq<Observation>, key: Key): seq<Observation> {
    if all == [] then []
    else if Covers(all[0], key) && all[0].closed then [all[0]] + Bars(all[1..], key)
    else Bars(all[1..], key)
  }

  /** The receipt less the interval end, or nothing when that is negative. */
  predicate IsLag(lag: real, receipt: real, end: real) {
    if receipt <= end then lag == 0.0 else lag == receipt - end
  }

  predicate Reports(lag: Option<real>, s: seq<Observation>, i: nat, end: real) {
    i < |s| && lag.Some? && IsLag(lag.value, s[i].receipt, end)
  }

  predicate Revises(s: seq<Observation>, i: nat) { i < |s| && s[i].version != s[0].version }

  predicate CarriedBefore(s: seq<Observation>, i: nat) {
    i < |s| && exists j :: 0 <= j < i && s[j].version == s[i].version && s[j].response != s[i].response
  }

  /** The final version, in a response other than the first to carry it. */
  predicate Confirms(s: seq<Observation>, i: nat) {
    && i < |s| && s[i].version == s[|s| - 1].version
    && exists j :: 0 <= j < i && s[j].version == s[i].version && s[j].response != s[i].response
                   && forall k :: 0 <= k < j ==> s[k].version != s[i].version
  }

  predicate IsFirstRevision(lag: Option<real>, s: seq<Observation>, end: real) {
    if lag.None? then forall i :: 0 <= i < |s| ==> !Revises(s, i)
    else
      exists i :: 0 <= i < |s| && Reports(lag, s, i, end) && Revises(s, i) && forall j :: 0 <= j < i ==> !Revises(s, j)
  }

  predicate IsLastRevision(lag: Option<real>, s: seq<Observation>, end: real) {
    if lag.None? then forall i :: 0 <= i < |s| ==> !Revises(s, i)
    else
      exists i :: 0 <= i < |s| && Reports(lag, s, i, end) && Revises(s, i) && forall j :: i < j < |s| ==> !Revises(s, j)
  }

  predicate IsFirstRepeated(lag: Option<real>, s: seq<Observation>, end: real) {
    if lag.None? then forall i :: 0 <= i < |s| ==> !CarriedBefore(s, i)
    else
      exists i :: 0 <= i < |s| && Reports(lag, s, i, end) && CarriedBefore(s, i)
        && forall j :: 0 <= j < i ==> !CarriedBefore(s, j)
  }

  predicate IsSecondTerminal(lag: Option<real>, s: seq<Observation>, end: real) {
    if lag.None? then forall i :: 0 <= i < |s| ==> !Confirms(s, i)
    else
      exists i :: 0 <= i < |s| && Reports(lag, s, i, end) && Confirms(s, i)
        && forall j :: 0 <= j < i ==> !Confirms(s, j)
  }

  predicate NewVersion(s: seq<Observation>, i: nat) {
    i < |s| && forall j :: 0 <= j < i ==> s[j].version != s[i].version
  }

  /** The version, in a response that had not carried it. */
  predicate NewResponse(s: seq<Observation>, i: nat, version: string) {
    && i < |s| && s[i].version == version
    && forall j :: 0 <= j < i && s[j].version == version ==> s[j].response != s[i].response
  }

  function VersionCount(s: seq<Observation>, n: nat): nat {
    if n == 0 then 0 else VersionCount(s, n - 1) + if NewVersion(s, n - 1) then 1 else 0
  }

  function ResponseCount(s: seq<Observation>, version: string, n: nat): nat {
    if n == 0 then 0 else ResponseCount(s, version, n - 1) + if NewResponse(s, n - 1, version) then 1 else 0
  }

  predicate IsRow(row: Row, all: seq<Observation>) {
    var s, end := Bars(all, row.key), row.key.end;
    && s != [] && row.raw == |Raw(all, row.key)| && row.closed == |s| && row.versions == VersionCount(s, |s|)
    && IsLag(row.firstClose, s[0].receipt, end)
    && IsFirstRevision(row.firstRevision, s, end) && IsLastRevision(row.lastRevision, s, end)
    && IsFirstRepeated(row.firstRepeated, s, end) && IsSecondTerminal(row.secondTerminal, s, end)
    && row.confirmations == ResponseCount(s, s[|s| - 1].version, |s|)
  }

  lemma {:induction false} RawConcat(a: seq<Observation>, b: seq<Observation>, key: Key)
    ensures Raw(a + b, key) == Raw(a, key) + Raw(b, key)
    ensures Bars(a + b, key) == Bars(a, key) + Bars(b, key)
  {
    hide Covers;
    if a == [] {
      assert a + b == b;
    } else {
      assert (a + b)[0] == a[0] && (a + b)[1..] == a[1..] + b;
      RawConcat(a[1..], b, key);
    }
  }

  lemma ClosedConcat(a: seq<Observation>, b: seq<Observation>)
    requires |b| <= 1
    ensures Closed(a + b) == Closed(a) + if b != [] && b[0].closed then b else []
  {
    if b == [] {
      assert a + b == a;
    } else {
      assert (a + b)[..|a + b| - 1] == a && b == [b[0]];
    }
  }

  lemma {:induction false} BarsAre(all: seq<Observation>, key: Key)
    ensures Of(all, key) == Raw(all, key) && Closed(Of(all, key)) == Bars(all, key)
  {
    hide Closed;
    if all == [] {
      assert Closed([]) == [] by { ClosedConcat([], []); NothingClosed(); }
    } else {
      var init, last := all[..|all| - 1], all[|all| - 1];
      BarsAre(init, key);
      RawConcat(init, [last], key);
      assert init + [last] == all && [last][1..] == [];
      ClosedConcat(Of(init, key), if KeyOf(last) == key then [last] else []);
    }
  }

  lemma NothingClosed()
    ensures Closed([]) == []
  {
  }

  lemma LagIs(receipt: real, end: real)
    ensures IsLag(Lag(Some(receipt), end).value, receipt, end)
  {
  }

  lemma VersionsStep(s: seq<Observation>, n: nat)
    requires n < |s|
    ensures Versions(s[..n + 1]) == Versions(s[..n]) + {s[n].version}
    ensures NewVersion(s, n) <==> s[n].version !in Versions(s[..n])
  {
    var init, next := s[..n], s[..n + 1];
    assert next == init + [s[n]];
    forall v ensures v in Versions(next) <==> v in Versions(init) || v == s[n].version {
      if v in Versions(init) {
        var j :| 0 <= j < n && init[j].version == v;
        assert next[j].version == v;
      }
      if v == s[n].version { assert next[n].version == v; }
    }
    assert forall j :: 0 <= j < n ==> init[j] == s[j];
  }

  lemma {:induction false} VersionsCounted(s: seq<Observation>, n: nat)
    requires n <= |s|
    ensures |Versions(s[..n])| == VersionCount(s, n)
  {
    if n == 0 {
      assert Versions(s[..0]) == {};
    } else {
      VersionsCounted(s, n - 1);
      VersionsStep(s, n - 1);
      hide Versions, NewVersion;
      var before := Versions(s[..n - 1]);
      assert s[n - 1].version in before ==> before + {s[n - 1].version} == before;
    }
  }

  lemma {:induction false} ResponsesCounted(s: seq<Observation>, version: string, n: nat)
    requires n <= |s|
    ensures |Occurrences(s[..n], version)| == ResponseCount(s, version, n)
  {
    if n > 0 {
      ResponsesCounted(s, version, n - 1);
      var init := s[..n - 1];
      assert s[..n][..n - 1] == init;
      ResponsesAre(init, version, s[n - 1].response);
      assert forall j :: 0 <= j < n - 1 ==> init[j] == s[j];
    }
  }

  lemma RevisionsAre(s: seq<Observation>, end: real)
    requires s != []
    ensures FirstOther(s, s[0].version).Some? ==> FirstOther(s, s[0].version).value < |s|
    ensures LastOther(s, s[0].version).Some? ==> LastOther(s, s[0].version).value < |s|
    ensures IsFirstRevision(Lag(ReceiptAt(s, FirstOther(s, s[0].version)), end), s, end)
    ensures IsLastRevision(Lag(ReceiptAt(s, LastOther(s, s[0].version)), end), s, end)
  {
    var first := s[0].version;
    OthersFound(s, first);
    hide FirstOther, LastOther;
    if FirstOther(s, first).Some? {
      var i, j := FirstOther(s, first).value, LastOther(s, first).value;
      LagIs(s[i].receipt, end);
      LagIs(s[j].receipt, end);
      assert Reports(Lag(ReceiptAt(s, Some(i)), end), s, i, end) && Reports(Lag(ReceiptAt(s, Some(j)), end), s, j, end);
    }
  }

  lemma RepeatedIs(s: seq<Observation>, end: real)
    ensures FirstRepeat(s).Some? ==> FirstRepeat(s).value < |s|
    ensures IsFirstRepeated(Lag(ReceiptAt(s, FirstRepeat(s)), end), s, end)
  {
    FirstRepeatIsRepeat(s);
    hide FirstRepeat;
    assert forall i :: 0 <= i < |s| ==> (Repeats(s, i) <==> CarriedBefore(s, i));
    if FirstRepeat(s).Some? {
      var i := FirstRepeat(s).value;
      LagIs(s[i].receipt, end);
      assert Reports(Lag(ReceiptAt(s, Some(i)), end), s, i, end);
    }
  }

  /** Every place with the version is an occurrence or repeats the response of an earlier one. */
  lemma {:induction false} OccurrencesCover(s: seq<Observation>, version: string, i: nat)
    requires i < |s| && s[i].version == version
    ensures exists k :: 0 <= k < |Occurrences(s, version)| && Occurrences(s, version)[k] < |s|
              && Occurrences(s, version)[k] <= i && s[Occurrences(s, version)[k]].response == s[i].response
  {
    var init, last := s[..|s| - 1], s[|s| - 1];
    var before, all := Occurrences(init, version), Occurrences(s, version);
    OccurrencesBounded(init, version);
    if i < |init| {
      OccurrencesCover(init, version, i);
      var k :| 0 <= k < |before| && before[k] < |init| && before[k] <= i
        && init[before[k]].response == init[i].response;
      assert all[k] == before[k];
    } else if last.response in Responses(init, version) {
      ResponsesAre(init, version, last.response);
      var j :| 0 <= j < |init| && init[j].version == version && init[j].response == last.response;
      OccurrencesCover(init, version, j);
      var k :| 0 <= k < |before| && before[k] < |init| && before[k] <= j
        && init[before[k]].response == init[j].response;
      assert all[k] == before[k];
    } else {
      assert all[|before|] == i;
    }
  }

  lemma SecondIs(s: seq<Observation>, end: real)
    requires s != []
    ensures var seen := Occurrences(s, s[|s| - 1].version); |seen| >= 2 ==> 0 <= seen[1] < |s|
    ensures var seen := Occurrences(s, s[|s| - 1].version);
            IsSecondTerminal(Lag(ReceiptAt(s, if |seen| >= 2 then Some(seen[1]) else None), end), s, end)
  {
    var terminal := s[|s| - 1].version;
    var seen := Occurrences(s, terminal);
    OccurrencesCarry(s, terminal);
    OccurrencesCover(s, terminal, |s| - 1);
    FirstOccurrence(s, terminal);
    forall i | 0 <= i < |s| && Confirms(s, i) ensures |seen| >= 2 && seen[1] <= i {
      ConfirmsLater(s, i);
    }
    if |seen| >= 2 {
      SecondConfirms(s);
      LagIs(s[seen[1]].receipt, end);
      assert Reports(Lag(ReceiptAt(s, Some(seen[1])), end), s, seen[1], end);
    }
  }

  lemma FirstOccurrence(s: seq<Observation>, version: string)
    requires Occurrences(s, version) != []
    ensures 0 <= Occurrences(s, version)[0] < |s|
    ensures forall i :: 0 <= i < Occurrences(s, version)[0] ==> s[i].version != version
  {
    OccurrencesCarry(s, version);
    var seen := Occurrences(s, version);
    forall i | 0 <= i < seen[0] ensures s[i].version != version {
      if s[i].version == version {
        OccurrencesCover(s, version, i);
        assert false;
      }
    }
  }

  lemma SecondConfirms(s: seq<Observation>)
    requires s != [] && |Occurrences(s, s[|s| - 1].version)| >= 2
    ensures 0 <= Occurrences(s, s[|s| - 1].version)[1] < |s|
    ensures Confirms(s, Occurrences(s, s[|s| - 1].version)[1])
  {
    var terminal := s[|s| - 1].version;
    OccurrencesCarry(s, terminal);
    FirstOccurrence(s, terminal);
    var seen := Occurrences(s, terminal);
    assert s[seen[0]].version == terminal && s[seen[0]].response != s[seen[1]].response;
  }

  lemma ConfirmsLater(s: seq<Observation>, i: nat)
    requires i < |s| && Confirms(s, i)
    ensures var seen := Occurrences(s, s[|s| - 1].version); |seen| >= 2 && seen[1] <= i
  {
    var terminal := s[|s| - 1].version;
    var seen := Occurrences(s, terminal);
    OccurrencesCarry(s, terminal);
    OccurrencesCover(s, terminal, i);
    FirstOccurrence(s, terminal);
    var k :| 0 <= k < |seen| && seen[k] < |s| && seen[k] <= i && s[seen[k]].response == s[i].response;
    var j :| 0 <= j < i && s[j].version == s[i].version && s[j].response != s[i].response
      && forall m :: 0 <= m < j ==> s[m].version != s[i].version;
    assert s[seen[0]].version == terminal;
    assert !(seen[0] < j) && !(j < seen[0]);
    assert k > 0;
    assert k > 1 ==> seen[1] < seen[k];
  }

  /** A row reports, of the closed bars of its interval, the lags of the first receipt, of the
      first and last other version, of the first repeat of a version and of the second response
      with the final one, each exactly when there is such a bar, and the counts. */
  lemma RowIs(all: seq<Observation>, key: Key)
    requires Bars(all, key) != []
    ensures Closed(Of(all, key)) != [] && RowOf(key, Of(all, key)).key == key
    ensures IsRow(RowOf(key, Of(all, key)), all)
  {
    BarsAre(all, key);
    var s := Bars(all, key);
    hide Bars, Raw, Of, Closed, Occurrences, Versions;
    hide IsFirstRevision, IsLastRevision, IsFirstRepeated, IsSecondTerminal;
    RevisionsAre(s, key.end);
    RepeatedIs(s, key.end);
    SecondIs(s, key.end);
    LagIs(s[0].receipt, key.end);
    VersionsCounted(s, |s|);
    ResponsesCounted(s, s[|s| - 1].version, |s|);
    assert s[..|s|] == s;
  }

  // -------------------------------------------------------------- the whole analysis

  /** By instrument, and then by interval end. */
  predicate KeyBefore(a: Key, b: Key) {
    || (a.instrument != b.instrument && TextAtMost(a.instrument, b.instrument))
    || (a.instrument == b.instrument && a.end < b.end)
  }

  predicate KeysAscend(keys: seq<Key>) { forall i, j :: 0 <= i < j < |keys| ==> KeyBefore(keys[i], keys[j]) }

  predicate RowsAscend(rows: seq<Row>) { forall i, j :: 0 <= i < j < |rows| ==> KeyBefore(rows[i].key, rows[j].key) }

  predicate HasRow(rows: seq<Row>, key: Key) { exists i :: 0 <= i < |rows| && rows[i].key == key }

  lemma BoundaryIs(all: seq<Observation>, terminal: real)
    ensures all != [] && terminal < Extremes.Largest(Receipts(all)) <==>
            exists i :: 0 <= i < |all| && all[i].receipt > terminal
  {
    var receipts := Receipts(all);
    if all != [] {
      var i :| 0 <= i < |receipts| && receipts[i] == Extremes.Largest(receipts);
      assert all[i].receipt == receipts[i];
      assert forall j :: 0 <= j < |all| ==> receipts[j] == all[j].receipt;
    }
  }

  lemma SortedKeysAscend(all: seq<Observation>)
    ensures KeysAscend(Sort(KeyAtMost, Keys(all)))
    ensures forall key :: key in Sort(KeyAtMost, Keys(all)) <==> key in Keys(all)
  {
    KeysLinear();
    KeysOnce(all);
    SortSorts(KeyAtMost, Keys(all));
    var keys := Sort(KeyAtMost, Keys(all));
    hide Sort, Keys, TextAtMost;
    forall i, j | 0 <= i < j < |keys| ensures KeyBefore(keys[i], keys[j]) {
      assert KeyAtMost(keys[i], keys[j]);
      if keys[i] == keys[j] { TwiceIn(keys, i, j); }
    }
    forall key ensures key in keys <==> key in Keys(all) { SameElements(keys, Keys(all), key); }
  }

  lemma TwiceIn(s: seq<Key>, i: nat, j: nat)
    requires i < j < |s| && s[i] == s[j]
    ensures multiset(s)[s[i]] >= 2
  {
    assert s == s[..i] + [s[i]] + s[i + 1..j] + [s[j]] + s[j + 1..];
  }

  lemma RowAdded(keys: seq<Key>, all: seq<Observation>)
    requires keys != []
    ensures var n := |keys| - 1;
            if Bars(all, keys[n]) == [] then RowsOf(keys, all) == RowsOf(keys[..n], all)
            else
              exists row: Row ::
                row.key == keys[n] && IsRow(row, all) && RowsOf(keys, all) == RowsOf(keys[..n], all) + [row]
  {
    var key := keys[|keys| - 1];
    BarsAre(all, key);
    if Bars(all, key) != [] { RowIs(all, key); }
    hide IsRow, RowOf, Bars, Closed, Of;
  }

  predicate RowOfKeys(row: Row, keys: seq<Key>, all: seq<Observation>) { IsRow(row, all) && row.key in keys }

  lemma {:induction false} RowsCome(keys: seq<Key>, all: seq<Observation>)
    ensures var rows := RowsOf(keys, all); forall i :: 0 <= i < |rows| ==> RowOfKeys(rows[i], keys, all)
  {
    if keys != [] {
      hide IsRow, RowsOf, RowOfKeys, Bars;
      var init := keys[..|keys| - 1];
      RowsCome(init, all);
      RowAdded(keys, all);
      forall row | RowOfKeys(row, init, all) ensures RowOfKeys(row, keys, all) { StillOf(row, keys, all); }
      forall row: Row | row.key == keys[|keys| - 1] && IsRow(row, all) ensures RowOfKeys(row, keys, all) {
        LastOf(row, keys, all);
      }
    } else {
      assert RowsOf(keys, all) == [];
    }
  }

  lemma StillOf(row: Row, keys: seq<Key>, all: seq<Observation>)
    requires keys != [] && RowOfKeys(row, keys[..|keys| - 1], all)
    ensures RowOfKeys(row, keys, all)
  {
    hide IsRow;
  }

  lemma LastOf(row: Row, keys: seq<Key>, all: seq<Observation>)
    requires keys != [] && row.key == keys[|keys| - 1] && IsRow(row, all)
    ensures RowOfKeys(row, keys, all)
  {
    hide IsRow;
  }

  lemma {:induction false} KeysHaveRows(keys: seq<Key>, all: seq<Observation>, k: nat)
    requires k < |keys| && Bars(all, keys[k]) != []
    ensures HasRow(RowsOf(keys, all), keys[k])
  {
    hide IsRow, RowsOf, Bars, HasRow;
    var n := |keys| - 1;
    RowAdded(keys, all);
    if k < n {
      KeysHaveRows(keys[..n], all, k);
      StillHas(RowsOf(keys[..n], all), RowsOf(keys, all), keys[k]);
    } else {
      LastHas(RowsOf(keys, all), keys[n]);
    }
  }

  lemma StillHas(before: seq<Row>, rows: seq<Row>, key: Key)
    requires before <= rows && HasRow(before, key)
    ensures HasRow(rows, key)
  {
    var i :| 0 <= i < |before| && before[i].key == key;
    assert rows[i].key == key;
  }

  lemma LastHas(rows: seq<Row>, key: Key)
    requires rows != [] && rows[|rows| - 1].key == key
    ensures HasRow(rows, key)
  {
  }

  lemma {:induction false} RowsInOrder(keys: seq<Key>, all: seq<Observation>)
    requires KeysAscend(keys)
    ensures RowsAscend(RowsOf(keys, all))
  {
    if keys != [] {
      hide IsRow, RowsOf, Bars, KeysAscend, RowsAscend, RowOfKeys;
      var n := |keys| - 1;
      KeysAscendStep(keys);
      RowsInOrder(keys[..n], all);
      RowsCome(keys[..n], all);
      RowAdded(keys, all);
      forall row | RowOfKeys(row, keys[..n], all) ensures KeyBefore(row.key, keys[n]) {
        ComesBefore(row, keys, all);
      }
      RowsAscendStep(RowsOf(keys[..n], all), keys[n]);
    } else {
      assert RowsOf(keys, all) == [];
    }
  }

  lemma KeysAscendStep(keys: seq<Key>)
    requires keys != [] && KeysAscend(keys)
    ensures KeysAscend(keys[..|keys| - 1]) && forall k :: 0 <= k < |keys| - 1 ==> KeyBefore(keys[k], keys[|keys| - 1])
  {
    hide KeyBefore;
  }

  lemma ComesBefore(row: Row, keys: seq<Key>, all: seq<Observation>)
    requires keys != [] && RowOfKeys(row, keys[..|keys| - 1], all)
    requires forall k :: 0 <= k < |keys| - 1 ==> KeyBefore(keys[k], keys[|keys| - 1])
    ensures KeyBefore(row.key, keys[|keys| - 1])
  {
    hide IsRow, KeyBefore;
    var k :| 0 <= k < |keys| - 1 && keys[..|keys| - 1][k] == row.key;
    assert keys[k] == row.key;
  }

  lemma RowsAscendStep(rows: seq<Row>, key: Key)
    requires RowsAscend(rows) && forall i :: 0 <= i < |rows| ==> KeyBefore(rows[i].key, key)
    ensures forall row: Row :: row.key == key ==> RowsAscend(rows + [row])
  {
    hide KeyBefore;
  }

  lemma {:induction false} BarsHave(all: seq<Observation>, key: Key, i: nat)
    requires i < |all| && all[i].closed && Covers(all[i], key)
    ensures Bars(all, key) != []
  {
    if i > 0 { BarsHave(all[1..], key, i - 1); }
  }

  lemma BarsHaveKey(all: seq<Observation>, key: Key)
    requires Bars(all, key) != []
    ensures key in Keys(all)
  {
    hide Keys, Bars;
    BarsAre(all, key);
    KeysHaveObservations(all, key);
    NothingClosed();
  }

  /** The analysis is refused exactly when a receipt is later than its boundary. Otherwise it
      reports one row for each interval with a closed bar, by instrument and then by end. */
  lemma AnalysisIs(all: seq<Observation>)
    ensures var rows := Intervals(all);
            && RowsAscend(rows) && (forall i :: 0 <= i < |rows| ==> IsRow(rows[i], all))
            && forall i :: 0 <= i < |all| && all[i].closed ==> HasRow(rows, Key(all[i].instrument, all[i].end))
  {
    hide Sort, Keys, RowsOf, Bars, IsRow, HasRow, RowsAscend;
    SortedKeysAscend(all);
    var keys := Sort(KeyAtMost, Keys(all));
    RowsCome(keys, all);
    RowsInOrder(keys, all);
    forall i | 0 <= i < |all| && all[i].closed
      ensures HasRow(Intervals(all), Key(all[i].instrument, all[i].end))
    {
      var key := KeyOf(all[i]);
      BarsHave(all, key, i);
      BarsHaveKey(all, key);
      var k :| 0 <= k < |keys| && keys[k] == key;
      KeysHaveRows(keys, all, k);
    }
  }

  // ------------------------------------------------------------------- the summary

  function Figure(lag: Option<real>): seq<real> { if lag.Some? then [lag.value] else [] }

  /** The first and the last revision lags of an instrument's rows, in their order. */
  function FirstLags(rows: seq<Row>, instrument: string): seq<real> {
    if rows == [] then []
    else
      (if rows[0].key.instrument == instrument then Figure(rows[0].firstRevision) else [])
      + FirstLags(rows[1..], instrument)
  }

  function LastLags(rows: seq<Row>, instrument: string): seq<real> {
    if rows == [] then []
    else
      (if rows[0].key.instrument == instrument then Figure(rows[0].lastRevision) else [])
      + LastLags(rows[1..], instrument)
  }

  lemma {:induction false} LagsConcat(a: seq<Row>, b: seq<Row>, instrument: string)
    ensures FirstLags(a + b, instrument) == FirstLags(a, instrument) + FirstLags(b, instrument)
    ensures LastLags(a + b, instrument) == LastLags(a, instrument) + LastLags(b, instrument)
  {
    hide Figure;
    if a == [] {
      assert a + b == b;
    } else {
      assert (a + b)[0] == a[0] && (a + b)[1..] == a[1..] + b;
      LagsConcat(a[1..], b, instrument);
    }
  }

  lemma RevisionsStep(rows: seq<Row>, last: Row)
    ensures FirstRevisions(rows + [last]) == FirstRevisions(rows) + Figure(last.firstRevision)
    ensures LastRevisions(rows + [last]) == LastRevisions(rows) + Figure(last.lastRevision)
  {
    assert (rows + [last])[..|rows|] == rows;
  }

  /** The figures the summary of an instrument is made of. */
  lemma {:induction false} SummarizedAre(rows: seq<Row>, instrument: string)
    ensures FirstRevisions(OfInstrument(rows, instrument)) == FirstLags(rows, instrument)
    ensures LastRevisions(OfInstrument(rows, instrument)) == LastLags(rows, instrument)
  {
    if rows != [] {
      hide FirstRevisions, LastRevisions, FirstLags, LastLags, Figure;
      var init, last := rows[..|rows| - 1], rows[|rows| - 1];
      SummarizedAre(init, instrument);
      LagsConcat(init, [last], instrument);
      assert init + [last] == rows;
      OneLag(last, instrument);
      KeptStep(rows, instrument);
      hide OfInstrument;
      if last.key.instrument == instrument {
        RevisionsStep(OfInstrument(init, instrument), last);
      } else {
        assert FirstLags(init, instrument) + [] == FirstLags(init, instrument);
        assert LastLags(init, instrument) + [] == LastLags(init, instrument);
      }
    }
  }

  lemma KeptStep(rows: seq<Row>, instrument: string)
    requires rows != []
    ensures var init, last := rows[..|rows| - 1], rows[|rows| - 1];
            OfInstrument(rows, instrument)
            == if last.key.instrument == instrument then OfInstrument(init, instrument) + [last]
               else OfInstrument(init, instrument)
  {
  }

  lemma OneLag(row: Row, instrument: string)
    ensures FirstLags([row], instrument) == if row.key.instrument == instrument then Figure(row.firstRevision) else []
    ensures LastLags([row], instrument) == if row.key.instrument == instrument then Figure(row.lastRevision) else []
  {
    assert [row][1..] == [];
  }
}
