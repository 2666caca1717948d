/** When the offline join succeeds and every record it then writes, in the terms of the lines
    of the ledgers and of the case file. */
module JoinedLinks {

  import opened Options
  import opened Sorting
  import opened TextOrder
  import opened CanonicalJoin

  // -------------------------------------------------------------------- the inputs

  function ReadLines(lines: seq<LedgerLine>): seq<Entry> {
    if lines == [] then []
    else if lines[0].Recorded? then [lines[0].entry] + ReadLines(lines[1..])
    else ReadLines(lines[1..])
  }

  /** The predictions of the ledgers, in the order of the paths and of the lines. */
  function ReadAll(ledgers: seq<Ledger>): seq<Entry> {
    if ledgers == [] then []
    else if ledgers[0].Lines? then ReadLines(ledgers[0].lines) + ReadAll(ledgers[1..])
    else ReadAll(ledgers[1..])
  }

  function RecordBefore(entries: seq<Entry>, k: nat): Option<string>
    requires k <= |entries|
  {
    if k == 0 then None else Some(entries[k - 1].record)
  }

  /** Numbered from one, each naming the record before it. */
  predicate Numbered(entries: seq<Entry>) { forall k :: 0 <= k < |entries| ==> InPlace(entries, k) }

  predicate InPlace(entries: seq<Entry>, k: nat)
    requires k < |entries|
  {
    entries[k].sequence == k + 1 && entries[k].previous == RecordBefore(entries, k)
  }

  predicate Whole(ledger: Ledger) {
    && ledger.Lines? && (forall k :: 0 <= k < |ledger.lines| ==> !ledger.lines[k].Malformed?)
    && Numbered(ReadLines(ledger.lines))
  }

  predicate NoneTwice(entries: seq<Entry>) {
    forall i, j :: 0 <= i < j < |entries| ==> entries[i].prediction.id != entries[j].prediction.id
  }

  predicate Covers(line: CaseLine, instrument: string, cutoff: int) {
    line.Completed? && line.completed.instrument == instrument && line.completed.cutoff == cutoff
  }

  /** Every line readable, and one case identity to an instrument and cutoff. */
  predicate Agreeing(lines: seq<CaseLine>) {
    && (forall i :: 0 <= i < |lines| ==> !lines[i].MalformedCase?)
    && (forall i, j :: 0 <= i < j < |lines| && lines[i].Completed? && lines[j].Completed?
                       && Covers(lines[j], lines[i].completed.instrument, lines[i].completed.cutoff) ==>
          lines[i].completed.id == lines[j].completed.id)
  }

  /** The last case of the prediction's instrument and cutoff, realized after the cutoff. */
  predicate IsOutcome(lines: seq<CaseLine>, p: Prediction, c: Case) {
    && c.realized > p.cutoff
    && exists i :: 0 <= i < |lines| && lines[i] == Completed(c) && Covers(lines[i], p.instrument, p.cutoff)
         && forall j :: i < j < |lines| ==> !Covers(lines[j], p.instrument, p.cutoff)
  }

  ghost predicate HasLater(lines: seq<CaseLine>, p: Prediction) { exists c :: IsOutcome(lines, p, c) }

  lemma {:induction false} ReadConcat(a: seq<LedgerLine>, b: seq<LedgerLine>)
    ensures ReadLines(a + b) == ReadLines(a) + ReadLines(b)
  {
    if a == [] {
      assert a + b == b;
    } else {
      assert (a + b)[0] == a[0] && (a + b)[1..] == a[1..] + b;
      ReadConcat(a[1..], b);
    }
  }

  lemma {:induction false} LinesAre(lines: seq<LedgerLine>)
    ensures EntriesIn(lines) == ReadLines(lines)
  {
    if lines != [] {
      var init, last := lines[..|lines| - 1], lines[|lines| - 1];
      LinesAre(init);
      ReadConcat(init, [last]);
      assert init + [last] == lines && [last][1..] == [];
    }
  }

  lemma {:induction false} AllConcat(a: seq<Ledger>, b: seq<Ledger>)
    ensures ReadAll(a + b) == ReadAll(a) + ReadAll(b)
  {
    hide ReadLines;
    if a == [] {
      assert a + b == b;
    } else {
      assert (a + b)[0] == a[0] && (a + b)[1..] == a[1..] + b;
      AllConcat(a[1..], b);
    }
  }

  lemma {:induction false} AllAre(ledgers: seq<Ledger>)
    ensures AllEntries(ledgers) == ReadAll(ledgers)
  {
    hide ReadLines, EntriesIn;
    if ledgers != [] {
      var init, last := ledgers[..|ledgers| - 1], ledgers[|ledgers| - 1];
      AllAre(init);
      AllConcat(init, [last]);
      assert init + [last] == ledgers && [last][1..] == [];
      if last.Lines? { LinesAre(last.lines); }
    }
  }

  lemma {:induction false} ChainedIs(entries: seq<Entry>)
    ensures Chained(entries) <==> Numbered(entries)
  {
    if entries != [] {
      var n := |entries| - 1;
      ChainedIs(entries[..n]);
      NumberedStep(entries);
    }
  }

  lemma NumberedStep(entries: seq<Entry>)
    requires entries != []
    ensures var n := |entries| - 1; Numbered(entries) <==> Numbered(entries[..n]) && InPlace(entries, n)
  {
    var n := |entries| - 1;
    forall k | 0 <= k < n ensures InPlace(entries[..n], k) <==> InPlace(entries, k) {}
    hide InPlace;
    if Numbered(entries[..n]) && InPlace(entries, n) {
      forall k | 0 <= k < |entries| ensures InPlace(entries, k) { assert k < n ==> InPlace(entries[..n], k); }
    }
  }

  lemma SoundIs(ledger: Ledger)
    ensures Sound(ledger) <==> Whole(ledger)
  {
    if ledger.Lines? {
      LinesAre(ledger.lines);
      ChainedIs(EntriesIn(ledger.lines));
    }
  }

  lemma OutcomeIs(lines: seq<CaseLine>, e: Entry, c: Case)
    ensures IsOutcome(lines, e.prediction, c) <==>
            IsLast(lines, PredictionSlot(e), c) && c.realized > e.prediction.cutoff
  {
  }

  lemma AgreeingIs(lines: seq<CaseLine>)
    ensures Agreeing(lines) <==> OneIdentityPerSlot(lines)
  {
    if Agreeing(lines) {
      forall i, j | 0 <= i < j < |lines| && SameSlot(lines[i], lines[j])
        ensures lines[i].completed.id == lines[j].completed.id
      {
        assert Covers(lines[j], lines[i].completed.instrument, lines[i].completed.cutoff);
      }
    }
    if OneIdentityPerSlot(lines) {
      forall i, j | 0 <= i < j < |lines| && lines[i].Completed? && lines[j].Completed?
                    && Covers(lines[j], lines[i].completed.instrument, lines[i].completed.cutoff)
        ensures lines[i].completed.id == lines[j].completed.id
      {
        assert SameSlot(lines[i], lines[j]);
      }
    }
  }

  /** The join succeeds exactly when it has no output yet, every ledger is whole, no prediction
      comes twice, the cases agree, and every prediction has a later outcome. */
  lemma JoinRuns(ledgers: seq<Ledger>, file: CaseFile, outputExists: bool, digest: Unsigned -> string)
    ensures Join(ledgers, file, outputExists, digest).Loaded? <==>
            && !outputExists && file.CaseLines? && Agreeing(file.lines)
            && (forall i :: 0 <= i < |ledgers| ==> Whole(ledgers[i]))
            && ReadAll(ledgers) != [] && NoneTwice(ReadAll(ledgers))
            && forall i :: 0 <= i < |ReadAll(ledgers)| ==> HasLater(file.lines, ReadAll(ledgers)[i].prediction)
  {
    hide ReadAll, AllEntries, Agreeing, OneIdentityPerSlot, Sound, Whole, Join, HasLater, LaterOutcome;
    AllAre(ledgers);
    JoinSucceeds(ledgers, file, outputExists, digest);
    var entries := AllEntries(ledgers);
    forall i | 0 <= i < |ledgers| ensures Sound(ledgers[i]) <==> Whole(ledgers[i]) { SoundIs(ledgers[i]); }
    NoneTwiceIs(entries);
    if file.CaseLines? {
      AgreeingIs(file.lines);
      forall i | 0 <= i < |entries|
        ensures LaterOutcome(file.lines, entries[i]) <==> HasLater(file.lines, entries[i].prediction)
      {
        LaterIs(file.lines, entries[i]);
      }
    }
  }

  lemma NoneTwiceIs(entries: seq<Entry>)
    ensures NoneTwice(entries) <==> OneEach(EntryId, entries)
  {
    if NoneTwice(entries) {
      forall i, j | 0 <= i < j < |entries| ensures EntryId(entries[i]) != EntryId(entries[j]) {}
    }
    if OneEach(EntryId, entries) {
      forall i, j | 0 <= i < j < |entries| ensures entries[i].prediction.id != entries[j].prediction.id {
        assert EntryId(entries[i]) != EntryId(entries[j]);
      }
    }
  }

  lemma LaterIs(lines: seq<CaseLine>, e: Entry)
    ensures LaterOutcome(lines, e) <==> HasLater(lines, e.prediction)
  {
    hide IsOutcome, IsLast;
    forall c ensures IsOutcome(lines, e.prediction, c) <==>
                     IsLast(lines, PredictionSlot(e), c) && c.realized > e.prediction.cutoff
    {
      OutcomeIs(lines, e, c);
    }
  }

  // ------------------------------------------------------------------- the records

  predicate TextBefore(a: string, b: string) { a != b && TextAtMost(a, b) }

  /** By cutoff, then instrument, then model, then identity. */
  predicate Before(p: Prediction, q: Prediction) {
    || p.cutoff < q.cutoff
    || (p.cutoff == q.cutoff
        && (|| TextBefore(p.instrument, q.instrument)
            || (p.instrument == q.instrument
                && (|| TextBefore(p.model, q.model)
                    || (p.model == q.model && TextBefore(p.id, q.id))))))
  }

  function HashBefore(links: seq<Link>, k: nat): Option<string>
    requires k <= |links|
  {
    if k == 0 then None else Some(links[k - 1].record)
  }

  /** Numbered from one, hashed, each naming the hash of the one before it. */
  predicate LinkedUp(digest: Unsigned -> string, links: seq<Link>) {
    forall k :: 0 <= k < |links| ==> InChain(digest, links, k)
  }

  predicate InChain(digest: Unsigned -> string, links: seq<Link>, k: nat)
    requires k < |links|
  {
    && links[k].body.sequence == k + 1 && links[k].record == digest(links[k].body)
    && links[k].body.previous == HashBefore(links, k)
  }

  predicate NoPairTwice(links: seq<Link>) {
    forall i, j :: 0 <= i < j < |links| ==>
      links[i].body.prediction != links[j].body.prediction || links[i].body.outcome != links[j].body.outcome
  }

  predicate HasPair(links: seq<Link>, prediction: string, outcome: string) {
    exists k :: 0 <= k < |links| && links[k].body.prediction == prediction && links[k].body.outcome == outcome
  }

  lemma {:induction false} IdentitiesAre(links: seq<Link>, prediction: string, outcome: string)
    ensures (prediction, outcome) in Identities(links) <==> HasPair(links, prediction, outcome)
  {
    if links != [] {
      var n := |links| - 1;
      IdentitiesAre(links[..n], prediction, outcome);
      assert forall k :: 0 <= k < n ==> links[..n][k] == links[k];
      if HasPair(links[..n], prediction, outcome) {
        var k :| 0 <= k < n && links[..n][k].body.prediction == prediction && links[..n][k].body.outcome == outcome;
        assert links[k].body.prediction == prediction;
      }
    }
  }

  lemma LinkedUpStep(digest: Unsigned -> string, links: seq<Link>)
    requires links != []
    ensures var n := |links| - 1; LinkedUp(digest, links) <==> LinkedUp(digest, links[..n]) && InChain(digest, links, n)
  {
    var n := |links| - 1;
    forall k | 0 <= k < n ensures InChain(digest, links[..n], k) <==> InChain(digest, links, k) {}
    hide InChain;
    if LinkedUp(digest, links[..n]) && InChain(digest, links, n) {
      forall k | 0 <= k < |links| ensures InChain(digest, links, k) { assert k < n ==> InChain(digest, links[..n], k); }
    }
  }

  lemma NoPairStep(links: seq<Link>)
    requires links != []
    ensures var n := |links| - 1;
            NoPairTwice(links) <==>
            NoPairTwice(links[..n]) && !HasPair(links[..n], links[n].body.prediction, links[n].body.outcome)
  {
    var n := |links| - 1;
    assert forall k :: 0 <= k < n ==> links[..n][k] == links[k];
  }

  /** A ledger reopens exactly when its records are linked up and no pair comes twice. */
  lemma {:induction false} ReopensExactly(digest: Unsigned -> string, links: seq<Link>)
    ensures WellFormed(digest, links) <==> LinkedUp(digest, links) && NoPairTwice(links)
  {
    hide LinkedUp, NoPairTwice, HasPair, Identities;
    if links == [] {
      assert LinkedUp(digest, links) && NoPairTwice(links) by { NothingLinked(digest, links); }
    } else {
      var n := |links| - 1;
      ReopensExactly(digest, links[..n]);
      LinkedUpStep(digest, links);
      NoPairStep(links);
      IdentitiesAre(links[..n], links[n].body.prediction, links[n].body.outcome);
    }
  }

  lemma NothingLinked(digest: Unsigned -> string, links: seq<Link>)
    requires links == []
    ensures LinkedUp(digest, links) && NoPairTwice(links)
  {
  }

  /** `ordered` are the predictions of `entries`, each once, in the order of the key. */
  ghost predicate Arranges(ordered: seq<Entry>, entries: seq<Entry>) {
    && |ordered| == |entries| && (forall e :: e in ordered <==> e in entries)
    && forall i, j :: 0 <= i < j < |ordered| ==> Before(ordered[i].prediction, ordered[j].prediction)
  }

  predicate Links(links: seq<Link>, ordered: seq<Entry>, outcomes: seq<Case>) {
    && |links| == |ordered| == |outcomes|
    && forall k :: 0 <= k < |links| ==>
         && links[k].body.prediction == ordered[k].prediction.id && links[k].body.outcome == outcomes[k].id
         && links[k].body.linkedAt == outcomes[k].realized
  }

  /** Each prediction has its outcome. */
  predicate Resolved(lines: seq<CaseLine>, ordered: seq<Entry>, outcomes: seq<Case>) {
    |outcomes| == |ordered| && forall k :: 0 <= k < |ordered| ==> IsOutcome(lines, ordered[k].prediction, outcomes[k])
  }

  function EntriesOfMatches(ms: seq<Match>): (r: seq<Entry>)
    ensures |r| == |ms| && forall k :: 0 <= k < |ms| ==> r[k] == ms[k].entry
  {
    seq(|ms|, k requires 0 <= k < |ms| => ms[k].entry)
  }

  function CasesOfMatches(ms: seq<Match>): (r: seq<Case>)
    ensures |r| == |ms| && forall k :: 0 <= k < |ms| ==> r[k] == ms[k].outcome
  {
    seq(|ms|, k requires 0 <= k < |ms| => ms[k].outcome)
  }

  lemma SortedBefore(x: Match, y: Match)
    requires MatchAtMost(x, y) && MatchId(x) != MatchId(y)
    ensures Before(x.entry.prediction, y.entry.prediction)
  {
    hide TextAtMost;
  }

  lemma MatchesArranged(entries: seq<Entry>, cases: map<Slot, Case>)
    requires Distinct(entries) && Joinable(entries, cases)
    ensures Arranges(EntriesOfMatches(Sort(MatchAtMost, Matches(entries, cases))), entries)
  {
    hide Matches, Distinct, Joinable, Sort, MatchAtMost, Before;
    var ms := Matches(entries, cases);
    var sorted := Sort(MatchAtMost, ms);
    MatchesAre(entries, cases);
    MatchesOnce(entries, cases);
    var ordered := EntriesOfMatches(sorted);
    forall e ensures e in ordered <==> e in entries {
      if e in entries {
        var k :| 0 <= k < |entries| && entries[k] == e;
        SameElements(sorted, ms, ms[k]);
        var j :| 0 <= j < |sorted| && sorted[j] == ms[k];
        assert ordered[j] == e;
      }
      if e in ordered {
        var j :| 0 <= j < |ordered| && ordered[j] == e;
        SameElements(sorted, ms, sorted[j]);
      }
    }
    forall i, j | 0 <= i < j < |ordered| ensures Before(ordered[i].prediction, ordered[j].prediction) {
      assert MatchAtMost(sorted[i], sorted[j]) && MatchId(sorted[i]) != MatchId(sorted[j]);
      SortedBefore(sorted[i], sorted[j]);
    }
  }

  lemma MatchesResolved(lines: seq<CaseLine>, entries: seq<Entry>)
    requires CasesIn(lines).Loaded? && Distinct(entries) && Joinable(entries, CasesIn(lines).value)
    ensures var sorted := Sort(MatchAtMost, Matches(entries, CasesIn(lines).value));
            Resolved(lines, EntriesOfMatches(sorted), CasesOfMatches(sorted))
  {
    CasesLoaded(lines);
    hide CasesIn, Matches, Distinct, Sort, MatchAtMost, IsLast, IsOutcome, OneIdentityPerSlot;
    var cases := CasesIn(lines).value;
    var ms := Matches(entries, cases);
    var sorted := Sort(MatchAtMost, ms);
    MatchesAre(entries, cases);
    MatchesOnce(entries, cases);
    forall k | 0 <= k < |sorted| ensures IsOutcome(lines, sorted[k].entry.prediction, sorted[k].outcome) {
      SameElements(sorted, ms, sorted[k]);
      var i :| 0 <= i < |ms| && ms[i] == sorted[k];
      assert HasOutcome(entries[i], cases);
      OutcomeIs(lines, entries[i], sorted[k].outcome);
    }
  }

  /** A join that succeeds writes one record for each prediction, in ascending cutoff, then
      instrument, then model, then identity, numbered, hashed and linked up, each naming the
      prediction, its last case and the time of that outcome. */
  lemma JoinWrites(ledgers: seq<Ledger>, file: CaseFile, outputExists: bool, digest: Unsigned -> string)
    requires Join(ledgers, file, outputExists, digest).Loaded?
    ensures var links := Join(ledgers, file, outputExists, digest).value;
            && file.CaseLines? && LinkedUp(digest, links) && NoPairTwice(links)
            && exists ordered: seq<Entry>, outcomes: seq<Case> ::
                 Arranges(ordered, ReadAll(ledgers)) && Resolved(file.lines, ordered, outcomes)
                 && Links(links, ordered, outcomes)
  {
    hide Readable, AllEntries, ReadAll, CasesIn, Sort, Matches, WellFormed, Joinable, Written, MatchAtMost;
    hide Arranges, Resolved, LinkedUp, NoPairTwice, OneEach, Distinct;
    AllAre(ledgers);
    ReadableIsDistinct(ledgers);
    var entries, cases := AllEntries(ledgers), CasesIn(file.lines).value;
    var sorted := Sort(MatchAtMost, Matches(entries, cases));
    MatchesArranged(entries, cases);
    MatchesResolved(file.lines, entries);
    MatchesOnce(entries, cases);
    WrittenRecords(digest, sorted);
    WrittenWell(digest, sorted);
    ReopensExactly(digest, Written(digest, sorted));
    assert Links(Written(digest, sorted), EntriesOfMatches(sorted), CasesOfMatches(sorted));
  }
}
