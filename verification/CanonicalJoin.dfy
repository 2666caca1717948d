/** The offline join of sealed prediction ledgers with completed cases, and the outcome
    link ledger it writes. */
module CanonicalJoin {

  import opened Options
  import opened Sorting
  import opened TextOrder

  /** `Refused` stands for every raised refusal. */
  datatype Outcome<T> = Refused | Loaded(value: T)

  datatype Prediction = Prediction(id: string, instrument: string, model: string, cutoff: int)

  datatype Entry = Entry(sequence: int, prediction: Prediction, previous: Option<string>, record: string)

  /** A line of a prediction ledger; `Malformed` fails the record's own validation. */
  datatype LedgerLine = Blank | Malformed | Recorded(entry: Entry)

  datatype Ledger = Missing | Lines(lines: seq<LedgerLine>)

  datatype Case = Case(id: string, instrument: string, cutoff: int, realized: int)

  datatype CaseLine = BlankCase | MalformedCase | Completed(completed: Case)

  datatype CaseFile = NoFile | CaseLines(lines: seq<CaseLine>)

  datatype Slot = Slot(instrument: string, cutoff: int)

  /** A link record without its hash. */
  datatype Unsigned =
    Unsigned(sequence: int, prediction: string, outcome: string, linkedAt: int, previous: Option<string>)

  datatype Link = Link(body: Unsigned, record: string)

  datatype Match = Match(entry: Entry, outcome: Case)

  // ---- completed cases ----

  function SlotOf(c: Case): Slot { Slot(c.instrument, c.cutoff) }

  function AddCase(cases: map<Slot, Case>, c: Case): Outcome<map<Slot, Case>> {
    if SlotOf(c) in cases && cases[SlotOf(c)].id != c.id then Refused else Loaded(cases[SlotOf(c) := c])
  }

  function CasesIn(lines: seq<CaseLine>): Outcome<map<Slot, Case>> {
    if lines == [] then Loaded(map[])
    else
      var earlier := CasesIn(lines[..|lines| - 1]);
      match (earlier, lines[|lines| - 1])
      case (Refused, _) => Refused
      case (_, BlankCase) => earlier
      case (_, MalformedCase) => Refused
      case (Loaded(cases), Completed(c)) => AddCase(cases, c)
  }

  function CasesOf(file: CaseFile): Outcome<map<Slot, Case>> {
    if file.NoFile? then Refused else CasesIn(file.lines)
  }

  lemma {:induction false} CasesRefusedStay(lines: seq<CaseLine>, n: nat)
    requires n <= |lines| && CasesIn(lines[..n]).Refused?
    ensures CasesIn(lines).Refused?
  {
    if n < |lines| {
      assert lines[..|lines| - 1][..n] == lines[..n];
      CasesRefusedStay(lines[..|lines| - 1], n);
    } else {
      assert lines[..n] == lines;
    }
  }

  method LoadCases(file: CaseFile) returns (loaded: Outcome<map<Slot, Case>>)
    ensures loaded == CasesOf(file)
  {
    if file.NoFile? { return Refused; }
    var cases: map<Slot, Case> := map[];
    var i := 0;
    while i < |file.lines|
      invariant 0 <= i <= |file.lines| && CasesIn(file.lines[..i]) == Loaded(cases)
    {
      var line := file.lines[i];
      assert file.lines[..i + 1][..i] == file.lines[..i];
      if line.MalformedCase? || (line.Completed? && SlotOf(line.completed) in cases
                                 && cases[SlotOf(line.completed)].id != line.completed.id) {
        CasesRefusedStay(file.lines, i + 1);
        return Refused;
      }
      if line.Completed? { cases := cases[SlotOf(line.completed) := line.completed]; }
      i := i + 1;
    }
    assert file.lines[..i] == file.lines;
    return Loaded(cases);
  }

  predicate SameSlot(a: CaseLine, b: CaseLine) {
    a.Completed? && b.Completed? && SlotOf(a.completed) == SlotOf(b.completed)
  }

  /** What a case file must be: every line well formed, one case identity per slot. */
  predicate OneIdentityPerSlot(lines: seq<CaseLine>) {
    && (forall i :: 0 <= i < |lines| ==> !lines[i].MalformedCase?)
    && (forall i, j :: 0 <= i < j < |lines| && SameSlot(lines[i], lines[j]) ==>
          lines[i].completed.id == lines[j].completed.id)
  }

  /** The last record of a slot. */
  predicate IsLast(lines: seq<CaseLine>, slot: Slot, c: Case) {
    exists i :: 0 <= i < |lines| && lines[i] == Completed(c) && SlotOf(c) == slot
      && forall j :: i < j < |lines| && lines[j].Completed? ==> SlotOf(lines[j].completed) != slot
  }

  /** Loading succeeds exactly on such files, and finds the last record of each slot. */
  lemma {:induction false} CasesLoaded(lines: seq<CaseLine>)
    ensures CasesIn(lines).Loaded? <==> OneIdentityPerSlot(lines)
    ensures CasesIn(lines).Loaded? ==>
              var cases := CasesIn(lines).value;
              && (forall slot :: slot in cases ==> IsLast(lines, slot, cases[slot]))
              && (forall i :: 0 <= i < |lines| && lines[i].Completed? ==> SlotOf(lines[i].completed) in cases)
  {
    if lines != [] {
      var init, last := lines[..|lines| - 1], lines[|lines| - 1];
      CasesLoaded(init);
      if CasesIn(init).Refused? {
        OneIdentityExtends(init, last);
        assert init + [last] == lines;
      } else {
        CaseAdded(init, last, CasesIn(init).value);
        assert init + [last] == lines;
      }
    }
  }

  lemma OneIdentityExtends(init: seq<CaseLine>, last: CaseLine)
    ensures OneIdentityPerSlot(init + [last]) <==>
            OneIdentityPerSlot(init) && !last.MalformedCase?
            && forall i :: 0 <= i < |init| && SameSlot(init[i], last) ==> init[i].completed.id == last.completed.id
  {
    var lines := init + [last];
    if OneIdentityPerSlot(lines) {
      forall i | 0 <= i < |init| ensures lines[i] == init[i] {}
      assert lines[|init|] == last;
    }
  }

  lemma CaseAdded(init: seq<CaseLine>, last: CaseLine, cases: map<Slot, Case>)
    requires OneIdentityPerSlot(init)
    requires forall slot :: slot in cases ==> IsLast(init, slot, cases[slot])
    requires forall i :: 0 <= i < |init| && init[i].Completed? ==> SlotOf(init[i].completed) in cases
    ensures OneIdentityPerSlot(init + [last]) <==>
            !last.MalformedCase? && (last.Completed? ==> AddCase(cases, last.completed).Loaded?)
    ensures var lines := init + [last];
            var next := if last.Completed? then cases[SlotOf(last.completed) := last.completed] else cases;
            && (forall slot :: slot in next ==> IsLast(lines, slot, next[slot]))
            && (forall i :: 0 <= i < |lines| && lines[i].Completed? ==> SlotOf(lines[i].completed) in next)
  {
    OneIdentityExtends(init, last);
    var lines := init + [last];
    if last.Completed? && SlotOf(last.completed) in cases {
      var slot := SlotOf(last.completed);
      var k :| 0 <= k < |init| && init[k] == Completed(cases[slot]) && SlotOf(cases[slot]) == slot;
      assert SameSlot(init[k], last);
      forall i | 0 <= i < |init| && SameSlot(init[i], last) ensures init[i].completed.id == cases[slot].id {
        assert i < k ==> SameSlot(init[i], init[k]);
        assert k < i ==> SameSlot(init[k], init[i]);
      }
    }
    var next := if last.Completed? then cases[SlotOf(last.completed) := last.completed] else cases;
    forall slot | slot in next ensures IsLast(lines, slot, next[slot]) {
      if last.Completed? && slot == SlotOf(last.completed) {
        assert lines[|init|] == Completed(next[slot]);
      } else {
        var k :| 0 <= k < |init| && init[k] == Completed(cases[slot]) && SlotOf(cases[slot]) == slot
          && forall j :: k < j < |init| && init[j].Completed? ==> SlotOf(init[j].completed) != slot;
        assert lines[k] == init[k];
        forall j | k < j < |lines| && lines[j].Completed? ensures SlotOf(lines[j].completed) != slot {
          assert j < |init| ==> lines[j] == init[j];
        }
      }
    }
  }

  // ---- prediction ledgers ----

  function EntriesIn(lines: seq<LedgerLine>): seq<Entry> {
    if lines == [] then []
    else EntriesIn(lines[..|lines| - 1]) + if lines[|lines| - 1].Recorded? then [lines[|lines| - 1].entry] else []
  }

  function EntriesOf(ledger: Ledger): seq<Entry> { if ledger.Missing? then [] else EntriesIn(ledger.lines) }

  function AllEntries(ledgers: seq<Ledger>): seq<Entry> { Collect(EntriesOf, ledgers) }

  function LastRecord(entries: seq<Entry>): Option<string> {
    if entries == [] then None else Some(entries[|entries| - 1].record)
  }

  /** Numbered from one, each naming the record before it. */
  predicate Chained(entries: seq<Entry>) {
    entries != [] ==>
      var init, last := entries[..|entries| - 1], entries[|entries| - 1];
      Chained(init) && last.sequence == |entries| && last.previous == LastRecord(init)
  }

  predicate Sound(ledger: Ledger) {
    ledger.Lines? && Malformed !in ledger.lines && Chained(EntriesIn(ledger.lines))
  }

  function Ids(entries: seq<Entry>): set<string> {
    if entries == [] then {} else Ids(entries[..|entries| - 1]) + {entries[|entries| - 1].prediction.id}
  }

  predicate Distinct(entries: seq<Entry>) {
    entries != [] ==>
      var init, last := entries[..|entries| - 1], entries[|entries| - 1];
      Distinct(init) && last.prediction.id !in Ids(init)
  }

  predicate Readable(ledgers: seq<Ledger>) {
    (forall i :: 0 <= i < |ledgers| ==> Sound(ledgers[i])) && Distinct(AllEntries(ledgers))
  }

  lemma {:induction false} DistinctPrefix(a: seq<Entry>, b: seq<Entry>)
    requires Distinct(a + b)
    ensures Distinct(a)
  {
    if b == [] {
      assert a + b == a;
    } else {
      assert (a + b)[..|a + b| - 1] == a + b[..|b| - 1];
      DistinctPrefix(a, b[..|b| - 1]);
    }
  }

  lemma {:induction false} EntriesPrefix(lines: seq<LedgerLine>, n: nat)
    requires n <= |lines|
    ensures EntriesIn(lines[..n]) <= EntriesIn(lines)
  {
    if n < |lines| {
      assert lines[..|lines| - 1][..n] == lines[..n];
      EntriesPrefix(lines[..|lines| - 1], n);
    } else {
      assert lines[..n] == lines;
    }
  }

  lemma {:induction false} ChainedPrefix(entries: seq<Entry>, n: nat)
    requires Chained(entries) && n <= |entries|
    ensures Chained(entries[..n])
  {
    if n < |entries| {
      assert entries[..|entries| - 1][..n] == entries[..n];
      ChainedPrefix(entries[..|entries| - 1], n);
    } else {
      assert entries[..n] == entries;
    }
  }

  lemma {:induction false} CollectPrefix(ledgers: seq<Ledger>, n: nat)
    requires n <= |ledgers|
    ensures AllEntries(ledgers[..n]) <= AllEntries(ledgers)
  {
    if n < |ledgers| {
      assert ledgers[..|ledgers| - 1][..n] == ledgers[..n];
      CollectPrefix(ledgers[..|ledgers| - 1], n);
    } else {
      assert ledgers[..n] == ledgers;
    }
  }

  /** A ledger that breaks the reading at some line breaks the whole reading. */
  lemma BrokenAt(ledgers: seq<Ledger>, i: nat, n: nat)
    requires i < |ledgers| && ledgers[i].Lines? && n <= |ledgers[i].lines|
    requires var part := ledgers[i].lines[..n];
             || Malformed in part || !Chained(EntriesIn(part))
             || !Distinct(AllEntries(ledgers[..i]) + EntriesIn(part))
    ensures !Readable(ledgers)
  {
    hide EntriesIn, AllEntries, Chained, Distinct, Ids;
    var lines := ledgers[i].lines;
    var part, all := EntriesIn(lines[..n]), AllEntries(ledgers);
    var before := AllEntries(ledgers[..i]);
    EntriesPrefix(lines, n);
    assert EntriesIn(lines)[..|part|] == part;
    if Chained(EntriesIn(lines)) { ChainedPrefix(EntriesIn(lines), |part|); }
    LedgerRead(ledgers, i);
    CollectPrefix(ledgers, i + 1);
    if Distinct(all) {
      assert all == (before + part) + all[|before + part|..];
      DistinctPrefix(before + part, all[|before + part|..]);
    }
  }

  method LoadPredictions(ledgers: seq<Ledger>) returns (loaded: Outcome<seq<Entry>>)
    ensures loaded == if Readable(ledgers) then Loaded(AllEntries(ledgers)) else Refused
  {
    hide EntriesIn, AllEntries, Chained, Distinct, LastRecord, Ids;
    var entries: seq<Entry> := [];
    var seen: set<string> := {};
    var i := 0;
    NothingRead([], ledgers[..0]);
    while i < |ledgers|
      invariant 0 <= i <= |ledgers|
      invariant entries == AllEntries(ledgers[..i]) && seen == Ids(entries) && Distinct(entries)
      invariant forall k :: 0 <= k < i ==> Sound(ledgers[k])
    {
      var ledger := ledgers[i];
      if ledger.Missing? { return Refused; }
      var previous: Option<string>, expected := None, 1;
      var j := 0;
      ghost var part: seq<Entry> := [];
      NothingRead(ledger.lines[..0], []);
      while j < |ledger.lines|
        invariant 0 <= j <= |ledger.lines| && Malformed !in ledger.lines[..j]
        invariant part == EntriesIn(ledger.lines[..j]) && Chained(part)
        invariant previous == LastRecord(part) && expected == |part| + 1
        invariant entries == AllEntries(ledgers[..i]) + part && seen == Ids(entries) && Distinct(entries)
      {
        var line := ledger.lines[j];
        PartStep(ledger.lines, j);
        if line.Recorded? {
          var entry := line.entry;
          EntryStep(part, entries, entry);
          assert entries + [entry] == AllEntries(ledgers[..i]) + (part + [entry]);
          if entry.sequence != expected || entry.previous != previous || entry.prediction.id in seen {
            BrokenAt(ledgers, i, j + 1);
            return Refused;
          }
          seen := seen + {entry.prediction.id};
          entries := entries + [entry];
          part := part + [entry];
          previous := Some(entry.record);
          expected := expected + 1;
        } else if line.Malformed? {
          BrokenAt(ledgers, i, j + 1);
          return Refused;
        }
        j := j + 1;
      }
      assert ledger.lines[..j] == ledger.lines;
      LedgerRead(ledgers, i);
      i := i + 1;
    }
    assert ledgers[..i] == ledgers;
    return Loaded(entries);
  }

  lemma PartStep(lines: seq<LedgerLine>, j: nat)
    requires j < |lines|
    ensures EntriesIn(lines[..j + 1]) == EntriesIn(lines[..j]) + if lines[j].Recorded? then [lines[j].entry] else []
    ensures Malformed in lines[..j + 1] <==> Malformed in lines[..j] || lines[j] == Malformed
  {
    assert lines[..j + 1] == lines[..j] + [lines[j]];
    assert lines[..j + 1][..j] == lines[..j];
  }

  lemma EntryStep(part: seq<Entry>, entries: seq<Entry>, entry: Entry)
    requires Chained(part) && Distinct(entries)
    ensures Chained(part + [entry]) <==> entry.sequence == |part| + 1 && entry.previous == LastRecord(part)
    ensures Distinct(entries + [entry]) <==> entry.prediction.id !in Ids(entries)
    ensures Ids(entries + [entry]) == Ids(entries) + {entry.prediction.id}
    ensures LastRecord(part + [entry]) == Some(entry.record)
  {
    var longer, more := part + [entry], entries + [entry];
    assert longer[..|longer| - 1] == part && longer[|longer| - 1] == entry;
    assert more[..|more| - 1] == entries && more[|more| - 1] == entry;
  }

  lemma NothingRead(lines: seq<LedgerLine>, ledgers: seq<Ledger>)
    ensures lines == [] ==> EntriesIn(lines) == []
    ensures ledgers == [] ==> AllEntries(ledgers) == []
    ensures Chained([]) && Distinct([]) && LastRecord([]) == None && Ids([]) == {}
  {
  }

  lemma LedgerRead(ledgers: seq<Ledger>, i: nat)
    requires i < |ledgers| && ledgers[i].Lines?
    ensures AllEntries(ledgers[..i + 1]) == AllEntries(ledgers[..i]) + EntriesIn(ledgers[i].lines)
  {
    assert ledgers[..i + 1][..i] == ledgers[..i];
  }

  // ---- matching predictions with cases ----

  function PredictionSlot(e: Entry): Slot { Slot(e.prediction.instrument, e.prediction.cutoff) }

  predicate HasOutcome(e: Entry, cases: map<Slot, Case>) {
    PredictionSlot(e) in cases && cases[PredictionSlot(e)].realized > e.prediction.cutoff
  }

  predicate Joinable(entries: seq<Entry>, cases: map<Slot, Case>) {
    forall i :: 0 <= i < |entries| ==> HasOutcome(entries[i], cases)
  }

  function Matching(cases: map<Slot, Case>): Entry -> seq<Match> {
    (e: Entry) => if PredictionSlot(e) in cases then [Match(e, cases[PredictionSlot(e)])] else []
  }

  function Matches(entries: seq<Entry>, cases: map<Slot, Case>): seq<Match> { Collect(Matching(cases), entries) }

  /** A prediction without a case is noted and refused at the end, one whose outcome is not
      later than its cutoff at once. */
  method MatchEntries(entries: seq<Entry>, cases: map<Slot, Case>) returns (matched: Outcome<seq<Match>>)
    ensures matched == if Joinable(entries, cases) then Loaded(Matches(entries, cases)) else Refused
  {
    var links: seq<Match> := [];
    var missing: seq<string> := [];
    var i := 0;
    while i < |entries|
      invariant 0 <= i <= |entries| && links == Matches(entries[..i], cases)
      invariant if missing == [] then Joinable(entries[..i], cases) else !Joinable(entries, cases)
    {
      var entry := entries[i];
      MatchStep(entries, i, cases);
      if PredictionSlot(entry) !in cases {
        missing := missing + [entry.prediction.id];
      } else {
        var outcome := cases[PredictionSlot(entry)];
        if outcome.realized <= entry.prediction.cutoff { return Refused; }
        links := links + [Match(entry, outcome)];
      }
      i := i + 1;
    }
    assert entries[..i] == entries;
    return if missing != [] then Refused else Loaded(links);
  }

  lemma MatchStep(entries: seq<Entry>, i: nat, cases: map<Slot, Case>)
    requires i < |entries|
    ensures Matches(entries[..i + 1], cases) == Matches(entries[..i], cases) + Matching(cases)(entries[i])
    ensures Joinable(entries[..i + 1], cases) <==> Joinable(entries[..i], cases) && HasOutcome(entries[i], cases)
  {
    assert entries[..i + 1][..i] == entries[..i];
    assert forall k :: 0 <= k < i ==> entries[..i + 1][k] == entries[..i][k];
    assert entries[..i + 1][i] == entries[i];
  }

  predicate MatchAtMost(x: Match, y: Match) {
    var a, b := x.entry.prediction, y.entry.prediction;
    if a.cutoff != b.cutoff then a.cutoff < b.cutoff
    else if a.instrument != b.instrument then TextAtMost(a.instrument, b.instrument)
    else if a.model != b.model then TextAtMost(a.model, b.model)
    else TextAtMost(a.id, b.id)
  }

  lemma MatchesCompare(x: Match, y: Match)
    ensures MatchAtMost(x, y) || MatchAtMost(y, x)
    ensures MatchAtMost(x, y) && MatchAtMost(y, x) ==> x.entry.prediction == y.entry.prediction
  {
    var a, b := x.entry.prediction, y.entry.prediction;
    TextTotal(a.instrument, b.instrument);
    TextTotal(a.model, b.model);
    TextTotal(a.id, b.id);
  }

  lemma MatchTransitive(x: Match, y: Match, z: Match)
    requires MatchAtMost(x, y) && MatchAtMost(y, z)
    ensures MatchAtMost(x, z)
  {
    hide TextAtMost;
    var a, b, c := x.entry.prediction, y.entry.prediction, z.entry.prediction;
    TextTotal(a.instrument, b.instrument);
    TextTotal(a.model, b.model);
    if a.cutoff == b.cutoff == c.cutoff {
      if a.instrument == b.instrument == c.instrument {
        if a.model == b.model == c.model {
          TextTransitive(a.id, b.id, c.id);
        } else if a.model != b.model && b.model != c.model {
          TextTransitive(a.model, b.model, c.model);
        }
      } else if a.instrument != b.instrument && b.instrument != c.instrument {
        TextTransitive(a.instrument, b.instrument, c.instrument);
      }
    }
  }

  lemma MatchesLinear()
    ensures TotalPreorder(MatchAtMost)
  {
    hide MatchAtMost;
    forall x, y ensures MatchAtMost(x, y) || MatchAtMost(y, x) { MatchesCompare(x, y); }
    forall x, y, z | MatchAtMost(x, y) && MatchAtMost(y, z) ensures MatchAtMost(x, z) { MatchTransitive(x, y, z); }
  }

  // ---- the outcome link ledger ----

  function Extended(digest: Unsigned -> string, records: seq<Link>, prediction: string, outcome: string, at: int)
    : seq<Link>
  {
    var previous := if records == [] then None else Some(records[|records| - 1].record);
    var body := Unsigned(|records| + 1, prediction, outcome, at, previous);
    records + [Link(body, digest(body))]
  }

  function Identities(records: seq<Link>): set<(string, string)> {
    if records == [] then {}
    else
      var last := records[|records| - 1].body;
      Identities(records[..|records| - 1]) + {(last.prediction, last.outcome)}
  }

  /** What reopening the ledger demands of its records. */
  predicate WellFormed(digest: Unsigned -> string, records: seq<Link>) {
    records != [] ==>
      var init, last := records[..|records| - 1], records[|records| - 1];
      && WellFormed(digest, init) && last.record == digest(last.body) && last.body.sequence == |records|
      && last.body.previous == (if init == [] then None else Some(init[|init| - 1].record))
      && (last.body.prediction, last.body.outcome) !in Identities(init)
  }

  class LinkLedger {
    const digest: Unsigned -> string
    var records: seq<Link>
    var identities: set<(string, string)>

    ghost predicate Valid()
      reads this
    {
      identities == Identities(records) && WellFormed(digest, records)
    }

    constructor (digest: Unsigned -> string)
      ensures Valid() && records == [] && this.digest == digest
    {
      this.digest := digest;
      records, identities := [], {};
    }

    method Append(prediction: string, outcome: string, at: int) returns (added: bool)
      requires Valid()
      modifies this
      ensures Valid() && added == ((prediction, outcome) !in Identities(old(records)))
      ensures records == if added then Extended(digest, old(records), prediction, outcome, at) else old(records)
    {
      if (prediction, outcome) in identities { return false; }
      ghost var before := records;
      records := Extended(digest, records, prediction, outcome, at);
      identities := identities + {(prediction, outcome)};
      assert records[..|records| - 1] == before;
      added := true;
    }
  }

  /** The records for matches in order. */
  function Written(digest: Unsigned -> string, matches: seq<Match>): seq<Link> {
    if matches == [] then []
    else
      var last := matches[|matches| - 1];
      Extended(digest, Written(digest, matches[..|matches| - 1]),
               last.entry.prediction.id, last.outcome.id, last.outcome.realized)
  }

  // ---- the join ----

  function Join(ledgers: seq<Ledger>, file: CaseFile, outputExists: bool, digest: Unsigned -> string)
    : Outcome<seq<Link>>
  {
    if outputExists || CasesOf(file).Refused? || !Readable(ledgers) || AllEntries(ledgers) == []
       || !Joinable(AllEntries(ledgers), CasesOf(file).value)
    then Refused
    else Loaded(Written(digest, Sort(MatchAtMost, Matches(AllEntries(ledgers), CasesOf(file).value))))
  }

  function EntryId(e: Entry): string { e.prediction.id }

  function MatchId(m: Match): string { m.entry.prediction.id }

  lemma {:induction false} IdsAre(entries: seq<Entry>, id: string)
    ensures id in Ids(entries) <==> exists e :: e in entries && e.prediction.id == id
  {
    if entries != [] {
      IdsAre(entries[..|entries| - 1], id);
      assert entries == entries[..|entries| - 1] + [entries[|entries| - 1]];
    }
  }

  lemma {:induction false} DistinctIsOneEach(entries: seq<Entry>)
    ensures Distinct(entries) <==> OneEach(EntryId, entries)
  {
    hide OneEach;
    if entries == [] {
      assert OneEach(EntryId, entries) by { EmptyOneEach(EntryId, entries); }
    } else {
      var init, last := entries[..|entries| - 1], entries[|entries| - 1];
      assert entries == init + [last];
      DistinctIsOneEach(init);
      OneEachStep(EntryId, init, last);
      IdsAre(init, last.prediction.id);
    }
  }

  lemma EmptyOneEach<T>(id: T -> string, s: seq<T>)
    requires s == []
    ensures OneEach(id, s)
  {
  }

  /** The matches are the entries with their cases, one for one. */
  lemma {:induction false} MatchesAre(entries: seq<Entry>, cases: map<Slot, Case>)
    requires Joinable(entries, cases)
    ensures var ms := Matches(entries, cases);
            && |ms| == |entries|
            && forall k :: 0 <= k < |ms| ==> ms[k] == Match(entries[k], cases[PredictionSlot(entries[k])])
  {
    if entries != [] {
      var n := |entries| - 1;
      MatchesAre(entries[..n], cases);
      assert HasOutcome(entries[n], cases);
    }
  }

  lemma {:induction false} WrittenRecords(digest: Unsigned -> string, ms: seq<Match>)
    ensures |Written(digest, ms)| == |ms|
    ensures forall k :: 0 <= k < |ms| ==>
              var body := Written(digest, ms)[k].body;
              body.sequence == k + 1 && body.prediction == MatchId(ms[k])
              && body.outcome == ms[k].outcome.id && body.linkedAt == ms[k].outcome.realized
  {
    if ms != [] {
      WrittenRecords(digest, ms[..|ms| - 1]);
    }
  }

  lemma {:induction false} WrittenIdentities(digest: Unsigned -> string, ms: seq<Match>, p: string, o: string)
    requires (p, o) in Identities(Written(digest, ms))
    ensures exists m :: m in ms && MatchId(m) == p
  {
    var init, last := ms[..|ms| - 1], ms[|ms| - 1];
    var records := Written(digest, ms);
    assert records[..|records| - 1] == Written(digest, init);
    if (p, o) in Identities(Written(digest, init)) {
      WrittenIdentities(digest, init, p, o);
      var m :| m in init && MatchId(m) == p;
      assert m in ms;
    } else {
      assert last in ms && MatchId(last) == p;
    }
  }

  /** Matches of different predictions never repeat a link identity, and what is written
      can be reopened. */
  lemma {:induction false} WrittenWell(digest: Unsigned -> string, ms: seq<Match>)
    requires OneEach(MatchId, ms)
    ensures WellFormed(digest, Written(digest, ms))
  {
    hide OneEach;
    if ms != [] {
      var init, last := ms[..|ms| - 1], ms[|ms| - 1];
      assert ms == init + [last];
      OneEachStep(MatchId, init, last);
      WrittenWell(digest, init);
      WrittenRecords(digest, init);
      if (MatchId(last), last.outcome.id) in Identities(Written(digest, init)) {
        WrittenIdentities(digest, init, MatchId(last), last.outcome.id);
      }
      var records := Written(digest, ms);
      assert records[..|records| - 1] == Written(digest, init);
    }
  }

  lemma NextIsNew(digest: Unsigned -> string, ms: seq<Match>, k: nat)
    requires OneEach(MatchId, ms) && k < |ms|
    ensures (MatchId(ms[k]), ms[k].outcome.id) !in Identities(Written(digest, ms[..k]))
  {
    forall m | m in ms[..k] ensures MatchId(m) != MatchId(ms[k]) {
      var i :| 0 <= i < k && ms[i] == m;
    }
    if (MatchId(ms[k]), ms[k].outcome.id) in Identities(Written(digest, ms[..k])) {
      WrittenIdentities(digest, ms[..k], MatchId(ms[k]), ms[k].outcome.id);
    }
  }

  lemma WrittenStep(digest: Unsigned -> string, ms: seq<Match>, k: nat)
    requires k < |ms|
    ensures Written(digest, ms[..k + 1])
         == Extended(digest, Written(digest, ms[..k]), MatchId(ms[k]), ms[k].outcome.id, ms[k].outcome.realized)
  {
    assert ms[..k + 1][..k] == ms[..k];
  }

  /** The matches of readable ledgers, and so their sorted form, name each prediction once. */
  lemma MatchesOnce(entries: seq<Entry>, cases: map<Slot, Case>)
    requires Distinct(entries) && Joinable(entries, cases)
    ensures var ms := Matches(entries, cases);
            var sorted := Sort(MatchAtMost, ms);
            && OneEach(MatchId, ms) && OneEach(MatchId, sorted) && Sorted(MatchAtMost, sorted)
            && multiset(sorted) == multiset(ms) && |sorted| == |entries|
  {
    hide Matches, Distinct, Sort, Joinable, MatchAtMost;
    var ms := Matches(entries, cases);
    MatchesAre(entries, cases);
    DistinctIsOneEach(entries);
    assert OneEach(MatchId, ms) by {
      forall i, j | 0 <= i < j < |ms| ensures MatchId(ms[i]) != MatchId(ms[j]) {
        assert EntryId(entries[i]) != EntryId(entries[j]);
      }
    }
    MatchesLinear();
    SortSorts(MatchAtMost, ms);
    OneEachPermuted(MatchId, ms, Sort(MatchAtMost, ms));
  }

  /** The whole join. No append is ever refused as a duplicate. */
  method LinkPredictions(ledgers: seq<Ledger>, file: CaseFile, outputExists: bool, digest: Unsigned -> string)
    returns (links: Outcome<seq<Link>>)
    ensures links == Join(ledgers, file, outputExists, digest)
  {
    hide Readable, Joinable, AllEntries, CasesOf, Sort, Matches, Identities, WellFormed, OneEach, Sorted, MatchAtMost;
    if outputExists { return Refused; }
    var loaded := LoadCases(file);
    if loaded.Refused? { return Refused; }
    var read := LoadPredictions(ledgers);
    if read.Refused? || read.value == [] { return Refused; }
    var matched := MatchEntries(read.value, loaded.value);
    if matched.Refused? { return Refused; }
    var ordered := Sort(MatchAtMost, matched.value);
    ReadableIsDistinct(ledgers);
    MatchesOnce(read.value, loaded.value);
    var ledger := new LinkLedger(digest);
    var k := 0;
    assert ledger.records == Written(digest, ordered[..0]);
    while k < |ordered|
      invariant 0 <= k <= |ordered| && ledger.Valid() && ledger.digest == digest
      invariant ledger.records == Written(digest, ordered[..k])
    {
      NextIsNew(digest, ordered, k);
      WrittenStep(digest, ordered, k);
      var m := ordered[k];
      var added := ledger.Append(m.entry.prediction.id, m.outcome.id, m.outcome.realized);
      if !added { return Refused; }
      k := k + 1;
    }
    assert ordered[..k] == ordered;
    return Loaded(ledger.records);
  }

  lemma ReadableIsDistinct(ledgers: seq<Ledger>)
    ensures Readable(ledgers) ==> Distinct(AllEntries(ledgers))
  {
  }

  /** The last case of the prediction's exact slot has an outcome later than the cutoff. */
  ghost predicate LaterOutcome(lines: seq<CaseLine>, e: Entry) {
    exists c :: IsLast(lines, PredictionSlot(e), c) && c.realized > e.prediction.cutoff
  }

  lemma LastIsOne(lines: seq<CaseLine>, slot: Slot, c: Case, d: Case)
    requires IsLast(lines, slot, c) && IsLast(lines, slot, d)
    ensures c == d
  {
    var i :| 0 <= i < |lines| && lines[i] == Completed(c) && SlotOf(c) == slot
      && forall j :: i < j < |lines| && lines[j].Completed? ==> SlotOf(lines[j].completed) != slot;
    var k :| 0 <= k < |lines| && lines[k] == Completed(d) && SlotOf(d) == slot
      && forall j :: k < j < |lines| && lines[j].Completed? ==> SlotOf(lines[j].completed) != slot;
    assert !(i < k) && !(k < i);
  }

  lemma OutcomeIsLater(lines: seq<CaseLine>, e: Entry)
    requires CasesIn(lines).Loaded?
    ensures HasOutcome(e, CasesIn(lines).value) <==> LaterOutcome(lines, e)
  {
    CasesLoaded(lines);
    hide CasesIn, OneIdentityPerSlot;
    var cases, slot := CasesIn(lines).value, PredictionSlot(e);
    if LaterOutcome(lines, e) {
      var c :| IsLast(lines, slot, c) && c.realized > e.prediction.cutoff;
      assert exists i :: 0 <= i < |lines| && lines[i] == Completed(c) && SlotOf(c) == slot;
      LastIsOne(lines, slot, c, cases[slot]);
    }
  }

  /** When the join succeeds, in terms of the files alone. */
  lemma JoinSucceeds(
      ledgers: seq<Ledger>, file: CaseFile, outputExists: bool, digest: Unsigned -> string)
    ensures Join(ledgers, file, outputExists, digest).Loaded? <==>
            && !outputExists && file.CaseLines? && OneIdentityPerSlot(file.lines)
            && (forall i :: 0 <= i < |ledgers| ==> Sound(ledgers[i]))
            && AllEntries(ledgers) != [] && OneEach(EntryId, AllEntries(ledgers))
            && forall i :: 0 <= i < |AllEntries(ledgers)| ==> LaterOutcome(file.lines, AllEntries(ledgers)[i])
  {
    var entries := AllEntries(ledgers);
    DistinctIsOneEach(entries);
    if file.CaseLines? {
      CasesLoaded(file.lines);
      hide CasesIn, OneIdentityPerSlot, OneEach, LaterOutcome, HasOutcome, Sound, Distinct;
      if CasesIn(file.lines).Loaded? {
        forall i | 0 <= i < |entries|
          ensures HasOutcome(entries[i], CasesIn(file.lines).value) <==> LaterOutcome(file.lines, entries[i])
        {
          OutcomeIsLater(file.lines, entries[i]);
        }
      }
    }
  }

  lemma JoinablePermuted(a: seq<Entry>, b: seq<Entry>, cases: map<Slot, Case>)
    requires multiset(a) == multiset(b) && Joinable(a, cases)
    ensures Joinable(b, cases)
  {
    forall i | 0 <= i < |b| ensures HasOutcome(b[i], cases) {
      SameElements(a, b, b[i]);
    }
  }

  lemma SoundPermuted(a: seq<Ledger>, b: seq<Ledger>)
    requires multiset(a) == multiset(b) && forall i :: 0 <= i < |a| ==> Sound(a[i])
    ensures forall i :: 0 <= i < |b| ==> Sound(b[i])
  {
    forall i | 0 <= i < |b| ensures Sound(b[i]) { SameElements(a, b, b[i]); }
  }

  lemma ReadablePermuted(a: seq<Ledger>, b: seq<Ledger>)
    requires multiset(a) == multiset(b) && Readable(a)
    ensures Readable(b) && multiset(AllEntries(a)) == multiset(AllEntries(b))
  {
    hide Sound, AllEntries;
    SoundPermuted(a, b);
    assert multiset(AllEntries(a)) == multiset(AllEntries(b)) by { EntriesPermuted(a, b); }
    DistinctIsOneEach(AllEntries(a));
    DistinctIsOneEach(AllEntries(b));
    OneEachPermuted(EntryId, AllEntries(a), AllEntries(b));
  }

  lemma EntriesPermuted(a: seq<Ledger>, b: seq<Ledger>)
    requires multiset(a) == multiset(b)
    ensures multiset(AllEntries(a)) == multiset(AllEntries(b))
  {
    CollectPermuted(EntriesOf, a, b);
  }

  /** Different matches of one join never tie in the sort key. */
  lemma KeyIsStrict(entries: seq<Entry>, cases: map<Slot, Case>)
    requires Distinct(entries) && Joinable(entries, cases)
    ensures NoTies(MatchAtMost, Matches(entries, cases))
  {
    hide Matches, Distinct, Joinable, Sort, Sorted, MatchAtMost;
    var ms := Matches(entries, cases);
    MatchesOnce(entries, cases);
    forall x, y | x in ms && y in ms && MatchAtMost(x, y) && MatchAtMost(y, x) ensures x == y {
      MatchesCompare(x, y);
      OneEachSame(MatchId, ms, x, y);
    }
  }

  lemma SortedPermuted(a: seq<Entry>, b: seq<Entry>, cases: map<Slot, Case>)
    requires multiset(a) == multiset(b) && Distinct(a) && Joinable(a, cases)
    ensures Sort(MatchAtMost, Matches(a, cases)) == Sort(MatchAtMost, Matches(b, cases))
  {
    CollectPermuted(Matching(cases), a, b);
    KeyIsStrict(a, cases);
    MatchesLinear();
    SortIsCanonical(MatchAtMost, Matches(a, cases), Matches(b, cases));
  }

  lemma LoadedPermuted(
      a: seq<Ledger>, b: seq<Ledger>, file: CaseFile, outputExists: bool, digest: Unsigned -> string)
    requires multiset(a) == multiset(b) && Join(a, file, outputExists, digest).Loaded?
    ensures Join(b, file, outputExists, digest) == Join(a, file, outputExists, digest)
  {
    hide Readable, AllEntries, Joinable, CasesOf, Sort, Matches;
    var cases := CasesOf(file).value;
    ReadablePermuted(a, b);
    ReadableIsDistinct(a);
    JoinablePermuted(AllEntries(a), AllEntries(b), cases);
    assert |multiset(AllEntries(a))| == |AllEntries(a)| && |multiset(AllEntries(b))| == |AllEntries(b)|;
    SortedPermuted(AllEntries(a), AllEntries(b), cases);
  }

  /** The order in which the ledger paths are given changes neither whether the join is
      refused nor a single record of what it writes. */
  lemma PathOrderFree(
      a: seq<Ledger>, b: seq<Ledger>, file: CaseFile, outputExists: bool, digest: Unsigned -> string)
    requires multiset(a) == multiset(b)
    ensures Join(a, file, outputExists, digest) == Join(b, file, outputExists, digest)
  {
    hide Join;
    if Join(a, file, outputExists, digest).Loaded? {
      LoadedPermuted(a, b, file, outputExists, digest);
    } else if Join(b, file, outputExists, digest).Loaded? {
      LoadedPermuted(b, a, file, outputExists, digest);
    }
  }

  /** The one link of the prediction is `links[at]`, and it names that case. */
  predicate LinkedAt(links: seq<Link>, at: nat, e: Entry, c: Case) {
    && at < |links| && links[at].body.prediction == e.prediction.id
    && links[at].body.outcome == c.id && links[at].body.linkedAt == c.realized
    && forall k :: 0 <= k < |links| && k != at ==> links[k].body.prediction != e.prediction.id
  }

  ghost predicate LinkedOnce(links: seq<Link>, e: Entry, c: Case) { exists at :: LinkedAt(links, at, e, c) }

  lemma WrittenOnce(digest: Unsigned -> string, ms: seq<Match>, m: Match)
    requires OneEach(MatchId, ms) && m in ms
    ensures LinkedOnce(Written(digest, ms), m.entry, m.outcome)
  {
    hide Written;
    WrittenRecords(digest, ms);
    var at :| 0 <= at < |ms| && ms[at] == m;
    forall k | 0 <= k < |ms| && k != at ensures MatchId(ms[k]) != MatchId(m) {
      assert k < at ==> MatchId(ms[k]) != MatchId(ms[at]);
      assert at < k ==> MatchId(ms[at]) != MatchId(ms[k]);
    }
    assert LinkedAt(Written(digest, ms), at, m.entry, m.outcome);
  }

  /** On success the ledger reopens, holds as many links as there are predictions, and links
      each prediction once: to the last case of its exact instrument and cutoff, whose
      outcome is later than the cutoff. */
  lemma EachLinkedOnce(
      ledgers: seq<Ledger>, file: CaseFile, outputExists: bool, digest: Unsigned -> string, e: Entry)
    requires Join(ledgers, file, outputExists, digest).Loaded? && e in AllEntries(ledgers)
    ensures var links := Join(ledgers, file, outputExists, digest).value;
            && WellFormed(digest, links) && |links| == |AllEntries(ledgers)| && file.CaseLines?
            && exists c :: LinkedOnce(links, e, c) && IsLast(file.lines, PredictionSlot(e), c)
                 && c.instrument == e.prediction.instrument && c.cutoff == e.prediction.cutoff
                 && c.realized > e.prediction.cutoff
  {
    var entries, cases := AllEntries(ledgers), CasesOf(file).value;
    hide Readable, AllEntries, CasesIn, Sort, Matches, WellFormed, OneIdentityPerSlot;
    hide Sorted, OneEach, Written, LinkedOnce;
    ReadableIsDistinct(ledgers);
    CasesLoaded(file.lines);
    MatchesOnce(entries, cases);
    MatchesAre(entries, cases);
    var ms := Matches(entries, cases);
    var sorted := Sort(MatchAtMost, ms);
    WrittenRecords(digest, sorted);
    WrittenWell(digest, sorted);
    var i :| 0 <= i < |entries| && entries[i] == e;
    assert HasOutcome(entries[i], cases);
    var c := cases[PredictionSlot(e)];
    assert IsLast(file.lines, PredictionSlot(e), c);
    SameElements(ms, sorted, ms[i]);
    WrittenOnce(digest, sorted, ms[i]);
    assert LinkedOnce(Written(digest, sorted), e, c);
  }
}
