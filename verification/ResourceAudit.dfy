/** The auditor: re-reads the chain, checks identity and recomputes the summary,
    with its own reading of the maxima. */
module ResourceAudit {

  import opened Options
  import opened Extremes
  import opened ResourceLog
  import opened ResourceMonitor

  datatype Issue =
    | TimesNotMonotonic | PidChanged | TicksChanged | CommandChanged | InvalidMetric(metric: Metric) | ErrorsPresent
    | PidNotConfigured | TicksNotConfigured | CommandNotConfigured
    | SummarySchema | SummaryDigest | StatusLastHash | SummaryState | SummaryCount | SummaryRunning | SummaryLastHash
    | SummaryRoot | SummaryFirst | SummaryLast | SummaryMaximum(metric: Metric) | SummaryErrors
    | ConfigCredentials | ConfigOrders

  datatype Report = Refused | Report(issues: set<Issue>)

  predicate NonDecreasing(rows: seq<Row>)
    requires forall i :: 0 <= i < |rows| ==> rows[i].body.sampledAt.Some?
  {
    forall i, j :: 0 <= i < j < |rows| ==> rows[i].body.sampledAt.value <= rows[j].body.sampledAt.value
  }

  /** The values of a metric that are there. */
  function Present(rows: seq<Row>, m: Metric): seq<real> {
    if rows == [] then []
    else
      var r := rows[|rows| - 1];
      Present(rows[..|rows| - 1], m) + if m in r.body.metrics then [r.body.metrics[m]] else []
  }

  function Maximum(rows: seq<Row>, m: Metric): real {
    LargestOrZero(Present(if OfTree(m) then rows else RunningRows(rows), m))
  }

  function Flag(c: bool, issue: Issue): set<Issue> {
    if c then {issue} else {}
  }

  predicate NumbersAgree(values: set<int>) {
    forall x, y :: x in values && y in values ==> x == y
  }

  predicate TextsAgree(values: set<string>) {
    forall x, y :: x in values && y in values ==> x == y
  }

  function TicksOf(rows: seq<Row>): set<int> {
    set r | r in rows && r.body.ticks.Ticks? :: r.body.ticks.value
  }

  function CommandsOf(rows: seq<Row>): set<string> {
    set r | r in rows && r.body.command.Some? :: r.body.command.value
  }

  function PidsOf(rows: seq<Row>): set<int> {
    set r | r in rows && r.body.pid.Some? :: r.body.pid.value
  }

  function RowIssues(r: Row): set<Issue> {
    (set m | m in METRICS && m in r.body.metrics && r.body.metrics[m] < 0.0 :: InvalidMetric(m))
    + Flag(r.body.errors != {}, ErrorsPresent)
  }

  function AllRowIssues(rows: seq<Row>): set<Issue> {
    if rows == [] then {} else AllRowIssues(rows[..|rows| - 1]) + RowIssues(rows[|rows| - 1])
  }

  function IdentityIssues(rows: seq<Row>, c: ConfigFile): set<Issue> {
    Flag(!NumbersAgree(PidsOf(rows)), PidChanged)
    + Flag(!NumbersAgree(TicksOf(rows)), TicksChanged)
    + Flag(!TextsAgree(CommandsOf(rows)), CommandChanged)
    + Flag(exists p :: p in PidsOf(rows) && Some(p) != c.pid, PidNotConfigured)
    + Flag(exists t :: t in TicksOf(rows) && Some(t) != c.startTicks, TicksNotConfigured)
    + Flag(exists s :: s in CommandsOf(rows) && Some(s) != c.command, CommandNotConfigured)
  }

  function FileIssues(rows: seq<Row>, ev: Evidence, digest: string): set<Issue>
    requires rows != []
  {
    var s := ev.summary;
    Flag(s.schema != SUMMARY_SCHEMA, SummarySchema)
    + Flag(ev.status.summaryDigest != digest, SummaryDigest)
    + Flag(ev.status.last != LastHash(rows), StatusLastHash)
    + Flag(s.state != ev.status.state, SummaryState)
    + Flag(ev.config.credentialsLoaded, ConfigCredentials)
    + Flag(ev.config.ordersAttempted, ConfigOrders)
  }

  function CountIssues(rows: seq<Row>, s: Summary): set<Issue> {
    Flag(s.count != |rows|, SummaryCount)
    + Flag(s.running != |RunningRows(rows)|, SummaryRunning)
    + Flag(s.last != LastHash(rows), SummaryLastHash)
    + Flag(s.errors != AllErrors(rows), SummaryErrors)
  }

  function PlaceIssues(rows: seq<Row>, s: Summary, targetRoot: string): set<Issue>
    requires rows != []
  {
    Flag(s.targetRoot != targetRoot, SummaryRoot)
    + Flag(s.firstAt.Some? && s.firstAt != rows[0].body.sampledAt, SummaryFirst)
    + Flag(s.lastAt.Some? && s.lastAt != rows[|rows| - 1].body.sampledAt, SummaryLast)
  }

  function MaximaIssues(rows: seq<Row>, s: Summary): set<Issue> {
    set m | m in METRICS && (m !in s.maxima || s.maxima[m] != Maximum(rows, m)) :: SummaryMaximum(m)
  }

  function SummaryIssues(rows: seq<Row>, ev: Evidence, digest: string): set<Issue>
    requires rows != []
  {
    FileIssues(rows, ev, digest) + CountIssues(rows, ev.summary)
    + PlaceIssues(rows, ev.summary, ev.config.targetRoot) + MaximaIssues(rows, ev.summary)
  }

  /** What the auditor will not look at. */
  predicate Admissible(ev: Evidence) {
    && ev.status.schema == STATUS_SCHEMA
    && ev.status.state in {DEADLINE, TARGET_EXITED, MISMATCH}
    && ev.config.schema == CONFIG_SCHEMA
    && ev.config.pid.Some? && ev.config.pid.value > 0
    && ev.config.startTicks.Some?
    && ev.config.command.Some? && ValidDigest(ev.config.command.value)
  }

  /** Every row has a time and the two tree metrics. */
  predicate Complete(rows: seq<Row>) {
    forall i :: 0 <= i < |rows| ==>
      rows[i].body.sampledAt.Some? && Files in rows[i].body.metrics && Bytes in rows[i].body.metrics
  }

  function Audit(ev: Evidence, hash: Hash, fileHash: Summary -> string): Report {
    var chain := ReadLines(ev.lines, hash);
    if !Admissible(ev) || chain.Broken? || chain.rows == [] || !Complete(chain.rows) then Refused
    else
      Report(Flag(!NonDecreasing(chain.rows), TimesNotMonotonic)
             + AllRowIssues(chain.rows)
             + IdentityIssues(chain.rows, ev.config)
             + SummaryIssues(chain.rows, ev, fileHash(ev.summary)))
  }

  method RunAudit(ev: Evidence, hash: Hash, fileHash: Summary -> string) returns (report: Report)
    ensures report == Audit(ev, hash, fileHash)
  {
    hide ReadLines, RowIssues, IdentityIssues, SummaryIssues, NonDecreasing, Admissible;
    if !Admissible(ev) { return Refused; }
    var rows, ok := ReadChain(ev.lines, hash);
    if !ok || rows == [] || !Complete(rows) { return Refused; }
    var issues := Flag(!NonDecreasing(rows), TimesNotMonotonic);
    var i := 0;
    while i < |rows|
      invariant 0 <= i <= |rows|
      invariant issues == Flag(!NonDecreasing(rows), TimesNotMonotonic) + AllRowIssues(rows[..i])
    {
      assert rows[..i + 1][..i] == rows[..i];
      issues := issues + RowIssues(rows[i]);
      i := i + 1;
    }
    assert rows[..i] == rows;
    issues := issues + IdentityIssues(rows, ev.config);
    issues := issues + SummaryIssues(rows, ev, fileHash(ev.summary));
    report := Report(issues);
  }

  // --------------------------------------------------------- the two maxima

  lemma {:induction false} PresentValues(rows: seq<Row>, m: Metric)
    ensures forall x :: x in Present(rows, m) <==>
              exists r :: r in rows && m in r.body.metrics && r.body.metrics[m] == x
  {
    if rows != [] {
      var init, last := rows[..|rows| - 1], rows[|rows| - 1];
      PresentValues(init, m);
      assert rows == init + [last];
      forall x
        ensures x in Present(rows, m) <==> exists r :: r in rows && m in r.body.metrics && r.body.metrics[m] == x
      {
        if x in Present(rows, m) && x in Present(init, m) {
          var r :| r in init && m in r.body.metrics && r.body.metrics[m] == x;
          assert r in rows;
        }
      }
    }
  }

  lemma PresentOf(rows: seq<Row>, m: Metric, r: Row)
    requires r in rows
    ensures m in r.body.metrics ==> r.body.metrics[m] in Present(rows, m)
  {
    PresentValues(rows, m);
    if m in r.body.metrics {
      var x := r.body.metrics[m];
      assert r in rows && r.body.metrics[m] == x;
    }
  }

  /** Dropping what is missing and counting it as zero find the same maximum, as
      long as nothing measured is negative. */
  lemma MaximaAgree(rows: seq<Row>, m: Metric)
    requires forall r :: r in rows && m in r.body.metrics ==> r.body.metrics[m] >= 0.0
    ensures LargestOrZero(Present(rows, m)) == LargestOrZero(OrZeros(rows, m))
  {
    var present, zeros := Present(rows, m), OrZeros(rows, m);
    PresentValues(rows, m);
    if rows == [] {
    } else if present == [] {
      forall i | 0 <= i < |zeros| ensures zeros[i] == 0.0 { PresentOf(rows, m, rows[i]); }
      assert zeros[0] == 0.0;
      LargestIs(zeros, 0.0);
    } else {
      var top := Largest(present);
      var r :| r in rows && m in r.body.metrics && r.body.metrics[m] == top;
      var k :| 0 <= k < |rows| && rows[k] == r;
      assert zeros[k] == top;
      forall i | 0 <= i < |zeros| ensures zeros[i] <= top { PresentOf(rows, m, rows[i]); }
      LargestIs(zeros, top);
    }
  }

  // -------------------------------------------------------- what a run writes

  /** A row of the running target itself. */
  predicate OfTarget(r: Row, c: Config) {
    r.body.status == RUNNING && r.body.pid == Some(c.pid)
    && r.body.ticks == Ticks(c.startTicks) && r.body.command == Some(c.command)
  }

  /** What every row of a run is. */
  predicate Produced(r: Row, c: Config) {
    && r.body.sampledAt.Some? && r.body.pid == Some(c.pid)
    && Files in r.body.metrics && Bytes in r.body.metrics
    && (forall m :: m in r.body.metrics ==> r.body.metrics[m] >= 0.0)
    && (r.body.status == RUNNING ==> OfTarget(r, c))
    && (r.body.status == EXITED ==> r.body.ticks.NoTicks? && r.body.command.None?)
    && (r.body.status == MISMATCH ==> IDENTITY_ERROR in r.body.errors)
  }

  predicate NonNegative(metrics: map<Metric, real>) {
    forall m :: m in metrics ==> metrics[m] >= 0.0
  }

  lemma ObservationIsProduced(s: Sample, c: Config, status: string, ticks: Ticks, command: Option<string>,
                              metrics: map<Metric, real>, errors: set<string>, previous: Option<string>, hash: Hash)
    requires ValidConfig(c) && ValidOptionalDigest(previous) && ValidOptionalDigest(command)
    requires (forall b :: ValidDigest(hash(b))) && NonNegative(metrics)
    requires status in {RUNNING, EXITED, MISMATCH} && (ticks.NoTicks? || (ticks.Ticks? && ticks.value >= 0))
    requires status == RUNNING ==> ticks == Ticks(c.startTicks) && command == Some(c.command)
    requires status == EXITED ==> ticks.NoTicks? && command.None?
    requires status == MISMATCH ==> IDENTITY_ERROR in errors
    ensures var r := Seal(Observation(s, c, status, ticks, command, metrics, errors, previous), hash);
            Produced(r, c) && Joins(r, previous, hash)
  {
    hide ValidDigest;
    var r := Seal(Observation(s, c, status, ticks, command, metrics, errors, previous), hash);
    assert ValidDigest(hash(r.body));
  }

  lemma SampleMetrics(s: Sample, c: Config, previous: Option<string>)
    ensures NonNegative(ProcessSample(s, c, previous).metrics)
  {
    hide ErrorOf;
  }

  lemma SampleIdentity(s: Sample, c: Config, previous: Option<string>)
    requires ValidConfig(c) && ValidSample(s)
    ensures var b := ProcessSample(s, c, previous);
            && b.schema == SCHEMA && b.extra == "" && b.previous == previous
            && b.sampledAt == Some(s.at) && b.pid == Some(c.pid)
            && b.metrics == b.metrics[Files := s.files as real][Bytes := s.bytes as real]
            && b.status in {RUNNING, EXITED, MISMATCH} && ValidOptionalDigest(b.command)
            && (b.ticks.NoTicks? || (b.ticks.Ticks? && b.ticks.value >= 0))
            && (b.status == RUNNING ==> b.ticks == Ticks(c.startTicks) && b.command == Some(c.command))
            && (b.status == EXITED ==> b.ticks.NoTicks? && b.command.None?)
            && (b.status == MISMATCH ==> IDENTITY_ERROR in b.errors)
  {
    hide ErrorOf, Put, ValidDigest;
    assert ValidOptionalDigest(Some(c.command));
  }

  lemma SampleIsProduced(s: Sample, c: Config, previous: Option<string>, hash: Hash)
    requires ValidConfig(c) && ValidSample(s) && ValidOptionalDigest(previous) && (forall b :: ValidDigest(hash(b)))
    ensures var r := Seal(ProcessSample(s, c, previous), hash);
            Produced(r, c) && Joins(r, previous, hash)
  {
    var body := ProcessSample(s, c, previous);
    SampleMetrics(s, c, previous);
    SampleIdentity(s, c, previous);
    hide ValidDigest, Produced, Joins, ProcessSample;
    ObservationIsProduced(s, c, body.status, body.ticks, body.command, body.metrics, body.errors, previous, hash);
    assert Observation(s, c, body.status, body.ticks, body.command, body.metrics, body.errors, previous) == body;
  }

  predicate ValidTurns(turns: seq<Turn>) {
    forall i :: 0 <= i < |turns| ==> ValidSample(turns[i].sample)
  }

  /** A run writes a chain; every row but the last is of the running target, and
      the state says what the last one is. */
  lemma {:induction false} RunIsProduced(turns: seq<Turn>, c: Config, hash: Hash)
    requires ValidConfig(c) && ValidTurns(turns) && forall b :: ValidDigest(hash(b))
    ensures var m := Watch(turns, c, hash);
            && Chained(m.rows, hash)
            && (forall r :: r in m.rows ==> Produced(r, c))
            && (forall i :: 0 <= i < |m.rows| - 1 ==> OfTarget(m.rows[i], c))
            && m.state in {RUNNING, DEADLINE, TARGET_EXITED, EXITED, MISMATCH}
            && (if m.state in {EXITED, MISMATCH} then m.rows != [] && m.rows[|m.rows| - 1].body.status == m.state
                else forall r :: r in m.rows ==> OfTarget(r, c))
  {
    if turns != [] {
      var init, t := turns[..|turns| - 1], turns[|turns| - 1];
      RunIsProduced(init, c, hash);
      var before, after := Watch(init, c, hash), Watch(turns, c, hash);
      if after.rows != before.rows {
        LastHashIsValid(before.rows, hash);
        SampleIsProduced(t.sample, c, LastHash(before.rows), hash);
        hide ProcessSample, Produced, OfTarget, Joins, ValidDigest, ValidSample;
        var row := Seal(ProcessSample(t.sample, c, LastHash(before.rows)), hash);
        assert after.rows == before.rows + [row] && after.rows[..|after.rows| - 1] == before.rows;
        ProducedRow(row, c);
      } else {
        hide ProcessSample, Produced, OfTarget, Joins, ValidDigest, ValidSample;
      }
    }
  }

  lemma LastHashIsValid(rows: seq<Row>, hash: Hash)
    requires Chained(rows, hash)
    ensures ValidOptionalDigest(LastHash(rows))
  {
    hide ValidDigest;
  }

  lemma ProducedRow(r: Row, c: Config)
    requires Produced(r, c) && WellFormed(r)
    ensures r.body.status in {RUNNING, EXITED, MISMATCH} && (r.body.status == RUNNING ==> OfTarget(r, c))
  {
  }

  // --------------------------------------------------------------- round trip

  /** The rows of the running target among those of a run. */
  lemma {:induction false} RunningAreRows(rows: seq<Row>)
    ensures forall r :: r in RunningRows(rows) ==> r in rows
  {
    if rows != [] {
      RunningAreRows(rows[..|rows| - 1]);
    }
  }

  lemma SummaryHasNoMismatch(m: Monitor, c: Config, fileHash: Summary -> string)
    requires m.rows != [] && forall r :: r in m.rows ==> Produced(r, c)
    ensures SummaryIssues(m.rows, Publish(m, c, fileHash), fileHash(Summarize(m, c))) == {}
  {
    RunningAreRows(m.rows);
    forall k | k in METRICS ensures Summarize(m, c).maxima[k] == Maximum(m.rows, k) {
      MaximaAgree(if OfTree(k) then m.rows else RunningRows(m.rows), k);
    }
    hide Produced, RunningRows, OrZeros, AllErrors, Present, Entries;
  }

  lemma ErrorInEither(init: seq<Row>, last: Row)
    ensures HasError(init + [last]) <==> HasError(init) || last.body.errors != {}
  {
    if HasError(init) {
      var r :| r in init && r.body.errors != {};
      assert r in init + [last];
    }
    if last.body.errors != {} { assert last in init + [last]; }
  }

  lemma {:induction false} OnlyErrorsPresent(rows: seq<Row>, c: Config)
    requires forall r :: r in rows ==> Produced(r, c)
    ensures AllRowIssues(rows) == Flag(HasError(rows), ErrorsPresent)
  {
    if rows != [] {
      var init, last := rows[..|rows| - 1], rows[|rows| - 1];
      assert rows == init + [last];
      OnlyErrorsPresent(init, c);
      assert Produced(last, c);
      assert RowIssues(last) == Flag(last.body.errors != {}, ErrorsPresent);
      ErrorInEither(init, last);
      hide Produced, RowIssues, HasError;
    }
  }

  /** Rows that are all of the running target raise no identity issue. */
  lemma TargetRowsAgree(rows: seq<Row>, c: Config, file: ConfigFile)
    requires forall r :: r in rows ==> OfTarget(r, c)
    requires file.pid == Some(c.pid) && file.startTicks == Some(c.startTicks) && file.command == Some(c.command)
    ensures IdentityIssues(rows, file) == {}
  {
    forall p | p in PidsOf(rows) ensures p == c.pid {}
    forall t | t in TicksOf(rows) ensures t == c.startTicks {}
    forall s | s in CommandsOf(rows) ensures s == c.command {}
    hide OfTarget, PidsOf, TicksOf, CommandsOf;
  }

  lemma RowsOfRun(m: Monitor, c: Config)
    requires forall r :: r in m.rows ==> Produced(r, c)
    ensures Complete(m.rows)
    ensures forall r :: r in m.rows && r.body.status == MISMATCH ==> r.body.errors != {}
  {
    forall i | 0 <= i < |m.rows|
      ensures m.rows[i].body.sampledAt.Some? && Files in m.rows[i].body.metrics && Bytes in m.rows[i].body.metrics
    {
      assert Produced(m.rows[i], c);
    }
    forall r | r in m.rows && r.body.status == MISMATCH ensures r.body.errors != {} {
      assert Produced(r, c);
    }
  }

  /** Some row carries a resource error. */
  predicate HasError(rows: seq<Row>) {
    exists r :: r in rows && r.body.errors != {}
  }

  lemma RunEvidence(turns: seq<Turn>, c: Config, hash: Hash, fileHash: Summary -> string)
    requires ValidConfig(c) && ValidTurns(turns) && forall b :: ValidDigest(hash(b))
    requires var m := Watch(turns, c, hash); m.rows != [] && m.state != RUNNING
    ensures var m := Watch(turns, c, hash);
            var ev := Publish(m, c, fileHash);
            && ReadLines(ev.lines, hash) == Rows(m.rows) && Complete(m.rows)
            && SummaryIssues(m.rows, ev, fileHash(ev.summary)) == {}
            && AllRowIssues(m.rows) == Flag(HasError(m.rows), ErrorsPresent)
            && (m.state in {DEADLINE, TARGET_EXITED} ==> IdentityIssues(m.rows, ev.config) == {})
            && (m.state == MISMATCH ==> HasError(m.rows))
            && m.state in {DEADLINE, TARGET_EXITED, EXITED, MISMATCH}
  {
    hide Watch, ValidDigest, Produced, OfTarget, Summarize, SummaryIssues, IdentityIssues, AllRowIssues, Chained,
      ReadLines, Entries, Complete, ValidTurns;
    RunIsProduced(turns, c, hash);
    var m := Watch(turns, c, hash);
    ChainedIsRead(m.rows, hash);
    SummaryHasNoMismatch(m, c, fileHash);
    OnlyErrorsPresent(m.rows, c);
    if m.state in {DEADLINE, TARGET_EXITED} { TargetRowsAgree(m.rows, c, Publish(m, c, fileHash).config); }
    RowsOfRun(m, c);
    if m.state == MISMATCH { assert m.rows[|m.rows| - 1] in m.rows; }
  }

  lemma RunAdmissible(m: Monitor, c: Config, fileHash: Summary -> string)
    requires ValidConfig(c) && m.state in {DEADLINE, TARGET_EXITED, EXITED, MISMATCH}
    ensures Admissible(Publish(m, c, fileHash)) <==> m.state != EXITED
  {
    hide Summarize, ValidDigest;
  }

  /** The auditor reads back what the producer wrote, finds no mismatch between the
      two summaries, refuses exactly the runs whose target was lost while being
      sampled, and passes exactly those that ended at the deadline or with the
      target, with sample times in order and no resource error. */
  lemma RoundTrip(turns: seq<Turn>, c: Config, hash: Hash, fileHash: Summary -> string)
    requires ValidConfig(c) && ValidTurns(turns) && forall b :: ValidDigest(hash(b))
    requires var m := Watch(turns, c, hash); m.rows != [] && m.state != RUNNING
    ensures var m := Watch(turns, c, hash);
            var ev := Publish(m, c, fileHash);
            var report := Audit(ev, hash, fileHash);
            && ReadLines(ev.lines, hash) == Rows(m.rows) && Complete(m.rows)
            && SummaryIssues(m.rows, ev, fileHash(ev.summary)) == {}
            && (report.Refused? <==> m.state == EXITED)
            && (report == Report({}) <==>
                  && m.state in {DEADLINE, TARGET_EXITED}
                  && NonDecreasing(m.rows)
                  && !HasError(m.rows))
  {
    hide Watch, ReadLines, SummaryIssues, AllRowIssues, IdentityIssues, Admissible, NonDecreasing, Publish, HasError,
      ValidConfig, ValidTurns, ValidDigest;
    RunEvidence(turns, c, hash, fileHash);
    var m := Watch(turns, c, hash);
    RunAdmissible(m, c, fileHash);
    var report := Audit(Publish(m, c, fileHash), hash, fileHash);
    if report.Report? && HasError(m.rows) {
      assert ErrorsPresent in report.issues;
    }
    if report.Report? && !NonDecreasing(m.rows) {
      assert TimesNotMonotonic in report.issues;
    }
  }
}
