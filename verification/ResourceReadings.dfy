/** What a resource log, its summary and its audit say of the readings that were taken, in
    the terms of the readings and the files alone. */
module ResourceReadings {

  import opened Options
  import opened Extremes
  import opened ResourceLog
  import opened ResourceMonitor
  import opened ResourceAudit

  // -------------------------------------------------------------- one sample

  /** The probe found the process that was expected. */
  predicate IsExpected(s: Sample, c: Config) {
    s.probe.Found? && s.probe.ticks == c.startTicks && s.probe.command == Some(c.command)
  }

  predicate CanBeRead(u: Usage) {
    u.memory.Got? && u.threads.Got?
  }

  /** The value read, present exactly when it was read. */
  predicate Holds(metrics: map<Metric, real>, m: Metric, r: Reading<nat>) {
    (m in metrics <==> r.Got?) && (r.Got? ==> metrics[m] == r.value as real)
  }

  /** The errors of the readings that failed. */
  function Failures(u: Usage): set<string> {
    (if u.cpu.Failed? then {u.cpu.error} else {})
    + (if u.descriptors.Failed? then {u.descriptors.error} else {})
    + (if u.connections.Failed? then {u.connections.error} else {})
  }

  /** The metrics and the errors of a row of the running process. */
  predicate RunningReadings(b: Body, s: Sample)
    requires s.probe.Found?
  {
    var u := s.probe.usage;
    && u.memory.Got? && u.threads.Got?
    && Rss in b.metrics && b.metrics[Rss] == u.memory.value.rss as real / 1048576.0
    && Vms in b.metrics && b.metrics[Vms] == u.memory.value.vms as real / 1048576.0
    && Holds(b.metrics, Threads, u.threads)
    && (Cpu in b.metrics <==> u.cpu.Got?)
    && (u.cpu.Got? ==> b.metrics[Cpu] == if u.cpu.value > 0.0 then u.cpu.value else 0.0)
    && Holds(b.metrics, Descriptors, u.descriptors) && Holds(b.metrics, Connections, u.connections)
    && b.errors == s.rootErrors + Failures(u)
  }

  /** The body of a row, field by field, from the readings of its sample. */
  predicate IsBodyOf(b: Body, s: Sample, c: Config, previous: Option<string>) {
    && b.schema == SCHEMA && b.sampledAt == Some(s.at) && b.pid == Some(c.pid)
    && b.previous == previous && b.extra == ""
    && Files in b.metrics && b.metrics[Files] == s.files as real
    && Bytes in b.metrics && b.metrics[Bytes] == s.bytes as real
    && (if IsExpected(s, c) && CanBeRead(s.probe.usage) then
          && b.status == "running" && b.ticks == Ticks(c.startTicks) && b.command == Some(c.command)
          && RunningReadings(b, s)
        else if s.probe.Found? && !IsExpected(s, c) then
          && b.status == "identity_mismatch" && b.ticks == Ticks(s.probe.ticks) && b.command == s.probe.command
          && b.metrics.Keys == {Files, Bytes} && b.errors == s.rootErrors + {"process_identity_mismatch"}
        else
          && b.status == "exited" && b.ticks == NoTicks && b.command == None && b.metrics.Keys == {Files, Bytes}
          && b.errors
             == s.rootErrors
                + (if s.probe.Gone? then {s.probe.error}
                   else if s.probe.usage.memory.Failed? then {s.probe.usage.memory.error}
                   else Failures(s.probe.usage) + {s.probe.usage.threads.error}))
  }

  lemma PutHolds(metrics: map<Metric, real>, m: Metric, r: Reading<nat>)
    requires m !in metrics
    ensures Holds(Put(metrics, m, r), m, r)
    ensures forall k :: k != m ==> (k in Put(metrics, m, r) <==> k in metrics)
    ensures forall k :: k != m && k in metrics ==> Put(metrics, m, r)[k] == metrics[k]
  {
  }

  lemma RunningBody(s: Sample, c: Config, previous: Option<string>)
    requires IsExpected(s, c) && CanBeRead(s.probe.usage)
    ensures var b, u := ProcessSample(s, c, previous), s.probe.usage;
            && b == Body(SCHEMA, Some(s.at), Some(c.pid), RUNNING, Ticks(c.startTicks), Some(c.command), b.metrics,
                         b.errors, previous, "")
            && b.errors == s.rootErrors + Failures(u)
            && b.metrics == RunningMetrics(u, s.files, s.bytes)
  {
    hide Put, ErrorOf, Failures;
    FailuresAre(s.rootErrors, s.probe.usage);
  }

  /** The metrics in the order in which they are read. */
  function RunningMetrics(u: Usage, files: nat, bytes: nat): map<Metric, real>
    requires CanBeRead(u)
  {
    var mib := map[Rss := u.memory.value.rss as real / BYTES_PER_MIB, Vms := u.memory.value.vms as real / BYTES_PER_MIB,
                   Threads := u.threads.value as real];
    var cpu := if u.cpu.Got? then mib[Cpu := if u.cpu.value < 0.0 then 0.0 else u.cpu.value] else mib;
    Put(Put(cpu, Descriptors, u.descriptors), Connections, u.connections)
      [Files := files as real][Bytes := bytes as real]
  }

  lemma MetricsAre(u: Usage, files: nat, bytes: nat)
    requires CanBeRead(u)
    ensures var m := RunningMetrics(u, files, bytes);
            && Files in m && m[Files] == files as real && Bytes in m && m[Bytes] == bytes as real
            && Rss in m && m[Rss] == u.memory.value.rss as real / 1048576.0
            && Vms in m && m[Vms] == u.memory.value.vms as real / 1048576.0
            && Holds(m, Threads, u.threads)
            && (Cpu in m <==> u.cpu.Got?) && (u.cpu.Got? ==> m[Cpu] == if u.cpu.value > 0.0 then u.cpu.value else 0.0)
            && Holds(m, Descriptors, u.descriptors) && Holds(m, Connections, u.connections)
  {
    hide Put;
    var mib := map[Rss := u.memory.value.rss as real / BYTES_PER_MIB, Vms := u.memory.value.vms as real / BYTES_PER_MIB,
                   Threads := u.threads.value as real];
    var cpu := if u.cpu.Got? then mib[Cpu := if u.cpu.value < 0.0 then 0.0 else u.cpu.value] else mib;
    PutHolds(cpu, Descriptors, u.descriptors);
    PutHolds(Put(cpu, Descriptors, u.descriptors), Connections, u.connections);
  }

  lemma RunningSample(s: Sample, c: Config, previous: Option<string>)
    requires IsExpected(s, c) && CanBeRead(s.probe.usage)
    ensures IsBodyOf(ProcessSample(s, c, previous), s, c, previous)
  {
    hide ProcessSample, RunningMetrics, Holds, Failures;
    RunningBody(s, c, previous);
    MetricsAre(s.probe.usage, s.files, s.bytes);
  }

  lemma FailuresAre(root: set<string>, u: Usage)
    ensures root + ErrorOf(u.cpu) + ErrorOf(u.descriptors) + ErrorOf(u.connections) == root + Failures(u)
  {
  }

  lemma OtherSample(s: Sample, c: Config, previous: Option<string>)
    requires !(IsExpected(s, c) && CanBeRead(s.probe.usage))
    ensures IsBodyOf(ProcessSample(s, c, previous), s, c, previous)
  {
    hide RunningReadings;
    var b := ProcessSample(s, c, previous);
    assert b.metrics == map[Files := s.files as real, Bytes := s.bytes as real];
    if s.probe.Found? && s.probe.usage.threads.Failed? {
      var u := s.probe.usage;
      assert s.rootErrors + ErrorOf(u.cpu) + ErrorOf(u.descriptors) + ErrorOf(u.connections) + {u.threads.error}
          == s.rootErrors + (Failures(u) + {u.threads.error});
    }
  }

  /** Every row holds the readings of its sample: status, identity, metrics and errors. */
  lemma SampleIs(s: Sample, c: Config, previous: Option<string>)
    ensures IsBodyOf(ProcessSample(s, c, previous), s, c, previous)
  {
    hide IsBodyOf, ProcessSample;
    if IsExpected(s, c) && CanBeRead(s.probe.usage) {
      RunningSample(s, c, previous);
    } else {
      OtherSample(s, c, previous);
    }
  }

  // ----------------------------------------------------------------- the run

  /** The turn took a sample. */
  predicate Sampled(t: Turn, c: Config) {
    t.now < c.until && t.running
  }

  /** Row `i` is of the turn: it holds the readings, names the row before it and carries its
      own digest. */
  predicate IsRowOf(rows: seq<Row>, i: nat, t: Turn, c: Config, hash: Hash)
    requires i < |rows|
  {
    && Sampled(t, c) && rows[i].recordHash == hash(rows[i].body)
    && IsBodyOf(rows[i].body, t.sample, c, if i == 0 then None else Some(rows[i - 1].recordHash))
  }

  lemma RowStays(rows: seq<Row>, r: Row, i: nat, t: Turn, c: Config, hash: Hash)
    requires i < |rows|
    ensures IsRowOf(rows + [r], i, t, c, hash) <==> IsRowOf(rows, i, t, c, hash)
  {
    hide IsBodyOf;
    assert (rows + [r])[i] == rows[i] && (i > 0 ==> (rows + [r])[i - 1] == rows[i - 1]);
  }

  lemma StatesDiffer()
    ensures "running" !in {"deadline_reached", "target_exited", "identity_mismatch", "exited"}
  {
    assert |"running"| == 7 && |"deadline_reached"| == 16 && |"target_exited"| == 13 && |"identity_mismatch"| == 17
        && |"exited"| == 6;
  }

  /** The rows are those of the first `n` turns, and the state says why no more follow. */
  predicate WatchedTo(m: Monitor, turns: seq<Turn>, n: nat, c: Config, hash: Hash)
    requires n <= |turns|
  {
    && |m.rows| == n
    && (forall i :: 0 <= i < n ==> IsRowOf(m.rows, i, turns[i], c, hash))
    && (forall i :: 0 <= i < n - 1 ==> m.rows[i].body.status == "running")
    && (n > 0 && m.rows[n - 1].body.status != "running" ==> m.state == m.rows[n - 1].body.status)
    && (n == 0 || m.rows[n - 1].body.status == "running" ==>
          if n == |turns| then m.state == "running"
          else if turns[n].now >= c.until then m.state == "deadline_reached"
          else !turns[n].running && m.state == "target_exited")
  }

  lemma RowAdded(m: Monitor, turns: seq<Turn>, t: Turn, c: Config, hash: Hash)
    requires WatchedTo(m, turns, |turns|, c, hash) && m.state == RUNNING && Sampled(t, c)
    ensures WatchedTo(TakeTurn(m, t, c, hash), turns + [t], |turns| + 1, c, hash)
  {
    StatesDiffer();
    var n, all, after := |turns|, turns + [t], TakeTurn(m, t, c, hash);
    var body := ProcessSample(t.sample, c, LastHash(m.rows));
    var row := Row(body, hash(body));
    SampleIs(t.sample, c, LastHash(m.rows));
    StatusOfBody(body, t.sample, c, LastHash(m.rows));
    hide ProcessSample, IsBodyOf;
    assert after == Monitor(m.rows + [row], body.status);
    assert IsRowOf(m.rows + [row], n, t, c, hash);
    hide IsRowOf, Sampled, TakeTurn;
    forall i | 0 <= i < n + 1 ensures IsRowOf(after.rows, i, all[i], c, hash) {
      if i < n { RowStays(m.rows, row, i, turns[i], c, hash); }
    }
    assert forall i :: 0 <= i < n ==> after.rows[i] == m.rows[i];
    if n > 0 { assert m.rows[n - 1].body.status == RUNNING; }
  }

  lemma RowNotAdded(m: Monitor, turns: seq<Turn>, n: nat, t: Turn, c: Config, hash: Hash)
    requires n <= |turns| && WatchedTo(m, turns, n, c, hash) && !(m.state == RUNNING && Sampled(t, c))
    ensures WatchedTo(TakeTurn(m, t, c, hash), turns + [t], n, c, hash)
  {
    StatesDiffer();
    hide ProcessSample, IsBodyOf, IsRowOf;
    var all, after := turns + [t], TakeTurn(m, t, c, hash);
    assert all[|turns|] == t && forall i :: 0 <= i < |turns| ==> all[i] == turns[i];
    assert after.rows == m.rows;
    forall i | 0 <= i < n ensures IsRowOf(after.rows, i, all[i], c, hash) {
      assert IsRowOf(m.rows, i, turns[i], c, hash);
    }
  }

  lemma TurnWatched(m: Monitor, turns: seq<Turn>, n: nat, t: Turn, c: Config, hash: Hash) returns (k: nat)
    requires n <= |turns| && WatchedTo(m, turns, n, c, hash)
    ensures k <= |turns| + 1 && WatchedTo(TakeTurn(m, t, c, hash), turns + [t], k, c, hash)
  {
    StatesDiffer();
    if m.state == RUNNING && Sampled(t, c) {
      assert n == |turns|;
      k := n + 1;
      hide WatchedTo, TakeTurn;
      RowAdded(m, turns, t, c, hash);
    } else {
      k := n;
      hide WatchedTo, TakeTurn;
      RowNotAdded(m, turns, n, t, c, hash);
    }
  }

  lemma StatusOfBody(b: Body, s: Sample, c: Config, previous: Option<string>)
    ensures IsBodyOf(b, s, c, previous) ==> b.status in {"running", "identity_mismatch", "exited"}
  {
  }

  /** A run samples turn by turn until the deadline, the end of the target or a sample that
      is not of the running target, and writes the readings of each. */
  lemma {:induction false} RunWrites(turns: seq<Turn>, c: Config, hash: Hash) returns (n: nat)
    ensures n <= |turns| && WatchedTo(Watch(turns, c, hash), turns, n, c, hash)
  {
    hide WatchedTo, TakeTurn;
    if turns == [] {
      n := 0;
      NothingWatched(c, hash);
    } else {
      var k := RunWrites(turns[..|turns| - 1], c, hash);
      assert turns[..|turns| - 1] + [turns[|turns| - 1]] == turns;
      n := TurnWatched(Watch(turns[..|turns| - 1], c, hash), turns[..|turns| - 1], k, turns[|turns| - 1], c, hash);
    }
  }

  lemma NothingWatched(c: Config, hash: Hash)
    ensures WatchedTo(Watch([], c, hash), [], 0, c, hash)
  {
  }

  // -------------------------------------------------------------- the summary

  /** The row counts for the metric: the tree metrics of every row, the others of running
      rows. */
  predicate CountsFor(r: Row, m: Metric) {
    m == Files || m == Bytes || r.body.status == "running"
  }

  function ValueOf(r: Row, m: Metric): real {
    if m in r.body.metrics then r.body.metrics[m] else 0.0
  }

  /** The largest value of the rows that count, a missing one as zero; zero without any. */
  predicate IsTop(rows: seq<Row>, m: Metric, top: real) {
    && (forall i :: 0 <= i < |rows| && CountsFor(rows[i], m) ==> ValueOf(rows[i], m) <= top)
    && (if exists i :: 0 <= i < |rows| && CountsFor(rows[i], m) then
          exists i :: 0 <= i < |rows| && CountsFor(rows[i], m) && ValueOf(rows[i], m) == top
        else top == 0.0)
  }

  function Running(rows: seq<Row>): nat {
    if rows == [] then 0 else Running(rows[..|rows| - 1]) + if rows[|rows| - 1].body.status == "running" then 1 else 0
  }

  lemma {:induction false} RunningAre(rows: seq<Row>)
    ensures |RunningRows(rows)| == Running(rows)
    ensures forall r :: r in RunningRows(rows) <==> r in rows && r.body.status == "running"
  {
    if rows != [] {
      assert rows == rows[..|rows| - 1] + [rows[|rows| - 1]];
      RunningAre(rows[..|rows| - 1]);
    }
  }

  lemma TopOf(all: seq<Row>, counted: seq<Row>, m: Metric)
    requires forall r :: r in counted <==> r in all && CountsFor(r, m)
    ensures IsTop(all, m, LargestOrZero(OrZeros(counted, m)))
  {
    var zeros := OrZeros(counted, m);
    forall i | 0 <= i < |all| && CountsFor(all[i], m)
      ensures counted != [] && ValueOf(all[i], m) <= Largest(zeros)
    {
      assert all[i] in counted;
      var k :| 0 <= k < |counted| && counted[k] == all[i];
      assert zeros[k] == ValueOf(all[i], m);
    }
    if counted != [] {
      var k :| 0 <= k < |zeros| && zeros[k] == Largest(zeros);
      assert counted[k] in all;
      var i :| 0 <= i < |all| && all[i] == counted[k];
      assert CountsFor(all[i], m) && ValueOf(all[i], m) == Largest(zeros);
    }
  }

  /** The published summary and files, figure by figure, from the rows. */
  lemma PublishedIs(m: Monitor, c: Config, fileHash: Summary -> string)
    ensures var ev := Publish(m, c, fileHash);
            var s := ev.summary;
            && s.schema == "advisorai.phase3.resource-monitor.v2.summary" && s.state == m.state
            && s.count == |m.rows| && s.running == Running(m.rows) && s.targetRoot == c.targetRoot
            && (m.rows == [] ==> s.firstAt == None && s.lastAt == None && s.last == None)
            && (m.rows != [] ==>
                  && s.firstAt == m.rows[0].body.sampledAt && s.lastAt == m.rows[|m.rows| - 1].body.sampledAt
                  && s.last == Some(m.rows[|m.rows| - 1].recordHash))
            && (forall k: Metric :: k in s.maxima && IsTop(m.rows, k, s.maxima[k]))
            && (forall e :: e in s.errors <==> exists i :: 0 <= i < |m.rows| && e in m.rows[i].body.errors)
            && ev.status == StatusFile("advisorai.phase3.resource-monitor.v2.status", m.state, fileHash(s), s.last)
            && ev.config == ConfigFile("advisorai.phase3.resource-monitor.v2.config", Some(c.pid), Some(c.startTicks),
                                       Some(c.command), c.targetRoot, false, false)
  {
    var s := Summarize(m, c);
    RunningAre(m.rows);
    AllMetrics();
    forall k: Metric ensures k in s.maxima && IsTop(m.rows, k, s.maxima[k]) {
      TopOf(m.rows, if OfTree(k) then m.rows else RunningRows(m.rows), k);
    }
    forall e ensures e in s.errors <==> exists i :: 0 <= i < |m.rows| && e in m.rows[i].body.errors {
      if e in s.errors {
        var r :| r in m.rows && e in r.body.errors;
        var i :| 0 <= i < |m.rows| && m.rows[i] == r;
      }
    }
    hide IsTop, OrZeros, RunningRows;
  }

  lemma AllMetrics()
    ensures forall k: Metric :: k in METRICS
  {
    forall k: Metric ensures k in METRICS {
      match k
      case Rss => assert METRICS[0] == k;
      case Vms => assert METRICS[1] == k;
      case Cpu => assert METRICS[2] == k;
      case Threads => assert METRICS[3] == k;
      case Descriptors => assert METRICS[4] == k;
      case Connections => assert METRICS[5] == k;
      case Files => assert METRICS[6] == k;
      case Bytes => assert METRICS[7] == k;
    }
  }

  // ----------------------------------------------------------- reading the log

  predicate IsHexDigest(s: string) {
    |s| == 64 && forall i :: 0 <= i < 64 ==> ('0' <= s[i] <= '9' || 'a' <= s[i] <= 'f')
  }

  lemma DigestIs(s: string)
    ensures ValidDigest(s) <==> IsHexDigest(s)
  {
    forall ch: char ensures ch in "0123456789abcdef" <==> ('0' <= ch <= '9' || 'a' <= ch <= 'f') { HexIs(ch); }
  }

  lemma HexIs(ch: char)
    ensures ch in "0123456789abcdef" <==> ('0' <= ch <= '9' || 'a' <= ch <= 'f')
  {
    var digits := "0123456789abcdef";
    if '0' <= ch <= '9' { assert digits[ch as int - '0' as int] == ch; }
    if 'a' <= ch <= 'f' { assert digits[10 + ch as int - 'a' as int] == ch; }
  }

  /** Row `i` is well formed, names the record before it and carries its own digest. */
  predicate RowFits(rows: seq<Row>, i: nat, hash: Hash)
    requires i < |rows|
  {
    var b := rows[i].body;
    && b.schema == "advisorai.phase3.resource-monitor.v2" && b.pid.Some? && b.pid.value > 0
    && (b.status == "running" || b.status == "exited" || b.status == "identity_mismatch")
    && (b.ticks == NoTicks || (b.ticks.Ticks? && b.ticks.value >= 0))
    && (b.command.Some? ==> IsHexDigest(b.command.value)) && (b.previous.Some? ==> IsHexDigest(b.previous.value))
    && IsHexDigest(rows[i].recordHash) && rows[i].recordHash == hash(b)
    && b.previous == if i == 0 then None else Some(rows[i - 1].recordHash)
  }

  predicate AllFit(rows: seq<Row>, hash: Hash) {
    forall i :: 0 <= i < |rows| ==> RowFits(rows, i, hash)
  }

  function RowsIn(lines: seq<Line>): seq<Row> {
    if lines == [] then []
    else RowsIn(lines[..|lines| - 1]) + if lines[|lines| - 1].Entry? then [lines[|lines| - 1].row] else []
  }

  lemma JoinsFits(init: seq<Row>, r: Row, hash: Hash)
    ensures RowFits(init + [r], |init|, hash) <==> Joins(r, LastHash(init), hash)
  {
    DigestIs(r.recordHash);
    if r.body.command.Some? { DigestIs(r.body.command.value); }
    if r.body.previous.Some? { DigestIs(r.body.previous.value); }
    hide ValidDigest, IsHexDigest;
    var rows := init + [r];
    assert rows[|init|] == r && (init != [] ==> rows[|init| - 1] == init[|init| - 1]);
  }

  lemma FitsStep(init: seq<Row>, r: Row, hash: Hash)
    ensures AllFit(init + [r], hash) <==> AllFit(init, hash) && RowFits(init + [r], |init|, hash)
  {
    var rows := init + [r];
    assert forall i :: 0 <= i < |init| ==> rows[i] == init[i];
    forall i | 0 <= i < |init| ensures RowFits(rows, i, hash) <==> RowFits(init, i, hash) {}
    hide RowFits;
  }

  /** A log is accepted exactly when every line that is not blank is an object and every row
      fits, and then it is those rows. */
  lemma {:induction false} LogAccepted(lines: seq<Line>, hash: Hash)
    ensures ReadLines(lines, hash)
         == if NotAnObject !in lines && AllFit(RowsIn(lines), hash) then Rows(RowsIn(lines)) else Broken
  {
    hide AllFit, RowFits, Joins, LastHash;
    if lines == [] {
      assert AllFit([], hash) by { NoRowsFit(hash); }
    } else {
      var init, line := lines[..|lines| - 1], lines[|lines| - 1];
      assert lines == init + [line];
      LogAccepted(init, hash);
      if line.Entry? {
        FitsStep(RowsIn(init), line.row, hash);
        JoinsFits(RowsIn(init), line.row, hash);
        assert RowsIn(lines) == RowsIn(init) + [line.row];
      } else {
        assert RowsIn(lines) == RowsIn(init);
      }
    }
  }

  lemma NoRowsFit(hash: Hash)
    ensures AllFit([], hash)
  {
  }

  // ------------------------------------------------------------------ the audit

  predicate HasErrorIn(rows: seq<Row>, error: string) {
    exists i :: 0 <= i < |rows| && error in rows[i].body.errors
  }

  /** What each issue of an audit means. */
  ghost predicate IsIssue(issue: Issue, rows: seq<Row>, ev: Evidence, digest: string)
    requires rows != [] && Complete(rows)
  {
    var s, c, last := ev.summary, ev.config, rows[|rows| - 1];
    match issue
    case TimesNotMonotonic =>
      exists i, j :: 0 <= i < j < |rows| && rows[i].body.sampledAt.value > rows[j].body.sampledAt.value
    case PidChanged =>
      exists i, j :: 0 <= i < |rows| && 0 <= j < |rows| && rows[i].body.pid.Some? && rows[j].body.pid.Some?
        && rows[i].body.pid != rows[j].body.pid
    case TicksChanged =>
      exists i, j :: 0 <= i < |rows| && 0 <= j < |rows| && rows[i].body.ticks.Ticks? && rows[j].body.ticks.Ticks?
        && rows[i].body.ticks != rows[j].body.ticks
    case CommandChanged =>
      exists i, j :: 0 <= i < |rows| && 0 <= j < |rows| && rows[i].body.command.Some? && rows[j].body.command.Some?
        && rows[i].body.command != rows[j].body.command
    case InvalidMetric(m) => exists i :: 0 <= i < |rows| && m in rows[i].body.metrics && rows[i].body.metrics[m] < 0.0
    case ErrorsPresent => exists i :: 0 <= i < |rows| && rows[i].body.errors != {}
    case PidNotConfigured => exists i :: 0 <= i < |rows| && rows[i].body.pid.Some? && rows[i].body.pid != c.pid
    case TicksNotConfigured =>
      exists i :: 0 <= i < |rows| && rows[i].body.ticks.Ticks? && Some(rows[i].body.ticks.value) != c.startTicks
    case CommandNotConfigured =>
      exists i :: 0 <= i < |rows| && rows[i].body.command.Some? && rows[i].body.command != c.command
    case SummarySchema => s.schema != "advisorai.phase3.resource-monitor.v2.summary"
    case SummaryDigest => ev.status.summaryDigest != digest
    case StatusLastHash => ev.status.last != Some(last.recordHash)
    case SummaryState => s.state != ev.status.state
    case SummaryCount => s.count != |rows|
    case SummaryRunning => s.running != Running(rows)
    case SummaryLastHash => s.last != Some(last.recordHash)
    case SummaryRoot => s.targetRoot != c.targetRoot
    case SummaryFirst => s.firstAt.Some? && s.firstAt != rows[0].body.sampledAt
    case SummaryLast => s.lastAt.Some? && s.lastAt != last.body.sampledAt
    case SummaryMaximum(m) => m !in s.maxima || !IsPresentTop(rows, m, s.maxima[m])
    case SummaryErrors => !(forall e :: e in s.errors <==> HasErrorIn(rows, e))
    case ConfigCredentials => c.credentialsLoaded
    case ConfigOrders => c.ordersAttempted
  }

  /** The largest value present in the rows that count; zero without any. */
  predicate IsPresentTop(rows: seq<Row>, m: Metric, top: real) {
    && (forall i :: 0 <= i < |rows| && CountsFor(rows[i], m) && m in rows[i].body.metrics ==>
          rows[i].body.metrics[m] <= top)
    && (if exists i :: 0 <= i < |rows| && CountsFor(rows[i], m) && m in rows[i].body.metrics then
          exists i :: 0 <= i < |rows| && CountsFor(rows[i], m) && m in rows[i].body.metrics
                      && rows[i].body.metrics[m] == top
        else top == 0.0)
  }

  lemma {:induction false} RowIssuesAre(rows: seq<Row>, issue: Issue)
    ensures issue in AllRowIssues(rows) <==> exists i :: 0 <= i < |rows| && issue in RowIssues(rows[i])
  {
    hide RowIssues;
    if rows != [] {
      var n := |rows| - 1;
      RowIssuesAre(rows[..n], issue);
      assert forall i :: 0 <= i < n ==> rows[i] == rows[..n][i];
    }
  }

  lemma PresentTop(all: seq<Row>, counted: seq<Row>, m: Metric)
    requires forall r :: r in counted <==> r in all && CountsFor(r, m)
    ensures IsPresentTop(all, m, LargestOrZero(Present(counted, m)))
  {
    var values := Present(counted, m);
    PresentValues(counted, m);
    hide Present;
    forall i | 0 <= i < |all| && CountsFor(all[i], m) && m in all[i].body.metrics
      ensures values != [] && all[i].body.metrics[m] <= Largest(values)
    {
      assert all[i] in counted;
      PresentOf(counted, m, all[i]);
      var k :| 0 <= k < |values| && values[k] == all[i].body.metrics[m];
    }
    if values != [] {
      assert Largest(values) in values;
      var r :| r in counted && m in r.body.metrics && r.body.metrics[m] == Largest(values);
      var i :| 0 <= i < |all| && all[i] == r;
      assert CountsFor(all[i], m) && all[i].body.metrics[m] == Largest(values);
    }
  }

  lemma OnePresentTop(rows: seq<Row>, m: Metric, x: real, y: real)
    requires IsPresentTop(rows, m, x) && IsPresentTop(rows, m, y)
    ensures x == y
  {
  }

  lemma MaximumIs(rows: seq<Row>, m: Metric, top: real)
    ensures IsPresentTop(rows, m, top) <==> top == Maximum(rows, m)
  {
    hide IsPresentTop, Present, RunningRows;
    RunningAre(rows);
    PresentTop(rows, if OfTree(m) then rows else RunningRows(rows), m);
    if IsPresentTop(rows, m, top) { OnePresentTop(rows, m, top, Maximum(rows, m)); }
  }

  lemma RowIssueMeans(rows: seq<Row>, ev: Evidence, digest: string, issue: Issue)
    requires rows != [] && Complete(rows) && (issue.InvalidMetric? || issue.ErrorsPresent?)
    ensures issue in AllRowIssues(rows) <==> IsIssue(issue, rows, ev, digest)
  {
    RowIssuesAre(rows, issue);
    AllMetrics();
    hide AllRowIssues, Complete;
  }

  lemma TicksHave(rows: seq<Row>, t: int)
    ensures t in TicksOf(rows) <==> exists i :: 0 <= i < |rows| && rows[i].body.ticks == Ticks(t)
  {
    if t in TicksOf(rows) {
      var r :| r in rows && r.body.ticks == Ticks(t);
      var i :| 0 <= i < |rows| && rows[i] == r;
    }
    if i :| 0 <= i < |rows| && rows[i].body.ticks == Ticks(t) { assert rows[i] in rows; }
  }

  lemma PidsHave(rows: seq<Row>, p: int)
    ensures p in PidsOf(rows) <==> exists i :: 0 <= i < |rows| && rows[i].body.pid == Some(p)
  {
    if p in PidsOf(rows) {
      var r :| r in rows && r.body.pid == Some(p);
      var i :| 0 <= i < |rows| && rows[i] == r;
    }
    if i :| 0 <= i < |rows| && rows[i].body.pid == Some(p) { assert rows[i] in rows; }
  }

  lemma CommandsHave(rows: seq<Row>, s: string)
    ensures s in CommandsOf(rows) <==> exists i :: 0 <= i < |rows| && rows[i].body.command == Some(s)
  {
    if s in CommandsOf(rows) {
      var r :| r in rows && r.body.command == Some(s);
      var i :| 0 <= i < |rows| && rows[i] == r;
    }
    if i :| 0 <= i < |rows| && rows[i].body.command == Some(s) { assert rows[i] in rows; }
  }

  predicate OfIdentity(issue: Issue) {
    issue.PidChanged? || issue.TicksChanged? || issue.CommandChanged? || issue.PidNotConfigured?
    || issue.TicksNotConfigured? || issue.CommandNotConfigured?
  }

  /** An identity issue by the sets of identities. */
  predicate IdentityRaised(issue: Issue, rows: seq<Row>, c: ConfigFile) {
    match issue
    case PidChanged => !NumbersAgree(PidsOf(rows))
    case TicksChanged => !NumbersAgree(TicksOf(rows))
    case CommandChanged => !TextsAgree(CommandsOf(rows))
    case PidNotConfigured => exists p :: p in PidsOf(rows) && Some(p) != c.pid
    case TicksNotConfigured => exists t :: t in TicksOf(rows) && Some(t) != c.startTicks
    case CommandNotConfigured => exists s :: s in CommandsOf(rows) && Some(s) != c.command
    case _ => false
  }

  lemma IdentityIssueRaised(rows: seq<Row>, c: ConfigFile, issue: Issue)
    ensures issue in IdentityIssues(rows, c) <==> IdentityRaised(issue, rows, c)
  {
    hide NumbersAgree, TextsAgree, PidsOf, TicksOf, CommandsOf;
  }

  lemma IdentityIssueMeans(rows: seq<Row>, ev: Evidence, digest: string, issue: Issue)
    requires rows != [] && Complete(rows) && OfIdentity(issue)
    ensures issue in IdentityIssues(rows, ev.config) <==> IsIssue(issue, rows, ev, digest)
  {
    IdentityIssueRaised(rows, ev.config, issue);
    hide Complete, IdentityIssues;
    match issue
    case PidChanged => PidsDiffer(rows);
    case TicksChanged => TicksDiffer(rows);
    case CommandChanged => CommandsDiffer(rows);
    case PidNotConfigured => OtherPid(rows, ev.config);
    case TicksNotConfigured => OtherTicks(rows, ev.config);
    case CommandNotConfigured => OtherCommand(rows, ev.config);
  }

  lemma OtherPid(rows: seq<Row>, c: ConfigFile)
    ensures (exists p :: p in PidsOf(rows) && Some(p) != c.pid) <==>
            exists i :: 0 <= i < |rows| && rows[i].body.pid.Some? && rows[i].body.pid != c.pid
  {
    forall p ensures p in PidsOf(rows) <==> exists i :: 0 <= i < |rows| && rows[i].body.pid == Some(p) {
      PidsHave(rows, p);
    }
    hide PidsOf;
    if i :| 0 <= i < |rows| && rows[i].body.pid.Some? && rows[i].body.pid != c.pid {
      PidsHave(rows, rows[i].body.pid.value);
    }
  }

  lemma OtherTicks(rows: seq<Row>, c: ConfigFile)
    ensures (exists t :: t in TicksOf(rows) && Some(t) != c.startTicks) <==>
            exists i :: 0 <= i < |rows| && rows[i].body.ticks.Ticks? && Some(rows[i].body.ticks.value) != c.startTicks
  {
    hide TicksOf;
    if i :| 0 <= i < |rows| && rows[i].body.ticks.Ticks? && Some(rows[i].body.ticks.value) != c.startTicks {
      TicksHave(rows, rows[i].body.ticks.value);
      assert rows[i].body.ticks == Ticks(rows[i].body.ticks.value);
    }
    if t :| t in TicksOf(rows) && Some(t) != c.startTicks {
      TicksHave(rows, t);
      var i :| 0 <= i < |rows| && rows[i].body.ticks == Ticks(t);
    }
  }

  lemma OtherCommand(rows: seq<Row>, c: ConfigFile)
    ensures (exists s :: s in CommandsOf(rows) && Some(s) != c.command) <==>
            exists i :: 0 <= i < |rows| && rows[i].body.command.Some? && rows[i].body.command != c.command
  {
    hide CommandsOf;
    if i :| 0 <= i < |rows| && rows[i].body.command.Some? && rows[i].body.command != c.command {
      CommandsHave(rows, rows[i].body.command.value);
      assert rows[i].body.command == Some(rows[i].body.command.value);
    }
    if s :| s in CommandsOf(rows) && Some(s) != c.command {
      CommandsHave(rows, s);
      var i :| 0 <= i < |rows| && rows[i].body.command == Some(s);
    }
  }

  lemma PidsDiffer(rows: seq<Row>)
    ensures !NumbersAgree(PidsOf(rows)) <==>
            exists i, j :: 0 <= i < |rows| && 0 <= j < |rows| && rows[i].body.pid.Some? && rows[j].body.pid.Some?
              && rows[i].body.pid != rows[j].body.pid
  {
    hide PidsOf;
    if i, j :| 0 <= i < |rows| && 0 <= j < |rows| && rows[i].body.pid.Some? && rows[j].body.pid.Some?
               && rows[i].body.pid != rows[j].body.pid
    {
      PidsHave(rows, rows[i].body.pid.value);
      PidsHave(rows, rows[j].body.pid.value);
      assert rows[i].body.pid == Some(rows[i].body.pid.value) && rows[j].body.pid == Some(rows[j].body.pid.value);
    }
    if x, y :| x in PidsOf(rows) && y in PidsOf(rows) && x != y {
      PidsHave(rows, x);
      PidsHave(rows, y);
      var i :| 0 <= i < |rows| && rows[i].body.pid == Some(x);
      var j :| 0 <= j < |rows| && rows[j].body.pid == Some(y);
      assert rows[i].body.pid != rows[j].body.pid;
    }
  }

  lemma TicksDiffer(rows: seq<Row>)
    ensures !NumbersAgree(TicksOf(rows)) <==>
            exists i, j :: 0 <= i < |rows| && 0 <= j < |rows| && rows[i].body.ticks.Ticks? && rows[j].body.ticks.Ticks?
              && rows[i].body.ticks != rows[j].body.ticks
  {
    hide TicksOf;
    if i, j :| 0 <= i < |rows| && 0 <= j < |rows| && rows[i].body.ticks.Ticks? && rows[j].body.ticks.Ticks?
               && rows[i].body.ticks != rows[j].body.ticks
    {
      TicksHave(rows, rows[i].body.ticks.value);
      TicksHave(rows, rows[j].body.ticks.value);
      var x, y := rows[i].body.ticks.value, rows[j].body.ticks.value;
      assert rows[i].body.ticks == Ticks(x) && rows[j].body.ticks == Ticks(y);
      assert x in TicksOf(rows) && y in TicksOf(rows) && x != y;
    }
    if x, y :| x in TicksOf(rows) && y in TicksOf(rows) && x != y {
      TicksHave(rows, x);
      TicksHave(rows, y);
      var i :| 0 <= i < |rows| && rows[i].body.ticks == Ticks(x);
      var j :| 0 <= j < |rows| && rows[j].body.ticks == Ticks(y);
      assert rows[i].body.ticks != rows[j].body.ticks;
    }
  }

  lemma CommandsDiffer(rows: seq<Row>)
    ensures !TextsAgree(CommandsOf(rows)) <==>
            exists i, j :: 0 <= i < |rows| && 0 <= j < |rows| && rows[i].body.command.Some?
              && rows[j].body.command.Some? && rows[i].body.command != rows[j].body.command
  {
    hide CommandsOf;
    if i, j :| 0 <= i < |rows| && 0 <= j < |rows| && rows[i].body.command.Some? && rows[j].body.command.Some?
               && rows[i].body.command != rows[j].body.command
    {
      CommandsHave(rows, rows[i].body.command.value);
      CommandsHave(rows, rows[j].body.command.value);
      var x, y := rows[i].body.command.value, rows[j].body.command.value;
      assert rows[i].body.command == Some(x) && rows[j].body.command == Some(y);
      assert x in CommandsOf(rows) && y in CommandsOf(rows) && x != y;
    }
    if x, y :| x in CommandsOf(rows) && y in CommandsOf(rows) && x != y {
      CommandsHave(rows, x);
      CommandsHave(rows, y);
      var i :| 0 <= i < |rows| && rows[i].body.command == Some(x);
      var j :| 0 <= j < |rows| && rows[j].body.command == Some(y);
      assert rows[i].body.command != rows[j].body.command;
    }
  }

  predicate OfSummary(issue: Issue) {
    !(issue.TimesNotMonotonic? || issue.InvalidMetric? || issue.ErrorsPresent? || issue.PidChanged?
      || issue.TicksChanged? || issue.CommandChanged? || issue.PidNotConfigured? || issue.TicksNotConfigured?
      || issue.CommandNotConfigured?)
  }

  /** A summary issue by the figures the audit recomputes. */
  predicate SummaryRaised(issue: Issue, rows: seq<Row>, ev: Evidence, digest: string)
    requires rows != []
  {
    var s := ev.summary;
    match issue
    case SummarySchema => s.schema != SUMMARY_SCHEMA
    case SummaryDigest => ev.status.summaryDigest != digest
    case StatusLastHash => ev.status.last != LastHash(rows)
    case SummaryState => s.state != ev.status.state
    case SummaryCount => s.count != |rows|
    case SummaryRunning => s.running != |RunningRows(rows)|
    case SummaryLastHash => s.last != LastHash(rows)
    case SummaryRoot => s.targetRoot != ev.config.targetRoot
    case SummaryFirst => s.firstAt.Some? && s.firstAt != rows[0].body.sampledAt
    case SummaryLast => s.lastAt.Some? && s.lastAt != rows[|rows| - 1].body.sampledAt
    case SummaryMaximum(m) => m !in s.maxima || s.maxima[m] != Maximum(rows, m)
    case SummaryErrors => s.errors != AllErrors(rows)
    case ConfigCredentials => ev.config.credentialsLoaded
    case ConfigOrders => ev.config.ordersAttempted
    case _ => false
  }

  lemma FlagHas(c: bool, flagged: Issue, issue: Issue)
    ensures issue in Flag(c, flagged) <==> c && issue == flagged
  {
  }

  lemma MaximumIssueRaised(rows: seq<Row>, s: Summary, issue: Issue)
    ensures issue in MaximaIssues(rows, s)
            <==> && issue.SummaryMaximum?
                 && (issue.metric !in s.maxima || s.maxima[issue.metric] != Maximum(rows, issue.metric))
  {
    AllMetrics();
    hide Maximum;
  }

  lemma FileIssueRaised(rows: seq<Row>, ev: Evidence, digest: string, issue: Issue)
    requires rows != []
    ensures issue in FileIssues(rows, ev, digest) <==>
            (issue.SummarySchema? || issue.SummaryDigest? || issue.StatusLastHash? || issue.SummaryState?
             || issue.ConfigCredentials? || issue.ConfigOrders?)
            && SummaryRaised(issue, rows, ev, digest)
  {
    hide Flag, RunningRows, Maximum, AllErrors, LastHash;
    var s := ev.summary;
    FlagHas(s.schema != SUMMARY_SCHEMA, SummarySchema, issue);
    FlagHas(ev.status.summaryDigest != digest, SummaryDigest, issue);
    FlagHas(ev.status.last != LastHash(rows), StatusLastHash, issue);
    FlagHas(s.state != ev.status.state, SummaryState, issue);
    FlagHas(ev.config.credentialsLoaded, ConfigCredentials, issue);
    FlagHas(ev.config.ordersAttempted, ConfigOrders, issue);
  }

  lemma CountIssueRaised(rows: seq<Row>, ev: Evidence, digest: string, issue: Issue)
    requires rows != []
    ensures issue in CountIssues(rows, ev.summary) <==>
            (issue.SummaryCount? || issue.SummaryRunning? || issue.SummaryLastHash? || issue.SummaryErrors?)
            && SummaryRaised(issue, rows, ev, digest)
  {
    hide Flag, RunningRows, Maximum, AllErrors, LastHash;
    var s := ev.summary;
    FlagHas(s.count != |rows|, SummaryCount, issue);
    FlagHas(s.running != |RunningRows(rows)|, SummaryRunning, issue);
    FlagHas(s.last != LastHash(rows), SummaryLastHash, issue);
    FlagHas(s.errors != AllErrors(rows), SummaryErrors, issue);
  }

  lemma PlaceIssueRaised(rows: seq<Row>, ev: Evidence, digest: string, issue: Issue)
    requires rows != []
    ensures issue in PlaceIssues(rows, ev.summary, ev.config.targetRoot) <==>
            (issue.SummaryRoot? || issue.SummaryFirst? || issue.SummaryLast?) && SummaryRaised(issue, rows, ev, digest)
  {
    hide Flag, RunningRows, Maximum, AllErrors, LastHash;
    var s := ev.summary;
    FlagHas(s.targetRoot != ev.config.targetRoot, SummaryRoot, issue);
    FlagHas(s.firstAt.Some? && s.firstAt != rows[0].body.sampledAt, SummaryFirst, issue);
    FlagHas(s.lastAt.Some? && s.lastAt != rows[|rows| - 1].body.sampledAt, SummaryLast, issue);
  }

  lemma SummaryIssueRaised(rows: seq<Row>, ev: Evidence, digest: string, issue: Issue)
    requires rows != []
    ensures issue in SummaryIssues(rows, ev, digest) <==> SummaryRaised(issue, rows, ev, digest)
  {
    hide FileIssues, CountIssues, PlaceIssues, MaximaIssues, Maximum, RunningRows, AllErrors, LastHash;
    FileIssueRaised(rows, ev, digest, issue);
    CountIssueRaised(rows, ev, digest, issue);
    PlaceIssueRaised(rows, ev, digest, issue);
    MaximumIssueRaised(rows, ev.summary, issue);
  }

  lemma SummaryIssueMeans(rows: seq<Row>, ev: Evidence, digest: string, issue: Issue)
    requires rows != [] && Complete(rows) && OfSummary(issue)
    ensures issue in SummaryIssues(rows, ev, digest) <==> IsIssue(issue, rows, ev, digest)
  {
    hide SummaryIssues, Complete, RunningRows, Maximum, IsPresentTop, HasErrorIn, AllErrors;
    SummaryIssueRaised(rows, ev, digest, issue);
    RunningAre(rows);
    if issue.SummaryMaximum? && issue.metric in ev.summary.maxima {
      MaximumIs(rows, issue.metric, ev.summary.maxima[issue.metric]);
    }
    ErrorsAre(rows, ev.summary.errors);
  }

  lemma ErrorsAre(rows: seq<Row>, errors: set<string>)
    ensures errors == AllErrors(rows) <==> forall e :: e in errors <==> HasErrorIn(rows, e)
  {
    forall e ensures e in AllErrors(rows) <==> HasErrorIn(rows, e) {
      if e in AllErrors(rows) {
        var r :| r in rows && e in r.body.errors;
        var i :| 0 <= i < |rows| && rows[i] == r;
      }
    }
    hide HasErrorIn;
    if forall e :: e in errors <==> HasErrorIn(rows, e) {
      assert errors == AllErrors(rows);
    }
  }

  lemma RowIssueApart(rows: seq<Row>, issue: Issue)
    ensures issue in AllRowIssues(rows) ==> issue.InvalidMetric? || issue.ErrorsPresent?
  {
    RowIssuesAre(rows, issue);
    hide AllRowIssues;
  }

  lemma IssueApart(rows: seq<Row>, ev: Evidence, digest: string, issue: Issue)
    requires rows != []
    ensures issue in AllRowIssues(rows) ==> issue.InvalidMetric? || issue.ErrorsPresent?
    ensures issue in IdentityIssues(rows, ev.config) ==> OfIdentity(issue)
    ensures issue in SummaryIssues(rows, ev, digest) ==> OfSummary(issue)
  {
    hide AllRowIssues, IdentityIssues, SummaryIssues, RunningRows, Maximum, AllErrors, NumbersAgree, TextsAgree,
      PidsOf, TicksOf, CommandsOf;
    RowIssueApart(rows, issue);
    IdentityIssueRaised(rows, ev.config, issue);
    SummaryIssueRaised(rows, ev, digest, issue);
  }

  /** What an audit does not look at: a status that is none or is not terminal, a config
      without a valid identity. */
  predicate IsLookedAt(ev: Evidence) {
    && ev.status.schema == "advisorai.phase3.resource-monitor.v2.status"
    && ev.status.state in {"deadline_reached", "target_exited", "identity_mismatch"}
    && ev.config.schema == "advisorai.phase3.resource-monitor.v2.config"
    && ev.config.pid.Some? && ev.config.pid.value > 0 && ev.config.startTicks.Some?
    && ev.config.command.Some? && IsHexDigest(ev.config.command.value)
  }

  /** On whatever evidence: the audit refuses exactly files it does not look at, a log that
      is not accepted, is empty or has a row without time or tree metrics; and otherwise it
      reports exactly the issues there are. */
  lemma AuditIs(ev: Evidence, hash: Hash, fileHash: Summary -> string)
    ensures var rows, report := RowsIn(ev.lines), Audit(ev, hash, fileHash);
            && (report.Refused? <==>
                  !IsLookedAt(ev) || NotAnObject in ev.lines || !AllFit(rows, hash) || rows == [] || !HasTrees(rows))
            && (report.Report? ==>
                  && Complete(rows)
                  && forall issue :: issue in report.issues <==> IsIssue(issue, rows, ev, fileHash(ev.summary)))
  {
    hide ReadLines, AllFit, RowsIn, AllRowIssues, IdentityIssues, SummaryIssues, IsIssue, Complete, HasTrees,
      Admissible, IsLookedAt, Flag, NonDecreasing;
    var rows, report := RowsIn(ev.lines), Audit(ev, hash, fileHash);
    LogAccepted(ev.lines, hash);
    LookedAt(ev);
    TreesAre(rows);
    if report.Report? {
      forall issue ensures issue in report.issues <==> IsIssue(issue, rows, ev, fileHash(ev.summary)) {
        IssueMeans(rows, ev, fileHash(ev.summary), issue);
      }
    }
  }

  lemma LookedAt(ev: Evidence)
    ensures Admissible(ev) <==> IsLookedAt(ev)
  {
    if ev.config.command.Some? { DigestIs(ev.config.command.value); }
    hide IsHexDigest, ValidDigest;
  }

  lemma TreesAre(rows: seq<Row>)
    ensures HasTrees(rows) <==> Complete(rows)
  {
  }

  predicate HasTrees(rows: seq<Row>) {
    forall i :: 0 <= i < |rows| ==>
      rows[i].body.sampledAt.Some? && Files in rows[i].body.metrics && Bytes in rows[i].body.metrics
  }

  lemma IssueMeans(rows: seq<Row>, ev: Evidence, digest: string, issue: Issue)
    requires rows != [] && Complete(rows)
    ensures issue in Flag(!NonDecreasing(rows), TimesNotMonotonic) + AllRowIssues(rows)
                     + IdentityIssues(rows, ev.config) + SummaryIssues(rows, ev, digest)
            <==> IsIssue(issue, rows, ev, digest)
  {
    hide AllRowIssues, IdentityIssues, SummaryIssues, NonDecreasing, Flag, IsIssue;
    IssueApart(rows, ev, digest, issue);
    FlagHas(!NonDecreasing(rows), TimesNotMonotonic, issue);
    if OfSummary(issue) {
      SummaryIssueMeans(rows, ev, digest, issue);
    } else if issue.InvalidMetric? || issue.ErrorsPresent? {
      RowIssueMeans(rows, ev, digest, issue);
    } else if issue.TimesNotMonotonic? {
      TimesMean(rows, ev, digest);
    } else {
      IdentityIssueMeans(rows, ev, digest, issue);
    }
  }

  lemma TimesMean(rows: seq<Row>, ev: Evidence, digest: string)
    requires rows != [] && Complete(rows)
    ensures !NonDecreasing(rows) <==> IsIssue(TimesNotMonotonic, rows, ev, digest)
  {
  }
}
