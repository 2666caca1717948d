/** The producer of the resource log: one sample a turn until the deadline, the end
    of the target or a sample that is not of the running target. */
module ResourceMonitor {

  import opened Options
  import opened Extremes
  import opened ResourceLog

  const DEADLINE := "deadline_reached"
  const TARGET_EXITED := "target_exited"
  const IDENTITY_ERROR := "process_identity_mismatch"
  const BYTES_PER_MIB := 1048576.0

  datatype Reading<T> = Got(value: T) | Failed(error: string)

  datatype Memory = Memory(rss: nat, vms: nat)

  /** What the operating system says of the process, in the order it is asked. */
  datatype Usage = Usage(memory: Reading<Memory>, cpu: Reading<real>, descriptors: Reading<nat>,
                         connections: Reading<nat>, threads: Reading<nat>)

  datatype Probe = Gone(error: string) | Found(ticks: nat, command: Option<string>, usage: Usage)

  datatype Sample = Sample(at: int, files: nat, bytes: nat, rootErrors: set<string>, probe: Probe)

  /** One turn of the loop: the clock, whether the target runs, and the sample. */
  datatype Turn = Turn(now: int, running: bool, sample: Sample)

  datatype Config = Config(pid: int, startTicks: int, command: string, targetRoot: string, until: int)

  predicate ValidConfig(c: Config) {
    c.pid > 0 && c.startTicks >= 0 && ValidDigest(c.command)
  }

  predicate ValidSample(s: Sample) {
    s.probe.Found? ==> ValidOptionalDigest(s.probe.command)
  }

  function Seal(body: Body, hash: Hash): Row {
    Row(body, hash(body))
  }

  function Observation(s: Sample, c: Config, status: string, ticks: Ticks, command: Option<string>,
                       metrics: map<Metric, real>, errors: set<string>, previous: Option<string>): Body {
    Body(SCHEMA, Some(s.at), Some(c.pid), status, ticks, command,
         metrics[Files := s.files as real][Bytes := s.bytes as real], errors, previous, "")
  }

  function ErrorOf<T>(r: Reading<T>): set<string> {
    if r.Failed? then {r.error} else {}
  }

  function Put(metrics: map<Metric, real>, m: Metric, r: Reading<nat>): map<Metric, real> {
    if r.Got? then metrics[m := r.value as real] else metrics
  }

  function ProcessSample(s: Sample, c: Config, previous: Option<string>): Body {
    match s.probe
    case Gone(error) =>
      Observation(s, c, EXITED, NoTicks, None, map[], s.rootErrors + {error}, previous)
    case Found(ticks, command, u) =>
      if ticks != c.startTicks || command != Some(c.command) then
        Observation(s, c, MISMATCH, Ticks(ticks), command, map[], s.rootErrors + {IDENTITY_ERROR}, previous)
      else if u.memory.Failed? then
        Observation(s, c, EXITED, NoTicks, None, map[], s.rootErrors + {u.memory.error}, previous)
      else
        var errors := s.rootErrors + ErrorOf(u.cpu) + ErrorOf(u.descriptors) + ErrorOf(u.connections);
        if u.threads.Failed? then
          Observation(s, c, EXITED, NoTicks, None, map[], errors + {u.threads.error}, previous)
        else
          var mib := map[Rss := u.memory.value.rss as real / BYTES_PER_MIB,
                         Vms := u.memory.value.vms as real / BYTES_PER_MIB,
                         Threads := u.threads.value as real];
          var cpu := if u.cpu.Got? then mib[Cpu := if u.cpu.value < 0.0 then 0.0 else u.cpu.value] else mib;
          Observation(s, c, RUNNING, Ticks(ticks), command,
                      Put(Put(cpu, Descriptors, u.descriptors), Connections, u.connections), errors, previous)
  }

  datatype Monitor = Monitor(rows: seq<Row>, state: string)

  function TakeTurn(m: Monitor, t: Turn, c: Config, hash: Hash): Monitor {
    if m.state != RUNNING then m
    else if t.now >= c.until then m.(state := DEADLINE)
    else if !t.running then m.(state := TARGET_EXITED)
    else
      var row := Seal(ProcessSample(t.sample, c, LastHash(m.rows)), hash);
      Monitor(m.rows + [row], row.body.status)
  }

  function Watch(turns: seq<Turn>, c: Config, hash: Hash): Monitor {
    if turns == [] then Monitor([], RUNNING)
    else TakeTurn(Watch(turns[..|turns| - 1], c, hash), turns[|turns| - 1], c, hash)
  }

  lemma {:induction false} WatchStopped(turns: seq<Turn>, c: Config, hash: Hash, i: nat)
    requires i <= |turns| && Watch(turns[..i], c, hash).state != RUNNING
    ensures Watch(turns, c, hash) == Watch(turns[..i], c, hash)
    decreases |turns|
  {
    if i == |turns| {
      assert turns[..i] == turns;
    } else {
      assert turns[..|turns| - 1][..i] == turns[..i];
      WatchStopped(turns[..|turns| - 1], c, hash, i);
    }
  }

  /** The sampling loop. */
  method RunMonitor(turns: seq<Turn>, c: Config, hash: Hash) returns (m: Monitor)
    ensures m == Watch(turns, c, hash)
  {
    hide ProcessSample;
    var rows: seq<Row> := [];
    var state := RUNNING;
    var i := 0;
    while i < |turns| && state == RUNNING
      invariant 0 <= i <= |turns|
      invariant Watch(turns[..i], c, hash) == Monitor(rows, state)
    {
      assert turns[..i + 1][..i] == turns[..i];
      if turns[i].now >= c.until {
        state := DEADLINE;
      } else if !turns[i].running {
        state := TARGET_EXITED;
      } else {
        var previous := if rows == [] then None else Some(rows[|rows| - 1].recordHash);
        var row := Seal(ProcessSample(turns[i].sample, c, previous), hash);
        rows := rows + [row];
        state := row.body.status;
      }
      i := i + 1;
    }
    if state != RUNNING {
      WatchStopped(turns, c, hash, i);
    } else {
      assert turns[..i] == turns;
    }
    m := Monitor(rows, state);
  }

  // ------------------------------------------------------------------ summary

  function RunningRows(rows: seq<Row>): seq<Row> {
    if rows == [] then []
    else
      var r := rows[|rows| - 1];
      RunningRows(rows[..|rows| - 1]) + if r.body.status == RUNNING then [r] else []
  }

  /** `record.metric or 0`. */
  function OrZero(r: Row, m: Metric): real {
    if m in r.body.metrics then r.body.metrics[m] else 0.0
  }

  function OrZeros(rows: seq<Row>, m: Metric): seq<real> {
    seq(|rows|, i requires 0 <= i < |rows| => OrZero(rows[i], m))
  }

  function AllErrors(rows: seq<Row>): set<string> {
    set r, e | r in rows && e in r.body.errors :: e
  }

  /** Tree metrics are taken over every row, the others over the running ones. */
  predicate OfTree(m: Metric) {
    m.Files? || m.Bytes?
  }

  datatype Summary = Summary(schema: string, state: string, count: nat, running: nat, targetRoot: string,
                             firstAt: Option<int>, lastAt: Option<int>, maxima: map<Metric, real>,
                             errors: set<string>, last: Option<string>)

  const SUMMARY_SCHEMA := SCHEMA + ".summary"
  const STATUS_SCHEMA := SCHEMA + ".status"
  const CONFIG_SCHEMA := SCHEMA + ".config"

  function Summarize(m: Monitor, c: Config): Summary {
    Summary(SUMMARY_SCHEMA, m.state, |m.rows|, |RunningRows(m.rows)|, c.targetRoot,
            if m.rows == [] then None else m.rows[0].body.sampledAt,
            if m.rows == [] then None else m.rows[|m.rows| - 1].body.sampledAt,
            map k | k in METRICS :: LargestOrZero(OrZeros(if OfTree(k) then m.rows else RunningRows(m.rows), k)),
            AllErrors(m.rows), LastHash(m.rows))
  }

  datatype StatusFile = StatusFile(schema: string, state: string, summaryDigest: string, last: Option<string>)

  datatype ConfigFile = ConfigFile(schema: string, pid: Option<int>, startTicks: Option<int>, command: Option<string>,
                                   targetRoot: string, credentialsLoaded: bool, ordersAttempted: bool)

  /** The files a monitor leaves when it ends. */
  datatype Evidence = Evidence(config: ConfigFile, lines: seq<Line>, summary: Summary, status: StatusFile)

  function Publish(m: Monitor, c: Config, fileHash: Summary -> string): Evidence {
    var s := Summarize(m, c);
    Evidence(ConfigFile(CONFIG_SCHEMA, Some(c.pid), Some(c.startTicks), Some(c.command), c.targetRoot, false, false),
             Entries(m.rows), s, StatusFile(STATUS_SCHEMA, m.state, fileHash(s), s.last))
  }
}
