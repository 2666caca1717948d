/** The hash-chained resource log: its records, the chain check that reads it back,
    and what an accepted chain pins down. */
module ResourceLog {

  import opened Options

  datatype Metric = Rss | Vms | Cpu | Threads | Descriptors | Connections | Files | Bytes

  const METRICS := [Rss, Vms, Cpu, Threads, Descriptors, Connections, Files, Bytes]
  const SCHEMA := "advisorai.phase3.resource-monitor.v2"
  const RUNNING := "running"
  const EXITED := "exited"
  const MISMATCH := "identity_mismatch"

  /** A process start tick as a row holds it. */
  datatype Ticks = NoTicks | BadTicks | Ticks(value: int)

  /** Everything of a row but its own hash.  A metric that is null or missing is
      absent; `extra` stands for whatever other fields the row carries. */
  datatype Body = Body(schema: string, sampledAt: Option<int>, pid: Option<int>, status: string,
                       ticks: Ticks, command: Option<string>, metrics: map<Metric, real>,
                       errors: set<string>, previous: Option<string>, extra: string)

  datatype Row = Row(body: Body, recordHash: string)

  datatype Line = Blank | NotAnObject | Entry(row: Row)

  /** A digest of canonical JSON. */
  type Hash = Body -> string

  predicate ValidDigest(s: string) {
    |s| == 64 && forall i :: 0 <= i < |s| ==> s[i] in "0123456789abcdef"
  }

  predicate ValidOptionalDigest(s: Option<string>) {
    s.Some? ==> ValidDigest(s.value)
  }

  /** The checks a row must pass on its own. */
  predicate WellFormed(r: Row) {
    && r.body.schema == SCHEMA
    && ValidDigest(r.recordHash) && ValidOptionalDigest(r.body.previous)
    && r.body.pid.Some? && r.body.pid.value > 0
    && r.body.status in {RUNNING, EXITED, MISMATCH}
    && !r.body.ticks.BadTicks? && (r.body.ticks.Ticks? ==> r.body.ticks.value >= 0)
    && ValidOptionalDigest(r.body.command)
  }

  /** A row joins the chain that ends in `previous`. */
  predicate Joins(r: Row, previous: Option<string>, hash: Hash) {
    WellFormed(r) && r.body.previous == previous && r.recordHash == hash(r.body)
  }

  datatype Chain = Broken | Rows(rows: seq<Row>)

  function LastHash(rows: seq<Row>): Option<string> {
    if rows == [] then None else Some(rows[|rows| - 1].recordHash)
  }

  function ReadLines(lines: seq<Line>, hash: Hash): Chain {
    if lines == [] then Rows([])
    else
      var before := ReadLines(lines[..|lines| - 1], hash);
      var line := lines[|lines| - 1];
      if before.Broken? || line.NotAnObject? then Broken
      else if line.Blank? then before
      else if !Joins(line.row, LastHash(before.rows), hash) then Broken
      else Rows(before.rows + [line.row])
  }

  lemma {:induction false} ReadStopped(lines: seq<Line>, hash: Hash, i: nat)
    requires i <= |lines| && ReadLines(lines[..i], hash).Broken?
    ensures ReadLines(lines, hash).Broken?
    decreases |lines|
  {
    if i == |lines| {
      assert lines[..i] == lines;
    } else {
      assert lines[..|lines| - 1][..i] == lines[..i];
      ReadStopped(lines[..|lines| - 1], hash, i);
    }
  }

  /** Reads the observation file, failing at the first row that does not fit. */
  method ReadChain(lines: seq<Line>, hash: Hash) returns (rows: seq<Row>, ok: bool)
    ensures ReadLines(lines, hash) == if ok then Rows(rows) else Broken
  {
    rows := [];
    var previous: Option<string> := None;
    var i := 0;
    while i < |lines|
      invariant 0 <= i <= |lines|
      invariant ReadLines(lines[..i], hash) == Rows(rows) && previous == LastHash(rows)
    {
      assert lines[..i + 1][..i] == lines[..i];
      match lines[i] {
        case Blank =>
        case NotAnObject =>
          ReadStopped(lines, hash, i + 1);
          return [], false;
        case Entry(row) =>
          if !Joins(row, previous, hash) {
            ReadStopped(lines, hash, i + 1);
            return [], false;
          }
          rows := rows + [row];
          previous := Some(row.recordHash);
      }
      i := i + 1;
    }
    assert lines[..i] == lines;
    ok := true;
  }

  /** Every row joins the rows before it. */
  predicate Chained(rows: seq<Row>, hash: Hash) {
    rows == [] ||
    var init := rows[..|rows| - 1];
    Chained(init, hash) && Joins(rows[|rows| - 1], LastHash(init), hash)
  }

  lemma {:induction false} ReadIsChained(lines: seq<Line>, hash: Hash)
    requires ReadLines(lines, hash).Rows?
    ensures Chained(ReadLines(lines, hash).rows, hash)
  {
    if lines != [] {
      hide Joins;
      var init := lines[..|lines| - 1];
      ReadIsChained(init, hash);
      var before, after := ReadLines(init, hash).rows, ReadLines(lines, hash).rows;
      if after != before { assert after[..|after| - 1] == before; }
    }
  }

  function Entries(rows: seq<Row>): seq<Line> {
    if rows == [] then [] else Entries(rows[..|rows| - 1]) + [Entry(rows[|rows| - 1])]
  }

  lemma ReadOneMore(lines: seq<Line>, row: Row, hash: Hash)
    requires ReadLines(lines, hash).Rows? && Joins(row, LastHash(ReadLines(lines, hash).rows), hash)
    ensures ReadLines(lines + [Entry(row)], hash) == Rows(ReadLines(lines, hash).rows + [row])
  {
    hide Joins, LastHash;
    assert (lines + [Entry(row)])[..|lines + [Entry(row)]| - 1] == lines;
  }

  /** A chain written one row a line is read back as it was. */
  lemma {:induction false} ChainedIsRead(rows: seq<Row>, hash: Hash)
    requires Chained(rows, hash)
    ensures ReadLines(Entries(rows), hash) == Rows(rows)
  {
    if rows != [] {
      hide Joins, ReadLines, LastHash;
      var init, last := rows[..|rows| - 1], rows[|rows| - 1];
      ChainedIsRead(init, hash);
      ReadOneMore(Entries(init), last, hash);
      assert init + [last] == rows;
    }
  }

  /** Two different bodies among the logs have one digest. */
  predicate Collision(a: seq<Row>, b: seq<Row>, hash: Hash) {
    exists i, j :: 0 <= i < |a| && 0 <= j < |b| && Collide(a[i], b[j], hash)
  }

  predicate Collide(r: Row, s: Row, hash: Hash) {
    r.body != s.body && hash(r.body) == hash(s.body)
  }

  lemma CollisionGrows(a: seq<Row>, b: seq<Row>, m: nat, n: nat, hash: Hash)
    requires m <= |a| && n <= |b| && Collision(a[..m], b[..n], hash)
    ensures Collision(a, b, hash)
  {
    var i, j :| 0 <= i < m && 0 <= j < n && Collide(a[..m][i], b[..n][j], hash);
    assert Collide(a[i], b[j], hash);
  }

  lemma CollidesAt(a: seq<Row>, b: seq<Row>, i: nat, j: nat, hash: Hash)
    requires i < |a| && j < |b| && Collide(a[i], b[j], hash)
    ensures Collision(a, b, hash)
  {
  }

  lemma {:induction false} ChainsEqualOrCollide(a: seq<Row>, b: seq<Row>, hash: Hash)
    requires Chained(a, hash) && Chained(b, hash) && LastHash(a) == LastHash(b)
    ensures a == b || Collision(a, b, hash)
  {
    if a != [] && b != [] {
      hide WellFormed, Collision;
      var m, n := |a| - 1, |b| - 1;
      if a[m].body == b[n].body {
        ChainsEqualOrCollide(a[..m], b[..n], hash);
        if a[..m] == b[..n] {
          assert a == a[..m] + [a[m]] && b == b[..n] + [b[n]];
        } else {
          CollisionGrows(a, b, m, n, hash);
        }
      } else {
        CollidesAt(a, b, m, n, hash);
      }
    }
  }

  /** Two accepted logs that end in one record hash are one sequence of records, of
      one length, or exhibit two bodies with the same digest. */
  lemma LastHashPinsTheLog(a: seq<Line>, b: seq<Line>, hash: Hash)
    requires ReadLines(a, hash).Rows? && ReadLines(b, hash).Rows?
    requires LastHash(ReadLines(a, hash).rows) == LastHash(ReadLines(b, hash).rows)
    ensures ReadLines(a, hash) == ReadLines(b, hash)
         || Collision(ReadLines(a, hash).rows, ReadLines(b, hash).rows, hash)
  {
    ReadIsChained(a, hash);
    ReadIsChained(b, hash);
    ChainsEqualOrCollide(ReadLines(a, hash).rows, ReadLines(b, hash).rows, hash);
  }
}
