/** The linker among the processes it shares its disk with: the candidate that
    appends predictions and accounts for its own cases, the source that admits
    bars, and whoever latches the generation.  Each step is one durable write, one read or
    one move of a process, and a crash may come between any two. */
module LinkerSystem {

  import opened Options
  import opened Coordinator
  import opened OutcomeLinker

  /** Everything durable that linking depends on. */
  datatype Disk = Disk(entries: seq<Entry>, durability: map<string, int>, bars: Bars,
                       links: seq<Link>, ledger: Ledger)

  /** The published state of the linker's status file. */
  datatype Status = Active | FatalStatus | DeadlineStatus

  /** `Head` is the top of the loop.  Then a pass tests the latch, and reads the predictions,
      their attestations and the bars, one file after the other. */
  datatype Process =
    | Down
    | Head
    | Checked
    | Listed(entries: seq<Entry>)
    | Loaded(entries: seq<Entry>, durability: map<string, int>)
    | Passing(view: View, index: nat, phase: Phase)

  /** A pass has tested the latch and is under way. */
  predicate Begun(p: Process) {
    !p.Down? && !p.Head?
  }

  /** `own` remembers what the candidate itself accounted for, and `latched`
      whether another process latched the generation during the current pass. */
  datatype System = System(disk: Disk, status: Option<Status>, process: Process, now: int,
                           own: Cases, latched: bool)

  datatype Step =
    | Advance(reading: int)
    | Crash
    | Start
    | AppendPrediction(entry: Entry)
    | Attest(index: nat, durableAt: int)
    | OwnPending(index: nat)
    | OwnExclusion(index: nat)
    | Missed(key: Key)
    | AdmitBar(slot: Slot, bar: Bar)
    | Latch

  function Init(now: int): System {
    System(Disk([], map[], map[], [], Ledger(map[], false)), None, Down, now, map[], false)
  }

  predicate HasKey(entries: seq<Entry>, key: Key) {
    exists i :: 0 <= i < |entries| && entries[i].key == key
  }

  predicate HasId(entries: seq<Entry>, id: string) {
    exists i :: 0 <= i < |entries| && entries[i].id == id
  }

  /** A restart is refused when links exist without a status, after a fatal
      status, and has nothing to do after a terminal one. */
  predicate CanStart(s: System) {
    !(s.status.None? && s.disk.links != []) && s.status != Some(FatalStatus) && s.status != Some(DeadlineStatus)
  }

  /** Every attestation is of a prediction that was read; loading the ledger raises
      otherwise. */
  predicate AttestedWithin(entries: seq<Entry>, durability: map<string, int>) {
    forall id :: id in durability ==> HasId(entries, id)
  }

  /** One move of the linker process, at a clock reading that does not go back. */
  function Proceed(s: System, reading: int, c: Contract): System {
    match s.process
    case Down => s
    case Head =>
      if reading >= c.deadline then s.(status := Some(DeadlineStatus), process := Down)
      else if s.disk.ledger.fatal then s.(status := Some(FatalStatus), process := Down)
      else s.(process := Checked, latched := false)
    case Checked => s.(process := Listed(s.disk.entries))
    case Listed(entries) =>
      s.(process := if AttestedWithin(entries, s.disk.durability) then Loaded(entries, s.disk.durability) else Down)
    case Loaded(entries, durability) =>
      s.(process := Passing(View(entries, durability, s.disk.bars), 0, Examine))
    case Passing(v, i, phase) =>
      if phase.Finished? then
        if phase.failed then s.(status := Some(FatalStatus), process := Down)
        else s.(status := Some(Active), process := Head)
      else if phase.Died? then s.(process := Down)
      else
        var p := Micro(v, Pass(s.disk.links, s.disk.ledger, i, phase), reading, c);
        s.(disk := s.disk.(links := p.links, ledger := p.ledger), process := Passing(v, p.index, p.phase))
  }

  function Account(s: System, key: Key, attempt: Attempt, own: Case): System {
    match attempt
    case Raised => s
    case Done(l) => s.(disk := s.disk.(ledger := l), own := s.own[key := own])
  }

  function Do(s: System, step: Step, c: Contract): System {
    var d := s.disk;
    match step
    case Advance(reading) => if reading < s.now then s else Proceed(s.(now := reading), reading, c)
    case Crash => s.(process := Down)
    case Start => if s.process.Down? && CanStart(s) then s.(process := Head) else s
    case AppendPrediction(e) =>
      if HasKey(d.entries, e.key) || HasId(d.entries, e.id) || e.key in d.ledger.cases || e.id in d.durability then s
      else s.(disk := d.(entries := d.entries + [e]))
    case Attest(i, at) =>
      if i >= |d.entries| || d.entries[i].id in d.durability then s
      else s.(disk := d.(durability := d.durability[d.entries[i].id := at]))
    case OwnPending(i) =>
      if i >= |d.entries| || !OnTime(d.durability, d.entries[i]) then s
      else
        var e := d.entries[i];
        Account(s, e.key, RecordPending(d.ledger, e.key, e.id), Pending(e.id))
    case OwnExclusion(i) =>
      if i >= |d.entries| || !Late(d.durability, d.entries[i]) || d.entries[i].key in d.ledger.cases then s
      else
        var e := d.entries[i];
        Account(s, e.key, RecordExcluded(d.ledger, e.key, Some(e.id)), Excluded(Some(e.id)))
    case Missed(key) =>
      if HasKey(d.entries, key) || key in d.ledger.cases then s
      else Account(s, key, RecordExcluded(d.ledger, key, None), Excluded(None))
    case AdmitBar(slot, bar) =>
      if slot in d.bars then s else s.(disk := d.(bars := d.bars[slot := bar]))
    case Latch => s.(disk := d.(ledger := Fail(d.ledger)), latched := Begun(s.process) || s.latched)
  }

  function Exec(s: System, steps: seq<Step>, c: Contract): System {
    if steps == [] then s else Do(Exec(s, steps[..|steps| - 1], c), steps[|steps| - 1], c)
  }

  // ---------------------------------------------------------------- invariant

  predicate UniqueEntries(entries: seq<Entry>) {
    forall i, j :: 0 <= i < j < |entries| ==> entries[i].id != entries[j].id && entries[i].key != entries[j].key
  }

  predicate UniqueLinks(links: seq<Link>) {
    forall i, j :: 0 <= i < j < |links| ==> links[i].prediction != links[j].prediction
  }

  /** The accounting of an entry agrees with its attestation. */
  predicate EntryOk(d: Disk, e: Entry, late: bool) {
    if e.id !in d.durability then e.key !in d.ledger.cases && !Linked(d.links, e.id)
    else if Late(d.durability, e) then
      (e.key in d.ledger.cases ==> d.ledger.cases[e.key] == Excluded(Some(e.id))) && !Linked(d.links, e.id)
    else
      e.key in d.ledger.cases ==>
        && PredictionOf(d.ledger.cases[e.key]) == Some(e.id)
        && (d.ledger.cases[e.key].Excluded? ==> late && !Linked(d.links, e.id))
  }

  /** A link is the exact realization of an on-time entry that is accounted for. */
  predicate LinkOf(d: Disk, link: Link, e: Entry, c: Contract) {
    && OnTime(d.durability, e) && Complete(d.bars, e)
    && AllAdmitted(Realized(d.bars, e))
    && link == LinkFor(e, Realized(d.bars, e), link.linkedAt)
    && link.linkedAt <= c.deadline
    && e.key in d.ledger.cases
    && (d.ledger.cases[e.key] == Pending(e.id) || d.ledger.cases[e.key] == Clean(e.id, link.outcome))
  }

  predicate LinkOk(d: Disk, link: Link, c: Contract) {
    exists e :: e in d.entries && LinkOf(d, link, e, c)
  }

  predicate CaseOk(d: Disk, key: Key) {
    key in d.ledger.cases ==>
      match PredictionOf(d.ledger.cases[key])
      case None => !HasKey(d.entries, key)
      case Some(p) =>
        && EntryWith(d.entries, key, p)
        && (d.ledger.cases[key].Clean? ==>
              exists link :: link in d.links && link.prediction == p && link.outcome == d.ledger.cases[key].outcome)
  }

  predicate EntryWith(entries: seq<Entry>, key: Key, id: string) {
    exists e :: e in entries && e.key == key && e.id == id
  }

  /** The inputs settle what must become of the opportunity. */
  predicate Decided(d: Disk, key: Key) {
    exists e :: e in d.entries && e.key == key && DecidedEntry(d, e)
  }

  predicate DecidedEntry(d: Disk, e: Entry) {
    Late(d.durability, e) || (OnTime(d.durability, e) && Complete(d.bars, e))
  }

  ghost predicate DiskInv(d: Disk, own: Cases, now: int, c: Contract) {
    && UniqueEntries(d.entries)
    && UniqueLinks(d.links)
    && (forall e :: e in d.entries ==> EntryOk(d, e, now > c.deadline))
    && (forall link :: link in d.links ==> LinkOk(d, link, c))
    && (forall key :: CaseOk(d, key))
    && (forall key :: !Decided(d, key) ==> CaseOf(d.ledger, key) == (if key in own then Some(own[key]) else None))
  }
}
