/** When a crashed linker can be started again, and runs that show what the code does
    not promise. */
module LinkerRestart {

  import opened Options
  import opened Coordinator
  import opened OutcomeLinker
  import opened LinkerSystem
  import opened LinkerSafety
  import opened LinkerRecovery
  import opened LinkerTheorems

  lemma ExecThen(s: System, steps: seq<Step>, step: Step, c: Contract)
    ensures Exec(s, steps + [step], c) == Do(Exec(s, steps, c), step, c)
  {
    assert (steps + [step])[..|steps + [step]| - 1] == steps;
  }

  lemma {:induction false} ExecConcat(s: System, xs: seq<Step>, ys: seq<Step>, c: Contract)
    ensures Exec(s, xs + ys, c) == Exec(Exec(s, xs, c), ys, c)
  {
    hide Do;
    var all := xs + ys;
    if ys == [] {
      assert all == xs;
    } else {
      var init := ys[..|ys| - 1];
      ExecConcat(s, xs, init, c);
      assert all[..|all| - 1] == xs + init && all[|all| - 1] == ys[|ys| - 1];
    }
  }

  // ------------------------------------------- a pass is made of machine steps

  /** The moves that carry a pass to its end. */
  function PassSteps(v: View, p: Pass, clock: nat -> int, c: Contract): seq<Step>
    requires p.index <= |v.entries|
    decreases |v.entries| - p.index, Rank(p.phase)
  {
    if Terminal(p.phase) then []
    else
      MicroDescends(v, p, clock(p.index), c);
      [Advance(clock(p.index))] + PassSteps(v, Micro(v, p, clock(p.index), c), clock, c)
  }

  /** Taking those moves with no other process in between is finishing the pass. */
  lemma {:induction false} StepsFinishPass(s: System, clock: nat -> int, c: Contract)
    requires s.process.Passing? && s.process.index <= |s.process.view.entries|
    requires s.now <= clock(s.process.index) && forall i: nat, j: nat :: i <= j ==> clock(i) <= clock(j)
    ensures var p := Pass(s.disk.links, s.disk.ledger, s.process.index, s.process.phase);
            var q := FinishPass(s.process.view, p, clock, c);
            var t := Exec(s, PassSteps(s.process.view, p, clock, c), c);
            && t.disk == Left(s.disk, q)
            && t.process == Passing(s.process.view, q.index, q.phase)
            && t.status == s.status && t.own == s.own && t.latched == s.latched
    decreases |s.process.view.entries| - s.process.index, Rank(s.process.phase)
  {
    var v := s.process.view;
    var p := Pass(s.disk.links, s.disk.ledger, s.process.index, s.process.phase);
    if Terminal(p.phase) {
      Stopped(v, p, clock, c);
    } else {
      var reading := clock(p.index);
      Unroll(v, p, clock, c);
      MicroDescends(v, p, reading, c);
      var first := Advance(reading);
      var next := Do(s, first, c);
      var q := Micro(v, p, reading, c);
      assert next == s.(disk := Left(s.disk, q), process := Passing(v, q.index, q.phase), now := reading);
      hide Micro, Do, FinishPass;
      assert clock(p.index) <= clock(q.index);
      StepsFinishPass(next, clock, c);
      ExecThen(s, [], first, c);
      assert [] + [first] == [first];
      ExecConcat(s, [first], PassSteps(v, q, clock, c), c);
    }
  }

  // ------------------------------------------------------------------ restarts

  /** A linker that is down starts again exactly when its status is active, or when
      it has none and has linked nothing yet. */
  lemma RestartExactly(s: System, c: Contract)
    requires s.process.Down?
    ensures Do(s, Start, c).process.Head? <==>
            s.status == Some(Active) || (s.status.None? && s.disk.links == [])
  {
    match s.status
    case None =>
    case Some(status) =>
      match status
      case Active =>
      case FatalStatus =>
      case DeadlineStatus =>
  }

  /** Down with links and no status: no step of any process brings it back. */
  ghost predicate Stuck(s: System) {
    s.process.Down? && s.status.None? && s.disk.links != []
  }

  lemma StuckStep(s: System, step: Step, c: Contract)
    requires Stuck(s)
    ensures Stuck(Do(s, step, c)) && Do(s, step, c).disk.links == s.disk.links
  {
    hide Micro, HasKey, HasId, OnTime, Late, RecordPending, RecordExcluded;
  }

  lemma {:induction false} StuckForever(s: System, steps: seq<Step>, c: Contract)
    requires Stuck(s)
    ensures Stuck(Exec(s, steps, c)) && Exec(s, steps, c).disk.links == s.disk.links
  {
    if steps != [] {
      StuckForever(s, steps[..|steps| - 1], c);
      StuckStep(Exec(s, steps[..|steps| - 1], c), steps[|steps| - 1], c);
      hide Do;
    }
  }

  /** A linker that runs has published no terminal status, and before it comes to the first
      entry of its first pass, as long as there is no status, there is no link. */
  predicate Running(s: System) {
    !s.process.Down? ==>
      && (s.status.None? || s.status == Some(Active))
      && (!s.process.Passing? && s.status.None? ==> s.disk.links == [])
  }

  lemma StepKeepsRunning(s: System, step: Step, c: Contract)
    requires Running(s)
    ensures Running(Do(s, step, c))
  {
    if !step.Advance? { OthersKeep(s, step, c); }
    if s.status.Some? {
      match s.status.value
      case Active =>
      case FatalStatus =>
      case DeadlineStatus =>
    }
    hide Micro, HasKey, HasId, OnTime, Late, RecordPending, RecordExcluded;
  }

  lemma {:induction false} AlwaysRunning(start: int, steps: seq<Step>, c: Contract)
    ensures Running(Exec(Init(start), steps, c))
  {
    hide Do;
    if steps != [] {
      AlwaysRunning(start, steps[..|steps| - 1], c);
      StepKeepsRunning(Exec(Init(start), steps[..|steps| - 1], c), steps[|steps| - 1], c);
    }
  }

  /** Of all crashes of a running linker, at whatever point of whatever run, those in the
      middle of a pass that find a link and no status yet published leave it stuck, and
      every other one can be restarted from. */
  lemma CrashesThatStick(start: int, steps: seq<Step>, c: Contract)
    requires !Exec(Init(start), steps, c).process.Down?
    ensures var s := Exec(Init(start), steps, c);
            var t := Do(s, Crash, c);
            && (Stuck(t) <==> s.process.Passing? && s.status.None? && s.disk.links != [])
            && (Do(t, Start, c).process.Head? <==> !Stuck(t))
  {
    AlwaysRunning(start, steps, c);
    RestartExactly(Do(Exec(Init(start), steps, c), Crash, c), c);
    hide Exec;
  }

  /** Once a status has been published there always is one, so only a crash in the
      first pass of all can leave the linker stuck. */
  lemma {:induction false} StatusStays(s: System, steps: seq<Step>, c: Contract)
    requires s.status.Some?
    ensures Exec(s, steps, c).status.Some?
  {
    if steps != [] {
      hide Micro, HasKey, HasId, OnTime, Late, RecordPending, RecordExcluded;
      StatusStays(s, steps[..|steps| - 1], c);
    }
  }

  // --------------------------------------------------------------- witnesses

  /** The linker is started, tests the latch and reads the three files. */
  function Begin(start: int): seq<Step> {
    [Start] + [Advance(start)] + [Advance(start)] + [Advance(start)] + [Advance(start)]
  }

  /** With no other process in between, a pass has then begun on the disk as it is. */
  lemma Begins(s: System, start: int, c: Contract)
    requires s.process.Down? && CanStart(s) && !s.disk.ledger.fatal && start < c.deadline && s.now == start
    requires AttestedEntries(s.disk)
    ensures Exec(s, Begin(start), c) == s.(process := Passing(ViewOf(s.disk), 0, Examine), latched := false)
  {
    var next := Advance(start);
    Lists(s, start, c);
    ReadsOn(s.(process := Listed(s.disk.entries), latched := false), start, c);
    hide Do;
    ExecThen(s, [Start] + [next] + [next], next, c);
    ExecThen(s, [Start] + [next] + [next] + [next], next, c);
  }

  /** The latch is tested and the predictions are read. */
  lemma Lists(s: System, start: int, c: Contract)
    requires s.process.Down? && CanStart(s) && !s.disk.ledger.fatal && start < c.deadline && s.now == start
    ensures Exec(s, [Start] + [Advance(start)] + [Advance(start)], c)
         == s.(process := Listed(s.disk.entries), latched := false)
  {
    var next := Advance(start);
    assert Exec(s, [], c) == s && [] + [Start] == [Start];
    ExecThen(s, [], Start, c);
    ExecThen(s, [Start], next, c);
    ExecThen(s, [Start] + [next], next, c);
    hide Exec, CanStart;
    assert Do(s, Start, c) == s.(process := Head);
    assert Do(s.(process := Head), next, c) == s.(process := Checked, latched := false);
  }

  lemma ReadsOn(s: System, start: int, c: Contract)
    requires s.process == Listed(s.disk.entries) && s.now == start && AttestedEntries(s.disk)
    ensures Do(Do(s, Advance(start), c), Advance(start), c) == s.(process := Passing(ViewOf(s.disk), 0, Examine))
  {
    hide AttestedWithin;
  }

  /** The pass begins after the steps given. */
  lemma BeginsAfter(start: int, steps: seq<Step>, c: Contract)
    requires var s := Exec(Init(start), steps, c);
             s.process.Down? && CanStart(s) && !s.disk.ledger.fatal && start < c.deadline && s.now == start
    ensures var s := Exec(Init(start), steps, c);
            Exec(Init(start), steps + Begin(start), c)
            == s.(process := Passing(ViewOf(s.disk), 0, Examine), latched := false)
  {
    hide Exec, CanStart, AttestedEntries, Begin;
    AlwaysAttested(start, steps, c);
    Begins(Exec(Init(start), steps, c), start, c);
    ExecConcat(Init(start), steps, Begin(start), c);
  }

  const CUTOFF_SECONDS := 3600

  /** A prediction for an hourly cutoff. */
  function Hourly(id: string, ordinal: int): Entry {
    Entry(id, Key("BTCUSDT", ordinal), CUTOFF_SECONDS * ordinal)
  }

  const FIRST := Hourly("prediction", 1)

  function BarAt(e: Entry, i: int): Bar {
    Bar(e.key.symbol, e.cutoff + BAR_SECONDS * (i + 1), true, "")
  }

  function AdmitBars(e: Entry, n: nat): seq<Step> {
    if n == 0 then [] else AdmitBars(e, n - 1) + [AdmitBar(SlotOf(e, n - 1), BarAt(e, n - 1))]
  }

  /** The first `n` slots hold their bars and no later slot holds any. */
  predicate FirstBars(e: Entry, bars: Bars, n: int) {
    (forall i :: 0 <= i < n ==> SlotOf(e, i) in bars && bars[SlotOf(e, i)] == BarAt(e, i))
    && (forall slot :: slot in bars ==> slot.intervalEnd <= e.cutoff + BAR_SECONDS * n)
  }

  lemma OneMoreBar(e: Entry, bars: Bars, n: nat)
    requires FirstBars(e, bars, n)
    ensures SlotOf(e, n) !in bars && FirstBars(e, bars[SlotOf(e, n) := BarAt(e, n)], n + 1)
  {
  }

  /** Only the bars have changed, and the first `n` are there. */
  predicate Admitted(s: System, t: System, e: Entry, n: nat) {
    t == s.(disk := s.disk.(bars := t.disk.bars)) && FirstBars(e, t.disk.bars, n)
  }

  lemma AdmitDoes(t: System, slot: Slot, bar: Bar, c: Contract)
    requires slot !in t.disk.bars
    ensures Do(t, AdmitBar(slot, bar), c) == t.(disk := t.disk.(bars := t.disk.bars[slot := bar]))
  {
  }

  lemma AdmitsOne(s: System, t: System, e: Entry, n: nat, c: Contract)
    requires Admitted(s, t, e, n)
    ensures Admitted(s, Do(t, AdmitBar(SlotOf(e, n), BarAt(e, n)), c), e, n + 1)
  {
    hide FirstBars, Do, SlotOf, BarAt;
    OneMoreBar(e, t.disk.bars, n);
    AdmitDoes(t, SlotOf(e, n), BarAt(e, n), c);
  }

  lemma NoneAdmitted(s: System, e: Entry, c: Contract)
    requires s.disk.bars == map[]
    ensures Admitted(s, Exec(s, AdmitBars(e, 0), c), e, 0)
  {
    NoBars(e);
    hide FirstBars;
  }

  lemma {:induction false} BarsAdmitted(s: System, e: Entry, n: nat, c: Contract)
    requires s.disk.bars == map[]
    ensures Admitted(s, Exec(s, AdmitBars(e, n), c), e, n)
  {
    hide Do, SlotOf, BarAt, Exec, Admitted;
    if n == 0 {
      NoneAdmitted(s, e, c);
    } else {
      BarsAdmitted(s, e, n - 1, c);
      ExecThen(s, AdmitBars(e, n - 1), AdmitBar(SlotOf(e, n - 1), BarAt(e, n - 1)), c);
      AdmitsOne(s, Exec(s, AdmitBars(e, n - 1), c), e, n - 1, c);
    }
  }

  lemma NoBars(e: Entry)
    ensures FirstBars(e, map[], 0)
  {
  }

  lemma FirstBarsComplete(e: Entry, bars: Bars)
    requires FirstBars(e, bars, HORIZON)
    ensures Complete(bars, e) && AllAdmitted(Realized(bars, e))
  {
  }

  lemma AppendDoes(s: System, e: Entry, c: Contract)
    requires !HasKey(s.disk.entries, e.key) && !HasId(s.disk.entries, e.id)
    requires e.key !in s.disk.ledger.cases && e.id !in s.disk.durability
    ensures Do(s, AppendPrediction(e), c) == s.(disk := s.disk.(entries := s.disk.entries + [e]))
  {
  }

  lemma AttestDoes(s: System, i: nat, at: int, c: Contract)
    requires i < |s.disk.entries| && s.disk.entries[i].id !in s.disk.durability
    ensures Do(s, Attest(i, at), c)
         == s.(disk := s.disk.(durability := s.disk.durability[s.disk.entries[i].id := at]))
  {
  }

  /** One prediction and its attestation. */
  lemma AttestedEntry(start: int, e: Entry, at: int, c: Contract)
    ensures Exec(Init(start), [AppendPrediction(e), Attest(0, at)], c)
         == Init(start).(disk := Disk([e], map[e.id := at], map[], [], Ledger(map[], false)))
  {
    var s0 := Init(start);
    var one := [AppendPrediction(e)];
    assert one == [] + one && [AppendPrediction(e), Attest(0, at)] == one + [Attest(0, at)];
    ExecThen(s0, [], AppendPrediction(e), c);
    ExecThen(s0, one, Attest(0, at), c);
    assert Exec(s0, [], c) == s0;
    hide Exec, Do;
    AppendDoes(s0, e, c);
    AttestDoes(Exec(s0, one, c), 0, at, c);
  }

  /** A run that brings a first prediction to the point of being linked. */
  function Prelude(): seq<Step> {
    [AppendPrediction(FIRST), Attest(0, FIRST.cutoff)] + AdmitBars(FIRST, HORIZON)
  }

  /** The first prediction and its bars are there, and the case is as given. */
  predicate FirstPresented(s: System, start: int, cases: Cases) {
    && s.disk.entries == [FIRST] && s.disk.durability == map[FIRST.id := FIRST.cutoff] && s.disk.links == []
    && Complete(s.disk.bars, FIRST) && AllAdmitted(Realized(s.disk.bars, FIRST))
    && s.disk.ledger == Ledger(cases, false) && s.status.None? && s.now == start && !s.latched
  }

  lemma PreludeReaches(start: int, c: Contract)
    ensures var s := Exec(Init(start), Prelude(), c);
            FirstPresented(s, start, map[]) && s.process.Down?
  {
    var two := [AppendPrediction(FIRST), Attest(0, FIRST.cutoff)];
    AttestedEntry(start, FIRST, FIRST.cutoff, c);
    hide Exec, Do, Complete, AllAdmitted, Realized, AdmitBars, FirstBars;
    ExecConcat(Init(start), two, AdmitBars(FIRST, HORIZON), c);
    BarsAdmitted(Exec(Init(start), two, c), FIRST, HORIZON, c);
    FirstBarsComplete(FIRST, Exec(Init(start), two + AdmitBars(FIRST, HORIZON), c).disk.bars);
  }

  /** The pass has looked at the first prediction twice and found no case for it. */
  function ToLocking(start: int): seq<Step> {
    Prelude() + Begin(start) + [Advance(start)] + [Advance(start)]
  }

  predicate PassingFirst(s: System, phase: Phase) {
    s.process == Passing(ViewOf(s.disk), 0, phase)
  }

  lemma ReachesLocking(start: int, c: Contract)
    requires start < c.deadline
    ensures var s := Exec(Init(start), ToLocking(start), c);
            FirstPresented(s, start, map[]) && PassingFirst(s, Locking(None))
  {
    hide Prelude, Begin, Exec, Do, Complete, AllAdmitted, Realized;
    PreludeReaches(start, c);
    BeginsAfter(start, Prelude(), c);
    ExecThen(Init(start), Prelude() + Begin(start), Advance(start), c);
    ExecThen(Init(start), Prelude() + Begin(start) + [Advance(start)], Advance(start), c);
    LooksTwice(Exec(Init(start), Prelude() + Begin(start), c), start, c);
  }

  lemma LooksTwice(s: System, start: int, c: Contract)
    requires FirstPresented(s, start, map[]) && PassingFirst(s, Examine)
    ensures var t := Do(Do(s, Advance(start), c), Advance(start), c);
            FirstPresented(t, start, map[]) && PassingFirst(t, Locking(None))
  {
    hide Complete, AllAdmitted, Realized;
    assert PassingFirst(Do(s, Advance(start), c), Opening(None));
  }

  function ToAppend(start: int): seq<Step> {
    ToLocking(start) + [Advance(start)]
  }

  lemma ReachesAppend(start: int, c: Contract)
    requires start < c.deadline
    ensures var s := Exec(Init(start), ToAppend(start), c);
            FirstPresented(s, start, map[FIRST.key := Pending(FIRST.id)]) && PassingFirst(s, Append)
  {
    hide ToLocking, Exec, Do, FirstPresented, PassingFirst;
    ReachesLocking(start, c);
    ExecThen(Init(start), ToLocking(start), Advance(start), c);
    LocksFirst(Exec(Init(start), ToLocking(start), c), start, c);
  }

  lemma LocksFirst(s: System, start: int, c: Contract)
    requires FirstPresented(s, start, map[]) && PassingFirst(s, Locking(None))
    ensures var t := Do(s, Advance(start), c);
            FirstPresented(t, start, map[FIRST.key := Pending(FIRST.id)]) && PassingFirst(t, Append)
  {
    hide Complete, AllAdmitted, Realized;
    assert !BoundElsewhere(map[], FIRST.key, FIRST.id);
  }

  lemma AppendsFirst(s: System, start: int, c: Contract)
    requires start < c.deadline && s.now == start && s.disk.links == []
    requires PassingFirst(s, Append) && s.disk.entries == [FIRST] && Complete(s.disk.bars, FIRST)
    ensures var t := Do(s, Advance(start), c);
            t.disk.links != [] && t.status == s.status && t.disk.ledger == s.disk.ledger
  {
    hide Complete, Realized, LinkFor;
  }

  /** For every contract: a crash in the first pass, between its first link and its
      first status, leaves a linker that can never be started again. */
  lemma FirstPassCrashIsStuck(start: int, c: Contract)
    requires start < c.deadline
    ensures Stuck(Exec(Init(start), ToAppend(start) + [Advance(start)] + [Crash], c))
  {
    ReachesAppend(start, c);
    ExecThen(Init(start), ToAppend(start), Advance(start), c);
    ExecThen(Init(start), ToAppend(start) + [Advance(start)], Crash, c);
    hide Exec, ToAppend, Complete, AllAdmitted, Realized;
    AppendsFirst(Exec(Init(start), ToAppend(start), c), start, c);
  }

  /** For every contract: another process may latch the generation in the middle of
      a pass, and the pass still writes its link. */
  lemma LatchedPassStillLinks(start: int, c: Contract)
    requires start < c.deadline
    ensures var s := Exec(Init(start), ToAppend(start) + [Latch], c);
            s.disk.ledger.fatal && s.latched && Do(s, Advance(start), c).disk.links != s.disk.links
  {
    hide ToAppend, Complete, Micro, AllAdmitted, Realized;
    ReachesAppend(start, c);
    ExecThen(Init(start), ToAppend(start), Latch, c);
    hide Exec;
    AppendsFirst(Exec(Init(start), ToAppend(start) + [Latch], c), start, c);
  }

  // ------------------------------------------- races with the candidate's accounting

  /** For every contract: the candidate records the pending case between the linker's
      look at it and its append, and the linker fails a generation in which both wrote
      the same and every bar was admitted. */
  lemma PendingRaceLatches(start: int, c: Contract)
    requires start < c.deadline
    ensures var s := Exec(Init(start), ToLocking(start) + [OwnPending(0)], c);
            var t := Do(s, Advance(start), c);
            && !s.disk.ledger.fatal && !t.latched && t.disk.ledger.fatal
            && t.process == Passing(ViewOf(s.disk), 0, Finished(true))
            && t.disk.ledger.cases == map[FIRST.key := Pending(FIRST.id)]
            && AdmittedInputs(t.disk) && (c.minimum <= c.target ==> Feasible(t.disk.ledger.cases, c))
  {
    hide ToLocking, Exec, Do, FirstPresented, PassingFirst, Feasible, AdmittedInputs;
    ReachesLocking(start, c);
    ExecThen(Init(start), ToLocking(start), OwnPending(0), c);
    var s := Exec(Init(start), ToLocking(start), c);
    PendsFirst(s, start, c);
    AppendIsRefused(Do(s, OwnPending(0), c), start, c);
    NothingExcluded(map[FIRST.key := Pending(FIRST.id)], c);
  }

  lemma PendsFirst(s: System, start: int, c: Contract)
    requires FirstPresented(s, start, map[]) && PassingFirst(s, Locking(None))
    ensures var t := Do(s, OwnPending(0), c);
            FirstPresented(t, start, map[FIRST.key := Pending(FIRST.id)]) && PassingFirst(t, Locking(None))
  {
    hide Complete, AllAdmitted, Realized;
    assert !BoundElsewhere(map[], FIRST.key, FIRST.id);
  }

  lemma AppendIsRefused(s: System, start: int, c: Contract)
    requires FirstPresented(s, start, map[FIRST.key := Pending(FIRST.id)]) && PassingFirst(s, Locking(None))
    ensures var t := Do(s, Advance(start), c);
            && !s.disk.ledger.fatal && !t.latched
            && t.disk.ledger == Ledger(map[FIRST.key := Pending(FIRST.id)], true)
            && t.process == Passing(ViewOf(s.disk), 0, Finished(true)) && AdmittedInputs(t.disk)
  {
    hide Complete, AllAdmitted, Realized;
  }

  lemma NothingExcluded(cases: Cases, c: Contract)
    requires forall k :: k in cases ==> !cases[k].Excluded?
    ensures c.minimum <= c.target ==> Feasible(cases, c)
  {
    FeasibleCountsExclusions(cases, c);
    hide Feasible;
    forall s ensures ExcludedOf(cases, s) == {} {
    }
  }

  /** For every contract: the candidate appends and attests its first prediction between
      the linker's reads of the two files.  The load raises and kills the linker, although
      nothing is wrong with the files and nothing has been accounted for. */
  lemma LoadRaceKills(start: int, c: Contract)
    requires start < c.deadline
    ensures var steps := [Start] + [Advance(start)] + [Advance(start)]
                         + [AppendPrediction(FIRST)] + [Attest(0, FIRST.cutoff)];
            var s := Exec(Init(start), steps, c);
            s.process.Listed? && !s.disk.ledger.fatal && Do(s, Advance(start), c) == s.(process := Down)
  {
    var read := [Start] + [Advance(start)] + [Advance(start)];
    Lists(Init(start), start, c);
    ExecThen(Init(start), read, AppendPrediction(FIRST), c);
    ExecThen(Init(start), read + [AppendPrediction(FIRST)], Attest(0, FIRST.cutoff), c);
    hide Exec, Do;
    AppendDoes(Exec(Init(start), read, c), FIRST, c);
    AttestDoes(Exec(Init(start), read + [AppendPrediction(FIRST)], c), 0, FIRST.cutoff, c);
    LoadRaises(Exec(Init(start), read + [AppendPrediction(FIRST)] + [Attest(0, FIRST.cutoff)], c), start, c);
  }

  lemma LoadRaises(s: System, start: int, c: Contract)
    requires s.process == Listed([]) && s.now == start && FIRST.id in s.disk.durability
    ensures Do(s, Advance(start), c) == s.(process := Down)
  {
    assert !HasId([], FIRST.id);
  }

  const LATE := Hourly("late prediction", 1)

  function ToExcluding(start: int): seq<Step> {
    [AppendPrediction(LATE), Attest(0, LATE.cutoff + LATENESS_SECONDS + 1)] + Begin(start) + [Advance(start)]
  }

  lemma ReachesExcluding(start: int, c: Contract)
    requires start < c.deadline
    ensures var s := Exec(Init(start), ToExcluding(start), c);
            && s.disk == Disk([LATE], map[LATE.id := LATE.cutoff + LATENESS_SECONDS + 1], map[], [],
                              Ledger(map[], false))
            && PassingFirst(s, Excluding) && s.now == start && !s.latched
  {
    var two := [AppendPrediction(LATE), Attest(0, LATE.cutoff + LATENESS_SECONDS + 1)];
    AttestedEntry(start, LATE, LATE.cutoff + LATENESS_SECONDS + 1, c);
    hide Exec, Begin;
    BeginsAfter(start, two, c);
    ExecThen(Init(start), two + Begin(start), Advance(start), c);
    assert PassingFirst(Exec(Init(start), two + Begin(start), c), Examine);
  }

  /** For every contract: the candidate excludes its late prediction between the linker's
      look at the case and its call.  The call raises and kills the linker, although the
      generation is not latched and a contract with a case to spare is still covered. */
  lemma LateRaceKills(start: int, c: Contract)
    requires start < c.deadline
    ensures var s := Exec(Init(start), ToExcluding(start) + [OwnExclusion(0)], c);
            var t := Do(s, Advance(start), c);
            && t.process == Passing(ViewOf(s.disk), 0, Died) && !t.latched && !t.disk.ledger.fatal
            && t.disk.ledger.cases == map[LATE.key := Excluded(Some(LATE.id))]
            && (c.minimum < c.target ==> Feasible(t.disk.ledger.cases, c))
  {
    hide ToExcluding, Exec, Do, Feasible;
    ReachesExcluding(start, c);
    ExecThen(Init(start), ToExcluding(start), OwnExclusion(0), c);
    var s := Exec(Init(start), ToExcluding(start), c);
    ExcludesItsOwn(s, c);
    CallRaises(Do(s, OwnExclusion(0), c), start, c);
    OneExclusion(LATE.key, Excluded(Some(LATE.id)), c);
  }

  lemma ExcludesItsOwn(s: System, c: Contract)
    requires s.disk.entries == [LATE] && Late(s.disk.durability, LATE) && s.disk.ledger == Ledger(map[], false)
    ensures var t := Do(s, OwnExclusion(0), c);
            && t.disk == s.disk.(ledger := Ledger(map[LATE.key := Excluded(Some(LATE.id))], false))
            && t.process == s.process && t.now == s.now && t.latched == s.latched
  {
    assert !BoundElsewhere(map[], LATE.key, LATE.id);
  }

  lemma CallRaises(s: System, start: int, c: Contract)
    requires s.process.Passing? && s.process.view.entries == [LATE] && s.process.index == 0
    requires s.process.phase.Excluding? && s.now == start
    requires s.disk.ledger == Ledger(map[LATE.key := Excluded(Some(LATE.id))], false)
    ensures Do(s, Advance(start), c) == s.(process := Passing(s.process.view, 0, Died))
  {
  }

  lemma OneExclusion(key: Key, excluded: Case, c: Contract)
    ensures c.minimum < c.target ==> Feasible(map[key := excluded], c)
  {
    var cases: Cases := map[key := excluded];
    FeasibleCountsExclusions(cases, c);
    hide Feasible;
    forall s ensures |ExcludedOf(cases, s)| <= 1 {
      SubsetSize(ExcludedOf(cases, s), {key});
    }
  }

  // --------------------------------------------------------- the latch a crash loses

  /** The opportunities that a contract can spare, all missed. */
  function Spent(n: nat): Cases {
    if n == 0 then map[] else Spent(n - 1)[Key("BTCUSDT", n) := Excluded(None)]
  }

  function MissedSteps(n: nat): seq<Step> {
    if n == 0 then [] else MissedSteps(n - 1) + [Missed(Key("BTCUSDT", n))]
  }

  predicate AllMissed(cases: Cases, n: int) {
    forall k :: k in cases ==> cases[k] == Excluded(None) && k.symbol == "BTCUSDT" && 1 <= k.ordinal <= n
  }

  lemma {:induction false} SpentAre(n: nat)
    ensures AllMissed(Spent(n), n)
  {
    if n > 0 { SpentAre(n - 1); }
  }

  lemma {:induction false} SpentCount(n: nat)
    ensures |Spent(n).Keys| == n
  {
    if n == 0 {
      assert Spent(n) == map[];
    } else {
      hide Spent;
      SpentCount(n - 1);
      SpendsNew(n);
    }
  }

  lemma SpendsNew(n: nat)
    requires n > 0
    ensures Key("BTCUSDT", n) !in Spent(n - 1).Keys && Spent(n).Keys == Spent(n - 1).Keys + {Key("BTCUSDT", n)}
  {
    SpentAre(n - 1);
    IsNotMissed(Spent(n - 1), n);
    hide AllMissed;
  }

  lemma IsNotMissed(cases: Cases, n: int)
    requires AllMissed(cases, n - 1)
    ensures Key("BTCUSDT", n) !in cases
  {
  }

  lemma SpentExclusions(n: nat, symbol: string)
    ensures |ExcludedOf(Spent(n), symbol)| == if symbol == "BTCUSDT" then n else 0
  {
    SpentAre(n);
    SpentCount(n);
    hide Spent;
    if symbol == "BTCUSDT" {
      assert ExcludedOf(Spent(n), symbol) == Spent(n).Keys;
    } else {
      assert ExcludedOf(Spent(n), symbol) == {};
    }
  }

  function AfterSpending(start: int, n: nat): System {
    Init(start).(disk := Disk([], map[], map[], [], Ledger(Spent(n), false)), own := Spent(n))
  }

  lemma {:induction false} SpendsCases(start: int, n: nat, c: Contract)
    ensures Exec(Init(start), MissedSteps(n), c) == AfterSpending(start, n)
  {
    hide Do;
    if n > 0 {
      SpendsCases(start, n - 1, c);
      ExecThen(Init(start), MissedSteps(n - 1), Missed(Key("BTCUSDT", n)), c);
      hide Exec;
      SpendsOne(start, n, c);
    }
  }

  lemma SpendsOne(start: int, n: nat, c: Contract)
    requires n > 0
    ensures Do(AfterSpending(start, n - 1), Missed(Key("BTCUSDT", n)), c) == AfterSpending(start, n)
  {
    SpentAre(n - 1);
    IsNotMissed(Spent(n - 1), n);
    hide AllMissed;
    assert Spent(n) == Spent(n - 1)[Key("BTCUSDT", n) := Excluded(None)];
    hide Spent;
    assert !HasKey([], Key("BTCUSDT", n));
  }

  function LateAfter(n: nat): Entry {
    Hourly("late prediction", n + 1)
  }

  function LastAfter(n: nat): Entry {
    Hourly("prediction", n + 2)
  }

  /** The exclusions are spent; then come a late prediction and one on time. */
  function TwoPredictions(n: nat): seq<Step> {
    MissedSteps(n) + [AppendPrediction(LateAfter(n))] + [AppendPrediction(LastAfter(n))]
    + [Attest(0, LateAfter(n).cutoff + LATENESS_SECONDS + 1)] + [Attest(1, LastAfter(n).cutoff)]
  }

  function TwoAttested(n: nat): map<string, int> {
    map[LateAfter(n).id := LateAfter(n).cutoff + LATENESS_SECONDS + 1, LastAfter(n).id := LastAfter(n).cutoff]
  }

  lemma PresentsTwo(start: int, n: nat, c: Contract)
    ensures Exec(Init(start), TwoPredictions(n), c)
         == AfterSpending(start, n).(disk := Disk([LateAfter(n), LastAfter(n)], TwoAttested(n), map[], [],
                                                  Ledger(Spent(n), false)))
  {
    hide Exec, Do, Spent, MissedSteps;
    var s0, steps := Init(start), MissedSteps(n);
    var e, f, at := LateAfter(n), LastAfter(n), LateAfter(n).cutoff + LATENESS_SECONDS + 1;
    SpendsCases(start, n, c);
    LateIsNew(n);
    ExecThen(s0, steps, AppendPrediction(e), c);
    ExecThen(s0, steps + [AppendPrediction(e)], AppendPrediction(f), c);
    ExecThen(s0, steps + [AppendPrediction(e)] + [AppendPrediction(f)], Attest(0, at), c);
    ExecThen(s0, steps + [AppendPrediction(e)] + [AppendPrediction(f)] + [Attest(0, at)], Attest(1, f.cutoff), c);
    AppendsAndAttests(AfterSpending(start, n), e, f, at, f.cutoff, c);
  }

  lemma AppendsAndAttests(s: System, e: Entry, f: Entry, at: int, next: int, c: Contract)
    requires s.disk.entries == [] && s.disk.durability == map[] && e.id != f.id && e.key != f.key
    requires e.key !in s.disk.ledger.cases && f.key !in s.disk.ledger.cases
    ensures var one := Do(Do(s, AppendPrediction(e), c), AppendPrediction(f), c);
            Do(Do(one, Attest(0, at), c), Attest(1, next), c)
            == s.(disk := s.disk.(entries := [e, f], durability := map[e.id := at, f.id := next]))
  {
    hide Do;
    AppendDoes(s, e, c);
    var s1 := Do(s, AppendPrediction(e), c);
    AppendDoes(s1, f, c);
    var s2 := Do(s1, AppendPrediction(f), c);
    AttestDoes(s2, 0, at, c);
    AttestDoes(Do(s2, Attest(0, at), c), 1, next, c);
  }

  function LatePrelude(n: nat): seq<Step> {
    TwoPredictions(n) + AdmitBars(LastAfter(n), HORIZON)
  }

  /** Both predictions and the bars are there, with the cases as given. */
  predicate Presented(s: System, start: int, n: nat, cases: Cases) {
    && s.disk.entries == [LateAfter(n), LastAfter(n)] && s.disk.durability == TwoAttested(n)
    && Complete(s.disk.bars, LastAfter(n)) && AllAdmitted(Realized(s.disk.bars, LastAfter(n)))
    && s.disk.links == [] && s.status.None? && s.now == start && s.own == Spent(n)
    && s.disk.ledger == Ledger(cases, false)
  }

  lemma LatePreludeReaches(start: int, n: nat, c: Contract)
    ensures var s := Exec(Init(start), LatePrelude(n), c);
            Presented(s, start, n, Spent(n)) && s.process.Down?
  {
    PresentsTwo(start, n, c);
    hide Exec, Complete, AllAdmitted, Realized, AdmitBars, FirstBars, TwoPredictions, Spent;
    ExecConcat(Init(start), TwoPredictions(n), AdmitBars(LastAfter(n), HORIZON), c);
    var s := Exec(Init(start), TwoPredictions(n), c);
    BarsAdmitted(s, LastAfter(n), HORIZON, c);
    FirstBarsComplete(LastAfter(n), Exec(s, AdmitBars(LastAfter(n), HORIZON), c).disk.bars);
  }

  function ToPass(start: int, n: nat): seq<Step> {
    LatePrelude(n) + Begin(start)
  }

  /** The pass is crashed once it has recorded the exclusion, and started again. */
  function ToPassAgain(start: int, n: nat): seq<Step> {
    ToPass(start, n) + [Advance(start)] + [Advance(start)] + [Crash] + Begin(start)
  }

  lemma FirstPassBegins(start: int, n: nat, c: Contract)
    requires start < c.deadline
    ensures var s := Exec(Init(start), ToPass(start, n), c);
            Presented(s, start, n, Spent(n)) && PassBegun(s)
  {
    hide LatePrelude, Begin, Exec, Complete, AllAdmitted, Realized, Spent, TwoAttested;
    LatePreludeReaches(start, n, c);
    BeginsAfter(start, LatePrelude(n), c);
  }

  /** One exclusion more than can be spared. */
  function Overspent(n: nat): Cases {
    Spent(n)[LateAfter(n).key := Excluded(Some(LateAfter(n).id))]
  }

  lemma LateIsNew(n: nat)
    ensures LateAfter(n).key !in Spent(n) && LastAfter(n).key !in Spent(n)
    ensures !BoundElsewhere(Spent(n), LateAfter(n).key, LateAfter(n).id)
    ensures LastAfter(n).key !in Overspent(n) && !BoundElsewhere(Overspent(n), LastAfter(n).key, LastAfter(n).id)
  {
    SpentAre(n);
    hide Spent;
  }

  lemma RecordsLate(s: System, start: int, n: nat, c: Contract)
    requires Presented(s, start, n, Spent(n)) && PassBegun(s)
    ensures Presented(Do(Do(s, Advance(start), c), Advance(start), c), start, n, Overspent(n))
  {
    hide Complete, AllAdmitted, Realized, Spent, BoundElsewhere;
    LateIsNew(n);
    var t := Do(s, Advance(start), c);
    assert PassingFirst(t, Excluding);
  }

  lemma SecondPassBegins(start: int, n: nat, c: Contract)
    requires start < c.deadline
    ensures var s := Exec(Init(start), ToPassAgain(start, n), c);
            Presented(s, start, n, Overspent(n)) && PassBegun(s)
  {
    var steps := ToPass(start, n);
    FirstPassBegins(start, n, c);
    hide ToPass, Exec, Begin, Complete, AllAdmitted, Realized, Spent, Overspent, TwoAttested, Micro;
    ExecThen(Init(start), steps, Advance(start), c);
    ExecThen(Init(start), steps + [Advance(start)], Advance(start), c);
    ExecThen(Init(start), steps + [Advance(start)] + [Advance(start)], Crash, c);
    RecordsLate(Exec(Init(start), steps, c), start, n, c);
    BeginsAfter(start, steps + [Advance(start)] + [Advance(start)] + [Crash], c);
  }

  function Always(at: int): nat -> int {
    (i: nat) => at
  }

  /** The prediction on time, alone left, is linked. */
  lemma LastIsLinked(v: View, start: int, n: nat, c: Contract)
    requires start < c.deadline && v.entries == [LateAfter(n), LastAfter(n)] && OnTime(v.durability, LastAfter(n))
    requires Complete(v.bars, LastAfter(n)) && AllAdmitted(Realized(v.bars, LastAfter(n)))
    ensures var p := FinishPass(v, Pass([], Ledger(Overspent(n), false), 1, Examine), Always(start), c);
            p.phase == Finished(false) && !p.ledger.fatal && |p.links| == 1
  {
    var e, cases, clock := LastAfter(n), Overspent(n), Always(start);
    var p1 := Pass([], Ledger(cases, false), 1, Examine);
    LateIsNew(n);
    hide FinishPass, Complete, AllAdmitted, Realized, LinkFor, Spent, Overspent, BoundElsewhere;
    Unroll(v, p1, clock, c);
    FinishOpening(v, p1.(phase := Opening(None)), None, clock, c);
    assert Micro(v, p1, clock(1), c) == p1.(phase := Opening(None));
    var p2 := Pass([], Ledger(cases[e.key := Pending(e.id)], false), 1, Append);
    LinksAndEnds(v, p2, start, n, c);
  }

  lemma LinksAndEnds(v: View, p: Pass, start: int, n: nat, c: Contract)
    requires start < c.deadline && v.entries == [LateAfter(n), LastAfter(n)] && Complete(v.bars, LastAfter(n))
    requires p == Pass([], Ledger(Overspent(n)[LastAfter(n).key := Pending(LastAfter(n).id)], false), 1, Append)
    ensures var q := FinishPass(v, p, Always(start), c);
            q.phase == Finished(false) && !q.ledger.fatal && |q.links| == 1
  {
    var e, clock := LastAfter(n), Always(start);
    var link := LinkFor(e, Realized(v.bars, e), start);
    NothingInTheWay(n, link.outcome);
    hide FinishPass, Complete, Realized, LinkFor, Spent, Overspent, Micro, BoundElsewhere, OutcomeElsewhere;
    FinishAppend(v, p, clock, c);
    var q := CertifyStep(p.(links := [] + [link]), e, link);
    assert q.index == 2 && q.phase == Examine && !q.ledger.fatal && |q.links| == 1;
    LastEntry(v, q, clock, c);
  }

  lemma NothingInTheWay(n: nat, o: Outcome)
    ensures var e := LastAfter(n);
            var cases := Overspent(n)[e.key := Pending(e.id)];
            !BoundElsewhere(cases, e.key, e.id) && !OutcomeElsewhere(cases, e.key, o)
  {
    SpentAre(n);
    hide Spent;
  }

  /** The recorded exclusion is passed over, and the prediction on time is linked. */
  lemma SecondPassLinks(s: System, start: int, n: nat, c: Contract)
    requires start < c.deadline && Presented(s, start, n, Overspent(n)) && PassBegun(s)
    ensures var p := PassFrom(s, Always(start), c);
            p.phase == Finished(false) && !p.ledger.fatal && |p.links| == 1
  {
    var v, clock := ViewOf(s.disk), Always(start);
    var p0 := Pass(s.disk.links, s.disk.ledger, 0, Examine);
    hide FinishPass, Complete, AllAdmitted, Realized, LinkFor, Spent;
    FinishLate(v, p0, clock, c);
    assert LateVerdict(p0, LateAfter(n)) == NextEntry(p0);
    LastIsLinked(v, start, n, c);
  }

  lemma OverspentLosesCoverage(n: nat, c: Contract)
    requires "BTCUSDT" in c.symbols && c.target - c.minimum == n
    ensures Feasible(Spent(n), c) && !Feasible(Overspent(n), c)
  {
    FeasibleCountsExclusions(Spent(n), c);
    FeasibleCountsExclusions(Overspent(n), c);
    hide Feasible;
    SpentAre(n);
    forall s ensures |ExcludedOf(Spent(n), s)| <= n { SpentExclusions(n, s); }
    SpentExclusions(n, "BTCUSDT");
    hide Spent;
    assert ExcludedOf(Overspent(n), "BTCUSDT") == ExcludedOf(Spent(n), "BTCUSDT") + {LateAfter(n).key};
  }

  /** Without the crash the exclusion is followed by the check, and the check latches. */
  lemma FirstPassLatches(s: System, start: int, n: nat, c: Contract)
    requires Presented(s, start, n, Spent(n)) && PassBegun(s)
    requires "BTCUSDT" in c.symbols && c.target - c.minimum == n
    ensures var p := PassFrom(s, Always(start), c);
            p.phase == Finished(true) && p.ledger.fatal && p.links == []
  {
    var v, clock := ViewOf(s.disk), Always(start);
    var p0 := Pass(s.disk.links, s.disk.ledger, 0, Examine);
    hide FinishPass, Complete, AllAdmitted, Realized, Feasible, Spent, BoundElsewhere;
    FinishLate(v, p0, clock, c);
    LateIsNew(n);
    OverspentLosesCoverage(n, c);
  }

  /** For every contract, once the exclusions it can spare are spent and the coverage still
      holds: a crash between the exclusion of a late prediction and the coverage check that
      was to latch the generation loses the latch.  On the same inputs the recovering pass
      ends without failure and writes a link, and the pass of the run free of crashes
      latches and writes none. */
  lemma CrashLosesLatch(start: int, c: Contract)
    requires start < c.deadline && "BTCUSDT" in c.symbols && c.minimum <= c.target
    ensures var n := c.target - c.minimum;
            var a, b := Exec(Init(start), ToPassAgain(start, n), c), Exec(Init(start), ToPass(start, n), c);
            var p, q := PassFrom(a, Always(start), c), PassFrom(b, Always(start), c);
            && PassBegun(a) && PassBegun(b) && SameInputs(a.disk, b.disk, a.own, b.own)
            && GoodClock(Always(start), c) && a.now <= start && b.now <= start
            && !a.disk.ledger.fatal && !b.disk.ledger.fatal && Feasible(b.disk.ledger.cases, c)
            && p.phase == Finished(false) && !p.ledger.fatal && |p.links| == 1
            && q.phase == Finished(true) && q.ledger.fatal && q.links == []
  {
    hide ToPass, ToPassAgain, Exec, FinishPass, Feasible, Spent, Overspent, Presented, PassBegun, SameInputs,
      GoodClock, Always, ViewOf;
    var n := c.target - c.minimum;
    FirstPassBegins(start, n, c);
    SecondPassBegins(start, n, c);
    OverspentLosesCoverage(n, c);
    SameBars(start, n, c);
    var a, b := Exec(Init(start), ToPassAgain(start, n), c), Exec(Init(start), ToPass(start, n), c);
    SameIsPresented(a, b, start, n, Overspent(n), Spent(n), c);
    SecondPassLinks(a, start, n, c);
    FirstPassLatches(b, start, n, c);
  }

  lemma SameIsPresented(a: System, b: System, start: int, n: nat, casesA: Cases, casesB: Cases, c: Contract)
    requires Presented(a, start, n, casesA) && Presented(b, start, n, casesB) && a.disk.bars == b.disk.bars
    requires start < c.deadline
    ensures SameInputs(a.disk, b.disk, a.own, b.own) && GoodClock(Always(start), c) && a.now == b.now == start
    ensures a.disk.ledger == Ledger(casesA, false) && b.disk.ledger == Ledger(casesB, false)
  {
    hide Complete, AllAdmitted, Realized, Spent, TwoAttested, Decided;
  }

  lemma SameBars(start: int, n: nat, c: Contract)
    requires start < c.deadline
    ensures Exec(Init(start), ToPassAgain(start, n), c).disk.bars == Exec(Init(start), ToPass(start, n), c).disk.bars
  {
    hide Exec, ToPass, ToPassAgain;
    var again := AgainSteps(start, n);
    ExecConcat(Init(start), ToPass(start, n), again, c);
    LinkerKeepsBars(Exec(Init(start), ToPass(start, n), c), again, c);
  }

  lemma AgainSteps(start: int, n: nat) returns (again: seq<Step>)
    ensures ToPassAgain(start, n) == ToPass(start, n) + again
    ensures forall i :: 0 <= i < |again| ==> again[i].Advance? || again[i].Crash? || again[i].Start?
  {
    hide ToPass;
    again := [Advance(start), Advance(start), Crash] + Begin(start);
  }

  lemma {:induction false} LinkerKeepsBars(s: System, steps: seq<Step>, c: Contract)
    requires forall i :: 0 <= i < |steps| ==> steps[i].Advance? || steps[i].Crash? || steps[i].Start?
    ensures Exec(s, steps, c).disk.bars == s.disk.bars
  {
    hide Micro;
    if steps != [] {
      LinkerKeepsBars(s, steps[..|steps| - 1], c);
    }
  }
}
