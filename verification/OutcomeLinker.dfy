/** One pass of the outcome linker, as the durable writes it makes one at a time
    (`Micro`) and as the loop over prediction entries that makes them. */
module OutcomeLinker {

  import opened Options
  import opened Coordinator

  const HORIZON := 12
  const BAR_SECONDS := 300
  const LATENESS_SECONDS := 300

  datatype Entry = Entry(id: string, key: Key, cutoff: int)

  datatype Slot = Slot(symbol: string, intervalEnd: int)

  type Bars = map<Slot, Bar>

  datatype Link = Link(prediction: string, key: Key, cutoff: int, ends: seq<int>,
                       bars: seq<Bar>, outcome: Outcome, linkedAt: int)

  /** What a pass reads once, before its loop: the prediction ledger, its
      durability attestations and the normalized bars. */
  datatype View = View(entries: seq<Entry>, durability: map<string, int>, bars: Bars)

  /** Where a pass stands with the entry at hand.  `Excluding` and `Opening` come after
      the case was read as absent, `Opening` before the pending call looks again and
      `Locking` before it appends; `found` is the link the entry already has. */
  datatype Phase =
    | Examine
    | Excluding
    | Opening(found: Option<Link>)
    | Locking(found: Option<Link>)
    | Coverage(late: bool)
    | Recheck
    | Append
    | Certify(link: Link)
    | Finished(failed: bool)
    | Died

  /** What a pass writes to, and where it stands. */
  datatype Pass = Pass(links: seq<Link>, ledger: Ledger, index: nat, phase: Phase)

  function SlotOf(e: Entry, i: int): Slot {
    Slot(e.key.symbol, e.cutoff + BAR_SECONDS * (i + 1))
  }

  function Ends(cutoff: int): seq<int> {
    seq(HORIZON, i requires 0 <= i < HORIZON => cutoff + BAR_SECONDS * (i + 1))
  }

  /** The consecutive bars after the cutoff are all there. */
  predicate Complete(bars: Bars, e: Entry) {
    forall i :: 0 <= i < HORIZON ==> SlotOf(e, i) in bars
  }

  function Realized(bars: Bars, e: Entry): seq<Bar>
    requires Complete(bars, e)
  {
    seq(HORIZON, i requires 0 <= i < HORIZON => bars[SlotOf(e, i)])
  }

  predicate AllAdmitted(bars: seq<Bar>) {
    forall i :: 0 <= i < |bars| ==> bars[i].admitted
  }

  function LinkFor(e: Entry, bars: seq<Bar>, at: int): Link {
    Link(e.id, e.key, e.cutoff, Ends(e.cutoff), bars, OutcomeOf(e.id, bars), at)
  }

  predicate Late(durability: map<string, int>, e: Entry) {
    e.id in durability && durability[e.id] > e.cutoff + LATENESS_SECONDS
  }

  predicate OnTime(durability: map<string, int>, e: Entry) {
    e.id in durability && durability[e.id] <= e.cutoff + LATENESS_SECONDS
  }

  predicate Linked(links: seq<Link>, id: string) {
    exists i :: 0 <= i < |links| && links[i].prediction == id
  }

  function FindLink(links: seq<Link>, id: string): (r: Option<Link>)
    ensures r.Some? <==> Linked(links, id)
    ensures r.Some? ==> r.value in links && r.value.prediction == id
  {
    if links == [] then None
    else if links[|links| - 1].prediction == id then Some(links[|links| - 1])
    else
      var r := FindLink(links[..|links| - 1], id);
      r
  }

  predicate OutcomeUsed(links: seq<Link>, o: Outcome) {
    exists i :: 0 <= i < |links| && links[i].outcome == o
  }

  function CaseOf(l: Ledger, key: Key): Option<Case> {
    if key in l.cases then Some(l.cases[key]) else None
  }

  function NextEntry(p: Pass): Pass {
    p.(index := p.index + 1, phase := Examine)
  }

  function Refuse(p: Pass): Pass {
    p.(ledger := Fail(p.ledger), phase := Finished(true))
  }

  /** A late prediction must be excluded under its own identity and unlinked. */
  function LateVerdict(p: Pass, e: Entry): Pass {
    if CaseOf(p.ledger, e.key) == Some(Excluded(Some(e.id))) && !Linked(p.links, e.id)
    then NextEntry(p) else Refuse(p)
  }

  function CertifyStep(p: Pass, e: Entry, link: Link): Pass {
    match RecordClean(p.ledger, e.key, e.id, link.outcome)
    case Raised => Refuse(p)
    case Done(l) => NextEntry(p.(ledger := l))
  }

  /** The late entry's case was absent when it was read; the call is outside any handler. */
  function ExcludeStep(p: Pass, e: Entry): Pass {
    match RecordExcluded(p.ledger, e.key, Some(e.id))
    case Raised => p.(phase := Died)
    case Done(l) => p.(ledger := l, phase := Coverage(true))
  }

  /** Where an entry goes on once its case is pending. */
  function Opened(found: Option<Link>): Phase {
    if found.Some? then Certify(found.value) else Append
  }

  /** The pending call looks at the case once more, without the lock. */
  function OpenStep(p: Pass, e: Entry, found: Option<Link>): Pass {
    if e.key !in p.ledger.cases then p.(phase := Locking(found))
    else if p.ledger.cases[e.key] == Pending(e.id) then p.(phase := Opened(found))
    else Refuse(p)
  }

  function LockStep(p: Pass, e: Entry, found: Option<Link>): Pass {
    match AppendPending(p.ledger, e.key, e.id)
    case Raised => Refuse(p)
    case Done(l) => p.(ledger := l, phase := Opened(found))
  }

  /** First look at an entry: reads its case, and certifies a linked one. */
  function ExamineStep(v: View, p: Pass, e: Entry): Pass {
    var case' := CaseOf(p.ledger, e.key);
    if e.id !in v.durability then NextEntry(p)
    else if Late(v.durability, e) then
      if case'.None? then p.(phase := Excluding) else LateVerdict(p, e)
    else if case'.Some? && case'.value.Excluded? then
      if case'.value.predicted != Some(e.id) then Refuse(p) else NextEntry(p)
    else
      var found := FindLink(p.links, e.id);
      if found.Some? then
        if case'.None? then p.(phase := Opening(found)) else CertifyStep(p, e, found.value)
      else if !Complete(v.bars, e) then NextEntry(p)
      else if !AllAdmitted(Realized(v.bars, e)) then Refuse(p)
      else if case'.None? then p.(phase := Opening(None))
      else if case'.value == Pending(e.id) then p.(phase := Append)
      else Refuse(p)
  }

  /** Takes the link time; past the deadline the case is excluded instead. */
  function AppendStep(v: View, p: Pass, e: Entry, now: int, c: Contract): Pass {
    if now > c.deadline then
      match RecordExcluded(p.ledger, e.key, Some(e.id))
      case Raised => Refuse(p)
      case Done(l) => p.(ledger := l, phase := Coverage(false))
    else if !Complete(v.bars, e) then Refuse(p)
    else
      var link := LinkFor(e, Realized(v.bars, e), now);
      if Linked(p.links, e.id) || OutcomeUsed(p.links, link.outcome) then Refuse(p)
      else p.(links := p.links + [link], phase := Certify(link))
  }

  predicate Terminal(phase: Phase) {
    phase.Finished? || phase.Died?
  }

  /** One step of a pass: at most one durable write, and a step of its own for every
      read that another process can overtake before the write that depends on it. */
  function Micro(v: View, p: Pass, now: int, c: Contract): Pass
    requires !Terminal(p.phase)
  {
    if p.index >= |v.entries| then p.(phase := Finished(false))
    else
      var e := v.entries[p.index];
      match p.phase
      case Examine => ExamineStep(v, p, e)
      case Excluding => ExcludeStep(p, e)
      case Opening(found) => OpenStep(p, e, found)
      case Locking(found) => LockStep(p, e, found)
      case Coverage(late) =>
        var checked := p.(ledger := CheckCoverage(p.ledger, c));
        if late then checked.(phase := Recheck) else NextEntry(checked)
      case Recheck => if p.ledger.fatal then p.(phase := Finished(true)) else LateVerdict(p, e)
      case Append => AppendStep(v, p, e, now, c)
      case Certify(link) => CertifyStep(p, e, link)
  }

  function Rank(phase: Phase): nat {
    match phase
    case Examine => 6
    case Opening(_) => 5
    case Locking(_) => 4
    case Append => 3
    case Excluding => 3
    case Coverage(_) => 2
    case Recheck => 1
    case Certify(_) => 1
    case Finished(_) => 0
    case Died => 0
  }

  lemma MicroDescends(v: View, p: Pass, now: int, c: Contract)
    requires !Terminal(p.phase) && p.index <= |v.entries|
    ensures var q := Micro(v, p, now, c);
            q.index <= |v.entries|
            && (q.index == p.index + 1 || (q.index == p.index && Rank(q.phase) < Rank(p.phase)))
  {
  }

  /** The rest of a pass nothing interrupts; `clock(i)` is read at entry `i`. */
  function FinishPass(v: View, p: Pass, clock: nat -> int, c: Contract): Pass
    requires p.index <= |v.entries|
    decreases |v.entries| - p.index, Rank(p.phase)
  {
    if Terminal(p.phase) then p
    else
      MicroDescends(v, p, clock(p.index), c);
      FinishPass(v, Micro(v, p, clock(p.index), c), clock, c)
  }

  lemma Unroll(v: View, p: Pass, clock: nat -> int, c: Contract)
    requires p.index <= |v.entries| && !Terminal(p.phase)
    ensures Micro(v, p, clock(p.index), c).index <= |v.entries|
    ensures FinishPass(v, p, clock, c) == FinishPass(v, Micro(v, p, clock(p.index), c), clock, c)
  {
    MicroDescends(v, p, clock(p.index), c);
  }

  lemma Stopped(v: View, p: Pass, clock: nat -> int, c: Contract)
    requires p.index <= |v.entries| && Terminal(p.phase)
    ensures FinishPass(v, p, clock, c) == p
  {
  }

  /** A late entry, to the end of its handling. */
  lemma FinishLate(v: View, p: Pass, clock: nat -> int, c: Contract)
    requires p.index < |v.entries| && p.phase.Examine? && Late(v.durability, v.entries[p.index])
    ensures var e := v.entries[p.index];
            FinishPass(v, p, clock, c)
            == if e.key in p.ledger.cases then FinishPass(v, LateVerdict(p, e), clock, c)
               else match RecordExcluded(p.ledger, e.key, Some(e.id))
                 case Raised => p.(phase := Died)
                 case Done(l) =>
                   var checked := CheckCoverage(l, c);
                   if checked.fatal then p.(ledger := checked, phase := Finished(true))
                   else FinishPass(v, LateVerdict(p.(ledger := checked), e), clock, c)
  {
    hide FinishPass, RecordExcluded, Feasible, Linked;
    var e := v.entries[p.index];
    Unroll(v, p, clock, c);
    if e.key !in p.ledger.cases {
      var p0 := p.(phase := Excluding);
      Unroll(v, p0, clock, c);
      var p1 := Micro(v, p0, clock(p.index), c);
      match RecordExcluded(p.ledger, e.key, Some(e.id))
      case Raised => Stopped(v, p1, clock, c);
      case Done(l) =>
        Unroll(v, p1, clock, c);
        var p2 := Micro(v, p1, clock(p.index), c);
        Unroll(v, p2, clock, c);
        var p3 := Micro(v, p2, clock(p.index), c);
        if p2.ledger.fatal {
          Stopped(v, p3, clock, c);
          assert p3 == p.(ledger := CheckCoverage(l, c), phase := Finished(true));
        } else {
          assert p3 == LateVerdict(p2, e);
          assert LateVerdict(p2, e) == LateVerdict(p.(ledger := CheckCoverage(l, c)), e);
        }
    }
  }

  /** An entry whose case is absent, to the end of the pending call. */
  lemma FinishOpening(v: View, p: Pass, found: Option<Link>, clock: nat -> int, c: Contract)
    requires p.index < |v.entries| && p.phase == Opening(found) && v.entries[p.index].key !in p.ledger.cases
    ensures var e := v.entries[p.index];
            FinishPass(v, p, clock, c)
            == match RecordPending(p.ledger, e.key, e.id)
               case Raised => Refuse(p)
               case Done(l) => FinishPass(v, p.(ledger := l, phase := Opened(found)), clock, c)
  {
    hide FinishPass, AppendPending;
    var e := v.entries[p.index];
    var p1 := p.(phase := Locking(found));
    Unroll(v, p, clock, c);
    Unroll(v, p1, clock, c);
    var p2 := Micro(v, p1, clock(p.index), c);
    if p2.phase.Finished? { Stopped(v, p2, clock, c); }
  }

  lemma FinishCertify(v: View, p: Pass, clock: nat -> int, c: Contract)
    requires p.index < |v.entries| && p.phase.Certify?
    ensures FinishPass(v, p, clock, c) == FinishPass(v, CertifyStep(p, v.entries[p.index], p.phase.link), clock, c)
  {
    Unroll(v, p, clock, c);
  }

  /** The time of a link past the deadline turns it into an exclusion. */
  lemma FinishAppend(v: View, p: Pass, clock: nat -> int, c: Contract)
    requires p.index < |v.entries| && p.phase.Append?
    requires Complete(v.bars, v.entries[p.index]) && !Linked(p.links, v.entries[p.index].id)
    ensures var e, now := v.entries[p.index], clock(p.index);
            var link := LinkFor(e, Realized(v.bars, e), now);
            FinishPass(v, p, clock, c)
            == if now > c.deadline then
                 match RecordExcluded(p.ledger, e.key, Some(e.id))
                 case Raised => Refuse(p)
                 case Done(l) => FinishPass(v, NextEntry(p.(ledger := CheckCoverage(l, c))), clock, c)
               else if OutcomeUsed(p.links, link.outcome) then Refuse(p)
               else FinishPass(v, CertifyStep(p.(links := p.links + [link]), e, link), clock, c)
  {
    hide FinishPass, RecordExcluded, RecordClean, Feasible, Linked, OutcomeUsed, Complete, LinkFor, Realized;
    Unroll(v, p, clock, c);
    var p1 := Micro(v, p, clock(p.index), c);
    if p1.phase.Finished? {
      Stopped(v, p1, clock, c);
    } else {
      Unroll(v, p1, clock, c);
      if p1.phase.Certify? {
        assert CertifyStep(p1, v.entries[p.index], p1.phase.link)
            == CertifyStep(p.(links := p1.links), v.entries[p.index], p1.phase.link);
      } else {
        assert NextEntry(p1.(ledger := CheckCoverage(p1.ledger, c)))
            == NextEntry(p.(ledger := CheckCoverage(p1.ledger, c)));
      }
    }
  }

  // ------------------------------------------------------------- the pass itself

  datatype Flow = Continue | Break | Die

  /** An exclusion with an identity always writes, so coverage is always checked. */
  lemma AlwaysWrites(l: Ledger, key: Key, prediction: Option<string>)
    requires prediction.Some?
    ensures var attempt := RecordExcluded(l, key, prediction);
            attempt.Done? ==> attempt.ledger != l
  {
    if RecordExcluded(l, key, prediction).Done? {
      assert RecordExcluded(l, key, prediction).ledger.cases[key] == Excluded(prediction);
    }
  }

  /** What is left of a pass that was to be finished, once an entry is handled. */
  ghost predicate Handled(v: View, before: Pass, flow: Flow, links: seq<Link>, ledger: Ledger, i: nat,
                          clock: nat -> int, c: Contract)
    requires before.index <= |v.entries| && i < |v.entries|
  {
    match flow
    case Continue => FinishPass(v, before, clock, c) == FinishPass(v, Pass(links, ledger, i + 1, Examine), clock, c)
    case Break => FinishPass(v, before, clock, c) == Pass(links, ledger, i, Finished(true))
    case Die => FinishPass(v, before, clock, c) == Pass(links, ledger, i, Died)
  }

  class Linker {
    const coordinator: LongRunCoordinator
    var links: seq<Link>

    constructor (coordinator: LongRunCoordinator, links: seq<Link>)
      ensures this.coordinator == coordinator && this.links == links
    {
      this.coordinator := coordinator;
      this.links := links;
    }

    method ExcludeLate(v: View, i: nat, ghost clock: nat -> int) returns (flow: Flow)
      requires i < |v.entries| && Late(v.durability, v.entries[i])
      modifies coordinator
      ensures Handled(v, old(Pass(links, coordinator.Value(), i, Examine)), flow, links, coordinator.Value(), i,
                      clock, coordinator.contract)
    {
      hide FinishPass, RecordExcluded, Feasible;
      var e := v.entries[i];
      ghost var before := Pass(links, coordinator.Value(), i, Examine);
      FinishLate(v, before, clock, coordinator.contract);
      if e.key !in coordinator.cases {
        AlwaysWrites(coordinator.Value(), e.key, Some(e.id));
        var raised := coordinator.Exclude(e.key, Some(e.id));
        if raised { return Die; }
        if coordinator.fatal { return Break; }
      }
      ghost var verdict := LateVerdict(Pass(links, coordinator.Value(), i, Examine), e);
      if e.key !in coordinator.cases || coordinator.cases[e.key] != Excluded(Some(e.id)) || Linked(links, e.id) {
        coordinator.Latch();
        Stopped(v, verdict, clock, coordinator.contract);
        return Break;
      }
      flow := Continue;
    }

    /** A link without its clean case is what a crash leaves behind; finish it. */
    method CompleteLinked(v: View, i: nat, existing: Link, ghost clock: nat -> int) returns (flow: Flow)
      requires i < |v.entries| && OnTime(v.durability, v.entries[i])
      requires FindLink(links, v.entries[i].id) == Some(existing)
      requires v.entries[i].key in coordinator.cases ==> !coordinator.cases[v.entries[i].key].Excluded?
      modifies coordinator
      ensures Handled(v, old(Pass(links, coordinator.Value(), i, Examine)), flow, links, coordinator.Value(), i,
                      clock, coordinator.contract)
    {
      hide FinishPass, RecordPending, RecordClean;
      var e := v.entries[i];
      ghost var before := Pass(links, coordinator.Value(), i, Examine);
      Unroll(v, before, clock, coordinator.contract);
      ghost var p1 := Micro(v, before, clock(i), coordinator.contract);
      if e.key !in coordinator.cases {
        FinishOpening(v, p1, Some(existing), clock, coordinator.contract);
        var raised := coordinator.Pend(e.key, e.id);
        if raised { coordinator.Latch(); return Break; }
        FinishCertify(v, Pass(links, coordinator.Value(), i, Certify(existing)), clock, coordinator.contract);
      }
      flow := CertifyEntry(v, i, existing, clock);
    }

    method LinkOutcome(v: View, i: nat, clock: nat -> int) returns (flow: Flow)
      requires i < |v.entries| && OnTime(v.durability, v.entries[i])
      requires !Linked(links, v.entries[i].id)
      requires v.entries[i].key in coordinator.cases ==> !coordinator.cases[v.entries[i].key].Excluded?
      modifies coordinator, this`links
      ensures Handled(v, old(Pass(links, coordinator.Value(), i, Examine)), flow, links, coordinator.Value(), i,
                      clock, coordinator.contract)
    {
      hide FinishPass, RecordPending, Complete, Realized, AllAdmitted;
      var e := v.entries[i];
      ghost var before := Pass(links, coordinator.Value(), i, Examine);
      Unroll(v, before, clock, coordinator.contract);
      ghost var p1 := Micro(v, before, clock(i), coordinator.contract);
      if Terminal(p1.phase) { Stopped(v, p1, clock, coordinator.contract); }
      if !Complete(v.bars, e) { return Continue; }
      var bars := Realized(v.bars, e);
      if !AllAdmitted(bars) { coordinator.Latch(); return Break; }
      if e.key !in coordinator.cases {
        FinishOpening(v, p1, None, clock, coordinator.contract);
        var raised := coordinator.Pend(e.key, e.id);
        if raised { coordinator.Latch(); return Break; }
      } else if coordinator.cases[e.key] != Pending(e.id) {
        coordinator.Latch();
        return Break;
      }
      flow := AppendAndCertify(v, i, clock);
    }

    method AppendAndCertify(v: View, i: nat, clock: nat -> int) returns (flow: Flow)
      requires i < |v.entries| && Complete(v.bars, v.entries[i]) && !Linked(links, v.entries[i].id)
      modifies coordinator, this`links
      ensures Handled(v, old(Pass(links, coordinator.Value(), i, Append)), flow, links, coordinator.Value(), i,
                      clock, coordinator.contract)
    {
      hide FinishPass, RecordExcluded, Feasible, Complete, Realized, LinkFor;
      var e := v.entries[i];
      FinishAppend(v, Pass(links, coordinator.Value(), i, Append), clock, coordinator.contract);
      var linkedAt := clock(i);
      if linkedAt > coordinator.contract.deadline {
        AlwaysWrites(coordinator.Value(), e.key, Some(e.id));
        var raised := coordinator.Exclude(e.key, Some(e.id));
        if raised { coordinator.Latch(); return Break; }
        return Continue;
      }
      var link := LinkFor(e, Realized(v.bars, e), linkedAt);
      if OutcomeUsed(links, link.outcome) { coordinator.Latch(); return Break; }
      links := links + [link];
      flow := CertifyEntry(v, i, link, clock);
    }

    method CertifyEntry(v: View, i: nat, link: Link, ghost clock: nat -> int) returns (flow: Flow)
      requires i < |v.entries|
      modifies coordinator
      ensures Handled(v, CertifyStep(old(Pass(links, coordinator.Value(), i, Examine)), v.entries[i], link),
                      flow, links, coordinator.Value(), i, clock, coordinator.contract)
    {
      hide FinishPass, RecordClean;
      var e := v.entries[i];
      ghost var after := CertifyStep(Pass(links, coordinator.Value(), i, Examine), e, link);
      var raised := coordinator.Certify(e.key, e.id, link.outcome);
      if raised {
        coordinator.Latch();
        Stopped(v, after, clock, coordinator.contract);
        return Break;
      }
      flow := Continue;
    }

    /** The loop over entries: leaves exactly what finishing the pass from its
        first entry leaves. */
    method RunPass(v: View, clock: nat -> int) returns (end: Phase)
      modifies coordinator, this`links
      ensures var p := FinishPass(v, old(Pass(links, coordinator.Value(), 0, Examine)), clock, coordinator.contract);
              links == p.links && coordinator.Value() == p.ledger && end == p.phase
    {
      hide Micro;
      var i := 0;
      ghost var start := Pass(links, coordinator.Value(), 0, Examine);
      while i < |v.entries|
        invariant 0 <= i <= |v.entries|
        invariant FinishPass(v, Pass(links, coordinator.Value(), i, Examine), clock, coordinator.contract)
               == FinishPass(v, start, clock, coordinator.contract)
      {
        var e := v.entries[i];
        var flow := Continue;
        if e.id !in v.durability {
          SkipEntry(v, Pass(links, coordinator.Value(), i, Examine), clock, coordinator.contract);
        } else if Late(v.durability, e) {
          flow := ExcludeLate(v, i, clock);
        } else if e.key in coordinator.cases && coordinator.cases[e.key].Excluded? {
          SkipEntry(v, Pass(links, coordinator.Value(), i, Examine), clock, coordinator.contract);
          if coordinator.cases[e.key].predicted != Some(e.id) {
            coordinator.Latch();
            flow := Break;
          }
        } else {
          var existing := FindLink(links, e.id);
          if existing.Some? {
            flow := CompleteLinked(v, i, existing.value, clock);
          } else {
            flow := LinkOutcome(v, i, clock);
          }
        }
        match flow {
          case Break => return Finished(true);
          case Die => return Died;
          case Continue => i := i + 1;
        }
      }
      LastEntry(v, Pass(links, coordinator.Value(), i, Examine), clock, coordinator.contract);
      end := Finished(false);
    }
  }

  lemma SkipEntry(v: View, p: Pass, clock: nat -> int, c: Contract)
    requires p.index < |v.entries| && p.phase.Examine?
    requires var e := v.entries[p.index];
             e.id !in v.durability
             || (OnTime(v.durability, e) && e.key in p.ledger.cases && p.ledger.cases[e.key].Excluded?)
    ensures var e := v.entries[p.index];
            FinishPass(v, p, clock, c)
            == if e.id in v.durability && p.ledger.cases[e.key].predicted != Some(e.id)
               then p.(ledger := Fail(p.ledger), phase := Finished(true))
               else FinishPass(v, NextEntry(p), clock, c)
  {
  }

  lemma LastEntry(v: View, p: Pass, clock: nat -> int, c: Contract)
    requires p.index == |v.entries| && p.phase.Examine?
    ensures FinishPass(v, p, clock, c) == p.(phase := Finished(false))
  {
  }
}
