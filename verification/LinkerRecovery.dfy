/** What a crash leaves, a pass completes: recovery of the outcome linker. */
module LinkerRecovery {

  import opened Options
  import opened Coordinator
  import opened OutcomeLinker
  import opened LinkerSystem
  import opened LinkerSafety
  import opened LinkerTheorems

  // ------------------------------------------------------ what a pass settles

  predicate CleanBy(d: Disk, e: Entry, link: Link) {
    link in d.links && link.prediction == e.id && CaseOf(d.ledger, e.key) == Some(Clean(e.id, link.outcome))
  }

  function ViewOf(d: Disk): View {
    View(d.entries, d.durability, d.bars)
  }

  /** What a pass has read of an entry has been done: a late entry is excluded, an on-time
      entry whose bars are there is linked and clean. */
  ghost predicate Settled(v: View, d: Disk, e: Entry) {
    && (Late(v.durability, e) ==> CaseOf(d.ledger, e.key) == Some(Excluded(Some(e.id))))
    && (OnTime(v.durability, e) && Complete(v.bars, e) ==> exists link :: CleanBy(d, e, link))
  }

  ghost predicate SettledTo(v: View, d: Disk, i: nat)
    requires i <= |v.entries|
  {
    forall j :: 0 <= j < i ==> Settled(v, d, v.entries[j])
  }

  /** A step touches the case of the entry at hand only, and keeps every link. */
  lemma MicroIsLocal(v: View, p: Pass, now: int, c: Contract)
    requires !Terminal(p.phase) && p.index < |v.entries|
    ensures var q := Micro(v, p, now, c);
            && p.links <= q.links
            && (forall k :: k != v.entries[p.index].key ==> CaseOf(q.ledger, k) == CaseOf(p.ledger, k))
  {
    hide Complete, Linked, OutcomeUsed, BoundElsewhere, OutcomeElsewhere, AllAdmitted, LinkFor, Feasible, FindLink;
  }

  lemma SettledStays(v: View, d: Disk, d': Disk, e: Entry)
    requires Settled(v, d, e) && CaseOf(d'.ledger, e.key) == CaseOf(d.ledger, e.key)
    requires forall link :: link in d.links ==> link in d'.links
    ensures Settled(v, d', e)
  {
    if OnTime(v.durability, e) && Complete(v.bars, e) {
      var link :| CleanBy(d, e, link);
      assert CleanBy(d', e, link);
    }
  }

  /** When a pass moves on before the deadline, the entry it leaves is settled. */
  lemma LeavesSettled(d: Disk, v: View, i: nat, phase: Phase, own: Cases, now: int, c: Contract)
    requires PassSound(d, v, i, phase, own, now, c) && !Terminal(phase) && i < |v.entries| && now <= c.deadline
    requires Micro(v, Pass(d.links, d.ledger, i, phase), now, c).index == i + 1
    ensures Settled(v, Left(d, Micro(v, Pass(d.links, d.ledger, i, phase), now, c)), v.entries[i])
  {
    var e := v.entries[i];
    var p := Micro(v, Pass(d.links, d.ledger, i, phase), now, c);
    AtEntry(d, v, i, own, now, c);
    if phase.Examine? || phase.Certify? {
      if OnTime(v.durability, e) && Complete(v.bars, e) {
        var link := if phase.Certify? then phase.link else FindLink(d.links, e.id).value;
        assert CleanBy(Left(d, p), e, link);
      }
    }
    hide DiskInv, EntryOk, CaseOk, Submap, Complete, AllAdmitted, BoundElsewhere, OutcomeElsewhere, LinkFor, Realized;
  }

  lemma MicroSettles(d: Disk, v: View, i: nat, phase: Phase, own: Cases, now: int, c: Contract)
    requires PassSound(d, v, i, phase, own, now, c) && !Terminal(phase) && i <= |v.entries| && now <= c.deadline
    requires SettledTo(v, d, i)
    ensures var p := Micro(v, Pass(d.links, d.ledger, i, phase), now, c);
            p.index <= |v.entries| && SettledTo(v, Left(d, p), p.index)
  {
    var p := Micro(v, Pass(d.links, d.ledger, i, phase), now, c);
    MicroDescends(v, Pass(d.links, d.ledger, i, phase), now, c);
    if i < |v.entries| {
      MicroIsLocal(v, Pass(d.links, d.ledger, i, phase), now, c);
      if p.index == i + 1 { LeavesSettled(d, v, i, phase, own, now, c); }
      forall j | 0 <= j < p.index ensures Settled(v, Left(d, p), v.entries[j]) {
        if j < i {
          assert d.entries[j].key != d.entries[i].key;
          SettledStays(v, d, Left(d, p), v.entries[j]);
        }
      }
    }
    hide Micro, DiskInv, PassInv, Settled;
  }

  /** Readings that do not go back and stay within the deadline. */
  ghost predicate GoodClock(clock: nat -> int, c: Contract) {
    && (forall i: nat :: clock(i) <= c.deadline)
    && (forall i: nat, j: nat :: i <= j ==> clock(i) <= clock(j))
  }

  /** Where one uninterrupted step of a pass leads, and that the rest of the pass is
      the rest of the pass from there. */
  lemma PassStep(d: Disk, i: nat, phase: Phase, own: Cases, now: int, clock: nat -> int, c: Contract)
    requires PassSound(d, ViewOf(d), i, phase, own, now, c) && !Terminal(phase)
    requires i <= |d.entries| && SettledTo(ViewOf(d), d, i)
    requires GoodClock(clock, c) && now <= clock(i)
    ensures var p := Pass(d.links, d.ledger, i, phase);
            var q := Micro(ViewOf(d), p, clock(i), c);
            var d' := Left(d, q);
            && ViewOf(d') == ViewOf(d) && q.index <= |d.entries|
            && PassSound(d', ViewOf(d'), q.index, q.phase, own, clock(i), c) && SettledTo(ViewOf(d'), d', q.index)
            && clock(i) <= clock(q.index) && (q.phase == Finished(false) ==> q.index == |d.entries|)
            && (q.index == i + 1 || (q.index == i && Rank(q.phase) < Rank(phase)))
            && FinishPass(ViewOf(d), p, clock, c) == FinishPass(ViewOf(d), q, clock, c)
  {
    var p := Pass(d.links, d.ledger, i, phase);
    Unroll(ViewOf(d), p, clock, c);
    MicroDescends(ViewOf(d), p, clock(i), c);
    FinishedAtEnd(ViewOf(d), p, clock(i), c);
    LedgerAndTime(d, d, own, now, clock(i), c);
    SameTime(d, i, phase, own, now, clock(i), c);
    MicroSound(d, ViewOf(d), i, phase, own, clock(i), clock(i), c);
    MicroSettles(d, ViewOf(d), i, phase, own, clock(i), c);
    hide DiskInv, PassInv, SettledTo, Micro, FinishPass;
  }

  /** An uninterrupted pass that ends without failure settles every entry. */
  lemma {:induction false} FinishSettles(d: Disk, i: nat, phase: Phase, own: Cases, now: int,
                                         clock: nat -> int, c: Contract)
    requires PassSound(d, ViewOf(d), i, phase, own, now, c) && i <= |d.entries| && SettledTo(ViewOf(d), d, i)
    requires GoodClock(clock, c) && now <= clock(i)
    requires phase == Finished(false) ==> i == |d.entries|
    requires FinishPass(ViewOf(d), Pass(d.links, d.ledger, i, phase), clock, c).phase == Finished(false)
    ensures var q := FinishPass(ViewOf(d), Pass(d.links, d.ledger, i, phase), clock, c);
            && q.index == |d.entries|
            && SettledTo(ViewOf(d), Left(d, q), |d.entries|)
            && DiskInv(Left(d, q), own, clock(|d.entries|), c)
    decreases |d.entries| - i, Rank(phase)
  {
    var p := Pass(d.links, d.ledger, i, phase);
    if Terminal(phase) {
      Stopped(ViewOf(d), p, clock, c);
      assert Left(d, p) == d;
      LedgerAndTime(d, d, own, now, clock(i), c);
      hide DiskInv, PassInv, SettledTo;
    } else {
      PassStep(d, i, phase, own, now, clock, c);
      hide DiskInv, PassInv, SettledTo, Micro, FinishPass;
      var q := Micro(ViewOf(d), p, clock(i), c);
      var d' := Left(d, q);
      assert Pass(d'.links, d'.ledger, q.index, q.phase) == q;
      FinishSettles(d', q.index, q.phase, own, clock(i), clock, c);
      var end := FinishPass(ViewOf(d), q, clock, c);
      assert Left(d', end) == Left(d, end);
    }
  }

  lemma FinishedAtEnd(v: View, p: Pass, now: int, c: Contract)
    requires !Terminal(p.phase) && p.index <= |v.entries|
    ensures Micro(v, p, now, c).phase == Finished(false) ==> Micro(v, p, now, c).index == |v.entries|
  {
    hide Complete, Linked, OutcomeUsed, BoundElsewhere, OutcomeElsewhere, AllAdmitted, LinkFor, Feasible, FindLink;
  }

  lemma LaterPhase(d: Disk, v: View, i: nat, phase: Phase, now: int, later: int, c: Contract)
    requires PassInv(d, v, i, phase, now, c) && now <= later
    ensures PassInv(d, v, i, phase, later, c)
  {
    hide Submap, Complete, Linked, AllAdmitted;
  }

  lemma SameTime(d: Disk, i: nat, phase: Phase, own: Cases, now: int, later: int, c: Contract)
    requires PassSound(d, ViewOf(d), i, phase, own, now, c) && now <= later
    ensures PassSound(d, ViewOf(d), i, phase, own, later, c)
  {
    LedgerAndTime(d, d, own, now, later, c);
    hide DiskInv, Submap;
  }

  // ------------------------------------------------------- the settled disk

  function Unstamped(links: seq<Link>): set<Link> {
    set l | l in links :: l.(linkedAt := 0)
  }

  /** The links a settled disk holds, from the inputs alone. */
  function DueLinks(d: Disk): set<Link> {
    set e | e in d.entries && OnTime(d.durability, e) && Complete(d.bars, e) :: LinkFor(e, Realized(d.bars, e), 0)
  }

  lemma LinksAreDue(d: Disk, own: Cases, now: int, c: Contract)
    requires DiskInv(d, own, now, c) && SettledTo(ViewOf(d), d, |d.entries|)
    ensures Unstamped(d.links) == DueLinks(d)
  {
    forall u | u in Unstamped(d.links) ensures u in DueLinks(d) {
      var l :| l in d.links && l.(linkedAt := 0) == u;
      LinkIsDue(d, own, now, c, l);
    }
    forall u | u in DueLinks(d) ensures u in Unstamped(d.links) {
      var e :| e in d.entries && OnTime(d.durability, e) && Complete(d.bars, e)
        && LinkFor(e, Realized(d.bars, e), 0) == u;
      DueIsLinked(d, own, now, c, e);
    }
    hide DiskInv, SettledTo, Complete, Realized, LinkFor;
  }

  lemma LinkIsDue(d: Disk, own: Cases, now: int, c: Contract, l: Link)
    requires DiskInv(d, own, now, c) && l in d.links
    ensures l.(linkedAt := 0) in DueLinks(d)
  {
    assert LinkOk(d, l, c);
    var e :| e in d.entries && LinkOf(d, l, e, c);
    assert l.(linkedAt := 0) == LinkFor(e, Realized(d.bars, e), 0);
  }

  lemma DueIsLinked(d: Disk, own: Cases, now: int, c: Contract, e: Entry)
    requires DiskInv(d, own, now, c) && SettledTo(ViewOf(d), d, |d.entries|)
    requires e in d.entries && OnTime(d.durability, e) && Complete(d.bars, e)
    ensures LinkFor(e, Realized(d.bars, e), 0) in Unstamped(d.links)
  {
    var j :| 0 <= j < |d.entries| && d.entries[j] == e;
    assert Settled(ViewOf(d), d, d.entries[j]);
    var l :| CleanBy(d, e, l);
    LinkEntry(d, own, now, c, l, e);
    assert l.(linkedAt := 0) == LinkFor(e, Realized(d.bars, e), 0);
  }

  /** The case a settled disk holds for a key the inputs decide. */
  lemma CaseIsDue(d: Disk, own: Cases, now: int, c: Contract, e: Entry)
    requires DiskInv(d, own, now, c) && SettledTo(ViewOf(d), d, |d.entries|) && e in d.entries && DecidedEntry(d, e)
    ensures CaseOf(d.ledger, e.key)
         == Some(if Late(d.durability, e) then Excluded(Some(e.id))
                 else Clean(e.id, OutcomeOf(e.id, Realized(d.bars, e))))
  {
    var j :| 0 <= j < |d.entries| && d.entries[j] == e;
    assert Settled(ViewOf(d), d, d.entries[j]);
    if !Late(d.durability, e) {
      var l :| CleanBy(d, e, l);
      LinkEntry(d, own, now, c, l, e);
    }
  }

  ghost predicate SameInputs(a: Disk, b: Disk, ownA: Cases, ownB: Cases) {
    && a.entries == b.entries && a.durability == b.durability && a.bars == b.bars
    && (forall k :: !Decided(a, k) ==> (k in ownA <==> k in ownB) && (k in ownA ==> ownA[k] == ownB[k]))
  }

  /** Settled disks with the same inputs hold the same cases, and the same links
      but for the time each was written. */
  lemma SettledIsUnique(a: Disk, b: Disk, ownA: Cases, ownB: Cases, nowA: int, nowB: int, c: Contract)
    requires DiskInv(a, ownA, nowA, c) && DiskInv(b, ownB, nowB, c) && SameInputs(a, b, ownA, ownB)
    requires SettledTo(ViewOf(a), a, |a.entries|) && SettledTo(ViewOf(b), b, |b.entries|)
    ensures a.ledger.cases == b.ledger.cases && Unstamped(a.links) == Unstamped(b.links)
  {
    LinksAreDue(a, ownA, nowA, c);
    LinksAreDue(b, ownB, nowB, c);
    assert DueLinks(a) == DueLinks(b);
    forall k ensures CaseOf(a.ledger, k) == CaseOf(b.ledger, k) {
      DecidedByInputs(a, b, k);
      if Decided(a, k) {
        var e :| e in a.entries && e.key == k && DecidedEntry(a, e);
        CaseIsDue(a, ownA, nowA, c, e);
        CaseIsDue(b, ownB, nowB, c, e);
      }
    }
    SameCases(a.ledger, b.ledger);
  }

  lemma SameCases(a: Ledger, b: Ledger)
    requires forall k :: CaseOf(a, k) == CaseOf(b, k)
    ensures a.cases == b.cases
  {
    forall k ensures (k in a.cases <==> k in b.cases) && (k in a.cases ==> a.cases[k] == b.cases[k]) {
      assert CaseOf(a, k) == CaseOf(b, k);
    }
  }

  // ----------------------------------------------------------- crash recovery

  /** The linker has just begun a pass on the disk as it is. */
  ghost predicate PassBegun(s: System) {
    s.process == Passing(ViewOf(s.disk), 0, Examine)
  }

  function PassFrom(s: System, clock: nat -> int, c: Contract): Pass {
    FinishPass(ViewOf(s.disk), Pass(s.disk.links, s.disk.ledger, 0, Examine), clock, c)
  }

  lemma PassEnds(s: System, clock: nat -> int, c: Contract)
    requires Inv(s, c) && PassBegun(s) && GoodClock(clock, c) && s.now <= clock(0)
    requires PassFrom(s, clock, c).phase == Finished(false)
    ensures var d := Left(s.disk, PassFrom(s, clock, c));
            DiskInv(d, s.own, clock(|s.disk.entries|), c) && SettledTo(ViewOf(d), d, |s.disk.entries|)
  {
    FinishSettles(s.disk, 0, Examine, s.own, s.now, clock, c);
  }

  // --------------------------------------------- when a pass comes to its end

  /** Every late entry's case has been recorded. */
  predicate LateRecorded(d: Disk) {
    forall e :: e in d.entries && Late(d.durability, e) ==> e.key in d.ledger.cases
  }

  /** The opportunities that the inputs exclude: those of late entries, and those the
      candidate excluded of itself where no entry decides. */
  function DueExclusions(d: Disk, own: Cases, symbol: string): set<Key> {
    (set e | e in d.entries && Late(d.durability, e) && e.key.symbol == symbol :: e.key)
    + (set k | k in own && own[k].Excluded? && k.symbol == symbol && !Decided(d, k))
  }

  /** The inputs leave the minimum of clean cases within reach. */
  predicate CoveredByInputs(d: Disk, own: Cases, c: Contract) {
    forall s :: s in c.symbols ==> |DueExclusions(d, own, s)| <= c.target - c.minimum
  }

  /** The bars of every entry that is to be linked are admitted. */
  predicate AdmittedInputs(d: Disk) {
    forall e :: e in d.entries && OnTime(d.durability, e) && Complete(d.bars, e) ==> AllAdmitted(Realized(d.bars, e))
  }

  lemma InputsStay(d: Disk, d': Disk, own: Cases, c: Contract)
    requires d' == d.(links := d'.links, ledger := d'.ledger)
    ensures CoveredByInputs(d', own, c) <==> CoveredByInputs(d, own, c)
    ensures AdmittedInputs(d') <==> AdmittedInputs(d)
  {
    forall k ensures Decided(d, k) <==> Decided(d', k) { DecidedByInputs(d, d', k); }
    hide Decided, Complete, Realized, AllAdmitted;
    forall s ensures DueExclusions(d', own, s) == DueExclusions(d, own, s) {
    }
  }

  lemma SettledIsRecorded(d: Disk, own: Cases, now: int, c: Contract)
    requires DiskInv(d, own, now, c) && SettledTo(ViewOf(d), d, |d.entries|)
    ensures LateRecorded(d) && AdmittedInputs(d)
  {
    forall e | e in d.entries
      ensures Late(d.durability, e) ==> e.key in d.ledger.cases
      ensures OnTime(d.durability, e) && Complete(d.bars, e) ==> AllAdmitted(Realized(d.bars, e))
    {
      var j :| 0 <= j < |d.entries| && d.entries[j] == e;
      assert Settled(ViewOf(d), d, d.entries[j]);
      if OnTime(d.durability, e) && Complete(d.bars, e) {
        var link :| CleanBy(d, e, link);
        LinkEntry(d, own, now, c, link, e);
      }
    }
    hide DiskInv, SettledTo, Complete, Realized, AllAdmitted;
  }

  /** Before the deadline only what the inputs exclude is excluded. */
  lemma ExcludedIsDue(d: Disk, own: Cases, now: int, c: Contract, k: Key)
    requires DiskInv(d, own, now, c) && now <= c.deadline && k in d.ledger.cases && d.ledger.cases[k].Excluded?
    ensures k in DueExclusions(d, own, k.symbol)
  {
    if Decided(d, k) {
      var e :| e in d.entries && e.key == k && DecidedEntry(d, e);
      assert EntryOk(d, e, now > c.deadline);
      hide DiskInv, Complete;
    } else {
      assert CaseOf(d.ledger, k) == (if k in own then Some(own[k]) else None);
      hide DiskInv, Decided;
    }
  }

  /** And all of it, once the late entries are recorded. */
  lemma DueIsExcluded(d: Disk, own: Cases, now: int, c: Contract, symbol: string, k: Key)
    requires DiskInv(d, own, now, c) && LateRecorded(d) && k in DueExclusions(d, own, symbol)
    ensures k in ExcludedOf(d.ledger.cases, symbol)
  {
    if !Decided(d, k) {
      assert CaseOf(d.ledger, k) == (if k in own then Some(own[k]) else None);
    }
    if e :| e in d.entries && Late(d.durability, e) && e.key == k {
      assert EntryOk(d, e, now > c.deadline);
    }
    hide DiskInv, Decided;
  }

  lemma InputsCover(d: Disk, own: Cases, now: int, c: Contract)
    requires DiskInv(d, own, now, c) && now <= c.deadline && CoveredByInputs(d, own, c)
    ensures Feasible(d.ledger.cases, c)
  {
    FeasibleCountsExclusions(d.ledger.cases, c);
    hide Feasible, DiskInv, DueExclusions;
    forall s | s in c.symbols ensures |ExcludedOf(d.ledger.cases, s)| <= c.target - c.minimum {
      forall k | k in ExcludedOf(d.ledger.cases, s) ensures k in DueExclusions(d, own, s) {
        ExcludedIsDue(d, own, now, c, k);
      }
      SubsetSize(ExcludedOf(d.ledger.cases, s), DueExclusions(d, own, s));
    }
  }

  lemma RecordedCovers(d: Disk, own: Cases, now: int, c: Contract)
    requires DiskInv(d, own, now, c) && LateRecorded(d) && Feasible(d.ledger.cases, c)
    ensures CoveredByInputs(d, own, c)
  {
    FeasibleCountsExclusions(d.ledger.cases, c);
    hide Feasible, DiskInv, DueExclusions, LateRecorded;
    forall s | s in c.symbols ensures |DueExclusions(d, own, s)| <= c.target - c.minimum {
      forall k | k in DueExclusions(d, own, s) ensures k in ExcludedOf(d.ledger.cases, s) {
        DueIsExcluded(d, own, now, c, s, k);
      }
      SubsetSize(DueExclusions(d, own, s), ExcludedOf(d.ledger.cases, s));
    }
  }

  lemma SubsetSize(small: set<Key>, large: set<Key>)
    requires small <= large
    ensures |small| <= |large|
  {
    assert large == small + (large - small);
  }

  /** How a step of a pass adds to the cases, and how it comes to check the coverage. */
  lemma MicroRecords(v: View, p: Pass, now: int, c: Contract)
    requires !Terminal(p.phase) && p.index < |v.entries| && now <= c.deadline
    ensures var e, q := v.entries[p.index], Micro(v, p, now, c);
            && (forall k :: k in p.ledger.cases ==> k in q.ledger.cases)
            && (q.phase.Coverage? ==> p.phase.Excluding?)
            && (e.key in q.ledger.cases && e.key !in p.ledger.cases ==> q.phase.Coverage? || p.phase.Locking?)
  {
    hide Complete, Linked, OutcomeUsed, BoundElsewhere, OutcomeElsewhere, AllAdmitted, LinkFor, Feasible, FindLink;
  }

  /** The inputs suffice for the pass to end, or leave it no late entry to record. */
  ghost predicate Covered(d: Disk, phase: Phase, own: Cases, c: Contract) {
    AdmittedInputs(d) && (CoveredByInputs(d, own, c) || (LateRecorded(d) && !phase.Coverage?))
  }

  lemma StaysCovered(d: Disk, i: nat, phase: Phase, own: Cases, now: int, c: Contract)
    requires !Terminal(phase) && i < |d.entries| && now <= c.deadline && Covered(d, phase, own, c)
    requires PhaseInv(d, ViewOf(d), d.entries[i], phase, now, c)
    requires Undisturbed(ViewOf(d), Pass(d.links, d.ledger, i, phase))
    ensures var q := Micro(ViewOf(d), Pass(d.links, d.ledger, i, phase), now, c);
            Covered(Left(d, q), q.phase, own, c)
  {
    hide Micro, CoveredByInputs, AdmittedInputs, Complete, Linked, AllAdmitted;
    MicroRecords(ViewOf(d), Pass(d.links, d.ledger, i, phase), now, c);
    InputsStay(d, Left(d, Micro(ViewOf(d), Pass(d.links, d.ledger, i, phase), now, c)), own, c);
  }

  /** A step of such a pass is not refused. */
  lemma CoveredStep(d: Disk, i: nat, phase: Phase, own: Cases, now: int, reading: int, c: Contract)
    requires PassSound(d, ViewOf(d), i, phase, own, now, c) && !Terminal(phase) && i <= |d.entries|
    requires now <= reading <= c.deadline && !d.ledger.fatal && Covered(d, phase, own, c)
    requires Undisturbed(ViewOf(d), Pass(d.links, d.ledger, i, phase))
    ensures var q := Micro(ViewOf(d), Pass(d.links, d.ledger, i, phase), reading, c);
            && !q.ledger.fatal && (Terminal(q.phase) ==> q.phase == Finished(false))
            && Covered(Left(d, q), q.phase, own, c)
  {
    StepStops(d, ViewOf(d), i, phase, own, now, reading, c);
    LaterPhase(d, ViewOf(d), i, phase, now, reading, c);
    if CoveredByInputs(d, own, c) { InputsCover(d, own, now, c); }
    if i < |d.entries| {
      StaysCovered(d, i, phase, own, reading, c);
    } else {
      InputsStay(d, Left(d, Micro(ViewOf(d), Pass(d.links, d.ledger, i, phase), reading, c)), own, c);
    }
    hide DiskInv, SettledTo, Feasible, CoveredByInputs, Complete, AllAdmitted, Realized, LateRecorded, PhaseInv,
      ExamineStep, ExcludeStep, OpenStep, LockStep, AppendStep, CertifyStep, LateVerdict, CheckCoverage;
  }

  /** A pass whose inputs suffice, or that has no late entry to record, is not stopped. */
  lemma {:induction false} CoveredPassEnds(d: Disk, i: nat, phase: Phase, own: Cases, now: int, clock: nat -> int,
                                           c: Contract)
    requires PassSound(d, ViewOf(d), i, phase, own, now, c) && i <= |d.entries| && SettledTo(ViewOf(d), d, i)
    requires GoodClock(clock, c) && now <= clock(i)
    requires !d.ledger.fatal && (Terminal(phase) ==> phase == Finished(false)) && Covered(d, phase, own, c)
    requires Undisturbed(ViewOf(d), Pass(d.links, d.ledger, i, phase))
    ensures FinishPass(ViewOf(d), Pass(d.links, d.ledger, i, phase), clock, c).phase == Finished(false)
    decreases |d.entries| - i, Rank(phase)
  {
    var p := Pass(d.links, d.ledger, i, phase);
    if Terminal(phase) {
      Stopped(ViewOf(d), p, clock, c);
    } else {
      hide DiskInv, PassInv, SettledTo, Micro, FinishPass, Covered, Undisturbed;
      PassStep(d, i, phase, own, now, clock, c);
      MicroReadsAbsent(ViewOf(d), p, clock(i), c);
      CoveredStep(d, i, phase, own, now, clock(i), c);
      var q := Micro(ViewOf(d), p, clock(i), c);
      var d' := Left(d, q);
      assert Pass(d'.links, d'.ledger, q.index, q.phase) == q;
      CoveredPassEnds(d', q.index, q.phase, own, clock(i), clock, c);
    }
  }

  /** A coverage check that fails ends the pass in failure. */
  lemma LostCoverageFails(d: Disk, i: nat, own: Cases, now: int, clock: nat -> int, c: Contract)
    requires PassSound(d, ViewOf(d), i, Coverage(true), own, now, c) && i < |d.entries| && !Feasible(d.ledger.cases, c)
    ensures FinishPass(ViewOf(d), Pass(d.links, d.ledger, i, Coverage(true)), clock, c).phase == Finished(true)
  {
    hide FinishPass, Feasible, DiskInv, PassInv;
    var v := ViewOf(d);
    var p := Pass(d.links, d.ledger, i, Coverage(true));
    Unroll(v, p, clock, c);
    var q := Micro(v, p, clock(i), c);
    assert q.phase == Recheck && q.ledger.fatal && q.index == i;
    Unroll(v, q, clock, c);
    Stopped(v, Micro(v, q, clock(i), c), clock, c);
  }

  lemma CoverageChecked(d: Disk, i: nat, own: Cases, now: int, clock: nat -> int, c: Contract)
    requires PassSound(d, ViewOf(d), i, Coverage(true), own, now, c) && i < |d.entries|
    requires FinishPass(ViewOf(d), Pass(d.links, d.ledger, i, Coverage(true)), clock, c).phase == Finished(false)
    ensures LateRecorded(d) ==> CoveredByInputs(d, own, c)
  {
    hide FinishPass, PassInv, LateRecorded, CoveredByInputs, DiskInv, Feasible;
    if !Feasible(d.ledger.cases, c) {
      LostCoverageFails(d, i, own, now, clock, c);
    } else if LateRecorded(d) {
      RecordedCovers(d, own, now, c);
    }
  }

  /** While a late entry is unrecorded it stays so, or the step records it and goes on
      to check the coverage. */
  lemma NewLateIsNext(d: Disk, i: nat, phase: Phase, own: Cases, now: int, reading: int, c: Contract)
    requires PassSound(d, ViewOf(d), i, phase, own, now, c) && !Terminal(phase) && i < |d.entries|
    requires reading <= c.deadline && !LateRecorded(d)
    ensures var q := Micro(ViewOf(d), Pass(d.links, d.ledger, i, phase), reading, c);
            q.phase.Coverage? || !LateRecorded(Left(d, q))
  {
    var p := Pass(d.links, d.ledger, i, phase);
    var q := Micro(ViewOf(d), p, reading, c);
    var e :| e in d.entries && Late(d.durability, e) && e.key !in d.ledger.cases;
    MicroIsLocal(ViewOf(d), p, reading, c);
    MicroRecords(ViewOf(d), p, reading, c);
    if e.key in q.ledger.cases {
      assert CaseOf(q.ledger, e.key) != CaseOf(d.ledger, e.key);
      assert e.key == d.entries[i].key;
      SameEntry(d.entries, d.entries[i], e);
      hide DiskInv, Micro, Complete, AllAdmitted, Linked;
    }
  }

  /** A pass that nothing interrupts, begun in a generation that is not latched, ends
      without failure or latches. */
  lemma {:induction false} EndsOrLatches(d: Disk, i: nat, phase: Phase, own: Cases, now: int, clock: nat -> int,
                                         c: Contract)
    requires PassSound(d, ViewOf(d), i, phase, own, now, c) && i <= |d.entries| && SettledTo(ViewOf(d), d, i)
    requires GoodClock(clock, c) && now <= clock(i) && !Terminal(phase) && (d.ledger.fatal ==> phase.Recheck?)
    requires Undisturbed(ViewOf(d), Pass(d.links, d.ledger, i, phase))
    ensures var q := FinishPass(ViewOf(d), Pass(d.links, d.ledger, i, phase), clock, c);
            q.phase == Finished(false) || (q.phase == Finished(true) && q.ledger.fatal)
    decreases |d.entries| - i, Rank(phase)
  {
    var p := Pass(d.links, d.ledger, i, phase);
    var q := Micro(ViewOf(d), p, clock(i), c);
    PassStep(d, i, phase, own, now, clock, c);
    MicroFatal(d, ViewOf(d), i, phase, now, clock(i), c, false);
    MicroReadsAbsent(ViewOf(d), p, clock(i), c);
    if !d.ledger.fatal { StepStops(d, ViewOf(d), i, phase, own, now, clock(i), c); }
    if Terminal(q.phase) { Stopped(ViewOf(d), q, clock, c); }
    FailsLatched(d, ViewOf(d), i, phase, now, clock(i), c);
    hide DiskInv, PassInv, SettledTo, Micro, FinishPass, Feasible, Complete, AllAdmitted, Realized;
    if !Terminal(q.phase) {
      var d' := Left(d, q);
      assert Pass(d'.links, d'.ledger, q.index, q.phase) == q;
      EndsOrLatches(d', q.index, q.phase, own, clock(i), clock, c);
    }
  }

  lemma FailsLatched(d: Disk, v: View, i: nat, phase: Phase, now: int, reading: int, c: Contract)
    requires PassInv(d, v, i, phase, now, c) && !Terminal(phase)
    ensures var q := Micro(v, Pass(d.links, d.ledger, i, phase), reading, c);
            && (q.phase == Finished(true) ==> q.ledger.fatal)
            && (d.ledger.fatal && phase.Recheck? ==> q.phase == Finished(true))
  {
    hide Complete, Linked, OutcomeUsed, BoundElsewhere, OutcomeElsewhere, AllAdmitted, LinkFor, Feasible, FindLink;
  }

  /** A pass that records a late entry and still succeeds has checked the coverage with
      every late entry recorded. */
  lemma {:induction false} EndedPassIsCovered(d: Disk, i: nat, phase: Phase, own: Cases, now: int, clock: nat -> int,
                                              c: Contract)
    requires PassSound(d, ViewOf(d), i, phase, own, now, c) && i <= |d.entries| && SettledTo(ViewOf(d), d, i)
    requires GoodClock(clock, c) && now <= clock(i)
    requires phase == Finished(false) ==> i == |d.entries|
    requires !LateRecorded(d) || phase.Coverage?
    requires FinishPass(ViewOf(d), Pass(d.links, d.ledger, i, phase), clock, c).phase == Finished(false)
    ensures CoveredByInputs(d, own, c)
    decreases |d.entries| - i, Rank(phase)
  {
    hide DiskInv, PassInv, SettledTo, Micro, FinishPass, LateRecorded, CoveredByInputs;
    var p := Pass(d.links, d.ledger, i, phase);
    if Terminal(phase) {
      Stopped(ViewOf(d), p, clock, c);
      SettledIsRecorded(d, own, now, c);
    } else {
      PassStep(d, i, phase, own, now, clock, c);
      var q := Micro(ViewOf(d), p, clock(i), c);
      var d' := Left(d, q);
      CoverageIsNext(d, i, phase, own, now, clock, c);
      assert Pass(d'.links, d'.ledger, q.index, q.phase) == q;
      InputsStay(d, d', own, c);
      if !CoveredByInputs(d, own, c) { EndedPassIsCovered(d', q.index, q.phase, own, clock(i), clock, c); }
    }
  }

  /** Until the coverage is checked with every late entry recorded, one is still unrecorded
      or the check is next. */
  lemma CoverageIsNext(d: Disk, i: nat, phase: Phase, own: Cases, now: int, clock: nat -> int, c: Contract)
    requires PassSound(d, ViewOf(d), i, phase, own, now, c) && i <= |d.entries| && !Terminal(phase)
    requires GoodClock(clock, c) && now <= clock(i) && (!LateRecorded(d) || phase.Coverage?)
    requires FinishPass(ViewOf(d), Pass(d.links, d.ledger, i, phase), clock, c).phase == Finished(false)
    ensures var q := Micro(ViewOf(d), Pass(d.links, d.ledger, i, phase), clock(i), c);
            CoveredByInputs(d, own, c) || !LateRecorded(Left(d, q)) || q.phase.Coverage?
  {
    hide FinishPass, CoveredByInputs, DiskInv, Submap, Feasible;
    if i < |d.entries| {
      if phase.Coverage? { CoverageChecked(d, i, own, now, clock, c); }
      if !LateRecorded(d) { NewLateIsNext(d, i, phase, own, now, clock(i), c); hide Micro, LateRecorded; }
    }
  }

  /** A pass that nothing interrupts, begun before the deadline in a generation that is
      not latched, ends without failure exactly when every bar it needs is admitted and
      its inputs exclude no more than can be spared, or it has no late entry to record.
      Otherwise it latches. */
  lemma PassEndsExactly(s: System, clock: nat -> int, c: Contract)
    requires Inv(s, c) && PassBegun(s) && GoodClock(clock, c) && s.now <= clock(0) && !s.disk.ledger.fatal
    ensures var q := PassFrom(s, clock, c);
            && (q.phase == Finished(false) <==>
                  AdmittedInputs(s.disk) && (CoveredByInputs(s.disk, s.own, c) || LateRecorded(s.disk)))
            && (q.phase != Finished(false) ==> q.phase == Finished(true) && q.ledger.fatal)
  {
    hide FinishPass, DiskInv, PassInv, LateRecorded, CoveredByInputs, AdmittedInputs;
    var d := s.disk;
    EndsOrLatches(d, 0, Examine, s.own, s.now, clock, c);
    if PassFrom(s, clock, c).phase == Finished(false) {
      EndedInputsAdmitted(s, clock, c);
      if !LateRecorded(d) { EndedPassIsCovered(d, 0, Examine, s.own, s.now, clock, c); }
    } else if AdmittedInputs(d) && (CoveredByInputs(d, s.own, c) || LateRecorded(d)) {
      CoveredPassEnds(d, 0, Examine, s.own, s.now, clock, c);
    }
  }

  lemma EndedInputsAdmitted(s: System, clock: nat -> int, c: Contract)
    requires Inv(s, c) && PassBegun(s) && GoodClock(clock, c) && s.now <= clock(0)
    requires PassFrom(s, clock, c).phase == Finished(false)
    ensures AdmittedInputs(s.disk)
  {
    hide FinishPass, DiskInv, PassInv, SettledTo, LateRecorded, CoveredByInputs, AdmittedInputs;
    PassEnds(s, clock, c);
    var d := Left(s.disk, PassFrom(s, clock, c));
    SettledIsRecorded(d, s.own, clock(|s.disk.entries|), c);
    InputsStay(s.disk, d, s.own, c);
  }

  /** Two runs, with whatever crashes and restarts after whatever writes, that have
      come to the same inputs, one of which one further uninterrupted pass before the
      deadline completes without failure.  The other, which may be free of crashes and
      is not latched, is completed by such a pass too exactly when its inputs exclude no
      more than can be spared or its own late entries are all recorded; then both have
      the same cases and, but for the times, the same links.  Otherwise its pass latches. */
  lemma CrashRecovery(t1: int, steps1: seq<Step>, t2: int, steps2: seq<Step>,
                      clock1: nat -> int, clock2: nat -> int, c: Contract)
    requires var a, b := Exec(Init(t1), steps1, c), Exec(Init(t2), steps2, c);
             && PassBegun(a) && PassBegun(b) && SameInputs(a.disk, b.disk, a.own, b.own)
             && GoodClock(clock1, c) && a.now <= clock1(0) && GoodClock(clock2, c) && b.now <= clock2(0)
             && PassFrom(a, clock1, c).phase == Finished(false) && !b.disk.ledger.fatal
    ensures var b := Exec(Init(t2), steps2, c);
            var p, q := PassFrom(Exec(Init(t1), steps1, c), clock1, c), PassFrom(b, clock2, c);
            && (q.phase == Finished(false) <==> CoveredByInputs(b.disk, b.own, c) || LateRecorded(b.disk))
            && (q.phase == Finished(false) ==>
                  p.ledger.cases == q.ledger.cases && Unstamped(p.links) == Unstamped(q.links))
            && (q.phase != Finished(false) ==> q.phase == Finished(true) && q.ledger.fatal)
  {
    Reachable(t1, steps1, c);
    Reachable(t2, steps2, c);
    hide Exec, DiskInv, PassInv, FinishPass, LateRecorded, CoveredByInputs, AdmittedInputs;
    var a, b := Exec(Init(t1), steps1, c), Exec(Init(t2), steps2, c);
    EndedInputsAdmitted(a, clock1, c);
    SameAdmission(a.disk, b.disk);
    PassEndsExactly(b, clock2, c);
    if PassFrom(b, clock2, c).phase == Finished(false) { SuccessesAgree(a, b, clock1, clock2, c); }
  }

  lemma SameAdmission(a: Disk, b: Disk)
    requires a.entries == b.entries && a.durability == b.durability && a.bars == b.bars
    ensures AdmittedInputs(a) <==> AdmittedInputs(b)
  {
  }

  lemma SuccessesAgree(a: System, b: System, clock1: nat -> int, clock2: nat -> int, c: Contract)
    requires Inv(a, c) && Inv(b, c) && PassBegun(a) && PassBegun(b) && SameInputs(a.disk, b.disk, a.own, b.own)
    requires GoodClock(clock1, c) && a.now <= clock1(0) && GoodClock(clock2, c) && b.now <= clock2(0)
    requires PassFrom(a, clock1, c).phase == Finished(false) && PassFrom(b, clock2, c).phase == Finished(false)
    ensures var p, q := PassFrom(a, clock1, c), PassFrom(b, clock2, c);
            p.ledger.cases == q.ledger.cases && Unstamped(p.links) == Unstamped(q.links)
  {
    PassEnds(a, clock1, c);
    PassEnds(b, clock2, c);
    var da, db := Left(a.disk, PassFrom(a, clock1, c)), Left(b.disk, PassFrom(b, clock2, c));
    hide DiskInv, SettledTo, PassInv, FinishPass;
    SameInputsAfter(a.disk, b.disk, da, db, a.own, b.own);
    SettledIsUnique(da, db, a.own, b.own, clock1(|a.disk.entries|), clock2(|b.disk.entries|), c);
  }

  lemma SameInputsAfter(a: Disk, b: Disk, a': Disk, b': Disk, ownA: Cases, ownB: Cases)
    requires SameInputs(a, b, ownA, ownB)
    requires a' == a.(links := a'.links, ledger := a'.ledger) && b' == b.(links := b'.links, ledger := b'.ledger)
    ensures SameInputs(a', b', ownA, ownB)
  {
    forall k | !Decided(a', k)
      ensures (k in ownA <==> k in ownB) && (k in ownA ==> ownA[k] == ownB[k])
    {
      DecidedByInputs(a, a', k);
    }
  }

  // ------------------------------------------------------- a second pass

  /** A settled entry is passed over without a write. */
  lemma SkipsSettled(d: Disk, i: nat, own: Cases, now: int, reading: int, c: Contract)
    requires DiskInv(d, own, now, c) && i < |d.entries| && Settled(ViewOf(d), d, d.entries[i]) && now <= c.deadline
    ensures var p := Pass(d.links, d.ledger, i, Examine);
            Micro(ViewOf(d), p, reading, c) == NextEntry(p)
  {
    var e := d.entries[i];
    DiskAt(d, own, now, c, e);
    if OnTime(d.durability, e) && Complete(d.bars, e) {
      var link :| CleanBy(d, e, link);
      var j :| 0 <= j < |d.links| && d.links[j] == link;
      assert Linked(d.links, e.id);
      SameLink(d.links, link, FindLink(d.links, e.id).value);
    } else if Linked(d.links, e.id) && OnTime(d.durability, e) {
      LinkEntry(d, own, now, c, FindLink(d.links, e.id).value, e);
    }
    hide DiskInv, Complete, EntryOk, CaseOk, AllAdmitted, Realized;
  }

  lemma SettledAt(d: Disk, i: nat)
    requires SettledTo(ViewOf(d), d, |d.entries|) && i < |d.entries|
    ensures Settled(ViewOf(d), d, d.entries[i])
  {
    hide Settled;
  }

  lemma SkipsOne(d: Disk, i: nat, own: Cases, now: int, clock: nat -> int, c: Contract)
    requires DiskInv(d, own, now, c) && SettledTo(ViewOf(d), d, |d.entries|) && now <= c.deadline && i < |d.entries|
    ensures FinishPass(ViewOf(d), Pass(d.links, d.ledger, i, Examine), clock, c)
         == FinishPass(ViewOf(d), Pass(d.links, d.ledger, i + 1, Examine), clock, c)
  {
    hide FinishPass, SettledTo, Settled, DiskInv, Micro;
    SettledAt(d, i);
    SkipsSettled(d, i, own, now, clock(i), c);
    Unroll(ViewOf(d), Pass(d.links, d.ledger, i, Examine), clock, c);
  }

  lemma {:induction false} SecondPassFrom(d: Disk, i: nat, own: Cases, now: int, clock: nat -> int, c: Contract)
    requires DiskInv(d, own, now, c) && SettledTo(ViewOf(d), d, |d.entries|) && now <= c.deadline && i <= |d.entries|
    ensures FinishPass(ViewOf(d), Pass(d.links, d.ledger, i, Examine), clock, c)
         == Pass(d.links, d.ledger, |d.entries|, Finished(false))
    decreases |d.entries| - i
  {
    hide FinishPass, SettledTo, DiskInv, Micro;
    if i == |d.entries| {
      LastEntry(ViewOf(d), Pass(d.links, d.ledger, i, Examine), clock, c);
    } else {
      SkipsOne(d, i, own, now, clock, c);
      SecondPassFrom(d, i + 1, own, now, clock, c);
    }
  }

  /** A further pass on the same inputs, at any clock, writes nothing at all. */
  lemma SecondPassChangesNothing(s: System, clock: nat -> int, again: nat -> int, c: Contract)
    requires Inv(s, c) && PassBegun(s) && GoodClock(clock, c) && s.now <= clock(0)
    requires PassFrom(s, clock, c).phase == Finished(false)
    ensures var p := PassFrom(s, clock, c);
            FinishPass(ViewOf(s.disk), Pass(p.links, p.ledger, 0, Examine), again, c) == p
  {
    PassEnds(s, clock, c);
    FinishSettles(s.disk, 0, Examine, s.own, s.now, clock, c);
    var p := PassFrom(s, clock, c);
    var d := Left(s.disk, p);
    hide DiskInv, FinishPass, SettledTo, PassInv;
    SecondPassFrom(d, 0, s.own, clock(|s.disk.entries|), again, c);
  }

  // ------------------------------------------- a pass among the other processes

  /** Before the deadline the entries that a pass has left behind are settled. */
  ghost predicate Progress(s: System, c: Contract) {
    s.process.Passing? && s.now <= c.deadline ==>
      && s.process.index <= |s.process.view.entries|
      && SettledTo(s.process.view, s.disk, s.process.index)
      && (s.process.phase == Finished(false) ==> s.process.index == |s.process.view.entries|)
  }

  lemma OthersKeepProgress(s: System, step: Step, c: Contract)
    requires Progress(s, c) && !step.Advance?
    ensures Progress(Do(s, step, c), c)
  {
    OthersKeep(s, step, c);
    var t := Do(s, step, c);
    hide Do;
    if t.process.Passing? && t.now <= c.deadline {
      var v := s.process.view;
      forall j | 0 <= j < s.process.index ensures Settled(v, t.disk, v.entries[j]) {
        assert Settled(v, s.disk, v.entries[j]);
        KeepsSettled(v, s.disk, t.disk, v.entries[j]);
      }
    }
  }

  lemma KeepsSettled(v: View, d: Disk, d': Disk, e: Entry)
    requires Settled(v, d, e) && d'.links == d.links
    requires e.key in d.ledger.cases ==> CaseOf(d'.ledger, e.key) == CaseOf(d.ledger, e.key)
    ensures Settled(v, d', e)
  {
    if OnTime(v.durability, e) && Complete(v.bars, e) {
      var link :| CleanBy(d, e, link);
      assert CleanBy(d', e, link);
    }
  }

  lemma LinkerKeepsProgress(s: System, reading: int, c: Contract)
    requires Progress(s, c) && Inv(s, c)
    ensures Progress(Do(s, Advance(reading), c), c)
  {
    if s.process.Passing? && !Terminal(s.process.phase) && s.now <= reading <= c.deadline {
      var v, i, phase := s.process.view, s.process.index, s.process.phase;
      var p := Pass(s.disk.links, s.disk.ledger, i, phase);
      LedgerAndTime(s.disk, s.disk, s.own, s.now, reading, c);
      LaterPhase(s.disk, v, i, phase, s.now, reading, c);
      MicroSettles(s.disk, v, i, phase, s.own, reading, c);
      FinishedAtEnd(v, p, reading, c);
    }
    hide DiskInv, PassInv, Micro, Settled;
  }

  /** Whatever the other processes do meanwhile, a pass that has come to its end without
      failure before the deadline has settled every entry of the view it began with. */
  lemma {:induction false} PassSettlesItsView(start: int, steps: seq<Step>, c: Contract)
    ensures var s := Exec(Init(start), steps, c);
            && Progress(s, c)
            && (s.process.Passing? && s.process.phase == Finished(false) && s.now <= c.deadline ==>
                  forall j :: 0 <= j < |s.process.view.entries| ==>
                    Settled(s.process.view, s.disk, s.process.view.entries[j]))
  {
    if steps != [] {
      var n := |steps| - 1;
      PassSettlesItsView(start, steps[..n], c);
      Reachable(start, steps[..n], c);
      var s := Exec(Init(start), steps[..n], c);
      if steps[n].Advance? { LinkerKeepsProgress(s, steps[n].reading, c); } else { OthersKeepProgress(s, steps[n], c); }
      hide Do, Inv, Settled;
    }
  }
}
