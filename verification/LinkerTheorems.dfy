/** Safety of the linker over every run. */
module LinkerTheorems {

  import opened Options
  import opened Coordinator
  import opened OutcomeLinker
  import opened LinkerSystem
  import opened LinkerSafety

  // ------------------------------------------------------------------- safety

  /** What a sound disk says about links, in the terms of the ledgers alone. */
  ghost predicate LinksAreExact(d: Disk) {
    && (forall i, j :: 0 <= i < j < |d.links| ==> d.links[i].prediction != d.links[j].prediction)
    && (forall link :: link in d.links ==>
          exists e :: e in d.entries && link.prediction == e.id && link.key == e.key && ExactBars(d, link, e))
    && (forall e :: e in d.entries && Linked(d.links, e.id) ==>
          OnTime(d.durability, e) && e.key in d.ledger.cases && !d.ledger.cases[e.key].Excluded?)
    && (forall k :: k in d.ledger.cases && d.ledger.cases[k].Clean? ==>
          exists link :: link in d.links && link.key == k && link.prediction == d.ledger.cases[k].prediction
                         && link.outcome == d.ledger.cases[k].outcome)
  }

  /** The prediction's own cutoff, twelve bars, one per 300 seconds after it, all admitted,
      and the outcome identity that binds them to the prediction. */
  predicate ExactBars(d: Disk, link: Link, e: Entry) {
    && link.cutoff == e.cutoff && |link.bars| == 12 == |link.ends|
    && (forall i :: 0 <= i < 12 ==>
          && link.ends[i] == e.cutoff + 300 * (i + 1)
          && Slot(e.key.symbol, link.ends[i]) in d.bars
          && d.bars[Slot(e.key.symbol, link.ends[i])] == link.bars[i]
          && link.bars[i].admitted)
    && link.outcome == OutcomeOf(e.id, link.bars)
  }

  lemma SoundDiskIsExact(d: Disk, own: Cases, now: int, c: Contract)
    requires DiskInv(d, own, now, c)
    ensures LinksAreExact(d)
  {
    forall link | link in d.links
      ensures exists e :: e in d.entries && link.prediction == e.id && link.key == e.key && ExactBars(d, link, e)
    {
      assert LinkOk(d, link, c);
      var e :| e in d.entries && LinkOf(d, link, e, c);
      LinkOfIsExact(d, link, e, c);
    }
    forall e | e in d.entries && Linked(d.links, e.id)
      ensures OnTime(d.durability, e) && e.key in d.ledger.cases && !d.ledger.cases[e.key].Excluded?
    {
      var i :| 0 <= i < |d.links| && d.links[i].prediction == e.id;
      LinkEntry(d, own, now, c, d.links[i], e);
    }
    forall k | k in d.ledger.cases && d.ledger.cases[k].Clean?
      ensures exists link :: link in d.links && link.key == k && link.prediction == d.ledger.cases[k].prediction
                             && link.outcome == d.ledger.cases[k].outcome
    {
      assert CaseOk(d, k);
      var p := d.ledger.cases[k].prediction;
      var e :| e in d.entries && e.key == k && e.id == p;
      var link :| link in d.links && link.prediction == p && link.outcome == d.ledger.cases[k].outcome;
      LinkEntry(d, own, now, c, link, e);
    }
    hide DiskInv, Linked, ExactBars;
  }

  lemma LinkOfIsExact(d: Disk, link: Link, e: Entry, c: Contract)
    requires LinkOf(d, link, e, c)
    ensures link.prediction == e.id && link.key == e.key && ExactBars(d, link, e)
  {
    var bars := Realized(d.bars, e);
    forall i | 0 <= i < HORIZON
      ensures link.ends[i] == e.cutoff + BAR_SECONDS * (i + 1)
           && SlotOf(e, i) in d.bars && d.bars[SlotOf(e, i)] == link.bars[i] && link.bars[i].admitted
    {
      assert bars[i].admitted;
    }
  }

  /** Over every run with every crash: links are exact and never late or excluded,
      one per prediction and by the deadline, and every clean case has its link. */
  lemma SafeOverAllRuns(start: int, steps: seq<Step>, c: Contract)
    ensures var d := Exec(Init(start), steps, c).disk;
            LinksAreExact(d) && forall link :: link in d.links ==> link.linkedAt <= c.deadline
  {
    Reachable(start, steps, c);
    var s := Exec(Init(start), steps, c);
    hide Exec, LinksAreExact;
    SoundDiskIsExact(s.disk, s.own, s.now, c);
    forall link | link in s.disk.links ensures link.linkedAt <= c.deadline {
      LinkInTime(s.disk, s.own, s.now, c, link);
    }
  }

  lemma LinkInTime(d: Disk, own: Cases, now: int, c: Contract, link: Link)
    requires DiskInv(d, own, now, c) && link in d.links
    ensures link.linkedAt <= c.deadline
  {
    assert LinkOk(d, link, c);
  }

  /** A step of any process leaves the links as they are, or it is a step of a pass within
      the deadline that adds one link: of the entry the pass is at, with that entry's key
      and cutoff and the reading of that very step. */
  lemma LinkStamped(start: int, steps: seq<Step>, step: Step, c: Contract)
    ensures var s := Exec(Init(start), steps, c);
            var t := Do(s, step, c);
            t.disk.links == s.disk.links
            || (&& step.Advance? && s.now <= step.reading <= c.deadline
                && s.process.Passing? && s.process.index < |s.process.view.entries|
                && |t.disk.links| == |s.disk.links| + 1 && s.disk.links <= t.disk.links
                && var e, link := s.process.view.entries[s.process.index], t.disk.links[|s.disk.links|];
                   && link.prediction == e.id && link.key == e.key && link.cutoff == e.cutoff
                   && link.linkedAt == step.reading && !Linked(s.disk.links, e.id))
  {
    Reachable(start, steps, c);
    var s := Exec(Init(start), steps, c);
    hide Exec;
    if step.Advance? {
      if s.process.Passing? && !Terminal(s.process.phase) {
        LinkStep(s.process.view, Pass(s.disk.links, s.disk.ledger, s.process.index, s.process.phase), step.reading, c);
      }
      hide Inv, Micro, AttestedWithin, Linked;
    } else {
      OthersKeep(s, step, c);
      hide Inv, Do;
    }
  }

  // ------------------------------------------------------------------ counters

  function ExcludedIds(cases: Cases): set<string> {
    set k | k in cases && cases[k].Excluded? && cases[k].predicted.Some? :: cases[k].predicted.value
  }

  /** The status counter: entries neither linked nor excluded. */
  function PendingOutcomes(ids: seq<string>, linked: set<string>, excluded: set<string>): nat {
    if ids == [] then 0
    else
      PendingOutcomes(ids[..|ids| - 1], linked, excluded)
      + if ids[|ids| - 1] !in linked && ids[|ids| - 1] !in excluded then 1 else 0
  }

  function EntryIds(entries: seq<Entry>): seq<string> {
    seq(|entries|, i requires 0 <= i < |entries| => entries[i].id)
  }

  function LinkIds(links: seq<Link>): seq<string> {
    seq(|links|, i requires 0 <= i < |links| => links[i].prediction)
  }

  function Elements(ids: seq<string>): set<string> {
    set id | id in ids
  }

  predicate Distinct(ids: seq<string>) {
    forall i, j :: 0 <= i < j < |ids| ==> ids[i] != ids[j]
  }

  lemma LastIsNew(ids: seq<string>)
    requires ids != [] && Distinct(ids)
    ensures var n := |ids| - 1;
            Distinct(ids[..n]) && ids[n] !in Elements(ids[..n]) && Elements(ids) == Elements(ids[..n]) + {ids[n]}
  {
    var n := |ids| - 1;
    assert ids == ids[..n] + [ids[n]];
  }

  lemma {:induction false} DistinctCount(ids: seq<string>)
    requires Distinct(ids)
    ensures |ids| == |Elements(ids)|
  {
    if ids == [] {
      assert Elements(ids) == {};
    } else {
      LastIsNew(ids);
      DistinctCount(ids[..|ids| - 1]);
    }
  }

  lemma OneMore(all: set<string>, id: string, linked: set<string>, excluded: set<string>)
    requires id !in all
    ensures |all + {id} - linked - excluded|
         == |all - linked - excluded| + if id !in linked && id !in excluded then 1 else 0
  {
    var rest, more := all - linked - excluded, all + {id} - linked - excluded;
    if id !in linked && id !in excluded {
      assert more == rest + {id};
    } else {
      assert more == rest;
    }
  }

  lemma {:induction false} PendingIsDifference(ids: seq<string>, linked: set<string>, excluded: set<string>)
    requires Distinct(ids)
    ensures PendingOutcomes(ids, linked, excluded) == |Elements(ids) - linked - excluded|
  {
    if ids == [] {
      assert Elements(ids) - linked - excluded == {};
    } else {
      var n := |ids| - 1;
      LastIsNew(ids);
      PendingIsDifference(ids[..n], linked, excluded);
      OneMore(Elements(ids[..n]), ids[n], linked, excluded);
      hide Elements, Distinct;
    }
  }

  lemma SplitThreeWays(all: set<string>, linked: set<string>, excluded: set<string>)
    requires linked <= all && excluded <= all && linked !! excluded
    ensures |all| == |linked| + |excluded| + |all - linked - excluded|
  {
    assert all == linked + excluded + (all - linked - excluded);
    assert |linked + excluded| == |linked| + |excluded|;
  }

  /** Linked and excluded predictions are different entries of the ledger. */
  lemma LinkedAndExcluded(d: Disk, own: Cases, now: int, c: Contract)
    requires DiskInv(d, own, now, c)
    ensures var excluded := ExcludedIds(d.ledger.cases);
            var all, linked := Elements(EntryIds(d.entries)), Elements(LinkIds(d.links));
            linked <= all && excluded <= all && linked !! excluded
  {
    var all := Elements(EntryIds(d.entries));
    forall e | e in d.entries ensures e.id in all {
      var i :| 0 <= i < |d.entries| && d.entries[i] == e;
      assert EntryIds(d.entries)[i] == e.id;
    }
    forall id | id in Elements(LinkIds(d.links)) ensures id in all && Linked(d.links, id) {
      var i :| 0 <= i < |d.links| && LinkIds(d.links)[i] == id;
      assert d.links[i].prediction == id;
      assert LinkOk(d, d.links[i], c);
    }
    forall id | id in ExcludedIds(d.ledger.cases) ensures id in all && !Linked(d.links, id) {
      var k :| k in d.ledger.cases && d.ledger.cases[k] == Excluded(Some(id));
      assert CaseOk(d, k);
      var e :| e in d.entries && e.key == k && e.id == id;
      assert EntryOk(d, e, now > c.deadline);
    }
  }

  /** Every link is of an entry. */
  predicate LinksWithin(links: seq<Link>, entries: seq<Entry>) {
    forall i :: 0 <= i < |links| ==> HasId(entries, links[i].prediction)
  }

  lemma MicroLinksWithin(v: View, p: Pass, now: int, c: Contract)
    requires !Terminal(p.phase) && LinksWithin(p.links, v.entries)
    ensures LinksWithin(Micro(v, p, now, c).links, v.entries)
  {
    hide Complete, Linked, OutcomeUsed, BoundElsewhere, OutcomeElsewhere, AllAdmitted, Feasible, FindLink, Realized;
    if p.index < |v.entries| { assert HasId(v.entries, v.entries[p.index].id); }
  }

  lemma DiskLinksWithin(d: Disk, own: Cases, now: int, c: Contract)
    requires DiskInv(d, own, now, c)
    ensures LinksWithin(d.links, d.entries)
  {
    forall i | 0 <= i < |d.links| ensures HasId(d.entries, d.links[i].prediction) {
      assert LinkOk(d, d.links[i], c);
      var e :| e in d.entries && LinkOf(d, d.links[i], e, c);
      var j :| 0 <= j < |d.entries| && d.entries[j] == e;
      hide DiskInv, Complete, AllAdmitted;
    }
  }

  /** Every link is of an entry that the pass under way has read. */
  predicate LinksRead(s: System) {
    match s.process
    case Listed(entries) => LinksWithin(s.disk.links, entries)
    case Loaded(entries, _) => LinksWithin(s.disk.links, entries)
    case Passing(v, _, _) => LinksWithin(s.disk.links, v.entries)
    case _ => true
  }

  lemma LinkerKeepsLinksRead(s: System, reading: int, c: Contract)
    requires Inv(s, c) && LinksRead(s)
    ensures LinksRead(Do(s, Advance(reading), c))
  {
    DiskLinksWithin(s.disk, s.own, s.now, c);
    if s.process.Passing? && !Terminal(s.process.phase) {
      MicroLinksWithin(s.process.view, Pass(s.disk.links, s.disk.ledger, s.process.index, s.process.phase), reading, c);
    }
    hide Inv, Micro, LinksWithin, AttestedWithin;
  }

  /** In the middle of a pass every link is of an entry that the pass has read. */
  lemma {:induction false} LinksInView(start: int, steps: seq<Step>, c: Contract)
    ensures var s := Exec(Init(start), steps, c);
            LinksRead(s) && (s.process.Passing? ==> LinksWithin(s.disk.links, s.process.view.entries))
  {
    hide Inv, LinksWithin, Do;
    if steps != [] {
      var n := |steps| - 1;
      LinksInView(start, steps[..n], c);
      Reachable(start, steps[..n], c);
      var s := Exec(Init(start), steps[..n], c);
      if steps[n].Advance? { LinkerKeepsLinksRead(s, steps[n].reading, c); } else { OthersKeep(s, steps[n], c); }
    }
  }

  /** The counts of a status over the entries it names: the entries on the disk, or those a
      pass has read, with the exclusions among them. */
  predicate SplitOver(entries: seq<Entry>, d: Disk) {
    var ids, linked, excluded := EntryIds(entries), Elements(LinkIds(d.links)), ExcludedIds(d.ledger.cases);
    && linked !! excluded
    && |entries| == |d.links| + |excluded * Elements(ids)| + PendingOutcomes(ids, linked, excluded)
  }

  lemma CountsSplit(ids: seq<string>, linkIds: seq<string>, excluded: set<string>)
    requires Distinct(ids) && Distinct(linkIds) && Elements(linkIds) <= Elements(ids) && Elements(linkIds) !! excluded
    ensures |ids| == |linkIds| + |excluded * Elements(ids)| + PendingOutcomes(ids, Elements(linkIds), excluded)
  {
    hide Elements, Distinct, PendingOutcomes;
    var all, linked := Elements(ids), Elements(linkIds);
    DistinctCount(ids);
    DistinctCount(linkIds);
    PendingIsDifference(ids, linked, excluded);
    SplitThreeWays(all, linked, excluded * all);
    assert all - linked - excluded * all == all - linked - excluded;
  }

  lemma LinkIdsWithin(links: seq<Link>, entries: seq<Entry>)
    requires LinksWithin(links, entries)
    ensures Elements(LinkIds(links)) <= Elements(EntryIds(entries))
  {
    forall id | id in Elements(LinkIds(links)) ensures id in Elements(EntryIds(entries)) {
      var i :| 0 <= i < |links| && LinkIds(links)[i] == id;
      assert HasId(entries, links[i].prediction);
      var j :| 0 <= j < |entries| && entries[j].id == id;
      assert EntryIds(entries)[j] == id;
    }
  }

  lemma SplitsOver(entries: seq<Entry>, d: Disk, own: Cases, now: int, c: Contract)
    requires DiskInv(d, own, now, c) && entries <= d.entries && LinksWithin(d.links, entries)
    ensures SplitOver(entries, d)
  {
    DistinctIds(entries, d, own, now, c);
    LinkedAndExcluded(d, own, now, c);
    LinkIdsWithin(d.links, entries);
    hide DiskInv, ExcludedIds, Elements, Distinct, LinksWithin, PendingOutcomes;
    CountsSplit(EntryIds(entries), LinkIds(d.links), ExcludedIds(d.ledger.cases));
  }

  lemma DistinctIds(entries: seq<Entry>, d: Disk, own: Cases, now: int, c: Contract)
    requires DiskInv(d, own, now, c) && entries <= d.entries
    ensures Distinct(EntryIds(entries)) && Distinct(LinkIds(d.links))
  {
  }

  /** In every reachable state, whatever processes are at work, the entries split exactly
      into linked, excluded and the published count of pending outcomes: those on the disk,
      which the status after the loop counts, and those that the pass under way has read,
      which the status within the loop counts against the exclusions of the moment. */
  lemma EntriesSplit(start: int, steps: seq<Step>, c: Contract)
    ensures var s := Exec(Init(start), steps, c);
            && SplitOver(s.disk.entries, s.disk)
            && (s.process.Passing? ==> SplitOver(s.process.view.entries, s.disk))
  {
    Reachable(start, steps, c);
    LinksInView(start, steps, c);
    var s := Exec(Init(start), steps, c);
    hide Exec, SplitOver, LinksWithin, DiskInv;
    DiskLinksWithin(s.disk, s.own, s.now, c);
    SplitsOver(s.disk.entries, s.disk, s.own, s.now, c);
    if s.process.Passing? { SplitsOver(s.process.view.entries, s.disk, s.own, s.now, c); }
  }

  // -------------------------------------------------------------- what latches

  lemma NotBoundElsewhere(d: Disk, own: Cases, now: int, c: Contract, e: Entry)
    requires DiskInv(d, own, now, c) && e in d.entries
    ensures !BoundElsewhere(d.ledger.cases, e.key, e.id)
  {
    forall k | k in d.ledger.cases && k != e.key ensures PredictionOf(d.ledger.cases[k]) != Some(e.id) {
      assert CaseOk(d, k);
      if PredictionOf(d.ledger.cases[k]).Some? {
        var f :| f in d.entries && f.key == k && f.id == PredictionOf(d.ledger.cases[k]).value;
        SameEntry(d.entries, e, f);
      }
    }
  }

  lemma OutcomeIsOwn(d: Disk, own: Cases, now: int, c: Contract, link: Link)
    requires DiskInv(d, own, now, c) && link in d.links
    ensures link.outcome.prediction == link.prediction
  {
    assert LinkOk(d, link, c);
  }

  lemma OutcomeNotElsewhere(d: Disk, own: Cases, now: int, c: Contract, e: Entry, o: Outcome)
    requires DiskInv(d, own, now, c) && e in d.entries && o.prediction == e.id
    ensures !OutcomeElsewhere(d.ledger.cases, e.key, o)
  {
    forall k | k in d.ledger.cases && k != e.key && d.ledger.cases[k].Clean? ensures d.ledger.cases[k].outcome != o {
      assert CaseOk(d, k);
      var p := d.ledger.cases[k].prediction;
      var f :| f in d.entries && f.key == k && f.id == p;
      var link :| link in d.links && link.prediction == p && link.outcome == d.ledger.cases[k].outcome;
      OutcomeIsOwn(d, own, now, c, link);
      SameEntry(d.entries, e, f);
    }
  }

  /** An entry with a clean case has its link. */
  lemma CleanIsLinked(d: Disk, own: Cases, now: int, c: Contract, e: Entry)
    requires DiskInv(d, own, now, c) && e in d.entries
    ensures e.key in d.ledger.cases && d.ledger.cases[e.key].Clean? ==> Linked(d.links, e.id)
  {
    if e.key in d.ledger.cases && d.ledger.cases[e.key].Clean? {
      assert CaseOk(d, e.key);
      var p := d.ledger.cases[e.key].prediction;
      var f :| f in d.entries && f.key == e.key && f.id == p;
      SameEntry(d.entries, e, f);
      var link :| link in d.links && link.prediction == p;
      var i :| 0 <= i < |d.links| && d.links[i] == link;
    }
  }

  /** The causes for which a pass fails the generation: too few clean cases left to
      reach, a bar that was not admitted, or a case that another process recorded
      between the pending call's look at it and its append under the lock. */
  predicate RefusalCause(d: Disk, v: View, i: nat, phase: Phase, c: Contract) {
    i < |v.entries|
    && ((phase.Coverage? && !Feasible(d.ledger.cases, c))
        || (phase.Examine? && NotAdmitted(d, v, v.entries[i]))
        || (phase.Locking? && v.entries[i].key in d.ledger.cases))
  }

  predicate NotAdmitted(d: Disk, v: View, e: Entry) {
    && OnTime(v.durability, e) && Complete(v.bars, e) && !AllAdmitted(Realized(v.bars, e))
    && !(e.key in d.ledger.cases && d.ledger.cases[e.key].Excluded?)
  }

  /** Another process recorded the late entry between the linker's read and its write. */
  predicate Overtaken(d: Disk, v: View, i: nat, phase: Phase) {
    i < |v.entries| && phase.Excluding? && v.entries[i].key in d.ledger.cases
  }

  /** A step of a pass in a generation that is not latched latches it, or kills the
      linker, for exactly those causes. */
  predicate StopsExactly(d: Disk, v: View, i: nat, phase: Phase, p: Pass, c: Contract) {
    && (p.ledger.fatal <==> RefusalCause(d, v, i, phase, c))
    && (p.phase.Died? <==> Overtaken(d, v, i, phase))
    && (p.phase == Finished(true) ==> p.ledger.fatal)
  }

  lemma CertifyNeverRefuses(d: Disk, own: Cases, now: int, c: Contract, p: Pass, e: Entry, link: Link)
    requires DiskInv(d, own, now, c) && !d.ledger.fatal && e in d.entries && link in d.links && link.prediction == e.id
    requires p.ledger == d.ledger && !Terminal(p.phase)
    ensures !CertifyStep(p, e, link).ledger.fatal && !Terminal(CertifyStep(p, e, link).phase)
  {
    LinkEntry(d, own, now, c, link, e);
    NotBoundElsewhere(d, own, now, c, e);
    OutcomeNotElsewhere(d, own, now, c, e, link.outcome);
    hide DiskInv, LinkFor, Complete, Realized, BoundElsewhere, OutcomeElsewhere, AllAdmitted;
  }

  lemma ExamineStops(d: Disk, v: View, i: nat, own: Cases, now: int, c: Contract)
    requires PassSound(d, v, i, Examine, own, now, c) && !d.ledger.fatal && i < |v.entries|
    ensures StopsExactly(d, v, i, Examine, ExamineStep(v, Pass(d.links, d.ledger, i, Examine), v.entries[i]), c)
  {
    var e := v.entries[i];
    AtEntry(d, v, i, own, now, c);
    CleanIsLinked(d, own, now, c, e);
    if Linked(d.links, e.id) {
      var link := FindLink(d.links, e.id).value;
      LinkEntry(d, own, now, c, link, e);
      CertifyNeverRefuses(d, own, now, c, Pass(d.links, d.ledger, i, Examine), e, link);
      hide DiskInv, EntryOk, CaseOk, LinkFor, Submap, Complete, Realized, CertifyStep, AllAdmitted;
    } else {
      hide DiskInv, EntryOk, CaseOk, Submap, Complete, Realized, CertifyStep, AllAdmitted;
    }
  }

  lemma ExcludeStops(d: Disk, v: View, i: nat, own: Cases, now: int, c: Contract)
    requires PassSound(d, v, i, Excluding, own, now, c) && !d.ledger.fatal && i < |v.entries|
    ensures StopsExactly(d, v, i, Excluding, ExcludeStep(Pass(d.links, d.ledger, i, Excluding), v.entries[i]), c)
  {
    var e := v.entries[i];
    AtEntry(d, v, i, own, now, c);
    NotBoundElsewhere(d, own, now, c, e);
    hide DiskInv, CaseOk, Submap, Complete, BoundElsewhere, Linked;
  }

  lemma PendStops(d: Disk, v: View, i: nat, phase: Phase, own: Cases, now: int, c: Contract)
    requires PassSound(d, v, i, phase, own, now, c) && !d.ledger.fatal && i < |v.entries|
    requires phase.Opening? || phase.Locking?
    ensures var p := Pass(d.links, d.ledger, i, phase);
            var q := if phase.Opening? then OpenStep(p, v.entries[i], phase.found)
                     else LockStep(p, v.entries[i], phase.found);
            StopsExactly(d, v, i, phase, q, c)
  {
    AtEntry(d, v, i, own, now, c);
    NotBoundElsewhere(d, own, now, c, v.entries[i]);
    hide DiskInv, EntryOk, CaseOk, Submap, Complete, Realized, AllAdmitted, BoundElsewhere, Linked;
  }

  lemma AppendStops(d: Disk, v: View, i: nat, own: Cases, now: int, reading: int, c: Contract)
    requires PassSound(d, v, i, Append, own, now, c) && !d.ledger.fatal && i < |v.entries|
    ensures var p := AppendStep(v, Pass(d.links, d.ledger, i, Append), v.entries[i], reading, c);
            StopsExactly(d, v, i, Append, p, c)
  {
    var e := v.entries[i];
    AtEntry(d, v, i, own, now, c);
    NotBoundElsewhere(d, own, now, c, e);
    forall j | 0 <= j < |d.links| ensures d.links[j].outcome != OutcomeOf(e.id, Realized(v.bars, e)) {
      OutcomeIsOwn(d, own, now, c, d.links[j]);
    }
    hide DiskInv, EntryOk, CaseOk, Submap, Complete, Realized, BoundElsewhere;
  }

  lemma StepStops(d: Disk, v: View, i: nat, phase: Phase, own: Cases, now: int, reading: int, c: Contract)
    requires PassSound(d, v, i, phase, own, now, c) && !Terminal(phase) && !d.ledger.fatal
    ensures StopsExactly(d, v, i, phase, Micro(v, Pass(d.links, d.ledger, i, phase), reading, c), c)
  {
    if i < |v.entries| {
      match phase
      case Examine =>
        ExamineStops(d, v, i, own, now, c);
        hide DiskInv, PassInv, StopsExactly, ExamineStep;
      case Excluding =>
        ExcludeStops(d, v, i, own, now, c);
        hide DiskInv, PassInv, StopsExactly, ExcludeStep;
      case Opening(_) =>
        PendStops(d, v, i, phase, own, now, c);
        hide DiskInv, PassInv, StopsExactly, OpenStep;
      case Locking(_) =>
        PendStops(d, v, i, phase, own, now, c);
        hide DiskInv, PassInv, StopsExactly, LockStep;
      case Append =>
        AppendStops(d, v, i, own, now, reading, c);
        hide DiskInv, PassInv, StopsExactly, AppendStep;
      case Certify(link) =>
        AtEntry(d, v, i, own, now, c);
        CertifyNeverRefuses(d, own, now, c, Pass(d.links, d.ledger, i, phase), v.entries[i], link);
        hide DiskInv, Submap, CertifyStep;
      case _ =>
        AtEntry(d, v, i, own, now, c);
        hide DiskInv, CaseOk, Submap, Complete, Realized, Feasible;
    }
  }

  // ---------------------------------------- who comes between a read and a write

  /** A pass that found a case absent is about to write it, and it still is absent. */
  predicate Undisturbed(v: View, p: Pass) {
    p.index < |v.entries| && (p.phase.Excluding? || p.phase.Opening? || p.phase.Locking?) ==>
      v.entries[p.index].key !in p.ledger.cases
  }

  lemma MicroReadsAbsent(v: View, p: Pass, now: int, c: Contract)
    requires !Terminal(p.phase)
    ensures Undisturbed(v, Micro(v, p, now, c))
    ensures forall k :: k in p.ledger.cases ==> k in Micro(v, p, now, c).ledger.cases
  {
    hide Complete, Linked, OutcomeUsed, BoundElsewhere, OutcomeElsewhere, AllAdmitted, LinkFor, Feasible, FindLink;
  }

  /** What the candidate accounted for is recorded; and a case that the linker read as
      absent and that has appeared since is of the candidate's own accounting. */
  ghost predicate OwnRecorded(s: System) {
    && (forall k :: k in s.own ==> k in s.disk.ledger.cases)
    && (s.process.Passing? && s.process.index < |s.process.view.entries| ==>
          AddedByOwn(s, s.process.view.entries[s.process.index], s.process.phase))
  }

  predicate AddedByOwn(s: System, e: Entry, phase: Phase) {
    e.key in s.disk.ledger.cases ==>
      && (phase.Excluding? ==> Accounted(s, e, Excluded(Some(e.id))))
      && (phase.Opening? || phase.Locking? ==> Accounted(s, e, Pending(e.id)))
  }

  /** The candidate itself has accounted for the entry, and so. */
  predicate Accounted(s: System, e: Entry, case': Case) {
    e.key in s.own && s.own[e.key] == case'
  }

  lemma LinkerKeepsOwn(s: System, reading: int, c: Contract)
    requires OwnRecorded(s)
    ensures OwnRecorded(Do(s, Advance(reading), c))
  {
    if s.process.Passing? && !Terminal(s.process.phase) {
      MicroReadsAbsent(s.process.view, Pass(s.disk.links, s.disk.ledger, s.process.index, s.process.phase), reading, c);
    }
    hide Micro;
  }

  /** What the candidate may account for the entry that the pass is at. */
  predicate FitsPass(s: System, key: Key, case': Case) {
    s.process.Passing? && s.process.index < |s.process.view.entries| ==>
      var e, phase := s.process.view.entries[s.process.index], s.process.phase;
      e.key == key ==>
        && (phase.Excluding? ==> case' == Excluded(Some(e.id)))
        && (phase.Opening? || phase.Locking? ==> case' == Pending(e.id))
  }

  lemma AccountKeepsOwn(s: System, key: Key, case': Case)
    requires OwnRecorded(s) && FitsPass(s, key, case')
    ensures OwnRecorded(s.(disk := WithCase(s.disk, key, case'), own := s.own[key := case']))
  {
  }

  /** The entry of the pass and the entry accounted for are the same when their keys are. */
  lemma EntryFits(s: System, c: Contract, f: Entry)
    requires Inv(s, c) && f in s.disk.entries
    ensures OnTime(s.disk.durability, f) ==> FitsPass(s, f.key, Pending(f.id))
    ensures Late(s.disk.durability, f) ==> FitsPass(s, f.key, Excluded(Some(f.id)))
  {
    if s.process.Passing? && s.process.index < |s.process.view.entries| {
      var e := s.process.view.entries[s.process.index];
      AtEntry(s.disk, s.process.view, s.process.index, s.own, s.now, c);
      SameEntry(s.disk.entries, e, f);
    }
    hide DiskInv, EntryOk, CaseOk, Submap, Complete, AllAdmitted, Linked;
  }

  lemma MissedFits(s: System, c: Contract, key: Key)
    requires Inv(s, c) && !HasKey(s.disk.entries, key)
    ensures FitsPass(s, key, Excluded(None))
  {
    if s.process.Passing? && s.process.index < |s.process.view.entries| {
      EntryHasKey(s.disk.entries, s.disk.entries[s.process.index]);
    }
    hide DiskInv, HasKey, Submap, Complete, AllAdmitted, Linked;
  }

  lemma OwnStepKeepsOwn(s: System, step: Step, c: Contract)
    requires Inv(s, c) && OwnRecorded(s) && (step.OwnPending? || step.OwnExclusion? || step.Missed?)
    ensures OwnRecorded(Do(s, step, c))
  {
    hide Inv, OwnRecorded, FitsPass, HasKey, OnTime, Late, BoundElsewhere;
    var d, t := s.disk, Do(s, step, c);
    match step
    case OwnPending(j) =>
      if t != s {
        var f := d.entries[j];
        EntryFits(s, c, f);
        AccountKeepsOwn(s, f.key, Pending(f.id));
        assert t.disk.ledger.cases == d.ledger.cases[f.key := Pending(f.id)];
      }
    case OwnExclusion(j) =>
      if t != s {
        EntryFits(s, c, d.entries[j]);
        AccountKeepsOwn(s, d.entries[j].key, Excluded(Some(d.entries[j].id)));
      }
    case Missed(key) =>
      if t != s {
        MissedFits(s, c, key);
        AccountKeepsOwn(s, key, Excluded(None));
      }
  }

  lemma OthersKeepOwn(s: System, step: Step, c: Contract)
    requires Inv(s, c) && OwnRecorded(s) && !step.Advance?
    ensures OwnRecorded(Do(s, step, c))
  {
    if step.OwnPending? || step.OwnExclusion? || step.Missed? {
      OwnStepKeepsOwn(s, step, c);
      hide Do, OwnRecorded, Inv;
    } else {
      hide Inv, HasKey, HasId, OnTime, Late, RecordPending, RecordExcluded, Proceed, CanStart;
    }
  }

  lemma EntryHasKey(entries: seq<Entry>, e: Entry)
    requires e in entries
    ensures HasKey(entries, e.key)
  {
    var i :| 0 <= i < |entries| && entries[i] == e;
  }

  lemma {:induction false} AlwaysOwnRecorded(start: int, steps: seq<Step>, c: Contract)
    ensures OwnRecorded(Exec(Init(start), steps, c))
  {
    hide Do, OwnRecorded, Inv;
    if steps == [] {
      NothingRecorded(start);
    } else {
      var n := |steps| - 1;
      AlwaysOwnRecorded(start, steps[..n], c);
      Reachable(start, steps[..n], c);
      var s := Exec(Init(start), steps[..n], c);
      if steps[n].Advance? { LinkerKeepsOwn(s, steps[n].reading, c); } else { OthersKeepOwn(s, steps[n], c); }
    }
  }

  lemma NothingRecorded(start: int)
    ensures OwnRecorded(Init(start))
  {
  }

  /** Over every run, in a generation that is not latched: a step of a pass fails the
      generation for three causes only, and kills the linker for one only.  Both the
      refused append and the death are the candidate's doing: it recorded the pending
      case, or excluded the late one, after the linker had read that there was none. */
  lemma StopsOnlyFor(start: int, steps: seq<Step>, reading: int, c: Contract)
    requires var s := Exec(Init(start), steps, c);
             s.process.Passing? && !Terminal(s.process.phase) && !s.disk.ledger.fatal
    ensures var s := Exec(Init(start), steps, c);
            var v, i, phase := s.process.view, s.process.index, s.process.phase;
            var q := Micro(v, Pass(s.disk.links, s.disk.ledger, i, phase), reading, c);
            && (q.ledger.fatal <==>
                  i < |v.entries| &&
                  ((phase.Coverage? && !Feasible(s.disk.ledger.cases, c))
                   || (phase.Examine? && NotAdmitted(s.disk, v, v.entries[i]))
                   || (phase.Locking? && Accounted(s, v.entries[i], Pending(v.entries[i].id)))))
            && (q.phase.Died? <==>
                  i < |v.entries| && phase.Excluding? && Accounted(s, v.entries[i], Excluded(Some(v.entries[i].id))))
            && (q.phase == Finished(true) ==> q.ledger.fatal)
            && Undisturbed(v, q)
  {
    Reachable(start, steps, c);
    AlwaysOwnRecorded(start, steps, c);
    var s := Exec(Init(start), steps, c);
    var v, i, phase := s.process.view, s.process.index, s.process.phase;
    hide Exec, DiskInv, PassInv, Micro, Feasible, NotAdmitted, Undisturbed;
    StepStops(s.disk, v, i, phase, s.own, s.now, reading, c);
    MicroReadsAbsent(v, Pass(s.disk.links, s.disk.ledger, i, phase), reading, c);
  }

  /** Only entries have attestations. */
  predicate AttestedEntries(d: Disk) {
    AttestedWithin(d.entries, d.durability)
  }

  lemma StepKeepsAttested(s: System, step: Step, c: Contract)
    requires AttestedEntries(s.disk)
    ensures AttestedEntries(Do(s, step, c).disk)
  {
    var d := s.disk;
    match step
    case AppendPrediction(e) =>
      forall id | HasId(d.entries, id) ensures HasId(d.entries + [e], id) {
        var i :| 0 <= i < |d.entries| && d.entries[i].id == id;
        assert (d.entries + [e])[i].id == id;
      }
      hide HasId, HasKey;
    case Attest(i, at) =>
      if i < |d.entries| { assert HasId(d.entries, d.entries[i].id); }
      hide HasId;
    case _ =>
      hide AttestedEntries, Micro, HasKey, HasId, OnTime, Late, RecordPending, RecordExcluded;
      SameAttestations(d, Do(s, step, c).disk);
  }

  lemma SameAttestations(d: Disk, d': Disk)
    requires AttestedEntries(d) && d'.entries == d.entries && d'.durability == d.durability
    ensures AttestedEntries(d')
  {
  }

  lemma {:induction false} AlwaysAttested(start: int, steps: seq<Step>, c: Contract)
    ensures AttestedEntries(Exec(Init(start), steps, c).disk)
  {
    hide Do;
    if steps != [] {
      AlwaysAttested(start, steps[..|steps| - 1], c);
      StepKeepsAttested(Exec(Init(start), steps[..|steps| - 1], c), steps[|steps| - 1], c);
    }
  }

  /** Over every run: loading the ledger kills the linker exactly when a prediction was
      appended and attested after the predictions were read. */
  lemma LoadRaisesExactly(start: int, steps: seq<Step>, reading: int, c: Contract)
    requires var s := Exec(Init(start), steps, c);
             s.process.Listed? && s.now <= reading
    ensures var s := Exec(Init(start), steps, c);
            var t := Do(s, Advance(reading), c);
            var read := s.process.entries;
            && read <= s.disk.entries && t.disk == s.disk
            && (t.process.Down? <==>
                  exists j :: |read| <= j < |s.disk.entries| && s.disk.entries[j].id in s.disk.durability)
  {
    Reachable(start, steps, c);
    AlwaysAttested(start, steps, c);
    var s := Exec(Init(start), steps, c);
    hide Exec;
    var d, read := s.disk, s.process.entries;
    forall id | id in d.durability
      ensures HasId(read, id) <==> !exists j :: |read| <= j < |d.entries| && d.entries[j].id == id
    {
      assert HasId(d.entries, id);
      var i :| 0 <= i < |d.entries| && d.entries[i].id == id;
      if i < |read| { assert read[i].id == id; }
    }
    hide EntryOk, LinkOk, CaseOk, Decided, UniqueLinks;
  }

  // ------------------------------------------------------------- the fatal latch

  /** A link is written in a latched generation exactly when another process
      latched it during that very pass: the pass itself never links after its own
      latch, and none begins once the latch is set. */
  lemma LinkAfterLatch(s: System, reading: int, c: Contract)
    requires Inv(s, c) && Do(s, Advance(reading), c).disk.links != s.disk.links
    ensures s.disk.ledger.fatal <==> s.latched
  {
    var v, i, phase := s.process.view, s.process.index, s.process.phase;
    LinkStep(v, Pass(s.disk.links, s.disk.ledger, i, phase), reading, c);
    hide DiskInv, PassInv, Micro;
  }

  lemma LinkStep(v: View, p: Pass, now: int, c: Contract)
    requires !Terminal(p.phase)
    ensures Micro(v, p, now, c).links != p.links ==>
              && p.phase.Append? && now <= c.deadline && p.index < |v.entries|
              && var e, links := v.entries[p.index], Micro(v, p, now, c).links;
                 && |links| == |p.links| + 1 && p.links <= links && !Linked(p.links, e.id)
                 && links[|p.links|].prediction == e.id && links[|p.links|].key == e.key
                 && links[|p.links|].cutoff == e.cutoff && links[|p.links|].linkedAt == now
  {
    hide Complete, Linked, OutcomeUsed, BoundElsewhere, OutcomeElsewhere, AllAdmitted, Realized, Ends, Feasible,
      FindLink;
  }

  /** In a latched generation: a pass that has not yet failed can no longer append. */
  predicate NoMoreLinks(s: System) {
    Begun(s.process) ==>
      s.process.Passing? &&
      (|| Terminal(s.process.phase)
      || (s.process.phase.Certify? && s.process.index < |s.process.view.entries|
          && var e := s.process.view.entries[s.process.index];
             CaseOf(s.disk.ledger, e.key) == Some(Pending(e.id))))
  }

  /** What has become of a latched generation since it was as in `s`. */
  predicate Frozen(s: System, t: System) {
    && t.disk.ledger == s.disk.ledger
    && ((t.disk.links == s.disk.links && (Begun(t.process) ==> Begun(s.process)))
        || (Begun(s.process) && s.disk.links <= t.disk.links && |t.disk.links| == |s.disk.links| + 1
            && NoMoreLinks(t)))
  }

  /** One step of a pass after the latch. */
  lemma LatchedMicro(d: Disk, v: View, i: nat, phase: Phase, own: Cases, now: int, reading: int, c: Contract)
    requires PassSound(d, v, i, phase, own, now, c) && !Terminal(phase) && d.ledger.fatal
    ensures var q := Micro(v, Pass(d.links, d.ledger, i, phase), reading, c);
            && q.ledger == d.ledger
            && (q.links == d.links
                || (phase.Append? && q.index == i < |v.entries| && q.phase.Certify? && d.links <= q.links
                    && |q.links| == |d.links| + 1
                    && CaseOf(d.ledger, v.entries[i].key) == Some(Pending(v.entries[i].id))))
            && (phase.Certify? && CaseOf(d.ledger, v.entries[i].key) == Some(Pending(v.entries[i].id)) ==>
                  Terminal(q.phase))
  {
    if i < |v.entries| { AtEntry(d, v, i, own, now, c); }
    hide DiskInv, EntryOk, CaseOk, Submap, Complete, Realized, AllAdmitted, LinkFor, Linked, OutcomeUsed,
      BoundElsewhere, OutcomeElsewhere, Feasible, FindLink;
  }

  lemma LinkerStaysFrozen(s: System, t: System, reading: int, c: Contract)
    requires Inv(t, c) && t.disk.ledger.fatal && Frozen(s, t)
    ensures Frozen(s, Do(t, Advance(reading), c))
  {
    if t.process.Passing? && !Terminal(t.process.phase) {
      LatchedMicro(t.disk, t.process.view, t.process.index, t.process.phase, t.own, t.now, reading, c);
    }
    hide DiskInv, PhaseInv, Submap, Micro;
  }

  lemma OthersStayFrozen(s: System, t: System, step: Step, c: Contract)
    requires t.disk.ledger.fatal && Frozen(s, t) && !step.Advance?
    ensures Frozen(s, Do(t, step, c))
  {
    OthersKeep(t, step, c);
    LatchedLedger(t, step, c);
    hide Do;
  }

  /** Every accounting call is refused, or changes nothing. */
  lemma LatchedLedger(t: System, step: Step, c: Contract)
    requires t.disk.ledger.fatal && !step.Advance?
    ensures Do(t, step, c).disk.ledger == t.disk.ledger
  {
    hide HasKey, HasId, OnTime, Late, BoundElsewhere;
  }

  lemma {:induction false} StaysFrozen(s: System, more: seq<Step>, c: Contract)
    requires Inv(s, c) && s.disk.ledger.fatal
    ensures Inv(Exec(s, more, c), c) && Frozen(s, Exec(s, more, c))
  {
    hide Do, Inv, NoMoreLinks;
    if more != [] {
      var n := |more| - 1;
      var t := Exec(s, more[..n], c);
      StaysFrozen(s, more[..n], c);
      hide Frozen;
      FrozenFacts(s, t);
      DoInv(t, more[n], c);
      if more[n].Advance? { LinkerStaysFrozen(s, t, more[n].reading, c); } else { OthersStayFrozen(s, t, more[n], c); }
    }
  }

  lemma FrozenFacts(s: System, t: System)
    requires Frozen(s, t)
    ensures t.disk.ledger == s.disk.ledger
    ensures s.disk.links <= t.disk.links && |t.disk.links| <= |s.disk.links| + 1
    ensures t.disk.links != s.disk.links ==> Begun(s.process)
  {
  }

  /** Over every run: once the generation is latched no case ever changes again, and at
      most one more link is ever written, by the pass that was then under way. */
  lemma LatchFreezes(start: int, steps: seq<Step>, more: seq<Step>, c: Contract)
    requires Exec(Init(start), steps, c).disk.ledger.fatal
    ensures var s := Exec(Init(start), steps, c);
            var t := Exec(s, more, c);
            && t.disk.ledger == s.disk.ledger
            && s.disk.links <= t.disk.links && |t.disk.links| <= |s.disk.links| + 1
            && (t.disk.links != s.disk.links ==> Begun(s.process))
  {
    hide Exec, Inv, Frozen;
    var s := Exec(Init(start), steps, c);
    Reachable(start, steps, c);
    StaysFrozen(s, more, c);
    FrozenFacts(s, Exec(s, more, c));
  }
}
