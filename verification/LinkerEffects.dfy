/** What the linker achieves and publishes, in plain numbers and in the terms of the
    recorded cases and links. */
module LinkerEffects {

  import opened Options
  import opened Coordinator
  import opened OutcomeLinker
  import opened LinkerSystem
  import opened LinkerSafety
  import opened LinkerTheorems
  import opened LinkerRecovery

  // ------------------------------------------------------- what becomes of an entry

  /** The twelve five-minute bars after the cutoff are there. */
  predicate HasBars(bars: Bars, e: Entry) {
    forall k :: 1 <= k <= 12 ==> Slot(e.key.symbol, e.cutoff + 300 * k) in bars
  }

  /** The link and the clean case of an entry, over exactly those bars. */
  predicate Delivered(v: View, d: Disk, e: Entry, link: Link)
    requires HasBars(v.bars, e)
  {
    && link in d.links && link.prediction == e.id && link.key == e.key && link.cutoff == e.cutoff
    && |link.bars| == 12
    && (forall k :: 1 <= k <= 12 ==>
          link.bars[k - 1] == v.bars[Slot(e.key.symbol, e.cutoff + 300 * k)] && link.bars[k - 1].admitted)
    && link.outcome == OutcomeOf(e.id, link.bars)
    && e.key in d.ledger.cases && d.ledger.cases[e.key] == Clean(e.id, link.outcome)
  }

  /** A prediction durable more than 300 seconds after its cutoff is excluded; another one
      whose bars are there has its link and its clean case. */
  ghost predicate HasBecome(v: View, d: Disk, e: Entry) {
    e.id in v.durability ==>
      if v.durability[e.id] > e.cutoff + 300 then
        e.key in d.ledger.cases && d.ledger.cases[e.key] == Excluded(Some(e.id))
      else HasBars(v.bars, e) ==> exists link :: Delivered(v, d, e, link)
  }

  lemma BarsAreComplete(bars: Bars, e: Entry)
    ensures HasBars(bars, e) <==> Complete(bars, e)
  {
    if Complete(bars, e) {
      forall k | 1 <= k <= 12 ensures Slot(e.key.symbol, e.cutoff + 300 * k) in bars {
        assert SlotOf(e, k - 1) in bars;
      }
    }
    if HasBars(bars, e) {
      forall i | 0 <= i < HORIZON ensures SlotOf(e, i) in bars {
        assert Slot(e.key.symbol, e.cutoff + 300 * (i + 1)) in bars;
      }
    }
  }

  lemma SettledHasBecome(v: View, d: Disk, own: Cases, now: int, c: Contract, e: Entry)
    requires DiskInv(d, own, now, c) && e in d.entries && Settled(v, d, e)
    requires Submap(v.durability, d.durability) && Submap(v.bars, d.bars)
    ensures HasBecome(v, d, e)
  {
    BarsAreComplete(v.bars, e);
    if e.id in v.durability && v.durability[e.id] <= e.cutoff + 300 && HasBars(v.bars, e) {
      var link :| CleanBy(d, e, link);
      LinkEntry(d, own, now, c, link, e);
      RealizedStable(v.bars, d.bars, e);
      LinkOfIsExact(d, link, e, c);
      hide DiskInv, Settled, LinkOf;
      forall k | 1 <= k <= 12
        ensures link.bars[k - 1] == v.bars[Slot(e.key.symbol, e.cutoff + 300 * k)] && link.bars[k - 1].admitted
      {
        assert link.ends[k - 1] == e.cutoff + 300 * k;
      }
      assert Delivered(v, d, e, link);
    }
  }

  /** Over every run, whatever the other processes do meanwhile: when a pass has come to
      its end without failure by the deadline, every prediction it read has become what its
      attestation and its bars say. */
  lemma PassDelivers(start: int, steps: seq<Step>, c: Contract)
    requires var s := Exec(Init(start), steps, c);
             s.process.Passing? && s.process.phase == Finished(false) && s.now <= c.deadline
    ensures var s := Exec(Init(start), steps, c);
            forall j :: 0 <= j < |s.process.view.entries| ==>
              HasBecome(s.process.view, s.disk, s.process.view.entries[j])
  {
    PassSettlesItsView(start, steps, c);
    Reachable(start, steps, c);
    var s := Exec(Init(start), steps, c);
    hide Exec, DiskInv, Settled, HasBecome, Progress;
    forall j | 0 <= j < |s.process.view.entries|
      ensures HasBecome(s.process.view, s.disk, s.process.view.entries[j])
    {
      assert s.disk.entries[j] == s.process.view.entries[j];
      SettledHasBecome(s.process.view, s.disk, s.own, s.now, c, s.process.view.entries[j]);
    }
  }

  /** Over every run: no prediction durable more than 300 seconds after its cutoff, or not
      durable at all, has a link; and by the deadline no other one is excluded. */
  lemma LateExactly(start: int, steps: seq<Step>, c: Contract, e: Entry)
    requires e in Exec(Init(start), steps, c).disk.entries
    ensures var s := Exec(Init(start), steps, c);
            && (Linked(s.disk.links, e.id) ==>
                  e.id in s.disk.durability && s.disk.durability[e.id] <= e.cutoff + 300)
            && (s.now <= c.deadline && e.key in s.disk.ledger.cases && s.disk.ledger.cases[e.key].Excluded? ==>
                  e.id in s.disk.durability && s.disk.durability[e.id] > e.cutoff + 300)
  {
    Reachable(start, steps, c);
    var s := Exec(Init(start), steps, c);
    hide Exec;
    assert EntryOk(s.disk, e, s.now > c.deadline);
    hide DiskInv;
  }

  // ----------------------------------------------------------- the link ledger

  /** No two links share a prediction or an outcome. */
  predicate DistinctLinks(links: seq<Link>) {
    forall i, j :: 0 <= i < j < |links| ==>
      links[i].prediction != links[j].prediction && links[i].outcome != links[j].outcome
  }

  /** Whatever the state of a pass, its steps keep the links distinct. */
  lemma AppendKeepsDistinct(v: View, p: Pass, now: int, c: Contract)
    requires !Terminal(p.phase) && DistinctLinks(p.links)
    ensures DistinctLinks(Micro(v, p, now, c).links)
  {
    hide Complete, BoundElsewhere, OutcomeElsewhere, AllAdmitted, Realized, Ends, Feasible, FindLink;
    if p.phase.Append? && p.index < |v.entries| {
      var e := v.entries[p.index];
      if !Linked(p.links, e.id) {
        forall i | 0 <= i < |p.links| ensures p.links[i].prediction != e.id {}
      }
    }
  }

  // ------------------------------------------------------------ published counts

  /** The entry is neither linked nor excluded under its own identity. */
  predicate Waits(d: Disk, e: Entry) {
    && (forall i :: 0 <= i < |d.links| ==> d.links[i].prediction != e.id)
    && (forall k :: k in d.ledger.cases ==> d.ledger.cases[k] != Excluded(Some(e.id)))
  }

  function Waiting(entries: seq<Entry>, d: Disk): nat {
    if entries == [] then 0
    else Waiting(entries[..|entries| - 1], d) + if Waits(d, entries[|entries| - 1]) then 1 else 0
  }

  predicate IsExcluded(d: Disk, e: Entry) {
    exists k :: k in d.ledger.cases && d.ledger.cases[k] == Excluded(Some(e.id))
  }

  function ExcludedEntries(entries: seq<Entry>, d: Disk): nat {
    if entries == [] then 0
    else ExcludedEntries(entries[..|entries| - 1], d) + if IsExcluded(d, entries[|entries| - 1]) then 1 else 0
  }

  lemma IdSets(d: Disk, e: Entry)
    ensures e.id in Elements(LinkIds(d.links)) <==> exists i :: 0 <= i < |d.links| && d.links[i].prediction == e.id
    ensures e.id in ExcludedIds(d.ledger.cases) <==> IsExcluded(d, e)
  {
    if e.id in Elements(LinkIds(d.links)) {
      var i :| 0 <= i < |d.links| && LinkIds(d.links)[i] == e.id;
      assert d.links[i].prediction == e.id;
    }
    if i :| 0 <= i < |d.links| && d.links[i].prediction == e.id { assert LinkIds(d.links)[i] == e.id; }
    if IsExcluded(d, e) {
      var k :| k in d.ledger.cases && d.ledger.cases[k] == Excluded(Some(e.id));
      assert d.ledger.cases[k].predicted.value == e.id;
    }
  }

  /** The published count of pending outcomes is that of the entries that wait. */
  lemma {:induction false} PendingIsWaiting(entries: seq<Entry>, d: Disk)
    ensures PendingOutcomes(EntryIds(entries), Elements(LinkIds(d.links)), ExcludedIds(d.ledger.cases))
         == Waiting(entries, d)
  {
    if entries != [] {
      var n := |entries| - 1;
      PendingIsWaiting(entries[..n], d);
      assert EntryIds(entries)[..n] == EntryIds(entries[..n]) && EntryIds(entries)[n] == entries[n].id;
      IdSets(d, entries[n]);
      hide Elements, ExcludedIds, LinkIds;
    }
  }

  lemma {:induction false} ExcludedAreEntries(entries: seq<Entry>, d: Disk)
    requires Distinct(EntryIds(entries))
    ensures |ExcludedIds(d.ledger.cases) * Elements(EntryIds(entries))| == ExcludedEntries(entries, d)
  {
    if entries == [] {
      assert Elements(EntryIds(entries)) == {};
    } else {
      var n := |entries| - 1;
      var ids, init := EntryIds(entries), EntryIds(entries[..n]);
      assert ids[..n] == init && ids[n] == entries[n].id;
      LastIsNew(ids);
      ExcludedAreEntries(entries[..n], d);
      IdSets(d, entries[n]);
      hide Elements, Distinct, IsExcluded;
      OneMoreCommon(ExcludedIds(d.ledger.cases), Elements(init), entries[n].id);
    }
  }

  lemma OneMoreCommon(a: set<string>, b: set<string>, id: string)
    requires id !in b
    ensures |a * (b + {id})| == |a * b| + if id in a then 1 else 0
  {
    if id in a {
      assert a * (b + {id}) == (a * b) + {id};
    } else {
      assert a * (b + {id}) == a * b;
    }
  }

  /** Over every run, of the entries on the disk and of those a pass under way has read:
      each is linked, excluded or waiting, and the published count is of those waiting. */
  lemma StatusCounts(start: int, steps: seq<Step>, c: Contract)
    ensures var s := Exec(Init(start), steps, c);
            && CountsOver(s.disk.entries, s.disk)
            && (s.process.Passing? ==> CountsOver(s.process.view.entries, s.disk))
  {
    EntriesSplit(start, steps, c);
    Reachable(start, steps, c);
    var s := Exec(Init(start), steps, c);
    hide Exec, CountsOver, SplitOver, DiskInv;
    SplitCounts(s.disk.entries, s.disk, s.own, s.now, c);
    if s.process.Passing? { SplitCounts(s.process.view.entries, s.disk, s.own, s.now, c); }
  }

  predicate CountsOver(entries: seq<Entry>, d: Disk) {
    && |entries| == |d.links| + ExcludedEntries(entries, d) + Waiting(entries, d)
    && PendingOutcomes(EntryIds(entries), Elements(LinkIds(d.links)), ExcludedIds(d.ledger.cases))
       == Waiting(entries, d)
  }

  lemma SplitCounts(entries: seq<Entry>, d: Disk, own: Cases, now: int, c: Contract)
    requires DiskInv(d, own, now, c) && entries <= d.entries && SplitOver(entries, d)
    ensures CountsOver(entries, d)
  {
    DistinctIds(entries, d, own, now, c);
    PendingIsWaiting(entries, d);
    ExcludedAreEntries(entries, d);
    hide DiskInv, Distinct, Elements, ExcludedIds, PendingOutcomes, LinkIds, EntryIds;
  }

  // ------------------------------------------------------------ published states

  /** A published end says what was: the deadline had come, or the generation was latched,
      and the linker is down for good. */
  ghost predicate StatusIsTrue(s: System, c: Contract) {
    && (s.status == Some(DeadlineStatus) ==> s.now >= c.deadline && s.process.Down?)
    && (s.status == Some(FatalStatus) ==> s.disk.ledger.fatal && s.process.Down?)
    && (s.process.Passing? && s.process.phase == Finished(true) ==> s.disk.ledger.fatal)
  }

  /** What a step publishes, and that nothing follows a published end. */
  predicate Publishes(s: System, step: Step, t: System, c: Contract) {
    var moves := step.Advance? && step.reading >= s.now;
    && (if moves && s.process.Head? && step.reading >= c.deadline then
          t.status == Some(DeadlineStatus) && t.process.Down?
        else if moves && s.process.Head? && s.disk.ledger.fatal then
          t.status == Some(FatalStatus) && t.process.Down?
        else if moves && s.process.Passing? && s.process.phase == Finished(true) then
          t.status == Some(FatalStatus) && t.process.Down?
        else if moves && s.process.Passing? && s.process.phase == Finished(false) then
          t.status == Some(Active) && t.process.Head?
        else t.status == s.status)
    && (s.status == Some(DeadlineStatus) || s.status == Some(FatalStatus) ==> t.status == s.status && t.process.Down?)
  }

  lemma LinkerStatusTrue(s: System, reading: int, c: Contract)
    requires Inv(s, c) && StatusIsTrue(s, c)
    ensures StatusIsTrue(Do(s, Advance(reading), c), c)
  {
    if s.process.Passing? && !Terminal(s.process.phase) && s.now <= reading {
      FailsLatched(s.disk, s.process.view, s.process.index, s.process.phase, s.now, reading, c);
    }
    hide DiskInv, PassInv, Micro, AttestedWithin;
  }

  lemma OthersStatusTrue(s: System, step: Step, c: Contract)
    requires StatusIsTrue(s, c) && !step.Advance?
    ensures StatusIsTrue(Do(s, step, c), c) && Do(s, step, c).status == s.status
  {
    hide HasKey, HasId, OnTime, Late, BoundElsewhere;
  }

  /** Over every run: a linker that comes to the top of its loop at or after the deadline
      publishes that and is down, and before it, in a latched generation, publishes the
      failure; a pass that ends publishes its own end; no other step publishes anything; and
      a published end is true and final. */
  lemma {:induction false} StatusPublished(start: int, steps: seq<Step>, step: Step, c: Contract)
    ensures var s := Exec(Init(start), steps, c);
            StatusIsTrue(s, c) && Publishes(s, step, Do(s, step, c), c)
    decreases |steps|
  {
    hide StatusIsTrue, Inv;
    if steps == [] {
      NothingPublished(start, c);
    } else {
      var n := |steps| - 1;
      StatusPublished(start, steps[..n], steps[n], c);
      Reachable(start, steps[..n], c);
      var s := Exec(Init(start), steps[..n], c);
      if steps[n].Advance? { LinkerStatusTrue(s, steps[n].reading, c); } else { OthersStatusTrue(s, steps[n], c); }
    }
    hide Exec;
    StatusStep(Exec(Init(start), steps, c), step, c);
  }

  lemma NothingPublished(start: int, c: Contract)
    ensures StatusIsTrue(Init(start), c)
  {
  }

  lemma StatusStep(s: System, step: Step, c: Contract)
    requires StatusIsTrue(s, c)
    ensures Publishes(s, step, Do(s, step, c), c)
  {
    if !step.Advance? { OthersStatusTrue(s, step, c); }
    hide Micro, HasKey, HasId, OnTime, Late, BoundElsewhere, AttestedWithin, RecordPending, RecordExcluded;
  }
}
