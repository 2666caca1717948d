/** What every reachable state of the linker's system satisfies. */
module LinkerSafety {

  import opened Options
  import opened Coordinator
  import opened OutcomeLinker
  import opened LinkerSystem

  lemma SameEntry(entries: seq<Entry>, e: Entry, f: Entry)
    requires UniqueEntries(entries) && e in entries && f in entries
    ensures e.key == f.key ==> e == f
    ensures e.id == f.id ==> e == f
  {
    var i :| 0 <= i < |entries| && entries[i] == e;
    var j :| 0 <= j < |entries| && entries[j] == f;
    if i < j { assert entries[i].id != entries[j].id && entries[i].key != entries[j].key; }
    if j < i { assert entries[j].id != entries[i].id && entries[j].key != entries[i].key; }
  }

  lemma SameLink(links: seq<Link>, a: Link, b: Link)
    requires UniqueLinks(links) && a in links && b in links
    ensures a.prediction == b.prediction ==> a == b
  {
    var i :| 0 <= i < |links| && links[i] == a;
    var j :| 0 <= j < |links| && links[j] == b;
    if i < j { assert links[i].prediction != links[j].prediction; }
    if j < i { assert links[j].prediction != links[i].prediction; }
  }

  lemma DiskAt(d: Disk, own: Cases, now: int, c: Contract, e: Entry)
    requires DiskInv(d, own, now, c) && e in d.entries
    ensures EntryOk(d, e, now > c.deadline) && CaseOk(d, e.key)
  {
  }

  /** Every link belongs to one entry, and to no other. */
  lemma LinkEntry(d: Disk, own: Cases, now: int, c: Contract, link: Link, e: Entry)
    requires DiskInv(d, own, now, c) && link in d.links && e in d.entries && link.prediction == e.id
    ensures LinkOf(d, link, e, c)
  {
    assert LinkOk(d, link, c);
    var f :| f in d.entries && LinkOf(d, link, f, c);
    SameEntry(d.entries, e, f);
  }

  function WithCase(d: Disk, key: Key, case': Case): Disk {
    d.(ledger := d.ledger.(cases := d.ledger.cases[key := case']))
  }

  predicate OwnAfter(d: Disk, own: Cases, own': Cases, key: Key, case': Case) {
    own' == own[key := case'] || (own' == own && Decided(d, key))
  }

  lemma OwnStays(d: Disk, own: Cases, own': Cases, now: int, c: Contract, key: Key, case': Case)
    requires DiskInv(d, own, now, c) && OwnAfter(d, own, own', key, case')
    ensures forall k :: !Decided(WithCase(d, key, case'), k) ==>
              CaseOf(WithCase(d, key, case').ledger, k) == (if k in own' then Some(own'[k]) else None)
  {
    var d' := WithCase(d, key, case');
    forall k | !Decided(d', k)
      ensures CaseOf(d'.ledger, k) == (if k in own' then Some(own'[k]) else None)
    {
      DecidedByInputs(d, d', k);
    }
  }

  lemma DecidedByInputs(d: Disk, d': Disk, key: Key)
    requires d.entries == d'.entries && d.durability == d'.durability && d.bars == d'.bars
    ensures Decided(d, key) <==> Decided(d', key)
  {
    if Decided(d, key) {
      var e :| e in d.entries && e.key == key && DecidedEntry(d, e);
      assert DecidedEntry(d', e);
    }
    if Decided(d', key) {
      var e :| e in d'.entries && e.key == key && DecidedEntry(d', e);
      assert DecidedEntry(d, e);
    }
  }

  lemma PutPending(d: Disk, own: Cases, own': Cases, now: int, c: Contract, e: Entry)
    requires DiskInv(d, own, now, c) && e in d.entries && OnTime(d.durability, e) && e.key !in d.ledger.cases
    requires OwnAfter(d, own, own', e.key, Pending(e.id))
    ensures DiskInv(WithCase(d, e.key, Pending(e.id)), own', now, c)
  {
    var d' := WithCase(d, e.key, Pending(e.id));
    OwnStays(d, own, own', now, c, e.key, Pending(e.id));
    forall f | f in d'.entries ensures EntryOk(d', f, now > c.deadline) {
      SameEntry(d.entries, e, f);
      assert EntryOk(d, f, now > c.deadline);
    }
    forall link | link in d'.links ensures LinkOk(d', link, c) {
      assert LinkOk(d, link, c);
      var f :| f in d.entries && LinkOf(d, link, f, c);
      assert LinkOf(d', link, f, c);
    }
    forall key ensures CaseOk(d', key) {
      assert CaseOk(d, key);
      if key == e.key { assert EntryWith(d.entries, key, e.id); }
    }
    hide EntryOk, LinkOk, CaseOk, CaseOf, Decided;
  }

  /** Excluding an entry that is late, or on time but never linked by the deadline. */
  lemma PutExcluded(d: Disk, own: Cases, own': Cases, now: int, c: Contract, e: Entry)
    requires DiskInv(d, own, now, c) && e in d.entries
    requires (Late(d.durability, e) && e.key !in d.ledger.cases)
          || (OnTime(d.durability, e) && now > c.deadline && !Linked(d.links, e.id)
              && e.key in d.ledger.cases && d.ledger.cases[e.key] == Pending(e.id))
    requires OwnAfter(d, own, own', e.key, Excluded(Some(e.id)))
    ensures DiskInv(WithCase(d, e.key, Excluded(Some(e.id))), own', now, c)
  {
    var d' := WithCase(d, e.key, Excluded(Some(e.id)));
    OwnStays(d, own, own', now, c, e.key, Excluded(Some(e.id)));
    forall f | f in d'.entries ensures EntryOk(d', f, now > c.deadline) {
      SameEntry(d.entries, e, f);
      assert EntryOk(d, f, now > c.deadline);
    }
    forall link | link in d'.links ensures LinkOk(d', link, c) {
      assert LinkOk(d, link, c);
      var f :| f in d.entries && LinkOf(d, link, f, c);
      assert Linked(d.links, f.id);
      SameEntry(d.entries, e, f);
      assert EntryOk(d, e, now > c.deadline);
      assert LinkOf(d', link, f, c);
    }
    forall key ensures CaseOk(d', key) {
      assert CaseOk(d, key);
      if key == e.key { assert EntryWith(d.entries, key, e.id); }
    }
    hide EntryOk, LinkOk, CaseOk, CaseOf, Decided;
  }

  lemma PutClean(d: Disk, own: Cases, now: int, c: Contract, e: Entry, link: Link)
    requires DiskInv(d, own, now, c) && e in d.entries
    requires link in d.links && link.prediction == e.id
    requires e.key in d.ledger.cases && d.ledger.cases[e.key] == Pending(e.id)
    ensures DiskInv(WithCase(d, e.key, Clean(e.id, link.outcome)), own, now, c)
  {
    var d' := WithCase(d, e.key, Clean(e.id, link.outcome));
    LinkEntry(d, own, now, c, link, e);
    assert DecidedEntry(d, e);
    OwnStays(d, own, own, now, c, e.key, Clean(e.id, link.outcome));
    forall f | f in d'.entries ensures EntryOk(d', f, now > c.deadline) {
      SameEntry(d.entries, e, f);
      assert EntryOk(d, f, now > c.deadline);
    }
    forall l | l in d'.links ensures LinkOk(d', l, c) {
      assert LinkOk(d, l, c);
      var f :| f in d.entries && LinkOf(d, l, f, c);
      SameEntry(d.entries, e, f);
      if f == e { SameLink(d.links, l, link); }
      assert LinkOf(d', l, f, c);
    }
    forall key ensures CaseOk(d', key) {
      assert CaseOk(d, key);
      if key == e.key { assert EntryWith(d.entries, key, e.id); }
    }
    hide EntryOk, LinkOk, CaseOk, CaseOf, Decided;
  }

  function WithLink(d: Disk, link: Link): Disk {
    d.(links := d.links + [link])
  }

  lemma LinkedMore(links: seq<Link>, link: Link, id: string)
    ensures Linked(links + [link], id) <==> Linked(links, id) || link.prediction == id
  {
    var more := links + [link];
    if Linked(links, id) {
      var i :| 0 <= i < |links| && links[i].prediction == id;
      assert more[i].prediction == id;
    }
    if link.prediction == id { assert more[|links|].prediction == id; }
    if Linked(more, id) {
      var i :| 0 <= i < |more| && more[i].prediction == id;
      if i < |links| { assert links[i].prediction == id; }
    }
  }

  lemma PutLink(d: Disk, own: Cases, now: int, c: Contract, e: Entry, link: Link)
    requires DiskInv(d, own, now, c) && e in d.entries && LinkOf(d, link, e, c)
    requires d.ledger.cases[e.key] == Pending(e.id) && !Linked(d.links, e.id)
    ensures DiskInv(WithLink(d, link), own, now, c)
  {
    var d' := WithLink(d, link);
    forall f | f in d'.entries ensures EntryOk(d', f, now > c.deadline) {
      SameEntry(d.entries, e, f);
      LinkedMore(d.links, link, f.id);
      assert EntryOk(d, f, now > c.deadline);
    }
    forall l | l in d'.links ensures LinkOk(d', l, c) {
      if l == link {
        assert LinkOf(d', l, e, c);
      } else {
        assert LinkOk(d, l, c);
        var f :| f in d.entries && LinkOf(d, l, f, c);
        assert LinkOf(d', l, f, c);
      }
    }
    forall key ensures CaseOk(d', key) { assert CaseOk(d, key); }
    forall key | !Decided(d', key) ensures !Decided(d, key) { DecidedByInputs(d, d', key); }
    assert UniqueLinks(d'.links) by {
      forall i | 0 <= i < |d.links| ensures d.links[i].prediction != e.id {
      }
    }
    hide EntryOk, LinkOk, CaseOk, CaseOf, Decided, Linked;
  }

  /** Only the cases of the ledger matter, and the passing of time only helps. */
  lemma LedgerAndTime(d: Disk, d': Disk, own: Cases, now: int, later: int, c: Contract)
    requires DiskInv(d, own, now, c) && now <= later
    requires d' == d.(ledger := d'.ledger) && d'.ledger.cases == d.ledger.cases
    ensures DiskInv(d', own, later, c)
  {
    forall f | f in d'.entries ensures EntryOk(d', f, later > c.deadline) {
      assert EntryOk(d, f, now > c.deadline);
    }
    forall link | link in d'.links ensures LinkOk(d', link, c) {
      assert LinkOk(d, link, c);
      var f :| f in d.entries && LinkOf(d, link, f, c);
      assert LinkOf(d', link, f, c);
    }
    forall key ensures CaseOk(d', key) { assert CaseOk(d, key); }
    forall key | !Decided(d', key) ensures !Decided(d, key) { DecidedByInputs(d, d', key); }
    hide EntryOk, LinkOk, CaseOk, Decided;
  }

  lemma AddEntry(d: Disk, own: Cases, now: int, c: Contract, e: Entry)
    requires DiskInv(d, own, now, c)
    requires !HasKey(d.entries, e.key) && !HasId(d.entries, e.id)
    requires e.key !in d.ledger.cases && e.id !in d.durability
    ensures DiskInv(d.(entries := d.entries + [e]), own, now, c)
  {
    var d' := d.(entries := d.entries + [e]);
    forall i | 0 <= i < |d.links| ensures d.links[i].prediction != e.id {
      var link := d.links[i];
      assert LinkOk(d, link, c);
      var f :| f in d.entries && LinkOf(d, link, f, c);
      var j :| 0 <= j < |d.entries| && d.entries[j] == f;
      assert d.entries[j].id != e.id;
    }
    forall f | f in d'.entries ensures EntryOk(d', f, now > c.deadline) {
      if f in d.entries { assert EntryOk(d, f, now > c.deadline); } else { assert f == e; }
    }
    forall link | link in d'.links ensures LinkOk(d', link, c) {
      assert LinkOk(d, link, c);
      var f :| f in d.entries && LinkOf(d, link, f, c);
      assert f in d'.entries && LinkOf(d', link, f, c);
    }
    forall key ensures CaseOk(d', key) {
      assert CaseOk(d, key);
      if key in d.ledger.cases {
        match PredictionOf(d.ledger.cases[key])
        case None =>
          forall i | 0 <= i < |d'.entries| ensures d'.entries[i].key != key {
            if i < |d.entries| { assert d.entries[i].key != key; }
          }
        case Some(p) =>
          var f :| f in d.entries && f.key == key && f.id == p;
          assert f in d'.entries;
      }
    }
    forall key | Decided(d, key) ensures Decided(d', key) {
      var f :| f in d.entries && f.key == key && DecidedEntry(d, f);
      assert f in d'.entries && DecidedEntry(d', f);
    }
    hide EntryOk, LinkOk, CaseOk, Decided, CaseOf;
    forall i, j | 0 <= i < j < |d'.entries|
      ensures d'.entries[i].id != d'.entries[j].id && d'.entries[i].key != d'.entries[j].key
    {
      assert d'.entries[i] == d.entries[i];
      if j < |d.entries| { assert d'.entries[j] == d.entries[j]; }
    }
  }

  lemma AddAttestation(d: Disk, own: Cases, now: int, c: Contract, e: Entry, at: int)
    requires DiskInv(d, own, now, c) && e in d.entries && e.id !in d.durability
    ensures DiskInv(d.(durability := d.durability[e.id := at]), own, now, c)
  {
    var d' := d.(durability := d.durability[e.id := at]);
    forall f | f in d'.entries ensures EntryOk(d', f, now > c.deadline) {
      SameEntry(d.entries, e, f);
      assert EntryOk(d, f, now > c.deadline);
    }
    forall link | link in d'.links ensures LinkOk(d', link, c) {
      assert LinkOk(d, link, c);
      var f :| f in d.entries && LinkOf(d, link, f, c);
      assert LinkOf(d', link, f, c);
    }
    forall key ensures CaseOk(d', key) { assert CaseOk(d, key); }
    forall key | Decided(d, key) ensures Decided(d', key) {
      var f :| f in d.entries && f.key == key && DecidedEntry(d, f);
      assert DecidedEntry(d', f);
    }
    hide EntryOk, LinkOk, CaseOk, Decided, CaseOf;
  }

  predicate Submap<K, V(==)>(small: map<K, V>, large: map<K, V>) {
    forall k :: k in small ==> k in large && large[k] == small[k]
  }

  lemma RealizedStable(small: Bars, large: Bars, e: Entry)
    requires Submap(small, large) && Complete(small, e)
    ensures Complete(large, e) && Realized(large, e) == Realized(small, e)
  {
    forall i | 0 <= i < HORIZON ensures SlotOf(e, i) in large && large[SlotOf(e, i)] == small[SlotOf(e, i)] {
      assert SlotOf(e, i) in small;
    }
  }

  lemma AddBar(d: Disk, own: Cases, now: int, c: Contract, slot: Slot, bar: Bar)
    requires DiskInv(d, own, now, c) && slot !in d.bars
    ensures DiskInv(d.(bars := d.bars[slot := bar]), own, now, c)
  {
    var d' := d.(bars := d.bars[slot := bar]);
    assert Submap(d.bars, d'.bars);
    forall f | f in d'.entries ensures EntryOk(d', f, now > c.deadline) {
      assert EntryOk(d, f, now > c.deadline);
    }
    forall link | link in d'.links ensures LinkOk(d', link, c) {
      assert LinkOk(d, link, c);
      var f :| f in d.entries && LinkOf(d, link, f, c);
      RealizedStable(d.bars, d'.bars, f);
      assert LinkOf(d', link, f, c);
    }
    forall key ensures CaseOk(d', key) { assert CaseOk(d, key); }
    forall key | Decided(d, key) ensures Decided(d', key) {
      var f :| f in d.entries && f.key == key && DecidedEntry(d, f);
      if OnTime(d.durability, f) { RealizedStable(d.bars, d'.bars, f); }
      assert DecidedEntry(d', f);
    }
    hide EntryOk, LinkOk, CaseOk, Decided, CaseOf;
  }

  lemma PutMissed(d: Disk, own: Cases, now: int, c: Contract, key: Key)
    requires DiskInv(d, own, now, c) && !HasKey(d.entries, key) && key !in d.ledger.cases
    ensures DiskInv(WithCase(d, key, Excluded(None)), own[key := Excluded(None)], now, c)
  {
    var d' := WithCase(d, key, Excluded(None));
    OwnStays(d, own, own[key := Excluded(None)], now, c, key, Excluded(None));
    forall f | f in d'.entries ensures EntryOk(d', f, now > c.deadline) && f.key != key {
      assert EntryOk(d, f, now > c.deadline);
      var i :| 0 <= i < |d.entries| && d.entries[i] == f;
      assert d.entries[i].key != key;
    }
    forall link | link in d'.links ensures LinkOk(d', link, c) {
      assert LinkOk(d, link, c);
      var f :| f in d.entries && LinkOf(d, link, f, c);
      assert LinkOf(d', link, f, c);
    }
    forall k ensures CaseOk(d', k) { assert CaseOk(d, k); }
    hide EntryOk, LinkOk, CaseOk, Decided, CaseOf;
  }

  /** An accounting call that changes nothing may still be remembered. */
  lemma OwnAgain(d: Disk, own: Cases, now: int, c: Contract, key: Key, case': Case)
    requires DiskInv(d, own, now, c) && CaseOf(d.ledger, key) == Some(case')
    ensures DiskInv(d, own[key := case'], now, c)
  {
    hide EntryOk, LinkOk, CaseOk, Decided;
  }

  // ------------------------------------------------------------------ a pass

  /** The pass was begun on an earlier view, and stands where it should. */
  predicate PassInv(d: Disk, v: View, i: nat, phase: Phase, now: int, c: Contract) {
    && v.entries <= d.entries && Submap(v.durability, d.durability) && Submap(v.bars, d.bars)
    && i <= |v.entries|
    && (i == |v.entries| ==> phase.Examine? || Terminal(phase))
    && (i < |v.entries| ==> PhaseInv(d, v, v.entries[i], phase, now, c))
  }

  predicate PhaseInv(d: Disk, v: View, e: Entry, phase: Phase, now: int, c: Contract) {
    match phase
    case Examine => true
    case Excluding => Late(v.durability, e)
    case Opening(found) => found.None? && ToBeLinked(d, v, e)
    case Locking(found) => found.None? && ToBeLinked(d, v, e)
    case Coverage(late) =>
      && CaseOf(d.ledger, e.key) == Some(Excluded(Some(e.id)))
      && (if late then Late(v.durability, e) else now > c.deadline)
    case Recheck => CaseOf(d.ledger, e.key) == Some(Excluded(Some(e.id))) && Late(v.durability, e)
    case Append => ToBeLinked(d, v, e) && e.key in d.ledger.cases
    case Certify(link) =>
      link in d.links && link.prediction == e.id
    case Finished(_) => true
    case Died => true
  }

  /** An on-time entry with its admitted bars and no link, whose case can only be pending. */
  predicate ToBeLinked(d: Disk, v: View, e: Entry) {
    && OnTime(v.durability, e) && Complete(v.bars, e) && AllAdmitted(Realized(v.bars, e)) && !Linked(d.links, e.id)
    && (e.key in d.ledger.cases ==> d.ledger.cases[e.key] == Pending(e.id))
  }

  ghost predicate PassSound(d: Disk, v: View, i: nat, phase: Phase, own: Cases, now: int, c: Contract) {
    DiskInv(d, own, now, c) && PassInv(d, v, i, phase, now, c)
  }

  function Left(d: Disk, p: Pass): Disk {
    d.(links := p.links, ledger := p.ledger)
  }

  /** The entry a pass is at, on the disk as it is now. */
  lemma AtEntry(d: Disk, v: View, i: nat, own: Cases, now: int, c: Contract)
    requires DiskInv(d, own, now, c) && v.entries <= d.entries && i < |v.entries|
    requires Submap(v.durability, d.durability) && Submap(v.bars, d.bars)
    ensures var e := v.entries[i];
            && e in d.entries && EntryOk(d, e, now > c.deadline) && CaseOk(d, e.key)
            && (Late(v.durability, e) ==> Late(d.durability, e))
            && (OnTime(v.durability, e) ==> OnTime(d.durability, e))
            && (Complete(v.bars, e) ==> Complete(d.bars, e) && Realized(d.bars, e) == Realized(v.bars, e))
            && (e.key in d.ledger.cases ==> PredictionOf(d.ledger.cases[e.key]) == Some(e.id))
  {
    var e := v.entries[i];
    assert d.entries[i] == e;
    if Complete(v.bars, e) { RealizedStable(v.bars, d.bars, e); }
    if e.key in d.ledger.cases {
      assert CaseOk(d, e.key);
      assert EntryOk(d, e, now > c.deadline);
    }
  }

  lemma Certified(d: Disk, v: View, i: nat, own: Cases, now: int, c: Contract, link: Link)
    requires PassSound(d, v, i, Certify(link), own, now, c) && i < |v.entries|
    ensures var p := CertifyStep(Pass(d.links, d.ledger, i, Certify(link)), v.entries[i], link);
            PassSound(Left(d, p), v, p.index, p.phase, own, now, c)
  {
    var e := v.entries[i];
    AtEntry(d, v, i, own, now, c);
    LinkEntry(d, own, now, c, link, e);
    var p := CertifyStep(Pass(d.links, d.ledger, i, Certify(link)), e, link);
    hide DiskInv;
    if RecordClean(d.ledger, e.key, e.id, link.outcome).Raised? || d.ledger.cases[e.key].Clean? {
      LedgerAndTime(d, Left(d, p), own, now, now, c);
    } else {
      PutClean(d, own, now, c, e, link);
      assert Left(d, p) == WithCase(d, e.key, Clean(e.id, link.outcome));
    }
  }

  lemma LinkDecides(d: Disk, own: Cases, now: int, c: Contract, link: Link, e: Entry)
    requires DiskInv(d, own, now, c) && link in d.links && e in d.entries && link.prediction == e.id
    ensures Decided(d, e.key) && e.key in d.ledger.cases && !d.ledger.cases[e.key].Excluded?
  {
    LinkEntry(d, own, now, c, link, e);
    assert DecidedEntry(d, e);
  }

  /** A refused call leaves the ledger fatal and the accounting as it was. */
  lemma Refused(d: Disk, v: View, i: nat, phase: Phase, own: Cases, now: int, c: Contract)
    requires PassSound(d, v, i, phase, own, now, c)
    ensures PassSound(d.(ledger := Fail(d.ledger)), v, i, Finished(true), own, now, c)
  {
    LedgerAndTime(d, d.(ledger := Fail(d.ledger)), own, now, now, c);
    hide DiskInv, Submap;
  }

  lemma ExaminedLate(d: Disk, v: View, i: nat, own: Cases, now: int, c: Contract)
    requires PassSound(d, v, i, Examine, own, now, c) && i < |v.entries| && Late(v.durability, v.entries[i])
    ensures var p := ExamineStep(v, Pass(d.links, d.ledger, i, Examine), v.entries[i]);
            PassSound(Left(d, p), v, p.index, p.phase, own, now, c)
  {
    var e := v.entries[i];
    var p := ExamineStep(v, Pass(d.links, d.ledger, i, Examine), e);
    AtEntry(d, v, i, own, now, c);
    Refused(d, v, i, Examine, own, now, c);
    hide DiskInv, EntryOk, CaseOk, Submap;
  }

  /** Had another process excluded the late entry meanwhile, the call would be refused. */
  lemma ExcludedLate(d: Disk, v: View, i: nat, own: Cases, now: int, c: Contract)
    requires PassSound(d, v, i, Excluding, own, now, c) && i < |v.entries|
    ensures var p := ExcludeStep(Pass(d.links, d.ledger, i, Excluding), v.entries[i]);
            PassSound(Left(d, p), v, p.index, p.phase, own, now, c)
  {
    var e := v.entries[i];
    var p := ExcludeStep(Pass(d.links, d.ledger, i, Excluding), e);
    AtEntry(d, v, i, own, now, c);
    assert Decided(d, e.key) by { assert DecidedEntry(d, e); }
    if e.key !in d.ledger.cases { PutExcluded(d, own, own, now, c, e); }
    hide DiskInv, EntryOk, CaseOk, Submap;
    if RecordExcluded(d.ledger, e.key, Some(e.id)).Done? {
      assert Left(d, p) == WithCase(d, e.key, Excluded(Some(e.id)));
    } else {
      assert Left(d, p) == d;
    }
  }

  lemma OpenedPending(d: Disk, v: View, i: nat, found: Option<Link>, own: Cases, now: int, c: Contract)
    requires PassSound(d, v, i, Opening(found), own, now, c) && i < |v.entries|
    ensures var p := OpenStep(Pass(d.links, d.ledger, i, Opening(found)), v.entries[i], found);
            PassSound(Left(d, p), v, p.index, p.phase, own, now, c)
  {
    hide DiskInv, Submap, Complete, AllAdmitted, Linked;
    assert Left(d, OpenStep(Pass(d.links, d.ledger, i, Opening(found)), v.entries[i], found)) == d;
  }

  lemma LockedPending(d: Disk, v: View, i: nat, found: Option<Link>, own: Cases, now: int, c: Contract)
    requires PassSound(d, v, i, Locking(found), own, now, c) && i < |v.entries|
    ensures var p := LockStep(Pass(d.links, d.ledger, i, Locking(found)), v.entries[i], found);
            PassSound(Left(d, p), v, p.index, p.phase, own, now, c)
  {
    var e := v.entries[i];
    var p := LockStep(Pass(d.links, d.ledger, i, Locking(found)), e, found);
    AtEntry(d, v, i, own, now, c);
    Refused(d, v, i, Locking(found), own, now, c);
    assert Decided(d, e.key) by { assert DecidedEntry(d, e); }
    if e.key !in d.ledger.cases { PutPending(d, own, own, now, c, e); }
    hide DiskInv, EntryOk, CaseOk, Submap, Complete, AllAdmitted, Linked;
    if AppendPending(d.ledger, e.key, e.id).Done? {
      assert Left(d, p) == WithCase(d, e.key, Pending(e.id));
    }
  }

  lemma ExaminedLinked(d: Disk, v: View, i: nat, own: Cases, now: int, c: Contract)
    requires PassSound(d, v, i, Examine, own, now, c) && i < |v.entries| && OnTime(v.durability, v.entries[i])
    requires Linked(d.links, v.entries[i].id)
    ensures var p := ExamineStep(v, Pass(d.links, d.ledger, i, Examine), v.entries[i]);
            PassSound(Left(d, p), v, p.index, p.phase, own, now, c)
  {
    var e := v.entries[i];
    AtEntry(d, v, i, own, now, c);
    var link := FindLink(d.links, e.id).value;
    LinkDecides(d, own, now, c, link, e);
    Certified(d, v, i, own, now, c, link);
    hide DiskInv, EntryOk, CaseOk, Submap, RecordClean;
    assert CertifyStep(Pass(d.links, d.ledger, i, Certify(link)), e, link)
        == CertifyStep(Pass(d.links, d.ledger, i, Examine), e, link);
  }

  lemma ExaminedUnlinked(d: Disk, v: View, i: nat, own: Cases, now: int, c: Contract)
    requires PassSound(d, v, i, Examine, own, now, c) && i < |v.entries| && OnTime(v.durability, v.entries[i])
    requires !Linked(d.links, v.entries[i].id)
    ensures var p := ExamineStep(v, Pass(d.links, d.ledger, i, Examine), v.entries[i]);
            PassSound(Left(d, p), v, p.index, p.phase, own, now, c)
  {
    var e := v.entries[i];
    var p := ExamineStep(v, Pass(d.links, d.ledger, i, Examine), e);
    AtEntry(d, v, i, own, now, c);
    Refused(d, v, i, Examine, own, now, c);
    hide DiskInv, EntryOk, CaseOk, Submap, Complete, AllAdmitted, Linked;
  }

  lemma Examined(d: Disk, v: View, i: nat, own: Cases, now: int, c: Contract)
    requires PassSound(d, v, i, Examine, own, now, c) && i < |v.entries|
    ensures var p := ExamineStep(v, Pass(d.links, d.ledger, i, Examine), v.entries[i]);
            PassSound(Left(d, p), v, p.index, p.phase, own, now, c)
  {
    var e := v.entries[i];
    if e.id !in v.durability {
      hide DiskInv, Submap;
    } else if Late(v.durability, e) {
      ExaminedLate(d, v, i, own, now, c);
      hide DiskInv, PassInv, ExamineStep;
    } else if Linked(d.links, e.id) {
      ExaminedLinked(d, v, i, own, now, c);
      hide DiskInv, PassInv, ExamineStep;
    } else {
      ExaminedUnlinked(d, v, i, own, now, c);
      hide DiskInv, PassInv, ExamineStep;
    }
  }

  lemma Appended(d: Disk, v: View, i: nat, own: Cases, now: int, c: Contract)
    requires PassSound(d, v, i, Append, own, now, c) && i < |v.entries|
    ensures var p := AppendStep(v, Pass(d.links, d.ledger, i, Append), v.entries[i], now, c);
            PassSound(Left(d, p), v, p.index, p.phase, own, now, c)
  {
    var e := v.entries[i];
    var p := AppendStep(v, Pass(d.links, d.ledger, i, Append), e, now, c);
    AtEntry(d, v, i, own, now, c);
    Refused(d, v, i, Append, own, now, c);
    assert Decided(d, e.key) by { assert DecidedEntry(d, e); }
    if now > c.deadline {
      PutExcluded(d, own, own, now, c, e);
      hide DiskInv, EntryOk, CaseOk, Submap;
      if RecordExcluded(d.ledger, e.key, Some(e.id)).Done? {
        assert Left(d, p) == WithCase(d, e.key, Excluded(Some(e.id)));
      }
    } else {
      var link := LinkFor(e, Realized(v.bars, e), now);
      PutLink(d, own, now, c, e, link);
      hide DiskInv, EntryOk, CaseOk, Submap;
      if !p.phase.Finished? { assert Left(d, p) == WithLink(d, link); }
    }
  }

  /** Every step of a pass keeps the disk sound and the pass where it should be. */
  lemma MicroSound(d: Disk, v: View, i: nat, phase: Phase, own: Cases, now: int, reading: int, c: Contract)
    requires PassSound(d, v, i, phase, own, now, c) && now <= reading && !Terminal(phase)
    ensures var p := Micro(v, Pass(d.links, d.ledger, i, phase), reading, c);
            PassSound(Left(d, p), v, p.index, p.phase, own, reading, c)
  {
    LedgerAndTime(d, d, own, now, reading, c);
    if i < |v.entries| {
      var e := v.entries[i];
      AtEntry(d, v, i, own, reading, c);
      hide DiskInv, Submap, ExamineStep, ExcludeStep, OpenStep, LockStep, AppendStep, CertifyStep, EntryOk, CaseOk,
        Complete, AllAdmitted, Linked;
      match phase
      case Examine => Examined(d, v, i, own, reading, c);
      case Excluding => ExcludedLate(d, v, i, own, reading, c);
      case Opening(found) => OpenedPending(d, v, i, found, own, reading, c);
      case Locking(found) => LockedPending(d, v, i, found, own, reading, c);
      case Append => Appended(d, v, i, own, reading, c);
      case Certify(link) => Certified(d, v, i, own, reading, c, link);
      case Coverage(_) =>
        LedgerAndTime(d, d.(ledger := CheckCoverage(d.ledger, c)), own, reading, reading, c);
      case Recheck => Refused(d, v, i, phase, own, reading, c);
    }
  }

  // ------------------------------------------------------------- all processes

  ghost predicate Inv(s: System, c: Contract) {
    DiskInv(s.disk, s.own, s.now, c) && ProcessInv(s, c)
  }

  /** What a pass has read so far is part of the disk, and it began unlatched. */
  predicate ProcessInv(s: System, c: Contract) {
    && (Begun(s.process) && s.latched ==> s.disk.ledger.fatal)
    && (Begun(s.process) && s.disk.ledger.fatal ==>
          || s.latched
          || (s.process.Passing?
              && (s.now > c.deadline || s.process.phase.Recheck? || Terminal(s.process.phase))))
    && match s.process
       case Listed(entries) => entries <= s.disk.entries
       case Loaded(entries, durability) => entries <= s.disk.entries && Submap(durability, s.disk.durability)
       case Passing(v, i, phase) => PassInv(s.disk, v, i, phase, s.now, c)
       case _ => true
  }

  lemma InitInv(now: int, c: Contract)
    ensures Inv(Init(now), c)
  {
  }

  lemma ProceedInv(s: System, reading: int, c: Contract)
    requires Inv(s, c) && s.now <= reading
    ensures Inv(Proceed(s.(now := reading), reading, c), c)
  {
    LedgerAndTime(s.disk, s.disk, s.own, s.now, reading, c);
    hide DiskInv;
    match s.process
    case Passing(v, i, phase) =>
      if !Terminal(phase) {
        MicroSound(s.disk, v, i, phase, s.own, s.now, reading, c);
        MicroFatal(s.disk, v, i, phase, s.now, reading, c, s.latched);
        hide Micro, PassInv;
      }
    case _ =>
  }

  /** How a step of a pass can leave the generation latched. */
  lemma MicroFatal(d: Disk, v: View, i: nat, phase: Phase, now: int, reading: int, c: Contract, latched: bool)
    requires PassInv(d, v, i, phase, now, c) && now <= reading && !Terminal(phase)
    requires d.ledger.fatal ==> latched || now > c.deadline || phase.Recheck?
    ensures var p := Micro(v, Pass(d.links, d.ledger, i, phase), reading, c);
            && (d.ledger.fatal ==> p.ledger.fatal)
            && (p.ledger.fatal ==> latched || reading > c.deadline || p.phase.Recheck? || Terminal(p.phase))
  {
    hide Submap, Complete, Linked, OutcomeUsed, BoundElsewhere, OutcomeElsewhere, FindLink, AllAdmitted;
  }

  lemma PassKeeps(d: Disk, d': Disk, v: View, i: nat, phase: Phase, now: int, c: Contract)
    requires PassInv(d, v, i, phase, now, c)
    requires d.entries <= d'.entries && Submap(d.durability, d'.durability) && Submap(d.bars, d'.bars)
    requires d.links == d'.links
    requires OthersAdd(d, d')
    ensures PassInv(d', v, i, phase, now, c)
  {
  }

  /** The other processes change no case, and of an on-time entry they add the pending one. */
  predicate OthersAdd(d: Disk, d': Disk) {
    && Submap(d.ledger.cases, d'.ledger.cases)
    && forall e :: e in d.entries && OnTime(d.durability, e) && e.key in d'.ledger.cases && e.key !in d.ledger.cases ==>
         d'.ledger.cases[e.key] == Pending(e.id)
  }

  /** The steps of the candidate's own accounting. */
  lemma AccountInv(s: System, step: Step, c: Contract)
    requires Inv(s, c) && (step.OwnPending? || step.OwnExclusion? || step.Missed?)
    ensures Inv(Do(s, step, c), c)
  {
    var d := s.disk;
    match step
    case OwnPending(i) =>
      if i < |d.entries| && OnTime(d.durability, d.entries[i]) {
        var e := d.entries[i];
        if e.key !in d.ledger.cases {
          PutPending(d, s.own, s.own[e.key := Pending(e.id)], s.now, c, e);
          KeepPass(s, WithCase(d, e.key, Pending(e.id)), c);
        } else if d.ledger.cases[e.key] == Pending(e.id) {
          OwnAgain(d, s.own, s.now, c, e.key, Pending(e.id));
        }
      }
    case OwnExclusion(i) =>
      if i < |d.entries| && Late(d.durability, d.entries[i]) && d.entries[i].key !in d.ledger.cases {
        var e := d.entries[i];
        PutExcluded(d, s.own, s.own[e.key := Excluded(Some(e.id))], s.now, c, e);
        KeepPass(s, WithCase(d, e.key, Excluded(Some(e.id))), c);
      }
    case Missed(key) =>
      if !HasKey(d.entries, key) && key !in d.ledger.cases {
        PutMissed(d, s.own, s.now, c, key);
        KeepPass(s, WithCase(d, key, Excluded(None)), c);
      }
    hide DiskInv, PassInv, HasKey;
  }

  /** The steps that feed the linker, and the latch. */
  lemma InputInv(s: System, step: Step, c: Contract)
    requires Inv(s, c) && (step.AppendPrediction? || step.Attest? || step.AdmitBar? || step.Latch?)
    ensures Inv(Do(s, step, c), c)
  {
    var d, d' := s.disk, Do(s, step, c).disk;
    match step
    case AppendPrediction(e) =>
      if d' != d { AddEntry(d, s.own, s.now, c, e); KeepPass(s, d', c); }
    case Attest(i, at) =>
      if d' != d { AddAttestation(d, s.own, s.now, c, d.entries[i], at); KeepPass(s, d', c); }
    case AdmitBar(slot, bar) =>
      if d' != d { AddBar(d, s.own, s.now, c, slot, bar); KeepPass(s, d', c); }
    case Latch =>
      LedgerAndTime(d, d', s.own, s.now, s.now, c);
      KeepPass(s, d', c);
    hide DiskInv, PassInv, HasKey, HasId;
  }

  lemma DoInv(s: System, step: Step, c: Contract)
    requires Inv(s, c)
    ensures Inv(Do(s, step, c), c)
  {
    match step
    case Advance(reading) =>
      if s.now <= reading { ProceedInv(s, reading, c); }
      hide Inv, Proceed;
    case Crash => hide DiskInv, PassInv;
    case Start => hide DiskInv, PassInv;
    case OwnPending(_) => AccountInv(s, step, c); hide Inv, Do;
    case OwnExclusion(_) => AccountInv(s, step, c); hide Inv, Do;
    case Missed(_) => AccountInv(s, step, c); hide Inv, Do;
    case _ => InputInv(s, step, c); hide Inv, Do;
  }

  lemma KeepPass(s: System, d': Disk, c: Contract)
    requires Inv(s, c)
    requires s.disk.entries <= d'.entries && s.disk.links == d'.links
    requires Submap(s.disk.durability, d'.durability) && Submap(s.disk.bars, d'.bars)
    requires OthersAdd(s.disk, d')
    ensures match s.process
            case Listed(entries) => entries <= d'.entries
            case Loaded(entries, durability) => entries <= d'.entries && Submap(durability, d'.durability)
            case Passing(v, i, phase) => PassInv(d', v, i, phase, s.now, c)
            case _ => true
  {
    if s.process.Passing? {
      PassKeeps(s.disk, d', s.process.view, s.process.index, s.process.phase, s.now, c);
    }
  }

  /** Every state any interleaving of steps and crashes can reach is sound. */
  lemma {:induction false} Reachable(start: int, steps: seq<Step>, c: Contract)
    ensures Inv(Exec(Init(start), steps, c), c)
  {
    if steps == [] {
      InitInv(start, c);
    } else {
      Reachable(start, steps[..|steps| - 1], c);
      DoInv(Exec(Init(start), steps[..|steps| - 1], c), steps[|steps| - 1], c);
      hide Do, Inv;
    }
  }

  /** The other processes write no link and change no case that is recorded. */
  lemma OthersKeep(s: System, step: Step, c: Contract)
    requires !step.Advance?
    ensures var t := Do(s, step, c);
            && t.disk.links == s.disk.links && t.now == s.now
            && (forall k :: k in s.disk.ledger.cases ==> CaseOf(t.disk.ledger, k) == CaseOf(s.disk.ledger, k))
            && (Begun(t.process) ==> t.process == s.process)
  {
    hide HasKey, HasId, OnTime, Late, BoundElsewhere;
  }
}
