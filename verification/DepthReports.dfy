/** What a connection's report says of its messages, in the terms of the messages alone. */
module DepthReports {

  import opened Options
  import opened Extremes
  import opened PriceLevels
  import opened DepthBook
  import opened DepthTheorems

  // ------------------------------------------------------------ one message

  /** An object that is no depth update and carries no error code. */
  predicate IsControl(m: Message) {
    m.Other? && !m.hasCode
  }

  predicate IsPositive(raw: RawInt) {
    raw.Integer? && raw.value > 0
  }

  predicate ArePairs(raw: RawLevels) {
    raw.Levels? && forall i :: 0 <= i < |raw.items| ==> raw.items[i] != BadShape
  }

  /** A depth update of the symbol that can be read. */
  predicate IsUpdate(m: Message, symbol: string) {
    && m.DepthUpdate? && m.symbol == symbol
    && IsPositive(m.first) && IsPositive(m.last) && IsPositive(m.time) && m.first.value <= m.last.value
    && ArePairs(m.bids) && ArePairs(m.asks)
  }

  /** A message is ignored, accepted with the five fields it carries, or refused. */
  lemma DecodeIs(m: Message, symbol: string)
    ensures Decode(m, symbol).Ignored? <==> IsControl(m)
    ensures Decode(m, symbol).Accepted? <==> IsUpdate(m, symbol)
    ensures IsUpdate(m, symbol) ==>
              var ev := Decode(m, symbol).event;
              && ev.first == m.first.value && ev.last == m.last.value && ev.time == m.time.value
              && ev.bids == m.bids.items && ev.asks == m.asks.items
  {
  }

  /** Why a message is refused: the first of its faults in this order. */
  function MessageFault(m: Message, symbol: string): Error
    requires !IsControl(m) && !IsUpdate(m, symbol)
  {
    match m
    case Undecodable => NotJson
    case NonObject => NotObject
    case Other(_) => ProviderError
    case DepthUpdate(_, first, last, time, _, _) =>
      if m.symbol != symbol then UnexpectedSymbol
      else if !IsPositive(first) || !IsPositive(last) then InvalidInteger
      else if last.value < first.value then InvertedRange
      else if !IsPositive(time) then InvalidInteger
      else InvalidLevels
  }

  lemma RefusedFor(m: Message, symbol: string)
    requires !IsControl(m) && !IsUpdate(m, symbol)
    ensures Decode(m, symbol) == Rejected(MessageFault(m, symbol))
  {
  }

  // ------------------------------------------------------------ the messages

  /** The highest update ID of the snapshot and the updates so far. */
  function HighestId(id: int, ms: seq<Message>): int {
    if ms == [] then id
    else
      var before, m := HighestId(id, ms[..|ms| - 1]), ms[|ms| - 1];
      if m.DepthUpdate? && m.last.Integer? && m.last.value > before then m.last.value else before
  }

  /** The update goes beyond every ID before it. */
  predicate Raises(id: int, before: seq<Message>, m: Message) {
    m.DepthUpdate? && m.last.Integer? && m.last.value > HighestId(id, before)
  }

  /** The bid levels of the snapshot and of every update that raised the highest ID. */
  function Bids(s: Snapshot, id: int, ms: seq<Message>): seq<RawLevel>
    requires s.bids.Levels?
  {
    if ms == [] then s.bids.items
    else
      var init, m := ms[..|ms| - 1], ms[|ms| - 1];
      Bids(s, id, init) + if Raises(id, init, m) && m.bids.Levels? then m.bids.items else []
  }

  function Asks(s: Snapshot, id: int, ms: seq<Message>): seq<RawLevel>
    requires s.asks.Levels?
  {
    if ms == [] then s.asks.items
    else
      var init, m := ms[..|ms| - 1], ms[|ms| - 1];
      Asks(s, id, init) + if Raises(id, init, m) && m.asks.Levels? then m.asks.items else []
  }

  /** Standing levels of both sides, and none that cross. */
  ghost predicate Uncrossed(bids: seq<RawLevel>, asks: seq<RawLevel>) {
    AllLegible(bids) && AllLegible(asks) && !LevelsCross(bids, asks)
  }

  ghost predicate SomeStand(items: seq<RawLevel>)
    requires AllLegible(items)
  {
    exists i :: Stands(items, i)
  }

  ghost predicate SnapshotFits(s: Snapshot) {
    && IsPositive(s.lastUpdateId) && ArePairs(s.bids) && ArePairs(s.asks)
    && Uncrossed(s.bids.items, s.asks.items)
    && NoneRepeated(s.bids.items) && NoneRepeated(s.asks.items)
    && SomeStand(s.bids.items) && SomeStand(s.asks.items)
  }

  /** A control message, or an update that is old, or one that joins on to the IDs before
      it and leaves legible levels that do not cross. */
  ghost predicate Fits(s: Snapshot, id: int, before: seq<Message>, m: Message, symbol: string)
    requires s.bids.Levels? && s.asks.Levels?
  {
    || IsControl(m)
    || (&& IsUpdate(m, symbol) && m.time.value <= 253402300799999
        && (Raises(id, before, m) ==>
              && m.first.value <= HighestId(id, before) + 1
              && Uncrossed(Bids(s, id, before) + m.bids.items, Asks(s, id, before) + m.asks.items)))
  }

  ghost predicate AllFit(s: Snapshot, id: int, ms: seq<Message>, symbol: string)
    requires s.bids.Levels? && s.asks.Levels?
  {
    forall i :: 0 <= i < |ms| ==> Fits(s, id, ms[..i], ms[i], symbol)
  }

  predicate SomeRaises(id: int, ms: seq<Message>) {
    exists i :: 0 <= i < |ms| && Raises(id, ms[..i], ms[i])
  }

  lemma SnapshotIs(s: Snapshot)
    ensures FromSnapshot(s).Ready? <==> SnapshotFits(s)
    ensures SnapshotFits(s) ==>
              var b := FromSnapshot(s).book;
              && b.last == s.lastUpdateId.value
              && Fill(b.bids, true) == Apply(map[], s.bids.items) && Fill(b.asks, true) == Apply(map[], s.asks.items)
  {
    if ArePairs(s.bids) && ArePairs(s.asks) {
      var bids, asks := s.bids.items, s.asks.items;
      DistinctWhenNoneRepeated(bids);
      DistinctWhenNoneRepeated(asks);
      if ApplyDistinct(map[], bids).ok && ApplyDistinct(map[], asks).ok {
        ApplyDistinctIsApply(map[], bids);
        ApplyDistinctIsApply(map[], asks);
        CrossedByLevels(bids, asks);
        StandingIsHeld(bids);
        StandingIsHeld(asks);
      }
    }
    hide ApplyDistinct, Apply, AllLegible, NoneRepeated, LevelsCross, SomeStand, Crossed;
  }

  lemma StandingIsHeld(items: seq<RawLevel>)
    requires AllLegible(items)
    ensures SomeStand(items) <==> Apply(map[], items).side != map[]
  {
    hide Apply;
    var side := Apply(map[], items).side;
    if i :| Stands(items, i) { SideStands(items, items[i].price.value); }
    if side != map[] {
      HasPrice(side.Keys);
      var p: real :| p in side.Keys;
      SideStands(items, p);
    }
  }

  lemma LegibleSplit(a: seq<RawLevel>, b: seq<RawLevel>)
    ensures AllLegible(a + b) <==> AllLegible(a) && AllLegible(b)
  {
    assert forall i :: 0 <= i < |a| ==> (a + b)[i] == a[i];
    assert forall i :: 0 <= i < |b| ==> (a + b)[|a| + i] == b[i];
  }

  /** An event on the book that legible levels left. */
  lemma EventOn(book: Book, bids: seq<RawLevel>, asks: seq<RawLevel>, ev: Event)
    requires Apply(map[], bids) == Fill(book.bids, true) && Apply(map[], asks) == Fill(book.asks, true)
    ensures var a := ApplyEvent(book, ev);
            && (a.error.None? <==> Uncrossed(bids + ev.bids, asks + ev.asks))
            && (a.error.None? ==>
                  && a.book.last == ev.last && Apply(map[], bids + ev.bids) == Fill(a.book.bids, true)
                  && Apply(map[], asks + ev.asks) == Fill(a.book.asks, true))
  {
    AppliedWhenLegible(map[], bids);
    AppliedWhenLegible(map[], asks);
    AppliedWhenLegible(book.bids, ev.bids);
    AppliedWhenLegible(book.asks, ev.asks);
    LegibleSplit(bids, ev.bids);
    LegibleSplit(asks, ev.asks);
    ApplyConcat(map[], bids, ev.bids);
    ApplyConcat(map[], asks, ev.asks);
    if AllLegible(ev.bids) && AllLegible(ev.asks) { CrossedByLevels(bids + ev.bids, asks + ev.asks); }
    hide Apply, AllLegible, LevelsCross, Crossed;
  }

  lemma CoreStepFits(s: Snapshot, id: int, before: seq<Message>, m: Message, book: Book, symbol: string)
    requires s.bids.Levels? && s.asks.Levels? && book.last == HighestId(id, before)
    requires Apply(map[], Bids(s, id, before)) == Fill(book.bids, true)
    requires Apply(map[], Asks(s, id, before)) == Fill(book.asks, true)
    ensures var after := CoreStep(Core(book, false), m, symbol);
            var ms := before + [m];
            && (!after.failed <==> Fits(s, id, before, m, symbol))
            && (!after.failed ==>
                  && after.book.last == HighestId(id, ms)
                  && Apply(map[], Bids(s, id, ms)) == Fill(after.book.bids, true)
                  && Apply(map[], Asks(s, id, ms)) == Fill(after.book.asks, true))
  {
    hide Apply, ApplyEvent, Uncrossed, Decode, ArePairs, Bids, Asks, HighestId, IsPositive;
    DecodeIs(m, symbol);
    LevelsGrow(s, id, before, m);
    UpdateHasTime(m, symbol);
    if IsUpdate(m, symbol) {
      EventOn(book, Bids(s, id, before), Asks(s, id, before), Decode(m, symbol).event);
    }
    hide IsUpdate;
  }

  lemma LevelsGrow(s: Snapshot, id: int, before: seq<Message>, m: Message)
    requires s.bids.Levels? && s.asks.Levels?
    ensures var ms, raises := before + [m], Raises(id, before, m);
            && HighestId(id, ms) == (if raises then m.last.value else HighestId(id, before))
            && Bids(s, id, ms) == (if raises && m.bids.Levels? then Bids(s, id, before) + m.bids.items
                                else Bids(s, id, before))
            && Asks(s, id, ms) == (if raises && m.asks.Levels? then Asks(s, id, before) + m.asks.items
                                else Asks(s, id, before))
  {
    assert (before + [m])[..|before + [m]| - 1] == before;
  }

  lemma FitStep(s: Snapshot, id: int, init: seq<Message>, m: Message, symbol: string)
    requires s.bids.Levels? && s.asks.Levels?
    ensures AllFit(s, id, init + [m], symbol) <==> AllFit(s, id, init, symbol) && Fits(s, id, init, m, symbol)
    ensures SomeRaises(id, init + [m]) <==> SomeRaises(id, init) || Raises(id, init, m)
  {
    hide Fits, Raises;
    var ms := init + [m];
    assert ms[..|init|] == init && ms[|init|] == m;
    assert forall i :: 0 <= i < |init| ==> ms[..i] == init[..i] && ms[i] == init[i];
    if AllFit(s, id, ms, symbol) {
      forall i | 0 <= i < |init| ensures Fits(s, id, init[..i], init[i], symbol) {
        assert Fits(s, id, ms[..i], ms[i], symbol);
      }
      assert Fits(s, id, ms[..|init|], ms[|init|], symbol);
    }
    if SomeRaises(id, init) {
      var i :| 0 <= i < |init| && Raises(id, init[..i], init[i]);
      assert Raises(id, ms[..i], ms[i]);
    }
    if Raises(id, init, m) { assert Raises(id, ms[..|init|], ms[|init|]); }
    if SomeRaises(id, ms) {
      var i :| 0 <= i < |ms| && Raises(id, ms[..i], ms[i]);
      if i < |init| { assert Raises(id, init[..i], init[i]); }
    }
  }

  /** A stream does not fail exactly when every message fits those before it, and its book
      is then that of the levels the messages carry. */
  lemma {:induction false} StreamFits(s: Snapshot, ms: seq<Message>, symbol: string)
    requires SnapshotFits(s)
    ensures FromSnapshot(s).Ready?
    ensures var id := s.lastUpdateId.value;
            var c := CoreRun(Core(FromSnapshot(s).book, false), ms, symbol);
            && (!c.failed <==> AllFit(s, id, ms, symbol))
            && (!c.failed ==>
                  && c.book.last == HighestId(id, ms) && Apply(map[], Bids(s, id, ms)) == Fill(c.book.bids, true)
                  && Apply(map[], Asks(s, id, ms)) == Fill(c.book.asks, true))
  {
    SnapshotIs(s);
    PairsAreLevels(s);
    hide FromSnapshot, Apply, SnapshotFits, Fits, Uncrossed;
    var id := s.lastUpdateId.value;
    if ms != [] {
      var init, m := ms[..|ms| - 1], ms[|ms| - 1];
      assert ms == init + [m];
      StreamFits(s, init, symbol);
      FitStep(s, id, init, m, symbol);
      var before := CoreRun(Core(FromSnapshot(s).book, false), init, symbol);
      hide AllFit, CoreStep, HighestId, Bids, Asks;
      if !before.failed { CoreStepFits(s, id, init, m, before.book, symbol); }
      assert before.failed ==> CoreStep(before, m, symbol).failed by { FailedStep(before, m, symbol); }
    }
  }

  lemma PairsAreLevels(s: Snapshot)
    requires SnapshotFits(s)
    ensures s.bids.Levels? && s.asks.Levels? && s.lastUpdateId.Integer?
  {
    hide Uncrossed, NoneRepeated, SomeStand;
  }

  lemma FailedStep(c: Core, m: Message, symbol: string)
    ensures c.failed ==> CoreStep(c, m, symbol).failed
  {
  }

  // -------------------------------------------------------------- the counts

  function Controlled(ms: seq<Message>): nat {
    if ms == [] then 0 else Controlled(ms[..|ms| - 1]) + if ms[|ms| - 1].Other? then 1 else 0
  }

  function Updates(ms: seq<Message>): nat {
    if ms == [] then 0 else Updates(ms[..|ms| - 1]) + if ms[|ms| - 1].DepthUpdate? then 1 else 0
  }

  /** Updates that raise nothing, while nothing has been raised yet or afterwards. */
  function Old(id: int, ms: seq<Message>, synced: bool): nat {
    if ms == [] then 0
    else
      var init, m := ms[..|ms| - 1], ms[|ms| - 1];
      Old(id, init, synced)
      + if m.DepthUpdate? && !Raises(id, init, m) && SomeRaises(id, init) == synced then 1 else 0
  }

  /** The ages of the updates, in seconds: receipt less event time, and the clock offset. */
  function Ages(records: seq<Record>, offset: real): seq<real> {
    if records == [] then []
    else
      var r := records[|records| - 1];
      Ages(records[..|records| - 1], offset)
      + if r.message.DepthUpdate? && r.message.time.Integer?
        then [r.receivedAt - r.message.time.value as real / 1000.0 + offset] else []
  }

  function Negative(ages: seq<real>): nat {
    if ages == [] then 0 else Negative(ages[..|ages| - 1]) + if ages[|ages| - 1] < 0.0 then 1 else 0
  }

  function NotNegative(ages: seq<real>): seq<real> {
    if ages == [] then []
    else NotNegative(ages[..|ages| - 1]) + if ages[|ages| - 1] < 0.0 then [] else [ages[|ages| - 1]]
  }

  /** The figures of a run are those of its records. */
  predicate Accounts(p: Progress, id: int, records: seq<Record>, offset: real) {
    var ms := Messages(records);
    && p.events == Updates(ms) && p.controls == Controlled(ms)
    && p.discarded == Old(id, ms, false) && p.repeated == Old(id, ms, true)
    && p.rawFuture == Negative(Ages(records, 0.0)) && p.future == Negative(Ages(records, offset))
    && p.ages == NotNegative(Ages(records, offset))
    && p.synced == SomeRaises(id, ms)
    && p.book.last == HighestId(id, ms) && (p.synced ==> p.previous == p.book.last) && p.target == id + 1
  }

  lemma MoreMessages(init: seq<Record>, r: Record)
    ensures Messages(init + [r]) == Messages(init) + [r.message]
  {
  }

  lemma CountsGrow(id: int, init: seq<Message>, m: Message)
    ensures var ms := init + [m];
            && Updates(ms) == Updates(init) + (if m.DepthUpdate? then 1 else 0)
            && Controlled(ms) == Controlled(init) + (if m.Other? then 1 else 0)
            && (forall synced ::
                  Old(id, ms, synced) == Old(id, init, synced)
                    + if m.DepthUpdate? && !Raises(id, init, m) && SomeRaises(id, init) == synced then 1 else 0)
            && HighestId(id, ms) == if Raises(id, init, m) then m.last.value else HighestId(id, init)
  {
    hide SomeRaises;
    assert (init + [m])[..|init + [m]| - 1] == init;
  }

  lemma AgesGrow(init: seq<Record>, r: Record, offset: real)
    requires r.message.DepthUpdate? ==> r.message.time.Integer?
    ensures if r.message.DepthUpdate? then
              var age := r.receivedAt - r.message.time.value as real / 1000.0 + offset;
              && Negative(Ages(init + [r], offset)) == Negative(Ages(init, offset)) + (if age < 0.0 then 1 else 0)
              && NotNegative(Ages(init + [r], offset))
                 == NotNegative(Ages(init, offset)) + (if age < 0.0 then [] else [age])
            else Ages(init + [r], offset) == Ages(init, offset)
  {
    assert (init + [r])[..|init + [r]| - 1] == init;
    var before, after := Ages(init, offset), Ages(init + [r], offset);
    if r.message.DepthUpdate? { assert after[..|after| - 1] == before; }
  }

  /** Until something is raised the highest ID is that of the snapshot. */
  lemma {:induction false} RaisedAbove(id: int, ms: seq<Message>)
    ensures HighestId(id, ms) == id <==> !SomeRaises(id, ms)
    ensures HighestId(id, ms) >= id
  {
    if ms != [] {
      var init, m := ms[..|ms| - 1], ms[|ms| - 1];
      assert ms == init + [m];
      RaisedAbove(id, init);
      FitStep(Snapshot(Integer(id), Levels([]), Levels([])), id, init, m, "");
      hide SomeRaises;
    }
  }

  lemma StepAccounts(p: Progress, id: int, init: seq<Record>, r: Record, symbol: string, offset: real)
    requires p.error.None? && Accounts(p, id, init, offset) && Step(p, r, symbol, offset).error.None?
    ensures Accounts(Step(p, r, symbol, offset), id, init + [r], offset)
  {
    hide ApplyEvent, Decode, Updates, Controlled, Old, HighestId, Ages, Negative, NotNegative, SomeRaises, IsUpdate,
      Messages;
    var ms, m, q := Messages(init), r.message, Step(p, r, symbol, offset);
    DecodeIs(m, symbol);
    MoreMessages(init, r);
    CountsGrow(id, ms, m);
    UpdateHasTime(m, symbol);
    FitStep(Snapshot(Integer(id), Levels([]), Levels([])), id, ms, m, symbol);
    RaisedAbove(id, ms);
    if IsControl(m) || IsUpdate(m, symbol) {
      AgesGrow(init, r, 0.0);
      AgesGrow(init, r, offset);
    }
    PlacedLast(p, r, symbol, offset);
    hide Step, Fits, AllFit;
  }

  lemma UpdateHasTime(m: Message, symbol: string)
    ensures IsUpdate(m, symbol) ==>
              && m.DepthUpdate? && m.time.Integer? && m.last.Integer? && m.first.Integer?
              && m.bids.Levels? && m.asks.Levels?
    ensures IsControl(m) ==> !m.DepthUpdate?
  {
  }

  /** What one accepted record adds to the figures. */
  lemma PlacedLast(p: Progress, r: Record, symbol: string, offset: real)
    requires p.error.None? && Step(p, r, symbol, offset).error.None?
    requires (p.synced ==> p.previous == p.book.last) && (!p.synced ==> p.target == p.book.last + 1)
    ensures var q, d := Step(p, r, symbol, offset), Decode(r.message, symbol);
            && !d.Rejected? && q.target == p.target
            && (d.Ignored? ==> q == p.(controls := p.controls + 1))
            && (d.Accepted? ==>
                  var raw := r.receivedAt - d.event.time as real / 1000.0;
                  var raises := d.event.last > p.book.last;
                  && q.controls == p.controls && q.events == p.events + 1
                  && q.rawFuture == p.rawFuture + (if raw + 0.0 < 0.0 then 1 else 0)
                  && q.future == p.future + (if raw + offset < 0.0 then 1 else 0)
                  && q.ages == p.ages + (if raw + offset < 0.0 then [] else [raw + offset])
                  && q.discarded == p.discarded + (if !raises && !p.synced then 1 else 0)
                  && q.repeated == p.repeated + (if !raises && p.synced then 1 else 0)
                  && (q.synced <==> p.synced || raises)
                  && q.book.last == (if raises then d.event.last else p.book.last)
                  && (q.synced ==> q.previous == q.book.last))
  {
    hide Apply, Crossed, Decode;
  }

  lemma {:induction false} RunAccounts(book: Book, records: seq<Record>, symbol: string, offset: real)
    requires Run(Begin(book), records, symbol, offset).error.None?
    ensures Accounts(Run(Begin(book), records, symbol, offset), book.last, records, offset)
  {
    hide Step, Accounts;
    if records == [] {
      assert Accounts(Begin(book), book.last, [], offset) by { NothingAccounted(book, offset); }
    } else {
      var init, r := records[..|records| - 1], records[|records| - 1];
      assert records == init + [r];
      ErrorStays(Run(Begin(book), init, symbol, offset), r, symbol, offset);
      RunAccounts(book, init, symbol, offset);
      StepAccounts(Run(Begin(book), init, symbol, offset), book.last, init, r, symbol, offset);
    }
  }

  lemma NothingAccounted(book: Book, offset: real)
    ensures Accounts(Begin(book), book.last, [], offset)
  {
  }

  // ------------------------------------------------------------- the report

  /** `r` is `x` to the nearest thousandth, a tie going to the even one. */
  ghost predicate IsRounded(x: real, r: real) {
    exists n: int :: Nearest(x, r, n)
  }

  predicate Nearest(x: real, r: real, n: int) {
    && r == n as real / 1000.0 && -0.5 <= x * 1000.0 - n as real <= 0.5
    && (x * 1000.0 - n as real == 0.5 || x * 1000.0 - n as real == -0.5 ==> n % 2 == 0)
  }

  lemma RoundMilliIs(x: real)
    ensures IsRounded(x, RoundMilli(x))
  {
    var scaled := x * 1000.0;
    var n := scaled.Floor;
    var up := scaled - n as real > 0.5 || (scaled - n as real == 0.5 && n % 2 != 0);
    assert Nearest(x, RoundMilli(x), if up then n + 1 else n);
  }

  /** A clock offset beyond five seconds is refused.  Otherwise the report has no error if
      and only if the snapshot fits, every message fits those before it, some update raises
      the highest ID and there are at least five updates. */
  lemma CleanExactly(s: Snapshot, records: seq<Record>, symbol: string, offset: real)
    ensures var report, ms := Process(s, records, symbol, offset), Messages(records);
            && (report.None? <==> offset < -5.0 || offset > 5.0)
            && (report.Some? ==>
                  (report.value.error.None? <==>
                     && SnapshotFits(s) && AllFit(s, s.lastUpdateId.value, ms, symbol)
                     && SomeRaises(s.lastUpdateId.value, ms) && Updates(ms) >= 5))
  {
    SnapshotIs(s);
    hide FromSnapshot, Run, SnapshotFits, AllFit, SomeRaises, Updates, CoreRun;
    if SnapshotFits(s) {
      PairsAreLevels(s);
      StreamFits(s, Messages(records), symbol);
      OneTestOneCursor(FromSnapshot(s).book, records, symbol, offset);
      if Run(Begin(FromSnapshot(s).book), records, symbol, offset).error.None? {
        RunAccounts(FromSnapshot(s).book, records, symbol, offset);
      }
    }
    hide Aligned, Messages;
  }

  predicate NoneNegative(ages: seq<real>) { forall k :: 0 <= k < |ages| ==> ages[k] >= 0.0 }

  lemma NoneNegativeStep(init: seq<real>, last: real)
    ensures NoneNegative(init + [last]) <==> NoneNegative(init) && last >= 0.0
  {
    var ages := init + [last];
    assert forall k :: 0 <= k < |init| ==> init[k] == ages[k];
    assert ages[|init|] == last;
  }

  lemma {:induction false} AgesSplit(ages: seq<real>)
    ensures Negative(ages) == 0 <==> NoneNegative(ages)
    ensures Negative(ages) == 0 ==> NotNegative(ages) == ages
  {
    if ages != [] {
      hide NoneNegative;
      var init, last := ages[..|ages| - 1], ages[|ages| - 1];
      AgesSplit(init);
      assert ages == init + [last];
      NoneNegativeStep(init, last);
    }
  }

  /** No age is below zero or beyond the limit and what rounding forgives. */
  predicate InTime(ages: seq<real>) {
    forall k :: 0 <= k < |ages| ==> 0.0 <= ages[k] <= 30.0005
  }

  lemma LargestWithin(ages: seq<real>)
    requires ages != []
    ensures InTime(ages) <==> Negative(ages) == 0 && Largest(ages) <= 30.0005
  {
    AgesSplit(ages);
    var k :| 0 <= k < |ages| && ages[k] == Largest(ages);
  }

  /** A report without error passes if and only if no age is below zero or beyond thirty
      seconds and the half millisecond that rounding forgives. */
  lemma PassesExactly(s: Snapshot, records: seq<Record>, symbol: string, offset: real)
    requires -5.0 <= offset <= 5.0 && Process(s, records, symbol, offset).value.error.None?
    ensures Process(s, records, symbol, offset).value.passed <==> InTime(Ages(records, offset))
  {
    CleanExactly(s, records, symbol, offset);
    SnapshotIs(s);
    hide FromSnapshot, Run, SnapshotFits, AllFit, RoundMilli, SomeRaises, Updates, Controlled, Old, Ages, Negative,
      NotNegative, Messages, HighestId;
    RunAccounts(FromSnapshot(s).book, records, symbol, offset);
    var p, ages := Run(Begin(FromSnapshot(s).book), records, symbol, offset), Ages(records, offset);
    AgesSplit(ages);
    AllAgesCome(FromSnapshot(s).book, records, symbol, offset);
    assert p.future == Negative(ages) && p.ages == NotNegative(ages) && p.events == Updates(Messages(records));
    NoAges();
    LargestWithin(ages);
    if p.ages != [] { RoundedWithinLimit(Largest(p.ages)); }
    hide InTime;
  }

  lemma NoAges()
    ensures Negative([]) == 0
  {
  }

  /** The figures of a report without error are those of its records: updates, controls,
      old updates before and after the first applied, ages below zero with and without the
      offset, the largest age that is not, to the millisecond; and the book is that of the
      levels which the snapshot and the updates themselves carry. */
  lemma CleanFigures(s: Snapshot, records: seq<Record>, symbol: string, offset: real)
    requires -5.0 <= offset <= 5.0 && Process(s, records, symbol, offset).value.error.None?
    ensures SnapshotFits(s) && Process(s, records, symbol, offset).value.book.Some?
    ensures var report, ms, id := Process(s, records, symbol, offset).value, Messages(records), s.lastUpdateId.value;
            var ages, book := Ages(records, offset), report.book.value;
            && report.events == Updates(ms) && report.controls == Controlled(ms)
            && report.discarded == Old(id, ms, false) && report.repeated == Old(id, ms, true)
            && report.future == Negative(ages) && report.rawFuture == Negative(Ages(records, 0.0))
            && (report.maxAge.None? <==> NotNegative(ages) == [])
            && (report.maxAge.Some? ==>
                  exists age :: age in NotNegative(ages) && IsRounded(age, report.maxAge.value)
                                && forall other :: other in NotNegative(ages) ==> other <= age)
            && book.last == HighestId(id, ms)
            && AllLegible(Bids(s, id, ms)) && AllLegible(Asks(s, id, ms))
            && IsLastWriterMap(book.bids, Bids(s, id, ms)) && IsLastWriterMap(book.asks, Asks(s, id, ms))
  {
    var ms := Messages(records);
    SnapshotIs(s);
    hide FromSnapshot, Run, SnapshotFits, AllFit, CoreRun, Apply, RoundMilli, IsRounded, Bids, Asks, HighestId;
    PairsAreLevels(s);
    StreamFits(s, ms, symbol);
    OneTestOneCursor(FromSnapshot(s).book, records, symbol, offset);
    RunAccounts(FromSnapshot(s).book, records, symbol, offset);
    var p := Run(Begin(FromSnapshot(s).book), records, symbol, offset);
    var id := s.lastUpdateId.value;
    AppliedWhenLegible(map[], Bids(s, id, ms));
    AppliedWhenLegible(map[], Asks(s, id, ms));
    ApplyIsLastWriterMap(Bids(s, id, ms));
    ApplyIsLastWriterMap(Asks(s, id, ms));
    if p.ages != [] { RoundMilliIs(Largest(p.ages)); }
    hide Aligned, Messages, IsLastWriterMap, Updates, Controlled, Old, Ages, Negative, NotNegative, SomeRaises;
  }

  // ------------------------------------------------------------- the failures

  /** Why a message does not fit those before it, which all do. */
  ghost function Fault(s: Snapshot, id: int, before: seq<Message>, m: Message, symbol: string): Error
    requires s.bids.Levels? && s.asks.Levels? && !Fits(s, id, before, m, symbol)
  {
    if !IsUpdate(m, symbol) then MessageFault(m, symbol)
    else if m.time.value > 253402300799999 then InvalidEventTime
    else if m.first.value > HighestId(id, before) + 1 then
      if SomeRaises(id, before) then GapAfterSync else GapBeforeSync
    else if !AllLegible(m.bids.items) || !AllLegible(m.asks.items) then InvalidDecimal
    else CrossedBook
  }

  /** The levels before the first that cannot be read. */
  function LegiblePart(items: seq<RawLevel>): seq<RawLevel> {
    if items == [] || !Legible(items[0]) then [] else [items[0]] + LegiblePart(items[1..])
  }

  lemma {:induction false} LegiblePartIs(items: seq<RawLevel>, k: nat)
    requires k <= |items| && AllLegible(items[..k]) && (k < |items| ==> !Legible(items[k]))
    ensures LegiblePart(items) == items[..k]
  {
    if k > 0 {
      assert items[..k][0] == items[0];
      assert items[1..][..k - 1] == items[..k][1..];
      LegiblePartIs(items[1..], k - 1);
    }
  }

  lemma ApplyPart(side: Side, items: seq<RawLevel>)
    ensures Apply(side, items) == Fill(Apply(side, LegiblePart(items)).side, AllLegible(items))
    ensures AllLegible(LegiblePart(items))
  {
    var k := ApplyKeepsPrefix(side, items);
    LegiblePartIs(items, k);
    AppliedWhenLegible(side, items);
    hide Apply, LegiblePart;
  }

  /** What a message that does not fit has written of the levels it carries, and where it
      leaves the last update ID. */
  ghost predicate LeftBy(s: Snapshot, id: int, before: seq<Message>, m: Message, symbol: string, book: Book)
    requires s.bids.Levels? && s.asks.Levels?
  {
    var bids, asks := Bids(s, id, before), Asks(s, id, before);
    if IsUpdate(m, symbol) && m.time.value <= 253402300799999 && m.first.value <= HighestId(id, before) + 1 then
      && book.bids == Apply(map[], bids + LegiblePart(m.bids.items)).side
      && book.asks == Apply(map[], asks + (if AllLegible(m.bids.items) then LegiblePart(m.asks.items) else [])).side
      && book.last == if AllLegible(m.bids.items) && AllLegible(m.asks.items) then m.last.value
                      else HighestId(id, before)
    else
      book.bids == Apply(map[], bids).side && book.asks == Apply(map[], asks).side && book.last == HighestId(id, before)
  }

  lemma FailedEvent(book: Book, bids: seq<RawLevel>, asks: seq<RawLevel>, ev: Event)
    requires Apply(map[], bids) == Fill(book.bids, true) && Apply(map[], asks) == Fill(book.asks, true)
    requires !Uncrossed(bids + ev.bids, asks + ev.asks)
    ensures var a := ApplyEvent(book, ev);
            && a.error == Some(if AllLegible(ev.bids) && AllLegible(ev.asks) then CrossedBook else InvalidDecimal)
            && a.book.bids == Apply(map[], bids + LegiblePart(ev.bids)).side
            && a.book.asks
               == Apply(map[], asks + (if AllLegible(ev.bids) then LegiblePart(ev.asks) else [])).side
            && a.book.last == (if AllLegible(ev.bids) && AllLegible(ev.asks) then ev.last else book.last)
  {
    EventOn(book, bids, asks, ev);
    ApplyPart(book.bids, ev.bids);
    ApplyPart(book.asks, ev.asks);
    ApplyConcat(map[], bids, LegiblePart(ev.bids));
    ApplyConcat(map[], asks, LegiblePart(ev.asks));
    assert asks + [] == asks;
    hide Apply, AllLegible, LegiblePart, Uncrossed, Crossed;
  }

  lemma FaultStep(s: Snapshot, id: int, init: seq<Record>, r: Record, p: Progress, symbol: string, offset: real)
    requires s.bids.Levels? && s.asks.Levels? && p.error.None? && Accounts(p, id, init, offset)
    requires Apply(map[], Bids(s, id, Messages(init))) == Fill(p.book.bids, true)
    requires Apply(map[], Asks(s, id, Messages(init))) == Fill(p.book.asks, true)
    requires !Fits(s, id, Messages(init), r.message, symbol)
    ensures var q := Step(p, r, symbol, offset);
            && q.error == Some(Fault(s, id, Messages(init), r.message, symbol))
            && LeftBy(s, id, Messages(init), r.message, symbol, q.book)
  {
    hide Apply, Decode, ApplyEvent, Uncrossed, Messages, Bids, Asks, HighestId, SomeRaises, Updates, Controlled, Old,
      Ages, Negative, NotNegative, AllLegible, LegiblePart, IsPositive, ArePairs;
    var ms, m := Messages(init), r.message;
    DecodeIs(m, symbol);
    UpdateHasTime(m, symbol);
    RaisedAbove(id, ms);
    if IsUpdate(m, symbol) {
      var ev := Decode(m, symbol).event;
      hide IsUpdate;
      if m.time.value <= 253402300799999 && m.first.value <= HighestId(id, ms) + 1 {
        FailedEvent(p.book, Bids(s, id, ms), Asks(s, id, ms), ev);
      }
      PlaceFails(p, ev);
    } else {
      RefusedFor(m, symbol);
      hide IsUpdate, MessageFault;
    }
    hide Place;
  }

  /** Which of its tests an event fails, and the book it leaves. */
  lemma PlaceFails(p: Progress, ev: Event)
    requires (p.synced ==> p.previous == p.book.last) && (!p.synced ==> p.target == p.book.last + 1) && p.error.None?
    ensures forall t: Progress ::
              && t.book == p.book && t.target == p.target && t.previous == p.previous && t.synced == p.synced
              && t.error.None? && ev.last > p.book.last ==>
                if ev.first > p.book.last + 1 then
                  && Place(t, ev).error == Some(if p.synced then GapAfterSync else GapBeforeSync)
                  && Place(t, ev).book == p.book
                else
                  Place(t, ev).error == ApplyEvent(p.book, ev).error && Place(t, ev).book == ApplyEvent(p.book, ev).book
  {
    hide ApplyEvent;
  }

  /** A report's error is the fault of the first message that does not fit, and its book is
      what the messages before it and the readable part of that one left. */
  lemma FirstFaultDecides(s: Snapshot, records: seq<Record>, i: nat, symbol: string, offset: real)
    requires -5.0 <= offset <= 5.0 && SnapshotFits(s) && i < |records|
    requires var ms := Messages(records);
             AllFit(s, s.lastUpdateId.value, ms[..i], symbol) && !Fits(s, s.lastUpdateId.value, ms[..i], ms[i], symbol)
    ensures var report, before, m := Process(s, records, symbol, offset), Messages(records)[..i], records[i].message;
            && report.Some? && report.value.error == Some(Fault(s, s.lastUpdateId.value, before, m, symbol))
            && !report.value.passed && report.value.book.Some?
            && LeftBy(s, s.lastUpdateId.value, before, m, symbol, report.value.book.value)
  {
    hide FromSnapshot, Run, SnapshotFits, AllFit, Fits, CoreRun, Apply, Fault, LeftBy, Accounts, Bids, Asks,
      RoundMilli, Step;
    PairsAreLevels(s);
    SnapshotIs(s);
    var book, init := FromSnapshot(s).book, records[..i];
    assert Messages(init) == Messages(records)[..i];
    StreamFits(s, Messages(init), symbol);
    OneTestOneCursor(book, init, symbol, offset);
    RunAccounts(book, init, symbol, offset);
    var p := Run(Begin(book), init, symbol, offset);
    FaultStep(s, s.lastUpdateId.value, init, records[i], p, symbol, offset);
    RunNext(Begin(book), records, symbol, offset, i);
    RunStopped(Begin(book), records, symbol, offset, i + 1);
    hide Messages, Aligned;
  }

  /** With nothing wrong in any message, what a report can still lack. */
  lemma LackDecides(s: Snapshot, records: seq<Record>, symbol: string, offset: real)
    requires -5.0 <= offset <= 5.0 && SnapshotFits(s)
    requires s.lastUpdateId.Integer? && s.bids.Levels? && s.asks.Levels?
    requires AllFit(s, s.lastUpdateId.value, Messages(records), symbol)
    ensures Process(s, records, symbol, offset).value.error
         == if !SomeRaises(s.lastUpdateId.value, Messages(records)) then Some(NeverSynchronized)
            else if Updates(Messages(records)) < 5 then Some(TooFewUpdates) else None
  {
    hide FromSnapshot, Run, SnapshotFits, AllFit, CoreRun, Apply, RoundMilli, SomeRaises, Updates;
    SnapshotIs(s);
    StreamFits(s, Messages(records), symbol);
    OneTestOneCursor(FromSnapshot(s).book, records, symbol, offset);
    RunAccounts(FromSnapshot(s).book, records, symbol, offset);
    hide Aligned, Messages;
  }

  /** Why one side of a snapshot is refused: its first level at fault, unreadable or a repeat. */
  ghost predicate SideFault(items: seq<RawLevel>, error: Error) {
    exists j :: 0 <= j < |items| && FaultAt(items, j, error)
  }

  ghost predicate FaultAt(items: seq<RawLevel>, j: int, error: Error)
    requires 0 <= j < |items|
  {
    && AllLegible(items[..j]) && NoneRepeated(items[..j])
    && (if Legible(items[j]) then error == DuplicatePrice && !NoneRepeated(items[..j] + [items[j]])
        else error == InvalidDecimal)
  }

  lemma {:induction false} SideFaultIs(items: seq<RawLevel>)
    requires !ApplyDistinct(map[], items).ok
    ensures SideFault(items, SnapshotError(items))
  {
    if items != [] {
      var n := |items| - 1;
      DistinctWhenNoneRepeated(items);
      DistinctWhenNoneRepeated(items[..n]);
      if ApplyDistinct(map[], items[..n]).ok {
        assert items[..n] + [items[n]] == items;
        LegibleStep(items[..n], items[n]);
        assert FaultAt(items, n, SnapshotError(items));
      } else {
        SideFaultIs(items[..n]);
        var j :| 0 <= j < n && FaultAt(items[..n], j, SnapshotError(items[..n]));
        assert items[..n][..j] == items[..j] && items[..n][j] == items[j];
        assert FaultAt(items, j, SnapshotError(items));
      }
      hide ApplyDistinct, AllLegible, NoneRepeated;
    }
  }

  /** A snapshot that does not fit is refused for its first fault: the update ID, the bids,
      the asks, a side without a standing level, or crossing; and nothing is counted. */
  lemma SnapshotFaultDecides(s: Snapshot, records: seq<Record>, symbol: string, offset: real)
    requires -5.0 <= offset <= 5.0 && !SnapshotFits(s)
    ensures var report := Process(s, records, symbol, offset);
            && report.Some? && !report.value.passed && report.value.book.None? && report.value.maxAge.None?
            && report.value.events == report.value.controls == report.value.discarded == 0
            && report.value.repeated == report.value.future == report.value.rawFuture == 0
            && report.value.error.Some?
            && var error := report.value.error.value;
               if !IsPositive(s.lastUpdateId) then error == InvalidInteger
               else if !ArePairs(s.bids) then error == InvalidLevels
               else if !(AllLegible(s.bids.items) && NoneRepeated(s.bids.items)) then SideFault(s.bids.items, error)
               else if !ArePairs(s.asks) then error == InvalidLevels
               else if !(AllLegible(s.asks.items) && NoneRepeated(s.asks.items)) then SideFault(s.asks.items, error)
               else if !SomeStand(s.bids.items) || !SomeStand(s.asks.items) then error == OneSidedSnapshot
               else error == CrossedBook
  {
    SnapshotIs(s);
    if ArePairs(s.bids) {
      DistinctWhenNoneRepeated(s.bids.items);
      if !ApplyDistinct(map[], s.bids.items).ok { SideFaultIs(s.bids.items); }
      if ApplyDistinct(map[], s.bids.items).ok && ArePairs(s.asks) {
        DistinctWhenNoneRepeated(s.asks.items);
        ApplyDistinctIsApply(map[], s.bids.items);
        StandingIsHeld(s.bids.items);
        if !ApplyDistinct(map[], s.asks.items).ok {
          SideFaultIs(s.asks.items);
        } else {
          ApplyDistinctIsApply(map[], s.asks.items);
          StandingIsHeld(s.asks.items);
        }
      }
    }
    hide Run, ApplyDistinct, Apply, AllLegible, NoneRepeated, SomeStand, SideFault, SnapshotError, Crossed, Uncrossed;
  }
}
