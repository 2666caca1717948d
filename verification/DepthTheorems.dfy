/** What the depth qualifier guarantees over whole streams. */
module DepthTheorems {

  import opened Options
  import opened Extremes
  import opened PriceLevels
  import opened DepthBook

  // ---------------------------------------------------------------- one cursor

  /** The loop without its clocks and counters: one cursor, one test. */
  datatype Core = Core(book: Book, failed: bool)

  function CoreStep(c: Core, m: Message, symbol: string): Core {
    if c.failed then c
    else match Decode(m, symbol)
      case Ignored => c
      case Rejected(_) => c.(failed := true)
      case Accepted(ev) =>
        if ev.time > MAX_EVENT_MILLISECONDS then c.(failed := true)
        else if ev.last <= c.book.last then c
        else if ev.first > c.book.last + 1 then c.(failed := true)
        else var a := ApplyEvent(c.book, ev); Core(a.book, a.error.Some?)
  }

  function CoreRun(c: Core, messages: seq<Message>, symbol: string): Core {
    if messages == [] then c
    else CoreStep(CoreRun(c, messages[..|messages| - 1], symbol), messages[|messages| - 1], symbol)
  }

  function Messages(records: seq<Record>): seq<Message> {
    seq(|records|, i requires 0 <= i < |records| => records[i].message)
  }

  predicate Aligned(p: Progress) {
    p.error.None? ==> p.previous == p.book.last && (!p.synced ==> p.target == p.book.last + 1)
  }

  lemma StepIsCoreStep(p: Progress, r: Record, symbol: string, offset: real)
    requires Aligned(p)
    ensures var q := Step(p, r, symbol, offset);
            Aligned(q) && CoreStep(Core(p.book, p.error.Some?), r.message, symbol) == Core(q.book, q.error.Some?)
  {
    hide Apply, Crossed, Age;
  }

  /** Before and after synchronization the loop asks the same question of the
      same cursor: it is the core machine, whatever the receipt times. */
  lemma {:induction false} OneTestOneCursor(book: Book, records: seq<Record>, symbol: string, offset: real)
    ensures var p := Run(Begin(book), records, symbol, offset);
            Aligned(p)
            && CoreRun(Core(book, false), Messages(records), symbol) == Core(p.book, p.error.Some?)
  {
    if records != [] {
      var init := records[..|records| - 1];
      OneTestOneCursor(book, init, symbol, offset);
      assert Messages(records)[..|records| - 1] == Messages(init);
      hide Step, CoreStep, Aligned;
      StepIsCoreStep(Run(Begin(book), init, symbol, offset), records[|records| - 1], symbol, offset);
    }
  }

  lemma {:induction false} CoreConcat(c: Core, xs: seq<Message>, ys: seq<Message>, symbol: string)
    ensures CoreRun(c, xs + ys, symbol) == CoreRun(CoreRun(c, xs, symbol), ys, symbol)
  {
    hide CoreStep;
    if ys == [] {
      assert xs + ys == xs;
    } else {
      CoreConcat(c, xs, ys[..|ys| - 1], symbol);
      assert (xs + ys)[..|xs + ys| - 1] == xs + ys[..|ys| - 1];
    }
  }

  lemma {:induction false} CoreFailedStays(c: Core, ys: seq<Message>, symbol: string)
    requires c.failed
    ensures CoreRun(c, ys, symbol) == c
  {
    if ys != [] { CoreFailedStays(c, ys[..|ys| - 1], symbol); }
  }

  // ------------------------------------------------- receipt times and replay

  /** What is left when the ages and the counts of future events are dropped. */
  function Timeless(p: Progress): Progress {
    p.(rawFuture := 0, future := 0, ages := [])
  }

  lemma StepTimeless(p: Progress, q: Progress, r1: Record, r2: Record, symbol: string, o1: real, o2: real)
    requires Timeless(p) == Timeless(q) && r1.message == r2.message
    ensures Timeless(Step(p, r1, symbol, o1)) == Timeless(Step(q, r2, symbol, o2))
  {
    hide ApplyEvent, Decode, Age;
  }

  lemma {:induction false} RunTimeless(book: Book, live: seq<Record>, replay: seq<Record>,
                                       symbol: string, o1: real, o2: real)
    requires Messages(live) == Messages(replay)
    ensures Timeless(Run(Begin(book), live, symbol, o1)) == Timeless(Run(Begin(book), replay, symbol, o2))
  {
    hide Step, Timeless;
    assert |Messages(live)| == |live| && |Messages(replay)| == |replay|;
    if live != [] {
      var n := |live| - 1;
      assert Messages(live)[n] == Messages(replay)[n];
      assert Messages(live[..n]) == Messages(live)[..n] == Messages(replay[..n]);
      RunTimeless(book, live[..n], replay[..n], symbol, o1, o2);
      StepTimeless(Run(Begin(book), live[..n], symbol, o1), Run(Begin(book), replay[..n], symbol, o2),
                   live[n], replay[n], symbol, o1, o2);
    }
  }

  /** Replaying the spooled messages, with other receipt times and any allowed
      clock offset, reproduces book, error and every count but the ages. */
  lemma LiveEqualsReplay(s: Snapshot, live: seq<Record>, replay: seq<Record>, symbol: string, o1: real, o2: real)
    requires Messages(live) == Messages(replay)
    requires OffsetAllowed(o1) && OffsetAllowed(o2)
    ensures var a, b := Process(s, live, symbol, o1).value, Process(s, replay, symbol, o2).value;
            a.book == b.book && a.error == b.error && a.events == b.events && a.controls == b.controls
            && a.discarded == b.discarded && a.repeated == b.repeated
  {
    hide Run;
    match FromSnapshot(s)
    case Refused(_) =>
    case Ready(book) =>
      RunTimeless(book, live, replay, symbol, o1, o2);
      var p, q := Run(Begin(book), live, symbol, o1), Run(Begin(book), replay, symbol, o2);
      assert Timeless(p) == Timeless(q);
      assert p.book == Timeless(p).book && q.book == Timeless(q).book;
  }

  // ---------------------------------------------------------------- redelivery

  /** A control message, or a well-formed event at or below the cursor. */
  predicate Harmless(m: Message, cursor: int, symbol: string) {
    match Decode(m, symbol)
    case Ignored => true
    case Rejected(_) => false
    case Accepted(ev) => ev.time <= MAX_EVENT_MILLISECONDS && ev.last <= cursor
  }

  lemma CoreRedelivery(c: Core, xs: seq<Message>, extra: Message, ys: seq<Message>, symbol: string)
    requires !CoreRun(c, xs + ys, symbol).failed
    requires Harmless(extra, CoreRun(c, xs, symbol).book.last, symbol)
    ensures CoreRun(c, xs + [extra] + ys, symbol) == CoreRun(c, xs + ys, symbol)
  {
    CoreConcat(c, xs, ys, symbol);
    CoreConcat(c, xs + [extra], ys, symbol);
    assert (xs + [extra])[..|xs|] == xs;
    assert CoreRun(c, xs + [extra], symbol) == CoreStep(CoreRun(c, xs, symbol), extra, symbol);
  }

  /** Inserting such a message anywhere in an error-free stream changes neither
      the final book nor the absence of errors. */
  lemma RedeliveryInvariance(book: Book, xs: seq<Record>, extra: Record, ys: seq<Record>, symbol: string, offset: real)
    requires Run(Begin(book), xs + ys, symbol, offset).error.None?
    requires Harmless(extra.message, Run(Begin(book), xs, symbol, offset).book.last, symbol)
    ensures Run(Begin(book), xs + [extra] + ys, symbol, offset).error.None?
    ensures Run(Begin(book), xs + [extra] + ys, symbol, offset).book == Run(Begin(book), xs + ys, symbol, offset).book
  {
    hide Run, CoreRun, Harmless, Aligned;
    OneTestOneCursor(book, xs, symbol, offset);
    OneTestOneCursor(book, xs + ys, symbol, offset);
    OneTestOneCursor(book, xs + [extra] + ys, symbol, offset);
    assert Messages(xs + ys) == Messages(xs) + Messages(ys);
    assert Messages(xs + [extra] + ys) == Messages(xs) + [extra.message] + Messages(ys);
    CoreRedelivery(Core(book, false), Messages(xs), extra.message, Messages(ys), symbol);
  }

  // ---------------------------------------------------------- applied events

  /** The event a step applies, if any. */
  function AppliedBy(book: Book, m: Message, symbol: string): seq<Event> {
    var d := Decode(m, symbol);
    if d.Accepted? && d.event.time <= MAX_EVENT_MILLISECONDS
       && d.event.last > book.last && d.event.first <= book.last + 1
    then [d.event] else []
  }

  lemma CoreStepApplied(c: Core, m: Message, symbol: string)
    requires !c.failed && !CoreStep(c, m, symbol).failed
    ensures var after := CoreStep(c, m, symbol).book;
            var applied := AppliedBy(c.book, m, symbol);
            if applied == [] then after == c.book
            else
              && applied == [applied[0]]
              && applied[0].first <= c.book.last + 1 && c.book.last < applied[0].last == after.last
              && Apply(c.book.bids, applied[0].bids) == Fill(after.bids, true)
              && Apply(c.book.asks, applied[0].asks) == Fill(after.asks, true)
              && !Crossed(after.bids, after.asks)
  {
    hide Apply, Crossed;
  }

  /** The events a run applies, in order. */
  function AppliedEvents(c: Core, messages: seq<Message>, symbol: string): seq<Event> {
    if messages == [] then []
    else
      var init := messages[..|messages| - 1];
      var before := CoreRun(c, init, symbol);
      AppliedEvents(c, init, symbol)
      + if before.failed then [] else AppliedBy(before.book, messages[|messages| - 1], symbol)
  }

  /** Some applied event's range holds the update ID. */
  predicate Covered(applied: seq<Event>, id: int) {
    exists k :: 0 <= k < |applied| && applied[k].first <= id <= applied[k].last
  }

  function CursorAfter(start: int, events: seq<Event>): int {
    if events == [] then start else events[|events| - 1].last
  }

  /** Each event starts no later than just after the cursor and ends above it. */
  predicate Contiguous(start: int, events: seq<Event>) {
    events == [] ||
    var init, ev := events[..|events| - 1], events[|events| - 1];
    Contiguous(start, init) && ev.first <= CursorAfter(start, init) + 1 && CursorAfter(start, init) < ev.last
  }

  lemma {:induction false} AppliedContiguous(book: Book, messages: seq<Message>, symbol: string)
    requires !CoreRun(Core(book, false), messages, symbol).failed
    ensures var applied := AppliedEvents(Core(book, false), messages, symbol);
            Contiguous(book.last, applied)
            && CoreRun(Core(book, false), messages, symbol).book.last == CursorAfter(book.last, applied)
  {
    if messages != [] {
      var c := Core(book, false);
      var init := messages[..|messages| - 1];
      AppliedContiguous(book, init, symbol);
      var before := CoreRun(c, init, symbol);
      CoreStepApplied(before, messages[|messages| - 1], symbol);
      hide CoreStep, AppliedBy;
      var old', now := AppliedEvents(c, init, symbol), AppliedEvents(c, messages, symbol);
      var new' := AppliedBy(before.book, messages[|messages| - 1], symbol);
      assert now == old' + new';
      if new' != [] {
        assert now[..|now| - 1] == old' && now[|now| - 1] == new'[0];
      } else {
        assert now == old';
      }
    }
  }

  predicate CoversTo(events: seq<Event>, start: int, cursor: int) {
    forall id :: start < id <= cursor ==> Covered(events, id)
  }

  lemma OneMoreCovers(init: seq<Event>, ev: Event, start: int, cursor: int)
    requires CoversTo(init, start, cursor) && ev.first <= cursor + 1
    ensures CoversTo(init + [ev], start, ev.last)
  {
    var events := init + [ev];
    forall id | start < id <= ev.last ensures Covered(events, id) {
      if id <= cursor {
        assert Covered(init, id);
        var k :| 0 <= k < |init| && init[k].first <= id <= init[k].last;
        assert events[k] == init[k];
      } else {
        assert events[|init|] == ev;
      }
    }
  }

  lemma {:induction false} ContiguousCovers(start: int, events: seq<Event>)
    requires Contiguous(start, events)
    ensures CoversTo(events, start, CursorAfter(start, events))
  {
    if events != [] {
      hide CoversTo;
      var init, ev := events[..|events| - 1], events[|events| - 1];
      assert events == init + [ev];
      ContiguousCovers(start, init);
      OneMoreCovers(init, ev, start, CursorAfter(start, init));
    } else {
      assert CursorAfter(start, events) == start;
    }
  }

  lemma {:induction false} ContiguousRises(start: int, events: seq<Event>)
    requires Contiguous(start, events)
    ensures var cursor := CursorAfter(start, events);
            && start <= cursor
            && (forall k :: 0 <= k < |events| ==> start < events[k].last <= cursor)
            && (forall j, k :: 0 <= j < k < |events| ==> events[j].last < events[k].last)
  {
    if events != [] {
      var n := |events| - 1;
      ContiguousRises(start, events[..n]);
      assert forall k :: 0 <= k < n ==> events[k] == events[..n][k];
    }
  }

  /** Every update ID after the snapshot, up to the cursor, lies in the range of
      an applied event, and the cursor moves strictly upwards. */
  lemma Coverage(book: Book, messages: seq<Message>, symbol: string)
    requires !CoreRun(Core(book, false), messages, symbol).failed
    ensures var applied := AppliedEvents(Core(book, false), messages, symbol);
            var cursor := CoreRun(Core(book, false), messages, symbol).book.last;
            && book.last <= cursor
            && (forall id :: book.last < id <= cursor ==> Covered(applied, id))
            && (forall k :: 0 <= k < |applied| ==> book.last < applied[k].last <= cursor)
            && (forall j, k :: 0 <= j < k < |applied| ==> applied[j].last < applied[k].last)
            && (if applied == [] then cursor == book.last else cursor == applied[|applied| - 1].last)
  {
    hide CoreRun, AppliedEvents;
    AppliedContiguous(book, messages, symbol);
    ContiguousCovers(book.last, AppliedEvents(Core(book, false), messages, symbol));
    ContiguousRises(book.last, AppliedEvents(Core(book, false), messages, symbol));
  }

  function BidLevels(events: seq<Event>): seq<RawLevel> {
    if events == [] then [] else BidLevels(events[..|events| - 1]) + events[|events| - 1].bids
  }

  function AskLevels(events: seq<Event>): seq<RawLevel> {
    if events == [] then [] else AskLevels(events[..|events| - 1]) + events[|events| - 1].asks
  }

  /** An error-free run has written every level of every applied event. */
  lemma {:induction false} BookIsAppliedLevels(book: Book, messages: seq<Message>, symbol: string)
    requires !CoreRun(Core(book, false), messages, symbol).failed
    ensures var applied := AppliedEvents(Core(book, false), messages, symbol);
            var final := CoreRun(Core(book, false), messages, symbol).book;
            Apply(book.bids, BidLevels(applied)) == Fill(final.bids, true)
            && Apply(book.asks, AskLevels(applied)) == Fill(final.asks, true)
  {
    if messages != [] {
      var c := Core(book, false);
      var init := messages[..|messages| - 1];
      BookIsAppliedLevels(book, init, symbol);
      var before := CoreRun(c, init, symbol);
      CoreStepApplied(before, messages[|messages| - 1], symbol);
      hide CoreStep, AppliedBy, Apply;
      var old', now := AppliedEvents(c, init, symbol), AppliedEvents(c, messages, symbol);
      if AppliedBy(before.book, messages[|messages| - 1], symbol) != [] {
        var ev := AppliedBy(before.book, messages[|messages| - 1], symbol)[0];
        assert now == old' + [ev] && now[..|now| - 1] == old';
        ApplyConcat(book.bids, BidLevels(old'), ev.bids);
        ApplyConcat(book.asks, AskLevels(old'), ev.asks);
      } else {
        assert now == old';
      }
    } else {
      assert BidLevels([]) == [] && AskLevels([]) == [];
    }
  }

  ghost predicate Sound(b: Book) {
    Positive(b.bids) && Positive(b.asks) && !Crossed(b.bids, b.asks)
  }

  lemma SnapshotIsSound(s: Snapshot)
    requires FromSnapshot(s).Ready?
    ensures var b := FromSnapshot(s).book;
            Sound(b) && WellShaped(s.bids) && WellShaped(s.asks)
            && Apply(map[], s.bids.items) == Fill(b.bids, true)
            && Apply(map[], s.asks.items) == Fill(b.asks, true)
            && s.lastUpdateId == Integer(b.last) && b.bids != map[] && b.asks != map[]
  {
    ApplyDistinctIsApply(map[], s.bids.items);
    ApplyDistinctIsApply(map[], s.asks.items);
    ApplyPositive(map[], s.bids.items);
    ApplyPositive(map[], s.asks.items);
  }

  lemma {:induction false} RunIsSound(book: Book, messages: seq<Message>, symbol: string)
    requires Sound(book) && !CoreRun(Core(book, false), messages, symbol).failed
    ensures Sound(CoreRun(Core(book, false), messages, symbol).book)
  {
    if messages != [] {
      var init := messages[..|messages| - 1];
      RunIsSound(book, init, symbol);
      var before := CoreRun(Core(book, false), init, symbol);
      CoreStepApplied(before, messages[|messages| - 1], symbol);
      hide CoreStep, AppliedBy, Apply, Crossed, Positive;
      var applied := AppliedBy(before.book, messages[|messages| - 1], symbol);
      assert CoreRun(Core(book, false), messages, symbol) == CoreStep(before, messages[|messages| - 1], symbol);
      if applied != [] {
        ApplyPositive(before.book.bids, applied[0].bids);
        ApplyPositive(before.book.asks, applied[0].asks);
      }
    }
  }

  /** The events a connection applied after its snapshot. */
  function AppliedAfter(s: Snapshot, records: seq<Record>, symbol: string): seq<Event>
    requires FromSnapshot(s).Ready?
  {
    AppliedEvents(Core(FromSnapshot(s).book, false), Messages(records), symbol)
  }

  /** A report without a validation error covers the update IDs, is the
      last-writer-wins map over snapshot and applied levels, and holds a book of
      positive quantities that is not crossed. */
  lemma CleanReport(s: Snapshot, records: seq<Record>, symbol: string, offset: real)
    requires OffsetAllowed(offset) && Process(s, records, symbol, offset).value.error.None?
    ensures FromSnapshot(s).Ready? && Process(s, records, symbol, offset).value.book.Some?
    ensures var book := Process(s, records, symbol, offset).value.book.value;
            var applied := AppliedAfter(s, records, symbol);
            var bids, asks := s.bids.items + BidLevels(applied), s.asks.items + AskLevels(applied);
            && applied != []
            && book.last == applied[|applied| - 1].last
            && (forall id :: s.lastUpdateId.value < id <= book.last ==> Covered(applied, id))
            && (forall k :: 0 <= k < |applied| ==> s.lastUpdateId.value < applied[k].last)
            && (forall j, k :: 0 <= j < k < |applied| ==> applied[j].last < applied[k].last)
            && AllReadable(bids) && AllReadable(asks)
            && IsLastWriterMap(book.bids, bids) && IsLastWriterMap(book.asks, asks)
            && Sound(book)
  {
    hide Run, CoreRun, AppliedEvents, Apply, Controls;
    var start := FromSnapshot(s).book;
    var messages := Messages(records);
    OneTestOneCursor(start, records, symbol, offset);
    SnapshotIsSound(s);
    RunIsSound(start, messages, symbol);
    Coverage(start, messages, symbol);
    BookIsAppliedLevels(start, messages, symbol);
    EventsSplit(start, records, symbol, offset);
    var applied := AppliedAfter(s, records, symbol);
    ApplyConcat(map[], s.bids.items, BidLevels(applied));
    ApplyConcat(map[], s.asks.items, AskLevels(applied));
    ApplyOk(map[], s.bids.items + BidLevels(applied));
    ApplyOk(map[], s.asks.items + AskLevels(applied));
    ApplyIsLastWriterMap(s.bids.items + BidLevels(applied));
    ApplyIsLastWriterMap(s.asks.items + AskLevels(applied));
  }

  lemma StepCounts(p: Progress, r: Record, symbol: string, offset: real)
    requires p.error.None? && Aligned(p) && Step(p, r, symbol, offset).error.None?
    ensures var q := Step(p, r, symbol, offset);
            var applied := AppliedBy(p.book, r.message, symbol);
            && (q.synced <==> p.synced || applied != [])
            && q.events + q.controls == p.events + p.controls + 1
            && q.events - p.events == q.discarded + q.repeated - p.discarded - p.repeated + |applied|
            && (q.controls == if Decode(r.message, symbol).Ignored? then p.controls + 1 else p.controls)
  {
  }

  /** Control messages in a stream. */
  function Controls(messages: seq<Message>, symbol: string): nat {
    if messages == [] then 0
    else Controls(messages[..|messages| - 1], symbol)
         + if Decode(messages[|messages| - 1], symbol).Ignored? then 1 else 0
  }

  lemma ErrorStays(p: Progress, r: Record, symbol: string, offset: real)
    ensures p.error.Some? ==> Step(p, r, symbol, offset).error.Some?
  {
  }

  lemma EventsStep(book: Book, records: seq<Record>, symbol: string)
    requires records != []
    ensures var init, m := records[..|records| - 1], records[|records| - 1].message;
            var before := CoreRun(Core(book, false), Messages(init), symbol);
            && AppliedEvents(Core(book, false), Messages(records), symbol)
               == AppliedEvents(Core(book, false), Messages(init), symbol)
                  + (if before.failed then [] else AppliedBy(before.book, m, symbol))
            && Controls(Messages(records), symbol)
               == Controls(Messages(init), symbol) + (if Decode(m, symbol).Ignored? then 1 else 0)
  {
    hide AppliedBy, Decode, CoreStep;
    assert Messages(records)[..|records| - 1] == Messages(records[..|records| - 1]);
  }

  /** Synchronization is exactly the first applied event, and the events of an
      error-free run split into discarded, repeated-or-old and applied. */
  lemma {:induction false} EventsSplit(book: Book, records: seq<Record>, symbol: string, offset: real)
    requires Run(Begin(book), records, symbol, offset).error.None?
    ensures var p := Run(Begin(book), records, symbol, offset);
            var applied := AppliedEvents(Core(book, false), Messages(records), symbol);
            && (p.synced <==> applied != [])
            && p.events == p.discarded + p.repeated + |applied|
            && p.controls == Controls(Messages(records), symbol)
            && |records| == p.events + p.controls
  {
    if records != [] {
      hide CoreStep, Step, Decode, AppliedBy, Aligned;
      var init := records[..|records| - 1];
      var r := records[|records| - 1];
      var before := Run(Begin(book), init, symbol, offset);
      assert before.error.None? by { ErrorStays(before, r, symbol, offset); }
      OneTestOneCursor(book, init, symbol, offset);
      EventsSplit(book, init, symbol, offset);
      EventsStep(book, records, symbol);
      StepCounts(before, r, symbol, offset);
      hide Messages, AppliedEvents, Controls, CoreRun;
    }
  }

  // ------------------------------------------------------- bootstrap independence

  lemma StepHarmless(c: Core, m: Message, cursor: int, symbol: string)
    requires !CoreStep(c, m, symbol).failed && CoreStep(c, m, symbol).book.last <= cursor
    ensures Harmless(m, cursor, symbol) && c.book.last <= cursor && !c.failed
  {
    hide Apply, Crossed;
  }

  /** From an error-free prefix on, everything seen so far is at or below the cursor. */
  lemma {:induction false} PrefixIsHarmless(book: Book, xs: seq<Message>, cursor: int, symbol: string)
    requires !CoreRun(Core(book, false), xs, symbol).failed
    requires CoreRun(Core(book, false), xs, symbol).book.last <= cursor
    ensures forall i :: 0 <= i < |xs| ==> Harmless(xs[i], cursor, symbol)
  {
    if xs != [] {
      hide CoreStep, Harmless;
      var n := |xs| - 1;
      StepHarmless(CoreRun(Core(book, false), xs[..n], symbol), xs[n], cursor, symbol);
      PrefixIsHarmless(book, xs[..n], cursor, symbol);
      forall i | 0 <= i < n ensures Harmless(xs[i], cursor, symbol) {
        assert xs[i] == xs[..n][i];
      }
    }
  }

  lemma {:induction false} HarmlessRun(book: Book, xs: seq<Message>, symbol: string)
    requires forall i :: 0 <= i < |xs| ==> Harmless(xs[i], book.last, symbol)
    ensures CoreRun(Core(book, false), xs, symbol) == Core(book, false)
    ensures AppliedEvents(Core(book, false), xs, symbol) == []
  {
    if xs != [] {
      var init := xs[..|xs| - 1];
      forall i | 0 <= i < |init| ensures Harmless(init[i], book.last, symbol) { assert init[i] == xs[i]; }
      HarmlessRun(book, init, symbol);
    }
  }

  lemma AppliedStep(c: Core, init: seq<Message>, m: Message, symbol: string)
    ensures var before := CoreRun(c, init, symbol);
            AppliedEvents(c, init + [m], symbol)
            == AppliedEvents(c, init, symbol) + if before.failed then [] else AppliedBy(before.book, m, symbol)
  {
    hide AppliedBy, CoreRun;
    assert (init + [m])[..|init + [m]| - 1] == init;
  }

  lemma {:induction false} AppliedConcat(c: Core, xs: seq<Message>, ys: seq<Message>, symbol: string)
    ensures AppliedEvents(c, xs + ys, symbol)
         == AppliedEvents(c, xs, symbol) + AppliedEvents(CoreRun(c, xs, symbol), ys, symbol)
  {
    if ys == [] {
      assert xs + ys == xs;
    } else {
      hide AppliedEvents, AppliedBy, CoreRun;
      var init, m := ys[..|ys| - 1], ys[|ys| - 1];
      assert ys == init + [m] && xs + ys == (xs + init) + [m];
      AppliedConcat(c, xs, init, symbol);
      CoreConcat(c, xs, init, symbol);
      AppliedStep(c, xs + init, m, symbol);
      AppliedStep(CoreRun(c, xs, symbol), init, m, symbol);
    }
  }

  /** A snapshot equal to the book that an earlier one reaches after a prefix of an
      error-free stream leads, over the whole stream, to the same book and cursor.
      Its run synchronizes exactly when something is applied after the prefix, and then
      both reports have the same error, if any. */
  lemma LateBootstrap(early: Snapshot, late: Snapshot, xs: seq<Record>, ys: seq<Record>, symbol: string, offset: real)
    requires OffsetAllowed(offset) && FromSnapshot(early).Ready?
    requires var p := Run(Begin(FromSnapshot(early).book), xs, symbol, offset);
             p.error.None? && FromSnapshot(late) == Ready(p.book)
    requires Run(Begin(FromSnapshot(early).book), xs + ys, symbol, offset).error.None?
    ensures var a, b := Process(early, xs + ys, symbol, offset).value, Process(late, xs + ys, symbol, offset).value;
            var rest := AppliedEvents(Core(FromSnapshot(late).book, false), Messages(ys), symbol);
            a.book == b.book && a.events == b.events
            && b.error == if rest == [] then Some(NeverSynchronized) else a.error
  {
    hide Run, CoreRun, AppliedEvents, Controls, FromSnapshot, Harmless;
    var b1, b2 := FromSnapshot(early).book, FromSnapshot(late).book;
    var mx, my := Messages(xs), Messages(ys);
    assert Messages(xs + ys) == mx + my;
    AppliedConcat(Core(b1, false), mx, my, symbol);
    OneTestOneCursor(b1, xs, symbol, offset);
    OneTestOneCursor(b1, xs + ys, symbol, offset);
    OneTestOneCursor(b2, xs + ys, symbol, offset);
    CoreConcat(Core(b1, false), mx, my, symbol);
    CoreConcat(Core(b2, false), mx, my, symbol);
    PrefixIsHarmless(b1, mx, b2.last, symbol);
    HarmlessRun(b2, mx, symbol);
    AppliedConcat(Core(b2, false), mx, my, symbol);
    EventsSplit(b1, xs + ys, symbol, offset);
    EventsSplit(b2, xs + ys, symbol, offset);
  }

  /** Two sides agree wherever the levels are silent. */
  ghost predicate AgreeElsewhere(left: Side, right: Side, items: seq<RawLevel>)
    requires AllReadable(items)
  {
    (forall p :: !Names(items, p) ==> (p in left <==> p in right))
    && (forall p :: !Names(items, p) && p in left ==> left[p] == right[p])
  }

  lemma StepForgetsCut(before: Book, cut: Book, next: Message, symbol: string)
    requires CutInside(before, cut, next, symbol) && !CoreStep(Core(before, false), next, symbol).failed
    ensures CoreStep(Core(cut, false), next, symbol) == CoreStep(Core(before, false), next, symbol)
    ensures AppliedBy(before, next, symbol) != [] && AppliedBy(cut, next, symbol) != []
  {
    var ev := Decode(next, symbol).event;
    ApplyForgets(before.bids, cut.bids, ev.bids);
    ApplyForgets(before.asks, cut.asks, ev.asks);
    ApplyOk(cut.bids, ev.bids);
    ApplyOk(cut.asks, ev.asks);
    ApplyOk(before.bids, ev.bids);
    ApplyOk(before.asks, ev.asks);
    hide Apply, AgreeElsewhere, Crossed, Names;
  }

  /** The cut on the core machine: past the event, both starts are in one state. */
  lemma CoreCut(b1: Book, b2: Book, xs: seq<Message>, next: Message, symbol: string)
    requires !CoreRun(Core(b1, false), xs, symbol).failed
    requires !CoreRun(Core(b1, false), xs + [next], symbol).failed
    requires CutInside(CoreRun(Core(b1, false), xs, symbol).book, b2, next, symbol)
    ensures CoreRun(Core(b2, false), xs + [next], symbol) == CoreRun(Core(b1, false), xs + [next], symbol)
    ensures AppliedEvents(Core(b1, false), xs + [next], symbol) != []
    ensures AppliedEvents(Core(b2, false), xs + [next], symbol) != []
  {
    hide CoreStep, AppliedBy, AgreeElsewhere;
    var before := CoreRun(Core(b1, false), xs, symbol).book;
    PrefixIsHarmless(b1, xs, b2.last, symbol);
    HarmlessRun(b2, xs, symbol);
    assert (xs + [next])[..|xs + [next]| - 1] == xs;
    StepForgetsCut(before, b2, next, symbol);
  }

  /** The cut lies at or after the cursor and before the end of the next event, and
      the two books agree at every price that event leaves alone. */
  ghost predicate CutInside(before: Book, cut: Book, next: Message, symbol: string) {
    var d := Decode(next, symbol);
    && d.Accepted? && AllReadable(d.event.bids) && AllReadable(d.event.asks)
    && before.last <= cut.last < d.event.last
    && AgreeElsewhere(before.bids, cut.bids, d.event.bids)
    && AgreeElsewhere(before.asks, cut.asks, d.event.asks)
  }

  /** A snapshot may also be cut inside the range of the next event, and differ
      from the book before that event at the prices the event sets. */
  lemma BootstrapInsideEvent(early: Snapshot, late: Snapshot, xs: seq<Record>, next: Record, ys: seq<Record>,
                             symbol: string, offset: real)
    requires OffsetAllowed(offset) && FromSnapshot(early).Ready? && FromSnapshot(late).Ready?
    requires Run(Begin(FromSnapshot(early).book), xs + [next] + ys, symbol, offset).error.None?
    requires Run(Begin(FromSnapshot(early).book), xs, symbol, offset).error.None?
    requires CutInside(Run(Begin(FromSnapshot(early).book), xs, symbol, offset).book,
                       FromSnapshot(late).book, next.message, symbol)
    ensures var a, b := Process(early, xs + [next] + ys, symbol, offset).value,
                        Process(late, xs + [next] + ys, symbol, offset).value;
            a.book == b.book && a.error == b.error && a.events == b.events
  {
    hide Run, CoreRun, AppliedEvents, Controls, CutInside, FromSnapshot;
    var b1, b2 := FromSnapshot(early).book, FromSnapshot(late).book;
    var all := xs + [next] + ys;
    var head, my := Messages(xs) + [next.message], Messages(ys);
    var c1, c2 := Core(b1, false), Core(b2, false);
    assert Messages(all) == head + my;
    OneTestOneCursor(b1, xs, symbol, offset);
    OneTestOneCursor(b1, all, symbol, offset);
    OneTestOneCursor(b2, all, symbol, offset);
    CoreConcat(c1, head, my, symbol);
    CoreConcat(c2, head, my, symbol);
    if CoreRun(c1, head, symbol).failed { CoreFailedStays(CoreRun(c1, head, symbol), my, symbol); }
    CoreCut(b1, b2, Messages(xs), next.message, symbol);
    AppliedConcat(c1, head, my, symbol);
    AppliedConcat(c2, head, my, symbol);
    EventsSplit(b1, all, symbol, offset);
    EventsSplit(b2, all, symbol, offset);
  }

  // ------------------------------------------------------------------- pass

  /** The age of a record's event is counted and is not negative. */
  predicate AgeKept(r: Record, symbol: string, offset: real, ages: seq<real>) {
    var d := Decode(r.message, symbol);
    d.Ignored? || (d.Accepted? && var age := Age(r.receivedAt, d.event.time) + offset; age >= 0.0 && age in ages)
  }

  lemma StepAges(p: Progress, r: Record, symbol: string, offset: real)
    requires p.error.None? && Step(p, r, symbol, offset).error.None? && Step(p, r, symbol, offset).future == 0
    ensures var q := Step(p, r, symbol, offset);
            p.future == 0 && p.ages <= q.ages && AgeKept(r, symbol, offset, q.ages)
  {
    hide ApplyEvent, Decode, Age;
  }

  predicate AgesKept(records: seq<Record>, symbol: string, offset: real, ages: seq<real>) {
    forall i :: 0 <= i < |records| ==> AgeKept(records[i], symbol, offset, ages)
  }

  lemma AgesStayKept(init: seq<Record>, r: Record, symbol: string, offset: real, before: seq<real>, after: seq<real>)
    requires AgesKept(init, symbol, offset, before) && before <= after && AgeKept(r, symbol, offset, after)
    ensures AgesKept(init + [r], symbol, offset, after)
  {
    hide Decode, Age;
    forall i | 0 <= i < |init| ensures AgeKept((init + [r])[i], symbol, offset, after) {
      assert AgeKept(init[i], symbol, offset, before);
    }
  }

  lemma {:induction false} AgesAreAll(book: Book, records: seq<Record>, symbol: string, offset: real)
    requires var p := Run(Begin(book), records, symbol, offset); p.error.None? && p.future == 0
    ensures AgesKept(records, symbol, offset, Run(Begin(book), records, symbol, offset).ages)
  {
    if records != [] {
      hide Step, AgesKept, AgeKept;
      var init, r := records[..|records| - 1], records[|records| - 1];
      var before := Run(Begin(book), init, symbol, offset);
      assert records == init + [r];
      ErrorStays(before, r, symbol, offset);
      StepAges(before, r, symbol, offset);
      AgesAreAll(book, init, symbol, offset);
      AgesStayKept(init, r, symbol, offset, before.ages, Run(Begin(book), records, symbol, offset).ages);
    }
  }

  /** The record is an event of this age. */
  predicate IsAged(r: Record, symbol: string, offset: real, age: real) {
    var d := Decode(r.message, symbol);
    d.Accepted? && Age(r.receivedAt, d.event.time) + offset == age
  }

  /** Every age kept is of some record, and a future event is one of a negative age. */
  ghost predicate AgesCome(records: seq<Record>, symbol: string, offset: real, p: Progress) {
    && (forall age :: age in p.ages ==> exists i :: 0 <= i < |records| && IsAged(records[i], symbol, offset, age))
    && (p.future > 0 ==> exists i, age :: 0 <= i < |records| && IsAged(records[i], symbol, offset, age) && age < 0.0)
    && |p.ages| + p.future == p.events
  }

  lemma StepAgesCome(p: Progress, r: Record, symbol: string, offset: real)
    requires p.error.None? && Step(p, r, symbol, offset).error.None?
    ensures var q, d := Step(p, r, symbol, offset), Decode(r.message, symbol);
            if d.Accepted? then
              var age := Age(r.receivedAt, d.event.time) + offset;
              && q.events == p.events + 1
              && q.ages == (if age < 0.0 then p.ages else p.ages + [age])
              && q.future == p.future + if age < 0.0 then 1 else 0
            else q.events == p.events && q.ages == p.ages && q.future == p.future
  {
    hide ApplyEvent, Decode, Age;
  }

  lemma MoreAgesCome(init: seq<Record>, r: Record, symbol: string, offset: real, p: Progress)
    requires p.error.None? && Step(p, r, symbol, offset).error.None? && AgesCome(init, symbol, offset, p)
    ensures AgesCome(init + [r], symbol, offset, Step(p, r, symbol, offset))
  {
    StepAgesCome(p, r, symbol, offset);
    hide Step, Decode, Age;
    var all, q := init + [r], Step(p, r, symbol, offset);
    assert all[|init|] == r && forall i :: 0 <= i < |init| ==> all[i] == init[i];
    forall age | age in q.ages ensures exists i :: 0 <= i < |all| && IsAged(all[i], symbol, offset, age) {
      if age in p.ages {
        var i :| 0 <= i < |init| && IsAged(init[i], symbol, offset, age);
        assert IsAged(all[i], symbol, offset, age);
      } else {
        assert IsAged(all[|init|], symbol, offset, age);
      }
    }
    if p.future > 0 {
      var i, age :| 0 <= i < |init| && IsAged(init[i], symbol, offset, age) && age < 0.0;
      assert IsAged(all[i], symbol, offset, age);
    } else if q.future > 0 {
      assert IsAged(all[|init|], symbol, offset, Age(r.receivedAt, Decode(r.message, symbol).event.time) + offset);
    }
  }

  lemma {:induction false} AllAgesCome(book: Book, records: seq<Record>, symbol: string, offset: real)
    requires Run(Begin(book), records, symbol, offset).error.None?
    ensures AgesCome(records, symbol, offset, Run(Begin(book), records, symbol, offset))
  {
    if records != [] {
      hide Step, AgesCome;
      var init, r := records[..|records| - 1], records[|records| - 1];
      assert records == init + [r];
      ErrorStays(Run(Begin(book), init, symbol, offset), r, symbol, offset);
      AllAgesCome(book, init, symbol, offset);
      MoreAgesCome(init, r, symbol, offset, Run(Begin(book), init, symbol, offset));
    }
  }

  /** The rounded age is within the limit exactly while the age is within half a
      millisecond of it: the tie goes down, because the limit is an even number of
      milliseconds. */
  lemma RoundedWithinLimit(age: real)
    ensures RoundMilli(age) <= MAX_EVENT_AGE_SECONDS <==> age <= MAX_EVENT_AGE_SECONDS + 0.0005
  {
  }

  predicate Fresh(r: Record, symbol: string, offset: real) {
    var d := Decode(r.message, symbol);
    d.Accepted? ==> 0.0 <= Age(r.receivedAt, d.event.time) + offset <= MAX_EVENT_AGE_SECONDS + 0.0005
  }

  lemma PassedIsFresh(book: Book, records: seq<Record>, symbol: string, offset: real)
    requires Summarize(Close(Run(Begin(book), records, symbol, offset))).passed
    ensures forall i :: 0 <= i < |records| ==> Fresh(records[i], symbol, offset)
  {
    hide Run, Decode, Age, RoundMilli, AgesKept;
    var p := Run(Begin(book), records, symbol, offset);
    AgesAreAll(book, records, symbol, offset);
    RoundedWithinLimit(Largest(p.ages));
    forall i | 0 <= i < |records| ensures Fresh(records[i], symbol, offset) {
      assert AgeKept(records[i], symbol, offset, p.ages) by { KeptAt(records, symbol, offset, p.ages, i); }
    }
  }

  lemma KeptAt(records: seq<Record>, symbol: string, offset: real, ages: seq<real>, i: nat)
    requires AgesKept(records, symbol, offset, ages) && i < |records|
    ensures AgeKept(records[i], symbol, offset, ages)
  {
  }

  lemma NoneIsFuture(records: seq<Record>, symbol: string, offset: real, p: Progress)
    requires AgesCome(records, symbol, offset, p)
    ensures (forall i :: 0 <= i < |records| ==> Fresh(records[i], symbol, offset)) ==> p.future == 0
  {
    hide Decode, Age;
    if p.future > 0 {
      var i, age :| 0 <= i < |records| && IsAged(records[i], symbol, offset, age) && age < 0.0;
      assert !Fresh(records[i], symbol, offset);
    }
  }

  lemma FreshIsPassed(book: Book, records: seq<Record>, symbol: string, offset: real)
    requires Close(Run(Begin(book), records, symbol, offset)).error.None?
    requires forall i :: 0 <= i < |records| ==> Fresh(records[i], symbol, offset)
    ensures Summarize(Close(Run(Begin(book), records, symbol, offset))).passed
  {
    hide Run, Decode, Age, RoundMilli;
    var p := Run(Begin(book), records, symbol, offset);
    AllAgesCome(book, records, symbol, offset);
    NoneIsFuture(records, symbol, offset, p);
    if p.ages != [] {
      var oldest := Largest(p.ages);
      assert oldest in p.ages;
      var i :| 0 <= i < |records| && IsAged(records[i], symbol, offset, oldest);
      assert Fresh(records[i], symbol, offset);
      RoundedWithinLimit(Largest(p.ages));
    }
  }

  /** A connection passes exactly on a run without error in which no accepted event is dated
      in the future or older than the limit, to within the rounding. */
  lemma PassIsFresh(s: Snapshot, records: seq<Record>, symbol: string, offset: real)
    requires OffsetAllowed(offset)
    ensures var r := Process(s, records, symbol, offset).value;
            && (r.passed <==> r.error.None? && forall i :: 0 <= i < |records| ==> Fresh(records[i], symbol, offset))
            && (r.error.None? ==> r.events >= MIN_UPDATES)
  {
    hide Run, FromSnapshot, Fresh;
    if FromSnapshot(s).Ready? {
      var book := FromSnapshot(s).book;
      if Summarize(Close(Run(Begin(book), records, symbol, offset))).passed {
        PassedIsFresh(book, records, symbol, offset);
      }
      if Close(Run(Begin(book), records, symbol, offset)).error.None?
         && forall i :: 0 <= i < |records| ==> Fresh(records[i], symbol, offset)
      {
        FreshIsPassed(book, records, symbol, offset);
      }
    }
  }
}
