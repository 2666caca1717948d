/** The Binance Spot Testnet depth qualifier: a book started from a REST snapshot
    and kept current by depth events whose update-ID ranges must join up. */
module DepthBook {

  import opened Options
  import opened Extremes
  import opened PriceLevels

  const MIN_UPDATES := 5
  const MAX_EVENT_AGE_SECONDS := 30.0
  const MAX_CLOCK_OFFSET_SECONDS := 5.0
  /** Last millisecond a date can hold. */
  const MAX_EVENT_MILLISECONDS := 253402300799999

  /** What turning a field into an integer gives. */
  datatype RawInt = NotInteger | Integer(value: int)

  datatype Error =
    | NotJson | NotObject | ProviderError | UnexpectedSymbol | InvalidInteger | InvertedRange
    | InvalidLevels | InvalidDecimal | DuplicatePrice | OneSidedSnapshot | CrossedBook
    | InvalidEventTime | GapBeforeSync | GapAfterSync | NeverSynchronized | TooFewUpdates

  datatype Snapshot = Snapshot(lastUpdateId: RawInt, bids: RawLevels, asks: RawLevels)

  /** One message of the stream.  `Other` is an object that is no depth update. */
  datatype Message =
    | Undecodable
    | NonObject
    | Other(hasCode: bool)
    | DepthUpdate(symbol: string, first: RawInt, last: RawInt, time: RawInt, bids: RawLevels, asks: RawLevels)

  /** A message and the second it was received. */
  datatype Record = Record(receivedAt: real, message: Message)

  datatype Event = Event(first: int, last: int, time: int, bids: seq<RawLevel>, asks: seq<RawLevel>)

  datatype Decoded = Ignored | Accepted(event: Event) | Rejected(error: Error)

  datatype Book = Book(bids: Side, asks: Side, last: int)

  datatype Applied = Applied(book: Book, error: Option<Error>)

  predicate PositiveInt(raw: RawInt) {
    raw.Integer? && raw.value > 0
  }

  function Decode(m: Message, symbol: string): Decoded {
    match m
    case Undecodable => Rejected(NotJson)
    case NonObject => Rejected(NotObject)
    case Other(hasCode) => if hasCode then Rejected(ProviderError) else Ignored
    case DepthUpdate(s, first, last, time, bids, asks) =>
      if s != symbol then Rejected(UnexpectedSymbol)
      else if !PositiveInt(first) || !PositiveInt(last) then Rejected(InvalidInteger)
      else if first.value > last.value then Rejected(InvertedRange)
      else if !PositiveInt(time) then Rejected(InvalidInteger)
      else if !WellShaped(bids) || !WellShaped(asks) then Rejected(InvalidLevels)
      else Accepted(Event(first.value, last.value, time.value, bids.items, asks.items))
  }

  /** An event on a book.  Bids are written before asks, the cursor moves before
      the crossing check, and nothing written is taken back on failure. */
  function ApplyEvent(book: Book, ev: Event): Applied {
    var bids := Apply(book.bids, ev.bids);
    if !bids.ok then Applied(book.(bids := bids.side), Some(InvalidDecimal))
    else
      var asks := Apply(book.asks, ev.asks);
      if !asks.ok then Applied(book.(bids := bids.side, asks := asks.side), Some(InvalidDecimal))
      else
        var after := Book(bids.side, asks.side, ev.last);
        Applied(after, if Crossed(after.bids, after.asks) then Some(CrossedBook) else None)
  }

  datatype Started = Refused(error: Error) | Ready(book: Book)

  function FromSnapshot(s: Snapshot): Started {
    if !PositiveInt(s.lastUpdateId) then Refused(InvalidInteger)
    else if !WellShaped(s.bids) then Refused(InvalidLevels)
    else
      var bids := ApplyDistinct(map[], s.bids.items);
      if !bids.ok then Refused(SnapshotError(s.bids.items))
      else if !WellShaped(s.asks) then Refused(InvalidLevels)
      else
        var asks := ApplyDistinct(map[], s.asks.items);
        if !asks.ok then Refused(SnapshotError(s.asks.items))
        else if bids.side == map[] || asks.side == map[] then Refused(OneSidedSnapshot)
        else if Crossed(bids.side, asks.side) then Refused(CrossedBook)
        else Ready(Book(bids.side, asks.side, s.lastUpdateId.value))
  }

  /** Why a snapshot side was refused: the first level at fault decides. */
  function SnapshotError(items: seq<RawLevel>): Error {
    if items == [] then InvalidDecimal
    else if !ApplyDistinct(map[], items[..|items| - 1]).ok then SnapshotError(items[..|items| - 1])
    else if !Readable(items[|items| - 1]) then InvalidDecimal
    else DuplicatePrice
  }

  /** The record loop's variables. */
  datatype Progress = Progress(
    book: Book, target: int, previous: int, synced: bool,
    events: nat, controls: nat, discarded: nat, repeated: nat,
    rawFuture: nat, future: nat, ages: seq<real>, error: Option<Error>)

  function Begin(book: Book): Progress {
    Progress(book, book.last + 1, book.last, false, 0, 0, 0, 0, 0, 0, [], None)
  }

  function Age(receivedAt: real, time: int): real {
    receivedAt - time as real / 1000.0
  }

  /** Counts an event and its age. */
  function Observe(p: Progress, receivedAt: real, ev: Event, offset: real): Progress {
    var raw := Age(receivedAt, ev.time);
    var age := raw + offset;
    p.(events := p.events + 1,
       rawFuture := if raw < 0.0 then p.rawFuture + 1 else p.rawFuture,
       future := if age < 0.0 then p.future + 1 else p.future,
       ages := if age < 0.0 then p.ages else p.ages + [age])
  }

  /** Discards, refuses or applies an event that has been counted. */
  function Place(p: Progress, ev: Event): Progress {
    if !p.synced then
      if ev.last < p.target then p.(discarded := p.discarded + 1)
      else if ev.first > p.target then p.(error := Some(GapBeforeSync))
      else
        var a := ApplyEvent(p.book, ev);
        if a.error.Some? then p.(book := a.book, error := a.error)
        else p.(book := a.book, previous := ev.last, synced := true)
    else
      if ev.last < p.previous + 1 then p.(repeated := p.repeated + 1)
      else if ev.first > p.previous + 1 then p.(error := Some(GapAfterSync))
      else
        var a := ApplyEvent(p.book, ev);
        if a.error.Some? then p.(book := a.book, error := a.error)
        else p.(book := a.book, previous := ev.last)
  }

  function Step(p: Progress, r: Record, symbol: string, offset: real): Progress {
    if p.error.Some? then p
    else match Decode(r.message, symbol)
      case Ignored => p.(controls := p.controls + 1)
      case Rejected(error) => p.(error := Some(error))
      case Accepted(ev) =>
        if ev.time > MAX_EVENT_MILLISECONDS then
          p.(events := p.events + 1, error := Some(InvalidEventTime))
        else Place(Observe(p, r.receivedAt, ev, offset), ev)
  }

  function Run(p: Progress, records: seq<Record>, symbol: string, offset: real): Progress {
    if records == [] then p
    else Step(Run(p, records[..|records| - 1], symbol, offset), records[|records| - 1], symbol, offset)
  }

  function Close(p: Progress): Progress {
    if p.error.Some? then p
    else if !p.synced then p.(error := Some(NeverSynchronized))
    else if p.events < MIN_UPDATES then p.(error := Some(TooFewUpdates))
    else p
  }

  datatype Report = Report(
    passed: bool, events: nat, controls: nat, discarded: nat, repeated: nat,
    future: nat, rawFuture: nat, maxAge: Option<real>, error: Option<Error>, book: Option<Book>)

  /** Rounds to thousandths, a tie going to the even neighbour. */
  function RoundMilli(x: real): (r: real)
    ensures -0.0005 <= r - x <= 0.0005
  {
    var scaled := x * 1000.0;
    var n := scaled.Floor;
    var up := scaled - n as real > 0.5 || (scaled - n as real == 0.5 && n % 2 != 0);
    (if up then n + 1 else n) as real / 1000.0
  }

  function Summarize(p: Progress): Report {
    var maxAge := if p.ages == [] then None else Some(RoundMilli(Largest(p.ages)));
    Report(
      p.error.None? && p.events >= MIN_UPDATES && p.future == 0
        && maxAge.Some? && maxAge.value <= MAX_EVENT_AGE_SECONDS,
      p.events, p.controls, p.discarded, p.repeated, p.future, p.rawFuture,
      maxAge, p.error, Some(p.book))
  }

  predicate OffsetAllowed(offset: real) {
    -MAX_CLOCK_OFFSET_SECONDS <= offset <= MAX_CLOCK_OFFSET_SECONDS
  }

  /** The whole qualification of one connection's records; `None` is the refusal
      of a clock offset outside the limit. */
  function Process(s: Snapshot, records: seq<Record>, symbol: string, offset: real): Option<Report> {
    if !OffsetAllowed(offset) then None
    else match FromSnapshot(s)
      case Refused(error) => Some(Report(false, 0, 0, 0, 0, 0, 0, None, Some(error), None))
      case Ready(book) => Some(Summarize(Close(Run(Begin(book), records, symbol, offset))))
  }

  class BookState {
    var bids: Side
    var asks: Side
    var lastUpdateId: int

    function Value(): Book
      reads this
    {
      Book(bids, asks, lastUpdateId)
    }

    constructor (id: int)
      ensures Value() == Book(map[], map[], id)
    {
      bids, asks, lastUpdateId := map[], map[], id;
    }

    method ReadSnapshot(s: Snapshot) returns (error: Option<Error>)
      requires PositiveInt(s.lastUpdateId) && Value() == Book(map[], map[], s.lastUpdateId.value)
      modifies this
      ensures error == match FromSnapshot(s) case Refused(e) => Some(e) case Ready(_) => None
      ensures FromSnapshot(s).Ready? ==> Value() == FromSnapshot(s).book
    {
      if !WellShaped(s.bids) { return Some(InvalidLevels); }
      var ok;
      bids, ok := ApplyDistinctInPlace(bids, s.bids.items);
      if !ok { return Some(SnapshotError(s.bids.items)); }
      if !WellShaped(s.asks) { return Some(InvalidLevels); }
      asks, ok := ApplyDistinctInPlace(asks, s.asks.items);
      if !ok { return Some(SnapshotError(s.asks.items)); }
      if bids == map[] || asks == map[] { return Some(OneSidedSnapshot); }
      error := ValidateCrossing();
    }

    method ValidateCrossing() returns (error: Option<Error>)
      ensures error == if Crossed(bids, asks) then Some(CrossedBook) else None
    {
      var crossed := FindCrossing(bids, asks);
      error := if crossed then Some(CrossedBook) else None;
    }

    method Update(ev: Event) returns (error: Option<Error>)
      modifies this
      ensures Applied(Value(), error) == ApplyEvent(old(Value()), ev)
    {
      var ok;
      bids, ok := ApplyInPlace(bids, ev.bids);
      if !ok { return Some(InvalidDecimal); }
      asks, ok := ApplyInPlace(asks, ev.asks);
      if !ok { return Some(InvalidDecimal); }
      lastUpdateId := ev.last;
      error := ValidateCrossing();
    }
  }

  lemma RunStopped(p: Progress, records: seq<Record>, symbol: string, offset: real, i: nat)
    requires i <= |records| && Run(p, records[..i], symbol, offset).error.Some?
    ensures Run(p, records, symbol, offset) == Run(p, records[..i], symbol, offset)
    decreases |records|
  {
    if i == |records| {
      assert records[..i] == records;
    } else {
      var init := records[..|records| - 1];
      assert init[..i] == records[..i];
      RunStopped(p, init, symbol, offset, i);
    }
  }

  lemma RunEmpty(p: Progress, records: seq<Record>, symbol: string, offset: real)
    ensures Run(p, records[..0], symbol, offset) == p
  {
  }

  lemma RunNext(p: Progress, records: seq<Record>, symbol: string, offset: real, i: nat)
    requires i < |records|
    ensures Run(p, records[..i + 1], symbol, offset)
         == Step(Run(p, records[..i], symbol, offset), records[i], symbol, offset)
  {
    assert records[..i + 1][..i] == records[..i];
  }

  /** The record loop: reads every record up to the first that fails. */
  method ReadRecords(state: BookState, records: seq<Record>, symbol: string, offset: real)
    returns (p: Progress)
    modifies state
    ensures p == Run(Begin(old(state.Value())), records, symbol, offset)
    ensures state.Value() == p.book
  {
    hide Run, ApplyEvent, Decode;
    ghost var start := Begin(state.Value());
    RunEmpty(start, records, symbol, offset);
    var target := state.lastUpdateId + 1;
    var previous := state.lastUpdateId;
    var synced := false;
    var events, controls, discarded, repeated, rawFuture, future := 0, 0, 0, 0, 0, 0;
    var ages := [];
    var error: Option<Error> := None;
    var i := 0;
    while i < |records| && error.None?
      invariant 0 <= i <= |records|
      invariant Progress(state.Value(), target, previous, synced, events, controls, discarded, repeated,
                         rawFuture, future, ages, error) == Run(start, records[..i], symbol, offset)
    {
      ghost var before := Run(start, records[..i], symbol, offset);
      RunNext(start, records, symbol, offset, i);
      match Decode(records[i].message, symbol) {
        case Ignored => controls := controls + 1;
        case Rejected(e) => error := Some(e);
        case Accepted(ev) =>
          events := events + 1;
          if ev.time > MAX_EVENT_MILLISECONDS {
            error := Some(InvalidEventTime);
          } else {
            var rawAge := Age(records[i].receivedAt, ev.time);
            if rawAge < 0.0 { rawFuture := rawFuture + 1; }
            var age := rawAge + offset;
            if age < 0.0 { future := future + 1; } else { ages := ages + [age]; }
            assert Progress(state.Value(), target, previous, synced, events, controls, discarded, repeated,
                            rawFuture, future, ages, error) == Observe(before, records[i].receivedAt, ev, offset);
            if !synced {
              if ev.last < target {
                discarded := discarded + 1;
              } else if ev.first > target {
                error := Some(GapBeforeSync);
              } else {
                error := state.Update(ev);
                if error.None? { previous, synced := ev.last, true; }
              }
            } else if ev.last < previous + 1 {
              repeated := repeated + 1;
            } else if ev.first > previous + 1 {
              error := Some(GapAfterSync);
            } else {
              error := state.Update(ev);
              if error.None? { previous := ev.last; }
            }
          }
      }
      i := i + 1;
    }
    p := Progress(state.Value(), target, previous, synced, events, controls, discarded, repeated,
                  rawFuture, future, ages, error);
    if error.Some? {
      RunStopped(start, records, symbol, offset, i);
    } else {
      assert records[..i] == records;
    }
  }

  method ProcessRecords(s: Snapshot, records: seq<Record>, symbol: string, offset: real)
    returns (report: Option<Report>)
    ensures report == Process(s, records, symbol, offset)
  {
    if !OffsetAllowed(offset) { return None; }
    if !PositiveInt(s.lastUpdateId) {
      return Some(Report(false, 0, 0, 0, 0, 0, 0, None, Some(InvalidInteger), None));
    }
    var state := new BookState(s.lastUpdateId.value);
    var error := state.ReadSnapshot(s);
    if error.Some? {
      return Some(Report(false, 0, 0, 0, 0, 0, 0, None, error, None));
    }
    var p := ReadRecords(state, records, symbol, offset);
    if p.error.None? && !p.synced { p := p.(error := Some(NeverSynchronized)); }
    if p.error.None? && p.events < MIN_UPDATES { p := p.(error := Some(TooFewUpdates)); }
    report := Some(Summarize(p));
  }
}
