/** The Coinbase level-2 probe: a book built from one snapshot and its updates,
    kept live while bad messages are skipped, and rebuilt from the raw spool. */
module Level2Book {
  import opened PriceLevels

  /** The `type` field: text, something else, or something that cannot be hashed. */
  datatype Kind = Text(text: string) | NoText | Unhashable

  datatype ChangeSide = Buy | Sell | UnknownSide

  datatype Change = MisshapenChange | Change(side: ChangeSide, price: Numeral, size: Numeral)

  datatype Changes = NoChangeArray | ChangeArray(items: seq<Change>)

  datatype Product = NoProduct | ProductId(id: string)

  datatype Message =
    | Undecodable
    | NonObject
    | Object(kind: Kind, product: Product, bids: RawLevels, asks: RawLevels, changes: Changes)

  datatype Book = Book(bids: Side, asks: Side, seen: bool)

  datatype Counted = Subscriptions | Heartbeat | SnapshotMessage | UpdateMessage

  /** `Invalid` is a value error, which the live loop catches; `Fault` is a type
      error, which ends it. */
  datatype Outcome = Counts(what: Counted) | Invalid | Fault

  datatype Result = Result(book: Book, outcome: Outcome)

  predicate ReadablePositive(level: RawLevel) {
    Readable(level) && level.quantity.value > 0.0
  }

  /** Reads one side of a snapshot: positive sizes, no price twice; stops at the
      first level at fault and keeps what was written. */
  function FillSide(side: Side, items: seq<RawLevel>): Fill {
    if items == [] then Fill(side, true)
    else
      var before := FillSide(side, items[..|items| - 1]);
      var level := items[|items| - 1];
      if !before.ok || !ReadablePositive(level) || level.price.value in before.side
      then Fill(before.side, false)
      else Fill(before.side[level.price.value := level.quantity.value], true)
  }

  function ApplySnapshot(b: Book, bids: RawLevels, asks: RawLevels): Result {
    if b.seen then Result(b, Invalid)
    else if !bids.Levels? || !asks.Levels? || (bids.items == [] && asks.items == []) then Result(b, Invalid)
    else
      var left := FillSide(b.bids, bids.items);
      if !left.ok then Result(b.(bids := left.side), Invalid)
      else
        var right := FillSide(b.asks, asks.items);
        if !right.ok then Result(b.(bids := left.side, asks := right.side), Invalid)
        else Result(Book(left.side, right.side, true),
                    if Crossed(left.side, right.side) then Invalid else Counts(SnapshotMessage))
  }

  predicate ReadableChange(c: Change) {
    c.Change? && !c.side.UnknownSide? && Readable(Level(c.price, c.size))
  }

  datatype Changed = Changed(bids: Side, asks: Side, ok: bool)

  function ApplyChanges(bids: Side, asks: Side, items: seq<Change>): Changed {
    if items == [] then Changed(bids, asks, true)
    else
      var before := ApplyChanges(bids, asks, items[..|items| - 1]);
      var c := items[|items| - 1];
      if !before.ok || !ReadableChange(c) then before.(ok := false)
      else if c.side.Buy? then before.(bids := Write(before.bids, c.price.value, c.size.value))
      else before.(asks := Write(before.asks, c.price.value, c.size.value))
  }

  function ApplyUpdate(b: Book, changes: Changes): Result {
    if !b.seen then Result(b, Invalid)
    else if !changes.ChangeArray? || changes.items == [] then Result(b, Invalid)
    else
      var after := ApplyChanges(b.bids, b.asks, changes.items);
      Result(b.(bids := after.bids, asks := after.asks),
             if !after.ok || Crossed(after.bids, after.asks) then Invalid else Counts(UpdateMessage))
  }

  function ApplyMessage(b: Book, m: Message, product: string): Result {
    if !m.Object? then Result(b, Invalid)
    else if m.kind.Unhashable? then Result(b, Fault)
    else if m.kind == Text("subscriptions") then Result(b, Counts(Subscriptions))
    else if m.kind == Text("heartbeat") then Result(b, Counts(Heartbeat))
    else if m.product != ProductId(product) then Result(b, Invalid)
    else if m.kind == Text("snapshot") then ApplySnapshot(b, m.bids, m.asks)
    else if m.kind == Text("l2update") then ApplyUpdate(b, m.changes)
    else Result(b, Invalid)
  }

  /** The message names another product once its text is trimmed, upper-cased and
      cut; `normalize` does that and gives nothing for blank text. */
  datatype Normal = Blank | Normal(id: string)

  predicate Unexpected(m: Message, product: string, normalize: string -> Normal) {
    m.Object? && m.product.ProductId?
    && var n := normalize(m.product.id); n.Normal? && n.id != product
  }

  datatype Tally = Tally(subscriptions: nat, heartbeats: nat, snapshots: nat, updates: nat)

  const NOTHING := Tally(0, 0, 0, 0)

  function Add(t: Tally, what: Counted): Tally {
    match what
    case Subscriptions => t.(subscriptions := t.subscriptions + 1)
    case Heartbeat => t.(heartbeats := t.heartbeats + 1)
    case SnapshotMessage => t.(snapshots := t.snapshots + 1)
    case UpdateMessage => t.(updates := t.updates + 1)
  }

  function Total(t: Tally): nat {
    t.subscriptions + t.heartbeats + t.snapshots + t.updates
  }

  const EMPTY := Book(map[], map[], false)

  /** The live loop.  `handled` counts the messages it took before a type error. */
  datatype Live = Live(book: Book, counts: Tally, unexpected: nat, invalid: nat, broken: bool, handled: nat)

  function LiveStep(l: Live, m: Message, product: string, normalize: string -> Normal): Live {
    if l.broken then l
    else
      var next := l.(handled := l.handled + 1);
      if Unexpected(m, product, normalize) then next.(unexpected := l.unexpected + 1)
      else
        var r := ApplyMessage(l.book, m, product);
        match r.outcome
        case Counts(what) => next.(book := r.book, counts := Add(l.counts, what))
        case Invalid => next.(book := r.book, invalid := l.invalid + 1)
        case Fault => next.(book := r.book, broken := true)
  }

  function LiveRun(ms: seq<Message>, product: string, normalize: string -> Normal): Live {
    if ms == [] then Live(EMPTY, NOTHING, 0, 0, false, 0)
    else LiveStep(LiveRun(ms[..|ms| - 1], product, normalize), ms[|ms| - 1], product, normalize)
  }

  /** Replay stops at the first error of either kind. */
  datatype Replayed = Replayed(book: Book, counts: Tally, failed: bool)

  function ReplayStep(r: Replayed, m: Message, product: string): Replayed {
    if r.failed then r
    else
      var a := ApplyMessage(r.book, m, product);
      if a.outcome.Counts? then Replayed(a.book, Add(r.counts, a.outcome.what), false)
      else r.(book := a.book, failed := true)
  }

  function ReplayRun(ms: seq<Message>, product: string): Replayed {
    if ms == [] then Replayed(EMPTY, NOTHING, false)
    else ReplayStep(ReplayRun(ms[..|ms| - 1], product), ms[|ms| - 1], product)
  }

  datatype Connection = Connection(live: Live, replayMatch: bool)

  /** What a connection reports: the spool holds the messages the loop handled. */
  function Collect(ms: seq<Message>, product: string, normalize: string -> Normal): Connection {
    var live := LiveRun(ms, product, normalize);
    HandledWithin(ms, product, normalize);
    var replay := ReplayRun(ms[..live.handled], product);
    Connection(live, !replay.failed && replay.book == live.book && replay.counts == live.counts)
  }

  lemma {:induction false} HandledWithin(ms: seq<Message>, product: string, normalize: string -> Normal)
    ensures var l := LiveRun(ms, product, normalize);
            l.handled <= |ms| && (!l.broken ==> l.handled == |ms|)
  {
    if ms != [] { HandledWithin(ms[..|ms| - 1], product, normalize); }
  }

  class BookState {
    var bids: Side
    var asks: Side
    var snapshotSeen: bool

    function Value(): Book
      reads this
    {
      Book(bids, asks, snapshotSeen)
    }

    constructor ()
      ensures Value() == EMPTY
    {
      bids, asks, snapshotSeen := map[], map[], false;
    }

    method ReadSnapshot(rawBids: RawLevels, rawAsks: RawLevels) returns (outcome: Outcome)
      modifies this
      ensures Result(Value(), outcome) == ApplySnapshot(old(Value()), rawBids, rawAsks)
    {
      if snapshotSeen { return Invalid; }
      if !rawBids.Levels? || !rawAsks.Levels? || (rawBids.items == [] && rawAsks.items == []) { return Invalid; }
      var ok;
      bids, ok := FillInPlace(bids, rawBids.items);
      if !ok { return Invalid; }
      asks, ok := FillInPlace(asks, rawAsks.items);
      if !ok { return Invalid; }
      snapshotSeen := true;
      var crossed := FindCrossing(bids, asks);
      outcome := if crossed then Invalid else Counts(SnapshotMessage);
    }

    method ReadUpdate(changes: Changes) returns (outcome: Outcome)
      modifies this
      ensures Result(Value(), outcome) == ApplyUpdate(old(Value()), changes)
    {
      if !snapshotSeen { return Invalid; }
      if !changes.ChangeArray? || changes.items == [] { return Invalid; }
      var items := changes.items;
      var i := 0;
      while i < |items|
        invariant 0 <= i <= |items| && snapshotSeen
        invariant ApplyChanges(old(bids), old(asks), items[..i]) == Changed(bids, asks, true)
      {
        assert items[..i + 1][..i] == items[..i];
        if !ReadableChange(items[i]) {
          ChangesStopped(old(bids), old(asks), items, i + 1);
          return Invalid;
        }
        if items[i].side.Buy? {
          bids := Write(bids, items[i].price.value, items[i].size.value);
        } else {
          asks := Write(asks, items[i].price.value, items[i].size.value);
        }
        i := i + 1;
      }
      assert items[..i] == items;
      var crossed := FindCrossing(bids, asks);
      outcome := if crossed then Invalid else Counts(UpdateMessage);
    }

    method Read(m: Message, product: string) returns (outcome: Outcome)
      modifies this
      ensures Result(Value(), outcome) == ApplyMessage(old(Value()), m, product)
    {
      if !m.Object? { return Invalid; }
      if m.kind.Unhashable? { return Fault; }
      if m.kind == Text("subscriptions") { return Counts(Subscriptions); }
      if m.kind == Text("heartbeat") { return Counts(Heartbeat); }
      if m.product != ProductId(product) { return Invalid; }
      if m.kind == Text("snapshot") {
        outcome := ReadSnapshot(m.bids, m.asks);
      } else if m.kind == Text("l2update") {
        outcome := ReadUpdate(m.changes);
      } else {
        outcome := Invalid;
      }
    }
  }

  method FillInPlace(before: Side, items: seq<RawLevel>) returns (side: Side, ok: bool)
    ensures Fill(side, ok) == FillSide(before, items)
  {
    side := before;
    var i := 0;
    while i < |items|
      invariant 0 <= i <= |items|
      invariant Fill(side, true) == FillSide(before, items[..i])
    {
      assert items[..i + 1][..i] == items[..i];
      if !ReadablePositive(items[i]) || items[i].price.value in side {
        FillStopped(before, items, i + 1);
        return side, false;
      }
      side := side[items[i].price.value := items[i].quantity.value];
      i := i + 1;
    }
    assert items[..i] == items;
    ok := true;
  }

  lemma {:induction false} FillStopped(side: Side, items: seq<RawLevel>, i: nat)
    requires i <= |items| && !FillSide(side, items[..i]).ok
    ensures FillSide(side, items) == FillSide(side, items[..i])
    decreases |items|
  {
    if i == |items| {
      assert items[..i] == items;
    } else {
      var init := items[..|items| - 1];
      assert init[..i] == items[..i];
      FillStopped(side, init, i);
    }
  }

  lemma {:induction false} ChangesStopped(bids: Side, asks: Side, items: seq<Change>, i: nat)
    requires i <= |items| && !ApplyChanges(bids, asks, items[..i]).ok
    ensures ApplyChanges(bids, asks, items) == ApplyChanges(bids, asks, items[..i])
    decreases |items|
  {
    if i == |items| {
      assert items[..i] == items;
    } else {
      var init := items[..|items| - 1];
      assert init[..i] == items[..i];
      ChangesStopped(bids, asks, init, i);
    }
  }

  lemma {:induction false} ReplayStopped(ms: seq<Message>, product: string, i: nat)
    requires i <= |ms| && ReplayRun(ms[..i], product).failed
    ensures ReplayRun(ms, product) == ReplayRun(ms[..i], product)
    decreases |ms|
  {
    if i == |ms| {
      assert ms[..i] == ms;
    } else {
      assert ms[..|ms| - 1][..i] == ms[..i];
      ReplayStopped(ms[..|ms| - 1], product, i);
    }
  }

  lemma {:induction false} LiveStopped(ms: seq<Message>, product: string, normalize: string -> Normal, i: nat)
    requires i <= |ms| && LiveRun(ms[..i], product, normalize).broken
    ensures LiveRun(ms, product, normalize) == LiveRun(ms[..i], product, normalize)
    decreases |ms|
  {
    if i == |ms| {
      assert ms[..i] == ms;
    } else {
      assert ms[..|ms| - 1][..i] == ms[..i];
      LiveStopped(ms[..|ms| - 1], product, normalize, i);
    }
  }

  method Replay(ms: seq<Message>, product: string) returns (state: BookState, counts: Tally, failed: bool)
    ensures fresh(state)
    ensures Replayed(state.Value(), counts, failed) == ReplayRun(ms, product)
  {
    hide ApplyMessage;
    state := new BookState();
    counts := NOTHING;
    var i := 0;
    while i < |ms|
      invariant 0 <= i <= |ms| && fresh(state)
      invariant Replayed(state.Value(), counts, false) == ReplayRun(ms[..i], product)
    {
      assert ms[..i + 1][..i] == ms[..i];
      var outcome := state.Read(ms[i], product);
      if !outcome.Counts? {
        ReplayStopped(ms, product, i + 1);
        return state, counts, true;
      }
      counts := Add(counts, outcome.what);
      i := i + 1;
    }
    assert ms[..i] == ms;
    failed := false;
  }

  method CollectConnection(ms: seq<Message>, product: string, normalize: string -> Normal)
    returns (c: Connection)
    ensures c == Collect(ms, product, normalize)
  {
    hide ApplyMessage, Unexpected;
    var state := new BookState();
    var counts, unexpected, invalid, broken := NOTHING, 0, 0, false;
    var i := 0;
    while i < |ms| && !broken
      invariant 0 <= i <= |ms| && fresh(state)
      invariant Live(state.Value(), counts, unexpected, invalid, broken, i) == LiveRun(ms[..i], product, normalize)
    {
      assert ms[..i + 1][..i] == ms[..i];
      if Unexpected(ms[i], product, normalize) {
        unexpected := unexpected + 1;
      } else {
        var outcome := state.Read(ms[i], product);
        match outcome {
          case Counts(what) => counts := Add(counts, what);
          case Invalid => invalid := invalid + 1;
          case Fault => broken := true;
        }
      }
      i := i + 1;
    }
    if broken {
      LiveStopped(ms, product, normalize, i);
    } else {
      assert ms[..i] == ms;
    }
    var replayState, replayCounts, failed := Replay(ms[..i], product);
    c := Connection(Live(state.Value(), counts, unexpected, invalid, broken, i),
                    !failed && replayState.Value() == state.Value() && replayCounts == counts);
  }

  // ----------------------------------------------------------------- theorems

  predicate Clean(l: Live) {
    l.unexpected == 0 && l.invalid == 0 && !l.broken
  }

  /** A message counted in neither direction moves nothing. */
  lemma ControlKeepsBook(b: Book, m: Message, product: string, normalize: string -> Normal)
    requires normalize(product) == Normal(product)
    requires Unexpected(m, product, normalize) && ApplyMessage(b, m, product).outcome.Counts?
    ensures ApplyMessage(b, m, product).book == b
  {
  }

  /** While replay has met no error, live has met none but unexpected products,
      has the same book, and has counted exactly that many messages fewer. */
  lemma {:induction false} ReplayBoundsLive(ms: seq<Message>, product: string, normalize: string -> Normal)
    requires normalize(product) == Normal(product) && !ReplayRun(ms, product).failed
    ensures var l, r := LiveRun(ms, product, normalize), ReplayRun(ms, product);
            l.book == r.book && l.invalid == 0 && !l.broken && l.handled == |ms|
            && Total(r.counts) == |ms| && Total(l.counts) + l.unexpected == |ms|
            && (l.unexpected == 0 ==> l.counts == r.counts)
  {
    if ms != [] {
      var init, m := ms[..|ms| - 1], ms[|ms| - 1];
      ReplayBoundsLive(init, product, normalize);
      var b := ReplayRun(init, product).book;
      if Unexpected(m, product, normalize) { ControlKeepsBook(b, m, product, normalize); }
      hide ApplyMessage, Unexpected;
    }
  }

  lemma {:induction false} CleanReplays(ms: seq<Message>, product: string, normalize: string -> Normal)
    requires Clean(LiveRun(ms, product, normalize))
    ensures var l, r := LiveRun(ms, product, normalize), ReplayRun(ms, product);
            !r.failed && l.book == r.book && l.counts == r.counts && l.handled == |ms|
  {
    if ms != [] {
      hide ApplyMessage, Unexpected;
      CleanReplays(ms[..|ms| - 1], product, normalize);
    }
  }

  /** Live and replay agree exactly when the live loop met no validation failure
      and was not ended by a type error. */
  lemma ReplayMatchesExactlyWhenClean(ms: seq<Message>, product: string, normalize: string -> Normal)
    requires normalize(product) == Normal(product)
    ensures var c := Collect(ms, product, normalize);
            c.replayMatch <==> Clean(c.live)
  {
    var live := LiveRun(ms, product, normalize);
    HandledWithin(ms, product, normalize);
    var spool := ms[..live.handled];
    LiveOfSpool(ms, product, normalize);
    if Clean(live) {
      CleanReplays(spool, product, normalize);
    }
    if !ReplayRun(spool, product).failed {
      ReplayBoundsLive(spool, product, normalize);
    }
  }

  /** A type error ends the live loop without a validation failure: cleanliness has to say
      so apart, or the equivalence above would fail. */
  lemma TypeErrorIsNoFailure(product: string, normalize: string -> Normal)
    ensures var ms := [Object(Unhashable, NoProduct, NotArray, NotArray, NoChangeArray)];
            var c := Collect(ms, product, normalize);
            c.live.unexpected == 0 && c.live.invalid == 0 && c.live.broken && !c.replayMatch
  {
    var ms := [Object(Unhashable, NoProduct, NotArray, NotArray, NoChangeArray)];
    assert ms[..|ms| - 1] == [] && ms[..1] == ms;
    assert LiveRun([], product, normalize).book == EMPTY && !LiveRun([], product, normalize).broken;
    assert LiveRun(ms, product, normalize) == Live(EMPTY, NOTHING, 0, 0, true, 1);
  }

  /** Nothing after the last handled message matters to the live loop. */
  lemma {:induction false} LiveOfSpool(ms: seq<Message>, product: string, normalize: string -> Normal)
    ensures var live := LiveRun(ms, product, normalize);
            live.handled <= |ms| && LiveRun(ms[..live.handled], product, normalize) == live
  {
    HandledWithin(ms, product, normalize);
    var live := LiveRun(ms, product, normalize);
    if live.handled == |ms| {
      assert ms[..live.handled] == ms;
    } else {
      var init := ms[..|ms| - 1];
      HandledWithin(init, product, normalize);
      LiveOfSpool(init, product, normalize);
      assert init[..live.handled] == ms[..live.handled];
    }
  }

  predicate Is(m: Message, kind: string) {
    m.Object? && m.kind == Text(kind)
  }

  lemma StepSeen(b: Book, m: Message, product: string)
    requires ApplyMessage(b, m, product).outcome.Counts?
    ensures var after := ApplyMessage(b, m, product).book;
            && (after.seen <==> b.seen || Is(m, "snapshot"))
            && (Is(m, "snapshot") ==> !b.seen) && (Is(m, "l2update") ==> b.seen)
  {
  }

  predicate HasSnapshot(ms: seq<Message>) {
    exists i :: 0 <= i < |ms| && Is(ms[i], "snapshot")
  }

  predicate OneSnapshot(ms: seq<Message>) {
    forall i, j :: 0 <= i < j < |ms| && Is(ms[i], "snapshot") ==> !Is(ms[j], "snapshot")
  }

  predicate SnapshotBeforeUpdates(ms: seq<Message>) {
    forall j :: 0 <= j < |ms| && Is(ms[j], "l2update") ==> HasSnapshot(ms[..j])
  }

  lemma MoreMessages(init: seq<Message>, m: Message)
    ensures HasSnapshot(init + [m]) <==> HasSnapshot(init) || Is(m, "snapshot")
    ensures OneSnapshot(init) && (Is(m, "snapshot") ==> !HasSnapshot(init)) ==> OneSnapshot(init + [m])
    ensures SnapshotBeforeUpdates(init) && (Is(m, "l2update") ==> HasSnapshot(init)) ==>
              SnapshotBeforeUpdates(init + [m])
  {
    hide Is;
    var ms := init + [m];
    assert ms[|init|] == m && forall i :: 0 <= i < |init| ==> ms[i] == init[i];
    if i :| 0 <= i < |init| && Is(init[i], "snapshot") { assert Is(ms[i], "snapshot"); }
    if SnapshotBeforeUpdates(init) && (Is(m, "l2update") ==> HasSnapshot(init)) {
      forall j | 0 <= j < |ms| && Is(ms[j], "l2update") ensures HasSnapshot(ms[..j]) {
        assert ms[..j] == init[..j];
        assert j == |init| ==> init[..j] == init;
      }
    }
  }

  lemma {:induction false} SnapshotsInOrder(ms: seq<Message>, product: string)
    requires !ReplayRun(ms, product).failed
    ensures ReplayRun(ms, product).book.seen <==> HasSnapshot(ms)
    ensures OneSnapshot(ms) && SnapshotBeforeUpdates(ms)
  {
    if ms != [] {
      hide ApplyMessage, Is, HasSnapshot, OneSnapshot, SnapshotBeforeUpdates;
      var init, m := ms[..|ms| - 1], ms[|ms| - 1];
      assert ms == init + [m];
      SnapshotsInOrder(init, product);
      StepSeen(ReplayRun(init, product).book, m, product);
      MoreMessages(init, m);
    }
  }

  /** In a clean run at most one snapshot occurs, and every update has it before. */
  lemma OneSnapshotFirst(ms: seq<Message>, product: string)
    requires !ReplayRun(ms, product).failed
    ensures ReplayRun(ms, product).book.seen <==> exists i :: 0 <= i < |ms| && Is(ms[i], "snapshot")
    ensures forall i, j :: 0 <= i < j < |ms| && Is(ms[i], "snapshot") ==> !Is(ms[j], "snapshot")
    ensures forall j :: 0 <= j < |ms| && Is(ms[j], "l2update") ==> exists i :: 0 <= i < j && Is(ms[i], "snapshot")
  {
    SnapshotsInOrder(ms, product);
    hide ReplayRun, Is;
    forall j | 0 <= j < |ms| && Is(ms[j], "l2update") ensures exists i :: 0 <= i < j && Is(ms[i], "snapshot") {
      var i :| 0 <= i < |ms[..j]| && Is(ms[..j][i], "snapshot");
      assert Is(ms[i], "snapshot");
    }
  }

  /** The bid writes of a message, as levels. */
  function BidWrites(m: Message): seq<RawLevel> {
    if Is(m, "snapshot") && m.bids.Levels? then m.bids.items
    else if Is(m, "l2update") && m.changes.ChangeArray? then WritesOf(m.changes.items, Buy)
    else []
  }

  function AskWrites(m: Message): seq<RawLevel> {
    if Is(m, "snapshot") && m.asks.Levels? then m.asks.items
    else if Is(m, "l2update") && m.changes.ChangeArray? then WritesOf(m.changes.items, Sell)
    else []
  }

  function WritesOf(items: seq<Change>, side: ChangeSide): seq<RawLevel> {
    if items == [] then []
    else
      var c := items[|items| - 1];
      WritesOf(items[..|items| - 1], side)
      + if c.Change? && c.side == side then [Level(c.price, c.size)] else []
  }

  function AllBidWrites(ms: seq<Message>): seq<RawLevel> {
    if ms == [] then [] else AllBidWrites(ms[..|ms| - 1]) + BidWrites(ms[|ms| - 1])
  }

  function AllAskWrites(ms: seq<Message>): seq<RawLevel> {
    if ms == [] then [] else AllAskWrites(ms[..|ms| - 1]) + AskWrites(ms[|ms| - 1])
  }

  lemma {:induction false} FillIsApply(side: Side, items: seq<RawLevel>)
    requires FillSide(side, items).ok
    ensures Apply(side, items) == FillSide(side, items)
  {
    if items != [] { FillIsApply(side, items[..|items| - 1]); }
  }

  lemma OneMoreWrite(side: Side, items: seq<RawLevel>, after: Side, level: RawLevel)
    requires Apply(side, items) == Fill(after, true) && Readable(level)
    ensures Apply(side, items + [level]) == Fill(Write(after, level.price.value, level.quantity.value), true)
  {
    hide Apply;
    ApplyOne(after, level);
    ApplyConcat(side, items, [level]);
  }

  lemma {:induction false} ChangesAreApply(bids: Side, asks: Side, items: seq<Change>)
    requires ApplyChanges(bids, asks, items).ok
    ensures var after := ApplyChanges(bids, asks, items);
            Apply(bids, WritesOf(items, Buy)) == Fill(after.bids, true)
            && Apply(asks, WritesOf(items, Sell)) == Fill(after.asks, true)
  {
    if items != [] {
      hide Apply, Write;
      var init, c := items[..|items| - 1], items[|items| - 1];
      ChangesAreApply(bids, asks, init);
      var before := ApplyChanges(bids, asks, init);
      if c.side.Buy? {
        OneMoreWrite(bids, WritesOf(init, Buy), before.bids, Level(c.price, c.size));
        assert WritesOf(items, Sell) == WritesOf(init, Sell);
      } else {
        OneMoreWrite(asks, WritesOf(init, Sell), before.asks, Level(c.price, c.size));
        assert WritesOf(items, Buy) == WritesOf(init, Buy);
      }
    }
  }

  lemma StepWrites(b: Book, m: Message, product: string)
    requires ApplyMessage(b, m, product).outcome.Counts?
    ensures var after := ApplyMessage(b, m, product).book;
            Apply(b.bids, BidWrites(m)) == Fill(after.bids, true)
            && Apply(b.asks, AskWrites(m)) == Fill(after.asks, true)
            && ((BidWrites(m) == [] && AskWrites(m) == []) || !Crossed(after.bids, after.asks))
  {
    if Is(m, "snapshot") {
      FillIsApply(b.bids, m.bids.items);
      FillIsApply(b.asks, m.asks.items);
    } else if Is(m, "l2update") {
      ChangesAreApply(b.bids, b.asks, m.changes.items);
    }
  }

  /** The book of a clean run is the last-writer-wins map of everything the
      messages wrote, holds positive sizes and is not crossed. */
  lemma {:induction false} CleanBook(ms: seq<Message>, product: string)
    requires !ReplayRun(ms, product).failed
    ensures var b := ReplayRun(ms, product).book;
            && Apply(map[], AllBidWrites(ms)) == Fill(b.bids, true)
            && Apply(map[], AllAskWrites(ms)) == Fill(b.asks, true)
            && AllReadable(AllBidWrites(ms)) && AllReadable(AllAskWrites(ms))
            && IsLastWriterMap(b.bids, AllBidWrites(ms)) && IsLastWriterMap(b.asks, AllAskWrites(ms))
            && Positive(b.bids) && Positive(b.asks) && !Crossed(b.bids, b.asks)
  {
    if ms != [] {
      var init, m := ms[..|ms| - 1], ms[|ms| - 1];
      CleanBook(init, product);
      var b := ReplayRun(init, product).book;
      StepWrites(b, m, product);
      hide ApplyMessage, BidWrites, AskWrites, Apply, Crossed, IsLastWriterMap;
      ApplyConcat(map[], AllBidWrites(init), BidWrites(m));
      ApplyConcat(map[], AllAskWrites(init), AskWrites(m));
      if BidWrites(m) == [] && AskWrites(m) == [] {
        assert AllBidWrites(ms) == AllBidWrites(init) && AllAskWrites(ms) == AllAskWrites(init);
      }
    }
    ApplyOk(map[], AllBidWrites(ms));
    ApplyOk(map[], AllAskWrites(ms));
    ApplyPositive(map[], AllBidWrites(ms));
    ApplyPositive(map[], AllAskWrites(ms));
    ApplyIsLastWriterMap(AllBidWrites(ms));
    ApplyIsLastWriterMap(AllAskWrites(ms));
  }
}
