/** Which messages the Coinbase probe counts, and what it counts them as, in the terms of
    the messages alone. */
module Level2Reports {

  import opened PriceLevels
  import opened Level2Book

  // ------------------------------------------------------------- one message

  /** A change names a side, a positive price and a size that may be zero. */
  predicate IsChange(c: Change) {
    && c.Change? && (c.side == Buy || c.side == Sell)
    && c.price.Number? && c.price.value > 0.0 && c.size.Number? && c.size.value >= 0.0
  }

  predicate AreChanges(items: seq<Change>) {
    forall i :: 0 <= i < |items| ==> IsChange(items[i])
  }

  /** A snapshot level has a positive size. */
  predicate AllSized(items: seq<RawLevel>) {
    AllLegible(items) && forall i :: 0 <= i < |items| ==> items[i].quantity.value > 0.0
  }

  predicate DistinctPrices(items: seq<RawLevel>)
    requires AllLegible(items)
  {
    forall i, j :: 0 <= i < j < |items| ==> items[i].price.value != items[j].price.value
  }

  /** Levels of one side of a snapshot that can be read into an empty side. */
  predicate IsSnapshotSide(items: seq<RawLevel>) {
    AllSized(items) && DistinctPrices(items)
  }

  predicate AnyReadable(items: seq<Change>, i: int)
    requires 0 <= i <= |items|
  {
    AreChanges(items[..i]) && (i < |items| ==> !IsChange(items[i]))
  }

  lemma {:induction false} ChangesRead(bids: Side, asks: Side, items: seq<Change>)
    ensures ApplyChanges(bids, asks, items).ok <==> AreChanges(items)
  {
    if items != [] {
      var init := items[..|items| - 1];
      ChangesRead(bids, asks, init);
      assert items == init + [items[|items| - 1]];
      assert forall i :: 0 <= i < |init| ==> init[i] == items[i];
    }
  }

  lemma ReadableStep(init: seq<Change>, last: Change)
    ensures AreChanges(init + [last]) <==> AreChanges(init) && IsChange(last)
  {
    assert (init + [last])[|init|] == last;
    assert forall i :: 0 <= i < |init| ==> (init + [last])[i] == init[i];
  }

  /** The sides that the changes before the first unreadable one write. */
  lemma {:induction false} ChangesKeepPrefix(bids: Side, asks: Side, items: seq<Change>) returns (k: nat)
    ensures k <= |items| && AnyReadable(items, k)
    ensures var after := ApplyChanges(bids, asks, items);
            && after.bids == Apply(bids, WritesOf(items[..k], Buy)).side
            && after.asks == Apply(asks, WritesOf(items[..k], Sell)).side
            && (after.ok <==> k == |items|)
  {
    if items == [] {
      k := 0;
      assert items[..0] == items;
    } else {
      var n := |items| - 1;
      k := ChangesKeepPrefix(bids, asks, items[..n]);
      assert items[..n][..k] == items[..k];
      ChangesRead(bids, asks, items[..n]);
      ChangesRead(bids, asks, items);
      ReadableStep(items[..n], items[n]);
      assert items[..n] + [items[n]] == items;
      hide Apply, WritesOf, AreChanges, IsChange;
      if k == n && IsChange(items[n]) {
        k := |items|;
        assert items[..k] == items;
        ChangesAreApply(bids, asks, items);
      } else {
        assert k < n ==> items[..n][k] == items[k];
      }
    }
  }

  /** An update is counted if and only if a snapshot was seen, its changes are a non-empty
      array, each of them can be read, and the book they write is not crossed.  The changes
      before the first that cannot be read are written either way. */
  lemma UpdateCounts(b: Book, changes: Changes)
    ensures var r := ApplyUpdate(b, changes);
            && r.book.seen == b.seen
            && (r.outcome == Counts(UpdateMessage) <==>
                  && b.seen && changes.ChangeArray? && changes.items != [] && AreChanges(changes.items)
                  && !Crossed(Apply(b.bids, WritesOf(changes.items, Buy)).side,
                              Apply(b.asks, WritesOf(changes.items, Sell)).side))
            && (r.outcome != Counts(UpdateMessage) ==> r.outcome == Invalid)
            && (!b.seen || !changes.ChangeArray? || changes.items == [] ==> r.book == b)
            && (b.seen && changes.ChangeArray? ==>
                  exists k :: 0 <= k <= |changes.items| && AnyReadable(changes.items, k)
                    && r.book.bids == Apply(b.bids, WritesOf(changes.items[..k], Buy)).side
                    && r.book.asks == Apply(b.asks, WritesOf(changes.items[..k], Sell)).side)
  {
    if changes.ChangeArray? {
      var k := ChangesKeepPrefix(b.bids, b.asks, changes.items);
      ChangesRead(b.bids, b.asks, changes.items);
      if k == |changes.items| { assert changes.items[..k] == changes.items; }
      hide Apply, WritesOf, ApplyChanges, AreChanges, Crossed;
    }
  }

  predicate HasLevelAt(items: seq<RawLevel>, price: real)
    requires AllLegible(items)
  {
    exists i :: 0 <= i < |items| && items[i].price.value == price
  }

  lemma SnapshotSideStep(init: seq<RawLevel>, last: RawLevel)
    ensures IsSnapshotSide(init + [last]) <==>
            && IsSnapshotSide(init) && Legible(last) && last.quantity.value > 0.0 && !HasLevelAt(init, last.price.value)
    ensures AllLegible(init) && Legible(last) ==>
              && AllLegible(init + [last])
              && forall p :: HasLevelAt(init + [last], p) <==> HasLevelAt(init, p) || last.price.value == p
  {
    var items := init + [last];
    LegibleStep(init, last);
    assert items[|init|] == last && forall i :: 0 <= i < |init| ==> items[i] == init[i];
    if AllLegible(items) {
      forall p ensures HasLevelAt(items, p) <==> HasLevelAt(init, p) || last.price.value == p {
        if HasLevelAt(init, p) {
          var i :| 0 <= i < |init| && init[i].price.value == p;
          assert items[i].price.value == p;
        }
        if last.price.value == p { assert items[|init|].price.value == p; }
      }
    }
    hide Legible;
  }

  lemma {:induction false} SideFills(items: seq<RawLevel>)
    ensures FillSide(map[], items).ok <==> IsSnapshotSide(items)
    ensures FillSide(map[], items).ok ==> forall p :: p in FillSide(map[], items).side <==> HasLevelAt(items, p)
  {
    if items != [] {
      var init, last := items[..|items| - 1], items[|items| - 1];
      assert items == init + [last];
      SideFills(init);
      SnapshotSideStep(init, last);
      hide HasLevelAt, DistinctPrices, AllSized;
    }
  }

  /** The levels of a side before the first that cannot be read or repeats a price. */
  predicate SidePrefix(items: seq<RawLevel>, k: int)
    requires 0 <= k <= |items|
  {
    IsSnapshotSide(items[..k]) && (k < |items| ==> !IsSnapshotSide(items[..k + 1]))
  }

  lemma {:induction false} SideKeepsPrefix(items: seq<RawLevel>) returns (k: nat)
    ensures k <= |items| && SidePrefix(items, k)
    ensures FillSide(map[], items) == Fill(Apply(map[], items[..k]).side, k == |items|)
  {
    if items == [] {
      k := 0;
      assert items[..0] == items;
    } else {
      var n := |items| - 1;
      k := SideKeepsPrefix(items[..n]);
      assert items[..n][..k] == items[..k];
      SideFills(items);
      if k == n && IsSnapshotSide(items) {
        k := |items|;
        assert items[..k] == items;
        FillIsApply(map[], items);
      } else if k == n {
        assert items[..k + 1] == items;
      } else {
        assert items[..n][..k + 1] == items[..k + 1];
      }
      hide Apply, IsSnapshotSide;
    }
  }

  /** A first snapshot, on an empty book, is counted if and only if it has two arrays that
      are not both empty, every size is positive, no price occurs twice on a side, and its
      own levels do not cross.  A later one is not counted and changes nothing.  The bids
      before the first fault are written, and the asks when the bids have none. */
  lemma SnapshotCounts(b: Book, bids: RawLevels, asks: RawLevels)
    requires !b.seen ==> b == EMPTY
    ensures var r := ApplySnapshot(b, bids, asks);
            && (r.outcome == Counts(SnapshotMessage) <==>
                  && !b.seen && bids.Levels? && asks.Levels? && !(bids.items == [] && asks.items == [])
                  && IsSnapshotSide(bids.items) && IsSnapshotSide(asks.items) && !LevelsCross(bids.items, asks.items))
            && (r.outcome != Counts(SnapshotMessage) ==> r.outcome == Invalid)
            && (b.seen || !bids.Levels? || !asks.Levels? || (bids.items == [] && asks.items == []) ==> r.book == b)
            && (!b.seen && bids.Levels? && asks.Levels? ==>
                  && (r.book.seen <==>
                        !(bids.items == [] && asks.items == [])
                        && IsSnapshotSide(bids.items) && IsSnapshotSide(asks.items))
                  && exists k, l :: 0 <= k <= |bids.items| && SidePrefix(bids.items, k)
                       && 0 <= l <= |asks.items| && SidePrefix(asks.items, l)
                       && r.book.bids == Apply(map[], bids.items[..k]).side
                       && r.book.asks == if k == |bids.items| then Apply(map[], asks.items[..l]).side else map[])
  {
    if !b.seen && bids.Levels? && asks.Levels? {
      var k := SideKeepsPrefix(bids.items);
      var l := SideKeepsPrefix(asks.items);
      SideFills(bids.items);
      SideFills(asks.items);
      assert bids.items[..|bids.items|] == bids.items && asks.items[..|asks.items|] == asks.items;
      if IsSnapshotSide(bids.items) && IsSnapshotSide(asks.items) { CrossedByLevels(bids.items, asks.items); }
      NothingApplied();
      assert SidePrefix(bids.items, k) && SidePrefix(asks.items, l);
      hide Apply, FillSide, Crossed, LevelsCross, IsSnapshotSide, SidePrefix;
    }
  }

  lemma NothingApplied()
    ensures Apply(map[], []) == Fill(map[], true)
  {
  }

  // ------------------------------------------------------------ whole streams

  /** The message has its place after those before it: a subscription or heartbeat, or, of
      the product, a first snapshot or an update after one, that can be read and leaves
      levels that do not cross. */
  ghost predicate Accepted(before: seq<Message>, m: Message, product: string) {
    m.Object? &&
    (|| m.kind == Text("subscriptions") || m.kind == Text("heartbeat")
     || (&& m.product == ProductId(product) && m.kind == Text("snapshot") && !HasSnapshot(before)
         && m.bids.Levels? && m.asks.Levels? && !(m.bids.items == [] && m.asks.items == [])
         && IsSnapshotSide(m.bids.items) && IsSnapshotSide(m.asks.items) && !LevelsCross(m.bids.items, m.asks.items))
     || (&& m.product == ProductId(product) && m.kind == Text("l2update") && HasSnapshot(before)
         && m.changes.ChangeArray? && m.changes.items != [] && AreChanges(m.changes.items)
         && LeavesUncrossed(before, m)))
  }

  /** Everything written so far and by the message, read as levels, does not cross. */
  ghost predicate LeavesUncrossed(before: seq<Message>, m: Message) {
    var bids, asks := AllBidWrites(before) + BidWrites(m), AllAskWrites(before) + AskWrites(m);
    AllLegible(bids) && AllLegible(asks) && !LevelsCross(bids, asks)
  }

  ghost predicate AllAccepted(ms: seq<Message>, product: string) {
    forall i :: 0 <= i < |ms| ==> Accepted(ms[..i], ms[i], product)
  }

  lemma AcceptedStep(init: seq<Message>, m: Message, product: string)
    ensures AllAccepted(init + [m], product) <==> AllAccepted(init, product) && Accepted(init, m, product)
  {
    hide Accepted;
    var ms := init + [m];
    assert ms[..|init|] == init && ms[|init|] == m;
    assert forall i :: 0 <= i < |init| ==> ms[..i] == init[..i] && ms[i] == init[i];
    if AllAccepted(ms, product) {
      forall i | 0 <= i < |init| ensures Accepted(init[..i], init[i], product) {
        assert Accepted(ms[..i], ms[i], product);
      }
      assert Accepted(ms[..|init|], ms[|init|], product);
    }
  }

  lemma {:induction false} WritesLegible(items: seq<Change>, side: ChangeSide)
    requires AreChanges(items)
    ensures AllLegible(WritesOf(items, side))
  {
    if items != [] {
      var init := items[..|items| - 1];
      assert forall i :: 0 <= i < |init| ==> init[i] == items[i];
      WritesLegible(init, side);
      assert forall i :: 0 <= i < |WritesOf(init, side)| ==> WritesOf(items, side)[i] == WritesOf(init, side)[i];
    }
  }

  lemma LegibleBoth(a: seq<RawLevel>, b: seq<RawLevel>)
    ensures AllLegible(a + b) <==> AllLegible(a) && AllLegible(b)
  {
    assert forall i :: 0 <= i < |a| ==> (a + b)[i] == a[i];
    assert forall i :: 0 <= i < |b| ==> (a + b)[|a| + i] == b[i];
  }

  lemma UpdateAccepted(before: seq<Message>, b: Book, m: Message)
    requires Apply(map[], AllBidWrites(before)) == Fill(b.bids, true)
    requires Apply(map[], AllAskWrites(before)) == Fill(b.asks, true)
    requires Is(m, "l2update") && m.changes.ChangeArray? && AreChanges(m.changes.items)
    ensures LeavesUncrossed(before, m) <==>
            !Crossed(Apply(b.bids, WritesOf(m.changes.items, Buy)).side,
                     Apply(b.asks, WritesOf(m.changes.items, Sell)).side)
  {
    WritesLegible(m.changes.items, Buy);
    WritesLegible(m.changes.items, Sell);
    AppliedWhenLegible(map[], AllBidWrites(before));
    AppliedWhenLegible(map[], AllAskWrites(before));
    LegibleBoth(AllBidWrites(before), BidWrites(m));
    LegibleBoth(AllAskWrites(before), AskWrites(m));
    ApplyConcat(map[], AllBidWrites(before), BidWrites(m));
    ApplyConcat(map[], AllAskWrites(before), AskWrites(m));
    CrossedByLevels(AllBidWrites(before) + BidWrites(m), AllAskWrites(before) + AskWrites(m));
    hide Apply, AllBidWrites, AllAskWrites, WritesOf, AllLegible, LevelsCross, Crossed;
  }

  lemma StepAccepted(before: seq<Message>, b: Book, m: Message, product: string)
    requires Apply(map[], AllBidWrites(before)) == Fill(b.bids, true)
    requires Apply(map[], AllAskWrites(before)) == Fill(b.asks, true)
    requires (b.seen <==> HasSnapshot(before)) && (!b.seen ==> b == EMPTY)
    ensures ApplyMessage(b, m, product).outcome.Counts? <==> Accepted(before, m, product)
  {
    hide Apply, ApplySnapshot, ApplyUpdate, AllBidWrites, AllAskWrites, HasSnapshot, AreChanges, IsSnapshotSide,
      LeavesUncrossed, Crossed, LevelsCross, WritesOf;
    if m.Object? {
      SnapshotCounts(b, m.bids, m.asks);
      UpdateCounts(b, m.changes);
      SnapshotOrUpdate(b, m);
      if m.kind == Text("l2update") && m.changes.ChangeArray? && AreChanges(m.changes.items) {
        UpdateAccepted(before, b, m);
      }
    }
  }

  lemma SnapshotOrUpdate(b: Book, m: Message)
    requires m.Object?
    ensures var r := ApplySnapshot(b, m.bids, m.asks); r.outcome.Counts? ==> r.outcome == Counts(SnapshotMessage)
    ensures var r := ApplyUpdate(b, m.changes); r.outcome.Counts? ==> r.outcome == Counts(UpdateMessage)
  {
  }

  /** A message other than an accepted snapshot leaves an unseen book as it was. */
  lemma UnseenStays(b: Book, m: Message, product: string)
    requires !b.seen && b == EMPTY && ApplyMessage(b, m, product).outcome.Counts?
    requires !ApplyMessage(b, m, product).book.seen
    ensures ApplyMessage(b, m, product).book == EMPTY
  {
  }

  lemma {:induction false} UnseenIsEmpty(ms: seq<Message>, product: string)
    requires !ReplayRun(ms, product).failed && !ReplayRun(ms, product).book.seen
    ensures ReplayRun(ms, product).book == EMPTY
  {
    if ms != [] {
      var init, m := ms[..|ms| - 1], ms[|ms| - 1];
      var b := ReplayRun(init, product).book;
      if !b.seen {
        UnseenIsEmpty(init, product);
        UnseenStays(b, m, product);
      } else {
        StepSeen(b, m, product);
      }
      hide ApplyMessage;
    }
  }

  /** Replay meets no error if and only if every message has its place. */
  lemma {:induction false} ReplayExactly(ms: seq<Message>, product: string)
    ensures !ReplayRun(ms, product).failed <==> AllAccepted(ms, product)
  {
    hide ApplyMessage, Apply, AllAccepted, Accepted, HasSnapshot, OneSnapshot, SnapshotBeforeUpdates, AllBidWrites,
      AllAskWrites, IsLastWriterMap, Crossed;
    if ms == [] {
      NoneToAccept(product);
    } else {
      var init, m := ms[..|ms| - 1], ms[|ms| - 1];
      assert ms == init + [m];
      ReplayExactly(init, product);
      AcceptedStep(init, m, product);
      if !ReplayRun(init, product).failed {
        var b := ReplayRun(init, product).book;
        CleanBook(init, product);
        SnapshotsInOrder(init, product);
        if !b.seen { UnseenIsEmpty(init, product); }
        StepAccepted(init, b, m, product);
      }
    }
  }

  lemma NoneToAccept(product: string)
    ensures AllAccepted([], product)
  {
  }

  // -------------------------------------------------------------- the counts

  function Kinds(ms: seq<Message>, kind: string): nat {
    if ms == [] then 0 else Kinds(ms[..|ms| - 1], kind) + if Is(ms[|ms| - 1], kind) then 1 else 0
  }

  /** An object with a product whose trimmed, upper-cased text is there and is another. */
  predicate OtherProduct(m: Message, product: string, normalize: string -> Normal) {
    && m.Object? && m.product.ProductId?
    && normalize(m.product.id) != Blank && normalize(m.product.id) != Normal(product)
  }

  function OtherProducts(ms: seq<Message>, product: string, normalize: string -> Normal): nat {
    if ms == [] then 0
    else
      OtherProducts(ms[..|ms| - 1], product, normalize)
      + if OtherProduct(ms[|ms| - 1], product, normalize) then 1 else 0
  }

  function KindsOf(ms: seq<Message>, kind: string, product: string, normalize: string -> Normal): nat {
    if ms == [] then 0
    else
      var m := ms[|ms| - 1];
      KindsOf(ms[..|ms| - 1], kind, product, normalize)
      + if Is(m, kind) && !OtherProduct(m, product, normalize) then 1 else 0
  }

  /** What a counted message is counted as, and what a message must be for a type error. */
  lemma CountedAs(b: Book, m: Message, product: string)
    ensures var o := ApplyMessage(b, m, product).outcome;
            && (o.Fault? <==> m.Object? && m.kind.Unhashable?)
            && (Is(m, "subscriptions") ==> o == Counts(Subscriptions))
            && (Is(m, "heartbeat") ==> o == Counts(Heartbeat))
            && (o == Counts(Subscriptions) ==> Is(m, "subscriptions"))
            && (o == Counts(Heartbeat) ==> Is(m, "heartbeat"))
            && (o == Counts(SnapshotMessage) ==> Is(m, "snapshot"))
            && (o == Counts(UpdateMessage) ==> Is(m, "l2update"))
  {
    hide Crossed, ApplyChanges, FillSide;
  }

  /** The counts of an error-free replay are those of its messages by kind. */
  lemma {:induction false} ReplayCounts(ms: seq<Message>, product: string)
    requires !ReplayRun(ms, product).failed
    ensures ReplayRun(ms, product).counts
         == Tally(Kinds(ms, "subscriptions"), Kinds(ms, "heartbeat"), Kinds(ms, "snapshot"), Kinds(ms, "l2update"))
  {
    if ms != [] {
      ReplayCounts(ms[..|ms| - 1], product);
      CountedAs(ReplayRun(ms[..|ms| - 1], product).book, ms[|ms| - 1], product);
      hide ApplyMessage;
    }
  }

  /** The counts of a live loop that handled these messages. */
  predicate LiveAccounts(l: Live, ms: seq<Message>, product: string, normalize: string -> Normal) {
    && l.unexpected == OtherProducts(ms, product, normalize)
    && l.counts.subscriptions == KindsOf(ms, "subscriptions", product, normalize)
    && l.counts.heartbeats == KindsOf(ms, "heartbeat", product, normalize)
    && l.handled == |ms| == l.unexpected + l.invalid + Total(l.counts) + (if l.broken then 1 else 0)
  }

  lemma LiveStepCounts(l: Live, init: seq<Message>, m: Message, product: string, normalize: string -> Normal)
    requires LiveAccounts(l, init, product, normalize) && !l.broken
    ensures var after := LiveStep(l, m, product, normalize);
            LiveAccounts(after, init + [m], product, normalize) && (after.broken <==> Breaks(m, product, normalize))
  {
    CountsGrow(init, m, product, normalize);
    CountedAs(l.book, m, product);
    UnexpectedIs(m, product, normalize);
    hide ApplyMessage, Is, OtherProduct, Unexpected, OtherProducts, KindsOf;
  }

  lemma CountsGrow(init: seq<Message>, m: Message, product: string, normalize: string -> Normal)
    ensures OtherProducts(init + [m], product, normalize)
         == OtherProducts(init, product, normalize) + if OtherProduct(m, product, normalize) then 1 else 0
    ensures forall kind :: KindsOf(init + [m], kind, product, normalize)
                        == KindsOf(init, kind, product, normalize)
                           + if Is(m, kind) && !OtherProduct(m, product, normalize) then 1 else 0
  {
    hide Is, OtherProduct;
    assert (init + [m])[..|init + [m]| - 1] == init;
  }

  lemma UnexpectedIs(m: Message, product: string, normalize: string -> Normal)
    ensures Unexpected(m, product, normalize) <==> OtherProduct(m, product, normalize)
  {
  }

  /** The live loop counts every message it handles once: under its kind, as of an
      unexpected product, as invalid, or as the type error that ends it, which is the first
      message of the product or of none whose type cannot be hashed. */
  lemma {:induction false} LiveCounts(ms: seq<Message>, product: string, normalize: string -> Normal)
    ensures var l := LiveRun(ms, product, normalize);
            && l.handled <= |ms| && LiveAccounts(l, ms[..l.handled], product, normalize)
            && (forall i :: 0 <= i < |ms| && Breaks(ms[i], product, normalize) ==> l.broken && l.handled <= i + 1)
            && (l.broken ==> 0 < l.handled && Breaks(ms[l.handled - 1], product, normalize))
            && (!l.broken ==> l.handled == |ms|)
  {
    hide LiveAccounts, LiveStep, Breaks;
    if ms == [] {
      assert LiveAccounts(LiveRun([], product, normalize), [], product, normalize) by {
        NothingLive(product, normalize);
      }
    } else {
      var n := |ms| - 1;
      var init, m := ms[..n], ms[n];
      LiveCounts(init, product, normalize);
      var before, after := LiveRun(init, product, normalize), LiveRun(ms, product, normalize);
      assert forall i :: 0 <= i < n ==> ms[i] == init[i];
      if before.broken {
        BrokenStays(before, m, product, normalize);
        assert init[..before.handled] == ms[..before.handled];
      } else {
        assert init[..before.handled] == init && init + [m] == ms;
        LiveStepCounts(before, init, m, product, normalize);
        HandledAll(after, ms, product, normalize);
        assert ms[..after.handled] == ms;
      }
    }
  }

  lemma NothingLive(product: string, normalize: string -> Normal)
    ensures LiveAccounts(LiveRun([], product, normalize), [], product, normalize)
  {
  }

  lemma BrokenStays(l: Live, m: Message, product: string, normalize: string -> Normal)
    ensures l.broken ==> LiveStep(l, m, product, normalize) == l
  {
  }

  lemma HandledAll(l: Live, ms: seq<Message>, product: string, normalize: string -> Normal)
    requires LiveAccounts(l, ms, product, normalize)
    ensures l.handled == |ms|
  {
  }

  predicate Breaks(m: Message, product: string, normalize: string -> Normal) {
    m.Object? && m.kind.Unhashable? && !OtherProduct(m, product, normalize)
  }
}
