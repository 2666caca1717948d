/** Price levels as the providers send them, the side of a book they build, and
    what a side means: for every price, the last level that names it decides. */
module PriceLevels {

  /** What turning a field into a decimal gives.  `Unreadable` covers a missing
      value, a boolean, text that is no number, and a number that is not finite. */
  datatype Numeral = Unreadable | Number(value: real)

  datatype RawLevel = BadShape | Level(price: Numeral, quantity: Numeral)

  datatype RawLevels = NotArray | Levels(items: seq<RawLevel>)

  /** One side of a book: price to positive quantity. */
  type Side = map<real, real>

  datatype Fill = Fill(side: Side, ok: bool)

  predicate WellShaped(raw: RawLevels) {
    raw.Levels? && forall i :: 0 <= i < |raw.items| ==> raw.items[i].Level?
  }

  /** A price must be positive and a quantity must not be negative. */
  predicate Readable(level: RawLevel) {
    level.Level? && level.price.Number? && level.price.value > 0.0
    && level.quantity.Number? && level.quantity.value >= 0.0
  }

  function Write(side: Side, price: real, quantity: real): Side {
    if quantity == 0.0 then side - {price} else side[price := quantity]
  }

  /** Applies levels in order and stops at the first unreadable one, keeping
      what was written before it. */
  function Apply(side: Side, items: seq<RawLevel>): Fill {
    if items == [] then Fill(side, true)
    else
      var before := Apply(side, items[..|items| - 1]);
      var level := items[|items| - 1];
      if !before.ok || !Readable(level) then Fill(before.side, false)
      else Fill(Write(before.side, level.price.value, level.quantity.value), true)
  }

  /** As `Apply`, but a positive level at a price already present is refused:
      how a snapshot is read. */
  function ApplyDistinct(side: Side, items: seq<RawLevel>): Fill {
    if items == [] then Fill(side, true)
    else
      var before := ApplyDistinct(side, items[..|items| - 1]);
      var level := items[|items| - 1];
      if !before.ok || !Readable(level)
         || (level.quantity.value != 0.0 && level.price.value in before.side)
      then Fill(before.side, false)
      else Fill(Write(before.side, level.price.value, level.quantity.value), true)
  }

  predicate AllReadable(items: seq<RawLevel>) {
    forall i :: 0 <= i < |items| ==> Readable(items[i])
  }

  /** Level `i` is the last one that names `price`. */
  predicate LastWrite(items: seq<RawLevel>, price: real, i: int)
    requires AllReadable(items)
  {
    0 <= i < |items| && items[i].price.value == price
    && forall j :: i < j < |items| ==> items[j].price.value != price
  }

  /** Some level names `price`. */
  predicate Names(items: seq<RawLevel>, price: real)
    requires AllReadable(items)
  {
    exists i :: 0 <= i < |items| && items[i].price.value == price
  }

  predicate Positive(side: Side) {
    forall p :: p in side ==> p > 0.0 && side[p] > 0.0
  }

  /** The best bid is at or above the best ask. */
  predicate Crossed(bids: Side, asks: Side) {
    exists b, a :: b in bids && a in asks && b >= a
  }

  /** The two ways of saying that a book is crossed agree: some bid reaches some
      ask exactly when the highest bid reaches the lowest ask. */
  lemma CrossedAtTheBest(bids: Side, asks: Side, best: real, worst: real)
    requires best in bids && forall b :: b in bids ==> b <= best
    requires worst in asks && forall a :: a in asks ==> worst <= a
    ensures Crossed(bids, asks) <==> best >= worst
  {
    if best >= worst {
      assert best in bids && worst in asks;
    }
  }

  lemma HasPrice(prices: set<real>)
    ensures prices == {} || exists p: real :: p in prices
  {
    if forall p: real :: p !in prices { assert prices == {}; }
  }

  method Highest(side: Side) returns (best: real)
    requires side != map[]
    ensures best in side && forall p :: p in side ==> p <= best
  {
    HasPrice(side.Keys);
    best :| best in side.Keys;
    var rest := side.Keys - {best};
    while rest != {}
      invariant rest <= side.Keys && best in side
      invariant forall p :: p in side && p !in rest ==> p <= best
    {
      HasPrice(rest);
      var p :| p in rest;
      if p > best { best := p; }
      rest := rest - {p};
    }
  }

  method Lowest(side: Side) returns (best: real)
    requires side != map[]
    ensures best in side && forall p :: p in side ==> best <= p
  {
    HasPrice(side.Keys);
    best :| best in side.Keys;
    var rest := side.Keys - {best};
    while rest != {}
      invariant rest <= side.Keys && best in side
      invariant forall p :: p in side && p !in rest ==> best <= p
    {
      HasPrice(rest);
      var p :| p in rest;
      if p < best { best := p; }
      rest := rest - {p};
    }
  }

  /** Compares the best prices, if both sides have one. */
  method FindCrossing(bids: Side, asks: Side) returns (crossed: bool)
    ensures crossed <==> Crossed(bids, asks)
  {
    if bids == map[] || asks == map[] { return false; }
    var bid := Highest(bids);
    var ask := Lowest(asks);
    CrossedAtTheBest(bids, asks, bid, ask);
    crossed := bid >= ask;
  }

  lemma {:induction false} ApplyOk(side: Side, items: seq<RawLevel>)
    ensures Apply(side, items).ok <==> AllReadable(items)
  {
    if items != [] {
      var init := items[..|items| - 1];
      ApplyOk(side, init);
      assert items == init + [items[|items| - 1]];
      if AllReadable(items) {
        forall i | 0 <= i < |init| ensures Readable(init[i]) { assert init[i] == items[i]; }
      }
      if AllReadable(init) && Readable(items[|items| - 1]) {
        forall i | 0 <= i < |items| ensures Readable(items[i]) {
          if i < |init| { assert items[i] == init[i]; }
        }
      }
    }
  }

  lemma {:induction false} ApplyConcat(side: Side, first: seq<RawLevel>, second: seq<RawLevel>)
    requires Apply(side, first).ok
    ensures Apply(side, first + second) == Apply(Apply(side, first).side, second)
  {
    var all := first + second;
    if second == [] {
      assert all == first;
    } else {
      ApplyConcat(side, first, second[..|second| - 1]);
      assert all[..|all| - 1] == first + second[..|second| - 1];
    }
  }

  lemma ApplyOne(side: Side, level: RawLevel)
    requires Readable(level)
    ensures Apply(side, [level]) == Fill(Write(side, level.price.value, level.quantity.value), true)
  {
    assert [level][..0] == [];
  }

  lemma {:induction false} ApplyPositive(side: Side, items: seq<RawLevel>)
    requires Positive(side)
    ensures Positive(Apply(side, items).side)
  {
    if items != [] {
      ApplyPositive(side, items[..|items| - 1]);
    }
  }

  /** A snapshot that is accepted builds what plain application builds. */
  lemma {:induction false} ApplyDistinctIsApply(side: Side, items: seq<RawLevel>)
    requires ApplyDistinct(side, items).ok
    ensures Apply(side, items) == ApplyDistinct(side, items)
  {
    if items != [] {
      ApplyDistinctIsApply(side, items[..|items| - 1]);
    }
  }

  /** A price no level names keeps what it had; a named one has the quantity of
      the last level that names it, and is absent when that quantity is zero. */
  lemma {:induction false} ApplyLastWriter(side: Side, items: seq<RawLevel>, price: real)
    requires AllReadable(items)
    ensures var after := Apply(side, items).side;
            if Names(items, price) then
              exists i :: LastWrite(items, price, i)
                && (price in after <==> items[i].quantity.value > 0.0)
                && (price in after ==> after[price] == items[i].quantity.value)
            else
              (price in after <==> price in side) && (price in after ==> after[price] == side[price])
  {
    ApplyOk(side, items);
    if items != [] {
      var init := items[..|items| - 1];
      var last := |items| - 1;
      assert forall i :: 0 <= i < last ==> init[i] == items[i];
      ApplyLastWriter(side, init, price);
      if items[last].price.value == price {
        assert LastWrite(items, price, last);
      } else if Names(init, price) {
        var i :| LastWrite(init, price, i)
          && (price in Apply(side, init).side <==> init[i].quantity.value > 0.0)
          && (price in Apply(side, init).side ==> Apply(side, init).side[price] == init[i].quantity.value);
        assert items[i].price.value == price;
        assert LastWrite(items, price, i);
      } else {
        forall i | 0 <= i < |items| ensures items[i].price.value != price {
          if i < last { assert items[i] == init[i]; }
        }
      }
    }
  }

  lemma LastWriteUnique(items: seq<RawLevel>, price: real, i: int, j: int)
    requires AllReadable(items) && LastWrite(items, price, i) && LastWrite(items, price, j)
    ensures i == j
  {
  }

  /** Two sides that differ only at prices the levels name become the same side. */
  lemma ApplyForgets(left: Side, right: Side, items: seq<RawLevel>)
    requires AllReadable(items)
    requires forall p :: !Names(items, p) ==> (p in left <==> p in right)
    requires forall p :: !Names(items, p) && p in left ==> left[p] == right[p]
    ensures Apply(left, items).side == Apply(right, items).side
  {
    var a, b := Apply(left, items).side, Apply(right, items).side;
    forall p ensures (p in a <==> p in b) && (p in a ==> a[p] == b[p]) {
      ApplyLastWriter(left, items, p);
      ApplyLastWriter(right, items, p);
      if Names(items, p) {
        forall i, j | LastWrite(items, p, i) && LastWrite(items, p, j) ensures i == j {
          LastWriteUnique(items, p, i, j);
        }
      }
    }
  }

  /** The last-writer-wins reading of a sequence of levels, for one side. */
  ghost predicate IsLastWriterMap(side: Side, items: seq<RawLevel>)
    requires AllReadable(items)
  {
    (forall p :: p in side <==> exists i :: LastWrite(items, p, i) && items[i].quantity.value > 0.0)
    && (forall p, i :: p in side && LastWrite(items, p, i) ==> side[p] == items[i].quantity.value)
  }

  lemma ApplyIsLastWriterMap(items: seq<RawLevel>)
    requires AllReadable(items)
    ensures IsLastWriterMap(Apply(map[], items).side, items)
  {
    var side := Apply(map[], items).side;
    forall p ensures p in side <==> exists i :: LastWrite(items, p, i) && items[i].quantity.value > 0.0 {
      ApplyLastWriter(map[], items, p);
      forall i, j | LastWrite(items, p, i) && LastWrite(items, p, j) ensures i == j {
        LastWriteUnique(items, p, i, j);
      }
    }
    forall p, i | p in side && LastWrite(items, p, i) ensures side[p] == items[i].quantity.value {
      ApplyLastWriter(map[], items, p);
      forall j | LastWrite(items, p, j) ensures i == j { LastWriteUnique(items, p, i, j); }
    }
  }

  /** Reads a list of levels into a side, one level at a time. */
  method ApplyInPlace(before: Side, items: seq<RawLevel>) returns (side: Side, ok: bool)
    ensures Fill(side, ok) == Apply(before, items)
  {
    side, ok := before, true;
    var i := 0;
    while i < |items| && ok
      invariant 0 <= i <= |items|
      invariant ok ==> Fill(side, true) == Apply(before, items[..i])
      invariant !ok ==> Fill(side, false) == Apply(before, items[..i])
    {
      var level := items[i];
      assert items[..i + 1][..i] == items[..i];
      if !Readable(level) {
        ok := false;
      } else if level.quantity.value == 0.0 {
        side := side - {level.price.value};
      } else {
        side := side[level.price.value := level.quantity.value];
      }
      i := i + 1;
    }
    if ok {
      assert items[..i] == items;
    } else {
      ApplyStopped(before, items, i);
    }
  }

  lemma {:induction false} ApplyStopped(side: Side, items: seq<RawLevel>, i: nat)
    requires i <= |items| && !Apply(side, items[..i]).ok
    ensures Apply(side, items) == Apply(side, items[..i])
    decreases |items|
  {
    if i == |items| {
      assert items[..i] == items;
    } else {
      var init := items[..|items| - 1];
      assert init[..i] == items[..i];
      ApplyStopped(side, init, i);
    }
  }

  lemma {:induction false} ApplyDistinctStopped(side: Side, items: seq<RawLevel>, i: nat)
    requires i <= |items| && !ApplyDistinct(side, items[..i]).ok
    ensures ApplyDistinct(side, items) == ApplyDistinct(side, items[..i])
    decreases |items|
  {
    if i == |items| {
      assert items[..i] == items;
    } else {
      var init := items[..|items| - 1];
      assert init[..i] == items[..i];
      ApplyDistinctStopped(side, init, i);
    }
  }

  /** Reads a snapshot's list of levels, refusing a repeated price. */
  method ApplyDistinctInPlace(before: Side, items: seq<RawLevel>) returns (side: Side, ok: bool)
    ensures Fill(side, ok) == ApplyDistinct(before, items)
  {
    side, ok := before, true;
    var i := 0;
    while i < |items| && ok
      invariant 0 <= i <= |items|
      invariant ok ==> Fill(side, true) == ApplyDistinct(before, items[..i])
      invariant !ok ==> Fill(side, false) == ApplyDistinct(before, items[..i])
    {
      var level := items[i];
      assert items[..i + 1][..i] == items[..i];
      if !Readable(level) {
        ok := false;
      } else if level.quantity.value == 0.0 {
        side := side - {level.price.value};
      } else if level.price.value in side {
        ok := false;
      } else {
        side := side[level.price.value := level.quantity.value];
      }
      i := i + 1;
    }
    if ok {
      assert items[..i] == items;
    } else {
      ApplyDistinctStopped(before, items, i);
    }
  }

  // ------------------------------------------- sides in terms of their levels alone

  predicate Legible(level: RawLevel) {
    && level.Level? && level.price.Number? && level.quantity.Number?
    && level.price.value > 0.0 && level.quantity.value >= 0.0
  }

  predicate AllLegible(items: seq<RawLevel>) {
    forall i :: 0 <= i < |items| ==> Legible(items[i])
  }

  /** Level `i` sets a quantity, and no later level names its price again. */
  predicate Stands(items: seq<RawLevel>, i: int)
    requires AllLegible(items)
  {
    0 <= i < |items| && items[i].quantity.value > 0.0
    && forall j :: i < j < |items| ==> items[j].price.value != items[i].price.value
  }

  /** A standing bid reaches a standing ask. */
  ghost predicate LevelsCross(bids: seq<RawLevel>, asks: seq<RawLevel>)
    requires AllLegible(bids) && AllLegible(asks)
  {
    exists i, j :: Stands(bids, i) && Stands(asks, j) && bids[i].price.value >= asks[j].price.value
  }

  /** No level sets a quantity at a price that has one. */
  ghost predicate NoneRepeated(items: seq<RawLevel>)
    requires AllLegible(items)
  {
    forall j :: 0 <= j < |items| && items[j].quantity.value > 0.0 ==>
      forall i :: Stands(items[..j], i) ==> items[i].price.value != items[j].price.value
  }

  /** The side holds the standing levels and nothing else. */
  lemma SideStands(items: seq<RawLevel>, price: real)
    requires AllLegible(items)
    ensures price in Apply(map[], items).side <==> exists i :: Stands(items, i) && items[i].price.value == price
    ensures forall i :: Stands(items, i) && items[i].price.value == price ==>
              price in Apply(map[], items).side && Apply(map[], items).side[price] == items[i].quantity.value
  {
    assert AllReadable(items);
    ApplyIsLastWriterMap(items);
    hide Apply;
    if i :| Stands(items, i) && items[i].price.value == price { assert LastWrite(items, price, i); }
    forall i | Stands(items, i) && items[i].price.value == price
      ensures price in Apply(map[], items).side && Apply(map[], items).side[price] == items[i].quantity.value
    {
      assert LastWrite(items, price, i);
    }
    if price in Apply(map[], items).side {
      var i :| LastWrite(items, price, i) && items[i].quantity.value > 0.0;
      assert Stands(items, i);
    }
  }

  lemma AppliedWhenLegible(side: Side, items: seq<RawLevel>)
    ensures Apply(side, items).ok <==> AllLegible(items)
  {
    ApplyOk(side, items);
    hide Apply;
    assert AllReadable(items) <==> AllLegible(items);
  }

  lemma CrossedByLevels(bids: seq<RawLevel>, asks: seq<RawLevel>)
    requires AllLegible(bids) && AllLegible(asks)
    ensures Crossed(Apply(map[], bids).side, Apply(map[], asks).side) <==> LevelsCross(bids, asks)
  {
    hide Apply;
    var b, a := Apply(map[], bids).side, Apply(map[], asks).side;
    if LevelsCross(bids, asks) {
      var i, j :| Stands(bids, i) && Stands(asks, j) && bids[i].price.value >= asks[j].price.value;
      SideStands(bids, bids[i].price.value);
      SideStands(asks, asks[j].price.value);
    }
    if Crossed(b, a) {
      var x, y :| x in b && y in a && x >= y;
      SideStands(bids, x);
      SideStands(asks, y);
    }
  }

  /** A snapshot side is accepted exactly when its levels are legible and none repeats a
      price that stands. */
  lemma {:induction false} DistinctWhenNoneRepeated(items: seq<RawLevel>)
    ensures ApplyDistinct(map[], items).ok <==> AllLegible(items) && NoneRepeated(items)
  {
    if items != [] {
      var n := |items| - 1;
      var init, last := items[..n], items[n];
      assert items == init + [last];
      DistinctWhenNoneRepeated(init);
      LegibleStep(init, last);
      if AllLegible(init) && Legible(last) { RepeatedStep(init, last); }
      if ApplyDistinct(map[], init).ok {
        ApplyDistinctIsApply(map[], init);
        if Legible(last) { SideStands(init, last.price.value); }
      }
      hide Apply, AllLegible, NoneRepeated, Stands;
    }
  }

  lemma LegibleStep(init: seq<RawLevel>, last: RawLevel)
    ensures AllLegible(init + [last]) <==> AllLegible(init) && Legible(last)
  {
    assert (init + [last])[|init|] == last;
    assert forall i :: 0 <= i < |init| ==> (init + [last])[i] == init[i];
  }

  lemma RepeatedStep(init: seq<RawLevel>, last: RawLevel)
    requires AllLegible(init) && Legible(last)
    ensures AllLegible(init + [last])
    ensures NoneRepeated(init + [last]) <==>
              NoneRepeated(init)
              && (last.quantity.value > 0.0 ==> forall i :: Stands(init, i) ==> init[i].price.value != last.price.value)
  {
    var items := init + [last];
    LegibleStep(init, last);
    assert items[..|init|] == init && items[|init|] == last;
    assert forall j :: 0 <= j < |init| ==> items[..j] == init[..j] && items[j] == init[j];
    hide Stands;
    if NoneRepeated(items) {
      forall j | 0 <= j < |init| && init[j].quantity.value > 0.0
        ensures forall i :: Stands(init[..j], i) ==> init[i].price.value != init[j].price.value
      {
        assert items[j] == init[j];
        forall i | Stands(init[..j], i) ensures init[i].price.value != init[j].price.value {
          assert Stands(items[..j], i);
          StandsWithin(init[..j], i);
        }
      }
      if last.quantity.value > 0.0 {
        forall i | Stands(init, i) ensures init[i].price.value != last.price.value {
          assert Stands(items[..|init|], i);
          StandsWithin(init, i);
        }
      }
    }
    if NoneRepeated(init)
       && (last.quantity.value > 0.0 ==> forall i :: Stands(init, i) ==> init[i].price.value != last.price.value)
    {
      forall j | 0 <= j < |items| && items[j].quantity.value > 0.0
        ensures forall i :: Stands(items[..j], i) ==> items[i].price.value != items[j].price.value
      {
        forall i | Stands(items[..j], i) ensures items[i].price.value != items[j].price.value {
          StandsWithin(items[..j], i);
          if j < |init| { assert Stands(init[..j], i); } else { assert Stands(init, i); }
        }
      }
    }
  }

  lemma StandsWithin(items: seq<RawLevel>, i: int)
    requires AllLegible(items) && Stands(items, i)
    ensures 0 <= i < |items|
  {
  }

  /** Writing stops at the first illegible level and keeps what was written before it. */
  lemma {:induction false} ApplyKeepsPrefix(side: Side, items: seq<RawLevel>) returns (k: nat)
    ensures k <= |items| && AllLegible(items[..k]) && (k < |items| ==> !Legible(items[k]))
    ensures Apply(side, items) == Fill(Apply(side, items[..k]).side, k == |items|)
  {
    if items == [] {
      k := 0;
      assert items[..0] == items;
    } else {
      var n := |items| - 1;
      k := ApplyKeepsPrefix(side, items[..n]);
      assert items[..n][..k] == items[..k];
      if k == n {
        AppliedWhenLegible(side, items[..n]);
        LegibleStep(items[..n], items[n]);
        assert items[..n] + [items[n]] == items;
        if Legible(items[n]) {
          k := |items|;
          assert items[..k] == items;
        }
      } else {
        assert items[..n][k] == items[k];
      }
    }
  }
}
