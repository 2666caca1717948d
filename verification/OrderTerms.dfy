/** The order candidates, the one selected, and what the transport guard forwards, in the
    terms of the quotes, the filters, the balances and the calls. */
module OrderTerms {

  import opened Options
  import opened Reals
  import opened OrderSizing

  // -------------------------------------------------------------------- one candidate

  predicate IsSteps(x: real, n: int, increment: real) { x == n as real * increment }

  ghost predicate OnGrid(x: real, increment: real) { exists n: int :: IsSteps(x, n, increment) }

  /** The last grid price up to the bid, or the first from the ask on, and a tick further off
      on a book whose bid reaches its ask. */
  ghost predicate IsPrice(m: Market, side: Side, price: real) {
    var tick := m.spec.tick;
    && OnGrid(price, tick)
    && match side
       case Buy => var target := if m.bid < m.ask then m.bid else m.bid - tick; price <= target < price + tick
       case Sell => var target := if m.bid < m.ask then m.ask else m.ask + tick; price - tick < target <= price
  }

  /** Two per cent above the symbol's smallest notional, nothing where it has none. */
  function Needed(spec: Spec): real {
    match spec.minNotional
    case Some(notional) => notional * 1.02
    case None => 0.0
  }

  function Cost(price: real, quantity: real): real { price * quantity }

  /** The fewest steps whose notional is what is needed. */
  ghost predicate IsFewest(spec: Spec, price: real, quantity: real) {
    OnGrid(quantity, spec.step) && Cost(price, quantity - spec.step) < Needed(spec) <= Cost(price, quantity)
  }

  ghost predicate IsQuantity(spec: Spec, price: real, quantity: real) {
    exists fewest :: IsFewest(spec, price, fewest)
      && quantity == if fewest < spec.minQuantity then spec.minQuantity else fewest
  }

  predicate Holds(balances: map<string, real>, asset: string, amount: real) {
    if asset in balances then amount <= balances[asset] else amount <= 0.0
  }

  /** A buy is paid for in the quote asset, a sell in the base asset. */
  predicate Covered(balances: map<string, real>, c: Candidate) {
    match c.side
    case Buy => Holds(balances, c.market.spec.quote, c.price * c.quantity)
    case Sell => Holds(balances, c.market.spec.base, c.quantity)
  }

  ghost predicate IsCandidate(m: Market, side: Side, balances: map<string, real>, c: Candidate) {
    && c.market == m && c.side == side && c.price > 0.0 && IsPrice(m, side, c.price)
    && IsQuantity(m.spec, c.price, c.quantity) && c.notional == c.price * c.quantity
    && (c.affordable <==> Covered(balances, c))
  }

  lemma GridIs(x: real, increment: real)
    ensures OnGrid(x, increment) <==> Multiple(x, increment)
  {
    forall n: int ensures IsSteps(x, n, increment) <==> IsTimes(x, n, increment) {}
  }

  lemma PriceFound(m: Market, side: Side)
    requires Admitted(m)
    ensures IsPrice(m, side, PassivePrice(m.bid, m.ask, m.spec.tick, side))
  {
    hide RoundDown, RoundUp, Multiple, OnGrid;
    var tick := m.spec.tick;
    GridIs(PassivePrice(m.bid, m.ask, tick, side), tick);
    if side.Buy? { RoundDownIs(if m.bid < m.ask then m.bid else m.bid - tick, tick); }
    else { RoundUpIs(if m.bid < m.ask then m.ask else m.ask + tick, tick); }
  }

  lemma OnePrice(m: Market, side: Side, p: real, q: real)
    requires Admitted(m) && IsPrice(m, side, p) && IsPrice(m, side, q)
    ensures p == q
  {
    hide Multiple, OnGrid;
    GridIs(p, m.spec.tick);
    GridIs(q, m.spec.tick);
    SameMultiple(p, q, m.spec.tick);
  }

  lemma NeededIs(spec: Spec)
    ensures NotionalFloor(spec) == Needed(spec)
  {
  }

  lemma FewestFound(spec: Spec, price: real)
    requires spec.step > 0.0 && price > 0.0
    ensures IsFewest(spec, price, RoundUp(Needed(spec) / price, spec.step))
  {
    hide RoundUp, Multiple, OnGrid, Needed;
    var need := Needed(spec) / price;
    var r := RoundUp(need, spec.step);
    RoundUpIs(need, spec.step);
    GridIs(r, spec.step);
    assert need * price == Needed(spec);
    Scaled(need, r, price);
    ScaledStrictly(r - spec.step, need, price);
    assert r * price == price * r && (r - spec.step) * price == price * (r - spec.step);
  }

  lemma OneFewest(spec: Spec, price: real, p: real, q: real)
    requires spec.step > 0.0 && price > 0.0 && IsFewest(spec, price, p) && IsFewest(spec, price, q)
    ensures p == q
  {
    hide Multiple, OnGrid, Needed, Cost;
    GridIs(p, spec.step);
    GridIs(q, spec.step);
    Dearer(price, p, q - spec.step);
    Dearer(price, q, p - spec.step);
    SameMultiple(p, q, spec.step);
  }

  lemma Dearer(price: real, x: real, y: real)
    requires price > 0.0 && Cost(price, x) > Cost(price, y)
    ensures x > y
  {
    if x <= y { Scaled(x, y, price); }
  }

  lemma QuantityFound(spec: Spec, price: real, quantity: real)
    requires spec.step > 0.0 && price > 0.0
    ensures IsQuantity(spec, price, quantity) <==> quantity == MinimumPracticalQuantity(spec, price)
  {
    hide RoundUp, IsFewest, Needed, NotionalFloor;
    NeededIs(spec);
    FewestFound(spec, price);
    var found := RoundUp(Needed(spec) / price, spec.step);
    if IsQuantity(spec, price, quantity) {
      var fewest :| IsFewest(spec, price, fewest)
        && quantity == if fewest < spec.minQuantity then spec.minQuantity else fewest;
      OneFewest(spec, price, fewest, found);
    }
  }

  lemma CoveredIs(balances: map<string, real>, c: Candidate)
    requires c.notional == c.price * c.quantity
    ensures Covered(balances, c) <==>
            if c.side.Buy? then Free(balances, c.market.spec.quote) >= c.notional
            else Free(balances, c.market.spec.base) >= c.quantity
  {
  }

  /** The candidate of a market and side: its passive price, least quantity and notional, and
      affordable exactly when the right free balance covers it; there is none exactly when
      the passive price is not positive. */
  lemma CandidateExactly(m: Market, side: Side, balances: map<string, real>, c: Candidate)
    requires Admitted(m)
    ensures CandidateFor(m, side, balances) == Some(c) <==> IsCandidate(m, side, balances, c)
    ensures CandidateFor(m, side, balances).None? <==> exists price :: IsPrice(m, side, price) && price <= 0.0
  {
    hide PassivePrice, MinimumPracticalQuantity, IsPrice, IsQuantity, Covered, Free;
    var price := PassivePrice(m.bid, m.ask, m.spec.tick, side);
    PriceFound(m, side);
    forall p | IsPrice(m, side, p) ensures p == price { OnePrice(m, side, p, price); }
    if price > 0.0 {
      QuantityFound(m.spec, price, c.quantity);
      QuantityFound(m.spec, price, MinimumPracticalQuantity(m.spec, price));
      if c.notional == c.price * c.quantity { CoveredIs(balances, c); }
      if IsCandidate(m, side, balances, c) {
        assert c.price == price && c.quantity == MinimumPracticalQuantity(m.spec, price);
        var made := CandidateFor(m, side, balances).value;
        assert made.affordable == c.affordable;
        assert made.notional == c.notional;
      }
    }
  }

  // ------------------------------------------------------------------- the selection

  /** The places of the candidates: the buy and then the sell of each market. */
  ghost predicate AtPlace(markets: seq<Market>, balances: map<string, real>, place: nat, c: Candidate) {
    && place < 2 * |markets|
    && IsCandidate(markets[place / 2], if place % 2 == 0 then Buy else Sell, balances, c)
  }

  /** Each candidate has a place, in ascending order, and no other place has one. */
  ghost predicate Placed(
      candidates: seq<Candidate>, places: seq<nat>, markets: seq<Market>, balances: map<string, real>)
  {
    && |places| == |candidates|
    && (forall k :: 0 <= k < |places| ==> AtPlace(markets, balances, places[k], candidates[k]))
    && (forall i, j :: 0 <= i < j < |places| ==> places[i] < places[j])
    && forall place: nat, c :: AtPlace(markets, balances, place, c) ==> place in places
  }

  function SideAt(place: nat): Side { if place % 2 == 0 then Buy else Sell }

  function At(markets: seq<Market>, balances: map<string, real>, place: nat): Option<Candidate>
    requires place < 2 * |markets| && forall i :: 0 <= i < |markets| ==> Admitted(markets[i])
  {
    CandidateFor(markets[place / 2], SideAt(place), balances)
  }

  lemma PlaceIs(markets: seq<Market>, balances: map<string, real>, place: nat, c: Candidate)
    requires place < 2 * |markets| && forall i :: 0 <= i < |markets| ==> Admitted(markets[i])
    ensures AtPlace(markets, balances, place, c) <==> At(markets, balances, place) == Some(c)
  {
    CandidateExactly(markets[place / 2], SideAt(place), balances, c);
  }

  /** The candidates of the first `n` places, and the places that have one. */
  function FirstCandidates(markets: seq<Market>, balances: map<string, real>, n: nat): seq<Candidate>
    requires n <= 2 * |markets| && forall i :: 0 <= i < |markets| ==> Admitted(markets[i])
  {
    if n == 0 then [] else FirstCandidates(markets, balances, n - 1) + Listed(At(markets, balances, n - 1))
  }

  function FirstPlaces(markets: seq<Market>, balances: map<string, real>, n: nat): seq<nat>
    requires n <= 2 * |markets| && forall i :: 0 <= i < |markets| ==> Admitted(markets[i])
  {
    if n == 0 then []
    else FirstPlaces(markets, balances, n - 1) + if At(markets, balances, n - 1).Some? then [n - 1] else []
  }

  lemma {:induction false} PlacesAreFirst(markets: seq<Market>, balances: map<string, real>, n: nat)
    requires n <= 2 * |markets| && forall i :: 0 <= i < |markets| ==> Admitted(markets[i])
    ensures var candidates, places := FirstCandidates(markets, balances, n), FirstPlaces(markets, balances, n);
            && |places| == |candidates| && (forall k :: 0 <= k < |places| ==> places[k] < n)
            && (forall k :: 0 <= k < |places| ==> At(markets, balances, places[k]) == Some(candidates[k]))
            && (forall i, j :: 0 <= i < j < |places| ==> places[i] < places[j])
  {
    hide At;
    if n > 0 { PlacesAreFirst(markets, balances, n - 1); }
  }

  lemma {:induction false} PlacesAreAll(markets: seq<Market>, balances: map<string, real>, n: nat, place: nat)
    requires place < n <= 2 * |markets| && forall i :: 0 <= i < |markets| ==> Admitted(markets[i])
    requires At(markets, balances, place).Some?
    ensures place in FirstPlaces(markets, balances, n)
  {
    hide At;
    if place < n - 1 {
      PlacesAreAll(markets, balances, n - 1, place);
    } else {
      assert place in FirstPlaces(markets, balances, n - 1) + [place];
    }
  }

  lemma {:induction false} CandidatesAreFirst(markets: seq<Market>, balances: map<string, real>, i: nat)
    requires i <= |markets| && forall k :: 0 <= k < |markets| ==> Admitted(markets[k])
    ensures Candidates(markets[..i], balances) == FirstCandidates(markets, balances, 2 * i)
  {
    hide CandidateFor, Listed, At, Candidates;
    if i == 0 {
      NoCandidates(markets[..0], balances);
    } else {
      CandidatesAreFirst(markets, balances, i - 1);
      MoreCandidates(markets, balances, i - 1);
      TwoPlaces(markets, balances, i - 1);
    }
  }

  lemma TwoPlaces(markets: seq<Market>, balances: map<string, real>, i: nat)
    requires i < |markets| && forall k :: 0 <= k < |markets| ==> Admitted(markets[k])
    ensures FirstCandidates(markets, balances, 2 * i + 2)
         == FirstCandidates(markets, balances, 2 * i) + Listed(CandidateFor(markets[i], Buy, balances))
            + Listed(CandidateFor(markets[i], Sell, balances))
  {
    hide CandidateFor, Listed;
    assert (2 * i) / 2 == i && (2 * i + 1) / 2 == i && SideAt(2 * i) == Buy && SideAt(2 * i + 1) == Sell;
  }

  /** The candidates are listed by market, the buy before the sell. */
  lemma CandidatesPlaced(markets: seq<Market>, balances: map<string, real>)
    requires forall i :: 0 <= i < |markets| ==> Admitted(markets[i])
    ensures exists places :: Placed(Candidates(markets, balances), places, markets, balances)
  {
    hide At, Candidates, FirstCandidates, IsCandidate;
    CandidatesAreFirst(markets, balances, |markets|);
    assert markets[..|markets|] == markets;
    PlacesAreFirst(markets, balances, 2 * |markets|);
    var candidates, places := Candidates(markets, balances), FirstPlaces(markets, balances, 2 * |markets|);
    hide FirstPlaces;
    forall k | 0 <= k < |places| ensures AtPlace(markets, balances, places[k], candidates[k]) {
      PlaceIs(markets, balances, places[k], candidates[k]);
    }
    forall place: nat, c | AtPlace(markets, balances, place, c) ensures place in places {
      PlaceIs(markets, balances, place, c);
      PlacesAreAll(markets, balances, 2 * |markets|, place);
    }
    assert Placed(candidates, places, markets, balances);
  }

  /** An order that may be sent from a place: covered, and of at most 25 in the quote asset. */
  ghost predicate Sendable(markets: seq<Market>, balances: map<string, real>, place: nat, c: Candidate) {
    AtPlace(markets, balances, place, c) && Covered(balances, c) && c.price * c.quantity <= 25.0
  }

  lemma SendableIs(markets: seq<Market>, balances: map<string, real>, place: nat, c: Candidate)
    requires AtPlace(markets, balances, place, c)
    ensures Sendable(markets, balances, place, c) <==> Acceptable(c)
  {
    hide Covered, IsPrice, IsQuantity;
  }

  lemma OneAtPlace(markets: seq<Market>, balances: map<string, real>, place: nat, c: Candidate, d: Candidate)
    requires forall i :: 0 <= i < |markets| ==> Admitted(markets[i])
    requires AtPlace(markets, balances, place, c) && AtPlace(markets, balances, place, d)
    ensures c == d
  {
    PlaceIs(markets, balances, place, c);
    PlaceIs(markets, balances, place, d);
  }

  lemma SendableListed(
      markets: seq<Market>, balances: map<string, real>, all: seq<Candidate>, places: seq<nat>,
      place: nat, c: Candidate)
    requires forall i :: 0 <= i < |markets| ==> Admitted(markets[i])
    requires Placed(all, places, markets, balances)
    ensures Sendable(markets, balances, place, c) <==>
            exists j :: 0 <= j < |all| && places[j] == place && all[j] == c && Acceptable(all[j])
  {
    hide AtPlace, Acceptable, Covered;
    if Sendable(markets, balances, place, c) {
      var j :| 0 <= j < |places| && places[j] == place;
      OneAtPlace(markets, balances, place, c, all[j]);
      SendableIs(markets, balances, place, c);
    }
    if j :| 0 <= j < |all| && places[j] == place && all[j] == c && Acceptable(all[j]) {
      SendableIs(markets, balances, place, c);
    }
  }

  /** `c` may be sent from its place, and nothing from an earlier one. */
  ghost predicate IsFirst(markets: seq<Market>, balances: map<string, real>, place: nat, c: Candidate) {
    && Sendable(markets, balances, place, c)
    && forall earlier: nat, d :: earlier < place ==> !Sendable(markets, balances, earlier, d)
  }

  lemma FirstIsFirst(
      markets: seq<Market>, balances: map<string, real>, all: seq<Candidate>, places: seq<nat>, k: nat)
    requires forall i :: 0 <= i < |markets| ==> Admitted(markets[i])
    requires Placed(all, places, markets, balances) && k < |all|
    requires Acceptable(all[k]) && forall j :: 0 <= j < k ==> !Acceptable(all[j])
    ensures IsFirst(markets, balances, places[k], all[k])
  {
    hide Acceptable, Sendable, AtPlace;
    SendableListed(markets, balances, all, places, places[k], all[k]);
    forall earlier: nat, d | earlier < places[k] ensures !Sendable(markets, balances, earlier, d) {
      SendableListed(markets, balances, all, places, earlier, d);
      forall j | 0 <= j < |all| && Acceptable(all[j]) ensures places[j] >= places[k] {
        assert j >= k;
      }
    }
  }

  /** The acceptable candidates are those sendable from a place, and the first of them in the
      list is the one of the first such place. */
  lemma FirstAcceptable(markets: seq<Market>, balances: map<string, real>)
    requires forall i :: 0 <= i < |markets| ==> Admitted(markets[i])
    ensures var all := Candidates(markets, balances);
            && ((exists c :: c in all && Acceptable(c)) <==>
                 exists place: nat, c :: Sendable(markets, balances, place, c))
            && forall k :: 0 <= k < |all| && Acceptable(all[k]) && (forall j :: 0 <= j < k ==> !Acceptable(all[j])) ==>
                 exists place: nat :: IsFirst(markets, balances, place, all[k])
  {
    hide AtPlace, Acceptable, Sendable, Candidates, IsFirst, Placed;
    var all := Candidates(markets, balances);
    CandidatesPlaced(markets, balances);
    var places :| Placed(all, places, markets, balances);
    assert |places| == |all| by { PlacedOneEach(all, places, markets, balances); }
    if c :| c in all && Acceptable(c) {
      var j :| 0 <= j < |all| && all[j] == c;
      SendableListed(markets, balances, all, places, places[j], c);
    }
    if place: nat, c :| Sendable(markets, balances, place, c) {
      SendableListed(markets, balances, all, places, place, c);
    }
    forall k | 0 <= k < |all| && Acceptable(all[k]) && forall j :: 0 <= j < k ==> !Acceptable(all[j])
      ensures exists place: nat :: IsFirst(markets, balances, place, all[k])
    {
      FirstIsFirst(markets, balances, all, places, k);
    }
  }

  lemma PlacedOneEach(
      candidates: seq<Candidate>, places: seq<nat>, markets: seq<Market>, balances: map<string, real>)
    requires Placed(candidates, places, markets, balances)
    ensures |places| == |candidates|
  {
  }

  // ------------------------------------------------------------------------ the guard

  /** A submission names its order by identity, a cancellation by the client's key. */
  predicate Names(call: Call, o: Order) {
    match call
    case Submit(_, order) => order == Some(o.id)
    case Cancel(_, client) => client == o.client
  }

  /** The first order the call names is in that state. */
  predicate FirstNamed(orders: seq<Order>, call: Call, state: OrderState) {
    exists k :: 0 <= k < |orders| && Names(call, orders[k]) && orders[k].state == state
      && forall j :: 0 <= j < k ==> !Names(call, orders[j])
  }

  lemma {:induction false} WhereNamed(orders: seq<Order>, call: Call) returns (k: nat)
    ensures StateWhere(orders, call).None? ==> forall j :: 0 <= j < |orders| ==> !Names(call, orders[j])
    ensures StateWhere(orders, call).Some? ==>
              k < |orders| && Names(call, orders[k]) && StateWhere(orders, call) == Some(orders[k].state)
              && forall j :: 0 <= j < k ==> !Names(call, orders[j])
  {
    k := 0;
    if orders != [] && !Names(call, orders[0]) {
      var rest := WhereNamed(orders[1..], call);
      k := rest + 1;
      assert forall j :: 0 < j < |orders| ==> orders[j] == orders[1..][j - 1];
    }
  }

  lemma StateIsFirstNamed(orders: seq<Order>, call: Call, state: OrderState)
    ensures StateWhere(orders, call) == Some(state) <==> FirstNamed(orders, call, state)
  {
    var k := WhereNamed(orders, call);
    hide Names, StateWhere;
    if FirstNamed(orders, call, state) {
      var i :| 0 <= i < |orders| && Names(call, orders[i]) && orders[i].state == state
        && forall j :: 0 <= j < i ==> !Names(call, orders[j]);
      assert !(i < k) && !(k < i);
    }
  }

  predicate InState(call: Call, state: OrderState) {
    call.orders.Some? && FirstNamed(call.orders.value, call, state)
  }

  /** A submission passes when it is the first and its order is routed, a cancellation when
      its order waits for one. */
  predicate Passes(calls: seq<Call>, k: nat)
    requires k < |calls|
  {
    if calls[k].Submit? then InState(calls[k], Routed) && forall j :: 0 <= j < k ==> !calls[j].Submit?
    else InState(calls[k], CancelPending)
  }

  function Passed(calls: seq<Call>, n: nat): seq<Call>
    requires n <= |calls|
  {
    if n == 0 then [] else Passed(calls, n - 1) + if Passes(calls, n - 1) then [calls[n - 1]] else []
  }

  lemma InStateIs(call: Call, state: OrderState)
    ensures InState(call, state) <==> StateOf(call) == Some(state)
  {
    if call.orders.Some? { StateIsFirstNamed(call.orders.value, call, state); }
  }

  lemma {:induction false} NoneSubmitted(calls: seq<Call>)
    ensures After(calls).submits == 0 <==> forall j :: 0 <= j < |calls| ==> !calls[j].Submit?
  {
    hide StateOf;
    if calls != [] {
      var n := |calls| - 1;
      NoneSubmitted(calls[..n]);
      assert forall j :: 0 <= j < n ==> calls[..n][j] == calls[j];
    }
  }

  /** The guard forwards exactly the calls that pass, in their order. */
  lemma {:induction false} ForwardsExactly(calls: seq<Call>, n: nat)
    requires n <= |calls|
    ensures After(calls[..n]).forwarded == Passed(calls, n)
  {
    hide StateOf, InState;
    if n > 0 {
      ForwardsExactly(calls, n - 1);
      ForwardsNext(calls, n - 1);
      hide Passes, After;
    }
  }

  lemma ForwardsNext(calls: seq<Call>, k: nat)
    requires k < |calls|
    ensures After(calls[..k + 1]).forwarded
         == After(calls[..k]).forwarded + if Passes(calls, k) then [calls[k]] else []
  {
    hide StateOf, InState;
    NoneSubmitted(calls[..k]);
    assert calls[..k + 1][..k] == calls[..k];
    assert forall j :: 0 <= j < k ==> calls[..k][j] == calls[j];
    InStateIs(calls[k], Routed);
    InStateIs(calls[k], CancelPending);
  }

  /** It records of each call what it is and the state its order is in. */
  lemma RecordsExactly(calls: seq<Call>, k: nat, state: OrderState)
    requires k < |calls|
    ensures |After(calls).events| == |calls| && After(calls).events[k].submission == calls[k].Submit?
    ensures After(calls).events[k].state == Some(state) <==> InState(calls[k], state)
  {
    hide StateOf, InState, After;
    CallsCounted(calls);
    InStateIs(calls[k], state);
  }
}
