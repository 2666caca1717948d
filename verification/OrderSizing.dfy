/** Sizing and guarding of the single order of the spot testnet qualification, in exact
    arithmetic. */
module OrderSizing {

  import opened Options
  import opened Reals

  datatype Side = Buy | Sell

  /** A symbol's order filters; both increments are positive in every admitted symbol. */
  datatype Spec = Spec(
    symbol: string, base: string, quote: string, tick: real, step: real, minQuantity: real, minNotional: Option<real>)

  datatype Market = Market(spec: Spec, bid: real, ask: real)

  datatype Candidate = Candidate(
    market: Market, side: Side, price: real, quantity: real, notional: real, affordable: bool)

  const LIMIT: real := 25.0

  function Times(x: real, increment: real): real { x * increment }

  function Whole(steps: int, increment: real): real { Times(steps as real, increment) }

  function RoundUp(value: real, increment: real): real
    requires increment > 0.0
  {
    Whole(Ceiling(value / increment), increment)
  }

  function RoundDown(value: real, increment: real): real
    requires increment > 0.0
  {
    Whole((value / increment).Floor, increment)
  }

  function PassivePrice(bid: real, ask: real, tick: real, side: Side): real
    requires tick > 0.0
  {
    if side.Buy? then RoundDown(if bid < ask then bid else bid - tick, tick)
    else RoundUp(if bid < ask then ask else ask + tick, tick)
  }

  function NotionalFloor(spec: Spec): real {
    (if spec.minNotional.Some? then spec.minNotional.value else 0.0) * 1.02
  }

  function MinimumPracticalQuantity(spec: Spec, price: real): real
    requires spec.step > 0.0 && price > 0.0
  {
    var quantity := RoundUp(NotionalFloor(spec) / price, spec.step);
    if spec.minQuantity > quantity then spec.minQuantity else quantity
  }

  predicate Admitted(m: Market) { m.spec.tick > 0.0 && m.spec.step > 0.0 }

  function Free(balances: map<string, real>, asset: string): real {
    if asset in balances then balances[asset] else 0.0
  }

  function CandidateFor(m: Market, side: Side, balances: map<string, real>): Option<Candidate>
    requires Admitted(m)
  {
    var price := PassivePrice(m.bid, m.ask, m.spec.tick, side);
    if price <= 0.0 then None
    else
      var quantity := MinimumPracticalQuantity(m.spec, price);
      var notional := price * quantity;
      var affordable := if side.Buy? then Free(balances, m.spec.quote) >= notional
                        else Free(balances, m.spec.base) >= quantity;
      Some(Candidate(m, side, price, quantity, notional, affordable))
  }

  function Listed(c: Option<Candidate>): seq<Candidate> { if c.Some? then [c.value] else [] }

  /** The candidates in order: market by market, the buy before the sell. */
  function Candidates(markets: seq<Market>, balances: map<string, real>): seq<Candidate>
    requires forall i :: 0 <= i < |markets| ==> Admitted(markets[i])
  {
    if markets == [] then []
    else
      var m := markets[|markets| - 1];
      Candidates(markets[..|markets| - 1], balances)
      + Listed(CandidateFor(m, Buy, balances)) + Listed(CandidateFor(m, Sell, balances))
  }

  predicate Acceptable(c: Candidate) { c.affordable && c.notional <= LIMIT }

  lemma NoCandidates(markets: seq<Market>, balances: map<string, real>)
    requires markets == []
    ensures Candidates(markets, balances) == []
  {
  }

  lemma MoreCandidates(markets: seq<Market>, balances: map<string, real>, i: nat)
    requires i < |markets| && forall k :: 0 <= k < |markets| ==> Admitted(markets[k])
    ensures Candidates(markets[..i + 1], balances)
         == Candidates(markets[..i], balances) + Listed(CandidateFor(markets[i], Buy, balances))
            + Listed(CandidateFor(markets[i], Sell, balances))
  {
    hide CandidateFor, Listed;
    assert markets[..i + 1][..i] == markets[..i];
  }

  method ListCandidates(markets: seq<Market>, balances: map<string, real>) returns (candidates: seq<Candidate>)
    requires forall i :: 0 <= i < |markets| ==> Admitted(markets[i])
    ensures candidates == Candidates(markets, balances)
  {
    hide CandidateFor, Candidates;
    candidates := [];
    var i := 0;
    NoCandidates(markets[..0], balances);
    while i < |markets|
      invariant 0 <= i <= |markets| && candidates == Candidates(markets[..i], balances)
    {
      MoreCandidates(markets, balances, i);
      var buy := CandidateFor(markets[i], Buy, balances);
      if buy.Some? { candidates := candidates + [buy.value]; }
      var sell := CandidateFor(markets[i], Sell, balances);
      if sell.Some? { candidates := candidates + [sell.value]; }
      i := i + 1;
    }
    assert markets[..i] == markets;
  }

  /** The first acceptable candidate; `None` is the refusal that no order is affordable
      within the limit. */
  method SelectOrder(markets: seq<Market>, balances: map<string, real>) returns (selected: Option<Candidate>)
    requires forall i :: 0 <= i < |markets| ==> Admitted(markets[i])
    ensures selected.None? <==> forall c :: c in Candidates(markets, balances) ==> !Acceptable(c)
    ensures selected.Some? ==>
              && Acceptable(selected.value)
              && exists k :: 0 <= k < |Candidates(markets, balances)|
                   && Candidates(markets, balances)[k] == selected.value
                   && forall j :: 0 <= j < k ==> !Acceptable(Candidates(markets, balances)[j])
  {
    hide Candidates;
    var candidates := ListCandidates(markets, balances);
    var k := 0;
    while k < |candidates|
      invariant 0 <= k <= |candidates| && forall j :: 0 <= j < k ==> !Acceptable(candidates[j])
    {
      if candidates[k].affordable && candidates[k].notional <= LIMIT {
        assert candidates[k] in candidates && Acceptable(candidates[k]);
        return Some(candidates[k]);
      }
      k := k + 1;
    }
    forall c | c in candidates ensures !Acceptable(c) {
      var j :| 0 <= j < |candidates| && candidates[j] == c;
    }
    return None;
  }

  // ---- rounding ----

  ghost predicate Multiple(x: real, increment: real) { exists n: int :: IsTimes(x, n, increment) }

  predicate IsTimes(x: real, n: int, increment: real) { x == Whole(n, increment) }

  lemma ScaledStrictly(x: real, y: real, k: real)
    requires k > 0.0 && x < y
    ensures x * k < y * k
  {
    var d := y - x;
    assert d * k > 0.0;
    assert y * k == (x + d) * k == x * k + d * k;
  }

  lemma OneMore(n: int, increment: real)
    ensures Whole(n + 1, increment) == Whole(n, increment) + increment
  {
    OneStepMore(n as real, increment);
    assert (n + 1) as real == n as real + 1.0;
  }

  lemma OneStepMore(x: real, increment: real)
    ensures Times(x + 1.0, increment) == Times(x, increment) + increment
  {
  }

  lemma TimesKeeps(x: real, y: real, increment: real)
    requires increment > 0.0
    ensures x <= y ==> Times(x, increment) <= Times(y, increment)
    ensures x < y ==> Times(x, increment) < Times(y, increment)
  {
    if x <= y { Scaled(x, y, increment); }
    if x < y { ScaledStrictly(x, y, increment); }
  }

  lemma TimesOfQuotient(value: real, increment: real)
    requires increment > 0.0
    ensures Times(value / increment, increment) == value
  {
  }

  lemma RoundDownIs(value: real, increment: real)
    requires increment > 0.0
    ensures var r := RoundDown(value, increment);
            Multiple(r, increment) && r <= value < r + increment
  {
    hide Times;
    var q := value / increment;
    var n := q.Floor as real;
    TimesOfQuotient(value, increment);
    TimesKeeps(n, q, increment);
    TimesKeeps(q, n + 1.0, increment);
    OneStepMore(n, increment);
    assert IsTimes(RoundDown(value, increment), q.Floor, increment);
  }

  lemma RoundUpIs(value: real, increment: real)
    requires increment > 0.0
    ensures var r := RoundUp(value, increment);
            Multiple(r, increment) && r - increment < value <= r
  {
    hide Times;
    var q := value / increment;
    var n := Ceiling(q) as real;
    TimesOfQuotient(value, increment);
    TimesKeeps(q, n, increment);
    TimesKeeps(n - 1.0, q, increment);
    OneStepMore(n - 1.0, increment);
    assert IsTimes(RoundUp(value, increment), Ceiling(q), increment);
  }

  // ---- what a candidate order is ----

  /** On a book that is not crossed, the price is a tick multiple within one tick of its own
      side and on the passive side of the other. */
  lemma PriceIsPassive(bid: real, ask: real, tick: real)
    requires tick > 0.0 && bid < ask
    ensures var buy, sell := PassivePrice(bid, ask, tick, Buy), PassivePrice(bid, ask, tick, Sell);
            && Multiple(buy, tick) && bid - tick < buy <= bid < ask
            && Multiple(sell, tick) && bid < ask <= sell < ask + tick
  {
    RoundDownIs(bid, tick);
    RoundUpIs(ask, tick);
  }

  lemma WholeKeeps(m: int, n: int, increment: real)
    requires increment > 0.0 && m <= n
    ensures Whole(m, increment) <= Whole(n, increment)
  {
    hide Times;
    TimesKeeps(m as real, n as real, increment);
  }

  lemma MultiplesApart(x: real, y: real, tick: real)
    requires tick > 0.0 && Multiple(x, tick) && Multiple(y, tick) && x > y
    ensures x >= y + tick
  {
    hide Whole;
    var m: int :| IsTimes(x, m, tick);
    var n: int :| IsTimes(y, n, tick);
    if m <= n { WholeKeeps(m, n, tick); } else { WholeKeeps(n + 1, m, tick); }
    OneMore(n, tick);
  }

  lemma RoundsToItself(x: real, increment: real)
    requires increment > 0.0 && Multiple(x, increment)
    ensures RoundDown(x, increment) == x == RoundUp(x, increment)
  {
    hide Times;
    var n: int :| IsTimes(x, n, increment);
    QuotientOfTimes(n as real, increment);
    var q := x / increment;
    assert q == n as real;
    assert q.Floor == n && Ceiling(q) == n;
  }

  lemma QuotientOfTimes(q: real, increment: real)
    requires increment > 0.0
    ensures Times(q, increment) / increment == q
  {
  }

  lemma NextMultiple(x: real, increment: real)
    requires increment > 0.0 && Multiple(x, increment)
    ensures Multiple(x - increment, increment) && Multiple(x + increment, increment)
  {
    var n: int :| IsTimes(x, n, increment);
    OneMore(n - 1, increment);
    OneMore(n, increment);
    assert IsTimes(x - increment, n - 1, increment) && IsTimes(x + increment, n + 1, increment);
  }

  /** Multiples less than one increment apart are one. */
  lemma SameMultiple(x: real, y: real, increment: real)
    requires increment > 0.0 && Multiple(x, increment) && Multiple(y, increment)
    requires -increment < x - y < increment
    ensures x == y
  {
    if x > y { MultiplesApart(x, y, increment); }
    if y > x { MultiplesApart(y, x, increment); }
  }

  lemma RoundsOneStepOff(x: real, increment: real)
    requires increment > 0.0
    ensures RoundDown(x - increment, increment) == RoundDown(x, increment) - increment
    ensures RoundUp(x + increment, increment) == RoundUp(x, increment) + increment
  {
    hide RoundDown, RoundUp, Multiple;
    RoundDownIs(x, increment);
    RoundDownIs(x - increment, increment);
    NextMultiple(RoundDown(x, increment), increment);
    SameMultiple(RoundDown(x - increment, increment), RoundDown(x, increment) - increment, increment);
    RoundUpIs(x, increment);
    RoundUpIs(x + increment, increment);
    NextMultiple(RoundUp(x, increment), increment);
    SameMultiple(RoundUp(x + increment, increment), RoundUp(x, increment) + increment, increment);
  }

  /** The retreat of the passive price on a book that is locked or crossed is one tick. */
  lemma PassivePriceIs(bid: real, ask: real, tick: real)
    requires tick > 0.0
    ensures PassivePrice(bid, ask, tick, Buy) == RoundDown(bid, tick) - if bid < ask then 0.0 else tick
    ensures PassivePrice(bid, ask, tick, Sell) == RoundUp(ask, tick) + if bid < ask then 0.0 else tick
  {
    hide RoundDown, RoundUp;
    RoundsOneStepOff(bid, tick);
    RoundsOneStepOff(ask, tick);
  }

  /** For any quotes, the passive price stays clear of the opposite quote exactly while its
      own quote, rounded to the grid, is less than a tick beyond it. */
  lemma ClearExactly(bid: real, ask: real, tick: real)
    requires tick > 0.0
    ensures PassivePrice(bid, ask, tick, Buy) < ask <==> RoundDown(bid, tick) < ask + tick
    ensures PassivePrice(bid, ask, tick, Sell) > bid <==> RoundUp(ask, tick) > bid - tick
  {
    hide RoundDown, RoundUp, Multiple, PassivePrice;
    RoundDownIs(bid, tick);
    RoundUpIs(ask, tick);
    PassivePriceIs(bid, ask, tick);
  }

  /** So it does on every book that is not crossed; and for quotes on the tick grid on no
      other: on a crossed one the retreat of one tick never suffices. */
  lemma ClearExactlyWhenUncrossed(bid: real, ask: real, tick: real)
    requires tick > 0.0
    ensures bid <= ask ==> PassivePrice(bid, ask, tick, Buy) < ask && PassivePrice(bid, ask, tick, Sell) > bid
    ensures Multiple(bid, tick) && Multiple(ask, tick) ==>
              && (PassivePrice(bid, ask, tick, Buy) < ask <==> bid <= ask)
              && (PassivePrice(bid, ask, tick, Sell) > bid <==> bid <= ask)
  {
    hide Multiple, RoundDown, RoundUp, PassivePrice;
    ClearExactly(bid, ask, tick);
    RoundDownIs(bid, tick);
    RoundUpIs(ask, tick);
    if Multiple(bid, tick) && Multiple(ask, tick) {
      RoundsToItself(bid, tick);
      RoundsToItself(ask, tick);
      if bid > ask { MultiplesApart(bid, ask, tick); }
    }
  }

  /** The quantity meets the symbol's minimum and the notional floor; unless the minimum
      quantity decides, it is a step multiple and one step less would miss the floor. */
  lemma QuantityIsLeast(spec: Spec, price: real)
    requires spec.step > 0.0 && price > 0.0
    ensures var q := MinimumPracticalQuantity(spec, price);
            && q >= spec.minQuantity && price * q >= NotionalFloor(spec)
            && (q == spec.minQuantity ||
                (Multiple(q, spec.step) && price * (q - spec.step) < NotionalFloor(spec)
                 && price * q < NotionalFloor(spec) + price * spec.step))
  {
    var need := NotionalFloor(spec) / price;
    assert need * price == NotionalFloor(spec);
    RoundUpIs(need, spec.step);
    var r, q := RoundUp(need, spec.step), MinimumPracticalQuantity(spec, price);
    Scaled(need, q, price);
    ScaledStrictly(r - spec.step, need, price);
    assert (r - spec.step) * price == r * price - spec.step * price;
  }

  ghost predicate SoundOrder(c: Candidate) {
    var spec := c.market.spec;
    && c.price > 0.0 && Multiple(c.price, spec.tick)
    && (if c.side.Buy? then c.market.bid - spec.tick < c.price <= c.market.bid < c.market.ask
        else c.market.bid < c.market.ask <= c.price < c.market.ask + spec.tick)
    && c.quantity >= spec.minQuantity
    && c.notional == c.price * c.quantity >= NotionalFloor(spec)
    && (c.quantity == spec.minQuantity ||
        (Multiple(c.quantity, spec.step) && c.notional < NotionalFloor(spec) + c.price * spec.step))
  }

  lemma CandidateIsSound(m: Market, side: Side, balances: map<string, real>)
    requires Admitted(m) && m.bid < m.ask
    ensures CandidateFor(m, side, balances).Some? ==> SoundOrder(CandidateFor(m, side, balances).value)
    ensures side.Sell? && 0.0 < m.ask ==> CandidateFor(m, side, balances).Some?
    ensures side.Buy? && m.spec.tick <= m.bid ==> CandidateFor(m, side, balances).Some?
  {
    hide PassivePrice, MinimumPracticalQuantity, Multiple, NotionalFloor;
    var price := PassivePrice(m.bid, m.ask, m.spec.tick, side);
    PriceIsPassive(m.bid, m.ask, m.spec.tick);
    if price > 0.0 { QuantityIsLeast(m.spec, price); }
  }

  lemma {:induction false} CandidatesCome(markets: seq<Market>, balances: map<string, real>, c: Candidate)
    requires forall i :: 0 <= i < |markets| ==> Admitted(markets[i])
    requires c in Candidates(markets, balances)
    ensures exists i :: 0 <= i < |markets| && Some(c) == CandidateFor(markets[i], c.side, balances)
  {
    var init, m := markets[..|markets| - 1], markets[|markets| - 1];
    if c in Candidates(init, balances) {
      CandidatesCome(init, balances, c);
      var i :| 0 <= i < |init| && Some(c) == CandidateFor(init[i], c.side, balances);
      assert markets[i] == init[i];
    } else {
      assert m == markets[|markets| - 1];
    }
  }

  /** Whatever is selected is covered by the free balance and of at most the limit, and a
      sound order unless its own market is locked or crossed, whatever the others are. */
  lemma SelectedIsSound(markets: seq<Market>, balances: map<string, real>, c: Candidate)
    requires forall i :: 0 <= i < |markets| ==> Admitted(markets[i])
    requires c in Candidates(markets, balances) && Acceptable(c)
    ensures SoundOrder(c) <==> c.market.bid < c.market.ask
    ensures c.market in markets && c.notional <= LIMIT
    ensures if c.side.Buy? then c.notional <= Free(balances, c.market.spec.quote)
            else c.quantity <= Free(balances, c.market.spec.base)
  {
    hide PassivePrice, MinimumPracticalQuantity, Multiple, NotionalFloor;
    CandidatesCome(markets, balances, c);
    var i :| 0 <= i < |markets| && Some(c) == CandidateFor(markets[i], c.side, balances);
    if c.market.bid < c.market.ask {
      hide SoundOrder;
      CandidateIsSound(markets[i], c.side, balances);
    }
  }

  // ---- the guard in front of the signed transport ----

  datatype OrderState =
    | Created | RiskApproved | Routed | Acknowledged | PartiallyFilled | Filled
    | CancelPending | Cancelled | Rejected | Expired | Reconciled

  datatype Order = Order(id: int, state: OrderState, client: string)

  /** A call with the order manager as it stands then, if there is one. */
  datatype Call =
    | Submit(orders: Option<seq<Order>>, order: Option<int>)
    | Cancel(orders: Option<seq<Order>>, client: string)

  datatype Event = Entered(submission: bool, state: Option<OrderState>)

  datatype Guard = Guard(submits: nat, cancels: nat, events: seq<Event>, forwarded: seq<Call>)

  function StateWhere(orders: seq<Order>, call: Call): Option<OrderState> {
    if orders == [] then None
    else if (if call.Submit? then call.order == Some(orders[0].id) else orders[0].client == call.client)
    then Some(orders[0].state)
    else StateWhere(orders[1..], call)
  }

  function StateOf(call: Call): Option<OrderState> {
    if call.orders.None? then None else StateWhere(call.orders.value, call)
  }

  /** Counted and recorded first, then forwarded only if the order manager says so. */
  function Guarded(g: Guard, call: Call): Guard {
    var state := StateOf(call);
    var passes := if call.Submit? then g.submits == 0 && state == Some(Routed) else state == Some(CancelPending);
    Guard(g.submits + (if call.Submit? then 1 else 0), g.cancels + (if call.Submit? then 0 else 1),
          g.events + [Entered(call.Submit?, state)], g.forwarded + if passes then [call] else [])
  }

  function After(calls: seq<Call>): Guard {
    if calls == [] then Guard(0, 0, [], []) else Guarded(After(calls[..|calls| - 1]), calls[|calls| - 1])
  }

  class RecordingTransport {
    var submits: nat
    var cancels: nat
    var events: seq<Event>
    var forwarded: seq<Call>

    ghost function State(): Guard
      reads this
    {
      Guard(submits, cancels, events, forwarded)
    }

    constructor ()
      ensures State() == After([])
    {
      submits, cancels, events, forwarded := 0, 0, [], [];
    }

    method SubmitOrder(orders: Option<seq<Order>>, order: Option<int>) returns (delegated: bool)
      modifies this
      ensures State() == Guarded(old(State()), Submit(orders, order))
      ensures delegated <==> forwarded != old(forwarded)
    {
      var call := Submit(orders, order);
      var state := StateOf(call);
      submits := submits + 1;
      events := events + [Entered(true, state)];
      if submits != 1 || state != Some(Routed) { return false; }
      forwarded := forwarded + [call];
      return true;
    }

    method CancelOrder(orders: Option<seq<Order>>, client: string) returns (delegated: bool)
      modifies this
      ensures State() == Guarded(old(State()), Cancel(orders, client))
      ensures delegated <==> forwarded != old(forwarded)
    {
      var call := Cancel(orders, client);
      var state := StateOf(call);
      cancels := cancels + 1;
      events := events + [Entered(false, state)];
      if state != Some(CancelPending) { return false; }
      forwarded := forwarded + [call];
      return true;
    }
  }

  function Submissions(calls: seq<Call>): seq<Call> {
    if calls == [] then []
    else Submissions(calls[..|calls| - 1]) + if calls[|calls| - 1].Submit? then [calls[|calls| - 1]] else []
  }

  function Cancellations(calls: seq<Call>): seq<Call> {
    if calls == [] then []
    else Cancellations(calls[..|calls| - 1]) + if calls[|calls| - 1].Cancel? then [calls[|calls| - 1]] else []
  }

  function Confirmed(calls: seq<Call>): seq<Call> {
    if calls == [] then []
    else
      var last := calls[|calls| - 1];
      Confirmed(calls[..|calls| - 1]) + if last.Cancel? && StateOf(last) == Some(CancelPending) then [last] else []
  }

  lemma SubmissionsAdd(a: seq<Call>, last: Call)
    ensures Submissions(a + [last]) == Submissions(a) + if last.Submit? then [last] else []
    ensures Cancellations(a + [last]) == Cancellations(a) + if last.Cancel? then [last] else []
  {
    assert (a + [last])[..|a + [last]| - 1] == a;
  }

  lemma {:induction false} CallsCounted(calls: seq<Call>)
    ensures var g := After(calls);
            && g.submits == |Submissions(calls)| && g.cancels == |Cancellations(calls)| && |g.events| == |calls|
            && forall k :: 0 <= k < |calls| ==> g.events[k] == Entered(calls[k].Submit?, StateOf(calls[k]))
  {
    hide StateOf;
    if calls != [] {
      CallsCounted(calls[..|calls| - 1]);
    }
  }

  /** Over any sequence of calls the guard forwards at most one submission: the first one
      asked for, and only if its order was then routed. It forwards the cancellations whose
      order was waiting for one. */
  lemma {:induction false} OneSubmissionForwarded(calls: seq<Call>)
    ensures var g, asked := After(calls), Submissions(calls);
            && Submissions(g.forwarded)
               == (if asked != [] && StateOf(asked[0]) == Some(Routed) then [asked[0]] else [])
            && Cancellations(g.forwarded) == Confirmed(calls)
  {
    hide StateOf;
    if calls != [] {
      var init, last := calls[..|calls| - 1], calls[|calls| - 1];
      var before := After(init).forwarded;
      OneSubmissionForwarded(init);
      CallsCounted(init);
      SubmissionsAdd(before, last);
      assert After(calls).forwarded == before || After(calls).forwarded == before + [last];
      hide Submissions, Cancellations, After;
    }
  }
}
