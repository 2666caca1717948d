/** Sequence accounting of the Coinbase ticker probe: the steps between the numbers
    observed for each product, and what their counts add up to. */
module SequenceGaps {

  import opened Options

  /** The product and sequence number a message names, if it does. */
  datatype Item = Item(product: Option<string>, sequence: Option<nat>)

  datatype Steps = Steps(gaps: nat, gapTotal: nat, outOfOrder: nat, repeated: nat)

  datatype State = Pass | Insufficient | GapOrReordering

  datatype Account = Account(observations: nat, first: int, last: int, steps: Steps, state: State)

  datatype Summary = Summary(products: map<string, Account>, state: State)

  function AddStep(s: Steps, prior: int, current: int): Steps {
    if current > prior + 1 then s.(gaps := s.gaps + 1, gapTotal := s.gapTotal + (current - prior - 1))
    else if current < prior then s.(outOfOrder := s.outOfOrder + 1)
    else if current == prior then s.(repeated := s.repeated + 1)
    else s
  }

  function Scan(values: seq<int>): Steps {
    if |values| < 2 then Steps(0, 0, 0, 0)
    else AddStep(Scan(values[..|values| - 1]), values[|values| - 2], values[|values| - 1])
  }

  function StateOf(observations: nat, s: Steps): State {
    if observations >= 2 && s.gaps == 0 && s.outOfOrder == 0 then Pass
    else if observations < 2 then Insufficient
    else GapOrReordering
  }

  function AccountOf(values: seq<int>): Account
    requires values != []
  {
    Account(|values|, values[0], values[|values| - 1], Scan(values), StateOf(|values|, Scan(values)))
  }

  /** The numbers a product was observed with, in order. */
  function Values(items: seq<Item>, product: string): seq<int> {
    if items == [] then []
    else
      var item := items[|items| - 1];
      Values(items[..|items| - 1], product)
      + if item.product == Some(product) && item.sequence.Some? then [item.sequence.value] else []
  }

  function Products(items: seq<Item>): set<string> {
    if items == [] then {}
    else
      var item := items[|items| - 1];
      Products(items[..|items| - 1])
      + if item.product.Some? && item.sequence.Some? then {item.product.value} else {}
  }

  function OverallState(products: map<string, Account>): State {
    if products == map[] then Insufficient
    else if forall p :: p in products ==> products[p].state == Pass then Pass
    else GapOrReordering
  }

  method ScanAdjacent(values: seq<int>) returns (s: Steps)
    ensures s == Scan(values)
  {
    var gaps: nat, gapTotal: nat, outOfOrder: nat, repeated: nat := 0, 0, 0, 0;
    var i := 1;
    while i < |values|
      invariant 1 <= i && (i <= |values| || |values| == 0)
      invariant Steps(gaps, gapTotal, outOfOrder, repeated) == Scan(values[..if i <= |values| then i else 0])
    {
      assert values[..i + 1][..i] == values[..i];
      if values[i] > values[i - 1] + 1 {
        gaps := gaps + 1;
        gapTotal := gapTotal + (values[i] - values[i - 1] - 1);
      } else if values[i] < values[i - 1] {
        outOfOrder := outOfOrder + 1;
      } else if values[i] == values[i - 1] {
        repeated := repeated + 1;
      }
      i := i + 1;
    }
    if |values| > 0 { assert values[..i] == values; }
    s := Steps(gaps, gapTotal, outOfOrder, repeated);
  }

  lemma {:induction false} ProductHasValues(items: seq<Item>, product: string)
    ensures product in Products(items) <==> Values(items, product) != []
  {
    if items != [] {
      ProductHasValues(items[..|items| - 1], product);
    }
  }

  method Group(items: seq<Item>) returns (sequences: map<string, seq<int>>)
    ensures sequences.Keys == Products(items)
    ensures forall p :: p in sequences ==> sequences[p] == Values(items, p) && sequences[p] != []
  {
    sequences := map[];
    var i := 0;
    while i < |items|
      invariant 0 <= i <= |items|
      invariant forall p :: p in sequences <==> Values(items[..i], p) != []
      invariant forall p :: p in sequences ==> sequences[p] == Values(items[..i], p)
    {
      assert items[..i + 1][..i] == items[..i];
      var item := items[i];
      if item.product.Some? && item.sequence.Some? {
        var product := item.product.value;
        var before := if product in sequences then sequences[product] else [];
        sequences := sequences[product := before + [item.sequence.value]];
      }
      i := i + 1;
    }
    assert items[..i] == items;
    forall p ensures p in sequences <==> p in Products(items) { ProductHasValues(items, p); }
  }

  /** Each product's account is that of its own numbers, whatever other products'
      messages lie between them. */
  method SequenceSummary(items: seq<Item>) returns (summary: Summary)
    ensures summary.products.Keys == Products(items)
    ensures forall p :: p in summary.products ==>
              Values(items, p) != [] && summary.products[p] == AccountOf(Values(items, p))
    ensures summary.state == OverallState(summary.products)
  {
    var sequences := Group(items);
    var products := map[];
    var rest := sequences.Keys;
    while rest != {}
      invariant rest <= sequences.Keys && products.Keys == sequences.Keys - rest
      invariant forall p :: p in products ==> products[p] == AccountOf(sequences[p])
    {
      var product :| product in rest;
      var values := sequences[product];
      var steps := ScanAdjacent(values);
      products := products[product := Account(|values|, values[0], values[|values| - 1], steps,
                                              StateOf(|values|, steps))];
      rest := rest - {product};
    }
    summary := Summary(products, OverallState(products));
  }

  // ----------------------------------------------------------------- theorems

  /** How far the out-of-order steps go back, each counted with the step forward it
      was not. */
  function Backward(values: seq<int>): nat {
    if |values| < 2 then 0
    else
      var prior, current := values[|values| - 2], values[|values| - 1];
      Backward(values[..|values| - 1]) + if current < prior then prior - current + 1 else 0
  }

  /** Conservation over every sequence: the distance covered is the steps made,
      less the repeats, plus the gaps, less what was gone back. */
  lemma {:induction false} Conservation(values: seq<int>)
    requires values != []
    ensures var s := Scan(values);
            values[|values| - 1] - values[0] == (|values| - 1) - s.repeated + s.gapTotal - Backward(values)
            && Backward(values) >= 2 * s.outOfOrder
            && (s.outOfOrder == 0 ==> Backward(values) == 0)
  {
    if |values| >= 2 {
      Conservation(values[..|values| - 1]);
    }
  }

  /** The plain identity holds exactly when no step is out of order. */
  lemma PlainConservation(values: seq<int>)
    requires values != []
    ensures var s := Scan(values);
            values[|values| - 1] - values[0] == (|values| - 1) - s.repeated + s.gapTotal <==> s.outOfOrder == 0
  {
    Conservation(values);
  }

  function Between(low: int, high: int): (s: set<int>)
    ensures forall k :: k in s <==> low <= k < high
    ensures |s| == if low <= high then high - low else 0
    decreases high - low
  {
    if low >= high then {} else Between(low, high - 1) + {high - 1}
  }

  function Seen(values: seq<int>): set<int> {
    set v | v in values
  }

  /** The numbers from the first to the last observed that were never observed. */
  function Missing(values: seq<int>): set<int>
    requires values != []
  {
    Between(values[0], values[|values| - 1] + 1) - Seen(values)
  }

  lemma {:induction false} InOrder(values: seq<int>)
    requires values != [] && Scan(values).outOfOrder == 0
    ensures forall v :: v in Seen(values) ==> values[0] <= v <= values[|values| - 1]
  {
    if |values| == 1 {
      assert values == [values[0]];
    } else {
      var init, current := values[..|values| - 1], values[|values| - 1];
      InOrder(init);
      SeenGrows(init, current);
      assert values == init + [current] && init[|init| - 1] == values[|values| - 2] <= current;
      assert init[|init| - 1] in Seen(init) && init[0] == values[0];
    }
  }

  lemma SeenGrows(init: seq<int>, current: int)
    ensures Seen(init + [current]) == Seen(init) + {current}
  {
  }

  lemma MissingOfOne(x: int)
    ensures Missing([x]) == {}
  {
    assert x in Seen([x]);
  }

  lemma MissingOfMore(init: seq<int>, current: int)
    requires init != [] && init[|init| - 1] <= current
    requires forall v :: v in Seen(init) ==> init[0] <= v <= init[|init| - 1]
    ensures |Missing(init + [current])| == |Missing(init)| + |Between(init[|init| - 1] + 1, current)|
  {
    var prior := init[|init| - 1];
    assert prior in Seen(init);
    SeenGrows(init, current);
    hide Seen, Between;
    MissingGrows(init[0], prior, current, Seen(init));
  }

  /** When no step is out of order, the gap total is the count of numbers missing. */
  lemma {:induction false} GapTotalIsMissing(values: seq<int>)
    requires values != [] && Scan(values).outOfOrder == 0
    ensures |Missing(values)| == Scan(values).gapTotal
  {
    hide Missing, Between, Seen;
    if |values| == 1 {
      MissingOfOne(values[0]);
      assert values == [values[0]];
    } else {
      var init, prior, current := values[..|values| - 1], values[|values| - 2], values[|values| - 1];
      GapTotalIsMissing(init);
      InOrder(init);
      MissingOfMore(init, current);
      assert values == init + [current];
    }
  }

  lemma MissingGrows(low: int, prior: int, current: int, seen: set<int>)
    requires low <= prior <= current && prior in seen && forall v :: v in seen ==> v <= prior
    ensures |Between(low, current + 1) - (seen + {current})|
         == |Between(low, prior + 1) - seen| + |Between(prior + 1, current)|
  {
    hide Between;
    var before, new' := Between(low, prior + 1) - seen, Between(prior + 1, current);
    assert Between(low, current + 1) - (seen + {current}) == before + new';
    assert before !! new';
  }

  lemma {:induction false} NoGapsNoTotal(values: seq<int>)
    ensures Scan(values).gaps == 0 <==> Scan(values).gapTotal == 0
  {
    if |values| >= 2 { NoGapsNoTotal(values[..|values| - 1]); }
  }

  /** A product passes exactly when at least two numbers were seen, in order, and
      with them every number from the first to the last. */
  lemma PassIsCoverage(values: seq<int>)
    requires values != []
    ensures AccountOf(values).state == Pass <==>
              |values| >= 2 && Scan(values).outOfOrder == 0
              && forall k :: values[0] <= k <= values[|values| - 1] ==> k in values
  {
    NoGapsNoTotal(values);
    if Scan(values).outOfOrder == 0 {
      GapTotalIsMissing(values);
      if Scan(values).gapTotal == 0 {
        assert Missing(values) == {};
        forall k | values[0] <= k <= values[|values| - 1] ensures k in values { assert k !in Missing(values); }
      }
      if forall k :: values[0] <= k <= values[|values| - 1] ==> k in values {
        assert Missing(values) == {};
      }
    }
  }

  // ------------------------------------------------------- the account of a product

  datatype Kind = Gap | Back | Repeat

  /** What kind of step leads to the number at `i`. */
  predicate IsStep(values: seq<int>, kind: Kind, i: nat)
    requires 0 < i < |values|
  {
    match kind
    case Gap => values[i] - values[i - 1] > 1
    case Back => values[i] - values[i - 1] < 0
    case Repeat => values[i] == values[i - 1]
  }

  function StepsOf(values: seq<int>, kind: Kind): set<int> { set i | 0 < i < |values| && IsStep(values, kind, i) }

  function CountOf(s: Steps, kind: Kind): nat {
    match kind
    case Gap => s.gaps
    case Back => s.outOfOrder
    case Repeat => s.repeated
  }

  lemma StepAdded(values: seq<int>, kind: Kind)
    requires |values| >= 2
    ensures var n := |values| - 1;
            StepsOf(values, kind) == StepsOf(values[..n], kind) + if IsStep(values, kind, n) then {n} else {}
  {
    var n := |values| - 1;
    forall i | 0 < i < n ensures IsStep(values[..n], kind, i) <==> IsStep(values, kind, i) {}
  }

  /** The counts are those of the places with such a step. */
  lemma {:induction false} StepsCounted(values: seq<int>, kind: Kind)
    ensures CountOf(Scan(values), kind) == |StepsOf(values, kind)|
  {
    if |values| < 2 {
      assert StepsOf(values, kind) == {};
    } else {
      StepsCounted(values[..|values| - 1], kind);
      StepAdded(values, kind);
    }
  }

  predicate HasStep(values: seq<int>, kind: Kind) { exists i :: 0 < i < |values| && IsStep(values, kind, i) }

  /** The state of a product: too few numbers, or a gap or a step back among them. */
  lemma StateExactly(values: seq<int>)
    requires values != []
    ensures var account := AccountOf(values);
            && account.observations == |values| && account.first == values[0] && account.last == values[|values| - 1]
            && (account.state == Insufficient <==> |values| == 1)
            && (account.state == GapOrReordering <==> HasStep(values, Gap) || HasStep(values, Back))
  {
    StepsCounted(values, Gap);
    StepsCounted(values, Back);
    AnyStep(values, Gap);
    AnyStep(values, Back);
  }

  lemma AnyStep(values: seq<int>, kind: Kind)
    ensures HasStep(values, kind) <==> |StepsOf(values, kind)| > 0
  {
    var steps := StepsOf(values, kind);
    if HasStep(values, kind) {
      var i :| 0 < i < |values| && IsStep(values, kind, i);
      assert i in steps;
    }
    if |steps| > 0 {
      var i :| i in steps;
      assert IsStep(values, kind, i);
    }
  }

  /** The numbers a product was observed with, from the first message on. */
  function Numbers(items: seq<Item>, product: string): seq<int> {
    if items == [] then []
    else if items[0].product == Some(product) && items[0].sequence.Some?
    then [items[0].sequence.value] + Numbers(items[1..], product)
    else Numbers(items[1..], product)
  }

  lemma {:induction false} NumbersConcat(a: seq<Item>, b: seq<Item>, product: string)
    ensures Numbers(a + b, product) == Numbers(a, product) + Numbers(b, product)
  {
    if a == [] {
      assert a + b == b;
    } else {
      assert (a + b)[0] == a[0] && (a + b)[1..] == a[1..] + b;
      NumbersConcat(a[1..], b, product);
    }
  }

  lemma {:induction false} ValuesAre(items: seq<Item>, product: string)
    ensures Values(items, product) == Numbers(items, product)
  {
    if items != [] {
      var init, last := items[..|items| - 1], items[|items| - 1];
      ValuesAre(init, product);
      NumbersConcat(init, [last], product);
      assert init + [last] == items && [last][1..] == [];
    }
  }

  /** The products are those with a number; the whole is insufficient without one, and passes
      when all of them do. */
  lemma OverallExactly(items: seq<Item>, products: map<string, Account>)
    requires products.Keys == Products(items)
    ensures forall p :: p in products <==> Numbers(items, p) != []
    ensures OverallState(products) == Insufficient <==> products.Keys == {}
    ensures OverallState(products) == Pass <==>
            products.Keys != {} && forall p :: p in products ==> products[p].state == Pass
  {
    hide Products, Numbers;
    forall p ensures p in products <==> Numbers(items, p) != [] {
      ProductHasValues(items, p);
      ValuesAre(items, p);
      assert p in products <==> p in products.Keys;
    }
    assert products == map[] <==> products.Keys == {};
  }
}
