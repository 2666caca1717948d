/** The leak-free policy study: the chronological split, the validation attempts over the
    development part, and the choice among them. */
module SignalPolicies {

  import opened Options
  import opened Sorting
  import opened TextOrder

  /** `outcome` is everything about an observation but its identity. */
  datatype Observation = Observation(instrument: string, cutoff: int, id: string, outcome: real)

  datatype Prediction = Prediction(model: string, id: string, predicted: real, confidence: real)

  datatype Signal = Signal(id: string, previous: int, target: int)

  datatype Metrics = Metrics(net: real, turnover: real, gross: real)

  datatype Spec = Spec(policy: string, family: string, parameters: seq<real>)

  datatype Partition = Partition(tuning: seq<Observation>, validation: seq<Observation>, holdout: seq<Observation>)

  /** The policy and utility functions of the study, `None` where they raise. */
  datatype Engine = Engine(
    apply: (seq<Observation>, seq<Prediction>, Spec) -> Option<seq<Signal>>,
    evaluate: (seq<Observation>, seq<Signal>, string) -> Option<Metrics>)

  datatype Attempt = Attempt(
    policy: string, incremental: real, turnover: real, net: real, strongest: string, metrics: seq<seq<Metrics>>)

  datatype Choice = Choice(selected: Option<string>, incremental: real, ranked: seq<string>)

  type Index = map<string, map<string, Prediction>>

  const BASELINES: seq<string> := ["naive", "drift", "seasonal-7", "linear", "lightgbm"]

  const CANDIDATE := "ttm-r2"

  const SCENARIOS: seq<string> := ["optimistic", "base", "conservative", "severe_plausible"]

  /** The position of "conservative". */
  const CONSERVATIVE := 2

  // ---- the split ----

  predicate EarlierOrSame(x: Observation, y: Observation) {
    if x.cutoff != y.cutoff then x.cutoff < y.cutoff else TextAtMost(x.id, y.id)
  }

  lemma ObservationsLinear()
    ensures TotalPreorder(EarlierOrSame)
  {
    TextLinear();
  }

  function OfInstrument(observations: seq<Observation>, instrument: string): seq<Observation> {
    if observations == [] then []
    else
      var last := observations[|observations| - 1];
      OfInstrument(observations[..|observations| - 1], instrument)
      + if last.instrument == instrument then [last] else []
  }

  function Instruments(observations: seq<Observation>): set<string> {
    if observations == [] then {}
    else Instruments(observations[..|observations| - 1]) + {observations[|observations| - 1].instrument}
  }

  function Ordered(observations: seq<Observation>, instrument: string): seq<Observation> {
    Sort(EarlierOrSame, OfInstrument(observations, instrument))
  }

  predicate Splittable(observations: seq<Observation>) {
    && Instruments(observations) == {"BTCUSDT", "ETHUSDT"}
    && |Ordered(observations, "BTCUSDT")| == 64 && |Ordered(observations, "ETHUSDT")| == 64
  }

  function Parts(btc: seq<Observation>, eth: seq<Observation>): Partition
    requires |btc| == 64 && |eth| == 64
  {
    Partition(btc[..32] + eth[..32], btc[32..48] + eth[32..48], btc[48..] + eth[48..])
  }

  function Split(observations: seq<Observation>): Option<Partition> {
    if !Splittable(observations) then None
    else Some(Parts(Ordered(observations, "BTCUSDT"), Ordered(observations, "ETHUSDT")))
  }

  lemma {:induction false} InstrumentsHave(observations: seq<Observation>, instrument: string)
    ensures instrument in Instruments(observations) <==> OfInstrument(observations, instrument) != []
  {
    if observations != [] {
      InstrumentsHave(observations[..|observations| - 1], instrument);
    }
  }

  ghost predicate Grouped(grouped: map<string, seq<Observation>>, observations: seq<Observation>) {
    && grouped.Keys == Instruments(observations)
    && forall i :: OfInstrument(observations, i) == if i in grouped then grouped[i] else []
  }

  lemma OneMoreOf(observations: seq<Observation>, k: nat, instrument: string)
    requires k < |observations|
    ensures Instruments(observations[..k + 1]) == Instruments(observations[..k]) + {observations[k].instrument}
    ensures OfInstrument(observations[..k + 1], instrument)
         == OfInstrument(observations[..k], instrument)
            + if observations[k].instrument == instrument then [observations[k]] else []
  {
    assert observations[..k + 1][..k] == observations[..k];
  }

  lemma GroupStep(grouped: map<string, seq<Observation>>, observations: seq<Observation>, k: nat)
    requires k < |observations| && Grouped(grouped, observations[..k])
    ensures var item := observations[k];
            var before := if item.instrument in grouped then grouped[item.instrument] else [];
            Grouped(grouped[item.instrument := before + [item]], observations[..k + 1])
  {
    hide OfInstrument, Instruments;
    var item := observations[k];
    var before := if item.instrument in grouped then grouped[item.instrument] else [];
    var next := grouped[item.instrument := before + [item]];
    OneMoreOf(observations, k, item.instrument);
    assert next.Keys == grouped.Keys + {item.instrument};
    forall i ensures OfInstrument(observations[..k + 1], i) == if i in next then next[i] else [] {
      OneMoreOf(observations, k, i);
    }
  }

  lemma NothingGrouped(observations: seq<Observation>)
    requires observations == []
    ensures Grouped(map[], observations)
  {
  }

  method Group(observations: seq<Observation>) returns (grouped: map<string, seq<Observation>>)
    ensures grouped.Keys == Instruments(observations)
    ensures forall i :: i in grouped ==> grouped[i] == OfInstrument(observations, i)
  {
    hide OfInstrument, Instruments;
    grouped := map[];
    var k := 0;
    NothingGrouped(observations[..0]);
    while k < |observations|
      invariant 0 <= k <= |observations| && Grouped(grouped, observations[..k])
    {
      hide Grouped;
      GroupStep(grouped, observations, k);
      var item := observations[k];
      var before := if item.instrument in grouped then grouped[item.instrument] else [];
      grouped := grouped[item.instrument := before + [item]];
      k := k + 1;
    }
    assert observations[..k] == observations;
  }

  method PartitionObservations(observations: seq<Observation>) returns (partition: Option<Partition>)
    ensures partition == Split(observations)
  {
    hide Sort, OfInstrument, Instruments;
    var grouped := Group(observations);
    if grouped.Keys != {"BTCUSDT", "ETHUSDT"} { return None; }
    assert "BTCUSDT" in grouped.Keys && "ETHUSDT" in grouped.Keys;
    var instruments := ["BTCUSDT", "ETHUSDT"];
    var tuning: seq<Observation>, validation: seq<Observation>, holdout: seq<Observation> := [], [], [];
    var k := 0;
    while k < |instruments|
      invariant 0 <= k <= 2
      invariant k >= 1 ==> |Ordered(observations, "BTCUSDT")| == 64
      invariant k == 0 ==> tuning == [] && validation == [] && holdout == []
      invariant k == 1 ==>
                  var btc := Ordered(observations, "BTCUSDT");
                  tuning == btc[..32] && validation == btc[32..48] && holdout == btc[48..]
      invariant k == 2 ==> Split(observations) == Some(Partition(tuning, validation, holdout))
    {
      var ordered := Sort(EarlierOrSame, grouped[instruments[k]]);
      if |ordered| != 64 { return None; }
      tuning, validation, holdout := tuning + ordered[..32], validation + ordered[32..48], holdout + ordered[48..];
      k := k + 1;
    }
    return Some(Partition(tuning, validation, holdout));
  }

  // ---- the split is chronological and loses nothing ----

  lemma {:induction false} TwoInstruments(observations: seq<Observation>)
    requires Instruments(observations) <= {"BTCUSDT", "ETHUSDT"}
    ensures multiset(observations)
         == multiset(OfInstrument(observations, "BTCUSDT")) + multiset(OfInstrument(observations, "ETHUSDT"))
  {
    if observations != [] {
      var init, last := observations[..|observations| - 1], observations[|observations| - 1];
      assert observations == init + [last];
      assert last.instrument in Instruments(observations);
      TwoInstruments(init);
    }
  }

  lemma {:induction false} OnlyOf(observations: seq<Observation>, instrument: string)
    ensures forall x :: x in OfInstrument(observations, instrument) ==> x.instrument == instrument
  {
    if observations != [] {
      OnlyOf(observations[..|observations| - 1], instrument);
    }
  }

  lemma OrderedFacts(observations: seq<Observation>, instrument: string)
    ensures var s := Ordered(observations, instrument);
            && Sorted(EarlierOrSame, s) && multiset(s) == multiset(OfInstrument(observations, instrument))
            && forall x :: x in s ==> x.instrument == instrument
  {
    ObservationsLinear();
    SortSorts(EarlierOrSame, OfInstrument(observations, instrument));
    OnlyOf(observations, instrument);
    forall x | x in Ordered(observations, instrument) ensures x in OfInstrument(observations, instrument) {
      SameElements(Ordered(observations, instrument), OfInstrument(observations, instrument), x);
    }
  }

  /** What of an instrument is in one part is no later than what of it is in a later part. */
  predicate Chronological(first: seq<Observation>, second: seq<Observation>) {
    forall x, y :: x in first && y in second && x.instrument == y.instrument ==> x.cutoff <= y.cutoff
  }

  lemma CutInOrder(s: seq<Observation>, i: nat, j: nat, m: nat, n: nat)
    requires Sorted(EarlierOrSame, s) && i <= j <= m <= n <= |s|
    ensures forall x, y :: x in s[i..j] && y in s[m..n] ==> x.cutoff <= y.cutoff
  {
    forall x, y | x in s[i..j] && y in s[m..n] ensures x.cutoff <= y.cutoff {
      var a :| 0 <= a < j - i && s[i..j][a] == x;
      var b :| 0 <= b < n - m && s[m..n][b] == y;
      assert EarlierOrSame(s[i + a], s[m + b]);
    }
  }

  lemma TwoCutsInOrder(
      a: seq<Observation>, b: seq<Observation>, c: seq<Observation>, d: seq<Observation>)
    requires forall x, y :: x in a && y in c ==> x.cutoff <= y.cutoff
    requires forall x, y :: x in b && y in d ==> x.cutoff <= y.cutoff
    requires forall x :: x in a + c ==> x.instrument == "BTCUSDT"
    requires forall x :: x in b + d ==> x.instrument == "ETHUSDT"
    ensures Chronological(a + b, c + d)
  {
    forall x, y | x in a + b && y in c + d && x.instrument == y.instrument ensures x.cutoff <= y.cutoff {
      assert x in a ==> x in a + c;
      assert y in c ==> y in a + c;
      assert x in b ==> x in b + d;
      assert y in d ==> y in b + d;
    }
  }

  lemma CutsInOrder(btc: seq<Observation>, eth: seq<Observation>, i: nat, j: nat, m: nat, n: nat)
    requires Sorted(EarlierOrSame, btc) && Sorted(EarlierOrSame, eth) && i <= j <= m <= n <= |btc| == |eth|
    requires forall x :: x in btc ==> x.instrument == "BTCUSDT"
    requires forall x :: x in eth ==> x.instrument == "ETHUSDT"
    ensures Chronological(btc[i..j] + eth[i..j], btc[m..n] + eth[m..n])
  {
    hide Sorted, Chronological;
    CutInOrder(btc, i, j, m, n);
    CutInOrder(eth, i, j, m, n);
    forall x | x in btc[i..j] + btc[m..n] ensures x in btc {}
    forall x | x in eth[i..j] + eth[m..n] ensures x in eth {}
    TwoCutsInOrder(btc[i..j], eth[i..j], btc[m..n], eth[m..n]);
  }

  lemma PartsInOrder(btc: seq<Observation>, eth: seq<Observation>)
    requires |btc| == 64 && |eth| == 64 && Sorted(EarlierOrSame, btc) && Sorted(EarlierOrSame, eth)
    requires forall x :: x in btc ==> x.instrument == "BTCUSDT"
    requires forall x :: x in eth ==> x.instrument == "ETHUSDT"
    ensures var p := Parts(btc, eth);
            Chronological(p.tuning, p.validation) && Chronological(p.tuning, p.holdout)
            && Chronological(p.validation, p.holdout)
  {
    hide Sorted, Chronological;
    CutsInOrder(btc, eth, 0, 32, 32, 48);
    CutsInOrder(btc, eth, 0, 32, 48, 64);
    CutsInOrder(btc, eth, 32, 48, 48, 64);
    assert btc[0..32] == btc[..32] && eth[0..32] == eth[..32] && btc[48..64] == btc[48..] && eth[48..64] == eth[48..];
  }

  lemma PartsKeep(btc: seq<Observation>, eth: seq<Observation>)
    requires |btc| == 64 && |eth| == 64
    ensures var p := Parts(btc, eth);
            multiset(p.tuning) + multiset(p.validation) + multiset(p.holdout) == multiset(btc) + multiset(eth)
  {
    assert btc == btc[..32] + (btc[32..48] + btc[48..]) && eth == eth[..32] + (eth[32..48] + eth[48..]);
  }

  lemma {:induction false} OfSum(a: seq<Observation>, b: seq<Observation>, instrument: string)
    ensures OfInstrument(a + b, instrument) == OfInstrument(a, instrument) + OfInstrument(b, instrument)
  {
    if b == [] {
      assert a + b == a;
    } else {
      assert (a + b)[..|a + b| - 1] == a + b[..|b| - 1];
      OfSum(a, b[..|b| - 1], instrument);
    }
  }

  lemma {:induction false} OfOne(s: seq<Observation>, own: string, instrument: string)
    requires forall x :: x in s ==> x.instrument == own
    ensures OfInstrument(s, instrument) == if own == instrument then s else []
  {
    if s != [] {
      var init, last := s[..|s| - 1], s[|s| - 1];
      assert s == init + [last] && last.instrument == own;
      OfOne(init, own, instrument);
      assert OfInstrument(s, instrument) == OfInstrument(init, instrument) + if own == instrument then [last] else [];
    }
  }

  lemma CountOf(a: seq<Observation>, b: seq<Observation>, instrument: string)
    requires forall x :: x in a ==> x.instrument == "BTCUSDT"
    requires forall x :: x in b ==> x.instrument == "ETHUSDT"
    ensures instrument == "BTCUSDT" ==> OfInstrument(a + b, instrument) == a
    ensures instrument == "ETHUSDT" ==> OfInstrument(a + b, instrument) == b
  {
    OfSum(a, b, instrument);
    OfOne(a, "BTCUSDT", instrument);
    OfOne(b, "ETHUSDT", instrument);
  }

  lemma PartsCounted(btc: seq<Observation>, eth: seq<Observation>)
    requires |btc| == 64 && |eth| == 64
    requires forall x :: x in btc ==> x.instrument == "BTCUSDT"
    requires forall x :: x in eth ==> x.instrument == "ETHUSDT"
    ensures var p := Parts(btc, eth);
            forall i :: i in {"BTCUSDT", "ETHUSDT"} ==>
              |OfInstrument(p.tuning, i)| == 32 && |OfInstrument(p.validation, i)| == 16
              && |OfInstrument(p.holdout, i)| == 16
  {
    hide OfInstrument;
    forall i | i in {"BTCUSDT", "ETHUSDT"}
      ensures |OfInstrument(btc[..32] + eth[..32], i)| == 32
      ensures |OfInstrument(btc[32..48] + eth[32..48], i)| == 16
      ensures |OfInstrument(btc[48..] + eth[48..], i)| == 16
    {
      CountOf(btc[..32], eth[..32], i);
      CountOf(btc[32..48], eth[32..48], i);
      CountOf(btc[48..], eth[48..], i);
    }
  }

  /** A split observation set falls into the three parts, 32, 16 and 16 of each instrument,
      with nothing lost or repeated, and each part of an instrument lies before the next. */
  lemma SplitIsChronological(observations: seq<Observation>)
    requires Split(observations).Some?
    ensures var p := Split(observations).value;
            && multiset(p.tuning) + multiset(p.validation) + multiset(p.holdout) == multiset(observations)
            && Chronological(p.tuning, p.validation) && Chronological(p.tuning, p.holdout)
            && Chronological(p.validation, p.holdout)
            && forall i :: i in {"BTCUSDT", "ETHUSDT"} ==>
                 |OfInstrument(p.tuning, i)| == 32 && |OfInstrument(p.validation, i)| == 16
                 && |OfInstrument(p.holdout, i)| == 16
  {
    var btc, eth := Ordered(observations, "BTCUSDT"), Ordered(observations, "ETHUSDT");
    TwoInstruments(observations);
    OrderedFacts(observations, "BTCUSDT");
    OrderedFacts(observations, "ETHUSDT");
    hide Ordered, OfInstrument, Instruments, Sorted, Chronological;
    PartsInOrder(btc, eth);
    PartsKeep(btc, eth);
    PartsCounted(btc, eth);
  }

  // ---- the prediction index ----

  function Lookup(index: Index, model: string, id: string): Option<Prediction> {
    if model in index && id in index[model] then Some(index[model][id]) else None
  }

  function AddPrediction(index: Index, p: Prediction): Option<Index> {
    var byId := if p.model in index then index[p.model] else map[];
    if p.id in byId then None else Some(index[p.model := byId[p.id := p]])
  }

  function Indexed(predictions: seq<Prediction>): Option<Index> {
    if predictions == [] then Some(map[])
    else
      var earlier := Indexed(predictions[..|predictions| - 1]);
      if earlier.None? then None else AddPrediction(earlier.value, predictions[|predictions| - 1])
  }

  function IndexOf(predictions: seq<Prediction>): Option<Index> {
    if predictions == [] then None else Indexed(predictions)
  }

  lemma {:induction false} IndexRefusedStays(predictions: seq<Prediction>, n: nat)
    requires n <= |predictions| && Indexed(predictions[..n]).None?
    ensures Indexed(predictions).None?
  {
    if n < |predictions| {
      assert predictions[..|predictions| - 1][..n] == predictions[..n];
      IndexRefusedStays(predictions[..|predictions| - 1], n);
    } else {
      assert predictions[..n] == predictions;
    }
  }

  method IndexPredictions(predictions: seq<Prediction>) returns (indexed: Option<Index>)
    ensures indexed == IndexOf(predictions)
  {
    var index: Index := map[];
    var k := 0;
    while k < |predictions|
      invariant 0 <= k <= |predictions| && Indexed(predictions[..k]) == Some(index)
    {
      assert predictions[..k + 1][..k] == predictions[..k];
      var p := predictions[k];
      var byId := if p.model in index then index[p.model] else map[];
      if p.id in byId {
        IndexRefusedStays(predictions, k + 1);
        return None;
      }
      index := index[p.model := byId[p.id := p]];
      k := k + 1;
    }
    assert predictions[..k] == predictions;
    return if predictions == [] then None else Some(index);
  }

  predicate SamePlace(p: Prediction, q: Prediction) { p.model == q.model && p.id == q.id }

  predicate NoRepeatedPlace(predictions: seq<Prediction>) {
    forall i, j :: 0 <= i < j < |predictions| ==> !SamePlace(predictions[i], predictions[j])
  }

  lemma NoRepeatStep(init: seq<Prediction>, last: Prediction)
    ensures NoRepeatedPlace(init + [last]) <==>
            NoRepeatedPlace(init) && forall p :: p in init ==> !SamePlace(p, last)
  {
    var all := init + [last];
    if NoRepeatedPlace(all) {
      forall i, j | 0 <= i < j < |init| ensures !SamePlace(init[i], init[j]) {
        assert all[i] == init[i] && all[j] == init[j];
      }
      forall p | p in init ensures !SamePlace(p, last) {
        var i :| 0 <= i < |init| && init[i] == p;
        assert all[i] == p && all[|init|] == last;
      }
    }
  }

  lemma AddedLookup(index: Index, p: Prediction, model: string, id: string)
    ensures AddPrediction(index, p).None? <==> Lookup(index, p.model, p.id).Some?
    ensures AddPrediction(index, p).Some? ==>
              Lookup(AddPrediction(index, p).value, model, id)
              == if model == p.model && id == p.id then Some(p) else Lookup(index, model, id)
  {
  }

  /** The index finds each prediction at its own place and nothing else. */
  ghost predicate Finds(index: Index, predictions: seq<Prediction>) {
    forall m, id, p :: Lookup(index, m, id) == Some(p) <==> p in predictions && p.model == m && p.id == id
  }

  lemma FindsStep(index: Index, init: seq<Prediction>, last: Prediction)
    requires Finds(index, init) && AddPrediction(index, last).Some?
    ensures Finds(AddPrediction(index, last).value, init + [last])
    ensures forall p :: p in init ==> !SamePlace(p, last)
  {
    hide AddPrediction, Lookup;
    AddedLookup(index, last, last.model, last.id);
    forall p | p in init ensures !SamePlace(p, last) { assert Lookup(index, p.model, p.id) == Some(p); }
    forall m, id, p
      ensures Lookup(AddPrediction(index, last).value, m, id) == Some(p) <==>
              p in init + [last] && p.model == m && p.id == id
    {
      AddedLookup(index, last, m, id);
    }
  }

  lemma FindsRefuses(index: Index, init: seq<Prediction>, last: Prediction)
    requires Finds(index, init) && AddPrediction(index, last).None?
    ensures exists p :: p in init && SamePlace(p, last)
  {
    hide AddPrediction, Lookup;
    AddedLookup(index, last, last.model, last.id);
    var p := Lookup(index, last.model, last.id).value;
    assert p in init && SamePlace(p, last);
  }

  /** Indexing succeeds exactly when no model predicts an observation twice, and the index
      then finds each prediction at its own place and nothing else. */
  lemma {:induction false} IndexFinds(predictions: seq<Prediction>)
    ensures Indexed(predictions).Some? <==> NoRepeatedPlace(predictions)
    ensures Indexed(predictions).Some? ==> Finds(Indexed(predictions).value, predictions)
  {
    if predictions != [] {
      hide NoRepeatedPlace, Finds, AddPrediction, SamePlace;
      var init, last := predictions[..|predictions| - 1], predictions[|predictions| - 1];
      assert predictions == init + [last];
      IndexFinds(init);
      NoRepeatStep(init, last);
      if Indexed(init).Some? {
        var index := Indexed(init).value;
        if AddPrediction(index, last).Some? { FindsStep(index, init, last); } else { FindsRefuses(index, init, last); }
      }
    }
  }

  // ---- the validation attempts ----

  function Development(p: Partition): seq<Observation> { p.tuning + p.validation }

  function Ids(observations: seq<Observation>): set<string> { set x | x in observations :: x.id }

  /** `None` where a model or one of its predictions is missing. */
  function ModelPredictions(index: Index, model: string, observations: seq<Observation>): Option<seq<Prediction>> {
    if model !in index then None
    else if observations == [] then Some([])
    else
      var n := |observations| - 1;
      var earlier, last := ModelPredictions(index, model, observations[..n]), Lookup(index, model, observations[n].id);
      if earlier.None? || last.None? then None else Some(earlier.value + [last.value])
  }

  function WithIds(observations: seq<Observation>, ids: set<string>): seq<Observation> {
    if observations == [] then []
    else
      var last := observations[|observations| - 1];
      WithIds(observations[..|observations| - 1], ids) + if last.id in ids then [last] else []
  }

  function SignalsWithIds(signals: seq<Signal>, ids: set<string>): seq<Signal> {
    if signals == [] then []
    else
      var last := signals[|signals| - 1];
      SignalsWithIds(signals[..|signals| - 1], ids) + if last.id in ids then [last] else []
  }

  function Evaluations(e: Engine, observations: seq<Observation>, signals: seq<Signal>, scenarios: seq<string>)
    : (r: Option<seq<Metrics>>)
    ensures r.Some? ==> |r.value| == |scenarios|
  {
    if scenarios == [] then Some([])
    else
      var n := |scenarios| - 1;
      var earlier := Evaluations(e, observations, signals, scenarios[..n]);
      var last := e.evaluate(observations, signals, scenarios[n]);
      if earlier.None? || last.None? then None else Some(earlier.value + [last.value])
  }

  function ModelMetrics(e: Engine, spec: Spec, p: Partition, index: Index, model: string): (r: Option<seq<Metrics>>)
    ensures r.Some? ==> |r.value| == |SCENARIOS|
  {
    var predictions := ModelPredictions(index, model, Development(p));
    if predictions.None? then None
    else
      var signals := e.apply(Development(p), predictions.value, spec);
      if signals.None? then None
      else
        var ids := Ids(p.validation);
        Evaluations(e, WithIds(Development(p), ids), SignalsWithIds(signals.value, ids), SCENARIOS)
  }

  function AllMetrics(e: Engine, spec: Spec, p: Partition, index: Index, models: seq<string>)
    : (r: Option<seq<seq<Metrics>>>)
    ensures r.Some? ==> |r.value| == |models| && forall k :: 0 <= k < |models| ==> |r.value[k]| == |SCENARIOS|
  {
    if models == [] then Some([])
    else
      var n := |models| - 1;
      var earlier, last := AllMetrics(e, spec, p, index, models[..n]), ModelMetrics(e, spec, p, index, models[n]);
      if earlier.None? || last.None? then None else Some(earlier.value + [last.value])
  }

  /** Where the largest net utility of the first `n` models is; the later name wins a tie. */
  function Strongest(models: seq<string>, nets: seq<real>, n: nat): (at: nat)
    requires 0 < n <= |models| && n <= |nets|
    ensures at < n
  {
    if n == 1 then 0
    else
      var best := Strongest(models, nets, n - 1);
      if nets[n - 1] > nets[best] || (nets[n - 1] == nets[best] && TextAtMost(models[best], models[n - 1]))
      then n - 1 else best
  }

  function Nets(metrics: seq<seq<Metrics>>): (r: seq<real>)
    requires forall k :: 0 <= k < |metrics| ==> |metrics[k]| == |SCENARIOS|
    ensures |r| == |metrics|
  {
    seq(|metrics|, k requires 0 <= k < |metrics| => metrics[k][CONSERVATIVE].net)
  }

  function ValidationAttempt(e: Engine, spec: Spec, p: Partition, index: Index): Option<Attempt> {
    var metrics := AllMetrics(e, spec, p, index, BASELINES + [CANDIDATE]);
    if metrics.None? then None
    else
      var nets := Nets(metrics.value);
      var at := Strongest(BASELINES, nets, |BASELINES|);
      var own := metrics.value[|BASELINES|][CONSERVATIVE];
      Some(Attempt(spec.policy, own.net - nets[at], own.turnover, own.net, BASELINES[at], metrics.value))
  }

  function Attempts(e: Engine, specs: seq<Spec>, p: Partition, index: Index): Option<seq<Attempt>> {
    if specs == [] then Some([])
    else
      var n := |specs| - 1;
      var earlier, last := Attempts(e, specs[..n], p, index), ValidationAttempt(e, specs[n], p, index);
      if earlier.None? || last.None? then None else Some(earlier.value + [last.value])
  }

  /** The strongest baseline is the one with the largest net utility, and of those the one
      with the greatest name. */
  lemma {:induction false} StrongestIsMax(models: seq<string>, nets: seq<real>, n: nat)
    requires 0 < n <= |models| && n <= |nets|
    ensures var at := Strongest(models, nets, n);
            forall k :: 0 <= k < n ==>
              nets[k] < nets[at] || (nets[k] == nets[at] && TextAtMost(models[k], models[at]))
  {
    TextLinear();
    if n > 1 {
      StrongestIsMax(models, nets, n - 1);
    }
  }

  // ---- the choice ----

  /** `x` is ranked before `y` or ties with it. */
  predicate RanksFirst(x: Attempt, y: Attempt) {
    if x.incremental != y.incremental then x.incremental > y.incremental
    else if x.turnover != y.turnover then x.turnover < y.turnover
    else if x.net != y.net then x.net > y.net
    else TextAtMost(y.policy, x.policy)
  }

  function PolicyOf(a: Attempt): string { a.policy }

  function SelectAttempt(attempts: seq<Attempt>): Option<Choice> {
    if attempts == [] then None
    else
      var ordered := Sort(RanksFirst, attempts);
      RanksLinear();
      SortSorts(RanksFirst, attempts);
      var best := ordered[0];
      var selected := if best.incremental > 0.0 then Some(best.policy) else None;
      Some(Choice(selected, best.incremental, Mapped(PolicyOf, ordered)))
  }

  lemma RanksLinear()
    ensures TotalPreorder(RanksFirst)
  {
    TextLinear();
  }

  /** The first of the ranking is the lexicographic maximum: the largest incremental utility,
      then the lowest turnover, then the largest net utility, then the greatest policy name.
      It is selected exactly when some attempt has positive incremental utility. */
  lemma ChoiceIsBest(attempts: seq<Attempt>)
    requires attempts != []
    ensures SelectAttempt(attempts).Some?
    ensures var choice := SelectAttempt(attempts).value;
            && (choice.selected.None? <==> forall a :: a in attempts ==> a.incremental <= 0.0)
            && multiset(choice.ranked) == multiset(Mapped(PolicyOf, attempts))
            && exists best :: best in attempts && best.incremental == choice.incremental
                 && (choice.selected.Some? ==> choice.selected == Some(best.policy))
                 && forall a :: a in attempts ==> RanksFirst(best, a)
  {
    RanksLinear();
    SortSorts(RanksFirst, attempts);
    var ordered := Sort(RanksFirst, attempts);
    var best := ordered[0];
    SameElements(ordered, attempts, best);
    forall a | a in attempts ensures RanksFirst(best, a) && a.incremental <= best.incremental {
      SameElements(ordered, attempts, a);
      BestIsFirst(ordered, a);
    }
    MappedPermuted(PolicyOf, ordered, attempts);
  }

  lemma BestIsFirst(ordered: seq<Attempt>, a: Attempt)
    requires Sorted(RanksFirst, ordered) && a in ordered
    ensures RanksFirst(ordered[0], a)
  {
    TextLinear();
    var k :| 0 <= k < |ordered| && ordered[k] == a;
    assert k > 0 ==> RanksFirst(ordered[0], ordered[k]);
  }

  lemma MappedPermuted(f: Attempt -> string, a: seq<Attempt>, b: seq<Attempt>)
    requires multiset(a) == multiset(b)
    ensures multiset(Mapped(f, a)) == multiset(Mapped(f, b))
  {
    MappedIsCollected(f, a);
    MappedIsCollected(f, b);
    CollectPermuted(Single(f), a, b);
  }

  function Single(f: Attempt -> string): Attempt -> seq<string> { (a: Attempt) => [f(a)] }

  lemma {:induction false} MappedIsCollected(f: Attempt -> string, a: seq<Attempt>)
    ensures Mapped(f, a) == Collect(Single(f), a)
  {
    if a != [] {
      MappedIsCollected(f, a[..|a| - 1]);
    }
  }

  /** With one attempt per policy the choice and the whole ranking do not depend on the order
      of the attempts. */
  lemma ChoiceOrderFree(a: seq<Attempt>, b: seq<Attempt>)
    requires multiset(a) == multiset(b) && OneEach(PolicyOf, a)
    ensures SelectAttempt(a) == SelectAttempt(b)
  {
    assert |multiset(a)| == |a| && |multiset(b)| == |b|;
    RanksLinear();
    PoliciesDoNotTie(a);
    SortIsCanonical(RanksFirst, a, b);
  }

  lemma PoliciesDoNotTie(a: seq<Attempt>)
    requires OneEach(PolicyOf, a)
    ensures NoTies(RanksFirst, a)
  {
    forall x, y | x in a && y in a && RanksFirst(x, y) && RanksFirst(y, x) ensures x == y {
      TextTotal(x.policy, y.policy);
      OneEachSame(PolicyOf, a, x, y);
    }
  }

  // ---- the holdout does not reach the choice ----

  datatype Study = Study(attempts: seq<Attempt>, choice: Choice)

  /** The study of one input: `None` where it is refused or raises. */
  function RunStudy(e: Engine, specs: seq<Spec>, observations: seq<Observation>, predictions: seq<Prediction>)
    : Option<Study>
  {
    var split, index := Split(observations), IndexOf(predictions);
    if split.None? || index.None? || !HasModels(index.value, BASELINES + [CANDIDATE, "ttm-r3"]) then None
    else
      var attempts := Attempts(e, specs, split.value, index.value);
      if attempts.None? || attempts.value == [] then None
      else Some(Study(attempts.value, SelectAttempt(attempts.value).value))
  }

  predicate HasModels(index: Index, models: seq<string>) { forall k :: 0 <= k < |models| ==> models[k] in index }

  datatype Pair = Pair(one: Observation, two: Observation)

  function One(x: Pair): Observation { x.one }

  function Two(x: Pair): Observation { x.two }

  /** The same identity, and the same outcome unless `one` is held out. */
  predicate Agree(x: Pair, development: seq<Observation>) {
    && x.one.instrument == x.two.instrument && x.one.cutoff == x.two.cutoff && x.one.id == x.two.id
    && (x.one in development ==> x.one == x.two)
  }

  predicate PairEarlier(x: Pair, y: Pair) { EarlierOrSame(x.one, y.one) }

  function PairsOf(pairs: seq<Pair>, instrument: string): seq<Pair> {
    if pairs == [] then []
    else
      var last := pairs[|pairs| - 1];
      PairsOf(pairs[..|pairs| - 1], instrument) + if last.one.instrument == instrument then [last] else []
  }

  predicate AllAgree(pairs: seq<Pair>, development: seq<Observation>) {
    forall i :: 0 <= i < |pairs| ==> Agree(pairs[i], development)
  }

  lemma {:induction false} PairsOfOnes(pairs: seq<Pair>, instrument: string)
    ensures Mapped(One, PairsOf(pairs, instrument)) == OfInstrument(Mapped(One, pairs), instrument)
  {
    if pairs != [] {
      var init, last := pairs[..|pairs| - 1], pairs[|pairs| - 1];
      PairsOfOnes(init, instrument);
      var mapped, kept := Mapped(One, pairs), PairsOf(init, instrument);
      assert mapped[..|mapped| - 1] == Mapped(One, init) && mapped[|mapped| - 1] == last.one;
      assert (kept + [last])[..|kept|] == kept;
    }
  }

  lemma {:induction false} PairsOfTwos(pairs: seq<Pair>, instrument: string, development: seq<Observation>)
    requires AllAgree(pairs, development)
    ensures Mapped(Two, PairsOf(pairs, instrument)) == OfInstrument(Mapped(Two, pairs), instrument)
  {
    if pairs != [] {
      var init, last := pairs[..|pairs| - 1], pairs[|pairs| - 1];
      PairsOfTwos(init, instrument, development);
      var mapped, kept := Mapped(Two, pairs), PairsOf(init, instrument);
      assert mapped[..|mapped| - 1] == Mapped(Two, init) && mapped[|mapped| - 1] == last.two;
      assert (kept + [last])[..|kept|] == kept;
    }
  }

  lemma {:induction false} SameInstruments(pairs: seq<Pair>, development: seq<Observation>)
    requires AllAgree(pairs, development)
    ensures Instruments(Mapped(One, pairs)) == Instruments(Mapped(Two, pairs))
  {
    if pairs != [] {
      var init := pairs[..|pairs| - 1];
      SameInstruments(init, development);
      var ones, twos := Mapped(One, pairs), Mapped(Two, pairs);
      assert ones[..|ones| - 1] == Mapped(One, init) && twos[..|twos| - 1] == Mapped(Two, init);
    }
  }

  lemma {:induction false} PairsOfAgree(pairs: seq<Pair>, instrument: string, development: seq<Observation>)
    requires AllAgree(pairs, development)
    ensures forall x :: x in PairsOf(pairs, instrument) ==> Agree(x, development)
  {
    if pairs != [] {
      PairsOfAgree(pairs[..|pairs| - 1], instrument, development);
    }
  }

  /** Sorting moves both observations of a pair alike. */
  lemma PairsOrdered(pairs: seq<Pair>, instrument: string, development: seq<Observation>)
    returns (sorted: seq<Pair>)
    requires AllAgree(pairs, development)
    ensures Mapped(One, sorted) == Ordered(Mapped(One, pairs), instrument)
    ensures Mapped(Two, sorted) == Ordered(Mapped(Two, pairs), instrument)
    ensures AllAgree(sorted, development)
  {
    hide OfInstrument, PairsOf, Sort, TextAtMost;
    var own := PairsOf(pairs, instrument);
    sorted := Sort(PairEarlier, own);
    PairsOfOnes(pairs, instrument);
    PairsOfTwos(pairs, instrument, development);
    PairsOfAgree(pairs, instrument, development);
    ObservationsLinear();
    assert TotalPreorder(PairEarlier);
    SortMapped(PairEarlier, EarlierOrSame, One, own);
    SortMapped(PairEarlier, EarlierOrSame, Two, own);
    SortSorts(PairEarlier, own);
    forall i | 0 <= i < |sorted| ensures Agree(sorted[i], development) { SameElements(sorted, own, sorted[i]); }
  }

  lemma {:induction false} PrefixAgrees(sorted: seq<Pair>, development: seq<Observation>, n: nat)
    requires n <= |sorted| && AllAgree(sorted, development)
    requires forall x :: x in Mapped(One, sorted)[..n] ==> x in development
    ensures Mapped(One, sorted)[..n] == Mapped(Two, sorted)[..n]
  {
    var ones, twos := Mapped(One, sorted), Mapped(Two, sorted);
    forall k | 0 <= k < n ensures ones[..n][k] == twos[..n][k] {
      assert ones[..n][k] == sorted[k].one && Agree(sorted[k], development);
    }
  }

  function DevelopmentOf(observations: seq<Observation>): seq<Observation> {
    if Split(observations).None? then [] else Development(Split(observations).value)
  }

  lemma InDevelopment(btc: seq<Observation>, eth: seq<Observation>)
    requires |btc| == 64 && |eth| == 64
    ensures forall x :: x in btc[..48] ==> x in Development(Parts(btc, eth))
    ensures forall x :: x in eth[..48] ==> x in Development(Parts(btc, eth))
  {
    assert btc[..48] == btc[..32] + btc[32..48] && eth[..48] == eth[..32] + eth[32..48];
  }

  lemma SamePrefixSameParts(
      a: seq<Observation>, b: seq<Observation>, c: seq<Observation>, d: seq<Observation>)
    requires |a| == |b| == |c| == |d| == 64 && a[..48] == c[..48] && b[..48] == d[..48]
    ensures Parts(a, b).tuning == Parts(c, d).tuning && Parts(a, b).validation == Parts(c, d).validation
  {
    assert a[..32] == a[..48][..32] && c[..32] == c[..48][..32] && b[..32] == b[..48][..32] && d[..32] == d[..48][..32];
    assert a[32..48] == a[..48][32..] && c[32..48] == c[..48][32..];
    assert b[32..48] == b[..48][32..] && d[32..48] == d[..48][32..];
  }

  /** Inputs that agree outside the holdout split alike: both are refused, or both have the
      same tuning and validation parts. */
  lemma SplitIgnoresHoldout(pairs: seq<Pair>)
    requires AllAgree(pairs, DevelopmentOf(Mapped(One, pairs)))
    ensures var s, t := Split(Mapped(One, pairs)), Split(Mapped(Two, pairs));
            && (s.Some? <==> t.Some?)
            && (s.Some? ==> s.value.tuning == t.value.tuning && s.value.validation == t.value.validation)
  {
    hide Ordered, Instruments, OfInstrument, AllAgree;
    var development := DevelopmentOf(Mapped(One, pairs));
    var btc := PairsOrdered(pairs, "BTCUSDT", development);
    var eth := PairsOrdered(pairs, "ETHUSDT", development);
    SameInstruments(pairs, development);
    if Splittable(Mapped(One, pairs)) {
      InDevelopment(Mapped(One, btc), Mapped(One, eth));
      PrefixAgrees(btc, development, 48);
      PrefixAgrees(eth, development, 48);
      SamePrefixSameParts(Mapped(One, btc), Mapped(One, eth), Mapped(Two, btc), Mapped(Two, eth));
    }
  }

  /** Predictions of the same models for the same observations, the same wherever the
      observation is one of `ids`. */
  predicate SamePredictions(a: seq<Prediction>, b: seq<Prediction>, ids: set<string>) {
    && |a| == |b|
    && forall i :: 0 <= i < |a| ==> SamePlace(a[i], b[i]) && (a[i].id in ids ==> a[i] == b[i])
  }

  ghost predicate SameIndex(a: Index, b: Index, ids: set<string>) {
    && a.Keys == b.Keys
    && (forall m, id :: Lookup(a, m, id).Some? <==> Lookup(b, m, id).Some?)
    && (forall m, id :: id in ids ==> Lookup(a, m, id) == Lookup(b, m, id))
  }

  lemma SameIndexStep(a: Index, b: Index, ids: set<string>, p: Prediction, q: Prediction)
    requires SameIndex(a, b, ids) && SamePlace(p, q) && (p.id in ids ==> p == q)
    ensures AddPrediction(a, p).Some? <==> AddPrediction(b, q).Some?
    ensures AddPrediction(a, p).Some? ==> SameIndex(AddPrediction(a, p).value, AddPrediction(b, q).value, ids)
  {
    AddedLookup(a, p, p.model, p.id);
    AddedLookup(b, q, q.model, q.id);
    if AddPrediction(a, p).Some? {
      var c, d := AddPrediction(a, p).value, AddPrediction(b, q).value;
      assert c.Keys == a.Keys + {p.model} && d.Keys == b.Keys + {q.model};
      hide Lookup, AddPrediction;
      forall m, id
        ensures Lookup(c, m, id).Some? <==> Lookup(d, m, id).Some?
        ensures id in ids ==> Lookup(c, m, id) == Lookup(d, m, id)
      {
        AddedLookup(a, p, m, id);
        AddedLookup(b, q, m, id);
      }
    }
  }

  lemma {:induction false} IndexIgnoresHoldout(a: seq<Prediction>, b: seq<Prediction>, ids: set<string>)
    requires SamePredictions(a, b, ids)
    ensures Indexed(a).Some? <==> Indexed(b).Some?
    ensures Indexed(a).Some? ==> SameIndex(Indexed(a).value, Indexed(b).value, ids)
  {
    if a != [] {
      var n := |a| - 1;
      IndexIgnoresHoldout(a[..n], b[..n], ids);
      hide SameIndex, AddPrediction;
      if Indexed(a[..n]).Some? { SameIndexStep(Indexed(a[..n]).value, Indexed(b[..n]).value, ids, a[n], b[n]); }
    }
  }

  lemma {:induction false} SamePaths(
      a: Index, b: Index, ids: set<string>, model: string, observations: seq<Observation>)
    requires SameIndex(a, b, ids) && forall x :: x in observations ==> x.id in ids
    ensures ModelPredictions(a, model, observations) == ModelPredictions(b, model, observations)
  {
    if model in a && observations != [] {
      var n := |observations| - 1;
      assert observations[n].id in ids;
      SamePaths(a, b, ids, model, observations[..n]);
    }
  }

  predicate SameDevelopment(p: Partition, q: Partition) { p.tuning == q.tuning && p.validation == q.validation }

  lemma SameModelMetrics(
      e: Engine, spec: Spec, p: Partition, q: Partition, a: Index, b: Index, model: string)
    requires SameDevelopment(p, q) && SameIndex(a, b, Ids(Development(p)))
    ensures ModelMetrics(e, spec, p, a, model) == ModelMetrics(e, spec, q, b, model)
  {
    SamePaths(a, b, Ids(Development(p)), model, Development(p));
  }

  lemma {:induction false} SameAllMetrics(
      e: Engine, spec: Spec, p: Partition, q: Partition, a: Index, b: Index, models: seq<string>)
    requires SameDevelopment(p, q) && SameIndex(a, b, Ids(Development(p)))
    ensures AllMetrics(e, spec, p, a, models) == AllMetrics(e, spec, q, b, models)
  {
    hide SameDevelopment, SameIndex, ModelMetrics;
    if models != [] {
      SameAllMetrics(e, spec, p, q, a, b, models[..|models| - 1]);
      SameModelMetrics(e, spec, p, q, a, b, models[|models| - 1]);
    }
  }

  lemma SameAttempt(e: Engine, spec: Spec, p: Partition, q: Partition, a: Index, b: Index)
    requires SameDevelopment(p, q) && SameIndex(a, b, Ids(Development(p)))
    ensures ValidationAttempt(e, spec, p, a) == ValidationAttempt(e, spec, q, b)
  {
    SameAllMetrics(e, spec, p, q, a, b, BASELINES + [CANDIDATE]);
    hide SameDevelopment, SameIndex, AllMetrics, Strongest, Nets;
  }

  lemma {:induction false} SameAttempts(e: Engine, specs: seq<Spec>, p: Partition, q: Partition, a: Index, b: Index)
    requires SameDevelopment(p, q) && SameIndex(a, b, Ids(Development(p)))
    ensures Attempts(e, specs, p, a) == Attempts(e, specs, q, b)
  {
    hide SameDevelopment, SameIndex, ValidationAttempt;
    if specs != [] {
      SameAttempts(e, specs[..|specs| - 1], p, q, a, b);
      SameAttempt(e, specs[|specs| - 1], p, q, a, b);
    }
  }

  /** Two inputs with the same observation identities and the same prediction places, that
      agree on the outcomes and predictions of the development part, have the same study:
      the same refusals, attempts, ranking and selected policy, whatever the policy and
      utility functions are. */
  lemma HoldoutDoesNotInterfere(
      e: Engine, specs: seq<Spec>, pairs: seq<Pair>, a: seq<Prediction>, b: seq<Prediction>)
    requires AllAgree(pairs, DevelopmentOf(Mapped(One, pairs)))
    requires SamePredictions(a, b, Ids(DevelopmentOf(Mapped(One, pairs))))
    ensures RunStudy(e, specs, Mapped(One, pairs), a) == RunStudy(e, specs, Mapped(Two, pairs), b)
  {
    var s, t := Split(Mapped(One, pairs)), Split(Mapped(Two, pairs));
    SplitIgnoresHoldout(pairs);
    hide AllAgree, Mapped, Split, SameIndex, Attempts, SelectAttempt;
    IndexIgnoresHoldout(a, b, Ids(DevelopmentOf(Mapped(One, pairs))));
    if s.Some? && IndexOf(a).Some? {
      assert SameDevelopment(s.value, t.value);
      SameAttempts(e, specs, s.value, t.value, IndexOf(a).value, IndexOf(b).value);
      SameModels(IndexOf(a).value, IndexOf(b).value, Ids(Development(s.value)), BASELINES + [CANDIDATE, "ttm-r3"]);
    }
  }

  lemma SameModels(a: Index, b: Index, ids: set<string>, models: seq<string>)
    requires SameIndex(a, b, ids)
    ensures HasModels(a, models) <==> HasModels(b, models)
  {
    assert forall m :: m in a <==> m in a.Keys;
    assert forall m :: m in b <==> m in b.Keys;
  }
}
