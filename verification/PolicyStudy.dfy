/** What the policy study computes for each policy and when it selects one, in the terms of
    the predictions and of the two functions it calls. */
module PolicyStudy {

  import opened Options
  import opened Sorting
  import opened TextOrder
  import opened SignalPolicies

  /** The five baselines and the candidate. */
  const MODELS: seq<string> := ["naive", "drift", "seasonal-7", "linear", "lightgbm", "ttm-r2"]

  const CASES: seq<string> := ["optimistic", "base", "conservative", "severe_plausible"]

  // ------------------------------------------------------------- one evaluation

  /** The model's predictions for the observations, one each and in their order. */
  predicate IsPath(path: seq<Prediction>, index: Index, model: string, observations: seq<Observation>) {
    && model in index && |path| == |observations|
    && forall k :: 0 <= k < |observations| ==>
         observations[k].id in index[model] && path[k] == index[model][observations[k].id]
  }

  predicate Among(id: string, validation: seq<Observation>) {
    exists k :: 0 <= k < |validation| && validation[k].id == id
  }

  /** The signals for the validation observations, in their order. */
  function Kept(signals: seq<Signal>, validation: seq<Observation>): seq<Signal> {
    if signals == [] then []
    else if Among(signals[0].id, validation) then [signals[0]] + Kept(signals[1..], validation)
    else Kept(signals[1..], validation)
  }

  /** The policy applied to the development path of a model, evaluated on the validation
      observations alone. */
  predicate ScoredOver(e: Engine, spec: Spec, p: Partition, path: seq<Prediction>, signals: seq<Signal>,
                       scenario: string, m: Metrics) {
    && e.apply(p.tuning + p.validation, path, spec) == Some(signals)
    && e.evaluate(p.validation, Kept(signals, p.validation), scenario) == Some(m)
  }

  /** Every observation has its own identity. */
  predicate OneIdEach(observations: seq<Observation>) {
    forall i, j :: 0 <= i < j < |observations| ==> observations[i].id != observations[j].id
  }

  lemma {:induction false} PathIs(index: Index, model: string, observations: seq<Observation>, path: seq<Prediction>)
    ensures ModelPredictions(index, model, observations) == Some(path) <==> IsPath(path, index, model, observations)
  {
    if model in index && observations != [] {
      var n := |observations| - 1;
      if path == [] {
        NotEmptyPath(index, model, observations);
      } else {
        PathIs(index, model, observations[..n], path[..|path| - 1]);
        assert path == path[..|path| - 1] + [path[|path| - 1]];
      }
    }
  }

  lemma NotEmptyPath(index: Index, model: string, observations: seq<Observation>)
    requires observations != []
    ensures ModelPredictions(index, model, observations) != Some([])
  {
  }

  lemma {:induction false} KeptConcat(a: seq<Signal>, b: seq<Signal>, validation: seq<Observation>)
    ensures Kept(a + b, validation) == Kept(a, validation) + Kept(b, validation)
  {
    hide Among;
    if a == [] {
      assert a + b == b;
    } else {
      assert (a + b)[0] == a[0] && (a + b)[1..] == a[1..] + b;
      KeptConcat(a[1..], b, validation);
    }
  }

  lemma IdsHave(validation: seq<Observation>, id: string)
    ensures id in Ids(validation) <==> Among(id, validation)
  {
  }

  lemma {:induction false} KeptIs(signals: seq<Signal>, validation: seq<Observation>)
    ensures SignalsWithIds(signals, Ids(validation)) == Kept(signals, validation)
  {
    hide Ids, Among;
    if signals != [] {
      var init, last := signals[..|signals| - 1], signals[|signals| - 1];
      KeptIs(init, validation);
      KeptConcat(init, [last], validation);
      assert init + [last] == signals && [last][1..] == [];
      IdsHave(validation, last.id);
    }
  }

  lemma {:induction false} WithIdsConcat(a: seq<Observation>, b: seq<Observation>, ids: set<string>)
    ensures WithIds(a + b, ids) == WithIds(a, ids) + WithIds(b, ids)
  {
    if b == [] {
      assert a + b == a;
    } else {
      assert (a + b)[..|a + b| - 1] == a + b[..|b| - 1];
      WithIdsConcat(a, b[..|b| - 1], ids);
    }
  }

  lemma {:induction false} AllOrNone(s: seq<Observation>, ids: set<string>)
    ensures (forall x :: x in s ==> x.id in ids) ==> WithIds(s, ids) == s
    ensures (forall x :: x in s ==> x.id !in ids) ==> WithIds(s, ids) == []
  {
    if s != [] {
      AllOrNone(s[..|s| - 1], ids);
      assert s == s[..|s| - 1] + [s[|s| - 1]];
    }
  }

  /** The validation observations are found again among the development ones. */
  lemma ValidationFound(p: Partition)
    requires OneIdEach(p.tuning + p.validation)
    ensures WithIds(Development(p), Ids(p.validation)) == p.validation
  {
    var all := p.tuning + p.validation;
    forall x, y | x in p.tuning && y in p.validation ensures x.id != y.id {
      var i :| 0 <= i < |p.tuning| && p.tuning[i] == x;
      var j :| 0 <= j < |p.validation| && p.validation[j] == y;
      assert all[i] == x && all[|p.tuning| + j] == y;
    }
    WithIdsConcat(p.tuning, p.validation, Ids(p.validation));
    AllOrNone(p.tuning, Ids(p.validation));
    AllOrNone(p.validation, Ids(p.validation));
  }

  lemma {:induction false} EvaluationsAre(
      e: Engine, observations: seq<Observation>, signals: seq<Signal>, scenarios: seq<string>)
    ensures var r := Evaluations(e, observations, signals, scenarios);
            && (r.Some? <==> forall j :: 0 <= j < |scenarios| ==> e.evaluate(observations, signals, scenarios[j]).Some?)
            && (r.Some? ==>
                  |r.value| == |scenarios|
                  && forall j :: 0 <= j < |scenarios| ==>
                       e.evaluate(observations, signals, scenarios[j]) == Some(r.value[j]))
  {
    if scenarios != [] {
      var n := |scenarios| - 1;
      EvaluationsAre(e, observations, signals, scenarios[..n]);
      assert forall j :: 0 <= j < n ==> scenarios[..n][j] == scenarios[j];
    }
  }

  /** All four scores of a model, over one path and one list of signals. */
  predicate ModelScored(
      e: Engine, spec: Spec, p: Partition, path: seq<Prediction>, signals: seq<Signal>, scores: seq<Metrics>)
  {
    |scores| == 4 && forall j :: 0 <= j < 4 ==> ScoredOver(e, spec, p, path, signals, CASES[j], scores[j])
  }

  ghost predicate AreScores(e: Engine, spec: Spec, p: Partition, index: Index, model: string, scores: seq<Metrics>) {
    exists path, signals ::
      IsPath(path, index, model, p.tuning + p.validation) && ModelScored(e, spec, p, path, signals, scores)
  }

  lemma ScoresOf(e: Engine, spec: Spec, p: Partition, index: Index, model: string, scores: seq<Metrics>)
    requires OneIdEach(p.tuning + p.validation)
    ensures ModelMetrics(e, spec, p, index, model) == Some(scores) <==> AreScores(e, spec, p, index, model, scores)
  {
    hide IsPath, ModelPredictions, Kept, WithIds, SignalsWithIds, Ids, Evaluations, OneIdEach;
    var dev := p.tuning + p.validation;
    ValidationFound(p);
    var found := ModelPredictions(index, model, dev);
    if found.Some? {
      PathIs(index, model, dev, found.value);
      var applied := e.apply(dev, found.value, spec);
      if applied.Some? {
        KeptIs(applied.value, p.validation);
        EvaluationsAre(e, p.validation, Kept(applied.value, p.validation), SCENARIOS);
        SameScores(e, spec, p, found.value, applied.value, scores);
      }
    }
    if AreScores(e, spec, p, index, model, scores) {
      var path, signals :| IsPath(path, index, model, dev) && ModelScored(e, spec, p, path, signals, scores);
      PathIs(index, model, dev, path);
      assert ScoredOver(e, spec, p, path, signals, CASES[0], scores[0]);
    }
  }

  lemma SameScores(
      e: Engine, spec: Spec, p: Partition, path: seq<Prediction>, signals: seq<Signal>, scores: seq<Metrics>)
    requires e.apply(p.tuning + p.validation, path, spec) == Some(signals)
    ensures ModelScored(e, spec, p, path, signals, scores) <==>
            Evaluations(e, p.validation, Kept(signals, p.validation), SCENARIOS) == Some(scores)
  {
    hide Kept;
    EvaluationsAre(e, p.validation, Kept(signals, p.validation), SCENARIOS);
    assert |SCENARIOS| == 4 && forall j :: 0 <= j < 4 ==> SCENARIOS[j] == CASES[j];
    var r := Evaluations(e, p.validation, Kept(signals, p.validation), SCENARIOS);
    hide Evaluations;
    if ModelScored(e, spec, p, path, signals, scores) {
      forall j | 0 <= j < 4
        ensures e.evaluate(p.validation, Kept(signals, p.validation), SCENARIOS[j]) == Some(scores[j])
      {
        assert ScoredOver(e, spec, p, path, signals, CASES[j], scores[j]);
      }
      assert r.Some?;
      assert r.value == scores;
    }
  }

  lemma {:induction false} AllScores(
      e: Engine, spec: Spec, p: Partition, index: Index, models: seq<string>, table: seq<seq<Metrics>>)
    requires OneIdEach(p.tuning + p.validation)
    ensures AllMetrics(e, spec, p, index, models) == Some(table) <==>
            |table| == |models| && forall k :: 0 <= k < |models| ==> AreScores(e, spec, p, index, models[k], table[k])
  {
    hide ModelMetrics, AreScores, OneIdEach;
    if models != [] {
      var n := |models| - 1;
      if |table| == |models| {
        AllScores(e, spec, p, index, models[..n], table[..n]);
        ScoresOf(e, spec, p, index, models[n], table[n]);
        assert table == table[..n] + [table[n]];
        AllScoresStep(e, spec, p, index, models, table);
      }
    }
  }

  lemma AllScoresStep(
      e: Engine, spec: Spec, p: Partition, index: Index, models: seq<string>, table: seq<seq<Metrics>>)
    requires |table| == |models| > 0
    ensures var n := |models| - 1;
            (forall k :: 0 <= k < |models| ==> AreScores(e, spec, p, index, models[k], table[k])) <==>
            (forall k :: 0 <= k < n ==> AreScores(e, spec, p, index, models[..n][k], table[..n][k]))
            && AreScores(e, spec, p, index, models[n], table[n])
  {
    hide AreScores;
    var n := |models| - 1;
    assert forall k :: 0 <= k < n ==> models[..n][k] == models[k] && table[..n][k] == table[k];
  }

  // ------------------------------------------------------------------ one policy

  /** Six rows of four scores. */
  predicate Shaped(table: seq<seq<Metrics>>) {
    |table| == 6 && forall i :: 0 <= i < 6 ==> |table[i]| == 4
  }

  /** Row `k` has the largest conservative net utility of the five baselines, and of those
      with it the greatest name. */
  predicate IsStrongest(table: seq<seq<Metrics>>, k: nat)
    requires Shaped(table)
  {
    k < 5 && forall j :: 0 <= j < 5 ==>
      table[j][2].net < table[k][2].net || (table[j][2].net == table[k][2].net && TextAtMost(MODELS[j], MODELS[k]))
  }

  /** The figures of an attempt: those of the candidate under the conservative costs, and
      how far its net utility is above that of the strongest baseline. */
  predicate IsFigured(a: Attempt, spec: Spec, k: nat)
    requires Shaped(a.metrics) && k < 5
  {
    && a.policy == spec.policy && a.net == a.metrics[5][2].net && a.turnover == a.metrics[5][2].turnover
    && a.strongest == MODELS[k] && a.incremental == a.metrics[5][2].net - a.metrics[k][2].net
  }

  ghost predicate TableIs(e: Engine, spec: Spec, p: Partition, index: Index, table: seq<seq<Metrics>>) {
    Shaped(table) && forall k :: 0 <= k < 6 ==> AreScores(e, spec, p, index, MODELS[k], table[k])
  }

  ghost predicate HasTable(e: Engine, spec: Spec, p: Partition, index: Index) {
    exists table: seq<seq<Metrics>> :: TableIs(e, spec, p, index, table)
  }

  lemma ModelsAre()
    ensures BASELINES + [CANDIDATE] == MODELS && |MODELS| == 6 && |BASELINES| == 5
  {
  }

  /** An attempt has a table of the scores of the six models in the four scenarios, the
      figures of that table, and exists exactly when there is such a table. */
  lemma AttemptIs(e: Engine, spec: Spec, p: Partition, index: Index)
    requires OneIdEach(p.tuning + p.validation)
    ensures var a := ValidationAttempt(e, spec, p, index);
            && (a.Some? <==> HasTable(e, spec, p, index))
            && (a.Some? ==>
                  TableIs(e, spec, p, index, a.value.metrics)
                  && exists k :: 0 <= k < 5 && IsStrongest(a.value.metrics, k) && IsFigured(a.value, spec, k))
  {
    ModelsAre();
    var all := AllMetrics(e, spec, p, index, BASELINES + [CANDIDATE]);
    hide AreScores, AllMetrics, OneIdEach, Strongest;
    if table: seq<seq<Metrics>> :| TableIs(e, spec, p, index, table) {
      AllScores(e, spec, p, index, BASELINES + [CANDIDATE], table);
    }
    if all.Some? {
      AllScores(e, spec, p, index, BASELINES + [CANDIDATE], all.value);
      assert TableIs(e, spec, p, index, all.value);
      var nets := Nets(all.value);
      StrongestIsMax(BASELINES, nets, 5);
      var k := Strongest(BASELINES, nets, 5);
      assert forall j :: 0 <= j < 5 ==> BASELINES[j] == MODELS[j] && nets[j] == all.value[j][2].net;
      assert IsStrongest(all.value, k);
      assert IsFigured(ValidationAttempt(e, spec, p, index).value, spec, k);
    }
  }

  predicate LastBeats(table: seq<seq<Metrics>>) {
    Shaped(table) && forall k :: 0 <= k < 5 ==> table[5][2].net > table[k][2].net
  }

  /** The candidate beats every baseline on the policy, under the conservative costs. */
  ghost predicate BeatsAll(e: Engine, spec: Spec, p: Partition, index: Index) {
    exists table: seq<seq<Metrics>> :: TableIs(e, spec, p, index, table) && LastBeats(table)
  }

  lemma ScoresOnce(e: Engine, spec: Spec, p: Partition, index: Index, a: seq<seq<Metrics>>, b: seq<seq<Metrics>>)
    requires OneIdEach(p.tuning + p.validation) && TableIs(e, spec, p, index, a) && TableIs(e, spec, p, index, b)
    ensures a == b
  {
    hide AreScores, AllMetrics;
    ModelsAre();
    AllScores(e, spec, p, index, MODELS, a);
    AllScores(e, spec, p, index, MODELS, b);
  }

  lemma PositiveBeats(e: Engine, spec: Spec, p: Partition, index: Index)
    requires OneIdEach(p.tuning + p.validation) && ValidationAttempt(e, spec, p, index).Some?
    ensures ValidationAttempt(e, spec, p, index).value.incremental > 0.0 <==> BeatsAll(e, spec, p, index)
  {
    hide ValidationAttempt, TableIs, OneIdEach, LastBeats, IsStrongest, Shaped;
    AttemptIs(e, spec, p, index);
    var a := ValidationAttempt(e, spec, p, index).value;
    TableShape(e, spec, p, index, a.metrics);
    var k :| 0 <= k < 5 && IsStrongest(a.metrics, k) && IsFigured(a, spec, k);
    BeatsStrongest(a.metrics, k);
    if BeatsAll(e, spec, p, index) {
      var table: seq<seq<Metrics>> :| TableIs(e, spec, p, index, table) && LastBeats(table);
      ScoresOnce(e, spec, p, index, table, a.metrics);
    }
  }

  lemma BeatsStrongest(table: seq<seq<Metrics>>, k: nat)
    requires Shaped(table) && IsStrongest(table, k)
    ensures LastBeats(table) <==> table[5][2].net > table[k][2].net
  {
    hide TextAtMost;
  }

  lemma TableShape(e: Engine, spec: Spec, p: Partition, index: Index, table: seq<seq<Metrics>>)
    requires TableIs(e, spec, p, index, table)
    ensures Shaped(table)
  {
  }

  lemma {:induction false} AttemptsAre(e: Engine, specs: seq<Spec>, p: Partition, index: Index)
    ensures var r := Attempts(e, specs, p, index);
            && (r.Some? <==> forall i :: 0 <= i < |specs| ==> ValidationAttempt(e, specs[i], p, index).Some?)
            && (r.Some? ==>
                  |r.value| == |specs|
                  && forall i :: 0 <= i < |specs| ==> ValidationAttempt(e, specs[i], p, index) == Some(r.value[i]))
  {
    hide ValidationAttempt;
    if specs != [] {
      var n := |specs| - 1;
      AttemptsAre(e, specs[..n], p, index);
      assert forall i :: 0 <= i < n ==> specs[..n][i] == specs[i];
    }
  }

  // ------------------------------------------------------------------- the choice

  /** Larger incremental utility first, then lower turnover, then larger net utility, then
      the greater name. */
  predicate Precedes(x: Attempt, y: Attempt) {
    || x.incremental > y.incremental
    || (x.incremental == y.incremental
        && (|| x.turnover < y.turnover
            || (x.turnover == y.turnover
                && (x.net > y.net || (x.net == y.net && TextAtMost(y.policy, x.policy))))))
  }

  /** The attempts in the order of the ranking. */
  predicate Ranking(ordered: seq<Attempt>, attempts: seq<Attempt>, ranked: seq<string>) {
    && multiset(ordered) == multiset(attempts) && |ranked| == |ordered|
    && (forall i :: 0 <= i < |ordered| ==> ranked[i] == ordered[i].policy)
    && (forall i, j :: 0 <= i < j < |ordered| ==> Precedes(ordered[i], ordered[j]))
  }

  /** The ranking lists every attempt's policy in that order; its first is the best, and is
      selected exactly when its incremental utility is positive. */
  lemma ChoiceIs(attempts: seq<Attempt>)
    requires attempts != []
    ensures SelectAttempt(attempts).Some?
    ensures var choice := SelectAttempt(attempts).value;
            exists ordered: seq<Attempt> :: Ranking(ordered, attempts, choice.ranked) && ordered != []
              && choice.incremental == ordered[0].incremental
              && choice.selected == if ordered[0].incremental > 0.0 then Some(ordered[0].policy) else None
  {
    RanksLinear();
    SortSorts(RanksFirst, attempts);
    var ordered := Sort(RanksFirst, attempts);
    hide TextAtMost, Sort;
    forall i, j | 0 <= i < j < |ordered| ensures Precedes(ordered[i], ordered[j]) {
      assert RanksFirst(ordered[i], ordered[j]);
    }
    assert |multiset(ordered)| == |ordered| && |multiset(attempts)| == |attempts|;
    assert Ranking(ordered, attempts, SelectAttempt(attempts).value.ranked);
  }

  // -------------------------------------------------------------------- the study

  function IdOf(x: Observation): string { x.id }

  lemma OneIdInDevelopment(observations: seq<Observation>)
    requires OneIdEach(observations) && Split(observations).Some?
    ensures var p := Split(observations).value; OneIdEach(p.tuning + p.validation)
  {
    hide Split, Chronological;
    SplitIsChronological(observations);
    var p := Split(observations).value;
    var all := p.tuning + p.validation + p.holdout;
    assert OneEach(IdOf, observations);
    OneEachPermuted(IdOf, observations, all);
    forall i, j | 0 <= i < j < |p.tuning + p.validation|
      ensures (p.tuning + p.validation)[i].id != (p.tuning + p.validation)[j].id
    {
      assert IdOf(all[i]) != IdOf(all[j]);
    }
  }

  predicate HasModel(predictions: seq<Prediction>, model: string) {
    exists i :: 0 <= i < |predictions| && predictions[i].model == model
  }

  lemma {:induction false} IndexedModels(predictions: seq<Prediction>, model: string)
    requires Indexed(predictions).Some?
    ensures model in Indexed(predictions).value <==> HasModel(predictions, model)
  {
    if predictions != [] {
      var init, last := predictions[..|predictions| - 1], predictions[|predictions| - 1];
      IndexedModels(init, model);
      if HasModel(init, model) {
        var i :| 0 <= i < |init| && init[i].model == model;
        assert predictions[i] == init[i];
      }
      if last.model == model { assert predictions[|init|] == last; }
      if i :| 0 <= i < |predictions| && predictions[i].model == model && last.model != model {
        assert init[i] == predictions[i];
      }
    }
  }

  lemma SevenModels(predictions: seq<Prediction>)
    requires Indexed(predictions).Some?
    ensures HasModels(Indexed(predictions).value, BASELINES + [CANDIDATE, "ttm-r3"]) <==>
            HasModel(predictions, "ttm-r3") && forall k :: 0 <= k < 6 ==> HasModel(predictions, MODELS[k])
  {
    var seven := BASELINES + [CANDIDATE, "ttm-r3"];
    assert |seven| == 7 && seven[6] == "ttm-r3" && forall k :: 0 <= k < 6 ==> seven[k] == MODELS[k];
    forall k | 0 <= k < 7 ensures seven[k] in Indexed(predictions).value <==> HasModel(predictions, seven[k]) {
      IndexedModels(predictions, seven[k]);
    }
    hide HasModel, Indexed;
    if HasModel(predictions, "ttm-r3") && forall k :: 0 <= k < 6 ==> HasModel(predictions, MODELS[k]) {
      forall k | 0 <= k < 7 ensures HasModel(predictions, seven[k]) {
        if k < 6 { assert HasModel(predictions, MODELS[k]); }
      }
    }
    if HasModels(Indexed(predictions).value, seven) {
      forall k | 0 <= k < 6 ensures HasModel(predictions, MODELS[k]) { assert seven[k] in Indexed(predictions).value; }
      assert seven[6] in Indexed(predictions).value;
    }
  }

  /** A study runs exactly on observations that split, predictions of the seven models that
      do not repeat a place, and policies each of which has its table. */
  lemma StudyRuns(e: Engine, specs: seq<Spec>, observations: seq<Observation>, predictions: seq<Prediction>)
    requires OneIdEach(observations)
    ensures RunStudy(e, specs, observations, predictions).Some? <==>
            && Split(observations).Some? && predictions != [] && NoRepeatedPlace(predictions)
            && HasModel(predictions, "ttm-r3") && (forall k :: 0 <= k < 6 ==> HasModel(predictions, MODELS[k]))
            && specs != []
            && Indexed(predictions).Some?
            && forall i :: 0 <= i < |specs| ==>
                 HasTable(e, specs[i], Split(observations).value, Indexed(predictions).value)
  {
    hide Split, Indexed, NoRepeatedPlace, HasModel, HasModels, ValidationAttempt, HasTable, OneIdEach, SelectAttempt,
      Attempts;
    IndexFinds(predictions);
    if Split(observations).Some? && Indexed(predictions).Some? {
      var p, index := Split(observations).value, Indexed(predictions).value;
      SevenModels(predictions);
      OneIdInDevelopment(observations);
      AttemptsAre(e, specs, p, index);
      forall i | 0 <= i < |specs|
        ensures ValidationAttempt(e, specs[i], p, index).Some? <==> HasTable(e, specs[i], p, index)
      {
        AttemptIs(e, specs[i], p, index);
      }
    }
  }

  /** What the study reports: for every policy, in order, its attempt, and the choice among
      them; and a policy is selected if and only if the candidate beats every baseline on
      some policy. */
  lemma StudySelects(e: Engine, specs: seq<Spec>, observations: seq<Observation>, predictions: seq<Prediction>)
    requires OneIdEach(observations) && RunStudy(e, specs, observations, predictions).Some?
    ensures Split(observations).Some? && Indexed(predictions).Some?
    ensures var study, p := RunStudy(e, specs, observations, predictions).value, Split(observations).value;
            var index := Indexed(predictions).value;
            && |study.attempts| == |specs| && study.attempts != []
            && (forall i :: 0 <= i < |specs| ==>
                  && TableIs(e, specs[i], p, index, study.attempts[i].metrics)
                  && exists k :: 0 <= k < 5 && IsStrongest(study.attempts[i].metrics, k)
                                 && IsFigured(study.attempts[i], specs[i], k))
            && Some(study.choice) == SelectAttempt(study.attempts)
            && (study.choice.selected.Some? <==> exists i :: 0 <= i < |specs| && BeatsAll(e, specs[i], p, index))
  {
    hide Split, Indexed, HasModels, ValidationAttempt, OneIdEach, SelectAttempt, Attempts, BeatsAll, IsStrongest,
      IsFigured, AreScores;
    var p, index := Split(observations).value, Indexed(predictions).value;
    OneIdInDevelopment(observations);
    AttemptsAre(e, specs, p, index);
    var study := RunStudy(e, specs, observations, predictions).value;
    forall i | 0 <= i < |specs|
      ensures TableIs(e, specs[i], p, index, study.attempts[i].metrics)
      ensures exists k :: 0 <= k < 5 && IsStrongest(study.attempts[i].metrics, k)
                && IsFigured(study.attempts[i], specs[i], k)
      ensures study.attempts[i].incremental > 0.0 <==> BeatsAll(e, specs[i], p, index)
    {
      AttemptIs(e, specs[i], p, index);
      PositiveBeats(e, specs[i], p, index);
    }
    ChoiceIsBest(study.attempts);
    PositiveExists(study.attempts);
  }

  lemma PositiveExists(attempts: seq<Attempt>)
    ensures (exists a :: a in attempts && a.incremental > 0.0) <==>
            exists i :: 0 <= i < |attempts| && attempts[i].incremental > 0.0
  {
  }

  // -------------------------------------------------------------------- the split

  /** By cutoff, and at one cutoff by identity. */
  predicate InOrder(s: seq<Observation>) {
    forall i, j :: 0 <= i < j < |s| ==>
      s[i].cutoff < s[j].cutoff || (s[i].cutoff == s[j].cutoff && TextAtMost(s[i].id, s[j].id))
  }

  function Count(observations: seq<Observation>, instrument: string): nat {
    if observations == [] then 0
    else
      Count(observations[..|observations| - 1], instrument)
      + if observations[|observations| - 1].instrument == instrument then 1 else 0
  }

  predicate OneOfTwo(x: Observation) {
    x.instrument == "BTCUSDT" || x.instrument == "ETHUSDT"
  }

  lemma {:induction false} CountIs(observations: seq<Observation>, instrument: string)
    ensures |OfInstrument(observations, instrument)| == Count(observations, instrument)
  {
    if observations != [] { CountIs(observations[..|observations| - 1], instrument); }
  }

  lemma {:induction false} InstrumentsAre(observations: seq<Observation>)
    ensures forall i :: i in Instruments(observations) <==>
              exists k :: 0 <= k < |observations| && observations[k].instrument == i
  {
    if observations != [] {
      var init, last := observations[..|observations| - 1], observations[|observations| - 1];
      InstrumentsAre(init);
      assert observations == init + [last];
      forall i
        ensures i in Instruments(observations) <==>
                exists k :: 0 <= k < |observations| && observations[k].instrument == i
      {
        if i in Instruments(init) {
          var k :| 0 <= k < |init| && init[k].instrument == i;
          assert observations[k].instrument == i;
        }
        if i == last.instrument { assert observations[|init|].instrument == i; }
        if k :| 0 <= k < |observations| && observations[k].instrument == i && k < |init| {
          assert init[k].instrument == i;
        }
      }
    }
  }

  lemma InstrumentCounted(observations: seq<Observation>, instrument: string)
    ensures instrument in Instruments(observations) <==> Count(observations, instrument) > 0
  {
    InstrumentsHave(observations, instrument);
    CountIs(observations, instrument);
  }

  /** Observations split exactly when there are 64 of each of the two instruments and none of
      another; and each part is, instrument by instrument, the next of them in order. */
  lemma SplitExactly(observations: seq<Observation>)
    ensures Split(observations).Some? <==>
            && Count(observations, "BTCUSDT") == 64 && Count(observations, "ETHUSDT") == 64
            && forall k :: 0 <= k < |observations| ==> OneOfTwo(observations[k])
    ensures Split(observations).Some? ==>
              exists btc, eth :: IsSplitOf(Split(observations).value, observations, btc, eth)
  {
    hide Instruments, Ordered, Count, IsSplitOf, OneOfTwo;
    OrderedCounted(observations, "BTCUSDT");
    OrderedCounted(observations, "ETHUSDT");
    OnlyTwo(observations);
    if Split(observations).Some? {
      var btc, eth := Ordered(observations, "BTCUSDT"), Ordered(observations, "ETHUSDT");
      PartsAreSplit(observations, btc, eth);
      assert IsSplitOf(Split(observations).value, observations, btc, eth);
    }
  }

  lemma PartsAreSplit(observations: seq<Observation>, btc: seq<Observation>, eth: seq<Observation>)
    requires Instruments(observations) == {"BTCUSDT", "ETHUSDT"} && |btc| == 64 && |eth| == 64
    requires btc == Ordered(observations, "BTCUSDT") && eth == Ordered(observations, "ETHUSDT")
    ensures IsSplitOf(Parts(btc, eth), observations, btc, eth)
  {
    OrderedFacts(observations, "BTCUSDT");
    OrderedFacts(observations, "ETHUSDT");
    TwoInstruments(observations);
    hide Instruments, OfInstrument, Ordered, InOrder, Sorted, EarlierOrSame, Parts;
    ObservationsInOrder(btc);
    ObservationsInOrder(eth);
    PartsAre(btc, eth);
  }

  lemma PartsAre(btc: seq<Observation>, eth: seq<Observation>)
    requires |btc| == 64 && |eth| == 64
    ensures var p := Parts(btc, eth);
            && p.tuning == btc[..32] + eth[..32] && p.validation == btc[32..48] + eth[32..48]
            && p.holdout == btc[48..64] + eth[48..64]
  {
    assert btc[48..64] == btc[48..] && eth[48..64] == eth[48..];
  }

  lemma OrderedCounted(observations: seq<Observation>, instrument: string)
    ensures |Ordered(observations, instrument)| == Count(observations, instrument)
    ensures instrument in Instruments(observations) <==> Count(observations, instrument) > 0
  {
    CountIs(observations, instrument);
    InstrumentCounted(observations, instrument);
    OrderedFacts(observations, instrument);
    var ordered, all := Ordered(observations, instrument), OfInstrument(observations, instrument);
    assert |multiset(ordered)| == |ordered| && |multiset(all)| == |all|;
  }

  lemma OnlyTwo(observations: seq<Observation>)
    ensures Instruments(observations) == {"BTCUSDT", "ETHUSDT"} <==>
            && "BTCUSDT" in Instruments(observations) && "ETHUSDT" in Instruments(observations)
            && forall k :: 0 <= k < |observations| ==> OneOfTwo(observations[k])
  {
    InstrumentsAre(observations);
    hide Instruments;
    forall k | 0 <= k < |observations| ensures observations[k].instrument in Instruments(observations) {}
  }

  lemma ObservationsInOrder(s: seq<Observation>)
    requires Sorted(EarlierOrSame, s)
    ensures InOrder(s)
  {
    forall i, j | 0 <= i < j < |s|
      ensures s[i].cutoff < s[j].cutoff || (s[i].cutoff == s[j].cutoff && TextAtMost(s[i].id, s[j].id))
    {
      assert EarlierOrSame(s[i], s[j]);
    }
  }

  predicate IsSplitOf(p: Partition, observations: seq<Observation>, btc: seq<Observation>, eth: seq<Observation>) {
    && |btc| == 64 && |eth| == 64 && InOrder(btc) && InOrder(eth)
    && (forall x :: x in btc ==> x.instrument == "BTCUSDT") && (forall x :: x in eth ==> x.instrument == "ETHUSDT")
    && multiset(btc) + multiset(eth) == multiset(observations)
    && p.tuning == btc[..32] + eth[..32] && p.validation == btc[32..48] + eth[32..48]
    && p.holdout == btc[48..64] + eth[48..64]
  }
}
