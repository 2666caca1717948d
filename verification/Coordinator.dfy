/** The long-run coordinator's case accounting: one case per opportunity, a fatal
    latch nothing undoes, and the count that says whether enough clean cases can
    still be reached.  Its clients know it only through `Attempt`s. */
module Coordinator {

  import opened Options

  /** An opportunity: a symbol and the ordinal of its preregistered cutoff. */
  datatype Key = Key(symbol: string, ordinal: int)

  datatype Bar = Bar(symbol: string, intervalEnd: int, admitted: bool, body: string)

  /** The digest of a prediction identity and the bars that realized it. */
  datatype Outcome = OutcomeOf(prediction: string, bars: seq<Bar>)

  datatype Case =
    | Pending(prediction: string)
    | Excluded(predicted: Option<string>)
    | Clean(prediction: string, outcome: Outcome)

  type Cases = map<Key, Case>

  datatype Ledger = Ledger(cases: Cases, fatal: bool)

  /** Opportunities and clean cases required per symbol, and the terminal deadline. */
  datatype Contract = Contract(symbols: set<string>, target: nat, minimum: nat, deadline: int)

  /** What a call leaves: a ledger, or an exception and nothing written. */
  datatype Attempt = Done(ledger: Ledger) | Raised

  function PredictionOf(c: Case): Option<string> {
    match c
    case Pending(p) => Some(p)
    case Excluded(p) => p
    case Clean(p, _) => Some(p)
  }

  /** The prediction already stands for another opportunity. */
  predicate BoundElsewhere(cases: Cases, key: Key, prediction: string) {
    exists k :: k in cases && k != key && PredictionOf(cases[k]) == Some(prediction)
  }

  predicate OutcomeElsewhere(cases: Cases, key: Key, outcome: Outcome) {
    exists k :: k in cases && k != key && cases[k].Clean? && cases[k].outcome == outcome
  }

  /** The append under the lock: it refuses a case that is there by now, an identical
      one included. */
  function AppendPending(l: Ledger, key: Key, prediction: string): Attempt {
    if key in l.cases || l.fatal || BoundElsewhere(l.cases, key, prediction) then Raised
    else Done(l.(cases := l.cases[key := Pending(prediction)]))
  }

  /** A call that nothing interrupts: an identical case is found before the append. */
  function RecordPending(l: Ledger, key: Key, prediction: string): Attempt {
    if key in l.cases then
      if l.cases[key] == Pending(prediction) then Done(l) else Raised
    else AppendPending(l, key, prediction)
  }

  /** The exclusion alone; the coverage check that follows it is `CheckCoverage`. */
  function RecordExcluded(l: Ledger, key: Key, prediction: Option<string>): Attempt {
    if key in l.cases && l.cases[key].Pending? && prediction != Some(l.cases[key].prediction) then Raised
    else if key in l.cases && !l.cases[key].Pending? && prediction.Some? then Raised
    else if key in l.cases && l.cases[key] == Excluded(prediction) then Done(l)
    else if key in l.cases && !l.cases[key].Pending? then Raised
    else if l.fatal || (prediction.Some? && BoundElsewhere(l.cases, key, prediction.value)) then Raised
    else Done(l.(cases := l.cases[key := Excluded(prediction)]))
  }

  /** An exclusion that is already there can be repeated only without an identity; with
      its own identity it raises. */
  lemma RepeatedExclusionRaises(l: Ledger, key: Key, predicted: Option<string>)
    requires key in l.cases && l.cases[key] == Excluded(predicted)
    ensures RecordExcluded(l, key, predicted).Raised? <==> predicted.Some?
    ensures predicted.None? ==> RecordExcluded(l, key, predicted) == Done(l)
  {
  }

  function RecordClean(l: Ledger, key: Key, prediction: string, outcome: Outcome): Attempt {
    if key in l.cases && l.cases[key] == Clean(prediction, outcome) then Done(l)
    else if key !in l.cases || l.cases[key] != Pending(prediction) then Raised
    else if l.fatal || BoundElsewhere(l.cases, key, prediction) || OutcomeElsewhere(l.cases, key, outcome) then Raised
    else Done(l.(cases := l.cases[key := Clean(prediction, outcome)]))
  }

  /** No prediction stands for two opportunities, and no outcome for two clean cases. */
  predicate Identified(cases: Cases) {
    forall a, b :: a in cases && b in cases && a != b ==>
      && (PredictionOf(cases[a]).Some? ==> PredictionOf(cases[a]) != PredictionOf(cases[b]))
      && (cases[a].Clean? && cases[b].Clean? ==> cases[a].outcome != cases[b].outcome)
  }

  /** What an accepted call leaves of the other cases, and that it found the generation not
      latched unless it changed nothing. */
  predicate Accounts(l: Ledger, key: Key, attempt: Attempt) {
    attempt.Done? ==>
      var after := attempt.ledger;
      && after.fatal == l.fatal && key in after.cases && after.cases == l.cases[key := after.cases[key]]
      && (after != l ==> !l.fatal)
      && (Identified(l.cases) ==> Identified(after.cases))
  }

  /** Whatever calls are made, by whomever and in whatever order: a case once excluded or
      clean stays, no other case is touched, a latched generation accepts nothing new, and
      identities stay distinct. */
  lemma CallsKeepIdentities(l: Ledger, key: Key, prediction: string, predicted: Option<string>, outcome: Outcome)
    ensures Accounts(l, key, AppendPending(l, key, prediction)) && Accounts(l, key, RecordPending(l, key, prediction))
    ensures Accounts(l, key, RecordExcluded(l, key, predicted))
    ensures Accounts(l, key, RecordClean(l, key, prediction, outcome))
    ensures key in l.cases && !l.cases[key].Pending? ==>
              && (RecordPending(l, key, prediction).Done? ==> RecordPending(l, key, prediction).ledger == l)
              && (RecordExcluded(l, key, predicted).Done? ==> RecordExcluded(l, key, predicted).ledger == l)
              && (RecordClean(l, key, prediction, outcome).Done? ==>
                    RecordClean(l, key, prediction, outcome).ledger == l)
  {
    PutKeepsIdentities(l.cases, key, Pending(prediction));
    PutKeepsIdentities(l.cases, key, Excluded(predicted));
    PutKeepsIdentities(l.cases, key, Clean(prediction, outcome));
    hide Identified, BoundElsewhere, OutcomeElsewhere;
  }

  lemma PutKeepsIdentities(cases: Cases, key: Key, case': Case)
    ensures && Identified(cases)
            && (PredictionOf(case').Some? ==> !BoundElsewhere(cases, key, PredictionOf(case').value))
            && (case'.Clean? ==> !OutcomeElsewhere(cases, key, case'.outcome)) ==>
              Identified(cases[key := case'])
  {
  }

  function Fail(l: Ledger): Ledger {
    l.(fatal := true)
  }

  function Of(cases: Cases, symbol: string): set<Key> {
    set k | k in cases && k.symbol == symbol
  }

  function ExcludedOf(cases: Cases, symbol: string): set<Key> {
    set k | k in cases && k.symbol == symbol && cases[k].Excluded?
  }

  function ProvisionalOf(cases: Cases, symbol: string): set<Key> {
    set k | k in cases && k.symbol == symbol && !cases[k].Excluded?
  }

  /** Cases that are or can still become clean, and opportunities not yet used,
      reach the minimum for every symbol. */
  predicate Feasible(cases: Cases, c: Contract) {
    forall s :: s in c.symbols ==>
      |ProvisionalOf(cases, s)| + c.target - |Of(cases, s)| >= c.minimum
  }

  function CheckCoverage(l: Ledger, c: Contract): Ledger {
    if Feasible(l.cases, c) then l else Fail(l)
  }

  /** The accounting counts exclusions: the minimum stays within reach exactly
      while no symbol has lost more opportunities than it can spare. */
  lemma FeasibleCountsExclusions(cases: Cases, c: Contract)
    ensures Feasible(cases, c) <==>
            forall s :: s in c.symbols ==> |ExcludedOf(cases, s)| <= c.target - c.minimum
  {
    forall s ensures |Of(cases, s)| == |ProvisionalOf(cases, s)| + |ExcludedOf(cases, s)| {
      assert Of(cases, s) == ProvisionalOf(cases, s) + ExcludedOf(cases, s);
      assert ProvisionalOf(cases, s) !! ExcludedOf(cases, s);
    }
  }

  class LongRunCoordinator {
    const contract: Contract
    var cases: Cases
    var fatal: bool

    function Value(): Ledger
      reads this
    {
      Ledger(cases, fatal)
    }

    constructor (contract: Contract)
      ensures this.contract == contract && Value() == Ledger(map[], false)
    {
      this.contract := contract;
      cases, fatal := map[], false;
    }

    method Latch()
      modifies this`fatal
      ensures Value() == Fail(old(Value()))
    {
      fatal := true;
    }

    method Pend(key: Key, prediction: string) returns (raised: bool)
      modifies this`cases
      ensures if raised then RecordPending(old(Value()), key, prediction).Raised? && Value() == old(Value())
              else RecordPending(old(Value()), key, prediction) == Done(Value())
    {
      if key in cases {
        return cases[key] != Pending(prediction);
      }
      if fatal || BoundElsewhere(cases, key, prediction) { return true; }
      cases := cases[key := Pending(prediction)];
      raised := false;
    }

    /** Excludes a case and latches the generation when that leaves too few. */
    method Exclude(key: Key, prediction: Option<string>) returns (raised: bool)
      modifies this
      ensures if raised then RecordExcluded(old(Value()), key, prediction).Raised? && Value() == old(Value())
              else
                && RecordExcluded(old(Value()), key, prediction).Done?
                && Value() == (var l := RecordExcluded(old(Value()), key, prediction).ledger;
                               if l == old(Value()) then l else CheckCoverage(l, contract))
    {
      if key in cases && cases[key].Pending? {
        if prediction != Some(cases[key].prediction) { return true; }
      } else if key in cases && prediction.Some? {
        return true;
      }
      if key in cases && cases[key] == Excluded(prediction) { return false; }
      if key in cases && !cases[key].Pending? { return true; }
      if fatal || (prediction.Some? && BoundElsewhere(cases, key, prediction.value)) { return true; }
      cases := cases[key := Excluded(prediction)];
      if !Feasible(cases, contract) { Latch(); }
      raised := false;
    }

    method Certify(key: Key, prediction: string, outcome: Outcome) returns (raised: bool)
      modifies this`cases
      ensures if raised then RecordClean(old(Value()), key, prediction, outcome).Raised? && Value() == old(Value())
              else RecordClean(old(Value()), key, prediction, outcome) == Done(Value())
    {
      if key in cases && cases[key] == Clean(prediction, outcome) { return false; }
      if key !in cases || cases[key] != Pending(prediction) { return true; }
      if fatal || BoundElsewhere(cases, key, prediction) || OutcomeElsewhere(cases, key, outcome) { return true; }
      cases := cases[key := Clean(prediction, outcome)];
      raised := false;
    }
  }
}
