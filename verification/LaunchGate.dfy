/** The launch gate of the long run: a wait against the wall clock, and the events and
    status it publishes around one launch. */
module LaunchGate {

  import opened Options

  datatype State = Missed | Prestart | FinalAttestation | PreflightFailed | Launched

  datatype Event = Event(state: State, at: real)

  /** The preregistered times; the window bounds may be absent. */
  datatype Preregistration = Preregistration(start: real, notBefore: Option<real>, notAfter: Option<real>)

  datatype Window = Window(before: real, after: real)

  /** What running the launcher leads to: it cannot be started or its logs already exist,
      or it exits, with `running` when its output reports a running launch. */
  datatype Outcome = NotStarted | LogsRefused | Exited(code: int, running: bool)

  datatype Armed = Refused | Cut | Finished(last: Event)

  datatype Trace = Trace(events: seq<Event>, launches: seq<real>, finished: bool)

  function LaunchWindow(p: Preregistration): Option<Window> {
    if p.notBefore.None? || p.notAfter.None? then None
    else if p.notBefore.value != p.start || p.notAfter.value <= p.notBefore.value then None
    else Some(Window(p.notBefore.value, p.notAfter.value))
  }

  function Requested(target: real, observed: real): real {
    if target - observed < 60.0 then target - observed else 60.0
  }

  /** A sleep is a minute, or as much as is left when that is less. */
  lemma RequestedIs(target: real, observed: real)
    ensures var asked := Requested(target, observed);
            asked <= 60.0 && observed + asked <= target && (asked == 60.0 || observed + asked == target)
  {
  }

  /** The first reading from `from` on that has reached the target. */
  function FirstReached(readings: seq<real>, from: nat, target: real): Option<nat>
    decreases |readings| - from
  {
    if from >= |readings| then None
    else if readings[from] >= target then Some(from)
    else FirstReached(readings, from + 1, target)
  }

  /** The clock of one run: the readings it will give, those given so far, and the sleeps
      asked of it. A run that would need a reading beyond them is cut there. */
  class Clock {
    const readings: seq<real>
    var next: nat
    var slept: seq<real>

    constructor (readings: seq<real>)
      ensures this.readings == readings && next == 0 && slept == []
    {
      this.readings := readings;
      next, slept := 0, [];
    }

    method Now() returns (observed: Option<real>)
      modifies this
      ensures slept == old(slept)
      ensures if old(next) < |readings| then observed == Some(readings[old(next)]) && next == old(next) + 1
              else observed == None && next == old(next)
    {
      if next >= |readings| { return None; }
      observed := Some(readings[next]);
      next := next + 1;
    }

    method Sleep(seconds: real)
      modifies this
      ensures next == old(next) && slept == old(slept) + [seconds]
    {
      slept := slept + [seconds];
    }

    /** Sleeps once for every reading short of the target, for what `Requested` says. */
    method WaitUntil(target: real) returns (observed: Option<real>)
      requires next <= |readings|
      modifies this
      ensures old(next) <= next <= |readings|
      ensures var k := FirstReached(readings, old(next), target);
              if k.Some? then k.value < |readings| && next == k.value + 1 && observed == Some(readings[k.value])
              else next == |readings| && observed == None
      ensures observed.Some? ==> observed.value >= target
      ensures |slept| - |old(slept)| == next - old(next) - (if observed.Some? then 1 else 0)
      ensures forall i :: |old(slept)| <= i < |slept| ==>
                var reading := readings[old(next) + i - |old(slept)|];
                slept[i] == Requested(target, reading) && slept[i] > 0.0
    {
      while true
        invariant old(next) <= next <= |readings|
        invariant FirstReached(readings, next, target) == FirstReached(readings, old(next), target)
        invariant |slept| - |old(slept)| == next - old(next)
        invariant forall i :: |old(slept)| <= i < |slept| ==>
                    var reading := readings[old(next) + i - |old(slept)|];
                    slept[i] == Requested(target, reading) && slept[i] > 0.0
        decreases |readings| - next
      {
        observed := Now();
        if observed.None? { return; }
        var remaining := target - observed.value;
        if remaining <= 0.0 { return; }
        Sleep(if remaining < 60.0 then remaining else 60.0);
      }
    }
  }

  /** From the reading that ended the wait on, with what was published before it. */
  function AfterWait(w: Window, opening: seq<Event>, readings: seq<real>, k: nat, outcome: Outcome): Trace
    requires k < |readings|
  {
    var at := readings[k];
    if at > w.after then Trace(opening + [Event(Missed, at)], [], true)
    else
      var attested := opening + [Event(FinalAttestation, at)];
      if !outcome.Exited? then Trace(attested + [Event(PreflightFailed, at)], [at], true)
      else if k + 1 == |readings| then Trace(attested, [at], false)
      else
        var state := if outcome.code == 0 && outcome.running then Launched else PreflightFailed;
        Trace(attested + [Event(state, readings[k + 1])], [at], true)
  }

  /** The events and launches of a run, and whether it ran to its end. */
  function Run(w: Window, readings: seq<real>, outcome: Outcome): Trace {
    if readings == [] then Trace([], [], false)
    else if readings[0] > w.after then Trace([Event(Missed, readings[0])], [], true)
    else
      var opening := if readings[0] < w.before then [Event(Prestart, readings[0])] else [];
      var k := FirstReached(readings, 1, w.before);
      if k.None? || k.value >= |readings| then Trace(opening, [], false)
      else AfterWait(w, opening, readings, k.value, outcome)
  }

  class Gate {
    var events: seq<Event>
    var status: Option<Event>
    var launches: seq<real>

    constructor ()
      ensures events == [] && status == None && launches == []
    {
      events, status, launches := [], None, [];
    }

    method Publish(state: State, at: real) returns (event: Event)
      modifies this
      ensures event == Event(state, at) && events == old(events) + [event] && status == Some(event)
      ensures launches == old(launches)
    {
      event := Event(state, at);
      events := events + [event];
      status := Some(event);
    }

    /** From the reading that ended the wait to the end of the run. */
    method Launch(window: Window, at: real, clock: Clock, outcome: Outcome) returns (armed: Armed)
      requires 0 < clock.next <= |clock.readings| && at == clock.readings[clock.next - 1]
      requires events == [] || status == Some(events[|events| - 1])
      modifies this, clock
      ensures var trace := AfterWait(window, old(events), clock.readings, old(clock.next) - 1, outcome);
              && events == trace.events && events != [] && launches == old(launches) + trace.launches
              && status == Some(events[|events| - 1]) && (armed.Finished? <==> trace.finished)
              && !armed.Refused? && (armed.Finished? ==> status == Some(armed.last))
    {
      if at > window.after {
        var missed := Publish(Missed, at);
        return Finished(missed);
      }
      var _ := Publish(FinalAttestation, at);
      launches := launches + [at];
      if !outcome.Exited? {
        var failed := Publish(PreflightFailed, at);
        return Finished(failed);
      }
      var terminal := clock.Now();
      if terminal.None? { return Cut; }
      var last: Event;
      if outcome.code != 0 || !outcome.running {
        last := Publish(PreflightFailed, terminal.value);
      } else {
        last := Publish(Launched, terminal.value);
      }
      return Finished(last);
    }

    /** Refused before anything is published when the window is inconsistent or the gate was
        used before; otherwise the run the readings and the launcher determine. */
    method Arm(p: Preregistration, clock: Clock, outcome: Outcome) returns (armed: Armed)
      requires clock.next == 0
      modifies this, clock
      ensures armed.Refused? <==> LaunchWindow(p).None? || old(events) != [] || old(status) != None
      ensures armed.Refused? ==> unchanged(this)
      ensures !armed.Refused? ==>
                var trace := Run(LaunchWindow(p).value, clock.readings, outcome);
                && events == trace.events && launches == old(launches) + trace.launches
                && (armed.Finished? <==> trace.finished)
                && (events == [] ==> status == None) && (events != [] ==> status == Some(events[|events| - 1]))
                && (armed.Finished? ==> status == Some(armed.last))
    {
      hide FirstReached, AfterWait;
      var window := LaunchWindow(p);
      if window.None? || events != [] || status != None { return Refused; }
      var Window(before, after) := window.value;
      var observed := clock.Now();
      if observed.None? { return Cut; }
      if observed.value > after {
        var missed := Publish(Missed, observed.value);
        return Finished(missed);
      }
      if observed.value < before { var _ := Publish(Prestart, observed.value); }
      var reached := clock.WaitUntil(before);
      if reached.None? { return Cut; }
      assert events == if observed.value < before then [Event(Prestart, observed.value)] else [];
      armed := Launch(window.value, reached.value, clock, outcome);
    }
  }

  // ---- properties of every run ----

  lemma {:induction false} FirstReachedIsFirst(readings: seq<real>, from: nat, target: real)
    ensures var k := FirstReached(readings, from, target);
            if k.Some? then
              from <= k.value < |readings| && readings[k.value] >= target
              && forall i :: from <= i < k.value ==> readings[i] < target
            else forall i :: from <= i < |readings| ==> readings[i] < target
    decreases |readings| - from
  {
    if from < |readings| && readings[from] < target {
      FirstReachedIsFirst(readings, from + 1, target);
    }
  }

  /** PRESTART? (MISSED | FINAL (FAILED | LAUNCHED)). */
  predicate CompleteTrace(events: seq<Event>) {
    var rest := if events != [] && events[0].state.Prestart? then events[1..] else events;
    || (|rest| == 1 && rest[0].state.Missed?)
    || (|rest| == 2 && rest[0].state.FinalAttestation? && (rest[1].state.PreflightFailed? || rest[1].state.Launched?))
  }

  predicate Attested(events: seq<Event>) {
    exists i :: 0 <= i < |events| && events[i].state.FinalAttestation?
  }

  /** Every completed run publishes one trace of the grammar; the launcher is run at most
      once, exactly when the final attestation is published, at a reading of the clock
      inside the window that the run waited for. */
  lemma TraceShape(w: Window, readings: seq<real>, outcome: Outcome)
    ensures var t := Run(w, readings, outcome);
            && (t.finished ==> CompleteTrace(t.events))
            && |t.launches| <= 1 && (t.launches != [] <==> Attested(t.events))
            && ((t.events != [] && t.events[0].state.Prestart?) <==>
                 (readings != [] && readings[0] < w.before && readings[0] <= w.after))
            && forall at :: at in t.launches ==> at in readings[1..] && w.before <= at <= w.after
  {
    FirstReachedIsFirst(readings, 1, w.before);
    var t := Run(w, readings, outcome);
    var k := FirstReached(readings, 1, w.before);
    if t.launches != [] {
      assert readings[1..][k.value - 1] == readings[k.value];
      assert t.events[if readings[0] < w.before then 1 else 0].state.FinalAttestation?;
    }
  }

  /** The launcher runs exactly when the first reading is not past the window and the first
      later reading to have reached it is not past it either. */
  lemma LaunchesExactly(w: Window, readings: seq<real>, outcome: Outcome)
    ensures Run(w, readings, outcome).launches != [] <==>
            readings != [] && readings[0] <= w.after
            && exists k :: 1 <= k < |readings| && w.before <= readings[k] <= w.after
                 && forall i :: 1 <= i < k ==> readings[i] < w.before
  {
    FirstReachedIsFirst(readings, 1, w.before);
  }

  lemma WindowExactly(p: Preregistration, before: real, after: real)
    ensures LaunchWindow(p) == Some(Window(before, after)) <==>
            p.notBefore == Some(before) && p.notAfter == Some(after) && before == p.start && before < after
  {
  }

  /** The first reading is not past the window, and `k` is the first later one to reach it. */
  predicate WaitsUntil(w: Window, readings: seq<real>, k: nat) {
    && 1 <= k < |readings| && readings[0] <= w.after && w.before <= readings[k]
    && forall i :: 1 <= i < k ==> readings[i] < w.before
  }

  predicate OpenedAt(w: Window, readings: seq<real>, at: real) {
    readings != [] && readings[0] < w.before && readings[0] <= w.after && at == readings[0]
  }

  predicate MissedAt(w: Window, readings: seq<real>, at: real) {
    || (readings != [] && readings[0] > w.after && at == readings[0])
    || exists k :: 0 <= k < |readings| && WaitsUntil(w, readings, k) && readings[k] > w.after && at == readings[k]
  }

  predicate LaunchedFrom(w: Window, readings: seq<real>, at: real) {
    exists k :: 0 <= k < |readings| && WaitsUntil(w, readings, k) && readings[k] <= w.after && at == readings[k]
  }

  /** The launcher has exited, and `at` is the reading taken next. */
  predicate ExitedAt(w: Window, readings: seq<real>, outcome: Outcome, at: real) {
    outcome.Exited? && exists k :: 0 <= k < |readings| - 1 && WaitsUntil(w, readings, k) && readings[k] <= w.after
                                   && at == readings[k + 1]
  }

  predicate Succeeds(outcome: Outcome) { outcome.Exited? && outcome.code == 0 && outcome.running }

  function Stage(state: State): nat {
    match state
    case Prestart => 0
    case FinalAttestation => 1
    case _ => 2
  }

  /** What is published, and when: the start of the wait; a missed window; the attestation,
      exactly when the launcher is run; LAUNCHED, exactly when the launcher exits with 0 and
      reports a running launch; and PREFLIGHT_FAILED, exactly when it is run and does not.
      A run is finished when MISSED, LAUNCHED or PREFLIGHT_FAILED is published. */
  lemma PublishedExactly(w: Window, readings: seq<real>, outcome: Outcome, at: real)
    ensures var t := Run(w, readings, outcome);
            && (Event(Prestart, at) in t.events <==> OpenedAt(w, readings, at))
            && (Event(Missed, at) in t.events <==> MissedAt(w, readings, at))
            && (Event(FinalAttestation, at) in t.events <==> LaunchedFrom(w, readings, at))
            && (at in t.launches <==> LaunchedFrom(w, readings, at))
            && (Event(Launched, at) in t.events <==> Succeeds(outcome) && ExitedAt(w, readings, outcome, at))
            && (Event(PreflightFailed, at) in t.events <==>
                  if outcome.Exited? then !Succeeds(outcome) && ExitedAt(w, readings, outcome, at)
                  else LaunchedFrom(w, readings, at))
            && (t.finished <==> exists i :: 0 <= i < |t.events| && Stage(t.events[i].state) == 2)
            && forall i, j :: 0 <= i < j < |t.events| ==> Stage(t.events[i].state) < Stage(t.events[j].state)
  {
    FirstReachedIsFirst(readings, 1, w.before);
    var k := FirstReached(readings, 1, w.before);
    hide FirstReached, AfterWait, Run, MissedAt, LaunchedFrom, ExitedAt, Stage, Succeeds;
    if readings != [] && readings[0] <= w.after && k.Some? {
      OneWait(w, readings, k.value, outcome, at);
      EndingOf(w, OpeningOf(w, readings), readings, k.value, outcome, at);
    } else {
      NoWait(w, readings, outcome, at);
      NoEnding(w, readings, Run(w, readings, outcome));
    }
  }

  lemma NoEnding(w: Window, readings: seq<real>, t: Trace)
    requires readings != [] && readings[0] > w.after ==> t == Trace([Event(Missed, readings[0])], [], true)
    requires readings != [] && readings[0] <= w.after ==> t == Trace(OpeningOf(w, readings), [], false)
    requires readings == [] ==> t == Trace([], [], false)
    ensures t.finished <==> exists i :: 0 <= i < |t.events| && Stage(t.events[i].state) == 2
    ensures |t.events| <= 1
  {
    assert t.finished ==> Stage(t.events[0].state) == 2;
  }

  function OpeningOf(w: Window, readings: seq<real>): seq<Event>
    requires readings != []
  {
    if readings[0] < w.before then [Event(Prestart, readings[0])] else []
  }

  lemma OneWait(w: Window, readings: seq<real>, k: nat, outcome: Outcome, at: real)
    requires WaitsUntil(w, readings, k)
    ensures MissedAt(w, readings, at) <==> readings[k] > w.after && at == readings[k]
    ensures LaunchedFrom(w, readings, at) <==> readings[k] <= w.after && at == readings[k]
    ensures ExitedAt(w, readings, outcome, at) <==>
            outcome.Exited? && readings[k] <= w.after && k + 1 < |readings| && at == readings[k + 1]
    ensures Run(w, readings, outcome) == AfterWait(w, OpeningOf(w, readings), readings, k, outcome)
  {
    FirstReachedIsFirst(readings, 1, w.before);
    forall i | 0 <= i < |readings| && WaitsUntil(w, readings, i) ensures i == k {
      assert !(i < k) && !(k < i);
    }
  }

  lemma NoWait(w: Window, readings: seq<real>, outcome: Outcome, at: real)
    requires readings == [] || readings[0] > w.after || forall k :: 1 <= k < |readings| ==> readings[k] < w.before
    ensures MissedAt(w, readings, at) <==> readings != [] && readings[0] > w.after && at == readings[0]
    ensures !LaunchedFrom(w, readings, at) && !ExitedAt(w, readings, outcome, at)
    ensures var t := Run(w, readings, outcome);
            if readings == [] then t == Trace([], [], false)
            else if readings[0] > w.after then t == Trace([Event(Missed, readings[0])], [], true)
            else t == Trace(OpeningOf(w, readings), [], false)
  {
    FirstReachedIsFirst(readings, 1, w.before);
  }

  lemma EndingOf(w: Window, opening: seq<Event>, readings: seq<real>, k: nat, outcome: Outcome, at: real)
    requires k < |readings| && |opening| <= 1 && forall e :: e in opening ==> e.state.Prestart?
    ensures var t, reached, late := AfterWait(w, opening, readings, k, outcome), readings[k], readings[k] > w.after;
            && (Event(Prestart, at) in t.events <==> Event(Prestart, at) in opening)
            && (Event(Missed, at) in t.events <==> late && at == reached)
            && (Event(FinalAttestation, at) in t.events <==> !late && at == reached)
            && (at in t.launches <==> !late && at == reached)
            && (Event(Launched, at) in t.events <==>
                  !late && Succeeds(outcome) && k + 1 < |readings| && at == readings[k + 1])
            && (Event(PreflightFailed, at) in t.events <==>
                  && !late && !Succeeds(outcome)
                  && if outcome.Exited? then k + 1 < |readings| && at == readings[k + 1] else at == reached)
            && (t.finished <==> exists i :: 0 <= i < |t.events| && Stage(t.events[i].state) == 2)
            && forall i, j :: 0 <= i < j < |t.events| ==> Stage(t.events[i].state) < Stage(t.events[j].state)
  {
    var t := AfterWait(w, opening, readings, k, outcome);
    assert t.finished ==> Stage(t.events[|t.events| - 1].state) == 2;
  }

  predicate ClockKeepsOrder(readings: seq<real>) {
    forall i, j :: 0 <= i < j < |readings| ==> readings[i] <= readings[j]
  }

  /** With a clock that does not go back, neither do the published times. */
  lemma EventsInOrder(w: Window, readings: seq<real>, outcome: Outcome)
    requires ClockKeepsOrder(readings)
    ensures var events := Run(w, readings, outcome).events;
            forall i, j :: 0 <= i < j < |events| ==> events[i].at <= events[j].at
  {
    FirstReachedIsFirst(readings, 1, w.before);
  }

  /** Every sleep short of the target moves the clock by at least the time asked for. */
  predicate Advances(readings: seq<real>, target: real) {
    forall k :: 0 <= k < |readings| - 1 && readings[k] < target ==>
      readings[k + 1] >= readings[k] + Requested(target, readings[k])
  }

  lemma {:induction false} MinutesPass(readings: seq<real>, target: real, k: nat)
    requires Advances(readings, target) && k < |readings| && forall i :: 0 <= i <= k ==> readings[i] < target
    ensures readings[k] >= readings[0] + 60.0 * k as real
  {
    if k > 0 {
      MinutesPass(readings, target, k - 1);
    }
  }

  /** On such a clock the wait ends: one reading per minute that remains, and one more,
      suffice. */
  lemma WaitEnds(readings: seq<real>, target: real)
    requires readings != [] && Advances(readings, target)
    requires 60.0 * (|readings| - 1) as real >= target - readings[0]
    ensures FirstReached(readings, 0, target).Some?
  {
    FirstReachedIsFirst(readings, 0, target);
    if FirstReached(readings, 0, target).None? {
      MinutesPass(readings, target, |readings| - 1);
    }
  }

  /** No sleep moves the clock by more than the time asked for and `late`. */
  predicate LateByAtMost(readings: seq<real>, target: real, late: real) {
    forall k :: 0 <= k < |readings| - 1 && readings[k] < target ==>
      readings[k + 1] <= readings[k] + Requested(target, readings[k]) + late
  }

  /** The wait overshoots its target by no more than the last sleep does. */
  lemma WaitIsPrompt(readings: seq<real>, target: real, late: real)
    requires readings != [] && readings[0] < target && LateByAtMost(readings, target, late)
    ensures var k := FirstReached(readings, 0, target);
            k.Some? ==> k.value < |readings| && target <= readings[k.value] <= target + late
  {
    FirstReachedIsFirst(readings, 0, target);
    var k := FirstReached(readings, 0, target);
    if k.Some? { assert readings[k.value - 1] < target; }
  }

  /** A gate armed early enough does not miss its window: on a clock whose sleeps are honest
      and never late by more than the window is long, it launches. */
  lemma HonestClockLaunches(w: Window, readings: seq<real>, outcome: Outcome)
    requires |readings| >= 2 && readings[0] <= w.after && readings[1] < w.before
    requires Advances(readings[1..], w.before) && LateByAtMost(readings[1..], w.before, w.after - w.before)
    requires 60.0 * (|readings| - 2) as real >= w.before - readings[1]
    ensures Run(w, readings, outcome).launches != []
  {
    var waiting := readings[1..];
    WaitEnds(waiting, w.before);
    WaitIsPrompt(waiting, w.before, w.after - w.before);
    FirstReachedIsFirst(waiting, 0, w.before);
    FirstReachedIsFirst(readings, 1, w.before);
    var k := FirstReached(waiting, 0, w.before).value;
    assert readings[k + 1] == waiting[k];
    forall i | 1 <= i < k + 1 ensures readings[i] < w.before { assert readings[i] == waiting[i - 1]; }
  }
}
