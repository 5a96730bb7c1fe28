/** backend/internal/db/circuitbreaker.go: the write-path circuit breaker, the history it
    summarises in four fields, and what callers that skip Record do to it. */
module CircuitBreaker {
  import opened Prelude

  datatype State = Closed | Open | HalfOpen

  datatype Event = AllowCall(now: int) | Success | Failure(now: int)

  type Trace = seq<Event>

  datatype Config = Config(threshold: int, cooldown: int)

  predicate ValidConfig(c: Config) { c.threshold >= 1 && c.cooldown > 0 }

  // ---------------------------------------------------------------- reading the history

  // Failures since the last success.
  function FailuresSince(t: Trace): nat {
    if t == [] then 0
    else match t[|t| - 1]
      case Success => 0
      case Failure(_) => FailuresSince(t[..|t| - 1]) + 1
      case AllowCall(_) => FailuresSince(t[..|t| - 1])
  }

  function LastFailure(t: Trace): Option<int> {
    if t == [] then None
    else match t[|t| - 1]
      case Failure(now) => Some(now)
      case _ => LastFailure(t[..|t| - 1])
  }

  // A call has come since the last Record, at least a cooldown after the last failure.
  function TrialTaken(c: Config, t: Trace): bool {
    if t == [] then false
    else match t[|t| - 1]
      case AllowCall(now) =>
        var p := t[..|t| - 1];
        TrialTaken(c, p) || (LastFailure(p).Some? && now - LastFailure(p).value >= c.cooldown)
      case _ => false
  }

  function StateOf(c: Config, t: Trace): State {
    if FailuresSince(t) < c.threshold then Closed
    else if TrialTaken(c, t) then HalfOpen
    else Open
  }

  // Whether a call at `now` is let through.
  function Admits(c: Config, t: Trace, now: int): bool {
    match StateOf(c, t)
    case Closed => true
    case Open => LastFailure(t).Some? && now - LastFailure(t).value >= c.cooldown
    case HalfOpen => false
  }

  // ---------------------------------------------------------------- the breaker

  class CircuitBreaker {
    const threshold: int
    const cooldown: int
    var state: State
    var failures: int
    var openedAt: int
    var halfOpenTrial: bool

    ghost var trace: Trace

    ghost function Settings(): Config { Config(threshold, cooldown) }

    // half_open means a trial is in flight; closed means `failures` counts the failures since
    // the last success, still under the threshold; otherwise openedAt is the last failure's time.
    ghost predicate Valid()
      reads this
    {
      && ValidConfig(Settings())
      && state == StateOf(Settings(), trace)
      && (halfOpenTrial <==> state == HalfOpen)
      && (state == Closed ==> failures == FailuresSince(trace))
      && (state != Closed ==> failures >= threshold && LastFailure(trace) == Some(openedAt))
    }

    constructor (threshold: int, cooldown: int)
      ensures Valid() && trace == [] && state == Closed
      ensures this.threshold == (if threshold < 1 then 5 else threshold)
      ensures this.cooldown == (if cooldown <= 0 then 30_000 else cooldown)
    {
      this.threshold := if threshold < 1 then 5 else threshold;
      this.cooldown := if cooldown <= 0 then 30_000 else cooldown;
      state, failures, openedAt, halfOpenTrial, trace := Closed, 0, 0, false, [];
    }

    method Allow(now: int) returns (admitted: bool)
      requires Valid()
      modifies this
      ensures Valid() && trace == old(trace) + [AllowCall(now)]
      ensures admitted == Admits(Settings(), old(trace), now)
    {
      trace := trace + [AllowCall(now)];
      assert trace[..|trace| - 1] == old(trace);
      match state {
        case Open =>
          if now - openedAt >= cooldown {
            state, halfOpenTrial := HalfOpen, true;
            return true;
          }
          return false;
        case HalfOpen =>
          admitted := !halfOpenTrial;
          halfOpenTrial := true;
        case Closed =>
          return true;
      }
    }

    method RecordSuccess()
      requires Valid()
      modifies this
      ensures Valid() && trace == old(trace) + [Success]
    {
      failures, halfOpenTrial, state := 0, false, Closed;
      trace := trace + [Success];
    }

    method RecordFailure(now: int)
      requires Valid()
      modifies this
      ensures Valid() && trace == old(trace) + [Failure(now)]
    {
      trace := trace + [Failure(now)];
      assert trace[..|trace| - 1] == old(trace);
      halfOpenTrial := false;
      if state == HalfOpen {
        state, openedAt, failures := Open, now, threshold;
        return;
      }
      failures := failures + 1;
      if failures >= threshold {
        state, openedAt := Open, now;
      }
    }

    // What /v1/system/status shows: an open breaker whose cooldown is over reads as half_open,
    // and it is exactly the not-closed breaker that would admit, or is running, a trial.
    method ReadState(now: int) returns (s: State)
      requires Valid()
      ensures s == Closed <==> StateOf(Settings(), trace) == Closed
      ensures s == HalfOpen <==>
        StateOf(Settings(), trace) == HalfOpen
        || (StateOf(Settings(), trace) == Open && Admits(Settings(), trace, now))
    {
      if state == Open && now - openedAt >= cooldown { return HalfOpen; }
      return state;
    }
  }

  // ---------------------------------------------------------------- every history

  predicate IsRecord(e: Event) { !e.AllowCall? }

  function Records(t: Trace): Trace {
    if t == [] then []
    else
      var rest := Records(t[..|t| - 1]);
      if IsRecord(t[|t| - 1]) then rest + [t[|t| - 1]] else rest
  }

  // The count is the length of the unbroken run of failures that ends the record of outcomes.
  lemma {:induction false} FailuresAreConsecutive(t: Trace)
    ensures
      var r, n := Records(t), FailuresSince(t);
      && n <= |r|
      && (forall i :: |r| - n <= i < |r| ==> r[i].Failure?)
      && (n < |r| ==> r[|r| - n - 1] == Success)
    decreases |t|
  {
    if t != [] {
      FailuresAreConsecutive(t[..|t| - 1]);
    }
  }

  // The breaker is closed unless the last `threshold` outcomes were all failures.
  lemma ClosedUnlessThresholdInARow(c: Config, t: Trace)
    requires ValidConfig(c)
    ensures
      var r := Records(t);
      StateOf(c, t) != Closed <==>
        |r| >= c.threshold && forall i :: |r| - c.threshold <= i < |r| ==> r[i].Failure?
  {
    FailuresAreConsecutive(t);
    var r, n := Records(t), FailuresSince(t);
    if n < c.threshold && |r| >= c.threshold {
      assert !r[|r| - n - 1].Failure?;
    }
  }

  // A breaker that is open, with no trial taken, admits a call exactly when the cooldown has
  // passed since the last failure.
  lemma CooldownIff(c: Config, t: Trace, k: nat, now: int)
    requires k < |t| && t[k].Failure? && forall m :: k < m < |t| ==> !t[m].Failure?
    requires StateOf(c, t) == Open
    ensures Admits(c, t, now) <==> now >= t[k].now + c.cooldown
  {
    LastFailureIs(t, k);
  }

  lemma {:induction false} LastFailureIs(t: Trace, k: nat)
    requires k < |t| && t[k].Failure? && forall m :: k < m < |t| ==> !t[m].Failure?
    ensures LastFailure(t) == Some(t[k].now)
    decreases |t|
  {
    if k < |t| - 1 { LastFailureIs(t[..|t| - 1], k); }
  }

  // A breaker that is not closed is half open exactly when since the last outcome some call came
  // after the cooldown, which is the one that was let through.
  lemma {:induction false} HalfOpenIff(c: Config, t: Trace, k: nat)
    requires ValidConfig(c) && StateOf(c, t) != Closed
    requires k < |t| && t[k].Failure? && forall m :: k < m < |t| ==> t[m].AllowCall?
    ensures StateOf(c, t) == HalfOpen <==> exists m :: k < m < |t| && t[m].now >= t[k].now + c.cooldown
    decreases |t|
  {
    if k < |t| - 1 {
      var p := t[..|t| - 1];
      assert forall m :: 0 <= m < |p| ==> p[m] == t[m];
      HalfOpenIff(c, p, k);
      LastFailureIs(p, k);
    }
  }

  // Calls alone never move the failure count, and a trial once taken stays taken.
  lemma {:induction false} CallsKeepCount(c: Config, t: Trace, calls: Trace)
    requires forall i :: 0 <= i < |calls| ==> calls[i].AllowCall?
    ensures FailuresSince(t + calls) == FailuresSince(t)
    ensures TrialTaken(c, t) ==> TrialTaken(c, t + calls)
    decreases |calls|
  {
    if calls == [] {
      assert t + calls == t;
    } else {
      var p := calls[..|calls| - 1];
      CallsKeepCount(c, t, p);
      assert (t + calls)[..|t + calls| - 1] == t + p;
    }
  }

  // Between two Records at most one call gets through a breaker that is not closed.
  lemma OneTrialBetweenRecords(c: Config, t: Trace, i: nat, j: nat)
    requires ValidConfig(c) && i < j < |t|
    requires t[i].AllowCall? && StateOf(c, t[..i]) != Closed && Admits(c, t[..i], t[i].now)
    requires t[j].AllowCall? && forall k :: i < k < j ==> !IsRecord(t[k])
    ensures StateOf(c, t[..j]) == HalfOpen && !Admits(c, t[..j], t[j].now)
  {
    var trial := t[..i + 1];
    assert trial[..i] == t[..i];
    assert TrialTaken(c, trial) && FailuresSince(trial) == FailuresSince(t[..i]);
    CallsKeepCount(c, trial, t[i + 1..j]);
    assert trial + t[i + 1..j] == t[..j];
  }

  // ---------------------------------------------------------------- callers, one after another

  // How a guarded write ended. Business errors return without a Record.
  datatype Outcome = Done | BusinessError | StorageError

  // One guarded call: it asks at `now`, and if admitted ends at `end` with `outcome`.
  datatype Call = Call(now: int, end: int, outcome: Outcome)

  function AfterCall(c: Config, t: Trace, call: Call): Trace {
    var asked := t + [AllowCall(call.now)];
    if !Admits(c, t, call.now) then asked
    else match call.outcome
      case Done => asked + [Success]
      case StorageError => asked + [Failure(call.end)]
      case BusinessError => asked
  }

  function AfterCalls(c: Config, t: Trace, calls: seq<Call>): Trace
    decreases |calls|
  {
    if calls == [] then t else AfterCalls(c, AfterCall(c, t, calls[0]), calls[1..])
  }

  // With no call in flight, a half-open breaker lets nothing through ever again.
  lemma {:induction false} HalfOpenWedges(c: Config, t: Trace, calls: seq<Call>)
    requires ValidConfig(c) && StateOf(c, t) == HalfOpen
    ensures StateOf(c, AfterCalls(c, t, calls)) == HalfOpen
    decreases |calls|
  {
    if calls != [] {
      var asked := t + [AllowCall(calls[0].now)];
      CallsKeepCount(c, t, [AllowCall(calls[0].now)]);
      HalfOpenWedges(c, asked, calls[1..]);
    }
  }

  // What the trial call decides. The write path can admit some later call if and only if the
  // trial did not end in a business error: a success closes the breaker, a storage error opens
  // it for another cooldown, and a business error shuts it for good.
  lemma TrialMustBeRecorded(c: Config, t: Trace, trial: Call)
    requires ValidConfig(c) && StateOf(c, t) == Open && Admits(c, t, trial.now)
    ensures (exists calls, now :: Admits(c, AfterCalls(c, AfterCall(c, t, trial), calls), now))
            <==> trial.outcome != BusinessError
  {
    var asked := t + [AllowCall(trial.now)];
    var t' := AfterCall(c, t, trial);
    assert asked[..|t|] == t;
    assert AfterCalls(c, t', []) == t';
    match trial.outcome
    case Done =>
      assert Admits(c, AfterCalls(c, t', []), trial.now);
    case StorageError =>
      assert t'[..|asked|] == asked;
      assert LastFailure(t') == Some(trial.end);
      assert Admits(c, AfterCalls(c, t', []), trial.end + c.cooldown);
    case BusinessError =>
      forall calls, now ensures !Admits(c, AfterCalls(c, t', calls), now) {
        HalfOpenWedges(c, t', calls);
      }
  }

  // A run that ends so: one storage error opens a breaker with threshold 1, and the trial after
  // the cooldown ends in a business error.
  lemma BusinessTrialWedges(calls: seq<Call>, now: int)
    ensures
      var c := Config(1, 30_000);
      var run := [Call(0, 0, StorageError), Call(30_000, 30_001, BusinessError)];
      && StateOf(c, AfterCalls(c, [], run)) == HalfOpen
      && !Admits(c, AfterCalls(c, AfterCalls(c, [], run), calls), now)
  {
    var c := Config(1, 30_000);
    var run := [Call(0, 0, StorageError), Call(30_000, 30_001, BusinessError)];
    var broken := [AllowCall(0), Failure(0)];
    var wedged := broken + [AllowCall(30_000)];
    assert AfterCall(c, [], run[0]) == broken;
    assert broken[..1] == [AllowCall(0)] && broken[..1][..0] == [] && wedged[..2] == broken;
    assert AfterCall(c, broken, run[1]) == wedged;
    assert run[1..][1..] == [] && run[1..][0] == run[1];
    assert AfterCalls(c, [], run) == AfterCalls(c, broken, run[1..]) == AfterCalls(c, wedged, []) == wedged;
    HalfOpenWedges(c, wedged, calls);
  }

  // While calls end in Done or a storage error, no call is ever in flight between them and the
  // breaker is never found half open.
  lemma {:induction false} RecordedCallsNeverWedge(c: Config, t: Trace, calls: seq<Call>)
    requires ValidConfig(c) && StateOf(c, t) != HalfOpen
    requires forall i :: 0 <= i < |calls| ==> calls[i].outcome != BusinessError
    ensures StateOf(c, AfterCalls(c, t, calls)) != HalfOpen
    decreases |calls|
  {
    if calls != [] {
      var call := calls[0];
      var asked := t + [AllowCall(call.now)];
      assert asked[..|t|] == t;
      var t' := AfterCall(c, t, call);
      if Admits(c, t, call.now) {
        assert t'[..|asked|] == asked;
        assert !TrialTaken(c, t');
      } else {
        NotAdmittedTakesNoTrial(c, t, call.now);
      }
      RecordedCallsNeverWedge(c, t', calls[1..]);
    }
  }

  lemma {:induction false} OpenHasFailure(t: Trace)
    requires FailuresSince(t) > 0
    ensures LastFailure(t).Some?
    decreases |t|
  {
    if t[|t| - 1].AllowCall? { OpenHasFailure(t[..|t| - 1]); }
  }

  lemma NotAdmittedTakesNoTrial(c: Config, t: Trace, now: int)
    requires ValidConfig(c) && StateOf(c, t) == Open && !Admits(c, t, now)
    ensures StateOf(c, t + [AllowCall(now)]) == Open
  {
    assert (t + [AllowCall(now)])[..|t|] == t;
    OpenHasFailure(t);
  }
}
