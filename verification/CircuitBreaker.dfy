/** The per-provider circuit breaker (ai_guard.py), and what holds over whole traces of its use. */
module CircuitBreaker {
  import opened Prelude

  type Time = int

  /** What callers see happen: an admission decision, or a recorded outcome, each at a clock reading. */
  datatype Event = Asked(now: Time, admitted: bool) | Success | Failure(now: Time)

  class Breaker {
    const threshold: int
    const cooldown: Time
    var failures: nat
    var openedAt: Option<Time>
    var probeInFlight: bool
    ghost var trace: seq<Event>

    constructor (threshold: int, cooldown: Time)
      ensures this.threshold == threshold && this.cooldown == cooldown && trace == []
      ensures threshold >= 1 ==> Valid()
    {
      this.threshold, this.cooldown := threshold, cooldown;
      failures, openedAt, probeInFlight, trace := 0, None, false, [];
    }

    /** The state is the one the trace leads to. */
    ghost predicate Valid()
      reads this
    {
      && threshold >= 1
      && openedAt == (if FailuresSinceSuccess(trace) < threshold then None else LastFailure(trace))
      && (openedAt.None? ==> failures == FailuresSinceSuccess(trace))
      && (openedAt.Some? ==> failures >= threshold)
      && (probeInFlight <==> openedAt.Some? && ProbeOut(trace, threshold))
    }

    method Allow(now: Time) returns (ok: bool)
      requires Valid()
      modifies this
      ensures Valid() && trace == old(trace) + [Asked(now, ok)]
      ensures ok <==> Admits(old(trace), threshold, cooldown, now)
      ensures ok <==> openedAt.None? || (!old(probeInFlight) && now - openedAt.value >= cooldown)
      ensures failures == old(failures) && openedAt == old(openedAt)
      ensures probeInFlight <==> old(probeInFlight) || (openedAt.Some? && ok)
    {
      LastFailureExists(trace);
      if openedAt.None? {
        ok := true;
      } else if probeInFlight {
        ok := false;
      } else if now - openedAt.value >= cooldown {
        probeInFlight := true;
        ok := true;
      } else {
        ok := false;
      }
      trace := trace + [Asked(now, ok)];
      assert trace[..|trace| - 1] == old(trace);
    }

    method RecordSuccess()
      requires Valid()
      modifies this
      ensures Valid() && trace == old(trace) + [Success]
      ensures failures == 0 && openedAt.None? && !probeInFlight
    {
      failures, openedAt, probeInFlight := 0, None, false;
      trace := trace + [Success];
    }

    method RecordFailure(now: Time)
      requires Valid()
      modifies this
      ensures Valid() && trace == old(trace) + [Failure(now)] && !probeInFlight
      ensures failures == old(failures) + (if old(probeInFlight) then 0 else 1)
      ensures openedAt == if old(probeInFlight) || failures >= threshold then Some(now) else old(openedAt)
    {
      ghost var before := trace;
      trace := trace + [Failure(now)];
      assert trace[..|trace| - 1] == before;
      if probeInFlight {
        probeInFlight := false;
        openedAt := Some(now);
        return;
      }
      failures := failures + 1;
      if failures >= threshold {
        openedAt := Some(now);
      }
    }
  }

  // ---------------------------------------------------------------- the trace alone

  function FailuresSinceSuccess(trace: seq<Event>): nat {
    if trace == [] then 0
    else match trace[|trace| - 1]
      case Success => 0
      case Failure(_) => FailuresSinceSuccess(trace[..|trace| - 1]) + 1
      case Asked(_, _) => FailuresSinceSuccess(trace[..|trace| - 1])
  }

  function LastFailure(trace: seq<Event>): Option<Time> {
    if trace == [] then None
    else if trace[|trace| - 1].Failure? then Some(trace[|trace| - 1].now)
    else LastFailure(trace[..|trace| - 1])
  }

  predicate IsOpen(trace: seq<Event>, threshold: int) {
    FailuresSinceSuccess(trace) >= threshold
  }

  /** A call was admitted while open, and no outcome has been recorded since. */
  predicate ProbeOut(trace: seq<Event>, threshold: int) {
    if trace == [] then false
    else
      var (init, e) := (trace[..|trace| - 1], trace[|trace| - 1]);
      e.Asked? && (ProbeOut(init, threshold) || (e.admitted && IsOpen(init, threshold)))
  }

  /** The admission rule, in terms of what was recorded before. */
  predicate Admits(trace: seq<Event>, threshold: int, cooldown: Time, now: Time) {
    || !IsOpen(trace, threshold)
    || (!ProbeOut(trace, threshold) && LastFailure(trace).Some? && now - LastFailure(trace).value >= cooldown)
  }

  /** A trace a breaker may produce: every admission decision follows the rule. */
  predicate Produced(trace: seq<Event>, threshold: int, cooldown: Time) {
    forall k :: 0 <= k < |trace| && trace[k].Asked? ==>
      (trace[k].admitted <==> Admits(trace[..k], threshold, cooldown, trace[k].now))
  }

  predicate Outcome(e: Event) {
    !e.Asked?
  }

  lemma {:induction false} LatestFailure(trace: seq<Event>, k: nat)
    requires k < |trace| && trace[k].Failure?
    requires forall i, j :: 0 <= i < j < |trace| && trace[i].Failure? && trace[j].Failure? ==>
              trace[i].now <= trace[j].now
    ensures LastFailure(trace).Some? && LastFailure(trace).value >= trace[k].now
  {
    if k < |trace| - 1 && !trace[|trace| - 1].Failure? {
      LatestFailure(trace[..|trace| - 1], k);
    }
  }

  /** While open, a call is admitted only when a full cooldown has passed since every failure recorded so far. */
  lemma AdmissionAfterCooldown(trace: seq<Event>, threshold: int, cooldown: Time, k: nat, f: nat)
    requires Produced(trace, threshold, cooldown) && f < k < |trace|
    requires forall i, j :: 0 <= i < j < |trace| && trace[i].Failure? && trace[j].Failure? ==>
              trace[i].now <= trace[j].now
    requires trace[k].Asked? && trace[k].admitted && IsOpen(trace[..k], threshold) && trace[f].Failure?
    ensures trace[k].now - trace[f].now >= cooldown
  {
    LatestFailure(trace[..k], f);
  }

  /** While no outcome is recorded, an open breaker stays open and its probe stays out. */
  lemma {:induction false} QuietKeepsProbe(trace: seq<Event>, threshold: int, i: nat, k: nat)
    requires i < k <= |trace| && trace[i].Asked? && trace[i].admitted && IsOpen(trace[..i], threshold)
    requires forall m :: i < m < k ==> trace[m].Asked?
    ensures IsOpen(trace[..k], threshold) && ProbeOut(trace[..k], threshold)
  {
    assert trace[..k][..k - 1] == trace[..k - 1];
    if k > i + 1 {
      QuietKeepsProbe(trace, threshold, i, k - 1);
    }
  }

  /** Two calls admitted while open always have a recorded outcome between them. */
  lemma OneProbeAtATime(trace: seq<Event>, threshold: int, cooldown: Time, i: nat, k: nat)
    requires Produced(trace, threshold, cooldown) && i < k < |trace|
    requires trace[i].Asked? && trace[i].admitted && IsOpen(trace[..i], threshold)
    requires trace[k].Asked? && trace[k].admitted && IsOpen(trace[..k], threshold)
    ensures exists m :: i < m < k && Outcome(trace[m])
  {
    if forall m :: i < m < k ==> trace[m].Asked? {
      QuietKeepsProbe(trace, threshold, i, k);
    }
  }

  /** The failures since the last success, counted. */
  lemma {:induction false} FailuresAreCounted(trace: seq<Event>, i: nat)
    requires i <= |trace| && (i == 0 || trace[i - 1].Success?)
    requires forall j :: i <= j < |trace| ==> !trace[j].Success?
    ensures FailuresSinceSuccess(trace) == |set j | i <= j < |trace| && trace[j].Failure?|
  {
    var failed := set j | i <= j < |trace| && trace[j].Failure?;
    if i == |trace| {
      assert failed == {};
    } else {
      var last := |trace| - 1;
      FailuresAreCounted(trace[..last], i);
      var before := set j | i <= j < last && trace[..last][j].Failure?;
      assert failed == if trace[last].Failure? then before + {last} else before;
    }
  }

  /** After an outcome that leaves the breaker open, a probe is out exactly when a call was admitted since. */
  lemma {:induction false} ProbeIsAdmitted(trace: seq<Event>, threshold: int, f: nat)
    requires f < |trace| && Outcome(trace[f]) && IsOpen(trace[..f + 1], threshold)
    requires forall m :: f < m < |trace| ==> trace[m].Asked?
    ensures IsOpen(trace, threshold)
    ensures ProbeOut(trace, threshold) <==> exists m :: f < m < |trace| && trace[m].admitted
    ensures trace[f].Failure? ==> LastFailure(trace) == Some(trace[f].now)
  {
    var init := trace[..|trace| - 1];
    if f == |trace| - 1 {
      assert trace[..f + 1] == trace;
    } else {
      assert init[..f + 1] == trace[..f + 1];
      ProbeIsAdmitted(init, threshold, f);
      assert forall m :: f < m < |init| ==> init[m] == trace[m];
    }
  }

  /** When a call is admitted, from the events alone: always while fewer than `threshold` failures came after the last
      success, and otherwise exactly when a cooldown has passed since the last failure and no call was admitted since
      it. */
  lemma AdmittedExactly(trace: seq<Event>, threshold: int, cooldown: Time, i: nat, k: nat)
    requires threshold >= 1 && Produced(trace, threshold, cooldown) && i <= k < |trace| && trace[k].Asked?
    requires (i == 0 || trace[i - 1].Success?) && forall j :: i <= j < k ==> !trace[j].Success?
    ensures var failed := set j | i <= j < k && trace[j].Failure?;
            && (|failed| < threshold ==> trace[k].admitted)
            && forall f :: f in failed && |failed| >= threshold && (forall j :: j in failed ==> j <= f) ==>
                 (trace[k].admitted <==>
                  && trace[k].now - trace[f].now >= cooldown
                  && forall m :: f < m < k && trace[m].Asked? ==> !trace[m].admitted)
  {
    var (past, failed) := (trace[..k], set j | i <= j < k && trace[j].Failure?);
    FailuresAreCounted(past, i);
    assert failed == set j | i <= j < |past| && past[j].Failure?;
    forall f | f in failed && |failed| >= threshold && forall j :: j in failed ==> j <= f
      ensures trace[k].admitted <==>
              && trace[k].now - trace[f].now >= cooldown
              && forall m :: f < m < k && trace[m].Asked? ==> !trace[m].admitted
    {
      forall m | f < m < k
        ensures trace[m].Asked?
      {
        assert m !in failed;
      }
      var upTo := past[..f + 1];
      FailuresAreCounted(upTo, i);
      assert failed == set j | i <= j < |upTo| && upTo[j].Failure?;
      ProbeIsAdmitted(past, threshold, f);
      assert forall m :: f < m < k ==> past[m] == trace[m];
    }
  }

  /** A breaker that is used: whatever its callers do, its trace is one the rule produces. */
  method Drive(threshold: int, cooldown: Time, script: seq<Event>) returns (closed: bool, ghost trace: seq<Event>)
    requires threshold >= 1
    ensures Produced(trace, threshold, cooldown) && |trace| == |script|
    ensures forall k :: 0 <= k < |script| ==>
              (script[k].Asked? <==> trace[k].Asked?) && (!script[k].Asked? ==> trace[k] == script[k])
    ensures closed <==> FailuresSinceSuccess(trace) < threshold
  {
    var b := new Breaker(threshold, cooldown);
    for k := 0 to |script|
      invariant b.Valid() && b.threshold == threshold && b.cooldown == cooldown
      invariant fresh(b) && |b.trace| == k && Produced(b.trace, threshold, cooldown)
      invariant forall i :: 0 <= i < k ==>
                  (script[i].Asked? <==> b.trace[i].Asked?) && (!script[i].Asked? ==> b.trace[i] == script[i])
    {
      ghost var before := b.trace;
      match script[k] {
        case Asked(now, _) => var _ := b.Allow(now);
        case Success => b.RecordSuccess();
        case Failure(now) => b.RecordFailure(now);
      }
      assert forall i :: 0 <= i <= k ==> b.trace[..i] == before[..i];
    }
    closed := b.openedAt.None?;
    trace := b.trace;
    LastFailureExists(trace);
  }

  lemma {:induction false} LastFailureExists(trace: seq<Event>)
    ensures FailuresSinceSuccess(trace) > 0 ==> LastFailure(trace).Some?
  {
    if trace != [] {
      LastFailureExists(trace[..|trace| - 1]);
    }
  }
}
