/** The circuit breaker of app/core/circuit_breaker.py with many calls in flight: admissions and completions
    are separate atomic steps, and completions may come late. */
module CircuitBreaker {
  import opened Options

  datatype Mode = Closed | Open | HalfOpen

  datatype Config = Config(failureThreshold: int, recoveryTimeout: real, halfOpenMaxCalls: int)

  datatype Breaker = Breaker(mode: Mode, failureCount: int, openedAt: Option<real>, halfOpenCalls: int)

  // ---- The three locked methods ----

  /** Admit a call or reject it; an open breaker whose timeout has elapsed goes half-open first. */
  function Admit(c: Config, b: Breaker, now: real): (Breaker, bool) {
    var openedAt := if b.openedAt.Some? then b.openedAt.value else 0.0;
    if b.mode == Open && now - openedAt < c.recoveryTimeout then (b, false) else
    var b' := if b.mode == Open then b.(mode := HalfOpen, halfOpenCalls := 0) else b;
    if b'.mode != HalfOpen then (b', true)
    else if b'.halfOpenCalls >= c.halfOpenMaxCalls then (b', false)
    else (b'.(halfOpenCalls := b'.halfOpenCalls + 1), true)
  }

  function Success(b: Breaker): Breaker {
    Breaker(Closed, 0, None, 0)
  }

  function Failure(c: Config, b: Breaker, now: real): Breaker {
    if b.mode == HalfOpen then b.(mode := Open, openedAt := Some(now))
    else if b.failureCount + 1 >= c.failureThreshold
    then b.(mode := Open, failureCount := b.failureCount + 1, openedAt := Some(now))
    else b.(failureCount := b.failureCount + 1)
  }

  // ---- Runs ----

  /** A call is admitted or rejected when it asks; an admitted call ends by recording a success, by
      recording a failure, or by recording nothing. Times of waiting are what passes between steps. */
  datatype Event =
    | Wait(elapsed: real)
    | Ask(id: nat)
    | RecordSuccess(id: nat)
    | RecordFailure(id: nat)
    | EndUnrecorded(id: nat)

  /** The breaker and the clock; the calls in flight; of those, the probes of the current half-open
      episode; and how many of its probes have ended without recording. */
  datatype System = System(b: Breaker, now: real, inFlight: set<nat>, probes: set<nat>, lost: nat)

  const START := System(Breaker(Closed, 0, None, 0), 0.0, {}, {}, 0)

  predicate Admitted(c: Config, s: System, e: Event) {
    e.Ask? && e.id !in s.inFlight && Admit(c, s.b, s.now).1
  }

  function Next(c: Config, s: System, e: Event): System {
    match e
    case Wait(d) => if d < 0.0 then s else s.(now := s.now + d)
    case Ask(id) =>
      if id in s.inFlight then s else
      var (b', ok) := Admit(c, s.b, s.now);
      if !ok then s.(b := b')
      else s.(b := b', inFlight := s.inFlight + {id},
              probes := if b'.mode == HalfOpen then s.probes + {id} else s.probes)
    case RecordSuccess(id) => System(Success(s.b), s.now, s.inFlight - {id}, {}, 0)
    case RecordFailure(id) => System(Failure(c, s.b, s.now), s.now, s.inFlight - {id}, {}, 0)
    case EndUnrecorded(id) =>
      s.(inFlight := s.inFlight - {id}, probes := s.probes - {id},
         lost := if id in s.probes then s.lost + 1 else s.lost)
  }

  function After(c: Config, es: seq<Event>): System {
    if es == [] then START else Next(c, After(c, es[..|es| - 1]), es[|es| - 1])
  }

  // ---- What a reader of the trace would count ----

  predicate Records(e: Event) {
    e.RecordSuccess? || e.RecordFailure?
  }

  function FailuresSinceSuccess(es: seq<Event>): nat {
    if es == [] then 0 else
    var e, before := es[|es| - 1], es[..|es| - 1];
    if e.RecordSuccess? then 0 else FailuresSinceSuccess(before) + (if e.RecordFailure? then 1 else 0)
  }

  function LastFailureTime(c: Config, es: seq<Event>): Option<real> {
    if es == [] then None else
    var e, before := es[|es| - 1], es[..|es| - 1];
    if e.RecordFailure? then Some(After(c, before).now) else LastFailureTime(c, before)
  }

  /** Calls admitted since the last recorded completion. */
  function AdmittedSinceRecord(c: Config, es: seq<Event>): nat {
    if es == [] then 0 else
    var e, before := es[|es| - 1], es[..|es| - 1];
    if Records(e) then 0 else AdmittedSinceRecord(c, before) + (if Admitted(c, After(c, before), e) then 1 else 0)
  }

  function AtLeast(x: int, y: int): int {
    if x < y then y else x
  }

  // ---- The trace decides the state ----

  /** What the breaker's fields mean in terms of the trace. */
  ghost predicate Explained(c: Config, es: seq<Event>) {
    var s := After(c, es);
    && (s.b.mode == Closed <==> FailuresSinceSuccess(es) < AtLeast(c.failureThreshold, 1))
    && (s.b.mode == Closed ==> s.b.failureCount == FailuresSinceSuccess(es) && s.b.openedAt == None)
    && (s.b.mode != Closed ==> s.b.failureCount >= AtLeast(c.failureThreshold, 1))
    && (s.b.mode != Closed ==> s.b.openedAt.Some? && s.b.openedAt == LastFailureTime(c, es))
    && (s.b.mode == HalfOpen ==> s.now >= s.b.openedAt.value + c.recoveryTimeout)
  }

  /** After any interleaving of admissions and completions, late ones included, the breaker is closed
      exactly when fewer failures than the threshold (a threshold below 1 counts as 1) were recorded since
      the last success; otherwise `_opened_at` is the time of the most recent failure. */
  lemma {:induction false} TraceDecidesState(c: Config, es: seq<Event>)
    ensures Explained(c, es)
  {
    if es != [] {
      TraceDecidesState(c, es[..|es| - 1]);
      hide Admitted;
    }
  }

  /** Failures recorded since the last success, those of probes not counted. */
  function CountedFailures(c: Config, es: seq<Event>): nat {
    if es == [] then 0 else
    var e, before := es[|es| - 1], es[..|es| - 1];
    if e.RecordSuccess? then 0
    else if e.RecordFailure? && After(c, before).b.mode != HalfOpen then CountedFailures(c, before) + 1
    else CountedFailures(c, before)
  }

  lemma {:induction false} FailureCountIs(c: Config, es: seq<Event>)
    ensures After(c, es).b.failureCount == CountedFailures(c, es)
  {
    if es != [] {
      FailureCountIs(c, es[..|es| - 1]);
      hide Admitted;
    }
  }

  // ---- Half-open episodes ----

  /** While not closed, `_half_open_calls` counts the n calls admitted since the last recorded completion;
      they are still in flight, or have ended without recording. */
  ghost predicate Accounted(c: Config, s: System, n: nat) {
    && s.probes <= s.inFlight
    && (s.b.mode != HalfOpen ==> s.probes == {} && s.lost == 0)
    && (s.b.mode == Open ==> n == 0)
    && (s.b.mode == Closed ==> s.b.halfOpenCalls == 0)
    && (s.b.mode == HalfOpen ==>
          && s.b.halfOpenCalls == n == |s.probes| + s.lost
          && s.b.halfOpenCalls <= AtLeast(c.halfOpenMaxCalls, 0)
          && (c.halfOpenMaxCalls >= 1 ==> s.b.halfOpenCalls >= 1))
  }

  lemma AccountedNext(c: Config, s: System, n: nat, e: Event)
    requires Accounted(c, s, n)
    ensures Accounted(c, Next(c, s, e), if Records(e) then 0 else if Admitted(c, s, e) then n + 1 else n)
  {
    if e.EndUnrecorded? && e.id in s.probes {
      assert s.probes == (s.probes - {e.id}) + {e.id};
    }
  }

  lemma {:induction false} EpisodesAccounted(c: Config, es: seq<Event>)
    ensures Accounted(c, After(c, es), AdmittedSinceRecord(c, es))
  {
    if es != [] {
      EpisodesAccounted(c, es[..|es| - 1]);
      AccountedNext(c, After(c, es[..|es| - 1]), AdmittedSinceRecord(c, es[..|es| - 1]), es[|es| - 1]);
      hide Accounted, Next, Admitted;
    }
  }

  /** Between two recorded completions, a breaker that is not closed admits at most
      `half_open_max_calls` calls. */
  lemma ProbesBounded(c: Config, es: seq<Event>)
    requires After(c, es).b.mode != Closed
    ensures AdmittedSinceRecord(c, es) <= AtLeast(c.halfOpenMaxCalls, 0)
  {
    EpisodesAccounted(c, es);
  }

  /** If no probe of the episode has ended unrecorded, a half-open breaker has a probe in flight, and the
      completion of any call in flight takes it out of half-open: it cannot be stuck. */
  lemma HalfOpenHasProbe(c: Config, es: seq<Event>)
    requires c.halfOpenMaxCalls >= 1 && After(c, es).b.mode == HalfOpen && After(c, es).lost == 0
    ensures After(c, es).probes != {} && After(c, es).probes <= After(c, es).inFlight
    ensures forall id | id in After(c, es).inFlight ::
      && After(c, es + [RecordSuccess(id)]).b.mode == Closed
      && After(c, es + [RecordFailure(id)]).b.mode == Open
  {
    hide After, Next, AdmittedSinceRecord;
    EpisodesAccounted(c, es);
    forall id | id in After(c, es).inFlight
      ensures After(c, es + [RecordSuccess(id)]).b.mode == Closed && After(c, es + [RecordFailure(id)]).b.mode == Open
    {
      OneMore(c, es, RecordSuccess(id));
      OneMore(c, es, RecordFailure(id));
      RecordsLeave(c, After(c, es), id);
    }
  }

  lemma RecordsLeave(c: Config, s: System, id: nat)
    requires s.b.mode == HalfOpen
    ensures Next(c, s, RecordSuccess(id)).b.mode == Closed && Next(c, s, RecordFailure(id)).b.mode == Open
  {
  }

  lemma OneMore(c: Config, es: seq<Event>, e: Event)
    ensures After(c, es + [e]) == Next(c, After(c, es), e)
  {
    assert (es + [e])[..|es|] == es;
  }

  /** A half-open breaker that has used up its probes rejects every call, however long one waits, until a
      completion is recorded. */
  lemma {:induction false} StuckUntilRecorded(c: Config, es: seq<Event>, more: seq<Event>)
    requires After(c, es).b.mode == HalfOpen && After(c, es).b.halfOpenCalls >= c.halfOpenMaxCalls
    requires forall e | e in more :: !Records(e)
    ensures After(c, es + more).b == After(c, es).b
    ensures forall id :: !Admitted(c, After(c, es + more), Ask(id))
  {
    if more == [] {
      assert es + more == es;
    } else {
      var n := |more| - 1;
      StuckUntilRecorded(c, es, more[..n]);
      assert (es + more)[..|es| + n] == es + more[..n];
      assert (es + more)[|es| + n] == more[n] && more[n] in more;
    }
  }

  /** Which calls are admitted, from the trace alone: every call while fewer failures than the threshold were
      recorded since the last success; otherwise those that come when the recovery timeout has passed since
      the last failure, up to `half_open_max_calls` of them since the last recorded completion. */
  lemma {:induction false} AdmittedIff(c: Config, es: seq<Event>, id: nat)
    requires id !in After(c, es).inFlight
    ensures var s, last := After(c, es), LastFailureTime(c, es);
      Admitted(c, s, Ask(id)) <==>
        || FailuresSinceSuccess(es) < AtLeast(c.failureThreshold, 1)
        || (last.Some? && s.now >= last.value + c.recoveryTimeout && AdmittedSinceRecord(c, es) < c.halfOpenMaxCalls)
  {
    TraceDecidesState(c, es);
    EpisodesAccounted(c, es);
    hide After, FailuresSinceSuccess, LastFailureTime, AdmittedSinceRecord;
  }

  // ---- When it never recovers ----

  /** Only a call in flight can end. */
  predicate Possible(s: System, e: Event) {
    e.Wait? || e.Ask? || e.id in s.inFlight
  }

  ghost predicate PossibleAfter(c: Config, es: seq<Event>, more: seq<Event>) {
    forall i | 0 <= i < |more| :: Possible(After(c, es + more[..i]), more[i])
  }

  /** Whatever happens and however long one waits, no call is admitted any more. */
  ghost predicate StuckForEver(c: Config, es: seq<Event>) {
    forall more: seq<Event>, id: nat | PossibleAfter(c, es, more) :: !Admitted(c, After(c, es + more), Ask(id))
  }

  /** Nothing is in flight, and no more calls are let through: the probes are used up, or none is allowed. */
  predicate NoWayOut(c: Config, s: System) {
    s.inFlight == {} && match s.b.mode
      case Closed => false
      case HalfOpen => s.b.halfOpenCalls >= c.halfOpenMaxCalls
      case Open => c.halfOpenMaxCalls <= 0
  }

  lemma NoWayOutNext(c: Config, s: System, e: Event)
    requires NoWayOut(c, s) && Possible(s, e)
    ensures NoWayOut(c, Next(c, s, e)) && !Admitted(c, s, e)
  {
  }

  lemma {:induction false} NoWayOutStays(c: Config, es: seq<Event>, more: seq<Event>)
    requires NoWayOut(c, After(c, es)) && PossibleAfter(c, es, more)
    ensures NoWayOut(c, After(c, es + more))
  {
    if more == [] {
      assert es + more == es;
    } else {
      var n := |more| - 1;
      assert forall i | 0 <= i < n :: more[..n][..i] == more[..i];
      NoWayOutStays(c, es, more[..n]);
      assert es + more == es + more[..n] + [more[n]];
      OneMore(c, es + more[..n], more[n]);
      NoWayOutNext(c, After(c, es + more[..n]), more[n]);
    }
  }

  lemma {:induction false} FreshId(ids: set<nat>) returns (id: nat)
    ensures id !in ids && forall x | x in ids :: x < id
  {
    if ids == {} {
      id := 0;
    } else {
      var x :| x in ids;
      var y := FreshId(ids - {x});
      assert ids == ids - {x} + {x};
      id := if x < y then y else x + 1;
    }
  }

  /** If there is a way out, one event opens it: waiting for the timeout, or the success of a call. */
  lemma WayOut(c: Config, s: System) returns (e: Event, id: nat)
    requires !NoWayOut(c, s)
    ensures Possible(s, e) && Admitted(c, Next(c, s, e), Ask(id))
  {
    id := FreshId(s.inFlight);
    if x :| x in s.inFlight {
      e := RecordSuccess(x);
    } else {
      var openedAt := if s.b.openedAt.Some? then s.b.openedAt.value else 0.0;
      var d := openedAt + c.recoveryTimeout - s.now;
      e := Wait(if s.b.mode == Open && d > 0.0 then d else 0.0);
    }
  }

  /** The breaker rejects for ever exactly when nothing is in flight and it is half-open with its probes
      used up (or is not closed and allows no probes at all). */
  lemma {:induction false} StuckForEverIff(c: Config, es: seq<Event>)
    ensures StuckForEver(c, es) <==> NoWayOut(c, After(c, es))
  {
    if NoWayOut(c, After(c, es)) {
      forall more: seq<Event>, id: nat | PossibleAfter(c, es, more)
        ensures !Admitted(c, After(c, es + more), Ask(id))
      {
        NoWayOutStays(c, es, more);
        NoWayOutNext(c, After(c, es + more), Ask(id));
      }
    } else {
      var e, id := WayOut(c, After(c, es));
      OneMore(c, es, e);
      assert es + [e][..0] == es;
      assert PossibleAfter(c, es, [e]);
    }
  }

  /** If probes are allowed at all, a breaker stuck for ever has lost as many of them as it allows. */
  lemma {:induction false} StuckHasLostProbes(c: Config, es: seq<Event>)
    requires c.halfOpenMaxCalls >= 1
    ensures StuckForEver(c, es) <==>
      var s := After(c, es); s.b.mode == HalfOpen && s.inFlight == {} && s.lost >= c.halfOpenMaxCalls
  {
    StuckForEverIff(c, es);
    EpisodesAccounted(c, es);
    hide StuckForEver, After, AdmittedSinceRecord;
  }

  /** n calls in a row, each of them admitted and ended before the next. */
  function Calls(n: nat, end: Event): seq<Event> {
    if n == 0 then [] else Calls(n - 1, end) + [Ask(0), end]
  }

  lemma PossibleMore(c: Config, es: seq<Event>, e: Event)
    requires PossibleAfter(c, [], es) && Possible(After(c, es), e)
    ensures PossibleAfter(c, [], es + [e])
  {
    hide After, Possible;
    assert [] + es == es;
    forall i | 0 <= i < |es + [e]|
      ensures Possible(After(c, [] + (es + [e])[..i]), (es + [e])[i])
    {
      assert (es + [e])[..i] == es[..i];
      assert [] + es[..i] == es[..i];
    }
  }

  /** One more call, admitted and ended at once. */
  lemma OneCall(c: Config, es: seq<Event>, end: Event)
    requires PossibleAfter(c, [], es) && Admitted(c, After(c, es), Ask(0)) && !end.Wait? && !end.Ask? && end.id == 0
    ensures After(c, es + [Ask(0), end]) == Next(c, Next(c, After(c, es), Ask(0)), end)
    ensures PossibleAfter(c, [], es + [Ask(0), end])
  {
    OneMore(c, es, Ask(0));
    OneMore(c, es + [Ask(0)], end);
    assert 0 in After(c, es + [Ask(0)]).inFlight;
    PossibleMore(c, es, Ask(0));
    PossibleMore(c, es + [Ask(0)], end);
    assert es + [Ask(0), end] == es + [Ask(0)] + [end];
  }

  /** The system after n failures in a row, up to the threshold. */
  function AfterFailed(c: Config, n: nat): System {
    var opens := n == AtLeast(c.failureThreshold, 1);
    System(Breaker(if opens then Open else Closed, n, if opens then Some(0.0) else None, 0), 0.0, {}, {}, 0)
  }

  function Pause(c: Config): real {
    if c.recoveryTimeout > 0.0 then c.recoveryTimeout else 0.0
  }

  /** The system after a pause and n cancelled probes. */
  function AfterCancelled(c: Config, n: nat): System {
    var b := Breaker(if n == 0 then Open else HalfOpen, AtLeast(c.failureThreshold, 1), Some(0.0), n);
    System(b, Pause(c), {}, {}, n)
  }

  lemma FailedNext(c: Config, n: nat)
    requires n < AtLeast(c.failureThreshold, 1)
    ensures Admitted(c, AfterFailed(c, n), Ask(0))
    ensures Next(c, Next(c, AfterFailed(c, n), Ask(0)), RecordFailure(0)) == AfterFailed(c, n + 1)
  {
  }

  lemma CancelledNext(c: Config, n: nat)
    requires n < c.halfOpenMaxCalls
    ensures Admitted(c, AfterCancelled(c, n), Ask(0))
    ensures Next(c, Next(c, AfterCancelled(c, n), Ask(0)), EndUnrecorded(0)) == AfterCancelled(c, n + 1)
  {
  }

  lemma NoCalls(c: Config)
    ensures Calls(0, RecordFailure(0)) == [] && AtLeast(c.failureThreshold, 1) >= 1
    ensures After(c, Calls(0, RecordFailure(0))) == AfterFailed(c, 0)
    ensures PossibleAfter(c, [], Calls(0, RecordFailure(0)))
  {
  }

  lemma MoreCalls(n: nat, end: Event)
    requires n > 0
    ensures Calls(n, end) == Calls(n - 1, end) + [Ask(0), end]
  {
  }

  lemma {:induction false} FailuresOpen(c: Config, n: nat)
    requires n <= AtLeast(c.failureThreshold, 1)
    ensures After(c, Calls(n, RecordFailure(0))) == AfterFailed(c, n)
    ensures PossibleAfter(c, [], Calls(n, RecordFailure(0)))
  {
    hide Next, PossibleAfter, AfterFailed, Admitted, After, Calls, AtLeast;
    NoCalls(c);
    if n > 0 {
      MoreCalls(n, RecordFailure(0));
      FailuresOpen(c, n - 1);
      FailedNext(c, n - 1);
      OneCall(c, Calls(n - 1, RecordFailure(0)), RecordFailure(0));
    }
  }

  /** The run in which the breaker opens, may recover, and n probes are cancelled. */
  function AllProbesCancelled(c: Config, n: nat): seq<Event> {
    Calls(AtLeast(c.failureThreshold, 1), RecordFailure(0)) + [Wait(Pause(c))] + Calls(n, EndUnrecorded(0))
  }

  lemma OpenAndWait(c: Config)
    ensures After(c, AllProbesCancelled(c, 0)) == AfterCancelled(c, 0) && PossibleAfter(c, [], AllProbesCancelled(c, 0))
  {
    var failures := Calls(AtLeast(c.failureThreshold, 1), RecordFailure(0));
    FailuresOpen(c, AtLeast(c.failureThreshold, 1));
    PossibleMore(c, failures, Wait(Pause(c)));
    OneMore(c, failures, Wait(Pause(c)));
    assert Next(c, AfterFailed(c, AtLeast(c.failureThreshold, 1)), Wait(Pause(c))) == AfterCancelled(c, 0);
    hide After, PossibleAfter;
    assert AllProbesCancelled(c, 0) == failures + [Wait(Pause(c))];
  }

  lemma {:induction false} ProbesCancelled(c: Config, n: nat)
    requires n <= AtLeast(c.halfOpenMaxCalls, 0)
    ensures After(c, AllProbesCancelled(c, n)) == AfterCancelled(c, n) && PossibleAfter(c, [], AllProbesCancelled(c, n))
  {
    hide Next, PossibleAfter, AfterCancelled, Admitted, After;
    if n == 0 {
      OpenAndWait(c);
    } else {
      ProbesCancelled(c, n - 1);
      CancelledNext(c, n - 1);
      OneCall(c, AllProbesCancelled(c, n - 1), EndUnrecorded(0));
      assert AllProbesCancelled(c, n) == AllProbesCancelled(c, n - 1) + [Ask(0), EndUnrecorded(0)];
    }
  }

  /** Every configuration can get there: cancelled probes leave the breaker rejecting for ever. */
  lemma {:induction false} CancelledProbesStick(c: Config)
    ensures var es := AllProbesCancelled(c, AtLeast(c.halfOpenMaxCalls, 0));
      PossibleAfter(c, [], es) && StuckForEver(c, es)
  {
    ProbesCancelled(c, AtLeast(c.halfOpenMaxCalls, 0));
    StuckForEverIff(c, AllProbesCancelled(c, AtLeast(c.halfOpenMaxCalls, 0)));
    hide StuckForEver, PossibleAfter, After;
  }

  // ---- Timing ----

  lemma {:induction false} ClockMonotone(c: Config, es: seq<Event>, i: nat)
    requires i <= |es|
    ensures After(c, es[..i]).now <= After(c, es).now
  {
    if i == |es| {
      assert es[..i] == es;
    } else {
      hide Next;
      Prefix(es, |es| - 1, i);
      ClockMonotone(c, es[..|es| - 1], i);
      NextClock(c, After(c, es[..|es| - 1]), es[|es| - 1]);
    }
  }

  lemma NextClock(c: Config, s: System, e: Event)
    ensures Next(c, s, e).now >= s.now
  {
  }

  lemma Prefix(es: seq<Event>, n: nat, i: nat)
    requires i <= n <= |es|
    ensures es[..n][..i] == es[..i]
  {
  }

  /** With no success after position i, failures only accumulate and the last failure is not before that
      of position i. */
  lemma {:induction false} NoSuccessSince(c: Config, es: seq<Event>, i: nat)
    requires i < |es| && es[i].RecordFailure? && forall k | i < k < |es| :: !es[k].RecordSuccess?
    ensures FailuresSinceSuccess(es) >= FailuresSinceSuccess(es[..i + 1])
    ensures LastFailureTime(c, es).Some? && LastFailureTime(c, es).value >= After(c, es[..i]).now
  {
    hide After;
    var before := es[..|es| - 1];
    if i == |es| - 1 {
      assert es[..i + 1] == es;
    } else {
      Prefix(es, |es| - 1, i + 1);
      Prefix(es, |es| - 1, i);
      NoSuccessSince(c, before, i);
      ClockMonotone(c, before, i);
    }
  }

  /** After a failure that leaves the breaker open, no call is admitted before the recovery timeout has
      passed since that failure, unless a success is recorded in between. */
  lemma NoEarlyAdmission(c: Config, es: seq<Event>, i: nat, j: nat)
    requires i < j < |es| && es[i].RecordFailure? && After(c, es[..i + 1]).b.mode == Open
    requires forall k | i < k < j :: !es[k].RecordSuccess?
    requires Admitted(c, After(c, es[..j]), es[j])
    ensures After(c, es[..j]).now >= After(c, es[..i]).now + c.recoveryTimeout
  {
    var before := es[..j];
    assert before[..i + 1] == es[..i + 1] && before[..i] == es[..i];
    TraceDecidesState(c, es[..i + 1]);
    TraceDecidesState(c, before);
    NoSuccessSince(c, before, i);
  }

  // ---- The code ----

  /** How the awaited call or the body of the `async with` block ended. */
  datatype Outcome = Returned | Raised | RaisedBreakerOpen | Cancelled

  /** What `call` records: cancellation is not an Exception, so it passes through unrecorded. */
  function CallRecords(id: nat, o: Outcome): Event {
    match o
    case Returned => RecordSuccess(id)
    case Raised => RecordFailure(id)
    case RaisedBreakerOpen => EndUnrecorded(id)
    case Cancelled => EndUnrecorded(id)
  }

  /** What `__aexit__` records: everything but CircuitBreakerOpen is a failure. */
  function ExitRecords(id: nat, o: Outcome): Event {
    match o
    case Returned => RecordSuccess(id)
    case Raised => RecordFailure(id)
    case RaisedBreakerOpen => EndUnrecorded(id)
    case Cancelled => RecordFailure(id)
  }

  /** The two ways to use a breaker, and what its users do with it. */
  datatype Way = ByCall | ByContext

  datatype Use = Pause(elapsed: real) | Begin(id: nat) | Finish(id: nat, way: Way, outcome: Outcome)

  function EventOf(u: Use): Event {
    match u
    case Pause(d) => Wait(d)
    case Begin(id) => Ask(id)
    case Finish(id, w, o) => if w == ByCall then CallRecords(id, o) else ExitRecords(id, o)
  }

  function Trace(us: seq<Use>): (es: seq<Event>)
    ensures |es| == |us|
  {
    if us == [] then [] else Trace(us[..|us| - 1]) + [EventOf(us[|us| - 1])]
  }

  /** An exception counts as a failure, and so does cancelling an `async with` block. */
  predicate Fails(u: Use) {
    u.Finish? && (u.outcome == Raised || (u.outcome == Cancelled && u.way == ByContext))
  }

  /** How many uses failed since one last returned. */
  function FailedSinceReturned(us: seq<Use>): nat {
    if us == [] then 0 else
    var u, before := us[|us| - 1], us[..|us| - 1];
    if u.Finish? && u.outcome == Returned then 0 else FailedSinceReturned(before) + (if Fails(u) then 1 else 0)
  }

  lemma {:induction false} FailuresAreFailed(us: seq<Use>)
    ensures FailuresSinceSuccess(Trace(us)) == FailedSinceReturned(us)
  {
    if us != [] {
      var before := us[..|us| - 1];
      FailuresAreFailed(before);
      assert Trace(us)[..|us| - 1] == Trace(before);
    }
  }

  /** Whatever mixture of calls and blocks is in flight, the breaker is closed exactly while fewer of them
      than the threshold have failed since one last returned. */
  lemma {:induction false} OutcomesDecideState(c: Config, us: seq<Use>)
    ensures After(c, Trace(us)).b.mode == Closed <==> FailedSinceReturned(us) < AtLeast(c.failureThreshold, 1)
  {
    TraceDecidesState(c, Trace(us));
    FailuresAreFailed(us);
  }

  lemma {:induction false} RecordingLosesNothing(c: Config, es: seq<Event>)
    requires forall e | e in es :: !e.EndUnrecorded?
    ensures After(c, es).lost == 0
  {
    if es != [] {
      RecordingLosesNothing(c, es[..|es| - 1]);
      assert es[|es| - 1] in es;
    }
  }

  lemma {:induction false} TraceMembers(us: seq<Use>)
    ensures forall e | e in Trace(us) :: exists u :: u in us && e == EventOf(u)
  {
    if us != [] {
      TraceMembers(us[..|us| - 1]);
      assert us[|us| - 1] in us && forall u | u in us[..|us| - 1] :: u in us;
    }
  }

  /** Used through `async with` with bodies that do not use a breaker themselves, it never loses a probe. */
  lemma {:induction false} ContextManagerLosesNothing(c: Config, us: seq<Use>)
    requires forall u | u in us && u.Finish? :: u.way == ByContext && u.outcome != RaisedBreakerOpen
    ensures After(c, Trace(us)).lost == 0
  {
    TraceMembers(us);
    RecordingLosesNothing(c, Trace(us));
  }

  class CircuitBreakerObject {
    const config: Config
    var mode: Mode
    var failureCount: int
    var openedAt: Option<real>
    var halfOpenCalls: int

    function View(): Breaker
      reads this
    {
      Breaker(mode, failureCount, openedAt, halfOpenCalls)
    }

    constructor (config: Config)
      ensures this.config == config && View() == START.b
    {
      this.config := config;
      mode, failureCount, openedAt, halfOpenCalls := Closed, 0, None, 0;
    }

    method CheckAndMaybeTransition(now: real) returns (admitted: bool)
      modifies this
      ensures (View(), admitted) == Admit(config, old(View()), now)
    {
      if mode == Open {
        var elapsed := now - (if openedAt.Some? then openedAt.value else 0.0);
        if elapsed >= config.recoveryTimeout {
          mode := HalfOpen;
          halfOpenCalls := 0;
        } else {
          return false;
        }
      }
      if mode == HalfOpen {
        if halfOpenCalls >= config.halfOpenMaxCalls {
          return false;
        }
        halfOpenCalls := halfOpenCalls + 1;
      }
      admitted := true;
    }

    method RecordSuccess()
      modifies this
      ensures View() == Success(old(View()))
    {
      mode, failureCount, openedAt, halfOpenCalls := Closed, 0, None, 0;
    }

    method RecordFailure(now: real)
      modifies this
      ensures View() == Failure(config, old(View()), now)
    {
      if mode == HalfOpen {
        mode := Open;
        openedAt := Some(now);
        return;
      }
      failureCount := failureCount + 1;
      if failureCount >= config.failureThreshold {
        mode := Open;
        openedAt := Some(now);
      }
    }

    /** The part of `call` after the awaited call has ended. */
    method FinishCall(o: Outcome, now: real)
      modifies this
      ensures o == Returned ==> View() == Success(old(View()))
      ensures o == Raised ==> View() == Failure(config, old(View()), now)
      ensures o == RaisedBreakerOpen || o == Cancelled ==> View() == old(View())
      ensures forall s: System, id: nat | s.b == old(View()) && s.now == now ::
        View() == Next(config, s, CallRecords(id, o)).b
    {
      if o.Returned? {
        RecordSuccess();
      } else if o.Raised? {
        RecordFailure(now);
      }
    }

    method Exit(o: Outcome, now: real)
      modifies this
      ensures o == Returned ==> View() == Success(old(View()))
      ensures o == Raised || o == Cancelled ==> View() == Failure(config, old(View()), now)
      ensures o == RaisedBreakerOpen ==> View() == old(View())
      ensures forall s: System, id: nat | s.b == old(View()) && s.now == now ::
        View() == Next(config, s, ExitRecords(id, o)).b
    {
      if o.Returned? {
        RecordSuccess();
      } else if !o.RaisedBreakerOpen? {
        RecordFailure(now);
      }
    }
  }
}
