/**
 * The retry rule of the error boundary: catching an error, retrying with
 * exponential backoff up to a maximum number of attempts, the retry timer
 * firing, the fallback's buttons, and cancelling the timer on unmount.
 *
 * The timers are modelled as the runtime keeps them: `setTimeout` hands out
 * a fresh positive id and schedules the callback, `clearTimeout` unschedules
 * it (and does nothing for an id that already fired or was cleared), and a
 * timer that fires is no longer scheduled. The boundary itself only keeps
 * the id of the last timer it set.
 */
module ErrorBoundaryModel {
  import opened Wrappers

  /** The boundary's state, together with the retry timers it has scheduled.
      `error` is the message of the thrown value, or `None` when there is no
      error or the thrown value was falsy (`throw null`). `retryTimeout` is
      the id of the last timer set, kept even after that timer fired.
      `timers` maps each scheduled timer that has neither fired nor been
      cleared to its delay; `nextTimerId` is the id the runtime hands out
      next. */
  datatype BoundaryState = BoundaryState(
    hasError: bool,
    error: Option<string>,
    errorInfo: Option<string>,
    retryCount: nat,
    retryTimeout: Option<nat>,
    timers: map<nat, nat>,
    nextTimerId: nat)

  const InitialState: BoundaryState := BoundaryState(false, None, None, 0, None, map[], 1)

  /** The default of the `maxRetries` property. */
  const DefaultMaxRetries: int := 3

  function Pow2(n: nat): (r: nat)
    ensures r >= 1
  {
    if n == 0 then 1 else 2 * Pow2(n - 1)
  }

  /** The backoff before retry number `retryCount + 1`, in milliseconds. */
  function RetryDelay(retryCount: nat): nat {
    Pow2(retryCount) * 1000
  }

  /** The schedule is 1 s, 2 s, 4 s, each delay twice the one before. */
  lemma RetryDelaySchedule(c: nat)
    ensures RetryDelay(0) == 1000 && RetryDelay(1) == 2000 && RetryDelay(2) == 4000
    ensures RetryDelay(c + 1) == 2 * RetryDelay(c)
  {
  }

  // ---------------------------------------------------------------------------
  // The runtime's timers
  // ---------------------------------------------------------------------------

  /** `setTimeout(callback, delay)`: the timer with the next id is scheduled. */
  function Scheduled(s: BoundaryState, delay: nat): BoundaryState {
    s.(timers := s.timers[s.nextTimerId := delay], nextTimerId := s.nextTimerId + 1)
  }

  /** `clearTimeout(id)`: the timer is no longer scheduled. */
  function Cleared(s: BoundaryState, id: nat): BoundaryState {
    s.(timers := s.timers - {id})
  }

  /** `if (this.retryTimeout) clearTimeout(this.retryTimeout)`. */
  function ClearedRetry(s: BoundaryState): BoundaryState {
    if s.retryTimeout.Some? then Cleared(s, s.retryTimeout.value) else s
  }

  /** A retry timer is scheduled: the last one set has not fired and has not
      been cleared. */
  predicate Pending(s: BoundaryState) {
    s.retryTimeout.Some? && s.retryTimeout.value in s.timers
  }

  // ---------------------------------------------------------------------------
  // The transitions
  // ---------------------------------------------------------------------------

  /** `getDerivedStateFromError(error)`: the boundary shows its fallback and
      keeps the error; the retry count is untouched. */
  function Caught(s: BoundaryState, error: Option<string>): BoundaryState {
    s.(hasError := true, error := error)
  }

  /** `componentDidCatch`'s own state update: it records the error info. */
  function InfoRecorded(s: BoundaryState, info: string): BoundaryState {
    s.(errorInfo := Some(info))
  }

  /** `handleRetry()`: refused once the count reaches the maximum; otherwise
      the last timer is cleared and a new one is set with the backoff delay. */
  function Retried(s: BoundaryState, maxRetries: int): BoundaryState {
    if s.retryCount >= maxRetries then s
    else
      var t := ClearedRetry(s);
      Scheduled(t, RetryDelay(s.retryCount)).(retryTimeout := Some(t.nextTimerId))
  }

  /** The scheduled timer `id` fires: it is no longer scheduled, the error is
      cleared and the count goes up. The boundary keeps the fired id. */
  function Fired(s: BoundaryState, id: nat): BoundaryState
    requires id in s.timers
  {
    s.(hasError := false, error := None, errorInfo := None, retryCount := s.retryCount + 1, timers := s.timers - {id})
  }

  /** `componentWillUnmount()`: the last timer is cleared. */
  function Unmounted(s: BoundaryState): BoundaryState {
    ClearedRetry(s)
  }

  /** Every scheduled timer is the last one set, whose id the runtime has
      already handed out; a scheduled timer belongs to an allowed retry; and
      the count never passes the maximum once it has started counting. */
  predicate Valid(s: BoundaryState, maxRetries: int) {
    && (forall id :: id in s.timers ==> s.retryTimeout == Some(id))
    && s.nextTimerId > 0
    && (s.retryTimeout.Some? ==> 0 < s.retryTimeout.value < s.nextTimerId)
    && (Pending(s) ==> s.retryCount < maxRetries)
    && (s.retryCount == 0 || s.retryCount <= maxRetries)
  }

  lemma InitialValid(maxRetries: int)
    ensures Valid(InitialState, maxRetries) && !Pending(InitialState)
  {
  }

  /** At most one retry timer is ever scheduled, and it is the last one set. */
  lemma AtMostOnePending(s: BoundaryState, maxRetries: int)
    requires Valid(s, maxRetries)
    ensures |s.timers| <= 1
    ensures Pending(s) <==> |s.timers| == 1
    ensures !Pending(s) ==> s.timers == map[]
  {
    if Pending(s) {
      assert s.timers.Keys == {s.retryTimeout.value};
    } else {
      assert s.timers.Keys == {};
    }
  }

  /** Catching an error sets the flag and keeps the error, leaving the count
      and the timers alone. */
  lemma CaughtSpec(s: BoundaryState, error: Option<string>, maxRetries: int)
    requires Valid(s, maxRetries)
    ensures var r := Caught(s, error);
      && r.hasError && r.error == error && r.errorInfo == s.errorInfo && r.retryCount == s.retryCount
      && r.retryTimeout == s.retryTimeout && r.timers == s.timers && Valid(r, maxRetries)
  {
  }

  /** A refused retry changes nothing. An allowed one leaves exactly one timer
      scheduled, a fresh one with the backoff delay, and changes nothing else
      of the boundary. */
  lemma RetriedSpec(s: BoundaryState, maxRetries: int)
    requires Valid(s, maxRetries)
    ensures var r := Retried(s, maxRetries);
      && Valid(r, maxRetries)
      && (s.retryCount >= maxRetries ==> r == s)
      && (s.retryCount < maxRetries ==>
            && r.timers == map[s.nextTimerId := RetryDelay(s.retryCount)]
            && r.retryTimeout == Some(s.nextTimerId) && Pending(r)
            && r.nextTimerId == s.nextTimerId + 1
            && r.hasError == s.hasError && r.error == s.error && r.errorInfo == s.errorInfo
            && r.retryCount == s.retryCount)
  {
    if s.retryCount < maxRetries {
      assert ClearedRetry(s).timers == map[] by {
        assert forall id :: id in s.timers ==> Some(id) == s.retryTimeout;
      }
    }
  }

  /** Firing clears the error and counts the retry, without passing the
      maximum; afterwards no timer is scheduled. */
  lemma FiredSpec(s: BoundaryState, id: nat, maxRetries: int)
    requires Valid(s, maxRetries) && id in s.timers
    ensures var r := Fired(s, id);
      && !r.hasError && r.error == None && r.errorInfo == None
      && r.retryCount == s.retryCount + 1 && r.retryCount <= maxRetries
      && r.timers == map[] && !Pending(r) && r.retryTimeout == s.retryTimeout
      && Valid(r, maxRetries)
  {
    assert forall k :: k in s.timers ==> k == id;
  }

  /** Unmounting leaves no timer scheduled and changes nothing else. */
  lemma UnmountedSpec(s: BoundaryState, maxRetries: int)
    requires Valid(s, maxRetries)
    ensures var r := Unmounted(s);
      r.timers == map[] && !Pending(r) && r.(timers := s.timers) == s && Valid(r, maxRetries)
  {
    AtMostOnePending(s, maxRetries);
  }

  // ---------------------------------------------------------------------------
  // Any sequence of events
  // ---------------------------------------------------------------------------

  /** What can happen to the boundary. A timer can only fire while scheduled. */
  datatype Event = Catch(error: Option<string>) | CatchInfo(info: string) | Retry | Fire(id: nat) | Unmount

  function Apply(s: BoundaryState, e: Event, maxRetries: int): BoundaryState {
    match e
    case Catch(m) => Caught(s, m)
    case CatchInfo(i) => InfoRecorded(s, i)
    case Retry => Retried(s, maxRetries)
    case Fire(id) => if id in s.timers then Fired(s, id) else s
    case Unmount => Unmounted(s)
  }

  /** The state after a sequence of events. */
  function Trace(s: BoundaryState, es: seq<Event>, maxRetries: int): BoundaryState
    decreases |es|
  {
    if es == [] then s else Trace(Apply(s, es[0], maxRetries), es[1..], maxRetries)
  }

  /** How many retries a sequence of events asks for. */
  function Retries(es: seq<Event>): nat {
    if es == [] then 0 else (if es[0].Retry? then 1 else 0) + Retries(es[1..])
  }

  /** One event keeps the state valid, and raises the count plus the number
      of scheduled timers by at most one, and only for a retry. */
  lemma ApplySpec(s: BoundaryState, e: Event, maxRetries: int)
    requires Valid(s, maxRetries)
    ensures var r := Apply(s, e, maxRetries);
      && Valid(r, maxRetries)
      && r.retryCount + |r.timers| <= s.retryCount + |s.timers| + (if e.Retry? then 1 else 0)
  {
    AtMostOnePending(s, maxRetries);
    match e
    case Catch(m) => CaughtSpec(s, m, maxRetries);
    case CatchInfo(i) =>
    case Retry =>
      RetriedSpec(s, maxRetries);
      if s.retryCount < maxRetries {
        assert |map[s.nextTimerId := RetryDelay(s.retryCount)]| == 1;
      }
    case Fire(id) =>
      if id in s.timers { FiredSpec(s, id, maxRetries); }
    case Unmount => UnmountedSpec(s, maxRetries);
  }

  /** Whatever happens, the state stays valid, and the count plus the number
      of scheduled timers grows by at most the retries asked for. */
  lemma {:induction false} TraceSpec(s: BoundaryState, es: seq<Event>, maxRetries: int)
    requires Valid(s, maxRetries)
    ensures var r := Trace(s, es, maxRetries);
      && Valid(r, maxRetries)
      && r.retryCount + |r.timers| <= s.retryCount + |s.timers| + Retries(es)
    decreases |es|
  {
    if es != [] {
      var t := Apply(s, es[0], maxRetries);
      ApplySpec(s, es[0], maxRetries);
      TraceSpec(t, es[1..], maxRetries);
    }
  }

  /** From a fresh boundary the count never exceeds `maxRetries`, nor the
      number of retries asked for, and at most one timer is ever scheduled. */
  lemma RetryCountBounded(es: seq<Event>, maxRetries: int)
    ensures Trace(InitialState, es, maxRetries).retryCount <= Retries(es)
    ensures maxRetries >= 0 ==> Trace(InitialState, es, maxRetries).retryCount <= maxRetries
    ensures |Trace(InitialState, es, maxRetries).timers| <= 1
  {
    TraceSpec(InitialState, es, maxRetries);
    AtMostOnePending(Trace(InitialState, es, maxRetries), maxRetries);
  }

  // ---------------------------------------------------------------------------
  // The fallback
  // ---------------------------------------------------------------------------

  /** The buttons of the default fallback. */
  datatype Buttons = Buttons(tryAgain: bool, reload: bool)

  /** `renderFallback()`: nothing without an error; otherwise "Try Again"
      while retries remain and are enabled, "Reload Page" once they are used
      up. */
  function FallbackButtons(s: BoundaryState, enableRetry: bool, maxRetries: int): Option<Buttons> {
    if s.error.None? then None
    else Some(Buttons(enableRetry && s.retryCount < maxRetries, s.retryCount >= maxRetries))
  }

  /** Reload is offered exactly when the retries are used up, never together
      with Try Again; with retries enabled, exactly one of the two is shown. */
  lemma FallbackButtonsSpec(s: BoundaryState, enableRetry: bool, maxRetries: int)
    requires s.error.Some?
    ensures var b := FallbackButtons(s, enableRetry, maxRetries).value;
      && (b.reload <==> s.retryCount >= maxRetries)
      && (b.tryAgain <==> enableRetry && s.retryCount < maxRetries)
      && !(b.tryAgain && b.reload)
      && (enableRetry ==> (b.tryAgain <==> !b.reload))
  {
  }

  /** A falsy thrown value still switches to the fallback, which then renders
      nothing: no button is offered, so no retry can be asked for from it. */
  lemma FalsyErrorShowsNothing(s: BoundaryState, enableRetry: bool, maxRetries: int)
    ensures Caught(s, None).hasError
    ensures FallbackButtons(Caught(s, None), enableRetry, maxRetries) == None
    ensures forall m :: FallbackButtons(Caught(s, Some(m)), enableRetry, maxRetries).Some?
  {
  }

  /** The button Try Again shows is live: pressing it schedules a timer. */
  lemma TryAgainSchedules(s: BoundaryState, enableRetry: bool, maxRetries: int)
    requires Valid(s, maxRetries)
    requires s.error.Some? && FallbackButtons(s, enableRetry, maxRetries).value.tryAgain
    ensures Pending(Retried(s, maxRetries))
    ensures Retried(s, maxRetries).timers == map[s.nextTimerId := RetryDelay(s.retryCount)]
  {
    RetriedSpec(s, maxRetries);
  }

  // ---------------------------------------------------------------------------
  // The component
  // ---------------------------------------------------------------------------

  /** The component, with the runtime's table of its scheduled retry timers. */
  class ErrorBoundary {
    var hasError: bool
    var error: Option<string>
    var errorInfo: Option<string>
    var retryCount: nat
    var retryTimeout: Option<nat>
    var timers: map<nat, nat>
    var nextTimerId: nat
    const maxRetries: int
    const enableRetry: bool

    function State(): BoundaryState
      reads this
    {
      BoundaryState(hasError, error, errorInfo, retryCount, retryTimeout, timers, nextTimerId)
    }

    ghost predicate Ok()
      reads this
    {
      Valid(State(), maxRetries)
    }

    /** A boundary with the given properties: `None` takes the default. */
    constructor(maxRetries: Option<int>, enableRetry: Option<bool>)
      ensures State() == InitialState && Ok()
      ensures this.maxRetries == (if maxRetries.Some? then maxRetries.value else DefaultMaxRetries)
      ensures this.enableRetry == (if enableRetry.Some? then enableRetry.value else true)
    {
      hasError, error, errorInfo := false, None, None;
      retryCount, retryTimeout := 0, None;
      timers, nextTimerId := map[], 1;
      this.maxRetries := if maxRetries.Some? then maxRetries.value else DefaultMaxRetries;
      this.enableRetry := if enableRetry.Some? then enableRetry.value else true;
    }

    /** `setTimeout`: schedules a timer and returns its fresh id. */
    method SetTimeout(delay: nat) returns (id: nat)
      modifies this
      ensures id == old(nextTimerId)
      ensures State() == Scheduled(old(State()), delay)
    {
      id := nextTimerId;
      timers := timers[id := delay];
      nextTimerId := nextTimerId + 1;
    }

    /** `clearTimeout`: unschedules the timer, if it is still scheduled. */
    method ClearTimeout(id: nat)
      modifies this
      ensures State() == Cleared(old(State()), id)
    {
      timers := timers - {id};
    }

    method CatchError(error: Option<string>)
      requires Ok()
      modifies this
      ensures State() == Caught(old(State()), error) && Ok()
    {
      hasError, this.error := true, error;
    }

    method DidCatch(info: string)
      requires Ok()
      modifies this
      ensures State() == InfoRecorded(old(State()), info) && Ok()
    {
      errorInfo := Some(info);
    }

    method HandleRetry()
      requires Ok()
      modifies this
      ensures State() == Retried(old(State()), maxRetries) && Ok()
      ensures retryCount < maxRetries ==> |timers| == 1
    {
      RetriedSpec(State(), maxRetries);
      if retryCount >= maxRetries {
        return;
      }
      if retryTimeout.Some? {
        ClearTimeout(retryTimeout.value);
      }
      var delay := RetryDelay(retryCount);
      var id := SetTimeout(delay);
      retryTimeout := Some(id);
      AtMostOnePending(State(), maxRetries);
    }

    /** The scheduled timer `id` fires. */
    method FireRetryTimer(id: nat)
      requires Ok() && id in timers
      modifies this
      ensures State() == Fired(old(State()), id) && Ok()
    {
      FiredSpec(State(), id, maxRetries);
      timers := timers - {id};
      hasError, error, errorInfo := false, None, None;
      retryCount := retryCount + 1;
    }

    method Unmount()
      requires Ok()
      modifies this
      ensures State() == Unmounted(old(State())) && Ok()
      ensures timers == map[]
    {
      UnmountedSpec(State(), maxRetries);
      if retryTimeout.Some? {
        ClearTimeout(retryTimeout.value);
      }
    }

    function Fallback(): Option<Buttons>
      reads this
    {
      FallbackButtons(State(), enableRetry, maxRetries)
    }
  }
}
