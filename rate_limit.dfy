/**
 * `throttle` and `debounce` of assets/js/utils/dom.js as state machines.
 * The closure state (`inThrottle`, `timeout`) is the machine state; the
 * environment drives it with calls of the wrapped function and with the
 * firing of the timer it scheduled. Timer durations are not modelled: a
 * timer either fires (an `Elapsed` event) or has not fired yet.
 */
module RateLimit {

  /** What happens to a rate-limited function: it is called with `args`, or
      the pending timer fires. */
  datatype Event<A> = Called(args: A) | Elapsed

  /** The result of one or more steps: the new state and the arguments of
      every invocation of the wrapped `func`, in order. */
  datatype Outcome<S, A> = Outcome(state: S, invoked: seq<A>)

  function Calls<A>(xs: seq<A>): (es: seq<Event<A>>)
    ensures |es| == |xs| && forall k :: 0 <= k < |xs| ==> es[k] == Called(xs[k])
  {
    seq(|xs|, k requires 0 <= k < |xs| => Called(xs[k]))
  }

  function FireCount<A>(es: seq<Event<A>>): nat
    decreases |es|
  {
    if es == [] then 0 else (if es[0].Elapsed? then 1 else 0) + FireCount(es[1..])
  }

  // ---------------------------------------------------------------------
  // throttle

  /** One event of `throttle`; the state is `inThrottle`. A call invokes
      `func` exactly when the throttle is free and then closes it; a
      suppressed call is dropped. The timer reopens the throttle. */
  function ThrottleStep<A>(inThrottle: bool, e: Event<A>): Outcome<bool, A> {
    match e
    case Called(a) => if inThrottle then Outcome(true, []) else Outcome(true, [a])
    case Elapsed => Outcome(false, [])
  }

  function ThrottleRun<A>(inThrottle: bool, es: seq<Event<A>>): Outcome<bool, A>
    decreases |es|
  {
    if es == [] then Outcome(inThrottle, [])
    else
      var first := ThrottleStep(inThrottle, es[0]);
      var rest := ThrottleRun(first.state, es[1..]);
      Outcome(rest.state, first.invoked + rest.invoked)
  }

  lemma {:induction false} ThrottleRunAppend<A>(s: bool, xs: seq<Event<A>>, ys: seq<Event<A>>)
    ensures ThrottleRun(s, xs + ys) ==
      Outcome(ThrottleRun(ThrottleRun(s, xs).state, ys).state,
              ThrottleRun(s, xs).invoked + ThrottleRun(ThrottleRun(s, xs).state, ys).invoked)
    decreases |xs|
  {
    if xs == [] {
      assert xs + ys == ys;
    } else {
      assert (xs + ys)[0] == xs[0] && (xs + ys)[1..] == xs[1..] + ys;
      ThrottleRunAppend(ThrottleStep(s, xs[0]).state, xs[1..], ys);
    }
  }

  /** While the throttle is closed every call is dropped. */
  lemma {:induction false} ThrottleClosedDrops<A>(xs: seq<A>)
    ensures ThrottleRun(true, Calls(xs)) == Outcome(true, [])
    decreases |xs|
  {
    if xs != [] {
      assert Calls(xs)[1..] == Calls(xs[1..]);
      ThrottleClosedDrops(xs[1..]);
    }
  }

  /** A burst of calls into a free throttle runs `func` once, with the
      arguments of the first call. */
  lemma ThrottleBurst<A>(first: A, rest: seq<A>)
    ensures ThrottleRun(false, Calls([first] + rest)) == Outcome(true, [first])
  {
    assert Calls([first] + rest)[1..] == Calls(rest);
    ThrottleClosedDrops(rest);
  }

  /** Suppressed calls are not queued: after the timer fires, the next call
      runs `func` with its own arguments and nothing else runs. */
  lemma ThrottleNotQueued<A>(suppressed: seq<A>, next: A)
    ensures ThrottleRun(true, Calls(suppressed) + [Elapsed, Called(next)]) == Outcome(true, [next])
  {
    var tail: seq<Event<A>> := [Elapsed, Called(next)];
    ThrottleClosedDrops(suppressed);
    ThrottleRunAppend(true, Calls(suppressed), tail);
    var last: seq<Event<A>> := [Called(next)];
    assert tail[0] == Elapsed && tail[1..] == last && last[1..] == [];
    assert ThrottleRun(false, last) == Outcome(true, [next]);
    assert ThrottleRun(true, tail) == Outcome(true, [next]);
  }

  /** `func` runs at most once per opening of the throttle: once for a free
      start, and once more after each timer firing. */
  lemma {:induction false} ThrottleRate<A>(s: bool, es: seq<Event<A>>)
    ensures |ThrottleRun(s, es).invoked| <= (if s then 0 else 1) + FireCount(es)
    decreases |es|
  {
    if es != [] {
      ThrottleRate(ThrottleStep(s, es[0]).state, es[1..]);
    }
  }

  /** The closure returned by `throttle(func, limit)`. */
  class Throttled<A> {
    var inThrottle: bool
    /** The arguments of every invocation of `func` so far. */
    var invoked: seq<A>

    constructor ()
      ensures !inThrottle && invoked == []
    {
      inThrottle := false;
      invoked := [];
    }

    /** `executedFunction(...args)`. */
    method Invoke(args: A)
      modifies this
      ensures var o := ThrottleStep(old(inThrottle), Called(args));
        inThrottle == o.state && invoked == old(invoked) + o.invoked
      ensures inThrottle
      ensures invoked == (if old(inThrottle) then old(invoked) else old(invoked) + [args])
    {
      if !inThrottle {
        invoked := invoked + [args];
        inThrottle := true;
      }
    }

    /** The `limit` timer fires. */
    method TimerElapsed()
      modifies this
      ensures var o := ThrottleStep(old(inThrottle), Elapsed);
        inThrottle == o.state && invoked == old(invoked) + o.invoked
      ensures !inThrottle && invoked == old(invoked)
    {
      inThrottle := false;
    }
  }

  // ---------------------------------------------------------------------
  // debounce

  /** The debounce closure state: the `immediate` flag and the pending
      timer, which remembers the arguments of the call that scheduled it. */
  datatype Pending<A> = NoTimer | Timer(args: A)
  datatype Debounce<A> = Debounce(immediate: bool, pending: Pending<A>)

  /** One event of `debounce`. A call cancels the pending timer and schedules
      a new one for its own arguments; in immediate mode it also runs `func`
      at once when no timer was pending. The timer clears `timeout` and, in
      trailing mode only, runs `func` with the scheduling call's arguments. */
  function DebounceStep<A>(d: Debounce<A>, e: Event<A>): Outcome<Debounce<A>, A> {
    match e
    case Called(a) =>
      Outcome(d.(pending := Timer(a)), if d.immediate && d.pending.NoTimer? then [a] else [])
    case Elapsed =>
      match d.pending
      case NoTimer => Outcome(d, [])
      case Timer(a) => Outcome(d.(pending := NoTimer), if d.immediate then [] else [a])
  }

  function DebounceRun<A>(d: Debounce<A>, es: seq<Event<A>>): Outcome<Debounce<A>, A>
    decreases |es|
  {
    if es == [] then Outcome(d, [])
    else
      var first := DebounceStep(d, es[0]);
      var rest := DebounceRun(first.state, es[1..]);
      Outcome(rest.state, first.invoked + rest.invoked)
  }

  /** A run of calls leaves the timer pending for the last call; in trailing
      mode none of them runs `func`. */
  lemma {:induction false} DebounceCallsPending<A>(d: Debounce<A>, xs: seq<A>)
    requires xs != []
    ensures DebounceRun(d, Calls(xs)).state == d.(pending := Timer(xs[|xs| - 1]))
    ensures !d.immediate ==> DebounceRun(d, Calls(xs)).invoked == []
    decreases |xs|
  {
    assert Calls(xs)[1..] == Calls(xs[1..]);
    if |xs| > 1 {
      DebounceCallsPending(d.(pending := Timer(xs[0])), xs[1..]);
    }
  }

  /** In immediate mode calls made while a timer is pending never run `func`. */
  lemma {:induction false} DebounceImmediatePendingSilent<A>(d: Debounce<A>, xs: seq<A>)
    requires d.immediate && d.pending.Timer?
    ensures DebounceRun(d, Calls(xs)).invoked == []
    decreases |xs|
  {
    if xs != [] {
      assert Calls(xs)[1..] == Calls(xs[1..]);
      DebounceImmediatePendingSilent(d.(pending := Timer(xs[0])), xs[1..]);
    }
  }

  lemma {:induction false} DebounceRunAppend<A>(d: Debounce<A>, xs: seq<Event<A>>, ys: seq<Event<A>>)
    ensures DebounceRun(d, xs + ys) ==
      Outcome(DebounceRun(DebounceRun(d, xs).state, ys).state,
              DebounceRun(d, xs).invoked + DebounceRun(DebounceRun(d, xs).state, ys).invoked)
    decreases |xs|
  {
    if xs == [] {
      assert xs + ys == ys;
    } else {
      assert (xs + ys)[0] == xs[0] && (xs + ys)[1..] == xs[1..] + ys;
      DebounceRunAppend(DebounceStep(d, xs[0]).state, xs[1..], ys);
    }
  }

  /** Trailing mode: a burst of calls followed by the timer yields exactly one
      invocation, with the arguments of the last call. */
  lemma DebounceTrailingBurst<A>(xs: seq<A>)
    requires xs != []
    ensures DebounceRun(Debounce(false, NoTimer), Calls(xs) + [Elapsed])
      == Outcome(Debounce(false, NoTimer), [xs[|xs| - 1]])
  {
    DebounceCallsPending(Debounce(false, NoTimer), xs);
    DebounceRunAppend(Debounce(false, NoTimer), Calls(xs), [Elapsed]);
  }

  /** Immediate mode: a burst of calls followed by the timer yields exactly
      one invocation, with the arguments of the first call. */
  lemma DebounceImmediateBurst<A>(xs: seq<A>)
    requires xs != []
    ensures DebounceRun(Debounce(true, NoTimer), Calls(xs) + [Elapsed])
      == Outcome(Debounce(true, NoTimer), [xs[0]])
  {
    var d := Debounce(true, NoTimer);
    assert Calls(xs) == [Called(xs[0])] + Calls(xs[1..]);
    DebounceRunAppend(d, [Called(xs[0])], Calls(xs[1..]));
    DebounceImmediatePendingSilent(d.(pending := Timer(xs[0])), xs[1..]);
    DebounceCallsPending(d, xs);
    DebounceRunAppend(d, Calls(xs), [Elapsed]);
  }

  /** In immediate mode the timer never runs `func`; in trailing mode a call
      never runs it. */
  lemma DebounceWhoInvokes<A>(d: Debounce<A>, a: A)
    ensures d.immediate ==> DebounceStep(d, Elapsed).invoked == []
    ensures !d.immediate ==> DebounceStep(d, Called(a)).invoked == []
    ensures DebounceStep(d, Elapsed).state.pending == NoTimer
  {
  }

  /** Trailing mode runs `func` at most once per timer firing. */
  lemma {:induction false} DebounceTrailingRate<A>(d: Debounce<A>, es: seq<Event<A>>)
    requires !d.immediate
    ensures |DebounceRun(d, es).invoked| <= FireCount(es)
    decreases |es|
  {
    if es != [] {
      DebounceTrailingRate(DebounceStep(d, es[0]).state, es[1..]);
    }
  }

  /** The closure returned by `debounce(func, wait, immediate)`. */
  class Debounced<A> {
    const immediate: bool
    var pending: Pending<A>
    /** The arguments of every invocation of `func` so far. */
    var invoked: seq<A>

    constructor (immediateMode: bool)
      ensures immediate == immediateMode && pending == NoTimer && invoked == []
    {
      immediate := immediateMode;
      pending := NoTimer;
      invoked := [];
    }

    /** `executedFunction(...args)`. */
    method Invoke(args: A)
      modifies this
      ensures var o := DebounceStep(Debounce(immediate, old(pending)), Called(args));
        pending == o.state.pending && invoked == old(invoked) + o.invoked
      ensures pending == Timer(args)
    {
      var callNow := immediate && pending.NoTimer?;
      pending := Timer(args);
      if callNow {
        invoked := invoked + [args];
      }
    }

    /** The pending `wait` timer fires (`later`). */
    method TimerElapsed()
      requires pending.Timer?
      modifies this
      ensures var o := DebounceStep(Debounce(immediate, old(pending)), Elapsed);
        pending == o.state.pending && invoked == old(invoked) + o.invoked
      ensures pending == NoTimer
    {
      var a := pending.args;
      pending := NoTimer;
      if !immediate {
        invoked := invoked + [a];
      }
    }
  }
}
