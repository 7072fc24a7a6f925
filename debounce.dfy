/**
 * The stoppable debounce filter (`debounceFilter` and `useDebounceFnStoppable`).
 *
 * Time is a sequence of discrete events: a call of the filter, the regular timer
 * firing, the max-wait timer firing, and `cancel`. Every call gets a promise,
 * recorded by its index; `invoke` of call `k` is abstracted as the value `calls[k]`
 * it returns, and `invoked` logs whose `invoke` ran, in order. A timer handle is
 * the index of the call that scheduled it; `lastRejector` and `lastInvoker` are
 * the index of the call whose settle function or `invoke` they hold (`None` is `noop`).
 */
module Debounce {
  import opened Common

  /** The state of one promise handed to a caller. */
  datatype Promise<+V> = Pending | Resolved(value: V) | ResolvedNoValue | Rejected

  /** `ms` and the `maxWait`/`rejectOnCancel` options, read as constants. */
  datatype Config = Config(delay: int, maxWait: Option<int>, rejectOnCancel: bool)

  /** The closure variables of the filter, plus the history of calls and their promises. */
  datatype FilterState<+V> = FilterState(
    timer: Option<nat>,          // `timer`: the last regular timer; never reset to undefined
    timerLive: bool,             // whether that timer is still scheduled
    maxTimer: Option<nat>,       // `maxTimer`: the scheduled max timer, holding the call whose `resolve` it captured
    lastRejector: Option<nat>,
    lastInvoker: Option<nat>,
    calls: seq<V>,
    promises: seq<Promise<V>>,
    invoked: seq<nat>)

  function Initial<V>(): (s: FilterState<V>)
    ensures s.calls == [] && s.promises == [] && s.invoked == []
    ensures !s.timerLive && s.maxTimer.None? && s.lastRejector.None?
  {
    FilterState(None, false, None, None, None, [], [], [])
  }

  /** How `lastRejector` settles a promise: `reject()` under `rejectOnCancel`, `resolve()` otherwise. */
  function NoValue<V>(cfg: Config): Promise<V>
  {
    if cfg.rejectOnCancel then Rejected else ResolvedNoValue
  }

  /** The filter invokes at once when the delay, or a given `maxWait`, is not positive. */
  predicate Bypass(cfg: Config)
  {
    cfg.delay <= 0 || (cfg.maxWait.Some? && cfg.maxWait.value <= 0)
  }

  /** Settling a promise has an effect only while it is pending. */
  function Settle<V>(promises: seq<Promise<V>>, i: nat, outcome: Promise<V>): (r: seq<Promise<V>>)
    ensures |r| == |promises|
    ensures forall j :: 0 <= j < |r| ==> r[j] == (if j == i && promises[j].Pending? then outcome else promises[j])
  {
    if i < |promises| && promises[i].Pending? then promises[i := outcome] else promises
  }

  /** `_clearTimeout` without the clearing itself: run `lastRejector`, then reset it to `noop`. */
  function RunRejector<V>(cfg: Config, s: FilterState<V>): (r: FilterState<V>)
    ensures r.lastRejector.None?
    ensures r == s.(lastRejector := None, promises := r.promises)
    ensures s.lastRejector.None? ==> r.promises == s.promises
    ensures s.lastRejector.Some? ==> r.promises == Settle(s.promises, s.lastRejector.value, NoValue(cfg))
  {
    match s.lastRejector
    case None => s
    case Some(i) => s.(promises := Settle(s.promises, i, NoValue(cfg)), lastRejector := None)
  }

  /** `if (timer) _clearTimeout(timer)`: unschedule the regular timer and run `lastRejector`. */
  function ClearRegular<V>(cfg: Config, s: FilterState<V>): FilterState<V>
  {
    if s.timer.Some? then RunRejector(cfg, s).(timerLive := false) else s
  }

  /** `if (maxTimer) _clearTimeout(maxTimer); maxTimer = null`. */
  function ClearMax<V>(cfg: Config, s: FilterState<V>): FilterState<V>
  {
    (if s.maxTimer.Some? then RunRejector(cfg, s) else s).(maxTimer := None)
  }

  /** One call of the filter with an `invoke` that returns `v`. */
  function AfterCall<V>(cfg: Config, s: FilterState<V>, v: V): (r: FilterState<V>)
    ensures r.calls == s.calls + [v] && |r.promises| == |s.promises| + 1
    ensures Bypass(cfg) ==> r.invoked == s.invoked + [|s.calls|] && r.promises[|s.promises|] == Resolved(v)
    ensures !Bypass(cfg) ==> r.invoked == s.invoked && r.timerLive && r.timer == Some(|s.calls|) && r.promises[|s.promises|] == Pending
  {
    var k := |s.calls|;
    var s1 := ClearRegular(cfg, s);
    if Bypass(cfg) then
      var s2 := if s1.maxTimer.Some? then ClearMax(cfg, s1) else s1;
      s2.(calls := s2.calls + [v], promises := s2.promises + [Resolved(v)], invoked := s2.invoked + [k])
    else
      var s2 := s1.(calls := s1.calls + [v], promises := s1.promises + [Pending], lastRejector := Some(k), lastInvoker := Some(k));
      var s3 := if cfg.maxWait.Some? && s2.maxTimer.None? then s2.(maxTimer := Some(k)) else s2;
      s3.(timer := Some(k), timerLive := true)
  }

  /** The regular timer of call `k` fires: clear the max timer, then `resolve(invoke())` for call `k`. */
  function AfterFireTimer<V>(cfg: Config, s: FilterState<V>): (r: FilterState<V>)
    requires s.timer.Some?
    ensures r.calls == s.calls && |r.promises| == |s.promises|
    ensures r.invoked == s.invoked + [s.timer.value] && !r.timerLive && r.maxTimer.None?
  {
    var k := s.timer.value;
    var s1 := ClearMax(cfg, s);
    var value := if k < |s1.calls| then Settle(s1.promises, k, Resolved(s1.calls[k])) else s1.promises;
    s1.(timerLive := false, invoked := s1.invoked + [k], promises := value)
  }

  /** The max timer fires: clear the regular timer, then resolve the first call's promise with `lastInvoker()`. */
  function AfterFireMaxTimer<V>(cfg: Config, s: FilterState<V>): (r: FilterState<V>)
    requires s.maxTimer.Some? && s.lastInvoker.Some?
    ensures r.calls == s.calls && |r.promises| == |s.promises|
    ensures r.invoked == s.invoked + [s.lastInvoker.value] && r.maxTimer.None?
  {
    var owner := s.maxTimer.value;
    var j := s.lastInvoker.value;
    var s1 := ClearRegular(cfg, s).(maxTimer := None);
    var value := if j < |s1.calls| then Settle(s1.promises, owner, Resolved(s1.calls[j])) else s1.promises;
    s1.(invoked := s1.invoked + [j], promises := value)
  }

  /** `filter.cancel()`. */
  function AfterCancel<V>(cfg: Config, s: FilterState<V>): (r: FilterState<V>)
    ensures r.calls == s.calls && |r.promises| == |s.promises| && r.invoked == s.invoked
    ensures r.maxTimer.None? && (s.timer.Some? ==> !r.timerLive)
  {
    ClearMax(cfg, ClearRegular(cfg, s))
  }

  /** A sequence of calls with no timer firing in between. */
  function AfterCalls<V>(cfg: Config, s: FilterState<V>, vs: seq<V>): FilterState<V>
    decreases |vs|
  {
    if vs == [] then s else AfterCall(cfg, AfterCalls(cfg, s, vs[..|vs| - 1]), vs[|vs| - 1])
  }

  /** The invariant every reachable state keeps. */
  predicate Valid<V>(cfg: Config, s: FilterState<V>)
  {
    && |s.promises| == |s.calls|
    && (forall n :: n in s.invoked ==> n < |s.calls|)
    && s.lastInvoker == s.timer
    && (s.timer.Some? ==> s.timer.value == |s.calls| - 1)
    && (s.timerLive ==> s.timer.Some?)
    && (s.lastRejector.Some? ==> s.lastRejector == s.timer)
    // only the call behind the scheduled regular timer can still be waiting
    && (s.timerLive ==> s.lastRejector == s.timer && s.promises[s.timer.value].Pending?)
    && (forall i :: 0 <= i < |s.promises| && s.promises[i].Pending? ==> s.timerLive && s.timer == Some(i))
    // at most one max timer, started by the first call of the burst and cleared with it
    && (s.maxTimer.Some? ==> s.timerLive && s.maxTimer.value <= s.timer.value)
    && (cfg.maxWait.None? ==> s.maxTimer.None?)
    && (cfg.maxWait.Some? ==> (s.maxTimer.Some? <==> s.timerLive))
    && (Bypass(cfg) ==> s.timer.None? && !s.timerLive)
  }

  /** A promise that has settled never changes again. */
  ghost predicate SettledKept<V>(s: FilterState<V>, t: FilterState<V>)
  {
    && |s.promises| <= |t.promises|
    && forall i :: 0 <= i < |s.promises| && !s.promises[i].Pending? ==> t.promises[i] == s.promises[i]
  }

  lemma InitialIsValid<V>(cfg: Config)
    ensures Valid(cfg, Initial<V>())
  {
  }

  /**
   * A call settles the previous caller's promise with no value (or rejects it),
   * keeps every settled promise, and either invokes at once (bypass) or schedules
   * itself behind the regular timer, starting a max timer only when none is pending.
   */
  lemma CallStep<V>(cfg: Config, s: FilterState<V>, v: V)
    requires Valid(cfg, s)
    ensures var t := AfterCall(cfg, s, v); var k := |s.calls|;
      && Valid(cfg, t)
      && SettledKept(s, t)
      && t.calls == s.calls + [v]
      && (forall i :: 0 <= i < k ==> t.promises[i] == (if s.promises[i].Pending? then NoValue(cfg) else s.promises[i]))
      && (Bypass(cfg) ==> t.promises[k] == Resolved(v) && t.invoked == s.invoked + [k] && !t.timerLive && t.maxTimer.None?)
      && (!Bypass(cfg) ==> t.promises[k].Pending? && t.invoked == s.invoked && t.timerLive && t.timer == Some(k) && t.lastInvoker == Some(k))
      && (!Bypass(cfg) && s.maxTimer.Some? ==> t.maxTimer == s.maxTimer)
      && (!Bypass(cfg) && cfg.maxWait.Some? && s.maxTimer.None? ==> t.maxTimer == Some(k))
  {
    var t := AfterCall(cfg, s, v);
    var k := |s.calls|;
    var s1 := ClearRegular(cfg, s);
    assert forall i :: 0 <= i < k ==> s1.promises[i] == (if s.promises[i].Pending? then NoValue(cfg) else s.promises[i]);
    assert forall i :: 0 <= i < k ==> !s1.promises[i].Pending?;
    if Bypass(cfg) {
      assert s.maxTimer.None?;
    }
  }

  /**
   * A call taking the bypass while a max timer is still scheduled (reachable in the
   * source when `ms` or `maxWait` change between calls) clears that max timer, runs
   * `lastRejector` on the promise it holds, and invokes the new call at once.
   */
  lemma BypassClearsMaxTimer<V>(cfg: Config, s: FilterState<V>, v: V)
    requires Bypass(cfg) && s.maxTimer.Some?
    ensures var t := AfterCall(cfg, s, v);
      && t.maxTimer.None? && t.lastRejector.None?
      && t.invoked == s.invoked + [|s.calls|]
      && t.promises[|s.promises|] == Resolved(v)
      && (s.lastRejector.Some? && s.lastRejector.value < |s.promises| ==> !t.promises[s.lastRejector.value].Pending?)
  {
    var s1 := ClearRegular(cfg, s);
    if s.lastRejector.Some? && s.lastRejector.value < |s.promises| {
      var i := s.lastRejector.value;
      if s.timer.Some? {
        assert !s1.promises[i].Pending?;
      } else {
        assert s1 == s;
        assert !ClearMax(cfg, s1).promises[i].Pending?;
      }
    }
  }

  /**
   * The regular timer fires: the call that scheduled it is invoked. Its promise gets
   * the result only when no max timer was pending; otherwise clearing the max timer
   * has already settled it with no value (or rejected it).
   */
  lemma FireTimerStep<V>(cfg: Config, s: FilterState<V>)
    requires Valid(cfg, s) && s.timerLive
    ensures var t := AfterFireTimer(cfg, s); var k := s.timer.value;
      && Valid(cfg, t)
      && SettledKept(s, t)
      && t.calls == s.calls
      && t.invoked == s.invoked + [k]
      && !t.timerLive && t.maxTimer.None?
      && (s.maxTimer.None? ==> t.promises[k] == Resolved(s.calls[k]))
      && (s.maxTimer.Some? ==> t.promises[k] == NoValue(cfg))
      && (forall i :: 0 <= i < |t.promises| ==> !t.promises[i].Pending?)
  {
    var k := s.timer.value;
    var s1 := ClearMax(cfg, s);
    assert s1.calls == s.calls;
    if s.maxTimer.Some? {
      assert s1.promises[k] == NoValue(cfg);
    } else {
      assert s1.promises == s.promises;
    }
  }

  /**
   * The max timer fires: `lastInvoker`, the most recent call's `invoke`, runs; clearing
   * the regular timer has already settled that call's promise with no value, so the
   * result is lost.
   */
  lemma FireMaxTimerStep<V>(cfg: Config, s: FilterState<V>)
    requires Valid(cfg, s) && s.maxTimer.Some?
    ensures s.lastInvoker.Some?
    ensures var t := AfterFireMaxTimer(cfg, s); var j := s.lastInvoker.value;
      && Valid(cfg, t)
      && SettledKept(s, t)
      && t.calls == s.calls
      && t.invoked == s.invoked + [j]
      && j == |s.calls| - 1
      && t.promises[j] == NoValue(cfg)
      && !t.timerLive && t.maxTimer.None?
      && (forall i :: 0 <= i < |t.promises| ==> !t.promises[i].Pending?)
  {
    var j := s.lastInvoker.value;
    var s1 := ClearRegular(cfg, s).(maxTimer := None);
    assert s1.promises[j] == NoValue(cfg);
    assert forall i :: 0 <= i < |s1.promises| ==> !s1.promises[i].Pending?;
  }

  /** `cancel()` invokes nothing, leaves no timer scheduled and no promise pending. */
  lemma CancelStep<V>(cfg: Config, s: FilterState<V>)
    requires Valid(cfg, s)
    ensures var t := AfterCancel(cfg, s);
      && Valid(cfg, t)
      && SettledKept(s, t)
      && t.calls == s.calls && t.invoked == s.invoked
      && !t.timerLive && t.maxTimer.None?
      && (forall i :: 0 <= i < |t.promises| ==> t.promises[i] == (if s.promises[i].Pending? then NoValue(cfg) else s.promises[i]))
  {
    var s1 := ClearRegular(cfg, s);
    assert forall i :: 0 <= i < |s1.promises| ==> !s1.promises[i].Pending?;
  }

  /**
   * The state `b` after a burst `vs` of calls from `s`, with no firing in between: each
   * call has settled its predecessor with no value (or rejected it), only the last one
   * stays pending behind the regular timer, nothing is invoked, and the max timer, if
   * `maxWait` is set, is the one started by the first call of the burst.
   */
  ghost predicate BurstOutcome<V>(cfg: Config, s: FilterState<V>, vs: seq<V>, b: FilterState<V>)
    requires |vs| >= 1
  {
    var n := |s.calls|;
    var last := n + |vs| - 1;
    && |s.promises| == n
    && Valid(cfg, b)
    && b.calls == s.calls + vs
    && b.invoked == s.invoked
    && b.timerLive && b.timer == Some(last)
    && (forall i :: 0 <= i < n ==> b.promises[i] == (if s.promises[i].Pending? then NoValue(cfg) else s.promises[i]))
    && (forall i :: n <= i < last ==> b.promises[i] == NoValue(cfg))
    && b.promises[last].Pending?
    && (cfg.maxWait.Some? ==> b.maxTimer == (if s.maxTimer.Some? then s.maxTimer else Some(n)))
  }

  /** One more call extends a burst. */
  lemma BurstExtend<V>(cfg: Config, s: FilterState<V>, vs: seq<V>, b: FilterState<V>, v: V)
    requires !Bypass(cfg) && |vs| >= 1 && BurstOutcome(cfg, s, vs, b)
    ensures BurstOutcome(cfg, s, vs + [v], AfterCall(cfg, b, v))
  {
    var n := |s.calls|;
    CallStep(cfg, b, v);
    var t := AfterCall(cfg, b, v);
    forall i | 0 <= i < n
      ensures t.promises[i] == (if s.promises[i].Pending? then NoValue(cfg) else s.promises[i])
    {
      assert !b.promises[i].Pending?;
    }
  }

  /** A burst of calls from a valid state ends in `BurstOutcome`. */
  lemma {:induction false} BurstStep<V>(cfg: Config, s: FilterState<V>, vs: seq<V>)
    requires Valid(cfg, s) && !Bypass(cfg) && |vs| >= 1
    ensures BurstOutcome(cfg, s, vs, AfterCalls(cfg, s, vs))
  {
    var prefix := vs[..|vs| - 1];
    var v := vs[|vs| - 1];
    assert prefix + [v] == vs;
    if prefix == [] {
      assert AfterCalls(cfg, s, prefix) == s;
      CallStep(cfg, s, v);
    } else {
      BurstStep(cfg, s, prefix);
      BurstExtend(cfg, s, prefix, AfterCalls(cfg, s, prefix), v);
    }
  }

  /**
   * Without `maxWait`, a burst followed by the regular timer firing yields exactly one
   * invocation, of the burst's last call, whose promise gets the result; every earlier
   * promise of the burst settles with no value (or is rejected).
   */
  lemma BurstInvokesLast<V>(cfg: Config, s: FilterState<V>, vs: seq<V>)
    requires Valid(cfg, s) && cfg.maxWait.None? && cfg.delay > 0 && |vs| >= 1
    ensures AfterCalls(cfg, s, vs).timer.Some?
    ensures var t := AfterFireTimer(cfg, AfterCalls(cfg, s, vs)); var n := |s.calls|; var last := n + |vs| - 1;
      && Valid(cfg, t)
      && t.calls == s.calls + vs
      && t.invoked == s.invoked + [last]
      && (forall i :: 0 <= i < n ==> t.promises[i] == (if s.promises[i].Pending? then NoValue(cfg) else s.promises[i]))
      && (forall i :: n <= i < last ==> t.promises[i] == NoValue(cfg))
      && t.promises[last] == Resolved(vs[|vs| - 1])
  {
    var b := AfterCalls(cfg, s, vs);
    BurstStep(cfg, s, vs);
    FireTimerStep(cfg, b);
    var t := AfterFireTimer(cfg, b);
    forall i | 0 <= i < |s.calls| + |vs| - 1
      ensures t.promises[i] == b.promises[i]
    {
      assert !b.promises[i].Pending?;
    }
  }

  /**
   * With a positive `maxWait`, whichever timer fires, the pending caller's promise
   * settles with no value (or is rejected) before `invoke()`'s result is offered, so
   * no firing ever hands a result to a caller.
   */
  lemma MaxWaitLosesResults<V>(cfg: Config, s: FilterState<V>)
    requires Valid(cfg, s) && cfg.maxWait.Some? && s.timerLive
    ensures s.timer.Some? && s.maxTimer.Some? && s.lastInvoker.Some?
    ensures var k := s.timer.value; var t := AfterFireTimer(cfg, s);
      t.invoked == s.invoked + [k] && t.promises[k] == NoValue(cfg)
      && forall i :: 0 <= i < |t.promises| && t.promises[i].Resolved? ==> s.promises[i].Resolved?
    ensures var k := s.timer.value; var t := AfterFireMaxTimer(cfg, s);
      t.invoked == s.invoked + [k] && t.promises[k] == NoValue(cfg)
      && forall i :: 0 <= i < |t.promises| && t.promises[i].Resolved? ==> s.promises[i].Resolved?
  {
    FireTimerStep(cfg, s);
    FireMaxTimerStep(cfg, s);
  }
}
