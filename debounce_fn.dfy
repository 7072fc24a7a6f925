/**
 * The filter object and the debounced function as stateful objects: the closure
 * variables of `debounceFilter` become fields that its methods reassign, each method
 * proved to take the state to the matching step function of `Debounce`.
 */
module DebounceFn {
  import opened Common
  import opened Debounce

  /** The closure `debounceFilter(ms, options)` returns, with its `cancel`. */
  class DebounceFilter<V> {
    const config: Config
    var timer: Option<nat>
    var timerLive: bool
    var maxTimer: Option<nat>
    var lastRejector: Option<nat>
    var lastInvoker: Option<nat>
    var calls: seq<V>
    var promises: seq<Promise<V>>
    var invoked: seq<nat>

    function State(): FilterState<V>
      reads this
    {
      FilterState(timer, timerLive, maxTimer, lastRejector, lastInvoker, calls, promises, invoked)
    }

    predicate Valid()
      reads this
    {
      Debounce.Valid(config, State())
    }

    constructor(config: Config)
      ensures this.config == config
      ensures State() == Initial()
      ensures Valid()
    {
      this.config := config;
      timer := None;
      timerLive := false;
      maxTimer := None;
      lastRejector := None;
      lastInvoker := None;
      calls := [];
      promises := [];
      invoked := [];
    }

    /** `_clearTimeout`'s bookkeeping: run `lastRejector`, then reset it to `noop`. */
    method RunLastRejector()
      modifies this
      ensures State() == RunRejector(config, old(State()))
    {
      if lastRejector.Some? {
        var i := lastRejector.value;
        if i < |promises| && promises[i].Pending? {
          promises := promises[i := NoValue(config)];
        }
      }
      lastRejector := None;
    }

    /** `if (timer) _clearTimeout(timer)`. */
    method ClearRegularTimer()
      modifies this
      ensures State() == ClearRegular(config, old(State()))
    {
      if timer.Some? {
        RunLastRejector();
        timerLive := false;
      }
    }

    /** `if (maxTimer) _clearTimeout(maxTimer); maxTimer = null`. */
    method ClearMaxTimer()
      modifies this
      ensures State() == ClearMax(config, old(State()))
    {
      if maxTimer.Some? {
        RunLastRejector();
      }
      maxTimer := None;
    }

    /** A promise's `resolve` or `reject`, which has an effect only while it is pending. */
    method SettlePromise(i: nat, outcome: Promise<V>)
      modifies this
      ensures State() == old(State()).(promises := Settle(old(promises), i, outcome))
    {
      if i < |promises| && promises[i].Pending? {
        promises := promises[i := outcome];
      }
    }

    /** The filter applied to an `invoke` returning `v`; `k` is the index of the promise handed back. */
    method Call(v: V) returns (k: nat)
      requires Valid()
      modifies this
      ensures Valid()
      ensures State() == AfterCall(config, old(State()), v)
      ensures k == old(|calls|) && k < |promises|
    {
      CallStep(config, State(), v);
      k := |calls|;
      ClearRegularTimer();
      if Bypass(config) {
        ClearMaxTimer();
        calls := calls + [v];
        promises := promises + [Resolved(v)];
        invoked := invoked + [k];
      } else {
        calls := calls + [v];
        promises := promises + [Pending];
        lastRejector := Some(k);
        lastInvoker := Some(k);
        if config.maxWait.Some? && maxTimer.None? {
          maxTimer := Some(k);
        }
        timer := Some(k);
        timerLive := true;
      }
    }

    /** The regular timer's callback: clear the max timer, then `resolve(invoke())`. */
    method FireTimer()
      requires Valid() && timerLive
      modifies this
      ensures Valid()
      ensures State() == AfterFireTimer(config, old(State()))
    {
      FireTimerStep(config, State());
      var k := timer.value;
      ClearMaxTimer();
      SettlePromise(k, Resolved(calls[k]));
      invoked := invoked + [k];
      timerLive := false;
    }

    /** The max timer's callback: clear the regular timer, then `resolve(lastInvoker())` for the burst's first call. */
    method FireMaxTimer()
      requires Valid() && maxTimer.Some?
      modifies this
      ensures Valid()
      ensures State() == AfterFireMaxTimer(config, old(State()))
    {
      FireMaxTimerStep(config, State());
      var owner := maxTimer.value;
      var j := lastInvoker.value;
      ClearRegularTimer();
      maxTimer := None;
      SettlePromise(owner, Resolved(calls[j]));
      invoked := invoked + [j];
    }

    /** `filter.cancel`. */
    method Cancel()
      requires Valid()
      modifies this
      ensures Valid()
      ensures State() == AfterCancel(config, old(State()))
    {
      CancelStep(config, State());
      ClearRegularTimer();
      ClearMaxTimer();
    }
  }

  /** `useDebounceFnStoppable(fn, ms, options)`: the wrapped function and its `cancel`. */
  class DebouncedFunction<V> {
    const filter: DebounceFilter<V>

    constructor(config: Config)
      ensures fresh(filter) && filter.config == config
      ensures filter.State() == Initial() && filter.Valid()
    {
      filter := new DebounceFilter(config);
    }

    /** A call of the wrapped function passes through the filter. */
    method Call(v: V) returns (k: nat)
      requires filter.Valid()
      modifies filter
      ensures filter.Valid()
      ensures filter.State() == AfterCall(filter.config, old(filter.State()), v)
      ensures k == old(|filter.calls|)
    {
      k := filter.Call(v);
    }

    /** `wrapped.cancel` delegates to the filter's `cancel`. */
    method Cancel()
      requires filter.Valid()
      modifies filter
      ensures filter.Valid()
      ensures filter.State() == AfterCancel(filter.config, old(filter.State()))
    {
      filter.Cancel();
    }
  }

  /**
   * Three quick calls and then the delay elapsing: only the third call's `invoke`
   * runs, the first two promises settle with no value and the third gets the result.
   */
  method BurstScenario() returns (invoked: seq<nat>, promises: seq<Promise<int>>)
    ensures invoked == [2]
    ensures promises == [ResolvedNoValue, ResolvedNoValue, Resolved(30)]
  {
    var f := new DebouncedFunction<int>(Config(100, None, false));
    var a := f.Call(10);
    var b := f.Call(20);
    var c := f.Call(30);
    assert a == 0 && b == 1 && c == 2;
    ThreeCalls(f.filter.config);
    BurstInvokesLast(f.filter.config, Initial<int>(), [10, 20, 30]);
    f.filter.FireTimer();
    invoked := f.filter.invoked;
    promises := f.filter.promises;
    assert |promises| == 3;
  }

  /** Unfolds `AfterCalls` over the scenario's three arguments, so that BurstInvokesLast speaks of the three method calls. */
  lemma ThreeCalls(cfg: Config)
    ensures AfterCalls(cfg, Initial<int>(), [10, 20, 30])
            == AfterCall(cfg, AfterCall(cfg, AfterCall(cfg, Initial<int>(), 10), 20), 30)
  {
    assert [10, 20, 30][..2] == [10, 20];
    assert [10, 20][..1] == [10];
    assert [10][..0] == [];
  }

  /**
   * With `maxWait`, two calls and then the max timer firing: the second call's `invoke`
   * runs, yet both promises settle with no value.
   */
  method MaxWaitScenario() returns (invoked: seq<nat>, promises: seq<Promise<int>>)
    ensures invoked == [1]
    ensures promises == [ResolvedNoValue, ResolvedNoValue]
  {
    var f := new DebouncedFunction<int>(Config(100, Some(250), false));
    var a := f.Call(10);
    var b := f.Call(20);
    assert a == 0 && b == 1;
    f.filter.FireMaxTimer();
    invoked := f.filter.invoked;
    promises := f.filter.promises;
  }
}
