/**
 * The composer watcher: `debounce`, the long-lived composer observer that
 * triggers the debounced callback on every mutation batch in which the
 * composer's "+" button is on the page, and `waitForComposer`, the one-shot
 * race of the `Wait` module on the same selector. Time is a discrete clock in
 * milliseconds and the page a trace of `PageEvent`s; the callback's runs are
 * recorded as the times at which it fired.
 */
module DomObserver {
  import opened Wrappers
  import opened Dom
  import Wait

  const ComposerSelector: Selector := AttributeEquals("data-testid", "composer-plus-btn")
  const DebounceDelayMs: nat := 500
  const ComposerTimeoutMs: nat := 10000

  predicate ComposerPresent(doc: Document)
  {
    QuerySelector(doc, ComposerSelector).Some?
  }

  /** `waitForComposer(timeoutMs)` started at `start`, after the page has gone through `es`. */
  function WaitForComposer(doc: Document, timeoutMs: nat, start: int, es: seq<PageEvent>): Option<Option<Node>>
  {
    Wait.Outcome(doc, ComposerSelector, timeoutMs, start, es)
  }

  /** A composer that appears in a batch before the timeout is the element delivered. */
  lemma {:induction false} ComposerAppearsInTime(doc: Document, timeoutMs: nat, start: int, before: seq<PageEvent>, composerDoc: Document, after: seq<PageEvent>)
    requires !ComposerPresent(doc)
    requires Wait.NoMatchIn(ComposerSelector, before)
    requires ElapsedIn(before) < timeoutMs
    requires ComposerPresent(composerDoc)
    ensures WaitForComposer(doc, timeoutMs, start, before + [MutationBatch(composerDoc)] + after)
            == Some(QuerySelector(composerDoc, ComposerSelector))
  {
    Wait.FirstMatchingBatchWins(Wait.Begin(doc, ComposerSelector, timeoutMs, start), ComposerSelector, before, composerDoc, after);
  }

  /**
   * With the default ten-second timeout, a composer that has not appeared by
   * then is given up on: the wait delivers `null`.
   */
  lemma {:induction false} ComposerGivenUpAfterTimeout(doc: Document, start: int, es: seq<PageEvent>)
    requires !ComposerPresent(doc)
    requires Wait.NoMatchIn(ComposerSelector, es)
    requires ComposerTimeoutMs <= ElapsedIn(es)
    ensures WaitForComposer(doc, ComposerTimeoutMs, start, es) == Some(None)
  {
    Wait.TimeoutResolvesNull(Wait.Begin(doc, ComposerSelector, ComposerTimeoutMs, start), ComposerSelector, es);
  }

  /** The one timer a debounced function holds: none, or one due at `deadline`. */
  datatype Timer = Idle | Armed(deadline: int)

  /** The clock, the pending timer, and the times at which the wrapped callback ran. */
  datatype DebounceState = DebounceState(now: int, timer: Timer, fired: seq<int>)

  /** A call of the debounced function: clear the pending timer and arm a new one `delay` from now. */
  function Trigger(s: DebounceState, delay: nat): DebounceState
  {
    s.(timer := Armed(s.now + delay))
  }

  /** The clock moves on `ms`; a pending timer that falls due runs the callback at its deadline. */
  function Elapse(s: DebounceState, ms: nat): DebounceState
  {
    var t := s.now + ms;
    match s.timer
    case Armed(d) => if d <= t then DebounceState(t, Idle, s.fired + [d]) else s.(now := t)
    case Idle => s.(now := t)
  }

  /** The observer's state: connected or disconnected, and its debounced callback. */
  datatype ObserverState = ObserverState(connected: bool, debounce: DebounceState)

  /** One page event as the composer observer sees it. */
  function Observe(s: ObserverState, e: PageEvent, delay: nat): ObserverState
  {
    match e
    case MutationBatch(doc) =>
      if s.connected && ComposerPresent(doc) then s.(debounce := Trigger(s.debounce, delay)) else s
    case Advance(ms) => s.(debounce := Elapse(s.debounce, ms))
  }

  function Run(s: ObserverState, es: seq<PageEvent>, delay: nat): ObserverState
    decreases |es|
  {
    if es == [] then s else Run(Observe(s, es[0], delay), es[1..], delay)
  }

  lemma {:induction false} RunAppend(s: ObserverState, a: seq<PageEvent>, b: seq<PageEvent>, delay: nat)
    ensures Run(s, a + b, delay) == Run(Run(s, a, delay), b, delay)
    decreases |a|
  {
    if a == [] {
      assert a + b == b;
    } else {
      assert (a + b)[1..] == a[1..] + b;
      RunAppend(Observe(s, a[0], delay), a[1..], b, delay);
    }
  }

  /**
   * Callbacks are spaced: each ran at least `delay` after the previous one, none
   * lies in the future, and the pending timer is due within `delay` from now
   * and at least `delay` after the last run.
   */
  ghost predicate Spaced(s: DebounceState, delay: nat)
  {
    && (forall i :: 0 < i < |s.fired| ==> s.fired[i - 1] + delay <= s.fired[i])
    && (|s.fired| > 0 ==> s.fired[|s.fired| - 1] <= s.now)
    && (s.timer.Armed? ==> s.now < s.timer.deadline <= s.now + delay)
    && (s.timer.Armed? && |s.fired| > 0 ==> s.fired[|s.fired| - 1] + delay <= s.timer.deadline)
  }

  /**
   * However the page mutates and the clock moves, the callback never runs
   * twice within one debounce window: triggers inside the window collapse.
   */
  lemma {:induction false} CallbacksStaySpaced(s: ObserverState, es: seq<PageEvent>, delay: nat)
    requires delay > 0
    requires Spaced(s.debounce, delay)
    ensures Spaced(Run(s, es, delay).debounce, delay)
    decreases |es|
  {
    if es != [] {
      var s' := Observe(s, es[0], delay);
      assert Spaced(s'.debounce, delay);
      CallbacksStaySpaced(s', es[1..], delay);
    }
  }

  /** Total waiting time of a burst: the sum of its gaps. */
  function Span(batches: seq<(nat, Document)>): nat
  {
    if batches == [] then 0 else batches[0].0 + Span(batches[1..])
  }

  /** After a first trigger, for each `(gap, page)`: wait `gap`, then a batch leaves the page as `page`. */
  function Retriggers(batches: seq<(nat, Document)>): seq<PageEvent>
  {
    if batches == [] then [] else [Advance(batches[0].0), MutationBatch(batches[0].1)] + Retriggers(batches[1..])
  }

  /** Every gap is shorter than the window and every page shows the composer. */
  ghost predicate CloseComposerBatches(batches: seq<(nat, Document)>, delay: nat)
  {
    forall i :: 0 <= i < |batches| ==> batches[i].0 < delay && ComposerPresent(batches[i].1)
  }

  /** While each gap is shorter than the window, re-triggering only pushes the deadline on. */
  lemma {:induction false} RetriggersPostpone(s: ObserverState, batches: seq<(nat, Document)>, delay: nat)
    requires s.connected
    requires s.debounce.timer == Armed(s.debounce.now + delay)
    requires CloseComposerBatches(batches, delay)
    ensures var r := Run(s, Retriggers(batches), delay);
            r == s.(debounce := DebounceState(s.debounce.now + Span(batches),
                                              Armed(s.debounce.now + Span(batches) + delay),
                                              s.debounce.fired))
    decreases |batches|
  {
    if batches != [] {
      var (gap, doc) := batches[0];
      assert gap < delay && ComposerPresent(doc);
      var pair := [Advance(gap), MutationBatch(doc)];
      RunAppend(s, pair, Retriggers(batches[1..]), delay);
      var s' := Run(s, pair, delay);
      var advanced := Observe(s, Advance(gap), delay);
      assert advanced.debounce == s.debounce.(now := s.debounce.now + gap);
      assert pair[1..] == [MutationBatch(doc)] && pair[1..][1..] == [];
      assert s' == Run(advanced, [MutationBatch(doc)], delay);
      var triggered := Observe(advanced, MutationBatch(doc), delay);
      assert s' == Run(triggered, [], delay);
      assert s' == s.(debounce := DebounceState(s.debounce.now + gap,
                                                Armed(s.debounce.now + gap + delay),
                                                s.debounce.fired));
      assert CloseComposerBatches(batches[1..], delay) by {
        forall i | 0 <= i < |batches[1..]|
          ensures batches[1..][i].0 < delay && ComposerPresent(batches[1..][i].1)
        {
          assert batches[1..][i] == batches[i + 1];
        }
      }
      RetriggersPostpone(s', batches[1..], delay);
    }
  }

  /** A timer due exactly one window from now runs the callback when the clock moves on by the window. */
  lemma {:induction false} WindowElapses(b: ObserverState, delay: nat)
    requires b.debounce.timer == Armed(b.debounce.now + delay)
    ensures Run(b, [Advance(delay)], delay).debounce ==
              DebounceState(b.debounce.now + delay, Idle, b.debounce.fired + [b.debounce.now + delay])
  {
    assert [Advance(delay)][1..] == [];
  }

  /**
   * A burst of mutation batches with the composer present, each within the
   * window of the previous one, runs the callback exactly once, `delay` after
   * the last batch, and not before.
   */
  lemma {:induction false} BurstFiresOnce(s: ObserverState, doc: Document, batches: seq<(nat, Document)>, delay: nat)
    requires s.connected && ComposerPresent(doc)
    requires CloseComposerBatches(batches, delay)
    ensures var last := s.debounce.now + Span(batches);
            var burst := Run(s, [MutationBatch(doc)] + Retriggers(batches), delay);
            && burst.debounce.fired == s.debounce.fired
            && burst.debounce.timer == Armed(last + delay)
            && Run(burst, [Advance(delay)], delay).debounce.fired == s.debounce.fired + [last + delay]
            && Run(burst, [Advance(delay)], delay).debounce.timer == Idle
  {
    var events := [MutationBatch(doc)] + Retriggers(batches);
    RunAppend(s, [MutationBatch(doc)], Retriggers(batches), delay);
    var first := Run(s, [MutationBatch(doc)], delay);
    assert [MutationBatch(doc)][1..] == [];
    assert first == s.(debounce := Trigger(s.debounce, delay));
    RetriggersPostpone(first, batches, delay);
    var burst := Run(s, events, delay);
    WindowElapses(burst, delay);
  }

  /** No batch in `es` has the composer on the page. */
  ghost predicate ComposerAbsentIn(es: seq<PageEvent>)
  {
    forall i :: 0 <= i < |es| && es[i].MutationBatch? ==> !ComposerPresent(es[i].doc)
  }

  /** Mutation batches without the composer never schedule the callback. */
  lemma {:induction false} AbsentComposerNeverSchedules(s: ObserverState, es: seq<PageEvent>, delay: nat)
    requires s.debounce.timer == Idle
    requires ComposerAbsentIn(es)
    ensures Run(s, es, delay).debounce.timer == Idle
    ensures Run(s, es, delay).debounce.fired == s.debounce.fired
    decreases |es|
  {
    if es != [] {
      assert ComposerAbsentIn(es[1..]) by {
        forall i | 0 <= i < |es[1..]| && es[1..][i].MutationBatch?
          ensures !ComposerPresent(es[1..][i].doc)
        {
          assert es[1..][i] == es[i + 1];
        }
      }
      AbsentComposerNeverSchedules(Observe(s, es[0], delay), es[1..], delay);
    }
  }

  /** `observer.disconnect()`: later batches are no longer seen. */
  function Disconnected(s: ObserverState): ObserverState
  {
    s.(connected := false)
  }

  /**
   * After `disconnect()` no batch triggers the callback any more, but a timer
   * armed before the disconnect is not cleared: it still runs the callback
   * once, at its deadline, if the clock gets there.
   */
  lemma {:induction false} DisconnectLeavesPendingTimer(s: ObserverState, es: seq<PageEvent>, delay: nat)
    requires !s.connected
    requires s.debounce.timer.Armed? ==> s.debounce.now < s.debounce.timer.deadline
    ensures !Run(s, es, delay).connected
    ensures Run(s, es, delay).debounce.fired ==
              s.debounce.fired
              + (if s.debounce.timer.Armed? && s.debounce.timer.deadline <= s.debounce.now + ElapsedIn(es)
                 then [s.debounce.timer.deadline] else [])
    decreases |es|
  {
    if es != [] {
      var s' := Observe(s, es[0], delay);
      DisconnectLeavesPendingTimer(s', es[1..], delay);
      assert Run(s, es, delay) == Run(s', es[1..], delay);
      var before := s.debounce;
      match es[0]
      case MutationBatch(_) =>
        assert s'.debounce == before;
        assert ElapsedIn(es) == ElapsedIn(es[1..]);
      case Advance(ms) =>
        assert ElapsedIn(es) == ms + ElapsedIn(es[1..]);
        if before.timer.Armed? && before.timer.deadline <= before.now + ms {
          assert s'.debounce.fired == before.fired + [before.timer.deadline];
          assert s'.debounce.timer == Idle;
        } else {
          assert s'.debounce.fired == before.fired;
          assert s'.debounce.timer == before.timer;
        }
    }
  }

  /**
   * The disposal the observer's callers rely on: besides disconnecting, the
   * pending debounce timer is cleared, as `clearTimeout` on the closure's
   * timer id would.
   */
  function Disposed(s: ObserverState): ObserverState
  {
    s.(connected := false, debounce := s.debounce.(timer := Idle))
  }

  /** After `Disposed`, no trace ever runs the callback again. */
  lemma {:induction false} DisposeStopsCallbacks(s: ObserverState, es: seq<PageEvent>, delay: nat)
    requires !s.connected && s.debounce.timer == Idle
    ensures Run(s, es, delay).debounce.fired == s.debounce.fired
    ensures Run(s, es, delay).debounce.timer == Idle
    decreases |es|
  {
    if es != [] {
      DisposeStopsCallbacks(Observe(s, es[0], delay), es[1..], delay);
    }
  }

  /** A page with the composer "+" button on it and nothing else. */
  const ComposerPage: Document :=
    Document([Node(0, "button", map["data-testid" := "composer-plus-btn"], "+")])

  /**
   * The disagreement on one input: a composer batch at 0 ms, `disconnect()` at
   * 100 ms, then 400 ms more. As written, the callback still runs at 500 ms;
   * with `Disposed` in place of `Disconnected` it never runs.
   */
  lemma DisconnectStillFires()
    ensures var armed := Run(ObserverState(true, DebounceState(0, Idle, [])),
                             [MutationBatch(ComposerPage), Advance(100)], DebounceDelayMs);
            && Run(Disconnected(armed), [Advance(400)], DebounceDelayMs).debounce.fired == [500]
            && Run(Disposed(armed), [Advance(400)], DebounceDelayMs).debounce.fired == []
  {
    assert ComposerPresent(ComposerPage) by {
      assert Matches(ComposerPage.nodes[0], ComposerSelector);
      assert FirstIndex(ComposerPage.nodes, n => Matches(n, ComposerSelector)) == Some(0);
    }
    var s0 := ObserverState(true, DebounceState(0, Idle, []));
    var trace := [MutationBatch(ComposerPage), Advance(100)];
    var s1 := Observe(s0, MutationBatch(ComposerPage), DebounceDelayMs);
    assert s1.debounce == DebounceState(0, Armed(500), []);
    assert trace[1..] == [Advance(100)] && trace[1..][1..] == [];
    var armed := Run(s0, trace, DebounceDelayMs);
    assert armed == Run(s1, [Advance(100)], DebounceDelayMs);
    assert armed == Run(Observe(s1, Advance(100), DebounceDelayMs), [], DebounceDelayMs);
    assert armed.debounce == DebounceState(100, Armed(500), []);
    assert [Advance(400)][1..] == [];
    assert Run(Disconnected(armed), [Advance(400)], DebounceDelayMs).debounce == DebounceState(500, Idle, [500]);
    assert Run(Disposed(armed), [Advance(400)], DebounceDelayMs).debounce == DebounceState(500, Idle, []);
  }

  /**
   * `debounce(fn, delay)`: the closure's one timer id becomes the `timer`
   * field; the callback's runs are logged in `fired`.
   */
  class Debouncer {
    const delay: nat
    var now: int
    var timer: Timer
    var fired: seq<int>

    function State(): DebounceState
      reads this
    {
      DebounceState(now, timer, fired)
    }

    constructor (delay: nat, start: int)
      ensures this.delay == delay
      ensures State() == DebounceState(start, Idle, [])
    {
      this.delay := delay;
      now := start;
      timer := Idle;
      fired := [];
    }

    /** The debounced function: clear any pending timer, then arm a fresh one. */
    method Call()
      modifies this
      ensures State() == Trigger(old(State()), delay)
      ensures timer == Armed(now + delay)
    {
      timer := Armed(now + delay);
    }

    /** `clearTimeout` on the pending timer. */
    method Cancel()
      modifies this
      ensures State() == old(State()).(timer := Idle)
    {
      timer := Idle;
    }

    /** The clock moves on `ms`, running the callback if its timer falls due. */
    method Tick(ms: nat)
      modifies this
      ensures State() == Elapse(old(State()), ms)
    {
      now := now + ms;
      if timer.Armed? && timer.deadline <= now {
        fired := fired + [timer.deadline];
        timer := Idle;
      }
    }
  }

  /** `createComposerObserver(callback)`: a connected observer with its own debouncer. */
  class ComposerObserver {
    const debounced: Debouncer
    var connected: bool

    ghost predicate Valid()
    {
      debounced.delay == DebounceDelayMs
    }

    function State(): ObserverState
      reads this, debounced
    {
      ObserverState(connected, debounced.State())
    }

    constructor (start: int)
      ensures Valid() && fresh(debounced)
      ensures State() == ObserverState(true, DebounceState(start, Idle, []))
    {
      debounced := new Debouncer(DebounceDelayMs, start);
      connected := true;
    }

    /** The observer callback for one mutation batch, after which the page is `doc`. */
    method Mutation(doc: Document)
      requires Valid()
      modifies debounced
      ensures Valid()
      ensures State() == Observe(old(State()), MutationBatch(doc), DebounceDelayMs)
    {
      if connected {
        var composer := QuerySelector(doc, ComposerSelector);
        if composer.Some? {
          debounced.Call();
        }
      }
    }

    /** The clock moves on `ms`. */
    method Tick(ms: nat)
      requires Valid()
      modifies debounced
      ensures Valid()
      ensures State() == Observe(old(State()), Advance(ms), DebounceDelayMs)
    {
      debounced.Tick(ms);
    }

    /** Disposal that also cancels the pending callback; safe to call again. */
    method Dispose()
      requires Valid()
      modifies this, debounced
      ensures Valid()
      ensures State() == Disposed(old(State()))
    {
      connected := false;
      debounced.Cancel();
    }

    /** `observer.disconnect()`; safe to call again. */
    method Disconnect()
      requires Valid()
      modifies this
      ensures Valid()
      ensures State() == Disconnected(old(State()))
    {
      connected := false;
    }
  }
}
