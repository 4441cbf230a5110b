/**
 * The "wait for an element" race shared by `waitForElement` (the menu wait of
 * the search toggle) and `waitForComposer`: resolve at once if the element is
 * already there; otherwise observe mutation batches and arm a timeout, and let
 * the first of "a batch finds the element" and "the timeout fires" settle the
 * promise. Time is a discrete clock in milliseconds; the page is a trace of
 * `PageEvent`s.
 */
module Wait {
  import opened Wrappers
  import opened Dom

  /**
   * The race's state: the clock, the timeout's deadline, whether the mutation
   * observer is still connected, whether the timeout is still armed, and the
   * promise (`None` while pending, `Some(r)` once resolved with `r`, where `r`
   * is the element or `None` for `null`).
   */
  datatype WaitState = WaitState(
    now: int,
    deadline: int,
    observing: bool,
    timerArmed: bool,
    settled: Option<Option<Node>>)

  /** `resolve(v)`: only the first call settles the promise. */
  function Resolve(s: WaitState, v: Option<Node>): WaitState
  {
    if s.settled.None? then s.(settled := Some(v)) else s
  }

  /** The promise executor, run at time `start` on the page `doc`. */
  function Begin(doc: Document, sel: Selector, timeoutMs: nat, start: int): WaitState
  {
    match QuerySelector(doc, sel)
    case Some(el) => WaitState(start, start, false, false, Some(Some(el)))
    case None => WaitState(start, start + timeoutMs, true, true, None)
  }

  /** The observer callback: re-query; on a hit, disconnect and resolve with the element. */
  function OnMutation(s: WaitState, sel: Selector, doc: Document): WaitState
  {
    if !s.observing then s
    else
      match QuerySelector(doc, sel)
      case Some(el) => Resolve(s.(observing := false), Some(el))
      case None => s
  }

  /** The clock moves on `ms`; the timeout, if armed and due, disconnects and resolves with `null`. */
  function OnAdvance(s: WaitState, ms: nat): WaitState
  {
    var t := s.now + ms;
    if s.timerArmed && s.deadline <= t then
      Resolve(s.(now := t, observing := false, timerArmed := false), None)
    else
      s.(now := t)
  }

  function Step(s: WaitState, sel: Selector, e: PageEvent): WaitState
  {
    match e
    case MutationBatch(doc) => OnMutation(s, sel, doc)
    case Advance(ms) => OnAdvance(s, ms)
  }

  function Run(s: WaitState, sel: Selector, es: seq<PageEvent>): WaitState
    decreases |es|
  {
    if es == [] then s else Run(Step(s, sel, es[0]), sel, es[1..])
  }

  /** The value the promise settles to after the page has gone through `es`. */
  function Outcome(doc: Document, sel: Selector, timeoutMs: nat, start: int, es: seq<PageEvent>): Option<Option<Node>>
  {
    Run(Begin(doc, sel, timeoutMs, start), sel, es).settled
  }

  /**
   * The promise is pending exactly while the observer is connected, and a
   * pending promise always has its timeout armed, not yet overdue.
   */
  ghost predicate Consistent(s: WaitState)
  {
    && (s.observing <==> s.settled.None?)
    && (s.settled.None? ==> s.timerArmed)
    && (s.timerArmed ==> s.now <= s.deadline)
  }

  /** No batch in `es` makes `sel` match. */
  ghost predicate NoMatchIn(sel: Selector, es: seq<PageEvent>)
  {
    forall i :: 0 <= i < |es| && es[i].MutationBatch? ==> QuerySelector(es[i].doc, sel).None?
  }

  lemma {:induction false} RunAppend(s: WaitState, sel: Selector, a: seq<PageEvent>, b: seq<PageEvent>)
    ensures Run(s, sel, a + b) == Run(Run(s, sel, a), sel, b)
    decreases |a|
  {
    if a == [] {
      assert a + b == b;
    } else {
      assert (a + b)[1..] == a[1..] + b;
      RunAppend(Step(s, sel, a[0]), sel, a[1..], b);
    }
  }

  /** Every step keeps the race consistent. */
  lemma {:induction false} RunKeepsConsistent(s: WaitState, sel: Selector, es: seq<PageEvent>)
    requires Consistent(s)
    ensures Consistent(Run(s, sel, es))
    decreases |es|
  {
    if es != [] {
      RunKeepsConsistent(Step(s, sel, es[0]), sel, es[1..]);
    }
  }

  /**
   * The promise settles once: after it has been resolved and the observer
   * disconnected, no later batch and no later timeout changes the value
   * (a `resolve(null)` from the timeout after a find has no effect).
   */
  lemma {:induction false} SettledStaysSettled(s: WaitState, sel: Selector, es: seq<PageEvent>)
    requires s.settled.Some? && !s.observing
    ensures Run(s, sel, es).settled == s.settled
    ensures !Run(s, sel, es).observing
    decreases |es|
  {
    if es != [] {
      SettledStaysSettled(Step(s, sel, es[0]), sel, es[1..]);
    }
  }

  /**
   * If the element is already on the page, the promise resolves with it at
   * once, no observer and no timeout are registered, and nothing afterwards
   * changes the outcome.
   */
  lemma {:induction false} PresentResolvesImmediately(doc: Document, sel: Selector, timeoutMs: nat, start: int, es: seq<PageEvent>)
    requires QuerySelector(doc, sel).Some?
    ensures var s := Begin(doc, sel, timeoutMs, start);
            s.settled == Some(QuerySelector(doc, sel)) && !s.observing && !s.timerArmed
    ensures Outcome(doc, sel, timeoutMs, start, es) == Some(QuerySelector(doc, sel))
  {
    SettledStaysSettled(Begin(doc, sel, timeoutMs, start), sel, es);
  }

  /** Batches that do not make `sel` match, before the deadline, only move the clock. */
  lemma {:induction false} QuietTraceOnlyMovesClock(s: WaitState, sel: Selector, es: seq<PageEvent>)
    requires Consistent(s) && s.settled.None?
    requires NoMatchIn(sel, es)
    requires s.now + ElapsedIn(es) < s.deadline
    ensures Run(s, sel, es) == s.(now := s.now + ElapsedIn(es))
    decreases |es|
  {
    if es != [] {
      var s' := Step(s, sel, es[0]);
      assert s' == s.(now := s.now + ElapsedIn([es[0]]));
      assert NoMatchIn(sel, es[1..]) by {
        forall i | 0 <= i < |es[1..]| && es[1..][i].MutationBatch?
          ensures QuerySelector(es[1..][i].doc, sel).None?
        {
          assert es[1..][i] == es[i + 1];
        }
      }
      QuietTraceOnlyMovesClock(s', sel, es[1..]);
    }
  }

  /**
   * The first batch that makes `sel` match, arriving before the deadline,
   * settles the promise with the element it finds and disconnects the
   * observer, whatever happens afterwards.
   */
  lemma {:induction false} FirstMatchingBatchWins(s: WaitState, sel: Selector, before: seq<PageEvent>, doc: Document, after: seq<PageEvent>)
    requires Consistent(s) && s.settled.None?
    requires NoMatchIn(sel, before)
    requires s.now + ElapsedIn(before) < s.deadline
    requires QuerySelector(doc, sel).Some?
    ensures Run(s, sel, before + [MutationBatch(doc)] + after).settled == Some(QuerySelector(doc, sel))
    ensures !Run(s, sel, before + [MutationBatch(doc)] + after).observing
  {
    QuietTraceOnlyMovesClock(s, sel, before);
    var mid := Run(s, sel, before);
    RunAppend(s, sel, before, [MutationBatch(doc)]);
    RunAppend(s, sel, before + [MutationBatch(doc)], after);
    var hit := Run(mid, sel, [MutationBatch(doc)]);
    assert hit == OnMutation(mid, sel, doc);
    SettledStaysSettled(hit, sel, after);
  }

  /**
   * If no batch ever shows the element and the clock reaches the deadline,
   * the promise resolves with `null` and the observer is disconnected.
   */
  lemma {:induction false} TimeoutResolvesNull(s: WaitState, sel: Selector, es: seq<PageEvent>)
    requires Consistent(s) && s.settled.None?
    requires NoMatchIn(sel, es)
    requires s.now < s.deadline <= s.now + ElapsedIn(es)
    ensures Run(s, sel, es).settled == Some(None)
    ensures !Run(s, sel, es).observing
    decreases |es|
  {
    var s' := Step(s, sel, es[0]);
    assert NoMatchIn(sel, es[1..]) by {
      forall i | 0 <= i < |es[1..]| && es[1..][i].MutationBatch?
        ensures QuerySelector(es[1..][i].doc, sel).None?
      {
        assert es[1..][i] == es[i + 1];
      }
    }
    if s'.settled.Some? {
      assert s'.settled == Some(None);
      SettledStaysSettled(s', sel, es[1..]);
    } else {
      TimeoutResolvesNull(s', sel, es[1..]);
    }
  }

  /**
   * The promise never stays pending past its timeout: once the clock has
   * reached the deadline it has settled, with the element or with `null`;
   * there is no rejecting path.
   */
  lemma {:induction false} SettlesByDeadline(s: WaitState, sel: Selector, es: seq<PageEvent>)
    requires Consistent(s)
    requires s.settled.None? ==> s.now < s.deadline <= s.now + ElapsedIn(es)
    ensures Run(s, sel, es).settled.Some?
    decreases |es|
  {
    if s.settled.Some? {
      SettledStaysSettled(s, sel, es);
    } else {
      var s' := Step(s, sel, es[0]);
      if s'.settled.None? {
        assert s'.now < s'.deadline;
      }
      SettlesByDeadline(s', sel, es[1..]);
    }
  }

  /**
   * The race as an object: the observer and the timeout both hold a reference
   * to it and call back into it; its fields are the state of `WaitState`.
   */
  class ElementWait {
    const selector: Selector
    var now: int
    var deadline: int
    var observing: bool
    var timerArmed: bool
    var settled: Option<Option<Node>>

    function State(): WaitState
      reads this
    {
      WaitState(now, deadline, observing, timerArmed, settled)
    }

    /** Runs the promise executor at time `start` on the page `doc`. */
    constructor (doc: Document, sel: Selector, timeoutMs: nat, start: int)
      ensures selector == sel
      ensures State() == Begin(doc, sel, timeoutMs, start)
      ensures Consistent(State())
    {
      selector := sel;
      now := start;
      var existing := QuerySelector(doc, sel);
      if existing.Some? {
        deadline, observing, timerArmed := start, false, false;
        settled := Some(existing);
      } else {
        deadline, observing, timerArmed := start + timeoutMs, true, true;
        settled := None;
      }
    }

    /** Delivers one mutation batch, after which the page is `doc`. */
    method Mutation(doc: Document)
      requires Consistent(State())
      modifies this
      ensures Consistent(State())
      ensures State() == OnMutation(old(State()), selector, doc)
    {
      if observing {
        var el := QuerySelector(doc, selector);
        if el.Some? {
          observing := false;
          if settled.None? {
            settled := Some(el);
          }
        }
      }
    }

    /** Moves the clock on by `ms`, firing the timeout when it falls due. */
    method Tick(ms: nat)
      requires Consistent(State())
      modifies this
      ensures Consistent(State())
      ensures State() == OnAdvance(old(State()), ms)
    {
      now := now + ms;
      if timerArmed && deadline <= now {
        observing := false;
        timerArmed := false;
        if settled.None? {
          settled := Some(None);
        }
      }
    }
  }
}
