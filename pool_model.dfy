/**
 * Value-level model of the request pool of concurrent-request (index.js).
 *
 * A pool holds a count of requests in flight, a queue of attempts waiting
 * for a slot and (as bookkeeping) the multiset of attempts currently in
 * flight. The three steps of the source are modelled as functions from a
 * state to a new state plus the events the step produced, in the order the
 * code produces them:
 *   - Submit   : the function returned by Pool (push, then next)
 *   - Admit    : next, the admission / exhaustion step
 *   - Complete : done, the completion / retry step
 * The class in pool.dfy performs these steps in place and is proved equal
 * to them.
 */
module PoolModel {

  /** The options object handed to `request`; opaque to the pool. */
  type Opts = string

  /** A failure reason that the handler passes to its callback. */
  type Reason = string

  /**
   * The pool's configuration: `size` is the number of slots, 0 meaning
   * unbounded; `tries` is the total number of executions an attempt may
   * have.
   */
  datatype Config = Config(size: nat, tries: nat)

  /**
   * One submission `{opts, cb, try, e}`: `try` counts the executions that
   * have failed so far and `errors` lists their reasons in order. The user's
   * callback is identified with the attempt itself.
   */
  datatype Attempt = Attempt(opts: Opts, try: nat, errors: seq<Reason>)

  /**
   * The delay before an execution: none for a first try, otherwise the
   * interval policy consulted with the current `try` (plus jitter).
   */
  datatype Delay = Immediate | Backoff(try: nat)

  /** The handler's verdict on one execution. */
  datatype Outcome = Ok | Err(reason: Reason)

  /**
   * What a step does outside the pool's own state: start an execution after
   * a delay, call the user's callback with the accumulated errors, or call
   * it with a success.
   */
  datatype Event =
    | Dispatched(attempt: Attempt, delay: Delay)
    | Exhausted(attempt: Attempt)
    | Succeeded(attempt: Attempt)

  /**
   * `requests` is the in-flight counter, `queue` the pending attempts (head
   * first) and `inFlight` the attempts that left the queue to be executed.
   */
  datatype State = State(requests: nat, queue: seq<Attempt>, inFlight: multiset<Attempt>)

  /** The state after a step and the events it produced, in order. */
  datatype Step = Step(state: State, events: seq<Event>)

  /** An attempt as the submit function creates it. */
  function NewAttempt(opts: Opts): (a: Attempt)
    ensures a.opts == opts
    ensures forall c: Config :: Waiting(c, a)
  {
    Attempt(opts, 0, [])
  }

  /** `requests < size`, where a size of 0 stands for Infinity. */
  predicate HasRoom(c: Config, requests: nat) {
    c.size == 0 || requests < c.size
  }

  /** `requests <= size`, where a size of 0 stands for Infinity. */
  predicate WithinCapacity(c: Config, requests: nat) {
    c.size == 0 || requests <= c.size
  }

  /** The delay chosen for an attempt about to be executed. */
  function DelayFor(try: nat): (d: Delay)
    ensures d == Immediate <==> try == 0
    ensures d.Backoff? ==> d.try == try
  {
    if try == 0 then Immediate else Backoff(try)
  }

  /** The attempt that goes back to the queue after a failed execution. */
  function Retry(a: Attempt, reason: Reason): (r: Attempt)
    ensures r.opts == a.opts && r.try == a.try + 1
    ensures |r.errors| == |a.errors| + 1
    ensures r.errors[..|a.errors|] == a.errors && r.errors[|a.errors|] == reason
  {
    Attempt(a.opts, a.try + 1, a.errors + [reason])
  }

  /**
   * The admission step. With no free slot or an empty queue it does
   * nothing. Otherwise it takes the head of the queue: an attempt whose
   * budget is spent is completed with its errors, after the rest of the
   * queue has been admitted, and without taking a slot; any other attempt
   * takes a slot and is dispatched.
   */
  function Admit(c: Config, s: State): (r: Step)
    decreases |s.queue|
    ensures !HasRoom(c, s.requests) || s.queue == [] ==> r == Step(s, [])
    ensures r.state.requests == s.requests || r.state.requests == s.requests + 1
    ensures |r.state.queue| <= |s.queue|
    ensures r.state.queue == s.queue[|s.queue| - |r.state.queue|..]
    ensures forall i :: 0 <= i < |r.events| ==> !r.events[i].Succeeded?
  {
    if !HasRoom(c, s.requests) || s.queue == [] then
      Step(s, [])
    else
      var a := s.queue[0];
      if a.try >= c.tries then
        var r := Admit(c, s.(queue := s.queue[1..]));
        Step(r.state, r.events + [Exhausted(a)])
      else
        Step(State(s.requests + 1, s.queue[1..], s.inFlight + multiset{a}),
             [Dispatched(a, DelayFor(a.try))])
  }

  /** The state once the submit function has pushed a new attempt. */
  function Enqueue(s: State, opts: Opts): (r: State)
    ensures r.requests == s.requests && r.inFlight == s.inFlight
    ensures |r.queue| == |s.queue| + 1
    ensures r.queue[..|s.queue|] == s.queue && r.queue[|s.queue|] == NewAttempt(opts)
  {
    s.(queue := s.queue + [NewAttempt(opts)])
  }

  /** The submit function: push a new attempt at the back, then admit. */
  function Submit(c: Config, s: State, opts: Opts): (r: Step)
    ensures r.state.requests == s.requests || r.state.requests == s.requests + 1
    ensures |r.state.queue| <= |s.queue| + 1
  {
    Admit(c, Enqueue(s, opts))
  }

  /** The state once `done` has freed the slot of attempt `a`. */
  function Release(s: State, a: Attempt): (r: State)
    requires a in s.inFlight && 0 < s.requests
    ensures r.requests + 1 == s.requests && r.queue == s.queue
    ensures r.inFlight + multiset{a} == s.inFlight
  {
    State(s.requests - 1, s.queue, s.inFlight - multiset{a})
  }

  /**
   * The completion step for an in-flight attempt `a`. The slot is freed. On
   * success the queue is admitted and then the user's callback is called;
   * on failure the reason is recorded, the attempt goes back to the FRONT
   * of the queue and the queue is admitted.
   */
  function Complete(c: Config, s: State, a: Attempt, o: Outcome): (r: Step)
    requires a in s.inFlight && 0 < s.requests
    ensures r.state.requests + 1 == s.requests || r.state.requests == s.requests
    ensures |r.state.queue| <= |s.queue| + 1
  {
    var freed := Release(s, a);
    match o
    case Ok =>
      var r := Admit(c, freed);
      Step(r.state, r.events + [Succeeded(a)])
    case Err(reason) =>
      Admit(c, freed.(queue := [Retry(a, reason)] + freed.queue))
  }

  // ---------------------------------------------------------------------
  // The pool's invariant

  /** A queued attempt: one recorded error per failed execution, budget not exceeded. */
  predicate Waiting(c: Config, a: Attempt) {
    |a.errors| == a.try <= c.tries
  }

  /** An attempt being executed: its execution number `try + 1` is within budget. */
  predicate Running(c: Config, a: Attempt) {
    |a.errors| == a.try < c.tries
  }

  /**
   * The in-flight counter counts exactly the attempts out of the queue, it
   * never exceeds the size, and every attempt's bookkeeping agrees with the
   * budget.
   */
  ghost predicate Invariant(c: Config, s: State) {
    && s.requests == |s.inFlight|
    && WithinCapacity(c, s.requests)
    && (forall i :: 0 <= i < |s.queue| ==> Waiting(c, s.queue[i]))
    && (forall a :: a in s.inFlight ==> Running(c, a))
  }

  /** No attempt waits while a slot is free. */
  predicate Settled(c: Config, s: State) {
    !HasRoom(c, s.requests) || s.queue == []
  }

  // ---------------------------------------------------------------------
  // Admission

  /** The number of attempts at the head of `q` whose budget is spent. */
  function ExhaustedPrefix(c: Config, q: seq<Attempt>): (k: nat)
    ensures k <= |q|
    ensures forall i :: 0 <= i < k ==> q[i].try >= c.tries
    ensures k < |q| ==> q[k].try < c.tries
  {
    if q == [] || q[0].try < c.tries then 0 else 1 + ExhaustedPrefix(c, q[1..])
  }

  /**
   * The callbacks of the spent attempts `q`, in the order the recursion of
   * the admission step fires them: the last one first.
   */
  function ExhaustAll(q: seq<Attempt>): (r: seq<Event>)
    ensures |r| == |q|
    ensures forall i :: 0 <= i < |q| ==> r[i] == Exhausted(q[|q| - 1 - i])
  {
    if q == [] then [] else ExhaustAll(q[1..]) + [Exhausted(q[0])]
  }

  /**
   * What one admission step does when a slot is free, written in closed
   * form: it drops the spent attempts at the head of the queue and
   * dispatches the first attempt with budget left, if there is one. That
   * dispatch is produced first; the callbacks of the dropped attempts
   * follow, the last dropped first.
   */
  function Shape(c: Config, s: State): Step {
    var k := ExhaustedPrefix(c, s.queue);
    if k == |s.queue| then
      Step(s.(queue := []), ExhaustAll(s.queue))
    else
      Step(State(s.requests + 1, s.queue[k + 1..], s.inFlight + multiset{s.queue[k]}),
           [Dispatched(s.queue[k], DelayFor(s.queue[k].try))] + ExhaustAll(s.queue[..k]))
  }

  /** Dropping one spent head attempt from the closed form. */
  lemma ShapeDropsSpentHead(c: Config, s: State)
    requires s.queue != [] && s.queue[0].try >= c.tries
    ensures var sh := Shape(c, s.(queue := s.queue[1..]));
      Shape(c, s) == Step(sh.state, sh.events + [Exhausted(s.queue[0])])
  {
    var q := s.queue;
    var k' := ExhaustedPrefix(c, q[1..]);
    if k' < |q| - 1 {
      assert q[1..][k' + 1..] == q[k' + 2..];
    }
    assert q[..k' + 1][1..] == q[1..][..k'];
  }

  /** With a free slot, the admission step is its closed form. */
  lemma {:induction false} AdmitShape(c: Config, s: State)
    requires HasRoom(c, s.requests)
    decreases |s.queue|
    ensures Admit(c, s) == Shape(c, s)
  {
    if s.queue != [] && s.queue[0].try >= c.tries {
      AdmitShape(c, s.(queue := s.queue[1..]));
      ShapeDropsSpentHead(c, s);
    }
  }

  /**
   * At most one attempt is dispatched per admission step. The counter grows
   * exactly when a slot is free and some attempt in the queue still has
   * budget; the dispatched attempt is the first such one, and it leaves the
   * queue together with every spent attempt before it.
   */
  lemma AdmitDispatchesAtMostOne(c: Config, s: State)
    ensures var r := Admit(c, s); var k := ExhaustedPrefix(c, s.queue);
      && (r.state.requests == s.requests + 1 <==> HasRoom(c, s.requests) && k < |s.queue|)
      && (r.state.requests == s.requests + 1 ==>
            && r.state.queue == s.queue[k + 1..]
            && r.state.inFlight == s.inFlight + multiset{s.queue[k]}
            && s.queue[k].try < c.tries)
      && (r.state.requests == s.requests ==> r.state.inFlight == s.inFlight)
  {
    if HasRoom(c, s.requests) {
      AdmitShape(c, s);
    }
  }

  /** Admission keeps the invariant. */
  lemma {:induction false} AdmitPreservesInvariant(c: Config, s: State)
    requires Invariant(c, s)
    decreases |s.queue|
    ensures Invariant(c, Admit(c, s).state)
  {
    if HasRoom(c, s.requests) && s.queue != [] {
      var s' := s.(queue := s.queue[1..]);
      assert forall i :: 0 <= i < |s'.queue| ==> s'.queue[i] == s.queue[i + 1];
      if s.queue[0].try >= c.tries {
        AdmitPreservesInvariant(c, s');
      } else {
        assert Waiting(c, s.queue[0]);
      }
    }
  }

  /**
   * With at most one slot free, or at most one attempt queued, admission
   * leaves no attempt waiting beside a free slot.
   */
  lemma AdmitSettles(c: Config, s: State)
    requires !HasRoom(c, s.requests + 1) || |s.queue| <= 1
    ensures Settled(c, Admit(c, s).state)
  {
    if HasRoom(c, s.requests) {
      AdmitShape(c, s);
    }
  }

  /**
   * What the events of an execution promise: an execution is dispatched
   * only within the budget (it is execution number `try + 1 <= tries`), with
   * no delay exactly on the first try and otherwise with the current `try`;
   * an attempt completes as exhausted only with exactly `tries` errors; a
   * success comes from an execution within the budget.
   */
  predicate WithinBudget(c: Config, e: Event) {
    match e
    case Dispatched(a, d) => Running(c, a) && d == DelayFor(a.try)
    case Exhausted(a) => |a.errors| == a.try == c.tries
    case Succeeded(a) => Running(c, a)
  }

  ghost predicate AllWithinBudget(c: Config, es: seq<Event>) {
    forall i :: 0 <= i < |es| ==> WithinBudget(c, es[i])
  }

  /** Every event of an admission step from a consistent state is within budget. */
  lemma {:induction false} AdmitEvents(c: Config, s: State)
    requires Invariant(c, s)
    decreases |s.queue|
    ensures AllWithinBudget(c, Admit(c, s).events)
  {
    if HasRoom(c, s.requests) && s.queue != [] {
      var s' := s.(queue := s.queue[1..]);
      assert forall i :: 0 <= i < |s'.queue| ==> s'.queue[i] == s.queue[i + 1];
      if s.queue[0].try >= c.tries {
        AdmitEvents(c, s');
        var es := Admit(c, s').events;
        var all := es + [Exhausted(s.queue[0])];
        forall i | 0 <= i < |all| ensures WithinBudget(c, all[i]) {
          if i < |es| {
            assert all[i] == es[i];
          }
        }
      }
    }
  }

  /** The attempts that an event sequence completes (callbacks fired). */
  function Finished(events: seq<Event>): (m: multiset<Attempt>)
    ensures |m| <= |events|
  {
    if events == [] then multiset{}
    else
      var e := events[|events| - 1];
      Finished(events[..|events| - 1]) + (if e.Dispatched? then multiset{} else multiset{e.attempt})
  }

  /** The attempts that an event sequence dispatches. */
  function Started(events: seq<Event>): (m: multiset<Attempt>)
    ensures |m| <= |events|
  {
    if events == [] then multiset{}
    else
      var e := events[|events| - 1];
      Started(events[..|events| - 1]) + (if e.Dispatched? then multiset{e.attempt} else multiset{})
  }

  /** Appending one event adds at most its own attempt to the completed and dispatched ones. */
  lemma EventsSnoc(es: seq<Event>, e: Event)
    ensures Finished(es + [e]) == Finished(es) + (if e.Dispatched? then multiset{} else multiset{e.attempt})
    ensures Started(es + [e]) == Started(es) + (if e.Dispatched? then multiset{e.attempt} else multiset{})
  {
    assert (es + [e])[..|es|] == es;
  }

  /** The in-flight attempts grow by exactly the attempts an admission step dispatches. */
  lemma {:induction false} AdmitStarts(c: Config, s: State)
    decreases |s.queue|
    ensures Admit(c, s).state.inFlight == s.inFlight + Started(Admit(c, s).events)
  {
    if HasRoom(c, s.requests) && s.queue != [] {
      var a := s.queue[0];
      var s' := s.(queue := s.queue[1..]);
      if a.try >= c.tries {
        AdmitStarts(c, s');
        EventsSnoc(Admit(c, s').events, Exhausted(a));
      } else {
        EventsSnoc([], Dispatched(a, DelayFor(a.try)));
      }
    }
  }

  /**
   * Every attempt is owned by exactly one place: an attempt that leaves the
   * queue during admission either goes in flight (and is dispatched) or is
   * completed, and nothing else changes hands.
   */
  lemma {:induction false} AdmitConserves(c: Config, s: State)
    decreases |s.queue|
    ensures multiset(s.queue) + s.inFlight
         == multiset(Admit(c, s).state.queue) + Admit(c, s).state.inFlight + Finished(Admit(c, s).events)
  {
    if HasRoom(c, s.requests) && s.queue != [] {
      var a := s.queue[0];
      if a.try >= c.tries {
        var s' := s.(queue := s.queue[1..]);
        AdmitConserves(c, s');
        HeadExhausted(s.queue, s.inFlight, Admit(c, s'));
      } else {
        assert s.queue == [a] + s.queue[1..];
        EventsSnoc([], Dispatched(a, DelayFor(a.try)));
      }
    }
  }

  /**
   * A spent head attempt that is completed after the rest of the queue was
   * admitted moves from the queue to the completed attempts.
   */
  lemma HeadExhausted(q: seq<Attempt>, f: multiset<Attempt>, r: Step)
    requires q != []
    requires multiset(q[1..]) + f == multiset(r.state.queue) + r.state.inFlight + Finished(r.events)
    ensures multiset(q) + f
         == multiset(r.state.queue) + r.state.inFlight + Finished(r.events + [Exhausted(q[0])])
  {
    assert q == [q[0]] + q[1..];
    EventsSnoc(r.events, Exhausted(q[0]));
    MovedOne(multiset(q[1..]), f, multiset(r.state.queue), r.state.inFlight, Finished(r.events), q[0]);
  }

  /** Multiset arithmetic for one attempt moving out of the queue into a completion. */
  lemma MovedOne<T>(q: multiset<T>, f: multiset<T>, q': multiset<T>, f': multiset<T>, done: multiset<T>, a: T)
    requires q + f == q' + f' + done
    ensures multiset{a} + q + f == q' + f' + (done + multiset{a})
  {
    forall x ensures (multiset{a} + q + f)[x] == (q' + f' + (done + multiset{a}))[x] {
      assert (q + f)[x] == (q' + f' + done)[x];
    }
  }

  /**
   * `before` is the multiset of attempts the pool owned before a step, plus
   * any attempt the step adds; after the step each of them is queued, in
   * flight or completed by one of the step's events.
   */
  ghost predicate Conserved(before: multiset<Attempt>, r: Step) {
    before == multiset(r.state.queue) + r.state.inFlight + Finished(r.events)
  }

  // ---------------------------------------------------------------------
  // Submission

  /** Submission adds exactly the new attempt to what the pool owns or completes. */
  lemma SubmitConserves(c: Config, s: State, opts: Opts)
    ensures Conserved(multiset(s.queue) + s.inFlight + multiset{NewAttempt(opts)}, Submit(c, s, opts))
  {
    var e := Enqueue(s, opts);
    AdmitConserves(c, e);
    assert e.queue == s.queue + [NewAttempt(opts)];
    assert multiset(e.queue) == multiset(s.queue) + multiset{NewAttempt(opts)};
  }

  /**
   * Submitting to a pool with no free slot only appends the new attempt at
   * the back of the queue: the waiting attempts, the counter and the
   * in-flight attempts are untouched and nothing happens.
   */
  lemma SubmitToFullPool(c: Config, s: State, opts: Opts)
    requires !HasRoom(c, s.requests)
    ensures Submit(c, s, opts) == Step(State(s.requests, s.queue + [NewAttempt(opts)], s.inFlight), [])
  {
  }

  /**
   * Submitting to a pool with a free slot and nothing queued: with a budget
   * of 0 the attempt completes at once with no errors and is never executed;
   * otherwise it takes a slot and is dispatched without delay.
   */
  lemma SubmitToIdlePool(c: Config, s: State, opts: Opts)
    requires HasRoom(c, s.requests) && s.queue == []
    ensures var a := NewAttempt(opts);
      Submit(c, s, opts) ==
        if c.tries == 0 then Step(s, [Exhausted(a)])
        else Step(State(s.requests + 1, [], s.inFlight + multiset{a}), [Dispatched(a, Immediate)])
  {
    var q := Enqueue(s, opts).queue;
    assert q[1..] == [];
  }

  /** Submission keeps the invariant and leaves no attempt waiting beside a free slot. */
  lemma SubmitPreservesInvariant(c: Config, s: State, opts: Opts)
    requires Invariant(c, s) && Settled(c, s)
    ensures Invariant(c, Submit(c, s, opts).state) && Settled(c, Submit(c, s, opts).state)
  {
    var e := Enqueue(s, opts);
    assert forall i :: 0 <= i < |e.queue| ==> e.queue[i] == if i < |s.queue| then s.queue[i] else NewAttempt(opts);
    AdmitPreservesInvariant(c, e);
    if HasRoom(c, e.requests) {
      AdmitSettles(c, e);
    }
  }

  // ---------------------------------------------------------------------
  // Completion

  /** An in-flight attempt of a consistent pool holds a slot. */
  lemma InFlightHoldsSlot(c: Config, s: State, a: Attempt)
    requires Invariant(c, s) && a in s.inFlight
    ensures 0 < s.requests && Running(c, a)
  {
    assert multiset{a} <= s.inFlight;
  }

  /** Freeing the slot of an in-flight attempt keeps the invariant and leaves a slot free. */
  lemma ReleaseFreesSlot(c: Config, s: State, a: Attempt)
    requires Invariant(c, s) && a in s.inFlight
    ensures 0 < s.requests
    ensures var f := Release(s, a);
      && f.requests == s.requests - 1 && HasRoom(c, f.requests) && f.queue == s.queue
      && f.requests == |f.inFlight| && (forall b :: b in f.inFlight ==> Running(c, b))
  {
    InFlightHoldsSlot(c, s, a);
  }

  /**
   * A failed execution with budget left is retried at once, ahead of every
   * waiting attempt: the reason is appended to the attempt's errors, its
   * `try` grows by one, it is dispatched with the interval-based delay for
   * its new `try`, and the waiting queue and the counter are unchanged. A
   * failure that spends the budget instead completes the attempt with all
   * `tries` errors, after the rest of the queue has been admitted into the
   * freed slot.
   */
  lemma CompleteFailure(c: Config, s: State, a: Attempt, reason: Reason)
    requires Invariant(c, s) && a in s.inFlight
    ensures 0 < s.requests
    ensures var a' := Retry(a, reason);
      var r := Complete(c, s, a, Err(reason));
      if a.try + 1 < c.tries then
        r == Step(State(s.requests, s.queue, s.inFlight - multiset{a} + multiset{a'}),
                  [Dispatched(a', Backoff(a.try + 1))])
      else
        && |a'.errors| == c.tries
        && r == Step(Admit(c, Release(s, a)).state, Admit(c, Release(s, a)).events + [Exhausted(a')])
  {
    ReleaseFreesSlot(c, s, a);
    var f := Release(s, a);
    var q := [Retry(a, reason)] + f.queue;
    assert q[1..] == s.queue;
  }

  /**
   * A successful execution frees its slot, lets the queue be admitted into
   * it, and then calls the user's callback once with success; the attempt is
   * never put back, so the queue afterwards is a suffix of the queue before.
   */
  lemma CompleteSuccess(c: Config, s: State, a: Attempt)
    requires Invariant(c, s) && a in s.inFlight
    ensures 0 < s.requests
    ensures |Complete(c, s, a, Ok).events| >= 1
    ensures Complete(c, s, a, Ok).events[|Complete(c, s, a, Ok).events| - 1] == Succeeded(a)
    ensures forall i :: 0 <= i < |Complete(c, s, a, Ok).events| - 1 ==> !Complete(c, s, a, Ok).events[i].Succeeded?
    ensures Complete(c, s, a, Ok).state.queue == s.queue[|s.queue| - |Complete(c, s, a, Ok).state.queue|..]
    ensures Complete(c, s, a, Ok).state.requests in {s.requests - 1, s.requests}
  {
    ReleaseFreesSlot(c, s, a);
    var r := Admit(c, Release(s, a));
    var all := r.events + [Succeeded(a)];
    assert Complete(c, s, a, Ok) == Step(r.state, all);
    assert forall i :: 0 <= i < |all| - 1 ==> all[i] == r.events[i];
  }

  /**
   * Completion hands every attempt on: on success the completed attempt
   * leaves through its `Succeeded` event and every other owned attempt is
   * queued, in flight or completed; on failure the attempt is replaced by
   * its retry and the same holds.
   */
  lemma CompleteConserves(c: Config, s: State, a: Attempt, o: Outcome)
    requires a in s.inFlight && 0 < s.requests
    ensures o.Ok? ==> Conserved(multiset(s.queue) + s.inFlight, Complete(c, s, a, o))
    ensures o.Err? ==>
      Conserved(multiset(s.queue) + (s.inFlight - multiset{a} + multiset{Retry(a, o.reason)}), Complete(c, s, a, o))
  {
    var f := Release(s, a);
    match o
    case Ok =>
      AdmitConserves(c, f);
      var r := Admit(c, f);
      EventsSnoc(r.events, Succeeded(a));
      MovedOne(multiset(s.queue), f.inFlight, multiset(r.state.queue), r.state.inFlight, Finished(r.events), a);
      assert multiset{a} + multiset(s.queue) + f.inFlight == multiset(s.queue) + s.inFlight;
    case Err(reason) =>
      var g := f.(queue := [Retry(a, reason)] + f.queue);
      AdmitConserves(c, g);
      assert multiset(g.queue) == multiset{Retry(a, reason)} + multiset(s.queue);
  }

  /** Completion keeps the invariant and leaves no attempt waiting beside a free slot. */
  lemma CompletePreservesInvariant(c: Config, s: State, a: Attempt, o: Outcome)
    requires Invariant(c, s) && Settled(c, s) && a in s.inFlight
    ensures 0 < s.requests
    ensures Invariant(c, Complete(c, s, a, o).state) && Settled(c, Complete(c, s, a, o).state)
  {
    ReleaseFreesSlot(c, s, a);
    var f := Release(s, a);
    match o
    case Ok =>
      AdmitPreservesInvariant(c, f);
      AdmitSettles(c, f);
    case Err(reason) =>
      var g := f.(queue := [Retry(a, reason)] + f.queue);
      assert forall i :: 0 <= i < |g.queue| ==> g.queue[i] == if i == 0 then Retry(a, reason) else s.queue[i - 1];
      AdmitPreservesInvariant(c, g);
      AdmitSettles(c, g);
  }

  /**
   * Every event of a completion from a consistent pool is within budget; in
   * particular an attempt that fails every execution completes with exactly
   * `tries` errors.
   */
  lemma CompleteEvents(c: Config, s: State, a: Attempt, o: Outcome)
    requires Invariant(c, s) && a in s.inFlight
    ensures 0 < s.requests
    ensures AllWithinBudget(c, Complete(c, s, a, o).events)
  {
    ReleaseFreesSlot(c, s, a);
    var f := Release(s, a);
    match o
    case Ok =>
      AdmitEvents(c, f);
      var es := Admit(c, f).events;
      var all := es + [Succeeded(a)];
      InFlightHoldsSlot(c, s, a);
      forall i | 0 <= i < |all| ensures WithinBudget(c, all[i]) {
        if i < |es| {
          assert all[i] == es[i];
        }
      }
    case Err(reason) =>
      var g := f.(queue := [Retry(a, reason)] + f.queue);
      assert forall i :: 0 <= i < |g.queue| ==> g.queue[i] == if i == 0 then Retry(a, reason) else s.queue[i - 1];
      AdmitEvents(c, g);
  }
}
