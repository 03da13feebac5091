# concurrent-request: the request pool, modelled in Dafny

concurrent-request wraps an HTTP client in a pool. `Pool(o)` returns a
submit function. Each submission becomes an attempt `{opts, cb, try, e}`
that waits in a queue. At most `size` attempts are in flight at once, and
a size of 0 means unbounded. A failed execution is retried ahead of all
waiting work (with a handler that decides at once, as the default one
does), until the attempt has been executed `tries` times. At that
point the user's callback receives the list of errors. A successful
execution calls the user's callback with `null` and the response.

The project models the admission and retry state machine of `index.js`:

- `pool_model.dfy`, module `PoolModel`: the pool's state as values. It
  holds the in-flight counter, the queue of attempts and the multiset of
  attempts in flight. The three steps are functions from a state to a new
  state plus the events produced, in the order the code produces them:
  `Submit` (the returned function), `Admit` (`next`) and `Complete`
  (`done`). The lemmas about them are also in this module.
- `pool.dfy`, module `RequestPool`: class `Pool` with the fields `size`,
  `tries`, `requests`, `queue` and a ghost `inFlight`. Its methods `Submit`,
  `Next` and `Done` update these fields in place. Each one is proved to
  perform exactly the corresponding `PoolModel` step. `Next` replaces the
  source's recursion on spent heads with a loop.
- `scenario.dfy`, module `PoolScenario`: the retry test of
  `test/index.js`, replayed step by step, and the default budget of 0.

An event is one of three things. `Dispatched(a, delay)` is an execution
started after a delay (the `setTimeout` and `request` call).
`Exhausted(a)` is the user's callback called with `a.errors`.
`Succeeded(a)` is the user's callback called with success. The delay is
`Immediate` on a first try. Otherwise it is `Backoff(try)`: the interval
policy consulted with the current `try`, plus jitter.

Notes on how the code behaves, which the model follows:

- `tries` is the TOTAL number of executions of an attempt, not the
  number of retries after a first try. `next` drops an attempt as soon
  as `try >= tries` (index.js:40). So with the default `tries = 0` a
  submission completes at once with an empty error list and is never
  executed. An attempt whose every execution fails completes with
  exactly `tries` errors. The test configures `tries: 2` and expects
  exactly two executions of its always-failing request.
- Spent attempts at the head of the queue are completed in several steps.
  First the rest of the queue is admitted. Then their callbacks fire, the
  last one dropped first, because `next` recurses before calling `cb`.
- Negative delays are not clamped, and malformed options are not rejected.
  The options are coerced with `| 0` instead (both left out, below).

The main invariant is the class's `Valid()`. It combines
`PoolModel.Invariant` with `Settled`, and `Submit` and `Done` preserve it:

- `requests` equals the number of attempts in flight and never exceeds
  `size`.
- Every queued attempt has `|errors| == try <= tries`.
- Every attempt in flight has `|errors| == try < tries`.
- No attempt waits while a slot is free.

## Model

| member | source | states |
|---|---|---|
| `PoolModel.DelayFor` | index.js:46-48 | the delay is none exactly on the first try; otherwise the interval policy is consulted with the current `try` |
| `PoolModel.Retry` | index.js:72-74 | a failed attempt keeps its options, its `try` grows by one and the reason is appended after its earlier errors |
| `PoolModel.NewAttempt` | index.js:27 | a fresh attempt carries the submitted options and no history, so it is consistent with every budget (`try == 0`, no errors) |
| `PoolModel.Enqueue` | index.js:27 | submitting appends exactly one attempt with `try = 0` and no errors at the back; the earlier entries, the counter and the in-flight attempts are unchanged |
| `PoolModel.Admit` | index.js:32-58 | with no free slot or an empty queue, `next` changes nothing; the counter grows by at most one; what is left of the queue is a suffix of it |
| `PoolModel.ExhaustedPrefix` | index.js:38-43 | the number of leading queued attempts whose budget is spent: all before it have `try >= tries`, the one at it has `try < tries` |
| `PoolModel.ExhaustAll` | index.js:40-43 | the callbacks of dropped attempts fire in reverse queue order, one per attempt |
| `PoolModel.ShapeDropsSpentHead` | index.js:38-43 | in the closed form, a spent head attempt's callback comes after everything the rest of the queue produces |
| `PoolModel.AdmitShape` | index.js:32-58 | with a free slot, `next` equals its closed form `Shape`: it drops the spent head attempts without taking a slot, then dispatches the first attempt with budget left. The dispatch comes first in the events, then the callbacks of the dropped attempts with their errors. |
| `PoolModel.AdmitDispatchesAtMostOne` | index.js:35-45 | the counter grows, by exactly one, if and only if a slot is free and some queued attempt has budget left; that attempt leaves the queue and goes in flight |
| `PoolModel.AdmitPreservesInvariant` | index.js:35-45 | `next` keeps the counter equal to the number of attempts in flight and within `size`, and keeps the try/error bookkeeping |
| `PoolModel.AdmitSettles` | index.js:35-45 | with at most one slot free, or at most one attempt queued, `next` leaves no attempt waiting beside a free slot |
| `PoolModel.AdmitEvents` | index.js:40-48 | from a consistent state, every dispatch is within budget and uses the delay for its `try`; every exhausted attempt carries exactly `tries` errors |
| `PoolModel.AdmitStarts` | index.js:45-55 | the in-flight attempts grow by exactly the attempts dispatched |
| `PoolModel.AdmitConserves` | index.js:38-55 | every attempt that leaves the queue is either in flight or completed, never both and never lost |
| `PoolModel.Submit` | index.js:24-29 | the submit function grows the counter by at most one and the queue by at most one; its full behaviour is stated by `SubmitToFullPool`, `SubmitToIdlePool`, `SubmitPreservesInvariant` and `SubmitConserves` |
| `PoolModel.SubmitConserves` | index.js:24-29 | submission adds exactly the new attempt to what the pool owns: afterwards each owned attempt is queued, in flight or completed, once |
| `PoolModel.SubmitToFullPool` | index.js:24-29 | submitting to a pool with no free slot only appends the new attempt at the back; nothing is dispatched or completed |
| `PoolModel.SubmitToIdlePool` | index.js:24-29 | submitting to an idle pool dispatches the attempt without delay. With `tries = 0` it instead completes at once with no errors and never executes. |
| `PoolModel.SubmitPreservesInvariant` | index.js:24-29 | submission keeps the invariant and leaves no attempt waiting beside a free slot |
| `PoolModel.InFlightHoldsSlot` | index.js:45 | an in-flight attempt of a consistent pool holds a slot and is within its budget |
| `PoolModel.Release` | index.js:62 | freeing the slot decrements the counter by one, leaves the queue as it was and removes exactly `a` from the in-flight attempts |
| `PoolModel.Complete` | index.js:60-79 | `done` leaves the counter one lower or unchanged (a freed slot, at most one backfill) and grows the queue by at most the retried attempt; its full behaviour is stated by `CompleteFailure`, `CompleteSuccess`, `CompletePreservesInvariant`, `CompleteEvents` and `CompleteConserves` |
| `PoolModel.CompleteConserves` | index.js:60-79 | on success the completed attempt leaves through its success event; on failure it is replaced by its retry; every other owned attempt stays queued, in flight or completed, once |
| `PoolModel.ReleaseFreesSlot` | index.js:62 | `done` decrements the counter by one, which frees a slot and leaves the queue as it was |
| `PoolModel.CompleteFailure` | index.js:60-79 | a failure with budget left re-dispatches the attempt at once, with one more error and `try + 1`, ahead of every queued attempt, which keep their order. A failure that spends the budget admits the queue, then completes the attempt with exactly `tries` errors. |
| `PoolModel.CompleteSuccess` | index.js:60-69 | a success frees the slot, admits the queue into it and then reports success once, as the last event; the attempt is not put back |
| `PoolModel.CompletePreservesInvariant` | index.js:60-79 | completion keeps the invariant and leaves no attempt waiting beside a free slot |
| `PoolModel.CompleteEvents` | index.js:60-79 | every event of a completion is within budget: executions number at most `tries`, and an exhausted attempt carries exactly `tries` errors |
| `RequestPool.Pool.constructor` | index.js:5-23 | a new pool has the given size and budget, nothing in flight and an empty queue |
| `RequestPool.Pool.Submit` | index.js:24-29 | the submit function updates the fields exactly as `PoolModel.Submit` and keeps `Valid()` |
| `RequestPool.Pool.Next` | index.js:32-58 | the loop over spent heads followed by at most one dispatch updates the fields exactly as `PoolModel.Admit` |
| `RequestPool.Pool.Done` | index.js:60-79 | `done` updates the fields exactly as `PoolModel.Complete` and keeps `Valid()` |
| `PoolScenario.ScenarioSubmissions` | test/index.js:67-84 | with size 2, the first two submissions are dispatched at once without delay and the third waits |
| `PoolScenario.ScenarioRetryA` | test/index.js:36-42 | the first failure of request 0 is retried at once with the try-1 delay, ahead of the waiting request |
| `PoolScenario.ScenarioRetryB` | test/index.js:43-49 | the first failure of request 1 is retried in the same way |
| `PoolScenario.ScenarioSuccessA` | test/index.js:50-59 | request 2 starts only once request 0 has succeeded on its second execution |
| `PoolScenario.ScenarioExhaustB` | test/index.js:43-49 | the always-failing request completes after exactly two executions, with both errors |
| `PoolScenario.ScenarioSuccessC` | test/index.js:55-58 | request 2 succeeds on its only execution, the fifth in all |
| `PoolScenario.ZeroBudgetScenario` | index.js:40-42 | with the default budget of 0 a submission completes at once with no errors |

## Left out

- The `request` HTTP call and its `(e, resp, body)` results are left out, because the call goes over the network. An execution is the `Dispatched` event. The caller of `Done` supplies the result, already judged by the handler, as `Ok` or `Err(reason)`. `resp` and `body` are not carried.
- The handler is left out, including the default `(e, r, b, cb) => cb(e)`. Its verdict is an input to `Done`. The model assumes the handler calls its callback exactly once per execution.
- An asynchronous handler is left out. The source frees the slot before it asks the handler, and a submission that arrives before the verdict can take that slot ahead of the retry. `Done` makes release and verdict one step. So "retried ahead of all waiting work" and `CompleteFailure`'s immediate re-dispatch hold only for a handler that calls back at once, as the default one does.
- `setTimeout`, elapsed time, the values returned by `interval`, and jitter from `Math.random()` are left out. Only the delay kind is modelled: none, or the interval policy consulted with the current `try`.
- The `| 0` coercion of options to 32-bit integers, non-object options and negative sizes are left out. The constructor takes the size and the budget as naturals; a missing option reads as 0.
- The user callback is identified with its attempt. The model does not run it. In the source, callbacks run synchronously inside `next` and `done`, so a callback that submits again would interleave with the step. The model returns the callbacks as events once the step's state is final.
- `attempt.e.push` and `attempt.try += 1` update the attempt record in place. The model replaces the attempt value instead. Only the execution's closure refers to an in-flight attempt, so nothing else observes the change.
- In-flight attempts are kept as a multiset of values. Two submissions with equal options and history cannot be told apart. The conservation lemmas count attempts; they do not track identities.
