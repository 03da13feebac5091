/**
 * The retry scenario of test/index.js, replayed on the model: a pool of
 * size 2 with a budget of 2 executions; request "a" fails once and then
 * succeeds, "b" always fails, "c" never fails. The handler is the default
 * one, so an execution's error is its verdict.
 */
module PoolScenario {
  import opened PoolModel

  const TestConfig := Config(2, 2)

  const A0 := Attempt("a", 0, [])
  const A1 := Attempt("a", 1, ["foo"])
  const B0 := Attempt("b", 0, [])
  const B1 := Attempt("b", 1, ["bar"])
  const B2 := Attempt("b", 2, ["bar", "bar"])
  const C0 := Attempt("c", 0, [])

  /** "a" and "b" take both slots at once and without delay; "c" waits. */
  lemma ScenarioSubmissions()
    ensures Submit(TestConfig, State(0, [], multiset{}), "a")
         == Step(State(1, [], multiset{A0}), [Dispatched(A0, Immediate)])
    ensures Submit(TestConfig, State(1, [], multiset{A0}), "b")
         == Step(State(2, [], multiset{A0, B0}), [Dispatched(B0, Immediate)])
    ensures Submit(TestConfig, State(2, [], multiset{A0, B0}), "c")
         == Step(State(2, [C0], multiset{A0, B0}), [])
  {
    SubmitToIdlePool(TestConfig, State(0, [], multiset{}), "a");
    SubmitToIdlePool(TestConfig, State(1, [], multiset{A0}), "b");
    assert multiset{A0} + multiset{B0} == multiset{A0, B0};
    SubmitToFullPool(TestConfig, State(2, [], multiset{A0, B0}), "c");
  }

  /**
   * The first failure of "a" is retried at once in the slot it freed, with
   * the interval-based delay for try 1, ahead of the waiting "c".
   */
  lemma ScenarioRetryA()
    ensures Complete(TestConfig, State(2, [C0], multiset{A0, B0}), A0, Err("foo"))
         == Step(State(2, [C0], multiset{A1, B0}), [Dispatched(A1, Backoff(1))])
  {
    assert Invariant(TestConfig, State(2, [C0], multiset{A0, B0}));
    CompleteFailure(TestConfig, State(2, [C0], multiset{A0, B0}), A0, "foo");
    assert multiset{A0, B0} - multiset{A0} + multiset{A1} == multiset{A1, B0};
  }

  /** So is the first failure of "b"; "c" still waits. */
  lemma ScenarioRetryB()
    ensures Complete(TestConfig, State(2, [C0], multiset{A1, B0}), B0, Err("bar"))
         == Step(State(2, [C0], multiset{A1, B1}), [Dispatched(B1, Backoff(1))])
  {
    assert Invariant(TestConfig, State(2, [C0], multiset{A1, B0}));
    CompleteFailure(TestConfig, State(2, [C0], multiset{A1, B0}), B0, "bar");
    assert multiset{A1, B0} - multiset{B0} + multiset{B1} == multiset{A1, B1};
  }

  /**
   * "c" starts, without delay, only when "a" has succeeded on its second
   * execution, and before the success of "a" is reported.
   */
  lemma ScenarioSuccessA()
    ensures Complete(TestConfig, State(2, [C0], multiset{A1, B1}), A1, Ok)
         == Step(State(2, [], multiset{B1, C0}), [Dispatched(C0, Immediate), Succeeded(A1)])
  {
    var freed := Release(State(2, [C0], multiset{A1, B1}), A1);
    assert freed == State(1, [C0], multiset{B1});
    AdmitShape(TestConfig, freed);
    assert multiset{B1} + multiset{C0} == multiset{B1, C0};
  }

  /** "b" fails its second execution and completes with both of its errors. */
  lemma ScenarioExhaustB()
    ensures Complete(TestConfig, State(2, [], multiset{B1, C0}), B1, Err("bar"))
         == Step(State(1, [], multiset{C0}), [Exhausted(B2)])
  {
    assert Invariant(TestConfig, State(2, [], multiset{B1, C0}));
    CompleteFailure(TestConfig, State(2, [], multiset{B1, C0}), B1, "bar");
    assert multiset{B1, C0} - multiset{B1} == multiset{C0};
    assert Release(State(2, [], multiset{B1, C0}), B1) == State(1, [], multiset{C0});
    assert B1.errors + ["bar"] == B2.errors;
  }

  /** "c" succeeds on its only execution, the fifth of the scenario. */
  lemma ScenarioSuccessC()
    ensures Complete(TestConfig, State(1, [], multiset{C0}), C0, Ok)
         == Step(State(0, [], multiset{}), [Succeeded(C0)])
  {
    assert Release(State(1, [], multiset{C0}), C0) == State(0, [], multiset{});
  }

  /**
   * With the default budget of 0 a submission completes at once with an
   * empty error list and is never executed.
   */
  lemma ZeroBudgetScenario(size: nat)
    ensures Submit(Config(size, 0), State(0, [], multiset{}), "x")
         == Step(State(0, [], multiset{}), [Exhausted(Attempt("x", 0, []))])
  {
    SubmitToIdlePool(Config(size, 0), State(0, [], multiset{}), "x");
  }
}
