/**
 * The request pool of concurrent-request (index.js) as an object whose
 * methods update its fields in place: the submit function returned by
 * `Pool`, `next` and `done`. Each method is proved to perform exactly the
 * step that PoolModel describes, so every lemma there applies to it.
 */
module RequestPool {
  import opened PoolModel

  class Pool {
    /** Number of slots; 0 stands for Infinity. */
    const size: nat
    /** Total number of executions an attempt may have. */
    const tries: nat
    /** Executions in flight. */
    var requests: nat
    /** Attempts waiting for a slot, head first. */
    var queue: seq<Attempt>
    /** The attempts that were dispatched and have not completed. */
    ghost var inFlight: multiset<Attempt>

    function Cfg(): Config {
      Config(size, tries)
    }

    ghost function Model(): State
      reads this
    {
      State(requests, queue, inFlight)
    }

    /** The pool's invariant, and no attempt waiting beside a free slot. */
    ghost predicate Valid()
      reads this
    {
      Invariant(Cfg(), Model()) && Settled(Cfg(), Model())
    }

    /** `Pool(o)` with its options already read as naturals. */
    constructor (size: nat, tries: nat)
      ensures Valid()
      ensures this.size == size && this.tries == tries
      ensures requests == 0 && queue == [] && inFlight == multiset{}
    {
      this.size := size;
      this.tries := tries;
      requests := 0;
      queue := [];
      inFlight := multiset{};
    }

    /** The submit function: push a fresh attempt at the back, then run `next`. */
    method Submit(opts: Opts) returns (events: seq<Event>)
      requires Valid()
      modifies this
      ensures Valid()
      ensures Step(Model(), events) == PoolModel.Submit(Cfg(), old(Model()), opts)
    {
      SubmitPreservesInvariant(Cfg(), Model(), opts);
      queue := queue + [NewAttempt(opts)];
      events := Next();
    }

    /**
     * `next`: the recursive calls on spent heads become a loop that collects
     * their callbacks, the innermost first; then one attempt is dispatched if
     * a slot is free and the queue is not empty.
     */
    method Next() returns (events: seq<Event>)
      modifies this
      ensures Step(Model(), events) == Admit(Cfg(), old(Model()))
    {
      var exhausted: seq<Event> := [];
      while HasRoom(Cfg(), requests) && queue != [] && queue[0].try >= tries
        invariant Admit(Cfg(), old(Model())) ==
          Step(Admit(Cfg(), Model()).state, Admit(Cfg(), Model()).events + exhausted)
        decreases |queue|
      {
        var a := queue[0];
        ghost var before := Model();
        queue := queue[1..];
        assert Admit(Cfg(), before).events == Admit(Cfg(), Model()).events + [Exhausted(a)];
        exhausted := [Exhausted(a)] + exhausted;
      }
      events := [];
      ghost var rest := Model();
      if HasRoom(Cfg(), requests) && queue != [] {
        var a := queue[0];
        queue := queue[1..];
        requests := requests + 1;
        inFlight := inFlight + multiset{a};
        events := [Dispatched(a, DelayFor(a.try))];
      }
      assert Admit(Cfg(), rest) == Step(Model(), events);
      events := events + exhausted;
    }

    /**
     * `done` for the in-flight attempt `a`, with the handler's verdict
     * `outcome`: free the slot; on success run `next` and then report the
     * success; on failure record the reason, put the attempt back at the
     * front of the queue and run `next`.
     */
    method Done(a: Attempt, outcome: Outcome) returns (events: seq<Event>)
      requires Valid() && a in inFlight
      modifies this
      ensures Valid()
      ensures old(requests) > 0
      ensures Step(Model(), events) == Complete(Cfg(), old(Model()), a, outcome)
    {
      CompletePreservesInvariant(Cfg(), Model(), a, outcome);
      ghost var freed := Release(Model(), a);
      requests := requests - 1;
      inFlight := inFlight - multiset{a};
      assert Model() == freed;
      match outcome
      case Ok =>
        var admitted := Next();
        events := admitted + [Succeeded(a)];
      case Err(reason) =>
        queue := [Retry(a, reason)] + queue;
        assert Model() == freed.(queue := [Retry(a, reason)] + freed.queue);
        events := Next();
    }
  }
}
