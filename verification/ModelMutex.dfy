/** The promise chain that serialises scoring runs: each submitted run is chained after the
    previous one, whether that one succeeded or failed. Submissions, starts and completions
    interleave freely; `log` is what an observer sees. */
module ModelMutex {
  datatype Phase = Chained | Running | Settled(ok: bool)

  datatype Boundary = Began(task: nat) | Ended(task: nat)

  datatype Chain = Chain(tasks: seq<Phase>, log: seq<Boundary>)

  datatype Event = Submit | Start(task: nat) | Settle(task: nat, ok: bool)

  const EMPTY := Chain([], [])

  /** A chained run may start as soon as the promise before it has settled either way. */
  predicate MayStart(c: Chain, i: nat) {
    i < |c.tasks| && c.tasks[i].Chained? && (i > 0 ==> c.tasks[i-1].Settled?)
  }

  predicate IsRunning(c: Chain, i: nat) {
    i < |c.tasks| && c.tasks[i].Running?
  }

  function After(c: Chain, e: Event): Chain {
    match e
    case Submit => c.(tasks := c.tasks + [Chained])
    case Start(i) => if MayStart(c, i) then Chain(c.tasks[i := Running], c.log + [Began(i)]) else c
    case Settle(i, ok) => if IsRunning(c, i) then Chain(c.tasks[i := Settled(ok)], c.log + [Ended(i)]) else c
  }

  function Run(events: seq<Event>): Chain {
    if events == [] then EMPTY else After(Run(events[..|events|-1]), events[|events|-1])
  }

  /** The log of n runs one after the other, in the order of submission. */
  function Serial(n: nat): seq<Boundary> {
    if n == 0 then [] else Serial(n - 1) + [Began(n - 1), Ended(n - 1)]
  }

  /** The first `done` runs have settled, at most the next one is running, the rest wait. */
  ghost predicate InTurn(c: Chain, done: nat) {
    && done <= |c.tasks|
    && (forall i :: 0 <= i < done ==> c.tasks[i].Settled?)
    && (forall i :: done < i < |c.tasks| ==> c.tasks[i].Chained?)
    && (done < |c.tasks| ==> !c.tasks[done].Settled?)
    && c.log == if done < |c.tasks| && c.tasks[done].Running? then Serial(done) + [Began(done)] else Serial(done)
  }

  lemma StepInTurn(c: Chain, e: Event, done: nat) returns (done': nat)
    requires InTurn(c, done)
    ensures InTurn(After(c, e), done')
    ensures done' == if e.Settle? && IsRunning(c, e.task) then done + 1 else done
  {
    done' := if e.Settle? && IsRunning(c, e.task) then done + 1 else done;
    if done' == done + 1 {
      assert e.task == done;
      assert Serial(done) + [Began(done)] + [Ended(done)] == Serial(done + 1);
    } else if e.Start? && MayStart(c, e.task) {
      assert e.task == done;
    }
  }

  lemma {:induction false} RunInTurn(events: seq<Event>) returns (done: nat)
    ensures InTurn(Run(events), done)
  {
    if events == [] {
      done := 0;
    } else {
      var before := RunInTurn(events[..|events|-1]);
      done := StepInTurn(Run(events[..|events|-1]), events[|events|-1], before);
    }
  }

  /** Whatever the interleaving and whichever runs fail, the observed starts and ends are those of
      a serial execution in submission order, possibly with the last run still going. */
  lemma RunsAreSerial(events: seq<Event>)
    ensures exists n :: 0 <= n <= |Run(events).tasks|
              && (Run(events).log == Serial(n) || (n < |Run(events).tasks| && Run(events).log == Serial(n) + [Began(n)]))
  {
    var n := RunInTurn(events);
    assert Run(events).log == Serial(n) || (n < |Run(events).tasks| && Run(events).log == Serial(n) + [Began(n)]);
  }

  /** At most one run is going, and a failed run never blocks the chain: while a submitted run is
      unsettled, exactly one run is going or may start, and it is not a later one. */
  lemma NeverStuck(events: seq<Event>, i: nat)
    requires i < |Run(events).tasks| && !Run(events).tasks[i].Settled?
    ensures exists a: nat :: a <= i && (IsRunning(Run(events), a) || MayStart(Run(events), a))
              && forall b: nat :: IsRunning(Run(events), b) || MayStart(Run(events), b) ==> b == a
  {
    hide Run, Serial;
    var done := RunInTurn(events);
    assert done <= i;
    assert IsRunning(Run(events), done) || MayStart(Run(events), done);
  }
}
