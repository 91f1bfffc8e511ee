/** Many portfolios side by side: each is driven by one worker, and the steps of the workers interleave. */
module Portfolios {
  import opened Partition

  datatype Step = Step(portfolio: nat, action: Action)

  /** A portfolio without any step is in the initial state. */
  function WorldOf(worlds: map<nat, World>, p: nat): World {
    if p in worlds then worlds[p] else START
  }

  function RunAll(steps: seq<Step>): map<nat, World> {
    if steps == [] then map[]
    else
      var worlds, x := RunAll(steps[..|steps| - 1]), steps[|steps| - 1];
      worlds[x.portfolio := Next(WorldOf(worlds, x.portfolio), x.action)]
  }

  function ActionsOf(steps: seq<Step>, p: nat): seq<Action> {
    if steps == [] then []
    else
      ActionsOf(steps[..|steps| - 1], p) + if steps[|steps| - 1].portfolio == p then [steps[|steps| - 1].action] else []
  }

  /** A portfolio ends where its own actions take it, so every theorem about runs holds of each portfolio. */
  lemma {:induction false} EachRunsOnItsOwn(steps: seq<Step>, p: nat)
    ensures WorldOf(RunAll(steps), p) == Run(START, ActionsOf(steps, p))
  {
    hide Next;
    if steps != [] {
      var q, x := steps[..|steps| - 1], steps[|steps| - 1];
      EachRunsOnItsOwn(q, p);
      var own := ActionsOf(q, p);
      if x.portfolio == p {
        assert (own + [x.action])[..|own|] == own;
      } else {
        assert own + [] == own;
      }
    }
  }

  /** Interleavings of the workers do not matter. */
  lemma InterleavingsAgree(a: seq<Step>, b: seq<Step>, p: nat)
    requires ActionsOf(a, p) == ActionsOf(b, p)
    ensures WorldOf(RunAll(a), p) == WorldOf(RunAll(b), p)
  {
    EachRunsOnItsOwn(a, p);
    EachRunsOnItsOwn(b, p);
    hide RunAll, ActionsOf, Run;
  }
}
