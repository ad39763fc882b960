/**
 A fallible chain of steps, the shape both worker functions of src/app.rs share:
 each step is a foreign call whose failure is either propagated to the caller by
 Rust's `?` or turned into a panic by `.unwrap()`. The steps run in order and the
 first failure ends the chain.
 */
module Chain {

  /** What the foreign call of one step gives back. */
  datatype Outcome = Pass | Fail(reason: string)

  /** How the code reacts to a failing step. */
  datatype Handling =
    | Propagate  // `?`: the function returns `Err(reason)`
    | Unwrap     // `.unwrap()`: the thread panics and returns nothing

  /** One step of a chain: the operation tried, how its failure is handled, and its outcome. */
  datatype Attempt<Op> = Attempt(op: Op, handling: Handling, outcome: Outcome)

  /** How a chain ends. */
  datatype Exit = Completed | Returned(reason: string) | Panicked

  /** The operations that were tried, in order, and how the chain ended. */
  datatype Trace<Op> = Trace(attempted: seq<Op>, exit: Exit)

  /** Every step before position `k` succeeded. */
  predicate PassBefore<Op>(chain: seq<Attempt<Op>>, k: int)
  {
    forall i :: 0 <= i < k && i < |chain| ==> chain[i].outcome.Pass?
  }

  /** The exit a failing step causes. */
  function FailureExit<Op>(a: Attempt<Op>): Exit
    requires a.outcome.Fail?
  {
    match a.handling
    case Propagate => Returned(a.outcome.reason)
    case Unwrap => Panicked
  }

  /**
   Runs a chain. The tried operations are a prefix of the chain's operations; the
   chain completes exactly when every step succeeds, and otherwise the last tried
   step is the first one that failed, and it decides the exit.
   */
  function Run<Op>(chain: seq<Attempt<Op>>): (t: Trace<Op>)
    ensures |t.attempted| <= |chain|
    ensures forall i :: 0 <= i < |t.attempted| ==> t.attempted[i] == chain[i].op
    ensures t.exit.Completed? <==> PassBefore(chain, |chain|)
    ensures t.exit.Completed? ==> |t.attempted| == |chain|
    ensures !t.exit.Completed? ==>
              && 0 < |t.attempted|
              && PassBefore(chain, |t.attempted| - 1)
              && chain[|t.attempted| - 1].outcome.Fail?
              && t.exit == FailureExit(chain[|t.attempted| - 1])
  {
    if |chain| == 0 then
      Trace([], Completed)
    else
      match chain[0].outcome
      case Fail(_) => Trace([chain[0].op], FailureExit(chain[0]))
      case Pass =>
        var rest := Run(chain[1..]);
        Trace([chain[0].op] + rest.attempted, rest.exit)
  }

  /** A step is tried exactly when every step before it succeeded. */
  lemma AttemptedIffEarlierPass<Op>(chain: seq<Attempt<Op>>, j: int)
    requires 0 <= j < |chain|
    ensures j < |Run(chain).attempted| <==> PassBefore(chain, j)
  {
    var t := Run(chain);
    if j < |t.attempted| && !t.exit.Completed? {
      assert PassBefore(chain, |t.attempted| - 1);
    }
  }
}
