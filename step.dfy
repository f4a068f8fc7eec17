/**
 * `StepColumn`: a column of steps revealed in order. A step is shown once
 * every step before it has been finished; finishing the last shown step
 * reveals the next one.
 */
module Steps {
  /** The frontier after the step `index` reports it is finished. */
  function Next(maxStep: int, lastIndex: int, index: int): (r: int)
    ensures r == maxStep || r == maxStep + 1
    ensures r == maxStep + 1 <==> index == maxStep && maxStep < lastIndex
  {
    if maxStep == index && maxStep < lastIndex then maxStep + 1 else maxStep
  }

  /** The frontier after a series of finish reports, oldest first. */
  function Run(maxStep: int, lastIndex: int, finished: seq<int>): int
  {
    if finished == [] then maxStep
    else Next(Run(maxStep, lastIndex, finished[..|finished| - 1]), lastIndex, finished[|finished| - 1])
  }

  /** The first `n` step indices, in order. */
  function Upto(n: nat): (r: seq<int>)
    ensures |r| == n && forall i :: 0 <= i < n ==> r[i] == i
  {
    if n == 0 then [] else Upto(n - 1) + [n - 1]
  }

  /**
   * Whatever steps report finishing, the frontier never goes back, never
   * passes the last step it could reach, and moves at most one step per
   * report.
   */
  lemma {:induction false} RunBounds(maxStep: int, lastIndex: int, finished: seq<int>)
    ensures maxStep <= Run(maxStep, lastIndex, finished) <= maxStep + |finished|
    ensures maxStep <= lastIndex ==> Run(maxStep, lastIndex, finished) <= lastIndex
    ensures maxStep > lastIndex ==> Run(maxStep, lastIndex, finished) == maxStep
  {
    if finished != [] {
      RunBounds(maxStep, lastIndex, finished[..|finished| - 1]);
    }
  }

  /** Reports from steps other than the frontier leave it where it is. */
  lemma {:induction false} RunIgnoresOthers(maxStep: int, lastIndex: int, finished: seq<int>)
    requires forall i :: 0 <= i < |finished| ==> finished[i] != maxStep
    ensures Run(maxStep, lastIndex, finished) == maxStep
  {
    if finished != [] {
      RunIgnoresOthers(maxStep, lastIndex, finished[..|finished| - 1]);
    }
  }

  /** Finishing the steps one after another from the first reveals them all, up to the last. */
  lemma {:induction false} RunInOrder(lastIndex: int, n: nat)
    requires lastIndex >= 0
    ensures Run(0, lastIndex, Upto(n)) == if n <= lastIndex then n else lastIndex
  {
    if n > 0 {
      RunInOrder(lastIndex, n - 1);
      assert Upto(n)[..n - 1] == Upto(n - 1);
    }
  }

  class StepColumn {
    /** `steps.lastIndex`: one less than the number of steps. */
    const lastIndex: int
    /** The highest index shown so far. */
    var maxStepIndex: int

    /** A column of `stepCount` steps shows the first step only. */
    constructor (stepCount: nat)
      ensures lastIndex == stepCount - 1 && maxStepIndex == 0
      ensures Valid()
    {
      lastIndex := stepCount - 1;
      maxStepIndex := 0;
    }

    /** The frontier starts at 0 and stays within the steps there are. */
    ghost predicate Valid()
      reads this
    {
      0 <= maxStepIndex && (maxStepIndex <= lastIndex || maxStepIndex == 0)
    }

    /** `index <= maxStepIndex`: the steps drawn. */
    predicate Shown(index: int)
      reads this
    {
      0 <= index <= lastIndex && index <= maxStepIndex
    }

    /** The `onFinished` callback of step `index`. */
    method OnFinished(index: int)
      requires Valid()
      modifies this
      ensures Valid()
      ensures maxStepIndex == Next(old(maxStepIndex), lastIndex, index)
      ensures forall i :: old(Shown(i)) ==> Shown(i)
    {
      if maxStepIndex == index && maxStepIndex < lastIndex {
        maxStepIndex := maxStepIndex + 1;
      }
    }
  }

  /** The steps shown are always the first ones: a shown step has every earlier step shown. */
  lemma ShownIsPrefix(c: StepColumn, i: int, j: int)
    requires c.Shown(i) && 0 <= j <= i
    ensures c.Shown(j)
  {
  }
}
