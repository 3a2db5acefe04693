/**
 * The CHM orchestrator's decision rules over a snapshot of the context:
 * whether a solving thread keeps trying, and which branch the main thread
 * takes once its wait on the context's events returns.  Events are the set
 * of those signalled; counters are naturals.
 */
module Chm01Solve {
  import opened Constants

  /**
   * WaitForMultipleObjects with bWaitAll FALSE: the position of the
   * lowest-indexed signalled handle, or |order| (a timeout) when none is.
   */
  function FirstSignalled(order: seq<ContextEvent>, signalled: set<ContextEvent>): (i: nat)
    ensures i <= |order|
    ensures forall j :: 0 <= j < i ==> order[j] !in signalled
    ensures i < |order| ==> order[i] in signalled
  {
    if order == [] then 0
    else if order[0] in signalled then 0
    else 1 + FirstSignalled(order[1..], signalled)
  }

  /** The events a solving thread polls, in the order it passes them. */
  const WorkerWaitOrder: seq<ContextEvent> := [Shutdown, Succeeded, Failed, Completed]

  /** The events the main thread waits on, in the order it passes them. */
  const MainWaitOrder: seq<ContextEvent> := [Succeeded, Completed, Shutdown, Failed, TryLargerTableSize]

  /**
   * ShouldWeContinueTryingToSolveGraph: stop at once when a solution has
   * been registered; otherwise continue only when the zero-timeout poll
   * times out.
   */
  function ShouldWeContinueTryingToSolveGraph(finishedCount: nat, signalled: set<ContextEvent>): bool
  {
    if finishedCount > 0 then false
    else FirstSignalled(WorkerWaitOrder, signalled) == |WorkerWaitOrder|
  }

  /**
   * A thread keeps solving exactly when nobody has finished and none of
   * Shutdown, Succeeded, Failed and Completed is signalled.
   */
  lemma ShouldWeContinueExactly(finishedCount: nat, signalled: set<ContextEvent>)
    ensures ShouldWeContinueTryingToSolveGraph(finishedCount, signalled) <==>
      finishedCount == 0 &&
      Shutdown !in signalled && Succeeded !in signalled &&
      Failed !in signalled && Completed !in signalled
  {
    var i := FirstSignalled(WorkerWaitOrder, signalled);
    if i < |WorkerWaitOrder| {
      assert WorkerWaitOrder[i] in signalled;
    } else {
      assert forall j :: 0 <= j < 4 ==> WorkerWaitOrder[j] !in signalled;
      assert WorkerWaitOrder[0] == Shutdown && WorkerWaitOrder[1] == Succeeded;
      assert WorkerWaitOrder[2] == Failed && WorkerWaitOrder[3] == Completed;
    }
  }

  /** What one solving attempt of a thread observed and achieved. */
  datatype Attempt = Attempt(finishedCount: nat, signalled: set<ContextEvent>, solves: bool)

  /**
   * The solving thread's loop: while the continue predicate holds, try a
   * fresh graph; stop after the first attempt that solves it.  Each element
   * of `attempts` is what the thread sees before, and gets from, one try.
   */
  method SolvingLoop(attempts: seq<Attempt>) returns (tried: nat, solved: bool)
    ensures tried <= |attempts|
    ensures forall j :: 0 <= j < tried ==>
      ShouldWeContinueTryingToSolveGraph(attempts[j].finishedCount, attempts[j].signalled)
    ensures forall j :: 0 <= j < tried - 1 ==> !attempts[j].solves
    ensures solved <==> tried > 0 && attempts[tried - 1].solves
    ensures !solved ==>
      tried == |attempts| ||
      !ShouldWeContinueTryingToSolveGraph(attempts[tried].finishedCount, attempts[tried].signalled)
  {
    tried, solved := 0, false;
    while tried < |attempts| &&
          ShouldWeContinueTryingToSolveGraph(attempts[tried].finishedCount, attempts[tried].signalled)
      invariant tried <= |attempts|
      invariant forall j :: 0 <= j < tried ==>
        ShouldWeContinueTryingToSolveGraph(attempts[j].finishedCount, attempts[j].signalled)
      invariant forall j :: 0 <= j < tried ==> !attempts[j].solves
      invariant !solved
    {
      tried := tried + 1;
      if attempts[tried - 1].solves {
        solved := true;
        break;
      }
    }
  }

  /** The branch the main thread takes after its wait returns. */
  datatype PostWaitAction =
    | ResizeTable          // try again with a larger table
    | FinishedSolution     // a graph was solved: verify and save it
    | EndWithoutSolution   // solving stopped without a solution
    | WaitError            // no solution and the shutdown event is not set

  /**
   * The main thread's decision.  The wait returns the lowest signalled of
   * Succeeded, Completed, Shutdown, Failed, TryLargerTableSize.  A resize
   * request is handled first, but a solution registered in the meantime
   * still wins; otherwise success is a non-zero finished count, and an
   * unsuccessful end requires the shutdown event to be set.
   */
  function PostWaitDecision(signalled: set<ContextEvent>, finishedCount: nat): PostWaitAction
    requires exists e :: e in MainWaitOrder && e in signalled
  {
    var waitIndex := FirstSignalled(MainWaitOrder, signalled);
    if waitIndex == 4 then
      if finishedCount > 0 then FinishedSolution else ResizeTable
    else if finishedCount > 0 then FinishedSolution
    else if waitIndex != 2 && Shutdown !in signalled then WaitError
    else EndWithoutSolution
  }

  /**
   * Whatever was signalled, the main thread proceeds to the solution
   * handler exactly when the finished count is non-zero.
   */
  lemma SolutionWinsExactly(signalled: set<ContextEvent>, finishedCount: nat)
    requires exists e :: e in MainWaitOrder && e in signalled
    ensures PostWaitDecision(signalled, finishedCount) == FinishedSolution <==> finishedCount > 0
  {
  }

  /**
   * A resize happens exactly when nobody finished, the resize event is
   * signalled, and none of the four lower-indexed events is: a resize
   * request raised together with Succeeded, Completed, Shutdown or Failed
   * is never acted on.
   */
  lemma ResizeExactly(signalled: set<ContextEvent>, finishedCount: nat)
    requires exists e :: e in MainWaitOrder && e in signalled
    ensures PostWaitDecision(signalled, finishedCount) == ResizeTable <==>
      finishedCount == 0 && TryLargerTableSize in signalled &&
      Succeeded !in signalled && Completed !in signalled &&
      Shutdown !in signalled && Failed !in signalled
  {
    var i := FirstSignalled(MainWaitOrder, signalled);
    assert MainWaitOrder[0] == Succeeded && MainWaitOrder[1] == Completed && MainWaitOrder[2] == Shutdown;
    assert MainWaitOrder[3] == Failed && MainWaitOrder[4] == TryLargerTableSize;
    if i == 4 {
      assert forall j :: 0 <= j < 4 ==> MainWaitOrder[j] !in signalled;
    }
  }

  /**
   * Without a solution and without a resize, the main thread ends cleanly
   * exactly when Shutdown is signalled, and reports an error otherwise.
   */
  lemma UnsolvedEndNeedsShutdown(signalled: set<ContextEvent>, finishedCount: nat)
    requires exists e :: e in MainWaitOrder && e in signalled
    requires finishedCount == 0
    requires PostWaitDecision(signalled, finishedCount) != ResizeTable
    ensures PostWaitDecision(signalled, finishedCount) == EndWithoutSolution <==> Shutdown in signalled
    ensures PostWaitDecision(signalled, finishedCount) == WaitError <==> Shutdown !in signalled
  {
    var i := FirstSignalled(MainWaitOrder, signalled);
    assert MainWaitOrder[2] == Shutdown;
  }
}
