/**
 A model of `main`: the argument-count check, the choice of role by rank, and
 the group of one controller and `worldSize - 1` walkers taken together.
 */
module Startup {
  import opened Numbers
  import Walker
  import Controller

  /** What a rank does once it has looked at its arguments. */
  datatype Role = Usage(status: int) | RunController | RunWalker

  /** What a rank has reported when it returns. */
  datatype Report = NoReport | WalkerReport(step: int) | ControllerReport(finished: int)

  /** The branch of `main` on `argc` and on the rank. */
  function Dispatch(argc: int, rank: int): (r: Role)
    ensures r.Usage? <==> argc != 3
    ensures r.Usage? ==> r.status == 1
    ensures r == RunController <==> argc == 3 && rank == 0
    ensures r == RunWalker <==> argc == 3 && rank != 0
  {
    if argc != 3 then Usage(1)
    else if rank == 0 then RunController
    else RunWalker
  }

  /** The value `main` returns after running a role. */
  function ExitStatus(r: Role): int
  {
    if r.Usage? then r.status else 0
  }

  /**
   One rank running `main`. `domainSize` and `maxSteps` are the parsed
   arguments; `flips` are this rank's coin flips and `inbox` the messages it
   would receive.
   */
  method RunRank(argc: int, rank: int, worldSize: int, domainSize: int, maxSteps: int,
                 flips: seq<bool>, inbox: seq<Controller.Signal>)
    returns (status: int, report: Report)
    requires argc == 3 && rank != 0 ==> maxSteps <= |flips|
    requires argc == 3 && rank == 0 ==> Max(worldSize - 1, 0) <= |inbox|
    ensures status == 1 <==> argc != 3
    ensures status == 0 <==> argc == 3
    ensures argc != 3 ==> report == NoReport
    ensures argc == 3 && rank == 0 ==> report == ControllerReport(Max(worldSize - 1, 0))
    ensures argc == 3 && rank != 0 ==>
      report.WalkerReport? && Walker.IsReported(flips, domainSize, maxSteps, report.step)
  {
    var role := Dispatch(argc, rank);
    match role
    case Usage(code) =>
      status, report := code, NoReport;
    case RunController =>
      var finished, _, _ := Controller.ControllerProcess(worldSize, inbox);
      status, report := ExitStatus(role), ControllerReport(finished);
    case RunWalker =>
      var step, _ := Walker.WalkerProcess(flips, domainSize, maxSteps);
      status, report := ExitStatus(role), WalkerReport(step);
  }

  /** Each walker has at least `maxSteps` coin flips to draw from. */
  predicate WellSupplied(runs: seq<seq<bool>>, maxSteps: int)
  {
    forall i :: 0 <= i < |runs| ==> maxSteps <= |runs[i]|
  }

  /** The messages the walkers send: walker `i + 1` reports the step of its walk. */
  function Signals(runs: seq<seq<bool>>, domainSize: int, maxSteps: int): (r: seq<Controller.Signal>)
    requires WellSupplied(runs, maxSteps)
    ensures |r| == |runs|
    ensures forall i :: 0 <= i < |r| ==>
      r[i].source == i + 1 && r[i].steps == Walker.ExitStep(runs[i], domainSize, maxSteps)
    decreases |runs|
  {
    if |runs| == 0 then []
    else
      Signals(runs[..|runs| - 1], domainSize, maxSteps)
        + [Controller.Signal(|runs|, Walker.ExitStep(runs[|runs| - 1], domainSize, maxSteps))]
  }

  /**
   Group completion: when each of the `worldSize - 1` walkers sends its one
   message and the messages arrive in any order, the controller counts all of
   them, ends with `finished_count == worldSize - 1` and leaves none unread.
   */
  lemma GroupCompletes(worldSize: int, domainSize: int, maxSteps: int,
                       runs: seq<seq<bool>>, inbox: seq<Controller.Signal>)
    requires worldSize >= 1
    requires |runs| == worldSize - 1
    requires WellSupplied(runs, maxSteps)
    requires multiset(inbox) == multiset(Signals(runs, domainSize, maxSteps))
    ensures Controller.Pending(Controller.Start(worldSize)) <= |inbox|
    ensures Controller.Drain(Controller.Start(worldSize), inbox).0.finished == worldSize - 1
    ensures Controller.Drain(Controller.Start(worldSize), inbox).1 == []
  {
    var signals := Signals(runs, domainSize, maxSteps);
    assert |inbox| == |multiset(inbox)| == |multiset(signals)| == |signals|;
    Controller.DrainConsumesPending(Controller.Start(worldSize), inbox);
  }
}
