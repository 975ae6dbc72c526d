# MPI random walk: walker, controller and startup dispatch

A Dafny model of `random_walk.cpp`, an MPI program in which rank 0 is a
controller and every other rank is a walker. Each walker runs a bounded 1-D
random walk, reports the value of its step counter to rank 0, and rank 0 counts
one completion message per walker before announcing that all walkers have
finished.

- `numbers.dfy` (`Numbers`): `Abs` (as `std::abs`) and `Max`.
- `walker.dfy` (`Walker`): the walk of `walker_process`. The `rand()` draws are
  replaced by a given sequence of coin flips, `true` for +1 and `false` for -1.
  `WalkerProcess` is the loop itself. `ExitStep` is a recursive reference
  search. `IsReported` is the declarative description: the first step within
  the budget whose position is strictly outside `[-domainSize, domainSize]`,
  else `max(maxSteps, 0) + 1`.
- `controller.dfy` (`Controller`): the counting loop of `controller_process`.
  Each `MPI_Recv` from any source takes the next message of an inbox sequence.
  `Drain` and `Trace` are the reference semantics of that loop.
- `startup.dfy` (`Startup`): the `argc` check and the choice of role by rank in
  `main`, one rank's whole run, and the group of walkers plus controller.

The walker reports the loop variable `step` after the `for` loop. When it never
leaves the domain, that value is `maxSteps + 1`, one more than the number of
moves it made. When `maxSteps <= 0` it is `1`, with no move made. In those
cases, the line "Walker finished in N steps" (random_walk.cpp:74-75) prints one more than the
number of moves made: with a domain of 1 000 000 and 10 steps it prints 11
(`WideDomainScenario`).

## Model

| member | source | states |
|---|---|---|
| Walker.WalkerProcess | random_walk.cpp:58-71 | the loop reports a step in `1 .. max(max_steps,0)+1` that is the first budgeted step strictly outside the domain, or `max(max_steps,0)+1` if every budgeted position stayed inside; it equals the reference search, and the final position is the position after the moves actually made |
| Walker.ExitFromIsReported | random_walk.cpp:60-70 | the reference search from any step, given that earlier steps stayed inside, returns a value meeting the first-exit description |
| Walker.ReportedIsExitFrom | random_walk.cpp:60-70 | any value meeting the first-exit description is what the reference search returns |
| Walker.ExitStepCharacterized | random_walk.cpp:59-71 | a value is the reported step if and only if it meets the first-exit description (both directions) |
| Walker.ExitStepBounds | random_walk.cpp:59-71 | the reported step is at least 1 and at most `max(max_steps, 0) + 1` |
| Walker.PositionWithinMoves | random_walk.cpp:63-64 | every move is ±1, so after n moves `|position| <= n` |
| Walker.ExitPositionExact | random_walk.cpp:63-69 | for `domain_size >= 0`, a walker that leaves within the budget is at exactly `±(domain_size + 1)` |
| Walker.TouchingEdgeContinues | random_walk.cpp:67 | the exit test is strict: while every position up to step j is within the closed domain, including exactly `±domain_size`, the reported step is past j |
| Walker.WideDomainNeverExits | random_walk.cpp:60-70 | with `domain_size >= max_steps` no exit is possible and the report is `max(max_steps, 0) + 1` |
| Walker.WideDomainScenario | random_walk.cpp:59-75 | with domain 1 000 000 and 10 steps every walker reports 11 |
| Walker.PositionOfPrefix | random_walk.cpp:63-64 | the position after n moves depends only on the first n draws |
| Walker.OnlyBudgetFlipsMatter | random_walk.cpp:60-63 | at most `max_steps` draws are used: two flip sequences that agree on their first `max_steps` entries give the same report |
| Controller.Receive | random_walk.cpp:99-108 | one receive counts one message: one fewer to wait for and the count never passing `num_walkers`, which together fix the new count at `finished_count + 1` whatever the message holds |
| Controller.ControllerProcess | random_walk.cpp:91-109 | the loop makes exactly `max(world_size - 1, 0)` receives, ends with `finished_count == max(world_size - 1, 0)`, agrees with the reference semantics, and the counts it goes through are exactly the reference trace |
| Controller.DrainConsumesPending | random_walk.cpp:97-109 | from any state the loop reads exactly the pending number of messages and stops with the count at `max(num_walkers, finished_count)` |
| Controller.OutcomeIgnoresMessages | random_walk.cpp:97-108 | the final state and the number of messages read do not depend on the messages' sources, payloads or order |
| Controller.ReorderedInboxSameOutcome | random_walk.cpp:97-108 | any reordering of the arriving messages gives the same final state |
| Controller.TraceMatchesDrain | random_walk.cpp:97-109 | the trace of counts has one entry per message the loop reads, and its last entry is the count the loop stops with |
| Controller.TraceStepsByOne | random_walk.cpp:97-108 | `finished_count` rises by exactly 1 per message, never passes `num_walkers`, and reaches it only at the last receive |
| Startup.Dispatch | random_walk.cpp:23-46 | `argc != 3` gives usage with status 1; otherwise rank 0 is the controller and every other rank a walker (each as an if-and-only-if) |
| Startup.RunRank | random_walk.cpp:23-50 | a rank returns 1 without running a role exactly when `argc != 3`, else returns 0 after running the controller (which counts `max(world_size - 1, 0)` messages) or a walker (whose report meets the first-exit description) |
| Startup.Signals | random_walk.cpp:74-86 | walker rank i+1 sends exactly one message, carrying its reported step |
| Startup.GroupCompletes | random_walk.cpp:79-109 | when each of the `world_size - 1` walkers sends one message and they arrive in any order, the controller counts all of them and reads none beyond them |

## Left out

- `MPI_Init`, `MPI_Finalize`, `MPI_Comm_size`, `MPI_Comm_rank`, `MPI_Send` and `MPI_Recv`: the ranks do not run concurrently here; received messages are an input sequence and sent messages are values (`Startup.Signals`).
- The hang when a walker never sends: `Controller.ControllerProcess` requires the inbox to hold at least `max(world_size - 1, 0)` messages.
- `srand`/`time` seeding and the `rand()` distribution: replaced by a given coin-flip sequence. `Walker.WalkerProcess` requires at least `max_steps` flips, standing for a generator that never runs dry.
- `atoi` parsing of the two arguments: `domainSize` and `maxSteps` are given integers.
- Console output (usage message, the walker's and controller's lines): observational only.
- C++ `int` overflow: integers are unbounded, so `++step` with `max_steps == INT_MAX` (undefined behaviour in C++) is not modelled.
