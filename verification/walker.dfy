/**
 A model of `walker_process`: a bounded 1-D random walk that starts at 0, moves
 one unit left or right per step and stops at the first step whose position lies
 strictly outside `[-domainSize, domainSize]`, or when the step counter passes
 `maxSteps`. The random draws are replaced by a given sequence of coin flips
 (`true` moves +1, `false` moves -1), which makes the walk a deterministic
 function of its inputs. The reported value is the loop counter `step` after the
 loop, which is one more than the number of moves when the walker never leaves.
 */
module Walker {
  import opened Numbers

  /** The effect of one coin flip on the position. */
  function Move(heads: bool): int
  {
    if heads then 1 else -1
  }

  /** Position after the first `n` moves: the prefix sum of the moves. */
  function Position(flips: seq<bool>, n: nat): int
    requires n <= |flips|
  {
    if n == 0 then 0 else Position(flips, n - 1) + Move(flips[n - 1])
  }

  /** The walker has left the domain: the test is a strict `>`. */
  predicate Outside(position: int, domainSize: int)
  {
    Abs(position) > domainSize
  }

  /** Every position after moves 1..k lies inside the domain (vacuous for k <= 0). */
  predicate InsideUpTo(flips: seq<bool>, domainSize: int, k: int)
    requires k <= |flips|
  {
    forall j :: 1 <= j <= k ==> !Outside(Position(flips, j), domainSize)
  }

  /**
   Declarative description of the value the walker reports: either the first
   step, within the budget, at which the position is outside the domain, or
   `max(maxSteps, 0) + 1` when no step within the budget leaves it.
   */
  predicate IsReported(flips: seq<bool>, domainSize: int, maxSteps: int, step: int)
    requires maxSteps <= |flips|
  {
    if 1 <= step <= maxSteps then
      Outside(Position(flips, step), domainSize) && InsideUpTo(flips, domainSize, step - 1)
    else
      step == Max(maxSteps, 0) + 1 && InsideUpTo(flips, domainSize, maxSteps)
  }

  /** Reference search: the reported step, looking from `step` onwards. */
  function ExitFrom(flips: seq<bool>, domainSize: int, maxSteps: int, step: int): (r: int)
    requires 1 <= step
    requires maxSteps <= |flips|
    ensures step <= r
    decreases maxSteps + 1 - step
  {
    if step > maxSteps then step
    else if Outside(Position(flips, step), domainSize) then step
    else ExitFrom(flips, domainSize, maxSteps, step + 1)
  }

  /** The reported step of a whole walk. */
  function ExitStep(flips: seq<bool>, domainSize: int, maxSteps: int): int
    requires maxSteps <= |flips|
  {
    ExitFrom(flips, domainSize, maxSteps, 1)
  }

  /**
   The loop of `walker_process`. `flips[i]` stands for the (i+1)-th `rand()`
   draw; `position` is the position after the last move made.
   */
  method WalkerProcess(flips: seq<bool>, domainSize: int, maxSteps: int)
    returns (step: int, position: int)
    requires maxSteps <= |flips|
    ensures 1 <= step <= Max(maxSteps, 0) + 1
    ensures IsReported(flips, domainSize, maxSteps, step)
    ensures step == ExitStep(flips, domainSize, maxSteps)
    ensures step <= maxSteps ==> position == Position(flips, step)
    ensures step > maxSteps ==> position == Position(flips, Max(maxSteps, 0))
  {
    position := 0;
    step := 1;
    while step <= maxSteps
      invariant 1 <= step <= Max(maxSteps, 0) + 1
      invariant position == Position(flips, step - 1)
      invariant InsideUpTo(flips, domainSize, step - 1)
      invariant ExitStep(flips, domainSize, maxSteps) == ExitFrom(flips, domainSize, maxSteps, step)
    {
      var delta := Move(flips[step - 1]);
      position := position + delta;
      if Abs(position) > domainSize {
        break;
      }
      step := step + 1;
    }
  }

  /** The reference search meets the declarative description. */
  lemma {:induction false} ExitFromIsReported(flips: seq<bool>, domainSize: int, maxSteps: int, step: int)
    requires maxSteps <= |flips|
    requires 1 <= step <= Max(maxSteps, 0) + 1
    requires InsideUpTo(flips, domainSize, step - 1)
    ensures IsReported(flips, domainSize, maxSteps, ExitFrom(flips, domainSize, maxSteps, step))
    decreases maxSteps + 1 - step
  {
    if step > maxSteps {
    } else if Outside(Position(flips, step), domainSize) {
    } else {
      ExitFromIsReported(flips, domainSize, maxSteps, step + 1);
    }
  }

  /**
   Conversely, a value meeting the declarative description is what the search
   finds from any earlier starting step.
   */
  lemma {:induction false} ReportedIsExitFrom(flips: seq<bool>, domainSize: int, maxSteps: int, s: int, step: int)
    requires maxSteps <= |flips|
    requires IsReported(flips, domainSize, maxSteps, s)
    requires 1 <= step <= s
    ensures ExitFrom(flips, domainSize, maxSteps, step) == s
    decreases maxSteps + 1 - step
  {
    if step <= maxSteps && !Outside(Position(flips, step), domainSize) {
      ReportedIsExitFrom(flips, domainSize, maxSteps, s, step + 1);
    }
  }

  /** The reported step is exactly the value the declarative description names. */
  lemma ExitStepCharacterized(flips: seq<bool>, domainSize: int, maxSteps: int, s: int)
    requires maxSteps <= |flips|
    ensures s == ExitStep(flips, domainSize, maxSteps) <==> IsReported(flips, domainSize, maxSteps, s)
  {
    ExitFromIsReported(flips, domainSize, maxSteps, 1);
    if IsReported(flips, domainSize, maxSteps, s) {
      ReportedIsExitFrom(flips, domainSize, maxSteps, s, 1);
    }
  }

  /** The reported step lies in `1 .. max(maxSteps, 0) + 1`. */
  lemma ExitStepBounds(flips: seq<bool>, domainSize: int, maxSteps: int)
    requires maxSteps <= |flips|
    ensures 1 <= ExitStep(flips, domainSize, maxSteps) <= Max(maxSteps, 0) + 1
  {
    ExitFromIsReported(flips, domainSize, maxSteps, 1);
  }

  /** Each move changes the position by one, so `|position| <= moves made`. */
  lemma {:induction false} PositionWithinMoves(flips: seq<bool>, n: nat)
    requires n <= |flips|
    ensures Abs(Position(flips, n)) <= n
  {
    if n > 0 {
      PositionWithinMoves(flips, n - 1);
    }
  }

  /** A walker that leaves a domain of size `domainSize >= 0` is exactly one unit beyond its edge. */
  lemma ExitPositionExact(flips: seq<bool>, domainSize: int, maxSteps: int)
    requires maxSteps <= |flips|
    requires domainSize >= 0
    requires ExitStep(flips, domainSize, maxSteps) <= maxSteps
    ensures Abs(Position(flips, ExitStep(flips, domainSize, maxSteps))) == domainSize + 1
  {
    var s := ExitStep(flips, domainSize, maxSteps);
    ExitFromIsReported(flips, domainSize, maxSteps, 1);
    if s > 1 {
      assert !Outside(Position(flips, s - 1), domainSize);
    }
  }

  /**
   Reaching the edge `±domainSize` does not stop the walk: while every position
   up to step `j` is within the closed domain, the reported step is past `j`.
   */
  lemma TouchingEdgeContinues(flips: seq<bool>, domainSize: int, maxSteps: int, j: int)
    requires maxSteps <= |flips|
    requires 1 <= j <= maxSteps
    requires InsideUpTo(flips, domainSize, j)
    ensures ExitStep(flips, domainSize, maxSteps) > j
  {
    ExitFromIsReported(flips, domainSize, maxSteps, 1);
  }

  /**
   When the domain is at least as wide as the budget, no exit is possible and
   the walker reports `max(maxSteps, 0) + 1`.
   */
  lemma WideDomainNeverExits(flips: seq<bool>, domainSize: int, maxSteps: int)
    requires maxSteps <= |flips|
    requires domainSize >= maxSteps
    ensures ExitStep(flips, domainSize, maxSteps) == Max(maxSteps, 0) + 1
  {
    forall j | 1 <= j <= maxSteps
      ensures !Outside(Position(flips, j), domainSize)
    {
      PositionWithinMoves(flips, j);
    }
    ExitStepCharacterized(flips, domainSize, maxSteps, Max(maxSteps, 0) + 1);
  }

  /**
   An instance of `WideDomainNeverExits` showing the extra 1: with a domain of
   1 000 000 and a budget of 10 a walker makes 10 moves and reports 11.
   */
  lemma WideDomainScenario(flips: seq<bool>)
    requires 10 <= |flips|
    ensures ExitStep(flips, 1000000, 10) == 11
  {
    WideDomainNeverExits(flips, 1000000, 10);
  }

  /** Positions depend only on the flips already drawn. */
  lemma {:induction false} PositionOfPrefix(a: seq<bool>, b: seq<bool>, n: nat)
    requires n <= |a| && n <= |b|
    requires a[..n] == b[..n]
    ensures Position(a, n) == Position(b, n)
  {
    if n > 0 {
      assert a[..n - 1] == a[..n][..n - 1] && b[..n - 1] == b[..n][..n - 1];
      assert a[n - 1] == a[..n][n - 1] && b[n - 1] == b[..n][n - 1];
      PositionOfPrefix(a, b, n - 1);
    }
  }

  /** The walker draws at most `maxSteps` flips: later flips cannot change its report. */
  lemma OnlyBudgetFlipsMatter(a: seq<bool>, b: seq<bool>, domainSize: int, maxSteps: int)
    requires 0 <= maxSteps <= |a| && maxSteps <= |b|
    requires a[..maxSteps] == b[..maxSteps]
    ensures ExitStep(a, domainSize, maxSteps) == ExitStep(b, domainSize, maxSteps)
  {
    forall j | 1 <= j <= maxSteps
      ensures Position(a, j) == Position(b, j)
    {
      assert a[..j] == a[..maxSteps][..j] && b[..j] == b[..maxSteps][..j];
      PositionOfPrefix(a, b, j);
    }
    var s := ExitStep(a, domainSize, maxSteps);
    ExitStepCharacterized(a, domainSize, maxSteps, s);
    ExitStepCharacterized(b, domainSize, maxSteps, s);
  }
}
