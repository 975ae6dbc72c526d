/**
 A model of `controller_process`: rank 0 counts completion messages until it
 has one per walker. Each blocking receive from any source is modelled as
 taking the next element of an inbox sequence, whose order stands for the
 (arbitrary) order in which the messages arrive.
 */
module Controller {
  import opened Numbers

  /** A completion message: the sending rank and the step count it carries. */
  datatype Signal = Signal(source: int, steps: int)

  /** The controller's loop state: `num_walkers` and `finished_count`. */
  datatype Coordinator = Coordinator(numWalkers: int, finished: int)

  /** The state before the first receive, for a group of `worldSize` ranks. */
  function Start(worldSize: int): Coordinator
  {
    Coordinator(worldSize - 1, 0)
  }

  /** The loop guard: some walker has not been counted yet. */
  predicate Waiting(c: Coordinator)
  {
    c.finished < c.numWalkers
  }

  /** How many receives are still to come. */
  function Pending(c: Coordinator): nat
  {
    Max(c.numWalkers - c.finished, 0)
  }

  /** One loop iteration: the received message is counted; its contents are not looked at. */
  function Receive(c: Coordinator, s: Signal): (c': Coordinator)
    requires Waiting(c)
    ensures c'.numWalkers == c.numWalkers
    ensures Pending(c') == Pending(c) - 1
    ensures c'.finished <= c'.numWalkers
  {
    c.(finished := c.finished + 1)
  }

  /** The whole loop: the final state and the messages left unread. */
  function Drain(c: Coordinator, inbox: seq<Signal>): (Coordinator, seq<Signal>)
    requires Pending(c) <= |inbox|
    decreases Pending(c)
  {
    if !Waiting(c) then (c, inbox)
    else Drain(Receive(c, inbox[0]), inbox[1..])
  }

  /**
   The values `finished_count` takes, one after each receive. It follows the
   same steps as `Drain`, recording the count instead of the final state;
   `TraceMatchesDrain` ties the two together.
   */
  function Trace(c: Coordinator, inbox: seq<Signal>): seq<int>
    requires Pending(c) <= |inbox|
    decreases Pending(c)
  {
    if !Waiting(c) then []
    else [Receive(c, inbox[0]).finished] + Trace(Receive(c, inbox[0]), inbox[1..])
  }

  /**
   The loop of `controller_process`. `rest` is what is left of the inbox when
   the loop ends.
   */
  method ControllerProcess(worldSize: int, inbox: seq<Signal>)
    returns (finishedCount: int, rest: seq<Signal>, ghost trace: seq<int>)
    requires Max(worldSize - 1, 0) <= |inbox|
    ensures finishedCount == Max(worldSize - 1, 0)
    ensures rest == inbox[Max(worldSize - 1, 0)..]
    ensures Drain(Start(worldSize), inbox) == (Coordinator(worldSize - 1, finishedCount), rest)
    ensures trace == Trace(Start(worldSize), inbox)
  {
    var numWalkers := worldSize - 1;
    finishedCount := 0;
    rest := inbox;
    trace := [];
    while finishedCount < numWalkers
      invariant 0 <= finishedCount <= Max(numWalkers, 0)
      invariant rest == inbox[finishedCount..]
      invariant Drain(Start(worldSize), inbox) == Drain(Coordinator(numWalkers, finishedCount), rest)
      invariant Trace(Start(worldSize), inbox) == trace + Trace(Coordinator(numWalkers, finishedCount), rest)
    {
      var received := rest[0];
      rest := rest[1..];
      finishedCount := finishedCount + 1;
      trace := trace + [finishedCount];
    }
  }

  /**
   The loop makes exactly `Pending(c)` receives and ends with the count at
   `numWalkers` (or where it was, if that was already past it).
   */
  lemma {:induction false} DrainConsumesPending(c: Coordinator, inbox: seq<Signal>)
    requires Pending(c) <= |inbox|
    ensures Drain(c, inbox).0 == Coordinator(c.numWalkers, Max(c.numWalkers, c.finished))
    ensures Drain(c, inbox).1 == inbox[Pending(c)..]
    decreases Pending(c)
  {
    if Waiting(c) {
      DrainConsumesPending(Receive(c, inbox[0]), inbox[1..]);
      assert inbox[1..][Pending(c) - 1..] == inbox[Pending(c)..];
    }
  }

  /**
   The outcome does not depend on the sources, payloads or arrival order of
   the messages: any two inboxes with enough messages lead to the same final
   state and leave the same number of messages unread.
   */
  lemma OutcomeIgnoresMessages(c: Coordinator, a: seq<Signal>, b: seq<Signal>)
    requires Pending(c) <= |a| && Pending(c) <= |b|
    ensures Drain(c, a).0 == Drain(c, b).0
    ensures |a| - |Drain(c, a).1| == |b| - |Drain(c, b).1|
  {
    DrainConsumesPending(c, a);
    DrainConsumesPending(c, b);
  }

  /** In particular, reordering the messages changes nothing. */
  lemma ReorderedInboxSameOutcome(c: Coordinator, a: seq<Signal>, b: seq<Signal>)
    requires Pending(c) <= |a|
    requires multiset(a) == multiset(b)
    ensures Pending(c) <= |b|
    ensures Drain(c, a).0 == Drain(c, b).0
    ensures |Drain(c, a).1| == |Drain(c, b).1|
  {
    assert |a| == |multiset(a)| == |multiset(b)| == |b|;
    OutcomeIgnoresMessages(c, a, b);
  }

  /**
   The count rises by exactly one per received message, never passes
   `numWalkers`, and reaches it only at the last receive.
   */
  lemma {:induction false} TraceStepsByOne(c: Coordinator, inbox: seq<Signal>)
    requires Pending(c) <= |inbox|
    ensures |Trace(c, inbox)| == Pending(c)
    ensures forall i :: 0 <= i < |Trace(c, inbox)| ==> Trace(c, inbox)[i] == c.finished + i + 1
    ensures forall i :: 0 <= i < |Trace(c, inbox)| ==> Trace(c, inbox)[i] <= c.numWalkers
    ensures forall i :: 0 <= i < |Trace(c, inbox)| - 1 ==> Trace(c, inbox)[i] < c.numWalkers
    decreases Pending(c)
  {
    if Waiting(c) {
      TraceStepsByOne(Receive(c, inbox[0]), inbox[1..]);
    }
  }

  /**
   The count trace has one entry per message the loop reads, and its last
   entry is the count the loop stops with.
   */
  lemma TraceMatchesDrain(c: Coordinator, inbox: seq<Signal>)
    requires Pending(c) <= |inbox|
    ensures |Trace(c, inbox)| == |inbox| - |Drain(c, inbox).1|
    ensures Waiting(c) ==> Trace(c, inbox)[|Trace(c, inbox)| - 1] == Drain(c, inbox).0.finished
  {
    TraceStepsByOne(c, inbox);
    DrainConsumesPending(c, inbox);
  }
}
