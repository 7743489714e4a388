/** Complete runs of a batch, with and without bars, and that there always is one. */
module Executions {
  import opened ExitCodes
  import opened Worker
  import opened Feeder
  import opened Protocol
  import opened BatchRun
  import opened Cancellation
  import opened MissingStatus
  import opened QuietBatch
  import opened FineRuns
  import WorkerFacts

  /** A batch that was run: its qubes, the concurrency, and the steps taken. */
  datatype Execution = Execution(qubes: seq<Qube>, slots: nat, steps: seq<Step>) {
    ghost function Config(): Protocol.Config {
      ConfigOf(qubes, slots)
    }
  }

  ghost function EndOf(x: Execution): State
    requires IsRun(x.Config(), Initial(x.Config()), x.steps)
  {
    Exec(x.Config(), Initial(x.Config()), x.steps)
  }

  /** The steps go on as long as they can; without bars the feeder takes none. */
  ghost predicate IsExecution(x: Execution, bars: bool) {
    && ValidQubes(x.qubes) && x.slots >= 1
    && IsRun(x.Config(), Initial(x.Config()), x.steps)
    && if bars then !CanMove(x.Config(), EndOf(x)) else Consume !in x.steps && !CanWork(x.Config(), EndOf(x))
  }

  /** There was nothing to do, or every qube went well without SIGINT. */
  ghost predicate WentWell(x: Execution)
    requires IsRun(x.Config(), Initial(x.Config()), x.steps)
  {
    x.qubes == [] || (!EndOf(x).terminated && forall i | 0 <= i < |x.qubes| :: AllWell(x.qubes[i]))
  }

  // ---------------------------------------------------------------- codes

  lemma ExecutionEnds(x: Execution, bars: bool)
    requires IsExecution(x, bars)
    ensures ValidConfig(x.Config()) && Inv(x.Config(), EndOf(x)) && AllCollected(EndOf(x)) && AllReturned(EndOf(x).pcs)
    ensures bars ==> EndOf(x).feed.left == 0
    ensures !bars ==> EndOf(x).feed.statuses == map[]
  {
    hide Inv, ValidConfig, CanMove, CanWork, RunCode, AllReturned, ValidQubes, IsRun, Exec, Initial, ConfigOf, CodeMax;
    if bars {
      Ended(x.qubes, x.slots, x.steps);
      CodeTheorem(x.qubes, x.slots, x.steps);
    } else {
      QuietResult(x.qubes, x.slots, x.steps);
    }
  }

  /** The code of any execution, with or without bars; 1 and 40 never surface, and 130 only after SIGINT. */
  lemma ExecutionCode(x: Execution, bars: bool)
    requires IsExecution(x, bars)
    ensures RunCode(EndOf(x)) in {0, 21, 22, 23, 24, 25, 26, 130}
    ensures RunCode(EndOf(x)) == SIGINT <==> EndOf(x).terminated
    ensures RunCode(EndOf(x)) == OK <==> !EndOf(x).terminated && forall i | 0 <= i < |x.qubes| :: AllWell(x.qubes[i])
  {
    hide Inv, ValidConfig, CanMove, CanWork, RunCode, AllReturned, ValidQubes, IsRun, Exec, Initial, ConfigOf, CodeMax, AllWell;
    ExecutionEnds(x, bars);
    CollectedCodeIs(x.qubes, x.slots, EndOf(x));
    CodeMaxRange(Verdicts(EndOf(x).pcs));
    if !EndOf(x).terminated {
      CodeMaxZeroIff(x.qubes, x.slots, EndOf(x));
    }
  }

  // ---------------------------------------------------------------- statuses

  /** Statuses are kept under the names of bars. */
  lemma StatusesAreOfBars(x: Execution, bars: bool, name: string)
    requires IsExecution(x, bars) && forall i | 0 <= i < |x.qubes| :: BarName(x.qubes[i]) != name
    ensures name !in EndOf(x).feed.statuses
  {
    hide ValidConfig, CanMove, CanWork, RunCode, AllReturned, ValidQubes, IsRun, Exec, BarName;
    ExecutionEnds(x, bars);
    var c, s := x.Config(), EndOf(x);
    StatusesKnown(FreshFeed(c), s.sent[..s.fed]);
    if name in Names(c) {
      var i :| 0 <= i < |c.plans| && c.plans[i].name == name;
      assert c.plans[i] == PlanOf(x.qubes[i]);
    }
  }

  /** With bars and without a second DONE, every qube has its own status. */
  lemma StatusesAreComplete(x: Execution)
    requires IsExecution(x, true) && forall i | 0 <= i < |x.qubes| :: !DoubleDone(x.qubes[i], false, false)
    ensures var s := EndOf(x);
            && |s.pcs| == |x.qubes|
            && forall i | 0 <= i < |x.qubes| :: HasOutcome(s.pcs[i]) && BarName(x.qubes[i]) in s.feed.statuses
                 && LastStatus(s.pcs[i].out.messages) == Some(s.feed.statuses[BarName(x.qubes[i])])
  {
    hide ValidConfig, CanMove, RunCode, ValidQubes, IsRun, Exec, LastStatus, DoubleDone, Inv;
    var c := x.Config();
    BatchTheorem(x.qubes, x.slots, x.steps);
    forall i | 0 <= i < |x.qubes| ensures c.plans[i].name == BarName(x.qubes[i]) {
      assert c.plans[i] == PlanOf(x.qubes[i]);
    }
  }

  /** A status is missing at the end only if one was missing when the feeder loop ended. */
  lemma MissingMeans(x: Execution, i: nat)
    requires IsExecution(x, true) && i < |x.qubes| && BarName(x.qubes[i]) !in EndOf(x).feed.statuses
    ensures |x.qubes| >= 2 && exists k :: 0 <= k < |x.qubes| && DoubleDone(x.qubes[k], false, false)
  {
    hide ValidConfig, CanMove, ValidQubes, IsRun, Exec, DoubleDone, Inv;
    var c := x.Config();
    ExecutionEnds(x, true);
    assert c.plans[i] == PlanOf(x.qubes[i]);
    assert BarName(x.qubes[i]) in Names(c);
    assert StatusMissing(c, EndOf(x));
    MissingStatusIff(x.qubes, x.slots);
  }

  // ---------------------------------------------------------------- existence

  /** Every state leads to one from which it cannot go on, without SIGINT. */
  lemma {:induction false} Finish(c: Config, s: State) returns (steps: seq<Step>)
    requires Shape(c, s)
    ensures IsRun(c, s, steps) && !CanMove(c, Exec(c, s, steps))
    ensures Exec(c, s, steps).terminated == s.terminated
    decreases Measure(c, s)
  {
    if CanMove(c, s) {
      var step :| Enabled(c, s, step) && !step.Interrupt?;
      StepDecreases(c, s, step);
      var rest := Finish(c, Apply(c, s, step));
      steps := [step] + rest;
      assert steps[1..] == rest;
    } else {
      steps := [];
    }
  }

  /** The same without the feeder. */
  lemma {:induction false} FinishQuietly(c: Config, s: State) returns (steps: seq<Step>)
    requires Shape(c, s)
    ensures IsRun(c, s, steps) && !CanWork(c, Exec(c, s, steps)) && Consume !in steps
    ensures Exec(c, s, steps).terminated == s.terminated
    decreases Measure(c, s)
  {
    if CanWork(c, s) {
      var step :| Enabled(c, s, step) && !step.Interrupt? && !step.Consume?;
      StepDecreases(c, s, step);
      var rest := FinishQuietly(c, Apply(c, s, step));
      steps := [step] + rest;
      assert steps[1..] == rest;
    } else {
      steps := [];
    }
  }

  /** Every batch has an execution without SIGINT, with bars and without. */
  lemma SomeExecution(qubes: seq<Qube>, slots: nat, bars: bool) returns (x: Execution)
    requires ValidQubes(qubes) && slots >= 1
    ensures IsExecution(x, bars) && !EndOf(x).terminated && x.qubes == qubes && x.slots == slots
  {
    hide ValidConfig, CanMove, CanWork, ValidQubes, IsRun, Exec;
    var c := ConfigOf(qubes, slots);
    ConfigIsValid(qubes, slots);
    InitialInv(c);
    var steps;
    if bars {
      steps := Finish(c, Initial(c));
    } else {
      steps := FinishQuietly(c, Initial(c));
    }
    x := Execution(qubes, slots, steps);
  }

  /** Once the feeder loop has ended nothing changes in what it has collected. */
  lemma {:induction false} FeedIsClosed(c: Config, s: State, steps: seq<Step>)
    requires IsRun(c, s, steps) && s.feed.left == 0
    ensures Exec(c, s, steps).feed == s.feed
    decreases |steps|
  {
    if steps != [] {
      FeedIsClosed(c, Apply(c, s, steps[0]), steps[1..]);
    }
  }

  /** With two qubes or more, one of which can double its DONE, some execution without SIGINT lacks a status. */
  lemma SomeExecutionMisses(qubes: seq<Qube>, slots: nat, double: nat) returns (x: Execution, i: nat)
    requires ValidQubes(qubes) && slots >= 1 && |qubes| >= 2
    requires double < |qubes| && DoubleDone(qubes[double], false, false)
    ensures IsExecution(x, true) && !EndOf(x).terminated && x.qubes == qubes && x.slots == slots
    ensures i < |qubes| && BarName(qubes[i]) !in EndOf(x).feed.statuses
  {
    hide ValidConfig, CanMove, IsRun, Exec, Inv, Trace, DoubleDone;
    var c := ConfigOf(qubes, slots);
    ConfigIsValid(qubes, slots);
    DoneAccounting(qubes[double], false, false);
    assert c.plans[double] == PlanOf(qubes[double]);
    var missing := SecondDoneMisses(c, double);
    var mid := Exec(c, Initial(c), missing);
    InitialInv(c);
    RunInv(c, Initial(c), missing);
    RetCodeIs(c, mid);
    var rest := Finish(c, mid);
    RunConcat(c, Initial(c), missing, rest);
    FeedIsClosed(c, mid, rest);
    x := Execution(qubes, slots, missing + rest);
    var name :| name in Names(c) && name !in mid.feed.statuses;
    i :| i < |c.plans| && c.plans[i].name == name;
    assert c.plans[i] == PlanOf(qubes[i]);
  }

  // ---------------------------------------------------------------- interrupted batches

  /**
   A batch that SIGINT hits after the steps `before`: by the end a qube that had not begun has said that it is
   cancelled and nothing else, and one that was still being sent the agent has not run it.
   */
  lemma InterruptedQube(qubes: seq<Qube>, slots: nat, before: seq<Step>, after: seq<Step>, i: nat)
    requires ValidQubes(qubes) && slots >= 1 && i < |qubes|
    requires var c := ConfigOf(qubes, slots);
             && IsRun(c, Initial(c), before)
             && IsRun(c, Exec(c, Initial(c), before).(terminated := true), after)
             && !CanMove(c, Exec(c, Exec(c, Initial(c), before).(terminated := true), after))
    ensures var c := ConfigOf(qubes, slots);
            var hit := Exec(c, Initial(c), before);
            var end := Exec(c, hit.(terminated := true), after);
            && |hit.pcs| == |end.pcs| == |qubes| && HasOutcome(end.pcs[i])
            && (hit.pcs[i].Ready? ==> end.pcs[i].out == Outcome([Message(BarName(qubes[i]), Done(CANCELLED))], 130, false))
            && (hit.pcs[i].Transferring? ==> end.pcs[i].out == Trace(qubes[i], false, true) && !end.pcs[i].out.launched)
  {
    hide ValidConfig, CanMove, ValidQubes, IsRun, Exec, Inv, Trace, Complete;
    var c := ConfigOf(qubes, slots);
    var hit := Exec(c, Initial(c), before);
    var state := hit.(terminated := true);
    var end := Exec(c, state, after);
    ConfigIsValid(qubes, slots);
    InitialInv(c);
    RunInv(c, Initial(c), before);
    InterruptInv(c, hit);
    RunInv(c, state, after);
    RetCodeIs(c, hit);
    RetCodeIs(c, end);
    InterruptedOutcome(c, state, after, i);
    EndedAll(c, end);
    assert c.plans[i] == PlanOf(qubes[i]);
    WorkerFacts.CancelledAtOnce(qubes[i], false);
    WorkerFacts.LaunchedIff(qubes[i], false, true);
  }

  lemma EndedAll(c: Config, s: State)
    requires ValidConfig(c) && Inv(c, s) && !CanMove(c, s)
    ensures |s.pcs| == |c.plans| && forall i | 0 <= i < |s.pcs| :: s.pcs[i].Finished?
  {
    if !Complete(s) {
      NeverStuck(c, s);
    }
    AllFinished(c, s);
  }
}
