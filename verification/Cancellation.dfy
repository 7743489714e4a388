/** SIGINT during a batch, and the absence of deadlock: both over every interleaving. */
module Cancellation {
  import opened ExitCodes
  import opened Worker
  import opened Feeder
  import opened Protocol
  import opened BatchRun

  // ---------------------------------------------------------------- cancellation

  function CommittedCount(pcs: seq<Pc>): nat {
    if pcs == [] then 0
    else CommittedCount(pcs[..|pcs| - 1]) + if pcs[|pcs| - 1].Committed? then 1 else 0
  }

  function LaunchCount(steps: seq<Step>): nat {
    if steps == [] then 0
    else (if steps[0].Launch? then 1 else 0) + LaunchCount(steps[1..])
  }

  lemma {:induction false} CommittedUpdate(pcs: seq<Pc>, i: nat, pc: Pc)
    requires i < |pcs|
    ensures CommittedCount(pcs[i := pc])
            == CommittedCount(pcs) - (if pcs[i].Committed? then 1 else 0) + if pc.Committed? then 1 else 0
  {
    var n := |pcs| - 1;
    if i == n {
      assert pcs[i := pc][..n] == pcs[..n];
    } else {
      assert pcs[i := pc][..n] == pcs[..n][i := pc];
      CommittedUpdate(pcs[..n], i, pc);
    }
  }

  lemma {:induction false} CommittedAreActive(pcs: seq<Pc>)
    ensures CommittedCount(pcs) <= ActiveCount(pcs)
  {
    if pcs != [] {
      CommittedAreActive(pcs[..|pcs| - 1]);
    }
  }

  lemma LaunchStep(c: Config, s: State, step: Step)
    requires Enabled(c, s, step) && s.terminated
    ensures Apply(c, s, step).terminated
    ensures CommittedCount(Apply(c, s, step).pcs) + (if step.Launch? then 1 else 0) == CommittedCount(s.pcs)
  {
    if step.Begin? || step.Check? || step.Launch? || step.Put? || step.Return? {
      CommittedUpdate(s.pcs, step.i, Apply(c, s, step).pcs[step.i]);
    }
  }

  /**
   Once SIGINT has been seen the flag stays set, and the entrypoints still started are exactly the
   workers that had passed the second look and have left that point since.
   */
  lemma {:induction false} LaunchesAfterInterrupt(c: Config, s: State, steps: seq<Step>)
    requires IsRun(c, s, steps) && s.terminated
    ensures Exec(c, s, steps).terminated
    ensures LaunchCount(steps) + CommittedCount(Exec(c, s, steps).pcs) == CommittedCount(s.pcs)
    decreases |steps|
  {
    if steps != [] {
      LaunchStep(c, s, steps[0]);
      LaunchesAfterInterrupt(c, Apply(c, s, steps[0]), steps[1..]);
    }
  }

  /** So at most `--max-concurrency` entrypoints begin after the interrupt. */
  lemma PromptCancellation(c: Config, s: State, steps: seq<Step>)
    requires Inv(c, s) && IsRun(c, s, steps) && s.terminated
    ensures LaunchCount(steps) <= c.slots
  {
    LaunchesAfterInterrupt(c, s, steps);
    CommittedAreActive(s.pcs);
  }

  /** Wherever SIGINT falls into a run: few entrypoints start after it, and the batch's code is 130. */
  lemma InterruptedRun(c: Config, before: seq<Step>, after: seq<Step>)
    requires ValidConfig(c) && IsRun(c, Initial(c), before)
    requires IsRun(c, Exec(c, Initial(c), before).(terminated := true), after)
    ensures LaunchCount(after) <= c.slots
    ensures var end := Exec(c, Exec(c, Initial(c), before).(terminated := true), after);
            RunCode(end) == SIGINT
  {
    hide Inv, ValidConfig, Initial;
    var hit := Exec(c, Initial(c), before).(terminated := true);
    InitialInv(c);
    RunInv(c, Initial(c), before);
    InterruptInv(c, Exec(c, Initial(c), before));
    PromptCancellation(c, hit, after);
    LaunchesAfterInterrupt(c, hit, after);
  }

  /** A worker that has started its entrypoint can only have its full outcome. */
  lemma {:induction false} LaunchedStays(c: Config, s: State, steps: seq<Step>, i: nat)
    requires IsRun(c, s, steps) && i < |c.plans| && |s.pcs| == |c.plans|
    requires HasOutcome(s.pcs[i])
    ensures var end := Exec(c, s, steps).pcs;
            |end| == |s.pcs| && HasOutcome(end[i]) && end[i].out == s.pcs[i].out
    ensures Launch(i) !in steps
    decreases |steps|
  {
    if steps != [] {
      LaunchedStays(c, Apply(c, s, steps[0]), steps[1..], i);
    }
  }

  lemma {:induction false} LaunchedMeansFull(c: Config, s: State, steps: seq<Step>, i: nat)
    requires IsRun(c, s, steps) && i < |c.plans| && |s.pcs| == |c.plans|
    requires Launch(i) in steps
    ensures var end := Exec(c, s, steps).pcs;
            |end| == |s.pcs| && HasOutcome(end[i]) && end[i].out == c.plans[i].full
    decreases |steps|
  {
    var next := Apply(c, s, steps[0]);
    if steps[0] == Launch(i) {
      LaunchedStays(c, next, steps[1..], i);
    } else {
      LaunchedMeansFull(c, next, steps[1..], i);
    }
  }

  lemma {:induction false} LastStatusIn(log: seq<Message>)
    requires LastStatus(log).Some?
    ensures exists m :: m in log && m.info == Done(LastStatus(log).value)
  {
    var m := log[|log| - 1];
    assert m in log;
    if !m.info.Done? {
      LastStatusIn(log[..|log| - 1]);
    }
  }

  function ConfigOf(qubes: seq<Qube>, slots: nat): Config {
    Config(seq(|qubes|, i requires 0 <= i < |qubes| => PlanOf(qubes[i])), slots)
  }

  ghost predicate ValidQubes(qubes: seq<Qube>) {
    && (forall i, j | 0 <= i < j < |qubes| :: BarName(qubes[i]) != BarName(qubes[j]))
    && (forall i | 0 <= i < |qubes| :: ConsistentName(qubes[i]) && QuietReaders(qubes[i]))
  }

  lemma ConfigIsValid(qubes: seq<Qube>, slots: nat)
    requires ValidQubes(qubes) && slots >= 1
    ensures ValidConfig(ConfigOf(qubes, slots))
  {
    forall i | 0 <= i < |qubes| ensures ValidPlan(PlanOf(qubes[i])) {
      PlanIsValid(qubes[i]);
    }
  }

  /** The statuses shown for a bar were sent by its own worker. */
  lemma ShownStatusWasSent(c: Config, s: State, i: nat)
    requires ValidConfig(c) && Inv(c, s) && i < |c.plans|
    requires c.plans[i].name in s.feed.statuses
    ensures HasOutcome(s.pcs[i]) && Possible(c.plans[i], s.pcs[i].out, s.terminated)
    ensures exists m :: m in s.pcs[i].out.messages && m.info == Done(s.feed.statuses[c.plans[i].name])
  {
    var name, seen := c.plans[i].name, s.sent[..s.fed];
    assert name in Names(c);
    FeedShows(FreshFeed(c), seen, name);
    WorkerShare(c, s, i);
    LastStatusIn(From(seen, name));
    var m :| m in From(seen, name) && m.info == Done(s.feed.statuses[name]);
    assert m in From(seen, name) + (From(Queue(s), name) + Pending(s.pcs[i]));
  }

  /** A qube shown as CANCELLED never ran its entrypoint. */
  lemma CancelledNeverRan(qubes: seq<Qube>, slots: nat, steps: seq<Step>, i: nat)
    requires ValidQubes(qubes) && slots >= 1 && i < |qubes|
    requires IsRun(ConfigOf(qubes, slots), Initial(ConfigOf(qubes, slots)), steps)
    requires var end := Exec(ConfigOf(qubes, slots), Initial(ConfigOf(qubes, slots)), steps);
             BarName(qubes[i]) in end.feed.statuses && end.feed.statuses[BarName(qubes[i])] == CANCELLED
    ensures Launch(i) !in steps
  {
    var c := ConfigOf(qubes, slots);
    var end := Exec(c, Initial(c), steps);
    ConfigIsValid(qubes, slots);
    InitialInv(c);
    RunInv(c, Initial(c), steps);
    assert c.plans[i] == PlanOf(qubes[i]);
    if Launch(i) in steps {
      LaunchedMeansFull(c, Initial(c), steps, i);
      ShownStatusWasSent(c, end, i);
      CancelledMeans(qubes[i], false, false);
    }
  }

  // ---------------------------------------------------------------- no deadlock, no livelock

  ghost function Longest(p: Plan): nat {
    Max(|p.early.messages|, Max(|p.late.messages|, |p.full.messages|))
  }

  /** An upper bound on the steps a worker still causes, itself and through the queue. */
  ghost function Rank(p: Plan, pc: Pc, collected: bool): nat {
    match pc
    case Ready => 2 * Longest(p) + 5
    case Transferring => 2 * Longest(p) + 4
    case Committed => 2 * Longest(p) + 3
    case Emitting(pending, _) => 2 * |pending| + 2
    case Finished(_) => if collected then 0 else 1
  }

  ghost function Ranks(plans: seq<Plan>, pcs: seq<Pc>, collected: seq<bool>): nat
    requires |plans| == |pcs| == |collected|
  {
    if pcs == [] then 0
    else
      var n := |pcs| - 1;
      Ranks(plans[..n], pcs[..n], collected[..n]) + Rank(plans[n], pcs[n], collected[n])
  }

  ghost function Measure(c: Config, s: State): nat
    requires Shape(c, s)
  {
    Ranks(c.plans, s.pcs, s.collected) + (|s.sent| - s.fed)
  }

  lemma {:induction false} RanksUpdate(plans: seq<Plan>, pcs: seq<Pc>, collected: seq<bool>, i: nat, pc: Pc, got: bool)
    requires |plans| == |pcs| == |collected| && i < |pcs|
    ensures Ranks(plans, pcs[i := pc], collected[i := got])
            == Ranks(plans, pcs, collected) - Rank(plans[i], pcs[i], collected[i]) + Rank(plans[i], pc, got)
  {
    var n := |pcs| - 1;
    if i == n {
      assert pcs[i := pc][..n] == pcs[..n] && collected[i := got][..n] == collected[..n];
    } else {
      assert pcs[i := pc][..n] == pcs[..n][i := pc] && collected[i := got][..n] == collected[..n][i := got];
      RanksUpdate(plans[..n], pcs[..n], collected[..n], i, pc, got);
    }
  }

  /** Every step but SIGINT brings the run closer to its end. */
  lemma StepDecreases(c: Config, s: State, step: Step)
    requires Enabled(c, s, step) && !step.Interrupt?
    ensures Shape(c, Apply(c, s, step))
    ensures Measure(c, Apply(c, s, step)) < Measure(c, s)
  {
    var next := Apply(c, s, step);
    if !step.Consume? {
      RanksUpdate(c.plans, s.pcs, s.collected, step.i, next.pcs[step.i], next.collected[step.i]);
      assert s.pcs[step.i := next.pcs[step.i]] == next.pcs;
      assert s.collected[step.i := next.collected[step.i]] == next.collected;
    }
  }

  function Interrupts(steps: seq<Step>): nat {
    if steps == [] then 0
    else (if steps[0].Interrupt? then 1 else 0) + Interrupts(steps[1..])
  }

  /** No run is longer than its start allows, apart from repeated SIGINTs. */
  lemma {:induction false} RunsAreBounded(c: Config, s: State, steps: seq<Step>)
    requires IsRun(c, s, steps) && Shape(c, s)
    ensures |steps| <= Measure(c, s) + Interrupts(steps)
    decreases |steps|
  {
    if steps != [] {
      if !steps[0].Interrupt? {
        StepDecreases(c, s, steps[0]);
      }
      RunsAreBounded(c, Apply(c, s, steps[0]), steps[1..]);
    }
  }

  lemma {:induction false} SomeActive(pcs: seq<Pc>)
    requires ActiveCount(pcs) > 0
    ensures exists i :: 0 <= i < |pcs| && Active(pcs[i])
  {
    if !Active(pcs[|pcs| - 1]) {
      SomeActive(pcs[..|pcs| - 1]);
    } else {
      assert Active(pcs[|pcs| - 1]);
    }
  }

  lemma ReturnedMeansShown(c: Config, s: State, i: nat)
    requires ValidConfig(c) && Inv(c, s) && i < |c.plans| && s.pcs[i].Finished? && s.fed == |s.sent|
    ensures c.plans[i].name in s.feed.statuses
  {
    WorkerShare(c, s, i);
    OutcomeDones(c.plans[i], s.pcs[i].out, s.terminated);
    assert Queue(s) == [];
    assert From(s.sent[..s.fed], c.plans[i].name) == s.pcs[i].out.messages;
    assert c.plans[i].name in Names(c);
    StatusKeys(FreshFeed(c), s.sent[..s.fed], c.plans[i].name);
  }

  /** A feeder that has shown a status for every bar has nothing left to wait for. */
  lemma ShownMeansDone(c: Config, s: State)
    requires DistinctNames(c) && Shape(c, s) && FeedInv(c, s)
    requires forall i | 0 <= i < |c.plans| :: c.plans[i].name in s.feed.statuses
    ensures s.feed.left == 0
  {
    StatusCount(FreshFeed(c), s.sent[..s.fed]);
    NamesCount(c, |c.plans|);
    SubsetSize(NamesUpTo(c, |c.plans|), s.feed.statuses.Keys);
    FeedLeft(FreshFeed(c), s.sent[..s.fed]);
  }

  /** When every worker has returned and the queue is drained, the feeder has nothing left to wait for. */
  lemma DrainedMeansDone(c: Config, s: State)
    requires ValidConfig(c) && Inv(c, s) && s.fed == |s.sent|
    requires forall i | 0 <= i < |s.pcs| :: s.pcs[i].Finished?
    ensures s.feed.left == 0
  {
    forall i | 0 <= i < |c.plans| ensures c.plans[i].name in s.feed.statuses {
      ReturnedMeansShown(c, s, i);
    }
    ShownMeansDone(c, s);
  }

  /** A step that is not SIGINT can be taken. */
  ghost predicate CanMove(c: Config, s: State) {
    exists step :: Enabled(c, s, step) && !step.Interrupt?
  }

  /** A step of the pool or of a worker can be taken. */
  ghost predicate CanWork(c: Config, s: State) {
    exists step :: Enabled(c, s, step) && !step.Interrupt? && !step.Consume?
  }

  lemma ActiveCanMove(c: Config, s: State, i: nat)
    requires Shape(c, s) && i < |s.pcs| && Active(s.pcs[i])
    ensures CanWork(c, s)
  {
    var step := match s.pcs[i]
      case Transferring => Check(i)
      case Committed => Launch(i)
      case Emitting(pending, _) => if pending == [] then Return(i) else Put(i)
      case _ => Interrupt;
    assert Enabled(c, s, step);
  }

  lemma QueueCanMove(c: Config, s: State)
    requires Inv(c, s) && s.feed.left > 0 && s.fed < |s.sent|
    ensures Enabled(c, s, Consume)
  {
    assert Queue(s)[0] == s.sent[s.fed] && s.sent[s.fed] in s.sent;
    assert s.feed.progresses.Keys == FreshFeed(c).progresses.Keys;
  }

  lemma IdleCanMove(c: Config, s: State, i: nat)
    requires Shape(c, s) && i < |s.pcs| && c.slots > ActiveCount(s.pcs)
    requires s.pcs[i].Ready? || (s.pcs[i].Finished? && !s.collected[i])
    ensures CanWork(c, s)
  {
    assert Enabled(c, s, if s.pcs[i].Ready? then Begin(i) else Collect(i));
  }

  lemma AllCollectedCanMove(c: Config, s: State)
    requires ValidConfig(c) && Inv(c, s) && !Complete(s)
    requires forall i | 0 <= i < |s.pcs| :: s.pcs[i].Finished? && s.collected[i]
    ensures CanMove(c, s)
  {
    if s.fed == |s.sent| {
      DrainedMeansDone(c, s);
    }
    QueueCanMove(c, s);
  }

  /** Until every result is collected, pool and workers never wait for the feeder. */
  lemma WorkersNeverStuck(c: Config, s: State)
    requires c.slots >= 1 && Shape(c, s)
    ensures CanWork(c, s) || forall i | 0 <= i < |s.pcs| :: s.pcs[i].Finished? && s.collected[i]
  {
    if ActiveCount(s.pcs) > 0 {
      SomeActive(s.pcs);
      var i :| 0 <= i < |s.pcs| && Active(s.pcs[i]);
      ActiveCanMove(c, s, i);
    } else {
      NoneActiveMeans(s.pcs);
      if i: nat :| i < |s.pcs| && (s.pcs[i].Ready? || !s.collected[i]) {
        IdleCanMove(c, s, i);
      }
    }
  }

  /** In no reachable state is the batch stuck: until it is complete, a step other than SIGINT can be taken. */
  lemma NeverStuck(c: Config, s: State)
    requires ValidConfig(c) && Inv(c, s) && !Complete(s)
    ensures CanMove(c, s)
  {
    WorkersNeverStuck(c, s);
    if !CanWork(c, s) {
      AllCollectedCanMove(c, s);
    }
  }

  lemma {:induction false} NoneActiveMeans(pcs: seq<Pc>)
    requires ActiveCount(pcs) == 0
    ensures forall i | 0 <= i < |pcs| :: !Active(pcs[i])
  {
    if pcs != [] {
      NoneActiveMeans(pcs[..|pcs| - 1]);
    }
  }

  // ---------------------------------------------------------------- what an interrupted worker does

  /** Whoever has not begun when SIGINT comes ends as cancelled at once, and whoever is transferring ends without launch. */
  lemma {:induction false} InterruptedOutcome(c: Config, s: State, steps: seq<Step>, i: nat)
    requires IsRun(c, s, steps) && s.terminated && |s.pcs| == |c.plans| && i < |c.plans|
    ensures var pc := Exec(c, s, steps).pcs;
            && |pc| == |c.plans|
            && (s.pcs[i].Ready? ==> pc[i].Ready? || (HasOutcome(pc[i]) && pc[i].out == c.plans[i].early))
            && (s.pcs[i].Transferring? ==> pc[i].Transferring? || (HasOutcome(pc[i]) && pc[i].out == c.plans[i].late))
    decreases |steps|
  {
    if steps != [] {
      var next := Apply(c, s, steps[0]);
      InterruptedOutcome(c, next, steps[1..], i);
      if HasOutcome(next.pcs[i]) {
        LaunchedStays(c, next, steps[1..], i);
      }
    }
  }
}
