/**
 A batch update as a step system: pool slots, workers, the shared FIFO queue, the termination flag,
 result callbacks and the feeder loop. Any interleaving of these steps is a run.
 */
module Protocol {
  import opened ExitCodes
  import opened Worker
  import opened Feeder

  /**
   All a worker can do, by what it reads from the flag: set at the first look (`early`), set only at
   the second (`late`), never set (`full`). `checks` says whether it gets as far as a second look.
   */
  datatype Plan = Plan(name: string, checks: bool, early: Outcome, late: Outcome, full: Outcome)

  function PlanOf(q: Qube): Plan {
    Plan(BarName(q), ReachesSecondCheck(q), Trace(q, true, false), Trace(q, false, true), Trace(q, false, false))
  }

  /** Messages reach the worker's own bar, and the last one or two of them are the DONEs. */
  ghost predicate ValidOutcome(name: string, out: Outcome) {
    && (forall m | m in out.messages :: m.qname == name)
    && (EndsInDones(out.messages, 1) || EndsInDones(out.messages, 2))
  }

  ghost predicate ValidPlan(p: Plan) {
    ValidOutcome(p.name, p.early) && ValidOutcome(p.name, p.late) && ValidOutcome(p.name, p.full)
  }

  /** The plan of every qube whose messages reach its bar is valid. */
  lemma PlanIsValid(q: Qube)
    requires ConsistentName(q) && QuietReaders(q)
    ensures ValidPlan(PlanOf(q))
  {
    hide Trace, DoneCount;
    NamesAgree(q);
    DoneAccounting(q, true, false);
    DoneAccounting(q, false, true);
    DoneAccounting(q, false, false);
  }

  datatype Config = Config(plans: seq<Plan>, slots: nat)

  /** Distinct bars, at least one slot, and valid plans. */
  ghost predicate ValidConfig(c: Config) {
    c.slots >= 1 && DistinctNames(c) && forall i | 0 <= i < |c.plans| :: ValidPlan(c.plans[i])
  }

  ghost predicate DistinctNames(c: Config) {
    forall i, j | 0 <= i < j < |c.plans| :: c.plans[i].name != c.plans[j].name
  }

  /**
   Where a worker is. `Committed` has read the flag as false for the second time but has not started
   the entrypoint yet; `Emitting` still has messages to put before it returns.
   */
  datatype Pc =
    | Ready
    | Transferring
    | Committed
    | Emitting(pending: seq<Message>, out: Outcome)
    | Finished(out: Outcome)

  /** `sent` is everything ever put on the queue; the first `fed` messages have been consumed. */
  datatype State = State(
    pcs: seq<Pc>,
    terminated: bool,
    sent: seq<Message>,
    fed: nat,
    feed: FeedState,
    collected: seq<bool>,
    retCode: int
  )

  datatype Step =
    | Begin(i: nat)    // take a slot, read the flag for the first time
    | Check(i: nat)    // transfer is over, read the flag for the second time
    | Launch(i: nat)   // start the entrypoint
    | Put(i: nat)      // put the next message on the queue
    | Return(i: nat)   // give the slot back
    | Collect(i: nat)  // the callback in the parent process
    | Consume          // one round of the feeder loop
    | Interrupt        // SIGINT

  // ---------------------------------------------------------------- steps

  ghost function Names(c: Config): set<string> {
    set i | 0 <= i < |c.plans| :: c.plans[i].name
  }

  ghost function FreshFeed(c: Config): FeedState {
    FeedState(|c.plans|, map[], map name | name in Names(c) :: 0.0, map name | name in Names(c) :: 0.0)
  }

  ghost function Initial(c: Config): State {
    State(seq(|c.plans|, _ => Ready), false, [], 0, FreshFeed(c), seq(|c.plans|, _ => false), OK)
  }

  predicate Active(pc: Pc) {
    pc.Transferring? || pc.Committed? || pc.Emitting?
  }

  function ActiveCount(pcs: seq<Pc>): nat {
    if pcs == [] then 0
    else ActiveCount(pcs[..|pcs| - 1]) + if Active(pcs[|pcs| - 1]) then 1 else 0
  }

  /** `collect_result`: codes the agent does not document, and the captured 100, become 26. */
  function MapVmCode(code: int): int {
    if code in VM_HANDLED && code != OK_NO_UPDATES then code else ERR_VM_UNHANDLED
  }

  function Queue(s: State): seq<Message>
    requires s.fed <= |s.sent|
  {
    s.sent[s.fed..]
  }

  ghost predicate Enabled(c: Config, s: State, step: Step) {
    && |s.pcs| == |s.collected| == |c.plans|
    && s.fed <= |s.sent|
    && match step
       case Begin(i) => i < |s.pcs| && s.pcs[i].Ready? && ActiveCount(s.pcs) < c.slots
       case Check(i) => i < |s.pcs| && s.pcs[i].Transferring?
       case Launch(i) => i < |s.pcs| && s.pcs[i].Committed?
       case Put(i) => i < |s.pcs| && s.pcs[i].Emitting? && s.pcs[i].pending != []
       case Return(i) => i < |s.pcs| && s.pcs[i].Emitting? && s.pcs[i].pending == []
       case Collect(i) => i < |s.pcs| && s.pcs[i].Finished? && !s.collected[i]
       case Consume => s.feed.left > 0 && Queue(s) != [] && HasBar(s.feed, Queue(s)[0])
       case Interrupt => true
  }

  function Emit(out: Outcome): Pc {
    Emitting(out.messages, out)
  }

  ghost function Move(s: State, i: nat, pc: Pc): State
    requires i < |s.pcs|
  {
    s.(pcs := s.pcs[i := pc])
  }

  ghost function Apply(c: Config, s: State, step: Step): State
    requires Enabled(c, s, step)
  {
    match step
    case Begin(i) =>
      Move(s, i, if s.terminated then Emit(c.plans[i].early)
                 else if c.plans[i].checks then Transferring
                 else Emit(c.plans[i].full))
    case Check(i) =>
      Move(s, i, if s.terminated then Emit(c.plans[i].late) else Committed)
    case Launch(i) =>
      Move(s, i, Emit(c.plans[i].full))
    case Put(i) =>
      var pc := s.pcs[i];
      Move(s, i, Emitting(pc.pending[1..], pc.out)).(sent := s.sent + [pc.pending[0]])
    case Return(i) =>
      Move(s, i, Finished(s.pcs[i].out))
    case Collect(i) =>
      s.(collected := s.collected[i := true], retCode := Max(s.retCode, MapVmCode(s.pcs[i].out.code)))
    case Consume =>
      s.(fed := s.fed + 1, feed := Feed(s.feed, Queue(s)[0]))
    case Interrupt =>
      s.(terminated := true)
  }

  ghost predicate IsRun(c: Config, s: State, steps: seq<Step>)
    decreases |steps|
  {
    steps == [] || (Enabled(c, s, steps[0]) && IsRun(c, Apply(c, s, steps[0]), steps[1..]))
  }

  ghost function Exec(c: Config, s: State, steps: seq<Step>): State
    requires IsRun(c, s, steps)
    decreases |steps|
  {
    if steps == [] then s else Exec(c, Apply(c, s, steps[0]), steps[1..])
  }

  /** `pool.join` has returned after every callback. */
  ghost predicate AllCollected(s: State) {
    forall i | 0 <= i < |s.collected| :: s.collected[i]
  }

  /** The feeder loop has ended, too. */
  ghost predicate Complete(s: State) {
    s.feed.left == 0 && AllCollected(s)
  }

  // ---------------------------------------------------------------- invariant

  /** An outcome the worker can have; a read of a set flag leaves the flag set. */
  ghost predicate Possible(p: Plan, out: Outcome, terminated: bool) {
    out == p.full || (terminated && (out == p.early || out == p.late))
  }

  predicate HasOutcome(pc: Pc) {
    pc.Emitting? || pc.Finished?
  }

  function Pending(pc: Pc): seq<Message> {
    if pc.Emitting? then pc.pending else []
  }

  /** What has been sent under the worker's name plus what it still holds is its outcome. */
  ghost predicate WorkerInv(p: Plan, pc: Pc, sent: seq<Message>, terminated: bool) {
    if HasOutcome(pc)
    then Possible(p, pc.out, terminated) && From(sent, p.name) + Pending(pc) == pc.out.messages
    else From(sent, p.name) == [] && (p.checks || pc.Ready?)
  }

  /** The largest mapped code among the collected results. */
  ghost function CollectedCode(pcs: seq<Pc>, collected: seq<bool>): int
    requires |pcs| == |collected|
    requires forall i | 0 <= i < |pcs| && collected[i] :: pcs[i].Finished?
  {
    if pcs == [] then OK
    else
      var n := |pcs| - 1;
      Max(CollectedCode(pcs[..n], collected[..n]), if collected[n] then MapVmCode(pcs[n].out.code) else OK)
  }

  ghost predicate Shape(c: Config, s: State) {
    |s.pcs| == |s.collected| == |c.plans| && s.fed <= |s.sent|
  }

  /** The queue's history and the workers agree. */
  ghost predicate WorkersInv(c: Config, s: State)
    requires Shape(c, s)
  {
    && (forall m | m in s.sent :: m.qname in Names(c))
    && (forall i | 0 <= i < |c.plans| :: WorkerInv(c.plans[i], s.pcs[i], s.sent, s.terminated))
  }

  /** The feeder's state is what the consumed messages make of `start`. */
  ghost predicate FedFrom(start: FeedState, s: State)
    requires s.fed <= |s.sent|
  {
    && Known(start, s.sent[..s.fed])
    && s.feed == FeedAll(start, s.sent[..s.fed])
    && s.feed.left >= 0
  }

  ghost predicate FeedInv(c: Config, s: State)
    requires Shape(c, s)
  {
    FedFrom(FreshFeed(c), s)
  }

  /** Slots are not exceeded, and the code is the maximum of the collected results. */
  ghost predicate PoolInv(c: Config, s: State)
    requires Shape(c, s)
  {
    && ActiveCount(s.pcs) <= c.slots
    && (forall i | 0 <= i < |s.pcs| && s.collected[i] :: s.pcs[i].Finished?)
    && s.retCode == CollectedCode(s.pcs, s.collected)
  }

  ghost predicate Inv(c: Config, s: State) {
    Shape(c, s) && WorkersInv(c, s) && FeedInv(c, s) && PoolInv(c, s)
  }

  lemma {:induction false} ActiveUpdate(pcs: seq<Pc>, i: nat, pc: Pc)
    requires i < |pcs|
    ensures ActiveCount(pcs[i := pc])
            == ActiveCount(pcs) - (if Active(pcs[i]) then 1 else 0) + if Active(pc) then 1 else 0
  {
    var n := |pcs| - 1;
    if i == n {
      assert pcs[i := pc][..n] == pcs[..n];
    } else {
      assert pcs[i := pc][..n] == pcs[..n][i := pc];
      ActiveUpdate(pcs[..n], i, pc);
    }
  }

  lemma {:induction false} CollectUpdate(pcs: seq<Pc>, collected: seq<bool>, i: nat)
    requires |pcs| == |collected| && i < |pcs| && !collected[i] && pcs[i].Finished?
    requires forall k | 0 <= k < |pcs| && collected[k] :: pcs[k].Finished?
    ensures CollectedCode(pcs, collected[i := true])
            == Max(CollectedCode(pcs, collected), MapVmCode(pcs[i].out.code))
  {
    var n := |pcs| - 1;
    if i == n {
      assert collected[i := true][..n] == collected[..n];
    } else {
      assert collected[i := true][..n] == collected[..n][i := true];
      CollectUpdate(pcs[..n], collected[..n], i);
    }
    CollectedCodeBound(pcs[..n], collected[..n]);
  }

  lemma {:induction false} CollectedCodeBound(pcs: seq<Pc>, collected: seq<bool>)
    requires |pcs| == |collected|
    requires forall k | 0 <= k < |pcs| && collected[k] :: pcs[k].Finished?
    ensures OK <= CollectedCode(pcs, collected)
  {
    if pcs != [] {
      CollectedCodeBound(pcs[..|pcs| - 1], collected[..|pcs| - 1]);
    }
  }

  lemma {:induction false} CollectFrame(pcs: seq<Pc>, next: seq<Pc>, collected: seq<bool>)
    requires |pcs| == |next| == |collected|
    requires forall k | 0 <= k < |pcs| && collected[k] :: pcs[k].Finished? && next[k] == pcs[k]
    ensures CollectedCode(next, collected) == CollectedCode(pcs, collected)
  {
    if pcs != [] {
      var n := |pcs| - 1;
      CollectFrame(pcs[..n], next[..n], collected[..n]);
    }
  }

  lemma InitialInv(c: Config)
    requires ValidConfig(c)
    ensures Inv(c, Initial(c))
  {
    var s := Initial(c);
    NoneActive(s.pcs);
    NoneCollected(s.pcs, s.collected);
  }

  lemma {:induction false} NoneActive(pcs: seq<Pc>)
    requires forall i | 0 <= i < |pcs| :: !Active(pcs[i])
    ensures ActiveCount(pcs) == 0
  {
    if pcs != [] {
      NoneActive(pcs[..|pcs| - 1]);
    }
  }

  lemma {:induction false} NoneCollected(pcs: seq<Pc>, collected: seq<bool>)
    requires |pcs| == |collected| && forall i | 0 <= i < |pcs| :: !collected[i]
    ensures CollectedCode(pcs, collected) == OK
  {
    if pcs != [] {
      NoneCollected(pcs[..|pcs| - 1], collected[..|pcs| - 1]);
    }
  }

  /** Moving a worker that is not finished keeps the pool's part. */
  lemma MovePool(c: Config, s: State, i: nat, pc: Pc)
    requires Shape(c, s) && PoolInv(c, s) && i < |s.pcs| && !s.pcs[i].Finished?
    requires Active(pc) && !Active(s.pcs[i]) ==> ActiveCount(s.pcs) < c.slots
    ensures PoolInv(c, Move(s, i, pc))
  {
    ActiveUpdate(s.pcs, i, pc);
    CollectFrame(s.pcs, s.pcs[i := pc], s.collected);
  }

  /** A step that only moves one worker, without touching queue, feeder or results. */
  lemma MoveInv(c: Config, s: State, i: nat, pc: Pc)
    requires Inv(c, s) && i < |s.pcs| && !s.pcs[i].Finished?
    requires Active(pc) && !Active(s.pcs[i]) ==> ActiveCount(s.pcs) < c.slots
    requires WorkerInv(c.plans[i], pc, s.sent, s.terminated)
    ensures Inv(c, Move(s, i, pc))
  {
    MovePool(c, s, i, pc);
  }

  /** A worker's next message carries the name of its own bar. */
  lemma PendingName(p: Plan, pc: Pc, sent: seq<Message>, terminated: bool)
    requires ValidPlan(p) && WorkerInv(p, pc, sent, terminated)
    requires pc.Emitting? && pc.pending != []
    ensures pc.pending[0].qname == p.name
  {
    assert pc.out.messages[|From(sent, p.name)|] == pc.pending[0];
    assert pc.pending[0] in pc.out.messages;
  }

  lemma FromNext(log: seq<Message>, m: Message, name: string)
    ensures From(log + [m], name) == if m.qname == name then From(log, name) + [m] else From(log, name)
  {
    assert (log + [m])[..|log|] == log;
  }

  lemma PutOther(p: Plan, pc: Pc, sent: seq<Message>, m: Message, terminated: bool)
    requires WorkerInv(p, pc, sent, terminated) && m.qname != p.name
    ensures WorkerInv(p, pc, sent + [m], terminated)
  {
    FromNext(sent, m, p.name);
  }

  lemma PutOwn(p: Plan, pc: Pc, sent: seq<Message>, terminated: bool)
    requires WorkerInv(p, pc, sent, terminated)
    requires pc.Emitting? && pc.pending != [] && pc.pending[0].qname == p.name
    ensures WorkerInv(p, Emitting(pc.pending[1..], pc.out), sent + [pc.pending[0]], terminated)
  {
    FromNext(sent, pc.pending[0], p.name);
    assert pc.pending == [pc.pending[0]] + pc.pending[1..];
  }

  lemma PutWorkers(c: Config, s: State, i: nat)
    requires DistinctNames(c) && Shape(c, s) && WorkersInv(c, s) && Enabled(c, s, Put(i))
    requires s.pcs[i].pending[0].qname == c.plans[i].name
    ensures WorkersInv(c, Apply(c, s, Put(i)))
  {
    var pc, next := s.pcs[i], Apply(c, s, Put(i));
    forall k | 0 <= k < |c.plans| ensures WorkerInv(c.plans[k], next.pcs[k], next.sent, next.terminated) {
      assert WorkerInv(c.plans[k], s.pcs[k], s.sent, s.terminated);
      if k == i {
        PutOwn(c.plans[i], pc, s.sent, s.terminated);
      } else {
        PutOther(c.plans[k], s.pcs[k], s.sent, pc.pending[0], s.terminated);
      }
    }
  }

  lemma PutFeed(start: FeedState, c: Config, s: State, i: nat)
    requires Shape(c, s) && FedFrom(start, s) && Enabled(c, s, Put(i))
    ensures FedFrom(start, Apply(c, s, Put(i)))
  {
    hide Known, FeedAll;
    assert Apply(c, s, Put(i)).sent[..s.fed] == s.sent[..s.fed];
  }

  lemma PutPool(c: Config, s: State, i: nat)
    requires Shape(c, s) && PoolInv(c, s) && Enabled(c, s, Put(i))
    ensures PoolInv(c, Apply(c, s, Put(i)))
  {
    MovePool(c, s, i, Apply(c, s, Put(i)).pcs[i]);
  }

  lemma PutInv(c: Config, s: State, i: nat)
    requires DistinctNames(c) && Inv(c, s) && Enabled(c, s, Put(i))
    requires s.pcs[i].pending[0].qname == c.plans[i].name
    ensures Inv(c, Apply(c, s, Put(i)))
  {
    hide WorkersInv, PoolInv, FedFrom, DistinctNames;
    PutWorkers(c, s, i);
    PutPool(c, s, i);
    PutFeed(FreshFeed(c), c, s, i);
  }

  lemma FeedStep(st: FeedState, sent: seq<Message>, fed: nat)
    requires fed < |sent| && Known(st, sent[..fed]) && (sent[fed].info.Line? || sent[fed].qname in st.progresses)
    ensures Known(st, sent[..fed + 1])
    ensures FeedAll(st, sent[..fed + 1]) == Feed(FeedAll(st, sent[..fed]), sent[fed])
  {
    assert sent[..fed + 1] == sent[..fed] + [sent[fed]];
    FeedNext(st, sent[..fed], sent[fed]);
  }

  lemma ConsumeFeed(start: FeedState, c: Config, s: State)
    requires Shape(c, s) && FedFrom(start, s) && Enabled(c, s, Consume)
    ensures FedFrom(start, Apply(c, s, Consume))
  {
    hide Known, FeedAll;
    assert Queue(s)[0] == s.sent[s.fed];
    FeedStep(start, s.sent, s.fed);
  }

  lemma ConsumeInv(c: Config, s: State)
    requires Inv(c, s) && Enabled(c, s, Consume)
    ensures Inv(c, Apply(c, s, Consume))
  {
    ConsumeFeed(FreshFeed(c), c, s);
  }

  /** What a worker may do next agrees with what it may have sent. */
  lemma NextPc(c: Config, s: State, step: Step)
    requires Shape(c, s) && WorkersInv(c, s)
    requires Enabled(c, s, step) && (step.Begin? || step.Check? || step.Launch? || step.Return?)
    ensures WorkerInv(c.plans[step.i], Apply(c, s, step).pcs[step.i], s.sent, s.terminated)
    ensures Apply(c, s, step) == Move(s, step.i, Apply(c, s, step).pcs[step.i])
  {
    hide From, ActiveCount, Names;
    assert WorkerInv(c.plans[step.i], s.pcs[step.i], s.sent, s.terminated);
  }

  lemma NextInv(c: Config, s: State, step: Step)
    requires Inv(c, s)
    requires Enabled(c, s, step) && (step.Begin? || step.Check? || step.Launch? || step.Return?)
    ensures Inv(c, Apply(c, s, step))
  {
    hide WorkersInv, PoolInv, FedFrom, WorkerInv;
    NextPc(c, s, step);
    MoveInv(c, s, step.i, Apply(c, s, step).pcs[step.i]);
  }

  lemma NextPut(c: Config, s: State, i: nat)
    requires ValidConfig(c) && Shape(c, s) && WorkersInv(c, s) && Enabled(c, s, Put(i))
    ensures s.pcs[i].pending[0].qname == c.plans[i].name
  {
    hide ValidPlan, WorkerInv;
    PendingName(c.plans[i], s.pcs[i], s.sent, s.terminated);
  }

  lemma CollectInv(c: Config, s: State, i: nat)
    requires Inv(c, s) && Enabled(c, s, Collect(i))
    ensures Inv(c, Apply(c, s, Collect(i)))
  {
    hide WorkerInv, Known, FeedAll;
    CollectUpdate(s.pcs, s.collected, i);
  }

  lemma InterruptInv(c: Config, s: State)
    requires Inv(c, s)
    ensures Inv(c, s.(terminated := true))
  {
    hide Known, FeedAll, ActiveCount, CollectedCode, From;
    forall i | 0 <= i < |c.plans| ensures WorkerInv(c.plans[i], s.pcs[i], s.sent, true) {
      assert WorkerInv(c.plans[i], s.pcs[i], s.sent, s.terminated);
    }
  }

  /** Every step keeps the invariant. */
  lemma StepInv(c: Config, s: State, step: Step)
    requires ValidConfig(c) && Inv(c, s) && Enabled(c, s, step)
    ensures Inv(c, Apply(c, s, step))
  {
    hide WorkersInv, PoolInv, FeedInv;
    match step
    case Put(i) =>
      NextPut(c, s, i);
      PutInv(c, s, i);
    case Collect(i) => CollectInv(c, s, i);
    case Consume => ConsumeInv(c, s);
    case Interrupt => InterruptInv(c, s);
    case _ => NextInv(c, s, step);
  }

  /** Hence every reachable state satisfies it, for every interleaving. */
  lemma {:induction false} RunInv(c: Config, s: State, steps: seq<Step>)
    requires ValidConfig(c) && Inv(c, s) && IsRun(c, s, steps)
    ensures Inv(c, Exec(c, s, steps))
    decreases |steps|
  {
    if steps != [] {
      StepInv(c, s, steps[0]);
      RunInv(c, Apply(c, s, steps[0]), steps[1..]);
    }
  }
}
