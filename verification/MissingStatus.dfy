/**
 When a status can be missing. A second DONE of one qube ends the feeder loop before another qube
 has reported; this module builds such a run, and shows that nothing else can cause it.
 */
module MissingStatus {
  import opened ExitCodes
  import opened Worker
  import opened Feeder
  import opened Protocol
  import opened BatchRun
  import opened Cancellation

  /** The feeder loop has ended although some bar never got a final status. */
  ghost predicate StatusMissing(c: Config, s: State) {
    s.feed.left == 0 && !(Names(c) <= s.feed.statuses.Keys)
  }

  ghost predicate CanMissStatus(c: Config) {
    exists steps :: IsRun(c, Initial(c), steps) && StatusMissing(c, Exec(c, Initial(c), steps))
  }

  // ---------------------------------------------------------------- building runs

  lemma {:induction false} RunConcat(c: Config, s: State, a: seq<Step>, b: seq<Step>)
    requires IsRun(c, s, a) && IsRun(c, Exec(c, s, a), b)
    ensures IsRun(c, s, a + b) && Exec(c, s, a + b) == Exec(c, Exec(c, s, a), b)
    decreases |a|
  {
    if a == [] {
      assert a + b == b;
    } else {
      assert (a + b)[1..] == a[1..] + b;
      RunConcat(c, Apply(c, s, a[0]), a[1..], b);
    }
  }

  lemma RunThen(c: Config, s: State, a: seq<Step>, step: Step)
    requires IsRun(c, s, a) && Enabled(c, Exec(c, s, a), step)
    ensures IsRun(c, s, a + [step]) && Exec(c, s, a + [step]) == Apply(c, Exec(c, s, a), step)
  {
    var mid := Exec(c, s, a);
    assert [step][1..] == [];
    assert IsRun(c, Apply(c, mid, step), []);
    assert Exec(c, mid, [step]) == Exec(c, Apply(c, mid, step), []) == Apply(c, mid, step);
    RunConcat(c, s, a, [step]);
  }

  lemma {:induction false} PutAll(c: Config, s: State, i: nat) returns (steps: seq<Step>)
    requires Shape(c, s) && i < |s.pcs| && s.pcs[i].Emitting?
    ensures IsRun(c, s, steps)
    ensures Exec(c, s, steps) == Move(s, i, Finished(s.pcs[i].out)).(sent := s.sent + s.pcs[i].pending)
    decreases |Pending(s.pcs[i])|
  {
    var pc := s.pcs[i];
    if pc.pending == [] {
      steps := [Return(i)];
      assert steps[1..] == [];
      assert s.sent + pc.pending == s.sent;
    } else {
      var next := Apply(c, s, Put(i));
      var rest := PutAll(c, next, i);
      steps := [Put(i)] + rest;
      assert steps[1..] == rest;
      assert next.sent + pc.pending[1..] == s.sent + pc.pending;
    }
  }

  /** A worker that has the pool to itself and is not interrupted runs to its end. */
  lemma RunAlone(c: Config, s: State, i: nat) returns (steps: seq<Step>)
    requires Shape(c, s) && i < |s.pcs| && s.pcs[i].Ready? && !s.terminated
    requires ActiveCount(s.pcs) < c.slots
    ensures IsRun(c, s, steps)
    ensures Exec(c, s, steps) == Move(s, i, Finished(c.plans[i].full)).(sent := s.sent + c.plans[i].full.messages)
  {
    steps := [Begin(i)];
    assert steps[1..] == [];
    if c.plans[i].checks {
      RunThen(c, s, steps, Check(i));
      steps := steps + [Check(i)];
      RunThen(c, s, steps, Launch(i));
      steps := steps + [Launch(i)];
    }
    var mid := Exec(c, s, steps);
    assert mid == Move(s, i, Emit(c.plans[i].full));
    var rest := PutAll(c, mid, i);
    RunConcat(c, s, steps, rest);
    steps := steps + rest;
  }

  /** The workers below `n` except `skipped` have run one after the other; the rest has not begun. */
  ghost predicate SerialState(c: Config, s: State, skipped: nat, n: nat) {
    && Inv(c, s) && !s.terminated && s.fed == 0
    && (forall i | 0 <= i < |s.pcs| :: if i < n && i != skipped then s.pcs[i].Finished? else s.pcs[i].Ready?)
  }

  /** The DONEs those workers put. */
  ghost function SerialDones(c: Config, skipped: nat, n: nat): nat
    requires n <= |c.plans|
  {
    if n == 0 then 0
    else SerialDones(c, skipped, n - 1) + if n - 1 == skipped then 0 else DoneCount(c.plans[n - 1].full.messages)
  }

  /** These steps lead from `s` to `end`. */
  ghost predicate Leads(c: Config, s: State, steps: seq<Step>, end: State) {
    IsRun(c, s, steps) && Exec(c, s, steps) == end
  }

  lemma LeadsNowhere(c: Config, s: State)
    ensures Leads(c, s, [], s)
  {}

  lemma LeadsOn(c: Config, s: State, a: seq<Step>, mid: State, b: seq<Step>, end: State)
    requires Leads(c, s, a, mid) && Leads(c, mid, b, end)
    ensures Leads(c, s, a + b, end)
  {
    RunConcat(c, s, a, b);
  }

  lemma NextAlone(c: Config, s: State, skipped: nat, n: nat) returns (steps: seq<Step>, end: State)
    requires SerialState(c, s, skipped, n) && n < |c.plans| && n != skipped && c.slots >= 1
    ensures Leads(c, s, steps, end)
    ensures end == Move(s, n, Finished(c.plans[n].full)).(sent := s.sent + c.plans[n].full.messages)
  {
    NoneActive(s.pcs);
    steps := RunAlone(c, s, n);
    end := Exec(c, s, steps);
  }

  lemma OneMore(c: Config, s: State, skipped: nat, n: nat) returns (steps: seq<Step>, end: State)
    requires ValidConfig(c) && n < |c.plans| && n != skipped && SerialState(c, s, skipped, n)
    ensures Leads(c, s, steps, end) && SerialState(c, end, skipped, n + 1)
    ensures DoneCount(end.sent) == DoneCount(s.sent) + DoneCount(c.plans[n].full.messages)
  {
    hide Leads, WorkersInv, FeedInv, PoolInv, DoneCount;
    steps, end := NextAlone(c, s, skipped, n);
    LeadsInv(c, s, steps, end);
    DoneCountAppend(s.sent, c.plans[n].full.messages);
  }

  lemma LeadsInv(c: Config, s: State, steps: seq<Step>, end: State)
    requires ValidConfig(c) && Inv(c, s) && Leads(c, s, steps, end)
    ensures Inv(c, end)
  {
    RunInv(c, s, steps);
  }

  lemma SkipOne(c: Config, s: State, skipped: nat)
    requires SerialState(c, s, skipped, skipped)
    ensures SerialState(c, s, skipped, skipped + 1)
  {}

  lemma {:induction false} RunSerially(c: Config, s: State, skipped: nat, n: nat) returns (steps: seq<Step>, end: State)
    requires ValidConfig(c) && n <= |c.plans|
    requires SerialState(c, s, skipped, 0) && s.sent == []
    ensures Leads(c, s, steps, end) && SerialState(c, end, skipped, n)
    ensures DoneCount(end.sent) == SerialDones(c, skipped, n)
    decreases n
  {
    hide Inv, ValidConfig, SerialState, Leads, IsRun, Exec;
    if n == 0 {
      LeadsNowhere(c, s);
      steps, end := [], s;
    } else {
      steps, end := RunSerially(c, s, skipped, n - 1);
      if n - 1 == skipped {
        SkipOne(c, end, skipped);
      } else {
        var more, next := OneMore(c, end, skipped, n - 1);
        LeadsOn(c, s, steps, end, more, next);
        steps, end := steps + more, next;
      }
    }
  }

  lemma {:induction false} SerialDonesBound(c: Config, skipped: nat, n: nat, double: nat)
    requires forall i | 0 <= i < |c.plans| :: DoneCount(c.plans[i].full.messages) >= 1
    requires double < |c.plans| && double != skipped && DoneCount(c.plans[double].full.messages) >= 2
    requires n <= |c.plans|
    ensures SerialDones(c, skipped, n) >= n - (if skipped < n then 1 else 0) + if double < n then 1 else 0
  {
    if n > 0 {
      SerialDonesBound(c, skipped, n - 1, double);
    }
  }

  lemma UnfedRemains(start: FeedState, s: State)
    requires s.fed <= |s.sent| && FedFrom(start, s) && s.feed.left != 0
    requires DoneCount(s.sent) >= start.left
    ensures s.fed < |s.sent|
  {
    if s.fed == |s.sent| {
      assert s.sent[..s.fed] == s.sent;
      FeedLeft(start, s.sent);
    }
  }

  lemma ConsumeOne(c: Config, s: State)
    requires ValidConfig(c) && Inv(c, s) && DoneCount(s.sent) >= |c.plans| && s.feed.left != 0
    ensures Enabled(c, s, Consume) && Inv(c, Apply(c, s, Consume))
  {
    UnfedRemains(FreshFeed(c), s);
    QueueCanMove(c, s);
    ConsumeInv(c, s);
  }

  lemma {:induction false} ConsumeUntilDone(c: Config, s: State) returns (steps: seq<Step>)
    requires ValidConfig(c) && Inv(c, s) && DoneCount(s.sent) >= |c.plans|
    ensures IsRun(c, s, steps)
    ensures var end := Exec(c, s, steps);
            Inv(c, end) && end.feed.left == 0 && end.pcs == s.pcs && end.terminated == s.terminated
    decreases |s.sent| - s.fed
  {
    if s.feed.left == 0 {
      steps := [];
    } else {
      ConsumeOne(c, s);
      var rest := ConsumeUntilDone(c, Apply(c, s, Consume));
      steps := [Consume] + rest;
      assert steps[1..] == rest;
    }
  }

  /** A bar whose worker has not begun has no status. */
  lemma ReadyHasNoStatus(c: Config, s: State, i: nat)
    requires Inv(c, s) && i < |c.plans| && s.pcs[i].Ready?
    ensures c.plans[i].name in Names(c) && c.plans[i].name !in s.feed.statuses
  {
    WorkerShare(c, s, i);
    assert c.plans[i].name in Names(c);
    StatusKeys(FreshFeed(c), s.sent[..s.fed], c.plans[i].name);
  }

  /** Running everybody but `skipped`, one of them with two DONEs, ends the loop too early. */
  lemma MissSkipped(c: Config, s: State, skipped: nat, double: nat) returns (steps: seq<Step>)
    requires ValidConfig(c) && SerialState(c, s, skipped, 0) && s.sent == []
    requires skipped < |c.plans| && double < |c.plans| && double != skipped
    requires DoneCount(c.plans[double].full.messages) >= 2
    requires forall i | 0 <= i < |c.plans| :: DoneCount(c.plans[i].full.messages) >= 1
    ensures IsRun(c, s, steps) && StatusMissing(c, Exec(c, s, steps)) && !Exec(c, s, steps).terminated
  {
    var mid;
    steps, mid := RunSerially(c, s, skipped, |c.plans|);
    SerialDonesBound(c, skipped, |c.plans|, double);
    var rest := ConsumeUntilDone(c, mid);
    RunConcat(c, s, steps, rest);
    ReadyHasNoStatus(c, Exec(c, mid, rest), skipped);
    steps := steps + rest;
  }

  lemma InitiallySerial(c: Config, skipped: nat)
    requires ValidConfig(c)
    ensures SerialState(c, Initial(c), skipped, 0)
  {
    InitialInv(c);
  }

  /** A run without SIGINT that misses a status. */
  lemma SecondDoneMisses(c: Config, i: nat) returns (steps: seq<Step>)
    requires ValidConfig(c) && i < |c.plans| && |c.plans| >= 2
    requires EndsInDones(c.plans[i].full.messages, 2)
    ensures IsRun(c, Initial(c), steps) && StatusMissing(c, Exec(c, Initial(c), steps))
    ensures !Exec(c, Initial(c), steps).terminated
  {
    forall k | 0 <= k < |c.plans| ensures DoneCount(c.plans[k].full.messages) >= 1 {
      assert ValidPlan(c.plans[k]);
    }
    InitiallySerial(c, if i == 0 then 1 else 0);
    steps := MissSkipped(c, Initial(c), if i == 0 then 1 else 0, i);
  }

  /** With at most one bar, the first DONE consumed is that bar's. */
  lemma OneBarIsComplete(c: Config, s: State)
    requires ValidConfig(c) && Inv(c, s) && s.feed.left == 0 && |c.plans| <= 1
    ensures Names(c) <= s.feed.statuses.Keys
  {
    var seen := s.sent[..s.fed];
    FeedLeft(FreshFeed(c), seen);
    if |c.plans| == 1 {
      var name := c.plans[0].name;
      forall m | m in seen ensures m.qname == name {
        assert m in s.sent;
      }
      AllFrom(seen, name);
      assert name in Names(c);
      StatusKeys(FreshFeed(c), seen, name);
    }
  }

  lemma {:induction false} AllFrom(log: seq<Message>, name: string)
    requires forall m | m in log :: m.qname == name
    ensures From(log, name) == log
  {
    if log != [] {
      AllFrom(log[..|log| - 1], name);
      assert log[|log| - 1] in log;
    }
  }

  /**
   A status can be missing exactly when the batch has at least two qubes and for one of them an
   exception can escape after its connection has put DONE.
   */
  lemma MissingStatusIff(qubes: seq<Qube>, slots: nat)
    requires ValidQubes(qubes) && slots >= 1
    ensures CanMissStatus(ConfigOf(qubes, slots))
            <==> |qubes| >= 2 && exists i :: 0 <= i < |qubes| && DoubleDone(qubes[i], false, false)
  {
    var c := ConfigOf(qubes, slots);
    ConfigIsValid(qubes, slots);
    if |qubes| >= 2 && exists i :: 0 <= i < |qubes| && DoubleDone(qubes[i], false, false) {
      var i :| 0 <= i < |qubes| && DoubleDone(qubes[i], false, false);
      DoneAccounting(qubes[i], false, false);
      var steps := SecondDoneMisses(c, i);
      assert CanMissStatus(c);
    }
    if CanMissStatus(c) {
      var steps :| IsRun(c, Initial(c), steps) && StatusMissing(c, Exec(c, Initial(c), steps));
      var s := Exec(c, Initial(c), steps);
      InitialInv(c);
      RunInv(c, Initial(c), steps);
      if |qubes| <= 1 {
        OneBarIsComplete(c, s);
      } else if forall i | 0 <= i < |qubes| :: !DoubleDone(qubes[i], false, false) {
        SingleDoneOf(qubes, slots);
        FeederExit(c, s);
      }
    }
  }

  /** A worker that cannot double its DONE when uninterrupted cannot do so when interrupted. */
  lemma SingleDoneOf(qubes: seq<Qube>, slots: nat)
    requires ValidQubes(qubes)
    requires forall i | 0 <= i < |qubes| :: !DoubleDone(qubes[i], false, false)
    ensures SingleDone(ConfigOf(qubes, slots))
  {
    forall i | 0 <= i < |qubes| ensures SinglePlan(PlanOf(qubes[i])) {
      SinglePlanOf(qubes[i]);
    }
  }

  /**
   The whole batch: a run that cannot go on has ended properly, the queue is empty and every bar has its
   own qube's status.
   */
  lemma BatchTheorem(qubes: seq<Qube>, slots: nat, steps: seq<Step>)
    requires ValidQubes(qubes) && slots >= 1
    requires forall i | 0 <= i < |qubes| :: !DoubleDone(qubes[i], false, false)
    requires IsRun(ConfigOf(qubes, slots), Initial(ConfigOf(qubes, slots)), steps)
    requires !CanMove(ConfigOf(qubes, slots), Exec(ConfigOf(qubes, slots), Initial(ConfigOf(qubes, slots)), steps))
    ensures var c := ConfigOf(qubes, slots);
            var end := Exec(c, Initial(c), steps);
            && Shape(c, end) && Complete(end) && Queue(end) == [] && AllReturned(end.pcs) && StatusesComplete(c, end)
            && RunCode(end) == BatchCode(Verdicts(end.pcs), end.terminated)
  {
    hide Inv, ValidConfig, Initial, CanMove, RunCode, StatusesComplete, SingleDone, AllCollected, IsRun, Exec, AllReturned;
    var c := ConfigOf(qubes, slots);
    var end := Exec(c, Initial(c), steps);
    Ended(qubes, slots, steps);
    SingleDoneOf(qubes, slots);
    RetCodeIs(c, end);
    FeederExit(c, end);
    RunResult(c, end);
  }

  lemma {:induction false} NotInterrupted(c: Config, s: State, steps: seq<Step>)
    requires IsRun(c, s, steps) && !s.terminated && Interrupt !in steps
    ensures !Exec(c, s, steps).terminated
    decreases |steps|
  {
    if steps != [] {
      NotInterrupted(c, Apply(c, s, steps[0]), steps[1..]);
    }
  }

  /** What a run that cannot go on has reached. */
  lemma Ended(qubes: seq<Qube>, slots: nat, steps: seq<Step>)
    requires ValidQubes(qubes) && slots >= 1
    requires IsRun(ConfigOf(qubes, slots), Initial(ConfigOf(qubes, slots)), steps)
    requires !CanMove(ConfigOf(qubes, slots), Exec(ConfigOf(qubes, slots), Initial(ConfigOf(qubes, slots)), steps))
    ensures var c := ConfigOf(qubes, slots);
            var end := Exec(c, Initial(c), steps);
            ValidConfig(c) && Inv(c, end) && Complete(end)
  {
    hide Inv, ValidConfig, Initial, Complete, ConfigOf, CanMove;
    var c := ConfigOf(qubes, slots);
    ConfigIsValid(qubes, slots);
    InitialInv(c);
    RunInv(c, Initial(c), steps);
    if !Complete(Exec(c, Initial(c), steps)) {
      NeverStuck(c, Exec(c, Initial(c), steps));
    }
  }

  /** Any two uninterrupted runs of a batch that have gone on as long as they can return the same pair. */
  lemma SameResult(qubes: seq<Qube>, slots: nat, one: seq<Step>, two: seq<Step>)
    requires ValidQubes(qubes) && slots >= 1
    requires forall i | 0 <= i < |qubes| :: !DoubleDone(qubes[i], false, false)
    requires var c := ConfigOf(qubes, slots);
             && IsRun(c, Initial(c), one) && !CanMove(c, Exec(c, Initial(c), one)) && Interrupt !in one
             && IsRun(c, Initial(c), two) && !CanMove(c, Exec(c, Initial(c), two)) && Interrupt !in two
    ensures var c := ConfigOf(qubes, slots);
            && RunCode(Exec(c, Initial(c), one)) == RunCode(Exec(c, Initial(c), two))
            && Exec(c, Initial(c), one).feed.statuses == Exec(c, Initial(c), two).feed.statuses
  {
    hide Inv, ValidConfig, Complete, ConfigOf, CanMove, SingleDone, RunCode;
    var c := ConfigOf(qubes, slots);
    SingleDoneOf(qubes, slots);
    Ended(qubes, slots, one);
    Ended(qubes, slots, two);
    NotInterrupted(c, Initial(c), one);
    NotInterrupted(c, Initial(c), two);
    UninterruptedConfluence(c, Exec(c, Initial(c), one), Exec(c, Initial(c), two));
  }
}
