/**
 What holds of every run of the batch protocol: the feeder loop ends and has then seen everything,
 the result does not depend on the interleaving, cancellation is prompt, and nothing hangs.
 */
module BatchRun {
  import opened ExitCodes
  import opened Worker
  import opened Feeder
  import opened Protocol

  /** No exception escapes this worker after its connection has put DONE. */
  ghost predicate SinglePlan(p: Plan) {
    EndsInDones(p.early.messages, 1) && EndsInDones(p.late.messages, 1) && EndsInDones(p.full.messages, 1)
  }

  ghost predicate SingleDone(c: Config) {
    forall i | 0 <= i < |c.plans| :: SinglePlan(c.plans[i])
  }

  /** A qube's plan has a single DONE exactly when the broad handler never follows `__exit__`. */
  lemma SinglePlanOf(q: Qube)
    requires QuietReaders(q)
    ensures SinglePlan(PlanOf(q)) <==> forall first: bool, second: bool :: !DoubleDone(q, first, second)
  {
    DoneAccounting(q, true, false);
    DoneAccounting(q, false, true);
    DoneAccounting(q, false, false);
  }

  // ---------------------------------------------------------------- counting DONEs

  lemma {:induction false} LastStatusIffDone(log: seq<Message>)
    ensures LastStatus(log).Some? <==> DoneCount(log) > 0
  {
    if log != [] {
      LastStatusIffDone(log[..|log| - 1]);
    }
  }

  /** A feeder that has consumed nothing yet. */
  ghost predicate Fresh(st: FeedState) {
    st.statuses == map[] && st.shown == st.progresses
  }

  lemma StatusKeys(st: FeedState, log: seq<Message>, name: string)
    requires Known(st, log) && Fresh(st) && name in st.progresses
    ensures name in FeedAll(st, log).statuses <==> DoneCount(From(log, name)) > 0
  {
    FeedShows(st, log, name);
    LastStatusIffDone(From(log, name));
  }

  lemma {:induction false} StatusesKnown(st: FeedState, log: seq<Message>)
    requires Known(st, log) && Fresh(st)
    ensures FeedAll(st, log).statuses.Keys <= st.progresses.Keys
  {
    if log != [] {
      StatusesKnown(st, log[..|log| - 1]);
    }
  }

  lemma DoneCountNext(log: seq<Message>, m: Message)
    ensures DoneCount(log + [m]) == DoneCount(log) + if m.info.Done? then 1 else 0
  {
    assert (log + [m])[..|log|] == log;
  }

  ghost predicate AtMostOneEach(log: seq<Message>) {
    forall name :: DoneCount(From(log, name)) <= 1
  }

  lemma AtMostOneBefore(log: seq<Message>, m: Message)
    requires AtMostOneEach(log + [m])
    ensures AtMostOneEach(log)
    ensures m.info.Done? ==> DoneCount(From(log, m.qname)) == 0
  {
    forall name: string
      ensures DoneCount(From(log, name)) <= 1
      ensures m.info.Done? && m.qname == name ==> DoneCount(From(log, name)) == 0
    {
      FromNext(log, m, name);
      DoneCountNext(From(log, name), m);
      var own := From(log + [m], name);
      assert DoneCount(own) <= 1;
    }
  }

  /** Every consumed DONE adds at most one status, and exactly one if no name repeats. */
  lemma {:induction false} StatusCount(st: FeedState, log: seq<Message>)
    requires Known(st, log) && Fresh(st)
    ensures |FeedAll(st, log).statuses| <= DoneCount(log)
    ensures AtMostOneEach(log) ==> |FeedAll(st, log).statuses| == DoneCount(log)
  {
    if log != [] {
      var before, m := log[..|log| - 1], log[|log| - 1];
      StatusCount(st, before);
      var was := FeedAll(st, before).statuses;
      assert log == before + [m];
      if AtMostOneEach(log) {
        AtMostOneBefore(before, m);
      }
      if m.info.Done? {
        StatusKeys(st, before, m.qname);
        assert was[m.qname := m.info.status].Keys == was.Keys + {m.qname};
      }
    }
  }

  ghost function NamesUpTo(c: Config, n: nat): set<string>
    requires n <= |c.plans|
  {
    set i | 0 <= i < n :: c.plans[i].name
  }

  lemma {:induction false} NamesCount(c: Config, n: nat)
    requires DistinctNames(c) && n <= |c.plans|
    ensures |NamesUpTo(c, n)| == n
  {
    if n > 0 {
      NamesCount(c, n - 1);
      assert NamesUpTo(c, n) == NamesUpTo(c, n - 1) + {c.plans[n - 1].name};
    }
  }

  lemma SameSize<T>(a: set<T>, b: set<T>)
    requires a <= b && |a| >= |b|
    ensures a == b
  {
    forall x | x in b ensures x in a {
      if x !in a {
        SubsetSize(a, b - {x});
      }
    }
  }

  lemma {:induction false} SubsetSize<T>(a: set<T>, b: set<T>)
    requires a <= b
    ensures |a| <= |b|
  {
    if a != {} {
      var x :| x in a;
      SubsetSize(a - {x}, b - {x});
    }
  }

  // ---------------------------------------------------------------- one worker's messages

  ghost predicate StatusesComplete(c: Config, s: State)
    requires |s.pcs| == |c.plans|
  {
    && s.feed.statuses.Keys == Names(c)
    && forall i | 0 <= i < |c.plans| :: HasOutcome(s.pcs[i])
         && c.plans[i].name in s.feed.statuses
         && LastStatus(s.pcs[i].out.messages) == Some(s.feed.statuses[c.plans[i].name])
  }

  lemma OutcomeDones(p: Plan, out: Outcome, terminated: bool)
    requires Possible(p, out, terminated) && ValidPlan(p)
    ensures DoneCount(out.messages) >= 1
    ensures SinglePlan(p) ==> EndsInDones(out.messages, 1)
  {}

  /** Nothing of a single-DONE outcome can follow its DONE. */
  lemma NothingAfterDone(seen: seq<Message>, rest: seq<Message>)
    requires EndsInDones(seen + rest, 1) && DoneCount(seen) >= 1
    ensures rest == []
  {
    if rest != [] {
      var all := seen + rest;
      assert forall m | m in seen :: m in all[..|all| - 1] by {
        forall m | m in seen ensures m in all[..|all| - 1] {
          var k :| 0 <= k < |seen| && seen[k] == m;
          assert all[..|all| - 1][k] == m;
        }
      }
      NoDoneCount(seen);
    }
  }

  lemma GroupRight(a: seq<Message>, b: seq<Message>, c: seq<Message>)
    ensures a + b + c == a + (b + c)
  {}

  /** A worker's messages split into the consumed, the queued and the pending ones. */
  lemma Share(p: Plan, pc: Pc, seen: seq<Message>, queue: seq<Message>, terminated: bool)
    requires WorkerInv(p, pc, seen + queue, terminated)
    ensures HasOutcome(pc) ==> From(seen, p.name) + (From(queue, p.name) + Pending(pc)) == pc.out.messages
    ensures !HasOutcome(pc) ==> From(seen, p.name) == []
  {
    FromAppend(seen, queue, p.name);
    if HasOutcome(pc) {
      GroupRight(From(seen, p.name), From(queue, p.name), Pending(pc));
    } else {
      assert |From(seen, p.name)| + |From(queue, p.name)| == 0;
    }
  }

  lemma WorkerShare(c: Config, s: State, i: nat)
    requires Shape(c, s) && WorkersInv(c, s) && i < |c.plans|
    ensures var name, pc, seen := c.plans[i].name, s.pcs[i], s.sent[..s.fed];
            if HasOutcome(pc)
            then Possible(c.plans[i], pc.out, s.terminated)
                 && From(seen, name) + (From(Queue(s), name) + Pending(pc)) == pc.out.messages
            else From(seen, name) == []
  {
    assert s.sent == s.sent[..s.fed] + Queue(s);
    assert WorkerInv(c.plans[i], s.pcs[i], s.sent, s.terminated);
    Share(c.plans[i], s.pcs[i], s.sent[..s.fed], Queue(s), s.terminated);
  }

  lemma WorkerOnce(c: Config, s: State, i: nat)
    requires ValidConfig(c) && Inv(c, s) && SingleDone(c) && i < |c.plans|
    ensures DoneCount(From(s.sent[..s.fed], c.plans[i].name)) <= 1
  {
    WorkerShare(c, s, i);
    var name, pc, seen := c.plans[i].name, s.pcs[i], s.sent[..s.fed];
    if HasOutcome(pc) {
      OutcomeDones(c.plans[i], pc.out, s.terminated);
      DoneCountAppend(From(seen, name), From(Queue(s), name) + Pending(pc));
    }
  }

  lemma {:induction false} ForeignName(log: seq<Message>, names: set<string>, name: string)
    requires name !in names && forall m | m in log :: m.qname in names
    ensures From(log, name) == []
  {
    if log != [] {
      ForeignName(log[..|log| - 1], names, name);
      assert log[|log| - 1] in log;
    }
  }

  lemma ConsumedOnce(c: Config, s: State)
    requires ValidConfig(c) && Inv(c, s) && SingleDone(c)
    ensures AtMostOneEach(s.sent[..s.fed])
  {
    forall name ensures DoneCount(From(s.sent[..s.fed], name)) <= 1 {
      if name in Names(c) {
        var i :| 0 <= i < |c.plans| && c.plans[i].name == name;
        WorkerOnce(c, s, i);
      } else {
        ForeignName(s.sent[..s.fed], Names(c), name);
      }
    }
  }

  // ---------------------------------------------------------------- the feeder's exit

  lemma AllStatusesSeen(c: Config, s: State)
    requires ValidConfig(c) && Inv(c, s) && SingleDone(c)
    requires s.feed.left == 0
    ensures s.feed.statuses.Keys == Names(c)
  {
    var seen := s.sent[..s.fed];
    FeedLeft(FreshFeed(c), seen);
    ConsumedOnce(c, s);
    StatusCount(FreshFeed(c), seen);
    NamesCount(c, |c.plans|);
    assert NamesUpTo(c, |c.plans|) == Names(c);
    StatusesKnown(FreshFeed(c), seen);
    SameSize(s.feed.statuses.Keys, Names(c));
  }

  lemma WorkerExhausted(c: Config, s: State, i: nat)
    requires ValidConfig(c) && Inv(c, s) && SingleDone(c) && i < |c.plans|
    requires c.plans[i].name in s.feed.statuses
    ensures HasOutcome(s.pcs[i]) && (s.pcs[i].Emitting? ==> s.pcs[i].pending == [])
    ensures From(Queue(s), c.plans[i].name) == []
    ensures From(s.sent[..s.fed], c.plans[i].name) == s.pcs[i].out.messages
  {
    var name, pc := c.plans[i].name, s.pcs[i];
    var seen := From(s.sent[..s.fed], name);
    assert name in Names(c);
    StatusKeys(FreshFeed(c), s.sent[..s.fed], name);
    WorkerShare(c, s, i);
    OutcomeDones(c.plans[i], pc.out, s.terminated);
    NothingAfterDone(seen, From(Queue(s), name) + Pending(pc));
  }

  /**
   When the feeder loop ends, exactly one DONE per qube has been consumed, the queue is empty and
   stays so (no worker holds a message back), and `statuses` maps every bar to its own qube's status.
   */
  lemma FeederExit(c: Config, s: State)
    requires ValidConfig(c) && Inv(c, s) && SingleDone(c)
    requires s.feed.left == 0
    ensures DoneCount(s.sent[..s.fed]) == |c.plans|
    ensures Queue(s) == []
    ensures forall i | 0 <= i < |c.plans| && s.pcs[i].Emitting? :: s.pcs[i].pending == []
    ensures StatusesComplete(c, s)
  {
    FeedLeft(FreshFeed(c), s.sent[..s.fed]);
    AllStatusesSeen(c, s);
    forall i | 0 <= i < |c.plans|
      ensures HasOutcome(s.pcs[i]) && (s.pcs[i].Emitting? ==> s.pcs[i].pending == [])
      ensures From(Queue(s), c.plans[i].name) == [] && c.plans[i].name in s.feed.statuses
      ensures LastStatus(s.pcs[i].out.messages) == Some(s.feed.statuses[c.plans[i].name])
    {
      var name := c.plans[i].name;
      assert name in Names(c);
      WorkerExhausted(c, s, i);
      FeedShows(FreshFeed(c), s.sent[..s.fed], name);
    }
    FromEmpty(Queue(s), Names(c));
  }

  // ---------------------------------------------------------------- the result of `run`

  /** What one qube contributes: the status it sent last and the code it returned. */
  datatype Verdict = Verdict(status: FinalStatus, code: int)

  ghost function VerdictOf(out: Outcome): Verdict
    requires DoneCount(out.messages) > 0
  {
    LastStatusIffDone(out.messages);
    Verdict(LastStatus(out.messages).value, out.code)
  }

  function StatusCode(status: FinalStatus): int {
    match status
    case CANCELLED => SIGINT
    case ERROR => ERR
    case UNKNOWN => ERR_QREXEX
    case _ => OK
  }

  /** The worst code any qube contributes, by its result or by its status. */
  function Worst(verdicts: seq<Verdict>): int {
    if verdicts == [] then OK
    else
      var n := |verdicts| - 1;
      Max(Worst(verdicts[..n]), Max(MapVmCode(verdicts[n].code), StatusCode(verdicts[n].status)))
  }

  /** What `run` returns for these qubes and this final value of the flag. */
  function BatchCode(verdicts: seq<Verdict>, terminated: bool): int {
    if terminated then SIGINT else Worst(verdicts)
  }

  function StatusSet(verdicts: seq<Verdict>): set<FinalStatus> {
    set k | 0 <= k < |verdicts| :: verdicts[k].status
  }

  /** The end of `run`, after the pool has been joined. */
  method CombineResult(retCode: int, terminated: bool, statuses: set<FinalStatus>) returns (code: int)
    ensures code == CodeWithStatuses(if terminated then SIGINT else retCode, statuses)
    ensures code >= if terminated then SIGINT else retCode
    ensures (CANCELLED in statuses ==> 130 <= code) && (UNKNOWN in statuses ==> 40 <= code) && (ERROR in statuses ==> 1 <= code)
    ensures || code == (if terminated then 130 else retCode)
            || (code == 130 && CANCELLED in statuses) || (code == 40 && UNKNOWN in statuses) || (code == 1 && ERROR in statuses)
  {
    code := retCode;
    if terminated {
      code := SIGINT;
    }
    if CANCELLED in statuses {
      code := Max(code, SIGINT);
    }
    if ERROR in statuses {
      code := Max(code, ERR);
    }
    if UNKNOWN in statuses {
      code := Max(code, ERR_QREXEX);
    }
  }

  /** The least code that is at least `code` and at least what every status asks for. */
  ghost function CodeWithStatuses(code: int, statuses: set<FinalStatus>): int {
    if CANCELLED in statuses then Max(code, SIGINT)
    else if UNKNOWN in statuses then Max(code, ERR_QREXEX)
    else if ERROR in statuses then Max(code, ERR)
    else code
  }

  /** The largest mapped result code. */
  function CodeMax(verdicts: seq<Verdict>): int {
    if verdicts == [] then OK
    else Max(CodeMax(verdicts[..|verdicts| - 1]), MapVmCode(verdicts[|verdicts| - 1].code))
  }

  lemma MappedCodes(code: int)
    ensures MapVmCode(code) in {0, 21, 22, 23, 24, 25, 26}
    ensures MapVmCode(code) == OK <==> code == OK
  {}

  lemma {:induction false} CodeMaxRange(verdicts: seq<Verdict>)
    ensures CodeMax(verdicts) in {0, 21, 22, 23, 24, 25, 26}
    ensures CodeMax(verdicts) == OK <==> forall i | 0 <= i < |verdicts| :: verdicts[i].code == OK
    ensures forall i | 0 <= i < |verdicts| :: MapVmCode(verdicts[i].code) <= CodeMax(verdicts)
  {
    if verdicts != [] {
      var n := |verdicts| - 1;
      CodeMaxRange(verdicts[..n]);
      MappedCodes(verdicts[n].code);
      assert forall i | 0 <= i < n :: verdicts[..n][i] == verdicts[i];
    }
  }

  /** Statuses that ask for no more than the code is already. */
  lemma NothingAdded(code: int, statuses: set<FinalStatus>)
    requires statuses <= {SUCCESS, NO_UPDATES, ERROR} && (ERROR in statuses ==> code >= ERR)
    ensures CodeWithStatuses(code, statuses) == code
  {}

  lemma AddStatus(code: int, more: int, statuses: set<FinalStatus>, status: FinalStatus)
    requires code >= OK && more >= OK
    ensures CodeWithStatuses(Max(code, more), statuses + {status})
            == Max(CodeWithStatuses(code, statuses), Max(more, StatusCode(status)))
  {}

  lemma {:induction false} WorstSplits(verdicts: seq<Verdict>)
    ensures Worst(verdicts) == CodeWithStatuses(CodeMax(verdicts), StatusSet(verdicts))
    ensures CodeMax(verdicts) >= OK
  {
    if verdicts != [] {
      var n := |verdicts| - 1;
      WorstSplits(verdicts[..n]);
      assert StatusSet(verdicts) == StatusSet(verdicts[..n]) + {verdicts[n].status};
      AddStatus(CodeMax(verdicts[..n]), MapVmCode(verdicts[n].code), StatusSet(verdicts[..n]), verdicts[n].status);
    }
  }

  ghost predicate AllReturned(pcs: seq<Pc>) {
    forall i | 0 <= i < |pcs| :: pcs[i].Finished? && DoneCount(pcs[i].out.messages) > 0
  }

  ghost function Verdicts(pcs: seq<Pc>): seq<Verdict>
    requires AllReturned(pcs)
  {
    seq(|pcs|, i requires 0 <= i < |pcs| => VerdictOf(pcs[i].out))
  }

  lemma {:induction false} CollectedIsCodeMax(pcs: seq<Pc>, collected: seq<bool>)
    requires AllReturned(pcs) && |collected| == |pcs| && forall i | 0 <= i < |pcs| :: collected[i]
    ensures CollectedCode(pcs, collected) == CodeMax(Verdicts(pcs))
  {
    if pcs != [] {
      var n := |pcs| - 1;
      CollectedIsCodeMax(pcs[..n], collected[..n]);
      assert Verdicts(pcs)[..n] == Verdicts(pcs[..n]);
    }
  }

  lemma AllFinished(c: Config, s: State)
    requires ValidConfig(c) && Inv(c, s) && AllCollected(s)
    ensures AllReturned(s.pcs)
  {
    forall i | 0 <= i < |s.pcs| ensures s.pcs[i].Finished? && DoneCount(s.pcs[i].out.messages) > 0 {
      assert s.collected[i];
      assert WorkerInv(c.plans[i], s.pcs[i], s.sent, s.terminated);
      OutcomeDones(c.plans[i], s.pcs[i].out, s.terminated);
    }
  }

  lemma StatusValues(c: Config, s: State)
    requires |s.pcs| == |c.plans| && AllReturned(s.pcs) && StatusesComplete(c, s)
    ensures s.feed.statuses.Values == StatusSet(Verdicts(s.pcs))
  {
    var verdicts := Verdicts(s.pcs);
    forall x | x in s.feed.statuses.Values ensures x in StatusSet(verdicts) {
      var name :| name in s.feed.statuses && s.feed.statuses[name] == x;
      var i :| 0 <= i < |c.plans| && c.plans[i].name == name;
      assert verdicts[i].status == x;
    }
    forall x | x in StatusSet(verdicts) ensures x in s.feed.statuses.Values {
      var i :| 0 <= i < |verdicts| && verdicts[i].status == x;
      assert s.feed.statuses[c.plans[i].name] == x;
    }
  }

  /** The code `run` returns in this state. */
  ghost function RunCode(s: State): int {
    CodeWithStatuses(if s.terminated then SIGINT else s.retCode, s.feed.statuses.Values)
  }

  /** The code of `run` from what every qube did, once all statuses are there. */
  lemma FinalCode(c: Config, s: State)
    requires |s.pcs| == |s.collected| == |c.plans| && AllReturned(s.pcs) && StatusesComplete(c, s) && Complete(s)
    requires s.retCode == CollectedCode(s.pcs, s.collected)
    ensures s.retCode == CodeMax(Verdicts(s.pcs))
    ensures RunCode(s) == BatchCode(Verdicts(s.pcs), s.terminated)
  {
    StatusValues(c, s);
    CollectedIsCodeMax(s.pcs, s.collected);
    WorstSplits(Verdicts(s.pcs));
    var statuses, code := s.feed.statuses.Values, CodeMax(Verdicts(s.pcs));
    assert CodeWithStatuses(SIGINT, statuses) == SIGINT;
    assert CodeWithStatuses(code, statuses) == Worst(Verdicts(s.pcs));
  }

  lemma RetCodeIs(c: Config, s: State)
    requires Inv(c, s)
    ensures Shape(c, s) && |s.pcs| == |s.collected| == |c.plans|
    ensures forall i | 0 <= i < |s.pcs| && s.collected[i] :: s.pcs[i].Finished?
    ensures s.retCode == CollectedCode(s.pcs, s.collected)
  {}

  /**
   The pair `run` returns is determined by what each qube did and by the final flag; the order of
   messages and callbacks does not enter.
   */
  lemma RunResult(c: Config, s: State)
    requires ValidConfig(c) && Inv(c, s) && SingleDone(c) && Complete(s)
    ensures AllReturned(s.pcs) && StatusesComplete(c, s)
    ensures s.retCode == CodeMax(Verdicts(s.pcs))
    ensures RunCode(s) == BatchCode(Verdicts(s.pcs), s.terminated)
  {
    AllFinished(c, s);
    FeederExit(c, s);
    RetCodeIs(c, s);
    FinalCode(c, s);
  }

  lemma SameStatuses(c: Config, one: State, two: State)
    requires |c.plans| == |one.pcs| && one.pcs == two.pcs && StatusesComplete(c, one) && StatusesComplete(c, two)
    ensures one.feed.statuses == two.feed.statuses
  {
    forall name | name in Names(c) ensures one.feed.statuses[name] == two.feed.statuses[name] {
      var i :| 0 <= i < |c.plans| && c.plans[i].name == name;
      assert LastStatus(one.pcs[i].out.messages) == Some(one.feed.statuses[name]);
    }
  }

  /** Confluence: two finished runs in which every qube did the same return the same pair. */
  lemma Confluence(c: Config, one: State, two: State)
    requires ValidConfig(c) && SingleDone(c) && one.pcs == two.pcs && one.terminated == two.terminated
    requires Inv(c, one) && Complete(one)
    requires Inv(c, two) && Complete(two)
    ensures RunCode(one) == RunCode(two)
    ensures one.feed.statuses == two.feed.statuses
  {
    hide RunCode, Complete, SingleDone;
    RetCodeIs(c, one);
    RunResult(c, one);
    RunResult(c, two);
    SameStatuses(c, one, two);
  }

  /** The collected code alone, also if some qube has put two DONEs and whatever the feeder has seen. */
  lemma CollectedResult(c: Config, s: State)
    requires ValidConfig(c) && Inv(c, s) && AllCollected(s)
    ensures AllReturned(s.pcs)
    ensures s.retCode == CodeMax(Verdicts(s.pcs))
  {
    AllFinished(c, s);
    RetCodeIs(c, s);
    CollectedIsCodeMax(s.pcs, s.collected);
  }

  lemma UninterruptedPc(c: Config, s: State, i: nat)
    requires Inv(c, s) && AllCollected(s) && !s.terminated && i < |c.plans|
    ensures s.pcs[i] == Finished(c.plans[i].full)
  {
    assert s.collected[i];
    assert WorkerInv(c.plans[i], s.pcs[i], s.sent, s.terminated);
  }

  /** In particular, finished runs of a batch that was never interrupted all return the same pair. */
  lemma UninterruptedConfluence(c: Config, one: State, two: State)
    requires ValidConfig(c) && SingleDone(c)
    requires Inv(c, one) && Complete(one) && !one.terminated
    requires Inv(c, two) && Complete(two) && !two.terminated
    ensures RunCode(one) == RunCode(two)
    ensures one.feed.statuses == two.feed.statuses
  {
    hide Inv, ValidConfig, SingleDone, RunCode;
    RetCodeIs(c, one);
    RetCodeIs(c, two);
    forall i | 0 <= i < |c.plans| ensures one.pcs[i] == two.pcs[i] {
      UninterruptedPc(c, one, i);
      UninterruptedPc(c, two, i);
    }
    Confluence(c, one, two);
  }
}
