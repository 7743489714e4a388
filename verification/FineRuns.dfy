/** What the code of a batch says about the qubes themselves, for every run of the batch. */
module FineRuns {
  import opened ExitCodes
  import opened Worker
  import opened Feeder
  import opened Protocol
  import opened BatchRun
  import opened Cancellation
  import opened MissingStatus

  // ---------------------------------------------------------------- one qube

  /** A command that does not count as failed: it ended with 0, with 100, or was killed by a signal. */
  predicate Passes(c: Command) {
    c.Exit? && (c.code <= OK || c.code == OK_NO_UPDATES)
  }

  /** The transfer does not count as failed; a killed `mkdir` ends it early without a failure. */
  predicate TransferPasses(q: Qube) {
    && !q.archiveRaises && Passes(q.mkdir)
    && (q.mkdir.code < OK || (q.copy == CopyOk && Passes(q.untar)))
  }

  predicate AllWell(q: Qube) {
    !q.setupRaises && !q.exitRaises && Passes(q.entry) && (q.admin || TransferPasses(q))
  }

  lemma TransferMeans(q: Qube)
    requires !q.admin
    ensures TransferPasses(q) <==> !TransferRaises(q) && TransferCode(q) == OK
  {}

  lemma FullCode(q: Qube)
    ensures Trace(q, false, false).code == OK <==> AllWell(q)
    ensures AllWell(q) ==> !DoubleDone(q, false, false)
    ensures AllWell(q) ==> RunStatus(q) in {SUCCESS, NO_UPDATES}
    ensures AllWell(q) ==> Trace(q, false, false).messages == Reported(q) + [Message(ConnectionName(q), Done(RunStatus(q)))]
  {
    if !q.admin {
      TransferMeans(q);
    }
  }

  lemma FullVerdict(q: Qube)
    requires QuietReaders(q)
    ensures DoneCount(Trace(q, false, false).messages) > 0
    ensures var v := VerdictOf(Trace(q, false, false));
            v.code == OK && v.status in {SUCCESS, NO_UPDATES} <==> AllWell(q)
    ensures VerdictOf(Trace(q, false, false)).code == OK <==> AllWell(q)
  {
    hide Trace, DoneCount, Reported, LastStatus, DoubleDone, AllWell, RunStatus;
    DoneAccounting(q, false, false);
    FullCode(q);
    if AllWell(q) {
      LastAppend(Reported(q), Message(ConnectionName(q), Done(RunStatus(q))));
    }
  }

  /** Without SIGINT a worker sends no other status than these three, and ERROR only along with an error code. */
  lemma ErrorMeans(q: Qube, m: Message)
    requires QuietReaders(q) && m in Trace(q, false, false).messages && m.info.Done?
    ensures m.info.status in {SUCCESS, NO_UPDATES, ERROR}
    ensures m.info.status == ERROR ==> Trace(q, false, false).code != OK
  {
    assert forall r | r in Reported(q) :: !r.info.Done?;
  }

  // ---------------------------------------------------------------- one batch

  /** What an uninterrupted batch has collected from each qube. */
  lemma Uninterrupted(qubes: seq<Qube>, slots: nat, s: State, i: nat)
    requires ValidQubes(qubes) && i < |qubes|
    requires var c := ConfigOf(qubes, slots); Inv(c, s) && AllCollected(s) && !s.terminated && AllReturned(s.pcs)
    ensures |s.pcs| == |qubes| && s.pcs[i].out == Trace(qubes[i], false, false)
    ensures Verdicts(s.pcs)[i] == VerdictOf(Trace(qubes[i], false, false))
  {
    hide Trace, DoneCount, LastStatus, Inv;
    UninterruptedPc(ConfigOf(qubes, slots), s, i);
    RetCodeIs(ConfigOf(qubes, slots), s);
  }

  /** A status that is shown adds nothing to the collected code. */
  lemma ShownAddsNothing(qubes: seq<Qube>, slots: nat, s: State, name: string)
    requires ValidQubes(qubes) && name in s.feed.statuses
    requires var c := ConfigOf(qubes, slots);
             ValidConfig(c) && Inv(c, s) && AllCollected(s) && !s.terminated && AllReturned(s.pcs)
    ensures s.feed.statuses[name] in {SUCCESS, NO_UPDATES, ERROR}
    ensures s.feed.statuses[name] == ERROR ==> CodeMax(Verdicts(s.pcs)) >= ERR
  {
    hide Trace, DoneCount, LastStatus, CodeMax, ValidConfig;
    var c := ConfigOf(qubes, slots);
    StatusesKnown(FreshFeed(c), s.sent[..s.fed]);
    assert name in Names(c);
    var i :| 0 <= i < |c.plans| && c.plans[i].name == name;
    ShownStatusWasSent(c, s, i);
    Uninterrupted(qubes, slots, s, i);
    var m :| m in s.pcs[i].out.messages && m.info == Done(s.feed.statuses[name]);
    ErrorMeans(qubes[i], m);
    CodeMaxRange(Verdicts(s.pcs));
    MappedCodes(Verdicts(s.pcs)[i].code);
  }

  /** Nor does the status a qube sent last. */
  lemma VerdictAddsNothing(qubes: seq<Qube>, slots: nat, s: State, i: nat)
    requires ValidQubes(qubes) && i < |qubes|
    requires var c := ConfigOf(qubes, slots); Inv(c, s) && AllCollected(s) && !s.terminated && AllReturned(s.pcs)
    ensures |s.pcs| == |qubes| && Verdicts(s.pcs)[i].status in {SUCCESS, NO_UPDATES, ERROR}
    ensures Verdicts(s.pcs)[i].status == ERROR ==> CodeMax(Verdicts(s.pcs)) >= ERR
  {
    hide Trace, DoneCount, LastStatus, CodeMax, Inv;
    Uninterrupted(qubes, slots, s, i);
    var out := Trace(qubes[i], false, false);
    LastStatusIffDone(out.messages);
    LastStatusIn(out.messages);
    var m :| m in out.messages && m.info == Done(LastStatus(out.messages).value);
    ErrorMeans(qubes[i], m);
    CodeMaxRange(Verdicts(s.pcs));
    MappedCodes(Verdicts(s.pcs)[i].code);
  }

  lemma CollectedCodeIs(qubes: seq<Qube>, slots: nat, s: State)
    requires ValidQubes(qubes)
    requires var c := ConfigOf(qubes, slots); ValidConfig(c) && Inv(c, s) && AllCollected(s)
    ensures AllReturned(s.pcs)
    ensures RunCode(s) == if s.terminated then SIGINT else CodeMax(Verdicts(s.pcs))
    ensures RunCode(s) == BatchCode(Verdicts(s.pcs), s.terminated)
  {
    hide CodeMax, Worst, Inv, ValidConfig;
    var c := ConfigOf(qubes, slots);
    CollectedResult(c, s);
    RetCodeIs(c, s);
    if !s.terminated {
      var verdicts := Verdicts(s.pcs);
      forall x | x in s.feed.statuses.Values
        ensures x in {SUCCESS, NO_UPDATES, ERROR} && (x == ERROR ==> CodeMax(verdicts) >= ERR)
      {
        var name :| name in s.feed.statuses && s.feed.statuses[name] == x;
        ShownAddsNothing(qubes, slots, s, name);
      }
      NothingAdded(CodeMax(verdicts), s.feed.statuses.Values);
      forall x | x in StatusSet(verdicts)
        ensures x in {SUCCESS, NO_UPDATES, ERROR} && (x == ERROR ==> CodeMax(verdicts) >= ERR)
      {
        var i :| 0 <= i < |verdicts| && verdicts[i].status == x;
        VerdictAddsNothing(qubes, slots, s, i);
      }
      NothingAdded(CodeMax(verdicts), StatusSet(verdicts));
      WorstSplits(verdicts);
    }
  }

  /**
   The code of every batch run that has gone on as long as it can, also if statuses are missing: 130 after
   SIGINT, and otherwise the largest mapped result. The statuses never change it, and it is the worst any
   qube asks for.
   */
  lemma CodeTheorem(qubes: seq<Qube>, slots: nat, steps: seq<Step>)
    requires ValidQubes(qubes) && slots >= 1
    requires var c := ConfigOf(qubes, slots); IsRun(c, Initial(c), steps) && !CanMove(c, Exec(c, Initial(c), steps))
    ensures var c := ConfigOf(qubes, slots);
            var end := Exec(c, Initial(c), steps);
            && AllReturned(end.pcs)
            && RunCode(end) == (if end.terminated then SIGINT else CodeMax(Verdicts(end.pcs)))
            && RunCode(end) == BatchCode(Verdicts(end.pcs), end.terminated)
  {
    hide CodeMax, Worst, Inv, ValidConfig, CanMove, Initial, RunCode, ConfigOf, ValidQubes;
    Ended(qubes, slots, steps);
    var c := ConfigOf(qubes, slots);
    CollectedCodeIs(qubes, slots, Exec(c, Initial(c), steps));
  }

  /** Any two of them without SIGINT return the same code, whatever statuses are missing. */
  lemma SameCode(qubes: seq<Qube>, slots: nat, one: seq<Step>, two: seq<Step>)
    requires ValidQubes(qubes) && slots >= 1
    requires var c := ConfigOf(qubes, slots);
             && IsRun(c, Initial(c), one) && !CanMove(c, Exec(c, Initial(c), one)) && Interrupt !in one
             && IsRun(c, Initial(c), two) && !CanMove(c, Exec(c, Initial(c), two)) && Interrupt !in two
    ensures var c := ConfigOf(qubes, slots);
            RunCode(Exec(c, Initial(c), one)) == RunCode(Exec(c, Initial(c), two))
  {
    hide CodeMax, Worst, Inv, ValidConfig, CanMove, RunCode, Exec, IsRun;
    var c := ConfigOf(qubes, slots);
    var a, b := Exec(c, Initial(c), one), Exec(c, Initial(c), two);
    Ended(qubes, slots, one);
    Ended(qubes, slots, two);
    NotInterrupted(c, Initial(c), one);
    NotInterrupted(c, Initial(c), two);
    CodeTheorem(qubes, slots, one);
    CodeTheorem(qubes, slots, two);
    RetCodeIs(c, a);
    RetCodeIs(c, b);
    forall i | 0 <= i < |qubes| ensures a.pcs[i] == b.pcs[i] {
      UninterruptedPc(c, a, i);
      UninterruptedPc(c, b, i);
    }
    assert a.pcs == b.pcs;
  }

  /** The collected code is 0 exactly if every qube went well. */
  lemma CodeMaxZeroIff(qubes: seq<Qube>, slots: nat, s: State)
    requires ValidQubes(qubes)
    requires var c := ConfigOf(qubes, slots); Inv(c, s) && AllCollected(s) && !s.terminated && AllReturned(s.pcs)
    ensures CodeMax(Verdicts(s.pcs)) == OK <==> forall i | 0 <= i < |qubes| :: AllWell(qubes[i])
  {
    hide Trace, DoneCount, LastStatus, Inv, CodeMax, AllWell;
    var c, verdicts := ConfigOf(qubes, slots), Verdicts(s.pcs);
    RetCodeIs(c, s);
    forall i | 0 <= i < |qubes| ensures verdicts[i].code == OK <==> AllWell(qubes[i]) {
      Uninterrupted(qubes, slots, s, i);
      FullVerdict(qubes[i]);
    }
    CodeMaxRange(verdicts);
  }

  /**
   Code 0 of a batch that has gone on as long as it can says exactly that no SIGINT came and every qube's
   set-up, transfer, entrypoint and leaving went well, where a command killed by a signal passes.
   */
  lemma ZeroIff(qubes: seq<Qube>, slots: nat, steps: seq<Step>)
    requires ValidQubes(qubes) && slots >= 1
    requires var c := ConfigOf(qubes, slots); IsRun(c, Initial(c), steps) && !CanMove(c, Exec(c, Initial(c), steps))
    ensures var c := ConfigOf(qubes, slots);
            var end := Exec(c, Initial(c), steps);
            RunCode(end) == OK <==> !end.terminated && forall i | 0 <= i < |qubes| :: AllWell(qubes[i])
  {
    hide Inv, ValidConfig, CanMove, RunCode, Worst, CodeMax, AllWell, IsRun, Exec, Initial, AllReturned, ValidQubes;
    var c := ConfigOf(qubes, slots);
    var end := Exec(c, Initial(c), steps);
    Ended(qubes, slots, steps);
    CodeTheorem(qubes, slots, steps);
    if !end.terminated {
      CodeMaxZeroIff(qubes, slots, end);
    }
  }

  /** The code that stands for a result nobody documents. */
  const UNDOCUMENTED: int := 26

  predicate Documented(code: int) {
    code in {0, 21, 22, 23, 24, 25}
  }

  /** The largest mapped result, told from the results themselves. */
  lemma {:induction false} CodeMaxMeans(verdicts: seq<Verdict>)
    ensures CodeMax(verdicts) == UNDOCUMENTED <==> exists i :: 0 <= i < |verdicts| && !Documented(verdicts[i].code)
    ensures CodeMax(verdicts) != UNDOCUMENTED ==>
              && (forall i | 0 <= i < |verdicts| :: verdicts[i].code <= CodeMax(verdicts))
              && (CodeMax(verdicts) == 0 || exists i :: 0 <= i < |verdicts| && verdicts[i].code == CodeMax(verdicts))
    ensures 0 <= CodeMax(verdicts) <= UNDOCUMENTED
  {
    if verdicts != [] {
      var n := |verdicts| - 1;
      CodeMaxMeans(verdicts[..n]);
      assert forall i | 0 <= i < n :: verdicts[..n][i] == verdicts[i];
      assert 0 <= n < |verdicts|;
    }
  }

  /**
   The code of every batch run that cannot go on, from what the workers returned: 130 after SIGINT; otherwise
   26 exactly if some worker returned anything but 0 and 21 to 25, and else the largest code returned.
   */
  lemma BatchCodeMeans(qubes: seq<Qube>, slots: nat, steps: seq<Step>)
    requires ValidQubes(qubes) && slots >= 1
    requires var c := ConfigOf(qubes, slots); IsRun(c, Initial(c), steps) && !CanMove(c, Exec(c, Initial(c), steps))
    ensures var c := ConfigOf(qubes, slots);
            var end := Exec(c, Initial(c), steps);
            var code := RunCode(end);
            && (forall i | 0 <= i < |end.pcs| :: HasOutcome(end.pcs[i]))
            && (end.terminated ==> code == 130)
            && (!end.terminated ==>
                  && (code == 26 <==> exists i :: 0 <= i < |end.pcs| && !Documented(end.pcs[i].out.code))
                  && (code != 26 ==>
                        && (forall i | 0 <= i < |end.pcs| :: end.pcs[i].out.code <= code)
                        && (code == 0 || exists i :: 0 <= i < |end.pcs| && end.pcs[i].out.code == code)))
  {
    hide CodeMax, Worst, Inv, ValidConfig, CanMove, Initial, RunCode, ConfigOf, ValidQubes, IsRun, Exec, LastStatus, DoneCount, Documented;
    var c := ConfigOf(qubes, slots);
    var end := Exec(c, Initial(c), steps);
    CodeTheorem(qubes, slots, steps);
    var verdicts := Verdicts(end.pcs);
    CodeMaxMeans(verdicts);
    assert forall i | 0 <= i < |verdicts| :: verdicts[i].code == end.pcs[i].out.code;
    if i :| 0 <= i < |end.pcs| && !Documented(end.pcs[i].out.code) {
      assert !Documented(verdicts[i].code);
    }
  }
}
