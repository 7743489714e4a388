/** What the bars show at the end of a batch. */
module FinalBars {
  import opened ExitCodes
  import opened Worker
  import opened Feeder
  import opened Protocol
  import opened BatchRun
  import opened Cancellation
  import opened MissingStatus
  import opened Progress
  import Display

  lemma {:induction false} ReportedAppend(a: seq<Message>, b: seq<Message>)
    ensures Display.Percentages(a + b) == Display.Percentages(a) + Display.Percentages(b)
  {
    if b == [] {
      assert a + b == a;
    } else {
      var n := |b| - 1;
      assert (a + b)[..|a + b| - 1] == a + b[..n];
      ReportedAppend(a, b[..n]);
    }
  }

  lemma {:induction false} NoReports(log: seq<Message>)
    requires forall m | m in log :: !m.info.Updating?
    ensures Display.Percentages(log) == []
  {
    if log != [] {
      assert log[|log| - 1] in log;
      NoReports(log[..|log| - 1]);
    }
  }

  /** A worker that ran its entrypoint reports what the reader threads reported, and then only DONEs. */
  lemma FullReports(q: Qube)
    requires Trace(q, false, false).launched
    ensures Display.Percentages(Trace(q, false, false).messages) == Display.Percentages(Reported(q))
  {
    hide Display.Percentages, Reported;
    var out, reports := Trace(q, false, false).messages, Reported(q);
    assert out[..|reports|] == reports && out == reports + out[|reports|..];
    ReportedAppend(reports, out[|reports|..]);
    NoReports(out[|reports|..]);
  }

  lemma {:induction false} LaunchedReaches(c: Config, s: State, steps: seq<Step>, i: nat)
    requires IsRun(c, s, steps) && Launch(i) in steps && i < |c.plans| && |s.pcs| == |c.plans|
    requires s.pcs[i].Ready? || c.plans[i].checks
    ensures c.plans[i].checks
    decreases |steps|
  {
    if steps[0] != Launch(i) && !c.plans[i].checks {
      var next := Apply(c, s, steps[0]);
      if HasOutcome(next.pcs[i]) {
        LaunchedStays(c, next, steps[1..], i);
      } else {
        LaunchedReaches(c, next, steps[1..], i);
      }
    }
  }

  /** A qube that was launched had its full outcome consumed by the end. */
  lemma ConsumedAll(qubes: seq<Qube>, slots: nat, steps: seq<Step>, i: nat)
    requires ValidQubes(qubes) && slots >= 1 && i < |qubes|
    requires forall k | 0 <= k < |qubes| :: !DoubleDone(qubes[k], false, false)
    requires var c := ConfigOf(qubes, slots); IsRun(c, Initial(c), steps) && !CanMove(c, Exec(c, Initial(c), steps))
    requires Launch(i) in steps
    ensures var c := ConfigOf(qubes, slots);
            var end := Exec(c, Initial(c), steps);
            && ValidConfig(c) && Inv(c, end)
            && From(end.sent[..end.fed], BarName(qubes[i])) == Trace(qubes[i], false, false).messages
            && Trace(qubes[i], false, false).launched
  {
    hide Inv, ValidConfig, SingleDone, CanMove, Trace, From, DoubleDone, IsRun, Exec, LastStatus, DoneCount;
    var c := ConfigOf(qubes, slots);
    var end := Exec(c, Initial(c), steps);
    Ended(qubes, slots, steps);
    SingleDoneOf(qubes, slots);
    RunResult(c, end);
    LaunchedMeansFull(c, Initial(c), steps, i);
    LaunchedReaches(c, Initial(c), steps, i);
    RetCodeIs(c, end);
    assert c.plans[i] == PlanOf(qubes[i]);
    WorkerExhausted(c, end, i);
    CheckedRuns(qubes[i]);
  }

  lemma CheckedRuns(q: Qube)
    requires ReachesSecondCheck(q)
    ensures Trace(q, false, false).launched
  {}

  /**
   At the end of a batch, interrupted or not: the bar of every qube whose entrypoint was started and whose
   progress reports came from an agent with these percentages shows the last report of that agent.
   */
  lemma FinalBar(qubes: seq<Qube>, slots: nat, steps: seq<Step>, i: nat, first: real, second: real,
                 one: seq<real>, two: seq<real>, three: seq<real>, other: string -> Option<real>)
    requires ValidQubes(qubes) && slots >= 1 && i < |qubes|
    requires forall k | 0 <= k < |qubes| :: !DoubleDone(qubes[k], false, false)
    requires var c := ConfigOf(qubes, slots); IsRun(c, Initial(c), steps) && !CanMove(c, Exec(c, Initial(c), steps))
    requires Launch(i) in steps
    requires Ends(first, second) && Percents(one) && Percents(two) && Percents(three)
    requires var lines := Display.Printed(Stream(first, second, one, two, three));
             Display.Percentages(Reported(qubes[i]))
             == Display.Percentages(Display.ReadAll(Display.START, BarName(qubes[i]), lines, other).messages)
    ensures var c := ConfigOf(qubes, slots);
            var end := Exec(c, Initial(c), steps);
            && BarName(qubes[i]) in end.feed.shown
            && end.feed.shown[BarName(qubes[i])] == Display.LastOf(Stream(first, second, one, two, three))
  {
    hide ValidConfig, CanMove, Trace, From, DoubleDone, IsRun, Exec, Stream, Display.Printed, Display.ReadAll, Display.Percentages, Reported;
    var c := ConfigOf(qubes, slots);
    var end := Exec(c, Initial(c), steps);
    var name := BarName(qubes[i]);
    ConsumedAll(qubes, slots, steps, i);
    FullReports(qubes[i]);
    FedAtEnd(c, end);
    assert c.plans[i] == PlanOf(qubes[i]) && name in Names(c);
    Display.BarAgreesWithAgent(FreshFeed(c), end.sent[..end.fed], name, first, second, one, two, three, other);
  }

  lemma FedAtEnd(c: Config, s: State)
    requires Inv(c, s)
    ensures s.fed <= |s.sent| && Known(FreshFeed(c), s.sent[..s.fed]) && s.feed == FeedAll(FreshFeed(c), s.sent[..s.fed])
  {}

  // ---------------------------------------------------------------- blank lines

  /** The agent's standard error is read line by line while the entrypoint runs, and what the reader raises is raised. */
  ghost predicate ReadFrom(q: Qube, lines: seq<string>, other: string -> Option<real>) {
    q.showProgress && (Display.ReadAll(Display.START, BarName(q), lines, other).raised ==> q.entry.Fault?)
  }

  /** Line `k` is the first that the reader cannot get over: a blank one, before any 100. */
  ghost predicate BlankAt(lines: seq<string>, k: nat, name: string, other: string -> Option<real>)
    requires k < |lines|
  {
    var r, line := Display.ReadAll(Display.START, name, lines[..k], other), Display.Sanitize(lines[k]);
    && !r.finished && !r.raised
    && line != [] && Display.Float(line, other).None? && forall c | c in line :: c == ' '
  }

  lemma BlankLineRaises(lines: seq<string>, k: nat, name: string, other: string -> Option<real>)
    requires k < |lines| && BlankAt(lines, k, name, other)
    ensures Display.ReadAll(Display.START, name, lines, other).raised
  {
    var r := Display.ReadAll(Display.START, name, lines[..k], other);
    Display.ReaderRaisesIff(r, name, lines[k], other);
    Display.ReadNext(Display.START, name, lines[..k], lines[k], other);
    assert lines[..k + 1] == lines[..k] + [lines[k]];
    Display.RaisedStays(name, lines, k + 1, other);
  }

  /** One blank line of one agent's can lose the status of a qube: another run of the same batch may miss it. */
  lemma BlankLineLosesStatus(qubes: seq<Qube>, slots: nat, i: nat, lines: seq<string>, k: nat, other: string -> Option<real>)
    requires ValidQubes(qubes) && slots >= 1 && |qubes| >= 2 && i < |qubes|
    requires !qubes[i].setupRaises && ReadFrom(qubes[i], lines, other)
    requires k < |lines| && BlankAt(lines, k, BarName(qubes[i]), other)
    ensures CanMissStatus(ConfigOf(qubes, slots))
  {
    hide CanMissStatus, ValidQubes, BlankAt, Display.ReadAll;
    BlankLineRaises(lines, k, BarName(qubes[i]), other);
    assert DoubleDone(qubes[i], false, false);
    MissingStatusIff(qubes, slots);
  }
}
