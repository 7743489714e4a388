/**
 A batch without bars (`--quiet`, `--no-progress`): the feeder returns at once, nothing is ever taken
 from the queue, and only the results handed back by the workers count.
 */
module QuietBatch {
  import opened ExitCodes
  import opened Worker
  import opened Feeder
  import opened Protocol
  import opened BatchRun
  import opened Cancellation

  lemma {:induction false} NothingConsumed(c: Config, s: State, steps: seq<Step>)
    requires IsRun(c, s, steps) && Consume !in steps
    ensures Exec(c, s, steps).feed == s.feed && Exec(c, s, steps).fed == s.fed
    decreases |steps|
  {
    if steps != [] {
      assert steps[0] in steps;
      NothingConsumed(c, Apply(c, s, steps[0]), steps[1..]);
    }
  }

  /**
   A run that only the feeder could continue has collected every result. It returns 130 after SIGINT and
   otherwise the largest mapped code, and no statuses, even if some qube puts two DONEs.
   */
  lemma QuietResult(qubes: seq<Qube>, slots: nat, steps: seq<Step>)
    requires ValidQubes(qubes) && slots >= 1
    requires var c := ConfigOf(qubes, slots);
             IsRun(c, Initial(c), steps) && Consume !in steps && !CanWork(c, Exec(c, Initial(c), steps))
    ensures var c := ConfigOf(qubes, slots);
            var end := Exec(c, Initial(c), steps);
            && ValidConfig(c) && Inv(c, end) && AllCollected(end) && AllReturned(end.pcs)
            && end.feed.statuses == map[]
            && RunCode(end) == if end.terminated then SIGINT else CodeMax(Verdicts(end.pcs))
  {
    hide ValidConfig, ConfigOf, CanWork;
    var c := ConfigOf(qubes, slots);
    var end := Exec(c, Initial(c), steps);
    ConfigIsValid(qubes, slots);
    SlotsOf(qubes, slots);
    InitialInv(c);
    RunInv(c, Initial(c), steps);
    NothingConsumed(c, Initial(c), steps);
    WorkersNeverStuck(c, end);
    RetCodeIs(c, end);
    CollectedResult(c, end);
  }

  lemma SlotsOf(qubes: seq<Qube>, slots: nat)
    ensures ConfigOf(qubes, slots).slots == slots
  {}
}
