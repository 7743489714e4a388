/**
 The agent inside a qube: requirements, refresh, upgrade and summary, folded into one result, then the
 entrypoint's clean-up and its last clamp. What the package manager's commands return is an input.
 */
module Pipeline {
  import opened ExitCodes
  import opened ProcessResult
  import opened PackageDiff
  import Worker
  import Feeder
  import Protocol
  import BatchRun

  datatype AgentType = VM | DOM0 | UPDATE_VM

  /** A result handed over by a stage: its code, its captured text, and whether that was shown. */
  datatype Stage = Stage(code: int, out: string, err: string, posted: bool)

  datatype Input = Input(
    agent: AgentType,
    refresh: bool,
    hardFail: bool,
    requirements: map<string, string>,
    before: Packages,          // packages before the upgrade
    after: Packages,           // packages after it
    older: (string, string) -> bool,
    installCode: int,          // of the command that installs missing requirements
    upgradeCode: int,          // of the command that upgrades old ones
    refreshed: Stage,
    upgraded: Stage,
    summary: string            // the printed package changes
  )

  // ---------------------------------------------------------------- requirements

  function Missing(input: Input): set<string> {
    set pkg | pkg in input.requirements && pkg !in input.before
  }

  /** Installed, but in no version newer than required. */
  function TooOld(input: Input): set<string> {
    set pkg | pkg in input.requirements && pkg in input.before
              && forall k | 0 <= k < |input.before[pkg]| :: !input.older(input.requirements[pkg], input.before[pkg][k])
  }

  predicate InstallFails(input: Input) {
    (Missing(input) != {} && input.installCode > OK) || (TooOld(input) != {} && input.upgradeCode > OK)
  }

  /** The inner loop of `install_requirements`: some installed version is newer than required. */
  method HasNewer(required: string, versions: seq<string>, older: (string, string) -> bool) returns (found: bool)
    ensures found <==> exists k :: 0 <= k < |versions| && older(required, versions[k])
  {
    for k := 0 to |versions|
      invariant forall j | 0 <= j < k :: !older(required, versions[j])
    {
      if older(required, versions[k]) {
        return true;
      }
    }
    found := false;
  }

  method SortRequirements(input: Input) returns (toInstall: set<string>, toUpgrade: set<string>)
    ensures toInstall == Missing(input) && toUpgrade == TooOld(input)
  {
    toInstall, toUpgrade := {}, {};
    var todo := input.requirements.Keys;
    while todo != {}
      invariant todo <= input.requirements.Keys
      invariant forall pkg :: pkg in toInstall <==> pkg in Missing(input) && pkg !in todo
      invariant forall pkg :: pkg in toUpgrade <==> pkg in TooOld(input) && pkg !in todo
      decreases |todo|
    {
      var pkg :| pkg in todo;
      if pkg !in input.before {
        toInstall := toInstall + {pkg};
      } else {
        var found := HasNewer(input.requirements[pkg], input.before[pkg], input.older);
        if !found {
          toUpgrade := toUpgrade + {pkg};
        }
      }
      todo := todo - {pkg};
    }
  }

  /** A realtime command: its output went straight to the console and none was captured. */
  method RunCommand(code: int, console: Console) returns (result: Result)
    modifies console
    ensures fresh(result) && result.code == code && result.out == result.err == "" && result.posted
    ensures console.out == old(console.out) && console.err == old(console.err)
  {
    result := new Result(code, "", "", false, console);
    result.posted := true;
  }

  /** `install_requirements`: one command for what is missing, one for what is too old. */
  method InstallRequirements(input: Input, console: Console) returns (result: Result)
    modifies console
    ensures fresh(result) && result.realtime && result.posted
    ensures result.code > OK <==> InstallFails(input)
    ensures result.code >= OK && result.out == "" && result.err == ""
    ensures console.out == old(console.out) && console.err == old(console.err)
  {
    result := new Result(OK, "", "", true, console);
    var toInstall, toUpgrade := SortRequirements(input);
    if toInstall != {} {
      var command := RunCommand(input.installCode, console);
      result.Add(command, console);
    }
    if toUpgrade != {} {
      var command := RunCommand(input.upgradeCode, console);
      result.Add(command, console);
    }
  }

  // ---------------------------------------------------------------- the stages

  /** What each stage contributes on its own: its documented code if it fails, otherwise 0. */
  function Failures(input: Input): seq<int> {
    [if input.requirements != map[] && InstallFails(input) then ERR_VM_PRE else OK,
     if input.refresh && input.refreshed.code != OK then ERR_VM_REFRESH else OK,
     if input.upgraded.code !in {OK, OK_NO_UPDATES} then ERR_VM_UPDATE else OK]
  }

  function FirstFailure(codes: seq<int>): int {
    if codes == [] then OK
    else if codes[0] != OK then codes[0]
    else FirstFailure(codes[1..])
  }

  function WorstFailure(codes: seq<int>): int {
    if codes == [] then OK else Max(codes[0], WorstFailure(codes[1..]))
  }

  predicate NothingNew(input: Input) {
    Compare(input.before, input.after).installed == map[] && Compare(input.before, input.after).updated == map[]
  }

  /** The upgrade had nothing to do: the backend says so, or the packages show it. */
  predicate NoUpdates(input: Input) {
    input.upgraded.code == OK_NO_UPDATES || (input.agent != UPDATE_VM && NothingNew(input))
  }

  /** How far the pipeline gets: 1 after the requirements, 2 after the refresh, 3 after the upgrade, 4 with summary. */
  function Reached(input: Input): nat {
    if input.hardFail && Failures(input)[0] != OK then 1
    else if input.hardFail && Failures(input)[1] != OK then 2
    else if WorstFailure(Failures(input)) != OK || input.upgraded.code != OK || input.agent == UPDATE_VM then 3
    else 4
  }

  /** What is shown: the text of every stage reached, once, unless it has been shown before. */
  function Shown(input: Input, refreshText: string, upgradeText: string, summaryText: string): seq<string> {
    (if Reached(input) >= 2 && input.refresh && !input.refreshed.posted then Chunk(refreshText) else [])
    + (if Reached(input) >= 3 && !input.upgraded.posted then Chunk(upgradeText) else [])
    + (if Reached(input) >= 4 then Chunk(summaryText) else [])
  }

  function StageCode(input: Input): int {
    var failure := if input.hardFail then FirstFailure(Failures(input)) else WorstFailure(Failures(input));
    if input.hardFail && failure != OK then failure
    else if input.upgraded.code == OK_NO_UPDATES then OK_NO_UPDATES
    else if failure != OK then failure
    else if NoUpdates(input) then OK_NO_UPDATES
    else OK
  }

  lemma OfThree(a: int, b: int, c: int)
    ensures FirstFailure([a, b, c]) == if a != OK then a else if b != OK then b else c
    ensures WorstFailure([a, b, c]) == Max(a, Max(b, Max(c, OK)))
  {
    assert [a, b, c][1..] == [b, c] && [b, c][1..] == [c] && [c][1..] == [];
    assert FirstFailure([c]) == c && WorstFailure([c]) == Max(c, OK);
    assert FirstFailure([b, c]) == if b != OK then b else c;
  }

  /** The result of a stage, with any code the stage's failure is reported as. */
  method TakeStage(stage: Stage, fails: bool, failure: int, result: Result, console: Console)
    requires result.realtime
    modifies result`code, result`out, result`err, console
    ensures result.code == Max(old(result.code), if fails then failure else stage.code)
    ensures console.out == old(console.out) + if stage.posted then [] else Chunk(stage.out)
    ensures console.err == old(console.err) + if stage.posted then [] else Chunk(stage.err)
  {
    var part := new Result(stage.code, stage.out, stage.err, false, console);
    part.posted := stage.posted;
    if fails {
      part.code := failure;
    }
    result.Add(part, console);
  }

  /** The first half of `_upgrade`: requirements and refresh. With `hard_fail` a failure stops it. */
  method Prepare(input: Input, console: Console) returns (result: Result, stop: bool)
    modifies console
    ensures fresh(result) && result.realtime && result.posted
    ensures stop <==> Reached(input) <= 2
    ensures result.code == if Reached(input) == 1 then Failures(input)[0] else Max(Failures(input)[0], Failures(input)[1])
    ensures console.out == old(console.out) + if Reached(input) >= 2 && input.refresh && !input.refreshed.posted
                                              then Chunk(input.refreshed.out) else []
    ensures console.err == old(console.err) + if Reached(input) >= 2 && input.refresh && !input.refreshed.posted
                                              then Chunk(input.refreshed.err) else []
  {
    result := new Result(OK, "", "", true, console);
    stop := false;
    if input.requirements != map[] {
      var installed := InstallRequirements(input, console);
      if installed.code != OK {
        installed.code := ERR_VM_PRE;
      }
      result.Add(installed, console);
      if result.code != OK && input.hardFail {
        stop := true;
        return;
      }
    }
    if input.refresh {
      TakeStage(input.refreshed, input.refreshed.code != OK, ERR_VM_REFRESH, result, console);
      if result.code != OK && input.hardFail {
        stop := true;
        return;
      }
    }
  }

  /** The second half of `_upgrade`: the upgrade itself and, if all went well, the summary. */
  method Conclude(input: Input, result: Result, console: Console)
    requires result.realtime && result.code in {OK, ERR_VM_PRE, ERR_VM_REFRESH}
    modifies result`code, result`out, result`err, console
    ensures result.code == if input.upgraded.code == OK_NO_UPDATES then OK_NO_UPDATES
                           else if input.upgraded.code != OK then ERR_VM_UPDATE
                           else if old(result.code) != OK then old(result.code)
                           else if NoUpdates(input) then OK_NO_UPDATES
                           else OK
    ensures var more := old(result.code) == OK && input.upgraded.code == OK && input.agent != UPDATE_VM;
            && console.out == old(console.out) + (if input.upgraded.posted then [] else Chunk(input.upgraded.out))
                              + (if more then Chunk(input.summary) else [])
            && console.err == old(console.err) + (if input.upgraded.posted then [] else Chunk(input.upgraded.err))
  {
    TakeStage(input.upgraded, input.upgraded.code !in {OK, OK_NO_UPDATES}, ERR_VM_UPDATE, result, console);
    if result.code != OK {
      return;
    }
    if input.agent == UPDATE_VM {
      return;
    }
    var changes := Compare(input.before, input.after);
    TakeStage(Stage(OK, input.summary, "", false), false, ERR_VM, result, console);
    if changes.installed == map[] && changes.updated == map[] {
      result.code := OK_NO_UPDATES;
    }
  }

  /** `_upgrade` */
  method Upgrade(input: Input, console: Console) returns (result: Result)
    modifies console
    ensures fresh(result) && result.realtime && result.posted
    ensures result.code == StageCode(input)
    ensures console.out == old(console.out) + Shown(input, input.refreshed.out, input.upgraded.out, input.summary)
    ensures console.err == old(console.err) + Shown(input, input.refreshed.err, input.upgraded.err, "")
  {
    OfThree(Failures(input)[0], Failures(input)[1], Failures(input)[2]);
    var stop;
    result, stop := Prepare(input, console);
    if !stop {
      Conclude(input, result, console);
    }
  }

  // ---------------------------------------------------------------- what the code means

  /** With `hard_fail` the code is that of the first stage that failed, and 100 only if none did. */
  lemma HardFailCode(input: Input)
    requires input.hardFail
    ensures StageCode(input) in {OK, OK_NO_UPDATES} <==> FirstFailure(Failures(input)) == OK
    ensures FirstFailure(Failures(input)) != OK ==> StageCode(input) == FirstFailure(Failures(input))
    ensures StageCode(input) == OK_NO_UPDATES <==> FirstFailure(Failures(input)) == OK && NoUpdates(input)
  {
    OfThree(Failures(input)[0], Failures(input)[1], Failures(input)[2]);
  }

  /** Under `--force-upgrade` an earlier failure is reported as 100 exactly when the backend reports 100. */
  lemma ForcedFailureMasked(input: Input)
    requires !input.hardFail && WorstFailure(Failures(input)) != OK
    ensures StageCode(input) == OK_NO_UPDATES <==> input.upgraded.code == OK_NO_UPDATES
    ensures input.upgraded.code != OK_NO_UPDATES ==> StageCode(input) in {ERR_VM_PRE, ERR_VM_REFRESH, ERR_VM_UPDATE}
  {
    OfThree(Failures(input)[0], Failures(input)[1], Failures(input)[2]);
  }

  /** For instance with a failed refresh, which hides behind a backend that has nothing to do. */
  lemma FailedRefreshMasked(input: Input)
    requires !input.hardFail && input.refresh && input.requirements == map[]
    requires input.refreshed.code == ERR_VM_REFRESH && input.upgraded.code == OK_NO_UPDATES
    ensures WorstFailure(Failures(input)) == ERR_VM_REFRESH && StageCode(input) == OK_NO_UPDATES
  {
    OfThree(Failures(input)[0], Failures(input)[1], Failures(input)[2]);
    ForcedFailureMasked(input);
  }

  lemma StageCodes(input: Input)
    ensures StageCode(input) in {OK, OK_NO_UPDATES, ERR_VM_PRE, ERR_VM_REFRESH, ERR_VM_UPDATE}
  {
    OfThree(Failures(input)[0], Failures(input)[1], Failures(input)[2]);
  }

  // ---------------------------------------------------------------- the entrypoint

  /**
   `main` of the agent. `cleaned` is the code of the clean-up command. The printing of captured streams
   at the end of `upgrade` never happens, because the result is posted by then.
   */
  method Entrypoint(input: Input, printStreams: bool, cleanup: bool, cleaned: int, console: Console) returns (code: int)
    modifies console
    ensures code in VM_HANDLED
    ensures code == if cleanup && cleaned != OK && StageCode(input) != OK_NO_UPDATES then ERR_VM_CLEANUP else StageCode(input)
    ensures console.out == old(console.out) + Shown(input, input.refreshed.out, input.upgraded.out, input.summary)
    ensures console.err == old(console.err) + Shown(input, input.refreshed.err, input.upgraded.err, "")
  {
    StageCodes(input);
    var result := Upgrade(input, console);
    if printStreams && !result.posted {
      assert false;
    }
    code := result.code;
    if cleanup {
      var cleanCode := if cleaned != OK then ERR_VM_CLEANUP else OK;
      code := Max(cleanCode, code);
    }
    if code !in VM_HANDLED {
      code := ERR_VM_UNHANDLED;
    }
  }

  /** Nothing goes wrong around the agent. */
  ghost predicate Smooth(q: Worker.Qube) {
    && !q.admin && !q.setupRaises && !q.archiveRaises && !q.exitRaises && q.copy == Worker.CopyOk
    && q.mkdir == q.untar == q.logs == Worker.Exit(OK)
  }

  lemma SmoothTrace(q: Worker.Qube, code: int)
    requires code in VM_HANDLED && q.entry == Worker.Exit(code) && Smooth(q)
    ensures !Worker.DoubleDone(q, false, false)
    ensures var status := if code == OK then SUCCESS else if code == OK_NO_UPDATES then NO_UPDATES else ERROR;
            Worker.Trace(q, false, false)
            == Worker.Outcome(Worker.Reported(q) + [Worker.Message(Worker.ConnectionName(q), Worker.Done(status))],
                              if code == OK_NO_UPDATES then OK else code, true)
  {
    assert Worker.TransferCode(q) == OK && Worker.TransferStatus(q) == ERROR;
  }

  /**
   From the agent to dom0: if nothing else goes wrong around it, the agent's code decides the qube's
   status, and every documented error code arrives unchanged in the batch's result.
   */
  lemma AgentCodeArrives(q: Worker.Qube, code: int)
    requires code in VM_HANDLED && q.entry == Worker.Exit(code) && Smooth(q) && Worker.QuietReaders(q)
    ensures var out := Worker.Trace(q, false, false);
            && Worker.DoneCount(out.messages) == 1
            && BatchRun.VerdictOf(out).status == (if code == OK then SUCCESS else if code == OK_NO_UPDATES then NO_UPDATES else ERROR)
            && Protocol.MapVmCode(out.code) == if code == OK_NO_UPDATES then OK else code
  {
    hide Worker.Trace, Worker.DoneCount, Worker.Reported, Feeder.LastStatus, Worker.DoubleDone;
    SmoothTrace(q, code);
    Worker.DoneAccounting(q, false, false);
    var messages := Worker.Trace(q, false, false).messages;
    Feeder.LastAppend(Worker.Reported(q), messages[|messages| - 1]);
  }

  // ---------------------------------------------------------------- told from the inputs

  predicate NeedsInstall(input: Input) {
    exists pkg :: pkg in input.requirements && pkg !in input.before
  }

  predicate NeedsUpgrade(input: Input) {
    exists pkg :: pkg in input.requirements && pkg in input.before
                  && forall k | 0 <= k < |input.before[pkg]| :: !input.older(input.requirements[pkg], input.before[pkg][k])
  }

  /** A command needed for the requirements fails. */
  predicate PreFails(input: Input) {
    (NeedsInstall(input) && input.installCode > 0) || (NeedsUpgrade(input) && input.upgradeCode > 0)
  }

  predicate RefreshFails(input: Input) {
    input.refresh && input.refreshed.code != 0
  }

  /** Every package there is afterwards was there before, in the same versions. */
  predicate Same(input: Input) {
    forall pkg | pkg in input.after :: pkg in input.before && input.before[pkg] == input.after[pkg]
  }

  lemma PreMeans(input: Input)
    ensures PreFails(input) <==> input.requirements != map[] && InstallFails(input)
  {
    if pkg :| pkg in input.requirements && pkg !in input.before {
      assert pkg in Missing(input);
    }
    if pkg :| pkg in TooOld(input) {
      assert NeedsUpgrade(input);
    }
    if NeedsUpgrade(input) {
      var pkg :| pkg in input.requirements && pkg in input.before
                 && forall k | 0 <= k < |input.before[pkg]| :: !input.older(input.requirements[pkg], input.before[pkg][k]);
      assert pkg in TooOld(input);
    }
    if pkg :| pkg in Missing(input) {
      assert NeedsInstall(input);
    }
  }

  /** The code of the upgrade, whatever the stages return. */
  lemma WhichCode(input: Input)
    ensures StageCode(input)
            == if input.hardFail && PreFails(input) then 22
               else if input.hardFail && RefreshFails(input) then 23
               else if input.upgraded.code == 100 then 100
               else if input.upgraded.code != 0 then 24
               else if RefreshFails(input) then 23
               else if PreFails(input) then 22
               else if input.agent != UPDATE_VM && Same(input) then 100
               else 0
  {
    hide InstallFails, PreFails;
    PreMeans(input);
    OfThree(Failures(input)[0], Failures(input)[1], Failures(input)[2]);
    NothingNewIff(input.before, input.after);
  }

  /** What is shown: a stage's text if it is not empty, was not shown before, and no earlier failure stopped the upgrade. */
  lemma ShownMeans(input: Input, refreshText: string, upgradeText: string, summaryText: string)
    ensures var stopped := input.hardFail && PreFails(input);
            var stoppedLater := input.hardFail && (PreFails(input) || RefreshFails(input));
            Shown(input, refreshText, upgradeText, summaryText)
            == (if input.refresh && !stopped && !input.refreshed.posted && refreshText != "" then [refreshText] else [])
               + (if !stoppedLater && !input.upgraded.posted && upgradeText != "" then [upgradeText] else [])
               + (if !PreFails(input) && !RefreshFails(input) && input.upgraded.code == 0 && input.agent != UPDATE_VM
                     && summaryText != "" then [summaryText] else [])
  {
    hide InstallFails, PreFails;
    PreMeans(input);
    OfThree(Failures(input)[0], Failures(input)[1], Failures(input)[2]);
  }
}
