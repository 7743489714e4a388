/**
 `main`: three batches one after the other, then the apply phase, folded into one exit code. What a batch
 returns is what some execution of it ends with.
 */
module WholeRun {
  import opened ExitCodes
  import opened Worker
  import opened Feeder
  import opened Protocol
  import opened BatchRun
  import opened Cancellation
  import opened MissingStatus
  import opened FineRuns
  import opened Executions
  import opened ApplyPhase

  datatype Args = Args(
    options: Options,       // of the apply phase, and --dry-run
    signalNoUpdates: bool,
    dummy: bool             // --quiet or --no-progress: no bars, hence no statuses
  )

  /** What a batch hands to `main`. */
  datatype Result = Result(code: int, statuses: Statuses)

  /** `run_update` */
  ghost function Updated(args: Args, x: Execution): Result
    requires IsExecution(x, !args.dummy)
  {
    if args.options.dryRun then Result(OK, map i | 0 <= i < |x.qubes| :: x.qubes[i].name := SUCCESS)
    else if x.qubes == [] then Result(OK, map[])
    else Result(RunCode(EndOf(x)), EndOf(x).feed.statuses)
  }

  /** The admin VM is not even pretended to be updated in a dry run. */
  ghost function AdminUpdated(args: Args, x: Execution): Result
    requires IsExecution(x, !args.dummy)
  {
    if args.options.dryRun then Result(OK, map[]) else Updated(args, x)
  }

  datatype Ending = Exited(code: int) | Crashed

  predicate AllNoUpdates(statuses: Statuses) {
    forall name | name in statuses :: statuses[name] == NO_UPDATES
  }

  /** How many of the three batches are begun, given the codes of the first two. */
  function Begun(admin: int, independent: int): nat {
    if admin == SIGINT then 1 else if independent == SIGINT then 2 else 3
  }

  /** How a run with targets ends. */
  ghost function RunEnding(args: Args, admin: Result, independent: Result, derived: Result, applied: Option<int>): Ending {
    if SIGINT in {admin.code, independent.code, derived.code} then Exited(SIGINT)
    else if applied.None? then Crashed
    else
      var worst := Max(Max(admin.code, independent.code), Max(derived.code, applied.value));
      if worst == OK && args.signalNoUpdates
         && AllNoUpdates(admin.statuses) && AllNoUpdates(independent.statuses) && AllNoUpdates(derived.statuses)
      then Exited(OK_NO_UPDATES)
      else Exited(worst)
  }

  const BATCH_CODES: set<int> := {0, 21, 22, 23, 24, 25, 26, 130}
  const APPLY_CODES: set<int> := {0, 11, 12, 13}

  /** The three batches as they were run; what comes after a 130 is not looked at. */
  datatype Batches = Batches(admin: Execution, independent: Execution, derived: Execution)

  ghost predicate AreExecutions(b: Batches, bars: bool) {
    IsExecution(b.admin, bars) && IsExecution(b.independent, bars) && IsExecution(b.derived, bars)
  }

  /** What the apply phase finds: the admin API, the independent targets, and who is running by then. */
  datatype Setting = Setting(world: World, independent: set<Vm>, running: set<Vm>)

  ghost function AppliedTo(args: Args, b: Batches, w: Setting): Option<int>
    requires AreExecutions(b, !args.dummy)
  {
    ApplyCode(w.world, args.options, w.independent, Updated(args, b.independent).statuses,
              Updated(args, b.derived).statuses, w.running)
  }

  /** How `main` ends on these executions in this setting. */
  ghost function WholeEnd(args: Args, b: Batches, w: Setting): Ending
    requires AreExecutions(b, !args.dummy)
  {
    RunEnding(args, AdminUpdated(args, b.admin), Updated(args, b.independent), Updated(args, b.derived), AppliedTo(args, b, w))
  }

  /** A batch never yields 100, 1, 40 or any undocumented code. */
  lemma BatchCodeRange(args: Args, x: Execution)
    requires IsExecution(x, !args.dummy)
    ensures Updated(args, x).code in BATCH_CODES && AdminUpdated(args, x).code in BATCH_CODES
    ensures Updated(args, x).code == SIGINT <==> !args.options.dryRun && x.qubes != [] && EndOf(x).terminated
    ensures AdminUpdated(args, x).code == Updated(args, x).code
  {
    hide IsExecution, EndOf, RunCode;
    ExecutionCode(x, !args.dummy);
  }

  lemma ApplyCodeRange(w: World, options: Options, targets: set<Vm>, templates: Statuses, derived: Statuses, before: set<Vm>)
    ensures var code := ApplyCode(w, options, targets, templates, derived, before);
            code.Some? ==> code.value in APPLY_CODES
  {
    hide Affected, ApplyPhase.Ready, UpdatedTemplates, Services, Restarted;
  }

  /**
   A run that was not interrupted raises with the apply phase, and otherwise exits with the largest of all
   codes, of which each is one; only a run without any failure may exit with 100 instead of 0.
   */
  predicate IsWorstCode(ending: Ending, batches: set<int>, applied: Option<int>) {
    match applied
    case None => ending == Crashed
    case Some(last) =>
      && ending.Exited?
      && if batches + {last} == {0} then ending.code in {0, 100}
         else ending.code in batches + {last} && forall code | code in batches + {last} :: code <= ending.code
  }

  /**
   `targets` is absent after an argument error. The batches' results are those of `b`. A 130 ends the run
   before the next batch is begun and before anything is applied, and the rewriting of 100 to 0 at the end
   never has anything to rewrite.
   */
  method VmUpdate(args: Args, targets: Option<nat>, ghost b: Batches, admin: Result, independent: Result, derived: Result,
                  vms: set<Vm>, api: Admin)
    returns (ending: Ending, begun: nat)
    requires AreExecutions(b, !args.dummy) && admin == AdminUpdated(args, b.admin)
    requires independent == Updated(args, b.independent) && derived == Updated(args, b.derived)
    requires ValidWorld(api.world) && api.asked == {} && api.started == {}
    modifies api
    ensures targets.None? ==> ending == Exited(ERR_USAGE) && begun == 0
    ensures targets == Some(0) ==> ending == Exited(if args.signalNoUpdates then OK_NO_UPDATES else OK) && begun == 0
    ensures targets.Some? && targets.value > 0 ==>
              && ending == WholeEnd(args, b, Setting(api.world, vms, old(api.running)))
              && begun == Begun(admin.code, independent.code)
    ensures targets in {None, Some(0)} || SIGINT in {admin.code, independent.code, derived.code} ==>
              api.running == old(api.running) && api.asked == {} && api.started == {}
    ensures targets.Some? && targets.value > 0 ==>
              && (admin.code == 130 ==> ending == Exited(130) && begun == 1)
              && (admin.code != 130 && independent.code == 130 ==> ending == Exited(130) && begun == 2)
              && (admin.code != 130 && independent.code != 130 ==> begun == 3)
              && (admin.code != 130 && independent.code != 130 && derived.code == 130 ==> ending == Exited(130))
    ensures targets.Some? && targets.value > 0 && 130 !in {admin.code, independent.code, derived.code} ==>
              IsWorstCode(ending, {admin.code, independent.code, derived.code},
                          ApplyCode(api.world, args.options, vms, independent.statuses, derived.statuses, old(api.running)))
  {
    hide ApplyCode, Updated, AdminUpdated, ValidWorld, IsExecution;
    BatchCodeRange(args, b.admin);
    BatchCodeRange(args, b.independent);
    BatchCodeRange(args, b.derived);
    if targets.None? {
      return Exited(ERR_USAGE), 0;
    }
    if targets.value == 0 {
      return Exited(if args.signalNoUpdates then OK_NO_UPDATES else OK), 0;
    }
    begun := 1;
    var noUpdates := AllNoUpdates(admin.statuses);
    if admin.code == SIGINT {
      return Exited(SIGINT), begun;
    }
    begun := 2;
    noUpdates := AllNoUpdates(independent.statuses) && noUpdates;
    if independent.code == SIGINT {
      return Exited(SIGINT), begun;
    }
    begun := 3;
    noUpdates := AllNoUpdates(derived.statuses) && noUpdates;
    if derived.code == SIGINT {
      return Exited(SIGINT), begun;
    }
    ApplyCodeRange(api.world, args.options, vms, independent.statuses, derived.statuses, api.running);
    var applied := api.ApplyUpdates(args.options, vms, independent.statuses, derived.statuses);
    if applied.None? {
      return Crashed, begun;
    }
    var code := Max(Max(admin.code, independent.code), Max(derived.code, applied.value));
    if code == OK && noUpdates && args.signalNoUpdates {
      return Exited(OK_NO_UPDATES), begun;
    }
    if code == OK_NO_UPDATES && !args.signalNoUpdates {
      return Exited(OK), begun;
    }
    ending := Exited(code);
  }

  // ---------------------------------------------------------------- exit codes

  /** Every exit code of a run is a documented one. */
  lemma DocumentedCodes(args: Args, b: Batches, w: Setting)
    requires AreExecutions(b, !args.dummy) && WholeEnd(args, b, w).Exited?
    ensures WholeEnd(args, b, w).code in BATCH_CODES + APPLY_CODES + {OK_NO_UPDATES}
  {
    hide ApplyCode, Updated, AdminUpdated, IsExecution;
    BatchCodeRange(args, b.admin);
    BatchCodeRange(args, b.independent);
    BatchCodeRange(args, b.derived);
    ApplyCodeRange(w.world, args.options, w.independent, Updated(args, b.independent).statuses,
                   Updated(args, b.derived).statuses, w.running);
  }

  /** All that a run was to do went well. */
  lemma GoodParts(args: Args, b: Batches, w: Setting)
    requires AreExecutions(b, !args.dummy)
    ensures WholeEnd(args, b, w) in {Exited(OK), Exited(OK_NO_UPDATES)}
            <==> && AdminUpdated(args, b.admin).code == Updated(args, b.independent).code == Updated(args, b.derived).code == OK
                 && AppliedTo(args, b, w) == Some(OK)
  {
    hide ApplyCode, Updated, AdminUpdated, IsExecution, AllNoUpdates;
    BatchCodeRange(args, b.admin);
    BatchCodeRange(args, b.independent);
    BatchCodeRange(args, b.derived);
    ApplyCodeRange(w.world, args.options, w.independent, Updated(args, b.independent).statuses,
                   Updated(args, b.derived).statuses, w.running);
  }

  /** Exactly when a run with targets reports "no updates". */
  lemma HundredIff(args: Args, b: Batches, w: Setting)
    requires AreExecutions(b, !args.dummy)
    ensures WholeEnd(args, b, w) == Exited(OK_NO_UPDATES)
            <==> && args.signalNoUpdates && AppliedTo(args, b, w) == Some(OK)
                 && (forall r | r in {AdminUpdated(args, b.admin), Updated(args, b.independent), Updated(args, b.derived)} ::
                       r.code == OK && AllNoUpdates(r.statuses))
  {
    hide ApplyCode, Updated, AdminUpdated, IsExecution, AllNoUpdates;
    BatchCodeRange(args, b.admin);
    BatchCodeRange(args, b.independent);
    BatchCodeRange(args, b.derived);
    ApplyCodeRange(w.world, args.options, w.independent, Updated(args, b.independent).statuses,
                   Updated(args, b.derived).statuses, w.running);
  }

  predicate Applies(args: Args) {
    args.options.applyToSys || args.options.applyToAll
  }

  ghost predicate StatusLess(args: Args, x: Execution, vms: set<Vm>)
    requires IsExecution(x, !args.dummy)
  {
    exists vm :: vm in vms && vm.name !in Updated(args, x).statuses
  }

  ghost predicate Interrupted(args: Args, b: Batches)
    requires AreExecutions(b, !args.dummy)
  {
    SIGINT in {AdminUpdated(args, b.admin).code, Updated(args, b.independent).code, Updated(args, b.derived).code}
  }

  /** A run raises exactly if it gets to the apply phase, has to apply updates, and some target has no status. */
  lemma CrashIff(args: Args, b: Batches, w: Setting)
    requires AreExecutions(b, !args.dummy)
    ensures WholeEnd(args, b, w) == Crashed
            <==> !Interrupted(args, b) && Applies(args) && StatusLess(args, b.independent, w.independent)
  {
    hide ApplyEffect, Updated, AdminUpdated, IsExecution;
  }

  // ---------------------------------------------------------------- good runs

  /** Every shutdown and every start that the apply phase asks for succeeds. */
  ghost predicate RequestsSucceed(args: Args, b: Batches, w: Setting)
    requires AreExecutions(b, !args.dummy)
  {
    var e := ApplyEffect(w.world, args.options, UpdatedTemplates(w.independent, Updated(args, b.independent).statuses),
                         Updated(args, b.derived).statuses, w.running);
    && e.asked !! w.world.shutdownFails
    && forall vm | vm in e.asked && vm.servicevm && vm.klass != TemplateVM :: vm !in w.world.startFails
  }

  lemma AppliedWellIff(args: Args, b: Batches, w: Setting)
    requires AreExecutions(b, !args.dummy) && ValidWorld(w.world) && !args.options.dryRun
    ensures AppliedTo(args, b, w) == Some(OK)
            <==> (Applies(args) ==> !StatusLess(args, b.independent, w.independent) && RequestsSucceed(args, b, w))
  {
    hide ApplyEffect, Updated, ValidWorld, IsExecution, UpdatedTemplates;
    var templates, derived := Updated(args, b.independent).statuses, Updated(args, b.derived).statuses;
    var e := ApplyEffect(w.world, args.options, UpdatedTemplates(w.independent, templates), derived, w.running);
    ApplySafety(w.world, args.options, w.independent, templates, derived, w.running, e);
  }

  lemma WellIff(args: Args, x: Execution)
    requires IsExecution(x, !args.dummy) && !args.options.dryRun
    ensures Updated(args, x).code == OK <==> WentWell(x)
  {
    hide IsExecution, RunCode, AllWell;
    ExecutionCode(x, !args.dummy);
  }

  /**
   A run exits with 0 or 100 exactly if in all three batches every qube went well without SIGINT and, if
   updates are to be applied, every target's status was found and everything asked for succeeded. This holds
   with bars and without, and also if qubes put two DONEs.
   */
  lemma GoodExitIff(args: Args, b: Batches, w: Setting)
    requires AreExecutions(b, !args.dummy) && ValidWorld(w.world) && !args.options.dryRun
    ensures WholeEnd(args, b, w) in {Exited(OK), Exited(OK_NO_UPDATES)}
            <==> && WentWell(b.admin) && WentWell(b.independent) && WentWell(b.derived)
                 && (Applies(args) ==> !StatusLess(args, b.independent, w.independent) && RequestsSucceed(args, b, w))
  {
    hide IsExecution, WentWell, WholeEnd, RequestsSucceed, StatusLess, AppliedTo, ValidWorld;
    GoodParts(args, b, w);
    AppliedWellIff(args, b, w);
    WellIff(args, b.admin);
    WellIff(args, b.independent);
    WellIff(args, b.derived);
    AdminLikeOthers(args, b.admin);
  }

  lemma AdminLikeOthers(args: Args, x: Execution)
    requires IsExecution(x, !args.dummy) && !args.options.dryRun
    ensures AdminUpdated(args, x) == Updated(args, x)
  {}

  /** With bars, 100 says that no qube of any batch had updates. */
  lemma HundredIsTrue(args: Args, x: Execution, i: nat)
    requires !args.dummy && !args.options.dryRun && IsExecution(x, true) && i < |x.qubes|
    requires Updated(args, x).code == OK && AllNoUpdates(Updated(args, x).statuses)
    ensures |EndOf(x).pcs| == |x.qubes| && HasOutcome(EndOf(x).pcs[i])
    ensures LastStatus(EndOf(x).pcs[i].out.messages) == Some(NO_UPDATES)
  {
    hide IsExecution, RunCode, AllWell, LastStatus, DoubleDone;
    WellIff(args, x);
    forall k | 0 <= k < |x.qubes| ensures !DoubleDone(x.qubes[k], false, false) {
      FullCode(x.qubes[k]);
    }
    StatusesAreComplete(x);
  }

  // ---------------------------------------------------------------- runs that raise

  /** The targets of the second batch are these qubes; names of qubes are unique. */
  ghost predicate Matches(qubes: seq<Qube>, vms: set<Vm>) {
    && (forall i, j | 0 <= i < j < |qubes| :: qubes[i].name != qubes[j].name)
    && (forall vm | vm in vms :: exists i :: 0 <= i < |qubes| && qubes[i].name == vm.name)
    && (forall i | 0 <= i < |qubes| :: exists vm :: vm in vms && vm.name == qubes[i].name)
  }

  /** Every qube's own name is the name of some bar, which `--display-name` may prevent. */
  ghost predicate NamesAreBars(qubes: seq<Qube>) {
    forall i | 0 <= i < |qubes| :: exists k :: 0 <= k < |qubes| && BarName(qubes[k]) == qubes[i].name
  }

  lemma {:induction false} CountElements(s: seq<string>)
    requires forall i, j | 0 <= i < j < |s| :: s[i] != s[j]
    ensures |set x | x in s| == |s|
  {
    if s != [] {
      var n := |s| - 1;
      CountElements(s[..n]);
      assert s == s[..n] + [s[n]];
      assert (set x | x in s) == (set x | x in s[..n]) + {s[n]};
    }
  }

  /** If distinct names all occur among equally many distinct names, then also the other way round. */
  lemma SameNames(a: seq<string>, b: seq<string>, k: nat)
    requires |a| == |b| && k < |b| && forall x | x in a :: x in b
    requires forall i, j | 0 <= i < j < |a| :: a[i] != a[j]
    requires forall i, j | 0 <= i < j < |b| :: b[i] != b[j]
    ensures b[k] in a
  {
    CountElements(a);
    CountElements(b);
    var these, those := set x | x in a, set x | x in b;
    SameSize(these, those);
    assert b[k] in those;
    assert b[k] in these;
  }

  ghost function OwnNames(qubes: seq<Qube>): seq<string> {
    seq(|qubes|, i requires 0 <= i < |qubes| => qubes[i].name)
  }

  ghost function BarNames(qubes: seq<Qube>): seq<string> {
    seq(|qubes|, i requires 0 <= i < |qubes| => BarName(qubes[i]))
  }

  lemma NamesAmongBars(qubes: seq<Qube>, x: string)
    requires NamesAreBars(qubes) && x in OwnNames(qubes)
    ensures x in BarNames(qubes)
  {
    hide BarName, NamesAreBars;
    var j :| 0 <= j < |qubes| && OwnNames(qubes)[j] == x;
    var m := BarOf(qubes, j);
    assert BarNames(qubes)[m] == x;
  }

  /** Then every bar carries the name of some qube. */
  lemma BarsAreNames(qubes: seq<Qube>, vms: set<Vm>, k: nat) returns (i: nat)
    requires ValidQubes(qubes) && Matches(qubes, vms) && NamesAreBars(qubes) && k < |qubes|
    ensures i < |qubes| && qubes[i].name == BarName(qubes[k])
  {
    hide BarName, ConsistentName, QuietReaders, NamesAreBars;
    forall x | x in OwnNames(qubes) ensures x in BarNames(qubes) {
      NamesAmongBars(qubes, x);
    }
    SameNames(OwnNames(qubes), BarNames(qubes), k);
    assert BarNames(qubes)[k] == BarName(qubes[k]);
    i :| i < |qubes| && OwnNames(qubes)[i] == BarNames(qubes)[k];
  }

  /** Exactly which batches can end without a status for one of their targets. */
  ghost predicate MayLackStatus(qubes: seq<Qube>, bars: bool) {
    && qubes != []
    && (|| !bars
        || !NamesAreBars(qubes)
        || (|qubes| >= 2 && exists i :: 0 <= i < |qubes| && DoubleDone(qubes[i], false, false)))
  }

  lemma TargetOf(qubes: seq<Qube>, vms: set<Vm>, vm: Vm) returns (i: nat)
    requires Matches(qubes, vms) && vm in vms
    ensures i < |qubes| && qubes[i].name == vm.name
  {
    i :| i < |qubes| && qubes[i].name == vm.name;
  }

  lemma VmOf(qubes: seq<Qube>, vms: set<Vm>, i: nat) returns (vm: Vm)
    requires Matches(qubes, vms) && i < |qubes|
    ensures vm in vms && vm.name == qubes[i].name
  {
    var name := qubes[i].name;
    vm :| vm in vms && vm.name == name;
  }

  lemma BarOf(qubes: seq<Qube>, i: nat) returns (k: nat)
    requires NamesAreBars(qubes) && i < |qubes|
    ensures k < |qubes| && BarName(qubes[k]) == qubes[i].name
  {
    hide BarName;
    k :| k < |qubes| && BarName(qubes[k]) == qubes[i].name;
  }

  lemma LackingMeans(args: Args, x: Execution, vms: set<Vm>)
    requires IsExecution(x, !args.dummy) && Matches(x.qubes, vms) && StatusLess(args, x, vms)
    ensures !args.options.dryRun && MayLackStatus(x.qubes, !args.dummy)
  {
    hide IsExecution, RunCode, DoubleDone, Matches, NamesAreBars, BarName, EndOf;
    var vm :| vm in vms && vm.name !in Updated(args, x).statuses;
    var i := TargetOf(x.qubes, vms, vm);
    if !args.dummy && NamesAreBars(x.qubes) {
      var k := BarOf(x.qubes, i);
      MissingMeans(x, k);
    }
  }

  lemma UnknownBar(qubes: seq<Qube>) returns (i: nat)
    requires !NamesAreBars(qubes)
    ensures i < |qubes| && forall k | 0 <= k < |qubes| :: BarName(qubes[k]) != qubes[i].name
  {
    hide BarName;
    i :| i < |qubes| && forall k | 0 <= k < |qubes| :: BarName(qubes[k]) != qubes[i].name;
  }

  /** And for each of them an execution without SIGINT that does. */
  lemma SomeLacks(args: Args, qubes: seq<Qube>, slots: nat, vms: set<Vm>) returns (x: Execution)
    requires ValidQubes(qubes) && slots >= 1 && Matches(qubes, vms)
    requires !args.options.dryRun && MayLackStatus(qubes, !args.dummy)
    ensures IsExecution(x, !args.dummy) && !EndOf(x).terminated && x.qubes == qubes && x.slots == slots
    ensures StatusLess(args, x, vms)
  {
    hide IsExecution, RunCode, DoubleDone, ValidQubes, Matches, NamesAreBars, BarName, EndOf;
    var i: nat;
    if args.dummy {
      x := SomeExecution(qubes, slots, false);
      ExecutionEnds(x, false);
      i := 0;
    } else if !NamesAreBars(qubes) {
      x := SomeExecution(qubes, slots, true);
      i := UnknownBar(qubes);
      StatusesAreOfBars(x, true, qubes[i].name);
    } else {
      var double: nat :| double < |qubes| && DoubleDone(qubes[double], false, false);
      var k;
      x, k := SomeExecutionMisses(qubes, slots, double);
      i := BarsAreNames(qubes, vms, k);
    }
    var vm := VmOf(qubes, vms, i);
    assert vm.name !in Updated(args, x).statuses;
  }

  /** The targets of the three batches. */
  datatype Targets = Targets(admin: seq<Qube>, independent: seq<Qube>, derived: seq<Qube>, slots: nat)

  ghost predicate ValidTargets(t: Targets) {
    ValidQubes(t.admin) && ValidQubes(t.independent) && ValidQubes(t.derived) && t.slots >= 1
  }

  /** These executions are of these targets, and nobody pressed Ctrl-C. */
  ghost predicate Undisturbed(b: Batches, t: Targets, bars: bool) {
    && AreExecutions(b, bars)
    && b.admin.qubes == t.admin && b.independent.qubes == t.independent && b.derived.qubes == t.derived
    && !EndOf(b.admin).terminated && !EndOf(b.independent).terminated && !EndOf(b.derived).terminated
  }

  ghost predicate CanCrash(args: Args, t: Targets, w: Setting) {
    exists b :: Undisturbed(b, t, !args.dummy) && WholeEnd(args, b, w) == Crashed
  }

  lemma NotInterruptedRun(args: Args, b: Batches, t: Targets)
    requires Undisturbed(b, t, !args.dummy)
    ensures !Interrupted(args, b)
  {
    hide IsExecution, EndOf, Updated, AdminUpdated;
    BatchCodeRange(args, b.admin);
    BatchCodeRange(args, b.independent);
    BatchCodeRange(args, b.derived);
  }

  /**
   Some run without SIGINT raises exactly if updates are to be applied, the run is not dry, there are
   independent targets, and either there are no bars, or some target's name is not that of a bar, or there
   are at least two of them and one can put a second DONE.
   */
  lemma CanCrashIff(args: Args, t: Targets, w: Setting)
    requires ValidTargets(t) && Matches(t.independent, w.independent)
    ensures CanCrash(args, t, w)
            <==> Applies(args) && !args.options.dryRun && MayLackStatus(t.independent, !args.dummy)
  {
    hide IsExecution, MayLackStatus, StatusLess, WholeEnd, Interrupted, ValidQubes, Matches;
    if CanCrash(args, t, w) {
      var b :| Undisturbed(b, t, !args.dummy) && WholeEnd(args, b, w) == Crashed;
      CrashIff(args, b, w);
      LackingMeans(args, b.independent, w.independent);
    }
    if Applies(args) && !args.options.dryRun && MayLackStatus(t.independent, !args.dummy) {
      var a := SomeExecution(t.admin, t.slots, !args.dummy);
      var i := SomeLacks(args, t.independent, t.slots, w.independent);
      var d := SomeExecution(t.derived, t.slots, !args.dummy);
      var b := Batches(a, i, d);
      assert Undisturbed(b, t, !args.dummy);
      NotInterruptedRun(args, b, t);
      CrashIff(args, b, w);
    }
  }

  /** For instance two templates with bars, the copying of the agent to one of which raises. */
  lemma RaisingCopyCrashes(args: Args, t: Targets, w: Setting)
    requires ValidTargets(t) && Matches(t.independent, w.independent)
    requires args.options == Options(true, false, false) && !args.dummy
    requires |t.independent| == 2
    requires var q := t.independent[0];
             !q.admin && !q.setupRaises && !q.archiveRaises && q.mkdir == Exit(OK) && q.copy == CopyRaises
    ensures CanCrash(args, t, w)
  {
    CanCrashIff(args, t, w);
    assert DoubleDone(t.independent[0], false, false);
  }

  // ---------------------------------------------------------------- runs without bars

  lemma NothingToApply(args: Args, w: Setting, templates: Statuses, derived: Statuses)
    requires w.independent == {}
    ensures ApplyCode(w.world, args.options, w.independent, templates, derived, w.running) == Some(OK)
  {
    var updated := UpdatedTemplates(w.independent, templates);
    assert updated == {};
    assert DerivedFrom(w.world, ApplyPhase.Ready(w.world, updated, w.running)) == {};
  }

  /**
   Without bars nothing is collected: `--signal-no-updates` then turns every good run into 100, also one
   that has just updated qubes; and a run that has to apply updates of some target is not a good one.
   */
  lemma QuietRunReportsNoUpdates(args: Args, b: Batches, w: Setting)
    requires AreExecutions(b, false) && args.dummy && !args.options.dryRun && args.signalNoUpdates
    requires Matches(b.independent.qubes, w.independent)
    ensures WholeEnd(args, b, w) == Exited(OK_NO_UPDATES)
            <==> && WentWell(b.admin) && WentWell(b.independent) && WentWell(b.derived)
                 && (Applies(args) ==> b.independent.qubes == [])
  {
    hide IsExecution, WentWell, RunCode, ApplyEffect;
    HundredIff(args, b, w);
    AdminLikeOthers(args, b.admin);
    QuietStatuses(args, b.admin);
    QuietStatuses(args, b.independent);
    QuietStatuses(args, b.derived);
    if b.independent.qubes == [] {
      NothingToApply(args, w, map[], map[]);
    } else {
      var vm := VmOf(b.independent.qubes, w.independent, 0);
    }
  }

  lemma QuietStatuses(args: Args, x: Execution)
    requires IsExecution(x, false) && args.dummy && !args.options.dryRun
    ensures Updated(args, x).statuses == map[] && (Updated(args, x).code == OK <==> WentWell(x))
  {
    hide IsExecution, WentWell, RunCode;
    ExecutionEnds(x, false);
    WellIff(args, x);
  }

  // ---------------------------------------------------------------- dry runs

  /** A dry run always exits with 0, or with 100 if that is asked for and there is no target but the admin VM. */
  lemma DryRunEnds(args: Args, b: Batches, w: Setting)
    requires AreExecutions(b, !args.dummy) && args.options.dryRun && Matches(b.independent.qubes, w.independent)
    ensures WholeEnd(args, b, w)
            == Exited(if args.signalNoUpdates && b.independent.qubes == [] && b.derived.qubes == [] then 100 else 0)
  {
    hide IsExecution, ApplyEffect;
    var statuses := Updated(args, b.independent).statuses;
    forall vm | vm in w.independent ensures vm.name in statuses {
      var i := TargetOf(b.independent.qubes, w.independent, vm);
    }
    DryStatuses(args, b.independent);
    DryStatuses(args, b.derived);
  }

  lemma DryStatuses(args: Args, x: Execution)
    requires IsExecution(x, !args.dummy) && args.options.dryRun
    ensures AllNoUpdates(Updated(args, x).statuses) <==> x.qubes == []
  {
    hide IsExecution;
    if x.qubes != [] {
      assert x.qubes[0].name in Updated(args, x).statuses;
    }
  }
}
