/**
 The apply phase: updated templates are shut down, then the qubes derived from them are restarted
 or shut down. Admin calls either succeed or raise; which ones raise is an input.
 */
module ApplyPhase {
  import opened ExitCodes

  datatype Klass = TemplateVM | StandaloneVM | AppVM | DispVM | AdminVM

  datatype Vm = Vm(name: string, klass: Klass, autoCleanup: bool, servicevm: bool)

  datatype Options = Options(applyToSys: bool, applyToAll: bool, dryRun: bool)

  /** What the admin API knows and how its calls turn out. */
  datatype World = World(
    derived: map<Vm, set<Vm>>,  // derived_vms
    shutdownFails: set<Vm>,
    startFails: set<Vm>
  )

  function DerivedOf(w: World, template: Vm): set<Vm> {
    if template in w.derived then w.derived[template] else {}
  }

  /** Templates are not derived from anything. */
  ghost predicate ValidWorld(w: World) {
    forall t, vm | t in w.derived && vm in w.derived[t] :: vm.klass != TemplateVM
  }

  // ---------------------------------------------------------------- who is affected

  predicate UpdatedSuccessfully(vm: Vm, statuses: Statuses) {
    vm.name in statuses && statuses[vm.name] == SUCCESS
  }

  /** A running derived qube that still has its template's old root volume. */
  predicate Outdated(vm: Vm, statuses: Statuses, running: set<Vm>) {
    && !UpdatedSuccessfully(vm, statuses)
    && vm in running
    && (vm.klass != DispVM || !vm.autoCleanup)
  }

  /** Everything derived from some of these templates. */
  function DerivedFrom(w: World, templates: set<Vm>): set<Vm> {
    set t, vm | t in templates && vm in DerivedOf(w, t) :: vm
  }

  function OutdatedOf(vms: set<Vm>, statuses: Statuses, running: set<Vm>): set<Vm> {
    set vm | vm in vms && Outdated(vm, statuses, running)
  }

  function Affected(w: World, templates: set<Vm>, statuses: Statuses, running: set<Vm>): set<Vm> {
    OutdatedOf(DerivedFrom(w, templates), statuses, running)
  }

  function Services(vms: set<Vm>): set<Vm> {
    set vm | vm in vms && vm.servicevm
  }

  /** Templates that have been updated successfully. */
  function UpdatedTemplates(targets: set<Vm>, statuses: Statuses): set<Vm> {
    set vm | vm in targets && vm.klass == TemplateVM && UpdatedSuccessfully(vm, statuses)
  }

  lemma DerivedMeans(w: World, templates: set<Vm>, vm: Vm)
    ensures vm in DerivedFrom(w, templates) <==> exists t :: t in templates && vm in DerivedOf(w, t)
  {}

  /** Losing templates and losing running qubes only shrinks the set of affected qubes. */
  lemma AffectedShrinks(w: World, fewer: set<Vm>, more: set<Vm>, statuses: Statuses, later: set<Vm>, earlier: set<Vm>)
    requires fewer <= more && later <= earlier
    ensures Affected(w, fewer, statuses, later) <= Affected(w, more, statuses, earlier)
    ensures Services(Affected(w, fewer, statuses, later)) <= Services(Affected(w, more, statuses, earlier))
    ensures Affected(w, fewer, statuses, later) - Services(Affected(w, fewer, statuses, later))
            <= Affected(w, more, statuses, earlier) - Services(Affected(w, more, statuses, earlier))
  {
    forall vm | vm in DerivedFrom(w, fewer) ensures vm in DerivedFrom(w, more) {
      DerivedMeans(w, fewer, vm);
      DerivedMeans(w, more, vm);
    }
  }

  lemma DerivedAreNoTemplates(w: World, templates: set<Vm>)
    requires ValidWorld(w)
    ensures forall vm | vm in DerivedFrom(w, templates) :: vm.klass != TemplateVM
  {
    forall vm | vm in DerivedFrom(w, templates) ensures vm.klass != TemplateVM {
      DerivedMeans(w, templates, vm);
    }
  }

  /** Shutting down templates does not change which qubes are affected. */
  lemma TemplatesDoNotMatter(w: World, templates: set<Vm>, statuses: Statuses, later: set<Vm>, earlier: set<Vm>)
    requires ValidWorld(w)
    requires forall vm: Vm | vm.klass != TemplateVM :: vm in later <==> vm in earlier
    ensures Affected(w, templates, statuses, later) == Affected(w, templates, statuses, earlier)
  {
    DerivedAreNoTemplates(w, templates);
  }

  // ---------------------------------------------------------------- implementation

  class Admin {
    const world: World
    var running: set<Vm>
    var asked: set<Vm>    // every qube a shutdown was requested for
    var started: set<Vm>  // every qube that was started

    constructor (w: World, running: set<Vm>)
      ensures world == w && this.running == running && asked == {} && started == {}
    {
      world := w;
      this.running := running;
      asked := {};
      started := {};
    }

    /** `shutdown_domains`: ask every qube, then wait until the ones that accepted have halted. */
    method ShutdownDomains(vms: set<Vm>) returns (code: int, accepted: set<Vm>)
      modifies this`running, this`asked
      ensures accepted == vms - world.shutdownFails
      ensures code == if vms !! world.shutdownFails then OK else ERR_SHUTDOWN_APP
      ensures running == old(running) - accepted
      ensures asked == old(asked) + vms
    {
      code := OK;
      accepted := {};
      var todo := vms;
      while todo != {}
        invariant todo <= vms
        invariant accepted == (vms - todo) - world.shutdownFails
        invariant code == if (vms - todo) !! world.shutdownFails then OK else ERR_SHUTDOWN_APP
        invariant running == old(running) && asked == old(asked) + (vms - todo)
        decreases |todo|
      {
        var vm :| vm in todo;
        asked := asked + {vm};
        if vm in world.shutdownFails {
          assert vm in vms - (todo - {vm});
          code := ERR_SHUTDOWN_APP;
        } else {
          accepted := accepted + {vm};
        }
        todo := todo - {vm};
      }
      running := running - accepted;
    }

    /** The second half of `restart_vms`. */
    method StartAll(vms: set<Vm>) returns (failed: bool)
      modifies this`started, this`running
      ensures started == old(started) + (vms - world.startFails)
      ensures running == old(running) + (vms - world.startFails)
      ensures failed <==> !(vms !! world.startFails)
    {
      failed := false;
      var todo := vms;
      while todo != {}
        invariant todo <= vms
        invariant forall vm :: vm in started <==> vm in old(started) || (vm in vms - todo && vm !in world.startFails)
        invariant forall vm :: vm in running <==> vm in old(running) || (vm in vms - todo && vm !in world.startFails)
        invariant failed <==> exists vm :: vm in vms - todo && vm in world.startFails
        decreases |todo|
      {
        var vm :| vm in todo;
        if vm in world.startFails {
          assert vm in vms - (todo - {vm});
          failed := true;
        } else {
          started := started + {vm};
          running := running + {vm};
        }
        todo := todo - {vm};
      }
    }

    /** `restart_vms`: only what was shut down is started again. */
    method RestartVms(vms: set<Vm>) returns (code: int)
      modifies this
      ensures asked == old(asked) + vms
      ensures started == old(started) + (vms - world.shutdownFails - world.startFails)
      ensures running == old(running) - (vms - world.shutdownFails) + (vms - world.shutdownFails - world.startFails)
      ensures code == if !((vms - world.shutdownFails) !! world.startFails) then ERR_START_APP
                      else if !(vms !! world.shutdownFails) then ERR_SHUTDOWN_APP
                      else OK
    {
      var accepted;
      code, accepted := ShutdownDomains(vms);
      var failed := StartAll(accepted);
      if failed {
        code := ERR_START_APP;
      }
    }

    /** `get_derived_vm_to_apply` */
    method DerivedToApply(templates: set<Vm>, statuses: Statuses) returns (restart: set<Vm>, shutdown: set<Vm>)
      ensures restart == Services(Affected(world, templates, statuses, running))
      ensures shutdown == Affected(world, templates, statuses, running) - restart
    {
      var possible := DerivedFrom(world, templates);
      restart, shutdown := Split(possible, statuses);
    }

    method Split(possible: set<Vm>, statuses: Statuses) returns (restart: set<Vm>, shutdown: set<Vm>)
      ensures restart == Services(OutdatedOf(possible, statuses, running))
      ensures shutdown == OutdatedOf(possible, statuses, running) - restart
    {
      restart := {};
      shutdown := {};
      var todo := possible;
      while todo != {}
        invariant todo <= possible
        invariant forall vm :: vm in restart <==> vm in possible - todo && Outdated(vm, statuses, running) && vm.servicevm
        invariant forall vm :: vm in shutdown <==> vm in possible - todo && Outdated(vm, statuses, running) && !vm.servicevm
        decreases |todo|
      {
        var vm :| vm in todo;
        if Outdated(vm, statuses, running) {
          if vm.servicevm {
            restart := restart + {vm};
          } else {
            shutdown := shutdown + {vm};
          }
        }
        todo := todo - {vm};
      }
    }

    /** First the templates; the derived qubes of a template that stays up are left alone. */
    method ShutdownTemplates(updated: set<Vm>, statuses: Statuses) returns (code: int, restart: set<Vm>, shutdown: set<Vm>)
      requires ValidWorld(world) && forall t | t in updated :: t.klass == TemplateVM
      modifies this`running, this`asked
      ensures asked == old(asked) + updated * old(running)
      ensures running == old(running) - Ready(world, updated, old(running))
      ensures restart == Services(Affected(world, Ready(world, updated, old(running)), statuses, old(running)))
      ensures shutdown == Affected(world, Ready(world, updated, old(running)), statuses, old(running)) - restart
      ensures code == if updated * old(running) !! world.shutdownFails then OK else ERR_SHUTDOWN_TMPL
    {
      restart, shutdown := DerivedToApply(updated, statuses);
      var up := updated * running;
      ghost var before := running;
      var accepted;
      code, accepted := ShutdownDomains(up);
      assert running == before - Ready(world, updated, before);
      if code == OK {
        assert Ready(world, updated, before) == updated;
      } else {
        code := ERR_SHUTDOWN_TMPL;
        assert updated - running == Ready(world, updated, before);
        restart, shutdown := DerivedToApply(updated - running, statuses);
        TemplatesDoNotMatter(world, updated - running, statuses, running, before);
      }
    }

    /** Then the derived qubes: services are restarted, the others are shut down only with `--apply-to-all`. */
    method ApplyToDerived(all: bool, restart: set<Vm>, shutdown: set<Vm>) returns (code: int)
      requires restart !! shutdown
      modifies this
      ensures var touched := if all then restart + shutdown else restart;
              && asked == old(asked) + touched
              && started == old(started) + Restarted(world, restart)
              && running == old(running) - (touched - world.shutdownFails) + Restarted(world, restart)
              && code == DerivedCode(world, touched, restart)
    {
      code := RestartVms(restart);
      if all {
        var stopped, _ := ShutdownDomains(shutdown);
        code := Max(code, stopped);
      }
    }

    /**
     `apply_updates_to_appvm`; no result means that the look-up of a template's status raised.
     */
    method ApplyUpdates(options: Options, targets: set<Vm>, templateStatuses: Statuses, derivedStatuses: Statuses)
      returns (result: Option<int>)
      requires ValidWorld(world) && asked == {} && started == {}
      modifies this
      ensures result == ApplyCode(world, options, targets, templateStatuses, derivedStatuses, old(running))
      ensures result.None? <==> (options.applyToSys || options.applyToAll) && exists vm :: vm in targets && vm.name !in templateStatuses
      ensures result.Some? && (options.dryRun || !(options.applyToSys || options.applyToAll)) ==> result.value == 0
      ensures result.None? || options.dryRun || !(options.applyToSys || options.applyToAll) ==>
                running == old(running) && asked == {} && started == {}
      ensures result.Some? && !options.dryRun && (options.applyToSys || options.applyToAll) ==>
                Effect(running, asked, started, result.value)
                == ApplyEffect(world, options, UpdatedTemplates(targets, templateStatuses), derivedStatuses, old(running))
    {
      if !options.applyToSys && !options.applyToAll {
        return Some(OK);
      }
      if vm :| vm in targets && vm.name !in templateStatuses {
        return None;
      }
      if options.dryRun {
        return Some(OK);
      }
      var updated := UpdatedTemplates(targets, templateStatuses);
      var code, restart, shutdown := ShutdownTemplates(updated, derivedStatuses);
      var derivedCode := ApplyToDerived(options.applyToAll, restart, shutdown);
      assert restart + shutdown == Affected(world, Ready(world, updated, old(running)), derivedStatuses, old(running));
      result := Some(Max(code, derivedCode));
    }
  }

  // ---------------------------------------------------------------- the outcome

  /** Updated templates that are down once their shutdown has been tried. */
  function Ready(w: World, updated: set<Vm>, running: set<Vm>): set<Vm> {
    updated - running * w.shutdownFails
  }

  function Restarted(w: World, restart: set<Vm>): set<Vm> {
    restart - w.shutdownFails - w.startFails
  }

  function DerivedCode(w: World, touched: set<Vm>, restart: set<Vm>): int {
    if !(restart - w.shutdownFails !! w.startFails) then ERR_START_APP
    else if !(touched !! w.shutdownFails) then ERR_SHUTDOWN_APP
    else OK
  }

  /** What is running afterwards, what was asked to shut down, what was started, and the code. */
  datatype Effect = Effect(running: set<Vm>, asked: set<Vm>, started: set<Vm>, code: int)

  /** The whole effect of the apply phase once it acts. */
  function ApplyEffect(w: World, options: Options, updated: set<Vm>, statuses: Statuses, before: set<Vm>): Effect {
    var ready := Ready(w, updated, before);
    var affected := Affected(w, ready, statuses, before);
    var restart := Services(affected);
    var touched := if options.applyToAll then affected else restart;
    Effect(before - ready - (touched - w.shutdownFails) + Restarted(w, restart),
           updated * before + touched,
           Restarted(w, restart),
           Max(if updated * before !! w.shutdownFails then OK else ERR_SHUTDOWN_TMPL, DerivedCode(w, touched, restart)))
  }

  /** The code of the apply phase; none when the look-up of a target's status raises. */
  function ApplyCode(w: World, options: Options, targets: set<Vm>, templateStatuses: Statuses, derivedStatuses: Statuses,
                     before: set<Vm>): Option<int> {
    if !options.applyToSys && !options.applyToAll then Some(OK)
    else if exists vm :: vm in targets && vm.name !in templateStatuses then None
    else if options.dryRun then Some(OK)
    else Some(ApplyEffect(w, options, UpdatedTemplates(targets, templateStatuses), derivedStatuses, before).code)
  }

  // ---------------------------------------------------------------- safety

  /**
   Whatever fails: a derived qube is only asked to shut down if it was running, was not itself updated,
   is not a self-cleaning disposable and comes from a successfully updated template that is down at the
   end; a qube is only started after its own shutdown succeeded; and the code is 0 exactly if every
   requested shutdown and start succeeded.
   */
  lemma ApplySafety(w: World, options: Options, targets: set<Vm>, templateStatuses: Statuses, statuses: Statuses,
                    before: set<Vm>, e: Effect)
    requires ValidWorld(w)
    requires e == ApplyEffect(w, options, UpdatedTemplates(targets, templateStatuses), statuses, before)
    ensures forall vm | vm in e.asked && vm.klass != TemplateVM ::
              && Outdated(vm, statuses, before)
              && (vm.servicevm || options.applyToAll)
              && exists t :: t in UpdatedTemplates(targets, templateStatuses) && vm in DerivedOf(w, t) && t !in e.running
    ensures forall vm | vm in e.started :: vm in e.asked && vm !in w.shutdownFails && vm.servicevm
    ensures e.code == OK <==> && e.asked !! w.shutdownFails
                              && forall vm | vm in e.asked && vm.servicevm && vm.klass != TemplateVM :: vm !in w.startFails
    ensures e.code in {OK, ERR_SHUTDOWN_TMPL, ERR_SHUTDOWN_APP, ERR_START_APP}
  {
    var updated := UpdatedTemplates(targets, templateStatuses);
    var ready := Ready(w, updated, before);
    DerivedAreNoTemplates(w, ready);
    forall vm | vm in e.asked && vm.klass != TemplateVM
      ensures exists t :: t in updated && vm in DerivedOf(w, t) && t !in e.running
    {
      DerivedMeans(w, ready, vm);
      var t :| t in ready && vm in DerivedOf(w, t);
      assert t in updated && t !in e.running;
    }
  }

  /** A template of these targets that was updated successfully. */
  ghost predicate IsUpdated(t: Vm, targets: set<Vm>, statuses: Statuses) {
    t in targets && t.klass == TemplateVM && t.name in statuses && statuses[t.name] == SUCCESS
  }

  /** It is down once its shutdown has been tried: it was not running, or the shutdown worked. */
  ghost predicate IsDown(w: World, t: Vm, before: set<Vm>) {
    t !in before || t !in w.shutdownFails
  }

  /** A running qube that was not updated itself, and not a disposable that goes away on its own. */
  ghost predicate IsLeftBehind(vm: Vm, statuses: Statuses, before: set<Vm>) {
    && vm in before && !(vm.name in statuses && statuses[vm.name] == SUCCESS)
    && !(vm.klass == DispVM && vm.autoCleanup)
  }

  /** Derived from an updated template that is down, left behind, and to be dealt with under these options. */
  ghost predicate IsDue(w: World, options: Options, targets: set<Vm>, templateStatuses: Statuses, statuses: Statuses,
                        before: set<Vm>, vm: Vm) {
    && IsLeftBehind(vm, statuses, before) && (vm.servicevm || options.applyToAll)
    && exists t :: IsUpdated(t, targets, templateStatuses) && IsDown(w, t, before) && t in w.derived && vm in w.derived[t]
  }

  lemma DueMeans(w: World, options: Options, targets: set<Vm>, templateStatuses: Statuses, statuses: Statuses,
                 before: set<Vm>, vm: Vm)
    ensures var affected := Affected(w, Ready(w, UpdatedTemplates(targets, templateStatuses), before), statuses, before);
            vm in (if options.applyToAll then affected else Services(affected))
            <==> IsDue(w, options, targets, templateStatuses, statuses, before, vm)
  {
    var ready := Ready(w, UpdatedTemplates(targets, templateStatuses), before);
    DerivedMeans(w, ready, vm);
    if vm in DerivedFrom(w, ready) {
      var t :| t in ready && vm in DerivedOf(w, t);
      assert IsUpdated(t, targets, templateStatuses) && IsDown(w, t, before);
    }
    if t :| IsUpdated(t, targets, templateStatuses) && IsDown(w, t, before) && t in w.derived && vm in w.derived[t] {
      assert t in ready && vm in DerivedOf(w, t);
    }
  }

  /**
   What the apply phase does, neither more nor less. It asks exactly the running updated templates and the
   qubes that are due; it starts exactly the services among the latter whose shutdown and start work; who was
   asked and does not fail is down, unless it was started again; and the code names the last kind of failure.
   */
  lemma ApplyDoes(w: World, options: Options, targets: set<Vm>, templateStatuses: Statuses, statuses: Statuses,
                  before: set<Vm>, e: Effect)
    requires ValidWorld(w)
    requires e == ApplyEffect(w, options, UpdatedTemplates(targets, templateStatuses), statuses, before)
    ensures forall vm :: vm in e.asked <==> || (IsUpdated(vm, targets, templateStatuses) && vm in before)
                                            || IsDue(w, options, targets, templateStatuses, statuses, before, vm)
    ensures forall vm :: vm in e.started <==> && IsDue(w, options, targets, templateStatuses, statuses, before, vm)
                                              && vm.servicevm && vm !in w.shutdownFails && vm !in w.startFails
    ensures e.running == (before - (e.asked - w.shutdownFails)) + e.started
    ensures e.code == if exists vm :: IsDue(w, options, targets, templateStatuses, statuses, before, vm)
                                      && vm.servicevm && vm !in w.shutdownFails && vm in w.startFails then 13
                      else if exists vm :: IsDue(w, options, targets, templateStatuses, statuses, before, vm)
                                           && vm in w.shutdownFails then 12
                      else if exists t :: IsUpdated(t, targets, templateStatuses) && t in before && t in w.shutdownFails then 11
                      else 0
  {
    hide IsDue, Affected;
    var updated := UpdatedTemplates(targets, templateStatuses);
    var affected := Affected(w, Ready(w, updated, before), statuses, before);
    var touched := if options.applyToAll then affected else Services(affected);
    forall vm ensures vm in touched <==> IsDue(w, options, targets, templateStatuses, statuses, before, vm) {
      DueMeans(w, options, targets, templateStatuses, statuses, before, vm);
    }
    forall vm ensures vm in updated <==> IsUpdated(vm, targets, templateStatuses) {}
    assert Services(affected) == set vm | vm in touched && vm.servicevm;
    DoesCode(w, updated * before, touched, Services(affected));
  }

  /** Which of 11, 12 and 13 comes out. */
  lemma DoesCode(w: World, templates: set<Vm>, touched: set<Vm>, restart: set<Vm>)
    ensures Max(if templates !! w.shutdownFails then OK else ERR_SHUTDOWN_TMPL, DerivedCode(w, touched, restart))
            == if exists vm :: vm in restart && vm !in w.shutdownFails && vm in w.startFails then 13
               else if exists vm :: vm in touched && vm in w.shutdownFails then 12
               else if exists t :: t in templates && t in w.shutdownFails then 11
               else 0
  {}
}
