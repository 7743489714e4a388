/**
 One pool worker: `update_qube`, the agent manager and the qube connection it opens.

 Everything the worker cannot decide itself (exit codes of commands, exceptions raised by
 admin calls, the termination flag at its two reads) is an input, collected in `Qube`.
 */
module Worker {
  import opened ExitCodes

  /** What a reader thread or the worker itself says about a qube. */
  datatype Info = Done(status: FinalStatus) | Updating(percent: real) | Line(text: string)

  datatype Message = Message(qname: string, info: Info)

  /** A command either ends with an exit code or fails with some other exception. */
  datatype Command = Exit(code: int) | Fault

  /** Copying the archive succeeds, fails with an OSError, or raises anything else. */
  datatype Copy = CopyOk | CopyOsError | CopyRaises

  datatype Qube = Qube(
    name: string,
    display: Option<string>,  // --display-name
    admin: bool,              // the AdminVM
    dom0: bool,               // update it with qubes-dom0-update
    showProgress: bool,
    setupRaises: bool,        // log set-up or __enter__ raises
    archiveRaises: bool,
    mkdir: Command,
    copy: Copy,
    untar: Command,
    entry: Command,
    reports: seq<Info>,       // put by the two reader threads while the entrypoint runs
    logs: Command,
    remove: Command,
    exitRaises: bool          // is_running or shutdown raises in __exit__
  )

  datatype Outcome = Outcome(messages: seq<Message>, code: int, launched: bool)

  // ---------------------------------------------------------------- names

  /** The key of the qube's progress bar. */
  function BarName(q: Qube): string {
    if q.display.Some? then q.display.value else q.name
  }

  /** The name put on messages sent through the connection's notifier. */
  function ConnectionName(q: Qube): string {
    if q.display.Some? then q.display.value
    else if q.admin && !q.dom0 then "dom0"
    else q.name
  }

  predicate ConsistentName(q: Qube) {
    q.display.Some? || !q.admin || q.dom0 || q.name == "dom0"
  }

  // ---------------------------------------------------------------- specification

  /** The code a runner hands back: 100 is captured, a foreign exception becomes 1. */
  function WaitCode(c: Command): int {
    match c
    case Exit(code) => if code == OK_NO_UPDATES then OK else code
    case Fault => 1
  }

  predicate SaysNoUpdates(c: Command) {
    c == Exit(OK_NO_UPDATES)
  }

  predicate CopyReached(q: Qube) {
    !q.archiveRaises && WaitCode(q.mkdir) == OK
  }

  predicate TransferRaises(q: Qube) {
    !q.admin && (q.archiveRaises || (CopyReached(q) && q.copy == CopyRaises))
  }

  function TransferCode(q: Qube): int
    requires !TransferRaises(q)
  {
    if q.admin then OK
    else if WaitCode(q.mkdir) != OK then Max(OK, WaitCode(q.mkdir))
    else if q.copy == CopyOsError then ERR
    else Max(OK, WaitCode(q.untar))
  }

  /** The connection's status once the transfer is over, successfully or not. */
  function TransferStatus(q: Qube): FinalStatus {
    if q.admin || q.archiveRaises then ERROR
    else if SaysNoUpdates(q.mkdir) then NO_UPDATES
    else if WaitCode(q.mkdir) == OK && q.copy == CopyOk && SaysNoUpdates(q.untar) then NO_UPDATES
    else ERROR
  }

  predicate EntryRaises(q: Qube) {
    q.showProgress && q.entry.Fault?
  }

  predicate EntryFine(q: Qube) {
    q.entry.Exit? && (q.entry.code <= OK || q.entry.code == OK_NO_UPDATES)
  }

  /** The connection's status when a run that was not cancelled leaves the `with` block. */
  function RunStatus(q: Qube): FinalStatus {
    if SaysNoUpdates(q.logs) || SaysNoUpdates(q.entry) then NO_UPDATES
    else if TransferStatus(q) == NO_UPDATES then NO_UPDATES
    else if EntryFine(q) then SUCCESS
    else ERROR
  }

  /** What the reader threads put on the queue while the entrypoint runs. */
  function Reported(q: Qube): seq<Message> {
    if q.showProgress then seq(|q.reports|, i requires 0 <= i < |q.reports| =>
                                 Message(ConnectionName(q), q.reports[i]))
    else []
  }

  /** The worker reaches its second look at the termination flag. */
  predicate ReachesSecondCheck(q: Qube) {
    !q.setupRaises && !TransferRaises(q)
  }

  /** The messages of a connection that is left with `status`, and the code that follows. */
  function Leave(q: Qube, before: seq<Message>, status: FinalStatus, raised: bool, code: int, launched: bool): Outcome {
    var done := before + [Message(ConnectionName(q), Done(status))];
    if raised || q.exitRaises
    then Outcome(done + [Message(BarName(q), Done(ERROR))], ERR_VM_UNHANDLED, launched)
    else Outcome(done, code, launched)
  }

  /** The whole behaviour of a worker that reads the flag as `first` and then as `second`. */
  function Trace(q: Qube, first: bool, second: bool): Outcome {
    if first then
      Outcome([Message(BarName(q), Done(CANCELLED))], SIGINT, false)
    else if q.setupRaises then
      Outcome([Message(BarName(q), Done(ERROR))], ERR_VM_UNHANDLED, false)
    else if TransferRaises(q) then
      Leave(q, [], TransferStatus(q), true, ERR_VM_UNHANDLED, false)
    else if second then
      Leave(q, [], CANCELLED, false, SIGINT, false)
    else if EntryRaises(q) then
      Leave(q, Reported(q), TransferStatus(q), true, ERR_VM_UNHANDLED, true)
    else
      Leave(q, Reported(q), RunStatus(q), false, Max(TransferCode(q), Max(OK, WaitCode(q.entry))), true)
  }

  // ---------------------------------------------------------------- implementation

  /** The notifier every worker shares; `put` appends. */
  class StatusNotifier {
    var log: seq<Message>

    constructor ()
      ensures log == []
    {
      log := [];
    }

    method Put(m: Message)
      modifies this
      ensures log == old(log) + [m]
    {
      log := log + [m];
    }
  }

  /** The result of a call that may raise. */
  datatype Call = Returned(code: int) | Raised

  class QubeConnection {
    const qube: Qube
    const notifier: StatusNotifier
    var status: FinalStatus
    var connected: bool
    var launched: bool

    constructor (q: Qube, notifier: StatusNotifier)
      ensures qube == q && this.notifier == notifier
      ensures status == ERROR && !connected && !launched
    {
      this.qube := q;
      this.notifier := notifier;
      status := ERROR;
      connected := false;
      launched := false;
    }

    method Enter()
      modifies this`connected
      ensures connected
    {
      connected := true;
    }

    /** `_run_command_and_wait_for_output` */
    method RunAndWait(c: Command) returns (code: int)
      modifies this`status
      ensures code == WaitCode(c) && code != OK_NO_UPDATES
      ensures status == if SaysNoUpdates(c) then NO_UPDATES else old(status)
    {
      match c {
        case Exit(returned) =>
          if returned == OK_NO_UPDATES {
            status := NO_UPDATES;
            code := OK;
          } else {
            code := returned;
          }
        case Fault =>
          code := 1;
      }
    }

    /** `_run_command_and_actively_report_progress` */
    method RunAndReport(c: Command) returns (call: Call)
      modifies this`status, notifier
      ensures notifier.log == old(notifier.log) +
                              seq(|qube.reports|, i requires 0 <= i < |qube.reports| =>
                                    Message(ConnectionName(qube), qube.reports[i]))
      ensures call == if c.Fault? then Raised else Returned(WaitCode(c))
      ensures status == if SaysNoUpdates(c) then NO_UPDATES else old(status)
    {
      ghost var all := seq(|qube.reports|, i requires 0 <= i < |qube.reports| =>
                             Message(ConnectionName(qube), qube.reports[i]));
      ghost var before := notifier.log;
      for i := 0 to |qube.reports|
        invariant notifier.log == before + all[..i] && status == old(status)
      {
        notifier.Put(Message(ConnectionName(qube), qube.reports[i]));
        assert all[..i + 1] == all[..i] + [all[i]];
      }
      assert all[..|qube.reports|] == all;
      if c.Fault? {
        return Raised;
      }
      var code := c.code;
      if code == OK_NO_UPDATES {
        status := NO_UPDATES;
        code := OK;
      }
      call := Returned(code);
    }

    method TransferAgent() returns (call: Call)
      requires status == ERROR && connected && !qube.admin
      modifies this`status
      ensures TransferRaises(qube) <==> call.Raised?
      ensures !TransferRaises(qube) ==> Max(OK, call.code) == TransferCode(qube)
      ensures status == TransferStatus(qube)
    {
      if qube.archiveRaises {
        return Raised;
      }
      var code := RunAndWait(qube.mkdir);
      if code != OK {
        return Returned(code);
      }
      match qube.copy {
        case CopyRaises => return Raised;
        case CopyOsError => code := Max(code, ERR);
        case CopyOk => code := Max(code, OK);
      }
      if code != OK {
        return Returned(code);
      }
      var unpacked := RunAndWait(qube.untar);
      code := Max(code, unpacked);
      call := Returned(code);
    }

    method RunEntrypoint() returns (call: Call)
      modifies this`status, this`launched, notifier
      ensures launched
      ensures notifier.log == old(notifier.log) + Reported(qube)
      ensures call == if EntryRaises(qube) then Raised else Returned(Max(OK, WaitCode(qube.entry)))
      ensures status == if EntryRaises(qube) then old(status)
                        else if SaysNoUpdates(qube.entry) || old(status) == NO_UPDATES then NO_UPDATES
                        else if EntryFine(qube) then SUCCESS
                        else old(status)
    {
      launched := true;
      var code := OK;
      if qube.showProgress {
        var run := RunAndReport(qube.entry);
        if run.Raised? {
          return Raised;
        }
        code := Max(code, run.code);
      } else {
        var returned := RunAndWait(qube.entry);
        code := Max(code, returned);
      }
      if code == OK && status != NO_UPDATES {
        status := SUCCESS;
      }
      call := Returned(code);
    }

    /** Sends DONE first; the removal of files never raises, the rest may. */
    method Leave() returns (raised: bool)
      modifies this`status, this`connected, notifier
      ensures notifier.log == old(notifier.log) + [Message(ConnectionName(qube), Done(old(status)))]
      ensures raised == qube.exitRaises
    {
      notifier.Put(Message(ConnectionName(qube), Done(status)));
      var _ := RunAndWait(qube.remove);
      if qube.exitRaises {
        return true;
      }
      connected := false;
      raised := false;
    }

    /** The body of the `with` block. */
    method Body(terminated: bool) returns (call: Call)
      requires status == ERROR && connected && !launched
      modifies this`status, this`launched, notifier
      ensures launched == (!TransferRaises(qube) && !terminated)
      ensures notifier.log == old(notifier.log) + if launched then Reported(qube) else []
      ensures call == if TransferRaises(qube) then Raised
                      else if terminated then Returned(SIGINT)
                      else if EntryRaises(qube) then Raised
                      else Returned(Max(TransferCode(qube), Max(OK, WaitCode(qube.entry))))
      ensures status == if TransferRaises(qube) then TransferStatus(qube)
                        else if terminated then CANCELLED
                        else if EntryRaises(qube) then TransferStatus(qube)
                        else RunStatus(qube)
    {
      var code := OK;
      if !qube.admin {
        var transfer := TransferAgent();
        if transfer.Raised? {
          return Raised;
        }
        code := Max(code, transfer.code);
      }
      if terminated {
        status := CANCELLED;
        return Returned(SIGINT);
      }
      var run := RunEntrypoint();
      if run.Raised? {
        return Raised;
      }
      code := Max(code, run.code);
      var _ := RunAndWait(qube.logs);
      call := Returned(code);
    }
  }

  /** `update_qube` together with the agent manager's `_run_agent`. */
  method UpdateQube(q: Qube, notifier: StatusNotifier, first: bool, second: bool)
    returns (code: int, launched: bool)
    modifies notifier
    ensures notifier.log == old(notifier.log) + Trace(q, first, second).messages
    ensures code == Trace(q, first, second).code
    ensures launched == Trace(q, first, second).launched
  {
    launched := false;
    if first {
      notifier.Put(Message(BarName(q), Done(CANCELLED)));
      return SIGINT, false;
    }
    if q.setupRaises {
      notifier.Put(Message(BarName(q), Done(ERROR)));
      return ERR_VM_UNHANDLED, false;
    }
    var connection := new QubeConnection(q, notifier);
    connection.Enter();
    var body := connection.Body(second);
    launched := connection.launched;
    var raised := connection.Leave();
    if raised || body.Raised? {
      notifier.Put(Message(BarName(q), Done(ERROR)));
      return ERR_VM_UNHANDLED, launched;
    }
    code := body.code;
  }

  // ---------------------------------------------------------------- accounting

  predicate NoDone(log: seq<Message>) {
    forall m | m in log :: !m.info.Done?
  }

  /** The reader threads never put a DONE. */
  predicate QuietReaders(q: Qube) {
    forall r | r in q.reports :: !r.Done?
  }

  function DoneCount(log: seq<Message>): nat {
    if log == [] then 0
    else DoneCount(log[..|log| - 1]) + if log[|log| - 1].info.Done? then 1 else 0
  }

  lemma {:induction false} DoneCountAppend(a: seq<Message>, b: seq<Message>)
    ensures DoneCount(a + b) == DoneCount(a) + DoneCount(b)
  {
    if b == [] {
      assert a + b == a;
    } else {
      assert (a + b)[..|a + b| - 1] == a + b[..|b| - 1];
      DoneCountAppend(a, b[..|b| - 1]);
    }
  }

  lemma {:induction false} NoDoneCount(log: seq<Message>)
    requires NoDone(log)
    ensures DoneCount(log) == 0
  {
    if log != [] {
      NoDoneCount(log[..|log| - 1]);
    }
  }

  /** The broad handler runs although `__exit__` has already put DONE. */
  predicate DoubleDone(q: Qube, first: bool, second: bool) {
    && !first
    && !q.setupRaises
    && (TransferRaises(q) || q.exitRaises || (!second && EntryRaises(q)))
  }

  /** `out` is `n` DONEs after messages that are not DONE. */
  predicate EndsInDones(out: seq<Message>, n: nat) {
    && DoneCount(out) == n <= |out|
    && NoDone(out[..|out| - n])
    && (forall k | |out| - n <= k < |out| :: out[k].info.Done?)
  }

  lemma ThenDone(before: seq<Message>, n: nat, m: Message)
    requires EndsInDones(before, n) && m.info.Done?
    ensures EndsInDones(before + [m], n + 1)
  {
    var out := before + [m];
    assert out[..|out| - 1] == before;
    assert out[..|out| - (n + 1)] == before[..|before| - n];
  }

  lemma ReportedHasNoDone(q: Qube)
    requires QuietReaders(q)
    ensures EndsInDones(Reported(q), 0)
  {
    NoDoneCount(Reported(q));
  }

  lemma LeaveAccounting(q: Qube, before: seq<Message>, status: FinalStatus, raised: bool, code: int, launched: bool)
    requires EndsInDones(before, 0)
    ensures EndsInDones(Leave(q, before, status, raised, code, launched).messages, if raised || q.exitRaises then 2 else 1)
  {
    var first := Message(ConnectionName(q), Done(status));
    ThenDone(before, 0, first);
    if raised || q.exitRaises {
      ThenDone(before + [first], 1, Message(BarName(q), Done(ERROR)));
    }
  }

  /**
   Every path puts at least one DONE, and after everything else; it puts two exactly when the
   broad handler is reached after the connection was left.
   */
  lemma DoneAccounting(q: Qube, first: bool, second: bool)
    requires QuietReaders(q)
    ensures EndsInDones(Trace(q, first, second).messages, if DoubleDone(q, first, second) then 2 else 1)
  {
    ReportedHasNoDone(q);
    if first {
      ThenDone([], 0, Message(BarName(q), Done(CANCELLED)));
    } else if q.setupRaises {
      ThenDone([], 0, Message(BarName(q), Done(ERROR)));
    } else if TransferRaises(q) {
      LeaveAccounting(q, [], TransferStatus(q), true, ERR_VM_UNHANDLED, false);
    } else if second {
      LeaveAccounting(q, [], CANCELLED, false, SIGINT, false);
    } else if EntryRaises(q) {
      LeaveAccounting(q, Reported(q), TransferStatus(q), true, ERR_VM_UNHANDLED, true);
    } else {
      LeaveAccounting(q, Reported(q), RunStatus(q), false, Max(TransferCode(q), Max(OK, WaitCode(q.entry))), true);
    }
  }

  /** All messages of a qube go to its own bar, whatever the flag says, exactly for these qubes. */
  lemma NamesAgree(q: Qube)
    ensures (forall first: bool, second: bool, m: Message | m in Trace(q, first, second).messages :: m.qname == BarName(q))
            <==> ConsistentName(q) || q.setupRaises
  {
    if !ConsistentName(q) && !q.setupRaises {
      var out := Trace(q, false, true).messages;
      assert out[0].qname == ConnectionName(q) != BarName(q);
      assert out[0] in out;
    }
  }

  /** When SUCCESS is sent: the entrypoint ran, did not raise and its own code was not positive. */
  lemma SuccessMeans(q: Qube, first: bool, second: bool)
    requires QuietReaders(q)
    ensures (exists m :: m in Trace(q, first, second).messages && m.info == Done(SUCCESS))
            <==> && Trace(q, first, second).launched
                 && q.entry.Exit? && q.entry.code <= OK
                 && TransferStatus(q) != NO_UPDATES && !SaysNoUpdates(q.logs)
  {
    var out := Trace(q, first, second);
    forall m | m in Reported(q) ensures !m.info.Done? {}
    if out.launched && q.entry.Exit? && q.entry.code <= OK
      && TransferStatus(q) != NO_UPDATES && !SaysNoUpdates(q.logs) {
      assert Message(ConnectionName(q), Done(SUCCESS)) in out.messages;
    }
  }

  /** An entrypoint killed by a signal (negative code) is reported as SUCCESS with code 0. */
  lemma KilledEntrypointSucceeds(q: Qube, signal: int)
    requires signal < 0 && q.entry == Exit(signal)
    requires q.admin && !q.setupRaises && !q.exitRaises && !SaysNoUpdates(q.logs)
    ensures var out := Trace(q, false, false);
            && out.messages == Reported(q) + [Message(ConnectionName(q), Done(SUCCESS))]
            && out.code == OK
  {
    assert TransferStatus(q) == ERROR;
  }

  /** CANCELLED is sent exactly when a flag read said so, and then the entrypoint never ran. */
  lemma CancelledMeans(q: Qube, first: bool, second: bool)
    requires QuietReaders(q)
    ensures (exists m :: m in Trace(q, first, second).messages && m.info == Done(CANCELLED))
            <==> first || (ReachesSecondCheck(q) && second)
    ensures (exists m :: m in Trace(q, first, second).messages && m.info == Done(CANCELLED))
            ==> !Trace(q, first, second).launched
  {
    var out := Trace(q, first, second);
    forall m | m in Reported(q) ensures !m.info.Done? {}
    if first {
      assert Message(BarName(q), Done(CANCELLED)) in out.messages;
    } else if ReachesSecondCheck(q) && second {
      assert Message(ConnectionName(q), Done(CANCELLED)) in out.messages;
    }
  }

  /** The code 100 never leaves a worker, and no worker hands back a negative code. */
  lemma NoUpdatesCodeIsCaptured(q: Qube, first: bool, second: bool)
    ensures Trace(q, first, second).code != OK_NO_UPDATES
    ensures Trace(q, first, second).code >= OK
  {
    assert forall c :: WaitCode(c) != OK_NO_UPDATES;
  }
}
