/**
 What a worker sends and returns, told from its inputs alone: which command ended how, and which step
 raised.
 */
module WorkerFacts {
  import opened ExitCodes
  import opened Worker
  import opened Feeder

  /** Archiving the agent or copying it raises; copying is only tried if the directory was made. */
  predicate SendingRaises(q: Qube) {
    !q.admin && (q.archiveRaises || (q.mkdir in {Exit(0), Exit(100)} && q.copy == CopyRaises))
  }

  /** A reader thread or the start of the entrypoint raises, and nothing catches it. */
  predicate ReportingRaises(q: Qube) {
    q.showProgress && q.entry == Fault
  }

  /** Some step after the first message could be put raises. */
  predicate Handled(q: Qube, second: bool) {
    SendingRaises(q) || q.exitRaises || (!second && ReportingRaises(q))
  }

  /** One of the commands that send the agent ended with 100. */
  predicate SendingSaysNoUpdates(q: Qube) {
    !q.admin && !q.archiveRaises
    && (q.mkdir == Exit(100) || (q.mkdir == Exit(0) && q.copy == CopyOk && q.untar == Exit(100)))
  }

  predicate Sends(out: Outcome, status: FinalStatus) {
    exists m :: m in out.messages && m.info == Done(status)
  }

  /** What a failing command is worth: its positive code, or 1 if it could not be run. */
  function Failure(c: Command): int {
    match c
    case Exit(code) => if code <= 0 || code == 100 then 0 else code
    case Fault => 1
  }

  // ---------------------------------------------------------------- reads of a set flag

  /** A worker that first looks at the flag after SIGINT does nothing but say so. */
  lemma CancelledAtOnce(q: Qube, second: bool)
    ensures Trace(q, true, second) == Outcome([Message(BarName(q), Done(CANCELLED))], 130, false)
  {}

  /** One that looks for the second time after SIGINT leaves without starting the entrypoint. */
  lemma CancelledLate(q: Qube)
    requires !q.setupRaises && !SendingRaises(q) && !q.exitRaises
    ensures Trace(q, false, true) == Outcome([Message(ConnectionName(q), Done(CANCELLED))], 130, false)
  {}

  // ---------------------------------------------------------------- exceptions

  /** If set-up raises, one DONE with ERROR is all there is, and the code is 26. */
  lemma SetupFails(q: Qube, second: bool)
    requires q.setupRaises
    ensures Trace(q, false, second) == Outcome([Message(BarName(q), Done(ERROR))], 26, false)
  {}

  /** If anything raises later, the last message is a DONE with ERROR, after the connection's own, and the code is 26. */
  lemma HandlerMeans(q: Qube, second: bool)
    requires !q.setupRaises && Handled(q, second)
    ensures var out := Trace(q, false, second);
            && out.code == 26 && |out.messages| >= 2
            && out.messages[|out.messages| - 1] == Message(BarName(q), Done(ERROR))
            && out.messages[|out.messages| - 2].qname == ConnectionName(q)
            && out.messages[|out.messages| - 2].info.Done?
  {}

  // ---------------------------------------------------------------- messages

  /** The entrypoint is started exactly if nothing raised before and neither look at the flag saw SIGINT. */
  lemma LaunchedIff(q: Qube, first: bool, second: bool)
    ensures Trace(q, first, second).launched <==> !first && !second && !q.setupRaises && !SendingRaises(q)
  {}

  /** Before the DONEs come exactly the reader threads' reports, if the entrypoint was started with progress. */
  lemma MessagesMean(q: Qube, first: bool, second: bool)
    ensures var out := Trace(q, first, second);
            var n := if out.launched && q.showProgress then |q.reports| else 0;
            && n < |out.messages| <= n + 2
            && (forall k | 0 <= k < n :: out.messages[k] == Message(ConnectionName(q), q.reports[k]))
            && (forall k | n <= k < |out.messages| :: out.messages[k].info.Done?)
  {}

  lemma OnlyDones(q: Qube, first: bool, second: bool, status: FinalStatus)
    requires QuietReaders(q)
    ensures var out := Trace(q, first, second).messages;
            Sends(Trace(q, first, second), status)
            <==> || (out[|out| - 1].info == Done(status))
                 || (|out| >= 2 && out[|out| - 2].info == Done(status))
  {
    hide Trace;
    var out := Trace(q, first, second).messages;
    MessagesMean(q, first, second);
    assert out[|out| - 1] in out;
    if |out| >= 2 {
      assert out[|out| - 2] in out;
    }
    if Sends(Trace(q, first, second), status) {
      var k :| 0 <= k < |out| && out[k].info == Done(status);
    }
  }

  // ---------------------------------------------------------------- statuses

  /** NO_UPDATES is sent exactly if a command that was run ended with 100, and no later look at the flag replaced it. */
  lemma NoUpdatesIff(q: Qube, first: bool, second: bool)
    requires QuietReaders(q)
    ensures Sends(Trace(q, first, second), NO_UPDATES)
            <==> && !first && !q.setupRaises
                 && if SendingRaises(q) then SendingSaysNoUpdates(q)
                    else && !second
                         && (|| SendingSaysNoUpdates(q)
                             || (!ReportingRaises(q) && (q.entry == Exit(100) || q.logs == Exit(100))))
  {
    OnlyDones(q, first, second, NO_UPDATES);
  }

  /** ERROR is sent exactly if something raised, or the entrypoint failed and no command said "no updates". */
  lemma ErrorIff(q: Qube, first: bool, second: bool)
    requires QuietReaders(q)
    ensures Sends(Trace(q, first, second), ERROR)
            <==> && !first
                 && (|| q.setupRaises
                     || Handled(q, second)
                     || (!second && Failure(q.entry) > 0 && q.logs != Exit(100) && !SendingSaysNoUpdates(q)))
  {
    OnlyDones(q, first, second, ERROR);
  }

  // ---------------------------------------------------------------- codes

  /** What sending the agent counts for: the first command that fails, and nothing after a killed `mkdir`. */
  function SendingFailure(q: Qube): int {
    if q.admin then 0
    else if q.mkdir !in {Exit(0), Exit(100)} then Failure(q.mkdir)
    else if q.copy == CopyOsError then 1
    else Failure(q.untar)
  }

  /** Otherwise the code is the larger one of what sending the agent and the entrypoint count for. */
  lemma ReturnedCode(q: Qube)
    requires !q.setupRaises && !Handled(q, false)
    ensures Trace(q, false, false).code == Max(SendingFailure(q), Failure(q.entry))
  {}

  /** So a failing entrypoint after a good transfer hands on its own code. */
  lemma EntryCodeReturned(q: Qube)
    requires !q.setupRaises && !Handled(q, false) && Failure(q.entry) > 0
    requires q.admin || (q.mkdir == q.untar == Exit(0) && q.copy == CopyOk)
    ensures q.entry == Fault ==> Trace(q, false, false).code == 1
    ensures q.entry.Exit? ==> Trace(q, false, false).code == q.entry.code
  {
    ReturnedCode(q);
  }
}
