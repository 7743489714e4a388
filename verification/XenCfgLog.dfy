/** Histories of installations and removals, starting from any file. */
module XenCfgLog {
  import opened ExitCodes
  import opened XenCfg
  import opened XenCfgHistory
  import opened XenCfgRuns

  datatype Op = Install(kver: string) | Uninstall(kver: string)

  ghost predicate Good(f: File) {
    ValidFile(f) && PlainDefaults(f.lines)
  }

  /** Nobody uninstalls the current default, or the section in which it is read. */
  ghost predicate Spares(f: File, op: Op) {
    op.Uninstall? ==> Default(f) != Some(op.kver) && ReadsNoDefault(f.lines, op.kver)
  }

  ghost function Do(f: File, op: Op): File
    requires ValidFile(f)
  {
    match op
    case Install(kver) => Added(f, kver)
    case Uninstall(kver) => Removed(f, kver)
  }

  ghost predicate IsHistory(f: File, ops: seq<Op>)
    decreases |ops|
  {
    ValidFile(f) && (ops == [] || (ValidKver(ops[0].kver) && IsHistory(Do(f, ops[0]), ops[1..])))
  }

  ghost function After(f: File, ops: seq<Op>): File
    requires IsHistory(f, ops)
    decreases |ops|
  {
    if ops == [] then f else After(Do(f, ops[0]), ops[1..])
  }

  /** At no time in this history. */
  ghost predicate SparesAll(f: File, ops: seq<Op>)
    requires IsHistory(f, ops)
    decreases |ops|
  {
    ops == [] || (Spares(f, ops[0]) && SparesAll(Do(f, ops[0]), ops[1..]))
  }

  /** The first operation that is not the installation of a kernel the file already mentions. */
  ghost function FirstChange(f: File, ops: seq<Op>): Option<Op> {
    if ops == [] then None
    else if ops[0].Install? && Mentions(f, ops[0].kver) then FirstChange(f, ops[1..])
    else Some(ops[0])
  }

  // ---------------------------------------------------------------- one operation

  lemma DoGood(f: File, op: Op)
    requires Good(f) && ValidKver(op.kver)
    ensures Good(Do(f, op))
  {
    if op.Install? {
      AddedIsValid(f, op.kver);
      AddedPlain(f, op.kver);
    } else {
      RemovedPlain(f.lines, op.kver);
    }
  }

  /** A removal and an appended section both leave a file that ends with a newline. */
  lemma DoTerminates(f: File, op: Op)
    requires ValidFile(f)
    ensures f.terminated || op.Uninstall? || (!Mentions(f, op.kver) && FindAll(f.lines).found.Some?) ==> Do(f, op).terminated
  {
    if op.Install? && FindAll(f.lines).found.Some? {
      NewSectionLines(f.lines, op.kver);
    }
  }

  /** One operation keeps `default=` resolving, exactly if it does not lose the new section's header. */
  lemma DoResolves(f: File, op: Op)
    requires Good(f) && ValidKver(op.kver) && Spares(f, op)
    ensures Default(Do(f, op)).Some? <==> Default(f).Some? && !(op.Install? && Loses(f, op.kver))
  {
    if op.Install? {
      AddedResolvesIff(f, op.kver);
    } else {
      RemovedResolves(f, op.kver);
    }
  }

  /** One operation leaves another kernel's body as it was, up to `default=` lines, exactly if it is not absorbed there. */
  lemma DoKeepsBodies(f: File, op: Op, name: string)
    requires ValidFile(f) && op.kver != name
    ensures RedirectAll(Body(Do(f, op).lines, name), "") == RedirectAll(Body(f.lines, name), "")
            <==> !(op.Install? && Absorbs(f, op.kver, name))
  {
    hide Body, RedirectAll;
    if op.Uninstall? {
      RemovedBodies(f.lines, op.kver, name);
    } else if !Mentions(f, op.kver) {
      AddedBodiesIff(f, op.kver, name, "");
    }
  }

  // ---------------------------------------------------------------- the default

  /** A terminated file keeps its default over every history. */
  lemma {:induction false} HistoryResolves(f: File, ops: seq<Op>)
    requires Good(f) && IsHistory(f, ops) && SparesAll(f, ops) && f.terminated && Default(f).Some?
    ensures Default(After(f, ops)).Some?
    decreases |ops|
  {
    hide FindAll, Mentions;
    if ops != [] {
      DoGood(f, ops[0]);
      DoTerminates(f, ops[0]);
      DoResolves(f, ops[0]);
      HistoryResolves(Do(f, ops[0]), ops[1..]);
    }
  }

  /** A default that is lost stays lost, whatever is installed or removed. */
  lemma {:induction false} LostStaysLost(f: File, ops: seq<Op>)
    requires Good(f) && IsHistory(f, ops) && SparesAll(f, ops) && Default(f).None?
    ensures Default(After(f, ops)).None?
    decreases |ops|
  {
    hide FindAll, Mentions;
    if ops != [] {
      DoGood(f, ops[0]);
      DoResolves(f, ops[0]);
      LostStaysLost(Do(f, ops[0]), ops[1..]);
    }
  }

  /**
   Over every history from any file whose default resolves, it resolves at the end exactly if the first
   operation that changes anything does not lose the new section's header.
   */
  lemma {:induction false} HistoryResolvesIff(f: File, ops: seq<Op>)
    requires Good(f) && IsHistory(f, ops) && SparesAll(f, ops) && Default(f).Some?
    ensures var first := FirstChange(f, ops);
            Default(After(f, ops)).Some? <==> !(first.Some? && first.value.Install? && Loses(f, first.value.kver))
    decreases |ops|
  {
    hide FindAll, Mentions, Loses;
    if ops != [] {
      var op := ops[0];
      if op.Install? && Mentions(f, op.kver) {
        HistoryResolvesIff(f, ops[1..]);
      } else {
        DoGood(f, op);
        DoTerminates(f, op);
        DoResolves(f, op);
        if Default(Do(f, op)).Some? {
          HistoryResolves(Do(f, op), ops[1..]);
        } else {
          LostStaysLost(Do(f, op), ops[1..]);
        }
      }
    }
  }

  lemma {:induction false} FirstChangeIsNew(f: File, ops: seq<Op>)
    requires IsHistory(f, ops) && FirstChange(f, ops).Some? && FirstChange(f, ops).value.Install?
    ensures ValidKver(FirstChange(f, ops).value.kver) && !Mentions(f, FirstChange(f, ops).value.kver)
    decreases |ops|
  {
    hide Mentions;
    if ops[0].Install? && Mentions(f, ops[0].kver) {
      FirstChangeIsNew(f, ops[1..]);
    }
  }

  /**
   If `default=` gives a name: it resolves after the history exactly if the file ends with a newline, or
   nothing changes, or a removal comes before the first installation of a kernel not mentioned yet.
   */
  lemma NamedDefaultResolvesIff(f: File, ops: seq<Op>)
    requires Good(f) && IsHistory(f, ops) && SparesAll(f, ops) && Default(f).Some? && Default(f).value != ""
    ensures Default(After(f, ops)).Some?
            <==> f.terminated || FirstChange(f, ops).None? || FirstChange(f, ops).value.Uninstall?
  {
    hide FindAll, Mentions, Loses, IsHistory, After, SparesAll;
    HistoryResolvesIff(f, ops);
    var first := FirstChange(f, ops);
    if first.Some? && first.value.Install? {
      FirstChangeIsNew(f, ops);
      LosesIff(f, first.value.kver);
    }
  }

  // ---------------------------------------------------------------- the bodies

  ghost predicate Calm(f: File) {
    f.terminated || Default(f).None?
  }

  lemma DoStaysCalm(f: File, op: Op)
    requires Good(f) && Calm(f) && ValidKver(op.kver)
    ensures Calm(Do(f, op))
  {
    hide FindAll, Mentions;
    DoTerminates(f, op);
    if op.Install? {
      AddedResolvesIff(f, op.kver);
    }
  }

  lemma {:induction false} CalmKeepsBodies(f: File, ops: seq<Op>, name: string)
    requires Good(f) && Calm(f) && IsHistory(f, ops) && forall op | op in ops :: op.kver != name
    ensures RedirectAll(Body(After(f, ops).lines, name), "") == RedirectAll(Body(f.lines, name), "")
    decreases |ops|
  {
    hide FindAll, Mentions, Body, RedirectAll;
    if ops != [] {
      DoGood(f, ops[0]);
      DoStaysCalm(f, ops[0]);
      DoKeepsBodies(f, ops[0], name);
      CalmKeepsBodies(Do(f, ops[0]), ops[1..], name);
    }
  }

  /**
   Over every history, also one that removes the current default, a section nobody installs or uninstalls
   keeps its body, up to `default=` lines, exactly if the first operation that changes anything is not absorbed there.
   */
  lemma {:induction false} HistoryKeepsBodiesIff(f: File, ops: seq<Op>, name: string)
    requires Good(f) && IsHistory(f, ops) && forall op | op in ops :: op.kver != name
    ensures var first := FirstChange(f, ops);
            RedirectAll(Body(After(f, ops).lines, name), "") == RedirectAll(Body(f.lines, name), "")
            <==> !(first.Some? && first.value.Install? && Absorbs(f, first.value.kver, name))
    decreases |ops|
  {
    hide FindAll, Mentions, Body, RedirectAll, Inside, NewBody;
    if ops != [] {
      var op := ops[0];
      if op.Install? && Mentions(f, op.kver) {
        HistoryKeepsBodiesIff(f, ops[1..], name);
      } else {
        DoGood(f, op);
        DoTerminates(f, op);
        if !Do(f, op).terminated {
          DoStaysCalm(f, op);
        }
        DoKeepsBodies(f, op, name);
        CalmKeepsBodies(Do(f, op), ops[1..], name);
      }
    }
  }
}
