/**
 Exit codes and final statuses shared by the dom0 side of the updater and by the agent that
 runs inside a qube.
 */
module ExitCodes {
  const OK: int := 0
  const OK_NO_UPDATES: int := 100
  const ERR: int := 1
  const ERR_SHUTDOWN_TMPL: int := 11
  const ERR_SHUTDOWN_APP: int := 12
  const ERR_START_APP: int := 13
  const VM_HANDLED: set<int> := {0, 100, 21, 22, 23, 24, 25}
  const ERR_VM: int := 21
  const ERR_VM_PRE: int := 22
  const ERR_VM_REFRESH: int := 23
  const ERR_VM_UPDATE: int := 24
  const ERR_VM_CLEANUP: int := 25
  const ERR_VM_UNHANDLED: int := 26
  const ERR_QREXEX: int := 40
  const ERR_USAGE: int := 64
  const SIGINT: int := 130

  datatype FinalStatus = SUCCESS | ERROR | CANCELLED | NO_UPDATES | UNKNOWN

  type Statuses = map<string, FinalStatus>

  datatype Option<+T> = None | Some(value: T)

  function Max(a: int, b: int): int {
    if a < b then b else a
  }
}
