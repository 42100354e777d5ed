/** Completion rules of a process over its steps, children and object bindings. */
module Completion {
  import opened Basics
  import opened Tables
  import opened StepObjects

  predicate TerminalStep(status: StepStatus) { status.Completed? || status.Canceled? }

  predicate HasSteps(steps: seq<Step>, p: nat) {
    exists s :: 0 <= s < |steps| && steps[s].process == p
  }

  predicate AllTerminal(steps: seq<Step>, p: nat) {
    forall s :: 0 <= s < |steps| && steps[s].process == p ==> TerminalStep(steps[s].status)
  }

  predicate NoActiveChild(procs: seq<Process>, p: nat) {
    forall c :: 0 <= c < |procs| && procs[c].link.Some? && procs[c].link.value.parent == p ==> Terminal(procs[c].status)
  }

  predicate AllBindingsValid(flags: Flags, db: Db, p: nat) {
    forall s: nat :: s < |db.steps| && db.steps[s].process == p ==> BindingsValid(flags, db, s)
  }

  /** What `canComplete` promises. */
  predicate CanComplete(flags: Flags, db: Db, p: nat) {
    && HasSteps(db.steps, p)
    && AllTerminal(db.steps, p)
    && NoActiveChild(db.procs, p)
    && AllBindingsValid(flags, db, p)
  }
}
