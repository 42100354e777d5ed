/** The parent/child protocol invariant, on the three tables it speaks about, and the small
    moves all transactions are made of. */
module Protocol {
  import opened Basics
  import opened Tables

  // ----- the invariant -----

  /** Parents are older than their children, and a link names a call_process step of the
      parent; tenant and failure policy are inherited. */
  ghost predicate LinkOk(procs: seq<Process>, steps: seq<Step>, c: nat)
    requires c < |procs| && procs[c].link.Some?
  {
    var l := procs[c].link.value;
    && l.parent < c
    && l.step < |steps|
    && steps[l.step].process == l.parent
    && steps[l.step].taskType.CallProcess?
    && procs[c].tenant == procs[l.parent].tenant
    && procs[c].policy == procs[l.parent].policy
  }

  ghost predicate SameCallStep(a: Process, b: Process) {
    a.link.Some? && b.link.Some? && a.link.value.step == b.link.value.step
  }

  ghost predicate Forest(procs: seq<Process>, steps: seq<Step>) {
    && Refs(procs, steps)
    && (forall c :: 0 <= c < |procs| && procs[c].link.Some? ==> LinkOk(procs, steps, c))
    && (forall c, d :: 0 <= c < |procs| && 0 <= d < |procs| && SameCallStep(procs[c], procs[d]) ==> c == d)
  }

  /** Process `p` was canceled through one of its own call steps. */
  ghost predicate FailedByChild(steps: seq<Step>, p: nat) {
    exists s :: 0 <= s < |steps| && steps[s].process == p && steps[s].status.Canceled?
  }

  /** What the status of a call step says about its child `c`. */
  ghost predicate CallStepOk(procs: seq<Process>, steps: seq<Step>, notices: seq<Notice>, c: nat)
    requires c < |procs| && procs[c].link.Some? && Refs(procs, steps)
  {
    var child := procs[c];
    var l := child.link.value;
    match steps[l.step].status
    case Blocked =>
      && (child.status.Finished? ==> ChildFinished(c) in notices)
      && (child.status.Aborted? ==>
            ChildAborted(c) in notices || child.policy.PauseParent? || FailedByChild(steps, c))
    case Completed => child.status.Finished? || (child.status.Aborted? && child.policy.Ignore?)
    case Canceled => child.status.Aborted? && child.policy.FailParent? && procs[l.parent].status.Aborted?
    case Pending => false
    case Ready => false
    case InProgress => false
  }

  ghost predicate CallSteps(procs: seq<Process>, steps: seq<Step>, notices: seq<Notice>)
    requires Refs(procs, steps)
  {
    && (forall c :: 0 <= c < |procs| && procs[c].link.Some? ==> CallStepOk(procs, steps, notices, c))
    && (forall s :: 0 <= s < |steps| && (steps[s].status.Blocked? || steps[s].status.Canceled?) ==> HasChild(procs, s))
  }

  ghost predicate ReasonOk(step: Step) {
    && (step.reason.WaitingChild? <==> step.status.Blocked?)
    && (step.reason.ChildFailed? <==> step.status.Canceled?)
  }

  ghost predicate FinishedAreDone(procs: seq<Process>, steps: seq<Step>) {
    forall p :: 0 <= p < |procs| && procs[p].status.Finished? ==> AllDone(steps, p)
  }

  ghost predicate NoticeOk(procs: seq<Process>, steps: seq<Step>, n: Notice) {
    match n
    case ChildFinished(c) => c < |procs| && procs[c].link.Some? && procs[c].status.Finished?
    case ChildAborted(c) => c < |procs| && procs[c].status.Aborted?
    case ResumeStep(s) => s < |steps| && steps[s].status.Completed? && HasChild(procs, s)
  }

  ghost predicate AbortedChild(proc: Process, s: nat) {
    ChildOf(proc, s) && proc.status.Aborted?
  }

  /** Step `s` still has a resumption coming, or its child was canceled. */
  ghost predicate WillResume(procs: seq<Process>, notices: seq<Notice>, s: nat) {
    ResumeStep(s) in notices || exists c :: 0 <= c < |procs| && AbortedChild(procs[c], s)
  }

  /** A child process whose steps are all completed is itself completed, or will be. */
  ghost predicate NotStuck(procs: seq<Process>, steps: seq<Step>, notices: seq<Notice>, p: nat)
    requires p < |procs|
  {
    procs[p].link.Some? && procs[p].status.Active? && AllDone(steps, p) ==>
      exists s :: 0 <= s < |steps| && steps[s].process == p && WillResume(procs, notices, s)
  }

  /** `skip` names a process that the running transaction has yet to settle (-1: none). */
  ghost predicate Inv(procs: seq<Process>, steps: seq<Step>, notices: seq<Notice>, skip: int) {
    && Forest(procs, steps)
    && CallSteps(procs, steps, notices)
    && (forall s :: 0 <= s < |steps| ==> ReasonOk(steps[s]))
    && FinishedAreDone(procs, steps)
    && (forall n :: n in notices ==> NoticeOk(procs, steps, n))
    && (forall p :: 0 <= p < |procs| && p != skip ==> NotStuck(procs, steps, notices, p))
  }

  // ----- moves -----

  ghost predicate SameSkeleton(a: Process, b: Process) {
    a.link == b.link && a.status == b.status && a.policy == b.policy && a.tenant == b.tenant
  }

  /** Contexts and subjects play no part in the protocol. */
  lemma SkeletonKeepsInv(procs: seq<Process>, procs': seq<Process>, steps: seq<Step>, notices: seq<Notice>, skip: int)
    requires Inv(procs, steps, notices, skip)
    requires |procs'| == |procs| && forall i :: 0 <= i < |procs| ==> SameSkeleton(procs[i], procs'[i])
    ensures Inv(procs', steps, notices, skip)
  {
    forall s | HasChild(procs, s) ensures HasChild(procs', s) {
      var c :| 0 <= c < |procs| && ChildOf(procs[c], s);
      assert ChildOf(procs'[c], s);
    }
    forall s | WillResume(procs, notices, s) ensures WillResume(procs', notices, s) {
      if ResumeStep(s) !in notices {
        var c :| 0 <= c < |procs| && AbortedChild(procs[c], s);
        assert AbortedChild(procs'[c], s);
      }
    }
    forall p | 0 <= p < |procs'| && p != skip ensures NotStuck(procs', steps, notices, p) {
      assert NotStuck(procs, steps, notices, p);
      assert SameSkeleton(procs[p], procs'[p]);
    }
    forall c | 0 <= c < |procs'| && procs'[c].link.Some?
      ensures LinkOk(procs', steps, c) && CallStepOk(procs', steps, notices, c)
    {
      assert SameSkeleton(procs[c], procs'[c]);
      assert LinkOk(procs, steps, c) && CallStepOk(procs, steps, notices, c);
      var p := procs[c].link.value.parent;
      assert SameSkeleton(procs[p], procs'[p]);
    }
    assert forall n :: n in notices ==> NoticeOk(procs, steps, n) ==> NoticeOk(procs', steps, n);
  }

  /** An idle step has no child. */
  lemma IdleHasNoChild(procs: seq<Process>, steps: seq<Step>, notices: seq<Notice>, skip: int, s: nat)
    requires Inv(procs, steps, notices, skip)
    requires s < |steps| && Idle(steps[s].status)
    ensures !HasChild(procs, s)
  {}

  /** A move settles, or unsettles, no process but the step's own. */
  lemma MoveKeepsOthersDone(steps: seq<Step>, s: nat, status: StepStatus)
    requires s < |steps| && Idle(steps[s].status)
    ensures var steps', p := steps[s := steps[s].(status := status)], steps[s].process;
      && (forall x :: 0 <= x < |steps| && x != s ==> steps'[x] == steps[x])
      && (forall q: nat :: q != p ==> (AllDone(steps', q) <==> AllDone(steps, q)))
      && !AllDone(steps, p) && (Idle(status) ==> !AllDone(steps', p))
  {
    var steps', p := steps[s := steps[s].(status := status)], steps[s].process;
    forall q: nat | q != p ensures AllDone(steps', q) <==> AllDone(steps, q) {
      AllDoneFrame(steps, steps', q);
    }
    assert steps'[s].process == p;
  }

  /** An idle step moves to another idle status, or completes; only its process can then
      need settling. */
  lemma MoveKeepsInv(procs: seq<Process>, steps: seq<Step>, notices: seq<Notice>, skip: int, s: nat, status: StepStatus)
    requires Inv(procs, steps, notices, skip)
    requires s < |steps| && Idle(steps[s].status)
    requires Idle(status) || status.Completed?
    requires status.Completed? ==> skip == -1 || skip == steps[s].process
    ensures Inv(procs, steps[s := steps[s].(status := status)], notices, if Idle(status) then skip else steps[s].process)
  {
    var steps' := steps[s := steps[s].(status := status)];
    var p := steps[s].process;
    IdleHasNoChild(procs, steps, notices, skip, s);
    MoveKeepsOthersDone(steps, s, status);
    forall c | 0 <= c < |procs| && procs[c].link.Some?
      ensures LinkOk(procs, steps', c) && CallStepOk(procs, steps', notices, c)
    {
      assert LinkOk(procs, steps, c) && CallStepOk(procs, steps, notices, c);
      assert ChildOf(procs[c], procs[c].link.value.step);
      if FailedByChild(steps, c) {
        var w :| 0 <= w < |steps| && steps[w].process == c && steps[w].status.Canceled?;
        assert steps'[w] == steps[w];
      }
    }
    forall q | 0 <= q < |procs| && q != (if Idle(status) then skip else p) ensures NotStuck(procs, steps', notices, q) {
      if q != p {
        assert NotStuck(procs, steps, notices, q);
        if procs[q].link.Some? && procs[q].status.Active? && AllDone(steps', q) {
          var w :| 0 <= w < |steps| && steps[w].process == q && WillResume(procs, notices, w);
          assert steps'[w].process == q;
        }
      }
    }
    forall n | n in notices ensures NoticeOk(procs, steps', n) {
      assert NoticeOk(procs, steps, n);
    }
  }

  ghost predicate FreshStep(step: Step, p: nat) {
    step.process == p && Idle(step.status) && step.reason.NoReason?
  }

  lemma HasChildGrows(procs: seq<Process>, proc: Process, s: nat)
    requires HasChild(procs, s)
    ensures HasChild(procs + [proc], s)
  {
    var c :| 0 <= c < |procs| && ChildOf(procs[c], s);
    assert ChildOf((procs + [proc])[c], s);
  }

  /** A pending call step gets a new child process and blocks. */
  lemma SpawnKeepsInv(procs: seq<Process>, steps: seq<Step>, notices: seq<Notice>, skip: int,
                      s: nat, child: Process, added: seq<Step>)
    requires Inv(procs, steps, notices, skip)
    requires s < |steps| && Idle(steps[s].status) && steps[s].taskType.CallProcess?
    requires child.link == Some(Link(steps[s].process, s)) && child.status.Active?
    requires child.tenant == procs[steps[s].process].tenant && child.policy == procs[steps[s].process].policy
    requires forall k :: 0 <= k < |added| ==> FreshStep(added[k], |procs|)
    ensures Inv(procs + [child], (steps + added)[s := steps[s].(status := Blocked, reason := WaitingChild)], notices, skip)
  {
    var procs' := procs + [child];
    var steps' := (steps + added)[s := steps[s].(status := Blocked, reason := WaitingChild)];
    GrowKeepsRest(procs, steps, notices, skip, child, added, steps', s);
    assert ChildOf(procs'[|procs|], s);
    assert !HasChild(procs, s);
    forall x | 0 <= x < |steps'| && (steps'[x].status.Blocked? || steps'[x].status.Canceled?) ensures HasChild(procs', x) {
      if x < |steps| && x != s { assert steps'[x] == steps[x]; HasChildGrows(procs, child, x); }
    }
    forall c | 0 <= c < |procs'| && procs'[c].link.Some? ensures LinkOk(procs', steps', c) && CallStepOk(procs', steps', notices, c) {
      if c < |procs| {
        assert LinkOk(procs, steps, c) && ChildOf(procs[c], procs[c].link.value.step);
        CallStepSurvivesGrowth(procs, steps, notices, skip, child, added, steps', s, c);
      }
    }
    forall c, d | 0 <= c < |procs'| && 0 <= d < |procs'| && SameCallStep(procs'[c], procs'[d]) ensures c == d {
      assert c < |procs| ==> !ChildOf(procs[c], s);
      assert d < |procs| ==> !ChildOf(procs[d], s);
    }
  }

  /** A process without parent appears. */
  lemma RootKeepsInv(procs: seq<Process>, steps: seq<Step>, notices: seq<Notice>, skip: int, root: Process, added: seq<Step>)
    requires Inv(procs, steps, notices, skip)
    requires root.link.None? && root.status.Active?
    requires forall k :: 0 <= k < |added| ==> FreshStep(added[k], |procs|)
    ensures Inv(procs + [root], steps + added, notices, skip)
  {
    var procs' := procs + [root];
    var steps' := steps + added;
    GrowKeepsRest(procs, steps, notices, skip, root, added, steps', -1);
    forall x | 0 <= x < |steps'| && (steps'[x].status.Blocked? || steps'[x].status.Canceled?) ensures HasChild(procs', x) {
      if x < |steps| { HasChildGrows(procs, root, x); }
    }
    forall c | 0 <= c < |procs'| && procs'[c].link.Some? ensures LinkOk(procs', steps', c) && CallStepOk(procs', steps', notices, c) {
      assert LinkOk(procs, steps, c);
      CallStepSurvivesGrowth(procs, steps, notices, skip, root, added, steps', -1, c);
    }
  }

  /** `steps'` is `steps` followed by fresh steps of the new process, but for one step `s`
      that went from idle to blocked (-1: none). */
  ghost predicate Grown(procs: seq<Process>, steps: seq<Step>, added: seq<Step>, steps': seq<Step>, s: int) {
    && |steps'| == |steps| + |added|
    && (forall x :: 0 <= x < |steps| && x != s ==> steps'[x] == steps[x])
    && (forall k :: 0 <= k < |added| ==> steps'[|steps| + k] == added[k] && FreshStep(added[k], |procs|))
    && (0 <= s < |steps| ==>
          (Idle(steps[s].status) && steps'[s] == steps[s].(status := Blocked, reason := WaitingChild)))
    && s < |steps|
  }

  lemma GrownDone(procs: seq<Process>, steps: seq<Step>, added: seq<Step>, steps': seq<Step>, s: int, p: nat)
    requires Grown(procs, steps, added, steps', s)
    requires forall x :: 0 <= x < |steps| ==> steps[x].process < |procs|
    ensures p < |procs| ==> (AllDone(steps', p) <==> AllDone(steps, p))
    ensures p == |procs| ==> !AllDone(steps', p)
  {
    assert forall x :: |steps| <= x < |steps'| ==> steps'[x] == added[x - |steps|];
    if p < |procs| {
      if AllDone(steps, p) {
        var w :| 0 <= w < |steps| && steps[w].process == p;
        assert steps'[w].process == p;
      }
      if AllDone(steps', p) {
        var w :| 0 <= w < |steps'| && steps'[w].process == p;
        assert steps[w].process == p;
        forall x | 0 <= x < |steps| && steps[x].process == p ensures steps[x].status.Completed? {
          assert steps'[x].process == p;
        }
      }
    }
  }

  lemma CallStepSurvivesGrowth(procs: seq<Process>, steps: seq<Step>, notices: seq<Notice>, skip: int, proc: Process,
                               added: seq<Step>, steps': seq<Step>, s: int, c: nat)
    requires Inv(procs, steps, notices, skip)
    requires Grown(procs, steps, added, steps', s)
    requires Refs(procs + [proc], steps')
    requires c < |procs| && procs[c].link.Some?
    ensures CallStepOk(procs + [proc], steps', notices, c)
  {
    assert LinkOk(procs, steps, c) && CallStepOk(procs, steps, notices, c);
    if FailedByChild(steps, c) {
      var w :| 0 <= w < |steps| && steps[w].process == c && steps[w].status.Canceled?;
      assert steps'[w] == steps[w];
    }
  }

  lemma GrowKeepsRest(procs: seq<Process>, steps: seq<Step>, notices: seq<Notice>, skip: int, proc: Process,
                      added: seq<Step>, steps': seq<Step>, s: int)
    requires Inv(procs, steps, notices, skip)
    requires proc.status.Active?
    requires proc.link.Some? ==> proc.link.value.parent < |procs| && proc.link.value.step < |steps|
    requires Grown(procs, steps, added, steps', s)
    ensures var procs' := procs + [proc];
      && Refs(procs', steps')
      && (forall x :: 0 <= x < |steps'| ==> ReasonOk(steps'[x]))
      && FinishedAreDone(procs', steps')
      && (forall n :: n in notices ==> NoticeOk(procs', steps', n))
      && (forall p :: 0 <= p < |procs'| && p != skip ==> NotStuck(procs', steps', notices, p))
  {
    var procs' := procs + [proc];
    forall x | 0 <= x < |steps'| ensures ReasonOk(steps'[x]) && steps'[x].process < |procs'| {
      if x < |steps| { assert ReasonOk(steps[x]); } else { assert steps'[x] == added[x - |steps|]; }
    }
    forall p: nat | p < |procs'| ensures p < |procs| ==> (AllDone(steps', p) <==> AllDone(steps, p))
                                 ensures p == |procs| ==> !AllDone(steps', p)
    {
      GrownDone(procs, steps, added, steps', s, p);
    }
    forall n | n in notices ensures NoticeOk(procs', steps', n) {
      assert NoticeOk(procs, steps, n);
      if n.ResumeStep? {
        var c :| 0 <= c < |procs| && ChildOf(procs[c], n.step);
        assert ChildOf(procs'[c], n.step);
      }
    }
    forall p | 0 <= p < |procs'| && p != skip ensures NotStuck(procs', steps', notices, p) {
      if p < |procs| && procs[p].link.Some? && procs[p].status.Active? && AllDone(steps', p) {
        assert NotStuck(procs, steps, notices, p);
        var w :| 0 <= w < |steps| && steps[w].process == p && WillResume(procs, notices, w);
        assert steps'[w].process == p;
        if ResumeStep(w) !in notices {
          var c :| 0 <= c < |procs| && AbortedChild(procs[c], w);
          assert AbortedChild(procs'[c], w);
        }
      }
    }
  }

  // ----- frames -----

  lemma AllDoneFrame(steps: seq<Step>, steps': seq<Step>, q: nat)
    requires |steps'| == |steps|
    requires forall x :: 0 <= x < |steps| ==> steps'[x].process == steps[x].process
    requires forall x :: 0 <= x < |steps| && steps[x].process == q ==> steps'[x].status == steps[x].status
    ensures AllDone(steps', q) <==> AllDone(steps, q)
  {
    if w :| 0 <= w < |steps| && steps[w].process == q {
      assert steps'[w].process == q;
    }
    if AllDone(steps', q) {
      forall x | 0 <= x < |steps| && steps[x].process == q ensures steps[x].status.Completed? {
        assert steps'[x].process == q;
      }
    }
  }

  /** Links stay and canceled processes stay canceled. */
  ghost predicate Continues(procs: seq<Process>, procs': seq<Process>) {
    && |procs'| == |procs|
    && forall x :: 0 <= x < |procs| ==> procs'[x].link == procs[x].link && (procs[x].status.Aborted? ==> procs'[x].status.Aborted?)
  }

  lemma HasChildFrame(procs: seq<Process>, procs': seq<Process>, s: nat)
    requires Continues(procs, procs') && HasChild(procs, s)
    ensures HasChild(procs', s)
  {
    var c :| 0 <= c < |procs| && ChildOf(procs[c], s);
    assert ChildOf(procs'[c], s);
  }

  lemma NotStuckFrame(procs: seq<Process>, procs': seq<Process>, steps: seq<Step>, steps': seq<Step>,
                      notices: seq<Notice>, notices': seq<Notice>, q: nat)
    requires Continues(procs, procs') && q < |procs| && NotStuck(procs, steps, notices, q)
    requires procs'[q].status.Active? ==> procs[q].status.Active?
    requires |steps'| == |steps| && forall x :: 0 <= x < |steps| ==> steps'[x].process == steps[x].process
    requires AllDone(steps', q) ==> AllDone(steps, q)
    requires forall s :: ResumeStep(s) in notices ==> ResumeStep(s) in notices'
    ensures NotStuck(procs', steps', notices', q)
  {
    if procs'[q].link.Some? && procs'[q].status.Active? && AllDone(steps', q) {
      var w :| 0 <= w < |steps| && steps[w].process == q && WillResume(procs, notices, w);
      assert steps'[w].process == q;
      if ResumeStep(w) !in notices {
        var c :| 0 <= c < |procs| && AbortedChild(procs[c], w);
        assert AbortedChild(procs'[c], w);
      }
      assert WillResume(procs', notices', w);
    }
  }

  // ----- process completion and notices -----

  lemma NoticeKeepsInv(procs: seq<Process>, steps: seq<Step>, notices: seq<Notice>, skip: int, n: Notice)
    requires Inv(procs, steps, notices, skip)
    requires NoticeOk(procs, steps, n)
    ensures Inv(procs, steps, notices + [n], skip)
  {
    var notices' := notices + [n];
    assert forall m :: m in notices' <==> m in notices || m == n;
    forall c | 0 <= c < |procs| && procs[c].link.Some? ensures CallStepOk(procs, steps, notices', c) {
      assert CallStepOk(procs, steps, notices, c);
    }
    forall p | 0 <= p < |procs| && p != skip ensures NotStuck(procs, steps, notices', p) {
      NotStuckFrame(procs, procs, steps, steps, notices, notices', p);
    }
  }

  /** Only the status of process `p` differs, and it had not reached an end before. */
  ghost predicate StatusSet(procs: seq<Process>, procs': seq<Process>, p: nat, status: ProcessStatus) {
    p < |procs| && procs' == procs[p := procs[p].(status := status)]
  }

  lemma StatusSetIsSkeleton(procs: seq<Process>, procs': seq<Process>, p: nat, status: ProcessStatus)
    requires StatusSet(procs, procs', p, status)
    requires procs[p].status.Aborted? ==> status.Aborted?
    ensures Continues(procs, procs')
    ensures forall x :: 0 <= x < |procs| ==> procs'[x].policy == procs[x].policy && procs'[x].tenant == procs[x].tenant
    ensures forall x :: 0 <= x < |procs| && x != p ==> procs'[x] == procs[x]
  {}

  lemma ForestFrame(procs: seq<Process>, procs': seq<Process>, steps: seq<Step>, steps': seq<Step>)
    requires Forest(procs, steps)
    requires |procs'| == |procs| && |steps'| == |steps|
    requires forall x :: 0 <= x < |procs| ==>
      procs'[x].link == procs[x].link && procs'[x].policy == procs[x].policy && procs'[x].tenant == procs[x].tenant
    requires forall x :: 0 <= x < |steps| ==>
      steps'[x].process == steps[x].process && steps'[x].taskType == steps[x].taskType
    ensures Forest(procs', steps')
  {
    forall c | 0 <= c < |procs'| && procs'[c].link.Some? ensures LinkOk(procs', steps', c) {
      assert LinkOk(procs, steps, c);
    }
    forall c, d | 0 <= c < |procs'| && 0 <= d < |procs'| && SameCallStep(procs'[c], procs'[d]) ensures c == d {
      assert SameCallStep(procs[c], procs[d]);
    }
  }

  /** An active process whose steps are all completed is marked completed; a child leaves its
      notice in the same commit. */
  lemma FinishKeepsInv(procs: seq<Process>, steps: seq<Step>, notices: seq<Notice>, p: nat)
    requires p < |procs| && Inv(procs, steps, notices, p)
    requires procs[p].status.Active? && AllDone(steps, p)
    ensures var finished := procs[p := procs[p].(status := Finished)];
      Inv(finished, steps, if procs[p].link.Some? then notices + [ChildFinished(p)] else notices, -1)
  {
    var procs' := procs[p := procs[p].(status := Finished)];
    var notices' := if procs[p].link.Some? then notices + [ChildFinished(p)] else notices;
    assert forall n :: n in notices' <==> n in notices || (procs[p].link.Some? && n == ChildFinished(p));
    StatusSetIsSkeleton(procs, procs', p, Finished);
    ForestFrame(procs, procs', steps, steps);
    forall s | HasChild(procs, s) ensures HasChild(procs', s) { HasChildFrame(procs, procs', s); }
    forall c | 0 <= c < |procs'| && procs'[c].link.Some? ensures CallStepOk(procs', steps, notices', c) {
      assert LinkOk(procs, steps, c) && CallStepOk(procs, steps, notices, c);
    }
    FinishedKeepsRest(procs, procs', steps, notices, notices', p);
  }

  lemma FinishedKeepsRest(procs: seq<Process>, procs': seq<Process>, steps: seq<Step>,
                          notices: seq<Notice>, notices': seq<Notice>, p: nat)
    requires Inv(procs, steps, notices, p)
    requires StatusSet(procs, procs', p, Finished) && procs[p].status.Active? && AllDone(steps, p)
    requires forall n :: n in notices' <==> n in notices || (procs[p].link.Some? && n == ChildFinished(p))
    ensures forall n :: n in notices' ==> NoticeOk(procs', steps, n)
    ensures forall q :: 0 <= q < |procs'| ==> NotStuck(procs', steps, notices', q)
  {
    StatusSetIsSkeleton(procs, procs', p, Finished);
    forall n | n in notices' ensures NoticeOk(procs', steps, n) {
      if n in notices { assert NoticeOk(procs, steps, n); }
    }
    forall q | 0 <= q < |procs'| ensures NotStuck(procs', steps, notices', q) {
      if q != p { NotStuckFrame(procs, procs', steps, steps, notices, notices', q); }
    }
  }

  /** Turning an unfinished process `p` into an aborted one disturbs nobody else's claims. */
  lemma AbortedKeepsRest(procs: seq<Process>, procs': seq<Process>, steps: seq<Step>, steps': seq<Step>,
                         notices: seq<Notice>, notices': seq<Notice>, p: nat)
    requires Inv(procs, steps, notices, -1)
    requires StatusSet(procs, procs', p, Aborted) && !procs[p].status.Finished?
    requires |steps'| == |steps| && forall x :: 0 <= x < |steps| ==> steps'[x].process == steps[x].process
    requires forall x :: 0 <= x < |steps| && steps[x].process != p ==> steps'[x] == steps[x]
    requires forall x :: 0 <= x < |steps| && steps[x].status.Completed? ==> steps'[x].status.Completed?
    requires forall n :: n in notices ==> n in notices'
    requires forall n :: n in notices' ==> n in notices || n == ChildAborted(p)
    ensures forall s :: HasChild(procs, s) ==> HasChild(procs', s)
    ensures FinishedAreDone(procs', steps')
    ensures forall n :: n in notices' ==> NoticeOk(procs', steps', n)
    ensures forall q :: 0 <= q < |procs'| ==> NotStuck(procs', steps', notices', q)
  {
    StatusSetIsSkeleton(procs, procs', p, Aborted);
    forall s | HasChild(procs, s) ensures HasChild(procs', s) { HasChildFrame(procs, procs', s); }
    forall q: nat | q < |procs| && q != p ensures AllDone(steps', q) <==> AllDone(steps, q) {
      AllDoneFrame(steps, steps', q);
    }
    forall n | n in notices' ensures NoticeOk(procs', steps', n) {
      if n in notices { assert NoticeOk(procs, steps, n); }
    }
    forall q | 0 <= q < |procs'| ensures NotStuck(procs', steps', notices', q) {
      if q != p { NotStuckFrame(procs, procs', steps, steps', notices, notices', q); }
    }
  }

  /** An active process is canceled from outside, and that is reported. */
  lemma AbortKeepsInv(procs: seq<Process>, steps: seq<Step>, notices: seq<Notice>, p: nat)
    requires p < |procs| && Inv(procs, steps, notices, -1)
    requires procs[p].status.Active?
    ensures Inv(procs[p := procs[p].(status := Aborted)], steps, notices + [ChildAborted(p)], -1)
  {
    var procs' := procs[p := procs[p].(status := Aborted)];
    var notices' := notices + [ChildAborted(p)];
    assert forall n :: n in notices' <==> n in notices || n == ChildAborted(p);
    AbortedKeepsRest(procs, procs', steps, steps, notices, notices', p);
    ForestFrame(procs, procs', steps, steps);
    forall c | 0 <= c < |procs'| && procs'[c].link.Some? ensures CallStepOk(procs', steps, notices', c) {
      assert LinkOk(procs, steps, c) && CallStepOk(procs, steps, notices, c);
    }
  }

  // ----- a terminal child is handled -----

  /** Other children keep what their call step says about them. */
  lemma OtherCallStep(procs: seq<Process>, steps: seq<Step>, notices: seq<Notice>, notices': seq<Notice>,
                      s: nat, step': Step, c: nat, d: nat)
    requires Inv(procs, steps, notices, -1)
    requires c < |procs| && d < |procs| && c != d && procs[c].link.Some? && procs[d].link.Some?
    requires procs[c].link.value.step == s < |steps|
    requires !steps[s].status.Canceled? || step'.status.Canceled?
    requires step'.process == steps[s].process
    requires forall n :: n in notices ==> n in notices'
    ensures Refs(procs, steps[s := step']) && CallStepOk(procs, steps[s := step'], notices', d)
  {
    var steps' := steps[s := step'];
    assert LinkOk(procs, steps, d) && CallStepOk(procs, steps, notices, d);
    assert !SameCallStep(procs[c], procs[d]);
    if FailedByChild(steps, d) {
      var w :| 0 <= w < |steps| && steps[w].process == d && steps[w].status.Canceled?;
      assert steps'[w].process == d && steps'[w].status.Canceled?;
    }
  }

  /** The call step completes: for a completed child with a resumption under way, for an
      ignored canceled one without. */
  lemma CompleteCallKeepsInv(procs: seq<Process>, steps: seq<Step>, notices: seq<Notice>, c: nat)
    requires c < |procs| && procs[c].link.Some? && Inv(procs, steps, notices, -1)
    requires procs[c].status.Finished? || (procs[c].status.Aborted? && procs[c].policy.Ignore?)
    ensures var s := procs[c].link.value.step;
      var steps' := steps[s := steps[s].(status := Completed, reason := NoReason)];
      Inv(procs, steps', if procs[c].status.Finished? then notices + [ResumeStep(s)] else notices, -1)
  {
    var l := procs[c].link.value;
    var s, p := l.step, l.parent;
    var steps' := steps[s := steps[s].(status := Completed, reason := NoReason)];
    var notices' := if procs[c].status.Finished? then notices + [ResumeStep(s)] else notices;
    assert forall n :: n in notices' <==> n in notices || (procs[c].status.Finished? && n == ResumeStep(s));
    assert LinkOk(procs, steps, c) && CallStepOk(procs, steps, notices, c) && ChildOf(procs[c], s);
    assert forall x :: 0 <= x < |steps| ==> steps'[x].process == steps[x].process && (x != s ==> steps'[x] == steps[x]);
    ForestFrame(procs, procs, steps, steps');
    forall d | 0 <= d < |procs| && procs[d].link.Some? ensures CallStepOk(procs, steps', notices', d) {
      if d != c { OtherCallStep(procs, steps, notices, notices', s, steps'[s], c, d); }
    }
    CompleteCallSettles(procs, steps, notices, notices', c);
    forall n | n in notices' ensures NoticeOk(procs, steps', n) {
      if n in notices { assert NoticeOk(procs, steps, n); }
    }
  }

  lemma CompleteCallSettles(procs: seq<Process>, steps: seq<Step>, notices: seq<Notice>, notices': seq<Notice>, c: nat)
    requires c < |procs| && procs[c].link.Some? && Inv(procs, steps, notices, -1)
    requires procs[c].status.Aborted? || ResumeStep(procs[c].link.value.step) in notices'
    requires forall n :: n in notices ==> n in notices'
    ensures var s := procs[c].link.value.step;
      var steps' := steps[s := steps[s].(status := Completed, reason := NoReason)];
      && FinishedAreDone(procs, steps')
      && forall q :: 0 <= q < |procs| ==> NotStuck(procs, steps', notices', q)
  {
    var l := procs[c].link.value;
    var s, p := l.step, l.parent;
    var steps' := steps[s := steps[s].(status := Completed, reason := NoReason)];
    assert LinkOk(procs, steps, c) && ChildOf(procs[c], s);
    forall q: nat | q < |procs| ensures AllDone(steps, q) ==> AllDone(steps', q)
                                ensures NotStuck(procs, steps', notices', q)
    {
      if q != p {
        AllDoneFrame(steps, steps', q);
        NotStuckFrame(procs, procs, steps, steps', notices, notices', q);
      } else {
        if AllDone(steps, q) { assert steps'[s].process == q; }
        assert steps'[s].process == q && (AbortedChild(procs[c], s) || ResumeStep(s) in notices');
        assert WillResume(procs, notices', s);
      }
    }
  }

  /** fail_parent: the call step and its process are canceled together. */
  lemma FailParentKeepsInv(procs: seq<Process>, steps: seq<Step>, notices: seq<Notice>, c: nat)
    requires c < |procs| && procs[c].link.Some? && Inv(procs, steps, notices, -1)
    requires procs[c].status.Aborted? && procs[c].policy.FailParent?
    ensures var l := procs[c].link.value;
      && !procs[l.parent].status.Finished?
      && !steps[l.step].status.Completed?
      && Inv(procs[l.parent := procs[l.parent].(status := Aborted)],
             steps[l.step := steps[l.step].(status := Canceled, reason := ChildFailed)], notices, -1)
  {
    var l := procs[c].link.value;
    var s, p := l.step, l.parent;
    var procs' := procs[p := procs[p].(status := Aborted)];
    var steps' := steps[s := steps[s].(status := Canceled, reason := ChildFailed)];
    assert LinkOk(procs, steps, c) && CallStepOk(procs, steps, notices, c) && ChildOf(procs[c], s);
    assert !AllDone(steps, p);
    AbortedKeepsRest(procs, procs', steps, steps', notices, notices, p);
    ForestFrame(procs, procs', steps, steps');
    assert FailedByChild(steps', p) by { assert steps'[s].process == p && steps'[s].status.Canceled?; }
    forall d | 0 <= d < |procs'| && procs'[d].link.Some? ensures CallStepOk(procs', steps', notices, d) {
      assert LinkOk(procs, steps, d);
      if d != c {
        OtherCallStep(procs, steps, notices, notices, s, steps'[s], c, d);
        assert CallStepOk(procs, steps', notices, d);
      }
      assert d == p || procs'[d] == procs[d];
    }
  }

  // ----- a handled notice is dropped -----

  function Without(notices: seq<Notice>, i: nat): seq<Notice>
    requires i < |notices|
  {
    notices[..i] + notices[i + 1..]
  }

  lemma WithoutMembers(notices: seq<Notice>, i: nat)
    requires i < |notices|
    ensures forall n :: n in Without(notices, i) ==> n in notices
    ensures forall n :: n in notices && n != notices[i] ==> n in Without(notices, i)
  {
    var rest := Without(notices, i);
    forall n | n in notices && n != notices[i] ensures n in rest {
      var k :| 0 <= k < |notices| && notices[k] == n;
      assert rest[if k < i then k else k - 1] == n;
    }
  }

  /** Nobody relies on the notice any more. */
  ghost predicate Spent(procs: seq<Process>, steps: seq<Step>, n: Notice) {
    match n
    case ChildFinished(c) =>
      c < |procs| && procs[c].link.Some? && procs[c].link.value.step < |steps| ==>
        !steps[procs[c].link.value.step].status.Blocked?
    case ChildAborted(c) =>
      c < |procs| && procs[c].link.Some? && procs[c].link.value.step < |steps| ==>
        procs[c].policy.PauseParent? || !steps[procs[c].link.value.step].status.Blocked?
    case ResumeStep(s) =>
      && s < |steps| && steps[s].process < |procs|
      && procs[steps[s].process].link.Some? && procs[steps[s].process].status.Active?
      ==> !AllDone(steps, steps[s].process)
  }

  lemma DropKeepsInv(procs: seq<Process>, steps: seq<Step>, notices: seq<Notice>, i: nat)
    requires Inv(procs, steps, notices, -1)
    requires i < |notices| && Spent(procs, steps, notices[i])
    ensures Inv(procs, steps, Without(notices, i), -1)
  {
    var notices' := Without(notices, i);
    WithoutMembers(notices, i);
    forall c | 0 <= c < |procs| && procs[c].link.Some? ensures CallStepOk(procs, steps, notices', c) {
      assert LinkOk(procs, steps, c) && CallStepOk(procs, steps, notices, c);
    }
    forall p | 0 <= p < |procs| ensures NotStuck(procs, steps, notices', p) {
      assert NotStuck(procs, steps, notices, p);
      if procs[p].link.Some? && procs[p].status.Active? && AllDone(steps, p) {
        var w :| 0 <= w < |steps| && steps[w].process == p && WillResume(procs, notices, w);
        assert WillResume(procs, notices', w);
      }
    }
  }
}
