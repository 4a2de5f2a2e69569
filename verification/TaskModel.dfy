/** The task record and the pure functions that update it. */
module TaskModel {
  import opened Common
  import opened Reconcile
  import Journal

  datatype FinishPolicy = Ask | KeepWorktree | DeleteWorktree

  /** One entry of recovery_history. */
  datatype Recovery = Recovery(
    ts: string, recoveryCount: nat,
    prevContainer: Option<nat>, prevExit: Option<int>,
    prevDigest: string, newDigest: string, prevTag: string, newTag: string, gitState: string)

  /** task.json. An empty string stands for an absent, null or empty value of a text field: the
      program tests these fields for truth only. */
  datatype Rec = Rec(
    status: Status,
    eventsOffset: nat,
    logMax: nat,
    recoveryCount: nat,
    recoveryHistory: seq<Recovery>,
    failureReason: string,
    finishedAt: string,
    updatedAt: string,
    autoFinish: bool,
    project: bool,
    policy: FinishPolicy,
    repoPath: bool,
    worktreePath: bool,
    imageDigest: string,
    imageTag: string)

  const FINISH_PREFIX: string := "finish:"

  predicate IsFinishReason(reason: string) {
    FINISH_PREFIX <= reason
  }

  function FinishReason(message: string): (r: string)
    ensures IsFinishReason(r)
  {
    FINISH_PREFIX + " " + message
  }

  function LatestKind(events: seq<Journal.Event>): Option<Journal.Kind> {
    if events == [] then None else Some(events[|events| - 1].kind)
  }

  function LatestFailReason(events: seq<Journal.Event>): string {
    if events == [] || events[|events| - 1].kind != Journal.Fail then ""
    else Journal.ReasonOf(events[|events| - 1].payload)
  }

  /** Whether a done or fail event may still close the task: not terminal, or left failed by a
      teardown that did not succeed. */
  predicate AutoFinishCanRun(d: Rec) {
    !Terminal(d.status) || (d.status == Failed && IsFinishReason(d.failureReason))
  }

  datatype Mode = Mode(reap: bool, dry: bool)

  datatype Look = Look(state: CtrState, exit: Option<int>)

  /** Everything one task's reconciliation has read before it writes. */
  datatype Plan = Plan(mode: Mode, look: Look, rec0: Rec, tail: Journal.Tailed, logNow: nat) {
    function Kind(): Option<Journal.Kind> {
      LatestKind(tail.valid)
    }

    function FailReason(): string {
      LatestFailReason(tail.valid)
    }

    function Computes(): Computed {
      ComputeStatus(rec0.status, look.state, look.exit, Kind())
    }

    predicate TerminalAutoPending() {
      rec0.autoFinish && (Kind() == Some(Journal.Done) || Kind() == Some(Journal.Fail)) && AutoFinishCanRun(rec0)
    }

    predicate InlineTeardown() {
      mode.reap && TerminalAutoPending() && !mode.dry
    }

    predicate Defers() {
      TerminalAutoPending() && !mode.reap
    }

    predicate DryPending() {
      mode.reap && TerminalAutoPending() && mode.dry
    }

    predicate HoldOffset() {
      Defers() || DryPending() || InlineTeardown()
    }

    predicate LogShrunk() {
      logNow < rec0.logMax
    }

    function NewMax(): nat {
      if LogShrunk() then rec0.logMax else logNow
    }
  }

  function Max(a: nat, b: nat): nat {
    if a < b then b else a
  }

  /** The compare half of list's compare-and-set. */
  predicate Stale(d: Rec, plan: Plan) {
    d.eventsOffset != plan.rec0.eventsOffset || d.status != plan.rec0.status
  }

  /** What list writes over the record it finds under the lock. */
  function ListMutator(d: Rec, plan: Plan, ts: string): Rec {
    var d1 := d.(logMax := Max(d.logMax, plan.NewMax()));
    if Stale(d, plan) then d1
    else
      var d2 := if plan.HoldOffset() then d1 else d1.(eventsOffset := plan.tail.offset);
      var c := plan.Computes();
      if plan.HoldOffset() || !c.transitioned then d2
      else
        var d3 := d2.(status := c.status, updatedAt := ts);
        if c.failureReason != "" then d3.(failureReason := c.failureReason)
        else if plan.FailReason() != "" && c.status == Failed then d3.(failureReason := plan.FailReason())
        else d3
  }

  function AdvanceMutator(d: Rec, newOffset: nat): Rec {
    d.(eventsOffset := newOffset)
  }

  /** A teardown that could not be verified. */
  function FailedMutator(d: Rec, message: string, ts: string): Rec {
    d.(status := Failed, failureReason := FinishReason(message), updatedAt := ts)
  }

  /** A verified teardown. */
  function TerminalMutator(d: Rec, target: Status, reason: string, ts: string): Rec {
    var d1 := d.(status := target, finishedAt := if d.finishedAt != "" then d.finishedAt else ts, updatedAt := ts);
    if reason != "" then d1.(failureReason := reason)
    else if target == Completed && IsFinishReason(d.failureReason) then d1.(failureReason := "")
    else d1
  }

  /** A failed teardown changes status, reason and update time only, and leaves a record that the automatic
      retry accepts (which also needs the event still unread). */
  lemma FailedWriteAllowsRetry(d: Rec, message: string, ts: string)
    ensures var e := FailedMutator(d, message, ts);
            && e == d.(status := Failed, failureReason := "finish: " + message, updatedAt := ts)
            && AutoFinishCanRun(e)
  {
    assert FINISH_PREFIX + " " == "finish: ";
  }

  /** Which reason a verified teardown leaves: a reason it is given wins; without one, completing drops
      a teardown error and nothing else; failing and cancelling keep what is there. */
  lemma TerminalWriteReason(d: Rec, target: Status, reason: string, ts: string)
    requires Terminal(target)
    ensures var e := TerminalMutator(d, target, reason, ts);
            && e == d.(status := target, finishedAt := e.finishedAt, failureReason := e.failureReason, updatedAt := ts)
            && (reason != "" ==> e.failureReason == reason)
            && (reason == "" && target == Completed ==>
                  !IsFinishReason(e.failureReason)
                  && (!IsFinishReason(d.failureReason) ==> e.failureReason == d.failureReason))
            && (reason == "" && target != Completed ==> e.failureReason == d.failureReason)
            && (AutoFinishCanRun(e) <==> target == Failed && IsFinishReason(e.failureReason))
  {
  }

  /** A teardown that failed and one that then went through, against one that went through at once: the
      record differs only where the second keeps the first one's error, which is when it neither
      completes the task nor has a reason to give. */
  lemma RetryAfterFailure(d: Rec, message: string, early: string, target: Status, reason: string, ts: string)
    requires Terminal(target) && d.failureReason == ""
    ensures var retried := TerminalMutator(FailedMutator(d, message, early), target, reason, ts);
            var direct := TerminalMutator(d, target, reason, ts);
            && retried == direct.(failureReason := retried.failureReason)
            && (retried == direct <==> reason != "" || target == Completed)
  {
  }

  /** finished_at is written once, by the first terminal write with a timestamp. */
  lemma FinishTimeIsWrittenOnce(d: Rec, t: Status, r: string, ts: string, t': Status, r': string, ts': string,
                                message: string, late: string)
    requires ts != ""
    ensures var first := TerminalMutator(d, t, r, ts);
            && first.finishedAt == (if d.finishedAt != "" then d.finishedAt else ts)
            && TerminalMutator(first, t', r', ts').finishedAt == first.finishedAt
            && TerminalMutator(FailedMutator(first, message, late), t', r', ts').finishedAt == first.finishedAt
  {
    var first := TerminalMutator(d, t, r, ts);
    FinishTimeStays(first, t', r', ts');
    FinishTimeStays(FailedMutator(first, message, late), t', r', ts');
  }

  lemma FinishTimeStays(d: Rec, target: Status, reason: string, ts: string)
    requires d.finishedAt != ""
    ensures TerminalMutator(d, target, reason, ts).finishedAt == d.finishedAt
  {
  }

  /** recover's commit; raises unless the record is still interrupted. */
  function RecoverMutator(d: Rec, entry: Recovery, ts: string): Option<Rec> {
    if d.status != Interrupted then None
    else
      Some(d.(recoveryCount := d.recoveryCount + 1,
              status := Running,
              recoveryHistory := d.recoveryHistory + [entry.(recoveryCount := d.recoveryCount + 1)],
              imageDigest := entry.newDigest, imageTag := entry.newTag, updatedAt := ts))
  }

  /** An operator's flag wins, then the stored policy; `ask` without a terminal deletes the worktree. */
  function ResolveFinishPolicy(override: Option<FinishPolicy>, stored: FinishPolicy,
                               allowPrompt: bool, tty: bool, answer: string): FinishPolicy {
    if override.Some? then override.value
    else if stored != Ask then stored
    else if !allowPrompt || !tty then DeleteWorktree
    else if answer == "y" || answer == "yes" then KeepWorktree else DeleteWorktree
  }
}
