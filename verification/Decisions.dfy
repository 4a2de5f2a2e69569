/** What list, finish, reap and recover decide about one task: tables in terms of the world before and
    after an uninterrupted run, apart from the functions by which the commands compute it. */
module Decisions {
  import opened Common
  import opened Reconcile
  import opened TaskModel
  import opened Protocol
  import opened Uninterrupted
  import Recover = Recovery
  import Journal

  // ----- list -----

  /** The last event still unread is of this kind. */
  predicate EndsIn(tail: Journal.Tailed, kind: Journal.Kind) {
    tail.valid != [] && tail.valid[|tail.valid| - 1].kind == kind
  }

  predicate Closes(tail: Journal.Tailed) {
    EndsIn(tail, Journal.Done) || EndsIn(tail, Journal.Fail)
  }

  /** A closing event that is left for reap to act on. */
  predicate LeftToReap(d: Rec, tail: Journal.Tailed) {
    && d.autoFinish && Closes(tail)
    && (d.status !in {Completed, Failed, Cancelled} || (d.status == Failed && "finish:" <= d.failureReason))
  }

  predicate CtrIs(ctr: Option<Ctr>, state: CtrState) {
    ctr.Some? && ctr.value.state == state
  }

  predicate CtrGone(ctr: Option<Ctr>) {
    ctr.None? || CtrIs(ctr, CtrNotFound)
  }

  predicate CtrExitedWithZero(ctr: Option<Ctr>) {
    CtrIs(ctr, CtrExited) && ctr.value.exit == Some(0)
  }

  predicate CtrStalled(ctr: Option<Ctr>) {
    ctr.Some? && ctr.value.state in {CtrPaused, CtrRestarting, CtrCreated, CtrDead, CtrRemoving}
  }

  predicate CtrUnnamed(ctr: Option<Ctr>) {
    ctr.Some? && ctr.value.state.CtrOther?
  }

  /** The status before and after a list with nothing left to reap. */
  predicate StatusTable(was: Status, now: Status, ctr: Option<Ctr>, tail: Journal.Tailed) {
    if was !in {Created, Running, WaitingForUser} then now == was
    else if EndsIn(tail, Journal.Done) then now == Completed
    else if EndsIn(tail, Journal.Fail) then now == Failed
    else if was == Created then
      now == (if CtrIs(ctr, CtrRunning) then Running else Failed)
    else
      && (now == Interrupted <==> CtrGone(ctr) || CtrExitedWithZero(ctr) || CtrStalled(ctr))
      && (now == Failed <==> CtrIs(ctr, CtrExited) && !CtrExitedWithZero(ctr))
      && (now == WaitingForUser <==>
            (CtrIs(ctr, CtrRunning) && (was == WaitingForUser || EndsIn(tail, Journal.Wait)))
            || (CtrUnnamed(ctr) && was == WaitingForUser))
      && (now == Running <==>
            was == Running && ((CtrIs(ctr, CtrRunning) && !EndsIn(tail, Journal.Wait)) || CtrUnnamed(ctr)))
  }

  /** The failure reason before and after a list with nothing left to reap. */
  predicate ReasonTable(d: Rec, reason: string, ctr: Option<Ctr>, tail: Journal.Tailed) {
    if d.status in {Created, Running, WaitingForUser} && EndsIn(tail, Journal.Fail) then
      var said := Journal.ReasonOf(tail.valid[|tail.valid| - 1].payload);
      reason == if said != "" then said else d.failureReason
    else if d.status == Created && !Closes(tail) && CtrGone(ctr) then
      reason == "reconcile: container missing while status=created (controller crash?)"
    else
      reason == d.failureReason
  }

  /** Main result: what an uninterrupted list, or a reap with nothing to reap, makes of a task. A closing
      event that is left to reap stays unread, with the status, the reason and the error log as they are;
      otherwise status and reason follow the tables, the offset moves to the end of what was read and the
      malformed lines are logged. The update time is set exactly when the status changes, the log mark
      is the maximum, and nothing else changes. */
  lemma ListDecides(w: World, tail: Journal.Tailed, reap: bool, answers: seq<Answer>)
    requires |answers| >= 6 && answers[0].ok
    requires Journal.Tail(w.classify, Some(w.journal), w.rec.eventsOffset) == Some(tail)
    requires LeftToReap(w.rec, tail) ==> !reap
    ensures var (v, q) := Alone(w, ListStart(Mode(reap, false)), answers);
            var left := LeftToReap(w.rec, tail);
            && q == Ended(Listed(0, 0, false))
            && (if left then v.rec.status == w.rec.status && v.rec.failureReason == w.rec.failureReason
                else StatusTable(w.rec.status, v.rec.status, w.ctr, tail)
                     && ReasonTable(w.rec, v.rec.failureReason, w.ctr, tail))
            && v == w.(errorLog := w.errorLog + if left then [] else tail.malformed,
                       rec := w.rec.(status := v.rec.status, failureReason := v.rec.failureReason,
                                     eventsOffset := if left then w.rec.eventsOffset else tail.offset,
                                     logMax := if w.logSize > w.rec.logMax then w.logSize else w.rec.logMax,
                                     updatedAt := if v.rec.status != w.rec.status then answers[5].text
                                                  else w.rec.updatedAt))
  {
    var mode := Mode(reap, false);
    var plan := PlanNow(w, mode, tail);
    ListAlone(w, mode, answers);
    ListWriteDecides(w, plan, answers[5]);
    EndsEarly(w, ListStart(mode), answers, 6, StepListWrite(AfterDiag(w, plan), plan, answers[5]).0,
              Listed(0, 0, false));
  }

  lemma EndsEarly(w: World, p: Proc, answers: seq<Answer>, n: nat, v: World, o: Outcome)
    requires n <= |answers| && Alone(w, p, answers[..n]) == (v, Ended(o))
    ensures Alone(w, p, answers) == (v, Ended(o))
  {
    assert answers == answers[..n] + answers[n..];
    AloneInTwo(w, p, answers[..n], answers[n..]);
    EndedStays(v, o, answers[n..]);
  }

  /** The same of the locked write alone. */
  lemma ListWriteDecides(w: World, plan: Plan, a: Answer)
    requires plan == PlanNow(w, plan.mode, plan.tail) && !plan.mode.dry
    requires LeftToReap(w.rec, plan.tail) ==> !plan.mode.reap
    ensures var (v, q) := StepListWrite(AfterDiag(w, plan), plan, a);
            var left := LeftToReap(w.rec, plan.tail);
            && q == Ended(Listed(0, 0, false))
            && (if left then v.rec.status == w.rec.status && v.rec.failureReason == w.rec.failureReason
                else StatusTable(w.rec.status, v.rec.status, w.ctr, plan.tail)
                     && ReasonTable(w.rec, v.rec.failureReason, w.ctr, plan.tail))
            && v == w.(errorLog := w.errorLog + if left then [] else plan.tail.malformed,
                       rec := w.rec.(status := v.rec.status, failureReason := v.rec.failureReason,
                                     eventsOffset := if left then w.rec.eventsOffset else plan.tail.offset,
                                     logMax := if w.logSize > w.rec.logMax then w.logSize else w.rec.logMax,
                                     updatedAt := if v.rec.status != w.rec.status then a.text
                                                  else w.rec.updatedAt))
  {
    assert w.errorLog + [] == w.errorLog;
    assert plan.TerminalAutoPending() <==> LeftToReap(w.rec, plan.tail);
    ComputesByTables(w, plan);
    if LeftToReap(w.rec, plan.tail) {
      DeferredWrite(w, plan, a);
    } else {
      DecidedWrite(w, plan, a);
    }
  }

  lemma ComputesByTables(w: World, plan: Plan)
    requires plan == PlanNow(w, plan.mode, plan.tail)
    ensures StatusTable(w.rec.status, plan.Computes().status, w.ctr, plan.tail)
    ensures plan.Computes().transitioned <==> plan.Computes().status != w.rec.status
    ensures plan.Computes().failureReason ==
            if w.rec.status == Created && !Closes(plan.tail) && CtrGone(w.ctr) then MISSING_AT_CREATION else ""
  {
  }

  lemma DeferredWrite(w: World, plan: Plan, a: Answer)
    requires plan == PlanNow(w, plan.mode, plan.tail) && !plan.mode.dry
    requires plan.TerminalAutoPending() && !plan.mode.reap
    ensures StepListWrite(AfterDiag(w, plan), plan, a) ==
            (w.(rec := w.rec.(logMax := if w.logSize > w.rec.logMax then w.logSize else w.rec.logMax)),
             Ended(Listed(0, 0, false)))
  {
  }

  lemma DecidedWrite(w: World, plan: Plan, a: Answer)
    requires plan == PlanNow(w, plan.mode, plan.tail) && !plan.mode.dry && !plan.TerminalAutoPending()
    requires StatusTable(w.rec.status, plan.Computes().status, w.ctr, plan.tail)
    requires plan.Computes().transitioned <==> plan.Computes().status != w.rec.status
    requires plan.Computes().failureReason ==
             if w.rec.status == Created && !Closes(plan.tail) && CtrGone(w.ctr) then MISSING_AT_CREATION else ""
    ensures var (v, q) := StepListWrite(AfterDiag(w, plan), plan, a);
            && q == Ended(Listed(0, 0, false))
            && v.rec.status == plan.Computes().status
            && ReasonTable(w.rec, v.rec.failureReason, w.ctr, plan.tail)
            && v == w.(errorLog := w.errorLog + plan.tail.malformed,
                       rec := w.rec.(status := v.rec.status, failureReason := v.rec.failureReason,
                                     eventsOffset := plan.tail.offset,
                                     logMax := if w.logSize > w.rec.logMax then w.logSize else w.rec.logMax,
                                     updatedAt := if v.rec.status != w.rec.status then a.text
                                                  else w.rec.updatedAt))
  {
    DecidedRecord(w, plan, a.text);
  }

  lemma DecidedRecord(w: World, plan: Plan, ts: string)
    requires plan == PlanNow(w, plan.mode, plan.tail) && !plan.TerminalAutoPending()
    requires StatusTable(w.rec.status, plan.Computes().status, w.ctr, plan.tail)
    requires plan.Computes().transitioned <==> plan.Computes().status != w.rec.status
    requires plan.Computes().failureReason ==
             if w.rec.status == Created && !Closes(plan.tail) && CtrGone(w.ctr) then MISSING_AT_CREATION else ""
    ensures var d := ListMutator(w.rec, plan, ts);
            && d.status == plan.Computes().status
            && ReasonTable(w.rec, d.failureReason, w.ctr, plan.tail)
            && d == w.rec.(status := d.status, failureReason := d.failureReason, eventsOffset := plan.tail.offset,
                           logMax := if w.logSize > w.rec.logMax then w.logSize else w.rec.logMax,
                           updatedAt := if d.status != w.rec.status then ts else w.rec.updatedAt)
  {
    if plan.Computes().transitioned {
      ChangedRecord(w, plan, ts);
    } else {
      assert w.rec.status in {Created, Running, WaitingForUser} ==> !Closes(plan.tail);
    }
  }

  lemma ChangedRecord(w: World, plan: Plan, ts: string)
    requires plan == PlanNow(w, plan.mode, plan.tail) && !plan.TerminalAutoPending() && plan.Computes().transitioned
    ensures var d, c := ListMutator(w.rec, plan, ts), plan.Computes();
            d == w.rec.(status := c.status, eventsOffset := plan.tail.offset, updatedAt := ts,
                        logMax := if w.logSize > w.rec.logMax then w.logSize else w.rec.logMax,
                        failureReason := if c.failureReason != "" then c.failureReason
                                         else if plan.FailReason() != "" && c.status == Failed then plan.FailReason()
                                         else w.rec.failureReason)
  {
  }

  /** A list or reap that Docker does not answer, or whose journal cannot be read, ends with an exception and
      has changed nothing: silence is not taken for absence. */
  lemma SilenceChangesNothing(w: World, mode: Mode, answers: seq<Answer>)
    requires |answers| >= 3
    requires !answers[0].ok || Journal.Tail(w.classify, Some(w.journal), w.rec.eventsOffset).None?
    ensures Alone(w, ListStart(mode), answers) == (w, Ended(Raised))
  {
    if answers[0].ok {
      UnreadableRaises(w, mode, answers);
      EndsEarly(w, ListStart(mode), answers, 3, w, Raised);
    } else {
      SilentRaises(w, mode, answers);
      EndsEarly(w, ListStart(mode), answers, 1, w, Raised);
    }
  }

  lemma SilentRaises(w: World, mode: Mode, answers: seq<Answer>)
    requires answers != [] && !answers[0].ok
    ensures Alone(w, ListStart(mode), answers[..1]) == (w, Ended(Raised))
  {
    assert answers[..0] == [];
    AloneStep(w, ListStart(mode), answers, 0);
  }

  lemma UnreadableRaises(w: World, mode: Mode, answers: seq<Answer>)
    requires |answers| >= 3 && answers[0].ok
    requires Journal.Tail(w.classify, Some(w.journal), w.rec.eventsOffset).None?
    ensures Alone(w, ListStart(mode), answers[..3]) == (w, Ended(Raised))
  {
    FirstSteps(w, ListStart(mode), answers, false);
    AloneStep(w, ListStart(mode), answers, 2);
    ListTailRaises(w, mode, answers[0], answers[1], answers[2]);
  }

  lemma ListTailRaises(w: World, mode: Mode, a: Answer, b: Answer, c: Answer)
    requires a.ok && Journal.Tail(w.classify, Some(w.journal), w.rec.eventsOffset).None?
    ensures var (v, q) := After((w, ListStart(mode)), a, b); Step(v, q, c) == (w, Ended(Raised))
  {
  }

  /** A locked write that finds another offset or status than the list read raises the log mark at most, ends
      the list as stale, and starts no teardown; a list is stale in no other case. */
  lemma StaleIffOvertaken(w: World, plan: Plan, a: Answer)
    requires !plan.mode.dry
    ensures var (v, q) := StepListWrite(w, plan, a);
            var overtaken := w.rec.eventsOffset != plan.rec0.eventsOffset || w.rec.status != plan.rec0.status;
            && (overtaken ==> v == w.(rec := w.rec.(logMax := v.rec.logMax)) && v.rec.logMax >= w.rec.logMax
                              && q == Ended(Listed(0, 0, true)))
            && (!overtaken ==> q.Ended? ==> q == Ended(Listed(0, 0, false)))
  {
  }

  // ----- Which teardown removes the worktree -----

  /** What decides, in order: the operator's flag, the stored policy, and for `ask` the reply of somebody
      who can be asked. */
  predicate ToBeRemoved(stored: FinishPolicy, flag: Option<FinishPolicy>, mayAsk: bool, a: Answer) {
    match flag
    case Some(policy) => policy == DeleteWorktree
    case None =>
      stored == DeleteWorktree || (stored == Ask && !(mayAsk && a.ok && (a.text == "y" || a.text == "yes")))
  }

  /** A project task with its worktree's path on record and a repository, from the record or the projects file. */
  predicate WorktreeKnown(d: Rec, a: Answer) {
    d.project && d.worktreePath && (d.repoPath || a.effect)
  }

  /** The step at which an uninterrupted teardown with Docker healthy settles the policy. */
  function PolicyAt(w: World): nat {
    if w.ctr.Some? then 6 else 4
  }

  /** A process that leaves the worktree alone from here on. */
  predicate PastWorktree(p: Proc) {
    p.Ended? || p.ReapAdvance? || (p.Tearing? && (p.pc.TdTerminal? || p.pc.TdMark?))
  }

  lemma {:induction false} WorktreeSettled(w: World, p: Proc, answers: seq<Answer>)
    requires PastWorktree(p)
    ensures Alone(w, p, answers).0.worktree == w.worktree && PastWorktree(Alone(w, p, answers).1)
  {
    if answers != [] {
      WorktreeSettled(w, p, answers[..|answers| - 1]);
    }
  }

  lemma NextHealthy(w: World, p: Proc, answers: seq<Answer>, k: nat, gitOk: bool)
    requires Healthy(w, p, answers, gitOk) && k < |answers|
    ensures Alone(w, p, answers[..k + 1]) == Step(Alone(w, p, answers[..k]).0, Alone(w, p, answers[..k]).1, answers[k])
    ensures HealthyAnswer(Alone(w, p, answers[..k]).1, answers[k], gitOk)
  {
    AloneStep(w, p, answers, k);
  }

  /** Without the container, a teardown has looked it up. */
  ghost predicate AtVerify(w: World, td: Teardown, v: World, q: Proc) {
    v.worktree == w.worktree && v.ctr.None? && q == Tearing(td, TdVerify(w.rec))
  }

  /** The world and process after two steps. */
  function After(at: (World, Proc), a: Answer, b: Answer): (World, Proc) {
    Step(Step(at.0, at.1, a).0, Step(at.0, at.1, a).1, b)
  }

  lemma PairOfSteps(w: World, p: Proc, answers: seq<Answer>, k: nat, at: (World, Proc), gitOk: bool)
    requires k + 2 <= |answers| && Alone(w, p, answers[..k]) == at
    ensures Alone(w, p, answers[..k + 2]) == After(at, answers[k], answers[k + 1])
    ensures Healthy(w, p, answers, gitOk) ==>
              HealthyAnswer(at.1, answers[k], gitOk)
              && HealthyAnswer(Step(at.0, at.1, answers[k]).1, answers[k + 1], gitOk)
  {
    AloneStep(w, p, answers, k);
    AloneStep(w, p, answers, k + 1);
  }

  lemma FirstSteps(w: World, p: Proc, answers: seq<Answer>, gitOk: bool)
    requires 2 <= |answers|
    ensures Alone(w, p, answers[..2]) == After((w, p), answers[0], answers[1])
    ensures Healthy(w, p, answers, gitOk) ==> HealthyAnswer(Step(w, p, answers[0]).1, answers[1], gitOk)
  {
    assert answers[..0] == [];
    PairOfSteps(w, p, answers, 0, (w, p), gitOk);
  }

  lemma ReachesVerify(w: World, td: Teardown, answers: seq<Answer>, gitOk: bool)
    requires Healthy(w, Tearing(td, TdRead), answers, gitOk) && |answers| >= 10
    ensures var (v, q) := Alone(w, Tearing(td, TdRead), answers[..PolicyAt(w) - 2]); AtVerify(w, td, v, q)
  {
    var p := Tearing(td, TdRead);
    var at := After((w, p), answers[0], answers[1]);
    FirstSteps(w, p, answers, gitOk);
    LooksUp(w, td, answers[0], answers[1]);
    if w.ctr.Some? {
      PairOfSteps(w, p, answers, 2, at, gitOk);
      RemovesContainer(w, td, answers[2], answers[3]);
    }
  }

  lemma LooksUp(w: World, td: Teardown, a: Answer, b: Answer)
    ensures Step(w, Tearing(td, TdRead), a) == (w, Tearing(td, TdGet(w.rec)))
    ensures b.ok && w.ctr.Some? ==>
              After((w, Tearing(td, TdRead)), a, b) == (w, Tearing(td, TdStop(w.rec, w.ctr.value.id)))
    ensures w.ctr.None? ==> After((w, Tearing(td, TdRead)), a, b) == (w, Tearing(td, TdVerify(w.rec)))
  {
  }

  lemma RemovesContainer(w: World, td: Teardown, a2: Answer, a3: Answer)
    requires w.ctr.Some? && a2.ok && a3.ok
    ensures var id := w.ctr.value.id;
            && Step(w, Tearing(td, TdStop(w.rec, id)), a2).1 == Tearing(td, TdRemove(w.rec, id))
            && var (v, q) := After((w, Tearing(td, TdStop(w.rec, id))), a2, a3); AtVerify(w, td, v, q)
  {
  }

  lemma ReachesPolicy(w: World, td: Teardown, answers: seq<Answer>, gitOk: bool)
    requires Healthy(w, Tearing(td, TdRead), answers, gitOk) && |answers| >= 10
    ensures var (v, q) := Alone(w, Tearing(td, TdRead), answers[..PolicyAt(w)]);
            v.worktree == w.worktree && q == Tearing(td, if w.rec.project then TdPolicy(w.rec) else TdTerminal)
  {
    var k := PolicyAt(w);
    ReachesVerify(w, td, answers, gitOk);
    NextHealthy(w, Tearing(td, TdRead), answers, k - 2, gitOk);
    NextHealthy(w, Tearing(td, TdRead), answers, k - 1, gitOk);
    VerifiesAndCaptures(w, td, Alone(w, Tearing(td, TdRead), answers[..k - 2]).0, answers[k - 2], answers[k - 1]);
  }

  lemma VerifiesAndCaptures(w: World, td: Teardown, v: World, a: Answer, b: Answer)
    requires AtVerify(w, td, v, Tearing(td, TdVerify(w.rec))) && a.ok
    ensures var (u, q) := Step(v, Tearing(td, TdVerify(w.rec)), a);
            && Step(u, q, b).0.worktree == w.worktree
            && Step(u, q, b).1 == Tearing(td, if w.rec.project then TdPolicy(w.rec) else TdTerminal)
  {
  }

  /** The two steps that settle it. */
  lemma PolicyThenGit(v: World, td: Teardown, data: Rec, a: Answer, b: Answer, gitOk: bool)
    requires HealthyAnswer(Step(v, Tearing(td, TdPolicy(data)), a).1, b, gitOk)
    ensures var (u, q) := After((v, Tearing(td, TdPolicy(data))), a, b);
            var remove := ToBeRemoved(data.policy, td.override, td.allowPrompt, a)
                          && data.worktreePath && (data.repoPath || a.effect);
            PastWorktree(q) && (u.worktree <==> v.worktree && !(remove && (gitOk || b.ok || b.effect)))
  {
  }

  /** With Docker healthy, a teardown leaves the worktree exactly unless it is known, to be removed, and
      git removes it. */
  lemma TeardownWorktree(w: World, td: Teardown, answers: seq<Answer>, gitOk: bool)
    requires Healthy(w, Tearing(td, TdRead), answers, gitOk) && |answers| >= 10
    ensures var k := PolicyAt(w);
            var git := gitOk || answers[k + 1].ok || answers[k + 1].effect;
            Alone(w, Tearing(td, TdRead), answers).0.worktree <==>
              w.worktree && !(WorktreeKnown(w.rec, answers[k])
                              && ToBeRemoved(w.rec.policy, td.override, td.allowPrompt, answers[k]) && git)
  {
    ReachesPolicy(w, td, answers, gitOk);
    if w.rec.project {
      PolicySettles(w, Tearing(td, TdRead), answers, PolicyAt(w), gitOk,
                    Alone(w, Tearing(td, TdRead), answers[..PolicyAt(w)]).0, td, w.rec);
    } else {
      RestKeepsWorktree(w, Tearing(td, TdRead), answers, PolicyAt(w));
    }
  }

  lemma RestKeepsWorktree(w: World, p: Proc, answers: seq<Answer>, n: nat)
    requires n <= |answers| && PastWorktree(Alone(w, p, answers[..n]).1)
    ensures Alone(w, p, answers).0.worktree == Alone(w, p, answers[..n]).0.worktree
  {
    assert answers == answers[..n] + answers[n..];
    AloneInTwo(w, p, answers[..n], answers[n..]);
    WorktreeSettled(Alone(w, p, answers[..n]).0, Alone(w, p, answers[..n]).1, answers[n..]);
  }

  lemma PolicySettles(w: World, p: Proc, answers: seq<Answer>, k: nat, gitOk: bool, v: World, td: Teardown, data: Rec)
    requires Healthy(w, p, answers, gitOk) && k + 2 <= |answers|
    requires Alone(w, p, answers[..k]) == (v, Tearing(td, TdPolicy(data)))
    ensures var a, b := answers[k], answers[k + 1];
            var remove := ToBeRemoved(data.policy, td.override, td.allowPrompt, a)
                          && data.worktreePath && (data.repoPath || a.effect);
            Alone(w, p, answers).0.worktree <==> v.worktree && !(remove && (gitOk || b.ok || b.effect))
  {
    var q := Tearing(td, TdPolicy(data));
    SettlesAfterTwo(w, p, answers, k, v, q) by {
      PairOfSteps(w, p, answers, k, (v, q), gitOk);
      PolicyThenGit(v, td, data, answers[k], answers[k + 1], gitOk);
    }
    PolicyThenGit(v, td, data, answers[k], answers[k + 1], gitOk) by {
      PairOfSteps(w, p, answers, k, (v, q), gitOk);
    }
  }

  lemma SettlesAfterTwo(w: World, p: Proc, answers: seq<Answer>, k: nat, v: World, q: Proc)
    requires k + 2 <= |answers|
    requires Alone(w, p, answers[..k + 2]) == After((v, q), answers[k], answers[k + 1])
    requires PastWorktree(After((v, q), answers[k], answers[k + 1]).1)
    ensures Alone(w, p, answers).0.worktree == After((v, q), answers[k], answers[k + 1]).0.worktree
  {
    RestKeepsWorktree(w, p, answers, k + 2);
  }

  // ----- How a teardown ends -----

  /** A teardown past its last decision: about to write, or done with the result that follows from it. */
  predicate Concluding(td: Teardown, refused: bool, message: string, w: World, p: Proc) {
    if refused then
      || p == Tearing(td, TdMark(message))
      || (p == Ended(Exits(td)) && w.rec.status == Failed && w.rec.failureReason == "finish: " + message)
    else
      || p == Tearing(td, TdTerminal)
      || (p == Returns(td) && w.rec.status == td.target)
      || (td.after.ReapAdvances? && p == Ended(Listed(1, 0, false))
          && w.rec.status == td.target && w.rec.eventsOffset == td.after.newOffset)
  }

  lemma ConcludingStep(td: Teardown, refused: bool, message: string, w: World, p: Proc, a: Answer)
    requires Concluding(td, refused, message, w, p)
    ensures Concluding(td, refused, message, Step(w, p, a).0, Step(w, p, a).1)
  {
    if p == Tearing(td, TdMark(message)) {
      FailedWriteAllowsRetry(w.rec, message, a.text);
    }
  }

  lemma {:induction false} ConcludingRun(td: Teardown, refused: bool, message: string,
                                         w: World, p: Proc, answers: seq<Answer>)
    requires Concluding(td, refused, message, w, p)
    ensures Concluding(td, refused, message, Alone(w, p, answers).0, Alone(w, p, answers).1)
  {
    if answers != [] {
      var n := |answers| - 1;
      ConcludingRun(td, refused, message, w, p, answers[..n]);
      ConcludingStep(td, refused, message, Alone(w, p, answers[..n]).0, Alone(w, p, answers[..n]).1, answers[n]);
    }
  }

  /** The two steps after the capture. */
  lemma GitConcludes(v: World, td: Teardown, data: Rec, a: Answer, b: Answer)
    ensures var (u, q) := After((v, Tearing(td, TdPolicy(data))), a, b);
            var refused := v.worktree && ToBeRemoved(data.policy, td.override, td.allowPrompt, a)
                           && data.worktreePath && (data.repoPath || a.effect) && !b.ok;
            Concluding(td, refused, b.text, u, q)
  {
  }

  lemma ConcludesAfter(w: World, p: Proc, answers: seq<Answer>, n: nat, td: Teardown, refused: bool, message: string)
    requires n <= |answers|
    requires Concluding(td, refused, message, Alone(w, p, answers[..n]).0, Alone(w, p, answers[..n]).1)
    ensures Concluding(td, refused, message, Alone(w, p, answers).0, Alone(w, p, answers).1)
  {
    assert answers == answers[..n] + answers[n..];
    AloneInTwo(w, p, answers[..n], answers[n..]);
    ConcludingRun(td, refused, message, Alone(w, p, answers[..n]).0, Alone(w, p, answers[..n]).1, answers[n..]);
  }

  lemma PolicyConcludes(w: World, p: Proc, answers: seq<Answer>, k: nat, v: World, td: Teardown, data: Rec)
    requires k + 2 <= |answers| && Alone(w, p, answers[..k]) == (v, Tearing(td, TdPolicy(data)))
    ensures var a, b := answers[k], answers[k + 1];
            var refused := v.worktree && ToBeRemoved(data.policy, td.override, td.allowPrompt, a)
                           && data.worktreePath && (data.repoPath || a.effect) && !b.ok;
            Concluding(td, refused, b.text, Alone(w, p, answers).0, Alone(w, p, answers).1)
  {
    var a, b := answers[k], answers[k + 1];
    var refused := v.worktree && ToBeRemoved(data.policy, td.override, td.allowPrompt, a)
                   && data.worktreePath && (data.repoPath || a.effect) && !b.ok;
    ConcludesAfter(w, p, answers, k + 2, td, refused, b.text) by {
      PairOfSteps(w, p, answers, k, (v, Tearing(td, TdPolicy(data))), false);
      GitConcludes(v, td, data, a, b);
    }
  }

  /** Main result: with Docker healthy, a teardown fails exactly when git was asked for a worktree that is
      there and refused, and then the record is failed with git's message; otherwise it ends in the target
      status, and a reap's offset has moved. */
  lemma FailsIffGitRefuses(w: World, td: Teardown, answers: seq<Answer>, v: World, q: Proc)
    requires Healthy(w, Tearing(td, TdRead), answers, false) && |answers| >= 10
    requires Alone(w, Tearing(td, TdRead), answers) == (v, q)
    ensures var a, b := answers[PolicyAt(w)], answers[PolicyAt(w) + 1];
            && (GitRefuses(w, td, a, b) ==>
                  q == Ended(Exits(td)) && v.rec.status == Failed && v.rec.failureReason == "finish: " + b.text)
            && (!GitRefuses(w, td, a, b) ==>
                  && v.rec.status == td.target
                  && q == Ended(if td.after.FinishReturns? then FinishReturned else Listed(1, 0, false))
                  && (td.after.ReapAdvances? ==> v.rec.eventsOffset == td.after.newOffset))
  {
    var a, b := answers[PolicyAt(w)], answers[PolicyAt(w) + 1];
    ConclusionTells(td, GitRefuses(w, td, a, b), b.text, v, q) by {
      TeardownEnds(w, td, answers);
      TeardownConcludes(w, td, answers);
    }
  }

  lemma TeardownEnds(w: World, td: Teardown, answers: seq<Answer>)
    requires |answers| >= 10
    ensures Alone(w, Tearing(td, TdRead), answers).1.Ended?
  {
    EveryProcessEnds(w, Tearing(td, TdRead), answers);
  }

  predicate GitRefuses(w: World, td: Teardown, a: Answer, b: Answer) {
    && w.worktree && WorktreeKnown(w.rec, a) && !b.ok
    && ToBeRemoved(w.rec.policy, td.override, td.allowPrompt, a)
  }

  lemma ConclusionTells(td: Teardown, refused: bool, message: string, v: World, q: Proc)
    requires Concluding(td, refused, message, v, q) && q.Ended?
    ensures refused ==> q == Ended(Exits(td)) && v.rec.status == Failed && v.rec.failureReason == "finish: " + message
    ensures !refused ==> v.rec.status == td.target
                         && q == Ended(if td.after.FinishReturns? then FinishReturned else Listed(1, 0, false))
                         && (td.after.ReapAdvances? ==> v.rec.eventsOffset == td.after.newOffset)
  {
  }

  lemma TeardownConcludes(w: World, td: Teardown, answers: seq<Answer>)
    requires Healthy(w, Tearing(td, TdRead), answers, false) && |answers| >= 10
    ensures var (v, q) := Alone(w, Tearing(td, TdRead), answers);
            var a, b := answers[PolicyAt(w)], answers[PolicyAt(w) + 1];
            Concluding(td, GitRefuses(w, td, a, b), b.text, v, q)
  {
    ReachesPolicy(w, td, answers, false);
    if w.rec.project {
      PolicyConcludes(w, Tearing(td, TdRead), answers, PolicyAt(w),
                      Alone(w, Tearing(td, TdRead), answers[..PolicyAt(w)]).0, td, w.rec);
    } else {
      ConcludesAfter(w, Tearing(td, TdRead), answers, PolicyAt(w), td, false, answers[PolicyAt(w) + 1].text);
    }
  }

  /** finish finds nothing to clean up. */
  predicate NothingToDo(w: World, force: bool, flag: Option<FinishPolicy>) {
    w.rec.status in {Completed, Failed, Cancelled} && !force && flag.None? && w.ctr.None?
  }

  /** The step of an uninterrupted finish that settles the policy: behind finish's own read, and behind
      its probe of a terminal task that was not forced. */
  function FinishPolicyAt(w: World, force: bool, flag: Option<FinishPolicy>): nat {
    (if w.rec.status in {Completed, Failed, Cancelled} && !force && flag.None? then 2 else 1) + PolicyAt(w)
  }

  /** What a finish with Docker and git healthy does to the worktree. */
  lemma FinishWorktree(w: World, force: bool, flag: Option<FinishPolicy>, answers: seq<Answer>)
    requires Healthy(w, FinishStart(force, flag), answers, true) && |answers| >= 12
    ensures var a := answers[FinishPolicyAt(w, force, flag)];
            Alone(w, FinishStart(force, flag), answers).0.worktree <==>
              w.worktree && (NothingToDo(w, force, flag) || !WorktreeKnown(w.rec, a)
                             || !ToBeRemoved(w.rec.policy, flag, true, a))
  {
    var p := FinishStart(force, flag);
    if Terminal(w.rec.status) && !force && flag.None? {
      AfterFirst(w, p, answers, true, w, FinishProbe(w.rec.status));
      ProbeWorktree(w, answers[1..]);
    } else {
      AfterFirst(w, p, answers, true, w, FinishTeardown(FinishTarget(w.rec.status), flag));
      TeardownWorktree(w, Teardown(FinishTarget(w.rec.status), flag, true, "", FinishReturns), answers[1..], true);
    }
  }

  lemma ProbeWorktree(w: World, answers: seq<Answer>)
    requires Terminal(w.rec.status) && Healthy(w, FinishProbe(w.rec.status), answers, true) && |answers| >= 11
    ensures var a := answers[1 + PolicyAt(w)];
            Alone(w, FinishProbe(w.rec.status), answers).0.worktree <==>
              w.worktree && (w.ctr.None? || !WorktreeKnown(w.rec, a) || !ToBeRemoved(w.rec.policy, None, true, a))
  {
    var p := FinishProbe(w.rec.status);
    assert answers[..0] == [];
    assert HealthyAnswer(Alone(w, p, answers[..0]).1, answers[0], true);
    if w.ctr.Some? {
      AfterFirst(w, p, answers, true, w, FinishTeardown(w.rec.status, None));
      TeardownWorktree(w, Teardown(w.rec.status, None, true, "", FinishReturns), answers[1..], true);
    } else {
      AfterFirst(w, p, answers, true, w, Ended(FinishNothingToDo));
      EndedStays(w, FinishNothingToDo, answers[1..]);
    }
  }

  /** Whether finish tears the task down, whatever it is answered: not at all exactly when the task is
      terminal, neither forced nor flagged, and its probe does not find the container, be it gone or Docker
      silent; and then nothing changes. */
  lemma FinishActsIff(w: World, force: bool, flag: Option<FinishPolicy>, answers: seq<Answer>)
    requires |answers| >= 12
    ensures var (v, q) := Alone(w, FinishStart(force, flag), answers);
            var idle := w.rec.status in {Completed, Failed, Cancelled} && !force && flag.None?
                        && !(answers[1].ok && w.ctr.Some?);
            && (q == Ended(FinishNothingToDo) <==> idle)
            && (idle ==> v == w)
            && (!idle ==> q == Ended(FinishReturned) || q == Ended(SystemExit))
  {
    var p := FinishStart(force, flag);
    AloneFirst(w, p, answers);
    if w.rec.status in {Completed, Failed, Cancelled} && !force && flag.None? {
      AloneFirst(w, FinishProbe(w.rec.status), answers[1..]);
      if answers[1].ok && w.ctr.Some? {
        FinishTeardownEnds(w, w.rec.status, None, answers[1..][1..]);
      } else {
        EndedStays(w, FinishNothingToDo, answers[1..][1..]);
      }
    } else {
      FinishTeardownEnds(w, FinishTarget(w.rec.status), flag, answers[1..]);
    }
  }

  lemma FinishTeardownEnds(w: World, target: Status, flag: Option<FinishPolicy>, answers: seq<Answer>)
    requires |answers| >= 10
    ensures var q := Alone(w, FinishTeardown(target, flag), answers).1;
            q == Ended(FinishReturned) || q == Ended(SystemExit)
  {
    EveryProcessEnds(w, FinishTeardown(target, flag), answers);
    TeardownTrace(w, Teardown(target, flag, true, "", FinishReturns), answers);
  }

  /** Main result: which policy wins when a finish that has something to clean up closes a project task
      whose worktree and repository are known, with Docker and git healthy. A flag decides, whatever is
      stored; without one a stored keep or delete does; with `ask` the worktree is kept exactly when there
      is a terminal and the reply is y or yes. A generic task, or one without a worktree's path or a
      repository, loses nothing. */
  lemma FlagThenPolicyThenReply(w: World, force: bool, flag: Option<FinishPolicy>, answers: seq<Answer>)
    requires Healthy(w, FinishStart(force, flag), answers, true) && |answers| >= 12
    requires !NothingToDo(w, force, flag) && w.worktree
    ensures var v := Alone(w, FinishStart(force, flag), answers).0;
            var a := answers[FinishPolicyAt(w, force, flag)];
            && (!WorktreeKnown(w.rec, a) ==> v.worktree)
            && (WorktreeKnown(w.rec, a) ==>
                  && (flag == Some(KeepWorktree) ==> v.worktree)
                  && (flag == Some(DeleteWorktree) ==> !v.worktree)
                  && (flag.None? && w.rec.policy == KeepWorktree ==> v.worktree)
                  && (flag.None? && w.rec.policy == DeleteWorktree ==> !v.worktree)
                  && (flag.None? && w.rec.policy == Ask ==>
                        (v.worktree <==> a.ok && (a.text == "y" || a.text == "yes"))))
  {
    var a := answers[FinishPolicyAt(w, force, flag)];
    PolicyByFlag(w.rec, flag, a);
    FinishWorktree(w, force, flag, answers);
  }

  lemma PolicyByFlag(d: Rec, flag: Option<FinishPolicy>, a: Answer)
    ensures flag.Some? ==> (ToBeRemoved(d.policy, flag, true, a) <==> flag == Some(DeleteWorktree))
    ensures flag.None? && d.policy != Ask ==> (ToBeRemoved(d.policy, flag, true, a) <==> d.policy == DeleteWorktree)
    ensures flag.None? && d.policy == Ask ==>
              (ToBeRemoved(d.policy, flag, true, a) <==> !(a.ok && (a.text == "y" || a.text == "yes")))
  {
  }

  /** Main result: a healthy reap that closes a project task removes a known worktree unless `keep` is
      stored; it never asks, so `ask` means removal. A reap that closes nothing leaves it alone. */
  lemma ReapNeverAsks(w: World, tail: Journal.Tailed, answers: seq<Answer>)
    requires Journal.Tail(w.classify, Some(w.journal), w.rec.eventsOffset) == Some(tail)
    requires Healthy(w, ListStart(Mode(true, false)), answers, true) && |answers| >= 16
    ensures Alone(w, ListStart(Mode(true, false)), answers).0.worktree <==>
              w.worktree && !(LeftToReap(w.rec, tail) && w.rec.policy != KeepWorktree
                              && WorktreeKnown(w.rec, answers[6 + PolicyAt(w)]))
  {
    FirstLookAnswers(w, answers);
    if LeftToReap(w.rec, tail) {
      ReapWorktree(w, tail, answers);
    } else {
      IdleReapWorktree(w, tail, answers);
    }
  }

  lemma FirstLookAnswers(w: World, answers: seq<Answer>)
    requires Healthy(w, ListStart(Mode(true, false)), answers, true) && answers != []
    ensures answers[0].ok
  {
    assert answers[..0] == [];
    assert HealthyAnswer(Alone(w, ListStart(Mode(true, false)), answers[..0]).1, answers[0], true);
  }

  lemma IdleReapWorktree(w: World, tail: Journal.Tailed, answers: seq<Answer>)
    requires Journal.Tail(w.classify, Some(w.journal), w.rec.eventsOffset) == Some(tail)
    requires |answers| >= 6 && answers[0].ok && !LeftToReap(w.rec, tail)
    ensures Alone(w, ListStart(Mode(true, false)), answers).0.worktree == w.worktree
  {
    ListDecides(w, tail, true, answers);
  }

  lemma ReapWorktree(w: World, tail: Journal.Tailed, answers: seq<Answer>)
    requires Journal.Tail(w.classify, Some(w.journal), w.rec.eventsOffset) == Some(tail)
    requires Healthy(w, ListStart(Mode(true, false)), answers, true) && |answers| >= 16
    requires LeftToReap(w.rec, tail) && answers[0].ok
    ensures Alone(w, ListStart(Mode(true, false)), answers).0.worktree <==>
              w.worktree && !(w.rec.policy != KeepWorktree && WorktreeKnown(w.rec, answers[6 + PolicyAt(w)]))
  {
    var plan := PlanNow(w, Mode(true, false), tail);
    var v := ReapStarts(w, plan, answers);
    EndsInTeardown(w, ListStart(Mode(true, false)), answers, 6, v, ReapTeardown(plan));
  }

  /** The first six steps of a reap that closes the task. */
  lemma ReapStarts(w: World, plan: Plan, answers: seq<Answer>) returns (v: World)
    requires Journal.Tail(w.classify, Some(w.journal), w.rec.eventsOffset) == Some(plan.tail)
    requires |answers| >= 6 && answers[0].ok
    requires plan == PlanNow(w, Mode(true, false), plan.tail) && LeftToReap(w.rec, plan.tail)
    ensures Alone(w, ListStart(Mode(true, false)), answers[..6]) == (v, Tearing(ReapTeardown(plan), TdRead))
    ensures v == w.(errorLog := v.errorLog, rec := w.rec.(logMax := v.rec.logMax))
  {
    ListAlone(w, Mode(true, false), answers);
    v := StepListWrite(AfterDiag(w, plan), plan, answers[5]).0;
  }

  /** A run that is a teardown from its n-th step on. */
  lemma EndsInTeardown(w: World, p: Proc, answers: seq<Answer>, n: nat, v: World, td: Teardown)
    requires Healthy(w, p, answers, true) && n + 10 <= |answers|
    requires Alone(w, p, answers[..n]) == (v, Tearing(td, TdRead))
    ensures var a := answers[n + PolicyAt(v)];
            Alone(w, p, answers).0.worktree <==>
              v.worktree && !(WorktreeKnown(v.rec, a) && ToBeRemoved(v.rec.policy, td.override, td.allowPrompt, a))
  {
    AloneRest(w, p, answers, n, v, Tearing(td, TdRead));
    TeardownWorktree(v, td, answers[n..], true);
  }

  lemma AloneRest(w: World, p: Proc, answers: seq<Answer>, n: nat, v: World, q: Proc)
    requires Healthy(w, p, answers, true) && n <= |answers|
    requires Alone(w, p, answers[..n]) == (v, q)
    ensures Healthy(v, q, answers[n..], true)
    ensures Alone(w, p, answers) == Alone(v, q, answers[n..])
  {
    HealthyRest(w, p, answers, n, true);
    assert answers == answers[..n] + answers[n..];
    AloneInTwo(w, p, answers[..n], answers[n..]);
  }

  // ----- Stopping comes before removing -----

  /** The container that teardown or recover found is asked to stop before it is removed by force: when
      Docker stops it and then refuses to remove it, it stands there exited. */
  lemma StopsBeforeRemoving(w: World, td: Teardown, answers: seq<Answer>)
    requires |answers| >= 4 && answers[1].ok && answers[2].ok && w.ctr.Some?
    requires !answers[3].ok && !answers[3].effect
    ensures Alone(w, Tearing(td, TdRead), answers[..4]) ==
            (w.(ctr := Some(w.ctr.value.(state := CtrExited))), Tearing(td, TdVerify(w.rec)))
    ensures w.rec.status == Interrupted ==>
              Alone(w, RecStart, answers[..4]).0 == w.(ctr := Some(w.ctr.value.(state := CtrExited)))
  {
    FourSteps(w, Tearing(td, TdRead), answers);
    FourSteps(w, RecStart, answers);
    StopThenRemove(w, td, answers[0], answers[1], answers[2], answers[3]);
    if w.rec.status == Interrupted {
      RecoverStopThenRemove(w, answers[0], answers[1], answers[2], answers[3]);
    }
  }

  /** So is the container that a recover takes back. */
  lemma RollbackStopsFirst(w: World, newId: nat, o: Outcome, a: Answer, b: Answer)
    requires Holds(w, newId) && a.ok && !b.ok && !b.effect
    ensures After((w, RecKillStop(newId, o)), a, b) ==
            (w.(ctr := Some(w.ctr.value.(state := CtrExited))), Ended(o))
  {
  }

  lemma StopThenRemove(w: World, td: Teardown, a: Answer, b: Answer, c: Answer, d: Answer)
    requires b.ok && c.ok && w.ctr.Some? && !d.ok && !d.effect
    ensures After(After((w, Tearing(td, TdRead)), a, b), c, d) ==
            (w.(ctr := Some(w.ctr.value.(state := CtrExited))), Tearing(td, TdVerify(w.rec)))
  {
    LooksUp(w, td, a, b);
    RefusedRemoval(w, td, w.ctr.value.id, c, d);
  }

  lemma RefusedRemoval(w: World, td: Teardown, id: nat, c: Answer, d: Answer)
    requires Holds(w, id) && c.ok && !d.ok && !d.effect
    ensures After((w, Tearing(td, TdStop(w.rec, id))), c, d) ==
            (w.(ctr := Some(w.ctr.value.(state := CtrExited))), Tearing(td, TdVerify(w.rec)))
  {
  }

  lemma RecoverStopThenRemove(w: World, a: Answer, b: Answer, c: Answer, d: Answer)
    requires b.ok && c.ok && w.ctr.Some? && !d.ok && !d.effect && w.rec.status == Interrupted
    ensures After(After((w, RecStart), a, b), c, d).0 == w.(ctr := Some(w.ctr.value.(state := CtrExited)))
  {
  }

  lemma FourSteps(w: World, p: Proc, answers: seq<Answer>)
    requires |answers| >= 4
    ensures Alone(w, p, answers[..4]) ==
            After(After((w, p), answers[0], answers[1]), answers[2], answers[3])
  {
    PairOfSteps(w, p, answers, 2, After((w, p), answers[0], answers[1]), true) by {
      FirstSteps(w, p, answers, true);
    }
  }

  // ----- recover -----

  /** Whether recover gets to know the old container. */
  predicate OldFound(w: World, answers: seq<Answer>) {
    |answers| > 1 && answers[1].ok && w.ctr.Some?
  }

  /** The step at which recover writes its banner: after stopping and removing a container it knows. */
  function BannerAt(w: World, answers: seq<Answer>): nat {
    if OldFound(w, answers) then 4 else 2
  }

  /** What recover says of the old container and the worktree. */
  predicate CapturedOf(w: World, answers: seq<Answer>, r: Recovering) {
    && r.rec0 == w.rec && w.rec.status == Interrupted && |answers| > 1
    && r.prev == (if OldFound(w, answers) then w.ctr else None)
    && r.gitState == (if w.rec.project && w.rec.worktreePath then answers[1].text else "")
  }

  /** The history entry of a recover with these answers. */
  predicate EntryOf(w: World, answers: seq<Answer>, h: Recovery) {
    var k := BannerAt(w, answers);
    && |answers| > k + 3
    && h.recoveryCount == w.rec.recoveryCount + 1
    && h.prevContainer == (if OldFound(w, answers) then Some(w.ctr.value.id) else None)
    && h.prevExit == (if OldFound(w, answers) then w.ctr.value.exit else None)
    && h.prevDigest == w.rec.imageDigest && h.prevTag == w.rec.imageTag
    && h.newDigest == answers[k + 2].text && h.newTag == w.taskImage
    && h.gitState == (if w.rec.project && w.rec.worktreePath then answers[1].text else "")
    && h.ts == answers[k + 3].text
  }

  predicate EntryWritten(w: World, answers: seq<Answer>, d: Rec, h: Recovery) {
    && EntryOf(w, answers, h)
    && d == w.rec.(status := Running, recoveryCount := h.recoveryCount,
                   recoveryHistory := w.rec.recoveryHistory + [h],
                   imageDigest := h.newDigest, imageTag := h.newTag, updatedAt := h.ts)
  }

  /** The world a committed recover leaves: only record, log and container differ from the one it started in. */
  ghost predicate CommittedOf(w: World, answers: seq<Answer>, v: World) {
    var k := BannerAt(w, answers);
    && |answers| > k + 3 && |v.rec.recoveryHistory| == |w.rec.recoveryHistory| + 1
    && EntryWritten(w, answers, v.rec, v.rec.recoveryHistory[|w.rec.recoveryHistory|])
    && v == w.(rec := v.rec, ctr := Some(Ctr(w.nextId, CtrRunning, None)), nextId := w.nextId + 1,
               logSize := w.logSize + if answers[k].ok then |answers[k].text| else 0)
  }

  /** Where a recover stands after these answers. */
  ghost predicate RecoverAt(w: World, answers: seq<Answer>, v: World, p: Proc) {
    var k := BannerAt(w, answers);
    match p
    case RecStart => answers == [] && v == w
    case RecGet(rec0) => |answers| == 1 && v == w && rec0 == w.rec && rec0.status == Interrupted
    case RecStop(r) => |answers| == 2 && OldFound(w, answers) && CapturedOf(w, answers, r) && v == w
    case RecRemove(r) =>
      |answers| == 3 && OldFound(w, answers) && CapturedOf(w, answers, r) && v == w.(ctr := v.ctr)
    case RecBanner(r) => |answers| == k && CapturedOf(w, answers, r) && v == w.(ctr := v.ctr)
    case RecRun(r) => |answers| == k + 1 && CapturedOf(w, answers, r) && BannerWritten(w, answers, v)
    case RecReload(r, newId) =>
      |answers| == k + 2 && CapturedOf(w, answers, r) && NewUp(w, answers, v) && newId == w.nextId
    case RecCommit(r, newId, digest) =>
      |answers| == k + 3 && CapturedOf(w, answers, r) && NewUp(w, answers, v) && digest == answers[k + 2].text
    case RecKillStop(_, o) => o != Recovered
    case RecKillRemove(_, o) => o != Recovered
    case Ended(o) => o == Recovered ==> w.rec.status == Interrupted && CommittedOf(w, answers, v)
    case _ => false
  }

  ghost predicate BannerWritten(w: World, answers: seq<Answer>, v: World) {
    var k := BannerAt(w, answers);
    |answers| > k && v == w.(ctr := v.ctr, logSize := w.logSize + if answers[k].ok then |answers[k].text| else 0)
  }

  ghost predicate NewUp(w: World, answers: seq<Answer>, v: World) {
    var k := BannerAt(w, answers);
    && |answers| > k
    && v == w.(ctr := Some(Ctr(w.nextId, CtrRunning, None)), nextId := w.nextId + 1,
               logSize := w.logSize + if answers[k].ok then |answers[k].text| else 0)
  }

  /** One more answer changes nothing of what was captured. */
  lemma MoreAnswers(w: World, answers: seq<Answer>, a: Answer)
    requires |answers| > 1
    ensures OldFound(w, answers + [a]) == OldFound(w, answers)
    ensures forall i :: 0 <= i < |answers| ==> (answers + [a])[i] == answers[i]
  {
  }

  lemma RecoverGoesOn(w: World, answers: seq<Answer>, v: World, p: Proc, a: Answer)
    requires RecoverAt(w, answers, v, p)
    ensures RecoverAt(w, answers + [a], Step(v, p, a).0, Step(v, p, a).1)
  {
    match p
    case RecStart =>
    case RecGet(_) => RecoverCaptures(w, answers, v, p, a);
    case RecStop(_) => RecoverClears(w, answers, v, p, a);
    case RecRemove(_) => RecoverClears(w, answers, v, p, a);
    case RecBanner(_) => RecoverStarts(w, answers, v, p, a);
    case RecRun(_) => RecoverStarts(w, answers, v, p, a);
    case RecReload(_, _) => RecoverStarts(w, answers, v, p, a);
    case RecCommit(_, _, _) =>
      if a.ok {
        RecoverCommits(w, answers, v, p, a);
      }
    case Ended(_) => RecoverOver(w, answers, v, p, a);
    case _ =>
  }

  lemma RecoverCaptures(w: World, answers: seq<Answer>, v: World, p: Proc, a: Answer)
    requires p.RecGet? && RecoverAt(w, answers, v, p)
    ensures RecoverAt(w, answers + [a], Step(v, p, a).0, Step(v, p, a).1)
  {
  }

  lemma RecoverClears(w: World, answers: seq<Answer>, v: World, p: Proc, a: Answer)
    requires (p.RecStop? || p.RecRemove?) && RecoverAt(w, answers, v, p)
    ensures RecoverAt(w, answers + [a], Step(v, p, a).0, Step(v, p, a).1)
  {
    MoreAnswers(w, answers, a);
  }

  lemma RecoverStarts(w: World, answers: seq<Answer>, v: World, p: Proc, a: Answer)
    requires (p.RecBanner? || p.RecRun? || p.RecReload?) && RecoverAt(w, answers, v, p)
    ensures RecoverAt(w, answers + [a], Step(v, p, a).0, Step(v, p, a).1)
  {
    MoreAnswers(w, answers, a);
  }

  lemma RecoverOver(w: World, answers: seq<Answer>, v: World, p: Proc, a: Answer)
    requires p.Ended? && RecoverAt(w, answers, v, p)
    ensures RecoverAt(w, answers + [a], Step(v, p, a).0, Step(v, p, a).1)
  {
    if p.outcome == Recovered {
      MoreAnswers(w, answers, a);
    }
  }

  lemma RecoverCommits(w: World, answers: seq<Answer>, v: World, p: Proc, a: Answer)
    requires p.RecCommit? && RecoverAt(w, answers, v, p) && a.ok
    ensures Step(v, p, a).1 == Ended(Recovered) && CommittedOf(w, answers + [a], Step(v, p, a).0)
  {
    MoreAnswers(w, answers, a);
  }

  lemma {:induction false} RecoverRun(w: World, answers: seq<Answer>)
    ensures RecoverAt(w, answers, Alone(w, RecStart, answers).0, Alone(w, RecStart, answers).1)
  {
    if answers != [] {
      var front := answers[..|answers| - 1];
      RecoverRun(w, front);
      RecoverGoesOn(w, front, Alone(w, RecStart, front).0, Alone(w, RecStart, front).1, answers[|answers| - 1]);
      assert answers == front + [answers[|answers| - 1]];
    }
  }

  /** Main result: what a recover that commits has written, however it was answered. The new entry names
      the old container and its exit code exactly when the container was there and Docker answered; it
      holds the images before and after, the worktree's git state, and the time of the commit. The banner
      is in the log if it could be written. */
  lemma RecoverRecords(w: World, answers: seq<Answer>, luck: Recover.Luck)
    requires Recover.Lucky(w, RecStart, answers, luck)
    requires Alone(w, RecStart, answers).1 == Ended(Recovered)
    ensures CommittedOf(w, answers, Alone(w, RecStart, answers).0)
    ensures var h := Alone(w, RecStart, answers).0.rec.recoveryHistory[|w.rec.recoveryHistory|];
            && (w.ctr.None? ==> h.prevContainer.None? && h.prevExit.None?)
            && (luck.docker && w.ctr.Some? ==>
                  h.prevContainer == Some(w.ctr.value.id) && h.prevExit == w.ctr.value.exit)
  {
    RecoverCommitted(w, answers);
    EntryTells(w, answers, Alone(w, RecStart, answers).0, luck.docker) by {
      RecoverCommitted(w, answers);
      if luck.docker && w.ctr.Some? {
        LuckyFindsOld(w, answers, luck);
      }
    }
  }

  lemma RecoverCommitted(w: World, answers: seq<Answer>)
    requires Alone(w, RecStart, answers).1 == Ended(Recovered)
    ensures CommittedOf(w, answers, Alone(w, RecStart, answers).0)
    ensures w.rec.status == Interrupted && |answers| > 1
  {
    RecoverRun(w, answers);
  }

  lemma EntryTells(w: World, answers: seq<Answer>, v: World, docker: bool)
    requires CommittedOf(w, answers, v)
    requires docker && w.ctr.Some? ==> OldFound(w, answers)
    ensures var h := v.rec.recoveryHistory[|w.rec.recoveryHistory|];
            && (w.ctr.None? ==> h.prevContainer.None? && h.prevExit.None?)
            && (docker && w.ctr.Some? ==>
                  h.prevContainer == Some(w.ctr.value.id) && h.prevExit == w.ctr.value.exit)
  {
  }

  lemma LuckyFindsOld(w: World, answers: seq<Answer>, luck: Recover.Luck)
    requires Recover.Lucky(w, RecStart, answers, luck) && luck.docker && w.ctr.Some?
    requires w.rec.status == Interrupted && |answers| > 1
    ensures OldFound(w, answers)
  {
    Recover.LuckyFront(w, answers, 1, luck);
    assert answers[..1] == [answers[0]];
    RecoverAsks(w, answers[0]);
  }

  lemma RecoverAsks(w: World, a: Answer)
    requires w.rec.status == Interrupted
    ensures Alone(w, RecStart, [a]) == (w, RecGet(w.rec))
  {
    assert [a][..0] == [];
  }
}
