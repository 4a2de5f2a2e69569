/** One process inside any run: what its own steps did, and what that guarantees, whatever the other
    processes and the environment do between them. */
module Histories {
  import opened Common
  import opened Reconcile
  import opened TaskModel
  import opened Protocol
  import opened Safety
  import opened Uninterrupted

  predicate IsStepOf(e: Event, pid: nat) {
    e.Go? && e.pid == pid
  }

  /** The run up to its k-th event. */
  function Until(s: Sys, es: seq<Event>, k: nat): Sys
    requires k <= |es|
  {
    Exec(s, es[..k])
  }

  lemma UntilFront(s: Sys, es: seq<Event>, k: nat)
    requires es != [] && k < |es|
    ensures Until(s, es[..|es| - 1], k) == Until(s, es, k)
  {
    assert es[..|es| - 1][..k] == es[..k];
  }

  lemma UntilNext(s: Sys, es: seq<Event>, k: nat)
    requires k < |es|
    ensures Until(s, es, k + 1) == Apply(Until(s, es, k), es[k])
  {
    assert es[..k + 1][..k] == es[..k];
  }

  lemma UntilAll(s: Sys, es: seq<Event>)
    ensures Until(s, es, |es|) == Exec(s, es)
  {
    assert es[..|es|] == es;
  }

  // ----- The acts of one teardown process -----

  /** The acts an event adds, all of them by the process whose step it is. */
  function EventActs(s: Sys, e: Event): seq<Act> {
    if e.Go? && e.pid in s.procs && s.procs[e.pid].Tearing?
    then StepActs(s.w, s.procs[e.pid].td, s.procs[e.pid].pc, e.answer) else []
  }

  /** The acts of process pid since it was last started. */
  function OwnActs(s: Sys, es: seq<Event>, pid: nat): seq<Act> {
    if es == [] then []
    else
      var front, e := es[..|es| - 1], es[|es| - 1];
      if e.Spawn? && e.pid == pid then []
      else OwnActs(s, front, pid) + if IsStepOf(e, pid) then EventActs(Exec(s, front), e) else []
  }

  /** What a process has done, by where it stands. */
  predicate OwnTrace(p: Proc, t: seq<Act>) {
    match p
    case Tearing(_, pc) => ActsSoFar(pc, t)
    case ReapAdvance(_) => CleanActs(t)
    case Ended(_) => t == [] || CleanActs(t) || FailedActs(t)
    case _ => t == []
  }

  lemma OwnTraceStep(w: World, p: Proc, t: seq<Act>, a: Answer)
    requires OwnTrace(p, t)
    ensures OwnTrace(Step(w, p, a).1, t + if p.Tearing? then StepActs(w, p.td, p.pc, a) else [])
  {
    AppendActs();
    assert t + [] == t;
    if p.Tearing? {
      OwnTearingStep(w, p.td, p.pc, t, a);
    }
  }

  lemma OwnTearingStep(w: World, td: Teardown, pc: TdPc, t: seq<Act>, a: Answer)
    requires ActsSoFar(pc, t)
    ensures OwnTrace(StepTeardown(w, td, pc, a).1, t + StepActs(w, td, pc, a))
  {
    AppendActs();
    assert t + [] == t;
  }

  lemma {:induction false} OwnTraceHolds(w: World, es: seq<Event>, pid: nat)
    ensures var s := Exec(Sys(w, map[]), es);
            pid in s.procs ==> OwnTrace(s.procs[pid], OwnActs(Sys(w, map[]), es, pid))
  {
    if es != [] {
      var front, e := es[..|es| - 1], es[|es| - 1];
      var s, t := Exec(Sys(w, map[]), front), OwnActs(Sys(w, map[]), front, pid);
      OwnTraceHolds(w, front, pid);
      assert t + [] == t;
      if IsStepOf(e, pid) && pid in s.procs {
        OwnTraceStep(s.w, s.procs[pid], t, e.answer);
      }
    }
  }

  /** How a teardown may end, in its own acts: cleanly, in the target status; or with a handled failure,
      failed with a `finish:` reason. */
  predicate EndsAsItShould(td: Teardown, t: seq<Act>, v: World, q: Proc) {
    || (q == Returns(td) && CleanActs(t) && v.rec.status == td.target)
    || (q == Ended(Exits(td)) && FailedActs(t) && v.rec.status == Failed && IsFinishReason(v.rec.failureReason))
  }

  /** Main result: in any run, between any steps of any other processes and any changes of the container,
      a teardown removes the worktree only after its own lookup said NotFound and its own capture, and
      ends with a clean trace of its own or with a handled failure. */
  lemma TeardownTraceInAnyRun(w: World, es: seq<Event>, pid: nat, a: Answer)
    requires var s := Exec(Sys(w, map[]), es); pid in s.procs && s.procs[pid].Tearing?
    ensures var s := Exec(Sys(w, map[]), es);
            var t := OwnActs(Sys(w, map[]), es, pid);
            var td := s.procs[pid].td;
            var (v, q) := Step(s.w, s.procs[pid], a);
            && v.acts == s.w.acts + StepActs(s.w, td, s.procs[pid].pc, a)
            && (v.worktree != s.w.worktree ==> t == LOOKED)
            && (if q.Tearing? then q.td == td && v.rec == s.w.rec
                else EndsAsItShould(td, t + StepActs(s.w, td, s.procs[pid].pc, a), v, q))
  {
    OwnTraceHolds(w, es, pid);
    var s := Exec(Sys(w, map[]), es);
    StepAddsActs(s.w, s.procs[pid].td, s.procs[pid].pc, a);
    OwnTearingEnds(s.w, s.procs[pid].td, s.procs[pid].pc, OwnActs(Sys(w, map[]), es, pid), a);
  }

  lemma OwnTearingEnds(w: World, td: Teardown, pc: TdPc, t: seq<Act>, a: Answer)
    requires ActsSoFar(pc, t)
    ensures var (v, q) := StepTeardown(w, td, pc, a);
            && (v.worktree != w.worktree ==> t == LOOKED)
            && (if q.Tearing? then q.td == td && v.rec == w.rec
                else EndsAsItShould(td, t + StepActs(w, td, pc, a), v, q))
  {
    AppendActs();
  }

  // ----- When a finished teardown leaves a container -----

  /** After event n, process pid is neither killed nor started anew. */
  predicate LeftToRun(es: seq<Event>, n: nat, pid: nat) {
    forall k :: n < k < |es| ==> !(es[k].Spawn? && es[k].pid == pid) && !(es[k].Kill? && es[k].pid == pid)
  }

  /** Event k is the answered lookup of process pid that found nothing. */
  predicate LooksAt(s: Sys, es: seq<Event>, pid: nat, k: nat)
    requires k < |es|
  {
    var t := Until(s, es, k);
    && IsStepOf(es[k], pid) && es[k].answer.ok
    && pid in t.procs && t.procs[pid].Tearing? && t.procs[pid].pc.TdVerify?
    && t.w.ctr.None?
  }

  /** Event k is a step of a recover that puts a container under the task's name. */
  predicate StartsAt(s: Sys, es: seq<Event>, k: nat)
    requires k < |es|
  {
    var t, e := Until(s, es, k), es[k];
    e.Go? && e.pid in t.procs && t.procs[e.pid].RecRun? && t.w.ctr.None? && (e.answer.ok || e.answer.effect)
  }

  predicate StandsAfterLookup(p: Proc) {
    p.Tearing? && (p.pc.TdCapture? || p.pc.TdPolicy? || p.pc.TdGit? || p.pc.TdTerminal?)
  }

  lemma {:induction false} OwnLookup(w: World, es: seq<Event>, pid: nat) returns (k: nat)
    requires var s := Exec(Sys(w, map[]), es); pid in s.procs && StandsAfterLookup(s.procs[pid])
    ensures k < |es| && LooksAt(Sys(w, map[]), es, pid, k) && LeftToRun(es, k, pid)
  {
    var s0, front, e := Sys(w, map[]), es[..|es| - 1], es[|es| - 1];
    var s := Exec(s0, front);
    UntilAll(s0, front);
    if IsStepOf(e, pid) && s.procs[pid].Tearing? && s.procs[pid].pc.TdVerify? {
      k := |es| - 1;
    } else {
      k := OwnLookup(w, front, pid);
      UntilFront(s0, es, k);
    }
  }

  /** An event changes which container there is only by taking it away or by a recover's start. */
  lemma ContainerEvent(s: Sys, e: Event)
    ensures var t := Apply(s, e);
            t.w.ctr.Some? ==>
              || (s.w.ctr.Some? && t.w.ctr.value.id == s.w.ctr.value.id)
              || (s.w.ctr.None? && e.Go? && e.pid in s.procs && s.procs[e.pid].RecRun?
                  && (e.answer.ok || e.answer.effect) && t.w.ctr.value.id == s.w.nextId)
  {
  }

  /** From a moment without a container on: there is one exactly when a recover started it since then
      and it is still there. */
  lemma {:induction false} ContainerSince(s: Sys, es: seq<Event>, j: nat)
    requires j <= |es| && Until(s, es, j).w.ctr.None?
    ensures Exec(s, es).w.ctr.Some? <==>
            exists i :: j <= i < |es| && StartsAt(s, es, i) && Holds(Exec(s, es).w, Until(s, es, i).w.nextId)
  {
    if j == |es| {
      UntilAll(s, es);
    } else if Exec(s, es).w.ctr.Some? {
      var n := |es| - 1;
      var front := es[..n];
      var u := Exec(s, front);
      UntilAll(s, front);
      assert front[..j] == es[..j];
      ContainerSince(s, front, j);
      ContainerEvent(u, es[n]);
      if u.w.ctr.None? {
        assert StartsAt(s, es, n) && Holds(Exec(s, es).w, Until(s, es, n).w.nextId);
      } else {
        var i :| j <= i < |front| && StartsAt(s, front, i) && Holds(u.w, Until(s, front, i).w.nextId);
        UntilFront(s, es, i);
        assert StartsAt(s, es, i) && Holds(Exec(s, es).w, Until(s, es, i).w.nextId);
      }
    }
  }

  /** Main result: in any run, a teardown that is about to write its terminal status leaves a container
      under the task's name exactly when a recover started one after the teardown's own NotFound lookup
      and that container is still there. */
  lemma TerminalWriteLeavesContainerIff(w: World, es: seq<Event>, pid: nat, a: Answer) returns (j: nat)
    requires var s := Exec(Sys(w, map[]), es); pid in s.procs && s.procs[pid].Tearing? && s.procs[pid].pc.TdTerminal?
    ensures j < |es| && LooksAt(Sys(w, map[]), es, pid, j) && LeftToRun(es, j, pid)
    ensures var v := Apply(Exec(Sys(w, map[]), es), Go(pid, a)).w;
            v.ctr.Some? <==>
            exists i :: j < i < |es| && StartsAt(Sys(w, map[]), es, i)
                        && Holds(v, Until(Sys(w, map[]), es, i).w.nextId)
  {
    var s0 := Sys(w, map[]);
    j := OwnLookup(w, es, pid);
    UntilNext(s0, es, j);
    ContainerSince(s0, es, j + 1);
    assert Apply(Exec(s0, es), Go(pid, a)).w.ctr == Exec(s0, es).w.ctr;
  }

  // ----- A recover that lost undoes itself -----

  ghost predicate KeepsRecord(s: Sys, es: seq<Event>, k: nat)
    requires k < |es|
  {
    Until(s, es, k + 1).w.rec == Until(s, es, k).w.rec
  }

  /** No step of process pid from event n on changed the record. */
  ghost predicate WroteNothing(s: Sys, es: seq<Event>, n: nat, pid: nat) {
    forall k :: n <= k < |es| && IsStepOf(es[k], pid) ==> KeepsRecord(s, es, k)
  }

  /** Event k is the process's removal of container id; if it was answered, the container is gone from
      then on. */
  ghost predicate RemovedAt(s: Sys, es: seq<Event>, pid: nat, id: nat, k: nat)
    requires k < |es|
  {
    var t := Until(s, es, k);
    && IsStepOf(es[k], pid) && pid in t.procs && t.procs[pid].RecKillRemove? && t.procs[pid].newId == id
    && (es[k].answer.ok ==> forall m :: k < m <= |es| ==> !Holds(Until(s, es, m).w, id))
  }

  /** Where a recover that has started container id can stand, and what it has done since. */
  ghost predicate Recovers(s: Sys, es: seq<Event>, n: nat, pid: nat, id: nat) {
    var t := Exec(s, es);
    && pid in t.procs
    && (t.procs[pid] == Ended(Recovered) || WroteNothing(s, es, n, pid))
    && match t.procs[pid]
       case RecReload(_, newId) => newId == id
       case RecCommit(_, newId, _) => newId == id
       case RecKillStop(newId, o) => newId == id && (o == NotInterrupted || o == RecoverFailed)
       case RecKillRemove(newId, o) => newId == id && (o == NotInterrupted || o == RecoverFailed)
       case Ended(o) =>
         || o == Recovered
         || ((o == NotInterrupted || o == RecoverFailed) && exists k :: n < k < |es| && RemovedAt(s, es, pid, id, k))
       case _ => false
  }

  lemma WroteNothingMore(s: Sys, es: seq<Event>, n: nat, pid: nat)
    requires es != [] && n < |es|
    requires WroteNothing(s, es[..|es| - 1], n, pid)
    requires IsStepOf(es[|es| - 1], pid) ==> Exec(s, es).w.rec == Exec(s, es[..|es| - 1]).w.rec
    ensures WroteNothing(s, es, n, pid)
  {
    forall k | n <= k < |es| && IsStepOf(es[k], pid) ensures KeepsRecord(s, es, k) {
      if k < |es| - 1 {
        assert IsStepOf(es[..|es| - 1][k], pid);
        KeepsFront(s, es, k);
      } else {
        KeepsLast(s, es);
      }
    }
  }

  lemma KeepsLast(s: Sys, es: seq<Event>)
    requires es != [] && Exec(s, es).w.rec == Exec(s, es[..|es| - 1]).w.rec
    ensures KeepsRecord(s, es, |es| - 1)
  {
    UntilAll(s, es);
  }

  lemma KeepsFront(s: Sys, es: seq<Event>, k: nat)
    requires es != [] && k < |es| - 1 && KeepsRecord(s, es[..|es| - 1], k)
    ensures KeepsRecord(s, es, k)
  {
    assert es[..|es| - 1][..k] == es[..k] && es[..|es| - 1][..k + 1] == es[..k + 1];
  }

  /** A removal stays one, and a container that is gone stays gone, as the run goes on. */
  lemma RemovedStays(s: Sys, es: seq<Event>, pid: nat, id: nat, k: nat)
    requires es != [] && k < |es| - 1
    requires SysOk(Exec(s, es[..|es| - 1])) && id < Exec(s, es[..|es| - 1]).w.nextId
    requires RemovedAt(s, es[..|es| - 1], pid, id, k)
    ensures RemovedAt(s, es, pid, id, k)
  {
    var front := es[..|es| - 1];
    UntilAll(s, es);
    UntilAll(s, front);
    UntilFront(s, es, k);
    ApplyOk(Exec(s, front), es[|es| - 1]);
    forall m | k < m <= |es| && es[k].answer.ok ensures !Holds(Until(s, es, m).w, id) {
      if m < |es| {
        assert front[..m] == es[..m];
        assert !Holds(Until(s, front, m).w, id);
      } else {
        assert !Holds(Until(s, front, |front|).w, id);
      }
    }
  }

  lemma RemovedNow(s: Sys, es: seq<Event>, pid: nat, id: nat)
    requires es != [] && IsStepOf(es[|es| - 1], pid)
    requires var t := Exec(s, es[..|es| - 1]);
             pid in t.procs && t.procs[pid].RecKillRemove? && t.procs[pid].newId == id
    ensures RemovedAt(s, es, pid, id, |es| - 1)
  {
    UntilAll(s, es);
    var t := Exec(s, es[..|es| - 1]);
    LostRaceLeavesRecord(t.w, t.procs[pid], es[|es| - 1].answer);
  }

  /** One more event of the run. */
  lemma RecoversStep(s: Sys, es: seq<Event>, n: nat, pid: nat, id: nat)
    requires es != [] && n < |es| - 1 && LeftToRun(es, n, pid)
    requires SysOk(Exec(s, es[..|es| - 1])) && id < Exec(s, es[..|es| - 1]).w.nextId
    requires Recovers(s, es[..|es| - 1], n, pid, id)
    ensures Recovers(s, es, n, pid, id)
  {
    var front, e := es[..|es| - 1], es[|es| - 1];
    var t := Exec(s, front);
    var p := t.procs[pid];
    if IsStepOf(e, pid) && !p.Ended? {
      LostRaceLeavesRecord(t.w, p, e.answer);
      if Exec(s, es).procs[pid] != Ended(Recovered) {
        WroteNothingMore(s, es, n, pid);
      }
      if p.RecKillRemove? {
        RemovedNow(s, es, pid, id);
      }
    } else {
      assert Exec(s, es).procs[pid] == p;
      if p != Ended(Recovered) {
        WroteNothingMore(s, es, n, pid);
        if p.Ended? {
          var k :| n < k < |front| && RemovedAt(s, front, pid, id, k);
          RemovedStays(s, es, pid, id, k);
        }
      }
    }
  }

  lemma RecoversStart(s: Sys, es: seq<Event>, n: nat, pid: nat)
    requires n == |es| - 1
    requires StartsAt(s, es, n) && es[n].pid == pid && es[n].answer.ok
    ensures Recovers(s, es, n, pid, Until(s, es, n).w.nextId)
    ensures Until(s, es, n).w.nextId < Exec(s, es).w.nextId
  {
    UntilAll(s, es);
    UntilNext(s, es, n);
    assert KeepsRecord(s, es, n);
  }

  lemma {:induction false} RecoversOn(s: Sys, es: seq<Event>, n: nat, pid: nat)
    requires SysOk(s) && n < |es| && LeftToRun(es, n, pid)
    requires StartsAt(s, es, n) && es[n].pid == pid && es[n].answer.ok
    ensures Recovers(s, es, n, pid, Until(s, es, n).w.nextId)
    ensures Until(s, es, n).w.nextId < Exec(s, es).w.nextId
    decreases |es|
  {
    if n == |es| - 1 {
      RecoversStart(s, es, n, pid);
    } else {
      var front := es[..|es| - 1];
      ExecOk(s, front);
      UntilFront(s, es, n);
      RecoversOn(s, front, n, pid);
      RecoversStep(s, es, n, pid, Until(s, es, n).w.nextId);
      ApplyOk(Exec(s, front), es[|es| - 1]);
    }
  }

  /** Main result: in any run, a recover that started a container and was left to run to
      a loss (the task was no longer interrupted, or a later call failed) wrote nothing in any of its
      steps since, and asked for the removal of that container; if the removal was answered, the
      container is in no later state. */
  lemma LostRecoverUndoesItself(s: Sys, es: seq<Event>, n: nat, pid: nat)
    requires SysOk(s) && n < |es| && LeftToRun(es, n, pid)
    requires StartsAt(s, es, n) && es[n].pid == pid && es[n].answer.ok
    requires var t := Exec(s, es); pid in t.procs && t.procs[pid].Ended? && t.procs[pid] != Ended(Recovered)
    ensures var o := Exec(s, es).procs[pid].outcome;
            && (o == NotInterrupted || o == RecoverFailed)
            && WroteNothing(s, es, n, pid)
            && exists k :: n < k < |es| && RemovedAt(s, es, pid, Until(s, es, n).w.nextId, k)
  {
    RecoversOn(s, es, n, pid);
  }
}
