/** The controller's own procedures, statement by statement on one task's mutable state. Each is an
    uninterrupted run of the corresponding process, so what holds of that process holds of it. */
module Controller {
  import opened Common
  import opened Reconcile
  import opened TaskModel
  import opened Protocol
  import opened Uninterrupted
  import Journal

  /** One task folder, its container and its worktree. */
  class TaskHost {
    var rec: Rec
    var ctr: Option<Ctr>
    var nextId: nat
    var journal: seq<byte>
    var logSize: nat
    var worktree: bool
    var errorLog: seq<Journal.Malformed>
    var acts: seq<Act>
    const taskImage: string
    const classify: Journal.Classifier

    ghost function W(): World
      reads this
    {
      World(rec, ctr, nextId, journal, logSize, worktree, errorLog, acts, taskImage, classify)
    }

    constructor (w: World)
      ensures W() == w
    {
      rec, ctr, nextId, journal := w.rec, w.ctr, w.nextId, w.journal;
      logSize, worktree, errorLog, acts := w.logSize, w.worktree, w.errorLog, w.acts;
      taskImage, classify := w.taskImage, w.classify;
    }

    // ----- Single calls -----

    method StopContainer(id: nat, a: Answer)
      modifies this`ctr
      ensures W() == StopCtr(old(W()), id, a)
    {
      if ctr.Some? && ctr.value.id == id && (a.ok || a.effect) {
        ctr := Some(ctr.value.(state := CtrExited));
      }
    }

    method RemoveContainer(id: nat, a: Answer)
      modifies this`ctr
      ensures W() == RemoveCtr(old(W()), id, a)
    {
      if ctr.Some? && ctr.value.id == id && (a.ok || a.effect) {
        ctr := None;
      }
    }

    /** A new container under the task's name. */
    method CreateContainer(state: CtrState) returns (id: nat)
      modifies this`ctr, this`nextId
      ensures id == old(nextId) && W() == NewCtr(old(W()), state)
    {
      id := nextId;
      ctr := Some(Ctr(id, state, None));
      nextId := id + 1;
    }

    /** Best-effort stop and remove of whatever holds the name. */
    method StopAndRemove(get: Answer, stop: Answer, remove: Answer) returns (found: bool)
      modifies this`ctr
      ensures found <==> get.ok && old(ctr).Some?
      ensures found ==> W() == RemoveCtr(StopCtr(old(W()), old(ctr).value.id, stop), old(ctr).value.id, remove)
      ensures !found ==> W() == old(W())
    {
      found := get.ok && ctr.Some?;
      if found {
        var id := ctr.value.id;
        StopContainer(id, stop);
        RemoveContainer(id, remove);
      }
    }

    // ----- teardown_and_mark -----

    /** The part up to the verified absence of the container. */
    method VerifyGone(a: Answer) returns (gone: bool)
      modifies this`acts
      ensures gone <==> a.ok && old(ctr).None?
      ensures W() == WithAct(old(W()), if !a.ok then LookupFailed else LookedUp(old(ctr).Some?))
    {
      if !a.ok {
        acts := acts + [LookupFailed];
        return false;
      }
      acts := acts + [LookedUp(ctr.Some?)];
      gone := ctr.None?;
    }

    /** Worktree removal; false when git failed and the worktree had to go. */
    method RemoveWorktree(a: Answer) returns (ok: bool)
      modifies this`worktree, this`acts
      ensures ok <==> !old(worktree) || a.ok
      ensures W() == if old(worktree) && (a.ok || a.effect)
                     then WithAct(old(W()).(worktree := false), WorktreeRemoved) else old(W())
    {
      if !worktree {
        return true;
      }
      if a.ok || a.effect {
        worktree := false;
        acts := acts + [WorktreeRemoved];
      }
      ok := a.ok;
    }

    /** Stop and remove, verify, capture, worktree, terminal write. `used` counts the answers consumed. */
    method TeardownAndMark(td: Teardown, answers: seq<Answer>) returns (ok: bool, used: nat)
      requires |answers| >= 10
      modifies this
      ensures used <= |answers|
      ensures Alone(old(W()), Tearing(td, TdRead), answers[..used])
           == (W(), if ok then Returns(td) else Ended(Exits(td)))
      ensures TearingFrom(old(W()), td, W(), if ok then Returns(td) else Ended(Exits(td)))
    {
      ghost var w0 := W();
      ghost var p0 := Tearing(td, TdRead);
      var data := rec;
      var found := StopAndRemove(answers[1], answers[2], answers[3]);
      var k := if found then 4 else 2;
      TeardownToVerify(w0, td, answers);
      var more;
      ok, more := VerifyAndFinish(td, data, answers[k..]);
      used := k + more;
      AnswersInTwo(answers, k, more);
      AloneInTwo(w0, p0, answers[..k], answers[k..][..more]);
      TeardownTrace(w0, td, answers[..used]);
    }

    /** From the second lookup on: only a NotFound answer lets the teardown go further. */
    method VerifyAndFinish(td: Teardown, data: Rec, answers: seq<Answer>) returns (ok: bool, used: nat)
      requires |answers| >= 6
      modifies this`rec, this`worktree, this`acts
      ensures used <= |answers|
      ensures Alone(old(W()), Tearing(td, TdVerify(data)), answers[..used])
           == (W(), if ok then Returns(td) else Ended(Exits(td)))
    {
      ghost var w0 := W();
      ghost var p0 := Tearing(td, TdVerify(data));
      var gone := VerifyGone(answers[0]);
      assert answers[..0] == [];
      AloneStep(w0, p0, answers, 0);
      VerifyStep(w0, td, data, answers[0]);
      if !gone {
        FailAfter(w0, p0, td, answers[0].text, answers, 1, W());
        rec := FailedMutator(rec, answers[0].text, answers[1].text);
        acts := acts + [WroteFailed];
        return false, 2;
      }
      var more;
      ok, more := CaptureAndFinish(td, data, answers[1..]);
      used := 1 + more;
      AnswersInTwo(answers, 1, more);
      AloneInTwo(w0, p0, answers[..1], answers[1..][..more]);
    }

    /** From the capture on: the bundle, for project tasks the worktree, then the terminal write. */
    method CaptureAndFinish(td: Teardown, data: Rec, answers: seq<Answer>) returns (ok: bool, used: nat)
      requires |answers| >= 5
      modifies this`rec, this`worktree, this`acts
      ensures used <= |answers|
      ensures Alone(old(W()), Tearing(td, TdCapture(data)), answers[..used])
           == (W(), if ok then Returns(td) else Ended(Exits(td)))
    {
      ghost var w0 := W();
      ghost var p0 := Tearing(td, TdCapture(data));
      acts := acts + [Captured];
      assert answers[..0] == [];
      AloneStep(w0, p0, answers, 0);
      CaptureStep(w0, td, data, answers[0]);
      if data.project {
        assert Alone(w0, p0, answers[..1]) == (W(), Tearing(td, TdPolicy(data)));
        var more;
        ok, more := DisposeAndFinish(td, data, answers[1..]);
        used := 1 + more;
        AnswersInTwo(answers, 1, more);
        AloneInTwo(w0, p0, answers[..1], answers[1..][..more]);
      } else {
        ghost var w1 := W();
        WriteTerminal(td, answers[1]);
        ThenOne(w0, p0, answers, 1, w1, Tearing(td, TdTerminal), W(), Returns(td));
        ok, used := true, 2;
      }
    }

    /** A project task's worktree, as the finish policy says. */
    method DisposeAndFinish(td: Teardown, data: Rec, answers: seq<Answer>) returns (ok: bool, used: nat)
      requires |answers| >= 4
      modifies this`rec, this`worktree, this`acts
      ensures used <= |answers|
      ensures Alone(old(W()), Tearing(td, TdPolicy(data)), answers[..used])
           == (W(), if ok then Returns(td) else Ended(Exits(td)))
    {
      ghost var w0 := W();
      ghost var p0 := Tearing(td, TdPolicy(data));
      var a := answers[0];
      var policy := ResolveFinishPolicy(td.override, data.policy, td.allowPrompt, a.ok, a.text);
      var repo := data.repoPath || a.effect;
      assert answers[..0] == [];
      AloneStep(w0, p0, answers, 0);
      PolicyStep(w0, td, data, a);
      if policy == DeleteWorktree && repo && data.worktreePath {
        var more;
        ok, more := RemoveAndFinish(td, data, answers[1..]);
        used := 1 + more;
        AnswersInTwo(answers, 1, more);
        AloneInTwo(w0, p0, answers[..1], answers[1..][..more]);
      } else {
        WriteTerminal(td, answers[1]);
        ThenOne(w0, p0, answers, 1, w0, Tearing(td, TdTerminal), W(), Returns(td));
        ok, used := true, 2;
      }
    }

    /** The removal by git, and then the terminal write, or the failed one. */
    method RemoveAndFinish(td: Teardown, data: Rec, answers: seq<Answer>) returns (ok: bool, used: nat)
      requires |answers| >= 3
      modifies this`rec, this`worktree, this`acts
      ensures used <= |answers|
      ensures Alone(old(W()), Tearing(td, TdGit(data)), answers[..used])
           == (W(), if ok then Returns(td) else Ended(Exits(td)))
    {
      ghost var w0 := W();
      ghost var p0 := Tearing(td, TdGit(data));
      assert answers[..0] == [];
      AloneStep(w0, p0, answers, 0);
      GitStep(w0, td, data, answers[0]);
      ok := RemoveWorktree(answers[0]);
      used := 2;
      if !ok {
        FailAfter(w0, p0, td, answers[0].text, answers, 1, W());
        rec := FailedMutator(rec, answers[0].text, answers[1].text);
        acts := acts + [WroteFailed];
      } else {
        ghost var w1 := W();
        WriteTerminal(td, answers[1]);
        ThenOne(w0, p0, answers, 1, w1, Tearing(td, TdTerminal), W(), Returns(td));
      }
    }

    /** The terminal write is the last step of the teardown process. */
    method WriteTerminal(td: Teardown, a: Answer)
      modifies this`rec, this`acts
      ensures Alone(old(W()), Tearing(td, TdTerminal), [a]) == (W(), Returns(td))
    {
      TerminalStep(W(), td, a);
      AloneOne(W(), Tearing(td, TdTerminal), a);
      rec := TerminalMutator(rec, td.target, td.reason, a.text);
      acts := acts + [WroteTerminal];
    }

    // ----- finish -----

    /** The operator's finish: a short-circuit for tasks that are already over, unless something is left. */
    method FinishTask(force: bool, override: Option<FinishPolicy>, answers: seq<Answer>) returns (o: Outcome)
      requires |answers| >= 12
      modifies this
      ensures Alone(old(W()), FinishStart(force, override), answers) == (W(), Ended(o))
    {
      ghost var w0 := W();
      var current := rec.status;
      var target := if Terminal(current) then current else Completed;
      AloneFirst(w0, FinishStart(force, override), answers);
      if Terminal(current) && !force && override.None? {
        AloneFirst(w0, FinishProbe(current), answers[1..]);
        if !(answers[1].ok && ctr.Some?) {
          EndedStays(w0, FinishNothingToDo, answers[1..][1..]);
          return FinishNothingToDo;
        }
        o := RunTeardown(Teardown(target, None, true, "", FinishReturns), answers[1..][1..]);
      } else {
        o := RunTeardown(Teardown(target, override, true, "", FinishReturns), answers[1..]);
      }
    }

    /** A teardown that ends its process. */
    method RunTeardown(td: Teardown, answers: seq<Answer>) returns (o: Outcome)
      requires |answers| >= 10 && td.after == FinishReturns
      modifies this
      ensures Alone(old(W()), Tearing(td, TdRead), answers) == (W(), Ended(o))
    {
      ghost var w0 := W();
      var ok, used := TeardownAndMark(td, answers);
      o := if ok then FinishReturned else SystemExit;
      assert answers == answers[..used] + answers[used..];
      AloneInTwo(w0, Tearing(td, TdRead), answers[..used], answers[used..]);
      EndedStays(W(), o, answers[used..]);
    }

    // ----- one task of list or reap -----

    /** Look, read, tail, measure, log the malformed lines, write under the lock, and for a pending
        event tear down inline and only then advance the offset. */
    method ReconcileOne(mode: Mode, answers: seq<Answer>) returns (o: Outcome)
      requires |answers| >= 17
      modifies this
      ensures Alone(old(W()), ListStart(mode), answers) == (W(), Ended(o))
    {
      ghost var w0 := W();
      ghost var p0 := ListStart(mode);
      AloneFirst(w0, p0, answers);
      if !answers[0].ok {
        EndedStays(w0, Raised, answers[1..]);
        return Raised;
      }
      var look := LookAt(ctr);
      var rec0 := rec;
      var tailed := Journal.TailEvents(classify, Journal.Regular(journal, true), rec0.eventsOffset);
      if tailed.None? {
        TailRaises(w0, mode, answers);
        return Raised;
      }
      var plan := Plan(mode, look, rec0, tailed.value, logSize);
      if !(plan.Defers() || mode.dry) {
        errorLog := errorLog + plan.tail.malformed;
      }
      ListAlone(w0, mode, answers);
      assert answers == answers[..6] + answers[6..];
      AloneInTwo(w0, p0, answers[..6], answers[6..]);
      assert W() == AfterDiag(w0, plan);
      if mode.dry {
        o := Listed(0, if plan.DryPending() then 1 else 0, false);
        EndedStays(W(), o, answers[6..]);
        return;
      }
      // Nothing ran since the record was read, so the compare-and-set cannot find it stale.
      assert !Stale(rec, plan);
      rec := ListMutator(rec, plan, answers[5].text);
      if !plan.InlineTeardown() {
        o := Listed(0, 0, false);
        EndedStays(W(), o, answers[6..]);
        return;
      }
      var target := if plan.Kind() == Some(Journal.Done) then Completed else Failed;
      var td := Teardown(target, None, false, plan.FailReason(), ReapAdvances(plan.tail.offset));
      o := TeardownAndAdvance(td, plan.tail.offset, answers[6..]);
    }

    method TeardownAndAdvance(td: Teardown, newOffset: nat, answers: seq<Answer>) returns (o: Outcome)
      requires |answers| >= 11 && td.after == ReapAdvances(newOffset)
      modifies this
      ensures Alone(old(W()), Tearing(td, TdRead), answers) == (W(), Ended(o))
    {
      ghost var w0 := W();
      ghost var p0 := Tearing(td, TdRead);
      var ok, used := TeardownAndMark(td, answers[..10]);
      assert answers[..10][..used] == answers[..used];
      assert answers == answers[..used] + answers[used..];
      AloneInTwo(w0, p0, answers[..used], answers[used..]);
      if !ok {
        o := Listed(0, 0, false);
        EndedStays(W(), o, answers[used..]);
        return;
      }
      AloneFirst(W(), ReapAdvance(newOffset), answers[used..]);
      rec := AdvanceMutator(rec, newOffset);
      o := Listed(1, 0, false);
      EndedStays(W(), o, answers[used..][1..]);
    }

    // ----- recover -----

    /** Remove the old container, start a new one, commit; roll the new one back if the commit fails. */
    method RecoverTask(answers: seq<Answer>) returns (o: Outcome)
      requires |answers| >= 10
      modifies this
      ensures Alone(old(W()), RecStart, answers) == (W(), Ended(o))
    {
      ghost var w0 := W();
      if rec.status != Interrupted {
        AloneFirst(w0, RecStart, answers);
        EndedStays(w0, NotInterrupted, answers[1..]);
        return NotInterrupted;
      }
      var r := Recovering(rec, if answers[1].ok then ctr else None, GitState(rec, answers[1].text));
      var found := StopAndRemove(answers[1], answers[2], answers[3]);
      var used := if found then 4 else 2;
      RecoverToBanner(w0, answers);
      assert answers == answers[..used] + answers[used..];
      AloneInTwo(w0, RecStart, answers[..used], answers[used..]);
      o := BannerAndStart(r, answers[used..]);
    }

    method BannerAndStart(r: Recovering, answers: seq<Answer>) returns (o: Outcome)
      requires |answers| >= 6
      modifies this
      ensures Alone(old(W()), RecBanner(r), answers) == (W(), Ended(o))
    {
      ghost var w0 := W();
      BannerStep(w0, r, answers[0]);
      if answers[0].ok {
        logSize := logSize + |answers[0].text|;
      }
      AloneFrom(w0, RecBanner(r), answers, W(), RecRun(r));
      o := StartAndCommit(r, answers[1..]);
    }

    method StartAndCommit(r: Recovering, answers: seq<Answer>) returns (o: Outcome)
      requires |answers| >= 5
      modifies this
      ensures Alone(old(W()), RecRun(r), answers) == (W(), Ended(o))
    {
      AloneFirst(W(), RecRun(r), answers);
      if ctr.Some? {
        EndedStays(W(), RecoverFailed, answers[1..]);
        return RecoverFailed;
      }
      if !answers[0].ok {
        if answers[0].effect {
          var leftover := CreateContainer(CtrCreated);
        }
        EndedStays(W(), RecoverFailed, answers[1..]);
        return RecoverFailed;
      }
      var newId := CreateContainer(CtrRunning);
      o := Commit(r, newId, answers[1..]);
    }

    method Commit(r: Recovering, newId: nat, answers: seq<Answer>) returns (o: Outcome)
      requires |answers| >= 4
      modifies this
      ensures Alone(old(W()), RecReload(r, newId), answers) == (W(), Ended(o))
    {
      AloneFirst(W(), RecReload(r, newId), answers);
      if !(answers[0].ok && ctr.Some? && ctr.value.id == newId) {
        o := KillNewContainer(newId, RecoverFailed, answers[1..]);
        return;
      }
      o := CommitRunning(r, newId, answers[0].text, answers[1..]);
    }

    method CommitRunning(r: Recovering, newId: nat, digest: string, answers: seq<Answer>) returns (o: Outcome)
      requires |answers| >= 3
      modifies this
      ensures Alone(old(W()), RecCommit(r, newId, digest), answers) == (W(), Ended(o))
    {
      AloneFirst(W(), RecCommit(r, newId, digest), answers);
      CommitStep(W(), r, newId, digest, answers[0]);
      if rec.status != Interrupted {
        o := KillNewContainer(newId, NotInterrupted, answers[1..]);
        return;
      }
      if !answers[0].ok {
        o := KillNewContainer(newId, RecoverFailed, answers[1..]);
        return;
      }
      var ts := answers[0].text;
      var entry := Recovery(ts, 0,
        if r.prev.Some? then Some(r.prev.value.id) else None,
        if r.prev.Some? then r.prev.value.exit else None,
        r.rec0.imageDigest, digest, r.rec0.imageTag, taskImage, r.gitState);
      rec := RecoverMutator(rec, entry, ts).value;
      EndedStays(W(), Recovered, answers[1..]);
      o := Recovered;
    }

    method KillNewContainer(newId: nat, outcome: Outcome, answers: seq<Answer>) returns (o: Outcome)
      requires |answers| >= 2
      modifies this`ctr
      ensures o == outcome
      ensures Alone(old(W()), RecKillStop(newId, outcome), answers) == (W(), Ended(o))
      ensures answers[1].ok ==> !Holds(W(), newId)
    {
      KillSteps(W(), newId, outcome, answers);
      StopContainer(newId, answers[0]);
      RemoveContainer(newId, answers[1]);
      o := outcome;
    }
  }

  // ----- The steps behind the longer stretches -----

  lemma AloneOne(w: World, p: Proc, a: Answer)
    ensures Alone(w, p, [a]) == Step(w, p, a)
  {
    assert [a][..0] == [];
  }

  /** One more answer. */
  lemma ThenOne(w0: World, p0: Proc, answers: seq<Answer>, k: nat, w1: World, p1: Proc, w2: World, p2: Proc)
    requires k < |answers| && Alone(w0, p0, answers[..k]) == (w1, p1)
    requires Alone(w1, p1, [answers[k]]) == (w2, p2)
    ensures Alone(w0, p0, answers[..k + 1]) == (w2, p2)
  {
    AloneStep(w0, p0, answers, k);
    AloneOne(w1, p1, answers[k]);
  }

  lemma AnswersInTwo(answers: seq<Answer>, k: nat, more: nat)
    requires k + more <= |answers|
    ensures answers[..k + more] == answers[..k] + answers[k..][..more]
  {
  }

  lemma TeardownToVerify(w: World, td: Teardown, answers: seq<Answer>)
    requires |answers| >= 4
    ensures var p := Tearing(td, TdRead);
            if answers[1].ok && w.ctr.Some? then
              Alone(w, p, answers[..4])
              == (RemoveCtr(StopCtr(w, w.ctr.value.id, answers[2]), w.ctr.value.id, answers[3]),
                  Tearing(td, TdVerify(w.rec)))
            else
              Alone(w, p, answers[..2]) == (w, Tearing(td, TdVerify(w.rec)))
  {
    var p := Tearing(td, TdRead);
    TeardownFirstSteps(w, td, answers);
    if answers[1].ok && w.ctr.Some? {
      var id := w.ctr.value.id;
      AloneStep(w, p, answers, 2);
      StopAndRemoveSteps(w, td, w.rec, id, answers[2]);
      AloneStep(w, p, answers, 3);
      StopAndRemoveSteps(StopCtr(w, id, answers[2]), td, w.rec, id, answers[3]);
    }
  }

  lemma TeardownFirstSteps(w: World, td: Teardown, answers: seq<Answer>)
    requires |answers| >= 2
    ensures Alone(w, Tearing(td, TdRead), answers[..2])
         == (w, Tearing(td, if answers[1].ok && w.ctr.Some? then TdStop(w.rec, w.ctr.value.id) else TdVerify(w.rec)))
  {
    assert answers[..0] == [];
    AloneStep(w, Tearing(td, TdRead), answers, 0);
    assert Alone(w, Tearing(td, TdRead), answers[..1]) == (w, Tearing(td, TdGet(w.rec)));
    AloneStep(w, Tearing(td, TdRead), answers, 1);
  }

  lemma StopAndRemoveSteps(w: World, td: Teardown, data: Rec, id: nat, a: Answer)
    ensures Step(w, Tearing(td, TdStop(data, id)), a) == (StopCtr(w, id, a), Tearing(td, TdRemove(data, id)))
    ensures Step(w, Tearing(td, TdRemove(data, id)), a) == (RemoveCtr(w, id, a), Tearing(td, TdVerify(data)))
  {
  }

  lemma PolicyStep(w: World, td: Teardown, data: Rec, a: Answer)
    ensures var policy := ResolveFinishPolicy(td.override, data.policy, td.allowPrompt, a.ok, a.text);
            var remove := policy == DeleteWorktree && (data.repoPath || a.effect) && data.worktreePath;
            Step(w, Tearing(td, TdPolicy(data)), a) == (w, Tearing(td, if remove then TdGit(data) else TdTerminal))
  {
  }

  lemma BannerStep(w: World, r: Recovering, a: Answer)
    ensures Step(w, RecBanner(r), a) == (if a.ok then w.(logSize := w.logSize + |a.text|) else w, RecRun(r))
  {
  }

  lemma CommitStep(w: World, r: Recovering, newId: nat, digest: string, a: Answer)
    ensures Step(w, RecCommit(r, newId, digest), a) ==
            if w.rec.status != Interrupted then (w, RecKillStop(newId, NotInterrupted))
            else if !a.ok then (w, RecKillStop(newId, RecoverFailed))
            else (w.(rec := RecoverMutator(w.rec, RecoveryEntry(w, r, digest, a.text), a.text).value),
                  Ended(Recovered))
  {
  }

  lemma KillSteps(w: World, newId: nat, outcome: Outcome, answers: seq<Answer>)
    requires |answers| >= 2
    ensures Alone(w, RecKillStop(newId, outcome), answers)
         == (RemoveCtr(StopCtr(w, newId, answers[0]), newId, answers[1]), Ended(outcome))
  {
    var w1 := StopCtr(w, newId, answers[0]);
    AloneFirst(w, RecKillStop(newId, outcome), answers);
    AloneFirst(w1, RecKillRemove(newId, outcome), answers[1..]);
    EndedStays(RemoveCtr(w1, newId, answers[1]), outcome, answers[1..][1..]);
  }

  lemma FailAfter(w0: World, p0: Proc, td: Teardown, message: string, answers: seq<Answer>, k: nat, w: World)
    requires k < |answers|
    requires Alone(w0, p0, answers[..k]) == (w, Tearing(td, TdMark(message)))
    ensures Alone(w0, p0, answers[..k + 1])
         == (WithAct(w.(rec := FailedMutator(w.rec, message, answers[k].text)), WroteFailed), Ended(Exits(td)))
  {
    AloneStep(w0, p0, answers, k);
  }

  lemma GitStep(w: World, td: Teardown, data: Rec, a: Answer)
    ensures Step(w, Tearing(td, TdGit(data)), a)
         == (if w.worktree && (a.ok || a.effect) then WithAct(w.(worktree := false), WorktreeRemoved) else w,
             Tearing(td, if !w.worktree || a.ok then TdTerminal else TdMark(a.text)))
  {
  }

  lemma OldContainerSteps(w: World, r: Recovering, a: Answer)
    requires r.prev.Some?
    ensures Step(w, RecStop(r), a) == (StopCtr(w, r.prev.value.id, a), RecRemove(r))
    ensures Step(w, RecRemove(r), a) == (RemoveCtr(w, r.prev.value.id, a), RecBanner(r))
  {
  }

  lemma RecoverFirstSteps(w: World, answers: seq<Answer>)
    requires |answers| >= 2 && w.rec.status == Interrupted
    ensures Alone(w, RecStart, answers[..2])
         == (w, if answers[1].ok && w.ctr.Some? then RecStop(Recovering(w.rec, w.ctr, GitState(w.rec, answers[1].text)))
                else RecBanner(Recovering(w.rec, None, GitState(w.rec, answers[1].text))))
  {
    assert answers[..0] == [];
    AloneStep(w, RecStart, answers, 0);
    assert Alone(w, RecStart, answers[..1]) == (w, RecGet(w.rec));
    AloneStep(w, RecStart, answers, 1);
  }

  lemma RecoverToBanner(w: World, answers: seq<Answer>)
    requires |answers| >= 4 && w.rec.status == Interrupted
    ensures var p := RecStart;
            if answers[1].ok && w.ctr.Some? then
              Alone(w, p, answers[..4])
              == (RemoveCtr(StopCtr(w, w.ctr.value.id, answers[2]), w.ctr.value.id, answers[3]),
                  RecBanner(Recovering(w.rec, w.ctr, GitState(w.rec, answers[1].text))))
            else
              Alone(w, p, answers[..2]) == (w, RecBanner(Recovering(w.rec, None, GitState(w.rec, answers[1].text))))
  {
    var p := RecStart;
    RecoverFirstSteps(w, answers);
    if answers[1].ok && w.ctr.Some? {
      var r := Recovering(w.rec, w.ctr, GitState(w.rec, answers[1].text));
      AloneStep(w, p, answers, 2);
      OldContainerSteps(w, r, answers[2]);
      AloneStep(w, p, answers, 3);
      OldContainerSteps(StopCtr(w, w.ctr.value.id, answers[2]), r, answers[3]);
    }
  }

  lemma TailRaises(w: World, mode: Mode, answers: seq<Answer>)
    requires |answers| >= 3 && answers[0].ok
    requires Journal.Tail(w.classify, Some(w.journal), w.rec.eventsOffset).None?
    ensures Alone(w, ListStart(mode), answers) == (w, Ended(Raised))
  {
    var p := ListStart(mode);
    assert answers[..0] == [];
    AloneStep(w, p, answers, 0);
    assert Alone(w, p, answers[..1]) == (w, ListRead(mode, LookAt(w.ctr)));
    AloneStep(w, p, answers, 1);
    assert Alone(w, p, answers[..2]) == (w, ListTail(mode, LookAt(w.ctr), w.rec));
    AloneStep(w, p, answers, 2);
    assert answers == answers[..3] + answers[3..];
    AloneInTwo(w, p, answers[..3], answers[3..]);
    EndedStays(w, Raised, answers[3..]);
  }
}
