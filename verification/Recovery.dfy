/** What one uninterrupted recover does, whatever it is answered. */
module Recovery {
  import opened Common
  import opened Reconcile
  import opened TaskModel
  import opened Protocol
  import opened Uninterrupted

  /** How far the environment plays along: no Docker call raises, and the bind mounts that the start of the
      container needs are accepted; the commit's locked write goes through. */
  datatype Luck = Luck(docker: bool, store: bool)

  predicate AsksDocker(p: Proc) {
    p.RecGet? || p.RecStop? || p.RecRemove? || p.RecRun? || p.RecReload? || p.RecKillStop? || p.RecKillRemove?
  }

  predicate AnswerAsLucky(p: Proc, a: Answer, luck: Luck) {
    (luck.docker && AsksDocker(p) ==> a.ok) && (luck.store && p.RecCommit? ==> a.ok)
  }

  ghost predicate Lucky(w: World, p: Proc, answers: seq<Answer>, luck: Luck) {
    forall i :: 0 <= i < |answers| ==> AnswerAsLucky(Alone(w, p, answers[..i]).1, answers[i], luck)
  }

  /** Nothing but the record, the container and the log differs, and the log only grew. */
  ghost predicate OnlyTaskChanged(w0: World, w: World) {
    && w.journal == w0.journal && w.classify == w0.classify && w.errorLog == w0.errorLog
    && w.worktree == w0.worktree && w.acts == w0.acts && w.taskImage == w0.taskImage
    && w0.logSize <= w.logSize
  }

  predicate Captured(w0: World, r: Recovering) {
    && r.rec0 == w0.rec && w0.rec.status == Interrupted && (r.prev.Some? ==> r.prev == w0.ctr)
    && (!(w0.rec.project && w0.rec.worktreePath) ==> r.gitState == "")
  }

  predicate NewContainerUp(w0: World, w: World, newId: nat) {
    newId == w0.nextId && w.nextId == newId + 1 && w.ctr == Some(Ctr(newId, CtrRunning, None))
  }

  /** The committed record: running, one more recovery, whose entry carries the new count and what was
      captured of the old container; offset, high-water mark and finish time untouched. */
  ghost predicate Committed(w0: World, w: World) {
    var d, e := w0.rec, w.rec;
    && e.status == Running && e.recoveryCount == d.recoveryCount + 1
    && |e.recoveryHistory| == |d.recoveryHistory| + 1
    && e.recoveryHistory[..|d.recoveryHistory|] == d.recoveryHistory
    && EntryFits(w0, e.recoveryHistory[|d.recoveryHistory|])
    && e.imageDigest == e.recoveryHistory[|d.recoveryHistory|].newDigest && e.imageTag == w0.taskImage
    && e == d.(status := e.status, recoveryCount := e.recoveryCount, recoveryHistory := e.recoveryHistory,
               imageDigest := e.imageDigest, imageTag := e.imageTag, updatedAt := e.updatedAt)
    && NewContainerUp(w0, w, w0.nextId)
  }

  predicate EntryFits(w0: World, h: Recovery) {
    && h.recoveryCount == w0.rec.recoveryCount + 1
    && (h.prevContainer.Some? ==> w0.ctr.Some? && h.prevContainer.value == w0.ctr.value.id
                                  && h.prevExit == w0.ctr.value.exit)
    && (h.prevContainer.None? ==> h.prevExit.None?)
    && (!(w0.rec.project && w0.rec.worktreePath) ==> h.gitState == "")
    && h.prevDigest == w0.rec.imageDigest && h.prevTag == w0.rec.imageTag && h.newTag == w0.taskImage
  }

  /** Where a recover that started in w0 can stand. */
  ghost predicate RecoveringFrom(w0: World, luck: Luck, w: World, p: Proc) {
    && OnlyTaskChanged(w0, w)
    && (p == Ended(Recovered) || w.rec == w0.rec)
    && match p
       case RecStart => w == w0
       case RecGet(rec0) => w == w0 && rec0 == w0.rec && rec0.status == Interrupted
       case RecStop(r) => Captured(w0, r) && r.prev.Some? && w == w0
       case RecRemove(r) =>
         Captured(w0, r) && r.prev.Some? && Holds(w, r.prev.value.id) && w.nextId == w0.nextId
       case RecBanner(r) => Cleared(w0, luck, w, r)
       case RecRun(r) => Cleared(w0, luck, w, r)
       case RecReload(r, newId) => Captured(w0, r) && NewContainerUp(w0, w, newId)
       case RecCommit(r, newId, _) => Captured(w0, r) && NewContainerUp(w0, w, newId)
       case RecKillStop(newId, o) => Undoing(w0, luck, w, newId, o)
       case RecKillRemove(newId, o) => Undoing(w0, luck, w, newId, o)
       case Ended(o) => RecoverResult(w0, luck, w, o)
       case _ => false
  }

  predicate Cleared(w0: World, luck: Luck, w: World, r: Recovering) {
    Captured(w0, r) && w.nextId == w0.nextId && (luck.docker ==> w.ctr.None?)
  }

  predicate Undoing(w0: World, luck: Luck, w: World, newId: nat, o: Outcome) {
    && w0.rec.status == Interrupted && o == RecoverFailed && !(luck.docker && luck.store)
    && Holds(w, newId)
  }

  /** How a recover may end: refused at once, committed, or failed with the record as it was; and with
      Docker healthy a failed one leaves no container. */
  ghost predicate RecoverResult(w0: World, luck: Luck, w: World, o: Outcome) {
    match o
    case NotInterrupted => w == w0 && w0.rec.status != Interrupted
    case Recovered => w0.rec.status == Interrupted && Committed(w0, w)
    case RecoverFailed =>
      && w0.rec.status == Interrupted && w.rec == w0.rec
      && !(luck.docker && luck.store) && (luck.docker ==> w.ctr.None?)
    case _ => false
  }

  lemma CommitStands(w0: World, luck: Luck, w: World, r: Recovering, newId: nat, digest: string, a: Answer)
    requires RecoveringFrom(w0, luck, w, RecCommit(r, newId, digest))
    requires AnswerAsLucky(RecCommit(r, newId, digest), a, luck)
    ensures var (v, q) := Step(w, RecCommit(r, newId, digest), a); RecoveringFrom(w0, luck, v, q)
  {
    var (v, q) := Step(w, RecCommit(r, newId, digest), a);
    if a.ok {
      assert v.rec.recoveryHistory[..|w0.rec.recoveryHistory|] == w0.rec.recoveryHistory;
      assert Committed(w0, v);
    }
  }

  lemma RemovalStands(w0: World, luck: Luck, w: World, p: Proc, a: Answer)
    requires p.RecGet? || p.RecStop? || p.RecRemove? || p.RecBanner?
    requires RecoveringFrom(w0, luck, w, p) && AnswerAsLucky(p, a, luck)
    ensures RecoveringFrom(w0, luck, Step(w, p, a).0, Step(w, p, a).1)
  {
  }

  lemma NewContainerStands(w0: World, luck: Luck, w: World, p: Proc, a: Answer)
    requires p.RecRun? || p.RecReload? || p.RecKillStop? || p.RecKillRemove?
    requires RecoveringFrom(w0, luck, w, p) && AnswerAsLucky(p, a, luck)
    ensures RecoveringFrom(w0, luck, Step(w, p, a).0, Step(w, p, a).1)
  {
  }

  lemma RecoverStep(w0: World, luck: Luck, w: World, p: Proc, a: Answer)
    requires RecoveringFrom(w0, luck, w, p) && AnswerAsLucky(p, a, luck)
    ensures RecoveringFrom(w0, luck, Step(w, p, a).0, Step(w, p, a).1)
  {
    if p.RecCommit? {
      CommitStands(w0, luck, w, p.r, p.newId, p.digest, a);
    } else if p.RecGet? || p.RecStop? || p.RecRemove? || p.RecBanner? {
      RemovalStands(w0, luck, w, p, a);
    } else if p.RecRun? || p.RecReload? || p.RecKillStop? || p.RecKillRemove? {
      NewContainerStands(w0, luck, w, p, a);
    }
  }

  lemma {:induction false} RecoverStands(w: World, answers: seq<Answer>, luck: Luck)
    requires Lucky(w, RecStart, answers, luck)
    ensures RecoveringFrom(w, luck, Alone(w, RecStart, answers).0, Alone(w, RecStart, answers).1)
  {
    if answers != [] {
      var n := |answers| - 1;
      LuckyFront(w, answers, n, luck);
      RecoverStands(w, answers[..n], luck);
      RecoverStep(w, luck, Alone(w, RecStart, answers[..n]).0, Alone(w, RecStart, answers[..n]).1, answers[n]);
    }
  }

  lemma LuckyFront(w: World, answers: seq<Answer>, n: nat, luck: Luck)
    requires Lucky(w, RecStart, answers, luck) && n < |answers|
    ensures Lucky(w, RecStart, answers[..n], luck)
    ensures AnswerAsLucky(Alone(w, RecStart, answers[..n]).1, answers[n], luck)
  {
    forall i | 0 <= i < n
      ensures AnswerAsLucky(Alone(w, RecStart, answers[..n][..i]).1, answers[..n][i], luck)
    {
      assert answers[..n][..i] == answers[..i];
    }
  }

  /** Main result: one uninterrupted recover refuses a task that is not interrupted without touching
      anything. On an interrupted task it either commits (record running with one more, correctly
      numbered history entry, a new running container under the name, everything else as it was) or
      fails with the record untouched. With Docker healthy a failed recover leaves no container; with
      the store healthy too it never fails. */
  lemma RecoverAlone(w: World, answers: seq<Answer>, luck: Luck)
    requires Lucky(w, RecStart, answers, luck) && |answers| >= 10
    ensures var (v, q) := Alone(w, RecStart, answers);
            && q.Ended? && RecoverResult(w, luck, v, q.outcome) && OnlyTaskChanged(w, v)
            && (q.outcome == NotInterrupted <==> w.rec.status != Interrupted)
            && (luck.docker && luck.store && w.rec.status == Interrupted ==> q.outcome == Recovered)
  {
    RecoverStands(w, answers, luck);
    EveryProcessEnds(w, RecStart, answers);
  }
}
