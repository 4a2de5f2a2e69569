/** What one uninterrupted process achieves, from any state that races and crashes may have left. */
module Uninterrupted {
  import opened Common
  import opened Reconcile
  import opened TaskModel
  import opened Protocol
  import opened Safety
  import Journal

  // ----- Every process ends -----

  /** Steps a process has left, at most. */
  function Rank(p: Proc): nat {
    match p
    case Ended(_) => 0
    case ReapAdvance(_) => 1
    case Tearing(_, pc) =>
      (match pc
       case TdMark(_) => 1
       case TdTerminal => 2
       case TdGit(_) => 3
       case TdPolicy(_) => 4
       case TdCapture(_) => 5
       case TdVerify(_) => 6
       case TdRemove(_, _) => 7
       case TdStop(_, _) => 8
       case TdGet(_) => 9
       case TdRead => 10)
    case ListWrite(_) => 11
    case ListDiag(_) => 12
    case ListLog(_, _, _, _) => 13
    case ListTail(_, _, _) => 14
    case ListRead(_, _) => 15
    case ListStart(_) => 16
    case FinishProbe(_) => 11
    case FinishStart(_, _) => 12
    case RecKillRemove(_, _) => 1
    case RecKillStop(_, _) => 2
    case RecCommit(_, _, _) => 3
    case RecReload(_, _) => 4
    case RecRun(_) => 5
    case RecBanner(_) => 6
    case RecRemove(_) => 7
    case RecStop(_) => 8
    case RecGet(_) => 9
    case RecStart => 10
  }

  lemma TeardownRankFalls(w: World, td: Teardown, pc: TdPc, a: Answer)
    ensures Rank(StepTeardown(w, td, pc, a).1) < Rank(Tearing(td, pc))
  {
  }

  lemma ListRankFalls(w: World, p: Proc, a: Answer)
    requires p.ListStart? || p.ListRead? || p.ListTail? || p.ListLog? || p.ListDiag? || p.ListWrite? || p.ReapAdvance?
    ensures Rank(StepList(w, p, a).1) < Rank(p)
  {
  }

  lemma RankFalls(w: World, p: Proc, a: Answer)
    ensures Rank(Step(w, p, a).1) < Rank(p) || p.Ended?
  {
    match p
    case Tearing(td, pc) => TeardownRankFalls(w, td, pc, a);
    case ListStart(_) => ListRankFalls(w, p, a);
    case ListRead(_, _) => ListRankFalls(w, p, a);
    case ListTail(_, _, _) => ListRankFalls(w, p, a);
    case ListLog(_, _, _, _) => ListRankFalls(w, p, a);
    case ListDiag(_) => ListRankFalls(w, p, a);
    case ListWrite(_) => ListRankFalls(w, p, a);
    case ReapAdvance(_) => ListRankFalls(w, p, a);
    case _ =>
  }

  lemma AloneStep(w: World, p: Proc, answers: seq<Answer>, k: nat)
    requires k < |answers|
    ensures Alone(w, p, answers[..k + 1]) ==
            Step(Alone(w, p, answers[..k]).0, Alone(w, p, answers[..k]).1, answers[k])
  {
    assert answers[..k + 1][..k] == answers[..k];
  }

  lemma {:induction false} AloneInTwo(w: World, p: Proc, early: seq<Answer>, late: seq<Answer>)
    ensures Alone(w, p, early + late) == Alone(Alone(w, p, early).0, Alone(w, p, early).1, late)
  {
    if late == [] {
      assert early + late == early;
    } else {
      assert (early + late)[..|early + late| - 1] == early + late[..|late| - 1];
      AloneInTwo(w, p, early, late[..|late| - 1]);
    }
  }

  /** A process that is never killed ends, whatever it is answered. */
  lemma {:induction false} EveryProcessEnds(w: World, p: Proc, answers: seq<Answer>)
    ensures Rank(Alone(w, p, answers).1) == 0 || Rank(Alone(w, p, answers).1) + |answers| <= Rank(p)
    ensures Rank(p) <= |answers| ==> Alone(w, p, answers).1.Ended?
  {
    if answers != [] {
      var front := answers[..|answers| - 1];
      EveryProcessEnds(w, p, front);
      var (v, q) := Alone(w, p, front);
      RankFalls(v, q, answers[|answers| - 1]);
    }
  }

  lemma {:induction false} EndedStays(w: World, o: Outcome, answers: seq<Answer>)
    ensures Alone(w, Ended(o), answers) == (w, Ended(o))
  {
    if answers != [] {
      EndedStays(w, o, answers[..|answers| - 1]);
    }
  }

  // ----- Teardown, whatever Docker and git answer -----

  const LOOKED: seq<Act> := [LookedUp(false), Captured]

  /** The acts of a teardown that has not written yet, by where it stands. */
  predicate ActsSoFar(pc: TdPc, t: seq<Act>) {
    match pc
    case TdMark(_) =>
      t == [LookupFailed] || t == [LookedUp(true)] || t == LOOKED || t == LOOKED + [WorktreeRemoved]
    case TdCapture(_) => t == [LookedUp(false)]
    case TdPolicy(_) => t == LOOKED
    case TdGit(_) => t == LOOKED
    case TdTerminal => t == LOOKED || t == LOOKED + [WorktreeRemoved]
    case _ => t == []
  }

  /** A clean teardown: the lookup said NotFound, then the capture, then the worktree removal if there
      was one, then the terminal write. */
  predicate CleanActs(t: seq<Act>) {
    t == LOOKED + [WroteTerminal] || t == LOOKED + [WorktreeRemoved, WroteTerminal]
  }

  /** A handled failure: the failed write after the failing lookup or the failing removal. */
  predicate FailedActs(t: seq<Act>) {
    || t == [LookupFailed, WroteFailed]
    || t == [LookedUp(true), WroteFailed]
    || t == LOOKED + [WroteFailed]
    || t == LOOKED + [WorktreeRemoved, WroteFailed]
  }

  /** Where a teardown that started in w0 can stand, and what it has done by then. */
  ghost predicate TearingFrom(w0: World, td: Teardown, w: World, p: Proc) {
    exists t: seq<Act> :: w.acts == w0.acts + t && TearingWith(w0, td, w, p, t)
  }

  ghost predicate TearingWith(w0: World, td: Teardown, w: World, p: Proc, t: seq<Act>) {
    && (t == [] || t[0] != LookedUp(false) ==> w.worktree == w0.worktree)
    && match p
       case Tearing(td', pc) => td' == td && w.rec == w0.rec && ActsSoFar(pc, t)
       case ReapAdvance(off) =>
         td.after == ReapAdvances(off) && CleanActs(t) && w.rec.status == td.target
       case Ended(o) =>
         || (CleanActs(t) && w.rec.status == td.target
             && o == if td.after.FinishReturns? then FinishReturned else Listed(1, 0, false))
         || (FailedActs(t) && o == Exits(td)
             && w.rec.status == Failed && IsFinishReason(w.rec.failureReason))
       case _ => false
  }

  lemma TearingStep(w0: World, td: Teardown, w: World, p: Proc, t: seq<Act>, a: Answer)
    requires w.acts == w0.acts + t && TearingWith(w0, td, w, p, t)
    ensures TearingFrom(w0, td, Step(w, p, a).0, Step(w, p, a).1)
  {
    if p.Tearing? {
      ActsStep(w0, td, w, p.pc, t, a);
    } else {
      assert Step(w, p, a).0.acts == w0.acts + t;
      assert TearingWith(w0, td, Step(w, p, a).0, Step(w, p, a).1, t);
    }
  }

  /** The acts one teardown step adds. */
  function StepActs(w: World, td: Teardown, pc: TdPc, a: Answer): seq<Act> {
    match pc
    case TdVerify(_) => if !a.ok then [LookupFailed] else [LookedUp(w.ctr.Some?)]
    case TdMark(_) => [WroteFailed]
    case TdCapture(_) => [Captured]
    case TdGit(_) => if w.worktree && (a.ok || a.effect) then [WorktreeRemoved] else []
    case TdTerminal => [WroteTerminal]
    case _ => []
  }

  lemma StepAddsActs(w: World, td: Teardown, pc: TdPc, a: Answer)
    ensures StepTeardown(w, td, pc, a).0.acts == w.acts + StepActs(w, td, pc, a)
  {
    assert w.acts + [] == w.acts;
  }

  lemma ActsStep(w0: World, td: Teardown, w: World, pc: TdPc, t: seq<Act>, a: Answer)
    requires w.acts == w0.acts + t && TearingWith(w0, td, w, Tearing(td, pc), t)
    ensures TearingFrom(w0, td, StepTeardown(w, td, pc, a).0, StepTeardown(w, td, pc, a).1)
  {
    var (v, q) := StepTeardown(w, td, pc, a);
    var more := StepActs(w, td, pc, a);
    StepAddsActs(w, td, pc, a);
    assert v.acts == w0.acts + (t + more);
    assert t + [] == t;
    AppendActs();
    assert TearingWith(w0, td, v, q, t + more);
  }

  lemma AppendActs()
    ensures LOOKED + [WorktreeRemoved] + [WroteTerminal] == LOOKED + [WorktreeRemoved, WroteTerminal]
    ensures LOOKED + [WorktreeRemoved] + [WroteFailed] == LOOKED + [WorktreeRemoved, WroteFailed]
    ensures [LookedUp(false)] + [Captured] == LOOKED
    ensures [LookupFailed] + [WroteFailed] == [LookupFailed, WroteFailed]
    ensures [LookedUp(true)] + [WroteFailed] == [LookedUp(true), WroteFailed]
  {
  }

  /** Main result: whatever Docker and git answer, a teardown that returns did so on a clean trace, a
      handled failure left the record failed with a `finish:` reason, and the worktree is touched only
      after a lookup that said NotFound. */
  lemma {:induction false} TeardownTrace(w: World, td: Teardown, answers: seq<Answer>)
    ensures TearingFrom(w, td, Alone(w, Tearing(td, TdRead), answers).0, Alone(w, Tearing(td, TdRead), answers).1)
  {
    if answers == [] {
      assert w.acts == w.acts + [];
      assert TearingWith(w, td, w, Tearing(td, TdRead), []);
    } else {
      var front := answers[..|answers| - 1];
      TeardownTrace(w, td, front);
      var (v, q) := Alone(w, Tearing(td, TdRead), front);
      var t: seq<Act> :| v.acts == w.acts + t && TearingWith(w, td, v, q, t);
      TearingStep(w, td, v, q, t, answers[|answers| - 1]);
    }
  }

  // ----- Single steps -----

  lemma LookSteps(w: World, td: Teardown, a: Answer)
    ensures Step(w, Tearing(td, TdRead), a) == (w, Tearing(td, TdGet(w.rec)))
    ensures w.ctr.None? ==> Step(w, Tearing(td, TdGet(w.rec)), a) == (w, Tearing(td, TdVerify(w.rec)))
  {
  }

  lemma VerifyStep(w: World, td: Teardown, data: Rec, a: Answer)
    ensures Step(w, Tearing(td, TdVerify(data)), a)
         == (WithAct(w, if !a.ok then LookupFailed else LookedUp(w.ctr.Some?)),
             Tearing(td, if a.ok && w.ctr.None? then TdCapture(data) else TdMark(a.text)))
  {
  }

  lemma TerminalStep(w: World, td: Teardown, a: Answer)
    ensures Step(w, Tearing(td, TdTerminal), a)
         == (WithAct(w.(rec := TerminalMutator(w.rec, td.target, td.reason, a.text)), WroteTerminal), Returns(td))
  {
  }

  lemma CaptureStep(w: World, td: Teardown, data: Rec, a: Answer)
    ensures Step(w, Tearing(td, TdCapture(data)), a)
         == (WithAct(w, Captured), Tearing(td, if data.project then TdPolicy(data) else TdTerminal))
  {
  }

  // ----- Teardown with Docker healthy -----

  predicate CallsDocker(p: Proc) {
    || p.ListStart? || p.FinishProbe?
    || (p.Tearing? && (p.pc.TdGet? || p.pc.TdStop? || p.pc.TdRemove? || p.pc.TdVerify?))
  }

  predicate CallsGit(p: Proc) {
    p.Tearing? && p.pc.TdGit?
  }

  /** No Docker call raises; nor any git call when gitOk. */
  ghost predicate Healthy(w: World, p: Proc, answers: seq<Answer>, gitOk: bool) {
    forall i :: 0 <= i < |answers| ==>
      HealthyAnswer(Alone(w, p, answers[..i]).1, answers[i], gitOk)
  }

  predicate HealthyAnswer(p: Proc, a: Answer, gitOk: bool) {
    (CallsDocker(p) ==> a.ok) && (gitOk && CallsGit(p) ==> a.ok)
  }

  lemma HealthyFront(w: World, p: Proc, answers: seq<Answer>, n: nat, gitOk: bool)
    requires Healthy(w, p, answers, gitOk) && n <= |answers|
    ensures Healthy(w, p, answers[..n], gitOk)
    ensures n < |answers| ==> HealthyAnswer(Alone(w, p, answers[..n]).1, answers[n], gitOk)
  {
    forall i | 0 <= i < n ensures HealthyAnswer(Alone(w, p, answers[..n][..i]).1, answers[..n][i], gitOk) {
      assert answers[..n][..i] == answers[..i];
    }
  }

  lemma HealthyRest(w: World, p: Proc, answers: seq<Answer>, n: nat, gitOk: bool)
    requires Healthy(w, p, answers, gitOk) && n <= |answers|
    ensures Healthy(Alone(w, p, answers[..n]).0, Alone(w, p, answers[..n]).1, answers[n..], gitOk)
  {
    var (v, q) := Alone(w, p, answers[..n]);
    forall i | 0 <= i < |answers[n..]| ensures HealthyAnswer(Alone(v, q, answers[n..][..i]).1, answers[n..][i], gitOk) {
      assert answers[..n + i] == answers[..n] + answers[n..][..i];
      AloneInTwo(w, p, answers[..n], answers[n..][..i]);
      assert HealthyAnswer(Alone(w, p, answers[..n + i]).1, answers[n + i], gitOk);
    }
  }

  /** Nothing but the record, the container and the worktree differs. */
  ghost predicate SameSurroundings(w: World, v: World) {
    && v.journal == w.journal && v.logSize == w.logSize && v.errorLog == w.errorLog
    && v.classify == w.classify && v.nextId == w.nextId && v.taskImage == w.taskImage
  }

  ghost predicate TerminalFrom(d: Rec, td: Teardown, e: Rec) {
    exists ts: string :: e == TerminalMutator(d, td.target, td.reason, ts)
  }

  ghost predicate FailedFrom(d: Rec, e: Rec) {
    exists message: string, ts: string :: e == FailedMutator(d, message, ts)
  }

  /** Where a teardown that started in w0 with Docker healthy can stand. */
  ghost predicate HealthyTearing(w0: World, td: Teardown, gitOk: bool, w: World, p: Proc) {
    && SameSurroundings(w0, w)
    && match p
       case Tearing(td', pc) =>
         && td' == td && w.rec == w0.rec
         && (match pc
             case TdRead => true
             case TdGet(_) => true
             case TdStop(_, id) => Holds(w, id)
             case TdRemove(_, id) => Holds(w, id)
             case TdMark(_) => w.ctr.None? && !gitOk
             case _ => w.ctr.None?)
       case ReapAdvance(off) =>
         td.after == ReapAdvances(off) && w.ctr.None? && TerminalFrom(w0.rec, td, w.rec)
       case Ended(o) =>
         && w.ctr.None?
         && ((!gitOk && o == Exits(td) && FailedFrom(w0.rec, w.rec))
             || TornDown(w0.rec, td, w.rec, o))
       case _ => false
  }

  /** The record and outcome a clean teardown ends with. */
  ghost predicate TornDown(d: Rec, td: Teardown, e: Rec, o: Outcome) {
    match td.after
    case FinishReturns => o == FinishReturned && TerminalFrom(d, td, e)
    case ReapAdvances(off) =>
      o == Listed(1, 0, false) && exists m: Rec :: TerminalFrom(d, td, m) && e == AdvanceMutator(m, off)
  }

  lemma HealthyTearingStep(w0: World, td: Teardown, gitOk: bool, w: World, p: Proc, a: Answer)
    requires HealthyTearing(w0, td, gitOk, w, p) && HealthyAnswer(p, a, gitOk)
    ensures HealthyTearing(w0, td, gitOk, Step(w, p, a).0, Step(w, p, a).1)
  {
    var (v, q) := Step(w, p, a);
    if p.Tearing? && p.pc.TdTerminal? {
      assert v.rec == TerminalMutator(w0.rec, td.target, td.reason, a.text);
      assert TerminalFrom(w0.rec, td, v.rec);
    } else if p.Tearing? && p.pc.TdMark? {
      assert v.rec == FailedMutator(w0.rec, p.pc.message, a.text);
    } else if p.ReapAdvance? {
      assert v.rec == AdvanceMutator(w.rec, p.newOffset);
    }
  }

  lemma {:induction false} HealthyTeardownStands(w: World, td: Teardown, answers: seq<Answer>, gitOk: bool)
    requires Healthy(w, Tearing(td, TdRead), answers, gitOk)
    ensures HealthyTearing(w, td, gitOk, Alone(w, Tearing(td, TdRead), answers).0,
                           Alone(w, Tearing(td, TdRead), answers).1)
  {
    if answers != [] {
      var n := |answers| - 1;
      HealthyFront(w, Tearing(td, TdRead), answers, n, gitOk);
      HealthyTeardownStands(w, td, answers[..n], gitOk);
      var (v, q) := Alone(w, Tearing(td, TdRead), answers[..n]);
      HealthyTearingStep(w, td, gitOk, v, q, answers[n]);
    }
  }

  /** With Docker healthy a teardown ends with no container, and in the target status unless git failed. */
  lemma HealthyTeardown(w: World, td: Teardown, answers: seq<Answer>, gitOk: bool)
    requires Healthy(w, Tearing(td, TdRead), answers, gitOk) && |answers| >= 10
    ensures var (v, q) := Alone(w, Tearing(td, TdRead), answers);
            && q.Ended? && v.ctr.None? && SameSurroundings(w, v)
            && ((!gitOk && q == Ended(Exits(td)) && FailedFrom(w.rec, v.rec))
                || TornDown(w.rec, td, v.rec, q.outcome))
  {
    HealthyTeardownStands(w, td, answers, gitOk);
    EveryProcessEnds(w, Tearing(td, TdRead), answers);
  }

  // ----- finish repairs every state -----

  /** The status a successful finish ends with. */
  function FinishTarget(status: Status): Status {
    if Terminal(status) then status else Completed
  }

  lemma AloneFirst(w: World, p: Proc, answers: seq<Answer>)
    requires answers != []
    ensures Alone(w, p, answers) == Alone(Step(w, p, answers[0]).0, Step(w, p, answers[0]).1, answers[1..])
  {
    assert answers == answers[..1] + answers[1..];
    AloneInTwo(w, p, answers[..1], answers[1..]);
    AloneStep(w, p, answers, 0);
    assert answers[..0] == [];
  }

  lemma AloneFrom(w: World, p: Proc, answers: seq<Answer>, v: World, q: Proc)
    requires answers != [] && Step(w, p, answers[0]) == (v, q)
    ensures Alone(w, p, answers) == Alone(v, q, answers[1..])
  {
    AloneFirst(w, p, answers);
  }

  lemma HealthyFirst(w: World, p: Proc, answers: seq<Answer>, gitOk: bool)
    requires Healthy(w, p, answers, gitOk) && answers != []
    ensures HealthyAnswer(p, answers[0], gitOk)
    ensures Healthy(Step(w, p, answers[0]).0, Step(w, p, answers[0]).1, answers[1..], gitOk)
  {
    assert answers[..0] == [];
    HealthyRest(w, p, answers, 1, gitOk);
    AloneStep(w, p, answers, 0);
  }

  /** The result of a finish: nothing done, torn down to the target status, or stopped by git. */
  ghost predicate FinishResult(w: World, force: bool, override: Option<FinishPolicy>, gitOk: bool,
                               v: World, o: Outcome)
  {
    && v.ctr.None? && Terminal(v.rec.status)
    && (o == FinishNothingToDo <==>
          Terminal(w.rec.status) && !force && override.None? && w.ctr.None?)
    && (o == FinishNothingToDo ==> v == w)
    && (o == FinishReturned ==> v.rec.status == FinishTarget(w.rec.status))
    && (o == SystemExit ==> !gitOk && v.rec.status == Failed && IsFinishReason(v.rec.failureReason))
    && (o == FinishNothingToDo || o == FinishReturned || o == SystemExit)
  }

  lemma FinishTeardownResult(w: World, override: Option<FinishPolicy>, answers: seq<Answer>, gitOk: bool)
    requires Healthy(w, FinishTeardown(FinishTarget(w.rec.status), override), answers, gitOk) && |answers| >= 10
    ensures var (v, q) := Alone(w, FinishTeardown(FinishTarget(w.rec.status), override), answers);
            && q.Ended? && v.ctr.None? && Terminal(v.rec.status)
            && (q.outcome == FinishReturned || q.outcome == SystemExit)
            && (q.outcome == FinishReturned ==> v.rec.status == FinishTarget(w.rec.status))
            && (q.outcome == SystemExit ==> !gitOk && v.rec.status == Failed && IsFinishReason(v.rec.failureReason))
  {
    var td := Teardown(FinishTarget(w.rec.status), override, true, "", FinishReturns);
    HealthyTeardown(w, td, answers, gitOk);
    TornDownIsFinished(w.rec, td, Alone(w, Tearing(td, TdRead), answers).0.rec);
  }

  lemma TornDownIsFinished(d: Rec, td: Teardown, e: Rec)
    requires td.after.FinishReturns? && Terminal(td.target)
    ensures TerminalFrom(d, td, e) ==> e.status == td.target
    ensures FailedFrom(d, e) ==> e.status == Failed && IsFinishReason(e.failureReason)
  {
  }

  /** Main result: from any state whatever, one uninterrupted finish with Docker healthy ends terminal
      with no container; a terminal status is preserved unless git fails; and with nothing to clean up
      and no flag it does nothing. */
  lemma FinishRepairs(w: World, force: bool, override: Option<FinishPolicy>, answers: seq<Answer>, gitOk: bool)
    requires Healthy(w, FinishStart(force, override), answers, gitOk) && |answers| >= 12
    ensures var (v, q) := Alone(w, FinishStart(force, override), answers);
            q.Ended? && FinishResult(w, force, override, gitOk, v, q.outcome)
  {
    var p := FinishStart(force, override);
    if Terminal(w.rec.status) && !force && override.None? {
      AfterFirst(w, p, answers, gitOk, w, FinishProbe(w.rec.status));
      ProbeRepairs(w, answers[1..], gitOk);
    } else {
      AfterFirst(w, p, answers, gitOk, w, FinishTeardown(FinishTarget(w.rec.status), override));
      FinishTeardownResult(w, override, answers[1..], gitOk);
    }
  }

  /** finish's probe of a terminal task: a container that is still there is torn down. */
  lemma ProbeRepairs(w: World, answers: seq<Answer>, gitOk: bool)
    requires Terminal(w.rec.status)
    requires Healthy(w, FinishProbe(w.rec.status), answers, gitOk) && |answers| >= 11
    ensures var (v, q) := Alone(w, FinishProbe(w.rec.status), answers);
            q.Ended? && FinishResult(w, false, None, gitOk, v, q.outcome)
  {
    var p := FinishProbe(w.rec.status);
    assert answers[..0] == [];
    assert HealthyAnswer(Alone(w, p, answers[..0]).1, answers[0], gitOk);
    if w.ctr.Some? {
      AfterFirst(w, p, answers, gitOk, w, FinishTeardown(w.rec.status, None));
      ProbeTearsDown(w, answers[1..], gitOk);
    } else {
      AfterFirst(w, p, answers, gitOk, w, Ended(FinishNothingToDo));
      EndedStays(w, FinishNothingToDo, answers[1..]);
    }
  }

  lemma AfterFirst(w: World, p: Proc, answers: seq<Answer>, gitOk: bool, v: World, q: Proc)
    requires Healthy(w, p, answers, gitOk) && answers != []
    requires Step(w, p, answers[0]) == (v, q)
    ensures Alone(w, p, answers) == Alone(v, q, answers[1..])
    ensures Healthy(v, q, answers[1..], gitOk)
  {
    AloneFirst(w, p, answers);
    HealthyFirst(w, p, answers, gitOk);
  }

  lemma ProbeTearsDown(w: World, answers: seq<Answer>, gitOk: bool)
    requires Terminal(w.rec.status) && w.ctr.Some?
    requires Healthy(w, FinishTeardown(w.rec.status, None), answers, gitOk) && |answers| >= 10
    ensures var (v, q) := Alone(w, FinishTeardown(w.rec.status, None), answers);
            q.Ended? && FinishResult(w, false, None, gitOk, v, q.outcome)
  {
    FinishTeardownResult(w, None, answers, gitOk);
  }

  // ----- One uninterrupted list or reap -----

  /** What the task's reconciliation reads when nothing interferes. */
  function PlanNow(w: World, mode: Mode, tail: Journal.Tailed): Plan {
    Plan(mode, LookAt(w.ctr), w.rec, tail, w.logSize)
  }

  function AfterDiag(w: World, plan: Plan): World {
    if plan.Defers() || plan.mode.dry then w else w.(errorLog := w.errorLog + plan.tail.malformed)
  }

  /** An uninterrupted reconciliation up to its write. */
  lemma ListBeforeWrite(w: World, mode: Mode, answers: seq<Answer>)
    requires |answers| >= 5 && answers[0].ok
    requires Journal.Tail(w.classify, Some(w.journal), w.rec.eventsOffset).Some?
    ensures var plan := PlanNow(w, mode, Journal.Tail(w.classify, Some(w.journal), w.rec.eventsOffset).value);
            Alone(w, ListStart(mode), answers[..5]) == (AfterDiag(w, plan), ListWrite(plan))
  {
    var p := ListStart(mode);
    var tail := Journal.Tail(w.classify, Some(w.journal), w.rec.eventsOffset).value;
    ListReads(w, mode, answers);
    AloneStep(w, p, answers, 3);
    AloneStep(w, p, answers, 4);
    PlanSteps(w, mode, tail, answers[3], answers[4]);
  }

  /** The first six steps of an uninterrupted reconciliation. */
  lemma ListAlone(w: World, mode: Mode, answers: seq<Answer>)
    requires |answers| >= 6 && answers[0].ok
    requires Journal.Tail(w.classify, Some(w.journal), w.rec.eventsOffset).Some?
    ensures var plan := PlanNow(w, mode, Journal.Tail(w.classify, Some(w.journal), w.rec.eventsOffset).value);
            Alone(w, ListStart(mode), answers[..6]) == StepListWrite(AfterDiag(w, plan), plan, answers[5])
  {
    var plan := PlanNow(w, mode, Journal.Tail(w.classify, Some(w.journal), w.rec.eventsOffset).value);
    WriteFollows(w, mode, answers, AfterDiag(w, plan), plan) by {
      ListBeforeWrite(w, mode, answers);
    }
  }

  lemma WriteFollows(w: World, mode: Mode, answers: seq<Answer>, v: World, plan: Plan)
    requires |answers| >= 6 && Alone(w, ListStart(mode), answers[..5]) == (v, ListWrite(plan))
    ensures Alone(w, ListStart(mode), answers[..6]) == StepListWrite(v, plan, answers[5])
  {
    AloneStep(w, ListStart(mode), answers, 5);
    WriteStep(v, plan, answers[5]);
  }

  lemma WriteStep(w: World, plan: Plan, a: Answer)
    ensures Step(w, ListWrite(plan), a) == StepListWrite(w, plan, a)
  {
  }

  lemma PlanSteps(w: World, mode: Mode, tail: Journal.Tailed, a3: Answer, a4: Answer)
    ensures var plan := PlanNow(w, mode, tail);
            && Step(w, ListLog(mode, LookAt(w.ctr), w.rec, tail), a3) == (w, ListDiag(plan))
            && Step(w, ListDiag(plan), a4) == (AfterDiag(w, plan), ListWrite(plan))
  {
  }

  lemma ListReads(w: World, mode: Mode, answers: seq<Answer>)
    requires |answers| >= 3 && answers[0].ok
    requires Journal.Tail(w.classify, Some(w.journal), w.rec.eventsOffset).Some?
    ensures Alone(w, ListStart(mode), answers[..3]) ==
            (w, ListLog(mode, LookAt(w.ctr), w.rec,
                        Journal.Tail(w.classify, Some(w.journal), w.rec.eventsOffset).value))
  {
    var p := ListStart(mode);
    assert answers[..0] == [];
    AloneStep(w, p, answers, 0);
    assert Alone(w, p, answers[..1]) == (w, ListRead(mode, LookAt(w.ctr)));
    AloneStep(w, p, answers, 1);
    assert Alone(w, p, answers[..2]) == (w, ListTail(mode, LookAt(w.ctr), w.rec));
    AloneStep(w, p, answers, 2);
  }

  /** With the journal at rest, a second tail has nothing more to read. */
  lemma TailAtEnd(cls: Journal.Classifier, bytes: seq<byte>, offset: nat)
    requires Journal.Boundary(bytes, offset) && Journal.Tail(cls, Some(bytes), offset).Some?
    ensures var t := Journal.Tail(cls, Some(bytes), offset).value;
            Journal.Boundary(bytes, t.offset)
            && Journal.Tail(cls, Some(bytes), t.offset) == Some(Journal.Tailed(t.offset, [], []))
  {
    var n := Journal.Consumed(bytes[offset..]);
    Journal.TailEndsAtBoundary(cls, bytes, offset);
    assert bytes[offset..][n..] == bytes[offset + n..];
    FragmentHasNoLines(bytes[offset..], bytes[offset + n..]);
  }

  lemma FragmentHasNoLines(chunk: seq<byte>, rest: seq<byte>)
    requires rest == chunk[Journal.Consumed(chunk)..]
    ensures Journal.Lines(rest) == [] && Journal.Fragment(rest) == rest
  {
    Journal.SplitIsExact(chunk);
    assert rest == Journal.Fragment(chunk);
    assert Journal.NEWLINE !in Journal.Split(chunk)[|Journal.Split(chunk)| - 1];
    Journal.SplitNoNewline(rest);
  }

  /** Main result: with journal, log and container at rest, a second list leaves everything, the
      record's update time included, exactly as the first one did. */
  lemma ListReachesFixpoint(w: World, first: seq<Answer>, second: seq<Answer>)
    requires Journal.Boundary(w.journal, w.rec.eventsOffset)
    requires Journal.Tail(w.classify, Some(w.journal), w.rec.eventsOffset).Some?
    requires |first| == 6 && first[0].ok && |second| == 6 && second[0].ok
    ensures var mode := Mode(false, false);
            var (v, q) := Alone(w, ListStart(mode), first);
            && q == Ended(Listed(0, 0, false))
            && Alone(v, ListStart(mode), second) == (v, Ended(Listed(0, 0, false)))
  {
    var mode := Mode(false, false);
    var t := Journal.Tail(w.classify, Some(w.journal), w.rec.eventsOffset).value;
    var plan := PlanNow(w, mode, t);
    assert first[..6] == first && second[..6] == second;
    ListAlone(w, mode, first);
    var (v, q) := Alone(w, ListStart(mode), first);
    FirstPass(w, plan, first[5].text);
    TailAtEnd(w.classify, w.journal, w.rec.eventsOffset);
    var t2 := if plan.HoldOffset() then t else Journal.Tailed(t.offset, [], []);
    assert Journal.Tail(v.classify, Some(v.journal), v.rec.eventsOffset) == Some(t2);
    ListAlone(v, mode, second);
    SecondPass(w, plan, v, PlanNow(v, mode, t2), second[5].text);
    assert v.errorLog + [] == v.errorLog;
  }

  /** What the first pass writes. */
  lemma FirstPass(w: World, plan: Plan, ts: string)
    requires plan == PlanNow(w, Mode(false, false), plan.tail)
    ensures !Stale(w.rec, plan)
    ensures ListWrites(w.rec, plan, ListMutator(w.rec, plan, ts))
  {
    ListMutatorWrites(w.rec, plan, ts);
  }

  lemma SecondPass(w: World, plan: Plan, v: World, plan2: Plan, ts: string)
    requires plan == PlanNow(w, Mode(false, false), plan.tail)
    requires v.ctr == w.ctr && v.logSize == w.logSize && ListWrites(w.rec, plan, v.rec)
    requires plan.HoldOffset() ==> v.rec.failureReason == w.rec.failureReason
    requires plan2 == PlanNow(v, Mode(false, false),
                              if plan.HoldOffset() then plan.tail else Journal.Tailed(plan.tail.offset, [], []))
    ensures plan2.Defers() == plan.Defers()
    ensures ListMutator(v.rec, plan2, ts) == v.rec
  {
    ComputedIsStable(w.rec.status, plan.look.state, plan.look.exit, plan.Kind());
    if !plan.HoldOffset() {
      assert plan2.Kind() == None;
      assert plan2.Computes() == ComputeStatus(plan.Computes().status, plan.look.state, plan.look.exit, None);
    }
  }

  /** The steps of a list or reap that was asked to be dry. */
  predicate IsDry(p: Proc) {
    match p
    case ListStart(mode) => mode.dry
    case ListRead(mode, _) => mode.dry
    case ListTail(mode, _, _) => mode.dry
    case ListLog(mode, _, _, _) => mode.dry
    case ListDiag(plan) => plan.mode.dry
    case ListWrite(plan) => plan.mode.dry
    case Ended(_) => true
    case _ => false
  }

  /** No step of a dry reap changes the world, in whatever state the other processes have left it. */
  lemma DryStepChangesNothing(w: World, p: Proc, a: Answer)
    requires IsDry(p)
    ensures Step(w, p, a).0 == w && IsDry(Step(w, p, a).1)
  {
  }

  /** However it is answered and wherever it stops, a dry reap leaves the world as it was. */
  lemma {:induction false} DryReapChangesNothing(w: World, reap: bool, answers: seq<Answer>)
    ensures Alone(w, ListStart(Mode(reap, true)), answers).0 == w
    ensures IsDry(Alone(w, ListStart(Mode(reap, true)), answers).1)
  {
    if answers != [] {
      var front := answers[..|answers| - 1];
      DryReapChangesNothing(w, reap, front);
      DryStepChangesNothing(w, Alone(w, ListStart(Mode(reap, true)), front).1, answers[|answers| - 1]);
    }
  }

  /** A dry reap changes nothing at all, and counts the task exactly when an uninterrupted real reap,
      with Docker and git healthy, reaps it. */
  lemma DryReapPredicts(w: World, dry: seq<Answer>, live: seq<Answer>)
    requires Journal.Tail(w.classify, Some(w.journal), w.rec.eventsOffset).Some?
    requires |dry| >= 6 && dry[0].ok
    requires Healthy(w, ListStart(Mode(true, false)), live, true) && |live| >= 16
    ensures var (v, q) := Alone(w, ListStart(Mode(true, true)), dry);
            var (u, r) := Alone(w, ListStart(Mode(true, false)), live);
            && v == w && q.Ended? && q.outcome.Listed? && r.Ended? && r.outcome.Listed?
            && q.outcome.reaped == 0 && r.outcome.wouldReap == 0
            && q.outcome.wouldReap == r.outcome.reaped
  {
    var t := Journal.Tail(w.classify, Some(w.journal), w.rec.eventsOffset).value;
    ListAlone(w, Mode(true, true), dry);
    var plan := PlanNow(w, Mode(true, true), t);
    assert dry == dry[..6] + dry[6..];
    AloneInTwo(w, ListStart(Mode(true, true)), dry[..6], dry[6..]);
    EndedStays(w, Listed(0, if plan.DryPending() then 1 else 0, false), dry[6..]);
    ReapAlone(w, live);
    assert PlanNow(w, Mode(true, true), t).TerminalAutoPending()
        == PlanNow(w, Mode(true, false), t).TerminalAutoPending();
  }

  /** The teardown an uninterrupted reap runs. */
  function ReapTeardown(plan: Plan): Teardown {
    Teardown(if plan.Kind() == Some(Journal.Done) then Completed else Failed, None, false,
             plan.FailReason(), ReapAdvances(plan.tail.offset))
  }

  /** An uninterrupted reap with Docker and git healthy: its one write, then the teardown if the event
      is pending. */
  lemma ReapAlone(w: World, answers: seq<Answer>)
    requires Journal.Tail(w.classify, Some(w.journal), w.rec.eventsOffset).Some?
    requires Healthy(w, ListStart(Mode(true, false)), answers, true) && |answers| >= 16
    ensures var tail := Journal.Tail(w.classify, Some(w.journal), w.rec.eventsOffset).value;
            var plan := PlanNow(w, Mode(true, false), tail);
            var w1 := AfterDiag(w, plan);
            var d := ListMutator(w1.rec, plan, answers[5].text);
            var (v, q) := Alone(w, ListStart(Mode(true, false)), answers);
            if plan.TerminalAutoPending() then
              q.Ended? && v.ctr.None? && SameSurroundings(w1, v) && TornDown(d, ReapTeardown(plan), v.rec, q.outcome)
            else
              q == Ended(Listed(0, 0, false)) && v == w1.(rec := d)
  {
    var mode := Mode(true, false);
    var p := ListStart(mode);
    assert answers[..0] == [];
    assert HealthyAnswer(Alone(w, p, answers[..0]).1, answers[0], true);
    ListAlone(w, mode, answers);
    var plan := PlanNow(w, mode, Journal.Tail(w.classify, Some(w.journal), w.rec.eventsOffset).value);
    var (w6, p6) := Alone(w, p, answers[..6]);
    assert answers == answers[..6] + answers[6..];
    AloneInTwo(w, p, answers[..6], answers[6..]);
    HealthyRest(w, p, answers, 6, true);
    if plan.TerminalAutoPending() {
      assert p6 == Tearing(ReapTeardown(plan), TdRead);
      HealthyTeardown(w6, ReapTeardown(plan), answers[6..], true);
    } else {
      EndedStays(w6, Listed(0, 0, false), answers[6..]);
    }
  }
}
